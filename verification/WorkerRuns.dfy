/** Every step keeps the invariant; what that means for whole runs. */
module WorkerRuns {
  import opened Options
  import opened Worker
  import opened WorkerInvariant

  function Start(): State
  {
    State(map[], 0, map[], [], map[], map[], multiset{}, map[], 0, map[], map[])
  }

  lemma StartInv(lim: Limits)
    ensures Inv(Start(), lim)
  {
    forall p
      ensures Undone(Start().jobs, p) == {}
    {
    }
  }

  // ---- locks -----------------------------------------------------------------------------

  predicate SameSeries(a: map<nat, Job>, b: map<nat, Job>)
  {
    forall id :: id in a ==> id in b && b[id].series == a[id].series
  }

  /** Rows may change, but not their series. */
  lemma LocksRows(st: State, r: State)
    requires LocksOk(st) && SameSeries(st.jobs, r.jobs)
    requires r.tasks == st.tasks && r.locks == st.locks && r.nextLock == st.nextLock && r.held == st.held
    ensures LocksOk(r)
  {
    forall t | t in r.tasks
      ensures LockOk(r, t)
    {
      assert LockOk(st, t);
      var p := r.tasks[t];
      forall key | Wants(r, p, key)
        ensures key in r.locks && r.locks[key] == p.lock
      {
        assert Wants(st, p, key);
      }
    }
  }

  /** A coroutine that wants no lock (any more) gives back the one it held. */
  lemma LocksDrop(st: State, task: nat, gone: bool, p: Phase)
    requires LocksOk(st) && task in st.tasks && (p.Dispatched? || p.Started? || p.Processed?)
    ensures LocksOk(st.(tasks := if gone then st.tasks - {task} else st.tasks[task := p],
                        held := if Holds(st.tasks[task]) then st.held - {st.tasks[task].lock} else st.held))
  {
    var r := st.(tasks := if gone then st.tasks - {task} else st.tasks[task := p],
                 held := if Holds(st.tasks[task]) then st.held - {st.tasks[task].lock} else st.held);
    assert LockOk(st, task);
    assert LockMap(r);
    forall t | t in r.tasks
      ensures LockOk(r, t)
    {
      if t != task {
        assert LockOk(st, t);
        forall key | Wants(r, r.tasks[t], key)
          ensures key in r.locks && r.locks[key] == r.tasks[t].lock
        {
          assert Wants(st, st.tasks[t], key);
        }
      }
    }
  }

  /** `setdefault` gives every key a lock object of its own. */
  lemma LocksFetch(st: State, key: int)
    requires LocksOk(st)
    ensures var (r, l) := LockFor(st, key);
            LocksOk(r) && key in r.locks && r.locks[key] == l && l < r.nextLock && (key !in st.locks ==> l !in st.held)
  {
    var (r, l) := LockFor(st, key);
    forall t | t in r.tasks
      ensures LockOk(r, t)
    {
      assert LockOk(st, t);
      forall k | Wants(r, r.tasks[t], k)
        ensures k in r.locks && r.locks[k] == r.tasks[t].lock
      {
        assert Wants(st, st.tasks[t], k);
      }
    }
  }

  /** A coroutine starts to wait for, or takes, the lock object of its key. */
  lemma LocksTake(st: State, task: nat, p: Phase, key: int)
    requires LocksOk(st) && (p.Waiting? || Holds(p))
    requires (p.Waiting? || p.Inside?) ==> p.job in st.jobs && key == Key(st.jobs[p.job])
    requires p.BibleEdit? ==> key == p.key
    requires key in st.locks && st.locks[key] == p.lock
    requires task in st.tasks ==> !Holds(st.tasks[task])
    requires Holds(p) ==> p.lock !in st.held
    ensures LocksOk(st.(tasks := st.tasks[task := p], held := if Holds(p) then st.held[p.lock := task] else st.held))
  {
    var r := st.(tasks := st.tasks[task := p], held := if Holds(p) then st.held[p.lock := task] else st.held);
    assert LockMap(r);
    forall t | t in r.tasks
      ensures LockOk(r, t)
    {
      if t != task {
        assert LockOk(st, t);
        forall k | Wants(r, r.tasks[t], k)
          ensures k in r.locks && r.locks[k] == r.tasks[t].lock
        {
          assert Wants(st, st.tasks[t], k);
        }
      }
    }
  }

  // ---- the steps -------------------------------------------------------------------------

  lemma InsertInv(st: State, call: nat, path: string, series: Option<int>, trigger: Trigger, cap: Option<nat>, lim: Limits)
    requires Inv(st, lim) && call !in st.calls && trigger != ManualRetry
    requires Automatic(trigger) ==> cap.Some? && cap.value <= lim.maxCap
    ensures Inv(Insert(st, call, path, series, trigger, cap), lim)
  {
    if Admits(st, path, trigger, cap) {
      InsertRowInv(st, path, series, trigger, lim);
      hide Table, LocksOk, Loose, Flow;
      var r := InsertRow(st, path, series, trigger);
      var c := Enqueuing(path, trigger, st.nextId);
      QueueFree(r, c);
      FlowCall(r, call, c);
      LocksFrame(r, r.(calls := r.calls[call := c]));
      TableFrame(r, r.(calls := r.calls[call := c]), lim);
    }
  }

  lemma QueueFree(st: State, c: Call)
    requires Loose(st, c.row) && c.row in st.jobs && st.jobs[c.row].status == Queued
    requires c.Enqueuing? ==> st.jobs[c.row].path == c.path && st.jobs[c.row].trigger == c.trigger && c.trigger != ManualRetry
    ensures CallOk(st, c)
  {
  }

  lemma LocksFrame(st: State, r: State)
    requires LocksOk(st) && r.jobs == st.jobs && r.tasks == st.tasks && r.locks == st.locks
    requires r.nextLock == st.nextLock && r.held == st.held
    ensures LocksOk(r)
  {
    LocksRows(st, r);
  }

  lemma TableFrame(st: State, r: State, lim: Limits)
    requires Table(st, lim) && r.jobs == st.jobs && r.nextId == st.nextId && r.manual == st.manual
    ensures Table(r, lim)
  {
    RewriteTable(st, r, lim);
  }

  lemma InsertRowInv(st: State, path: string, series: Option<int>, trigger: Trigger, lim: Limits)
    requires Inv(st, lim) && !HasActive(st.jobs, path) && trigger != ManualRetry
    requires Automatic(trigger) ==> |Terminal(st.jobs, path)| < lim.maxCap
    ensures Inv(InsertRow(st, path, series, trigger), lim) && Loose(InsertRow(st, path, series, trigger), st.nextId)
  {
    var r := InsertRow(st, path, series, trigger);
    InsertTable(st, path, series, trigger, lim);
    IdleIsLoose(st, st.nextId);
    FlowRow(st, st.nextId, Job(path, series, Queued, trigger, 0));
    var mid := st.(jobs := r.jobs);
    hide Flow, Table;
    FlowFrame(mid, r);
    LocksRows(st, r);
  }

  /** Rewriting the row of a coroutine that moves on without touching locks. */
  lemma MoveInv(st: State, task: nat, p: Phase, j: Job, lim: Limits)
    requires Inv(st, lim) && task in st.tasks && HasJob(st.tasks[task]) && !Holds(st.tasks[task])
    requires HasJob(p) && p.job == st.tasks[task].job && p.job in st.jobs
    requires p.Started? && j.status == Running
    requires Rewrites(st.jobs, st.jobs[p.job := j])
    ensures Inv(st.(jobs := st.jobs[p.job := j], tasks := st.tasks[task := p]), lim)
  {
    var r := st.(jobs := st.jobs[p.job := j], tasks := st.tasks[task := p]);
    FlowMove(st, task, p, j);
    RewriteTable(st, r, lim);
    hide Flow, Table;
    LocksDrop(st, task, false, p);
    LocksRows(st.(tasks := r.tasks), r);
  }

  /** A coroutine ends in any phase, with any verdict on its row. */
  lemma EndInv(st: State, task: nat, j: Job, lim: Limits)
    requires Inv(st, lim) && task in st.tasks && HasJob(st.tasks[task]) && st.tasks[task].job in st.jobs
    requires Rewrites(st.jobs, st.jobs[st.tasks[task].job := j])
    ensures Inv(st.(jobs := st.jobs[st.tasks[task].job := j], tasks := st.tasks - {task},
                    held := if st.tasks[task].Inside? then st.held - {st.tasks[task].lock} else st.held), lim)
  {
    var jobs := st.jobs[st.tasks[task].job := j];
    var held := if st.tasks[task].Inside? then st.held - {st.tasks[task].lock} else st.held;
    var r := st.(jobs := jobs, tasks := st.tasks - {task}, held := held);
    FlowEnd(st, task, j);
    RewriteTable(st, r, lim);
    LocksDrop(st, task, true, Dispatched(0));
    hide Flow, Table;
    FlowFrame(st.(jobs := jobs, tasks := r.tasks), r);
    LocksRows(st.(tasks := r.tasks, held := held), r);
  }

  lemma FinishInv(st: State, task: nat, o: Outcome, lim: Limits)
    requires Inv(st, lim) && Enabled(st, Finish(task, o), lim)
    ensures Inv(Next(st, Finish(task, o), lim), lim)
  {
    var id := st.tasks[task].job;
    assert TaskOk(st, st.tasks[task]);
    var j := st.jobs[id].(status := EndStatus(o));
    EndInv(st, task, j, lim);
    Reframe(st.(jobs := st.jobs[id := j], tasks := st.tasks - {task}), Next(st, Finish(task, o), lim), lim);
  }

  lemma AbortInv(st: State, task: nat, marked: bool, lim: Limits)
    requires Inv(st, lim) && Enabled(st, Abort(task, marked), lim)
    ensures Inv(Next(st, Abort(task, marked), lim), lim)
  {
    var id := st.tasks[task].job;
    assert TaskOk(st, st.tasks[task]);
    var j := if marked then st.jobs[id].(status := Failed) else st.jobs[id];
    EndInv(st, task, j, lim);
    assert !marked ==> st.jobs[id := j] == st.jobs;
  }

  /** Timers and the ledger are not part of the invariant. */
  lemma Reframe(st: State, r: State, lim: Limits)
    requires Inv(st, lim) && r.(timers := st.timers, ledger := st.ledger) == st
    ensures Inv(r, lim)
  {
    hide Enqueued;
    FlowFrame(st, r);
    LocksFrame(st, r);
    TableFrame(st, r, lim);
  }

  lemma RowOfTask(st: State, task: nat)
    requires Flow(st) && task in st.tasks && HasJob(st.tasks[task])
    ensures st.tasks[task].job in st.jobs
    ensures st.jobs[st.tasks[task].job].status == if st.tasks[task].Dispatched? then Queued else Running
  {
    assert TaskOk(st, st.tasks[task]);
  }

  lemma BeginInv(st: State, task: nat, lim: Limits)
    requires Inv(st, lim) && Enabled(st, Begin(task), lim)
    ensures Inv(Next(st, Begin(task), lim), lim)
  {
    hide Flow, Table, LocksOk, Next, Enabled;
    BeginNext(st, task, lim);
    RowOfTask(st, task);
    var id := st.tasks[task].job;
    MoveInv(st, task, Started(id), st.jobs[id].(status := Running, attempts := st.jobs[id].attempts + 1), lim);
  }

  lemma BeginNext(st: State, task: nat, lim: Limits)
    requires Enabled(st, Begin(task), lim)
    ensures task in st.tasks && st.tasks[task].Dispatched? && st.tasks[task].job in st.jobs
    ensures var id := st.tasks[task].job;
            var j := st.jobs[id];
            Next(st, Begin(task), lim)
              == st.(jobs := st.jobs[id := j.(status := Running, attempts := j.attempts + 1)], tasks := st.tasks[task := Started(id)])
  {
  }

  /** Only the phase of a coroutine that stays with its row, the lock map and the holders change. */
  lemma PhaseFlow(st: State, task: nat, r: State, p: Phase)
    requires Flow(st) && task in st.tasks && HasJob(st.tasks[task]) && !st.tasks[task].Dispatched?
    requires HasJob(p) && !p.Dispatched? && p.job == st.tasks[task].job
    requires r.jobs == st.jobs && r.queue == st.queue && r.calls == st.calls && r.tasks == st.tasks[task := p]
    ensures Flow(r)
  {
    assert TaskOk(st, st.tasks[task]);
    var mid := st.(jobs := st.jobs[p.job := st.jobs[p.job]], tasks := st.tasks[task := p]);
    FlowMove(st, task, p, st.jobs[p.job]);
    assert mid.jobs == st.jobs;
    FlowFrame(mid, r);
  }

  lemma FetchInv(st: State, task: nat, lim: Limits)
    requires Inv(st, lim) && Enabled(st, FetchLock(task), lim)
    ensures Inv(Next(st, FetchLock(task), lim), lim)
  {
    var id := st.tasks[task].job;
    var r := Next(st, FetchLock(task), lim);
    PhaseFlow(st, task, r, r.tasks[task]);
    TableFrame(st, r, lim);
    hide Flow, Table;
    LocksFetch(st, Key(st.jobs[id]));
    var (locked, l) := LockFor(st, Key(st.jobs[id]));
    LocksTake(locked, task, Waiting(id, l), Key(st.jobs[id]));
  }

  lemma AcquireInv(st: State, task: nat, lim: Limits)
    requires Inv(st, lim) && Enabled(st, Acquire(task), lim)
    ensures Inv(Next(st, Acquire(task), lim), lim)
  {
    var r := Next(st, Acquire(task), lim);
    PhaseFlow(st, task, r, r.tasks[task]);
    TableFrame(st, r, lim);
    assert LockOk(st, task);
    var w := st.tasks[task];
    assert Wants(st, w, Key(st.jobs[w.job]));
    hide Flow, Table;
    LocksTake(st, task, Inside(w.job, w.lock), Key(st.jobs[w.job]));
  }

  lemma ProcessInv(st: State, task: nat, lim: Limits)
    requires Inv(st, lim) && Enabled(st, Process(task), lim)
    ensures Inv(Next(st, Process(task), lim), lim)
  {
    var r := Next(st, Process(task), lim);
    PhaseFlow(st, task, r, r.tasks[task]);
    TableFrame(st, r, lim);
    hide Flow, Table;
    LocksDrop(st, task, false, Processed(st.tasks[task].job));
  }

  lemma EditInv(st: State, task: nat, key: int, lim: Limits)
    requires Inv(st, lim) && Enabled(st, EditAcquire(task, key), lim)
    ensures Inv(Next(st, EditAcquire(task, key), lim), lim)
  {
    var r := Next(st, EditAcquire(task, key), lim);
    EditFlow(st, task, r);
    TableFrame(st, r, lim);
    hide Flow, Table;
    LocksFetch(st, key);
    var (locked, l) := LockFor(st, key);
    LocksTake(locked, task, BibleEdit(key, l), key);
  }

  /** Coroutines without a row come and go. */
  lemma EditFlow(st: State, task: nat, r: State)
    requires Flow(st) && r.jobs == st.jobs && r.queue == st.queue && r.calls == st.calls
    requires task in r.tasks && !HasJob(r.tasks[task]) && r.tasks == st.tasks[task := r.tasks[task]]
    ensures Flow(r)
  {
    forall d | d in r.calls
      ensures CallOk(r, r.calls[d])
    {
      assert CallOk(st, st.calls[d]);
    }
    forall t | t in r.tasks
      ensures TaskOk(r, r.tasks[t])
    {
      assert t != task ==> TaskOk(st, st.tasks[t]);
    }
  }

  lemma ReleaseInv(st: State, task: nat, lim: Limits)
    requires Inv(st, lim) && Enabled(st, EditRelease(task), lim)
    ensures Inv(Next(st, EditRelease(task), lim), lim)
  {
    var r := Next(st, EditRelease(task), lim);
    FlowLess(st, task);
    TableFrame(st, r, lim);
    hide Table;
    FlowFrame(st.(tasks := r.tasks), r);
    LocksDrop(st, task, true, Dispatched(0));
  }

  lemma RetryInv(st: State, call: nat, row: nat, lim: Limits)
    requires Inv(st, lim) && Enabled(st, RetryReset(call, row), lim)
    ensures Inv(Next(st, RetryReset(call, row), lim), lim)
  {
    var r := Next(st, RetryReset(call, row), lim);
    var mid := st.(jobs := r.jobs);
    IdleIsLoose(st, row);
    RewriteTable(st, r, lim);
    LocksRows(st, r);
    FlowRow(st, row, r.jobs[row]);
    FlowCall(mid, call, Retrying(row));
  }

  lemma DispatchInv(st: State, task: nat, lim: Limits)
    requires Inv(st, lim) && Enabled(st, Dispatch(task), lim)
    ensures Inv(Next(st, Dispatch(task), lim), lim)
  {
    var r := Next(st, Dispatch(task), lim);
    FlowDispatch(st, task);
    TableFrame(st, r, lim);
    hide Flow, Table;
    LocksNew(st, r, task);
  }

  lemma LocksNew(st: State, r: State, task: nat)
    requires LocksOk(st) && r.jobs == st.jobs && r.locks == st.locks && r.nextLock == st.nextLock && r.held == st.held
    requires task !in st.tasks && task in r.tasks && r.tasks == st.tasks[task := r.tasks[task]] && r.tasks[task].Dispatched?
    ensures LocksOk(r)
  {
    forall t | t in r.tasks
      ensures LockOk(r, t)
    {
      if t != task {
        assert LockOk(st, t);
        forall key | Wants(r, r.tasks[t], key)
          ensures key in r.locks && r.locks[key] == r.tasks[t].lock
        {
          assert Wants(st, st.tasks[t], key);
        }
      }
    }
  }

  lemma PutInv(st: State, call: nat, lim: Limits)
    requires Inv(st, lim) && call in st.calls
    ensures Inv(st.(calls := st.calls - {call}, queue := st.queue + [st.calls[call].row]), lim)
  {
    var r := st.(calls := st.calls - {call}, queue := st.queue + [st.calls[call].row]);
    FlowPut(st, call);
    TableFrame(st, r, lim);
    LocksFrame(st, r);
  }

  /** The row an enqueue selects again after its transaction is the row it inserted, and there is
      always one. */
  lemma SelectsOwnRow(st: State, call: nat, row: nat, lim: Limits)
    requires Inv(st, lim) && call in st.calls && st.calls[call].Enqueuing?
    ensures Selects(st, st.calls[call].path, st.calls[call].trigger, row) <==> row == st.calls[call].row
  {
    assert CallOk(st, st.calls[call]);
    if Selects(st, st.calls[call].path, st.calls[call].trigger, row) {
      assert Enqueued(st.jobs[row]) && Enqueued(st.jobs[st.calls[call].row]);
    }
  }

  // ---- crash and startup -----------------------------------------------------------------

  predicate NoMemory(st: State)
  {
    st.calls == map[] && st.tasks == map[] && st.held == map[] && st.locks == map[]
  }

  /** Every active row is queued and on the work queue, and nothing else is. */
  ghost predicate AllQueued(st: State)
  {
    && (forall id :: id in st.jobs && Active(st.jobs[id]) ==> st.jobs[id].status == Queued && id in st.queue)
    && (forall id :: id in st.queue ==> id in st.jobs && Active(st.jobs[id]))
  }

  lemma LoseInv(st: State, lim: Limits)
    requires Inv(st, lim)
    ensures Inv(LoseMemory(st), lim) && NoMemory(LoseMemory(st)) && LoseMemory(st).queue == []
  {
    TableFrame(st, LoseMemory(st), lim);
  }

  lemma Arm1Flow(st: State)
    requires NoMemory(st) && st.queue == [] && RowIds(st)
    ensures Flow(Arm1(st)) && AllQueued(Arm1(st))
  {
    var r := Arm1(st);
    var ids := Ascending(ActiveIds(st.jobs), st.nextId);
    assert r.queue == ids;
    forall id
      ensures id in ids <==> id in st.jobs && Active(st.jobs[id])
    {
    }
    forall k | 0 <= k < |ids|
      ensures ids[k] in st.jobs && r.jobs[ids[k]].status == Queued
    {
      assert ids[k] in ids;
    }
  }

  lemma Arm1Inv(st: State, lim: Limits)
    requires Inv(st, lim) && NoMemory(st) && st.queue == []
    ensures Inv(Arm1(st), lim) && NoMemory(Arm1(st)) && AllQueued(Arm1(st))
  {
    var r := Arm1(st);
    Arm1Flow(st);
    hide Flow, AllQueued;
    RewriteTable(st, r, lim);
    LocksRows(st, r);
  }

  lemma Arm2OneInv(st: State, path: string, series: Option<int>, lim: Limits)
    requires Inv(st, lim) && NoMemory(st) && AllQueued(st)
    ensures var r := Arm2One(st, path, series);
            Inv(r, lim) && NoMemory(r) && AllQueued(r) && OfPath(r.jobs, path) != {}
            && forall p :: OfPath(st.jobs, p) <= OfPath(r.jobs, p)
  {
    if OfPath(st.jobs, path) == {} {
      assert !HasActive(st.jobs, path) by {
        assert forall id :: id in st.jobs && st.jobs[id].path == path ==> id in OfPath(st.jobs, path);
      }
      var inserted := InsertRow(st, path, series, StartupReconcile);
      InsertRowInv(st, path, series, StartupReconcile, lim);
      assert st.nextId in OfPath(inserted.jobs, path);
      var r := inserted.(queue := inserted.queue + [st.nextId]);
      AppendFlow(inserted, st.nextId);
      LocksFrame(inserted, r);
      TableFrame(inserted, r, lim);
    }
  }

  lemma AppendFlow(st: State, id: nat)
    requires Flow(st) && NoMemory(st) && Loose(st, id) && id in st.jobs && st.jobs[id].status == Queued
    ensures Flow(st.(queue := st.queue + [id]))
  {
  }

  lemma {:induction false} Arm2Inv(st: State, rows: seq<(string, Option<int>)>, lim: Limits)
    requires Inv(st, lim) && NoMemory(st) && AllQueued(st)
    ensures var r := Arm2(st, rows); Inv(r, lim) && NoMemory(r) && AllQueued(r)
    ensures forall k :: 0 <= k < |rows| ==> OfPath(Arm2(st, rows).jobs, rows[k].0) != {}
  {
    hide Inv, AllQueued, NoMemory, Arm2One, OfPath;
    if |rows| > 0 {
      var n := |rows| - 1;
      Arm2Inv(st, rows[..n], lim);
      Arm2OneInv(Arm2(st, rows[..n]), rows[n].0, rows[n].1, lim);
      forall k | 0 <= k < |rows|
        ensures OfPath(Arm2(st, rows).jobs, rows[k].0) != {}
      {
        if k < n {
          assert rows[..n][k] == rows[k];
        }
      }
    }
  }

  /** A crash at any point followed by a completed startup: every row that had not ended is queued
      with its id on the work queue exactly once, the queue holds nothing else, and every
      in_progress ledger row has a job row. */
  lemma RestartRecovers(st: State, rows: seq<(string, Option<int>)>, lim: Limits)
    requires Inv(st, lim) && Lists(rows, st.ledger)
    ensures var r := Next(st, Restart(rows), lim);
            && Inv(r, lim)
            && AllQueued(r)
            && (forall k, l :: 0 <= k < l < |r.queue| ==> r.queue[k] != r.queue[l])
            && (forall id :: id in st.jobs && Active(st.jobs[id]) ==> id in r.queue)
            && (forall p :: p in r.ledger ==> OfPath(r.jobs, p) != {})
            && NoMemory(r)
  {
    hide Arm2, Table, LocksOk, CallsOk, TasksOk;
    var lost := LoseMemory(st);
    LoseInv(st, lim);
    Arm1Inv(lost, lim);
    var one := Arm1(lost);
    Arm2Inv(one, rows, lim);
    Arm2Keeps(one, rows);
    var r := Arm2(one, rows);
    hide Inv, Flow, QueueOk;
    assert r == Next(st, Restart(rows), lim);
    forall id | id in st.jobs && Active(st.jobs[id])
      ensures id in r.queue
    {
      assert id in one.queue;
    }
    forall p | p in r.ledger
      ensures OfPath(r.jobs, p) != {}
    {
      var k :| 0 <= k < |rows| && rows[k].0 == p;
    }
  }

  lemma {:induction false} Arm2Keeps(st: State, rows: seq<(string, Option<int>)>)
    ensures var r := Arm2(st, rows); r.ledger == st.ledger && forall id :: id in st.queue ==> id in r.queue
  {
    if |rows| > 0 {
      Arm2Keeps(st, rows[..|rows| - 1]);
    }
  }

  lemma StartupInv(st: State, rows: seq<(string, Option<int>)>, lim: Limits)
    requires Inv(st, lim)
    ensures Inv(LoseMemory(Arm2(Arm1(LoseMemory(st)), rows)), lim)
    ensures Inv(Arm2(Arm1(LoseMemory(st)), rows), lim)
  {
    LoseInv(st, lim);
    Arm1Inv(LoseMemory(st), lim);
    Arm2Inv(Arm1(LoseMemory(st)), rows, lim);
    LoseInv(Arm2(Arm1(LoseMemory(st)), rows), lim);
  }

  // ---- runs ------------------------------------------------------------------------------

  /** Every step keeps the invariant. */
  lemma StepKeeps(st: State, step: Step, lim: Limits)
    requires Inv(st, lim) && Enabled(st, step, lim) && lim.retryMax <= lim.maxCap
    ensures Inv(Next(st, step, lim), lim)
  {
    hide Inv, Insert, Arm1, Arm2, LoseMemory, InsertRow, Lists;
    match step
    case EnqueueInsert(call, path, series, trigger, cap) => InsertInv(st, call, path, series, trigger, cap, lim);
    case EnqueuePut(call, row) =>
      SelectsOwnRow(st, call, row, lim);
      PutInv(st, call, lim);
    case EnqueueLost(call) => SelectsOwnRow(st, call, st.calls[call].row, lim);
    case TimerFires(call, path, series) =>
      var fired := st.(timers := st.timers - multiset{(path, series)});
      Reframe(st, fired, lim);
      InsertInv(fired, call, path, series, AutoRetry, Some(lim.retryMax), lim);
    case RetryReset(call, row) => RetryInv(st, call, row, lim);
    case RetryPut(call) => PutInv(st, call, lim);
    case Dispatch(task) => DispatchInv(st, task, lim);
    case Begin(task) => BeginInv(st, task, lim);
    case FetchLock(task) => FetchInv(st, task, lim);
    case Acquire(task) => AcquireInv(st, task, lim);
    case Process(task) => ProcessInv(st, task, lim);
    case Finish(task, o) => FinishInv(st, task, o, lim);
    case Abort(task, marked) => AbortInv(st, task, marked, lim);
    case EditAcquire(task, key) => EditInv(st, task, key, lim);
    case EditRelease(task) => ReleaseInv(st, task, lim);
    case LedgerWrite(_, _, _) => Reframe(st, Next(st, step, lim), lim);
    case Crash => LoseInv(st, lim);
    case Restart(rows) => StartupInv(st, rows, lim);
    case RestartInterrupted(rows) => StartupInv(st, rows, lim);
  }

  /** A run: every step is enabled where it is taken. */
  predicate Legal(st: State, steps: seq<Step>, lim: Limits)
    decreases |steps|
  {
    |steps| > 0 ==> Enabled(st, steps[0], lim) && Legal(Next(st, steps[0], lim), steps[1..], lim)
  }

  function After(st: State, steps: seq<Step>, lim: Limits): State
    requires Legal(st, steps, lim)
    decreases |steps|
  {
    if |steps| == 0 then st else After(Next(st, steps[0], lim), steps[1..], lim)
  }
}
