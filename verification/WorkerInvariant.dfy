/** The invariant of the job queue, kept by every step. */
module WorkerInvariant {
  import opened Options
  import opened Worker

  predicate HasJob(p: Phase) { !p.BibleEdit? }

  // ---- the invariant ---------------------------------------------------------------------

  ghost predicate RowIds(st: State)
  {
    forall id :: id in st.jobs ==> id < st.nextId
  }

  /** Queue entries are distinct queued rows. */
  ghost predicate QueueOk(st: State)
  {
    && (forall k :: 0 <= k < |st.queue| ==> st.queue[k] in st.jobs && st.jobs[st.queue[k]].status == Queued)
    && (forall k, l :: 0 <= k < l < |st.queue| ==> st.queue[k] != st.queue[l])
  }

  ghost predicate CallOk(st: State, c: Call)
  {
    && c.row in st.jobs
    && st.jobs[c.row].status == Queued
    && c.row !in st.queue
    && (c.Enqueuing? ==> st.jobs[c.row].path == c.path && st.jobs[c.row].trigger == c.trigger && c.trigger != ManualRetry)
  }

  /** A call between its transaction and its put owns one queued row that nobody else can reach. */
  ghost predicate CallsOk(st: State)
  {
    && (forall c :: c in st.calls ==> CallOk(st, st.calls[c]))
    && (forall c, d :: c in st.calls && d in st.calls && c != d ==> st.calls[c].row != st.calls[d].row)
  }

  ghost predicate TaskOk(st: State, p: Phase)
  {
    HasJob(p) ==>
      && p.job in st.jobs
      && st.jobs[p.job].status == (if p.Dispatched? then Queued else Running)
      && p.job !in st.queue
      && forall c :: c in st.calls ==> st.calls[c].row != p.job
  }

  ghost predicate TasksOk(st: State)
  {
    && (forall t :: t in st.tasks ==> TaskOk(st, st.tasks[t]))
    && (forall t, u :: t in st.tasks && u in st.tasks && t != u && HasJob(st.tasks[t]) && HasJob(st.tasks[u]) ==>
          st.tasks[t].job != st.tasks[u].job)
  }

  /** Every active row is reached by at most one of: queue, call, coroutine. */
  ghost predicate Flow(st: State)
  {
    QueueOk(st) && CallsOk(st) && TasksOk(st)
  }

  predicate Enqueued(j: Job) { Active(j) && j.trigger != ManualRetry }

  /** At most one active row per path was not put there by the retry route. */
  ghost predicate SingleEnqueued(jobs: map<nat, Job>)
  {
    forall i, j :: i in jobs && j in jobs && Enqueued(jobs[i]) && Enqueued(jobs[j]) && jobs[i].path == jobs[j].path ==> i == j
  }

  ghost predicate LockMap(st: State)
  {
    && (forall k :: k in st.locks ==> st.locks[k] < st.nextLock)
    && (forall k, l :: k in st.locks && l in st.locks && k != l ==> st.locks[k] != st.locks[l])
    && (forall l :: l in st.held ==> l < st.nextLock)
  }

  /** The key whose lock a coroutine waits for or holds. */
  ghost predicate Wants(st: State, p: Phase, key: int)
  {
    match p
    case Waiting(job, _) => job in st.jobs && key == Key(st.jobs[job])
    case Inside(job, _) => job in st.jobs && key == Key(st.jobs[job])
    case BibleEdit(k, _) => key == k
    case _ => false
  }

  predicate Holds(p: Phase) { p.Inside? || p.BibleEdit? }

  ghost predicate LockOk(st: State, t: nat)
    requires t in st.tasks
  {
    var p := st.tasks[t];
    && ((p.Waiting? || p.Inside?) ==> p.job in st.jobs)
    && (forall key :: Wants(st, p, key) ==> key in st.locks && st.locks[key] == p.lock)
    && (Holds(p) ==> p.lock in st.held && st.held[p.lock] == t)
  }

  ghost predicate LocksOk(st: State)
  {
    LockMap(st) && forall t :: t in st.tasks ==> LockOk(st, t)
  }

  /** Rows of a path that did not end in `done` are bounded by the largest automatic cap plus the
      rows people (or startup) asked for. */
  ghost predicate Bounded(st: State, lim: Limits)
  {
    forall p :: |Undone(st.jobs, p)| <= lim.maxCap + ManualCount(st, p)
  }

  ghost predicate Table(st: State, lim: Limits)
  {
    RowIds(st) && SingleEnqueued(st.jobs) && Bounded(st, lim)
  }

  ghost predicate Inv(st: State, lim: Limits)
  {
    Table(st, lim) && Flow(st) && LocksOk(st)
  }

  // ---- counting --------------------------------------------------------------------------

  lemma UndoneInsert(jobs: map<nat, Job>, id: nat, j: Job, p: string)
    requires id !in jobs && j.status == Queued
    ensures Undone(jobs[id := j], p) == if j.path == p then Undone(jobs, p) + {id} else Undone(jobs, p)
  {
  }

  lemma {:induction false} SubsetSize<T>(a: set<T>, b: set<T>)
    requires a <= b
    ensures |a| <= |b|
  {
    if a != {} {
      var x :| x in a;
      SubsetSize(a - {x}, b - {x});
    }
  }

  /** With no active row, the undone rows are the failed and quarantined ones the cap counts. */
  lemma InactiveUndone(jobs: map<nat, Job>, p: string)
    requires !HasActive(jobs, p)
    ensures Undone(jobs, p) == Terminal(jobs, p)
  {
    forall id | id in Undone(jobs, p)
      ensures id in Terminal(jobs, p)
    {
      assert !Active(jobs[id]);
    }
  }

  // ---- tables ----------------------------------------------------------------------------

  /** A step that keeps every row's path and series, revives no done row, and lets a row become
      active only as a manual retry. */
  ghost predicate Rewrites(a: map<nat, Job>, b: map<nat, Job>)
  {
    && a.Keys == b.Keys
    && forall id :: id in a ==>
         && b[id].path == a[id].path && b[id].series == a[id].series
         && (a[id].status == Done ==> b[id].status == Done)
         && (Enqueued(b[id]) ==> Enqueued(a[id]))
  }

  lemma RewriteTable(st: State, after: State, lim: Limits)
    requires Table(st, lim) && Rewrites(st.jobs, after.jobs) && after.nextId == st.nextId && after.manual == st.manual
    ensures Table(after, lim)
  {
    forall p
      ensures |Undone(after.jobs, p)| <= lim.maxCap + ManualCount(after, p)
    {
      assert Undone(after.jobs, p) <= Undone(st.jobs, p);
      SubsetSize(Undone(after.jobs, p), Undone(st.jobs, p));
      assert ManualCount(after, p) == ManualCount(st, p);
    }
    assert RowIds(after);
    assert SingleEnqueued(after.jobs) by {
      hide Enqueued;
      forall i, j | i in after.jobs && j in after.jobs && Enqueued(after.jobs[i]) && Enqueued(after.jobs[j])
                    && after.jobs[i].path == after.jobs[j].path
        ensures i == j
      {
        assert Enqueued(st.jobs[i]) && Enqueued(st.jobs[j]);
      }
    }
  }

  /** Inserting keeps the table invariant: the guard rules out a second active row, the cap bounds
      automatic rows, and any other row is counted as asked for. */
  lemma InsertTable(st: State, path: string, series: Option<int>, trigger: Trigger, lim: Limits)
    requires Table(st, lim) && !HasActive(st.jobs, path)
    requires Automatic(trigger) ==> |Terminal(st.jobs, path)| < lim.maxCap
    ensures Table(InsertRow(st, path, series, trigger), lim)
  {
    var r := InsertRow(st, path, series, trigger);
    var j := Job(path, series, Queued, trigger, 0);
    forall p
      ensures |Undone(r.jobs, p)| <= lim.maxCap + ManualCount(r, p)
    {
      InsertCount(st, path, series, trigger, lim, p);
    }
    assert Bounded(r, lim);
    assert RowIds(r);
    InsertSingle(st.jobs, st.nextId, j);
  }

  lemma InsertCount(st: State, path: string, series: Option<int>, trigger: Trigger, lim: Limits, p: string)
    requires Table(st, lim) && !HasActive(st.jobs, path)
    requires Automatic(trigger) ==> |Terminal(st.jobs, path)| < lim.maxCap
    ensures var r := InsertRow(st, path, series, trigger); |Undone(r.jobs, p)| <= lim.maxCap + ManualCount(r, p)
  {
    hide SingleEnqueued, HasActive;
    var j := Job(path, series, Queued, trigger, 0);
    UndoneInsert(st.jobs, st.nextId, j, p);
    assert |Undone(st.jobs, p)| <= lim.maxCap + ManualCount(st, p);
    if p == path {
      InactiveUndone(st.jobs, path);
      assert st.nextId !in Undone(st.jobs, path);
    }
  }

  lemma InsertSingle(jobs: map<nat, Job>, id: nat, j: Job)
    requires SingleEnqueued(jobs) && id !in jobs && !HasActive(jobs, j.path)
    ensures SingleEnqueued(jobs[id := j])
  {
    forall i | i in jobs && Active(jobs[i])
      ensures jobs[i].path != j.path
    {
    }
  }

  // ---- flow ------------------------------------------------------------------------------

  /** Nobody reaches this row. */
  ghost predicate Loose(st: State, id: nat)
  {
    && id !in st.queue
    && (forall c :: c in st.calls ==> st.calls[c].row != id)
    && (forall t :: t in st.tasks && HasJob(st.tasks[t]) ==> st.tasks[t].job != id)
  }

  /** A row that is not there, or has ended, is reached by nobody. */
  lemma IdleIsLoose(st: State, id: nat)
    requires Flow(st) && (id in st.jobs ==> !Active(st.jobs[id]))
    ensures Loose(st, id)
  {
    forall t | t in st.tasks && HasJob(st.tasks[t])
      ensures st.tasks[t].job != id
    {
      assert TaskOk(st, st.tasks[t]);
    }
    forall c | c in st.calls
      ensures st.calls[c].row != id
    {
      assert CallOk(st, st.calls[c]);
    }
  }

  /** Changing or adding a row nobody reaches. */
  lemma FlowRow(st: State, id: nat, j: Job)
    requires Flow(st) && Loose(st, id)
    ensures Flow(st.(jobs := st.jobs[id := j]))
  {
    var r := st.(jobs := st.jobs[id := j]);
    forall c | c in r.calls
      ensures CallOk(r, r.calls[c])
    {
      assert CallOk(st, st.calls[c]);
    }
    forall t | t in r.tasks
      ensures TaskOk(r, r.tasks[t])
    {
      assert TaskOk(st, st.tasks[t]);
    }
  }

  /** A new call takes a queued row nobody reaches. */
  lemma FlowCall(st: State, call: nat, c: Call)
    requires Flow(st) && call !in st.calls && Loose(st, c.row) && CallOk(st, c)
    ensures Flow(st.(calls := st.calls[call := c]))
  {
    var r := st.(calls := st.calls[call := c]);
    forall d | d in r.calls
      ensures CallOk(r, r.calls[d])
    {
      assert d in st.calls ==> CallOk(st, st.calls[d]);
    }
    forall t | t in r.tasks
      ensures TaskOk(r, r.tasks[t])
    {
      assert TaskOk(st, st.tasks[t]);
    }
  }

  /** A call ends and puts its row on the queue. */
  lemma FlowPut(st: State, call: nat)
    requires Flow(st) && call in st.calls
    ensures Flow(st.(calls := st.calls - {call}, queue := st.queue + [st.calls[call].row]))
  {
    var id := st.calls[call].row;
    var r := st.(calls := st.calls - {call}, queue := st.queue + [id]);
    assert CallOk(st, st.calls[call]);
    forall d | d in r.calls
      ensures CallOk(r, r.calls[d])
    {
      assert CallOk(st, st.calls[d]);
    }
    forall t | t in r.tasks
      ensures TaskOk(r, r.tasks[t])
    {
      assert TaskOk(st, st.tasks[t]);
    }
  }

  lemma FlowDispatch(st: State, task: nat)
    requires Flow(st) && task !in st.tasks && |st.queue| > 0
    ensures Flow(st.(queue := st.queue[1..], tasks := st.tasks[task := Dispatched(st.queue[0])]))
  {
    var r := st.(queue := st.queue[1..], tasks := st.tasks[task := Dispatched(st.queue[0])]);
    forall d | d in r.calls
      ensures CallOk(r, r.calls[d])
    {
      assert CallOk(st, st.calls[d]);
    }
    forall t | t in r.tasks
      ensures TaskOk(r, r.tasks[t]) && (t != task && HasJob(r.tasks[t]) ==> r.tasks[t].job != st.queue[0])
    {
      if t != task {
        assert TaskOk(st, st.tasks[t]);
      } else {
        forall c | c in st.calls
          ensures st.calls[c].row != st.queue[0]
        {
          assert CallOk(st, st.calls[c]);
        }
      }
    }
  }

  /** A coroutine moves on, rewriting only its own row. */
  lemma FlowMove(st: State, task: nat, p: Phase, j: Job)
    requires Flow(st) && task in st.tasks && HasJob(st.tasks[task]) && HasJob(p) && p.job == st.tasks[task].job
    requires j.status == (if p.Dispatched? then Queued else Running)
    ensures Flow(st.(jobs := st.jobs[p.job := j], tasks := st.tasks[task := p]))
  {
    var r := st.(jobs := st.jobs[p.job := j], tasks := st.tasks[task := p]);
    assert TaskOk(st, st.tasks[task]);
    forall d | d in r.calls
      ensures CallOk(r, r.calls[d])
    {
      assert CallOk(st, st.calls[d]);
    }
    forall t | t in r.tasks
      ensures TaskOk(r, r.tasks[t])
    {
      assert TaskOk(st, st.tasks[t]);
    }
  }

  /** A coroutine ends, leaving its row in any state. */
  lemma FlowEnd(st: State, task: nat, j: Job)
    requires Flow(st) && task in st.tasks && HasJob(st.tasks[task])
    ensures Flow(st.(jobs := st.jobs[st.tasks[task].job := j], tasks := st.tasks - {task}))
  {
    var less := st.(tasks := st.tasks - {task});
    FlowLess(st, task);
    assert TaskOk(st, st.tasks[task]);
    FlowRow(less, st.tasks[task].job, j);
  }

  lemma FlowLess(st: State, task: nat)
    requires Flow(st)
    ensures Flow(st.(tasks := st.tasks - {task}))
  {
    var r := st.(tasks := st.tasks - {task});
    forall d | d in r.calls
      ensures CallOk(r, r.calls[d])
    {
      assert CallOk(st, st.calls[d]);
    }
    forall t | t in r.tasks
      ensures TaskOk(r, r.tasks[t])
    {
      assert TaskOk(st, st.tasks[t]);
    }
  }

  /** Flow reads only rows, queue, calls and coroutines. */
  lemma FlowFrame(st: State, r: State)
    requires Flow(st) && r.jobs == st.jobs && r.queue == st.queue && r.calls == st.calls
    requires r.tasks == st.tasks
    ensures Flow(r)
  {
    forall d | d in r.calls
      ensures CallOk(r, r.calls[d])
    {
      assert CallOk(st, st.calls[d]);
    }
    forall t | t in r.tasks
      ensures TaskOk(r, r.tasks[t])
    {
      assert TaskOk(st, st.tasks[t]);
    }
  }
}
