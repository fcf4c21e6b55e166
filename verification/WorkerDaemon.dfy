/** The worker's code between two awaits, method by method, over its tables and in-memory maps.
    Each method performs one step of the state machine; the two startup arms are loops. */
module WorkerDaemon {
  import opened Options
  import opened Worker
  import opened WorkerInvariant
  import opened WorkerRuns
  import opened WorkerLaws

  /** Only this coroutine can still move the row: it is not queued, and no call and no other coroutine
      carries it. */
  ghost predicate OnlyReachedBy(st: State, task: nat, id: nat)
  {
    && id in st.jobs && id !in st.queue
    && (forall c :: c in st.calls ==> st.calls[c].row != id)
    && (forall t :: t in st.tasks && HasJob(st.tasks[t]) && st.tasks[t].job == id ==> t == task)
  }

  /** A coroutine that carries a row under the queue's invariant is the only one that reaches it. */
  lemma CarriesAlone(st: State, task: nat, lim: Limits)
    requires Inv(st, lim) && task in st.tasks && HasJob(st.tasks[task])
    ensures OnlyReachedBy(st, task, st.tasks[task].job)
  {
    assert TaskOk(st, st.tasks[task]);
  }

  /** The coroutine inside a series' lock is the only one there. */
  lemma AloneInside(st: State, task: nat, key: int, lim: Limits)
    requires Inv(st, lim) && Owns(st, task, key)
    ensures forall u :: Owns(st, u, key) ==> u == task
  {
    forall u | Owns(st, u, key)
      ensures u == task
    {
      assert LockOk(st, task) && LockOk(st, u);
    }
  }

  /** With no row of the path, an enqueue is admitted and its second select finds its own row. */
  lemma UndisturbedEnqueue(st: State, call: nat, path: string, series: Option<int>, lim: Limits)
    requires OfPath(st.jobs, path) == {} && call !in st.calls
    ensures var mid := Insert(st, call, path, series, StartupReconcile, None);
            && call in mid.calls && mid.calls[call].Enqueuing?
            && !Enabled(mid, EnqueueLost(call), lim)
            && forall row :: Enabled(mid, EnqueuePut(call, row), lim) ==>
                 Next(mid, EnqueuePut(call, row), lim) == Arm2One(st, path, series)
  {
    assert forall id :: id in st.jobs && st.jobs[id].path == path ==> id in OfPath(st.jobs, path);
    assert Admits(st, path, StartupReconcile, None);
    var mid := Insert(st, call, path, series, StartupReconcile, None);
    assert forall row :: Selects(mid, path, StartupReconcile, row) <==> row == st.nextId;
    assert mid.calls - {call} == st.calls;
    assert mid.calls[call] == Enqueuing(path, StartupReconcile, st.nextId);
    assert st.nextId in mid.jobs && Selects(mid, mid.calls[call].path, mid.calls[call].trigger, st.nextId);
  }

  /** No queued or running row of the path and, for an automatic trigger with a cap, fewer failed and
      quarantined ones than the cap. */
  predicate MayEnqueue(rows: map<nat, Job>, path: string, trigger: Trigger, cap: Option<nat>)
  {
    && (forall i :: i in rows && rows[i].path == path ==> rows[i].status != Queued && rows[i].status != Running)
    && (cap.Some? && trigger in {Poll, Webhook, AutoRetry} ==>
          |set i | i in rows && rows[i].path == path && rows[i].status in {Failed, Quarantined}| < cap.value)
  }

  lemma InsertIs(st: State, call: nat, path: string, series: Option<int>, trigger: Trigger, cap: Option<nat>)
    ensures Insert(st, call, path, series, trigger, cap) ==
            if !Admits(st, path, trigger, cap) then st
            else st.(jobs := st.jobs[st.nextId := Job(path, series, Queued, trigger, 0)], nextId := st.nextId + 1,
                     manual := if Automatic(trigger) then st.manual else st.manual[path := ManualCount(st, path) + 1],
                     calls := st.calls[call := Enqueuing(path, trigger, st.nextId)])
  {
    hide HasActive, Terminal, ManualCount;
  }

  lemma AdmitsIff(st: State, path: string, trigger: Trigger, cap: Option<nat>)
    ensures Admits(st, path, trigger, cap) <==> MayEnqueue(st.jobs, path, trigger, cap)
  {
    assert Terminal(st.jobs, path) == set i | i in st.jobs && st.jobs[i].path == path && st.jobs[i].status in {Failed, Quarantined};
  }

  /** The verdict on a job: done or skipped items end done, quarantined ones quarantined, any other failed;
      nothing else of the row, no other row and no other coroutine changes.  A transient quarantine sets one
      timer for the same file and series while the row has attempts left. */
  ghost predicate Judged(st: State, r: State, task: nat, outcome: Outcome, lim: Limits)
    requires task in st.tasks && !st.tasks[task].BibleEdit? && st.tasks[task].job in st.jobs
  {
    var id := st.tasks[task].job;
    var was := st.jobs[id];
    && r.jobs.Keys == st.jobs.Keys && (forall i :: i in r.jobs && i != id ==> r.jobs[i] == st.jobs[i])
    && (r.jobs[id].status == Done <==> outcome == ItemDone || outcome == ItemSkipped)
    && (r.jobs[id].status == Quarantined <==> outcome == ItemQuarantined(true) || outcome == ItemQuarantined(false))
    && (r.jobs[id].status == Failed <==> outcome == ItemError)
    && r.jobs[id].path == was.path && r.jobs[id].series == was.series && r.jobs[id].attempts == was.attempts
    && r.jobs[id].trigger == was.trigger
    && r.timers == (if outcome == ItemQuarantined(true) && was.attempts < lim.retryMax
                    then st.timers + multiset{(was.path, was.series)} else st.timers)
    && task !in r.tasks && (forall t :: t in st.tasks && t != task ==> t in r.tasks && r.tasks[t] == st.tasks[t])
    && r.queue == st.queue && r.calls == st.calls && r.held == st.held
  }

  lemma FinishNext(st: State, task: nat, outcome: Outcome, lim: Limits)
    requires Enabled(st, Finish(task, outcome), lim)
    ensures task in st.tasks && !st.tasks[task].BibleEdit? && st.tasks[task].job in st.jobs
    ensures var id := st.tasks[task].job;
            var j := st.jobs[id];
            Next(st, Finish(task, outcome), lim) == State(
              st.jobs[id := j.(status := if outcome.ItemDone? || outcome.ItemSkipped? then Done
                                         else if outcome.ItemQuarantined? then Quarantined else Failed)],
              st.nextId, st.ledger, st.queue, st.calls, st.tasks - {task},
              if outcome.ItemQuarantined? && outcome.transient && lim.retryMax > 0 && j.attempts < lim.retryMax
              then st.timers + multiset{(j.path, j.series)} else st.timers,
              st.locks, st.nextLock, st.held, st.manual)
  {
  }

  lemma FinishJudges(st: State, task: nat, outcome: Outcome, lim: Limits)
    requires Enabled(st, Finish(task, outcome), lim)
    ensures task in st.tasks && !st.tasks[task].BibleEdit? && st.tasks[task].job in st.jobs
    ensures Judged(st, Next(st, Finish(task, outcome), lim), task, outcome, lim)
  {
  }

  lemma SameKey(i: Job, j: Job)
    requires i.series == j.series
    ensures Key(i) == Key(j)
  {
  }

  lemma DispatchedAlone(st: State, task: nat, lim: Limits)
    requires Inv(st, lim) && Enabled(st, Dispatch(task), lim) && lim.retryMax <= lim.maxCap
    ensures var r := Next(st, Dispatch(task), lim);
            Inv(r, lim) && OnlyReachedBy(r, task, st.queue[0]) && r.jobs[st.queue[0]].status == Queued
  {
    var r := Next(st, Dispatch(task), lim);
    assert r.tasks[task] == Dispatched(st.queue[0]);
    hide Next, Flow, Table, LocksOk, OnlyReachedBy;
    StepKeeps(st, Dispatch(task), lim);
    CarriesAlone(r, task, lim);
    RowOfTask(r, task);
  }

  lemma BegunAlone(st: State, task: nat, lim: Limits)
    requires Inv(st, lim) && Enabled(st, Begin(task), lim) && lim.retryMax <= lim.maxCap
    ensures task in st.tasks && HasJob(st.tasks[task])
    ensures var r := Next(st, Begin(task), lim); Inv(r, lim) && OnlyReachedBy(r, task, st.tasks[task].job)
  {
    hide Next, Enabled, Inv, OnlyReachedBy;
    BeginNext(st, task, lim);
    StepKeeps(st, Begin(task), lim);
    CarriesAlone(Next(st, Begin(task), lim), task, lim);
  }

  lemma EnteredAlone(st: State, task: nat, lim: Limits)
    requires Inv(st, lim) && Enabled(st, Acquire(task), lim) && lim.retryMax <= lim.maxCap
    ensures var r, id := Next(st, Acquire(task), lim), st.tasks[task].job;
            Inv(r, lim) && id in st.jobs && forall u :: Owns(r, u, Key(st.jobs[id])) <==> u == task
  {
    var r, w := Next(st, Acquire(task), lim), st.tasks[task];
    assert r.tasks[task] == Inside(w.job, w.lock) && r.jobs == st.jobs;
    hide Next, Flow, Table, LocksOk;
    RowOfTask(st, task);
    StepKeeps(st, Acquire(task), lim);
    AloneInside(r, task, Key(st.jobs[w.job]), lim);
  }

  lemma LeftEmpty(st: State, task: nat, lim: Limits)
    requires Inv(st, lim) && Enabled(st, Process(task), lim) && lim.retryMax <= lim.maxCap
    ensures var r, id := Next(st, Process(task), lim), st.tasks[task].job;
            Inv(r, lim) && id in st.jobs && forall u :: !Owns(r, u, Key(st.jobs[id]))
  {
    var r, id := Next(st, Process(task), lim), st.tasks[task].job;
    assert r.jobs == st.jobs && r.tasks == st.tasks[task := Processed(id)];
    hide Next, Flow, Table, LocksOk;
    RowOfTask(st, task);
    StepKeeps(st, Process(task), lim);
    AloneInside(st, task, Key(st.jobs[id]), lim);
    var key := Key(st.jobs[id]);
    forall u
      ensures !Owns(r, u, key)
    {
      assert Owns(r, u, key) ==> u != task && Owns(st, u, key);
    }
  }

  class Daemon {
    var jobs: map<nat, Job>
    var nextId: nat
    var ledger: map<string, Option<int>>
    var queue: seq<nat>
    var calls: map<nat, Call>
    var tasks: map<nat, Phase>
    var timers: multiset<(string, Option<int>)>
    var locks: map<int, nat>
    var nextLock: nat
    var held: map<nat, nat>
    ghost var manual: map<string, nat>

    ghost function Now(): State
      reads this
    {
      State(jobs, nextId, ledger, queue, calls, tasks, timers, locks, nextLock, held, manual)
    }

    constructor ()
      ensures Now() == State(map[], 0, map[], [], map[], map[], multiset{}, map[], 0, map[], map[])
    {
      jobs, nextId, ledger, queue, calls, tasks := map[], 0, map[], [], map[], map[];
      timers, locks, nextLock, held, manual := multiset{}, map[], 0, map[], map[];
    }

    /** The dedup guard, the cap and the insert, in one transaction. */
    method EnqueueTransaction(call: nat, path: string, series: Option<int>, trigger: Trigger, cap: Option<nat>)
      returns (inserted: bool)
      modifies this
      ensures Now() == Insert(old(Now()), call, path, series, trigger, cap)
      ensures inserted <==> MayEnqueue(old(jobs), path, trigger, cap)
      ensures if inserted then jobs == old(jobs)[old(nextId) := Job(path, series, Queued, trigger, 0)] else Now() == old(Now())
    {
      hide MayEnqueue, ManualCount, HasActive, Terminal, Insert;
      ghost var begin := Now();
      AdmitsIff(begin, path, trigger, cap);
      InsertIs(begin, call, path, series, trigger, cap);
      if HasActive(jobs, path) {
        return false;
      }
      if cap.Some? && Automatic(trigger) {
        var terminalCount := |Terminal(jobs, path)|;
        if terminalCount >= cap.value {
          return false;
        }
      }
      manual := if Automatic(trigger) then manual else manual[path := ManualCount(Now(), path) + 1];
      jobs := jobs[nextId := Job(path, series, Queued, trigger, 0)];
      calls := calls[call := Enqueuing(path, trigger, nextId)];
      nextId := nextId + 1;
      inserted := true;
      assert Now() == begin.(jobs := jobs, nextId := nextId, manual := manual, calls := calls);
    }

    /** The select after the commit, and the put: a queued row of the call's own path and trigger goes to the
        end of the queue, if there is one. */
    method EnqueueFlush(call: nat, lim: Limits)
      requires call in calls && calls[call].Enqueuing?
      modifies this
      ensures (exists row :: Enabled(old(Now()), EnqueuePut(call, row), lim) && Now() == Next(old(Now()), EnqueuePut(call, row), lim))
              || (Enabled(old(Now()), EnqueueLost(call), lim) && Now() == Next(old(Now()), EnqueueLost(call), lim))
      ensures jobs == old(jobs) && call !in calls
      ensures var found := set row | row in jobs && jobs[row].status == Queued && jobs[row].path == old(calls)[call].path
                                     && jobs[row].trigger == old(calls)[call].trigger;
              if found == {} then queue == old(queue) else exists row :: row in found && queue == old(queue) + [row]
    {
      var c := calls[call];
      var found := set row | row in jobs && jobs[row].status == Queued && jobs[row].path == c.path && jobs[row].trigger == c.trigger;
      ghost var begin := queue;
      if row :| row in found {
        assert Enabled(Now(), EnqueuePut(call, row), lim);
        queue := queue + [row];
        assert row in found && queue == begin + [row];
      } else {
        assert forall row :: row in jobs && Selects(Now(), c.path, c.trigger, row) ==> row in found;
        assert found == {};
      }
      calls := calls - {call};
    }

    /** Startup arm 1: reset the rows left active, then queue their ids. */
    method ReconcileInProgress()
      requires forall id :: id in jobs ==> id < nextId
      modifies this
      ensures Now() == Arm1(old(Now()))
    {
      var stale := StaleIds();
      ResetAll(stale);
      var k := 0;
      while k < |stale|
        invariant 0 <= k <= |stale|
        invariant Now() == old(Now()).(jobs := Requeued(old(jobs)), queue := old(queue) + stale[..k])
      {
        queue := queue + [stale[k]];
        assert stale[..k + 1] == stale[..k] + [stale[k]];
        k := k + 1;
      }
      assert stale[..k] == stale;
    }

    method StaleIds() returns (stale: seq<nat>)
      ensures stale == Ascending(ActiveIds(jobs), nextId)
    {
      stale := [];
      var id: nat := 0;
      while id < nextId
        invariant 0 <= id <= nextId
        invariant stale == Ascending(ActiveIds(jobs), id)
      {
        if id in jobs && Active(jobs[id]) {
          stale := stale + [id];
        }
        id := id + 1;
      }
    }

    method ResetAll(stale: seq<nat>)
      requires forall id :: id in stale <==> id in jobs && Active(jobs[id])
      modifies this`jobs
      ensures jobs == Requeued(old(jobs))
    {
      var k := 0;
      while k < |stale|
        invariant 0 <= k <= |stale| && jobs.Keys == old(jobs).Keys
        invariant forall j :: j in jobs ==>
          jobs[j] == if j in stale[..k] then old(jobs)[j].(status := Queued) else old(jobs)[j]
      {
        assert stale[k] in stale && stale[k] in old(jobs);
        jobs := jobs[stale[k] := jobs[stale[k]].(status := Queued)];
        assert stale[..k + 1] == stale[..k] + [stale[k]];
        k := k + 1;
      }
      assert stale[..k] == stale;
    }

    /** Startup arm 2: enqueue every in_progress ledger row that has no job row. */
    method ReconcileFromLedger(call: nat, rows: seq<(string, Option<int>)>, lim: Limits)
      requires call !in calls
      modifies this
      ensures Now() == Arm2(old(Now()), rows)
    {
      var k := 0;
      while k < |rows|
        invariant 0 <= k <= |rows|
        invariant Now() == Arm2(old(Now()), rows[..k]) && calls == old(calls)
      {
        assert rows[..k + 1][..k] == rows[..k];
        if OfPath(jobs, rows[k].0) == {} {
          EnqueueAtStartup(call, rows[k].0, rows[k].1, lim);
        }
        k := k + 1;
      }
      assert rows[..k] == rows;
    }

    /** `enqueue_job` run to its end with nothing else running: the guard cannot refuse, and the
        second select can only find the row just inserted. */
    method EnqueueAtStartup(call: nat, path: string, series: Option<int>, lim: Limits)
      requires OfPath(jobs, path) == {} && call !in calls
      modifies this
      ensures Now() == Arm2One(old(Now()), path, series)
    {
      UndisturbedEnqueue(Now(), call, path, series, lim);
      hide Insert, Enabled, Next, Arm2One, OfPath;
      var _ := EnqueueTransaction(call, path, series, StartupReconcile, None);
      EnqueueFlush(call, lim);
    }

    /** One turn of the worker loop: the head of the queue leaves it for a coroutine of its own, which
        is from then on the only one that can reach that row. */
    method DispatchOne(task: nat, lim: Limits)
      requires Enabled(Now(), Dispatch(task), lim)
      modifies this
      ensures Now() == Next(old(Now()), Dispatch(task), lim)
      ensures old(queue) == [old(queue)[0]] + queue && jobs == old(jobs)
      ensures Inv(old(Now()), lim) && lim.retryMax <= lim.maxCap ==>
        && Inv(Now(), lim) && OnlyReachedBy(Now(), task, old(queue)[0]) && jobs[old(queue)[0]].status == Queued
    {
      ghost var before := Now();
      var id := queue[0];
      queue := queue[1..];
      tasks := tasks[task := Dispatched(id)];
      assert Now() == Next(before, Dispatch(task), lim);
      hide *;
      if Inv(before, lim) && lim.retryMax <= lim.maxCap {
        DispatchedAlone(before, task, lim);
      }
    }

    /** The row starts running with one more attempt; no other row and nobody's place changes. */
    method BeginJob(task: nat, lim: Limits)
      requires Enabled(Now(), Begin(task), lim)
      modifies this
      ensures Now() == Next(old(Now()), Begin(task), lim)
      ensures var id := old(tasks[task]).job;
              && jobs.Keys == old(jobs).Keys && (forall i :: i in jobs && i != id ==> jobs[i] == old(jobs)[i])
              && jobs[id].status == Running && jobs[id].attempts == old(jobs)[id].attempts + 1
              && jobs[id].path == old(jobs)[id].path && Key(jobs[id]) == Key(old(jobs)[id])
      ensures Inv(old(Now()), lim) && lim.retryMax <= lim.maxCap ==>
        Inv(Now(), lim) && OnlyReachedBy(Now(), task, old(tasks[task]).job)
    {
      hide Next, Enabled, Inv, OnlyReachedBy, Key;
      ghost var before := Now();
      BeginNext(before, task, lim);
      var id := tasks[task].job;
      jobs := jobs[id := jobs[id].(status := Running, attempts := jobs[id].attempts + 1)];
      tasks := tasks[task := Started(id)];
      SameKey(before.jobs[id], jobs[id]);
      assert jobs == before.jobs[id := jobs[id]];
      if Inv(before, lim) && lim.retryMax <= lim.maxCap {
        BegunAlone(before, task, lim);
      }
    }

    /** The key of the lock map, and `setdefault`: the coroutine waits for the lock of its own series, or of
        all movies, the one that was there if there was one, and else one that is nobody else's. */
    method AskLock(task: nat, lim: Limits)
      requires Enabled(Now(), FetchLock(task), lim)
      modifies this
      ensures Now() == Next(old(Now()), FetchLock(task), lim)
      ensures var id := old(tasks[task]).job;
              var key := match jobs[id].series case Some(series) => series case None => -1;
              && jobs == old(jobs) && held == old(held)
              && key in locks && tasks == old(tasks)[task := Waiting(id, locks[key])]
              && (if key in old(locks) then locks == old(locks) else locks == old(locks)[key := locks[key]])
              && (LockMap(old(Now())) && key !in old(locks) ==>
                    locks[key] !in old(held) && forall k :: k in old(locks) ==> old(locks)[k] != locks[key])
    {
      var id := tasks[task].job;
      var key := if jobs[id].series.Some? then jobs[id].series.value else -1;
      if key !in locks {
        locks := locks[key := nextLock];
        nextLock := nextLock + 1;
      }
      tasks := tasks[task := Waiting(id, locks[key])];
    }

    /** Into the region that processes an item: nobody else is inside the same series. */
    method EnterSeries(task: nat, lim: Limits)
      requires Enabled(Now(), Acquire(task), lim)
      modifies this
      ensures Now() == Next(old(Now()), Acquire(task), lim)
      ensures Inv(old(Now()), lim) && lim.retryMax <= lim.maxCap ==>
        && Inv(Now(), lim) && tasks[task].job in jobs && jobs == old(jobs)
        && (forall u :: Owns(Now(), u, Key(jobs[tasks[task].job])) <==> u == task)
    {
      hide Inv, Owns;
      ghost var before := Now();
      var w := tasks[task];
      held := held[w.lock := task];
      tasks := tasks[task := Inside(w.job, w.lock)];
      if Inv(before, lim) && lim.retryMax <= lim.maxCap {
        EnteredAlone(before, task, lim);
      }
    }

    /** Out of it, with the lock free for the next one that waits. */
    method LeaveSeries(task: nat, lim: Limits)
      requires Enabled(Now(), Process(task), lim)
      modifies this
      ensures Now() == Next(old(Now()), Process(task), lim)
      ensures old(tasks[task]).lock !in held && jobs == old(jobs)
      ensures Inv(old(Now()), lim) && lim.retryMax <= lim.maxCap ==>
        && Inv(Now(), lim) && tasks[task].job in jobs
        && (forall u :: !Owns(Now(), u, Key(jobs[tasks[task].job])))
    {
      hide Inv, Owns;
      ghost var before := Now();
      var w := tasks[task];
      held := held - {w.lock};
      tasks := tasks[task := Processed(w.job)];
      if Inv(before, lim) && lim.retryMax <= lim.maxCap {
        LeftEmpty(before, task, lim);
      }
    }

    /** The verdict on a job: done or skipped items end done, quarantined ones quarantined, any other
        failed, and nothing else of the row and no other row changes.  A transient quarantine sets one
        timer for the same file and series while the row has attempts left. */
    method FinishJob(task: nat, outcome: Outcome, lim: Limits)
      requires Enabled(Now(), Finish(task, outcome), lim)
      modifies this
      ensures Now() == Next(old(Now()), Finish(task, outcome), lim)
      ensures Judged(old(Now()), Now(), task, outcome, lim)
    {
      hide Judged, Next, Enabled;
      FinishNext(Now(), task, outcome, lim);
      FinishJudges(Now(), task, outcome, lim);
      var id := tasks[task].job;
      var j := jobs[id];
      if outcome.ItemDone? || outcome.ItemSkipped? {
        jobs := jobs[id := j.(status := Done)];
      } else if outcome.ItemQuarantined? {
        jobs := jobs[id := j.(status := Quarantined)];
      } else {
        jobs := jobs[id := j.(status := Failed)];
      }
      if outcome.ItemQuarantined? && outcome.transient && lim.retryMax > 0 {
        if j.attempts < lim.retryMax {
          timers := timers + multiset{(j.path, j.series)};
        }
      }
      tasks := tasks - {task};
    }
  }
}
