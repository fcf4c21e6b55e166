/** What the queue promises over every interleaving, and the one promise the retry route breaks. */
module WorkerLaws {
  import opened Options
  import opened Worker
  import opened WorkerInvariant
  import opened WorkerRuns

  lemma {:induction false} RunKeeps(st: State, steps: seq<Step>, lim: Limits)
    requires Inv(st, lim) && Legal(st, steps, lim) && lim.retryMax <= lim.maxCap
    ensures Inv(After(st, steps, lim), lim)
    decreases |steps|
  {
    hide Inv, Enabled, Next;
    if |steps| > 0 {
      StepKeeps(st, steps[0], lim);
      RunKeeps(Next(st, steps[0], lim), steps[1..], lim);
    }
  }

  function Finished(jobs: map<nat, Job>, p: string): set<nat>
  {
    set id | id in jobs && jobs[id].path == p && jobs[id].status == Done
  }

  /** Retry chains end: in every run, the rows a path has that did not end in `done` number at most
      the largest automatic cap plus the rows asked for by people or by startup. */
  lemma ChainsEnd(steps: seq<Step>, lim: Limits, p: string)
    requires Legal(Start(), steps, lim) && lim.retryMax <= lim.maxCap
    ensures var st := After(Start(), steps, lim);
            |OfPath(st.jobs, p)| - |Finished(st.jobs, p)| <= lim.maxCap + ManualCount(st, p)
  {
    StartInv(lim);
    RunKeeps(Start(), steps, lim);
    var st := After(Start(), steps, lim);
    assert Undone(st.jobs, p) !! Finished(st.jobs, p);
    assert OfPath(st.jobs, p) == Undone(st.jobs, p) + Finished(st.jobs, p);
  }

  /** Coroutine `t` runs inside the lock of series `key`. */
  ghost predicate Owns(st: State, t: nat, key: int)
  {
    t in st.tasks && Holds(st.tasks[t]) && Wants(st, st.tasks[t], key)
  }

  /** In every run at most one coroutine is inside the lock of a series: translations of one series
      exclude each other and edits of its Bible. */
  lemma OnePerSeries(steps: seq<Step>, lim: Limits, t: nat, u: nat, key: int)
    requires Legal(Start(), steps, lim) && lim.retryMax <= lim.maxCap
    requires var st := After(Start(), steps, lim); Owns(st, t, key) && Owns(st, u, key)
    ensures t == u
  {
    StartInv(lim);
    RunKeeps(Start(), steps, lim);
    var st := After(Start(), steps, lim);
    assert LockOk(st, t) && LockOk(st, u);
  }

  // ---- one active row per path -----------------------------------------------------------

  ghost predicate OneActive(jobs: map<nat, Job>)
  {
    forall i, j :: i in jobs && j in jobs && Active(jobs[i]) && Active(jobs[j]) && jobs[i].path == jobs[j].path ==> i == j
  }

  /** A manual retry taken while another row of the same path is active. */
  predicate Collides(st: State, step: Step)
  {
    step.RetryReset? && step.row in st.jobs && HasActive(st.jobs, st.jobs[step.row].path)
  }

  /** Paths are kept, and a row is active afterwards only if it was. */
  ghost predicate NoneActivated(a: map<nat, Job>, b: map<nat, Job>)
  {
    a.Keys == b.Keys && forall id :: id in a ==> b[id].path == a[id].path && (Active(b[id]) ==> Active(a[id]))
  }

  lemma OneActiveKept(a: map<nat, Job>, b: map<nat, Job>)
    requires OneActive(a) && NoneActivated(a, b)
    ensures OneActive(b)
  {
  }

  lemma OneActiveInsert(jobs: map<nat, Job>, id: nat, j: Job)
    requires OneActive(jobs) && id !in jobs && !HasActive(jobs, j.path)
    ensures OneActive(jobs[id := j])
  {
    forall i | i in jobs && Active(jobs[i])
      ensures jobs[i].path != j.path
    {
    }
  }

  lemma {:induction false} OneActiveArm2(st: State, rows: seq<(string, Option<int>)>)
    requires OneActive(st.jobs) && RowIds(st)
    ensures OneActive(Arm2(st, rows).jobs) && RowIds(Arm2(st, rows))
  {
    if |rows| > 0 {
      var n := |rows| - 1;
      OneActiveArm2(st, rows[..n]);
      var mid := Arm2(st, rows[..n]);
      if OfPath(mid.jobs, rows[n].0) == {} {
        assert forall id :: id in mid.jobs && mid.jobs[id].path == rows[n].0 ==> id in OfPath(mid.jobs, rows[n].0);
        OneActiveInsert(mid.jobs, mid.nextId, Job(rows[n].0, rows[n].1, Queued, StartupReconcile, 0));
      }
    }
  }

  lemma OneActiveAdmitted(st: State, call: nat, path: string, series: Option<int>, trigger: Trigger, cap: Option<nat>)
    requires OneActive(st.jobs) && RowIds(st)
    ensures OneActive(Insert(st, call, path, series, trigger, cap).jobs)
  {
    if Admits(st, path, trigger, cap) {
      OneActiveInsert(st.jobs, st.nextId, Job(path, series, Queued, trigger, 0));
    }
  }

  lemma OneActiveRequeued(st: State)
    requires OneActive(st.jobs) && RowIds(st)
    ensures OneActive(Arm1(LoseMemory(st)).jobs) && RowIds(Arm1(LoseMemory(st)))
  {
  }

  lemma LostRows(st: State)
    ensures LoseMemory(st).jobs == st.jobs
  {
  }

  lemma OneActiveRetry(st: State, call: nat, row: nat, lim: Limits)
    requires OneActive(st.jobs) && Enabled(st, RetryReset(call, row), lim)
    ensures OneActive(Next(st, RetryReset(call, row), lim).jobs) <==> !HasActive(st.jobs, st.jobs[row].path)
  {
    var r := Next(st, RetryReset(call, row), lim);
    if HasActive(st.jobs, st.jobs[row].path) {
      var id :| id in st.jobs && st.jobs[id].path == st.jobs[row].path && Active(st.jobs[id]);
      assert id != row && Active(r.jobs[id]) && Active(r.jobs[row]);
    } else {
      forall i | i in st.jobs && Active(st.jobs[i])
        ensures st.jobs[i].path != st.jobs[row].path
      {
      }
    }
  }

  /** At most one active row per path survives a step exactly when the step is not a manual retry
      that collides. */
  lemma OneActiveIff(st: State, step: Step, lim: Limits)
    requires Inv(st, lim) && Enabled(st, step, lim) && OneActive(st.jobs)
    ensures OneActive(Next(st, step, lim).jobs) <==> !Collides(st, step)
  {
    hide Flow, LocksOk, Insert, Arm1, Arm2, LoseMemory, HasActive, OneActive;
    if step.RetryReset? {
      OneActiveRetry(st, step.call, step.row, lim);
    } else if step.EnqueueInsert? {
      OneActiveAdmitted(st, step.call, step.path, step.series, step.trigger, step.cap);
    } else if step.TimerFires? {
      var fired := st.(timers := st.timers - multiset{(step.path, step.series)});
      OneActiveAdmitted(fired, step.call, step.path, step.series, AutoRetry, Some(lim.retryMax));
    } else if step.Restart? || step.RestartInterrupted? {
      OneActiveRequeued(st);
      OneActiveArm2(Arm1(LoseMemory(st)), step.rows);
      LostRows(Arm2(Arm1(LoseMemory(st)), step.rows));
    } else {
      hide Enabled, Next;
      OneActiveQuiet(st, step, lim);
    }
  }

  lemma OneActiveQuiet(st: State, step: Step, lim: Limits)
    requires Enabled(st, step, lim) && OneActive(st.jobs) && Flow(st)
    requires !step.RetryReset? && !step.EnqueueInsert? && !step.TimerFires? && !step.Restart? && !step.RestartInterrupted?
    ensures OneActive(Next(st, step, lim).jobs)
  {
    if step.Begin? || step.Finish? || step.Abort? {
      RowMoves(st, step, lim);
      hide *;
      OneActiveKept(st.jobs, Next(st, step, lim).jobs);
    } else {
      RowsStay(st, step, lim);
    }
  }

  lemma RowsStay(st: State, step: Step, lim: Limits)
    requires Enabled(st, step, lim)
    requires !step.RetryReset? && !step.EnqueueInsert? && !step.TimerFires? && !step.Restart? && !step.RestartInterrupted?
    requires !step.Begin? && !step.Finish? && !step.Abort?
    ensures Next(st, step, lim).jobs == st.jobs
  {
    hide Insert, Arm1, Arm2, Selects, Lists;
  }

  /** A coroutine changes the status of its own row, and never activates it. */
  lemma RowMoves(st: State, step: Step, lim: Limits)
    requires Enabled(st, step, lim) && Flow(st) && (step.Begin? || step.Finish? || step.Abort?)
    ensures NoneActivated(st.jobs, Next(st, step, lim).jobs)
  {
    hide Flow, Next;
    RowOfTask(st, step.task);
    var id := st.tasks[step.task].job;
    var status := if step.Begin? then Running else if step.Finish? then EndStatus(step.outcome)
                  else if step.marked then Failed else st.jobs[id].status;
    OwnRow(st, step, lim, status);
  }

  lemma OwnRow(st: State, step: Step, lim: Limits, status: Status)
    requires Enabled(st, step, lim) && (step.Begin? || step.Finish? || step.Abort?)
    requires step.Begin? ==> status == Running
    requires step.Finish? ==> status == EndStatus(step.outcome)
    requires step.Abort? ==> status == if step.marked then Failed else st.jobs[st.tasks[step.task].job].status
    ensures step.task in st.tasks && HasJob(st.tasks[step.task]) && st.tasks[step.task].job in st.jobs
    ensures var id := st.tasks[step.task].job;
            var attempts := if step.Begin? then st.jobs[id].attempts + 1 else st.jobs[id].attempts;
            Next(st, step, lim).jobs == st.jobs[id := st.jobs[id].(status := status, attempts := attempts)]
  {
    hide SchedulesRetry, EndStatus;
  }

  ghost predicate NoCollision(st: State, steps: seq<Step>, lim: Limits)
    requires Legal(st, steps, lim)
    decreases |steps|
  {
    |steps| > 0 ==> !Collides(st, steps[0]) && NoCollision(Next(st, steps[0], lim), steps[1..], lim)
  }

  /** Without colliding retries, every run keeps at most one active row per path. */
  lemma {:induction false} DedupHolds(st: State, steps: seq<Step>, lim: Limits)
    requires Inv(st, lim) && OneActive(st.jobs) && Legal(st, steps, lim) && lim.retryMax <= lim.maxCap
    requires NoCollision(st, steps, lim)
    ensures OneActive(After(st, steps, lim).jobs)
    decreases |steps|
  {
    hide Inv, Enabled, Next, OneActive, Collides;
    if |steps| > 0 {
      StepKeeps(st, steps[0], lim);
      OneActiveIff(st, steps[0], lim);
      DedupHolds(Next(st, steps[0], lim), steps[1..], lim);
    }
  }

  /** One queued manual row, its call still open. */
  function Asked(p: string): State
  {
    Start().(jobs := map[0 := Job(p, None, Queued, Manual, 0)], nextId := 1,
             calls := map[0 := Enqueuing(p, Manual, 0)], manual := map[p := 1])
  }

  /** That row has failed. */
  function FailedOnce(p: string): State
  {
    Start().(jobs := map[0 := Job(p, None, Failed, Manual, 0)], nextId := 1, manual := map[p := 1])
  }

  /** A second row has been enqueued. */
  function AskedAgain(p: string): State
  {
    FailedOnce(p).(jobs := map[0 := Job(p, None, Failed, Manual, 0), 1 := Job(p, None, Queued, Manual, 0)], nextId := 2,
                   calls := map[1 := Enqueuing(p, Manual, 1)], manual := map[p := 2])
  }

  lemma Asking(p: string, lim: Limits)
    ensures Enabled(Start(), EnqueueInsert(0, p, None, Manual, None), lim)
    ensures Next(Start(), EnqueueInsert(0, p, None, Manual, None), lim) == Asked(p)
  {
    assert !HasActive(Start().jobs, p);
  }

  lemma Failing(p: string, lim: Limits)
    ensures Legal(Asked(p), [EnqueuePut(0, 0), Dispatch(0), Abort(0, true)], lim)
    ensures After(Asked(p), [EnqueuePut(0, 0), Dispatch(0), Abort(0, true)], lim) == FailedOnce(p)
  {
    var steps := [EnqueuePut(0, 0), Dispatch(0), Abort(0, true)];
    var s2 := Next(Asked(p), steps[0], lim);
    assert s2 == Asked(p).(calls := map[], queue := [0]);
    var s3 := Next(s2, steps[1], lim);
    assert s3 == Asked(p).(calls := map[], tasks := map[0 := Dispatched(0)]);
    var s4 := Next(s3, steps[2], lim);
    assert s4 == FailedOnce(p);
    Unfold(Asked(p), steps, lim);
    assert steps[1..] == [steps[1], steps[2]] && steps[1..][1..] == [steps[2]];
    Unfold(s2, [steps[1], steps[2]], lim);
    Unfold(s3, [steps[2]], lim);
  }

  lemma AskingAgain(p: string, lim: Limits)
    ensures Enabled(FailedOnce(p), EnqueueInsert(1, p, None, Manual, None), lim)
    ensures Next(FailedOnce(p), EnqueueInsert(1, p, None, Manual, None), lim) == AskedAgain(p)
  {
    assert !HasActive(FailedOnce(p).jobs, p);
  }

  lemma RetriedBeside(p: string, lim: Limits)
    ensures Enabled(AskedAgain(p), RetryReset(2, 0), lim)
    ensures !OneActive(Next(AskedAgain(p), RetryReset(2, 0), lim).jobs)
  {
    var last := AskedAgain(p).jobs[0 := Job(p, None, Queued, ManualRetry, 0)];
    assert Next(AskedAgain(p), RetryReset(2, 0), lim).jobs == last;
    assert Active(last[0]) && Active(last[1]) && last[0].path == last[1].path;
  }

  /** The retry route has no dedup guard: a second row is enqueued after the first one failed, and
      the first one is then retried beside it. */
  lemma RetryBreaksDedup(p: string, lim: Limits)
    ensures var run := [EnqueueInsert(0, p, None, Manual, None)] + [EnqueuePut(0, 0), Dispatch(0), Abort(0, true)]
                       + [EnqueueInsert(1, p, None, Manual, None), RetryReset(2, 0)];
            Legal(Start(), run, lim) && !OneActive(After(Start(), run, lim).jobs)
  {
    hide Enabled, Next, OneActive, Asked, FailedOnce, AskedAgain, Start;
    var first, second := EnqueueInsert(0, p, None, Manual, None), EnqueueInsert(1, p, None, Manual, None);
    var middle := [EnqueuePut(0, 0), Dispatch(0), Abort(0, true)];
    Asking(p, lim);
    Failing(p, lim);
    AskingAgain(p, lim);
    RetriedBeside(p, lim);
    Unfold(AskedAgain(p), [RetryReset(2, 0)], lim);
    assert [second, RetryReset(2, 0)][1..] == [RetryReset(2, 0)];
    Unfold(FailedOnce(p), [second, RetryReset(2, 0)], lim);
    Joined(Asked(p), middle, [second, RetryReset(2, 0)], lim);
    var run := [first] + middle + [second, RetryReset(2, 0)];
    assert run[1..] == middle + [second, RetryReset(2, 0)];
    Unfold(Start(), run, lim);
  }

  /** Runs compose. */
  lemma {:induction false} Joined(st: State, a: seq<Step>, b: seq<Step>, lim: Limits)
    requires Legal(st, a, lim) && Legal(After(st, a, lim), b, lim)
    ensures Legal(st, a + b, lim) && After(st, a + b, lim) == After(After(st, a, lim), b, lim)
    decreases |a|
  {
    hide Enabled, Next;
    if |a| == 0 {
      assert a + b == b;
    } else {
      Joined(Next(st, a[0], lim), a[1..], b, lim);
      assert (a + b)[1..] == a[1..] + b;
    }
  }

  lemma Unfold(st: State, steps: seq<Step>, lim: Limits)
    requires |steps| > 0 && Enabled(st, steps[0], lim)
    ensures Legal(st, steps, lim) <==> Legal(Next(st, steps[0], lim), steps[1..], lim)
    ensures Legal(st, steps, lim) ==> After(st, steps, lim) == After(Next(st, steps[0], lim), steps[1..], lim)
  {
  }

  // ---- nothing is stranded ---------------------------------------------------------------

  /** Some call, queue entry or coroutine will still move this row. */
  ghost predicate Reached(st: State, id: nat)
  {
    || id in st.queue
    || (exists c :: c in st.calls && st.calls[c].row == id)
    || (exists t :: t in st.tasks && HasJob(st.tasks[t]) && st.tasks[t].job == id)
  }

  ghost predicate AllReached(st: State)
  {
    forall id :: id in st.jobs && Active(st.jobs[id]) ==> Reached(st, id)
  }

  predicate Stops(step: Step) { step.Crash? || step.RestartInterrupted? }

  /** Steps that neither stop the process nor start it, nor kill a coroutine silently. */
  predicate Orderly(step: Step)
  {
    !Stops(step) && !step.Restart? && !(step.Abort? && !step.marked)
  }

  lemma ReachedQueued(st: State, step: Step, lim: Limits, k: nat)
    requires Flow(st) && Enabled(st, step, lim) && Orderly(step) && k < |st.queue|
    ensures Reached(Next(st, step, lim), st.queue[k])
  {
    hide Flow, Admits, HasActive, Selects, SchedulesRetry;
    var r := Next(st, step, lim);
    if step.Dispatch? {
      assert k == 0 ==> r.tasks[step.task].job == st.queue[k];
      assert k > 0 ==> r.queue[k - 1] == st.queue[k];
    } else {
      assert k < |r.queue| && r.queue[k] == st.queue[k];
    }
  }

  lemma ReachedCalled(st: State, step: Step, lim: Limits, c: nat)
    requires Inv(st, lim) && Enabled(st, step, lim) && Orderly(step) && c in st.calls
    ensures Reached(Next(st, step, lim), st.calls[c].row)
  {
    var r := Next(st, step, lim);
    if step.EnqueuePut? {
      SelectsOwnRow(st, step.call, step.row, lim);
    }
    if step.EnqueueLost? {
      SelectsOwnRow(st, step.call, st.calls[step.call].row, lim);
    }
    hide Inv, Admits, HasActive, Selects, SchedulesRetry;
    if (step.EnqueuePut? || step.RetryPut?) && step.call == c {
      assert r.queue[|st.queue|] == st.calls[c].row;
    } else {
      assert c in r.calls && r.calls[c].row == st.calls[c].row;
    }
  }

  lemma ReachedRunning(st: State, step: Step, lim: Limits, t: nat)
    requires Inv(st, lim) && Enabled(st, step, lim) && Orderly(step) && t in st.tasks && HasJob(st.tasks[t])
    requires st.tasks[t].job in st.jobs && Active(st.jobs[st.tasks[t].job])
    requires var r := Next(st, step, lim); st.tasks[t].job in r.jobs && Active(r.jobs[st.tasks[t].job])
    ensures Reached(Next(st, step, lim), st.tasks[t].job)
  {
    hide Inv, Admits, HasActive, Selects, SchedulesRetry;
    var r := Next(st, step, lim);
    assert t in r.tasks && HasJob(r.tasks[t]) && r.tasks[t].job == st.tasks[t].job;
  }

  lemma ReachedNew(st: State, step: Step, lim: Limits, id: nat)
    requires Flow(st) && Enabled(st, step, lim) && Orderly(step)
    requires id in Next(st, step, lim).jobs && Active(Next(st, step, lim).jobs[id])
    requires id !in st.jobs || !Active(st.jobs[id])
    ensures Reached(Next(st, step, lim), id)
  {
    hide Flow, Admits, HasActive, Selects, SchedulesRetry;
    if step.EnqueueInsert? || step.TimerFires? || step.RetryReset? {
      assert Next(st, step, lim).calls[step.call].row == id;
    } else if step.Begin? || step.Finish? || step.Abort? {
      hide Next, Enabled;
      RowMoves(st, step, lim);
    } else {
      RowsStay(st, step, lim);
    }
  }

  lemma ReachedAfter(st: State, step: Step, lim: Limits, id: nat)
    requires Inv(st, lim) && Enabled(st, step, lim) && AllReached(st) && Orderly(step)
    requires id in Next(st, step, lim).jobs && Active(Next(st, step, lim).jobs[id])
    ensures Reached(Next(st, step, lim), id)
  {
    hide Next, Enabled, Flow, Table, LocksOk;
    if id !in st.jobs || !Active(st.jobs[id]) {
      ReachedNew(st, step, lim, id);
    } else if id in st.queue {
      var k :| 0 <= k < |st.queue| && st.queue[k] == id;
      ReachedQueued(st, step, lim, k);
    } else if c :| c in st.calls && st.calls[c].row == id {
      ReachedCalled(st, step, lim, c);
    } else {
      assert Reached(st, id);
      var t :| t in st.tasks && HasJob(st.tasks[t]) && st.tasks[t].job == id;
      ReachedRunning(st, step, lim, t);
    }
  }

  lemma AbortStrands(st: State, task: nat, lim: Limits)
    requires Inv(st, lim) && Enabled(st, Abort(task, false), lim)
    ensures !AllReached(Next(st, Abort(task, false), lim))
  {
    var r := Next(st, Abort(task, false), lim);
    var id := st.tasks[task].job;
    assert TaskOk(st, st.tasks[task]);
    assert id in r.jobs && Active(r.jobs[id]);
    forall t | t in r.tasks && HasJob(r.tasks[t])
      ensures r.tasks[t].job != id
    {
    }
    assert !Reached(r, id);
  }

  /** Short of a crash, an active row is stranded by a step exactly when its coroutine died without
      managing to mark it failed. */
  lemma StrandedIff(st: State, step: Step, lim: Limits)
    requires Inv(st, lim) && Enabled(st, step, lim) && AllReached(st) && !Stops(step)
    ensures AllReached(Next(st, step, lim)) <==> !(step.Abort? && !step.marked)
  {
    if step.Restart? {
      RestartRecovers(st, step.rows, lim);
      hide Inv, Next;
    } else if step.Abort? && !step.marked {
      AbortStrands(st, step.task, lim);
    } else {
      hide Next, Enabled, Inv, Reached;
      forall id | id in Next(st, step, lim).jobs && Active(Next(st, step, lim).jobs[id])
        ensures Reached(Next(st, step, lim), id)
      {
        ReachedAfter(st, step, lim, id);
      }
    }
  }
}
