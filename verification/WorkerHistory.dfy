/** The history of a row: which steps of a run gave it the status and the attempts it has. */
module WorkerHistory {
  import opened Options
  import opened Worker
  import opened WorkerInvariant
  import opened WorkerRuns
  import opened WorkerLaws

  /** A run without its last step, and that step. */
  lemma {:induction false} LastStep(st: State, steps: seq<Step>, lim: Limits)
    requires |steps| > 0 && Legal(st, steps, lim)
    ensures var front := steps[..|steps| - 1];
            && Legal(st, front, lim) && Enabled(After(st, front, lim), steps[|steps| - 1], lim)
            && After(st, steps, lim) == Next(After(st, front, lim), steps[|steps| - 1], lim)
    decreases |steps|
  {
    hide Enabled, Next;
    var n := |steps| - 1;
    if n > 0 {
      LastStep(Next(st, steps[0], lim), steps[1..], lim);
      assert steps[1..][..n - 1] == steps[..n][1..];
    }
  }

  // ---- who ended a row -------------------------------------------------------------------

  predicate Carries(st: State, task: nat, id: nat)
  {
    task in st.tasks && !st.tasks[task].BibleEdit? && st.tasks[task].job == id
  }

  /** The step ends row `id` with this verdict: its coroutine reports a done or a skipped item, a
      quarantined one or an error, or dies and is marked. */
  predicate Ends(st: State, step: Step, id: nat, verdict: Status)
  {
    || (step.Finish? && Carries(st, step.task, id)
        && match step.outcome
           case ItemDone => verdict == Done
           case ItemSkipped => verdict == Done
           case ItemQuarantined(_) => verdict == Quarantined
           case ItemError => verdict == Failed)
    || (step.Abort? && step.marked && Carries(st, step.task, id) && verdict == Failed)
  }

  predicate Resets(step: Step, id: nat)
  {
    step.RetryReset? && step.row == id
  }

  /** Step `k` of the run ended the row with this verdict, and nobody asked to retry it since. */
  ghost predicate EndedAt(steps: seq<Step>, lim: Limits, id: nat, verdict: Status, k: nat)
  {
    && k < |steps| && Legal(Start(), steps[..k], lim) && Ends(After(Start(), steps[..k], lim), steps[k], id, verdict)
    && forall m :: k < m < |steps| ==> !Resets(steps[m], id)
  }

  predicate Has(st: State, id: nat, status: Status)
  {
    id in st.jobs && st.jobs[id].status == status
  }

  /** A verdict is on a row after a step if and only if the step put it there, or it was there and the
      step is no retry of that row. */
  lemma VerdictAfter(st: State, step: Step, lim: Limits, id: nat, verdict: Status)
    requires Inv(st, lim) && Enabled(st, step, lim) && verdict != Queued && verdict != Running
    ensures Has(Next(st, step, lim), id, verdict) <==> Ends(st, step, id, verdict) || (Has(st, id, verdict) && !Resets(step, id))
  {
    hide LocksOk, Flow, Bounded, SingleEnqueued, Insert, Arm1, Arm2, Selects, Lists, SchedulesRetry;
    if step.Begin? || step.Finish? || step.Abort? {
      hide Next;
      OwnVerdict(st, step, lim, id, verdict);
    } else if step.EnqueueInsert? || step.TimerFires? {
      hide Next;
      InsertedQueued(st, step, lim, id, verdict);
    } else if step.Restart? || step.RestartInterrupted? {
      RestartKeepsEnded(st, step.rows, id, verdict);
    } else if !step.RetryReset? {
      RowsStay(st, step, lim);
    }
  }

  lemma OwnVerdict(st: State, step: Step, lim: Limits, id: nat, verdict: Status)
    requires Flow(st) && Enabled(st, step, lim) && (step.Begin? || step.Finish? || step.Abort?) && verdict != Queued && verdict != Running
    ensures Has(Next(st, step, lim), id, verdict) <==> Ends(st, step, id, verdict) || Has(st, id, verdict)
  {
    hide Next, Enabled, Flow;
    OwnRowKept(st, step, lim);
    RowOfTask(st, step.task);
  }

  lemma OwnRowKept(st: State, step: Step, lim: Limits)
    requires Enabled(st, step, lim) && (step.Begin? || step.Finish? || step.Abort?)
    ensures step.task in st.tasks && HasJob(st.tasks[step.task]) && st.tasks[step.task].job in st.jobs
    ensures var id, r := st.tasks[step.task].job, Next(st, step, lim);
            && r.jobs.Keys == st.jobs.Keys && (forall i :: i in st.jobs && i != id ==> r.jobs[i] == st.jobs[i])
            && r.jobs[id].status == (if step.Begin? then Running
                                     else if step.Abort? then (if step.marked then Failed else st.jobs[id].status)
                                     else match step.outcome
                                          case ItemDone => Done
                                          case ItemSkipped => Done
                                          case ItemQuarantined(_) => Quarantined
                                          case ItemError => Failed)
            && r.jobs[id].attempts == st.jobs[id].attempts + (if step.Begin? then 1 else 0)
  {
    hide SchedulesRetry;
  }

  lemma InsertedQueued(st: State, step: Step, lim: Limits, id: nat, verdict: Status)
    requires RowIds(st) && Enabled(st, step, lim) && (step.EnqueueInsert? || step.TimerFires?) && verdict != Queued
    ensures Has(Next(st, step, lim), id, verdict) <==> Has(st, id, verdict)
    ensures id in st.jobs ==> id in Next(st, step, lim).jobs && Next(st, step, lim).jobs[id] == st.jobs[id]
    ensures id !in st.jobs && id in Next(st, step, lim).jobs ==> Next(st, step, lim).jobs[id].attempts == 0
  {
    if step.EnqueueInsert? {
      InsertAdds(st, step.call, step.path, step.series, step.trigger, step.cap, id, verdict);
    } else {
      InsertAdds(st.(timers := st.timers - multiset{(step.path, step.series)}), step.call, step.path, step.series, AutoRetry,
                 Some(lim.retryMax), id, verdict);
    }
    hide Insert;
  }

  lemma InsertAdds(st: State, call: nat, path: string, series: Option<int>, trigger: Trigger, cap: Option<nat>, id: nat, verdict: Status)
    requires RowIds(st) && verdict != Queued
    ensures var r := Insert(st, call, path, series, trigger, cap);
            && (Has(r, id, verdict) <==> Has(st, id, verdict))
            && (id in st.jobs ==> id in r.jobs && r.jobs[id] == st.jobs[id])
            && (id !in st.jobs && id in r.jobs ==> r.jobs[id].attempts == 0)
  {
    InsertJobs(st, call, path, series, trigger, cap);
    hide Insert;
  }

  lemma InsertJobs(st: State, call: nat, path: string, series: Option<int>, trigger: Trigger, cap: Option<nat>)
    ensures var r := Insert(st, call, path, series, trigger, cap).jobs;
            r == st.jobs || r == st.jobs[st.nextId := Job(path, series, Queued, trigger, 0)]
  {
    hide Admits, ManualCount;
  }

  lemma {:induction false} Arm2KeepsEnded(st: State, rows: seq<(string, Option<int>)>, id: nat, verdict: Status)
    requires RowIds(st) && verdict != Queued
    ensures RowIds(Arm2(st, rows)) && (Has(Arm2(st, rows), id, verdict) <==> Has(st, id, verdict))
    ensures id in st.jobs ==> id in Arm2(st, rows).jobs && Arm2(st, rows).jobs[id] == st.jobs[id]
    ensures id !in st.jobs && id in Arm2(st, rows).jobs ==> Arm2(st, rows).jobs[id].attempts == 0
  {
    hide OfPath;
    if |rows| > 0 {
      Arm2KeepsEnded(st, rows[..|rows| - 1], id, verdict);
    }
  }

  lemma RestartKeepsEnded(st: State, rows: seq<(string, Option<int>)>, id: nat, verdict: Status)
    requires RowIds(st) && verdict != Queued && verdict != Running
    ensures var r := Arm2(Arm1(LoseMemory(st)), rows);
            && (Has(r, id, verdict) <==> Has(st, id, verdict)) && (Has(LoseMemory(r), id, verdict) <==> Has(st, id, verdict))
            && (id in st.jobs ==> id in r.jobs && r.jobs[id].attempts == st.jobs[id].attempts)
            && (id !in st.jobs && id in r.jobs ==> r.jobs[id].attempts == 0)
  {
    Arm2KeepsEnded(Arm1(LoseMemory(st)), rows, id, verdict);
    hide Arm2;
  }

  /** In every run, a row stands done, quarantined or failed if and only if some step ended it so and
      nobody asked to retry it since; and a done row was reported done or skipped by its own coroutine. */
  lemma {:induction false} EndedIff(steps: seq<Step>, lim: Limits, id: nat, verdict: Status)
    requires Legal(Start(), steps, lim) && lim.retryMax <= lim.maxCap && verdict != Queued && verdict != Running
    ensures Has(After(Start(), steps, lim), id, verdict) <==> exists k: nat :: EndedAt(steps, lim, id, verdict, k)
    decreases |steps|
  {
    hide Inv, Enabled, Next, Ends, Resets;
    if |steps| > 0 {
      var n := |steps| - 1;
      var front := steps[..n];
      LastStep(Start(), steps, lim);
      EndedIff(front, lim, id, verdict);
      StartInv(lim);
      RunKeeps(Start(), front, lim);
      VerdictAfter(After(Start(), front, lim), steps[n], lim, id, verdict);
      forall k: nat | k < n
        ensures EndedAt(steps, lim, id, verdict, k) <==> EndedAt(front, lim, id, verdict, k) && !Resets(steps[n], id)
      {
        assert steps[..k] == front[..k];
      }
      assert EndedAt(steps, lim, id, verdict, n) <==> Ends(After(Start(), front, lim), steps[n], id, verdict);
    }
  }

  // ---- how often it ran ------------------------------------------------------------------

  /** The times a coroutine began row `id` since somebody last asked to retry it. */
  ghost function Begun(steps: seq<Step>, lim: Limits, id: nat): nat
    requires Legal(Start(), steps, lim)
    decreases |steps|
  {
    if |steps| == 0 then 0
    else
      var n := |steps| - 1;
      LastStep(Start(), steps, lim);
      if Resets(steps[n], id) then 0
      else Begun(steps[..n], lim, id)
           + if steps[n].Begin? && Carries(After(Start(), steps[..n], lim), steps[n].task, id) then 1 else 0
  }

  lemma AttemptsAfter(st: State, step: Step, lim: Limits, id: nat)
    requires Inv(st, lim) && Enabled(st, step, lim) && id in Next(st, step, lim).jobs
    ensures Next(st, step, lim).jobs[id].attempts
         == if Resets(step, id) then 0
            else (if id in st.jobs then st.jobs[id].attempts else 0) + if step.Begin? && Carries(st, step.task, id) then 1 else 0
  {
    hide LocksOk, Flow, Bounded, SingleEnqueued, Insert, Arm1, Arm2, Selects, Lists, SchedulesRetry;
    if step.Begin? || step.Finish? || step.Abort? {
      OwnRowKept(st, step, lim);
    } else if step.EnqueueInsert? || step.TimerFires? {
      InsertedQueued(st, step, lim, id, Done);
    } else if step.Restart? || step.RestartInterrupted? {
      RestartKeepsEnded(st, step.rows, id, Done);
    } else if !step.RetryReset? {
      RowsStay(st, step, lim);
    }
  }

  lemma BegunUnknown(st: State, step: Step, lim: Limits, id: nat)
    requires Inv(st, lim) && Enabled(st, step, lim) && id !in st.jobs
    ensures !Resets(step, id) && !(step.Begin? && Carries(st, step.task, id))
  {
    hide LocksOk, Table, Insert, Arm1, Arm2, Selects, Lists;
  }

  /** In every run, through crashes and restarts, the attempts stored for a row are the times it was
      begun since it was last reset. */
  lemma {:induction false} AttemptsCount(steps: seq<Step>, lim: Limits, id: nat)
    requires Legal(Start(), steps, lim) && lim.retryMax <= lim.maxCap
    ensures var st := After(Start(), steps, lim);
            Begun(steps, lim, id) == if id in st.jobs then st.jobs[id].attempts else 0
    decreases |steps|
  {
    hide Inv, Enabled, Next, Resets, Carries;
    if |steps| > 0 {
      var n := |steps| - 1;
      LastStep(Start(), steps, lim);
      AttemptsCount(steps[..n], lim, id);
      StartInv(lim);
      RunKeeps(Start(), steps[..n], lim);
      var st := After(Start(), steps[..n], lim);
      if id in st.jobs {
        RowsKept(st, steps[n], lim, id);
      }
      if id in Next(st, steps[n], lim).jobs {
        AttemptsAfter(st, steps[n], lim, id);
      } else {
        BegunUnknown(st, steps[n], lim, id);
      }
    }
  }

  /** No step forgets a row. */
  lemma RowsKept(st: State, step: Step, lim: Limits, id: nat)
    requires Inv(st, lim) && Enabled(st, step, lim) && id in st.jobs
    ensures id in Next(st, step, lim).jobs
  {
    hide LocksOk, Flow, Bounded, SingleEnqueued, Insert, Arm1, Arm2, Selects, Lists, SchedulesRetry;
    if step.EnqueueInsert? || step.TimerFires? {
      InsertedQueued(st, step, lim, id, Done);
    } else if step.Restart? || step.RestartInterrupted? {
      RestartKeepsEnded(st, step.rows, id, Done);
    }
  }

  // ---- what timers stand for -------------------------------------------------------------

  predicate Spare(j: Job, path: string, series: Option<int>, lim: Limits)
  {
    j.path == path && j.series == series && j.attempts < lim.retryMax
  }

  /** Step `k` finished a row of this file and series as a transient quarantine with attempts to spare,
      and the process has not stopped since. */
  ghost predicate ScheduledAt(steps: seq<Step>, lim: Limits, path: string, series: Option<int>, k: nat)
  {
    && k < |steps| && Legal(Start(), steps[..k], lim) && steps[k].Finish? && steps[k].outcome == ItemQuarantined(true)
    && (forall m :: k < m < |steps| ==> !Stops(steps[m]) && !steps[m].Restart?)
    && var st, task := After(Start(), steps[..k], lim), steps[k].task;
       && task in st.tasks && HasJob(st.tasks[task]) && st.tasks[task].job in st.jobs
       && Spare(st.jobs[st.tasks[task].job], path, series, lim)
  }

  lemma TimersAfter(st: State, step: Step, lim: Limits, path: string, series: Option<int>)
    requires Enabled(st, step, lim) && (path, series) in Next(st, step, lim).timers
    ensures !Stops(step) && !step.Restart?
    ensures (path, series) in st.timers
            || (step.Finish? && step.outcome == ItemQuarantined(true) && st.tasks[step.task].job in st.jobs
                && Spare(st.jobs[st.tasks[step.task].job], path, series, lim))
  {
    hide Insert, Arm1, Arm2, Selects, Lists;
    if step.EnqueueInsert? || step.TimerFires? {
      InsertTimers(st, step, lim);
    } else if step.Restart? || step.RestartInterrupted? {
      RestartTimers(Arm1(LoseMemory(st)), step.rows);
      LostTimers(st);
      LostTimers(LoseMemory(st));
      LostTimers(Arm2(Arm1(LoseMemory(st)), step.rows));
    }
  }

  lemma InsertTimers(st: State, step: Step, lim: Limits)
    requires Enabled(st, step, lim) && (step.EnqueueInsert? || step.TimerFires?)
    ensures Next(st, step, lim).timers <= st.timers
  {
    hide Admits;
  }

  lemma LostTimers(st: State)
    ensures LoseMemory(st).timers == multiset{} && Arm1(st).timers == st.timers
  {
  }

  lemma {:induction false} RestartTimers(st: State, rows: seq<(string, Option<int>)>)
    ensures Arm2(st, rows).timers == st.timers
  {
    hide OfPath;
    if |rows| > 0 {
      RestartTimers(st, rows[..|rows| - 1]);
    }
  }

  /** In every run, each timer that waits was set by such a quarantine. */
  lemma {:induction false} TimersScheduled(steps: seq<Step>, lim: Limits, path: string, series: Option<int>)
    requires Legal(Start(), steps, lim) && (path, series) in After(Start(), steps, lim).timers
    ensures exists k: nat :: ScheduledAt(steps, lim, path, series, k)
    decreases |steps|
  {
    hide Enabled, Next;
    if |steps| > 0 {
      var n := |steps| - 1;
      var front := steps[..n];
      LastStep(Start(), steps, lim);
      var st := After(Start(), front, lim);
      TimersAfter(st, steps[n], lim, path, series);
      if (path, series) in st.timers {
        TimersScheduled(front, lim, path, series);
        var k: nat :| ScheduledAt(front, lim, path, series, k);
        assert steps[..k] == front[..k];
        assert ScheduledAt(steps, lim, path, series, k);
      } else {
        FinishCarries(st, steps[n], lim);
        assert ScheduledAt(steps, lim, path, series, n);
      }
    }
  }

  lemma FinishCarries(st: State, step: Step, lim: Limits)
    requires Enabled(st, step, lim) && step.Finish?
    ensures step.task in st.tasks && HasJob(st.tasks[step.task])
  {
  }

  // ---- first come, first served ----------------------------------------------------------

  /** Short of a stop or a start the queue only loses its head, to a coroutine that carries that row, or
      gains one row at its end. */
  lemma QueueInOrder(st: State, step: Step, lim: Limits)
    requires Enabled(st, step, lim) && !Stops(step) && !step.Restart?
    ensures var r := Next(st, step, lim);
            if step.Dispatch? then st.queue == [st.queue[0]] + r.queue && Carries(r, step.task, st.queue[0])
            else st.queue <= r.queue && |r.queue| <= |st.queue| + 1
  {
    hide Admits, Selects, SchedulesRetry;
  }
}
