/** The job queue as a state machine.  Each step is one transaction or one stretch of code between
    two awaits; a crash may come between any two steps. */
module Worker {
  import opened Options

  datatype Status = Queued | Running | Done | Failed | Quarantined
  datatype Trigger = Poll | Webhook | Manual | ManualRetry | StartupReconcile | AutoRetry

  datatype Job = Job(path: string, series: Option<int>, status: Status, trigger: Trigger, attempts: nat)

  /** A call between its transaction and its put on the in-process queue.  An enqueue does not
      remember the row it inserted (it selects it again); `row` is kept for the proofs only. */
  datatype Call =
    | Enqueuing(path: string, trigger: Trigger, row: nat)
    | Retrying(row: nat)

  /** Where an in-flight coroutine stands.  `lock` is the identity of a lock object. */
  datatype Phase =
    | Dispatched(job: nat)
    | Started(job: nat)
    | Waiting(job: nat, lock: nat)
    | Inside(job: nat, lock: nat)
    | Processed(job: nat)
    | BibleEdit(key: int, lock: nat)

  datatype State = State(
    jobs: map<nat, Job>,               // the job table
    nextId: nat,
    ledger: map<string, Option<int>>,  // in_progress ledger rows, with the series they name
    queue: seq<nat>,                   // the in-process work queue
    calls: map<nat, Call>,
    tasks: map<nat, Phase>,
    timers: multiset<(string, Option<int>)>,
    locks: map<int, nat>,              // series key to lock object
    nextLock: nat,
    held: map<nat, nat>,               // lock object to the coroutine holding it
    manual: map<string, nat>)          // manual and startup rows inserted so far, per path

  datatype Outcome = ItemDone | ItemSkipped | ItemQuarantined(transient: bool) | ItemError

  datatype Step =
    | EnqueueInsert(call: nat, path: string, series: Option<int>, trigger: Trigger, cap: Option<nat>)
    | EnqueuePut(call: nat, row: nat)
    | EnqueueLost(call: nat)
    | TimerFires(call: nat, path: string, series: Option<int>)
    | RetryReset(call: nat, row: nat)
    | RetryPut(call: nat)
    | Dispatch(task: nat)
    | Begin(task: nat)
    | FetchLock(task: nat)
    | Acquire(task: nat)
    | Process(task: nat)
    | Finish(task: nat, outcome: Outcome)
    | Abort(task: nat, marked: bool)
    | EditAcquire(task: nat, key: int)
    | EditRelease(task: nat)
    | LedgerWrite(path: string, series: Option<int>, inProgress: bool)
    | Crash
    | Restart(rows: seq<(string, Option<int>)>)
    | RestartInterrupted(rows: seq<(string, Option<int>)>)

  /** Settings: the auto-retry budget and the largest cap any automatic caller passes. */
  datatype Limits = Limits(retryMax: nat, maxCap: nat)

  predicate Active(j: Job) { j.status == Queued || j.status == Running }

  predicate Automatic(t: Trigger) { t == Poll || t == Webhook || t == AutoRetry }

  /** The lock key of a job: its series, or -1 for movies. */
  function Key(j: Job): int { if j.series.Some? then j.series.value else -1 }

  function OfPath(jobs: map<nat, Job>, path: string): set<nat>
  {
    set id | id in jobs && jobs[id].path == path
  }

  /** Rows that have not ended in `done`. */
  function Undone(jobs: map<nat, Job>, path: string): set<nat>
  {
    set id | id in jobs && jobs[id].path == path && jobs[id].status != Done
  }

  function Terminal(jobs: map<nat, Job>, path: string): set<nat>
  {
    set id | id in jobs && jobs[id].path == path && (jobs[id].status == Failed || jobs[id].status == Quarantined)
  }

  predicate HasActive(jobs: map<nat, Job>, path: string)
  {
    exists id :: id in jobs && jobs[id].path == path && Active(jobs[id])
  }

  function ManualCount(st: State, path: string): nat
  {
    if path in st.manual then st.manual[path] else 0
  }

  /** The dedup guard and the retry cap of `enqueue_job`, in one transaction. */
  predicate Admits(st: State, path: string, trigger: Trigger, cap: Option<nat>)
  {
    && !HasActive(st.jobs, path)
    && !(cap.Some? && Automatic(trigger) && |Terminal(st.jobs, path)| >= cap.value)
  }

  function InsertRow(st: State, path: string, series: Option<int>, trigger: Trigger): State
  {
    st.(jobs := st.jobs[st.nextId := Job(path, series, Queued, trigger, 0)],
        nextId := st.nextId + 1,
        manual := if Automatic(trigger) then st.manual else st.manual[path := ManualCount(st, path) + 1])
  }

  function Insert(st: State, call: nat, path: string, series: Option<int>, trigger: Trigger, cap: Option<nat>): State
  {
    if Admits(st, path, trigger, cap)
    then InsertRow(st, path, series, trigger).(calls := st.calls[call := Enqueuing(path, trigger, st.nextId)])
    else st
  }

  function SetStatus(st: State, id: nat, status: Status): State
    requires id in st.jobs
  {
    st.(jobs := st.jobs[id := st.jobs[id].(status := status)])
  }

  function EndStatus(o: Outcome): Status
  {
    match o
    case ItemDone => Done
    case ItemSkipped => Done
    case ItemQuarantined(_) => Quarantined
    case ItemError => Failed
  }

  /** What the second SELECT of `enqueue_job` may return. */
  predicate Selects(st: State, path: string, trigger: Trigger, row: nat)
  {
    row in st.jobs && st.jobs[row].path == path && st.jobs[row].status == Queued && st.jobs[row].trigger == trigger
  }

  // ---- crash and the two startup arms ----------------------------------------------------

  /** Everything in memory is gone; the two tables stay. */
  function LoseMemory(st: State): State
  {
    State(st.jobs, st.nextId, st.ledger, [], map[], map[], multiset{}, map[], 0, map[], st.manual)
  }

  function ActiveIds(jobs: map<nat, Job>): set<nat>
  {
    set id | id in jobs && Active(jobs[id])
  }

  /** Ascending ids below `n` that are in `ids`: the order in which a table scan returns them. */
  function Ascending(ids: set<nat>, n: nat): (r: seq<nat>)
    ensures forall i :: i in r <==> i in ids && i < n
    ensures forall k :: 0 <= k < |r| ==> r[k] < n
    ensures forall k, l :: 0 <= k < l < |r| ==> r[k] < r[l]
  {
    if n == 0 then [] else Ascending(ids, n - 1) + (if n - 1 in ids then [n - 1] else [])
  }

  function Requeued(jobs: map<nat, Job>): map<nat, Job>
  {
    map id | id in jobs :: if Active(jobs[id]) then jobs[id].(status := Queued) else jobs[id]
  }

  /** Arm 1: job rows left queued or running. */
  function Arm1(st: State): State
  {
    st.(jobs := Requeued(st.jobs), queue := st.queue + Ascending(ActiveIds(st.jobs), st.nextId))
  }

  /** One ledger row of arm 2: only if no job row at all exists for its path. */
  function Arm2One(st: State, path: string, series: Option<int>): State
  {
    if OfPath(st.jobs, path) != {} then st
    else
      var inserted := InsertRow(st, path, series, StartupReconcile);
      inserted.(queue := inserted.queue + [st.nextId])
  }

  /** Arm 2: in_progress ledger rows, in the order the table returned them. */
  function Arm2(st: State, rows: seq<(string, Option<int>)>): State
  {
    if |rows| == 0 then st else Arm2One(Arm2(st, rows[..|rows| - 1]), rows[|rows| - 1].0, rows[|rows| - 1].1)
  }

  /** `rows` lists the in_progress rows of the ledger, each once, in some order. */
  predicate Lists(rows: seq<(string, Option<int>)>, ledger: map<string, Option<int>>)
  {
    && (forall k :: 0 <= k < |rows| ==> rows[k].0 in ledger && rows[k].1 == ledger[rows[k].0])
    && (forall p :: p in ledger ==> exists k :: 0 <= k < |rows| && rows[k].0 == p)
  }

  // ---- one step --------------------------------------------------------------------------

  predicate Enabled(st: State, step: Step, lim: Limits)
  {
    match step
    case EnqueueInsert(call, _, _, trigger, cap) =>
      call !in st.calls && trigger != ManualRetry && trigger != AutoRetry
      && (Automatic(trigger) ==> cap.Some? && cap.value <= lim.maxCap)
    case EnqueuePut(call, row) =>
      call in st.calls && st.calls[call].Enqueuing? && Selects(st, st.calls[call].path, st.calls[call].trigger, row)
    case EnqueueLost(call) =>
      call in st.calls && st.calls[call].Enqueuing?
      && forall row :: row in st.jobs ==> !Selects(st, st.calls[call].path, st.calls[call].trigger, row)
    case TimerFires(call, path, series) => call !in st.calls && (path, series) in st.timers
    case RetryReset(call, row) =>
      call !in st.calls && row in st.jobs && (st.jobs[row].status == Failed || st.jobs[row].status == Quarantined)
    case RetryPut(call) => call in st.calls && st.calls[call].Retrying?
    case Dispatch(task) => task !in st.tasks && |st.queue| > 0
    case Begin(task) => task in st.tasks && st.tasks[task].Dispatched? && st.tasks[task].job in st.jobs
    case FetchLock(task) => task in st.tasks && st.tasks[task].Started? && st.tasks[task].job in st.jobs
    case Acquire(task) => task in st.tasks && st.tasks[task].Waiting? && st.tasks[task].lock !in st.held
    case Process(task) => task in st.tasks && st.tasks[task].Inside?
    case Finish(task, _) => task in st.tasks && st.tasks[task].Processed? && st.tasks[task].job in st.jobs
    case Abort(task, _) => task in st.tasks && !st.tasks[task].BibleEdit? && st.tasks[task].job in st.jobs
    case EditAcquire(task, key) => task !in st.tasks && (key in st.locks ==> st.locks[key] !in st.held)
    case EditRelease(task) => task in st.tasks && st.tasks[task].BibleEdit?
    case LedgerWrite(_, _, _) => true
    case Crash => true
    case Restart(rows) => Lists(rows, st.ledger)
    case RestartInterrupted(rows) => forall k :: 0 <= k < |rows| ==> rows[k].0 in st.ledger
  }

  /** `setdefault`: the lock object of a key, created on first use. */
  function LockFor(st: State, key: int): (State, nat)
  {
    if key in st.locks then (st, st.locks[key])
    else (st.(locks := st.locks[key := st.nextLock], nextLock := st.nextLock + 1), st.nextLock)
  }

  /** Should a finished job be re-enqueued after a delay? */
  predicate SchedulesRetry(j: Job, o: Outcome, lim: Limits)
  {
    o.ItemQuarantined? && o.transient && lim.retryMax > 0 && j.attempts < lim.retryMax
  }

  function Next(st: State, step: Step, lim: Limits): State
    requires Enabled(st, step, lim)
  {
    match step
    case EnqueueInsert(call, path, series, trigger, cap) => Insert(st, call, path, series, trigger, cap)
    case EnqueuePut(call, row) => st.(calls := st.calls - {call}, queue := st.queue + [row])
    case EnqueueLost(call) => st.(calls := st.calls - {call})
    case TimerFires(call, path, series) =>
      Insert(st.(timers := st.timers - multiset{(path, series)}), call, path, series, AutoRetry, Some(lim.retryMax))
    case RetryReset(call, row) =>
      st.(jobs := st.jobs[row := st.jobs[row].(status := Queued, attempts := 0, trigger := ManualRetry)],
          calls := st.calls[call := Retrying(row)])
    case RetryPut(call) => st.(calls := st.calls - {call}, queue := st.queue + [st.calls[call].row])
    case Dispatch(task) => st.(queue := st.queue[1..], tasks := st.tasks[task := Dispatched(st.queue[0])])
    case Begin(task) =>
      var id := st.tasks[task].job;
      st.(jobs := st.jobs[id := st.jobs[id].(status := Running, attempts := st.jobs[id].attempts + 1)],
          tasks := st.tasks[task := Started(id)])
    case FetchLock(task) =>
      var id := st.tasks[task].job;
      var (locked, l) := LockFor(st, Key(st.jobs[id]));
      locked.(tasks := st.tasks[task := Waiting(id, l)])
    case Acquire(task) =>
      var w := st.tasks[task];
      st.(held := st.held[w.lock := task], tasks := st.tasks[task := Inside(w.job, w.lock)])
    case Process(task) =>
      var w := st.tasks[task];
      st.(held := st.held - {w.lock}, tasks := st.tasks[task := Processed(w.job)])
    case Finish(task, o) =>
      var id := st.tasks[task].job;
      var j := st.jobs[id];
      SetStatus(st, id, EndStatus(o)).(
        tasks := st.tasks - {task},
        timers := if SchedulesRetry(j, o, lim) then st.timers + multiset{(j.path, j.series)} else st.timers)
    case Abort(task, marked) =>
      var w := st.tasks[task];
      (if marked then SetStatus(st, w.job, Failed) else st).(
        tasks := st.tasks - {task},
        held := if w.Inside? then st.held - {w.lock} else st.held)
    case EditAcquire(task, key) =>
      var (locked, l) := LockFor(st, key);
      locked.(held := st.held[l := task], tasks := st.tasks[task := BibleEdit(key, l)])
    case EditRelease(task) =>
      st.(held := st.held - {st.tasks[task].lock}, tasks := st.tasks - {task})
    case LedgerWrite(path, series, inProgress) =>
      st.(ledger := if inProgress then st.ledger[path := series] else st.ledger - {path})
    case Crash => LoseMemory(st)
    case Restart(rows) => Arm2(Arm1(LoseMemory(st)), rows)
    case RestartInterrupted(rows) => LoseMemory(Arm2(Arm1(LoseMemory(st)), rows))
  }
}
