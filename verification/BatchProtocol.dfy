/**
 The batch service as interleaved atomic steps: the lock holder inside start, the single
 worker thread, shutdown, other writers of the inventory, and reopenings of the store.
 Every store transaction and every block under the service lock is one step.
 */
module BatchProtocol {
  import opened Wrappers
  import opened JobTable
  import opened Management

  /** Where the caller that holds the service lock is inside start. */
  datatype Starter =
    | LockFree
    | Checking(ids: seq<ConnectionId>, checked: nat)
    | Submitting(created: JobId)
    | Unscheduling(created: JobId)

  /** Where the executor's only thread is inside _run. */
  datatype Worker =
    | Resting
    | Starting(job: JobId)
    | Loading(job: JobId)
    | Looping(job: JobId, items: seq<SnapshotItem>, next: nat)
    | Testing(job: JobId, items: seq<SnapshotItem>, next: nat)
    | Recording(job: JobId, items: seq<SnapshotItem>, next: nat, result: Submission)
    | Finishing(job: JobId)
    | Failing(job: JobId, cause: Cause)

  /**
   What has gone wrong so far; no step reads it. lost holds the jobs that were still active when the write of
   their failure was refused, until a reopening fails them.
   */
  datatype History = History(faulted: bool, lost: set<JobId>, reopened: bool, unsubmitted: bool, lateSubmit: bool)

  datatype Inventory = Inventory(connections: Connections, fakeEnabled: bool)

  /** The service's two flags (set together under its lock) and how far shutdown has got. */
  datatype Control = Control(closed: bool, stop: bool, executorShut: bool, returned: bool)

  datatype State = State(jobs: Jobs, inventory: Inventory, starter: Starter, worker: Worker, queue: seq<JobId>,
                         future: Option<JobId>, control: Control, history: History)

  const NO_HISTORY := History(false, {}, false, false, false)
  const OPEN := Control(false, false, false, false)

  function Initial(connections: Connections, fakeEnabled: bool): State {
    State(map[], Inventory(connections, fakeEnabled), LockFree, Resting, [], None, OPEN, NO_HISTORY)
  }

  datatype Step =
    | Enter(ids: seq<ConnectionId>)
    | Check(storage: bool)
    | Create(newId: JobId, storage: bool)
    | Submit(accepted: bool)
    | Unschedule(storage: bool)
    | Work(storage: bool, reply: TesterReply, elapsed: Elapsed)
    | FlagShutdown
    | ShutExecutor
    | ReturnShutdown
    | EditConnections(connections: Connections)
    | ReopenStore
    | Crash

  predicate OnJob(worker: Worker, id: JobId) {
    !worker.Resting? && worker.job == id
  }

  /** future.done(): the job submitted last is neither queued nor being run. */
  predicate FutureDone(s: State) {
    s.future.None? || (s.future.value !in s.queue && !OnJob(s.worker, s.future.value))
  }

  /** _fail: the failure is written if the store allows it, and otherwise only logged. */
  function WithFailure(jobs: Jobs, id: JobId, cause: Cause, storage: bool): (after: Jobs)
    ensures after.Keys == jobs.Keys
  {
    if !storage then jobs
    else match WithStatus(jobs, id, Failed, Some(cause))
      case Success(next) => next
      case Failure(_) => jobs
  }

  /** What a refused failure write leaves behind. */
  function AfterFailing(s: State, id: JobId, storage: bool): History {
    if storage then s.history
    else s.history.(faulted := true, lost := s.history.lost + if id in s.jobs && Active(s.jobs[id].status) then {id} else {})
  }

  function StartStep(s: State, step: Step): State
    requires step.Enter? || step.Check? || step.Create? || step.Submit? || step.Unschedule?
  {
    match step
    case Enter(ids) =>
      if ids == [] || |ids| > 1000 || !Distinct(ids) || !s.starter.LockFree? || s.control.closed || !FutureDone(s) then s
      else s.(starter := Checking(ids, 0))
    case Check(storage) =>
      if !s.starter.Checking? || s.starter.checked >= |s.starter.ids| then s
      else
        var id := s.starter.ids[s.starter.checked];
        if storage && id in s.inventory.connections && ProviderAllows(s.inventory.fakeEnabled, s.inventory.connections[id].clientType)
        then s.(starter := s.starter.(checked := s.starter.checked + 1))
        else s.(starter := LockFree)
    case Create(newId, storage) =>
      if !s.starter.Checking? || s.starter.checked < |s.starter.ids| then s
      else if !storage then s.(starter := LockFree)
      else
        (match Created(s.jobs, s.inventory.connections, s.starter.ids, newId)
         case Success(next) => s.(jobs := next, starter := Submitting(newId))
         case Failure(_) => s.(starter := LockFree))
    case Submit(accepted) =>
      if !s.starter.Submitting? then s
      else
        var id := s.starter.created;
        if s.control.executorShut then s.(starter := Unscheduling(id), history := s.history.(lateSubmit := true))
        else if !accepted then s.(starter := Unscheduling(id), history := s.history.(unsubmitted := true))
        else s.(starter := LockFree, queue := s.queue + [id], future := Some(id))
    case Unschedule(storage) =>
      if !s.starter.Unscheduling? then s
      else s.(jobs := WithFailure(s.jobs, s.starter.created, NotScheduled, storage), starter := LockFree,
              history := AfterFailing(s, s.starter.created, storage))
  }

  function WorkStep(s: State, storage: bool, reply: TesterReply, elapsed: Elapsed): State {
    match s.worker
    case Resting =>
      if s.queue == [] then s else s.(worker := Starting(s.queue[0]), queue := s.queue[1..])
    case Starting(job) =>
      if !storage then s.(worker := Failing(job, ProcessingFailure), history := s.history.(faulted := true))
      else
        (match WithStatus(s.jobs, job, Running, None)
         case Success(next) => s.(jobs := next, worker := Loading(job))
         case Failure(_) => s.(worker := Failing(job, ProcessingFailure)))
    case Loading(job) =>
      if !storage then s.(worker := Failing(job, ProcessingFailure), history := s.history.(faulted := true))
      else if job !in s.jobs then s.(worker := Failing(job, ProcessingFailure))
      else s.(worker := Looping(job, s.jobs[job].snapshot, 0))
    case Looping(job, items, next) =>
      if next >= |items| then s.(worker := Finishing(job))
      else if s.control.stop then s.(worker := Failing(job, ApplicationShutdown))
      else s.(worker := Testing(job, items, next))
    case Testing(job, items, next) =>
      if next < |items| && ProviderAllows(s.inventory.fakeEnabled, items[next].profile.clientType)
      then s.(worker := Recording(job, items, next, TestItem(items[next], reply, elapsed)))
      else s.(worker := Failing(job, ProcessingFailure))
    case Recording(job, items, next, result) =>
      if !storage then s.(worker := Failing(job, ProcessingFailure), history := s.history.(faulted := true))
      else
        (match WithResult(s.jobs, job, result)
         case Success(after) => s.(jobs := after, worker := Looping(job, items, next + 1))
         case Failure(_) => s.(worker := Failing(job, ProcessingFailure)))
    case Finishing(job) =>
      if !storage then s.(worker := Failing(job, ProcessingFailure), history := s.history.(faulted := true))
      else
        (match WithStatus(s.jobs, job, Status.Completed, None)
         case Success(next) => s.(jobs := next, worker := Resting)
         case Failure(_) => s.(worker := Failing(job, ProcessingFailure)))
    case Failing(job, cause) =>
      s.(jobs := WithFailure(s.jobs, job, cause, storage), worker := Resting,
         history := AfterFailing(s, job, storage))
  }

  /** One atomic step; a step that is not enabled leaves the state alone. */
  function Next(s: State, step: Step): State {
    match step
    case Work(storage, reply, elapsed) => WorkStep(s, storage, reply, elapsed)
    case FlagShutdown => if s.starter.LockFree? then s.(control := s.control.(closed := true, stop := true)) else s
    case ShutExecutor => if s.control.closed then s.(control := s.control.(executorShut := true)) else s
    case ReturnShutdown =>
      if s.control.executorShut && s.worker.Resting? && s.queue == [] then s.(control := s.control.(returned := true)) else s
    case EditConnections(connections) => s.(inventory := s.inventory.(connections := connections))
    case ReopenStore => s.(jobs := Reopened(s.jobs), history := s.history.(reopened := true, lost := {}))
    case Crash =>
      State(Reopened(s.jobs), s.inventory, LockFree, Resting, [], None, OPEN, s.history.(reopened := true, lost := {}))
    case _ => StartStep(s, step)
  }

  function Run(s: State, steps: seq<Step>): State
    decreases |steps|
  {
    if steps == [] then s else Run(Next(s, steps[0]), steps[1..])
  }

  // ---------------------------------------------------------------------------
  // The invariant.

  /** Some thread is still responsible for this job. */
  ghost predicate Owned(s: State, id: JobId) {
    || (s.starter.Submitting? && s.starter.created == id)
    || (s.starter.Unscheduling? && s.starter.created == id)
    || id in s.queue
    || OnJob(s.worker, id)
  }

  ghost predicate InOrder(row: JobRow) {
    && |row.results| <= |row.snapshot|
    && ResultIds(row.results) == SnapshotIds(row.snapshot)[..|row.results|]
  }

  ghost predicate RowOk(row: JobRow) {
    && InOrder(row)
    && (row.error == Some(ApplicationShutdown) ==> row.status.Failed? && |row.results| < row.total)
  }

  /** A job no worker has started: no results, and only a reopening can have failed it. */
  ghost predicate Untouched(jobs: Jobs, id: JobId) {
    id in jobs && jobs[id].results == [] && (jobs[id].status.Queued? || jobs[id].status.Failed?)
  }

  ghost predicate Underway(jobs: Jobs, id: JobId, recorded: nat) {
    id in jobs && |jobs[id].results| == recorded && (jobs[id].status.Running? || jobs[id].status.Failed?)
  }

  ghost predicate WorkerOk(jobs: Jobs, worker: Worker) {
    match worker
    case Resting => true
    case Starting(job) => Untouched(jobs, job)
    case Loading(job) => Underway(jobs, job, 0)
    case Looping(job, items, next) =>
      Underway(jobs, job, next) && items == jobs[job].snapshot && next <= |items|
    case Testing(job, items, next) =>
      Underway(jobs, job, next) && items == jobs[job].snapshot && next < |items|
    case Recording(job, items, next, result) =>
      && Underway(jobs, job, next) && items == jobs[job].snapshot && next < |items|
      && (exists reply, elapsed :: result == TestItem(items[next], reply, elapsed))
    case Finishing(job) => job in jobs && Underway(jobs, job, |jobs[job].snapshot|)
    case Failing(job, cause) =>
      && job in jobs && !jobs[job].status.Completed?
      && (cause == ApplicationShutdown ==> |jobs[job].results| < jobs[job].total)
  }

  /** Who may be where: the lock holder, the queue and the worker never overlap. */
  ghost predicate ControlOk(s: State) {
    && (!s.starter.LockFree? ==> s.queue == [] && s.worker.Resting? && !s.control.closed)
    && |s.queue| <= 1
    && (s.queue != [] ==> s.worker.Resting? && s.future == Some(s.queue[0]) && Untouched(s.jobs, s.queue[0]))
    && (!s.worker.Resting? ==> s.future == Some(s.worker.job))
    && (s.starter.Submitting? ==> Untouched(s.jobs, s.starter.created))
    && (s.starter.Unscheduling? ==> Untouched(s.jobs, s.starter.created))
    && s.control.closed == s.control.stop
    && (s.control.executorShut ==> s.control.closed)
    && (s.control.returned ==> s.control.executorShut && s.worker.Resting? && s.queue == [])
    && !s.history.lateSubmit
    && (s.history.lost != {} ==> s.history.faulted)
  }

  ghost predicate TableOk(jobs: Jobs) {
    Sound(jobs) && forall id | id in jobs :: RowOk(jobs[id])
  }

  /** An active job has an owner or its failure was lost, never both; a lost job stays active. */
  ghost predicate NoOrphans(s: State) {
    && (forall id | id in s.jobs && Active(s.jobs[id].status) :: Owned(s, id) || id in s.history.lost)
    && (forall id | id in s.history.lost :: id in s.jobs && Active(s.jobs[id].status) && !Owned(s, id))
  }

  ghost predicate Inv(s: State) {
    TableOk(s.jobs) && ControlOk(s) && WorkerOk(s.jobs, s.worker) && NoOrphans(s)
  }

  // ---------------------------------------------------------------------------
  // Every step keeps the invariant.

  /** Only one row differs between two tables. */
  ghost predicate OnlyRow(before: Jobs, after: Jobs, id: JobId) {
    && id in before && after.Keys == before.Keys
    && (forall j | j in after && j != id :: after[j] == before[j])
    && RowEvolves(before[id], after[id])
  }

  lemma FailureKeeps(jobs: Jobs, id: JobId, cause: Cause, storage: bool)
    requires TableOk(jobs)
    requires id in jobs && !jobs[id].status.Completed?
    requires cause == ApplicationShutdown ==> |jobs[id].results| < jobs[id].total
    ensures var after := WithFailure(jobs, id, cause, storage);
            && TableOk(after) && Evolves(jobs, after) && OnlyRow(jobs, after, id)
            && (storage ==> after[id].status.Failed?)
            && (!storage ==> after == jobs)
  {
    WithStatusSound(jobs, id, Failed, Some(cause));
    assert RowSound(jobs[id]) && RowOk(jobs[id]);
  }

  lemma StatusKeeps(jobs: Jobs, id: JobId, status: Status)
    requires TableOk(jobs)
    requires id in jobs
    ensures var r := WithStatus(jobs, id, status, None);
            && r.Success? == (MayBecome(jobs[id].status, status)
                              && (status.Completed? ==> |jobs[id].results| == |jobs[id].snapshot|))
            && (r.Success? ==> TableOk(r.value) && Evolves(jobs, r.value) && OnlyRow(jobs, r.value, id)
                               && r.value[id].status == status && r.value[id].results == jobs[id].results)
  {
    WithStatusSound(jobs, id, status, None);
    assert RowSound(jobs[id]) && RowOk(jobs[id]);
  }

  lemma RecordingKeeps(jobs: Jobs, job: JobId, reply: TesterReply, elapsed: Elapsed)
    requires TableOk(jobs)
    requires job in jobs && |jobs[job].results| < |jobs[job].snapshot|
    ensures var row := jobs[job];
            var r := WithResult(jobs, job, TestItem(row.snapshot[|row.results|], reply, elapsed));
            && r.Success? == Active(row.status)
            && (r.Success? ==>
                  && TableOk(r.value) && Evolves(jobs, r.value) && OnlyRow(jobs, r.value, job)
                  && |r.value[job].results| == |row.results| + 1
                  && r.value[job].status == row.status)
  {
    hide TestItem;
    var row := jobs[job];
    assert RowSound(row) && RowOk(row);
    if Active(row.status) {
      TestItemIsRecorded(row, reply, elapsed);
      WithResultSound(jobs, job, TestItem(row.snapshot[|row.results|], reply, elapsed));
    }
  }

  lemma CreateKeeps(s: State, newId: JobId)
    requires Inv(s) && s.starter.Checking?
    ensures var r := Created(s.jobs, s.inventory.connections, s.starter.ids, newId);
            r.Success? ==> newId !in s.jobs && r.value.Keys == s.jobs.Keys + {newId}
                           && TableOk(r.value) && Evolves(s.jobs, r.value) && Untouched(r.value, newId)
                           && r.value[newId].status.Queued?
                           && forall j | j in s.jobs :: r.value[j] == s.jobs[j]
  {
    CreatedSound(s.jobs, s.inventory.connections, s.starter.ids, newId);
  }

  lemma StartStepKeepsInv(s: State, step: Step)
    requires step.Enter? || step.Check? || step.Create? || step.Submit? || step.Unschedule?
    requires Inv(s)
    ensures Inv(StartStep(s, step)) && Evolves(s.jobs, StartStep(s, step).jobs)
  {
    hide Inv, StartStep, Evolves;
    match step
    case Enter(ids) => EnterKeepsInv(s, step);
    case Check(storage) => EnterKeepsInv(s, step);
    case Create(newId, storage) => CreateStepKeepsInv(s, newId, storage);
    case Submit(accepted) => SubmitKeepsInv(s, accepted);
    case Unschedule(storage) => UnscheduleKeepsInv(s, storage);
  }

  lemma EnterKeepsInv(s: State, step: Step)
    requires (step.Enter? || step.Check?) && Inv(s)
    ensures Inv(StartStep(s, step)) && Evolves(s.jobs, StartStep(s, step).jobs)
  {
    hide TableOk, WorkerOk, ProviderAllows, Distinct;
  }

  lemma CreateStepKeepsInv(s: State, newId: JobId, storage: bool)
    requires Inv(s)
    ensures var t := StartStep(s, Create(newId, storage)); Inv(t) && Evolves(s.jobs, t.jobs)
  {
    hide TableOk;
    if s.starter.Checking? && s.starter.checked >= |s.starter.ids| && storage {
      CreateKeeps(s, newId);
    }
    hide Created;
  }

  lemma SubmitKeepsInv(s: State, accepted: bool)
    requires Inv(s)
    ensures var t := StartStep(s, Submit(accepted)); Inv(t) && Evolves(s.jobs, t.jobs)
  {
    hide TableOk;
  }

  lemma UnscheduleKeepsInv(s: State, storage: bool)
    requires Inv(s)
    ensures var t := StartStep(s, Unschedule(storage)); Inv(t) && Evolves(s.jobs, t.jobs)
  {
    hide TableOk;
    if s.starter.Unscheduling? {
      FailureKeeps(s.jobs, s.starter.created, NotScheduled, storage);
    }
  }

  lemma TakeKeepsInv(s: State, storage: bool, reply: TesterReply, elapsed: Elapsed)
    requires Inv(s) && s.worker.Resting?
    ensures var t := WorkStep(s, storage, reply, elapsed); Inv(t) && Evolves(s.jobs, t.jobs)
  {
    hide TableOk;
  }

  lemma StartingKeepsInv(s: State, storage: bool, reply: TesterReply, elapsed: Elapsed)
    requires Inv(s) && s.worker.Starting?
    ensures var t := WorkStep(s, storage, reply, elapsed); Inv(t) && Evolves(s.jobs, t.jobs)
  {
    hide TableOk, WithStatus;
    StatusKeeps(s.jobs, s.worker.job, Running);
  }

  lemma LoadingKeepsInv(s: State, storage: bool, reply: TesterReply, elapsed: Elapsed)
    requires Inv(s) && s.worker.Loading?
    ensures var t := WorkStep(s, storage, reply, elapsed); Inv(t) && Evolves(s.jobs, t.jobs)
  {
    hide TableOk;
  }

  lemma LoopingKeepsInv(s: State, storage: bool, reply: TesterReply, elapsed: Elapsed)
    requires Inv(s) && s.worker.Looping?
    ensures var t := WorkStep(s, storage, reply, elapsed); Inv(t) && Evolves(s.jobs, t.jobs)
  {
    assert RowSound(s.jobs[s.worker.job]);
    hide TableOk;
  }

  lemma TestingKeepsInv(s: State, storage: bool, reply: TesterReply, elapsed: Elapsed)
    requires Inv(s) && s.worker.Testing?
    ensures var t := WorkStep(s, storage, reply, elapsed); Inv(t) && Evolves(s.jobs, t.jobs)
  {
    hide TableOk;
  }

  lemma RecordingKeepsInv(s: State, storage: bool, reply: TesterReply, elapsed: Elapsed)
    requires Inv(s) && s.worker.Recording?
    ensures var t := WorkStep(s, storage, reply, elapsed); Inv(t) && Evolves(s.jobs, t.jobs)
  {
    hide TableOk, WithResult, TestItem;
    var given, spent :| s.worker.result == TestItem(s.worker.items[s.worker.next], given, spent);
    RecordingKeeps(s.jobs, s.worker.job, given, spent);
  }

  lemma FinishingKeepsInv(s: State, storage: bool, reply: TesterReply, elapsed: Elapsed)
    requires Inv(s) && s.worker.Finishing?
    ensures var t := WorkStep(s, storage, reply, elapsed); Inv(t) && Evolves(s.jobs, t.jobs)
  {
    hide TableOk, WithStatus;
    StatusKeeps(s.jobs, s.worker.job, Status.Completed);
  }

  lemma FailingKeepsInv(s: State, storage: bool, reply: TesterReply, elapsed: Elapsed)
    requires Inv(s) && s.worker.Failing?
    ensures var t := WorkStep(s, storage, reply, elapsed); Inv(t) && Evolves(s.jobs, t.jobs)
  {
    hide TableOk;
    FailureKeeps(s.jobs, s.worker.job, s.worker.cause, storage);
  }

  lemma WorkStepKeepsInv(s: State, storage: bool, reply: TesterReply, elapsed: Elapsed)
    requires Inv(s)
    ensures var t := WorkStep(s, storage, reply, elapsed); Inv(t) && Evolves(s.jobs, t.jobs)
  {
    hide *;
    match s.worker
    case Resting => TakeKeepsInv(s, storage, reply, elapsed);
    case Starting(_) => StartingKeepsInv(s, storage, reply, elapsed);
    case Recording(_, _, _, _) => RecordingKeepsInv(s, storage, reply, elapsed);
    case Finishing(_) => FinishingKeepsInv(s, storage, reply, elapsed);
    case Failing(_, _) => FailingKeepsInv(s, storage, reply, elapsed);
    case Loading(_) => LoadingKeepsInv(s, storage, reply, elapsed);
    case Looping(_, _, _) => LoopingKeepsInv(s, storage, reply, elapsed);
    case Testing(_, _, _) => TestingKeepsInv(s, storage, reply, elapsed);
  }

  lemma ReopenKeeps(jobs: Jobs)
    requires TableOk(jobs)
    ensures var after := Reopened(jobs);
            && TableOk(after) && Evolves(jobs, after) && after.Keys == jobs.Keys
            && (forall j | j in after :: !Active(after[j].status))
            && (forall j | j in after :: after[j].results == jobs[j].results && after[j].snapshot == jobs[j].snapshot
                                         && after[j].total == jobs[j].total
                                         && (after[j].status == jobs[j].status || after[j].status.Failed?))
  {
    ReopenedSound(jobs);
    forall j | j in Reopened(jobs) ensures RowOk(Reopened(jobs)[j]) && !Active(Reopened(jobs)[j].status) {
      assert RowSound(jobs[j]) && RowOk(jobs[j]);
    }
  }

  lemma ShutdownStepKeepsInv(s: State, step: Step)
    requires step.FlagShutdown? || step.ShutExecutor? || step.ReturnShutdown? || step.EditConnections?
    requires Inv(s)
    ensures Inv(Next(s, step)) && Next(s, step).jobs == s.jobs
  {
    hide TableOk;
  }

  lemma ReopenStepKeepsInv(s: State, step: Step)
    requires step.ReopenStore? || step.Crash?
    requires Inv(s)
    ensures Inv(Next(s, step)) && Evolves(s.jobs, Next(s, step).jobs)
  {
    hide TableOk, Reopened;
    ReopenKeeps(s.jobs);
  }

  lemma NextKeepsInv(s: State, step: Step)
    requires Inv(s)
    ensures Inv(Next(s, step)) && Evolves(s.jobs, Next(s, step).jobs)
  {
    hide Inv, WorkStep, StartStep;
    match step
    case Work(storage, reply, elapsed) => WorkStepKeepsInv(s, storage, reply, elapsed);
    case FlagShutdown => ShutdownStepKeepsInv(s, step);
    case ShutExecutor => ShutdownStepKeepsInv(s, step);
    case ReturnShutdown => ShutdownStepKeepsInv(s, step);
    case EditConnections(connections) => ShutdownStepKeepsInv(s, step);
    case ReopenStore => ReopenStepKeepsInv(s, step);
    case Crash => ReopenStepKeepsInv(s, step);
    case _ => StartStepKeepsInv(s, step);
  }

  lemma {:induction false} RunKeepsInv(s: State, steps: seq<Step>)
    requires Inv(s)
    ensures Inv(Run(s, steps)) && Evolves(s.jobs, Run(s, steps).jobs)
    decreases |steps|
  {
    hide Inv, Next;
    if steps != [] {
      var next := Next(s, steps[0]);
      NextKeepsInv(s, steps[0]);
      RunKeepsInv(next, steps[1..]);
      EvolvesTransitive(s.jobs, next.jobs, Run(next, steps[1..]).jobs);
    }
  }

  function Reached(connections: Connections, fakeEnabled: bool, steps: seq<Step>): State {
    Run(Initial(connections, fakeEnabled), steps)
  }
}
