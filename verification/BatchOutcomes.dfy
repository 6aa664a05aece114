/** How jobs end when nothing disturbs the service: testers cannot fail a job, a refused device ends it just before itself. */
module BatchOutcomes {
  import opened Wrappers
  import opened JobTable
  import opened Management
  import opened BatchProtocol
  import opened BatchProperties

  /** Network devices need no provider, simulated ones need theirs, and nothing else can be tested. */
  predicate Allowed(fake: bool, clientType: ClientType) {
    match clientType
    case Network => true
    case Fake => fake
    case Unknown => false
  }

  /** How many leading items the enabled providers can test; the next one, if any, is refused. */
  function Cutoff(fake: bool, items: seq<SnapshotItem>): (n: nat)
    ensures n <= |items|
    ensures forall k | 0 <= k < n :: Allowed(fake, items[k].profile.clientType)
    ensures n < |items| ==> !Allowed(fake, items[n].profile.clientType)
  {
    if items == [] || !ProviderAllows(fake, items[0].profile.clientType) then 0 else 1 + Cutoff(fake, items[1..])
  }

  /** A step without storage faults, scheduling faults, shutdown or reopening; testers and editors may do anything. */
  predicate Quiet(step: Step) {
    match step
    case Submit(accepted) => accepted
    case Work(storage, _, _) => storage
    case FlagShutdown => false
    case ReopenStore => false
    case Crash => false
    case _ => true
  }

  // ---------------------------------------------------------------------------
  // What quiet steps keep.

  /** Results stop before the first refused item; a job completes without one and fails at it. */
  ghost predicate RowSettles(fake: bool, row: JobRow) {
    var n := Cutoff(fake, row.snapshot);
    && |row.results| <= n
    && (row.status.Completed? ==> n == |row.snapshot|)
    && (row.status.Failed? ==> |row.results| == n < |row.snapshot|)
  }

  ghost predicate WorkerSettles(fake: bool, jobs: Jobs, worker: Worker) {
    !worker.Resting? ==>
      && worker.job in jobs && Active(jobs[worker.job].status)
      && var n := Cutoff(fake, jobs[worker.job].snapshot);
         match worker
         case Recording(_, _, next, _) => next < n
         case Finishing(_) => n == |jobs[worker.job].snapshot|
         case Failing(job, _) => |jobs[job].results| == n < |jobs[job].snapshot|
         case _ => true
  }

  predicate Undisturbed(s: State) {
    && !s.history.faulted && !s.history.reopened && !s.history.unsubmitted && !s.control.stop && !s.control.closed
    && !s.starter.Unscheduling?
  }

  ghost predicate AllSettle(fake: bool, jobs: Jobs) {
    forall id | id in jobs :: RowSettles(fake, jobs[id])
  }

  predicate Waiting(jobs: Jobs, id: JobId) {
    id in jobs && Active(jobs[id].status)
  }

  ghost predicate Steady(s: State) {
    && Undisturbed(s)
    && AllSettle(s.inventory.fakeEnabled, s.jobs) && WorkerSettles(s.inventory.fakeEnabled, s.jobs, s.worker)
    && (s.queue != [] ==> Waiting(s.jobs, s.queue[0]))
    && (s.starter.Submitting? ==> Waiting(s.jobs, s.starter.created))
  }

  lemma OneRowSettles(fake: bool, before: Jobs, after: Jobs, id: JobId)
    requires AllSettle(fake, before) && OnlyRow(before, after, id) && RowSettles(fake, after[id])
    ensures AllSettle(fake, after)
  {
    hide RowSettles, RowEvolves;
  }

  lemma StartingSettles(s: State, storage: bool, reply: TesterReply, elapsed: Elapsed)
    requires Inv(s) && Steady(s) && storage && s.worker.Starting?
    ensures Steady(WorkStep(s, storage, reply, elapsed))
  {
    hide TableOk, NoOrphans, WithStatus, AllSettle;
    var job := s.worker.job;
    StatusKeeps(s.jobs, job, Running);
    var t := WorkStep(s, storage, reply, elapsed);
    SettledRow(s, job);
    OneRowSettles(s.inventory.fakeEnabled, s.jobs, t.jobs, job);
  }

  lemma SettledRow(s: State, id: JobId)
    requires Steady(s) && id in s.jobs
    ensures RowSettles(s.inventory.fakeEnabled, s.jobs[id])
  {
    hide RowSettles;
  }

  lemma ReadingSettles(s: State, storage: bool, reply: TesterReply, elapsed: Elapsed)
    requires Inv(s) && Steady(s) && storage && (s.worker.Resting? || s.worker.Loading? || s.worker.Looping? || s.worker.Testing?)
    ensures Steady(WorkStep(s, storage, reply, elapsed))
  {
    hide TableOk, NoOrphans, AllSettle, TestItem;
    if !s.worker.Resting? {
      SettledRow(s, s.worker.job);
    }
  }

  lemma RecordingSettles(s: State, storage: bool, reply: TesterReply, elapsed: Elapsed)
    requires Inv(s) && Steady(s) && storage && s.worker.Recording?
    ensures Steady(WorkStep(s, storage, reply, elapsed))
  {
    hide TableOk, NoOrphans, WithResult, AllSettle, TestItem;
    var job := s.worker.job;
    var given, spent :| s.worker.result == TestItem(s.worker.items[s.worker.next], given, spent);
    RecordingKeeps(s.jobs, job, given, spent);
    var t := WorkStep(s, storage, reply, elapsed);
    SettledRow(s, job);
    OneRowSettles(s.inventory.fakeEnabled, s.jobs, t.jobs, job);
  }

  lemma FinishingSettles(s: State, storage: bool, reply: TesterReply, elapsed: Elapsed)
    requires Inv(s) && Steady(s) && storage && s.worker.Finishing?
    ensures Steady(WorkStep(s, storage, reply, elapsed))
  {
    hide TableOk, NoOrphans, WithStatus, AllSettle;
    var job := s.worker.job;
    StatusKeeps(s.jobs, job, Status.Completed);
    var t := WorkStep(s, storage, reply, elapsed);
    SettledRow(s, job);
    OneRowSettles(s.inventory.fakeEnabled, s.jobs, t.jobs, job);
  }

  lemma FailingSettles(s: State, storage: bool, reply: TesterReply, elapsed: Elapsed)
    requires Inv(s) && Steady(s) && storage && s.worker.Failing?
    ensures Steady(WorkStep(s, storage, reply, elapsed))
  {
    hide TableOk, NoOrphans, WithFailure, AllSettle;
    var job := s.worker.job;
    FailureKeeps(s.jobs, job, s.worker.cause, storage);
    FailureResults(s.jobs, job, s.worker.cause);
    var t := WorkStep(s, storage, reply, elapsed);
    SettledRow(s, job);
    OneRowSettles(s.inventory.fakeEnabled, s.jobs, t.jobs, job);
  }

  lemma FailureResults(jobs: Jobs, id: JobId, cause: Cause)
    requires id in jobs
    ensures WithFailure(jobs, id, cause, true)[id].results == jobs[id].results
    ensures WithFailure(jobs, id, cause, true)[id].snapshot == jobs[id].snapshot
  {
  }

  lemma WorkSettles(s: State, storage: bool, reply: TesterReply, elapsed: Elapsed)
    requires Inv(s) && Steady(s) && storage
    ensures Steady(WorkStep(s, storage, reply, elapsed))
  {
    hide *;
    match s.worker
    case Starting(_) => StartingSettles(s, storage, reply, elapsed);
    case Recording(_, _, _, _) => RecordingSettles(s, storage, reply, elapsed);
    case Finishing(_) => FinishingSettles(s, storage, reply, elapsed);
    case Failing(_, _) => FailingSettles(s, storage, reply, elapsed);
    case Resting => ReadingSettles(s, storage, reply, elapsed);
    case Loading(_) => ReadingSettles(s, storage, reply, elapsed);
    case Looping(_, _, _) => ReadingSettles(s, storage, reply, elapsed);
    case Testing(_, _, _) => ReadingSettles(s, storage, reply, elapsed);
  }

  lemma CreateSettles(s: State, newId: JobId, storage: bool)
    requires Inv(s) && Steady(s)
    ensures Steady(StartStep(s, Create(newId, storage)))
  {
    hide TableOk, NoOrphans, WorkerOk, RowSettles, Untouched;
    if s.starter.Checking? && s.starter.checked >= |s.starter.ids| && storage {
      CreateKeeps(s, newId);
      var r := Created(s.jobs, s.inventory.connections, s.starter.ids, newId);
      if r.Success? {
        NewRowSettles(s.inventory.fakeEnabled, r.value, newId);
      }
    }
    hide Created;
  }

  lemma NewRowSettles(fake: bool, jobs: Jobs, id: JobId)
    requires Untouched(jobs, id) && jobs[id].status.Queued?
    ensures RowSettles(fake, jobs[id])
  {
  }

  lemma QuietStep(s: State, step: Step)
    requires Inv(s) && Steady(s) && Quiet(step)
    ensures Steady(Next(s, step)) && Next(s, step).inventory.fakeEnabled == s.inventory.fakeEnabled
  {
    ProviderStays(s, step);
    hide Inv, Steady, WorkStep, StartStep;
    match step
    case Work(storage, reply, elapsed) => WorkSettles(s, storage, reply, elapsed);
    case Create(newId, storage) => CreateSettles(s, newId, storage);
    case _ => OtherSettles(s, step);
  }

  lemma ProviderStays(s: State, step: Step)
    ensures Next(s, step).inventory.fakeEnabled == s.inventory.fakeEnabled
  {
    if step.Work? {
      WorkKeepsFlags(s, step);
    }
    hide WorkStep, WithFailure, Created, ProviderAllows;
  }

  lemma OtherSettles(s: State, step: Step)
    requires Inv(s) && Steady(s) && Quiet(step) && !step.Work? && !step.Create?
    ensures Steady(Next(s, step))
  {
    hide TableOk, NoOrphans, WorkerOk, AllSettle, WorkerSettles, ProviderAllows, Waiting, Untouched;
  }

  lemma {:induction false} QuietRun(s: State, steps: seq<Step>)
    requires Inv(s) && Steady(s) && forall k | 0 <= k < |steps| :: Quiet(steps[k])
    ensures Inv(Run(s, steps)) && Steady(Run(s, steps))
    ensures Run(s, steps).inventory.fakeEnabled == s.inventory.fakeEnabled
    decreases |steps|
  {
    hide Inv, Next, Steady, Quiet;
    if steps != [] {
      NextKeepsInv(s, steps[0]);
      QuietStep(s, steps[0]);
      QuietRun(Next(s, steps[0]), steps[1..]);
    }
  }

  lemma InitialSteady(connections: Connections, fake: bool)
    ensures Inv(Initial(connections, fake)) && Steady(Initial(connections, fake))
  {
  }

  // ---------------------------------------------------------------------------
  // How jobs end.

  /** Completed with every device tested if all of them can be, and failed just before the first that cannot otherwise. */
  ghost predicate Ended(fake: bool, row: JobRow) {
    var n := Cutoff(fake, row.snapshot);
    && ResultIds(row.results) == SnapshotIds(row.snapshot)[..n]
    && (row.status.Completed? <==> n == |row.snapshot|) && (row.status.Failed? <==> n < |row.snapshot|)
  }

  lemma TerminalEnded(s: State, id: JobId)
    requires Inv(s) && Steady(s) && id in s.jobs && !Active(s.jobs[id].status)
    ensures Ended(s.inventory.fakeEnabled, s.jobs[id])
  {
    SettledRow(s, id);
    assert RowSound(s.jobs[id]) && RowOk(s.jobs[id]);
  }

  lemma IdleMeansTerminal(s: State)
    requires Inv(s) && Steady(s) && s.starter.LockFree? && Remaining(s) == 0
    ensures forall id | id in s.jobs :: !Active(s.jobs[id].status)
  {
    RemainingZero(s);
    forall id | id in s.jobs ensures !Active(s.jobs[id].status) {
      assert !Owned(s, id);
    }
  }

  /**
   Whatever testers return or raise, whichever providers are enabled and however the inventory is edited: every
   terminal job has ended exactly as its snapshot decides, and a service at rest has terminal jobs only.
   */
  lemma JobsEndAsTheirSnapshotsSay(connections: Connections, fake: bool, steps: seq<Step>)
    requires forall k | 0 <= k < |steps| :: Quiet(steps[k])
    ensures var s := Reached(connections, fake, steps);
            && (forall id | id in s.jobs && !Active(s.jobs[id].status) :: Ended(fake, s.jobs[id]))
            && (s.starter.LockFree? && s.worker.Resting? && s.queue == [] ==> forall id | id in s.jobs :: Ended(fake, s.jobs[id]))
  {
    hide Inv, Steady, Quiet, Ended;
    InitialSteady(connections, fake);
    QuietRun(Initial(connections, fake), steps);
    var s := Reached(connections, fake, steps);
    forall id | id in s.jobs && !Active(s.jobs[id].status) ensures Ended(fake, s.jobs[id]) {
      TerminalEnded(s, id);
    }
    if s.starter.LockFree? && s.worker.Resting? && s.queue == [] {
      RemainingZero(s);
      IdleMeansTerminal(s);
    }
  }

  /** While the executor has work no caller gets past the check of the last future, so nothing adds to it. */
  lemma BusyAddsNoWork(s: State, step: Step)
    requires Inv(s) && s.starter.LockFree? && Remaining(s) > 0 && Quiet(step) && !step.Work?
    ensures Next(s, step).starter.LockFree? && Remaining(Next(s, step)) == Remaining(s)
  {
    hide TableOk, NoOrphans;
    RemainingZero(s);
    assert !FutureDone(s);
  }

  lemma {:induction false} QuietDrains(s: State, steps: seq<Step>)
    requires Inv(s) && Steady(s) && s.starter.LockFree?
    requires forall k | 0 <= k < |steps| :: Quiet(steps[k])
    requires WorkSteps(steps) >= Remaining(s)
    ensures forall id | id in s.jobs :: id in Run(s, steps).jobs && !Active(Run(s, steps).jobs[id].status)
    decreases |steps|
  {
    hide Inv, Steady, Quiet, Next, Remaining, WorkStep;
    RunKeepsInv(s, steps);
    if Remaining(s) == 0 {
      IdleMeansTerminal(s);
      forall id | id in s.jobs ensures id in Run(s, steps).jobs && !Active(Run(s, steps).jobs[id].status) {
        assert RowEvolves(s.jobs[id], Run(s, steps).jobs[id]);
      }
    } else {
      var step := steps[0];
      NextKeepsInv(s, step);
      QuietStep(s, step);
      if step.Work? {
        WorkMakesProgress(s, step.storage, step.reply, step.elapsed);
        WorkKeepsFlags(s, step);
        WorkIsStep(s, step);
      } else {
        BusyAddsNoWork(s, step);
      }
      QuietDrains(Next(s, step), steps[1..]);
      forall id | id in s.jobs ensures id in Next(s, step).jobs {
        assert RowEvolves(s.jobs[id], Next(s, step).jobs[id]);
      }
    }
  }

  lemma WorkIsStep(s: State, step: Step)
    requires step.Work?
    ensures Next(s, step) == WorkStep(s, step.storage, step.reply, step.elapsed)
  {
    hide WorkStep;
  }

  /**
   In every quiet interleaving each job that exists once the lock is free ends exactly as its snapshot decides, as soon
   as the worker has had the known number of steps.
   */
  lemma EveryJobEnds(connections: Connections, fake: bool, steps: seq<Step>, more: seq<Step>)
    requires forall k | 0 <= k < |steps| :: Quiet(steps[k])
    requires forall k | 0 <= k < |more| :: Quiet(more[k])
    requires Reached(connections, fake, steps).starter.LockFree?
    requires WorkSteps(more) >= Remaining(Reached(connections, fake, steps))
    ensures var before, after := Reached(connections, fake, steps).jobs, Reached(connections, fake, steps + more).jobs;
            forall id | id in before ::
              id in after && after[id].snapshot == before[id].snapshot && Ended(fake, after[id])
  {
    hide Inv, Steady, Quiet, Remaining, Ended, Run;
    InitialSteady(connections, fake);
    QuietRun(Initial(connections, fake), steps);
    var s := Reached(connections, fake, steps);
    RunAppend(Initial(connections, fake), steps, more);
    QuietDrains(s, more);
    QuietRun(s, more);
    TerminalJobsFreeze(connections, fake, steps, more);
    var t := Run(s, more);
    forall id | id in s.jobs ensures Ended(fake, t.jobs[id]) {
      TerminalEnded(t, id);
    }
  }

  // ---------------------------------------------------------------------------
  // Failure isolation: the needed provider is enabled throughout.

  /** Every connection can be tested with the providers there are; network devices need none. */
  predicate Testable(fake: bool, connections: Connections) {
    forall id | id in connections :: Allowed(fake, connections[id].clientType)
  }

  predicate Ordinary(step: Step, fake: bool) {
    Quiet(step) && (step.EditConnections? ==> Testable(fake, step.connections))
  }

  ghost predicate SnapshotsTestable(s: State) {
    && Testable(s.inventory.fakeEnabled, s.inventory.connections)
    && forall id | id in s.jobs :: Cutoff(s.inventory.fakeEnabled, s.jobs[id].snapshot) == |s.jobs[id].snapshot|
  }

  lemma OrdinaryStep(s: State, step: Step)
    requires Inv(s) && SnapshotsTestable(s) && Ordinary(step, s.inventory.fakeEnabled)
    ensures SnapshotsTestable(Next(s, step))
  {
    ProviderStays(s, step);
    NextKeepsInv(s, step);
    InventoryTestable(s, step);
    var t := Next(s, step);
    forall id | id in t.jobs ensures Cutoff(t.inventory.fakeEnabled, t.jobs[id].snapshot) == |t.jobs[id].snapshot| {
      if id in s.jobs {
        assert RowEvolves(s.jobs[id], t.jobs[id]);
      } else {
        NewSnapshot(s, step, id);
      }
    }
    hide Inv, Next, Quiet, Testable;
  }

  lemma InventoryTestable(s: State, step: Step)
    requires SnapshotsTestable(s) && Ordinary(step, s.inventory.fakeEnabled)
    ensures Testable(s.inventory.fakeEnabled, Next(s, step).inventory.connections)
  {
    if step.Work? {
      WorkKeepsFlags(s, step);
    }
    hide WorkStep, WithFailure, Created, ProviderAllows, Cutoff;
  }

  /** A new job appears in a creation only, with a snapshot of the inventory at that moment. */
  lemma NewSnapshot(s: State, step: Step, id: JobId)
    requires SnapshotsTestable(s) && id !in s.jobs && id in Next(s, step).jobs
    ensures Cutoff(s.inventory.fakeEnabled, Next(s, step).jobs[id].snapshot) == |Next(s, step).jobs[id].snapshot|
  {
    OnlyCreationAdds(s, step, id);
    var snapshot := Next(s, step).jobs[id].snapshot;
    forall k | 0 <= k < |snapshot| ensures ProviderAllows(s.inventory.fakeEnabled, snapshot[k].profile.clientType) {
    }
  }

  lemma OnlyCreationAdds(s: State, step: Step, id: JobId)
    requires id !in s.jobs && id in Next(s, step).jobs
    ensures s.starter.Checking? && AllKnown(s.inventory.connections, s.starter.ids)
    ensures Next(s, step).jobs[id].snapshot == SnapshotOf(s.inventory.connections, s.starter.ids)
  {
    if step.Work? {
      WorkKeepsFlags(s, step);
    }
    hide WorkStep, ProviderAllows;
  }

  lemma {:induction false} OrdinaryRun(s: State, steps: seq<Step>)
    requires Inv(s) && SnapshotsTestable(s)
    requires forall k | 0 <= k < |steps| :: Ordinary(steps[k], s.inventory.fakeEnabled)
    ensures SnapshotsTestable(Run(s, steps)) && Run(s, steps).inventory.fakeEnabled == s.inventory.fakeEnabled
    decreases |steps|
  {
    hide Inv, Next, SnapshotsTestable, Ordinary;
    if steps != [] {
      NextKeepsInv(s, steps[0]);
      ProviderStays(s, steps[0]);
      OrdinaryStep(s, steps[0]);
      OrdinaryRun(Next(s, steps[0]), steps[1..]);
    }
  }

  lemma OrdinaryReached(connections: Connections, fake: bool, steps: seq<Step>)
    requires Testable(fake, connections) && forall k | 0 <= k < |steps| :: Ordinary(steps[k], fake)
    ensures var jobs := Reached(connections, fake, steps).jobs;
            forall id | id in jobs :: Cutoff(fake, jobs[id].snapshot) == |jobs[id].snapshot|
  {
    InitialSteady(connections, fake);
    OrdinaryRun(Initial(connections, fake), steps);
    hide Run, Inv, Steady, Ordinary;
  }

  /**
   With the needed provider enabled throughout, no job fails whatever testers return or raise, and a service at rest
   has only completed jobs with a result for every device in order.
   */
  lemma FailureIsolation(connections: Connections, fake: bool, steps: seq<Step>)
    requires Testable(fake, connections) && forall k | 0 <= k < |steps| :: Ordinary(steps[k], fake)
    ensures var s := Reached(connections, fake, steps);
            && (forall id | id in s.jobs :: !s.jobs[id].status.Failed?)
            && (s.starter.LockFree? && s.worker.Resting? && s.queue == [] ==>
                  forall id | id in s.jobs :: s.jobs[id].status.Completed?
                                              && ResultIds(s.jobs[id].results) == SnapshotIds(s.jobs[id].snapshot))
  {
    OrdinaryReached(connections, fake, steps);
    JobsEndAsTheirSnapshotsSay(connections, fake, steps);
    hide Reached, Quiet, Testable;
  }

  /** Under the same conditions each job that exists once the lock is free is completed within the known number of steps. */
  lemma EveryJobEndsCompleted(connections: Connections, fake: bool, steps: seq<Step>, more: seq<Step>)
    requires Testable(fake, connections)
    requires forall k | 0 <= k < |steps| :: Ordinary(steps[k], fake)
    requires forall k | 0 <= k < |more| :: Ordinary(more[k], fake)
    requires Reached(connections, fake, steps).starter.LockFree?
    requires WorkSteps(more) >= Remaining(Reached(connections, fake, steps))
    ensures var before, after := Reached(connections, fake, steps).jobs, Reached(connections, fake, steps + more).jobs;
            forall id | id in before ::
              && id in after && after[id].status.Completed? && after[id].snapshot == before[id].snapshot
              && ResultIds(after[id].results) == SnapshotIds(before[id].snapshot)
  {
    OrdinaryReached(connections, fake, steps + more);
    EveryJobEnds(connections, fake, steps, more);
    hide Reached, Quiet, Testable, Remaining;
  }
}
