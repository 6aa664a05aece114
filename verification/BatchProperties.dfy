/** What the batch protocol promises over whole runs. */
module BatchProperties {
  import opened Wrappers
  import opened JobTable
  import opened Management
  import opened BatchProtocol

  lemma {:induction false} RunAppend(s: State, first: seq<Step>, second: seq<Step>)
    ensures Run(s, first + second) == Run(Run(s, first), second)
    decreases |first|
  {
    if first == [] {
      assert first + second == second;
    } else {
      assert (first + second)[1..] == first[1..] + second;
      RunAppend(Next(s, first[0]), first[1..], second);
    }
  }

  lemma ReachedInv(connections: Connections, fakeEnabled: bool, steps: seq<Step>)
    ensures Inv(Reached(connections, fakeEnabled, steps))
  {
    RunKeepsInv(Initial(connections, fakeEnabled), steps);
  }

  /** In every interleaving one job at most is active, and results follow the snapshot's order. */
  lemma OneActiveJobInOrder(connections: Connections, fakeEnabled: bool, steps: seq<Step>)
    ensures var jobs := Reached(connections, fakeEnabled, steps).jobs;
            && (forall i, j | i in jobs && j in jobs && Active(jobs[i].status) && Active(jobs[j].status) :: i == j)
            && (forall id | id in jobs ::
                  && ResultIds(jobs[id].results) <= SnapshotIds(jobs[id].snapshot)
                  && jobs[id].completed == |jobs[id].results| <= jobs[id].total == |jobs[id].snapshot|
                  && (jobs[id].status.Completed? ==> ResultIds(jobs[id].results) == SnapshotIds(jobs[id].snapshot)))
  {
    ReachedInv(connections, fakeEnabled, steps);
    var jobs := Reached(connections, fakeEnabled, steps).jobs;
    forall id | id in jobs
      ensures ResultIds(jobs[id].results) <= SnapshotIds(jobs[id].snapshot)
      ensures jobs[id].completed == |jobs[id].results| <= jobs[id].total == |jobs[id].snapshot|
      ensures jobs[id].status.Completed? ==> ResultIds(jobs[id].results) == SnapshotIds(jobs[id].snapshot)
    {
      assert RowSound(jobs[id]) && RowOk(jobs[id]);
    }
  }

  /** A job that is completed or failed keeps its status and its results whatever happens next. */
  lemma TerminalJobsFreeze(connections: Connections, fakeEnabled: bool, steps: seq<Step>, more: seq<Step>)
    ensures var before := Reached(connections, fakeEnabled, steps).jobs;
            var after := Reached(connections, fakeEnabled, steps + more).jobs;
            forall id | id in before ::
              && id in after && after[id].snapshot == before[id].snapshot
              && before[id].results <= after[id].results
              && (!Active(before[id].status) ==>
                    after[id].status == before[id].status && after[id].results == before[id].results)
  {
    var s := Reached(connections, fakeEnabled, steps);
    ReachedInv(connections, fakeEnabled, steps);
    RunAppend(Initial(connections, fakeEnabled), steps, more);
    RunKeepsInv(s, more);
    var before, after := s.jobs, Run(s, more).jobs;
    forall id | id in before ensures id in after && RowEvolves(before[id], after[id]) {
    }
  }

  /** What an export of a job shows; a job that has not finished is refused. */
  function Exported(jobs: Jobs, id: JobId): Result<(Status, int, int, seq<ResultRow>), StoreError> {
    if id !in jobs then Failure(NotFound)
    else if Active(jobs[id].status) then Failure(Conflict)
    else Success((jobs[id].status, jobs[id].total, jobs[id].completed, jobs[id].results))
  }

  lemma RowCounts(s: State, id: JobId)
    requires Inv(s) && id in s.jobs
    ensures s.jobs[id].status == Completed ==> s.jobs[id].completed == s.jobs[id].total
  {
    assert RowSound(s.jobs[id]);
  }

  /** Exactly an ended job can be exported, with counts that are true of it; every later export shows the same. */
  lemma ExportsAgree(connections: Connections, fakeEnabled: bool, steps: seq<Step>, more: seq<Step>, id: JobId)
    ensures var before := Reached(connections, fakeEnabled, steps).jobs;
            var after := Reached(connections, fakeEnabled, steps + more).jobs;
            && (Exported(before, id).Success? <==> id in before && (before[id].status == Completed || before[id].status == Failed))
            && (Exported(before, id).Success? ==>
                  var (status, total, completed, results) := Exported(before, id).value;
                  && Exported(after, id) == Exported(before, id)
                  && status == before[id].status && results == before[id].results
                  && completed == |results| <= total == |before[id].snapshot| && (status == Completed ==> completed == total))
  {
    var s := Reached(connections, fakeEnabled, steps);
    ReachedInv(connections, fakeEnabled, steps);
    RunKeepsInv(s, more);
    RunAppend(Initial(connections, fakeEnabled), steps, more);
    OneActiveJobInOrder(connections, fakeEnabled, steps);
    hide Run, Inv;
    if id in s.jobs {
      RowCounts(s, id);
      assert RowEvolves(s.jobs[id], Run(s, more).jobs[id]);
    }
  }

  /**
   When shutdown has returned, no job is active if and only if no failure was lost: the jobs still active are exactly
   the lost ones. Without storage faults there are none; submit never meets a shut-down executor; and a job failed by
   shutdown lacks results.
   */
  lemma ShutdownLeavesNothingActive(connections: Connections, fakeEnabled: bool, steps: seq<Step>)
    ensures var s := Reached(connections, fakeEnabled, steps);
            && !s.history.lateSubmit
            && (s.control.returned ==>
                  && (forall id :: id in s.jobs && Active(s.jobs[id].status) <==> id in s.history.lost)
                  && ((forall id | id in s.jobs :: !Active(s.jobs[id].status)) <==> s.history.lost == {}))
            && (!s.history.faulted ==> s.history.lost == {})
            && (forall id | id in s.jobs && !Active(s.jobs[id].status) ::
                  s.jobs[id].status.Failed? || (s.jobs[id].status.Completed? && |s.jobs[id].results| == s.jobs[id].total))
            && (forall id | id in s.jobs && s.jobs[id].error == Some(ApplicationShutdown) ::
                  s.jobs[id].status.Failed? && |s.jobs[id].results| < s.jobs[id].total)
  {
    ReachedInv(connections, fakeEnabled, steps);
    hide Reached;
    var s := Reached(connections, fakeEnabled, steps);
    forall id | id in s.jobs ensures RowSound(s.jobs[id]) && RowOk(s.jobs[id]) {
    }
    if s.control.returned {
      forall id ensures id in s.jobs && Active(s.jobs[id].status) <==> id in s.history.lost {
        assert !Owned(s, id);
      }
    }
  }

  /** While a failure is lost no job can be created, over every continuation without a reopening. */
  lemma LostBlocksCreation(s: State, steps: seq<Step>, connections: Connections, ids: seq<ConnectionId>, newId: JobId)
    requires Inv(s) && s.history.lost != {}
    requires forall k | 0 <= k < |steps| :: !steps[k].ReopenStore? && !steps[k].Crash?
    requires ids != [] && |ids| <= 1000 && Distinct(ids)
    ensures Created(Run(s, steps).jobs, connections, ids, newId) == Failure(Conflict)
  {
    LostStays(s, steps);
    RunKeepsInv(s, steps);
    var t := Run(s, steps);
    var id :| id in t.history.lost;
    assert RowSound(t.jobs[id]);
  }

  lemma {:induction false} LostStays(s: State, steps: seq<Step>)
    requires forall k | 0 <= k < |steps| :: !steps[k].ReopenStore? && !steps[k].Crash?
    ensures s.history.lost <= Run(s, steps).history.lost
    decreases |steps|
  {
    if steps != [] {
      LostGrows(s, steps[0]);
      LostStays(Next(s, steps[0]), steps[1..]);
      hide Next;
    }
  }

  lemma LostGrows(s: State, step: Step)
    requires !step.ReopenStore? && !step.Crash?
    ensures s.history.lost <= Next(s, step).history.lost
  {
    hide WithFailure, WithStatus, WithResult, TestItem, Created, ProviderAllows, WorkStep, StartStep;
    if step.Work? {
      LostGrowsAtWork(s, step.storage, step.reply, step.elapsed);
    } else {
      LostGrowsAtStart(s, step);
    }
  }

  lemma LostGrowsAtWork(s: State, storage: bool, reply: TesterReply, elapsed: Elapsed)
    ensures s.history.lost <= WorkStep(s, storage, reply, elapsed).history.lost
  {
    hide WithFailure, WithStatus, WithResult, TestItem, ProviderAllows;
  }

  lemma LostGrowsAtStart(s: State, step: Step)
    ensures step.Enter? || step.Check? || step.Create? || step.Submit? || step.Unschedule? ==>
              s.history.lost <= StartStep(s, step).history.lost
  {
    hide WithFailure, Created, ProviderAllows, FutureDone;
  }

  const START_STEPS := [Enter(["c"]), Check(true), Create("j", true), Submit(true), Work(true, Raised, 0.0)]
  const LOSING_STEPS := [Work(false, Raised, 0.0), Work(false, Raised, 0.0), FlagShutdown, ShutExecutor, ReturnShutdown]

  /** Device c has been submitted as job j and the worker has taken it. */
  function TakenUp(p: Profile): State {
    State(map["j" := NewRow([SnapshotItem("c", p)])], Inventory(map["c" := p], false), LockFree, Starting("j"), [], Some("j"),
          OPEN, NO_HISTORY)
  }

  lemma StartRun(p: Profile)
    requires p.clientType == Network
    ensures Reached(map["c" := p], false, START_STEPS) == TakenUp(p)
  {
    var connections := map["c" := p];
    var row := NewRow([SnapshotItem("c", p)]);
    var s0 := Initial(connections, false);
    var s1 := s0.(starter := Checking(["c"], 0));
    var s2 := s0.(starter := Checking(["c"], 1));
    var s3 := s0.(jobs := map["j" := row], starter := Submitting("j"));
    var s4 := s3.(starter := LockFree, queue := ["j"], future := Some("j"));
    SnapshotOfOne(connections, "c");
    assert Created(map[], connections, ["c"], "j") == Success(map["j" := row]);
    Steps5(s0, s1, s2, s3, s4, TakenUp(p), START_STEPS[0], START_STEPS[1], START_STEPS[2], START_STEPS[3], START_STEPS[4]);
  }

  lemma LosingRun(s: State)
    requires s.worker.Starting? && s.queue == [] && s.starter.LockFree? && s.control == OPEN && s.history == NO_HISTORY
    requires s.worker.job in s.jobs && Active(s.jobs[s.worker.job].status)
    ensures Run(s, LOSING_STEPS)
         == s.(worker := Resting, control := Control(true, true, true, true),
                history := NO_HISTORY.(faulted := true, lost := {s.worker.job}))
  {
    hide WithStatus, WithResult;
    var s1 := s.(worker := Failing(s.worker.job, ProcessingFailure), history := NO_HISTORY.(faulted := true));
    var s2 := s.(worker := Resting, history := NO_HISTORY.(faulted := true, lost := {s.worker.job}));
    var s3 := s2.(control := Control(true, true, false, false));
    var s4 := s2.(control := Control(true, true, true, false));
    var s5 := s2.(control := Control(true, true, true, true));
    Steps5(s, s1, s2, s3, s4, s5, LOSING_STEPS[0], LOSING_STEPS[1], LOSING_STEPS[2], LOSING_STEPS[3], LOSING_STEPS[4]);
  }

  /** A one-device run in which storage is down whenever the worker writes: the job is still active after shutdown. */
  lemma LostFailureStaysActive(p: Profile)
    requires p.clientType == Network
    ensures var s := Reached(map["c" := p], false, START_STEPS + LOSING_STEPS);
            s.control.returned && s.history.lost == {"j"} && "j" in s.jobs && Active(s.jobs["j"].status)
  {
    hide Run;
    StartRun(p);
    LosingRun(TakenUp(p));
    RunAppend(Initial(map["c" := p], false), START_STEPS, LOSING_STEPS);
  }

  lemma SnapshotOfOne(connections: Connections, id: ConnectionId)
    requires id in connections
    ensures AllKnown(connections, [id]) && SnapshotOf(connections, [id]) == [SnapshotItem(id, connections[id])]
  {
  }

  lemma Steps5(s0: State, s1: State, s2: State, s3: State, s4: State, s5: State, a: Step, b: Step, c: Step, d: Step, e: Step)
    requires Next(s0, a) == s1 && Next(s1, b) == s2 && Next(s2, c) == s3 && Next(s3, d) == s4 && Next(s4, e) == s5
    ensures Run(s0, [a, b, c, d, e]) == s5
  {
    hide Next;
    assert [a, b, c, d, e][1..] == [b, c, d, e] && [b, c, d, e][1..] == [c, d, e] && [c, d, e][1..] == [d, e] && [d, e][1..] == [e];
    assert Run(s5, []) == s5;
    assert [e][1..] == [];
    assert Run(s4, [e]) == s5;
    assert Run(s3, [d, e]) == s5;
    assert Run(s2, [c, d, e]) == s5;
    assert Run(s1, [b, c, d, e]) == s5;
  }

  // ---------------------------------------------------------------------------
  // Draining the executor.

  function WorkerWork(jobs: Jobs, worker: Worker): nat {
    match worker
    case Resting => 0
    case Starting(job) => 3 * Size(jobs, job) + 5
    case Loading(job) => 3 * Size(jobs, job) + 4
    case Looping(_, items, next) => 3 * Left(items, next) + 3
    case Testing(_, items, next) => 3 * Left(items, next) + 2
    case Recording(_, items, next, _) => 3 * Left(items, next) + 1
    case Finishing(_) => 2
    case Failing(_, _) => 1
  }

  function Size(jobs: Jobs, id: JobId): nat {
    if id in jobs then |jobs[id].snapshot| else 0
  }

  function Left(items: seq<SnapshotItem>, next: nat): nat {
    if next <= |items| then |items| - next else 0
  }

  /** How many steps the executor still needs. */
  function Remaining(s: State): nat {
    if s.queue != [] && s.worker.Resting? then 3 * Size(s.jobs, s.queue[0]) + 6 else WorkerWork(s.jobs, s.worker)
  }

  lemma WorkMakesProgress(s: State, storage: bool, reply: TesterReply, elapsed: Elapsed)
    requires Inv(s) && Remaining(s) > 0
    ensures Remaining(WorkStep(s, storage, reply, elapsed)) < Remaining(s)
  {
    hide TableOk, NoOrphans, WithResult, WithStatus, WithFailure, TestItem, ProviderAllows;
    if s.worker.Starting? {
      StatusKeeps(s.jobs, s.worker.job, Running);
    }
  }

  lemma RemainingZero(s: State)
    requires Inv(s)
    ensures Remaining(s) == 0 <==> s.worker.Resting? && s.queue == []
  {
  }

  /** Once the service is closed no other step gives the executor more to do. */
  lemma ClosedAddsNoWork(s: State, step: Step)
    requires Inv(s) && s.control.closed && !step.Work? && !step.Crash?
    ensures Next(s, step).control.closed
    ensures Remaining(Next(s, step)) <= Remaining(s)
  {
    hide TableOk, NoOrphans;
  }

  function WorkSteps(steps: seq<Step>): nat {
    if steps == [] then 0 else (if steps[0].Work? then 1 else 0) + WorkSteps(steps[1..])
  }

  predicate NoCrash(steps: seq<Step>) {
    forall k | 0 <= k < |steps| :: !steps[k].Crash?
  }

  /** A closed service drains within a bounded number of worker steps, so shutdown always gets to return. */
  lemma {:induction false} ClosedServiceDrains(s: State, steps: seq<Step>)
    requires Inv(s) && s.control.closed && NoCrash(steps)
    requires WorkSteps(steps) >= Remaining(s)
    ensures Run(s, steps).worker.Resting? && Run(s, steps).queue == []
    decreases |steps|
  {
    hide TableOk, NoOrphans, WorkStep, StartStep, Remaining;
    NextInvIfAny(s, steps);
    RemainingZero(s);
    if steps != [] {
      var next := Next(s, steps[0]);
      if steps[0].Work? {
        if Remaining(s) > 0 {
          WorkMakesProgress(s, steps[0].storage, steps[0].reply, steps[0].elapsed);
        } else {
          RestingStays(s, steps[0]);
        }
        WorkKeepsFlags(s, steps[0]);
      } else {
        ClosedAddsNoWork(s, steps[0]);
      }
      ClosedServiceDrains(next, steps[1..]);
    }
  }

  lemma NextInvIfAny(s: State, steps: seq<Step>)
    requires Inv(s)
    ensures steps != [] ==> Inv(Next(s, steps[0]))
  {
    if steps != [] {
      NextKeepsInv(s, steps[0]);
    }
  }

  lemma WorkKeepsFlags(s: State, step: Step)
    requires step.Work?
    ensures Next(s, step).control == s.control && Next(s, step).inventory == s.inventory
    ensures Next(s, step).starter == s.starter && Next(s, step).future == s.future
    ensures Next(s, step).jobs.Keys == s.jobs.Keys
  {
    hide WithFailure, WithStatus, WithResult, TestItem, ProviderAllows;
  }

  lemma RestingStays(s: State, step: Step)
    requires Inv(s) && step.Work? && Remaining(s) == 0
    ensures Remaining(Next(s, step)) == 0
  {
    RemainingZero(s);
  }

  // ---------------------------------------------------------------------------
  // After the stop flag at most the test in progress is still recorded.

  function InFlight(worker: Worker, id: JobId): nat {
    if (worker.Testing? || worker.Recording?) && worker.job == id then 1 else 0
  }

  /** While stopped, or once terminal and owned by nobody, a job gains nothing but the result in flight. */
  ghost predicate Capped(s: State, id: JobId, cap: nat) {
    && id in s.jobs
    && (s.control.stop || (!Active(s.jobs[id].status) && !Owned(s, id)))
    && |s.jobs[id].results| + InFlight(s.worker, id) <= cap
  }

  lemma CappedStep(s: State, step: Step, id: JobId, cap: nat)
    requires Inv(s) && Capped(s, id, cap)
    ensures Capped(Next(s, step), id, cap)
  {
    hide TableOk, NoOrphans;
    match step
    case Work(storage, reply, elapsed) => CappedWork(s, step, id, cap);
    case Crash => ReopenKeeps(s.jobs);
    case ReopenStore => ReopenKeeps(s.jobs);
    case Create(newId, storage) =>
    case Unschedule(storage) =>
    case _ =>
  }

  lemma CappedWork(s: State, step: Step, id: JobId, cap: nat)
    requires step.Work? && Inv(s) && Capped(s, id, cap)
    ensures Capped(Next(s, step), id, cap)
  {
    hide TableOk, NoOrphans, TestItem;
    match s.worker
    case Recording(job, items, next, result) =>
      var given, spent :| result == TestItem(items[next], given, spent);
      RecordingKeeps(s.jobs, job, given, spent);
    case _ =>
  }

  /** Once shutdown is flagged, every existing job gains at most one more result, over every later run. */
  lemma {:induction false} StopAllowsOneMoreResult(s: State, steps: seq<Step>, id: JobId)
    requires Inv(s) && s.control.stop && id in s.jobs
    ensures id in Run(s, steps).jobs
    ensures |Run(s, steps).jobs[id].results| <= |s.jobs[id].results| + InFlight(s.worker, id)
  {
    CappedRun(s, steps, id, |s.jobs[id].results| + InFlight(s.worker, id));
  }

  lemma {:induction false} CappedRun(s: State, steps: seq<Step>, id: JobId, cap: nat)
    requires Inv(s) && Capped(s, id, cap)
    ensures Capped(Run(s, steps), id, cap)
    decreases |steps|
  {
    hide Inv, Capped, Next;
    if steps != [] {
      NextKeepsInv(s, steps[0]);
      CappedStep(s, steps[0], id, cap);
      CappedRun(Next(s, steps[0]), steps[1..], id, cap);
    }
  }
}
