/** The batch service's own code over the store: each call of it is a run of the protocol. */
module BatchWorker {
  import opened Wrappers
  import opened JobTable
  import opened Management
  import opened BatchProtocol
  import opened BatchProperties
  import opened BatchOutcomes
  import Stores = JobStore

  lemma StepAppended(s: State, steps: seq<Step>, step: Step)
    ensures Run(s, steps + [step]) == Next(Run(s, steps), step)
  {
    RunAppend(s, steps, [step]);
    var t := Run(s, steps);
    assert [step][1..] == [];
    assert Run(t, [step]) == Run(Next(t, step), []);
  }

  /** Steps of the worker itself, and of a shutdown that sets its flags meanwhile. */
  predicate WorkerSteps(steps: seq<Step>) {
    forall i | 0 <= i < |steps| :: steps[i].Work? || steps[i].FlagShutdown?
  }

  predicate StarterSteps(steps: seq<Step>) {
    forall i | 0 <= i < |steps| :: steps[i].Enter? || steps[i].Check? || steps[i].Create? || steps[i].Submit? || steps[i].Unschedule?
  }

  // ---------------------------------------------------------------------------
  // What a job meets, and how it must end.

  /** What happens around the test of one item: a shutdown before it, the tester's reply, and its storage. */
  datatype Turn = Turn(shutdown: bool, reply: TesterReply, elapsed: Elapsed, storage: bool)

  /** What a job meets: the storage of its own transactions, and a turn for each item. */
  datatype Script = Script(mark: bool, read: bool, turn: nat -> Turn, finish: bool, fail: bool)

  /** A job no worker has touched. */
  predicate Waits(jobs: Jobs, job: JobId) {
    job in jobs && jobs[job].status == Queued && jobs[job].results == [] && jobs[job].error == None
  }

  /** The loop ends at this item: there is none, shutdown is seen, no provider allows it, or its result is not stored. */
  predicate Halts(items: seq<SnapshotItem>, script: Script, stopped: bool, fake: bool, k: nat) {
    || k >= |items| || stopped || script.turn(k).shutdown
    || !Allowed(fake, items[k].profile.clientType) || !script.turn(k).storage
  }

  /** Where the loop ends: at the first item that ends it. */
  predicate HaltsFirst(items: seq<SnapshotItem>, script: Script, stopped: bool, fake: bool, n: nat) {
    n <= |items| && Halts(items, script, stopped, fake, n) && forall k | 0 <= k < n :: !Halts(items, script, stopped, fake, k)
  }

  /** The job is running with a truthful result for each of its first n items, and is otherwise what was created. */
  predicate Holds(before: JobRow, row: JobRow, script: Script, n: nat) {
    && row.snapshot == before.snapshot && row.total == before.total && row.completed == |row.results| == n <= |before.snapshot|
    && forall k | 0 <= k < n :: Reports(row.results[k], before.snapshot[k], script.turn(k).reply, script.turn(k).elapsed)
  }

  predicate EndsFailed(row: JobRow, cause: Cause, written: bool, otherwise: Status) {
    if written then row.status == Failed && row.error == Some(cause) else row.status == otherwise && row.error == None
  }

  /** How a waiting job ends that meets this script, its loop ending at item n. */
  predicate Ends(before: JobRow, row: JobRow, script: Script, stopped: bool, n: nat) {
    if !script.mark then Holds(before, row, script, 0) && EndsFailed(row, ProcessingFailure, script.fail, Queued)
    else if !script.read then Holds(before, row, script, 0) && EndsFailed(row, ProcessingFailure, script.fail, Running)
    else
      && Holds(before, row, script, n)
      && (if n < |before.snapshot| then
            EndsFailed(row, if stopped || script.turn(n).shutdown then ApplicationShutdown else ProcessingFailure, script.fail, Running)
          else if script.finish then row.status == Completed && row.error == None
          else EndsFailed(row, ProcessingFailure, script.fail, Running))
  }

  /** Nothing goes wrong but what testers do. */
  ghost predicate Smooth(script: Script) {
    script.mark && script.read && script.finish && script.fail && forall k: nat :: script.turn(k).storage && !script.turn(k).shutdown
  }

  /** Without faults and shutdown the worker's own code ends a job as its snapshot decides, with truthful results. */
  lemma SmoothJobEnds(before: JobRow, row: JobRow, script: Script, fake: bool, n: nat)
    requires Smooth(script) && HaltsFirst(before.snapshot, script, false, fake, n) && Ends(before, row, script, false, n)
    ensures n == Cutoff(fake, before.snapshot) && Ended(fake, row)
  {
    var m := Cutoff(fake, before.snapshot);
    assert m < |before.snapshot| ==> Halts(before.snapshot, script, false, fake, m);
    assert n < |before.snapshot| ==> !Allowed(fake, before.snapshot[n].profile.clientType);
    assert ResultIds(row.results) == SnapshotIds(row.snapshot)[..n];
  }

  /** The next test of a running job is stored, with a truthful result. */
  lemma NextReported(row: JobRow, before: JobRow, script: Script, k: nat)
    requires RowSound(row) && Active(row.status) && Holds(before, row, script, k) && k < |before.snapshot|
    ensures var r := RecordedRow(row, TestItem(before.snapshot[k], script.turn(k).reply, script.turn(k).elapsed));
            r.Success? && r.value.status == row.status && r.value.error == row.error && Holds(before, r.value, script, k + 1)
  {
    hide TestItem, Reports, RowSound, RecordedRow;
    PrefixIds(row, before, script, k);
    TestItemIsRecorded(row, script.turn(k).reply, script.turn(k).elapsed);
    var results := RecordedRow(row, TestItem(before.snapshot[k], script.turn(k).reply, script.turn(k).elapsed)).value.results;
    assert forall j | 0 <= j < k :: results[j] == results[..k][j];
  }

  lemma PrefixIds(row: JobRow, before: JobRow, script: Script, k: nat)
    requires Holds(before, row, script, k)
    ensures ResultIds(row.results) == SnapshotIds(row.snapshot)[..k]
  {
  }

  // ---------------------------------------------------------------------------
  // The table after each part of _run.

  function Begun(jobs: Jobs, job: JobId, script: Script): (Jobs, Option<seq<SnapshotItem>>) {
    var marked := if script.mark then WithStatus(jobs, job, Running, None) else Failure(Unavailable);
    match marked
    case Failure(_) => (jobs, None)
    case Success(next) => (next, if script.read && job in next then Some(next[job].snapshot) else None)
  }

  function Tested(jobs: Jobs, job: JobId, item: SnapshotItem, turn: Turn, stopped: bool, fake: bool): (Jobs, Option<Cause>) {
    if stopped || turn.shutdown then (jobs, Some(ApplicationShutdown))
    else if !ProviderAllows(fake, item.profile.clientType) || !turn.storage then (jobs, Some(ProcessingFailure))
    else match WithResult(jobs, job, TestItem(item, turn.reply, turn.elapsed))
      case Success(next) => (next, None)
      case Failure(_) => (jobs, Some(ProcessingFailure))
  }

  function Finished(jobs: Jobs, job: JobId, storage: bool): (Jobs, Option<Cause>) {
    var completed := if storage then WithStatus(jobs, job, Status.Completed, None) else Failure(Unavailable);
    match completed
    case Failure(_) => (jobs, Some(ProcessingFailure))
    case Success(next) => (next, None)
  }

  /** The job runs with the results of its first k items, and no other job has changed. */
  ghost predicate Carries(before: Jobs, now: Jobs, job: JobId, script: Script, k: nat) {
    && job in before && OnlyWrites(before, now, job)
    && Holds(before[job], now[job], script, k) && now[job].status == Running && now[job].error == None
  }

  /** What the try block has made of a waiting job, and the cause it ends with. */
  ghost predicate Processed(before: Jobs, now: Jobs, job: JobId, script: Script, stopped: bool, fake: bool,
                            failure: Option<Cause>, n: nat)
  {
    job in before && OnlyWrites(before, now, job) &&
    var first, row := before[job], now[job];
    && row.error == None
    && if !script.mark || !script.read then
         && failure == Some(ProcessingFailure) && Holds(first, row, script, 0)
         && row.status == (if script.mark then Running else Queued)
       else
         && HaltsFirst(first.snapshot, script, stopped, fake, n) && Holds(first, row, script, n)
         && (if n < |first.snapshot| then
               row.status == Running
               && failure == Some(if stopped || script.turn(n).shutdown then ApplicationShutdown else ProcessingFailure)
             else if script.finish then row.status == Completed && failure == None
             else row.status == Running && failure == Some(ProcessingFailure))
  }

  lemma BegunCarries(before: Jobs, job: JobId, script: Script, stopped: bool, fake: bool)
    requires Sound(before) && Waits(before, job)
    ensures var (now, items) := Begun(before, job, script);
            && (items.Some? <==> script.mark && script.read)
            && (items.Some? ==> items.value == before[job].snapshot && Carries(before, now, job, script, 0))
            && (items.None? ==> Processed(before, now, job, script, stopped, fake, Some(ProcessingFailure), 0))
  {
    SoundRow(before, job);
    WithStatusSound(before, job, Running, None);
    if script.mark {
      SameSnapshot(before, WithStatus(before, job, Running, None).value, job);
    }
    hide Sound, RowSound, WithStatus, Reports, Evolves, HaltsFirst;
  }

  lemma SameSnapshot(before: Jobs, after: Jobs, job: JobId)
    requires Sound(after) && Evolves(before, after) && job in before
    ensures after[job].snapshot == before[job].snapshot && after[job].total == before[job].total
    ensures after[job].completed == |after[job].results|
  {
    assert RowEvolves(before[job], after[job]) && RowSound(after[job]);
  }

  lemma TestedCarries(before: Jobs, jobs: Jobs, job: JobId, script: Script, stopped: bool, fake: bool, k: nat)
    requires Sound(jobs) && Carries(before, jobs, job, script, k) && k < |before[job].snapshot|
    ensures var items, turn := before[job].snapshot, script.turn(k);
            var (now, failure) := Tested(jobs, job, items[k], turn, stopped, fake);
            && (failure.Some? <==> Halts(items, script, stopped, fake, k))
            && Carries(before, now, job, script, if failure.None? then k + 1 else k)
            && (failure.Some? ==> failure.value == if stopped || turn.shutdown then ApplicationShutdown else ProcessingFailure)
  {
    SoundRow(jobs, job);
    NextReported(jobs[job], before[job], script, k);
    hide Sound, RowSound, Holds, TestItem, RecordedRow;
  }

  /** The loop ends early at item n. */
  lemma LoopEnds(before: Jobs, now: Jobs, job: JobId, script: Script, stopped: bool, fake: bool, n: nat)
    requires Carries(before, now, job, script, n) && n < |before[job].snapshot| && script.mark && script.read
    requires Halts(before[job].snapshot, script, stopped, fake, n)
    requires forall k: nat | k < n :: !Halts(before[job].snapshot, script, stopped, fake, k)
    ensures Processed(before, now, job, script, stopped, fake,
                      Some(if stopped || script.turn(n).shutdown then ApplicationShutdown else ProcessingFailure), n)
  {
    hide Reports, Halts;
  }

  lemma SmoothRun(script: Script)
    requires Smooth(script)
    ensures script.mark && script.read
  {
  }

  lemma FinishedProcesses(before: Jobs, jobs: Jobs, job: JobId, script: Script, stopped: bool, fake: bool)
    requires Sound(jobs) && job in before && Carries(before, jobs, job, script, |before[job].snapshot|)
    requires script.mark && script.read
    requires forall k: nat | k < |before[job].snapshot| :: !Halts(before[job].snapshot, script, stopped, fake, k)
    ensures var (now, failure) := Finished(jobs, job, script.finish);
            Processed(before, now, job, script, stopped, fake, failure, |before[job].snapshot|)
  {
    SoundRow(jobs, job);
    WithStatusSound(jobs, job, Status.Completed, None);
    if script.finish {
      assert jobs[job].status == Running && |jobs[job].results| == |jobs[job].snapshot|;
      SameSnapshot(jobs, WithStatus(jobs, job, Status.Completed, None).value, job);
    }
    hide Sound, RowSound, WithStatus, Reports, Evolves;
  }

  /** Writing the failure, if there is one, ends the job. */
  lemma FailureEnds(before: Jobs, processed: Jobs, after: Jobs, job: JobId, script: Script, stopped: bool, fake: bool,
                    failure: Option<Cause>, n: nat)
    requires Sound(processed) && Processed(before, processed, job, script, stopped, fake, failure, n)
    requires after == if failure.Some? then WithFailure(processed, job, failure.value, script.fail) else processed
    ensures job in after && OnlyWrites(before, after, job) && Ends(before[job], after[job], script, stopped, n)
  {
    hide Sound, WithFailure, Reports, HaltsFirst;
    if failure.Some? {
      FailureWrites(processed, job, failure.value, script.fail);
    }
  }

  /** A written failure fails a job that is not completed; one that cannot be written changes nothing. */
  lemma FailureWrites(jobs: Jobs, job: JobId, cause: Cause, storage: bool)
    requires Sound(jobs) && job in jobs && jobs[job].status != Completed
    ensures var after := WithFailure(jobs, job, cause, storage);
            && OnlyWrites(jobs, after, job)
            && after[job].snapshot == jobs[job].snapshot && after[job].total == jobs[job].total
            && after[job].results == jobs[job].results && after[job].completed == jobs[job].completed
            && (if storage then after[job].status == Failed && after[job].error == Some(cause) else after == jobs)
  {
    SoundRow(jobs, job);
    WithStatusSound(jobs, job, Failed, Some(cause));
    if storage {
      SameSnapshot(jobs, WithStatus(jobs, job, Failed, Some(cause)).value, job);
    }
    hide Sound, WithStatus, Evolves;
  }

  // ---------------------------------------------------------------------------
  // What start meets.

  /** Which inventory reads succeed, whether the creation and a failure can be stored, and what the executor says. */
  datatype StartScript = StartScript(readable: nat -> bool, create: bool, accepted: bool, fail: bool)

  /** Every device can be read, is known and can be tested. */
  predicate Testworthy(ids: seq<ConnectionId>, connections: Connections, script: StartScript, fake: bool) {
    forall k | 0 <= k < |ids| :: script.readable(k) && ids[k] in connections && Allowed(fake, connections[ids[k]].clientType)
  }

  /** A job can be created: on an open service at rest, for distinct testable devices, with no other job active. */
  predicate Creatable(jobs: Jobs, ids: seq<ConnectionId>, connections: Connections, newId: JobId, idle: bool,
                      script: StartScript, fake: bool)
  {
    && idle && 1 <= |ids| <= 1000 && Distinct(ids) && Testworthy(ids, connections, script, fake)
    && Free(jobs, newId, script.create)
  }

  /** No job is active, the identifier is new, and the storage works. */
  predicate Free(jobs: Jobs, newId: JobId, storage: bool) {
    storage && newId !in jobs && forall id | id in jobs :: !Active(jobs[id].status)
  }

  lemma TestworthyKnown(ids: seq<ConnectionId>, connections: Connections, script: StartScript, fake: bool)
    ensures Testworthy(ids, connections, script, fake) ==> forall k | 0 <= k < |ids| :: ids[k] in connections
  {
  }

  /** The new job is queued with exactly the selected devices as they are now. */
  ghost predicate IsNewJob(before: Jobs, after: Jobs, ids: seq<ConnectionId>, connections: Connections, newId: JobId) {
    && newId !in before && OnlyWrites(before, after, newId)
    && Waits(after, newId) && |after[newId].snapshot| == |ids|
    && forall k | 0 <= k < |ids| ::
         ids[k] in connections && after[newId].snapshot[k] == SnapshotItem(ids[k], connections[ids[k]])
  }

  lemma CreationExactly(jobs: Jobs, connections: Connections, ids: seq<ConnectionId>, newId: JobId)
    requires Sound(jobs) && 1 <= |ids| <= 1000 && Distinct(ids) && forall k | 0 <= k < |ids| :: ids[k] in connections
    ensures var r := Created(jobs, connections, ids, newId);
            && (r.Success? <==> newId !in jobs && forall id | id in jobs :: !Active(jobs[id].status))
            && (r.Success? ==> IsNewJob(jobs, r.value, ids, connections, newId) && r.value[newId].error == None)
  {
    CreatedSound(jobs, connections, ids, newId);
    CreatedRow(jobs, connections, ids, newId);
    hide Sound, Created, OnlyWrites;
  }

  /** The created job that the executor refused: failed for that if the failure can be stored, and still queued otherwise. */
  ghost predicate Unstarted(before: Jobs, after: Jobs, ids: seq<ConnectionId>, connections: Connections, newId: JobId, written: bool) {
    exists created: Jobs ::
      && IsNewJob(before, created, ids, connections, newId) && OnlyWrites(created, after, newId)
      && after[newId].snapshot == created[newId].snapshot && after[newId].results == []
      && EndsFailed(after[newId], NotScheduled, written, Queued)
  }

  lemma UnscheduledEnds(before: Jobs, created: Jobs, ids: seq<ConnectionId>, connections: Connections, newId: JobId, written: bool)
    requires Sound(created) && IsNewJob(before, created, ids, connections, newId)
    ensures Unstarted(before, WithFailure(created, newId, NotScheduled, written), ids, connections, newId, written)
  {
    hide Sound, WithFailure;
    FailureWrites(created, newId, NotScheduled, written);
  }

  lemma TestworthyExactly(ids: seq<ConnectionId>, connections: Connections, script: StartScript, fake: bool)
    ensures Testworthy(ids, connections, script, fake) <==>
              forall k | 0 <= k < |ids| ::
                script.readable(k) && ids[k] in connections && ProviderAllows(fake, connections[ids[k]].clientType)
  {
  }

  lemma CreatedRow(jobs: Jobs, connections: Connections, ids: seq<ConnectionId>, newId: JobId)
    ensures var r := Created(jobs, connections, ids, newId);
            r.Success? ==> newId in r.value && r.value[newId].error == None && |r.value[newId].snapshot| == |ids|
                           && forall k | 0 <= k < |ids| :: r.value[newId].snapshot[k].id == ids[k]
  {
  }

  class BatchService {
    const store: Stores.JobStore
    const fakeEnabled: bool
    var closed: bool
    var stop: bool
    var executorShut: bool
    var queue: seq<JobId>
    var future: Option<JobId>

    constructor (store: Stores.JobStore, fakeEnabled: bool)
      ensures this.store == store && this.fakeEnabled == fakeEnabled
      ensures !closed && !stop && !executorShut && queue == [] && future == None
    {
      this.store, this.fakeEnabled := store, fakeEnabled;
      closed, stop, executorShut, queue, future := false, false, false, [], None;
    }

    /** The protocol state s has this object's fields and its store's rows. */
    ghost predicate Mirrors(s: State)
      reads this, store
    {
      && s.jobs == store.jobs && s.inventory.fakeEnabled == fakeEnabled
      && s.control.closed == closed && s.control.stop == stop && s.control.executorShut == executorShut
      && s.queue == queue && s.future == future
    }

    ghost predicate Usable()
      reads store
    {
      store.Valid() && store.open
    }

    /** _fail: a failure that cannot be written is only logged. */
    method Fail(job: JobId, cause: Cause, storage: bool)
      requires Usable()
      modifies store`jobs
      ensures Usable() && store.jobs == WithFailure(old(store.jobs), job, cause, storage)
    {
      var _ := store.SetJobStatus(job, Failed, Some(cause), storage);
    }

    /** Marks the job running and reads its devices. */
    method Begin(job: JobId, script: Script, ghost s: State) returns (items: Option<seq<SnapshotItem>>, ghost steps: seq<Step>)
      requires Usable() && Mirrors(s) && s.starter.LockFree? && s.worker == Starting(job)
      modifies store`jobs
      ensures Usable() && WorkerSteps(steps)
      ensures var t := Run(s, steps);
              && Mirrors(t) && t.starter.LockFree?
              && t.worker == if items.Some? then Looping(job, items.value, 0) else Failing(job, ProcessingFailure)
      ensures (store.jobs, items) == Begun(old(store.jobs), job, script)
    {
      hide WithStatus, WithResult, TestItem, Created, WithFailure, ProviderAllows, Run, StartStep;
      var running := store.SetJobStatus(job, Running, None, script.mark);
      steps := [Work(script.mark, Raised, 0.0)];
      OneStep(s, steps[0]);
      if running.Failure? {
        return None, steps;
      }
      var read := store.GetJobConnections(job, script.read);
      StepAppended(s, steps, Work(script.read, Raised, 0.0));
      steps := steps + [Work(script.read, Raised, 0.0)];
      items := if read.Failure? then None else Some(read.value);
    }

    /** The try block of _run: it ends completed, or with the cause of the failure to be written. */
    method Process(job: JobId, script: Script, ghost s: State)
      returns (failure: Option<Cause>, ghost n: nat, ghost steps: seq<Step>)
      requires Usable() && Mirrors(s) && s.starter.LockFree? && s.worker == Starting(job)
      modifies store`jobs, this`closed, this`stop
      ensures Usable() && WorkerSteps(steps)
      ensures var t := Run(s, steps);
              Mirrors(t) && t.worker == if failure.Some? then Failing(job, failure.value) else Resting
      ensures Waits(old(store.jobs), job) ==>
                Processed(old(store.jobs), store.jobs, job, script, old(stop), fakeEnabled, failure, n)
    {
      hide WithStatus, WithResult, TestItem, Created, WithFailure, ProviderAllows, Run, StartStep, Begun, Tested, Finished, Halts,
        Carries, Processed, Sound;
      ghost var before, stopped := store.jobs, stop;
      ghost var waits := Waits(before, job);
      n := 0;
      if waits {
        BegunCarries(before, job, script, stopped, fakeEnabled);
      }
      var items;
      items, steps := Begin(job, script, s);
      if items.None? {
        return Some(ProcessingFailure), n, steps;
      }
      var k := 0;
      while k < |items.value|
        invariant 0 <= k <= |items.value|
        invariant Usable() && WorkerSteps(steps)
        invariant var t := Run(s, steps); Mirrors(t) && t.starter.LockFree? && t.worker == Looping(job, items.value, k)
        invariant waits ==> job in before && items.value == before[job].snapshot && Carries(before, store.jobs, job, script, k)
        invariant waits ==> script.mark && script.read
        invariant waits ==> forall j: nat | j < k :: !Halts(items.value, script, stopped, fakeEnabled, j)
        invariant stop == stopped
      {
        if waits {
          TestedCarries(before, store.jobs, job, script, stopped, fakeEnabled, k);
        }
        var more;
        more, steps := ProcessItem(job, items.value, k, script.turn(k), s, steps);
        if more.Some? {
          n := k;
          if waits {
            LoopEnds(before, store.jobs, job, script, stopped, fakeEnabled, n);
          }
          return more, n, steps;
        }
        k := k + 1;
      }
      n := k;
      if waits {
        FinishedProcesses(before, store.jobs, job, script, stopped, fakeEnabled);
      }
      failure, steps := Finish(job, items.value, script.finish, s, steps);
    }

    /** After the last item the job is marked completed. */
    method Finish(job: JobId, items: seq<SnapshotItem>, storage: bool, ghost s: State, ghost before: seq<Step>)
      returns (failure: Option<Cause>, ghost steps: seq<Step>)
      requires Usable() && WorkerSteps(before)
      requires var t := Run(s, before); Mirrors(t) && t.worker == Looping(job, items, |items|)
      modifies store`jobs
      ensures Usable() && WorkerSteps(steps)
      ensures var t := Run(s, steps);
              Mirrors(t) && t.worker == if failure.Some? then Failing(job, failure.value) else Resting
      ensures (store.jobs, failure) == Finished(old(store.jobs), job, storage)
    {
      hide WithStatus, WithResult, TestItem, Created, WithFailure, ProviderAllows, Run, StartStep;
      StepAppended(s, before, Work(true, Raised, 0.0));
      steps := before + [Work(true, Raised, 0.0)];
      var completed := store.SetJobStatus(job, Status.Completed, None, storage);
      StepAppended(s, steps, Work(storage, Raised, 0.0));
      steps := steps + [Work(storage, Raised, 0.0)];
      failure := if completed.Failure? then Some(ProcessingFailure) else None;
    }

    /** One turn of the loop: look at the stop flag, test one device, record its result. */
    method ProcessItem(job: JobId, items: seq<SnapshotItem>, k: nat, turn: Turn, ghost s: State, ghost before: seq<Step>)
      returns (failure: Option<Cause>, ghost steps: seq<Step>)
      requires Usable() && k < |items| && WorkerSteps(before)
      requires var t := Run(s, before); Mirrors(t) && t.starter.LockFree? && t.worker == Looping(job, items, k)
      modifies store`jobs, this`closed, this`stop
      ensures Usable() && WorkerSteps(steps)
      ensures var t := Run(s, steps);
              && Mirrors(t) && t.starter.LockFree?
              && t.worker == if failure.Some? then Failing(job, failure.value) else Looping(job, items, k + 1)
      ensures (store.jobs, failure) == Tested(old(store.jobs), job, items[k], turn, old(stop), fakeEnabled)
      ensures stop == (old(stop) || turn.shutdown) && (failure.None? ==> !stop)
    {
      hide WithStatus, WithResult, TestItem, Created, WithFailure, ProviderAllows, Run, StartStep;
      steps := before;
      // A shutdown may set both flags at any moment; only what this check sees matters here.
      if turn.shutdown {
        closed, stop := true, true;
        StepAppended(s, steps, FlagShutdown);
        steps := steps + [FlagShutdown];
      }
      StepAppended(s, steps, Work(true, Raised, 0.0));
      steps := steps + [Work(true, Raised, 0.0)];
      if stop {
        return Some(ApplicationShutdown), steps;
      }
      failure, steps := TestAndRecord(job, items, k, turn, s, steps);
    }

    /** test_profile and record_job_result for one item. */
    method TestAndRecord(job: JobId, items: seq<SnapshotItem>, k: nat, turn: Turn, ghost s: State, ghost before: seq<Step>)
      returns (failure: Option<Cause>, ghost steps: seq<Step>)
      requires Usable() && k < |items| && WorkerSteps(before)
      requires var t := Run(s, before); Mirrors(t) && t.starter.LockFree? && t.worker == Testing(job, items, k)
      modifies store`jobs
      ensures Usable() && WorkerSteps(steps)
      ensures var t := Run(s, steps);
              && Mirrors(t) && t.starter.LockFree?
              && t.worker == if failure.Some? then Failing(job, failure.value) else Looping(job, items, k + 1)
      ensures (store.jobs, failure) == Tested(old(store.jobs), job, items[k], turn.(shutdown := false), false, fakeEnabled)
    {
      hide WithStatus, WithResult, TestItem, Created, WithFailure, ProviderAllows, Run, StartStep;
      var item := items[k];
      StepAppended(s, before, Work(true, turn.reply, turn.elapsed));
      steps := before + [Work(true, turn.reply, turn.elapsed)];
      if !ProviderAllows(fakeEnabled, item.profile.clientType) {
        return Some(ProcessingFailure), steps;
      }
      var recorded := store.RecordJobResult(job, TestItem(item, turn.reply, turn.elapsed), turn.storage);
      StepAppended(s, steps, Work(turn.storage, Raised, 0.0));
      steps := steps + [Work(turn.storage, Raised, 0.0)];
      failure := if recorded.Failure? then Some(ProcessingFailure) else None;
    }

    /**
     _run: the worker's whole treatment of a job is a run of protocol steps that leaves it resting. What a waiting job
     meets decides how it ends: n is where its loop ends.
     */
    method RunJob(job: JobId, script: Script, ghost s: State) returns (ghost n: nat, ghost steps: seq<Step>)
      requires Usable() && Mirrors(s) && s.starter.LockFree? && s.worker == Starting(job)
      modifies store`jobs, this`closed, this`stop
      ensures Usable() && WorkerSteps(steps)
      ensures var t := Run(s, steps); Mirrors(t) && t.worker.Resting?
      ensures Waits(old(store.jobs), job) ==>
                && OnlyWrites(old(store.jobs), store.jobs, job)
                && (script.mark && script.read ==>
                      HaltsFirst(old(store.jobs)[job].snapshot, script, old(stop), fakeEnabled, n))
                && Ends(old(store.jobs)[job], store.jobs[job], script, old(stop), n)
                && (Smooth(script) && !old(stop) ==> Ended(fakeEnabled, store.jobs[job]))
    {
      hide WithStatus, WithFailure, Run, StartStep, HaltsFirst, Ended, Ends, Holds, Smooth, Sound, OnlyWrites;
      ghost var before, stopped := store.jobs, stop;
      var failure;
      failure, n, steps := Process(job, script, s);
      ghost var processed := store.jobs;
      if failure.Some? {
        Fail(job, failure.value, script.fail);
        StepAppended(s, steps, Work(script.fail, Raised, 0.0));
        steps := steps + [Work(script.fail, Raised, 0.0)];
      }
      if Waits(before, job) {
        FailureEnds(before, processed, store.jobs, job, script, stopped, fakeEnabled, failure, n);
        if Smooth(script) && !stopped {
          SmoothRun(script);
          SmoothJobEnds(before[job], store.jobs[job], script, fakeEnabled, n);
        }
      }
    }

    /** Hands the created job to the executor, or marks it failed when the executor refuses it. */
    method Schedule(job: JobId, accepted: bool, storage: bool, ghost s: State, ghost before: seq<Step>)
      returns (scheduled: bool, ghost steps: seq<Step>)
      requires Usable() && StarterSteps(before)
      requires var t := Run(s, before); Mirrors(t) && t.starter == Submitting(job)
      modifies store`jobs, this`queue, this`future
      ensures Usable() && StarterSteps(steps)
      ensures var t := Run(s, steps); Mirrors(t) && t.starter.LockFree?
      ensures scheduled == (!executorShut && accepted)
      ensures if scheduled then queue == old(queue) + [job] && future == Some(job) && store.jobs == old(store.jobs)
              else queue == old(queue) && future == old(future) && store.jobs == WithFailure(old(store.jobs), job, NotScheduled, storage)
    {
      hide WithStatus, WithFailure, Created, Run, WorkStep, ProviderAllows;
      StepAppended(s, before, Submit(accepted));
      steps := before + [Submit(accepted)];
      if executorShut || !accepted {
        Fail(job, NotScheduled, storage);
        StepAppended(s, steps, Unschedule(storage));
        steps := steps + [Unschedule(storage)];
        return false, steps;
      }
      queue := queue + [job];
      future := Some(job);
      return true, steps;
    }

    /**
     start, with the service lock held throughout; newId is the fresh identifier, done what future.done() says. It
     succeeds exactly when the job can be created and the executor takes it.
     */
    method Start(ids: seq<ConnectionId>, connections: Connections, newId: JobId, done: bool, script: StartScript, ghost s: State)
      returns (started: bool, ghost steps: seq<Step>)
      requires Usable() && Mirrors(s) && s.starter.LockFree? && s.inventory.connections == connections
      requires done == FutureDone(s)
      modifies store`jobs, this`queue, this`future
      ensures Usable() && StarterSteps(steps)
      ensures var t := Run(s, steps); Mirrors(t) && t.starter.LockFree?
      ensures started <==>
                && Creatable(old(store.jobs), ids, connections, newId, !closed && done, script, fakeEnabled)
                && !executorShut && script.accepted
      ensures started ==>
                && IsNewJob(old(store.jobs), store.jobs, ids, connections, newId)
                && queue == old(queue) + [newId] && future == Some(newId)
      ensures !started ==> queue == old(queue) && future == old(future)
      ensures !started ==>
                if Creatable(old(store.jobs), ids, connections, newId, !closed && done, script, fakeEnabled)
                then Unstarted(old(store.jobs), store.jobs, ids, connections, newId, script.fail) else store.jobs == old(store.jobs)
    {
      hide WithStatus, WithFailure, Created, Run, WorkStep, ProviderAllows, Unstarted, IsNewJob, Free, Testworthy;
      steps := [Enter(ids)];
      OneStep(s, steps[0]);
      if ids == [] || |ids| > 1000 || !Distinct(ids) || closed || !done {
        return false, steps;
      }
      var ready;
      ready, steps := CheckDevices(ids, connections, script.readable, s, steps);
      TestworthyExactly(ids, connections, script, fakeEnabled);
      if !ready {
        return false, steps;
      }
      TestworthyKnown(ids, connections, script, fakeEnabled);
      started, steps := CreateAndSchedule(ids, connections, newId, script, s, steps);
    }

    /** create_job for checked devices, and the executor. */
    method CreateAndSchedule(ids: seq<ConnectionId>, connections: Connections, newId: JobId, script: StartScript,
                             ghost s: State, ghost earlier: seq<Step>)
      returns (started: bool, ghost steps: seq<Step>)
      requires Usable() && StarterSteps(earlier)
      requires 1 <= |ids| <= 1000 && Distinct(ids) && forall k | 0 <= k < |ids| :: ids[k] in connections
      requires var t := Run(s, earlier);
               Mirrors(t) && t.starter == Checking(ids, |ids|) && t.inventory.connections == connections
      modifies store`jobs, this`queue, this`future
      ensures Usable() && StarterSteps(steps)
      ensures var t := Run(s, steps); Mirrors(t) && t.starter.LockFree?
      ensures started <==> Free(old(store.jobs), newId, script.create) && !executorShut && script.accepted
      ensures started ==>
                && IsNewJob(old(store.jobs), store.jobs, ids, connections, newId)
                && queue == old(queue) + [newId] && future == Some(newId)
      ensures !started ==> queue == old(queue) && future == old(future)
      ensures !started ==>
                if Free(old(store.jobs), newId, script.create)
                then Unstarted(old(store.jobs), store.jobs, ids, connections, newId, script.fail) else store.jobs == old(store.jobs)
    {
      hide WithStatus, WithFailure, Created, Run, WorkStep, ProviderAllows, Unstarted, IsNewJob;
      ghost var before := store.jobs;
      CreationExactly(before, connections, ids, newId);
      var created := store.CreateJob(connections, ids, newId, script.create);
      StepAppended(s, earlier, Create(newId, script.create));
      steps := earlier + [Create(newId, script.create)];
      if created.Failure? {
        return false, steps;
      }
      UnscheduledEnds(before, store.jobs, ids, connections, newId, script.fail);
      started, steps := Schedule(newId, script.accepted, script.fail, s, steps);
    }

    /** Reads and checks the selected devices one by one, until one is unsuitable. */
    method CheckDevices(ids: seq<ConnectionId>, connections: Connections, readable: nat -> bool, ghost s: State, ghost before: seq<Step>)
      returns (ready: bool, ghost steps: seq<Step>)
      requires Usable() && StarterSteps(before) && s.inventory.connections == connections
      requires var t := Run(s, before);
               Mirrors(t) && t.starter == Checking(ids, 0) && t.inventory == s.inventory && t.worker == s.worker
      ensures StarterSteps(steps)
      ensures var t := Run(s, steps);
              && Mirrors(t) && t.inventory == s.inventory && t.worker == s.worker
              && t.starter == if ready then Checking(ids, |ids|) else LockFree
      ensures ready <==>
                forall k | 0 <= k < |ids| ::
                  readable(k) && ids[k] in connections && ProviderAllows(fakeEnabled, connections[ids[k]].clientType)
    {
      hide WithStatus, WithFailure, Created, Run, WorkStep, ProviderAllows;
      steps := before;
      var k := 0;
      while k < |ids|
        invariant 0 <= k <= |ids|
        invariant StarterSteps(steps)
        invariant forall j | 0 <= j < k ::
                    readable(j) && ids[j] in connections && ProviderAllows(fakeEnabled, connections[ids[j]].clientType)
        invariant var t := Run(s, steps);
                  Mirrors(t) && t.starter == Checking(ids, k) && t.inventory == s.inventory && t.worker == s.worker
      {
        StepAppended(s, steps, Check(readable(k)));
        steps := steps + [Check(readable(k))];
        if !readable(k) || ids[k] !in connections || !ProviderAllows(fakeEnabled, connections[ids[k]].clientType) {
          return false, steps;
        }
        k := k + 1;
      }
      return true, steps;
    }

    /** shutdown, up to waiting for the worker. */
    method Shutdown(ghost s: State) returns (ghost steps: seq<Step>)
      requires Mirrors(s) && s.starter.LockFree?
      modifies this`closed, this`stop, this`executorShut
      ensures closed && stop && executorShut
      ensures steps == [FlagShutdown, ShutExecutor] && Mirrors(Run(s, steps))
    {
      hide WorkStep, StartStep, Run;
      closed, stop := true, true;
      executorShut := true;
      steps := [FlagShutdown];
      OneStep(s, FlagShutdown);
      StepAppended(s, steps, ShutExecutor);
      steps := steps + [ShutExecutor];
    }
  }

  lemma OneStep(s: State, step: Step)
    ensures Run(s, [step]) == Next(s, step)
  {
    StepAppended(s, [], step);
    assert [] + [step] == [step];
  }
}
