/** The job rows of the gateway store: transition functions and their invariants. */
module JobTable {
  import opened Wrappers

  type JobId = string
  type ConnectionId = string

  datatype ClientType = Network | Fake | Unknown

  /** The fields of a resolved connection that a job reads. */
  datatype Profile = Profile(protocol: string, host: string, port: int, connectorType: string, clientType: ClientType)

  datatype SnapshotItem = SnapshotItem(id: ConnectionId, profile: Profile)

  /** A float or a value that is not one; booleans count as not numbers here. */
  datatype Number = Finite(value: real) | NotFinite | NotNumber

  datatype Flag = Absent | NotBoolean | Is(value: bool)

  /** The dictionary handed to record_job_result, each field checked before it is used. */
  datatype Submission = Submission(connectionId: Option<ConnectionId>, duration: Option<Number>,
                                   success: Flag, simulated: Flag)

  /** A stored result; the redacted name, host, stage and detail texts are not modelled. */
  datatype ResultRow = ResultRow(connectionId: ConnectionId, protocol: string, port: int, connectorType: string,
                                 success: bool, simulated: bool, duration: real)

  datatype Status = Queued | Running | Completed | Failed

  /** The error texts of the program, one constructor for each literal it writes. */
  datatype Cause = GatewayRestart | NotScheduled | ApplicationShutdown | ProcessingFailure

  datatype JobRow = JobRow(status: Status, total: int, completed: int, snapshot: seq<SnapshotItem>,
                           results: seq<ResultRow>, error: Option<Cause>, activeSlot: Option<int>)

  type Jobs = map<JobId, JobRow>
  type Connections = map<ConnectionId, Profile>

  predicate Active(status: Status) {
    status.Queued? || status.Running?
  }

  function SlotOf(status: Status): Option<int> {
    if Active(status) then Some(1) else None
  }

  function SnapshotIds(items: seq<SnapshotItem>): (ids: seq<ConnectionId>)
    ensures |ids| == |items|
    ensures forall i | 0 <= i < |ids| :: ids[i] == items[i].id
  {
    seq(|items|, i requires 0 <= i < |items| => items[i].id)
  }

  function ResultIds(results: seq<ResultRow>): (ids: seq<ConnectionId>)
    ensures |ids| == |results|
    ensures forall i | 0 <= i < |ids| :: ids[i] == results[i].connectionId
  {
    seq(|results|, i requires 0 <= i < |results| => results[i].connectionId)
  }

  predicate Distinct<T(==)>(s: seq<T>) {
    forall i, j | 0 <= i < j < |s| :: s[i] != s[j]
  }

  // ---------------------------------------------------------------------------
  // The schema's own constraints, checked by the database when it commits.

  predicate RowConstraints(row: JobRow) {
    && row.total > 0 && 0 <= row.completed <= row.total
    && (Active(row.status) ==> row.activeSlot == Some(1))
    && (!Active(row.status) ==> row.activeSlot == None)
  }

  predicate SchemaHolds(jobs: Jobs) {
    && (forall id | id in jobs :: RowConstraints(jobs[id]))
    && (forall i, j | i in jobs && j in jobs && jobs[i].activeSlot.Some? && jobs[i].activeSlot == jobs[j].activeSlot :: i == j)
  }

  // ---------------------------------------------------------------------------
  // What every row satisfies in a reachable store.

  ghost predicate RowSound(row: JobRow) {
    && row.total == |row.snapshot| > 0
    && row.completed == |row.results|
    && Distinct(SnapshotIds(row.snapshot))
    && Distinct(ResultIds(row.results))
    && (forall k | 0 <= k < |row.results| :: row.results[k].connectionId in SnapshotIds(row.snapshot))
    && (row.status.Completed? ==> row.completed == row.total)
    && row.activeSlot == SlotOf(row.status)
  }

  ghost predicate Sound(jobs: Jobs) {
    && (forall id | id in jobs :: RowSound(jobs[id]))
    && (forall i, j | i in jobs && j in jobs && Active(jobs[i].status) && Active(jobs[j].status) :: i == j)
  }

  /** Nothing is lost between two stores: snapshots stay, results only grow, and terminal rows keep status and results. */
  ghost predicate RowEvolves(before: JobRow, after: JobRow) {
    && after.snapshot == before.snapshot && after.total == before.total
    && before.results <= after.results
    && (!Active(before.status) ==>
          after.status == before.status && after.results == before.results && after.completed == before.completed)
    && (before.status.Running? ==> !after.status.Queued?)
  }

  ghost predicate Evolves(before: Jobs, after: Jobs) {
    forall id | id in before :: id in after && RowEvolves(before[id], after[id])
  }

  // ---------------------------------------------------------------------------
  // Transition functions, one for each store transaction.

  predicate AnyActive(jobs: Jobs) {
    exists id | id in jobs :: jobs[id].activeSlot == Some(1)
  }

  predicate AllKnown(connections: Connections, ids: seq<ConnectionId>) {
    forall i | 0 <= i < |ids| :: ids[i] in connections
  }

  function SnapshotOf(connections: Connections, ids: seq<ConnectionId>): seq<SnapshotItem>
    requires AllKnown(connections, ids)
  {
    seq(|ids|, i requires 0 <= i < |ids| => SnapshotItem(ids[i], connections[ids[i]]))
  }

  function NewRow(snapshot: seq<SnapshotItem>): JobRow {
    JobRow(Queued, |snapshot|, 0, snapshot, [], None, Some(1))
  }

  function Created(jobs: Jobs, connections: Connections, ids: seq<ConnectionId>, id: JobId): Result<Jobs, StoreError> {
    if ids == [] || |ids| > 1000 || !Distinct(ids) then Failure(Invalid)
    else if AnyActive(jobs) then Failure(Conflict)
    else if !AllKnown(connections, ids) then Failure(NotFound)
    else if id in jobs then Failure(Conflict)
    else Success(jobs[id := NewRow(SnapshotOf(connections, ids))])
  }

  predicate Recorded(row: JobRow, id: ConnectionId) {
    exists k | 0 <= k < |row.results| :: row.results[k].connectionId == id
  }

  /** The position of the snapshot item with this identifier, if there is one. */
  function Find(items: seq<SnapshotItem>, id: ConnectionId): (found: Option<nat>)
    ensures found.Some? ==> found.value < |items| && items[found.value].id == id
    ensures found.Some? <==> id in SnapshotIds(items)
  {
    if items == [] then None
    else if items[0].id == id then assert SnapshotIds(items)[0] == id; Some(0)
    else
      assert SnapshotIds(items) == [items[0].id] + SnapshotIds(items[1..]);
      match Find(items[1..], id)
      case None => None
      case Some(k) => Some(k + 1)
  }

  function DurationOf(submission: Submission): Number {
    if submission.duration.Some? then submission.duration.value else Finite(0.0)
  }

  predicate ValidDuration(duration: Number) {
    duration.Finite? && duration.value >= 0.0
  }

  function RowFor(item: SnapshotItem, success: bool, duration: real): ResultRow {
    ResultRow(item.id, item.profile.protocol, item.profile.port, item.profile.connectorType,
              success, item.profile.clientType.Fake?, duration)
  }

  function RecordedRow(row: JobRow, submission: Submission): Result<JobRow, StoreError> {
    if !Active(row.status) then Failure(Conflict)
    else if submission.connectionId.None? then Failure(Invalid)
    else
      var found := Find(row.snapshot, submission.connectionId.value);
      if found.None? then Failure(Invalid)
      else if Recorded(row, submission.connectionId.value) then Failure(Conflict)
      else if !ValidDuration(DurationOf(submission)) then Failure(Invalid)
      else if !submission.success.Is? then Failure(Invalid)
      else
        var item := row.snapshot[found.value];
        if submission.simulated != Absent && submission.simulated != Is(item.profile.clientType.Fake?) then Failure(Invalid)
        else
          var results := row.results + [RowFor(item, submission.success.value, DurationOf(submission).value)];
          Success(row.(results := results, completed := |results|))
  }

  function WithResult(jobs: Jobs, id: JobId, submission: Submission): (r: Result<Jobs, StoreError>)
    ensures r.Success? ==> r.value.Keys == jobs.Keys
  {
    if id !in jobs then Failure(NotFound)
    else
      var row :- RecordedRow(jobs[id], submission);
      Success(jobs[id := row])
  }

  predicate MayBecome(from: Status, to: Status) {
    match from
    case Queued => to != Completed
    case Running => to != Queued
    case Completed => to == Completed
    case Failed => to == Failed
  }

  function StatusRow(row: JobRow, status: Status, error: Option<Cause>): Result<JobRow, StoreError> {
    if !MayBecome(row.status, status) then Failure(Conflict)
    else if status.Completed? && row.completed != row.total then Failure(Conflict)
    else Success(row.(status := status, activeSlot := SlotOf(status), error := error))
  }

  function WithStatus(jobs: Jobs, id: JobId, status: Status, error: Option<Cause>): (r: Result<Jobs, StoreError>)
    ensures r.Success? ==> r.value.Keys == jobs.Keys
  {
    if id !in jobs then Failure(NotFound)
    else
      var row :- StatusRow(jobs[id], status, error);
      Success(jobs[id := row])
  }

  function Interrupted(row: JobRow): JobRow {
    if row.activeSlot == Some(1) then row.(status := Failed, activeSlot := None, error := Some(GatewayRestart)) else row
  }

  /** Opening the store again marks every row that still holds the active slot as failed. */
  function Reopened(jobs: Jobs): Jobs {
    map id | id in jobs :: Interrupted(jobs[id])
  }

  // ---------------------------------------------------------------------------
  // Pigeonhole: distinct results drawn from the snapshot fit into it, and fill it exactly when the counts agree.

  function Elements<T>(s: seq<T>): set<T> {
    set k | 0 <= k < |s| :: s[k]
  }

  /** Comparing a list's length with its set of elements is the program's test for duplicates. */
  lemma {:induction false} DistinctBySize<T>(s: seq<T>)
    ensures |Elements(s)| <= |s|
    ensures |Elements(s)| == |s| <==> Distinct(s)
  {
    if s != [] {
      var init, last := s[..|s| - 1], s[|s| - 1];
      DistinctBySize(init);
      assert Elements(s) == Elements(init) + {last};
      if last in Elements(init) {
        assert Elements(s) == Elements(init);
      }
    }
  }

  lemma SubsetCardinality<T>(a: set<T>, b: set<T>)
    requires a <= b
    ensures |a| <= |b|
    ensures |a| == |b| ==> a == b
  {
    assert b == a + (b - a);
  }

  lemma Pigeonhole<T>(part: seq<T>, whole: seq<T>)
    requires Distinct(part) && Distinct(whole)
    requires forall k | 0 <= k < |part| :: part[k] in whole
    ensures |part| <= |whole|
    ensures |part| == |whole| <==> forall k | 0 <= k < |whole| :: whole[k] in part
  {
    DistinctBySize(part);
    DistinctBySize(whole);
    SubsetCardinality(Elements(part), Elements(whole));
    if forall k | 0 <= k < |whole| :: whole[k] in part {
      assert Elements(part) == Elements(whole);
    }
    if |part| == |whole| {
      forall k | 0 <= k < |whole| ensures whole[k] in part {
        assert whole[k] in Elements(whole);
      }
    }
  }

  /** The progress and slot constraints of the schema can never reject a sound table. */
  lemma SoundMeetsSchema(jobs: Jobs)
    requires Sound(jobs)
    ensures SchemaHolds(jobs)
  {
    forall id | id in jobs ensures RowConstraints(jobs[id]) {
      var row := jobs[id];
      Pigeonhole(ResultIds(row.results), SnapshotIds(row.snapshot));
    }
  }

  /** How many results a row holds for one connection. */
  function ResultCount(results: seq<ResultRow>, id: ConnectionId): nat {
    multiset(ResultIds(results))[id]
  }

  lemma {:induction false} DistinctMultiplicity<T>(s: seq<T>, x: T)
    requires Distinct(s)
    ensures multiset(s)[x] == if x in s then 1 else 0
  {
    if s != [] {
      var init, last := s[..|s| - 1], s[|s| - 1];
      assert s == init + [last];
      DistinctMultiplicity(init, x);
    }
  }

  /** A job may be completed exactly when every snapshot connection has one result and nothing else has any. */
  lemma CompleteExactlyWhenAllReported(row: JobRow)
    requires RowSound(row)
    ensures row.completed == row.total <==>
            forall id :: ResultCount(row.results, id) == if id in SnapshotIds(row.snapshot) then 1 else 0
  {
    var part, whole := ResultIds(row.results), SnapshotIds(row.snapshot);
    Pigeonhole(part, whole);
    forall id ensures multiset(part)[id] == if id in part then 1 else 0 {
      DistinctMultiplicity(part, id);
    }
    if row.completed == row.total {
      forall id ensures ResultCount(row.results, id) == if id in whole then 1 else 0 {
        if id in whole {
          var k :| 0 <= k < |whole| && whole[k] == id;
          assert whole[k] in part;
        }
      }
    } else if forall id :: ResultCount(row.results, id) == if id in whole then 1 else 0 {
      forall k | 0 <= k < |whole| ensures whole[k] in part {
        assert ResultCount(row.results, whole[k]) == 1;
      }
    }
  }

  // ---------------------------------------------------------------------------
  // Each transaction keeps the table sound and only evolves it.

  /** What a submission must be: a first and valid result for a snapshot member of an active job. */
  predicate Recordable(row: JobRow, t: Submission) {
    && Active(row.status) && t.connectionId.Some?
    && t.connectionId.value in SnapshotIds(row.snapshot) && t.connectionId.value !in ResultIds(row.results)
    && ValidDuration(DurationOf(t)) && t.success.Is?
    && (t.simulated != Absent ==>
          t.simulated.Is? && forall k | 0 <= k < |row.snapshot| && row.snapshot[k].id == t.connectionId.value ::
                               t.simulated.value == row.snapshot[k].profile.clientType.Fake?)
  }

  /** Exactly such a submission is recorded; every earlier result stays and the new one says what was submitted. */
  lemma RecordedExactly(row: JobRow, t: Submission)
    requires Distinct(SnapshotIds(row.snapshot))
    ensures var r := RecordedRow(row, t);
            && (r.Success? <==> Recordable(row, t))
            && (r.Success? ==>
                  && |r.value.results| == |row.results| + 1 && r.value.results[..|row.results|] == row.results
                  && var x := r.value.results[|row.results|];
                     && x.connectionId == t.connectionId.value && Is(x.success) == t.success && Finite(x.duration) == DurationOf(t)
                     && (forall k | 0 <= k < |row.snapshot| && row.snapshot[k].id == x.connectionId ::
                           var profile := row.snapshot[k].profile;
                           && x.protocol == profile.protocol && x.port == profile.port
                           && x.connectorType == profile.connectorType && (x.simulated <==> profile.clientType == Fake))
                     && r.value == row.(results := r.value.results, completed := |row.results| + 1))
  {
    if t.connectionId.Some? {
      var id := t.connectionId.value;
      RecordedMembers(row, id);
      if Find(row.snapshot, id).Some? {
        OnlyPlace(row.snapshot, Find(row.snapshot, id).value, id);
      }
    }
    hide Find, Recorded, Distinct;
  }

  lemma RecordedMembers(row: JobRow, id: ConnectionId)
    ensures Recorded(row, id) <==> id in ResultIds(row.results)
  {
    if Recorded(row, id) {
      var k :| 0 <= k < |row.results| && row.results[k].connectionId == id;
      assert ResultIds(row.results)[k] == id;
    }
  }

  lemma OnlyPlace(items: seq<SnapshotItem>, at: nat, id: ConnectionId)
    requires Distinct(SnapshotIds(items)) && at < |items| && items[at].id == id
    ensures forall k | 0 <= k < |items| && items[k].id == id :: k == at
  {
    forall k | 0 <= k < |items| && items[k].id == id ensures k == at {
      assert SnapshotIds(items)[k] == SnapshotIds(items)[at];
    }
  }

  /** One transaction writes one row: every other row is the same before and after. */
  ghost predicate OnlyWrites(before: Jobs, after: Jobs, id: JobId) {
    id in after && after.Keys == before.Keys + {id} && forall other | other in before && other != id :: after[other] == before[other]
  }

  lemma ActiveBySlot(jobs: Jobs)
    requires Sound(jobs)
    ensures AnyActive(jobs) <==> exists id | id in jobs :: Active(jobs[id].status)
  {
    forall id | id in jobs ensures jobs[id].activeSlot == Some(1) <==> Active(jobs[id].status) {
      assert RowSound(jobs[id]);
    }
    hide RowSound;
  }

  lemma CreatedSound(jobs: Jobs, connections: Connections, ids: seq<ConnectionId>, id: JobId)
    requires Sound(jobs)
    ensures var r := Created(jobs, connections, ids, id); r.Success? ==> Sound(r.value) && Evolves(jobs, r.value)
    ensures var r := Created(jobs, connections, ids, id); r.Success? ==>
              && id !in jobs && OnlyWrites(jobs, r.value, id)
              && r.value[id].status.Queued? && r.value[id].results == [] && SnapshotIds(r.value[id].snapshot) == ids
              && (forall k | 0 <= k < |ids| :: ids[k] in connections && r.value[id].snapshot[k].profile == connections[ids[k]])
              && forall other | other in jobs :: !Active(jobs[other].status)
    ensures Created(jobs, connections, ids, id).Success? <==>
              && 1 <= |ids| <= 1000 && Distinct(ids) && (forall k | 0 <= k < |ids| :: ids[k] in connections)
              && id !in jobs && forall other | other in jobs :: !Active(jobs[other].status)
  {
    ActiveBySlot(jobs);
    var r := Created(jobs, connections, ids, id);
    if r.Success? {
      var snapshot := SnapshotOf(connections, ids);
      assert SnapshotIds(snapshot) == ids;
      forall other | other in jobs ensures !Active(jobs[other].status) {
        assert RowSound(jobs[other]);
      }
      assert RowSound(r.value[id]);
    }
  }

  lemma SoundRow(jobs: Jobs, id: JobId)
    requires Sound(jobs) && id in jobs
    ensures RowSound(jobs[id])
  {
  }

  lemma RecordedRowSound(row: JobRow, submission: Submission)
    requires RowSound(row)
    ensures var r := RecordedRow(row, submission); r.Success? ==>
              && RowSound(r.value) && RowEvolves(row, r.value) && r.value.status == row.status
              && |r.value.results| == |row.results| + 1
              && Some(r.value.results[|row.results|].connectionId) == submission.connectionId
  {
    var r := RecordedRow(row, submission);
    if r.Success? {
      assert ResultIds(r.value.results) == ResultIds(row.results) + [submission.connectionId.value];
      assert row.results <= r.value.results;
      assert r.value.results[|row.results|].connectionId in SnapshotIds(row.snapshot);
    }
  }

  /** Writing a sound evolution of one row keeps the table, as long as it does not make the row active. */
  lemma RowWritten(jobs: Jobs, id: JobId, row: JobRow)
    requires Sound(jobs) && id in jobs && RowSound(row) && RowEvolves(jobs[id], row)
    requires Active(row.status) ==> Active(jobs[id].status)
    ensures Sound(jobs[id := row]) && Evolves(jobs, jobs[id := row]) && OnlyWrites(jobs, jobs[id := row], id)
  {
    forall other | other in jobs ensures RowEvolves(jobs[other], jobs[other]) {
    }
    hide RowSound, RowEvolves;
  }

  lemma WithResultSound(jobs: Jobs, id: JobId, submission: Submission)
    requires Sound(jobs)
    ensures var r := WithResult(jobs, id, submission); r.Success? ==> Sound(r.value) && Evolves(jobs, r.value)
    ensures var r := WithResult(jobs, id, submission); r.Success? ==>
              && id in jobs && OnlyWrites(jobs, r.value, id)
              && r.value[id].status == jobs[id].status && |r.value[id].results| == |jobs[id].results| + 1
              && Some(r.value[id].results[|jobs[id].results|].connectionId) == submission.connectionId
  {
    if id in jobs {
      SoundRow(jobs, id);
      RecordedRowSound(jobs[id], submission);
      if RecordedRow(jobs[id], submission).Success? {
        RowWritten(jobs, id, RecordedRow(jobs[id], submission).value);
      }
      hide RowSound, RowEvolves, RecordedRow, Sound, Evolves, OnlyWrites;
    }
  }

  lemma StatusRowSound(row: JobRow, status: Status, error: Option<Cause>)
    requires RowSound(row)
    ensures var r := StatusRow(row, status, error); r.Success? ==>
              && RowSound(r.value) && RowEvolves(row, r.value)
              && (Active(r.value.status) ==> Active(row.status))
              && r.value.status == status && r.value.error == error && r.value.results == row.results
    ensures RowEvolves(row, row)
  {
  }

  lemma WithStatusSound(jobs: Jobs, id: JobId, status: Status, error: Option<Cause>)
    requires Sound(jobs)
    ensures var r := WithStatus(jobs, id, status, error); r.Success? ==> Sound(r.value) && Evolves(jobs, r.value)
    ensures var r := WithStatus(jobs, id, status, error); r.Success? ==>
              && id in jobs && OnlyWrites(jobs, r.value, id) && r.value[id].status == status && r.value[id].error == error
              && r.value[id].results == jobs[id].results
    ensures WithStatus(jobs, id, status, error).Success? <==>
              id in jobs && match jobs[id].status
                            case Queued => status != Completed
                            case Running => status == Running || status == Failed
                                            || (status == Completed && |jobs[id].results| == |jobs[id].snapshot|)
                            case ended => status == ended
  {
    if id in jobs {
      SoundRow(jobs, id);
      StatusRowSound(jobs[id], status, error);
      if StatusRow(jobs[id], status, error).Success? {
        RowWritten(jobs, id, StatusRow(jobs[id], status, error).value);
      }
      hide RowSound, RowEvolves, StatusRow, SlotOf, Sound, Evolves, OnlyWrites;
    }
  }

  /** Opening the store fails exactly the active rows, for the restart, and leaves every other row as it is. */
  lemma ReopenedSound(jobs: Jobs)
    requires Sound(jobs)
    ensures Sound(Reopened(jobs)) && Evolves(jobs, Reopened(jobs))
    ensures !AnyActive(Reopened(jobs)) && Reopened(jobs).Keys == jobs.Keys
    ensures forall id | id in jobs ::
              Reopened(jobs)[id] == if Active(jobs[id].status)
                                    then jobs[id].(status := Failed, activeSlot := None, error := Some(GatewayRestart))
                                    else jobs[id]
  {
    forall id | id in Reopened(jobs)
      ensures RowSound(Reopened(jobs)[id]) && RowEvolves(jobs[id], Reopened(jobs)[id])
    {
      assert RowSound(jobs[id]);
    }
  }

  lemma EvolvesTransitive(a: Jobs, b: Jobs, c: Jobs)
    requires Evolves(a, b) && Evolves(b, c)
    ensures Evolves(a, c)
  {
    forall id | id in a ensures id in c && RowEvolves(a[id], c[id]) {
      assert id in b && RowEvolves(a[id], b[id]);
      assert RowEvolves(b[id], c[id]);
    }
  }

  // ---------------------------------------------------------------------------
  // Any sequence of store calls, from any callers.

  datatype StoreCall =
    | CreateJob(connections: Connections, ids: seq<ConnectionId>, newId: JobId)
    | RecordResult(job: JobId, submission: Submission)
    | SetStatus(target: JobId, status: Status, error: Option<Cause>)
    | Reopen

  function Perform(jobs: Jobs, call: StoreCall): Jobs {
    var outcome := match call
      case CreateJob(connections, ids, newId) => Created(jobs, connections, ids, newId)
      case RecordResult(job, submission) => WithResult(jobs, job, submission)
      case SetStatus(job, status, error) => WithStatus(jobs, job, status, error)
      case Reopen => Success(Reopened(jobs));
    if outcome.Success? then outcome.value else jobs
  }

  function PerformAll(jobs: Jobs, calls: seq<StoreCall>): Jobs
    decreases |calls|
  {
    if calls == [] then jobs else PerformAll(Perform(jobs, calls[0]), calls[1..])
  }

  lemma PerformSound(jobs: Jobs, call: StoreCall)
    requires Sound(jobs)
    ensures Sound(Perform(jobs, call)) && Evolves(jobs, Perform(jobs, call))
  {
    match call
    case CreateJob(connections, ids, newId) => CreatedSound(jobs, connections, ids, newId);
    case RecordResult(job, submission) => WithResultSound(jobs, job, submission);
    case SetStatus(job, status, error) => WithStatusSound(jobs, job, status, error);
    case Reopen => ReopenedSound(jobs);
  }

  /** Over any run of store calls the table stays sound and terminal jobs keep their status and results. */
  lemma {:induction false} EveryRunSound(jobs: Jobs, calls: seq<StoreCall>)
    requires Sound(jobs)
    ensures Sound(PerformAll(jobs, calls)) && Evolves(jobs, PerformAll(jobs, calls))
    decreases |calls|
  {
    if calls != [] {
      var next := Perform(jobs, calls[0]);
      PerformSound(jobs, calls[0]);
      EveryRunSound(next, calls[1..]);
      EvolvesTransitive(jobs, next, PerformAll(next, calls[1..]));
    }
  }
}
