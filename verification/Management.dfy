/** The glue between connection testers and the job table. */
module Management {
  import opened Wrappers
  import opened JobTable

  /** The duration a tester reports: missing, not convertible to a float, or a float. */
  datatype ReportedDuration = Missing | Unconvertible | Reported(value: Number)

  /** What a tester does: raise (or return something that is not a dictionary), or return a dictionary. */
  datatype TesterReply = Raised | Returned(success: Flag, duration: ReportedDuration)

  /** The milliseconds a monotonic clock has counted during a test. */
  type Elapsed = t: real | t >= 0.0

  /** check_test_provider: a fake device needs the fake provider, an unknown client type is refused. */
  predicate ProviderAllows(fakeEnabled: bool, clientType: ClientType) {
    clientType == Network || (clientType == Fake && fakeEnabled)
  }

  /** safe_test: whatever the tester does, a dictionary that names no exception comes back. */
  function SafeTest(reply: TesterReply, simulated: bool, elapsed: Elapsed): Submission {
    var failed := Submission(None, Some(Finite(elapsed)), Is(false), Is(simulated));
    match reply
    case Raised => failed
    case Returned(success, duration) =>
      match duration
      case Unconvertible => failed
      case Missing => Submission(None, Some(Finite(elapsed)), Is(success == Is(true)), Is(simulated))
      case Reported(value) =>
        var kept := if ValidDuration(value) then value else Finite(elapsed);
        Submission(None, Some(kept), Is(success == Is(true)), Is(simulated))
  }

  /** test_profile followed by the worker's result.update: the submission for one snapshot item. */
  function TestItem(item: SnapshotItem, reply: TesterReply, elapsed: Elapsed): Submission {
    SafeTest(reply, item.profile.clientType.Fake?, elapsed).(connectionId := Some(item.id))
  }

  /** The snapshot item behind an identifier is found under its own position. */
  lemma ItemFound(items: seq<SnapshotItem>, k: nat)
    requires k < |items| && Distinct(SnapshotIds(items))
    ensures Find(items, items[k].id) == Some(k)
  {
    hide Find, SnapshotIds, Distinct;
    var ids, id := SnapshotIds(items), items[k].id;
    assert ids[k] == id;
    assert Find(items, id).Some?;
    var at := Find(items, id).value;
    assert ids[at] == id;
    SamePlace(ids, at, k);
  }

  lemma SamePlace<T>(s: seq<T>, i: nat, j: nat)
    requires Distinct(s) && i < |s| && j < |s| && s[i] == s[j]
    ensures i == j
  {
  }

  /** A job with the first k results in order has none for item k. */
  lemma NotYetRecorded(row: JobRow)
    requires Distinct(SnapshotIds(row.snapshot)) && |row.results| < |row.snapshot|
    requires ResultIds(row.results) == SnapshotIds(row.snapshot)[..|row.results|]
    ensures !Recorded(row, row.snapshot[|row.results|].id)
  {
    var ids := SnapshotIds(row.snapshot);
    forall j | 0 <= j < |row.results| ensures row.results[j].connectionId != row.snapshot[|row.results|].id {
      assert ResultIds(row.results)[j] == ids[j] && ids[j] != ids[|row.results|];
    }
  }

  /** A tester's own statement of success; a reply whose duration is no number counts as none. */
  predicate ClaimsSuccess(reply: TesterReply) {
    reply.Returned? && reply.success == Is(true) && !reply.duration.Unconvertible?
  }

  /** The tester's duration if it is a finite number that is not negative, and the measured one otherwise. */
  function TimeTaken(reply: TesterReply, elapsed: Elapsed): real {
    if reply.Returned? && reply.duration.Reported? && reply.duration.value.Finite? && reply.duration.value.value >= 0.0
    then reply.duration.value.value else elapsed
  }

  /** What a stored result says about the device it tested and about what its tester did. */
  predicate Reports(x: ResultRow, item: SnapshotItem, reply: TesterReply, elapsed: Elapsed) {
    && x.connectionId == item.id && x.protocol == item.profile.protocol && x.port == item.profile.port
    && x.connectorType == item.profile.connectorType && (x.simulated <==> item.profile.clientType == Fake)
    && (x.success <==> ClaimsSuccess(reply)) && x.duration == TimeTaken(reply, elapsed)
  }

  /** What a test submits passes every field check and says what its tester did. */
  lemma SubmissionIsValid(item: SnapshotItem, reply: TesterReply, elapsed: Elapsed)
    ensures var t := TestItem(item, reply, elapsed);
            && t.connectionId == Some(item.id) && DurationOf(t) == Finite(TimeTaken(reply, elapsed)) && ValidDuration(DurationOf(t))
            && t.success == Is(ClaimsSuccess(reply)) && t.simulated == Is(item.profile.clientType.Fake?)
  {
  }

  /** The next snapshot item of a running job can always be recorded, whatever its tester did. */
  lemma TestItemIsRecorded(row: JobRow, reply: TesterReply, elapsed: Elapsed)
    requires RowSound(row) && Active(row.status)
    requires |row.results| < |row.snapshot|
    requires ResultIds(row.results) == SnapshotIds(row.snapshot)[..|row.results|]
    ensures var item := row.snapshot[|row.results|];
            var r := RecordedRow(row, TestItem(item, reply, elapsed));
            && r.Success?
            && r.value == row.(results := r.value.results, completed := |row.results| + 1)
            && |r.value.results| == |row.results| + 1
            && ResultIds(r.value.results) == SnapshotIds(row.snapshot)[..|row.results| + 1]
            && r.value.results[..|row.results|] == row.results
            && Reports(r.value.results[|row.results|], item, reply, elapsed)
  {
    hide Find, Recorded, TestItem, DurationOf, ValidDuration, Distinct, SnapshotIds, ResultIds, TimeTaken, ClaimsSuccess;
    var k := |row.results|;
    ItemFound(row.snapshot, k);
    NotYetRecorded(row);
    SubmissionIsValid(row.snapshot[k], reply, elapsed);
    var ids := SnapshotIds(row.snapshot);
    var r := RecordedRow(row, TestItem(row.snapshot[k], reply, elapsed));
    assert ResultIds(r.value.results) == ResultIds(row.results) + [ids[k]];
    assert ids[..k + 1] == ids[..k] + [ids[k]];
  }
}
