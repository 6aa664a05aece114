/** The job methods of the gateway store, each one transaction over the job table. */
module JobStore {
  import opened Wrappers
  import opened JobTable

  class JobStore {
    var jobs: Jobs
    var open: bool

    ghost predicate Valid()
      reads this
    {
      Sound(jobs)
    }

    /** Opening the store over persisted rows fails every job that still held the active slot. */
    constructor (persisted: Jobs)
      requires Sound(persisted)
      ensures Valid() && open
      ensures jobs == Reopened(persisted) && !AnyActive(jobs)
    {
      jobs := map id | id in persisted :: Interrupted(persisted[id]);
      open := true;
      ReopenedSound(persisted);
    }

    /** Commits a transaction's working copy, or rolls it back when the schema rejects it. */
    method Commit(work: Jobs) returns (accepted: bool)
      modifies this`jobs
      ensures accepted == SchemaHolds(work)
      ensures jobs == if accepted then work else old(jobs)
    {
      accepted := (forall id | id in work :: RowConstraints(work[id]))
        && (forall i, j | i in work && j in work && work[i].activeSlot.Some? && work[i].activeSlot == work[j].activeSlot :: i == j);
      if accepted {
        jobs := work;
      }
    }

    method CreateJob(connections: Connections, ids: seq<ConnectionId>, newId: JobId, storage: bool)
      returns (r: Result<JobRow, StoreError>)
      requires Valid()
      modifies this`jobs
      ensures Valid() && Evolves(old(jobs), jobs)
      ensures Created(old(jobs), connections, ids, newId) == Failure(Invalid) ==> r == Failure(Invalid)
      ensures !(open && storage) ==> r.Failure?
      ensures open && storage ==>
                match Created(old(jobs), connections, ids, newId)
                case Success(next) => jobs == next && r == Success(jobs[newId])
                case Failure(error) => r == Failure(error)
      ensures r.Failure? ==> jobs == old(jobs)
    {
      hide SchemaHolds, Sound, RowSound;
      var unique := set k | 0 <= k < |ids| :: ids[k];
      assert unique == Elements(ids);
      DistinctBySize(ids);
      if ids == [] || |ids| > 1000 || |unique| != |ids| {
        return Failure(Invalid);
      }
      if !open || !storage {
        return Failure(Unavailable);
      }
      if exists id | id in jobs :: jobs[id].activeSlot == Some(1) {
        return Failure(Conflict);
      }
      var snapshot := [];
      var k := 0;
      while k < |ids|
        invariant 0 <= k <= |ids| == |ids[..k]| + |ids[k..]|
        invariant AllKnown(connections, ids[..k])
        invariant snapshot == SnapshotOf(connections, ids[..k])
      {
        if ids[k] !in connections {
          return Failure(NotFound);
        }
        snapshot := snapshot + [SnapshotItem(ids[k], connections[ids[k]])];
        k := k + 1;
      }
      assert ids[..k] == ids;
      if newId in jobs {
        return Failure(Conflict);
      }
      CreatedSound(jobs, connections, ids, newId);
      var work := jobs[newId := JobRow(Queued, |snapshot|, 0, snapshot, [], None, Some(1))];
      SoundMeetsSchema(work);
      var accepted := Commit(work);
      if !accepted {
        return Failure(Conflict);
      }
      return Success(jobs[newId]);
    }

    method GetJobConnections(id: JobId, storage: bool) returns (r: Result<seq<SnapshotItem>, StoreError>)
      ensures r == if !(open && storage) then Failure(Unavailable)
                   else if id in jobs then Success(jobs[id].snapshot) else Failure(NotFound)
    {
      if !open || !storage {
        return Failure(Unavailable);
      }
      if id !in jobs {
        return Failure(NotFound);
      }
      return Success(jobs[id].snapshot);
    }

    /** Builds the dictionary of snapshot profiles and looks the identifier up in it. */
    static method Lookup(snapshot: seq<SnapshotItem>, id: ConnectionId) returns (profile: Option<Profile>)
      requires Distinct(SnapshotIds(snapshot))
      ensures profile.Some? <==> Find(snapshot, id).Some?
      ensures profile.Some? ==> snapshot[Find(snapshot, id).value] == SnapshotItem(id, profile.value)
    {
      var profiles: map<ConnectionId, Profile> := map[];
      var k := 0;
      while k < |snapshot|
        invariant 0 <= k <= |snapshot|
        invariant forall key :: key in profiles <==> exists j :: 0 <= j < k && snapshot[j].id == key
        invariant forall j | 0 <= j < k :: snapshot[j].id in profiles && profiles[snapshot[j].id] == snapshot[j].profile
      {
        assert forall j | 0 <= j < k :: SnapshotIds(snapshot)[j] != SnapshotIds(snapshot)[k];
        profiles := profiles[snapshot[k].id := snapshot[k].profile];
        k := k + 1;
      }
      assert id in profiles ==> exists j :: 0 <= j < |snapshot| && SnapshotIds(snapshot)[j] == id;
      profile := if id in profiles then Some(profiles[id]) else None;
    }

    /** The checks on one submission, in their order, and the row with the cleaned result appended. */
    static method AppendResult(row: JobRow, submission: Submission) returns (r: Result<JobRow, StoreError>)
      requires Distinct(SnapshotIds(row.snapshot))
      ensures r == RecordedRow(row, submission)
      ensures r.Success? <==> Recordable(row, submission)
      ensures r.Success? ==> r.value.results[..|r.value.results| - 1] == row.results
    {
      RecordedExactly(row, submission);
      hide Recordable;
      if row.status != Queued && row.status != Running {
        return Failure(Conflict);
      }
      if submission.connectionId.None? {
        return Failure(Invalid);
      }
      var item := submission.connectionId.value;
      var profile := Lookup(row.snapshot, item);
      if profile.None? {
        return Failure(Invalid);
      }
      var k := 0;
      while k < |row.results|
        invariant 0 <= k <= |row.results|
        invariant forall j | 0 <= j < k :: row.results[j].connectionId != item
      {
        if row.results[k].connectionId == item {
          return Failure(Conflict);
        }
        k := k + 1;
      }
      var duration := if submission.duration.Some? then submission.duration.value else Finite(0.0);
      if !duration.Finite? || duration.value < 0.0 {
        return Failure(Invalid);
      }
      if !submission.success.Is? {
        return Failure(Invalid);
      }
      var simulated := profile.value.clientType == Fake;
      if submission.simulated != Absent && (!submission.simulated.Is? || submission.simulated.value != simulated) {
        return Failure(Invalid);
      }
      var cleaned := ResultRow(item, profile.value.protocol, profile.value.port, profile.value.connectorType,
                               submission.success.value, simulated, duration.value);
      var results := row.results + [cleaned];
      return Success(row.(results := results, completed := |results|));
    }

    method RecordJobResult(id: JobId, submission: Submission, storage: bool) returns (r: Result<(), StoreError>)
      requires Valid()
      modifies this`jobs
      ensures Valid() && Evolves(old(jobs), jobs)
      ensures !(open && storage) ==> r == Failure(Unavailable)
      ensures open && storage ==>
                match WithResult(old(jobs), id, submission)
                case Success(next) => jobs == next && r == Success(())
                case Failure(error) => r == Failure(error)
      ensures r.Failure? ==> jobs == old(jobs)
    {
      hide SchemaHolds, Sound, RecordedRow;
      if !open || !storage {
        return Failure(Unavailable);
      }
      if id !in jobs {
        return Failure(NotFound);
      }
      SoundRow(jobs, id);
      var row := AppendResult(jobs[id], submission);
      if row.Failure? {
        return Failure(row.error);
      }
      var work := jobs[id := row.value];
      WithResultSound(jobs, id, submission);
      SoundMeetsSchema(work);
      var accepted := Commit(work);
      if !accepted {
        return Failure(Conflict);
      }
      return Success(());
    }

    /** The table of statuses that may follow each status. */
    static function Successors(status: Status): (next: set<Status>)
      ensures forall to :: to in next <==> MayBecome(status, to)
    {
      match status
      case Queued => {Queued, Running, Failed}
      case Running => {Running, Completed, Failed}
      case Completed => {Completed}
      case Failed => {Failed}
    }

    method SetJobStatus(id: JobId, status: Status, error: Option<Cause>, storage: bool) returns (r: Result<(), StoreError>)
      requires Valid()
      modifies this`jobs
      ensures Valid() && Evolves(old(jobs), jobs)
      ensures !(open && storage) ==> r == Failure(Unavailable)
      ensures open && storage ==>
                match WithStatus(old(jobs), id, status, error)
                case Success(next) => jobs == next && r == Success(())
                case Failure(code) => r == Failure(code)
      ensures r.Failure? ==> jobs == old(jobs)
    {
      hide SchemaHolds, Sound, RowSound;
      if !open || !storage {
        return Failure(Unavailable);
      }
      if id !in jobs {
        return Failure(NotFound);
      }
      var row := jobs[id];
      if status !in Successors(row.status) {
        return Failure(Conflict);
      }
      if status == Completed && row.completed != row.total {
        return Failure(Conflict);
      }
      var slot := if status == Queued || status == Running then Some(1) else None;
      var work := jobs[id := row.(status := status, activeSlot := slot, error := error)];
      WithStatusSound(jobs, id, status, error);
      SoundMeetsSchema(work);
      var accepted := Commit(work);
      if !accepted {
        return Failure(Conflict);
      }
      return Success(());
    }

    method Close()
      modifies this`open
      ensures !open
    {
      open := false;
    }
  }
}
