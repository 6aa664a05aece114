/** What the audited route table promises over whole runs of the service. */
module RouteProperties {
  import opened Wrappers
  import opened RouteAudit
  import opened RouteReplay

  /** A failed attempt is recorded exactly when its record is valid and the storage works. */
  predicate FailureRecordable(c: ConnectionId, request: Request, meta: Metadata, storage: Storage, lib: Libraries) {
    && storage.failureRecord && meta.valid && lib.uuid(c).Some?
    && (Named(request).Some? ==> PlainText(Named(request).value, 64))
  }

  lemma FailureKeeps(db: Tables, c: ConnectionId, request: Request, meta: Metadata, storage: Storage, lib: Libraries)
    requires Inv(db, lib)
    ensures var next := FailureRecorded(db, c, request, meta, storage, lib);
            && Inv(next, lib)
            && next.routes == db.routes && next.seeded == db.seeded && next.devices == db.devices
            && (if FailureRecordable(c, request, meta, storage, lib)
                then next.log == db.log + [AuditRow(ActionOf(request), Named(request), lib.uuid(c).value, Failed, None, None)]
                else next.log == db.log)
  {
    hide DeviceOk, AreSeeds, UniqueDestinations, PlainText;
    var next := FailureRecorded(db, c, request, meta, storage, lib);
    if next.log != db.log {
      forall device | device in next.devices ensures DeviceOk(next, device, lib) {
        assert DeviceOk(db, device, lib);
        OtherRecord(db, next.log[|db.log|], device, lib);
      }
    }
  }

  lemma MutatedKeeps(db: Tables, c: ConnectionId, request: Request, meta: Metadata, ids: FreshIds, fakeEnabled: bool,
                     storage: Storage, lib: Libraries)
    requires Inv(db, lib)
    ensures var r := Mutated(db, c, request, meta, ids, fakeEnabled, storage, lib);
            r.Success? ==> Inv(r.value, lib) && Mutation(db, r.value, c)
  {
    hide Inv, Mutation, CreateAudited, UpdateAudited, DeleteAudited;
    match request
    case Create(payload) => CreateKeeps(db, c, payload, meta, ids, lib);
    case Update(id, payload) => UpdateKeeps(db, c, id, payload, meta, ids, lib);
    case Delete(id) => DeleteKeeps(db, c, id, meta, ids, lib);
  }

  /** A request either changes one device with exactly one succeeded record, or changes no table and may leave a failed record. */
  lemma RequestIsAtomic(db: Tables, c: ConnectionId, request: Request, meta: Metadata, ids: FreshIds, fakeEnabled: bool,
                        storage: Storage, lib: Libraries)
    requires Inv(db, lib)
    ensures var (next, r) := Handled(db, c, request, meta, ids, fakeEnabled, storage, lib);
            && Inv(next, lib)
            && (r.Success? ==> Mutation(db, next, c))
            && (r.Failure? ==>
                  && next.routes == db.routes && next.seeded == db.seeded && next.devices == db.devices
                  && (if FailureRecordable(c, request, meta, storage, lib)
                      then |next.log| == |db.log| + 1 && next.log[..|db.log|] == db.log && next.log[|db.log|].outcome.Failed?
                      else next.log == db.log))
  {
    MutatedKeeps(db, c, request, meta, ids, fakeEnabled, storage, lib);
    FailureKeeps(db, c, request, meta, storage, lib);
    hide Inv, Mutation, Mutated, FailureRecorded;
  }

  // ---------------------------------------------------------------------------
  // Runs.

  datatype Step =
    | Serve(c: ConnectionId, request: Request, meta: Metadata, ids: FreshIds, fakeEnabled: bool, storage: Storage)
    | List(c: ConnectionId, ids: FreshIds, fakeEnabled: bool, storage: Storage)
    | AddDevice(c: ConnectionId, device: Device)
    | EditDevice(c: ConnectionId, device: Device)
    | RemoveDevice(c: ConnectionId)

  /** A connection identifier no device has and no record names: what a new UUID is. */
  ghost predicate Unused(db: Tables, c: ConnectionId, lib: Libraries) {
    c !in db.devices && lib.uuid(c) == Some(c) && forall k | 0 <= k < |db.log| :: db.log[k].connectionId != c
  }

  ghost function Next(db: Tables, step: Step, lib: Libraries): Tables {
    match step
    case Serve(c, request, meta, ids, fakeEnabled, storage) =>
      Handled(db, c, request, meta, ids, fakeEnabled, storage, lib).0
    case List(c, ids, fakeEnabled, storage) =>
      (match Listed(db, c, ids, fakeEnabled, storage, lib)
       case Success(next) => next
       case Failure(_) => db)
    case AddDevice(c, device) => if Unused(db, c, lib) then db.(devices := db.devices[c := device]) else db
    case EditDevice(c, device) => if c in db.devices then db.(devices := db.devices[c := device]) else db
    case RemoveDevice(c) =>
      // Deleting a connection cascades to its routes and its initialisation row.
      Tables(db.devices - {c}, db.seeded - {c}, map id | id in db.routes && db.routes[id].connectionId != c :: db.routes[id],
             db.log)
  }

  ghost function Run(db: Tables, steps: seq<Step>, lib: Libraries): Tables
    decreases |steps|
  {
    if steps == [] then db else Run(Next(db, steps[0], lib), steps[1..], lib)
  }

  const EMPTY := Tables(map[], map[], map[], [])

  lemma DeviceStepKeeps(db: Tables, step: Step, lib: Libraries)
    requires Inv(db, lib) && (step.AddDevice? || step.EditDevice? || step.RemoveDevice?)
    ensures Inv(Next(db, step, lib), lib)
  {
    if step.RemoveDevice? {
      RemovalKeeps(db, step.c, lib);
    } else {
      hide Scrubbed, Replay, Chained, ScrubbedAll, RoutesOf, UniqueDestinations, AreSeeds;
      var next := Next(db, step, lib);
      forall device | device in next.devices ensures DeviceOk(next, device, lib) {
        if device in db.devices {
          assert DeviceOk(db, device, lib);
        }
      }
    }
  }

  lemma RemovalKeeps(db: Tables, c: ConnectionId, lib: Libraries)
    requires Inv(db, lib)
    ensures Inv(Next(db, RemoveDevice(c), lib), lib)
  {
    hide Scrubbed, Replay, Chained, ScrubbedAll, RoutesOf, UniqueDestinations, AreSeeds;
    RemovedRoutes(db.routes, c);
    var next := Next(db, RemoveDevice(c), lib);
    forall device | device in next.devices ensures DeviceOk(next, device, lib) {
      assert DeviceOk(db, device, lib);
    }
  }

  lemma RemovedRoutes(routes: Routes, c: ConnectionId)
    requires UniqueDestinations(routes)
    ensures var kept := map id | id in routes && routes[id].connectionId != c :: routes[id];
            UniqueDestinations(kept) && forall other | other != c :: RoutesOf(kept, other) == RoutesOf(routes, other)
  {
    var kept := map id | id in routes && routes[id].connectionId != c :: routes[id];
    forall other | other != c ensures RoutesOf(kept, other) == RoutesOf(routes, other) {
    }
  }

  lemma NextKeeps(db: Tables, step: Step, lib: Libraries)
    requires Inv(db, lib)
    ensures Inv(Next(db, step, lib), lib)
  {
    hide Inv, Handled, Initialized, Mutation;
    match step
    case Serve(c, request, meta, ids, fakeEnabled, storage) =>
      RequestIsAtomic(db, c, request, meta, ids, fakeEnabled, storage, lib);
    case List(c, ids, fakeEnabled, storage) => InitializedKeeps(db, c, ids, lib);
    case _ => DeviceStepKeeps(db, step, lib);
  }

  lemma {:induction false} RunKeeps(db: Tables, steps: seq<Step>, lib: Libraries)
    requires Inv(db, lib)
    ensures Inv(Run(db, steps, lib), lib)
    decreases |steps|
  {
    hide Inv, Next;
    if steps != [] {
      NextKeeps(db, steps[0], lib);
      RunKeeps(Next(db, steps[0], lib), steps[1..], lib);
    }
  }

  // ---------------------------------------------------------------------------
  // Conservation.

  function Gained(log: seq<AuditRow>, c: ConnectionId): nat {
    if log == [] then 0
    else
      var row := log[|log| - 1];
      Gained(log[..|log| - 1], c) + if Concerns(row, c) && row.before.None? && row.after.Some? then 1 else 0
  }

  function Lost(log: seq<AuditRow>, c: ConnectionId): nat {
    if log == [] then 0
    else
      var row := log[|log| - 1];
      Lost(log[..|log| - 1], c) + if Concerns(row, c) && row.before.Some? && row.after.None? then 1 else 0
  }

  lemma {:induction false} ReplayConserves(seeds: Routes, log: seq<AuditRow>, c: ConnectionId)
    requires Chained(seeds, log, c)
    ensures |Replay(seeds, log, c)| == |seeds| + Gained(log, c) - Lost(log, c)
    decreases |log|
  {
    if log != [] {
      var init, row := log[..|log| - 1], log[|log| - 1];
      forall k | 0 <= k < |init| && Concerns(init[k], c)
        ensures init[k].before == Lookup(Replay(seeds, init[..k], c), init[k].resourceId.value)
      {
        assert init[..k] == log[..k];
      }
      ReplayConserves(seeds, init, c);
      var state := Replay(seeds, init, c);
      if Concerns(row, c) {
        assert row.before == Lookup(state, row.resourceId.value);
        if row.after.None? && row.resourceId.value in state {
          assert (state - {row.resourceId.value}).Keys == state.Keys - {row.resourceId.value};
          assert |state.Keys| == |state|;
          assert |(state - {row.resourceId.value}).Keys| == |state - {row.resourceId.value}|;
        } else if row.after.None? {
          assert state - {row.resourceId.value} == state;
        }
      }
    }
  }

  lemma ScrubbedSize(routes: Routes, lib: Libraries)
    ensures |ScrubbedAll(routes, lib)| == |routes|
  {
    assert ScrubbedAll(routes, lib).Keys == routes.Keys;
    assert |ScrubbedAll(routes, lib).Keys| == |ScrubbedAll(routes, lib)| && |routes.Keys| == |routes|;
  }

  // ---------------------------------------------------------------------------
  // Main result.

  /**
   For every existing initialised device of every reachable store, folding its succeeded records over
   its two seed routes gives its route table (texts scrubbed), each before-state is the state of that route
   just before, and the table's size is conserved.
   */
  lemma AuditReplays(steps: seq<Step>, c: ConnectionId, lib: Libraries)
    ensures var db := Run(EMPTY, steps, lib);
            && (c in db.seeded ==> c in db.devices)
            && (c in db.seeded ==>
                  var seeds := ScrubbedAll(db.seeded[c], lib);
                  && Replay(seeds, db.log, c) == ScrubbedAll(RoutesOf(db.routes, c), lib)
                  && Chained(seeds, db.log, c)
                  && AreSeeds(db.seeded[c], c, lib)
                  && |RoutesOf(db.routes, c)| == 2 + Gained(db.log, c) - Lost(db.log, c))
            && (c !in db.seeded ==> RoutesOf(db.routes, c) == map[])
  {
    RunKeeps(EMPTY, steps, lib);
    hide Run, Scrubbed, Replay;
    var db := Run(EMPTY, steps, lib);
    if c in db.seeded {
      assert DeviceOk(db, c, lib);
      ReplayConserves(ScrubbedAll(db.seeded[c], lib), db.log, c);
      SeedsCount(db.seeded[c], c, lib);
      ScrubbedSize(db.seeded[c], lib);
      ScrubbedSize(RoutesOf(db.routes, c), lib);
    }
  }
}
