/** Replaying the audit log rebuilds the route table. */
module RouteReplay {
  import opened Wrappers
  import opened RouteAudit

  // ---------------------------------------------------------------------------
  // Replay.

  predicate Concerns(row: AuditRow, c: ConnectionId) {
    row.outcome.Succeeded? && row.connectionId == c && row.resourceId.Some?
  }

  function Replayed(state: Routes, row: AuditRow, c: ConnectionId): Routes {
    if !Concerns(row, c) then state
    else if row.after.Some? then state[row.resourceId.value := row.after.value]
    else state - {row.resourceId.value}
  }

  /** Folds the succeeded records of one device, oldest first, over its seed routes. */
  function Replay(seeds: Routes, log: seq<AuditRow>, c: ConnectionId): Routes
    decreases |log|
  {
    if log == [] then seeds else Replayed(Replay(seeds, log[..|log| - 1], c), log[|log| - 1], c)
  }

  function ScrubbedAll(routes: Routes, lib: Libraries): Routes {
    map id | id in routes :: Scrubbed(routes[id], lib)
  }

  function Lookup(routes: Routes, id: RouteId): Option<Route> {
    if id in routes then Some(routes[id]) else None
  }

  /** Each succeeded record's before-state is what the replay of the earlier records holds for its route. */
  ghost predicate Chained(seeds: Routes, log: seq<AuditRow>, c: ConnectionId) {
    forall k | 0 <= k < |log| && Concerns(log[k], c) ::
      log[k].before == Lookup(Replay(seeds, log[..k], c), log[k].resourceId.value)
  }

  // ---------------------------------------------------------------------------
  // The invariant.

  predicate UniqueDestinations(routes: Routes) {
    forall i, j | i in routes && j in routes && i != j ::
      routes[i].connectionId != routes[j].connectionId || routes[i].destination != routes[j].destination
  }

  ghost predicate DeviceOk(db: Tables, c: ConnectionId, lib: Libraries) {
    if c in db.seeded then
      && Replay(ScrubbedAll(db.seeded[c], lib), db.log, c) == ScrubbedAll(RoutesOf(db.routes, c), lib)
      && Chained(ScrubbedAll(db.seeded[c], lib), db.log, c)
    else forall k | 0 <= k < |db.log| :: !Concerns(db.log[k], c)
  }

  predicate SeedsParse(lib: Libraries) {
    lib.addresses("198.51.100.0/24", "192.0.2.1").Some? && lib.addresses("2001:db8:2::/64", "2001:db8:1::1").Some?
  }

  /** The two routes every simulated device starts with. */
  function FirstSeed(c: ConnectionId, lib: Libraries): Route
    requires SeedsParse(lib)
  {
    var (network, hop) := lib.addresses("198.51.100.0/24", "192.0.2.1").value;
    Route(c, network, hop, Interface("eth0"), 10, "Simulated documentation route", true)
  }

  function SecondSeed(c: ConnectionId, lib: Libraries): Route
    requires SeedsParse(lib)
  {
    var (network, hop) := lib.addresses("2001:db8:2::/64", "2001:db8:1::1").value;
    Route(c, network, hop, Interface("eth1"), 20, "Simulated IPv6 documentation route", true)
  }

  /** The routes are exactly the two seed routes of a device, under two distinct identifiers. */
  ghost predicate AreSeeds(routes: Routes, c: ConnectionId, lib: Libraries) {
    SeedsParse(lib) && exists a, b :: TwoRoutes(routes, a, FirstSeed(c, lib), b, SecondSeed(c, lib))
  }

  /** What validation makes of the two seed payloads. */
  lemma SeedsValidated(c: ConnectionId, lib: Libraries)
    ensures var first, second := Validated(c, SeedPayloads()[0], lib), Validated(c, SeedPayloads()[1], lib);
            && (first.Success? && second.Success? <==> SeedsParse(lib))
            && (first.Success? && second.Success? ==> first.value == FirstSeed(c, lib) && second.value == SecondSeed(c, lib))
  {
    SeedTexts();
    SeedInterfaces();
    hide PlainText, KnownInterface;
  }

  lemma SeedTexts()
    ensures PlainText("Simulated documentation route", 200) && PlainText("Simulated IPv6 documentation route", 200)
  {
  }

  lemma SeedInterfaces()
    ensures KnownInterface(Interface("eth0")) && KnownInterface(Interface("eth1"))
  {
  }

  predicate TwoRoutes(routes: Routes, a: RouteId, first: Route, b: RouteId, second: Route) {
    a != b && routes == map[a := first, b := second]
  }

  lemma SeedsCount(routes: Routes, c: ConnectionId, lib: Libraries)
    requires AreSeeds(routes, c, lib)
    ensures |routes| == 2
  {
    hide FirstSeed, SecondSeed;
    var a, b :| TwoRoutes(routes, a, FirstSeed(c, lib), b, SecondSeed(c, lib));
    assert routes.Keys == {a, b};
    assert |routes| == |routes.Keys|;
  }

  ghost predicate Inv(db: Tables, lib: Libraries) {
    && (forall c | c in db.seeded :: AreSeeds(db.seeded[c], c, lib))
    && db.seeded.Keys <= db.devices.Keys
    && (forall c | c in db.devices :: lib.uuid(c) == Some(c))
    && (forall id | id in db.routes :: db.routes[id].connectionId in db.seeded)
    && UniqueDestinations(db.routes)
    && (forall c | c in db.devices :: DeviceOk(db, c, lib))
  }

  // ---------------------------------------------------------------------------
  // Appending one record.

  lemma ReplayAppend(seeds: Routes, log: seq<AuditRow>, row: AuditRow, c: ConnectionId)
    ensures Replay(seeds, log + [row], c) == Replayed(Replay(seeds, log, c), row, c)
  {
    assert (log + [row])[..|log|] == log;
  }

  lemma ChainedAppend(seeds: Routes, log: seq<AuditRow>, row: AuditRow, c: ConnectionId)
    requires Chained(seeds, log, c)
    requires Concerns(row, c) ==> row.before == Lookup(Replay(seeds, log, c), row.resourceId.value)
    ensures Chained(seeds, log + [row], c)
  {
    var longer := log + [row];
    forall k | 0 <= k < |longer| && Concerns(longer[k], c)
      ensures longer[k].before == Lookup(Replay(seeds, longer[..k], c), longer[k].resourceId.value)
    {
      if k < |log| {
        assert longer[..k] == log[..k];
      } else {
        assert longer[..k] == log;
      }
    }
  }

  lemma {:induction false} ReplayUnconcerned(seeds: Routes, log: seq<AuditRow>, c: ConnectionId)
    requires forall k | 0 <= k < |log| :: !Concerns(log[k], c)
    ensures Replay(seeds, log, c) == seeds && Chained(seeds, log, c)
    decreases |log|
  {
    if log != [] {
      ReplayUnconcerned(seeds, log[..|log| - 1], c);
    }
  }

  /** A record about another device, or of a failed attempt, changes nothing for this one. */
  lemma OtherRecord(db: Tables, row: AuditRow, c: ConnectionId, lib: Libraries)
    requires DeviceOk(db, c, lib) && !Concerns(row, c)
    ensures DeviceOk(db.(log := db.log + [row]), c, lib)
  {
    if c in db.seeded {
      var seeds := ScrubbedAll(db.seeded[c], lib);
      ReplayAppend(seeds, db.log, row, c);
      ChainedAppend(seeds, db.log, row, c);
    }
  }

  // ---------------------------------------------------------------------------
  // Initialisation.

  lemma InsertedUnique(routes: Routes, id: RouteId, row: Route)
    requires UniqueDestinations(routes)
    ensures var r := Inserted(routes, id, row); r.Success? ==>
              && UniqueDestinations(r.value) && id !in routes && r.value == routes[id := row] && |r.value| == |routes| + 1
              && (forall other | other in routes :: other in r.value && r.value[other] == routes[other])
  {
  }

  lemma {:induction false} SeedRowsKeep(routes: Routes, c: ConnectionId, n: nat, ids: FreshIds, lib: Libraries)
    requires n <= 2 && UniqueDestinations(routes)
    ensures var r := SeedRows(routes, c, n, ids, lib); r.Success? ==>
              && UniqueDestinations(r.value)
              && (forall id | id in routes :: id in r.value && r.value[id] == routes[id])
              && (forall id | id in r.value && id !in routes :: r.value[id].connectionId == c)
              && |r.value| == |routes| + n
  {
    if n > 0 {
      SeedRowsKeep(routes, c, n - 1, ids, lib);
      var some := SeedRows(routes, c, n - 1, ids, lib);
      var valid := Validated(c, SeedPayloads()[n - 1], lib);
      if some.Success? && valid.Success? {
        ValidatedOwner(c, SeedPayloads()[n - 1], lib);
        hide Validated, SeedPayloads, UniqueDestinations, Taken;
        InsertedUnique(some.value, if n == 1 then ids.seed0 else ids.seed1, valid.value);
      }
    }
  }

  /** What both insertions add to a table without rows of the device is exactly its two seed routes. */
  lemma SeedRowsAreSeeds(routes: Routes, c: ConnectionId, ids: FreshIds, lib: Libraries)
    requires UniqueDestinations(routes) && RoutesOf(routes, c) == map[]
    ensures var r := SeedRows(routes, c, 2, ids, lib); r.Success? ==> AreSeeds(RoutesOf(r.value, c), c, lib)
  {
    var r := SeedRows(routes, c, 2, ids, lib);
    if r.Success? {
      var first, second := Validated(c, SeedPayloads()[0], lib), Validated(c, SeedPayloads()[1], lib);
      ValidatedOwner(c, SeedPayloads()[0], lib);
      ValidatedOwner(c, SeedPayloads()[1], lib);
      TwoInsertions(routes, c, ids, lib);
      SeedsValidated(c, lib);
      hide Validated, SeedPayloads, SeedRows, UniqueDestinations, RoutesOf, FirstSeed, SecondSeed, SeedsParse;
      RoutesOfTwo(routes, c, ids.seed0, first.value, ids.seed1, second.value);
    }
  }

  lemma TwoInsertions(routes: Routes, c: ConnectionId, ids: FreshIds, lib: Libraries)
    requires SeedRows(routes, c, 2, ids, lib).Success?
    ensures ids.seed0 !in routes && ids.seed1 !in routes && ids.seed0 != ids.seed1
    ensures var first, second := Validated(c, SeedPayloads()[0], lib), Validated(c, SeedPayloads()[1], lib);
            && first.Success? && second.Success?
            && SeedRows(routes, c, 2, ids, lib).value == routes[ids.seed0 := first.value][ids.seed1 := second.value]
  {
    hide Validated, SeedPayloads, Taken;
    assert SeedRows(routes, c, 0, ids, lib) == Success(routes);
    assert SeedRows(routes, c, 1, ids, lib).Success?;
  }

  lemma RoutesOfTwo(routes: Routes, c: ConnectionId, a: RouteId, first: Route, b: RouteId, second: Route)
    requires RoutesOf(routes, c) == map[] && a != b && first.connectionId == c && second.connectionId == c
    ensures TwoRoutes(RoutesOf(routes[a := first][b := second], c), a, first, b, second)
  {
    assert forall id | id in routes && routes[id].connectionId == c :: id in RoutesOf(routes, c);
  }

  /** Rows added for one device leave every other device's view alone. */
  lemma OtherViews(before: Routes, after: Routes, c: ConnectionId)
    requires forall id | id in before :: id in after && after[id] == before[id]
    requires forall id | id in after && id !in before :: after[id].connectionId == c
    ensures forall other | other != c :: RoutesOf(after, other) == RoutesOf(before, other)
  {
    forall other | other != c ensures RoutesOf(after, other) == RoutesOf(before, other) {
    }
  }

  /** A first initialisation touches only its own device, whose replay starts from what it inserted. */
  lemma SeededOk(db: Tables, routes: Routes, c: ConnectionId, lib: Libraries)
    requires Inv(db, lib) && c in db.devices && c !in db.seeded
    requires UniqueDestinations(routes)
    requires forall id | id in db.routes :: id in routes && routes[id] == db.routes[id]
    requires forall id | id in routes && id !in db.routes :: routes[id].connectionId == c
    requires AreSeeds(RoutesOf(routes, c), c, lib)
    ensures var next := db.(routes := routes, seeded := db.seeded[c := RoutesOf(routes, c)]);
            Inv(next, lib) && forall other | other != c :: RoutesOf(routes, other) == RoutesOf(db.routes, other)
  {
    hide Scrubbed, UniqueDestinations, AreSeeds, DeviceOk, RoutesOf;
    OtherViews(db.routes, routes, c);
    var next := db.(routes := routes, seeded := db.seeded[c := RoutesOf(routes, c)]);
    forall device | device in next.devices ensures DeviceOk(next, device, lib) {
      assert DeviceOk(db, device, lib);
      SeededDevice(db, next, c, device, lib);
    }
  }

  lemma SeededDevice(db: Tables, next: Tables, c: ConnectionId, device: ConnectionId, lib: Libraries)
    requires DeviceOk(db, device, lib) && c !in db.seeded
    requires next == db.(routes := next.routes, seeded := db.seeded[c := RoutesOf(next.routes, c)])
    requires forall other | other != c :: RoutesOf(next.routes, other) == RoutesOf(db.routes, other)
    ensures DeviceOk(next, device, lib)
  {
    hide RoutesOf, ScrubbedAll, Replay, Chained;
    if device == c {
      ReplayUnconcerned(ScrubbedAll(next.seeded[c], lib), next.log, c);
    }
  }

  lemma NoRoutesYet(db: Tables, c: ConnectionId, lib: Libraries)
    requires Inv(db, lib) && c !in db.seeded
    ensures RoutesOf(db.routes, c) == map[]
  {
  }

  lemma InitializedKeeps(db: Tables, c: ConnectionId, ids: FreshIds, lib: Libraries)
    requires Inv(db, lib)
    ensures var r := Initialized(db, c, ids, lib); r.Success? ==>
              Inv(r.value, lib) && c in r.value.seeded && r.value.log == db.log && r.value.devices == db.devices
              && forall other | other != c :: RoutesOf(r.value.routes, other) == RoutesOf(db.routes, other)
  {
    hide SeedRows, DeviceOk, RoutesOf, AreSeeds;
    var r := Initialized(db, c, ids, lib);
    if r.Success? && c !in db.seeded {
      NoRoutesYet(db, c, lib);
      SeedRowsKeep(db.routes, c, 2, ids, lib);
      SeedRowsAreSeeds(db.routes, c, ids, lib);
      SeededOk(db, r.value.routes, c, lib);
    }
  }

  // ---------------------------------------------------------------------------
  // Mutations.

  /** The new table and its record agree: replaying the record on the old view gives the new view. */
  ghost predicate Faithful(db: Tables, routes: Routes, row: AuditRow, c: ConnectionId, lib: Libraries) {
    && Concerns(row, c)
    && row.before == Lookup(ScrubbedAll(RoutesOf(db.routes, c), lib), row.resourceId.value)
    && Replayed(ScrubbedAll(RoutesOf(db.routes, c), lib), row, c) == ScrubbedAll(RoutesOf(routes, c), lib)
    && (forall other | other != c :: RoutesOf(routes, other) == RoutesOf(db.routes, other))
    && (forall id | id in routes :: routes[id].connectionId in db.seeded)
    && UniqueDestinations(routes)
  }

  lemma FaithfulKeeps(db: Tables, routes: Routes, row: AuditRow, c: ConnectionId, lib: Libraries)
    requires Inv(db, lib) && c in db.seeded && Faithful(db, routes, row, c, lib)
    ensures Inv(db.(routes := routes, log := db.log + [row]), lib)
  {
    hide Scrubbed, RoutesOf, UniqueDestinations, AreSeeds;
    var next := db.(routes := routes, log := db.log + [row]);
    forall device | device in next.devices ensures DeviceOk(next, device, lib) {
      assert DeviceOk(db, device, lib);
      if device == c {
        var seeds := ScrubbedAll(db.seeded[c], lib);
        ReplayAppend(seeds, db.log, row, c);
        ChainedAppend(seeds, db.log, row, c);
      } else {
        OtherRecord(db, row, device, lib);
      }
    }
  }

  /** Writing one route of a device changes that device's view at that route only. */
  lemma WrittenView(routes: Routes, c: ConnectionId, id: RouteId, row: Route, lib: Libraries)
    requires row.connectionId == c && (id in routes ==> routes[id].connectionId == c)
    ensures ScrubbedAll(RoutesOf(routes[id := row], c), lib)
            == ScrubbedAll(RoutesOf(routes, c), lib)[id := Scrubbed(row, lib)]
    ensures forall other | other != c :: RoutesOf(routes[id := row], other) == RoutesOf(routes, other)
  {
    hide Scrubbed;
    forall other | other != c ensures RoutesOf(routes[id := row], other) == RoutesOf(routes, other) {
    }
  }

  lemma WrittenUnique(routes: Routes, c: ConnectionId, id: RouteId, row: Route)
    requires UniqueDestinations(routes) && row.connectionId == c && !Taken(routes, c, row.destination, id)
    ensures UniqueDestinations(routes[id := row])
  {
  }

  lemma WriteFaithful(db: Tables, c: ConnectionId, id: RouteId, row: Route, action: Action, lib: Libraries)
    requires UniqueDestinations(db.routes) && c in db.seeded && row.connectionId == c
    requires forall other | other in db.routes :: db.routes[other].connectionId in db.seeded
    requires id in db.routes ==> db.routes[id].connectionId == c
    requires !Taken(db.routes, c, row.destination, id)
    ensures Faithful(db, db.routes[id := row],
                     AuditRow(action, Some(id), c, Succeeded, ScrubbedOption(Lookup(db.routes, id), lib),
                              Some(Scrubbed(row, lib))), c, lib)
  {
    WrittenView(db.routes, c, id, row, lib);
    WrittenUnique(db.routes, c, id, row);
    hide Scrubbed, UniqueDestinations, Taken;
  }

  lemma DeleteFaithful(db: Tables, c: ConnectionId, id: RouteId, lib: Libraries)
    requires UniqueDestinations(db.routes) && c in db.seeded
    requires forall other | other in db.routes :: db.routes[other].connectionId in db.seeded
    requires id in db.routes && db.routes[id].connectionId == c
    ensures Faithful(db, db.routes - {id},
                     AuditRow(DeleteRoute, Some(id), c, Succeeded, Some(Scrubbed(db.routes[id], lib)), None), c, lib)
  {
    hide Scrubbed;
    var routes := db.routes - {id};
    assert ScrubbedAll(RoutesOf(routes, c), lib) == ScrubbedAll(RoutesOf(db.routes, c), lib) - {id};
    forall other | other != c ensures RoutesOf(routes, other) == RoutesOf(db.routes, other) {
    }
  }

  /** What a successful mutation does: one succeeded record for this device, no other device touched. */
  ghost predicate Mutation(db: Tables, next: Tables, c: ConnectionId) {
    && next.devices == db.devices && db.seeded.Keys + {c} == next.seeded.Keys
    && |next.log| == |db.log| + 1 && db.log == next.log[..|db.log|]
    && Concerns(next.log[|db.log|], c)
    && (forall other | other != c :: RoutesOf(next.routes, other) == RoutesOf(db.routes, other))
  }

  lemma ValidatedOwner(c: ConnectionId, p: Payload, lib: Libraries)
    ensures var r := Validated(c, p, lib); r.Success? ==> r.value.connectionId == c
  {
  }

  /** A faithful write recorded by the log keeps the invariant, also when it follows the device's first initialisation. */
  lemma RecordedKeeps(db: Tables, ready: Tables, next: Tables, row: AuditRow, c: ConnectionId, lib: Libraries)
    requires Inv(ready, lib) && c in ready.seeded && ready.log == db.log && ready.devices == db.devices
    requires ready.seeded.Keys == db.seeded.Keys + {c}
    requires forall other | other != c :: RoutesOf(ready.routes, other) == RoutesOf(db.routes, other)
    requires next == ready.(routes := next.routes, log := ready.log + [row])
    requires Faithful(ready, next.routes, row, c, lib)
    ensures Inv(next, lib) && Mutation(db, next, c)
  {
    FaithfulKeeps(ready, next.routes, row, c, lib);
    hide Inv, DeviceOk, RoutesOf, ScrubbedAll, UniqueDestinations, Replayed;
  }

  lemma CreateKeeps(db: Tables, c: ConnectionId, p: Payload, meta: Metadata, ids: FreshIds, lib: Libraries)
    requires Inv(db, lib)
    ensures var r := CreateAudited(db, c, p, meta, ids, lib); r.Success? ==> Inv(r.value, lib) && Mutation(db, r.value, c)
  {
    hide Initialized, Validated, Scrubbed, DeviceOk, RoutesOf, AreSeeds, Mutation, Faithful, UniqueDestinations, Taken;
    InitializedKeeps(db, c, ids, lib);
    ValidatedOwner(c, p, lib);
    InitializedSeeds(db, c, ids, lib);
    var r := CreateAudited(db, c, p, meta, ids, lib);
    if r.Success? {
      var ready, row := Initialized(db, c, ids, lib).value, Validated(c, p, lib).value;
      WriteFaithful(ready, c, ids.route, row, CreateRoute, lib);
      RecordedKeeps(db, ready, r.value, r.value.log[|db.log|], c, lib);
    }
  }

  lemma UpdateKeeps(db: Tables, c: ConnectionId, id: RouteId, p: Payload, meta: Metadata, ids: FreshIds, lib: Libraries)
    requires Inv(db, lib)
    ensures var r := UpdateAudited(db, c, id, p, meta, ids, lib); r.Success? ==> Inv(r.value, lib) && Mutation(db, r.value, c)
  {
    hide Initialized, Validated, Scrubbed, DeviceOk, RoutesOf, AreSeeds, Mutation, Faithful, UniqueDestinations, Taken;
    InitializedKeeps(db, c, ids, lib);
    ValidatedOwner(c, p, lib);
    InitializedSeeds(db, c, ids, lib);
    var r := UpdateAudited(db, c, id, p, meta, ids, lib);
    if r.Success? {
      var ready, row := Initialized(db, c, ids, lib).value, Validated(c, p, lib).value;
      WriteFaithful(ready, c, id, row, UpdateRoute, lib);
      RecordedKeeps(db, ready, r.value, r.value.log[|db.log|], c, lib);
    }
  }

  lemma DeleteKeeps(db: Tables, c: ConnectionId, id: RouteId, meta: Metadata, ids: FreshIds, lib: Libraries)
    requires Inv(db, lib)
    ensures var r := DeleteAudited(db, c, id, meta, ids, lib); r.Success? ==> Inv(r.value, lib) && Mutation(db, r.value, c)
  {
    hide Initialized, Scrubbed, DeviceOk, RoutesOf, AreSeeds, Mutation, Faithful, UniqueDestinations;
    InitializedKeeps(db, c, ids, lib);
    InitializedSeeds(db, c, ids, lib);
    var r := DeleteAudited(db, c, id, meta, ids, lib);
    if r.Success? {
      var ready := Initialized(db, c, ids, lib).value;
      DeleteFaithful(ready, c, id, lib);
      RecordedKeeps(db, ready, r.value, r.value.log[|db.log|], c, lib);
    }
  }

  lemma InitializedSeeds(db: Tables, c: ConnectionId, ids: FreshIds, lib: Libraries)
    ensures var r := Initialized(db, c, ids, lib); r.Success? ==>
              c in db.devices && r.value.seeded.Keys == db.seeded.Keys + {c}
              && (c in db.seeded ==> r.value == db)
              && forall other | other in db.seeded :: r.value.seeded[other] == db.seeded[other]
  {
    hide SeedRows;
  }
}
