/** What one request against the route table does, in terms of the request itself. */
module RouteRequests {
  import opened Wrappers
  import opened RouteAudit
  import opened RouteReplay
  import opened RouteProperties

  // ---------------------------------------------------------------------------
  // What a request asks for.

  /** A body with every field, each of them acceptable. */
  predicate Acceptable(p: Payload, lib: Libraries) {
    && p.complete && p.destination.Some? && p.nextHop.Some?
    && lib.addresses(p.destination.value, p.nextHop.value).Some?
    && (p.interfaceName.Interface? ==> p.interfaceName.name in {"eth0", "eth1", "lo"}) && !p.interfaceName.BadInterface?
    && p.metric.Some? && 0 <= p.metric.value <= 65535
    && p.description.Some? && |p.description.value| <= 200 && '\0' !in p.description.value
    && p.enabled.Some?
  }

  /** The route a body asks for: its own fields, with both addresses in canonical form. */
  predicate AsRequested(row: Route, c: ConnectionId, p: Payload, lib: Libraries)
    requires Acceptable(p, lib)
  {
    && row.connectionId == c
    && (row.destination, row.nextHop) == lib.addresses(p.destination.value, p.nextHop.value).value
    && row.interfaceName == p.interfaceName && Some(row.metric) == p.metric
    && Some(row.description) == p.description && Some(row.enabled) == p.enabled
  }

  lemma ValidatedAsRequested(c: ConnectionId, p: Payload, lib: Libraries)
    ensures Validated(c, p, lib).Success? <==> Acceptable(p, lib)
    ensures Acceptable(p, lib) ==> AsRequested(Validated(c, p, lib).value, c, p, lib)
  {
  }

  // ---------------------------------------------------------------------------
  // The table a request works on.

  predicate HasDestination(routes: Routes, c: ConnectionId, destination: string, besides: RouteId) {
    exists id | id in routes :: id != besides && routes[id].connectionId == c && routes[id].destination == destination
  }

  /** A device can be used: it has been initialised, or its two seed routes fit under the fresh identifiers. */
  predicate Initializable(db: Tables, c: ConnectionId, ids: FreshIds, lib: Libraries) {
    c in db.seeded
    || (&& SeedsParse(lib)
        && ids.seed0 !in db.routes && ids.seed1 !in db.routes && ids.seed0 != ids.seed1
        && FirstSeed(c, lib).destination != SecondSeed(c, lib).destination)
  }

  /** The routes of all devices once this one is initialised. */
  function Ready(db: Tables, c: ConnectionId, ids: FreshIds, lib: Libraries): Routes
    requires Initializable(db, c, ids, lib)
  {
    if c in db.seeded then db.routes
    else db.routes[ids.seed0 := FirstSeed(c, lib)][ids.seed1 := SecondSeed(c, lib)]
  }

  lemma InitializedExactly(db: Tables, c: ConnectionId, ids: FreshIds, lib: Libraries)
    requires Inv(db, lib)
    ensures var r := Initialized(db, c, ids, lib);
            && (r.Success? <==> c in db.devices && db.devices[c].fake && Initializable(db, c, ids, lib))
            && (r.Success? ==>
                  && r.value.routes == Ready(db, c, ids, lib)
                  && r.value.devices == db.devices && r.value.log == db.log && r.value.seeded.Keys == db.seeded.Keys + {c})
  {
    hide SeedRows, DeviceOk, RoutesOf, AreSeeds, UniqueDestinations, FirstSeed, SecondSeed, SeedsParse;
    if c in db.devices && c !in db.seeded {
      NoRoutesYet(db, c, lib);
      SeedsExactly(db.routes, c, ids, lib);
    }
  }

  /** Both seeds can be inserted exactly when they parse, differ and find their identifiers free. */
  lemma SeedsExactly(routes: Routes, c: ConnectionId, ids: FreshIds, lib: Libraries)
    requires RoutesOf(routes, c) == map[]
    ensures var r := SeedRows(routes, c, 2, ids, lib);
            && (r.Success? <==>
                  && SeedsParse(lib) && ids.seed0 !in routes && ids.seed1 !in routes && ids.seed0 != ids.seed1
                  && FirstSeed(c, lib).destination != SecondSeed(c, lib).destination)
            && (r.Success? ==> r.value == routes[ids.seed0 := FirstSeed(c, lib)][ids.seed1 := SecondSeed(c, lib)])
  {
    SeedsValidated(c, lib);
    hide Validated, SeedPayloads;
    assert SeedRows(routes, c, 0, ids, lib) == Success(routes);
    assert forall id | id in routes :: routes[id].connectionId == c ==> id in RoutesOf(routes, c);
    if SeedsParse(lib) {
      var first, second := FirstSeed(c, lib), SecondSeed(c, lib);
      assert !Taken(routes, c, first.destination, ids.seed0);
      if ids.seed0 !in routes {
        var some := routes[ids.seed0 := first];
        assert SeedRows(routes, c, 1, ids, lib) == Success(some);
        assert ids.seed1 !in some && ids.seed1 != ids.seed0 ==>
          (Taken(some, c, second.destination, ids.seed1) <==> first.destination == second.destination) by {
          assert some[ids.seed0] == first;
        }
      }
    }
  }

  // ---------------------------------------------------------------------------
  // What is served, and what it does.

  /** The identifier a request is about. */
  function Subject(request: Request, ids: FreshIds): RouteId {
    if request.Create? then ids.route else request.routeId
  }

  /** An existing simulated device with a valid path, while the provider is enabled. */
  predicate Accessible(db: Tables, c: ConnectionId, fakeEnabled: bool) {
    fakeEnabled && c in db.devices && db.devices[c].fake && db.devices[c].pathValid
  }

  /** A mutation must name a free identifier, or a route of this device, and leave destinations unique. */
  predicate Applicable(routes: Routes, c: ConnectionId, request: Request, ids: FreshIds, lib: Libraries) {
    var id := Subject(request, ids);
    && (if request.Create? then id !in routes else id in routes && routes[id].connectionId == c)
    && (!request.Delete? ==>
          && Acceptable(request.payload, lib)
          && !HasDestination(routes, c, lib.addresses(request.payload.destination.value, request.payload.nextHop.value).value.0, id))
  }

  predicate Auditable(c: ConnectionId, resource: string, meta: Metadata, lib: Libraries) {
    meta.valid && lib.uuid(c).Some? && |resource| <= 64 && '\0' !in resource
  }

  /** Exactly these mutations pass every check of the store. */
  predicate Allowed(db: Tables, c: ConnectionId, request: Request, meta: Metadata, ids: FreshIds, lib: Libraries) {
    && c in db.devices && db.devices[c].fake && Initializable(db, c, ids, lib)
    && Applicable(Ready(db, c, ids, lib), c, request, ids, lib)
    && Auditable(c, Subject(request, ids), meta, lib)
  }

  /** Exactly these requests succeed. */
  predicate Served(db: Tables, c: ConnectionId, request: Request, meta: Metadata, ids: FreshIds, fakeEnabled: bool,
                   storage: Storage, lib: Libraries)
  {
    Accessible(db, c, fakeEnabled) && storage.mutation && Allowed(db, c, request, meta, ids, lib)
  }

  /** The route the request names holds what was asked for, or is gone; every other route is as it was. */
  ghost predicate Done(ready: Routes, after: Routes, c: ConnectionId, request: Request, ids: FreshIds, lib: Libraries) {
    var id := Subject(request, ids);
    && (forall other | other != id :: Lookup(after, other) == Lookup(ready, other))
    && match request
       case Create(p) => Acceptable(p, lib) && id in after && AsRequested(after[id], c, p, lib)
       case Update(_, p) => Acceptable(p, lib) && id in after && AsRequested(after[id], c, p, lib)
       case Delete(_) => id !in after
  }

  predicate Asks(request: Request, action: Action) {
    match request
    case Create(_) => action == CreateRoute
    case Update(_, _) => action == UpdateRoute
    case Delete(_) => action == DeleteRoute
  }

  /** The record of a success: what was asked, for which route, and its states before and after (texts redacted). */
  predicate Recorded(row: AuditRow, ready: Routes, after: Routes, c: ConnectionId, request: Request, ids: FreshIds, lib: Libraries) {
    var id := Subject(request, ids);
    && Asks(request, row.action) && row.resourceId == Some(id) && row.outcome == Succeeded
    && Some(row.connectionId) == lib.uuid(c)
    && row.before == ScrubbedOption(Lookup(ready, id), lib) && row.after == ScrubbedOption(Lookup(after, id), lib)
  }

  /** The record of a failure names the attempt and no state; a failed creation names no route. */
  predicate RecordsAttempt(row: AuditRow, c: ConnectionId, request: Request, lib: Libraries) {
    && Asks(request, row.action) && row.resourceId == (if request.Create? then None else Some(request.routeId))
    && row.outcome == Failed && Some(row.connectionId) == lib.uuid(c) && row.before.None? && row.after.None?
  }

  predicate AttemptRecordable(c: ConnectionId, request: Request, meta: Metadata, storage: Storage, lib: Libraries) {
    storage.failureRecord && Auditable(c, if request.Create? then "" else request.routeId, meta, lib)
  }

  lemma AppendedExactly(log: seq<AuditRow>, action: Action, resourceId: Option<string>, c: string, outcome: Outcome,
                        before: Option<Route>, after: Option<Route>, meta: Metadata, lib: Libraries)
    ensures var r := Appended(log, action, resourceId, c, outcome, before, after, meta, lib);
            && (r.Success? <==> Auditable(c, if resourceId.Some? then resourceId.value else "", meta, lib))
            && (r.Success? ==>
                  r.value == log + [AuditRow(action, resourceId, lib.uuid(c).value, outcome,
                                             ScrubbedOption(before, lib), ScrubbedOption(after, lib))])
  {
    hide ScrubbedOption;
  }

  lemma SameDestinations(routes: Routes, c: ConnectionId, destination: string, id: RouteId)
    ensures HasDestination(routes, c, destination, id) <==> Taken(routes, c, destination, id)
  {
  }

  lemma AccessExactly(db: Tables, c: ConnectionId, fakeEnabled: bool)
    ensures Access(db, c, fakeEnabled).Success? <==> Accessible(db, c, fakeEnabled)
  {
  }

  /** On an initialised table exactly the applicable and auditable mutations succeed, and do what was asked. */
  ghost predicate Mutates(r: Result<Tables, StoreError>, ready: Tables, c: ConnectionId, request: Request, meta: Metadata,
                          ids: FreshIds, lib: Libraries)
  {
    && (r.Success? <==> Applicable(ready.routes, c, request, ids, lib) && Auditable(c, Subject(request, ids), meta, lib))
    && (r.Success? ==>
          && Done(ready.routes, r.value.routes, c, request, ids, lib)
          && |r.value.log| == |ready.log| + 1 && r.value.log[..|ready.log|] == ready.log
          && Recorded(r.value.log[|ready.log|], ready.routes, r.value.routes, c, request, ids, lib))
  }

  lemma CreateExactly(db: Tables, ready: Tables, c: ConnectionId, p: Payload, meta: Metadata, ids: FreshIds, lib: Libraries)
    requires Initialized(db, c, ids, lib) == Success(ready)
    ensures Mutates(CreateAudited(db, c, p, meta, ids, lib), ready, c, Create(p), meta, ids, lib)
  {
    ValidatedAsRequested(c, p, lib);
    hide Initialized, Validated, Acceptable, AsRequested, ScrubbedOption, Taken, HasDestination, Appended, Done, Recorded;
    if Acceptable(p, lib) {
      var row := Validated(c, p, lib).value;
      RequestedDestination(row, c, p, lib);
      SameDestinations(ready.routes, c, row.destination, ids.route);
      AppendedExactly(ready.log, CreateRoute, Some(ids.route), c, Succeeded, None, Some(row), meta, lib);
      if Auditable(c, ids.route, meta, lib) {
        WriteDone(ready.routes, c, row, Create(p), CreateRoute, ids, lib);
      }
    }
  }

  lemma UpdateExactly(db: Tables, ready: Tables, c: ConnectionId, id: RouteId, p: Payload, meta: Metadata, ids: FreshIds,
                      lib: Libraries)
    requires Initialized(db, c, ids, lib) == Success(ready)
    ensures Mutates(UpdateAudited(db, c, id, p, meta, ids, lib), ready, c, Update(id, p), meta, ids, lib)
  {
    ValidatedAsRequested(c, p, lib);
    hide Initialized, Validated, Acceptable, AsRequested, ScrubbedOption, Taken, HasDestination, Appended, Done, Recorded;
    if id in ready.routes && Acceptable(p, lib) {
      var row := Validated(c, p, lib).value;
      RequestedDestination(row, c, p, lib);
      SameDestinations(ready.routes, c, row.destination, id);
      AppendedExactly(ready.log, UpdateRoute, Some(id), c, Succeeded, Some(ready.routes[id]), Some(row), meta, lib);
      if Auditable(c, id, meta, lib) {
        WriteDone(ready.routes, c, row, Update(id, p), UpdateRoute, ids, lib);
      }
    }
  }

  lemma DeleteExactly(db: Tables, ready: Tables, c: ConnectionId, id: RouteId, meta: Metadata, ids: FreshIds, lib: Libraries)
    requires Initialized(db, c, ids, lib) == Success(ready)
    ensures Mutates(DeleteAudited(db, c, id, meta, ids, lib), ready, c, Delete(id), meta, ids, lib)
  {
    hide Initialized, Acceptable, ScrubbedOption, HasDestination, Appended, Done, Recorded;
    if id in ready.routes {
      AppendedExactly(ready.log, DeleteRoute, Some(id), c, Succeeded, Some(ready.routes[id]), None, meta, lib);
      if Auditable(c, id, meta, lib) {
        DeleteDone(ready.routes, c, id, ids, lib);
      }
    }
  }

  lemma RequestedDestination(row: Route, c: ConnectionId, p: Payload, lib: Libraries)
    requires Acceptable(p, lib) && AsRequested(row, c, p, lib)
    ensures p.destination.Some? && p.nextHop.Some? && lib.addresses(p.destination.value, p.nextHop.value).Some?
    ensures row.destination == lib.addresses(p.destination.value, p.nextHop.value).value.0
  {
  }

  lemma WriteDone(ready: Routes, c: ConnectionId, row: Route, request: Request, action: Action, ids: FreshIds,
                  lib: Libraries)
    requires !request.Delete? && Acceptable(request.payload, lib) && AsRequested(row, c, request.payload, lib)
    requires Asks(request, action) && lib.uuid(c).Some?
    ensures var id := Subject(request, ids);
            var record := AuditRow(action, Some(id), lib.uuid(c).value, Succeeded, ScrubbedOption(Lookup(ready, id), lib),
                                   ScrubbedOption(Some(row), lib));
            Done(ready, ready[id := row], c, request, ids, lib) && Recorded(record, ready, ready[id := row], c, request, ids, lib)
  {
    hide Acceptable, AsRequested, ScrubbedOption;
  }

  lemma DeleteDone(ready: Routes, c: ConnectionId, id: RouteId, ids: FreshIds, lib: Libraries)
    requires id in ready && lib.uuid(c).Some?
    ensures var record := AuditRow(DeleteRoute, Some(id), lib.uuid(c).value, Succeeded, ScrubbedOption(Some(ready[id]), lib),
                                   ScrubbedOption(None, lib));
            && Done(ready, ready - {id}, c, Delete(id), ids, lib)
            && Recorded(record, ready, ready - {id}, c, Delete(id), ids, lib)
  {
    hide ScrubbedOption;
  }

  /** What a served request leaves behind. */
  ghost predicate Leaves(next: Tables, db: Tables, c: ConnectionId, request: Request, ids: FreshIds, lib: Libraries) {
    && Initializable(db, c, ids, lib)
    && Done(Ready(db, c, ids, lib), next.routes, c, request, ids, lib)
    && |next.log| == |db.log| + 1 && next.log[..|db.log|] == db.log
    && Recorded(next.log[|db.log|], Ready(db, c, ids, lib), next.routes, c, request, ids, lib)
  }

  lemma MutatedExactly(db: Tables, c: ConnectionId, request: Request, meta: Metadata, ids: FreshIds, fakeEnabled: bool,
                       storage: Storage, lib: Libraries)
    requires Inv(db, lib)
    ensures var r := Mutated(db, c, request, meta, ids, fakeEnabled, storage, lib);
            && (r.Success? <==> Served(db, c, request, meta, ids, fakeEnabled, storage, lib))
            && (r.Success? ==> Leaves(r.value, db, c, request, ids, lib))
  {
    AccessExactly(db, c, fakeEnabled);
    AppliedExactly(db, c, request, meta, ids, lib);
    hide Access, Inv, Applied, Leaves, Allowed, CreateAudited, UpdateAudited, DeleteAudited;
  }

  function Applied(db: Tables, c: ConnectionId, request: Request, meta: Metadata, ids: FreshIds, lib: Libraries)
    : Result<Tables, StoreError>
  {
    match request
    case Create(payload) => CreateAudited(db, c, payload, meta, ids, lib)
    case Update(id, payload) => UpdateAudited(db, c, id, payload, meta, ids, lib)
    case Delete(id) => DeleteAudited(db, c, id, meta, ids, lib)
  }

  lemma AppliedExactly(db: Tables, c: ConnectionId, request: Request, meta: Metadata, ids: FreshIds, lib: Libraries)
    requires Inv(db, lib)
    ensures var r := Applied(db, c, request, meta, ids, lib);
            && (r.Success? <==> Allowed(db, c, request, meta, ids, lib))
            && (r.Success? ==> Leaves(r.value, db, c, request, ids, lib))
  {
    InitializedExactly(db, c, ids, lib);
    NotInitialized(db, c, request, meta, ids, lib);
    hide Inv, Initialized, Applicable, Auditable, Initializable, Ready, CreateAudited, UpdateAudited, DeleteAudited, Mutates, Leaves;
    var ready := Initialized(db, c, ids, lib);
    if ready.Success? {
      match request {
        case Create(payload) => CreateExactly(db, ready.value, c, payload, meta, ids, lib);
        case Update(id, payload) => UpdateExactly(db, ready.value, c, id, payload, meta, ids, lib);
        case Delete(id) => DeleteExactly(db, ready.value, c, id, meta, ids, lib);
      }
      MutatesAndLeaves(Applied(db, c, request, meta, ids, lib), db, ready.value, c, request, meta, ids, lib);
    }
  }

  lemma MutatesAndLeaves(r: Result<Tables, StoreError>, db: Tables, ready: Tables, c: ConnectionId, request: Request, meta: Metadata,
                         ids: FreshIds, lib: Libraries)
    requires Mutates(r, ready, c, request, meta, ids, lib) && Initializable(db, c, ids, lib)
    requires ready.routes == Ready(db, c, ids, lib) && ready.log == db.log
    ensures r.Success? <==> Applicable(Ready(db, c, ids, lib), c, request, ids, lib) && Auditable(c, Subject(request, ids), meta, lib)
    ensures r.Success? ==> Leaves(r.value, db, c, request, ids, lib)
  {
    hide Applicable, Auditable, Initializable, Ready, Done, Recorded, Subject;
  }

  lemma NotInitialized(db: Tables, c: ConnectionId, request: Request, meta: Metadata, ids: FreshIds, lib: Libraries)
    ensures Initialized(db, c, ids, lib).Failure? ==> Applied(db, c, request, meta, ids, lib).Failure?
  {
    hide Initialized;
  }

  /** The record of a failed attempt, if it can be written, and nothing else. */
  lemma FailureExactly(db: Tables, c: ConnectionId, request: Request, meta: Metadata, storage: Storage, lib: Libraries)
    ensures var next := FailureRecorded(db, c, request, meta, storage, lib);
            && next.routes == db.routes && next.seeded == db.seeded && next.devices == db.devices
            && (if AttemptRecordable(c, request, meta, storage, lib)
                then |next.log| == |db.log| + 1 && next.log[..|db.log|] == db.log && RecordsAttempt(next.log[|db.log|], c, request, lib)
                else next.log == db.log)
  {
    AppendedExactly(db.log, ActionOf(request), Named(request), c, Failed, None, None, meta, lib);
    hide Appended;
  }

  /**
   A request succeeds exactly when it is served; the table then differs from the initialised one at the route it names
   only, which holds what was asked for, and one record says so. Otherwise no table changes, and the attempt is
   recorded exactly when it can be.
   */
  lemma RequestDoesWhatItAsks(db: Tables, c: ConnectionId, request: Request, meta: Metadata, ids: FreshIds, fakeEnabled: bool,
                              storage: Storage, lib: Libraries)
    requires Inv(db, lib)
    ensures var (next, r) := Handled(db, c, request, meta, ids, fakeEnabled, storage, lib);
            && (r.Success? <==> Served(db, c, request, meta, ids, fakeEnabled, storage, lib))
            && (r.Success? ==> Leaves(next, db, c, request, ids, lib))
            && (r.Failure? ==>
                  && next.routes == db.routes && next.seeded == db.seeded && next.devices == db.devices
                  && (if AttemptRecordable(c, request, meta, storage, lib)
                      then |next.log| == |db.log| + 1 && next.log[..|db.log|] == db.log
                           && RecordsAttempt(next.log[|db.log|], c, request, lib)
                      else next.log == db.log))
  {
    MutatedExactly(db, c, request, meta, ids, fakeEnabled, storage, lib);
    FailureExactly(db, c, request, meta, storage, lib);
    hide Inv, Mutated, FailureRecorded, Leaves, Served, RecordsAttempt, AttemptRecordable;
  }

  /** Every refusal says why: one error code for each thing that can be wrong with an accessible request, and with access. */
  lemma ErrorsTellWhy(db: Tables, c: ConnectionId, request: Request, meta: Metadata, ids: FreshIds, fakeEnabled: bool,
                      storage: Storage, lib: Libraries)
    requires Inv(db, lib) && Initializable(db, c, ids, lib)
    ensures var r := Handled(db, c, request, meta, ids, fakeEnabled, storage, lib).1;
            var accessible := Accessible(db, c, fakeEnabled);
            var ready, id := Ready(db, c, ids, lib), Subject(request, ids);
            && (r == Failure(Unavailable) <==> !fakeEnabled || (accessible && !storage.mutation))
            && (r == Failure(Forbidden) <==> fakeEnabled && c in db.devices && db.devices[c].fake && !db.devices[c].pathValid)
            && (r == Failure(Unsupported) <==> fakeEnabled && c in db.devices && !db.devices[c].fake)
            && (r == Failure(NotFound) <==>
                  fakeEnabled && (c !in db.devices
                                  || (accessible && storage.mutation && !request.Create?
                                      && !(id in ready && ready[id].connectionId == c))))
            && (r == Failure(Conflict) <==>
                  && accessible && storage.mutation && !request.Delete? && Acceptable(request.payload, lib)
                  && (request.Update? ==> id in ready && ready[id].connectionId == c)
                  && ((request.Create? && id in ready)
                      || HasDestination(ready, c, lib.addresses(request.payload.destination.value,
                                                                request.payload.nextHop.value).value.0, id)))
  {
    AccessCodes(db, c, fakeEnabled);
    InitializedExactly(db, c, ids, lib);
    AnsweredInOrder(db, c, request, meta, ids, fakeEnabled, storage, lib);
    hide Access, Inv, Initialized, Initializable, Ready, HasDestination, Handled, Applied, Acceptable;
    if Accessible(db, c, fakeEnabled) {
      StoreCodes(db, Initialized(db, c, ids, lib).value, c, request, meta, ids, lib);
    }
  }

  lemma AnsweredInOrder(db: Tables, c: ConnectionId, request: Request, meta: Metadata, ids: FreshIds, fakeEnabled: bool,
                        storage: Storage, lib: Libraries)
    ensures var r, access := Handled(db, c, request, meta, ids, fakeEnabled, storage, lib).1, Access(db, c, fakeEnabled);
            var applied := Applied(db, c, request, meta, ids, lib);
            r == if access.Failure? then Failure(access.error)
                 else if !storage.mutation then Failure(Unavailable)
                 else if applied.Failure? then Failure(applied.error)
                 else Success(())
  {
    hide Access, CreateAudited, UpdateAudited, DeleteAudited, FailureRecorded;
  }

  lemma AccessCodes(db: Tables, c: ConnectionId, fakeEnabled: bool)
    ensures var r := Access(db, c, fakeEnabled);
            && (r.Success? <==> Accessible(db, c, fakeEnabled))
            && (r == Failure(Unavailable) <==> !fakeEnabled)
            && (r == Failure(NotFound) <==> fakeEnabled && c !in db.devices)
            && (r == Failure(Unsupported) <==> fakeEnabled && c in db.devices && !db.devices[c].fake)
            && (r == Failure(Forbidden) <==> fakeEnabled && c in db.devices && db.devices[c].fake && !db.devices[c].pathValid)
            && r != Failure(Conflict)
  {
  }

  lemma StoreCodes(db: Tables, ready: Tables, c: ConnectionId, request: Request, meta: Metadata, ids: FreshIds, lib: Libraries)
    requires Initialized(db, c, ids, lib) == Success(ready)
    ensures var r, id := Applied(db, c, request, meta, ids, lib), Subject(request, ids);
            var own := id in ready.routes && ready.routes[id].connectionId == c;
            && r != Failure(Unavailable) && r != Failure(Forbidden) && r != Failure(Unsupported)
            && (r == Failure(NotFound) <==> !request.Create? && !own)
            && (r == Failure(Conflict) <==>
                  && !request.Delete? && Acceptable(request.payload, lib) && (request.Update? ==> own)
                  && ((request.Create? && id in ready.routes)
                      || HasDestination(ready.routes, c, lib.addresses(request.payload.destination.value,
                                                                       request.payload.nextHop.value).value.0, id)))
  {
    hide Initialized, Validated, Acceptable, AsRequested, Taken, HasDestination, Appended, ScrubbedOption;
    AppendingCodes();
    ValidationCodes();
    if !request.Delete? {
      ValidatedAsRequested(c, request.payload, lib);
      if Acceptable(request.payload, lib) {
        var row := Validated(c, request.payload, lib).value;
        RequestedDestination(row, c, request.payload, lib);
        SameDestinations(ready.routes, c, row.destination, Subject(request, ids));
      }
    }
  }

  lemma ValidationCodes()
    ensures forall c, p, lib :: Validated(c, p, lib).Failure? ==> Validated(c, p, lib).error == Invalid
  {
  }

  lemma AppendingCodes()
    ensures forall log, action, resourceId, c, outcome, before, after, meta, lib ::
              var r := Appended(log, action, resourceId, c, outcome, before, after, meta, lib); r.Failure? ==> r.error == Invalid
  {
  }
}
