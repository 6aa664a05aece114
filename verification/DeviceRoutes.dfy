/** The audited route methods of the store and the service over them, each transaction on a working copy. */
module DeviceRoutes {
  import opened Wrappers
  import opened RouteAudit
  import opened RouteReplay
  import opened RouteProperties
  import Requests = RouteRequests

  class DeviceRoutes {
    var db: Tables
    const lib: Libraries

    ghost predicate Valid()
      reads this
    {
      Inv(db, lib)
    }

    constructor (lib: Libraries)
      ensures Valid() && db == EMPTY && this.lib == lib
    {
      this.lib := lib;
      db := EMPTY;
    }

    /** Seeds a device in a transaction's working copy; nothing is kept unless the transaction commits. */
    method Initialize(work: Tables, c: ConnectionId, ids: FreshIds) returns (r: Result<Tables, StoreError>)
      ensures r == Initialized(work, c, ids, lib)
    {
      if c !in work.devices {
        return Failure(NotFound);
      }
      if !work.devices[c].fake {
        return Failure(Unsupported);
      }
      if c in work.seeded {
        return Success(work);
      }
      var routes := work.routes;
      var seeds := SeedPayloads();
      var k := 0;
      while k < 2
        invariant 0 <= k <= 2
        invariant SeedRows(work.routes, c, k, ids, lib) == Success(routes)
      {
        var row := Validated(c, seeds[k], lib);
        if row.Failure? {
          assert SeedRows(work.routes, c, k + 1, ids, lib) == Failure(row.error);
          SeedFailureLasts(work.routes, c, k + 1, ids);
          return Failure(row.error);
        }
        var id := if k == 0 then ids.seed0 else ids.seed1;
        if id in routes || Taken(routes, c, row.value.destination, id) {
          ValidatedOwner(c, seeds[k], lib);
          assert SeedRows(work.routes, c, k + 1, ids, lib) == Failure(Conflict);
          SeedFailureLasts(work.routes, c, k + 1, ids);
          return Failure(Conflict);
        }
        ValidatedOwner(c, seeds[k], lib);
        routes := routes[id := row.value];
        k := k + 1;
      }
      return Success(work.(routes := routes, seeded := work.seeded[c := RoutesOf(routes, c)]));
    }

    lemma SeedFailureLasts(routes: Routes, c: ConnectionId, n: nat, ids: FreshIds)
      requires n <= 2 && SeedRows(routes, c, n, ids, lib).Failure?
      ensures SeedRows(routes, c, 2, ids, lib) == Failure(SeedRows(routes, c, n, ids, lib).error)
    {
    }

    method CreateRouteAudited(c: ConnectionId, payload: Payload, meta: Metadata, ids: FreshIds, storage: bool)
      returns (r: Result<(), StoreError>)
      requires Valid()
      modifies this`db
      ensures Valid()
      ensures storage ==> CreateAudited(old(db), c, payload, meta, ids, lib)
                          == if r.Success? then Success(db) else Failure(r.error)
      ensures !storage ==> r == Failure(Unavailable)
      ensures r.Success? ==> Mutation(old(db), db, c)
      ensures r.Failure? ==> db == old(db)
      ensures r.Success? <==> storage && Requests.Allowed(old(db), c, Create(payload), meta, ids, lib)
      ensures r.Success? ==> Requests.Leaves(db, old(db), c, Create(payload), ids, lib)
    {
      CreateKeeps(db, c, payload, meta, ids, lib);
      Requests.AppliedExactly(db, c, Create(payload), meta, ids, lib);
      hide Requests.Leaves, Requests.Allowed, Inv, Initialized, Validated, Mutation;
      if !storage {
        return Failure(Unavailable);
      }
      var ready := Initialize(db, c, ids);
      if ready.Failure? {
        return Failure(ready.error);
      }
      var work := ready.value;
      var row := Validated(c, payload, lib);
      if row.Failure? {
        return Failure(row.error);
      }
      ValidatedOwner(c, payload, lib);
      if ids.route in work.routes || Taken(work.routes, c, row.value.destination, ids.route) {
        return Failure(Conflict);
      }
      work := work.(routes := work.routes[ids.route := row.value]);
      var log := Appended(work.log, CreateRoute, Some(ids.route), c, Succeeded, None, Some(row.value), meta, lib);
      if log.Failure? {
        return Failure(log.error);
      }
      work := work.(log := log.value);
      db := work;
      return Success(());
    }

    method UpdateRouteAudited(c: ConnectionId, id: RouteId, payload: Payload, meta: Metadata, ids: FreshIds, storage: bool)
      returns (r: Result<(), StoreError>)
      requires Valid()
      modifies this`db
      ensures Valid()
      ensures storage ==> UpdateAudited(old(db), c, id, payload, meta, ids, lib)
                          == if r.Success? then Success(db) else Failure(r.error)
      ensures !storage ==> r == Failure(Unavailable)
      ensures r.Success? ==> Mutation(old(db), db, c)
      ensures r.Failure? ==> db == old(db)
      ensures r.Success? <==> storage && Requests.Allowed(old(db), c, Update(id, payload), meta, ids, lib)
      ensures r.Success? ==> Requests.Leaves(db, old(db), c, Update(id, payload), ids, lib)
    {
      UpdateKeeps(db, c, id, payload, meta, ids, lib);
      Requests.AppliedExactly(db, c, Update(id, payload), meta, ids, lib);
      hide Requests.Leaves, Requests.Allowed, Inv, Initialized, Validated, Mutation;
      if !storage {
        return Failure(Unavailable);
      }
      var ready := Initialize(db, c, ids);
      if ready.Failure? {
        return Failure(ready.error);
      }
      var work := ready.value;
      if id !in work.routes || work.routes[id].connectionId != c {
        return Failure(NotFound);
      }
      var before := work.routes[id];
      var row := Validated(c, payload, lib);
      if row.Failure? {
        return Failure(row.error);
      }
      if Taken(work.routes, c, row.value.destination, id) {
        return Failure(Conflict);
      }
      work := work.(routes := work.routes[id := row.value]);
      var log := Appended(work.log, UpdateRoute, Some(id), c, Succeeded, Some(before), Some(row.value), meta, lib);
      if log.Failure? {
        return Failure(log.error);
      }
      work := work.(log := log.value);
      db := work;
      return Success(());
    }

    method DeleteRouteAudited(c: ConnectionId, id: RouteId, meta: Metadata, ids: FreshIds, storage: bool)
      returns (r: Result<(), StoreError>)
      requires Valid()
      modifies this`db
      ensures Valid()
      ensures storage ==> DeleteAudited(old(db), c, id, meta, ids, lib)
                          == if r.Success? then Success(db) else Failure(r.error)
      ensures !storage ==> r == Failure(Unavailable)
      ensures r.Success? ==> Mutation(old(db), db, c)
      ensures r.Failure? ==> db == old(db)
      ensures r.Success? <==> storage && Requests.Allowed(old(db), c, Delete(id), meta, ids, lib)
      ensures r.Success? ==> Requests.Leaves(db, old(db), c, Delete(id), ids, lib)
    {
      DeleteKeeps(db, c, id, meta, ids, lib);
      Requests.AppliedExactly(db, c, Delete(id), meta, ids, lib);
      hide Requests.Leaves, Requests.Allowed, Inv, Initialized, Mutation;
      if !storage {
        return Failure(Unavailable);
      }
      var ready := Initialize(db, c, ids);
      if ready.Failure? {
        return Failure(ready.error);
      }
      var work := ready.value;
      if id !in work.routes || work.routes[id].connectionId != c {
        return Failure(NotFound);
      }
      var before := work.routes[id];
      work := work.(routes := work.routes - {id});
      var log := Appended(work.log, DeleteRoute, Some(id), c, Succeeded, Some(before), None, meta, lib);
      if log.Failure? {
        return Failure(log.error);
      }
      work := work.(log := log.value);
      db := work;
      return Success(());
    }

    /** The service's best-effort record of a failed attempt; its own failure is swallowed. */
    method RecordFailure(c: ConnectionId, request: Request, meta: Metadata, storage: Storage)
      requires Valid()
      modifies this`db
      ensures Valid()
      ensures db == FailureRecorded(old(db), c, request, meta, storage, lib)
      ensures db.routes == old(db).routes && db.seeded == old(db).seeded && db.devices == old(db).devices
    {
      FailureKeeps(db, c, request, meta, storage, lib);
      hide Inv;
      if storage.failureRecord {
        var log := Appended(db.log, ActionOf(request), Named(request), c, Failed, None, None, meta, lib);
        if log.Success? {
          db := db.(log := log.value);
        }
      }
    }

    /** create_, update_ and delete_static_route of the service. */
    method Serve(c: ConnectionId, request: Request, meta: Metadata, ids: FreshIds, fakeEnabled: bool, storage: Storage)
      returns (r: Result<(), StoreError>)
      requires Valid()
      modifies this`db
      ensures Valid()
      ensures Handled(old(db), c, request, meta, ids, fakeEnabled, storage, lib) == (db, r)
      ensures r.Success? <==> Requests.Served(old(db), c, request, meta, ids, fakeEnabled, storage, lib)
      ensures r.Failure? ==>
                && db.routes == old(db).routes && db.seeded == old(db).seeded && db.devices == old(db).devices
                && (if Requests.AttemptRecordable(c, request, meta, storage, lib)
                    then |db.log| == |old(db).log| + 1 && db.log[..|old(db).log|] == old(db).log
                         && Requests.RecordsAttempt(db.log[|old(db).log|], c, request, lib)
                    else db.log == old(db).log)
      ensures r.Success? ==> Mutation(old(db), db, c) && Requests.Leaves(db, old(db), c, request, ids, lib)
    {
      Requests.RequestDoesWhatItAsks(db, c, request, meta, ids, fakeEnabled, storage, lib);
      hide Inv, Mutation, CreateAudited, UpdateAudited, DeleteAudited, FailureRecorded, Requests.Leaves, Requests.Served,
        Requests.RecordsAttempt, Requests.AttemptRecordable;
      r := Success(());
      if !fakeEnabled {
        r := Failure(Unavailable);
      } else if c !in db.devices {
        r := Failure(NotFound);
      } else if !db.devices[c].fake {
        r := Failure(Unsupported);
      } else if !db.devices[c].pathValid {
        r := Failure(Forbidden);
      }
      if r.Success? {
        match request {
          case Create(payload) => r := CreateRouteAudited(c, payload, meta, ids, storage.mutation);
          case Update(id, payload) => r := UpdateRouteAudited(c, id, payload, meta, ids, storage.mutation);
          case Delete(id) => r := DeleteRouteAudited(c, id, meta, ids, storage.mutation);
        }
      }
      if r.Failure? {
        RecordFailure(c, request, meta, storage);
      } else {
        r := Success(());
      }
    }
  }
}
