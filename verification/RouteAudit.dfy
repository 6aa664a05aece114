/** Static routes of simulated devices and the audit log that every mutation writes in the same transaction. */
module RouteAudit {
  import opened Wrappers

  type ConnectionId = string
  type RouteId = string

  // ---------------------------------------------------------------------------
  // Requests.

  datatype InterfaceName = NoInterface | Interface(name: string) | BadInterface

  /** A request body; a field of the wrong JSON type is None, and complete says the key set is exact. */
  datatype Payload = Payload(complete: bool, destination: Option<string>, nextHop: Option<string>,
                             interfaceName: InterfaceName, metric: Option<int>, description: Option<string>,
                             enabled: Option<bool>)

  /** Libraries the store calls: prefix and address parsing, UUID parsing, and text redaction. */
  datatype Libraries = Libraries(addresses: (string, string) -> Option<(string, string)>,
                                 uuid: string -> Option<string>, scrub: string -> string)

  datatype Route = Route(connectionId: ConnectionId, destination: string, nextHop: string,
                         interfaceName: InterfaceName, metric: int, description: string, enabled: bool)

  predicate KnownInterface(i: InterfaceName) {
    i == NoInterface || i == Interface("eth0") || i == Interface("eth1") || i == Interface("lo")
  }

  predicate PlainText(s: string, limit: nat) {
    |s| <= limit && '\0' !in s
  }

  /** _validate_static_route: canonical addresses, every other field unchanged. */
  function Validated(connectionId: ConnectionId, p: Payload, lib: Libraries): Result<Route, StoreError> {
    if !p.complete || p.destination.None? || p.nextHop.None? then Failure(Invalid)
    else
      var addresses := lib.addresses(p.destination.value, p.nextHop.value);
      if addresses.None? || !KnownInterface(p.interfaceName) then Failure(Invalid)
      else if p.metric.None? || !(0 <= p.metric.value <= 65535) then Failure(Invalid)
      else if p.description.None? || !PlainText(p.description.value, 200) || p.enabled.None? then Failure(Invalid)
      else Success(Route(connectionId, addresses.value.0, addresses.value.1, p.interfaceName, p.metric.value,
                         p.description.value, p.enabled.value))
  }

  // ---------------------------------------------------------------------------
  // Tables.

  type Routes = map<RouteId, Route>

  datatype Outcome = Succeeded | Failed

  datatype Action = CreateRoute | UpdateRoute | DeleteRoute

  /** One row of the append-only log. */
  datatype AuditRow = AuditRow(action: Action, resourceId: Option<string>, connectionId: string, outcome: Outcome,
                               before: Option<Route>, after: Option<Route>)

  /** A stored connection as far as routes are concerned: its client type, and whether the fake login path validates. */
  datatype Device = Device(fake: bool, pathValid: bool)

  /**
   The tables. The keys of seeded are the initialisation rows; the values, which the program does not
   keep, record which routes an initialisation inserted.
   */
  datatype Tables = Tables(devices: map<ConnectionId, Device>, seeded: map<ConnectionId, Routes>,
                           routes: Routes, log: seq<AuditRow>)

  /** The actor and request metadata of an audit record; valid says it passes its own field checks. */
  datatype Metadata = Metadata(valid: bool)

  /** Redaction of an audited row: every text in it is scrubbed. */
  function Scrubbed(row: Route, lib: Libraries): Route {
    Route(lib.scrub(row.connectionId), lib.scrub(row.destination), lib.scrub(row.nextHop),
          if row.interfaceName.Interface? then Interface(lib.scrub(row.interfaceName.name)) else row.interfaceName,
          row.metric, lib.scrub(row.description), row.enabled)
  }

  function ScrubbedOption(row: Option<Route>, lib: Libraries): Option<Route> {
    match row
    case None => None
    case Some(r) => Some(Scrubbed(r, lib))
  }

  predicate Taken(routes: Routes, connectionId: ConnectionId, destination: string, besides: RouteId) {
    exists id | id in routes ::
      id != besides && routes[id].connectionId == connectionId && routes[id].destination == destination
  }

  function Inserted(routes: Routes, id: RouteId, row: Route): Result<Routes, StoreError> {
    if id in routes || Taken(routes, row.connectionId, row.destination, id) then Failure(Conflict)
    else Success(routes[id := row])
  }

  function SeedPayloads(): (seeds: seq<Payload>)
    ensures |seeds| == 2
  {
    [Payload(true, Some("198.51.100.0/24"), Some("192.0.2.1"), Interface("eth0"), Some(10),
             Some("Simulated documentation route"), Some(true)),
     Payload(true, Some("2001:db8:2::/64"), Some("2001:db8:1::1"), Interface("eth1"), Some(20),
             Some("Simulated IPv6 documentation route"), Some(true))]
  }

  /** The fresh identifiers one request may consume: the seeds' two and the new route's. */
  datatype FreshIds = FreshIds(seed0: RouteId, seed1: RouteId, route: RouteId)

  /** Inserts the first n seeds. */
  function SeedRows(routes: Routes, c: ConnectionId, n: nat, ids: FreshIds, lib: Libraries): Result<Routes, StoreError>
    requires n <= 2
  {
    if n == 0 then Success(routes)
    else
      var some :- SeedRows(routes, c, n - 1, ids, lib);
      var row :- Validated(c, SeedPayloads()[n - 1], lib);
      Inserted(some, if n == 1 then ids.seed0 else ids.seed1, row)
  }

  /** The routes of one device. */
  function RoutesOf(routes: Routes, c: ConnectionId): Routes {
    map id | id in routes && routes[id].connectionId == c :: routes[id]
  }

  /** _initialize_static_routes: the first use of a fake device inserts its two seed routes. */
  function Initialized(db: Tables, c: ConnectionId, ids: FreshIds, lib: Libraries): Result<Tables, StoreError> {
    if c !in db.devices then Failure(NotFound)
    else if !db.devices[c].fake then Failure(Unsupported)
    else if c in db.seeded then Success(db)
    else
      var routes :- SeedRows(db.routes, c, 2, ids, lib);
      Success(db.(routes := routes, seeded := db.seeded[c := RoutesOf(routes, c)]))
  }

  /** _insert_transaction for a static route: the record is validated, redacted and appended. */
  function Appended(log: seq<AuditRow>, action: Action, resourceId: Option<string>, c: string, outcome: Outcome,
                    before: Option<Route>, after: Option<Route>, meta: Metadata, lib: Libraries)
    : Result<seq<AuditRow>, StoreError>
  {
    var connection := lib.uuid(c);
    if !meta.valid || (resourceId.Some? && !PlainText(resourceId.value, 64)) || connection.None? then Failure(Invalid)
    else Success(log + [AuditRow(action, resourceId, connection.value, outcome,
                                 ScrubbedOption(before, lib), ScrubbedOption(after, lib))])
  }

  // ---------------------------------------------------------------------------
  // The audited transactions of the store.

  function CreateAudited(db: Tables, c: ConnectionId, p: Payload, meta: Metadata, ids: FreshIds, lib: Libraries)
    : Result<Tables, StoreError>
  {
    var ready :- Initialized(db, c, ids, lib);
    var row :- Validated(c, p, lib);
    var routes :- Inserted(ready.routes, ids.route, row);
    var log :- Appended(ready.log, CreateRoute, Some(ids.route), c, Succeeded, None, Some(row), meta, lib);
    Success(ready.(routes := routes, log := log))
  }

  function Owned(routes: Routes, c: ConnectionId, id: RouteId): Result<Route, StoreError> {
    if id in routes && routes[id].connectionId == c then Success(routes[id]) else Failure(NotFound)
  }

  function UpdateAudited(db: Tables, c: ConnectionId, id: RouteId, p: Payload, meta: Metadata, ids: FreshIds, lib: Libraries)
    : Result<Tables, StoreError>
  {
    var ready :- Initialized(db, c, ids, lib);
    var before :- Owned(ready.routes, c, id);
    var row :- Validated(c, p, lib);
    if Taken(ready.routes, c, row.destination, id) then Failure(Conflict)
    else
      var log :- Appended(ready.log, UpdateRoute, Some(id), c, Succeeded, Some(before), Some(row), meta, lib);
      Success(ready.(routes := ready.routes[id := row], log := log))
  }

  function DeleteAudited(db: Tables, c: ConnectionId, id: RouteId, meta: Metadata, ids: FreshIds, lib: Libraries)
    : Result<Tables, StoreError>
  {
    var ready :- Initialized(db, c, ids, lib);
    var before :- Owned(ready.routes, c, id);
    var log :- Appended(ready.log, DeleteRoute, Some(id), c, Succeeded, Some(before), None, meta, lib);
    Success(ready.(routes := ready.routes - {id}, log := log))
  }

  // ---------------------------------------------------------------------------
  // The service over the store.

  datatype Request =
    | Create(payload: Payload)
    | Update(routeId: RouteId, payload: Payload)
    | Delete(routeId: RouteId)

  /** Which of a request's store transactions the storage lets through. */
  datatype Storage = Storage(mutation: bool, failureRecord: bool)

  function ActionOf(request: Request): Action {
    match request
    case Create(_) => CreateRoute
    case Update(_, _) => UpdateRoute
    case Delete(_) => DeleteRoute
  }

  /** The route a failed attempt names; a failed creation names none. */
  function Named(request: Request): Option<string> {
    if request.Create? then None else Some(request.routeId)
  }

  /** _client and _profile: the provider, the connection, its client type and its fake login path. */
  function Access(db: Tables, c: ConnectionId, fakeEnabled: bool): Result<(), StoreError> {
    if !fakeEnabled then Failure(Unavailable)
    else if c !in db.devices then Failure(NotFound)
    else if !db.devices[c].fake then Failure(Unsupported)
    else if !db.devices[c].pathValid then Failure(Forbidden)
    else Success(())
  }

  function Mutated(db: Tables, c: ConnectionId, request: Request, meta: Metadata, ids: FreshIds, fakeEnabled: bool,
                   storage: Storage, lib: Libraries): Result<Tables, StoreError>
  {
    var _ :- Access(db, c, fakeEnabled);
    if !storage.mutation then Failure(Unavailable)
    else match request
      case Create(payload) => CreateAudited(db, c, payload, meta, ids, lib)
      case Update(id, payload) => UpdateAudited(db, c, id, payload, meta, ids, lib)
      case Delete(id) => DeleteAudited(db, c, id, meta, ids, lib)
  }

  /** _record_failure: a best-effort record of the failed attempt. */
  function FailureRecorded(db: Tables, c: ConnectionId, request: Request, meta: Metadata, storage: Storage, lib: Libraries)
    : Tables
  {
    if !storage.failureRecord then db
    else match Appended(db.log, ActionOf(request), Named(request), c, Failed, None, None, meta, lib)
      case Success(log) => db.(log := log)
      case Failure(_) => db
  }

  /** create_, update_ and delete_static_route of the service. */
  function Handled(db: Tables, c: ConnectionId, request: Request, meta: Metadata, ids: FreshIds, fakeEnabled: bool,
                   storage: Storage, lib: Libraries): (Tables, Result<(), StoreError>)
  {
    match Mutated(db, c, request, meta, ids, fakeEnabled, storage, lib)
    case Success(next) => (next, Success(()))
    case Failure(error) => (FailureRecorded(db, c, request, meta, storage, lib), Failure(error))
  }

  /** Listing a device's routes initialises them too, without an audit record. */
  function Listed(db: Tables, c: ConnectionId, ids: FreshIds, fakeEnabled: bool, storage: Storage, lib: Libraries)
    : Result<Tables, StoreError>
  {
    var _ :- Access(db, c, fakeEnabled);
    if !storage.mutation then Failure(Unavailable) else Initialized(db, c, ids, lib)
  }
}
