/** The profile tables: saving, deleting and resolving, and what every run of them keeps. */
module ProfileStore {
  import opened Wrappers
  import opened Profiles
  import opened ProfileRows
  import opened ProfileSaving

  datatype Resource = Roles | Proxies | Connections | UnknownResource

  /** The text of a fresh UUID. */
  type FreshId = s: Identifier | s != "" witness "0"

  predicate Allowed(resource: Resource, k: Field) {
    match resource
    case Roles => IsRoleField(k)
    case Proxies => IsProxyField(k)
    case Connections => IsConnectionField(k)
    case UnknownResource => false
  }

  // ---------------------------------------------------------------------------
  // Transition functions.

  /** save updates the named row; without an identifier, or with an empty one, it creates a row. */
  predicate Updates(itemId: Option<Identifier>) {
    itemId.Some? && itemId.value != ""
  }

  function Saved(store: Store, resource: Resource, payload: Dict, itemId: Option<Identifier>, newId: FreshId, keyOk: KeyCheck)
    : Result<(Store, Identifier), StoreError>
  {
    if resource.UnknownResource? then Failure(NotFound)
    else if exists k | k in payload :: !Allowed(resource, k) then Failure(Invalid)
    else
      match resource
      case Roles => SavedRole(store, payload, itemId, newId, keyOk)
      case Proxies => SavedProxy(store, payload, itemId, newId)
      case _ => SavedConnection(store, payload, itemId, newId, keyOk)
  }

  function SavedRole(store: Store, payload: Dict, itemId: Option<Identifier>, newId: FreshId, keyOk: KeyCheck)
    : Result<(Store, Identifier), StoreError>
  {
    if Updates(itemId) then
      if itemId.value !in store.roles then Failure(NotFound)
      else
        var row :- RoleFrom(payload, StoredRole(itemId.value, store.roles[itemId.value]), keyOk);
        Success((store.(roles := store.roles[itemId.value := row]), itemId.value))
    else
      var row :- RoleFrom(payload, map[], keyOk);
      if newId in store.roles then Failure(Conflict) else Success((store.(roles := store.roles[newId := row]), newId))
  }

  function SavedProxy(store: Store, payload: Dict, itemId: Option<Identifier>, newId: FreshId)
    : Result<(Store, Identifier), StoreError>
  {
    if Updates(itemId) then
      if itemId.value !in store.proxies then Failure(NotFound)
      else
        var row :- ProxyFrom(store, payload, StoredProxy(itemId.value, store.proxies[itemId.value]));
        Success((store.(proxies := store.proxies[itemId.value := row]), itemId.value))
    else
      var row :- ProxyFrom(store, payload, map[]);
      if newId in store.proxies then Failure(Conflict) else Success((store.(proxies := store.proxies[newId := row]), newId))
  }

  function SavedConnection(store: Store, payload: Dict, itemId: Option<Identifier>, newId: FreshId, keyOk: KeyCheck)
    : Result<(Store, Identifier), StoreError>
  {
    if Updates(itemId) then
      if itemId.value !in store.connections then Failure(NotFound)
      else
        var row :- ConnectionFrom(store, payload, StoredConnection(itemId.value, store.connections[itemId.value]), keyOk);
        Success((store.(connections := store.connections[itemId.value := row]), itemId.value))
    else
      var row :- ConnectionFrom(store, payload, map[], keyOk);
      if newId in store.connections then Failure(Conflict)
      else Success((store.(connections := store.connections[newId := row]), newId))
  }

  predicate RoleReferenced(store: Store, id: Identifier) {
    || (exists c | c in store.connections :: store.connections[c].roleId == Text(id))
    || (exists p | p in store.proxies :: store.proxies[p].roleId == Text(id))
  }

  predicate ProxyReferenced(store: Store, id: Identifier) {
    exists c | c in store.connections :: store.connections[c].proxyId == Text(id)
  }

  function Deleted(store: Store, resource: Resource, id: Identifier): Result<Store, StoreError> {
    match resource
    case UnknownResource => Failure(NotFound)
    case Roles =>
      if id !in store.roles then Failure(NotFound)
      else if RoleReferenced(store, id) then Failure(Conflict)
      else Success(store.(roles := store.roles - {id}))
    case Proxies =>
      if id !in store.proxies then Failure(NotFound)
      else if ProxyReferenced(store, id) then Failure(Conflict)
      else Success(store.(proxies := store.proxies - {id}))
    case Connections =>
      if id !in store.connections then Failure(NotFound)
      else Success(store.(connections := store.connections - {id}))
  }

  // ---------------------------------------------------------------------------
  // Resolving references.

  function RoleCredentials(row: RoleRow): Dict {
    map[Username := Text(row.username), AuthenticationType := Text(row.kind)] + row.secrets
  }

  function WithRole(store: Store, profile: Dict): Result<Dict, StoreError> {
    var role := Get(profile, RoleAccountId);
    if !Truthy(role) then Success(profile)
    else if !role.Text? || role.text !in store.roles then Failure(NotFound)
    else Success(profile + RoleCredentials(store.roles[role.text]))
  }

  /** The connector of a resolved profile: its saved proxy, its own connector, or a direct connection. */
  function WithRoute(store: Store, profile: Dict): Result<Dict, StoreError> {
    var proxy := Get(profile, ProxyId);
    if Truthy(proxy) then
      if !proxy.Text? || proxy.text !in store.proxies then Failure(NotFound)
      else
        var connector :- WithRole(store, StoredProxy(proxy.text, store.proxies[proxy.text]));
        Success(profile[Connector := Object(connector)])
    else Success(if Connector in profile then profile else profile[Connector := Object(map[Type := DIRECT])])
  }

  function ResolvedConnection(store: Store, id: Identifier): Result<Dict, StoreError> {
    if id !in store.connections then Failure(NotFound)
    else
      var stored := StoredConnection(id, store.connections[id]);
      var typed := if ClientType in stored then stored else stored[ClientType := NETWORK];
      var profile :- WithRole(store, typed);
      WithRoute(store, profile)
  }

  // ---------------------------------------------------------------------------
  // The store invariant.

  ghost predicate StoreOk(store: Store, keyOk: KeyCheck) {
    && "" !in store.roles && "" !in store.proxies && "" !in store.connections
    && (forall id | id in store.roles :: RoleOk(store.roles[id], keyOk))
    && (forall id | id in store.proxies :: ProxyOk(store.proxies[id], store.roles))
    && (forall id | id in store.connections :: ConnectionOk(store.connections[id], store, keyOk))
  }

  /** References survive any change that drops no row they name. */
  lemma ReferencesKept(before: Store, after: Store, keyOk: KeyCheck)
    requires forall id | id in before.proxies :: ProxyOk(before.proxies[id], before.roles)
    requires forall id | id in before.connections :: ConnectionOk(before.connections[id], before, keyOk)
    requires forall id | id in before.roles && id !in after.roles :: !RoleReferenced(before, id)
    requires forall id | id in before.proxies && id !in after.proxies :: !ProxyReferenced(before, id)
    ensures forall id | id in before.proxies :: ProxyOk(before.proxies[id], after.roles)
    ensures forall id | id in before.connections :: ConnectionOk(before.connections[id], after, keyOk)
  {
    hide LoginOk, RouteOk, CleanText, IsProxyType, IsProtocol, IsClientType;
    forall id | id in before.proxies ensures ProxyOk(before.proxies[id], after.roles) {
      var role := before.proxies[id].roleId;
      assert role.Null? || role.text in after.roles;
    }
    forall id | id in before.connections ensures ConnectionOk(before.connections[id], after, keyOk) {
      var role, proxy := before.connections[id].roleId, before.connections[id].proxyId;
      assert role.Null? || role.text in after.roles;
      assert proxy.Null? || proxy.text in after.proxies;
    }
  }

  lemma SavedRoleOk(store: Store, payload: Dict, itemId: Option<Identifier>, newId: FreshId, keyOk: KeyCheck)
    requires StoreOk(store, keyOk)
    ensures var r := SavedRole(store, payload, itemId, newId, keyOk); r.Success? ==> StoreOk(r.value.0, keyOk)
  {
    hide RoleOk, ProxyOk, ConnectionOk, RoleFrom, StoredRole, RoleReferenced, ProxyReferenced;
    var r := SavedRole(store, payload, itemId, newId, keyOk);
    if r.Success? {
      if Updates(itemId) {
        RoleFromOk(payload, StoredRole(itemId.value, store.roles[itemId.value]), keyOk, itemId.value, store.roles[itemId.value]);
      } else {
        RoleFromOk(payload, map[], keyOk, newId, RoleRow("", "", "", map[]));
      }
      ReferencesKept(store, r.value.0, keyOk);
    }
  }

  lemma SavedProxyOk(store: Store, payload: Dict, itemId: Option<Identifier>, newId: FreshId, keyOk: KeyCheck)
    requires StoreOk(store, keyOk) && forall k | k in payload :: IsProxyField(k)
    ensures var r := SavedProxy(store, payload, itemId, newId); r.Success? ==> StoreOk(r.value.0, keyOk)
  {
    hide RoleOk, ProxyOk, ConnectionOk, ProxyFrom, StoredProxy, RoleReferenced, ProxyReferenced, PublicLogin, SecretPart,
      IsProxyField, ProxyColumns, BothCredentials;
    var r := SavedProxy(store, payload, itemId, newId);
    if r.Success? {
      if Updates(itemId) {
        var row := store.proxies[itemId.value];
        StoredProxyFields(itemId.value, row, store.roles);
        ProxyFromOk(store, payload, StoredProxy(itemId.value, row));
      } else {
        ProxyFromOk(store, payload, map[]);
      }
      ReferencesKept(store, r.value.0, keyOk);
    }
  }

  lemma SavedConnectionOk(store: Store, payload: Dict, itemId: Option<Identifier>, newId: FreshId, keyOk: KeyCheck)
    requires StoreOk(store, keyOk) && forall k | k in payload :: IsConnectionField(k)
    ensures var r := SavedConnection(store, payload, itemId, newId, keyOk); r.Success? ==> StoreOk(r.value.0, keyOk)
  {
    hide RoleOk, ProxyOk, ConnectionOk, ConnectionFrom, StoredConnection, RoleReferenced, ProxyReferenced, InlineConnector,
      IsConnectionField, ConnectorOk;
    var r := SavedConnection(store, payload, itemId, newId, keyOk);
    if r.Success? {
      if Updates(itemId) {
        var row := store.connections[itemId.value];
        StoredConnectionConnector(itemId.value, row, store, keyOk);
        ConnectionFromOk(store, payload, StoredConnection(itemId.value, row), keyOk);
      } else {
        ConnectionFromOk(store, payload, map[], keyOk);
      }
      ReferencesKept(store, r.value.0, keyOk);
      OwnTableIrrelevant(r.value.0.connections[r.value.1], store, r.value.0, keyOk);
    }
  }

  lemma OwnTableIrrelevant(row: ConnectionRow, before: Store, after: Store, keyOk: KeyCheck)
    requires ConnectionOk(row, before, keyOk) && after.roles == before.roles && after.proxies == before.proxies
    ensures ConnectionOk(row, after, keyOk)
  {
    hide LoginOk, RouteOk, CleanText;
  }

  lemma DeletedOk(store: Store, resource: Resource, id: Identifier, keyOk: KeyCheck)
    requires StoreOk(store, keyOk)
    ensures var r := Deleted(store, resource, id); r.Success? ==> StoreOk(r.value, keyOk)
  {
    var r := Deleted(store, resource, id);
    hide RoleOk, ProxyOk, ConnectionOk, RoleReferenced, ProxyReferenced;
    if r.Success? {
      ReferencesKept(store, r.value, keyOk);
    }
  }

  // ---------------------------------------------------------------------------
  // Runs.

  datatype Change =
    | Save(resource: Resource, payload: Dict, itemId: Option<Identifier>, newId: FreshId)
    | Delete(table: Resource, id: Identifier)

  function Apply(store: Store, change: Change, keyOk: KeyCheck): Store {
    match change
    case Save(resource, payload, itemId, newId) =>
      (match Saved(store, resource, payload, itemId, newId, keyOk)
       case Success(saved) => saved.0
       case Failure(_) => store)
    case Delete(resource, id) =>
      (match Deleted(store, resource, id)
       case Success(next) => next
       case Failure(_) => store)
  }

  function ApplyAll(store: Store, changes: seq<Change>, keyOk: KeyCheck): Store
    decreases |changes|
  {
    if changes == [] then store else ApplyAll(Apply(store, changes[0], keyOk), changes[1..], keyOk)
  }

  const EMPTY := Store(map[], map[], map[])

  lemma ApplyOk(store: Store, change: Change, keyOk: KeyCheck)
    requires StoreOk(store, keyOk)
    ensures StoreOk(Apply(store, change, keyOk), keyOk)
  {
    hide StoreOk, SavedRole, SavedProxy, SavedConnection, Deleted;
    match change
    case Save(resource, payload, itemId, newId) =>
      if resource.Roles? {
        SavedRoleOk(store, payload, itemId, newId, keyOk);
      } else if resource.Proxies? && forall k | k in payload :: Allowed(resource, k) {
        SavedProxyOk(store, payload, itemId, newId, keyOk);
      } else if resource.Connections? && forall k | k in payload :: Allowed(resource, k) {
        SavedConnectionOk(store, payload, itemId, newId, keyOk);
      }
    case Delete(resource, id) => DeletedOk(store, resource, id, keyOk);
  }

  lemma {:induction false} RunOk(store: Store, changes: seq<Change>, keyOk: KeyCheck)
    requires StoreOk(store, keyOk)
    ensures StoreOk(ApplyAll(store, changes, keyOk), keyOk)
    decreases |changes|
  {
    hide StoreOk, Apply;
    if changes != [] {
      ApplyOk(store, changes[0], keyOk);
      RunOk(Apply(store, changes[0], keyOk), changes[1..], keyOk);
    }
  }

  lemma ReachableOk(changes: seq<Change>, keyOk: KeyCheck)
    ensures StoreOk(ApplyAll(EMPTY, changes, keyOk), keyOk)
  {
    RunOk(EMPTY, changes, keyOk);
  }

  // ---------------------------------------------------------------------------
  // Main results.

  /** In every reachable store references resolve, and role-backed rows carry no credentials of their own. */
  lemma ReachableReferencesResolve(changes: seq<Change>, keyOk: KeyCheck)
    ensures var store := ApplyAll(EMPTY, changes, keyOk);
            && (forall id | id in store.proxies ::
                  var row := store.proxies[id];
                  !row.roleId.Null? ==> row.roleId.Text? && row.roleId.text in store.roles && row.secrets == map[]
                                        && Username !in row.configuration && PrivateKeyPath !in row.configuration)
            && (forall id | id in store.connections ::
                  var row := store.connections[id];
                  && (!row.roleId.Null? ==>
                        row.roleId.Text? && row.roleId.text in store.roles && Password !in row.secrets
                        && Username !in row.configuration && PrivateKeyPath !in row.configuration)
                  && (!row.proxyId.Null? ==>
                        row.proxyId.Text? && row.proxyId.text in store.proxies
                        && Connector !in row.configuration && Connector !in row.secrets))
  {
    RunOk(EMPTY, changes, keyOk);
    hide CleanText, IsProtocol, IsProxyType, IsClientType, ConnectorOk, ApplyAll;
    var store := ApplyAll(EMPTY, changes, keyOk);
    forall id | id in store.proxies && !store.proxies[id].roleId.Null? ensures store.proxies[id].secrets == map[] {
      assert ProxyOk(store.proxies[id], store.roles);
    }
    forall id | id in store.connections ensures ConnectionOk(store.connections[id], store, keyOk) {
    }
  }

  /** Saving an empty patch is the identity on every row of every reachable store. */
  lemma EmptyPatchIsIdentity(changes: seq<Change>, resource: Resource, id: Identifier, newId: FreshId, keyOk: KeyCheck)
    ensures var store := ApplyAll(EMPTY, changes, keyOk);
            var r := Saved(store, resource, map[], Some(id), newId, keyOk);
            match resource
            case Roles => id in store.roles ==> r == Success((store, id))
            case Proxies => id in store.proxies ==> r == Success((store, id))
            case Connections => id in store.connections ==> r == Success((store, id))
            case UnknownResource => r == Failure(NotFound)
  {
    hide ApplyAll, StoreOk, Saved;
    ReachableOk(changes, keyOk);
    EmptyPatchKeepsStore(ApplyAll(EMPTY, changes, keyOk), resource, id, newId, keyOk);
  }

  lemma EmptyPatchKeepsStore(store: Store, resource: Resource, id: Identifier, newId: FreshId, keyOk: KeyCheck)
    requires StoreOk(store, keyOk)
    ensures var r := Saved(store, resource, map[], Some(id), newId, keyOk);
            match resource
            case Roles => id in store.roles ==> r == Success((store, id))
            case Proxies => id in store.proxies ==> r == Success((store, id))
            case Connections => id in store.connections ==> r == Success((store, id))
            case UnknownResource => r == Failure(NotFound)
  {
    hide RoleOk, ProxyOk, ConnectionOk, RoleFrom, ProxyFrom, ConnectionFrom, StoredRole, StoredProxy, StoredConnection, Allowed;
    if resource.Roles? && id in store.roles {
      RoleIdentity(id, store.roles[id], keyOk);
      assert store.roles[id := store.roles[id]] == store.roles;
    } else if resource.Proxies? && id in store.proxies {
      ProxyIdentity(store, id, store.proxies[id]);
      assert store.proxies[id := store.proxies[id]] == store.proxies;
    } else if resource.Connections? && id in store.connections {
      ConnectionIdentity(store, id, store.connections[id], keyOk);
      assert store.connections[id := store.connections[id]] == store.connections;
    }
  }

  /** What a role contributes: its user name and exactly one of a password and a key. */
  lemma RoleCredentialFields(row: RoleRow, keyOk: KeyCheck)
    requires RoleOk(row, keyOk)
    ensures var c := RoleCredentials(row);
            && (forall k | k in c :: k.Username? || k.AuthenticationType? || IsSecret(k))
            && Username in c && Get(c, Username) == Text(row.username)
            && Get(c, Password) == Get(row.secrets, Password) && Get(c, PrivateKey) == Get(row.secrets, PrivateKey)
            && (Truthy(Get(c, Password)) <==> !Truthy(Get(c, PrivateKey)))
  {
    hide PlainText, CleanText;
  }

  ghost predicate RolesOk(store: Store, keyOk: KeyCheck) {
    forall id | id in store.roles :: RoleOk(store.roles[id], keyOk)
  }

  /** A decoded login that can be resolved: at most one credential of its own, none beside a role. */
  ghost predicate Resolvable(store: Store, profile: Dict) {
    && ReferenceOk(Get(profile, RoleAccountId), store.roles)
    && !BothCredentials(profile) && PrivateKey !in profile
    && (!Get(profile, RoleAccountId).Null? ==> Password !in profile && PrivateKeyPath !in profile)
  }

  lemma ReferenceTruth<R>(v: Value, rows: map<Identifier, R>)
    requires ReferenceOk(v, rows)
    ensures Truthy(v) <==> !v.Null?
    ensures !v.Null? ==> v.Text? && v.text in rows
  {
    assert Strip("") == "";
  }

  lemma WithRoleSound(store: Store, profile: Dict, keyOk: KeyCheck)
    requires RolesOk(store, keyOk) && Resolvable(store, profile)
    ensures var r := WithRole(store, profile);
            && r.Success? && !BothCredentials(r.value)
            && Get(r.value, ProxyId) == Get(profile, ProxyId)
            && Get(r.value, Connector) == Get(profile, Connector) && (Connector in r.value <==> Connector in profile)
            && (!Get(profile, RoleAccountId).Null? ==>
                  var row := store.roles[profile[RoleAccountId].text];
                  && Get(r.value, Username) == Text(row.username)
                  && (Truthy(Get(r.value, Password)) <==> !Truthy(Get(r.value, PrivateKey))))
  {
    hide PlainText, RoleOk, RoleCredentials, Strip, ReferenceOk, Truthy, BothCredentials;
    var role := Get(profile, RoleAccountId);
    ReferenceTruth(role, store.roles);
    if !role.Null? {
      RoleCredentialFields(store.roles[role.text], keyOk);
      OverlaidLogin(profile, RoleCredentials(store.roles[role.text]));
    }
  }

  lemma OverlaidLogin(profile: Dict, c: Dict)
    requires forall k | k in c :: k.Username? || k.AuthenticationType? || IsSecret(k)
    requires Truthy(Get(c, Password)) <==> !Truthy(Get(c, PrivateKey))
    requires Password !in profile && PrivateKey !in profile && PrivateKeyPath !in profile
    ensures var merged := profile + c;
            && !BothCredentials(merged)
            && Get(merged, ProxyId) == Get(profile, ProxyId)
            && Get(merged, Connector) == Get(profile, Connector) && (Connector in merged <==> Connector in profile)
            && (Username in c ==> Get(merged, Username) == Get(c, Username))
            && (Truthy(Get(merged, Password)) <==> !Truthy(Get(merged, PrivateKey)))
  {
  }

  /** Every stored connection resolves, and neither it nor its connector ever holds a password beside a key. */
  lemma ResolvedNeverHoldsBoth(changes: seq<Change>, id: Identifier, keyOk: KeyCheck)
    ensures var store := ApplyAll(EMPTY, changes, keyOk);
            id in store.connections ==>
              var r := ResolvedConnection(store, id);
              && r.Success? && !BothCredentials(r.value)
              && Connector in r.value && r.value[Connector].Object? && !BothCredentials(r.value[Connector].fields)
  {
    hide ApplyAll, StoreOk, ResolvedConnection, BothCredentials;
    ReachableOk(changes, keyOk);
    var store := ApplyAll(EMPTY, changes, keyOk);
    if id in store.connections {
      ConnectionResolves(store, id, keyOk);
    }
  }

  lemma StoredConnectionResolvable(store: Store, id: Identifier, keyOk: KeyCheck)
    requires StoreOk(store, keyOk) && id in store.connections
    ensures var stored, row := StoredConnection(id, store.connections[id]), store.connections[id];
            && Resolvable(store, stored)
            && ClientType in stored
            && Get(stored, ProxyId) == row.proxyId && ReferenceOk(row.proxyId, store.proxies)
            && (row.proxyId.Null? ==> Connector in stored && stored[Connector].Object?
                                      && !BothCredentials(stored[Connector].fields))
  {
    hide RoleOk, ProxyOk, StoredConnection, ConnectionColumns, LoginOk, PlainLogin, CleanText, PlainText;
    var row := store.connections[id];
    assert ConnectionOk(row, store, keyOk);
    StoredConnectionFields(id, row, store, keyOk);
    StoredConnectionConnector(id, row, store, keyOk);
    ConnectionColumnFields(id, row);
    assert row.proxyId.Null? ==> ConnectorOk(InlineConnector(row), keyOk);
  }

  lemma StoredProxyResolvable(store: Store, id: Identifier, keyOk: KeyCheck)
    requires StoreOk(store, keyOk) && id in store.proxies
    ensures Resolvable(store, StoredProxy(id, store.proxies[id]))
  {
    hide RoleOk, ConnectionOk, StoredProxy, ProxyColumns, LoginOk, PlainLogin, CleanText, PlainText;
    var row := store.proxies[id];
    assert ProxyOk(row, store.roles);
    StoredProxyFields(id, row, store.roles);
    ProxyColumnFields(id, row);
  }

  lemma RouteResolves(store: Store, profile: Dict, keyOk: KeyCheck)
    requires StoreOk(store, keyOk) && ReferenceOk(Get(profile, ProxyId), store.proxies) && !BothCredentials(profile)
    requires Get(profile, ProxyId).Null? ==>
               Connector in profile && profile[Connector].Object? && !BothCredentials(profile[Connector].fields)
    ensures var r := WithRoute(store, profile);
            && r.Success? && !BothCredentials(r.value)
            && Connector in r.value && r.value[Connector].Object? && !BothCredentials(r.value[Connector].fields)
  {
    assert RolesOk(store, keyOk);
    hide StoredProxy, WithRole, StoreOk, RolesOk, Resolvable, ReferenceOk, Truthy, HasKey;
    var proxy := Get(profile, ProxyId);
    ReferenceTruth(proxy, store.proxies);
    if !proxy.Null? {
      StoredProxyResolvable(store, proxy.text, keyOk);
      WithRoleSound(store, StoredProxy(proxy.text, store.proxies[proxy.text]), keyOk);
    }
  }

  lemma ConnectionResolves(store: Store, id: Identifier, keyOk: KeyCheck)
    requires StoreOk(store, keyOk) && id in store.connections
    ensures var r := ResolvedConnection(store, id);
            && r.Success? && !BothCredentials(r.value)
            && Connector in r.value && r.value[Connector].Object? && !BothCredentials(r.value[Connector].fields)
  {
    assert RolesOk(store, keyOk);
    hide StoredConnection, WithRole, WithRoute, StoreOk, RolesOk, Resolvable, ReferenceOk, Truthy, BothCredentials;
    var stored := StoredConnection(id, store.connections[id]);
    StoredConnectionResolvable(store, id, keyOk);
    WithRoleSound(store, stored, keyOk);
    RouteResolves(store, WithRole(store, stored).value, keyOk);
  }
}
