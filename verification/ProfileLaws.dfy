/** The profile tables as a whole: which saves and deletions succeed, all they change, and what a connection resolves to. */
module ProfileLaws {
  import opened Wrappers
  import opened Profiles
  import opened ProfileRows
  import opened ProfileSaving
  import opened ProfileStore
  import opened ProfilePatches
  import opened ProfileUpdates

  // ---------------------------------------------------------------------------
  // Rows as the dictionaries they decode to.

  predicate HasRow(store: Store, resource: Resource, id: Identifier) {
    match resource
    case Roles => id in store.roles
    case Proxies => id in store.proxies
    case Connections => id in store.connections
    case UnknownResource => false
  }

  function Row(store: Store, resource: Resource, id: Identifier): Dict
    requires HasRow(store, resource, id)
  {
    match resource
    case Roles => StoredRole(id, store.roles[id])
    case Proxies => StoredProxy(id, store.proxies[id])
    case Connections => StoredConnection(id, store.connections[id])
  }

  ghost predicate SameButOne<R>(before: map<Identifier, R>, after: map<Identifier, R>, id: Identifier) {
    forall other | other != id ::
      (other in after <==> other in before) && (other in before ==> after[other] == before[other])
  }

  /** Nothing but one row differs between two stores. */
  ghost predicate OnlyAt(before: Store, after: Store, resource: Resource, id: Identifier) {
    && (if resource.Roles? then SameButOne(before.roles, after.roles, id) else after.roles == before.roles)
    && (if resource.Proxies? then SameButOne(before.proxies, after.proxies, id) else after.proxies == before.proxies)
    && (if resource.Connections? then SameButOne(before.connections, after.connections, id)
        else after.connections == before.connections)
  }

  lemma OneWritten<R>(rows: map<Identifier, R>, id: Identifier, row: R)
    ensures SameButOne(rows, rows[id := row], id)
  {
  }

  // ---------------------------------------------------------------------------
  // Saving.

  /** What a save starts from: the row it names, or nothing. */
  function Before(store: Store, resource: Resource, itemId: Option<Identifier>): Dict {
    if Updates(itemId) && HasRow(store, resource, itemId.value) then Row(store, resource, itemId.value) else map[]
  }

  predicate FieldsKnown(resource: Resource, payload: Dict) {
    match resource
    case Roles => forall k | k in payload :: IsRoleField(k)
    case Proxies => forall k | k in payload :: IsProxyField(k)
    case Connections => forall k | k in payload :: IsConnectionField(k)
    case UnknownResource => false
  }

  predicate FieldsAccepted(store: Store, resource: Resource, old_: Dict, payload: Dict, keyOk: KeyCheck) {
    match resource
    case Roles => RoleAccepted(old_, payload, keyOk)
    case Proxies => ProxyAccepted(store, old_, payload)
    case Connections => ConnectionAccepted(store, old_, payload, keyOk)
    case UnknownResource => false
  }

  /** Exactly these saves succeed: known fields, a row to update or a free identifier, and acceptable values. */
  predicate SaveAccepted(store: Store, resource: Resource, payload: Dict, itemId: Option<Identifier>, newId: FreshId, keyOk: KeyCheck) {
    && FieldsKnown(resource, payload)
    && (if Updates(itemId) then HasRow(store, resource, itemId.value) else !HasRow(store, resource, newId))
    && FieldsAccepted(store, resource, Before(store, resource, itemId), payload, keyOk)
  }

  ghost predicate RowWritten(resource: Resource, new_: Dict, id: Identifier, old_: Dict, payload: Dict) {
    match resource
    case Roles => Asked(old_, payload, Name).Text? && Asked(old_, payload, Username).Text? && RoleWritten(new_, id, old_, payload)
    case Proxies => ProxyWritten(new_, id, old_, payload)
    case Connections => ConnectionWritten(new_, id, old_, payload)
    case UnknownResource => false
  }

  /** The row that was named, or a new one under the fresh identifier, holds what was asked for; nothing else changes. */
  ghost predicate SaveWritten(store: Store, after: Store, resource: Resource, payload: Dict, itemId: Option<Identifier>,
                              newId: FreshId, id: Identifier)
  {
    && id == (if Updates(itemId) then itemId.value else newId)
    && OnlyAt(store, after, resource, id) && HasRow(after, resource, id)
    && RowWritten(resource, Row(after, resource, id), id, Before(store, resource, itemId), payload)
  }

  ghost predicate SavesExactly(r: Result<(Store, Identifier), StoreError>, store: Store, resource: Resource, payload: Dict,
                               itemId: Option<Identifier>, newId: FreshId, keyOk: KeyCheck)
  {
    && (r.Success? <==> SaveAccepted(store, resource, payload, itemId, newId, keyOk))
    && (r.Success? ==> SaveWritten(store, r.value.0, resource, payload, itemId, newId, r.value.1))
    && (FieldsKnown(resource, payload) && Updates(itemId) && !HasRow(store, resource, itemId.value) ==> r == Failure(NotFound))
  }

  lemma RoleSaved(store: Store, payload: Dict, itemId: Option<Identifier>, newId: FreshId, keyOk: KeyCheck)
    requires StoreOk(store, keyOk) && forall k | k in payload :: IsRoleField(k)
    ensures SavesExactly(SavedRole(store, payload, itemId, newId, keyOk), store, Roles, payload, itemId, newId, keyOk)
  {
    hide RoleOk, ProxyOk, ConnectionOk, RoleFrom, StoredRole, RoleAccepted, RoleWritten, IsRoleField, Asked, StoreOk, SavedRole;
    var old_ := Before(store, Roles, itemId);
    var id := if Updates(itemId) then itemId.value else newId;
    var row := if id in store.roles then store.roles[id] else RoleRow("", "", "", map[]);
    OldRole(store, itemId, id, row, keyOk);
    RolePatched(old_, payload, keyOk, id, row, id);
    RoleTexts(old_, payload, keyOk);
    RoleSavedAs(store, payload, itemId, newId, keyOk);
    hide SameButOne, Before;
    var r := RoleFrom(payload, old_, keyOk);
    if r.Success? {
      OneWritten(store.roles, id, r.value);
    }
  }

  lemma RoleSavedAs(store: Store, payload: Dict, itemId: Option<Identifier>, newId: FreshId, keyOk: KeyCheck)
    ensures var row := RoleFrom(payload, Before(store, Roles, itemId), keyOk);
            var id := if Updates(itemId) then itemId.value else newId;
            var r := SavedRole(store, payload, itemId, newId, keyOk);
            && (r.Success? <==> row.Success? && (Updates(itemId) <==> id in store.roles))
            && (r.Success? ==> r.value == (store.(roles := store.roles[id := row.value]), id))
            && (Updates(itemId) && id !in store.roles ==> r == Failure(NotFound))
  {
    hide RoleFrom, StoredRole;
  }

  lemma OldRole(store: Store, itemId: Option<Identifier>, id: Identifier, row: RoleRow, keyOk: KeyCheck)
    requires StoreOk(store, keyOk) && (Updates(itemId) ==> id == itemId.value)
    requires id in store.roles ==> row == store.roles[id]
    ensures var old_ := Before(store, Roles, itemId); old_ == map[] || (old_ == StoredRole(id, row) && RoleOk(row, keyOk))
  {
    hide RoleOk, ProxyOk, ConnectionOk, StoredRole;
  }

  lemma BeforeRow(store: Store, resource: Resource, itemId: Option<Identifier>)
    ensures Before(store, resource, itemId)
         == if Updates(itemId) && HasRow(store, resource, itemId.value) then Row(store, resource, itemId.value) else map[]
  {
    hide Row, HasRow;
  }

  lemma RoleTexts(old_: Dict, payload: Dict, keyOk: KeyCheck)
    ensures RoleAccepted(old_, payload, keyOk) ==> Asked(old_, payload, Name).Text? && Asked(old_, payload, Username).Text?
  {
  }

  lemma ProxySaved(store: Store, payload: Dict, itemId: Option<Identifier>, newId: FreshId, keyOk: KeyCheck)
    requires StoreOk(store, keyOk) && forall k | k in payload :: IsProxyField(k)
    ensures SavesExactly(SavedProxy(store, payload, itemId, newId), store, Proxies, payload, itemId, newId, keyOk)
  {
    hide RoleOk, ProxyOk, ConnectionOk, ProxyFrom, StoredProxy, ProxyAccepted, ProxyWritten, IsProxyField, NoKeyMaterial, PlainLogin;
    var old_ := Before(store, Proxies, itemId);
    var id := if Updates(itemId) then itemId.value else newId;
    if Updates(itemId) && id in store.proxies {
      StoredProxyFields(id, store.proxies[id], store.roles);
    } else {
      NothingUsable(keyOk);
    }
    ProxyPatched(store, payload, old_, id);
    hide StoreOk, SameButOne, Before;
    var r := ProxyFrom(store, payload, old_);
    if r.Success? {
      OneWritten(store.proxies, id, r.value);
    }
    BeforeRow(store, Proxies, itemId);
  }

  lemma NothingUsable(keyOk: KeyCheck)
    ensures NoKeyMaterial(map[]) && PlainLogin(map[]) && Usable(map[], keyOk)
  {
  }

  lemma ConnectionSaved(store: Store, payload: Dict, itemId: Option<Identifier>, newId: FreshId, keyOk: KeyCheck)
    requires StoreOk(store, keyOk) && forall k | k in payload :: IsConnectionField(k)
    ensures SavesExactly(SavedConnection(store, payload, itemId, newId, keyOk), store, Connections, payload, itemId, newId, keyOk)
  {
    hide RoleOk, ProxyOk, ConnectionOk, ConnectionFrom, StoredConnection, ConnectionAccepted, ConnectionWritten, IsConnectionField, Usable;
    var old_ := Before(store, Connections, itemId);
    var id := if Updates(itemId) then itemId.value else newId;
    if Updates(itemId) && id in store.connections {
      StoredConnectionConnector(id, store.connections[id], store, keyOk);
    } else {
      NothingUsable(keyOk);
    }
    ConnectionPatched(store, payload, old_, id, keyOk);
    hide StoreOk, SameButOne, Before;
    var r := ConnectionFrom(store, payload, old_, keyOk);
    if r.Success? {
      OneWritten(store.connections, id, r.value);
    }
    BeforeRow(store, Connections, itemId);
  }

  lemma SaveInOrder(store: Store, resource: Resource, payload: Dict, itemId: Option<Identifier>, newId: FreshId, keyOk: KeyCheck)
    requires StoreOk(store, keyOk)
    ensures SavesExactly(Saved(store, resource, payload, itemId, newId, keyOk), store, resource, payload, itemId, newId, keyOk)
  {
    FieldsInOrder(resource, payload);
    hide StoreOk, SavedRole, SavedProxy, SavedConnection, SaveWritten, FieldsAccepted, Allowed, IsRoleField, IsProxyField,
      IsConnectionField;
    if FieldsKnown(resource, payload) {
      match resource {
        case Roles => RoleSaved(store, payload, itemId, newId, keyOk);
        case Proxies => ProxySaved(store, payload, itemId, newId, keyOk);
        case Connections => ConnectionSaved(store, payload, itemId, newId, keyOk);
      }
    }
  }

  lemma FieldsInOrder(resource: Resource, payload: Dict)
    ensures FieldsKnown(resource, payload) <==> !resource.UnknownResource? && forall k | k in payload :: Allowed(resource, k)
  {
  }

  /**
   In every reachable store a save succeeds exactly on the acceptable requests, and then writes what is asked for: the
   request's fields over the stored ones in the row it names, or in one new row, and no other row changes.
   */
  lemma SaveWritesWhatIsAsked(changes: seq<Change>, resource: Resource, payload: Dict, itemId: Option<Identifier>, newId: FreshId,
                              keyOk: KeyCheck)
    ensures var store := ApplyAll(EMPTY, changes, keyOk);
            SavesExactly(Saved(store, resource, payload, itemId, newId, keyOk), store, resource, payload, itemId, newId, keyOk)
  {
    hide ApplyAll, StoreOk, Saved, SavesExactly;
    ReachableOk(changes, keyOk);
    SaveInOrder(ApplyAll(EMPTY, changes, keyOk), resource, payload, itemId, newId, keyOk);
  }

  // ---------------------------------------------------------------------------
  // Deleting.

  /** Some other row names this one as its role or its proxy. */
  ghost predicate Referenced(store: Store, resource: Resource, id: Identifier) {
    match resource
    case Roles =>
      || (exists i :: HasRow(store, Proxies, i) && Get(Row(store, Proxies, i), RoleAccountId) == Text(id))
      || (exists i :: HasRow(store, Connections, i) && Get(Row(store, Connections, i), RoleAccountId) == Text(id))
    case Proxies => exists i :: HasRow(store, Connections, i) && Get(Row(store, Connections, i), ProxyId) == Text(id)
    case _ => false
  }

  /** The reference columns of every row survive decoding. */
  ghost predicate Decodes(store: Store) {
    && (forall i | i in store.proxies :: Get(StoredProxy(i, store.proxies[i]), RoleAccountId) == store.proxies[i].roleId)
    && (forall i | i in store.connections ::
          && Get(StoredConnection(i, store.connections[i]), RoleAccountId) == store.connections[i].roleId
          && Get(StoredConnection(i, store.connections[i]), ProxyId) == store.connections[i].proxyId)
  }

  lemma ReferencesDecoded(store: Store, keyOk: KeyCheck)
    requires StoreOk(store, keyOk)
    ensures Decodes(store)
  {
    hide RoleOk, ProxyOk, ConnectionOk, StoredProxy, StoredConnection;
    forall i | i in store.proxies ensures Get(StoredProxy(i, store.proxies[i]), RoleAccountId) == store.proxies[i].roleId {
      ProxyReference(store, i, keyOk);
    }
    forall i | i in store.connections
      ensures Get(StoredConnection(i, store.connections[i]), RoleAccountId) == store.connections[i].roleId
      ensures Get(StoredConnection(i, store.connections[i]), ProxyId) == store.connections[i].proxyId
    {
      ConnectionReferences(store, i, keyOk);
    }
  }

  lemma ProxyReference(store: Store, i: Identifier, keyOk: KeyCheck)
    requires i in store.proxies && ProxyOk(store.proxies[i], store.roles)
    ensures Get(StoredProxy(i, store.proxies[i]), RoleAccountId) == store.proxies[i].roleId
  {
    StoredProxyFields(i, store.proxies[i], store.roles);
    ProxyColumnFields(i, store.proxies[i]);
    hide ProxyOk, StoredProxy, ProxyColumns;
  }

  lemma ConnectionReferences(store: Store, i: Identifier, keyOk: KeyCheck)
    requires i in store.connections && ConnectionOk(store.connections[i], store, keyOk)
    ensures Get(StoredConnection(i, store.connections[i]), RoleAccountId) == store.connections[i].roleId
    ensures Get(StoredConnection(i, store.connections[i]), ProxyId) == store.connections[i].proxyId
  {
    StoredConnectionFields(i, store.connections[i], store, keyOk);
    ConnectionColumnFields(i, store.connections[i]);
    hide ConnectionOk, StoredConnection, ConnectionColumns;
  }

  /** A deletion removes exactly the row it names, unless there is none or something refers to it. */
  ghost predicate DeletesExactly(r: Result<Store, StoreError>, store: Store, resource: Resource, id: Identifier) {
    && (r == Failure(NotFound) <==> !HasRow(store, resource, id))
    && (r == Failure(Conflict) <==> HasRow(store, resource, id) && Referenced(store, resource, id))
    && (r.Success? <==> HasRow(store, resource, id) && !Referenced(store, resource, id))
    && (r.Success? ==> OnlyAt(store, r.value, resource, id) && !HasRow(r.value, resource, id))
  }

  lemma DeleteInOrder(store: Store, resource: Resource, id: Identifier, keyOk: KeyCheck)
    requires StoreOk(store, keyOk)
    ensures DeletesExactly(Deleted(store, resource, id), store, resource, id)
  {
    ReferencesAgree(store, resource, id, keyOk);
    DeletedCodes(store, resource, id);
    hide StoreOk, OnlyAt, Referenced, HasRow, Deleted, Blocked, Without;
    if Deleted(store, resource, id).Success? {
      RowRemoved(store, resource, id, Deleted(store, resource, id).value);
    }
  }

  predicate Blocked(store: Store, resource: Resource, id: Identifier) {
    (resource.Roles? && RoleReferenced(store, id)) || (resource.Proxies? && ProxyReferenced(store, id))
  }

  /** The store without one row. */
  predicate Without(store: Store, resource: Resource, id: Identifier, after: Store) {
    match resource
    case Roles => after == store.(roles := store.roles - {id})
    case Proxies => after == store.(proxies := store.proxies - {id})
    case Connections => after == store.(connections := store.connections - {id})
    case UnknownResource => false
  }

  lemma DeletedCodes(store: Store, resource: Resource, id: Identifier)
    ensures var r := Deleted(store, resource, id);
            && (r == Failure(NotFound) <==> !HasRow(store, resource, id))
            && (r == Failure(Conflict) <==> HasRow(store, resource, id) && Blocked(store, resource, id))
            && (r.Success? <==> HasRow(store, resource, id) && !Blocked(store, resource, id))
            && (r.Success? ==> Without(store, resource, id, r.value))
  {
    hide RoleReferenced, ProxyReferenced;
  }

  lemma RowRemoved(store: Store, resource: Resource, id: Identifier, after: Store)
    requires Without(store, resource, id, after)
    ensures OnlyAt(store, after, resource, id) && !HasRow(after, resource, id)
  {
    hide SameButOne;
    if resource.Roles? {
      Removed(store.roles, id);
    } else if resource.Proxies? {
      Removed(store.proxies, id);
    } else {
      Removed(store.connections, id);
    }
  }

  lemma Removed<R>(rows: map<Identifier, R>, id: Identifier)
    ensures SameButOne(rows, rows - {id}, id)
  {
  }

  lemma ReferencesAgree(store: Store, resource: Resource, id: Identifier, keyOk: KeyCheck)
    requires StoreOk(store, keyOk)
    ensures Referenced(store, resource, id) <==> Blocked(store, resource, id)
  {
    ReferencesDecoded(store, keyOk);
    hide StoreOk;
    if resource.Roles? {
      RoleReferencesAgree(store, id);
    } else if resource.Proxies? {
      ProxyReferencesAgree(store, id);
    }
    hide Row, HasRow, RoleReferenced, ProxyReferenced, Decodes;
  }

  lemma RoleReferencesAgree(store: Store, id: Identifier)
    requires Decodes(store)
    ensures Referenced(store, Roles, id) <==> RoleReferenced(store, id)
  {
    hide StoredRole, StoredProxy, StoredConnection;
    if c :| c in store.connections && store.connections[c].roleId == Text(id) {
      assert HasRow(store, Connections, c) && Get(Row(store, Connections, c), RoleAccountId) == Text(id);
    }
    if p :| p in store.proxies && store.proxies[p].roleId == Text(id) {
      assert HasRow(store, Proxies, p) && Get(Row(store, Proxies, p), RoleAccountId) == Text(id);
    }
  }

  lemma ProxyReferencesAgree(store: Store, id: Identifier)
    requires Decodes(store)
    ensures Referenced(store, Proxies, id) <==> ProxyReferenced(store, id)
  {
    hide StoredRole, StoredProxy, StoredConnection;
    if c :| c in store.connections && store.connections[c].proxyId == Text(id) {
      assert HasRow(store, Connections, c) && Get(Row(store, Connections, c), ProxyId) == Text(id);
    }
  }

  lemma DeleteRemovesWhatIsNamed(changes: seq<Change>, resource: Resource, id: Identifier, keyOk: KeyCheck)
    ensures var store := ApplyAll(EMPTY, changes, keyOk); DeletesExactly(Deleted(store, resource, id), store, resource, id)
  {
    hide ApplyAll, StoreOk, Deleted, DeletesExactly;
    ReachableOk(changes, keyOk);
    DeleteInOrder(ApplyAll(EMPTY, changes, keyOk), resource, id, keyOk);
  }

  // ---------------------------------------------------------------------------
  // Resolving.

  predicate IsRoleLogin(k: Field) {
    k.Username? || k.AuthenticationType? || IsCredential(k)
  }

  /** A profile with the login of the role it names, if it names one: the role's fields replace its own. */
  ghost predicate LoggedInAs(out: Dict, d: Dict, store: Store) {
    var role := Get(d, RoleAccountId);
    if role.Null? then forall k :: Get(out, k) == Get(d, k)
    else
      && role.Text? && HasRow(store, Roles, role.text)
      && var given := Row(store, Roles, role.text);
         forall k :: Get(out, k) == if IsRoleLogin(k) && k in given then given[k] else Get(d, k)
  }

  /** The stored connection with its role's login, and with its saved proxy, with that one's role, as its connector. */
  ghost predicate ResolvedTo(out: Dict, d: Dict, store: Store) {
    var proxy := Get(d, ProxyId);
    && Connector in out && out[Connector].Object?
    && LoggedInAs(out[Connector := Get(d, Connector)], d, store)
    && (if proxy.Null? then out[Connector] == Get(d, Connector)
        else
          && proxy.Text? && HasRow(store, Proxies, proxy.text)
          && LoggedInAs(out[Connector].fields, Row(store, Proxies, proxy.text), store))
  }

  lemma RoleOverlaid(store: Store, d: Dict, keyOk: KeyCheck)
    requires StoreOk(store, keyOk) && ReferenceOk(Get(d, RoleAccountId), store.roles)
    ensures var r := WithRole(store, d); r.Success? && LoggedInAs(r.value, d, store)
    ensures Get(WithRole(store, d).value, ProxyId) == Get(d, ProxyId)
    ensures (Connector in WithRole(store, d).value <==> Connector in d) && Get(WithRole(store, d).value, Connector) == Get(d, Connector)
  {
    var role := Get(d, RoleAccountId);
    ReferenceTruth(role, store.roles);
    hide ReferenceOk, Truthy;
    if !role.Null? {
      RoleGives(role.text, store.roles[role.text], keyOk);
      hide StoreOk, StoredRole, RoleCredentials;
    }
  }

  lemma RoleGives(id: Identifier, row: RoleRow, keyOk: KeyCheck)
    requires RoleOk(row, keyOk)
    ensures var given, c := StoredRole(id, row), RoleCredentials(row);
            && (forall k :: k in c <==> IsRoleLogin(k) && k in given)
            && (forall k | k in c :: c[k] == given[k])
  {
    hide PlainText, CleanText;
  }

  lemma ResolveInOrder(store: Store, id: Identifier, keyOk: KeyCheck)
    requires StoreOk(store, keyOk) && id in store.connections
    ensures var r := ResolvedConnection(store, id);
            r.Success? && ResolvedTo(r.value, Row(store, Connections, id), store)
  {
    var d := StoredConnection(id, store.connections[id]);
    StoredConnectionResolvable(store, id, keyOk);
    ResolvableReference(store, d);
    RoleOverlaid(store, d, keyOk);
    hide StoredConnection, StoredProxy, StoredRole, WithRole, WithRoute, LoggedInAs, Resolvable, ReferenceOk, Truthy, BothCredentials,
      ResolvedTo, StoreOk, HasRow;
    RouteOverlaid(store, d, WithRole(store, d).value, keyOk);
  }

  lemma RouteOverlaid(store: Store, d: Dict, profile: Dict, keyOk: KeyCheck)
    requires StoreOk(store, keyOk) && ReferenceOk(Get(d, ProxyId), store.proxies)
    requires Get(d, ProxyId).Null? ==> Connector in d && d[Connector].Object?
    requires LoggedInAs(profile, d, store) && Get(profile, ProxyId) == Get(d, ProxyId)
    requires (Connector in profile <==> Connector in d) && Get(profile, Connector) == Get(d, Connector)
    ensures var r := WithRoute(store, profile); r.Success? && ResolvedTo(r.value, d, store)
  {
    hide StoredProxy, StoredRole, WithRole, LoggedInAs, Resolvable, ReferenceOk, Truthy, StoreOk;
    var proxy := Get(d, ProxyId);
    ReferenceTruth(proxy, store.proxies);
    if proxy.Null? {
      assert profile[Connector := Get(d, Connector)] == profile;
    } else {
      StoredProxyResolvable(store, proxy.text, keyOk);
      ResolvableReference(store, StoredProxy(proxy.text, store.proxies[proxy.text]));
      RoleOverlaid(store, StoredProxy(proxy.text, store.proxies[proxy.text]), keyOk);
      ConnectorSet(profile, d, WithRole(store, StoredProxy(proxy.text, store.proxies[proxy.text])).value, store);
    }
  }

  lemma ResolvableReference(store: Store, d: Dict)
    requires Resolvable(store, d)
    ensures ReferenceOk(Get(d, RoleAccountId), store.roles)
  {
  }

  lemma ConnectorSet(profile: Dict, d: Dict, connector: Dict, store: Store)
    requires LoggedInAs(profile, d, store) && Get(profile, Connector) == Get(d, Connector)
    ensures LoggedInAs(profile[Connector := Object(connector)][Connector := Get(d, Connector)], d, store)
  {
    var out := profile[Connector := Object(connector)][Connector := Get(d, Connector)];
    assert forall k :: Get(out, k) == Get(profile, k);
    hide StoredRole;
  }

  /** In every reachable store a connection resolves to its own fields, its roles' logins and its saved proxy. */
  lemma ResolvesToItsParts(changes: seq<Change>, id: Identifier, keyOk: KeyCheck)
    ensures var store := ApplyAll(EMPTY, changes, keyOk);
            if id in store.connections then
              ResolvedConnection(store, id).Success?
              && ResolvedTo(ResolvedConnection(store, id).value, Row(store, Connections, id), store)
            else ResolvedConnection(store, id) == Failure(NotFound)
  {
    hide ApplyAll, StoreOk, ResolvedTo;
    ReachableOk(changes, keyOk);
    var store := ApplyAll(EMPTY, changes, keyOk);
    if id in store.connections {
      ResolveInOrder(store, id, keyOk);
    }
  }
}
