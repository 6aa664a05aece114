/** The store's save and delete as they run: dictionaries edited in place inside one transaction. */
module ProfileTables {
  import opened Wrappers
  import opened Profiles
  import opened ProfileRows
  import opened ProfileSaving
  import opened ProfileStore
  import Laws = ProfileLaws

  const CHECKED: seq<Field> := [Username, Password, PrivateKey, PrivateKeyPath, KeyPassphrase, KnownHostsPath]
  const REPLACED: seq<Field> := [Username, Password, PrivateKey, PrivateKeyPath, KeyPassphrase]

  lemma CheckedFields(k: Field)
    ensures k in CHECKED <==> IsChecked(k)
    ensures k in REPLACED <==> IsInline(k)
  {
    assert CHECKED[0] == Username && CHECKED[1] == Password && CHECKED[2] == PrivateKey && CHECKED[3] == PrivateKeyPath
      && CHECKED[4] == KeyPassphrase && CHECKED[5] == KnownHostsPath;
    assert REPLACED[0] == Username && REPLACED[1] == Password && REPLACED[2] == PrivateKey
      && REPLACED[3] == PrivateKeyPath && REPLACED[4] == KeyPassphrase;
  }

  /** The paths that the first n checked fields of a request clear. */
  ghost function Dropped(payload: Dict, n: nat): set<Field>
    requires n <= |CHECKED|
  {
    set k | k in CHECKED[..n] && k in Cleared(payload)
  }

  lemma DroppedNext(payload: Dict, n: nat)
    requires n < |CHECKED|
    ensures Dropped(payload, n + 1) == Dropped(payload, n) + if CHECKED[n] in Cleared(payload) then {CHECKED[n]} else {}
  {
    assert CHECKED[..n + 1] == CHECKED[..n] + [CHECKED[n]];
  }

  lemma DroppedAll(payload: Dict)
    ensures Dropped(payload, 0) == {} && Dropped(payload, |CHECKED|) == Cleared(payload)
  {
    assert CHECKED[..|CHECKED|] == CHECKED;
    forall k: Field ensures k in CHECKED <==> IsChecked(k) {
      CheckedFields(k);
    }
  }

  /** The first n checked fields of a request are plain text, or cleared paths. */
  ghost predicate AcceptedUpTo(payload: Dict, n: nat)
    requires n <= |CHECKED|
  {
    forall k | k in CHECKED[..n] && k in payload :: (IsPath(k) && payload[k].Null?) || PlainText(payload[k], 65536)
  }

  lemma AcceptedNext(payload: Dict, n: nat)
    requires n < |CHECKED|
    ensures AcceptedUpTo(payload, n + 1) <==>
              AcceptedUpTo(payload, n)
              && (CHECKED[n] in payload ==>
                    (IsPath(CHECKED[n]) && payload[CHECKED[n]].Null?) || PlainText(payload[CHECKED[n]], 65536))
  {
    hide PlainText;
    assert CHECKED[..n + 1] == CHECKED[..n] + [CHECKED[n]];
    assert CHECKED[n] in CHECKED[..n + 1];
  }

  lemma AcceptedAll(payload: Dict)
    ensures AcceptedUpTo(payload, 0) && (AcceptedUpTo(payload, |CHECKED|) <==> InlineAccepted(payload))
  {
    hide PlainText;
    assert CHECKED[..|CHECKED|] == CHECKED;
    forall k: Field ensures k in CHECKED <==> IsChecked(k) {
      CheckedFields(k);
    }
  }

  lemma AcceptedPrefix(payload: Dict, n: nat)
    requires n <= |CHECKED| && !AcceptedUpTo(payload, n)
    ensures !InlineAccepted(payload)
  {
    hide PlainText;
    var k :| k in CHECKED[..n] && k in payload && !((IsPath(k) && payload[k].Null?) || PlainText(payload[k], 65536));
    CheckedFields(k);
  }

  /** _inline_credentials: checks the request field by field and drops the paths it clears. */
  method CheckInline(original: Dict, payload: Dict) returns (r: Result<Dict, StoreError>)
    ensures r == InlineCredentials(original, payload)
  {
    hide PlainText, InlineAccepted, AcceptedUpTo, Dropped, Truthy;
    var profile := original;
    var k := 0;
    AcceptedAll(payload);
    DroppedAll(payload);
    while k < |CHECKED|
      invariant 0 <= k <= |CHECKED|
      invariant AcceptedUpTo(payload, k)
      invariant profile == original - Dropped(payload, k)
    {
      var key := CHECKED[k];
      CheckedFields(key);
      AcceptedNext(payload, k);
      DroppedNext(payload, k);
      if key in payload {
        if (key == PrivateKeyPath || key == KnownHostsPath) && payload[key] == Null {
          profile := profile - {key};
        } else if !PlainText(payload[key], 65536) {
          AcceptedPrefix(payload, k + 1);
          return Failure(Invalid);
        }
      }
      k := k + 1;
    }
    var key := Truthy(Get(profile, PrivateKeyPath)) || Truthy(Get(profile, PrivateKey));
    if Truthy(Get(profile, Password)) && key {
      return Failure(Invalid);
    }
    if Truthy(Get(profile, KeyPassphrase)) && !key {
      return Failure(Invalid);
    }
    return Success(profile);
  }

  lemma ConnectorMeaning(value: Value, previous: Dict, keyOk: KeyCheck)
    ensures var r := ConnectorFrom(value, previous, keyOk);
            && (r.Success? && (previous == map[] || ConnectorOk(previous, keyOk)) ==> ConnectorOk(Kept(r.value), keyOk))
            && (previous == map[] && value.Object? && ConnectorOk(value.fields, keyOk) ==> r == Success(value.fields))
  {
    hide ConnectorFrom, ConnectorOk, Kept;
    if previous == map[] || ConnectorOk(previous, keyOk) {
      ConnectorFromOk(value, previous, keyOk);
    }
    if previous == map[] && value.Object? && ConnectorOk(value.fields, keyOk) {
      ConnectorIdentity(value.fields, keyOk);
    }
  }

  /** _connector: merges over the stored connector of the same type and validates the result. */
  method CheckConnector(value: Value, previous: Dict, keyOk: KeyCheck) returns (r: Result<Dict, StoreError>)
    ensures r == ConnectorFrom(value, previous, keyOk)
    ensures r.Success? && (previous == map[] || ConnectorOk(previous, keyOk)) ==> ConnectorOk(Kept(r.value), keyOk)
    ensures previous == map[] && value.Object? && ConnectorOk(value.fields, keyOk) ==> r == Success(value.fields)
  {
    ConnectorMeaning(value, previous, keyOk);
    hide ConnectorOk, Kept;
    if !value.Object? || exists k | k in value.fields :: !IsConnectorField(k) {
      return Failure(Invalid);
    }
    var profile := previous + value.fields;
    var kind := if Type in profile then profile[Type] else DIRECT;
    if !IsProxyType(kind) && kind != DIRECT {
      return Failure(Invalid);
    }
    if previous != map[] && Get(previous, Type) != kind {
      profile := value.fields;
    }
    if kind == DIRECT {
      if exists k | k in value.fields :: k != Type && !Blank(value.fields[k]) {
        return Failure(Invalid);
      }
      return Success(map[Type := DIRECT]);
    }
    var host := RequiredText(Get(profile, Host), 255);
    if host.Failure? {
      return Failure(host.error);
    }
    if !ValidPort(Get(profile, Port)) {
      return Failure(Invalid);
    }
    if TimeoutSeconds in profile && !ValidTimeout(profile[TimeoutSeconds]) {
      return Failure(Invalid);
    }
    profile := profile[Type := kind];
    profile := profile[Host := Text(host.value)];
    var checked := CheckInline(profile, value.fields);
    if checked.Failure? {
      return checked;
    }
    profile := checked.value;
    if Truthy(Get(profile, PrivateKey)) && !keyOk(TextAt(profile, PrivateKey), TextAt(profile, KeyPassphrase)) {
      return Failure(Invalid);
    }
    return Success(profile);
  }

  /** A role reference must exist, excludes inline credentials, and pops every inline field. */
  method ApplyRole(store: Store, payload: Dict, merged: Dict) returns (r: Result<Dict, StoreError>)
    ensures r == RoleReference(store, payload, merged)
    ensures r.Success? <==>
              var role := Get(merged, RoleAccountId);
              role.Null? || (ReferenceOk(role, store.roles) && forall k | k in payload && IsInline(k) :: !Truthy(payload[k]))
    ensures r.Success? && !Get(merged, RoleAccountId).Null? ==>
              forall k | k in r.value :: !IsInline(k) && k in merged && r.value[k] == merged[k]
  {
    RoleReferenceExactly(store, payload, merged);
    hide ReferenceOk;
    var profile := merged;
    var roleId := Get(profile, RoleAccountId);
    if roleId == Null {
      return Success(profile);
    }
    var reference := RequiredText(roleId, 36);
    if reference.Failure? {
      return Failure(reference.error);
    }
    if roleId.text !in store.roles {
      return Failure(NotFound);
    }
    if exists k | k in payload :: IsInline(k) && Truthy(payload[k]) {
      return Failure(Invalid);
    }
    profile := PopInline(profile);
    return Success(profile);
  }

  method PopInline(merged: Dict) returns (profile: Dict)
    ensures profile == WithoutInline(merged)
  {
    profile := merged;
    var k := 0;
    while k < |REPLACED|
      invariant 0 <= k <= |REPLACED|
      invariant forall f :: f in profile <==> f in merged && f !in REPLACED[..k]
      invariant forall f | f in profile :: profile[f] == merged[f]
    {
      assert REPLACED[..k + 1] == REPLACED[..k] + [REPLACED[k]];
      profile := profile - {REPLACED[k]};
      k := k + 1;
    }
    assert REPLACED[..k] == REPLACED;
    forall f: Field ensures f in REPLACED <==> IsInline(f) {
      CheckedFields(f);
    }
  }

  /** The part of _save_profile shared by proxies and connections. */
  method PrepareProfile(store: Store, payload: Dict, previous: Dict) returns (r: Result<Core, StoreError>)
    ensures r == CoreFrom(store, payload, previous)
    ensures r.Success? && NoKeyMaterial(payload) && NoKeyMaterial(previous) && PlainLogin(previous) ==>
              CoreOk(r.value, store, previous + payload)
  {
    hide RoleReference, InlineCredentials, RequiredText, CoreOk, NoKeyMaterial, PlainLogin, ReferenceOk;
    if NoKeyMaterial(payload) && NoKeyMaterial(previous) && PlainLogin(previous) {
      CoreFromOk(store, payload, previous);
    }
    var profile := previous + payload;
    var name := RequiredText(Get(profile, Name), 200);
    if name.Failure? {
      return Failure(name.error);
    }
    var host := RequiredText(Get(profile, Host), 255);
    if host.Failure? {
      return Failure(host.error);
    }
    var port := Get(profile, Port);
    if !ValidPort(port) {
      return Failure(Invalid);
    }
    var roleId := Get(profile, RoleAccountId);
    var unlocked := ApplyRole(store, payload, profile);
    if unlocked.Failure? {
      return Failure(unlocked.error);
    }
    var checked := CheckInline(unlocked.value, payload);
    if checked.Failure? {
      return Failure(checked.error);
    }
    return Success(Core(name.value, host.value, port.whole, roleId, checked.value));
  }

  ghost predicate MergesConnector(profile: Dict, payload: Dict, previous: Dict) {
    && (Connector in profile <==> Connector in payload || Connector in previous)
    && (Connector in profile ==>
          profile[Connector] == if Connector in payload then payload[Connector] else Get(previous, Connector))
  }

  lemma SplitMeaning(store: Store, payload: Dict, previous: Dict, profile: Dict, keyOk: KeyCheck)
    requires Usable(previous, keyOk) && MergesConnector(profile, payload, previous)
    ensures var r := RouteFrom(store, payload, previous, profile, keyOk);
            r.Success? && Get(profile, ProxyId).Null? ==> exists c :: SplitOf(r.value, c, keyOk)
  {
    hide RouteFrom, SplitOf, Usable;
    RouteFromOk(store, payload, previous, profile, keyOk);
  }

  /** The proxy or connector part of _save_profile: what goes into the configuration and the secrets columns. */
  method SplitRoute(store: Store, payload: Dict, previous: Dict, profile: Dict, keyOk: KeyCheck)
    returns (r: Result<(Dict, Dict), StoreError>)
    ensures r == RouteFrom(store, payload, previous, profile, keyOk)
    ensures r.Success? && !Get(profile, ProxyId).Null? ==> r.value == (map[], map[])
    ensures r.Success? && Get(profile, ProxyId).Null? && Usable(previous, keyOk) && MergesConnector(profile, payload, previous) ==>
              exists c :: SplitOf(r.value, c, keyOk)
  {
    hide ConnectorFrom, ConnectorOk, Kept, Usable, MergesConnector, SplitOf;
    if Usable(previous, keyOk) && MergesConnector(profile, payload, previous) {
      SplitMeaning(store, payload, previous, profile, keyOk);
    }
    var proxyId := Get(profile, ProxyId);
    if proxyId != Null {
      var reference := RequiredText(proxyId, 36);
      if reference.Failure? {
        return Failure(reference.error);
      }
      if proxyId.text !in store.proxies {
        return Failure(NotFound);
      }
      if Connector in payload {
        return Failure(Invalid);
      }
      return Success((map[], map[]));
    }
    var value := if Connector in profile then profile[Connector] else Object(map[Type := DIRECT]);
    var before := if Connector in payload then Get(previous, Connector) else Null;
    var connector := CheckConnector(value, if before.Object? then before.fields else map[], keyOk);
    if connector.Failure? {
      return Failure(connector.error);
    }
    var hidden := SecretPart(connector.value);
    var secrets: Dict := map[];
    if hidden != map[] {
      secrets := secrets[Connector := Object(hidden)];
    }
    return Success((map[Connector := Object(PublicPart(connector.value))], secrets));
  }

  class GatewayProfiles {
    var store: Store
    const keyOk: KeyCheck

    ghost predicate Valid()
      reads this
    {
      StoreOk(store, keyOk)
    }

    constructor (keyOk: KeyCheck)
      ensures Valid() && store == EMPTY && this.keyOk == keyOk
    {
      this.keyOk := keyOk;
      store := EMPTY;
    }

    method SaveProxyRow(payload: Dict, itemId: Option<Identifier>, newId: FreshId) returns (r: Result<Identifier, StoreError>)
      modifies this`store
      ensures SavedProxy(old(store), payload, itemId, newId)
              == if r.Success? then Success((store, r.value)) else Failure(r.error)
      ensures r.Failure? ==> store == old(store)
    {
      var previous: Dict := map[];
      if itemId.Some? && itemId.value != "" {
        if itemId.value !in store.proxies {
          return Failure(NotFound);
        }
        previous := StoredProxy(itemId.value, store.proxies[itemId.value]);
      }
      var core := PrepareProfile(store, payload, previous);
      if core.Failure? {
        return Failure(core.error);
      }
      var kind := Get(core.value.profile, Type);
      if !IsProxyType(kind) {
        return Failure(Invalid);
      }
      var row := ProxyRow(core.value.name, kind, core.value.host, core.value.port, core.value.roleId,
                          PublicLogin(core.value.profile), SecretPart(core.value.profile));
      var target := newId;
      if itemId.Some? && itemId.value != "" {
        target := itemId.value;
      } else if newId in store.proxies {
        return Failure(Conflict);
      }
      store := store.(proxies := store.proxies[target := row]);
      return Success(target);
    }

    method SaveConnectionRow(payload: Dict, itemId: Option<Identifier>, newId: FreshId)
      returns (r: Result<Identifier, StoreError>)
      modifies this`store
      ensures SavedConnection(old(store), payload, itemId, newId, keyOk)
              == if r.Success? then Success((store, r.value)) else Failure(r.error)
      ensures r.Failure? ==> store == old(store)
    {
      var previous: Dict := map[];
      if itemId.Some? && itemId.value != "" {
        if itemId.value !in store.connections {
          return Failure(NotFound);
        }
        previous := StoredConnection(itemId.value, store.connections[itemId.value]);
      }
      var row := ConnectionValues(payload, previous);
      if row.Failure? {
        return Failure(row.error);
      }
      var target := newId;
      if itemId.Some? && itemId.value != "" {
        target := itemId.value;
      } else if newId in store.connections {
        return Failure(Conflict);
      }
      store := store.(connections := store.connections[target := row.value]);
      return Success(target);
    }

    method ConnectionValues(payload: Dict, previous: Dict) returns (r: Result<ConnectionRow, StoreError>)
      ensures r == ConnectionFrom(store, payload, previous, keyOk)
    {
      hide CoreFrom, RouteFrom, PublicLogin, SecretPart;
      var core := PrepareProfile(store, payload, previous);
      if core.Failure? {
        return Failure(core.error);
      }
      var profile := core.value.profile;
      var protocol := Get(profile, Protocol);
      var clientType := if ClientType in profile then profile[ClientType] else NETWORK;
      var timeout := if TimeoutSeconds in profile then profile[TimeoutSeconds] else Int(10);
      if !IsProtocol(protocol) || !IsClientType(clientType) || !ValidTimeout(timeout) {
        return Failure(Invalid);
      }
      var route := SplitRoute(store, payload, previous, profile, keyOk);
      if route.Failure? {
        return Failure(route.error);
      }
      var configuration := PublicLogin(profile) + map[ClientType := clientType];
      configuration := configuration + route.value.0;
      var secrets := SecretPart(profile) + route.value.1;
      var seconds := if timeout.Int? then timeout.whole as real else timeout.number;
      return Success(ConnectionRow(core.value.name, protocol, core.value.host, core.value.port, seconds,
                                   core.value.roleId, Get(profile, ProxyId), configuration, secrets));
    }

    /** save: one transaction that either stores the validated row or leaves every table as it was. */
    method Save(resource: Resource, payload: Dict, itemId: Option<Identifier>, newId: FreshId)
      returns (r: Result<Identifier, StoreError>)
      requires Valid()
      modifies this`store
      ensures Valid()
      ensures Saved(old(store), resource, payload, itemId, newId, keyOk)
              == if r.Success? then Success((store, r.value)) else Failure(r.error)
      ensures r.Success? <==> Laws.SaveAccepted(old(store), resource, payload, itemId, newId, keyOk)
      ensures r.Success? ==> Laws.SaveWritten(old(store), store, resource, payload, itemId, newId, r.value)
      ensures r.Failure? ==> store == old(store)
    {
      Laws.SaveInOrder(store, resource, payload, itemId, newId, keyOk);
      hide SavedProxy, SavedConnection, StoreOk, RoleFrom, StoredRole, Laws.SaveAccepted, Laws.SaveWritten;
      ApplyOk(store, Change.Save(resource, payload, itemId, newId), keyOk);
      if resource.UnknownResource? {
        return Failure(NotFound);
      }
      if exists k | k in payload :: !Allowed(resource, k) {
        return Failure(Invalid);
      }
      if resource.Proxies? {
        r := SaveProxyRow(payload, itemId, newId);
      } else if resource.Connections? {
        r := SaveConnectionRow(payload, itemId, newId);
      } else {
        var previous: Dict := map[];
        var target := newId;
        if itemId.Some? && itemId.value != "" {
          target := itemId.value;
          if target !in store.roles {
            return Failure(NotFound);
          }
          previous := StoredRole(target, store.roles[target]);
        }
        var row := RoleFrom(payload, previous, keyOk);
        if row.Failure? {
          return Failure(row.error);
        }
        if !Updates(itemId) && target in store.roles {
          return Failure(Conflict);
        }
        store := store.(roles := store.roles[target := row.value]);
        r := Success(target);
      }
    }

    method Delete(resource: Resource, id: Identifier) returns (r: Result<(), StoreError>)
      requires Valid()
      modifies this`store
      ensures Valid()
      ensures Deleted(old(store), resource, id) == if r.Success? then Success(store) else Failure(r.error)
      ensures r.Success? <==> Laws.HasRow(old(store), resource, id) && !Laws.Referenced(old(store), resource, id)
      ensures r.Success? ==> Laws.OnlyAt(old(store), store, resource, id) && !Laws.HasRow(store, resource, id)
      ensures r.Failure? ==> store == old(store)
    {
      Laws.DeleteInOrder(store, resource, id, keyOk);
      hide StoreOk, Laws.HasRow, Laws.Referenced, Laws.OnlyAt;
      DeletedOk(store, resource, id, keyOk);
      match resource {
        case UnknownResource => return Failure(NotFound);
        case Roles =>
          if id !in store.roles {
            return Failure(NotFound);
          }
          if exists c | c in store.connections :: store.connections[c].roleId == Text(id) {
            return Failure(Conflict);
          }
          if exists p | p in store.proxies :: store.proxies[p].roleId == Text(id) {
            return Failure(Conflict);
          }
          store := store.(roles := store.roles - {id});
        case Proxies =>
          if id !in store.proxies {
            return Failure(NotFound);
          }
          if exists c | c in store.connections :: store.connections[c].proxyId == Text(id) {
            return Failure(Conflict);
          }
          store := store.(proxies := store.proxies - {id});
        case Connections =>
          if id !in store.connections {
            return Failure(NotFound);
          }
          store := store.(connections := store.connections - {id});
      }
      return Success(());
    }
  }
}
