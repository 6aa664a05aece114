/** What a connection test can meet when its profile comes from the store. */
module StoredProfileTests {
  import opened Wrappers
  import opened Profiles
  import opened ProfileRows
  import opened ProfileSaving
  import opened ProfileStore
  import V = ProfileValidation
  import A = ProfileAcceptance
  import C = ProfileCrashes

  /** The login method agrees with the credentials, of which there is one kind at most. */
  predicate MethodFits(d: Dict) {
    V.LoginMethod(d) == (if HasKey(d) then V.SSH_KEY else V.PASSWORD) && !BothCredentials(d)
  }

  predicate SoundConnector(c: Dict) {
    && MethodFits(c) && V.IsConnectorType(Get(c, Type))
    && (Get(c, Type) != DIRECT ==> ValidPort(Get(c, Port)))
  }

  predicate SoundDevice(d: Dict) {
    && MethodFits(d) && IsProtocol(Get(d, Protocol))
    && Port in d && ValidPort(d[Port])
    && TimeoutSeconds in d && d[TimeoutSeconds].Float? && 1.0 <= d[TimeoutSeconds].number <= 30.0
  }

  /** A resolved profile: everything but hosts and the pairing of kinds is already as validation wants it. */
  predicate SoundProfile(d: Dict) {
    && SoundDevice(d)
    && Connector in d && d[Connector].Object? && SoundConnector(d[Connector].fields)
    && (Truthy(Get(d, ProxyId)) ==> Get(d[Connector].fields, Type) != DIRECT)
  }

  lemma StoredDevice(id: Identifier, row: ConnectionRow, store: Store, keyOk: KeyCheck)
    requires ConnectionOk(row, store, keyOk)
    ensures SoundDevice(StoredConnection(id, row))
  {
    hide StoredConnection, ConnectionColumns, BothCredentials, PublicLogin, SecretPart, NoKeyMaterial, PlainLogin, IsProtocol, MethodFits,
      ConnectionOk;
    StoredConnectionFields(id, row, store, keyOk);
    ConnectionColumnFields(id, row);
    ConnectionNumbers(row, store, keyOk);
    StoredWithoutMethod(id, row, store, keyOk);
    DefaultMethod(StoredConnection(id, row));
  }

  lemma ConnectionNumbers(row: ConnectionRow, store: Store, keyOk: KeyCheck)
    requires ConnectionOk(row, store, keyOk)
    ensures IsProtocol(row.protocol) && 1 <= row.port <= 65535 && 1.0 <= row.timeout <= 30.0
  {
    hide CleanText, ReferenceOk, LoginOk, RouteOk, IsProtocol;
  }

  lemma StoredWithoutMethod(id: Identifier, row: ConnectionRow, store: Store, keyOk: KeyCheck)
    requires ConnectionOk(row, store, keyOk)
    ensures AuthenticationType !in StoredConnection(id, row)
  {
    hide ConnectionOk, Merged, ConnectionColumns, LoginOk;
    ConnectionLogin(row, store, keyOk);
    ColumnsHaveNoMethod(id, row);
    MergedFields(ConnectionColumns(id, row), row.configuration, row.secrets);
  }

  /** Without a method of its own a login's method follows its key. */
  lemma DefaultMethod(d: Dict)
    requires AuthenticationType !in d && !BothCredentials(d)
    ensures MethodFits(d)
  {
    hide HasKey, BothCredentials;
  }

  lemma ColumnsHaveNoMethod(id: Identifier, row: ConnectionRow)
    ensures AuthenticationType !in ConnectionColumns(id, row)
  {
  }

  lemma ConnectorLogin(c: Dict, keyOk: KeyCheck)
    requires ConnectorOk(c, keyOk)
    ensures AuthenticationType !in c && !BothCredentials(c)
    ensures V.IsConnectorType(Get(c, Type)) && (Get(c, Type) != DIRECT ==> ValidPort(Get(c, Port)))
  {
    hide CleanText, PlainText;
  }

  lemma StoredInline(row: ConnectionRow, store: Store, keyOk: KeyCheck)
    requires ConnectionOk(row, store, keyOk) && row.proxyId.Null?
    ensures SoundConnector(InlineConnector(row))
  {
    hide CleanText, PlainText, ReferenceOk, LoginOk, InlineConnector, BothCredentials, MethodFits, ConnectorOk;
    var c := InlineConnector(row);
    ConnectorLogin(c, keyOk);
    DefaultMethod(c);
  }

  lemma StoredProxyConnector(id: Identifier, row: ProxyRow, roles: map<Identifier, RoleRow>)
    requires ProxyOk(row, roles)
    ensures SoundConnector(StoredProxy(id, row)) && Get(StoredProxy(id, row), Type) == row.kind && row.kind != DIRECT
  {
    hide StoredProxy, ProxyColumns, BothCredentials, PublicLogin, SecretPart, NoKeyMaterial, PlainLogin, MethodFits, ProxyOk;
    StoredProxyFields(id, row, roles);
    ProxyColumnFields(id, row);
    ProxyNumbers(row, roles);
    ProxyWithoutMethod(id, row, roles);
    DefaultMethod(StoredProxy(id, row));
  }

  lemma ProxyNumbers(row: ProxyRow, roles: map<Identifier, RoleRow>)
    requires ProxyOk(row, roles)
    ensures IsProxyType(row.kind) && row.kind != DIRECT && 1 <= row.port <= 65535
  {
    hide CleanText, ReferenceOk, LoginOk;
  }

  lemma ProxyWithoutMethod(id: Identifier, row: ProxyRow, roles: map<Identifier, RoleRow>)
    requires ProxyOk(row, roles)
    ensures AuthenticationType !in StoredProxy(id, row)
  {
    hide ProxyOk, Merged, ProxyColumns, LoginOk;
    ProxyLogin(row, roles);
    ProxyColumnsHaveNoMethod(id, row);
    MergedFields(ProxyColumns(id, row), row.configuration, row.secrets);
  }

  lemma ProxyColumnsHaveNoMethod(id: Identifier, row: ProxyRow)
    ensures AuthenticationType !in ProxyColumns(id, row)
  {
  }

  /** The login a role brings, over a profile without credentials of its own. */
  lemma RoleMethod(row: RoleRow, profile: Dict, keyOk: KeyCheck)
    requires RoleOk(row, keyOk) && PrivateKeyPath !in profile && PrivateKey !in profile && Password !in profile
    ensures MethodFits(profile + RoleCredentials(row))
  {
    hide PlainText, CleanText;
    var r := profile + RoleCredentials(row);
    assert r[AuthenticationType] == Text(row.kind);
    assert PrivateKeyPath !in r;
    assert Get(r, PrivateKey) == Get(row.secrets, PrivateKey) && Get(r, Password) == Get(row.secrets, Password);
  }

  /** A role changes the login only, and its method fits its credential. */
  lemma RoleKeeps(store: Store, profile: Dict, keyOk: KeyCheck)
    requires RolesOk(store, keyOk) && Resolvable(store, profile) && MethodFits(profile)
    requires WithRole(store, profile).Success?
    ensures var r := WithRole(store, profile).value;
            && MethodFits(r)
            && forall k: Field | !k.Username? && !k.AuthenticationType? && !IsSecret(k) ::
                 (k in r <==> k in profile) && Get(r, k) == Get(profile, k)
  {
    hide RoleOk, Truthy, MethodFits, BothCredentials, ReferenceOk;
    var role := Get(profile, RoleAccountId);
    ReferenceTruth(role, store.roles);
    if Truthy(role) {
      var row := store.roles[role.text];
      assert RoleOk(row, keyOk);
      RoleCredentialFields(row, keyOk);
      RoleMethod(row, profile, keyOk);
    }
  }

  lemma SameDevice(a: Dict, b: Dict)
    requires SoundDevice(a) && MethodFits(b)
    requires forall k: Field | !k.Username? && !k.AuthenticationType? && !IsSecret(k) :: (k in b <==> k in a) && Get(b, k) == Get(a, k)
    ensures SoundDevice(b)
  {
    hide MethodFits;
  }

  lemma SameConnector(a: Dict, b: Dict)
    requires SoundConnector(a) && MethodFits(b)
    requires forall k: Field | !k.Username? && !k.AuthenticationType? && !IsSecret(k) :: (k in b <==> k in a) && Get(b, k) == Get(a, k)
    ensures SoundConnector(b) && Get(b, Type) == Get(a, Type)
  {
    hide MethodFits;
  }

  /** What decoding a stored connection gives before any reference is resolved. */
  ghost predicate SoundStored(store: Store, d: Dict) {
    && SoundDevice(d) && MethodFits(d) && ClientType in d && ReferenceOk(Get(d, ProxyId), store.proxies)
    && (Get(d, ProxyId).Null? ==> Connector in d && d[Connector].Object? && SoundConnector(d[Connector].fields))
  }

  lemma ResolvedProxySound(store: Store, id: Identifier, keyOk: KeyCheck)
    requires StoreOk(store, keyOk) && id in store.proxies
    requires WithRole(store, StoredProxy(id, store.proxies[id])).Success?
    ensures var c := WithRole(store, StoredProxy(id, store.proxies[id])).value;
            SoundConnector(c) && Get(c, Type) != DIRECT
  {
    hide StoredProxy, WithRole, StoreOk, RolesOk, SoundConnector, Resolvable, MethodFits;
    var own := StoredProxy(id, store.proxies[id]);
    StoreRoles(store, keyOk);
    ProxyRowOk(store, id, keyOk);
    StoredProxyConnector(id, store.proxies[id], store.roles);
    MethodOfConnector(own);
    StoredProxyResolvable(store, id, keyOk);
    RoleKeeps(store, own, keyOk);
    SameConnector(own, WithRole(store, own).value);
  }

  lemma RoutedSound(store: Store, profile: Dict, keyOk: KeyCheck)
    requires StoreOk(store, keyOk) && SoundStored(store, profile)
    requires WithRoute(store, profile).Success?
    ensures SoundProfile(WithRoute(store, profile).value)
  {
    hide StoredProxy, WithRole, StoreOk, ReferenceOk, Truthy, SoundDevice, SoundConnector, MethodFits;
    var proxy := Get(profile, ProxyId);
    ReferenceTruth(proxy, store.proxies);
    if !proxy.Null? {
      ResolvedProxySound(store, proxy.text, keyOk);
      WithConnector(profile, Object(WithRole(store, StoredProxy(proxy.text, store.proxies[proxy.text])).value));
    }
  }

  lemma ProxyRowOk(store: Store, id: Identifier, keyOk: KeyCheck)
    requires StoreOk(store, keyOk) && id in store.proxies
    ensures ProxyOk(store.proxies[id], store.roles)
  {
  }

  lemma MethodOfConnector(c: Dict)
    requires SoundConnector(c)
    ensures MethodFits(c)
  {
  }

  lemma WithConnector(d: Dict, v: Value)
    requires SoundDevice(d)
    ensures SoundDevice(d[Connector := v]) && Get(d[Connector := v], ProxyId) == Get(d, ProxyId)
  {
    hide Truthy;
  }

  lemma StoredSound(store: Store, id: Identifier, keyOk: KeyCheck)
    requires StoreOk(store, keyOk) && id in store.connections
    ensures SoundStored(store, StoredConnection(id, store.connections[id]))
  {
    hide StoredConnection, StoreOk, ReferenceOk, SoundDevice, SoundConnector, InlineConnector, ConnectionOk, BothCredentials,
      Resolvable;
    var row := store.connections[id];
    var stored := StoredConnection(id, row);
    ConnectionRowIsOk(store, id, keyOk);
    StoredConnectionResolvable(store, id, keyOk);
    StoredConnectionConnector(id, row, store, keyOk);
    StoredDevice(id, row, store, keyOk);
    DeviceMethod(stored);
    if row.proxyId.Null? {
      StoredInline(row, store, keyOk);
    }
  }

  lemma RoleKeepsSound(store: Store, d: Dict, keyOk: KeyCheck)
    requires RolesOk(store, keyOk) && SoundStored(store, d) && Resolvable(store, d) && WithRole(store, d).Success?
    ensures SoundStored(store, WithRole(store, d).value)
  {
    hide WithRole, RolesOk, ReferenceOk, SoundDevice, SoundConnector, MethodFits, Resolvable;
    RoleKeeps(store, d, keyOk);
    var r := WithRole(store, d).value;
    SameDevice(d, r);
    assert Get(r, ProxyId) == Get(d, ProxyId) && Get(r, Connector) == Get(d, Connector) && (ClientType in r <==> ClientType in d)
           && (Connector in r <==> Connector in d);
  }

  lemma ResolvedSound(store: Store, id: Identifier, keyOk: KeyCheck)
    requires StoreOk(store, keyOk) && id in store.connections
    ensures ResolvedConnection(store, id).Success? && SoundProfile(ResolvedConnection(store, id).value)
  {
    hide StoredConnection, WithRole, WithRoute, StoreOk, RolesOk, ReferenceOk, BothCredentials, SoundProfile, SoundDevice,
      SoundConnector, MethodFits, Resolvable, SoundStored;
    StoredTyped(store, id, keyOk);
    StoreRoles(store, keyOk);
    var stored := StoredConnection(id, store.connections[id]);
    ConnectionResolves(store, id, keyOk);
    StoredSound(store, id, keyOk);
    StoredConnectionResolvable(store, id, keyOk);
    RoleKeepsSound(store, stored, keyOk);
    RoutedSound(store, WithRole(store, stored).value, keyOk);
  }

  lemma StoredTyped(store: Store, id: Identifier, keyOk: KeyCheck)
    requires StoreOk(store, keyOk) && id in store.connections
    ensures ClientType in StoredConnection(id, store.connections[id])
  {
    hide StoredConnection, StoreOk, Resolvable, BothCredentials, ReferenceOk;
    StoredConnectionResolvable(store, id, keyOk);
  }

  lemma StoreRoles(store: Store, keyOk: KeyCheck)
    requires StoreOk(store, keyOk)
    ensures RolesOk(store, keyOk)
  {
  }

  lemma ConnectionRowIsOk(store: Store, id: Identifier, keyOk: KeyCheck)
    requires StoreOk(store, keyOk) && id in store.connections
    ensures ConnectionOk(store.connections[id], store, keyOk)
  {
  }

  lemma DeviceMethod(d: Dict)
    requires SoundDevice(d)
    ensures MethodFits(d)
  {
  }

  // ---------------------------------------------------------------------------
  // Main results.

  lemma SoundCannotCrash(d: Dict, demo: bool, lib: V.Library)
    requires SoundProfile(d)
    ensures !C.Crashes(Object(d), demo, lib)
  {
    hide V.FitsFloat, V.Bounded, A.Reachable, A.Loopback, A.LoginAccepted, A.KindsFit, V.DefaultPort, A.EndpointsAcceptable, HasKey,
      BothCredentials, IsProtocol, IsProxyType, Truthy;
    KindsHash(Get(d, Protocol));
    KindsHash(Get(d[Connector].fields, Type));
  }

  lemma KindsHash(v: Value)
    ensures IsProtocol(v) || V.IsConnectorType(v) ==> V.Hashable(v)
    ensures V.Hashable(V.PASSWORD) && V.Hashable(V.SSH_KEY)
  {
  }

  lemma SoundEndpoints(d: Dict, lib: V.Library)
    requires SoundProfile(d)
    ensures A.EndpointsAcceptable(Object(d), lib) <==> HostsUsable(d, d[Connector].fields, lib)
  {
    hide Truthy, IsProtocol, IsProxyType, V.CheckedHost, V.DefaultPort, MethodFits;
  }

  /** The hosts are plain names or addresses, and an interactive shell serves Telnet only. */
  predicate HostsUsable(d: Dict, c: Dict, lib: V.Library) {
    && V.CheckedHost(Get(d, Host), lib).Success?
    && (Get(c, Type) != DIRECT ==> V.CheckedHost(Get(c, Host), lib).Success?)
    && (Get(c, Type) == Text("ssh_shell") ==> Get(d, Protocol) == Text("telnet"))
  }

  /** A bounded login: one key source where SSH is spoken, or a password; optional logins are whole or absent. */
  predicate LoginUsable(auth: Dict, required: bool, ssh: bool) {
    && V.Bounded(Get(auth, Username)) && V.Bounded(Get(auth, Password)) && V.Bounded(Get(auth, KeyPassphrase))
    && (required ==> V.NamedText(Get(auth, Username)))
    && (if HasKey(auth) then ssh && !(Truthy(Get(auth, PrivateKey)) && Truthy(Get(auth, PrivateKeyPath)))
        else Truthy(Get(auth, Password)) <==> required || Truthy(Get(auth, Username)))
  }

  lemma FittingLogin(auth: Dict, required: bool, ssh: bool)
    requires MethodFits(auth)
    ensures A.LoginAccepted(auth, required, ssh) <==> LoginUsable(auth, required, ssh)
  {
    hide V.Bounded, V.LoginMethod, Truthy;
    A.WaysHash();
  }

  /** What is left to decide about a resolved connection: its hosts, the demo rules, the logins and a colon. */
  predicate Testable(d: Dict, demo: bool, lib: V.Library)
    requires Connector in d && d[Connector].Object?
  {
    var c := d[Connector].fields;
    var kind := Get(c, Type);
    && HostsUsable(d, c, lib)
    && (demo ==> A.Loopback(d, lib) && (kind != DIRECT ==> A.Loopback(c, lib)))
    && LoginUsable(d, true, Get(d, Protocol) != Text("telnet"))
    && (kind != DIRECT ==> LoginUsable(c, V.StartsSsh(kind), V.StartsSsh(kind)))
    && (kind == Text("http_connect") && Get(c, Username).Text? ==> ':' !in Get(c, Username).text)
  }

  lemma SoundTestable(d: Dict, demo: bool, lib: V.Library)
    requires SoundProfile(d)
    ensures V.Validated(Object(d), demo, lib).Success? <==> Testable(d, demo, lib)
  {
    hide V.Validated, A.EndpointsAcceptable, HostsUsable, A.LoginAccepted, LoginUsable, A.Loopback, V.StartsSsh, MethodFits,
      IsProtocol, V.IsConnectorType;
    var c := d[Connector].fields;
    var kind := Get(c, Type);
    A.ValidatedExactly(Object(d), demo, lib);
    SoundEndpoints(d, lib);
    FittingLogin(d, true, Get(d, Protocol) != Text("telnet"));
    FittingLogin(c, V.StartsSsh(kind), V.StartsSsh(kind));
    assert V.Raw(d) == d[Connector];
  }

  /** No connection that the store accepts can make a test raise anything but a connector's own error. */
  lemma StoredProfilesNeverCrash(changes: seq<Change>, id: Identifier, keyOk: KeyCheck, demo: bool, lib: V.Library)
    ensures var store := ApplyAll(EMPTY, changes, keyOk);
            id in store.connections ==>
              var r := ResolvedConnection(store, id);
              r.Success? && V.Validated(Object(r.value), demo, lib) != Failure(V.Crash)
  {
    hide ApplyAll, StoreOk, ResolvedConnection, V.Validated, SoundProfile, C.Crashes;
    ReachableOk(changes, keyOk);
    var store := ApplyAll(EMPTY, changes, keyOk);
    if id in store.connections {
      ResolvedSound(store, id, keyOk);
      var d := ResolvedConnection(store, id).value;
      SoundCannotCrash(d, demo, lib);
      C.CrashesExactly(Object(d), demo, lib);
    }
  }

  /**
   A stored connection passes validation if and only if its hosts are usable, a shell tunnel serves Telnet, the demo
   rules hold where they apply, the device has a bounded login that its protocol can use, its connector a whole or absent
   one that its kind can use, and an HTTP user name has no colon. Nothing else can reject it.
   */
  lemma StoredConnectionAccepted(changes: seq<Change>, id: Identifier, keyOk: KeyCheck, demo: bool, lib: V.Library)
    ensures var store := ApplyAll(EMPTY, changes, keyOk);
            id in store.connections ==>
              var r := ResolvedConnection(store, id);
              && r.Success? && Connector in r.value && r.value[Connector].Object?
              && (V.Validated(Object(r.value), demo, lib).Success? <==> Testable(r.value, demo, lib))
  {
    hide ApplyAll, StoreOk, ResolvedConnection, V.Validated, Testable, SoundDevice, SoundConnector;
    ReachableOk(changes, keyOk);
    var store := ApplyAll(EMPTY, changes, keyOk);
    if id in store.connections {
      ResolvedSound(store, id, keyOk);
      SoundTestable(ResolvedConnection(store, id).value, demo, lib);
    }
  }
}
