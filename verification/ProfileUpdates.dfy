/** What saving writes to the three tables, what deleting removes, and what resolving a connection puts together. */
module ProfileUpdates {
  import opened Wrappers
  import opened Profiles
  import opened ProfileRows
  import opened ProfileSaving
  import opened ProfilePatches
  import opened ProfileStore

  // ---------------------------------------------------------------------------
  // What proxies and connections share.

  /** No role, or a stored one in a request without inline credentials. */
  predicate RoleNamed(store: Store, old_: Dict, payload: Dict) {
    var role := Asked(old_, payload, RoleAccountId);
    role.Null?
    || (ProperText(role, 36) && role.text in store.roles && forall k | k in payload && IsInline(k) :: !Truthy(payload[k]))
  }

  predicate CoreAccepted(store: Store, old_: Dict, payload: Dict) {
    && ProperText(Asked(old_, payload, Name), 200) && ProperText(Asked(old_, payload, Host), 255)
    && Between1And65535(Asked(old_, payload, Port))
    && RoleNamed(store, old_, payload) && TextsAccepted(payload)
    && (Asked(old_, payload, RoleAccountId).Null? ==>
          !(Truthy(Asked(old_, payload, Password)) && Truthy(Asked(old_, payload, PrivateKeyPath))))
  }

  /** The login asked for; a role clears it but for the trust file, and null clears a path. */
  ghost predicate LoginWritten(new_: Dict, old_: Dict, payload: Dict) {
    && (if Asked(old_, payload, RoleAccountId).Null? then
          && Stores(new_, Username, Asked(old_, payload, Username))
          && Stores(new_, PrivateKeyPath, Asked(old_, payload, PrivateKeyPath))
          && StoresSecret(new_, Password, Asked(old_, payload, Password))
        else Username !in new_ && PrivateKeyPath !in new_ && Password !in new_)
    && Stores(new_, KnownHostsPath, Asked(old_, payload, KnownHostsPath))
    && NoKeyMaterial(new_)
  }

  ghost predicate EndpointWritten(new_: Dict, id: Identifier, old_: Dict, payload: Dict) {
    && Asked(old_, payload, Name).Text? && Asked(old_, payload, Host).Text?
    && Get(new_, Id) == Text(id)
    && Get(new_, Name) == Text(Strip(Asked(old_, payload, Name).text))
    && Get(new_, Host) == Text(Strip(Asked(old_, payload, Host).text))
    && Get(new_, Port) == Asked(old_, payload, Port)
    && Get(new_, RoleAccountId) == Asked(old_, payload, RoleAccountId)
  }

  /** What the shared part of saving makes of the merged dictionary. */
  ghost predicate ProfileAsked(profile: Dict, old_: Dict, payload: Dict) {
    && (forall k | !IsChecked(k) :: (k in profile <==> IsAsked(old_, payload, k)) && Get(profile, k) == Asked(old_, payload, k))
    && (if Asked(old_, payload, RoleAccountId).Null? then
          && Stores(profile, Username, Asked(old_, payload, Username))
          && Stores(profile, PrivateKeyPath, Asked(old_, payload, PrivateKeyPath))
          && Stores(profile, Password, Asked(old_, payload, Password))
        else Username !in profile && PrivateKeyPath !in profile && Password !in profile)
    && Stores(profile, KnownHostsPath, Asked(old_, payload, KnownHostsPath))
    && NoKeyMaterial(profile)
  }

  lemma CheckedOfMerged(profile: Dict, old_: Dict, payload: Dict)
    requires profile == old_ + payload
    ensures forall k | IsChecked(k) :: (k in profile <==> IsAsked(old_, payload, k)) && Get(profile, k) == Asked(old_, payload, k)
  {
    MergedIsAsked(old_, payload);
  }

  lemma NoKeysAsked(old_: Dict, payload: Dict)
    requires NoKeyMaterial(old_) && NoKeyMaterial(payload)
    ensures forall k: Field | k.PrivateKey? || k.KeyPassphrase? || k.SecretKey? ::
              !IsAsked(old_, payload, k) && Asked(old_, payload, k).Null?
    ensures !Truthy(Null)
  {
  }

  lemma WithoutRole(profile: Dict, old_: Dict, payload: Dict)
    requires NoKeyMaterial(old_) && NoKeyMaterial(payload) && PlainLogin(old_) && profile == old_ + payload
    requires Asked(old_, payload, RoleAccountId).Null?
    ensures var r := InlineCredentials(profile, payload);
            && (r.Success? <==>
                  TextsAccepted(payload)
                  && !(Truthy(Asked(old_, payload, Password)) && Truthy(Asked(old_, payload, PrivateKeyPath))))
            && (r.Success? ==> ProfileAsked(r.value, old_, payload))
  {
    MergedIsAsked(old_, payload);
    CheckedOfMerged(profile, old_, payload);
    InlineExactly(profile, old_, payload);
    NoKeysAsked(old_, payload);
    hide InlineCredentials, TextsAccepted, PlainLogin, Asked, IsAsked, Truthy;
  }

  lemma WithRoleGiven(profile: Dict, old_: Dict, payload: Dict)
    requires NoKeyMaterial(old_) && NoKeyMaterial(payload) && PlainLogin(old_) && profile == WithoutInline(old_ + payload)
    requires !Asked(old_, payload, RoleAccountId).Null?
    ensures var r := InlineCredentials(profile, payload);
            && (r.Success? <==> TextsAccepted(payload))
            && (r.Success? ==> ProfileAsked(r.value, old_, payload))
  {
    hide TextsAccepted, PlainLogin, ProfileAsked, InlineAccepted;
    AcceptedAlike(payload);
    var kept := profile - Cleared(payload);
    assert !BothCredentials(kept) && !Truthy(Get(kept, KeyPassphrase));
    if TextsAccepted(payload) {
      TrustKept(kept, profile, old_, payload);
    }
  }

  lemma AcceptedAlike(payload: Dict)
    ensures InlineAccepted(payload) <==> TextsAccepted(payload)
  {
    hide PlainText;
  }

  lemma TrustKept(kept: Dict, profile: Dict, old_: Dict, payload: Dict)
    requires NoKeyMaterial(old_) && NoKeyMaterial(payload) && PlainLogin(old_) && TextsAccepted(payload)
    requires profile == WithoutInline(old_ + payload) && kept == profile - Cleared(payload)
    requires !Asked(old_, payload, RoleAccountId).Null?
    ensures ProfileAsked(kept, old_, payload)
  {
    PlainIsText();
    hide PlainText;
  }

  /** The shared part accepts exactly these requests, and makes of them what is asked for. */
  lemma CorePatched(store: Store, payload: Dict, old_: Dict)
    requires NoKeyMaterial(old_) && NoKeyMaterial(payload) && PlainLogin(old_)
    ensures var r := CoreFrom(store, payload, old_);
            && (r.Success? <==> CoreAccepted(store, old_, payload))
            && (r.Success? ==>
                  && Asked(old_, payload, Name).Text? && r.value.name == Strip(Asked(old_, payload, Name).text)
                  && Asked(old_, payload, Host).Text? && r.value.host == Strip(Asked(old_, payload, Host).text)
                  && Int(r.value.port) == Asked(old_, payload, Port) && r.value.roleId == Asked(old_, payload, RoleAccountId)
                  && ProfileAsked(r.value.profile, old_, payload))
  {
    RequiredExactly(Asked(old_, payload, Name), 200);
    RequiredExactly(Asked(old_, payload, Host), 255);
    ProperIsText(Asked(old_, payload, Name), 200);
    ProperIsText(Asked(old_, payload, Host), 255);
    MergedIsAsked(old_, payload);
    var merged := old_ + payload;
    RoleReferenceExactly(store, payload, merged);
    RoleValue(store, payload, merged);
    RoleNamedExactly(store, old_, payload);
    hide RequiredText, ProperText, Strip, Asked, TextsAccepted, InlineCredentials, RoleReference, ProfileAsked, NoKeyMaterial, PlainLogin,
      ReferenceOk, Truthy, RoleNamed;
    if Asked(old_, payload, RoleAccountId).Null? {
      WithoutRole(merged, old_, payload);
    } else {
      WithRoleGiven(WithoutInline(merged), old_, payload);
    }
    hide IsInline, WithoutInline, IsAsked;
  }

  lemma RoleValue(store: Store, payload: Dict, merged: Dict)
    ensures RoleReference(store, payload, merged).Success? ==>
              RoleReference(store, payload, merged).value
              == if Get(merged, RoleAccountId).Null? then merged else WithoutInline(merged)
  {
    hide RequiredText;
  }

  lemma RoleNamedExactly(store: Store, old_: Dict, payload: Dict)
    ensures var role := Asked(old_, payload, RoleAccountId);
            RoleNamed(store, old_, payload) <==>
              role.Null? || (ReferenceOk(role, store.roles) && forall k | k in payload && IsInline(k) :: !Truthy(payload[k]))
  {
    ReferenceExactly(Asked(old_, payload, RoleAccountId), store.roles);
    hide ReferenceOk, ProperText, Asked;
  }

  lemma ReferenceExactly<R>(v: Value, rows: map<Identifier, R>)
    ensures ReferenceOk(v, rows) <==> v.Null? || (ProperText(v, 36) && v.text in rows)
  {
    RequiredExactly(v, 36);
    hide Strip;
  }

  // ---------------------------------------------------------------------------
  // Proxies.

  predicate ProxyAccepted(store: Store, old_: Dict, payload: Dict) {
    CoreAccepted(store, old_, payload) && IsProxyType(Asked(old_, payload, Type))
  }

  ghost predicate ProxyWritten(new_: Dict, id: Identifier, old_: Dict, payload: Dict) {
    && EndpointWritten(new_, id, old_, payload) && LoginWritten(new_, old_, payload)
    && Get(new_, Type) == Asked(old_, payload, Type)
    && forall k | k in new_ :: k.Id? || IsProxyField(k)
  }

  /** The login fields of a row are those of the profile, its secrets the ones worth storing. */
  ghost predicate CutFrom(configuration: Dict, secrets: Dict, profile: Dict) {
    && (forall k | IsPublicLogin(k) :: (k in configuration <==> k in profile) && Get(configuration, k) == Get(profile, k))
    && (forall k | k in configuration :: !IsSecret(k))
    && (forall k | IsSecret(k) ::
          (k in secrets <==> k in profile && Truthy(profile[k])) && (k in secrets ==> secrets[k] == profile[k]))
    && (forall k | k in secrets :: IsSecret(k) || k.Connector?)
  }

  /** The login columns cut from a profile decode to the login asked for. */
  lemma LoginStored(new_: Dict, columns: Dict, configuration: Dict, secrets: Dict, profile: Dict, old_: Dict, payload: Dict)
    requires ProfileAsked(profile, old_, payload) && JoinOf(new_, columns, configuration, secrets)
    requires forall k | k in columns :: !IsChecked(k) && !IsSecret(k)
    requires CutFrom(configuration, secrets, profile)
    ensures LoginWritten(new_, old_, payload)
  {
    hide Asked, Truthy, IsAsked;
    NullIsFalse();
    assert IsPublicLogin(Username) && IsPublicLogin(PrivateKeyPath) && IsPublicLogin(KnownHostsPath);
    assert IsSecret(Password) && IsSecret(PrivateKey) && IsSecret(KeyPassphrase) && IsSecret(SecretKey);
    assert !IsSecret(Username) && !IsSecret(PrivateKeyPath) && !IsSecret(KnownHostsPath);
  }

  lemma PartsOf(profile: Dict)
    ensures CutFrom(PublicLogin(profile), SecretPart(profile), profile)
    ensures forall k | k in PublicLogin(profile) :: IsPublicLogin(k)
  {
  }

  lemma ProxyPatched(store: Store, payload: Dict, old_: Dict, id: Identifier)
    requires NoKeyMaterial(old_) && PlainLogin(old_) && forall k | k in payload :: IsProxyField(k)
    ensures var r := ProxyFrom(store, payload, old_);
            && (r.Success? <==> ProxyAccepted(store, old_, payload))
            && (r.Success? ==> ProxyWritten(StoredProxy(id, r.value), id, old_, payload))
  {
    ProxyFieldsHaveNoKeys(payload);
    CorePatched(store, payload, old_);
    hide CoreFrom, CoreAccepted, NoKeyMaterial, PlainLogin, IsProxyType, Asked, Strip, StoredProxy, PublicLogin, SecretPart, ProxyWritten;
    var core := CoreFrom(store, payload, old_);
    if core.Success? {
      TypeAsked(core.value.profile, old_, payload);
      var r := ProxyFrom(store, payload, old_);
      if r.Success? {
        ProxyStored(r.value, id, core.value, old_, payload);
      }
    }
  }

  lemma TypeAsked(profile: Dict, old_: Dict, payload: Dict)
    requires ProfileAsked(profile, old_, payload)
    ensures Get(profile, Type) == Asked(old_, payload, Type)
  {
  }

  lemma ProxyStored(row: ProxyRow, id: Identifier, core: Core, old_: Dict, payload: Dict)
    requires ProfileAsked(core.profile, old_, payload) && Get(core.profile, Type) == Asked(old_, payload, Type)
    requires Asked(old_, payload, Name).Text? && core.name == Strip(Asked(old_, payload, Name).text)
    requires Asked(old_, payload, Host).Text? && core.host == Strip(Asked(old_, payload, Host).text)
    requires Int(core.port) == Asked(old_, payload, Port) && core.roleId == Asked(old_, payload, RoleAccountId)
    requires row == ProxyRow(core.name, Get(core.profile, Type), core.host, core.port, core.roleId,
                             PublicLogin(core.profile), SecretPart(core.profile))
    ensures ProxyWritten(StoredProxy(id, row), id, old_, payload)
  {
    ProxyLoginStored(row, id, core.profile, old_, payload);
    ProxyColumnsStored(row, id, core.profile, old_, payload);
    ProxyColumnFields(id, row);
    ColumnsId(id, row);
    hide StoredProxy, ProxyColumns, PublicLogin, SecretPart, Asked, Strip, ProfileAsked, LoginWritten, IsProxyField, IsChecked, IsSecret;
  }

  lemma ProxyLoginStored(row: ProxyRow, id: Identifier, profile: Dict, old_: Dict, payload: Dict)
    requires ProfileAsked(profile, old_, payload)
    requires row.configuration == PublicLogin(profile) && row.secrets == SecretPart(profile)
    ensures LoginWritten(StoredProxy(id, row), old_, payload)
  {
    PartsOf(profile);
    OnlyPassword(profile, old_, payload);
    ProxyColumnFields(id, row);
    MergedFields(ProxyColumns(id, row), row.configuration, row.secrets);
    hide Merged, ProxyColumns, PublicLogin, SecretPart, ProfileAsked, LoginWritten, Truthy, JoinOf, CutFrom;
    LoginStored(StoredProxy(id, row), ProxyColumns(id, row), row.configuration, row.secrets, profile, old_, payload);
  }

  lemma ProxyColumnsStored(row: ProxyRow, id: Identifier, profile: Dict, old_: Dict, payload: Dict)
    requires ProfileAsked(profile, old_, payload)
    requires row.configuration == PublicLogin(profile) && row.secrets == SecretPart(profile)
    ensures Covers(StoredProxy(id, row), ProxyColumns(id, row))
    ensures forall k | k in StoredProxy(id, row) :: k.Id? || IsProxyField(k)
  {
    var new_, columns := StoredProxy(id, row), ProxyColumns(id, row);
    PartsOf(profile);
    OnlyPassword(profile, old_, payload);
    ProxyColumnFields(id, row);
    ColumnsId(id, row);
    MergedFields(columns, row.configuration, row.secrets);
    MergedConnector(columns, row.configuration, row.secrets);
    hide Merged, ProxyColumns, PublicLogin, SecretPart, ProfileAsked, JoinOf, Covers, CutFrom;
    JoinCovers(new_, columns, row.configuration, row.secrets);
    JoinBounded(new_, columns, row.configuration, row.secrets);
  }

  lemma JoinBounded(m: Dict, columns: Dict, configuration: Dict, secrets: Dict)
    requires JoinOf(m, columns, configuration, secrets)
    requires forall k | k in columns :: k.Id? || IsProxyField(k)
    requires forall k | k in configuration :: IsPublicLogin(k)
    requires forall k | k in secrets :: k.Password?
    requires Connector !in m
    ensures forall k | k in m :: k.Id? || IsProxyField(k)
  {
  }

  lemma ColumnsId(id: Identifier, row: ProxyRow)
    ensures var d := ProxyColumns(id, row); Id in d && d[Id] == Text(id) && forall k | k in d :: k.Id? || IsProxyField(k)
  {
  }

  lemma OnlyPassword(profile: Dict, old_: Dict, payload: Dict)
    requires ProfileAsked(profile, old_, payload)
    ensures forall k | k in SecretPart(profile) :: k.Password?
    ensures Connector !in PublicLogin(profile) && Connector !in SecretPart(profile)
  {
  }

  // ---------------------------------------------------------------------------
  // Connections.

  function OldConnector(old_: Dict): Dict {
    if Get(old_, Connector).Object? then old_[Connector].fields else map[]
  }

  /** A stored proxy in a request without a connector, or no proxy and an acceptable connector. */
  predicate RouteAccepted(store: Store, old_: Dict, payload: Dict, keyOk: KeyCheck) {
    var proxy := Asked(old_, payload, ProxyId);
    if proxy.Null? then Connector in payload ==> ConnectorAccepted(OldConnector(old_), payload[Connector], keyOk)
    else ProperText(proxy, 36) && proxy.text in store.proxies && Connector !in payload
  }

  predicate ConnectionAccepted(store: Store, old_: Dict, payload: Dict, keyOk: KeyCheck) {
    && CoreAccepted(store, old_, payload)
    && IsProtocol(Asked(old_, payload, Protocol))
    && (IsAsked(old_, payload, ClientType) ==>
          Asked(old_, payload, ClientType) == Text("network") || Asked(old_, payload, ClientType) == Text("fake"))
    && (IsAsked(old_, payload, TimeoutSeconds) ==> ValidTimeout(Asked(old_, payload, TimeoutSeconds)))
    && RouteAccepted(store, old_, payload, keyOk)
  }

  /** The connector asked for, the stored one where none is, and a direct connection where there is none either. */
  ghost predicate ConnectorAsked(c: Dict, old_: Dict, payload: Dict) {
    if Connector in payload then ConnectorWritten(c, OldConnector(old_), payload[Connector])
    else Object(c) == if Connector in old_ then old_[Connector] else Object(map[Type := Text("direct")])
  }

  ghost predicate RouteWritten(new_: Dict, old_: Dict, payload: Dict) {
    if Asked(old_, payload, ProxyId).Null? then
      Connector in new_ && new_[Connector].Object? && ConnectorAsked(new_[Connector].fields, old_, payload)
    else Connector !in new_
  }

  predicate TimeoutWritten(new_: Dict, old_: Dict, payload: Dict) {
    Get(new_, TimeoutSeconds) == match Asked(old_, payload, TimeoutSeconds)
                                 case Null => Float(10.0)
                                 case Int(n) => Float(n as real)
                                 case v => v
  }

  ghost predicate ConnectionWritten(new_: Dict, id: Identifier, old_: Dict, payload: Dict) {
    && EndpointWritten(new_, id, old_, payload) && LoginWritten(new_, old_, payload)
    && Get(new_, Protocol) == Asked(old_, payload, Protocol)
    && TimeoutWritten(new_, old_, payload)
    && Get(new_, ProxyId) == Asked(old_, payload, ProxyId)
    && Get(new_, ClientType) == (if IsAsked(old_, payload, ClientType) then Asked(old_, payload, ClientType) else Text("network"))
    && RouteWritten(new_, old_, payload)
    && forall k | k in new_ :: k.Id? || IsConnectionField(k)
  }

  /** How a connector is divided over the two columns. */
  function Divided(c: Dict): (Dict, Dict) {
    (map[Connector := Object(PublicPart(c))],
     if SecretPart(c) == map[] then map[] else map[Connector := Object(SecretPart(c))])
  }

  lemma KeptWhole(c: Dict, keyOk: KeyCheck)
    requires ConnectorOk(c, keyOk)
    ensures Kept(c) == c
  {
    hide EndpointOk, PlainLogin, BothCredentials, HasKey;
  }

  /** A request that names no connector keeps the stored one, or gets a direct one. */
  lemma KeptConnector(store: Store, payload: Dict, old_: Dict, profile: Dict, keyOk: KeyCheck)
    requires Usable(old_, keyOk) && Connector !in payload && Get(profile, ProxyId).Null?
    requires (Connector in profile <==> Connector in old_) && Get(profile, Connector) == Get(old_, Connector)
    ensures var r := RouteFrom(store, payload, old_, profile, keyOk);
            var c := if Connector in old_ then OldConnector(old_) else map[Type := DIRECT];
            r == Success(Divided(c)) && ConnectorAsked(Kept(c), old_, payload)
  {
    var c := if Connector in old_ then OldConnector(old_) else map[Type := DIRECT];
    DirectOk(keyOk);
    ConnectorIdentity(c, keyOk);
    KeptWhole(c, keyOk);
    hide ConnectorFrom, ConnectorOk, PublicPart, SecretPart, Kept, RequiredText, NoKeyMaterial, PlainLogin;
  }

  lemma DirectOk(keyOk: KeyCheck)
    ensures ConnectorOk(map[Type := DIRECT], keyOk)
  {
  }

  lemma GivenConnector(store: Store, payload: Dict, old_: Dict, profile: Dict, keyOk: KeyCheck)
    requires Usable(old_, keyOk) && Connector in payload && Get(profile, ProxyId).Null?
    requires Connector in profile && profile[Connector] == payload[Connector]
    ensures var r, c := RouteFrom(store, payload, old_, profile, keyOk), ConnectorFrom(payload[Connector], OldConnector(old_), keyOk);
            && (r.Success? <==> ConnectorAccepted(OldConnector(old_), payload[Connector], keyOk))
            && (r.Success? ==> c.Success? && r.value == Divided(c.value) && ConnectorAsked(Kept(c.value), old_, payload))
  {
    ConnectorPatched(payload[Connector], OldConnector(old_), keyOk);
    hide ConnectorFrom, ConnectorOk, PublicPart, SecretPart, Kept, RequiredText, NoKeyMaterial, PlainLogin, ConnectorAccepted,
      ConnectorWritten;
  }

  /** What the route part yields. */
  ghost predicate RouteCut(route: (Dict, Dict), old_: Dict, payload: Dict) {
    if Asked(old_, payload, ProxyId).Null? then exists c :: route == Divided(c) && ConnectorAsked(Kept(c), old_, payload)
    else route == (map[], map[])
  }

  lemma RoutePatched(store: Store, payload: Dict, old_: Dict, profile: Dict, keyOk: KeyCheck)
    requires Usable(old_, keyOk) && ProfileAsked(profile, old_, payload)
    ensures var r := RouteFrom(store, payload, old_, profile, keyOk);
            && (r.Success? <==> RouteAccepted(store, old_, payload, keyOk))
            && (r.Success? ==> RouteCut(r.value, old_, payload))
  {
    var proxy := Asked(old_, payload, ProxyId);
    RouteFields(profile, old_, payload);
    if proxy.Null? {
      hide RouteFrom, ConnectorAccepted, ConnectorAsked, ConnectorFrom, Divided, Kept, Usable, ProfileAsked;
      if Connector in payload {
        GivenConnector(store, payload, old_, profile, keyOk);
      } else {
        KeptConnector(store, payload, old_, profile, keyOk);
      }
    } else {
      RequiredExactly(proxy, 36);
      hide RequiredText, ProperText, ConnectorFrom, Usable, ProfileAsked, ConnectorAccepted, Strip;
    }
  }

  lemma RouteFields(profile: Dict, old_: Dict, payload: Dict)
    requires ProfileAsked(profile, old_, payload)
    ensures Get(profile, ProxyId) == Asked(old_, payload, ProxyId)
    ensures (Connector in profile <==> IsAsked(old_, payload, Connector))
            && Get(profile, Connector) == Asked(old_, payload, Connector)
    ensures Get(profile, Protocol) == Asked(old_, payload, Protocol)
    ensures (ClientType in profile <==> IsAsked(old_, payload, ClientType))
            && Get(profile, ClientType) == Asked(old_, payload, ClientType)
    ensures (TimeoutSeconds in profile <==> IsAsked(old_, payload, TimeoutSeconds))
            && Get(profile, TimeoutSeconds) == Asked(old_, payload, TimeoutSeconds)
  {
  }

  lemma ConnectionPatched(store: Store, payload: Dict, old_: Dict, id: Identifier, keyOk: KeyCheck)
    requires Usable(old_, keyOk) && forall k | k in payload :: IsConnectionField(k)
    ensures var r := ConnectionFrom(store, payload, old_, keyOk);
            && (r.Success? <==> ConnectionAccepted(store, old_, payload, keyOk))
            && (r.Success? ==> ConnectionWritten(StoredConnection(id, r.value), id, old_, payload))
  {
    ConnectionFieldsHaveNoKeys(payload);
    CorePatched(store, payload, old_);
    hide CoreFrom, CoreAccepted, NoKeyMaterial, PlainLogin, IsProtocol, Asked, IsAsked, Strip, StoredConnection, PublicLogin, SecretPart,
      ConnectionWritten, RouteAccepted, RouteFrom, RouteCut, ValidTimeout, Seconds, ConnectorOk;
    var core := CoreFrom(store, payload, old_);
    if core.Success? {
      var profile := core.value.profile;
      FieldsAccepted(profile, old_, payload);
      RoutePatched(store, payload, old_, profile, keyOk);
      hide ProfileAsked, Usable, GetOr, IsClientType;
      var r := ConnectionFrom(store, payload, old_, keyOk);
      if r.Success? {
        var route := RouteFrom(store, payload, old_, profile, keyOk).value;
        ConnectionStored(r.value, id, core.value, route, old_, payload);
      }
    }
  }

  lemma FieldsAccepted(profile: Dict, old_: Dict, payload: Dict)
    requires ProfileAsked(profile, old_, payload)
    ensures Get(profile, Protocol) == Asked(old_, payload, Protocol)
    ensures IsClientType(GetOr(profile, ClientType, NETWORK)) <==>
              (IsAsked(old_, payload, ClientType) ==>
                 Asked(old_, payload, ClientType) == Text("network") || Asked(old_, payload, ClientType) == Text("fake"))
    ensures ValidTimeout(GetOr(profile, TimeoutSeconds, Int(10))) <==>
              (IsAsked(old_, payload, TimeoutSeconds) ==> ValidTimeout(Asked(old_, payload, TimeoutSeconds)))
  {
    RouteFields(profile, old_, payload);
    hide ProfileAsked, Asked, IsAsked;
  }

  lemma ConnectionFieldsHaveNoKeys(payload: Dict)
    requires forall k | k in payload :: IsConnectionField(k)
    ensures NoKeyMaterial(payload)
  {
  }

  lemma ConnectionStored(row: ConnectionRow, id: Identifier, core: Core, route: (Dict, Dict), old_: Dict, payload: Dict)
    requires ProfileAsked(core.profile, old_, payload) && RouteCut(route, old_, payload)
    requires Asked(old_, payload, Name).Text? && core.name == Strip(Asked(old_, payload, Name).text)
    requires Asked(old_, payload, Host).Text? && core.host == Strip(Asked(old_, payload, Host).text)
    requires Int(core.port) == Asked(old_, payload, Port) && core.roleId == Asked(old_, payload, RoleAccountId)
    requires ValidTimeout(GetOr(core.profile, TimeoutSeconds, Int(10)))
    requires row == ConnectionRow(core.name, Get(core.profile, Protocol), core.host, core.port,
                                  Seconds(GetOr(core.profile, TimeoutSeconds, Int(10))), core.roleId, Get(core.profile, ProxyId),
                                  PublicLogin(core.profile) + map[ClientType := GetOr(core.profile, ClientType, NETWORK)] + route.0,
                                  SecretPart(core.profile) + route.1)
    ensures ConnectionWritten(StoredConnection(id, row), id, old_, payload)
  {
    ConnectionParts(row, core.profile, route, old_, payload);
    ConnectionLoginStored(row, id, core.profile, old_, payload);
    ConnectionColumnsStored(row, id);
    ConnectionRouteStored(row, id, core.profile, route, old_, payload);
    RouteFields(core.profile, old_, payload);
    TimeoutStays(core.profile, old_, payload);
    hide StoredConnection, PublicLogin, SecretPart, Asked, IsAsked, Strip, ProfileAsked, LoginWritten, IsConnectionField, RouteWritten,
      RouteCut, ConnectionBounds, Seconds, ValidTimeout, TimeoutWritten, CutFrom, JoinOf;
    ConnectionCovered(StoredConnection(id, row), id, row);
  }

  lemma ConnectionCovered(new_: Dict, id: Identifier, row: ConnectionRow)
    requires Covers(new_, ConnectionColumns(id, row))
    ensures Get(new_, Id) == Text(id) && Get(new_, Name) == Text(row.name) && Get(new_, Host) == Text(row.host)
    ensures Get(new_, Port) == Int(row.port) && Get(new_, RoleAccountId) == row.roleId && Get(new_, ProxyId) == row.proxyId
    ensures Get(new_, Protocol) == row.protocol && Get(new_, TimeoutSeconds) == Float(row.timeout)
  {
    ConnectionColumnFields(id, row);
    ConnectionColumnsId(id, row);
    hide ConnectionColumns, IsConnectionField, IsPublicLogin, IsChecked, IsSecret;
  }

  lemma TimeoutStays(profile: Dict, old_: Dict, payload: Dict)
    requires ProfileAsked(profile, old_, payload) && ValidTimeout(GetOr(profile, TimeoutSeconds, Int(10)))
    ensures forall new_: Dict | Get(new_, TimeoutSeconds) == Float(Seconds(GetOr(profile, TimeoutSeconds, Int(10)))) ::
              TimeoutWritten(new_, old_, payload)
  {
    RouteFields(profile, old_, payload);
    hide ProfileAsked, Asked;
  }

  /** Which keys the two columns of a connection may have. */
  ghost predicate ConnectionBounds(row: ConnectionRow) {
    && (forall k | k in row.configuration :: IsPublicLogin(k) || k.ClientType? || k.Connector?)
    && (forall k | k in row.secrets :: k.Password? || k.Connector?)
    && ClientType in row.configuration
  }

  lemma ConnectionParts(row: ConnectionRow, profile: Dict, route: (Dict, Dict), old_: Dict, payload: Dict)
    requires ProfileAsked(profile, old_, payload) && RouteCut(route, old_, payload)
    requires row.configuration == PublicLogin(profile) + map[ClientType := GetOr(profile, ClientType, NETWORK)] + route.0
    requires row.secrets == SecretPart(profile) + route.1
    ensures CutFrom(row.configuration, row.secrets, profile) && ConnectionBounds(row)
    ensures row.configuration[ClientType] == GetOr(profile, ClientType, NETWORK)
    ensures (Connector in row.configuration <==> Connector in route.0) && Get(row.configuration, Connector) == Get(route.0, Connector)
    ensures (Connector in row.secrets <==> Connector in route.1) && Get(row.secrets, Connector) == Get(route.1, Connector)
  {
    PartsOf(profile);
    OnlyPassword(profile, old_, payload);
    RouteKeys(route, old_, payload);
    hide PublicLogin, SecretPart, ProfileAsked, RouteCut, Truthy, CutFrom;
    Widened(row, PublicLogin(profile), SecretPart(profile), profile, GetOr(profile, ClientType, NETWORK), route);
  }

  lemma Widened(row: ConnectionRow, login: Dict, secrets: Dict, profile: Dict, clientType: Value, route: (Dict, Dict))
    requires CutFrom(login, secrets, profile)
    requires (forall k | k in login :: IsPublicLogin(k)) && (forall k | k in secrets :: k.Password?)
    requires forall k | k in route.0 || k in route.1 :: k.Connector?
    requires row.configuration == login + map[ClientType := clientType] + route.0 && row.secrets == secrets + route.1
    ensures CutFrom(row.configuration, row.secrets, profile) && ConnectionBounds(row)
    ensures row.configuration[ClientType] == clientType
    ensures (Connector in row.configuration <==> Connector in route.0) && Get(row.configuration, Connector) == Get(route.0, Connector)
    ensures (Connector in row.secrets <==> Connector in route.1) && Get(row.secrets, Connector) == Get(route.1, Connector)
  {
    WidenedConfiguration(row.configuration, login, clientType, route.0);
    WidenedSecrets(row.secrets, secrets, route.1);
    hide Truthy;
  }

  lemma WidenedConfiguration(configuration: Dict, login: Dict, clientType: Value, public_: Dict)
    requires (forall k | k in login :: IsPublicLogin(k)) && (forall k | k in public_ :: k.Connector?)
    requires configuration == login + map[ClientType := clientType] + public_
    ensures forall k | IsPublicLogin(k) :: (k in configuration <==> k in login) && Get(configuration, k) == Get(login, k)
    ensures forall k | k in configuration :: IsPublicLogin(k) || k.ClientType? || k.Connector?
    ensures ClientType in configuration && configuration[ClientType] == clientType
    ensures (Connector in configuration <==> Connector in public_) && Get(configuration, Connector) == Get(public_, Connector)
  {
  }

  lemma WidenedSecrets(all: Dict, secrets: Dict, hidden: Dict)
    requires (forall k | k in secrets :: k.Password?) && (forall k | k in hidden :: k.Connector?) && all == secrets + hidden
    ensures forall k | IsSecret(k) :: (k in all <==> k in secrets) && Get(all, k) == Get(secrets, k)
    ensures forall k | k in all :: k.Password? || k.Connector?
    ensures (Connector in all <==> Connector in hidden) && Get(all, Connector) == Get(hidden, Connector)
  {
  }

  lemma RouteKeys(route: (Dict, Dict), old_: Dict, payload: Dict)
    requires RouteCut(route, old_, payload)
    ensures forall k | k in route.0 || k in route.1 :: k.Connector?
  {
  }

  lemma ConnectionLoginStored(row: ConnectionRow, id: Identifier, profile: Dict, old_: Dict, payload: Dict)
    requires ProfileAsked(profile, old_, payload) && CutFrom(row.configuration, row.secrets, profile)
    ensures LoginWritten(StoredConnection(id, row), old_, payload)
  {
    ConnectionColumnFields(id, row);
    MergedFields(ConnectionColumns(id, row), row.configuration, row.secrets);
    hide Merged, ConnectionColumns, ProfileAsked, LoginWritten, JoinOf, CutFrom;
    LoginStored(StoredConnection(id, row), ConnectionColumns(id, row), row.configuration, row.secrets, profile, old_, payload);
  }

  lemma ConnectionColumnsId(id: Identifier, row: ConnectionRow)
    ensures var d := ConnectionColumns(id, row);
            Id in d && d[Id] == Text(id)
            && forall k | k in d :: (k.Id? || IsConnectionField(k)) && !IsPublicLogin(k) && !k.ClientType? && !k.Password? && !k.Connector?
  {
  }

  lemma ConnectionColumnsStored(row: ConnectionRow, id: Identifier)
    requires ConnectionBounds(row)
    ensures var new_ := StoredConnection(id, row);
            && Covers(new_, ConnectionColumns(id, row))
            && Get(new_, ClientType) == row.configuration[ClientType]
            && forall k | k in new_ :: k.Id? || IsConnectionField(k)
  {
    ConnectionColumnsId(id, row);
    MergedFields(ConnectionColumns(id, row), row.configuration, row.secrets);
    hide Merged, ConnectionColumns;
  }

  lemma ConnectionRouteStored(row: ConnectionRow, id: Identifier, profile: Dict, route: (Dict, Dict), old_: Dict, payload: Dict)
    requires RouteCut(route, old_, payload)
    requires (Connector in row.configuration <==> Connector in route.0) && Get(row.configuration, Connector) == Get(route.0, Connector)
    requires (Connector in row.secrets <==> Connector in route.1) && Get(row.secrets, Connector) == Get(route.1, Connector)
    ensures RouteWritten(StoredConnection(id, row), old_, payload)
  {
    ConnectionColumnsId(id, row);
    MergedConnector(ConnectionColumns(id, row), row.configuration, row.secrets);
    hide Merged, ConnectionColumns, ConnectorAsked, PublicPart, SecretPart, Kept;
    if Asked(old_, payload, ProxyId).Null? {
      var c :| route == Divided(c) && ConnectorAsked(Kept(c), old_, payload);
      PartsJoin(c);
      assert Get(StoredConnection(id, row), Connector) == Object(Kept(c));
    }
  }

  lemma PartsJoin(c: Dict)
    ensures PublicPart(c) + SecretPart(c) == Kept(c)
    ensures SecretPart(c) == map[] ==> Kept(c) == PublicPart(c)
  {
    hide PublicPart, SecretPart;
  }
}
