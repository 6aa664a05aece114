/** Saving connections and proxies: every saved row is sound, and an empty patch changes nothing. */
module ProfileSaving {
  import opened Wrappers
  import opened Profiles
  import opened ProfileRows

  /** Outside the connector a decoded row is its secrets over its configuration over its columns. */
  ghost predicate JoinOf(m: Dict, columns: Dict, configuration: Dict, secrets: Dict) {
    && (forall k | k != Connector :: k in m <==> k in columns || k in configuration || k in secrets)
    && (forall k | k != Connector && k in m ::
          m[k] == if k in secrets then secrets[k] else if k in configuration then configuration[k] else columns[k])
  }

  lemma MergedFields(columns: Dict, configuration: Dict, secrets: Dict)
    ensures JoinOf(Merged(columns, configuration, secrets), columns, configuration, secrets)
  {
  }

  lemma MergedConnector(columns: Dict, configuration: Dict, secrets: Dict)
    requires Connector !in columns
    ensures var m := Merged(columns, configuration, secrets);
            && (Connector !in configuration && Connector !in secrets ==> Connector !in m)
            && (Connector !in secrets && Connector in configuration ==> Get(m, Connector) == configuration[Connector])
            && (Connector in secrets && secrets[Connector].Object? && secrets[Connector].fields != map[]
                && Connector in configuration && configuration[Connector].Object? ==>
                  Get(m, Connector) == Object(configuration[Connector].fields + secrets[Connector].fields))
  {
  }

  lemma ProxyColumnFields(id: Identifier, row: ProxyRow)
    ensures var d := ProxyColumns(id, row);
            && (forall k | k in d :: !IsChecked(k) && !IsSecret(k) && !k.Connector?)
            && Get(d, Name) == Text(row.name) && Get(d, Host) == Text(row.host) && Get(d, Port) == Int(row.port)
            && Get(d, Type) == row.kind && Get(d, RoleAccountId) == row.roleId
            && Name in d && Host in d && Port in d && Type in d && RoleAccountId in d
  {
  }

  lemma ConnectionColumnFields(id: Identifier, row: ConnectionRow)
    ensures var d := ConnectionColumns(id, row);
            && (forall k | k in d :: !IsChecked(k) && !IsSecret(k) && !k.Connector? && !k.ClientType?)
            && Get(d, Name) == Text(row.name) && Get(d, Host) == Text(row.host) && Get(d, Port) == Int(row.port)
            && Get(d, Protocol) == row.protocol && Get(d, TimeoutSeconds) == Float(row.timeout)
            && Get(d, RoleAccountId) == row.roleId && Get(d, ProxyId) == row.proxyId
            && Name in d && Host in d && Port in d && Protocol in d && TimeoutSeconds in d && RoleAccountId in d && ProxyId in d
  {
  }

  /** The login columns of a row survive decoding exactly. */
  lemma DecodedLogin(m: Dict, columns: Dict, configuration: Dict, secrets: Dict, roleId: Value)
    requires JoinOf(m, columns, configuration, secrets)
    requires forall k | k in columns :: !IsChecked(k) && !IsSecret(k)
    requires forall k | k in configuration :: !IsSecret(k)
    requires forall k | k in secrets :: k.Password? || k.Connector?
    requires LoginOk(roleId, configuration, secrets)
    ensures NoKeyMaterial(m) && PlainLogin(m)
    ensures !BothCredentials(m)
    ensures !roleId.Null? ==> Password !in m && Username !in m && PrivateKeyPath !in m
    ensures PublicLogin(m) == PublicLogin(configuration)
    ensures SecretPart(m) == secrets - {Connector}
  {
    DecodedCredentials(m, columns, configuration, secrets, roleId);
    DecodedParts(m, columns, configuration, secrets, roleId);
    DecodedPlain(m, columns, configuration, secrets, roleId);
    hide JoinOf, LoginOk, NoKeyMaterial, PlainLogin, BothCredentials, PublicLogin, SecretPart;
  }

  lemma DecodedPlain(m: Dict, columns: Dict, configuration: Dict, secrets: Dict, roleId: Value)
    requires JoinOf(m, columns, configuration, secrets)
    requires forall k | k in columns :: !IsChecked(k) && !IsSecret(k)
    requires forall k | k in configuration :: !IsSecret(k)
    requires forall k | k in secrets :: k.Password? || k.Connector?
    requires LoginOk(roleId, configuration, secrets)
    ensures NoKeyMaterial(m) && PlainLogin(m)
  {
    hide PlainText, Truthy;
  }

  lemma DecodedCredentials(m: Dict, columns: Dict, configuration: Dict, secrets: Dict, roleId: Value)
    requires JoinOf(m, columns, configuration, secrets)
    requires forall k | k in columns :: !IsChecked(k) && !IsSecret(k)
    requires forall k | k in configuration :: !IsSecret(k)
    requires forall k | k in secrets :: k.Password? || k.Connector?
    requires LoginOk(roleId, configuration, secrets)
    ensures !BothCredentials(m)
    ensures !roleId.Null? ==> Password !in m && Username !in m && PrivateKeyPath !in m
  {
    hide PlainText;
    assert PrivateKey !in m;
    assert Password in m <==> Password in secrets;
    assert PrivateKeyPath in m ==> m[PrivateKeyPath] == configuration[PrivateKeyPath];
    assert PrivateKeyPath in m <==> PrivateKeyPath in configuration;
  }

  lemma DecodedParts(m: Dict, columns: Dict, configuration: Dict, secrets: Dict, roleId: Value)
    requires JoinOf(m, columns, configuration, secrets)
    requires forall k | k in columns :: !IsChecked(k) && !IsSecret(k)
    requires forall k | k in configuration :: !IsSecret(k)
    requires forall k | k in secrets :: k.Password? || k.Connector?
    requires Password in secrets ==> Truthy(secrets[Password])
    ensures PublicLogin(m) == PublicLogin(configuration)
    ensures SecretPart(m) == secrets - {Connector}
  {
  }

  /** Key material never reaches the columns of a connection or a proxy. */
  ghost predicate NoKeyMaterial(d: Dict) {
    PrivateKey !in d && KeyPassphrase !in d && SecretKey !in d
  }

  ghost predicate CoreOk(core: Core, store: Store, merged: Dict) {
    && CleanText(core.name, 200) && CleanText(core.host, 255) && 1 <= core.port <= 65535
    && LoginOk(core.roleId, PublicLogin(core.profile), SecretPart(core.profile))
    && ReferenceOk(core.roleId, store.roles)
    && (forall k | k in SecretPart(core.profile) :: k.Password?)
    && (forall k | !IsChecked(k) :: k in core.profile <==> k in merged)
    && (forall k | !IsChecked(k) && k in core.profile :: core.profile[k] == merged[k])
  }

  lemma LoginFromOk(store: Store, payload: Dict, merged: Dict, u: Dict, p: Dict)
    requires NoKeyMaterial(merged)
    requires forall k | k in payload :: k in merged && merged[k] == payload[k]
    requires forall k | k in merged && IsChecked(k) && k !in payload :: PlainText(merged[k], 65536)
    requires RoleReference(store, payload, merged) == Success(u)
    requires InlineCredentials(u, payload) == Success(p)
    ensures LoginOk(Get(merged, RoleAccountId), PublicLogin(p), SecretPart(p))
    ensures forall k | k in SecretPart(p) :: k.Password?
    ensures forall k | !IsChecked(k) :: k in p <==> k in merged
    ensures forall k | !IsChecked(k) && k in p :: p[k] == merged[k]
  {
    hide PlainText, RequiredText;
    InlineLeavesPlain(u, payload);
  }

  lemma MergedLogin(payload: Dict, previous: Dict)
    requires NoKeyMaterial(payload) && NoKeyMaterial(previous) && PlainLogin(previous)
    ensures var merged := previous + payload;
            && NoKeyMaterial(merged)
            && (forall k | k in payload :: k in merged && merged[k] == payload[k])
            && (forall k | k in merged && IsChecked(k) && k !in payload :: PlainText(merged[k], 65536))
  {
    hide PlainText;
  }

  lemma CoreFromOk(store: Store, payload: Dict, previous: Dict)
    requires NoKeyMaterial(payload) && NoKeyMaterial(previous) && PlainLogin(previous)
    ensures var r := CoreFrom(store, payload, previous); r.Success? ==> CoreOk(r.value, store, previous + payload)
  {
    hide PlainText, RequiredText, CleanText, RoleReference, InlineCredentials, LoginOk, ReferenceOk, PublicLogin, SecretPart;
    var merged := previous + payload;
    RequiredTextIsClean(Get(merged, Name), 200);
    RequiredTextIsClean(Get(merged, Host), 255);
    RoleKnown(store, payload, merged);
    MergedLogin(payload, previous);
    var r := CoreFrom(store, payload, previous);
    if r.Success? {
      LoginFromOk(store, payload, merged, RoleReference(store, payload, merged).value, r.value.profile);
    }
  }

  /**
   A role reference is accepted if and only if it names a stored role and the request brings no inline credential;
   the profile then keeps nothing inline and everything else.
   */
  lemma RoleReferenceExactly(store: Store, payload: Dict, profile: Dict)
    ensures var r, role := RoleReference(store, payload, profile), Get(profile, RoleAccountId);
            && (r.Success? <==>
                  role.Null? || (ReferenceOk(role, store.roles) && forall k | k in payload && IsInline(k) :: !Truthy(payload[k])))
            && (r.Success? && role.Null? ==> r.value == profile)
            && (r.Success? && !role.Null? ==>
                  && (forall k :: k in r.value <==> k in profile && !IsInline(k))
                  && (forall k | k in r.value :: r.value[k] == profile[k]))
  {
    hide PlainText, Truthy;
    RoleTextExactly(Get(profile, RoleAccountId));
  }

  lemma RoleTextExactly(v: Value)
    ensures RequiredText(v, 36).Success? <==> PlainText(v, 36) && Strip(v.text) != ""
  {
  }

  lemma RoleKnown(store: Store, payload: Dict, merged: Dict)
    ensures RoleReference(store, payload, merged).Success? ==> ReferenceOk(Get(merged, RoleAccountId), store.roles)
  {
    RoleTextIsPlain(Get(merged, RoleAccountId));
  }

  lemma RoleTextIsPlain(v: Value)
    ensures RequiredText(v, 36).Success? ==> PlainText(v, 36) && Strip(v.text) != ""
  {
  }

  /** A decoded row passes the common part of saving untouched. */
  lemma CoreIdentity(store: Store, p: Dict, name: string, host: string, port: int, roleId: Value)
    requires NoKeyMaterial(p) && PlainLogin(p) && !BothCredentials(p)
    requires Get(p, Name) == Text(name) && Get(p, Host) == Text(host) && Get(p, Port) == Int(port)
    requires CleanText(name, 200) && CleanText(host, 255) && 1 <= port <= 65535
    requires Get(p, RoleAccountId) == roleId && ReferenceOk(roleId, store.roles)
    requires !roleId.Null? ==> Password !in p && Username !in p && PrivateKeyPath !in p
    ensures CoreFrom(store, map[], p) == Success(Core(name, host, port, roleId, p))
  {
    RequiredTextIsClean(Text(name), 200);
    RequiredTextIsClean(Text(host), 255);
    assert p + map[] == p;
    assert !roleId.Null? ==> WithoutInline(p) == p && RequiredText(roleId, 36).Success?;
    assert p - Cleared(map[]) == p;
    hide RequiredText, CleanText, PlainLogin, BothCredentials, WithoutInline;
  }

  /** The dictionary holds every column unchanged. */
  ghost predicate Covers(p: Dict, columns: Dict) {
    forall k | k in columns :: k in p && p[k] == columns[k]
  }

  // ---------------------------------------------------------------------------
  // Proxies.

  /** Columns that no configuration or secret key shadows survive decoding. */
  lemma JoinCovers(m: Dict, columns: Dict, configuration: Dict, secrets: Dict)
    requires JoinOf(m, columns, configuration, secrets)
    requires forall k | k in columns :: !k.Connector? && k !in configuration && k !in secrets
    ensures Covers(m, columns)
  {
  }

  lemma ProxyLogin(row: ProxyRow, roles: map<Identifier, RoleRow>)
    requires ProxyOk(row, roles)
    ensures LoginOk(row.roleId, row.configuration, row.secrets)
    ensures (forall k | k in row.configuration :: IsPublicLogin(k)) && (forall k | k in row.secrets :: k.Password?)
  {
    hide CleanText, PlainText, IsProxyType, ReferenceOk, LoginOk;
  }

  lemma StoredProxyFields(id: Identifier, row: ProxyRow, roles: map<Identifier, RoleRow>)
    requires ProxyOk(row, roles)
    ensures var p := StoredProxy(id, row);
            && NoKeyMaterial(p) && PlainLogin(p) && !BothCredentials(p)
            && (!row.roleId.Null? ==> Password !in p && Username !in p && PrivateKeyPath !in p)
            && PublicLogin(p) == row.configuration && SecretPart(p) == row.secrets
            && Covers(p, ProxyColumns(id, row))
  {
    hide Merged, ProxyColumns, LoginOk, PlainLogin, NoKeyMaterial, BothCredentials, PublicLogin, SecretPart, ProxyOk, JoinOf,
      Covers;
    var p := StoredProxy(id, row);
    ProxyLogin(row, roles);
    ProxyColumnFields(id, row);
    MergedFields(ProxyColumns(id, row), row.configuration, row.secrets);
    JoinCovers(p, ProxyColumns(id, row), row.configuration, row.secrets);
    DecodedLogin(p, ProxyColumns(id, row), row.configuration, row.secrets, row.roleId);
    WholeParts(row.configuration, row.secrets);
  }

  lemma WholeParts(configuration: Dict, secrets: Dict)
    requires forall k | k in configuration :: IsPublicLogin(k)
    requires forall k | k in secrets :: k.Password?
    ensures PublicLogin(configuration) == configuration && secrets - {Connector} == secrets
  {
  }

  lemma ProxyFromOk(store: Store, payload: Dict, previous: Dict)
    requires forall k | k in payload :: IsProxyField(k)
    requires NoKeyMaterial(previous) && PlainLogin(previous)
    ensures var r := ProxyFrom(store, payload, previous); r.Success? ==> ProxyOk(r.value, store.roles)
  {
    hide CoreFrom, CleanText, PlainText, LoginOk, ReferenceOk, IsProxyType, SecretPart, PublicLogin;
    ProxyFieldsHaveNoKeys(payload);
    CoreFromOk(store, payload, previous);
    var r := ProxyFrom(store, payload, previous);
    if r.Success? {
      PublicLoginFields(CoreFrom(store, payload, previous).value.profile);
    }
  }

  lemma ProxyFieldsHaveNoKeys(payload: Dict)
    requires forall k | k in payload :: IsProxyField(k)
    ensures NoKeyMaterial(payload)
  {
  }

  lemma PublicLoginFields(d: Dict)
    ensures forall k | k in PublicLogin(d) :: IsPublicLogin(k)
  {
  }

  /** Saving an empty patch on a proxy gives back the same row. */
  lemma ProxyIdentity(store: Store, id: Identifier, row: ProxyRow)
    requires ProxyOk(row, store.roles)
    ensures ProxyFrom(store, map[], StoredProxy(id, row)) == Success(row)
  {
    StoredProxyFields(id, row, store.roles);
    ProxyColumnFields(id, row);
    hide CoreFrom, CleanText, LoginOk, PlainLogin, ReferenceOk, IsProxyType, StoredProxy, ProxyColumns, PublicLogin, SecretPart;
    CoreIdentity(store, StoredProxy(id, row), row.name, row.host, row.port, row.roleId);
  }

  // ---------------------------------------------------------------------------
  // Connections.

  /** What decoding a sound connection yields; the empty dictionary of a new one qualifies too. */
  ghost predicate Usable(previous: Dict, keyOk: KeyCheck) {
    && NoKeyMaterial(previous) && PlainLogin(previous)
    && (Connector in previous ==> previous[Connector].Object? && ConnectorOk(previous[Connector].fields, keyOk))
  }

  lemma ConnectionLogin(row: ConnectionRow, store: Store, keyOk: KeyCheck)
    requires ConnectionOk(row, store, keyOk)
    ensures LoginOk(row.roleId, row.configuration, row.secrets)
    ensures forall k | k in row.configuration :: IsPublicLogin(k) || k.ClientType? || k.Connector?
    ensures forall k | k in row.secrets :: k.Password? || k.Connector?
    ensures ClientType in row.configuration
  {
    hide CleanText, PlainText, IsProtocol, ReferenceOk, RouteOk, LoginOk;
  }

  lemma StoredConnectionFields(id: Identifier, row: ConnectionRow, store: Store, keyOk: KeyCheck)
    requires ConnectionOk(row, store, keyOk)
    ensures var p := StoredConnection(id, row);
            && NoKeyMaterial(p) && PlainLogin(p) && !BothCredentials(p)
            && (!row.roleId.Null? ==> Password !in p && Username !in p && PrivateKeyPath !in p)
            && PublicLogin(p) == PublicLogin(row.configuration) && SecretPart(p) == row.secrets - {Connector}
            && Covers(p, ConnectionColumns(id, row))
            && ClientType in p && p[ClientType] == row.configuration[ClientType]
  {
    hide Merged, ConnectionColumns, LoginOk, PlainLogin, NoKeyMaterial, BothCredentials, PublicLogin, SecretPart, ConnectionOk;
    var p := StoredConnection(id, row);
    ConnectionLogin(row, store, keyOk);
    ConnectionColumnFields(id, row);
    MergedFields(ConnectionColumns(id, row), row.configuration, row.secrets);
    DecodedLogin(p, ConnectionColumns(id, row), row.configuration, row.secrets, row.roleId);
  }

  lemma StoredConnectionConnector(id: Identifier, row: ConnectionRow, store: Store, keyOk: KeyCheck)
    requires ConnectionOk(row, store, keyOk)
    ensures Get(StoredConnection(id, row), Connector)
            == if row.proxyId.Null? then Object(InlineConnector(row)) else Null
    ensures Usable(StoredConnection(id, row), keyOk)
  {
    hide Merged, ConnectionColumns, CleanText, PlainText, IsProtocol, IsClientType, ReferenceOk, ConnectorOk, LoginOk, PlainLogin,
      BothCredentials, PublicLogin, SecretPart, NoKeyMaterial, Covers;
    StoredConnectionFields(id, row, store, keyOk);
    ConnectionColumnFields(id, row);
    MergedConnector(ConnectionColumns(id, row), row.configuration, row.secrets);
    if row.proxyId.Null? && Connector !in row.secrets {
      assert InlineConnector(row) == row.configuration[Connector].fields;
    }
  }

  /** The connector columns RouteFrom writes, joined again, are a sound connector. */
  lemma RouteFromOk(store: Store, payload: Dict, previous: Dict, profile: Dict, keyOk: KeyCheck)
    requires Usable(previous, keyOk)
    requires Connector in profile <==> Connector in payload || Connector in previous
    requires Connector in profile ==>
               profile[Connector] == if Connector in payload then payload[Connector] else Get(previous, Connector)
    ensures var r := RouteFrom(store, payload, previous, profile, keyOk);
            r.Success? ==>
              && ReferenceOk(Get(profile, ProxyId), store.proxies)
              && (forall k | k in r.value.0 || k in r.value.1 :: k.Connector?)
              && (!Get(profile, ProxyId).Null? ==> r.value == (map[], map[]))
              && (Get(profile, ProxyId).Null? ==>
                    exists c :: SplitOf(r.value, c, keyOk))
  {
    hide ConnectorFrom, ConnectorOk, Kept, PublicPart, SecretPart, PlainText, RequiredText;
    RoleTextIsPlain(Get(profile, ProxyId));
    var r := RouteFrom(store, payload, previous, profile, keyOk);
    if r.Success? && Get(profile, ProxyId).Null? {
      var before := if Connector in payload then Get(previous, Connector) else Null;
      var value := GetOr(profile, Connector, Object(map[Type := DIRECT]));
      var old_ := if before.Object? then before.fields else map[];
      ConnectorFromOk(value, old_, keyOk);
      assert SplitOf(r.value, ConnectorFrom(value, old_, keyOk).value, keyOk);
    }
  }

  lemma RouteColumnsOk(row: ConnectionRow, c: Dict, keyOk: KeyCheck)
    requires row.proxyId.Null? && ConnectorOk(Kept(c), keyOk)
    requires Get(row.configuration, Connector) == Object(PublicPart(c))
    requires if SecretPart(c) == map[] then Connector !in row.secrets
             else Get(row.secrets, Connector) == Object(SecretPart(c))
    ensures RouteOk(row, keyOk)
  {
    hide ConnectorOk;
    assert InlineConnector(row) == Kept(c);
  }

  lemma ConnectionFromOk(store: Store, payload: Dict, previous: Dict, keyOk: KeyCheck)
    requires forall k | k in payload :: IsConnectionField(k)
    requires Usable(previous, keyOk)
    ensures var r := ConnectionFrom(store, payload, previous, keyOk); r.Success? ==> ConnectionOk(r.value, store, keyOk)
  {
    hide CoreFrom, CleanText, PlainText, RouteFrom, LoginOk, ReferenceOk, ConnectionOk, ConnectorOk, IsProtocol, IsClientType,
      PublicLogin, SecretPart, PlainLogin;
    CoreFromOk(store, payload, previous);
    var r := ConnectionFrom(store, payload, previous, keyOk);
    if r.Success? {
      var profile := CoreFrom(store, payload, previous).value.profile;
      RouteFromOk(store, payload, previous, profile, keyOk);
      var route := RouteFrom(store, payload, previous, profile, keyOk).value;
      ConnectionRowOk(store, r.value, profile, GetOr(profile, ClientType, NETWORK), route, keyOk);
    }
  }

  /** Saving an empty patch on a connection gives back the same row. */
  lemma ConnectionIdentity(store: Store, id: Identifier, row: ConnectionRow, keyOk: KeyCheck)
    requires ConnectionOk(row, store, keyOk)
    ensures ConnectionFrom(store, map[], StoredConnection(id, row), keyOk) == Success(row)
  {
    hide ConnectorOk, ValidPort, PlainText, CoreFrom, CleanText, LoginOk, PlainLogin, ReferenceOk, IsProtocol, IsClientType,
      StoredConnection, ConnectionColumns, RouteFrom, RouteOk, BothCredentials, PublicLogin, SecretPart, NoKeyMaterial, Usable;
    StoredConnectionFields(id, row, store, keyOk);
    StoredConnectionConnector(id, row, store, keyOk);
    ConnectionColumnFields(id, row);
    ClientTypeStored(row, store, keyOk);
    var p := StoredConnection(id, row);
    CoreIdentity(store, p, row.name, row.host, row.port, row.roleId);
    RouteIdentity(store, row, p, keyOk);
    RowReassembles(row, RouteFrom(store, map[], p, p, keyOk).value);
  }

  lemma ClientTypeStored(row: ConnectionRow, store: Store, keyOk: KeyCheck)
    requires ConnectionOk(row, store, keyOk)
    ensures ClientType in row.configuration
  {
  }

  lemma InlineParts(row: ConnectionRow, keyOk: KeyCheck)
    requires RouteOk(row, keyOk) && row.proxyId.Null?
    ensures PublicPart(InlineConnector(row)) == row.configuration[Connector].fields
    ensures SecretPart(InlineConnector(row)) == if Connector in row.secrets then row.secrets[Connector].fields else map[]
  {
    hide EndpointOk, PlainLogin, HasKey, CleanText, PlainText;
  }

  lemma RouteIdentity(store: Store, row: ConnectionRow, p: Dict, keyOk: KeyCheck)
    requires RouteOk(row, keyOk) && ReferenceOk(row.proxyId, store.proxies)
    requires Get(p, ProxyId) == row.proxyId
    requires Get(p, Connector) == if row.proxyId.Null? then Object(InlineConnector(row)) else Null
    ensures var r := RouteFrom(store, map[], p, p, keyOk);
            && r.Success?
            && (forall k | k in r.value.0 || k in r.value.1 :: k.Connector?)
            && (Connector in r.value.0 <==> Connector in row.configuration)
            && (Connector in r.value.1 <==> Connector in row.secrets)
            && Get(r.value.0, Connector) == Get(row.configuration, Connector)
            && Get(r.value.1, Connector) == Get(row.secrets, Connector)
  {
    if row.proxyId.Null? {
      ConnectorIdentity(InlineConnector(row), keyOk);
      InlineParts(row, keyOk);
      hide ConnectorFrom, ConnectorOk, PublicPart, SecretPart, InlineConnector, RequiredText;
    }
  }

  lemma RowReassembles(row: ConnectionRow, route: (Dict, Dict))
    requires forall k | k in row.configuration :: IsPublicLogin(k) || k.ClientType? || k.Connector?
    requires forall k | k in row.secrets :: k.Password? || k.Connector?
    requires ClientType in row.configuration
    requires forall k | k in route.0 || k in route.1 :: k.Connector?
    requires Connector in route.0 <==> Connector in row.configuration
    requires Connector in route.1 <==> Connector in row.secrets
    requires Get(route.0, Connector) == Get(row.configuration, Connector)
    requires Get(route.1, Connector) == Get(row.secrets, Connector)
    ensures PublicLogin(row.configuration) + map[ClientType := row.configuration[ClientType]] + route.0 == row.configuration
    ensures (row.secrets - {Connector}) + route.1 == row.secrets
  {
  }

  /** What RouteFrom returns without a proxy: some sound connector, split. */
  ghost predicate SplitOf(route: (Dict, Dict), c: Dict, keyOk: KeyCheck) {
    && ConnectorOk(Kept(c), keyOk) && route.0 == map[Connector := Object(PublicPart(c))]
    && route.1 == if SecretPart(c) == map[] then map[] else map[Connector := Object(SecretPart(c))]
  }

  lemma WidenedLogin(roleId: Value, profile: Dict, clientType: Value, route: (Dict, Dict))
    requires LoginOk(roleId, PublicLogin(profile), SecretPart(profile))
    requires forall k | k in SecretPart(profile) :: k.Password?
    requires forall k | k in route.0 || k in route.1 :: k.Connector?
    ensures var configuration := PublicLogin(profile) + map[ClientType := clientType] + route.0;
            && LoginOk(roleId, configuration, SecretPart(profile) + route.1)
            && (forall k | k in configuration :: IsPublicLogin(k) || k.ClientType? || k.Connector?)
            && Get(configuration, ClientType) == clientType
            && Get(configuration, Connector) == Get(route.0, Connector)
            && (Connector in configuration <==> Connector in route.0)
            && (Connector in SecretPart(profile) + route.1 <==> Connector in route.1)
            && Get(SecretPart(profile) + route.1, Connector) == Get(route.1, Connector)
  {
    hide PlainText, Truthy;
  }

  lemma ConnectionRowOk(store: Store, row: ConnectionRow, profile: Dict, clientType: Value, route: (Dict, Dict), keyOk: KeyCheck)
    requires CleanText(row.name, 200) && CleanText(row.host, 255) && 1 <= row.port <= 65535 && 1.0 <= row.timeout <= 30.0
    requires IsProtocol(row.protocol) && IsClientType(clientType)
    requires ReferenceOk(row.roleId, store.roles) && ReferenceOk(row.proxyId, store.proxies)
    requires LoginOk(row.roleId, PublicLogin(profile), SecretPart(profile))
    requires forall k | k in SecretPart(profile) :: k.Password?
    requires forall k | k in route.0 || k in route.1 :: k.Connector?
    requires row.configuration == PublicLogin(profile) + map[ClientType := clientType] + route.0
    requires row.secrets == SecretPart(profile) + route.1
    requires if row.proxyId.Null? then exists c :: SplitOf(route, c, keyOk) else route == (map[], map[])
    ensures ConnectionOk(row, store, keyOk)
  {
    hide CleanText, PlainText, IsProtocol, IsClientType, ReferenceOk, ConnectorOk, LoginOk, SecretPart, PublicLogin, PublicPart;
    WidenedLogin(row.roleId, profile, clientType, route);
    if row.proxyId.Null? {
      var c :| SplitOf(route, c, keyOk);
      RouteColumnsOk(row, c, keyOk);
    }
  }
}
