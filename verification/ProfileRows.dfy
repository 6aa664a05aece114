/** What every stored row satisfies, that saving establishes it, and that saving an empty patch changes nothing. */
module ProfileRows {
  import opened Wrappers
  import opened Profiles

  // ---------------------------------------------------------------------------
  // Row invariants.

  /** A role keeps exactly one kind of credential, nonempty and, for keys, accepted by the key check. */
  ghost predicate RoleSecretsOk(kind: string, secrets: Dict, keyOk: KeyCheck) {
    && (forall k | k in secrets :: PlainText(secrets[k], 65536) && Truthy(secrets[k]))
    && ((kind == "password" && forall k :: k in secrets <==> k.Password?)
        || (kind == "ssh_key" && PrivateKey in secrets && (forall k | k in secrets :: k.PrivateKey? || k.KeyPassphrase?)
            && keyOk(TextAt(secrets, PrivateKey), TextAt(secrets, KeyPassphrase))))
  }

  ghost predicate RoleOk(row: RoleRow, keyOk: KeyCheck) {
    CleanText(row.name, 200) && CleanText(row.username, 255) && RoleSecretsOk(row.kind, row.secrets, keyOk)
  }

  ghost predicate ReferenceOk<R>(v: Value, rows: map<Identifier, R>) {
    v.Null? || (PlainText(v, 36) && Strip(v.text) != "" && v.text in rows)
  }

  /** The login columns: credentials are inline or a role's, never both, and never a password beside a key. */
  ghost predicate LoginOk(roleId: Value, configuration: Dict, secrets: Dict) {
    && (forall k | k in configuration && IsPublicLogin(k) :: PlainText(configuration[k], 65536))
    && (Password in secrets ==> PlainText(secrets[Password], 65536) && Truthy(secrets[Password])
                                && !Truthy(Get(configuration, PrivateKeyPath)))
    && (!roleId.Null? ==> Password !in secrets && Username !in configuration && PrivateKeyPath !in configuration)
  }

  /** Every credential and trust field present is text. */
  ghost predicate PlainLogin(d: Dict) {
    forall k | k in d && IsChecked(k) :: PlainText(d[k], 65536)
  }

  ghost predicate EndpointOk(c: Dict) {
    && (forall k | k in c :: IsConnectorField(k))
    && IsProxyType(Get(c, Type))
    && Host in c && c[Host].Text? && CleanText(c[Host].text, 255)
    && ValidPort(Get(c, Port))
    && (TimeoutSeconds in c ==> ValidTimeout(c[TimeoutSeconds]))
  }

  ghost predicate RemoteConnectorOk(c: Dict, keyOk: KeyCheck) {
    && EndpointOk(c)
    && PlainLogin(c)
    && (forall k | k in c && IsSecret(k) :: Truthy(c[k]))
    && !BothCredentials(c)
    && (Truthy(Get(c, KeyPassphrase)) ==> HasKey(c))
    && (Truthy(Get(c, PrivateKey)) ==> keyOk(TextAt(c, PrivateKey), TextAt(c, KeyPassphrase)))
  }

  ghost predicate ConnectorOk(c: Dict, keyOk: KeyCheck) {
    c == map[Type := DIRECT] || RemoteConnectorOk(c, keyOk)
  }

  ghost predicate ProxyOk(row: ProxyRow, roles: map<Identifier, RoleRow>) {
    && CleanText(row.name, 200) && CleanText(row.host, 255) && 1 <= row.port <= 65535
    && IsProxyType(row.kind)
    && ReferenceOk(row.roleId, roles)
    && (forall k | k in row.configuration :: IsPublicLogin(k)) && (forall k | k in row.secrets :: k.Password?)
    && LoginOk(row.roleId, row.configuration, row.secrets)
  }

  /** The inline connector of a row, its public and secret fields joined. */
  function InlineConnector(row: ConnectionRow): Dict {
    var public_, hidden := Get(row.configuration, Connector), Get(row.secrets, Connector);
    (if public_.Object? then public_.fields else map[]) + (if hidden.Object? then hidden.fields else map[])
  }

  ghost predicate RouteOk(row: ConnectionRow, keyOk: KeyCheck) {
    if row.proxyId.Null? then
      var public_ := Get(row.configuration, Connector);
      && public_.Object? && (forall k | k in public_.fields :: !IsSecret(k))
      && (Connector in row.secrets ==>
            var hidden := row.secrets[Connector];
            hidden.Object? && hidden.fields != map[] && forall k | k in hidden.fields :: IsSecret(k))
      && ConnectorOk(InlineConnector(row), keyOk)
    else Connector !in row.configuration && Connector !in row.secrets
  }

  ghost predicate ConnectionOk(row: ConnectionRow, store: Store, keyOk: KeyCheck) {
    && CleanText(row.name, 200) && CleanText(row.host, 255) && 1 <= row.port <= 65535
    && 1.0 <= row.timeout <= 30.0
    && IsProtocol(row.protocol)
    && ReferenceOk(row.roleId, store.roles) && ReferenceOk(row.proxyId, store.proxies)
    && (forall k | k in row.configuration :: IsPublicLogin(k) || k.ClientType? || k.Connector?)
    && IsClientType(Get(row.configuration, ClientType))
    && (forall k | k in row.secrets :: k.Password? || k.Connector?)
    && LoginOk(row.roleId, row.configuration, row.secrets)
    && RouteOk(row, keyOk)
  }

  // ---------------------------------------------------------------------------
  // Roles.

  /** The role credentials of a dictionary are texts. */
  ghost predicate PlainSecrets(d: Dict) {
    forall k | k in d && (k.Password? || k.PrivateKey? || k.KeyPassphrase?) :: PlainText(d[k], 65536)
  }

  lemma RoleSecretsFromOk(payload: Dict, previous: Dict, switched: bool, keyOk: KeyCheck)
    requires PlainSecrets(payload) && PlainSecrets(previous)
    ensures var r := PasswordSecrets(payload, previous + payload, switched);
            r.Success? ==> RoleSecretsOk("password", r.value, keyOk)
    ensures var r := KeySecrets(payload, previous, previous + payload, switched, keyOk);
            r.Success? ==> RoleSecretsOk("ssh_key", r.value, keyOk)
  {
    var profile := previous + payload;
    assert PlainSecrets(profile);
  }

  lemma PreviousSecretsPlain(previous: Dict, keyOk: KeyCheck, id: Identifier, row: RoleRow)
    requires previous == map[] || (previous == StoredRole(id, row) && RoleSecretsOk(row.kind, row.secrets, keyOk))
    ensures PlainSecrets(previous)
  {
    hide PlainText;
  }

  lemma PayloadSecretsPlain(payload: Dict)
    requires forall k | k in payload :: IsInline(k) && !k.Username? && !k.PrivateKeyPath? ==> PlainText(payload[k], 65536)
    ensures PlainSecrets(payload)
  {
    hide PlainText;
  }

  lemma RoleFromOk(payload: Dict, previous: Dict, keyOk: KeyCheck, id: Identifier, row: RoleRow)
    requires previous == map[] || (previous == StoredRole(id, row) && RoleOk(row, keyOk))
    ensures var r := RoleFrom(payload, previous, keyOk); r.Success? ==> RoleOk(r.value, keyOk)
  {
    hide RequiredText, StoredRole, CleanText, PlainText, PlainSecrets, RoleSecretsOk, PasswordSecrets, KeySecrets;
    var profile := previous + payload;
    RequiredTextIsClean(Get(profile, Name), 200);
    RequiredTextIsClean(Get(profile, Username), 255);
    if RoleFrom(payload, previous, keyOk).Success? {
      PreviousSecretsPlain(previous, keyOk, id, row);
      PayloadSecretsPlain(payload);
      RoleSecretsFromOk(payload, previous, Get(previous, AuthenticationType) != Get(profile, AuthenticationType), keyOk);
    }
  }

  lemma RoleSecretsIdentity(previous: Dict, secrets: Dict, kind: string, keyOk: KeyCheck)
    requires RoleSecretsOk(kind, secrets, keyOk)
    requires forall k: Field | k.Password? || k.PrivateKey? || k.KeyPassphrase? :: k in previous <==> k in secrets
    requires forall k | k in secrets :: previous[k] == secrets[k]
    ensures kind == "password" ==> PasswordSecrets(map[], previous, false) == Success(secrets)
    ensures kind == "ssh_key" ==> KeySecrets(map[], previous, previous, false, keyOk) == Success(secrets)
    ensures kind == "password" || kind == "ssh_key"
  {
    if kind == "password" {
      assert secrets == map[Password := secrets[Password]];
    } else if KeyPassphrase in secrets {
      assert secrets == map[PrivateKey := secrets[PrivateKey], KeyPassphrase := secrets[KeyPassphrase]];
    } else {
      assert secrets == map[PrivateKey := secrets[PrivateKey]];
    }
  }

  /** Saving an empty patch on a role gives back the same row. */
  lemma RoleIdentity(id: Identifier, row: RoleRow, keyOk: KeyCheck)
    requires RoleOk(row, keyOk)
    ensures RoleFrom(map[], StoredRole(id, row), keyOk) == Success(row)
  {
    var previous := StoredRole(id, row);
    assert Name !in row.secrets && Username !in row.secrets && AuthenticationType !in row.secrets;
    RoleSecretsIdentity(previous, row.secrets, row.kind, keyOk);
    hide RequiredText, StoredRole, CleanText, RoleSecretsOk, PasswordSecrets, KeySecrets;
    RequiredTextIsClean(Text(row.name), 200);
    RequiredTextIsClean(Text(row.username), 255);
    assert previous + map[] == previous;
  }

  // ---------------------------------------------------------------------------
  // Connectors.

  /** What the row keeps of a validated connector: blank secrets are dropped. */
  function Kept(connector: Dict): Dict {
    PublicPart(connector) + SecretPart(connector)
  }

  lemma ConnectorFromOk(value: Value, previous: Dict, keyOk: KeyCheck)
    requires previous == map[] || ConnectorOk(previous, keyOk)
    ensures var r := ConnectorFrom(value, previous, keyOk); r.Success? ==> ConnectorOk(Kept(r.value), keyOk)
  {
    var r := ConnectorFrom(value, previous, keyOk);
    if r.Success? {
      var merged := previous + value.fields;
      var kind := GetOr(merged, Type, DIRECT);
      if kind == DIRECT {
        assert Kept(r.value) == map[Type := DIRECT];
      } else {
        var profile := if previous != map[] && Get(previous, Type) != kind then value.fields else merged;
        ProxyConnectorOk(profile, value.fields, previous, kind, keyOk, r.value);
      }
    }
  }

  lemma ProxyConnectorOk(profile: Dict, payload: Dict, previous: Dict, kind: Value, keyOk: KeyCheck, c: Dict)
    requires previous == map[] || ConnectorOk(previous, keyOk)
    requires (forall k | k in payload :: IsConnectorField(k)) && IsProxyType(kind)
    requires profile == payload || (profile == previous + payload && (previous == map[] || Get(previous, Type) == kind))
    requires RequiredText(Get(profile, Host), 255).Success?
    requires ValidPort(Get(profile, Port)) && (TimeoutSeconds in profile ==> ValidTimeout(profile[TimeoutSeconds]))
    requires InlineCredentials(profile[Type := kind][Host := Text(RequiredText(Get(profile, Host), 255).value)], payload)
             == Success(c)
    requires Truthy(Get(c, PrivateKey)) ==> keyOk(TextAt(c, PrivateKey), TextAt(c, KeyPassphrase))
    ensures ConnectorOk(Kept(c), keyOk)
  {
    var filled := profile[Type := kind][Host := Text(RequiredText(Get(profile, Host), 255).value)];
    FilledEndpoint(profile, payload, previous, kind, keyOk, filled);
    InlineLeavesPlain(filled, payload);
    hide RequiredText, InlineCredentials, IsProxyType, EndpointOk, Kept;
    EndpointKeeps(filled, c, Cleared(payload));
    KeptFields(c);
  }

  lemma FilledEndpoint(profile: Dict, payload: Dict, previous: Dict, kind: Value, keyOk: KeyCheck, filled: Dict)
    requires previous == map[] || ConnectorOk(previous, keyOk)
    requires (forall k | k in payload :: IsConnectorField(k)) && IsProxyType(kind)
    requires profile == payload || (profile == previous + payload && (previous == map[] || Get(previous, Type) == kind))
    requires RequiredText(Get(profile, Host), 255).Success?
    requires ValidPort(Get(profile, Port)) && (TimeoutSeconds in profile ==> ValidTimeout(profile[TimeoutSeconds]))
    requires filled == profile[Type := kind][Host := Text(RequiredText(Get(profile, Host), 255).value)]
    ensures EndpointOk(filled)
    ensures forall k | k in filled && IsChecked(k) ::
              if k in payload then filled[k] == payload[k] else PlainText(filled[k], 65536)
  {
    hide RequiredText, CleanText, PlainText, ConnectorOk, ValidTimeout, ValidPort, IsProxyType;
    RequiredTextIsClean(Get(profile, Host), 255);
    ProfileFields(profile, payload, previous, kind, keyOk);
  }

  /** The merged profile holds connector fields only, and its checked fields are the request's or plain text. */
  lemma ProfileFields(profile: Dict, payload: Dict, previous: Dict, kind: Value, keyOk: KeyCheck)
    requires previous == map[] || ConnectorOk(previous, keyOk)
    requires (forall k | k in payload :: IsConnectorField(k)) && IsProxyType(kind)
    requires profile == payload || (profile == previous + payload && (previous == map[] || Get(previous, Type) == kind))
    ensures forall k | k in profile :: IsConnectorField(k)
    ensures forall k | k in profile && IsChecked(k) ::
              if k in payload then profile[k] == payload[k] else PlainText(profile[k], 65536)
  {
    hide CleanText, PlainText, ValidTimeout, ValidPort, HasKey, BothCredentials;
    assert kind != DIRECT;
    if previous != map[] && profile != payload {
      assert RemoteConnectorOk(previous, keyOk);
    }
  }

  /** Neither clearing paths nor dropping blank secrets touches the endpoint. */
  lemma EndpointKeeps(filled: Dict, c: Dict, cleared: set<Field>)
    requires EndpointOk(filled) && c == filled - cleared
    requires forall k | k in cleared :: IsPath(k)
    ensures EndpointOk(c) && EndpointOk(Kept(c))
  {
    hide CleanText, IsProxyType, ValidPort, ValidTimeout;
    KeptFields(c);
  }

  /** What passes the inline check is plain text wherever the request or the older profile was. */
  lemma InlineLeavesPlain(profile: Dict, payload: Dict)
    requires forall k | k in profile && IsChecked(k) ::
               if k in payload then profile[k] == payload[k] else PlainText(profile[k], 65536)
    ensures var r := InlineCredentials(profile, payload);
            r.Success? ==> PlainLogin(r.value) && !BothCredentials(r.value) && r.value == profile - Cleared(payload)
                           && (Truthy(Get(r.value, KeyPassphrase)) ==> HasKey(r.value))
  {
  }

  lemma KeptFields(c: Dict)
    ensures var kept := Kept(c);
            && (forall k :: k in kept <==> k in c && (IsSecret(k) ==> Truthy(c[k])))
            && (forall k | k in kept :: kept[k] == c[k])
            && (forall k :: Truthy(Get(kept, k)) == Truthy(Get(c, k)))
            && TextAt(kept, PrivateKey) == TextAt(c, PrivateKey)
            && TextAt(kept, KeyPassphrase) == TextAt(c, KeyPassphrase)
  {
  }

  /** A stored connector passes its own validation unchanged. */
  lemma ConnectorIdentity(c: Dict, keyOk: KeyCheck)
    requires ConnectorOk(c, keyOk)
    ensures ConnectorFrom(Object(c), map[], keyOk) == Success(c)
  {
    assert map[] + c == c;
    if c != map[Type := DIRECT] {
      RequiredTextIsClean(c[Host], 255);
      hide RequiredText, CleanText;
      assert c[Type := c[Type]][Host := Text(c[Host].text)] == c;
      assert c - Cleared(c) == c;
    }
  }
}
