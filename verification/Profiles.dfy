/** Credential profiles as dictionaries: validation, splitting into columns and secrets, and merging back. */
module Profiles {
  import opened Wrappers

  /** The keys a profile dictionary can have; any other key of a request is Extra. */
  datatype Field =
    | Id | Name | Host | Port | Username | Password | PrivateKey | PrivateKeyPath | KeyPassphrase | SecretKey
    | KnownHostsPath | RoleAccountId | Type | Protocol | TimeoutSeconds | ProxyId | Connector | ClientType
    | AuthenticationType | Extra(name: string)

  /** A JSON value; Other stands for lists, of which only the truth value matters. */
  datatype Value =
    | Null
    | Text(text: string)
    | Int(whole: int)
    | Float(number: real)
    | Bool(flag: bool)
    | Object(fields: map<Field, Value>)
    | Other(nonempty: bool)

  type Dict = map<Field, Value>
  type Identifier = string

  predicate IsInline(k: Field) {
    k.Username? || k.Password? || k.PrivateKey? || k.PrivateKeyPath? || k.KeyPassphrase?
  }

  predicate IsPath(k: Field) {
    k.PrivateKeyPath? || k.KnownHostsPath?
  }

  /** The fields _inline_credentials checks: the inline fields and the trust file. */
  predicate IsChecked(k: Field) {
    IsInline(k) || k.KnownHostsPath?
  }

  predicate IsSecret(k: Field) {
    k.Password? || k.PrivateKey? || k.KeyPassphrase? || k.SecretKey?
  }

  /** The login fields kept in the configuration column. */
  predicate IsPublicLogin(k: Field) {
    k.Username? || k.PrivateKeyPath? || k.KnownHostsPath?
  }

  predicate IsCommon(k: Field) {
    k.Name? || k.Host? || k.Port? || k.Username? || k.Password? || k.PrivateKeyPath? || k.KnownHostsPath? || k.RoleAccountId?
  }

  predicate IsRoleField(k: Field) {
    k.Name? || k.Username? || k.AuthenticationType? || k.Password? || k.PrivateKey? || k.KeyPassphrase?
  }

  predicate IsProxyField(k: Field) {
    IsCommon(k) || k.Type?
  }

  predicate IsConnectionField(k: Field) {
    IsCommon(k) || k.Protocol? || k.TimeoutSeconds? || k.ProxyId? || k.Connector? || k.ClientType?
  }

  predicate IsConnectorField(k: Field) {
    IsChecked(k) || k.Type? || k.Host? || k.Port? || k.TimeoutSeconds?
  }

  const DIRECT: Value := Text("direct")
  const NETWORK: Value := Text("network")

  predicate IsProxyType(v: Value) {
    v == Text("ssh_tunnel") || v == Text("ssh_shell") || v == Text("socks5") || v == Text("http_connect")
  }

  predicate IsProtocol(v: Value) {
    v == Text("ssh") || v == Text("netconf") || v == Text("telnet")
  }

  predicate IsClientType(v: Value) {
    v == NETWORK || v == Text("fake")
  }

  predicate Truthy(v: Value) {
    match v
    case Null => false
    case Text(s) => s != ""
    case Int(n) => n != 0
    case Float(r) => r != 0.0
    case Bool(b) => b
    case Object(fields) => fields != map[]
    case Other(nonempty) => nonempty
  }

  /** dict.get(key) and dict.get(key, default). */
  function Get(d: Dict, key: Field): Value {
    if key in d then d[key] else Null
  }

  function GetOr(d: Dict, key: Field, default_: Value): Value {
    if key in d then d[key] else default_
  }

  function WithoutInline(d: Dict): Dict {
    map k | k in d && !IsInline(k) :: d[k]
  }

  function PublicLogin(d: Dict): Dict {
    map k | k in d && IsPublicLogin(k) :: d[k]
  }

  /** public_fields: everything but the secrets. */
  function PublicPart(d: Dict): Dict {
    map k | k in d && !IsSecret(k) :: d[k]
  }

  /** The secrets worth storing. */
  function SecretPart(d: Dict): Dict {
    map k | k in d && IsSecret(k) && Truthy(d[k]) :: d[k]
  }

  // ---------------------------------------------------------------------------
  // Text.

  /** The characters str.strip removes. */
  predicate IsSpace(c: char) {
    var n := c as int;
    9 <= n <= 13 || 28 <= n <= 32 || n == 0x85 || n == 0xA0 || n == 0x1680 || 0x2000 <= n <= 0x200A
    || n == 0x2028 || n == 0x2029 || n == 0x202F || n == 0x205F || n == 0x3000
  }

  function StripLeft(s: string): (r: string)
    ensures |r| <= |s| && (r == "" || !IsSpace(r[0]))
    ensures forall c | c in r :: c in s
  {
    if s != "" && IsSpace(s[0]) then StripLeft(s[1..]) else s
  }

  function StripRight(s: string): (r: string)
    ensures |r| <= |s| && r <= s && (r == "" || !IsSpace(r[|r| - 1]))
  {
    if s != "" && IsSpace(s[|s| - 1]) then StripRight(s[..|s| - 1]) else s
  }

  predicate Stripped(s: string) {
    s == "" || (!IsSpace(s[0]) && !IsSpace(s[|s| - 1]))
  }

  function Strip(s: string): (r: string)
    ensures Stripped(r) && |r| <= |s| && (forall c | c in r :: c in s)
    ensures Stripped(s) ==> r == s
  {
    StripRight(StripLeft(s))
  }

  predicate PlainText(v: Value, limit: nat) {
    v.Text? && |v.text| <= limit && '\0' !in v.text
  }

  /** _text with required=True: nonblank text, stripped. */
  function RequiredText(v: Value, limit: nat): Result<string, StoreError> {
    if PlainText(v, limit) && Strip(v.text) != "" then Success(Strip(v.text)) else Failure(Invalid)
  }

  predicate CleanText(s: string, limit: nat) {
    s != "" && Stripped(s) && |s| <= limit && '\0' !in s
  }

  lemma RequiredTextIsClean(v: Value, limit: nat)
    ensures RequiredText(v, limit).Success? ==> CleanText(RequiredText(v, limit).value, limit)
    ensures v.Text? && CleanText(v.text, limit) ==> RequiredText(v, limit) == Success(v.text)
  {
  }

  predicate ValidPort(v: Value) {
    v.Int? && 1 <= v.whole <= 65535
  }

  predicate ValidTimeout(v: Value) {
    (v.Int? && 1 <= v.whole <= 30) || (v.Float? && 1.0 <= v.number <= 30.0)
  }

  function Seconds(v: Value): real
    requires ValidTimeout(v)
  {
    if v.Int? then v.whole as real else v.number
  }

  // ---------------------------------------------------------------------------
  // Inline credentials.

  /** Private-key parsing is a library's; it is a fixed predicate on key text and passphrase. */
  type KeyCheck = (string, string) -> bool

  function TextAt(d: Dict, key: Field): string {
    if key in d && d[key].Text? then d[key].text else ""
  }

  predicate HasKey(d: Dict) {
    Truthy(Get(d, PrivateKeyPath)) || Truthy(Get(d, PrivateKey))
  }

  /** A password beside a key: what no login may ever carry. */
  predicate BothCredentials(d: Dict) {
    Truthy(Get(d, Password)) && HasKey(d)
  }

  predicate InlineAccepted(payload: Dict) {
    forall k | k in payload && IsChecked(k) :: (IsPath(k) && payload[k].Null?) || PlainText(payload[k], 65536)
  }

  /** The keys _inline_credentials removes because the request sets them to null. */
  function Cleared(payload: Dict): set<Field> {
    set k | k in payload && IsPath(k) && payload[k].Null?
  }

  /** _inline_credentials: the profile it leaves behind, or the error it raises. */
  function InlineCredentials(profile: Dict, payload: Dict): Result<Dict, StoreError> {
    var kept := profile - Cleared(payload);
    if !InlineAccepted(payload) || BothCredentials(kept) || (Truthy(Get(kept, KeyPassphrase)) && !HasKey(kept))
    then Failure(Invalid)
    else Success(kept)
  }

  // ---------------------------------------------------------------------------
  // Connectors.

  predicate Blank(v: Value) {
    v == Null || v == Text("")
  }

  /** _connector: validate a request's connector against the stored one. */
  function ConnectorFrom(value: Value, previous: Dict, keyOk: KeyCheck): Result<Dict, StoreError> {
    if !value.Object? || exists k :: k in value.fields && !IsConnectorField(k) then Failure(Invalid)
    else
      var merged := previous + value.fields;
      var kind := GetOr(merged, Type, DIRECT);
      if !(IsProxyType(kind) || kind == DIRECT) then Failure(Invalid)
      else
        var profile := if previous != map[] && Get(previous, Type) != kind then value.fields else merged;
        if kind == DIRECT then
          if forall k | k in value.fields && k != Type :: Blank(value.fields[k])
          then Success(map[Type := DIRECT])
          else Failure(Invalid)
        else
          var host :- RequiredText(Get(profile, Host), 255);
          if !ValidPort(Get(profile, Port)) || (TimeoutSeconds in profile && !ValidTimeout(profile[TimeoutSeconds]))
          then Failure(Invalid)
          else
            var checked :- InlineCredentials(profile[Type := kind][Host := Text(host)], value.fields);
            if Truthy(Get(checked, PrivateKey)) && !keyOk(TextAt(checked, PrivateKey), TextAt(checked, KeyPassphrase))
            then Failure(Invalid)
            else Success(checked)
  }

  // ---------------------------------------------------------------------------
  // Rows.

  datatype RoleRow = RoleRow(name: string, username: string, kind: string, secrets: Dict)

  datatype ProxyRow = ProxyRow(name: string, kind: Value, host: string, port: int, roleId: Value,
                               configuration: Dict, secrets: Dict)

  datatype ConnectionRow = ConnectionRow(name: string, protocol: Value, host: string, port: int, timeout: real,
                                         roleId: Value, proxyId: Value, configuration: Dict, secrets: Dict)

  /** The dictionary a role row decodes to; the table has no configuration column. */
  function StoredRole(id: Identifier, row: RoleRow): (d: Dict)
    ensures forall k :: k in d <==> k.Id? || k.Name? || k.Username? || k.AuthenticationType? || k in row.secrets
    ensures forall k | k in row.secrets :: d[k] == row.secrets[k]
    ensures Id !in row.secrets ==> d[Id] == Text(id)
    ensures Name !in row.secrets ==> d[Name] == Text(row.name)
    ensures Username !in row.secrets ==> d[Username] == Text(row.username)
    ensures AuthenticationType !in row.secrets ==> d[AuthenticationType] == Text(row.kind)
  {
    map[Id := Text(id), Name := Text(row.name), Username := Text(row.username),
        AuthenticationType := Text(row.kind)] + row.secrets
  }

  /** _stored_profile on the columns of one row. */
  function Merged(columns: Dict, configuration: Dict, secrets: Dict): Dict {
    var flat := columns + configuration + (secrets - {Connector});
    if Truthy(Get(secrets, Connector)) && secrets[Connector].Object? then
      var public_ := GetOr(flat, Connector, Object(map[]));
      flat[Connector := Object((if public_.Object? then public_.fields else map[]) + secrets[Connector].fields)]
    else flat
  }

  function ProxyColumns(id: Identifier, row: ProxyRow): Dict {
    map[Id := Text(id), Name := Text(row.name), Type := row.kind, Host := Text(row.host), Port := Int(row.port),
        RoleAccountId := row.roleId]
  }

  function StoredProxy(id: Identifier, row: ProxyRow): Dict {
    Merged(ProxyColumns(id, row), row.configuration, row.secrets)
  }

  function ConnectionColumns(id: Identifier, row: ConnectionRow): Dict {
    map[Id := Text(id), Name := Text(row.name), Protocol := row.protocol, Host := Text(row.host),
        Port := Int(row.port), TimeoutSeconds := Float(row.timeout), RoleAccountId := row.roleId, ProxyId := row.proxyId]
  }

  function StoredConnection(id: Identifier, row: ConnectionRow): Dict {
    Merged(ConnectionColumns(id, row), row.configuration, row.secrets)
  }

  // ---------------------------------------------------------------------------
  // Saving.

  datatype Store = Store(roles: map<Identifier, RoleRow>, proxies: map<Identifier, ProxyRow>,
                         connections: map<Identifier, ConnectionRow>)

  /** The secrets _save_role keeps for password authentication. */
  function PasswordSecrets(payload: Dict, profile: Dict, switched: bool): Result<Dict, StoreError> {
    var password := if switched then Get(payload, Password) else Get(profile, Password);
    if Truthy(Get(payload, PrivateKey)) || Truthy(Get(payload, KeyPassphrase)) || !Truthy(password)
    then Failure(Invalid)
    else Success(map[Password := password])
  }

  /** The secrets _save_role keeps for key authentication. */
  function KeySecrets(payload: Dict, previous: Dict, profile: Dict, switched: bool, keyOk: KeyCheck)
    : Result<Dict, StoreError>
  {
    var key := if switched then Get(payload, PrivateKey) else Get(profile, PrivateKey);
    var passphrase := GetOr(payload, KeyPassphrase,
                            if switched then Text("") else GetOr(previous, KeyPassphrase, Text("")));
    if Truthy(Get(payload, Password)) || !Truthy(key) || !key.Text? || !passphrase.Text?
       || !keyOk(key.text, passphrase.text)
    then Failure(Invalid)
    else if passphrase.text != "" then Success(map[PrivateKey := key, KeyPassphrase := passphrase])
    else Success(map[PrivateKey := key])
  }

  /** _save_role. */
  function RoleFrom(payload: Dict, previous: Dict, keyOk: KeyCheck): Result<RoleRow, StoreError> {
    var profile := previous + payload;
    var name :- RequiredText(Get(profile, Name), 200);
    var username :- RequiredText(Get(profile, Username), 255);
    var kind := Get(profile, AuthenticationType);
    if kind != Text("password") && kind != Text("ssh_key") then Failure(Invalid)
    else if exists k | k in payload :: IsInline(k) && !k.Username? && !k.PrivateKeyPath? && !PlainText(payload[k], 65536)
    then Failure(Invalid)
    else
      var switched := Get(previous, AuthenticationType) != kind;
      var secrets :- if kind == Text("password") then PasswordSecrets(payload, profile, switched)
                     else KeySecrets(payload, previous, profile, switched, keyOk);
      Success(RoleRow(name, username, kind.text, secrets))
  }

  /** The role part of _save_profile: a role must exist, excludes inline credentials and replaces them. */
  function RoleReference(store: Store, payload: Dict, profile: Dict): Result<Dict, StoreError> {
    var role := Get(profile, RoleAccountId);
    if role.Null? then Success(profile)
    else
      var _ :- RequiredText(role, 36);
      if role.text !in store.roles then Failure(NotFound)
      else if exists k | k in payload :: IsInline(k) && Truthy(payload[k]) then Failure(Invalid)
      else Success(WithoutInline(profile))
  }

  /** What _save_profile establishes for proxies and connections alike. */
  datatype Core = Core(name: string, host: string, port: int, roleId: Value, profile: Dict)

  function CoreFrom(store: Store, payload: Dict, previous: Dict): Result<Core, StoreError> {
    var merged := previous + payload;
    var name :- RequiredText(Get(merged, Name), 200);
    var host :- RequiredText(Get(merged, Host), 255);
    if !ValidPort(Get(merged, Port)) then Failure(Invalid)
    else
      var unlocked :- RoleReference(store, payload, merged);
      var profile :- InlineCredentials(unlocked, payload);
      Success(Core(name, host, merged[Port].whole, Get(merged, RoleAccountId), profile))
  }

  function ProxyFrom(store: Store, payload: Dict, previous: Dict): Result<ProxyRow, StoreError> {
    var core :- CoreFrom(store, payload, previous);
    var kind := Get(core.profile, Type);
    if !IsProxyType(kind) then Failure(Invalid)
    else Success(ProxyRow(core.name, kind, core.host, core.port, core.roleId,
                          PublicLogin(core.profile), SecretPart(core.profile)))
  }

  /** The route part of _save_profile: a saved proxy, or an inline connector split into public and secret fields. */
  function RouteFrom(store: Store, payload: Dict, previous: Dict, profile: Dict, keyOk: KeyCheck)
    : Result<(Dict, Dict), StoreError>
  {
    var proxy := Get(profile, ProxyId);
    if !proxy.Null? then
      var _ :- RequiredText(proxy, 36);
      if proxy.text !in store.proxies then Failure(NotFound)
      else if Connector in payload then Failure(Invalid)
      else Success((map[], map[]))
    else
      var before := if Connector in payload then Get(previous, Connector) else Null;
      var connector :- ConnectorFrom(GetOr(profile, Connector, Object(map[Type := DIRECT])),
                                     if before.Object? then before.fields else map[], keyOk);
      var hidden := SecretPart(connector);
      Success((map[Connector := Object(PublicPart(connector))],
               if hidden == map[] then map[] else map[Connector := Object(hidden)]))
  }

  function ConnectionFrom(store: Store, payload: Dict, previous: Dict, keyOk: KeyCheck): Result<ConnectionRow, StoreError> {
    var core :- CoreFrom(store, payload, previous);
    var profile := core.profile;
    var protocol := Get(profile, Protocol);
    var clientType := GetOr(profile, ClientType, NETWORK);
    var timeout := GetOr(profile, TimeoutSeconds, Int(10));
    if !IsProtocol(protocol) || !IsClientType(clientType) || !ValidTimeout(timeout) then Failure(Invalid)
    else
      var route :- RouteFrom(store, payload, previous, profile, keyOk);
      Success(ConnectionRow(core.name, protocol, core.host, core.port, Seconds(timeout), core.roleId,
                            Get(profile, ProxyId),
                            PublicLogin(profile) + map[ClientType := clientType] + route.0,
                            SecretPart(profile) + route.1))
  }
}
