/** What a save writes: the request's fields over the stored ones, for each of the three kinds of profile. */
module ProfilePatches {
  import opened Wrappers
  import opened Profiles
  import opened ProfileRows
  import opened ProfileSaving

  // ---------------------------------------------------------------------------
  // What is asked for.

  /** The value a request asks for: its own, or the stored one where it has none. */
  function Asked(old_: Dict, payload: Dict, k: Field): Value {
    if k in payload then payload[k] else if k in old_ then old_[k] else Null
  }

  predicate IsAsked(old_: Dict, payload: Dict, k: Field) {
    k in payload || k in old_
  }

  /** Text with something in it besides white space. */
  predicate ProperText(v: Value, limit: nat) {
    v.Text? && |v.text| <= limit && '\0' !in v.text && exists i | 0 <= i < |v.text| :: !IsSpace(v.text[i])
  }

  /** Stored exactly when asked for, and then as asked for. */
  predicate Stores(new_: Dict, k: Field, v: Value) {
    (k in new_ <==> !v.Null?) && Get(new_, k) == v
  }

  /** Secrets are stored when there is something to store. */
  predicate StoresSecret(new_: Dict, k: Field, v: Value) {
    (k in new_ <==> Truthy(v)) && (Truthy(v) ==> Get(new_, k) == v)
  }

  function TextIn(v: Value): string {
    if v.Text? then v.text else ""
  }

  lemma {:induction false} StripLeftExactly(s: string) returns (i: nat)
    ensures i <= |s| && StripLeft(s) == s[i..] && forall k | 0 <= k < i :: IsSpace(s[k])
  {
    hide IsSpace;
    if s != "" && IsSpace(s[0]) {
      var n := StripLeftExactly(s[1..]);
      i := n + 1;
      assert s[1..][n..] == s[i..];
      forall k | 0 <= k < i ensures IsSpace(s[k]) {
        assert k > 0 ==> s[1..][k - 1] == s[k];
      }
    } else {
      i := 0;
      assert s[0..] == s;
    }
  }

  lemma {:induction false} StripRightExactly(s: string) returns (j: nat)
    ensures j <= |s| && StripRight(s) == s[..j] && forall k | j <= k < |s| :: IsSpace(s[k])
  {
    hide IsSpace;
    if s != "" && IsSpace(s[|s| - 1]) {
      var n := |s| - 1;
      j := StripRightExactly(s[..n]);
      assert s[..n][..j] == s[..j];
      forall k | j <= k < |s| ensures IsSpace(s[k]) {
        assert k < n ==> s[..n][k] == s[k];
      }
    } else {
      j := |s|;
      assert s[..|s|] == s;
    }
  }

  /** Stripping cuts white space, all of it, from both ends and nothing else. */
  lemma StripExactly(s: string) returns (i: nat, j: nat)
    ensures i <= j <= |s| && Strip(s) == s[i..j] && Stripped(Strip(s))
    ensures forall k | 0 <= k < i || j <= k < |s| :: IsSpace(s[k])
  {
    hide IsSpace, StripLeft, StripRight, Stripped;
    i := StripLeftExactly(s);
    var t := s[i..];
    var n := StripRightExactly(t);
    j := i + n;
    assert t[..n] == s[i..j];
    forall k | 0 <= k < i || j <= k < |s| ensures IsSpace(s[k]) {
      assert k >= j ==> t[k - i] == s[k];
    }
  }

  lemma RequiredExactly(v: Value, limit: nat)
    ensures RequiredText(v, limit).Success? <==> ProperText(v, limit)
    ensures ProperText(v, limit) ==> RequiredText(v, limit) == Success(Strip(v.text))
  {
    if v.Text? {
      var i, j := StripExactly(v.text);
      if Strip(v.text) != "" {
        assert v.text[i] == Strip(v.text)[0];
      }
    }
  }

  // ---------------------------------------------------------------------------
  // Roles.

  /** A role needs a name, a user name, and one whole credential of its kind; the request brings none of the other kind. */
  predicate RoleAccepted(old_: Dict, payload: Dict, keyOk: KeyCheck) {
    && ProperText(Asked(old_, payload, Name), 200) && ProperText(Asked(old_, payload, Username), 255)
    && (forall k | k in payload && IsCredential(k) :: PlainText(payload[k], 65536))
    && CredentialAccepted(old_, payload, keyOk)
  }

  predicate IsCredential(k: Field) {
    k.Password? || k.PrivateKey? || k.KeyPassphrase?
  }

  predicate CredentialAccepted(old_: Dict, payload: Dict, keyOk: KeyCheck) {
    var kind := Asked(old_, payload, AuthenticationType);
    || (&& kind == Text("password")
        && !Truthy(Get(payload, PrivateKey)) && !Truthy(Get(payload, KeyPassphrase)) && Truthy(Asked(old_, payload, Password)))
    || (&& kind == Text("ssh_key")
        && !Truthy(Get(payload, Password)) && Truthy(Asked(old_, payload, PrivateKey))
        && keyOk(TextIn(Asked(old_, payload, PrivateKey)), TextIn(Asked(old_, payload, KeyPassphrase))))
  }

  ghost predicate RoleWritten(new_: Dict, id: Identifier, old_: Dict, payload: Dict)
    requires Asked(old_, payload, Name).Text? && Asked(old_, payload, Username).Text?
  {
    && Get(new_, Id) == Text(id)
    && Get(new_, Name) == Text(Strip(Asked(old_, payload, Name).text))
    && Get(new_, Username) == Text(Strip(Asked(old_, payload, Username).text))
    && Get(new_, AuthenticationType) == Asked(old_, payload, AuthenticationType)
    && CredentialWritten(new_, old_, payload)
    && (forall k | k in new_ :: k.Id? || IsRoleField(k))
  }

  /** The credential asked for, and none of the other kind. */
  predicate CredentialWritten(new_: Dict, old_: Dict, payload: Dict) {
    if Asked(old_, payload, AuthenticationType) == Text("password") then
      Get(new_, Password) == Asked(old_, payload, Password) && PrivateKey !in new_ && KeyPassphrase !in new_
    else
      && Get(new_, PrivateKey) == Asked(old_, payload, PrivateKey) && Password !in new_
      && StoresSecret(new_, KeyPassphrase, Asked(old_, payload, KeyPassphrase))
  }

  lemma RolePatched(old_: Dict, payload: Dict, keyOk: KeyCheck, oldId: Identifier, row: RoleRow, id: Identifier)
    requires old_ == map[] || (old_ == StoredRole(oldId, row) && RoleOk(row, keyOk))
    requires forall k | k in payload :: IsRoleField(k)
    ensures var r := RoleFrom(payload, old_, keyOk);
            && (r.Success? <==> RoleAccepted(old_, payload, keyOk))
            && (r.Success? ==> RoleWritten(StoredRole(id, r.value), id, old_, payload))
  {
    RequiredExactly(Asked(old_, payload, Name), 200);
    RequiredExactly(Asked(old_, payload, Username), 255);
    ProperIsText(Asked(old_, payload, Name), 200);
    ProperIsText(Asked(old_, payload, Username), 255);
    RoleInOrder(old_, payload, keyOk);
    hide RoleFrom, RequiredText, ProperText, PlainText, Strip, StoredRole, Asked, CredentialAccepted, CredentialWritten, ChosenSecrets;
    if forall k | k in payload && IsCredential(k) :: PlainText(payload[k], 65536) {
      OldSecrets(old_, keyOk, oldId, row);
      SecretsChosen(old_, payload, keyOk);
      var r := RoleFrom(payload, old_, keyOk);
      if r.Success? {
        WrittenFromSecrets(old_, payload, keyOk, id, r.value);
      }
    }
  }

  lemma ProperIsText(v: Value, limit: nat)
    ensures ProperText(v, limit) ==> v.Text?
  {
  }

  /** The secrets _save_role chooses by kind. */
  function ChosenSecrets(old_: Dict, payload: Dict, keyOk: KeyCheck): Result<Dict, StoreError> {
    var kind := Asked(old_, payload, AuthenticationType);
    var switched := Get(old_, AuthenticationType) != kind;
    if kind == Text("password") then PasswordSecrets(payload, old_ + payload, switched)
    else if kind == Text("ssh_key") then KeySecrets(payload, old_, old_ + payload, switched, keyOk)
    else Failure(Invalid)
  }

  lemma RoleInOrder(old_: Dict, payload: Dict, keyOk: KeyCheck)
    requires forall k | k in payload :: IsRoleField(k)
    ensures var name, username := RequiredText(Asked(old_, payload, Name), 200), RequiredText(Asked(old_, payload, Username), 255);
            var secrets, kind, r := ChosenSecrets(old_, payload, keyOk), Asked(old_, payload, AuthenticationType),
                                    RoleFrom(payload, old_, keyOk);
            && (r.Success? <==>
                  && name.Success? && username.Success? && secrets.Success?
                  && forall k | k in payload && IsCredential(k) :: PlainText(payload[k], 65536))
            && (r.Success? ==> kind.Text? && r.value == RoleRow(name.value, username.value, kind.text, secrets.value))
  {
    MergedIsAsked(old_, payload);
    PayloadTexts(payload);
    KindsDiffer();
    hide RequiredText, PlainText, PasswordSecrets, KeySecrets, Asked, IsAsked, IsRoleField;
  }

  lemma SecretsChosen(old_: Dict, payload: Dict, keyOk: KeyCheck)
    requires Get(old_, AuthenticationType) != Text("password") ==> Password !in old_
    requires Get(old_, AuthenticationType) != Text("ssh_key") ==> PrivateKey !in old_ && KeyPassphrase !in old_
    requires forall k | k in old_ && IsCredential(k) :: old_[k].Text?
    requires forall k | k in payload && IsCredential(k) :: PlainText(payload[k], 65536)
    ensures ChosenSecrets(old_, payload, keyOk).Success? <==> CredentialAccepted(old_, payload, keyOk)
    ensures ChosenSecrets(old_, payload, keyOk).Success? ==>
              var secrets := ChosenSecrets(old_, payload, keyOk).value;
              CredentialWritten(secrets, old_, payload) && forall k | k in secrets :: IsCredential(k)
  {
    KindsDiffer();
    SecretsAsked(old_, payload, Asked(old_, payload, AuthenticationType), keyOk);
    hide PasswordSecrets, KeySecrets, Asked, TextIn;
  }

  lemma WrittenFromSecrets(old_: Dict, payload: Dict, keyOk: KeyCheck, id: Identifier, row: RoleRow)
    requires Asked(old_, payload, Name).Text? && row.name == Strip(Asked(old_, payload, Name).text)
    requires Asked(old_, payload, Username).Text? && row.username == Strip(Asked(old_, payload, Username).text)
    requires Text(row.kind) == Asked(old_, payload, AuthenticationType)
    requires CredentialWritten(row.secrets, old_, payload) && forall k | k in row.secrets :: IsCredential(k)
    ensures RoleWritten(StoredRole(id, row), id, old_, payload)
  {
    RoleDecoded(id, row);
    hide Strip, StoredRole, Asked;
  }

  /** The merged dictionary holds what is asked for. */
  lemma MergedIsAsked(old_: Dict, payload: Dict)
    ensures forall k :: Get(old_ + payload, k) == Asked(old_, payload, k) && (k in old_ + payload <==> IsAsked(old_, payload, k))
  {
  }

  lemma PayloadTexts(payload: Dict)
    requires forall k | k in payload :: IsRoleField(k)
    ensures (forall k | k in payload :: IsInline(k) && !k.Username? && !k.PrivateKeyPath? ==> PlainText(payload[k], 65536)) <==>
            forall k | k in payload && IsCredential(k) :: PlainText(payload[k], 65536)
  {
    hide PlainText;
  }

  /** Both ways of choosing the secrets come to this: the credentials asked for, of the one kind. */
  lemma SecretsAsked(old_: Dict, payload: Dict, kind: Value, keyOk: KeyCheck)
    requires Get(old_, AuthenticationType) != Text("password") ==> Password !in old_
    requires Get(old_, AuthenticationType) != Text("ssh_key") ==> PrivateKey !in old_ && KeyPassphrase !in old_
    requires forall k | k in old_ && IsCredential(k) :: old_[k].Text?
    requires forall k | k in payload && IsCredential(k) :: PlainText(payload[k], 65536)
    ensures var switched := Get(old_, AuthenticationType) != kind;
            var password, key, passphrase := Asked(old_, payload, Password), Asked(old_, payload, PrivateKey),
                                             Asked(old_, payload, KeyPassphrase);
            && (kind == Text("password") ==>
                  PasswordSecrets(payload, old_ + payload, switched)
                  == if Truthy(Get(payload, PrivateKey)) || Truthy(Get(payload, KeyPassphrase)) || !Truthy(password) then Failure(Invalid)
                     else Success(map[Password := password]))
            && (kind == Text("ssh_key") ==>
                  KeySecrets(payload, old_, old_ + payload, switched, keyOk)
                  == if Truthy(Get(payload, Password)) || !Truthy(key) || !keyOk(TextIn(key), TextIn(passphrase)) then Failure(Invalid)
                     else Success(if Truthy(passphrase) then map[PrivateKey := key, KeyPassphrase := passphrase]
                                  else map[PrivateKey := key]))
  {
    KindsDiffer();
  }

  lemma KindsDiffer()
    ensures Text("password") != Text("ssh_key")
  {
    assert "password"[0] == 'p' && "ssh_key"[0] == 's';
  }

  lemma RoleDecoded(id: Identifier, row: RoleRow)
    requires forall k | k in row.secrets :: IsCredential(k)
    ensures var d := StoredRole(id, row);
            && Get(d, Id) == Text(id) && Get(d, Name) == Text(row.name) && Get(d, Username) == Text(row.username)
            && Get(d, AuthenticationType) == Text(row.kind)
            && (forall k | IsCredential(k) ::
                  (k in d <==> k in row.secrets) && Get(d, k) == Get(row.secrets, k))
            && (forall k | k in d :: k.Id? || IsRoleField(k))
  {
  }

  /** A stored role has the secrets of its own kind only, and they are texts. */
  lemma OldSecrets(old_: Dict, keyOk: KeyCheck, id: Identifier, row: RoleRow)
    requires old_ == map[] || (old_ == StoredRole(id, row) && RoleOk(row, keyOk))
    ensures Get(old_, AuthenticationType) != Text("password") ==> Password !in old_
    ensures Get(old_, AuthenticationType) != Text("ssh_key") ==> PrivateKey !in old_ && KeyPassphrase !in old_
    ensures forall k | k in old_ && IsCredential(k) :: old_[k].Text?
  {
  }

  // ---------------------------------------------------------------------------
  // Inline credentials.

  /** Every credential and trust field of the request is text, or a path set to null. */
  predicate TextsAccepted(payload: Dict) {
    forall k | k in payload && IsChecked(k) ::
      ((k.PrivateKeyPath? || k.KnownHostsPath?) && payload[k].Null?) || PlainText(payload[k], 65536)
  }

  /** Never a password beside a key, and a passphrase only with a key. */
  predicate OneCredential(old_: Dict, payload: Dict) {
    var key := Truthy(Asked(old_, payload, PrivateKey)) || Truthy(Asked(old_, payload, PrivateKeyPath));
    && !(Truthy(Asked(old_, payload, Password)) && key)
    && (Truthy(Asked(old_, payload, KeyPassphrase)) ==> key)
  }

  /** What is left of the merged dictionary: what is asked for, without the paths the request clears. */
  lemma InlineExactly(profile: Dict, old_: Dict, payload: Dict)
    requires forall k | IsChecked(k) :: (k in profile <==> IsAsked(old_, payload, k)) && Get(profile, k) == Asked(old_, payload, k)
    requires PlainLogin(old_)
    ensures var r := InlineCredentials(profile, payload);
            && (r.Success? <==> TextsAccepted(payload) && OneCredential(old_, payload))
            && (r.Success? ==>
                  && (forall k | IsChecked(k) :: Stores(r.value, k, Asked(old_, payload, k)))
                  && (forall k | !IsChecked(k) :: (k in r.value <==> k in profile) && Get(r.value, k) == Get(profile, k)))
  {
    hide PlainText;
    PlainIsText();
    assert InlineAccepted(payload) <==> TextsAccepted(payload);
  }

  lemma PlainIsText()
    ensures forall v, n | PlainText(v, n) :: v.Text?
  {
  }

  // ---------------------------------------------------------------------------
  // Connectors.

  /** The type a request leaves the connector with. */
  function AskedType(old_: Dict, v: Dict): Value {
    if IsAsked(old_, v, Type) then Asked(old_, v, Type) else Text("direct")
  }

  /** A connector of the same type is merged with the stored one; a change of type starts afresh. */
  function Base(old_: Dict, v: Dict): Dict {
    if Get(old_, Type) == AskedType(old_, v) then old_ else map[]
  }

  predicate Between1And65535(v: Value) {
    v.Int? && 1 <= v.whole <= 65535
  }

  predicate RemoteAccepted(base: Dict, v: Dict, keyOk: KeyCheck) {
    && ProperText(Asked(base, v, Host), 255) && Between1And65535(Asked(base, v, Port))
    && (IsAsked(base, v, TimeoutSeconds) ==> ValidTimeout(Asked(base, v, TimeoutSeconds)))
    && TextsAccepted(v) && OneCredential(base, v)
    && (Truthy(Asked(base, v, PrivateKey)) ==> keyOk(TextIn(Asked(base, v, PrivateKey)), TextIn(Asked(base, v, KeyPassphrase))))
  }

  predicate ConnectorAccepted(old_: Dict, value: Value, keyOk: KeyCheck) {
    value.Object? && (forall k | k in value.fields :: IsConnectorField(k)) &&
    var v := value.fields;
    if AskedType(old_, v) == Text("direct") then forall k | k in v && !k.Type? :: v[k].Null? || v[k] == Text("")
    else IsProxyType(AskedType(old_, v)) && RemoteAccepted(Base(old_, v), v, keyOk)
  }

  ghost predicate RemoteWritten(c: Dict, kind: Value, base: Dict, v: Dict)
    requires Asked(base, v, Host).Text?
  {
    && Get(c, Type) == kind && Get(c, Host) == Text(Strip(Asked(base, v, Host).text)) && Get(c, Port) == Asked(base, v, Port)
    && Stores(c, TimeoutSeconds, Asked(base, v, TimeoutSeconds)) && Stores(c, Username, Asked(base, v, Username))
    && Stores(c, PrivateKeyPath, Asked(base, v, PrivateKeyPath)) && Stores(c, KnownHostsPath, Asked(base, v, KnownHostsPath))
    && (forall k | IsCredential(k) :: StoresSecret(c, k, Asked(base, v, k)))
    && (forall k | k in c :: IsConnectorField(k))
  }

  ghost predicate ConnectorWritten(c: Dict, old_: Dict, value: Value) {
    value.Object? &&
    var v := value.fields;
    if AskedType(old_, v) == Text("direct") then c == map[Type := Text("direct")]
    else Asked(Base(old_, v), v, Host).Text? && RemoteWritten(c, AskedType(old_, v), Base(old_, v), v)
  }

  lemma ConnectorPatched(value: Value, old_: Dict, keyOk: KeyCheck)
    requires old_ == map[] || ConnectorOk(old_, keyOk)
    ensures var r := ConnectorFrom(value, old_, keyOk);
            && (r.Success? <==> ConnectorAccepted(old_, value, keyOk))
            && (r.Success? ==> ConnectorWritten(Kept(r.value), old_, value))
  {
    hide ConnectorOk, Kept, ConnectorAccepted, ConnectorWritten;
    if value.Object? && forall k | k in value.fields :: IsConnectorField(k) {
      MergedIsAsked(old_, value.fields);
      if AskedType(old_, value.fields) == DIRECT {
        DirectPatched(value, old_, keyOk);
      } else {
        RemotePatched(value, old_, keyOk);
      }
    } else {
      StrangeRefused(value, old_, keyOk);
    }
  }

  lemma StrangeRefused(value: Value, old_: Dict, keyOk: KeyCheck)
    requires !(value.Object? && forall k | k in value.fields :: IsConnectorField(k))
    ensures ConnectorFrom(value, old_, keyOk).Failure? && !ConnectorAccepted(old_, value, keyOk)
  {
    hide IsConnectorField;
  }

  lemma DirectPatched(value: Value, old_: Dict, keyOk: KeyCheck)
    requires value.Object? && (forall k | k in value.fields :: IsConnectorField(k)) && AskedType(old_, value.fields) == DIRECT
    ensures var r := ConnectorFrom(value, old_, keyOk);
            && (r.Success? <==> ConnectorAccepted(old_, value, keyOk))
            && (r.Success? ==> ConnectorWritten(Kept(r.value), old_, value))
  {
    hide IsConnectorField;
    MergedIsAsked(old_, value.fields);
    assert Kept(map[Type := DIRECT]) == map[Type := DIRECT];
    hide Kept, Asked;
  }

  lemma RemotePatched(value: Value, old_: Dict, keyOk: KeyCheck)
    requires value.Object? && (forall k | k in value.fields :: IsConnectorField(k)) && AskedType(old_, value.fields) != DIRECT
    requires old_ == map[] || ConnectorOk(old_, keyOk)
    ensures var r := ConnectorFrom(value, old_, keyOk);
            && (r.Success? <==> ConnectorAccepted(old_, value, keyOk))
            && (r.Success? ==> ConnectorWritten(Kept(r.value), old_, value))
  {
    var v, kind := value.fields, AskedType(old_, value.fields);
    var base := Base(old_, v);
    RemoteInOrder(value, old_, keyOk);
    BaseOk(old_, v, keyOk);
    hide ConnectorFrom, ConnectorOk, Kept, AskedType, Base, RemoteFrom, IsConnectorField, IsProxyType, RemoteAccepted;
    RemoteFromExactly(v, base, kind, keyOk);
    hide RemoteWritten;
  }

  lemma BaseOk(old_: Dict, v: Dict, keyOk: KeyCheck)
    requires old_ == map[] || ConnectorOk(old_, keyOk)
    requires AskedType(old_, v) != DIRECT
    ensures PlainLogin(Base(old_, v)) && forall k | k in Base(old_, v) :: IsConnectorField(k)
  {
    hide PlainText;
  }

  /** _connector for a proxied connection, on the dictionary it starts from. */
  function RemoteFrom(v: Dict, base: Dict, kind: Value, keyOk: KeyCheck): Result<Dict, StoreError> {
    var profile := base + v;
    var host :- RequiredText(Get(profile, Host), 255);
    if !ValidPort(Get(profile, Port)) || (TimeoutSeconds in profile && !ValidTimeout(profile[TimeoutSeconds])) then Failure(Invalid)
    else
      var checked :- InlineCredentials(profile[Type := kind][Host := Text(host)], v);
      if Truthy(Get(checked, PrivateKey)) && !keyOk(TextAt(checked, PrivateKey), TextAt(checked, KeyPassphrase))
      then Failure(Invalid)
      else Success(checked)
  }

  lemma RemoteInOrder(value: Value, old_: Dict, keyOk: KeyCheck)
    requires value.Object? && (forall k | k in value.fields :: IsConnectorField(k)) && AskedType(old_, value.fields) != DIRECT
    ensures var kind := AskedType(old_, value.fields);
            ConnectorFrom(value, old_, keyOk)
            == if IsProxyType(kind) then RemoteFrom(value.fields, Base(old_, value.fields), kind, keyOk) else Failure(Invalid)
  {
    MergedIsAsked(old_, value.fields);
    assert map[] + value.fields == value.fields;
    hide IsConnectorField, RequiredText, InlineCredentials, ValidPort, ValidTimeout, IsProxyType, Asked;
    if old_ == map[] {
      assert Base(old_, value.fields) == map[];
    }
  }

  /** The merged dictionary with its type and its stripped host. */
  function FilledFrom(v: Dict, base: Dict, kind: Value, host: string): Dict {
    (base + v)[Type := kind][Host := Text(host)]
  }

  lemma FilledIsAsked(v: Dict, base: Dict, kind: Value, host: string)
    ensures var filled := FilledFrom(v, base, kind, host);
            && Type in filled && Host in filled && Get(filled, Type) == kind && Get(filled, Host) == Text(host)
            && (forall k: Field | !k.Type? && !k.Host? ::
                  (k in filled <==> IsAsked(base, v, k)) && Get(filled, k) == Asked(base, v, k))
  {
  }

  lemma RemoteFromExactly(v: Dict, base: Dict, kind: Value, keyOk: KeyCheck)
    requires PlainLogin(base) && (forall k | k in base :: IsConnectorField(k)) && (forall k | k in v :: IsConnectorField(k))
    ensures var r := RemoteFrom(v, base, kind, keyOk);
            && (r.Success? <==> RemoteAccepted(base, v, keyOk))
            && (r.Success? ==> Asked(base, v, Host).Text? && RemoteWritten(Kept(r.value), kind, base, v))
  {
    RequiredExactly(Asked(base, v, Host), 255);
    ProperIsText(Asked(base, v, Host), 255);
    RemoteFromInOrder(v, base, kind, keyOk);
    hide RemoteFrom, RequiredText, ProperText, PlainText, PlainLogin, TextsAccepted, OneCredential, InlineCredentials, Asked, Strip,
      ValidTimeout, Truthy, Kept, RemoteWritten, FilledFrom, TextAt, TextIn, IsConnectorField;
    if Asked(base, v, Host).Text? {
      var filled := FilledFrom(v, base, kind, Strip(Asked(base, v, Host).text));
      FilledIsAsked(v, base, kind, Strip(Asked(base, v, Host).text));
      CheckedIsAsked(filled, base, v);
      InlineExactly(filled, base, v);
      var checked := InlineCredentials(filled, v);
      if checked.Success? {
        TextsAt(checked.value, base, v);
        if IsAsked(base, v, TimeoutSeconds) ==> ValidTimeout(Asked(base, v, TimeoutSeconds)) {
          RemoteKept(checked.value, filled, kind, base, v);
        }
      }
    }
  }

  lemma CheckedIsAsked(filled: Dict, base: Dict, v: Dict)
    requires forall k: Field | !k.Type? && !k.Host? :: (k in filled <==> IsAsked(base, v, k)) && Get(filled, k) == Asked(base, v, k)
    ensures forall k | IsChecked(k) :: (k in filled <==> IsAsked(base, v, k)) && Get(filled, k) == Asked(base, v, k)
  {
    hide Asked;
  }

  lemma RemoteFromInOrder(v: Dict, base: Dict, kind: Value, keyOk: KeyCheck)
    ensures var host, r := RequiredText(Asked(base, v, Host), 255), RemoteFrom(v, base, kind, keyOk);
            r.Success? <==>
              && host.Success? && Between1And65535(Asked(base, v, Port))
              && (IsAsked(base, v, TimeoutSeconds) ==> ValidTimeout(Asked(base, v, TimeoutSeconds)))
              && var checked := InlineCredentials(FilledFrom(v, base, kind, host.value), v);
                 && checked.Success?
                 && (Truthy(Get(checked.value, PrivateKey)) ==>
                       keyOk(TextAt(checked.value, PrivateKey), TextAt(checked.value, KeyPassphrase)))
    ensures var host, r := RequiredText(Asked(base, v, Host), 255), RemoteFrom(v, base, kind, keyOk);
            r.Success? ==> r == InlineCredentials(FilledFrom(v, base, kind, host.value), v)
  {
    MergedIsAsked(base, v);
    hide RequiredText, InlineCredentials, Truthy, TextAt, ValidTimeout;
  }

  lemma TextsAt(checked: Dict, base: Dict, v: Dict)
    requires forall k | IsChecked(k) :: Stores(checked, k, Asked(base, v, k))
    ensures Truthy(Get(checked, PrivateKey)) == Truthy(Asked(base, v, PrivateKey))
    ensures TextAt(checked, PrivateKey) == TextIn(Asked(base, v, PrivateKey))
    ensures TextAt(checked, KeyPassphrase) == TextIn(Asked(base, v, KeyPassphrase))
  {
    hide Asked;
  }

  lemma RemoteKept(checked: Dict, filled: Dict, kind: Value, base: Dict, v: Dict)
    requires Asked(base, v, Host).Text?
    requires Type in filled && Host in filled && Get(filled, Type) == kind
    requires Get(filled, Host) == Text(Strip(Asked(base, v, Host).text))
    requires forall k: Field | !k.Type? && !k.Host? :: (k in filled <==> IsAsked(base, v, k)) && Get(filled, k) == Asked(base, v, k)
    requires forall k | IsChecked(k) :: Stores(checked, k, Asked(base, v, k))
    requires forall k | !IsChecked(k) :: (k in checked <==> k in filled) && Get(checked, k) == Get(filled, k)
    requires (forall k | k in base :: IsConnectorField(k)) && (forall k | k in v :: IsConnectorField(k))
    requires IsAsked(base, v, TimeoutSeconds) ==> ValidTimeout(Asked(base, v, TimeoutSeconds))
    ensures RemoteWritten(Kept(checked), kind, base, v)
  {
    KeptStores(checked, base, v);
    KeptEndpoint(checked, filled, base, v);
    KeptConnectorFields(checked, filled, base, v);
    hide Asked, IsAsked, Strip, Kept, Truthy, ValidTimeout, Stores, StoresSecret, IsConnectorField, IsChecked, IsCredential, Get;
  }

  lemma KeptConnectorFields(checked: Dict, filled: Dict, base: Dict, v: Dict)
    requires forall k: Field | !k.Type? && !k.Host? :: k in filled <==> IsAsked(base, v, k)
    requires forall k | !IsChecked(k) :: k in checked <==> k in filled
    requires (forall k | k in base :: IsConnectorField(k)) && (forall k | k in v :: IsConnectorField(k))
    ensures forall k | k in Kept(checked) :: IsConnectorField(k)
  {
    KeptPlain(checked);
    hide Kept;
  }

  lemma KeptEndpoint(checked: Dict, filled: Dict, base: Dict, v: Dict)
    requires forall k: Field | !k.Type? && !k.Host? :: (k in filled <==> IsAsked(base, v, k)) && Get(filled, k) == Asked(base, v, k)
    requires forall k | IsChecked(k) :: Stores(checked, k, Asked(base, v, k))
    requires forall k | !IsChecked(k) :: (k in checked <==> k in filled) && Get(checked, k) == Get(filled, k)
    requires IsAsked(base, v, TimeoutSeconds) ==> ValidTimeout(Asked(base, v, TimeoutSeconds))
    ensures var c := Kept(checked);
            && Get(c, Type) == Get(filled, Type) && Get(c, Host) == Get(filled, Host) && Get(c, Port) == Asked(base, v, Port)
            && Stores(c, TimeoutSeconds, Asked(base, v, TimeoutSeconds)) && Stores(c, Username, Asked(base, v, Username))
            && Stores(c, PrivateKeyPath, Asked(base, v, PrivateKeyPath))
            && Stores(c, KnownHostsPath, Asked(base, v, KnownHostsPath))
  {
    KeptPlain(checked);
    TimeoutStored(base, v);
    hide Asked, IsAsked, Kept, ValidTimeout;
    assert !IsSecret(Type) && !IsSecret(Host) && !IsSecret(Port) && !IsSecret(TimeoutSeconds);
    assert !IsSecret(Username) && !IsSecret(PrivateKeyPath) && !IsSecret(KnownHostsPath);
  }

  lemma TimeoutStored(base: Dict, v: Dict)
    requires IsAsked(base, v, TimeoutSeconds) ==> ValidTimeout(Asked(base, v, TimeoutSeconds))
    ensures IsAsked(base, v, TimeoutSeconds) <==> !Asked(base, v, TimeoutSeconds).Null?
  {
  }

  lemma KeptStores(checked: Dict, base: Dict, v: Dict)
    requires forall k | IsChecked(k) :: Stores(checked, k, Asked(base, v, k))
    ensures forall k | IsCredential(k) :: StoresSecret(Kept(checked), k, Asked(base, v, k))
  {
    KeptFields(checked);
    NullIsFalse();
    hide Asked, Kept, Truthy;
  }

  lemma KeptPlain(checked: Dict)
    ensures forall k | !IsSecret(k) :: (k in Kept(checked) <==> k in checked) && Get(Kept(checked), k) == Get(checked, k)
    ensures forall k | k in Kept(checked) :: k in checked
  {
  }

  lemma NullIsFalse()
    ensures !Truthy(Null)
  {
  }
}
