/** Every profile that passes validation meets what the encoders behind it rely on. */
module ValidatedHandshakes {
  import opened Wrappers
  import opened Bytes
  import opened Profiles
  import opened ProfileValidation
  import A = ProfileAcceptance
  import Texts
  import Socks5
  import Socks5Peer
  import Socks5Agreement
  import HttpConnect
  import HttpPeer
  import HttpAgreement

  /** The text of an address without scope: hexadecimal digits, colons and dots, with a colon exactly in version 6. */
  predicate AddressForm(s: string, a: Address) {
    && s != ""
    && (a.version == 4 || a.version == 6)
    && |a.packed| == (if a.version == 4 then 4 else 16)
    && (':' in s <==> a.version == 6)
    && (forall i | 0 <= i < |s| :: HttpPeer.HexColon(s[i]) || s[i] == '.')
  }

  /** The laws of the libraries that the results below use. */
  ghost predicate Lawful(lib: Library) {
    && (forall s :: lib.address(s).Some? && '%' !in s ==>
          AddressForm(s, lib.address(s).value) && AddressForm(lib.addressText(lib.address(s).value), lib.address(s).value)
          && lib.address(lib.addressText(lib.address(s).value)) == lib.address(s))
    && lib.address("127.0.0.1").Some?
    && (forall s :: lib.encode(s) == [] <==> s == "")
    && (forall s :: 58 in lib.encode(s) <==> ':' in s)
    && (forall s :: (10 in lib.encode(s) <==> '\n' in s) && (13 in lib.encode(s) <==> '\r' in s))
  }

  /** How _socks5 classifies a host; ASCII names are their own bytes, anything else becomes a byte it refuses. */
  function TargetOf(host: string, lib: Library): Socks5.Target {
    var a := lib.address(host);
    if a.Some? then (if a.value.version == 4 then Socks5.V4(a.value.packed) else Socks5.V6(a.value.packed))
    else Socks5.Host(seq(|host|, i requires 0 <= i < |host| => if host[i] < '\U{0080}' then host[i] as int else 255))
  }

  function TextOf(v: Value): string {
    if v.Text? then v.text else ""
  }

  predicate DialHost(host: string, lib: Library) {
    && HttpAgreement.AllowedHost(host)
    && (lib.address(host).None? ==> HostName(host))
    && (lib.address(host).Some? ==> AddressForm(host, lib.address(host).value))
  }

  predicate Endpoint(d: Dict, lib: Library) {
    && Get(d, NETWORK_HOST).Text? && DialHost(Get(d, NETWORK_HOST).text, lib)
    && Get(d, Port).Int? && 1 <= Get(d, Port).whole <= 65535
  }

  lemma HostDials(s: string, lib: Library)
    requires Lawful(lib) && AcceptedHost(s, lib)
    ensures DialHost(s, lib)
  {
    if lib.address(s).Some? {
      assert AddressForm(s, lib.address(s).value);
    } else {
      assert forall i | 0 <= i < |s| :: AlphaNumeric(s[i]) || s[i] == '.' || s[i] == '-';
    }
  }

  lemma LoopbackDials(s: string, lib: Library)
    requires Lawful(lib) && AcceptedHost(s, lib) && LoopbackHost(s, lib).Success?
    ensures DialHost(LoopbackHost(s, lib).value, lib)
  {
    hide HostName, StripLeft, StripRight, HttpPeer.HexColon;
    var r := LoopbackHost(s, lib).value;
    if LocalHost(s) {
      assert '%' !in "127.0.0.1";
      assert AddressForm("127.0.0.1", lib.address("127.0.0.1").value);
      AddressDials("127.0.0.1", lib);
    } else {
      var a := lib.address(s).value;
      assert AddressForm(r, a) && lib.address(r) == Some(a);
      AddressDials(r, lib);
    }
  }

  lemma AddressDials(s: string, lib: Library)
    requires lib.address(s).Some? && AddressForm(s, lib.address(s).value)
    ensures DialHost(s, lib)
  {
  }

  lemma EndpointStays(d: Dict, port: Value, lib: Library)
    requires Lawful(lib) && WithEndpoint(d, port, lib).Success?
    ensures var e := WithEndpoint(d, port, lib).value;
            && Endpoint(e[NETWORK_HOST := Get(e, Host)], lib)
            && (Dialled(e, lib).Success? ==> Endpoint(Dialled(e, lib).value, lib))
            && (forall k: Field | !k.Host? && !k.Port? :: Get(e, k) == Get(d, k))
  {
    hide HostName, DialHost, LoopbackHost, AcceptedHost;
    var e := WithEndpoint(d, port, lib).value;
    EndpointFields(d, port, lib);
    HostDials(Get(e, Host).text, lib);
    if Dialled(e, lib).Success? {
      LoopbackDials(Get(e, Host).text, lib);
    }
  }

  lemma EndpointFields(d: Dict, port: Value, lib: Library)
    requires WithEndpoint(d, port, lib).Success?
    ensures var e := WithEndpoint(d, port, lib).value;
            Get(e, Host).Text? && AcceptedHost(Get(e, Host).text, lib) && Get(e, Port).Int? && 1 <= Get(e, Port).whole <= 65535
  {
  }

  /** Whatever is dialled, in demo mode or not, has a usable host and port. */
  lemma ValidatedEndpoints(profile: Value, demo: bool, lib: Library)
    requires Lawful(lib) && Validated(profile, demo, lib).Success?
    ensures var v := Validated(profile, demo, lib).value;
            && Endpoint(v.device, lib)
            && (Get(v.connector, Type) != DIRECT ==> IsProxyType(Get(v.connector, Type)) && Endpoint(v.connector, lib))
  {
    hide CheckedSeconds, DemoFilesAllowed, LoginsFault, Endpoint, WithEndpoint, Dialled, Lawful, DefaultPort, IsProxyType;
    var raw := Raw(profile.fields).fields;
    var kind := Get(raw, Type);
    EndpointStays(profile.fields, GetOr(profile.fields, Port, DefaultPort(Get(profile.fields, Protocol))), lib);
    assert kind == DIRECT || IsProxyType(kind);
    if kind != DIRECT {
      EndpointStays(raw[Type := kind], Get(raw, Port), lib);
      var e := WithEndpoint(raw[Type := kind], Get(raw, Port), lib).value;
      DialledKeeps(e, lib);
      assert Get(e, Type) == kind;
      assert Get(Validated(profile, demo, lib).value.connector, Type) == kind;
    }
  }

  lemma DialledKeeps(d: Dict, lib: Library)
    ensures Dialled(d, lib).Success? ==> forall k: Field | k != NETWORK_HOST :: Get(Dialled(d, lib).value, k) == Get(d, k)
  {
  }

  /** The kinds that go together: a shell tunnel serves Telnet only, and a saved proxy is never dialled directly. */
  lemma ValidatedKinds(profile: Value, demo: bool, lib: Library)
    requires Validated(profile, demo, lib).Success?
    ensures var v := Validated(profile, demo, lib).value;
            && IsProtocol(Get(v.device, Protocol)) && IsConnectorType(Get(v.connector, Type))
            && (Get(v.connector, Type) == Text("ssh_shell") ==> Get(v.device, Protocol) == Text("telnet"))
            && (Truthy(Get(v.device, ProxyId)) ==> Get(v.connector, Type) != DIRECT)
            && 1.0 <= v.seconds <= 30.0
  {
    hide Validated, IsProtocol, IsConnectorType, Truthy, A.CompletionAcceptable, ReadSeconds, A.Reachable;
    A.ValidatedExactly(profile, demo, lib);
  }

  /** A literal address that the demo policy calls loopback. */
  predicate LoopbackLiteral(host: string, lib: Library) {
    host == "127.0.0.1" || (lib.address(host).Some? && lib.loopback(lib.address(host).value))
  }

  /** In demo mode nothing but literal loopback addresses is ever dialled, for the device and for its proxy. */
  lemma DemoDialsLoopback(profile: Value, lib: Library)
    requires Lawful(lib) && Validated(profile, true, lib).Success?
    ensures var v := Validated(profile, true, lib).value;
            && LoopbackLiteral(TextOf(Get(v.device, NETWORK_HOST)), lib)
            && (Get(v.connector, Type) != DIRECT ==> LoopbackLiteral(TextOf(Get(v.connector, NETWORK_HOST)), lib))
  {
    hide Endpoints, LoginsFault, DemoFilesAllowed, Lawful, LoopbackLiteral, Dialled;
    var first := Endpoints(profile, lib).value;
    EndpointsHosts(profile, lib);
    DialledLiteral(first.device, lib);
    if Get(first.connector, Type) != DIRECT {
      DialledLiteral(first.connector, lib);
    }
  }

  lemma EndpointsHosts(profile: Value, lib: Library)
    requires Endpoints(profile, lib).Success?
    ensures var v := Endpoints(profile, lib).value;
            && Get(v.device, Host).Text? && AcceptedHost(Get(v.device, Host).text, lib)
            && (Get(v.connector, Type) != DIRECT ==>
                  Get(v.connector, Host).Text? && AcceptedHost(Get(v.connector, Host).text, lib))
  {
    hide AcceptedHost, CheckedPort, CheckedSeconds, KindFault, DefaultPort;
  }

  lemma DialledLiteral(d: Dict, lib: Library)
    requires Lawful(lib) && (Get(d, Host).Text? ==> AcceptedHost(Get(d, Host).text, lib))
    ensures Dialled(d, lib).Success? ==>
              && LoopbackLiteral(TextOf(Get(Dialled(d, lib).value, NETWORK_HOST)), lib)
              && Get(Dialled(d, lib).value, Type) == Get(d, Type)
  {
    hide AcceptedHost, Lawful, LoopbackLiteral, LoopbackHost;
    if Get(d, Host).Text? {
      LoopbackLiterals(Get(d, Host).text, lib);
    }
  }

  lemma LoopbackLiterals(s: string, lib: Library)
    requires Lawful(lib) && AcceptedHost(s, lib)
    ensures LoopbackHost(s, lib).Success? ==> LoopbackLiteral(LoopbackHost(s, lib).value, lib)
  {
    hide LocalHost, HostName, AddressForm, StripLeft, StripRight;
    if LoopbackHost(s, lib).Success? && !LocalHost(s) {
      var a := lib.address(s).value;
      assert lib.address(lib.addressText(a)) == Some(a);
    }
  }

  // ---------------------------------------------------------------------------
  // Logins.

  lemma PasswordLogin(auth: Dict, required: bool)
    requires LoginFault(auth, required, false).None?
    ensures var username, password := TextOf(Get(auth, Username)), TextOf(Get(auth, Password));
            && (username == "" <==> password == "") && (required ==> username != "")
            && Texts.Plain(username) && Texts.Plain(password)
  {
  }

  lemma ValidatedLogins(profile: Value, demo: bool, lib: Library)
    requires Validated(profile, demo, lib).Success?
    ensures var v := Validated(profile, demo, lib).value;
            var kind := Get(v.connector, Type);
            && (Get(v.device, Protocol) == Text("telnet") ==> LoginFault(v.device, true, false).None?)
            && (kind != DIRECT && !StartsSsh(kind) ==> LoginFault(v.connector, false, false).None?)
            && (kind == Text("http_connect") ==> ':' !in TextOf(Get(v.connector, Username)))
  {
    hide Endpoints, Networked, LoginFault;
  }

  /** The Telnet test sends two nonempty lines: no user name or password can break out of its line. */
  lemma TelnetLinesAreLines(profile: Value, demo: bool, lib: Library)
    requires Lawful(lib) && Validated(profile, demo, lib).Success?
    ensures var v := Validated(profile, demo, lib).value;
            Get(v.device, Protocol) == Text("telnet") ==>
              forall k: Field | k.Username? || k.Password? ::
                var bytes := lib.encode(TextOf(Get(v.device, k)));
                bytes != [] && 13 !in bytes && 10 !in bytes
  {
    hide Validated, LoginFault;
    ValidatedLogins(profile, demo, lib);
    var v := Validated(profile, demo, lib).value;
    if Get(v.device, Protocol) == Text("telnet") {
      PasswordLogin(v.device, true);
    }
  }

  // ---------------------------------------------------------------------------
  // The two tunnel handshakes on validated profiles.

  lemma SocksTarget(host: string, port: int, lib: Library)
    requires DialHost(host, lib) && 1 <= port <= 65535
    ensures Socks5.Packed(TargetOf(host, lib)) && Socks5.Encodable(TargetOf(host, lib), port)
  {
    HttpAgreement.AllowedIsAscii(host);
  }

  function HostOf(d: Dict): string {
    TextOf(Get(d, NETWORK_HOST))
  }

  function PortOf(d: Dict): int {
    if Get(d, Port).Int? then Get(d, Port).whole else 0
  }

  function SocksLogin(connector: Dict, lib: Library): Socks5.Login {
    Socks5.Login(lib.encode(TextOf(Get(connector, Username))), lib.encode(TextOf(Get(connector, Password))))
  }

  function HttpLogin(connector: Dict, lib: Library): HttpConnect.Credentials {
    HttpConnect.Credentials(lib.encode(TextOf(Get(connector, Username))), lib.encode(TextOf(Get(connector, Password))))
  }

  /**
   With a validated profile the SOCKS5 handshake never stops over its destination: it succeeds exactly when the
   credentials match, which includes the 255-byte limit, and the peer is willing.
   */
  lemma ValidatedSocksHandshake(profile: Value, demo: bool, lib: Library, peer: Socks5Peer.Peer,
                                cin: seq<Byte>, up: seq<Byte>, pin: seq<Byte>, down: seq<Byte>)
    requires Lawful(lib) && Validated(profile, demo, lib).Success?
    requires forall s :: peer.utf8(lib.encode(s))
    requires var v := Validated(profile, demo, lib).value;
             Socks5Agreement.Joined(
                  Socks5.ClientExchange(SocksLogin(v.connector, lib), TargetOf(HostOf(v.device), lib), PortOf(v.device), cin), cin, up,
                  Socks5Peer.PeerExchange(peer, pin), pin, down)
    ensures var v := Validated(profile, demo, lib).value;
            var target := TargetOf(HostOf(v.device), lib);
            Socks5Agreement.Agreed(
              Socks5Agreement.LoginMatches(peer, SocksLogin(v.connector, lib))
              && !peer.malformed && !peer.deny && peer.reachable(target, PortOf(v.device)),
              target, PortOf(v.device),
              Socks5.ClientExchange(SocksLogin(v.connector, lib), target, PortOf(v.device), cin), cin, up,
              Socks5Peer.PeerExchange(peer, pin), pin, down)
  {
    hide Validated, Lawful, DialHost, TargetOf, Socks5.ClientExchange, Socks5Peer.PeerExchange;
    var v := Validated(profile, demo, lib).value;
    ValidatedEndpoints(profile, demo, lib);
    SocksTarget(HostOf(v.device), PortOf(v.device), lib);
    Socks5Agreement.HandshakeAgreement(peer, SocksLogin(v.connector, lib), TargetOf(HostOf(v.device), lib), PortOf(v.device),
                                       cin, up, pin, down);
  }

  /** With a validated profile the HTTP handshake succeeds exactly when the request fits and the peer serves it. */
  lemma ValidatedHttpHandshake(profile: Value, demo: bool, lib: Library, peer: HttpPeer.Peer,
                               cin: string, up: string, pin: string, down: string)
    requires Lawful(lib) && Validated(profile, demo, lib).Success?
    requires var v := Validated(profile, demo, lib).value;
             PortOf(v.device) >= 0 &&
             HttpAgreement.Joined(
               HttpConnect.ClientExchange(HttpLogin(v.connector, lib), HostOf(v.device), PortOf(v.device), cin), cin, up,
               HttpPeer.PeerExchange(peer, pin), pin, down)
    ensures var v := Validated(profile, demo, lib).value;
            var login, host, port := HttpLogin(v.connector, lib), HostOf(v.device), PortOf(v.device);
            var c, p := HttpConnect.ClientExchange(login, host, port, cin), HttpPeer.PeerExchange(peer, pin);
            if && |HttpConnect.Request(login, host, port)| <= HttpConnect.LIMIT && HttpAgreement.KnownForm(host)
               && HttpAgreement.LoginMatches(peer, login)
               && !peer.malformed && !peer.deny && peer.reachable(host, port)
            then
              && c.outcome.Connected? && p.outcome == HttpPeer.Relaying(host, port)
              && cin[c.consumed..] == down && pin[p.consumed..] == up
            else !c.outcome.Connected? && !p.outcome.Relaying?
  {
    hide Validated, DialHost, HttpConnect.ClientExchange, HttpPeer.PeerExchange, HttpConnect.Request, HttpAgreement.LoginMatches;
    var v := Validated(profile, demo, lib).value;
    ValidatedEndpoints(profile, demo, lib);
    DialIsAllowed(HostOf(v.device), lib);
    HttpAgreement.HandshakeAgreement(peer, HttpLogin(v.connector, lib), HostOf(v.device), PortOf(v.device), cin, up, pin, down);
  }

  /**
   For a validated HTTP connector the credentials match a peer whose own user name has no colon exactly when the peer
   wants none or they are the same user name and password.
   */
  lemma ValidatedHttpLogin(profile: Value, demo: bool, lib: Library, peer: HttpPeer.Peer)
    requires Lawful(lib) && Validated(profile, demo, lib).Success?
    requires Get(Validated(profile, demo, lib).value.connector, Type) == Text("http_connect")
    requires 58 !in peer.login.username
    ensures var login := HttpLogin(Validated(profile, demo, lib).value.connector, lib);
            HttpAgreement.LoginMatches(peer, login) <==> peer.login.username == [] || login == peer.login
  {
    hide Validated, HttpConnect.UserPass;
    ValidatedLogins(profile, demo, lib);
    SameLogin(HttpLogin(Validated(profile, demo, lib).value.connector, lib), peer.login);
  }

  lemma DialIsAllowed(host: string, lib: Library)
    requires DialHost(host, lib)
    ensures HttpAgreement.AllowedHost(host)
  {
  }

  lemma SameLogin(a: HttpConnect.Credentials, b: HttpConnect.Credentials)
    requires 58 !in a.username && 58 !in b.username
    ensures HttpConnect.UserPass(a) == HttpConnect.UserPass(b) <==> a == b
  {
    if HttpConnect.UserPass(a) == HttpConnect.UserPass(b) {
      HttpConnect.BasicInjective(a, b);
    }
  }

  // ---------------------------------------------------------------------------
  // Libraries that obey the laws exist.

  const LOCAL_TEXT := "127.0.0.1"
  const LOCAL := Address(4, [127, 0, 0, 1])
  const MAPPED_TEXT := "::ffff:1.2.3.4"
  const MAPPED := Address(6, [0, 0, 0, 0, 0, 0, 0, 0, 0, 0, 255, 255, 1, 2, 3, 4])

  function OneByteEach(s: string): seq<Byte> {
    seq(|s|, i requires 0 <= i < |s| => if s[i] < '\U{0080}' then s[i] as int else 128)
  }

  function ReadAddress(s: string): Option<Address> {
    if s == LOCAL_TEXT then Some(LOCAL) else if s == MAPPED_TEXT then Some(MAPPED) else None
  }

  /** Libraries that know two addresses only. */
  function SmallLibrary(): Library {
    Library(s => None, s => None, s => ReadAddress(s), (a: Address) => if a.version == 4 then LOCAL_TEXT else MAPPED_TEXT,
            a => a == LOCAL,
            s => OneByteEach(s), v => true)
  }

  lemma OneByteLaw(s: string, c: char)
    requires c < '\U{0080}'
    ensures (c as int) in OneByteEach(s) <==> c in s
  {
    var bytes := OneByteEach(s);
    if c in s {
      var i :| 0 <= i < |s| && s[i] == c;
      assert bytes[i] == c as int;
    }
    if (c as int) in bytes {
      var i :| 0 <= i < |bytes| && bytes[i] == c as int;
      assert s[i] == c;
    }
  }

  lemma SmallLibraryLawful()
    ensures Lawful(SmallLibrary())
  {
    hide OneByteEach, AddressForm;
    AddressesLawful();
    var lib := SmallLibrary();
    forall s ensures lib.encode(s) == OneByteEach(s) && OneByteLaws(s) {
      OneByteLaw(s, ':');
      OneByteLaw(s, '\n');
      OneByteLaw(s, '\r');
      OneByteLength(s);
    }
  }

  predicate OneByteLaws(s: string) {
    var bytes := OneByteEach(s);
    (bytes == [] <==> s == "") && (58 in bytes <==> ':' in s) && (10 in bytes <==> '\n' in s) && (13 in bytes <==> '\r' in s)
  }

  lemma AddressesLawful()
    ensures AddressForm(LOCAL_TEXT, LOCAL) && AddressForm(MAPPED_TEXT, MAPPED) && LOCAL_TEXT != MAPPED_TEXT
  {
    assert MAPPED_TEXT[0] == ':' && LOCAL_TEXT[0] == '1';
  }

  lemma OneByteLength(s: string)
    ensures |OneByteEach(s)| == |s|
  {
  }

  /** A Telnet device behind an HTTP proxy on the local machine. */
  function Sample(host: string): Value {
    Object(map[Protocol := Text("telnet"), Host := Text(host), Username := Text("u"), Password := Text("p"),
               Connector := Object(SAMPLE_CONNECTOR)])
  }

  const SAMPLE_CONNECTOR := map[Type := Text("http_connect"), Host := Text(LOCAL_TEXT), Port := Int(8080)]

  /** Whatever its host, if the host is accepted at all, this profile validates and dials that host. */
  lemma SampleValidates(host: string, lib: Library)
    requires AcceptedHost(host, lib) && AcceptedHost(LOCAL_TEXT, lib)
    ensures Validated(Sample(host), false, lib).Success?
    ensures HostOf(Validated(Sample(host), false, lib).value.device) == host
  {
    hide Validated, AcceptedHost, A.EndpointsAcceptable, A.CompletionAcceptable, A.CopyOf;
    SampleEndpoints(host, lib);
    SampleLogins(host, lib);
    A.ValidatedExactly(Sample(host), false, lib);
    assert A.CopyOf(Validated(Sample(host), false, lib).value.device, Sample(host).fields);
    CopyHost(Validated(Sample(host), false, lib).value.device, Sample(host).fields);
  }

  lemma CopyHost(a: Dict, b: Dict)
    requires A.CopyOf(a, b)
    ensures Get(a, Host) == Get(b, Host)
  {
  }

  lemma SampleEndpoints(host: string, lib: Library)
    requires AcceptedHost(host, lib) && AcceptedHost(LOCAL_TEXT, lib)
    ensures A.EndpointsAcceptable(Sample(host), lib)
  {
    hide AcceptedHost;
  }

  lemma SampleLogins(host: string, lib: Library)
    ensures A.CompletionAcceptable(Sample(host).fields, SAMPLE_CONNECTOR, false, lib)
    ensures Raw(Sample(host).fields) == Object(SAMPLE_CONNECTOR)
  {
    NoSsh();
    hide StartsSsh;
  }

  lemma NoSsh()
    ensures !StartsSsh(Text("http_connect"))
  {
  }

  lemma MappedAccepted()
    ensures AcceptedHost(MAPPED_TEXT, SmallLibrary()) && AcceptedHost(LOCAL_TEXT, SmallLibrary())
  {
    assert MAPPED_TEXT[0] == ':' && MAPPED_TEXT[13] == '4' && LOCAL_TEXT[0] == '1' && LOCAL_TEXT[8] == '1';
  }

  /**
   Validation accepts an IPv6 literal with a dotted tail, and the peer then never lets the connection through: the
   joined runs of both fail whatever the peer's settings.
   */
  lemma MappedAddressPassesAndFails(peer: HttpPeer.Peer, login: HttpConnect.Credentials, port: nat, cin: string, pin: string)
    requires HttpAgreement.Joined(HttpConnect.ClientExchange(login, MAPPED_TEXT, port, cin), cin, "",
                                  HttpPeer.PeerExchange(peer, pin), pin, "")
    ensures Lawful(SmallLibrary()) && Validated(Sample(MAPPED_TEXT), false, SmallLibrary()).Success?
    ensures HostOf(Validated(Sample(MAPPED_TEXT), false, SmallLibrary()).value.device) == MAPPED_TEXT
    ensures !HttpConnect.ClientExchange(login, MAPPED_TEXT, port, cin).outcome.Connected?
  {
    hide Validated, Lawful, AcceptedHost, HttpConnect.ClientExchange, HttpPeer.PeerExchange;
    SmallLibraryLawful();
    MappedAccepted();
    SampleValidates(MAPPED_TEXT, SmallLibrary());
    HttpAgreement.MappedAddressRejected(peer, login, port, cin, pin);
  }
}
