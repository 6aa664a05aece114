/** What the SOCKS5 client and the loopback peer agree on once both have finished talking to each other. */
module Socks5Agreement {
  import opened Bytes
  import opened Streams
  import opened Socks5
  import opened Socks5Peer

  /**
   Two finished runs joined by a connection: each side's input is what the other side's handshake sent,
   followed by tunnelled bytes, which a side sends only after its own handshake has succeeded.
   */
  ghost predicate Joined(c: Exchange<ClientOutcome>, cin: seq<Byte>, up: seq<Byte>,
                         p: Exchange<PeerOutcome>, pin: seq<Byte>, down: seq<Byte>)
  {
    && cin == p.sent + down && (down != [] ==> p.outcome.Relaying?)
    && pin == c.sent + up && (up != [] ==> c.outcome.Connected?)
  }

  /** Both sides succeeded on the same destination and stand exactly at the first tunnelled byte, or neither succeeded. */
  ghost predicate Agreed(success: bool, target: Target, port: int,
                         c: Exchange<ClientOutcome>, cin: seq<Byte>, up: seq<Byte>,
                         p: Exchange<PeerOutcome>, pin: seq<Byte>, down: seq<Byte>)
  {
    if success then
      && c.outcome.Connected? && p.outcome == Relaying(target, port)
      && c.consumed <= |cin| && cin[c.consumed..] == down
      && p.consumed <= |pin| && pin[p.consumed..] == up
    else !c.outcome.Connected? && !p.outcome.Relaying?
  }

  /** A stage in which each side reads exactly what the other wrote leaves a joined pair and hands its agreement on. */
  lemma StageJoined(c: Exchange<ClientOutcome>, sc: seq<Byte>, cin: seq<Byte>, up: seq<Byte>,
                    p: Exchange<PeerOutcome>, sp: seq<Byte>, pin: seq<Byte>, down: seq<Byte>)
    requires Joined(After(sc, |sp|, c), cin, up, After(sp, |sc|, p), pin, down)
    ensures cin == sp + cin[|sp|..] && pin == sc + pin[|sc|..]
    ensures Joined(c, cin[|sp|..], up, p, pin[|sc|..], down)
  {
    assert cin == sp + (p.sent + down);
    assert pin == sc + (c.sent + up);
  }

  predicate Serves(peer: Peer, target: Target, port: int) {
    Encodable(target, port) && !peer.malformed && !peer.deny && peer.reachable(target, port)
  }

  predicate LoginMatches(peer: Peer, login: Login) {
    if login.username == [] then peer.login.username == []
    else Fits(login) && login == peer.login
  }

  // ---------------------------------------------------------------------------
  // How a handshake ends on either side, and what the peer says, as the two configurations decide it.

  datatype Verdict = Verdict(client: ClientOutcome, peer: PeerOutcome, said: seq<Byte>)

  /** A reply of RFC 1928 with the address 0.0.0.0 and port 0. */
  function BareReply(version: Byte, code: Byte): seq<Byte> {
    [version, code, 0, 1, 0, 0, 0, 0, 0, 0]
  }

  function RequestVerdict(peer: Peer, target: Target, port: int): Verdict {
    if !Encodable(target, port) then Verdict(Unencodable, PeerHungUp, [])
    else if peer.malformed then Verdict(BadReply, Malformed, BareReply(4, 0))
    else if peer.deny then Verdict(Denied, Refused, BareReply(5, 2))
    else if !peer.reachable(target, port) then Verdict(Denied, Unreachable, BareReply(5, 4))
    else Verdict(Connected, Relaying(target, port), BareReply(5, 0))
  }

  function Later(said: seq<Byte>, v: Verdict): Verdict {
    v.(said := said + v.said)
  }

  function LoginVerdict(peer: Peer, login: Login, target: Target, port: int): Verdict {
    if login.username == [] then RequestVerdict(peer, target, port)
    else if |login.username| > 255 || |login.password| > 255 then Verdict(CredentialsTooLong, PeerHungUp, [])
    else if login != peer.login then Verdict(AuthRejected, LoginRefused, [1, 1])
    else Later([1, 0], RequestVerdict(peer, target, port))
  }

  function HandshakeVerdict(peer: Peer, login: Login, target: Target, port: int): Verdict {
    if (login.username == []) != (peer.login.username == []) then Verdict(MethodRejected, NoMethod, [5, 255])
    else Later([5, if login.username == [] then 0 else 2], LoginVerdict(peer, login, target, port))
  }

  /** Both sides end as the verdict says; on success each stands exactly at the first tunnelled byte. */
  ghost predicate Met(v: Verdict, c: Exchange<ClientOutcome>, cin: seq<Byte>, up: seq<Byte>,
                      p: Exchange<PeerOutcome>, pin: seq<Byte>, down: seq<Byte>)
  {
    && c.outcome == v.client && p.outcome == v.peer && p.sent == v.said
    && (v.client.Connected? ==>
          c.consumed <= |cin| && cin[c.consumed..] == down && p.consumed <= |pin| && pin[p.consumed..] == up)
  }

  lemma StageMet(v: Verdict, c: Exchange<ClientOutcome>, sc: seq<Byte>, cin: seq<Byte>, up: seq<Byte>,
                 p: Exchange<PeerOutcome>, sp: seq<Byte>, pin: seq<Byte>, down: seq<Byte>)
    requires |sp| <= |cin| && |sc| <= |pin|
    requires Met(v, c, cin[|sp|..], up, p, pin[|sc|..], down)
    ensures Met(Later(sp, v), After(sc, |sp|, c), cin, up, After(sp, |sc|, p), pin, down)
  {
    if v.client.Connected? {
      assert cin[|sp|..][c.consumed..] == cin[|sp| + c.consumed..];
      assert pin[|sc|..][p.consumed..] == pin[|sc| + p.consumed..];
    }
  }

  // ---------------------------------------------------------------------------
  // Printing and parsing a request.

  lemma PortRoundTrip(port: int)
    requires 0 <= port < 65536
    ensures var high: int := PortBytes(port)[0]; 256 * high + PortBytes(port)[1] == port
  {
  }

  lemma PortParsed(peer: Peer, target: Target, port: int, rest: seq<Byte>)
    requires 0 <= port < 65536
    ensures PeerPort(peer, [5, 1, 0], target, PortBytes(port) + rest) == PeerDecision(peer, [5, 1, 0], target, port, 2)
  {
    PortRoundTrip(port);
    hide PeerDecision;
  }

  lemma TargetParsed(peer: Peer, target: Target, tail: seq<Byte>)
    requires Packed(target) && (target.Host? ==> IsAscii(target.name) && |target.name| < 256)
    ensures var encoded := EncodedTarget(target);
            PeerTarget(peer, [5, 1, 0], encoded[0], encoded[1..] + tail)
            == After([], |encoded| - 1, PeerPort(peer, [5, 1, 0], target, tail))
  {
    hide PeerPort, IsAscii;
    var input := EncodedTarget(target)[1..] + tail;
    match target
    case V4(a) =>
      assert input == a + tail;
      assert input[..4] == a && input[4..] == tail;
    case V6(a) =>
      assert input == a + tail;
      assert input[..16] == a && input[16..] == tail;
    case Host(name) =>
      assert input[1..] == name + tail;
      assert input[1..][..|name|] == name && input[1..][|name|..] == tail;
  }

  /** The peer parses exactly the destination that the client printed and stops at the byte after it. */
  lemma RequestParsed(peer: Peer, target: Target, port: int, rest: seq<Byte>)
    requires Packed(target) && Encodable(target, port)
    ensures PeerRequest(peer, Request(target, port) + rest)
         == PeerDecision(peer, [5, 1, 0], target, port, |Request(target, port)|)
  {
    hide PeerTarget, PeerPort, PeerDecision, EncodedTarget, PortBytes, Packed, IsAscii;
    var tail := PortBytes(port) + rest;
    var encoded := EncodedTarget(target);
    EncodedKind(target);
    TargetParsed(peer, target, tail);
    PortParsed(peer, target, port, rest);
    DecisionShift(peer, target, port);
    var input := Request(target, port) + rest;
    assert input[..3] == [5, 1, 0] && input[3] == encoded[0];
    assert input[4..] == encoded[1..] + tail;
  }

  lemma EncodedKind(target: Target)
    requires target.Host? ==> |target.name| < 256
    ensures |EncodedTarget(target)| >= 1
    ensures forall port | 0 <= port < 65536 :: |PortBytes(port)| == 2
  {
  }

  lemma DecisionShift(peer: Peer, target: Target, port: int)
    ensures forall n: nat, m: nat :: After([], m, PeerDecision(peer, [5, 1, 0], target, port, n))
                                  == PeerDecision(peer, [5, 1, 0], target, port, m + n)
  {
  }

  lemma LoginParsed(peer: Peer, login: Login, rest: seq<Byte>)
    requires login.username != [] && peer.login.username != [] && Fits(login)
    requires peer.utf8(login.username) && peer.utf8(login.password)
    ensures PeerLogin(peer, AuthRequest(login) + rest)
         == if login == peer.login then After([1, 0], |AuthRequest(login)|, PeerRequest(peer, rest))
            else Exchange(LoginRefused, [1, 1], |AuthRequest(login)|)
  {
    hide PeerRequest, PeerPasswordSize;
    var second := [|login.password|] + login.password + rest;
    var input := AuthRequest(login) + rest;
    assert input == [1, |login.username|] + (login.username + second);
    assert input[2..] == login.username + second;
    assert input[2..][..|login.username|] == login.username && input[2..][|login.username|..] == second;
    PasswordParsed(peer, login, rest);
  }

  lemma PasswordParsed(peer: Peer, login: Login, rest: seq<Byte>)
    requires Fits(login) && peer.utf8(login.password)
    ensures PeerPasswordSize(peer, 1, login.username, [|login.password|] + login.password + rest)
         == if login == peer.login then After([1, 0], 1 + |login.password|, PeerRequest(peer, rest))
            else Exchange(LoginRefused, [1, 1], 1 + |login.password|)
  {
    hide PeerRequest;
    var second := [|login.password|] + login.password + rest;
    assert second[1..] == login.password + rest;
    assert second[1..][..|login.password|] == login.password && second[1..][|login.password|..] == rest;
  }

  lemma GreetingParsed(peer: Peer, username: seq<Byte>, rest: seq<Byte>)
    ensures var m := Method(peer.login.username);
            PeerExchange(peer, Greeting(username) + rest)
            == if Method(username) == m then After([5, m], 3, PeerLogin(peer, rest)) else Exchange(NoMethod, [5, 255], 3)
  {
    hide PeerLogin;
    var input := Greeting(username) + rest;
    assert input[2..] == [Method(username)] + rest;
    assert input[2..][1..] == rest;
    assert input[2..][..1] == [Method(username)];
  }

  // ---------------------------------------------------------------------------
  // Agreement, last stage first.

  lemma RequestMet(peer: Peer, target: Target, port: int, cin: seq<Byte>, up: seq<Byte>, pin: seq<Byte>, down: seq<Byte>)
    requires Packed(target)
    requires Joined(ClientRequest(target, port, cin), cin, up, PeerRequest(peer, pin), pin, down)
    ensures Met(RequestVerdict(peer, target, port), ClientRequest(target, port, cin), cin, up, PeerRequest(peer, pin), pin, down)
  {
    hide ClientReply, PeerRequest, PeerDecision, Request, Encodable, Packed, RequestVerdict;
    if Encodable(target, port) {
      var rest := ClientReply(cin).sent + up;
      assert pin == Request(target, port) + rest;
      RequestParsed(peer, target, port, rest);
      DecisionMade(peer, target, port);
      ReplyRead(peer, target, port, cin, down);
      assert pin[|Request(target, port)|..] == rest == up;
    } else {
      assert pin == [];
      EmptyRequest(peer, target, port);
    }
  }

  lemma DecisionMade(peer: Peer, target: Target, port: int)
    requires Encodable(target, port)
    ensures var n, v := |Request(target, port)|, RequestVerdict(peer, target, port);
            PeerDecision(peer, [5, 1, 0], target, port, n) == Exchange(v.peer, v.said, n)
  {
  }

  lemma EmptyRequest(peer: Peer, target: Target, port: int)
    requires !Encodable(target, port)
    ensures PeerRequest(peer, []) == Exchange(PeerHungUp, [], 0)
    ensures RequestVerdict(peer, target, port) == Verdict(Unencodable, PeerHungUp, [])
  {
  }

  /** How the client reads the peer's verdict. */
  lemma ReplyRead(peer: Peer, target: Target, port: int, cin: seq<Byte>, down: seq<Byte>)
    requires Encodable(target, port)
    requires cin == RequestVerdict(peer, target, port).said + down
    ensures ClientReply(cin).sent == [] && ClientReply(cin).outcome == RequestVerdict(peer, target, port).client
    ensures ClientReply(cin).outcome.Connected? ==> ClientReply(cin).consumed == 10 <= |cin| && cin[10..] == down
  {
    assert |cin| >= 10;
  }

  lemma LoginMet(peer: Peer, login: Login, target: Target, port: int,
                 cin: seq<Byte>, up: seq<Byte>, pin: seq<Byte>, down: seq<Byte>)
    requires Packed(target) && peer.utf8(login.username) && peer.utf8(login.password)
    requires login.username == [] <==> peer.login.username == []
    requires Joined(ClientLogin(login, target, port, cin), cin, up, PeerLogin(peer, pin), pin, down)
    ensures Met(LoginVerdict(peer, login, target, port), ClientLogin(login, target, port, cin), cin, up, PeerLogin(peer, pin), pin, down)
  {
    hide RequestVerdict, ClientRequest, PeerRequest;
    if login.username == [] {
      RequestMet(peer, target, port, cin, up, pin, down);
    } else if Fits(login) {
      NamedLoginMet(peer, login, target, port, cin, up, pin, down);
    }
  }

  lemma NamedLoginMet(peer: Peer, login: Login, target: Target, port: int,
                      cin: seq<Byte>, up: seq<Byte>, pin: seq<Byte>, down: seq<Byte>)
    requires Packed(target) && peer.utf8(login.username) && peer.utf8(login.password)
    requires login.username != [] && peer.login.username != [] && Fits(login)
    requires Joined(ClientLogin(login, target, port, cin), cin, up, PeerLogin(peer, pin), pin, down)
    ensures Met(LoginVerdict(peer, login, target, port), ClientLogin(login, target, port, cin), cin, up, PeerLogin(peer, pin), pin, down)
  {
    hide RequestVerdict, AuthRequest, ClientRequest, PeerRequest;
    var sc := AuthRequest(login);
    assert sc <= ClientLogin(login, target, port, cin).sent;
    var rest := pin[|sc|..];
    assert pin == sc + rest;
    LoginParsed(peer, login, rest);
    hide PeerLogin;
    if login == peer.login {
      assert cin[..2] == [1, 0];
      StageJoined(ClientRequest(target, port, cin[2..]), sc, cin, up, PeerRequest(peer, rest), [1, 0], pin, down);
      RequestMet(peer, target, port, cin[2..], up, rest, down);
      StageMet(RequestVerdict(peer, target, port),
               ClientRequest(target, port, cin[2..]), sc, cin, up, PeerRequest(peer, rest), [1, 0], pin, down);
    }
  }

  /**
   Whatever the configurations, both sides end as the table of verdicts says, and the peer says exactly what it says
   there: who refuses, for what reason, and what the other side makes of it.
   */
  lemma HandshakeMet(peer: Peer, login: Login, target: Target, port: int,
                     cin: seq<Byte>, up: seq<Byte>, pin: seq<Byte>, down: seq<Byte>)
    requires Packed(target) && peer.utf8(login.username) && peer.utf8(login.password)
    requires Joined(ClientExchange(login, target, port, cin), cin, up, PeerExchange(peer, pin), pin, down)
    ensures Met(HandshakeVerdict(peer, login, target, port),
                ClientExchange(login, target, port, cin), cin, up, PeerExchange(peer, pin), pin, down)
  {
    hide ClientLogin, PeerLogin, LoginVerdict;
    var sc := Greeting(login.username);
    assert sc <= ClientExchange(login, target, port, cin).sent;
    var rest := pin[3..];
    assert pin == sc + rest;
    GreetingParsed(peer, login.username, rest);
    var m := Method(peer.login.username);
    if Method(login.username) == m {
      var sp := [5, m];
      assert cin[..2] == sp;
      var c, p := ClientLogin(login, target, port, cin[2..]), PeerLogin(peer, rest);
      StageJoined(c, sc, cin, up, p, sp, pin, down);
      LoginMet(peer, login, target, port, cin[2..], up, rest, down);
      StageMet(LoginVerdict(peer, login, target, port), c, sc, cin, up, p, sp, pin, down);
    }
  }

  lemma VerdictAgrees(peer: Peer, login: Login, target: Target, port: int)
    ensures var v := HandshakeVerdict(peer, login, target, port);
            if LoginMatches(peer, login) && Serves(peer, target, port) then v.client.Connected? && v.peer == Relaying(target, port)
            else !v.client.Connected? && !v.peer.Relaying?
  {
  }

  /**
   The handshake as a whole: the client connects exactly when the peer relays, exactly when the credentials match and
   the destination can be encoded and is served; both then mean the same destination, and the next byte either side
   reads is the first tunnelled one.
   */
  lemma HandshakeAgreement(peer: Peer, login: Login, target: Target, port: int,
                           cin: seq<Byte>, up: seq<Byte>, pin: seq<Byte>, down: seq<Byte>)
    requires Packed(target) && peer.utf8(login.username) && peer.utf8(login.password)
    requires Joined(ClientExchange(login, target, port, cin), cin, up, PeerExchange(peer, pin), pin, down)
    ensures Agreed(LoginMatches(peer, login) && Serves(peer, target, port), target, port,
                   ClientExchange(login, target, port, cin), cin, up, PeerExchange(peer, pin), pin, down)
  {
    HandshakeMet(peer, login, target, port, cin, up, pin, down);
    VerdictAgrees(peer, login, target, port);
    hide ClientExchange, PeerExchange, HandshakeVerdict, LoginMatches, Serves;
  }

  function Spoken(login: Login, target: Target, port: int): seq<Byte>
    requires Encodable(target, port) && (login.username != [] ==> Fits(login))
  {
    Greeting(login.username) + (if login.username != [] then AuthRequest(login) else []) + Request(target, port)
  }

  lemma PeerRelays(peer: Peer, login: Login, target: Target, port: int, up: seq<Byte>)
    requires Packed(target) && peer.utf8(login.username) && peer.utf8(login.password)
    requires LoginMatches(peer, login) && Serves(peer, target, port)
    ensures var p := PeerExchange(peer, Spoken(login, target, port) + up);
            p.outcome.Relaying? && p.sent == AcceptedReplies(login.username, Bound4([0, 0, 0, 0]), [0, 0])
  {
    hide PeerExchange, PeerRequest, Request, AuthRequest, Greeting, IsAscii, Packed;
    var request := Request(target, port) + up;
    RequestParsed(peer, target, port, up);
    if login.username == [] {
      GreetingParsed(peer, [], request);
      assert Spoken(login, target, port) + up == Greeting([]) + request;
    } else {
      hide PeerLogin;
      var rest := AuthRequest(login) + request;
      GreetingParsed(peer, login.username, rest);
      LoginParsed(peer, login, request);
      assert Spoken(login, target, port) + up == Greeting(login.username) + rest;
    }
  }

  /** Such a pair of successful runs exists whenever the credentials match and the destination is served. */
  lemma MatchingRunsExist(peer: Peer, login: Login, target: Target, port: int, up: seq<Byte>, down: seq<Byte>)
    returns (cin: seq<Byte>, pin: seq<Byte>)
    requires Packed(target) && peer.utf8(login.username) && peer.utf8(login.password)
    requires LoginMatches(peer, login) && Serves(peer, target, port)
    ensures Joined(ClientExchange(login, target, port, cin), cin, up, PeerExchange(peer, pin), pin, down)
    ensures ClientExchange(login, target, port, cin).outcome.Connected?
  {
    hide ClientExchange, PeerExchange, Request, AuthRequest, Greeting, AcceptedReplies;
    cin := AcceptedReplies(login.username, Bound4([0, 0, 0, 0]), [0, 0]) + down;
    pin := Spoken(login, target, port) + up;
    WireBytes(login, target, port);
    hide SaidFor;
    EverySuccessConnects(login, target, port, Bound4([0, 0, 0, 0]), [0, 0], down);
    PeerRelays(peer, login, target, port, up);
  }
}
