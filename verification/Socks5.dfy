/** The SOCKS5 handshake of RFC 1928 with the login of RFC 1929: the client, its loopback peer, and their agreement. */
module Socks5 {
  import opened Bytes
  import opened Streams

  /** A destination: a packed IPv4 or IPv6 address, or a host name in its one-byte encoding. */
  datatype Target = V4(address: seq<Byte>) | V6(address: seq<Byte>) | Host(name: seq<Byte>)

  /** Encoded credentials; an empty user name means none. */
  datatype Login = Login(username: seq<Byte>, password: seq<Byte>)

  predicate Packed(target: Target) {
    match target
    case V4(a) => |a| == 4
    case V6(a) => |a| == 16
    case Host(_) => true
  }

  predicate IsAscii(s: seq<Byte>) {
    forall i | 0 <= i < |s| :: s[i] < 128
  }

  /** What bytes([...]), encode("ascii") and to_bytes(2) accept. */
  predicate Encodable(target: Target, port: int) {
    && (target.Host? ==> IsAscii(target.name) && |target.name| < 256)
    && 0 <= port < 65536
  }

  predicate Fits(login: Login) {
    |login.username| <= 255 && |login.password| <= 255
  }

  // ---------------------------------------------------------------------------
  // Messages.

  function Method(username: seq<Byte>): Byte {
    if username != [] then 2 else 0
  }

  function Greeting(username: seq<Byte>): seq<Byte> {
    [5, 1, Method(username)]
  }

  function AuthRequest(login: Login): seq<Byte>
    requires Fits(login)
  {
    [1, |login.username|] + login.username + [|login.password|] + login.password
  }

  function EncodedTarget(target: Target): seq<Byte>
    requires target.Host? ==> |target.name| < 256
  {
    match target
    case V4(a) => [1] + a
    case V6(a) => [4] + a
    case Host(name) => [3, |name|] + name
  }

  function PortBytes(port: int): seq<Byte>
    requires 0 <= port < 65536
  {
    [port / 256, port % 256]
  }

  function Request(target: Target, port: int): seq<Byte>
    requires Encodable(target, port)
  {
    [5, 1, 0] + EncodedTarget(target) + PortBytes(port)
  }

  // ---------------------------------------------------------------------------
  // The client.

  datatype ClientOutcome =
    | Connected | MethodRejected | CredentialsTooLong | AuthRejected | Unencodable | BadReply | Denied | BadAddress | HungUp

  /** A finished run over a complete input: its outcome, what it sent and how much it consumed. */
  datatype Exchange<O> = Exchange(outcome: O, sent: seq<Byte>, consumed: nat)

  /** The run that first sends and consumes something and then goes on with another run. */
  function After<O>(sent: seq<Byte>, consumed: nat, e: Exchange<O>): Exchange<O> {
    Exchange(e.outcome, sent + e.sent, consumed + e.consumed)
  }

  /** What a method that ran e did to its stream: outcome, bytes written, bytes taken. */
  ghost predicate Follows<O>(e: Exchange<O>, outcome: O, pending: seq<Byte>, written: seq<Byte>,
                             pendingNow: seq<Byte>, writtenNow: seq<Byte>)
  {
    && outcome == e.outcome
    && writtenNow == written + e.sent
    && e.consumed <= |pending| && pendingNow == pending[e.consumed..]
  }

  lemma FollowsAfter<O>(e: Exchange<O>, outcome: O, sent: seq<Byte>, n: nat, pending: seq<Byte>, written: seq<Byte>,
                        pendingNow: seq<Byte>, writtenNow: seq<Byte>)
    requires n <= |pending| && Follows(e, outcome, pending[n..], written + sent, pendingNow, writtenNow)
    ensures Follows(After(sent, n, e), outcome, pending, written, pendingNow, writtenNow)
  {
    assert (written + sent) + e.sent == written + (sent + e.sent);
    assert pending[n..][e.consumed..] == pending[n + e.consumed..];
  }

  /** The bound address of a reply: its length byte for a name, the address, and two port bytes. */
  function ClientTail(kind: Byte, input: seq<Byte>): Exchange<ClientOutcome> {
    if kind == 3 then
      if |input| < 1 then Exchange(HungUp, [], |input|)
      else if input[0] == 0 then Exchange(BadAddress, [], 1)
      else After([], 1, ClientRest(input[0], input[1..]))
    else
      ClientRest(if kind == 1 then 4 else 16, input)
  }

  function ClientRest(length: int, input: seq<Byte>): Exchange<ClientOutcome>
    requires length >= 0
  {
    if |input| < length + 2 then Exchange(HungUp, [], |input|) else Exchange(Connected, [], length + 2)
  }

  function ClientReply(input: seq<Byte>): Exchange<ClientOutcome> {
    if |input| < 4 then Exchange(HungUp, [], |input|)
    else if input[0] != 5 || input[2] != 0 || (input[3] != 1 && input[3] != 3 && input[3] != 4)
    then Exchange(BadReply, [], 4)
    else if input[1] != 0 then Exchange(Denied, [], 4)
    else After([], 4, ClientTail(input[3], input[4..]))
  }

  function ClientRequest(target: Target, port: int, input: seq<Byte>): Exchange<ClientOutcome> {
    if !Encodable(target, port) then Exchange(Unencodable, [], 0)
    else After(Request(target, port), 0, ClientReply(input))
  }

  function ClientLogin(login: Login, target: Target, port: int, input: seq<Byte>): Exchange<ClientOutcome> {
    if login.username == [] then ClientRequest(target, port, input)
    else if !Fits(login) then Exchange(CredentialsTooLong, [], 0)
    else if |input| < 2 then Exchange(HungUp, AuthRequest(login), |input|)
    else if input[..2] != [1, 0] then Exchange(AuthRejected, AuthRequest(login), 2)
    else After(AuthRequest(login), 2, ClientRequest(target, port, input[2..]))
  }

  function ClientExchange(login: Login, target: Target, port: int, input: seq<Byte>): Exchange<ClientOutcome> {
    if |input| < 2 then Exchange(HungUp, Greeting(login.username), |input|)
    else if input[..2] != [5, Method(login.username)] then Exchange(MethodRejected, Greeting(login.username), 2)
    else After(Greeting(login.username), 2, ClientLogin(login, target, port, input[2..]))
  }

  /** _socks5. */
  method Connect(stream: Stream<Byte>, login: Login, target: Target, port: int) returns (outcome: ClientOutcome, timedOut: bool)
    modifies stream
    ensures old(stream.written) <= stream.written
    ensures !timedOut ==>
              Follows(ClientExchange(login, target, port, old(stream.pending)), outcome,
                      old(stream.pending), old(stream.written), stream.pending, stream.written)
  {
    hide ClientLogin;
    outcome := HungUp;
    var ok := stream.Send([5, 1, Method(login.username)]);
    if !ok {
      return HungUp, true;
    }
    var greeting := ReceiveExact(stream, 2);
    if !greeting.Got? {
      return HungUp, greeting.TimedOut?;
    }
    if greeting.data != [5, Method(login.username)] {
      return MethodRejected, false;
    }
    outcome, timedOut := ConnectLogin(stream, login, target, port);
  }

  method ConnectLogin(stream: Stream<Byte>, login: Login, target: Target, port: int)
    returns (outcome: ClientOutcome, timedOut: bool)
    modifies stream
    ensures old(stream.written) <= stream.written
    ensures !timedOut ==>
              Follows(ClientLogin(login, target, port, old(stream.pending)), outcome,
                      old(stream.pending), old(stream.written), stream.pending, stream.written)
  {
    hide ClientRequest;
    if login.username != [] {
      if |login.username| > 255 || |login.password| > 255 {
        return CredentialsTooLong, false;
      }
      var ok := stream.Send([1, |login.username|] + login.username + [|login.password|] + login.password);
      if !ok {
        return HungUp, true;
      }
      var answer := ReceiveExact(stream, 2);
      if !answer.Got? {
        return HungUp, answer.TimedOut?;
      }
      if answer.data != [1, 0] {
        return AuthRejected, false;
      }
    }
    outcome, timedOut := ConnectRequest(stream, target, port);
  }

  method ConnectRequest(stream: Stream<Byte>, target: Target, port: int) returns (outcome: ClientOutcome, timedOut: bool)
    modifies stream
    ensures old(stream.written) <= stream.written
    ensures !timedOut ==>
              Follows(ClientRequest(target, port, old(stream.pending)), outcome,
                      old(stream.pending), old(stream.written), stream.pending, stream.written)
  {
    hide ClientReply;
    if !Encodable(target, port) {
      return Unencodable, false;
    }
    var ok := stream.Send([5, 1, 0] + EncodedTarget(target) + PortBytes(port));
    if !ok {
      return HungUp, true;
    }
    outcome, timedOut := ConnectReply(stream);
  }

  method ConnectReply(stream: Stream<Byte>) returns (outcome: ClientOutcome, timedOut: bool)
    modifies stream`pending
    ensures !timedOut ==>
              Follows(ClientReply(old(stream.pending)), outcome,
                      old(stream.pending), stream.written, stream.pending, stream.written)
  {
    hide ClientTail;
    var reply := ReceiveExact(stream, 4);
    if !reply.Got? {
      return HungUp, reply.TimedOut?;
    }
    if reply.data[0] != 5 || reply.data[2] != 0 || !(reply.data[3] == 1 || reply.data[3] == 3 || reply.data[3] == 4) {
      return BadReply, false;
    }
    if reply.data[1] != 0 {
      return Denied, false;
    }
    outcome, timedOut := ConnectTail(stream, reply.data[3]);
  }

  method ConnectTail(stream: Stream<Byte>, kind: Byte) returns (outcome: ClientOutcome, timedOut: bool)
    modifies stream`pending
    ensures !timedOut ==>
              Follows(ClientTail(kind, old(stream.pending)), outcome,
                      old(stream.pending), stream.written, stream.pending, stream.written)
  {
    var length: int := if kind == 1 then 4 else 16;
    if kind == 3 {
      var size := ReceiveExact(stream, 1);
      if !size.Got? {
        return HungUp, size.TimedOut?;
      }
      length := size.data[0];
      if length == 0 {
        return BadAddress, false;
      }
    }
    var rest := ReceiveExact(stream, length + 2);
    if !rest.Got? {
      return HungUp, rest.TimedOut?;
    }
    return Connected, false;
  }

  // ---------------------------------------------------------------------------
  // Any server's success replies.

  /** A bound address as section 6 of RFC 1928 allows it. */
  datatype Bound = Bound4(address: seq<Byte>) | Bound6(address: seq<Byte>) | BoundName(name: seq<Byte>)

  predicate ProperBound(b: Bound) {
    match b
    case Bound4(a) => |a| == 4
    case Bound6(a) => |a| == 16
    case BoundName(name) => 1 <= |name| <= 255
  }

  function SuccessReply(b: Bound, port: seq<Byte>): seq<Byte>
    requires ProperBound(b)
  {
    match b
    case Bound4(a) => [5, 0, 0, 1] + a + port
    case Bound6(a) => [5, 0, 0, 4] + a + port
    case BoundName(name) => [5, 0, 0, 3, |name|] + name + port
  }

  /** Everything a server says before the first tunnelled byte of an accepted connection. */
  function AcceptedReplies(username: seq<Byte>, b: Bound, port: seq<Byte>): seq<Byte>
    requires ProperBound(b)
  {
    [5, if username != [] then 2 else 0] + (if username != [] then [1, 0] else []) + SuccessReply(b, port)
  }

  lemma ReplyAccepted(b: Bound, port: seq<Byte>, tail: seq<Byte>)
    requires ProperBound(b) && |port| == 2
    ensures ClientReply(SuccessReply(b, port) + tail) == Exchange(Connected, [], |SuccessReply(b, port)|)
  {
    var input := SuccessReply(b, port) + tail;
    assert input[0] == 5 && input[1] == 0 && input[2] == 0;
    if b.BoundName? {
      assert input[4..][0] == |b.name|;
    }
  }

  /** The bytes RFC 1928 and RFC 1929 have a client send for its credentials and its destination. */
  function SaidFor(login: Login, target: Target, port: int): seq<Byte>
    requires Encodable(target, port) && (login.username != [] ==> Fits(login))
  {
    (if login.username == [] then [5, 1, 0]
     else [5, 1, 2] + ([1, |login.username|] + login.username + [|login.password|] + login.password))
    + ((match target
        case V4(a) => [5, 1, 0, 1] + a
        case V6(a) => [5, 1, 0, 4] + a
        case Host(name) => [5, 1, 0, 3, |name|] + name)
       + [port / 256, port % 256])
  }

  lemma WireBytes(login: Login, target: Target, port: int)
    requires Encodable(target, port) && (login.username != [] ==> Fits(login))
    ensures SaidFor(login, target, port)
         == Greeting(login.username) + (if login.username != [] then AuthRequest(login) else []) + Request(target, port)
  {
    assert Request(target, port) == (match target
                                     case V4(a) => [5, 1, 0, 1] + a
                                     case V6(a) => [5, 1, 0, 4] + a
                                     case Host(name) => [5, 1, 0, 3, |name|] + name) + [port / 256, port % 256];
    hide Request;
  }

  /** The client connects on every well-formed success, consuming exactly the replies. */
  lemma EverySuccessConnects(login: Login, target: Target, port: int, b: Bound, boundPort: seq<Byte>, tail: seq<Byte>)
    requires Encodable(target, port) && (login.username != [] ==> Fits(login)) && ProperBound(b) && |boundPort| == 2
    ensures var replies := AcceptedReplies(login.username, b, boundPort);
            var e := ClientExchange(login, target, port, replies + tail);
            && e.outcome == Connected && e.consumed == |replies| && (replies + tail)[e.consumed..] == tail
            && e.sent == SaidFor(login, target, port)
  {
    WireBytes(login, target, port);
    RepliesConnect(login, target, port, b, boundPort, tail);
    hide *;
    var replies := AcceptedReplies(login.username, b, boundPort);
    assert (replies + tail)[|replies|..] == tail;
  }

  lemma RepliesConnect(login: Login, target: Target, port: int, b: Bound, boundPort: seq<Byte>, tail: seq<Byte>)
    requires Encodable(target, port) && (login.username != [] ==> Fits(login)) && ProperBound(b) && |boundPort| == 2
    ensures var replies := AcceptedReplies(login.username, b, boundPort);
            var e := ClientExchange(login, target, port, replies + tail);
            && e.outcome == Connected && e.consumed == |replies|
            && e.sent == Greeting(login.username) + (if login.username != [] then AuthRequest(login) else []) + Request(target, port)
  {
    hide ClientReply, SuccessReply, Request, AuthRequest, Greeting, ProperBound, Encodable, Fits;
    var success := SuccessReply(b, boundPort);
    ReplyAccepted(b, boundPort, tail);
    var input := AcceptedReplies(login.username, b, boundPort) + tail;
    if login.username == [] {
      assert input == [5, 0] + (success + tail);
      assert input[2..] == success + tail;
    } else {
      assert input == [5, 2] + ([1, 0] + (success + tail));
      assert input[2..] == [1, 0] + (success + tail);
      assert input[2..][2..] == success + tail;
    }
  }

  /** Only such replies connect it. */
  lemma ReplyShape(input: seq<Byte>) returns (b: Bound, port: seq<Byte>, tail: seq<Byte>)
    requires ClientReply(input).outcome.Connected?
    ensures ProperBound(b) && |port| == 2 && input == SuccessReply(b, port) + tail
  {
    hide SuccessReply;
    var rest := input[4..];
    assert input == input[..4] + rest;
    assert input[..4] == [5, 0, 0, input[3]];
    if input[3] == 3 {
      var n := rest[0];
      b, port, tail := BoundName(rest[1..1 + n]), rest[1 + n..3 + n], rest[3 + n..];
      assert rest == [rest[0]] + b.name + port + tail;
    } else {
      var n := if input[3] == 1 then 4 else 16;
      port, tail := rest[n..n + 2], rest[n + 2..];
      b := if input[3] == 1 then Bound4(rest[..n]) else Bound6(rest[..n]);
      assert rest == rest[..n] + port + tail;
    }
    SuccessBytes(b, port, tail);
  }

  lemma SuccessBytes(b: Bound, port: seq<Byte>, tail: seq<Byte>)
    requires ProperBound(b)
    ensures SuccessReply(b, port) + tail
         == match b
            case Bound4(a) => [5, 0, 0, 1] + (a + port + tail)
            case Bound6(a) => [5, 0, 0, 4] + (a + port + tail)
            case BoundName(name) => [5, 0, 0, 3] + ([|name|] + name + port + tail)
  {
    match b
    case Bound4(a) => assert ([5, 0, 0, 1] + a + port) + tail == [5, 0, 0, 1] + (a + port + tail);
    case Bound6(a) => assert ([5, 0, 0, 4] + a + port) + tail == [5, 0, 0, 4] + (a + port + tail);
    case BoundName(name) =>
      assert ([5, 0, 0, 3, |name|] + name + port) + tail == [5, 0, 0, 3] + ([|name|] + name + port + tail);
  }

  lemma OnlySuccessConnects(login: Login, target: Target, port: int, input: seq<Byte>)
    returns (b: Bound, boundPort: seq<Byte>, tail: seq<Byte>)
    requires ClientExchange(login, target, port, input).outcome.Connected?
    ensures Encodable(target, port) && (login.username != [] ==> Fits(login))
    ensures ProperBound(b) && |boundPort| == 2 && input == AcceptedReplies(login.username, b, boundPort) + tail
  {
    hide ClientReply, SuccessReply;
    var rest := input[2..];
    assert input == input[..2] + rest;
    if login.username == [] {
      b, boundPort, tail := ReplyShape(rest);
    } else {
      assert rest == rest[..2] + rest[2..];
      b, boundPort, tail := ReplyShape(rest[2..]);
    }
  }
}
