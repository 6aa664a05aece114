/** The loopback SOCKS5 server, and what a client and this server agree on. */
module Socks5Peer {
  import opened Bytes
  import opened Streams
  import opened Socks5

  /** A peer's settings; utf8 tells valid encodings, reachable which loopback destinations accept a connection. */
  datatype Peer = Peer(login: Login, deny: bool, malformed: bool, utf8: seq<Byte> -> bool, reachable: (Target, int) -> bool)

  datatype PeerOutcome =
    | Relaying(target: Target, port: int)
    | NoMethod | BadText | LoginRefused | BadKind | Malformed | Refused | Unreachable | PeerHungUp

  /** A reply naming the address 0.0.0.0 and port 0. */
  function Answer(version: Byte, code: Byte): seq<Byte> {
    [version, code, 0, 1, 0, 0, 0, 0, 0, 0]
  }

  function PeerDecision(peer: Peer, head: seq<Byte>, target: Target, port: int, consumed: nat): Exchange<PeerOutcome>
    requires |head| == 3
  {
    if peer.malformed then Exchange(Malformed, Answer(4, 0), consumed)
    else if peer.deny || head != [5, 1, 0] then Exchange(Refused, Answer(5, 2), consumed)
    else if !peer.reachable(target, port) then Exchange(Unreachable, Answer(5, 4), consumed)
    else Exchange(Relaying(target, port), Answer(5, 0), consumed)
  }

  /** The two port bytes and the decision. */
  function PeerPort(peer: Peer, head: seq<Byte>, target: Target, input: seq<Byte>): Exchange<PeerOutcome>
    requires |head| == 3
  {
    if |input| < 2 then Exchange(PeerHungUp, [], |input|)
    else
      var high: int := input[0];
      PeerDecision(peer, head, target, 256 * high + input[1], 2)
  }

  function PeerName(peer: Peer, head: seq<Byte>, size: nat, input: seq<Byte>): Exchange<PeerOutcome>
    requires |head| == 3
  {
    if |input| < size then Exchange(PeerHungUp, [], |input|)
    else if !IsAscii(input[..size]) then Exchange(BadText, [], size)
    else After([], size, PeerPort(peer, head, Host(input[..size]), input[size..]))
  }

  function PeerTarget(peer: Peer, head: seq<Byte>, kind: Byte, input: seq<Byte>): Exchange<PeerOutcome>
    requires |head| == 3
  {
    if kind == 1 then
      if |input| < 4 then Exchange(PeerHungUp, [], |input|) else After([], 4, PeerPort(peer, head, V4(input[..4]), input[4..]))
    else if kind == 4 then
      if |input| < 16 then Exchange(PeerHungUp, [], |input|) else After([], 16, PeerPort(peer, head, V6(input[..16]), input[16..]))
    else if kind == 3 then
      if |input| < 1 then Exchange(PeerHungUp, [], |input|) else After([], 1, PeerName(peer, head, input[0], input[1..]))
    else Exchange(BadKind, [], 0)
  }

  function PeerRequest(peer: Peer, input: seq<Byte>): Exchange<PeerOutcome> {
    if |input| < 4 then Exchange(PeerHungUp, [], |input|)
    else After([], 4, PeerTarget(peer, input[..3], input[3], input[4..]))
  }

  /** The password and the verdict on the credentials. */
  function PeerPassword(peer: Peer, version: Byte, username: seq<Byte>, size: nat, input: seq<Byte>): Exchange<PeerOutcome> {
    if |input| < size then Exchange(PeerHungUp, [], |input|)
    else if !peer.utf8(input[..size]) then Exchange(BadText, [], size)
    else if version != 1 || username != peer.login.username || input[..size] != peer.login.password
    then Exchange(LoginRefused, [1, 1], size)
    else After([1, 0], size, PeerRequest(peer, input[size..]))
  }

  function PeerPasswordSize(peer: Peer, version: Byte, username: seq<Byte>, input: seq<Byte>): Exchange<PeerOutcome> {
    if |input| < 1 then Exchange(PeerHungUp, [], |input|)
    else After([], 1, PeerPassword(peer, version, username, input[0], input[1..]))
  }

  function PeerUsername(peer: Peer, version: Byte, size: nat, input: seq<Byte>): Exchange<PeerOutcome> {
    if |input| < size then Exchange(PeerHungUp, [], |input|)
    else if !peer.utf8(input[..size]) then Exchange(BadText, [], size)
    else After([], size, PeerPasswordSize(peer, version, input[..size], input[size..]))
  }

  function PeerLogin(peer: Peer, input: seq<Byte>): Exchange<PeerOutcome> {
    if peer.login.username == [] then PeerRequest(peer, input)
    else if |input| < 2 then Exchange(PeerHungUp, [], |input|)
    else After([], 2, PeerUsername(peer, input[0], input[1], input[2..]))
  }

  function PeerMethods(peer: Peer, version: Byte, count: nat, input: seq<Byte>): Exchange<PeerOutcome> {
    var m := Method(peer.login.username);
    if |input| < count then Exchange(PeerHungUp, [], |input|)
    else if version != 5 || m !in input[..count] then Exchange(NoMethod, [5, 255], count)
    else After([5, m], count, PeerLogin(peer, input[count..]))
  }

  function PeerExchange(peer: Peer, input: seq<Byte>): Exchange<PeerOutcome> {
    if |input| < 2 then Exchange(PeerHungUp, [], |input|)
    else After([], 2, PeerMethods(peer, input[0], input[1], input[2..]))
  }

  // ---------------------------------------------------------------------------
  // The handler, one message part at a time.

  /** Socks5Peer.handle up to relay. */
  method Handle(stream: Stream<Byte>, peer: Peer)
    returns (outcome: PeerOutcome, timedOut: bool)
    modifies stream
    ensures old(stream.written) <= stream.written
    ensures !timedOut ==>
              Follows(PeerExchange(peer, old(stream.pending)), outcome,
                      old(stream.pending), old(stream.written), stream.pending, stream.written)
  {
    hide PeerMethods;
    var greeting := ReceiveExact(stream, 2);
    if !greeting.Got? {
      return PeerHungUp, greeting.TimedOut?;
    }
    outcome, timedOut := HandleMethods(stream, peer, greeting.data[0], greeting.data[1]);
    if !timedOut {
      FollowsAfter(PeerMethods(peer, greeting.data[0], greeting.data[1], old(stream.pending)[2..]), outcome,
                   [], 2, old(stream.pending), old(stream.written), stream.pending, stream.written);
    }
  }

  method HandleMethods(stream: Stream<Byte>, peer: Peer, version: Byte, count: nat)
    returns (outcome: PeerOutcome, timedOut: bool)
    modifies stream
    ensures old(stream.written) <= stream.written
    ensures !timedOut ==>
              Follows(PeerMethods(peer, version, count, old(stream.pending)), outcome,
                      old(stream.pending), old(stream.written), stream.pending, stream.written)
  {
    hide PeerLogin;
    var methods := ReceiveExact(stream, count);
    if !methods.Got? {
      return PeerHungUp, methods.TimedOut?;
    }
    var m := if peer.login.username != [] then 2 else 0;
    if version != 5 || m !in methods.data {
      var ok := stream.Send([5, 255]);
      return NoMethod, !ok;
    }
    var ok := stream.Send([5, m]);
    if !ok {
      return PeerHungUp, true;
    }
    outcome, timedOut := HandleLogin(stream, peer);
    if !timedOut {
      FollowsAfter(PeerLogin(peer, old(stream.pending)[count..]), outcome,
                   [5, m], count, old(stream.pending), old(stream.written), stream.pending, stream.written);
    }
  }

  method HandleLogin(stream: Stream<Byte>, peer: Peer)
    returns (outcome: PeerOutcome, timedOut: bool)
    modifies stream
    ensures old(stream.written) <= stream.written
    ensures !timedOut ==>
              Follows(PeerLogin(peer, old(stream.pending)), outcome,
                      old(stream.pending), old(stream.written), stream.pending, stream.written)
  {
    hide PeerRequest, PeerUsername;
    if peer.login.username == [] {
      outcome, timedOut := HandleRequest(stream, peer);
      return;
    }
    var head := ReceiveExact(stream, 2);
    if !head.Got? {
      return PeerHungUp, head.TimedOut?;
    }
    outcome, timedOut := HandleUsername(stream, peer, head.data[0], head.data[1]);
    if !timedOut {
      FollowsAfter(PeerUsername(peer, head.data[0], head.data[1], old(stream.pending)[2..]), outcome,
                   [], 2, old(stream.pending), old(stream.written), stream.pending, stream.written);
    }
  }

  method HandleUsername(stream: Stream<Byte>, peer: Peer, version: Byte, size: nat)
    returns (outcome: PeerOutcome, timedOut: bool)
    modifies stream
    ensures old(stream.written) <= stream.written
    ensures !timedOut ==>
              Follows(PeerUsername(peer, version, size, old(stream.pending)), outcome,
                      old(stream.pending), old(stream.written), stream.pending, stream.written)
  {
    hide PeerPasswordSize;
    var username := ReceiveExact(stream, size);
    if !username.Got? {
      return PeerHungUp, username.TimedOut?;
    }
    if !peer.utf8(username.data) {
      return BadText, false;
    }
    outcome, timedOut := HandlePasswordSize(stream, peer, version, username.data);
    if !timedOut {
      FollowsAfter(PeerPasswordSize(peer, version, username.data, old(stream.pending)[size..]), outcome,
                   [], size, old(stream.pending), old(stream.written), stream.pending, stream.written);
    }
  }

  method HandlePasswordSize(stream: Stream<Byte>, peer: Peer, version: Byte, username: seq<Byte>)
    returns (outcome: PeerOutcome, timedOut: bool)
    modifies stream
    ensures old(stream.written) <= stream.written
    ensures !timedOut ==>
              Follows(PeerPasswordSize(peer, version, username, old(stream.pending)), outcome,
                      old(stream.pending), old(stream.written), stream.pending, stream.written)
  {
    hide PeerPassword;
    var size := ReceiveExact(stream, 1);
    if !size.Got? {
      return PeerHungUp, size.TimedOut?;
    }
    outcome, timedOut := HandlePassword(stream, peer, version, username, size.data[0]);
    if !timedOut {
      FollowsAfter(PeerPassword(peer, version, username, size.data[0], old(stream.pending)[1..]), outcome,
                   [], 1, old(stream.pending), old(stream.written), stream.pending, stream.written);
    }
  }

  method HandlePassword(stream: Stream<Byte>, peer: Peer, version: Byte, username: seq<Byte>, size: nat)
    returns (outcome: PeerOutcome, timedOut: bool)
    modifies stream
    ensures old(stream.written) <= stream.written
    ensures !timedOut ==>
              Follows(PeerPassword(peer, version, username, size, old(stream.pending)), outcome,
                      old(stream.pending), old(stream.written), stream.pending, stream.written)
  {
    hide PeerRequest;
    var password := ReceiveExact(stream, size);
    if !password.Got? {
      return PeerHungUp, password.TimedOut?;
    }
    if !peer.utf8(password.data) {
      return BadText, false;
    }
    if version != 1 || username != peer.login.username || password.data != peer.login.password {
      var ok := stream.Send([1, 1]);
      return LoginRefused, !ok;
    }
    var ok := stream.Send([1, 0]);
    if !ok {
      return PeerHungUp, true;
    }
    outcome, timedOut := HandleRequest(stream, peer);
    if !timedOut {
      FollowsAfter(PeerRequest(peer, old(stream.pending)[size..]), outcome,
                   [1, 0], size, old(stream.pending), old(stream.written), stream.pending, stream.written);
    }
  }

  method HandleRequest(stream: Stream<Byte>, peer: Peer)
    returns (outcome: PeerOutcome, timedOut: bool)
    modifies stream
    ensures old(stream.written) <= stream.written
    ensures !timedOut ==>
              Follows(PeerRequest(peer, old(stream.pending)), outcome,
                      old(stream.pending), old(stream.written), stream.pending, stream.written)
  {
    hide PeerTarget;
    var head := ReceiveExact(stream, 4);
    if !head.Got? {
      return PeerHungUp, head.TimedOut?;
    }
    assert head.data[..3] == old(stream.pending)[..3];
    outcome, timedOut := HandleTarget(stream, peer, head.data[..3], head.data[3]);
    if !timedOut {
      FollowsAfter(PeerTarget(peer, head.data[..3], head.data[3], old(stream.pending)[4..]), outcome,
                   [], 4, old(stream.pending), old(stream.written), stream.pending, stream.written);
    }
  }

  method HandleTarget(stream: Stream<Byte>, peer: Peer, head: seq<Byte>, kind: Byte)
    returns (outcome: PeerOutcome, timedOut: bool)
    requires |head| == 3
    modifies stream
    ensures old(stream.written) <= stream.written
    ensures !timedOut ==>
              Follows(PeerTarget(peer, head, kind, old(stream.pending)), outcome,
                      old(stream.pending), old(stream.written), stream.pending, stream.written)
  {
    hide PeerPort, PeerName;
    if kind == 1 {
      var address := ReceiveExact(stream, 4);
      if !address.Got? {
        return PeerHungUp, address.TimedOut?;
      }
      outcome, timedOut := HandlePort(stream, peer, head, V4(address.data));
      if !timedOut {
        FollowsAfter(PeerPort(peer, head, V4(address.data), old(stream.pending)[4..]), outcome,
                     [], 4, old(stream.pending), old(stream.written), stream.pending, stream.written);
      }
    } else if kind == 4 {
      var address := ReceiveExact(stream, 16);
      if !address.Got? {
        return PeerHungUp, address.TimedOut?;
      }
      outcome, timedOut := HandlePort(stream, peer, head, V6(address.data));
      if !timedOut {
        FollowsAfter(PeerPort(peer, head, V6(address.data), old(stream.pending)[16..]), outcome,
                     [], 16, old(stream.pending), old(stream.written), stream.pending, stream.written);
      }
    } else if kind == 3 {
      var size := ReceiveExact(stream, 1);
      if !size.Got? {
        return PeerHungUp, size.TimedOut?;
      }
      outcome, timedOut := HandleName(stream, peer, head, size.data[0]);
      if !timedOut {
        FollowsAfter(PeerName(peer, head, size.data[0], old(stream.pending)[1..]), outcome,
                     [], 1, old(stream.pending), old(stream.written), stream.pending, stream.written);
      }
    } else {
      return BadKind, false;
    }
  }

  method HandleName(stream: Stream<Byte>, peer: Peer, head: seq<Byte>, size: nat)
    returns (outcome: PeerOutcome, timedOut: bool)
    requires |head| == 3
    modifies stream
    ensures old(stream.written) <= stream.written
    ensures !timedOut ==>
              Follows(PeerName(peer, head, size, old(stream.pending)), outcome,
                      old(stream.pending), old(stream.written), stream.pending, stream.written)
  {
    hide PeerPort, IsAscii;
    var name := ReceiveExact(stream, size);
    if !name.Got? {
      return PeerHungUp, name.TimedOut?;
    }
    if !IsAscii(name.data) {
      return BadText, false;
    }
    outcome, timedOut := HandlePort(stream, peer, head, Host(name.data));
    if !timedOut {
      FollowsAfter(PeerPort(peer, head, Host(name.data), old(stream.pending)[size..]), outcome,
                   [], size, old(stream.pending), old(stream.written), stream.pending, stream.written);
    }
  }

  method HandlePort(stream: Stream<Byte>, peer: Peer, head: seq<Byte>, target: Target)
    returns (outcome: PeerOutcome, timedOut: bool)
    requires |head| == 3
    modifies stream
    ensures old(stream.written) <= stream.written
    ensures !timedOut ==>
              Follows(PeerPort(peer, head, target, old(stream.pending)), outcome,
                      old(stream.pending), old(stream.written), stream.pending, stream.written)
  {
    hide IsAscii;
    var bytes := ReceiveExact(stream, 2);
    if !bytes.Got? {
      return PeerHungUp, bytes.TimedOut?;
    }
    var high: int := bytes.data[0];
    var port := 256 * high + bytes.data[1];
    if peer.malformed {
      var ok := stream.Send([4, 0, 0, 1] + [0, 0, 0, 0, 0, 0]);
      return Malformed, !ok;
    }
    if peer.deny || head != [5, 1, 0] {
      var ok := stream.Send([5, 2, 0, 1] + [0, 0, 0, 0, 0, 0]);
      return Refused, !ok;
    }
    if !peer.reachable(target, port) {
      var ok := stream.Send([5, 4, 0, 1] + [0, 0, 0, 0, 0, 0]);
      return Unreachable, !ok;
    }
    var ok := stream.Send([5, 0, 0, 1] + [0, 0, 0, 0, 0, 0]);
    return Relaying(target, port), !ok;
  }
}
