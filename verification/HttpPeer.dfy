/** The loopback HTTP CONNECT proxy, and what a client and this proxy agree on. */
module HttpPeer {
  import opened Wrappers
  import opened Bytes
  import opened Streams
  import opened Texts
  import opened HttpConnect

  /** A peer's settings; reachable tells which loopback destinations accept a connection. */
  datatype Peer = Peer(login: Credentials, deny: bool, malformed: bool, reachable: (string, int) -> bool)

  datatype PeerOutcome =
    | Relaying(host: string, port: int)
    | BadText | BadRequest | BadHeaders | LoginRefused | Malformed | Refused | Unreachable | Oversized | PeerHungUp

  // ---------------------------------------------------------------------------
  // The request line: CONNECT (\[[0-9a-fA-F:]+\]|[A-Za-z0-9.-]+):([0-9]+) HTTP/1.1, where the last dot matches
  // anything but a line feed.

  predicate HexColon(c: char) {
    '0' <= c <= '9' || 'a' <= c <= 'f' || 'A' <= c <= 'F' || c == ':'
  }

  predicate NameChar(c: char) {
    'a' <= c <= 'z' || 'A' <= c <= 'Z' || '0' <= c <= '9' || c == '.' || c == '-'
  }

  predicate Bracketed(text: string) {
    && |text| >= 3 && text[0] == '[' && text[|text| - 1] == ']'
    && forall i | 0 < i < |text| - 1 :: HexColon(text[i])
  }

  predicate Named(text: string) {
    text != "" && forall i | 0 <= i < |text| :: NameChar(text[i])
  }

  /** strip("[]"). */
  function StripBrackets(text: string): string
    decreases |text|
  {
    if text == "" then ""
    else if text[0] == '[' || text[0] == ']' then StripBrackets(text[1..])
    else if text[|text| - 1] == '[' || text[|text| - 1] == ']' then StripBrackets(text[..|text| - 1])
    else text
  }

  predicate Framed(line: string) {
    && |line| >= 17 && line[..8] == "CONNECT "
    && line[|line| - 9..|line| - 2] == " HTTP/1" && line[|line| - 2] != '\n' && line[|line| - 1] == '1'
  }

  /** The host group, the text after its colon: both groups of the match. */
  function Groups(line: string): Option<(string, string)> {
    if !Framed(line) then None
    else
      var middle := line[8..|line| - 9];
      var colon := LastIndex(middle, ':');
      if colon.None? then None
      else
        var host, port := middle[..colon.value], middle[colon.value + 1..];
        if (Bracketed(host) || Named(host)) && Digits(port) then Some((host, port)) else None
  }

  function Destination(line: string): (r: Option<(string, nat)>)
    ensures r.Some? <==> Groups(line).Some?
  {
    var g := Groups(line);
    if g.None? then None
    else Some((StripBrackets(g.value.0), PortOf(line)))
  }

  function PortOf(line: string): nat
    requires Groups(line).Some?
  {
    FromDecimal(Groups(line).value.1)
  }

  // ---------------------------------------------------------------------------
  // The headers: dict(line.split(": ", 1) for the nonempty lines).

  predicate SeparatorAt(line: string, i: int) {
    0 <= i && i + 2 <= |line| && line[i] == ':' && line[i + 1] == ' '
  }

  /** The first ": ". */
  function Separator(line: string, start: nat): (r: Option<nat>)
    requires start <= |line|
    requires forall k | 0 <= k < start :: !SeparatorAt(line, k)
    ensures r.Some? ==> SeparatorAt(line, r.value) && forall k | 0 <= k < r.value :: !SeparatorAt(line, k)
    ensures r.None? ==> forall k :: !SeparatorAt(line, k)
    decreases |line| - start
  {
    if start == |line| then None
    else if SeparatorAt(line, start) then Some(start)
    else Separator(line, start + 1)
  }

  /** Later lines overwrite earlier ones; a line without separator makes dict() fail. */
  function Headers(lines: seq<string>): Option<map<string, string>> {
    if lines == [] then Some(map[])
    else
      var earlier, line := Headers(lines[..|lines| - 1]), lines[|lines| - 1];
      if earlier.None? then None
      else if line == "" then earlier
      else
        var at := Separator(line, 0);
        if at.None? then None else Some(earlier.value[line[..at.value] := line[at.value + 2..]])
  }

  /** A line with this name before its first ": ". */
  predicate NamedLine(line: string, name: string) {
    |name| + 2 <= |line| && line[..|name|] == name && SeparatorAt(line, |name|) && forall k | 0 <= k < |name| :: !SeparatorAt(line, k)
  }

  lemma NamedBySeparator(line: string, name: string)
    ensures NamedLine(line, name) <==> Separator(line, 0).Some? && line[..Separator(line, 0).value] == name
    ensures line == "" ==> Separator(line, 0).None?
  {
    hide Separator;
    var at := Separator(line, 0);
    if NamedLine(line, name) {
      assert SeparatorAt(line, |name|);
    }
  }

  /**
   The dictionary exists exactly when every line but the empty ones has a separator; a name is in it exactly when some
   line has that name, with what the last such line says.
   */
  lemma {:induction false} HeadersExactly(lines: seq<string>, name: string)
    ensures Headers(lines).Some? <==> forall i | 0 <= i < |lines| && lines[i] != "" :: Separator(lines[i], 0).Some?
    ensures Headers(lines).Some? ==>
              && (name in Headers(lines).value <==> exists i | 0 <= i < |lines| :: NamedLine(lines[i], name))
              && forall i | 0 <= i < |lines| && NamedLine(lines[i], name)
                            && (forall j | i < j < |lines| :: !NamedLine(lines[j], name)) ::
                   name in Headers(lines).value && Headers(lines).value[name] == lines[i][|name| + 2..]
    decreases |lines|
  {
    hide Separator, NamedLine;
    if lines != [] {
      var n := |lines| - 1;
      HeadersExactly(lines[..n], name);
      NamedBySeparator(lines[n], name);
      assert forall i | 0 <= i < n :: lines[..n][i] == lines[i];
    }
  }

  // ---------------------------------------------------------------------------
  // The exchange.

  const AUTH_HEADER := "Proxy-Authorization"

  function StatusLine(code: string, reason: string): string {
    "HTTP/1.1 " + code + " " + reason
  }

  /** The status line of an answer; three outcomes close the connection without one. */
  function AnswerLine(outcome: PeerOutcome): string {
    match outcome
    case BadRequest => StatusLine("400", "Bad Request")
    case LoginRefused => StatusLine("407", "Proxy Authentication Required")
    case Malformed => "HTTP/1.1 200junk"
    case Refused => StatusLine("403", "Forbidden")
    case Unreachable => StatusLine("502", "Bad Gateway")
    case Relaying(_, _) => StatusLine("200", "Connection Established")
    case _ => ""
  }

  function Answer(outcome: PeerOutcome): string {
    var line := AnswerLine(outcome);
    if line == "" then "" else line + BLANK
  }

  predicate Authorized(peer: Peer, headers: map<string, string>) {
    peer.login.username == [] || (AUTH_HEADER in headers && headers[AUTH_HEADER] == BasicValue(peer.login))
  }

  /** What the peer makes of a complete request head. */
  function Decided(peer: Peer, request: string): PeerOutcome {
    if !Ascii(request) then BadText
    else
      var lines := Split(request);
      var destination, headers := Destination(lines[0]), Headers(lines[1..]);
      if destination.None? then BadRequest
      else if headers.None? then BadHeaders
      else if !Authorized(peer, headers.value) then LoginRefused
      else if peer.malformed then Malformed
      else if peer.deny then Refused
      else if !peer.reachable(destination.value.0, destination.value.1) then Unreachable
      else Relaying(destination.value.0, destination.value.1)
  }

  function PeerExchange(peer: Peer, input: string): (e: Exchange<PeerOutcome>)
    ensures e.consumed <= |input|
  {
    match Until(input, BLANK, LIMIT)
    case Got(request) => Exchange(Decided(peer, request), Answer(Decided(peer, request)), |request|)
    case TooLong => Exchange(Oversized, "", LIMIT)
    case _ => Exchange(PeerHungUp, "", |input|)
  }

  /** HttpConnectPeer.handle up to relay. */
  method Handle(stream: Stream<char>, peer: Peer) returns (outcome: PeerOutcome, timedOut: bool)
    modifies stream
    ensures old(stream.written) <= stream.written
    ensures !timedOut ==>
              var e := PeerExchange(peer, old(stream.pending));
              && outcome == e.outcome
              && stream.written == old(stream.written) + e.sent
              && stream.pending == old(stream.pending)[e.consumed..]
  {
    hide Destination, Authorized, Ascii, Until, Block, Headers, Answer;
    var request := ReceiveUntil(stream, BLANK, LIMIT);
    if !request.Got? {
      NothingSaid();
      return if request.TooLong? then Oversized else PeerHungUp, request.TimedOut?;
    }
    outcome := Decide(request.data, peer);
    var ok := stream.Send(Answer(outcome));
    timedOut := !ok;
  }

  lemma NothingSaid()
    ensures Answer(BadText) == Answer(BadHeaders) == ""
  {
  }

  /** The chain of refusals. */
  method Decide(request: string, peer: Peer) returns (outcome: PeerOutcome)
    ensures outcome == Decided(peer, request)
  {
    hide Destination, Headers, Ascii, Split;
    if !Ascii(request) {
      return BadText;
    }
    var lines := Split(request);
    var destination := Destination(lines[0]);
    if destination.None? {
      return BadRequest;
    }
    var headers := ReadHeaders(lines[1..]);
    if headers.None? {
      return BadHeaders;
    }
    if peer.login.username != [] {
      if !(AUTH_HEADER in headers.value && headers.value[AUTH_HEADER] == BasicValue(peer.login)) {
        return LoginRefused;
      }
    }
    if peer.malformed {
      return Malformed;
    }
    if peer.deny {
      return Refused;
    }
    var (host, port) := destination.value;
    if !peer.reachable(host, port) {
      return Unreachable;
    }
    return Relaying(host, port);
  }

  method ReadHeaders(lines: seq<string>) returns (headers: Option<map<string, string>>)
    ensures headers == Headers(lines)
  {
    var read: map<string, string> := map[];
    var i := 0;
    while i < |lines|
      invariant 0 <= i <= |lines|
      invariant Headers(lines[..i]) == Some(read)
    {
      var line := lines[i];
      assert lines[..i + 1][..i] == lines[..i];
      if line != "" {
        var at := Separator(line, 0);
        if at.None? {
          HeadersFail(lines, i + 1);
          return None;
        }
        read := read[line[..at.value] := line[at.value + 2..]];
      }
      i := i + 1;
    }
    assert lines[..i] == lines;
    return Some(read);
  }

  lemma {:induction false} HeadersFail(lines: seq<string>, n: nat)
    requires n <= |lines| && Headers(lines[..n]).None?
    ensures Headers(lines).None?
    decreases |lines|
  {
    if n == |lines| {
      assert lines[..n] == lines;
    } else {
      assert lines[..|lines| - 1][..n] == lines[..n];
      HeadersFail(lines[..|lines| - 1], n);
    }
  }
}
