/** HTTP CONNECT (section 9.3.6 of RFC 9110) with Basic credentials (section 2 of RFC 7617): the client. */
module HttpConnect {
  import opened Wrappers
  import opened Bytes
  import opened Streams
  import opened Base64
  import opened Texts

  /** Encoded credentials; an empty user name means none. */
  datatype Credentials = Credentials(username: seq<Byte>, password: seq<Byte>)

  const LIMIT: nat := 8192

  // ---------------------------------------------------------------------------
  // The request.

  function UserPass(login: Credentials): seq<Byte> {
    login.username + [58] + login.password
  }

  function BasicValue(login: Credentials): string {
    "Basic " + Padded(Standard, UserPass(login))
  }

  function Authority(host: string, port: nat): string {
    (if ':' in host then "[" + host + "]" else host) + ":" + Decimal(port)
  }

  /** The lines of the request head, in the order they are sent. */
  function RequestLines(login: Credentials, host: string, port: nat): seq<string> {
    ["CONNECT " + Authority(host, port) + " HTTP/1.1", "Host: " + Authority(host, port)]
    + (if login.username != [] then ["Proxy-Authorization: " + BasicValue(login)] else [])
  }

  function Request(login: Credentials, host: string, port: nat): string {
    Block(RequestLines(login, host, port))
  }

  /** Basic credentials are ambiguous only about a colon in the user name, which profile validation excludes. */
  lemma BasicInjective(a: Credentials, b: Credentials)
    requires 58 !in a.username && 58 !in b.username
    requires BasicValue(a) == BasicValue(b)
    ensures a == b
  {
    assert Padded(Standard, UserPass(a)) == BasicValue(a)[6..];
    assert Padded(Standard, UserPass(b)) == BasicValue(b)[6..];
    PaddedInjective(Standard, UserPass(a), UserPass(b));
    ColonEnds(a, b);
    ColonEnds(b, a);
    assert a.password == UserPass(a)[|a.username| + 1..];
    assert b.password == UserPass(b)[|b.username| + 1..];
    assert a.username == UserPass(a)[..|a.username|];
    assert b.username == UserPass(b)[..|b.username|];
  }

  lemma ColonEnds(a: Credentials, b: Credentials)
    requires 58 !in b.username && UserPass(a) == UserPass(b)
    ensures |a.username| >= |b.username|
  {
    assert UserPass(a)[|a.username|] == 58;
    assert forall i | 0 <= i < |b.username| :: UserPass(b)[i] == b.username[i];
  }

  /** With colons it is not: two different logins share one value. */
  lemma BasicAmbiguousWithColon()
    ensures var a, b := Credentials([58], []), Credentials([], [58]);
            a != b && BasicValue(a) == BasicValue(b)
  {
    assert UserPass(Credentials([58], [])) == [58, 58] == UserPass(Credentials([], [58]));
  }

  // ---------------------------------------------------------------------------
  // The response.

  predicate Printable(c: char) {
    ' ' <= c <= '~'
  }

  predicate TokenChar(c: char) {
    'a' <= c <= 'z' || 'A' <= c <= 'Z' || '0' <= c <= '9' || c in "!#$%&'*+.^_`|~-"
  }

  /** HTTP/1\.[01] ([0-9]{3})(?: [\x20-\x7e]*)? over a whole line. */
  function StatusCode(line: string): Option<nat> {
    if && |line| >= 12 && line[..7] == "HTTP/1." && (line[7] == '0' || line[7] == '1') && line[8] == ' '
       && Digits(line[9..12])
       && (|line| == 12 || (line[12] == ' ' && forall i | 13 <= i < |line| :: Printable(line[i])))
    then Some(FromDecimal(line[9..12]))
    else None
  }

  /** A token, a colon, and printable text: [!#$%&'*+.^_`|~0-9A-Za-z-]+: ?[\x20-\x7e\t]* over a whole line. */
  predicate HeaderLine(line: string) {
    exists colon | 0 < colon < |line| :: ColonAt(line, colon)
  }

  predicate ColonAt(line: string, colon: int) {
    && 0 < colon < |line| && line[colon] == ':'
    && (forall i | 0 <= i < colon :: TokenChar(line[i]))
    && (forall i | colon < i < |line| :: Printable(line[i]) || line[i] == '\t')
  }

  datatype ClientOutcome = Connected | Unencodable | HungUp | TooLong | BadResponse | AuthRejected | Denied

  function Verdict(code: nat): ClientOutcome {
    if code == 407 then AuthRejected else if 200 <= code < 300 then Connected else Denied
  }

  predicate HeaderLines(lines: seq<string>) {
    forall i | 0 <= i < |lines| :: HeaderLine(lines[i])
  }

  /** How a complete response head is judged. */
  function Judged(response: string): ClientOutcome
    requires |response| >= 4
  {
    var lines := Split(response[..|response| - 4]);
    if StatusCode(lines[0]).None? || !HeaderLines(lines[1..]) then BadResponse
    else Verdict(StatusCode(lines[0]).value)
  }

  /** A finished run over a complete input: its outcome, what it sent and how much it consumed. */
  datatype Exchange<O> = Exchange(outcome: O, sent: string, consumed: nat)

  function ClientExchange(login: Credentials, host: string, port: nat, input: string): (e: Exchange<ClientOutcome>)
    ensures e.consumed <= |input|
  {
    if !Ascii(host) then Exchange(Unencodable, "", 0)
    else
      match Until(input, BLANK, LIMIT)
      case Got(response) => Exchange(Judged(response), Request(login, host, port), |response|)
      case TooLong => Exchange(ClientOutcome.TooLong, Request(login, host, port), LIMIT)
      case _ => Exchange(HungUp, Request(login, host, port), |input|)
  }

  /** A status line and header lines as a server may write them. */
  predicate WellFormed(lines: seq<string>) {
    && lines != [] && PlainLines(lines)
    && StatusCode(lines[0]).Some?
    && HeaderLines(lines[1..])
  }

  /** A status line as section 4 of RFC 9112 prints it, with or without a reason phrase, reads back as its code. */
  lemma StatusLineParsed(minor: char, code: string, reason: Option<string>)
    requires minor == '0' || minor == '1'
    requires |code| == 3 && Digits(code)
    requires reason.Some? ==> forall i | 0 <= i < |reason.value| :: Printable(reason.value[i])
    ensures StatusCode("HTTP/1." + [minor] + " " + code + (if reason.Some? then " " + reason.value else ""))
         == Some(FromDecimal(code))
  {
    hide FromDecimal, Digits;
    var tail := if reason.Some? then " " + reason.value else "";
    var line := "HTTP/1." + [minor] + " " + code + tail;
    assert line[..7] == "HTTP/1." && line[7] == minor && line[8] == ' ';
    assert line[9..12] == code;
    assert forall i | 12 <= i < |line| :: line[i] == tail[i - 12];
    if reason.Some? {
      assert tail[0] == ' ' && forall i | 1 <= i < |tail| :: tail[i] == reason.value[i - 1];
    }
  }

  /** And nothing else reads as one. */
  lemma StatusLineShape(line: string) returns (minor: char, code: string, reason: Option<string>)
    requires StatusCode(line).Some?
    ensures (minor == '0' || minor == '1') && |code| == 3 && Digits(code)
    ensures reason.Some? ==> forall i | 0 <= i < |reason.value| :: Printable(reason.value[i])
    ensures line == "HTTP/1." + [minor] + " " + code + (if reason.Some? then " " + reason.value else "")
  {
    hide FromDecimal, Digits, Printable;
    minor, code := line[7], line[9..12];
    reason := if |line| == 12 then None else Some(line[13..]);
    assert line[..12] == line[..7] + [minor] + [line[8]] + code;
    assert line == line[..12] + line[12..];
    if |line| > 12 {
      assert line[12..] == " " + line[13..];
    }
  }

  /** A header line is a token, a colon and printable text, cut at the first colon. */
  lemma HeaderLineParsed(name: string, value: string)
    requires forall i | 0 <= i < |name| :: TokenChar(name[i])
    ensures HeaderLine(name + ":" + value)
            <==> name != "" && forall i | 0 <= i < |value| :: Printable(value[i]) || value[i] == '\t'
  {
    hide TokenChar, Printable;
    var line := name + ":" + value;
    ColonIsNoToken();
    assert line[|name|] == ':';
    assert forall i | 0 <= i < |name| :: line[i] == name[i];
    assert forall i | |name| < i < |line| :: line[i] == value[i - |name| - 1];
    assert forall i | 0 <= i < |value| :: value[i] == line[|name| + 1 + i];
    if HeaderLine(line) {
      var colon :| 0 < colon < |line| && ColonAt(line, colon);
      assert colon == |name|;
    } else if name != "" {
      assert !ColonAt(line, |name|);
    }
  }

  lemma ColonIsNoToken()
    ensures !TokenChar(':')
  {
  }

  /** The request of section 9.3.6 of RFC 9110, with the destination as its target and in Host, and Basic credentials. */
  function SaidFor(login: Credentials, host: string, port: nat): string {
    var authority := (if ':' in host then "[" + host + "]" else host) + ":" + Decimal(port);
    "CONNECT " + authority + " HTTP/1.1" + "\r\n" + "Host: " + authority + "\r\n"
    + (if login.username != [] then
         "Proxy-Authorization: " + ("Basic " + Padded(Standard, login.username + [58] + login.password)) + "\r\n"
       else "")
    + "\r\n"
  }

  lemma RequestIsSaid(login: Credentials, host: string, port: nat)
    ensures Request(login, host, port) == SaidFor(login, host, port)
  {
    var authority := (if ':' in host then "[" + host + "]" else host) + ":" + Decimal(port);
    RequestIs(login, host, port, authority,
              "CONNECT " + authority + " HTTP/1.1" + CRLF + "Host: " + authority + CRLF
              + (if login.username != [] then "Proxy-Authorization: " + BasicValue(login) + CRLF else ""));
    hide Request, Padded;
  }

  /** Every well-formed response within the limit is judged by its code alone, and read to its last byte and no further. */
  lemma ResponseRead(login: Credentials, host: string, port: nat, lines: seq<string>, tail: string)
    requires Ascii(host) && WellFormed(lines) && |Block(lines)| <= LIMIT
    ensures var e, code := ClientExchange(login, host, port, Block(lines) + tail), StatusCode(lines[0]).value;
            && e.outcome == (if code == 407 then AuthRejected else if 200 <= code <= 299 then Connected else Denied)
            && e.sent == SaidFor(login, host, port)
            && (Block(lines) + tail)[e.consumed..] == tail
  {
    RequestIsSaid(login, host, port);
    hide StatusCode, HeaderLines, Request, SaidFor;
    BlockRead(lines, tail);
    SplitTrimmed(lines);
  }

  /** A head is read whole from a stream it begins, whatever follows it. */
  lemma BlockRead(lines: seq<string>, tail: string)
    requires lines != [] && PlainLines(lines) && |Block(lines)| <= LIMIT
    ensures Until(Block(lines) + tail, BLANK, LIMIT) == Got(Block(lines))
  {
    var text := Block(lines) + tail;
    var n := |Block(lines)|;
    BlockEnds(lines);
    assert text[..n] == Block(lines);
    forall k | 0 <= k < n ensures !EndsWith(text[..k], BLANK) {
      if EndsWith(text[..k], BLANK) {
        assert Block(lines)[k - 4..k] == text[..k][k - 4..];
        BlankOnlyAtEnd(lines, k - 4);
      }
    }
    UntilIsTheOnlyPrefix(text, BLANK, LIMIT, n);
  }

  /** A longer head is refused. */
  lemma BlockTooLong(lines: seq<string>, tail: string)
    requires lines != [] && PlainLines(lines) && |Block(lines)| > LIMIT
    ensures Until(Block(lines) + tail, BLANK, LIMIT).TooLong?
  {
    var text := Block(lines) + tail;
    var r := Until(text, BLANK, LIMIT);
    if r.Got? {
      var k := |r.data|;
      assert r.data == text[..k];
      assert Block(lines)[k - 4..k] == r.data[k - 4..];
      BlankOnlyAtEnd(lines, k - 4);
    }
  }

  lemma {:induction false} BlockEnds(lines: seq<string>)
    requires lines != []
    ensures |Block(lines)| >= 4 && EndsWith(Block(lines), BLANK)
  {
    var text, rest := Block(lines), Block(lines[1..]);
    assert text == lines[0] + CRLF + rest;
    if |lines| == 1 {
      assert rest == CRLF;
      assert text[|text| - 4..] == BLANK;
    } else {
      BlockEnds(lines[1..]);
      assert text[|text| - 4..] == rest[|rest| - 4..];
    }
  }

  /** Conversely it connects only on a complete head with a 2xx status line and header lines. */
  lemma OnlySuccessConnects(login: Credentials, host: string, port: nat, input: string) returns (lines: seq<string>)
    requires ClientExchange(login, host, port, input).outcome.Connected?
    ensures Ascii(host) && lines != [] && Joined(lines) + BLANK <= input && |Joined(lines) + BLANK| <= LIMIT
    ensures StatusCode(lines[0]).Some? && 200 <= StatusCode(lines[0]).value < 300
    ensures forall i | 1 <= i < |lines| :: HeaderLine(lines[i])
  {
    hide StatusCode, HeaderLine, Request;
    var response := Until(input, BLANK, LIMIT).data;
    lines := Split(response[..|response| - 4]);
    JoinSplit("", response[..|response| - 4]);
    assert "" + response[..|response| - 4] == response[..|response| - 4];
    assert response == response[..|response| - 4] + BLANK;
    forall i | 1 <= i < |lines| ensures HeaderLine(lines[i]) {
      assert lines[i] == lines[1..][i - 1];
    }
  }

  // ---------------------------------------------------------------------------
  // The exchange on a stream.

  /** _http_connect. */
  method Connect(stream: Stream<char>, login: Credentials, host: string, port: nat)
    returns (outcome: ClientOutcome, timedOut: bool)
    modifies stream
    ensures old(stream.written) <= stream.written
    ensures !timedOut ==>
              var e := ClientExchange(login, host, port, old(stream.pending));
              && outcome == e.outcome
              && stream.written == old(stream.written) + e.sent
              && stream.pending == old(stream.pending)[e.consumed..]
  {
    hide Judged, Request, RequestLines, BasicValue, Until;
    var authority := (if ':' in host then "[" + host + "]" else host) + ":" + Decimal(port);
    var request := "CONNECT " + authority + " HTTP/1.1" + CRLF + "Host: " + authority + CRLF;
    if login.username != [] {
      request := request + "Proxy-Authorization: " + BasicValue(login) + CRLF;
    }
    if !Ascii(host) {
      return Unencodable, false;
    }
    RequestIs(login, host, port, authority, request);
    var ok := stream.Send(request + CRLF);
    if !ok {
      return HungUp, true;
    }
    var response := ReceiveUntil(stream, BLANK, LIMIT);
    if !response.Got? {
      return if response.TooLong? then ClientOutcome.TooLong else HungUp, response.TimedOut?;
    }
    outcome := Judge(response.data);
    timedOut := false;
  }

  lemma RequestIs(login: Credentials, host: string, port: nat, authority: string, request: string)
    requires authority == Authority(host, port)
    requires request == "CONNECT " + authority + " HTTP/1.1" + CRLF + "Host: " + authority + CRLF
                        + (if login.username != [] then "Proxy-Authorization: " + BasicValue(login) + CRLF else "")
    ensures request + CRLF == Request(login, host, port)
  {
    hide BasicValue, Authority, Block;
    var first, second := "CONNECT " + authority + " HTTP/1.1", "Host: " + authority;
    var third := "Proxy-Authorization: " + BasicValue(login);
    var start := first + CRLF + second + CRLF;
    assert start == "CONNECT " + authority + " HTTP/1.1" + CRLF + "Host: " + authority + CRLF;
    if login.username == [] {
      BlockOf(first, second);
      assert RequestLines(login, host, port) == [first, second];
      assert request == start;
    } else {
      BlockOf3(first, second, third);
      assert RequestLines(login, host, port) == [first, second, third];
      assert request == start + third + CRLF;
    }
  }

  lemma BlockOf(a: string, b: string)
    ensures Block([a, b]) == a + CRLF + b + CRLF + CRLF
  {
    assert [a, b][1..] == [b] && [b][1..] == [];
    assert Block([b]) == b + CRLF + CRLF;
    assert a + CRLF + (b + CRLF + CRLF) == a + CRLF + b + CRLF + CRLF;
  }

  lemma BlockOf3(a: string, b: string, c: string)
    ensures Block([a, b, c]) == a + CRLF + b + CRLF + c + CRLF + CRLF
  {
    BlockOf(b, c);
    assert [a, b, c][1..] == [b, c];
  }

  /** Status line first, then the header lines until one is malformed. */
  method Judge(response: string) returns (outcome: ClientOutcome)
    requires |response| >= 4
    ensures outcome == Judged(response)
  {
    hide StatusCode, HeaderLine;
    var lines := Split(response[..|response| - 4]);
    var status := StatusCode(lines[0]);
    if status.None? {
      return BadResponse;
    }
    var i := 1;
    while i < |lines|
      invariant 1 <= i <= |lines|
      invariant HeaderLines(lines[1..i])
    {
      if !HeaderLine(lines[i]) {
        assert lines[1..][i - 1] == lines[i];
        return BadResponse;
      }
      assert lines[1..i + 1] == lines[1..i] + [lines[i]];
      i := i + 1;
    }
    assert lines[1..i] == lines[1..];
    if status.value == 407 {
      return AuthRejected;
    }
    if !(200 <= status.value < 300) {
      return Denied;
    }
    return Connected;
  }
}
