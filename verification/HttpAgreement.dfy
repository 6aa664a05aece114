/** What the HTTP CONNECT client and the loopback proxy agree on once both have finished talking to each other. */
module HttpAgreement {
  import opened Wrappers
  import opened Bytes
  import opened Streams
  import opened Base64
  import opened Texts
  import opened HttpConnect
  import opened HttpPeer

  /** Hosts that profile validation lets through: an IPv6 literal, possibly with a dotted tail, or a name or IPv4 literal. */
  predicate AllowedHost(host: string) {
    && host != ""
    && (if ':' in host then forall i | 0 <= i < |host| :: HexColon(host[i]) || host[i] == '.'
        else forall i | 0 <= i < |host| :: NameChar(host[i]))
  }

  /** The peer's pattern knows IPv6 literals in hex-and-colon form only. */
  predicate KnownForm(host: string) {
    ':' in host ==> '.' !in host
  }

  predicate Visible(text: string) {
    forall i | 0 <= i < |text| :: Printable(text[i])
  }

  lemma VisibleText(text: string)
    requires Visible(text)
    ensures Ascii(text) && Plain(text)
  {
  }

  // ---------------------------------------------------------------------------
  // The request line.

  lemma AuthorityCut(host: string, port: nat)
    ensures var left := if ':' in host then "[" + host + "]" else host;
            var at := LastIndex(Authority(host, port), ':');
            at == Some(|left|) && Authority(host, port)[..at.value] == left && Authority(host, port)[at.value + 1..] == Decimal(port)
  {
    hide LastIndex, Decimal;
    DecimalRoundTrip(port);
    assert ':' !in Decimal(port);
    CutAtLast(if ':' in host then "[" + host + "]" else host, ':', Decimal(port));
  }

  lemma Unframed(authority: string)
    requires authority != ""
    ensures var line := "CONNECT " + authority + " HTTP/1.1";
            Framed(line) && line[8..|line| - 9] == authority
  {
    var line := "CONNECT " + authority + " HTTP/1.1";
    var version := " HTTP/1.1";
    assert line[|line| - 9..] == version;
    assert line[|line| - 9..|line| - 2] == version[..7] == " HTTP/1";
  }

  lemma LeftForms(host: string)
    requires AllowedHost(host)
    ensures var left := if ':' in host then "[" + host + "]" else host;
            (Bracketed(left) || Named(left)) <==> KnownForm(host)
  {
    if ':' in host {
      var left := "[" + host + "]";
      assert left[0] == '[' && !NameChar(left[0]);
      assert forall i | 0 <= i < |host| :: left[i + 1] == host[i];
      if '.' in host {
        var i :| 0 <= i < |host| && host[i] == '.';
        assert left[i + 1] == '.' && !HexColon(left[i + 1]);
      } else {
        assert forall i | 0 < i < |left| - 1 :: left[i] == host[i - 1];
      }
    }
  }

  lemma Stripped(host: string)
    requires AllowedHost(host)
    ensures StripBrackets(host) == host && StripBrackets("[" + host + "]") == host
  {
    var bracketed := "[" + host + "]";
    assert bracketed[1..] == host + "]";
    assert (host + "]")[..|host|] == host;
    assert host[0] != '[' && host[0] != ']' && host[|host| - 1] != '[' && host[|host| - 1] != ']';
    assert StripBrackets(host) == host;
  }

  /** The peer's pattern recovers exactly the printed host and port, or rejects a host outside its forms. */
  lemma RequestLineParsed(host: string, port: nat)
    requires AllowedHost(host)
    ensures Destination("CONNECT " + Authority(host, port) + " HTTP/1.1") == if KnownForm(host) then Some((host, port)) else None
  {
    hide AllowedHost, KnownForm, Bracketed, Named, StripBrackets, Framed, Authority, LastIndex, Decimal;
    var line := "CONNECT " + Authority(host, port) + " HTTP/1.1";
    AuthorityCut(host, port);
    Unframed(Authority(host, port));
    LeftForms(host);
    Stripped(host);
    DecimalRoundTrip(port);
  }

  // ---------------------------------------------------------------------------
  // The header lines.

  lemma HeaderAdded(lines: seq<string>, key: string, value: string)
    requires ':' !in key && Headers(lines).Some?
    ensures Headers(lines + [key + ": " + value]) == Some(Headers(lines).value[key := value])
  {
    var line := key + ": " + value;
    var all := lines + [line];
    assert all[..|all| - 1] == lines && all[|all| - 1] == line;
    assert SeparatorAt(line, |key|);
    assert forall k | 0 <= k < |key| :: line[k] == key[k];
    var at := Separator(line, 0);
    assert at == Some(|key|);
    assert line[..|key|] == key && line[|key| + 2..] == value;
  }

  lemma BlankAdded(lines: seq<string>)
    ensures Headers(lines + [""]) == Headers(lines)
  {
    var all := lines + [""];
    assert all[..|all| - 1] == lines && all[|all| - 1] == "";
  }

  lemma NoColons()
    ensures ':' !in "Host" && ':' !in AUTH_HEADER
  {
  }

  /** The peer's dictionary holds the credentials header exactly when the client has a user name, with exactly its value. */
  lemma HeadersParsed(login: Credentials, host: string, port: nat)
    ensures var lines := RequestLines(login, host, port)[1..] + ["", ""];
            && Headers(lines).Some?
            && (login.username == [] ==> AUTH_HEADER !in Headers(lines).value)
            && (login.username != [] ==> AUTH_HEADER in Headers(lines).value && Headers(lines).value[AUTH_HEADER] == BasicValue(login))
  {
    hide Headers, Authority, BasicValue;
    NoHeaders();
    NoColons();
    var own := RequestLines(login, host, port)[1..];
    HeaderAdded([], "Host", Authority(host, port));
    assert "Host" + ": " == "Host: " && AUTH_HEADER + ": " == "Proxy-Authorization: ";
    assert [] + ["Host" + ": " + Authority(host, port)] == ["Host: " + Authority(host, port)];
    if login.username == [] {
      assert own == ["Host: " + Authority(host, port)];
    } else {
      HeaderAdded(["Host: " + Authority(host, port)], AUTH_HEADER, BasicValue(login));
      assert own == ["Host: " + Authority(host, port)] + [AUTH_HEADER + ": " + BasicValue(login)];
    }
    BlankAdded(own);
    BlankAdded(own + [""]);
    assert own + ["", ""] == (own + [""]) + [""];
  }

  lemma NoHeaders()
    ensures Headers([]) == Some(map[])
  {
  }

  // ---------------------------------------------------------------------------
  // The request as a whole.

  lemma BasicVisible(login: Credentials)
    ensures Visible(BasicValue(login))
  {
    var s := ToSextets(UserPass(login));
    var text := Text(Standard, s);
    forall i | 0 <= i < |text| ensures Printable(text[i]) {
      DigitRoundTrip(Standard, s[i]);
    }
  }

  lemma AuthorityVisible(host: string, port: nat)
    requires AllowedHost(host)
    ensures Visible(Authority(host, port))
  {
    DecimalRoundTrip(port);
    assert Visible(Decimal(port));
    assert Visible(host);
  }

  lemma RequestShape(login: Credentials, host: string, port: nat)
    requires AllowedHost(host)
    ensures PlainLines(RequestLines(login, host, port)) && RequestLines(login, host, port) != [] && Ascii(Request(login, host, port))
  {
    hide AllowedHost, Authority, BasicValue, Block;
    BasicVisible(login);
    AuthorityVisible(host, port);
    var lines := RequestLines(login, host, port);
    forall i | 0 <= i < |lines| ensures Visible(lines[i]) {
    }
    forall i | 0 <= i < |lines| ensures Plain(lines[i]) && Ascii(lines[i]) && lines[i] != "" {
      VisibleText(lines[i]);
    }
    BlockAscii(lines);
  }

  lemma {:induction false} BlockAscii(lines: seq<string>)
    requires forall i | 0 <= i < |lines| :: Ascii(lines[i])
    ensures Ascii(Block(lines))
  {
    if lines != [] {
      BlockAscii(lines[1..]);
    }
  }

  predicate LoginMatches(peer: Peer, login: Credentials) {
    peer.login.username == [] || (login.username != [] && UserPass(login) == UserPass(peer.login))
  }

  predicate Serves(peer: Peer, login: Credentials, host: string, port: nat) {
    KnownForm(host) && LoginMatches(peer, login) && !peer.malformed && !peer.deny && peer.reachable(host, port)
  }

  lemma BasicValuesDiffer(a: Credentials, b: Credentials)
    ensures BasicValue(a) == BasicValue(b) <==> UserPass(a) == UserPass(b)
  {
    if BasicValue(a) == BasicValue(b) {
      assert Padded(Standard, UserPass(a)) == BasicValue(a)[6..];
      assert Padded(Standard, UserPass(b)) == BasicValue(b)[6..];
      PaddedInjective(Standard, UserPass(a), UserPass(b));
    }
  }

  datatype Verdict = Verdict(client: ClientOutcome, peer: PeerOutcome, said: string)

  /** A status line and the empty line after it. */
  function Spoken(code: string, reason: string): string {
    "HTTP/1.1 " + code + " " + reason + "\r\n\r\n"
  }

  /** How a request within the limit ends on either side, and what the peer says, as the configurations decide it. */
  function RequestVerdict(peer: Peer, login: Credentials, host: string, port: nat): Verdict {
    if !KnownForm(host) then Verdict(ClientOutcome.Denied, BadRequest, Spoken("400", "Bad Request"))
    else if !LoginMatches(peer, login) then
      Verdict(AuthRejected, LoginRefused, Spoken("407", "Proxy Authentication Required"))
    else if peer.malformed then Verdict(BadResponse, Malformed, "HTTP/1.1 200junk" + "\r\n\r\n")
    else if peer.deny then Verdict(ClientOutcome.Denied, Refused, Spoken("403", "Forbidden"))
    else if !peer.reachable(host, port) then Verdict(ClientOutcome.Denied, Unreachable, Spoken("502", "Bad Gateway"))
    else Verdict(Connected, Relaying(host, port), Spoken("200", "Connection Established"))
  }

  /** The peer decides a printed request as the table says: it relays exactly to the requested destination, or refuses. */
  lemma RequestDecided(peer: Peer, login: Credentials, host: string, port: nat)
    requires AllowedHost(host)
    ensures Decided(peer, Request(login, host, port)) == RequestVerdict(peer, login, host, port).peer
  {
    hide AllowedHost, KnownForm, Destination, Headers, Block, Ascii, BasicValue, UserPass;
    var lines := RequestLines(login, host, port);
    RequestShape(login, host, port);
    SplitBlock(lines);
    RequestLineParsed(host, port);
    HeadersParsed(login, host, port);
    BasicValuesDiffer(login, peer.login);
    assert (lines + ["", ""])[0] == lines[0];
    assert (lines + ["", ""])[1..] == lines[1..] + ["", ""];
  }

  // ---------------------------------------------------------------------------
  // The answer as a whole.

  /** How the client judges an answer that is a status line alone. */
  function Reading(line: string): ClientOutcome {
    if StatusCode(line).None? then BadResponse
    else if StatusCode(line).value == 407 then AuthRejected
    else if 200 <= StatusCode(line).value <= 299 then Connected
    else ClientOutcome.Denied
  }

  lemma StatusLineRead(code: string, reason: string)
    requires |code| == 3 && IsDigit(code[0]) && IsDigit(code[1]) && IsDigit(code[2]) && Visible(reason)
    ensures StatusCode(StatusLine(code, reason))
         == Some(100 * (code[0] - '0') as int + 10 * (code[1] - '0') as int + (code[2] - '0') as int)
    ensures Plain(StatusLine(code, reason))
  {
    var line := StatusLine(code, reason);
    assert line[..7] == "HTTP/1." && line[7] == '1' && line[8] == ' ';
    assert line[9..12] == code;
    assert line[12] == ' ' && forall i | 13 <= i < |line| :: line[i] == reason[i - 13];
    CodeValue(code);
    VisibleText(reason);
  }

  lemma CodeValue(code: string)
    requires |code| == 3 && Digits(code)
    ensures FromDecimal(code) == 100 * (code[0] - '0') as int + 10 * (code[1] - '0') as int + (code[2] - '0') as int
  {
    var tens := code[..2];
    var hundreds := tens[..1];
    assert Digits(tens) && Digits(hundreds);
    assert FromDecimal(hundreds) == (code[0] - '0') as int;
    assert FromDecimal(tens) == 10 * FromDecimal(hundreds) + (code[1] - '0') as int;
    assert FromDecimal(code) == 10 * FromDecimal(tens) + (code[2] - '0') as int;
  }

  lemma JunkRefused()
    ensures StatusCode("HTTP/1.1 200junk").None? && Plain("HTTP/1.1 200junk")
  {
    assert "HTTP/1.1 200junk"[12] == 'j';
  }

  /** How the client takes what the peer has decided. */
  function Told(p: PeerOutcome): ClientOutcome {
    match p
    case Relaying(_, _) => Connected
    case LoginRefused => AuthRejected
    case Malformed => BadResponse
    case BadRequest => ClientOutcome.Denied
    case Refused => ClientOutcome.Denied
    case Unreachable => ClientOutcome.Denied
    case _ => ClientOutcome.HungUp
  }

  /** Each answer is taken for what it is. */
  lemma AnswerJudged(p: PeerOutcome)
    ensures AnswerLine(p) != "" ==> Reading(AnswerLine(p)) == Told(p)
    ensures Plain(AnswerLine(p)) && |AnswerLine(p)| < 100
    ensures AnswerLine(p) == "" <==> Told(p).HungUp?
  {
    hide Plain, Visible, StatusCode;
    ReasonsVisible();
    match p
    case BadRequest => StatusLineRead("400", "Bad Request");
    case LoginRefused => StatusLineRead("407", "Proxy Authentication Required");
    case Malformed => JunkRefused();
    case Refused => StatusLineRead("403", "Forbidden");
    case Unreachable => StatusLineRead("502", "Bad Gateway");
    case Relaying(_, _) => StatusLineRead("200", "Connection Established");
    case _ => NoAnswer();
  }

  lemma ReasonsVisible()
    ensures Visible("Bad Request") && Visible("Proxy Authentication Required") && Visible("Forbidden")
    ensures Visible("Bad Gateway") && Visible("Connection Established")
  {
  }

  lemma NoAnswer()
    ensures Plain("")
  {
  }

  /** How the client reads each answer of the peer: it connects on the success answer only, and reads all of it. */
  lemma AnswerRead(login: Credentials, host: string, port: nat, p: PeerOutcome, down: string)
    requires Ascii(host) && (down != "" ==> p.Relaying?)
    ensures var e := ClientExchange(login, host, port, Answer(p) + down);
            && e.outcome == Told(p)
            && (p.Relaying? ==> (Answer(p) + down)[e.consumed..] == down)
  {
    hide AnswerLine, Reading, ClientExchange;
    AnswerJudged(p);
    if AnswerLine(p) == "" {
      SilenceRead(login, host, port);
    } else {
      LineRead(login, host, port, AnswerLine(p), down);
    }
  }

  lemma SilenceRead(login: Credentials, host: string, port: nat)
    requires Ascii(host)
    ensures ClientExchange(login, host, port, "" + "").outcome == ClientOutcome.HungUp
  {
    hide Request;
  }

  lemma LineRead(login: Credentials, host: string, port: nat, line: string, down: string)
    requires Ascii(host) && line != "" && Plain(line) && |line| < 100
    ensures var e := ClientExchange(login, host, port, line + BLANK + down);
            && e.outcome == Reading(line)
            && (line + BLANK + down)[e.consumed..] == down
  {
    hide StatusCode, Request, Split;
    assert [line][1..] == [];
    assert Block([line]) == line + CRLF + CRLF;
    assert CRLF + CRLF == BLANK && Block([line]) == line + BLANK;
    BlockRead([line], down);
    SplitTrimmed([line]);
  }

  /** What the peer says is the table's text. */
  lemma AnswerSaid(peer: Peer, login: Credentials, host: string, port: nat)
    ensures var v := RequestVerdict(peer, login, host, port); Answer(v.peer) == v.said && Told(v.peer) == v.client
  {
    hide KnownForm, LoginMatches;
    AnswerTexts();
  }

  lemma AnswerTexts()
    ensures Answer(BadRequest) == Spoken("400", "Bad Request")
    ensures Answer(LoginRefused) == Spoken("407", "Proxy Authentication Required")
    ensures Answer(Malformed) == "HTTP/1.1 200junk" + "\r\n\r\n"
    ensures Answer(Refused) == Spoken("403", "Forbidden") && Answer(Unreachable) == Spoken("502", "Bad Gateway")
    ensures forall h, n :: Answer(Relaying(h, n)) == Spoken("200", "Connection Established")
  {
  }

  // ---------------------------------------------------------------------------
  // Agreement.

  /** Two finished runs joined by a connection, as for the other handshake. */
  ghost predicate Joined(c: Exchange<ClientOutcome>, cin: string, up: string, p: Exchange<PeerOutcome>, pin: string, down: string) {
    && cin == p.sent + down && (down != "" ==> p.outcome.Relaying?)
    && pin == c.sent + up && (up != "" ==> c.outcome.Connected?)
  }

  /** As RequestVerdict; a request beyond the limit is not read, and the connection is closed without a word. */
  function HandshakeVerdict(peer: Peer, login: Credentials, host: string, port: nat): Verdict {
    if |Request(login, host, port)| > 8192 then Verdict(ClientOutcome.HungUp, Oversized, "")
    else RequestVerdict(peer, login, host, port)
  }

  /**
   Whatever the configurations, both sides end as the table of verdicts says, and the peer says exactly what it says
   there; on success the next character either side reads is the first tunnelled one.
   */
  lemma HandshakeMet(peer: Peer, login: Credentials, host: string, port: nat,
                     cin: string, up: string, pin: string, down: string)
    requires AllowedHost(host)
    requires Joined(ClientExchange(login, host, port, cin), cin, up, PeerExchange(peer, pin), pin, down)
    ensures var c, p := ClientExchange(login, host, port, cin), PeerExchange(peer, pin);
            var v := HandshakeVerdict(peer, login, host, port);
            && c.outcome == v.client && p.outcome == v.peer && p.sent == v.said
            && (v.client.Connected? ==> cin[c.consumed..] == down && pin[p.consumed..] == up)
  {
    hide Decided, Answer, RequestVerdict, RequestLines, AllowedHost, Judged, Told;
    var request, p := Request(login, host, port), PeerExchange(peer, pin);
    RequestShape(login, host, port);
    AllowedIsAscii(host);
    RequestDecided(peer, login, host, port);
    AnswerSaid(peer, login, host, port);
    SilentRefusals();
    if |request| <= LIMIT {
      BlockRead(RequestLines(login, host, port), up);
    } else {
      BlockTooLong(RequestLines(login, host, port), up);
    }
    AnswerRead(login, host, port, p.outcome, down);
    VerdictConnects(peer, login, host, port);
  }

  lemma VerdictConnects(peer: Peer, login: Credentials, host: string, port: nat)
    ensures var v := RequestVerdict(peer, login, host, port);
            if Serves(peer, login, host, port) then v.client.Connected? && v.peer == Relaying(host, port)
            else !v.client.Connected? && !v.peer.Relaying?
  {
    hide KnownForm, LoginMatches;
  }

  /**
   The client connects exactly when the peer relays, exactly when the request fits the limit and the peer serves it;
   both then mean the same destination, and the next character either side reads is the first tunnelled one.
   */
  lemma HandshakeAgreement(peer: Peer, login: Credentials, host: string, port: nat,
                           cin: string, up: string, pin: string, down: string)
    requires AllowedHost(host)
    requires Joined(ClientExchange(login, host, port, cin), cin, up, PeerExchange(peer, pin), pin, down)
    ensures var c, p := ClientExchange(login, host, port, cin), PeerExchange(peer, pin);
            if |Request(login, host, port)| <= LIMIT && Serves(peer, login, host, port) then
              && c.outcome.Connected? && p.outcome == Relaying(host, port)
              && cin[c.consumed..] == down && pin[p.consumed..] == up
            else !c.outcome.Connected? && !p.outcome.Relaying?
  {
    HandshakeMet(peer, login, host, port, cin, up, pin, down);
    VerdictConnects(peer, login, host, port);
    hide ClientExchange, PeerExchange, RequestVerdict, Serves, Request, AllowedHost, Joined;
  }

  lemma AllowedIsAscii(host: string)
    requires AllowedHost(host)
    ensures Ascii(host)
  {
  }

  lemma SilentRefusals()
    ensures Answer(Oversized) == Answer(PeerHungUp) == "" && Told(Oversized) == ClientOutcome.HungUp
  {
  }

  /** Such a pair of successful runs exists whenever the peer serves a request that fits. */
  lemma MatchingRunsExist(peer: Peer, login: Credentials, host: string, port: nat, up: string, down: string)
    returns (cin: string, pin: string)
    requires AllowedHost(host) && |Request(login, host, port)| <= LIMIT && Serves(peer, login, host, port)
    ensures Joined(ClientExchange(login, host, port, cin), cin, up, PeerExchange(peer, pin), pin, down)
    ensures ClientExchange(login, host, port, cin).outcome.Connected?
  {
    hide Decided, Answer, Serves, RequestLines, AllowedHost, Judged;
    pin := Request(login, host, port) + up;
    cin := Answer(Relaying(host, port)) + down;
    RequestShape(login, host, port);
    AllowedIsAscii(host);
    RequestDecided(peer, login, host, port);
    VerdictConnects(peer, login, host, port);
    hide RequestVerdict;
    BlockRead(RequestLines(login, host, port), up);
    AnswerRead(login, host, port, Relaying(host, port), down);
  }

  /** An IPv6 literal with a dotted tail passes validation, yet this peer rejects it whatever its settings. */
  lemma MappedAddressRejected(peer: Peer, login: Credentials, port: nat, cin: string, pin: string)
    requires Joined(ClientExchange(login, "::ffff:1.2.3.4", port, cin), cin, "", PeerExchange(peer, pin), pin, "")
    ensures AllowedHost("::ffff:1.2.3.4")
    ensures !ClientExchange(login, "::ffff:1.2.3.4", port, cin).outcome.Connected?
  {
    hide ClientExchange, PeerExchange, Request, AllowedHost, KnownForm;
    MappedAddress();
    HandshakeAgreement(peer, login, "::ffff:1.2.3.4", port, cin, "", pin, "");
  }

  lemma MappedAddress()
    ensures AllowedHost("::ffff:1.2.3.4") && !KnownForm("::ffff:1.2.3.4")
  {
    var host := "::ffff:1.2.3.4";
    assert host[0] == ':' && host[8] == '.';
  }
}
