/** The Telnet adapter: the stateful negotiator, reads up to a prompt, and the login dialogue. */
module TelnetClient {
  import opened Bytes
  import opened TelnetCodec

  /** What one pass through the read loop meets: the deadline, a socket error, end of file, or bytes. */
  datatype Turn = Late | Broken | Eof | Chunk(bytes: seq<Byte>)

  function Received(turns: seq<Turn>): seq<Byte> {
    if turns == [] then [] else Received(turns[..|turns| - 1]) + LastBytes(turns)
  }

  function LastBytes(turns: seq<Turn>): seq<Byte>
    requires turns != []
  {
    var last := turns[|turns| - 1];
    if last.Chunk? then last.bytes else []
  }

  /** A socket: everything that will ever arrive on it, turn by turn, and everything written to it. */
  class Socket {
    var incoming: seq<Turn>
    var written: seq<Byte>
    var failures: nat

    constructor (incoming: seq<Turn>)
      ensures this.incoming == incoming && written == [] && failures == 0
    {
      this.incoming := incoming;
      written, failures := [], 0;
    }

    /** sendall either writes everything or fails after writing some prefix. */
    method SendAll(payload: seq<Byte>) returns (ok: bool)
      modifies this`written, this`failures
      ensures failures == if ok then old(failures) else old(failures) + 1
      ensures ok ==> written == old(written) + payload
      ensures old(written) <= written <= old(written) + payload
    {
      var sent: nat :| sent <= |payload|;
      written := written + payload[..sent];
      ok := sent == |payload|;
      if !ok {
        failures := failures + 1;
      }
    }

    /** The next turn; when nothing more arrives the deadline passes. */
    method Take() returns (turn: Turn)
      modifies this`incoming
      ensures old(incoming) == [] ==> turn == Late && incoming == []
      ensures old(incoming) != [] ==> turn == old(incoming)[0] && incoming == old(incoming)[1..]
    {
      if incoming == [] {
        turn := Late;
      } else {
        turn := incoming[0];
        incoming := incoming[1..];
      }
    }
  }

  class Negotiator {
    const sock: Socket
    var phase: Phase
    var pendingVerb: Byte

    constructor (sock: Socket)
      ensures this.sock == sock && State() == INITIAL
    {
      this.sock := sock;
      phase, pendingVerb := Normal, 0;
    }

    ghost function State(): Decoder
      reads this
    {
      Decoder(phase, pendingVerb)
    }

    method Reply(verb: Byte, option: Byte)
      modifies sock`written, sock`failures
      ensures sock.failures == old(sock.failures) ==>
                sock.written == old(sock.written) + (if verb == 253 then [255, 252, option]
                                                     else if verb == 251 then [255, 254, option] else [])
      ensures sock.failures >= old(sock.failures)
    {
      var refusal := WONT;
      if verb == DO {
        refusal := WONT;
      } else if verb == WILL {
        refusal := DONT;
      } else {
        return;
      }
      // A failed send is swallowed here; it surfaces on the next real read or write.
      var _ := sock.SendAll([IAC, refusal, option]);
    }

    /** Consumes bytes of any fragmentation and returns the clean ones. */
    method Feed(data: seq<Byte>) returns (out: seq<Byte>)
      modifies this`phase, this`pendingVerb, sock`written, sock`failures
      ensures State() == Decode(old(State()), data).next
      ensures out == Decode(old(State()), data).clean
      ensures sock.failures == old(sock.failures) ==>
                sock.written == old(sock.written) + Decode(old(State()), data).refusals
      ensures sock.failures >= old(sock.failures)
    {
      out := [];
      var i := 0;
      while i < |data|
        invariant 0 <= i <= |data|
        invariant State() == Decode(old(State()), data[..i]).next
        invariant out == Decode(old(State()), data[..i]).clean
        invariant sock.failures >= old(sock.failures)
        invariant sock.failures == old(sock.failures) ==>
                    sock.written == old(sock.written) + Decode(old(State()), data[..i]).refusals
      {
        var byte := data[i];
        ghost var before := State();
        assert data[..i + 1] == data[..i] + [byte];
        DecodeAppend(old(State()), data[..i], [byte]);
        DecodeOne(before, byte);
        if phase == Normal {
          if byte == IAC {
            phase := GotIac;
          } else {
            out := out + [byte];
          }
        } else if phase == GotIac {
          if byte == IAC {
            out := out + [IAC];
            phase := Normal;
          } else if byte == DO || byte == DONT || byte == WILL || byte == WONT {
            pendingVerb := byte;
            phase := GotVerb;
          } else if byte == SB {
            phase := GotSb;
          } else {
            phase := Normal;
          }
        } else if phase == GotVerb {
          Reply(pendingVerb, byte);
          phase := Normal;
        } else if phase == GotSb {
          if byte == IAC {
            phase := GotSbIac;
          }
        } else if phase == GotSbIac {
          if byte == SE {
            phase := Normal;
          } else {
            phase := GotSb;
          }
        }
        assert State() == Advance(before, byte).next;
        i := i + 1;
      }
      assert data[..i] == data;
    }
  }

  datatype ReadFault = TimedOut | SocketError | PeerClosed | Overflow

  /** A read returns the buffer holding its marker, or fails with the partial buffer. */
  datatype ReadResult = Found(buffer: seq<Byte>) | Unfinished(fault: ReadFault, buffer: seq<Byte>)

  /** A failed read's partial buffer: only an overflow's exceeds the limit, and no other can hold the marker. */
  predicate HonestFault(r: ReadResult, marker: seq<Byte>, maxBytes: nat)
    requires r.Unfinished?
  {
    if r.fault.Overflow? then |r.buffer| > maxBytes else !Contains(r.buffer, marker) && |r.buffer| <= maxBytes
  }

  /** The clean bytes the first n turns of a script decode to. */
  function CleanAfter(start: Decoder, script: seq<Turn>, n: nat): seq<Byte>
    requires n <= |script|
  {
    Decode(start, Received(script[..n])).clean
  }

  /** The turn that ended a failed read; an exhausted script reads as the deadline. */
  predicate EndedBy(fault: ReadFault, script: seq<Turn>, n: nat)
    requires n <= |script|
  {
    match fault
    case TimedOut => n == |script| || (n > 0 && script[n - 1].Late?)
    case SocketError => n > 0 && script[n - 1].Broken?
    case PeerClosed => n > 0 && script[n - 1].Eof?
    case Overflow => n > 0 && script[n - 1].Chunk?
  }

  /** A read that ended without its marker had a reason: the turn that ended it, and a partial buffer to match. */
  ghost predicate EndedWithout(marker: seq<Byte>, partial: seq<Byte>, script: seq<Turn>, n: nat)
    requires n <= |script|
  {
    exists fault: ReadFault :: EndedBy(fault, script, n) && HonestFault(Unfinished(fault, partial), marker, 8192)
  }

  /** What is left of a script is what has not been taken. */
  predicate Consumed(script: seq<Turn>, rest: seq<Turn>) {
    |rest| <= |script| && rest == script[|script| - |rest|..]
  }

  /** The third prompt follows two answers; the last read of a dialogue is the one for this prompt. */
  function PromptAt(stage: int): seq<Byte> {
    if stage == 1 then Ascii("Username:") else if stage == 2 then Ascii("Password:") else Ascii("> ")
  }

  lemma Ended(r: ReadResult, marker: seq<Byte>, script: seq<Turn>, n: nat)
    requires r.Unfinished? && n <= |script| && EndedBy(r.fault, script, n) && HonestFault(r, marker, 8192)
    ensures EndedWithout(marker, r.buffer, script, n)
  {
    hide HonestFault;
    assert r == Unfinished(r.fault, r.buffer);
  }

  lemma EndsLater(marker: seq<Byte>, partial: seq<Byte>, script: seq<Turn>, middle: seq<Turn>, rest: seq<Turn>)
    requires Consumed(script, middle) && Consumed(middle, rest)
    requires EndedWithout(marker, partial, middle, |middle| - |rest|)
    ensures Consumed(script, rest) && EndedWithout(marker, partial, script, |script| - |rest|)
  {
    hide HonestFault;
    var fault: ReadFault :| EndedBy(fault, middle, |middle| - |rest|) && HonestFault(Unfinished(fault, partial), marker, 8192);
    assert EndedBy(fault, script, |script| - |rest|);
  }

  /** Reading went on exactly while the marker was missing and the limit respected. */
  ghost predicate StillReading(start: Decoder, script: seq<Turn>, n: nat, marker: seq<Byte>, maxBytes: nat)
    requires n <= |script|
  {
    forall j | 0 <= j < n ::
      !Contains(CleanAfter(start, script, j), marker) && |CleanAfter(start, script, j)| <= maxBytes
  }

  function Ascii(s: string): seq<Byte>
    requires forall i | 0 <= i < |s| :: s[i] as int < 256
  {
    if s == "" then [] else [s[0] as int] + Ascii(s[1..])
  }

  /** bytes.lower. */
  function Lower(bytes: seq<Byte>): (r: seq<Byte>)
    ensures |r| == |bytes|
    ensures forall i | 0 <= i < |bytes| :: r[i] == if 65 <= bytes[i] <= 90 then bytes[i] + 32 else bytes[i]
  {
    seq(|bytes|, i requires 0 <= i < |bytes| => if 65 <= bytes[i] <= 90 then bytes[i] + 32 else bytes[i])
  }

  const USERNAME_PROMPT := Ascii("Username:")
  const PASSWORD_PROMPT := Ascii("Password:")
  const COMMAND_PROMPT := Ascii("> ")
  const INCORRECT := Ascii("incorrect")
  const CRLF := Ascii("\r\n")
  const MAX_RESPONSE := 8192

  datatype LoginOutcome =
    | LoggedIn
    | Rejected(partial: seq<Byte>)
    | LoginFailed(partial: seq<Byte>)
    | SendFailed

  datatype CommandOutcome = Output(response: seq<Byte>) | NotAuthenticated | CommandFailed(partial: seq<Byte>)

  class TelnetClient {
    const sock: Socket
    const negotiator: Negotiator
    var open: bool
    var authenticated: bool
    // Everything read from the socket, and everything returned or attached to a failure.
    ghost var received: seq<Byte>
    ghost var delivered: seq<Byte>

    /** Nothing the peer sent is lost or repeated between reads. */
    ghost predicate Valid()
      reads this, negotiator
    {
      && negotiator.sock == sock
      && negotiator.State() == Decode(INITIAL, received).next
      && delivered == Decode(INITIAL, received).clean
    }

    constructor (sock: Socket)
      ensures Valid() && this.sock == sock && open && !authenticated && received == [] && delivered == []
      ensures fresh(negotiator)
    {
      this.sock := sock;
      negotiator := new Negotiator(sock);
      open, authenticated := true, false;
      received, delivered := [], [];
    }

    method RecvUntil(marker: seq<Byte>, maxBytes: nat) returns (r: ReadResult)
      requires Valid()
      modifies sock, negotiator, this`received, this`delivered
      ensures Valid()
      ensures |sock.incoming| <= |old(sock.incoming)|
      ensures var script, n := old(sock.incoming), |old(sock.incoming)| - |sock.incoming|;
              && sock.incoming == script[n..]
              && received == old(received) + Received(script[..n])
              && delivered == old(delivered) + r.buffer
              && r.buffer == CleanAfter(old(negotiator.State()), script, n)
              && (sock.failures == old(sock.failures) ==>
                    sock.written == old(sock.written) + Decode(old(negotiator.State()), Received(script[..n])).refusals)
              && StillReading(old(negotiator.State()), script, n, marker, maxBytes)
              && (r.Unfinished? ==> EndedBy(r.fault, script, n))
      ensures r.Found? ==> Contains(r.buffer, marker) && |r.buffer| <= maxBytes
      ensures r.Unfinished? ==> HonestFault(r, marker, maxBytes)
      ensures sock.failures >= old(sock.failures)
    {
      hide Decode, Received, Contains;
      var buf: seq<Byte> := [];
      ghost var start := negotiator.State();
      ghost var script := sock.incoming;
      ghost var n := 0;
      ReceivedNothing(script);
      DecodeNothing(start);
      while !Contains(buf, marker)
        invariant 0 <= n <= |script| && sock.incoming == script[n..]
        invariant buf == CleanAfter(start, script, n) && |buf| <= maxBytes
        invariant negotiator.State() == Decode(start, Received(script[..n])).next
        invariant received == old(received) && delivered == old(delivered)
        invariant sock.failures >= old(sock.failures)
        invariant sock.failures == old(sock.failures) ==>
                    sock.written == old(sock.written) + Decode(start, Received(script[..n])).refusals
        invariant StillReading(start, script, n, marker, maxBytes)
        decreases |sock.incoming|
      {
        ghost var before := n;
        var turn := sock.Take();
        n := if n == |script| then n else n + 1;
        if n > before {
          ReceivedStep(script, n);
        }
        if turn.Late? {
          Conclude(start, script, n, buf);
          return Unfinished(TimedOut, buf);
        }
        if turn.Broken? {
          Conclude(start, script, n, buf);
          return Unfinished(SocketError, buf);
        }
        if turn.Eof? {
          Conclude(start, script, n, buf);
          return Unfinished(PeerClosed, buf);
        }
        DecodeAppend(start, Received(script[..before]), turn.bytes);
        var clean := negotiator.Feed(turn.bytes);
        buf := buf + clean;
        if |buf| > maxBytes {
          Conclude(start, script, n, buf);
          return Unfinished(Overflow, buf);
        }
      }
      Conclude(start, script, n, buf);
      return Found(buf);
    }

    /** Books a finished read: what it took from the socket and what it hands out. */
    ghost method Conclude(start: Decoder, script: seq<Turn>, n: nat, buf: seq<Byte>)
      requires n <= |script| && negotiator.sock == sock
      requires start == Decode(INITIAL, received).next && delivered == Decode(INITIAL, received).clean
      requires buf == Decode(start, Received(script[..n])).clean
      requires negotiator.State() == Decode(start, Received(script[..n])).next
      modifies this`received, this`delivered
      ensures Valid()
      ensures received == old(received) + Received(script[..n]) && delivered == old(delivered) + buf
    {
      DecodeAppend(INITIAL, received, Received(script[..n]));
      received := received + Received(script[..n]);
      delivered := delivered + buf;
    }

    method Close()
      modifies this`open, this`authenticated
      ensures !open && !authenticated
    {
      open, authenticated := false, false;
    }

    /** A failed read during login: the peer's own "incorrect" tells a rejection from a broken dialogue. */
    method Abandon(partial: seq<Byte>) returns (r: LoginOutcome)
      modifies this`open, this`authenticated
      ensures !open && !authenticated
      ensures r == if Contains(Lower(partial), INCORRECT) then Rejected(partial) else LoginFailed(partial)
    {
      Close();
      if Contains(Lower(partial), INCORRECT) {
        return Rejected(partial);
      }
      return LoginFailed(partial);
    }

    /** Waits for a prompt and answers it; raw is what was read meanwhile. */
    method Answer(prompt: seq<Byte>, reply: seq<Byte>) returns (r: LoginOutcome, ghost raw: seq<Byte>)
      requires Valid() && open && !authenticated
      modifies sock, negotiator, this
      ensures Valid() && received == old(received) + raw && delivered == old(delivered) + Decode(old(negotiator.State()), raw).clean
      ensures !authenticated && r.LoggedIn? == open && sock.failures >= old(sock.failures)
      ensures r.LoggedIn? ==>
                Contains(Decode(old(negotiator.State()), raw).clean, prompt) && |Decode(old(negotiator.State()), raw).clean| <= 8192
      ensures r.LoggedIn? && sock.failures == old(sock.failures) ==>
                sock.written == old(sock.written) + Decode(old(negotiator.State()), raw).refusals + reply
      ensures r.Rejected? ==> Contains(Lower(r.partial), INCORRECT)
      ensures r.LoginFailed? ==> !Contains(Lower(r.partial), INCORRECT)
      ensures r.SendFailed? ==> sock.failures > old(sock.failures)
      ensures Consumed(old(sock.incoming), sock.incoming)
      ensures r.Rejected? || r.LoginFailed? ==>
                && r.partial == Decode(old(negotiator.State()), raw).clean
                && EndedWithout(prompt, r.partial, old(sock.incoming), |old(sock.incoming)| - |sock.incoming|)
    {
      hide Contains, Lower, Decode, Ascii, EndedWithout;
      ghost var script := sock.incoming;
      var read := RecvUntil(prompt, MAX_RESPONSE);
      raw := Received(script[..|script| - |sock.incoming|]);
      if read.Unfinished? {
        Ended(read, prompt, script, |script| - |sock.incoming|);
        r := Abandon(read.buffer);
        return;
      }
      var sent := sock.SendAll(reply);
      if !sent {
        Close();
        return SendFailed, raw;
      }
      r := LoggedIn;
    }

    /** The login dialogue; raw1, raw2 and raw3 are what was read before each prompt. */
    method Login(username: seq<Byte>, password: seq<Byte>)
      returns (r: LoginOutcome, ghost raw1: seq<Byte>, ghost raw2: seq<Byte>, ghost raw3: seq<Byte>, ghost stage: int)
      requires Valid() && open && !authenticated
      modifies sock, negotiator, this
      ensures Valid() && received == old(received) + raw1 + raw2 + raw3
      ensures r.LoggedIn? == authenticated == open
      ensures r.LoggedIn? ==>
                var e1 := Decode(old(negotiator.State()), raw1);
                var e2 := Decode(e1.next, raw2);
                var e3 := Decode(e2.next, raw3);
                && Contains(e1.clean, USERNAME_PROMPT) && Contains(e2.clean, PASSWORD_PROMPT)
                && Contains(e3.clean, COMMAND_PROMPT)
                && |e1.clean| <= 8192 && |e2.clean| <= 8192 && |e3.clean| <= 8192
                && delivered == old(delivered) + e1.clean + e2.clean + e3.clean
                && (sock.failures == old(sock.failures) ==>
                      sock.written == old(sock.written) + e1.refusals + (username + CRLF)
                                      + e2.refusals + (password + CRLF) + e3.refusals)
      ensures r.Rejected? ==> Contains(Lower(r.partial), INCORRECT)
      ensures r.LoginFailed? ==> !Contains(Lower(r.partial), INCORRECT)
      ensures r.SendFailed? ==> sock.failures > old(sock.failures)
      ensures 1 <= stage <= 3 && (stage < 3 ==> raw3 == []) && (stage < 2 ==> raw2 == [])
      ensures Consumed(old(sock.incoming), sock.incoming)
      ensures r.Rejected? || r.LoginFailed? ==>
                && r.partial == (if stage == 1 then Decode(old(negotiator.State()), raw1)
                                 else if stage == 2 then Decode(Decode(old(negotiator.State()), raw1).next, raw2)
                                 else Decode(Decode(Decode(old(negotiator.State()), raw1).next, raw2).next, raw3)).clean
                && EndedWithout(PromptAt(stage), r.partial, old(sock.incoming), |old(sock.incoming)| - |sock.incoming|)
    {
      hide Contains, Lower, Decode, Ascii, EndedWithout;
      raw1, raw2, raw3, stage := [], [], [], 1;
      StatesAdvance(received, raw1);
      r, raw1 := Answer(USERNAME_PROMPT, username + CRLF);
      StatesAdvance(old(received), raw1);
      if !r.LoggedIn? {
        return;
      }
      ghost var middle, second := received, sock.incoming;
      stage := 2;
      r, raw2 := Answer(PASSWORD_PROMPT, password + CRLF);
      StatesAdvance(middle, raw2);
      if !r.LoggedIn? {
        if !r.SendFailed? {
          EndsLater(PASSWORD_PROMPT, r.partial, old(sock.incoming), second, sock.incoming);
        }
        return;
      }
      stage := 3;
      ghost var script := sock.incoming;
      var third := RecvUntil(COMMAND_PROMPT, MAX_RESPONSE);
      raw3 := Received(script[..|script| - |sock.incoming|]);
      if third.Unfinished? {
        r := Abandon(third.buffer);
        Ended(third, COMMAND_PROMPT, script, |script| - |sock.incoming|);
        EndsLater(COMMAND_PROMPT, third.buffer, old(sock.incoming), script, sock.incoming);
        return;
      }
      authenticated := true;
      r := LoggedIn;
    }

    /** _run_command on an open session: a response is everything up to and including the next prompt, or the session ends. */
    method RunCommand(command: seq<Byte>) returns (r: CommandOutcome, ghost raw: seq<Byte>)
      requires Valid()
      modifies sock, negotiator, this
      ensures Valid() && received == old(received) + raw
      ensures r.NotAuthenticated? <==> !(old(authenticated) && old(open))
      ensures r.NotAuthenticated? ==>
                raw == [] && sock.written == old(sock.written) && open == old(open) && authenticated == old(authenticated)
      ensures r.CommandFailed? ==> !open && !authenticated
      ensures Consumed(old(sock.incoming), sock.incoming)
      ensures r.CommandFailed? && sock.failures == old(sock.failures) ==>
                && r.partial == Decode(old(negotiator.State()), raw).clean
                && EndedWithout(COMMAND_PROMPT, r.partial, old(sock.incoming), |old(sock.incoming)| - |sock.incoming|)
      ensures r.Output? ==>
                && open && authenticated
                && r.response == Decode(old(negotiator.State()), raw).clean
                && delivered == old(delivered) + r.response
                && Contains(r.response, COMMAND_PROMPT) && |r.response| <= MAX_RESPONSE
                && (sock.failures == old(sock.failures) ==>
                      sock.written == old(sock.written) + (command + CRLF) + Decode(old(negotiator.State()), raw).refusals)
    {
      hide Contains, Decode, Ascii, EndedWithout;
      raw := [];
      if !authenticated || !open {
        return NotAuthenticated, raw;
      }
      var sent := sock.SendAll(command + CRLF);
      if !sent {
        Close();
        return CommandFailed([]), raw;
      }
      ghost var script := sock.incoming;
      var read := RecvUntil(COMMAND_PROMPT, MAX_RESPONSE);
      raw := Received(script[..|script| - |sock.incoming|]);
      if read.Unfinished? {
        Ended(read, COMMAND_PROMPT, script, |script| - |sock.incoming|);
        Close();
        return CommandFailed(read.buffer), raw;
      }
      r := Output(read.buffer);
    }
  }

  lemma ReceivedNothing(script: seq<Turn>)
    ensures Received(script[..0]) == []
  {
  }

  lemma ReceivedStep(script: seq<Turn>, n: nat)
    requires 0 < n <= |script|
    ensures script[n - 1].Chunk? ==> Received(script[..n]) == Received(script[..n - 1]) + script[n - 1].bytes
    ensures !script[n - 1].Chunk? ==> Received(script[..n]) == Received(script[..n - 1])
  {
    assert script[..n][..n - 1] == script[..n - 1];
  }

  lemma StatesAdvance(seen: seq<Byte>, raw: seq<Byte>)
    ensures Decode(INITIAL, seen + raw).next == Decode(Decode(INITIAL, seen).next, raw).next
  {
    DecodeAppend(INITIAL, seen, raw);
  }
}
