/** Text handling the protocols share: last occurrences, decimal numbers, and lines ended by CR LF. */
module Texts {
  import opened Wrappers
  import opened Bytes

  predicate Ascii(text: string) {
    forall i | 0 <= i < |text| :: text[i] < '\U{0080}'
  }

  // ---------------------------------------------------------------------------
  // The last occurrence of a character: where rsplit(c, 1) cuts.

  function LastIndex(text: string, c: char): (r: Option<nat>)
    ensures r.Some? <==> c in text
    ensures r.Some? ==> r.value < |text| && text[r.value] == c && forall k | r.value < k < |text| :: text[k] != c
  {
    if text == "" then None
    else if text[|text| - 1] == c then Some(|text| - 1)
    else
      assert text == text[..|text| - 1] + [text[|text| - 1]];
      LastIndex(text[..|text| - 1], c)
  }

  lemma LastIndexIs(text: string, c: char, at: nat)
    requires at < |text| && text[at] == c && forall k | at < k < |text| :: text[k] != c
    ensures LastIndex(text, c) == Some(at)
  {
    hide LastIndex;
  }

  lemma CutAtLast(left: string, c: char, right: string)
    requires c !in right
    ensures LastIndex(left + [c] + right, c) == Some(|left|)
    ensures (left + [c] + right)[..|left|] == left && (left + [c] + right)[|left| + 1..] == right
  {
    hide LastIndex;
    var text := left + [c] + right;
    var tail := text[|left| + 1..];
    assert tail == right;
    forall k | |left| < k < |text| ensures text[k] != c {
      assert text[k] == tail[k - |left| - 1];
      assert tail[k - |left| - 1] in right;
    }
    LastIndexIs(text, c, |left|);
  }

  // ---------------------------------------------------------------------------
  // Decimal numbers.

  predicate IsDigit(c: char) {
    '0' <= c <= '9'
  }

  predicate Digits(text: string) {
    text != "" && forall i | 0 <= i < |text| :: IsDigit(text[i])
  }

  /** How an f-string prints a natural number. */
  function Decimal(n: nat): string {
    if n < 10 then ['0' + n as char] else Decimal(n / 10) + ['0' + (n % 10) as char]
  }

  /** int(): leading zeros are allowed. */
  function FromDecimal(text: string): nat
    requires Digits(text)
  {
    var last := (text[|text| - 1] - '0') as int;
    if |text| == 1 then last else 10 * FromDecimal(text[..|text| - 1]) + last
  }

  lemma {:induction false} DecimalRoundTrip(n: nat)
    ensures Digits(Decimal(n)) && FromDecimal(Decimal(n)) == n
  {
    if n >= 10 {
      DecimalRoundTrip(n / 10);
      assert Decimal(n)[..|Decimal(n)| - 1] == Decimal(n / 10);
    }
  }

  // ---------------------------------------------------------------------------
  // Lines.

  const CRLF := "\r\n"
  const BLANK := "\r\n\r\n"

  /** split("\r\n"). */
  function Split(text: string): (lines: seq<string>)
    ensures lines != []
  {
    SplitFrom("", text)
  }

  function SplitFrom(head: string, text: string): (lines: seq<string>)
    ensures lines != []
    decreases |text|
  {
    if text == "" then [head]
    else if CRLF <= text then [head] + SplitFrom("", text[2..])
    else SplitFrom(head + [text[0]], text[1..])
  }

  function Joined(lines: seq<string>): string
    requires lines != []
  {
    if |lines| == 1 then lines[0] else lines[0] + CRLF + Joined(lines[1..])
  }

  /** Splitting loses nothing. */
  lemma {:induction false} JoinSplit(head: string, text: string)
    ensures Joined(SplitFrom(head, text)) == head + text
    decreases |text|
  {
    if text == "" {
    } else if CRLF <= text {
      JoinSplit("", text[2..]);
      assert text == CRLF + text[2..];
      var rest := SplitFrom("", text[2..]);
      assert ([head] + rest)[1..] == rest;
    } else {
      JoinSplit(head + [text[0]], text[1..]);
      assert head + text == (head + [text[0]]) + text[1..];
    }
  }

  /** A line free of both line-end characters. */
  predicate Plain(line: string) {
    '\r' !in line && '\n' !in line
  }

  lemma {:induction false} SplitLine(head: string, line: string, rest: string)
    requires Plain(line)
    ensures SplitFrom(head, line + CRLF + rest) == [head + line] + Split(rest)
    decreases |line|
  {
    var text := line + CRLF + rest;
    if line == "" {
      assert text == CRLF + rest && text[2..] == rest && head + line == head;
    } else {
      assert text[0] == line[0] && text[1..] == line[1..] + CRLF + rest;
      assert !(CRLF <= text) by {
        assert CRLF[0] == '\r';
      }
      SplitLine(head + [line[0]], line[1..], rest);
      assert head + line == (head + [line[0]]) + line[1..];
    }
  }

  /** A message head: every line ended by CR LF, and an empty line at the end. */
  function Block(lines: seq<string>): string {
    if lines == [] then CRLF else lines[0] + CRLF + Block(lines[1..])
  }

  predicate PlainLines(lines: seq<string>) {
    forall i | 0 <= i < |lines| :: Plain(lines[i]) && lines[i] != ""
  }

  /** Splitting a whole head gives back its lines, and two empty ones for its end. */
  lemma {:induction false} SplitBlock(lines: seq<string>)
    requires PlainLines(lines)
    ensures Split(Block(lines)) == lines + ["", ""]
  {
    if lines == [] {
      assert CRLF[2..] == "";
    } else {
      SplitLine("", lines[0], Block(lines[1..]));
      SplitBlock(lines[1..]);
      assert "" + lines[0] == lines[0];
    }
  }

  /** The head without the empty line that ends it. */
  lemma {:induction false} SplitTrimmed(lines: seq<string>)
    requires PlainLines(lines) && lines != []
    ensures |Block(lines)| >= 4 && Split(Block(lines)[..|Block(lines)| - 4]) == lines
  {
    var text := Block(lines);
    if |lines| == 1 {
      assert lines[1..] == [];
      assert text == lines[0] + CRLF + CRLF;
      assert text[..|text| - 4] == lines[0];
      SplitPlain("", lines[0]);
    } else {
      SplitTrimmed(lines[1..]);
      var rest := Block(lines[1..]);
      assert text == lines[0] + CRLF + rest;
      assert text[..|text| - 4] == lines[0] + CRLF + rest[..|rest| - 4];
      SplitLine("", lines[0], rest[..|rest| - 4]);
      assert "" + lines[0] == lines[0];
    }
  }

  lemma {:induction false} SplitPlain(head: string, line: string)
    requires Plain(line)
    ensures SplitFrom(head, line) == [head + line]
    decreases |line|
  {
    if line == "" {
      assert head + line == head;
    } else {
      assert !(CRLF <= line) by {
        assert CRLF[0] == '\r';
      }
      SplitPlain(head + [line[0]], line[1..]);
      assert head + line == (head + [line[0]]) + line[1..];
    }
  }

  /** The marker occurs in a head only at its end. */
  lemma {:induction false} BlankOnlyAtEnd(lines: seq<string>, p: nat)
    requires PlainLines(lines) && lines != [] && p + 4 <= |Block(lines)| && Block(lines)[p..p + 4] == BLANK
    ensures p + 4 == |Block(lines)|
  {
    var line, rest, text := lines[0], Block(lines[1..]), Block(lines);
    assert text == line + CRLF + rest;
    assert text[p] == '\r' && text[p + 1] == '\n' && text[p + 2] == '\r' by {
      var m := text[p..p + 4];
      assert m[0] == text[p] && m[1] == text[p + 1] && m[2] == text[p + 2];
    }
    if |lines| == 1 {
      assert rest == CRLF;
    } else {
      assert lines[1..][0] == lines[1] && rest[0] == lines[1][0];
      if p >= |line| + 2 {
        var q := p - |line| - 2;
        assert rest[q..q + 4] == text[p..p + 4];
        BlankOnlyAtEnd(lines[1..], q);
      }
    }
  }
}
