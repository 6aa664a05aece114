/** Base64 of RFC 4648: the standard padded form and the URL-safe unpadded one. */
module Base64 {
  import opened Wrappers
  import opened Bytes

  type Sextet = x: int | 0 <= x < 64

  // ---------------------------------------------------------------------------
  // Groups of 24 bits (section 4): three bytes are four sextets.

  /** The number a sequence of digits writes in a base. */
  function Number(digits: seq<int>, base: int): int {
    if digits == [] then 0 else Number(digits[..|digits| - 1], base) * base + digits[|digits| - 1]
  }

  /** Eight bits of a and so on, laid out as six-bit pieces. */
  function Quad(a: Byte, b: Byte, c: Byte): (q: seq<Sextet>)
    ensures |q| == 4
  {
    [a / 4, a % 4 * 16 + b / 16, b % 16 * 4 + c / 64, c % 64]
  }

  function Triple(w: Sextet, x: Sextet, y: Sextet, z: Sextet): (t: seq<Byte>)
    ensures |t| == 3
  {
    [w * 4 + x / 16, x % 16 * 16 + y / 4, y % 4 * 64 + z]
  }

  lemma NumberOf(digits: seq<int>, last: int, base: int)
    ensures Number(digits + [last], base) == Number(digits, base) * base + last
  {
    assert (digits + [last])[..|digits|] == digits;
  }

  lemma NumberOfBytes(a: int, b: int, c: int)
    ensures Number([a, b, c], 256) == 65536 * a + 256 * b + c
  {
    NumberOf([], a, 256);
    NumberOf([a], b, 256);
    NumberOf([a, b], c, 256);
    assert [] + [a] == [a] && [a] + [b] == [a, b] && [a, b] + [c] == [a, b, c];
  }

  lemma NumberOfSextets(w: int, x: int, y: int, z: int)
    ensures Number([w, x, y, z], 64) == 262144 * w + 4096 * x + 64 * y + z
  {
    NumberOf([], w, 64);
    NumberOf([w], x, 64);
    NumberOf([w, x], y, 64);
    NumberOf([w, x, y], z, 64);
    assert [] + [w] == [w] && [w] + [x] == [w, x] && [w, x] + [y] == [w, x, y] && [w, x, y] + [z] == [w, x, y, z];
  }

  /** Both are the same 24-bit number, most significant piece first. */
  lemma QuadIsTheGroup(a: Byte, b: Byte, c: Byte)
    ensures Number(Quad(a, b, c), 64) == Number([a, b, c], 256)
  {
    hide Number;
    var q := Quad(a, b, c);
    NumberOfSextets(q[0], q[1], q[2], q[3]);
    NumberOfBytes(a, b, c);
  }

  lemma TripleIsTheGroup(w: Sextet, x: Sextet, y: Sextet, z: Sextet)
    ensures Number(Triple(w, x, y, z), 256) == Number([w, x, y, z], 64)
  {
    hide Number;
    var t := Triple(w, x, y, z);
    NumberOfBytes(t[0], t[1], t[2]);
    NumberOfSextets(w, x, y, z);
  }

  /** Splitting a group into sextets and joining them again changes nothing, in either direction. */
  lemma GroupRoundTrip(a: Byte, b: Byte, c: Byte)
    ensures var q := Quad(a, b, c); Triple(q[0], q[1], q[2], q[3]) == [a, b, c]
  {
    var q := Quad(a, b, c);
    var t := Triple(q[0], q[1], q[2], q[3]);
    assert t[0] == a && t[1] == b && t[2] == c;
  }

  lemma SextetRoundTrip(w: Sextet, x: Sextet, y: Sextet, z: Sextet)
    ensures var t := Triple(w, x, y, z); Quad(t[0], t[1], t[2]) == [w, x, y, z]
  {
    var t := Triple(w, x, y, z);
    var q := Quad(t[0], t[1], t[2]);
    assert q[0] == w && q[1] == x && q[2] == y && q[3] == z;
  }

  /** The sextets of a byte string; a last group of one or two bytes is filled with zero bits. */
  function ToSextets(b: seq<Byte>): seq<Sextet> {
    if b == [] then []
    else if |b| == 1 then Quad(b[0], 0, 0)[..2]
    else if |b| == 2 then Quad(b[0], b[1], 0)[..3]
    else Quad(b[0], b[1], b[2]) + ToSextets(b[3..])
  }

  /** What a lenient decoder makes of sextets: the unused low bits of a last partial group are dropped. */
  function FromSextets(s: seq<Sextet>): seq<Byte>
    requires |s| % 4 != 1
  {
    if s == [] then []
    else if |s| == 2 then Triple(s[0], s[1], 0, 0)[..1]
    else if |s| == 3 then Triple(s[0], s[1], s[2], 0)[..2]
    else Triple(s[0], s[1], s[2], s[3]) + FromSextets(s[4..])
  }

  /** The unused low bits of a last partial group are zero. */
  predicate TrailingBitsZero(s: seq<Sextet>) {
    && (|s| % 4 == 2 ==> s[|s| - 1] % 16 == 0)
    && (|s| % 4 == 3 ==> s[|s| - 1] % 4 == 0)
  }

  lemma {:induction false} ToSextetsShape(b: seq<Byte>)
    ensures |ToSextets(b)| == 4 * (|b| / 3) + (if |b| % 3 == 0 then 0 else |b| % 3 + 1)
    ensures |ToSextets(b)| % 4 == (if |b| % 3 == 0 then 0 else |b| % 3 + 1)
  {
    hide Quad;
    if |b| > 2 {
      ToSextetsShape(b[3..]);
      assert |b[3..]| / 3 == |b| / 3 - 1;
    }
  }

  lemma {:induction false} FromTo(b: seq<Byte>)
    ensures |ToSextets(b)| % 4 != 1 && FromSextets(ToSextets(b)) == b
  {
    ToSextetsShape(b);
    if |b| == 1 {
      GroupRoundTrip(b[0], 0, 0);
    } else if |b| == 2 {
      GroupRoundTrip(b[0], b[1], 0);
    } else if |b| > 2 {
      ToSextetsShape(b[3..]);
      GroupRoundTrip(b[0], b[1], b[2]);
      FromTo(b[3..]);
      assert ToSextets(b)[4..] == ToSextets(b[3..]);
      assert b == [b[0], b[1], b[2]] + b[3..];
    }
  }

  /** Decoding and encoding again restores sextets exactly when they have no stray trailing bits. */
  lemma {:induction false} ToFrom(s: seq<Sextet>)
    requires |s| % 4 != 1
    ensures |ToSextets(FromSextets(s))| == |s|
    ensures s != [] ==> ToSextets(FromSextets(s))[..|s| - 1] == s[..|s| - 1]
    ensures ToSextets(FromSextets(s)) == s <==> TrailingBitsZero(s)
  {
    hide ToSextets, FromSextets, TrailingBitsZero;
    if s == [] {
      NothingLeft();
    } else if |s| < 4 {
      PartialToFrom(s);
    } else {
      ToFrom(s[4..]);
      WholeGroup(s);
      assert s == s[..4] + s[4..];
      FrontGroup(s[..4], s[4..], ToSextets(FromSextets(s[4..])));
    }
  }

  lemma NothingLeft()
    ensures ToSextets(FromSextets([])) == [] && TrailingBitsZero([])
  {
  }

  lemma PartialToFrom(s: seq<Sextet>)
    requires |s| == 2 || |s| == 3
    ensures |ToSextets(FromSextets(s))| == |s|
    ensures ToSextets(FromSextets(s))[..|s| - 1] == s[..|s| - 1]
    ensures ToSextets(FromSextets(s)) == s <==> TrailingBitsZero(s)
  {
    if |s| == 2 {
      assert s == [s[0], s[1]];
      PartialGroup2(s[0], s[1]);
    } else {
      assert s == [s[0], s[1], s[2]];
      PartialGroup3(s[0], s[1], s[2]);
    }
    hide ToSextets, FromSextets;
  }

  /** Putting a whole group in front changes neither how far two sextet strings agree nor their last bits. */
  lemma FrontGroup(head: seq<Sextet>, s: seq<Sextet>, t: seq<Sextet>)
    requires |head| == 4 && |t| == |s| && (s != [] ==> t[..|s| - 1] == s[..|s| - 1])
    ensures (head + t)[..|s| + 3] == (head + s)[..|s| + 3]
    ensures head + t == head + s <==> t == s
    ensures |s| % 4 != 1 ==> (TrailingBitsZero(head + s) <==> TrailingBitsZero(s))
  {
    if head + t == head + s {
      assert t == (head + t)[4..] && s == (head + s)[4..];
    }
    if s != [] {
      assert head + t == head + t[..|s| - 1] + [t[|s| - 1]];
      assert head + s == head + s[..|s| - 1] + [s[|s| - 1]];
    }
  }

  lemma WholeGroup(s: seq<Sextet>)
    requires |s| >= 4 && |s| % 4 != 1
    ensures |s[4..]| % 4 != 1 && ToSextets(FromSextets(s)) == s[..4] + ToSextets(FromSextets(s[4..]))
  {
    SextetRoundTrip(s[0], s[1], s[2], s[3]);
    hide Quad, Triple;
    assert FromSextets(s)[3..] == FromSextets(s[4..]);
    assert s[..4] == [s[0], s[1], s[2], s[3]];
  }

  lemma PartialGroup2(w: Sextet, x: Sextet)
    ensures ToSextets(FromSextets([w, x])) == [w, x / 16 * 16]
  {
    SextetRoundTrip(w, x, 0, 0);
  }

  lemma PartialGroup3(w: Sextet, x: Sextet, y: Sextet)
    ensures ToSextets(FromSextets([w, x, y])) == [w, x, y / 4 * 4]
  {
    SextetRoundTrip(w, x, y, 0);
  }

  // ---------------------------------------------------------------------------
  // The sextets and the bytes write one number.

  function Power(base: nat, n: nat): nat {
    if n == 0 then 1 else base * Power(base, n - 1)
  }

  lemma {:induction false} NumberAppend(a: seq<int>, b: seq<int>, base: nat)
    ensures Number(a + b, base) == Number(a, base) * Power(base, |b|) + Number(b, base)
    decreases |b|
  {
    if b == [] {
      assert a + b == a;
    } else {
      var init, last := b[..|b| - 1], b[|b| - 1];
      assert a + b == (a + init) + [last] && b == init + [last];
      NumberAppend(a, init, base);
      NumberOf(a + init, last, base);
      NumberOf(init, last, base);
      Distribute(Number(a, base), Power(base, |init|), Number(init, base), base, last);
    }
  }

  lemma Distribute(x: int, p: int, y: int, base: int, last: int)
    ensures (x * p + y) * base + last == x * (base * p) + (y * base + last)
  {
  }

  /** The zero bits that fill a last group, as a factor: four after one byte, two after two. */
  function Filling(b: seq<Byte>): nat {
    if |b| % 3 == 1 then 16 else if |b| % 3 == 2 then 4 else 1
  }

  lemma {:induction false} SamePowers(b: seq<Byte>)
    ensures Power(64, |ToSextets(b)|) == Power(256, |b|) * Filling(b)
  {
    ToSextetsShape(b);
    if |b| == 1 {
      assert Power(64, 1) == 64 && Power(64, 2) == 4096 && Power(256, 1) == 256;
    } else if |b| == 2 {
      assert Power(64, 1) == 64 && Power(64, 2) == 4096 && Power(64, 3) == 262144;
      assert Power(256, 1) == 256 && Power(256, 2) == 65536;
    } else if |b| > 2 {
      SamePowers(b[3..]);
      var n, m := |ToSextets(b[3..])|, |b[3..]|;
      FourSextets(n);
      ThreeBytes(m);
      assert |ToSextets(b)| == n + 4 && |b| == m + 3;
    }
  }

  lemma FourSextets(n: nat)
    ensures Power(64, n + 4) == 16777216 * Power(64, n)
  {
    assert Power(64, n + 2) == 64 * Power(64, n + 1);
    assert Power(64, n + 3) == 64 * Power(64, n + 2);
  }

  lemma ThreeBytes(m: nat)
    ensures Power(256, m + 3) == 16777216 * Power(256, m)
  {
    assert Power(256, m + 2) == 256 * Power(256, m + 1);
  }

  /** The bytes, most significant first, and their sextets are the same number but for the zero bits of the last group. */
  lemma {:induction false} SameNumber(b: seq<Byte>)
    ensures Number(ToSextets(b), 64) == Number(b, 256) * Filling(b)
  {
    if |b| == 1 {
      PartialNumber1(b[0]);
      assert b == [b[0]];
    } else if |b| == 2 {
      PartialNumber2(b[0], b[1]);
      assert b == [b[0], b[1]];
    } else if |b| > 2 {
      SameNumber(b[3..]);
      SamePowers(b[3..]);
      OneGroupMore(b);
    }
  }

  /** A product that the proof below does not multiply out. */
  function Times(x: int, y: int): int {
    x * y
  }

  lemma OneGroupMore(b: seq<Byte>)
    requires |b| > 2
    requires Number(ToSextets(b[3..]), 64) == Times(Number(b[3..], 256), Filling(b[3..]))
    requires Power(64, |ToSextets(b[3..])|) == Times(Power(256, |b[3..]|), Filling(b[3..]))
    ensures Number(ToSextets(b), 64) == Times(Number(b, 256), Filling(b))
  {
    assert ToSextets(b) == Quad(b[0], b[1], b[2]) + ToSextets(b[3..]);
    hide *;
    var group, rest := [b[0], b[1], b[2]], b[3..];
    QuadIsTheGroup(b[0], b[1], b[2]);
    NumberJoined(Quad(b[0], b[1], b[2]), ToSextets(rest), 64);
    NumberJoined(group, rest, 256);
    SameFilling(b);
    assert b == group + rest;
    Factor(Number(group, 256), Power(64, |ToSextets(rest)|), Number(ToSextets(rest), 64), Power(256, |rest|), Number(rest, 256),
           Filling(rest));
  }

  lemma NumberJoined(a: seq<int>, b: seq<int>, base: nat)
    ensures Number(a + b, base) == Times(Number(a, base), Power(base, |b|)) + Number(b, base)
  {
    NumberAppend(a, b, base);
  }

  lemma SameFilling(b: seq<Byte>)
    requires |b| > 2
    ensures Filling(b[3..]) == Filling(b)
  {
  }

  lemma Factor(x: int, p: int, n: int, q: int, m: int, f: int)
    requires p == Times(q, f) && n == Times(m, f)
    ensures Times(x, p) + n == Times(Times(x, q) + m, f)
  {
  }

  lemma PartialNumber1(a: Byte)
    ensures Number(Quad(a, 0, 0)[..2], 64) == Number([a], 256) * 16
  {
    var q := Quad(a, 0, 0)[..2];
    assert q == [a / 4, a % 4 * 16];
    NumberOf([], a / 4, 64);
    NumberOf([a / 4], a % 4 * 16, 64);
    NumberOf([], a, 256);
    assert [] + [a / 4] == [a / 4] && [a / 4] + [a % 4 * 16] == q && [] + [a] == [a];
  }

  lemma PartialNumber2(a: Byte, b: Byte)
    ensures Number(Quad(a, b, 0)[..3], 64) == Number([a, b], 256) * 4
  {
    var x, y, z := a / 4, a % 4 * 16 + b / 16, b % 16 * 4;
    var q := Quad(a, b, 0)[..3];
    assert q == [x, y, z];
    NumberOf([], x, 64);
    NumberOf([x], y, 64);
    NumberOf([x, y], z, 64);
    NumberOf([], a, 256);
    NumberOf([a], b, 256);
    assert [] + [x] == [x] && [x] + [y] == [x, y] && [x, y] + [z] == q && [] + [a] == [a] && [a] + [b] == [a, b];
  }

  // ---------------------------------------------------------------------------
  // Alphabets (tables 1 and 2).

  datatype Alphabet = Standard | UrlSafe

  function Digit(alphabet: Alphabet, k: Sextet): char {
    if k < 26 then 'A' + k as char
    else if k < 52 then 'a' + (k - 26) as char
    else if k < 62 then '0' + (k - 52) as char
    else if k == 62 then (if alphabet.Standard? then '+' else '-')
    else (if alphabet.Standard? then '/' else '_')
  }

  function Value(alphabet: Alphabet, c: char): Option<Sextet> {
    if 'A' <= c <= 'Z' then Some((c - 'A') as int)
    else if 'a' <= c <= 'z' then Some((c - 'a') as int + 26)
    else if '0' <= c <= '9' then Some((c - '0') as int + 52)
    else if c == (if alphabet.Standard? then '+' else '-') then Some(62)
    else if c == (if alphabet.Standard? then '/' else '_') then Some(63)
    else None
  }

  /** The alphabets of sections 4 and 5. */
  lemma DigitsOfTheAlphabet(alphabet: Alphabet, k: Sextet)
    ensures k < 26 ==> Digit(alphabet, k) == "ABCDEFGHIJKLMNOPQRSTUVWXYZ"[k]
    ensures 26 <= k < 52 ==> Digit(alphabet, k) == "abcdefghijklmnopqrstuvwxyz"[k - 26]
    ensures 52 <= k < 62 ==> Digit(alphabet, k) == "0123456789"[k - 52]
    ensures k >= 62 ==> Digit(alphabet, k) == (if alphabet == Standard then "+/" else "-_")[k - 62]
  {
  }

  lemma DigitRoundTrip(alphabet: Alphabet, k: Sextet)
    ensures Value(alphabet, Digit(alphabet, k)) == Some(k)
    ensures Digit(alphabet, k) != '=' && Digit(alphabet, k) != '.' && ' ' < Digit(alphabet, k) <= 'z'
  {
  }

  lemma ValueRoundTrip(alphabet: Alphabet, c: char)
    requires Value(alphabet, c).Some?
    ensures Digit(alphabet, Value(alphabet, c).value) == c
  {
  }

  function Text(alphabet: Alphabet, s: seq<Sextet>): string {
    seq(|s|, i requires 0 <= i < |s| => Digit(alphabet, s[i]))
  }

  predicate InAlphabet(alphabet: Alphabet, text: string) {
    forall i | 0 <= i < |text| :: Value(alphabet, text[i]).Some?
  }

  function Sextets(alphabet: Alphabet, text: string): seq<Sextet>
    requires InAlphabet(alphabet, text)
  {
    seq(|text|, i requires 0 <= i < |text| => Value(alphabet, text[i]).value)
  }

  lemma TextRoundTrip(alphabet: Alphabet, s: seq<Sextet>)
    ensures InAlphabet(alphabet, Text(alphabet, s)) && Sextets(alphabet, Text(alphabet, s)) == s
    ensures '=' !in Text(alphabet, s) && '.' !in Text(alphabet, s)
  {
    forall i | 0 <= i < |s|
      ensures Value(alphabet, Text(alphabet, s)[i]) == Some(s[i]) && Text(alphabet, s)[i] != '=' && Text(alphabet, s)[i] != '.'
    {
      DigitRoundTrip(alphabet, s[i]);
    }
  }

  lemma SextetsRoundTrip(alphabet: Alphabet, text: string)
    requires InAlphabet(alphabet, text)
    ensures Text(alphabet, Sextets(alphabet, text)) == text
    ensures '=' !in text && '.' !in text
  {
    forall i | 0 <= i < |text| ensures Text(alphabet, Sextets(alphabet, text))[i] == text[i] {
      ValueRoundTrip(alphabet, text[i]);
    }
  }

  // ---------------------------------------------------------------------------
  // Padded encoding, and the unpadded one the service uses.

  function Pads(n: nat): string
    ensures |Pads(n)| == n && forall i | 0 <= i < n :: Pads(n)[i] == '='
  {
    seq(n, _ => '=')
  }

  /** b64encode and urlsafe_b64encode. */
  function Padded(alphabet: Alphabet, b: seq<Byte>): string {
    var s := ToSextets(b);
    Text(alphabet, s) + Pads((-|s|) % 4)
  }

  /** rstrip(b"="). */
  function StripPads(text: string): string {
    if text != "" && text[|text| - 1] == '=' then StripPads(text[..|text| - 1]) else text
  }

  /** _b64url. */
  function Encode(b: seq<Byte>): string {
    StripPads(Padded(UrlSafe, b))
  }

  /** _decode_b64url: refuses the empty text, foreign characters and a lone last character. */
  function Decode(text: string): Option<seq<Byte>> {
    if text == "" || !InAlphabet(UrlSafe, text) || |text| % 4 == 1 then None
    else Some(FromSextets(Sextets(UrlSafe, text)))
  }

  lemma {:induction false} StripPadsOf(text: string, n: nat)
    requires '=' !in text
    ensures StripPads(text + Pads(n)) == text
  {
    if n == 0 {
      assert text + Pads(0) == text;
    } else {
      assert (text + Pads(n))[..|text| + n - 1] == text + Pads(n - 1);
      StripPadsOf(text, n - 1);
    }
  }

  lemma EncodeIsText(b: seq<Byte>)
    ensures Encode(b) == Text(UrlSafe, ToSextets(b))
    ensures '.' !in Encode(b)
  {
    TextRoundTrip(UrlSafe, ToSextets(b));
    StripPadsOf(Text(UrlSafe, ToSextets(b)), (-|ToSextets(b)|) % 4);
  }

  /** Every nonempty byte string survives; the empty one is the only one that cannot be decoded again. */
  lemma DecodeEncode(b: seq<Byte>)
    ensures Decode(Encode(b)) == if b == [] then None else Some(b)
  {
    EncodeIsText(b);
    TextRoundTrip(UrlSafe, ToSextets(b));
    FromTo(b);
    ToSextetsShape(b);
  }

  /** A text that decodes is the encoding of its bytes but for stray bits in its last character. */
  lemma EncodeDecode(text: string)
    requires Decode(text).Some?
    ensures var again := Encode(Decode(text).value);
            && |again| == |text| && again[..|text| - 1] == text[..|text| - 1]
            && (again == text <==> TrailingBitsZero(Sextets(UrlSafe, text)))
  {
    var s := Sextets(UrlSafe, text);
    var b := Decode(text).value;
    EncodeIsText(b);
    ToFrom(s);
    SextetsRoundTrip(UrlSafe, text);
    var t := ToSextets(b);
    forall i | 0 <= i < |text| - 1 ensures Encode(b)[i] == text[i] {
      assert t[i] == t[..|s| - 1][i] == s[..|s| - 1][i] == s[i];
      assert Text(UrlSafe, s)[i] == text[i];
    }
    if Encode(b) == text {
      TextRoundTrip(UrlSafe, t);
    }
  }

  /** The sextets of a byte string with one stray bit set in a last partial group. */
  function Stray(b: seq<Byte>): (s: seq<Sextet>)
    requires |b| % 3 != 0
    ensures |s| > 0 && |s| % 4 != 1
  {
    ToSextetsShape(b);
    LastHasRoom(b);
    var s := ToSextets(b);
    s[|s| - 1 := s[|s| - 1] + 1]
  }

  lemma {:induction false} LastHasRoom(b: seq<Byte>)
    requires |b| % 3 != 0
    ensures var s := ToSextets(b); s != [] && s[|s| - 1] < 63
  {
    if |b| > 2 {
      LastHasRoom(b[3..]);
    }
  }

  /** The decoder drops that bit. */
  lemma {:induction false} StrayDecodes(b: seq<Byte>)
    requires |b| % 3 != 0
    ensures FromSextets(Stray(b)) == b
  {
    ToSextetsShape(b);
    LastHasRoom(b);
    if |b| > 2 {
      var rest := b[3..];
      ToSextetsShape(rest);
      LastHasRoom(rest);
      StrayDecodes(rest);
      GroupRoundTrip(b[0], b[1], b[2]);
      StrayFront(b);
      hide Quad, Triple;
      assert Stray(b)[4..] == Stray(rest);
      assert b == [b[0], b[1], b[2]] + rest;
    }
  }

  lemma StrayFront(b: seq<Byte>)
    requires |b| % 3 != 0 && |b| > 3
    ensures |b[3..]| % 3 != 0 && Stray(b) == Quad(b[0], b[1], b[2]) + Stray(b[3..])
  {
    hide Quad;
    ToSextetsShape(b[3..]);
    LastHasRoom(b[3..]);
  }

  /** A byte string that does not fill its last group has a second text that decodes to it. */
  lemma SecondText(b: seq<Byte>) returns (text: string)
    requires |b| % 3 != 0
    ensures Decode(text) == Some(b) && text != Encode(b) && '.' !in text
  {
    text := Text(UrlSafe, Stray(b));
    TextRoundTrip(UrlSafe, Stray(b));
    TextRoundTrip(UrlSafe, ToSextets(b));
    EncodeIsText(b);
    StrayDecodes(b);
    StrayDiffers(b);
    hide FromSextets, ToSextets, Stray;
  }

  lemma StrayDiffers(b: seq<Byte>)
    requires |b| % 3 != 0
    ensures Stray(b) != ToSextets(b)
  {
    LastHasRoom(b);
  }

  /** The padded encoding loses nothing: its text without pads determines the bytes. */
  lemma PaddedInjective(alphabet: Alphabet, a: seq<Byte>, b: seq<Byte>)
    requires Padded(alphabet, a) == Padded(alphabet, b)
    ensures a == b
  {
    PaddedDecodes(alphabet, a);
    PaddedDecodes(alphabet, b);
  }

  lemma PaddedDecodes(alphabet: Alphabet, b: seq<Byte>)
    ensures var text := StripPads(Padded(alphabet, b));
            InAlphabet(alphabet, text) && |text| % 4 != 1 && FromSextets(Sextets(alphabet, text)) == b
  {
    hide ToSextets, FromSextets, Value, Digit;
    var s := ToSextets(b);
    TextRoundTrip(alphabet, s);
    StripPadsOf(Text(alphabet, s), (-|s|) % 4);
    FromTo(b);
  }

  /** Padding completes the last group, with no, one or two pads. */
  lemma PaddedLength(alphabet: Alphabet, b: seq<Byte>)
    ensures |Padded(alphabet, b)| == (|b| + 2) / 3 * 4
  {
    ToSextetsShape(b);
  }
}
