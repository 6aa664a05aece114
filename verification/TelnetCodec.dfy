/** The five-state IAC decoder of the "TELNET COMMAND STRUCTURE" section of RFC 854, which refuses every option. */
module TelnetCodec {
  import opened Bytes

  const IAC: Byte := 255
  const DONT: Byte := 254
  const DO: Byte := 253
  const WONT: Byte := 252
  const WILL: Byte := 251
  const SB: Byte := 250
  const SE: Byte := 240

  datatype Phase = Normal | GotIac | GotVerb | GotSb | GotSbIac

  datatype Decoder = Decoder(phase: Phase, pendingVerb: Byte)

  /** What feeding bytes does: the state afterwards, the clean bytes returned and the refusals sent. */
  datatype Effect = Effect(next: Decoder, clean: seq<Byte>, refusals: seq<Byte>)

  const INITIAL := Decoder(Normal, 0)

  predicate IsVerb(b: Byte) {
    b == DO || b == DONT || b == WILL || b == WONT
  }

  /** The answer to one option request; DONT and WONT get none. */
  function Refusal(verb: Byte, option: Byte): seq<Byte> {
    if verb == DO then [IAC, WONT, option]
    else if verb == WILL then [IAC, DONT, option]
    else []
  }

  function Advance(d: Decoder, b: Byte): Effect {
    match d.phase
    case Normal => if b == IAC then Effect(d.(phase := GotIac), [], []) else Effect(d, [b], [])
    case GotIac =>
      if b == IAC then Effect(d.(phase := Normal), [IAC], [])
      else if IsVerb(b) then Effect(Decoder(GotVerb, b), [], [])
      else if b == SB then Effect(d.(phase := GotSb), [], [])
      else Effect(d.(phase := Normal), [], [])
    case GotVerb => Effect(d.(phase := Normal), [], Refusal(d.pendingVerb, b))
    case GotSb => if b == IAC then Effect(d.(phase := GotSbIac), [], []) else Effect(d, [], [])
    case GotSbIac => Effect(d.(phase := if b == SE then Normal else GotSb), [], [])
  }

  function Decode(d: Decoder, wire: seq<Byte>): Effect
    decreases |wire|
  {
    if wire == [] then Effect(d, [], [])
    else
      var first := Advance(d, wire[0]);
      var rest := Decode(first.next, wire[1..]);
      Effect(rest.next, first.clean + rest.clean, first.refusals + rest.refusals)
  }

  // ---------------------------------------------------------------------------
  // Fragmentation.

  lemma {:induction false} DecodeAppend(d: Decoder, a: seq<Byte>, b: seq<Byte>)
    ensures var first := Decode(d, a);
            var second := Decode(first.next, b);
            Decode(d, a + b) == Effect(second.next, first.clean + second.clean, first.refusals + second.refusals)
    decreases |a|
  {
    hide Advance;
    if a == [] {
      assert a + b == b;
    } else {
      assert (a + b)[1..] == a[1..] + b;
      DecodeAppend(Advance(d, a[0]).next, a[1..], b);
    }
  }

  /** Feeding chunk after chunk. */
  function DecodeChunks(d: Decoder, chunks: seq<seq<Byte>>): Effect
    decreases |chunks|
  {
    if chunks == [] then Effect(d, [], [])
    else
      var first := Decode(d, chunks[0]);
      var rest := DecodeChunks(first.next, chunks[1..]);
      Effect(rest.next, first.clean + rest.clean, first.refusals + rest.refusals)
  }

  /** However the wire is fragmented, output, refusals and final state are those of a single feed. */
  lemma {:induction false} FragmentationIrrelevant(d: Decoder, chunks: seq<seq<Byte>>)
    ensures DecodeChunks(d, chunks) == Decode(d, Flatten(chunks))
    decreases |chunks|
  {
    if chunks != [] {
      FragmentationIrrelevant(Decode(d, chunks[0]).next, chunks[1..]);
      DecodeAppend(d, chunks[0], Flatten(chunks[1..]));
    }
  }

  // ---------------------------------------------------------------------------
  // Printing a Telnet stream. The numbers are those RFC 854 assigns; the decoder's names for them are not used here.

  /** What stands between the start and the end of a subnegotiation: a byte, or 255 with any byte but the closing 240. */
  datatype Piece = Plain(byte: Byte) | Pair(byte: Byte)

  /** The items of a well-formed stream; a command's code is none of the codes with a meaning of their own. */
  datatype Item =
    | Data(bytes: seq<Byte>)
    | Request(verb: Byte, option: Byte)
    | Subnegotiation(pieces: seq<Piece>)
    | Command(code: Byte)

  predicate WellPiece(piece: Piece) {
    match piece
    case Plain(b) => b != 255
    case Pair(b) => b != 240
  }

  predicate WellFormed(item: Item) {
    match item
    case Data(_) => true
    case Request(verb, _) => 251 <= verb <= 254
    case Subnegotiation(pieces) => forall i | 0 <= i < |pieces| :: WellPiece(pieces[i])
    case Command(code) => code < 250
  }

  /** Doubles every 255. */
  function Escaped(bytes: seq<Byte>): seq<Byte> {
    if bytes == [] then []
    else (if bytes[0] == 255 then [255, 255] else [bytes[0]]) + Escaped(bytes[1..])
  }

  function PrintPiece(piece: Piece): seq<Byte> {
    match piece
    case Plain(b) => [b]
    case Pair(b) => [255, b]
  }

  function PrintPieces(pieces: seq<Piece>): seq<Byte> {
    if pieces == [] then [] else PrintPieces(pieces[..|pieces| - 1]) + PrintPiece(pieces[|pieces| - 1])
  }

  function Print(item: Item): seq<Byte> {
    match item
    case Data(bytes) => Escaped(bytes)
    case Request(verb, option) => [255, verb, option]
    case Subnegotiation(pieces) => [255, 250] + PrintPieces(pieces) + [255, 240]
    case Command(code) => [255, code]
  }

  function PrintAll(items: seq<Item>): seq<Byte> {
    if items == [] then [] else Print(items[0]) + PrintAll(items[1..])
  }

  function ItemData(item: Item): seq<Byte> {
    if item.Data? then item.bytes else []
  }

  /** DO (253) is answered by WONT (252), WILL (251) by DONT (254), and nothing else by anything. */
  function ItemAnswer(item: Item): seq<Byte> {
    if item.Request? && item.verb == 253 then [255, 252, item.option]
    else if item.Request? && item.verb == 251 then [255, 254, item.option]
    else []
  }

  /** The data bytes of a stream, in order. */
  function DataOf(items: seq<Item>): seq<Byte> {
    if items == [] then [] else ItemData(items[0]) + DataOf(items[1..])
  }

  /** One answer for each DO and each WILL, in order. */
  function AnswersOf(items: seq<Item>): seq<Byte> {
    if items == [] then [] else ItemAnswer(items[0]) + AnswersOf(items[1..])
  }

  lemma {:induction false} DecodeEscapedData(verb: Byte, bytes: seq<Byte>)
    ensures Decode(Decoder(Normal, verb), Escaped(bytes)) == Effect(Decoder(Normal, verb), bytes, [])
  {
    if bytes != [] {
      var head := if bytes[0] == 255 then [255, 255] else [bytes[0]];
      DecodeAppend(Decoder(Normal, verb), head, Escaped(bytes[1..]));
      Decode2(Decoder(Normal, verb), 255, 255);
      DecodeOne(Decoder(Normal, verb), bytes[0]);
      DecodeEscapedData(verb, bytes[1..]);
    }
  }

  lemma {:induction false} DecodePieces(verb: Byte, pieces: seq<Piece>)
    requires forall i | 0 <= i < |pieces| :: WellPiece(pieces[i])
    ensures Decode(Decoder(GotSb, verb), PrintPieces(pieces)) == Effect(Decoder(GotSb, verb), [], [])
    decreases |pieces|
  {
    if pieces != [] {
      var init, last := pieces[..|pieces| - 1], pieces[|pieces| - 1];
      DecodePieces(verb, init);
      DecodeAppend(Decoder(GotSb, verb), PrintPieces(init), PrintPiece(last));
      DecodePiece(verb, last);
    }
  }

  lemma DecodePiece(verb: Byte, piece: Piece)
    requires WellPiece(piece)
    ensures Decode(Decoder(GotSb, verb), PrintPiece(piece)) == Effect(Decoder(GotSb, verb), [], [])
  {
    Decode2(Decoder(GotSb, verb), 255, piece.byte);
    DecodeOne(Decoder(GotSb, verb), piece.byte);
  }

  lemma DecodeNothing(d: Decoder)
    ensures Decode(d, []) == Effect(d, [], [])
  {
  }

  lemma DecodeOne(d: Decoder, b: Byte)
    ensures Decode(d, [b]) == Advance(d, b)
  {
    assert [b][1..] == [];
  }

  lemma Decode2(d: Decoder, a: Byte, b: Byte)
    ensures var first := Advance(d, a);
            var second := Advance(first.next, b);
            Decode(d, [a, b]) == Effect(second.next, first.clean + second.clean, first.refusals + second.refusals)
  {
    assert [a, b][1..] == [b] && [b][1..] == [];
    assert Decode(Advance(d, a).next, [b]) == Advance(Advance(d, a).next, b);
  }

  /** One printed item: its data comes out, its answer goes back, and the decoder is between items again. */
  lemma DecodeItem(verb: Byte, item: Item)
    requires WellFormed(item)
    ensures var e := Decode(Decoder(Normal, verb), Print(item));
            && e.next.phase.Normal? && e.clean == ItemData(item) && e.refusals == ItemAnswer(item)
  {
    var d := Decoder(Normal, verb);
    match item
    case Data(bytes) => DecodeEscapedData(verb, bytes);
    case Request(v, option) =>
      assert [255, v, option] == [255, v] + [option];
      DecodeAppend(d, [255, v], [option]);
      Decode2(d, 255, v);
      DecodeOne(Decoder(GotVerb, v), option);
    case Subnegotiation(pieces) =>
      DecodeAppend(d, [255, 250] + PrintPieces(pieces), [255, 240]);
      DecodeAppend(d, [255, 250], PrintPieces(pieces));
      Decode2(d, 255, 250);
      DecodePieces(verb, pieces);
      Decode2(Decoder(GotSb, verb), 255, 240);
    case Command(code) => Decode2(d, 255, code);
  }

  /** Printing items and decoding them gives back the data and refuses each request exactly once, in order. */
  lemma {:induction false} RoundTrip(verb: Byte, items: seq<Item>)
    requires forall k | 0 <= k < |items| :: WellFormed(items[k])
    ensures var e := Decode(Decoder(Normal, verb), PrintAll(items));
            && e.next.phase.Normal? && e.clean == DataOf(items) && e.refusals == AnswersOf(items)
    decreases |items|
  {
    hide Decode, Print, WellFormed, ItemData, ItemAnswer;
    if items != [] {
      var d := Decoder(Normal, verb);
      DecodeAppend(d, Print(items[0]), PrintAll(items[1..]));
      DecodeItem(verb, items[0]);
      RoundTrip(Decode(d, Print(items[0])).next.pendingVerb, items[1..]);
    } else {
      DecodeNothing(Decoder(Normal, verb));
    }
  }

  /** The round trip survives any fragmentation of the wire. */
  lemma FragmentedRoundTrip(items: seq<Item>, chunks: seq<seq<Byte>>)
    requires forall k | 0 <= k < |items| :: WellFormed(items[k])
    requires Flatten(chunks) == PrintAll(items)
    ensures var e := DecodeChunks(INITIAL, chunks);
            && e == Decode(INITIAL, PrintAll(items))
            && e.next.phase.Normal? && e.clean == DataOf(items) && e.refusals == AnswersOf(items)
  {
    FragmentationIrrelevant(INITIAL, chunks);
    RoundTrip(0, items);
  }

  // ---------------------------------------------------------------------------
  // Every wire is such a stream, but for an item that has begun and not ended.

  datatype Tail = NoTail | Mark | Verb(verb: Byte) | Open(pieces: seq<Piece>) | OpenMark(pieces: seq<Piece>)

  predicate WellTail(tail: Tail) {
    match tail
    case NoTail => true
    case Mark => true
    case Verb(verb) => 251 <= verb <= 254
    case Open(pieces) => forall i | 0 <= i < |pieces| :: WellPiece(pieces[i])
    case OpenMark(pieces) => forall i | 0 <= i < |pieces| :: WellPiece(pieces[i])
  }

  function PrintTail(tail: Tail): seq<Byte> {
    match tail
    case NoTail => []
    case Mark => [255]
    case Verb(verb) => [255, verb]
    case Open(pieces) => [255, 250] + PrintPieces(pieces)
    case OpenMark(pieces) => [255, 250] + PrintPieces(pieces) + [255]
  }

  /** One more byte lengthens the tail or completes it to an item. */
  function Extended(tail: Tail, b: Byte): (seq<Item>, Tail) {
    match tail
    case NoTail => if b == 255 then ([], Mark) else ([Data([b])], NoTail)
    case Mark =>
      if b == 255 then ([Data([255])], NoTail)
      else if b >= 251 then ([], Verb(b))
      else if b == 250 then ([], Open([]))
      else ([Command(b)], NoTail)
    case Verb(verb) => ([Request(verb, b)], NoTail)
    case Open(pieces) => if b == 255 then ([], OpenMark(pieces)) else ([], Open(pieces + [Plain(b)]))
    case OpenMark(pieces) => if b == 240 then ([Subnegotiation(pieces)], NoTail) else ([], Open(pieces + [Pair(b)]))
  }

  lemma ExtendedPrints(tail: Tail, b: Byte)
    requires WellTail(tail)
    ensures var (more, next) := Extended(tail, b);
            && WellTail(next) && |more| <= 1 && (forall k | 0 <= k < |more| :: WellFormed(more[k]))
            && PrintTail(tail) + [b] == (if more == [] then [] else Print(more[0])) + PrintTail(next)
  {
    if tail.Open? || tail.OpenMark? {
      var piece := if tail.Open? then Plain(b) else Pair(b);
      assert (tail.pieces + [piece])[..|tail.pieces|] == tail.pieces;
      assert PrintPieces(tail.pieces + [piece]) == PrintPieces(tail.pieces) + PrintPiece(piece);
    }
    EscapedOne(b);
  }

  lemma EscapedOne(b: Byte)
    ensures Escaped([b]) == if b == 255 then [255, 255] else [b]
  {
    assert [b][1..] == [];
  }

  lemma {:induction false} PrintAppend(items: seq<Item>, item: Item)
    ensures PrintAll(items + [item]) == PrintAll(items) + Print(item)
    decreases |items|
  {
    hide Print;
    if items == [] {
      assert (items + [item])[1..] == [];
    } else {
      assert (items + [item])[1..] == items[1..] + [item];
      PrintAppend(items[1..], item);
    }
  }

  /** Reading any wire byte by byte cuts it into items and a tail. */
  lemma {:induction false} Cut(wire: seq<Byte>) returns (items: seq<Item>, tail: Tail)
    ensures (forall k | 0 <= k < |items| :: WellFormed(items[k])) && WellTail(tail)
    ensures wire == PrintAll(items) + PrintTail(tail)
    decreases |wire|
  {
    hide Print, PrintTail, WellFormed, WellTail;
    if wire == [] {
      NothingCut();
      return [], NoTail;
    }
    var n, b := |wire| - 1, wire[|wire| - 1];
    var earlier, last := Cut(wire[..n]);
    ExtendedPrints(last, b);
    var (more, next) := Extended(last, b);
    assert wire == PrintAll(earlier) + (PrintTail(last) + [b]);
    if more == [] {
      items, tail := earlier, next;
    } else {
      items, tail := earlier + [more[0]], next;
      PrintAppend(earlier, more[0]);
    }
  }

  lemma NothingCut()
    ensures PrintAll([]) + PrintTail(NoTail) == [] && WellTail(NoTail)
  {
  }

  /** A tail says nothing yet. */
  lemma TailSilent(verb: Byte, tail: Tail)
    requires WellTail(tail)
    ensures var e := Decode(Decoder(Normal, verb), PrintTail(tail)); e.clean == [] && e.refusals == []
  {
    var d := Decoder(Normal, verb);
    match tail
    case NoTail =>
    case Mark => DecodeOne(d, 255);
    case Verb(v) => Decode2(d, 255, v);
    case Open(pieces) =>
      Decode2(d, 255, 250);
      DecodeAppend(d, [255, 250], PrintPieces(pieces));
      DecodePieces(verb, pieces);
    case OpenMark(pieces) =>
      Decode2(d, 255, 250);
      DecodeAppend(d, [255, 250], PrintPieces(pieces));
      DecodePieces(verb, pieces);
      DecodeAppend(d, [255, 250] + PrintPieces(pieces), [255]);
      DecodeOne(Decoder(GotSb, verb), 255);
  }

  /**
   Whatever arrives, in whatever fragments, is a stream of items and an unfinished one: the data is the items' data
   and what goes back is the items' answers.
   */
  lemma EveryWireDecodes(chunks: seq<seq<Byte>>) returns (items: seq<Item>, tail: Tail)
    ensures (forall k | 0 <= k < |items| :: WellFormed(items[k])) && WellTail(tail)
    ensures Flatten(chunks) == PrintAll(items) + PrintTail(tail)
    ensures var e := DecodeChunks(INITIAL, chunks); e.clean == DataOf(items) && e.refusals == AnswersOf(items)
  {
    hide Decode, PrintTail, PrintAll, WellFormed, WellTail, DataOf, AnswersOf;
    FragmentationIrrelevant(INITIAL, chunks);
    items, tail := Cut(Flatten(chunks));
    RoundTrip(0, items);
    DecodeAppend(INITIAL, PrintAll(items), PrintTail(tail));
    TailSilent(Decode(INITIAL, PrintAll(items)).next.pendingVerb, tail);
  }

  // ---------------------------------------------------------------------------
  // Bounds.

  /** Bytes taken in that may still come out: one after an IAC, two after a verb. */
  function Potential(phase: Phase): nat {
    match phase
    case GotIac => 1
    case GotVerb => 2
    case _ => 0
  }

  /** Output and refusals together never exceed what was fed, on any input. */
  lemma {:induction false} OutputBounded(d: Decoder, wire: seq<Byte>)
    ensures var e := Decode(d, wire);
            |e.clean| + |e.refusals| + Potential(e.next.phase) <= |wire| + Potential(d.phase)
    decreases |wire|
  {
    if wire != [] {
      OutputBounded(Advance(d, wire[0]).next, wire[1..]);
    }
  }

  /** How many option requests a decoder completes on a wire. */
  function RequestsSeen(d: Decoder, wire: seq<Byte>): nat
    decreases |wire|
  {
    if wire == [] then 0
    else (if d.phase.GotVerb? && (d.pendingVerb == 253 || d.pendingVerb == 251) then 1 else 0)
         + RequestsSeen(Advance(d, wire[0]).next, wire[1..])
  }

  /**
   On any input the replies are whole refusals, one for each DO or WILL, and never start a loop: another
   decoder reads no data in them and answers nothing.
   */
  lemma {:induction false} RefusalsNeverLoop(d: Decoder, wire: seq<Byte>, verb: Byte)
    ensures var sent := Decode(d, wire).refusals;
            && |sent| == 3 * RequestsSeen(d, wire)
            && (exists last :: Decode(Decoder(Normal, verb), sent) == Effect(Decoder(Normal, last), [], []))
    decreases |wire|
  {
    if wire == [] {
      assert Decode(Decoder(Normal, verb), []) == Effect(Decoder(Normal, verb), [], []);
    } else {
      var first := Advance(d, wire[0]);
      var rest := Decode(first.next, wire[1..]);
      if first.refusals == [] {
        RefusalsNeverLoop(first.next, wire[1..], verb);
        assert first.refusals + rest.refusals == rest.refusals;
      } else {
        var answer, option := first.refusals[1], first.refusals[2];
        assert first.refusals == Print(Request(answer, option));
        DecodeItem(verb, Request(answer, option));
        var mid := Decode(Decoder(Normal, verb), first.refusals).next;
        RefusalsNeverLoop(first.next, wire[1..], mid.pendingVerb);
        DecodeAppend(Decoder(Normal, verb), first.refusals, rest.refusals);
      }
    }
  }
}
