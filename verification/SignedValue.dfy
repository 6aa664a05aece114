/** Signed cookies and state: a JSON object and its MAC, both URL-safe, joined by a dot. */
module SignedValue {
  import opened Wrappers
  import opened Bytes
  import opened Base64
  import opened Texts

  /** What json.loads can return; only an object is a payload. */
  datatype Json<P> = Object(payload: P) | Other

  /** The libraries used: json.dumps, json.loads and HMAC under a secret. */
  datatype Library<!P> = Library(dump: P -> seq<Byte>, load: seq<Byte> -> Option<Json<P>>, mac: (string, string) -> seq<Byte>)

  /** The laws needed of them: loading undoes dumping, no dump is empty, no MAC is empty. */
  ghost predicate Lawful<P(!new)>(lib: Library<P>) {
    && (forall p :: lib.load(lib.dump(p)) == Some(Object(p)) && lib.dump(p) != [])
    && (forall secret, text :: lib.mac(secret, text) != [])
  }

  function Sign<P>(lib: Library<P>, payload: P, secret: string): string {
    var encoded := Encode(lib.dump(payload));
    encoded + "." + Encode(lib.mac(secret, encoded))
  }

  datatype Refusal = Missing | BadEncoding | BadSignature | BadJson

  function Segment<P>(lib: Library<P>, text: string): Result<P, Refusal> {
    var bytes := Decode(text);
    if bytes.None? then Failure(BadEncoding)
    else
      var json := lib.load(bytes.value);
      if json.None? || json.value.Other? then Failure(BadJson) else Success(json.value.payload)
  }

  function Unsign<P>(lib: Library<P>, value: Option<string>, secret: string): Result<P, Refusal> {
    if value.None? || value.value == "" then Failure(Missing)
    else
      var dot := LastIndex(value.value, '.');
      if dot.None? then Failure(Missing)
      else
        var encoded, signature := value.value[..dot.value], value.value[dot.value + 1..];
        if !Ascii(encoded) then Failure(BadEncoding)
        else
          var given := Decode(signature);
          if given.None? then Failure(BadEncoding)
          else if given.value != lib.mac(secret, encoded) then Failure(BadSignature)
          else Segment(lib, encoded)
  }

  // ---------------------------------------------------------------------------

  lemma DecodableIsAscii(text: string)
    requires Decode(text).Some?
    ensures Ascii(text) && '.' !in text
  {
    SextetsRoundTrip(UrlSafe, text);
    forall i | 0 <= i < |text| ensures text[i] < '\U{0080}' {
      assert Value(UrlSafe, text[i]).Some?;
    }
  }

  /** What was signed is returned, unless the secret has changed: then exactly when the MACs happen to agree. */
  lemma UnsignSign<P(!new)>(lib: Library<P>, payload: P, secret: string, other: string)
    requires Lawful(lib)
    ensures Unsign(lib, Some(Sign(lib, payload, secret)), secret) == Success(payload)
    ensures var encoded := Encode(lib.dump(payload));
            Unsign(lib, Some(Sign(lib, payload, secret)), other)
            == if lib.mac(other, encoded) == lib.mac(secret, encoded) then Success(payload) else Failure(BadSignature)
  {
    hide Encode, Decode;
    var encoded := Encode(lib.dump(payload));
    var mac := lib.mac(secret, encoded);
    DecodeEncode(lib.dump(payload));
    DecodeEncode(mac);
    EncodeIsText(mac);
    DecodableIsAscii(encoded);
    CutAtLast(encoded, '.', Encode(mac));
  }

  /** The value is a payload text followed by a text of the MAC of exactly that payload text. */
  ghost predicate Authentic<P>(lib: Library<P>, value: string, secret: string, payload: P, encoded: string, signature: string) {
    && value == encoded + "." + signature
    && Decode(signature) == Some(lib.mac(secret, encoded))
    && Decode(encoded).Some? && lib.load(Decode(encoded).value) == Some(Object(payload))
  }

  /** Only authentic values are accepted, and all of them are. */
  lemma UnsignAcceptsExactly<P>(lib: Library<P>, value: string, secret: string, payload: P)
    ensures Unsign(lib, Some(value), secret) == Success(payload)
            <==> exists encoded, signature :: Authentic(lib, value, secret, payload, encoded, signature)
  {
    hide Decode;
    if Unsign(lib, Some(value), secret) == Success(payload) {
      var at := LastIndex(value, '.').value;
      assert value == value[..at] + "." + value[at + 1..];
      assert Authentic(lib, value, secret, payload, value[..at], value[at + 1..]);
    }
    if encoded, signature :| Authentic(lib, value, secret, payload, encoded, signature) {
      DecodableIsAscii(encoded);
      DecodableIsAscii(signature);
      CutAtLast(encoded, '.', signature);
    }
  }

  /**
   An accepted value is the payload text with its canonical signature but for stray bits in the very last character,
   which the decoder ignores: it is the canonical value exactly when those bits are zero.
   */
  lemma AcceptedUpToTrailingBits<P>(lib: Library<P>, value: string, secret: string) returns (canonical: string)
    requires Unsign(lib, Some(value), secret).Success?
    ensures var encoded, signature := value[..LastIndex(value, '.').value], value[LastIndex(value, '.').value + 1..];
            && canonical == encoded + "." + Encode(lib.mac(secret, encoded))
            && |canonical| == |value| && canonical[..|value| - 1] == value[..|value| - 1]
            && InAlphabet(UrlSafe, signature)
            && (canonical == value <==> TrailingBitsZero(Sextets(UrlSafe, signature)))
  {
    hide Encode, TrailingBitsZero, Sextets, FromSextets;
    var at := LastIndex(value, '.').value;
    var encoded, signature := value[..at], value[at + 1..];
    var again := Encode(lib.mac(secret, encoded));
    EncodeDecode(signature);
    canonical := encoded + "." + again;
    assert value == encoded + "." + signature;
    assert canonical[|encoded| + 1..] == again && value[|encoded| + 1..] == signature;
    assert canonical[..|value| - 1] == encoded + "." + again[..|again| - 1];
    assert value[..|value| - 1] == encoded + "." + signature[..|again| - 1];
  }

  /** Whenever the MAC does not fill its last group, as one of 32 bytes does not, a second value passes for the signed one. */
  lemma SecondValueAccepted<P(!new)>(lib: Library<P>, payload: P, secret: string) returns (value: string)
    requires Lawful(lib) && |lib.mac(secret, Encode(lib.dump(payload)))| % 3 != 0
    ensures value != Sign(lib, payload, secret) && Unsign(lib, Some(value), secret) == Success(payload)
  {
    hide Encode, Decode;
    var encoded := Encode(lib.dump(payload));
    var mac := lib.mac(secret, encoded);
    var text := SecondText(mac);
    value := encoded + "." + text;
    DecodeEncode(lib.dump(payload));
    assert Authentic(lib, value, secret, payload, encoded, text);
    UnsignAcceptsExactly(lib, value, secret, payload);
    assert value[|encoded| + 1..] == text && Sign(lib, payload, secret)[|encoded| + 1..] == Encode(mac);
  }

  /** Refusals come before any JSON is read: without the matching MAC no payload text is decoded. */
  lemma ForeignSignatureRefused<P>(lib: Library<P>, encoded: string, mac: seq<Byte>, secret: string)
    requires mac != [] && mac != lib.mac(secret, encoded) && Ascii(encoded)
    ensures Unsign(lib, Some(encoded + "." + Encode(mac)), secret) == Failure(BadSignature)
  {
    hide Encode, Decode;
    DecodeEncode(mac);
    EncodeIsText(mac);
    CutAtLast(encoded, '.', Encode(mac));
  }
}
