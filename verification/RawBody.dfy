/**
 How the bytes of a webhook are stored as text and sent again: decode_raw of app/ingest/parser.py and event_body of
 app/replay/store.py, over base64 as section 4 of RFC 4648 defines it.
 */
module RawBody {
  import opened Prelude
  import opened Utf8

  // ---- base64 ----

  type Sextet = s: int | 0 <= s < 64

  const PAD: CodePoint := 0x3D

  function Symbol(s: Sextet): CodePoint {
    if s < 26 then 0x41 + s
    else if s < 52 then 0x61 + s - 26
    else if s < 62 then 0x30 + s - 52
    else if s == 62 then 0x2B
    else 0x2F
  }

  function SymbolValue(c: CodePoint): Option<Sextet> {
    if 0x41 <= c <= 0x5A then Some(c - 0x41)
    else if 0x61 <= c <= 0x7A then Some(c - 0x61 + 26)
    else if 0x30 <= c <= 0x39 then Some(c - 0x30 + 52)
    else if c == 0x2B then Some(62)
    else if c == 0x2F then Some(63)
    else None
  }

  // The four sextets of a group of bytes, and the three bytes of a group of sextets.

  function Sextet0(a: int): int {
    a / 4
  }

  function Sextet1(a: int, b: int): int {
    a % 4 * 16 + b / 16
  }

  function Sextet2(b: int, c: int): int {
    b % 16 * 4 + c / 64
  }

  function Byte0(w: int, x: int): int {
    w * 4 + x / 16
  }

  function Byte1(x: int, y: int): int {
    x % 16 * 16 + y / 4
  }

  function Byte2(y: int, z: int): int {
    y % 4 * 64 + z
  }

  function EncodeBase64(b: seq<Byte>): seq<CodePoint> {
    if b == [] then []
    else if |b| == 1 then [Symbol(Sextet0(b[0])), Symbol(Sextet1(b[0], 0)), PAD, PAD]
    else if |b| == 2 then [Symbol(Sextet0(b[0])), Symbol(Sextet1(b[0], b[1])), Symbol(Sextet2(b[1], 0)), PAD]
    else
      [Symbol(Sextet0(b[0])), Symbol(Sextet1(b[0], b[1])), Symbol(Sextet2(b[1], b[2])), Symbol(b[2] % 64)]
      + EncodeBase64(b[3..])
  }

  /** None stands for the error a malformed group raises. */
  function DecodeBase64(text: seq<CodePoint>): Option<seq<Byte>> {
    if text == [] then Some([])
    else if |text| < 4 then None
    else
      match (SymbolValue(text[0]), SymbolValue(text[1]), SymbolValue(text[2]), SymbolValue(text[3]))
      case (Some(w), Some(x), Some(y), Some(z)) =>
        (match DecodeBase64(text[4..])
         case None => None
         case Some(rest) => Some([Byte0(w, x), Byte1(x, y), Byte2(y, z)] + rest))
      case (Some(w), Some(x), Some(y), None) =>
        if text[3..] == [PAD] then Some([Byte0(w, x), Byte1(x, y)]) else None
      case (Some(w), Some(x), None, None) =>
        if text[2..] == [PAD, PAD] then Some([Byte0(w, x)]) else None
      case _ => None
  }

  lemma GroupRoundTrip(a: Byte, b: Byte, c: Byte)
    ensures Byte0(Sextet0(a), Sextet1(a, b)) == a
    ensures Byte1(Sextet1(a, b), Sextet2(b, c)) == b
    ensures Byte2(Sextet2(b, c), c % 64) == c
  {
  }

  lemma SymbolsRoundTrip(a: Byte, b: Byte, c: Byte)
    ensures SymbolValue(Symbol(Sextet0(a))) == Some(Sextet0(a))
    ensures SymbolValue(Symbol(Sextet1(a, b))) == Some(Sextet1(a, b))
    ensures SymbolValue(Symbol(Sextet2(b, c))) == Some(Sextet2(b, c))
    ensures SymbolValue(Symbol(c % 64)) == Some(c % 64)
    ensures SymbolValue(PAD) == None
  {
  }

  lemma {:induction false} Base64RoundTrip(b: seq<Byte>)
    ensures DecodeBase64(EncodeBase64(b)) == Some(b)
  {
    hide Symbol, SymbolValue, Sextet0, Sextet1, Sextet2, Byte0, Byte1, Byte2;
    if b != [] {
      var y, z := if |b| > 1 then b[1] else 0, if |b| > 2 then b[2] else 0;
      GroupRoundTrip(b[0], y, z);
      SymbolsRoundTrip(b[0], y, z);
      if |b| == 1 {
        assert EncodeBase64(b)[2..] == [PAD, PAD];
        assert b == [b[0]];
      } else if |b| == 2 {
        assert EncodeBase64(b)[3..] == [PAD];
        assert b == [b[0], b[1]];
      } else {
        Base64RoundTrip(b[3..]);
        assert EncodeBase64(b)[4..] == EncodeBase64(b[3..]);
        assert b == [b[0], b[1], b[2]] + b[3..];
      }
    }
  }

  /** The alphabet of section 4 of RFC 4648. */
  function Letter(n: int): int {
    if n < 26 then 'A' as int + n
    else if n < 52 then 'a' as int + (n - 26)
    else if n < 62 then '0' as int + (n - 52)
    else if n == 62 then '+' as int
    else '/' as int
  }

  /** A number of 24 bits as four letters of six bits each. */
  function Letters(n: int): seq<int> {
    [Letter(n / 262144), Letter(n / 4096 % 64), Letter(n / 64 % 64), Letter(n % 64)]
  }

  function Bits24(a: int, b: int, c: int): int {
    a * 65536 + b * 256 + c
  }

  /**
   The encoding of section 4 of RFC 4648: each three bytes are a number of 24 bits, written as four letters; one or two
   bytes at the end are filled up with zero bits and padded with equals signs.
   */
  lemma Base64IsTheRfcs(b: seq<Byte>)
    ensures b == [] ==> EncodeBase64(b) == []
    ensures |b| == 1 ==> EncodeBase64(b) == Letters(Bits24(b[0], 0, 0))[..2] + ['=' as int, '=' as int]
    ensures |b| == 2 ==> EncodeBase64(b) == Letters(Bits24(b[0], b[1], 0))[..3] + ['=' as int]
    ensures |b| >= 3 ==> EncodeBase64(b) == Letters(Bits24(b[0], b[1], b[2])) + EncodeBase64(b[3..])
  {
    if |b| == 1 {
      OneByteLeft(b);
    } else if |b| == 2 {
      TwoBytesLeft(b);
    } else if |b| >= 3 {
      GroupIsLetters(b[0], b[1], b[2]);
      hide Symbol, Letters, Bits24, Sextet0, Sextet1, Sextet2;
    }
  }

  lemma OneByteLeft(b: seq<Byte>)
    requires |b| == 1
    ensures EncodeBase64(b) == Letters(Bits24(b[0], 0, 0))[..2] + ['=' as int, '=' as int]
  {
    GroupIsLetters(b[0], 0, 0);
    hide Symbol, Letters, Bits24, Sextet0, Sextet1, Sextet2;
    var letters := Letters(Bits24(b[0], 0, 0));
    assert EncodeBase64(b) == [letters[0], letters[1], PAD, PAD];
    assert letters[..2] == [letters[0], letters[1]];
  }

  lemma TwoBytesLeft(b: seq<Byte>)
    requires |b| == 2
    ensures EncodeBase64(b) == Letters(Bits24(b[0], b[1], 0))[..3] + ['=' as int]
  {
    GroupIsLetters(b[0], b[1], 0);
    hide Symbol, Letters, Bits24, Sextet0, Sextet1, Sextet2;
  }

  lemma SymbolIsALetter(s: Sextet)
    ensures Symbol(s) == Letter(s)
  {
  }

  lemma SextetsAre24Bits(a: Byte, b: Byte, c: Byte)
    ensures 0 <= Sextet0(a) < 64 && 0 <= Sextet1(a, b) < 64 && 0 <= Sextet2(b, c) < 64
    ensures Bits24(a, b, c) == Sextet0(a) * 262144 + Sextet1(a, b) * 4096 + Sextet2(b, c) * 64 + c % 64
  {
  }

  lemma GroupIsLetters(a: Byte, b: Byte, c: Byte)
    ensures 0 <= Sextet0(a) < 64 && 0 <= Sextet1(a, b) < 64 && 0 <= Sextet2(b, c) < 64
    ensures Letters(Bits24(a, b, c)) == [
              Symbol(Sextet0(a)), Symbol(Sextet1(a, b)), Symbol(Sextet2(b, c)), Symbol(c % 64)
            ]
  {
    hide Symbol, Letter, Bits24, Sextet0, Sextet1, Sextet2;
    SextetsAre24Bits(a, b, c);
    Digits4(Sextet0(a), Sextet1(a, b), Sextet2(b, c), c % 64);
    SymbolIsALetter(Sextet0(a));
    SymbolIsALetter(Sextet1(a, b));
    SymbolIsALetter(Sextet2(b, c));
    SymbolIsALetter(c % 64);
  }

  // ---- decode_raw and event_body ----

  datatype Encoding = Utf8Text | Base64Text

  datatype Stored = Stored(text: seq<CodePoint>, encoding: Encoding)

  function DecodeRaw(raw: seq<Byte>): Stored {
    match Decode(raw)
    case Some(text) => Stored(text, Utf8Text)
    case None => Stored(EncodeBase64(raw), Base64Text)
  }

  function EventBody(stored: Stored): Option<seq<Byte>> {
    if stored.encoding == Base64Text then DecodeBase64(stored.text) else Some(Encode(stored.text))
  }

  /** A replay sends the bytes that arrived, whatever they were. */
  lemma ReplaySendsTheBytesThatArrived(raw: seq<Byte>)
    ensures EventBody(DecodeRaw(raw)) == Some(raw)
  {
    if Decode(raw).Some? {
      DecodeThenEncode(raw);
    } else {
      Base64RoundTrip(raw);
    }
  }

  /** Base64 is used for exactly the bodies that are the UTF-8 of no text. */
  lemma Base64OnlyForInvalidUtf8(raw: seq<Byte>)
    ensures DecodeRaw(raw).encoding == Base64Text <==> forall text :: Encode(text) != raw
  {
    if Decode(raw).Some? {
      DecodeThenEncode(raw);
    }
    forall text | Encode(text) == raw
      ensures Decode(raw).Some?
    {
      EncodeThenDecode(text);
    }
  }
}
