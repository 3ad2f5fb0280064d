/**
 UTF-8 as section 3 of RFC 3629 defines it, with the strict decoder Python's bytes.decode uses: no overlong forms,
 no surrogates, nothing above U+10FFFF. Text is a sequence of code points.
 */
module Utf8 {
  import opened Prelude

  type Byte = b: int | 0 <= b < 256

  predicate Scalar(c: int) {
    0 <= c < 0xD800 || 0xE000 <= c < 0x110000
  }

  type CodePoint = c: int | 0 <= c < 0xD800 || 0xE000 <= c < 0x110000

  predicate Tail(b: Byte) {
    0x80 <= b < 0xC0
  }

  function EncodePoint(point: CodePoint): (b: seq<Byte>)
    ensures b != []
  {
    var c: int := point;
    if c < 0x80 then [c]
    else if c < 0x800 then [0xC0 + c / 0x40, 0x80 + c % 0x40]
    else if c < 0x10000 then [0xE0 + c / 0x1000, 0x80 + c / 0x40 % 0x40, 0x80 + c % 0x40]
    else [0xF0 + c / 0x40000, 0x80 + c / 0x1000 % 0x40, 0x80 + c / 0x40 % 0x40, 0x80 + c % 0x40]
  }

  function Encode(text: seq<CodePoint>): seq<Byte> {
    if text == [] then [] else EncodePoint(text[0]) + Encode(text[1..])
  }

  function From2(lead: int, x: int): int {
    (lead - 0xC0) * 0x40 + (x - 0x80)
  }

  function From3(lead: int, x: int, y: int): int {
    (lead - 0xE0) * 0x1000 + (x - 0x80) * 0x40 + (y - 0x80)
  }

  function From4(lead: int, x: int, y: int, z: int): int {
    (lead - 0xF0) * 0x40000 + (x - 0x80) * 0x1000 + (y - 0x80) * 0x40 + (z - 0x80)
  }

  /** The first code point and the number of bytes it takes, or None where the strict decoder stops. */
  function DecodePoint(b: seq<Byte>): Option<(CodePoint, nat)>
    requires b != []
  {
    if b[0] < 0x80 then Some((b[0], 1))
    else if 0xC2 <= b[0] < 0xE0 && |b| >= 2 && Tail(b[1]) then Some((From2(b[0], b[1]), 2))
    else if 0xE0 <= b[0] < 0xF0 && |b| >= 3 && Tail(b[1]) && Tail(b[2]) then
      var c := From3(b[0], b[1], b[2]);
      if 0x800 <= c && Scalar(c) then Some((c, 3)) else None
    else if 0xF0 <= b[0] < 0xF5 && |b| >= 4 && Tail(b[1]) && Tail(b[2]) && Tail(b[3]) then
      var c := From4(b[0], b[1], b[2], b[3]);
      if 0x10000 <= c && Scalar(c) then Some((c, 4)) else None
    else None
  }

  function Decode(b: seq<Byte>): Option<seq<CodePoint>> {
    if b == [] then Some([])
    else
      match DecodePoint(b)
      case None => None
      case Some((point, width)) =>
        if width > |b| || width == 0 then None
        else
          match Decode(b[width..])
          case None => None
          case Some(rest) => Some([point] + rest)
  }

  lemma Digits3(x: int, y: int, z: int)
    requires 0 <= y < 0x40 && 0 <= z < 0x40
    ensures var c := x * 0x1000 + y * 0x40 + z;
            c / 0x1000 == x && c / 0x40 % 0x40 == y && c % 0x40 == z
  {
    assert (x * 0x1000 + y * 0x40 + z) / 0x40 == x * 0x40 + y;
  }

  lemma Digits4(w: int, x: int, y: int, z: int)
    requires 0 <= x < 0x40 && 0 <= y < 0x40 && 0 <= z < 0x40
    ensures var c := w * 0x40000 + x * 0x1000 + y * 0x40 + z;
            c / 0x40000 == w && c / 0x1000 % 0x40 == x && c / 0x40 % 0x40 == y && c % 0x40 == z
  {
    Digits3(w * 0x40 + x, y, z);
  }

  lemma TwoBytesEncodeBack(lead: Byte, x: Byte)
    requires 0xC2 <= lead < 0xE0 && Tail(x)
    ensures EncodePoint(From2(lead, x)) == [lead, x]
  {
  }

  lemma ThreeBytesEncodeBack(lead: Byte, x: Byte, y: Byte)
    requires 0xE0 <= lead < 0xF0 && Tail(x) && Tail(y)
    requires 0x800 <= From3(lead, x, y) && Scalar(From3(lead, x, y))
    ensures EncodePoint(From3(lead, x, y)) == [lead, x, y]
  {
    Digits3(lead - 0xE0, x - 0x80, y - 0x80);
  }

  lemma FourDigitsEncode(c: CodePoint, w: int, x: int, y: int, z: int)
    requires c >= 0x10000 && (c as int) / 0x40000 == w && (c as int) / 0x1000 % 0x40 == x
    requires (c as int) / 0x40 % 0x40 == y && (c as int) % 0x40 == z
    ensures EncodePoint(c) == [0xF0 + w, 0x80 + x, 0x80 + y, 0x80 + z]
  {
  }

  lemma FourBytesEncodeBack(lead: Byte, x: Byte, y: Byte, z: Byte)
    requires 0xF0 <= lead < 0xF5 && Tail(x) && Tail(y) && Tail(z)
    requires 0x10000 <= From4(lead, x, y, z) && Scalar(From4(lead, x, y, z))
    ensures EncodePoint(From4(lead, x, y, z)) == [lead, x, y, z]
  {
    hide EncodePoint;
    Digits4(lead - 0xF0, x - 0x80, y - 0x80, z - 0x80);
    FourDigitsEncode(From4(lead, x, y, z), lead - 0xF0, x - 0x80, y - 0x80, z - 0x80);
  }

  lemma DecodedPointEncodesBack(b: seq<Byte>)
    requires b != [] && DecodePoint(b).Some?
    ensures var (point, width) := DecodePoint(b).value;
            0 < width <= |b| && EncodePoint(point) == b[..width]
  {
    hide EncodePoint, From2, From3, From4;
    var (point, width) := DecodePoint(b).value;
    if width == 1 {
      OneByteEncodesBack(b[0]);
    } else if width == 2 {
      TwoBytesEncodeBack(b[0], b[1]);
    } else if width == 3 {
      ThreeBytesEncodeBack(b[0], b[1], b[2]);
    } else {
      FourBytesEncodeBack(b[0], b[1], b[2], b[3]);
    }
  }

  lemma OneByteEncodesBack(lead: Byte)
    requires lead < 0x80
    ensures EncodePoint(lead) == [lead]
  {
  }

  lemma EncodedPointDecodesBack(point: CodePoint, rest: seq<Byte>)
    ensures DecodePoint(EncodePoint(point) + rest) == Some((point, |EncodePoint(point)|))
  {
    var own := EncodePoint(point);
    var b := own + rest;
    assert forall i :: 0 <= i < |own| ==> b[i] == own[i];
    PointFromBytes(point);
  }

  lemma PointFromBytes(point: CodePoint)
    ensures var b := EncodePoint(point);
            && (0x80 <= point < 0x800 ==> From2(b[0], b[1]) == point)
            && (0x800 <= point < 0x10000 ==> From3(b[0], b[1], b[2]) == point)
            && (0x10000 <= point ==> From4(b[0], b[1], b[2], b[3]) == point)
  {
    var c: int := point;
    assert c / 0x40 / 0x40 == c / 0x1000;
    assert c / 0x1000 / 0x40 == c / 0x40000;
  }

  /** The table of section 3 of RFC 3629: how many bytes, in what ranges, and where their bits go. */
  lemma EncodingIsTheTable(point: CodePoint)
    ensures var b := EncodePoint(point);
            && (point < 0x80 ==> b == [point])
            && (0x80 <= point < 0x800 ==>
                  && |b| == 2 && 0xC0 <= b[0] < 0xE0 && Tails(b)
                  && point as int == (b[0] as int - 0xC0) * 64 + (b[1] as int - 0x80))
            && (0x800 <= point < 0x10000 ==>
                  && |b| == 3 && 0xE0 <= b[0] < 0xF0 && Tails(b)
                  && point as int == (b[0] as int - 0xE0) * 4096 + (b[1] as int - 0x80) * 64 + (b[2] as int - 0x80))
            && (0x10000 <= point ==>
                  && |b| == 4 && 0xF0 <= b[0] < 0xF5 && Tails(b)
                  && point as int == (b[0] as int - 0xF0) * 262144 + (b[1] as int - 0x80) * 4096
                                     + (b[2] as int - 0x80) * 64 + (b[3] as int - 0x80))
  {
    PointFromBytes(point);
  }

  predicate Tails(b: seq<Byte>) {
    forall i :: 1 <= i < |b| ==> 0x80 <= b[i] < 0xC0
  }

  /** Whatever the strict decoder accepts is the encoding of what it returns. */
  lemma {:induction false} DecodeThenEncode(b: seq<Byte>)
    requires Decode(b).Some?
    ensures Encode(Decode(b).value) == b
  {
    hide EncodePoint, DecodePoint;
    if b != [] {
      DecodedPointEncodesBack(b);
      var (point, width) := DecodePoint(b).value;
      DecodeThenEncode(b[width..]);
      assert Decode(b).value[1..] == Decode(b[width..]).value;
      assert b == b[..width] + b[width..];
    }
  }

  /** The strict decoder accepts every encoded text and returns it: it accepts exactly the encodings. */
  lemma {:induction false} EncodeThenDecode(text: seq<CodePoint>)
    ensures Decode(Encode(text)) == Some(text)
  {
    hide EncodePoint, DecodePoint;
    if text != [] {
      var first, rest := EncodePoint(text[0]), Encode(text[1..]);
      EncodedPointDecodesBack(text[0], rest);
      EncodeThenDecode(text[1..]);
      assert (first + rest)[|first|..] == rest;
      assert [text[0]] + text[1..] == text;
    }
  }
}
