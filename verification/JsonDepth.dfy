/**
 The nesting scan of app/ingest/parser.py over a grammar of JSON texts (sections 2 to 7 of RFC 8259). A `Value` is a
 derivation: it records every byte of one text of a JSON value, white space and escapes included.
 */
module JsonDepth {
  import opened Prelude
  import opened Utf8

  // ---- the scan ----

  datatype Scan = Scan(depth: int, maximum: int, inString: bool, escaped: bool)

  const START := Scan(0, 0, false, false)

  function ScanByte(s: Scan, b: Byte): Scan {
    if s.inString then
      if s.escaped then s.(escaped := false)
      else if b == 0x5C then s.(escaped := true)
      else if b == 0x22 then s.(inString := false)
      else s
    else if b == 0x22 then s.(inString := true)
    else if b == 0x7B || b == 0x5B then s.(depth := s.depth + 1, maximum := Max(s.maximum, s.depth + 1))
    else if b == 0x7D || b == 0x5D then s.(depth := s.depth - 1)
    else s
  }

  function ScanAll(s: Scan, raw: seq<Byte>): Scan {
    if raw == [] then s else ScanByte(ScanAll(s, raw[..|raw| - 1]), raw[|raw| - 1])
  }

  method NestingDepth(raw: seq<Byte>) returns (maximum: int)
    ensures maximum == ScanAll(START, raw).maximum
    ensures forall text :: ItemOk(text) && ItemBytes(text) == raw ==> maximum == Depth(text.value)
  {
    var depth := 0;
    maximum := 0;
    var inString, escaped := false, false;
    for i := 0 to |raw|
      invariant Scan(depth, maximum, inString, escaped) == ScanAll(START, raw[..i])
    {
      assert raw[..i + 1][..i] == raw[..i];
      var byte := raw[i];
      if inString {
        if escaped {
          escaped := false;
        } else if byte == 0x5C {
          escaped := true;
        } else if byte == 0x22 {
          inString := false;
        }
        continue;
      }
      if byte == 0x22 {
        inString := true;
      } else if byte == 0x7B || byte == 0x5B {
        depth := depth + 1;
        maximum := Max(maximum, depth);
      } else if byte == 0x7D || byte == 0x5D {
        depth := depth - 1;
      }
    }
    assert raw[..|raw|] == raw;
    forall text | ItemOk(text) && ItemBytes(text) == raw
      ensures maximum == Depth(text.value)
    {
      NestingDepthIsStructural(text);
    }
  }

  // ---- texts of JSON values ----

  /** One character of a string as it is written. */
  datatype Unit =
    | Plain(point: CodePoint)
    | Escape(letter: Byte)
    | Hex(digits: seq<Byte>)

  /** `before` and `after` are the white space around a value; `pads` is the white space of an empty container. */
  datatype Value =
    | Literal(bytes: seq<Byte>)
    | Text(units: seq<Unit>)
    | Array(pad: seq<Byte>, items: seq<Item>)
    | Object(pad: seq<Byte>, members: seq<Member>)

  datatype Item = Item(before: seq<Byte>, value: Value, after: seq<Byte>)

  datatype Member = Member(before: seq<Byte>, key: seq<Unit>, beforeColon: seq<Byte>, item: Item)

  predicate Blank(b: Byte) {
    b == 0x20 || b == 0x09 || b == 0x0A || b == 0x0D
  }

  predicate Blanks(bytes: seq<Byte>) {
    forall i :: 0 <= i < |bytes| ==> Blank(bytes[i])
  }

  predicate HexDigit(b: Byte) {
    0x30 <= b <= 0x39 || 0x41 <= b <= 0x46 || 0x61 <= b <= 0x66
  }

  /** Bytes of numbers, of true, false and null, and of the NaN and Infinity that Python's parser also takes. */
  predicate Bare(b: Byte) {
    0x30 <= b <= 0x39 || 0x41 <= b <= 0x5A || 0x61 <= b <= 0x7A || b == 0x2B || b == 0x2D || b == 0x2E
  }

  predicate UnitOk(u: Unit) {
    match u
    case Plain(c) => c >= 0x20 && c != 0x22 && c != 0x5C
    case Escape(l) =>
      l == 0x22 || l == 0x5C || l == 0x2F || l == 0x62 || l == 0x66 || l == 0x6E || l == 0x72 || l == 0x74
    case Hex(d) => |d| == 4 && forall i :: 0 <= i < 4 ==> HexDigit(d[i])
  }

  predicate UnitsOk(units: seq<Unit>) {
    forall i :: 0 <= i < |units| ==> UnitOk(units[i])
  }

  predicate ValueOk(v: Value)
    decreases v
  {
    match v
    case Literal(bytes) => forall i :: 0 <= i < |bytes| ==> Bare(bytes[i])
    case Text(units) => UnitsOk(units)
    case Array(pad, items) => Blanks(pad) && forall i :: 0 <= i < |items| ==> ItemOk(items[i])
    case Object(pad, members) =>
      && Blanks(pad)
      && forall i :: 0 <= i < |members| ==>
           && Blanks(members[i].before) && UnitsOk(members[i].key) && Blanks(members[i].beforeColon)
           && ItemOk(members[i].item)
  }

  predicate ItemOk(item: Item)
    decreases item
  {
    Blanks(item.before) && ValueOk(item.value) && Blanks(item.after)
  }

  function UnitBytes(u: Unit): seq<Byte> {
    match u
    case Plain(c) => EncodePoint(c)
    case Escape(l) => [0x5C, l]
    case Hex(d) => [0x5C, 0x75] + d
  }

  function UnitsBytes(units: seq<Unit>): seq<Byte> {
    if units == [] then [] else UnitBytes(units[0]) + UnitsBytes(units[1..])
  }

  function Quoted(units: seq<Unit>): seq<Byte> {
    [0x22] + UnitsBytes(units) + [0x22]
  }

  function ValueBytes(v: Value): seq<Byte>
    decreases v, 1
  {
    match v
    case Literal(bytes) => bytes
    case Text(units) => Quoted(units)
    case Array(pad, items) => [0x5B] + (if items == [] then pad else ItemsBytes(items)) + [0x5D]
    case Object(pad, members) => [0x7B] + (if members == [] then pad else MembersBytes(members)) + [0x7D]
  }

  function ItemBytes(item: Item): seq<Byte>
    decreases item, 1
  {
    item.before + ValueBytes(item.value) + item.after
  }

  function ItemsBytes(items: seq<Item>): seq<Byte>
    requires items != []
    decreases items, 0
  {
    if |items| == 1 then ItemBytes(items[0]) else ItemBytes(items[0]) + [0x2C] + ItemsBytes(items[1..])
  }

  function MemberBytes(m: Member): seq<Byte>
    decreases m, 1
  {
    m.before + Quoted(m.key) + m.beforeColon + [0x3A] + ItemBytes(m.item)
  }

  function MembersBytes(members: seq<Member>): seq<Byte>
    requires members != []
    decreases members, 0
  {
    if |members| == 1 then MemberBytes(members[0])
    else MemberBytes(members[0]) + [0x2C] + MembersBytes(members[1..])
  }

  // ---- structural depth ----

  function Depth(v: Value): nat
    decreases v, 1
  {
    match v
    case Literal(_) => 0
    case Text(_) => 0
    case Array(_, items) => 1 + ItemsDepth(items)
    case Object(_, members) => 1 + MembersDepth(members)
  }

  function ItemsDepth(items: seq<Item>): nat
    decreases items, 0
  {
    if items == [] then 0 else Max(Depth(items[0].value), ItemsDepth(items[1..]))
  }

  function MembersDepth(members: seq<Member>): nat
    decreases members, 0
  {
    if members == [] then 0 else Max(Depth(members[0].item.value), MembersDepth(members[1..]))
  }

  // ---- the scan of each piece ----

  lemma {:induction false} ScanConcat(s: Scan, a: seq<Byte>, b: seq<Byte>)
    ensures ScanAll(s, a + b) == ScanAll(ScanAll(s, a), b)
  {
    if b == [] {
      assert a + b == a;
    } else {
      ScanConcat(s, a, b[..|b| - 1]);
      assert (a + b)[..|a + b| - 1] == a + b[..|b| - 1];
    }
  }

  lemma ScanOne(s: Scan, b: Byte)
    ensures ScanAll(s, [b]) == ScanByte(s, b)
  {
    assert ScanAll(s, [b][..0]) == s;
  }

  /** Bytes that the scan ignores in its present state. */
  lemma {:induction false} ScanIgnored(s: Scan, bytes: seq<Byte>)
    requires forall i :: 0 <= i < |bytes| ==> ScanByte(s, bytes[i]) == s
    ensures ScanAll(s, bytes) == s
  {
    if bytes != [] {
      ScanIgnored(s, bytes[..|bytes| - 1]);
    }
  }

  predicate Outside(s: Scan) {
    !s.inString && !s.escaped
  }

  predicate Inside(s: Scan) {
    s.inString && !s.escaped
  }

  lemma ScanUnit(s: Scan, u: Unit)
    requires Inside(s) && UnitOk(u)
    ensures ScanAll(s, UnitBytes(u)) == s
  {
    match u
    case Plain(c) =>
      ScanIgnored(s, EncodePoint(c));
    case Escape(l) =>
      assert [0x5C, l][..1] == [0x5C];
      ScanOne(s, 0x5C);
    case Hex(d) =>
      assert [0x5C, 0x75][..1] == [0x5C];
      ScanOne(s, 0x5C);
      ScanConcat(s, [0x5C, 0x75], d);
      ScanIgnored(s, d);
  }

  lemma {:induction false} ScanUnits(s: Scan, units: seq<Unit>)
    requires Inside(s) && UnitsOk(units)
    ensures ScanAll(s, UnitsBytes(units)) == s
  {
    if units != [] {
      ScanUnit(s, units[0]);
      ScanUnits(s, units[1..]);
      ScanConcat(s, UnitBytes(units[0]), UnitsBytes(units[1..]));
    }
  }

  lemma ScanQuoted(s: Scan, units: seq<Unit>)
    requires Outside(s) && UnitsOk(units)
    ensures ScanAll(s, Quoted(units)) == s
  {
    var within := s.(inString := true);
    ScanOne(s, 0x22);
    ScanUnits(within, units);
    ScanConcat(s, [0x22], UnitsBytes(units));
    ScanConcat(s, [0x22] + UnitsBytes(units), [0x22]);
    ScanOne(within, 0x22);
  }

  /** What scanning a value of depth `d` does: nothing, except that the maximum has seen `d` more levels. */
  function Seen(s: Scan, d: nat): Scan {
    if d == 0 then s else s.(maximum := Max(s.maximum, s.depth + d))
  }

  lemma ScanBracketed(s: Scan, open: Byte, inner: seq<Byte>, close: Byte, d: nat)
    requires Outside(s) && (open == 0x7B || open == 0x5B) && (close == 0x7D || close == 0x5D)
    requires var below := ScanByte(s, open); ScanAll(below, inner) == Seen(below, d)
    ensures ScanAll(s, [open] + inner + [close]) == Seen(s, 1 + d)
  {
    ScanOne(s, open);
    ScanConcat(s, [open], inner);
    ScanConcat(s, [open] + inner, [close]);
    ScanOne(ScanAll(s, [open] + inner), close);
  }

  lemma ScanSeparator(s: Scan, b: Byte)
    requires Outside(s) && (b == 0x2C || b == 0x3A)
    ensures ScanAll(s, [b]) == s
  {
    ScanOne(s, b);
  }

  lemma ScanSkips(s: Scan, a: seq<Byte>, b: seq<Byte>)
    requires ScanAll(s, a) == s
    ensures ScanAll(s, a + b) == ScanAll(s, b)
  {
    ScanConcat(s, a, b);
  }

  lemma SeenKeeps(s: Scan, d: nat)
    requires Outside(s) && s.depth <= s.maximum
    ensures Outside(Seen(s, d)) && Seen(s, d).depth <= Seen(s, d).maximum
  {
  }

  lemma ScanCommaSeparated(s: Scan, first: seq<Byte>, rest: seq<Byte>, d: nat, e: nat)
    requires Outside(s) && s.depth <= s.maximum
    requires ScanAll(s, first) == Seen(s, d) && ScanAll(Seen(s, d), rest) == Seen(Seen(s, d), e)
    ensures ScanAll(s, first + [0x2C] + rest) == Seen(s, Max(d, e))
  {
    SeenKeeps(s, d);
    ScanConcat(s, first, [0x2C]);
    ScanSeparator(Seen(s, d), 0x2C);
    ScanConcat(s, first + [0x2C], rest);
  }

  /** Scanning any text of a value restores depth and string state and raises the maximum to its structural depth. */
  lemma {:induction false} ScanValue(s: Scan, v: Value)
    requires Outside(s) && s.depth <= s.maximum && ValueOk(v)
    ensures ScanAll(s, ValueBytes(v)) == Seen(s, Depth(v))
    decreases v, 1
  {
    match v
    case Literal(bytes) =>
      ScanIgnored(s, bytes);
    case Text(units) =>
      ScanQuoted(s, units);
    case Array(pad, items) =>
      var below := ScanByte(s, 0x5B);
      if items == [] {
        ScanIgnored(below, pad);
        ScanBracketed(s, 0x5B, pad, 0x5D, 0);
      } else {
        ScanItems(below, items);
        ScanBracketed(s, 0x5B, ItemsBytes(items), 0x5D, ItemsDepth(items));
      }
    case Object(pad, members) =>
      var below := ScanByte(s, 0x7B);
      if members == [] {
        ScanIgnored(below, pad);
        ScanBracketed(s, 0x7B, pad, 0x7D, 0);
      } else {
        ScanMembers(below, members);
        ScanBracketed(s, 0x7B, MembersBytes(members), 0x7D, MembersDepth(members));
      }
  }

  lemma {:induction false} ScanItem(s: Scan, item: Item)
    requires Outside(s) && s.depth <= s.maximum && ItemOk(item)
    ensures ScanAll(s, ItemBytes(item)) == Seen(s, Depth(item.value))
    decreases item, 1
  {
    ScanIgnored(s, item.before);
    ScanValue(s, item.value);
    SeenKeeps(s, Depth(item.value));
    ScanIgnored(Seen(s, Depth(item.value)), item.after);
    hide ScanByte, ScanAll, Seen, ValueBytes;
    ScanSkips(s, item.before, ValueBytes(item.value));
    ScanConcat(s, item.before + ValueBytes(item.value), item.after);
  }

  lemma {:induction false} ScanItems(s: Scan, items: seq<Item>)
    requires Outside(s) && s.depth <= s.maximum && items != []
    requires forall i :: 0 <= i < |items| ==> ItemOk(items[i])
    ensures ScanAll(s, ItemsBytes(items)) == Seen(s, ItemsDepth(items))
    decreases items, 0
  {
    hide ScanByte, ScanAll, Seen, ItemBytes, Depth;
    ScanItem(s, items[0]);
    if |items| > 1 {
      var after := Seen(s, Depth(items[0].value));
      SeenKeeps(s, Depth(items[0].value));
      ScanItems(after, items[1..]);
      ScanCommaSeparated(
        s, ItemBytes(items[0]), ItemsBytes(items[1..]), Depth(items[0].value), ItemsDepth(items[1..]));
    }
  }

  lemma {:induction false} ScanMember(s: Scan, m: Member)
    requires Outside(s) && s.depth <= s.maximum
    requires Blanks(m.before) && UnitsOk(m.key) && Blanks(m.beforeColon) && ItemOk(m.item)
    ensures ScanAll(s, MemberBytes(m)) == Seen(s, Depth(m.item.value))
    decreases m, 1
  {
    ScanIgnored(s, m.before);
    ScanIgnored(s, m.beforeColon);
    hide ScanByte, ScanAll, Seen, ItemBytes, Quoted, Depth;
    ScanQuoted(s, m.key);
    ScanSeparator(s, 0x3A);
    ScanSkips(s, m.before, Quoted(m.key));
    ScanSkips(s, m.before + Quoted(m.key), m.beforeColon);
    ScanSkips(s, m.before + Quoted(m.key) + m.beforeColon, [0x3A]);
    ScanSkips(s, m.before + Quoted(m.key) + m.beforeColon + [0x3A], ItemBytes(m.item));
    ScanItem(s, m.item);
  }

  lemma {:induction false} ScanMembers(s: Scan, members: seq<Member>)
    requires Outside(s) && s.depth <= s.maximum && members != []
    requires forall i :: 0 <= i < |members| ==>
               && Blanks(members[i].before) && UnitsOk(members[i].key) && Blanks(members[i].beforeColon)
               && ItemOk(members[i].item)
    ensures ScanAll(s, MembersBytes(members)) == Seen(s, MembersDepth(members))
    decreases members, 0
  {
    hide ScanByte, ScanAll, Seen, MemberBytes, Depth;
    ScanMember(s, members[0]);
    if |members| > 1 {
      var d := Depth(members[0].item.value);
      SeenKeeps(s, d);
      ScanMembers(Seen(s, d), members[1..]);
      ScanCommaSeparated(s, MemberBytes(members[0]), MembersBytes(members[1..]), d, MembersDepth(members[1..]));
    }
  }

  /** On every text of every JSON value the scan returns the structural depth. */
  lemma NestingDepthIsStructural(text: Item)
    requires ItemOk(text)
    ensures ScanAll(START, ItemBytes(text)).maximum == Depth(text.value)
  {
    ScanItem(START, text);
  }
}
