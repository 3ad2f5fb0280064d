/**
 Parsed webhook bodies and the key escaping of app/ingest/parser.py. A dict is an ordered list of pairs; building one
 from a comprehension overwrites the value of a key already present and keeps its place, as Python does.
 */
module Body {
  const DOT: char := '\U{FF0E}'
  const DOLLAR: char := '\U{FF04}'

  /** `Number` carries the decimal text Python's str gives the number. */
  datatype Body =
    | Null
    | Bool(truth: bool)
    | Number(text: string)
    | Text(value: string)
    | List(items: seq<Body>)
    | Dict(pairs: seq<Pair>)

  datatype Pair = Pair(key: string, value: Body)

  function Replace(s: string, from: char, to: char): (r: string) {
    if s == [] then [] else [if s[0] == from then to else s[0]] + Replace(s[1..], from, to)
  }

  function EscapeKey(key: string): string {
    var dotless := Replace(key, '.', DOT);
    if dotless != [] && dotless[0] == '$' then [DOLLAR] + dotless[1..] else dotless
  }

  function UnescapeKey(key: string): string {
    var dotted := Replace(key, DOT, '.');
    if dotted != [] && dotted[0] == DOLLAR then ['$'] + dotted[1..] else dotted
  }

  function Put(pairs: seq<Pair>, key: string, value: Body): seq<Pair> {
    if pairs == [] then [Pair(key, value)]
    else if pairs[0].key == key then [Pair(key, value)] + pairs[1..]
    else [pairs[0]] + Put(pairs[1..], key, value)
  }

  /** The dict a comprehension over `pairs` builds. */
  function Collapse(pairs: seq<Pair>): seq<Pair> {
    if pairs == [] then []
    else
      var last := pairs[|pairs| - 1];
      Put(Collapse(pairs[..|pairs| - 1]), last.key, last.value)
  }

  function EscapeKeys(body: Body): Body
    decreases body, 1
  {
    match body
    case List(items) => List(EscapeItems(items))
    case Dict(pairs) => Dict(Collapse(EscapePairs(pairs)))
    case _ => body
  }

  function EscapeItems(items: seq<Body>): (r: seq<Body>)
    decreases items, 0
  {
    if items == [] then [] else [EscapeKeys(items[0])] + EscapeItems(items[1..])
  }

  function EscapePairs(pairs: seq<Pair>): seq<Pair>
    decreases pairs, 0
  {
    if pairs == [] then []
    else [Pair(EscapeKey(pairs[0].key), EscapeKeys(pairs[0].value))] + EscapePairs(pairs[1..])
  }

  function UnescapeKeys(body: Body): Body
    decreases body, 1
  {
    match body
    case List(items) => List(UnescapeItems(items))
    case Dict(pairs) => Dict(Collapse(UnescapePairs(pairs)))
    case _ => body
  }

  function UnescapeItems(items: seq<Body>): seq<Body>
    decreases items, 0
  {
    if items == [] then [] else [UnescapeKeys(items[0])] + UnescapeItems(items[1..])
  }

  function UnescapePairs(pairs: seq<Pair>): seq<Pair>
    decreases pairs, 0
  {
    if pairs == [] then []
    else [Pair(UnescapeKey(pairs[0].key), UnescapeKeys(pairs[0].value))] + UnescapePairs(pairs[1..])
  }

  // ---- what is said of keys, at every depth ----

  predicate DistinctKeys(pairs: seq<Pair>) {
    forall i, j :: 0 <= i < j < |pairs| ==> pairs[i].key != pairs[j].key
  }

  /** A value Python can hold: no dict repeats a key. */
  predicate WellFormed(body: Body)
    decreases body
  {
    match body
    case List(items) => forall i :: 0 <= i < |items| ==> WellFormed(items[i])
    case Dict(pairs) => DistinctKeys(pairs) && forall i :: 0 <= i < |pairs| ==> WellFormed(pairs[i].value)
    case _ => true
  }

  ghost predicate AllKeys(body: Body, ok: string -> bool)
    decreases body
  {
    match body
    case List(items) => forall i :: 0 <= i < |items| ==> AllKeys(items[i], ok)
    case Dict(pairs) => forall i :: 0 <= i < |pairs| ==> ok(pairs[i].key) && AllKeys(pairs[i].value, ok)
    case _ => true
  }

  /** Holds neither lookalike where unescaping would touch it. */
  predicate CleanKey(key: string) {
    DOT !in key && (key != [] ==> key[0] != DOLLAR)
  }

  /** What MongoDB accepts as a field name. */
  predicate StorableKey(key: string) {
    '.' !in key && (key != [] ==> key[0] != '$')
  }

  // ---- keys ----

  lemma {:induction false} Replaced(s: string, from: char, to: char)
    requires from != to
    ensures |Replace(s, from, to)| == |s|
    ensures from !in Replace(s, from, to)
    ensures s != [] ==> Replace(s, from, to)[0] == if s[0] == from then to else s[0]
    ensures s != [] ==> Replace(s, from, to)[1..] == Replace(s[1..], from, to)
    ensures forall c :: c != from && c != to ==> (c in s <==> c in Replace(s, from, to))
  {
    if s != [] {
      Replaced(s[1..], from, to);
      assert s == [s[0]] + s[1..];
    }
  }

  lemma {:induction false} ReplacedAt(s: string, from: char, to: char)
    ensures |Replace(s, from, to)| == |s|
    ensures forall i :: 0 <= i < |s| ==> Replace(s, from, to)[i] == if s[i] == from then to else s[i]
  {
    if s != [] {
      ReplacedAt(s[1..], from, to);
    }
  }

  lemma {:induction false} ReplacedBack(s: string, from: char, to: char)
    requires to !in s
    ensures Replace(Replace(s, from, to), to, from) == s
  {
    if s != [] {
      assert s == [s[0]] + s[1..];
      ReplacedBack(s[1..], from, to);
    }
  }

  lemma EscapedKeyIsStorable(key: string)
    ensures StorableKey(EscapeKey(key))
  {
    Replaced(key, '.', DOT);
  }

  lemma UnescapedKeyIsClean(key: string)
    ensures CleanKey(UnescapeKey(key))
  {
    Replaced(key, DOT, '.');
  }

  /** Dots become U+FF0E and a leading dollar sign U+FF04, and back; no other character changes. */
  lemma KeysAreExchanged(key: string)
    ensures |EscapeKey(key)| == |key| == |UnescapeKey(key)|
    ensures forall i :: 0 <= i < |key| ==>
              && EscapeKey(key)[i] as int ==
                 (if key[i] == '.' then 0xFF0E else if i == 0 && key[i] == '$' then 0xFF04 else key[i] as int)
              && UnescapeKey(key)[i] as int ==
                 (if key[i] as int == 0xFF0E then '.' as int
                  else if i == 0 && key[i] as int == 0xFF04 then '$' as int else key[i] as int)
  {
    ReplacedAt(key, '.', DOT);
    ReplacedAt(key, DOT, '.');
  }

  lemma CleanKeyRoundTrip(key: string)
    requires CleanKey(key)
    ensures UnescapeKey(EscapeKey(key)) == key
  {
    if key != [] {
      Replaced(key, '.', DOT);
      ReplacedBack(key, '.', DOT);
      ReplacedBack(key[1..], '.', DOT);
      Replaced(EscapeKey(key), DOT, '.');
      assert key == [key[0]] + key[1..];
    }
  }

  // ---- dicts ----

  predicate HasKey(pairs: seq<Pair>, key: string) {
    exists i :: 0 <= i < |pairs| && pairs[i].key == key
  }

  lemma {:induction false} PutNew(pairs: seq<Pair>, key: string, value: Body)
    requires !HasKey(pairs, key)
    ensures Put(pairs, key, value) == pairs + [Pair(key, value)]
  {
    if pairs != [] {
      assert pairs[0].key != key;
      PutNew(pairs[1..], key, value);
    }
  }

  lemma {:induction false} PutPairs(pairs: seq<Pair>, key: string, value: Body)
    ensures forall p :: p in Put(pairs, key, value) ==> p in pairs || p == Pair(key, value)
  {
    if pairs != [] {
      PutPairs(pairs[1..], key, value);
    }
  }

  /** With no two keys alike a comprehension keeps every pair. */
  lemma {:induction false} CollapseDistinct(pairs: seq<Pair>)
    requires DistinctKeys(pairs)
    ensures Collapse(pairs) == pairs
  {
    if pairs != [] {
      var before, last := pairs[..|pairs| - 1], pairs[|pairs| - 1];
      CollapseDistinct(before);
      PutNew(before, last.key, last.value);
    }
  }

  lemma {:induction false} CollapseSubset(pairs: seq<Pair>)
    ensures forall p :: p in Collapse(pairs) ==> p in pairs
  {
    if pairs != [] {
      var before, last := pairs[..|pairs| - 1], pairs[|pairs| - 1];
      CollapseSubset(before);
      PutPairs(Collapse(before), last.key, last.value);
    }
  }

  // ---- the round trip ----

  lemma {:induction false} EscapedPairsAt(pairs: seq<Pair>)
    ensures |EscapePairs(pairs)| == |pairs|
    ensures forall i :: 0 <= i < |pairs| ==>
              EscapePairs(pairs)[i] == Pair(EscapeKey(pairs[i].key), EscapeKeys(pairs[i].value))
  {
    if pairs != [] {
      EscapedPairsAt(pairs[1..]);
    }
  }

  lemma {:induction false} UnescapedPairsAt(pairs: seq<Pair>)
    ensures |UnescapePairs(pairs)| == |pairs|
    ensures forall i :: 0 <= i < |pairs| ==>
              UnescapePairs(pairs)[i] == Pair(UnescapeKey(pairs[i].key), UnescapeKeys(pairs[i].value))
  {
    if pairs != [] {
      UnescapedPairsAt(pairs[1..]);
    }
  }

  lemma {:induction false} EscapedItemsAt(items: seq<Body>)
    ensures |EscapeItems(items)| == |items|
    ensures forall i :: 0 <= i < |items| ==> EscapeItems(items)[i] == EscapeKeys(items[i])
  {
    if items != [] {
      EscapedItemsAt(items[1..]);
    }
  }

  lemma {:induction false} UnescapedItemsAt(items: seq<Body>)
    ensures |UnescapeItems(items)| == |items|
    ensures forall i :: 0 <= i < |items| ==> UnescapeItems(items)[i] == UnescapeKeys(items[i])
  {
    if items != [] {
      UnescapedItemsAt(items[1..]);
    }
  }

  /** Every stored body has field names MongoDB accepts, at every depth. */
  lemma {:induction false} EscapedBodyIsStorable(body: Body)
    ensures AllKeys(EscapeKeys(body), StorableKey)
    decreases body
  {
    match body
    case List(items) =>
      EscapedItemsAt(items);
      forall i | 0 <= i < |items| ensures AllKeys(EscapeKeys(items[i]), StorableKey) {
        EscapedBodyIsStorable(items[i]);
      }
    case Dict(pairs) =>
      EscapedPairsAt(pairs);
      CollapseSubset(EscapePairs(pairs));
      forall i | 0 <= i < |pairs|
        ensures StorableKey(EscapeKey(pairs[i].key)) && AllKeys(EscapeKeys(pairs[i].value), StorableKey)
      {
        EscapedKeyIsStorable(pairs[i].key);
        EscapedBodyIsStorable(pairs[i].value);
      }
      forall p | p in Collapse(EscapePairs(pairs))
        ensures StorableKey(p.key) && AllKeys(p.value, StorableKey)
      {
        assert p in EscapePairs(pairs);
      }
    case _ =>
  }

  lemma {:induction false} UnescapedBodyIsClean(body: Body)
    ensures AllKeys(UnescapeKeys(body), CleanKey)
    decreases body
  {
    match body
    case List(items) =>
      UnescapedItemsAt(items);
      forall i | 0 <= i < |items| ensures AllKeys(UnescapeKeys(items[i]), CleanKey) {
        UnescapedBodyIsClean(items[i]);
      }
    case Dict(pairs) =>
      UnescapedPairsAt(pairs);
      CollapseSubset(UnescapePairs(pairs));
      forall i | 0 <= i < |pairs|
        ensures CleanKey(UnescapeKey(pairs[i].key)) && AllKeys(UnescapeKeys(pairs[i].value), CleanKey)
      {
        UnescapedKeyIsClean(pairs[i].key);
        UnescapedBodyIsClean(pairs[i].value);
      }
      forall p | p in Collapse(UnescapePairs(pairs))
        ensures CleanKey(p.key) && AllKeys(p.value, CleanKey)
      {
        assert p in UnescapePairs(pairs);
      }
    case _ =>
  }

  /** Clean keys stay apart when escaped: no two are merged and no pair is lost. */
  lemma EscapeMergesNoCleanKeys(pairs: seq<Pair>)
    requires DistinctKeys(pairs) && forall i :: 0 <= i < |pairs| ==> CleanKey(pairs[i].key)
    ensures DistinctKeys(EscapePairs(pairs)) && Collapse(EscapePairs(pairs)) == EscapePairs(pairs)
  {
    EscapedPairsAt(pairs);
    forall i | 0 <= i < |pairs| ensures UnescapeKey(EscapeKey(pairs[i].key)) == pairs[i].key {
      CleanKeyRoundTrip(pairs[i].key);
    }
    CollapseDistinct(EscapePairs(pairs));
  }

  lemma {:induction false} CleanBodyRoundTrip(body: Body)
    requires WellFormed(body) && AllKeys(body, CleanKey)
    ensures UnescapeKeys(EscapeKeys(body)) == body
    decreases body
  {
    match body
    case List(items) =>
      EscapedItemsAt(items);
      UnescapedItemsAt(EscapeItems(items));
      forall i | 0 <= i < |items| ensures UnescapeKeys(EscapeKeys(items[i])) == items[i] {
        CleanBodyRoundTrip(items[i]);
      }
      assert UnescapeItems(EscapeItems(items)) == items;
    case Dict(pairs) =>
      EscapeMergesNoCleanKeys(pairs);
      EscapedPairsAt(pairs);
      UnescapedPairsAt(EscapePairs(pairs));
      forall i | 0 <= i < |pairs|
        ensures Pair(UnescapeKey(EscapeKey(pairs[i].key)), UnescapeKeys(EscapeKeys(pairs[i].value))) == pairs[i]
      {
        CleanKeyRoundTrip(pairs[i].key);
        CleanBodyRoundTrip(pairs[i].value);
      }
      assert UnescapePairs(EscapePairs(pairs)) == pairs;
      CollapseDistinct(pairs);
    case _ =>
  }

  /** Unescaping undoes escaping exactly on the bodies none of whose keys holds a lookalike in its way. */
  lemma EscapeRoundTripIffClean(body: Body)
    requires WellFormed(body)
    ensures UnescapeKeys(EscapeKeys(body)) == body <==> AllKeys(body, CleanKey)
  {
    UnescapedBodyIsClean(EscapeKeys(body));
    if AllKeys(body, CleanKey) {
      CleanBodyRoundTrip(body);
    }
  }

  lemma {:induction false} ReplaceNothing(s: string, from: char, to: char)
    requires from !in s
    ensures Replace(s, from, to) == s
  {
    if s != [] {
      assert s == [s[0]] + s[1..];
      ReplaceNothing(s[1..], from, to);
    }
  }

  lemma {:induction false} StorableBodyIsUnchanged(body: Body)
    requires WellFormed(body) && AllKeys(body, StorableKey)
    ensures EscapeKeys(body) == body
    decreases body
  {
    match body
    case List(items) =>
      EscapedItemsAt(items);
      forall i | 0 <= i < |items| ensures EscapeKeys(items[i]) == items[i] {
        StorableBodyIsUnchanged(items[i]);
      }
      assert EscapeItems(items) == items;
    case Dict(pairs) =>
      EscapedPairsAt(pairs);
      forall i | 0 <= i < |pairs| ensures EscapePairs(pairs)[i] == pairs[i] {
        ReplaceNothing(pairs[i].key, '.', DOT);
        StorableBodyIsUnchanged(pairs[i].value);
      }
      assert EscapePairs(pairs) == pairs;
      CollapseDistinct(pairs);
    case _ =>
  }

  /** Escaping leaves alone exactly the bodies whose keys MongoDB would accept as they are. */
  lemma EscapeIsIdentityIffStorable(body: Body)
    requires WellFormed(body)
    ensures EscapeKeys(body) == body <==> AllKeys(body, StorableKey)
  {
    EscapedBodyIsStorable(body);
    if AllKeys(body, StorableKey) {
      StorableBodyIsUnchanged(body);
    }
  }
}
