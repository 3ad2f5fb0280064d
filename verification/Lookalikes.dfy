/**
 What storing a body does to the strings that are indexed. Escaping and unescaping both rename the keys of every dict
 and may merge some; the strings collected afterwards are the same exactly when every indexed key came back as it was.
 */
module Lookalikes {
  import opened Body
  import opened Tokenize

  // ---- a secret key stays secret ----

  predicate Mark(c: char) {
    c == '.' || c == '$' || c == DOT || c == DOLLAR
  }

  predicate MarkFree(s: string) {
    forall c :: c in s ==> !Mark(c)
  }

  predicate SameButMarks(s: string, t: string) {
    |s| == |t| && forall i :: 0 <= i < |s| ==> s[i] == t[i] || (Mark(s[i]) && Mark(t[i]))
  }

  lemma {:induction false} ContainsIgnoresMarks(s: string, t: string, part: string)
    requires SameButMarks(s, t) && MarkFree(part)
    ensures Contains(s, part) <==> Contains(t, part)
  {
    assert forall i :: 0 <= i < |part| ==> part[i] in part;
    assert part <= s <==> part <= t;
    if s != [] {
      ContainsIgnoresMarks(s[1..], t[1..], part);
    }
  }

  lemma SensitiveKeysAreMarkFree()
    ensures forall k :: 0 <= k < |SENSITIVE_KEYS| ==> MarkFree(SENSITIVE_KEYS[k])
  {
    FirstKeysAreMarkFree();
    LastKeysAreMarkFree();
  }

  lemma FirstKeysAreMarkFree()
    ensures forall k :: 0 <= k < 7 ==> MarkFree(SENSITIVE_KEYS[k])
  {
  }

  lemma LastKeysAreMarkFree()
    ensures forall k :: 7 <= k < |SENSITIVE_KEYS| ==> MarkFree(SENSITIVE_KEYS[k])
  {
  }

  lemma SensitiveIgnoresMarks(s: string, t: string)
    requires SameButMarks(s, t)
    ensures Sensitive(s) <==> Sensitive(t)
  {
    SensitiveKeysAreMarkFree();
    forall k | 0 <= k < |SENSITIVE_KEYS|
      ensures Contains(Lower(s), SENSITIVE_KEYS[k]) <==> Contains(Lower(t), SENSITIVE_KEYS[k])
    {
      ContainsIgnoresMarks(Lower(s), Lower(t), SENSITIVE_KEYS[k]);
    }
  }

  ghost predicate KeepsSecrets(f: string -> string) {
    forall key :: Sensitive(f(key)) <==> Sensitive(key)
  }

  lemma EscapingKeepsSecrets()
    ensures KeepsSecrets(EscapeKey) && KeepsSecrets(UnescapeKey)
  {
    hide Sensitive;
    forall key ensures Sensitive(EscapeKey(key)) == Sensitive(key) && Sensitive(UnescapeKey(key)) == Sensitive(key) {
      ReplacedAt(key, '.', DOT);
      ReplacedAt(key, DOT, '.');
      SensitiveIgnoresMarks(EscapeKey(key), key);
      SensitiveIgnoresMarks(UnescapeKey(key), key);
    }
  }

  // ---- escaping as renaming ----

  function Renamed(body: Body, f: string -> string): Body
    decreases body, 1
  {
    match body
    case List(items) => List(RenamedItems(items, f))
    case Dict(pairs) => Dict(Collapse(RenamedPairs(pairs, f)))
    case _ => body
  }

  function RenamedItems(items: seq<Body>, f: string -> string): (r: seq<Body>)
    ensures |r| == |items| && forall i :: 0 <= i < |items| ==> r[i] == Renamed(items[i], f)
    decreases items, 0
  {
    if items == [] then [] else RenamedItems(items[..|items| - 1], f) + [Renamed(items[|items| - 1], f)]
  }

  function RenamedPairs(pairs: seq<Pair>, f: string -> string): (r: seq<Pair>)
    ensures |r| == |pairs|
    ensures forall i :: 0 <= i < |pairs| ==> r[i] == Pair(f(pairs[i].key), Renamed(pairs[i].value, f))
    decreases pairs, 0
  {
    if pairs == [] then []
    else
      var last := pairs[|pairs| - 1];
      RenamedPairs(pairs[..|pairs| - 1], f) + [Pair(f(last.key), Renamed(last.value, f))]
  }

  lemma {:induction false} EscapingIsRenaming(body: Body)
    ensures EscapeKeys(body) == Renamed(body, EscapeKey) && UnescapeKeys(body) == Renamed(body, UnescapeKey)
    decreases body
  {
    hide EscapeKey, UnescapeKey;
    match body
    case List(items) =>
      EscapedItemsAt(items);
      UnescapedItemsAt(items);
      forall i | 0 <= i < |items|
        ensures EscapeKeys(items[i]) == Renamed(items[i], EscapeKey)
        ensures UnescapeKeys(items[i]) == Renamed(items[i], UnescapeKey)
      {
        EscapingIsRenaming(items[i]);
      }
      assert EscapeItems(items) == RenamedItems(items, EscapeKey);
      assert UnescapeItems(items) == RenamedItems(items, UnescapeKey);
    case Dict(pairs) =>
      EscapedPairsAt(pairs);
      UnescapedPairsAt(pairs);
      forall i | 0 <= i < |pairs|
        ensures EscapeKeys(pairs[i].value) == Renamed(pairs[i].value, EscapeKey)
        ensures UnescapeKeys(pairs[i].value) == Renamed(pairs[i].value, UnescapeKey)
      {
        EscapingIsRenaming(pairs[i].value);
      }
      assert EscapePairs(pairs) == RenamedPairs(pairs, EscapeKey);
      assert UnescapePairs(pairs) == RenamedPairs(pairs, UnescapeKey);
    case _ =>
  }

  // ---- deleting secrets commutes with renaming ----

  lemma PutAfter(p: Pair, rest: seq<Pair>, key: string, value: Body)
    ensures Put([p] + rest, key, value) ==
            if p.key == key then [Pair(key, value)] + rest else [p] + Put(rest, key, value)
  {
    assert ([p] + rest)[1..] == rest;
  }

  /** What is left of one pair. */
  function Kept(p: Pair): seq<Pair> {
    if Sensitive(p.key) then [] else [Pair(p.key, PublicBody(p.value))]
  }

  lemma {:induction false} PublicOfPut(pairs: seq<Pair>, key: string, value: Body)
    ensures PublicPairs(Put(pairs, key, value)) ==
            if Sensitive(key) then PublicPairs(pairs) else Put(PublicPairs(pairs), key, PublicBody(value))
  {
    var one := Pair(key, value);
    PublicOfOne(one);
    if pairs == [] {
      assert Put(pairs, key, value) == [one];
    } else {
      var first, rest := pairs[0], pairs[1..];
      assert pairs == [first] + rest;
      PublicOfPut(rest, key, value);
      hide Sensitive, PublicBody, Put, PublicPairs;
      PublicOfFirst(first, rest);
      PutAfter(first, rest, key, value);
      PublicOfFirst(one, rest);
      PublicOfFirst(first, Put(rest, key, value));
      if !Sensitive(first.key) {
        PutAfter(Pair(first.key, PublicBody(first.value)), PublicPairs(rest), key, PublicBody(value));
      } else if first.key != key {
        assert PublicPairs(pairs) == PublicPairs(rest);
      }
    }
  }

  lemma PublicOfFirst(p: Pair, rest: seq<Pair>)
    ensures PublicPairs([p] + rest) == if Sensitive(p.key) then PublicPairs(rest) else Kept(p) + PublicPairs(rest)
  {
    hide Sensitive, PublicBody, PublicPairs;
    PublicOfOne(p);
    PublicOfJoin([p], rest);
  }

  lemma PublicOfLast(before: seq<Pair>, p: Pair)
    ensures PublicPairs(before + [p]) == if Sensitive(p.key) then PublicPairs(before) else PublicPairs(before) + Kept(p)
  {
    hide Sensitive, PublicBody, PublicPairs;
    PublicOfOne(p);
    PublicOfJoin(before, [p]);
  }

  lemma PublicOfOne(p: Pair)
    ensures PublicPairs([p]) == Kept(p)
  {
    hide Sensitive;
    assert [p][..0] == [];
  }

  lemma {:induction false} PublicOfJoin(a: seq<Pair>, b: seq<Pair>)
    ensures PublicPairs(a + b) == PublicPairs(a) + PublicPairs(b)
  {
    hide Sensitive, PublicBody;
    if b == [] {
      assert a + b == a;
    } else {
      assert (a + b)[..|a + b| - 1] == a + b[..|b| - 1];
      PublicOfJoin(a, b[..|b| - 1]);
    }
  }

  lemma {:induction false} PublicOfCollapse(pairs: seq<Pair>)
    ensures PublicPairs(Collapse(pairs)) == Collapse(PublicPairs(pairs))
  {
    if pairs != [] {
      var before, last := pairs[..|pairs| - 1], pairs[|pairs| - 1];
      assert pairs == before + [last];
      PublicOfCollapse(before);
      hide Sensitive, PublicBody, Put, PublicPairs, Collapse;
      CollapseOneMore(before, last);
      PublicOfLast(before, last);
      PublicOfPut(Collapse(before), last.key, last.value);
      if !Sensitive(last.key) {
        CollapseOneMore(PublicPairs(before), Pair(last.key, PublicBody(last.value)));
      }
    }
  }

  lemma CollapseOneMore(pairs: seq<Pair>, last: Pair)
    ensures Collapse(pairs + [last]) == Put(Collapse(pairs), last.key, last.value)
  {
    assert (pairs + [last])[..|pairs|] == pairs;
  }

  lemma {:induction false} PublicOfRenamed(body: Body, f: string -> string)
    requires KeepsSecrets(f)
    ensures PublicBody(Renamed(body, f)) == Renamed(PublicBody(body), f)
    decreases body, 1
  {
    match body
    case List(items) => PublicOfRenamedItems(items, f);
    case Dict(pairs) =>
      PublicOfRenamedPairs(pairs, f);
      PublicOfCollapse(RenamedPairs(pairs, f));
    case _ =>
  }

  lemma {:induction false} PublicOfRenamedItems(items: seq<Body>, f: string -> string)
    requires KeepsSecrets(f)
    ensures PublicItems(RenamedItems(items, f)) == RenamedItems(PublicItems(items), f)
    decreases items, 0
  {
    hide KeepsSecrets;
    if items != [] {
      var before, last := items[..|items| - 1], items[|items| - 1];
      PublicOfRenamedItems(before, f);
      PublicOfRenamed(last, f);
      assert RenamedItems(items, f)[..|before|] == RenamedItems(before, f);
      assert (PublicItems(before) + [PublicBody(last)])[..|PublicItems(before)|] == PublicItems(before);
    }
  }

  lemma {:induction false} PublicOfRenamedPairs(pairs: seq<Pair>, f: string -> string)
    requires KeepsSecrets(f)
    ensures PublicPairs(RenamedPairs(pairs, f)) == RenamedPairs(PublicPairs(pairs), f)
    decreases pairs, 0
  {
    hide Sensitive;
    if pairs != [] {
      var before, last := pairs[..|pairs| - 1], pairs[|pairs| - 1];
      PublicOfRenamedPairs(before, f);
      PublicOfRenamed(last.value, f);
      assert RenamedPairs(pairs, f)[..|before|] == RenamedPairs(before, f);
      if !Sensitive(last.key) {
        var kept := Pair(last.key, PublicBody(last.value));
        assert (PublicPairs(before) + [kept])[..|PublicPairs(before)|] == PublicPairs(before);
      }
    }
  }

  // ---- all strings of a body ----

  /** Every key and text, secret or not. */
  function Strings(body: Body): seq<string>
    decreases body, 1
  {
    match body
    case Dict(pairs) => PairStrings(pairs)
    case List(items) => ItemStrings(items)
    case Text(s) => [s]
    case Number(text) => [text]
    case Bool(_) => []
    case Null => []
  }

  function ItemStrings(items: seq<Body>): seq<string>
    decreases items, 0
  {
    if items == [] then [] else ItemStrings(items[..|items| - 1]) + Strings(items[|items| - 1])
  }

  function PairStrings(pairs: seq<Pair>): seq<string>
    decreases pairs, 0
  {
    if pairs == [] then []
    else
      var last := pairs[|pairs| - 1];
      PairStrings(pairs[..|pairs| - 1]) + ([last.key] + Strings(last.value))
  }

  /** What is indexed of a body is every string of what is left when the secrets are deleted. */
  lemma {:induction false} IndexedIsPublic(body: Body)
    ensures Collected(body) == Strings(PublicBody(body))
    decreases body, 1
  {
    match body
    case List(items) => IndexedItems(items);
    case Dict(pairs) => IndexedPairs(pairs);
    case _ =>
  }

  lemma {:induction false} IndexedItems(items: seq<Body>)
    ensures CollectedItems(items) == ItemStrings(PublicItems(items))
    decreases items, 0
  {
    if items != [] {
      var before, last := items[..|items| - 1], items[|items| - 1];
      IndexedItems(before);
      IndexedIsPublic(last);
      assert (PublicItems(before) + [PublicBody(last)])[..|PublicItems(before)|] == PublicItems(before);
    }
  }

  lemma {:induction false} IndexedPairs(pairs: seq<Pair>)
    ensures CollectedPairs(pairs) == PairStrings(PublicPairs(pairs))
    decreases pairs, 0
  {
    hide Sensitive, PublicBody, PublicPairs;
    if pairs == [] {
      PublicOfNone();
    } else {
      var before, last := pairs[..|pairs| - 1], pairs[|pairs| - 1];
      assert pairs == before + [last];
      IndexedPairs(before);
      PublicOfLast(before, last);
      if !Sensitive(last.key) {
        IndexedIsPublic(last.value);
        hide PairStrings;
        StringsOfOne(Kept(last)[0]);
        StringsOfJoin(PublicPairs(before), Kept(last));
      }
    }
  }

  lemma PublicOfNone()
    ensures PublicPairs([]) == []
  {
  }

  // ---- renaming never adds a string, and merging loses one ----

  lemma StringsOfOneMore(pairs: seq<Pair>, p: Pair)
    ensures PairStrings(pairs + [p]) == PairStrings(pairs) + ([p.key] + Strings(p.value))
  {
    hide Strings;
    assert (pairs + [p])[..|pairs|] == pairs;
  }

  lemma {:induction false} StringsOfJoin(a: seq<Pair>, b: seq<Pair>)
    ensures PairStrings(a + b) == PairStrings(a) + PairStrings(b)
  {
    if b == [] {
      assert a + b == a;
    } else {
      hide Strings, PairStrings;
      var before, last := b[..|b| - 1], b[|b| - 1];
      StringsOfJoin(a, before);
      StringsOfOneMore(before, last);
      StringsOfOneMore(a + before, last);
      var one := [last.key] + Strings(last.value);
      assert b == before + [last] && a + b == a + before + [last];
      assert PairStrings(a + b) == PairStrings(a) + PairStrings(before) + one;
    }
  }

  lemma StringsOfOne(p: Pair)
    ensures PairStrings([p]) == [p.key] + Strings(p.value)
  {
    hide Strings;
    assert [p][..0] == [];
  }

  lemma {:induction false} PutCannotGrow(pairs: seq<Pair>, key: string, value: Body)
    ensures |PairStrings(Put(pairs, key, value))| <= |PairStrings(pairs)| + 1 + |Strings(value)|
    ensures Put(pairs, key, value) == pairs + [Pair(key, value)]
            || |PairStrings(Put(pairs, key, value))| < |PairStrings(pairs)| + 1 + |Strings(value)|
  {
    hide Strings, PairStrings;
    StringsOfOne(Pair(key, value));
    if pairs == [] {
      StringsOfJoin(pairs, [Pair(key, value)]);
      assert pairs + [Pair(key, value)] == [Pair(key, value)];
    } else {
      assert pairs == [pairs[0]] + pairs[1..];
      StringsOfOne(pairs[0]);
      StringsOfJoin([pairs[0]], pairs[1..]);
      if pairs[0].key == key {
        StringsOfJoin([Pair(key, value)], pairs[1..]);
      } else {
        PutCannotGrow(pairs[1..], key, value);
        StringsOfJoin([pairs[0]], Put(pairs[1..], key, value));
      }
    }
  }

  lemma {:induction false} CollapseCannotGrow(pairs: seq<Pair>)
    ensures |PairStrings(Collapse(pairs))| <= |PairStrings(pairs)|
    ensures |PairStrings(Collapse(pairs))| == |PairStrings(pairs)| ==> Collapse(pairs) == pairs
  {
    hide Strings, Put;
    if pairs != [] {
      var before, last := pairs[..|pairs| - 1], pairs[|pairs| - 1];
      CollapseCannotGrow(before);
      PutCannotGrow(Collapse(before), last.key, last.value);
      assert pairs == before + [last];
    }
  }

  lemma {:induction false} RenamingCannotGrow(body: Body, f: string -> string)
    ensures |Strings(Renamed(body, f))| <= |Strings(body)|
    decreases body, 1
  {
    match body
    case List(items) => RenamingItemsCannotGrow(items, f);
    case Dict(pairs) =>
      RenamingPairsCannotGrow(pairs, f);
      CollapseCannotGrow(RenamedPairs(pairs, f));
    case _ =>
  }

  lemma {:induction false} RenamingItemsCannotGrow(items: seq<Body>, f: string -> string)
    ensures |ItemStrings(RenamedItems(items, f))| <= |ItemStrings(items)|
    decreases items, 0
  {
    if items != [] {
      var before, last := items[..|items| - 1], items[|items| - 1];
      RenamingItemsCannotGrow(before, f);
      RenamingCannotGrow(last, f);
      assert RenamedItems(items, f)[..|before|] == RenamedItems(before, f);
    }
  }

  lemma {:induction false} RenamingPairsCannotGrow(pairs: seq<Pair>, f: string -> string)
    ensures |PairStrings(RenamedPairs(pairs, f))| <= |PairStrings(pairs)|
    decreases pairs, 0
  {
    if pairs != [] {
      var before, last := pairs[..|pairs| - 1], pairs[|pairs| - 1];
      RenamingPairsCannotGrow(before, f);
      RenamingCannotGrow(last.value, f);
      assert RenamedPairs(pairs, f)[..|before|] == RenamedPairs(before, f);
    }
  }

  // ---- equal strings align ----

  ghost predicate NoLonger(a: Body, b: Body) {
    |Strings(a)| <= |Strings(b)|
  }

  lemma PartsAlign(a: seq<string>, b: seq<string>, c: seq<string>, d: seq<string>)
    requires |a| <= |c| && |b| <= |d| && a + b == c + d
    ensures a == c && b == d
  {
    assert a == (a + b)[..|a|] && b == (a + b)[|a|..];
  }

  lemma {:induction false} ItemsAlign(a: seq<Body>, b: seq<Body>)
    requires |a| == |b| && forall i :: 0 <= i < |a| ==> NoLonger(a[i], b[i])
    ensures |ItemStrings(a)| <= |ItemStrings(b)|
    ensures ItemStrings(a) == ItemStrings(b) ==> forall i :: 0 <= i < |a| ==> Strings(a[i]) == Strings(b[i])
  {
    hide Strings;
    if a != [] {
      var x, y, n := a[..|a| - 1], b[..|b| - 1], |a| - 1;
      ItemsAlign(x, y);
      assert NoLonger(a[n], b[n]);
      if ItemStrings(a) == ItemStrings(b) {
        PartsAlign(ItemStrings(x), Strings(a[n]), ItemStrings(y), Strings(b[n]));
        assert forall i :: 0 <= i < n ==> x[i] == a[i] && y[i] == b[i];
      }
    }
  }

  lemma PairAligns(p: Pair, q: Pair)
    ensures [p.key] + Strings(p.value) == [q.key] + Strings(q.value) ==>
              p.key == q.key && Strings(p.value) == Strings(q.value)
  {
    hide Strings;
    var s, t := [p.key] + Strings(p.value), [q.key] + Strings(q.value);
    assert s[0] == p.key && t[0] == q.key && s[1..] == Strings(p.value) && t[1..] == Strings(q.value);
  }

  lemma {:induction false} PairsAlign(a: seq<Pair>, b: seq<Pair>)
    requires |a| == |b| && forall i :: 0 <= i < |a| ==> NoLonger(a[i].value, b[i].value)
    ensures |PairStrings(a)| <= |PairStrings(b)|
    ensures PairStrings(a) == PairStrings(b) ==>
              forall i :: 0 <= i < |a| ==> a[i].key == b[i].key && Strings(a[i].value) == Strings(b[i].value)
  {
    if a != [] {
      var x, y, n := a[..|a| - 1], b[..|b| - 1], |a| - 1;
      PairsAlign(x, y);
      hide Strings, PairStrings;
      assert a == x + [a[n]] && b == y + [b[n]] && NoLonger(a[n].value, b[n].value);
      StringsOfOneMore(x, a[n]);
      StringsOfOneMore(y, b[n]);
      if PairStrings(a) == PairStrings(b) {
        PartsAlign(PairStrings(x), [a[n].key] + Strings(a[n].value), PairStrings(y), [b[n].key] + Strings(b[n].value));
        PairAligns(a[n], b[n]);
        assert forall i :: 0 <= i < n ==> x[i] == a[i] && y[i] == b[i];
      }
    }
  }

  /** A body as it comes back from storage. */
  function Reread(body: Body): Body {
    UnescapeKeys(EscapeKeys(body))
  }

  lemma RereadIsRenamedTwice(body: Body)
    ensures Reread(body) == Renamed(Renamed(body, EscapeKey), UnescapeKey)
    ensures NoLonger(Reread(body), body)
  {
    EscapingIsRenaming(body);
    EscapingIsRenaming(EscapeKeys(body));
    RenamingCannotGrow(body, EscapeKey);
    RenamingCannotGrow(EscapeKeys(body), UnescapeKey);
  }

  /** A body that comes back with the same strings comes back the same. */
  lemma {:induction false} StringsTellTheBody(body: Body)
    requires Strings(Reread(body)) == Strings(body)
    ensures Reread(body) == body
    decreases body
  {
    RereadIsRenamedTwice(body);
    match body
    case List(items) => ItemsComeBack(items);
    case Dict(pairs) => PairsComeBack(pairs);
    case _ =>
  }

  lemma {:induction false} ItemsComeBack(items: seq<Body>)
    requires Strings(Reread(List(items))) == Strings(List(items))
    ensures Reread(List(items)) == List(items)
    decreases items
  {
    var back := UnescapeItems(EscapeItems(items));
    EscapedItemsAt(items);
    UnescapedItemsAt(EscapeItems(items));
    assert forall i :: 0 <= i < |items| ==> back[i] == Reread(items[i]);
    forall i | 0 <= i < |items| ensures NoLonger(back[i], items[i]) {
      RereadIsRenamedTwice(items[i]);
    }
    ItemsAlign(back, items);
    forall i | 0 <= i < |items| ensures back[i] == items[i] {
      StringsTellTheBody(items[i]);
    }
    assert back == items;
  }

  lemma {:induction false} PairsComeBack(pairs: seq<Pair>)
    requires Strings(Reread(Dict(pairs))) == Strings(Dict(pairs))
    ensures Reread(Dict(pairs)) == Dict(pairs)
    decreases pairs
  {
    var back := NothingMerged(pairs);
    PairsAlign(back, pairs);
    forall i | 0 <= i < |pairs| ensures back[i] == pairs[i] {
      StringsTellTheBody(pairs[i].value);
    }
    assert back == pairs;
  }

  /** A dict that comes back with as many strings lost no pair: each came back by itself. */
  lemma NothingMerged(pairs: seq<Pair>) returns (back: seq<Pair>)
    requires |Strings(Reread(Dict(pairs)))| >= |Strings(Dict(pairs))|
    ensures Reread(Dict(pairs)) == Dict(back) && |back| == |pairs|
    ensures forall i :: 0 <= i < |pairs| ==>
              && back[i] == Pair(UnescapeKey(EscapeKey(pairs[i].key)), Reread(pairs[i].value))
              && NoLonger(back[i].value, pairs[i].value)
  {
    hide EscapeKey, UnescapeKey;
    RereadIsRenamedTwice(Dict(pairs));
    var escaped := RenamedPairs(pairs, EscapeKey);
    back := RenamedPairs(Collapse(escaped), UnescapeKey);
    RenamingPairsCannotGrow(pairs, EscapeKey);
    CollapseCannotGrow(escaped);
    RenamingPairsCannotGrow(Collapse(escaped), UnescapeKey);
    CollapseCannotGrow(back);
    forall i | 0 <= i < |pairs|
      ensures back[i] == Pair(UnescapeKey(EscapeKey(pairs[i].key)), Reread(pairs[i].value))
      ensures NoLonger(back[i].value, pairs[i].value)
    {
      RereadIsRenamedTwice(pairs[i].value);
    }
  }

  // ---- the indexed strings of a stored body ----

  lemma {:induction false} PublicIsWellFormed(body: Body)
    requires WellFormed(body)
    ensures WellFormed(PublicBody(body))
    decreases body, 1
  {
    match body
    case List(items) => PublicItemsAreWellFormed(items);
    case Dict(pairs) => PublicPairsAreWellFormed(pairs);
    case _ =>
  }

  lemma {:induction false} PublicItemsAreWellFormed(items: seq<Body>)
    requires forall i :: 0 <= i < |items| ==> WellFormed(items[i])
    ensures forall i :: 0 <= i < |PublicItems(items)| ==> WellFormed(PublicItems(items)[i])
    decreases items, 0
  {
    if items != [] {
      PublicItemsAreWellFormed(items[..|items| - 1]);
      PublicIsWellFormed(items[|items| - 1]);
    }
  }

  lemma {:induction false} PublicPairsAreWellFormed(pairs: seq<Pair>)
    requires DistinctKeys(pairs) && forall i :: 0 <= i < |pairs| ==> WellFormed(pairs[i].value)
    ensures DistinctKeys(PublicPairs(pairs))
    ensures forall i :: 0 <= i < |PublicPairs(pairs)| ==>
              WellFormed(PublicPairs(pairs)[i].value) && HasKey(pairs, PublicPairs(pairs)[i].key)
    decreases pairs, 0
  {
    hide Sensitive;
    if pairs != [] {
      var before, last := pairs[..|pairs| - 1], pairs[|pairs| - 1];
      PublicPairsAreWellFormed(before);
      PublicIsWellFormed(last.value);
      assert forall key :: HasKey(before, key) ==> HasKey(pairs, key) && key != last.key;
      assert pairs[|pairs| - 1].key == last.key;
    }
  }

  /** The indexed strings of a body survive storage exactly when no key outside the secrets holds a lookalike. */
  lemma IndexedStringsSurviveIff(body: Body)
    requires WellFormed(body)
    ensures Collected(Reread(body)) == Collected(body) <==> AllKeys(PublicBody(body), CleanKey)
  {
    var visible := PublicBody(body);
    RereadIsRenamedTwice(body);
    RereadIsRenamedTwice(visible);
    EscapingKeepsSecrets();
    hide KeepsSecrets, Reread, Strings, PublicBody, Collected, CleanKey;
    PublicOfRenamed(body, EscapeKey);
    PublicOfRenamed(Renamed(body, EscapeKey), UnescapeKey);
    assert PublicBody(Reread(body)) == Reread(visible);
    IndexedIsPublic(body);
    IndexedIsPublic(Reread(body));
    PublicIsWellFormed(body);
    SameBackIffClean(visible);
    if Strings(Reread(visible)) == Strings(visible) {
      StringsTellTheBody(visible);
    }
  }

  lemma SameBackIffClean(body: Body)
    requires WellFormed(body)
    ensures Reread(body) == body <==> AllKeys(body, CleanKey)
  {
    EscapeRoundTripIffClean(body);
  }
}
