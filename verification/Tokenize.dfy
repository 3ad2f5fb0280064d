/**
 Search terms of an event: app/search/tokenize.py. Text is taken as ASCII: only A-Z have a lower case, and strip
 removes the ASCII characters Python counts as white space.
 */
module Tokenize {
  import opened Prelude
  import opened Body

  const TOKEN_LIMIT: nat := 512
  const TRIGRAM_LIMIT: nat := 2048
  const MAX_TOKEN_LENGTH: nat := 64
  const MIN_TRIGRAM_LENGTH: nat := 3

  // ---- text ----

  predicate Space(c: char) {
    c == ' ' || '\t' <= c <= '\r' || '\U{1C}' <= c <= '\U{1F}'
  }

  predicate Alnum(c: char) {
    'a' <= c <= 'z' || '0' <= c <= '9'
  }

  predicate AllAlnum(s: string) {
    forall i :: 0 <= i < |s| ==> Alnum(s[i])
  }

  function LowerChar(c: char): char {
    if 'A' <= c <= 'Z' then c - 'A' + 'a' else c
  }

  function Lower(s: string): (r: string)
    ensures |r| == |s| && forall i :: 0 <= i < |s| ==> r[i] == LowerChar(s[i])
  {
    if s == [] then [] else [LowerChar(s[0])] + Lower(s[1..])
  }

  function Strip(s: string): string {
    if s == [] then []
    else if Space(s[0]) then Strip(s[1..])
    else if Space(s[|s| - 1]) then Strip(s[..|s| - 1])
    else s
  }

  function Normalize(s: string): string {
    Lower(Strip(s))
  }

  function Cut(s: string): string {
    if |s| <= MAX_TOKEN_LENGTH then s else s[..MAX_TOKEN_LENGTH]
  }

  /** How many letters and digits the text starts with. */
  function Run(s: string): (n: nat)
    ensures n <= |s| && AllAlnum(s[..n])
  {
    if s != [] && Alnum(s[0]) then 1 + Run(s[1..]) else 0
  }

  /** The non-empty pieces between separators. */
  function Words(s: string): seq<string>
    decreases |s|
  {
    if s == [] then []
    else if !Alnum(s[0]) then Words(s[1..])
    else [s[..Run(s)]] + Words(s[Run(s)..])
  }

  function CutAll(words: seq<string>): (r: seq<string>)
    ensures |r| == |words| && forall i :: 0 <= i < |words| ==> r[i] == Cut(words[i])
  {
    if words == [] then [] else [Cut(words[0])] + CutAll(words[1..])
  }

  function SplitTerms(value: string): seq<string> {
    CutAll(Words(Normalize(value)))
  }

  function TokensOf(value: string): seq<string> {
    var normalized := Normalize(value);
    var parts := SplitTerms(normalized);
    if |parts| > 1 && ' ' !in normalized then parts + [Cut(normalized)] else parts
  }

  /** A text kept whole: short enough, and one word or several without a space. */
  predicate KeptWhole(s: string) {
    var exact := Normalize(s);
    && |exact| <= MAX_TOKEN_LENGTH
    && ((exact != [] && AllAlnum(exact)) || (|SplitTerms(exact)| > 1 && ' ' !in exact))
  }

  method TokenizeValue(value: string) returns (parts: seq<string>)
    ensures parts == TokensOf(value)
    ensures var exact, words := Normalize(value), Words(Normalize(value));
            && |parts| == |words| + (if |words| > 1 && ' ' !in exact then 1 else 0)
            && (forall i :: 0 <= i < |words| ==> parts[i] == words[i][..Min(64, |words[i]|)])
            && (|parts| > |words| ==> parts[|words|] == exact[..Min(64, |exact|)])
    ensures Normalize(value) in parts <==> KeptWhole(value)
    ensures forall p :: p in parts ==>
              && 0 < |p| <= 64
              && ((forall i :: 0 <= i < |p| ==> 'a' <= p[i] <= 'z' || '0' <= p[i] <= '9') || p <= Normalize(value))
  {
    var normalized := Normalize(value);
    parts := SplitTerms(normalized);
    if |parts| > 1 && ' ' !in normalized {
      parts := parts + [Cut(normalized)];
    }
    assert parts == TokensOf(value);
    hide TokensOf, Words, Normalize, KeptWhole;
    TokensAreTheWords(value);
    TokensHoldTheWholeText(value);
    TokensAreShort(value);
  }

  function Windows(padded: string): seq<string> {
    if |padded| < 3 then [] else [padded[..3]] + Windows(padded[1..])
  }

  function Padded(token: string): string {
    " " + token + " "
  }

  function Trigrams(token: string): seq<string> {
    if |token| < MIN_TRIGRAM_LENGTH then [] else Windows(Padded(token))
  }

  lemma {:induction false} RunOfAlnum(s: string)
    requires AllAlnum(s)
    ensures Run(s) == |s|
  {
    if s != [] {
      RunOfAlnum(s[1..]);
    }
  }

  lemma {:induction false} RunStopsAtSeparator(a: string, c: char, b: string)
    requires !Alnum(c)
    ensures Run(a + [c] + b) == Run(a)
  {
    if a != [] {
      assert (a + [c] + b)[1..] == a[1..] + [c] + b;
      RunStopsAtSeparator(a[1..], c, b);
    }
  }

  /** A text of letters and digits is one word. */
  lemma OneWord(s: string)
    requires s != [] && forall i :: 0 <= i < |s| ==> 'a' <= s[i] <= 'z' || '0' <= s[i] <= '9'
    ensures Words(s) == [s]
  {
    RunOfAlnum(s);
    assert s[|s|..] == [] && s[..|s|] == s;
  }

  /** Any separator splits a text into the words on either side of it. With `OneWord` this says what the words are. */
  lemma {:induction false} SeparatorsSplit(a: string, c: char, b: string)
    requires !('a' <= c <= 'z' || '0' <= c <= '9')
    ensures Words(a + [c] + b) == Words(a) + Words(b)
    decreases |a|
  {
    var s := a + [c] + b;
    if a == [] {
      assert s[1..] == b;
    } else if !Alnum(a[0]) {
      assert s[1..] == a[1..] + [c] + b;
      SeparatorsSplit(a[1..], c, b);
    } else {
      RunStopsAtSeparator(a, c, b);
      var n := Run(a);
      assert s[..n] == a[..n] && s[n..] == a[n..] + [c] + b;
      SeparatorsSplit(a[n..], c, b);
    }
  }

  /** Strip takes white space off both ends and nothing else. */
  lemma {:induction false} StripTakesOnlySpace(s: string) returns (i: nat, j: nat)
    ensures i <= j <= |s| && Strip(s) == s[i..j]
    ensures forall k :: 0 <= k < i || j <= k < |s| ==> Space(s[k])
    ensures i < j ==> !Space(s[i]) && !Space(s[j - 1])
    decreases |s|
  {
    hide Space;
    i, j := 0, |s|;
    if s != [] && Space(s[0]) {
      i, j := StripTakesOnlySpace(s[1..]);
      assert s[1..][i..j] == s[i + 1..j + 1];
      assert forall k :: 0 < k < |s| ==> s[k] == s[1..][k - 1];
      i, j := i + 1, j + 1;
    } else if s != [] && Space(s[|s| - 1]) {
      i, j := StripTakesOnlySpace(s[..|s| - 1]);
      assert s[..|s| - 1][i..j] == s[i..j];
    }
  }

  /**
   The normal form: white space goes from both ends and nothing else does, the letters A to Z become small and nothing
   else changes.
   */
  lemma NormalFormIs(s: string) returns (i: nat, j: nat)
    ensures i <= j <= |s| && |Normalize(s)| == j - i
    ensures forall k :: 0 <= k < i || j <= k < |s| ==> s[k] as int in {9, 10, 11, 12, 13, 28, 29, 30, 31, 32}
    ensures i < j ==> s[i] as int !in {9, 10, 11, 12, 13, 28, 29, 30, 31, 32}
                      && s[j - 1] as int !in {9, 10, 11, 12, 13, 28, 29, 30, 31, 32}
    ensures forall k :: i <= k < j ==>
              Normalize(s)[k - i] as int == if 65 <= s[k] as int <= 90 then s[k] as int + 32 else s[k] as int
  {
    i, j := StripTakesOnlySpace(s);
  }

  /** The same text but for the case of letters from A to Z. */
  predicate SameButCase(s: string, t: string) {
    |s| == |t| && forall i :: 0 <= i < |s| ==> SmallLetter(s[i]) == SmallLetter(t[i])
  }

  function SmallLetter(c: char): int {
    if 65 <= c as int <= 90 then c as int + 32 else c as int
  }

  lemma CaseDoesNotMatter(s: string, t: string)
    requires SameButCase(s, t)
    ensures Normalize(s) == Normalize(t) && TokensOf(s) == TokensOf(t) && (Sensitive(s) <==> Sensitive(t))
  {
    SameCaseStrips(s, t);
    SameLower(s, t);
    SameLower(Strip(s), Strip(t));
    hide Words, Lower, Strip;
  }

  lemma SameLower(s: string, t: string)
    requires SameButCase(s, t)
    ensures Lower(s) == Lower(t)
  {
    assert forall i :: 0 <= i < |s| ==> SmallLetter(s[i]) == SmallLetter(t[i]);
    assert Lower(s) == Lower(t);
  }

  lemma {:induction false} SameCaseStrips(s: string, t: string)
    requires SameButCase(s, t)
    ensures SameButCase(Strip(s), Strip(t))
    decreases |s|
  {
    if s != [] {
      assert SmallLetter(s[0]) == SmallLetter(t[0]) && SmallLetter(s[|s| - 1]) == SmallLetter(t[|s| - 1]);
      if Space(s[0]) {
        SameCaseStrips(s[1..], t[1..]);
      } else if Space(s[|s| - 1]) {
        SameCaseStrips(s[..|s| - 1], t[..|s| - 1]);
      }
    }
  }

  // ---- which tokens a text has ----

  /** A text has no words exactly when it has no letter and no digit. */
  lemma {:induction false} NoWordsIffNoAlnum(s: string)
    ensures Words(s) == [] <==> forall i :: 0 <= i < |s| ==> !('a' <= s[i] <= 'z' || '0' <= s[i] <= '9')
    decreases |s|
  {
    if s != [] && !Alnum(s[0]) {
      NoWordsIffNoAlnum(s[1..]);
      assert forall i :: 0 < i < |s| ==> s[i] == s[1..][i - 1];
    }
  }

  lemma NormalizeTwice(s: string)
    ensures Normalize(Normalize(s)) == Normalize(s)
  {
    var i, j := StripTakesOnlySpace(s);
    var stripped, lowered := Strip(s), Lower(Strip(s));
    if stripped != [] {
      assert lowered[0] == LowerChar(stripped[0]) && lowered[|lowered| - 1] == LowerChar(stripped[|stripped| - 1]);
    }
    assert Strip(lowered) == lowered;
    assert Lower(lowered) == lowered;
  }

  lemma {:induction false} WordsAreAlnum(s: string, i: nat)
    requires i < |Words(s)|
    ensures Words(s)[i] != [] && AllAlnum(Words(s)[i])
    decreases |s|
  {
    if !Alnum(s[0]) {
      WordsAreAlnum(s[1..], i);
    } else if i > 0 {
      WordsAreAlnum(s[Run(s)..], i - 1);
    }
  }

  /** The whole text is one of its own tokens exactly when it is kept whole. */
  lemma TokensHoldTheWholeText(s: string)
    ensures Normalize(s) in TokensOf(s) <==> KeptWhole(s)
  {
    hide Normalize, Words;
    var exact := Normalize(s);
    NormalizeTwice(s);
    var parts := SplitTerms(exact);
    if exact != [] && AllAlnum(exact) && |exact| <= MAX_TOKEN_LENGTH {
      OneWord(exact);
      assert parts[0] == exact;
    }
    if exact in parts {
      var i :| 0 <= i < |parts| && parts[i] == exact;
      WordsAreAlnum(exact, i);
    }
  }

  lemma PartIsAWord(value: string, i: nat)
    requires i < |SplitTerms(value)|
    ensures var part := SplitTerms(value)[i]; 0 < |part| <= MAX_TOKEN_LENGTH && AllAlnum(part)
  {
    WordsAreAlnum(Normalize(value), i);
  }

  /** The words, each cut to 64 characters, and after them the whole text if there are several and no space. */
  lemma TokensAreTheWords(s: string)
    ensures var exact, words, parts := Normalize(s), Words(Normalize(s)), TokensOf(s);
            && |parts| == |words| + (if |words| > 1 && ' ' !in exact then 1 else 0)
            && (forall i :: 0 <= i < |words| ==> parts[i] == words[i][..Min(64, |words[i]|)])
            && (|parts| > |words| ==> parts[|words|] == exact[..Min(64, |exact|)])
  {
    NormalizeTwice(s);
    hide Normalize, Words;
  }

  /** Every token is a word or the whole text, cut to the limit. */
  lemma TokensAreShort(s: string)
    ensures forall p :: p in TokensOf(s) ==>
              && 0 < |p| <= 64
              && ((forall i :: 0 <= i < |p| ==> 'a' <= p[i] <= 'z' || '0' <= p[i] <= '9') || p <= Normalize(s))
  {
    var exact := Normalize(s);
    assert SplitTerms("") == [];
    hide Normalize, SplitTerms;
    forall i | 0 <= i < |SplitTerms(exact)|
      ensures 0 < |SplitTerms(exact)[i]| <= MAX_TOKEN_LENGTH && AllAlnum(SplitTerms(exact)[i])
    {
      PartIsAWord(exact, i);
    }
  }

  lemma NormalAlready(s: string)
    requires s != [] && !Space(s[0]) && !Space(s[|s| - 1])
    requires forall i :: 0 <= i < |s| ==> LowerChar(s[i]) == s[i]
    ensures Normalize(s) == s
  {
    assert Strip(s) == s;
    assert Lower(s) == s;
  }

  /** A word of lower-case letters and digits within the length limit is its own only token. */
  lemma PlainWordIsOneToken(s: string)
    requires s != [] && AllAlnum(s) && |s| <= MAX_TOKEN_LENGTH
    ensures Normalize(s) == s && SplitTerms(s) == [s] && TokensOf(s) == [s]
  {
    assert Alnum(s[0]) && Alnum(s[|s| - 1]);
    NormalAlready(s);
    OneWord(s);
    assert SplitTerms(s) == [s];
  }

  /** Two words around a separator that is no space are three tokens: each word and the whole. */
  lemma TwoWordsAreThreeTokens(a: string, c: char, b: string)
    requires a != [] && AllAlnum(a) && b != [] && AllAlnum(b) && |a + [c] + b| <= MAX_TOKEN_LENGTH
    requires !Alnum(c) && !Space(c) && LowerChar(c) == c
    ensures TokensOf(a + [c] + b) == [a, b, a + [c] + b]
  {
    var s := a + [c] + b;
    assert forall i :: 0 <= i < |s| ==> s[i] == c || Alnum(s[i]);
    assert Alnum(s[0]) && Alnum(s[|s| - 1]);
    NormalAlready(s);
    OneWord(a);
    OneWord(b);
    SeparatorsSplit(a, c, b);
    hide Words, Normalize, AllAlnum;
    UncutTokens(s, a, b);
  }

  lemma UncutTokens(s: string, a: string, b: string)
    requires Normalize(s) == s && Words(s) == [a, b] && ' ' !in s
    requires |s| <= MAX_TOKEN_LENGTH && |a| <= |s| && |b| <= |s|
    ensures TokensOf(s) == [a, b, s]
  {
    hide Words, Normalize;
  }

  // ---- trigrams ----

  predicate WindowAt(padded: string, i: int, gram: string) {
    0 <= i <= |padded| - 3 && gram == padded[i..i + 3]
  }

  lemma {:induction false} WindowCount(padded: string)
    ensures |Windows(padded)| == Max(0, |padded| - 2)
  {
    if |padded| >= 3 {
      WindowCount(padded[1..]);
    }
  }

  lemma {:induction false} WindowIs(padded: string, i: nat)
    requires i < |Windows(padded)|
    ensures WindowAt(padded, i, Windows(padded)[i])
  {
    WindowCount(padded);
    if i > 0 {
      WindowIs(padded[1..], i - 1);
    }
  }

  lemma WindowsAt(padded: string)
    ensures |Windows(padded)| == Max(0, |padded| - 2)
    ensures forall i :: 0 <= i < |Windows(padded)| ==> WindowAt(padded, i, Windows(padded)[i])
  {
    WindowCount(padded);
    forall i | 0 <= i < |Windows(padded)| ensures WindowAt(padded, i, Windows(padded)[i]) {
      WindowIs(padded, i);
    }
  }

  /** One trigram for each place of the token with a space put before and after it; none of a token under three. */
  lemma TrigramsSlideOverTheToken(token: string)
    ensures |Trigrams(token)| == if |token| < 3 then 0 else |token|
    ensures forall i :: 0 <= i < |Trigrams(token)| ==> Trigrams(token)[i] == (" " + token + " ")[i..i + 3]
  {
    WindowsAt(Padded(token));
    forall i | 0 <= i < |Trigrams(token)| ensures Trigrams(token)[i] == (" " + token + " ")[i..i + 3] {
      assert WindowAt(Padded(token), i, Windows(Padded(token))[i]);
    }
  }

  // ---- distinct values, capped ----

  function Distinct<T(==)>(values: seq<T>): seq<T> {
    if values == [] then []
    else
      var before, last := Distinct(values[..|values| - 1]), values[|values| - 1];
      if last in before then before else before + [last]
  }

  /** The first `limit` distinct values, and never fewer than one of a non-empty list. */
  function FirstDistinct<T(==)>(values: seq<T>, limit: int): seq<T> {
    var all := Distinct(values);
    all[..Min(|all|, Max(1, limit))]
  }

  predicate NoRepeats<T(==)>(values: seq<T>) {
    forall i, j :: 0 <= i < j < |values| ==> values[i] != values[j]
  }

  lemma {:induction false} DistinctKeepsMembers<T>(values: seq<T>)
    ensures NoRepeats(Distinct(values))
    ensures forall x :: x in Distinct(values) <==> x in values
  {
    if values != [] {
      var before, last := values[..|values| - 1], values[|values| - 1];
      DistinctKeepsMembers(before);
      assert values == before + [last];
    }
  }

  lemma {:induction false} DistinctOfPrefix<T>(values: seq<T>, n: nat)
    requires n <= |values|
    ensures Distinct(values[..n]) <= Distinct(values)
  {
    if n < |values| {
      var before := values[..|values| - 1];
      assert before[..n] == values[..n];
      DistinctOfPrefix(before, n);
    } else {
      assert values[..n] == values;
    }
  }

  lemma {:induction false} DistinctIsNoLonger<T>(values: seq<T>)
    ensures |Distinct(values)| <= |values|
  {
    if values != [] {
      DistinctIsNoLonger(values[..|values| - 1]);
    }
  }

  /** Nothing is lost when the cap is not exceeded. */
  lemma FirstDistinctKeepsAll<T>(values: seq<T>, limit: int)
    requires |Distinct(values)| <= limit
    ensures forall x :: x in FirstDistinct(values, limit) <==> x in values
  {
    DistinctKeepsMembers(values);
    assert FirstDistinct(values, limit) == Distinct(values);
  }

  method Capped(values: seq<string>, limit: int) returns (seen: seq<string>)
    ensures seen == FirstDistinct(values, limit)
    ensures NoRepeats(seen) && |seen| <= Max(1, limit)
    ensures forall x :: x in seen ==> x in values
    ensures |seen| < Max(1, limit) ==> forall x :: x in values ==> x in seen
    ensures exists n :: 0 <= n <= |values| && forall x :: x in seen <==> x in values[..n]
  {
    seen := [];
    DistinctKeepsMembers(values);
    for i := 0 to |values|
      invariant seen == Distinct(values[..i]) && |seen| < Max(1, limit)
    {
      assert values[..i + 1][..i] == values[..i];
      DistinctOfPrefix(values, i + 1);
      if values[i] !in seen {
        seen := seen + [values[i]];
      }
      if |seen| >= limit {
        DistinctKeepsMembers(values[..i + 1]);
        return;
      }
    }
    assert values[..|values|] == values;
  }

  // ---- what of an event is indexed ----

  const SENSITIVE_KEYS: seq<string> := [
    "authorization", "cookie", "set-cookie", "proxy-authorization", "password", "secret", "token", "api_key", "apikey",
    "x-webhook-secret", "x-hub-signature", "x-hub-signature-256", "stripe-signature", "session"
  ]

  predicate Contains(s: string, part: string) {
    part <= s || (s != [] && Contains(s[1..], part))
  }

  predicate Sensitive(key: string) {
    exists k :: 0 <= k < |SENSITIVE_KEYS| && Contains(Lower(key), SENSITIVE_KEYS[k])
  }

  lemma {:induction false} ContainsIsSubstring(s: string, part: string)
    ensures Contains(s, part) <==> exists a, b :: s == a + part + b
  {
    if part <= s {
      assert s == [] + part + s[|part|..];
    } else if s != [] {
      ContainsIsSubstring(s[1..], part);
      if Contains(s[1..], part) {
        var a, b :| s[1..] == a + part + b;
        assert s == ([s[0]] + a) + part + b;
      }
      forall a, b | s == a + part + b ensures Contains(s, part) {
        assert a != [];
        assert s[1..] == a[1..] + part + b;
      }
    }
  }

  /** A key is sensitive exactly when it holds one of these words, in whatever case. */
  lemma SensitiveIff(key: string)
    ensures Sensitive(key) <==>
            exists word, a, b ::
              && word in [
                   "authorization", "cookie", "set-cookie", "proxy-authorization", "password", "secret", "token",
                   "api_key", "apikey", "x-webhook-secret", "x-hub-signature", "x-hub-signature-256",
                   "stripe-signature", "session"
                 ]
              && Lower(key) == a + word + b
  {
    var lowered := Lower(key);
    assert forall word :: word in SENSITIVE_KEYS <==>
      exists k :: 0 <= k < |SENSITIVE_KEYS| && SENSITIVE_KEYS[k] == word;
    forall word | word in SENSITIVE_KEYS ensures Contains(lowered, word) <==> exists a, b :: lowered == a + word + b {
      ContainsIsSubstring(lowered, word);
    }
  }

  function Collected(value: Body): seq<string>
    decreases value, 1
  {
    match value
    case Dict(pairs) => CollectedPairs(pairs)
    case List(items) => CollectedItems(items)
    case Text(s) => [s]
    case Number(text) => [text]
    case Bool(_) => []
    case Null => []
  }

  function CollectedItems(items: seq<Body>): seq<string>
    decreases items, 0
  {
    if items == [] then [] else CollectedItems(items[..|items| - 1]) + Collected(items[|items| - 1])
  }

  function CollectedPairs(pairs: seq<Pair>): seq<string>
    decreases pairs, 0
  {
    if pairs == [] then []
    else
      var last := pairs[|pairs| - 1];
      CollectedPairs(pairs[..|pairs| - 1]) + if Sensitive(last.key) then [] else [last.key] + Collected(last.value)
  }

  datatype Field = Field(key: string, value: string)

  function FieldStrings(fields: seq<Field>): seq<string> {
    if fields == [] then []
    else
      var last := fields[|fields| - 1];
      FieldStrings(fields[..|fields| - 1]) + if Sensitive(last.key) then [] else [last.key, last.value]
  }

  /** The parts of a request that are searched. */
  datatype Source = Source(
    endpointName: string, eventType: Option<string>, headers: seq<Field>, query: seq<Field>, body: Body)

  /** A request with nothing in it but one text. */
  function OneText(s: string): Source {
    Source(s, None, [], [], Null)
  }

  function SourceStrings(s: Source): seq<string> {
    [s.endpointName]
    + (if s.eventType.Some? && s.eventType.value != "" then [s.eventType.value] else [])
    + FieldStrings(s.headers) + FieldStrings(s.query) + Collected(s.body)
  }

  /** The list that the collecting functions append to. */
  class StringList {
    var items: seq<string>

    constructor (first: string)
      ensures items == [first]
    {
      items := [first];
    }

    method Append(s: string)
      modifies this
      ensures items == old(items) + [s]
    {
      items := items + [s];
    }
  }

  method Collect(value: Body, out: StringList)
    modifies out
    ensures out.items == old(out.items) + Collected(value)
    decreases value
  {
    match value
    case Dict(pairs) =>
      for i := 0 to |pairs|
        invariant out.items == old(out.items) + CollectedPairs(pairs[..i])
      {
        assert pairs[..i + 1][..i] == pairs[..i];
        if Sensitive(pairs[i].key) {
          continue;
        }
        out.Append(pairs[i].key);
        Collect(pairs[i].value, out);
      }
      assert pairs[..|pairs|] == pairs;
    case List(items) =>
      for i := 0 to |items|
        invariant out.items == old(out.items) + CollectedItems(items[..i])
      {
        assert items[..i + 1][..i] == items[..i];
        Collect(items[i], out);
      }
      assert items[..|items|] == items;
    case Text(s) =>
      out.Append(s);
    case Bool(_) =>
    case Number(text) =>
      out.Append(text);
    case Null =>
  }

  method CollectFields(fields: seq<Field>, out: StringList)
    modifies out
    ensures out.items == old(out.items) + FieldStrings(fields)
  {
    for i := 0 to |fields|
      invariant out.items == old(out.items) + FieldStrings(fields[..i])
    {
      assert fields[..i + 1][..i] == fields[..i];
      if Sensitive(fields[i].key) {
        continue;
      }
      out.Append(fields[i].key);
      out.Append(fields[i].value);
    }
    assert fields[..|fields|] == fields;
  }

  /** The text is the key or the value of a field whose key is not sensitive. */
  predicate FromFields(fields: seq<Field>, x: string) {
    exists i :: 0 <= i < |fields| && !Sensitive(fields[i].key) && (x == fields[i].key || x == fields[i].value)
  }

  lemma {:induction false} FieldStringsAre(fields: seq<Field>)
    ensures |FieldStrings(fields)| == 2 * |PublicFields(fields)|
    ensures forall i :: 0 <= i < |PublicFields(fields)| ==>
              && FieldStrings(fields)[2 * i] == PublicFields(fields)[i].key
              && FieldStrings(fields)[2 * i + 1] == PublicFields(fields)[i].value
    ensures forall x :: x in FieldStrings(fields) <==> FromFields(fields, x)
  {
    hide Sensitive;
    if fields != [] {
      var before, last := fields[..|fields| - 1], fields[|fields| - 1];
      FieldStringsAre(before);
      assert fields == before + [last];
      assert forall x :: FromFields(fields, x) <==>
        FromFields(before, x) || (!Sensitive(last.key) && (x == last.key || x == last.value));
    }
  }

  /** The endpoint, the event type, the public headers and query fields, and the strings of the body, in this order. */
  lemma SourceStringsAre(s: Source)
    ensures var strings := SourceStrings(s);
            forall x :: x in strings <==>
              || x == s.endpointName || (s.eventType == Some(x) && x != "")
              || FromFields(s.headers, x) || FromFields(s.query, x) || x in Collected(s.body)
    ensures var strings, headers, query := SourceStrings(s), PublicFields(s.headers), PublicFields(s.query);
            var h := if s.eventType.Some? && s.eventType.value != "" then 2 else 1;
            var q, b := h + 2 * |headers|, h + 2 * |headers| + 2 * |query|;
            && |strings| == b + |Collected(s.body)|
            && strings[0] == s.endpointName && (h == 2 ==> strings[1] == s.eventType.value)
            && (forall i :: 0 <= i < |headers| ==>
                  strings[h + 2 * i] == headers[i].key && strings[h + 2 * i + 1] == headers[i].value)
            && (forall i :: 0 <= i < |query| ==>
                  strings[q + 2 * i] == query[i].key && strings[q + 2 * i + 1] == query[i].value)
            && strings[b..] == Collected(s.body)
  {
    FieldStringsAre(s.headers);
    FieldStringsAre(s.query);
    hide FieldStrings, PublicFields, Collected, FromFields;
    var first := [s.endpointName] + (if s.eventType.Some? && s.eventType.value != "" then [s.eventType.value] else []);
    assert SourceStrings(s) == first + FieldStrings(s.headers) + FieldStrings(s.query) + Collected(s.body);
  }

  method CollectSources(s: Source) returns (strings: seq<string>)
    ensures strings == SourceStrings(s)
    ensures forall x :: x in strings <==>
              || x == s.endpointName || (s.eventType == Some(x) && x != "")
              || FromFields(s.headers, x) || FromFields(s.query, x) || x in Collected(s.body)
    ensures var headers, query := PublicFields(s.headers), PublicFields(s.query);
            var h := if s.eventType.Some? && s.eventType.value != "" then 2 else 1;
            var q, b := h + 2 * |headers|, h + 2 * |headers| + 2 * |query|;
            && |strings| == b + |Collected(s.body)|
            && strings[0] == s.endpointName && (h == 2 ==> strings[1] == s.eventType.value)
            && (forall i :: 0 <= i < |headers| ==>
                  strings[h + 2 * i] == headers[i].key && strings[h + 2 * i + 1] == headers[i].value)
            && (forall i :: 0 <= i < |query| ==>
                  strings[q + 2 * i] == query[i].key && strings[q + 2 * i + 1] == query[i].value)
            && strings[b..] == Collected(s.body)
  {
    SourceStringsAre(s);
    var out := new StringList(s.endpointName);
    if s.eventType.Some? && s.eventType.value != "" {
      out.Append(s.eventType.value);
    }
    CollectFields(s.headers, out);
    CollectFields(s.query, out);
    Collect(s.body, out);
    strings := out.items;
  }

  function AllTokens(sources: seq<string>): seq<string> {
    if sources == [] then [] else TokensOf(sources[0]) + AllTokens(sources[1..])
  }

  function AllTrigrams(tokens: seq<string>): seq<string> {
    if tokens == [] then [] else Trigrams(tokens[0]) + AllTrigrams(tokens[1..])
  }

  datatype Terms = Terms(tokens: seq<string>, trigrams: seq<string>)

  function Build(s: Source): Terms {
    var tokens := FirstDistinct(AllTokens(SourceStrings(s)), TOKEN_LIMIT);
    Terms(tokens, FirstDistinct(AllTrigrams(tokens), TRIGRAM_LIMIT))
  }

  predicate TokenOfSome(sources: seq<string>, token: string) {
    exists i :: 0 <= i < |sources| && token in TokensOf(sources[i])
  }

  predicate TrigramOfSome(tokens: seq<string>, gram: string) {
    exists i :: 0 <= i < |tokens| && gram in Trigrams(tokens[i])
  }

  lemma {:induction false} AllTokensAre(sources: seq<string>)
    ensures forall t :: t in AllTokens(sources) <==> TokenOfSome(sources, t)
  {
    hide TokensOf;
    if sources != [] {
      AllTokensAre(sources[1..]);
      assert sources == [sources[0]] + sources[1..];
      assert forall t :: TokenOfSome(sources, t) <==> t in TokensOf(sources[0]) || TokenOfSome(sources[1..], t);
    }
  }

  lemma {:induction false} AllTrigramsAre(tokens: seq<string>)
    ensures forall g :: g in AllTrigrams(tokens) <==> TrigramOfSome(tokens, g)
  {
    hide Trigrams;
    if tokens != [] {
      AllTrigramsAre(tokens[1..]);
      assert tokens == [tokens[0]] + tokens[1..];
      assert forall g :: TrigramOfSome(tokens, g) <==> g in Trigrams(tokens[0]) || TrigramOfSome(tokens[1..], g);
    }
  }

  method BuildTerms(s: Source) returns (terms: Terms)
    ensures terms == Build(s)
    ensures NoRepeats(terms.tokens) && |terms.tokens| <= 512 && NoRepeats(terms.trigrams) && |terms.trigrams| <= 2048
    ensures forall t :: t in terms.tokens ==> TokenOfSome(SourceStrings(s), t)
    ensures |terms.tokens| < 512 ==> forall t :: TokenOfSome(SourceStrings(s), t) ==> t in terms.tokens
    ensures forall g :: g in terms.trigrams ==> TrigramOfSome(terms.tokens, g)
    ensures |terms.trigrams| < 2048 ==> forall g :: TrigramOfSome(terms.tokens, g) ==> g in terms.trigrams
  {
    AllTokensAre(SourceStrings(s));
    var sources := CollectSources(s);
    var tokens := Capped(AllTokens(sources), TOKEN_LIMIT);
    AllTrigramsAre(tokens);
    var grams := Capped(AllTrigrams(tokens), TRIGRAM_LIMIT);
    terms := Terms(tokens, grams);
  }

  // ---- membership ----

  lemma {:induction false} TokensOfASource(sources: seq<string>, s: string, token: string)
    requires s in sources && token in TokensOf(s)
    ensures token in AllTokens(sources)
  {
    if s != sources[0] {
      assert s in sources[1..];
      TokensOfASource(sources[1..], s, token);
    }
  }

  lemma {:induction false} TrigramsOfAToken(tokens: seq<string>, token: string, gram: string)
    requires token in tokens && gram in Trigrams(token)
    ensures gram in AllTrigrams(tokens)
  {
    if token != tokens[0] {
      assert token in tokens[1..];
      TrigramsOfAToken(tokens[1..], token, gram);
    }
  }

  // ---- secrets ----

  function PublicFields(fields: seq<Field>): seq<Field> {
    if fields == [] then []
    else
      var last := fields[|fields| - 1];
      PublicFields(fields[..|fields| - 1]) + if Sensitive(last.key) then [] else [last]
  }

  /** The body with every sensitive pair deleted, at every depth. */
  function PublicBody(value: Body): Body
    decreases value, 1
  {
    match value
    case Dict(pairs) => Dict(PublicPairs(pairs))
    case List(items) => List(PublicItems(items))
    case _ => value
  }

  function PublicItems(items: seq<Body>): seq<Body>
    decreases items, 0
  {
    if items == [] then [] else PublicItems(items[..|items| - 1]) + [PublicBody(items[|items| - 1])]
  }

  function PublicPairs(pairs: seq<Pair>): seq<Pair>
    decreases pairs, 0
  {
    if pairs == [] then []
    else
      var last := pairs[|pairs| - 1];
      PublicPairs(pairs[..|pairs| - 1]) + if Sensitive(last.key) then [] else [Pair(last.key, PublicBody(last.value))]
  }

  lemma {:induction false} PublicFieldStrings(fields: seq<Field>)
    ensures FieldStrings(PublicFields(fields)) == FieldStrings(fields)
  {
    if fields != [] {
      var before, last := fields[..|fields| - 1], fields[|fields| - 1];
      PublicFieldStrings(before);
      if !Sensitive(last.key) {
        assert (PublicFields(before) + [last])[..|PublicFields(before)|] == PublicFields(before);
      } else {
        assert PublicFields(fields) == PublicFields(before);
      }
    }
  }

  lemma {:induction false} PublicStrings(value: Body)
    ensures Collected(PublicBody(value)) == Collected(value)
    decreases value, 1
  {
    match value
    case Dict(pairs) => PublicPairStrings(pairs);
    case List(items) => PublicItemStrings(items);
    case _ =>
  }

  lemma {:induction false} PublicItemStrings(items: seq<Body>)
    ensures CollectedItems(PublicItems(items)) == CollectedItems(items)
    decreases items, 0
  {
    if items != [] {
      var before, last := items[..|items| - 1], items[|items| - 1];
      PublicItemStrings(before);
      PublicStrings(last);
      assert (PublicItems(before) + [PublicBody(last)])[..|PublicItems(before)|] == PublicItems(before);
    }
  }

  lemma {:induction false} PublicPairStrings(pairs: seq<Pair>)
    ensures CollectedPairs(PublicPairs(pairs)) == CollectedPairs(pairs)
    decreases pairs, 0
  {
    if pairs != [] {
      var before, last := pairs[..|pairs| - 1], pairs[|pairs| - 1];
      PublicPairStrings(before);
      if !Sensitive(last.key) {
        PublicStrings(last.value);
        var kept := Pair(last.key, PublicBody(last.value));
        assert (PublicPairs(before) + [kept])[..|PublicPairs(before)|] == PublicPairs(before);
      } else {
        assert PublicPairs(pairs) == PublicPairs(before);
      }
    }
  }

  /** Requests that differ only under sensitive keys get the same search terms, through both caps. */
  lemma SecretsDoNotReachTheIndex(a: Source, b: Source)
    requires a.endpointName == b.endpointName && a.eventType == b.eventType
    requires PublicFields(a.headers) == PublicFields(b.headers) && PublicFields(a.query) == PublicFields(b.query)
    requires PublicBody(a.body) == PublicBody(b.body)
    ensures Build(a) == Build(b)
  {
    PublicFieldStrings(a.headers);
    PublicFieldStrings(b.headers);
    PublicFieldStrings(a.query);
    PublicFieldStrings(b.query);
    PublicStrings(a.body);
    PublicStrings(b.body);
  }
}
