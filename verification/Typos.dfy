/**
 Typo tolerance: replacing a block of a token spoils only the trigrams that touch the block, so a query word with
 enough distinct trigrams still scores above the threshold.
 */
module Typos {
  import opened Prelude
  import opened Tokenize
  import opened Events
  import opened Query
  import opened Paging
  import opened SearchLaws

  /** The trigrams of `word` that `token` lacks. */
  function Lost(word: string, token: string): set<string> {
    set g | g in Trigrams(word) && g !in Trigrams(token)
  }

  /** Windows starting in a range of positions give no more strings than the range has positions. */
  lemma {:induction false} FewWindows(padded: string, lo: int, hi: int, windows: set<string>)
    requires lo <= hi
    requires forall g :: g in windows ==> exists i :: lo <= i < hi && WindowAt(padded, i, g)
    ensures |windows| <= hi - lo
    decreases hi - lo
  {
    if lo == hi {
      assert windows == {};
    } else {
      var last := if 0 <= hi - 1 <= |padded| - 3 then {padded[hi - 1..hi + 2]} else {};
      FewWindows(padded, lo, hi - 1, windows - last);
      assert windows <= (windows - last) + last;
      SubsetSize(windows, (windows - last) + last);
    }
  }

  /** Windows that do not touch the block are windows of the token too. */
  lemma UntouchedWindows(a: string, x: string, y: string, b: string)
    ensures var p, t := Padded(a + x + b), Padded(a + y + b);
            forall i :: 0 <= i < |Windows(p)| && (i + 2 <= |a| || |a| + |x| < i) ==> Windows(p)[i] in Windows(t)
  {
    var p, t := Padded(a + x + b), Padded(a + y + b);
    WindowsAt(p);
    WindowsAt(t);
    forall i | 0 <= i < |Windows(p)| && (i + 2 <= |a| || |a| + |x| < i) ensures Windows(p)[i] in Windows(t) {
      var k := if i + 2 <= |a| then i else i - |x| + |y|;
      assert WindowAt(p, i, Windows(p)[i]) && WindowAt(t, k, Windows(t)[k]);
      assert Windows(t)[k] == Windows(p)[i];
    }
  }

  /** A word that has `x` where the token has `y` loses at most |x| + 2 trigrams, whatever `y` is. */
  lemma BlockSpoilsFewTrigrams(a: string, x: string, y: string, b: string)
    requires |a + y + b| >= MIN_TRIGRAM_LENGTH
    ensures |Lost(a + x + b, a + y + b)| <= |x| + 2
  {
    var p, lost := Padded(a + x + b), Lost(a + x + b, a + y + b);
    WindowsAt(p);
    UntouchedWindows(a, x, y, b);
    forall g | g in lost ensures exists i :: |a| - 1 <= i < |a| + 1 + |x| && WindowAt(p, i, g) {
      var i :| 0 <= i < |Windows(p)| && Windows(p)[i] == g;
      assert WindowAt(p, i, g);
    }
    FewWindows(p, |a| - 1, |a| + 1 + |x|, lost);
  }

  // ---- typos ----

  datatype Typo = Dropped | Added | Replaced | Swapped

  /** `word` is `token` with one character dropped, added or replaced, or two neighbours swapped. */
  ghost predicate IsTypo(kind: Typo, word: string, token: string) {
    exists a, x, y, b :: word == Spliced(a, x, b) && token == Spliced(a, y, b) && BlockOf(kind, x, y)
  }

  function Spliced(a: string, x: string, b: string): string {
    a + x + b
  }

  predicate BlockOf(kind: Typo, x: string, y: string) {
    match kind
    case Dropped => |x| == 0 && |y| == 1
    case Added => |x| == 1 && |y| == 0
    case Replaced => |x| == 1 && |y| == 1
    case Swapped => |x| == 2 && y == [x[1], x[0]]
  }

  /** The most trigrams a typo of this kind can spoil. */
  function Spoiled(kind: Typo): nat {
    match kind
    case Dropped => 2
    case Added => 3
    case Replaced => 3
    case Swapped => 4
  }

  /** The distinct trigrams a word needs to survive it. */
  function Needed(kind: Typo): nat {
    match kind
    case Dropped => 4
    case Added => 5
    case Replaced => 5
    case Swapped => 7
  }

  lemma TypoSpoilsFewTrigrams(kind: Typo, word: string, token: string)
    requires IsTypo(kind, word, token) && |token| >= MIN_TRIGRAM_LENGTH
    ensures |Lost(word, token)| <= Spoiled(kind)
  {
    var a, x, y, b :| word == Spliced(a, x, b) && token == Spliced(a, y, b) && BlockOf(kind, x, y);
    BlockSpoilsFewTrigrams(a, x, y, b);
  }

  lemma EnoughIsShared(shared: nat, all: nat, kind: Typo)
    requires all >= Needed(kind) && shared >= all - Spoiled(kind)
    ensures FUZZY_SCORE * (shared as real / all as real) >= MIN_SCORE
  {
    var ratio := shared as real / all as real;
    assert ratio * all as real == shared as real;
    assert ratio < 0.4 ==> (0.4 - ratio) * all as real > 0.0;
  }

  lemma OneTermGrams(query: string, word: string)
    requires Want(query).terms == [word]
    ensures forall g :: g in Want(query).grams <==> g in Trigrams(word)
    ensures NoRepeats(Want(query).grams)
  {
    var terms := Want(query).terms;
    assert AllTrigrams(terms) == Trigrams(word) + AllTrigrams([]);
    DistinctKeepsMembers(AllTrigrams(terms));
  }

  /** The trigrams of every stored token are stored when their cap is not exceeded. */
  lemma UncappedTrigrams(source: Source, token: string, gram: string)
    requires token in Build(source).tokens && gram in Trigrams(token)
    requires |Distinct(AllTrigrams(Build(source).tokens))| <= TRIGRAM_LIMIT
    ensures gram in Build(source).trigrams
  {
    TrigramsOfAToken(Build(source).tokens, token, gram);
    FirstDistinctKeepsAll(AllTrigrams(Build(source).tokens), TRIGRAM_LIMIT);
  }

  lemma SharedIsTheRest(grams: seq<string>, trigrams: seq<string>, word: string, token: string)
    requires NoRepeats(grams) && forall g :: g in grams <==> g in Trigrams(word)
    requires forall g :: g in Trigrams(token) ==> g in trigrams
    ensures |Shared(grams, trigrams)| >= |grams| - |Lost(word, token)|
  {
    hide Trigrams, NoRepeats;
    DistinctCount(grams);
    var all := set g | g in grams;
    var shared, lost := Shared(grams, trigrams), Lost(word, token);
    assert all <= shared + lost;
    SubsetSize(all, shared + lost);
  }

  lemma TypoKeepsEnough(kind: Typo, query: string, word: string, token: string, e: Event)
    requires Want(query).terms == [word] && |Want(query).grams| >= Needed(kind)
    requires |token| >= MIN_TRIGRAM_LENGTH && IsTypo(kind, word, token)
    requires forall g :: g in Trigrams(token) ==> g in TrigramsOn(e)
    ensures FUZZY_SCORE * Ratio(Want(query).grams, TrigramsOn(e)) >= MIN_SCORE
  {
    hide Want, IsTypo, Trigrams, Shared, Lost, NoRepeats;
    var grams := Want(query).grams;
    OneTermGrams(query, word);
    TypoSpoilsFewTrigrams(kind, word, token);
    SharedIsTheRest(grams, TrigramsOn(e), word, token);
    EnoughIsShared(|Shared(grams, TrigramsOn(e))|, |grams|, kind);
  }

  /**
   A one-word search with one typo in it finds the event: any stored token of three characters or more, whose event's
   trigrams fit the cap, is found from a word with four, five or seven distinct trigrams, by the kind of typo.
   */
  lemma TyposAreFound(
    kind: Typo, query: string, word: string, token: string, source: Source, e: Event, db: seq<Event>, f: Filters)
    requires Want(query).terms == [word] && |Want(query).grams| >= Needed(kind)
    requires e.search == Some(Build(source)) && token in Build(source).tokens
    requires |Distinct(AllTrigrams(Build(source).tokens))| <= TRIGRAM_LIMIT
    requires |token| >= MIN_TRIGRAM_LENGTH && IsTypo(kind, word, token)
    requires Collection(db) && e in db && Holds(ToQuery(f), e)
    ensures Score(Want(query), e) >= MIN_SCORE
    ensures Row(e, Score(Want(query), e)) in StreamRanked(db, query, f)
  {
    hide Want, IsTypo, Ratio, Build, Holds;
    forall g | g in Trigrams(token) ensures g in TrigramsOn(e) {
      UncappedTrigrams(source, token, g);
    }
    TypoKeepsEnough(kind, query, word, token, e);
    TiersNeverMeet(query, e);
    SearchIsScoringEverything(db, query, f, e);
  }

  /** A word's tokens and trigrams when it is all the text there is. */
  lemma TermsOfOneWord(s: string)
    requires PlainWord(s)
    ensures Build(OneText(s)).tokens == [s]
    ensures forall g :: g in Build(OneText(s)).trigrams <==> g in Trigrams(s)
  {
    PlainWordIsOneTerm(s);
    assert SourceStrings(OneText(s)) == [s];
    assert AllTokens([s]) == [s] + AllTokens([]);
    assert Distinct([s]) == [s] by {
      assert [s][..0] == [];
    }
    hide Trigrams;
    assert AllTrigrams([s]) == Trigrams(s);
    TrigramCount(s);
    DistinctIsNoLonger(Trigrams(s));
    FirstDistinctKeepsAll(Trigrams(s), TRIGRAM_LIMIT);
  }

  lemma TrigramCount(s: string)
    ensures |Trigrams(s)| <= |s|
  {
    WindowCount(Padded(s));
  }

  lemma GramsOfOneTerm(query: string, word: string)
    requires Want(query).terms == [word]
    ensures Want(query).grams == Distinct(Trigrams(word))
  {
    assert AllTrigrams([word]) == Trigrams(word);
  }

  // ---- the numbers cannot be lowered ----

  lemma {:induction false} NoRepeatsIsDistinct(values: seq<string>)
    requires NoRepeats(values)
    ensures Distinct(values) == values
  {
    if values != [] {
      NoRepeatsIsDistinct(values[..|values| - 1]);
    }
  }

  lemma SmallRatio(k: nat, n: nat)
    requires n > 0 && 5 * k < 2 * n
    ensures FUZZY_SCORE * (k as real / n as real) < MIN_SCORE
  {
    var ratio := k as real / n as real;
    assert ratio * n as real == k as real;
    assert ratio >= 0.4 ==> (ratio - 0.4) * n as real >= 0.0;
  }

  /** `word` keeps only the trigrams in `kept`, which leaves it under the threshold. */
  lemma TooFewShared(word: string, token: string, kept: set<string>)
    requires NoRepeats(Trigrams(word)) && Trigrams(word) != []
    requires Shared(Trigrams(word), Trigrams(token)) == kept && 5 * |kept| < 2 * |Trigrams(word)|
    ensures |Distinct(Trigrams(word))| == |Trigrams(word)|
    ensures FUZZY_SCORE * Ratio(Distinct(Trigrams(word)), Trigrams(token)) < MIN_SCORE
  {
    hide Trigrams, Shared;
    NoRepeatsIsDistinct(Trigrams(word));
    SmallRatio(|kept|, |Trigrams(word)|);
  }

  lemma Slide(p: string)
    requires |p| >= 3
    ensures Windows(p) == [[p[0], p[1], p[2]]] + Windows(p[1..])
  {
    assert p[..3] == [p[0], p[1], p[2]];
  }

  lemma Trigrams3(a: char, b: char, c: char)
    ensures Trigrams([a, b, c]) == [[' ', a, b], [a, b, c], [b, c, ' ']]
  {
    assert Padded([a, b, c]) == [' ', a, b, c, ' '];
    Slide([' ', a, b, c, ' ']);
    Slide([a, b, c, ' ']);
    Slide([b, c, ' ']);
  }

  lemma Trigrams4(a: char, b: char, c: char, d: char)
    ensures Trigrams([a, b, c, d]) == [[' ', a, b], [a, b, c], [b, c, d], [c, d, ' ']]
  {
    assert Padded([a, b, c, d]) == [' ', a, b, c, d, ' '];
    Slide([' ', a, b, c, d, ' ']);
    Slide([a, b, c, d, ' ']);
    Slide([b, c, d, ' ']);
    Slide([c, d, ' ']);
  }

  lemma Trigrams6(a: char, b: char, c: char, d: char, e: char, f: char)
    ensures Trigrams([a, b, c, d, e, f]) == [[' ', a, b], [a, b, c], [b, c, d], [c, d, e], [d, e, f], [e, f, ' ']]
  {
    assert Padded([a, b, c, d, e, f]) == [' ', a, b, c, d, e, f, ' '];
    Slide([' ', a, b, c, d, e, f, ' ']);
    Slide([a, b, c, d, e, f, ' ']);
    Slide([b, c, d, e, f, ' ']);
    Slide([c, d, e, f, ' ']);
    Slide([d, e, f, ' ']);
    Slide([e, f, ' ']);
  }

  /** A typo in plain words, one distinct trigram short of what is needed, that leaves too few in common. */
  ghost predicate Tight(kind: Typo, word: string, token: string) {
    && IsTypo(kind, word, token) && |token| >= MIN_TRIGRAM_LENGTH
    && PlainWord(word) && PlainWord(token) && !(word <= token)
    && |Distinct(Trigrams(word))| == Needed(kind) - 1
    && FUZZY_SCORE * Ratio(Distinct(Trigrams(word)), Trigrams(token)) < MIN_SCORE
  }

  predicate PlainWord(s: string) {
    s != [] && AllAlnum(s) && |s| <= MAX_TOKEN_LENGTH
  }

  lemma DroppedIsTight()
    ensures Tight(Dropped, "abc", "abxc")
  {
    hide Trigrams;
    var word, token := "abc", "abxc";
    assert word == Spliced("ab", "", "c") && token == Spliced("ab", "x", "c") && BlockOf(Dropped, "", "x");
    assert word[2] != token[2];
    Trigrams3('a', 'b', 'c');
    Trigrams4('a', 'b', 'x', 'c');
    assert Shared(Trigrams(word), Trigrams(token)) == {" ab"};
    TooFewShared(word, token, {" ab"});
  }

  lemma AddedIsTight()
    ensures Tight(Added, "abxc", "abc")
  {
    hide Trigrams;
    var word, token := "abxc", "abc";
    assert word == Spliced("ab", "x", "c") && token == Spliced("ab", "", "c") && BlockOf(Added, "x", "");
    Trigrams4('a', 'b', 'x', 'c');
    Trigrams3('a', 'b', 'c');
    assert Shared(Trigrams(word), Trigrams(token)) == {" ab"};
    TooFewShared(word, token, {" ab"});
  }

  lemma ReplacedIsTight()
    ensures Tight(Replaced, "abxd", "abcd")
  {
    hide Trigrams;
    var word, token := "abxd", "abcd";
    assert word == Spliced("ab", "x", "d") && token == Spliced("ab", "c", "d") && BlockOf(Replaced, "x", "c");
    assert word[2] != token[2];
    Trigrams4('a', 'b', 'x', 'd');
    Trigrams4('a', 'b', 'c', 'd');
    assert Shared(Trigrams(word), Trigrams(token)) == {" ab"};
    TooFewShared(word, token, {" ab"});
  }

  lemma SwappedIsTight()
    ensures Tight(Swapped, "abdcef", "abcdef")
  {
    hide Trigrams;
    var word, token := "abdcef", "abcdef";
    assert word == Spliced("ab", "dc", "ef") && token == Spliced("ab", "cd", "ef") && BlockOf(Swapped, "dc", "cd");
    assert word[2] != token[2];
    Trigrams6('a', 'b', 'd', 'c', 'e', 'f');
    Trigrams6('a', 'b', 'c', 'd', 'e', 'f');
    assert Shared(Trigrams(word), Trigrams(token)) == {" ab", "ef "};
    TooFewShared(word, token, {" ab", "ef "});
  }

  /** A search for `query` never returns an event whose text is `token`, whatever else is stored. */
  ghost predicate NeverFinds(query: string, token: string) {
    forall e: Event, db, f :: e.search == Some(Build(OneText(token))) && Collection(db) ==> !Returned(db, query, f, e)
  }

  ghost predicate Returned(db: seq<Event>, query: string, f: Filters, e: Event) {
    exists r :: r in StreamRanked(db, query, f) && r.event == e
  }

  lemma RatioIsAboutMembers(grams: seq<string>, a: seq<string>, b: seq<string>)
    requires forall g :: g in a <==> g in b
    ensures Ratio(grams, a) == Ratio(grams, b)
  {
    assert Shared(grams, a) == Shared(grams, b);
  }

  /** With one term and one stored token that is another word, only the shared trigrams count. */
  lemma OnlyTheRatioCounts(w: Wanted, e: Event, word: string, token: string)
    requires w.exact == word && w.terms == [word] && TokensOn(e) == [token] && !(word <= token)
    requires forall g :: g in TrigramsOn(e) <==> g in Trigrams(token)
    ensures Score(w, e) == FUZZY_SCORE * Ratio(w.grams, Trigrams(token))
  {
    hide Ratio, Trigrams;
    assert token <= token;
    assert w.terms[0] !in TokensOn(e);
    RatioIsAboutMembers(w.grams, TrigramsOn(e), Trigrams(token));
  }

  lemma TermsOn(e: Event, token: string)
    requires PlainWord(token) && e.search == Some(Build(OneText(token)))
    ensures TokensOn(e) == [token] && forall g :: g in TrigramsOn(e) <==> g in Trigrams(token)
  {
    hide Build, Trigrams;
    TermsOfOneWord(token);
  }

  lemma WantOfOneWord(word: string)
    requires PlainWord(word)
    ensures var w := Want(word); w.exact == word && w.terms == [word] && w.grams == Distinct(Trigrams(word))
  {
    PlainWordIsOneTerm(word);
    GramsOfOneTerm(word, word);
  }

  lemma TightScoresTooLow(kind: Typo, word: string, token: string, e: Event)
    requires Tight(kind, word, token) && e.search == Some(Build(OneText(token)))
    ensures Score(Want(word), e) < MIN_SCORE
  {
    hide Want, Build, Trigrams, Distinct, Ratio, IsTypo, Score, PlainWord, TokensOn, TrigramsOn;
    WantOfOneWord(word);
    TermsOn(e, token);
    OnlyTheRatioCounts(Want(word), e, word, token);
  }

  lemma TightIsMissed(kind: Typo, word: string, token: string)
    requires Tight(kind, word, token)
    ensures NeverFinds(word, token)
  {
    hide Tight, Score, Want, Holds, AnyHolds, Build, StreamRanked;
    forall e: Event, db, f | e.search == Some(Build(OneText(token))) && Collection(db)
      ensures !Returned(db, word, f, e)
    {
      TightScoresTooLow(kind, word, token, e);
      LowScoresAreNotReturned(db, word, f, e);
    }
  }

  lemma LowScoresAreNotReturned(db: seq<Event>, query: string, f: Filters, e: Event)
    requires Collection(db) && Score(Want(query), e) < MIN_SCORE
    ensures !Returned(db, query, f, e)
  {
    hide Score, Want, Holds, AnyHolds;
    PipelineReturnsTheRanking(db, query, f, None);
  }

  /**
   The numbers cannot be lowered: for each kind of typo there is a word with one distinct trigram fewer than needed
   whose search misses the token it was mistyped from.
   */
  lemma NeededIsTight(kind: Typo)
    ensures exists word, token :: Tight(kind, word, token) && NeverFinds(word, token)
  {
    hide Tight, NeverFinds;
    match kind
    case Dropped => DroppedIsTight(); TightIsMissed(kind, "abc", "abxc");
    case Added => AddedIsTight(); TightIsMissed(kind, "abxc", "abc");
    case Replaced => ReplacedIsTight(); TightIsMissed(kind, "abxd", "abcd");
    case Swapped => SwappedIsTight(); TightIsMissed(kind, "abdcef", "abcdef");
  }

  // ---- a typo beside its literal match ----

  /**
   A mistyped word finds the event it was meant for; if another event holds the typo literally, that one comes first,
   with the full score.
   */
  lemma LiteralComesBeforeTheTypo(
    kind: Typo, word: string, token: string, source: Source, meant: Event, literal: Event, db: seq<Event>, f: Filters)
    requires PlainWord(word) && |Distinct(Trigrams(word))| >= Needed(kind)
    requires |token| >= MIN_TRIGRAM_LENGTH && IsTypo(kind, word, token)
    requires meant.search == Some(Build(source)) && token in Build(source).tokens && word !in Build(source).tokens
    requires |Distinct(AllTrigrams(Build(source).tokens))| <= TRIGRAM_LIMIT
    requires word in TokensOn(literal)
    requires Collection(db) && meant in db && literal in db && Holds(ToQuery(f), meant) && Holds(ToQuery(f), literal)
    ensures exists i, j ::
              var rows := StreamRanked(db, word, f);
              && 0 <= i < j < |rows| && rows[i] == Row(literal, 100.0)
              && rows[j].event == meant && rows[j].score >= MIN_SCORE
  {
    hide Trigrams, Distinct, IsTypo, Ratio, Build, Holds, Score, AllTrigrams, AnyHolds, StreamRanked;
    WantOfOneWord(word);
    TyposAreFound(kind, word, word, token, source, meant, db, f);
    TiersNeverMeet(word, literal);
    hide Want;
    SearchIsScoringEverything(db, word, f, literal);
    var rows := StreamRanked(db, word, f);
    var i :| 0 <= i < |rows| && rows[i] == Row(literal, Score(Want(word), literal));
    var j :| 0 <= j < |rows| && rows[j] == Row(meant, Score(Want(word), meant));
    TiersComeInOrder(db, word, f, i, j);
  }
}
