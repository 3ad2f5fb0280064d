/**
 What a ranked search finds: tiers that never meet and come in order, a prefilter that loses nothing, and recall of
 indexed text.
 */
module SearchLaws {
  import opened Prelude
  import opened Tokenize
  import opened Events
  import opened Query
  import opened Paging

  // ---- tiers ----

  lemma FractionBounds(k: real, n: real)
    requires 0.0 <= k <= n && n > 0.0
    ensures 0.0 <= k / n <= 1.0 && (k / n > 0.0 <==> k > 0.0)
  {
    var q := k / n;
    assert q * n == k;
    assert q > 1.0 ==> (q - 1.0) * n > 0.0;
    assert q < 0.0 ==> (0.0 - q) * n > 0.0;
  }

  lemma RatioIsAFraction(grams: seq<string>, trigrams: seq<string>)
    requires NoRepeats(grams)
    ensures 0.0 <= Ratio(grams, trigrams) <= 1.0
    ensures Ratio(grams, trigrams) > 0.0 <==> Overlaps(grams, trigrams)
  {
    var shared := Shared(grams, trigrams);
    DistinctCount(grams);
    assert shared <= set g | g in grams;
    SubsetSize(shared, set g | g in grams);
    if grams != [] {
      FractionBounds(|shared| as real, |grams| as real);
    }
    if Overlaps(grams, trigrams) {
      var i :| 0 <= i < |grams| && grams[i] in trigrams;
      assert grams[i] in shared;
    }
    forall g | g in shared ensures Overlaps(grams, trigrams) {
      var i :| 0 <= i < |grams| && grams[i] == g;
      assert grams[i] in trigrams;
    }
  }

  lemma SubsetSize<T>(a: set<T>, b: set<T>)
    requires a <= b
    ensures |a| <= |b|
  {
    assert b == a + (b - a);
  }

  lemma {:induction false} DistinctCount(values: seq<string>)
    requires NoRepeats(values)
    ensures |set v | v in values| == |values|
  {
    if values != [] {
      var before, last := values[..|values| - 1], values[|values| - 1];
      DistinctCount(before);
      assert (set v | v in values) == (set v | v in before) + {last};
    }
  }

  lemma WantedGramsAreDistinct(query: string)
    ensures NoRepeats(Want(query).grams)
  {
    DistinctKeepsMembers(AllTrigrams(Want(query).terms));
  }

  /** Each tier has its own score and its own condition, and the best one wins. */
  lemma TiersNeverMeet(query: string, e: Event)
    ensures var w, score := Want(query), Score(Want(query), e);
            var plain := w.exact == "" || w.exact[0] != '$';
            var exact := plain && w.exact in TokensOn(e);
            var prefix := plain && exists t :: t in TokensOn(e) && |w.exact| <= |t| && t[..|w.exact|] == w.exact;
            var all := forall t :: t in w.terms ==> t in TokensOn(e);
            && (score == 100.0 <==> exact)
            && (score == 60.0 <==> prefix && !exact)
            && (score == 40.0 <==> all && !prefix && !exact)
            && (0.0 <= score <= 30.0 <==> !all && !prefix && !exact)
            && (score > 30.0 ==> score == 40.0 || score == 60.0 || score == 100.0)
  {
    MembershipTests(Want(query), e);
    WantedGramsAreDistinct(query);
    RatioIsAFraction(Want(query).grams, TrigramsOn(e));
  }

  /**
   An event that no better tier takes scores thirty times the share of the query's trigrams that it has, and nothing if
   the query has none.
   */
  lemma FuzzyScoreIsTheShare(w: Wanted, e: Event)
    requires !(w.exact == "" || w.exact[0] != '$')
             || !exists t :: t in TokensOn(e) && |w.exact| <= |t| && t[..|w.exact|] == w.exact
    requires !forall t :: t in w.terms ==> t in TokensOn(e)
    ensures w.grams == [] ==> Score(w, e) == 0.0
    ensures Score(w, e) * |w.grams| as real == 30.0 * |set g | g in w.grams && g in TrigramsOn(e)| as real
  {
    MembershipTests(w, e);
    assert Shared(w.grams, TrigramsOn(e)) == set g | g in w.grams && g in TrigramsOn(e);
    if w.grams == [] {
      assert Shared(w.grams, TrigramsOn(e)) == {};
    } else {
      ShareTimesAll(|Shared(w.grams, TrigramsOn(e))|, |w.grams|);
    }
  }

  lemma ShareTimesAll(shared: nat, all: nat)
    requires all > 0
    ensures 30.0 * (shared as real / all as real) * all as real == 30.0 * shared as real
  {
    var ratio := shared as real / all as real;
    assert ratio * all as real == shared as real;
  }

  /** Among fuzzy results, one that has more of the query's trigrams comes before one that has fewer. */
  lemma MoreSharedComesFirst(db: seq<Event>, query: string, f: Filters, i: nat, j: nat)
    requires Collection(db)
    requires var rows, w := StreamRanked(db, query, f), Want(query);
             && i < |rows| && j < |rows| && rows[i].score < 40.0 && rows[j].score < 40.0
             && |set g | g in w.grams && g in TrigramsOn(rows[i].event)|
                > |set g | g in w.grams && g in TrigramsOn(rows[j].event)|
    ensures i < j
  {
    hide Score, Want, Holds, AnyHolds, StreamRanked;
    var rows, w := StreamRanked(db, query, f), Want(query);
    PipelineReturnsTheRanking(db, query, f, None);
    StreamIsTheRanking(db, query, f);
    assert rows[i] in rows && rows[j] in rows;
    FuzzyRow(query, rows[i].event);
    FuzzyRow(query, rows[j].event);
    var a, b := |set g | g in w.grams && g in TrigramsOn(rows[i].event)|,
                |set g | g in w.grams && g in TrigramsOn(rows[j].event)|;
    MoreIsMore(a, b, |w.grams|, rows[i].score, rows[j].score);
  }

  lemma FuzzyRow(query: string, e: Event)
    requires Score(Want(query), e) < 40.0
    ensures var w := Want(query);
            Score(w, e) * |w.grams| as real == 30.0 * |set g | g in w.grams && g in TrigramsOn(e)| as real
  {
    hide Want, Score;
    TiersNeverMeet(query, e);
    FuzzyScoreIsTheShare(Want(query), e);
  }

  lemma MoreIsMore(a: nat, b: nat, n: nat, x: real, y: real)
    requires a > b && x * n as real == 30.0 * a as real && y * n as real == 30.0 * b as real
    ensures x > y
  {
    assert (x - y) * n as real == x * n as real - y * n as real;
  }

  // ---- the prefilter ----

  /** A query has no term exactly when it holds no letter and no digit. */
  lemma TermlessIffNoAlnum(query: string)
    ensures Want(query).terms == [] <==>
            forall i :: 0 <= i < |Normalize(query)| ==>
              !('a' <= Normalize(query)[i] <= 'z' || '0' <= Normalize(query)[i] <= '9')
  {
    var exact := Normalize(query);
    NormalizeTwice(query);
    NoWordsIffNoAlnum(exact);
    hide Words, Normalize, Alnum;
    DistinctKeepsMembers(SplitTerms(exact));
    if SplitTerms(exact) != [] {
      assert SplitTerms(exact)[0] in Want(query).terms;
    } else {
      assert forall t :: t in Want(query).terms ==> t in SplitTerms(exact);
    }
  }

  /** The prefilter drops an event that would have scored enough only for a query that holds no term at all. */
  lemma PrefilterLosesOnlyTermlessQueries(query: string, e: Event)
    ensures Score(Want(query), e) >= 12.0 && !AnyHolds(CandidateClauses(Want(query)), e) <==>
            Want(query).terms == []
            && var exact := Want(query).exact;
               !exists t :: t in TokensOn(e) && |exact| <= |t| && t[..|exact|] == exact
  {
    var w := Want(query);
    ClauseBranches(w, e);
    WantedGramsAreDistinct(query);
    RatioIsAFraction(w.grams, TrigramsOn(e));
    if w.exact in TokensOn(e) {
      var i :| 0 <= i < |TokensOn(e)| && TokensOn(e)[i] == w.exact;
      assert SomePrefixed(TokensOn(e), w.exact);
    }
  }

  /** For a query with a term, filtering by index and scoring every event give the same result. */
  lemma SearchIsScoringEverything(db: seq<Event>, query: string, f: Filters, e: Event)
    requires Collection(db) && Want(query).terms != []
    ensures Row(e, Score(Want(query), e)) in StreamRanked(db, query, f) <==>
            e in db && Holds(ToQuery(f), e) && Score(Want(query), e) >= 12.0
  {
    PipelineReturnsTheRanking(db, query, f, None);
    PrefilterLosesOnlyTermlessQueries(query, e);
  }

  // ---- the order of the tiers ----

  /** How well an event matches, best first: a token equals the query, starts with it, every term is there, or less. */
  function Tier(query: string, e: Event): nat {
    var w := Want(query);
    if Operand(w.exact).Some? && w.exact in TokensOn(e) then 1
    else if Operand(w.exact).Some? && SomePrefixed(TokensOn(e), w.exact) then 2
    else if AllIn(w.terms, TokensOn(e)) then 3
    else 4
  }

  /** In the results every exact match comes before every prefix match, then whole matches, then fuzzy ones. */
  lemma TiersComeInOrder(db: seq<Event>, query: string, f: Filters, i: nat, j: nat)
    requires Collection(db)
    requires var rows := StreamRanked(db, query, f);
             && i < |rows| && j < |rows| && Tier(query, rows[i].event) < Tier(query, rows[j].event)
    ensures i < j
  {
    hide Score, Want, Holds, AnyHolds, StreamRanked;
    var rows := StreamRanked(db, query, f);
    PipelineReturnsTheRanking(db, query, f, None);
    StreamIsTheRanking(db, query, f);
    assert rows[i] in rows && rows[j] in rows;
    TiersNeverMeet(query, rows[i].event);
    TiersNeverMeet(query, rows[j].event);
  }

  lemma StreamIsTheRanking(db: seq<Event>, query: string, f: Filters)
    ensures StreamRanked(db, query, f) == Ranking(db, query, f, None)
  {
  }

  // ---- recall ----

  /** Such a word, searched for, is one term and is compared as text. */
  lemma PlainWordIsOneTerm(s: string)
    requires s != [] && AllAlnum(s) && |s| <= MAX_TOKEN_LENGTH
    ensures Normalize(s) == s && TokensOf(s) == [s] && Want(s).terms == [s] && Operand(s) == Some(s)
  {
    PlainWordIsOneToken(s);
    assert Alnum(s[0]);
    assert Distinct([s]) == [s] by {
      assert [s][..0] == [];
    }
  }

  /** Every token of every source string is stored when the cap is not exceeded. */
  lemma UncappedTokens(source: Source, s: string, token: string)
    requires s in SourceStrings(source) && token in TokensOf(s)
    requires |Distinct(AllTokens(SourceStrings(source)))| <= TOKEN_LIMIT
    ensures token in Build(source).tokens
  {
    TokensOfASource(SourceStrings(source), s, token);
    FirstDistinctKeepsAll(AllTokens(SourceStrings(source)), TOKEN_LIMIT);
  }

  lemma TermsAreStored(source: Source, s: string, e: Event)
    requires e.search == Some(Build(source)) && s in SourceStrings(source)
    requires |Distinct(AllTokens(SourceStrings(source)))| <= 512
    ensures forall t :: t in Want(s).terms ==> t in TokensOn(e)
    ensures KeptWhole(s) ==> Want(s).exact in TokensOn(e)
  {
    var w := Want(s);
    NormalizeTwice(s);
    DistinctKeepsMembers(SplitTerms(w.exact));
    forall t | t in w.terms ensures t in TokensOn(e) {
      assert t in SplitTerms(w.exact);
      UncappedTokens(source, s, t);
    }
    if KeptWhole(s) {
      TokensHoldTheWholeText(s);
      UncappedTokens(source, s, w.exact);
    }
  }

  /**
   Searching any indexed string verbatim finds its event, at 40 or better; at 100 when the string is kept whole and
   does not start with a dollar sign, and at exactly 40 when it does.
   */
  lemma SearchingIndexedTextFindsIt(source: Source, s: string, e: Event)
    requires e.search == Some(Build(source)) && s in SourceStrings(source)
    requires |Distinct(AllTokens(SourceStrings(source)))| <= 512
    requires Want(s).terms != []
    ensures var score, dollar := Score(Want(s), e), Normalize(s) != "" && Normalize(s)[0] == '$';
            && score >= 40.0
            && (!dollar && KeptWhole(s) ==> score == 100.0)
            && (dollar ==> score == 40.0)
    ensures AnyHolds(CandidateClauses(Want(s)), e)
  {
    assert Want(s).exact == Normalize(s);
    hide Want, Score, KeptWhole, Normalize, Build, AnyHolds, CandidateClauses;
    TermsAreStored(source, s, e);
    TiersNeverMeet(s, e);
    ClauseBranches(Want(s), e);
  }

  /**
   An identifier that starts with a dollar sign is kept whole, and yet searching for it verbatim scores 40 and not 100:
   the exact tier takes it for a field path.
   */
  lemma DollarIdentifierScoresForty(a: string, b: string, e: Event)
    requires a != [] && AllAlnum(a) && b != [] && AllAlnum(b) && |a| + |b| + 2 <= MAX_TOKEN_LENGTH
    requires e.search == Some(Build(OneText("$" + a + "." + b)))
    ensures KeptWhole("$" + a + "." + b) && Score(Want("$" + a + "." + b), e) == 40.0
  {
    var s := "$" + a + "." + b;
    DollarTokens(a, b);
    TokensHoldTheWholeText(s);
    TermlessIffNoAlnum(s);
    assert Alnum(s[1]);
    hide Want, Build, TokensOf, Score, KeptWhole, Normalize;
    assert SourceStrings(OneText(s)) == [s];
    assert AllTokens([s]) == TokensOf(s);
    DistinctIsNoLonger(AllTokens([s]));
    assert s in SourceStrings(OneText(s));
    SearchingIndexedTextFindsIt(OneText(s), s, e);
  }

  lemma DollarTokens(a: string, b: string)
    requires a != [] && AllAlnum(a) && b != [] && AllAlnum(b) && |a| + |b| + 2 <= MAX_TOKEN_LENGTH
    ensures var s := "$" + a + "." + b;
            Normalize(s) == s && Operand(s).None? && TokensOf(s) == [a, b, s] && s in TokensOf(s)
  {
    var s := "$" + a + "." + b;
    assert forall i :: 0 <= i < |s| ==> s[i] == '$' || s[i] == '.' || Alnum(s[i]);
    assert Alnum(s[|s| - 1]);
    NormalAlready(s);
    DollarWords(a, b);
    hide Words, Normalize, AllAlnum;
    UncutTokens(s, a, b);
  }

  lemma DollarWords(a: string, b: string)
    requires a != [] && AllAlnum(a) && b != [] && AllAlnum(b)
    ensures Words("$" + a + "." + b) == [a, b]
  {
    var rest := a + ['.'] + b;
    assert "$" + a + "." + b == [] + ['$'] + rest;
    OneWord(a);
    OneWord(b);
    SeparatorsSplit([], '$', rest);
    SeparatorsSplit(a, '.', b);
  }
}
