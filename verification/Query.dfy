/**
 Queries over stored events: app/search/query.py. A pipeline is a list of stages; `Aggregate` is what the database
 does with one. Scores are exact rationals and cursors are taken as decoded.
 */
module Query {
  import opened Prelude
  import opened Tokenize
  import opened Events

  const EXACT_SCORE: real := 100.0
  const PREFIX_SCORE: real := 60.0
  const TOKEN_SCORE: real := 40.0
  const FUZZY_SCORE: real := 30.0
  const FUZZY_MIN_RATIO: real := 0.4
  const MIN_SCORE: real := FUZZY_SCORE * FUZZY_MIN_RATIO

  const DAY: int := 86400

  // ---- filters ----

  /** The form fields once parsed: an identifier or date that does not parse is the same as none. */
  datatype Filters = Filters(
    endpoint: Option<nat>, status: string, method_: string, eventType: string,
    dateFrom: Option<int>, dateTo: Option<int>)

  datatype Condition = Condition(
    endpoint: Option<nat>, status: Option<string>, method_: Option<string>, eventType: Option<string>,
    notBefore: Option<int>, before: Option<int>)

  const ANYTHING := Condition(None, None, None, None, None, None)

  function UpperChar(c: char): char {
    if 'a' <= c <= 'z' then c - 'a' + 'A' else c
  }

  function Upper(s: string): string {
    if s == [] then [] else [UpperChar(s[0])] + Upper(s[1..])
  }

  lemma {:induction false} UpperIs(s: string)
    ensures |Upper(s)| == |s|
    ensures forall i :: 0 <= i < |s| ==>
              Upper(s)[i] as int == if 97 <= s[i] as int <= 122 then s[i] as int - 32 else s[i] as int
  {
    if s != [] {
      UpperIs(s[1..]);
    }
  }

  function NonEmpty(s: string): Option<string> {
    if s == "" then None else Some(s)
  }

  function ToQuery(f: Filters): Condition {
    Condition(f.endpoint, NonEmpty(f.status), if f.method_ == "" then None else Some(Upper(f.method_)),
              NonEmpty(f.eventType), f.dateFrom, if f.dateTo.Some? then Some(f.dateTo.value + DAY) else None)
  }

  predicate Holds(c: Condition, e: Event) {
    && (c.endpoint.Some? ==> e.endpointId == c.endpoint.value)
    && (c.status.Some? ==> e.status == c.status.value)
    && (c.method_.Some? ==> e.method_ == c.method_.value)
    && (c.eventType.Some? ==> e.eventType == Some(c.eventType.value))
    && (c.notBefore.Some? ==> e.receivedAt >= c.notBefore.value)
    && (c.before.Some? ==> e.receivedAt < c.before.value)
  }

  method BuildCondition(f: Filters) returns (query: Condition)
    ensures query == ToQuery(f)
    ensures forall e :: Holds(query, e) <==>
              && (f.endpoint.Some? ==> e.endpointId == f.endpoint.value)
              && (f.status != "" ==> e.status == f.status)
              && (f.method_ != "" ==>
                    && |e.method_| == |f.method_|
                    && forall i :: 0 <= i < |f.method_| ==>
                         var c := f.method_[i] as int;
                         e.method_[i] as int == if 97 <= c <= 122 then c - 32 else c)
              && (f.eventType != "" ==> e.eventType == Some(f.eventType))
              && (f.dateFrom.Some? ==> e.receivedAt >= f.dateFrom.value)
              && (f.dateTo.Some? ==> e.receivedAt < f.dateTo.value + 24 * 60 * 60)
  {
    UpperIs(f.method_);
    query := ANYTHING;
    if f.endpoint.Some? {
      query := query.(endpoint := f.endpoint);
    }
    if f.status != "" {
      query := query.(status := Some(f.status));
    }
    if f.method_ != "" {
      query := query.(method_ := Some(Upper(f.method_)));
    }
    if f.eventType != "" {
      query := query.(eventType := Some(f.eventType));
    }
    if f.dateFrom.Some? {
      query := query.(notBefore := f.dateFrom);
    }
    if f.dateTo.Some? {
      query := query.(before := Some(f.dateTo.value + DAY));
    }
  }

  // ---- candidates and scores ----

  /** A query as the pipeline sees it. */
  datatype Wanted = Wanted(exact: string, terms: seq<string>, grams: seq<string>)

  function Want(query: string): Wanted {
    var exact := Normalize(query);
    var terms := Distinct(SplitTerms(exact));
    Wanted(exact, terms, Distinct(AllTrigrams(terms)))
  }

  /** The terms are the words of the normal form, cut to 64 characters, and the trigrams are theirs, each once. */
  lemma WantedIs(query: string)
    ensures Want(query).exact == Normalize(query)
    ensures NoRepeats(Want(query).terms) && NoRepeats(Want(query).grams)
    ensures forall t :: t in Want(query).terms <==> CutWord(Words(Normalize(query)), t)
    ensures forall g :: g in Want(query).grams <==> TrigramOfSome(Want(query).terms, g)
  {
    var exact, terms := Normalize(query), Want(query).terms;
    NormalizeTwice(query);
    hide Normalize, Words, Trigrams, Distinct, AllTrigrams;
    DistinctKeepsMembers(SplitTerms(exact));
    DistinctKeepsMembers(AllTrigrams(terms));
    AllTrigramsAre(terms);
    var words, cut := Words(exact), SplitTerms(exact);
    forall t ensures t in cut <==> CutWord(words, t) {
      if CutWord(words, t) {
        var i :| 0 <= i < |words| && t == words[i][..Min(64, |words[i]|)];
        assert cut[i] == t;
      }
    }
  }

  predicate CutWord(words: seq<string>, t: string) {
    exists i :: 0 <= i < |words| && t == words[i][..Min(64, |words[i]|)]
  }

  function TokensOn(e: Event): seq<string> {
    if e.search.Some? then e.search.value.tokens else []
  }

  function TrigramsOn(e: Event): seq<string> {
    if e.search.Some? then e.search.value.trigrams else []
  }

  predicate Overlaps(a: seq<string>, b: seq<string>) {
    exists i :: 0 <= i < |a| && a[i] in b
  }

  predicate AllIn(a: seq<string>, b: seq<string>) {
    forall i :: 0 <= i < |a| ==> a[i] in b
  }

  predicate SomePrefixed(tokens: seq<string>, exact: string) {
    exists i :: 0 <= i < |tokens| && exact <= tokens[i]
  }

  /** One branch of the indexed prefilter. */
  datatype Clause =
    | TokenIs(exact: string)
    | TokenStarts(exact: string)
    | TokensInclude(terms: seq<string>)
    | TrigramIn(grams: seq<string>)

  predicate ClauseHolds(c: Clause, e: Event) {
    match c
    case TokenIs(exact) => exact in TokensOn(e)
    case TokenStarts(exact) => SomePrefixed(TokensOn(e), exact)
    case TokensInclude(terms) => AllIn(terms, TokensOn(e))
    case TrigramIn(grams) => Overlaps(grams, TrigramsOn(e))
  }

  function CandidateClauses(w: Wanted): seq<Clause> {
    [TokenIs(w.exact), TokenStarts(w.exact)]
    + (if w.terms == [] then [] else [TokensInclude(w.terms)])
    + (if w.grams == [] then [] else [TrigramIn(w.grams)])
  }

  predicate AnyHolds(clauses: seq<Clause>, e: Event) {
    exists i :: 0 <= i < |clauses| && ClauseHolds(clauses[i], e)
  }

  lemma MembershipTests(w: Wanted, e: Event)
    ensures SomePrefixed(TokensOn(e), w.exact) <==>
            exists t :: t in TokensOn(e) && |w.exact| <= |t| && t[..|w.exact|] == w.exact
    ensures AllIn(w.terms, TokensOn(e)) <==> forall t :: t in w.terms ==> t in TokensOn(e)
    ensures Overlaps(w.grams, TrigramsOn(e)) <==> exists g :: g in w.grams && g in TrigramsOn(e)
    ensures w.exact in TokensOn(e) ==> SomePrefixed(TokensOn(e), w.exact)
  {
    if w.exact in TokensOn(e) {
      var i :| 0 <= i < |TokensOn(e)| && TokensOn(e)[i] == w.exact;
      assert w.exact <= TokensOn(e)[i];
    }
    if SomePrefixed(TokensOn(e), w.exact) {
      var i :| 0 <= i < |TokensOn(e)| && w.exact <= TokensOn(e)[i];
      assert TokensOn(e)[i] in TokensOn(e);
    }
  }

  /** What lets an event through the prefilter. */
  lemma ClauseBranches(w: Wanted, e: Event)
    ensures AnyHolds(CandidateClauses(w), e) <==>
            || w.exact in TokensOn(e)
            || (exists t :: t in TokensOn(e) && |w.exact| <= |t| && t[..|w.exact|] == w.exact)
            || (w.terms != [] && forall t :: t in w.terms ==> t in TokensOn(e))
            || exists g :: g in w.grams && g in TrigramsOn(e)
  {
    MembershipTests(w, e);
    var clauses := CandidateClauses(w);
    assert ClauseHolds(clauses[0], e) <==> w.exact in TokensOn(e);
    assert ClauseHolds(clauses[1], e) <==> SomePrefixed(TokensOn(e), w.exact);
    if w.terms != [] {
      assert ClauseHolds(clauses[2], e) <==> AllIn(w.terms, TokensOn(e));
    }
    if w.grams != [] {
      assert ClauseHolds(clauses[|clauses| - 1], e) <==> Overlaps(w.grams, TrigramsOn(e));
    }
  }

  method CandidateClause(w: Wanted) returns (clauses: seq<Clause>)
    ensures clauses == CandidateClauses(w)
    ensures forall e :: AnyHolds(clauses, e) <==>
              || w.exact in TokensOn(e)
              || (exists t :: t in TokensOn(e) && |w.exact| <= |t| && t[..|w.exact|] == w.exact)
              || (w.terms != [] && forall t :: t in w.terms ==> t in TokensOn(e))
              || exists g :: g in w.grams && g in TrigramsOn(e)
  {
    forall e {
      ClauseBranches(w, e);
    }
    clauses := [TokenIs(w.exact), TokenStarts(w.exact)];
    if w.terms != [] {
      clauses := clauses + [TokensInclude(w.terms)];
    }
    if w.grams != [] {
      clauses := clauses + [TrigramIn(w.grams)];
    }
  }

  /**
   The value an aggregation expression gives the string `exact`: a string that starts with a dollar sign is a field
   path there and not text, and a path that names no field has no value.
   */
  function Operand(exact: string): Option<string> {
    if exact != "" && exact[0] == '$' then None else Some(exact)
  }

  function Shared(grams: seq<string>, trigrams: seq<string>): set<string> {
    set g | g in grams && g in trigrams
  }

  function Ratio(grams: seq<string>, trigrams: seq<string>): real {
    if grams == [] then 0.0 else |Shared(grams, trigrams)| as real / |grams| as real
  }

  function Score(w: Wanted, e: Event): real {
    var literal := Operand(w.exact);
    if literal.Some? && literal.value in TokensOn(e) then EXACT_SCORE
    else if literal.Some? && SomePrefixed(TokensOn(e), literal.value) then PREFIX_SCORE
    else if AllIn(w.terms, TokensOn(e)) then TOKEN_SCORE
    else FUZZY_SCORE * Ratio(w.grams, TrigramsOn(e))
  }

  // ---- pipelines ----

  /** `Recent` pages the plain listing; `Ranked` pages a search. */
  datatype Cursor =
    | Recent(receivedAt: int)
    | Ranked(receivedAt: int, score: real, eventId: nat)

  /** A document in the pipeline, with the score once it has one. */
  datatype Row = Row(event: Event, score: real)

  datatype Stage =
    | MatchCandidates(condition: Condition, clauses: seq<Clause>)
    | AddScore(wanted: Wanted)
    | MatchScore(minimum: real)
    | MatchAfter(cursor: Cursor)
    | SortByRank
    | Limit(count: nat)

  /** Descending by score, then time, then identifier. */
  predicate Before(a: Row, b: Row) {
    || a.score > b.score
    || (a.score == b.score && a.event.receivedAt > b.event.receivedAt)
    || (a.score == b.score && a.event.receivedAt == b.event.receivedAt && a.event.id > b.event.id)
  }

  predicate AfterCursor(c: Cursor, r: Row)
    requires c.Ranked?
  {
    || r.score < c.score
    || (r.score == c.score && r.event.receivedAt < c.receivedAt)
    || (r.score == c.score && r.event.receivedAt == c.receivedAt && r.event.id < c.eventId)
  }

  function CursorAfter(r: Row, scored: bool): Cursor {
    if scored then Ranked(r.event.receivedAt, r.score, r.event.id) else Recent(r.event.receivedAt)
  }

  predicate Passes(stage: Stage, r: Row) {
    match stage
    case MatchCandidates(condition, clauses) => Holds(condition, r.event) && AnyHolds(clauses, r.event)
    case MatchScore(minimum) => r.score >= minimum
    case MatchAfter(cursor) => cursor.Ranked? ==> AfterCursor(cursor, r)
    case _ => true
  }

  function Filter(stage: Stage, rows: seq<Row>): seq<Row> {
    if rows == [] then []
    else (if Passes(stage, rows[0]) then [rows[0]] else []) + Filter(stage, rows[1..])
  }

  function Scored(w: Wanted, rows: seq<Row>): seq<Row> {
    if rows == [] then [] else [rows[0].(score := Score(w, rows[0].event))] + Scored(w, rows[1..])
  }

  function InsertRow(r: Row, sorted: seq<Row>): seq<Row> {
    if sorted == [] || Before(r, sorted[0]) then [r] + sorted else [sorted[0]] + InsertRow(r, sorted[1..])
  }

  function Sorted(rows: seq<Row>): seq<Row> {
    if rows == [] then [] else InsertRow(rows[0], Sorted(rows[1..]))
  }

  function Take(rows: seq<Row>, count: nat): seq<Row> {
    rows[..Min(count, |rows|)]
  }

  function Apply(stage: Stage, rows: seq<Row>): seq<Row> {
    match stage
    case AddScore(w) => Scored(w, rows)
    case SortByRank => Sorted(rows)
    case Limit(count) => Take(rows, count)
    case _ => Filter(stage, rows)
  }

  function RunStages(stages: seq<Stage>, rows: seq<Row>): seq<Row> {
    if stages == [] then rows else RunStages(stages[1..], Apply(stages[0], rows))
  }

  function Unscored(db: seq<Event>): seq<Row> {
    if db == [] then [] else [Row(db[0], 0.0)] + Unscored(db[1..])
  }

  /** The collection is given in whatever order the database reads it. */
  function Aggregate(stages: seq<Stage>, db: seq<Event>): seq<Row> {
    RunStages(stages, Unscored(db))
  }

  function PipelineFor(query: string, f: Filters, limit: Option<nat>, cursor: Option<Cursor>): seq<Stage> {
    var w := Want(query);
    [MatchCandidates(ToQuery(f), CandidateClauses(w)), AddScore(w), MatchScore(MIN_SCORE)]
    + (if cursor.Some? && cursor.value.Ranked? then [MatchAfter(cursor.value)] else [])
    + [SortByRank]
    + (if limit.Some? then [Limit(limit.value)] else [])
  }

  function Search(db: seq<Event>, query: string, f: Filters, limit: nat, cursor: Option<Cursor>): seq<Row> {
    Aggregate(PipelineFor(query, f, Some(limit), cursor), db)
  }

  /** The ranked export: the same pipeline with no limit and no cursor. */
  function StreamRanked(db: seq<Event>, query: string, f: Filters): seq<Row> {
    Aggregate(PipelineFor(query, f, None, None), db)
  }
}
