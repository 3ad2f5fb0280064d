/**
 Ranked search and its pages: the pipeline returns exactly the scored matches in rank order, and following cursors to a
 short page returns every match once.
 */
module Paging {
  import opened Prelude
  import opened Tokenize
  import opened Events
  import opened Query

  ghost predicate DistinctIds(rows: seq<Row>) {
    forall i, j :: 0 <= i < j < |rows| ==> rows[i].event.id != rows[j].event.id
  }

  /** A collection: no two documents share an identifier. */
  ghost predicate Collection(db: seq<Event>) {
    forall i, j :: 0 <= i < j < |db| ==> db[i].id != db[j].id
  }

  ghost predicate InRankOrder(rows: seq<Row>) {
    forall i, j :: 0 <= i < j < |rows| ==> Before(rows[i], rows[j])
  }

  // ---- each stage ----

  lemma {:induction false} FilterMembers(stage: Stage, rows: seq<Row>)
    requires DistinctIds(rows)
    ensures DistinctIds(Filter(stage, rows))
    ensures forall r :: r in Filter(stage, rows) <==> r in rows && Passes(stage, r)
  {
    if rows != [] {
      FilterMembers(stage, rows[1..]);
      assert rows == [rows[0]] + rows[1..];
      assert forall r :: r in rows[1..] ==> r.event.id != rows[0].event.id;
    }
  }

  lemma {:induction false} ScoredAt(w: Wanted, rows: seq<Row>)
    ensures |Scored(w, rows)| == |rows|
    ensures forall i :: 0 <= i < |rows| ==> Scored(w, rows)[i] == rows[i].(score := Score(w, rows[i].event))
  {
    if rows != [] {
      ScoredAt(w, rows[1..]);
    }
  }

  lemma {:induction false} UnscoredAt(db: seq<Event>)
    ensures |Unscored(db)| == |db|
    ensures forall i :: 0 <= i < |db| ==> Unscored(db)[i] == Row(db[i], 0.0)
  {
    if db != [] {
      UnscoredAt(db[1..]);
    }
  }

  lemma ScoredMembers(w: Wanted, rows: seq<Row>, r: Row)
    ensures r in Scored(w, rows) <==> exists p :: p in rows && r == p.(score := Score(w, p.event))
  {
    hide Score;
    ScoredAt(w, rows);
    forall p | p in rows && r == p.(score := Score(w, p.event)) ensures r in Scored(w, rows) {
      var k :| 0 <= k < |rows| && rows[k] == p;
      assert Scored(w, rows)[k] == r;
    }
  }

  lemma UnscoredMembers(db: seq<Event>, r: Row)
    ensures r in Unscored(db) <==> r.event in db && r.score == 0.0
  {
    UnscoredAt(db);
    if r.event in db && r.score == 0.0 {
      var i :| 0 <= i < |db| && db[i] == r.event;
      assert Unscored(db)[i] == r;
    }
  }

  lemma {:induction false} InsertKeepsOrder(r: Row, sorted: seq<Row>)
    requires InRankOrder(sorted)
    requires forall s :: s in sorted ==> s.event.id != r.event.id
    ensures InRankOrder(InsertRow(r, sorted))
    ensures forall s :: s in InsertRow(r, sorted) <==> s == r || s in sorted
  {
    if sorted != [] {
      var rest := sorted[1..];
      assert sorted == [sorted[0]] + rest;
      if !Before(r, sorted[0]) {
        InsertKeepsOrder(r, rest);
        assert forall s :: s in InsertRow(r, rest) ==> Before(sorted[0], s);
      } else {
        assert forall s :: s in sorted ==> Before(r, s);
      }
    }
  }

  lemma {:induction false} SortedIsInRankOrder(rows: seq<Row>)
    requires DistinctIds(rows)
    ensures InRankOrder(Sorted(rows))
    ensures forall r :: r in Sorted(rows) <==> r in rows
  {
    if rows != [] {
      SortedIsInRankOrder(rows[1..]);
      assert rows == [rows[0]] + rows[1..];
      InsertKeepsOrder(rows[0], Sorted(rows[1..]));
    }
  }

  /** A ranking is determined by the rows in it. */
  lemma {:induction false} RankingIsUnique(a: seq<Row>, b: seq<Row>)
    requires InRankOrder(a) && InRankOrder(b)
    requires forall r :: r in a <==> r in b
    ensures a == b
  {
    assert b != [] ==> b[0] in a;
    if a != [] {
      assert a[0] in b;
      assert a[0] == b[0];
      assert a == [a[0]] + a[1..] && b == [b[0]] + b[1..];
      assert forall r :: r in a[1..] ==> Before(a[0], r);
      assert forall r :: r in b[1..] ==> Before(b[0], r);
      forall r ensures r in a[1..] <==> r in b[1..] {
        assert r in a <==> r in b;
      }
      RankingIsUnique(a[1..], b[1..]);
    }
  }

  // ---- the whole pipeline ----

  /** The rows a ranked query asks for: every candidate, scored, at or above the threshold and after the cursor. */
  ghost predicate Asked(db: seq<Event>, query: string, f: Filters, cursor: Option<Cursor>, r: Row) {
    && r.event in db && Holds(ToQuery(f), r.event)
    && AnyHolds(CandidateClauses(Want(query)), r.event)
    && r.score == Score(Want(query), r.event) && r.score >= 12.0
    && (cursor.Some? && cursor.value.Ranked? ==> AfterCursor(cursor.value, r))
  }

  ghost function Ranking(db: seq<Event>, query: string, f: Filters, cursor: Option<Cursor>): seq<Row> {
    Aggregate(PipelineFor(query, f, None, cursor), db)
  }

  lemma {:induction false} RunConcat(a: seq<Stage>, b: seq<Stage>, rows: seq<Row>)
    ensures RunStages(a + b, rows) == RunStages(b, RunStages(a, rows))
  {
    hide Apply;
    if a == [] {
      assert a + b == b;
    } else {
      RunConcat(a[1..], b, Apply(a[0], rows));
      assert (a + b)[1..] == a[1..] + b;
    }
  }

  lemma RunOne(stage: Stage, rows: seq<Row>)
    ensures RunStages([stage], rows) == Apply(stage, rows)
  {
  }

  /** Candidates, scored and thresholded. */
  lemma ScoredCandidates(db: seq<Event>, condition: Condition, clauses: seq<Clause>, w: Wanted)
    requires Collection(db)
    ensures var head := [MatchCandidates(condition, clauses), AddScore(w), MatchScore(MIN_SCORE)];
            var rows := RunStages(head, Unscored(db));
            && DistinctIds(rows)
            && forall r :: r in rows <==>
                 && r.event in db && Holds(condition, r.event) && AnyHolds(clauses, r.event)
                 && r.score == Score(w, r.event) && r.score >= MIN_SCORE
  {
    hide Score, Holds, AnyHolds;
    var pick, add, keep := MatchCandidates(condition, clauses), AddScore(w), MatchScore(MIN_SCORE);
    var start := Unscored(db);
    UnscoredAt(db);
    FilterMembers(pick, start);
    var picked := Filter(pick, start);
    ScoredAt(w, picked);
    var scored := Scored(w, picked);
    forall r ensures r in scored <==>
      r.event in db && Holds(condition, r.event) && AnyHolds(clauses, r.event) && r.score == Score(w, r.event)
    {
      ScoredMembers(w, picked, r);
      UnscoredMembers(db, Row(r.event, 0.0));
      if r in scored {
        var p :| p in picked && r == p.(score := Score(w, p.event));
        UnscoredMembers(db, p);
      }
    }
    FilterMembers(keep, scored);
    RunConcat([pick], [add, keep], start);
    RunConcat([add], [keep], picked);
    RunOne(keep, scored);
    assert [pick, add, keep] == [pick] + [add, keep] && [add, keep] == [add] + [keep];
  }

  lemma BeforeIs()
    ensures forall a, b :: Before(a, b) ==>
              || a.score > b.score
              || (a.score == b.score && a.event.receivedAt > b.event.receivedAt)
              || (a.score == b.score && a.event.receivedAt == b.event.receivedAt && a.event.id > b.event.id)
  {
  }

  /** The pipeline returns exactly the rows asked for, in rank order, whatever order the collection is read in. */
  lemma PipelineReturnsTheRanking(db: seq<Event>, query: string, f: Filters, cursor: Option<Cursor>)
    requires Collection(db)
    ensures InRankOrder(Ranking(db, query, f, cursor))
    ensures forall r :: r in Ranking(db, query, f, cursor) <==> Asked(db, query, f, cursor, r)
    ensures var rows := Ranking(db, query, f, cursor);
            forall i, j :: 0 <= i < j < |rows| ==>
              var a, b := rows[i], rows[j];
              || a.score > b.score
              || (a.score == b.score && a.event.receivedAt > b.event.receivedAt)
              || (a.score == b.score && a.event.receivedAt == b.event.receivedAt && a.event.id > b.event.id)
  {
    BeforeIs();
    hide Score, Holds, AnyHolds, CandidateClauses, Want, Before, Sorted;
    var w := Want(query);
    var head := [MatchCandidates(ToQuery(f), CandidateClauses(w)), AddScore(w), MatchScore(MIN_SCORE)];
    var rows := RunStages(head, Unscored(db));
    ScoredCandidates(db, ToQuery(f), CandidateClauses(w), w);
    if cursor.Some? && cursor.value.Ranked? {
      var after := MatchAfter(cursor.value);
      FilterMembers(after, rows);
      RunTail(head, [after], Unscored(db), Filter(after, rows));
      assert PipelineFor(query, f, None, cursor) == head + [after] + [SortByRank];
    } else {
      RunTail(head, [], Unscored(db), rows);
      assert PipelineFor(query, f, None, cursor) == head + [] + [SortByRank];
    }
  }

  lemma RunTail(head: seq<Stage>, middle: seq<Stage>, start: seq<Row>, rows: seq<Row>)
    requires RunStages(middle, RunStages(head, start)) == rows && DistinctIds(rows)
    ensures var all := RunStages(head + middle + [SortByRank], start);
            InRankOrder(all) && forall r :: r in all <==> r in rows
  {
    RunConcat(head, middle, start);
    RunConcat(head + middle, [SortByRank], start);
    RunOne(SortByRank, rows);
    SortedIsInRankOrder(rows);
  }

  lemma PageIsAPrefix(db: seq<Event>, query: string, f: Filters, limit: nat, cursor: Option<Cursor>)
    ensures Search(db, query, f, limit, cursor) == Take(Ranking(db, query, f, cursor), limit)
  {
    var all := PipelineFor(query, f, None, cursor);
    RunConcat(all, [Limit(limit)], Unscored(db));
    assert PipelineFor(query, f, Some(limit), cursor) == all + [Limit(limit)];
  }

  /** The rows asked for, all of them and in rank order; with a limit, the first of them. */
  ghost predicate Returns(
    pipeline: seq<Stage>, db: seq<Event>, query: string, f: Filters, limit: Option<nat>, cursor: Option<Cursor>)
  {
    var rows := Aggregate(pipeline, db);
    if limit.Some? then rows == Ranking(db, query, f, cursor)[..Min(limit.value, |Ranking(db, query, f, cursor)|)]
    else InRankOrder(rows) && forall r :: r in rows <==> Asked(db, query, f, cursor, r)
  }

  lemma PipelineReturns(db: seq<Event>, query: string, f: Filters, limit: Option<nat>, cursor: Option<Cursor>)
    requires Collection(db)
    ensures Returns(PipelineFor(query, f, limit, cursor), db, query, f, limit, cursor)
  {
    hide Asked, InRankOrder, PipelineFor;
    if limit.Some? {
      PageIsAPrefix(db, query, f, limit.value, cursor);
    } else {
      PipelineReturnsTheRanking(db, query, f, cursor);
    }
  }

  method BuildPipeline(query: string, f: Filters, limit: Option<nat>, cursor: Option<Cursor>)
    returns (pipeline: seq<Stage>)
    ensures pipeline == PipelineFor(query, f, limit, cursor)
    ensures forall db :: Collection(db) ==> Returns(pipeline, db, query, f, limit, cursor)
  {
    var exact := Normalize(query);
    var terms := Distinct(SplitTerms(exact));
    var grams := Distinct(AllTrigrams(terms));
    var w := Wanted(exact, terms, grams);
    var condition := BuildCondition(f);
    var clauses := CandidateClause(w);
    pipeline := [MatchCandidates(condition, clauses), AddScore(w), MatchScore(MIN_SCORE)];
    if cursor.Some? && cursor.value.Ranked? {
      pipeline := pipeline + [MatchAfter(cursor.value)];
    }
    pipeline := pipeline + [SortByRank];
    if limit.Some? {
      pipeline := pipeline + [Limit(limit.value)];
    }
    assert pipeline == PipelineFor(query, f, limit, cursor);
    hide *;
    forall db | Collection(db) ensures Returns(pipeline, db, query, f, limit, cursor) {
      PipelineReturns(db, query, f, limit, cursor);
    }
  }

  // ---- following cursors ----

  ghost function Flatten(pages: seq<seq<Row>>): seq<Row> {
    if pages == [] then [] else pages[0] + Flatten(pages[1..])
  }

  ghost function NextCursor(page: seq<Row>): Option<Cursor>
    requires page != []
  {
    Some(CursorAfter(page[|page| - 1], true))
  }

  /** Pages loaded one after another, each from the cursor of the last row of a full page, until a short one. */
  ghost predicate PageChain(
    dbs: seq<seq<Event>>, query: string, f: Filters, limit: nat, cursor: Option<Cursor>, pages: seq<seq<Row>>)
    requires limit > 0
  {
    && |dbs| == |pages| > 0
    && pages[0] == Search(dbs[0], query, f, limit, cursor)
    && if |pages[0]| < limit then |pages| == 1
       else |pages[0]| == limit && PageChain(dbs[1..], query, f, limit, NextCursor(pages[0]), pages[1..])
  }

  ghost predicate Grows(older: seq<Event>, newer: seq<Event>) {
    forall e :: e in older ==> e in newer
  }

  /** Between page loads events may be inserted, and nothing else happens to the collection. */
  ghost predicate OnlyInserts(dbs: seq<seq<Event>>) {
    dbs != [] ==>
      Collection(dbs[0]) && OnlyInserts(dbs[1..]) && (|dbs| > 1 ==> Grows(dbs[0], dbs[1]))
  }

  lemma AfterLastRow(r: Row, last: Row)
    ensures AfterCursor(CursorAfter(last, true), r) <==> Before(last, r)
  {
  }

  lemma AfterIsTransitive(c: Cursor, last: Row, r: Row)
    requires c.Ranked? && AfterCursor(c, last) && Before(last, r)
    ensures AfterCursor(c, r)
  {
  }

  lemma PageIsAsked(db: seq<Event>, query: string, f: Filters, limit: nat, cursor: Option<Cursor>)
    requires Collection(db)
    ensures var page := Search(db, query, f, limit, cursor);
            InRankOrder(page) && forall p :: p in page ==> Asked(db, query, f, cursor, p)
  {
    PipelineReturnsTheRanking(db, query, f, cursor);
    PageIsAPrefix(db, query, f, limit, cursor);
  }

  /** What one page leaves for the next: exactly the rows asked for that rank below its last row. */
  lemma NextPageAsks(db: seq<Event>, query: string, f: Filters, limit: nat, cursor: Option<Cursor>, r: Row)
    requires Collection(db) && Asked(db, query, f, cursor, r)
    ensures var page := Search(db, query, f, limit, cursor);
            && (|page| < limit ==> r in page)
            && (page != [] ==> (r in page <==> !Asked(db, query, f, NextCursor(page), r)))
  {
    hide Score, Want, Holds, AnyHolds, CandidateClauses;
    var all, page := Ranking(db, query, f, cursor), Search(db, query, f, limit, cursor);
    PipelineReturnsTheRanking(db, query, f, cursor);
    PageIsAPrefix(db, query, f, limit, cursor);
    assert all == page + all[|page|..];
    if page != [] {
      AfterLastRow(r, page[|page| - 1]);
    }
  }

  lemma {:induction false} EventsStay(dbs: seq<seq<Event>>, e: Event)
    requires OnlyInserts(dbs) && dbs != [] && e in dbs[0]
    ensures e in dbs[|dbs| - 1]
  {
    if |dbs| > 1 {
      EventsStay(dbs[1..], e);
    }
  }

  lemma {:induction false} LastIsACollection(dbs: seq<seq<Event>>)
    requires OnlyInserts(dbs) && dbs != []
    ensures Collection(dbs[|dbs| - 1])
  {
    if |dbs| > 1 {
      LastIsACollection(dbs[1..]);
    }
  }

  lemma JoinInRankOrder(a: seq<Row>, b: seq<Row>)
    requires InRankOrder(a) && InRankOrder(b)
    requires forall p, r :: p in a && r in b ==> Before(p, r)
    ensures InRankOrder(a + b)
  {
  }

  /** The pages of a chain, joined, are in rank order below its first cursor and hold only rows asked for. */
  lemma {:induction false} PagesAreInRankOrder(
    dbs: seq<seq<Event>>, query: string, f: Filters, limit: nat, cursor: Option<Cursor>, pages: seq<seq<Row>>)
    requires limit > 0 && OnlyInserts(dbs) && PageChain(dbs, query, f, limit, cursor, pages)
    ensures InRankOrder(Flatten(pages))
    ensures forall r :: r in Flatten(pages) ==> Asked(dbs[|dbs| - 1], query, f, cursor, r)
    decreases |pages|
  {
    var page, final := pages[0], dbs[|dbs| - 1];
    PageIsAsked(dbs[0], query, f, limit, cursor);
    forall r | r in page ensures Asked(final, query, f, cursor, r) {
      EventsStay(dbs, r.event);
    }
    if |page| == limit {
      var last := page[|page| - 1];
      PagesAreInRankOrder(dbs[1..], query, f, limit, NextCursor(page), pages[1..]);
      forall r | r in Flatten(pages[1..])
        ensures Asked(final, query, f, cursor, r) && forall p :: p in page ==> Before(p, r)
      {
        AfterLastRow(r, last);
        assert last in page;
        if cursor.Some? && cursor.value.Ranked? {
          AfterIsTransitive(cursor.value, last, r);
        }
        assert forall p :: p in page ==> p == last || Before(p, last);
      }
      JoinInRankOrder(page, Flatten(pages[1..]));
    } else {
      assert Flatten(pages[1..]) == [];
    }
  }

  /** Whatever is inserted meanwhile, every row asked for at the start is on some page. */
  lemma {:induction false} PagesLoseNothing(
    dbs: seq<seq<Event>>, query: string, f: Filters, limit: nat, cursor: Option<Cursor>, pages: seq<seq<Row>>, r: Row)
    requires limit > 0 && OnlyInserts(dbs) && PageChain(dbs, query, f, limit, cursor, pages)
    requires Asked(dbs[0], query, f, cursor, r)
    ensures r in Flatten(pages)
    decreases |pages|
  {
    NextPageAsks(dbs[0], query, f, limit, cursor, r);
    if r !in pages[0] {
      assert r.event in dbs[1];
      PagesLoseNothing(dbs[1..], query, f, limit, NextCursor(pages[0]), pages[1..], r);
    }
  }

  lemma BeforeIsIrreflexive()
    ensures forall r :: !Before(r, r)
  {
  }

  /** Rows in rank order that score documents of one collection: no document has two of them. */
  lemma OneRowPerEvent(db: seq<Event>, w: Wanted, rows: seq<Row>)
    requires Collection(db) && InRankOrder(rows)
    requires forall r :: r in rows ==> r.event in db && r.score == Score(w, r.event)
    ensures DistinctIds(rows)
  {
    hide Before, Score;
    BeforeIsIrreflexive();
    forall i, j | 0 <= i < j < |rows| ensures rows[i].event.id != rows[j].event.id {
      assert rows[i] in rows && rows[j] in rows;
      assert Before(rows[i], rows[j]);
    }
  }

  /**
   Following cursors until a short page, with any inserts between page loads: no event is returned twice, every event
   that matched at the start is returned, and everything returned matches.
   */
  lemma RankedPagingIsExact(dbs: seq<seq<Event>>, query: string, f: Filters, limit: nat, pages: seq<seq<Row>>)
    requires limit > 0 && OnlyInserts(dbs) && PageChain(dbs, query, f, limit, None, pages)
    ensures DistinctIds(Flatten(pages))
    ensures forall r :: Asked(dbs[0], query, f, None, r) ==> r in Flatten(pages)
    ensures forall r :: r in Flatten(pages) ==> Asked(dbs[|dbs| - 1], query, f, None, r)
  {
    hide Score, Want, Before, Holds, AnyHolds;
    PagesAreInRankOrder(dbs, query, f, limit, None, pages);
    LastIsACollection(dbs);
    OneRowPerEvent(dbs[|dbs| - 1], Want(query), Flatten(pages));
    forall r | Asked(dbs[0], query, f, None, r) ensures r in Flatten(pages) {
      PagesLoseNothing(dbs, query, f, limit, None, pages, r);
    }
  }

  lemma {:induction false} NothingInserted(db: seq<Event>, dbs: seq<seq<Event>>)
    requires Collection(db) && forall k :: 0 <= k < |dbs| ==> dbs[k] == db
    ensures OnlyInserts(dbs)
  {
    if dbs != [] {
      NothingInserted(db, dbs[1..]);
    }
  }

  /** With nothing inserted, the pages joined are the unbounded pipeline that the export runs. */
  lemma PagesJoinToTheExport(
    db: seq<Event>, dbs: seq<seq<Event>>, query: string, f: Filters, limit: nat, pages: seq<seq<Row>>)
    requires limit > 0 && Collection(db) && forall k :: 0 <= k < |dbs| ==> dbs[k] == db
    requires PageChain(dbs, query, f, limit, None, pages)
    ensures Flatten(pages) == StreamRanked(db, query, f)
  {
    NothingInserted(db, dbs);
    RankedPagingIsExact(dbs, query, f, limit, pages);
    PagesAreInRankOrder(dbs, query, f, limit, None, pages);
    PipelineReturnsTheRanking(db, query, f, None);
    RankingIsUnique(Flatten(pages), StreamRanked(db, query, f));
  }
}
