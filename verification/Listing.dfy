/**
 The plain event list: newest first, paged by time alone. The database does not say how it orders events of the same
 time, so a listing is a relation: any order that is newest first.
 */
module Listing {
  import opened Prelude
  import opened Events
  import opened Query

  /** The query of one page: the cursor takes the place of the end date, if there was one. */
  function PageCondition(f: Filters, cursor: Option<Cursor>): Condition {
    var query := ToQuery(f);
    if cursor.Some? then query.(before := Some(cursor.value.receivedAt)) else query
  }

  ghost predicate NewestFirst(rows: seq<Event>) {
    forall i, j :: 0 <= i < j < |rows| ==> rows[i].receivedAt >= rows[j].receivedAt
  }

  ghost predicate NoneTwice(rows: seq<Event>) {
    forall i, j :: 0 <= i < j < |rows| ==> rows[i] != rows[j]
  }

  /** `all` is one way the database may list the events of `db` that meet the condition. */
  ghost predicate IsListing(db: set<Event>, condition: Condition, all: seq<Event>) {
    && NewestFirst(all) && NoneTwice(all)
    && forall e :: e in all <==> e in db && Holds(condition, e)
  }

  ghost predicate IsPage(db: set<Event>, condition: Condition, limit: nat, page: seq<Event>) {
    exists all :: IsListing(db, condition, all) && page == all[..Min(limit, |all|)]
  }

  /**
   Pages loaded one after another, each from the time of the last row of a full page, until a short one. `dbs` is the
   collection at each load.
   */
  ghost predicate ListChain(
    dbs: seq<set<Event>>, f: Filters, limit: nat, cursor: Option<Cursor>, pages: seq<seq<Event>>)
    requires limit > 0
    decreases |pages|
  {
    && |dbs| == |pages| > 0
    && IsPage(dbs[0], PageCondition(f, cursor), limit, pages[0])
    && if |pages[0]| < limit then |pages| == 1
       else
         && |pages[0]| == limit
         && ListChain(dbs[1..], f, limit, Some(Recent(pages[0][limit - 1].receivedAt)), pages[1..])
  }

  /** Between page loads events may be inserted, and nothing else happens to the collection. */
  ghost predicate Growing(dbs: seq<set<Event>>) {
    forall i, j :: 0 <= i <= j < |dbs| ==> dbs[i] <= dbs[j]
  }

  /** A cursor a chain can reach: none, or the time of an event that met the filters. */
  predicate WithinFilters(f: Filters, cursor: Option<Cursor>) {
    cursor.Some? && ToQuery(f).before.Some? ==> cursor.value.receivedAt < ToQuery(f).before.value
  }

  predicate OlderThan(cursor: Option<Cursor>, e: Event) {
    cursor.Some? ==> e.receivedAt < cursor.value.receivedAt
  }

  /** Replacing the end date by such a cursor narrows the filters and never widens them. */
  lemma CursorNarrowsTheFilters(f: Filters, cursor: Option<Cursor>, e: Event)
    requires WithinFilters(f, cursor)
    ensures Holds(PageCondition(f, cursor), e) <==> Holds(ToQuery(f), e) && OlderThan(cursor, e)
  {
  }

  /** The cursor made of a matching row asks for the matching events older than it. */
  lemma CursorAfterARow(f: Filters, r: Row, e: Event)
    requires Holds(ToQuery(f), r.event)
    ensures Holds(PageCondition(f, Some(CursorAfter(r, false))), e) <==>
            Holds(ToQuery(f), e) && e.receivedAt < r.event.receivedAt
  {
    CursorNarrowsTheFilters(f, Some(CursorAfter(r, false)), e);
  }

  lemma PageFacts(db: set<Event>, f: Filters, limit: nat, cursor: Option<Cursor>, page: seq<Event>, e: Event)
    requires limit > 0 && WithinFilters(f, cursor) && IsPage(db, PageCondition(f, cursor), limit, page)
    ensures |page| <= limit && NewestFirst(page) && NoneTwice(page)
    ensures e in page ==> e in db && Holds(ToQuery(f), e) && OlderThan(cursor, e)
    ensures e in db && Holds(ToQuery(f), e) && OlderThan(cursor, e) && e !in page ==>
              |page| == limit && e.receivedAt <= page[limit - 1].receivedAt
  {
    var condition := PageCondition(f, cursor);
    var all :| IsListing(db, condition, all) && page == all[..Min(limit, |all|)];
    CursorNarrowsTheFilters(f, cursor, e);
    if e in all && e !in page {
      var i :| 0 <= i < |all| && all[i] == e;
      assert page == all[..|page|];
    }
  }

  ghost predicate OnSomePage(pages: seq<seq<Event>>, e: Event) {
    exists k :: 0 <= k < |pages| && e in pages[k]
  }

  /** `e` has the time of the last row of some full page and is not on that page. */
  ghost predicate TiedOut(pages: seq<seq<Event>>, limit: nat, e: Event)
    requires limit > 0
  {
    exists k :: 0 <= k < |pages| && CutOff(pages[k], limit, e)
  }

  ghost predicate CutOff(page: seq<Event>, limit: nat, e: Event)
    requires limit > 0
  {
    |page| == limit && page[limit - 1].receivedAt == e.receivedAt && e !in page
  }

  lemma NextCursorIsWithin(db: set<Event>, f: Filters, limit: nat, cursor: Option<Cursor>, page: seq<Event>)
    requires limit > 0 && WithinFilters(f, cursor)
    requires IsPage(db, PageCondition(f, cursor), limit, page) && |page| == limit
    ensures WithinFilters(f, Some(Recent(page[limit - 1].receivedAt)))
    ensures forall e: Event :: OlderThan(Some(Recent(page[limit - 1].receivedAt)), e) ==> OlderThan(cursor, e)
  {
    PageFacts(db, f, limit, cursor, page, page[limit - 1]);
  }

  lemma {:induction false} LaterPagesAreOlder(
    dbs: seq<set<Event>>, f: Filters, limit: nat, cursor: Option<Cursor>, pages: seq<seq<Event>>, k: nat, e: Event)
    requires limit > 0 && WithinFilters(f, cursor) && ListChain(dbs, f, limit, cursor, pages)
    requires k < |pages| && e in pages[k]
    ensures e in dbs[k] && Holds(ToQuery(f), e) && OlderThan(cursor, e) && NoneTwice(pages[k])
    decreases k
  {
    if k == 0 {
      PageFacts(dbs[0], f, limit, cursor, pages[0], e);
    } else {
      NextCursorIsWithin(dbs[0], f, limit, cursor, pages[0]);
      LaterPagesAreOlder(dbs[1..], f, limit, Some(Recent(pages[0][limit - 1].receivedAt)), pages[1..], k - 1, e);
    }
  }

  /** Whatever is inserted meanwhile, no event is on two pages, or twice on one. */
  lemma {:induction false} ListingNeverRepeats(
    dbs: seq<set<Event>>, f: Filters, limit: nat, cursor: Option<Cursor>, pages: seq<seq<Event>>, j: nat, k: nat,
    e: Event)
    requires limit > 0 && WithinFilters(f, cursor) && ListChain(dbs, f, limit, cursor, pages)
    requires j < |pages| && k < |pages| && e in pages[j]
    ensures NoneTwice(pages[j])
    ensures e in pages[k] ==> j == k
    decreases j + k
  {
    hide Holds, ToQuery, PageCondition, IsPage;
    PageFacts(dbs[0], f, limit, cursor, pages[0], e);
    LaterPagesAreOlder(dbs, f, limit, cursor, pages, j, e);
    if |pages| > 1 {
      var last := pages[0][limit - 1];
      NextCursorIsWithin(dbs[0], f, limit, cursor, pages[0]);
      assert e in pages[0] ==> e.receivedAt >= last.receivedAt;
      if j > 0 && k > 0 {
        ListingNeverRepeats(dbs[1..], f, limit, Some(Recent(last.receivedAt)), pages[1..], j - 1, k - 1, e);
      } else if j > 0 {
        LaterPagesAreOlder(dbs[1..], f, limit, Some(Recent(last.receivedAt)), pages[1..], j - 1, e);
      } else if k > 0 && e in pages[k] {
        LaterPagesAreOlder(dbs[1..], f, limit, Some(Recent(last.receivedAt)), pages[1..], k - 1, e);
      }
    }
  }

  /**
   Of the matching events there at the start, the pages leave out exactly those tied out at a page boundary, whatever is
   inserted meanwhile.
   */
  lemma {:induction false} ListingOmitsExactlyTies(
    dbs: seq<set<Event>>, f: Filters, limit: nat, cursor: Option<Cursor>, pages: seq<seq<Event>>, e: Event)
    requires limit > 0 && WithinFilters(f, cursor) && ListChain(dbs, f, limit, cursor, pages)
    requires Growing(dbs) && e in dbs[0] && Holds(ToQuery(f), e) && OlderThan(cursor, e)
    ensures OnSomePage(pages, e) <==> !TiedOut(pages, limit, e)
    decreases |pages|
  {
    hide Holds, ToQuery, PageCondition, IsPage, WithinFilters;
    PageFacts(dbs[0], f, limit, cursor, pages[0], e);
    if |pages| > 1 {
      var rest, next := pages[1..], Some(Recent(pages[0][limit - 1].receivedAt));
      NextCursorIsWithin(dbs[0], f, limit, cursor, pages[0]);
      assert forall k :: 0 < k < |pages| ==> pages[k] == rest[k - 1];
      assert OnSomePage(pages, e) <==> e in pages[0] || OnSomePage(rest, e);
      assert TiedOut(pages, limit, e) <==> CutOff(pages[0], limit, e) || TiedOut(rest, limit, e);
      if OlderThan(next, e) {
        ListingOmitsExactlyTies(dbs[1..], f, limit, next, rest, e);
        NotAboveTheCursor(pages[0], limit, e);
      } else {
        NothingNewerLater(dbs[1..], f, limit, next, rest, e);
      }
    }
  }

  lemma NotAboveTheCursor(page: seq<Event>, limit: nat, e: Event)
    requires limit > 0 && |page| == limit && NewestFirst(page) && e.receivedAt < page[limit - 1].receivedAt
    ensures e !in page && !CutOff(page, limit, e)
  {
  }

  lemma {:induction false} NothingNewerLater(
    dbs: seq<set<Event>>, f: Filters, limit: nat, cursor: Option<Cursor>, pages: seq<seq<Event>>, e: Event)
    requires limit > 0 && WithinFilters(f, cursor) && ListChain(dbs, f, limit, cursor, pages)
    requires !OlderThan(cursor, e)
    ensures !OnSomePage(pages, e) && !TiedOut(pages, limit, e)
  {
    hide Holds, ToQuery, PageCondition, IsPage, WithinFilters, ListChain;
    forall k | 0 <= k < |pages| ensures e !in pages[k] && !CutOff(pages[k], limit, e) {
      if e in pages[k] {
        LaterPagesAreOlder(dbs, f, limit, cursor, pages, k, e);
      }
      if |pages[k]| == limit {
        LaterPagesAreOlder(dbs, f, limit, cursor, pages, k, pages[k][limit - 1]);
      }
    }
  }

  /** With no two matching events at the same time, the pages hold all that was there at the start, and only matches. */
  lemma DistinctTimesListEverything(
    dbs: seq<set<Event>>, f: Filters, limit: nat, pages: seq<seq<Event>>, e: Event)
    requires limit > 0 && Growing(dbs) && ListChain(dbs, f, limit, None, pages)
    requires var last := dbs[|dbs| - 1];
             forall a, b :: a in last && b in last && Holds(ToQuery(f), a) && Holds(ToQuery(f), b) ==>
               a.receivedAt == b.receivedAt ==> a == b
    ensures e in dbs[0] && Holds(ToQuery(f), e) ==> OnSomePage(pages, e)
    ensures OnSomePage(pages, e) ==> e in dbs[|dbs| - 1] && Holds(ToQuery(f), e)
  {
    if e in dbs[0] && Holds(ToQuery(f), e) {
      ListingOmitsExactlyTies(dbs, f, limit, None, pages, e);
      forall k | 0 <= k < |pages| && |pages[k]| == limit
        ensures pages[k][limit - 1] in dbs[|dbs| - 1] && Holds(ToQuery(f), pages[k][limit - 1])
      {
        LaterPagesAreOlder(dbs, f, limit, None, pages, k, pages[k][limit - 1]);
      }
    }
    if OnSomePage(pages, e) {
      var k :| 0 <= k < |pages| && e in pages[k];
      LaterPagesAreOlder(dbs, f, limit, None, pages, k, e);
    }
  }

  // ---- when nothing is left out ----

  /** No multiple of the page size falls between two events of one time. */
  predicate Unsplit(all: seq<Event>, limit: nat)
    requires limit > 0
    decreases |all|
  {
    |all| <= limit || (all[limit - 1].receivedAt != all[limit].receivedAt && Unsplit(all[limit..], limit))
  }

  ghost predicate SameTimes(a: seq<Event>, b: seq<Event>) {
    |a| == |b| && forall i :: 0 <= i < |a| ==> a[i].receivedAt == b[i].receivedAt
  }

  function Without(a: seq<Event>, i: nat): (b: seq<Event>)
    requires i < |a|
    ensures |b| == |a| - 1 && forall k :: 0 <= k < |b| ==> b[k] == a[if k < i then k else k + 1]
  {
    a[..i] + a[i + 1..]
  }

  lemma RemoveOne(a: seq<Event>, i: nat)
    requires i < |a| && NewestFirst(a) && NoneTwice(a)
    ensures NewestFirst(Without(a, i)) && NoneTwice(Without(a, i))
    ensures forall e :: e in Without(a, i) <==> e in a && e != a[i]
  {
    forall e | e in a && e != a[i] ensures e in Without(a, i) {
      var k :| 0 <= k < |a| && a[k] == e;
      assert Without(a, i)[if k < i then k else k - 1] == e;
    }
  }

  lemma PutBack(a: seq<Event>, b: seq<Event>, i: nat)
    requires a != [] && NewestFirst(a) && NewestFirst(b) && i < |b| && b[i] == a[0]
    requires forall e :: e in b ==> e in a
    requires SameTimes(Without(a, 0), Without(b, i))
    ensures SameTimes(a, b)
  {
    forall k | 0 <= k <= i ensures b[k].receivedAt == a[0].receivedAt {
      assert b[k] in a;
    }
    forall k | 0 < k < |a| ensures a[k].receivedAt == b[k].receivedAt {
      assert Without(a, 0)[k - 1] == a[k];
      assert Without(b, i)[k - 1].receivedAt == b[k].receivedAt;
    }
  }

  /** However the database orders ties, every listing of the same events has the same times in the same places. */
  lemma {:induction false} ListingsAgreeOnTimes(a: seq<Event>, b: seq<Event>)
    requires NewestFirst(a) && NoneTwice(a) && NewestFirst(b) && NoneTwice(b)
    requires forall e :: e in a <==> e in b
    ensures SameTimes(a, b)
    decreases |a|
  {
    hide NewestFirst, NoneTwice, Without;
    assert a != [] ==> a[0] in b;
    assert b != [] ==> b[0] in a;
    if a != [] {
      var i :| 0 <= i < |b| && b[i] == a[0];
      RemoveOne(a, 0);
      RemoveOne(b, i);
      ListingsAgreeOnTimes(Without(a, 0), Without(b, i));
      PutBack(a, b, i);
    }
  }

  lemma {:induction false} UnsplitIsAboutTimes(a: seq<Event>, b: seq<Event>, limit: nat)
    requires limit > 0 && SameTimes(a, b)
    ensures Unsplit(a, limit) <==> Unsplit(b, limit)
    decreases |a|
  {
    if |a| > limit {
      UnsplitIsAboutTimes(a[limit..], b[limit..], limit);
    }
  }

  /** When the end of a full page is no tie, the next page starts on exactly the rest of the listing. */
  lemma RestIsTheNextListing(db: set<Event>, f: Filters, limit: nat, cursor: Option<Cursor>, all: seq<Event>)
    requires limit > 0 && WithinFilters(f, cursor) && IsListing(db, PageCondition(f, cursor), all)
    requires |all| > limit && all[limit - 1].receivedAt != all[limit].receivedAt
    requires var next := Some(Recent(all[limit - 1].receivedAt));
             WithinFilters(f, next) && forall e: Event :: OlderThan(next, e) ==> OlderThan(cursor, e)
    ensures IsListing(db, PageCondition(f, Some(Recent(all[limit - 1].receivedAt))), all[limit..])
  {
    hide Holds, ToQuery, PageCondition, WithinFilters;
    var next, rest := Some(Recent(all[limit - 1].receivedAt)), all[limit..];
    forall e ensures e in rest <==> e in db && Holds(PageCondition(f, next), e) {
      CursorNarrowsTheFilters(f, cursor, e);
      CursorNarrowsTheFilters(f, next, e);
      if e in all {
        var k :| 0 <= k < |all| && all[k] == e;
        assert k >= limit ==> rest[k - limit] == e;
      }
    }
  }

  /** Below the cursor every load sees the events of `db`. */
  ghost predicate StaysBelow(dbs: seq<set<Event>>, db: set<Event>, cursor: Option<Cursor>) {
    forall k, e :: 0 <= k < |dbs| && OlderThan(cursor, e) ==> (e in dbs[k] <==> e in db)
  }

  /** The first page is one of `db`, and so is the collection as far as the later pages can see. */
  ghost predicate Steady(
    dbs: seq<set<Event>>, db: set<Event>, f: Filters, limit: nat, cursor: Option<Cursor>, pages: seq<seq<Event>>)
    requires limit > 0 && |dbs| == |pages| > 0
  {
    && IsPage(db, PageCondition(f, cursor), limit, pages[0])
    && (|pages[0]| == limit ==> StaysBelow(dbs[1..], db, Some(Recent(pages[0][limit - 1].receivedAt))))
  }

  /** Inserts at or above the cursor do not show on the pages below it. */
  lemma StaysSteady(
    dbs: seq<set<Event>>, db: set<Event>, f: Filters, limit: nat, cursor: Option<Cursor>, pages: seq<seq<Event>>)
    requires limit > 0 && WithinFilters(f, cursor) && ListChain(dbs, f, limit, cursor, pages)
    requires StaysBelow(dbs, db, cursor)
    ensures Steady(dbs, db, f, limit, cursor, pages)
  {
    hide Holds, ToQuery, PageCondition, WithinFilters;
    var all :| IsListing(dbs[0], PageCondition(f, cursor), all) && pages[0] == all[..Min(limit, |all|)];
    forall e ensures e in all <==> e in db && Holds(PageCondition(f, cursor), e) {
      CursorNarrowsTheFilters(f, cursor, e);
    }
    assert IsListing(db, PageCondition(f, cursor), all);
    if |pages[0]| == limit {
      NextCursorIsWithin(dbs[0], f, limit, cursor, pages[0]);
      assert forall k :: 0 <= k < |dbs[1..]| ==> dbs[1..][k] == dbs[k + 1];
    }
  }

  lemma {:induction false} SteadyListingIsCompleteIff(
    dbs: seq<set<Event>>, db: set<Event>, f: Filters, limit: nat, cursor: Option<Cursor>, pages: seq<seq<Event>>,
    all: seq<Event>)
    requires limit > 0 && WithinFilters(f, cursor) && ListChain(dbs, f, limit, cursor, pages)
    requires Steady(dbs, db, f, limit, cursor, pages) && IsListing(db, PageCondition(f, cursor), all)
    ensures (forall e :: e in all ==> OnSomePage(pages, e)) <==> Unsplit(all, limit)
    decreases |pages|, 1
  {
    hide Holds, ToQuery, PageCondition, WithinFilters, Unsplit;
    var listed :| IsListing(db, PageCondition(f, cursor), listed) && pages[0] == listed[..Min(limit, |listed|)];
    ListingsAgreeOnTimes(all, listed);
    UnsplitIsAboutTimes(all, listed, limit);
    assert forall e :: e in all <==> e in listed;
    ListedIsCompleteIff(dbs, db, f, limit, cursor, pages, listed);
  }

  lemma {:induction false} ListedIsCompleteIff(
    dbs: seq<set<Event>>, db: set<Event>, f: Filters, limit: nat, cursor: Option<Cursor>, pages: seq<seq<Event>>,
    all: seq<Event>)
    requires limit > 0 && WithinFilters(f, cursor) && ListChain(dbs, f, limit, cursor, pages)
    requires Steady(dbs, db, f, limit, cursor, pages)
    requires IsListing(db, PageCondition(f, cursor), all) && pages[0] == all[..Min(limit, |all|)]
    ensures (forall e :: e in all ==> OnSomePage(pages, e)) <==> Unsplit(all, limit)
    decreases |pages|, 0
  {
    hide Holds, ToQuery, PageCondition, WithinFilters, StaysBelow;
    if |all| <= limit {
      assert all == pages[0];
    } else {
      var later, rest, next := dbs[1..], pages[1..], Some(Recent(all[limit - 1].receivedAt));
      NextCursorIsWithin(db, f, limit, cursor, pages[0]);
      assert forall e :: OnSomePage(pages, e) <==> e in pages[0] || OnSomePage(rest, e);
      if all[limit].receivedAt == all[limit - 1].receivedAt {
        NothingNewerLater(later, f, limit, next, rest, all[limit]);
        assert all[limit] in all && all[limit] !in pages[0];
      } else {
        RestIsTheNextListing(db, f, limit, cursor, all);
        StaysSteady(later, db, f, limit, next, rest);
        SteadyListingIsCompleteIff(later, db, f, limit, next, rest, all[limit..]);
        assert all == pages[0] + all[limit..];
      }
    }
  }

  /** What arrives while the pages are loaded was received no earlier than anything there at the start. */
  ghost predicate ArrivalsAreNewer(dbs: seq<set<Event>>) {
    forall k, e, first :: 0 < k < |dbs| && e in dbs[k] && e !in dbs[0] && first in dbs[0] ==>
      first.receivedAt <= e.receivedAt
  }

  /**
   While webhooks arrive, the pages hold every matching event there at the start exactly when no page boundary of the
   list at the start falls inside a tie. The list may be any newest-first order of those events: they all agree on that.
   */
  lemma ListingIsCompleteIff(
    dbs: seq<set<Event>>, f: Filters, limit: nat, pages: seq<seq<Event>>, all: seq<Event>)
    requires limit > 0 && Growing(dbs) && ArrivalsAreNewer(dbs) && ListChain(dbs, f, limit, None, pages)
    requires IsListing(dbs[0], ToQuery(f), all)
    ensures (forall e :: e in all ==> OnSomePage(pages, e)) <==> Unsplit(all, limit)
  {
    hide Holds, ToQuery, IsPage, Unsplit, IsListing;
    if |pages[0]| == limit {
      PageFacts(dbs[0], f, limit, None, pages[0], pages[0][limit - 1]);
      assert forall k :: 0 <= k < |dbs[1..]| ==> dbs[1..][k] == dbs[k + 1];
      assert StaysBelow(dbs[1..], dbs[0], Some(Recent(pages[0][limit - 1].receivedAt)));
    }
    SteadyListingIsCompleteIff(dbs, dbs[0], f, limit, None, pages, all);
  }

  /** Two events of the same time and a page of one: the second is on no page. */
  lemma TiesCanBeLost(a: Event, b: Event, f: Filters)
    requires a != b && a.receivedAt == b.receivedAt && Holds(ToQuery(f), a) && Holds(ToQuery(f), b)
    ensures ListChain([{a, b}, {a, b}], f, 1, None, [[a], []]) && !OnSomePage([[a], []], b)
  {
    assert IsListing({a, b}, PageCondition(f, None), [a, b]) && [a] == [a, b][..1];
    var next := Some(Recent(a.receivedAt));
    NextCursorIsWithin({a, b}, f, 1, None, [a]);
    forall e | e in {a, b} ensures !Holds(PageCondition(f, next), e) {
      CursorNarrowsTheFilters(f, next, e);
    }
    var none: seq<Event> := [];
    assert IsListing({a, b}, PageCondition(f, next), none) && none == none[..0];
    assert [[a], []][1..] == [[]] && [{a, b}, {a, b}][1..] == [{a, b}];
    assert ListChain([{a, b}], f, 1, next, [[]]);
  }
}
