/**
 Stored events: what ingest writes (app/ingest/receiver.py) and the rebuild of their search terms
 (app/search/tokenize.py and app/search/backfill.py).
 */
module Events {
  import opened Prelude
  import opened Body
  import opened Tokenize
  import opened Lookalikes

  /** A stored event. `body` has escaped keys; `search` is missing on events older than the field. */
  datatype Event = Event(
    id: nat, receivedAt: int, endpointId: nat, endpointName: string, eventType: Option<string>, status: string,
    method_: string, headers: seq<Field>, query: seq<Field>, body: Body, search: Option<Terms>)

  /** An accepted request, with what the server gives it. */
  datatype Arrival = Arrival(id: nat, receivedAt: int, endpointId: nat, method_: string, request: Source)

  function Ingest(a: Arrival): Event {
    var r := a.request;
    Event(a.id, a.receivedAt, a.endpointId, r.endpointName, r.eventType, "received", a.method_, r.headers, r.query,
          EscapeKeys(r.body), Some(Build(r)))
  }

  /** The collection once these requests have been received. */
  function Received(arrivals: seq<Arrival>): map<nat, Event> {
    if arrivals == [] then map[]
    else
      var last := arrivals[|arrivals| - 1];
      Received(arrivals[..|arrivals| - 1])[last.id := Ingest(last)]
  }

  /** The request as a stored event gives it back. */
  function Restored(e: Event): Source {
    Source(e.endpointName, e.eventType, e.headers, e.query, UnescapeKeys(e.body))
  }

  function BuildFromEvent(e: Event): Terms {
    Build(Restored(e))
  }

  /** What ingest leaves on an event of `request`, whatever else of the event has changed since. */
  predicate StoredFrom(e: Event, request: Source) {
    && e.endpointName == request.endpointName && e.eventType == request.eventType
    && e.headers == request.headers && e.query == request.query
    && e.body == EscapeKeys(request.body) && e.search == Some(Build(request))
  }

  /** No key that is indexed holds a lookalike in its way; under a sensitive key anything goes. */
  ghost predicate CleanWhereIndexed(request: Source) {
    AllKeys(PublicBody(request.body), CleanKey)
  }

  /** What the rebuild indexes is what ingest indexed exactly when the indexed keys are clean. */
  lemma RestoredStringsIffClean(e: Event, request: Source)
    requires StoredFrom(e, request) && WellFormed(request.body)
    ensures SourceStrings(Restored(e)) == SourceStrings(request) <==> CleanWhereIndexed(request)
  {
    hide Collected, EscapeKeys, UnescapeKeys, Build, FieldStrings, AllKeys, PublicBody;
    IndexedStringsSurviveIff(request.body);
    var before := SourceStrings(request.(body := Null));
    assert Collected(Null) == [] by {
      NullHasNoStrings();
    }
    assert SourceStrings(request) == before + Collected(request.body);
    assert SourceStrings(Restored(e)) == before + Collected(Reread(request.body));
    SameAfter(before, Collected(request.body), Collected(Reread(request.body)));
  }

  lemma NullHasNoStrings()
    ensures Collected(Null) == []
  {
  }

  lemma SameAfter(before: seq<string>, a: seq<string>, b: seq<string>)
    ensures before + a == before + b <==> a == b
  {
    assert (before + a)[|before|..] == a && (before + b)[|before|..] == b;
  }

  /** Then the terms it recomputes are those that ingest wrote. */
  lemma RebuildAgreesWithIngest(e: Event, request: Source)
    requires StoredFrom(e, request) && WellFormed(request.body) && CleanWhereIndexed(request)
    ensures e.search == Some(BuildFromEvent(e))
  {
    RestoredStringsIffClean(e, request);
  }

  /** A request whose body has one key and no value. */
  function OneKey(name: string, key: string): Source {
    Source(name, None, [], [], Dict([Pair(key, Null)]))
  }

  lemma LookalikeTurnsIntoADot(a: string, b: string)
    requires a != [] && AllAlnum(a) && AllAlnum(b)
    ensures UnescapeKeys(EscapeKeys(Dict([Pair(a + [DOT] + b, Null)]))) == Dict([Pair(a + ['.'] + b, Null)])
  {
    var key, dotted := a + [DOT] + b, a + ['.'] + b;
    ReplacedAt(key, '.', DOT);
    ReplacedAt(key, DOT, '.');
    assert Alnum(key[0]) && forall i :: 0 <= i < |key| ==> Alnum(key[i]) || i == |a|;
    assert Replace(key, '.', DOT) == key && Replace(key, DOT, '.') == dotted;
    assert EscapeKey(key) == key && UnescapeKey(key) == dotted;
    hide EscapeKey, UnescapeKey;
    assert EscapePairs([Pair(key, Null)]) == [Pair(key, Null)];
    assert UnescapePairs([Pair(key, Null)]) == [Pair(dotted, Null)];
    assert Collapse([Pair(key, Null)]) == [Pair(key, Null)];
    assert Collapse([Pair(dotted, Null)]) == [Pair(dotted, Null)];
  }

  lemma TokensOfOneKey(name: string, key: string)
    requires |TokensOf(name)| + |TokensOf(key)| <= TOKEN_LIMIT
    ensures forall token :: token in Build(OneKey(name, key)).tokens <==>
              token in TokensOf(name) || (!Sensitive(key) && token in TokensOf(key))
  {
    hide TokensOf, Sensitive;
    var strings := SourceStrings(OneKey(name, key));
    assert CollectedPairs([Pair(key, Null)]) == if Sensitive(key) then [] else [key];
    assert strings == if Sensitive(key) then [name] else [name, key];
    assert AllTokens([key]) == TokensOf(key);
    assert AllTokens([name]) == TokensOf(name);
    assert AllTokens([name, key]) == TokensOf(name) + TokensOf(key);
    DistinctIsNoLonger(AllTokens(strings));
    FirstDistinctKeepsAll(AllTokens(strings), TOKEN_LIMIT);
  }

  /**
   Why the indexed keys must be clean: the sender's own lookalike in a key comes back from storage as a dot, so the
   rebuild loses a token that ingest stored.
   */
  lemma RebuildCanDiffer(e: Event, name: string, a: string, b: string)
    requires name != [] && AllAlnum(name) && a != [] && AllAlnum(a) && b != [] && AllAlnum(b)
    requires |name| <= MAX_TOKEN_LENGTH && |a + [DOT] + b| <= MAX_TOKEN_LENGTH && !Sensitive(a + [DOT] + b)
    requires StoredFrom(e, OneKey(name, a + [DOT] + b))
    ensures a + [DOT] + b in e.search.value.tokens && a + [DOT] + b !in BuildFromEvent(e).tokens
  {
    var key, dotted := a + [DOT] + b, a + ['.'] + b;
    LookalikeTurnsIntoADot(a, b);
    assert BuildFromEvent(e) == Build(OneKey(name, dotted));
    KeyTokens(name, a, b);
    hide *;
    TokensOfOneKey(name, key);
    TokensOfOneKey(name, dotted);
  }

  lemma KeyTokens(name: string, a: string, b: string)
    requires name != [] && AllAlnum(name) && a != [] && AllAlnum(a) && b != [] && AllAlnum(b)
    requires |name| <= MAX_TOKEN_LENGTH && |a + [DOT] + b| <= MAX_TOKEN_LENGTH
    ensures var key, dotted := a + [DOT] + b, a + ['.'] + b;
            && |TokensOf(name)| + |TokensOf(key)| <= TOKEN_LIMIT && |TokensOf(name)| + |TokensOf(dotted)| <= TOKEN_LIMIT
            && key in TokensOf(key) && key !in TokensOf(name) && key !in TokensOf(dotted)
  {
    var key, dotted := a + [DOT] + b, a + ['.'] + b;
    TwoWordsAreThreeTokens(a, DOT, b);
    TwoWordsAreThreeTokens(a, '.', b);
    PlainWordIsOneToken(name);
    assert key[|a|] == DOT && dotted[|a|] == '.';
    hide TokensOf;
    HoldsASeparator(key, |a|);
    assert TokensOf(dotted) == [a, b, dotted] && TokensOf(name) == [name];
  }

  lemma HoldsASeparator(s: string, i: nat)
    requires i < |s| && !Alnum(s[i])
    ensures !AllAlnum(s)
  {
  }

  // ---- backfill ----

  const BATCH_SIZE: nat := 500

  datatype Update = Update(id: nat, terms: Terms)

  predicate Selected(e: Event, rebuild: bool) {
    rebuild || e.search.None?
  }

  function Rewritten(e: Event): Event {
    e.(search := Some(BuildFromEvent(e)))
  }

  /** The collection once the events in `done` are rewritten. */
  function RewrittenIn(docs: map<nat, Event>, done: set<nat>): map<nat, Event> {
    map id | id in docs :: if id in done then Rewritten(docs[id]) else docs[id]
  }

  function SelectedIds(docs: map<nat, Event>, rebuild: bool): (ids: set<nat>)
    ensures ids <= docs.Keys
  {
    set id | id in docs && Selected(docs[id], rebuild)
  }

  function Written(docs: map<nat, Event>, operations: seq<Update>): map<nat, Event> {
    if operations == [] then docs
    else
      var before, last := Written(docs, operations[..|operations| - 1]), operations[|operations| - 1];
      if last.id in before then before[last.id := before[last.id].(search := Some(last.terms))] else before
  }

  class EventCollection {
    var docs: map<nat, Event>

    method BulkWrite(operations: seq<Update>)
      modifies this
      ensures docs == Written(old(docs), operations)
    {
      for i := 0 to |operations|
        invariant docs == Written(old(docs), operations[..i])
      {
        assert operations[..i + 1][..i] == operations[..i];
        var op := operations[i];
        if op.id in docs {
          docs := docs[op.id := docs[op.id].(search := Some(op.terms))];
        }
      }
      assert operations[..|operations|] == operations;
    }

    /** The cursor may visit the selected events in any order. */
    method Backfill(rebuild: bool) returns (updated: nat)
      modifies this
      ensures docs == RewrittenIn(old(docs), SelectedIds(old(docs), rebuild))
      ensures updated == |SelectedIds(old(docs), rebuild)|
      ensures docs.Keys == old(docs).Keys
      ensures forall id :: id in docs ==>
                && docs[id] == old(docs)[id].(search := docs[id].search)
                && docs[id].search == if rebuild || old(docs)[id].search.None? then Some(BuildFromEvent(old(docs)[id]))
                                      else old(docs)[id].search
      ensures updated == if rebuild then |old(docs)| else |set id | id in old(docs) && old(docs)[id].search.None?|
    {
      hide Rewritten, BuildFromEvent, SelectedIds;
      var selected := SelectedIds(docs, rebuild);
      ghost var flushed: set<nat> := {};
      var pending, operations: seq<Update> := selected, [];
      updated := 0;
      while pending != {}
        invariant pending <= selected && |operations| < BATCH_SIZE
        invariant updated + |operations| + |pending| == |selected|
        invariant flushed !! pending && docs == RewrittenIn(old(docs), flushed)
        invariant Written(docs, operations) == RewrittenIn(old(docs), selected - pending)
        decreases pending
      {
        var id :| id in pending;
        pending := pending - {id};
        WriteOneMore(old(docs), docs, operations, selected - pending - {id}, id);
        operations := operations + [Update(id, BuildFromEvent(docs[id]))];
        assert selected - pending == selected - pending - {id} + {id};
        if |operations| >= BATCH_SIZE {
          BulkWrite(operations);
          updated := updated + |operations|;
          operations := [];
          flushed := selected - pending;
        }
      }
      if operations != [] {
        BulkWrite(operations);
        updated := updated + |operations|;
      }
      BackfilledIs(old(docs), rebuild);
    }
  }

  /** A rebuild rewrites every document and a plain backfill those without terms; nothing else of them changes. */
  lemma BackfilledIs(docs: map<nat, Event>, rebuild: bool)
    ensures var ids, after := SelectedIds(docs, rebuild), RewrittenIn(docs, SelectedIds(docs, rebuild));
            && after.Keys == docs.Keys
            && (forall id :: id in after ==>
                  && after[id] == docs[id].(search := after[id].search)
                  && after[id].search == if rebuild || docs[id].search.None? then Some(BuildFromEvent(docs[id]))
                                         else docs[id].search)
            && |ids| == if rebuild then |docs| else |set id | id in docs && docs[id].search.None?|
  {
    hide BuildFromEvent;
    var ids := SelectedIds(docs, rebuild);
    if rebuild {
      assert ids == docs.Keys;
    } else {
      assert ids == set id | id in docs && docs[id].search.None?;
    }
  }

  lemma WriteOneMore(start: map<nat, Event>, docs: map<nat, Event>, operations: seq<Update>, done: set<nat>, id: nat)
    requires Written(docs, operations) == RewrittenIn(start, done)
    requires id in start && id !in done && id in docs && docs[id] == start[id]
    ensures Written(docs, operations + [Update(id, BuildFromEvent(docs[id]))]) == RewrittenIn(start, done + {id})
  {
    var more := operations + [Update(id, BuildFromEvent(docs[id]))];
    assert more[..|operations|] == operations;
  }

  /** Each stored document is what ingest wrote for the last request received under its identifier. */
  lemma {:induction false} EachWasReceived(arrivals: seq<Arrival>, id: nat) returns (a: Arrival)
    requires id in Received(arrivals)
    ensures a in arrivals && Received(arrivals)[id] == Ingest(a) && StoredFrom(Ingest(a), a.request)
    ensures var e := Received(arrivals)[id];
            && e.id == a.id == id && e.receivedAt == a.receivedAt && e.endpointId == a.endpointId
            && e.method_ == a.method_ && e.status == "received"
  {
    a := arrivals[|arrivals| - 1];
    if a.id != id {
      a := EachWasReceived(arrivals[..|arrivals| - 1], id);
    }
  }

  /** A full rebuild of events whose indexed keys were clean, whatever else changed since, changes no document. */
  lemma RebuildChangesNothing(docs: map<nat, Event>, requests: map<nat, Source>)
    requires docs.Keys <= requests.Keys
    requires forall id :: id in docs ==>
               && StoredFrom(docs[id], requests[id])
               && WellFormed(requests[id].body) && CleanWhereIndexed(requests[id])
    ensures RewrittenIn(docs, SelectedIds(docs, true)) == docs
  {
    hide Build, BuildFromEvent, EscapeKeys, CleanWhereIndexed;
    forall id | id in docs ensures Rewritten(docs[id]) == docs[id] {
      RebuildAgreesWithIngest(docs[id], requests[id]);
    }
  }

  /** A collection filled by ingest needs no backfill, and no rebuild if every indexed key is clean. */
  lemma ReceivedNeedsNoBackfill(arrivals: seq<Arrival>)
    ensures SelectedIds(Received(arrivals), false) == {}
    ensures (forall a :: a in arrivals ==> WellFormed(a.request.body) && CleanWhereIndexed(a.request)) ==>
              RewrittenIn(Received(arrivals), SelectedIds(Received(arrivals), true)) == Received(arrivals)
  {
    hide Build, BuildFromEvent, EscapeKeys, CleanWhereIndexed, Received;
    var docs := Received(arrivals);
    forall id | id in docs
      ensures docs[id].search.Some?
      ensures (forall a :: a in arrivals ==> WellFormed(a.request.body) && CleanWhereIndexed(a.request)) ==>
                Rewritten(docs[id]) == docs[id]
    {
      var a := EachWasReceived(arrivals, id);
      if WellFormed(a.request.body) && CleanWhereIndexed(a.request) {
        RebuildAgreesWithIngest(docs[id], a.request);
      }
    }
  }

  /** Run twice, a backfill finds nothing left to do and a rebuild recomputes the same terms. */
  lemma BackfillIsIdempotent(docs: map<nat, Event>, rebuild: bool)
    ensures var once := RewrittenIn(docs, SelectedIds(docs, rebuild));
            && RewrittenIn(once, SelectedIds(once, rebuild)) == once
            && (!rebuild ==> SelectedIds(once, rebuild) == {})
  {
  }
}
