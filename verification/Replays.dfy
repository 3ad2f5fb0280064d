/**
 The replay queue: the outcome rules of app/replay/runner.py, the stored documents of app/replay/store.py and the steps
 of app/replay/worker.py. A replay's identifier is its place in the order of insertion. Times and delays are all in
 milliseconds.
 */
module Replays {
  import opened Prelude

  // ---- the outcome of one request ----

  datatype Attempt = Attempt(
    statusCode: Option<int>, headers: map<string, string>, body: string, truncated: bool, durationMs: int,
    error: Option<string>, retryable: bool)

  const RETRYABLE_STATUS: set<int> := {429, 500, 502, 503, 504, 507, 508, 509}

  predicate Succeeded(a: Attempt) {
    a.error.None? && a.statusCode.Some? && a.statusCode.value < 400
  }

  /** How a request can end: what the network and the destination check decide. */
  datatype Ending =
    | Answered(status: int, headers: map<string, string>, body: string, truncated: bool)
    | Refused(reason: string)
    | TimedOut(reason: string)
    | Failed(reason: string)

  function Execute(ending: Ending, elapsed: int): Attempt {
    match ending
    case Answered(status, headers, body, truncated) =>
      Attempt(Some(status), headers, body, truncated, elapsed, None, status in RETRYABLE_STATUS)
    case Refused(reason) => Attempt(None, map[], "", false, elapsed, Some(reason), false)
    case TimedOut(reason) => Attempt(None, map[], "", false, elapsed, Some(reason), true)
    case Failed(reason) => Attempt(None, map[], "", false, elapsed, Some(reason), true)
  }

  predicate RetriedStatus(status: int) {
    status == 429 || (500 <= status <= 509 && status != 501 && status != 505 && status != 506)
  }

  /**
   Each ending is a success, a retryable failure or a final failure, never two of them. A status is retried only if it
   is listed: 429 is, and of the 5xx range 501, 505, 506 and 510 to 599 are not. An answer is recorded as it came; any
   other ending leaves its reason and nothing of an answer.
   */
  lemma EndingsAreClassified(ending: Ending, elapsed: int)
    ensures var a := Execute(ending, elapsed);
            && !(Succeeded(a) && a.retryable)
            && (Succeeded(a) <==> ending.Answered? && ending.status < 400)
            && (a.retryable <==>
                  ending.TimedOut? || ending.Failed? || (ending.Answered? && RetriedStatus(ending.status)))
            && a.durationMs == elapsed
            && (if ending.Answered?
                then a.error == None && a.statusCode == Some(ending.status) && a.headers == ending.headers
                     && a.body == ending.body && a.truncated == ending.truncated
                else a.error == Some(ending.reason) && a.statusCode == None && a.headers == map[] && a.body == ""
                     && !a.truncated)
  {
  }

  // ---- stored documents ----

  datatype Status = Pending | Running | Success | Failure

  datatype Response = Response(statusCode: int, headers: map<string, string>, body: string, truncated: bool)

  datatype Replay = Replay(
    eventId: nat, destination: string, method_: string, headers: map<string, string>,
    state: Status, attempt: nat, maxAttempts: int, nextAttemptAt: int, createdAt: int,
    leasedAt: Option<int>, startedAt: Option<int>, completedAt: Option<int>,
    durationMs: Option<int>, response: Option<Response>, error: Option<string>)

  datatype Request = Request(eventId: nat, destination: string, method_: string, headers: map<string, string>)

  datatype Config = Config(maxRetries: int, retryDelay: int, leaseTimeout: int)

  predicate Terminal(r: Replay) {
    r.state == Success || r.state == Failure
  }

  function NewReplay(request: Request, c: Config, now: int): Replay {
    Replay(request.eventId, request.destination, request.method_, request.headers,
           Pending, 0, c.maxRetries + 1, now, now, None, None, None, None, None, None)
  }

  predicate LeaseExpired(r: Replay, c: Config, now: int) {
    r.state == Running && r.leasedAt.Some? && r.leasedAt.value < now - c.leaseTimeout
  }

  function Reclaim(r: Replay, c: Config, now: int): Replay {
    if LeaseExpired(r, c, now) then r.(state := Pending) else r
  }

  predicate Due(r: Replay, now: int) {
    r.state == Pending && r.nextAttemptAt <= now
  }

  function Leased(r: Replay, now: int): Replay {
    r.(state := Running, leasedAt := Some(now), startedAt := Some(now), attempt := r.attempt + 1)
  }

  function Power2(n: nat): nat {
    if n == 0 then 1 else 2 * Power2(n - 1)
  }

  /** Where a finished attempt sends its replay, judged by the worker's own copy of it. */
  datatype Verdict = Done | Retry(at: int) | GiveUp

  function Judge(snapshot: Replay, a: Attempt, c: Config, now: int): Verdict {
    if Succeeded(a) then Done
    else if a.retryable && snapshot.attempt < snapshot.maxAttempts then
      Retry(now + c.retryDelay * Power2(Max(0, snapshot.attempt - 1)))
    else GiveUp
  }

  /** How an attempt ends for its replay; `Dropped` is the write of `abandon`. */
  datatype Kind = Succeeds | Retried | Exhausted | Permanent | Dropped

  function KindOf(snapshot: Replay, a: Attempt): Kind {
    if Succeeded(a) then Succeeds
    else if !a.retryable then Permanent
    else if snapshot.attempt < snapshot.maxAttempts then Retried
    else Exhausted
  }

  function StateOf(kind: Kind): Status {
    match kind
    case Succeeds => Success
    case Retried => Pending
    case _ => Failure
  }

  /** The first retry waits the configured delay, and each further one twice as long as the one before. */
  lemma BackoffDoubles(first: Replay, later: Replay, next: Replay, a: Attempt, c: Config, now: int)
    requires first.attempt == 1 && later.attempt >= 1 && next.attempt == later.attempt + 1
    requires Judge(first, a, c, now).Retry? && Judge(later, a, c, now).Retry? && Judge(next, a, c, now).Retry?
    ensures Judge(first, a, c, now).at == now + c.retryDelay
    ensures Judge(next, a, c, now).at - now == 2 * (Judge(later, a, c, now).at - now)
  {
    assert Power2(next.attempt - 1) == 2 * Power2(later.attempt - 1);
  }

  /** The document after `finish`: the write names it by identifier and looks at nothing else stored in it. */
  function Finished(r: Replay, snapshot: Replay, a: Attempt, c: Config, now: int): Replay {
    var written := r.(
      durationMs := Some(a.durationMs), error := a.error,
      response :=
        if a.statusCode.Some? then Some(Response(a.statusCode.value, a.headers, a.body, a.truncated)) else None);
    match Judge(snapshot, a, c, now)
    case Done => written.(state := Success, completedAt := Some(now))
    case Retry(at) => written.(state := Pending, nextAttemptAt := at)
    case GiveUp => written.(state := Failure, completedAt := Some(now))
  }

  function Abandoned(r: Replay, reason: string, now: int): Replay {
    r.(state := Failure, error := Some(reason), completedAt := Some(now))
  }

  // ---- the collection on values ----

  type Docs = seq<Replay>

  const EVENT_GONE := "The event no longer exists"

  function ReclaimAll(docs: Docs, c: Config, now: int): (after: Docs)
    ensures |after| == |docs| && forall i :: 0 <= i < |docs| ==> after[i] == Reclaim(docs[i], c, now)
  {
    if docs == [] then [] else [Reclaim(docs[0], c, now)] + ReclaimAll(docs[1..], c, now)
  }

  /** `id` is due and none is due earlier; the database may choose any such one. */
  predicate EarliestDue(docs: Docs, now: int, id: nat) {
    && id < |docs| && Due(docs[id], now)
    && forall j :: 0 <= j < |docs| && Due(docs[j], now) ==> docs[id].nextAttemptAt <= docs[j].nextAttemptAt
  }

  predicate NothingDue(docs: Docs, now: int) {
    forall j :: 0 <= j < |docs| ==> !Due(docs[j], now)
  }

  /** Every running replay was due when it was leased. */
  ghost predicate LeasedWhenDue(docs: Docs) {
    forall i :: 0 <= i < |docs| && docs[i].state == Running ==>
      docs[i].leasedAt.Some? && docs[i].nextAttemptAt <= docs[i].leasedAt.value
  }

  predicate Claimable(r: Replay, c: Config, now: int) {
    Due(r, now) || LeaseExpired(r, c, now)
  }

  /** What `claim` does in one go: documents after, and the replay taken if any. */
  ghost predicate Claims(before: Docs, c: Config, now: int, after: Docs, taken: Option<nat>) {
    var reclaimed := ReclaimAll(before, c, now);
    match taken
    case None => after == reclaimed && NothingDue(reclaimed, now)
    case Some(id) => EarliestDue(reclaimed, now, id) && after == reclaimed[id := Leased(reclaimed[id], now)]
  }

  /** The requests that workers send and how they end, for each replay and attempt. */
  datatype Destinations = Destinations(endings: (nat, nat) -> Ending, elapsed: (nat, nat) -> nat)

  /** The document after a worker took replay `id` at `now` and wrote its outcome. */
  function Handled(taken: Replay, id: nat, events: set<nat>, d: Destinations, c: Config, now: int): Replay {
    if taken.eventId !in events then Abandoned(taken, EVENT_GONE, now)
    else
      var took := d.elapsed(id, taken.attempt);
      Finished(taken, taken, Execute(d.endings(id, taken.attempt), took), c, now + took)
  }

  /** What one undisturbed turn of a worker does: nothing to take, or one replay taken and its outcome written. */
  ghost predicate Works(
    before: Docs, c: Config, now: int, events: set<nat>, d: Destinations, after: Docs, taken: Option<nat>)
  {
    var reclaimed := ReclaimAll(before, c, now);
    match taken
    case None => after == reclaimed && NothingDue(reclaimed, now)
    case Some(id) =>
      EarliestDue(reclaimed, now, id)
      && after == reclaimed[id := Handled(Leased(reclaimed[id], now), id, events, d, c, now)]
  }

  /** Only the document at `id`, if there is one, may differ. */
  ghost predicate OnlyAt(before: Docs, after: Docs, id: nat) {
    |after| == |before| && forall i :: 0 <= i < |before| && i != id ==> after[i] == before[i]
  }

  /** A write of an outcome leaves alone what was asked for and how it was last claimed. */
  ghost predicate SameClaim(r: Replay, after: Replay) {
    && Request(after.eventId, after.destination, after.method_, after.headers)
       == Request(r.eventId, r.destination, r.method_, r.headers)
    && after.createdAt == r.createdAt && after.maxAttempts == r.maxAttempts
    && after.attempt == r.attempt && after.leasedAt == r.leasedAt && after.startedAt == r.startedAt
  }

  /** Finished for good at `now`, or due again later. */
  ghost predicate EndedOrPostponed(r: Replay, after: Replay, now: int) {
    if Terminal(after) then after.completedAt == Some(now) && after.nextAttemptAt == r.nextAttemptAt
    else after.state == Pending && after.completedAt == r.completedAt
  }

  /** What a turn does to the replay it takes, told by whether its event is stored and how its request ends. */
  ghost predicate Served(
    r: Replay, after: Replay, id: nat, events: set<nat>, d: Destinations, c: Config, now: int, ended: int)
  {
    var attempt, ending, took := r.attempt + 1, d.endings(id, r.attempt + 1), d.elapsed(id, r.attempt + 1);
    && SameClaim(r.(attempt := attempt, leasedAt := Some(now), startedAt := Some(now)), after)
    && if r.eventId in events then SentTo(ending, took, attempt, r, after, c, ended) && ended == now + took
       else
         && ended == now && after.state == Failure && after.error == Some("The event no longer exists")
         && after.completedAt == Some(now) && after.response == r.response && after.durationMs == r.durationMs
  }

  /** The outcome of a request that was sent, with the status codes that are retried listed independently. */
  ghost predicate SentTo(ending: Ending, took: nat, attempt: nat, r: Replay, after: Replay, c: Config, ended: int)
    requires attempt >= 1
  {
    var delivered := ending.Answered? && ending.status < 400;
    var again := attempt < r.maxAttempts
                 && (ending.TimedOut? || ending.Failed? || (ending.Answered? && RetriedStatus(ending.status)));
    && after.durationMs == Some(took)
    && after.error == (if ending.Answered? then None else Some(ending.reason))
    && after.response == (if ending.Answered?
                          then Some(Response(ending.status, ending.headers, ending.body, ending.truncated)) else None)
    && after.state == (if delivered then Success else if again then Pending else Failure)
    && (if again then after.nextAttemptAt == ended + c.retryDelay * Power2(attempt - 1)
        else after.completedAt == Some(ended))
  }

  lemma HandledIsServed(r: Replay, id: nat, events: set<nat>, d: Destinations, c: Config, now: int, ended: int)
    requires ended == if r.eventId in events then now + d.elapsed(id, r.attempt + 1) else now
    ensures Served(r, Handled(Leased(r, now), id, events, d, c, now), id, events, d, c, now, ended)
  {
  }

  lemma WorkIsServed(
    before: Docs, c: Config, now: int, events: set<nat>, d: Destinations, after: Docs, id: nat, ended: int)
    requires Works(before, c, now, events, d, after, Some(id)) && id < |before|
    requires ended == if before[id].eventId in events then now + d.elapsed(id, before[id].attempt + 1) else now
    ensures id < |after| == |before| && Served(before[id], after[id], id, events, d, c, now, ended)
  {
    hide Handled;
    var r := ReclaimAll(before, c, now)[id];
    HandledIsServed(r, id, events, d, c, now, ended);
    assert r == before[id].(state := r.state);
  }

  // ---- the collection in place ----

  class ReplayCollection {
    var docs: Docs

    constructor ()
      ensures docs == []
    {
      docs := [];
    }

    method Enqueue(request: Request, c: Config, now: int) returns (id: nat)
      modifies this
      ensures docs == old(docs) + [NewReplay(request, c, now)]
      ensures id == |old(docs)| && |docs| == id + 1 && docs[..id] == old(docs)
      ensures docs[id].state == Pending && docs[id].attempt == 0 && docs[id].maxAttempts == c.maxRetries + 1
      ensures docs[id].nextAttemptAt == now && docs[id].createdAt == now
      ensures Request(docs[id].eventId, docs[id].destination, docs[id].method_, docs[id].headers) == request
      ensures docs[id].leasedAt == None && docs[id].startedAt == None && docs[id].completedAt == None
      ensures docs[id].durationMs == None && docs[id].response == None && docs[id].error == None
      ensures forall at :: Due(docs[id], at) <==> now <= at
      ensures old(LeasedWhenDue(docs)) ==> LeasedWhenDue(docs)
    {
      id := |docs|;
      docs := docs + [NewReplay(request, c, now)];
    }

    method TakeBackExpired(c: Config, now: int)
      modifies this
      ensures docs == ReclaimAll(old(docs), c, now)
      ensures forall i :: 0 <= i < |docs| ==>
                && docs[i] == old(docs)[i].(state := docs[i].state)
                && (docs[i].state != old(docs)[i].state <==>
                      && old(docs)[i].state == Running && old(docs)[i].leasedAt.Some?
                      && old(docs)[i].leasedAt.value + c.leaseTimeout < now)
                && (docs[i].state != old(docs)[i].state ==> docs[i].state == Pending)
      ensures forall i :: 0 <= i < |docs| ==> !LeaseExpired(docs[i], c, now)
    {
      docs := ReclaimAll(docs, c, now);
    }

    method TakeEarliestDue(now: int) returns (taken: Option<nat>)
      modifies this
      ensures taken.None? ==> docs == old(docs) && NothingDue(docs, now)
      ensures taken.None? <==> forall j :: 0 <= j < |old(docs)| && old(docs)[j].state == Pending ==>
                                 now < old(docs)[j].nextAttemptAt
      ensures taken.Some? ==> EarliestDue(old(docs), now, taken.value)
                              && docs == old(docs)[taken.value := Leased(old(docs)[taken.value], now)]
      ensures taken.Some? ==>
                var r, after := old(docs)[taken.value], docs[taken.value];
                && r.state == Pending && r.nextAttemptAt <= now && OnlyAt(old(docs), docs, taken.value)
                && (forall j :: 0 <= j < |old(docs)| && old(docs)[j].state == Pending ==>
                      r.nextAttemptAt <= old(docs)[j].nextAttemptAt)
                && after == r.(state := Running, attempt := r.attempt + 1, leasedAt := Some(now), startedAt := Some(now))
    {
      if NothingDue(docs, now) {
        return None;
      }
      assert docs[..|docs|] == docs;
      SomeEarliestDue(docs, now, |docs|);
      var id: nat :| id < |docs| && EarliestDue(docs, now, id);
      docs := docs[id := Leased(docs[id], now)];
      return Some(id);
    }

    /** Undisturbed, a claim comes back empty exactly when nothing is due and no lease has run out. */
    method Claim(c: Config, now: int) returns (taken: Option<nat>)
      requires LeasedWhenDue(docs) && c.leaseTimeout >= 0
      modifies this
      ensures Claims(old(docs), c, now, docs, taken) && LeasedWhenDue(docs)
      ensures taken.Some? ==> taken.value < |docs|
      ensures taken.None? <==> forall i :: 0 <= i < |old(docs)| ==> !Claimable(old(docs)[i], c, now)
    {
      TakeBackExpired(c, now);
      taken := TakeEarliestDue(now);
      ReclaimedIsDue(old(docs), c, now);
    }

    /** Returns the state it writes, whether or not a document has that identifier. */
    method Finish(id: nat, snapshot: Replay, a: Attempt, c: Config, now: int) returns (state: Status)
      modifies this
      ensures state == StateOf(KindOf(snapshot, a)) && OnlyAt(old(docs), docs, id)
      ensures id < |docs| ==>
                var r, after := old(docs)[id], docs[id];
                && after.state == state && SameClaim(r, after) && EndedOrPostponed(r, after, now)
                && after.error == a.error && after.durationMs == Some(a.durationMs)
                && (a.statusCode.None? ==> after.response == None)
                && (a.statusCode.Some? ==>
                      && after.response.Some? && after.response.value.statusCode == a.statusCode.value
                      && after.response.value.headers == a.headers && after.response.value.body == a.body
                      && after.response.value.truncated == a.truncated)
                && (state == Pending && snapshot.attempt >= 1 ==>
                      after.nextAttemptAt == now + c.retryDelay * Power2(snapshot.attempt - 1))
      ensures docs == if id < |old(docs)| then old(docs)[id := Finished(old(docs)[id], snapshot, a, c, now)]
                      else old(docs)
    {
      if id < |docs| {
        docs := docs[id := Finished(docs[id], snapshot, a, c, now)];
      }
      match Judge(snapshot, a, c, now)
      case Done => state := Success;
      case Retry(_) => state := Pending;
      case GiveUp => state := Failure;
    }

    method Abandon(id: nat, reason: string, now: int)
      modifies this
      ensures OnlyAt(old(docs), docs, id)
      ensures id < |docs| ==>
                var r, after := old(docs)[id], docs[id];
                && after.state == Failure && SameClaim(r, after) && EndedOrPostponed(r, after, now)
                && after.error == Some(reason) && after.durationMs == r.durationMs && after.response == r.response
      ensures docs == if id < |old(docs)| then old(docs)[id := Abandoned(old(docs)[id], reason, now)] else old(docs)
    {
      if id < |docs| {
        docs := docs[id := Abandoned(docs[id], reason, now)];
      }
    }

    /**
     A claim and then exactly one write of its outcome, ending at `ended`. If the event is still stored the request is
     sent and its ending decides; if it is not, nothing is sent and the replay fails for that reason.
     */
    method RunOnce(c: Config, now: int, events: set<nat>, d: Destinations) returns (taken: Option<nat>, ended: int)
      requires LeasedWhenDue(docs) && c.leaseTimeout >= 0
      modifies this
      ensures LeasedWhenDue(docs) && ended >= now
      ensures Works(old(docs), c, now, events, d, docs, taken)
      ensures taken.None? ==> ended == now
      ensures taken.Some? ==> taken.value < |docs| == |old(docs)|
      ensures taken.Some? ==> Served(old(docs)[taken.value], docs[taken.value], taken.value, events, d, c, now, ended)
    {
      hide Finished, Abandoned, Execute, Claims, Works, LeasedWhenDue, Served;
      ended := now;
      taken := Claim(c, now);
      ghost var claimed := docs;
      WorkFollowsClaim(old(docs), c, now, events, d, claimed, taken);
      if taken.None? {
        return;
      }
      var id := taken.value;
      var replay := docs[id];
      if replay.eventId !in events {
        Abandon(id, EVENT_GONE, now);
      } else {
        var took := d.elapsed(id, replay.attempt);
        ended := now + took;
        var _ := Finish(id, replay, Execute(d.endings(id, replay.attempt), took), c, ended);
      }
      assert docs == claimed[id := Handled(replay, id, events, d, c, now)];
      TakenIsWaiting(old(docs), c, now, claimed, id);
      WorkIsServed(old(docs), c, now, events, d, docs, id, ended);
    }
  }

  /** The copy a claim returns is of the document as it was, with the attempt counted. */
  lemma TakenIsWaiting(before: Docs, c: Config, now: int, claimed: Docs, id: nat)
    requires Claims(before, c, now, claimed, Some(id))
    ensures id < |before| == |claimed|
    ensures claimed[id].eventId == before[id].eventId && claimed[id].attempt == before[id].attempt + 1
  {
  }

  /** A claim followed by the write of its outcome is one turn of work. */
  lemma WorkFollowsClaim(
    before: Docs, c: Config, now: int, events: set<nat>, d: Destinations, claimed: Docs, taken: Option<nat>)
    requires Claims(before, c, now, claimed, taken) && LeasedWhenDue(claimed)
    requires taken.Some? ==> taken.value < |claimed|
    ensures taken.None? ==> Works(before, c, now, events, d, claimed, None)
    ensures taken.Some? ==>
              var after := claimed[taken.value := Handled(claimed[taken.value], taken.value, events, d, c, now)];
              Works(before, c, now, events, d, after, taken) && LeasedWhenDue(after)
  {
    if taken.Some? {
      HandledIsNotRunning(claimed[taken.value], taken.value, events, d, c, now);
      hide Handled;
      var after := claimed[taken.value := Handled(claimed[taken.value], taken.value, events, d, c, now)];
      var reclaimed := ReclaimAll(before, c, now);
      assert after == reclaimed[taken.value := Handled(claimed[taken.value], taken.value, events, d, c, now)];
    }
  }

  lemma HandledIsNotRunning(taken: Replay, id: nat, events: set<nat>, d: Destinations, c: Config, now: int)
    ensures Handled(taken, id, events, d, c, now).state != Running
  {
  }

  /** A reclaimed replay is due in the claim that took it back. */
  lemma ReclaimedIsDue(docs: Docs, c: Config, now: int)
    requires LeasedWhenDue(docs) && c.leaseTimeout >= 0
    ensures forall i :: 0 <= i < |docs| ==> (Claimable(docs[i], c, now) <==> Due(ReclaimAll(docs, c, now)[i], now))
  {
  }

  /** Among the first `n` replays, if any is due then one is due no later than the others. */
  lemma {:induction false} SomeEarliestDue(docs: Docs, now: int, n: nat)
    requires n <= |docs| && !NothingDue(docs[..n], now)
    ensures exists id: nat :: id < n && EarliestDue(docs[..n], now, id)
  {
    var first, last := docs[..n - 1], docs[n - 1];
    assert docs[..n] == first + [last];
    if NothingDue(first, now) {
      assert EarliestDue(docs[..n], now, n - 1);
    } else {
      SomeEarliestDue(docs, now, n - 1);
      var id: nat :| id < n - 1 && EarliestDue(first, now, id);
      if Due(last, now) && last.nextAttemptAt < first[id].nextAttemptAt {
        assert EarliestDue(docs[..n], now, n - 1);
      } else {
        assert EarliestDue(docs[..n], now, id);
      }
    }
  }
}
