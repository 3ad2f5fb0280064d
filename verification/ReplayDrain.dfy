/**
 Getting to the end of the queue. One worker left alone, polling as app/replay/worker.py does, brings every replay to an
 end in a number of turns fixed in advance by the attempts still allowed. With many workers, crashes and late writes, a
 queue never gets stuck: a claim late enough comes back empty only when everything is finished.
 */
module ReplayDrain {
  import opened Prelude
  import opened Replays
  import opened ReplayProtocol
  import opened ReplayLaws

  /** The turns a replay may still take. */
  function TurnsLeft(r: Replay): nat {
    if Terminal(r) then 0 else Max(1, r.maxAttempts - r.attempt)
  }

  function AllTurnsLeft(docs: Docs): nat {
    if docs == [] then 0 else AllTurnsLeft(docs[..|docs| - 1]) + TurnsLeft(docs[|docs| - 1])
  }

  predicate Drained(docs: Docs) {
    forall i :: 0 <= i < |docs| ==> Terminal(docs[i])
  }

  /** A time by which an unfinished replay can be claimed. */
  function ReadyBy(r: Replay, c: Config): int {
    match r.state
    case Pending => r.nextAttemptAt
    case Running => if r.leasedAt.Some? then r.leasedAt.value + c.leaseTimeout + 1 else 0
    case _ => 0
  }

  function AllReadyBy(docs: Docs, c: Config): int {
    if docs == [] then 0 else Max(AllReadyBy(docs[..|docs| - 1], c), ReadyBy(docs[|docs| - 1], c))
  }

  lemma {:induction false} ReadyByCovers(docs: Docs, c: Config, i: nat)
    requires i < |docs|
    ensures ReadyBy(docs[i], c) <= AllReadyBy(docs, c)
  {
    if i < |docs| - 1 {
      ReadyByCovers(docs[..|docs| - 1], c, i);
    }
  }

  lemma {:induction false} TurnsAfterUpdate(docs: Docs, i: nat, r: Replay)
    requires i < |docs|
    ensures AllTurnsLeft(docs[i := r]) == AllTurnsLeft(docs) - TurnsLeft(docs[i]) + TurnsLeft(r)
  {
    if i < |docs| - 1 {
      var before := docs[..|docs| - 1];
      TurnsAfterUpdate(before, i, r);
      assert docs[i := r][..|docs| - 1] == before[i := r];
    } else {
      assert docs[i := r][..|docs| - 1] == docs[..|docs| - 1];
    }
  }

  lemma {:induction false} ReclaimKeepsTurns(docs: Docs, c: Config, now: int)
    ensures AllTurnsLeft(ReclaimAll(docs, c, now)) == AllTurnsLeft(docs)
  {
    if docs != [] {
      var before := docs[..|docs| - 1];
      ReclaimKeepsTurns(before, c, now);
      assert ReclaimAll(docs, c, now)[..|docs| - 1] == ReclaimAll(before, c, now);
    }
  }

  lemma HandlingSpendsATurn(r: Replay, id: nat, events: set<nat>, d: Destinations, c: Config, now: int)
    requires r.state == Pending
    ensures TurnsLeft(Handled(Leased(r, now), id, events, d, c, now)) < TurnsLeft(r)
  {
  }

  /** A turn that takes a replay uses up one of the turns left; a turn that takes none changes nothing. */
  lemma TurnsAreSpent(
    before: Docs, c: Config, now: int, events: set<nat>, d: Destinations, after: Docs, taken: Option<nat>)
    requires LeasedWhenDue(before) && c.leaseTimeout >= 0
    requires Works(before, c, now, events, d, after, taken)
    ensures taken.Some? ==> AllTurnsLeft(after) < AllTurnsLeft(before)
    ensures taken.None? ==> after == before
  {
    hide Handled, TurnsLeft, AllTurnsLeft, Leased;
    var reclaimed := ReclaimAll(before, c, now);
    ReclaimKeepsTurns(before, c, now);
    ReclaimedIsDue(before, c, now);
    if taken.Some? {
      var id := taken.value;
      TurnsAfterUpdate(reclaimed, id, Handled(Leased(reclaimed[id], now), id, events, d, c, now));
      HandlingSpendsATurn(reclaimed[id], id, events, d, c, now);
    } else {
      assert forall i :: 0 <= i < |before| ==> !Claimable(before[i], c, now);
    }
  }

  /** While something is unfinished but nothing can be claimed, the wait has an end. */
  lemma WaitingEnds(docs: Docs, c: Config, now: int)
    requires LeasedWhenDue(docs) && !Drained(docs)
    requires forall i :: 0 <= i < |docs| ==> !Claimable(docs[i], c, now)
    ensures now < AllReadyBy(docs, c)
  {
    var i :| 0 <= i < |docs| && !Terminal(docs[i]);
    ReadyByCovers(docs, c, i);
  }

  /**
   The worker's loop, stopped when the queue is drained. Whatever the destinations answer, it ends with every replay
   finished and has worked no more turns than were left.
   */
  method Drain(queue: ReplayCollection, c: Config, events: set<nat>, d: Destinations, start: int, poll: nat)
    returns (turns: nat)
    requires LeasedWhenDue(queue.docs) && c.leaseTimeout >= 0 && poll > 0
    modifies queue
    ensures Drained(queue.docs)
    ensures turns <= old(AllTurnsLeft(queue.docs))
  {
    turns := 0;
    var now := start;
    while !Drained(queue.docs)
      invariant LeasedWhenDue(queue.docs)
      invariant turns + AllTurnsLeft(queue.docs) <= old(AllTurnsLeft(queue.docs))
      decreases AllTurnsLeft(queue.docs), AllReadyBy(queue.docs, c) - now
    {
      ghost var before := queue.docs;
      ReclaimedIsDue(before, c, now);
      var taken, ended := queue.RunOnce(c, now, events, d);
      TurnsAreSpent(before, c, now, events, d, queue.docs, taken);
      if taken.Some? {
        turns := turns + 1;
        now := ended;
      } else {
        WaitingEnds(before, c, now);
        now := now + poll;
      }
    }
  }

  /** A freshly queued replay has as many turns as the configuration allows attempts, and at least one. */
  lemma {:induction false} TurnsOfAFreshQueue(docs: Docs, c: Config)
    requires forall i :: 0 <= i < |docs| ==>
               docs[i].state == Pending && docs[i].attempt == 0 && docs[i].maxAttempts == c.maxRetries + 1
    ensures AllTurnsLeft(docs) == |docs| * Max(1, c.maxRetries + 1)
  {
    if docs != [] {
      TurnsOfAFreshQueue(docs[..|docs| - 1], c);
      assert |docs| * Max(1, c.maxRetries + 1) == (|docs| - 1) * Max(1, c.maxRetries + 1) + Max(1, c.maxRetries + 1);
    }
  }

  // ---- any number of workers ----

  /**
   In every reachable world, a claim made undisturbed once every replay is ready comes back empty exactly when the queue
   is drained; otherwise it can take something.
   */
  lemma EmptyHandedMeansDrained(c: Config, start: int, steps: seq<Step>, k: nat)
    requires Legal(c, start, steps) && c.leaseTimeout >= 0 && PhaseOf(After(c, start, steps), k).Idle?
    requires After(c, start, steps).clock >= AllReadyBy(After(c, start, steps).docs, c)
    ensures var w := After(c, start, steps);
            && (Enabled(ClaimStarted(c, w, k), TakeNothing(k)) <==> Drained(w.docs))
            && (Drained(w.docs) || exists id :: Enabled(ClaimStarted(c, w, k), Take(k, id)))
  {
    var w := After(c, start, steps);
    RunsKeepInvariant(c, start, steps);
    ReclaimedIsDue(w.docs, c, w.clock);
    var swept := ClaimStarted(c, w, k);
    if !Drained(w.docs) {
      if NothingDue(swept.docs, w.clock) {
        assert forall i :: 0 <= i < |w.docs| ==> !Claimable(w.docs[i], c, w.clock);
        WaitingEnds(w.docs, c, w.clock);
      }
      assert swept.docs[..|swept.docs|] == swept.docs;
      SomeEarliestDue(swept.docs, w.clock, |swept.docs|);
      var id: nat :| id < |swept.docs| && EarliestDue(swept.docs, w.clock, id);
      assert Enabled(swept, Take(k, id));
    }
  }

  /** A run in which worker 0 starts over and claims once everything is ready. */
  lemma ClaimWhenReady(c: Config, start: int, steps: seq<Step>) returns (more: seq<Step>, id: nat)
    requires Legal(c, start, steps) && c.leaseTimeout >= 0 && !Drained(After(c, start, steps).docs)
    ensures Legal(c, start, more) && steps <= more
    ensures var w, after := After(c, start, steps), After(c, start, more);
            var reclaimed := ReclaimAll(w.docs, c, after.clock);
            && id < |w.docs| && reclaimed[id].state == Pending
            && after.docs == reclaimed[id := Leased(reclaimed[id], after.clock)]
            && PhaseOf(after, 0) == Holding(id, Leased(reclaimed[id], after.clock))
  {
    var w := After(c, start, steps);
    Extend(c, start, steps, Crash(0));
    var idle := steps + [Crash(0)];
    var tick := Tick(Max(w.clock, AllReadyBy(w.docs, c)));
    Extend(c, start, idle, tick);
    var ready := idle + [tick];
    EmptyHandedMeansDrained(c, start, ready, 0);
    id :| Enabled(ClaimStarted(c, After(c, start, ready), 0), Take(0, id));
    more := ClaimUndisturbed(c, start, ready, 0, id);
  }

  /** One more replay delivered, at the price of at least one of the turns left. */
  lemma DeliverOne(c: Config, start: int, steps: seq<Step>) returns (more: seq<Step>)
    requires Legal(c, start, steps) && c.leaseTimeout >= 0 && !Drained(After(c, start, steps).docs)
    ensures Legal(c, start, more) && steps <= more
    ensures AllTurnsLeft(After(c, start, more).docs) < AllTurnsLeft(After(c, start, steps).docs)
  {
    var docs := After(c, start, steps).docs;
    var id;
    more, id := ClaimWhenReady(c, start, steps);
    var w := After(c, start, more);
    var write := Finish(0, DELIVERED, w.clock);
    Extend(c, start, more, write);
    more := more + [write];
    var reclaimed := ReclaimAll(docs, c, w.clock);
    var written := After(c, start, more).docs[id];
    ReclaimKeepsTurns(docs, c, w.clock);
    TurnsAfterUpdate(reclaimed, id, written);
    assert After(c, start, more).docs == reclaimed[id := written];
  }

  /** From every reachable world, whatever crashed, overslept or wrote late before it, some run drains the queue. */
  lemma {:induction false} NeverStuck(c: Config, start: int, steps: seq<Step>) returns (more: seq<Step>)
    requires Legal(c, start, steps) && c.leaseTimeout >= 0
    ensures Legal(c, start, more) && steps <= more && Drained(After(c, start, more).docs)
    decreases AllTurnsLeft(After(c, start, steps).docs)
  {
    more := steps;
    if !Drained(After(c, start, steps).docs) {
      more := DeliverOne(c, start, steps);
      more := NeverStuck(c, start, more);
    }
  }

  // ---- a worker's turn is a run of the protocol ----

  /**
   Whatever one undisturbed turn does to the collection, the protocol does in its own steps from the same world, however
   long its write takes to arrive.
   */
  lemma ATurnIsARun(
    c: Config, start: int, steps: seq<Step>, k: nat, events: set<nat>, d: Destinations, after: Docs, taken: Option<nat>,
    delay: nat)
    returns (more: seq<Step>)
    requires Legal(c, start, steps) && PhaseOf(After(c, start, steps), k).Idle?
    requires Works(After(c, start, steps).docs, c, After(c, start, steps).clock, events, d, after, taken)
    ensures Legal(c, start, more) && steps <= more
    ensures After(c, start, more).docs == after && PhaseOf(After(c, start, more), k).Idle?
  {
    if taken.Some? {
      more := AServedTurnIsARun(c, start, steps, k, events, d, after, taken.value, delay);
    } else {
      Extend(c, start, steps, StartClaim(k));
      more := steps + [StartClaim(k)];
      Extend(c, start, more, Sweep(k));
      more := more + [Sweep(k)];
      Extend(c, start, more, TakeNothing(k));
      more := more + [TakeNothing(k)];
    }
  }

  /** And an undisturbed claim of the protocol is one claim on the collection. */
  lemma UndisturbedStepsAreAClaim(c: Config, w: World, k: nat, last: Step)
    requires PhaseOf(w, k).Idle? && (last.Take? || last.TakeNothing?) && last.worker == k
    requires Enabled(ClaimStarted(c, w, k), last)
    ensures var after := Next(c, ClaimStarted(c, w, k), last);
            && Claims(w.docs, c, w.clock, after.docs, if last.Take? then Some(last.id) else None)
            && (last.Take? ==> PhaseOf(after, k) == Holding(last.id, after.docs[last.id]))
  {
  }

  lemma AServedTurnIsARun(
    c: Config, start: int, steps: seq<Step>, k: nat, events: set<nat>, d: Destinations, after: Docs, id: nat,
    delay: nat)
    returns (more: seq<Step>)
    requires Legal(c, start, steps) && PhaseOf(After(c, start, steps), k).Idle?
    requires Works(After(c, start, steps).docs, c, After(c, start, steps).clock, events, d, after, Some(id))
    ensures Legal(c, start, more) && steps <= more
    ensures After(c, start, more).docs == after && PhaseOf(After(c, start, more), k).Idle?
  {
    hide Handled;
    var w := After(c, start, steps);
    more := ClaimUndisturbed(c, start, steps, k, id);
    more := WriteOutcome(c, start, more, k, id, events, d, delay);
  }

  /** A worker that has just claimed sends the request, or finds the event gone, and writes the outcome. */
  lemma WriteOutcome(
    c: Config, start: int, steps: seq<Step>, k: nat, id: nat, events: set<nat>, d: Destinations, delay: nat)
    returns (more: seq<Step>)
    requires Legal(c, start, steps)
    requires var w := After(c, start, steps);
             && id < |w.docs| && PhaseOf(w, k) == Holding(id, w.docs[id]) && w.docs[id].leasedAt == Some(w.clock)
    ensures Legal(c, start, more) && steps <= more && PhaseOf(After(c, start, more), k).Idle?
    ensures var w := After(c, start, steps);
            After(c, start, more).docs == w.docs[id := Handled(w.docs[id], id, events, d, c, w.clock)]
  {
    hide Finished, Abandoned, Execute;
    var w := After(c, start, steps);
    var leased := w.docs[id];
    more := steps;
    if leased.eventId in events {
      var took := d.elapsed(id, leased.attempt);
      Extend(c, start, more, Tick(w.clock + took + delay));
      more := more + [Tick(w.clock + took + delay)];
      var write := Finish(k, Execute(d.endings(id, leased.attempt), took), w.clock + took);
      Extend(c, start, more, write);
      more := more + [write];
    } else {
      Extend(c, start, more, Tick(w.clock + delay));
      more := more + [Tick(w.clock + delay)];
      var write := Abandon(k, EVENT_GONE, w.clock);
      Extend(c, start, more, write);
      more := more + [write];
    }
  }

  // ---- schedules without end ----

  /** The first `n` steps of an endless schedule. */
  function FirstSteps(schedule: nat -> Step, n: nat): (steps: seq<Step>)
    ensures |steps| == n
  {
    if n == 0 then [] else FirstSteps(schedule, n - 1) + [schedule(n - 1)]
  }

  /** A schedule all of whose steps can happen, for at most `n` replays with at most `m` leases taken back in all. */
  ghost predicate Endless(c: Config, start: int, schedule: nat -> Step, n: nat, m: nat) {
    forall i: nat ::
      && Legal(c, start, FirstSteps(schedule, i))
      && |After(c, start, FirstSteps(schedule, i)).docs| <= n
      && AllReclaims(c, start, FirstSteps(schedule, i), |After(c, start, FirstSteps(schedule, i)).docs|) <= m
  }

  ghost predicate NoTakeFrom(schedule: nat -> Step, first: nat) {
    forall i :: i >= first ==> !schedule(i).Take?
  }

  lemma TakesStayBounded(c: Config, start: int, schedule: nat -> Step, n: nat, m: nat, i: nat)
    requires Endless(c, start, schedule, n, m)
    ensures Takes(FirstSteps(schedule, i)) <= n * Max(1, c.maxRetries + 1) + m
  {
    var steps := FirstSteps(schedule, i);
    var docs := After(c, start, steps).docs;
    WorkIsBounded(c, start, steps);
    assert |docs| * Max(1, c.maxRetries + 1) <= n * Max(1, c.maxRetries + 1);
  }

  lemma {:induction false} TakesGrow(schedule: nat -> Step, i: nat, j: nat)
    requires i <= j
    ensures Takes(FirstSteps(schedule, i)) <= Takes(FirstSteps(schedule, j))
    ensures j > i && schedule(j - 1).Take? ==> Takes(FirstSteps(schedule, i)) < Takes(FirstSteps(schedule, j))
    decreases j - i
  {
    if j > i {
      TakesGrow(schedule, i, j - 1);
      assert FirstSteps(schedule, j)[..j - 1] == FirstSteps(schedule, j - 1);
    }
  }

  ghost predicate TakesAtMost(schedule: nat -> Step, bound: int) {
    forall i: nat :: Takes(FirstSteps(schedule, i)) <= bound
  }

  /** However the workers are scheduled, there is a point after which none of them takes a replay again. */
  lemma {:induction false} TakesStop(schedule: nat -> Step, bound: int, from: nat) returns (last: nat)
    requires TakesAtMost(schedule, bound)
    ensures last >= from && NoTakeFrom(schedule, last)
    decreases bound - Takes(FirstSteps(schedule, from))
  {
    last := from;
    if !NoTakeFrom(schedule, from) {
      var i: nat :| i >= from && schedule(i).Take?;
      TakesGrow(schedule, from, i + 1);
      hide Takes, FirstSteps;
      assert Takes(FirstSteps(schedule, i + 1)) <= bound;
      last := TakesStop(schedule, bound, i + 1);
    }
  }

  /** At this point worker `k` makes a claim, undisturbed, when every replay is ready. */
  ghost predicate LateClaimAt(c: Config, start: int, schedule: nat -> Step, i: nat, k: nat)
    requires Legal(c, start, FirstSteps(schedule, i))
  {
    var w := After(c, start, FirstSteps(schedule, i));
    && w.clock >= AllReadyBy(w.docs, c)
    && schedule(i) == StartClaim(k) && schedule(i + 1) == Sweep(k)
    && (schedule(i + 2) == TakeNothing(k) || (schedule(i + 2).Take? && schedule(i + 2).worker == k))
  }

  /**
   Every endless schedule of any number of workers, with crashes and late writes, but finitely many replays and leases
   taken back: from some point on, whenever a worker claims undisturbed and everything is ready, the queue is drained.
   */
  lemma EverySchedule(c: Config, start: int, schedule: nat -> Step, n: nat, m: nat) returns (last: nat)
    requires Endless(c, start, schedule, n, m) && c.leaseTimeout >= 0
    ensures NoTakeFrom(schedule, last)
    ensures forall i, k: nat :: i >= last && LateClaimAt(c, start, schedule, i, k) ==>
              Drained(After(c, start, FirstSteps(schedule, i)).docs)
  {
    var bound := n * Max(1, c.maxRetries + 1) + m;
    forall i: nat ensures Takes(FirstSteps(schedule, i)) <= bound {
      TakesStayBounded(c, start, schedule, n, m, i);
    }
    last := TakesStop(schedule, bound, 0);
    forall i, k: nat | i >= last && LateClaimAt(c, start, schedule, i, k)
      ensures Drained(After(c, start, FirstSteps(schedule, i)).docs)
    {
      ThreeSteps(c, start, schedule, n, m, i);
      EmptyHandedMeansDrained(c, start, FirstSteps(schedule, i), k);
    }
  }

  lemma ThreeSteps(c: Config, start: int, schedule: nat -> Step, n: nat, m: nat, i: nat)
    requires Endless(c, start, schedule, n, m)
    ensures var w := After(c, start, FirstSteps(schedule, i));
            && Enabled(w, schedule(i)) && Enabled(Next(c, w, schedule(i)), schedule(i + 1))
            && Enabled(Next(c, Next(c, w, schedule(i)), schedule(i + 1)), schedule(i + 2))
  {
    OneStep(c, start, schedule, n, m, i);
    OneStep(c, start, schedule, n, m, i + 1);
    OneStep(c, start, schedule, n, m, i + 2);
  }

  lemma OneStep(c: Config, start: int, schedule: nat -> Step, n: nat, m: nat, i: nat)
    requires Endless(c, start, schedule, n, m)
    ensures var w := After(c, start, FirstSteps(schedule, i));
            && Enabled(w, schedule(i)) && After(c, start, FirstSteps(schedule, i + 1)) == Next(c, w, schedule(i))
  {
    assert FirstSteps(schedule, i + 1)[..i] == FirstSteps(schedule, i);
    assert Legal(c, start, FirstSteps(schedule, i + 1));
  }
}
