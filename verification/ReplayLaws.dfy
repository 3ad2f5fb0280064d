/**
 What runs of the queue promise beyond the bounds: exclusive leases and final results when workers write in time, the
 shape and pace of a replay whose lease is never taken back, and a run in which a late write undoes a result.
 */
module ReplayLaws {
  import opened Prelude
  import opened Replays
  import opened ReplayProtocol

  /** The stored replay is still the one this worker leased. */
  ghost predicate Current(w: World, k: nat) {
    PhaseOf(w, k).Holding? &&
      var Holding(id, snapshot) := PhaseOf(w, k);
      && id < |w.docs| && w.docs[id].state == Running
      && w.docs[id].attempt == snapshot.attempt && w.docs[id].leasedAt == snapshot.leasedAt
  }

  /** The worker's lease has not run out. */
  predicate Live(c: Config, w: World, k: nat) {
    && PhaseOf(w, k).Holding? && PhaseOf(w, k).snapshot.leasedAt.Some?
    && w.clock <= PhaseOf(w, k).snapshot.leasedAt.value + c.leaseTimeout
  }

  /** One step with every trusted holder current, only trusted writes, and no trusted holder's lease taken back. */
  lemma TrustedHoldersStayCurrent(c: Config, w: World, s: Step, id: nat, trusted: set<nat>, k: nat)
    requires Invariant(c, w) && Enabled(w, s)
    requires forall l :: l in trusted && Holds(w, l, id) ==> Current(w, l)
    requires NewOutcome(w, s, id) != [] ==> s.worker in trusted
    requires TakesBack(c, w, s, id) ==> forall l :: l in trusted ==> !Holds(w, l, id)
    requires Holds(Next(c, w, s), k, id) && (k in trusted || !Holds(w, k, id))
    ensures Current(Next(c, w, s), k)
  {
    var after := Next(c, w, s);
    if Holds(w, k, id) {
      assert PhaseOf(after, k) == PhaseOf(w, k);
      HowAReplayChanges(c, w, s, id);
    } else {
      assert s == Take(k, id);
    }
  }

  // ---- runs in which every write is in time ----

  ghost predicate Punctual(c: Config, start: int, steps: seq<Step>)
    requires Legal(c, start, steps)
  {
    steps == [] ||
      var before, last := steps[..|steps| - 1], steps[|steps| - 1];
      Punctual(c, start, before) && (last.Finish? || last.Abandon? ==> Live(c, After(c, start, before), last.worker))
  }

  ghost predicate LiveAreCurrent(c: Config, w: World) {
    forall k :: Live(c, w, k) ==> Current(w, k)
  }

  lemma StepKeepsLiveCurrent(c: Config, w: World, s: Step)
    requires Invariant(c, w) && Enabled(w, s) && LiveAreCurrent(c, w)
    requires s.Finish? || s.Abandon? ==> Live(c, w, s.worker)
    ensures LiveAreCurrent(c, Next(c, w, s))
  {
    var after := Next(c, w, s);
    var trusted := set k | k in w.workers && Live(c, w, k);
    forall k | Live(c, after, k) ensures Current(after, k) {
      var id := PhaseOf(after, k).id;
      if TakesBack(c, w, s, id) {
        assert ClockOk(w, s.worker);
      }
      TrustedHoldersStayCurrent(c, w, s, id, trusted, k);
    }
  }

  lemma {:induction false} PunctualRunsKeepLiveCurrent(c: Config, start: int, steps: seq<Step>)
    requires Legal(c, start, steps) && Punctual(c, start, steps)
    ensures LiveAreCurrent(c, After(c, start, steps))
  {
    if steps != [] {
      var before := steps[..|steps| - 1];
      PunctualRunsKeepLiveCurrent(c, start, before);
      RunsKeepInvariant(c, start, before);
      StepKeepsLiveCurrent(c, After(c, start, before), steps[|steps| - 1]);
    }
  }

  /** With writes in time, a replay has at most one live holder, and the stored replay is the one it leased. */
  lemma LeasesAreExclusive(c: Config, start: int, steps: seq<Step>, k: nat, l: nat, id: nat)
    requires Legal(c, start, steps) && Punctual(c, start, steps)
    requires var w := After(c, start, steps); Live(c, w, k) && Live(c, w, l) && Holds(w, k, id) && Holds(w, l, id)
    ensures k == l
    ensures var w := After(c, start, steps);
            && id < |w.docs| && w.docs[id].state == Running
            && w.docs[id].attempt == PhaseOf(w, k).snapshot.attempt
  {
    PunctualRunsKeepLiveCurrent(c, start, steps);
    RunsKeepInvariant(c, start, steps);
    assert Current(After(c, start, steps), k) && Current(After(c, start, steps), l);
  }

  /** With writes in time, a replay that has succeeded or failed is never written again. */
  lemma {:induction false} ResultsAreFinal(c: Config, start: int, steps: seq<Step>, more: seq<Step>, id: nat)
    requires Legal(c, start, steps) && Legal(c, start, steps + more) && Punctual(c, start, steps + more)
    requires id < |After(c, start, steps).docs| && Terminal(After(c, start, steps).docs[id])
    ensures id < |After(c, start, steps + more).docs|
    ensures After(c, start, steps + more).docs[id] == After(c, start, steps).docs[id]
    decreases |more|
  {
    if more == [] {
      assert steps + more == steps;
    } else {
      var all, before := steps + more, steps + more[..|more| - 1];
      assert all[..|all| - 1] == before;
      ResultsAreFinal(c, start, steps, more[..|more| - 1], id);
      RunsKeepInvariant(c, start, before);
      PunctualRunsKeepLiveCurrent(c, start, before);
      HowAReplayChanges(c, After(c, start, before), all[|all| - 1], id);
    }
  }

  // ---- a replay whose lease is never taken back ----

  /** The earliest time the claim after `n` attempts may happen. */
  function EarliestClaim(c: Config, createdAt: int, n: nat): int {
    createdAt + c.retryDelay * (Power2(n) - 1)
  }

  /** Outcomes are numbered claims; all but the last were retried, and the last agrees with the stored state. */
  ghost predicate Orderly(r: Replay, outcomes: seq<Outcome>) {
    && r.attempt == |outcomes| + (if r.state == Running then 1 else 0)
    && (forall i :: 0 <= i < |outcomes| ==> outcomes[i].attempt == i + 1)
    && (forall i :: 0 <= i < |outcomes| - 1 ==> outcomes[i].kind == Retried)
    && (forall i :: 0 <= i < |outcomes| && outcomes[i].kind == Retried ==> i + 1 < r.maxAttempts)
    && (forall i :: 0 <= i < |outcomes| && outcomes[i].kind == Exhausted ==> i + 1 >= r.maxAttempts)
    && (if outcomes == [] then !Terminal(r)
        else match outcomes[|outcomes| - 1].kind
          case Retried => r.state == Pending || r.state == Running
          case Succeeds => r.state == Success
          case _ => r.state == Failure)
  }

  ghost predicate Paced(c: Config, r: Replay) {
    && (r.state == Pending ==> r.nextAttemptAt >= EarliestClaim(c, r.createdAt, r.attempt))
    && (r.state == Running ==> r.attempt >= 1 && r.leasedAt.Some?
                               && r.leasedAt.value >= EarliestClaim(c, r.createdAt, r.attempt - 1))
  }

  ghost predicate HoldersCurrent(w: World, id: nat) {
    forall k :: Holds(w, k, id) ==> Current(w, k)
  }

  lemma BackoffAddsUp(c: Config, createdAt: int, n: nat, leasedAt: int, at: int)
    requires leasedAt >= EarliestClaim(c, createdAt, n) && at >= leasedAt
    ensures at + c.retryDelay * Power2(n) >= EarliestClaim(c, createdAt, n + 1)
  {
    assert c.retryDelay * (Power2(n + 1) - 1) == c.retryDelay * (Power2(n) - 1) + c.retryDelay * Power2(n);
  }

  lemma WritesKeepPace(c: Config, w: World, s: Step, id: nat)
    requires Invariant(c, w) && Enabled(w, s) && id < |w.docs|
    requires Paced(c, w.docs[id]) && NewOutcome(w, s, id) != [] && Current(w, s.worker)
    ensures Paced(c, Next(c, w, s).docs[id])
  {
    var r := w.docs[id];
    if s.Finish? {
      BackoffAddsUp(c, r.createdAt, r.attempt - 1, r.leasedAt.value, s.at);
    }
  }

  lemma StepKeepsOrder(c: Config, w: World, s: Step, id: nat, outcomes: seq<Outcome>)
    requires Invariant(c, w) && Enabled(w, s) && id < |w.docs| && !TakesBack(c, w, s, id)
    requires HoldersCurrent(w, id) && Orderly(w.docs[id], outcomes)
    ensures id < |Next(c, w, s).docs|
    ensures Orderly(Next(c, w, s).docs[id], outcomes + NewOutcome(w, s, id))
  {
    HowAReplayChanges(c, w, s, id);
    var added := NewOutcome(w, s, id);
    if added != [] {
      assert Holds(w, s.worker, id) && Current(w, s.worker);
      assert added[0].attempt == w.docs[id].attempt;
      assert outcomes + added == outcomes + [added[0]];
    } else {
      assert outcomes + added == outcomes;
    }
  }

  lemma StepKeepsPace(c: Config, w: World, s: Step, id: nat)
    requires Invariant(c, w) && Enabled(w, s) && id < |w.docs| && !TakesBack(c, w, s, id)
    requires HoldersCurrent(w, id) && Paced(c, w.docs[id])
    ensures id < |Next(c, w, s).docs| && Paced(c, Next(c, w, s).docs[id])
  {
    HowAReplayChanges(c, w, s, id);
    if NewOutcome(w, s, id) != [] {
      assert Holds(w, s.worker, id);
      WritesKeepPace(c, w, s, id);
    }
  }

  lemma StepKeepsHoldersCurrent(c: Config, w: World, s: Step, id: nat)
    requires Invariant(c, w) && Enabled(w, s) && !TakesBack(c, w, s, id) && HoldersCurrent(w, id)
    ensures HoldersCurrent(Next(c, w, s), id)
  {
    forall k | Holds(Next(c, w, s), k, id) ensures Current(Next(c, w, s), k) {
      TrustedHoldersStayCurrent(c, w, s, id, w.workers.Keys, k);
    }
  }

  lemma NewIsOrderly(c: Config, w: World, s: Step, id: nat)
    requires Invariant(c, w) && Enabled(w, s) && |w.docs| <= id < |Next(c, w, s).docs|
    ensures Orderly(Next(c, w, s).docs[id], []) && Paced(c, Next(c, w, s).docs[id])
  {
  }

  /**
   A replay whose lease is never taken back: its holder is always current, its outcomes are retryable failures and then
   at most one final outcome, and its claims keep the doubling delays.
   */
  lemma {:induction false} UnreclaimedReplaysAreOrderly(c: Config, start: int, steps: seq<Step>, id: nat)
    requires Legal(c, start, steps) && Reclaims(c, start, steps, id) == 0
    ensures var w := After(c, start, steps);
            && HoldersCurrent(w, id)
            && (id < |w.docs| ==> Orderly(w.docs[id], Outcomes(c, start, steps, id)) && Paced(c, w.docs[id]))
            && (id >= |w.docs| ==> Outcomes(c, start, steps, id) == [])
  {
    if steps != [] {
      var before, last := steps[..|steps| - 1], steps[|steps| - 1];
      var w := After(c, start, before);
      UnreclaimedReplaysAreOrderly(c, start, before, id);
      RunsKeepInvariant(c, start, before);
      StepKeepsHoldersCurrent(c, w, last, id);
      if id < |w.docs| {
        StepKeepsOrder(c, w, last, id, Outcomes(c, start, before, id));
        StepKeepsPace(c, w, last, id);
      } else {
        NothingOfTheUnborn(c, w, last, id);
        if id < |Next(c, w, last).docs| {
          NewIsOrderly(c, w, last, id);
        }
      }
    }
  }

  /** A replay given up after its retries ran out was claimed exactly `maxAttempts` times, and at least once. */
  lemma ExhaustedMeansAllAttemptsUsed(c: Config, start: int, steps: seq<Step>, id: nat)
    requires Legal(c, start, steps) && Reclaims(c, start, steps, id) == 0
    requires var outcomes := Outcomes(c, start, steps, id); outcomes != [] && outcomes[|outcomes| - 1].kind == Exhausted
    ensures id < |After(c, start, steps).docs|
    ensures After(c, start, steps).docs[id].attempt == Max(1, c.maxRetries + 1)
  {
    UnreclaimedReplaysAreOrderly(c, start, steps, id);
    RunsKeepInvariant(c, start, steps);
    var outcomes := Outcomes(c, start, steps, id);
    if |outcomes| > 1 {
      assert outcomes[|outcomes| - 2].kind == Retried;
    }
  }

  // ---- why writes must be in time ----

  lemma Extend(c: Config, start: int, steps: seq<Step>, s: Step)
    requires Legal(c, start, steps) && Enabled(After(c, start, steps), s)
    ensures Legal(c, start, steps + [s]) && After(c, start, steps + [s]) == Next(c, After(c, start, steps), s)
  {
    assert (steps + [s])[..|steps|] == steps;
  }

  /** The world after worker `k` has started a claim and taken expired leases back, with nothing in between. */
  function ClaimStarted(c: Config, w: World, k: nat): World
    requires PhaseOf(w, k).Idle?
  {
    Next(c, Next(c, w, StartClaim(k)), Sweep(k))
  }

  lemma ClaimUndisturbed(c: Config, start: int, steps: seq<Step>, k: nat, id: nat) returns (more: seq<Step>)
    requires Legal(c, start, steps) && PhaseOf(After(c, start, steps), k).Idle?
    requires Enabled(ClaimStarted(c, After(c, start, steps), k), Take(k, id))
    ensures Legal(c, start, more) && steps <= more
    ensures After(c, start, more) == Next(c, ClaimStarted(c, After(c, start, steps), k), Take(k, id))
  {
    hide Next, Legal, After;
    Extend(c, start, steps, StartClaim(k));
    more := steps + [StartClaim(k)];
    StartedIsClaiming(c, After(c, start, steps), k);
    Extend(c, start, more, Sweep(k));
    more := more + [Sweep(k)];
    Extend(c, start, more, Take(k, id));
    more := more + [Take(k, id)];
  }

  lemma StartedIsClaiming(c: Config, w: World, k: nat)
    requires PhaseOf(w, k).Idle?
    ensures Enabled(Next(c, w, StartClaim(k)), Sweep(k))
  {
  }

  /**
   In any run, a step changes the state of a finished replay exactly when it is the write of a worker still holding that
   replay and the outcome written is another one. Any change at all is a write by such a worker. The replay's lease was
   taken back at least once, and if every earlier write was in time this one is not.
   */
  lemma AResultIsOverwrittenIff(c: Config, start: int, steps: seq<Step>, s: Step, id: nat)
    requires Legal(c, start, steps) && Enabled(After(c, start, steps), s)
    requires id < |After(c, start, steps).docs| && Terminal(After(c, start, steps).docs[id])
    ensures id < |Next(c, After(c, start, steps), s).docs|
    ensures var w := After(c, start, steps);
            var before, after := w.docs[id], Next(c, w, s).docs[id];
            && (after.state != before.state <==>
                  || (s.Finish? && Holds(w, s.worker, id)
                      && StateOf(KindOf(PhaseOf(w, s.worker).snapshot, s.attempt)) != before.state)
                  || (s.Abandon? && Holds(w, s.worker, id) && before.state == Success))
            && (after != before ==> (s.Finish? || s.Abandon?) && Holds(w, s.worker, id))
            && (after != before ==> Reclaims(c, start, steps, id) >= 1)
            && (after != before && Punctual(c, start, steps) ==> !Live(c, w, s.worker))
  {
    var w := After(c, start, steps);
    RunsKeepInvariant(c, start, steps);
    HowAReplayChanges(c, w, s, id);
    if Reclaims(c, start, steps, id) == 0 {
      UnreclaimedReplaysAreOrderly(c, start, steps, id);
    }
    if Punctual(c, start, steps) {
      PunctualRunsKeepLiveCurrent(c, start, steps);
    }
  }

  /** Of those steps, the ones that put the replay back in the queue are the finishes that may be retried. */
  lemma AResultIsReopenedIff(c: Config, start: int, steps: seq<Step>, s: Step, id: nat)
    requires Legal(c, start, steps) && Enabled(After(c, start, steps), s)
    requires id < |After(c, start, steps).docs| && Terminal(After(c, start, steps).docs[id])
    ensures id < |Next(c, After(c, start, steps), s).docs|
    ensures var w := After(c, start, steps);
            !Terminal(Next(c, w, s).docs[id]) <==>
              s.Finish? && Holds(w, s.worker, id) && KindOf(PhaseOf(w, s.worker).snapshot, s.attempt) == Retried
  {
    AResultIsOverwrittenIff(c, start, steps, s, id);
    RunsKeepInvariant(c, start, steps);
    HowAReplayChanges(c, After(c, start, steps), s, id);
  }

  /** A run leaves its only replay in state `first`, and the finish of a worker still holding it makes that `last`. */
  ghost predicate Overwrites(c: Config, steps: seq<Step>, late: Step, first: Status, last: Status) {
    && Legal(c, 0, steps) && Legal(c, 0, steps + [late])
    && |After(c, 0, steps).docs| == 1 && After(c, 0, steps).docs[0].state == first
    && late.Finish? && Holds(After(c, 0, steps), late.worker, 0)
    && |After(c, 0, steps + [late]).docs| == 1 && After(c, 0, steps + [late]).docs[0].state == last
  }

  /** Two workers: the first outlives its lease, the second reports, and then the first does. The last write decides. */
  lemma LastWriteDecides(c: Config, request: Request, second: Attempt, first: Attempt)
    returns (steps: seq<Step>, late: Step)
    requires c.leaseTimeout >= 0
    ensures var claimed := NewReplay(request, c, 0);
            Overwrites(c, steps, late, StateOf(KindOf(claimed.(attempt := 2), second)),
                       StateOf(KindOf(claimed.(attempt := 1), first)))
  {
    var t := c.leaseTimeout + 1;
    steps := [];
    Extend(c, 0, steps, Enqueue(request, 0));
    steps := steps + [Enqueue(request, 0)];
    steps := ClaimFirst(c, 0, steps, 1);
    Extend(c, 0, steps, Tick(t));
    steps := steps + [Tick(t)];
    steps := ClaimFirst(c, 0, steps, 2);
    Extend(c, 0, steps, Finish(2, second, t));
    steps := steps + [Finish(2, second, t)];
    late := Finish(1, first, t);
    Extend(c, 0, steps, late);
  }

  const DELIVERED := Attempt(Some(200), map[], "", false, 0, None, false)
  const NOT_FOUND := Attempt(Some(404), map[], "", false, 0, None, false)
  const TIMED_OUT := Attempt(None, map[], "", false, 0, Some("Timed out"), true)

  /** Under every configuration a late failure can replace a success and a late success a failure. */
  lemma LateWritesReplaceResults(c: Config, request: Request)
    requires c.leaseTimeout >= 0
    ensures exists steps, late :: Overwrites(c, steps, late, Success, Failure)
    ensures exists steps, late :: Overwrites(c, steps, late, Failure, Success)
  {
    hide Overwrites;
    var steps, late := LastWriteDecides(c, request, DELIVERED, NOT_FOUND);
    steps, late := LastWriteDecides(c, request, NOT_FOUND, DELIVERED);
  }

  /** Under every configuration that retries, a late timeout puts a delivered replay back in the queue. */
  lemma LateWriteUndoesASuccess(c: Config, request: Request) returns (steps: seq<Step>, late: Step)
    requires c.maxRetries >= 1 && c.leaseTimeout >= 0
    ensures Overwrites(c, steps, late, Success, Pending)
  {
    hide Overwrites;
    steps, late := LastWriteDecides(c, request, DELIVERED, TIMED_OUT);
  }

  /** An idle worker claims the only replay, undisturbed. */
  lemma ClaimFirst(c: Config, start: int, steps: seq<Step>, k: nat) returns (more: seq<Step>)
    requires Legal(c, start, steps)
    requires var w := After(c, start, steps);
             && |w.docs| == 1 && PhaseOf(w, k).Idle?
             && w.docs[0].nextAttemptAt <= w.clock
             && (w.docs[0].state == Pending || LeaseExpired(w.docs[0], c, w.clock))
    ensures Legal(c, start, more)
    ensures var w, after := After(c, start, steps), After(c, start, more);
            && after.clock == w.clock && after.docs == [Leased(w.docs[0], w.clock)]
            && after.workers == w.workers[k := Holding(0, Leased(w.docs[0], w.clock))]
  {
    var w := After(c, start, steps);
    assert ReclaimAll(w.docs, c, w.clock) == [Reclaim(w.docs[0], c, w.clock)];
    assert Leased(Reclaim(w.docs[0], c, w.clock), w.clock) == Leased(w.docs[0], w.clock);
    more := ClaimUndisturbed(c, start, steps, k, 0);
  }
}
