/**
 Any number of workers on one replay queue. Every database call is one step; a claim is two of them; a worker may crash
 anywhere, be slow anywhere, and write long after its lease was taken back. Runs start from an empty queue.
 */
module ReplayProtocol {
  import opened Prelude
  import opened Replays

  /** `Claiming` has read the clock, `Swept` has taken expired leases back, `Holding` has a replay. */
  datatype Phase =
    | Idle
    | Claiming(now: int)
    | Swept(now: int)
    | Holding(id: nat, snapshot: Replay)

  datatype World = World(clock: int, docs: Docs, workers: map<nat, Phase>)

  datatype Step =
    | Tick(to: int)
    | Enqueue(request: Request, at: int)
    | StartClaim(worker: nat)
    | Sweep(worker: nat)
    | Take(worker: nat, id: nat)
    | TakeNothing(worker: nat)
    | Finish(worker: nat, attempt: Attempt, at: int)
    | Abandon(worker: nat, reason: string, at: int)
    | Crash(worker: nat)

  function PhaseOf(w: World, k: nat): Phase {
    if k in w.workers then w.workers[k] else Idle
  }

  predicate Holds(w: World, k: nat, id: nat) {
    PhaseOf(w, k).Holding? && PhaseOf(w, k).id == id
  }

  /** The clock a worker reads for its write is not behind the one it read for its claim. */
  predicate WriteTime(w: World, k: nat, at: int) {
    && PhaseOf(w, k).Holding?
    && PhaseOf(w, k).snapshot.leasedAt.Some?
    && PhaseOf(w, k).snapshot.leasedAt.value <= at <= w.clock
  }

  predicate Enabled(w: World, s: Step) {
    match s
    case Tick(to) => w.clock <= to
    case Enqueue(_, at) => at <= w.clock
    case StartClaim(k) => PhaseOf(w, k).Idle?
    case Sweep(k) => PhaseOf(w, k).Claiming?
    case Take(k, id) => PhaseOf(w, k).Swept? && EarliestDue(w.docs, PhaseOf(w, k).now, id)
    case TakeNothing(k) => PhaseOf(w, k).Swept? && NothingDue(w.docs, PhaseOf(w, k).now)
    case Finish(k, _, at) => WriteTime(w, k, at)
    case Abandon(k, _, at) => WriteTime(w, k, at)
    case Crash(k) => true
  }

  function Next(c: Config, w: World, s: Step): World
    requires Enabled(w, s)
  {
    match s
    case Tick(to) => w.(clock := to)
    case Enqueue(request, at) => w.(docs := w.docs + [NewReplay(request, c, at)])
    case StartClaim(k) => w.(workers := w.workers[k := Claiming(w.clock)])
    case Sweep(k) =>
      var now := PhaseOf(w, k).now;
      w.(docs := ReclaimAll(w.docs, c, now), workers := w.workers[k := Swept(now)])
    case Take(k, id) =>
      var leased := Leased(w.docs[id], PhaseOf(w, k).now);
      w.(docs := w.docs[id := leased], workers := w.workers[k := Holding(id, leased)])
    case TakeNothing(k) => w.(workers := w.workers[k := Idle])
    case Finish(k, a, at) =>
      var Holding(id, snapshot) := PhaseOf(w, k);
      w.(docs := if id < |w.docs| then w.docs[id := Finished(w.docs[id], snapshot, a, c, at)] else w.docs,
         workers := w.workers[k := Idle])
    case Abandon(k, reason, at) =>
      var id := PhaseOf(w, k).id;
      w.(docs := if id < |w.docs| then w.docs[id := Abandoned(w.docs[id], reason, at)] else w.docs,
         workers := w.workers[k := Idle])
    case Crash(k) => w.(workers := w.workers[k := Idle])
  }

  ghost predicate Legal(c: Config, start: int, steps: seq<Step>)
    decreases |steps|, 0
  {
    steps == [] ||
    (Legal(c, start, steps[..|steps| - 1]) && Enabled(After(c, start, steps[..|steps| - 1]), steps[|steps| - 1]))
  }

  ghost function After(c: Config, start: int, steps: seq<Step>): World
    requires Legal(c, start, steps)
    decreases |steps|, 1
  {
    if steps == [] then World(start, [], map[])
    else Next(c, After(c, start, steps[..|steps| - 1]), steps[|steps| - 1])
  }

  // ---- what every step keeps ----

  /** A worker's copy is of a stored replay, from a claim that replay has counted. */
  ghost predicate SnapshotOk(w: World, k: nat) {
    PhaseOf(w, k).Holding? ==>
      var Holding(id, snapshot) := PhaseOf(w, k);
      && id < |w.docs|
      && 1 <= snapshot.attempt <= w.docs[id].attempt
      && snapshot.maxAttempts == w.docs[id].maxAttempts
      && snapshot.leasedAt.Some?
  }

  ghost predicate ClockOk(w: World, k: nat) {
    match PhaseOf(w, k)
    case Claiming(now) => now <= w.clock
    case Swept(now) => now <= w.clock
    case _ => true
  }

  ghost predicate DocsOk(c: Config, docs: Docs) {
    && LeasedWhenDue(docs)
    && (forall i :: 0 <= i < |docs| ==> docs[i].maxAttempts == c.maxRetries + 1)
    && (forall i :: 0 <= i < |docs| && docs[i].state == Running ==> docs[i].attempt >= 1)
  }

  /** No two workers hold the same claim of a replay. */
  ghost predicate ClaimsDiffer(w: World) {
    forall k, l, id :: k != l && Holds(w, k, id) && Holds(w, l, id) ==>
      PhaseOf(w, k).snapshot.attempt != PhaseOf(w, l).snapshot.attempt
  }

  ghost predicate Invariant(c: Config, w: World) {
    && DocsOk(c, w.docs) && ClaimsDiffer(w)
    && forall k :: SnapshotOk(w, k) && ClockOk(w, k)
  }

  lemma StepKeepsDocs(c: Config, w: World, s: Step)
    requires Invariant(c, w) && Enabled(w, s)
    ensures DocsOk(c, Next(c, w, s).docs)
  {
    hide ClaimsDiffer, ClockOk, SnapshotOk;
  }

  lemma StepKeepsSnapshots(c: Config, w: World, s: Step, k: nat)
    requires Invariant(c, w) && Enabled(w, s)
    ensures SnapshotOk(Next(c, w, s), k) && ClockOk(Next(c, w, s), k)
  {
    hide ClaimsDiffer, DocsOk;
    assert SnapshotOk(w, k) && ClockOk(w, k);
  }

  lemma StepKeepsClaims(c: Config, w: World, s: Step)
    requires Invariant(c, w) && Enabled(w, s)
    ensures ClaimsDiffer(Next(c, w, s))
  {
    hide DocsOk, ClockOk, Finished, Abandoned, ReclaimAll, NewReplay;
    var after := Next(c, w, s);
    forall k, l, id | k != l && Holds(after, k, id) && Holds(after, l, id)
      ensures PhaseOf(after, k).snapshot.attempt != PhaseOf(after, l).snapshot.attempt
    {
      assert SnapshotOk(w, k) && SnapshotOk(w, l);
      assert Holds(w, k, id) || s == Take(k, id);
      assert Holds(w, l, id) || s == Take(l, id);
    }
  }

  lemma StepKeepsInvariant(c: Config, w: World, s: Step)
    requires Invariant(c, w) && Enabled(w, s)
    ensures Invariant(c, Next(c, w, s))
  {
    StepKeepsDocs(c, w, s);
    StepKeepsClaims(c, w, s);
    forall k ensures SnapshotOk(Next(c, w, s), k) && ClockOk(Next(c, w, s), k) {
      StepKeepsSnapshots(c, w, s, k);
    }
  }

  lemma {:induction false} RunsKeepInvariant(c: Config, start: int, steps: seq<Step>)
    requires Legal(c, start, steps)
    ensures Invariant(c, After(c, start, steps))
  {
    if steps != [] {
      RunsKeepInvariant(c, start, steps[..|steps| - 1]);
      StepKeepsInvariant(c, After(c, start, steps[..|steps| - 1]), steps[|steps| - 1]);
    }
  }

  // ---- the history of one replay ----

  datatype Outcome = Outcome(attempt: nat, kind: Kind)

  /** The outcome this step writes to replay `id`, if it writes one. */
  function NewOutcome(w: World, s: Step, id: nat): seq<Outcome> {
    match s
    case Finish(k, a, _) =>
      if Holds(w, k, id) then [Outcome(PhaseOf(w, k).snapshot.attempt, KindOf(PhaseOf(w, k).snapshot, a))] else []
    case Abandon(k, _, _) =>
      if Holds(w, k, id) then [Outcome(PhaseOf(w, k).snapshot.attempt, Dropped)] else []
    case _ => []
  }

  predicate TakesBack(c: Config, w: World, s: Step, id: nat) {
    && s.Sweep? && PhaseOf(w, s.worker).Claiming? && id < |w.docs|
    && LeaseExpired(w.docs[id], c, PhaseOf(w, s.worker).now)
  }

  ghost function Outcomes(c: Config, start: int, steps: seq<Step>, id: nat): seq<Outcome>
    requires Legal(c, start, steps)
  {
    if steps == [] then []
    else
      var before := steps[..|steps| - 1];
      Outcomes(c, start, before, id) + NewOutcome(After(c, start, before), steps[|steps| - 1], id)
  }

  /** How many times the lease of replay `id` was taken back. */
  ghost function Reclaims(c: Config, start: int, steps: seq<Step>, id: nat): nat
    requires Legal(c, start, steps)
  {
    if steps == [] then 0
    else
      var before := steps[..|steps| - 1];
      Reclaims(c, start, before, id)
      + if TakesBack(c, After(c, start, before), steps[|steps| - 1], id) then 1 else 0
  }

  function Retries(outcomes: seq<Outcome>): nat {
    if outcomes == [] then 0
    else Retries(outcomes[..|outcomes| - 1]) + if outcomes[|outcomes| - 1].kind == Retried then 1 else 0
  }

  ghost predicate DistinctAttempts(outcomes: seq<Outcome>) {
    forall i, j :: 0 <= i < j < |outcomes| ==> outcomes[i].attempt != outcomes[j].attempt
  }

  /** Every claim gets its own number and writes at most once; every return to the queue has been paid for. */
  ghost predicate Ledger(r: Replay, outcomes: seq<Outcome>, reclaims: nat) {
    && DistinctAttempts(outcomes)
    && (forall i :: 0 <= i < |outcomes| ==> 1 <= outcomes[i].attempt <= r.attempt)
    && (forall i :: 0 <= i < |outcomes| && outcomes[i].kind == Retried ==> outcomes[i].attempt < r.maxAttempts)
    && r.attempt + (if r.state == Pending then 1 else 0) <= 1 + Retries(outcomes) + reclaims
  }

  ghost predicate HasWritten(outcomes: seq<Outcome>, attempt: nat) {
    exists i :: 0 <= i < |outcomes| && outcomes[i].attempt == attempt
  }

  lemma LedgerOfWrite(r: Replay, written: Replay, outcomes: seq<Outcome>, reclaims: nat, o: Outcome)
    requires Ledger(r, outcomes, reclaims) && !HasWritten(outcomes, o.attempt) && 1 <= o.attempt <= r.attempt
    requires written.attempt == r.attempt && written.maxAttempts == r.maxAttempts
    requires written.state == Pending <==> o.kind == Retried
    requires o.kind == Retried ==> o.attempt < r.maxAttempts
    ensures Ledger(written, outcomes + [o], reclaims)
  {
    assert (outcomes + [o])[..|outcomes|] == outcomes;
  }

  ghost predicate Accounted(w: World, id: nat, outcomes: seq<Outcome>, reclaims: nat) {
    && (id >= |w.docs| ==> outcomes == [] && reclaims == 0)
    && (id < |w.docs| ==> Ledger(w.docs[id], outcomes, reclaims))
    && forall k :: Holds(w, k, id) ==> !HasWritten(outcomes, PhaseOf(w, k).snapshot.attempt)
  }

  /** The effect of the write of outcome `o`. */
  ghost predicate Wrote(r: Replay, after: Replay, o: Outcome) {
    && after.attempt == r.attempt && after.maxAttempts == r.maxAttempts && after.createdAt == r.createdAt
    && 1 <= o.attempt <= r.attempt
    && (o.kind == Retried ==> o.attempt < r.maxAttempts)
    && (o.kind == Exhausted ==> o.attempt >= r.maxAttempts)
    && after.state == StateOf(o.kind)
  }

  /** A stored replay changes by a write, by losing its lease, by being taken when due, or not at all. */
  ghost predicate Changes(r: Replay, after: Replay, added: seq<Outcome>, takenBack: bool) {
    if added != [] then |added| == 1 && !takenBack && Wrote(r, after, added[0])
    else if takenBack then r.state == Running && after == r.(state := Pending)
    else after == r || (after.leasedAt.Some? && Due(r, after.leasedAt.value) && after == Leased(r, after.leasedAt.value))
  }

  lemma HowAReplayChanges(c: Config, w: World, s: Step, id: nat)
    requires Invariant(c, w) && Enabled(w, s) && id < |w.docs|
    ensures id < |Next(c, w, s).docs|
    ensures Changes(w.docs[id], Next(c, w, s).docs[id], NewOutcome(w, s, id), TakesBack(c, w, s, id))
  {
    if s.Finish? || s.Abandon? {
      assert SnapshotOk(w, s.worker);
    }
  }

  /** A write adds to the ledger, a lost lease earns a return to the queue and being taken spends one. */
  lemma LedgerOfChange(
    r: Replay, after: Replay, added: seq<Outcome>, takenBack: bool, outcomes: seq<Outcome>, reclaims: nat)
    requires Ledger(r, outcomes, reclaims) && Changes(r, after, added, takenBack)
    requires added != [] ==> !HasWritten(outcomes, added[0].attempt)
    ensures Ledger(after, outcomes + added, reclaims + if takenBack then 1 else 0)
  {
    if added != [] {
      assert added == [added[0]];
      LedgerOfWrite(r, after, outcomes, reclaims, added[0]);
    } else {
      assert outcomes + added == outcomes;
    }
  }

  lemma StepKeepsLedger(c: Config, w: World, s: Step, id: nat, outcomes: seq<Outcome>, reclaims: nat)
    requires Invariant(c, w) && Enabled(w, s) && Accounted(w, id, outcomes, reclaims)
    requires id < |w.docs|
    ensures id < |Next(c, w, s).docs|
    ensures Ledger(Next(c, w, s).docs[id], outcomes + NewOutcome(w, s, id),
                   reclaims + if TakesBack(c, w, s, id) then 1 else 0)
  {
    hide Changes, Ledger, Invariant, Enabled, NewOutcome, TakesBack, Next, HasWritten;
    HowAReplayChanges(c, w, s, id);
    NotYetWritten(w, s, id, outcomes, reclaims);
    LedgerOfChange(w.docs[id], Next(c, w, s).docs[id], NewOutcome(w, s, id), TakesBack(c, w, s, id), outcomes, reclaims);
  }

  lemma NotYetWritten(w: World, s: Step, id: nat, outcomes: seq<Outcome>, reclaims: nat)
    requires Accounted(w, id, outcomes, reclaims)
    ensures NewOutcome(w, s, id) != [] ==> !HasWritten(outcomes, NewOutcome(w, s, id)[0].attempt)
  {
  }

  lemma StepWritesOnce(c: Config, w: World, s: Step, id: nat, outcomes: seq<Outcome>, reclaims: nat, k: nat)
    requires Invariant(c, w) && Enabled(w, s) && Accounted(w, id, outcomes, reclaims)
    requires Holds(Next(c, w, s), k, id)
    ensures !HasWritten(outcomes + NewOutcome(w, s, id), PhaseOf(Next(c, w, s), k).snapshot.attempt)
  {
    hide Ledger, Finished, Abandoned, ReclaimAll;
    assert SnapshotOk(w, k);
    assert Holds(w, k, id) || s == Take(k, id);
    if NewOutcome(w, s, id) != [] {
      assert Holds(w, s.worker, id) && k != s.worker;
    }
    if s == Take(k, id) && id < |w.docs| {
      assert Ledger(w.docs[id], outcomes, reclaims);
      LedgerNumbers(w.docs[id], outcomes, reclaims);
    }
  }

  lemma LedgerNumbers(r: Replay, outcomes: seq<Outcome>, reclaims: nat)
    requires Ledger(r, outcomes, reclaims)
    ensures forall i :: 0 <= i < |outcomes| ==> outcomes[i].attempt <= r.attempt
  {
  }

  lemma StepKeepsAccounts(c: Config, w: World, s: Step, id: nat, outcomes: seq<Outcome>, reclaims: nat)
    requires Invariant(c, w) && Enabled(w, s) && Accounted(w, id, outcomes, reclaims)
    ensures Accounted(Next(c, w, s), id, outcomes + NewOutcome(w, s, id),
                      reclaims + if TakesBack(c, w, s, id) then 1 else 0)
  {
    var after := Next(c, w, s);
    forall k | Holds(after, k, id)
      ensures !HasWritten(outcomes + NewOutcome(w, s, id), PhaseOf(after, k).snapshot.attempt)
    {
      StepWritesOnce(c, w, s, id, outcomes, reclaims, k);
    }
    if id < |w.docs| {
      StepKeepsLedger(c, w, s, id, outcomes, reclaims);
    } else {
      NothingOfTheUnborn(c, w, s, id);
    }
  }

  /** A replay not yet stored has no outcome and no lease; stored now, it is new. */
  lemma NothingOfTheUnborn(c: Config, w: World, s: Step, id: nat)
    requires Invariant(c, w) && Enabled(w, s) && id >= |w.docs|
    ensures NewOutcome(w, s, id) == [] && !TakesBack(c, w, s, id)
    ensures id < |Next(c, w, s).docs| ==> Ledger(Next(c, w, s).docs[id], [], 0)
  {
    if s.Finish? || s.Abandon? {
      assert SnapshotOk(w, s.worker);
    }
  }

  lemma {:induction false} RunsAreAccounted(c: Config, start: int, steps: seq<Step>, id: nat)
    requires Legal(c, start, steps)
    ensures Accounted(After(c, start, steps), id, Outcomes(c, start, steps, id), Reclaims(c, start, steps, id))
  {
    if steps != [] {
      var before := steps[..|steps| - 1];
      RunsAreAccounted(c, start, before, id);
      RunsKeepInvariant(c, start, before);
      StepKeepsAccounts(c, After(c, start, before), steps[|steps| - 1], id,
                        Outcomes(c, start, before, id), Reclaims(c, start, before, id));
    }
  }

  // ---- the bounds ----

  /** The attempt numbers of the retry writes. */
  ghost function RetriedAttempts(outcomes: seq<Outcome>): set<nat> {
    if outcomes == [] then {}
    else
      var last := outcomes[|outcomes| - 1];
      RetriedAttempts(outcomes[..|outcomes| - 1]) + if last.kind == Retried then {last.attempt} else {}
  }

  ghost predicate RetriedAt(outcomes: seq<Outcome>, attempt: nat) {
    exists i :: 0 <= i < |outcomes| && outcomes[i].attempt == attempt && outcomes[i].kind == Retried
  }

  lemma {:induction false} RetriesAreDistinct(outcomes: seq<Outcome>)
    requires DistinctAttempts(outcomes)
    ensures Retries(outcomes) == |RetriedAttempts(outcomes)|
    ensures forall n :: n in RetriedAttempts(outcomes) ==> RetriedAt(outcomes, n)
  {
    if outcomes != [] {
      var before, last := outcomes[..|outcomes| - 1], outcomes[|outcomes| - 1];
      RetriesAreDistinct(before);
      forall n | n in RetriedAttempts(before) ensures RetriedAt(outcomes, n) && n != last.attempt {
        var i :| 0 <= i < |before| && before[i].attempt == n && before[i].kind == Retried;
        assert outcomes[i] == before[i];
      }
    }
  }

  lemma {:induction false} NumbersBelow(s: set<nat>, bound: nat)
    requires forall n :: n in s ==> 1 <= n <= bound
    ensures |s| <= bound
  {
    if bound > 0 {
      NumbersBelow(s - {bound}, bound - 1);
    } else {
      assert s == {};
    }
  }

  /**
   In every run, however late and from whomever the writes come: at most `maxAttempts - 1` retry writes ever happen, and
   a replay is claimed at most `maxAttempts` times (at least once) and once more for each lease taken back.
   */
  lemma AttemptsAreBounded(c: Config, start: int, steps: seq<Step>, id: nat)
    requires Legal(c, start, steps) && id < |After(c, start, steps).docs|
    ensures var r, max := After(c, start, steps).docs[id], c.maxRetries + 1;
            && Retries(Outcomes(c, start, steps, id)) <= Max(0, max - 1)
            && r.attempt <= Max(1, max) + Reclaims(c, start, steps, id)
            && DistinctAttempts(Outcomes(c, start, steps, id))
  {
    var outcomes := Outcomes(c, start, steps, id);
    RunsAreAccounted(c, start, steps, id);
    RunsKeepInvariant(c, start, steps);
    RetriesAreDistinct(outcomes);
    NumbersBelow(RetriedAttempts(outcomes), Max(0, c.maxRetries));
  }

  // ---- the work of a whole run ----

  /** How many claims of a run came back with a replay. */
  function Takes(steps: seq<Step>): nat {
    if steps == [] then 0 else Takes(steps[..|steps| - 1]) + if steps[|steps| - 1].Take? then 1 else 0
  }

  function AllAttempts(docs: Docs): nat {
    if docs == [] then 0 else AllAttempts(docs[..|docs| - 1]) + docs[|docs| - 1].attempt
  }

  /** Leases taken back, over the first `n` replays. */
  ghost function AllReclaims(c: Config, start: int, steps: seq<Step>, n: nat): nat
    requires Legal(c, start, steps)
  {
    if n == 0 then 0 else AllReclaims(c, start, steps, n - 1) + Reclaims(c, start, steps, n - 1)
  }

  lemma {:induction false} AttemptsOfSame(a: Docs, b: Docs)
    requires |a| == |b| && forall i :: 0 <= i < |a| ==> a[i].attempt == b[i].attempt
    ensures AllAttempts(a) == AllAttempts(b)
  {
    if a != [] {
      AttemptsOfSame(a[..|a| - 1], b[..|b| - 1]);
    }
  }

  lemma {:induction false} AttemptsWithOneMore(docs: Docs, id: nat, r: Replay)
    requires id < |docs| && r.attempt == docs[id].attempt + 1
    ensures AllAttempts(docs[id := r]) == AllAttempts(docs) + 1
  {
    var n := |docs| - 1;
    if id < n {
      assert docs[id := r][..n] == docs[..n][id := r];
      AttemptsWithOneMore(docs[..n], id, r);
    } else {
      assert docs[id := r][..n] == docs[..n];
    }
  }

  lemma {:induction false} TakesAreAttempts(c: Config, start: int, steps: seq<Step>)
    requires Legal(c, start, steps)
    ensures Takes(steps) == AllAttempts(After(c, start, steps).docs)
  {
    if steps != [] {
      var before, last := steps[..|steps| - 1], steps[|steps| - 1];
      var w := After(c, start, before);
      TakesAreAttempts(c, start, before);
      if last.Take? {
        AttemptsWithOneMore(w.docs, last.id, Leased(w.docs[last.id], PhaseOf(w, last.worker).now));
      } else if last.Enqueue? {
        assert Next(c, w, last).docs[..|w.docs|] == w.docs;
      } else {
        AttemptsOfSame(Next(c, w, last).docs, w.docs);
      }
    }
  }

  lemma {:induction false} AttemptsUpTo(c: Config, start: int, steps: seq<Step>, n: nat)
    requires Legal(c, start, steps) && n <= |After(c, start, steps).docs|
    ensures AllAttempts(After(c, start, steps).docs[..n]) <=
            n * Max(1, c.maxRetries + 1) + AllReclaims(c, start, steps, n)
  {
    if n > 0 {
      hide Max, After, Legal, Reclaims;
      var docs := After(c, start, steps).docs;
      assert docs[..n][..n - 1] == docs[..n - 1];
      AttemptsUpTo(c, start, steps, n - 1);
      AttemptsAreBounded(c, start, steps, n - 1);
      OneMoreTime(n, Max(1, c.maxRetries + 1));
    }
  }

  lemma OneMoreTime(n: int, each: int)
    ensures n * each == (n - 1) * each + each
  {
  }

  /** All workers together take no more replays than the attempts allowed and the leases taken back. */
  lemma WorkIsBounded(c: Config, start: int, steps: seq<Step>)
    requires Legal(c, start, steps)
    ensures var n := |After(c, start, steps).docs|;
            Takes(steps) <= n * Max(1, c.maxRetries + 1) + AllReclaims(c, start, steps, n)
  {
    var docs := After(c, start, steps).docs;
    assert docs[..|docs|] == docs;
    TakesAreAttempts(c, start, steps);
    AttemptsUpTo(c, start, steps, |docs|);
  }
}
