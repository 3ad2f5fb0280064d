/**
 What the token bucket promises over whole runs of calls: it is exactly the greedy window regulator, dropping idle
 buckets never shows, the table stays bounded, and a denied caller is told the right number of seconds.
 */
module RateLimitLaws {
  import opened RateLimit

  datatype Call = Call(key: string, now: real)

  ghost predicate Ordered(calls: seq<Call>) {
    forall i, j :: 0 <= i < j < |calls| ==> calls[i].now <= calls[j].now
  }

  ghost predicate Until(calls: seq<Call>, t: real) {
    Ordered(calls) && forall i :: 0 <= i < |calls| ==> calls[i].now <= t
  }

  ghost function StateFrom(p: Params, s: State, calls: seq<Call>): State {
    if calls == [] then s
    else Step(p, StateFrom(p, s, calls[..|calls| - 1]), calls[|calls| - 1].key, calls[|calls| - 1].now).0
  }

  ghost function StateAfter(p: Params, calls: seq<Call>): State {
    StateFrom(p, EMPTY, calls)
  }

  /** The answer to a call made after the calls in `calls`. */
  ghost predicate Answer(p: Params, calls: seq<Call>, key: string, now: real) {
    Step(p, StateAfter(p, calls), key, now).1
  }

  /** The times at which requests of `key` were let through, in order. */
  ghost function Admitted(p: Params, calls: seq<Call>, key: string): seq<real> {
    if calls == [] then []
    else
      var before, last := calls[..|calls| - 1], calls[|calls| - 1];
      Admitted(p, before, key) + if last.key == key && Answer(p, before, key, last.now) then [last.now] else []
  }

  // ---- arithmetic ----

  lemma CappedTwice(c: real, x: real, a: real, d: real, r: real)
    requires d >= 0.0 && r >= 0.0
    ensures MinReal(c, MinReal(c, x + a * r) + d * r) == MinReal(c, x + (a + d) * r)
  {
    assert (a + d) * r == a * r + d * r;
    assert d * r >= 0.0;
  }

  lemma RefillTwice(p: Params, b: Level, u: real, t: real)
    requires p.perMinute > 0 && u <= t
    ensures Refill(p, Level(Refill(p, b, u), u), t) == Refill(p, b, t)
  {
    CappedTwice(p.Capacity(), b.tokens, u - b.updated, t - u, p.Rate());
    assert u - b.updated + (t - u) == t - b.updated;
  }

  lemma IdleIsFull(p: Params, b: Level, t: real)
    requires p.perMinute > 0 && b.tokens >= 0.0 && t - b.updated >= 60.0
    ensures Refill(p, b, t) == p.Capacity()
  {
    var d, r := t - b.updated - 60.0, p.Rate();
    assert (60.0 + d) * r == 60.0 * r + d * r;
    assert d * r >= 0.0;
  }

  // ---- what a key has at a moment, whether or not its bucket is stored ----

  ghost function LevelAt(p: Params, s: State, key: string, t: real): real {
    if key in s.buckets then Refill(p, s.buckets[key], t) else p.Capacity()
  }

  /** What is left a time `elapsed` after paying one token out of `tokens`. */
  ghost function Spend(p: Params, tokens: real, elapsed: real): real {
    MinReal(p.Capacity(), tokens - 1.0 + elapsed * p.Rate())
  }

  ghost predicate Sane(p: Params, s: State, t: real) {
    forall k :: k in s.buckets ==> 0.0 <= s.buckets[k].tokens <= p.Capacity() && s.buckets[k].updated <= t
  }

  lemma PruneKeepsLevels(p: Params, s: State, now: real, key: string, t: real)
    requires p.enabled && p.perMinute > 0 && Sane(p, s, now) && now <= t
    ensures Sane(p, Pruned(p, s, now), now)
    ensures LevelAt(p, Pruned(p, s, now), key, t) == LevelAt(p, s, key, t)
  {
    IdleLimitIsAMinute(p);
    if key in s.buckets && key !in Pruned(p, s, now).buckets {
      IdleIsFull(p, s.buckets[key], t);
    }
  }

  lemma DrawKeepsBounds(p: Params, b: Level, now: real)
    requires p.perMinute > 0 && 0.0 <= b.tokens <= p.Capacity() && b.updated <= now
    ensures 0.0 <= Draw(p, b, now).0.tokens <= p.Capacity() && Draw(p, b, now).0.updated == now
  {
    assert (now - b.updated) * p.Rate() >= 0.0;
  }

  /** The effect of one call on what every key has, read off without looking at the table. */
  lemma StepLevels(p: Params, s: State, key: string, now: real, other: string, t: real)
    requires p.enabled && p.perMinute > 0 && Sane(p, s, now) && now <= t
    ensures Sane(p, Step(p, s, key, now).0, now)
    ensures Step(p, s, key, now).1 <==> LevelAt(p, s, key, now) >= 1.0
    ensures LevelAt(p, Step(p, s, key, now).0, other, t) ==
            if other == key && Step(p, s, key, now).1
            then Spend(p, LevelAt(p, s, key, now), t - now)
            else LevelAt(p, s, other, t)
  {
    hide Refill, Draw, Spend;
    PruneKeepsLevels(p, s, now, key, now);
    PruneKeepsLevels(p, s, now, other, t);
    var swept := Pruned(p, s, now);
    var bucket := if key in swept.buckets then swept.buckets[key] else Level(p.Capacity(), now);
    DrawLevels(p, bucket, now, t);
    FreshIsFull(p, now, now);
    FreshIsFull(p, now, t);
  }

  /** A drawn bucket holds what refilling leaves, less the token if one was taken. */
  lemma DrawLevels(p: Params, b: Level, now: real, t: real)
    requires p.perMinute > 0 && 0.0 <= b.tokens <= p.Capacity() && b.updated <= now <= t
    ensures var (drawn, ok) := Draw(p, b, now);
            && 0.0 <= drawn.tokens <= p.Capacity() && drawn.updated == now
            && (ok <==> Refill(p, b, now) >= 1.0)
            && Refill(p, drawn, t) ==
               if ok then Spend(p, Refill(p, b, now), t - now) else Refill(p, b, t)
  {
    DrawKeepsBounds(p, b, now);
    RefillTwice(p, b, now, t);
  }

  lemma FreshIsFull(p: Params, now: real, t: real)
    requires p.perMinute > 0 && now <= t
    ensures Refill(p, Level(p.Capacity(), now), t) == p.Capacity()
  {
    assert (t - now) * p.Rate() >= 0.0;
  }

  lemma {:induction false} RunsStaySane(p: Params, calls: seq<Call>, t: real)
    requires p.enabled && p.perMinute > 0 && Until(calls, t)
    ensures Sane(p, StateAfter(p, calls), t)
  {
    if calls != [] {
      var before, last := calls[..|calls| - 1], calls[|calls| - 1];
      RunsStaySane(p, before, last.now);
      StepLevels(p, StateAfter(p, before), last.key, last.now, last.key, last.now);
    }
  }

  // ---- the greedy window regulator ----

  /** What is left at `t` of a full bucket that paid one token at each time in `spent`. */
  ghost function Balance(p: Params, spent: seq<real>, t: real): real {
    if spent == [] then p.Capacity()
    else
      var last := spent[|spent| - 1];
      Spend(p, Balance(p, spent[..|spent| - 1], last), t - last)
  }

  lemma {:induction false} LevelIsBalance(p: Params, calls: seq<Call>, key: string, t: real)
    requires p.enabled && p.perMinute > 0 && Until(calls, t)
    ensures LevelAt(p, StateAfter(p, calls), key, t) == Balance(p, Admitted(p, calls, key), t)
  {
    hide Refill, Draw, Step, Spend;
    if calls != [] {
      var before, last := calls[..|calls| - 1], calls[|calls| - 1];
      RunsStaySane(p, before, last.now);
      StepLevels(p, StateAfter(p, before), last.key, last.now, key, t);
      LevelIsBalance(p, before, key, last.now);
      LevelIsBalance(p, before, key, t);
      var spent := Admitted(p, before, key);
      assert StateAfter(p, calls) == Step(p, StateAfter(p, before), last.key, last.now).0;
      if last.key == key && Answer(p, before, key, last.now) {
        assert (spent + [last.now])[..|spent|] == spent;
        assert Admitted(p, calls, key) == spent + [last.now];
      } else {
        assert Admitted(p, calls, key) == spent;
      }
    }
  }

  /** The window from time `start` on, charged `count` tokens, can still give `x` at time `t`. */
  ghost predicate CanGive(p: Params, x: real, count: int, start: real, t: real) {
    x + count as real <= p.perMinute as real + (t - start) * (p.perMinute as real / 60.0)
  }

  ghost function Before(p: Params, x: real, elapsed: real): real {
    x + 1.0 - elapsed * p.Rate()
  }

  lemma SpendLeaves(p: Params, tokens: real, elapsed: real, x: real)
    ensures Spend(p, tokens, elapsed) >= x <==> x <= p.Capacity() && tokens >= Before(p, x, elapsed)
  {
  }

  lemma CanGiveEarlier(p: Params, x: real, count: int, start: real, mid: real, t: real)
    ensures CanGive(p, Before(p, x, t - mid), count, start, mid) <==> CanGive(p, x, count + 1, start, t)
  {
    assert (t - start) * p.Rate() == (t - mid) * p.Rate() + (mid - start) * p.Rate();
  }

  lemma CanGiveNow(p: Params, x: real, mid: real, t: real)
    ensures Before(p, x, t - mid) <= p.Capacity() <==> CanGive(p, x, 1, mid, t)
  {
  }

  /** `x` tokens are left iff no window that ends at `t` has been charged too much to leave them. */
  lemma {:induction false} BalanceIsEveryWindow(p: Params, spent: seq<real>, t: real, x: real)
    ensures Balance(p, spent, t) >= x <==>
            x <= p.perMinute as real && forall i :: 0 <= i < |spent| ==> CanGive(p, x, |spent| - i, spent[i], t)
  {
    hide Spend, CanGive, Before;
    if spent != [] {
      var n := |spent| - 1;
      var before, last := spent[..n], spent[n];
      var y := Before(p, x, t - last);
      BalanceIsEveryWindow(p, before, last, y);
      SpendLeaves(p, Balance(p, before, last), t - last, x);
      CanGiveNow(p, x, last, t);
      forall i | 0 <= i < n
        ensures CanGive(p, y, n - i, before[i], last) <==> CanGive(p, x, n + 1 - i, spent[i], t)
      {
        CanGiveEarlier(p, x, n - i, spent[i], last, t);
      }
    }
  }

  /** A window from `start` to `now` may hold `count` admissions: what a minute allows and what it refilled. */
  ghost predicate Fits(p: Params, count: int, start: real, now: real) {
    count as real <= p.perMinute as real + (now - start) * (p.perMinute as real / 60.0)
  }

  lemma FitsOneMore(p: Params, count: int, start: real, now: real)
    ensures CanGive(p, 1.0, count, start, now) <==> Fits(p, count + 1, start, now)
  {
  }

  /** The window rule: with one more request now, every window that ends now still fits. */
  ghost predicate FitsEveryWindow(p: Params, spent: seq<real>, now: real) {
    forall i :: 0 <= i < |spent| ==> Fits(p, |spent| - i + 1, spent[i], now)
  }

  /** A request is let through iff admitting it overfills no window, judged only by the admissions before it. */
  lemma AllowIsTheWindowRegulator(p: Params, calls: seq<Call>, key: string, now: real)
    requires p.enabled && p.perMinute > 0 && Until(calls, now)
    ensures Answer(p, calls, key, now) <==> FitsEveryWindow(p, Admitted(p, calls, key), now)
  {
    hide Refill, Draw, Step, Balance, CanGive, Fits;
    var spent := Admitted(p, calls, key);
    RunsStaySane(p, calls, now);
    StepLevels(p, StateAfter(p, calls), key, now, key, now);
    LevelIsBalance(p, calls, key, now);
    BalanceIsEveryWindow(p, spent, now, 1.0);
    forall i | 0 <= i < |spent|
      ensures CanGive(p, 1.0, |spent| - i, spent[i], now) <==> Fits(p, |spent| - i + 1, spent[i], now)
    {
      FitsOneMore(p, |spent| - i, spent[i], now);
    }
  }

  /** In any run, a window from one admission to another holds at most capacity plus what it refilled. */
  lemma {:induction false} EveryWindowIsBounded(p: Params, calls: seq<Call>, key: string, i: nat, j: nat)
    requires p.enabled && p.perMinute > 0 && Ordered(calls)
    requires i <= j < |Admitted(p, calls, key)|
    ensures var spent := Admitted(p, calls, key); Fits(p, j - i + 1, spent[i], spent[j])
  {
    hide Refill, Draw, Step, Spend, Fits;
    var before, last := calls[..|calls| - 1], calls[|calls| - 1];
    var earlier := Admitted(p, before, key);
    if j < |earlier| {
      EveryWindowIsBounded(p, before, key, i, j);
    } else {
      AllowIsTheWindowRegulator(p, before, key, last.now);
      if i == j {
        OneAlwaysFits(p, last.now);
      }
    }
  }

  lemma OneAlwaysFits(p: Params, now: real)
    requires p.enabled && p.perMinute > 0
    ensures Fits(p, 1, now, now)
  {
  }

  /** A limiter switched off, or given no positive rate, lets everything through and keeps no table. */
  lemma {:induction false} InactiveAdmitsEverything(p: Params, calls: seq<Call>, key: string, now: real)
    requires !p.enabled || p.perMinute <= 0
    ensures Answer(p, calls, key, now) && StateAfter(p, calls) == EMPTY
  {
    if calls != [] {
      InactiveAdmitsEverything(p, calls[..|calls| - 1], key, now);
    }
  }

  // ---- pruning ----

  /** The same call with no pruning. */
  ghost function PlainStep(p: Params, s: State, key: string, now: real): (State, bool) {
    if !p.enabled || p.perMinute <= 0 then (s, true)
    else
      var bucket := if key in s.buckets then s.buckets[key] else Level(p.Capacity(), now);
      var (drawn, ok) := Draw(p, bucket, now);
      (s.(buckets := s.buckets[key := drawn]), ok)
  }

  ghost function PlainAfter(p: Params, calls: seq<Call>): State {
    if calls == [] then EMPTY
    else PlainStep(p, PlainAfter(p, calls[..|calls| - 1]), calls[|calls| - 1].key, calls[|calls| - 1].now).0
  }

  lemma PlainIsStepUnpruned(p: Params, s: State, key: string, now: real)
    ensures var (plain, step) := (PlainStep(p, s, key, now), Step(p, s.(prunedAt := now), key, now));
            plain.0.buckets == step.0.buckets && plain.1 == step.1
  {
  }

  lemma {:induction false} PlainLevels(p: Params, calls: seq<Call>, key: string, t: real)
    requires p.enabled && p.perMinute > 0 && Until(calls, t)
    ensures Sane(p, PlainAfter(p, calls), t)
    ensures LevelAt(p, PlainAfter(p, calls), key, t) == LevelAt(p, StateAfter(p, calls), key, t)
  {
    hide Refill, Draw, Step, Spend;
    if calls != [] {
      var before, last := calls[..|calls| - 1], calls[|calls| - 1];
      var plain := PlainAfter(p, before).(prunedAt := last.now);
      PlainLevels(p, before, key, last.now);
      PlainLevels(p, before, key, t);
      RunsStaySane(p, before, last.now);
      StepLevels(p, StateAfter(p, before), last.key, last.now, key, t);
      StepLevels(p, plain, last.key, last.now, key, t);
      PlainLevels(p, before, last.key, last.now);
      PlainIsStepUnpruned(p, PlainAfter(p, before), last.key, last.now);
    }
  }

  /** No caller can tell that idle buckets are thrown away. */
  lemma PruningIsInvisible(p: Params, calls: seq<Call>, key: string, now: real)
    requires Until(calls, now)
    ensures Answer(p, calls, key, now) == PlainStep(p, PlainAfter(p, calls), key, now).1
  {
    hide Refill, Draw, Step, Spend;
    if p.enabled && p.perMinute > 0 {
      PlainLevels(p, calls, key, now);
      RunsStaySane(p, calls, now);
      StepLevels(p, StateAfter(p, calls), key, now, key, now);
      StepLevels(p, PlainAfter(p, calls).(prunedAt := now), key, now, key, now);
      PlainIsStepUnpruned(p, PlainAfter(p, calls), key, now);
    } else {
      InactiveAdmitsEverything(p, calls, key, now);
    }
  }

  ghost predicate CalledSince(calls: seq<Call>, key: string, since: real) {
    exists i :: 0 <= i < |calls| && calls[i].key == key && calls[i].now > since
  }

  lemma {:induction false} LastPruneIsRecent(p: Params, calls: seq<Call>)
    requires p.enabled && p.perMinute > 0 && Ordered(calls) && calls != [] && calls[0].now >= 0.0
    ensures 0.0 <= calls[|calls| - 1].now - StateAfter(p, calls).prunedAt < 60.0
  {
    hide Draw;
    var before, last := calls[..|calls| - 1], calls[|calls| - 1];
    if before != [] {
      LastPruneIsRecent(p, before);
    }
    assert StateAfter(p, calls).prunedAt == Pruned(p, StateAfter(p, before), last.now).prunedAt;
  }

  lemma {:induction false} StoredBucketsAreRecent(p: Params, calls: seq<Call>, key: string)
    requires p.enabled && p.perMinute > 0 && Ordered(calls) && (calls != [] ==> calls[0].now >= 0.0)
    requires key in StateAfter(p, calls).buckets
    ensures var s := StateAfter(p, calls);
            && s.buckets[key].updated > s.prunedAt - 60.0
            && calls[|calls| - 1].now - s.prunedAt < 60.0
            && exists i :: 0 <= i < |calls| && calls[i].key == key && calls[i].now == s.buckets[key].updated
  {
    hide Refill;
    var before, last := calls[..|calls| - 1], calls[|calls| - 1];
    IdleLimitIsAMinute(p);
    LastPruneIsRecent(p, calls);
    if key in StateAfter(p, before).buckets {
      StoredBucketsAreRecent(p, before, key);
    }
    if last.key == key {
      assert StateAfter(p, calls).buckets[key].updated == calls[|calls| - 1].now;
    } else if key in StateAfter(p, before).buckets {
      assert StateAfter(p, calls).buckets[key] == StateAfter(p, before).buckets[key];
    }
  }

  /** After every call, each stored bucket belongs to a key that called within the last two minutes. */
  lemma TheTableIsBounded(p: Params, calls: seq<Call>, key: string)
    requires p.enabled && p.perMinute > 0 && Ordered(calls) && (calls != [] ==> calls[0].now >= 0.0)
    requires key in StateAfter(p, calls).buckets
    ensures CalledSince(calls, key, calls[|calls| - 1].now - 120.0)
  {
    StoredBucketsAreRecent(p, calls, key);
  }

  // ---- retry_after ----

  ghost predicate NothingAdmitted(p: Params, s: State, calls: seq<Call>, key: string) {
    forall i :: 0 <= i < |calls| && calls[i].key == key ==>
      !Step(p, StateFrom(p, s, calls[..i]), key, calls[i].now).1
  }

  lemma {:induction false} DenialsChangeNothing(p: Params, s: State, calls: seq<Call>, key: string, from: real, t: real)
    requires p.enabled && p.perMinute > 0 && Sane(p, s, from) && from <= t && Until(calls, t)
    requires calls != [] ==> from <= calls[0].now
    requires NothingAdmitted(p, s, calls, key)
    ensures Sane(p, StateFrom(p, s, calls), t)
    ensures LevelAt(p, StateFrom(p, s, calls), key, t) == LevelAt(p, s, key, t)
  {
    hide Refill, Draw, Step, Spend;
    if calls != [] {
      var before, last := calls[..|calls| - 1], calls[|calls| - 1];
      assert forall i :: 0 <= i < |before| ==> calls[..i] == before[..i];
      DenialsChangeNothing(p, s, before, key, from, last.now);
      DenialsChangeNothing(p, s, before, key, from, t);
      StepLevels(p, StateFrom(p, s, before), last.key, last.now, key, t);
    }
  }

  lemma DenialIsRecorded(p: Params, s: State, key: string, now: real)
    requires p.enabled && p.perMinute > 0 && !Step(p, s, key, now).1
    ensures var after := Step(p, s, key, now).0;
            key in after.buckets && after.buckets[key].updated == now && after.buckets[key].tokens < 1.0
  {
  }

  /**
   A denied request of `key` at `denied`, then any traffic at all in which `key` gets nothing through: a request
   after the advertised wait is let through, and one more than a second before it is refused.
   */
  lemma RetryAfterIsExact(p: Params, calls: seq<Call>, key: string, denied: real, later: seq<Call>, now: real)
    requires p.enabled && p.perMinute > 0 && Until(calls, denied) && !Answer(p, calls, key, denied)
    requires denied <= now && Until(later, now) && (later != [] ==> denied <= later[0].now)
    requires NothingAdmitted(p, StateAfter(p, calls + [Call(key, denied)]), later, key)
    ensures var s := StateAfter(p, calls + [Call(key, denied)]);
            var wait := RetryAfter(p, s, key);
            var answer := Step(p, StateFrom(p, s, later), key, now).1;
            && (now >= denied + wait as real ==> answer)
            && (now < denied + (wait - 1) as real ==> !answer)
  {
    hide Step, Refill, Spend;
    var all := calls + [Call(key, denied)];
    assert all[..|calls|] == calls;
    var s := StateAfter(p, all);
    RunsStaySane(p, all, denied);
    DenialsChangeNothing(p, s, later, key, denied, now);
    StepLevels(p, StateFrom(p, s, later), key, now, key, now);
    DenialIsRecorded(p, StateAfter(p, calls), key, denied);
    DeniedRefill(p, s, key, now);
  }

  lemma DeniedRefill(p: Params, s: State, key: string, now: real)
    requires p.enabled && p.perMinute > 0
    requires key in s.buckets && s.buckets[key].tokens < 1.0 && s.buckets[key].updated <= now
    ensures var bucket, wait := s.buckets[key], RetryAfter(p, s, key);
            && (now - bucket.updated >= wait as real ==> Refill(p, bucket, now) >= 1.0)
            && (now - bucket.updated < (wait - 1) as real ==> Refill(p, bucket, now) < 1.0)
  {
    IdleLimitIsAMinute(p);
    WaitIsEnoughAndTight(1.0 - s.buckets[key].tokens, p.Rate(), now - s.buckets[key].updated);
  }
}
