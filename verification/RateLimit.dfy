/**
 The token bucket of app/ratelimit.py. The class keeps the table of buckets in place, as the source does;
 `Step` is the same call on values, and the theorems are about `Step` and the runs it generates.
 Time and tokens are reals.
 */
module RateLimit {
  const PRUNE_INTERVAL: real := 60.0

  datatype Params = Params(perMinute: int, enabled: bool) {
    predicate Active() {
      enabled && perMinute > 0
    }

    function Capacity(): real {
      perMinute as real
    }

    function Rate(): real {
      perMinute as real / 60.0
    }

    function IdleLimit(): real {
      if Rate() != 0.0 then Capacity() / Rate() else PRUNE_INTERVAL
    }
  }

  function MinReal(a: real, b: real): real {
    if a <= b then a else b
  }

  // ---- the call on values ----

  datatype Level = Level(tokens: real, updated: real)

  datatype State = State(buckets: map<string, Level>, prunedAt: real)

  const EMPTY := State(map[], 0.0)

  function Refill(p: Params, b: Level, now: real): real {
    MinReal(p.Capacity(), b.tokens + (now - b.updated) * p.Rate())
  }

  function Pruned(p: Params, s: State, now: real): State {
    if now - s.prunedAt < PRUNE_INTERVAL then s
    else State(map k | k in s.buckets && now - s.buckets[k].updated < p.IdleLimit() :: s.buckets[k], now)
  }

  /** Refill one bucket up to `now`, then take a token from it if it holds one. */
  function Draw(p: Params, b: Level, now: real): (Level, bool) {
    var tokens := Refill(p, b, now);
    if tokens < 1.0 then (Level(tokens, now), false) else (Level(tokens - 1.0, now), true)
  }

  /** One call of `allow`: the state it leaves and the answer it gives. */
  function Step(p: Params, s: State, key: string, now: real): (State, bool) {
    if !p.Active() then (s, true)
    else
      var swept := Pruned(p, s, now);
      var bucket := if key in swept.buckets then swept.buckets[key] else Level(p.Capacity(), now);
      var (drawn, ok) := Draw(p, bucket, now);
      (swept.(buckets := swept.buckets[key := drawn]), ok)
  }

  function RetryAfter(p: Params, s: State, key: string): int {
    if key !in s.buckets || !p.Active() then 1
    else
      var missing := if 1.0 - s.buckets[key].tokens > 0.0 then 1.0 - s.buckets[key].tokens else 0.0;
      var wait := (missing / p.Rate()).Floor + 1;
      if wait < 1 then 1 else wait
  }

  lemma WaitIsEnoughAndTight(missing: real, rate: real, elapsed: real)
    requires missing >= 0.0 && rate > 0.0
    ensures var wait := (missing / rate).Floor + 1;
            && wait >= 1
            && (elapsed >= wait as real ==> elapsed * rate > missing)
            && (elapsed < (wait - 1) as real ==> elapsed * rate < missing)
  {
    var exact := missing / rate;
    assert exact * rate == missing;
    assert exact >= 0.0;
    if elapsed > exact {
      assert (elapsed - exact) * rate > 0.0;
    } else if elapsed < exact {
      assert (exact - elapsed) * rate > 0.0;
    }
  }

  /** Waiting as told refills a bucket to a token; a wait more than a second shorter does not refill an empty one. */
  lemma WaitRefills(p: Params, b: Level, seconds: int, now: real)
    requires p.Active()
    requires seconds == ((if 1.0 - b.tokens > 0.0 then 1.0 - b.tokens else 0.0) / p.Rate()).Floor + 1
    ensures seconds >= 1
    ensures now >= b.updated + seconds as real ==> Refill(p, b, now) >= 1.0
    ensures b.tokens < 1.0 && now < b.updated + (seconds - 1) as real ==> Refill(p, b, now) < 1.0
  {
    WaitIsEnoughAndTight(if 1.0 - b.tokens > 0.0 then 1.0 - b.tokens else 0.0, p.Rate(), now - b.updated);
  }

  /** Whatever the rate, a bucket left alone for a minute is full. */
  lemma IdleLimitIsAMinute(p: Params)
    ensures p.IdleLimit() == 60.0
    ensures p.perMinute > 0 ==> p.Rate() > 0.0
  {
    var c, r := p.Capacity(), p.Rate();
    assert c == 60.0 * r;
    assert r != 0.0 ==> c / r == 60.0;
  }

  /** Once a minute, the buckets left alone for a minute go and the others stay as they are. */
  lemma PruneDropsTheIdle(p: Params, s: State, now: real)
    ensures now - s.prunedAt < 60.0 ==> Pruned(p, s, now) == s
    ensures now - s.prunedAt >= 60.0 ==>
              var after := Pruned(p, s, now);
              && after.prunedAt == now
              && (forall k :: k in after.buckets <==> k in s.buckets && now - s.buckets[k].updated < 60.0)
              && forall k :: k in after.buckets ==> after.buckets[k] == s.buckets[k]
  {
    IdleLimitIsAMinute(p);
  }

  // ---- the source's object ----

  class Bucket {
    var tokens: real
    var updated: real

    constructor (tokens: real, updated: real)
      ensures this.tokens == tokens && this.updated == updated
    {
      this.tokens, this.updated := tokens, updated;
    }

    ghost function View(): Level
      reads this
    {
      Level(tokens, updated)
    }

    method TakeToken(p: Params, now: real) returns (ok: bool)
      modifies this
      ensures (View(), ok) == Draw(p, old(View()), now)
    {
      tokens := MinReal(p.Capacity(), tokens + (now - updated) * p.Rate());
      updated := now;
      if tokens < 1.0 {
        return false;
      }
      tokens := tokens - 1.0;
      return true;
    }
  }

  class RateLimiter {
    const params: Params
    var buckets: map<string, Bucket>
    var prunedAt: real

    /** No two keys share a bucket object. */
    ghost predicate Valid()
      reads this
    {
      forall k, l :: k in buckets && l in buckets && k != l ==> buckets[k] != buckets[l]
    }

    ghost function View(): State
      reads this, buckets.Values
    {
      State(map k | k in buckets :: buckets[k].View(), prunedAt)
    }

    constructor (perMinute: int, enabled: bool)
      ensures Valid() && View() == EMPTY && params == Params(perMinute, enabled)
      ensures buckets == map[] && prunedAt == 0.0
    {
      params := Params(perMinute, enabled);
      buckets := map[];
      prunedAt := 0.0;
    }

    method Prune(now: real)
      requires Valid()
      modifies this
      ensures Valid() && View() == Pruned(params, old(View()), now)
      ensures buckets.Values <= old(buckets.Values)
    {
      if now - prunedAt < PRUNE_INTERVAL {
        return;
      }
      prunedAt := now;
      var idleLimit := params.IdleLimit();
      buckets := map k | k in buckets && now - buckets[k].updated < idleLimit :: buckets[k];
    }

    method Allow(key: string, now: real) returns (ok: bool)
      requires Valid()
      modifies this, buckets.Values
      ensures Valid() && fresh(buckets.Values - old(buckets.Values))
      ensures (View(), ok) == Step(params, old(View()), key, now)
      ensures !params.enabled || params.perMinute <= 0 ==> ok && buckets == old(buckets) && prunedAt == old(prunedAt)
    {
      if !params.Active() {
        return true;
      }
      hide Draw, Pruned, Refill;
      Prune(now);
      ghost var swept := View();
      if key !in buckets {
        var full := new Bucket(params.Capacity(), now);
        buckets := buckets[key := full];
      }
      var bucket := buckets[key];
      ok := bucket.TakeToken(params, now);
      assert View().buckets == swept.buckets[key := bucket.View()];
    }

    /** The caller's `now` is not an argument here: the source accepts one and never uses it. */
    method RetryAfterSeconds(key: string) returns (seconds: int)
      requires Valid()
      ensures seconds == RetryAfter(params, View(), key) && seconds >= 1
      ensures key !in buckets || !params.enabled || params.perMinute <= 0 ==> seconds == 1
      ensures key in buckets && params.enabled && params.perMinute > 0 ==>
                var b := View().buckets[key];
                forall now ::
                  && (now >= b.updated + seconds as real ==> Refill(params, b, now) >= 1.0)
                  && (b.tokens < 1.0 && now < b.updated + (seconds - 1) as real ==> Refill(params, b, now) < 1.0)
    {
      if key !in buckets || !params.Active() {
        return 1;
      }
      var missing := if 1.0 - buckets[key].tokens > 0.0 then 1.0 - buckets[key].tokens else 0.0;
      seconds := (missing / params.Rate()).Floor + 1;
      ghost var b := buckets[key].View();
      WaitRefills(params, b, seconds, b.updated);
      forall now
        ensures now >= b.updated + seconds as real ==> Refill(params, b, now) >= 1.0
        ensures b.tokens < 1.0 && now < b.updated + (seconds - 1) as real ==> Refill(params, b, now) < 1.0
      {
        WaitRefills(params, b, seconds, now);
      }
      if seconds < 1 {
        seconds := 1;
      }
    }
  }
}
