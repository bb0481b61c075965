/** The token bucket rate limiter: one bucket per user, made at the user's first call. */
module TokenBuckets {
  import opened TokenBudgets

  class Bucket {
    var tokens: real
    var lastRefill: Time
    /** When the bucket was made and the calls that it has answered since. */
    ghost const created: Time
    ghost var history: seq<Call>

    constructor (capacity: real, now: Time)
      ensures tokens == capacity && lastRefill == now && created == now && history == []
    {
      tokens := capacity;
      lastRefill := now;
      created := now;
      history := [];
    }

    /** The two stored numbers stand for the history, and every call in it was answered honestly. */
    ghost predicate Valid(rule: Rule)
      reads this
    {
      && tokens == Stored(rule, created, history) && lastRefill == LastRefill(created, history)
      && Honest(rule, created, history)
    }

    /** The critical section of a call: refill, then take a token if there is one. */
    method Take(rule: Rule, now: Time) returns (ok: bool)
      requires Valid(rule)
      modifies this
      ensures Valid(rule) && history == old(history) + [Call(now, ok)]
      ensures ok <==> FitsAllWindows(rule, created, old(history), now)
    {
      hide Stored, FitsAllWindows, Inflow, WindowStart, AllowedSince;
      var tokensToFillIn := Inflow(rule, lastRefill, now);
      tokens := MinFunction(rule.capacity, tokensToFillIn + tokens);
      lastRefill := now;
      TokenIffFits(rule, created, history, now);
      HonestOn(rule, created, history, now);
      ok := tokens >= 1.0;
      history := history + [Call(now, ok)];
      if !ok {
        return;
      }
      tokens := tokens - 1.0;
    }
  }

  lemma HonestOn(rule: Rule, created: Time, h: seq<Call>, now: Time)
    requires Honest(rule, created, h)
    ensures var tokens := Refilled(rule, created, h, now);
            var g := h + [Call(now, tokens >= 1.0)];
            && Honest(rule, created, g) && LastRefill(created, g) == now
            && Stored(rule, created, g) == tokens - if tokens >= 1.0 then 1.0 else 0.0
  {
    hide Refilled;
    var g := h + [Call(now, Refilled(rule, created, h, now) >= 1.0)];
    assert g[..|h|] == h;
    forall i | 0 <= i < |h|
      ensures g[..i] == h[..i]
    {
    }
  }

  class TokenBucketRateLimiter {
    const rule: Rule
    var cache: map<string, Bucket>

    constructor (capacity: real, refillRate: real)
      ensures Valid() && cache == map[] && rule == Rule(capacity, refillRate)
    {
      rule := Rule(capacity, refillRate);
      cache := map[];
    }

    ghost predicate Valid()
      reads this, cache.Values
    {
      && (forall u :: u in cache ==> cache[u].Valid(rule))
      && (forall u, v :: u in cache && v in cache && u != v ==> cache[u] != cache[v])
    }

    /** A bucket for the user: the one in the cache, or a new one; a bucket that another call has put
        there since the caller looked is kept. */
    method FindOrCreate(userId: string, now: Time) returns (bucket: Bucket)
      requires Valid()
      modifies `cache
      ensures Valid() && userId in cache && bucket == cache[userId]
      ensures userId in old(cache) ==> cache == old(cache)
      ensures userId !in old(cache) ==> cache == old(cache)[userId := bucket] && fresh(bucket) && bucket.history == [] && bucket.created == now
    {
      if userId !in cache {
        bucket := new Bucket(rule.capacity, now);
        cache := cache[userId := bucket];
      }
      return cache[userId];
    }

    /** Allows the call exactly when it fits every window of this user's own history. `created` and `now`
        are two readings of the clock, the first only used for a user without a bucket. */
    method Allow(userId: string, created: Time, now: Time) returns (ok: bool)
      requires Valid()
      modifies this, cache.Values
      ensures Valid() && userId in cache && cache.Keys == old(cache.Keys) + {userId}
      ensures userId in old(cache) ==> cache == old(cache)
      ensures userId !in old(cache) ==> fresh(cache[userId]) && cache[userId].created == created
      ensures cache[userId].history == (if userId in old(cache) then old(cache[userId].history) else []) + [Call(now, ok)]
      ensures var h := if userId in old(cache) then old(cache[userId].history) else [];
              ok <==> FitsAllWindows(rule, cache[userId].created, h, now)
      ensures forall u :: u in old(cache) && u != userId ==> cache[u] == old(cache[u]) && cache[u].history == old(cache[u].history)
    {
      hide FitsAllWindows, Stored, LastRefill, Honest;
      var bucket := FindOrCreate(userId, created);
      ok := bucket.Take(rule, now);
    }
  }
}
