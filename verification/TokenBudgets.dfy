/** What a token bucket means: budgets over every past window of its calls. Tokens are reals. */
module TokenBudgets {

  type Time = real

  datatype Call = Call(time: Time, allowed: bool)

  datatype Rule = Rule(capacity: real, rate: real)

  /** How many calls were allowed. */
  function Allowed(h: seq<Call>): nat {
    if h == [] then 0 else Allowed(h[..|h| - 1]) + if h[|h| - 1].allowed then 1 else 0
  }

  /** The tokens that flow in between two moments. */
  function Inflow(rule: Rule, from: Time, to: Time): real {
    rule.rate * (to - from)
  }

  lemma InflowSplits(rule: Rule, a: Time, b: Time, c: Time)
    ensures Inflow(rule, a, c) == Inflow(rule, a, b) + Inflow(rule, b, c) && Inflow(rule, a, a) == 0.0
  {
  }

  lemma InflowGrows(rule: Rule, a: Time, b: Time)
    requires rule.rate >= 0.0 && a <= b
    ensures Inflow(rule, a, b) >= 0.0
  {
  }

  // ---------- What the bucket stores ----------

  function MinFunction(a: real, b: real): real {
    if a > b then b else a
  }

  function LastRefill(created: Time, h: seq<Call>): Time {
    if h == [] then created else h[|h| - 1].time
  }

  /** The tokens stored after these calls. */
  function Stored(rule: Rule, created: Time, h: seq<Call>): real
    decreases |h|, 0
  {
    if h == [] then rule.capacity
    else
      var n := |h| - 1;
      Refilled(rule, created, h[..n], h[n].time) - if h[n].allowed then 1.0 else 0.0
  }

  /** The tokens at a call at `now`, before it takes one. */
  function Refilled(rule: Rule, created: Time, h: seq<Call>, now: Time): real
    decreases |h|, 1
  {
    MinFunction(rule.capacity, Inflow(rule, LastRefill(created, h), now) + Stored(rule, created, h))
  }

  // ---------- What a limiter that scans its history would check ----------

  /** The windows that end at `now` start with the bucket's creation (0), with an earlier call, or with
      the call at `now` itself (|h| + 1). */
  function WindowStart(created: Time, h: seq<Call>, now: Time, j: nat): Time
    requires j <= |h| + 1
  {
    if j == 0 then created else if j <= |h| then h[j - 1].time else now
  }

  function AllowedSince(h: seq<Call>, j: nat): nat
    requires j <= |h| + 1
  {
    if j == 0 then Allowed(h) else Allowed(h[j - 1..])
  }

  /** What is left of the budget of a window. */
  function Budget(rule: Rule, created: Time, h: seq<Call>, now: Time, j: nat): real
    requires j <= |h| + 1
  {
    rule.capacity + rule.rate * (now - WindowStart(created, h, now, j)) - AllowedSince(h, j) as real
  }

  /** After `allowed` calls since `start` there is a token's worth left of the capacity and what has come in at
      the rate. */
  ghost predicate OneMoreFits(rule: Rule, start: Time, now: Time, allowed: nat) {
    rule.capacity + rule.rate * (now - start) - allowed as real >= 1.0
  }

  ghost predicate FitsAllWindows(rule: Rule, created: Time, h: seq<Call>, now: Time) {
    forall j :: 0 <= j <= |h| + 1 ==> OneMoreFits(rule, WindowStart(created, h, now, j), now, AllowedSince(h, j))
  }

  lemma FitsOneWindow(rule: Rule, created: Time, h: seq<Call>, now: Time, j: nat)
    requires j <= |h| + 1
    ensures OneMoreFits(rule, WindowStart(created, h, now, j), now, AllowedSince(h, j)) <==> Budget(rule, created, h, now, j) >= 1.0
  {
    hide WindowStart, AllowedSince;
  }

  lemma FitsMeansBudget(rule: Rule, created: Time, h: seq<Call>, now: Time)
    ensures FitsAllWindows(rule, created, h, now) <==> forall j :: 0 <= j <= |h| + 1 ==> Budget(rule, created, h, now, j) >= 1.0
  {
    hide WindowStart, AllowedSince, OneMoreFits, Budget;
    forall j | 0 <= j <= |h| + 1
      ensures OneMoreFits(rule, WindowStart(created, h, now, j), now, AllowedSince(h, j)) <==> Budget(rule, created, h, now, j) >= 1.0
    {
      FitsOneWindow(rule, created, h, now, j);
    }
  }

  /** A budget in terms of what the code lets flow in. */
  lemma BudgetInflow(rule: Rule, created: Time, h: seq<Call>, now: Time, j: nat)
    requires j <= |h| + 1
    ensures Budget(rule, created, h, now, j) ==
            rule.capacity + Inflow(rule, WindowStart(created, h, now, j), now) - AllowedSince(h, j) as real
  {
  }

  /** A window's budget, as the next call sees it. */
  lemma BudgetGrows(rule: Rule, created: Time, h: seq<Call>, last: Call, now: Time, j: nat)
    requires j <= |h| + 1
    ensures Budget(rule, created, h + [last], now, j)
            == Budget(rule, created, h, last.time, j) + Inflow(rule, last.time, now) - if last.allowed then 1.0 else 0.0
  {
    hide Inflow, Budget;
    var g := h + [last];
    BudgetInflow(rule, created, h, last.time, j);
    BudgetInflow(rule, created, g, now, j);
    assert g[..|h|] == h;
    if j > 0 {
      assert g[j - 1..][..|h| - (j - 1)] == h[j - 1..];
    }
    InflowSplits(rule, WindowStart(created, h, last.time, j), last.time, now);
  }

  /** The two numbers that the bucket stores are worth the whole history: after the refill, the tokens are
      exactly the least of all the windows' budgets. */
  lemma {:induction false} TokensAreLeastBudget(rule: Rule, created: Time, h: seq<Call>, now: Time) returns (least: nat)
    ensures least <= |h| + 1 && Refilled(rule, created, h, now) == Budget(rule, created, h, now, least)
    ensures forall j :: 0 <= j <= |h| + 1 ==> Refilled(rule, created, h, now) <= Budget(rule, created, h, now, j)
  {
    hide Inflow, Budget;
    var tokens := Refilled(rule, created, h, now);
    BudgetInflow(rule, created, h, now, |h| + 1);
    InflowSplits(rule, now, now, now);
    assert Budget(rule, created, h, now, |h| + 1) == rule.capacity;
    if h == [] {
      BudgetInflow(rule, created, h, now, 0);
      least := if tokens == rule.capacity then 1 else 0;
    } else {
      var n := |h| - 1;
      var last := h[n];
      assert h == h[..n] + [last];
      least := TokensAreLeastBudget(rule, created, h[..n], last.time);
      forall j | 0 <= j <= n + 1
        ensures Budget(rule, created, h, now, j)
                == Budget(rule, created, h[..n], last.time, j) + Inflow(rule, last.time, now) - if last.allowed then 1.0 else 0.0
      {
        BudgetGrows(rule, created, h[..n], last, now, j);
      }
      if tokens == rule.capacity {
        least := |h| + 1;
      }
    }
  }

  /** So one token is there exactly when the call fits every window. */
  lemma TokenIffFits(rule: Rule, created: Time, h: seq<Call>, now: Time)
    ensures Refilled(rule, created, h, now) >= 1.0 <==> FitsAllWindows(rule, created, h, now)
  {
    hide Refilled, Budget, FitsAllWindows;
    FitsMeansBudget(rule, created, h, now);
    var least := TokensAreLeastBudget(rule, created, h, now);
  }

  /** With a rate that is not negative, the windows that start with calls are enough. */
  lemma CreationWindowImplied(rule: Rule, created: Time, h: seq<Call>, now: Time)
    requires rule.rate >= 0.0 && created <= WindowStart(created, h, now, 1)
    ensures FitsAllWindows(rule, created, h, now) <==>
            forall j :: 1 <= j <= |h| + 1 ==> OneMoreFits(rule, WindowStart(created, h, now, j), now, AllowedSince(h, j))
  {
    hide Inflow, Budget, OneMoreFits;
    FitsOneWindow(rule, created, h, now, 0);
    FitsOneWindow(rule, created, h, now, 1);
    BudgetInflow(rule, created, h, now, 0);
    BudgetInflow(rule, created, h, now, 1);
    assert h == [] || h[0..] == h;
    InflowSplits(rule, created, WindowStart(created, h, now, 1), now);
    InflowGrows(rule, created, WindowStart(created, h, now, 1));
    assert Budget(rule, created, h, now, 0) >= Budget(rule, created, h, now, 1);
  }

  // ---------- Whole histories ----------

  /** Every call was answered as the bucket answers. */
  ghost predicate Honest(rule: Rule, created: Time, h: seq<Call>) {
    forall i :: 0 <= i < |h| ==> h[i].allowed == (Refilled(rule, created, h[..i], h[i].time) >= 1.0)
  }

  /** No allowed call breaks the budget of a window. */
  ghost predicate KeepsBudgets(rule: Rule, created: Time, h: seq<Call>) {
    forall i :: 0 <= i < |h| && h[i].allowed ==> FitsAllWindows(rule, created, h[..i], h[i].time)
  }

  lemma HonestKeepsBudgets(rule: Rule, created: Time, h: seq<Call>)
    requires Honest(rule, created, h)
    ensures KeepsBudgets(rule, created, h)
  {
    hide Refilled, FitsAllWindows;
    forall i | 0 <= i < |h| && h[i].allowed
      ensures FitsAllWindows(rule, created, h[..i], h[i].time)
    {
      TokenIffFits(rule, created, h[..i], h[i].time);
    }
  }

  lemma OneMoreCall(h: seq<Call>, n: nat)
    requires n < |h|
    ensures Allowed(h[..n + 1]) == Allowed(h[..n]) + if h[n].allowed then 1 else 0
  {
    assert h[..n + 1][..n] == h[..n];
  }

  lemma {:induction false} AllowedSplits(h: seq<Call>, i: nat)
    requires i <= |h|
    ensures Allowed(h) == Allowed(h[..i]) + Allowed(h[i..])
  {
    if i == |h| {
      assert h[..i] == h;
    } else {
      var n := |h| - 1;
      AllowedSplits(h[..n], i);
      assert h[..n][..i] == h[..i] && h[..n][i..] == h[i..][..n - i];
    }
  }

  lemma {:induction false} WindowInflow(rule: Rule, created: Time, h: seq<Call>, i: nat, k: nat)
    requires rule.rate >= 0.0 && KeepsBudgets(rule, created, h) && i <= k < |h|
    requires forall a, b :: 0 <= a <= b < |h| ==> h[a].time <= h[b].time
    ensures Allowed(h[i..k + 1]) > 0 ==> Allowed(h[i..k + 1]) as real <= rule.capacity + Inflow(rule, h[i].time, h[k].time)
  {
    hide Inflow, Budget, FitsAllWindows;
    assert h[i..k + 1][..k - i] == h[i..k];
    if h[k].allowed {
      FitsMeansBudget(rule, created, h[..k], h[k].time);
      assert FitsAllWindows(rule, created, h[..k], h[k].time);
      assert Budget(rule, created, h[..k], h[k].time, i + 1) >= 1.0;
      BudgetInflow(rule, created, h[..k], h[k].time, i + 1);
      assert h[..k][i..] == h[i..k];
    } else if i < k {
      WindowInflow(rule, created, h, i, k - 1);
      InflowSplits(rule, h[i].time, h[k - 1].time, h[k].time);
      InflowGrows(rule, h[k - 1].time, h[k].time);
    }
  }

  /** In any stretch of calls the allowed ones stay within the capacity and what flows in meanwhile. */
  lemma WindowBound(rule: Rule, created: Time, h: seq<Call>, i: nat, k: nat)
    requires rule.rate >= 0.0 && KeepsBudgets(rule, created, h) && i <= k < |h|
    requires forall a, b :: 0 <= a <= b < |h| ==> h[a].time <= h[b].time
    ensures Allowed(h[i..k + 1]) > 0 ==> Allowed(h[i..k + 1]) as real <= rule.capacity + rule.rate * (h[k].time - h[i].time)
  {
    hide KeepsBudgets, Allowed;
    WindowInflow(rule, created, h, i, k);
  }

  ghost predicate SameTimes(h: seq<Call>, g: seq<Call>) {
    |h| == |g| && forall i :: 0 <= i < |h| ==> h[i].time == g[i].time
  }

  /** Up to any moment, the other answers have allowed no more calls; then where they allow one that the
      bucket refuses, they are behind by at least one. */
  lemma RefusalCatchesUp(rule: Rule, created: Time, h: seq<Call>, g: seq<Call>, n: nat, j: nat)
    requires n < |h| && SameTimes(h, g) && j <= n + 1
    requires Budget(rule, created, h[..n], h[n].time, j) < 1.0 <= Budget(rule, created, g[..n], g[n].time, j)
    requires j > 0 ==> Allowed(g[..j - 1]) <= Allowed(h[..j - 1])
    ensures Allowed(g[..n]) < Allowed(h[..n])
  {
    hide Inflow, Budget;
    BudgetInflow(rule, created, h[..n], h[n].time, j);
    BudgetInflow(rule, created, g[..n], g[n].time, j);
    assert WindowStart(created, g[..n], g[n].time, j) == WindowStart(created, h[..n], h[n].time, j);
    assert h[n].time == g[n].time;
    if j > 0 {
      AllowedSplits(h[..n], j - 1);
      AllowedSplits(g[..n], j - 1);
      assert h[..n][..j - 1] == h[..j - 1] && g[..n][..j - 1] == g[..j - 1];
    }
  }

  lemma RefusingWindow(rule: Rule, created: Time, h: seq<Call>, n: nat) returns (j: nat)
    requires Honest(rule, created, h) && n < |h| && !h[n].allowed
    ensures j <= n + 1 && Budget(rule, created, h[..n], h[n].time, j) < 1.0
  {
    hide Refilled, Budget, FitsAllWindows;
    TokenIffFits(rule, created, h[..n], h[n].time);
    FitsMeansBudget(rule, created, h[..n], h[n].time);
    j :| 0 <= j <= n + 1 && Budget(rule, created, h[..n], h[n].time, j) < 1.0;
  }

  lemma AllowingWindow(rule: Rule, created: Time, g: seq<Call>, n: nat, j: nat)
    requires KeepsBudgets(rule, created, g) && n < |g| && g[n].allowed && j <= n + 1
    ensures Budget(rule, created, g[..n], g[n].time, j) >= 1.0
  {
    hide Budget, FitsAllWindows;
    FitsMeansBudget(rule, created, g[..n], g[n].time);
    assert FitsAllWindows(rule, created, g[..n], g[n].time);
  }

  lemma {:induction false} NoneAllowsMoreUpTo(rule: Rule, created: Time, h: seq<Call>, g: seq<Call>, m: nat)
    requires SameTimes(h, g) && Honest(rule, created, h) && KeepsBudgets(rule, created, g) && m <= |h|
    ensures Allowed(g[..m]) <= Allowed(h[..m])
  {
    if m > 0 {
      hide Refilled, Budget, Honest, Allowed, KeepsBudgets, FitsAllWindows;
      var n := m - 1;
      NoneAllowsMoreUpTo(rule, created, h, g, n);
      OneMoreCall(h, n);
      OneMoreCall(g, n);
      if g[n].allowed && !h[n].allowed {
        var j := RefusingWindow(rule, created, h, n);
        if j > 0 {
          NoneAllowsMoreUpTo(rule, created, h, g, j - 1);
        }
        AllowingWindow(rule, created, g, n, j);
        RefusalCatchesUp(rule, created, h, g, n, j);
      }
    }
  }

  /** Of all ways to answer the same calls within the budgets, none has at any moment allowed more calls
      than the bucket has. */
  lemma NoneAllowsMore(rule: Rule, created: Time, h: seq<Call>, g: seq<Call>)
    requires SameTimes(h, g) && Honest(rule, created, h) && KeepsBudgets(rule, created, g)
    ensures forall m :: 0 <= m <= |h| ==> Allowed(g[..m]) <= Allowed(h[..m])
  {
    hide Refilled, Honest, Allowed, KeepsBudgets;
    forall m | 0 <= m <= |h|
      ensures Allowed(g[..m]) <= Allowed(h[..m])
    {
      NoneAllowsMoreUpTo(rule, created, h, g, m);
    }
  }

  /** With room for one token and one token a second, a call is refused half a second after one that was
      allowed, and allowed a second after it. */
  lemma OneASecond()
    ensures !FitsAllWindows(Rule(1.0, 1.0), 0.0, [Call(0.0, true)], 0.5)
    ensures FitsAllWindows(Rule(1.0, 1.0), 0.0, [Call(0.0, true)], 1.0)
  {
    var h := [Call(0.0, true)];
    assert h[..0] == [] && h[0..] == h && h[1..] == [] && Allowed(h) == 1 && Allowed([]) == 0;
    assert !OneMoreFits(Rule(1.0, 1.0), WindowStart(0.0, h, 0.5, 1), 0.5, AllowedSince(h, 1));
  }
}
