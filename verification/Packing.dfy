/** Why greedy packing of vehicles is exact: their sizes divide one another.

  If every vehicle placed so far is at least as big as the next one, all loads are multiples of the
  next one's size, so a floor that cannot take it is as full as any assignment could make it. */
module Packing {
  import opened ParkingModels

  // ---------- Sums and counts ----------

  ghost function Sum(xs: seq<nat>): nat {
    if xs == [] then 0 else Sum(xs[..|xs| - 1]) + xs[|xs| - 1]
  }

  /** How many entries are not zero. */
  ghost function Used(xs: seq<nat>): nat {
    if xs == [] then 0 else Used(xs[..|xs| - 1]) + if xs[|xs| - 1] > 0 then 1 else 0
  }

  lemma {:induction false} SumAndUsedUpdate(xs: seq<nat>, i: nat, v: nat)
    requires i < |xs|
    ensures Sum(xs[i := v]) == Sum(xs) - xs[i] + v
    ensures Used(xs[i := v]) == Used(xs) - (if xs[i] > 0 then 1 else 0) + if v > 0 then 1 else 0
  {
    var n := |xs| - 1;
    if i == n {
      assert xs[i := v][..n] == xs[..n];
    } else {
      SumAndUsedUpdate(xs[..n], i, v);
      assert xs[i := v][..n] == xs[..n][i := v];
    }
  }

  ghost predicate Pointwise(xs: seq<nat>, ys: seq<nat>) {
    |xs| == |ys| && forall i :: 0 <= i < |xs| ==> xs[i] <= ys[i]
  }

  lemma {:induction false} SumAndUsedMono(xs: seq<nat>, ys: seq<nat>)
    requires Pointwise(xs, ys)
    ensures Sum(xs) <= Sum(ys) && Used(xs) <= Used(ys)
  {
    if xs != [] {
      SumAndUsedMono(xs[..|xs| - 1], ys[..|ys| - 1]);
    }
  }

  lemma {:induction false} SumOfZeros(xs: seq<nat>)
    requires forall i :: 0 <= i < |xs| ==> xs[i] == 0
    ensures Sum(xs) == 0 && Used(xs) == 0
  {
    if xs != [] {
      SumOfZeros(xs[..|xs| - 1]);
    }
  }

  lemma {:induction false} SumByUsed(xs: seq<nat>, full: nat)
    requires forall i :: 0 <= i < |xs| ==> xs[i] <= full
    ensures Sum(xs) <= Used(xs) * full
    ensures (forall i :: 0 <= i < |xs| ==> xs[i] == 0 || xs[i] == full) ==> Sum(xs) == Used(xs) * full
  {
    if xs != [] {
      var front := xs[..|xs| - 1];
      SumByUsed(front, full);
      assert (Used(front) + 1) * full == Used(front) * full + full;
    }
  }

  lemma {:induction false} SumAtLeast(xs: seq<nat>, least: int)
    requires forall i :: 0 <= i < |xs| ==> xs[i] >= least
    ensures Sum(xs) >= |xs| * least
  {
    if xs != [] {
      SumAtLeast(xs[..|xs| - 1], least);
      assert |xs| * least == (|xs| - 1) * least + least;
    }
  }

  lemma {:induction false} SumAtMost(xs: seq<nat>, most: int)
    requires forall i :: 0 <= i < |xs| ==> xs[i] <= most
    ensures Sum(xs) <= |xs| * most
  {
    if xs != [] {
      SumAtMost(xs[..|xs| - 1], most);
      assert |xs| * most == (|xs| - 1) * most + most;
    }
  }

  // ---------- Layouts floor by floor ----------

  ghost function Total(l: Layout): nat
    decreases |l|
  {
    if |l| == 0 then 0
    else
      var id := AnyTicket(l);
      l[id].space + Total(l - {id})
  }

  lemma {:induction false} TotalRemove(l: Layout, id: Ticket)
    requires id in l
    ensures Total(l) == l[id].space + Total(l - {id})
    decreases |l|
  {
    var first := AnyTicket(l);
    if first != id {
      TotalRemove(l - {first}, id);
      TotalRemove(l - {id}, first);
      assert l - {first} - {id} == l - {id} - {first};
    }
  }

  ghost predicate SameVehicles(a: Layout, b: Layout) {
    a.Keys == b.Keys && forall id :: id in a ==> a[id].space == b[id].space
  }

  lemma {:induction false} TotalSame(a: Layout, b: Layout)
    requires SameVehicles(a, b)
    ensures Total(a) == Total(b)
    decreases |a|
  {
    if |a| > 0 {
      var id := AnyTicket(a);
      TotalRemove(a, id);
      TotalRemove(b, id);
      TotalSame(a - {id}, b - {id});
    } else {
      assert |a.Keys| == |b.Keys|;
    }
  }

  lemma {:induction false} TotalPart(part: Layout, all: Layout)
    requires part.Keys <= all.Keys && forall id :: id in part ==> part[id].space == all[id].space
    ensures Total(part) <= Total(all)
    decreases |part|
  {
    if |part| > 0 {
      var id := AnyTicket(part);
      TotalRemove(part, id);
      TotalRemove(all, id);
      TotalPart(part - {id}, all - {id});
    }
  }

  /** The loads of the floors from `lo` up to `hi`. */
  ghost function Loads(l: Layout, lo: nat, hi: nat): (xs: seq<nat>)
    requires lo <= hi
    ensures |xs| == hi - lo && forall i :: 0 <= i < hi - lo ==> xs[i] == Load(l, lo + i)
  {
    if lo == hi then [] else Loads(l, lo, hi - 1) + [Load(l, hi - 1)]
  }

  lemma LoadsSet(l: Layout, id: Ticket, s: Slot, lo: nat, hi: nat)
    requires id !in l && lo <= s.floor < hi
    ensures Loads(l[id := s], lo, hi) == Loads(l, lo, hi)[s.floor - lo := Load(l, s.floor) + s.space]
  {
    hide Load;
    var xs, ys := Loads(l, lo, hi), Loads(l[id := s], lo, hi);
    forall i | 0 <= i < |xs|
      ensures ys[i] == if i == s.floor - lo then Load(l, s.floor) + s.space else xs[i]
    {
      LoadSet(l, id, s, lo + i);
    }
  }

  /** No vehicle is counted twice or missed by adding up floors. */
  lemma {:induction false} SumLoadsTotal(l: Layout, lo: nat, hi: nat)
    requires lo <= hi && forall id :: id in l ==> lo <= l[id].floor < hi
    ensures Sum(Loads(l, lo, hi)) == Total(l)
    decreases |l|
  {
    hide Load, Loads;
    if |l| > 0 {
      var id := AnyTicket(l);
      var rest := l - {id};
      SumLoadsTotal(rest, lo, hi);
      assert l == rest[id := l[id]];
      LoadsSet(rest, id, l[id], lo, hi);
      SumAndUsedUpdate(Loads(rest, lo, hi), l[id].floor - lo, Load(rest, l[id].floor) + l[id].space);
    } else {
      NothingLoaded(l, lo, hi);
    }
  }

  lemma NothingLoaded(l: Layout, lo: nat, hi: nat)
    requires lo <= hi && |l| == 0
    ensures Sum(Loads(l, lo, hi)) == 0
  {
    SumOfZeros(Loads(l, lo, hi));
  }

  /** How many floors are in use. */
  ghost function Occupied(l: Layout, n: nat): nat {
    Used(Loads(l, 0, n))
  }

  // ---------- Divisible sizes ----------

  /** All vehicles are of the sizes at or above that of `t`, hence multiples of it. */
  ghost predicate Multiples(l: Layout, t: VehicleType)
    requires VehicleSpace(t) > 0
  {
    forall id :: id in l ==> l[id].space % VehicleSpace(t) == 0
  }

  lemma ModAdd(a: nat, b: nat, t: VehicleType)
    requires VehicleSpace(t) > 0 && a % VehicleSpace(t) == 0 && b % VehicleSpace(t) == 0
    ensures (a + b) % VehicleSpace(t) == 0
  {
    match t
    case Bike =>
    case Car => AddTwos(a, b);
    case Truck => AddSixes(a, b);
  }

  lemma AddTwos(a: nat, b: nat)
    ensures a % 2 == 0 && b % 2 == 0 ==> (a + b) % 2 == 0
  {
  }

  lemma AddSixes(a: nat, b: nat)
    ensures a % 6 == 0 && b % 6 == 0 ==> (a + b) % 6 == 0
  {
  }

  lemma {:induction false} LoadIsMultiple(l: Layout, t: VehicleType, f: int)
    requires VehicleSpace(t) > 0 && Multiples(l, t)
    ensures Load(l, f) % VehicleSpace(t) == 0
    decreases |l|
  {
    if |l| > 0 {
      hide Load;
      var id := AnyTicket(l);
      LoadIsMultiple(l - {id}, t, f);
      LoadRemove(l, id, f);
      ModAdd(SpaceOn(l[id], f), Load(l - {id}, f), t);
    }
  }

  /** The most that multiples of the size of `t` can take of a floor. */
  ghost function FullLoad(capacity: int, t: VehicleType): nat
    requires VehicleSpace(t) > 0
  {
    Room(capacity) / VehicleSpace(t) * VehicleSpace(t)
  }

  lemma FullLoadBounds(load: nat, capacity: int, t: VehicleType)
    requires VehicleSpace(t) > 0 && load % VehicleSpace(t) == 0 && load <= Room(capacity)
    ensures load <= FullLoad(capacity, t)
    ensures load + VehicleSpace(t) > capacity ==> load == FullLoad(capacity, t)
  {
    match t
    case Bike =>
    case Car =>
    case Truck =>
  }

  lemma LoadAtMostFull(l: Layout, t: VehicleType, capacity: int, f: int)
    requires VehicleSpace(t) > 0 && Multiples(l, t) && Load(l, f) <= Room(capacity)
    ensures Load(l, f) <= FullLoad(capacity, t)
    ensures Load(l, f) + VehicleSpace(t) > capacity ==> Load(l, f) == FullLoad(capacity, t)
  {
    hide Load;
    LoadIsMultiple(l, t, f);
    FullLoadBounds(Load(l, f), capacity, t);
  }

  // ---------- No assignment does better ----------

  /** `a` is a fitting assignment of at least the vehicles in `p`. */
  ghost predicate Rival(a: Layout, p: Layout, capacity: seq<int>) {
    && Fits(a, capacity)
    && p.Keys <= a.Keys
    && (forall id :: id in p ==> a[id].space == p[id].space)
  }

  ghost function Restrict(a: Layout, ids: set<Ticket>): Layout {
    map id | id in ids && id in a :: a[id]
  }

  /** The part of a rival that holds the vehicles of `q`: same vehicles, no more load anywhere. */
  lemma RestrictRival(a: Layout, q: Layout, t: VehicleType, capacity: seq<int>)
    requires Rival(a, q, capacity) && VehicleSpace(t) > 0 && Multiples(q, t)
    ensures var r := Restrict(a, q.Keys); SameVehicles(r, q) && Total(r) == Total(q) && Multiples(r, t)
    ensures forall f :: Load(Restrict(a, q.Keys), f) <= Load(a, f)
  {
    hide Load, Total;
    var r := Restrict(a, q.Keys);
    TotalSame(r, q);
    forall f
      ensures Load(r, f) <= Load(a, f)
    {
      LoadMono(r, a, f);
    }
  }

  /** One more vehicle of type `t`, somewhere. */
  ghost function WithOneMore(p: Layout, id: Ticket, t: VehicleType): Layout {
    p[id := Slot(0, VehicleSpace(t))]
  }

  lemma OneMoreTotal(p: Layout, id: Ticket, t: VehicleType)
    requires id !in p && VehicleSpace(t) > 0 && Multiples(p, t)
    ensures Total(WithOneMore(p, id, t)) == Total(p) + VehicleSpace(t)
    ensures Multiples(WithOneMore(p, id, t), t)
  {
    hide Total;
    TotalRemove(WithOneMore(p, id, t), id);
    assert WithOneMore(p, id, t) - {id} == p;
  }

  ghost predicate Within(l: Layout, ids: set<Ticket>, lo: int, hi: int) {
    forall x :: x in ids && x in l ==> lo <= l[x].floor < hi
  }

  /** If no floor of a range can take the next vehicle, then no assignment within that range can take all of them. */
  lemma NoRoomAnywhere(p: Layout, id: Ticket, t: VehicleType, capacity: seq<int>, lo: nat, hi: nat, a: Layout)
    requires VehicleSpace(t) > 0 && Multiples(p, t) && id !in p && lo <= hi <= |capacity|
    requires Within(p, p.Keys, lo, hi)
    requires forall f :: lo <= f < hi ==> Load(p, f) <= Room(capacity[f]) && Load(p, f) + VehicleSpace(t) > capacity[f]
    ensures !(Rival(a, WithOneMore(p, id, t), capacity) && Within(a, WithOneMore(p, id, t).Keys, lo, hi))
  {
    hide Load, Loads, Sum, Total;
    var q := WithOneMore(p, id, t);
    if Rival(a, q, capacity) && Within(a, q.Keys, lo, hi) {
      OneMoreTotal(p, id, t);
      var r := Restrict(a, q.Keys);
      RestrictRival(a, q, t, capacity);
      SumLoadsTotal(r, lo, hi);
      SumLoadsTotal(p, lo, hi);
      LoadsNoMore(r, p, t, capacity, lo, hi);
      assert false;
    }
  }

  lemma LoadsNoMore(r: Layout, p: Layout, t: VehicleType, capacity: seq<int>, lo: nat, hi: nat)
    requires VehicleSpace(t) > 0 && Multiples(p, t) && Multiples(r, t) && lo <= hi <= |capacity|
    requires forall f :: lo <= f < hi ==> Load(p, f) <= Room(capacity[f]) && Load(p, f) + VehicleSpace(t) > capacity[f]
    requires forall f :: lo <= f < hi ==> Load(r, f) <= Room(capacity[f])
    ensures Sum(Loads(r, lo, hi)) <= Sum(Loads(p, lo, hi))
  {
    hide Load, Sum, Used;
    var xs, ys := Loads(r, lo, hi), Loads(p, lo, hi);
    forall i | 0 <= i < |xs|
      ensures xs[i] <= ys[i]
    {
      LoadAtMostFull(r, t, capacity[lo + i], lo + i);
      LoadAtMostFull(p, t, capacity[lo + i], lo + i);
    }
    SumAndUsedMono(xs, ys);
  }

  ghost predicate Uniform(capacity: seq<int>) {
    forall f, g :: 0 <= f < |capacity| && 0 <= g < |capacity| ==> capacity[f] == capacity[g]
  }

  /** If no used floor can take the next vehicle, every assignment of all of them uses a floor more. */
  lemma NewFloorNeeded(p: Layout, id: Ticket, t: VehicleType, capacity: seq<int>, a: Layout)
    requires Uniform(capacity) && VehicleSpace(t) > 0 && Multiples(p, t) && id !in p && |capacity| > 0
    requires Fits(p, capacity)
    requires forall f :: 0 <= f < |capacity| && Load(p, f) > 0 ==> Load(p, f) + VehicleSpace(t) > capacity[f]
    requires Rival(a, WithOneMore(p, id, t), capacity)
    ensures Occupied(a, |capacity|) > Occupied(p, |capacity|)
  {
    hide Load, Sum, Used, Total;
    var n, full := |capacity|, FullLoad(capacity[0], t);
    var q := WithOneMore(p, id, t);
    OneMoreTotal(p, id, t);
    var r := Restrict(a, q.Keys);
    RestrictRival(a, q, t, capacity);
    SumLoadsTotal(r, 0, n);
    SumLoadsTotal(p, 0, n);
    forall f | 0 <= f < n
      ensures Loads(r, 0, n)[f] <= full
      ensures Loads(p, 0, n)[f] == 0 || Loads(p, 0, n)[f] == full
    {
      assert capacity[f] == capacity[0];
      LoadAtMostFull(r, t, capacity[f], f);
      LoadAtMostFull(p, t, capacity[f], f);
    }
    SumByUsed(Loads(r, 0, n), full);
    SumByUsed(Loads(p, 0, n), full);
    SumAndUsedMono(Loads(r, 0, n), Loads(a, 0, n));
    if Occupied(r, n) <= Occupied(p, n) {
      MulMono(Occupied(r, n), Occupied(p, n), full);
    }
  }

  lemma {:induction false} MulMono(a: nat, b: nat, c: nat)
    requires a <= b
    ensures a * c <= b * c
  {
  }
}
