/** When the load balancer may refuse vehicles that fit: exactly how many units there must be. */
module Balancing {
  import opened Options
  import opened ParkingModels
  import opened Packing
  import opened RearrangementPlanners

  /** The size of the largest vehicle that fits a floor at all. */
  function Widest(room: nat): (w: nat)
    ensures w <= room
  {
    if room >= VehicleSpace(Truck) then VehicleSpace(Truck)
    else if room >= VehicleSpace(Car) then VehicleSpace(Car)
    else if room >= VehicleSpace(Bike) then VehicleSpace(Bike)
    else 0
  }

  ghost predicate KnownSizes(l: Layout) {
    forall id :: id in l ==> exists t :: l[id].space == VehicleSpace(t) > 0
  }

  /** Vehicles that fit, of `total` units, which the balancer refuses in this order. */
  ghost predicate Refuses(capacity: seq<int>, order: seq<SizedVehicle>, l: Layout, total: nat) {
    && Lists(order, l) && KnownSizes(l) && Fits(l, capacity) && Total(l) == total
    && Balance(capacity, order).None?
  }

  ghost predicate MayRefuse(capacity: seq<int>, total: nat) {
    exists order, l :: Refuses(capacity, order, l, total)
  }

  // ---------- What the balancer keeps ----------

  function Units(order: seq<SizedVehicle>): nat {
    if order == [] then 0 else Units(order[..|order| - 1]) + order[|order| - 1].space
  }

  ghost predicate DistinctVehicles(order: seq<SizedVehicle>) {
    forall i, j :: 0 <= i < j < |order| ==> order[i].ticket != order[j].ticket
  }

  ghost predicate Holds(p: Layout, order: seq<SizedVehicle>) {
    && (forall v :: v in order ==> v.ticket in p && p[v.ticket].space == v.space)
    && (forall id :: id in p ==> SizedVehicle(id, p[id].space) in order)
  }

  lemma LastTaken(capacity: seq<int>, order: seq<SizedVehicle>)
    requires order != []
    ensures var before, v := Balance(capacity, order[..|order| - 1]), order[|order| - 1];
            var f := if before.None? then -1 else SelectedFloor(capacity, Loads(before.value, 0, |capacity|), v.space, |capacity|);
            Balance(capacity, order) == if f == -1 then None else Some(before.value[v.ticket := Slot(f, v.space)])
  {
  }

  lemma FrontVehicles(order: seq<SizedVehicle>)
    requires order != [] && DistinctVehicles(order)
    ensures var front, v := order[..|order| - 1], order[|order| - 1];
            order == front + [v] && DistinctVehicles(front) && forall x :: x in front ==> x.ticket != v.ticket
  {
  }

  lemma HoldsOneMore(p: Layout, front: seq<SizedVehicle>, v: SizedVehicle, f: int)
    requires Holds(p, front) && forall x :: x in front ==> x.ticket != v.ticket
    ensures v.ticket !in p && Holds(p[v.ticket := Slot(f, v.space)], front + [v])
  {
  }

  lemma {:induction false} BalanceKeeps(capacity: seq<int>, order: seq<SizedVehicle>)
    requires DistinctVehicles(order) && Balance(capacity, order).Some?
    ensures var p := Balance(capacity, order).value;
            Holds(p, order) && Fits(p, capacity) && Total(p) == Units(order)
  {
    if order != [] {
      hide Load, Loads, Total, Fits, Balance, Holds, DistinctVehicles;
      var n := |order| - 1;
      var front, v := order[..n], order[n];
      FrontVehicles(order);
      LastTaken(capacity, order);
      BalanceKeeps(capacity, front);
      var p := Balance(capacity, front).value;
      var f := SelectedFloor(capacity, Loads(p, 0, |capacity|), v.space, |capacity|);
      HoldsOneMore(p, front, v, f);
      PutKeepsFit(capacity, p, v.ticket, v.space, f);
      TotalPut(p, v.ticket, Slot(f, v.space));
    } else {
      NothingTakesNothing(capacity);
    }
  }

  lemma TotalPut(p: Layout, id: Ticket, slot: Slot)
    requires id !in p
    ensures Total(p[id := slot]) == Total(p) + slot.space
  {
    hide Total;
    TotalRemove(p[id := slot], id);
    assert p[id := slot] - {id} == p;
  }

  lemma NothingTakesNothing(capacity: seq<int>)
    ensures Fits(map[], capacity) && Total(map[]) == 0
  {
  }

  lemma PutKeepsFit(capacity: seq<int>, p: Layout, id: Ticket, space: nat, f: int)
    requires Fits(p, capacity) && id !in p && 0 <= f < |capacity| && Load(p, f) + space <= capacity[f]
    ensures Fits(p[id := Slot(f, space)], capacity)
  {
    hide Load;
    forall g | 0 <= g < |capacity|
      ensures Load(p[id := Slot(f, space)], g) <= Room(capacity[g])
    {
      LoadSet(p, id, Slot(f, space), g);
    }
  }

  lemma {:induction false} BalanceKeepsGap(capacity: seq<int>, order: seq<SizedVehicle>, w: nat)
    requires DistinctVehicles(order) && Balance(capacity, order).Some?
    requires Uniform(capacity) && forall v :: v in order ==> v.space <= w
    ensures WithinGap(Balance(capacity, order).value, |capacity|, w)
  {
    if order != [] {
      hide Load, Loads, WithinGap, Uniform, Balance, DistinctVehicles;
      var n := |order| - 1;
      var front, v := order[..n], order[n];
      FrontVehicles(order);
      LastTaken(capacity, order);
      assert v in order && forall x :: x in front ==> x in order;
      BalanceKeepsGap(capacity, front, w);
      BalanceKeeps(capacity, front);
      var p := Balance(capacity, front).value;
      GapStep(p, capacity, Loads(p, 0, |capacity|), v.ticket, v.space,
              SelectedFloor(capacity, Loads(p, 0, |capacity|), v.space, |capacity|), w);
    }
  }

  // ---------- A refusal needs many units ----------

  lemma {:induction false} RefusedSomewhere(capacity: seq<int>, order: seq<SizedVehicle>, l: Layout)
    requires DistinctVehicles(order) && Balance(capacity, order).None?
    requires forall v :: v in order ==> v.ticket in l && l[v.ticket].space == v.space
    ensures Refusable(l, capacity)
  {
    if order == [] {
      assert false;
    }
    hide Load, Loads, Fits, Balance, DistinctVehicles, Holds;
    var n := |order| - 1;
    var front, v := order[..n], order[n];
    FrontVehicles(order);
    LastTaken(capacity, order);
    assert v in order && forall x :: x in front ==> x in order;
    if Balance(capacity, front).None? {
      RefusedSomewhere(capacity, front, l);
    } else {
      BalanceKeeps(capacity, front);
      var p := Balance(capacity, front).value;
      RefusedNext(capacity, front, l, p, v);
    }
  }

  lemma RefusedNext(capacity: seq<int>, front: seq<SizedVehicle>, l: Layout, p: Layout, v: SizedVehicle)
    requires Holds(p, front) && Fits(p, capacity) && v.ticket in l && l[v.ticket].space == v.space
    requires forall x :: x in front ==> x.ticket in l && l[x.ticket].space == x.space && x.ticket != v.ticket
    requires SelectedFloor(capacity, Loads(p, 0, |capacity|), v.space, |capacity|) == -1
    ensures Refusable(l, capacity)
  {
    hide Load;
    assert forall f :: 0 <= f < |capacity| ==> Loads(p, 0, |capacity|)[f] == Load(p, f);
    assert RefusedAt(l, capacity, p, v.ticket);
  }

  lemma RefusalMeansCrowded(active: Layout, capacity: seq<int>, w: nat)
    requires Uniform(capacity) && |capacity| > 0 && NoneBigger(active, w) && Refusable(active, capacity)
    ensures Total(active) >= |capacity| * (capacity[0] + 1 - w) + w
  {
    hide Load, Total, Sum, Loads;
    var p, id :| RefusedAt(active, capacity, p, id);
    var n, s := |capacity|, active[id].space;
    var least := capacity[0] + 1 - s;
    forall f | 0 <= f < n
      ensures Loads(p, 0, n)[f] >= least
    {
      assert capacity[f] == capacity[0];
    }
    SumAtLeast(Loads(p, 0, n), least);
    SumLoadsTotal(p, 0, n);
    var more := p[id := active[id]];
    TotalRemove(more, id);
    assert more - {id} == p;
    TotalPart(more, active);
    SlackPerFloor(n, capacity[0], s, w);
  }

  lemma SlackPerFloor(n: nat, size: int, s: nat, w: nat)
    requires n > 0 && s <= w
    ensures n * (size + 1 - s) + s >= n * (size + 1 - w) + w
  {
    var gap := w - s;
    assert n * (size + 1 - s) == n * (size + 1 - w) + n * gap;
    assert n * gap >= gap;
  }

  lemma FittingVehicle(l: Layout, capacity: seq<int>, id: Ticket)
    requires Uniform(capacity) && Fits(l, capacity) && KnownSizes(l) && id in l
    ensures 0 < l[id].space <= Widest(Room(capacity[0]))
  {
    LoadRemove(l, id, l[id].floor);
    assert capacity[l[id].floor] == capacity[0];
  }

  lemma FittingTotal(l: Layout, capacity: seq<int>)
    requires Uniform(capacity) && |capacity| > 0 && Fits(l, capacity)
    ensures Total(l) <= |capacity| * Room(capacity[0])
  {
    hide Load, Total, Sum;
    SumLoadsTotal(l, 0, |capacity|);
    forall f | 0 <= f < |capacity|
      ensures Loads(l, 0, |capacity|)[f] <= Room(capacity[0])
    {
      assert capacity[f] == capacity[0];
    }
    SumAtMost(Loads(l, 0, |capacity|), Room(capacity[0]));
  }

  lemma RefusalNeeds(capacity: seq<int>, order: seq<SizedVehicle>, l: Layout, total: nat)
    requires Uniform(capacity) && |capacity| > 0 && Refuses(capacity, order, l, total)
    ensures var room, n := Room(capacity[0]), |capacity|;
            n * (room + 1 - Widest(room)) + Widest(room) <= total <= n * room
  {
    hide Load, Total, Balance;
    FittingTotal(l, capacity);
    RefusedSomewhere(capacity, order, l);
    forall id | id in l
      ensures 0 < l[id].space <= Widest(Room(capacity[0]))
    {
      FittingVehicle(l, capacity, id);
    }
    var p, id :| RefusedAt(l, capacity, p, id);
    assert capacity[0] > 0;
    RefusalMeansCrowded(l, capacity, Widest(Room(capacity[0])));
  }

  // ---------- So many units suffice: bikes first, then the largest vehicle ----------

  function BikeName(i: nat): Ticket {
    seq(i, _ => 'b')
  }

  function Bikes(k: nat): seq<SizedVehicle> {
    seq(k, i requires 0 <= i < k => SizedVehicle(BikeName(i), 1))
  }

  function Big(w: nat): SizedVehicle {
    SizedVehicle("v", w)
  }

  lemma BikesDistinct(k: nat, w: nat)
    ensures DistinctVehicles(Bikes(k)) && DistinctVehicles(Bikes(k) + [Big(w)]) && DistinctVehicles([Big(w)] + Bikes(k))
  {
    assert forall i, j :: 0 <= i < j < k ==> |BikeName(i)| != |BikeName(j)|;
    forall i | 0 <= i < k
      ensures BikeName(i) != "v"
    {
      assert |BikeName(i)| != 1 || BikeName(i)[0] == 'b';
    }
  }

  lemma {:induction false} BikeUnits(k: nat, w: nat)
    ensures Units(Bikes(k)) == k && Units([Big(w)] + Bikes(k)) == w + k
  {
    if k == 0 {
      assert [Big(w)] + Bikes(0) == [Big(w)] && [Big(w)][..0] == [];
    } else {
      BikeUnits(k - 1, w);
      BikesSplit(k, w);
    }
  }

  lemma BikesSplit(k: nat, w: nat)
    requires k > 0
    ensures Bikes(k)[..k - 1] == Bikes(k - 1) && Bikes(k)[k - 1] == SizedVehicle(BikeName(k - 1), 1)
    ensures var order := [Big(w)] + Bikes(k);
            order[..k] == [Big(w)] + Bikes(k - 1) && order[k] == SizedVehicle(BikeName(k - 1), 1)
  {
  }

  /** While units are left, some floor has room for a bike. */
  lemma RoomForABike(capacity: seq<int>, p: Layout)
    requires Uniform(capacity) && |capacity| > 0 && Fits(p, capacity) && Total(p) < |capacity| * Room(capacity[0])
    ensures SelectedFloor(capacity, Loads(p, 0, |capacity|), 1, |capacity|) != -1
  {
    hide Load, Total, Sum;
    var n := |capacity|;
    if SelectedFloor(capacity, Loads(p, 0, n), 1, n) == -1 {
      forall f | 0 <= f < n
        ensures Loads(p, 0, n)[f] >= Room(capacity[0])
      {
        assert capacity[f] == capacity[0];
      }
      SumAtLeast(Loads(p, 0, n), Room(capacity[0]));
      SumLoadsTotal(p, 0, n);
      assert false;
    }
  }

  lemma BigAlone(capacity: seq<int>, w: nat)
    requires |capacity| > 0 && w <= capacity[0]
    ensures Balance(capacity, [Big(w)]).Some?
  {
    hide SelectedFloor;
    assert [Big(w)][..0] == [] && [Big(w)][0] == Big(w);
    var used := Loads(map[], 0, |capacity|);
    assert capacity[0] - used[0] >= w;
  }

  /** With the largest vehicle first, everything finds room. */
  lemma {:induction false} BigFirst(capacity: seq<int>, k: nat, w: nat)
    requires Uniform(capacity) && |capacity| > 0 && w <= capacity[0] && w + k <= |capacity| * capacity[0]
    ensures Balance(capacity, [Big(w)] + Bikes(k)).Some?
  {
    hide Total, Fits, Load, Loads, Balance, Holds, DistinctVehicles, Units, SelectedFloor;
    var order := [Big(w)] + Bikes(k);
    LastTaken(capacity, order);
    if k == 0 {
      BigAlone(capacity, w);
      assert order == [Big(w)];
    } else {
      BikesSplit(k, w);
      BigFirst(capacity, k - 1, w);
      BikesDistinct(k - 1, w);
      BikeUnits(k - 1, w);
      BalanceKeeps(capacity, order[..k]);
      RoomForABike(capacity, Balance(capacity, order[..k]).value);
    }
  }

  /** Bikes are spread so evenly that, if there are enough, no floor keeps room for the largest vehicle. */
  lemma BikesFirst(capacity: seq<int>, k: nat, w: nat)
    requires Uniform(capacity) && |capacity| > 0 && k >= |capacity| * (capacity[0] + 1 - w)
    ensures Balance(capacity, Bikes(k) + [Big(w)]).None?
  {
    hide Load, Total, Sum, Loads, Fits, Balance, SelectedFloor, DistinctVehicles, Holds, Units, Uniform;
    var order, n := Bikes(k) + [Big(w)], |capacity|;
    assert order[..k] == Bikes(k) && order[k] == Big(w);
    LastTaken(capacity, order);
    if Balance(capacity, Bikes(k)).Some? {
      BikesDistinct(k, w);
      BikeUnits(k, w);
      BalanceKeeps(capacity, Bikes(k));
      BalanceKeepsGap(capacity, Bikes(k), 1);
      var p := Balance(capacity, Bikes(k)).value;
      FitsFloors(p, capacity);
      SumLoadsTotal(p, 0, n);
      var f := SelectedFloor(capacity, Loads(p, 0, n), w, n);
      if f != -1 {
        NoFloorSoEmpty(capacity, p, f, w);
      }
    }
  }

  lemma NoFloorSoEmpty(capacity: seq<int>, p: Layout, f: nat, w: nat)
    requires Uniform(capacity) && WithinGap(p, |capacity|, 1) && f < |capacity|
    requires Sum(Loads(p, 0, |capacity|)) >= |capacity| * (capacity[0] + 1 - w)
    ensures capacity[f] - Loads(p, 0, |capacity|)[f] < w
  {
    hide Load, Sum;
    assert capacity[f] == capacity[0];
    if capacity[f] - Loads(p, 0, |capacity|)[f] >= w {
      EvenLoads(Loads(p, 0, |capacity|), f, capacity[0] + 1 - w);
    }
  }

  lemma FitsFloors(p: Layout, capacity: seq<int>)
    requires Fits(p, capacity)
    ensures forall id :: id in p ==> 0 <= p[id].floor < |capacity|
  {
  }

  lemma EvenLoads(xs: seq<nat>, f: nat, most: int)
    requires f < |xs| && xs[f] < most && forall g :: 0 <= g < |xs| ==> xs[g] <= xs[f] + 1
    ensures Sum(xs) < |xs| * most
  {
    hide Sum;
    SumAndUsedUpdate(xs, f, xs[f] + 1);
    SumAtMost(xs[f := xs[f] + 1], most);
  }

  lemma EnoughToRefuse(capacity: seq<int>, total: nat)
    requires Uniform(capacity) && |capacity| > 0
    requires var room, n := Room(capacity[0]), |capacity|;
             n * (room + 1 - Widest(room)) + Widest(room) <= total <= n * room
    ensures MayRefuse(capacity, total)
  {
    hide Load, Total, Balance, Fits;
    var room, n := Room(capacity[0]), |capacity|;
    var w := Widest(room);
    WidestIsKnown(n, room, total);
    var k := total - w;
    BigFirst(capacity, k, w);
    BikesFirst(capacity, k, w);
    BikesDistinct(k, w);
    BikeUnits(k, w);
    BalanceKeeps(capacity, [Big(w)] + Bikes(k));
    var l := Balance(capacity, [Big(w)] + Bikes(k)).value;
    SameVehiclesListed(k, w, l);
    assert Refuses(capacity, Bikes(k) + [Big(w)], l, total);
  }

  lemma WidestIsKnown(n: nat, room: nat, total: nat)
    requires n * (room + 1 - Widest(room)) + Widest(room) <= total <= n * room && n > 0
    ensures exists t :: VehicleSpace(t) == Widest(room) > 0
    ensures total >= Widest(room)
  {
    assert room == 0 ==> n * (room + 1 - Widest(room)) == n && n * room == 0;
    assert room >= 6 ==> VehicleSpace(Truck) == Widest(room);
    assert 2 <= room < 6 ==> VehicleSpace(Car) == Widest(room);
    assert room == 1 ==> VehicleSpace(Bike) == Widest(room);
    assert n * (room + 1 - Widest(room)) >= 0;
  }

  lemma SameVehiclesListed(k: nat, w: nat, l: Layout)
    requires Holds(l, [Big(w)] + Bikes(k)) && exists t :: VehicleSpace(t) == w > 0
    ensures Lists(Bikes(k) + [Big(w)], l) && KnownSizes(l)
  {
    BikesDistinct(k, w);
    var order := Bikes(k) + [Big(w)];
    assert forall v :: v in order <==> v in [Big(w)] + Bikes(k);
    forall id | id in l
      ensures exists t :: l[id].space == VehicleSpace(t) > 0
    {
      assert l[id].space == w || l[id].space == VehicleSpace(Bike);
    }
  }

  /** On `n` equal floors with room `R` each, whose largest vehicle takes `W` units: some vehicles of
      `total` units fit and are refused in some order, if and only if `n * (R + 1 - W) + W <= total <= n * R`.
      On floors with room for a truck that is `n * (R - 5) + 6 <= total`. */
  lemma RefusalCondition(capacity: seq<int>, total: nat)
    requires Uniform(capacity) && |capacity| > 0
    ensures var room, n := Room(capacity[0]), |capacity|;
            MayRefuse(capacity, total) <==> n * (room + 1 - Widest(room)) + Widest(room) <= total <= n * room
  {
    hide Refuses;
    if order, l :| Refuses(capacity, order, l, total) {
      RefusalNeeds(capacity, order, l, total);
    }
    var room, n := Room(capacity[0]), |capacity|;
    if n * (room + 1 - Widest(room)) + Widest(room) <= total <= n * room {
      EnoughToRefuse(capacity, total);
    }
  }

  /** Two bikes and then a truck, on two floors of six units: refused, though they fit. */
  lemma BikesThenTruck()
    ensures Balance([6, 6], [SizedVehicle("", 1), SizedVehicle("b", 1), SizedVehicle("v", 6)]).None?
    ensures MayRefuse([6, 6], 8) && !MayRefuse([6, 6], 7)
  {
    RefusalCondition([6, 6], 8);
    RefusalCondition([6, 6], 7);
    BikesFirst([6, 6], 2, 6);
    assert BikeName(0) == "" && BikeName(1) == "b";
    assert Bikes(2) + [Big(6)] == [SizedVehicle("", 1), SizedVehicle("b", 1), SizedVehicle("v", 6)];
  }
}
