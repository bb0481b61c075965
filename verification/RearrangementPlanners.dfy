/** The three planners that rebuild the whole reserved layout when the parking strategy changes.

  Each goes through the vehicles whose retrieval has not been requested, assigns every one a floor,
  and lists a move for every vehicle whose floor changes. */
module RearrangementPlanners {
  import opened Options
  import opened ParkingModels
  import opened Packing

  // ---------- What all planners keep ----------

  /** `moves` take every vehicle of `p` from its present floor to the one `p` gives it. */
  ghost predicate IsPlan(active: Layout, p: Layout, moves: seq<VehicleMove>) {
    && DistinctTickets(moves)
    && (forall m | m in moves ::
      && m.ticket in p && m.ticket in active
      && m.from == active[m.ticket].floor && m.to == p[m.ticket].floor && m.from != m.to)
    && (forall id | id in p && id in active && p[id].floor != active[id].floor ::
      VehicleMove(id, active[id].floor, p[id].floor) in moves)
  }

  /** Part of the vehicles have been placed; `used` adds up their floors. */
  ghost predicate Partial(active: Layout, capacity: seq<int>, p: Layout, used: seq<int>, moves: seq<VehicleMove>) {
    && Fits(p, capacity)
    && p.Keys <= active.Keys
    && (forall id :: id in p ==> p[id].space == active[id].space)
    && |used| == |capacity|
    && (forall f :: 0 <= f < |used| ==> used[f] == Load(p, f))
    && IsPlan(active, p, moves)
  }

  ghost predicate ValidPlan(active: Layout, capacity: seq<int>, moves: seq<VehicleMove>) {
    var p := Planned(active, IndexByTicket(moves));
    IsPlan(active, p, moves) && Fits(p, capacity)
  }

  lemma NothingPlaced(active: Layout, capacity: seq<int>, used: seq<int>)
    requires |used| == |capacity| && forall f :: 0 <= f < |used| ==> used[f] == 0
    ensures Partial(active, capacity, map[], used, [])
  {
  }

  function MovesWith(moves: seq<VehicleMove>, m: VehicleMove): seq<VehicleMove> {
    if m.from != m.to then moves + [m] else moves
  }

  lemma Place(active: Layout, capacity: seq<int>, p: Layout, used: seq<int>, moves: seq<VehicleMove>, id: Ticket, f: nat)
    requires Partial(active, capacity, p, used, moves)
    requires id in active && id !in p && f < |capacity| && used[f] + active[id].space <= capacity[f]
    ensures Partial(active, capacity, p[id := Slot(f, active[id].space)], used[f := used[f] + active[id].space],
                    MovesWith(moves, VehicleMove(id, active[id].floor, f)))
  {
    hide Load;
    var p' := p[id := Slot(f, active[id].space)];
    forall g
      ensures Load(p', g) == Load(p, g) + if g == f then active[id].space else 0
    {
      LoadSet(p, id, Slot(f, active[id].space), g);
    }
    PlaceMove(active, p, moves, id, Slot(f, active[id].space));
  }

  lemma PlaceMove(active: Layout, p: Layout, moves: seq<VehicleMove>, id: Ticket, s: Slot)
    requires IsPlan(active, p, moves) && id in active && id !in p
    ensures IsPlan(active, p[id := s], MovesWith(moves, VehicleMove(id, active[id].floor, s.floor)))
  {
    var moves' := MovesWith(moves, VehicleMove(id, active[id].floor, s.floor));
    forall i, j | 0 <= i < j < |moves'|
      ensures moves'[i].ticket != moves'[j].ticket
    {
      assert moves'[i] in moves && moves'[i].ticket in p;
    }
  }

  /** Once everything is placed, carrying out the moves produces exactly the layout built up. */
  lemma PlanComplete(active: Layout, capacity: seq<int>, p: Layout, used: seq<int>, moves: seq<VehicleMove>)
    requires Partial(active, capacity, p, used, moves) && active.Keys <= p.Keys
    ensures Planned(active, IndexByTicket(moves)) == p && ValidPlan(active, capacity, moves)
  {
    hide Load;
    var plan := IndexByTicket(moves);
    IndexByTicketOf(moves);
    forall id | id in active
      ensures Planned(active, plan)[id] == p[id]
    {
      if p[id].floor != active[id].floor {
        assert VehicleMove(id, active[id].floor, p[id].floor) in moves;
      } else if id in plan {
        assert plan[id] in moves;
      }
    }
    assert Planned(active, plan) == p;
  }

  // ---------- Compaction: best fit, largest vehicles first ----------

  const MAX_INT: int := 0x7fff_ffff_ffff_ffff

  datatype SizedVehicle = SizedVehicle(ticket: Ticket, space: nat)

  ghost predicate Lists(vehicles: seq<SizedVehicle>, l: Layout) {
    && (forall i, j :: 0 <= i < j < |vehicles| ==> vehicles[i].ticket != vehicles[j].ticket)
    && (forall v :: v in vehicles ==> v.ticket in l && v.space == l[v.ticket].space)
    && (forall id :: id in l ==> SizedVehicle(id, l[id].space) in vehicles)
  }

  lemma ListsStep(vehicles: seq<SizedVehicle>, records: map<Ticket, ParkingRecord>, rest: set<Ticket>, id: Ticket)
    requires Lists(vehicles, Active(records) - rest) && id in rest
    ensures id !in Active(records) ==> Lists(vehicles, Active(records) - (rest - {id}))
    ensures id in Active(records) ==>
      Lists(vehicles + [SizedVehicle(id, Active(records)[id].space)], Active(records) - (rest - {id}))
  {
    var l := Active(records) - (rest - {id});
    if id in Active(records) {
      assert l == (Active(records) - rest)[id := Active(records)[id]];
      assert forall v :: v in vehicles ==> v.ticket != id;
    } else {
      assert l == Active(records) - rest;
    }
  }

  method CollectVehicles(records: map<Ticket, ParkingRecord>) returns (vehicles: seq<SizedVehicle>)
    ensures Lists(vehicles, Active(records))
  {
    vehicles := [];
    var rest := records.Keys;
    while rest != {}
      invariant rest <= records.Keys
      invariant Lists(vehicles, Active(records) - rest)
      decreases |rest|
    {
      var id :| id in rest;
      ListsStep(vehicles, records, rest, id);
      rest := rest - {id};
      if records[id].unparkRequested {
        continue;
      }
      var requiredSpace := VehicleSpace(records[id].vehicle);
      if requiredSpace == 0 {
        continue;
      }
      vehicles := vehicles + [SizedVehicle(id, requiredSpace)];
    }
    assert Active(records) - {} == Active(records);
  }

  ghost predicate Descending(vehicles: seq<SizedVehicle>) {
    forall i, j :: 0 <= i < j < |vehicles| ==> vehicles[i].space >= vehicles[j].space
  }

  /** Any descending permutation will do; the library sort is not stable. */
  method SortBySpaceDescending(vehicles: seq<SizedVehicle>) returns (sorted: seq<SizedVehicle>)
    ensures Descending(sorted) && multiset(sorted) == multiset(vehicles)
  {
    sorted := [];
    for k := 0 to |vehicles|
      invariant Descending(sorted) && multiset(sorted) == multiset(vehicles[..k])
    {
      assert vehicles[..k + 1] == vehicles[..k] + [vehicles[k]];
      sorted := InsertDescending(sorted, vehicles[k]);
    }
    assert vehicles[..|vehicles|] == vehicles;
  }

  method InsertDescending(sorted: seq<SizedVehicle>, v: SizedVehicle) returns (inserted: seq<SizedVehicle>)
    requires Descending(sorted)
    ensures Descending(inserted) && multiset(inserted) == multiset(sorted) + multiset{v}
  {
    hide Descending;
    var i := 0;
    while i < |sorted| && sorted[i].space >= v.space
      invariant 0 <= i <= |sorted|
      invariant forall j :: 0 <= j < i ==> sorted[j].space >= v.space
    {
      i := i + 1;
    }
    inserted := sorted[..i] + [v] + sorted[i..];
    InsertedInPlace(sorted, v, i);
    InsertedMembers(sorted, v, i);
  }

  lemma InsertedMembers(sorted: seq<SizedVehicle>, v: SizedVehicle, i: nat)
    requires i <= |sorted|
    ensures multiset(sorted[..i] + [v] + sorted[i..]) == multiset(sorted) + multiset{v}
  {
    assert sorted == sorted[..i] + sorted[i..];
  }

  lemma InsertedInPlace(sorted: seq<SizedVehicle>, v: SizedVehicle, i: nat)
    requires Descending(sorted) && i <= |sorted|
    requires forall j :: 0 <= j < i ==> sorted[j].space >= v.space
    requires i < |sorted| ==> sorted[i].space < v.space
    ensures Descending(sorted[..i] + [v] + sorted[i..])
  {
    var inserted := sorted[..i] + [v] + sorted[i..];
    forall j, k | 0 <= j < k < |inserted|
      ensures inserted[j].space >= inserted[k].space
    {
      assert inserted[j] == if j < i then sorted[j] else if j == i then v else sorted[j - 1];
      assert inserted[k] == if k < i then sorted[k] else if k == i then v else sorted[k - 1];
    }
  }

  lemma ListsPermutation(a: seq<SizedVehicle>, b: seq<SizedVehicle>, l: Layout)
    requires Lists(a, l) && multiset(a) == multiset(b)
    ensures Lists(b, l)
  {
    assert forall v :: v in b <==> v in multiset(b);
    assert forall v :: v in a <==> v in multiset(a);
    forall i, j | 0 <= i < j < |b|
      ensures b[i].ticket != b[j].ticket
    {
      assert b[i] in multiset(b) && b[j] in multiset(b);
      if b[i] == b[j] {
        ListedTwice(b, i, j);
        ListedOnce(a, b[i]);
      }
    }
  }

  lemma ListedTwice(b: seq<SizedVehicle>, i: nat, j: nat)
    requires i < j < |b| && b[i] == b[j]
    ensures multiset(b)[b[i]] >= 2
  {
    assert b == b[..j] + [b[j]] + b[j + 1..];
    assert b[i] in b[..j];
  }

  lemma {:induction false} ListedOnce(a: seq<SizedVehicle>, v: SizedVehicle)
    requires forall i, j :: 0 <= i < j < |a| ==> a[i].ticket != a[j].ticket
    ensures multiset(a)[v] <= 1
  {
    if a != [] {
      assert a == [a[0]] + a[1..];
      ListedOnce(a[1..], v);
      if v == a[0] {
        assert v !in a[1..];
      }
    }
  }

  ghost predicate IsBestFit(capacity: seq<int>, used: seq<int>, space: nat, best: int)
    requires |used| == |capacity|
  {
    && 0 <= best < |capacity|
    && capacity[best] - used[best] >= space
    && (forall f :: 0 <= f < |capacity| && capacity[f] - used[f] >= space ==>
      capacity[best] - used[best] < capacity[f] - used[f] || (capacity[best] - used[best] == capacity[f] - used[f] && best <= f))
  }

  ghost predicate NoneFits(capacity: seq<int>, used: seq<int>, space: nat)
    requires |used| == |capacity|
  {
    forall f :: 0 <= f < |capacity| ==> capacity[f] - used[f] < space
  }

  /** The fitting floor with the least room left over, the first of these. Loads are not negative and capacities are machine integers. */
  method BestFit(capacity: seq<int>, usedSpace: array<int>, space: nat) returns (bestFloor: int)
    requires usedSpace.Length == |capacity| && space > 0
    requires forall f :: 0 <= f < |capacity| ==> capacity[f] <= MAX_INT && usedSpace[f] >= 0
    ensures bestFloor == -1 ==> NoneFits(capacity, usedSpace[..], space)
    ensures bestFloor != -1 ==> IsBestFit(capacity, usedSpace[..], space, bestFloor)
  {
    bestFloor := -1;
    var bestRemaining := MAX_INT;
    for i := 0 to |capacity|
      invariant -1 <= bestFloor < i
      invariant bestFloor == -1 ==> bestRemaining == MAX_INT
      invariant bestFloor == -1 ==> forall f :: 0 <= f < i ==> capacity[f] - usedSpace[f] < space
      invariant bestFloor != -1 ==> bestRemaining == capacity[bestFloor] - usedSpace[bestFloor] - space >= 0
      invariant bestFloor != -1 ==> forall f :: 0 <= f < i && capacity[f] - usedSpace[f] >= space ==>
        bestRemaining < capacity[f] - usedSpace[f] - space || (bestRemaining == capacity[f] - usedSpace[f] - space && bestFloor <= f)
    {
      var remaining := capacity[i] - usedSpace[i];
      if remaining >= space && remaining - space < bestRemaining {
        bestRemaining := remaining - space;
        bestFloor := i;
      }
    }
  }

  /** No assignment of these vehicles, possibly with others, uses fewer floors. */
  ghost predicate FewestFloors(p: Layout, capacity: seq<int>) {
    forall a :: Rival(a, p, capacity) ==> Occupied(p, |capacity|) <= Occupied(a, |capacity|)
  }

  lemma OccupiedSet(l: Layout, id: Ticket, s: Slot, n: nat)
    requires id !in l && s.space > 0 && 0 <= s.floor < n
    ensures Occupied(l[id := s], n) == Occupied(l, n) + if Load(l, s.floor) == 0 then 1 else 0
  {
    hide Load, Used;
    LoadsSet(l, id, s, 0, n);
    SumAndUsedUpdate(Loads(l, 0, n), s.floor, Load(l, s.floor) + s.space);
  }

  lemma BestFitKeepsFewest(p: Layout, id: Ticket, t: VehicleType, capacity: seq<int>, used: seq<int>, best: int)
    requires Uniform(capacity) && VehicleSpace(t) > 0 && Multiples(p, t) && id !in p
    requires Fits(p, capacity) && FewestFloors(p, capacity)
    requires |used| == |capacity| && forall f :: 0 <= f < |used| ==> used[f] == Load(p, f)
    requires IsBestFit(capacity, used, VehicleSpace(t), best)
    ensures FewestFloors(p[id := Slot(best, VehicleSpace(t))], capacity)
  {
    hide Load, Occupied;
    var p' := p[id := Slot(best, VehicleSpace(t))];
    OccupiedSet(p, id, Slot(best, VehicleSpace(t)), |capacity|);
    forall a | Rival(a, p', capacity)
      ensures Occupied(p', |capacity|) <= Occupied(a, |capacity|)
    {
      RivalOfPart(a, p', p, capacity);
      if Load(p, best) == 0 {
        RivalOfPart(a, p', WithOneMore(p, id, t), capacity);
        forall f | 0 <= f < |capacity| && Load(p, f) > 0
          ensures Load(p, f) + VehicleSpace(t) > capacity[f]
        {
          assert capacity[f] == capacity[best];
        }
        NewFloorNeeded(p, id, t, capacity, a);
      }
    }
  }

  lemma RivalOfPart(a: Layout, p: Layout, part: Layout, capacity: seq<int>)
    requires Rival(a, p, capacity) && part.Keys <= p.Keys && forall id :: id in part ==> part[id].space == p[id].space
    ensures Rival(a, part, capacity)
  {
  }

  lemma NothingUsesNoFloor(capacity: seq<int>)
    ensures FewestFloors(map[], capacity)
  {
    SumOfZeros(Loads(map[], 0, |capacity|));
  }

  /** Placed so far: vehicles `vehicles[..k]`, all at least as big as the rest. */
  ghost predicate PlacedPrefix(vehicles: seq<SizedVehicle>, k: nat, p: Layout) {
    && k <= |vehicles|
    && (forall i :: 0 <= i < |vehicles| ==> (vehicles[i].ticket in p <==> i < k))
    && (forall id, i :: id in p && k <= i < |vehicles| ==> p[id].space >= vehicles[i].space)
  }

  lemma PlacedPrefixStep(vehicles: seq<SizedVehicle>, k: nat, p: Layout, s: Slot)
    requires PlacedPrefix(vehicles, k, p) && k < |vehicles| && Descending(vehicles) && s.space == vehicles[k].space
    requires forall i, j :: 0 <= i < j < |vehicles| ==> vehicles[i].ticket != vehicles[j].ticket
    ensures PlacedPrefix(vehicles, k + 1, p[vehicles[k].ticket := s])
  {
  }

  /** Vehicles at least as big as one of type `t` are multiples of its size. */
  lemma BiggerAreMultiples(records: map<Ticket, ParkingRecord>, p: Layout, t: VehicleType)
    requires VehicleSpace(t) > 0
    requires p.Keys <= Active(records).Keys
    requires forall id :: id in p ==> p[id].space == Active(records)[id].space && p[id].space >= VehicleSpace(t)
    ensures Multiples(p, t)
  {
    forall id | id in p
      ensures p[id].space % VehicleSpace(t) == 0
    {
      SpacesDivide(t, records[id].vehicle);
    }
  }

  /** What holds after the `k` largest vehicles have been placed. */
  ghost predicate CompactionState(active: Layout, capacity: seq<int>, sorted: seq<SizedVehicle>, k: nat,
                                  p: Layout, used: seq<int>, moves: seq<VehicleMove>)
  {
    && Partial(active, capacity, p, used, moves)
    && PlacedPrefix(sorted, k, p)
    && (Uniform(capacity) ==> FewestFloors(p, capacity))
  }

  ghost predicate Sorted(active: Layout, sorted: seq<SizedVehicle>) {
    Lists(sorted, active) && Descending(sorted)
  }

  lemma CompactionStart(active: Layout, capacity: seq<int>, sorted: seq<SizedVehicle>, used: seq<int>)
    requires |used| == |capacity| && forall f :: 0 <= f < |used| ==> used[f] == 0
    ensures CompactionState(active, capacity, sorted, 0, map[], used, [])
  {
    NothingPlaced(active, capacity, used);
    NothingUsesNoFloor(capacity);
  }

  lemma NextVehicle(records: map<Ticket, ParkingRecord>, capacity: seq<int>, sorted: seq<SizedVehicle>, k: nat,
                    p: Layout, used: seq<int>, moves: seq<VehicleMove>)
    requires CompactionState(Active(records), capacity, sorted, k, p, used, moves)
    requires Sorted(Active(records), sorted) && k < |sorted|
    ensures |used| == |capacity| && forall f :: 0 <= f < |used| ==> used[f] >= 0
    ensures var id := sorted[k].ticket;
            && id in Active(records) && id !in p
            && Active(records)[id] == Slot(records[id].target, VehicleSpace(records[id].vehicle))
            && sorted[k].space == VehicleSpace(records[id].vehicle) > 0
            && Multiples(p, records[id].vehicle)
  {
    hide Load, FewestFloors;
    assert sorted[k] in sorted;
    BiggerAreMultiples(records, p, records[sorted[k].ticket].vehicle);
  }

  lemma CompactionStep(records: map<Ticket, ParkingRecord>, capacity: seq<int>, sorted: seq<SizedVehicle>, k: nat,
                       p: Layout, used: seq<int>, moves: seq<VehicleMove>, f: int)
    requires CompactionState(Active(records), capacity, sorted, k, p, used, moves)
    requires Sorted(Active(records), sorted) && k < |sorted| && |used| == |capacity|
    requires IsBestFit(capacity, used, sorted[k].space, f)
    ensures CompactionState(Active(records), capacity, sorted, k + 1, p[sorted[k].ticket := Slot(f, sorted[k].space)],
              used[f := used[f] + sorted[k].space],
              MovesWith(moves, VehicleMove(sorted[k].ticket, records[sorted[k].ticket].target, f)))
  {
    hide Load, FewestFloors, IsPlan, Multiples;
    NextVehicle(records, capacity, sorted, k, p, used, moves);
    Place(Active(records), capacity, p, used, moves, sorted[k].ticket, f);
    PlacedPrefixStep(sorted, k, p, Slot(f, sorted[k].space));
    if Uniform(capacity) {
      BestFitKeepsFewest(p, sorted[k].ticket, records[sorted[k].ticket].vehicle, capacity, used, f);
    }
  }

  method PlanCompaction(capacity: seq<int>, records: map<Ticket, ParkingRecord>) returns (plan: Option<seq<VehicleMove>>)
    requires forall f :: 0 <= f < |capacity| ==> capacity[f] <= MAX_INT
    ensures |capacity| == 0 ==> plan == Some([])
    ensures |capacity| > 0 && plan.Some? ==> ValidPlan(Active(records), capacity, plan.value)
    ensures |capacity| > 0 ==> (plan.None? <==> !exists a :: Rival(a, Active(records), capacity))
    ensures |capacity| > 0 && plan.Some? && Uniform(capacity) ==>
      FewestFloors(Planned(Active(records), IndexByTicket(plan.value)), capacity)
  {
    hide Load, FewestFloors, CompactionState, Sorted, Multiples, ValidPlan, Rival, Planned;
    if |capacity| == 0 {
      return Some([]);
    }
    ghost var active := Active(records);
    var sorted := SortedVehicles(records);
    var usedSpace := new int[|capacity|](_ => 0);
    var moves: seq<VehicleMove> := [];
    ghost var p: Layout := map[];
    CompactionStart(active, capacity, sorted, usedSpace[..]);
    for k := 0 to |sorted|
      invariant CompactionState(active, capacity, sorted, k, p, usedSpace[..], moves)
    {
      var v := sorted[k];
      ghost var used := usedSpace[..];
      NextVehicle(records, capacity, sorted, k, p, used, moves);
      var bestFloor := BestFit(capacity, usedSpace, v.space);
      if bestFloor == -1 {
        CompactionImpossible(records, capacity, sorted, k, p, used, moves);
        return None;
      }
      CompactionStep(records, capacity, sorted, k, p, used, moves, bestFloor);
      p := p[v.ticket := Slot(bestFloor, v.space)];
      usedSpace[bestFloor] := usedSpace[bestFloor] + v.space;
      assert usedSpace[..] == used[bestFloor := used[bestFloor] + v.space];
      var record := records[v.ticket];
      if record.target != bestFloor {
        moves := moves + [VehicleMove(v.ticket, record.target, bestFloor)];
      }
    }
    CompactionDone(active, capacity, sorted, p, usedSpace[..], moves);
    return Some(moves);
  }

  method SortedVehicles(records: map<Ticket, ParkingRecord>) returns (sorted: seq<SizedVehicle>)
    ensures Sorted(Active(records), sorted)
  {
    var vehicles := CollectVehicles(records);
    sorted := SortBySpaceDescending(vehicles);
    ListsPermutation(vehicles, sorted, Active(records));
  }

  lemma CompactionDone(active: Layout, capacity: seq<int>, sorted: seq<SizedVehicle>, p: Layout, used: seq<int>, moves: seq<VehicleMove>)
    requires CompactionState(active, capacity, sorted, |sorted|, p, used, moves) && Sorted(active, sorted)
    ensures Rival(p, active, capacity) && p == Planned(active, IndexByTicket(moves))
    ensures ValidPlan(active, capacity, moves)
    ensures Uniform(capacity) ==> FewestFloors(p, capacity)
  {
    hide Load, FewestFloors, IsPlan, ValidPlan;
    AllPlaced(sorted, active, p);
    PlanComplete(active, capacity, p, used, moves);
  }

  lemma AllPlaced(sorted: seq<SizedVehicle>, active: Layout, p: Layout)
    requires Lists(sorted, active) && PlacedPrefix(sorted, |sorted|, p)
    ensures active.Keys <= p.Keys
  {
    forall id | id in active
      ensures id in p
    {
      var i :| 0 <= i < |sorted| && sorted[i] == SizedVehicle(id, active[id].space);
    }
  }

  lemma CompactionImpossible(records: map<Ticket, ParkingRecord>, capacity: seq<int>, sorted: seq<SizedVehicle>, k: nat,
                             p: Layout, used: seq<int>, moves: seq<VehicleMove>)
    requires CompactionState(Active(records), capacity, sorted, k, p, used, moves)
    requires Sorted(Active(records), sorted) && k < |sorted| && |used| == |capacity|
    requires NoneFits(capacity, used, sorted[k].space)
    ensures forall a :: !Rival(a, Active(records), capacity)
  {
    hide Load, FewestFloors, IsPlan, Sorted, PlacedPrefix;
    NextVehicle(records, capacity, sorted, k, p, used, moves);
    var id, t := sorted[k].ticket, records[sorted[k].ticket].vehicle;
    forall a: Layout
      ensures !Rival(a, Active(records), capacity)
    {
      if Rival(a, Active(records), capacity) {
        RivalOfPart(a, Active(records), WithOneMore(p, id, t), capacity);
        NoRoomAnywhere(p, id, t, capacity, 0, |capacity|, a);
        assert false;
      }
    }
  }

  // ---------- Load balancing: least loaded floor first, any vehicle order ----------

  /** No floor carries over `w` more than another. */
  ghost predicate WithinGap(p: Layout, n: nat, w: nat) {
    forall f, g :: 0 <= f < n && 0 <= g < n ==> Load(p, f) <= Load(p, g) + w
  }

  ghost predicate NoneBigger(l: Layout, w: nat) {
    forall id :: id in l ==> l[id].space <= w
  }

  ghost predicate IsLeastLoaded(capacity: seq<int>, used: seq<int>, space: nat, f: int)
    requires |used| == |capacity|
  {
    && 0 <= f < |capacity|
    && capacity[f] - used[f] >= space
    && (forall g :: 0 <= g < |capacity| && capacity[g] - used[g] >= space ==>
      used[f] < used[g] || (used[f] == used[g] && f <= g))
  }

  /** The first of the least loaded floors with room, among the first `n`, or -1. */
  function SelectedFloor(capacity: seq<int>, used: seq<int>, space: nat, n: nat): (f: int)
    requires n <= |capacity| == |used|
    ensures -1 <= f < n
    ensures f == -1 ==> forall g :: 0 <= g < n ==> capacity[g] - used[g] < space
    ensures f != -1 ==> capacity[f] - used[f] >= space
    ensures f != -1 ==> forall g :: 0 <= g < n && capacity[g] - used[g] >= space ==>
      used[f] < used[g] || (used[f] == used[g] && f <= g)
  {
    if n == 0 then -1
    else
      var before := SelectedFloor(capacity, used, space, n - 1);
      if used[n - 1] + space > capacity[n - 1] then before
      else if before == -1 || used[n - 1] < used[before] then n - 1
      else before
  }

  method LeastLoaded(capacity: seq<int>, usedSpace: array<int>, space: nat) returns (selectedFloor: int)
    requires usedSpace.Length == |capacity|
    ensures selectedFloor == -1 ==> NoneFits(capacity, usedSpace[..], space)
    ensures selectedFloor != -1 ==> IsLeastLoaded(capacity, usedSpace[..], space, selectedFloor)
    ensures selectedFloor == SelectedFloor(capacity, usedSpace[..], space, |capacity|)
  {
    selectedFloor := -1;
    for i := 0 to |capacity|
      invariant selectedFloor == SelectedFloor(capacity, usedSpace[..], space, i)
    {
      if usedSpace[i] + space > capacity[i] {
        continue;
      }
      if selectedFloor == -1 || usedSpace[i] < usedSpace[selectedFloor] {
        selectedFloor := i;
      }
    }
  }

  ghost predicate Remaining(records: map<Ticket, ParkingRecord>, rest: set<Ticket>, p: Layout) {
    rest <= records.Keys && p.Keys == Active(records).Keys - rest
  }

  ghost predicate LoadState(records: map<Ticket, ParkingRecord>, capacity: seq<int>, rest: set<Ticket>,
                            p: Layout, used: seq<int>, moves: seq<VehicleMove>)
  {
    && Partial(Active(records), capacity, p, used, moves)
    && Remaining(records, rest, p)
    && (Uniform(capacity) ==> forall w: nat :: NoneBigger(Active(records), w) ==> WithinGap(p, |capacity|, w))
  }

  lemma LoadStart(records: map<Ticket, ParkingRecord>, capacity: seq<int>, used: seq<int>)
    requires |used| == |capacity| && forall f :: 0 <= f < |used| ==> used[f] == 0
    ensures LoadState(records, capacity, records.Keys, map[], used, [])
  {
    NothingPlaced(Active(records), capacity, used);
  }

  lemma LoadStep(records: map<Ticket, ParkingRecord>, capacity: seq<int>, rest: set<Ticket>, id: Ticket,
                 p: Layout, used: seq<int>, moves: seq<VehicleMove>, f: int)
    requires LoadState(records, capacity, rest, p, used, moves) && |used| == |capacity|
    requires id in rest && id in Active(records)
    requires IsLeastLoaded(capacity, used, Active(records)[id].space, f)
    ensures var space := Active(records)[id].space;
            LoadState(records, capacity, rest - {id}, p[id := Slot(f, space)], used[f := used[f] + space],
                      MovesWith(moves, VehicleMove(id, records[id].target, f)))
  {
    hide Load, IsPlan;
    var space := Active(records)[id].space;
    Place(Active(records), capacity, p, used, moves, id, f);
    if Uniform(capacity) {
      forall w: nat | NoneBigger(Active(records), w)
        ensures WithinGap(p[id := Slot(f, space)], |capacity|, w)
      {
        assert WithinGap(p, |capacity|, w);
        GapStep(p, capacity, used, id, space, f, w);
      }
    }
  }

  /** The least loaded floor that fits is the least loaded of all, because all floors are equally big. */
  lemma GapStep(p: Layout, capacity: seq<int>, used: seq<int>, id: Ticket, space: nat, f: int, w: nat)
    requires Uniform(capacity) && id !in p && space <= w && WithinGap(p, |capacity|, w)
    requires |used| == |capacity| && forall g :: 0 <= g < |used| ==> used[g] == Load(p, g)
    requires IsLeastLoaded(capacity, used, space, f)
    ensures WithinGap(p[id := Slot(f, space)], |capacity|, w)
  {
    hide Load;
    forall g | 0 <= g < |capacity|
      ensures Load(p, f) <= Load(p, g)
    {
      assert capacity[f] == capacity[g];
    }
    var p' := p[id := Slot(f, space)];
    forall g, h | 0 <= g < |capacity| && 0 <= h < |capacity|
      ensures Load(p', g) <= Load(p', h) + w
    {
      LoadSet(p, id, Slot(f, space), g);
      LoadSet(p, id, Slot(f, space), h);
    }
  }

  lemma SkipInactive(records: map<Ticket, ParkingRecord>, rest: set<Ticket>, id: Ticket, p: Layout)
    requires Remaining(records, rest, p) && id in rest && id !in Active(records)
    ensures Remaining(records, rest - {id}, p)
  {
  }

  /** Where the balancer puts vehicles that it takes in this order, if it finds room for all of them. */
  ghost function Balance(capacity: seq<int>, order: seq<SizedVehicle>): Option<Layout> {
    if order == [] then Some(map[])
    else
      var before, v := Balance(capacity, order[..|order| - 1]), order[|order| - 1];
      if before.None? then None
      else
        var f := SelectedFloor(capacity, Loads(before.value, 0, |capacity|), v.space, |capacity|);
        if f == -1 then None else Some(before.value[v.ticket := Slot(f, v.space)])
  }

  /** The plan is what the balancer makes of this order of the vehicles. */
  ghost predicate IsBalanceOf(capacity: seq<int>, active: Layout, order: seq<SizedVehicle>, plan: Option<seq<VehicleMove>>) {
    && Lists(order, active)
    && Balance(capacity, order) == if plan.None? then None else Some(Planned(active, IndexByTicket(plan.value)))
  }

  ghost predicate BalancesSomeOrder(capacity: seq<int>, active: Layout, plan: Option<seq<VehicleMove>>) {
    exists order :: IsBalanceOf(capacity, active, order, plan)
  }

  /** The vehicles taken so far, and where the balancer has put them. */
  ghost predicate BalancedSoFar(records: map<Ticket, ParkingRecord>, capacity: seq<int>, rest: set<Ticket>,
                                order: seq<SizedVehicle>, p: Layout, used: seq<int>)
  {
    && Lists(order, Active(records) - rest)
    && Balance(capacity, order) == Some(p)
    && used == Loads(p, 0, |capacity|)
  }

  lemma BalanceStart(records: map<Ticket, ParkingRecord>, capacity: seq<int>, used: seq<int>)
    requires |used| == |capacity| && forall f :: 0 <= f < |used| ==> used[f] == 0
    ensures BalancedSoFar(records, capacity, records.Keys, [], map[], used)
  {
    assert Active(records) - records.Keys == map[];
  }

  lemma BalanceStep(records: map<Ticket, ParkingRecord>, capacity: seq<int>, rest: set<Ticket>,
                    order: seq<SizedVehicle>, p: Layout, used: seq<int>, id: Ticket, f: int)
    requires BalancedSoFar(records, capacity, rest, order, p, used)
    requires id in rest && id in Active(records) && id !in p && f != -1
    requires f == SelectedFloor(capacity, used, Active(records)[id].space, |capacity|)
    ensures var space := Active(records)[id].space;
            BalancedSoFar(records, capacity, rest - {id}, order + [SizedVehicle(id, space)], p[id := Slot(f, space)],
                          used[f := used[f] + space])
  {
    hide Load, Loads, Lists, SelectedFloor, Active;
    var space := Active(records)[id].space;
    ListsStep(order, records, rest, id);
    assert (order + [SizedVehicle(id, space)])[..|order|] == order;
    LoadsSet(p, id, Slot(f, space), 0, |capacity|);
  }

  lemma BalanceSkip(records: map<Ticket, ParkingRecord>, capacity: seq<int>, rest: set<Ticket>,
                    order: seq<SizedVehicle>, p: Layout, used: seq<int>, id: Ticket)
    requires BalancedSoFar(records, capacity, rest, order, p, used) && id in rest && id !in Active(records)
    ensures BalancedSoFar(records, capacity, rest - {id}, order, p, used)
  {
    ListsStep(order, records, rest, id);
  }

  lemma {:induction false} NothingAfterRefusal(capacity: seq<int>, order: seq<SizedVehicle>, later: seq<SizedVehicle>)
    requires Balance(capacity, order).None?
    ensures Balance(capacity, order + later).None?
  {
    if later == [] {
      assert order + later == order;
    } else {
      var n := |later| - 1;
      NothingAfterRefusal(capacity, order, later[..n]);
      assert (order + later)[..|order| + n] == order + later[..n];
    }
  }

  lemma {:induction false} SomeListing(l: Layout) returns (order: seq<SizedVehicle>)
    ensures Lists(order, l)
    decreases |l|
  {
    if |l| == 0 {
      return [];
    }
    var id := AnyTicket(l);
    order := SomeListing(l - {id});
    ListedLast(order, l, id);
    order := order + [SizedVehicle(id, l[id].space)];
  }

  lemma ListedLast(front: seq<SizedVehicle>, l: Layout, id: Ticket)
    requires id in l && Lists(front, l - {id})
    ensures Lists(front + [SizedVehicle(id, l[id].space)], l)
  {
    var last := SizedVehicle(id, l[id].space);
    var order := front + [last];
    forall i, j | 0 <= i < j < |order|
      ensures order[i].ticket != order[j].ticket
    {
      assert front[i] in front;
    }
    forall x | x in l
      ensures SizedVehicle(x, l[x].space) in order
    {
      assert x != id ==> SizedVehicle(x, (l - {id})[x].space) in front;
      assert last in order;
    }
  }

  lemma ListsTogether(a: seq<SizedVehicle>, b: seq<SizedVehicle>, l: Layout, rest: set<Ticket>)
    requires Lists(a, l - rest) && Lists(b, l - (l.Keys - rest))
    ensures Lists(a + b, l)
  {
    assert forall v :: v in a ==> v.ticket !in rest;
    assert forall v :: v in b ==> v.ticket in rest;
    forall i, j | 0 <= i < j < |a + b|
      ensures (a + b)[i].ticket != (a + b)[j].ticket
    {
      if i < |a| <= j {
        assert a[i] in a && b[j - |a|] in b;
      }
    }
    forall id | id in l
      ensures SizedVehicle(id, l[id].space) in a + b
    {
      if id in rest {
        assert SizedVehicle(id, (l - (l.Keys - rest))[id].space) in b;
      } else {
        assert SizedVehicle(id, (l - rest)[id].space) in a;
      }
    }
  }

  lemma RefusedLast(capacity: seq<int>, order: seq<SizedVehicle>, p: Layout, v: SizedVehicle)
    requires Balance(capacity, order) == Some(p)
    requires SelectedFloor(capacity, Loads(p, 0, |capacity|), v.space, |capacity|) == -1
    ensures Balance(capacity, order + [v]).None?
  {
    hide SelectedFloor, Loads;
    assert (order + [v])[..|order|] == order;
  }

  /** A refusal at vehicle `id` is a refusal of every order that goes on from there. */
  lemma BalanceRefuses(records: map<Ticket, ParkingRecord>, capacity: seq<int>, rest: set<Ticket>,
                       order: seq<SizedVehicle>, p: Layout, used: seq<int>, id: Ticket)
    requires BalancedSoFar(records, capacity, rest, order, p, used) && |capacity| > 0
    requires id in rest && id in Active(records)
    requires SelectedFloor(capacity, used, Active(records)[id].space, |capacity|) == -1
    ensures BalancesSomeOrder(capacity, Active(records), None)
  {
    hide Load, Loads, Lists, SelectedFloor, Active, Balance;
    var active := Active(records);
    var v := SizedVehicle(id, active[id].space);
    ListsStep(order, records, rest, id);
    RefusedLast(capacity, order, p, v);
    var later := SomeListing(active - (active.Keys - (rest - {id})));
    ListsTogether(order + [v], later, active, rest - {id});
    NothingAfterRefusal(capacity, order + [v], later);
    assert IsBalanceOf(capacity, active, order + [v] + later, None);
  }

  /** What the balancer has done so far. */
  ghost predicate BalancerState(records: map<Ticket, ParkingRecord>, capacity: seq<int>, rest: set<Ticket>,
                                order: seq<SizedVehicle>, p: Layout, used: seq<int>, moves: seq<VehicleMove>)
  {
    LoadState(records, capacity, rest, p, used, moves) && BalancedSoFar(records, capacity, rest, order, p, used)
  }

  lemma BalancerStart(records: map<Ticket, ParkingRecord>, capacity: seq<int>, used: seq<int>)
    requires |used| == |capacity| && forall f :: 0 <= f < |used| ==> used[f] == 0
    ensures BalancerState(records, capacity, records.Keys, [], map[], used, [])
  {
    hide Load, Loads;
    LoadStart(records, capacity, used);
    BalanceStart(records, capacity, used);
  }

  lemma BalancerStep(records: map<Ticket, ParkingRecord>, capacity: seq<int>, rest: set<Ticket>,
                     order: seq<SizedVehicle>, p: Layout, used: seq<int>, moves: seq<VehicleMove>, id: Ticket, f: int)
    requires BalancerState(records, capacity, rest, order, p, used, moves) && |used| == |capacity|
    requires id in rest && id in Active(records) && f != -1
    requires f == SelectedFloor(capacity, used, Active(records)[id].space, |capacity|)
    ensures var space := Active(records)[id].space;
            BalancerState(records, capacity, rest - {id}, order + [SizedVehicle(id, space)], p[id := Slot(f, space)],
                          used[f := used[f] + space], MovesWith(moves, VehicleMove(id, records[id].target, f)))
  {
    hide Load, IsPlan, Partial, BalancedSoFar, Active, Uniform;
    LoadStep(records, capacity, rest, id, p, used, moves, f);
    BalanceStep(records, capacity, rest, order, p, used, id, f);
  }

  lemma BalancerSkip(records: map<Ticket, ParkingRecord>, capacity: seq<int>, rest: set<Ticket>,
                     order: seq<SizedVehicle>, p: Layout, used: seq<int>, moves: seq<VehicleMove>, id: Ticket)
    requires BalancerState(records, capacity, rest, order, p, used, moves) && id in rest && id !in Active(records)
    ensures BalancerState(records, capacity, rest - {id}, order, p, used, moves)
  {
    hide Partial, BalancedSoFar, Remaining, Active, Uniform;
    SkipInactive(records, rest, id, p);
    BalanceSkip(records, capacity, rest, order, p, used, id);
  }

  lemma BalancerRefuses(records: map<Ticket, ParkingRecord>, capacity: seq<int>, rest: set<Ticket>,
                        order: seq<SizedVehicle>, p: Layout, used: seq<int>, moves: seq<VehicleMove>, id: Ticket)
    requires BalancerState(records, capacity, rest, order, p, used, moves) && |used| == |capacity| > 0
    requires id in rest && id in Active(records) && NoneFits(capacity, used, Active(records)[id].space)
    requires SelectedFloor(capacity, used, Active(records)[id].space, |capacity|) == -1
    ensures Refusable(Active(records), capacity) && BalancesSomeOrder(capacity, Active(records), None)
  {
    hide LoadState, BalancedSoFar, Active, NoneFits, SelectedFloor;
    LoadRefused(records, capacity, rest, id, p, used, moves);
    BalanceRefuses(records, capacity, rest, order, p, used, id);
  }

  lemma BalancerDone(records: map<Ticket, ParkingRecord>, capacity: seq<int>, order: seq<SizedVehicle>, p: Layout,
                     used: seq<int>, moves: seq<VehicleMove>)
    requires BalancerState(records, capacity, {}, order, p, used, moves)
    ensures ValidPlan(Active(records), capacity, moves) && BalancesSomeOrder(capacity, Active(records), Some(moves))
    ensures Uniform(capacity) ==> forall w: nat :: NoneBigger(Active(records), w) ==>
      WithinGap(Planned(Active(records), IndexByTicket(moves)), |capacity|, w)
  {
    hide Load, Partial, BalancedSoFar, ValidPlan, Active, Planned;
    PlanComplete(Active(records), capacity, p, used, moves);
    BalancedAll(records, capacity, order, p, used, moves);
  }

  method PlanLoadBalanced(capacity: seq<int>, records: map<Ticket, ParkingRecord>) returns (plan: Option<seq<VehicleMove>>)
    ensures |capacity| == 0 ==> plan == Some([])
    ensures |capacity| > 0 && plan.Some? ==> ValidPlan(Active(records), capacity, plan.value)
    ensures |capacity| > 0 && plan.Some? && Uniform(capacity) ==>
      forall w: nat :: NoneBigger(Active(records), w) ==>
        WithinGap(Planned(Active(records), IndexByTicket(plan.value)), |capacity|, w)
    ensures plan.None? ==> |capacity| > 0 && Refusable(Active(records), capacity)
    ensures |capacity| > 0 ==> BalancesSomeOrder(capacity, Active(records), plan)
  {
    hide BalancerState, NoneBigger, WithinGap, ValidPlan, Planned, Refusable, BalancesSomeOrder, Uniform;
    if |capacity| == 0 {
      return Some([]);
    }
    var usedSpace := new int[|capacity|](_ => 0);
    var moves: seq<VehicleMove> := [];
    ghost var p: Layout := map[];
    ghost var order: seq<SizedVehicle> := [];
    BalancerStart(records, capacity, usedSpace[..]);
    var rest := records.Keys;
    while rest != {}
      invariant BalancerState(records, capacity, rest, order, p, usedSpace[..], moves)
      invariant rest <= records.Keys
      decreases |rest|
    {
      var id :| id in rest;
      var record := records[id];
      var requiredSpace := VehicleSpace(record.vehicle);
      if record.unparkRequested || requiredSpace == 0 {
        BalancerSkip(records, capacity, rest, order, p, usedSpace[..], moves, id);
        rest := rest - {id};
        continue;
      }
      var selectedFloor := LeastLoaded(capacity, usedSpace, requiredSpace);
      if selectedFloor == -1 {
        BalancerRefuses(records, capacity, rest, order, p, usedSpace[..], moves, id);
        return None;
      }
      ghost var used := usedSpace[..];
      BalancerStep(records, capacity, rest, order, p, used, moves, id, selectedFloor);
      order := order + [SizedVehicle(id, requiredSpace)];
      rest := rest - {id};
      p := p[id := Slot(selectedFloor, requiredSpace)];
      usedSpace[selectedFloor] := usedSpace[selectedFloor] + requiredSpace;
      assert usedSpace[..] == used[selectedFloor := used[selectedFloor] + requiredSpace];
      if record.target != selectedFloor {
        moves := moves + [VehicleMove(id, record.target, selectedFloor)];
      }
    }
    BalancerDone(records, capacity, order, p, usedSpace[..], moves);
    return Some(moves);
  }

  lemma BalancedAll(records: map<Ticket, ParkingRecord>, capacity: seq<int>, order: seq<SizedVehicle>, p: Layout,
                    used: seq<int>, moves: seq<VehicleMove>)
    requires BalancedSoFar(records, capacity, {}, order, p, used) && p == Planned(Active(records), IndexByTicket(moves))
    ensures BalancesSomeOrder(capacity, Active(records), Some(moves))
  {
    hide Lists;
    assert Active(records) - {} == Active(records);
    assert IsBalanceOf(capacity, Active(records), order, Some(moves));
  }

  /** The other vehicles of `p` fit as placed, and then no floor has room for vehicle `id`. */
  ghost predicate RefusedAt(active: Layout, capacity: seq<int>, p: Layout, id: Ticket) {
    && id in active && id !in p && p.Keys <= active.Keys
    && (forall x :: x in p ==> p[x].space == active[x].space)
    && Fits(p, capacity)
    && (forall f :: 0 <= f < |capacity| ==> Load(p, f) + active[id].space > capacity[f])
  }

  ghost predicate Refusable(active: Layout, capacity: seq<int>) {
    exists p, id :: RefusedAt(active, capacity, p, id)
  }

  lemma LoadRefused(records: map<Ticket, ParkingRecord>, capacity: seq<int>, rest: set<Ticket>, id: Ticket,
                    p: Layout, used: seq<int>, moves: seq<VehicleMove>)
    requires LoadState(records, capacity, rest, p, used, moves) && |used| == |capacity|
    requires id in rest && id in Active(records) && NoneFits(capacity, used, Active(records)[id].space)
    ensures Refusable(Active(records), capacity)
  {
    hide Load, IsPlan;
    assert RefusedAt(Active(records), capacity, p, id);
  }

  /** No vehicle is bigger than a truck, so balanced floors differ by at most a truck. */
  lemma GapOfATruck(records: map<Ticket, ParkingRecord>, capacity: seq<int>, moves: seq<VehicleMove>)
    requires forall w: nat :: NoneBigger(Active(records), w) ==>
      WithinGap(Planned(Active(records), IndexByTicket(moves)), |capacity|, w)
    ensures WithinGap(Planned(Active(records), IndexByTicket(moves)), |capacity|, LARGEST_VEHICLE)
  {
    forall id | id in Active(records)
      ensures Active(records)[id].space <= LARGEST_VEHICLE
    {
      SpacesDivide(records[id].vehicle, records[id].vehicle);
    }
    assert NoneBigger(Active(records), LARGEST_VEHICLE);
  }

  // ---------- Zoning: first fit within the vehicle type's own floors, any vehicle order ----------

  ghost predicate InZones(records: map<Ticket, ParkingRecord>, n: nat, p: Layout) {
    forall id :: id in p && id in records ==> InZone(n, records[id].vehicle, p[id].floor)
  }

  ghost predicate ZoneRival(a: Layout, records: map<Ticket, ParkingRecord>, capacity: seq<int>) {
    Rival(a, Active(records), capacity) && InZones(records, |capacity|, Restrict(a, Active(records).Keys))
  }

  /** No floor below, from the first of the zone on, has room for one more of this size. */
  ghost predicate NoneLower(capacity: seq<int>, p: Layout, start: int, s: Slot) {
    forall g :: start <= g < s.floor && 0 <= g < |capacity| ==> Load(p, g) + s.space > capacity[g]
  }

  /** Each zone is filled from its lowest floor upwards. */
  ghost predicate LowestFirst(records: map<Ticket, ParkingRecord>, capacity: seq<int>, p: Layout) {
    forall id :: id in p && id in records ==> NoneLower(capacity, p, ZoneRange(|capacity|, records[id].vehicle).0, p[id])
  }

  lemma StillLowestFirst(records: map<Ticket, ParkingRecord>, capacity: seq<int>, p: Layout, id: Ticket, s: Slot)
    requires LowestFirst(records, capacity, p) && id !in p && id in records
    requires NoneLower(capacity, p, ZoneRange(|capacity|, records[id].vehicle).0, s)
    ensures LowestFirst(records, capacity, p[id := s])
  {
    hide Load;
    forall g
      ensures Load(p[id := s], g) >= Load(p, g)
    {
      LoadSet(p, id, s, g);
    }
  }

  ghost predicate ZoneState(records: map<Ticket, ParkingRecord>, capacity: seq<int>, rest: set<Ticket>,
                            p: Layout, used: seq<int>, moves: seq<VehicleMove>)
  {
    && Partial(Active(records), capacity, p, used, moves)
    && Remaining(records, rest, p)
    && InZones(records, |capacity|, p)
    && LowestFirst(records, capacity, p)
  }

  /** The first floor from `start` up to `end` with room, or -1. */
  method FirstFit(capacity: seq<int>, usedSpace: array<int>, space: nat, start: nat, end: nat) returns (floor: int)
    requires usedSpace.Length == |capacity| && start <= end <= |capacity|
    ensures floor == -1 ==> forall f :: start <= f < end ==> capacity[f] - usedSpace[f] < space
    ensures floor != -1 ==> start <= floor < end && capacity[floor] - usedSpace[floor] >= space
    ensures floor != -1 ==> forall f :: start <= f < floor ==> capacity[f] - usedSpace[f] < space
  {
    for i := start to end
      invariant forall f :: start <= f < i ==> capacity[f] - usedSpace[f] < space
    {
      if usedSpace[i] + space > capacity[i] {
        continue;
      }
      return i;
    }
    return -1;
  }

  lemma ZoneStart(records: map<Ticket, ParkingRecord>, capacity: seq<int>, used: seq<int>)
    requires |used| == |capacity| && forall f :: 0 <= f < |used| ==> used[f] == 0
    ensures ZoneState(records, capacity, records.Keys, map[], used, [])
  {
    NothingPlaced(Active(records), capacity, used);
  }

  lemma ZoneStep(records: map<Ticket, ParkingRecord>, capacity: seq<int>, rest: set<Ticket>, id: Ticket,
                 p: Layout, used: seq<int>, moves: seq<VehicleMove>, f: int)
    requires ZoneState(records, capacity, rest, p, used, moves) && |used| == |capacity|
    requires id in rest && id in Active(records)
    requires InZone(|capacity|, records[id].vehicle, f) && capacity[f] - used[f] >= Active(records)[id].space
    requires forall g :: ZoneRange(|capacity|, records[id].vehicle).0 <= g < f ==> capacity[g] - used[g] < Active(records)[id].space
    ensures var space := Active(records)[id].space;
            ZoneState(records, capacity, rest - {id}, p[id := Slot(f, space)], used[f := used[f] + space],
                      MovesWith(moves, VehicleMove(id, records[id].target, f)))
  {
    hide Load, IsPlan, LowestFirst;
    StillLowestFirst(records, capacity, p, id, Slot(f, Active(records)[id].space));
    Place(Active(records), capacity, p, used, moves, id, f);
  }

  /** The placed vehicles of one type. */
  ghost function OfType(records: map<Ticket, ParkingRecord>, p: Layout, t: VehicleType): Layout {
    map id | id in p && id in records && records[id].vehicle == t :: p[id]
  }

  /** A zone holds vehicles of its own type only. */
  lemma ZoneLoad(records: map<Ticket, ParkingRecord>, p: Layout, n: nat, t: VehicleType, f: int)
    requires p.Keys <= records.Keys && InZones(records, n, p) && InZone(n, t, f)
    ensures Load(OfType(records, p, t), f) == Load(p, f)
  {
    hide Load;
    ZonesPartitionFloors(n, f);
    LoadMono(OfType(records, p, t), p, f);
    LoadMono(p, OfType(records, p, t), f);
  }

  lemma ZoneImpossible(records: map<Ticket, ParkingRecord>, capacity: seq<int>, rest: set<Ticket>, id: Ticket,
                       p: Layout, used: seq<int>, moves: seq<VehicleMove>)
    requires ZoneState(records, capacity, rest, p, used, moves) && |used| == |capacity|
    requires id in rest && id in Active(records)
    requires var zone := ZoneRange(|capacity|, records[id].vehicle);
             forall f :: zone.0 <= f < zone.1 ==> capacity[f] - used[f] < Active(records)[id].space
    ensures forall a :: !ZoneRival(a, records, capacity)
  {
    hide Load, IsPlan, LowestFirst;
    var t := records[id].vehicle;
    var zone := ZoneRange(|capacity|, t);
    var mine := OfType(records, p, t);
    forall f | zone.0 <= f < zone.1
      ensures Load(mine, f) == Load(p, f)
    {
      ZoneLoad(records, p, |capacity|, t, f);
    }
    assert Multiples(mine, t);
    forall a: Layout
      ensures !ZoneRival(a, records, capacity)
    {
      NoRoomAnywhere(mine, id, t, capacity, zone.0, zone.1, a);
      if ZoneRival(a, records, capacity) {
        ZoneRivalOfPart(a, records, capacity, mine, id, t);
        assert false;
      }
    }
  }

  lemma ZoneRivalOfPart(a: Layout, records: map<Ticket, ParkingRecord>, capacity: seq<int>, mine: Layout, id: Ticket, t: VehicleType)
    requires ZoneRival(a, records, capacity) && VehicleSpace(t) > 0
    requires forall x :: x in mine || x == id ==> x in Active(records) && records[x].vehicle == t
    requires forall x :: x in mine ==> mine[x].space == VehicleSpace(t)
    ensures var zone := ZoneRange(|capacity|, t);
            Rival(a, WithOneMore(mine, id, t), capacity) && Within(a, WithOneMore(mine, id, t).Keys, zone.0, zone.1)
  {
    hide Load;
    RivalOfPart(a, Active(records), WithOneMore(mine, id, t), capacity);
    forall x | x in WithOneMore(mine, id, t).Keys
      ensures InZone(|capacity|, t, a[x].floor)
    {
      assert x in Restrict(a, Active(records).Keys);
    }
  }

  lemma ZoneSkip(records: map<Ticket, ParkingRecord>, capacity: seq<int>, rest: set<Ticket>, id: Ticket,
                 p: Layout, used: seq<int>, moves: seq<VehicleMove>)
    requires ZoneState(records, capacity, rest, p, used, moves) && id in rest && id !in Active(records)
    ensures ZoneState(records, capacity, rest - {id}, p, used, moves)
  {
    hide Partial, InZones, Active;
    SkipInactive(records, rest, id, p);
  }

  method PlanZoneBalanced(capacity: seq<int>, records: map<Ticket, ParkingRecord>) returns (plan: Option<seq<VehicleMove>>)
    ensures |capacity| == 0 ==> plan == Some([])
    ensures |capacity| > 0 && plan.Some? ==>
      && ValidPlan(Active(records), capacity, plan.value)
      && InZones(records, |capacity|, Planned(Active(records), IndexByTicket(plan.value)))
      && LowestFirst(records, capacity, Planned(Active(records), IndexByTicket(plan.value)))
    ensures |capacity| > 0 ==> (plan.None? <==> !exists a :: ZoneRival(a, records, capacity))
  {
    hide Load, ZoneState, InZones, LowestFirst, ValidPlan, Planned, ZoneRival;
    if |capacity| == 0 {
      return Some([]);
    }
    var usedSpace := new int[|capacity|](_ => 0);
    var moves: seq<VehicleMove> := [];
    ghost var p: Layout := map[];
    ZoneStart(records, capacity, usedSpace[..]);
    var rest := records.Keys;
    while rest != {}
      invariant ZoneState(records, capacity, rest, p, usedSpace[..], moves) && rest <= records.Keys
      decreases |rest|
    {
      var id :| id in rest;
      var record := records[id];
      var requiredSpace := VehicleSpace(record.vehicle);
      if record.unparkRequested || requiredSpace == 0 {
        ZoneSkip(records, capacity, rest, id, p, usedSpace[..], moves);
        rest := rest - {id};
        continue;
      }
      var zone := ZoneRange(|capacity|, record.vehicle);
      var floor := FirstFit(capacity, usedSpace, requiredSpace, zone.0, zone.1);
      if floor == -1 {
        ZoneImpossible(records, capacity, rest, id, p, usedSpace[..], moves);
        return None;
      }
      ghost var used := usedSpace[..];
      ZoneStep(records, capacity, rest, id, p, used, moves, floor);
      rest := rest - {id};
      p := p[id := Slot(floor, requiredSpace)];
      usedSpace[floor] := usedSpace[floor] + requiredSpace;
      assert usedSpace[..] == used[floor := used[floor] + requiredSpace];
      if record.target != floor {
        moves := moves + [VehicleMove(id, record.target, floor)];
      }
    }
    ZoneDone(records, capacity, p, usedSpace[..], moves);
    return Some(moves);
  }

  lemma ZoneDone(records: map<Ticket, ParkingRecord>, capacity: seq<int>, p: Layout, used: seq<int>, moves: seq<VehicleMove>)
    requires ZoneState(records, capacity, {}, p, used, moves)
    ensures p == Planned(Active(records), IndexByTicket(moves)) && ValidPlan(Active(records), capacity, moves)
    ensures LowestFirst(records, capacity, p)
    ensures InZones(records, |capacity|, p) && ZoneRival(p, records, capacity)
  {
    hide Load, IsPlan, ValidPlan;
    PlanComplete(Active(records), capacity, p, used, moves);
  }
}
