/** The four strategies that choose a floor for a newly arriving vehicle from the reservations. */
module Allocation {
  import opened Options
  import opened ParkingModels

  datatype Strategy = NearestFloor | Compaction | LoadBalanced | ZoneBalanced

  ghost predicate FloorFits(capacity: seq<int>, reserved: seq<int>, space: nat, f: int)
    requires |reserved| == |capacity|
  {
    0 <= f < |capacity| && reserved[f] + space <= capacity[f]
  }

  /** The floors a strategy may use for a vehicle type. */
  ghost predicate Eligible(s: Strategy, floorCount: nat, t: VehicleType, f: int) {
    s.ZoneBalanced? ==> InZone(floorCount, t, f)
  }

  ghost predicate Candidate(s: Strategy, capacity: seq<int>, reserved: seq<int>, t: VehicleType, f: int)
    requires |reserved| == |capacity|
  {
    FloorFits(capacity, reserved, VehicleSpace(t), f) && Eligible(s, |capacity|, t, f)
  }

  /** A strategy answers a floor exactly when there is one it may use, and then one that has room. */
  ghost predicate IsDecision(s: Strategy, capacity: seq<int>, reserved: seq<int>, t: VehicleType, floor: Option<nat>)
    requires |reserved| == |capacity|
  {
    && (floor.Some? ==> VehicleSpace(t) > 0 && Candidate(s, capacity, reserved, t, floor.value))
    && (floor.None? ==> VehicleSpace(t) == 0 || forall f :: !Candidate(s, capacity, reserved, t, f))
  }

  method AllocateNearest(capacity: seq<int>, reserved: seq<int>, t: VehicleType) returns (floor: Option<nat>)
    requires |reserved| == |capacity|
    ensures IsDecision(NearestFloor, capacity, reserved, t, floor)
    ensures floor.Some? ==> forall f :: FloorFits(capacity, reserved, VehicleSpace(t), f) ==> floor.value <= f
  {
    var requiredSpace := VehicleSpace(t);
    if requiredSpace == 0 {
      return None;
    }
    for i := 0 to |capacity|
      invariant forall f :: 0 <= f < i ==> !FloorFits(capacity, reserved, requiredSpace, f)
    {
      if requiredSpace > capacity[i] - reserved[i] {
        continue;
      }
      return Some(i);
    }
    return None;
  }

  /** The emptiest floor with room; of equally empty ones the lowest. */
  method AllocateLoadBalanced(capacity: seq<int>, reserved: seq<int>, t: VehicleType) returns (floor: Option<nat>)
    requires |reserved| == |capacity|
    ensures IsDecision(LoadBalanced, capacity, reserved, t, floor)
    ensures floor.Some? ==> forall f :: FloorFits(capacity, reserved, VehicleSpace(t), f) ==>
      reserved[floor.value] < reserved[f] || (reserved[floor.value] == reserved[f] && floor.value <= f)
  {
    var requiredSpace := VehicleSpace(t);
    floor := None;
    if requiredSpace == 0 {
      return;
    }
    for i := 0 to |capacity|
      invariant floor.Some? ==> floor.value < i && FloorFits(capacity, reserved, requiredSpace, floor.value)
      invariant floor.None? ==> forall f :: 0 <= f < i ==> !FloorFits(capacity, reserved, requiredSpace, f)
      invariant floor.Some? ==> forall f :: 0 <= f < i && FloorFits(capacity, reserved, requiredSpace, f) ==>
        reserved[floor.value] < reserved[f] || (reserved[floor.value] == reserved[f] && floor.value <= f)
    {
      if requiredSpace > capacity[i] - reserved[i] {
        continue;
      }
      if floor.None? || reserved[floor.value] > reserved[i] {
        floor := Some(i);
      }
    }
  }

  function Percentage(reserved: int, capacity: int): real
    requires capacity > 0
  {
    reserved as real / capacity as real * 100.0
  }

  /** On floors of equal size the highest percentage is the highest reservation. */
  lemma PercentageOrder(a: int, b: int, capacity: int)
    requires capacity > 0
    ensures a <= b <==> Percentage(a, capacity) <= Percentage(b, capacity)
  {
    var c := capacity as real;
    assert (b as real / c - a as real / c) * c == b as real - a as real;
    if a <= b {
      assert b as real / c - a as real / c >= 0.0;
    } else {
      assert b as real / c - a as real / c < 0.0;
    }
  }

  /** Floor `f` is less full than `best`, in percent, or as full and not before it. */
  ghost predicate NoFuller(capacity: seq<int>, reserved: seq<int>, f: int, best: int)
    requires |reserved| == |capacity| && 0 <= f < |capacity| && 0 <= best < |capacity|
    requires capacity[f] > 0 && capacity[best] > 0
  {
    var other, chosen := Percentage(reserved[f], capacity[f]), Percentage(reserved[best], capacity[best]);
    other < chosen || (other == chosen && best <= f)
  }

  /** The fullest floor, in percent, that still has room. Reservations are not negative, so a floor with room has size. */
  method AllocateCompaction(capacity: seq<int>, reserved: seq<int>, t: VehicleType) returns (floor: Option<nat>)
    requires |reserved| == |capacity| && forall f :: 0 <= f < |reserved| ==> reserved[f] >= 0
    ensures IsDecision(Compaction, capacity, reserved, t, floor)
    ensures floor.Some? ==> forall f :: FloorFits(capacity, reserved, VehicleSpace(t), f) ==>
      NoFuller(capacity, reserved, f, floor.value)
  {
    var requiredSpace := VehicleSpace(t);
    floor := None;
    if requiredSpace == 0 {
      return;
    }
    for i := 0 to |capacity|
      invariant floor.Some? ==> floor.value < i && FloorFits(capacity, reserved, requiredSpace, floor.value)
      invariant floor.None? ==> forall f :: 0 <= f < i ==> !FloorFits(capacity, reserved, requiredSpace, f)
      invariant floor.Some? ==> forall f :: 0 <= f < i && FloorFits(capacity, reserved, requiredSpace, f) ==>
        NoFuller(capacity, reserved, f, floor.value)
    {
      if capacity[i] < requiredSpace + reserved[i] {
        continue;
      }
      if floor.None? {
        floor := Some(i);
        continue;
      }
      var selectedPercentage := Percentage(reserved[floor.value], capacity[floor.value]);
      var currentPercentage := Percentage(reserved[i], capacity[i]);
      if selectedPercentage < currentPercentage {
        floor := Some(i);
      }
    }
  }

  method AllocateZoneBalanced(capacity: seq<int>, reserved: seq<int>, t: VehicleType) returns (floor: Option<nat>)
    requires |reserved| == |capacity|
    ensures IsDecision(ZoneBalanced, capacity, reserved, t, floor)
    ensures floor.Some? ==> forall f :: Candidate(ZoneBalanced, capacity, reserved, t, f) ==> floor.value <= f
  {
    var requiredSpace := VehicleSpace(t);
    if requiredSpace == 0 || |capacity| == 0 {
      return None;
    }
    var (start, end) := ZoneRange(|capacity|, t);
    if start >= end {
      return None;
    }
    for i := start to end
      invariant forall f :: start <= f < i ==> !FloorFits(capacity, reserved, requiredSpace, f)
    {
      if requiredSpace > capacity[i] - reserved[i] {
        continue;
      }
      return Some(i);
    }
    return None;
  }

  /** The floor a strategy picks among those it may use. */
  ghost predicate Chosen(s: Strategy, capacity: seq<int>, reserved: seq<int>, t: VehicleType, f: int)
    requires |reserved| == |capacity|
  {
    && Candidate(s, capacity, reserved, t, f)
    && match s
       case NearestFloor => forall g :: Candidate(s, capacity, reserved, t, g) ==> f <= g
       case ZoneBalanced => forall g :: Candidate(s, capacity, reserved, t, g) ==> f <= g
       case LoadBalanced =>
         forall g :: Candidate(s, capacity, reserved, t, g) ==> reserved[f] < reserved[g] || (reserved[f] == reserved[g] && f <= g)
       case Compaction =>
         capacity[f] > 0 && forall g :: Candidate(s, capacity, reserved, t, g) && capacity[g] > 0 ==> NoFuller(capacity, reserved, g, f)
  }

  method Allocate(s: Strategy, capacity: seq<int>, reserved: seq<int>, t: VehicleType) returns (floor: Option<nat>)
    requires |reserved| == |capacity| && forall f :: 0 <= f < |reserved| ==> reserved[f] >= 0
    ensures IsDecision(s, capacity, reserved, t, floor)
    ensures floor.Some? ==> Chosen(s, capacity, reserved, t, floor.value)
  {
    match s
    case NearestFloor => floor := AllocateNearest(capacity, reserved, t);
    case Compaction => floor := AllocateCompaction(capacity, reserved, t);
    case LoadBalanced => floor := AllocateLoadBalanced(capacity, reserved, t);
    case ZoneBalanced => floor := AllocateZoneBalanced(capacity, reserved, t);
  }
}
