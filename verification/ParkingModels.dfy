/** Vehicles, zones and floor loads of the automated parking facility.

  Everything the facility decides about capacity is a statement about a `Layout`: which floor each
  vehicle is on (or is headed for) and how much space it takes there. */
module ParkingModels {

  datatype VehicleType = Bike | Car | Truck | Other

  /** Space units a vehicle needs; an unknown vehicle type needs none. */
  function VehicleSpace(t: VehicleType): nat {
    match t
    case Bike => 1
    case Car => 2
    case Truck => 6
    case Other => 0
  }

  const LARGEST_VEHICLE: nat := 6

  /** The three sizes form a divisibility chain, which is what makes greedy packing exact. */
  lemma SpacesDivide(t: VehicleType, u: VehicleType)
    requires 0 < VehicleSpace(t) <= VehicleSpace(u)
    ensures VehicleSpace(u) % VehicleSpace(t) == 0
    ensures VehicleSpace(Truck) == 3 * VehicleSpace(Car) == 6 * VehicleSpace(Bike) == 6
    ensures VehicleSpace(u) <= LARGEST_VEHICLE
  {
  }

  /** The half-open range of floors reserved for a vehicle type. */
  function ZoneRange(floorCount: nat, t: VehicleType): (zone: (nat, nat))
    ensures zone.0 <= zone.1 <= floorCount
  {
    var truckFloors := floorCount * 20 / 100;
    var bikeFloors := floorCount * 30 / 100;
    var percentCarFloors := floorCount * 50 / 100;
    var carFloors := percentCarFloors + (floorCount - truckFloors - bikeFloors - percentCarFloors);
    match t
    case Truck => (0, truckFloors)
    case Car => (truckFloors, truckFloors + carFloors)
    case Bike => (truckFloors + carFloors, floorCount)
    case Other => (0, 0)
  }

  ghost predicate InZone(floorCount: nat, t: VehicleType, f: int) {
    ZoneRange(floorCount, t).0 <= f < ZoneRange(floorCount, t).1
  }

  /** Every floor belongs to the zone of exactly one vehicle type; no rounding loses a floor. */
  lemma ZonesPartitionFloors(floorCount: nat, f: nat)
    requires f < floorCount
    ensures exists t :: InZone(floorCount, t, f)
    ensures forall t, u :: InZone(floorCount, t, f) && InZone(floorCount, u, f) ==> t == u
  {
    if f < ZoneRange(floorCount, Truck).1 {
      assert InZone(floorCount, Truck, f);
    } else if f < ZoneRange(floorCount, Car).1 {
      assert InZone(floorCount, Car, f);
    } else {
      assert InZone(floorCount, Bike, f);
    }
  }

  /** Trucks have the lowest fifth of the floors and bikes the highest three tenths, both rounded down; cars
      have what lies between. */
  lemma ZoneShares(floorCount: nat, f: nat)
    requires f < floorCount
    ensures InZone(floorCount, Truck, f) <==> 100 * (f + 1) <= 20 * floorCount
    ensures InZone(floorCount, Bike, f) <==> 100 * (floorCount - f) <= 30 * floorCount
    ensures InZone(floorCount, Car, f) <==> 100 * (f + 1) > 20 * floorCount && 100 * (floorCount - f) > 30 * floorCount
    ensures !InZone(floorCount, Other, f)
  {
  }

  /** Which vehicle types a facility of a given height can take at all under zoning. */
  lemma EmptyZones(floorCount: nat)
    ensures (exists f :: InZone(floorCount, Truck, f)) <==> floorCount >= 5
    ensures (exists f :: InZone(floorCount, Bike, f)) <==> floorCount >= 4
    ensures (exists f :: InZone(floorCount, Car, f)) <==> floorCount >= 1
  {
    if floorCount >= 5 {
      assert InZone(floorCount, Truck, 0);
    }
    if floorCount >= 4 {
      assert InZone(floorCount, Bike, floorCount - 1);
    }
    if floorCount >= 1 {
      assert InZone(floorCount, Car, ZoneRange(floorCount, Car).0);
    }
  }

  type Ticket = string

  datatype ParkingStatus = ParkingPending | Parked | Rearranging

  /** One parking session. `physical` and `buffer` are -1 when the vehicle is not on a floor or in a slot. */
  datatype ParkingRecord = ParkingRecord(
    vehicle: VehicleType,
    physical: int,
    buffer: int,
    target: int,
    status: ParkingStatus,
    unparkRequested: bool)

  datatype VehicleMove = VehicleMove(ticket: Ticket, from: int, to: int)

  // ---------- Layouts and floor loads ----------

  datatype Slot = Slot(floor: int, space: nat)

  type Layout = map<Ticket, Slot>

  /** The vehicles a planner has to place: retrieval not requested and of a known type. */
  ghost function Active(records: map<Ticket, ParkingRecord>): Layout {
    map id | id in records && !records[id].unparkRequested && VehicleSpace(records[id].vehicle) > 0 ::
      Slot(records[id].target, VehicleSpace(records[id].vehicle))
  }

  ghost function SpaceOn(s: Slot, f: int): nat {
    if s.floor == f then s.space else 0
  }

  ghost function AnyTicket(l: Layout): (id: Ticket)
    requires |l| > 0
    ensures id in l
  {
    var id :| id in l;
    id
  }

  /** Space taken on floor `f`. */
  ghost function Load(l: Layout, f: int): nat
    decreases |l|
  {
    if |l| == 0 then 0
    else
      var id := AnyTicket(l);
      SpaceOn(l[id], f) + Load(l - {id}, f)
  }

  /** `Load` does not depend on the order in which vehicles are added up. */
  lemma {:induction false} LoadRemove(l: Layout, id: Ticket, f: int)
    requires id in l
    ensures Load(l, f) == SpaceOn(l[id], f) + Load(l - {id}, f)
    decreases |l|
  {
    var first := AnyTicket(l);
    if first != id {
      LoadRemove(l - {first}, id, f);
      LoadRemove(l - {id}, first, f);
      assert l - {first} - {id} == l - {id} - {first};
    }
  }

  lemma LoadSet(l: Layout, id: Ticket, s: Slot, f: int)
    ensures Load(l[id := s], f) == Load(l, f) + SpaceOn(s, f) - (if id in l then SpaceOn(l[id], f) else 0)
  {
    LoadRemove(l[id := s], id, f);
    assert l[id := s] - {id} == l - {id};
    if id in l {
      LoadRemove(l, id, f);
    } else {
      assert l - {id} == l;
    }
  }

  /** If every vehicle `a` has on `f` is there in `b` too, `b` is at least as loaded. */
  lemma {:induction false} LoadMono(a: Layout, b: Layout, f: int)
    requires forall id :: id in a && a[id].floor == f && a[id].space > 0 ==> id in b && b[id] == a[id]
    ensures Load(a, f) <= Load(b, f)
    decreases |a|
  {
    if |a| > 0 {
      var id := AnyTicket(a);
      LoadRemove(a, id, f);
      if a[id].floor == f && a[id].space > 0 {
        LoadRemove(b, id, f);
        LoadMono(a - {id}, b - {id}, f);
      } else {
        LoadMono(a - {id}, b, f);
      }
    }
  }

  /** What a floor can hold; one built with a negative capacity holds nothing. */
  function Room(capacity: int): nat {
    if capacity < 0 then 0 else capacity
  }

  /** Every vehicle is on one of the `|capacity|` floors and no floor is over capacity. */
  ghost predicate Fits(l: Layout, capacity: seq<int>) {
    && (forall id :: id in l ==> 0 <= l[id].floor < |capacity|)
    && (forall f :: 0 <= f < |capacity| ==> Load(l, f) <= Room(capacity[f]))
  }

  // ---------- Plans ----------

  ghost predicate DistinctTickets(moves: seq<VehicleMove>) {
    forall i, j :: 0 <= i < j < |moves| ==> moves[i].ticket != moves[j].ticket
  }

  /** The moves by ticket; as with map assignment, a later move replaces an earlier one. */
  function IndexByTicket(moves: seq<VehicleMove>): map<Ticket, VehicleMove> {
    if moves == [] then map[]
    else
      var last := moves[|moves| - 1];
      IndexByTicket(moves[..|moves| - 1])[last.ticket := last]
  }

  /** The layout after every move in `plan` has been carried out. */
  ghost function Planned(l: Layout, plan: map<Ticket, VehicleMove>): Layout {
    map id | id in l :: if id in plan then Slot(plan[id].to, l[id].space) else l[id]
  }

  lemma {:induction false} IndexByTicketOf(moves: seq<VehicleMove>)
    ensures forall m :: m in moves ==> m.ticket in IndexByTicket(moves)
    ensures forall id :: id in IndexByTicket(moves) ==>
      IndexByTicket(moves)[id] in moves && IndexByTicket(moves)[id].ticket == id
    ensures DistinctTickets(moves) ==> forall m :: m in moves ==> IndexByTicket(moves)[m.ticket] == m
  {
    if moves != [] {
      IndexByTicketOf(moves[..|moves| - 1]);
      assert moves == moves[..|moves| - 1] + [moves[|moves| - 1]];
    }
  }

  lemma {:induction false} AtMostOnce(a: seq<VehicleMove>, m: VehicleMove)
    requires DistinctTickets(a)
    ensures multiset(a)[m] <= 1
  {
    if a != [] {
      assert a == [a[0]] + a[1..];
      AtMostOnce(a[1..], m);
      if m == a[0] {
        assert m !in a[1..];
      }
    }
  }
}
