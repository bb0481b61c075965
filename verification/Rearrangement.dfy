/** The facility while robots carry out a rearrangement: its counters and records simulate the vehicles
  of the shuffling model, so that no robot on an acyclic component is ever kept waiting by a floor. */
module Rearrangement {
  import opened ParkingModels
  import opened MovementOrder
  import opened Facility
  import opened Shuffle
  import opened ParkingSystem

  // ---------- What customers and robots do, as long as nobody asks for a vehicle ----------

  datatype Act =
    | Parks(id: Ticket, vehicle: VehicleType, floor: nat)
    | TakesJob
    | Claims(id: Ticket)
    | Stores(id: Ticket)
    | Lifts(c: nat, i: nat)
    | SetsDown(c: nat, i: nat)
    | Buffers(c: nat, i: nat, slot: nat)
    | Unbuffers(c: nat, i: nat)

  /** Whether it can happen: the guards of the facility's critical sections, and where the robot of
      component `c` has got to. Only looped components use buffer slots. */
  ghost predicate Possible(capacity: seq<int>, comps: seq<ShuffleComponent>, s: Snapshot, st: State, a: Act)
    requires |s.reserved| == |s.used| == |capacity|
  {
    match a
    case Parks(id, vehicle, floor) =>
      && id !in s.issued && floor < |capacity| && VehicleSpace(vehicle) > 0
      && s.reserved[floor] + VehicleSpace(vehicle) <= capacity[floor]
    case TakesJob => s.traffic.parkingJobs != []
    case Claims(id) => id in s.traffic.waiting && 0 <= s.traffic.waiting[id].toFloor < |capacity| && !Blocked(capacity, s.used, s.traffic.waiting[id])
    case Stores(id) => id in s.traffic.storing
    case Lifts(c, i) =>
      && InComponent(comps, c, i) && IsTurn(comps, st, c, i) && PhaseOf(st.phase, comps[c].moves[i].ticket) == Waiting
      && Liftable(capacity, s, comps[c].moves[i])
    case SetsDown(c, i) =>
      && InComponent(comps, c, i) && PhaseOf(st.phase, comps[c].moves[i].ticket) == Carried
      && CanSetDown(capacity, s, comps[c].moves[i].ticket)
    case Buffers(c, i, slot) =>
      InComponent(comps, c, i) && comps[c].loop && PhaseOf(st.phase, comps[c].moves[i].ticket) == Carried && comps[c].moves[i].ticket in s.records
    case Unbuffers(c, i) =>
      InComponent(comps, c, i) && comps[c].loop && PhaseOf(st.phase, comps[c].moves[i].ticket) == Carried && comps[c].moves[i].ticket in s.records
  }

  ghost predicate Liftable(capacity: seq<int>, s: Snapshot, m: VehicleMove) {
    m.ticket in s.records && s.records[m.ticket].buffer < 0 && s.records[m.ticket].physical == m.from && 0 <= m.from < |s.used|
  }

  ghost predicate CanSetDown(capacity: seq<int>, s: Snapshot, id: Ticket)
    requires |s.used| == |capacity|
  {
    id in s.records && 0 <= s.records[id].target < |capacity| && HasRoomFor(capacity, s.used, s.records[id])
  }

  ghost function After(capacity: seq<int>, comps: seq<ShuffleComponent>, s: Snapshot, st: State, a: Act): Snapshot
    requires |s.reserved| == |s.used| == |capacity| && Possible(capacity, comps, s, st, a)
  {
    match a
    case Parks(id, vehicle, floor) => AfterPark(s, id, vehicle, floor)
    case TakesJob => AfterTakingJob(s)
    case Claims(id) => AfterClaim(s, id)
    case Stores(id) => AfterStore(s, id)
    case Lifts(c, i) => AfterLift(s, comps[c].moves[i].ticket)
    case SetsDown(c, i) => AfterSetDown(s, comps[c].moves[i].ticket)
    case Buffers(c, i, slot) => AfterBuffering(s, comps[c].moves[i].ticket, slot)
    case Unbuffers(c, i) => AfterUnbuffering(s, comps[c].moves[i].ticket)
  }

  /** The same step of the shuffling model; some change nothing there. */
  ghost function Mirrored(initial: Layout, comps: seq<ShuffleComponent>, st: State, a: Act): State {
    match a
    case Parks(id, vehicle, floor) => st.(admitted := st.admitted[id := Slot(floor, VehicleSpace(vehicle))])
    case Claims(id) => if id in st.admitted then st.(stored := st.stored[id := st.admitted[id]]) else st
    case Lifts(c, i) =>
      if InComponent(comps, c, i) then
        var id := comps[c].moves[i].ticket;
        st.(stored := st.stored - {id}, phase := st.phase[id := Carried])
      else st
    case SetsDown(c, i) =>
      if InComponent(comps, c, i) && comps[c].moves[i].ticket in initial then
        var m := comps[c].moves[i];
        st.(stored := st.stored[m.ticket := Slot(m.to, initial[m.ticket].space)], phase := st.phase[m.ticket := Placed])
      else st
    case _ => st
  }

  // ---------- The simulation ----------

  /** Nobody has asked for a vehicle, and exactly the vehicles not stored yet have a parking job. */
  ghost predicate NobodyLeaves(records: Records, traffic: Traffic) {
    && (forall id :: id in records ==>
      && !records[id].unparkRequested && VehicleSpace(records[id].vehicle) > 0
      && (records[id].status == ParkingPending ==> records[id].physical == -1))
    && ParkingJobsAccounted(records, traffic.parkingJobs, traffic.waiting, traffic.storing)
  }

  /** A vehicle that came later is not stored yet, or stands where it was to go. */
  ghost predicate IsNewOne(r: ParkingRecord) {
    r.status == ParkingPending || (r.status == Parked && r.physical == r.target >= 0)
  }

  /** The vehicles that were there at the start have been parked, and are in no buffer unless on their way. */
  ghost predicate OldOnesParked(initial: Layout, records: Records, st: State) {
    && (forall id :: id in initial ==> id in records && records[id].status != ParkingPending)
    && (forall id :: id in initial && PhaseOf(st.phase, id) != Carried ==> records[id].status == Parked && records[id].buffer < 0)
    && (forall id :: id in records && id !in initial ==> records[id].buffer < 0 && IsNewOne(records[id]))
    && st.admitted.Keys !! initial.Keys
  }

  /** The facility's records and counters say what the shuffling model says. */
  ghost predicate Mirrors(capacity: seq<int>, initial: Layout, comps: seq<ShuffleComponent>, s: Snapshot, st: State) {
    && Consistent(capacity, s) && s.rearranged
    && NobodyLeaves(s.records, s.traffic) && OldOnesParked(initial, s.records, st)
    && Active(s.records) == Target(initial, comps, st)
    && Occupying(s.records, s.traffic.storing) == st.stored
    && UsedMatches(capacity, s.used, st.stored)
  }

  lemma Basics(capacity: seq<int>, initial: Layout, comps: seq<ShuffleComponent>, s: Snapshot, st: State)
    requires Mirrors(capacity, initial, comps, s, st)
    ensures |s.reserved| == |s.used| == |capacity| && s.records.Keys == initial.Keys + st.admitted.Keys && s.records.Keys <= s.issued
    ensures forall id :: id in s.records ==> 0 <= s.records[id].target < |capacity| && -1 <= s.records[id].physical < |capacity|
    ensures forall f :: 0 <= f < |capacity| ==> s.reserved[f] == Load(Target(initial, comps, st), f)
  {
    hide Load, Physical;
    assert Active(s.records).Keys == s.records.Keys;
    assert Planned(initial, PlanOf(comps)).Keys == initial.Keys;
  }

  lemma TargetOf(capacity: seq<int>, initial: Layout, comps: seq<ShuffleComponent>, s: Snapshot, st: State, id: Ticket)
    requires Mirrors(capacity, initial, comps, s, st) && id in s.records
    ensures id in Target(initial, comps, st)
    ensures Target(initial, comps, st)[id] == Slot(s.records[id].target, VehicleSpace(s.records[id].vehicle))
  {
    hide Load, Consistent;
    assert Active(s.records)[id] == Slot(s.records[id].target, VehicleSpace(s.records[id].vehicle));
  }

  // ---------- New vehicles ----------

  /** A record for a new vehicle, not stored yet, with its job. */
  lemma RecordAdded(records: Records, traffic: Traffic, id: Ticket, record: ParkingRecord)
    requires NobodyLeaves(records, traffic) && id !in records
    requires !record.unparkRequested && VehicleSpace(record.vehicle) > 0 && record.status == ParkingPending && record.physical == -1
    ensures NobodyLeaves(records[id := record],
                         traffic.(parkingJobs := traffic.parkingJobs + [ParkingJob(id, record.vehicle, record.target)]))
    ensures Occupying(records[id := record], traffic.storing) == Occupying(records, traffic.storing)
    ensures Active(records[id := record]) == Active(records)[id := Slot(record.target, VehicleSpace(record.vehicle))]
  {
    NewJob(records, traffic.parkingJobs, traffic.waiting, traffic.storing, id, record);
    OnlyKnownTickets(records, traffic.parkingJobs, traffic.waiting, traffic.storing);
    hide ParkingJobsAccounted;
  }

  lemma TargetAdmitted(initial: Layout, comps: seq<ShuffleComponent>, st: State, id: Ticket, slot: Slot)
    ensures Target(initial, comps, st.(admitted := st.admitted[id := slot])) == Target(initial, comps, st)[id := slot]
  {
    hide PlanOf;
  }

  lemma OneMore(initial: Layout, records: Records, st: State, id: Ticket, record: ParkingRecord, slot: Slot)
    requires OldOnesParked(initial, records, st) && id !in records && record.status == ParkingPending && record.buffer < 0
    ensures OldOnesParked(initial, records[id := record], st.(admitted := st.admitted[id := slot]))
  {
  }

  lemma ParksMirrored(capacity: seq<int>, initial: Layout, comps: seq<ShuffleComponent>, s: Snapshot, st: State,
                      id: Ticket, vehicle: VehicleType, floor: nat)
    requires Mirrors(capacity, initial, comps, s, st) && |s.reserved| == |s.used| == |capacity|
    requires id !in s.issued && floor < |capacity| && VehicleSpace(vehicle) > 0
    requires s.reserved[floor] + VehicleSpace(vehicle) <= capacity[floor]
    ensures var next := st.(admitted := st.admitted[id := Slot(floor, VehicleSpace(vehicle))]);
            && Mirrors(capacity, initial, comps, AfterPark(s, id, vehicle, floor), next)
            && Admit(initial, capacity, comps, st, next, id, Slot(floor, VehicleSpace(vehicle)))
  {
    hide Load, Consistent, NobodyLeaves, OldOnesParked, Occupying, Active, Target, UsedMatches, Planned;
    Basics(capacity, initial, comps, s, st);
    OneMore(initial, s.records, st, id, ParkingRecord(vehicle, -1, -1, floor, ParkingPending, false), Slot(floor, VehicleSpace(vehicle)));
    ParkConsistent(capacity, s, id, vehicle, floor);
    RecordAdded(s.records, s.traffic, id, ParkingRecord(vehicle, -1, -1, floor, ParkingPending, false));
    TargetAdmitted(initial, comps, st, id, Slot(floor, VehicleSpace(vehicle)));
  }

  lemma TakesJobMirrored(capacity: seq<int>, initial: Layout, comps: seq<ShuffleComponent>, s: Snapshot, st: State)
    requires Mirrors(capacity, initial, comps, s, st) && s.traffic.parkingJobs != []
    ensures Mirrors(capacity, initial, comps, AfterTakingJob(s), st)
  {
    hide Load, Consistent, ParkingJobsAccounted, Target, Occupying, Active;
    TakingJobConsistent(capacity, s);
    JobTaken(s.records, s.traffic.parkingJobs, s.traffic.waiting, s.traffic.storing);
  }

  lemma ClaimedOccupies(records: Records, traffic: Traffic, id: Ticket)
    requires NobodyLeaves(records, traffic) && id in traffic.waiting
    ensures var job := traffic.waiting[id];
            && IsPendingJob(records, job) && job.ticket == id && id !in Occupying(records, traffic.storing)
            && NobodyLeaves(records, traffic.(waiting := traffic.waiting - {id}, storing := traffic.storing[id := job]))
            && Occupying(records, traffic.storing[id := job]) ==
               Occupying(records, traffic.storing)[id := Slot(job.toFloor, VehicleSpace(job.vehicle))]
  {
    SpaceClaimed(records, traffic.parkingJobs, traffic.waiting, traffic.storing, id);
  }

  lemma ClaimsMirrored(capacity: seq<int>, initial: Layout, comps: seq<ShuffleComponent>, s: Snapshot, st: State, id: Ticket)
    requires Mirrors(capacity, initial, comps, s, st) && |s.used| == |capacity| && id in s.traffic.waiting
    requires 0 <= s.traffic.waiting[id].toFloor < |capacity| && !Blocked(capacity, s.used, s.traffic.waiting[id])
    ensures id in st.admitted
    ensures var next := st.(stored := st.stored[id := st.admitted[id]]);
            Mirrors(capacity, initial, comps, AfterClaim(s, id), next) && Store(capacity, st, next, id)
  {
    hide Load, Consistent, NobodyLeaves, Occupying, Active, Target, Planned;
    ClaimedOccupies(s.records, s.traffic, id);
    NewOneAdmitted(capacity, initial, comps, s, st, id);
    ClaimConsistent(capacity, s, id);
    AddUsed(capacity, s.used, st.stored, id, st.admitted[id]);
    TargetIgnoresStored(initial, comps, st, st.(stored := st.stored[id := st.admitted[id]]));
  }

  lemma TargetIgnoresStored(initial: Layout, comps: seq<ShuffleComponent>, st: State, next: State)
    requires st.admitted == next.admitted
    ensures Target(initial, comps, next) == Target(initial, comps, st)
  {
    hide Planned, PlanOf;
  }

  lemma NewOneAdmitted(capacity: seq<int>, initial: Layout, comps: seq<ShuffleComponent>, s: Snapshot, st: State, id: Ticket)
    requires Mirrors(capacity, initial, comps, s, st) && id in s.records && s.records[id].status == ParkingPending
    ensures id !in initial && id in st.admitted && st.admitted[id] == Slot(s.records[id].target, VehicleSpace(s.records[id].vehicle))
  {
    hide Load, Consistent, NobodyLeaves, Occupying, Active;
    Basics(capacity, initial, comps, s, st);
    TargetOf(capacity, initial, comps, s, st, id);
  }

  lemma StoredOccupies(records: Records, traffic: Traffic, id: Ticket)
    requires NobodyLeaves(records, traffic) && id in traffic.storing && traffic.storing[id].toFloor >= 0
    ensures id in records && records[id].status == ParkingPending && traffic.storing[id].toFloor == records[id].target
    ensures var record := records[id].(physical := traffic.storing[id].toFloor, buffer := -1, status := Parked);
            && NobodyLeaves(records[id := record], traffic.(storing := traffic.storing - {id}))
            && Occupying(records[id := record], traffic.storing - {id}) == Occupying(records, traffic.storing)
            && Active(records[id := record]) == Active(records)
  {
    assert IsPendingJob(records, traffic.storing[id]);
    var record := records[id].(physical := traffic.storing[id].toFloor, buffer := -1, status := Parked);
    JobDone(records, traffic.parkingJobs, traffic.waiting, traffic.storing, id, record);
    SameTargets(records, id, record);
    hide ParkingJobsAccounted, Active;
  }

  lemma StoresMirrored(capacity: seq<int>, initial: Layout, comps: seq<ShuffleComponent>, s: Snapshot, st: State, id: Ticket)
    requires Mirrors(capacity, initial, comps, s, st) && id in s.traffic.storing
    ensures Mirrors(capacity, initial, comps, AfterStore(s, id), st)
  {
    hide Load, Consistent, NobodyLeaves, Occupying, Active, Target, UsedMatches;
    ClaimedFloor(capacity, s, id);
    StoredOccupies(s.records, s.traffic, id);
    StoreConsistent(capacity, s, id);
    KeepsAsking(s.records, s.traffic, id);
    SendsNothing(s.traffic.(storing := s.traffic.storing - {id}));
  }

  lemma SendsNothing(traffic: Traffic)
    ensures traffic.(sending := traffic.sending + multiset{}) == traffic
  {
  }

  lemma ClaimedFloor(capacity: seq<int>, s: Snapshot, id: Ticket)
    requires Consistent(capacity, s) && id in s.traffic.storing
    ensures s.traffic.storing[id].toFloor >= 0
  {
    hide Load, Physical, Ledger;
  }

  lemma SameTargets(records: Records, id: Ticket, record: ParkingRecord)
    requires id in records && SameReservation(records[id], record)
    ensures Active(records[id := record]) == Active(records)
  {
  }

  // ---------- Robots of the rearrangement ----------

  /** A parked vehicle moves; nothing else about the records or the jobs changes. */
  lemma ParkedMoves(records: Records, traffic: Traffic, id: Ticket, record: ParkingRecord)
    requires NobodyLeaves(records, traffic) && id in records && SameReservation(records[id], record)
    requires records[id].status != ParkingPending && record.status != ParkingPending
    ensures NobodyLeaves(records[id := record], traffic) && id !in traffic.storing
  {
    assert forall job :: IsPendingJob(records, job) ==> IsPendingJob(records[id := record], job);
    assert id in traffic.storing ==> IsPendingJob(records, traffic.storing[id]);
  }

  lemma OccupyingMoved(records: Records, storing: map<Ticket, ParkingJob>, id: Ticket, record: ParkingRecord)
    requires id in records && id !in storing && record.vehicle == records[id].vehicle
    ensures Occupying(records[id := record], storing) ==
            if record.physical < 0 then Occupying(records, storing) - {id}
            else Occupying(records, storing)[id := Slot(record.physical, VehicleSpace(record.vehicle))]
  {
  }

  lemma StandsThere(records: Records, storing: map<Ticket, ParkingJob>, id: Ticket)
    requires id in records && id !in storing && records[id].physical >= 0
    ensures id in Occupying(records, storing)
    ensures Occupying(records, storing)[id] == Slot(records[id].physical, VehicleSpace(records[id].vehicle))
  {
  }

  lemma KeepsAsking(records: Records, traffic: Traffic, id: Ticket)
    requires NobodyLeaves(records, traffic) && id in records
    ensures !records[id].unparkRequested
  {
    hide ParkingJobsAccounted;
  }

  /** When it is its turn, a vehicle stands where its move says. */
  lemma TurnIsLiftable(capacity: seq<int>, initial: Layout, comps: seq<ShuffleComponent>, s: Snapshot, st: State, c: nat, i: nat)
    requires Runnable(initial, capacity, comps) && Inv(initial, capacity, comps, st) && Mirrors(capacity, initial, comps, s, st)
    requires InComponent(comps, c, i) && PhaseOf(st.phase, comps[c].moves[i].ticket) == Waiting
    ensures Liftable(capacity, s, comps[c].moves[i]) && comps[c].moves[i].ticket in initial
  {
    hide Load, Flatten, IndexByTicket, Consistent, Target, Fits;
    var m := comps[c].moves[i];
    MovePlanned(comps, c, i);
    assert Whereabouts(initial, comps, st.stored, st.phase, m.ticket);
    ParkedMoves(s.records, s.traffic, m.ticket, s.records[m.ticket]);
    Basics(capacity, initial, comps, s, st);
  }

  lemma LiftsMirrored(capacity: seq<int>, initial: Layout, comps: seq<ShuffleComponent>, s: Snapshot, st: State, c: nat, i: nat)
    requires Runnable(initial, capacity, comps) && Inv(initial, capacity, comps, st) && Mirrors(capacity, initial, comps, s, st)
    requires InComponent(comps, c, i) && IsTurn(comps, st, c, i) && PhaseOf(st.phase, comps[c].moves[i].ticket) == Waiting
    requires Liftable(capacity, s, comps[c].moves[i])
    ensures var id := comps[c].moves[i].ticket;
            var next := st.(stored := st.stored - {id}, phase := st.phase[id := Carried]);
            Mirrors(capacity, initial, comps, AfterLift(s, id), next) && Lift(comps, st, next, c, i)
  {
    hide Load, Flatten, IndexByTicket, Consistent, Runnable, Inv, Planned, PlanOf, NobodyLeaves, Active, Target, Occupying;
    var id := comps[c].moves[i].ticket;
    var record := s.records[id].(physical := -1, status := Rearranging);
    TurnIsLiftable(capacity, initial, comps, s, st, c, i);
    LiftConsistent(capacity, s, id);
    ParkedMoves(s.records, s.traffic, id, record);
    SameTargets(s.records, id, record);
    OccupyingMoved(s.records, s.traffic.storing, id, record);
    StandsThere(s.records, s.traffic.storing, id);
    RemoveUsed(capacity, s.used, st.stored, id);
    TargetIgnoresStored(initial, comps, st, st.(stored := st.stored - {id}, phase := st.phase[id := Carried]));
  }

  /** A carried vehicle is bound for the floor its move names, which is the one its record targets. */
  lemma CarriedTarget(capacity: seq<int>, initial: Layout, comps: seq<ShuffleComponent>, s: Snapshot, st: State, c: nat, i: nat)
    requires Runnable(initial, capacity, comps) && Inv(initial, capacity, comps, st) && Mirrors(capacity, initial, comps, s, st)
    requires InComponent(comps, c, i) && PhaseOf(st.phase, comps[c].moves[i].ticket) == Carried
    ensures var m := comps[c].moves[i];
            && m.ticket in initial && m.ticket in s.records && m.ticket !in st.stored && m.ticket !in s.traffic.storing
            && s.records[m.ticket].target == m.to && VehicleSpace(s.records[m.ticket].vehicle) == initial[m.ticket].space
            && s.records[m.ticket].status != ParkingPending && s.records[m.ticket].physical < 0
  {
    hide Load, Flatten, IndexByTicket, Consistent, Fits;
    var m := comps[c].moves[i];
    MovePlanned(comps, c, i);
    assert Whereabouts(initial, comps, st.stored, st.phase, m.ticket);
    ParkedMoves(s.records, s.traffic, m.ticket, s.records[m.ticket]);
    TargetOf(capacity, initial, comps, s, st, m.ticket);
  }

  lemma SetsDownMirrored(capacity: seq<int>, initial: Layout, comps: seq<ShuffleComponent>, s: Snapshot, st: State, c: nat, i: nat)
    requires Runnable(initial, capacity, comps) && Inv(initial, capacity, comps, st) && Mirrors(capacity, initial, comps, s, st)
    requires InComponent(comps, c, i) && PhaseOf(st.phase, comps[c].moves[i].ticket) == Carried
    requires |s.used| == |capacity| && CanSetDown(capacity, s, comps[c].moves[i].ticket)
    ensures comps[c].moves[i].ticket in initial
    ensures var m := comps[c].moves[i];
            var next := st.(stored := st.stored[m.ticket := Slot(m.to, initial[m.ticket].space)], phase := st.phase[m.ticket := Placed]);
            Mirrors(capacity, initial, comps, AfterSetDown(s, m.ticket), next) && Drop(initial, capacity, comps, st, next, c, i)
  {
    hide Load, Flatten, IndexByTicket, Consistent, Runnable, Inv, Planned, PlanOf, NobodyLeaves, Active, Target, Occupying;
    var m := comps[c].moves[i];
    CarriedTarget(capacity, initial, comps, s, st, c, i);
    var record := s.records[m.ticket].(physical := m.to, buffer := -1, status := Parked);
    SetDownConsistent(capacity, s, m.ticket);
    ParkedMoves(s.records, s.traffic, m.ticket, record);
    SameTargets(s.records, m.ticket, record);
    OccupyingMoved(s.records, s.traffic.storing, m.ticket, record);
    AddUsed(capacity, s.used, st.stored, m.ticket, Slot(m.to, initial[m.ticket].space));
    TargetIgnoresStored(initial, comps, st, st.(stored := st.stored[m.ticket := Slot(m.to, initial[m.ticket].space)], phase := st.phase[m.ticket := Placed]));
    KeepsAsking(s.records, s.traffic, m.ticket);
    SendsNothing(s.traffic);
  }

  lemma BuffersMirrored(capacity: seq<int>, initial: Layout, comps: seq<ShuffleComponent>, s: Snapshot, st: State, c: nat, i: nat, slot: nat)
    requires Runnable(initial, capacity, comps) && Inv(initial, capacity, comps, st) && Mirrors(capacity, initial, comps, s, st)
    requires InComponent(comps, c, i) && PhaseOf(st.phase, comps[c].moves[i].ticket) == Carried
    ensures var id := comps[c].moves[i].ticket;
            && id in s.records
            && Mirrors(capacity, initial, comps, AfterBuffering(s, id, slot), st)
            && Mirrors(capacity, initial, comps, AfterUnbuffering(s, id), st)
  {
    hide Load, Flatten, IndexByTicket, Consistent, Runnable, Inv, Planned, PlanOf, NobodyLeaves, Active, Target, Occupying;
    var id := comps[c].moves[i].ticket;
    CarriedTarget(capacity, initial, comps, s, st, c, i);
    BufferingConsistent(capacity, s, id, slot);
    CarriedStays(s.records, s.traffic, id, AfterBuffering(s, id, slot).records[id]);
    CarriedStays(s.records, s.traffic, id, AfterUnbuffering(s, id).records[id]);
  }

  lemma CarriedStays(records: Records, traffic: Traffic, id: Ticket, record: ParkingRecord)
    requires NobodyLeaves(records, traffic) && id in records && SameReservation(records[id], record)
    requires records[id].status != ParkingPending && record.status != ParkingPending
    requires records[id].physical < 0 && record.physical < 0
    ensures NobodyLeaves(records[id := record], traffic) && Active(records[id := record]) == Active(records)
    ensures Occupying(records[id := record], traffic.storing) == Occupying(records, traffic.storing)
  {
    hide NobodyLeaves, Active;
    ParkedMoves(records, traffic, id, record);
    SameTargets(records, id, record);
  }

  // ---------- Every run ----------

  lemma StepMirrored(capacity: seq<int>, initial: Layout, comps: seq<ShuffleComponent>, s: Snapshot, st: State, a: Act)
    requires Runnable(initial, capacity, comps) && Inv(initial, capacity, comps, st) && Mirrors(capacity, initial, comps, s, st)
    requires |s.reserved| == |s.used| == |capacity| && Possible(capacity, comps, s, st, a)
    ensures Mirrors(capacity, initial, comps, After(capacity, comps, s, st, a), Mirrored(initial, comps, st, a))
    ensures Inv(initial, capacity, comps, Mirrored(initial, comps, st, a))
  {
    hide Mirrors, Runnable, Inv, Lift, Drop, Admit, Store;
    var next := Mirrored(initial, comps, st, a);
    match a
    case Parks(id, vehicle, floor) =>
      ParksMirrored(capacity, initial, comps, s, st, id, vehicle, floor);
      AdmitInv(initial, capacity, comps, st, next, id, Slot(floor, VehicleSpace(vehicle)));
    case TakesJob => TakesJobMirrored(capacity, initial, comps, s, st);
    case Claims(id) =>
      ClaimsMirrored(capacity, initial, comps, s, st, id);
      StoreInv(initial, capacity, comps, st, next, id);
    case Stores(id) => StoresMirrored(capacity, initial, comps, s, st, id);
    case Lifts(c, i) =>
      LiftsMirrored(capacity, initial, comps, s, st, c, i);
      LiftInv(initial, capacity, comps, st, next, c, i);
    case SetsDown(c, i) =>
      SetsDownMirrored(capacity, initial, comps, s, st, c, i);
      DropInv(initial, capacity, comps, st, next, c, i);
    case Buffers(c, i, slot) => BuffersMirrored(capacity, initial, comps, s, st, c, i, slot);
    case Unbuffers(c, i) => BuffersMirrored(capacity, initial, comps, s, st, c, i, 0);
  }

  /** The facility and the progress of its robots after these acts, if each could happen when it came. */
  ghost predicate Leads(capacity: seq<int>, initial: Layout, comps: seq<ShuffleComponent>, s: Snapshot, st: State, acts: seq<Act>,
                        s': Snapshot, st': State)
    decreases |acts|
  {
    if acts == [] then s' == s && st' == st
    else
      && |s.reserved| == |s.used| == |capacity| && Possible(capacity, comps, s, st, acts[0])
      && Leads(capacity, initial, comps, After(capacity, comps, s, st, acts[0]), Mirrored(initial, comps, st, acts[0]), acts[1..], s', st')
  }

  lemma {:induction false} RunMirrored(capacity: seq<int>, initial: Layout, comps: seq<ShuffleComponent>, s: Snapshot, st: State,
                                       acts: seq<Act>, s': Snapshot, st': State)
    requires Runnable(initial, capacity, comps) && Inv(initial, capacity, comps, st) && Mirrors(capacity, initial, comps, s, st)
    requires Leads(capacity, initial, comps, s, st, acts, s', st')
    ensures Mirrors(capacity, initial, comps, s', st') && Inv(initial, capacity, comps, st')
    decreases |acts|
  {
    hide Mirrors, Runnable, Inv, After, Possible, Mirrored;
    if acts != [] {
      StepMirrored(capacity, initial, comps, s, st, acts[0]);
      RunMirrored(capacity, initial, comps, After(capacity, comps, s, st, acts[0]), Mirrored(initial, comps, st, acts[0]), acts[1..], s', st');
    }
  }

  /** Where every vehicle stands at its floor and `comps` are the moves just committed. */
  ghost predicate Starts(capacity: seq<int>, initial: Layout, comps: seq<ShuffleComponent>, s: Snapshot, st: State) {
    && Consistent(capacity, s) && s.rearranged && Init(initial, comps, st)
    && s.traffic.parkingJobs == [] && s.traffic.waiting == map[] && s.traffic.storing == map[]
    && Active(s.records) == Planned(initial, PlanOf(comps)) && UsedMatches(capacity, s.used, initial)
    && s.records.Keys == initial.Keys
    && forall id :: id in s.records ==>
      && !s.records[id].unparkRequested && VehicleSpace(s.records[id].vehicle) == initial[id].space > 0
      && s.records[id].status == Parked && s.records[id].buffer < 0 && s.records[id].physical == initial[id].floor >= 0
  }

  lemma AllOnFloors(initial: Layout, records: Records)
    requires records.Keys == initial.Keys
    requires forall id :: id in records ==>
      VehicleSpace(records[id].vehicle) == initial[id].space && records[id].physical == initial[id].floor >= 0
    ensures Occupying(records, map[]) == initial
  {
  }

  lemma StartMirrored(capacity: seq<int>, initial: Layout, comps: seq<ShuffleComponent>, s: Snapshot, st: State)
    requires Starts(capacity, initial, comps, s, st)
    ensures Mirrors(capacity, initial, comps, s, st)
  {
    hide Load, Consistent, Planned, PlanOf, Active, Occupying, UsedMatches;
    assert Planned(initial, PlanOf(comps)) + st.admitted == Planned(initial, PlanOf(comps));
    AllOnFloors(initial, s.records);
  }

  /** In every run that starts with all vehicles stored and in which nobody asks for one: whenever a robot
      on an acyclic component carries a vehicle, the look at the floor's counter finds room; and whenever
      the next vehicle of a component is to be lifted, it is where the move says. */
  lemma RobotsNeverWait(capacity: seq<int>, initial: Layout, comps: seq<ShuffleComponent>, s: Snapshot, st: State, acts: seq<Act>,
                        s': Snapshot, st': State, c: nat, i: nat)
    requires Runnable(initial, capacity, comps) && Starts(capacity, initial, comps, s, st)
    requires Leads(capacity, initial, comps, s, st, acts, s', st') && InComponent(comps, c, i)
    ensures |s'.used| == |capacity|
    ensures PhaseOf(st'.phase, comps[c].moves[i].ticket) == Waiting ==> Liftable(capacity, s', comps[c].moves[i])
    ensures !comps[c].loop && PhaseOf(st'.phase, comps[c].moves[i].ticket) == Carried ==>
      CanSetDown(capacity, s', comps[c].moves[i].ticket)
  {
    hide Load, Flatten, IndexByTicket, Runnable, Inv, Consistent, Planned, PlanOf, Occupying, Target;
    StartMirrored(capacity, initial, comps, s, st);
    InitInv(initial, capacity, comps, st);
    RunMirrored(capacity, initial, comps, s, st, acts, s', st');
    Basics(capacity, initial, comps, s', st');
    var phase := PhaseOf(st'.phase, comps[c].moves[i].ticket);
    if phase == Waiting {
      TurnIsLiftable(capacity, initial, comps, s', st', c, i);
    } else if phase == Carried && !comps[c].loop {
      CarriedTarget(capacity, initial, comps, s', st', c, i);
      NeverBlocks(initial, capacity, comps, st', c, i);
    }
  }

  // ---------- From one rearrangement to the next ----------

  /** Every vehicle stands where it is reserved, nobody has asked for one, no robot is busy, and the
      counters are right: a rearrangement may begin. */
  ghost predicate Ready(capacity: seq<int>, s: Snapshot) {
    && Consistent(capacity, s) && AllStored(s.records) && UsedMatches(capacity, s.used, Active(s.records))
    && s.traffic.parkingJobs == [] && s.traffic.waiting == map[] && s.traffic.storing == map[]
    && forall id :: id in s.records ==> s.records[id].status == Parked && s.records[id].buffer < 0
  }

  lemma FirstReady(capacity: seq<int>, s: Snapshot)
    requires Consistent(capacity, s) && !s.rearranged && AllStored(s.records)
    ensures Ready(capacity, s)
  {
    hide Load, Ledger, UnparkJobsAccounted, ParkingJobsAccounted;
    StoredAreKnown(capacity, s);
    NoJobsLeft(s.records, s.traffic);
    assert Occupying(s.records, map[]) == Active(s.records);
  }

  lemma NoJobsLeft(records: Records, traffic: Traffic)
    requires ParkingJobsAccounted(records, traffic.parkingJobs, traffic.waiting, traffic.storing)
    requires forall id :: id in records ==> records[id].status != ParkingPending
    ensures traffic.parkingJobs == [] && traffic.waiting == map[] && traffic.storing == map[]
  {
    OnlyKnownTickets(records, traffic.parkingJobs, traffic.waiting, traffic.storing);
    SomeJob(traffic.parkingJobs);
  }

  lemma SomeJob(jobs: seq<ParkingJob>)
    ensures jobs != [] ==> exists job :: job in jobs
  {
    if jobs != [] {
      assert jobs[0] in jobs;
    }
  }

  lemma StoredAreKnown(capacity: seq<int>, s: Snapshot)
    requires Consistent(capacity, s)
    ensures forall id :: id in s.records ==> VehicleSpace(s.records[id].vehicle) > 0
  {
    hide Load, Physical;
  }

  ghost function Waits(comps: seq<ShuffleComponent>): map<Ticket, Phase> {
    map id | id in PlanOf(comps) :: Waiting
  }

  /** A committed blueprint starts a rearrangement. */
  lemma BlueprintStarts(capacity: seq<int>, before: Snapshot, after: Snapshot, comps: seq<ShuffleComponent>)
    requires Ready(capacity, before) && Consistent(capacity, after) && after.rearranged
    requires after.used == before.used && after.traffic == before.traffic && SameSessions(before.records, after.records)
    requires Active(after.records) == Planned(Active(before.records), PlanOf(comps))
    ensures Starts(capacity, Active(before.records), comps, after, State(Active(before.records), Waits(comps), map[]))
  {
    hide Load, Consistent, PlanOf, Planned;
    StoredAreKnown(capacity, before);
    assert Active(before.records).Keys == before.records.Keys;
  }

  /** And when all its moves are made and all new vehicles stored, another may begin. */
  lemma EndsReady(capacity: seq<int>, initial: Layout, comps: seq<ShuffleComponent>, s: Snapshot, st: State)
    requires Runnable(initial, capacity, comps) && Inv(initial, capacity, comps, st) && Mirrors(capacity, initial, comps, s, st)
    requires forall c :: 0 <= c < |comps| ==> Finished(st, comps[c])
    requires s.traffic.parkingJobs == [] && s.traffic.waiting == map[] && s.traffic.storing == map[]
    ensures Ready(capacity, s)
  {
    hide Load, Flatten, IndexByTicket, Runnable, Consistent, Planned, Target;
    NobodyPending(s.records, s.traffic);
    NoneCarried(initial, capacity, comps, st);
    Basics(capacity, initial, comps, s, st);
    forall id | id in st.admitted
      ensures id in st.stored
    {
      assert id in s.records && id !in initial;
      StandsThere(s.records, s.traffic.storing, id);
    }
    EndsAsPlanned(initial, capacity, comps, st);
    forall id | id in s.records
      ensures s.records[id].physical == s.records[id].target >= 0
    {
      TargetOf(capacity, initial, comps, s, st, id);
      assert id in Occupying(s.records, s.traffic.storing);
    }
  }

  lemma NobodyPending(records: Records, traffic: Traffic)
    requires NobodyLeaves(records, traffic) && traffic.parkingJobs == [] && traffic.waiting == map[] && traffic.storing == map[]
    ensures forall id :: id in records ==> records[id].status != ParkingPending && !records[id].unparkRequested
  {
  }

  lemma NoneCarried(initial: Layout, capacity: seq<int>, comps: seq<ShuffleComponent>, st: State)
    requires Runnable(initial, capacity, comps) && Inv(initial, capacity, comps, st)
    requires forall c :: 0 <= c < |comps| ==> Finished(st, comps[c])
    ensures forall id :: PhaseOf(st.phase, id) != Carried
  {
    hide Load, Flatten, IndexByTicket, Fits;
    forall id
      ensures PhaseOf(st.phase, id) != Carried
    {
      if id in PlanOf(comps) {
        var c, i := PlannedMove(comps, id);
        assert Finished(st, comps[c]);
      }
    }
  }
}
