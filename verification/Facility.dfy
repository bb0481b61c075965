/** What the parking facility keeps true: the reservation ledger and the physical occupancy. */
module Facility {
  import opened ParkingModels

  type Records = map<Ticket, ParkingRecord>

  const CHANNEL_CAPACITY: nat := 1000

  // ---------- The reservation ledger ----------

  ghost predicate WellFormed(records: Records, floorCount: nat) {
    forall id :: id in records ==>
      && VehicleSpace(records[id].vehicle) > 0
      && 0 <= records[id].target < floorCount
      && -1 <= records[id].physical < floorCount
  }

  /** Every floor's reserved capacity is the space of the records that target it and are not being retrieved. */
  ghost predicate BooksMatch(capacity: seq<int>, reserved: seq<int>, records: Records) {
    && |reserved| == |capacity|
    && WellFormed(records, |capacity|)
    && (forall f :: 0 <= f < |reserved| ==> reserved[f] == Load(Active(records), f))
  }

  ghost predicate Ledger(capacity: seq<int>, reserved: seq<int>, records: Records) {
    BooksMatch(capacity, reserved, records) && Fits(Active(records), capacity)
  }

  lemma ParkKeepsLedger(capacity: seq<int>, reserved: seq<int>, records: Records, id: Ticket, record: ParkingRecord)
    requires Ledger(capacity, reserved, records) && id !in records
    requires VehicleSpace(record.vehicle) > 0 && !record.unparkRequested && record.physical == -1
    requires 0 <= record.target < |capacity|
    requires reserved[record.target] + VehicleSpace(record.vehicle) <= capacity[record.target]
    ensures Ledger(capacity, reserved[record.target := reserved[record.target] + VehicleSpace(record.vehicle)], records[id := record])
  {
    hide Load;
    var slot := Slot(record.target, VehicleSpace(record.vehicle));
    assert Active(records[id := record]) == Active(records)[id := slot];
    forall f
      ensures Load(Active(records)[id := slot], f) == Load(Active(records), f) + SpaceOn(slot, f)
    {
      LoadSet(Active(records), id, slot, f);
    }
  }

  lemma UnparkKeepsLedger(capacity: seq<int>, reserved: seq<int>, records: Records, id: Ticket)
    requires Ledger(capacity, reserved, records) && id in records && !records[id].unparkRequested
    ensures var r := records[id];
            Ledger(capacity, reserved[r.target := reserved[r.target] - VehicleSpace(r.vehicle)],
                   records[id := r.(unparkRequested := true)])
  {
    hide Load;
    var r := records[id];
    assert Active(records[id := r.(unparkRequested := true)]) == Active(records) - {id};
    forall f
      ensures Load(Active(records) - {id}, f) == Load(Active(records), f) - if f == r.target then VehicleSpace(r.vehicle) else 0
    {
      LoadRemove(Active(records), id, f);
    }
  }

  /** Moving one reservation keeps the books, whether or not the new floor is full. */
  lemma RetargetKeepsBooks(capacity: seq<int>, reserved: seq<int>, records: Records, id: Ticket, target: nat)
    requires BooksMatch(capacity, reserved, records) && id in records && !records[id].unparkRequested
    requires target < |capacity| && target != records[id].target
    ensures var r, space := records[id], VehicleSpace(records[id].vehicle);
            BooksMatch(capacity, reserved[r.target := reserved[r.target] - space][target := reserved[target] + space],
                       records[id := r.(target := target)])
  {
    hide Load;
    var r, space := records[id], VehicleSpace(records[id].vehicle);
    assert Active(records[id := r.(target := target)]) == Active(records)[id := Slot(target, space)];
    forall f
      ensures Load(Active(records)[id := Slot(target, space)], f) ==
        Load(Active(records), f) + SpaceOn(Slot(target, space), f) - SpaceOn(Slot(r.target, space), f)
    {
      LoadSet(Active(records), id, Slot(target, space), f);
    }
  }

  /** Changes to a record that leave its floor, vehicle and retrieval request alone. */
  ghost predicate SameReservation(a: ParkingRecord, b: ParkingRecord) {
    a.vehicle == b.vehicle && a.target == b.target && a.unparkRequested == b.unparkRequested
  }

  lemma MovementKeepsLedger(capacity: seq<int>, reserved: seq<int>, records: Records, id: Ticket, record: ParkingRecord)
    requires Ledger(capacity, reserved, records) && id in records && SameReservation(records[id], record)
    requires -1 <= record.physical < |capacity|
    ensures Ledger(capacity, reserved, records[id := record])
  {
    assert Active(records[id := record]) == Active(records);
  }

  lemma RemovalKeepsLedger(capacity: seq<int>, reserved: seq<int>, records: Records, id: Ticket)
    requires Ledger(capacity, reserved, records) && (id in records ==> records[id].unparkRequested)
    ensures Ledger(capacity, reserved, records - {id})
  {
    assert Active(records - {id}) == Active(records);
  }

  // ---------- Jobs on their way ----------

  datatype ParkingJob = ParkingJob(ticket: Ticket, vehicle: VehicleType, toFloor: int)

  datatype Retrieval = Retrieval(ticket: Ticket, floor: int, space: nat)

  /** Jobs in the two channels and in the hands of robots.
      `waiting`: parkers waiting for room. `storing`: parkers that have claimed it and are moving the vehicle.
      `sending`: robots about to queue an unpark job. `retrieving`: unparkers fetching a vehicle. */
  datatype Traffic = Traffic(
    parkingJobs: seq<ParkingJob>,
    waiting: map<Ticket, ParkingJob>,
    storing: map<Ticket, ParkingJob>,
    unparkJobs: seq<Ticket>,
    sending: multiset<Ticket>,
    retrieving: multiset<Retrieval>)

  /** True in all runs: jobs name issued tickets and real floors, and only requested vehicles are fetched. */
  ghost predicate TrafficWellFormed(floorCount: nat, issued: set<Ticket>, records: Records, traffic: Traffic) {
    && records.Keys <= issued
    && (forall j :: j in traffic.parkingJobs ==> j.ticket in issued && 0 <= j.toFloor < floorCount)
    && (forall id :: id in traffic.waiting ==>
      traffic.waiting[id].ticket == id && id in issued && 0 <= traffic.waiting[id].toFloor < floorCount)
    && (forall id :: id in traffic.storing ==>
      traffic.storing[id].ticket == id && id in issued && 0 <= traffic.storing[id].toFloor < floorCount)
    && (forall id :: id in traffic.unparkJobs ==> id in issued)
    && (forall id :: id in traffic.sending ==> id in issued)
    && (forall r :: r in traffic.retrieving ==>
      && r.ticket in issued && -1 <= r.floor < floorCount
      && (r.ticket in records ==> records[r.ticket].unparkRequested))
  }

  // ---------- Physical occupancy, in runs without rearrangement ----------

  /** Vehicles that take up a floor: stored there, or on their way to space already claimed there. */
  ghost function Occupying(records: Records, storing: map<Ticket, ParkingJob>): Layout {
    map id | id in records && (id in storing || records[id].physical >= 0) ::
      Slot(if id in storing then storing[id].toFloor else records[id].physical, VehicleSpace(records[id].vehicle))
  }

  /** A vehicle is either parked where its reservation is, or not stored yet. */
  ghost predicate Settled(records: Records) {
    forall id :: id in records ==>
      && records[id].buffer == -1
      && ((records[id].status == Parked && records[id].physical == records[id].target)
          || (records[id].status == ParkingPending && records[id].physical == -1))
  }

  ghost predicate IsPendingJob(records: Records, job: ParkingJob) {
    && job.ticket in records
    && records[job.ticket].status == ParkingPending
    && records[job.ticket].target == job.toFloor
    && records[job.ticket].vehicle == job.vehicle
  }

  /** Every vehicle not stored yet has its job in exactly one place: queued, waiting for room, or being stored. */
  ghost predicate ParkingJobsAccounted(records: Records, queue: seq<ParkingJob>, waiting: map<Ticket, ParkingJob>,
                                       storing: map<Ticket, ParkingJob>)
  {
    && (forall i, j :: 0 <= i < j < |queue| ==> queue[i].ticket != queue[j].ticket)
    && (forall job :: job in queue ==> IsPendingJob(records, job) && job.ticket !in waiting && job.ticket !in storing)
    && (forall id :: id in waiting ==> waiting[id].ticket == id && IsPendingJob(records, waiting[id]) && id !in storing)
    && (forall id :: id in storing ==> storing[id].ticket == id && IsPendingJob(records, storing[id]))
    && (forall id :: id in records && records[id].status == ParkingPending ==>
      id in waiting || id in storing || ParkingJob(id, records[id].vehicle, records[id].target) in queue)
  }

  /** The unpark jobs that exist for a ticket: queued, about to be queued, or being carried out. */
  ghost function UnparkJobsFor(records: Records, queue: seq<Ticket>, sending: multiset<Ticket>, retrieving: multiset<Retrieval>,
                               id: Ticket): nat
  {
    multiset(queue)[id] + sending[id] + if id in records then retrieving[RetrievalOf(records, id)] else 0
  }

  ghost function RetrievalOf(records: Records, id: Ticket): Retrieval
    requires id in records
  {
    Retrieval(id, records[id].physical, VehicleSpace(records[id].vehicle))
  }

  ghost predicate AwaitsRetrieval(records: Records, id: Ticket) {
    id in records && records[id].unparkRequested && records[id].status == Parked
  }

  /** One unpark job for each stored vehicle whose retrieval was requested, and no other. */
  ghost predicate UnparkJobsAccounted(records: Records, queue: seq<Ticket>, sending: multiset<Ticket>, retrieving: multiset<Retrieval>) {
    && (forall id :: UnparkJobsFor(records, queue, sending, retrieving, id) == if AwaitsRetrieval(records, id) then 1 else 0)
    && (forall r :: r in retrieving ==> r.ticket in records && r == RetrievalOf(records, r.ticket))
  }

  ghost predicate UsedMatches(capacity: seq<int>, used: seq<int>, l: Layout) {
    |used| == |capacity| && forall f :: 0 <= f < |used| ==> used[f] == Load(l, f)
  }

  ghost predicate Physical(capacity: seq<int>, used: seq<int>, records: Records, traffic: Traffic) {
    && UsedMatches(capacity, used, Occupying(records, traffic.storing))
    && Settled(records)
    && ParkingJobsAccounted(records, traffic.parkingJobs, traffic.waiting, traffic.storing)
    && UnparkJobsAccounted(records, traffic.unparkJobs, traffic.sending, traffic.retrieving)
  }

  /** A parker with this job has to wait. */
  ghost predicate Blocked(capacity: seq<int>, used: seq<int>, job: ParkingJob) {
    0 <= job.toFloor < |capacity| == |used| && capacity[job.toFloor] - used[job.toFloor] < VehicleSpace(job.vehicle)
  }

  ghost predicate SomeDepartureOn(records: Records, here: Layout, f: int) {
    exists id :: id in here && here[id].floor == f && id in records && records[id].unparkRequested
  }

  /** A parker can be kept waiting for a wanted vehicle only by a vehicle on its way out: some
      vehicle whose retrieval has been requested still takes up the floor. */
  lemma OnlyDeparturesBlock(capacity: seq<int>, reserved: seq<int>, used: seq<int>, records: Records, traffic: Traffic, id: Ticket)
    requires Ledger(capacity, reserved, records) && Physical(capacity, used, records, traffic)
    requires id in traffic.waiting && Blocked(capacity, used, traffic.waiting[id])
    requires id in records && !records[id].unparkRequested
    ensures SomeDepartureOn(records, Occupying(records, traffic.storing), traffic.waiting[id].toFloor)
  {
    hide Load, UnparkJobsAccounted, SomeDepartureOn;
    var here, job := Occupying(records, traffic.storing), traffic.waiting[id];
    assert IsPendingJob(records, job) && id !in here;
    if !SomeDepartureOn(records, here, job.toFloor) {
      var slot := Slot(job.toFloor, VehicleSpace(job.vehicle));
      LoadSet(here, id, slot, job.toFloor);
      OccupantsAreActive(records, traffic, id, job.toFloor);
      LoadMono(here[id := slot], Active(records), job.toFloor);
      assert false;
    }
  }

  lemma OccupantsAreActive(records: Records, traffic: Traffic, id: Ticket, f: int)
    requires Settled(records) && ParkingJobsAccounted(records, traffic.parkingJobs, traffic.waiting, traffic.storing)
    requires forall x :: x in records ==> VehicleSpace(records[x].vehicle) > 0
    requires id in records && !records[id].unparkRequested && records[id].target == f
    requires !SomeDepartureOn(records, Occupying(records, traffic.storing), f)
    ensures var here := Occupying(records, traffic.storing)[id := Slot(f, VehicleSpace(records[id].vehicle))];
            forall x :: x in here && here[x].floor == f ==> x in Active(records) && Active(records)[x] == here[x]
  {
    var here := Occupying(records, traffic.storing);
    forall x | x in here && here[x].floor == f && x != id
      ensures x in Active(records) && Active(records)[x] == here[x]
    {
      if x in traffic.storing {
        assert IsPendingJob(records, traffic.storing[x]);
      }
    }
  }

  // ---------- What each critical section does to the parking jobs ----------

  lemma OnlyKnownTickets(records: Records, queue: seq<ParkingJob>, waiting: map<Ticket, ParkingJob>, storing: map<Ticket, ParkingJob>)
    requires ParkingJobsAccounted(records, queue, waiting, storing)
    ensures forall id :: id in waiting ==> id in records && records[id].status == ParkingPending
    ensures forall id :: id in storing ==> id in records && records[id].status == ParkingPending
  {
    assert forall id :: id in waiting ==> IsPendingJob(records, waiting[id]);
    assert forall id :: id in storing ==> IsPendingJob(records, storing[id]);
  }

  lemma NewJob(records: Records, queue: seq<ParkingJob>, waiting: map<Ticket, ParkingJob>, storing: map<Ticket, ParkingJob>,
               id: Ticket, record: ParkingRecord)
    requires ParkingJobsAccounted(records, queue, waiting, storing) && record.status == ParkingPending
    requires id !in records
    ensures ParkingJobsAccounted(records[id := record], queue + [ParkingJob(id, record.vehicle, record.target)], waiting, storing)
  {
    var queue' := queue + [ParkingJob(id, record.vehicle, record.target)];
    forall i, j | 0 <= i < j < |queue'|
      ensures queue'[i].ticket != queue'[j].ticket
    {
      assert queue'[i] in queue;
    }
    OnlyKnownTickets(records, queue, waiting, storing);
    assert forall job :: IsPendingJob(records, job) ==> IsPendingJob(records[id := record], job);
  }

  lemma JobTaken(records: Records, queue: seq<ParkingJob>, waiting: map<Ticket, ParkingJob>, storing: map<Ticket, ParkingJob>)
    requires ParkingJobsAccounted(records, queue, waiting, storing) && queue != []
    ensures ParkingJobsAccounted(records, queue[1..], waiting[queue[0].ticket := queue[0]], storing)
  {
    assert queue == [queue[0]] + queue[1..];
    assert IsPendingJob(records, queue[0]);
  }

  lemma SpaceClaimed(records: Records, queue: seq<ParkingJob>, waiting: map<Ticket, ParkingJob>, storing: map<Ticket, ParkingJob>,
                     id: Ticket)
    requires ParkingJobsAccounted(records, queue, waiting, storing) && id in waiting
    ensures ParkingJobsAccounted(records, queue, waiting - {id}, storing[id := waiting[id]])
  {
  }

  /** Changes that keep a record's vehicle, target and status. */
  lemma JobsUnaffected(records: Records, queue: seq<ParkingJob>, waiting: map<Ticket, ParkingJob>, storing: map<Ticket, ParkingJob>,
                       id: Ticket, record: ParkingRecord)
    requires ParkingJobsAccounted(records, queue, waiting, storing) && id in records
    requires record.vehicle == records[id].vehicle && record.target == records[id].target && record.status == records[id].status
    ensures ParkingJobsAccounted(records[id := record], queue, waiting, storing)
  {
    assert forall job :: IsPendingJob(records, job) ==> IsPendingJob(records[id := record], job);
  }

  lemma JobDone(records: Records, queue: seq<ParkingJob>, waiting: map<Ticket, ParkingJob>, storing: map<Ticket, ParkingJob>,
                id: Ticket, record: ParkingRecord)
    requires ParkingJobsAccounted(records, queue, waiting, storing) && id in storing && record.status == Parked
    ensures ParkingJobsAccounted(records[id := record], queue, waiting, storing - {id})
  {
    assert forall job :: IsPendingJob(records, job) && job.ticket != id ==> IsPendingJob(records[id := record], job);
  }

  lemma StoredVehicleGone(records: Records, queue: seq<ParkingJob>, waiting: map<Ticket, ParkingJob>, storing: map<Ticket, ParkingJob>,
                          id: Ticket)
    requires ParkingJobsAccounted(records, queue, waiting, storing) && id in records && records[id].status == Parked
    ensures ParkingJobsAccounted(records - {id}, queue, waiting, storing)
    ensures id !in storing && id !in waiting
  {
    OnlyKnownTickets(records, queue, waiting, storing);
    assert forall job :: IsPendingJob(records, job) ==> IsPendingJob(records - {id}, job);
  }

  // ---------- What each critical section does to the unpark jobs ----------

  lemma NoUnparkJobsFor(records: Records, queue: seq<Ticket>, sending: multiset<Ticket>, retrieving: multiset<Retrieval>, id: Ticket)
    requires UnparkJobsAccounted(records, queue, sending, retrieving) && !AwaitsRetrieval(records, id)
    ensures forall r :: r in retrieving ==> r.ticket != id
  {
    assert UnparkJobsFor(records, queue, sending, retrieving, id) == 0;
    forall r | r in retrieving
      ensures r.ticket != id
    {
    }
  }

  /** A record changes and with it, possibly, the demand for one unpark job. */
  lemma JobForNewDemand(records: Records, queue: seq<Ticket>, sending: multiset<Ticket>, retrieving: multiset<Retrieval>,
                        id: Ticket, record: ParkingRecord, queue': seq<Ticket>, sending': multiset<Ticket>)
    requires UnparkJobsAccounted(records, queue, sending, retrieving) && !AwaitsRetrieval(records, id)
    requires forall x | x != id :: multiset(queue')[x] + sending'[x] == multiset(queue)[x] + sending[x]
    requires multiset(queue')[id] + sending'[id] ==
             multiset(queue)[id] + sending[id] + if AwaitsRetrieval(records[id := record], id) then 1 else 0
    ensures UnparkJobsAccounted(records[id := record], queue', sending', retrieving)
  {
    NoUnparkJobsFor(records, queue, sending, retrieving, id);
    var records' := records[id := record];
    forall x
      ensures UnparkJobsFor(records', queue', sending', retrieving, x) == if AwaitsRetrieval(records', x) then 1 else 0
    {
      assert UnparkJobsFor(records, queue, sending, retrieving, x) == if AwaitsRetrieval(records, x) then 1 else 0;
    }
  }

  lemma JobQueued(records: Records, queue: seq<Ticket>, sending: multiset<Ticket>, retrieving: multiset<Retrieval>, id: Ticket)
    requires UnparkJobsAccounted(records, queue, sending, retrieving) && id in sending
    ensures UnparkJobsAccounted(records, queue + [id], sending - multiset{id}, retrieving)
  {
    forall x
      ensures UnparkJobsFor(records, queue + [id], sending - multiset{id}, retrieving, x) ==
        UnparkJobsFor(records, queue, sending, retrieving, x)
    {
    }
  }

  /** An unparker never finds its ticket gone or not requested. */
  lemma JobFetched(records: Records, queue: seq<Ticket>, sending: multiset<Ticket>, retrieving: multiset<Retrieval>)
    requires UnparkJobsAccounted(records, queue, sending, retrieving) && queue != []
    ensures AwaitsRetrieval(records, queue[0])
    ensures UnparkJobsAccounted(records, queue[1..], sending, retrieving + multiset{RetrievalOf(records, queue[0])})
  {
    assert queue == [queue[0]] + queue[1..];
    assert UnparkJobsFor(records, queue, sending, retrieving, queue[0]) >= 1;
    var retrieving' := retrieving + multiset{RetrievalOf(records, queue[0])};
    forall x
      ensures UnparkJobsFor(records, queue[1..], sending, retrieving', x) == UnparkJobsFor(records, queue, sending, retrieving, x)
    {
    }
  }

  lemma RetrievalDone(records: Records, queue: seq<Ticket>, sending: multiset<Ticket>, retrieving: multiset<Retrieval>, r: Retrieval)
    requires UnparkJobsAccounted(records, queue, sending, retrieving) && r in retrieving
    ensures AwaitsRetrieval(records, r.ticket) && r == RetrievalOf(records, r.ticket)
    ensures UnparkJobsAccounted(records - {r.ticket}, queue, sending, retrieving - multiset{r})
  {
    var records', retrieving' := records - {r.ticket}, retrieving - multiset{r};
    assert UnparkJobsFor(records, queue, sending, retrieving, r.ticket) >= 1;
    forall x
      ensures UnparkJobsFor(records', queue, sending, retrieving', x) == if AwaitsRetrieval(records', x) then 1 else 0
    {
      assert UnparkJobsFor(records, queue, sending, retrieving, x) == if AwaitsRetrieval(records, x) then 1 else 0;
    }
    assert r !in retrieving';
    forall q | q in retrieving'
      ensures q.ticket in records' && q == RetrievalOf(records', q.ticket)
    {
      assert q in retrieving;
      assert q == RetrievalOf(records, q.ticket);
    }
  }

  // ---------- What each critical section does to the physical state ----------

  lemma ParkKeepsPhysical(capacity: seq<int>, used: seq<int>, records: Records, traffic: Traffic, id: Ticket, record: ParkingRecord)
    requires Physical(capacity, used, records, traffic) && id !in records
    requires record.buffer == -1 && record.physical == -1 && record.status == ParkingPending && !record.unparkRequested
    ensures Physical(capacity, used, records[id := record],
              traffic.(parkingJobs := traffic.parkingJobs + [ParkingJob(id, record.vehicle, record.target)]))
  {
    hide Load, ParkingJobsAccounted, UnparkJobsAccounted;
    NewJob(records, traffic.parkingJobs, traffic.waiting, traffic.storing, id, record);
    JobForNewDemand(records, traffic.unparkJobs, traffic.sending, traffic.retrieving, id, record, traffic.unparkJobs, traffic.sending);
    OnlyKnownTickets(records, traffic.parkingJobs, traffic.waiting, traffic.storing);
    assert Occupying(records[id := record], traffic.storing) == Occupying(records, traffic.storing);
  }

  /** Accepting a retrieval request: the unpark job is queued at once if the vehicle is stored. */
  lemma UnparkKeepsPhysical(capacity: seq<int>, used: seq<int>, records: Records, traffic: Traffic, id: Ticket)
    requires Physical(capacity, used, records, traffic)
    requires id in records && !records[id].unparkRequested && records[id].target >= 0
    ensures var r := records[id];
            var stored := r.status == Parked && r.buffer < 0 && r.physical >= 0;
            Physical(capacity, used, records[id := r.(unparkRequested := true)],
                     if stored then traffic.(unparkJobs := traffic.unparkJobs + [id]) else traffic)
  {
    hide Load, ParkingJobsAccounted, UnparkJobsAccounted;
    var r := records[id];
    var stored := r.status == Parked && r.buffer < 0 && r.physical >= 0;
    var record' := r.(unparkRequested := true);
    JobsUnaffected(records, traffic.parkingJobs, traffic.waiting, traffic.storing, id, record');
    JobForNewDemand(records, traffic.unparkJobs, traffic.sending, traffic.retrieving, id, record',
                    if stored then traffic.unparkJobs + [id] else traffic.unparkJobs, traffic.sending);
    SameOccupants(records, traffic.storing, id, record');
  }

  lemma SameOccupants(records: Records, storing: map<Ticket, ParkingJob>, id: Ticket, record: ParkingRecord)
    requires id in records && record.physical == records[id].physical && record.vehicle == records[id].vehicle
    ensures Occupying(records[id := record], storing) == Occupying(records, storing)
  {
  }

  lemma ClaimKeepsPhysical(capacity: seq<int>, used: seq<int>, records: Records, traffic: Traffic, id: Ticket)
    requires Physical(capacity, used, records, traffic)
    requires id in traffic.waiting && 0 <= traffic.waiting[id].toFloor < |capacity|
    ensures var job := traffic.waiting[id];
            Physical(capacity, used[job.toFloor := used[job.toFloor] + VehicleSpace(job.vehicle)], records,
                     traffic.(waiting := traffic.waiting - {id}, storing := traffic.storing[id := job]))
  {
    hide Load, UnparkJobsAccounted;
    var job := traffic.waiting[id];
    var here, slot := Occupying(records, traffic.storing), Slot(job.toFloor, VehicleSpace(job.vehicle));
    assert IsPendingJob(records, job) && id !in here;
    SpaceClaimed(records, traffic.parkingJobs, traffic.waiting, traffic.storing, id);
    assert Occupying(records, traffic.storing[id := job]) == here[id := slot];
    AddUsed(capacity, used, here, id, slot);
  }

  lemma AddUsed(capacity: seq<int>, used: seq<int>, here: Layout, id: Ticket, slot: Slot)
    requires UsedMatches(capacity, used, here) && id !in here && 0 <= slot.floor < |capacity|
    ensures UsedMatches(capacity, used[slot.floor := used[slot.floor] + slot.space], here[id := slot])
  {
    hide Load;
    forall f
      ensures Load(here[id := slot], f) == Load(here, f) + SpaceOn(slot, f)
    {
      LoadSet(here, id, slot, f);
    }
  }

  lemma RemoveUsed(capacity: seq<int>, used: seq<int>, here: Layout, id: Ticket)
    requires UsedMatches(capacity, used, here) && id in here && 0 <= here[id].floor < |capacity|
    ensures UsedMatches(capacity, used[here[id].floor := used[here[id].floor] - here[id].space], here - {id})
  {
    hide Load;
    forall f
      ensures Load(here, f) == SpaceOn(here[id], f) + Load(here - {id}, f)
    {
      LoadRemove(here, id, f);
    }
  }

  /** The vehicle is on its floor; if it has been asked for meanwhile, the robot goes on to queue the unpark job. */
  lemma StoreKeepsPhysical(capacity: seq<int>, used: seq<int>, records: Records, traffic: Traffic, id: Ticket)
    requires Physical(capacity, used, records, traffic)
    requires id in traffic.storing && 0 <= traffic.storing[id].toFloor
    ensures id in records
    ensures var r := records[id];
            Physical(capacity, used,
                     records[id := r.(physical := traffic.storing[id].toFloor, buffer := -1, status := Parked)],
                     traffic.(storing := traffic.storing - {id},
                              sending := traffic.sending + if r.unparkRequested then multiset{id} else multiset{}))
  {
    hide Load, UnparkJobsAccounted;
    var r, job := records[id], traffic.storing[id];
    assert IsPendingJob(records, job);
    var record' := r.(physical := job.toFloor, buffer := -1, status := Parked);
    JobDone(records, traffic.parkingJobs, traffic.waiting, traffic.storing, id, record');
    JobForNewDemand(records, traffic.unparkJobs, traffic.sending, traffic.retrieving, id, record', traffic.unparkJobs,
                    traffic.sending + if r.unparkRequested then multiset{id} else multiset{});
    hide ParkingJobsAccounted;
    assert Occupying(records[id := record'], traffic.storing - {id}) == Occupying(records, traffic.storing);
  }

  lemma RemovalKeepsPhysical(capacity: seq<int>, used: seq<int>, records: Records, traffic: Traffic, r: Retrieval)
    requires Physical(capacity, used, records, traffic) && r in traffic.retrieving && 0 <= r.floor < |capacity|
    ensures Physical(capacity, used[r.floor := used[r.floor] - r.space], records - {r.ticket},
                     traffic.(retrieving := traffic.retrieving - multiset{r}))
  {
    hide Load, ParkingJobsAccounted, UnparkJobsAccounted;
    RetrievalDone(records, traffic.unparkJobs, traffic.sending, traffic.retrieving, r);
    StoredVehicleGone(records, traffic.parkingJobs, traffic.waiting, traffic.storing, r.ticket);
    var here := Occupying(records, traffic.storing);
    RemoveUsed(capacity, used, here, r.ticket);
    assert Occupying(records - {r.ticket}, traffic.storing) == here - {r.ticket};
  }

  // ---------- The facility as a whole ----------

  /** A snapshot of the facility. `issued`: tickets generated so far. `rearranged`: some blueprint has moved reservations. */
  datatype Snapshot = Snapshot(
    reserved: seq<int>,
    used: seq<int>,
    records: Records,
    traffic: Traffic,
    issued: set<Ticket>,
    rearranged: bool)

  /** Somebody will fetch the vehicle: its unpark job is queued, about to be queued, or being carried out. */
  ghost predicate JobFor(traffic: Traffic, id: Ticket) {
    id in traffic.unparkJobs || id in traffic.sending || exists r :: r in traffic.retrieving && r.ticket == id
  }

  ghost predicate MustBeFetched(r: ParkingRecord) {
    r.unparkRequested && r.status == Parked && r.buffer < 0 && r.physical >= 0
  }

  /** In all runs: a vehicle that stands on a floor and has been asked for has an unpark job. */
  ghost predicate NobodyForgotten(records: Records, traffic: Traffic) {
    forall id :: id in records && MustBeFetched(records[id]) ==> JobFor(traffic, id)
  }

  /** What holds whenever the lock is free, in every run. */
  ghost predicate Consistent(capacity: seq<int>, s: Snapshot) {
    && Ledger(capacity, s.reserved, s.records)
    && TrafficWellFormed(|capacity|, s.issued, s.records, s.traffic)
    && |s.used| == |capacity|
    && (forall f :: 0 <= f < |s.used| ==> s.used[f] <= Room(capacity[f]))
    && (!s.rearranged ==> Physical(capacity, s.used, s.records, s.traffic))
    && NobodyForgotten(s.records, s.traffic)
  }

  lemma ConsistentBasics(capacity: seq<int>, s: Snapshot)
    requires Consistent(capacity, s)
    ensures |s.reserved| == |s.used| == |capacity|
    ensures forall f :: 0 <= f < |capacity| ==> 0 <= s.reserved[f] <= Room(capacity[f]) && s.used[f] <= Room(capacity[f])
    ensures forall id :: id in s.records ==> 0 <= s.records[id].target < |capacity|
  {
    hide Load, Physical;
  }

  // ---------- What the changes of records do to the jobs on their way ----------

  lemma TrafficKept(floorCount: nat, issued: set<Ticket>, records: Records, traffic: Traffic, id: Ticket, record: ParkingRecord)
    requires TrafficWellFormed(floorCount, issued, records, traffic) && id in records
    requires records[id].unparkRequested ==> record.unparkRequested
    ensures id in issued && TrafficWellFormed(floorCount, issued, records[id := record], traffic)
  {
  }

  lemma TrafficWithout(floorCount: nat, issued: set<Ticket>, records: Records, traffic: Traffic, id: Ticket)
    requires TrafficWellFormed(floorCount, issued, records, traffic)
    ensures TrafficWellFormed(floorCount, issued, records - {id}, traffic)
  {
  }

  lemma TrafficAsking(floorCount: nat, issued: set<Ticket>, records: Records, traffic: Traffic, id: Ticket)
    requires TrafficWellFormed(floorCount, issued, records, traffic) && id in issued
    ensures TrafficWellFormed(floorCount, issued, records, traffic.(unparkJobs := traffic.unparkJobs + [id]))
    ensures TrafficWellFormed(floorCount, issued, records, traffic.(sending := traffic.sending + multiset{id}))
    ensures TrafficWellFormed(floorCount, issued, records, traffic.(sending := traffic.sending + multiset{}))
  {
  }

  lemma TrafficFetching(floorCount: nat, issued: set<Ticket>, records: Records, traffic: Traffic, r: Retrieval)
    requires TrafficWellFormed(floorCount, issued, records, traffic) && traffic.unparkJobs != []
    requires r.ticket in records && records[r.ticket].unparkRequested && -1 <= r.floor < floorCount
    ensures var rest := traffic.(unparkJobs := traffic.unparkJobs[1..]);
            TrafficWellFormed(floorCount, issued, records, rest.(retrieving := rest.retrieving + multiset{r}))
  {
    TrafficNext(floorCount, issued, records, traffic);
  }

  lemma TrafficNext(floorCount: nat, issued: set<Ticket>, records: Records, traffic: Traffic)
    requires TrafficWellFormed(floorCount, issued, records, traffic) && traffic.unparkJobs != []
    ensures TrafficWellFormed(floorCount, issued, records, traffic.(unparkJobs := traffic.unparkJobs[1..]))
  {
  }

  lemma TrafficStored(floorCount: nat, issued: set<Ticket>, records: Records, traffic: Traffic, id: Ticket)
    requires TrafficWellFormed(floorCount, issued, records, traffic) && id in traffic.storing
    ensures id in issued && 0 <= traffic.storing[id].toFloor < floorCount
    ensures TrafficWellFormed(floorCount, issued, records, traffic.(storing := traffic.storing - {id}))
  {
  }

  lemma TrafficRemoved(floorCount: nat, issued: set<Ticket>, records: Records, traffic: Traffic, r: Retrieval)
    requires TrafficWellFormed(floorCount, issued, records, traffic) && r in traffic.retrieving
    ensures -1 <= r.floor < floorCount && (r.ticket in records ==> records[r.ticket].unparkRequested)
    ensures TrafficWellFormed(floorCount, issued, records, traffic.(retrieving := traffic.retrieving - multiset{r}))
  {
  }

  // ---------- What the changes of records and jobs do to the vehicles asked for ----------

  ghost predicate JobsOfOthersKept(before: Traffic, after: Traffic, id: Ticket) {
    forall x :: x != id && JobFor(before, x) ==> JobFor(after, x)
  }

  /** Only one vehicle is concerned, and if it has to be fetched, there is a job for it. */
  lemma StillRemembered(records: Records, traffic: Traffic, records': Records, traffic': Traffic, id: Ticket)
    requires NobodyForgotten(records, traffic) && JobsOfOthersKept(traffic, traffic', id)
    requires forall x :: x in records' && x != id ==> x in records && records'[x] == records[x]
    requires id in records' && MustBeFetched(records'[id]) ==> JobFor(traffic', id)
    ensures NobodyForgotten(records', traffic')
  {
    hide JobFor;
  }

  lemma SameUnparkJobs(before: Traffic, after: Traffic)
    requires after.unparkJobs == before.unparkJobs && after.sending == before.sending && after.retrieving == before.retrieving
    ensures forall id :: JobFor(before, id) == JobFor(after, id)
    ensures forall id :: JobsOfOthersKept(before, after, id)
  {
  }

  lemma JobsSame(records: Records, before: Traffic, after: Traffic)
    requires NobodyForgotten(records, before)
    requires after.unparkJobs == before.unparkJobs && after.sending == before.sending && after.retrieving == before.retrieving
    ensures NobodyForgotten(records, after)
  {
    hide JobFor;
    SameUnparkJobs(before, after);
  }

  lemma JobAsked(traffic: Traffic, id: Ticket)
    ensures JobFor(traffic.(unparkJobs := traffic.unparkJobs + [id]), id)
    ensures JobFor(traffic.(sending := traffic.sending + multiset{id}), id)
    ensures JobsOfOthersKept(traffic, traffic.(unparkJobs := traffic.unparkJobs + [id]), id)
    ensures JobsOfOthersKept(traffic, traffic.(sending := traffic.sending + multiset{id}), id)
    ensures traffic.(sending := traffic.sending + multiset{}) == traffic && JobsOfOthersKept(traffic, traffic, id)
  {
  }

  lemma JobSent(traffic: Traffic, id: Ticket)
    ensures var after := traffic.(sending := traffic.sending - multiset{id}, unparkJobs := traffic.unparkJobs + [id]);
            JobFor(after, id) && JobsOfOthersKept(traffic, after, id)
  {
  }

  lemma JobPassedOn(traffic: Traffic, r: Retrieval)
    requires traffic.unparkJobs != [] && traffic.unparkJobs[0] == r.ticket
    ensures var rest := traffic.(unparkJobs := traffic.unparkJobs[1..]);
            && JobsOfOthersKept(traffic, rest, r.ticket)
            && var after := rest.(retrieving := rest.retrieving + multiset{r});
               JobFor(after, r.ticket) && JobsOfOthersKept(traffic, after, r.ticket)
  {
    assert traffic.unparkJobs == [r.ticket] + traffic.unparkJobs[1..];
    var after := traffic.(unparkJobs := traffic.unparkJobs[1..], retrieving := traffic.retrieving + multiset{r});
    assert r in after.retrieving;
    forall x | x != r.ticket && JobFor(traffic, x)
      ensures JobFor(after, x)
    {
      if q :| q in traffic.retrieving && q.ticket == x {
        assert q in after.retrieving;
      }
    }
  }

  lemma JobCarriedOut(traffic: Traffic, r: Retrieval)
    ensures JobsOfOthersKept(traffic, traffic.(retrieving := traffic.retrieving - multiset{r}), r.ticket)
  {
    var after := traffic.(retrieving := traffic.retrieving - multiset{r});
    forall x | x != r.ticket && JobFor(traffic, x)
      ensures JobFor(after, x)
    {
      if q :| q in traffic.retrieving && q.ticket == x {
        assert q in after.retrieving;
      }
    }
  }

  lemma RecordsWellFormed(capacity: seq<int>, s: Snapshot)
    requires Consistent(capacity, s)
    ensures forall id :: id in s.records ==>
      && VehicleSpace(s.records[id].vehicle) > 0 && 0 <= s.records[id].target < |capacity| && -1 <= s.records[id].physical < |capacity|
  {
    hide Load, Physical, TrafficWellFormed, Fits;
  }

  lemma EmptyConsistent(capacity: seq<int>, zeros: seq<int>)
    requires |zeros| == |capacity| && forall f :: 0 <= f < |zeros| ==> zeros[f] == 0
    ensures Consistent(capacity, Snapshot(zeros, zeros, map[], Traffic([], map[], map[], [], multiset{}, multiset{}), {}, false))
  {
  }

  function AfterPark(s: Snapshot, id: Ticket, t: VehicleType, f: nat): Snapshot
    requires f < |s.reserved|
  {
    s.(reserved := s.reserved[f := s.reserved[f] + VehicleSpace(t)],
       records := s.records[id := ParkingRecord(t, -1, -1, f, ParkingPending, false)],
       traffic := s.traffic.(parkingJobs := s.traffic.parkingJobs + [ParkingJob(id, t, f)]),
       issued := s.issued + {id})
  }

  lemma ParkConsistent(capacity: seq<int>, s: Snapshot, id: Ticket, t: VehicleType, f: nat)
    requires Consistent(capacity, s) && id !in s.issued
    requires f < |capacity| == |s.reserved| && VehicleSpace(t) > 0 && s.reserved[f] + VehicleSpace(t) <= capacity[f]
    ensures Consistent(capacity, AfterPark(s, id, t, f))
  {
    hide Load, Physical, BooksMatch, Fits, NobodyForgotten, JobFor, JobsOfOthersKept;
    var record := ParkingRecord(t, -1, -1, f, ParkingPending, false);
    ParkKeepsLedger(capacity, s.reserved, s.records, id, record);
    if !s.rearranged {
      ParkKeepsPhysical(capacity, s.used, s.records, s.traffic, id, record);
    }
    SameUnparkJobs(s.traffic, AfterPark(s, id, t, f).traffic);
    StillRemembered(s.records, s.traffic, s.records[id := record], AfterPark(s, id, t, f).traffic, id);
  }

  /** Whether a record is parked where an unparker can fetch it. */
  predicate Fetchable(r: ParkingRecord) {
    r.status == Parked && r.buffer < 0 && r.physical >= 0
  }

  function AfterUnpark(s: Snapshot, id: Ticket): Snapshot
    requires id in s.records && 0 <= s.records[id].target < |s.reserved|
  {
    var r := s.records[id];
    s.(reserved := s.reserved[r.target := s.reserved[r.target] - VehicleSpace(r.vehicle)],
       records := s.records[id := r.(unparkRequested := true)],
       traffic := if Fetchable(r) then s.traffic.(unparkJobs := s.traffic.unparkJobs + [id]) else s.traffic)
  }

  lemma UnparkConsistent(capacity: seq<int>, s: Snapshot, id: Ticket)
    requires Consistent(capacity, s) && id in s.records && !s.records[id].unparkRequested
    ensures 0 <= s.records[id].target < |s.reserved|
    ensures Consistent(capacity, AfterUnpark(s, id))
  {
    hide Load, Physical, Ledger, TrafficWellFormed, UnparkJobsAccounted, ParkingJobsAccounted, NobodyForgotten, JobFor, JobsOfOthersKept;
    ConsistentBasics(capacity, s);
    var record := s.records[id].(unparkRequested := true);
    UnparkKeepsLedger(capacity, s.reserved, s.records, id);
    TrafficKept(|capacity|, s.issued, s.records, s.traffic, id, record);
    TrafficAsking(|capacity|, s.issued, s.records[id := record], s.traffic, id);
    if !s.rearranged {
      UnparkKeepsPhysical(capacity, s.used, s.records, s.traffic, id);
    }
    JobAsked(s.traffic, id);
    StillRemembered(s.records, s.traffic, s.records[id := record], AfterUnpark(s, id).traffic, id);
  }

  function AfterTakingJob(s: Snapshot): Snapshot
    requires s.traffic.parkingJobs != []
  {
    var job := s.traffic.parkingJobs[0];
    s.(traffic := s.traffic.(parkingJobs := s.traffic.parkingJobs[1..], waiting := s.traffic.waiting[job.ticket := job]))
  }

  lemma TakingJobConsistent(capacity: seq<int>, s: Snapshot)
    requires Consistent(capacity, s) && s.traffic.parkingJobs != []
    ensures Consistent(capacity, AfterTakingJob(s))
  {
    hide Load, Ledger, ParkingJobsAccounted, UnparkJobsAccounted, NobodyForgotten, JobFor, JobsOfOthersKept;
    if !s.rearranged {
      JobTaken(s.records, s.traffic.parkingJobs, s.traffic.waiting, s.traffic.storing);
    }
    JobsSame(s.records, s.traffic, AfterTakingJob(s).traffic);
  }

  lemma ClaimBasics(capacity: seq<int>, s: Snapshot, id: Ticket)
    requires Consistent(capacity, s) && id in s.traffic.waiting
    ensures 0 <= s.traffic.waiting[id].toFloor < |s.used| == |capacity|
  {
    hide Load, Physical, Ledger;
  }

  function AfterClaim(s: Snapshot, id: Ticket): Snapshot
    requires id in s.traffic.waiting && 0 <= s.traffic.waiting[id].toFloor < |s.used|
  {
    var job := s.traffic.waiting[id];
    s.(used := s.used[job.toFloor := s.used[job.toFloor] + VehicleSpace(job.vehicle)],
       traffic := s.traffic.(waiting := s.traffic.waiting - {id}, storing := s.traffic.storing[id := job]))
  }

  lemma ClaimConsistent(capacity: seq<int>, s: Snapshot, id: Ticket)
    requires Consistent(capacity, s) && id in s.traffic.waiting && !Blocked(capacity, s.used, s.traffic.waiting[id])
    ensures 0 <= s.traffic.waiting[id].toFloor < |s.used| == |capacity|
    ensures Consistent(capacity, AfterClaim(s, id))
  {
    hide Load, Physical, Ledger, NobodyForgotten, JobFor, JobsOfOthersKept;
    if !s.rearranged {
      ClaimKeepsPhysical(capacity, s.used, s.records, s.traffic, id);
    }
    JobsSame(s.records, s.traffic, AfterClaim(s, id).traffic);
  }

  /** A parker has set its vehicle down. The record may be gone only in runs with rearrangement. */
  function AfterStore(s: Snapshot, id: Ticket): Snapshot
    requires id in s.traffic.storing
  {
    var storing := s.traffic.storing - {id};
    if id !in s.records then s.(traffic := s.traffic.(storing := storing))
    else
      var r := s.records[id];
      s.(records := s.records[id := r.(physical := s.traffic.storing[id].toFloor, buffer := -1, status := Parked)],
         traffic := s.traffic.(storing := storing,
                               sending := s.traffic.sending + if r.unparkRequested then multiset{id} else multiset{}))
  }

  lemma StoreConsistent(capacity: seq<int>, s: Snapshot, id: Ticket)
    requires Consistent(capacity, s) && id in s.traffic.storing
    ensures Consistent(capacity, AfterStore(s, id))
    ensures !s.rearranged ==> id in s.records
  {
    hide Load, Physical, Ledger, TrafficWellFormed, UnparkJobsAccounted, ParkingJobsAccounted, NobodyForgotten, JobFor, JobsOfOthersKept;
    var traffic := s.traffic.(storing := s.traffic.storing - {id});
    TrafficStored(|capacity|, s.issued, s.records, s.traffic, id);
    if id in s.records {
      var r := s.records[id];
      var record := r.(physical := s.traffic.storing[id].toFloor, buffer := -1, status := Parked);
      LedgerShape(capacity, s.reserved, s.records);
      MovementKeepsLedger(capacity, s.reserved, s.records, id, record);
      TrafficKept(|capacity|, s.issued, s.records, traffic, id, record);
      TrafficAsking(|capacity|, s.issued, s.records[id := record], traffic, id);
      JobAsked(traffic, id);
    }
    if !s.rearranged {
      StoreKeepsPhysical(capacity, s.used, s.records, s.traffic, id);
    }
    JobsSame(s.records, s.traffic, traffic);
    JobAsked(traffic, id);
    StillRemembered(s.records, traffic, AfterStore(s, id).records, AfterStore(s, id).traffic, id);
  }

  lemma LedgerShape(capacity: seq<int>, reserved: seq<int>, records: Records)
    requires Ledger(capacity, reserved, records)
    ensures |reserved| == |capacity|
  {
    hide Load, Fits, WellFormed;
  }

  function AfterSend(s: Snapshot, id: Ticket): Snapshot {
    s.(traffic := s.traffic.(sending := s.traffic.sending - multiset{id}, unparkJobs := s.traffic.unparkJobs + [id]))
  }

  lemma SendConsistent(capacity: seq<int>, s: Snapshot, id: Ticket)
    requires Consistent(capacity, s) && id in s.traffic.sending
    ensures Consistent(capacity, AfterSend(s, id))
  {
    hide Load, Ledger, ParkingJobsAccounted, UnparkJobsAccounted, NobodyForgotten, JobFor, JobsOfOthersKept;
    if !s.rearranged {
      JobQueued(s.records, s.traffic.unparkJobs, s.traffic.sending, s.traffic.retrieving, id);
    }
    JobSent(s.traffic, id);
    StillRemembered(s.records, s.traffic, s.records, AfterSend(s, id).traffic, id);
  }

  /** An unparker takes the next unpark job; it drops the job if the ticket is gone or not asked for. */
  function AfterFetch(s: Snapshot): Snapshot
    requires s.traffic.unparkJobs != []
  {
    var id := s.traffic.unparkJobs[0];
    var rest := s.traffic.(unparkJobs := s.traffic.unparkJobs[1..]);
    if id !in s.records || !s.records[id].unparkRequested then s.(traffic := rest)
    else
      var r := Retrieval(id, s.records[id].physical, VehicleSpace(s.records[id].vehicle));
      s.(traffic := rest.(retrieving := rest.retrieving + multiset{r}))
  }

  lemma FetchConsistent(capacity: seq<int>, s: Snapshot)
    requires Consistent(capacity, s) && s.traffic.unparkJobs != []
    ensures Consistent(capacity, AfterFetch(s))
    ensures !s.rearranged ==> AwaitsRetrieval(s.records, s.traffic.unparkJobs[0])
  {
    hide Load, Physical, Ledger, TrafficWellFormed, UnparkJobsAccounted, ParkingJobsAccounted, NobodyForgotten, JobFor, JobsOfOthersKept;
    RecordsWellFormed(capacity, s);
    var id := s.traffic.unparkJobs[0];
    TrafficNext(|capacity|, s.issued, s.records, s.traffic);
    if id in s.records && s.records[id].unparkRequested {
      TrafficFetching(|capacity|, s.issued, s.records, s.traffic, RetrievalOf(s.records, id));
    }
    if !s.rearranged {
      FetchKeepsPhysical(capacity, s.used, s.records, s.traffic);
    }
    JobPassedOn(s.traffic, if id in s.records then RetrievalOf(s.records, id) else Retrieval(id, -1, 0));
    StillRemembered(s.records, s.traffic, s.records, AfterFetch(s).traffic, id);
  }

  lemma FetchKeepsPhysical(capacity: seq<int>, used: seq<int>, records: Records, traffic: Traffic)
    requires Physical(capacity, used, records, traffic) && traffic.unparkJobs != []
    ensures var id := traffic.unparkJobs[0];
            && AwaitsRetrieval(records, id)
            && Physical(capacity, used, records,
                        traffic.(unparkJobs := traffic.unparkJobs[1..], retrieving := traffic.retrieving + multiset{RetrievalOf(records, id)}))
  {
    hide Load, UsedMatches, Settled, ParkingJobsAccounted, UnparkJobsAccounted;
    JobFetched(records, traffic.unparkJobs, traffic.sending, traffic.retrieving);
  }

  /** An unparker hands the vehicle over: the floor is freed and the session ends. */
  function AfterRemoval(s: Snapshot, r: Retrieval): Snapshot
    requires r.floor < |s.used|
  {
    s.(used := if r.floor >= 0 then s.used[r.floor := s.used[r.floor] - r.space] else s.used,
       records := s.records - {r.ticket},
       traffic := s.traffic.(retrieving := s.traffic.retrieving - multiset{r}))
  }

  lemma RemovalConsistent(capacity: seq<int>, s: Snapshot, r: Retrieval)
    requires Consistent(capacity, s) && r in s.traffic.retrieving
    ensures -1 <= r.floor < |s.used|
    ensures Consistent(capacity, AfterRemoval(s, r))
    ensures !s.rearranged ==> AwaitsRetrieval(s.records, r.ticket)
  {
    hide Load, Physical, Ledger, TrafficWellFormed, UnparkJobsAccounted, ParkingJobsAccounted, NobodyForgotten, JobFor, JobsOfOthersKept;
    TrafficRemoved(|capacity|, s.issued, s.records, s.traffic, r);
    TrafficWithout(|capacity|, s.issued, s.records, s.traffic.(retrieving := s.traffic.retrieving - multiset{r}), r.ticket);
    RemovalKeepsLedger(capacity, s.reserved, s.records, r.ticket);
    if !s.rearranged {
      RetrievedFromFloor(capacity, s, r);
      RemovalKeepsPhysical(capacity, s.used, s.records, s.traffic, r);
    }
    RoomAfterLeaving(capacity, s.used, r.floor, r.space);
    JobCarriedOut(s.traffic, r);
    StillRemembered(s.records, s.traffic, s.records - {r.ticket}, AfterRemoval(s, r).traffic, r.ticket);
  }

  lemma RoomAfterLeaving(capacity: seq<int>, used: seq<int>, f: int, space: nat)
    requires |used| == |capacity| && f < |used| && forall g :: 0 <= g < |used| ==> used[g] <= Room(capacity[g])
    ensures f >= 0 ==> forall g :: 0 <= g < |used| ==> used[f := used[f] - space][g] <= Room(capacity[g])
  {
  }

  lemma RetrievedFromFloor(capacity: seq<int>, s: Snapshot, r: Retrieval)
    requires Ledger(capacity, s.reserved, s.records) && Physical(capacity, s.used, s.records, s.traffic) && r in s.traffic.retrieving
    ensures AwaitsRetrieval(s.records, r.ticket) && r == RetrievalOf(s.records, r.ticket)
    ensures 0 <= r.floor < |capacity| && r.floor == s.records[r.ticket].physical == s.records[r.ticket].target
  {
    hide Load, ParkingJobsAccounted, UnparkJobsAccounted;
    RetrievalDone(s.records, s.traffic.unparkJobs, s.traffic.sending, s.traffic.retrieving, r);
  }

  /** A shuffle robot lifts a vehicle off its floor; only blueprints send shuffle robots out. */
  function AfterLift(s: Snapshot, id: Ticket): Snapshot
    requires id in s.records && 0 <= s.records[id].physical < |s.used|
  {
    var r := s.records[id];
    s.(used := s.used[r.physical := s.used[r.physical] - VehicleSpace(r.vehicle)],
       records := s.records[id := r.(physical := -1, status := Rearranging)])
  }

  lemma LiftConsistent(capacity: seq<int>, s: Snapshot, id: Ticket)
    requires Consistent(capacity, s) && s.rearranged && id in s.records && 0 <= s.records[id].physical
    ensures s.records[id].physical < |s.used|
    ensures Consistent(capacity, AfterLift(s, id))
  {
    hide Load, Physical, Ledger, TrafficWellFormed, UnparkJobsAccounted, ParkingJobsAccounted, NobodyForgotten, JobFor, JobsOfOthersKept;
    RecordsWellFormed(capacity, s);
    var r := s.records[id];
    var record := r.(physical := -1, status := Rearranging);
    MovementKeepsLedger(capacity, s.reserved, s.records, id, record);
    TrafficKept(|capacity|, s.issued, s.records, s.traffic, id, record);
    RoomAfterLeaving(capacity, s.used, r.physical, VehicleSpace(r.vehicle));
    JobAsked(s.traffic, id);
    StillRemembered(s.records, s.traffic, s.records[id := record], s.traffic, id);
  }

  ghost predicate HasRoomFor(capacity: seq<int>, used: seq<int>, r: ParkingRecord)
    requires 0 <= r.target < |capacity| == |used|
  {
    capacity[r.target] - used[r.target] >= VehicleSpace(r.vehicle)
  }

  /** It sets the vehicle down on the floor the reservation now names, once there is room. */
  function AfterSetDown(s: Snapshot, id: Ticket): Snapshot
    requires id in s.records && 0 <= s.records[id].target < |s.used|
  {
    var r := s.records[id];
    s.(used := s.used[r.target := s.used[r.target] + VehicleSpace(r.vehicle)],
       records := s.records[id := r.(physical := r.target, buffer := -1, status := Parked)],
       traffic := s.traffic.(sending := s.traffic.sending + if r.unparkRequested then multiset{id} else multiset{}))
  }

  lemma SetDownConsistent(capacity: seq<int>, s: Snapshot, id: Ticket)
    requires Consistent(capacity, s) && s.rearranged && id in s.records
    requires 0 <= s.records[id].target < |s.used| == |capacity| && HasRoomFor(capacity, s.used, s.records[id])
    ensures Consistent(capacity, AfterSetDown(s, id))
  {
    hide Load, Physical, Ledger, TrafficWellFormed, UnparkJobsAccounted, ParkingJobsAccounted, NobodyForgotten, JobFor, JobsOfOthersKept;
    var r := s.records[id];
    var record := r.(physical := r.target, buffer := -1, status := Parked);
    MovementKeepsLedger(capacity, s.reserved, s.records, id, record);
    TrafficKept(|capacity|, s.issued, s.records, s.traffic, id, record);
    TrafficAsking(|capacity|, s.issued, s.records[id := record], s.traffic, id);
    JobAsked(s.traffic, id);
    StillRemembered(s.records, s.traffic, s.records[id := record], AfterSetDown(s, id).traffic, id);
  }

  /** What a robot does with a vehicle whose record was deleted while the robot waited for room: it still
      takes up the space, and asks for an unpark job that nobody will carry out. */
  function AfterLostSetDown(s: Snapshot, id: Ticket, lost: ParkingRecord): Snapshot
    requires 0 <= lost.target < |s.used|
  {
    s.(used := s.used[lost.target := s.used[lost.target] + VehicleSpace(lost.vehicle)],
       traffic := s.traffic.(sending := s.traffic.sending + if lost.unparkRequested then multiset{id} else multiset{}))
  }

  lemma LostSetDownConsistent(capacity: seq<int>, s: Snapshot, id: Ticket, lost: ParkingRecord)
    requires Consistent(capacity, s) && s.rearranged && id in s.issued && id !in s.records
    requires 0 <= lost.target < |s.used| == |capacity| && HasRoomFor(capacity, s.used, lost)
    ensures Consistent(capacity, AfterLostSetDown(s, id, lost))
  {
    hide Load, Physical, NobodyForgotten, JobFor, JobsOfOthersKept;
    JobAsked(s.traffic, id);
    StillRemembered(s.records, s.traffic, s.records, AfterLostSetDown(s, id, lost).traffic, id);
  }

  /** A robot puts the vehicle it carries into a buffer slot. */
  function AfterBuffering(s: Snapshot, id: Ticket, slot: nat): Snapshot
    requires id in s.records
  {
    s.(records := s.records[id := s.records[id].(physical := -1, buffer := slot, status := Parked)])
  }

  /** A robot takes a vehicle out of its buffer slot. */
  function AfterUnbuffering(s: Snapshot, id: Ticket): Snapshot
    requires id in s.records
  {
    s.(records := s.records[id := s.records[id].(physical := -1, buffer := -1, status := Rearranging)])
  }

  lemma BufferingConsistent(capacity: seq<int>, s: Snapshot, id: Ticket, slot: nat)
    requires Consistent(capacity, s) && s.rearranged && id in s.records
    ensures Consistent(capacity, AfterBuffering(s, id, slot)) && Consistent(capacity, AfterUnbuffering(s, id))
  {
    hide Load, Physical, Ledger, TrafficWellFormed, UnparkJobsAccounted, ParkingJobsAccounted;
    ParkedElsewhere(capacity, s, id, s.records[id].(physical := -1, buffer := slot, status := Parked));
    ParkedElsewhere(capacity, s, id, s.records[id].(physical := -1, buffer := -1, status := Rearranging));
  }

  lemma ParkedElsewhere(capacity: seq<int>, s: Snapshot, id: Ticket, record: ParkingRecord)
    requires Consistent(capacity, s) && s.rearranged && id in s.records && SameReservation(s.records[id], record) && record.physical == -1
    ensures Consistent(capacity, s.(records := s.records[id := record]))
  {
    hide Load, Physical, Ledger, TrafficWellFormed, UnparkJobsAccounted, ParkingJobsAccounted, NobodyForgotten, JobFor, JobsOfOthersKept;
    MovementKeepsLedger(capacity, s.reserved, s.records, id, record);
    TrafficKept(|capacity|, s.issued, s.records, s.traffic, id, record);
    JobAsked(s.traffic, id);
    StillRemembered(s.records, s.traffic, s.records[id := record], s.traffic, id);
  }
}
