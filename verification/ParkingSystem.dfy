/** The automated parking system: one method per critical section of `Park`, `Unpark`, `SwitchStrategy`
  and of the robots, so that every interleaving of the real system is a sequence of these calls. What a
  robot remembers between its critical sections is an argument of the later call, and a wait on a
  condition is a call that answers no each time the robot looks in vain. */
module ParkingSystem {
  import opened Options
  import opened ParkingModels
  import opened Packing
  import opened MovementOrder
  import opened RearrangementPlanners
  import opened Allocation
  import opened Facility
  import opened Shuffle

  datatype UnparkResult = InvalidTicket | AlreadyRequested | UnparkingBusy | Accepted

  datatype SwitchResult = ShufflingInProgress | BlueprintInvalid | Switched

  const BUFFER_SLOT_COUNT: nat := 3

  /** A place for the vehicle that is moved aside to break a loop. */
  datatype BufferSlot = BufferSlot(claimed: bool, vehicleTicket: Option<Ticket>)

  // ---------- What a committed blueprint does to the records ----------

  ghost function Retargeted(records: Records, plan: map<Ticket, VehicleMove>): Records {
    map id | id in records ::
      if id in plan && !records[id].unparkRequested then records[id].(target := plan[id].to) else records[id]
  }

  lemma RetargetNext(records: Records, before: seq<VehicleMove>, m: VehicleMove)
    requires m.ticket !in IndexByTicket(before)
    ensures var done := Retargeted(records, IndexByTicket(before));
            && (m.ticket in records ==> done[m.ticket] == records[m.ticket])
            && Retargeted(records, IndexByTicket(before + [m])) ==
               if m.ticket in records && !records[m.ticket].unparkRequested
               then done[m.ticket := records[m.ticket].(target := m.to)] else done
  {
    assert (before + [m])[..|before|] == before;
    assert IndexByTicket(before + [m]) == IndexByTicket(before)[m.ticket := m];
  }

  lemma DistinctLast(before: seq<VehicleMove>, m: VehicleMove)
    requires DistinctTickets(before + [m])
    ensures m.ticket !in IndexByTicket(before)
  {
    IndexByTicketOf(before);
    assert (before + [m])[|before|] == m;
    forall i | 0 <= i < |before|
      ensures before[i].ticket != m.ticket
    {
      assert (before + [m])[i] == before[i];
    }
  }

  /** The reservations after the blueprint are the planned layout. */
  lemma RetargetedActive(records: Records, plan: map<Ticket, VehicleMove>)
    requires forall id :: id in plan && id in records && !records[id].unparkRequested ==> id in Active(records)
    ensures Active(Retargeted(records, plan)) == Planned(Active(records), plan)
  {
  }

  /** The physical move a robot will be given for a planned move, if any is needed. */
  function PhysicalMove(records: Records, move: VehicleMove): seq<VehicleMove> {
    if move.ticket !in records || records[move.ticket].unparkRequested then []
    else
      var physical := records[move.ticket].physical;
      var from := if physical < 0 then move.from else physical;
      if from == move.to then [] else [VehicleMove(move.ticket, from, move.to)]
  }

  function PhysicalMoves(records: Records, component: seq<VehicleMove>): seq<VehicleMove> {
    if component == [] then []
    else
      PhysicalMoves(records, component[..|component| - 1]) + PhysicalMove(records, component[|component| - 1])
  }

  /** The components that still hold a move, with their loop flags. */
  function PhysicalComponents(records: Records, moves: seq<seq<VehicleMove>>, loop: seq<bool>): seq<ShuffleComponent>
    requires |loop| == |moves|
  {
    if moves == [] then []
    else
      var n := |moves| - 1;
      var last := PhysicalMoves(records, moves[n]);
      PhysicalComponents(records, moves[..n], loop[..n]) + if last == [] then [] else [ShuffleComponent(last, loop[n])]
  }

  // ---------- What the robots are told to do ----------

  ghost predicate MoveListed(comps: seq<ShuffleComponent>, m: VehicleMove) {
    exists c :: 0 <= c < |comps| && m in comps[c].moves
  }

  /** The vehicle was given another floor, and is not there: it has to go from where it is, or from where it
      was to be stored if it is on no floor yet. */
  ghost predicate NeedsMove(before: Records, after: Records, m: VehicleMove) {
    && m.ticket in before && m.ticket in after && !before[m.ticket].unparkRequested
    && after[m.ticket].target != before[m.ticket].target
    && m.from == (if before[m.ticket].physical < 0 then before[m.ticket].target else before[m.ticket].physical)
    && m.to == after[m.ticket].target && m.from != m.to
  }

  /** The components list exactly the moves that are needed, each once. */
  ghost predicate HandsOver(before: Records, after: Records, comps: seq<ShuffleComponent>) {
    && DistinctTickets(Flatten(MovesOf(comps)))
    && (forall c :: 0 <= c < |comps| ==> comps[c].moves != [])
    && (forall m :: MoveListed(comps, m) <==> NeedsMove(before, after, m))
  }

  ghost predicate Increasing(at: seq<nat>, n: nat) {
    && (forall i :: 0 <= i < |at| ==> at[i] < n)
    && (forall i, j :: 0 <= i < j < |at| ==> at[i] < at[j])
  }

  /** The moves listed are those at the places `at` of the planned ones. */
  ghost predicate PickedFrom(planned: seq<VehicleMove>, moves: seq<VehicleMove>, at: seq<nat>) {
    && |at| == |moves| && Increasing(at, |planned|)
    && (forall i :: 0 <= i < |at| ==> moves[i].ticket == planned[at[i]].ticket)
  }

  ghost predicate Picked(planned: seq<VehicleMove>, moves: seq<VehicleMove>) {
    exists at :: PickedFrom(planned, moves, at)
  }

  /** The components come from the planned ones at the places `src`, with their loop flags and in their order. */
  ghost predicate ComesFrom(order: MovementOrder, comps: seq<ShuffleComponent>, src: seq<nat>) {
    && |src| == |comps| && |order.loop| == |order.moves| && Increasing(src, |order.moves|)
    && (forall k :: 0 <= k < |src| ==> comps[k].loop == order.loop[src[k]] && Picked(order.moves[src[k]], comps[k].moves))
  }

  ghost predicate KeepsOrder(order: MovementOrder, comps: seq<ShuffleComponent>) {
    exists src :: ComesFrom(order, comps, src)
  }

  lemma {:induction false} MovesPicked(records: Records, component: seq<VehicleMove>)
    ensures Picked(component, PhysicalMoves(records, component))
  {
    if component == [] {
      assert PickedFrom(component, [], []);
    } else {
      var n := |component| - 1;
      MovesPicked(records, component[..n]);
      var moves := PhysicalMoves(records, component[..n]);
      var at :| PickedFrom(component[..n], moves, at);
      var last := PhysicalMove(records, component[n]);
      assert PickedFrom(component, moves + last, if last == [] then at else at + [n]);
    }
  }

  lemma NoComponents(order: MovementOrder)
    requires |order.loop| == |order.moves| == 0
    ensures ComesFrom(order, [], [])
  {
  }

  lemma OneMoreComponent(order: MovementOrder, comps: seq<ShuffleComponent>, src: seq<nat>, last: seq<VehicleMove>)
    requires |order.loop| == |order.moves| > 0
    requires var n := |order.moves| - 1;
             ComesFrom(MovementOrder(order.moves[..n], order.loop[..n]), comps, src) && Picked(order.moves[n], last)
    ensures KeepsOrder(order, comps + if last == [] then [] else [ShuffleComponent(last, order.loop[|order.moves| - 1])])
  {
    hide Picked;
    var n := |order.moves| - 1;
    var all, at := comps + (if last == [] then [] else [ShuffleComponent(last, order.loop[n])]), if last == [] then src else src + [n];
    assert Increasing(at, |order.moves|);
    forall k | 0 <= k < |at|
      ensures all[k].loop == order.loop[at[k]] && Picked(order.moves[at[k]], all[k].moves)
    {
      if k < |src| {
        assert order.moves[..n][src[k]] == order.moves[src[k]];
      }
    }
    assert ComesFrom(order, all, at);
  }

  lemma {:induction false} ComponentsKeepOrder(records: Records, order: MovementOrder)
    requires |order.loop| == |order.moves|
    ensures KeepsOrder(order, PhysicalComponents(records, order.moves, order.loop))
    decreases |order.moves|
  {
    var comps := PhysicalComponents(records, order.moves, order.loop);
    if order.moves == [] {
      NoComponents(order);
      assert ComesFrom(order, comps, []);
    } else {
      hide Picked, PhysicalMoves, ComesFrom;
      var n := |order.moves| - 1;
      var front := MovementOrder(order.moves[..n], order.loop[..n]);
      ComponentsKeepOrder(records, front);
      var src :| ComesFrom(front, PhysicalComponents(records, front.moves, front.loop), src);
      MovesPicked(records, order.moves[n]);
      OneMoreComponent(order, PhysicalComponents(records, front.moves, front.loop), src, PhysicalMoves(records, order.moves[n]));
    }
  }

  /** How the robots' move for one planned move comes about. */
  ghost predicate ToldAs(records: Records, planned: VehicleMove, m: VehicleMove) {
    && planned.ticket in records && !records[planned.ticket].unparkRequested
    && m.ticket == planned.ticket && m.to == planned.to && m.from != m.to
    && m.from == if records[planned.ticket].physical < 0 then planned.from else records[planned.ticket].physical
  }

  ghost predicate Told(records: Records, component: seq<VehicleMove>, m: VehicleMove) {
    exists planned :: planned in component && ToldAs(records, planned, m)
  }

  lemma {:induction false} ToldMoves(records: Records, component: seq<VehicleMove>)
    ensures forall m :: m in PhysicalMoves(records, component) <==> Told(records, component, m)
  {
    if component != [] {
      var n := |component| - 1;
      ToldMoves(records, component[..n]);
      forall m
        ensures Told(records, component, m) <==> Told(records, component[..n], m) || ToldAs(records, component[n], m)
      {
        ToldOneMore(records, component, m);
      }
      assert forall m :: m in PhysicalMove(records, component[n]) <==> ToldAs(records, component[n], m);
    }
  }

  lemma ToldOneMore(records: Records, component: seq<VehicleMove>, m: VehicleMove)
    requires component != []
    ensures var n := |component| - 1;
            Told(records, component, m) <==> Told(records, component[..n], m) || ToldAs(records, component[n], m)
  {
    hide ToldAs;
    var n := |component| - 1;
    assert component == component[..n] + [component[n]];
    if ToldAs(records, component[n], m) {
      assert component[n] in component;
    }
    if Told(records, component[..n], m) {
      var planned :| planned in component[..n] && ToldAs(records, planned, m);
      assert planned in component;
    }
  }

  lemma {:induction false} MovesJoined(records: Records, a: seq<VehicleMove>, b: seq<VehicleMove>)
    ensures PhysicalMoves(records, a + b) == PhysicalMoves(records, a) + PhysicalMoves(records, b)
  {
    if b == [] {
      assert a + b == a;
    } else {
      var n := |b| - 1;
      assert (a + b)[..|a| + n] == a + b[..n];
      MovesJoined(records, a, b[..n]);
    }
  }

  lemma {:induction false} ComponentsJoined(records: Records, moves: seq<seq<VehicleMove>>, loop: seq<bool>)
    requires |loop| == |moves|
    ensures Flatten(MovesOf(PhysicalComponents(records, moves, loop))) == PhysicalMoves(records, Flatten(moves))
  {
    if moves != [] {
      hide PhysicalMoves, MovesOf;
      var n := |moves| - 1;
      ComponentsJoined(records, moves[..n], loop[..n]);
      MovesJoined(records, Flatten(moves[..n]), moves[n]);
      var front, last := PhysicalComponents(records, moves[..n], loop[..n]), PhysicalMoves(records, moves[n]);
      if last == [] {
        assert front + [] == front;
      } else {
        var comps := front + [ShuffleComponent(last, loop[n])];
        assert MovesOf(comps)[..|front|] == MovesOf(front) && MovesOf(comps)[|front|] == last;
      }
    } else {
      NoMoves(records);
    }
  }

  lemma {:induction false} ToldOnce(records: Records, component: seq<VehicleMove>)
    requires DistinctTickets(component)
    ensures DistinctTickets(PhysicalMoves(records, component))
  {
    if component != [] {
      var n := |component| - 1;
      ToldOnce(records, component[..n]);
      ToldMoves(records, component[..n]);
      var front := PhysicalMoves(records, component[..n]);
      forall i | 0 <= i < |front|
        ensures front[i].ticket != component[n].ticket
      {
        assert front[i] in front;
      }
    }
  }

  lemma {:induction false} NoEmptyComponents(records: Records, moves: seq<seq<VehicleMove>>, loop: seq<bool>)
    requires |loop| == |moves|
    ensures forall c :: 0 <= c < |PhysicalComponents(records, moves, loop)| ==> PhysicalComponents(records, moves, loop)[c].moves != []
  {
    if moves != [] {
      hide PhysicalMoves;
      NoEmptyComponents(records, moves[..|moves| - 1], loop[..|moves| - 1]);
    }
  }

  lemma ComponentsTold(records: Records, order: MovementOrder)
    requires |order.loop| == |order.moves|
    ensures forall m :: MoveListed(PhysicalComponents(records, order.moves, order.loop), m) <==> Told(records, Flatten(order.moves), m)
  {
    hide Flatten, PhysicalComponents, PhysicalMoves, Told;
    var comps := PhysicalComponents(records, order.moves, order.loop);
    ComponentsJoined(records, order.moves, order.loop);
    ToldMoves(records, Flatten(order.moves));
    FlattenContains(MovesOf(comps));
    forall m
      ensures MoveListed(comps, m) <==> m in Flatten(MovesOf(comps))
    {
    }
  }

  /** A planned move is carried out exactly when it has changed a target and the vehicle is not there. */
  lemma ToldIffNeeded(capacity: seq<int>, records: Records, moves: seq<VehicleMove>, all: seq<VehicleMove>, m: VehicleMove)
    requires ValidPlan(Active(records), capacity, moves) && forall id :: id in records ==> VehicleSpace(records[id].vehicle) > 0
    requires DistinctTickets(all) && IndexByTicket(all) == IndexByTicket(moves)
    ensures Told(records, all, m) <==> NeedsMove(records, Retargeted(records, IndexByTicket(moves)), m)
  {
    hide Load, IndexByTicket, Fits, Planned;
    IndexByTicketOf(all);
    IndexByTicketOf(moves);
    var plan := IndexByTicket(moves);
    if planned :| planned in all && ToldAs(records, planned, m) {
      assert plan[m.ticket] == planned && planned in moves;
    }
    if NeedsMove(records, Retargeted(records, plan), m) {
      assert plan[m.ticket] in moves && plan[m.ticket] in all;
      assert ToldAs(records, plan[m.ticket], m);
    }
  }

  /** Whatever the vehicles are doing, the robots are told exactly the moves that the commit has made necessary. */
  lemma CommitHandsOver(capacity: seq<int>, records: Records, moves: seq<VehicleMove>, order: MovementOrder)
    requires ValidPlan(Active(records), capacity, moves) && forall id :: id in records ==> VehicleSpace(records[id].vehicle) > 0
    requires IndexByTicket(Flatten(order.moves)) == IndexByTicket(moves) && DistinctTickets(Flatten(order.moves))
    requires |order.loop| == |order.moves|
    ensures HandsOver(records, Retargeted(records, IndexByTicket(moves)), PhysicalComponents(records, order.moves, order.loop))
  {
    hide Load, IndexByTicket, ValidPlan, Active, Flatten, PhysicalComponents, PhysicalMoves, NeedsMove, ToldAs, Told, DistinctTickets, Retargeted;
    var comps, all := PhysicalComponents(records, order.moves, order.loop), Flatten(order.moves);
    ComponentsJoined(records, order.moves, order.loop);
    NoEmptyComponents(records, order.moves, order.loop);
    ToldOnce(records, all);
    ComponentsTold(records, order);
    forall m
      ensures MoveListed(comps, m) <==> NeedsMove(records, Retargeted(records, IndexByTicket(moves)), m)
    {
      ToldIffNeeded(capacity, records, moves, all, m);
    }
  }

  /** Every vehicle stands where it is reserved and nobody has asked for one. */
  ghost predicate AllStored(records: Records) {
    forall id :: id in records ==> !records[id].unparkRequested && records[id].physical == records[id].target >= 0
  }

  /** Every vehicle stands where it is reserved, or on no floor yet. */
  ghost predicate NoneElsewhere(records: Records) {
    forall id :: id in records ==> records[id].physical == records[id].target || records[id].physical == -1
  }

  ghost predicate LeavesTarget(records: Records, m: VehicleMove) {
    m.ticket in records && !records[m.ticket].unparkRequested && m.from == records[m.ticket].target && m.from != m.to
  }

  lemma {:induction false} StoredMoves(records: Records, component: seq<VehicleMove>)
    requires NoneElsewhere(records) && forall m :: m in component ==> LeavesTarget(records, m)
    ensures PhysicalMoves(records, component) == component
  {
    if component != [] {
      var n := |component| - 1;
      StoredMoves(records, component[..n]);
      assert component == component[..n] + [component[n]];
      assert component[n] in component;
    }
  }

  lemma {:induction false} StoredComponents(records: Records, moves: seq<seq<VehicleMove>>, loop: seq<bool>)
    requires NoneElsewhere(records) && |loop| == |moves|
    requires forall c :: 0 <= c < |moves| ==> moves[c] != []
    requires forall c, m :: 0 <= c < |moves| && m in moves[c] ==> LeavesTarget(records, m)
    ensures var comps := PhysicalComponents(records, moves, loop);
            |comps| == |moves| && forall c :: 0 <= c < |moves| ==> comps[c] == ShuffleComponent(moves[c], loop[c])
  {
    if moves != [] {
      hide NoneElsewhere, LeavesTarget, PhysicalMoves;
      var n := |moves| - 1;
      forall c, m | 0 <= c < n && m in moves[..n][c]
        ensures LeavesTarget(records, m)
      {
        assert m in moves[c];
      }
      StoredComponents(records, moves[..n], loop[..n]);
      StoredMoves(records, moves[n]);
    }
  }

  lemma {:induction false} FlattenPrefix(moves: seq<seq<VehicleMove>>, i: nat)
    requires i <= |moves|
    ensures Flatten(moves[..i]) <= Flatten(moves)
    decreases |moves| - i
  {
    if i == |moves| {
      assert moves[..i] == moves;
    } else {
      FlattenPrefix(moves, i + 1);
      assert moves[..i + 1][..i] == moves[..i];
    }
  }

  lemma PrefixDistinct(a: seq<VehicleMove>, b: seq<VehicleMove>)
    requires a <= b && DistinctTickets(b)
    ensures DistinctTickets(a)
  {
  }

  lemma OneMoreMove(done: seq<VehicleMove>, component: seq<VehicleMove>, j: nat)
    requires DistinctTickets(done + component) && j < |component|
    ensures done + component[..j + 1] == (done + component[..j]) + [component[j]]
    ensures DistinctTickets((done + component[..j]) + [component[j]])
  {
    hide DistinctTickets;
    assert done + component[..j + 1] == (done + component[..j]) + [component[j]] <= done + component;
    PrefixDistinct(done + component[..j + 1], done + component);
  }

  lemma NoMoves(records: Records)
    ensures PhysicalMoves(records, []) == []
  {
  }

  /** Exactly the circular components are marked, and in the others vehicles leave a floor before any come. */
  ghost predicate LoopsMarked(comps: seq<ShuffleComponent>) {
    forall c :: 0 <= c < |comps| ==>
      && (comps[c].loop <==> Circular(comps[c].moves))
      && (!comps[c].loop ==> DeparturesFirst(comps[c].moves))
  }

  /** If no vehicle is on another floor when the blueprint is committed, the robots are given just the plan, and
      never block on it. */
  lemma CommitIsRunnable(capacity: seq<int>, records: Records, moves: seq<VehicleMove>, order: MovementOrder, comps: seq<ShuffleComponent>)
    requires Fits(Active(records), capacity) && ValidPlan(Active(records), capacity, moves) && NoneElsewhere(records)
    requires IndexByTicket(Flatten(order.moves)) == IndexByTicket(moves) && DistinctTickets(Flatten(order.moves))
    requires NoCrossing(order.moves) && ComponentsOrdered(order)
    requires forall c :: 0 <= c < |order.moves| ==> order.moves[c] != []
    requires comps == PhysicalComponents(records, order.moves, order.loop)
    ensures Runnable(Active(records), capacity, comps)
    ensures PlanOf(comps) == IndexByTicket(moves) && LoopsMarked(comps)
  {
    hide Load, Flatten, IndexByTicket, Fits, NoneElsewhere, NoCrossing, Circular, PhysicalComponents;
    MovesLeaveTargets(records, capacity, moves, order);
    StoredComponents(records, order.moves, order.loop);
    assert MovesOf(comps) == order.moves;
    IndexByTicketOf(moves);
    forall id | id in PlanOf(comps)
      ensures id in Active(records) && PlanOf(comps)[id].from == Active(records)[id].floor
    {
      assert IndexByTicket(moves)[id] in moves;
    }
  }

  lemma MovesLeaveTargets(records: Records, capacity: seq<int>, moves: seq<VehicleMove>, order: MovementOrder)
    requires ValidPlan(Active(records), capacity, moves)
    requires IndexByTicket(Flatten(order.moves)) == IndexByTicket(moves) && DistinctTickets(Flatten(order.moves))
    ensures forall c, m :: 0 <= c < |order.moves| && m in order.moves[c] ==> LeavesTarget(records, m)
  {
    hide Load, Flatten, IndexByTicket, Fits;
    IndexByTicketOf(moves);
    IndexByTicketOf(Flatten(order.moves));
    FlattenContains(order.moves);
    forall c, m | 0 <= c < |order.moves| && m in order.moves[c]
      ensures LeavesTarget(records, m)
    {
      assert m in Flatten(order.moves);
      assert IndexByTicket(moves)[m.ticket] == m && m in moves;
    }
  }

  /** Part of a blueprint has been committed: the books match, though a floor may be over capacity for now. */
  ghost predicate CommittedSoFar(capacity: seq<int>, reserved: seq<int>, records: Records, before: Records, done: seq<VehicleMove>) {
    && records == Retargeted(before, IndexByTicket(done))
    && BooksMatch(capacity, reserved, records)
  }

  lemma CommitStep(capacity: seq<int>, reserved: seq<int>, records: Records, before: Records, done: seq<VehicleMove>, m: VehicleMove)
    requires CommittedSoFar(capacity, reserved, records, before, done)
    requires DistinctTickets(done + [m]) && 0 <= m.to < |capacity|
    ensures m.ticket in records <==> m.ticket in before
    ensures m.ticket in records ==> records[m.ticket] == before[m.ticket] && 0 <= records[m.ticket].target < |reserved| == |capacity|
    ensures m.ticket !in records || records[m.ticket].unparkRequested || records[m.ticket].target == m.to ==>
      CommittedSoFar(capacity, reserved, records, before, done + [m])
    ensures m.ticket in records && !records[m.ticket].unparkRequested && records[m.ticket].target != m.to ==>
      var r, space := records[m.ticket], VehicleSpace(records[m.ticket].vehicle);
      CommittedSoFar(capacity, reserved[r.target := reserved[r.target] - space][m.to := reserved[m.to] + space],
                     records[m.ticket := r.(target := m.to)], before, done + [m])
  {
    hide Load, IndexByTicket;
    DistinctLast(done, m);
    RetargetNext(before, done, m);
    if m.ticket in records && !records[m.ticket].unparkRequested {
      if records[m.ticket].target != m.to {
        RetargetKeepsBooks(capacity, reserved, records, m.ticket, m.to);
      } else {
        assert records[m.ticket := records[m.ticket].(target := m.to)] == records;
      }
    }
  }

  lemma CommitStart(capacity: seq<int>, reserved: seq<int>, records: Records)
    requires BooksMatch(capacity, reserved, records)
    ensures CommittedSoFar(capacity, reserved, records, records, Flatten([]))
  {
    assert Retargeted(records, map[]) == records;
  }

  lemma PhysicalMovesStep(records: Records, component: seq<VehicleMove>, j: nat)
    requires j < |component|
    ensures PhysicalMoves(records, component[..j + 1]) ==
      PhysicalMoves(records, component[..j]) + PhysicalMove(records, component[j])
  {
    assert component[..j + 1][..j] == component[..j];
  }

  lemma PhysicalComponentsStep(records: Records, moves: seq<seq<VehicleMove>>, loop: seq<bool>, i: nat)
    requires i < |moves| == |loop|
    ensures var last := PhysicalMoves(records, moves[i]);
            PhysicalComponents(records, moves[..i + 1], loop[..i + 1]) ==
            PhysicalComponents(records, moves[..i], loop[..i]) + if last == [] then [] else [ShuffleComponent(last, loop[i])]
  {
    assert moves[..i + 1][..i] == moves[..i] && loop[..i + 1][..i] == loop[..i];
  }

  /** What a strategy promises of the layout it has arranged. */
  ghost predicate Arranged(s: Strategy, records: Records, capacity: seq<int>, p: Layout) {
    match s
    case NearestFloor => true
    case Compaction => FewestFloors(p, capacity)
    case LoadBalanced => WithinGap(p, |capacity|, LARGEST_VEHICLE)
    case ZoneBalanced => InZones(records, |capacity|, p)
  }

  /** Whether any assignment meets the strategy's constraints; the load balancer may give up even so. */
  ghost predicate Arrangeable(s: Strategy, records: Records, capacity: seq<int>) {
    match s
    case NearestFloor => true
    case Compaction => exists a :: Rival(a, Active(records), capacity)
    case LoadBalanced => true
    case ZoneBalanced => exists a :: ZoneRival(a, records, capacity)
  }

  /** A switch may move reservations and nothing else: every ticket still stands for the same vehicle. */
  ghost predicate SameSessions(before: Records, after: Records) {
    && before.Keys == after.Keys
    && (forall id :: id in before ==> after[id] == before[id].(target := after[id].target))
    && (forall id :: id in before && before[id].unparkRequested ==> after[id] == before[id])
  }

  lemma NothingToPlan(capacity: seq<int>, s: Snapshot, strategy: Strategy)
    requires Consistent(capacity, s) && |capacity| == 0
    ensures Planned(Active(s.records), IndexByTicket([])) == map[] == Active(s.records)
    ensures ValidPlan(Active(s.records), capacity, [])
    ensures Arranged(strategy, s.records, capacity, map[]) && Arrangeable(strategy, s.records, capacity)
  {
    hide Load, Physical;
    assert Active(s.records) == map[];
    NothingUsesNoFloor(capacity);
    assert Rival(map[], Active(s.records), capacity);
    assert ZoneRival(map[], s.records, capacity);
  }

  lemma NothingToMove(capacity: seq<int>, s: Snapshot)
    requires Consistent(capacity, s)
    ensures Runnable(Active(s.records), capacity, [])
    ensures Planned(Active(s.records), PlanOf([])) == Active(s.records)
    ensures SameSessions(s.records, s.records)
    ensures HandsOver(s.records, s.records, []) && LoopsMarked([])
    ensures Arrangeable(NearestFloor, s.records, capacity) && Arranged(NearestFloor, s.records, capacity, Active(s.records))
  {
    hide Load, Physical;
    assert MovesOf([]) == [];
    assert Planned(Active(s.records), PlanOf([])) == Active(s.records);
  }

  lemma BlueprintReady(capacity: seq<int>, s: Snapshot, moves: seq<VehicleMove>, order: MovementOrder)
    requires Consistent(capacity, s) && ValidPlan(Active(s.records), capacity, moves)
    requires IndexByTicket(Flatten(order.moves)) == IndexByTicket(moves) && DistinctTickets(Flatten(order.moves))
    ensures BooksMatch(capacity, s.reserved, s.records)
    ensures forall m :: m in Flatten(order.moves) ==> 0 <= m.to < |capacity|
  {
    hide Load, Physical, Flatten, IndexByTicket;
    IndexByTicketOf(moves);
    IndexByTicketOf(Flatten(order.moves));
  }

  lemma BlueprintCommitted(capacity: seq<int>, s: Snapshot, moves: seq<VehicleMove>, order: MovementOrder, comps: seq<ShuffleComponent>,
                           reserved: seq<int>, records: Records, rearranged: bool)
    requires Consistent(capacity, s) && ValidPlan(Active(s.records), capacity, moves)
    requires IndexByTicket(Flatten(order.moves)) == IndexByTicket(moves) && DistinctTickets(Flatten(order.moves))
    requires |order.loop| == |order.moves| && NoCrossing(order.moves) && ComponentsOrdered(order)
    requires forall c :: 0 <= c < |order.moves| ==> ConnectedMoves(IndexByTicket(moves), order.moves[c])
    requires CommittedSoFar(capacity, reserved, records, s.records, Flatten(order.moves))
    requires comps == PhysicalComponents(s.records, order.moves, order.loop)
    requires rearranged <==> s.rearranged || order.moves != []
    ensures Consistent(capacity, s.(reserved := reserved, records := records, rearranged := rearranged))
    ensures records == Retargeted(s.records, IndexByTicket(moves)) && Active(records) == Planned(Active(s.records), IndexByTicket(moves))
    ensures SameSessions(s.records, records)
    ensures comps != [] ==> rearranged
    ensures HandsOver(s.records, records, comps)
    ensures NoneElsewhere(s.records) ==>
      Runnable(Active(s.records), capacity, comps) && Planned(Active(s.records), PlanOf(comps)) == Active(records) && LoopsMarked(comps)
  {
    hide Load, Physical, Flatten, IndexByTicket, NoCrossing, ComponentsOrdered, PhysicalComponents, Runnable, NoneElsewhere, Connected,
         HandsOver, LoopsMarked, DistinctTickets;
    RecordsWellFormed(capacity, s);
    CommitHandsOver(capacity, s.records, moves, order);
    IndexByTicketOf(moves);
    RetargetedActive(s.records, IndexByTicket(moves));
    if order.moves == [] {
      NothingCommitted(s.records, order);
    }
    CommittedTraffic(capacity, s, records, IndexByTicket(moves));
    if NoneElsewhere(s.records) {
      CommitIsRunnable(capacity, s.records, moves, order, comps);
    }
  }

  lemma NothingCommitted(records: Records, order: MovementOrder)
    requires order.moves == []
    ensures Retargeted(records, IndexByTicket(Flatten(order.moves))) == records
    ensures |order.loop| == 0 ==> PhysicalComponents(records, order.moves, order.loop) == []
  {
  }

  lemma CommittedTraffic(capacity: seq<int>, s: Snapshot, records: Records, plan: map<Ticket, VehicleMove>)
    requires TrafficWellFormed(|capacity|, s.issued, s.records, s.traffic) && records == Retargeted(s.records, plan)
    ensures TrafficWellFormed(|capacity|, s.issued, records, s.traffic)
    ensures NobodyForgotten(s.records, s.traffic) ==> NobodyForgotten(records, s.traffic)
  {
    hide JobFor;
  }

  lemma ArrangedAfter(s: Strategy, records: Records, capacity: seq<int>, plan: map<Ticket, VehicleMove>)
    requires Arranged(s, records, capacity, Planned(Active(records), plan))
    ensures Arranged(s, Retargeted(records, plan), capacity, Planned(Active(records), plan))
  {
  }

  class AutomatedParkingSystem {
    const capacity: seq<int>
    var reserved: seq<int>
    var used: seq<int>
    var records: Records
    var strategy: Strategy
    var shufflingInProgress: bool
    var traffic: Traffic
    /** All tickets ever generated; they are assumed not to repeat. */
    ghost var issued: set<Ticket>
    /** Whether any blueprint has moved a reservation yet. */
    ghost var rearranged: bool
    var bufferSlots: seq<BufferSlot>

    ghost function Now(): Snapshot
      reads this
    {
      Snapshot(reserved, used, records, traffic, issued, rearranged)
    }

    ghost predicate Valid()
      reads this
    {
      && (forall f :: 0 <= f < |capacity| ==> capacity[f] <= MAX_INT)
      && Uniform(capacity)
      && Consistent(capacity, Now())
      && (shufflingInProgress ==> rearranged)
      && |bufferSlots| == BUFFER_SLOT_COUNT
    }

    constructor (floorsCnt: nat, floorSpace: int)
      requires floorSpace <= MAX_INT
      ensures Valid() && !rearranged && !shufflingInProgress
      ensures records == map[] && issued == {} && strategy == NearestFloor
      ensures |capacity| == floorsCnt && forall f :: 0 <= f < floorsCnt ==> capacity[f] == floorSpace
    {
      capacity := seq(floorsCnt, _ => floorSpace);
      reserved := seq(floorsCnt, _ => 0);
      used := seq(floorsCnt, _ => 0);
      records := map[];
      strategy := NearestFloor;
      shufflingInProgress := false;
      traffic := Traffic([], map[], map[], [], multiset{}, multiset{});
      issued := {};
      rearranged := false;
      bufferSlots := seq(BUFFER_SLOT_COUNT, _ => BufferSlot(false, None));
      new;
      EmptyConsistent(capacity, seq(floorsCnt, _ => 0));
    }

    // ---------- Customers ----------

    /** A floor the strategy in force may choose for a vehicle. */
    ghost predicate MayPark(vehicle: VehicleType, f: int)
      requires |reserved| == |capacity|
      reads this
    {
      VehicleSpace(vehicle) > 0 && Candidate(strategy, capacity, reserved, vehicle, f)
    }

    /** The floor that the strategy in force does choose. */
    ghost predicate Parks(vehicle: VehicleType, f: int)
      requires |reserved| == |capacity|
      reads this
    {
      MayPark(vehicle, f) && Chosen(strategy, capacity, reserved, vehicle, f)
    }

    method Park(vehicle: VehicleType, ticketID: Ticket) returns (floor: Option<nat>)
      requires Valid() && ticketID !in issued
      modifies `reserved, `records, `traffic, `issued
      ensures Valid() && |reserved| == |capacity|
      ensures floor.Some? <==> |old(traffic.parkingJobs)| < CHANNEL_CAPACITY && exists f :: old(MayPark(vehicle, f))
      ensures floor.Some? ==> old(Parks(vehicle, floor.value))
      ensures floor.Some? ==> Now() == AfterPark(old(Now()), ticketID, vehicle, floor.value)
      ensures floor.Some? ==>
        && floor.value < |old(reserved)|
        && reserved == old(reserved)[floor.value := old(reserved)[floor.value] + VehicleSpace(vehicle)]
        && records == old(records)[ticketID := ParkingRecord(vehicle, -1, -1, floor.value, ParkingPending, false)]
        && traffic == old(traffic).(parkingJobs := old(traffic.parkingJobs) + [ParkingJob(ticketID, vehicle, floor.value)])
      ensures floor.None? ==> Now() == old(Now())
    {
      hide Consistent;
      ConsistentBasics(capacity, Now());
      floor := Allocate(strategy, capacity, reserved, vehicle);
      if floor.None? {
        return None;
      }
      assert MayPark(vehicle, floor.value) && Parks(vehicle, floor.value);
      if |traffic.parkingJobs| >= CHANNEL_CAPACITY {
        return None;
      }
      var f := floor.value;
      ParkConsistent(capacity, Now(), ticketID, vehicle, f);
      traffic := traffic.(parkingJobs := traffic.parkingJobs + [ParkingJob(ticketID, vehicle, f)]);
      records := records[ticketID := ParkingRecord(vehicle, -1, -1, f, ParkingPending, false)];
      reserved := reserved[f := reserved[f] + VehicleSpace(vehicle)];
      issued := issued + {ticketID};
    }

    method Unpark(ticketID: Ticket) returns (result: UnparkResult)
      requires Valid()
      modifies `reserved, `records, `traffic
      ensures Valid()
      ensures result == InvalidTicket <==> ticketID !in old(records)
      ensures result == AlreadyRequested <==> ticketID in old(records) && old(records)[ticketID].unparkRequested
      ensures result == UnparkingBusy <==>
        && ticketID in old(records) && !old(records)[ticketID].unparkRequested
        && old(records)[ticketID].status == Parked && old(records)[ticketID].buffer < 0 && old(records)[ticketID].physical >= 0
        && |old(traffic.unparkJobs)| >= CHANNEL_CAPACITY
      ensures result == Accepted ==>
        0 <= old(records)[ticketID].target < |old(reserved)| && Now() == AfterUnpark(old(Now()), ticketID)
      ensures result == Accepted ==>
        var r := old(records)[ticketID];
        && reserved == old(reserved)[r.target := old(reserved)[r.target] - VehicleSpace(r.vehicle)]
        && records == old(records)[ticketID := r.(unparkRequested := true)]
        && traffic.unparkJobs == old(traffic.unparkJobs) +
             if r.status == Parked && r.buffer < 0 && r.physical >= 0 then [ticketID] else []
      ensures result != Accepted ==> Now() == old(Now())
    {
      hide Consistent;
      ConsistentBasics(capacity, Now());
      if ticketID !in records {
        return InvalidTicket;
      }
      var parkingRecord := records[ticketID];
      if parkingRecord.unparkRequested {
        return AlreadyRequested;
      }
      ghost var before := Now();
      records := records[ticketID := parkingRecord.(unparkRequested := true)];
      if Fetchable(parkingRecord) {
        if |traffic.unparkJobs| >= CHANNEL_CAPACITY {
          records := records[ticketID := parkingRecord];
          assert Now() == before;
          return UnparkingBusy;
        }
        traffic := traffic.(unparkJobs := traffic.unparkJobs + [ticketID]);
      }
      reserved := reserved[parkingRecord.target := reserved[parkingRecord.target] - VehicleSpace(parkingRecord.vehicle)];
      UnparkConsistent(capacity, before, ticketID);
      return Accepted;
    }

    // ---------- Robots ----------

    method ParkerTakesJob()
      requires Valid() && traffic.parkingJobs != []
      modifies `traffic
      ensures Valid() && Now() == AfterTakingJob(old(Now()))
    {
      hide Consistent;
      TakingJobConsistent(capacity, Now());
      var job := traffic.parkingJobs[0];
      traffic := traffic.(parkingJobs := traffic.parkingJobs[1..], waiting := traffic.waiting[job.ticket := job]);
    }

    /** One look at the floor by a parker; it goes on waiting as long as the floor is too full. */
    method ParkerClaims(id: Ticket) returns (claimed: bool)
      requires Valid() && id in traffic.waiting
      modifies `used, `traffic
      ensures Valid()
      ensures 0 <= old(traffic.waiting)[id].toFloor < |old(used)| == |capacity|
      ensures var job := old(traffic.waiting)[id];
              && (claimed <==> capacity[job.toFloor] - old(used)[job.toFloor] >= VehicleSpace(job.vehicle))
              && (claimed ==> used == old(used)[job.toFloor := old(used)[job.toFloor] + VehicleSpace(job.vehicle)])
      ensures claimed ==> Now() == AfterClaim(old(Now()), id)
      ensures !claimed ==> Now() == old(Now())
    {
      hide Consistent;
      ClaimBasics(capacity, Now(), id);
      var job := traffic.waiting[id];
      if capacity[job.toFloor] - used[job.toFloor] < VehicleSpace(job.vehicle) {
        return false;
      }
      ClaimConsistent(capacity, Now(), id);
      used := used[job.toFloor := used[job.toFloor] + VehicleSpace(job.vehicle)];
      traffic := traffic.(waiting := traffic.waiting - {id}, storing := traffic.storing[id := job]);
      return true;
    }

    method ParkerStores(id: Ticket)
      requires Valid() && id in traffic.storing
      modifies `records, `traffic
      ensures Valid() && Now() == AfterStore(old(Now()), id)
      ensures id in old(records) ==>
        var r := old(records)[id];
        && records == old(records)[id := r.(physical := old(traffic.storing)[id].toFloor, buffer := -1, status := Parked)]
        && traffic.sending == old(traffic.sending) + if r.unparkRequested then multiset{id} else multiset{}
    {
      hide Consistent;
      StoreConsistent(capacity, Now(), id);
      var job := traffic.storing[id];
      var sending := traffic.sending;
      assert sending + multiset{} == sending;
      if id in records {
        var record := records[id];
        records := records[id := record.(physical := job.toFloor, buffer := -1, status := Parked)];
        if record.unparkRequested {
          sending := sending + multiset{id};
        }
      }
      traffic := traffic.(storing := traffic.storing - {id}, sending := sending);
    }

    /** Blocks while the channel is full, hence the precondition. */
    method RobotSendsUnparkJob(id: Ticket)
      requires Valid() && id in traffic.sending && |traffic.unparkJobs| < CHANNEL_CAPACITY
      modifies `traffic
      ensures Valid() && Now() == AfterSend(old(Now()), id)
    {
      hide Consistent;
      SendConsistent(capacity, Now(), id);
      traffic := traffic.(sending := traffic.sending - multiset{id}, unparkJobs := traffic.unparkJobs + [id]);
    }

    method UnparkerTakesJob()
      requires Valid() && traffic.unparkJobs != []
      modifies `traffic
      ensures Valid() && Now() == AfterFetch(old(Now()))
      ensures traffic.unparkJobs == old(traffic.unparkJobs)[1..]
      ensures var id := old(traffic.unparkJobs)[0];
              traffic.retrieving == old(traffic.retrieving) +
                if id in records && records[id].unparkRequested
                then multiset{Retrieval(id, records[id].physical, VehicleSpace(records[id].vehicle))} else multiset{}
    {
      hide Consistent;
      FetchConsistent(capacity, Now());
      var id := traffic.unparkJobs[0];
      traffic := traffic.(unparkJobs := traffic.unparkJobs[1..]);
      if id !in records || !records[id].unparkRequested {
        return;
      }
      var r := Retrieval(id, records[id].physical, VehicleSpace(records[id].vehicle));
      traffic := traffic.(retrieving := traffic.retrieving + multiset{r});
    }

    method UnparkerRemoves(r: Retrieval)
      requires Valid() && r in traffic.retrieving
      modifies `used, `records, `traffic
      ensures Valid() && r.floor < |old(used)| && Now() == AfterRemoval(old(Now()), r)
      ensures records == old(records) - {r.ticket}
      ensures used == if r.floor >= 0 then old(used)[r.floor := old(used)[r.floor] - r.space] else old(used)
    {
      hide Consistent;
      RemovalConsistent(capacity, Now(), r);
      if r.floor >= 0 {
        used := used[r.floor := used[r.floor] - r.space];
      }
      records := records - {r.ticket};
      traffic := traffic.(retrieving := traffic.retrieving - multiset{r});
    }

    /** A shuffle robot picks up a vehicle, unless it is no longer where the move expects it. */
    method ShuffleLifts(move: VehicleMove) returns (lifted: bool)
      requires Valid() && shufflingInProgress
      modifies `used, `records
      ensures Valid()
      ensures lifted <==> move.ticket in old(records) && old(records)[move.ticket].buffer < 0
                          && old(records)[move.ticket].physical == move.from >= 0
      ensures lifted ==> move.from < |old(used)| && Now() == AfterLift(old(Now()), move.ticket)
      ensures lifted ==>
        var r := old(records)[move.ticket];
        && used == old(used)[move.from := old(used)[move.from] - VehicleSpace(r.vehicle)]
        && records == old(records)[move.ticket := r.(physical := -1, status := Rearranging)]
      ensures !lifted ==> Now() == old(Now())
    {
      hide Consistent;
      if move.ticket !in records {
        return false;
      }
      var record := records[move.ticket];
      if record.buffer >= 0 || record.physical != move.from || move.from < 0 {
        return false;
      }
      LiftConsistent(capacity, Now(), move.ticket);
      used := used[move.from := used[move.from] - VehicleSpace(record.vehicle)];
      records := records[move.ticket := record.(physical := -1, status := Rearranging)];
      return true;
    }

    /** One look at the destination by a shuffle robot; the vehicle is set down as soon as there is room. */
    method ShuffleSetsDown(id: Ticket) returns (placed: bool)
      requires Valid() && shufflingInProgress && id in records
      modifies `used, `records, `traffic
      ensures Valid()
      ensures 0 <= old(records)[id].target < |capacity| == |old(used)|
      ensures var r := old(records)[id];
              placed <==> capacity[r.target] - old(used)[r.target] >= VehicleSpace(r.vehicle)
      ensures placed ==> Now() == AfterSetDown(old(Now()), id)
      ensures placed ==>
        var r := old(records)[id];
        && used == old(used)[r.target := old(used)[r.target] + VehicleSpace(r.vehicle)]
        && records == old(records)[id := r.(physical := r.target, buffer := -1, status := Parked)]
        && traffic.sending == old(traffic.sending) + if r.unparkRequested then multiset{id} else multiset{}
      ensures !placed ==> Now() == old(Now())
    {
      hide Consistent;
      ConsistentBasics(capacity, Now());
      var record := records[id];
      var dest := record.target;
      if capacity[dest] - used[dest] < VehicleSpace(record.vehicle) {
        return false;
      }
      SetDownConsistent(capacity, Now(), id);
      used := used[dest := used[dest] + VehicleSpace(record.vehicle)];
      records := records[id := record.(physical := dest, buffer := -1, status := Parked)];
      traffic := traffic.(sending := traffic.sending + if record.unparkRequested then multiset{id} else multiset{});
      return true;
    }

    /** The same for a robot that still holds the record of a vehicle which has been handed out meanwhile. */
    method ShuffleSetsDownLost(id: Ticket, lost: ParkingRecord) returns (placed: bool)
      requires Valid() && shufflingInProgress && id in issued && id !in records && 0 <= lost.target < |capacity|
      modifies `used, `traffic
      ensures Valid() && |capacity| == |old(used)|
      ensures placed <==> capacity[lost.target] - old(used)[lost.target] >= VehicleSpace(lost.vehicle)
      ensures placed ==> Now() == AfterLostSetDown(old(Now()), id, lost)
      ensures placed ==>
        && used == old(used)[lost.target := old(used)[lost.target] + VehicleSpace(lost.vehicle)]
        && traffic.sending == old(traffic.sending) + if lost.unparkRequested then multiset{id} else multiset{}
      ensures !placed ==> Now() == old(Now())
    {
      hide Consistent;
      ConsistentBasics(capacity, Now());
      var dest := lost.target;
      if capacity[dest] - used[dest] < VehicleSpace(lost.vehicle) {
        return false;
      }
      LostSetDownConsistent(capacity, Now(), id, lost);
      used := used[dest := used[dest] + VehicleSpace(lost.vehicle)];
      traffic := traffic.(sending := traffic.sending + if lost.unparkRequested then multiset{id} else multiset{});
      return true;
    }

    // ---------- Buffer slots ----------

    /** One look for a free slot; the robot goes on waiting while all are claimed. */
    method ClaimBufferSlot() returns (slot: Option<nat>)
      requires Valid()
      modifies `bufferSlots
      ensures Valid()
      ensures slot.None? ==> bufferSlots == old(bufferSlots) && forall i :: 0 <= i < |bufferSlots| ==> bufferSlots[i].claimed
      ensures slot.Some? ==>
        && slot.value < |bufferSlots| && !old(bufferSlots)[slot.value].claimed
        && (forall i :: 0 <= i < slot.value ==> old(bufferSlots)[i].claimed)
        && bufferSlots == old(bufferSlots)[slot.value := old(bufferSlots)[slot.value].(claimed := true)]
    {
      for i := 0 to |bufferSlots|
        invariant forall j :: 0 <= j < i ==> bufferSlots[j].claimed
      {
        if !bufferSlots[i].claimed {
          bufferSlots := bufferSlots[i := bufferSlots[i].(claimed := true)];
          return Some(i);
        }
      }
      return None;
    }

    method ReleaseBufferSlot(slot: nat)
      requires Valid() && slot < BUFFER_SLOT_COUNT
      modifies `bufferSlots
      ensures Valid() && bufferSlots == old(bufferSlots)[slot := BufferSlot(false, None)]
    {
      bufferSlots := bufferSlots[slot := BufferSlot(false, None)];
    }

    /** A robot puts the vehicle it carries into a slot, without looking at retrieval requests. */
    method ShuffleBuffers(id: Ticket, slot: nat)
      requires Valid() && shufflingInProgress && id in records && slot < BUFFER_SLOT_COUNT
      modifies `records, `bufferSlots
      ensures Valid() && Now() == AfterBuffering(old(Now()), id, slot)
      ensures bufferSlots == old(bufferSlots)[slot := old(bufferSlots)[slot].(vehicleTicket := Some(id))]
    {
      hide Consistent;
      BufferingConsistent(capacity, Now(), id, slot);
      bufferSlots := bufferSlots[slot := bufferSlots[slot].(vehicleTicket := Some(id))];
      records := records[id := records[id].(physical := -1, buffer := slot, status := Parked)];
    }

    /** A robot takes a vehicle out of a slot, unless it is not in there any more. */
    method ShuffleUnbuffers(id: Ticket, slot: nat) returns (lifted: bool)
      requires Valid() && shufflingInProgress && slot < BUFFER_SLOT_COUNT
      modifies `records, `bufferSlots
      ensures Valid() && (lifted <==> id in old(records) && old(records)[id].buffer == slot)
      ensures lifted ==> Now() == AfterUnbuffering(old(Now()), id)
      ensures lifted ==> bufferSlots == old(bufferSlots)[slot := old(bufferSlots)[slot].(vehicleTicket := None)]
      ensures !lifted ==> Now() == old(Now()) && bufferSlots == old(bufferSlots)
    {
      hide Consistent;
      if id !in records || records[id].buffer != slot {
        return false;
      }
      BufferingConsistent(capacity, Now(), id, slot);
      bufferSlots := bufferSlots[slot := bufferSlots[slot].(vehicleTicket := None)];
      records := records[id := records[id].(physical := -1, buffer := -1, status := Rearranging)];
      return true;
    }

    // ---------- Changing strategy ----------

    /** Moves the reservations of one component, front to back, and lists the physical moves it needs. */
    method CommitComponent(component: seq<VehicleMove>, ghost before: Records, ghost done: seq<VehicleMove>)
      returns (moves: seq<VehicleMove>)
      requires CommittedSoFar(capacity, reserved, records, before, done) && DistinctTickets(done + component)
      requires forall m :: m in component ==> 0 <= m.to < |capacity|
      modifies `reserved, `records
      ensures CommittedSoFar(capacity, reserved, records, before, done + component)
      ensures moves == PhysicalMoves(before, component) && Picked(component, moves)
      ensures forall m :: m in moves <==> Told(before, component, m)
    {
      hide CommittedSoFar, DistinctTickets, PhysicalMoves, Told, Picked;
      NoMoves(before);
      moves := [];
      assert component[..0] == [];
      assert done + component[..0] == done;
      for j := 0 to |component|
        invariant CommittedSoFar(capacity, reserved, records, before, done + component[..j])
        invariant moves == PhysicalMoves(before, component[..j])
      {
        var move := component[j];
        OneMoreMove(done, component, j);
        CommitStep(capacity, reserved, records, before, done + component[..j], move);
        PhysicalMovesStep(before, component, j);
        if move.ticket !in records || records[move.ticket].unparkRequested {
          continue;
        }
        var record := records[move.ticket];
        var requiredSpace := VehicleSpace(record.vehicle);
        var oldTarget, newTarget := record.target, move.to;
        if oldTarget != newTarget {
          reserved := reserved[oldTarget := reserved[oldTarget] - requiredSpace];
          reserved := reserved[newTarget := reserved[newTarget] + requiredSpace];
          records := records[move.ticket := record.(target := newTarget)];
        }
        if record.physical >= 0 && record.physical == newTarget {
          continue;
        }
        var from := record.physical;
        if from < 0 {
          from := move.from;
        }
        if from == newTarget {
          continue;
        }
        moves := moves + [VehicleMove(move.ticket, from, newTarget)];
      }
      assert component[..|component|] == component;
      MovesPicked(before, component);
      ToldMoves(before, component);
    }

    method CommitBlueprint(order: MovementOrder) returns (comps: seq<ShuffleComponent>)
      requires BooksMatch(capacity, reserved, records)
      requires |order.loop| == |order.moves| && DistinctTickets(Flatten(order.moves))
      requires forall m :: m in Flatten(order.moves) ==> 0 <= m.to < |capacity|
      modifies `reserved, `records
      ensures CommittedSoFar(capacity, reserved, records, old(records), Flatten(order.moves))
      ensures comps == PhysicalComponents(old(records), order.moves, order.loop) && KeepsOrder(order, comps)
      ensures forall m :: MoveListed(comps, m) <==> Told(old(records), Flatten(order.moves), m)
    {
      hide CommittedSoFar, BooksMatch, KeepsOrder, MoveListed, Told, Picked;
      comps := [];
      CommitStart(capacity, reserved, records);
      for i := 0 to |order.moves|
        invariant CommittedSoFar(capacity, reserved, records, old(records), Flatten(order.moves[..i]))
        invariant comps == PhysicalComponents(old(records), order.moves[..i], order.loop[..i])
      {
        assert order.moves[..i + 1][..i] == order.moves[..i];
        assert Flatten(order.moves[..i + 1]) == Flatten(order.moves[..i]) + order.moves[i];
        FlattenPrefix(order.moves, i + 1);
        PrefixDistinct(Flatten(order.moves[..i + 1]), Flatten(order.moves));
        forall m | m in order.moves[i]
          ensures 0 <= m.to < |capacity|
        {
          assert m in Flatten(order.moves[..i + 1]);
        }
        var moves := CommitComponent(order.moves[i], old(records), Flatten(order.moves[..i]));
        PhysicalComponentsStep(old(records), order.moves, order.loop, i);
        if |moves| > 0 {
          comps := comps + [ShuffleComponent(moves, order.loop[i])];
        }
      }
      assert order.moves[..|order.moves|] == order.moves && order.loop[..|order.moves|] == order.loop;
      ComponentsKeepOrder(old(records), order);
      ComponentsTold(old(records), order);
    }

    method Plan(s: Strategy) returns (plan: Option<seq<VehicleMove>>)
      requires Valid() && !s.NearestFloor?
      ensures plan.Some? ==> ValidPlan(Active(records), capacity, plan.value)
      ensures plan.Some? ==> Arranged(s, records, capacity, Planned(Active(records), IndexByTicket(plan.value)))
      ensures !s.LoadBalanced? ==> (plan.Some? <==> Arrangeable(s, records, capacity))
      ensures s.LoadBalanced? && plan.None? ==> Refusable(Active(records), capacity)
    {
      hide Refusable, Consistent, Load, ValidPlan, Rival, ZoneRival, WithinGap, FewestFloors, InZones, Planned, IndexByTicket;
      match s {
        case Compaction => plan := PlanCompaction(capacity, records);
        case LoadBalanced => plan := PlanLoadBalanced(capacity, records);
        case ZoneBalanced => plan := PlanZoneBalanced(capacity, records);
      }
      if |capacity| == 0 {
        NothingToPlan(capacity, Now(), s);
      } else if s.LoadBalanced? && plan.Some? {
        GapOfATruck(records, capacity, plan.value);
      }
    }

    /** Plans and commits a rearrangement for a strategy that wants one. */
    method Rearrange(s: Strategy) returns (done: bool, comps: seq<ShuffleComponent>)
      requires Valid() && !s.NearestFloor?
      modifies `reserved, `records, `rearranged
      ensures Valid() && (comps != [] ==> done && rearranged)
      ensures !done ==> Now() == old(Now())
      ensures !done ==> if s.LoadBalanced? then Refusable(Active(old(records)), capacity) else !Arrangeable(s, old(records), capacity)
      ensures done && !s.LoadBalanced? ==> Arrangeable(s, old(records), capacity)
      ensures done ==> Arranged(s, records, capacity, Active(records)) && SameSessions(old(records), records)
      ensures done ==> HandsOver(old(records), records, comps)
      ensures done && NoneElsewhere(old(records)) ==>
        Runnable(Active(old(records)), capacity, comps) && Planned(Active(old(records)), PlanOf(comps)) == Active(records) && LoopsMarked(comps)
    {
      hide Consistent, Load, ValidPlan, Arranged, Arrangeable, Refusable, Runnable, PlanOf, NoneElsewhere, SameSessions, Uniform, Active,
           HandsOver, LoopsMarked, KeepsOrder, Planned, Retargeted, IndexByTicket, Flatten, NoCrossing, CommittedSoFar, BooksMatch, DistinctTickets, ConnectedMoves;
      ghost var before := Now();
      var plan := Plan(s);
      if plan.None? {
        return false, [];
      }
      var order := BuildMovementOrder(plan.value);
      BlueprintReady(capacity, before, plan.value, order);
      comps := CommitBlueprint(order);
      rearranged := rearranged || order.moves != [];
      BlueprintCommitted(capacity, before, plan.value, order, comps, reserved, records, rearranged);
      ArrangedAfter(s, before.records, capacity, IndexByTicket(plan.value));
      return true, comps;
    }

    method SwitchStrategy(s: Strategy) returns (result: SwitchResult, comps: seq<ShuffleComponent>)
      requires Valid()
      modifies `reserved, `records, `strategy, `shufflingInProgress, `rearranged
      ensures Valid()
      ensures result == ShufflingInProgress <==> old(shufflingInProgress)
      ensures result == BlueprintInvalid ==> s.LoadBalanced? || !Arrangeable(s, old(records), capacity)
      ensures result == BlueprintInvalid && s.LoadBalanced? ==> Refusable(Active(old(records)), capacity)
      ensures !old(shufflingInProgress) && !s.LoadBalanced? && !Arrangeable(s, old(records), capacity) ==> result == BlueprintInvalid
      ensures result != Switched ==>
        Now() == old(Now()) && strategy == old(strategy) && shufflingInProgress == old(shufflingInProgress) && comps == []
      ensures result == Switched ==>
        strategy == s && Arranged(s, records, capacity, Active(records)) && (shufflingInProgress <==> comps != [])
      ensures result == Switched && s.NearestFloor? ==> Now() == old(Now()) && comps == []
      ensures result == Switched ==> SameSessions(old(records), records)
      ensures result == Switched ==> HandsOver(old(records), records, comps)
      ensures result == Switched && NoneElsewhere(old(records)) ==>
        Runnable(Active(old(records)), capacity, comps) && Planned(Active(old(records)), PlanOf(comps)) == Active(records) && LoopsMarked(comps)
    {
      hide Consistent, Load, Arranged, Arrangeable, Refusable, Runnable, PlanOf, NoneElsewhere, SameSessions, Uniform, Active, Planned,
           HandsOver, LoopsMarked;
      if shufflingInProgress {
        return ShufflingInProgress, [];
      }
      if s.NearestFloor? {
        NothingToMove(capacity, Now());
        comps := [];
      } else {
        var done: bool;
        done, comps := Rearrange(s);
        if !done {
          return BlueprintInvalid, [];
        }
      }
      strategy := s;
      if |comps| > 0 {
        shufflingInProgress := true;
      }
      return Switched, comps;
    }

    /** The robots have finished all components. */
    method ShufflingDone()
      requires Valid()
      modifies `shufflingInProgress
      ensures Valid() && !shufflingInProgress
    {
      shufflingInProgress := false;
    }
  }
}
