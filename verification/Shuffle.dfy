/** Robots carrying out a rearrangement, in every interleaving.

  A robot works through one acyclic component from front to back, one vehicle at a time: it lifts the
  vehicle off its floor, and later sets it down where the plan says, waiting first if the floor is
  physically too full. Meanwhile other robots work on other components, new vehicles are admitted and
  stored, and the vehicles of looped components are lifted and set down in any order at all. */
module Shuffle {
  import opened ParkingModels
  import opened MovementOrder

  datatype ShuffleComponent = ShuffleComponent(moves: seq<VehicleMove>, loop: bool)

  datatype Phase = Waiting | Carried | Placed

  /** `stored`: vehicles physically on a floor. `phase`: how far each planned move has got.
      `admitted`: vehicles accepted since the plan was committed, with the floor reserved for them. */
  datatype State = State(stored: Layout, phase: map<Ticket, Phase>, admitted: Layout)

  function MovesOf(comps: seq<ShuffleComponent>): (ms: seq<seq<VehicleMove>>)
    ensures |ms| == |comps| && forall c :: 0 <= c < |ms| ==> ms[c] == comps[c].moves
  {
    seq(|comps|, c requires 0 <= c < |comps| => comps[c].moves)
  }

  ghost function PlanOf(comps: seq<ShuffleComponent>): map<Ticket, VehicleMove> {
    IndexByTicket(Flatten(MovesOf(comps)))
  }

  /** What the planner, the movement order and the commit hand to the robots. */
  ghost predicate Runnable(initial: Layout, capacity: seq<int>, comps: seq<ShuffleComponent>) {
    && DistinctTickets(Flatten(MovesOf(comps)))
    && (forall id :: id in PlanOf(comps) ==> id in initial && PlanOf(comps)[id].from == initial[id].floor)
    && (forall id :: id in initial ==> initial[id].space > 0)
    && Fits(initial, capacity)
    && Fits(Planned(initial, PlanOf(comps)), capacity)
    && NoCrossing(MovesOf(comps))
    && (forall c :: 0 <= c < |comps| && !comps[c].loop ==> DeparturesFirst(comps[c].moves))
  }

  /** The planned layout and the vehicles admitted since: what the reservations add up to. */
  ghost function Target(initial: Layout, comps: seq<ShuffleComponent>, s: State): Layout {
    Planned(initial, PlanOf(comps)) + s.admitted
  }

  ghost predicate Init(initial: Layout, comps: seq<ShuffleComponent>, s: State) {
    && s.stored == initial
    && s.phase == (map id | id in PlanOf(comps) :: Waiting)
    && s.admitted == map[]
  }

  // ---------- Steps ----------

  predicate InComponent(comps: seq<ShuffleComponent>, c: nat, i: nat) {
    c < |comps| && i < |comps[c].moves|
  }

  /** In an acyclic component the next vehicle is lifted only when the ones before it are placed. */
  ghost predicate IsTurn(comps: seq<ShuffleComponent>, s: State, c: nat, i: nat)
    requires InComponent(comps, c, i)
  {
    comps[c].loop || forall j :: 0 <= j < i ==> PhaseOf(s.phase, comps[c].moves[j].ticket) == Placed
  }

  ghost function PhaseOf(phase: map<Ticket, Phase>, id: Ticket): Phase {
    if id in phase then phase[id] else Waiting
  }

  ghost predicate Lift(comps: seq<ShuffleComponent>, s: State, s': State, c: nat, i: nat) {
    && InComponent(comps, c, i) && IsTurn(comps, s, c, i)
    && var id := comps[c].moves[i].ticket;
    && PhaseOf(s.phase, id) == Waiting
    && s' == s.(stored := s.stored - {id}, phase := s.phase[id := Carried])
  }

  /** The condition a robot waits for before setting a vehicle down. */
  ghost predicate HasRoom(capacity: seq<int>, l: Layout, f: int, space: nat) {
    0 <= f < |capacity| && capacity[f] - Load(l, f) >= space
  }

  ghost predicate Drop(initial: Layout, capacity: seq<int>, comps: seq<ShuffleComponent>, s: State, s': State, c: nat, i: nat) {
    && InComponent(comps, c, i)
    && var move := comps[c].moves[i];
    && PhaseOf(s.phase, move.ticket) == Carried
    && move.ticket in initial
    && HasRoom(capacity, s.stored, move.to, initial[move.ticket].space)
    && s' == s.(stored := s.stored[move.ticket := Slot(move.to, initial[move.ticket].space)],
                phase := s.phase[move.ticket := Placed])
  }

  /** A new vehicle is accepted if the reservations leave room for it on some floor. */
  ghost predicate Admit(initial: Layout, capacity: seq<int>, comps: seq<ShuffleComponent>, s: State, s': State, id: Ticket, slot: Slot) {
    && id !in initial && id !in s.admitted
    && HasRoom(capacity, Target(initial, comps, s), slot.floor, slot.space)
    && s' == s.(admitted := s.admitted[id := slot])
  }

  ghost predicate Store(capacity: seq<int>, s: State, s': State, id: Ticket) {
    && id in s.admitted && id !in s.stored
    && HasRoom(capacity, s.stored, s.admitted[id].floor, s.admitted[id].space)
    && s' == s.(stored := s.stored[id := s.admitted[id]])
  }

  ghost predicate Next(initial: Layout, capacity: seq<int>, comps: seq<ShuffleComponent>, s: State, s': State) {
    || (exists c, i :: Lift(comps, s, s', c, i))
    || (exists c, i :: Drop(initial, capacity, comps, s, s', c, i))
    || (exists id, slot :: Admit(initial, capacity, comps, s, s', id, slot))
    || (exists id :: Store(capacity, s, s', id))
  }

  ghost predicate IsRun(initial: Layout, capacity: seq<int>, comps: seq<ShuffleComponent>, run: seq<State>) {
    && run != [] && Init(initial, comps, run[0])
    && (forall k :: 0 <= k < |run| - 1 ==> Next(initial, capacity, comps, run[k], run[k + 1]))
  }

  // ---------- The invariant ----------

  /** Where a vehicle that was there at the start is now. */
  ghost predicate Whereabouts(initial: Layout, comps: seq<ShuffleComponent>, stored: Layout, phase: map<Ticket, Phase>, id: Ticket)
    requires id in initial
  {
    if id !in PlanOf(comps) || PhaseOf(phase, id) == Waiting then
      id in stored && stored[id] == initial[id]
    else if PhaseOf(phase, id) == Carried then
      id !in stored
    else
      id in stored && stored[id] == Slot(PlanOf(comps)[id].to, initial[id].space)
  }

  ghost predicate AllAccountedFor(initial: Layout, comps: seq<ShuffleComponent>, stored: Layout, phase: map<Ticket, Phase>) {
    forall id :: id in initial ==> Whereabouts(initial, comps, stored, phase, id)
  }

  ghost predicate InOrder(comps: seq<ShuffleComponent>, phase: map<Ticket, Phase>) {
    forall c, i, j | 0 <= c < |comps| && !comps[c].loop && 0 <= i < j < |comps[c].moves| ::
      PhaseOf(phase, comps[c].moves[j].ticket) != Waiting ==> PhaseOf(phase, comps[c].moves[i].ticket) == Placed
  }

  ghost predicate Inv(initial: Layout, capacity: seq<int>, comps: seq<ShuffleComponent>, s: State) {
    && s.phase.Keys == PlanOf(comps).Keys
    && AllAccountedFor(initial, comps, s.stored, s.phase)
    && s.admitted.Keys !! initial.Keys
    && (forall id :: id in s.stored && id !in initial ==> id in s.admitted && s.stored[id] == s.admitted[id])
    && InOrder(comps, s.phase)
    && Fits(Target(initial, comps, s), capacity)
    && Fits(s.stored, capacity)
  }

  lemma InitInv(initial: Layout, capacity: seq<int>, comps: seq<ShuffleComponent>, s: State)
    requires Runnable(initial, capacity, comps) && Init(initial, comps, s)
    ensures Inv(initial, capacity, comps, s)
  {
    hide Load, Flatten, IndexByTicket;
    assert Target(initial, comps, s) == Planned(initial, PlanOf(comps));
  }

  /** Every move of every component is in the plan, under its own ticket. */
  lemma MovePlanned(comps: seq<ShuffleComponent>, c: nat, i: nat)
    requires DistinctTickets(Flatten(MovesOf(comps))) && InComponent(comps, c, i)
    ensures var m := comps[c].moves[i]; m.ticket in PlanOf(comps) && PlanOf(comps)[m.ticket] == m
  {
    hide Flatten, IndexByTicket;
    FlattenContains(MovesOf(comps));
    IndexByTicketOf(Flatten(MovesOf(comps)));
    assert comps[c].moves[i] in MovesOf(comps)[c];
  }

  lemma PlannedMove(comps: seq<ShuffleComponent>, id: Ticket) returns (c: nat, i: nat)
    requires DistinctTickets(Flatten(MovesOf(comps))) && id in PlanOf(comps)
    ensures InComponent(comps, c, i) && comps[c].moves[i] == PlanOf(comps)[id] && PlanOf(comps)[id].ticket == id
  {
    hide Flatten, IndexByTicket;
    FlattenContains(MovesOf(comps));
    IndexByTicketOf(Flatten(MovesOf(comps)));
    c :| 0 <= c < |comps| && PlanOf(comps)[id] in MovesOf(comps)[c];
    i :| 0 <= i < |comps[c].moves| && comps[c].moves[i] == PlanOf(comps)[id];
  }

  /** A vehicle still standing where it has to leave for an arrival of an acyclic component to fit
      cannot be: it would come earlier in the same component. */
  lemma NobodyStillToLeave(initial: Layout, capacity: seq<int>, comps: seq<ShuffleComponent>, s: State, c: nat, i: nat, id: Ticket)
    requires Runnable(initial, capacity, comps) && Inv(initial, capacity, comps, s)
    requires InComponent(comps, c, i) && !comps[c].loop && PhaseOf(s.phase, comps[c].moves[i].ticket) != Waiting
    requires id in PlanOf(comps) && PlanOf(comps)[id].from == comps[c].moves[i].to
    ensures PhaseOf(s.phase, id) != Waiting
  {
    hide Load, Flatten, IndexByTicket, Fits;
    var d, j := PlannedMove(comps, id);
    var departure, arrival := MovesOf(comps)[d][j], MovesOf(comps)[c][i];
    assert departure.from == arrival.to;
    assert d == c;
    if j != i {
      assert comps[c].moves[j].from == comps[c].moves[i].to;
      assert j < i;
    }
  }

  /** Once an arrival is due at a floor, all that stands there belongs there in the end. */
  lemma StoredBelongs(initial: Layout, capacity: seq<int>, comps: seq<ShuffleComponent>, s: State, c: nat, i: nat)
    requires Runnable(initial, capacity, comps) && Inv(initial, capacity, comps, s)
    requires InComponent(comps, c, i) && !comps[c].loop && PhaseOf(s.phase, comps[c].moves[i].ticket) != Waiting
    ensures forall id :: id in s.stored && s.stored[id].floor == comps[c].moves[i].to ==>
      id in Target(initial, comps, s) && Target(initial, comps, s)[id] == s.stored[id]
  {
    hide Load, Flatten, IndexByTicket, Fits;
    forall id | id in s.stored && s.stored[id].floor == comps[c].moves[i].to
      ensures id in Target(initial, comps, s) && Target(initial, comps, s)[id] == s.stored[id]
    {
      if id in PlanOf(comps) && PhaseOf(s.phase, id) == Waiting {
        assert Whereabouts(initial, comps, s.stored, s.phase, id);
        NobodyStillToLeave(initial, capacity, comps, s, c, i, id);
        assert false;
      }
    }
  }

  /** The wait never blocks: whenever a robot on an acyclic component is ready to set a vehicle down,
      the floor has room for it, whatever the other robots and new arrivals have done. */
  lemma NeverBlocks(initial: Layout, capacity: seq<int>, comps: seq<ShuffleComponent>, s: State, c: nat, i: nat)
    requires Runnable(initial, capacity, comps) && Inv(initial, capacity, comps, s)
    requires InComponent(comps, c, i) && !comps[c].loop && PhaseOf(s.phase, comps[c].moves[i].ticket) == Carried
    ensures comps[c].moves[i].ticket in initial
    ensures HasRoom(capacity, s.stored, comps[c].moves[i].to, initial[comps[c].moves[i].ticket].space)
  {
    hide Load, Flatten, IndexByTicket;
    var m := comps[c].moves[i];
    MovePlanned(comps, c, i);
    StoredBelongs(initial, capacity, comps, s, c, i);
    var target, after := Target(initial, comps, s), s.stored[m.ticket := Slot(m.to, initial[m.ticket].space)];
    assert target[m.ticket] == after[m.ticket];
    assert Whereabouts(initial, comps, s.stored, s.phase, m.ticket);
    LoadMono(after, target, m.to);
    LoadSet(s.stored, m.ticket, Slot(m.to, initial[m.ticket].space), m.to);
    SetNeedsSpace(initial, capacity, comps, s, m);
  }

  lemma SetNeedsSpace(initial: Layout, capacity: seq<int>, comps: seq<ShuffleComponent>, s: State, m: VehicleMove)
    requires Fits(Target(initial, comps, s), capacity)
    requires m.ticket in initial && m.ticket in PlanOf(comps) && PlanOf(comps)[m.ticket] == m && m.ticket !in s.admitted
    requires m.ticket !in s.stored
    requires Load(s.stored, m.to) + initial[m.ticket].space <= Load(Target(initial, comps, s), m.to)
    requires initial[m.ticket].space > 0
    ensures HasRoom(capacity, s.stored, m.to, initial[m.ticket].space)
  {
    hide Load, Flatten, IndexByTicket;
    assert m.ticket in Target(initial, comps, s) && Target(initial, comps, s)[m.ticket].floor == m.to;
  }

  // ---------- Every run ----------

  /** One vehicle goes to its next phase, and the others stay where they are. */
  lemma OthersStay(initial: Layout, comps: seq<ShuffleComponent>, s: State, s': State, id: Ticket)
    requires AllAccountedFor(initial, comps, s.stored, s.phase) && id in PlanOf(comps)
    requires id in initial && Whereabouts(initial, comps, s'.stored, s'.phase, id)
    requires forall x :: x != id ==> (x in s'.stored <==> x in s.stored) && (x in s'.phase <==> x in s.phase)
    requires forall x :: x != id && x in s.stored ==> s'.stored[x] == s.stored[x]
    requires forall x :: x != id && x in s.phase ==> s'.phase[x] == s.phase[x]
    ensures AllAccountedFor(initial, comps, s'.stored, s'.phase)
  {
    hide PlanOf;
    forall x | x in initial
      ensures Whereabouts(initial, comps, s'.stored, s'.phase, x)
    {
      assert Whereabouts(initial, comps, s.stored, s.phase, x);
    }
  }

  lemma LiftInv(initial: Layout, capacity: seq<int>, comps: seq<ShuffleComponent>, s: State, s': State, c: nat, i: nat)
    requires Runnable(initial, capacity, comps) && Inv(initial, capacity, comps, s) && Lift(comps, s, s', c, i)
    ensures Inv(initial, capacity, comps, s')
  {
    hide Load, Flatten, IndexByTicket, Planned, InOrder, Fits, PlanOf, DistinctTickets, NoCrossing, DeparturesFirst;
    MovePlanned(comps, c, i);
    var id := comps[c].moves[i].ticket;
    assert Whereabouts(initial, comps, s.stored, s.phase, id);
    OthersStay(initial, comps, s, s', id);
    PhaseStepInOrder(comps, s, s', c, i, Carried);
    StoredFits(s'.stored, s.stored, capacity);
  }

  lemma StoredFits(a: Layout, b: Layout, capacity: seq<int>)
    requires Fits(b, capacity) && forall id :: id in a ==> id in b && a[id] == b[id]
    ensures Fits(a, capacity)
  {
    hide Load;
    forall f
      ensures Load(a, f) <= Load(b, f)
    {
      LoadMono(a, b, f);
    }
  }

  /** Setting a vehicle down where there is room leaves every floor within capacity. */
  lemma RoomFits(l: Layout, id: Ticket, slot: Slot, capacity: seq<int>)
    requires Fits(l, capacity) && id !in l && HasRoom(capacity, l, slot.floor, slot.space)
    ensures Fits(l[id := slot], capacity)
  {
    hide Load;
    forall f
      ensures Load(l[id := slot], f) == Load(l, f) + SpaceOn(slot, f)
    {
      LoadSet(l, id, slot, f);
    }
  }

  lemma SameTicketSameMove(comps: seq<ShuffleComponent>, c: nat, i: nat, d: nat, j: nat)
    requires DistinctTickets(Flatten(MovesOf(comps))) && InComponent(comps, c, i) && InComponent(comps, d, j)
    ensures comps[c].moves[i].ticket == comps[d].moves[j].ticket ==> c == d && i == j
  {
    DistinctPositions(MovesOf(comps), c, i, d, j);
  }

  /** Advancing a move whose turn it is keeps every acyclic component in order. */
  lemma PhaseStepInOrder(comps: seq<ShuffleComponent>, s: State, s': State, c: nat, i: nat, ph: Phase)
    requires DistinctTickets(Flatten(MovesOf(comps))) && InOrder(comps, s.phase)
    requires InComponent(comps, c, i) && PhaseOf(s.phase, comps[c].moves[i].ticket) != Placed
    requires IsTurn(comps, s, c, i) || PhaseOf(s.phase, comps[c].moves[i].ticket) == Carried
    requires ph != Waiting && s'.phase == s.phase[comps[c].moves[i].ticket := ph]
    ensures InOrder(comps, s'.phase)
  {
    hide Flatten;
    forall d, j, k | 0 <= d < |comps| && !comps[d].loop && 0 <= j < k < |comps[d].moves|
      ensures PhaseOf(s'.phase, comps[d].moves[k].ticket) != Waiting ==> PhaseOf(s'.phase, comps[d].moves[j].ticket) == Placed
    {
      SameTicketSameMove(comps, c, i, d, j);
      SameTicketSameMove(comps, c, i, d, k);
      assert PhaseOf(s.phase, comps[d].moves[k].ticket) != Waiting ==> PhaseOf(s.phase, comps[d].moves[j].ticket) == Placed;
    }
  }

  lemma DropInv(initial: Layout, capacity: seq<int>, comps: seq<ShuffleComponent>, s: State, s': State, c: nat, i: nat)
    requires Runnable(initial, capacity, comps) && Inv(initial, capacity, comps, s)
    requires Drop(initial, capacity, comps, s, s', c, i)
    ensures Inv(initial, capacity, comps, s')
  {
    hide Load, Flatten, IndexByTicket, Planned, InOrder, Fits, PlanOf, DistinctTickets, NoCrossing, DeparturesFirst;
    MovePlanned(comps, c, i);
    var move := comps[c].moves[i];
    assert Whereabouts(initial, comps, s.stored, s.phase, move.ticket);
    OthersStay(initial, comps, s, s', move.ticket);
    PhaseStepInOrder(comps, s, s', c, i, Placed);
    RoomFits(s.stored, move.ticket, Slot(move.to, initial[move.ticket].space), capacity);
  }

  lemma NotTargeted(initial: Layout, comps: seq<ShuffleComponent>, s: State, id: Ticket)
    requires id !in initial && id !in s.admitted
    ensures id !in Target(initial, comps, s)
  {
    hide PlanOf;
  }

  lemma AdmitInv(initial: Layout, capacity: seq<int>, comps: seq<ShuffleComponent>, s: State, s': State, id: Ticket, slot: Slot)
    requires Runnable(initial, capacity, comps) && Inv(initial, capacity, comps, s)
    requires Admit(initial, capacity, comps, s, s', id, slot)
    ensures Inv(initial, capacity, comps, s')
  {
    hide Load, Flatten, IndexByTicket, InOrder, AllAccountedFor, Fits, Planned, PlanOf;
    var target := Target(initial, comps, s);
    assert Target(initial, comps, s') == target[id := slot];
    NotTargeted(initial, comps, s, id);
    RoomFits(target, id, slot, capacity);
  }

  lemma StoreInv(initial: Layout, capacity: seq<int>, comps: seq<ShuffleComponent>, s: State, s': State, id: Ticket)
    requires Runnable(initial, capacity, comps) && Inv(initial, capacity, comps, s) && Store(capacity, s, s', id)
    ensures Inv(initial, capacity, comps, s')
  {
    hide Load, Flatten, IndexByTicket, Planned, InOrder, Fits, PlanOf, DistinctTickets, NoCrossing, DeparturesFirst;
    RoomFits(s.stored, id, s.admitted[id], capacity);
    forall x | x in initial
      ensures Whereabouts(initial, comps, s'.stored, s'.phase, x)
    {
      assert Whereabouts(initial, comps, s.stored, s.phase, x);
    }
  }

  lemma NextInv(initial: Layout, capacity: seq<int>, comps: seq<ShuffleComponent>, s: State, s': State)
    requires Runnable(initial, capacity, comps) && Inv(initial, capacity, comps, s) && Next(initial, capacity, comps, s, s')
    ensures Inv(initial, capacity, comps, s')
  {
    hide Inv, Runnable, Lift, Drop, Admit, Store;
    if c, i :| Lift(comps, s, s', c, i) {
      LiftInv(initial, capacity, comps, s, s', c, i);
    } else if c, i :| Drop(initial, capacity, comps, s, s', c, i) {
      DropInv(initial, capacity, comps, s, s', c, i);
    } else if id, slot :| Admit(initial, capacity, comps, s, s', id, slot) {
      AdmitInv(initial, capacity, comps, s, s', id, slot);
    } else {
      var id :| Store(capacity, s, s', id);
      StoreInv(initial, capacity, comps, s, s', id);
    }
  }

  lemma {:induction false} RunInv(initial: Layout, capacity: seq<int>, comps: seq<ShuffleComponent>, run: seq<State>, k: nat)
    requires Runnable(initial, capacity, comps) && IsRun(initial, capacity, comps, run) && k < |run|
    ensures Inv(initial, capacity, comps, run[k])
  {
    hide Inv, Runnable, Next;
    if k == 0 {
      InitInv(initial, capacity, comps, run[0]);
    } else {
      RunInv(initial, capacity, comps, run, k - 1);
      assert Next(initial, capacity, comps, run[k - 1], run[k - 1 + 1]);
      NextInv(initial, capacity, comps, run[k - 1], run[k]);
    }
  }

  /** In every state of every run no floor is over capacity, and an acyclic component that is not
      finished can go on: either its next vehicle can be lifted or the carried one has room. */
  lemma RunsNeverBlock(initial: Layout, capacity: seq<int>, comps: seq<ShuffleComponent>, run: seq<State>, k: nat)
    requires Runnable(initial, capacity, comps) && IsRun(initial, capacity, comps, run) && k < |run|
    ensures Fits(run[k].stored, capacity)
    ensures forall c :: 0 <= c < |comps| && !comps[c].loop && !Finished(run[k], comps[c]) ==>
      CanGoOn(initial, capacity, comps, run[k], c)
  {
    hide Load, Flatten, IndexByTicket;
    RunInv(initial, capacity, comps, run, k);
    forall c | 0 <= c < |comps| && !comps[c].loop && !Finished(run[k], comps[c])
      ensures CanGoOn(initial, capacity, comps, run[k], c)
    {
      GoOn(initial, capacity, comps, run[k], c);
    }
  }

  ghost predicate Finished(s: State, comp: ShuffleComponent) {
    forall i :: 0 <= i < |comp.moves| ==> PhaseOf(s.phase, comp.moves[i].ticket) == Placed
  }

  ghost predicate CanGoOn(initial: Layout, capacity: seq<int>, comps: seq<ShuffleComponent>, s: State, c: nat) {
    exists i, s' :: Lift(comps, s, s', c, i) || Drop(initial, capacity, comps, s, s', c, i)
  }

  lemma GoOn(initial: Layout, capacity: seq<int>, comps: seq<ShuffleComponent>, s: State, c: nat)
    requires Runnable(initial, capacity, comps) && Inv(initial, capacity, comps, s)
    requires c < |comps| && !comps[c].loop && !Finished(s, comps[c])
    ensures CanGoOn(initial, capacity, comps, s, c)
  {
    hide Load, Flatten, IndexByTicket, Runnable, Inv;
    var i := FirstUnplaced(s, comps[c]);
    var move := comps[c].moves[i];
    if PhaseOf(s.phase, move.ticket) == Waiting {
      assert Lift(comps, s, s.(stored := s.stored - {move.ticket}, phase := s.phase[move.ticket := Carried]), c, i);
    } else {
      NeverBlocks(initial, capacity, comps, s, c, i);
      var s' := s.(stored := s.stored[move.ticket := Slot(move.to, initial[move.ticket].space)],
                   phase := s.phase[move.ticket := Placed]);
      assert Drop(initial, capacity, comps, s, s', c, i);
    }
  }

  lemma FirstUnplaced(s: State, comp: ShuffleComponent) returns (i: nat)
    requires !Finished(s, comp)
    ensures i < |comp.moves| && PhaseOf(s.phase, comp.moves[i].ticket) != Placed
    ensures forall j :: 0 <= j < i ==> PhaseOf(s.phase, comp.moves[j].ticket) == Placed
  {
    i := 0;
    while PhaseOf(s.phase, comp.moves[i].ticket) == Placed
      invariant i < |comp.moves|
      invariant forall j :: 0 <= j < i ==> PhaseOf(s.phase, comp.moves[j].ticket) == Placed
      decreases |comp.moves| - i
    {
      if i + 1 == |comp.moves| {
        assert Finished(s, comp);
      }
      i := i + 1;
    }
  }

  /** When every move is placed and every admitted vehicle stored, the facility is exactly as reserved. */
  lemma EndsAsPlanned(initial: Layout, capacity: seq<int>, comps: seq<ShuffleComponent>, s: State)
    requires Runnable(initial, capacity, comps) && Inv(initial, capacity, comps, s)
    requires forall c :: 0 <= c < |comps| ==> Finished(s, comps[c])
    requires forall id :: id in s.admitted ==> id in s.stored
    ensures s.stored == Target(initial, comps, s)
  {
    hide Load, Flatten, IndexByTicket, Fits;
    var target := Target(initial, comps, s);
    forall id | id in target
      ensures id in s.stored && s.stored[id] == target[id]
    {
      if id in initial {
        assert Whereabouts(initial, comps, s.stored, s.phase, id);
        if id in PlanOf(comps) {
          var c, i := PlannedMove(comps, id);
          assert Finished(s, comps[c]);
        }
      }
    }
  }

  ghost predicate SomeArrival(comps: seq<ShuffleComponent>, s: State, f: int) {
    exists c: nat, i: nat :: InComponent(comps, c, i) && comps[c].moves[i].to == f
                             && PhaseOf(s.phase, comps[c].moves[i].ticket) == Placed
  }

  lemma ArrivalOf(comps: seq<ShuffleComponent>, s: State, id: Ticket)
    requires DistinctTickets(Flatten(MovesOf(comps))) && id in PlanOf(comps) && PhaseOf(s.phase, id) == Placed
    ensures SomeArrival(comps, s, PlanOf(comps)[id].to)
  {
    var c, i := PlannedMove(comps, id);
    assert InComponent(comps, c, i);
  }

  /** Floors are never fuller than before or after: a floor that no looped component moves to and no
      new vehicle is admitted to carries at most the larger of its initial and its planned load. */
  lemma NoFullerThanBeforeOrAfter(initial: Layout, capacity: seq<int>, comps: seq<ShuffleComponent>, s: State, f: int)
    requires Runnable(initial, capacity, comps) && Inv(initial, capacity, comps, s)
    requires forall c: nat, i: nat :: InComponent(comps, c, i) && comps[c].loop ==> comps[c].moves[i].to != f
    requires forall id :: id in s.admitted ==> s.admitted[id].floor != f
    ensures Load(s.stored, f) <= Load(initial, f) || Load(s.stored, f) <= Load(Planned(initial, PlanOf(comps)), f)
  {
    hide Load, Flatten, IndexByTicket, Fits;
    if SomeArrival(comps, s, f) {
      var c: nat, i: nat :| InComponent(comps, c, i) && comps[c].moves[i].to == f && PhaseOf(s.phase, comps[c].moves[i].ticket) == Placed;
      StoredBelongs(initial, capacity, comps, s, c, i);
      LoadMono(s.stored, Planned(initial, PlanOf(comps)), f);
    } else {
      forall id | id in s.stored && s.stored[id].floor == f
        ensures id in initial && s.stored[id] == initial[id]
      {
        assert id in initial ==> Whereabouts(initial, comps, s.stored, s.phase, id);
        if id in initial && id in PlanOf(comps) && PhaseOf(s.phase, id) == Placed {
          ArrivalOf(comps, s, id);
          assert false;
        }
      }
      LoadMono(s.stored, initial, f);
    }
  }
}
