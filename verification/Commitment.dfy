/** Committing a blueprint moves the reservations one vehicle at a time: how full the floors may look
  between the first and the last move. */
module Commitment {
  import opened Options
  import opened ParkingModels
  import opened Packing
  import opened MovementOrder
  import opened RearrangementPlanners
  import opened Balancing

  /** The layout when the first `k` moves have been committed. */
  ghost function Midway(active: Layout, order: MovementOrder, k: nat): Layout
    requires k <= |Flatten(order.moves)|
  {
    Planned(active, IndexByTicket(Flatten(order.moves)[..k]))
  }

  /** An order that BuildMovementOrder gives for moves from where the vehicles are to other floors. */
  ghost predicate Ordered(active: Layout, order: MovementOrder) {
    && NoCrossing(order.moves) && ComponentsOrdered(order) && DistinctTickets(Flatten(order.moves))
    && forall m :: m in Flatten(order.moves) ==> m.ticket in active && m.from == active[m.ticket].floor && m.from != m.to
  }

  ghost predicate NoCircularArrival(order: MovementOrder, f: int)
    requires |order.loop| == |order.moves|
  {
    forall c, i :: 0 <= c < |order.moves| && 0 <= i < |order.moves[c]| && order.moves[c][i].to == f ==> !order.loop[c]
  }

  lemma {:induction false} FlatPositionGrows(moves: seq<seq<VehicleMove>>, c: nat, i: nat, j: nat)
    requires c < |moves| && i < j
    ensures FlatPosition(moves, c, i) < FlatPosition(moves, c, j)
    decreases |moves|
  {
    if c < |moves| - 1 {
      FlatPositionGrows(moves[..|moves| - 1], c, i, j);
    }
  }

  lemma {:induction false} FlatPositionExists(moves: seq<seq<VehicleMove>>, k: nat) returns (c: nat, i: nat)
    requires k < |Flatten(moves)|
    ensures c < |moves| && i < |moves[c]| && FlatPosition(moves, c, i) == k
  {
    var front := moves[..|moves| - 1];
    if k < |Flatten(front)| {
      c, i := FlatPositionExists(front, k);
    } else {
      c, i := |moves| - 1, k - |Flatten(front)|;
    }
  }

  /** All departures from a floor are committed before the first arrival there. */
  lemma DepartsBefore(active: Layout, order: MovementOrder, f: int, a: nat, b: nat)
    requires Ordered(active, order) && NoCircularArrival(order, f)
    requires a < |Flatten(order.moves)| && b < |Flatten(order.moves)|
    requires Flatten(order.moves)[a].to == f == Flatten(order.moves)[b].from
    ensures b < a
  {
    hide Flatten, FlatPosition, Circular;
    assert Flatten(order.moves)[a] in Flatten(order.moves);
    var c, i := FlatPositionExists(order.moves, a);
    var d, j := FlatPositionExists(order.moves, b);
    FlatPositionOf(order.moves, c, i);
    FlatPositionOf(order.moves, d, j);
    assert c == d && i != j;
    FlatPositionGrows(order.moves, c, j, i);
  }

  /** Once something has arrived on such a floor, the vehicles there are among those that end there. */
  lemma AfterFirstArrival(active: Layout, order: MovementOrder, f: int, k: nat, a: nat)
    requires Ordered(active, order) && NoCircularArrival(order, f) && a < k <= |Flatten(order.moves)|
    requires Flatten(order.moves)[a].to == f
    ensures var l, final := Midway(active, order, k), Midway(active, order, |Flatten(order.moves)|);
            forall id :: id in l && l[id].floor == f ==> final[id] == l[id]
  {
    hide Flatten, NoCrossing, ComponentsOrdered, IndexByTicket, NoCircularArrival;
    var all := Flatten(order.moves);
    var done := all[..k];
    assert all[..|all|] == all;
    IndexByTicketOf(done);
    IndexByTicketOf(all);
    assert forall m :: m in done ==> m in all;
    forall id | id in IndexByTicket(all) && IndexByTicket(all)[id].from == f
      ensures id in IndexByTicket(done)
    {
      var b :| 0 <= b < |all| && all[b] == IndexByTicket(all)[id];
      DepartsBefore(active, order, f, a, b);
      assert done[b] == all[b] && done[b] in done;
    }
  }

  /** As long as nothing has arrived on a floor, the vehicles there are among those that were there. */
  lemma BeforeFirstArrival(active: Layout, order: MovementOrder, f: int, k: nat)
    requires k <= |Flatten(order.moves)| && forall a :: 0 <= a < k ==> Flatten(order.moves)[a].to != f
    ensures var l := Midway(active, order, k); forall id :: id in l && l[id].floor == f ==> active[id] == l[id]
  {
    hide Flatten, IndexByTicket;
    var done := Flatten(order.moves)[..k];
    IndexByTicketOf(done);
    forall m | m in done
      ensures m.to != f
    {
      var a :| 0 <= a < k && done[a] == m;
      assert Flatten(order.moves)[a] == m;
    }
  }

  /** However far the commit has come, a floor at which no circular component arrives is never fuller
      than it was before or will be after. */
  lemma NeverFullerMidway(active: Layout, order: MovementOrder, f: int, k: nat)
    requires Ordered(active, order) && NoCircularArrival(order, f) && k <= |Flatten(order.moves)|
    ensures var before, after := Load(active, f), Load(Midway(active, order, |Flatten(order.moves)|), f);
            Load(Midway(active, order, k), f) <= if before > after then before else after
  {
    hide Load, Flatten, Ordered, NoCircularArrival, IndexByTicket;
    var l := Midway(active, order, k);
    if a :| 0 <= a < k && Flatten(order.moves)[a].to == f {
      AfterFirstArrival(active, order, f, k, a);
      LoadMono(l, Midway(active, order, |Flatten(order.moves)|), f);
    } else {
      BeforeFirstArrival(active, order, f, k);
      LoadMono(l, active, f);
    }
  }

  // ---------- Exactly the circular orders may overfill a floor ----------

  /** The same vehicles on the same floors, of whatever sizes. */
  ghost predicate SameFloors(l: Layout, active: Layout) {
    l.Keys == active.Keys && forall id :: id in l ==> l[id].floor == active[id].floor
  }

  /** Midway, floor `f` is fuller than both before and after. */
  ghost predicate OverfillsAt(l: Layout, order: MovementOrder, f: int, k: nat) {
    && k <= |Flatten(order.moves)|
    && Load(Midway(l, order, k), f) > Load(l, f)
    && Load(Midway(l, order, k), f) > Load(Midway(l, order, |Flatten(order.moves)|), f)
  }

  ghost predicate MayOverfill(active: Layout, order: MovementOrder) {
    exists l, f, k :: SameFloors(l, active) && OverfillsAt(l, order, f, k)
  }

  lemma {:induction false} Rising(c: seq<nat>, k: nat)
    requires k < |c| && forall i :: 0 <= i < k ==> c[i] < c[i + 1]
    ensures c[0] <= c[k]
  {
    if k > 0 {
      Rising(c, k - 1);
    }
  }

  /** Whatever order its moves are in, a circular component has an arrival before a departure there. */
  lemma ArrivalFirst(comp: seq<VehicleMove>) returns (i: nat, j: nat)
    requires Circular(comp)
    ensures i < j < |comp| && comp[i].to == comp[j].from
  {
    var c: seq<nat> :| CircularVia(comp, c);
    if k :| 0 <= k < |c| - 1 && c[k] > c[k + 1] {
      return c[k + 1], c[k];
    }
    Rising(c, |c| - 1);
    return c[0], c[|c| - 1];
  }

  lemma {:induction false} LightLoad(l: Layout, f: int)
    requires forall id :: id in l && l[id].floor == f ==> l[id].space <= 1
    ensures Load(l, f) <= |l|
    decreases |l|
  {
    if |l| > 0 {
      var id := AnyTicket(l);
      LoadRemove(l, id, f);
      LightLoad(l - {id}, f);
    }
  }

  lemma OneHeavy(l: Layout, id: Ticket, f: int)
    requires id in l && forall x :: x in l && x != id && l[x].floor == f ==> l[x].space <= 1
    ensures Load(l, f) < |l| + SpaceOn(l[id], f)
  {
    hide Load;
    LoadRemove(l, id, f);
    LightLoad(l - {id}, f);
  }

  lemma TwoHeavy(l: Layout, x: Ticket, y: Ticket, f: int)
    requires x in l && y in l && x != y && l[x].floor == f == l[y].floor
    ensures Load(l, f) >= l[x].space + l[y].space
  {
    hide Load;
    LoadRemove(l, x, f);
    LoadRemove(l - {x}, y, f);
  }

  /** Two of the vehicles outweigh all the others together. */
  ghost function Weighted(active: Layout, x: Ticket, y: Ticket): Layout {
    map id | id in active :: Slot(active[id].floor, if id == x || id == y then |active| + 1 else 1)
  }

  lemma WeightedSize(active: Layout, x: Ticket, y: Ticket, plan: map<Ticket, VehicleMove>)
    ensures |Weighted(active, x, y)| == |active| && |Planned(Weighted(active, x, y), plan)| == |active|
  {
    assert Weighted(active, x, y).Keys == active.Keys;
    assert Planned(Weighted(active, x, y), plan).Keys == active.Keys;
  }

  /** Where the moves at `a` and `b` have got to when the first `a + 1` moves are committed, and at the end. */
  lemma TwoMoves(all: seq<VehicleMove>, a: nat, b: nat)
    requires DistinctTickets(all) && a < b < |all|
    ensures all[a].ticket != all[b].ticket
    ensures var done := IndexByTicket(all[..a + 1]);
            all[a].ticket in done && done[all[a].ticket] == all[a] && all[b].ticket !in done
    ensures var plan := IndexByTicket(all);
            all[a].ticket in plan && plan[all[a].ticket] == all[a] && all[b].ticket in plan && plan[all[b].ticket] == all[b]
  {
    IndexByTicketOf(all[..a + 1]);
    IndexByTicketOf(all);
    assert all[..a + 1][a] == all[a] && all[a] in all[..a + 1];
  }

  lemma BothThere(l: Layout, x: Ticket, y: Ticket, done: map<Ticket, VehicleMove>, m: VehicleMove)
    requires x in l && y in l && x in done && done[x] == m && y !in done && l[y].floor == m.to
    ensures var mid := Planned(l, done);
            && x in mid && y in mid && mid[x] == Slot(m.to, l[x].space) && mid[y] == l[y]
  {
  }

  /** With sizes chosen for it, an arrival committed before a departure overfills their floor in between. */
  lemma OverfillsBetween(active: Layout, order: MovementOrder, a: nat, b: nat)
    requires Ordered(active, order) && a < b < |Flatten(order.moves)|
    requires Flatten(order.moves)[a].to == Flatten(order.moves)[b].from
    ensures MayOverfill(active, order)
  {
    hide Load, Flatten, NoCrossing, ComponentsOrdered, IndexByTicket, DistinctTickets;
    var all := Flatten(order.moves);
    var x, y, f := all[a].ticket, all[b].ticket, all[a].to;
    assert all[a] in all && all[b] in all && all[..|all|] == all;
    TwoMoves(all, a, b);
    var l := Weighted(active, x, y);
    var mid, final := Midway(l, order, a + 1), Midway(l, order, |all|);
    WeightedSize(active, x, y, IndexByTicket(all));
    BothThere(l, x, y, IndexByTicket(all[..a + 1]), all[a]);
    TwoHeavy(mid, x, y, f);
    OneHeavy(l, y, f);
    OneHeavy(final, x, f);
    assert SameFloors(l, active) && OverfillsAt(l, order, f, a + 1);
  }

  lemma CircularOverfills(active: Layout, order: MovementOrder, c: nat)
    requires Ordered(active, order) && c < |order.loop| && order.loop[c]
    ensures MayOverfill(active, order)
  {
    hide Flatten, FlatPosition, MayOverfill, NoCrossing;
    assert Circular(order.moves[c]);
    hide Circular;
    var i, j := ArrivalFirst(order.moves[c]);
    FlatPositionOf(order.moves, c, i);
    FlatPositionOf(order.moves, c, j);
    FlatPositionGrows(order.moves, c, i, j);
    OverfillsBetween(active, order, FlatPosition(order.moves, c, i), FlatPosition(order.moves, c, j));
  }

  /** Committing an order can make some floor fuller than it was before and will be after, for some sizes
      of its vehicles, if and only if the order has a component marked as a loop. */
  lemma OverfillsIffLoop(active: Layout, order: MovementOrder)
    requires Ordered(active, order)
    ensures MayOverfill(active, order) <==> exists c :: 0 <= c < |order.loop| && order.loop[c]
  {
    hide Load, Flatten, Midway;
    if c :| 0 <= c < |order.loop| && order.loop[c] {
      CircularOverfills(active, order, c);
    } else if l, f, k :| SameFloors(l, active) && OverfillsAt(l, order, f, k) {
      NeverFullerMidway(l, order, f, k);
    }
  }

  function Exchange(a: Ticket, b: Ticket): MovementOrder {
    MovementOrder([[VehicleMove(a, 0, 1), VehicleMove(b, 1, 0)]], [true])
  }

  /** With sizes as they are, too: two full floors that exchange their vehicles fit before and after, but
      not in between; and the load balancer hands over this exchange when it takes vehicle `b` first. */
  lemma ExchangeOverfills(a: Ticket, b: Ticket)
    requires a != b
    ensures var active, order := map[a := Slot(0, 2), b := Slot(1, 2)], Exchange(a, b);
            && Ordered(active, order) && |Flatten(order.moves)| == 2
            && Fits(active, [2, 2]) && !Fits(Midway(active, order, 1), [2, 2])
            && ValidPlan(active, [2, 2], Flatten(order.moves))
            && IsBalanceOf([2, 2], active, [SizedVehicle(b, 2), SizedVehicle(a, 2)], Some(Flatten(order.moves)))
  {
    hide Load, Flatten, IndexByTicket, Ordered, Fits, Balance;
    var active, order := map[a := Slot(0, 2), b := Slot(1, 2)], Exchange(a, b);
    ExchangeIsOrdered(a, b);
    var m, n := VehicleMove(a, 0, 1), VehicleMove(b, 1, 0);
    assert [m, n][..1] == [m];
    IndexOfOneOrTwo(m, n);
    var final := map[a := Slot(1, 2), b := Slot(0, 2)];
    assert Midway(active, order, 1) == map[a := Slot(1, 2), b := Slot(1, 2)];
    assert Planned(active, IndexByTicket([m, n])) == final;
    TwoVehicles(a, b, 0, 1);
    TwoVehicles(a, b, 1, 1);
    TwoVehicles(a, b, 1, 0);
    assert IsPlan(active, final, [m, n]);
    ExchangeBalanced(a, b);
  }

  lemma ExchangeBalanced(a: Ticket, b: Ticket)
    requires a != b
    ensures Balance([2, 2], [SizedVehicle(b, 2), SizedVehicle(a, 2)]) == Some(map[a := Slot(1, 2), b := Slot(0, 2)])
    ensures Lists([SizedVehicle(b, 2), SizedVehicle(a, 2)], map[a := Slot(0, 2), b := Slot(1, 2)])
  {
    hide Balance, Load, Loads, SelectedFloor;
    var v, w := SizedVehicle(b, 2), SizedVehicle(a, 2);
    assert [v][..0] == [] && [v, w][..1] == [v];
    BalanceNothing([2, 2]);
    LastTaken([2, 2], [v]);
    LastTaken([2, 2], [v, w]);
    LoadsOfOne(b);
    LowestFirst();
    assert map[b := Slot(0, 2)][a := Slot(1, 2)] == map[a := Slot(1, 2), b := Slot(0, 2)];
  }

  lemma LowestFirst()
    ensures SelectedFloor([2, 2], [0, 0], 2, 2) == 0 && SelectedFloor([2, 2], [2, 0], 2, 2) == 1
  {
    hide SelectedFloor;
    assert [2, 2][0] == 2 && [2, 0][0] == 2 && [2, 0][1] == 0;
  }

  lemma BalanceNothing(capacity: seq<int>)
    ensures Balance(capacity, []) == Some(map[])
  {
  }

  lemma LoadsOfOne(b: Ticket)
    ensures Loads(map[], 0, 2) == [0, 0] && Loads(map[b := Slot(0, 2)], 0, 2) == [2, 0]
  {
    var l := map[b := Slot(0, 2)];
    hide Loads;
    LoadRemove(l, b, 0);
    LoadRemove(l, b, 1);
    assert l - {b} == map[];
    assert Loads(l, 0, 2)[0] == 2 && Loads(l, 0, 2)[1] == 0;
    assert Loads(map[], 0, 2)[0] == 0 && Loads(map[], 0, 2)[1] == 0;
  }

  lemma IndexOfOneOrTwo(m: VehicleMove, n: VehicleMove)
    ensures IndexByTicket([m]) == map[m.ticket := m]
    ensures IndexByTicket([m, n]) == map[m.ticket := m][n.ticket := n]
  {
    assert [m][..0] == [] && [m, n][..1] == [m];
    assert IndexByTicket([]) == map[];
  }

  lemma ExchangeIsOrdered(a: Ticket, b: Ticket)
    requires a != b
    ensures Ordered(map[a := Slot(0, 2), b := Slot(1, 2)], Exchange(a, b))
    ensures Flatten(Exchange(a, b).moves) == [VehicleMove(a, 0, 1), VehicleMove(b, 1, 0)]
  {
    hide Flatten, Circular;
    var comp := [VehicleMove(a, 0, 1), VehicleMove(b, 1, 0)];
    FlattenOne(comp);
    ExchangeIsCircular(comp);
  }

  lemma FlattenOne(comp: seq<VehicleMove>)
    ensures Flatten([comp]) == comp
  {
    assert [comp][..0] == [];
  }

  lemma ExchangeIsCircular(comp: seq<VehicleMove>)
    requires |comp| == 2 && comp[0].from == comp[1].to && comp[1].from == comp[0].to
    ensures Circular(comp)
  {
    assert CircularVia(comp, [0, 1]);
  }

  lemma LoadOfTwo(a: Ticket, b: Ticket, x: int, y: int, f: int)
    requires a != b
    ensures Load(map[a := Slot(x, 2), b := Slot(y, 2)], f) == (if x == f then 2 else 0) + if y == f then 2 else 0
  {
    var l := map[a := Slot(x, 2), b := Slot(y, 2)];
    LoadRemove(l, a, f);
    LoadRemove(l - {a}, b, f);
    assert l - {a} - {b} == map[];
  }

  lemma TwoVehicles(a: Ticket, b: Ticket, x: int, y: int)
    requires a != b && 0 <= x <= 1 && 0 <= y <= 1
    ensures Fits(map[a := Slot(x, 2), b := Slot(y, 2)], [2, 2]) <==> x != y
  {
    hide Load;
    LoadOfTwo(a, b, x, y, 0);
    LoadOfTwo(a, b, x, y, 1);
  }
}
