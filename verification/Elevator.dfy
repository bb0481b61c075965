/** The directional scheduler over two request heaps, and the elevator that follows it. */
module Elevators {
  import opened Options
  import opened RequestHeaps
  import opened LookSchedule
  import opened ElevatorRuns

  ghost function Requests(s: seq<Request>): (rs: set<Request>)
    ensures forall r :: r in rs <==> r in s
  {
    set r | r in s
  }

  ghost predicate NoDuplicates(s: seq<Request>) {
    forall r :: r in s ==> multiset(s)[r] == 1
  }

  lemma Pushed(s: seq<Request>, t: seq<Request>, x: Request)
    requires NoDuplicates(s) && x !in s && multiset(t) == multiset(s) + multiset{x}
    ensures NoDuplicates(t) && Requests(t) == Requests(s) + {x}
    ensures forall r :: r in t <==> r in s || r == x
  {
    assert forall r :: r in t <==> r in multiset(t);
    assert forall r :: r in s <==> r in multiset(s);
  }

  lemma Popped(s: seq<Request>, t: seq<Request>, x: Request)
    requires NoDuplicates(s) && x in s && multiset(t) == multiset(s) - multiset{x}
    ensures NoDuplicates(t) && x !in t && Requests(t) == Requests(s) - {x}
  {
    assert forall r :: r in t <==> r in multiset(t);
    assert forall r :: r in s <==> r in multiset(s);
  }

  /** Pops the first request of one heap and pushes it on the other. */
  method MoveFirst(from: RequestHeap, to: RequestHeap)
    requires from != to && from.Valid() && to.Valid() && from.store != [] && from.store[0] !in to.store
    requires NoDuplicates(from.store) && NoDuplicates(to.store)
    modifies from, to
    ensures from.Valid() && to.Valid() && NoDuplicates(from.store) && NoDuplicates(to.store)
    ensures Requests(from.store) == old(Requests(from.store)) - {old(from.store)[0]}
    ensures Requests(to.store) == old(Requests(to.store)) + {old(from.store)[0]}
    ensures |from.store| == |old(from.store)| - 1
  {
    hide NoDuplicates, Requests;
    ghost var s := from.store;
    var x := from.Pop();
    Popped(s, from.store, x);
    PushNew(to, x);
  }

  method PushNew(heap: RequestHeap, x: Request)
    requires heap.Valid() && NoDuplicates(heap.store) && x !in heap.store
    modifies heap
    ensures heap.Valid() && NoDuplicates(heap.store)
    ensures Requests(heap.store) == old(Requests(heap.store)) + {x}
    ensures forall r :: r in heap.store <==> r in old(heap.store) || r == x
  {
    hide NoDuplicates, Requests;
    ghost var s := heap.store;
    heap.Push(x);
    Pushed(s, heap.store, x);
  }

  function Opposite(d: Direction): Direction {
    if d == Up then Down else Up
  }

  class Directional {
    const up: RequestHeap
    const down: RequestHeap
    var sweep: Direction
    var pending: set<Request>

    /** Each pending request is in one of the heaps, once. */
    ghost predicate Valid()
      reads this, up, down
    {
      && up != down && up.Valid() && down.Valid() && !up.highestFirst && down.highestFirst
      && NoDuplicates(up.store) && NoDuplicates(down.store)
      && Sound(Schedule()) && All(Schedule()) == pending
    }

    ghost function Schedule(): Plan
      reads this, up, down
    {
      Plan(Requests(up.store), Requests(down.store), sweep)
    }

    constructor ()
      ensures Valid() && Schedule() == Plan({}, {}, Up) && pending == {} && fresh(up) && fresh(down)
    {
      up := new RequestHeap(false);
      down := new RequestHeap(true);
      sweep := Up;
      pending := {};
    }

    /** A new request waits for the way down if that is its direction and for the way up if not; nothing
        else changes, and nothing at all if the request is pending already. */
    twostate predicate Joins(request: Request)
      reads this, up, down
    {
      && (forall x :: x in down.store <==>
            x in old(down.store) || (x == request && x.direction == Down && x !in old(pending)))
      && (forall x :: x in up.store <==>
            x in old(up.store) || (x == request && x.direction != Down && x !in old(pending)))
      && sweep == old(sweep)
    }

    method AddRequest(request: Request)
      requires Valid()
      modifies this, up, down
      ensures Valid() && pending == old(pending) + {request}
      ensures Schedule() == Added(old(Schedule()), request) && Joins(request)
    {
      hide NoDuplicates, Requests;
      if request in pending {
        return;
      }
      pending := pending + {request};
      if request.direction == Down {
        PushNew(down, request);
      } else {
        PushNew(up, request);
      }
    }

    /** A request at the floor where the car stands is answered at once if it goes with the sweep; if it
        goes against the sweep, only when nothing lies ahead. */
    method AskAtTheDoor(request: Request, floor: int) returns (next: Request)
      requires Valid() && request !in pending && request.floor == floor
      modifies this, up, down
      ensures Valid() && pending == old(pending) + {request} - {next}
      ensures (request.direction == Down <==> old(sweep) == Down) ==> next.floor == floor
      ensures !(request.direction == Down <==> old(sweep) == Down) && next == request ==>
        forall x :: x in old(pending) ==> !StrictlyAhead(old(sweep), floor, x.floor)
      ensures (forall x :: x in old(pending) ==> !StrictlyAhead(old(sweep), floor, x.floor)) ==> next.floor == floor
    {
      hide NoDuplicates, Serves;
      AddRequest(request);
      ghost var p := Schedule();
      var answer := NextRequest(floor);
      next := answer.value;
      AtTheDoor(p, floor, request, next, Schedule());
    }

    /** Moves the requests that the car has left behind to the other heap. */
    method Rebucket(floor: int)
      requires Valid()
      modifies up, down
      ensures Valid() && Schedule() == Rebucketed(old(Schedule()), floor)
    {
      hide NoDuplicates, Requests, Lowered, Raised, Rebucketed;
      TwoPasses(Schedule(), floor);
      Lower(floor);
      Raise(floor);
    }

    method Lower(floor: int)
      requires Valid()
      modifies up, down
      ensures Valid() && Schedule() == Lowered(old(Schedule()), floor)
    {
      hide NoDuplicates, Requests;
      ghost var was := Schedule();
      ghost var moved: set<Request> := {};
      while |up.store| > 0 && up.store[0].floor < floor
        invariant Valid() && moved <= was.up && (forall r :: r in moved ==> r.floor < floor)
        invariant Schedule() == Plan(was.up - moved, was.down + moved, was.sweep)
        decreases |up.store|
      {
        moved := moved + {up.store[0]};
        MoveFirst(up, down);
      }
      if |up.store| > 0 {
        up.RootFirst();
      }
      assert moved == set r | r in was.up && r.floor < floor;
    }

    method Raise(floor: int)
      requires Valid()
      modifies up, down
      ensures Valid() && Schedule() == Raised(old(Schedule()), floor)
    {
      hide NoDuplicates, Requests;
      ghost var was := Schedule();
      ghost var moved: set<Request> := {};
      while |down.store| > 0 && down.store[0].floor > floor
        invariant Valid() && moved <= was.down && (forall r :: r in moved ==> r.floor > floor)
        invariant Schedule() == Plan(was.up + moved, was.down - moved, was.sweep)
        decreases |down.store|
      {
        moved := moved + {down.store[0]};
        MoveFirst(down, up);
      }
      if |down.store| > 0 {
        down.RootFirst();
      }
      assert moved == set r | r in was.down && r.floor > floor;
    }

    /** The next request for a car at this floor. */
    method NextRequest(floor: int) returns (next: Option<Request>)
      requires Valid()
      modifies this, up, down
      ensures Valid() && (next.None? <==> old(pending) == {})
      ensures next.None? ==> Schedule() == old(Schedule()) && pending == {}
      ensures next.Some? ==> Serves(old(Schedule()), floor, next.value, Schedule()) && pending == old(pending) - {next.value}
    {
      hide NoDuplicates, Requests, Rebucketed;
      ghost var was := Schedule();
      RebucketedKeeps(was, floor);
      Rebucket(floor);
      ghost var b := Schedule();
      for turn := 0 to 2
        invariant Valid() && Schedule() == b.(sweep := if turn == 1 then Opposite(b.sweep) else b.sweep)
        invariant turn > 0 ==> (if b.sweep == Up then b.up else b.down) == {}
        invariant turn > 1 ==> All(b) == {}
      {
        if sweep == Up && |up.store| > 0 {
          var r := TakeFirst(up, down);
          return Some(r);
        }
        if sweep == Down && |down.store| > 0 {
          var r := TakeFirst(down, up);
          return Some(r);
        }
        sweep := Opposite(sweep);
      }
      assert b == was;
      return None;
    }

    /** Pops the first request of one of the heaps; it is pending no more. */
    method TakeFirst(from: RequestHeap, ghost other: RequestHeap) returns (r: Request)
      requires Valid() && from.store != [] && ((from == up && other == down) || (from == down && other == up))
      modifies `pending, from
      ensures Valid() && pending == old(pending) - {r} && r in old(from.store)
      ensures forall x :: x in old(from.store) ==> if from.highestFirst then x.floor <= r.floor else r.floor <= x.floor
      ensures Requests(from.store) == old(Requests(from.store)) - {r}
    {
      hide NoDuplicates, Requests;
      ghost var s := from.store;
      r := from.Pop();
      Popped(s, from.store, r);
      pending := pending - {r};
    }

    /** The heaps together hold the pending requests, each of them once. */
    lemma HeapsArePending()
      requires Valid()
      ensures multiset(up.store) + multiset(down.store) == multiset(pending)
    {
      assert forall r :: r in up.store <==> r in multiset(up.store);
      assert forall r :: r in down.store <==> r in multiset(down.store);
    }
  }

  /** A call is for an existing floor, and not off either end of the shaft. */
  predicate BoundaryChecks(floor: int, direction: Direction, totalFloors: int) {
    1 <= floor <= totalFloors && !(floor == 1 && direction == Down) && !(floor == totalFloors && direction == Up)
  }

  class ElevatorSystem {
    const floors: int
    const strategy: Directional
    var currentFloor: int
    var direction: Direction
    /** Whether a token waits in the one-slot channel of the processor. */
    var workCh: bool
    /** Where the protocol of the callers and the processor stands. */
    ghost var world: World

    ghost predicate Valid()
      reads this, strategy, strategy.up, strategy.down
    {
      && strategy.Valid() && Reachable(floors, world)
      && world.plan == strategy.Schedule() && world.car == currentFloor && world.token == workCh
    }

    constructor (floors: int)
      ensures Valid() && world == BEGIN && strategy.pending == {} && currentFloor == 1 && !workCh && this.floors == floors
    {
      this.floors := floors;
      strategy := new Directional();
      currentFloor := 1;
      direction := Idle;
      workCh := false;
      world := BEGIN;
      new;
      BeginReachable(floors);
    }

    /** The wake-up guarantee, and that the car never leaves the shaft. */
    lemma AlwaysTrue()
      requires Valid()
      ensures world.processor.Asleep? && strategy.pending != {} ==> workCh || world.signalling != {}
      ensures currentFloor == 1 || 1 <= currentFloor <= floors
      ensures forall r :: r in strategy.pending ==> 1 <= r.floor <= floors
      ensures world.accepted == world.served + OnTheWay(world.processor) + multiset(strategy.pending)
    {
      ReachableInv(floors, world);
    }

    ghost method Take(e: Event)
      requires Reachable(floors, world) && Enabled(floors, world, e)
      modifies `world
      ensures Reachable(floors, world) && world == Do(old(world), e)
    {
      StepReachable(floors, world, e);
      world := Do(world, e);
    }

    // ---------- Callers ----------

    /** The first of a caller's two steps: the request becomes pending. */
    method Ask(request: Request, ghost caller: Caller)
      requires Valid() && caller !in world.signalling && 1 <= request.floor <= floors
      modifies `world, strategy, strategy.up, strategy.down
      ensures Valid() && world == Do(old(world), Event.Ask(caller, request))
      ensures strategy.Joins(request)
    {
      strategy.AddRequest(request);
      Take(Event.Ask(caller, request));
    }

    /** The second: a token, unless one is waiting. */
    method SignalWork(ghost caller: Caller)
      requires Valid() && caller in world.signalling
      modifies `workCh, `world
      ensures Valid() && world == Do(old(world), Signal(caller))
    {
      Take(Signal(caller));
      if !workCh {
        workCh := true;
      }
    }

    /** A call, when nothing comes between its two steps. */
    method Call(floor: int, direction: Direction, ghost caller: Caller) returns (ok: bool)
      requires Valid() && caller !in world.signalling
      modifies `workCh, `world, strategy, strategy.up, strategy.down
      ensures Valid() && (ok <==> 1 <= floor <= floors && (floor == 1 ==> direction != Down) && (floor == floors ==> direction != Up))
      ensures !ok ==> world == old(world)
      ensures ok ==> world == Do(Do(old(world), Event.Ask(caller, Request(floor, direction, External))), Signal(caller))
      ensures ok ==> strategy.Joins(Request(floor, direction, External)) && workCh
    {
      if !BoundaryChecks(floor, direction, floors) {
        return false;
      }
      Ask(Request(floor, direction, External), caller);
      SignalWork(caller);
      return true;
    }

    /** A floor chosen inside the car; its side follows from where the car is now. */
    method SelectFloor(floor: int, ghost caller: Caller) returns (ok: bool)
      requires Valid() && caller !in world.signalling
      modifies `workCh, `world, strategy, strategy.up, strategy.down
      ensures Valid() && ok == (1 <= floor <= floors)
      ensures !ok ==> world == old(world)
      ensures var request := Request(floor, if floor < currentFloor then Down else Up, Internal);
              ok ==> world == Do(Do(old(world), Event.Ask(caller, request)), Signal(caller)) && strategy.Joins(request) && workCh
    {
      if floor < 1 || floor > floors {
        return false;
      }
      var dir := Up;
      if floor < currentFloor {
        dir := Down;
      }
      Ask(Request(floor, dir, Internal), caller);
      SignalWork(caller);
      return true;
    }

    // ---------- The processor ----------

    method WakeUp()
      requires Valid() && world.processor.Asleep? && workCh
      modifies `workCh, `world
      ensures Valid() && world == Do(old(world), Wake)
    {
      Take(Wake);
      workCh := false;
    }

    /** Takes the next request, or goes back to sleep if there is none. */
    method ChooseNext() returns (next: Option<Request>)
      requires Valid() && world.processor.Choosing?
      modifies `world, strategy, strategy.up, strategy.down
      ensures Valid() && (next.None? <==> old(strategy.pending) == {})
      ensures next.None? ==> strategy.Schedule() == old(strategy.Schedule()) && world == Do(old(world), Sleep)
      ensures next.Some? ==> Serves(old(strategy.Schedule()), currentFloor, next.value, strategy.Schedule())
      ensures next.Some? ==> next.value in old(strategy.pending) && strategy.pending == old(strategy.pending) - {next.value}
      ensures next.Some? ==> world == Do(old(world), Choose(next.value, strategy.Schedule()))
    {
      hide Serves, Requests, NoDuplicates, Reachable;
      ghost var was := strategy.Schedule();
      next := strategy.NextRequest(currentFloor);
      if next.Some? {
        TakenFrom(was, currentFloor, next.value, strategy.Schedule());
        Take(Choose(next.value, strategy.Schedule()));
      } else {
        Take(Sleep);
      }
    }

    /** One floor nearer to the request on its way. */
    method PassOneFloor(step: int)
      requires Valid() && world.processor.Moving? && world.processor.request.floor != currentFloor
      requires step == if world.processor.request.floor < currentFloor then -1 else 1
      modifies `currentFloor, `world
      ensures Valid() && currentFloor == old(currentFloor) + step && world == Do(old(world), PassFloor)
    {
      Take(PassFloor);
      currentFloor := currentFloor + step;
    }

    /** Goes floor by floor; a shutdown seen after some steps stops the car where it is. */
    method MoveTo(toFloor: int, shutdownAfter: Option<nat>) returns (arrived: bool)
      requires Valid() && world.processor.Moving? && world.processor.request.floor == toFloor
      modifies `currentFloor, `direction, `world
      ensures Valid()
      ensures arrived <==> shutdownAfter.None? || Abs(toFloor - old(currentFloor)) <= shutdownAfter.value
      ensures arrived ==> currentFloor == toFloor && direction == Idle && world == Do(old(world).(car := toFloor), Arrive)
      ensures !arrived ==> Abs(currentFloor - old(currentFloor)) == shutdownAfter.value && world == old(world).(car := currentFloor)
      ensures !arrived ==> StrictlyBetween(old(currentFloor), currentFloor, toFloor) || currentFloor == old(currentFloor)
    {
      hide Reachable;
      var distance := toFloor - currentFloor;
      var step := 0;
      if distance < 0 {
        direction := Down;
        step := -1;
        distance := -distance;
      } else if distance > 0 {
        step := 1;
        direction := Up;
      } else {
        direction := Idle;
      }
      for i := 0 to distance
        invariant Valid() && world == old(world).(car := currentFloor)
        invariant currentFloor == old(currentFloor) + i * step
        invariant shutdownAfter.Some? ==> i <= shutdownAfter.value
      {
        if shutdownAfter == Some(i) {
          return false;
        }
        PassOneFloor(step);
      }
      direction := Idle;
      Take(Arrive);
      return true;
    }

    /** Takes the next request and goes there. */
    method ServeNext() returns (next: Option<Request>)
      requires Valid() && world.processor.Choosing?
      modifies `currentFloor, `direction, `world, strategy, strategy.up, strategy.down
      ensures Valid() && (next.None? <==> old(strategy.pending) == {})
      ensures next.None? ==> strategy.Schedule() == old(strategy.Schedule()) && strategy.pending == {} && currentFloor == old(currentFloor)
      ensures next.None? ==> world.processor.Asleep?
      ensures next.Some? ==> Serves(old(strategy.Schedule()), old(currentFloor), next.value, strategy.Schedule())
      ensures next.Some? ==> next.value in old(strategy.pending) && strategy.pending == old(strategy.pending) - {next.value}
      ensures next.Some? ==> currentFloor == next.value.floor && world.processor.Choosing?
    {
      hide Serves, Requests, NoDuplicates, Reachable;
      next := ChooseNext();
      if next.Some? {
        var arrived := MoveTo(next.value.floor, None);
      }
    }

    /** The processor's work after a wake-up, when nothing else arrives and no shutdown comes: every
        pending request is served once, with at most one turn and at most twice the span of way. */
    method Serve() returns (served: seq<Request>, ghost turns: nat)
      requires Valid() && world.processor.Choosing?
      modifies `currentFloor, `direction, `world, strategy, strategy.up, strategy.down
      ensures Valid() && strategy.pending == {} && currentFloor == CarAfter(old(currentFloor), served) && world.processor.Asleep?
      ensures Served(served) == old(strategy.pending) && |served| == |old(strategy.pending)| && turns <= 1
      ensures forall lo, hi :: Within(old(strategy.Schedule()), old(currentFloor), lo, hi) ==> Travel(old(currentFloor), served) <= 2 * (hi - lo)
    {
      hide Serves, Drains, Requests, NoDuplicates, CarAfter, Within, Travel, Served, Reachable;
      ghost var start, car := strategy.Schedule(), currentFloor;
      served, turns := ServeAll();
      LookDrains(start, car, served, turns, strategy.Schedule());
    }

    method ServeAll() returns (served: seq<Request>, ghost turns: nat)
      requires Valid() && world.processor.Choosing?
      modifies `currentFloor, `direction, `world, strategy, strategy.up, strategy.down
      ensures Valid() && strategy.pending == {} && currentFloor == CarAfter(old(currentFloor), served) && world.processor.Asleep?
      ensures Drains(old(strategy.Schedule()), old(currentFloor), served, turns, strategy.Schedule())
    {
      hide Serves, Drains, DrainsVia, Sound, Requests, NoDuplicates, CarAfter, Reachable;
      served, turns := [], 0;
      DrainsNothing(strategy.Schedule(), currentFloor);
      ghost var start, car := strategy.Schedule(), currentFloor;
      while true
        invariant Valid() && currentFloor == CarAfter(car, served) && world.processor.Choosing?
        invariant Drains(start, car, served, turns, strategy.Schedule())
        decreases strategy.pending
      {
        ghost var m := strategy.Schedule();
        var next := ServeNext();
        if next.None? {
          return;
        }
        DrainsOn(start, car, served, turns, m, next.value, strategy.Schedule());
        served, turns := served + [next.value], turns + if strategy.sweep != m.sweep then 1 else 0;
      }
    }
  }
}
