/** The LOOK discipline on sets of requests: what one call for the next request may answer, and what a
  whole drain of the pending requests costs. */
module LookSchedule {
  import opened RequestHeaps

  /** Requests to serve on the way up and on the way down, and the current sweep. */
  datatype Plan = Plan(up: set<Request>, down: set<Request>, sweep: Direction)

  function All(p: Plan): set<Request> {
    p.up + p.down
  }

  predicate Sound(p: Plan) {
    p.up !! p.down && p.sweep != Idle
  }

  /** A new request waits with its direction's side; one that is pending already changes nothing. */
  function Added(p: Plan, r: Request): Plan {
    if r in All(p) then p
    else if r.direction == Down then p.(down := p.down + {r})
    else p.(up := p.up + {r})
  }

  /** Requests below the car wait for the way down, those above it for the way up; those at the car's
      floor stay where they are. */
  function Rebucketed(p: Plan, car: int): Plan {
    Plan((set r | r in All(p) && (r.floor > car || (r.floor == car && r in p.up))),
         (set r | r in All(p) && (r.floor < car || (r.floor == car && r in p.down))),
         p.sweep)
  }

  function Lowered(p: Plan, car: int): Plan {
    var passed := set r | r in p.up && r.floor < car;
    Plan(p.up - passed, p.down + passed, p.sweep)
  }

  function Raised(p: Plan, car: int): Plan {
    var passed := set r | r in p.down && r.floor > car;
    Plan(p.up + passed, p.down - passed, p.sweep)
  }

  /** One pass over each heap is enough. */
  lemma TwoPasses(p: Plan, car: int)
    requires Sound(p)
    ensures Raised(Lowered(p, car), car) == Rebucketed(p, car) && Sound(Lowered(p, car))
  {
  }

  ghost predicate Bucketed(p: Plan, car: int) {
    (forall r :: r in p.up ==> r.floor >= car) && (forall r :: r in p.down ==> r.floor <= car)
  }

  /** The sweep turns when its side is empty. */
  function Heading(p: Plan): Direction {
    if p.sweep == Up then (if p.up != {} then Up else Down) else (if p.down != {} then Down else Up)
  }

  /** With the car at `car`, the call may answer `r` and leave `q`. */
  ghost predicate Serves(p: Plan, car: int, r: Request, q: Plan) {
    var b := Rebucketed(p, car);
    if Heading(b) == Up then
      r in b.up && (forall x :: x in b.up ==> r.floor <= x.floor) && q == Plan(b.up - {r}, b.down, Up)
    else
      r in b.down && (forall x :: x in b.down ==> x.floor <= r.floor) && q == Plan(b.up, b.down - {r}, Down)
  }

  lemma RebucketedKeeps(p: Plan, car: int)
    requires Sound(p)
    ensures Bucketed(Rebucketed(p, car), car) && Sound(Rebucketed(p, car)) && All(Rebucketed(p, car)) == All(p)
  {
  }

  lemma BucketedStays(p: Plan, car: int)
    requires Sound(p) && Bucketed(p, car)
    ensures Rebucketed(p, car) == p
  {
  }

  ghost predicate StrictlyBetween(a: int, x: int, b: int) {
    a < x < b || b < x < a
  }

  ghost predicate StrictlyAhead(sweep: Direction, car: int, floor: int) {
    if sweep == Up then floor > car else floor < car
  }

  /** One call serves one pending request, skips none on its way, and turns the sweep only when nothing
      is ahead; afterwards all is in its place for the car at the served floor. */
  lemma NextIsNearestAhead(p: Plan, car: int, r: Request, q: Plan)
    requires Sound(p) && Serves(p, car, r, q)
    ensures r in All(p) && All(q) == All(p) - {r} && Sound(q) && Bucketed(q, r.floor)
    ensures forall x :: x in All(p) ==> !StrictlyBetween(car, x.floor, r.floor)
    ensures q.sweep != p.sweep ==> forall x :: x in All(p) ==> !StrictlyAhead(p.sweep, car, x.floor)
    ensures r.floor != car ==> StrictlyAhead(q.sweep, car, r.floor)
  {
    RebucketedKeeps(p, car);
  }

  function SweepSide(p: Plan): set<Request> {
    if p.sweep == Up then p.up else p.down
  }

  /** With a request pending at the car's own floor: the next stop is there exactly if one of those there
      waits for this sweep, or nothing lies ahead; one that waits for the way back is passed over while
      there is anything ahead. */
  lemma AtTheDoor(p: Plan, car: int, here: Request, next: Request, q: Plan)
    requires Sound(p) && Serves(p, car, next, q) && here in All(p) && here.floor == car
    ensures next.floor == car <==>
      (exists x :: x in SweepSide(p) && x.floor == car) || forall x :: x in All(p) ==> !StrictlyAhead(p.sweep, car, x.floor)
    ensures here !in SweepSide(p) && next == here ==>
      forall x :: x in All(p) ==> !StrictlyAhead(p.sweep, car, x.floor)
    ensures next.floor == car && q.sweep == p.sweep ==> next in SweepSide(p)
  {
    var b := Rebucketed(p, car);
    assert here in All(b);
    assert forall x :: x in SweepSide(b) <==>
      x in All(p) && (StrictlyAhead(p.sweep, car, x.floor) || (x.floor == car && x in SweepSide(p)));
  }

  // ---------- A whole drain ----------

  function Abs(x: int): nat {
    if x < 0 then -x else x
  }

  /** Where the car is after serving these requests. */
  function CarAfter(car: int, served: seq<Request>): int {
    if served == [] then car else served[|served| - 1].floor
  }

  function Travel(car: int, served: seq<Request>): nat {
    if served == [] then 0
    else
      var earlier := served[..|served| - 1];
      Travel(car, earlier) + Abs(served[|served| - 1].floor - CarAfter(car, earlier))
  }

  /** Calls that answered `served`, each with the car where the one before took it, turning `turns` times. */
  ghost predicate Drains(p: Plan, car: int, served: seq<Request>, turns: nat, q: Plan)
    decreases |served|, 1
  {
    if served == [] then q == p && turns == 0
    else exists m: Plan, k: nat :: DrainsVia(p, car, served, turns, q, m, k)
  }

  ghost predicate DrainsVia(p: Plan, car: int, served: seq<Request>, turns: nat, q: Plan, m: Plan, k: nat)
    requires served != []
    decreases |served|, 0
  {
    var earlier, r := served[..|served| - 1], served[|served| - 1];
    && Drains(p, car, earlier, k, m) && Serves(m, CarAfter(car, earlier), r, q)
    && turns == k + (if q.sweep != m.sweep then 1 else 0)
  }

  lemma DrainsNothing(p: Plan, car: int)
    ensures Drains(p, car, [], 0, p) && CarAfter(car, []) == car
  {
  }

  lemma DrainsOn(p: Plan, car: int, served: seq<Request>, turns: nat, m: Plan, r: Request, q: Plan)
    requires Drains(p, car, served, turns, m) && Serves(m, CarAfter(car, served), r, q)
    ensures Drains(p, car, served + [r], turns + (if q.sweep != m.sweep then 1 else 0), q)
    ensures CarAfter(car, served + [r]) == r.floor
  {
    assert (served + [r])[..|served|] == served;
    assert DrainsVia(p, car, served + [r], turns + (if q.sweep != m.sweep then 1 else 0), q, m, turns);
  }

  ghost function Served(served: seq<Request>): set<Request> {
    set r | r in served
  }

  ghost predicate Within(p: Plan, car: int, lo: int, hi: int) {
    lo <= car <= hi && forall r :: r in All(p) ==> lo <= r.floor <= hi
  }

  /** The way still to go: to the end of this sweep, and all the way back if the other side has requests. */
  ghost function WayLeft(p: Plan, car: int, lo: int, hi: int): int {
    if p.sweep == Up then hi - car + (if p.down != {} then hi - lo else 0)
    else car - lo + (if p.up != {} then hi - lo else 0)
  }

  ghost function TurnsLeft(p: Plan): nat {
    if (if p.sweep == Up then p.down else p.up) != {} then 1 else 0
  }

  lemma ServesPays(p: Plan, car: int, r: Request, q: Plan, lo: int, hi: int)
    requires Sound(p) && Serves(p, car, r, q) && Within(p, car, lo, hi)
    ensures Within(q, r.floor, lo, hi) && Rebucketed(q, r.floor) == q
    ensures Abs(r.floor - car) + WayLeft(q, r.floor, lo, hi) <= WayLeft(Rebucketed(p, car), car, lo, hi)
    ensures (if q.sweep != p.sweep then 1 else 0) + TurnsLeft(q) <= TurnsLeft(Rebucketed(p, car))
  {
    NextIsNearestAhead(p, car, r, q);
    BucketedStays(q, r.floor);
    RebucketedKeeps(p, car);
    assert r in All(p);
  }

  lemma ServedGrows(served: seq<Request>)
    requires served != []
    ensures var earlier, r := served[..|served| - 1], served[|served| - 1];
            Served(served) == Served(earlier) + {r} && (r !in Served(earlier) ==> |Served(served)| == |Served(earlier)| + 1)
  {
    assert served == served[..|served| - 1] + [served[|served| - 1]];
  }

  lemma OneTaken(all: set<Request>, taken: set<Request>, r: Request)
    requires taken <= all && r in all - taken
    ensures taken + {r} <= all && all - taken - {r} == all - (taken + {r})
  {
  }

  lemma {:induction false} DrainKeeps(p: Plan, car: int, served: seq<Request>, turns: nat, q: Plan)
    requires Sound(p) && Drains(p, car, served, turns, q)
    ensures Sound(q) && Served(served) <= All(p) && All(q) == All(p) - Served(served) && |served| == |Served(served)|
  {
    if served == [] {
      assert Served(served) == {};
    } else {
      hide Serves, Sound, Served, All;
      var m: Plan, k: nat :| DrainsVia(p, car, served, turns, q, m, k);
      var earlier, r := served[..|served| - 1], served[|served| - 1];
      DrainKeeps(p, car, earlier, k, m);
      NextIsNearestAhead(m, CarAfter(car, earlier), r, q);
      ServedGrows(served);
      OneTaken(All(p), Served(earlier), r);
    }
  }

  lemma {:induction false} DrainPays(p: Plan, car: int, served: seq<Request>, turns: nat, q: Plan, lo: int, hi: int)
    requires Sound(p) && Drains(p, car, served, turns, q) && Within(p, car, lo, hi)
    ensures var last := CarAfter(car, served);
            && Within(q, last, lo, hi)
            && Travel(car, served) + WayLeft(Rebucketed(q, last), last, lo, hi) <= WayLeft(Rebucketed(p, car), car, lo, hi)
            && turns + TurnsLeft(Rebucketed(q, last)) <= TurnsLeft(Rebucketed(p, car))
  {
    if served != [] {
      hide Serves, Sound, Rebucketed, WayLeft, TurnsLeft, Within;
      var m: Plan, k: nat :| DrainsVia(p, car, served, turns, q, m, k);
      var earlier, r := served[..|served| - 1], served[|served| - 1];
      DrainPays(p, car, earlier, k, m, lo, hi);
      DrainKeeps(p, car, earlier, k, m);
      ServesPays(m, CarAfter(car, earlier), r, q, lo, hi);
    }
  }

  /** Draining without new arrivals: every pending request is served exactly once, the sweep turns at
      most once, and the car travels at most twice the span of its own and the pending floors. */
  lemma LookDrain(p: Plan, car: int, served: seq<Request>, turns: nat, q: Plan, lo: int, hi: int)
    requires Sound(p) && Drains(p, car, served, turns, q) && All(q) == {} && Within(p, car, lo, hi)
    ensures Served(served) == All(p) && |served| == |All(p)|
    ensures turns <= 1 && Travel(car, served) <= 2 * (hi - lo)
  {
    DrainKeeps(p, car, served, turns, q);
    DrainPays(p, car, served, turns, q, lo, hi);
  }

  lemma LookDrains(p: Plan, car: int, served: seq<Request>, turns: nat, q: Plan)
    requires Sound(p) && Drains(p, car, served, turns, q) && All(q) == {}
    ensures Served(served) == All(p) && |served| == |All(p)| && turns <= 1
    ensures forall lo, hi :: Within(p, car, lo, hi) ==> Travel(car, served) <= 2 * (hi - lo)
  {
    hide Drains, Within;
    var lo, hi := SomeSpan(All(p), car);
    SpanIsWithin(p, car, lo, hi);
    LookDrain(p, car, served, turns, q, lo, hi);
    forall lo, hi | Within(p, car, lo, hi)
      ensures Travel(car, served) <= 2 * (hi - lo)
    {
      LookDrain(p, car, served, turns, q, lo, hi);
    }
  }

  lemma {:induction false} SomeSpan(rs: set<Request>, car: int) returns (lo: int, hi: int)
    ensures lo <= car <= hi && forall r :: r in rs ==> lo <= r.floor <= hi
  {
    if rs == {} {
      return car, car;
    }
    var r :| r in rs;
    lo, hi := SomeSpan(rs - {r}, car);
    assert forall x :: x in rs ==> x == r || x in rs - {r};
    lo, hi := if r.floor < lo then r.floor else lo, if r.floor > hi then r.floor else hi;
  }

  lemma SpanIsWithin(p: Plan, car: int, lo: int, hi: int)
    requires lo <= car <= hi && forall r :: r in All(p) ==> lo <= r.floor <= hi
    ensures Within(p, car, lo, hi)
  {
  }
}
