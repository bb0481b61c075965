/** The elevator's callers and its processor as a protocol: adding a request and signalling are separate
  steps, the wake-up channel has one slot, and the car moves floor by floor. Runs end at a shutdown. */
module ElevatorRuns {
  import opened RequestHeaps
  import opened LookSchedule

  type Caller = nat

  datatype Processor = Asleep | Choosing | Moving(request: Request)

  /** `signalling` are the callers between their AddRequest and their signal. `accepted` counts the
      requests that were not pending already, `served` those that the car has gone to. */
  datatype World = World(
    plan: Plan, car: int, token: bool, signalling: set<Caller>, processor: Processor,
    accepted: multiset<Request>, served: multiset<Request>)

  const BEGIN := World(Plan({}, {}, Up), 1, false, {}, Asleep, multiset{}, multiset{})

  datatype Event =
    | Ask(caller: Caller, request: Request)
    | Signal(caller: Caller)
    | Wake
    | Choose(chosen: Request, next: Plan)
    | Sleep
    | PassFloor
    | Arrive

  ghost predicate Enabled(floors: int, w: World, e: Event) {
    match e
    case Ask(caller, request) => caller !in w.signalling && 1 <= request.floor <= floors
    case Signal(caller) => caller in w.signalling
    case Wake => w.processor.Asleep? && w.token
    case Choose(chosen, next) => w.processor.Choosing? && Serves(w.plan, w.car, chosen, next)
    case Sleep => w.processor.Choosing? && All(w.plan) == {}
    case PassFloor => w.processor.Moving? && w.car != w.processor.request.floor
    case Arrive => w.processor.Moving? && w.car == w.processor.request.floor
  }

  function Do(w: World, e: Event): World {
    match e
    case Ask(caller, request) =>
      w.(plan := Added(w.plan, request), signalling := w.signalling + {caller},
         accepted := if request in All(w.plan) then w.accepted else w.accepted + multiset{request})
    case Signal(caller) => w.(signalling := w.signalling - {caller}, token := true)
    case Wake => w.(token := false, processor := Choosing)
    case Choose(chosen, next) => w.(plan := next, processor := Moving(chosen))
    case Sleep => w.(processor := Asleep)
    case PassFloor => w.(car := if w.processor.Moving? && w.processor.request.floor < w.car then w.car - 1 else w.car + 1)
    case Arrive =>
      if w.processor.Moving? then w.(processor := Choosing, served := w.served + multiset{w.processor.request}) else w
  }

  ghost predicate IsRun(floors: int, worlds: seq<World>, events: seq<Event>) {
    && |worlds| == |events| + 1 && worlds[0] == BEGIN
    && forall i :: 0 <= i < |events| ==> Step(floors, worlds, events, i)
  }

  ghost predicate Step(floors: int, worlds: seq<World>, events: seq<Event>, i: nat)
    requires i < |events| && |worlds| == |events| + 1
  {
    Enabled(floors, worlds[i], events[i]) && worlds[i + 1] == Do(worlds[i], events[i])
  }

  function OnTheWay(p: Processor): multiset<Request> {
    if p.Moving? then multiset{p.request} else multiset{}
  }

  /** Every accepted request is pending, on the way or served, as often as it was accepted. */
  ghost predicate Conserved(w: World) {
    w.accepted == w.served + OnTheWay(w.processor) + multiset(All(w.plan))
  }

  ghost predicate InShaft(floors: int, w: World) {
    && (w.car == 1 || 1 <= w.car <= floors)
    && (w.processor.Moving? ==> 1 <= w.processor.request.floor <= floors)
    && forall r :: r in All(w.plan) ==> 1 <= r.floor <= floors
  }

  /** While requests are pending, a sleeping processor has a token waiting or a caller about to signal. */
  ghost predicate WakeUpComing(w: World) {
    w.processor.Asleep? && All(w.plan) != {} ==> w.token || w.signalling != {}
  }

  ghost predicate Inv(floors: int, w: World) {
    Sound(w.plan) && Conserved(w) && InShaft(floors, w) && WakeUpComing(w)
  }

  lemma AddedContent(p: Plan, r: Request)
    requires Sound(p)
    ensures Sound(Added(p, r)) && All(Added(p, r)) == All(p) + {r}
    ensures r !in All(p) ==> multiset(All(Added(p, r))) == multiset(All(p)) + multiset{r}
  {
    assert All(Added(p, r)) == All(p) + {r};
  }

  lemma OneOut(all: set<Request>, r: Request)
    requires r in all
    ensures multiset(all) == multiset(all - {r}) + multiset{r}
  {
  }

  lemma ConservedStep(floors: int, w: World, e: Event)
    requires Inv(floors, w) && Enabled(floors, w, e)
    ensures Conserved(Do(w, e))
  {
    hide Sound, Serves, Added, All, InShaft, WakeUpComing;
    match e
    case Ask(_, request) =>
      AddedContent(w.plan, request);
    case Choose(chosen, next) =>
      TakenFrom(w.plan, w.car, chosen, next);
      OneOut(All(w.plan), chosen);
    case _ =>
  }

  lemma InShaftStep(floors: int, w: World, e: Event)
    requires Inv(floors, w) && Enabled(floors, w, e)
    ensures InShaft(floors, Do(w, e)) && Sound(Do(w, e).plan)
  {
    hide Sound, Serves, Added, All, Conserved, WakeUpComing;
    match e
    case Ask(_, request) =>
      AddedContent(w.plan, request);
    case Choose(chosen, next) =>
      TakenFrom(w.plan, w.car, chosen, next);
    case _ =>
  }

  lemma TakenFrom(p: Plan, car: int, r: Request, q: Plan)
    requires Sound(p) && Serves(p, car, r, q)
    ensures Sound(q) && r in All(p) && All(q) == All(p) - {r}
  {
    NextIsNearestAhead(p, car, r, q);
  }

  lemma StepKeepsInv(floors: int, w: World, e: Event)
    requires Inv(floors, w) && Enabled(floors, w, e)
    ensures Inv(floors, Do(w, e))
  {
    hide Sound, Serves, Added, All, Conserved, InShaft;
    ConservedStep(floors, w, e);
    InShaftStep(floors, w, e);
  }

  lemma {:induction false} RunKeepsInv(floors: int, worlds: seq<World>, events: seq<Event>, i: nat)
    requires IsRun(floors, worlds, events) && i <= |events|
    ensures Inv(floors, worlds[i])
  {
    if i > 0 {
      hide Inv, Do, Enabled;
      RunKeepsInv(floors, worlds, events, i - 1);
      assert Step(floors, worlds, events, i - 1);
      StepKeepsInv(floors, worlds[i - 1], events[i - 1]);
    } else {
      assert multiset(All(BEGIN.plan)) == multiset{};
    }
  }

  /** Some run leads to this world. */
  ghost predicate Reachable(floors: int, w: World) {
    exists worlds, events :: LeadsTo(floors, worlds, events, w)
  }

  ghost predicate LeadsTo(floors: int, worlds: seq<World>, events: seq<Event>, w: World) {
    IsRun(floors, worlds, events) && worlds[|events|] == w
  }

  lemma BeginReachable(floors: int)
    ensures Reachable(floors, BEGIN)
  {
    assert LeadsTo(floors, [BEGIN], [], BEGIN);
  }

  lemma StepReachable(floors: int, w: World, e: Event)
    requires Reachable(floors, w) && Enabled(floors, w, e)
    ensures Reachable(floors, Do(w, e))
  {
    hide Do, Enabled;
    var worlds, events :| LeadsTo(floors, worlds, events, w);
    var ws, es := worlds + [Do(w, e)], events + [e];
    forall i | 0 <= i < |es|
      ensures Step(floors, ws, es, i)
    {
      if i < |events| {
        assert Step(floors, worlds, events, i);
      }
    }
    assert LeadsTo(floors, ws, es, Do(w, e));
  }

  lemma ReachableInv(floors: int, w: World)
    requires Reachable(floors, w)
    ensures Inv(floors, w)
  {
    hide Inv;
    var worlds, events :| LeadsTo(floors, worlds, events, w);
    RunKeepsInv(floors, worlds, events, |events|);
  }

  /** Nothing is left to happen unless somebody asks. */
  ghost predicate Quiet(w: World) {
    w.processor.Asleep? && !w.token && w.signalling == {}
  }

  /** Whenever all is quiet, every request ever accepted has been served, as often as it was accepted. */
  lemma QuietMeansServed(floors: int, worlds: seq<World>, events: seq<Event>, i: nat)
    requires IsRun(floors, worlds, events) && i <= |events| && Quiet(worlds[i])
    ensures worlds[i].served == worlds[i].accepted && All(worlds[i].plan) == {}
  {
    RunKeepsInv(floors, worlds, events, i);
  }

  /** Short of quiet, something other than a new request can happen. */
  lemma NeverStuck(floors: int, w: World) returns (e: Event)
    requires Inv(floors, w) && !Quiet(w)
    ensures !e.Ask? && Enabled(floors, w, e)
  {
    if w.signalling != {} {
      var caller :| caller in w.signalling;
      return Signal(caller);
    }
    match w.processor {
      case Asleep => return Wake;
      case Moving(request) => return if w.car == request.floor then Arrive else PassFloor;
      case Choosing =>
        if All(w.plan) == {} {
          return Sleep;
        }
        e := SomeChoice(w.plan, w.car);
    }
  }

  lemma SomeChoice(p: Plan, car: int) returns (e: Event)
    requires Sound(p) && All(p) != {}
    ensures e.Choose? && Serves(p, car, e.chosen, e.next)
  {
    RebucketedKeeps(p, car);
    var b := Rebucketed(p, car);
    if Heading(b) == Up {
      var r := Lowest(b.up);
      return Choose(r, Plan(b.up - {r}, b.down, Up));
    } else {
      var r := Highest(b.down);
      return Choose(r, Plan(b.up, b.down - {r}, Down));
    }
  }

  lemma Lowest(rs: set<Request>) returns (r: Request)
    requires rs != {}
    ensures r in rs && forall x :: x in rs ==> r.floor <= x.floor
  {
    r :| r in rs;
    if rs != {r} {
      var s := Lowest(rs - {r});
      assert forall x :: x in rs ==> x == r || x in rs - {r};
      return if s.floor < r.floor then s else r;
    }
  }

  lemma Highest(rs: set<Request>) returns (r: Request)
    requires rs != {}
    ensures r in rs && forall x :: x in rs ==> x.floor <= r.floor
  {
    r :| r in rs;
    if rs != {r} {
      var s := Highest(rs - {r});
      assert forall x :: x in rs ==> x == r || x in rs - {r};
      return if s.floor > r.floor then s else r;
    }
  }

  /** How far a world is from quiet, compared from left to right. */
  function Rank(w: World): (nat, nat, nat, nat) {
    (|All(w.plan)|, |w.signalling|, if w.token then 1 else 0,
     match w.processor
     case Asleep => 0
     case Choosing => 1
     case Moving(request) => 2 + Abs(request.floor - w.car))
  }

  predicate Below(a: (nat, nat, nat, nat), b: (nat, nat, nat, nat)) {
    a.0 < b.0 || (a.0 == b.0 && (a.1 < b.1 || (a.1 == b.1 && (a.2 < b.2 || (a.2 == b.2 && a.3 < b.3)))))
  }

  /** Without new requests each step comes closer to quiet; so, as nothing gets stuck, every way the
      steps may go ends there, with everything served. */
  lemma StepsLeadToQuiet(floors: int, w: World, e: Event)
    requires Inv(floors, w) && Enabled(floors, w, e) && !e.Ask?
    ensures Below(Rank(Do(w, e)), Rank(w))
  {
    hide Serves, Sound, Conserved, InShaft, WakeUpComing, All, Added;
    if e.Choose? {
      TakenFrom(w.plan, w.car, e.chosen, e.next);
    }
  }
}
