/** The connection pool as a protocol: the state its lock protects, and the steps that callers of
  Acquire, Release and Shutdown take. Receiving from the idle channel and taking the lock are
  separate steps, so a connection can be in a caller's hands in between. */
module PoolProtocol {

  import opened Options

  type Time = int

  datatype Status = Idle | InUse

  class Connection {
    var healthy: bool
    var status: Status
    var lastUsed: Time

    constructor (now: Time)
      ensures healthy && status == Idle && lastUsed == now
    {
      healthy := true;
      status := Idle;
      lastUsed := now;
    }
  }

  datatype Info = Info(status: Status, healthy: bool, lastUsed: Time)

  datatype Limits = Limits(maxConnections: int, idleConnections: nat, idleTimeout: Time)

  /** `info` describes every connection ever made, `inUse` is the wait group's counter. */
  datatype PoolState = PoolState(
    total: int, inUse: int, closed: bool,
    registry: set<Connection>, channel: seq<Connection>, info: map<Connection, Info>)

  const EMPTY_POOL := PoolState(0, 0, false, {}, [], map[])

  // ---------- What happens under the lock ----------

  predicate Usable(limits: Limits, p: PoolState, c: Connection, now: Time)
    requires c in p.info
  {
    p.info[c].healthy && now - p.info[c].lastUsed <= limits.idleTimeout && p.info[c].status.Idle?
  }

  function WithStatus(p: PoolState, c: Connection, status: Status): PoolState
    requires c in p.info
  {
    p.(info := p.info[c := p.info[c].(status := status)])
  }

  function Discarded(p: PoolState, c: Connection): PoolState {
    p.(registry := p.registry - {c}, total := p.total - 1)
  }

  /** An Acquire that has received `c` decides its fate. */
  function AfterDecide(limits: Limits, p: PoolState, c: Connection, now: Time): PoolState
    requires c in p.info
  {
    if p.closed then p
    else if Usable(limits, p, c, now) then WithStatus(p, c, InUse).(inUse := p.inUse + 1)
    else Discarded(p, c)
  }

  predicate MayCreate(limits: Limits, p: PoolState) {
    p.total < limits.maxConnections && !p.closed
  }

  function AfterCreate(p: PoolState, c: Connection, now: Time): PoolState {
    p.(total := p.total + 1, inUse := p.inUse + 1, registry := p.registry + {c}, info := p.info[c := Info(InUse, true, now)])
  }

  predicate Releasable(p: PoolState, c: Connection) {
    c in p.registry && c in p.info && p.info[c].status.InUse?
  }

  predicate Sends(limits: Limits, p: PoolState, c: Connection) {
    Releasable(p, c) && !p.closed && |p.channel| != limits.idleConnections
  }

  /** Release up to, but without, sending the connection to the idle channel. */
  function AfterRelease(limits: Limits, p: PoolState, c: Connection, now: Time): PoolState {
    if !Releasable(p, c) then p
    else
      var q := WithStatus(p, c, Idle).(inUse := p.inUse - 1);
      if q.closed then Discarded(q, c)
      else
        var used := q.(info := q.info[c := q.info[c].(lastUsed := now)]);
        if |used.channel| == limits.idleConnections then Discarded(used, c) else used
  }

  function AfterSend(p: PoolState, c: Connection): PoolState {
    p.(channel := p.channel + [c])
  }

  // ---------- The callers ----------

  type Call = nat

  /** Where one call of Acquire or Shutdown stands. */
  datatype Phase =
    | Starting
    | Received(conn: Connection, waited: bool)
    | Creating
    | Waiting
    | Holding(conn: Connection)
    | Closing
    | Draining
    | Deleting(conn: Connection)
    | Finished

  /** `sending` is the connection of a Release between its look at the channel's length and its send;
      that Release has the lock. `dropped` are the connections lost by an Acquire that saw `closed`. */
  datatype World = World(pool: PoolState, phases: map<Call, Phase>, sending: Option<Connection>, dropped: set<Connection>)

  const BEGIN := World(EMPTY_POOL, map[], None, {})

  datatype Event =
    | Acquire(call: Call)
    | GiveUp(call: Call)
    | Receive(call: Call)
    | NothingIdle(call: Call)
    | Decide(call: Call, now: Time)
    | Create(call: Call, made: Connection, now: Time)
    | NoRoom(call: Call)
    | Release(call: Call, now: Time)
    | StrayRelease(stray: Connection, now: Time)
    | Send
    | Shutdown(call: Call)
    | AllReturned(call: Call)
    | DrainReceive(call: Call)
    | DrainDelete(call: Call)
    | DrainDone(call: Call)
    | ChangeHealth(changed: Connection, healthy: bool)

  predicate In(w: World, call: Call, phase: Phase) {
    call in w.phases && w.phases[call] == phase
  }

  predicate LockFree(w: World) {
    w.sending.None?
  }

  /** A context may be cancelled at any moment; a user may release anything, held or not. */
  predicate Enabled(limits: Limits, w: World, e: Event) {
    match e
    case Acquire(call) => call !in w.phases
    case GiveUp(call) => In(w, call, Starting) || In(w, call, Waiting)
    case Receive(call) => (In(w, call, Starting) || In(w, call, Waiting)) && w.pool.channel != []
    case NothingIdle(call) => In(w, call, Starting) && w.pool.channel == []
    case Decide(call, now) => LockFree(w) && call in w.phases && w.phases[call].Received? && w.phases[call].conn in w.pool.info
    case Create(call, made, now) => LockFree(w) && In(w, call, Creating) && MayCreate(limits, w.pool) && made !in w.pool.info
    case NoRoom(call) => LockFree(w) && In(w, call, Creating) && !MayCreate(limits, w.pool)
    case Release(call, now) => LockFree(w) && call in w.phases && w.phases[call].Holding?
    case StrayRelease(stray, now) => LockFree(w)
    case Send => w.sending.Some?
    case Shutdown(call) => LockFree(w) && call !in w.phases
    case AllReturned(call) => In(w, call, Closing) && w.pool.inUse == 0
    case DrainReceive(call) => In(w, call, Draining) && w.pool.channel != []
    case DrainDelete(call) => LockFree(w) && call in w.phases && w.phases[call].Deleting?
    case DrainDone(call) => In(w, call, Draining) && w.pool.channel == []
    case ChangeHealth(changed, healthy) => changed in w.pool.info
  }

  function Move(w: World, call: Call, phase: Phase): World {
    w.(phases := w.phases[call := phase])
  }

  function ReleaseIn(limits: Limits, w: World, c: Connection, now: Time): World {
    w.(pool := AfterRelease(limits, w.pool, c, now), sending := if Sends(limits, w.pool, c) then Some(c) else None)
  }

  function Do(limits: Limits, w: World, e: Event): World
    requires Enabled(limits, w, e)
  {
    match e
    case Acquire(call) => Move(w, call, Starting)
    case GiveUp(call) => Move(w, call, Finished)
    case Receive(call) =>
      Move(w.(pool := w.pool.(channel := w.pool.channel[1..])), call, Received(w.pool.channel[0], w.phases[call].Waiting?))
    case NothingIdle(call) => Move(w, call, Creating)
    case Decide(call, now) =>
      var c, waited := w.phases[call].conn, w.phases[call].waited;
      var next := w.(pool := AfterDecide(limits, w.pool, c, now));
      if w.pool.closed then Move(next, call, Finished).(dropped := w.dropped + {c})
      else if Usable(limits, w.pool, c, now) then Move(next, call, Holding(c))
      else Move(next, call, if waited then Starting else Creating)
    case Create(call, made, now) => Move(w.(pool := AfterCreate(w.pool, made, now)), call, Holding(made))
    case NoRoom(call) => Move(w, call, Waiting)
    case Release(call, now) => Move(ReleaseIn(limits, w, w.phases[call].conn, now), call, Finished)
    case StrayRelease(stray, now) => ReleaseIn(limits, w, stray, now)
    case Send => w.(pool := AfterSend(w.pool, w.sending.value), sending := None)
    case Shutdown(call) => Move(w.(pool := w.pool.(closed := true)), call, Closing)
    case AllReturned(call) => Move(w, call, Draining)
    case DrainReceive(call) => Move(w.(pool := w.pool.(channel := w.pool.channel[1..])), call, Deleting(w.pool.channel[0]))
    case DrainDelete(call) => Move(w.(pool := Discarded(w.pool, w.phases[call].conn)), call, Draining)
    case DrainDone(call) => Move(w, call, Finished)
    case ChangeHealth(changed, healthy) =>
      w.(pool := w.pool.(info := w.pool.info[changed := w.pool.info[changed].(healthy := healthy)]))
  }

  lemma CreateDoes(limits: Limits, w: World, call: Call, made: Connection, now: Time)
    requires Enabled(limits, w, Create(call, made, now))
    ensures Do(limits, w, Create(call, made, now)).pool == AfterCreate(w.pool, made, now)
  {
  }

  lemma NoRoomDoes(limits: Limits, w: World, call: Call)
    requires Enabled(limits, w, NoRoom(call))
    ensures Do(limits, w, NoRoom(call)).pool == w.pool
  {
  }

  lemma ReleaseDoes(limits: Limits, w: World, e: Event, c: Connection, now: Time)
    requires Enabled(limits, w, e)
    requires e == StrayRelease(c, now) || (e.Release? && e == Release(e.call, now) && w.phases[e.call].conn == c)
    ensures Do(limits, w, e).pool == AfterRelease(limits, w.pool, c, now)
    ensures Do(limits, w, e).sending == if Sends(limits, w.pool, c) then Some(c) else None
    ensures !Releasable(w.pool, c) ==> Do(limits, w, e).pool == w.pool
  {
  }

  /** The state after a run, if each of its events was possible when it came. */
  function Run(limits: Limits, events: seq<Event>): Option<World> {
    if events == [] then Some(BEGIN)
    else
      var before, e := Run(limits, events[..|events| - 1]), events[|events| - 1];
      if before.Some? && Enabled(limits, before.value, e) then Some(Do(limits, before.value, e)) else None
  }

  // ---------- What every step keeps ----------

  ghost function Borrowed(p: PoolState): set<Connection> {
    set c | c in p.registry && c in p.info && p.info[c].status.InUse?
  }

  predicate IdleIn(p: PoolState, c: Connection) {
    c in p.registry && c in p.info && p.info[c].status.Idle?
  }

  /** The counters say what they should. */
  ghost predicate Counted(limits: Limits, p: PoolState) {
    && p.total == |p.registry| && (p.total <= limits.maxConnections || p.total == 0)
    && p.inUse == |Borrowed(p)|
    && p.registry <= p.info.Keys
    && forall c :: c in p.info && p.info[c].status.InUse? ==> c in p.registry
  }

  predicate InHands(phase: Phase) {
    phase.Received? || phase.Deleting?
  }

  /** Some call has received `c` and not yet taken the lock. */
  ghost predicate InSomeHands(w: World, c: Connection) {
    exists a :: a in w.phases && InHands(w.phases[a]) && w.phases[a].conn == c
  }

  ghost predicate ChannelFine(limits: Limits, w: World) {
    && (forall i, j :: 0 <= i < j < |w.pool.channel| ==> w.pool.channel[i] != w.pool.channel[j])
    && (forall c :: c in w.pool.channel ==> IdleIn(w.pool, c))
    && |w.pool.channel| <= limits.idleConnections
  }

  ghost predicate HandsFine(w: World) {
    && (forall a :: a in w.phases && InHands(w.phases[a]) ==> IdleIn(w.pool, w.phases[a].conn) && w.phases[a].conn !in w.pool.channel)
    && (forall a, b :: a in w.phases && b in w.phases && a != b && InHands(w.phases[a]) && InHands(w.phases[b]) ==> w.phases[a].conn != w.phases[b].conn)
  }

  ghost predicate SendingFine(limits: Limits, w: World) {
    w.sending.Some? ==>
      var c := w.sending.value;
      && IdleIn(w.pool, c) && c !in w.pool.channel && !InSomeHands(w, c) && c !in w.dropped
      && !w.pool.closed && |w.pool.channel| < limits.idleConnections
  }

  ghost predicate DroppedFine(w: World) {
    && (w.dropped != {} ==> w.pool.closed)
    && forall c :: c in w.dropped ==> IdleIn(w.pool, c) && c !in w.pool.channel && !InSomeHands(w, c)
  }

  ghost predicate NoneLost(w: World) {
    forall c :: c in w.pool.registry && IdleIn(w.pool, c) ==> c in w.pool.channel || InSomeHands(w, c) || w.sending == Some(c) || c in w.dropped
  }

  /** Each idle connection of the registry is in exactly one place. */
  ghost predicate Placed(limits: Limits, w: World) {
    ChannelFine(limits, w) && HandsFine(w) && SendingFine(limits, w) && DroppedFine(w) && NoneLost(w)
  }

  ghost predicate Inv(limits: Limits, w: World) {
    Counted(limits, w.pool) && Placed(limits, w)
  }

  // ---------- The counters ----------

  lemma StatusBorrowed(p: PoolState, c: Connection, status: Status)
    requires c in p.registry && p.registry <= p.info.Keys
    ensures Borrowed(WithStatus(p, c, status)) == if status.InUse? then Borrowed(p) + {c} else Borrowed(p) - {c}
    ensures c in Borrowed(p) <==> p.info[c].status.InUse?
  {
  }

  lemma OneMoreOrLess(s: set<Connection>, c: Connection)
    ensures |s + {c}| == |s| + if c in s then 0 else 1
    ensures |s - {c}| == |s| - if c in s then 1 else 0
  {
    if c in s {
      assert s + {c} == s;
    } else {
      assert s - {c} == s;
    }
  }

  lemma StatusRegistered(p: PoolState, c: Connection, status: Status)
    requires c in p.registry && p.registry <= p.info.Keys
    requires forall d :: d in p.info && p.info[d].status.InUse? ==> d in p.registry
    ensures var q := WithStatus(p, c, status);
            q.registry == p.registry <= q.info.Keys && forall d :: d in q.info && q.info[d].status.InUse? ==> d in q.registry
  {
  }

  lemma CountedStatus(limits: Limits, p: PoolState, c: Connection, status: Status)
    requires Counted(limits, p) && c in p.registry
    ensures Counted(limits, WithStatus(p, c, status).(
                      inUse := p.inUse + (if status.InUse? then 1 else 0) - if p.info[c].status.InUse? then 1 else 0))
  {
    hide Borrowed;
    StatusBorrowed(p, c, status);
    OneMoreOrLess(Borrowed(p), c);
    StatusRegistered(p, c, status);
    BorrowedOf(WithStatus(p, c, status), p.inUse + (if status.InUse? then 1 else 0) - if p.info[c].status.InUse? then 1 else 0);
  }

  lemma BorrowedOf(p: PoolState, inUse: int)
    ensures Borrowed(p.(inUse := inUse)) == Borrowed(p)
  {
  }

  lemma CountedDiscarded(limits: Limits, p: PoolState, c: Connection)
    requires Counted(limits, p) && IdleIn(p, c)
    ensures Counted(limits, Discarded(p, c))
  {
    assert Borrowed(Discarded(p, c)) == Borrowed(p);
  }

  lemma CountedCreated(limits: Limits, p: PoolState, c: Connection, now: Time)
    requires Counted(limits, p) && c !in p.info && MayCreate(limits, p)
    ensures Counted(limits, AfterCreate(p, c, now))
  {
    assert Borrowed(AfterCreate(p, c, now)) == Borrowed(p) + {c};
  }

  /** Nothing the counters depend on. */
  lemma CountedSame(limits: Limits, p: PoolState, q: PoolState)
    requires Counted(limits, p) && q.total == p.total && q.inUse == p.inUse && q.registry == p.registry
    requires q.info.Keys == p.info.Keys && forall c :: c in p.info ==> q.info[c].status == p.info[c].status
    ensures Counted(limits, q)
  {
    assert Borrowed(q) == Borrowed(p);
  }

  lemma CountedDecide(limits: Limits, p: PoolState, c: Connection, now: Time)
    requires Counted(limits, p) && IdleIn(p, c)
    ensures Counted(limits, AfterDecide(limits, p, c, now))
  {
    hide Counted;
    if !p.closed {
      if Usable(limits, p, c, now) {
        CountedStatus(limits, p, c, InUse);
      } else {
        CountedDiscarded(limits, p, c);
      }
    }
  }

  lemma CountedRelease(limits: Limits, p: PoolState, c: Connection, now: Time)
    requires Counted(limits, p)
    ensures Counted(limits, AfterRelease(limits, p, c, now))
  {
    hide Counted;
    if Releasable(p, c) {
      CountedStatus(limits, p, c, Idle);
      var q := WithStatus(p, c, Idle).(inUse := p.inUse - 1);
      if q.closed {
        CountedDiscarded(limits, q, c);
      } else {
        var used := q.(info := q.info[c := q.info[c].(lastUsed := now)]);
        CountedSame(limits, q, used);
        if |used.channel| == limits.idleConnections {
          CountedDiscarded(limits, used, c);
        }
      }
    }
  }

  lemma CountedStep(limits: Limits, w: World, e: Event)
    requires Inv(limits, w) && Enabled(limits, w, e)
    ensures Counted(limits, Do(limits, w, e).pool)
  {
    hide Counted, ChannelFine, SendingFine, DroppedFine, NoneLost, AfterDecide, AfterRelease;
    match e
    case Decide(call, now) => CountedDecide(limits, w.pool, w.phases[call].conn, now);
    case Create(call, made, now) => CountedCreated(limits, w.pool, made, now);
    case Release(call, now) => CountedRelease(limits, w.pool, w.phases[call].conn, now);
    case StrayRelease(stray, now) => CountedRelease(limits, w.pool, stray, now);
    case DrainDelete(call) => CountedDiscarded(limits, w.pool, w.phases[call].conn);
    case Receive(_) => CountedSame(limits, w.pool, Do(limits, w, e).pool);
    case DrainReceive(_) => CountedSame(limits, w.pool, Do(limits, w, e).pool);
    case Send => CountedSame(limits, w.pool, Do(limits, w, e).pool);
    case Shutdown(_) => CountedSame(limits, w.pool, Do(limits, w, e).pool);
    case ChangeHealth(_, _) => CountedSame(limits, w.pool, Do(limits, w, e).pool);
    case _ =>
  }

  // ---------- The places ----------

  /** The same connections are idle, in the same channel. */
  ghost predicate SameIdle(p: PoolState, q: PoolState) {
    && q.channel == p.channel && (p.closed ==> q.closed)
    && (forall c :: c in p.registry && IdleIn(p, c) ==> IdleIn(q, c))
    && (forall c :: c in q.registry && IdleIn(q, c) ==> IdleIn(p, c))
  }

  /** The call moves between phases that hold nothing in hands. */
  ghost predicate HandsKept(w: World, v: World, call: Call) {
    && (forall a :: a in w.phases && InHands(w.phases[a]) ==> a in v.phases && v.phases[a] == w.phases[a])
    && (forall a :: a in v.phases && InHands(v.phases[a]) ==> a in w.phases && v.phases[a] == w.phases[a])
  }

  lemma PlacedSame(limits: Limits, w: World, v: World, call: Call)
    requires Placed(limits, w) && SameIdle(w.pool, v.pool) && HandsKept(w, v, call) && v.dropped == w.dropped
    requires v.sending == w.sending && (w.sending.Some? ==> v.pool.closed == w.pool.closed)
    ensures Placed(limits, v)
  {
    forall c
      ensures InSomeHands(v, c) == InSomeHands(w, c)
    {
      if InSomeHands(w, c) {
        var a :| a in w.phases && InHands(w.phases[a]) && w.phases[a].conn == c;
        assert a in v.phases && v.phases[a] == w.phases[a];
      }
    }
  }

  lemma HeadReceived(channel: seq<Connection>)
    requires channel != [] && forall i, j :: 0 <= i < j < |channel| ==> channel[i] != channel[j]
    ensures channel[0] !in channel[1..] && channel[0] in channel
    ensures forall i, j :: 0 <= i < j < |channel[1..]| ==> channel[1..][i] != channel[1..][j]
    ensures forall c :: c in channel[1..] ==> c in channel
    ensures forall c :: c in channel && c != channel[0] ==> c in channel[1..]
  {
  }

  /** The head of the channel passes into the hands of `call`. */
  lemma PlacedReceive(limits: Limits, w: World, call: Call, phase: Phase)
    requires Placed(limits, w) && w.pool.channel != [] && call in w.phases && !InHands(w.phases[call])
    requires InHands(phase) && phase.conn == w.pool.channel[0]
    ensures Placed(limits, Move(w.(pool := w.pool.(channel := w.pool.channel[1..])), call, phase))
  {
    var v := Move(w.(pool := w.pool.(channel := w.pool.channel[1..])), call, phase);
    var head := w.pool.channel[0];
    HeadReceived(w.pool.channel);
    assert In(v, call, phase) && InSomeHands(v, head);
    forall c | c != head
      ensures InSomeHands(v, c) == InSomeHands(w, c)
    {
      if InSomeHands(w, c) {
        var a :| a in w.phases && InHands(w.phases[a]) && w.phases[a].conn == c;
        assert a in v.phases && v.phases[a] == w.phases[a];
      }
    }
  }

  /** The connection in the hands of `call` leaves the idle ones, or is dropped. */
  lemma PlacedLeaves(limits: Limits, w: World, v: World, call: Call)
    requires Placed(limits, w) && call in w.phases && InHands(w.phases[call]) && w.sending.None? && v.sending.None?
    requires v.phases.Keys == w.phases.Keys && !InHands(v.phases[call]) && forall a :: a in w.phases && a != call ==> v.phases[a] == w.phases[a]
    requires var c := w.phases[call].conn;
             && v.pool.channel == w.pool.channel && v.pool.closed == w.pool.closed
             && (forall d :: d in w.pool.registry && d != c && IdleIn(w.pool, d) ==> IdleIn(v.pool, d))
             && (forall d :: d in v.pool.registry && d != c && IdleIn(v.pool, d) ==> IdleIn(w.pool, d))
             && if v.pool.closed && v.pool == w.pool then v.dropped == w.dropped + {c} else v.dropped == w.dropped && !IdleIn(v.pool, c)
    ensures Placed(limits, v)
  {
    var c := w.phases[call].conn;
    assert InSomeHands(w, c);
    forall d
      ensures InSomeHands(v, d) == (d != c && InSomeHands(w, d))
    {
      if InSomeHands(w, d) && d != c {
        var a :| a in w.phases && InHands(w.phases[a]) && w.phases[a].conn == d;
        assert a in v.phases && v.phases[a] == w.phases[a];
      }
    }
  }

  lemma PlacedDecide(limits: Limits, w: World, e: Event)
    requires Placed(limits, w) && Enabled(limits, w, e) && (e.Decide? || e.DrainDelete?)
    ensures Placed(limits, Do(limits, w, e))
  {
    PlacedLeaves(limits, w, Do(limits, w, e), e.call);
  }

  /** A connection in use becomes idle in the hands of the Release that has the lock, or is discarded. */
  lemma PlacedRelease(limits: Limits, w: World, v: World, c: Connection, now: Time, call: Call)
    requires Inv(limits, w) && w.sending.None? && HandsKept(w, v, call)
    requires v == ReleaseIn(limits, w, c, now).(phases := v.phases)
    ensures Placed(limits, v)
  {
    if Sends(limits, w.pool, c) {
      forall d
        ensures InSomeHands(v, d) == InSomeHands(w, d)
      {
        if InSomeHands(w, d) {
          var a :| a in w.phases && InHands(w.phases[a]) && w.phases[a].conn == d;
          assert a in v.phases && v.phases[a] == w.phases[a];
        }
      }
    } else {
      PlacedSame(limits, w, v, call);
    }
  }

  lemma PlacedSend(limits: Limits, w: World)
    requires Placed(limits, w) && w.sending.Some?
    ensures Placed(limits, Do(limits, w, Send))
  {
    var v := Do(limits, w, Send);
    forall d
      ensures InSomeHands(v, d) == InSomeHands(w, d)
    {
      if InSomeHands(w, d) {
        var a :| a in w.phases && InHands(w.phases[a]) && w.phases[a].conn == d;
        assert a in v.phases && v.phases[a] == w.phases[a];
      }
    }
  }

  lemma PlacedStep(limits: Limits, w: World, e: Event)
    requires Inv(limits, w) && Enabled(limits, w, e)
    ensures Placed(limits, Do(limits, w, e))
  {
    hide Placed, Counted, AfterDecide, AfterRelease;
    var v := Do(limits, w, e);
    match e
    case Receive(call) => PlacedReceive(limits, w, call, v.phases[call]);
    case DrainReceive(call) => PlacedReceive(limits, w, call, v.phases[call]);
    case Decide(call, now) => PlacedDecide(limits, w, e);
    case DrainDelete(call) => PlacedDecide(limits, w, e);
    case Create(call, made, now) => PlacedCreate(limits, w, e);
    case Release(call, now) => PlacedRelease(limits, w, v, w.phases[call].conn, now, call);
    case StrayRelease(stray, now) => PlacedRelease(limits, w, v, stray, now, 0);
    case Send => PlacedSend(limits, w);
    case ChangeHealth(_, _) => PlacedSame(limits, w, v, 0);
    case _ => PlacedQuiet(limits, w, e);
  }

  lemma PlacedQuiet(limits: Limits, w: World, e: Event)
    requires Inv(limits, w) && Enabled(limits, w, e)
    requires e.Acquire? || e.GiveUp? || e.NothingIdle? || e.NoRoom? || e.Shutdown? || e.AllReturned? || e.DrainDone?
    ensures Placed(limits, Do(limits, w, e))
  {
    hide Placed, Counted;
    PlacedSame(limits, w, Do(limits, w, e), e.call);
  }

  lemma PlacedCreate(limits: Limits, w: World, e: Event)
    requires Inv(limits, w) && Enabled(limits, w, e) && e.Create?
    ensures Placed(limits, Do(limits, w, e))
  {
    hide Placed;
    PlacedSame(limits, w, Do(limits, w, e), e.call);
  }

  lemma StepInv(limits: Limits, w: World, e: Event)
    requires Inv(limits, w) && Enabled(limits, w, e)
    ensures Inv(limits, Do(limits, w, e))
  {
    hide Counted, Placed, Do;
    CountedStep(limits, w, e);
    PlacedStep(limits, w, e);
  }

  /** In every interleaving, with any connections released by anybody: the counters are right, within
      the limits, and each idle connection of the registry is in exactly one place. */
  lemma {:induction false} RunInv(limits: Limits, events: seq<Event>)
    requires Run(limits, events).Some?
    ensures Inv(limits, Run(limits, events).value)
  {
    if events != [] {
      hide Counted, Placed, Do;
      var n := |events| - 1;
      RunInv(limits, events[..n]);
      StepInv(limits, Run(limits, events[..n]).value, events[n]);
    } else {
      assert Borrowed(EMPTY_POOL) == {};
    }
  }

  /** Under the lock: the send of a Release finds room, the wait group never goes below zero, and a
      connection taken out of the registry was in it. */
  lemma NothingGoesWrong(limits: Limits, events: seq<Event>, e: Event)
    requires Run(limits, events).Some? && Enabled(limits, Run(limits, events).value, e)
    ensures var w := Run(limits, events).value;
            && (e.Send? ==> |w.pool.channel| < limits.idleConnections)
            && (e.Release? && Releasable(w.pool, w.phases[e.call].conn) ==> w.pool.inUse > 0)
            && (e.StrayRelease? && Releasable(w.pool, e.stray) ==> w.pool.inUse > 0)
            && (e.Decide? || e.DrainDelete? ==> w.phases[e.call].conn in w.pool.registry)
  {
    RunInv(limits, events);
    var w := Run(limits, events).value;
    if e.Release? && Releasable(w.pool, w.phases[e.call].conn) {
      assert w.phases[e.call].conn in Borrowed(w.pool);
    }
    if e.StrayRelease? && Releasable(w.pool, e.stray) {
      assert e.stray in Borrowed(w.pool);
    }
  }

  // ---------- A release starts the idle time anew ----------

  /** Event `e` gives connection `c` back, whoever had it. */
  ghost predicate GivesBack(w: World, e: Event, c: Connection) {
    || (e.StrayRelease? && e.stray == c)
    || (e.Release? && e.call in w.phases && w.phases[e.call].Holding? && w.phases[e.call].conn == c)
  }

  /** A release that leads to a send sets the time of last use to its own. */
  lemma SentIsFresh(limits: Limits, w: World, e: Event, c: Connection)
    requires Enabled(limits, w, e) && GivesBack(w, e, c) && Do(limits, w, e).sending == Some(c)
    ensures c in Do(limits, w, e).pool.info && Do(limits, w, e).pool.info[c].lastUsed == e.now
  {
  }

  lemma UseTimeKept(limits: Limits, w: World, e: Event, c: Connection)
    requires Enabled(limits, w, e) && !GivesBack(w, e, c) && c in w.pool.info
    ensures c in Do(limits, w, e).pool.info && Do(limits, w, e).pool.info[c].lastUsed == w.pool.info[c].lastUsed
  {
  }

  /** No later event gives the connection back once more. */
  ghost predicate NotGivenBack(limits: Limits, events: seq<Event>, later: seq<Event>, c: Connection) {
    forall i :: 0 <= i < |later| ==> StepKeeps(limits, events, later, i, c)
  }

  ghost predicate StepKeeps(limits: Limits, events: seq<Event>, later: seq<Event>, i: nat, c: Connection)
    requires i < |later|
  {
    var w := Run(limits, events + later[..i]);
    w.Some? && !GivesBack(w.value, later[i], c)
  }

  lemma {:induction false} UseTimeStays(limits: Limits, events: seq<Event>, later: seq<Event>, c: Connection)
    requires Run(limits, events).Some? && c in Run(limits, events).value.pool.info
    requires Run(limits, events + later).Some? && NotGivenBack(limits, events, later, c)
    ensures c in Run(limits, events + later).value.pool.info
    ensures Run(limits, events + later).value.pool.info[c].lastUsed == Run(limits, events).value.pool.info[c].lastUsed
  {
    if later == [] {
      assert events + later == events;
    } else {
      hide Do, Enabled, GivesBack, Run;
      var n := |later| - 1;
      assert events + later == events + later[..n] + [later[n]];
      RunPrefix(limits, events + later[..n], later[n]);
      forall i | 0 <= i < n
        ensures StepKeeps(limits, events, later[..n], i, c)
      {
        assert later[..n][..i] == later[..i];
        assert StepKeeps(limits, events, later, i, c);
      }
      assert StepKeeps(limits, events, later, n, c);
      UseTimeStays(limits, events, later[..n], c);
      UseTimeKept(limits, Run(limits, events + later[..n]).value, later[n], c);
    }
  }

  /** A connection that a release has sent at time `t` and that an Acquire now has in hand, before the close, is
      lent if it is healthy and has been idle no longer than the timeout since `t`; otherwise it is discarded. */
  lemma LentSinceRelease(limits: Limits, events: seq<Event>, release: Event, later: seq<Event>, call: Call, now: Time, c: Connection)
    requires Run(limits, events).Some? && Enabled(limits, Run(limits, events).value, release)
    requires GivesBack(Run(limits, events).value, release, c)
    requires Run(limits, events + [release]).Some? && Run(limits, events + [release]).value.sending == Some(c)
    requires Run(limits, events + [release] + later).Some? && NotGivenBack(limits, events + [release], later, c)
    requires var w := Run(limits, events + [release] + later).value;
             && Enabled(limits, w, Decide(call, now)) && w.phases[call].conn == c && !w.pool.closed
    ensures var w := Run(limits, events + [release] + later).value;
            var v := Do(limits, w, Decide(call, now));
            if w.pool.info[c].healthy && now <= release.now + limits.idleTimeout
            then v.phases[call] == Holding(c) && c in v.pool.registry && v.pool.info[c].status.InUse?
            else !v.phases[call].Holding? && c !in v.pool.registry
  {
    hide Run, NotGivenBack;
    RunPrefix(limits, events, release);
    SentIsFresh(limits, Run(limits, events).value, release, c);
    UseTimeStays(limits, events + [release], later, c);
    RunInv(limits, events + [release] + later);
  }

  // ---------- Closing ----------

  /** Once the pool is closed it stays closed, and nothing is borrowed any more. */
  lemma ClosedStep(limits: Limits, w: World, e: Event)
    requires w.pool.closed && Enabled(limits, w, e)
    ensures Do(limits, w, e).pool.closed && Do(limits, w, e).pool.inUse <= w.pool.inUse
    ensures forall a :: a in Do(limits, w, e).phases && Do(limits, w, e).phases[a].Holding? ==> In(w, a, Do(limits, w, e).phases[a])
  {
  }

  lemma RunPrefix(limits: Limits, events: seq<Event>, e: Event)
    ensures Run(limits, events + [e]) ==
            var before := Run(limits, events);
            if before.Some? && Enabled(limits, before.value, e) then Some(Do(limits, before.value, e)) else None
  {
    assert (events + [e])[..|events|] == events;
  }

  /** Whatever comes after the close, no more connections are borrowed than then. */
  lemma {:induction false} BorrowsOnlyFall(limits: Limits, events: seq<Event>, later: seq<Event>)
    requires Run(limits, events).Some? && Run(limits, events).value.pool.closed
    requires Run(limits, events + later).Some?
    ensures Run(limits, events + later).value.pool.closed
    ensures Run(limits, events + later).value.pool.inUse <= Run(limits, events).value.pool.inUse
  {
    if later == [] {
      assert events + later == events;
    } else {
      hide Do, Enabled;
      var n := |later| - 1;
      assert events + later == events + later[..n] + [later[n]];
      RunPrefix(limits, events + later[..n], later[n]);
      BorrowsOnlyFall(limits, events, later[..n]);
      ClosedStep(limits, Run(limits, events + later[..n]).value, later[n]);
    }
  }

  /** A Shutdown that drains has waited until nothing was borrowed. */
  ghost predicate Winding(w: World) {
    && (forall a :: a in w.phases && (w.phases[a].Closing? || w.phases[a].Draining? || w.phases[a].Deleting?) ==> w.pool.closed)
    && (forall a :: a in w.phases && (w.phases[a].Draining? || w.phases[a].Deleting?) ==> w.pool.inUse == 0)
  }

  lemma WindingStep(limits: Limits, w: World, e: Event)
    requires Inv(limits, w) && Enabled(limits, w, e) && Inv(limits, Do(limits, w, e)) && Winding(w)
    ensures Winding(Do(limits, w, e))
  {
    hide Placed, AfterDecide, AfterRelease, Discarded, AfterCreate, AfterSend, Usable, Releasable, Sends;
    if w.pool.closed {
      ClosedStep(limits, w, e);
    }
  }

  lemma {:induction false} RunWinding(limits: Limits, events: seq<Event>)
    requires Run(limits, events).Some?
    ensures Winding(Run(limits, events).value)
  {
    if events != [] {
      hide Counted, Placed, Do, Winding;
      var n := |events| - 1;
      RunInv(limits, events);
      RunInv(limits, events[..n]);
      RunWinding(limits, events[..n]);
      WindingStep(limits, Run(limits, events[..n]).value, events[n]);
    }
  }

  /** What a Shutdown that finds the channel empty leaves behind: just the connections that an Acquire
      dropped or is about to drop, and the calls of Shutdown that are still draining. */
  lemma LeftByShutdown(limits: Limits, events: seq<Event>, call: Call)
    requires Run(limits, events).Some? && Enabled(limits, Run(limits, events).value, DrainDone(call))
    ensures var w := Run(limits, events).value;
            && w.pool.total == |w.pool.registry|
            && forall c :: c in w.pool.registry <==> c in w.dropped || InSomeHands(w, c)
  {
    RunInv(limits, events);
    RunWinding(limits, events);
    var w := Run(limits, events).value;
    assert Borrowed(w.pool) == {};
    forall c | c in w.pool.registry
      ensures c in w.dropped || InSomeHands(w, c)
    {
      assert c !in Borrowed(w.pool);
      assert IdleIn(w.pool, c);
    }
  }

  /** So the registry need not be empty after a shutdown: one Acquire receives the idle connection, the
      pool closes, the Acquire gives up, and nobody takes the connection out. */
  lemma LostToShutdown(limits: Limits, c: Connection) returns (events: seq<Event>, w: World)
    requires limits.maxConnections > 0 && limits.idleConnections > 0
    ensures Run(limits, events) == Some(w) && DrainDone(2) in events
    ensures w.pool.registry == w.dropped == {c} && w.pool.total == 1
    ensures forall a :: a in w.phases ==> w.phases[a].Finished?
  {
    events, w := ReceivedBeforeClose(limits, c);
    hide Run;
    events, w := Extend(limits, events, w, Decide(1, 0));
    events, w := Extend(limits, events, w, AllReturned(2));
    events, w := Extend(limits, events, w, DrainDone(2));
  }

  lemma ReceivedBeforeClose(limits: Limits, c: Connection) returns (events: seq<Event>, w: World)
    requires limits.maxConnections > 0 && limits.idleConnections > 0
    ensures Run(limits, events) == Some(w)
    ensures w == World(PoolState(1, 0, true, {c}, [], map[c := Info(Idle, true, 0)]),
                       map[0 := Finished, 1 := Received(c, false), 2 := Closing], None, {})
  {
    events, w := OneIdle(limits, c);
    hide Run;
    events, w := Extend(limits, events, w, Acquire(1));
    events, w := Extend(limits, events, w, Receive(1));
    events, w := Extend(limits, events, w, Shutdown(2));
  }

  lemma OneIdle(limits: Limits, c: Connection) returns (events: seq<Event>, w: World)
    requires limits.maxConnections > 0 && limits.idleConnections > 0
    ensures Run(limits, events) == Some(w)
    ensures w == World(PoolState(1, 0, false, {c}, [c], map[c := Info(Idle, true, 0)]), map[0 := Finished], None, {})
  {
    hide Run;
    events, w := [], BEGIN;
    EmptyRun(limits);
    events, w := Extend(limits, events, w, Acquire(0));
    events, w := Extend(limits, events, w, NothingIdle(0));
    events, w := Extend(limits, events, w, Create(0, c, 0));
    events, w := Extend(limits, events, w, Release(0, 0));
    events, w := Extend(limits, events, w, Send);
  }

  lemma EmptyRun(limits: Limits)
    ensures Run(limits, []) == Some(BEGIN)
  {
  }

  lemma Extend(limits: Limits, events: seq<Event>, w: World, e: Event) returns (longer: seq<Event>, next: World)
    requires Run(limits, events) == Some(w) && Enabled(limits, w, e)
    ensures longer == events + [e] && next == Do(limits, w, e) && Run(limits, longer) == Some(next)
  {
    RunPrefix(limits, events, e);
    longer, next := events + [e], Do(limits, w, e);
  }

  // ---------- Holders ----------

  /** Each borrowed connection has one holder, and holders hold borrowed connections. */
  ghost predicate OneHolder(w: World) {
    && (forall a :: a in w.phases && w.phases[a].Holding? ==> w.phases[a].conn in Borrowed(w.pool))
    && (forall a, b :: a in w.phases && b in w.phases && a != b && w.phases[a].Holding? && w.phases[b].Holding? ==> w.phases[a].conn != w.phases[b].conn)
    && (forall c :: c in Borrowed(w.pool) ==> Held(w, c))
  }

  ghost predicate Held(w: World, c: Connection) {
    exists a :: a in w.phases && w.phases[a].Holding? && w.phases[a].conn == c
  }

  lemma {:induction false} RunOneHolder(limits: Limits, events: seq<Event>)
    requires Run(limits, events).Some? && forall e :: e in events ==> !e.StrayRelease?
    ensures OneHolder(Run(limits, events).value)
  {
    if events != [] {
      hide Counted, Placed, Do, OneHolder;
      var n := |events| - 1;
      RunInv(limits, events[..n]);
      RunOneHolder(limits, events[..n]);
      assert events[n] in events;
      HolderStep(limits, Run(limits, events[..n]).value, events[n]);
    }
  }

  /** A call that comes to hold a connection holds one that nobody had borrowed. */
  lemma NewHolder(limits: Limits, w: World, e: Event, a: Call)
    requires Inv(limits, w) && Enabled(limits, w, e)
    requires a in Do(limits, w, e).phases && Do(limits, w, e).phases[a].Holding?
    ensures In(w, a, Do(limits, w, e).phases[a])
            || ((e.Decide? || e.Create?) && a == e.call && Do(limits, w, e).phases[a].conn !in Borrowed(w.pool))
  {
    hide ChannelFine, SendingFine, DroppedFine, NoneLost, AfterDecide, AfterRelease;
  }

  lemma BorrowedRelease(limits: Limits, p: PoolState, c: Connection, now: Time)
    requires Counted(limits, p)
    ensures Borrowed(AfterRelease(limits, p, c, now)) == Borrowed(p) - {c}
  {
    var q := AfterRelease(limits, p, c, now);
    assert forall d :: d in p.registry && d != c ==> d in q.registry && d in q.info && q.info[d] == p.info[d];
    assert forall d :: d in q.registry ==> d in p.registry;
    assert c !in Borrowed(q);
  }

  lemma BorrowedDecide(limits: Limits, p: PoolState, c: Connection, now: Time)
    requires Counted(limits, p) && IdleIn(p, c)
    ensures Borrowed(AfterDecide(limits, p, c, now)) == Borrowed(p) + if !p.closed && Usable(limits, p, c, now) then {c} else {}
  {
    var q := AfterDecide(limits, p, c, now);
    assert forall d :: d in p.registry && d != c ==> d in q.registry && d in q.info && q.info[d] == p.info[d];
    assert forall d :: d in q.registry ==> d in p.registry;
  }

  lemma BorrowedSame(p: PoolState, q: PoolState)
    requires p.info.Keys == q.info.Keys && forall c :: c in p.info ==> p.info[c].status == q.info[c].status
    requires q.registry <= p.registry && forall c :: c in p.registry && c !in q.registry ==> IdleIn(p, c)
    ensures Borrowed(q) == Borrowed(p)
  {
  }

  lemma BorrowedStep(limits: Limits, w: World, e: Event)
    requires Inv(limits, w) && Enabled(limits, w, e) && !e.StrayRelease?
    ensures var v := Do(limits, w, e);
            Borrowed(v.pool) ==
            match e
            case Decide(call, _) => Borrowed(w.pool) + (if v.phases[call].Holding? then {v.phases[call].conn} else {})
            case Create(_, made, _) => Borrowed(w.pool) + {made}
            case Release(call, _) => Borrowed(w.pool) - {w.phases[call].conn}
            case _ => Borrowed(w.pool)
  {
    hide ChannelFine, SendingFine, DroppedFine, NoneLost, AfterRelease, AfterDecide, AfterCreate, Borrowed, Counted;
    var v := Do(limits, w, e);
    match e
    case Decide(call, now) => BorrowedDecide(limits, w.pool, w.phases[call].conn, now);
    case Create(call, made, now) => BorrowedCreate(limits, w.pool, made, now);
    case Release(call, now) => BorrowedRelease(limits, w.pool, w.phases[call].conn, now);
    case _ => BorrowedSame(w.pool, v.pool);
  }

  lemma BorrowedCreate(limits: Limits, p: PoolState, c: Connection, now: Time)
    requires Counted(limits, p) && c !in p.info
    ensures Borrowed(AfterCreate(p, c, now)) == Borrowed(p) + {c}
  {
  }

  lemma HolderStep(limits: Limits, w: World, e: Event)
    requires Inv(limits, w) && OneHolder(w) && Enabled(limits, w, e) && !e.StrayRelease?
    ensures OneHolder(Do(limits, w, e))
  {
    hide Inv, Borrowed, AfterDecide, AfterRelease, AfterCreate, Usable, MayCreate;
    var v := Do(limits, w, e);
    BorrowedStep(limits, w, e);
    forall a | a in v.phases && v.phases[a].Holding?
      ensures In(w, a, v.phases[a]) || ((e.Decide? || e.Create?) && a == e.call && v.phases[a].conn !in Borrowed(w.pool))
    {
      NewHolder(limits, w, e, a);
    }
    forall c | c in Borrowed(v.pool)
      ensures Held(v, c)
    {
      if c in Borrowed(w.pool) {
        var a :| a in w.phases && w.phases[a].Holding? && w.phases[a].conn == c;
        assert a in v.phases && v.phases[a] == w.phases[a];
      } else {
        assert e.call in v.phases && v.phases[e.call] == Holding(c);
      }
    }
  }
}
