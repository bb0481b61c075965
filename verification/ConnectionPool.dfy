/** The connection pool itself: each method is one critical section or one channel operation, and takes
  the step of the protocol that its caller is at. So every state of the pool is one that a run of the
  protocol reaches, with all that holds there. */
module ConnectionPools {
  import opened Options
  import opened PoolProtocol

  datatype ReleaseError = Nil | Foreign | NotInUse

  class Pool {
    const limits: Limits
    var totalConnections: int
    var closed: bool
    var idleConnChan: seq<Connection>
    var connections: set<Connection>
    /** The wait group's counter. */
    var connWG: int
    /** Every connection made so far, the run of the protocol so far, and where it has led. */
    ghost var made: set<Connection>
    ghost var events: seq<Event>
    ghost var world: World

    ghost predicate Valid()
      reads this, made
    {
      world.pool == State() && Reached()
    }

    ghost predicate Reached()
      reads `events, `world
    {
      Inv(limits, world) && Run(limits, events) == Some(world)
    }

    ghost function State(): PoolState
      reads `totalConnections, `connWG, `closed, `connections, `idleConnChan, `made, made
    {
      PoolState(totalConnections, connWG, closed, connections, idleConnChan, map c | c in made :: Info(c.status, c.healthy, c.lastUsed))
    }

    /** What the protocol's invariant says of the fields. */
    lemma Sizes()
      requires Valid()
      ensures totalConnections == |connections| && (totalConnections <= limits.maxConnections || totalConnections == 0)
      ensures connWG == |(set c | c in connections && c in made && c.status.InUse?)|
      ensures connections <= made && forall c :: c in idleConnChan ==> c in connections && c.status.Idle?
      ensures |idleConnChan| <= limits.idleConnections && (world.sending.Some? ==> |idleConnChan| < limits.idleConnections)
    {
      assert Borrowed(State()) == set c | c in connections && c in made && c.status.InUse?;
    }

    lemma RoomToSend()
      requires Valid() && world.sending.Some?
      ensures |idleConnChan| < limits.idleConnections
    {
    }

    /** So a connection that somebody may release, or has received, is one the pool has made. */
    lemma Known()
      requires Valid()
      ensures connections <= made && world.pool.info.Keys == made
    {
    }

    constructor (maxConnections: int, idleTimeout: Time, idleConnections: nat)
      ensures Valid() && world == BEGIN && events == [] && limits == Limits(maxConnections, idleConnections, idleTimeout)
    {
      limits := Limits(maxConnections, idleConnections, idleTimeout);
      totalConnections := 0;
      closed := false;
      idleConnChan := [];
      connections := {};
      connWG := 0;
      made := {};
      events := [];
      world := BEGIN;
      new;
      RunInv(limits, []);
    }

    /** The protocol takes the step `e`. */
    twostate predicate Takes(new e: Event)
      reads this
    {
      Enabled(limits, old(world), e) && world == Do(limits, old(world), e) && events == old(events) + [e]
    }

    ghost method Take(e: Event)
      requires Reached() && Enabled(limits, world, e)
      modifies `events, `world
      ensures Reached() && Takes(e)
    {
      hide Inv, Run;
      StepInv(limits, world, e);
      RunPrefix(limits, events, e);
      events := events + [e];
      world := Do(limits, world, e);
    }

    /** A call begins, gives up, or finds that nothing is borrowed any more: the pool stays as it is. */
    ghost method Proceed(e: Event)
      requires Valid() && Enabled(limits, world, e)
      requires e.Acquire? || e.GiveUp? || e.AllReturned?
      modifies `events, `world
      ensures Valid() && Takes(e)
    {
      hide Inv, Run;
      Take(e);
    }

    /** The first select of Acquire: an idle connection, if there is one. */
    method Poll(ghost call: Call) returns (c: Connection?)
      requires Valid() && In(world, call, Starting)
      modifies `idleConnChan, `events, `world
      ensures Valid() && (c == null <==> old(idleConnChan) == [])
      ensures c == null ==> Takes(NothingIdle(call))
      ensures c != null ==> c == old(idleConnChan)[0] && Takes(Receive(call))
    {
      hide Inv, Run;
      if idleConnChan == [] {
        Take(NothingIdle(call));
        return null;
      }
      c := Await(call);
    }

    /** Receiving an idle connection, in either select. */
    method Await(ghost call: Call) returns (c: Connection)
      requires Valid() && Enabled(limits, world, Receive(call))
      modifies `idleConnChan, `events, `world
      ensures Valid() && c == old(idleConnChan)[0] && Takes(Receive(call))
    {
      hide Inv, Run;
      Take(Receive(call));
      c := idleConnChan[0];
      idleConnChan := idleConnChan[1..];
    }

    /** What Acquire does under the lock with the connection it received. */
    method Decide(c: Connection, ghost call: Call, now: Time) returns (cancelled: bool, borrowed: bool)
      requires Valid() && LockFree(world) && call in world.phases && world.phases[call].Received? && world.phases[call].conn == c
      modifies this, c
      ensures Valid() && old(c in made) && made == old(made) && Takes(PoolProtocol.Decide(call, now))
      ensures cancelled == old(closed)
      ensures borrowed == (!cancelled && old(c.healthy && now - c.lastUsed <= limits.idleTimeout && c.status.Idle?))
      ensures if borrowed then c.status.InUse? && connWG == old(connWG) + 1 else c.status == old(c.status) && connWG == old(connWG)
      ensures connections == (if cancelled || borrowed then old(connections) else old(connections) - {c})
      ensures totalConnections == old(totalConnections) - (if cancelled || borrowed then 0 else 1) && closed == old(closed)
      ensures idleConnChan == old(idleConnChan)
    {
      hide Inv, Run;
      ReceivedKnown(call);
      Take(PoolProtocol.Decide(call, now));
      if closed {
        return true, false;
      }
      if c.healthy && now - c.lastUsed <= limits.idleTimeout && c.status.Idle? {
        c.status := InUse;
        connWG := connWG + 1;
        return false, true;
      }
      Forget(c);
      return false, false;
    }

    lemma ReceivedKnown(call: Call)
      requires Valid() && call in world.phases && InHands(world.phases[call])
      ensures world.phases[call].conn in made && world.phases[call].conn in world.pool.info && world.phases[call].conn in connections
      ensures world.phases[call].conn.status.Idle? && 0 < totalConnections <= limits.maxConnections
    {
      assert IdleIn(world.pool, world.phases[call].conn);
    }

    method Forget(c: Connection)
      modifies `connections, `totalConnections
      ensures State() == Discarded(old(State()), c)
      ensures connections == old(connections) - {c} && totalConnections == old(totalConnections) - 1
    {
      connections := connections - {c};
      totalConnections := totalConnections - 1;
    }

    /** Makes a new connection and lends it, if the limit and the close allow it. */
    method Create(ghost call: Call, now: Time) returns (c: Connection?)
      requires Valid() && LockFree(world) && In(world, call, Creating)
      modifies this
      ensures Valid() && (c != null <==> old(totalConnections) < limits.maxConnections && !old(closed))
      ensures c == null ==> Takes(NoRoom(call))
      ensures c != null ==> fresh(c) && made == old(made) + {c} && Takes(PoolProtocol.Create(call, c, now))
      ensures c != null ==>
        && c.status.InUse? && c.healthy && c.lastUsed == now && connections == old(connections) + {c}
        && totalConnections == old(totalConnections) + 1 && connWG == old(connWG) + 1
      ensures closed == old(closed) && idleConnChan == old(idleConnChan)
    {
      hide Inv, Run, Do;
      if totalConnections < limits.maxConnections && !closed {
        c := new Connection(now);
        CreateDoes(limits, world, call, c, now);
        Take(PoolProtocol.Create(call, c, now));
        Lend(c, now);
      } else {
        NoRoomDoes(limits, world, call);
        Take(NoRoom(call));
        c := null;
      }
    }

    /** Enters a connection made just now, in use. */
    method Lend(c: Connection, now: Time)
      requires c.healthy && c.lastUsed == now
      modifies `totalConnections, `connWG, `connections, `made, c`status
      ensures State() == AfterCreate(old(State()), c, now) && made == old(made) + {c}
      ensures c.status.InUse? && connections == old(connections) + {c}
      ensures totalConnections == old(totalConnections) + 1 && connWG == old(connWG) + 1
    {
      c.status := InUse;
      totalConnections := totalConnections + 1;
      connWG := connWG + 1;
      connections := connections + {c};
      made := made + {c};
    }

    // ---------- A whole Acquire, when nothing comes in between ----------

    ghost predicate FirstUsable(now: Time)
      reads this, idleConnChan
    {
      idleConnChan != [] && idleConnChan[0].healthy && now - idleConnChan[0].lastUsed <= limits.idleTimeout
    }

    /** Up to the second select: the first idle connection if it is usable; otherwise a new one, if there is room. */
    method Acquire(ghost call: Call, now: Time) returns (c: Connection?)
      requires Valid() && LockFree(world) && !closed && call !in world.phases
      modifies this, made
      ensures Valid() && LockFree(world) && !closed
      ensures c != null ==> In(world, call, Holding(c)) && c.status.InUse? && c in connections
      ensures c == null ==> In(world, call, Waiting) && idleConnChan == [] && totalConnections >= limits.maxConnections
      ensures old(FirstUsable(now)) ==> c == old(idleConnChan[0])
      ensures !old(FirstUsable(now)) ==> c == null || fresh(c)
    {
      hide Inv, Run;
      Proceed(Event.Acquire(call));
      c := FromTheTop(call, now);
    }

    /** One turn of the loop of Acquire, up to the second select. */
    method FromTheTop(ghost call: Call, now: Time) returns (c: Connection?)
      requires Valid() && LockFree(world) && !closed && In(world, call, Starting)
      modifies this, made
      ensures Valid() && LockFree(world) && !closed
      ensures c != null ==> In(world, call, Holding(c)) && c.status.InUse? && c in connections
      ensures c == null ==> In(world, call, Waiting) && idleConnChan == [] && totalConnections >= limits.maxConnections
      ensures old(FirstUsable(now)) ==> c == old(idleConnChan[0])
      ensures !old(FirstUsable(now)) ==> c == null || fresh(c)
    {
      hide Inv, Run;
      c := Poll(call);
      if c != null {
        ReceivedKnown(call);
        var cancelled, borrowed := Decide(c, call, now);
        if borrowed {
          return c;
        }
      }
      c := Create(call, now);
    }

    /** The second select, once a connection has come: it is lent, or discarded and the loop begins again. */
    method Resume(ghost call: Call, now: Time) returns (c: Connection?)
      requires Valid() && LockFree(world) && !closed && In(world, call, Waiting) && idleConnChan != []
      modifies this, made
      ensures Valid() && LockFree(world) && !closed
      ensures c != null ==> In(world, call, Holding(c)) && c.status.InUse? && c in connections
      ensures c == null ==> In(world, call, Waiting) && idleConnChan == [] && totalConnections >= limits.maxConnections
      ensures old(FirstUsable(now)) ==> c == old(idleConnChan[0])
    {
      hide Inv, Run;
      c := Await(call);
      ReceivedKnown(call);
      var cancelled, borrowed := Decide(c, call, now);
      if borrowed {
        return c;
      }
      c := FromTheTop(call, now);
    }

    /** The step of the protocol that a release is: of a connection that the call holds, or of any other. */
    ghost function ReleaseEvent(holder: Option<Call>, conn: Connection, now: Time): Event {
      match holder
      case Some(call) => PoolProtocol.Release(call, now)
      case None => StrayRelease(conn, now)
    }

    ghost predicate MayRelease(holder: Option<Call>, conn: Connection)
      reads `world
    {
      LockFree(world) && (holder.Some? ==> In(world, holder.value, Holding(conn)))
    }

    /** The whole of a release: the send follows at once, if there is one. */
    twostate predicate TakesRelease(holder: Option<Call>, conn: Connection, now: Time)
      reads this
    {
      var e := ReleaseEvent(holder, conn, now);
      && Enabled(limits, old(world), e)
      && var after := Do(limits, old(world), e);
         if after.sending.Some? then world == Do(limits, after, Send) && events == old(events) + [e, Send] else Takes(e)
    }

    /** Gives a connection back, up to the look at the channel's length; a send may be left to do. */
    method Return(conn: Connection, ghost holder: Option<Call>, now: Time) returns (err: Option<ReleaseError>, sends: bool)
      requires Valid() && MayRelease(holder, conn)
      modifies this, made
      ensures Valid() && made == old(made) && idleConnChan == old(idleConnChan)
      ensures Takes(ReleaseEvent(holder, conn, now))
      ensures err == if conn !in old(connections) then Some(Foreign) else if old(conn.status.Idle?) then Some(NotInUse) else None
      ensures sends == (err.None? && !old(closed) && |old(idleConnChan)| != limits.idleConnections)
      ensures world.sending == if sends then Some(conn) else None
      ensures sends ==> conn.lastUsed == now
      ensures err.None? ==>
        && conn.status.Idle? && connWG == old(connWG) - 1
        && connections == (if sends then old(connections) else old(connections) - {conn})
        && totalConnections == old(totalConnections) - if sends then 0 else 1
    {
      hide Inv, Run, Do, AfterRelease;
      Known();
      ghost var e := ReleaseEvent(holder, conn, now);
      ReleaseDoes(limits, world, e, conn, now);
      ghost var before := State();
      Take(e);
      assert State() == before;
      if conn !in connections {
        return Some(Foreign), false;
      }
      if conn.status != InUse {
        return Some(NotInUse), false;
      }
      sends := GiveBack(conn, now);
      return None, sends;
    }

    /** What a release does with a connection in use; answers whether it is left to be sent. */
    method GiveBack(conn: Connection, now: Time) returns (sends: bool)
      requires Releasable(State(), conn)
      modifies `connWG, `connections, `totalConnections, conn
      ensures State() == AfterRelease(limits, old(State()), conn, now)
      ensures sends == (!closed && |idleConnChan| != limits.idleConnections)
      ensures conn.status.Idle? && connWG == old(connWG) - 1 && (sends ==> conn.lastUsed == now)
      ensures connections == (if sends then old(connections) else old(connections) - {conn})
      ensures totalConnections == old(totalConnections) - if sends then 0 else 1
    {
      MarkIdle(conn);
      if closed {
        Forget(conn);
        return false;
      }
      Refresh(conn, now);
      if |idleConnChan| == limits.idleConnections {
        Forget(conn);
        return false;
      }
      return true;
    }

    method Refresh(c: Connection, now: Time)
      requires c in made
      modifies c`lastUsed
      ensures c.lastUsed == now
      ensures State() == old(State()).(info := old(State()).info[c := old(State()).info[c].(lastUsed := now)])
    {
      c.lastUsed := now;
    }

    method MarkIdle(c: Connection)
      requires c in made
      modifies `connWG, c`status
      ensures State() == WithStatus(old(State()), c, Idle).(inUse := old(connWG) - 1)
      ensures c.status.Idle? && connWG == old(connWG) - 1
    {
      c.status := Idle;
      connWG := connWG - 1;
    }

    /** The send at the end of a release, still under the lock: there is room for it. */
    method SendIdle(conn: Connection)
      requires Valid() && world.sending == Some(conn)
      modifies `idleConnChan, `events, `world
      ensures Valid() && Takes(Send) && |old(idleConnChan)| < limits.idleConnections
    {
      hide Inv, Run;
      RoomToSend();
      Take(Send);
      idleConnChan := idleConnChan + [conn];
    }

    /** A whole release, when no receive comes between its look at the channel and its send. */
    method Release(conn: Connection?, ghost holder: Option<Call>, now: Time) returns (err: Option<ReleaseError>)
      requires Valid() && (conn != null ==> MayRelease(holder, conn))
      modifies this, made
      ensures Valid() && made == old(made)
      ensures conn == null ==> err == Some(Nil) && world == old(world)
      ensures conn != null ==>
        err == if conn !in old(connections) then Some(Foreign) else if old(conn.status.Idle?) then Some(NotInUse) else None
      ensures conn != null ==> TakesRelease(holder, conn, now)
    {
      hide Inv, Run;
      if conn == null {
        return Some(Nil);
      }
      var sends: bool;
      err, sends := Return(conn, holder, now);
      if sends {
        SendIdle(conn);
      }
    }

    /** The critical section with which a Shutdown begins. */
    method Close(ghost call: Call)
      requires Valid() && LockFree(world) && call !in world.phases
      modifies `closed, `events, `world
      ensures Valid() && Takes(Shutdown(call))
    {
      hide Inv, Run;
      Take(Shutdown(call));
      closed := true;
    }

    /** A Shutdown takes an idle connection out of the channel, or is done if there is none. */
    method DrainOne(ghost call: Call) returns (c: Connection?)
      requires Valid() && In(world, call, Draining)
      modifies `idleConnChan, `events, `world
      ensures Valid() && (c == null <==> old(idleConnChan) == [])
      ensures c == null ==> Takes(DrainDone(call))
      ensures c != null ==> c == old(idleConnChan)[0] && Takes(DrainReceive(call))
    {
      hide Inv, Run;
      ghost var e := if idleConnChan == [] then DrainDone(call) else DrainReceive(call);
      Take(e);
      if idleConnChan == [] {
        return null;
      }
      c := idleConnChan[0];
      idleConnChan := idleConnChan[1..];
    }

    method DeleteDrained(c: Connection, ghost call: Call)
      requires Valid() && LockFree(world) && In(world, call, Deleting(c))
      modifies `connections, `totalConnections, `events, `world
      ensures Valid() && Takes(DrainDelete(call))
    {
      hide Inv, Run;
      Take(DrainDelete(call));
      Forget(c);
    }

    /** A connection may break, or recover, at any time. */
    method SetHealth(c: Connection, healthy: bool)
      requires Valid() && c in made
      modifies c`healthy, `events, `world
      ensures Valid() && Takes(ChangeHealth(c, healthy))
    {
      hide Inv, Run;
      Known();
      Take(ChangeHealth(c, healthy));
      c.healthy := healthy;
    }
  }
}
