/** The in-memory key-value store with expiring keys: one method per critical section.

  The store keeps a map, an index of expiry items and a heap of the same items; a background cleaner
  removes expired keys, sleeping in between on a timer and a one-slot wake-up channel. */
module KeyValueStores {
  import opened ExpiryHeaps
  import opened HeapOrder

  datatype Entry<V> = Entry(value: V, expires: bool, expiresAt: Time)

  type Table<V> = map<Key, Entry<V>>

  // ---------- What callers are promised ----------

  /** The entry may be returned at `now`. */
  predicate Fresh<V>(e: Entry<V>, now: Time) {
    !e.expires || now <= e.expiresAt
  }

  /** The entry's deadline has not been reached at `now`. */
  predicate BeforeDeadline<V>(e: Entry<V>, now: Time) {
    !e.expires || now < e.expiresAt
  }

  /** `store` holds what a table that never forgets would hold, except for some keys whose deadline has come. */
  ghost predicate Represents<V>(store: Table<V>, ideal: Table<V>, clock: Time) {
    && (forall k :: k in store ==> k in ideal && ideal[k] == store[k])
    && (forall k :: k in ideal && k !in store ==> !BeforeDeadline(ideal[k], clock))
  }

  /** What a lookup at `now` may answer about a table that never forgets: before its deadline the
      latest value is found, strictly after it none is, and at the deadline itself it may be either. */
  ghost predicate Allowed<V>(ideal: Table<V>, key: Key, now: Time, found: bool) {
    && (found ==> key in ideal && Fresh(ideal[key], now))
    && (!found ==> key in ideal ==> !BeforeDeadline(ideal[key], now))
  }

  /** From `at` on the key has this value: for ever with a TTL of zero, otherwise for as long as that. */
  ghost predicate HoldsUntil<V>(ideal: Table<V>, key: Key, value: V, ttl: int, at: Time) {
    && key in ideal && ideal[key].value == value
    && (forall t :: BeforeDeadline(ideal[key], t) <==> ttl == 0 || t < at + ttl)
    && (forall t :: Fresh(ideal[key], t) <==> ttl == 0 || t <= at + ttl)
  }

  lemma LookupAllowed<V>(store: Table<V>, ideal: Table<V>, clock: Time, key: Key, now: Time)
    requires Represents(store, ideal, clock) && clock <= now
    ensures Allowed(ideal, key, now, key in store && Fresh(store[key], now))
    ensures key in store ==> store[key] == ideal[key]
  {
  }

  /** Answers are determined except at the very instant of the deadline. */
  lemma AllowedIsDetermined<V>(ideal: Table<V>, key: Key, now: Time)
    ensures Allowed(ideal, key, now, true) && Allowed(ideal, key, now, false) <==>
      key in ideal && ideal[key].expires && ideal[key].expiresAt == now
    ensures Allowed(ideal, key, now, true) || Allowed(ideal, key, now, false)
  {
  }

  lemma RepresentsLater<V>(store: Table<V>, ideal: Table<V>, clock: Time, later: Time)
    requires Represents(store, ideal, clock) && clock <= later
    ensures Represents(store, ideal, later)
  {
  }

  lemma PutBoth<V>(store: Table<V>, ideal: Table<V>, clock: Time, key: Key, e: Entry<V>)
    requires Represents(store, ideal, clock)
    ensures Represents(store[key := e], ideal[key := e], clock)
  {
  }

  /** Dropping a key whose deadline has come loses nothing. */
  lemma DropExpired<V>(store: Table<V>, ideal: Table<V>, clock: Time, key: Key)
    requires Represents(store, ideal, clock) && key in store && !BeforeDeadline(store[key], clock)
    ensures Represents(store - {key}, ideal, clock)
  {
  }

  // ---------- The cleaner's loop ----------

  /** `Peeked(d)`: about to compute its wait from the deadline `d`. `Due`: about to pop. `Asleep`: waiting for
      a wake-up only, or for the timer at the given deadline as well. */
  datatype Cleaner = Top | Peeked(deadline: Time) | Due | AsleepForever | AsleepUntil(deadline: Time) | Stopped

  /** What a reader sees under the read lock. */
  datatype Lookup<V> = ShutDown | Missing | Present(entry: Entry<V>)

  datatype Answer<V> = NotFound | Found(value: V)

  /** What another thread may do while a lookup is under way. */
  datatype Step<V> = Setting(key: Key, value: V, ttl: int) | Deleting(key: Key) | Expiring(key: Key) | ShuttingDown | Cleaning

  datatype Action<V> = Action(at: Time, step: Step<V>)

  /** None of the actions changes what callers are promised. */
  ghost predicate OnlyCleaning<V>(actions: seq<Action<V>>) {
    forall i :: 0 <= i < |actions| ==> actions[i].step.Expiring? || actions[i].step.Cleaning?
  }

  /** The actions come one after the other, none before `from` or after `to`. */
  ghost predicate Chronological<V>(from: Time, actions: seq<Action<V>>, to: Time) {
    && from <= to
    && (forall i :: 0 <= i < |actions| ==> from <= actions[i].at <= to)
    && (forall i, j :: 0 <= i < j < |actions| ==> actions[i].at <= actions[j].at)
  }

  /** The answer is what a store that holds `ideal` may give at every moment between `from` and `to`. */
  ghost predicate Answers<V>(ideal: Table<V>, shutdown: bool, key: Key, from: Time, to: Time, a: Answer<V>) {
    if shutdown then a == NotFound
    else
      && Allowed(ideal, key, from, a.Found?) && Allowed(ideal, key, to, a.Found?)
      && (a.Found? ==> a.value == ideal[key].value)
  }

  /** A lookup that nothing interrupts finds the latest value before its deadline and nothing after it. */
  lemma UninterruptedAnswer<V>(ideal: Table<V>, key: Key, read: Time, now: Time, later: Time, a: Answer<V>)
    requires read <= now <= later
    requires Answers(ideal, false, key, read, now, a) || Answers(ideal, false, key, later, later, a)
    ensures a.Found? ==> key in ideal && a.value == ideal[key].value && Fresh(ideal[key], now)
    ensures key in ideal && BeforeDeadline(ideal[key], later) ==> a == Found(ideal[key].value)
    ensures key in ideal && !Fresh(ideal[key], now) ==> a == NotFound
  {
  }

  datatype SetError = Ok | NegativeTTL | Closing

  class KeyValueStore<V> {
    var store: Table<V>
    const expiryHeap: ExpiryHeap
    var expiryIndex: map<Key, ExpiryItem>
    var wakeup: bool
    var shutdown: bool
    var cleaner: Cleaner
    /** The table of a store that never forgets, and the latest clock reading. */
    ghost var ideal: Table<V>
    ghost var clock: Time

    /** Index, heap and expiring keys are in bijection, with equal deadlines. */
    ghost predicate Indexed()
      reads `store, `expiryIndex, expiryHeap, expiryHeap.Items()
    {
      && (forall k :: k in expiryIndex <==> k in store && store[k].expires)
      && (forall k :: k in expiryIndex ==>
        expiryIndex[k] in expiryHeap.Items() && expiryIndex[k].key == k && expiryIndex[k].expiresAt == store[k].expiresAt)
      && (forall x :: x in expiryHeap.Items() ==> x.key in expiryIndex && expiryIndex[x.key] == x)
    }

    /** The cleaner will notice the earliest deadline: either it sleeps no longer than that, or a wake-up is pending. */
    ghost predicate NoLostWakeup()
      reads `cleaner, `wakeup, `shutdown, expiryHeap, expiryHeap.Items()
    {
      match cleaner
      case Peeked(d) => wakeup || forall x :: x in expiryHeap.Items() ==> d <= x.expiresAt
      case AsleepUntil(d) => wakeup || forall x :: x in expiryHeap.Items() ==> d <= x.expiresAt
      case AsleepForever => wakeup || expiryHeap.Items() == {}
      case Top => true
      case Due => true
      case Stopped => shutdown
    }

    ghost predicate Valid()
      reads this, expiryHeap, expiryHeap.Items()
    {
      expiryHeap.Valid() && Indexed() && NoLostWakeup() && Represents(store, ideal, clock)
    }

    constructor (ghost now: Time)
      ensures Valid() && fresh(expiryHeap) && !shutdown && ideal == map[] && clock == now
    {
      store := map[];
      expiryHeap := new ExpiryHeap();
      expiryIndex := map[];
      wakeup := false;
      shutdown := false;
      cleaner := Top;
      ideal := map[];
      clock := now;
    }

    method SignalCleanup()
      modifies `wakeup
      ensures wakeup
    {
      wakeup := true;
    }

    /** Takes a key out of heap and index. */
    method DropItem(key: Key)
      requires expiryHeap.Valid() && key in expiryIndex && expiryIndex[key] in expiryHeap.Items()
      modifies `expiryIndex, expiryHeap, expiryHeap.Items()`position
      ensures expiryHeap.Valid()
      ensures expiryIndex == old(expiryIndex) - {key}
      ensures expiryHeap.Items() == old(expiryHeap.Items()) - {old(expiryIndex)[key]}
    {
      var item := expiryIndex[key];
      assert item in expiryHeap.store;
      ghost var i :| 0 <= i < |expiryHeap.store| && expiryHeap.store[i] == item;
      var removed := HeapRemove(expiryHeap, item.position);
      expiryIndex := expiryIndex - {key};
    }

    function NewEntry(value: V, ttl: int, now: Time): Entry<V> {
      if ttl == 0 then Entry(value, false, 0) else Entry(value, true, now + ttl)
    }

    method Set(key: Key, value: V, ttl: int, now: Time) returns (error: SetError)
      requires Valid() && clock <= now
      modifies this, expiryHeap, expiryHeap.Items()
      ensures Valid() && clock == now && shutdown == old(shutdown) && cleaner == old(cleaner)
      ensures fresh(expiryHeap.Items() - old(expiryHeap.Items()))
      ensures error == NegativeTTL <==> ttl < 0
      ensures error == Closing <==> ttl >= 0 && old(shutdown)
      ensures error == Ok ==>
        store == old(store)[key := NewEntry(value, ttl, now)] && ideal == old(ideal)[key := NewEntry(value, ttl, now)]
      ensures error == Ok ==> HoldsUntil(ideal, key, value, ttl, now) && forall k :: k in old(ideal) && k != key ==> k in ideal && ideal[k] == old(ideal)[k]
      ensures error != Ok ==> store == old(store) && ideal == old(ideal)
    {
      hide IsHeap, KeysOf, Represents, Indexed, NoLostWakeup, ExpiryHeap.Valid;
      RepresentsLater(store, ideal, clock, now);
      clock := now;
      if ttl < 0 {
        return NegativeTTL;
      }
      if shutdown {
        return Closing;
      }
      var entry := NewEntry(value, ttl, now);
      assert HoldsUntil(ideal[key := entry], key, value, ttl, now);
      PutBoth(store, ideal, now, key, entry);
      ideal := ideal[key := entry];
      if ttl == 0 {
        PutForever(key, entry);
      } else {
        NotStopped();
        PutExpiring(key, entry);
        WokenUp();
      }
      return Ok;
    }

    lemma NotStopped()
      requires NoLostWakeup() && !shutdown
      ensures cleaner != Stopped
    {
    }

    /** With a wake-up pending the cleaner can miss nothing. */
    lemma WokenUp()
      requires wakeup && cleaner != Stopped
      ensures NoLostWakeup()
    {
    }

    method PutForever(key: Key, entry: Entry<V>)
      requires expiryHeap.Valid() && Indexed() && NoLostWakeup() && !entry.expires
      modifies `store, `expiryIndex, `wakeup, expiryHeap, expiryHeap.Items()`position
      ensures expiryHeap.Valid() && Indexed() && NoLostWakeup() && store == old(store)[key := entry]
      ensures expiryHeap.Items() <= old(expiryHeap.Items())
    {
      hide IsHeap, KeysOf, ExpiryHeap.Valid, Indexed, NoLostWakeup;
      if key in store && store[key].expires {
        ForgetKey(key);
      }
      StayPut(key, entry);
    }

    /** Puts a key that is in neither heap nor index. */
    method StayPut(key: Key, entry: Entry<V>)
      requires Indexed() && NoLostWakeup() && !entry.expires && (key in store ==> !store[key].expires)
      modifies `store
      ensures Indexed() && NoLostWakeup() && store == old(store)[key := entry]
    {
      store := store[key := entry];
    }

    method PutExpiring(key: Key, entry: Entry<V>)
      requires expiryHeap.Valid() && Indexed() && entry.expires
      modifies `store, `expiryIndex, `wakeup, expiryHeap, expiryHeap.Items()
      ensures expiryHeap.Valid() && Indexed() && wakeup && store == old(store)[key := entry]
      ensures fresh(expiryHeap.Items() - old(expiryHeap.Items()))
    {
      hide IsHeap, KeysOf, ExpiryHeap.Valid, Indexed;
      if key in store && store[key].expires {
        PutAgain(key, entry);
      } else {
        PutNew(key, entry);
      }
      SignalCleanup();
    }

    method PutAgain(key: Key, entry: Entry<V>)
      requires expiryHeap.Valid() && Indexed() && entry.expires && key in store && store[key].expires
      modifies `store, expiryHeap, expiryHeap.Items()
      ensures expiryHeap.Valid() && Indexed() && store == old(store)[key := entry]
      ensures expiryHeap.Items() == old(expiryHeap.Items())
    {
      hide IsHeap, KeysOf, ExpiryHeap.Valid;
      Rekey(key, entry.expiresAt);
      store := store[key := entry];
    }

    method PutNew(key: Key, entry: Entry<V>)
      requires expiryHeap.Valid() && Indexed() && entry.expires && (key in store ==> !store[key].expires)
      modifies `store, `expiryIndex, expiryHeap, expiryHeap.Items()`position
      ensures expiryHeap.Valid() && Indexed() && store == old(store)[key := entry]
      ensures fresh(expiryHeap.Items() - old(expiryHeap.Items()))
    {
      hide IsHeap, KeysOf, ExpiryHeap.Valid;
      AddItem(key, entry.expiresAt);
      store := store[key := entry];
    }

    /** Gives an indexed key another deadline, earlier or later. */
    method Rekey(key: Key, expiresAt: Time)
      requires expiryHeap.Valid() && Indexed() && key in expiryIndex
      modifies expiryHeap, expiryHeap.Items()
      ensures expiryHeap.Valid() && expiryHeap.Items() == old(expiryHeap.Items())
      ensures expiryIndex[key].expiresAt == expiresAt
      ensures forall x :: x in expiryHeap.Items() && x != expiryIndex[key] ==> x.expiresAt == old(x.expiresAt)
    {
      var item := expiryIndex[key];
      assert item in expiryHeap.store;
      ghost var i :| 0 <= i < |expiryHeap.store| && expiryHeap.store[i] == item;
      ghost var ks := KeysOf(expiryHeap.store);
      Rekeyed(ks, i, expiresAt);
      item.expiresAt := expiresAt;
      assert KeysOf(expiryHeap.store) == ks[i := expiresAt];
      HeapFix(expiryHeap, item.position);
    }

    /** Puts a key that had no deadline into heap and index. */
    method AddItem(key: Key, expiresAt: Time)
      requires expiryHeap.Valid() && Indexed() && key !in expiryIndex
      modifies `expiryIndex, expiryHeap, expiryHeap.Items()`position
      ensures expiryHeap.Valid() && key in expiryIndex && fresh(expiryIndex[key])
      ensures expiryIndex == old(expiryIndex)[key := expiryIndex[key]]
      ensures expiryHeap.Items() == old(expiryHeap.Items()) + {expiryIndex[key]}
      ensures expiryIndex[key].key == key && expiryIndex[key].expiresAt == expiresAt
    {
      var item := new ExpiryItem(key, expiresAt);
      HeapPush(expiryHeap, item);
      expiryIndex := expiryIndex[key := item];
    }

    /** The read-locked part of a lookup, at the moment `read`; the clock itself is read only later. */
    method ReadEntry(key: Key, ghost read: Time) returns (r: Lookup<V>)
      requires Valid() && clock <= read
      modifies `clock
      ensures Valid() && clock == read
      ensures r == ShutDown <==> shutdown
      ensures r == Missing <==> !shutdown && key !in store
      ensures r == Missing ==> Allowed(ideal, key, read, false)
      ensures r.Present? ==> key in store && r.entry == store[key] && key in ideal && r.entry == ideal[key]
      ensures r.Present? ==> forall now :: read <= now && Fresh(r.entry, now) ==> Allowed(ideal, key, read, true)
    {
      hide ExpiryHeap.Valid, Represents;
      LookupAllowed(store, ideal, clock, key, read);
      RepresentsLater(store, ideal, clock, read);
      clock := read;
      if shutdown {
        return ShutDown;
      }
      if key !in store {
        return Missing;
      }
      return Present(store[key]);
    }

    /** The write-locked part: look again, and drop the key if it has expired. */
    method ReadOrExpire(key: Key, now: Time) returns (a: Answer<V>)
      requires Valid() && clock <= now
      modifies this, expiryHeap, expiryHeap.Items()`position
      ensures Valid() && clock == now && ideal == old(ideal) && shutdown == old(shutdown) && cleaner == old(cleaner)
      ensures expiryHeap.Items() <= old(expiryHeap.Items())
      ensures shutdown ==> a == NotFound && store == old(store)
      ensures !shutdown ==> Allowed(ideal, key, now, a.Found?)
      ensures a.Found? ==> key in ideal && a.value == ideal[key].value
      ensures store == if !shutdown && key in old(store) && !Fresh(old(store)[key], now) then old(store) - {key} else old(store)
    {
      hide IsHeap, KeysOf, ExpiryHeap.Valid, Represents, NoLostWakeup, Indexed;
      LookupAllowed(store, ideal, clock, key, now);
      RepresentsLater(store, ideal, clock, now);
      clock := now;
      if shutdown {
        return NotFound;
      }
      if key !in store {
        return NotFound;
      }
      var entry := store[key];
      if entry.expires && entry.expiresAt < now {
        DropExpired(store, ideal, clock, key);
        ForgetKey(key);
        return NotFound;
      }
      return Found(entry.value);
    }

    /** Takes a key out of the store, and out of heap and index too, if it is there. */
    method ForgetKey(key: Key)
      requires expiryHeap.Valid() && Indexed() && NoLostWakeup()
      modifies `store, `expiryIndex, `wakeup, expiryHeap, expiryHeap.Items()`position
      ensures expiryHeap.Valid() && Indexed() && NoLostWakeup() && store == old(store) - {key}
      ensures expiryHeap.Items() <= old(expiryHeap.Items())
    {
      hide IsHeap, KeysOf, ExpiryHeap.Valid;
      store := store - {key};
      if key in expiryIndex {
        DropItem(key);
        SignalCleanup();
      }
    }

    // ---------- Lookups, whatever runs in between ----------

    /** One critical section or cleaner step of another thread; a step that is not possible does nothing. */
    method Perform(a: Action<V>)
      requires Valid() && clock <= a.at
      modifies this, expiryHeap, expiryHeap.Items()
      ensures Valid() && clock <= a.at && fresh(expiryHeap.Items() - old(expiryHeap.Items()))
      ensures a.step.Expiring? || a.step.Cleaning? ==> ideal == old(ideal) && shutdown == old(shutdown)
    {
      hide ExpiryHeap.Valid, Represents, Indexed, NoLostWakeup;
      match a.step {
        case Setting(key, value, ttl) => var _ := Set(key, value, ttl, a.at);
        case Deleting(key) => var _ := Delete(key);
        case Expiring(key) => var _ := ReadOrExpire(key, a.at);
        case ShuttingDown => Shutdown();
        case Cleaning => CleanerSteps(a.at);
      }
    }

    /** Whatever step the cleaner can take next, if it can take one. */
    method CleanerSteps(now: Time)
      requires Valid() && clock <= now
      modifies this, expiryHeap, expiryHeap.Items()`position
      ensures Valid() && clock <= now && expiryHeap.Items() <= old(expiryHeap.Items())
      ensures ideal == old(ideal) && shutdown == old(shutdown)
    {
      hide ExpiryHeap.Valid, Represents, Indexed, NoLostWakeup;
      if cleaner == Top {
        CleanerPeeks();
      } else if cleaner.Peeked? {
        CleanerComputesWait(now);
      } else if cleaner == Due {
        var _ := CleanerPops(now);
      } else if cleaner != Stopped && wakeup {
        CleanerWakes();
      } else if cleaner.AsleepUntil? && cleaner.deadline <= now {
        CleanerTimerFires(now);
      } else if cleaner != Stopped && shutdown {
        CleanerStops();
      }
    }

    method PerformAll(actions: seq<Action<V>>, ghost from: Time, ghost to: Time)
      requires Valid() && clock <= from && Chronological(from, actions, to)
      modifies this, expiryHeap, expiryHeap.Items()
      ensures Valid() && clock <= to && fresh(expiryHeap.Items() - old(expiryHeap.Items()))
      ensures OnlyCleaning(actions) ==> ideal == old(ideal) && shutdown == old(shutdown)
    {
      hide ExpiryHeap.Valid, Represents, Indexed, NoLostWakeup;
      for i := 0 to |actions|
        invariant Valid() && clock <= (if i == 0 then from else actions[i - 1].at)
        invariant fresh(expiryHeap.Items() - old(expiryHeap.Items()))
        invariant OnlyCleaning(actions) ==> ideal == old(ideal) && shutdown == old(shutdown)
      {
        Perform(actions[i]);
      }
    }

    /** A lookup among other threads: the entry is read at `read`; `meanwhile` happens until the clock is
        read at `now`; if the entry has expired by then, `further` happens until the second look at `later`.
        The answer is right for the table at the moment of the first look, or at that of the second. */
    method Get(key: Key, ghost read: Time, meanwhile: seq<Action<V>>, now: Time, further: seq<Action<V>>, later: Time)
      returns (a: Answer<V>)
      requires Valid() && clock <= read && Chronological(read, meanwhile, now) && Chronological(now, further, later)
      modifies this, expiryHeap, expiryHeap.Items()
      ensures Valid() && fresh(expiryHeap.Items() - old(expiryHeap.Items()))
      ensures Answers(old(ideal), old(shutdown), key, read, now, a) || Answers(ideal, shutdown, key, later, later, a)
      ensures OnlyCleaning(meanwhile) && OnlyCleaning(further) ==> ideal == old(ideal) && shutdown == old(shutdown)
    {
      hide ExpiryHeap.Valid, Indexed, NoLostWakeup, Represents;
      var r := ReadEntry(key, read);
      PerformAll(meanwhile, read, now);
      if r == ShutDown || r == Missing {
        return NotFound;
      }
      if Fresh(r.entry, now) {
        return Found(r.entry.value);
      }
      PerformAll(further, now, later);
      a := ReadOrExpire(key, later);
    }

    method Exists(key: Key, ghost read: Time, meanwhile: seq<Action<V>>, now: Time, further: seq<Action<V>>, later: Time)
      returns (found: bool, ghost a: Answer<V>)
      requires Valid() && clock <= read && Chronological(read, meanwhile, now) && Chronological(now, further, later)
      modifies this, expiryHeap, expiryHeap.Items()
      ensures Valid() && fresh(expiryHeap.Items() - old(expiryHeap.Items()))
      ensures found == a.Found?
      ensures Answers(old(ideal), old(shutdown), key, read, now, a) || Answers(ideal, shutdown, key, later, later, a)
      ensures OnlyCleaning(meanwhile) && OnlyCleaning(further) ==> ideal == old(ideal) && shutdown == old(shutdown)
    {
      var answer := Get(key, read, meanwhile, now, further, later);
      return answer.Found?, answer;
    }

    /** Answers whether the key was still in memory, which an expired key may be. */
    method Delete(key: Key) returns (existed: bool)
      requires Valid()
      modifies this, expiryHeap, expiryHeap.Items()`position
      ensures Valid() && clock == old(clock) && shutdown == old(shutdown) && cleaner == old(cleaner)
      ensures shutdown ==> !existed && ideal == old(ideal) && store == old(store)
      ensures !shutdown ==> ideal == old(ideal) - {key} && store == old(store) - {key}
      ensures expiryHeap.Items() <= old(expiryHeap.Items())
      ensures existed <==> !old(shutdown) && key in old(store)
      ensures existed ==> key in old(ideal)
      ensures !shutdown && key in old(ideal) && BeforeDeadline(old(ideal)[key], clock) ==> existed
    {
      hide ExpiryHeap.Valid, NoLostWakeup, Indexed;
      if shutdown {
        return false;
      }
      existed := key in store;
      ideal := ideal - {key};
      if existed {
        ForgetKey(key);
      }
    }

    method Shutdown()
      requires Valid()
      modifies `shutdown
      ensures Valid() && shutdown
    {
      shutdown := true;
    }

    // ---------- Steps of the cleaner ----------

    method CleanerPeeks()
      requires Valid() && cleaner == Top
      modifies `cleaner
      ensures Valid()
      ensures expiryHeap.Items() == {} ==> cleaner == AsleepForever
      ensures expiryHeap.Items() != {} ==> cleaner.Peeked? && exists x :: x in expiryHeap.Items() && x.expiresAt == cleaner.deadline
    {
      var item := expiryHeap.Peek();
      if item == null {
        cleaner := AsleepForever;
      } else {
        assert item in expiryHeap.Items();
        cleaner := Peeked(item.expiresAt);
      }
    }

    /** Outside the lock: how long is it until the deadline it saw? */
    method CleanerComputesWait(now: Time)
      requires Valid() && cleaner.Peeked?
      modifies `cleaner
      ensures Valid()
      ensures cleaner == if old(cleaner.deadline) <= now then Due else AsleepUntil(old(cleaner.deadline))
    {
      var wait := cleaner.deadline - now;
      cleaner := if wait <= 0 then Due else AsleepUntil(cleaner.deadline);
    }

    /** Looks again, and removes the key that expires first if its present deadline has come. */
    method CleanerPops(now: Time) returns (removed: set<Key>)
      requires Valid() && cleaner == Due && clock <= now
      modifies this, expiryHeap, expiryHeap.Items()`position
      ensures Valid() && cleaner == Top && clock == now && ideal == old(ideal) && shutdown == old(shutdown)
      ensures store == old(store) - removed && |removed| <= 1 && expiryHeap.Items() <= old(expiryHeap.Items())
      ensures forall k :: k in removed ==>
        k in old(store) && old(store)[k].expires && old(store)[k].expiresAt <= now
        && forall l :: l in old(store) && old(store)[l].expires ==> old(store)[k].expiresAt <= old(store)[l].expiresAt
      ensures removed == {} ==> forall l :: l in store && store[l].expires ==> now < store[l].expiresAt
    {
      hide ExpiryHeap.Valid, Represents, Indexed;
      RepresentsLater(store, ideal, clock, now);
      clock := now;
      cleaner := Top;
      removed := {};
      var item := expiryHeap.Peek();
      PeekIsEarliest(item);
      if item != null && !(now < item.expiresAt) {
        DropExpired(store, ideal, clock, item.key);
        removed := {item.key};
        PopEarliest(item);
      }
    }

    /** Takes the heap's least item out of heap, store and index. */
    method PopEarliest(ghost item: ExpiryItem)
      requires expiryHeap.Valid() && Indexed() && expiryHeap.store != [] && item == expiryHeap.store[0]
      modifies `store, `expiryIndex, expiryHeap, expiryHeap.Items()`position
      ensures expiryHeap.Valid() && Indexed() && store == old(store) - {item.key}
      ensures expiryHeap.Items() <= old(expiryHeap.Items())
    {
      hide IsHeap, KeysOf, ExpiryHeap.Valid;
      var popped := HeapPop(expiryHeap);
      store := store - {popped.key};
      expiryIndex := expiryIndex - {popped.key};
    }

    /** The heap's least item carries the earliest deadline in the store. */
    lemma PeekIsEarliest(item: ExpiryItem?)
      requires Indexed()
      requires item == null <==> expiryHeap.store == []
      requires item != null ==> item in expiryHeap.store && forall x :: x in expiryHeap.store ==> item.expiresAt <= x.expiresAt
      ensures item == null ==> forall k :: k in store ==> !store[k].expires
      ensures item != null ==> item.key in store && store[item.key].expires && store[item.key].expiresAt == item.expiresAt
      ensures item != null ==> forall k :: k in store && store[k].expires ==> item.expiresAt <= store[k].expiresAt
    {
      assert forall x :: x in expiryHeap.Items() <==> x in expiryHeap.store;
      assert forall k :: k in store && store[k].expires ==> expiryIndex[k] in expiryHeap.Items();
    }

    method CleanerWakes()
      requires Valid() && (cleaner == AsleepForever || cleaner.AsleepUntil?) && wakeup
      modifies `cleaner, `wakeup
      ensures Valid() && cleaner == Top && !wakeup
    {
      wakeup := false;
      cleaner := Top;
    }

    method CleanerTimerFires(now: Time)
      requires Valid() && cleaner.AsleepUntil? && cleaner.deadline <= now
      modifies `cleaner
      ensures Valid() && cleaner == Top
    {
      cleaner := Top;
    }

    method CleanerStops()
      requires Valid() && (cleaner == AsleepForever || cleaner.AsleepUntil?) && shutdown
      modifies `cleaner
      ensures Valid() && cleaner == Stopped
    {
      cleaner := Stopped;
    }

    /** While the cleaner sleeps and no wake-up is pending, nothing in the store expires before it rises. */
    lemma SleepIsSafe()
      requires Valid() && !wakeup
      ensures cleaner == AsleepForever ==> forall k :: k in store ==> !store[k].expires
      ensures cleaner.AsleepUntil? ==> forall k :: k in store && store[k].expires ==> cleaner.deadline <= store[k].expiresAt
    {
      forall k | k in store && store[k].expires
        ensures cleaner != AsleepForever
        ensures cleaner.AsleepUntil? ==> cleaner.deadline <= store[k].expiresAt
      {
        assert expiryIndex[k] in expiryHeap.Items();
      }
    }
  }

  /** A key that is set and then looked up, with only the cleaner and other lookups in between: the value is
      found before its time is over, and not after. */
  method SetThenGet<V>(kv: KeyValueStore<V>, key: Key, value: V, ttl: int, at: Time, ghost read: Time, meanwhile: seq<Action<V>>,
                       now: Time, further: seq<Action<V>>, later: Time) returns (a: Answer<V>)
    requires kv.Valid() && !kv.shutdown && ttl >= 0 && kv.clock <= at <= read
    requires Chronological(read, meanwhile, now) && Chronological(now, further, later)
    requires OnlyCleaning(meanwhile) && OnlyCleaning(further)
    modifies kv, kv.expiryHeap, kv.expiryHeap.Items()
    ensures ttl == 0 || later < at + ttl ==> a == Found(value)
    ensures ttl > 0 && at + ttl < now ==> a == NotFound
  {
    hide ExpiryHeap.Valid, Represents, KeyValueStore.Indexed, KeyValueStore.NoLostWakeup, BeforeDeadline, Fresh;
    var error := kv.Set(key, value, ttl, at);
    a := kv.Get(key, read, meanwhile, now, further, later);
    assert BeforeDeadline(kv.ideal[key], read) <==> ttl == 0 || read < at + ttl;
    assert BeforeDeadline(kv.ideal[key], later) <==> ttl == 0 || later < at + ttl;
    assert Fresh(kv.ideal[key], now) <==> ttl == 0 || now <= at + ttl;
    assert Fresh(kv.ideal[key], later) <==> ttl == 0 || later <= at + ttl;
  }
}
