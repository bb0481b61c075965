/** The expiry heap of the key-value store: a binary heap of items that know their own slot. */
module ExpiryHeaps {
  import opened HeapOrder

  type Key = string

  /** Instants of the monotonic clock, in nanoseconds. */
  type Time = int

  class ExpiryItem {
    const key: Key
    var expiresAt: Time
    var position: int

    constructor (key: Key, expiresAt: Time)
      ensures this.key == key && this.expiresAt == expiresAt
    {
      this.key := key;
      this.expiresAt := expiresAt;
      this.position := 0;
    }
  }

  ghost function KeysOf(items: seq<ExpiryItem>): (ks: seq<int>)
    reads items
    ensures |ks| == |items| && forall i :: 0 <= i < |items| ==> ks[i] == items[i].expiresAt
  {
    if items == [] then [] else KeysOf(items[..|items| - 1]) + [items[|items| - 1].expiresAt]
  }

  class ExpiryHeap {
    var store: seq<ExpiryItem>

    constructor ()
      ensures Valid() && store == []
    {
      store := [];
    }

    ghost function Items(): set<ExpiryItem>
      reads this
    {
      set x | x in store
    }

    /** Every item's position is the slot it is in; so no item is in two slots. */
    ghost predicate Tracked()
      reads this, store
    {
      forall i :: 0 <= i < |store| ==> store[i].position == i
    }

    ghost predicate Valid()
      reads this, store
    {
      Tracked() && IsHeap(KeysOf(store), |store|)
    }

    predicate Less(i: nat, j: nat)
      requires i < |store| && j < |store|
      reads this, store
    {
      store[i].expiresAt < store[j].expiresAt
    }

    method Swap(i: nat, j: nat)
      requires i < |store| && j < |store| && Tracked()
      modifies this, Items()`position
      ensures Tracked() && store == Swapped(old(store), i, j) && Items() == old(Items())
      ensures KeysOf(store) == Swapped(old(KeysOf(store)), i, j)
    {
      store := store[i := store[j]][j := store[i]];
      store[i].position := i;
      store[j].position := j;
    }

    /** Adds an item in the last slot, where it need not be in order. */
    method Push(item: ExpiryItem)
      requires Tracked() && item !in store
      modifies this, item`position
      ensures Tracked() && store == old(store) + [item] && Items() == old(Items()) + {item}
      ensures KeysOf(store) == old(KeysOf(store)) + [item.expiresAt]
    {
      item.position := |store|;
      store := store + [item];
    }

    /** Takes the item in the last slot. */
    method Pop() returns (item: ExpiryItem)
      requires Tracked() && store != []
      modifies this, Items()`position
      ensures Tracked() && store == old(store)[..|old(store)| - 1] && item == old(store)[|old(store)| - 1]
      ensures item !in store && Items() == old(Items()) - {item} && item.position == -1
      ensures KeysOf(store) == old(KeysOf(store))[..|store|]
    {
      var n := |store|;
      item := store[n - 1];
      assert forall i :: 0 <= i < n - 1 ==> store[i] != item;
      store := store[..n - 1];
      item.position := -1;
    }

    method Peek() returns (item: ExpiryItem?)
      requires Valid()
      ensures item == null <==> store == []
      ensures item != null ==> item == store[0] && forall x :: x in store ==> item.expiresAt <= x.expiresAt
    {
      if |store| == 0 {
        return null;
      }
      LeastFirst(this);
      return store[0];
    }
  }

  // ---------- Go's container/heap on top of it ----------

  /** Sifts the item in slot `slot` towards the root. */
  method Up(h: ExpiryHeap, slot: nat, ghost n: nat)
    requires h.Tracked() && HeapExceptAbove(KeysOf(h.store), n, slot)
    modifies h, h.Items()`position
    ensures h.Tracked() && h.Items() == old(h.Items()) && |h.store| == |old(h.store)|
    ensures IsHeap(KeysOf(h.store), n)
    ensures h.store[n..] == old(h.store[n..])
  {
    hide KeysOf, IsHeap, HeapExceptAround;
    var j := slot;
    AboveBounds(KeysOf(h.store), n, j);
    while true
      invariant h.Tracked() && h.Items() == old(h.Items()) && |h.store| == |old(h.store)|
      invariant 0 <= j < n <= |h.store| && HeapExceptAbove(KeysOf(h.store), n, j)
      invariant h.store[n..] == old(h.store[n..])
      decreases j
    {
      var i := Parent(j);
      if i == j || !h.Less(j, i) {
        break;
      }
      SwapUp(KeysOf(h.store), n, j);
      h.Swap(i, j);
      j := i;
    }
    UpDone(KeysOf(h.store), n, j);
  }

  /** Sifts the item in slot `slot` away from the root, among the first `n` slots; answers whether it moved. */
  method Down(h: ExpiryHeap, slot: nat, n: nat) returns (moved: bool)
    requires h.Tracked() && HeapExceptAround(KeysOf(h.store), n, slot)
    modifies h, h.Items()`position
    ensures h.Tracked() && h.Items() == old(h.Items()) && |h.store| == |old(h.store)|
    ensures if moved then IsHeap(KeysOf(h.store), n) else HeapExceptAbove(KeysOf(h.store), n, slot)
    ensures h.store[n..] == old(h.store[n..])
  {
    hide KeysOf, IsHeap, HeapExceptAbove, HeapExceptAround, HeapExceptBelow, SmallerChild, Settled, Swapped, InOrder;
    var i := slot;
    AroundBounds(KeysOf(h.store), n, i);
    while true
      invariant h.Tracked() && h.Items() == old(h.Items()) && |h.store| == |old(h.store)|
      invariant slot <= i < n <= |h.store| && HeapExceptAround(KeysOf(h.store), n, i)
      invariant i > slot ==> InOrder(KeysOf(h.store), i)
      invariant h.store[n..] == old(h.store[n..])
      decreases n - i
    {
      var j1 := 2 * i + 1;
      if j1 >= n {
        SettledBy(KeysOf(h.store), n, i, i);
        break;
      }
      ChooseChild(KeysOf(h.store), n, i);
      var j := j1;
      var j2 := j1 + 1;
      if j2 < n && h.Less(j2, j1) {
        j := j2;
      }
      if !h.Less(j, i) {
        SettledBy(KeysOf(h.store), n, i, j);
        break;
      }
      SiftedDown(KeysOf(h.store), n, i, j);
      SameSuffix(h.store, i, j, n);
      h.Swap(i, j);
      i := j;
    }
    DownDone(KeysOf(h.store), n, i);
    return i > slot;
  }

  method HeapPush(h: ExpiryHeap, item: ExpiryItem)
    requires h.Valid() && item !in h.store
    modifies h, h.Items()`position, item`position
    ensures h.Valid() && h.Items() == old(h.Items()) + {item}
  {
    hide KeysOf, IsHeap, HeapExceptAbove;
    AppendedKey(KeysOf(h.store), item.expiresAt);
    h.Push(item);
    Up(h, |h.store| - 1, |h.store|);
  }

  lemma LeastFirst(h: ExpiryHeap)
    requires h.Valid()
    ensures forall x :: x in h.store ==> h.store[0].expiresAt <= x.expiresAt
  {
    hide KeysOf, IsHeap;
    forall k | 0 <= k < |h.store|
      ensures h.store[0].expiresAt <= h.store[k].expiresAt
    {
      RootIsLeast(KeysOf(h.store), |h.store|, k);
    }
  }

  method HeapPop(h: ExpiryHeap) returns (item: ExpiryItem)
    requires h.Valid() && h.store != []
    modifies h, h.Items()`position
    ensures h.Valid() && item == old(h.store)[0] && h.Items() == old(h.Items()) - {item} && item.position == -1
    ensures forall x :: x in old(h.store) ==> item.expiresAt <= x.expiresAt
  {
    hide KeysOf, HeapExceptAround, HeapExceptAbove, IsHeap, Swapped;
    LeastFirst(h);
    var n := |h.store| - 1;
    ghost var ks := KeysOf(h.store);
    h.Swap(0, n);
    if n > 0 {
      LastIntoSlot(ks, 0);
      var moved := Down(h, 0, n);
      if !moved {
        UpDone(KeysOf(h.store), n, 0);
      }
    } else {
      EmptyHeap(KeysOf(h.store));
    }
    FirstKeys(KeysOf(h.store), n);
    item := h.Pop();
  }

  method HeapRemove(h: ExpiryHeap, i: nat) returns (item: ExpiryItem)
    requires h.Valid() && i < |h.store|
    modifies h, h.Items()`position
    ensures h.Valid() && item == old(h.store)[i] && h.Items() == old(h.Items()) - {item} && item.position == -1
  {
    hide KeysOf, HeapExceptAround, HeapExceptAbove, IsHeap, Swapped;
    var n := |h.store| - 1;
    ghost var ks := KeysOf(h.store);
    if n != i {
      LastIntoSlot(ks, i);
      h.Swap(i, n);
      var moved := Down(h, i, n);
      if !moved {
        Up(h, i, n);
      }
    } else {
      FewerKeys(ks, n);
    }
    FirstKeys(KeysOf(h.store), n);
    item := h.Pop();
  }

  /** Restores the order after the key in slot `i` has changed either way. */
  method HeapFix(h: ExpiryHeap, i: nat)
    requires h.Tracked() && HeapExceptAround(KeysOf(h.store), |h.store|, i)
    modifies h, h.Items()`position
    ensures h.Valid() && h.Items() == old(h.Items())
  {
    hide KeysOf, IsHeap, HeapExceptAround, HeapExceptAbove;
    var moved := Down(h, i, |h.store|);
    if !moved {
      Up(h, i, |h.store|);
    }
  }
}
