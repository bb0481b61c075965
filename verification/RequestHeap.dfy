/** The request heaps of the elevator: one gives the lowest floor first, the other the highest. */
module RequestHeaps {
  import opened HeapOrder

  datatype Direction = Up | Down | Idle

  datatype RequestType = External | Internal

  datatype Request = Request(floor: int, direction: Direction, kind: RequestType)

  /** The floors as keys of a heap whose smallest key comes first. */
  function FloorKeys(s: seq<Request>, highestFirst: bool): (ks: seq<int>)
    ensures |ks| == |s|
    ensures forall i :: 0 <= i < |s| ==> ks[i] == if highestFirst then -s[i].floor else s[i].floor
  {
    if s == [] then []
    else FloorKeys(s[..|s| - 1], highestFirst) + [if highestFirst then -s[|s| - 1].floor else s[|s| - 1].floor]
  }

  lemma SwappedMembers(s: seq<Request>, i: nat, j: nat)
    requires i < |s| && j < |s|
    ensures multiset(Swapped(s, i, j)) == multiset(s)
  {
  }

  class RequestHeap {
    var store: seq<Request>
    const highestFirst: bool

    constructor (highestFirst: bool)
      ensures Valid() && store == [] && this.highestFirst == highestFirst
    {
      store := [];
      this.highestFirst := highestFirst;
    }

    ghost function Keys(): seq<int>
      reads this
    {
      FloorKeys(store, highestFirst)
    }

    ghost predicate Valid()
      reads this
    {
      IsHeap(Keys(), |store|)
    }

    predicate Less(i: nat, j: nat)
      requires i < |store| && j < |store|
      reads this
    {
      if highestFirst then store[i].floor > store[j].floor else store[i].floor < store[j].floor
    }

    method Swap(i: nat, j: nat)
      requires i < |store| && j < |store|
      modifies this
      ensures store == Swapped(old(store), i, j) && multiset(store) == multiset(old(store))
      ensures Keys() == Swapped(old(Keys()), i, j)
    {
      SwappedMembers(store, i, j);
      store := store[i := store[j]][j := store[i]];
    }

    /** Sifts the request in slot `slot` towards the root. */
    method SiftUp(slot: nat, ghost n: nat)
      requires HeapExceptAbove(Keys(), n, slot) && n == |store|
      modifies this
      ensures multiset(store) == multiset(old(store)) && |store| == n && Valid()
    {
      hide FloorKeys, IsHeap, HeapExceptAround, Swapped;
      var j := slot;
      AboveBounds(Keys(), n, j);
      while true
        invariant multiset(store) == multiset(old(store)) && |store| == n
        invariant 0 <= j < n && HeapExceptAbove(Keys(), n, j)
        decreases j
      {
        var i := Parent(j);
        if i == j || !Less(j, i) {
          break;
        }
        SwapUp(Keys(), n, j);
        Swap(i, j);
        j := i;
      }
      UpDone(Keys(), n, j);
    }

    /** Sifts the root away from its slot, among the first `n` slots. */
    method SiftDown(n: nat)
      requires HeapExceptAround(Keys(), n, 0)
      modifies this
      ensures multiset(store) == multiset(old(store)) && |store| == |old(store)| && IsHeap(Keys(), n)
      ensures store[n..] == old(store[n..])
    {
      hide FloorKeys, IsHeap, HeapExceptAbove, HeapExceptAround, HeapExceptBelow, SmallerChild, Settled, Swapped, InOrder;
      var i := 0;
      AroundBounds(Keys(), n, i);
      while true
        invariant multiset(store) == multiset(old(store)) && |store| == |old(store)|
        invariant 0 <= i < n <= |store| && HeapExceptAround(Keys(), n, i)
        invariant i > 0 ==> InOrder(Keys(), i)
        invariant store[n..] == old(store[n..])
        decreases n - i
      {
        var j1 := 2 * i + 1;
        if j1 >= n {
          SettledBy(Keys(), n, i, i);
          break;
        }
        ChooseChild(Keys(), n, i);
        var j := j1;
        var j2 := j1 + 1;
        if j2 < n && Less(j2, j1) {
          j := j2;
        }
        if !Less(j, i) {
          SettledBy(Keys(), n, i, j);
          break;
        }
        SiftedDown(Keys(), n, i, j);
        SameSuffix(store, i, j, n);
        Swap(i, j);
        i := j;
      }
      DownDone(Keys(), n, i);
      RootInOrder(Keys(), n);
    }

    method Push(x: Request)
      requires Valid()
      modifies this
      ensures Valid() && multiset(store) == multiset(old(store)) + multiset{x}
    {
      hide FloorKeys, IsHeap, HeapExceptAbove;
      AppendedKey(Keys(), if highestFirst then -x.floor else x.floor);
      ghost var ks := Keys();
      store := store + [x];
      assert Keys() == ks + [if highestFirst then -x.floor else x.floor];
      SiftUp(|store| - 1, |store|);
    }

    /** Takes a request with the first floor in the heap's order. */
    method Pop() returns (x: Request)
      requires Valid() && store != []
      modifies this
      ensures Valid() && x == old(store)[0] && multiset(store) == multiset(old(store)) - multiset{x}
      ensures |store| == |old(store)| - 1
      ensures forall y :: y in old(store) ==> if highestFirst then y.floor <= x.floor else x.floor <= y.floor
    {
      hide FloorKeys, HeapExceptAround, HeapExceptAbove, IsHeap, Swapped;
      RootFirst();
      var n := |store| - 1;
      ghost var ks := Keys();
      x := store[0];
      SwappedEnds(store);
      Swap(0, n);
      if n > 0 {
        LastIntoSlot(ks, 0);
        SiftDown(n);
        assert store[n] == store[n..][0] == old(store)[0];
      } else {
        EmptyHeap(Keys());
      }
      LastOff(store, highestFirst);
      store := store[..n];
    }

    lemma RootFirst()
      requires Valid() && store != []
      ensures forall y :: y in store ==> if highestFirst then y.floor <= store[0].floor else store[0].floor <= y.floor
    {
      hide FloorKeys;
      forall k | 0 <= k < |store|
        ensures Keys()[0] <= Keys()[k]
      {
        RootIsLeast(Keys(), |store|, k);
      }
    }
  }

  lemma SwappedEnds(s: seq<Request>)
    requires s != []
    ensures Swapped(s, 0, |s| - 1)[|s| - 1..] == [s[0]]
  {
  }

  lemma LastOff(s: seq<Request>, highestFirst: bool)
    requires s != [] && IsHeap(FloorKeys(s, highestFirst), |s| - 1)
    ensures multiset(s[..|s| - 1]) == multiset(s) - multiset{s[|s| - 1]}
    ensures IsHeap(FloorKeys(s[..|s| - 1], highestFirst), |s| - 1)
  {
    hide FloorKeys, IsHeap;
    assert s == s[..|s| - 1] + [s[|s| - 1]];
    FirstKeys(FloorKeys(s, highestFirst), |s| - 1);
    FirstFloors(s, highestFirst);
  }

  lemma FirstFloors(s: seq<Request>, highestFirst: bool)
    requires s != []
    ensures FloorKeys(s[..|s| - 1], highestFirst) == FloorKeys(s, highestFirst)[..|s| - 1]
  {
    hide FloorKeys;
    var ks, front := FloorKeys(s, highestFirst), FloorKeys(s[..|s| - 1], highestFirst);
    forall k | 0 <= k < |s| - 1
      ensures front[k] == ks[k]
    {
    }
  }

  lemma RootInOrder(ks: seq<int>, n: nat)
    ensures 0 < |ks| ==> InOrder(ks, 0)
  {
  }
}
