/** The order a binary heap keeps, on the sequence of its keys, and how single swaps of the sift loops
  of Go's container/heap restore it. Both the expiry heap and the elevator's request heaps use it. */
module HeapOrder {

  /** Parent slot; Go's division truncates, so the root is its own parent. */
  function Parent(k: nat): (p: nat)
    ensures k > 0 ==> p < k
    ensures k == 0 ==> p == 0
  {
    if k == 0 then 0 else (k - 1) / 2
  }

  ghost predicate InOrder(ks: seq<int>, k: nat)
    requires k < |ks|
  {
    ks[Parent(k)] <= ks[k]
  }

  /** The first `n` keys form a heap. */
  ghost predicate IsHeap(ks: seq<int>, n: nat) {
    n <= |ks| && forall k :: 0 <= k < n ==> InOrder(ks, k)
  }

  /** All in order except, possibly, around slot `i`, whose children are no smaller than its parent. */
  ghost predicate HeapExceptAround(ks: seq<int>, n: nat, i: nat) {
    && i < n <= |ks|
    && (forall k :: 0 <= k < n && k != i && Parent(k) != i ==> InOrder(ks, k))
    && (i > 0 ==> forall k :: 0 < k < n && Parent(k) == i ==> ks[Parent(i)] <= ks[k])
  }

  /** All in order except, possibly, slot `j` against its parent. */
  ghost predicate HeapExceptAbove(ks: seq<int>, n: nat, j: nat) {
    HeapExceptAround(ks, n, j) && forall k :: 0 <= k < n && k != j ==> InOrder(ks, k)
  }

  /** All in order except, possibly, slot `i` against its children. */
  ghost predicate HeapExceptBelow(ks: seq<int>, n: nat, i: nat) {
    HeapExceptAround(ks, n, i) && InOrder(ks, i)
  }

  function Swapped<T>(s: seq<T>, i: nat, j: nat): (r: seq<T>)
    requires i < |s| && j < |s|
    ensures |r| == |s|
    ensures forall k :: 0 <= k < |s| ==> r[k] == if k == i then s[j] else if k == j then s[i] else s[k]
  {
    s[i := s[j]][j := s[i]]
  }

  lemma AroundBounds(ks: seq<int>, n: nat, i: nat)
    requires HeapExceptAround(ks, n, i)
    ensures i < n <= |ks|
  {
  }

  lemma AboveBounds(ks: seq<int>, n: nat, j: nat)
    requires HeapExceptAbove(ks, n, j)
    ensures j < n <= |ks|
  {
  }

  lemma BelowIsAround(ks: seq<int>, n: nat, i: nat)
    requires HeapExceptBelow(ks, n, i)
    ensures HeapExceptAround(ks, n, i) && i < |ks| && InOrder(ks, i)
  {
  }

  lemma SwapUp(ks: seq<int>, n: nat, j: nat)
    requires HeapExceptAbove(ks, n, j) && j > 0 && ks[j] < ks[Parent(j)]
    ensures HeapExceptAbove(Swapped(ks, Parent(j), j), n, Parent(j))
  {
    var r, p := Swapped(ks, Parent(j), j), Parent(j);
    forall k | 0 <= k < n && k != p
      ensures InOrder(r, k)
    {
      assert InOrder(ks, k) || k == j;
    }
    forall k | p > 0 && 0 < k < n && Parent(k) == p
      ensures r[Parent(p)] <= r[k]
    {
      assert InOrder(ks, p);
      assert InOrder(ks, k) || k == j;
    }
  }

  lemma UpDone(ks: seq<int>, n: nat, j: nat)
    requires HeapExceptAbove(ks, n, j) && (j == 0 || ks[j] >= ks[Parent(j)])
    ensures IsHeap(ks, n)
  {
  }

  /** `j` is the smaller child of `i`. */
  ghost predicate SmallerChild(ks: seq<int>, n: nat, i: nat, j: nat) {
    && i < j < n <= |ks| && Parent(j) == i
    && (forall k :: 0 < k < n && Parent(k) == i ==> ks[j] <= ks[k])
  }

  lemma SwapDown(ks: seq<int>, n: nat, i: nat, j: nat)
    requires HeapExceptAround(ks, n, i) && SmallerChild(ks, n, i, j) && ks[j] < ks[i]
    ensures HeapExceptBelow(Swapped(ks, i, j), n, j)
    ensures InOrder(Swapped(ks, i, j), j)
  {
    var r := Swapped(ks, i, j);
    forall k | 0 <= k < n && k != j && Parent(k) != j
      ensures InOrder(r, k)
    {
      if k != i && Parent(k) != i {
        assert InOrder(ks, k);
      }
    }
    forall k | 0 < k < n && Parent(k) == j
      ensures r[Parent(j)] <= r[k]
    {
      assert InOrder(ks, k);
    }
  }

  lemma DownDone(ks: seq<int>, n: nat, i: nat)
    requires HeapExceptAround(ks, n, i) && Settled(ks, n, i)
    ensures HeapExceptAbove(ks, n, i)
    ensures InOrder(ks, i) ==> IsHeap(ks, n)
  {
    forall k | 0 <= k < n && k != i
      ensures InOrder(ks, k)
    {
    }
  }

  lemma ChooseChild(ks: seq<int>, n: nat, i: nat)
    requires 2 * i + 1 < n <= |ks|
    ensures var j1, j2 := 2 * i + 1, 2 * i + 2;
            SmallerChild(ks, n, i, if j2 < n && ks[j2] < ks[j1] then j2 else j1)
  {
  }

  /** The item in slot `i` has no smaller child. */
  ghost predicate Settled(ks: seq<int>, n: nat, i: nat) {
    i < n <= |ks| && forall k :: 0 < k < n && Parent(k) == i ==> ks[i] <= ks[k]
  }

  lemma SettledBy(ks: seq<int>, n: nat, i: nat, j: nat)
    requires i < n <= |ks| && (2 * i + 1 >= n || (SmallerChild(ks, n, i, j) && ks[j] >= ks[i]))
    ensures Settled(ks, n, i)
  {
  }

  /** Changing the key of any one slot leaves the rest in order. */
  lemma Rekeyed(ks: seq<int>, i: nat, key: int)
    requires IsHeap(ks, |ks|) && i < |ks|
    ensures HeapExceptAround(ks[i := key], |ks|, i)
  {
    var r := ks[i := key];
    forall k | 0 <= k < |ks| && k != i && Parent(k) != i
      ensures InOrder(r, k)
    {
      assert InOrder(ks, k);
    }
    forall k | i > 0 && 0 < k < |ks| && Parent(k) == i
      ensures r[Parent(i)] <= r[k]
    {
      assert InOrder(ks, k) && InOrder(ks, i);
    }
  }

  /** The root of a heap is minimal. */
  lemma {:induction false} RootIsLeast(ks: seq<int>, n: nat, k: nat)
    requires IsHeap(ks, n) && k < n
    ensures ks[0] <= ks[k]
  {
    if k > 0 {
      RootIsLeast(ks, n, Parent(k));
      assert InOrder(ks, k);
    }
  }

  /** Moving the last key into slot `i` leaves the others, without the last slot, in order around `i`. */
  lemma LastIntoSlot(ks: seq<int>, i: nat)
    requires IsHeap(ks, |ks|) && i < |ks| - 1
    ensures HeapExceptAround(Swapped(ks, i, |ks| - 1), |ks| - 1, i)
  {
    var n, r := |ks| - 1, Swapped(ks, i, |ks| - 1);
    Rekeyed(ks, i, ks[n]);
    var q := ks[i := ks[n]];
    forall k | 0 <= k < n && k != i && Parent(k) != i
      ensures InOrder(r, k)
    {
      assert InOrder(q, k);
    }
  }

  lemma AppendedKey(ks: seq<int>, key: int)
    requires IsHeap(ks, |ks|)
    ensures HeapExceptAbove(ks + [key], |ks| + 1, |ks|)
  {
    forall k | 0 <= k < |ks|
      ensures InOrder(ks + [key], k)
    {
      assert InOrder(ks, k);
    }
  }

  lemma FirstKeys(ks: seq<int>, n: nat)
    requires IsHeap(ks, n)
    ensures IsHeap(ks[..n], n)
  {
    forall k | 0 <= k < n
      ensures InOrder(ks[..n], k)
    {
      assert InOrder(ks, k);
    }
  }

  lemma EmptyHeap(ks: seq<int>)
    ensures IsHeap(ks, 0)
  {
  }

  lemma FewerKeys(ks: seq<int>, n: nat)
    requires IsHeap(ks, |ks|) && n <= |ks|
    ensures IsHeap(ks, n)
  {
  }

  /** One turn of the sift loop away from the root. */
  lemma SiftedDown(ks: seq<int>, n: nat, i: nat, j: nat)
    requires HeapExceptAround(ks, n, i) && SmallerChild(ks, n, i, j) && ks[j] < ks[i]
    ensures i < j < n <= |ks| && HeapExceptAround(Swapped(ks, i, j), n, j) && InOrder(Swapped(ks, i, j), j)
  {
    hide HeapExceptAround;
    SwapDown(ks, n, i, j);
    BelowIsAround(Swapped(ks, i, j), n, j);
  }

  lemma SameSuffix<T>(s: seq<T>, i: nat, j: nat, n: nat)
    requires i < n && j < n <= |s|
    ensures Swapped(s, i, j)[n..] == s[n..]
  {
    hide Swapped;
    var r := Swapped(s, i, j);
    forall k | n <= k < |s|
      ensures r[k] == s[k]
    {
    }
  }
}
