/** What an LRU cache means: a list of items, most recently used first. */
module Recency {

  datatype Item = Item(key: string, data: string)

  datatype Op = Put(key: string, data: string) | Get(key: string)

  ghost predicate DistinctKeys(l: seq<Item>) {
    forall i, j :: 0 <= i < j < |l| ==> l[i].key != l[j].key
  }

  predicate HasKey(l: seq<Item>, key: string) {
    exists x :: x in l && x.key == key
  }

  /** The data of the most recent item with this key. */
  function DataOf(l: seq<Item>, key: string): string
    requires HasKey(l, key)
  {
    if l[0].key == key then l[0].data
    else
      assert l == [l[0]] + l[1..];
      DataOf(l[1..], key)
  }

  function Without(l: seq<Item>, key: string): (r: seq<Item>)
    ensures |r| <= |l| && !HasKey(r, key)
    ensures forall x :: x in r <==> x in l && x.key != key
  {
    if l == [] then []
    else if l[0].key == key then Without(l[1..], key)
    else
      assert l == [l[0]] + l[1..];
      [l[0]] + Without(l[1..], key)
  }

  /** A negative capacity is never reached, so such a cache never evicts. */
  function AfterPut(l: seq<Item>, capacity: int, key: string, data: string): seq<Item>
    requires capacity != 0
  {
    if HasKey(l, key) then [Item(key, data)] + Without(l, key)
    else if |l| == capacity then [Item(key, data)] + l[..|l| - 1]
    else [Item(key, data)] + l
  }

  /** A hit moves the item to the front; a miss changes nothing. */
  function AfterGet(l: seq<Item>, key: string): seq<Item> {
    if HasKey(l, key) then [Item(key, DataOf(l, key))] + Without(l, key) else l
  }

  function After(l: seq<Item>, capacity: int, op: Op): seq<Item>
    requires capacity != 0
  {
    match op
    case Put(key, data) => AfterPut(l, capacity, key, data)
    case Get(key) => AfterGet(l, key)
  }

  function Run(capacity: int, ops: seq<Op>): seq<Item>
    requires capacity != 0
  {
    if ops == [] then [] else After(Run(capacity, ops[..|ops| - 1]), capacity, ops[|ops| - 1])
  }

  lemma RunOn(capacity: int, ops: seq<Op>, op: Op)
    requires capacity != 0
    ensures Run(capacity, ops + [op]) == After(Run(capacity, ops), capacity, op)
  {
    assert (ops + [op])[..|ops|] == ops;
  }

  // ---------- Facts about lists ----------

  lemma {:induction false} WithoutAbsent(l: seq<Item>, key: string)
    requires !HasKey(l, key)
    ensures Without(l, key) == l
  {
    if l != [] {
      assert l[0] in l && forall x :: x in l[1..] ==> x in l;
      WithoutAbsent(l[1..], key);
    }
  }

  ghost function IndexOf(l: seq<Item>, key: string): (i: nat)
    requires HasKey(l, key)
    ensures i < |l| && l[i].key == key
  {
    var x :| x in l && x.key == key;
    var i :| 0 <= i < |l| && l[i] == x;
    i
  }

  function RemoveAt(l: seq<Item>, i: nat): seq<Item>
    requires i < |l|
  {
    l[..i] + l[i + 1..]
  }

  lemma FirstRemoved(l: seq<Item>)
    requires l != []
    ensures RemoveAt(l, 0) == l[1..]
  {
  }

  lemma RemoveAtTail(l: seq<Item>, i: nat)
    requires 0 < i < |l|
    ensures [l[0]] + RemoveAt(l[1..], i - 1) == RemoveAt(l, i)
  {
  }

  lemma RemoveAtPrefix(l: seq<Item>, i: nat, n: nat)
    requires i < n <= |l|
    ensures RemoveAt(l, i)[..n - 1] == RemoveAt(l[..n], i)
  {
  }

  /** Removing the one item with a key, wherever it is. */
  lemma {:induction false} RemovedAt(l: seq<Item>, i: nat)
    requires DistinctKeys(l) && i < |l|
    ensures Without(l, l[i].key) == RemoveAt(l, i)
  {
    hide RemoveAt, HasKey, Without;
    var key := l[i].key;
    if i == 0 {
      FirstRemoved(l);
      FirstOnly(l);
      WithoutAbsent(l[1..], key);
      WithoutFirst(l, key);
    } else {
      TailDistinct(l);
      assert l[1..][i - 1] == l[i];
      RemovedAt(l[1..], i - 1);
      assert l[0].key != key;
      RemoveAtTail(l, i);
      WithoutFirst(l, key);
    }
  }

  lemma WithoutFirst(l: seq<Item>, key: string)
    requires l != []
    ensures Without(l, key) == (if l[0].key == key then [] else [l[0]]) + Without(l[1..], key)
  {
  }

  lemma FirstOnly(l: seq<Item>)
    requires DistinctKeys(l) && l != []
    ensures !HasKey(l[1..], l[0].key)
  {
  }

  lemma TailDistinct(l: seq<Item>)
    requires DistinctKeys(l) && l != []
    ensures DistinctKeys(l[1..])
  {
  }

  lemma {:induction false} DataOfAt(l: seq<Item>, i: nat)
    requires DistinctKeys(l) && i < |l|
    ensures HasKey(l, l[i].key) && DataOf(l, l[i].key) == l[i].data
  {
    assert l[i] in l;
    if i > 0 {
      TailDistinct(l);
      DataOfAt(l[1..], i - 1);
    }
  }

  lemma WithoutAt(l: seq<Item>, i: nat)
    requires DistinctKeys(l) && i < |l|
    ensures Without(l, l[i].key) == RemoveAt(l, i)
    ensures HasKey(l, l[i].key) && DataOf(l, l[i].key) == l[i].data
  {
    RemovedAt(l, i);
    DataOfAt(l, i);
  }

  lemma WithoutDistinct(l: seq<Item>, key: string)
    requires DistinctKeys(l)
    ensures DistinctKeys(Without(l, key))
    ensures |Without(l, key)| == |l| - if HasKey(l, key) then 1 else 0
  {
    if HasKey(l, key) {
      var i := IndexOf(l, key);
      WithoutAt(l, i);
    } else {
      WithoutAbsent(l, key);
    }
  }

  lemma FrontDistinct(l: seq<Item>, item: Item)
    requires DistinctKeys(l) && !HasKey(l, item.key)
    ensures DistinctKeys([item] + l)
  {
  }

  /** Keys stay distinct and a positive capacity is never exceeded. */
  lemma AfterKeeps(l: seq<Item>, capacity: int, op: Op)
    requires capacity != 0 && DistinctKeys(l) && (capacity > 0 ==> |l| <= capacity)
    ensures DistinctKeys(After(l, capacity, op))
    ensures capacity > 0 ==> |After(l, capacity, op)| <= capacity
  {
    hide Without, DataOf;
    WithoutDistinct(l, op.key);
    if HasKey(l, op.key) {
      FrontDistinct(Without(l, op.key), After(l, capacity, op)[0]);
    } else if op.Put? {
      FrontDistinct(l, Item(op.key, op.data));
    }
  }

  lemma {:induction false} RunKeeps(capacity: int, ops: seq<Op>)
    requires capacity != 0
    ensures DistinctKeys(Run(capacity, ops))
    ensures capacity > 0 ==> |Run(capacity, ops)| <= capacity
  {
    if ops != [] {
      RunKeeps(capacity, ops[..|ops| - 1]);
      AfterKeeps(Run(capacity, ops[..|ops| - 1]), capacity, ops[|ops| - 1]);
    }
  }

  // ---------- The cache holds the most recently used keys ----------

  /** The uses of a cache, newest first: every `Put`, and every `Get` that hits. */
  function Uses(capacity: int, ops: seq<Op>): seq<Item>
    requires capacity != 0
  {
    if ops == [] then []
    else
      var earlier, op := ops[..|ops| - 1], ops[|ops| - 1];
      match op
      case Put(key, data) => [Item(key, data)] + Uses(capacity, earlier)
      case Get(key) =>
        if HasKey(Run(capacity, earlier), key)
        then [Item(key, DataOf(Run(capacity, earlier), key))] + Uses(capacity, earlier)
        else Uses(capacity, earlier)
  }

  /** Each key's latest use only. */
  function Latest(uses: seq<Item>): seq<Item> {
    if uses == [] then [] else [uses[0]] + Without(Latest(uses[1..]), uses[0].key)
  }

  function FirstOf(l: seq<Item>, capacity: int): seq<Item> {
    if capacity < 0 || |l| <= capacity then l else l[..capacity]
  }

  lemma {:induction false} LatestDistinct(uses: seq<Item>)
    ensures DistinctKeys(Latest(uses))
  {
    if uses != [] {
      LatestDistinct(uses[1..]);
      WithoutDistinct(Latest(uses[1..]), uses[0].key);
      FrontDistinct(Without(Latest(uses[1..]), uses[0].key), uses[0]);
    }
  }

  /** One use of a key, in the list of all latest uses and in its first `capacity` items alike. */
  lemma UseCommutes(all: seq<Item>, capacity: int, item: Item, op: Op)
    requires capacity != 0 && DistinctKeys(all)
    requires var l := FirstOf(all, capacity);
             op == Put(item.key, item.data) || (op == Get(item.key) && HasKey(l, item.key) && item.data == DataOf(l, item.key))
    ensures After(FirstOf(all, capacity), capacity, op) == FirstOf([item] + Without(all, item.key), capacity)
  {
    hide Without, DataOf, HasKey;
    var l := FirstOf(all, capacity);
    assert DistinctKeys(l);
    if HasKey(l, item.key) {
      HitCommutes(all, capacity, item);
    } else {
      MissCommutes(all, capacity, item);
    }
  }

  lemma HitCommutes(all: seq<Item>, capacity: int, item: Item)
    requires capacity != 0 && DistinctKeys(all) && HasKey(FirstOf(all, capacity), item.key)
    ensures [item] + Without(FirstOf(all, capacity), item.key) == FirstOf([item] + Without(all, item.key), capacity)
  {
    hide Without, DataOf, HasKey, RemoveAt;
    var l := FirstOf(all, capacity);
    var i := IndexOf(l, item.key);
    assert all[i] == l[i] && DistinctKeys(l);
    WithoutAt(l, i);
    WithoutAt(all, i);
    WithoutDistinct(all, item.key);
    if l != all {
      RemoveAtPrefix(all, i, capacity);
      FrontOfPrefix(item, RemoveAt(all, i), capacity);
    }
  }

  lemma FrontOfPrefix(item: Item, l: seq<Item>, n: nat)
    requires 0 < n <= |l| + 1
    ensures ([item] + l)[..n] == [item] + l[..n - 1]
  {
  }

  lemma MissCommutes(all: seq<Item>, capacity: int, item: Item)
    requires capacity != 0 && DistinctKeys(all) && !HasKey(FirstOf(all, capacity), item.key)
    ensures AfterPut(FirstOf(all, capacity), capacity, item.key, item.data) == FirstOf([item] + Without(all, item.key), capacity)
  {
    hide Without, DataOf;
    var l := FirstOf(all, capacity);
    if HasKey(all, item.key) {
      var i := IndexOf(all, item.key);
      forall j | 0 <= j < |l|
        ensures l[j].key != item.key
      {
        assert l[j] in l;
      }
      assert capacity > 0 && |l| == capacity <= i;
      WithoutAt(all, i);
      FrontOfPrefix(item, RemoveAt(all, i), capacity);
      assert RemoveAt(all, i)[..capacity - 1] == l[..capacity - 1];
    } else {
      WithoutAbsent(all, item.key);
    }
  }

  /** After any calls, the cache holds exactly the `capacity` most recently used keys, each with the
      data of its latest use, in order of use. */
  lemma {:induction false} HoldsMostRecent(capacity: int, ops: seq<Op>)
    requires capacity != 0
    ensures Run(capacity, ops) == FirstOf(Latest(Uses(capacity, ops)), capacity)
  {
    if ops != [] {
      hide After, FirstOf, DataOf, HasKey, Without;
      var earlier, op := ops[..|ops| - 1], ops[|ops| - 1];
      HoldsMostRecent(capacity, earlier);
      var uses := Uses(capacity, earlier);
      LatestDistinct(uses);
      if op.Put? {
        UseCommutes(Latest(uses), capacity, Item(op.key, op.data), op);
        assert ([Item(op.key, op.data)] + uses)[1..] == uses;
      } else if HasKey(Run(capacity, earlier), op.key) {
        var item := Item(op.key, DataOf(Run(capacity, earlier), op.key));
        UseCommutes(Latest(uses), capacity, item, op);
        assert ([item] + uses)[1..] == uses;
      } else {
        MissChangesNothing(Run(capacity, earlier), capacity, op.key);
      }
    } else {
      assert FirstOf(Latest([]), capacity) == [];
    }
  }

  lemma MissChangesNothing(l: seq<Item>, capacity: int, key: string)
    requires capacity != 0 && !HasKey(l, key)
    ensures After(l, capacity, Get(key)) == l
  {
  }

  // ---------- Inclusion: a bigger cache holds all that a smaller one does ----------

  /** `a` is a subsequence of `b`. */
  ghost predicate Embeds(a: seq<Item>, b: seq<Item>) {
    || a == []
    || (b != [] && a[0] == b[0] && Embeds(a[1..], b[1..]))
    || (b != [] && Embeds(a, b[1..]))
  }

  lemma {:induction false} EmbedsMembers(a: seq<Item>, b: seq<Item>)
    requires Embeds(a, b)
    ensures forall x :: x in a ==> x in b
    ensures |a| <= |b| && (|a| == |b| ==> a == b)
  {
    if a != [] {
      assert a == [a[0]] + a[1..] && b == [b[0]] + b[1..];
      if a[0] == b[0] && Embeds(a[1..], b[1..]) {
        EmbedsMembers(a[1..], b[1..]);
      } else {
        EmbedsMembers(a, b[1..]);
      }
    }
  }

  lemma {:induction false} EmbedsWithout(a: seq<Item>, b: seq<Item>, key: string)
    requires Embeds(a, b)
    ensures Embeds(Without(a, key), Without(b, key))
  {
    if a != [] {
      if a[0] == b[0] && Embeds(a[1..], b[1..]) {
        EmbedsWithout(a[1..], b[1..], key);
        if a[0].key != key {
          EmbedsFront(Without(a[1..], key), Without(b[1..], key), a[0]);
        }
      } else {
        EmbedsWithout(a, b[1..], key);
        if b[0].key != key {
          EmbedsBelow(Without(a, key), Without(b[1..], key), b[0]);
        }
      }
    }
  }

  lemma EmbedsFront(a: seq<Item>, b: seq<Item>, x: Item)
    requires Embeds(a, b)
    ensures Embeds([x] + a, [x] + b)
  {
    assert ([x] + a)[1..] == a && ([x] + b)[1..] == b;
  }

  lemma EmbedsBelow(a: seq<Item>, b: seq<Item>, x: Item)
    requires Embeds(a, b)
    ensures Embeds(a, [x] + b)
  {
    assert ([x] + b)[1..] == b;
  }

  lemma WithoutLast(l: seq<Item>)
    requires |l| > 1
    ensures l[..|l| - 1] == [l[0]] + l[1..][..|l| - 2]
  {
  }

  lemma {:induction false} EmbedsDropLast(a: seq<Item>, b: seq<Item>)
    requires Embeds(a, b) && a != []
    ensures b != [] && Embeds(a[..|a| - 1], b[..|b| - 1])
  {
    if |a| > 1 {
      EmbedsMembers(a, b);
      WithoutLast(b);
      if a[0] == b[0] && Embeds(a[1..], b[1..]) {
        EmbedsDropLast(a[1..], b[1..]);
        EmbedsFront(a[1..][..|a| - 2], b[1..][..|b| - 2], a[0]);
        WithoutLast(a);
      } else {
        EmbedsDropLast(a, b[1..]);
        EmbedsBelow(a[..|a| - 1], b[1..][..|b| - 2], b[0]);
      }
    }
  }

  lemma {:induction false} EmbedsShorter(a: seq<Item>, b: seq<Item>)
    requires Embeds(a, b) && a != []
    ensures Embeds(a[..|a| - 1], b)
  {
    if |a| > 1 {
      if a[0] == b[0] && Embeds(a[1..], b[1..]) {
        EmbedsShorter(a[1..], b[1..]);
        EmbedsFront(a[1..][..|a| - 2], b[1..], a[0]);
        WithoutLast(a);
        assert b == [b[0]] + b[1..];
      } else {
        EmbedsShorter(a, b[1..]);
        EmbedsBelow(a[..|a| - 1], b[1..], b[0]);
        assert b == [b[0]] + b[1..];
      }
    }
  }

  lemma {:induction false} DataOfMember(l: seq<Item>, key: string)
    requires HasKey(l, key)
    ensures Item(key, DataOf(l, key)) in l
  {
    assert l == [l[0]] + l[1..];
    if l[0].key != key {
      DataOfMember(l[1..], key);
    }
  }

  function Min(a: int, b: int): int {
    if a < b then a else b
  }

  /** The smaller cache's list is a subsequence of the larger one's, and as long as its capacity allows. */
  ghost predicate Included(small: seq<Item>, large: seq<Item>, k: int, n: int) {
    && DistinctKeys(small) && DistinctKeys(large) && Embeds(small, large)
    && |small| == Min(k, |large|) && |large| <= n
  }

  lemma IncludedPut(small: seq<Item>, large: seq<Item>, k: int, n: int, key: string, data: string)
    requires 0 < k <= n && Included(small, large, k, n)
    ensures Embeds(AfterPut(small, k, key, data), AfterPut(large, n, key, data))
    ensures |AfterPut(small, k, key, data)| == Min(k, |AfterPut(large, n, key, data)|)
  {
    hide Embeds, Without;
    var item := Item(key, data);
    EmbedsMembers(small, large);
    EmbedsWithout(small, large, key);
    WithoutDistinct(small, key);
    WithoutDistinct(large, key);
    if HasKey(small, key) {
      EmbedsFront(Without(small, key), Without(large, key), item);
    } else {
      WithoutAbsent(small, key);
      if HasKey(large, key) {
        assert |small| == k;
        EmbedsShorter(small, Without(large, key));
        EmbedsFront(small[..k - 1], Without(large, key), item);
      } else if |large| == n {
        EmbedsDropLast(small, large);
        EmbedsFront(small[..k - 1], large[..n - 1], item);
      } else if |small| == k {
        EmbedsShorter(small, large);
        EmbedsFront(small[..k - 1], large, item);
      } else {
        EmbedsFront(small, large, item);
      }
    }
  }

  lemma IncludedGet(small: seq<Item>, large: seq<Item>, k: int, n: int, key: string)
    requires 0 < k <= n && Included(small, large, k, n)
    ensures Embeds(AfterGet(small, key), AfterGet(large, key))
    ensures |AfterGet(small, key)| == Min(k, |AfterGet(large, key)|)
    ensures HasKey(small, key) ==> HasKey(large, key) && DataOf(small, key) == DataOf(large, key)
  {
    hide Embeds, Without;
    EmbedsMembers(small, large);
    EmbedsWithout(small, large, key);
    WithoutDistinct(small, key);
    WithoutDistinct(large, key);
    if HasKey(small, key) {
      SameData(small, large, key);
      EmbedsFront(Without(small, key), Without(large, key), Item(key, DataOf(small, key)));
    } else if HasKey(large, key) {
      WithoutAbsent(small, key);
      EmbedsBelow(small, Without(large, key), Item(key, DataOf(large, key)));
    }
  }

  lemma SameData(small: seq<Item>, large: seq<Item>, key: string)
    requires HasKey(small, key) && DistinctKeys(large) && forall x :: x in small ==> x in large
    ensures HasKey(large, key) && DataOf(small, key) == DataOf(large, key)
  {
    DataOfMember(small, key);
    DataOfMember(large, key);
  }

  /** Two caches that see the same calls: the smaller one's content is always included in the larger
      one's, in the same order and with the same data, whatever hits in one and misses in the other. */
  lemma {:induction false} RunsIncluded(k: int, n: int, ops: seq<Op>)
    requires 0 < k <= n
    ensures Included(Run(k, ops), Run(n, ops), k, n)
  {
    RunKeeps(k, ops);
    RunKeeps(n, ops);
    if ops != [] {
      hide Embeds, AfterPut, AfterGet, DistinctKeys;
      var earlier, op := ops[..|ops| - 1], ops[|ops| - 1];
      RunsIncluded(k, n, earlier);
      if op.Put? {
        IncludedPut(Run(k, earlier), Run(n, earlier), k, n, op.key, op.data);
      } else {
        IncludedGet(Run(k, earlier), Run(n, earlier), k, n, op.key);
      }
    }
  }
}
