/** The LRU cache: a hash map of nodes that form a doubly linked list from most to least recently used. */
module LruCaches {
  import opened Recency

  class LRUNode {
    const key: string
    var data: string
    var nextBlock: LRUNode?
    var prevBlock: LRUNode?

    constructor (key: string, data: string)
      ensures this.key == key && this.data == data && nextBlock == null && prevBlock == null
    {
      this.key := key;
      this.data := data;
      nextBlock := null;
      prevBlock := null;
    }
  }

  // ---------- The list, the map and what they mean ----------

  ghost predicate Distinct(s: seq<LRUNode>) {
    forall i, j :: 0 <= i < j < |s| ==> s[i] != s[j]
  }

  /** Matching links in both directions along the whole sequence: no cycles, no strays. */
  ghost predicate Chain(nodes: seq<LRUNode>)
    reads nodes`nextBlock, nodes`prevBlock
  {
    && Distinct(nodes)
    && (forall i, j :: 0 <= i < |nodes| && j == i + 1 < |nodes| ==> nodes[i].nextBlock == nodes[j] && nodes[j].prevBlock == nodes[i])
    && (nodes != [] ==> nodes[0].prevBlock == null && nodes[|nodes| - 1].nextBlock == null)
  }

  /** The map holds exactly the nodes of the list, each under its own key. */
  ghost predicate Mapped(nodeCache: map<string, LRUNode>, nodes: seq<LRUNode>) {
    && |nodeCache| == |nodes|
    && (forall k :: k in nodeCache ==> nodeCache[k] in nodes && nodeCache[k].key == k)
    && (forall n :: n in nodes ==> n.key in nodeCache && nodeCache[n.key] == n)
  }

  ghost function ItemsOf(nodes: seq<LRUNode>): (l: seq<Item>)
    reads nodes`data
    ensures |l| == |nodes| && forall i :: 0 <= i < |nodes| ==> l[i] == Item(nodes[i].key, nodes[i].data)
  {
    if nodes == [] then []
    else ItemsOf(nodes[..|nodes| - 1]) + [Item(nodes[|nodes| - 1].key, nodes[|nodes| - 1].data)]
  }

  lemma HasKeyIsMapped(nodeCache: map<string, LRUNode>, nodes: seq<LRUNode>, key: string)
    requires Mapped(nodeCache, nodes)
    ensures HasKey(ItemsOf(nodes), key) <==> key in nodeCache
  {
    hide ItemsOf;
    if key in nodeCache {
      var i :| 0 <= i < |nodes| && nodes[i] == nodeCache[key];
      assert ItemsOf(nodes)[i] in ItemsOf(nodes);
    }
    if HasKey(ItemsOf(nodes), key) {
      var x :| x in ItemsOf(nodes) && x.key == key;
      var i :| 0 <= i < |nodes| && ItemsOf(nodes)[i] == x;
      assert nodes[i] in nodes;
    }
  }

  lemma MappedDistinct(nodeCache: map<string, LRUNode>, nodes: seq<LRUNode>)
    requires Mapped(nodeCache, nodes) && Distinct(nodes)
    ensures DistinctKeys(ItemsOf(nodes))
  {
    hide ItemsOf;
    forall i, j | 0 <= i < j < |nodes|
      ensures nodes[i].key != nodes[j].key
    {
      assert nodes[i] in nodes && nodes[j] in nodes;
    }
  }

  // ---------- The three ways the list changes ----------

  /** `r` is `s` with the node in slot `i` moved to the front. */
  ghost predicate MovedToFront(s: seq<LRUNode>, i: nat, r: seq<LRUNode>)
    requires i < |s|
  {
    && |r| == |s| && r[0] == s[i]
    && (forall k :: 0 < k <= i ==> r[k] == s[k - 1])
    && (forall k :: i < k < |s| ==> r[k] == s[k])
  }

  ghost predicate SameNodes(s: seq<LRUNode>, r: seq<LRUNode>) {
    |s| == |r| && (forall n :: n in r ==> n in s) && (forall n :: n in s ==> n in r)
  }

  ghost function SlotOf(nodeCache: map<string, LRUNode>, nodes: seq<LRUNode>, key: string): (i: nat)
    requires Mapped(nodeCache, nodes) && key in nodeCache
    ensures i < |nodes| && nodes[i] == nodeCache[key] && nodes[i].key == key
  {
    var i :| 0 <= i < |nodes| && nodes[i] == nodeCache[key];
    i
  }

  lemma MovedMapping(nodeCache: map<string, LRUNode>, s: seq<LRUNode>, r: seq<LRUNode>)
    requires Mapped(nodeCache, s) && SameNodes(s, r)
    ensures Mapped(nodeCache, r)
  {
  }

  ghost function ToFront(s: seq<LRUNode>, i: nat): (r: seq<LRUNode>)
    requires i < |s|
  {
    [s[i]] + s[..i] + s[i + 1..]
  }

  lemma ToFrontMoves(s: seq<LRUNode>, i: nat)
    requires i < |s|
    ensures MovedToFront(s, i, ToFront(s, i))
  {
  }

  lemma MovedMembers(s: seq<LRUNode>, i: nat, r: seq<LRUNode>)
    requires i < |s| && MovedToFront(s, i, r)
    ensures SameNodes(s, r)
    ensures Distinct(s) ==> Distinct(r)
  {
    forall n | n in s
      ensures n in r
    {
      var k :| 0 <= k < |s| && s[k] == n;
      assert r[if k < i then k + 1 else if k == i then 0 else k] == n;
    }
  }

  lemma MovedItems(l: seq<Item>, i: nat, r: seq<Item>)
    requires i < |l| == |r|
    requires forall k :: 0 < k <= i ==> r[k] == l[k - 1]
    requires forall k :: i < k < |l| ==> r[k] == l[k]
    ensures r == [r[0]] + RemoveAt(l, i)
  {
    var m := [r[0]] + RemoveAt(l, i);
    assert |m| == |r|;
    forall k | 0 <= k < |r|
      ensures r[k] == m[k]
    {
      if k > i {
        assert m[k] == l[k];
      } else if k > 0 {
        assert m[k] == l[k - 1];
      }
    }
  }

  /** The items of `nodes` are those of `l`, but for the data in slot `i`. */
  ghost predicate AgreeBut(l: seq<Item>, nodes: seq<LRUNode>, i: nat)
    reads nodes`data
    requires i < |nodes|
  {
    && |l| == |nodes| && l[i].key == nodes[i].key
    && forall k :: 0 <= k < |l| && k != i ==> l[k] == Item(nodes[k].key, nodes[k].data)
  }

  lemma AgreesNow(nodes: seq<LRUNode>, i: nat)
    requires i < |nodes|
    ensures AgreeBut(ItemsOf(nodes), nodes, i)
  {
    hide ItemsOf;
  }

  /** A node moved to the front, as the lists of items see it. */
  lemma UsedItem(l: seq<Item>, s: seq<LRUNode>, i: nat, r: seq<LRUNode>)
    requires i < |s| && DistinctKeys(l) && AgreeBut(l, s, i) && MovedToFront(s, i, r)
    ensures ItemsOf(r) == [Item(s[i].key, s[i].data)] + Without(l, s[i].key)
    ensures HasKey(l, s[i].key) && DataOf(l, s[i].key) == l[i].data
  {
    hide DistinctKeys, Without, HasKey, DataOf, RemoveAt;
    WithoutAt(l, i);
    MovedItems(l, i, ItemsOf(r));
  }

  lemma FrontItems(nodes: seq<LRUNode>)
    requires nodes != []
    ensures ItemsOf(nodes[..|nodes| - 1]) == ItemsOf(nodes)[..|nodes| - 1]
  {
  }

  lemma MoreItems(node: LRUNode, nodes: seq<LRUNode>)
    ensures ItemsOf([node] + nodes) == [Item(node.key, node.data)] + ItemsOf(nodes)
  {
    hide ItemsOf;
    var l, r := ItemsOf([node] + nodes), [Item(node.key, node.data)] + ItemsOf(nodes);
    forall k | 0 <= k < |l|
      ensures l[k] == r[k]
    {
    }
  }

  lemma RemovedSize(nodeCache: map<string, LRUNode>, key: string)
    requires key in nodeCache
    ensures |nodeCache - {key}| == |nodeCache| - 1
  {
    assert (nodeCache - {key}).Keys == nodeCache.Keys - {key};
  }

  lemma EvictedMapping(nodeCache: map<string, LRUNode>, nodes: seq<LRUNode>)
    requires Mapped(nodeCache, nodes) && Distinct(nodes) && nodes != []
    ensures Mapped(nodeCache - {nodes[|nodes| - 1].key}, nodes[..|nodes| - 1])
  {
    var n := |nodes| - 1;
    var last, rest := nodes[n], nodes[..n];
    var left := nodeCache - {last.key};
    assert last in nodes;
    RemovedSize(nodeCache, last.key);
    forall x | x in rest
      ensures x.key in left && left[x.key] == x
    {
      var j :| 0 <= j < n && nodes[j] == x;
      assert nodes[j] in nodes && nodes[j] != nodes[n];
    }
    forall k | k in left
      ensures left[k] in rest && left[k].key == k
    {
      var j :| 0 <= j < |nodes| && nodes[j] == nodeCache[k];
      assert j != n;
      assert rest[j] == nodeCache[k];
    }
  }

  lemma AddedMapping(nodeCache: map<string, LRUNode>, nodes: seq<LRUNode>, node: LRUNode)
    requires Mapped(nodeCache, nodes) && node.key !in nodeCache
    ensures Mapped(nodeCache[node.key := node], [node] + nodes) && node !in nodes
    ensures |nodes| == |nodeCache|
  {
  }

  lemma MappedKeys(nodeCache: map<string, LRUNode>, nodes: seq<LRUNode>, key: string)
    requires Mapped(nodeCache, nodes) && key !in nodeCache
    ensures forall n :: n in nodes ==> n.key != key
  {
  }

  class LRUCache {
    const capacity: int
    var nodeCache: map<string, LRUNode>
    var mfuNode: LRUNode?
    var lruNode: LRUNode?
    /** The nodes in list order. */
    ghost var nodes: seq<LRUNode>
    /** The calls so far. */
    ghost var history: seq<Op>

    ghost predicate Linked()
      reads `mfuNode, `lruNode, `nodes, nodes`nextBlock, nodes`prevBlock
    {
      Chain(nodes) && if nodes == [] then mfuNode == lruNode == null else mfuNode == nodes[0] && lruNode == nodes[|nodes| - 1]
    }

    ghost predicate Valid()
      reads this, nodes
    {
      Linked() && Mapped(nodeCache, nodes) && (capacity >= 0 ==> |nodes| <= capacity)
    }

    ghost function Contents(): seq<Item>
      reads `nodes, nodes`data
    {
      ItemsOf(nodes)
    }

    /** The contents are what the calls so far leave in a list kept in order of use. */
    ghost predicate Faithful()
      reads `nodes, nodes`data, `history
    {
      if capacity == 0 then Contents() == [] else Contents() == Run(capacity, history)
    }

    constructor (capacity: int)
      ensures Valid() && Contents() == [] && this.capacity == capacity && nodes == [] && Faithful()
    {
      this.capacity := capacity;
      nodeCache := map[];
      mfuNode := null;
      lruNode := null;
      nodes := [];
      history := [];
    }

    /** Moves the node in slot `i` to the front of the list. */
    method ReRank(key: string, ghost i: nat)
      requires Linked() && i < |nodes| && key in nodeCache && nodeCache[key] == nodes[i]
      modifies `mfuNode, `lruNode, `nodes, nodes`nextBlock, nodes`prevBlock
      ensures Linked() && MovedToFront(old(nodes), i, nodes)
    {
      hide ToFront;
      var nodeBlock := nodeCache[key];
      ghost var n, s, r := |nodes|, nodes, ToFront(nodes, i);
      ToFrontMoves(s, i);
      if mfuNode == nodeBlock {
        assert i == 0 && s == r;
        return;
      }
      assert i > 0 && nodeBlock.prevBlock == s[i - 1];
      MovedMembers(s, i, r);
      if lruNode == nodeBlock {
        assert i == n - 1;
        var lru := lruNode;
        lruNode := lru.prevBlock;
        lru.prevBlock.nextBlock := null;
        lru.prevBlock := null;
        nodeBlock.nextBlock := mfuNode;
      } else {
        assert i < n - 1 && nodeBlock.nextBlock == s[i + 1];
        nodeBlock.prevBlock.nextBlock := nodeBlock.nextBlock;
        nodeBlock.nextBlock.prevBlock := nodeBlock.prevBlock;
        nodeBlock.prevBlock := null;
        nodeBlock.nextBlock := mfuNode;
      }
      mfuNode.prevBlock := nodeBlock;
      mfuNode := nodeBlock;
      nodes := r;
      forall k, j | 0 <= k < n && j == k + 1 < n
        ensures r[k].nextBlock == r[j] && r[j].prevBlock == r[k]
      {
        if k == 0 {
        } else if j <= i {
          assert r[k] == s[k - 1] && r[j] == s[k];
        } else if k <= i {
          assert r[k] == s[k - 1] && r[j] == s[k + 1] && k == i;
        } else {
          assert r[k] == s[k] && r[j] == s[k + 1];
        }
      }
    }

    method EvictLast()
      requires Linked() && nodes != []
      modifies `nodeCache, `mfuNode, `lruNode, `nodes, nodes`nextBlock, nodes`prevBlock
      ensures Linked() && nodes == old(nodes)[..|old(nodes)| - 1]
      ensures nodeCache == old(nodeCache) - {old(nodes)[|old(nodes)| - 1].key}
    {
      ghost var n := |nodes| - 1;
      var lru := lruNode;
      assert lru == nodes[n] && if n == 0 then lru.prevBlock == null else lru.prevBlock == nodes[n - 1];
      if lru.prevBlock != null {
        assert n > 0 && lru.prevBlock == nodes[n - 1];
        lruNode := lru.prevBlock;
        lru.prevBlock.nextBlock := null;
        lru.prevBlock := null;
      } else {
        lruNode := null;
        mfuNode := null;
      }
      nodeCache := nodeCache - {lru.key};
      nodes := nodes[..n];
    }

    method AddFront(key: string, value: string)
      requires Linked() && Mapped(nodeCache, nodes) && key !in nodeCache
      modifies `nodeCache, `mfuNode, `lruNode, `nodes, nodes`nextBlock, nodes`prevBlock
      ensures Linked() && |nodes| > 0 && nodes == [nodes[0]] + old(nodes) && fresh(nodes[0])
      ensures nodes[0].key == key && nodes[0].data == value && nodeCache == old(nodeCache)[key := nodes[0]]
    {
      hide Mapped;
      MappedKeys(nodeCache, nodes, key);
      var nodeBlock := new LRUNode(key, value);
      nodeCache := nodeCache[key := nodeBlock];
      if mfuNode == null {
        mfuNode := nodeBlock;
        lruNode := nodeBlock;
      } else {
        assert mfuNode == nodes[0];
        nodeBlock.nextBlock := mfuNode;
        mfuNode.prevBlock := nodeBlock;
        mfuNode := nodeBlock;
      }
      ghost var rest := nodes;
      nodes := [nodeBlock] + rest;
      forall i, j | 0 <= i < |nodes| && j == i + 1 < |nodes|
        ensures nodes[i].nextBlock == nodes[j] && nodes[j].prevBlock == nodes[i]
      {
        assert nodes[j] == rest[i];
        if i > 0 {
          assert nodes[i] == rest[i - 1];
        }
      }
    }

    lemma ValidFacts()
      requires Valid()
      ensures |nodes| == |nodeCache| && Distinct(nodes) && DistinctKeys(Contents())
    {
      MappedDistinct(nodeCache, nodes);
    }

    /** With capacity 0 a `Put` fails: it would evict a node that does not exist. */
    method Put(key: string, value: string) returns (r: string)
      requires Valid() && capacity != 0
      modifies this, nodes
      ensures Valid() && forall n :: n in nodes ==> n in old(nodes) || fresh(n)
      ensures Contents() == AfterPut(old(Contents()), capacity, key, value) && r == value
      ensures history == old(history) + [Op.Put(key, value)] && (old(Faithful()) ==> Faithful())
    {
      hide ItemsOf, Chain, HasKey, Without, Run, Mapped, DistinctKeys;
      HasKeyIsMapped(nodeCache, nodes, key);
      RunOn(capacity, history, Op.Put(key, value));
      history := history + [Op.Put(key, value)];
      if key in nodeCache {
        PutHit(key, value);
      } else {
        PutMiss(key, value);
      }
      return value;
    }

    /** Evicts the last node when the cache is full. */
    method MakeRoom()
      requires Valid() && capacity != 0
      modifies `nodeCache, `mfuNode, `lruNode, `nodes, nodes
      ensures Linked() && Mapped(nodeCache, nodes) && (capacity > 0 ==> |nodes| < capacity)
      ensures nodes <= old(nodes) && nodeCache.Keys <= old(nodeCache.Keys)
      ensures Contents() == if |old(Contents())| == capacity then old(Contents())[..capacity - 1] else old(Contents())
    {
      hide ItemsOf, Chain, Mapped, DistinctKeys, Distinct;
      ValidFacts();
      if |nodeCache| == capacity {
        EvictedMapping(nodeCache, nodes);
        FrontItems(nodes);
        EvictLast();
      }
    }

    /** Makes room if need be, then links a new node in front. */
    method PutMiss(key: string, value: string)
      requires Valid() && capacity != 0 && key !in nodeCache
      modifies `nodeCache, `mfuNode, `lruNode, `nodes, nodes
      ensures Valid() && forall n :: n in nodes ==> n in old(nodes) || fresh(n)
      ensures Contents() == [Item(key, value)]
                + if |old(Contents())| == capacity then old(Contents())[..capacity - 1] else old(Contents())
    {
      hide ItemsOf, Chain, Mapped, DistinctKeys, Distinct;
      MakeRoom();
      ghost var mapping, rest := nodeCache, nodes;
      AddFront(key, value);
      AddedMapping(mapping, rest, nodes[0]);
      MoreItems(nodes[0], rest);
    }

    /** Makes the node of a key the first; `l` is what the list held, but for the node's data. */
    method Touch(key: string, ghost l: seq<Item>)
      requires Valid() && key in nodeCache && DistinctKeys(l) && AgreeBut(l, nodes, SlotOf(nodeCache, nodes, key))
      modifies `mfuNode, `lruNode, `nodes, nodes`nextBlock, nodes`prevBlock
      ensures Valid() && SameNodes(old(nodes), nodes)
      ensures Contents() == [Item(key, nodeCache[key].data)] + Without(l, key)
      ensures HasKey(l, key) && DataOf(l, key) == l[old(SlotOf(nodeCache, nodes, key))].data
    {
      hide ItemsOf, Chain, HasKey, Without, MovedToFront, DistinctKeys, Mapped, SlotOf, DataOf, Distinct;
      ghost var s := nodes;
      ghost var i := SlotOf(nodeCache, nodes, key);
      ReRank(key, i);
      MovedMembers(s, i, nodes);
      MovedMapping(nodeCache, s, nodes);
      UsedItem(l, s, i, nodes);
    }

    /** Replaces the data of a node in place and makes it the first. */
    method PutHit(key: string, value: string)
      requires Valid() && key in nodeCache
      modifies `nodeCache, `mfuNode, `lruNode, `nodes, nodes
      ensures Valid() && SameNodes(old(nodes), nodes)
      ensures Contents() == [Item(key, value)] + Without(old(Contents()), key)
    {
      hide ItemsOf, Chain, HasKey, Without, DistinctKeys, Mapped, SlotOf, SameNodes;
      ValidFacts();
      ghost var before := Contents();
      ghost var i := SlotOf(nodeCache, nodes, key);
      nodeCache[key].data := value;
      assert AgreeBut(before, nodes, i);
      Touch(key, before);
    }

    method Get(key: string) returns (data: string)
      requires Valid()
      modifies this, nodes
      ensures Valid() && SameNodes(old(nodes), nodes)
      ensures Contents() == AfterGet(old(Contents()), key)
      ensures data == if HasKey(old(Contents()), key) then DataOf(old(Contents()), key) else "NOT FOUND"
      ensures history == old(history) + [Op.Get(key)] && (old(Faithful()) ==> Faithful())
    {
      hide ItemsOf, Chain, HasKey, Without, DistinctKeys, Mapped, SlotOf, DataOf, Run, AgreeBut, Distinct;
      HasKeyIsMapped(nodeCache, nodes, key);
      if capacity != 0 {
        RunOn(capacity, history, Op.Get(key));
      }
      history := history + [Op.Get(key)];
      if key !in nodeCache {
        return "NOT FOUND";
      }
      ValidFacts();
      AgreesNow(nodes, SlotOf(nodeCache, nodes, key));
      Touch(key, Contents());
      return nodeCache[key].data;
    }
  }
}
