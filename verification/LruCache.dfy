/** The linked-list `LRUCache`: a doubly linked list between two sentinels and a map into it. */
module LruCache {
  import opened Sequences
  import opened Wrappers

  // ---------------------------------------------------------------------------------------------
  // Entries from the most to the least recently used
  // ---------------------------------------------------------------------------------------------

  datatype Entry = Entry(key: int, value: int)

  /** Where `key` stands; the length of the list if nowhere. */
  function Position(es: seq<Entry>, key: int): (p: nat)
    ensures p <= |es|
    ensures p < |es| ==> es[p].key == key
    ensures forall i :: 0 <= i < p ==> es[i].key != key
  {
    if es == [] || es[0].key == key then 0 else 1 + Position(es[1..], key)
  }

  function Has(es: seq<Entry>, key: int): bool { Position(es, key) < |es| }

  function Without(es: seq<Entry>, p: nat): seq<Entry>
    requires p < |es|
  {
    es[..p] + es[p + 1..]
  }

  function Answer(es: seq<Entry>, key: int): int {
    if Has(es, key) then es[Position(es, key)].value else -1
  }

  /** The entries after `get`. */
  function Touched(es: seq<Entry>, key: int): seq<Entry> {
    var p := Position(es, key);
    if p < |es| then [es[p]] + Without(es, p) else es
  }

  /** The entries after `put`. */
  function Stored(es: seq<Entry>, capacity: int, key: int, value: int): seq<Entry> {
    var p := Position(es, key);
    if p < |es| then [Entry(key, value)] + Without(es, p)
    else if |es| + 1 > capacity then ([Entry(key, value)] + es)[..|es|]
    else [Entry(key, value)] + es
  }

  // ---------------------------------------------------------------------------------------------
  // The linked list
  // ---------------------------------------------------------------------------------------------

  class Node {
    var key: int
    var value: int
    var prev: Node?
    var next: Node?

    constructor (key: int, value: int)
      ensures this.key == key && this.value == value && prev == null && next == null
    {
      this.key, this.value, prev, next := key, value, null, null;
    }
  }

  ghost predicate Link(a: Node, b: Node)
    reads a`next, b`prev
  {
    a.next == b && b.prev == a
  }

  ghost function NodeSet(all: seq<Node>): set<Node> { set n | n in all }

  /** `all` are the nodes of a doubly linked list, in order. */
  ghost predicate Linked(all: seq<Node>)
    reads NodeSet(all)`prev, NodeSet(all)`next
  {
    && NoRepeats(all)
    && forall i, j :: 0 <= i < j < |all| && j == i + 1 ==> Link(all[i], all[j])
  }

  ghost function EntriesOf(list: seq<Node>): (es: seq<Entry>)
    reads NodeSet(list)`key, NodeSet(list)`value
    ensures |es| == |list| && forall i :: 0 <= i < |es| ==> es[i] == Entry(list[i].key, list[i].value)
  {
    if list == [] then [] else [Entry(list[0].key, list[0].value)] + EntriesOf(list[1..])
  }

  /** `cache` holds exactly the nodes of `list`, each under its key. */
  ghost predicate Indexes(cache: map<int, Node>, list: seq<Node>)
    reads NodeSet(list)`key
  {
    && (forall i :: 0 <= i < |list| ==> list[i].key in cache && cache[list[i].key] == list[i])
    && (forall k :: k in cache ==> cache[k] in list && cache[k].key == k)
  }

  lemma LookUp(cache: map<int, Node>, list: seq<Node>, key: int) returns (p: nat)
    requires Indexes(cache, list)
    ensures p == Position(EntriesOf(list), key)
    ensures key in cache <==> p < |list|
    ensures p < |list| ==> cache[key] == list[p] && list[p].key == key
  {
    p := Position(EntriesOf(list), key);
    if key in cache {
      var i :| 0 <= i < |list| && list[i] == cache[key];
      assert EntriesOf(list)[i].key == key;
    }
  }

  /** `all` is linked, except that the links go around its node `k`. */
  ghost predicate Bypassed(all: seq<Node>, k: nat)
    reads NodeSet(all)`prev, NodeSet(all)`next
  {
    && 1 <= k < |all| - 1 && NoRepeats(all)
    && (forall i, j :: 0 <= i < j < |all| && j == i + 1 && i != k && j != k ==> Link(all[i], all[j]))
    && Link(all[k - 1], all[k + 1])
  }

  /** The list without one inner node. */
  lemma Drop(was: seq<Node>, k: nat)
    requires Bypassed(was, k)
    ensures Linked(was[..k] + was[k + 1..])
    ensures var now := was[..k] + was[k + 1..];
            && now[1..|now| - 1] == was[1..|was| - 1][..k - 1] + was[1..|was| - 1][k..]
            && now[0] == was[0] && now[|now| - 1] == was[|was| - 1]
  {
    var now := was[..k] + was[k + 1..];
    assert forall j :: 0 <= j < |now| ==> now[j] == was[if j < k then j else j + 1];
  }

  lemma DropSet(was: seq<Node>, k: nat)
    requires 1 <= k < |was| - 1 && NoRepeats(was)
    ensures NodeSet(was[..k] + was[k + 1..]) == NodeSet(was) - {was[k]}
  {
    var now := was[..k] + was[k + 1..];
    forall n | n in was && n != was[k] ensures n in now {
      var i :| 0 <= i < |was| && was[i] == n;
      assert n == now[if i < k then i else i - 1];
    }
  }

  lemma WithoutUpdated(es: seq<Entry>, p: nat, e: Entry)
    requires p < |es|
    ensures Without(es[p := e], p) == Without(es, p)
  {
  }

  lemma InnerDistinct(nodes: seq<Node>)
    requires |nodes| >= 2 && Linked(nodes)
    ensures NoRepeats(nodes[1..|nodes| - 1])
  {
  }

  /** Bringing a node to the front keeps the map right and moves its entry. */
  lemma Moved(cache: map<int, Node>, list: seq<Node>, p: nat)
    requires Indexes(cache, list) && p < |list|
    ensures var now := [list[p]] + list[..p] + list[p + 1..];
            && Indexes(cache, now)
            && EntriesOf(now) == [EntriesOf(list)[p]] + Without(EntriesOf(list), p)
  {
    hide Indexes, EntriesOf;
    MovedIndex(cache, list, p);
    MovedEntries(list, p);
  }

  lemma MovedIndex(cache: map<int, Node>, list: seq<Node>, p: nat)
    requires Indexes(cache, list) && p < |list|
    ensures Indexes(cache, [list[p]] + list[..p] + list[p + 1..])
  {
    var now := [list[p]] + list[..p] + list[p + 1..];
    forall i | 0 <= i < |now| ensures now[i].key in cache && cache[now[i].key] == now[i] {
      assert now[i] == list[if i == 0 then p else if i <= p then i - 1 else i];
    }
    forall k | k in cache ensures cache[k] in now {
      var i :| 0 <= i < |list| && list[i] == cache[k];
      assert cache[k] == now[if i < p then i + 1 else if i == p then 0 else i];
    }
  }

  lemma MovedEntries(list: seq<Node>, p: nat)
    requires p < |list|
    ensures EntriesOf([list[p]] + list[..p] + list[p + 1..]) == [EntriesOf(list)[p]] + Without(EntriesOf(list), p)
  {
    hide EntriesOf, Without;
    var now, es := [list[p]] + list[..p] + list[p + 1..], EntriesOf(list);
    var was, moved := EntriesOf(now), [es[p]] + Without(es, p);
    assert |moved| == |es| by { MovedAt(es, p, 0, p); }
    forall i: nat | i < |now| ensures was[i] == moved[i] {
      var j := if i == 0 then p else if i <= p then i - 1 else i;
      NodeAt(list, p, i, j);
      MovedAt(es, p, i, j);
    }
  }

  lemma NodeAt(list: seq<Node>, p: nat, i: nat, j: nat)
    requires p < |list| && i < |list| && j == if i == 0 then p else if i <= p then i - 1 else i
    ensures ([list[p]] + list[..p] + list[p + 1..])[i] == list[j]
  {
  }

  lemma MovedAt(es: seq<Entry>, p: nat, i: nat, j: nat)
    requires p < |es| && i < |es| && j == if i == 0 then p else if i <= p then i - 1 else i
    ensures |Without(es, p)| == |es| - 1 && ([es[p]] + Without(es, p))[i] == es[j]
  {
  }

  lemma Added(cache: map<int, Node>, list: seq<Node>, node: Node)
    requires Indexes(cache, list) && node.key !in cache
    ensures Indexes(cache[node.key := node], [node] + list)
    ensures EntriesOf([node] + list) == [Entry(node.key, node.value)] + EntriesOf(list)
  {
    var now := [node] + list;
    assert node == now[0];
    forall n | n in list ensures n in now {
      var i :| 0 <= i < |list| && list[i] == n;
      assert n == now[i + 1];
    }
  }

  lemma Evicted(cache: map<int, Node>, list: seq<Node>, node: Node)
    requires Indexes(cache, list + [node]) && NoRepeats(list + [node])
    ensures Indexes(cache - {node.key}, list)
    ensures EntriesOf(list) == EntriesOf(list + [node])[..|list|]
  {
    hide Indexes, EntriesOf;
    EvictedIndex(cache, list, node);
    assert forall i :: 0 <= i < |list| ==> (list + [node])[i] == list[i];
  }

  lemma EvictedIndex(cache: map<int, Node>, list: seq<Node>, node: Node)
    requires Indexes(cache, list + [node]) && NoRepeats(list + [node])
    ensures Indexes(cache - {node.key}, list)
  {
    var was := list + [node];
    assert was[|list|] == node;
    forall i | 0 <= i < |list|
      ensures list[i].key in cache && cache[list[i].key] == list[i] && list[i].key != node.key
    {
      assert was[i] == list[i];
    }
    forall k | k in cache && k != node.key ensures cache[k] in list {
      assert cache[k] in was && cache[k] != node;
    }
  }

  function Room(capacity: int): (n: nat) { if capacity < 0 then 0 else capacity }

  class LRUCache {
    var cache: map<int, Node>
    const head: Node
    const tail: Node
    var size: int
    var capacity: int
    /** The nodes of the list with both sentinels. */
    ghost var nodes: seq<Node>

    ghost predicate Chained()
      reads this`nodes, NodeSet(nodes)`prev, NodeSet(nodes)`next
    {
      |nodes| >= 2 && nodes[0] == head && nodes[|nodes| - 1] == tail && Linked(nodes)
    }

    /** The nodes between the sentinels. */
    ghost function List(): (list: seq<Node>)
      requires |nodes| >= 2
      reads this`nodes
      ensures NodeSet(list) <= NodeSet(nodes)
    {
      nodes[1..|nodes| - 1]
    }

    ghost predicate Consistent()
      reads this, NodeSet(nodes)
    {
      Chained() && Indexes(cache, List()) && size == |List()|
    }

    ghost predicate Valid()
      reads this, NodeSet(nodes)
    {
      Consistent() && size <= Room(capacity)
    }

    ghost function Entries(): seq<Entry>
      requires |nodes| >= 2
      reads this`nodes, NodeSet(nodes)`key, NodeSet(nodes)`value
    {
      EntriesOf(List())
    }

    constructor (capacity: int)
      ensures Valid() && Entries() == [] && this.capacity == capacity
      ensures fresh(NodeSet(nodes))
    {
      this.capacity, size, cache := capacity, 0, map[];
      head := new Node(0, 0);
      tail := new Node(0, 0);
      new;
      head.next := tail;
      tail.prev := head;
      nodes := [head, tail];
    }

    method AddToHead(node: Node)
      requires Chained() && node !in nodes
      modifies this`nodes, node`prev, node`next, NodeSet(nodes)`prev, NodeSet(nodes)`next
      ensures Chained() && List() == [node] + old(List())
      ensures NodeSet(nodes) == old(NodeSet(nodes)) + {node}
    {
      assert nodes[1] in NodeSet(nodes) && Link(nodes[0], nodes[1]);
      node.prev := head;
      node.next := head.next;
      head.next.prev := node;
      head.next := node;
      ghost var was := nodes;
      nodes := [head, node] + nodes[1..];
      assert forall j :: 2 <= j < |nodes| ==> nodes[j] == was[j - 1];
      assert List() == [node] + was[1..|was| - 1];
    }

    method RemoveNode(node: Node, ghost i: nat)
      requires Chained() && i < |List()| && List()[i] == node
      modifies this`nodes, NodeSet(nodes)`prev, NodeSet(nodes)`next
      ensures Chained() && List() == old(List())[..i] + old(List())[i + 1..]
      ensures NodeSet(nodes) == old(NodeSet(nodes)) - {node}
    {
      ghost var k := i + 1;
      assert nodes[k - 1] in NodeSet(nodes) && nodes[k + 1] in NodeSet(nodes);
      Unlink(node, nodes[k - 1], nodes[k + 1], k);
      Drop(nodes, k);
      DropSet(nodes, k);
      hide Linked, Bypassed;
      nodes := nodes[..k] + nodes[k + 1..];
    }

    method Unlink(node: Node, ghost before: Node, ghost after: Node, ghost k: nat)
      requires 1 <= k < |nodes| - 1 && Linked(nodes) && nodes[k] == node
      requires before == nodes[k - 1] && after == nodes[k + 1]
      modifies before`next, after`prev
      ensures Bypassed(nodes, k)
    {
      assert Link(nodes[k - 1], nodes[k]) && Link(nodes[k], nodes[k + 1]);
      node.prev.next := node.next;
      node.next.prev := node.prev;
    }

    method MoveToHead(node: Node, ghost i: nat)
      requires Chained() && i < |List()| && List()[i] == node
      modifies this`nodes, NodeSet(nodes)`prev, NodeSet(nodes)`next
      ensures Chained() && List() == [node] + old(List())[..i] + old(List())[i + 1..]
      ensures NodeSet(nodes) <= old(NodeSet(nodes))
    {
      RemoveNode(node, i);
      AddToHead(node);
    }

    method RemoveTail() returns (node: Node)
      requires Chained() && |List()| > 0
      modifies this`nodes, NodeSet(nodes)`prev, NodeSet(nodes)`next
      ensures Chained() && old(List()) == List() + [node] && NoRepeats(old(List()))
      ensures NodeSet(nodes) <= old(NodeSet(nodes))
    {
      ghost var last := |List()| - 1;
      InnerDistinct(nodes);
      assert Link(nodes[last + 1], nodes[last + 2]);
      node := tail.prev;
      RemoveNode(node, last);
    }

    method Get(key: int) returns (r: int)
      requires Valid()
      modifies this`nodes, NodeSet(nodes)`prev, NodeSet(nodes)`next
      ensures Valid() && NodeSet(nodes) <= old(NodeSet(nodes))
      ensures r == Answer(old(Entries()), key)
      ensures Entries() == Touched(old(Entries()), key)
    {
      hide Indexes, Linked, NoRepeats, EntriesOf;
      ghost var p := LookUp(cache, List(), key);
      if key !in cache {
        return -1;
      }
      var node := cache[key];
      ghost var list := List();
      MoveToHead(node, p);
      Moved(cache, list, p);
      r := node.value;
    }

    method Put(key: int, value: int)
      requires Valid()
      modifies this`nodes, this`cache, this`size, NodeSet(nodes)
      ensures Valid() && fresh(NodeSet(nodes) - old(NodeSet(nodes)))
      ensures Entries() == Stored(old(Entries()), capacity, key, value)
    {
      hide Indexes, Linked, NoRepeats, NodeSet, EntriesOf;
      ghost var p := LookUp(cache, List(), key);
      if key !in cache {
        Insert(key, value);
        if size > capacity {
          Evict();
        }
      } else {
        Update(key, value, p);
      }
    }

    method Insert(key: int, value: int)
      requires Consistent() && key !in cache
      modifies this`nodes, this`cache, this`size, NodeSet(nodes)`prev, NodeSet(nodes)`next
      ensures Consistent() && fresh(NodeSet(nodes) - old(NodeSet(nodes)))
      ensures Entries() == [Entry(key, value)] + old(Entries())
    {
      hide Indexes, Linked, NoRepeats, EntriesOf;
      var node := new Node(key, value);
      InsertNode(node);
    }

    method InsertNode(node: Node)
      requires Consistent() && node !in nodes && node.key !in cache
      modifies this`nodes, this`cache, this`size, node`prev, node`next, NodeSet(nodes)`prev, NodeSet(nodes)`next
      ensures Consistent() && NodeSet(nodes) == old(NodeSet(nodes)) + {node}
      ensures Entries() == [Entry(node.key, node.value)] + old(Entries())
    {
      hide Indexes, Linked, NoRepeats, EntriesOf;
      ghost var list := List();
      Added(cache, list, node);
      cache := cache[node.key := node];
      AddToHead(node);
      size := size + 1;
    }

    method Evict()
      requires Consistent() && size > 0
      modifies this`nodes, this`cache, this`size, NodeSet(nodes)`prev, NodeSet(nodes)`next
      ensures Consistent() && NodeSet(nodes) <= old(NodeSet(nodes))
      ensures Entries() == old(Entries())[..old(size) - 1]
    {
      hide Indexes, Linked, NoRepeats, EntriesOf;
      var removed := RemoveTail();
      Evicted(cache, List(), removed);
      cache := cache - {removed.key};
      size := size - 1;
    }

    method Update(key: int, value: int, ghost p: nat)
      requires Consistent() && key in cache && p < |List()| && cache[key] == List()[p] && List()[p].key == key
      modifies this`nodes, NodeSet(nodes)
      ensures Consistent() && NodeSet(nodes) <= old(NodeSet(nodes))
      ensures Entries() == [Entry(key, value)] + Without(old(Entries()), p)
    {
      hide Linked, Indexes, EntriesOf, NoRepeats;
      var node := cache[key];
      ghost var list := List();
      SetValue(node, p, value);
      WithoutUpdated(old(Entries()), p, EntriesOf(list)[p]);
      MoveToHead(node, p);
      Moved(cache, list, p);
    }

    method SetValue(node: Node, ghost p: nat, value: int)
      requires Consistent() && p < |List()| && node == List()[p]
      modifies node`value
      ensures Consistent() && node.value == value
      ensures Entries() == old(Entries())[p := Entry(node.key, value)]
    {
      ghost var list := List();
      InnerDistinct(nodes);
      hide Linked, Indexes;
      node.value := value;
      assert forall i :: 0 <= i < |list| && i != p ==> list[i] != node;
    }
  }

  // ---------------------------------------------------------------------------------------------
  // Whole histories
  // ---------------------------------------------------------------------------------------------

  datatype Op = OpGet(key: int) | OpPut(key: int, value: int)

  function Step(es: seq<Entry>, capacity: int, op: Op): seq<Entry> {
    match op
    case OpGet(key) => Touched(es, key)
    case OpPut(key, value) => Stored(es, capacity, key, value)
  }

  /** The entries after a history that starts from an empty cache. */
  function Replayed(h: seq<Op>, capacity: int): seq<Entry> {
    if h == [] then [] else Step(Replayed(h[..|h| - 1], capacity), capacity, h[|h| - 1])
  }

  /** The time at which `h` last names `key`; 0 if it never does. */
  function LastUse(h: seq<Op>, key: int): nat {
    if h == [] then 0 else if h[|h| - 1].key == key then |h| else LastUse(h[..|h| - 1], key)
  }

  /** The value that `h` last puts under `key`. */
  function LastPut(h: seq<Op>, key: int): int {
    if h == [] then -1
    else if h[|h| - 1].OpPut? && h[|h| - 1].key == key then h[|h| - 1].value
    else LastPut(h[..|h| - 1], key)
  }

  ghost predicate LeastRecent(h: seq<Op>, keys: set<int>, x: int) {
    x in keys && forall y :: y in keys && y != x ==> LastUse(h, x) < LastUse(h, y)
  }

  ghost function WithoutLeastRecent(h: seq<Op>, keys: set<int>): set<int> {
    if x :| LeastRecent(h, keys, x) then keys - {x} else keys
  }

  /** The keys that a cache holds after `h`: each put key stays until it is the least recently used of too many. */
  ghost function Held(h: seq<Op>, capacity: int): set<int> {
    if h == [] then {}
    else
      var before, op := Held(h[..|h| - 1], capacity), h[|h| - 1];
      if op.OpGet? || op.key in before then before
      else if |before| + 1 > capacity then WithoutLeastRecent(h, before + {op.key})
      else before + {op.key}
  }

  /** What `get` should answer after `h`. */
  ghost function Reply(h: seq<Op>, capacity: int, key: int): int {
    if key in Held(h, capacity) then LastPut(h, key) else -1
  }

  ghost function KeySet(es: seq<Entry>): set<int> { set e | e in es :: e.key }

  /** `es` runs from the most to the least recently used key, each with the value last put. */
  ghost predicate Ranked(h: seq<Op>, es: seq<Entry>) {
    && (forall i, j :: 0 <= i < j < |es| ==> LastUse(h, es[i].key) > LastUse(h, es[j].key))
    && (forall i :: 0 <= i < |es| ==> es[i].value == LastPut(h, es[i].key))
  }

  lemma {:induction false} LastUseWithin(h: seq<Op>, key: int)
    ensures LastUse(h, key) <= |h|
  {
    if h != [] {
      LastUseWithin(h[..|h| - 1], key);
    }
  }

  lemma {:induction false} KeySetSize(h: seq<Op>, es: seq<Entry>)
    requires Ranked(h, es)
    ensures |KeySet(es)| == |es|
    decreases |es|
  {
    if es != [] {
      var m := |es| - 1;
      KeySetSize(h, es[..m]);
      KeysOneMore(es);
      forall i | 0 <= i < m ensures es[..m][i].key != es[m].key {
        assert LastUse(h, es[i].key) > LastUse(h, es[m].key);
      }
    }
  }

  lemma KeysOneMore(es: seq<Entry>)
    requires es != []
    ensures KeySet(es) == KeySet(es[..|es| - 1]) + {es[|es| - 1].key}
  {
    var m := |es| - 1;
    assert es == es[..m] + [es[m]];
  }

  /** Other keys keep their rank when an operation names a key that is not among them. */
  lemma OthersRanked(h: seq<Op>, es: seq<Entry>)
    requires h != [] && Ranked(h[..|h| - 1], es)
    requires forall i :: 0 <= i < |es| ==> es[i].key != h[|h| - 1].key
    ensures Ranked(h, es)
  {
  }

  lemma WithoutRanked(h: seq<Op>, es: seq<Entry>, p: nat)
    requires Ranked(h, es) && p < |es|
    ensures Ranked(h, Without(es, p))
    ensures forall i :: 0 <= i < |es| - 1 ==> Without(es, p)[i].key != es[p].key
  {
    var now := Without(es, p);
    forall i | 0 <= i < |now| ensures now[i] == es[if i < p then i else i + 1] {
    }
  }

  /** The key that an operation names comes to the front. */
  lemma FrontRanked(h: seq<Op>, rest: seq<Entry>, e: Entry)
    requires h != [] && Ranked(h[..|h| - 1], rest) && e.key == h[|h| - 1].key && e.value == LastPut(h, e.key)
    requires forall i :: 0 <= i < |rest| ==> rest[i].key != e.key
    ensures Ranked(h, [e] + rest)
  {
    OthersRanked(h, rest);
    forall j | 0 <= j < |rest| ensures LastUse(h, e.key) > LastUse(h, rest[j].key) {
      LastUseWithin(h[..|h| - 1], rest[j].key);
    }
  }

  lemma KeysMoved(es: seq<Entry>, p: nat, e: Entry)
    requires p < |es| && e.key == es[p].key
    ensures KeySet([e] + Without(es, p)) == KeySet(es)
  {
    var now := [e] + Without(es, p);
    assert now[0] == e;
    forall i | 0 <= i < |es| ensures es[i].key in KeySet(now) {
      assert i != p ==> es[i] == now[if i < p then i + 1 else i];
    }
    forall i | 1 <= i < |now| ensures now[i] in es {
      assert now[i] == es[if i <= p then i - 1 else i];
    }
  }

  /** Dropping the last of ranked entries drops the least recently used key. */
  lemma DropsLeastRecent(h: seq<Op>, es: seq<Entry>)
    requires es != [] && Ranked(h, es)
    ensures KeySet(es[..|es| - 1]) == WithoutLeastRecent(h, KeySet(es))
  {
    var m := |es| - 1;
    var x := es[m].key;
    assert es[m] in es;
    forall y | y in KeySet(es) && y != x ensures LastUse(h, x) < LastUse(h, y) {
      var i :| 0 <= i < |es| && es[i].key == y;
    }
    assert LeastRecent(h, KeySet(es), x);
    forall i | 0 <= i < m ensures es[..m][i].key != x {
      assert LastUse(h, es[i].key) > LastUse(h, x);
    }
    KeysOneMore(es);
  }

  lemma PositionInKeys(es: seq<Entry>, key: int)
    ensures Has(es, key) <==> key in KeySet(es)
  {
    if Has(es, key) {
      assert es[Position(es, key)] in es;
    }
  }

  lemma StepRanked(h: seq<Op>, capacity: int, es: seq<Entry>)
    requires h != [] && Ranked(h[..|h| - 1], es) && |es| <= Room(capacity)
    ensures Ranked(h, Step(es, capacity, h[|h| - 1])) && |Step(es, capacity, h[|h| - 1])| <= Room(capacity)
  {
    var op := h[|h| - 1];
    var p := Position(es, op.key);
    if p < |es| {
      WithoutRanked(h[..|h| - 1], es, p);
      FrontRanked(h, Without(es, p), if op.OpGet? then es[p] else Entry(op.key, op.value));
    } else if op.OpGet? {
      OthersRanked(h, es);
    } else {
      FrontRanked(h, es, Entry(op.key, op.value));
    }
  }

  lemma StepKeys(h: seq<Op>, capacity: int, es: seq<Entry>)
    requires h != [] && Ranked(h[..|h| - 1], es) && KeySet(es) == Held(h[..|h| - 1], capacity)
    ensures KeySet(Step(es, capacity, h[|h| - 1])) == Held(h, capacity)
  {
    var op := h[|h| - 1];
    var p := Position(es, op.key);
    PositionInKeys(es, op.key);
    KeySetSize(h[..|h| - 1], es);
    if p < |es| {
      KeysMoved(es, p, if op.OpGet? then es[p] else Entry(op.key, op.value));
    } else if op.OpPut? {
      var e := Entry(op.key, op.value);
      assert KeySet([e] + es) == KeySet(es) + {op.key} by {
        assert ([e] + es)[0] == e;
      }
      if |es| + 1 > capacity {
        FrontRanked(h, es, e);
        DropsLeastRecent(h, [e] + es);
      }
    }
  }

  /** After any history the cache is ranked by use, and holds the keys that the policy keeps and their last values. */
  lemma {:induction false} CacheFollowsPolicy(h: seq<Op>, capacity: int)
    ensures Ranked(h, Replayed(h, capacity)) && |Replayed(h, capacity)| <= Room(capacity)
    ensures KeySet(Replayed(h, capacity)) == Held(h, capacity)
  {
    if h != [] {
      var before := h[..|h| - 1];
      CacheFollowsPolicy(before, capacity);
      StepRanked(h, capacity, Replayed(before, capacity));
      StepKeys(h, capacity, Replayed(before, capacity));
    }
  }

  lemma AnswerIsReply(h: seq<Op>, capacity: int, key: int)
    ensures Answer(Replayed(h, capacity), key) == Reply(h, capacity, key)
  {
    CacheFollowsPolicy(h, capacity);
    PositionInKeys(Replayed(h, capacity), key);
  }

  lemma NothingReplayed(capacity: int)
    ensures Replayed([], capacity) == []
  {
  }

  lemma ReplayedStep(h: seq<Op>, i: nat, capacity: int)
    requires i < |h|
    ensures Replayed(h[..i + 1], capacity) == Step(Replayed(h[..i], capacity), capacity, h[i])
  {
    assert h[..i + 1][..i] == h[..i];
  }

  /** A whole history against one cache: every `get` answers as the policy demands. */
  method Replay(h: seq<Op>, capacity: int) returns (answers: seq<Option<int>>)
    ensures |answers| == |h|
    ensures forall i :: 0 <= i < |h| ==>
      answers[i] == if h[i].OpGet? then Some(Reply(h[..i], capacity, h[i].key)) else None
  {
    hide Linked, Indexes, EntriesOf, Touched, Stored, Reply, Answer, Replayed;
    var lru := new LRUCache(capacity);
    answers := [];
    NothingReplayed(capacity);
    for i := 0 to |h|
      invariant |answers| == i && lru.Valid() && lru.capacity == capacity
      invariant fresh(lru) && fresh(NodeSet(lru.nodes))
      invariant lru.Entries() == Replayed(h[..i], capacity)
      invariant forall k :: 0 <= k < i ==>
        answers[k] == if h[k].OpGet? then Some(Reply(h[..k], capacity, h[k].key)) else None
    {
      ReplayedStep(h, i, capacity);
      match h[i]
      case OpGet(key) =>
        AnswerIsReply(h[..i], capacity, key);
        var r := lru.Get(key);
        answers := answers + [Some(r)];
      case OpPut(key, value) =>
        lru.Put(key, value);
        answers := answers + [None];
    }
  }
}
