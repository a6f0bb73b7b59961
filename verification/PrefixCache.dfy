/**
 * The hash-chain prefix cache.  A prompt is a list of full blocks and a shorter tail; the manager reuses the
 * physical block of a full block when it has seen the same chain of blocks before.
 */
module PrefixCache {
  import opened Sequences
  import opened Wrappers
  import opened Arithmetic

  /** A token id that fits the four bytes it is hashed in. */
  type Token = t: int | 0 <= t < 0x1_0000_0000

  /** `compute_hash` of a block and the hash of its prefix, -1 for no prefix.  Digests are unsigned. */
  type Hash = (seq<Token>, int) -> int

  datatype Block = Block(refs: int, hashKey: int, tokens: seq<Token>)

  datatype Manager = Manager(blocks: seq<Block>, free: seq<nat>, used: set<nat>, index: map<int, nat>)

  /** The tokens of one sequence, cut into blocks. */
  datatype Prompt = Prompt(full: seq<seq<Token>>, tail: seq<Token>)

  /** The hash that stands for the first `i` blocks. */
  function Chain(hash: Hash, full: seq<seq<Token>>, i: nat): int
    requires i <= |full|
  {
    if i == 0 then -1 else hash(full[i - 1], Chain(hash, full, i - 1))
  }

  /** The hash of block `i`, chained to the blocks before it. */
  function Digest(hash: Hash, full: seq<seq<Token>>, i: nat): int
    requires i < |full|
  {
    Chain(hash, full, i + 1)
  }

  /** The digest is unsigned on every input that is hashed, and two hashed inputs with the same digest are equal. */
  ghost predicate NoCollision(hash: Hash, prompts: seq<Prompt>) {
    && (forall a, i :: 0 <= a < |prompts| && 0 <= i < |prompts[a].full| ==> Digest(hash, prompts[a].full, i) >= 0)
    && forall a, b, i, j ::
         (&& 0 <= a < |prompts| && 0 <= b < |prompts| && 0 <= i < |prompts[a].full| && 0 <= j < |prompts[b].full|
          && Digest(hash, prompts[a].full, i) == Digest(hash, prompts[b].full, j))
         ==> (&& prompts[a].full[i] == prompts[b].full[j]
              && Chain(hash, prompts[a].full, i) == Chain(hash, prompts[b].full, j))
  }

  lemma ChainIsUnsigned(hash: Hash, prompts: seq<Prompt>, a: nat, i: nat)
    requires NoCollision(hash, prompts) && a < |prompts| && i <= |prompts[a].full|
    ensures Chain(hash, prompts[a].full, i) == -1 <==> i == 0
  {
    assert i > 0 ==> Digest(hash, prompts[a].full, i - 1) >= 0;
  }

  lemma SameDigest(hash: Hash, prompts: seq<Prompt>, a: nat, b: nat, i: nat, j: nat)
    requires NoCollision(hash, prompts) && a < |prompts| && b < |prompts|
    requires i < |prompts[a].full| && j < |prompts[b].full|
    requires Chain(hash, prompts[a].full, i + 1) == Chain(hash, prompts[b].full, j + 1)
    ensures prompts[a].full[i] == prompts[b].full[j]
    ensures Chain(hash, prompts[a].full, i) == Chain(hash, prompts[b].full, j)
  {
    assert Digest(hash, prompts[a].full, i) == Digest(hash, prompts[b].full, j);
  }

  /** Equal chains mean equal prefixes. */
  lemma {:induction false} ChainIsPrefix(hash: Hash, prompts: seq<Prompt>, a: nat, b: nat, i: nat, j: nat)
    requires NoCollision(hash, prompts) && a < |prompts| && b < |prompts|
    requires i <= |prompts[a].full| && j <= |prompts[b].full|
    requires Chain(hash, prompts[a].full, i) == Chain(hash, prompts[b].full, j)
    ensures i == j && prompts[a].full[..i] == prompts[b].full[..i]
  {
    hide NoCollision;
    var p, q := prompts[a].full, prompts[b].full;
    ChainIsUnsigned(hash, prompts, a, i);
    ChainIsUnsigned(hash, prompts, b, j);
    if i > 0 && j > 0 {
      SameDigest(hash, prompts, a, b, i - 1, j - 1);
      ChainIsPrefix(hash, prompts, a, b, i - 1, j - 1);
      assert p[..i] == p[..i - 1] + [p[i - 1]] && q[..i] == q[..i - 1] + [q[i - 1]];
    }
  }

  /** A chain depends only on the blocks it covers. */
  lemma {:induction false} ChainOfPrefix(hash: Hash, p: seq<seq<Token>>, q: seq<seq<Token>>, i: nat)
    requires i <= |p| && i <= |q| && p[..i] == q[..i]
    ensures Chain(hash, p, i) == Chain(hash, q, i)
  {
    if i > 0 {
      assert p[i - 1] == p[..i][i - 1] == q[..i][i - 1] == q[i - 1];
      assert p[..i - 1] == p[..i][..i - 1] && q[..i - 1] == q[..i][..i - 1];
      ChainOfPrefix(hash, p, q, i - 1);
    }
  }

  // ---------------------------------------------------------------------------------------------
  // One block
  // ---------------------------------------------------------------------------------------------

  /** Gives block `id` to a new owner: `_allocate`, then the tokens and the hash that the caller records. */
  function Take(m: Manager, id: nat, hashKey: int, tokens: seq<Token>): Manager
    requires id < |m.blocks| && id in m.free
  {
    m.(free := Remove(m.free, id), used := m.used + {id}, blocks := m.blocks[id := Block(1, hashKey, tokens)])
  }

  /** `deque.remove`: the first occurrence goes. */
  function Remove(ids: seq<nat>, id: nat): seq<nat> {
    if ids == [] then [] else if ids[0] == id then ids[1..] else [ids[0]] + Remove(ids[1..], id)
  }

  datatype Placed = Placed(m: Manager, id: nat, hit: bool)

  /** The body of the loop in `allocate` for one block of tokens.  `full` says that it fills a block, `digest`
      is its hash then, and `missed` that an earlier block of the same sequence was not cached.  Nothing
      means that the manager ran out of blocks. */
  function PlaceBlock(m: Manager, tokens: seq<Token>, full: bool, digest: int, missed: bool): Option<Placed>
    requires forall k :: k in m.index ==> m.index[k] < |m.blocks| && (m.index[k] in m.used || m.index[k] in m.free)
    requires forall i :: 0 <= i < |m.free| ==> m.free[i] < |m.blocks|
  {
    if full && !missed && digest in m.index && m.blocks[m.index[digest]].tokens == tokens then
      var id := m.index[digest];
      if id in m.used then
        Some(Placed(m.(blocks := m.blocks[id := m.blocks[id].(refs := m.blocks[id].refs + 1)]), id, true))
      else Some(Placed(Take(m, id, digest, tokens), id, true))
    else if m.free == [] then None
    else
      var id := m.free[0];
      var n := Take(m, id, if full then digest else -1, tokens);
      Some(Placed(if full then n.(index := n.index[digest := id]) else n, id, false))
  }

  // ---------------------------------------------------------------------------------------------
  // The invariant
  // ---------------------------------------------------------------------------------------------

  /** The table of a prompt has one entry per full block and one for a non-empty tail. */
  ghost predicate TableOk(m: Manager, hash: Hash, p: Prompt, table: seq<nat>) {
    && |table| == |p.full| + (if p.tail == [] then 0 else 1)
    && (forall i :: 0 <= i < |table| ==> table[i] < |m.blocks| && table[i] in m.used)
    && forall i :: 0 <= i < |p.full| ==>
         var k := Digest(hash, p.full, i);
         k in m.index && m.index[k] == table[i] && m.blocks[table[i]].tokens == p.full[i]
  }

  /** The entry of a tail belongs to no chain. */
  ghost predicate TailOk(m: Manager, p: Prompt, table: seq<nat>) {
    p.tail != [] && table != [] ==> forall k :: k in m.index ==> m.index[k] != table[|table| - 1]
  }

  ghost predicate Known(hash: Hash, prompts: seq<Prompt>, k: int) {
    exists a, i :: 0 <= a < |prompts| && 0 <= i < |prompts[a].full| && Digest(hash, prompts[a].full, i) == k
  }

  ghost predicate PoolOk(m: Manager) {
    && (forall i :: 0 <= i < |m.free| ==> m.free[i] < |m.blocks| && m.free[i] !in m.used)
    && NoRepeats(m.free)
    && (forall k :: k in m.index ==> m.index[k] in m.used && m.index[k] < |m.blocks|)
    && forall k, l :: k in m.index && l in m.index && m.index[k] == m.index[l] ==> k == l
  }

  /** The tails' entries are pairwise different. */
  ghost predicate TailsApart(prompts: seq<Prompt>, tables: seq<seq<nat>>)
    requires |tables| == |prompts|
  {
    forall a, b :: 0 <= a < b < |prompts| && prompts[a].tail != [] && prompts[b].tail != [] ==>
      tables[a] != [] && tables[b] != [] && tables[a][|tables[a]| - 1] != tables[b][|tables[b]| - 1]
  }

  ghost predicate Inv(m: Manager, hash: Hash, prompts: seq<Prompt>, tables: seq<seq<nat>>) {
    && PoolOk(m) && |tables| == |prompts|
    && (forall a :: 0 <= a < |prompts| ==> TableOk(m, hash, prompts[a], tables[a]) && TailOk(m, prompts[a], tables[a]))
    && (forall k :: k in m.index ==> Known(hash, prompts, k))
    && TailsApart(prompts, tables)
  }

  /** Every table entry of every sequence. */
  ghost function Uses(tables: seq<seq<nat>>): multiset<nat> {
    if tables == [] then multiset{} else Uses(tables[..|tables| - 1]) + multiset(tables[|tables| - 1])
  }

  /** Each count is the number of table entries that point at the block, and the used blocks are the counted ones. */
  ghost predicate RefsOk(m: Manager, tables: seq<seq<nat>>) {
    forall b :: 0 <= b < |m.blocks| ==> m.blocks[b].refs == Uses(tables)[b] && (b in m.used <==> m.blocks[b].refs > 0)
  }

  /** Placing a block for the newest sequence keeps the counts, whether or not it is a hit. */
  lemma PlaceKeepsRefs(m: Manager, tables: seq<seq<nat>>, tokens: seq<Token>, full: bool, digest: int, missed: bool)
    requires PoolOk(m) && RefsOk(m, tables) && tables != []
    ensures var r, c := PlaceBlock(m, tokens, full, digest, missed), |tables| - 1;
            r.Some? ==> RefsOk(r.value.m, tables[c := tables[c] + [r.value.id]])
  {
    hide RefsOk;
    var r := PlaceBlock(m, tokens, full, digest, missed);
    if r.Some? {
      OneMoreRef(m, r.value.m, tables, r.value.id);
    }
  }

  lemma OneMoreRef(m: Manager, n: Manager, tables: seq<seq<nat>>, id: nat)
    requires RefsOk(m, tables) && tables != [] && id < |m.blocks| == |n.blocks| && n.used == m.used + {id}
    requires forall b :: 0 <= b < |m.blocks| && b != id ==> n.blocks[b] == m.blocks[b]
    requires n.blocks[id].refs == if id in m.used then m.blocks[id].refs + 1 else 1
    ensures var c := |tables| - 1; RefsOk(n, tables[c := tables[c] + [id]])
  {
    UsesOneMore(tables, id);
    hide Uses;
    var c := |tables| - 1;
    var uses, uses' := Uses(tables), Uses(tables[c := tables[c] + [id]]);
    assert forall b :: uses'[b] == uses[b] + if b == id then 1 else 0;
    assert 0 <= m.blocks[id].refs == uses[id];
  }

  /** A hit takes nothing from the free list; everything else takes its first block, and fails when there is none. */
  lemma PlaceTakesFirstFree(m: Manager, tokens: seq<Token>, full: bool, digest: int, missed: bool)
    requires PoolOk(m)
    ensures var r := PlaceBlock(m, tokens, full, digest, missed);
            if r.None? then m.free == []
            else if r.value.hit then r.value.m.free == m.free
            else m.free != [] && r.value.id == m.free[0] && r.value.m.free == m.free[1..]
  {
  }

  /** One block changes: a hit counts one more reference to a block with the same tokens; a miss records the tokens,
      with the digest of a full block, which then leads to this block. */
  lemma PlaceChangesOneBlock(m: Manager, tokens: seq<Token>, full: bool, digest: int, missed: bool)
    requires PoolOk(m) && PlaceBlock(m, tokens, full, digest, missed).Some?
    ensures var Placed(n, id, hit) := PlaceBlock(m, tokens, full, digest, missed).value;
            && id < |m.blocks| == |n.blocks|
            && (forall b :: 0 <= b < |m.blocks| && b != id ==> n.blocks[b] == m.blocks[b])
            && n.blocks[id].tokens == tokens && n.used == m.used + {id}
            && (hit ==> full && !missed && n.index == m.index
                        && n.blocks[id] == m.blocks[id].(refs := m.blocks[id].refs + 1))
            && (!hit ==> n.blocks[id].refs == 1 && n.blocks[id].hashKey == if full then digest else -1)
            && (!hit ==> n.index == if full then m.index[digest := id] else m.index)
  {
    hide Remove;
  }

  lemma UsesOneMore(tables: seq<seq<nat>>, id: nat)
    requires tables != []
    ensures var c := |tables| - 1; Uses(tables[c := tables[c] + [id]]) == Uses(tables) + multiset{id}
  {
    var c := |tables| - 1;
    assert tables[c := tables[c] + [id]][..c] == tables[..c];
  }

  lemma StartKeepsRefs(m: Manager, tables: seq<seq<nat>>)
    requires RefsOk(m, tables)
    ensures RefsOk(m, tables + [[]])
  {
    assert (tables + [[]])[..|tables|] == tables;
    assert Uses(tables + [[]]) == Uses(tables);
  }

  // ---------------------------------------------------------------------------------------------
  // Placing one block of the newest prompt
  // ---------------------------------------------------------------------------------------------

  /** Prompt `s` starts with the first `n` blocks of `full`. */
  ghost predicate StartsWith(p: Prompt, full: seq<seq<Token>>, n: nat)
    requires n <= |full|
  {
    n <= |p.full| && p.full[..n] == full[..n]
  }

  /** The first `n` blocks of `full` were seen in a prompt before number `c`. */
  ghost predicate Seen(prompts: seq<Prompt>, c: nat, full: seq<seq<Token>>, n: nat)
    requires c <= |prompts| && n <= |full|
  {
    n == 0 || exists s :: 0 <= s < c && StartsWith(prompts[s], full, n)
  }

  lemma SeenShorter(prompts: seq<Prompt>, c: nat, full: seq<seq<Token>>, n: nat)
    requires c <= |prompts| && n + 1 <= |full| && Seen(prompts, c, full, n + 1)
    ensures Seen(prompts, c, full, n)
  {
    var s :| 0 <= s < c && StartsWith(prompts[s], full, n + 1);
    assert prompts[s].full[..n] == prompts[s].full[..n + 1][..n] && full[..n] == full[..n + 1][..n];
    assert StartsWith(prompts[s], full, n);
  }

  /** Everything one block at a time needs to know about the newest prompt `c`. */
  ghost predicate Extends(prompts: seq<Prompt>, prompts': seq<Prompt>, c: nat, tokens: seq<Token>) {
    && c + 1 == |prompts| == |prompts'| && prompts[c].tail == []
    && prompts' == prompts[c := Prompt(prompts[c].full + [tokens], [])]
  }

  /** The digest of the next block is in the index exactly when an earlier prompt starts with the same blocks. */
  lemma IndexedMeansSeen(
      m: Manager, hash: Hash, prompts: seq<Prompt>, prompts': seq<Prompt>, tables: seq<seq<nat>>, c: nat,
      tokens: seq<Token>)
    requires Inv(m, hash, prompts, tables) && Extends(prompts, prompts', c, tokens) && NoCollision(hash, prompts')
    ensures var full, i := prompts'[c].full, |prompts[c].full|;
            Digest(hash, full, i) in m.index <==> Seen(prompts, c, full, i + 1)
    ensures var full, i := prompts'[c].full, |prompts[c].full|;
            Digest(hash, full, i) in m.index ==> m.blocks[m.index[Digest(hash, full, i)]].tokens == tokens
  {
    hide NoCollision, TableOk, TailOk, PoolOk, Known, Digest;
    var full, i := prompts'[c].full, |prompts[c].full|;
    var k := Digest(hash, full, i);
    if k in m.index {
      assert Known(hash, prompts, k);
      var a := KnownIsSeen(hash, prompts, prompts', c, tokens);
      SeenIsIndexed(m, hash, prompts, prompts', tables, c, tokens, a);
    }
    if Seen(prompts, c, full, i + 1) {
      var a :| 0 <= a < c && StartsWith(prompts[a], full, i + 1);
      SeenIsIndexed(m, hash, prompts, prompts', tables, c, tokens, a);
    }
  }

  lemma KnownIsSeen(
      hash: Hash, prompts: seq<Prompt>, prompts': seq<Prompt>, c: nat, tokens: seq<Token>)
      returns (a: nat)
    requires Extends(prompts, prompts', c, tokens) && NoCollision(hash, prompts')
    requires Known(hash, prompts, Digest(hash, prompts'[c].full, |prompts[c].full|))
    ensures a < c && StartsWith(prompts[a], prompts'[c].full, |prompts[c].full| + 1)
  {
    hide NoCollision, Chain;
    var full, i := prompts'[c].full, |prompts[c].full|;
    var j;
    var k := Digest(hash, full, i);
    a, j :| 0 <= a < |prompts| && 0 <= j < |prompts[a].full| && Digest(hash, prompts[a].full, j) == k;
    var p := prompts'[a].full;
    assert p[..j + 1] == prompts[a].full[..j + 1];
    ChainOfPrefix(hash, p, prompts[a].full, j + 1);
    ChainIsPrefix(hash, prompts', a, c, j + 1, i + 1);
    assert a != c;
  }

  lemma SeenIsIndexed(
      m: Manager, hash: Hash, prompts: seq<Prompt>, prompts': seq<Prompt>, tables: seq<seq<nat>>, c: nat,
      tokens: seq<Token>, a: nat)
    requires Inv(m, hash, prompts, tables) && Extends(prompts, prompts', c, tokens)
    requires a < c && StartsWith(prompts[a], prompts'[c].full, |prompts[c].full| + 1)
    ensures var k := Digest(hash, prompts'[c].full, |prompts[c].full|);
            k in m.index && m.index[k] < |m.blocks| && m.blocks[m.index[k]].tokens == tokens
  {
    var full, i := prompts'[c].full, |prompts[c].full|;
    ChainOfPrefix(hash, prompts[a].full, full, i + 1);
    assert TableOk(m, hash, prompts[a], tables[a]);
    assert Digest(hash, prompts[a].full, i) == Digest(hash, full, i);
    assert prompts[a].full[i] == prompts[a].full[..i + 1][i] == full[..i + 1][i] == tokens;
  }

  /** `n` keeps every owner, tokens and chain that `m` has. */
  ghost predicate Grows(m: Manager, n: Manager) {
    && |n.blocks| == |m.blocks| && m.used <= n.used
    && (forall k :: k in m.index ==> k in n.index && n.index[k] == m.index[k])
    && forall b :: b in m.used && b < |m.blocks| ==> n.blocks[b].tokens == m.blocks[b].tokens
  }

  lemma TableGrows(m: Manager, n: Manager, hash: Hash, p: Prompt, table: seq<nat>)
    requires TableOk(m, hash, p, table) && Grows(m, n)
    ensures TableOk(n, hash, p, table)
  {
  }

  /** The newest prompt's table with one more full block. */
  lemma TableExtends(m: Manager, hash: Hash, p: Prompt, table: seq<nat>, tokens: seq<Token>, id: nat)
    requires TableOk(m, hash, p, table) && p.tail == [] && id < |m.blocks|
    requires id in m.used && m.blocks[id].tokens == tokens
    requires var k := Digest(hash, p.full + [tokens], |p.full|); k in m.index && m.index[k] == id
    ensures TableOk(m, hash, Prompt(p.full + [tokens], []), table + [id])
  {
    var full := p.full + [tokens];
    forall i | 0 <= i < |full|
      ensures var k := Digest(hash, full, i);
              k in m.index && m.index[k] == (table + [id])[i] && m.blocks[(table + [id])[i]].tokens == full[i]
    {
      if i < |p.full| {
        assert full[..i + 1] == p.full[..i + 1];
        ChainOfPrefix(hash, full, p.full, i + 1);
        assert Digest(hash, p.full, i) in m.index;
      }
    }
  }

  lemma {:induction false} RemoveContents(ids: seq<nat>, id: nat)
    requires NoRepeats(ids)
    ensures forall x :: x in Remove(ids, id) <==> x in ids && x != id
    ensures NoRepeats(Remove(ids, id))
  {
    if ids != [] {
      RemoveContents(ids[1..], id);
      assert ids == [ids[0]] + ids[1..];
      if ids[0] != id {
        var r := Remove(ids[1..], id);
        assert ids[0] !in r;
        assert forall i :: 0 < i < |[ids[0]] + r| ==> ([ids[0]] + r)[i] == r[i - 1];
      }
    }
  }

  lemma KnownGrows(hash: Hash, prompts: seq<Prompt>, prompts': seq<Prompt>, c: nat, tokens: seq<Token>, k: int)
    requires Extends(prompts, prompts', c, tokens) && Known(hash, prompts, k)
    ensures Known(hash, prompts', k)
  {
    var a, j :| 0 <= a < |prompts| && 0 <= j < |prompts[a].full| && Digest(hash, prompts[a].full, j) == k;
    assert prompts'[a].full[..j + 1] == prompts[a].full[..j + 1];
    ChainOfPrefix(hash, prompts'[a].full, prompts[a].full, j + 1);
    assert Digest(hash, prompts'[a].full, j) == k;
  }

  lemma KnowsNewest(hash: Hash, prompts: seq<Prompt>, prompts': seq<Prompt>, c: nat, tokens: seq<Token>)
    requires Extends(prompts, prompts', c, tokens)
    ensures Known(hash, prompts', Digest(hash, prompts'[c].full, |prompts[c].full|))
  {
  }

  /** The parts of the invariant, put together after the newest prompt has got one more block. */
  lemma FullBlockInv(
      m: Manager, n: Manager, hash: Hash, prompts: seq<Prompt>, prompts': seq<Prompt>, tables: seq<seq<nat>>,
      c: nat, tokens: seq<Token>, id: nat)
    requires Inv(m, hash, prompts, tables) && Extends(prompts, prompts', c, tokens)
    requires PoolOk(n) && Grows(m, n) && id < |n.blocks| && id in n.used && n.blocks[id].tokens == tokens
    requires var k := Digest(hash, prompts'[c].full, |prompts[c].full|);
             k in n.index && n.index[k] == id && forall l :: l in n.index && l !in m.index ==> l == k && id !in m.used
    ensures Inv(n, hash, prompts', tables[c := tables[c] + [id]])
  {
    hide Known, Digest;
    var tables' := tables[c := tables[c] + [id]];
    var k := Digest(hash, prompts'[c].full, |prompts[c].full|);
    forall a | 0 <= a < |prompts|
      ensures TableOk(n, hash, prompts'[a], tables'[a]) && TailOk(n, prompts'[a], tables'[a])
    {
      assert TableOk(m, hash, prompts[a], tables[a]) && TailOk(m, prompts[a], tables[a]);
      TableGrows(m, n, hash, prompts[a], tables[a]);
      if a == c {
        TableExtends(n, hash, prompts[c], tables[c], tokens, id);
      }
    }
    forall l | l in n.index ensures Known(hash, prompts', l) {
      if l in m.index {
        KnownGrows(hash, prompts, prompts', c, tokens, l);
      } else {
        KnowsNewest(hash, prompts, prompts', c, tokens);
      }
    }
    assert TailsApart(prompts', tables') by { assert TailsApart(prompts, tables); }
  }

  /** Placing a full block of the newest prompt: it is a hit exactly when an earlier prompt starts with the same
      blocks, and only a miss can run out of blocks. */
  lemma PlaceFull(
      m: Manager, hash: Hash, prompts: seq<Prompt>, prompts': seq<Prompt>, tables: seq<seq<nat>>, c: nat,
      tokens: seq<Token>, missed: bool)
    requires Inv(m, hash, prompts, tables) && Extends(prompts, prompts', c, tokens) && NoCollision(hash, prompts')
    requires missed <==> !Seen(prompts, c, prompts'[c].full, |prompts[c].full|)
    ensures var full, i := prompts'[c].full, |prompts[c].full|;
            var r := PlaceBlock(m, tokens, true, Digest(hash, full, i), missed);
            if r.None? then m.free == [] && !Seen(prompts, c, full, i + 1)
            else && Inv(r.value.m, hash, prompts', tables[c := tables[c] + [r.value.id]])
                 && (r.value.hit <==> Seen(prompts, c, full, i + 1))
  {
    hide NoCollision, TableOk, TailOk, Known, Digest, Seen;
    var full, i := prompts'[c].full, |prompts[c].full|;
    var k := Digest(hash, full, i);
    IndexedMeansSeen(m, hash, prompts, prompts', tables, c, tokens);
    if Seen(prompts, c, full, i + 1) {
      SeenShorter(prompts, c, full, i);
    }
    var r := PlaceBlock(m, tokens, true, k, missed);
    if r.Some? {
      if !r.value.hit {
        TakeKeepsPool(m, m.free[0], k, tokens);
      }
      FullBlockInv(m, r.value.m, hash, prompts, prompts', tables, c, tokens, r.value.id);
    }
  }

  lemma TakeKeepsPool(m: Manager, id: nat, key: int, tokens: seq<Token>)
    requires PoolOk(m) && m.free != [] && id == m.free[0]
    ensures id !in m.used && id < |m.blocks| && id in m.free
    ensures PoolOk(Take(m, id, key, tokens)) && Grows(m, Take(m, id, key, tokens))
    ensures key !in m.index ==>
              var n := Take(m, id, key, tokens);
              PoolOk(n.(index := n.index[key := id])) && Grows(m, n.(index := n.index[key := id]))
  {
    RemoveContents(m.free, id);
  }

  /** Placing the tail of the newest prompt always takes a block of its own. */
  lemma PlaceTail(
      m: Manager, hash: Hash, prompts: seq<Prompt>, tables: seq<seq<nat>>, c: nat, tokens: seq<Token>,
      missed: bool)
    requires Inv(m, hash, prompts, tables) && c + 1 == |prompts| && prompts[c].tail == [] && tokens != []
    ensures var r := PlaceBlock(m, tokens, false, -1, missed);
            if r.None? then m.free == []
            else !r.value.hit && Inv(r.value.m, hash, prompts[c := prompts[c].(tail := tokens)],
              tables[c := tables[c] + [r.value.id]])
  {
    hide Known, Digest;
    if m.free != [] {
      var id := m.free[0];
      var n := Take(m, id, -1, tokens);
      TakeKeepsPool(m, id, -1, tokens);
      var prompts', tables' := prompts[c := prompts[c].(tail := tokens)], tables[c := tables[c] + [id]];
      forall a | 0 <= a < |prompts|
        ensures TableOk(n, hash, prompts'[a], tables'[a]) && TailOk(n, prompts'[a], tables'[a])
      {
        assert TableOk(m, hash, prompts[a], tables[a]) && TailOk(m, prompts[a], tables[a]);
        TableGrows(m, n, hash, prompts[a], tables[a]);
      }
      forall k | k in n.index ensures Known(hash, prompts', k) {
        TailKeepsKnown(hash, prompts, c, tokens, k);
      }
      assert TailsApart(prompts', tables') by {
        assert TailsApart(prompts, tables);
        forall a | 0 <= a < c && prompts[a].tail != [] ensures tables[a] != [] && tables[a][|tables[a]| - 1] != id {
          assert TableOk(m, hash, prompts[a], tables[a]);
        }
      }
    }
  }

  lemma TailKeepsKnown(hash: Hash, prompts: seq<Prompt>, c: nat, tokens: seq<Token>, k: int)
    requires c < |prompts| && Known(hash, prompts, k)
    ensures Known(hash, prompts[c := prompts[c].(tail := tokens)], k)
  {
    var prompts' := prompts[c := prompts[c].(tail := tokens)];
    var a, j :| 0 <= a < |prompts| && 0 <= j < |prompts[a].full| && Digest(hash, prompts[a].full, j) == k;
    assert prompts'[a].full == prompts[a].full;
    assert Digest(hash, prompts'[a].full, j) == k;
  }

  // ---------------------------------------------------------------------------------------------
  // Sharing
  // ---------------------------------------------------------------------------------------------

  lemma SharedFullBlocks(m: Manager, hash: Hash, prompts: seq<Prompt>, a: nat, b: nat, i: nat, j: nat)
    requires PoolOk(m) && NoCollision(hash, prompts) && a < |prompts| && b < |prompts|
    requires i < |prompts[a].full| && j < |prompts[b].full|
    requires Digest(hash, prompts[a].full, i) in m.index && Digest(hash, prompts[b].full, j) in m.index
    ensures m.index[Digest(hash, prompts[a].full, i)] == m.index[Digest(hash, prompts[b].full, j)] <==>
              i == j && prompts[a].full[..i + 1] == prompts[b].full[..i + 1]
  {
    hide NoCollision;
    var p, q := prompts[a].full, prompts[b].full;
    if Digest(hash, p, i) == Digest(hash, q, j) { ChainIsPrefix(hash, prompts, a, b, i + 1, j + 1); }
    if i == j && p[..i + 1] == q[..i + 1] { ChainOfPrefix(hash, p, q, i + 1); }
  }

  /** Two sequences share a physical block exactly when it is the same full block after the same full blocks. */
  lemma SharedExactly(
      m: Manager, hash: Hash, prompts: seq<Prompt>, tables: seq<seq<nat>>, a: nat, b: nat, i: nat, j: nat)
    requires Inv(m, hash, prompts, tables) && NoCollision(hash, prompts)
    requires a < |prompts| && b < |prompts| && a != b && i < |tables[a]| && j < |tables[b]|
    ensures tables[a][i] == tables[b][j] <==>
              && i == j && i < |prompts[a].full| && i < |prompts[b].full|
              && prompts[a].full[..i + 1] == prompts[b].full[..i + 1]
  {
    hide NoCollision, Known, Digest;
    var p, q := prompts[a], prompts[b];
    assert TableOk(m, hash, p, tables[a]) && TableOk(m, hash, q, tables[b]);
    assert TailOk(m, p, tables[a]) && TailOk(m, q, tables[b]) && TailsApart(prompts, tables);
    assert i < |p.full| ==> Digest(hash, p.full, i) in m.index;
    assert j < |q.full| ==> Digest(hash, q.full, j) in m.index;
    if i < |p.full| && j < |q.full| {
      SharedFullBlocks(m, hash, prompts, a, b, i, j);
    }
  }

  // ---------------------------------------------------------------------------------------------
  // Tokens and blocks
  // ---------------------------------------------------------------------------------------------

  /** Block `k` of `tokens`. */
  function BlockAt(tokens: seq<Token>, size: nat, k: nat): seq<Token>
    requires (k + 1) * size <= |tokens|
  {
    MulMonotone(k, k + 1, size);
    tokens[k * size..(k + 1) * size]
  }

  /** The first `n` blocks of `tokens`. */
  function Blocks(tokens: seq<Token>, size: nat, n: nat): (r: seq<seq<Token>>)
    requires n * size <= |tokens|
    ensures |r| == n
  {
    if n == 0 then [] else
      MulMonotone(n - 1, n, size);
      Blocks(tokens, size, n - 1) + [BlockAt(tokens, size, n - 1)]
  }

  /** All full blocks of `tokens`. */
  function FullBlocks(tokens: seq<Token>, size: nat): (r: seq<seq<Token>>)
    requires size > 0
    ensures |r| == |tokens| / size
  {
    Blocks(tokens, size, Whole(|tokens|, size))
  }

  /** The tokens beyond the last full block. */
  function Tail(tokens: seq<Token>, size: nat): seq<Token>
    requires size > 0
  {
    tokens[Whole(|tokens|, size) * size..]
  }

  /** What of `tokens` is placed after `i` rounds: full blocks, and in a last round the tail. */
  function Placing(tokens: seq<Token>, size: nat, i: nat): Prompt
    requires size > 0 && i <= |tokens| / size + 1
  {
    if i <= |tokens| / size then Prompt(FullBlocks(tokens, size)[..i], [])
    else Prompt(FullBlocks(tokens, size), Tail(tokens, size))
  }

  lemma FullBlockAt(tokens: seq<Token>, size: nat, i: nat)
    requires size > 0 && i < |tokens| / size
    ensures (i + 1) * size <= |tokens| && FullBlocks(tokens, size)[i] == BlockAt(tokens, size, i)
  {
    QuotientBounds(|tokens|, size);
    MulMonotone(i + 1, |tokens| / size, size);
    BlocksPrefix(tokens, size, i + 1, |tokens| / size);
    assert FullBlocks(tokens, size)[i] == FullBlocks(tokens, size)[..i + 1][i];
  }

  lemma {:induction false} BlocksPrefix(tokens: seq<Token>, size: nat, i: nat, n: nat)
    requires i <= n && n * size <= |tokens|
    ensures i * size <= |tokens| && Blocks(tokens, size, n)[..i] == Blocks(tokens, size, i)
  {
    MulMonotone(i, n, size);
    if i < n {
      MulMonotone(n - 1, n, size);
      BlocksPrefix(tokens, size, i, n - 1);
    }
  }

  /** Two token lists have the same first `n` blocks exactly when they agree on the first `n * size` tokens. */
  lemma {:induction false} SameBlocks(a: seq<Token>, b: seq<Token>, size: nat, n: nat)
    requires size > 0 && n * size <= |a| && n * size <= |b|
    ensures Blocks(a, size, n) == Blocks(b, size, n) <==> a[..n * size] == b[..n * size]
  {
    if n > 0 {
      MulMonotone(n - 1, n, size);
      SameBlocks(a, b, size, n - 1);
      var m := (n - 1) * size;
      assert a[..n * size] == a[..m] + BlockAt(a, size, n - 1) && b[..n * size] == b[..m] + BlockAt(b, size, n - 1);
      assert a[..n * size][..m] == a[..m] && b[..n * size][..m] == b[..m];
      assert a[..n * size][m..] == BlockAt(a, size, n - 1) && b[..n * size][m..] == BlockAt(b, size, n - 1);
      assert Blocks(a, size, n)[..n - 1] == Blocks(a, size, n - 1);
      assert Blocks(b, size, n)[..n - 1] == Blocks(b, size, n - 1);
      assert Blocks(a, size, n)[n - 1] == BlockAt(a, size, n - 1);
      assert Blocks(b, size, n)[n - 1] == BlockAt(b, size, n - 1);
    }
  }

  /** The promise in tokens: after any allocations of whole sequences, two of them share the physical block at
      index `i` exactly when both have a full block `i` and agree on the first `(i + 1) * size` tokens. */
  lemma SharedTokens(
      m: Manager, hash: Hash, sequences: seq<seq<Token>>, prompts: seq<Prompt>, tables: seq<seq<nat>>, size: nat,
      a: nat, b: nat, i: nat)
    requires size > 0 && Inv(m, hash, prompts, tables) && NoCollision(hash, prompts) && |sequences| == |prompts|
    requires forall k :: 0 <= k < |prompts| ==> prompts[k] == Placing(sequences[k], size, |sequences[k]| / size + 1)
    requires a < |prompts| && b < |prompts| && a != b && i < |tables[a]| && i < |tables[b]|
    ensures tables[a][i] == tables[b][i] <==>
              && (i + 1) * size <= |sequences[a]| && (i + 1) * size <= |sequences[b]|
              && sequences[a][..(i + 1) * size] == sequences[b][..(i + 1) * size]
  {
    hide Inv, NoCollision, Blocks;
    SharedExactly(m, hash, prompts, tables, a, b, i, i);
    var s, t := sequences[a], sequences[b];
    FullBlockFits(s, size, i);
    FullBlockFits(t, size, i);
    QuotientBounds(|s|, size);
    QuotientBounds(|t|, size);
    assert prompts[a] == Placing(s, size, |s| / size + 1) && prompts[b] == Placing(t, size, |t| / size + 1);
    if i < |s| / size && i < |t| / size {
      BlocksPrefix(s, size, i + 1, |s| / size);
      BlocksPrefix(t, size, i + 1, |t| / size);
      SameBlocks(s, t, size, i + 1);
    }
  }

  lemma FullBlockFits(tokens: seq<Token>, size: nat, i: nat)
    requires size > 0
    ensures (i + 1) * size <= |tokens| <==> i < |tokens| / size
  {
    QuotientBounds(|tokens|, size);
    var q := |tokens| / size;
    if i < q { MulMonotone(i + 1, q, size); } else { MulMonotone(q + 1, i + 1, size); }
  }
}
