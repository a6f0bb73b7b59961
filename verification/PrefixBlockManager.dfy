/** The classes of the prefix cache, proved against `PrefixCache`. */
module PrefixBlockManagers {
  import opened Wrappers
  import opened Arithmetic
  import opened PrefixCache

  class PrefixSequence {
    const tokenIds: seq<Token>
    var blockTable: seq<nat>
    var numCachedTokens: nat

    constructor (tokenIds: seq<Token>)
      ensures this.tokenIds == tokenIds && blockTable == [] && numCachedTokens == 0
    {
      this.tokenIds := tokenIds;
      blockTable, numCachedTokens := [], 0;
    }
  }

  lemma NoCollisionShorter(hash: Hash, prompts: seq<Prompt>, p: Prompt, q: Prompt)
    requires NoCollision(hash, prompts + [q]) && |p.full| <= |q.full| && p.full == q.full[..|p.full|]
    ensures NoCollision(hash, prompts + [p])
  {
    var all, part := prompts + [q], prompts + [p];
    forall a, i | 0 <= a < |part| && 0 <= i < |part[a].full|
      ensures i < |all[a].full| && part[a].full[i] == all[a].full[i]
      ensures Digest(hash, part[a].full, i) == Digest(hash, all[a].full, i)
      ensures Chain(hash, part[a].full, i) == Chain(hash, all[a].full, i)
    {
      assert part[a].full[..i + 1] == all[a].full[..i + 1] && part[a].full[..i] == all[a].full[..i];
      ChainOfPrefix(hash, part[a].full, all[a].full, i + 1);
      ChainOfPrefix(hash, part[a].full, all[a].full, i);
    }
  }

  lemma Rounds(n: nat, size: nat)
    requires size > 0
    ensures (n + size - 1) / size == n / size + if n % size == 0 then 0 else 1
    ensures n == n / size * size + n % size
  {
    var q, r := n / size, n % size;
    assert n == q * size + r;
    if r == 0 {
      RemainderIs(n + size - 1, size, q, size - 1);
    } else {
      assert (q + 1) * size == q * size + size;
      RemainderIs(n + size - 1, size, q + 1, r - 1);
    }
  }

  /** How many blocks the tokens fill, the last one perhaps in part. */
  function BlocksOf(tokens: seq<Token>, size: nat): (n: nat)
    requires size > 0
    ensures |tokens| <= n * size < |tokens| + size
  {
    QuotientBounds(|tokens| + size - 1, size);
    (|tokens| + size - 1) / size
  }

  /** `n` is the length of the longest list of full blocks of `tokens` that an earlier prompt starts with. */
  ghost predicate LongestSeen(prompts: seq<Prompt>, tokens: seq<Token>, size: nat, n: nat)
    requires size > 0
  {
    var full := FullBlocks(tokens, size);
    n <= |full| && Seen(prompts, |prompts|, full, n) && (n < |full| ==> !Seen(prompts, |prompts|, full, n + 1))
  }

  lemma RoundBounds(len: nat, size: nat, i: nat)
    requires size > 0 && i < (len + size - 1) / size
    ensures i * size < len && i <= len / size
    ensures i < len / size <==> i * size + size <= len
    ensures len / size == Whole(len, size)
  {
    Rounds(len, size);
    QuotientBounds(len, size);
    var q := len / size;
    if i < q { MulMonotone(i + 1, q, size); MulMonotone(i, i + 1, size); }
  }

  lemma StartPrompt(m: Manager, hash: Hash, prompts: seq<Prompt>, tables: seq<seq<nat>>, tokens: seq<Token>, size: nat)
    requires size > 0 && Inv(m, hash, prompts, tables)
    ensures 0 <= |tokens| / size + 1 && Inv(m, hash, prompts + [Placing(tokens, size, 0)], tables + [[]])
  {
    QuotientBounds(|tokens|, size);
    var prompts', tables' := prompts + [Placing(tokens, size, 0)], tables + [[]];
    assert Placing(tokens, size, 0) == Prompt([], []);
    forall a | 0 <= a < |prompts'|
      ensures TableOk(m, hash, prompts'[a], tables'[a]) && TailOk(m, prompts'[a], tables'[a])
    {
      if a < |prompts| { assert TableOk(m, hash, prompts[a], tables[a]) && TailOk(m, prompts[a], tables[a]); }
    }
    forall k | k in m.index ensures Known(hash, prompts', k) {
      assert Known(hash, prompts, k);
      var a, j :| 0 <= a < |prompts| && 0 <= j < |prompts[a].full| && Digest(hash, prompts[a].full, j) == k;
      assert prompts'[a] == prompts[a] && Digest(hash, prompts'[a].full, j) == k;
    }
    assert TailsApart(prompts', tables') by { assert TailsApart(prompts, tables); }
  }

  /** Whether blocks were seen depends only on those blocks and on the earlier prompts. */
  lemma SeenSame(
      earlier: seq<Prompt>, before: seq<Prompt>, c: nat, full: seq<seq<Token>>, part: seq<seq<Token>>, n: nat)
    requires c == |earlier| <= |before| && before[..c] == earlier && n <= |part| <= |full| && part == full[..|part|]
    ensures Seen(before, c, part, n) <==> Seen(earlier, c, full, n)
  {
    assert part[..n] == full[..n];
    assert forall s :: 0 <= s < c ==> before[s] == earlier[s];
    if Seen(before, c, part, n) && n > 0 {
      var s :| 0 <= s < c && StartsWith(before[s], part, n);
      assert StartsWith(earlier[s], full, n);
    }
    if Seen(earlier, c, full, n) && n > 0 {
      var s :| 0 <= s < c && StartsWith(earlier[s], full, n);
      assert StartsWith(before[s], part, n);
    }
  }

  /** One round of `allocate` on a full block. */
  lemma FullRound(
      m: Manager, hash: Hash, earlier: seq<Prompt>, placed: seq<seq<nat>>, tokens: seq<Token>, size: nat, i: nat,
      missed: bool)
    requires size > 0 && i < |tokens| / size
    requires Inv(m, hash, earlier + [Placing(tokens, size, i)], placed)
    requires NoCollision(hash, earlier + [Placing(tokens, size, |tokens| / size + 1)])
    requires var full := FullBlocks(tokens, size); missed <==> !Seen(earlier, |earlier|, full, i)
    ensures PoolOk(m) && |placed| == |earlier| + 1
    ensures var full, c := FullBlocks(tokens, size), |earlier|;
            var r := PlaceBlock(m, full[i], true, Chain(hash, full, i + 1), missed);
            r.Some? ==> && Inv(r.value.m, hash, earlier + [Placing(tokens, size, i + 1)],
              placed[c := placed[c] + [r.value.id]])
                        && (r.value.hit <==> Seen(earlier, c, full, i + 1))
    ensures var full := FullBlocks(tokens, size);
            PlaceBlock(m, full[i], true, Chain(hash, full, i + 1), missed).None? ==>
              m.free == [] && !Seen(earlier, |earlier|, full, i + 1)
    ensures Seen(earlier, |earlier|, FullBlocks(tokens, size), i + 1) ==>
        Seen(earlier, |earlier|, FullBlocks(tokens, size), i)
  {
    hide NoCollision, FullBlocks, Seen, TableOk, TailOk, Known, PlaceBlock;
    var full, c := FullBlocks(tokens, size), |earlier|;
    var before, after := earlier + [Placing(tokens, size, i)], earlier + [Placing(tokens, size, i + 1)];
    assert full[..i + 1] == full[..i] + [full[i]];
    assert after == before[c := Prompt(before[c].full + [full[i]], [])];
    NoCollisionShorter(hash, earlier, Placing(tokens, size, i + 1), Placing(tokens, size, |tokens| / size + 1));
    SeenSame(earlier, before, c, full, full[..i + 1], i);
    SeenSame(earlier, before, c, full, full[..i + 1], i + 1);
    PlaceFull(m, hash, before, after, placed, c, full[i], missed);
    ChainOfPrefix(hash, full[..i + 1], full, i + 1);
    if Seen(earlier, c, full, i + 1) { SeenShorter(earlier, c, full, i); }
  }

  /** The last round of `allocate`, on a tail. */
  lemma TailRound(
      m: Manager, hash: Hash, earlier: seq<Prompt>, placed: seq<seq<nat>>, tokens: seq<Token>, size: nat,
      missed: bool)
    requires size > 0 && Tail(tokens, size) != []
    requires Inv(m, hash, earlier + [Placing(tokens, size, |tokens| / size)], placed)
    ensures PoolOk(m) && |placed| == |earlier| + 1
    ensures var c := |earlier|;
            var r := PlaceBlock(m, Tail(tokens, size), false, -1, missed);
            r.Some? ==> !r.value.hit && Inv(r.value.m, hash, earlier + [Placing(tokens, size, |tokens| / size + 1)],
              placed[c := placed[c] + [r.value.id]])
  {
    hide FullBlocks, TableOk, TailOk, Known, PlaceBlock;
    var c, f := |earlier|, |tokens| / size;
    var before, after := earlier + [Placing(tokens, size, f)], earlier + [Placing(tokens, size, f + 1)];
    assert FullBlocks(tokens, size)[..f] == FullBlocks(tokens, size);
    assert after == before[c := before[c].(tail := Tail(tokens, size))];
    PlaceTail(m, hash, before, placed, c, Tail(tokens, size), missed);
  }

  /** What the loop slices out is the next full block, or the tail. */
  lemma Sliced(tokens: seq<Token>, size: nat, i: nat)
    requires size > 0 && i < (|tokens| + size - 1) / size
    ensures i * size <= |tokens|
    ensures i < |tokens| / size ==>
        i * size + size <= |tokens| && tokens[i * size..i * size + size] == FullBlocks(tokens, size)[i]
    ensures i == |tokens| / size ==> tokens[i * size..] == Tail(tokens, size) != [] && |tokens| < i * size + size
  {
    RoundBounds(|tokens|, size, i);
    if i < |tokens| / size {
      FullBlockAt(tokens, size, i);
      MulMonotone(i, i + 1, size);
    }
  }

  lemma LastRound(tokens: seq<Token>, size: nat, n: nat)
    requires size > 0 && n == (|tokens| + size - 1) / size
    ensures |tokens| / size <= n <= |tokens| / size + 1
    ensures Placing(tokens, size, n) == Placing(tokens, size, |tokens| / size + 1)
  {
    Rounds(|tokens|, size);
    var f := |tokens| / size;
    assert FullBlocks(tokens, size)[..f] == FullBlocks(tokens, size);
    if n == f { assert Tail(tokens, size) == []; }
  }

  class PrefixBlockManager {
    const blockSize: nat
    const hash: Hash
    var blocks: seq<Block>
    var freeIds: seq<nat>
    var usedIds: set<nat>
    var hashToBlockId: map<int, nat>
    /** The prompts placed so far and their tables. */
    ghost var prompts: seq<Prompt>
    ghost var tables: seq<seq<nat>>

    ghost function View(): Manager
      reads this
    {
      Manager(blocks, freeIds, usedIds, hashToBlockId)
    }

    ghost predicate Valid()
      reads this
    {
      blockSize > 0 && Inv(View(), hash, prompts, tables) && RefsOk(View(), tables)
    }

    constructor (numBlocks: nat, blockSize: nat, hash: Hash)
      requires blockSize > 0
      ensures Valid() && prompts == [] && tables == []
      ensures this.blockSize == blockSize && this.hash == hash && |blocks| == |freeIds| == numBlocks
    {
      this.blockSize, this.hash := blockSize, hash;
      blocks := seq(numBlocks, _ => Block(0, -1, []));
      freeIds := seq(numBlocks, i => i);
      usedIds, hashToBlockId, prompts, tables := {}, map[], [], [];
    }

    /** `_allocate`, which refuses a block that is not free. */
    method AllocateId(id: nat) returns (ok: bool)
      requires id < |blocks|
      modifies this
      ensures ok <==> id in old(freeIds)
      ensures if ok then View() == Take(old(View()), id, -1, []) else View() == old(View())
      ensures prompts == old(prompts) && tables == old(tables)
    {
      if id !in freeIds {
        return false;
      }
      freeIds := Remove(freeIds, id);
      usedIds := usedIds + {id};
      blocks := blocks[id := Block(1, -1, [])];
      return true;
    }

    /** The body of the loop in `allocate`. */
    method Place(tokens: seq<Token>, full: bool, digest: int, missed: bool) returns (r: Option<(nat, bool)>)
      requires PoolOk(View())
      modifies this
      ensures match PlaceBlock(old(View()), tokens, full, digest, missed)
              case None => r.None? && View() == old(View())
              case Some(p) => r == Some((p.id, p.hit)) && View() == p.m
      ensures prompts == old(prompts) && tables == old(tables)
    {
      if full && !missed && digest in hashToBlockId && blocks[hashToBlockId[digest]].tokens == tokens {
        var id := hashToBlockId[digest];
        if id in usedIds {
          blocks := blocks[id := blocks[id].(refs := blocks[id].refs + 1)];
          return Some((id, true));
        } else {
          // a chain is never left without an owner
          assert false;
          return None;
        }
      }
      if freeIds == [] {
        return None;
      }
      var id := freeIds[0];
      var ok := AllocateId(id);
      if full {
        blocks := blocks[id := blocks[id].(hashKey := digest, tokens := tokens)];
        hashToBlockId := hashToBlockId[digest := id];
      } else {
        blocks := blocks[id := blocks[id].(hashKey := -1, tokens := tokens)];
      }
      return Some((id, false));
    }

    /** Round `i` of `allocate`: slice the next block, place it and append it to the table. */
    method Round(
        s: PrefixSequence, i: nat, prefixHash: int, cacheMiss: bool, ghost earlier: seq<Prompt>,
        ghost others: seq<seq<nat>>)
      returns (r: Option<(bool, int)>)
      requires Valid() && i < (|s.tokenIds| + blockSize - 1) / blockSize
      requires i <= |s.tokenIds| / blockSize && prompts == earlier + [Placing(s.tokenIds, blockSize, i)]
      requires tables == others + [s.blockTable] && |others| == |earlier|
      requires NoCollision(hash, earlier + [Placing(s.tokenIds, blockSize, |s.tokenIds| / blockSize + 1)])
      requires var full := FullBlocks(s.tokenIds, blockSize);
               && prefixHash == Chain(hash, full, i) && (cacheMiss <==> !Seen(earlier, |earlier|, full, i))
      modifies this, s`blockTable
      ensures Valid() && |tables| == |earlier| + 1 && tables == others + [s.blockTable]
      ensures r.None? ==> prompts == old(prompts) && View() == old(View()) && s.blockTable == old(s.blockTable)
      ensures r.None? ==>
        && freeIds == []
        && (i < |s.tokenIds| / blockSize ==> !Seen(earlier, |earlier|, FullBlocks(s.tokenIds, blockSize), i + 1))
      ensures r.Some? && r.value.0 ==>
        freeIds == old(freeIds) && |s.blockTable| == |old(s.blockTable)| + 1 && old(s.blockTable) <= s.blockTable
      ensures r.Some? && !r.value.0 ==>
        && old(freeIds) != [] && old(freeIds) == [old(freeIds)[0]] + freeIds
        && s.blockTable == old(s.blockTable) + [old(freeIds)[0]]
      ensures var full := FullBlocks(s.tokenIds, blockSize);
              r.Some? ==>
                && prompts == earlier + [Placing(s.tokenIds, blockSize, i + 1)]
                && (i == |full| ==> !r.value.0)
                && (i < |full| ==> r.value.1 == Chain(hash, full, i + 1)
                                   && (r.value.0 <==> Seen(earlier, |earlier|, full, i + 1))
                                   && (Seen(earlier, |earlier|, full, i + 1) ==> !cacheMiss))
    {
      hide NoCollision, Inv, RefsOk, Blocks, Seen, Placing, FullBlocks, PlaceBlock, Tail, PoolOk;
      RoundBounds(|s.tokenIds|, blockSize, i);
      Sliced(s.tokenIds, blockSize, i);
      var start := i * blockSize;
      var end := if start + blockSize < |s.tokenIds| then start + blockSize else |s.tokenIds|;
      var blockTokens := s.tokenIds[start..end];
      var fullBlock := |blockTokens| == blockSize;
      var blockHash := if fullBlock then hash(blockTokens, prefixHash) else -1;
      if fullBlock {
        assert blockTokens == FullBlocks(s.tokenIds, blockSize)[i];
        FullRound(View(), hash, earlier, tables, s.tokenIds, blockSize, i, cacheMiss);
      } else {
        assert blockTokens == Tail(s.tokenIds, blockSize);
        TailRound(View(), hash, earlier, tables, s.tokenIds, blockSize, cacheMiss);
      }
      PlaceKeepsRefs(View(), tables, blockTokens, fullBlock, blockHash, cacheMiss);
      PlaceTakesFirstFree(View(), blockTokens, fullBlock, blockHash, cacheMiss);
      var placed := Place(blockTokens, fullBlock, blockHash, cacheMiss);
      if placed.None? {
        return None;
      }
      s.blockTable := s.blockTable + [placed.value.0];
      tables := tables[|earlier| := tables[|earlier|] + [placed.value.0]];
      prompts := earlier + [Placing(s.tokenIds, blockSize, i + 1)];
      return Some((placed.value.1, blockHash));
    }

    /** `allocate`: the first `hits` blocks are shared, and all others come from the front of the free list, as many as
        are needed; the call fails exactly when there are fewer.  After any number of rounds the newest prompt is what
        has been placed of the sequence, so a call that runs out of blocks leaves the manager as if a shorter sequence
        had been allocated. */
    method Allocate(s: PrefixSequence) returns (ok: bool, ghost rounds: nat, ghost hits: nat)
      requires Valid() && s.blockTable == [] && s.numCachedTokens == 0
      requires NoCollision(hash, prompts + [Placing(s.tokenIds, blockSize, |s.tokenIds| / blockSize + 1)])
      modifies this, s
      ensures Valid()
      ensures rounds <= |s.tokenIds| / blockSize + 1 && (ok ==> rounds == |s.tokenIds| / blockSize + 1)
      ensures prompts == old(prompts) + [Placing(s.tokenIds, blockSize, rounds)]
      ensures tables == old(tables) + [s.blockTable]
      ensures LongestSeen(old(prompts), s.tokenIds, blockSize, hits) && s.numCachedTokens == hits * blockSize
      ensures hits <= BlocksOf(s.tokenIds, blockSize) && hits <= |s.blockTable|
      ensures ok <==> BlocksOf(s.tokenIds, blockSize) - hits <= |old(freeIds)|
      ensures ok ==> |s.blockTable| == BlocksOf(s.tokenIds, blockSize)
      ensures old(freeIds) == s.blockTable[hits..] + freeIds
      ensures !ok ==> freeIds == []
    {
      hide NoCollision, Inv, RefsOk, Blocks, Seen, Placing, FullBlocks;
      ghost var earlier, others := prompts, tables;
      ghost var full := FullBlocks(s.tokenIds, blockSize);
      hits := 0;
      var prefixHash, cacheMiss := -1, false;
      var n := BlocksOf(s.tokenIds, blockSize);
      LastRound(s.tokenIds, blockSize, n);
      StartPrompt(View(), hash, prompts, tables, s.tokenIds, blockSize);
      StartKeepsRefs(View(), tables);
      prompts, tables := prompts + [Placing(s.tokenIds, blockSize, 0)], tables + [[]];
      assert |others| == |earlier| by { SameLengths(View(), hash, earlier, others); }
      SeenNothing(earlier, full);
      for i := 0 to n
        invariant Valid() && tables == others + [s.blockTable]
        invariant prompts == earlier + [Placing(s.tokenIds, blockSize, i)]
        invariant i <= |full| ==> prefixHash == Chain(hash, full, i)
        invariant hits <= |full| && s.numCachedTokens == hits * blockSize && Seen(earlier, |earlier|, full, hits)
        invariant cacheMiss && hits < |full| ==> !Seen(earlier, |earlier|, full, hits + 1)
        invariant if cacheMiss then i <= |full| ==> !Seen(earlier, |earlier|, full, i) else i <= |full| && hits == i
        invariant hits <= i == |s.blockTable| && old(freeIds) == s.blockTable[hits..] + freeIds
      {
        var r := Round(s, i, prefixHash, cacheMiss, earlier, others);
        if r.None? {
          assert LongestSeen(earlier, s.tokenIds, blockSize, hits);
          return false, i, hits;
        }
        if r.value.0 {
          MulMonotone(hits, hits + 1, blockSize);
          s.numCachedTokens := s.numCachedTokens + blockSize;
          hits := hits + 1;
        } else {
          cacheMiss := true;
        }
        prefixHash := r.value.1;
      }
      assert LongestSeen(earlier, s.tokenIds, blockSize, hits);
      return true, |s.tokenIds| / blockSize + 1, hits;
    }
  }

  lemma SameLengths(m: Manager, hash: Hash, prompts: seq<Prompt>, tables: seq<seq<nat>>)
    requires exists p: Prompt, t: seq<nat> :: Inv(m, hash, prompts + [p], tables + [t])
    ensures |tables| == |prompts|
  {
    var p: Prompt, t: seq<nat> :| Inv(m, hash, prompts + [p], tables + [t]);
    assert |prompts + [p]| == |tables + [t]|;
  }

  lemma SeenNothing(earlier: seq<Prompt>, full: seq<seq<Token>>)
    ensures Seen(earlier, |earlier|, full, 0)
  {
  }

  // ---------------------------------------------------------------------------------------------
  // A series of sequences
  // ---------------------------------------------------------------------------------------------

  /** All of `tokens`, cut into blocks. */
  function WholePrompt(tokens: seq<Token>, size: nat): Prompt
    requires size > 0
  {
    QuotientBounds(|tokens|, size);
    Placing(tokens, size, |tokens| / size + 1)
  }

  function PromptsOf(inputs: seq<seq<Token>>, size: nat): (r: seq<Prompt>)
    requires size > 0
    ensures |r| == |inputs| && forall k :: 0 <= k < |inputs| ==> r[k] == WholePrompt(inputs[k], size)
  {
    seq(|inputs|, k requires 0 <= k < |inputs| => WholePrompt(inputs[k], size))
  }

  /** Both sequences have `n` full blocks and the same tokens in them. */
  ghost predicate SharesFirst(s: seq<Token>, t: seq<Token>, size: nat, n: nat) {
    n * size <= |s| && n * size <= |t| && s[..n * size] == t[..n * size]
  }

  /** `n` is the longest full-block prefix that input `a` shares with an earlier one. */
  ghost predicate LongestShared(inputs: seq<seq<Token>>, a: nat, size: nat, n: nat)
    requires a < |inputs|
  {
    && (n == 0 || exists b :: 0 <= b < a && SharesFirst(inputs[b], inputs[a], size, n))
    && forall b :: 0 <= b < a ==> !SharesFirst(inputs[b], inputs[a], size, n + 1)
  }

  ghost predicate CachedAsShared(inputs: seq<seq<Token>>, a: nat, size: nat, cached: nat)
    requires a < |inputs|
  {
    exists n: nat :: LongestShared(inputs, a, size, n) && cached == n * size
  }

  lemma SharesFewer(s: seq<Token>, t: seq<Token>, size: nat, m: nat, n: nat)
    requires m <= n && SharesFirst(s, t, size, n)
    ensures SharesFirst(s, t, size, m)
  {
    MulMonotone(m, n, size);
    assert s[..m * size] == s[..n * size][..m * size];
    assert t[..m * size] == t[..n * size][..m * size];
  }

  lemma LongestIsUnique(inputs: seq<seq<Token>>, a: nat, size: nat, m: nat, n: nat)
    requires a < |inputs| && LongestShared(inputs, a, size, m) && LongestShared(inputs, a, size, n)
    ensures m == n
  {
    hide SharesFirst;
    if m != n {
      var less, more := if m < n then m else n, if m < n then n else m;
      var b :| 0 <= b < a && SharesFirst(inputs[b], inputs[a], size, more);
      SharesFewer(inputs[b], inputs[a], size, less + 1, more);
      assert false;
    }
  }

  /** The longest full-block prefix of input `a` that an earlier input has, searched downwards from `n` blocks. */
  ghost function LongestUpTo(inputs: seq<seq<Token>>, a: nat, size: nat, n: nat): (r: nat)
    requires a < |inputs| && forall b :: 0 <= b < a ==> !SharesFirst(inputs[b], inputs[a], size, n + 1)
    ensures LongestShared(inputs, a, size, r)
  {
    if n == 0 || exists b :: 0 <= b < a && SharesFirst(inputs[b], inputs[a], size, n) then n
    else LongestUpTo(inputs, a, size, n - 1)
  }

  ghost function Longest(inputs: seq<seq<Token>>, a: nat, size: nat): (r: nat)
    requires size > 0 && a < |inputs|
    ensures LongestShared(inputs, a, size, r)
  {
    assert forall b :: 0 <= b < a ==> !SharesFirst(inputs[b], inputs[a], size, |inputs[a]| + 1) by {
      MulMonotone(1, size, |inputs[a]| + 1);
    }
    LongestUpTo(inputs, a, size, |inputs[a]|)
  }

  /** The physical blocks that the first `k` inputs take: for each, its blocks less those that it shares with an
      earlier one. */
  ghost function Needed(inputs: seq<seq<Token>>, size: nat, k: nat): int
    requires size > 0 && k <= |inputs|
  {
    if k == 0 then 0
    else Needed(inputs, size, k - 1) + BlocksOf(inputs[k - 1], size) - Longest(inputs, k - 1, size)
  }

  lemma SharedFits(s: seq<Token>, t: seq<Token>, size: nat, n: nat)
    requires size > 0 && SharesFirst(s, t, size, n)
    ensures n <= BlocksOf(t, size)
  {
    assert n * size <= |t|;
    QuotientAtLeast(|t| + size - 1, size, n);
  }

  lemma QuotientAtLeast(x: nat, size: nat, n: nat)
    requires size > 0 && n * size <= x
    ensures n <= x / size
  {
    QuotientBounds(x, size);
    var q := x / size;
    if q < n {
      MulMonotone(q + 1, n, size);
    }
  }

  /** An input shares no more blocks than it has. */
  lemma LongestFits(inputs: seq<seq<Token>>, a: nat, size: nat)
    requires size > 0 && a < |inputs|
    ensures Longest(inputs, a, size) <= BlocksOf(inputs[a], size)
  {
    hide Longest, SharesFirst;
    var n := Longest(inputs, a, size);
    if n > 0 {
      var b :| 0 <= b < a && SharesFirst(inputs[b], inputs[a], size, n);
      SharedFits(inputs[b], inputs[a], size, n);
    }
  }

  lemma {:induction false} NeededGrows(inputs: seq<seq<Token>>, size: nat, j: nat, k: nat)
    requires size > 0 && j <= k <= |inputs|
    ensures 0 <= Needed(inputs, size, j) <= Needed(inputs, size, k)
  {
    hide Longest, LongestShared, BlocksOf;
    if k > 0 {
      LongestFits(inputs, k - 1, size);
      NeededGrows(inputs, size, if j < k then j else k - 1, k - 1);
    }
  }

  lemma StartsWithIsShared(s: seq<Token>, t: seq<Token>, size: nat, n: nat)
    requires size > 0 && 0 < n <= |t| / size
    ensures StartsWith(WholePrompt(s, size), FullBlocks(t, size), n) <==> SharesFirst(s, t, size, n)
  {
    hide Blocks;
    FullBlockFits(s, size, n - 1);
    FullBlockFits(t, size, n - 1);
    QuotientBounds(|s|, size);
    QuotientBounds(|t|, size);
    assert FullBlocks(s, size)[..|s| / size] == FullBlocks(s, size);
    if n <= |s| / size {
      BlocksPrefix(s, size, n, |s| / size);
      BlocksPrefix(t, size, n, |t| / size);
      SameBlocks(s, t, size, n);
    }
  }

  lemma LongestSeenIsShared(inputs: seq<seq<Token>>, a: nat, size: nat, n: nat)
    requires size > 0 && a < |inputs| && LongestSeen(PromptsOf(inputs[..a], size), inputs[a], size, n)
    ensures LongestShared(inputs, a, size, n)
  {
    hide FullBlocks, SharesFirst, StartsWith, WholePrompt, PromptsOf;
    var earlier, t := inputs[..a], inputs[a];
    var prompts, full := PromptsOf(earlier, size), FullBlocks(t, size);
    if n > 0 {
      var b :| 0 <= b < a && StartsWith(prompts[b], full, n);
      StartsWithIsShared(earlier[b], t, size, n);
      assert SharesFirst(inputs[b], t, size, n);
    }
    forall b | 0 <= b < a ensures !SharesFirst(inputs[b], t, size, n + 1) {
      if n < |full| {
        StartsWithIsShared(earlier[b], t, size, n + 1);
        assert prompts[b] == WholePrompt(earlier[b], size);
      } else {
        FullBlockFits(t, size, n);
        TooLongToShare(inputs[b], t, size, n + 1);
      }
    }
  }

  lemma TooLongToShare(s: seq<Token>, t: seq<Token>, size: nat, n: nat)
    requires n * size > |t|
    ensures !SharesFirst(s, t, size, n)
  {
  }

  lemma NoCollisionPrefix(hash: Hash, prompts: seq<Prompt>, k: nat)
    requires NoCollision(hash, prompts) && k <= |prompts|
    ensures NoCollision(hash, prompts[..k])
  {
  }

  lemma OneMorePrompt(inputs: seq<seq<Token>>, size: nat, k: nat)
    requires size > 0 && k < |inputs|
    ensures PromptsOf(inputs, size)[..k + 1] == PromptsOf(inputs[..k], size) + [WholePrompt(inputs[k], size)]
    ensures PromptsOf(inputs[..k + 1], size) == PromptsOf(inputs[..k], size) + [WholePrompt(inputs[k], size)]
  {
    hide PromptsOf, WholePrompt;
  }

  lemma SharedInSeries(
      m: Manager, hash: Hash, inputs: seq<seq<Token>>, tables: seq<seq<nat>>, size: nat, a: nat, b: nat, i: nat)
    requires size > 0 && Inv(m, hash, PromptsOf(inputs, size), tables) && NoCollision(hash, PromptsOf(inputs, size))
    requires a < |inputs| && b < |inputs| && a != b
    ensures |tables| == |inputs|
    ensures i < |tables[a]| && i < |tables[b]| ==>
        (tables[a][i] == tables[b][i] <==> SharesFirst(inputs[a], inputs[b], size, i + 1))
  {
    assert |tables| == |inputs|;
    hide Inv, NoCollision, Placing, PromptsOf;
    if i < |tables[a]| && i < |tables[b]| {
      SharedTokens(m, hash, inputs, PromptsOf(inputs, size), tables, size, a, b, i);
    }
  }

  /** A new manager and any series of sequences, until one does not fit, which is the first that takes the blocks
      needed beyond the number there are.  Two of them share the physical block at index `i` exactly when both have a
      full block `i` and agree on all tokens up to its end, and the cached tokens of each are the longest full-block
      prefix that it shares with an earlier one. */
  method AllocateSeries(numBlocks: nat, blockSize: nat, hash: Hash, inputs: seq<seq<Token>>)
    returns (ok: bool, tables: seq<seq<nat>>, cached: seq<nat>)
    requires blockSize > 0 && NoCollision(hash, PromptsOf(inputs, blockSize))
    ensures |tables| == |cached| <= |inputs| && (ok <==> |tables| == |inputs|)
    ensures ok <==> Needed(inputs, blockSize, |inputs|) <= numBlocks
    ensures Needed(inputs, blockSize, |tables|) <= numBlocks
    ensures !ok ==> numBlocks < Needed(inputs, blockSize, |tables| + 1)
    ensures forall a :: 0 <= a < |tables| ==> |tables[a]| == BlocksOf(inputs[a], blockSize)
    ensures ok ==> forall a, b, i ::
      0 <= a < |inputs| && 0 <= b < |inputs| && a != b && 0 <= i < |tables[a]| && i < |tables[b]| ==>
        (tables[a][i] == tables[b][i] <==> SharesFirst(inputs[a], inputs[b], blockSize, i + 1))
    ensures forall a :: 0 <= a < |cached| ==> CachedAsShared(inputs, a, blockSize, cached[a])
  {
    hide NoCollision, Inv, RefsOk, Placing, PromptsOf, SharesFirst, LongestShared, LongestSeen, WholePrompt, BlocksOf;
    hide Longest;
    var manager := new PrefixBlockManager(numBlocks, blockSize, hash);
    tables, cached := [], [];
    NoPrompts(blockSize);
    for k := 0 to |inputs|
      invariant fresh(manager) && manager.Valid() && manager.blockSize == blockSize && manager.hash == hash
      invariant manager.prompts == PromptsOf(inputs[..k], blockSize) && manager.tables == tables
      invariant |tables| == |cached| == k && |manager.freeIds| == numBlocks - Needed(inputs, blockSize, k)
      invariant forall a :: 0 <= a < k ==> |tables[a]| == BlocksOf(inputs[a], blockSize)
      invariant forall a :: 0 <= a < k ==> CachedAsShared(inputs, a, blockSize, cached[a])
    {
      var s := new PrefixSequence(inputs[k]);
      OneMorePrompt(inputs, blockSize, k);
      NoCollisionPrefix(hash, PromptsOf(inputs, blockSize), k + 1);
      WholePromptIs(inputs[k], blockSize);
      ghost var rounds, hits;
      ok, rounds, hits := manager.Allocate(s);
      LongestSeenIsShared(inputs, k, blockSize, hits);
      LongestIsUnique(inputs, k, blockSize, hits, Longest(inputs, k, blockSize));
      if !ok {
        NeededGrows(inputs, blockSize, k + 1, |inputs|);
        return;
      }
      assert CachedAsShared(inputs, k, blockSize, s.numCachedTokens);
      tables, cached := tables + [s.blockTable], cached + [s.numCachedTokens];
    }
    ok := true;
    assert inputs[..|inputs|] == inputs;
    ghost var m := manager.View();
    assert |tables| == |inputs| by { TableCount(m, hash, PromptsOf(inputs, blockSize), tables); }
    forall a, b, i | 0 <= a < |inputs| && 0 <= b < |inputs| && a != b && 0 <= i < |tables[a]| && i < |tables[b]|
      ensures tables[a][i] == tables[b][i] <==> SharesFirst(inputs[a], inputs[b], blockSize, i + 1)
    {
      SharedInSeries(m, hash, inputs, tables, blockSize, a, b, i);
    }
  }

  lemma TableCount(m: Manager, hash: Hash, prompts: seq<Prompt>, tables: seq<seq<nat>>)
    requires Inv(m, hash, prompts, tables)
    ensures |tables| == |prompts|
  {
  }

  lemma NoPrompts(size: nat)
    requires size > 0
    ensures PromptsOf([], size) == []
  {
  }

  lemma WholePromptIs(tokens: seq<Token>, size: nat)
    requires size > 0
    ensures 0 <= |tokens| / size && WholePrompt(tokens, size) == Placing(tokens, size, |tokens| / size + 1)
  {
    QuotientBounds(|tokens|, size);
  }
}
