/** The classes of the paged KV cache, proved against the functions of `PagedKv` and the dense attention. */
module PagedKvCache {
  import opened Wrappers
  import opened PagedKv
  import opened PagedKvReading
  import opened Attention

  /** All blocks but `b` are as before. */
  ghost predicate Elsewhere(before: seq<Block>, after: seq<Block>, b: nat) {
    |after| == |before| && b < |after| && forall k :: 0 <= k < |after| && k != b ==> after[k] == before[k]
  }

  /** Block `b` has one reference and nothing written. */
  ghost predicate IsBlank(blocks: seq<Block>, b: nat, size: nat) {
    && b < |blocks| && blocks[b].refs == 1 && blocks[b].used == 0 && |blocks[b].slots| == size
    && forall k :: 0 <= k < size ==> blocks[b].slots[k].None?
  }

  /** `dst` has one reference, the written slots of `src` and nothing else. */
  ghost predicate IsCopy(src: Block, dst: Block, size: nat) {
    && dst.refs == 1 && dst.used == src.used <= size && |dst.slots| == |src.slots| == size
    && forall k :: 0 <= k < size ==> dst.slots[k] == if k < src.used then src.slots[k] else None
  }

  class BlockPool {
    const blockSize: nat
    var blocks: seq<Block>
    var free: seq<nat>

    ghost function View(): Pool
      reads this
    {
      Pool(blockSize, blocks, free)
    }

    constructor (numBlocks: nat, blockSize: nat)
      ensures View() == NewPool(numBlocks, blockSize) && |blocks| == |free| == numBlocks
      ensures forall i :: 0 <= i < numBlocks ==> free[i] == i && blocks[i].refs == 0 && blocks[i].used == 0
      ensures forall i :: 0 <= i < numBlocks ==> blocks[i].slots == EmptySlots(blockSize)
    {
      this.blockSize := blockSize;
      blocks := seq(numBlocks, _ => Block(0, 0, EmptySlots(blockSize)));
      free := seq(numBlocks, i => i);
    }

    /** Out of blocks when nothing is returned; then nothing has changed. */
    method AllocateBlock() returns (r: Option<nat>)
      requires InPool(View(), free)
      modifies this
      ensures match Allocate(old(View()))
              case None => r.None? && View() == old(View())
              case Some((p, b)) => r == Some(b) && View() == p
      ensures r.None? <==> old(free) == []
      ensures r.Some? ==> old(free) == [r.value] + free && IsBlank(blocks, r.value, blockSize)
      ensures r.Some? ==> Elsewhere(old(blocks), blocks, r.value)
    {
      if free == [] {
        return None;
      }
      var b := free[0];
      free := free[1..];
      blocks := blocks[b := Block(1, 0, EmptySlots(blockSize))];
      return Some(b);
    }

    method IncRef(b: nat)
      requires b < |blocks|
      modifies this
      ensures View() == PagedKv.IncRef(old(View()), b)
      ensures free == old(free) && Elsewhere(old(blocks), blocks, b)
      ensures blocks[b] == old(blocks[b]).(refs := old(blocks[b].refs) + 1)
    {
      blocks := blocks[b := blocks[b].(refs := blocks[b].refs + 1)];
    }

    method DecRef(b: nat) returns (ok: bool)
      requires b < |blocks|
      modifies this
      ensures match PagedKv.DecRef(old(View()), b)
              case None => !ok && View() == old(View())
              case Some(p) => ok && View() == p
      ensures ok <==> old(blocks[b].refs) > 0
      ensures ok ==> Elsewhere(old(blocks), blocks, b)
      ensures ok ==> blocks[b] == old(blocks[b]).(refs := old(blocks[b].refs) - 1)
      ensures ok ==> free == old(free) + if blocks[b].refs == 0 then [b] else []
    {
      if blocks[b].refs <= 0 {
        return false;
      }
      blocks := blocks[b := blocks[b].(refs := blocks[b].refs - 1)];
      if blocks[b].refs == 0 {
        free := free + [b];
      }
      return true;
    }

    /** Copies the written slots one by one into a fresh block. */
    method CloneBlock(src: nat) returns (r: Option<nat>)
      requires Shaped(View()) && src < |blocks| && src !in free
      modifies this
      ensures match Clone(old(View()), src)
              case None => r.None? && View() == old(View())
              case Some((p, b)) => r == Some(b) && View() == p
      ensures r.None? <==> old(free) == []
      ensures r.Some? ==> old(free) == [r.value] + free && Elsewhere(old(blocks), blocks, r.value)
      ensures r.Some? ==> IsCopy(old(blocks[src]), blocks[r.value], blockSize)
    {
      var dst := AllocateBlock();
      if dst.None? {
        return None;
      }
      var d := dst.value;
      assert d in old(free);
      ghost var start := blocks;
      blocks := blocks[d := blocks[d].(used := blocks[src].used)];
      for i := 0 to blocks[src].used
        invariant |blocks| == |start| && free == old(free)[1..]
        invariant forall b :: 0 <= b < |blocks| && b != d ==> blocks[b] == start[b]
        invariant blocks[d].refs == 1 && blocks[d].used == start[src].used && |blocks[d].slots| == blockSize
        invariant forall k :: 0 <= k < i ==> blocks[d].slots[k] == start[src].slots[k]
        invariant forall k :: i <= k < blockSize ==> blocks[d].slots[k] == None
      {
        blocks := blocks[d := blocks[d].(slots := blocks[d].slots[i := blocks[src].slots[i]])];
      }
      assert blocks[d].slots == CopiedSlots(start[src], blockSize);
      assert blocks == old(blocks)[d := Block(1, old(blocks)[src].used, CopiedSlots(old(blocks)[src], blockSize))];
      return dst;
    }

    method Write(b: nat, slot: nat, kv: Kv)
      requires b < |blocks| && slot < |blocks[b].slots|
      modifies this
      ensures View() == PagedKv.Write(old(View()), b, slot, kv)
      ensures free == old(free) && Elsewhere(old(blocks), blocks, b)
      ensures blocks[b].refs == old(blocks[b].refs) && blocks[b].slots == old(blocks[b].slots)[slot := Some(kv)]
      ensures old(blocks[b].used) <= blocks[b].used && slot < blocks[b].used
      ensures blocks[b].used == old(blocks[b].used) || blocks[b].used == slot + 1
    {
      blocks := blocks[b := blocks[b].(slots := blocks[b].slots[slot := Some(kv)])];
      if slot + 1 > blocks[b].used {
        blocks := blocks[b := blocks[b].(used := slot + 1)];
      }
    }
  }

  class SequenceState {
    var blockTable: seq<nat>
    var tokenCount: nat

    ghost function View(): Sequence
      reads this
    {
      Sequence(blockTable, tokenCount)
    }

    constructor (table: seq<nat>, tokens: nat)
      ensures View() == Sequence(table, tokens)
    {
      blockTable := table;
      tokenCount := tokens;
    }
  }

  /** What `decode_attention` returns: the output, the weights and where each token was read. */
  datatype Decoded = Decoded(out: Vector, weights: Vector, locations: seq<(nat, nat)>)

  datatype DecodeError = Uninitialized | AttentionError(error: Attention.Error)

  function KeysOf(es: seq<Entry>): (r: seq<Vector>)
    ensures |r| == |es| && forall i :: 0 <= i < |es| ==> r[i] == es[i].key
  {
    seq(|es|, i requires 0 <= i < |es| => es[i].key)
  }

  function ValuesOf(es: seq<Entry>): (r: seq<Vector>)
    ensures |r| == |es| && forall i :: 0 <= i < |es| ==> r[i] == es[i].value
  {
    seq(|es|, i requires 0 <= i < |es| => es[i].value)
  }

  function LocationsOf(es: seq<Entry>): (r: seq<(nat, nat)>)
    ensures |r| == |es| && forall i :: 0 <= i < |es| ==> r[i] == (es[i].block, es[i].slot)
  {
    seq(|es|, i requires 0 <= i < |es| => (es[i].block, es[i].slot))
  }

  class PagedKVCache {
    const pool: BlockPool

    constructor (pool: BlockPool)
      ensures this.pool == pool
    {
      this.pool := pool;
    }

    method CreateSequence() returns (s: SequenceState)
      ensures fresh(s) && s.View() == Sequence([], 0)
    {
      s := new SequenceState([], 0);
    }

    method Fork(parent: SequenceState) returns (child: SequenceState)
      requires InPool(pool.View(), parent.blockTable)
      modifies pool
      ensures fresh(child) && child.View() == parent.View() == old(parent.View())
      ensures pool.View() == ShareAll(old(pool.View()), parent.blockTable)
    {
      ghost var p := pool.View();
      for i := 0 to |parent.blockTable|
        invariant pool.View() == ShareAll(p, parent.blockTable[..i])
        invariant parent.View() == old(parent.View())
      {
        assert parent.blockTable[..i + 1][..i] == parent.blockTable[..i];
        pool.IncRef(parent.blockTable[i]);
      }
      assert parent.blockTable[..|parent.blockTable|] == parent.blockTable;
      child := new SequenceState(parent.blockTable, parent.tokenCount);
    }

    /** Raises when out of blocks; then neither the pool nor the sequence has changed. */
    method Append(s: SequenceState, kv: Kv, enableCow: bool) returns (ok: bool)
      requires Shaped(pool.View()) && Placed(pool.View(), s.View())
      requires s.tokenCount % pool.blockSize != 0 ==> s.blockTable[|s.blockTable| - 1] !in pool.free
      modifies pool, s
      ensures match PagedKv.Append(old(pool.View()), old(s.View()), kv, enableCow)
              case None => !ok && pool.View() == old(pool.View()) && s.View() == old(s.View())
              case Some((p, t)) => ok && pool.View() == p && s.View() == t
    {
      var b: nat;
      if s.tokenCount % pool.blockSize == 0 {
        var r := pool.AllocateBlock();
        if r.None? {
          return false;
        }
        b := r.value;
        s.blockTable := s.blockTable + [b];
      } else {
        b := s.blockTable[|s.blockTable| - 1];
        if enableCow && pool.blocks[b].refs > 1 {
          var copied := pool.CloneBlock(b);
          if copied.None? {
            return false;
          }
          var dropped := pool.DecRef(b);
          s.blockTable := s.blockTable[|s.blockTable| - 1 := copied.value];
          b := copied.value;
        }
      }
      var slot := s.tokenCount % pool.blockSize;
      pool.Write(b, slot, kv);
      s.tokenCount := s.tokenCount + 1;
      return true;
    }

    /** Yields the history in logical order; raises on a slot that was never written. */
    method IterKv(s: SequenceState) returns (r: Option<seq<Entry>>)
      requires Readable(pool.View(), s.blockTable)
      ensures r == Iterate(pool.View(), s.blockTable, s.tokenCount)
    {
      ghost var p := pool.View();
      var entries: seq<Entry> := [];
      var remaining := s.tokenCount;
      assert s.blockTable[0..] == s.blockTable;
      for i := 0 to |s.blockTable|
        invariant Iterate(p, s.blockTable, s.tokenCount) == After(entries, Iterate(p, s.blockTable[i..], remaining))
      {
        ghost var rest := s.blockTable[i..];
        assert rest[0] == s.blockTable[i] && rest[1..] == s.blockTable[i + 1..];
        var b := s.blockTable[i];
        var block := pool.blocks[b];
        var take := if block.used < remaining then block.used else remaining;
        ghost var before := entries;
        for slot := 0 to take
          invariant After(before, ReadSlots(p, b, slot)) == Some(entries)
        {
          match block.slots[slot] {
            case None =>
              ReadStops(p, b, slot, take);
              return None;
            case Some(kv) =>
              AfterTwice(before, ReadSlots(p, b, slot).value, Some([Entry(b, slot, kv.key, kv.value)]));
              entries := entries + [Entry(b, slot, kv.key, kv.value)];
          }
        }
        AfterTwice(before, ReadSlots(p, b, take).value, Iterate(p, rest[1..], remaining - take));
        remaining := remaining - take;
        if remaining == 0 {
          return Some(entries);
        }
      }
      return Some(entries);
    }

    /** `materialize`: the keys and the values in order. */
    method Materialize(s: SequenceState) returns (r: Option<(seq<Vector>, seq<Vector>)>)
      requires Readable(pool.View(), s.blockTable)
      ensures match Iterate(pool.View(), s.blockTable, s.tokenCount)
              case None => r.None?
              case Some(es) => r == Some((KeysOf(es), ValuesOf(es)))
    {
      var entries := IterKv(s);
      if entries.None? {
        return None;
      }
      var keys: seq<Vector>, values: seq<Vector> := [], [];
      for i := 0 to |entries.value|
        invariant keys == KeysOf(entries.value[..i]) && values == ValuesOf(entries.value[..i])
      {
        keys := keys + [entries.value[i].key];
        values := values + [entries.value[i].value];
      }
      assert entries.value[..|entries.value|] == entries.value;
      return Some((keys, values));
    }

    /** `decode_attention`: dense attention over whatever the block table reads back. */
    method DecodeAttention(math: Math, query: Vector, s: SequenceState) returns (r: Result<Decoded, DecodeError>)
      requires Readable(pool.View(), s.blockTable)
      ensures match Iterate(pool.View(), s.blockTable, s.tokenCount)
              case None => r == Err(Uninitialized)
              case Some(es) =>
                match Attend(math, query, KeysOf(es), ValuesOf(es))
                case Err(e) => r == Err(AttentionError(e))
                case Ok(a) => r == Ok(Decoded(a.out, a.weights, LocationsOf(es)))
    {
      var entries := IterKv(s);
      if entries.None? {
        return Err(Uninitialized);
      }
      var es := entries.value;
      if es == [] {
        return Err(AttentionError(EmptyKeys));
      }
      var root := math.sqrt(|query| as real);
      if root == 0.0 {
        return Err(AttentionError(DivisionByZero));
      }
      var scale := 1.0 / root;
      var scores, locations, values := ScoreEntries(query, es, scale);
      var weights := Softmax(math, scores);
      if weights.Err? {
        return Err(AttentionError(weights.error));
      }
      var out := WeightedSum(weights.value, values);
      if out.Err? {
        return Err(AttentionError(out.error));
      }
      return Ok(Decoded(out.value, weights.value, locations));
    }
  }

  method ScoreEntries(query: Vector, es: seq<Entry>, scale: real)
    returns (scores: Vector, locations: seq<(nat, nat)>, values: seq<Vector>)
    ensures scores == Scores(query, KeysOf(es), scale)
    ensures locations == LocationsOf(es) && values == ValuesOf(es)
  {
    scores, locations, values := [], [], [];
    for i := 0 to |es|
      invariant |scores| == |locations| == |values| == i
      invariant forall k :: 0 <= k < i ==> scores[k] == Score(query, es[k].key, scale)
      invariant forall k :: 0 <= k < i ==> locations[k] == (es[k].block, es[k].slot) && values[k] == es[k].value
    {
      scores := scores + [Score(query, es[i].key, scale)];
      locations := locations + [(es[i].block, es[i].slot)];
      values := values + [es[i].value];
    }
  }

  ghost function After(es: seq<Entry>, rest: Option<seq<Entry>>): (r: Option<seq<Entry>>)
    ensures es == [] ==> r == rest
    ensures rest == Some([]) ==> r == Some(es)
  {
    if rest.None? then None else 
      assert es + [] == es && (es == [] ==> es + rest.value == rest.value);
      Some(es + rest.value)
  }

  lemma AfterTwice(es: seq<Entry>, more: seq<Entry>, rest: Option<seq<Entry>>)
    ensures After(es, After(more, rest)) == After(es + more, rest)
  {
    if rest.Some? {
      assert es + (more + rest.value) == (es + more) + rest.value;
    }
  }

  lemma {:induction false} ReadStops(p: Pool, b: nat, slot: nat, take: nat)
    requires b < |p.blocks| && slot < take <= |p.blocks[b].slots| && p.blocks[b].slots[slot].None?
    ensures ReadSlots(p, b, take).None?
  {
    if slot < take - 1 {
      ReadStops(p, b, slot, take - 1);
    }
  }

  function HistoryKeys(h: seq<Kv>): (r: seq<Vector>)
    ensures |r| == |h| && forall i :: 0 <= i < |h| ==> r[i] == h[i].key
  {
    seq(|h|, i requires 0 <= i < |h| => h[i].key)
  }

  function HistoryValues(h: seq<Kv>): (r: seq<Vector>)
    ensures |r| == |h| && forall i :: 0 <= i < |h| ==> r[i] == h[i].value
  {
    seq(|h|, i requires 0 <= i < |h| => h[i].value)
  }

  /** In every state of every run that overwrites no other branch's token, paged decoding equals dense attention over
      the branch's own history: `DecodeAttention` attends over what `Iterate` reads, and that is the history. */
  lemma PagedEqualsDense(
      numBlocks: nat, blockSize: nat, caches: seq<Cache>, hists: seq<seq<seq<Kv>>>, ops: seq<Op>, k: nat, i: nat,
      math: Math, query: Vector)
    requires blockSize > 0 && IsRun(numBlocks, blockSize, caches, hists, ops) && NeverClobbers(caches, hists, ops)
    requires k < |caches| && i < |caches[k].seqs|
    ensures |hists[k]| == |caches[k].seqs| && Readable(caches[k].pool, caches[k].seqs[i].table)
    ensures var r := Iterate(caches[k].pool, caches[k].seqs[i].table, caches[k].seqs[i].tokens);
            r.Some? && Attend(math, query, KeysOf(r.value), ValuesOf(r.value))
                       == Attend(math, query, HistoryKeys(hists[k][i]), HistoryValues(hists[k][i]))
  {
    hide Attend, Iterate, Step, Record, Applicable, Clobbering;
    MaterializeIsHistory(numBlocks, blockSize, caches, hists, ops);
    assert AllRead(caches[k], hists[k]);
    assert Reads(caches[k].pool, caches[k].seqs[i], hists[k][i]);
    var es := Iterate(caches[k].pool, caches[k].seqs[i].table, caches[k].seqs[i].tokens).value;
    assert KeysOf(es) == HistoryKeys(hists[k][i]);
    assert ValuesOf(es) == HistoryValues(hists[k][i]);
  }
}
