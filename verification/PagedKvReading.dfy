/**
 * What the branches of a paged cache read back, whether or not their appends are isolated.  A sequence reads
 * only as many slots as it has tokens, so a plain append into a shared tail does harm exactly when another
 * sequence already counts the slot that it writes.
 */
module PagedKvReading {
  import opened Sequences
  import opened Wrappers
  import opened Arithmetic
  import opened PagedKv

  // ---------------------------------------------------------------------------------------------
  // How tokens are laid out over blocks
  // ---------------------------------------------------------------------------------------------

  /** How many of `tokens` tokens block `k` of a table takes. */
  function Count(size: nat, tokens: nat, k: nat): nat {
    if k == 0 then if tokens < size then tokens else size
    else if tokens <= size then 0 else Count(size, tokens - size, k - 1)
  }

  /** The block that takes the next token. */
  function Last(size: nat, tokens: nat): nat
    requires size > 0
  {
    if tokens < size then 0 else 1 + Last(size, tokens - size)
  }

  /** A table of `n` blocks is right for `tokens` tokens. */
  predicate Fits(size: nat, n: nat, tokens: nat) {
    if n == 0 then tokens == 0
    else if n == 1 then 1 <= tokens <= size
    else tokens > size && Fits(size, n - 1, tokens - size)
  }

  /** The part of a history that block `k` holds. */
  function Part(h: seq<Kv>, size: nat, k: nat): (r: seq<Kv>)
    ensures |r| == Count(size, |h|, k)
    decreases k
  {
    if k == 0 then if |h| < size then h else h[..size]
    else if |h| <= size then [] else Part(h[size..], size, k - 1)
  }

  lemma {:induction false} PartGrows(h: seq<Kv>, size: nat, kv: Kv, k: nat)
    requires size > 0
    ensures Part(h + [kv], size, k) == if k == Last(size, |h|) then Part(h, size, k) + [kv] else Part(h, size, k)
    decreases k
  {
    var h' := h + [kv];
    if |h| >= size {
      assert h'[..size] == h[..size] && h'[size..] == h[size..] + [kv];
      if k > 0 {
        PartGrows(h[size..], size, kv, k - 1);
        PartOfNothing(h, size, k);
      }
    }
  }

  lemma {:induction false} PartOfNothing(h: seq<Kv>, size: nat, k: nat)
    requires |h| >= size && k > 0
    ensures Part(h[size..], size, k - 1) == Part(h, size, k)
  {
    if |h| == size {
      assert h[size..] == [];
    }
  }

  lemma {:induction false} CountAtLast(size: nat, tokens: nat)
    requires size > 0
    ensures Count(size, tokens, Last(size, tokens)) == tokens % size
    decreases tokens
  {
    if tokens < size {
      RemainderIs(tokens, size, 0, tokens);
    } else {
      CountAtLast(size, tokens - size);
      SubtractOnce(tokens, size);
      if tokens == size {
        RemainderIs(0, size, 0, 0);
      }
    }
  }

  lemma {:induction false} LastBlock(size: nat, n: nat, tokens: nat)
    requires size > 0 && Fits(size, n, tokens)
    ensures Last(size, tokens) == if tokens % size == 0 then n else n - 1
    ensures Fits(size, if tokens % size == 0 then n + 1 else n, tokens + 1)
    decreases n
  {
    if n == 0 {
      RemainderIs(0, size, 0, 0);
    } else if n == 1 {
      RemainderWithin(tokens, size);
    } else {
      LastBlock(size, n - 1, tokens - size);
      SubtractOnce(tokens, size);
    }
  }

  /** The sequence's table fits its tokens, and its blocks have at least the slots that it counts. */
  ghost predicate LaidOut(p: Pool, s: Sequence) {
    && InPool(p, s.table) && NoRepeats(s.table) && Fits(p.blockSize, |s.table|, s.tokens)
    && forall k: nat :: k < |s.table| ==> Count(p.blockSize, s.tokens, k) <= p.blocks[s.table[k]].used
  }

  /** What every operation keeps, whatever the appends write. */
  ghost predicate Layout(c: Cache) {
    && Shaped(c.pool) && FreeOk(c.pool) && CountsOk(c.pool, c.seqs)
    && forall i :: 0 <= i < |c.seqs| ==> LaidOut(c.pool, c.seqs[i])
  }

  // ---------------------------------------------------------------------------------------------
  // Reading
  // ---------------------------------------------------------------------------------------------

  ghost predicate Same(slot: Option<Kv>, kv: Kv) {
    slot.Some? && slot.value.key == kv.key && slot.value.value == kv.value
  }

  /** The first slots of `b` are what `part` says. */
  ghost predicate Shows(b: Block, part: seq<Kv>) {
    |part| <= |b.slots| && forall j :: 0 <= j < |part| ==> Same(b.slots[j], part[j])
  }

  /** Materializing `s` gives the keys and values of `h`. */
  ghost predicate Reads(p: Pool, s: Sequence, h: seq<Kv>) {
    && |h| == s.tokens && Readable(p, s.table)
    && var r := Iterate(p, s.table, s.tokens);
       r.Some? && Yields(r.value, h)
  }

  /** Every branch reads back its own history. */
  ghost predicate AllRead(c: Cache, hist: seq<seq<Kv>>) {
    |hist| == |c.seqs| && forall i :: 0 <= i < |c.seqs| ==> Reads(c.pool, c.seqs[i], hist[i])
  }

  ghost predicate Contains(p: Pool, table: seq<nat>, h: seq<Kv>)
    requires InPool(p, table)
  {
    forall k: nat :: k < |table| ==> Shows(p.blocks[table[k]], Part(h, p.blockSize, k))
  }

  lemma {:induction false} ReadSlotsExact(p: Pool, b: nat, part: seq<Kv>)
    requires b < |p.blocks| && |part| <= |p.blocks[b].slots|
    ensures var r := ReadSlots(p, b, |part|);
            && (r.Some? ==> |r.value| == |part|)
            && (r.Some? && Yields(r.value, part) <==> Shows(p.blocks[b], part))
    decreases |part|
  {
    if part != [] {
      var m := |part| - 1;
      ReadSlotsExact(p, b, part[..m]);
      assert forall j :: 0 <= j < m ==> part[..m][j] == part[j];
    }
  }

  lemma YieldsSplit(a: seq<Entry>, b: seq<Entry>, h: seq<Kv>)
    requires |a| <= |h|
    ensures Yields(a + b, h) <==> Yields(a, h[..|a|]) && Yields(b, h[|a|..])
  {
    var n := |a|;
    if Yields(a + b, h) {
      assert forall k :: 0 <= k < n ==> (a + b)[k] == a[k] && h[..n][k] == h[k];
      assert forall k :: 0 <= k < |b| ==> (a + b)[n + k] == b[k] && h[n..][k] == h[n + k];
    }
    if Yields(a, h[..n]) && Yields(b, h[n..]) {
      YieldsJoin(a, b, h, n);
    }
  }

  /** Under the layout, iterating yields the history exactly when each block shows its part of it. */
  lemma {:induction false} IterateExact(p: Pool, table: seq<nat>, h: seq<Kv>)
    requires Shaped(p) && InPool(p, table) && Readable(p, table) && Fits(p.blockSize, |table|, |h|)
    requires forall k: nat :: k < |table| ==> Count(p.blockSize, |h|, k) <= p.blocks[table[k]].used
    ensures var r := Iterate(p, table, |h|); r.Some? && Yields(r.value, h) <==> Contains(p, table, h)
    decreases |table|
  {
    hide ReadSlots, Yields, Shows, Contains, Iterate;
    if |table| == 0 {
      IterateNone(p, table, h);
    } else if |table| == 1 {
      IterateOne(p, table, h);
    } else {
      var rest, tail := table[1..], h[p.blockSize..];
      forall k: nat | k < |rest| ensures Count(p.blockSize, |tail|, k) <= p.blocks[rest[k]].used {
        assert Count(p.blockSize, |h|, k + 1) <= p.blocks[table[k + 1]].used;
      }
      IterateExact(p, rest, tail);
      ContainsSplit(p, table, h);
      IterateMore(p, table, h);
    }
  }

  lemma IterateNone(p: Pool, table: seq<nat>, h: seq<Kv>)
    requires table == [] && h == []
    ensures var r := Iterate(p, table, |h|); r.Some? && Yields(r.value, h) && Contains(p, table, h)
  {
  }

  lemma IterateOne(p: Pool, table: seq<nat>, h: seq<Kv>)
    requires Shaped(p) && InPool(p, table) && Readable(p, table) && |table| == 1 && 1 <= |h| <= p.blockSize
    requires Count(p.blockSize, |h|, 0) <= p.blocks[table[0]].used
    ensures var r := Iterate(p, table, |h|); r.Some? && Yields(r.value, h) <==> Contains(p, table, h)
  {
    hide ReadSlots, Yields, Shows;
    assert Part(h, p.blockSize, 0) == h;
    ReadSlotsExact(p, table[0], h);
  }

  lemma IterateStep(p: Pool, table: seq<nat>, n: nat)
    requires Shaped(p) && InPool(p, table) && Readable(p, table) && |table| > 1 && n > p.blockSize
    requires p.blocks[table[0]].used == p.blockSize
    ensures var first, rest := ReadSlots(p, table[0], p.blockSize), Iterate(p, table[1..], n - p.blockSize);
            Iterate(p, table, n) == if first.None? || rest.None? then None else Some(first.value + rest.value)
  {
    hide ReadSlots;
  }

  lemma IterateMore(p: Pool, table: seq<nat>, h: seq<Kv>)
    requires Shaped(p) && InPool(p, table) && Readable(p, table) && |table| > 1 && |h| > p.blockSize
    requires Count(p.blockSize, |h|, 0) <= p.blocks[table[0]].used
    ensures var r, rest := Iterate(p, table, |h|), Iterate(p, table[1..], |h| - p.blockSize);
            r.Some? && Yields(r.value, h) <==>
              Shows(p.blocks[table[0]], Part(h, p.blockSize, 0)) && rest.Some? && Yields(rest.value, h[p.blockSize..])
  {
    hide ReadSlots, Yields, Shows, Iterate;
    var size := p.blockSize;
    var first, rest := ReadSlots(p, table[0], size), Iterate(p, table[1..], |h| - size);
    ReadSlotsExact(p, table[0], h[..size]);
    IterateStep(p, table, |h|);
    if first.Some? && rest.Some? {
      YieldsSplit(first.value, rest.value, h);
    }
  }

  lemma ContainsSplit(p: Pool, table: seq<nat>, h: seq<Kv>)
    requires InPool(p, table) && |table| > 1 && |h| > p.blockSize
    ensures Contains(p, table, h) <==>
      Shows(p.blocks[table[0]], Part(h, p.blockSize, 0)) && Contains(p, table[1..], h[p.blockSize..])
  {
    hide Shows;
    var rest, tail := table[1..], h[p.blockSize..];
    if Contains(p, table, h) {
      forall k: nat | k < |rest| ensures Shows(p.blocks[rest[k]], Part(tail, p.blockSize, k)) {
        assert Shows(p.blocks[table[k + 1]], Part(h, p.blockSize, k + 1));
      }
    }
    if Shows(p.blocks[table[0]], Part(h, p.blockSize, 0)) && Contains(p, rest, tail) {
      forall k: nat | k < |table| ensures Shows(p.blocks[table[k]], Part(h, p.blockSize, k)) {
        if k > 0 {
          assert Shows(p.blocks[rest[k - 1]], Part(tail, p.blockSize, k - 1));
        }
      }
    }
  }

  lemma ReadsExactly(p: Pool, s: Sequence, h: seq<Kv>)
    requires Shaped(p) && LaidOut(p, s) && |h| == s.tokens
    ensures Reads(p, s, h) <==> Contains(p, s.table, h)
  {
    hide Iterate, Yields, Contains;
    IterateExact(p, s.table, h);
  }

  // ---------------------------------------------------------------------------------------------
  // Where the tokens are read
  // ---------------------------------------------------------------------------------------------

  /** Entry `e` is what slot `slot` of block `b` holds. */
  ghost predicate ReadAt(p: Pool, b: nat, slot: nat, e: Entry) {
    && e.block == b < |p.blocks| && e.slot == slot < |p.blocks[b].slots|
    && Same(p.blocks[b].slots[slot], Kv(e.key, e.value, None))
  }

  /** Token `k` of a sequence comes from slot `k % blockSize` of the block that its table names at `k / blockSize`. */
  ghost predicate Located(p: Pool, table: seq<nat>, k: nat, e: Entry)
    requires p.blockSize > 0
  {
    Whole(k, p.blockSize) < |table| && ReadAt(p, table[Whole(k, p.blockSize)], k % p.blockSize, e)
  }

  ghost predicate AllLocated(p: Pool, table: seq<nat>, es: seq<Entry>)
    requires p.blockSize > 0
  {
    forall k: nat :: k < |es| ==> Located(p, table, k, es[k])
  }

  lemma {:induction false} SlotsLocated(p: Pool, b: nat, take: nat)
    requires b < |p.blocks| && take <= |p.blocks[b].slots|
    ensures var r := ReadSlots(p, b, take);
            r.Some? ==> |r.value| == take && forall k: nat :: k < take ==> ReadAt(p, b, k, r.value[k])
  {
    if take > 0 {
      SlotsLocated(p, b, take - 1);
    }
  }

  lemma FirstBlock(size: nat, k: nat)
    requires k < size
    ensures Whole(k, size) == 0 && k % size == k
  {
    RemainderIs(k, size, 0, k);
  }

  lemma LaterBlock(size: nat, k: nat)
    requires 0 < size <= k
    ensures Whole(k, size) == Whole(k - size, size) + 1 && k % size == (k - size) % size
  {
    var q := (k - size) / size;
    assert (q + 1) * size == q * size + size;
    RemainderIs(k, size, q + 1, (k - size) % size);
  }

  lemma LocatedFirst(p: Pool, table: seq<nat>, k: nat, e: Entry)
    requires k < p.blockSize && table != [] && ReadAt(p, table[0], k, e)
    ensures Located(p, table, k, e)
  {
    hide ReadAt, Whole;
    FirstBlock(p.blockSize, k);
  }

  lemma LocatedLater(p: Pool, table: seq<nat>, k: nat, e: Entry)
    requires 0 < p.blockSize <= k && table != [] && Located(p, table[1..], k - p.blockSize, e)
    ensures Located(p, table, k, e)
  {
    hide ReadAt, Whole;
    LaterBlock(p.blockSize, k);
  }

  /** What iteration reads comes from the blocks of the table in order, slot by slot. */
  lemma {:induction false} IterateLocates(p: Pool, table: seq<nat>, n: nat)
    requires Shaped(p) && InPool(p, table) && Readable(p, table) && Fits(p.blockSize, |table|, n)
    requires forall k: nat :: k < |table| ==> Count(p.blockSize, n, k) <= p.blocks[table[k]].used
    ensures var r := Iterate(p, table, n); r.Some? ==> |r.value| == n && AllLocated(p, table, r.value)
    decreases |table|
  {
    hide ReadSlots, ReadAt, Located;
    var r := Iterate(p, table, n);
    if |table| > 0 && r.Some? {
      var size := p.blockSize;
      var take := if n < size then n else size;
      assert Count(size, n, 0) == take;
      SlotsLocated(p, table[0], take);
      forall k: nat | k < take ensures Located(p, table, k, r.value[k]) {
        LocatedFirst(p, table, k, r.value[k]);
      }
      if |table| > 1 {
        var rest := table[1..];
        forall k: nat | k < |rest| ensures Count(size, n - size, k) <= p.blocks[rest[k]].used {
          assert Count(size, n, k + 1) <= p.blocks[table[k + 1]].used;
        }
        IterateLocates(p, rest, n - size);
        forall k: nat | size <= k < n ensures Located(p, table, k, r.value[k]) {
          LocatedLater(p, table, k, r.value[k]);
        }
      }
    }
  }

  // ---------------------------------------------------------------------------------------------
  // What an append does to the layout
  // ---------------------------------------------------------------------------------------------

  function Tail(s: Sequence): nat
    requires s.table != []
  {
    s.table[|s.table| - 1]
  }

  lemma LayoutPlaces(c: Cache, i: nat)
    requires Layout(c) && i < |c.seqs|
    ensures Placed(c.pool, c.seqs[i])
    ensures c.seqs[i].tokens % c.pool.blockSize != 0 ==> c.seqs[i].table != [] && Tail(c.seqs[i]) !in c.pool.free
    ensures var s, size := c.seqs[i], c.pool.blockSize;
            s.tokens % size != 0 ==> s.tokens % size <= c.pool.blocks[Tail(s)].used
  {
    var s, p := c.seqs[i], c.pool;
    assert LaidOut(p, s);
    LastBlock(p.blockSize, |s.table|, s.tokens);
    CountAtLast(p.blockSize, s.tokens);
    if s.tokens % p.blockSize != 0 {
      assert Tail(s) in s.table;
      if p.blocks[Tail(s)].refs == 0 { Uncounted(c, Tail(s), i); }
    }
  }

  /** The append writes into its tail block as it stands. */
  predicate InPlace(p: Pool, s: Sequence, cow: bool)
    requires Shaped(p) && Placed(p, s)
  {
    s.tokens % p.blockSize != 0 && !(cow && p.blocks[Tail(s)].refs > 1)
  }

  /** A block with `kv` in one more or one other slot. */
  function Put(b: Block, slot: nat, kv: Kv): Block
    requires slot < |b.slots|
  {
    b.(slots := b.slots[slot := Some(kv)], used := if slot + 1 > b.used then slot + 1 else b.used)
  }

  /** From `p` and `s` to `q` and `s'` the token `kv` has been put into block `b`, the last block of `s'`,
      behind the tokens that `s` had there. */
  ghost predicate Took(p: Pool, s: Sequence, q: Pool, s': Sequence, b: nat, kv: Kv)
    requires p.blockSize > 0
  {
    var l, slot := Last(p.blockSize, s.tokens), s.tokens % p.blockSize;
    && Shaped(q) && OnlyChanges(p, q, b) && b < |p.blocks|
    && s'.tokens == s.tokens + 1 && |s'.table| == l + 1 && s'.table[l] == b
    && l <= |s.table| && (forall k :: 0 <= k < l ==> s'.table[k] == s.table[k] && s.table[k] != b)
    && slot < q.blocks[b].used && q.blocks[b].slots[slot] == Some(kv)
    && (slot > 0 ==> l < |s.table| && s.table[l] < |p.blocks| && slot <= p.blocks[s.table[l]].used
                     && |p.blocks[s.table[l]].slots| == p.blockSize
                     && forall j :: 0 <= j < slot ==> q.blocks[b].slots[j] == p.blocks[s.table[l]].slots[j])
  }

  lemma BoundaryTakes(c: Cache, i: nat, kv: Kv, cow: bool)
    requires Layout(c) && i < |c.seqs| && c.seqs[i].tokens % c.pool.blockSize == 0 && c.pool.free != []
    ensures Placed(c.pool, c.seqs[i])
    ensures var r := Append(c.pool, c.seqs[i], kv, cow);
            && r.Some? && Took(c.pool, c.seqs[i], r.value.0, r.value.1, c.pool.free[0], kv)
            && FreeOk(r.value.0) && CountsOk(r.value.0, c.seqs[i := r.value.1])
            && forall j :: 0 <= j < |c.seqs| ==> c.pool.free[0] !in c.seqs[j].table
  {
    hide Append, FreeOk, CountsOk, Fits, Count;
    LayoutPlaces(c, i);
    var p, s := c.pool, c.seqs[i];
    AppendEffect(p, s, kv, cow);
    var b, q := p.free[0], Append(p, s, kv, cow).value.0;
    FirstFree(p);
    forall j | 0 <= j < |c.seqs| ensures b !in c.seqs[j].table { Uncounted(c, b, j); }
    assert LaidOut(p, s);
    LastBlock(p.blockSize, |s.table|, s.tokens);
    NewBlockCounts(c, i, q, b);
    FreeAfterTaking(p, q);
  }

  lemma InPlaceTakes(c: Cache, i: nat, kv: Kv, cow: bool)
    requires Layout(c) && i < |c.seqs| && Placed(c.pool, c.seqs[i]) && InPlace(c.pool, c.seqs[i], cow)
    ensures var r := Append(c.pool, c.seqs[i], kv, cow);
            && r.Some? && Took(c.pool, c.seqs[i], r.value.0, r.value.1, Tail(c.seqs[i]), kv)
            && FreeOk(r.value.0) && CountsOk(r.value.0, c.seqs[i := r.value.1])
            && var b, slot := Tail(c.seqs[i]), c.seqs[i].tokens % c.pool.blockSize;
               r.value.0.blocks == c.pool.blocks[b := Put(c.pool.blocks[b], slot, kv)]
  {
    hide Fits, Count, Entries;
    LayoutPlaces(c, i);
    var p, s := c.pool, c.seqs[i];
    var r := Append(p, s, kv, cow).value;
    assert LaidOut(p, s);
    LastBlock(p.blockSize, |s.table|, s.tokens);
    SameTableEntries(c.seqs, i, r.1);
  }

  lemma CopyTakes(c: Cache, i: nat, kv: Kv)
    requires Layout(c) && i < |c.seqs| && c.seqs[i].tokens % c.pool.blockSize != 0 && Placed(c.pool, c.seqs[i])
    requires c.pool.blocks[Tail(c.seqs[i])].refs > 1 && c.pool.free != []
    ensures var r := Append(c.pool, c.seqs[i], kv, true);
            && r.Some? && Took(c.pool, c.seqs[i], r.value.0, r.value.1, c.pool.free[0], kv)
            && FreeOk(r.value.0) && CountsOk(r.value.0, c.seqs[i := r.value.1])
            && forall j :: 0 <= j < |c.seqs| ==> c.pool.free[0] !in c.seqs[j].table
  {
    hide FreeOk, CountsOk, Fits, Count, Append;
    LayoutPlaces(c, i);
    var p, s := c.pool, c.seqs[i];
    var b, d, slot := Tail(s), p.free[0], s.tokens % p.blockSize;
    CopyEffect(p, s, kv);
    var q := Append(p, s, kv, true).value.0;
    FirstFree(p);
    forall j | 0 <= j < |c.seqs| ensures d !in c.seqs[j].table { Uncounted(c, d, j); }
    assert LaidOut(p, s);
    LastBlock(p.blockSize, |s.table|, s.tokens);
    NewTailCounts(c, i, q, d);
    FreeAfterTaking(p, q);
  }

  lemma CopyEffect(p: Pool, s: Sequence, kv: Kv)
    requires Shaped(p) && Placed(p, s) && s.tokens % p.blockSize != 0 && p.free != [] && p.free[0] != Tail(s)
    requires p.blocks[Tail(s)].refs > 1 && s.tokens % p.blockSize <= p.blocks[Tail(s)].used
    ensures var b, d, slot := Tail(s), p.free[0], s.tokens % p.blockSize;
            Append(p, s, kv, true) ==
              Some((p.(free := p.free[1..],
                       blocks := p.blocks[d := Put(CopyOf(p.blocks[b], p.blockSize), slot, kv)]
                                         [b := Dropped(p.blocks[b])]),
                    Sequence(s.table[|s.table| - 1 := d], s.tokens + 1)))
  {
    var b, d, slot := Tail(s), p.free[0], s.tokens % p.blockSize;
    assert Append(p, s, kv, true).value.0.blocks
           == p.blocks[d := Put(CopyOf(p.blocks[b], p.blockSize), slot, kv)][b := Dropped(p.blocks[b])];
  }

  /** The sequence that took the token is laid out again. */
  lemma TakerLaidOut(p: Pool, s: Sequence, q: Pool, s': Sequence, b: nat, kv: Kv)
    requires Shaped(p) && LaidOut(p, s) && Took(p, s, q, s', b, kv)
    ensures LaidOut(q, s')
  {
    hide Fits, Count, Last;
    var size, l := p.blockSize, Last(p.blockSize, s.tokens);
    LastBlock(size, |s.table|, s.tokens);
    CountAtLast(size, s.tokens);
    forall k: nat | k < |s'.table|
      ensures s'.table[k] < |q.blocks| && Count(size, s'.tokens, k) <= q.blocks[s'.table[k]].used
    {
      CountGrows(size, s.tokens, k);
      if k < l {
        assert Count(size, s.tokens, k) <= p.blocks[s.table[k]].used;
      }
    }
  }

  lemma {:induction false} CountGrows(size: nat, tokens: nat, k: nat)
    requires size > 0
    ensures Count(size, tokens + 1, k) == Count(size, tokens, k) + if k == Last(size, tokens) then 1 else 0
    decreases k
  {
    if tokens >= size && k > 0 {
      CountGrows(size, tokens - size, k - 1);
    }
  }

  /** It contains one more token. */
  lemma TakerContains(p: Pool, s: Sequence, q: Pool, s': Sequence, b: nat, kv: Kv, h: seq<Kv>)
    requires Shaped(p) && LaidOut(p, s) && |h| == s.tokens && Took(p, s, q, s', b, kv) && Contains(p, s.table, h)
    ensures InPool(q, s'.table) && Contains(q, s'.table, h + [kv])
  {
    hide Fits, Count, Part, Last;
    var size, l := p.blockSize, Last(p.blockSize, s.tokens);
    assert InPool(q, s'.table) by { TakerLaidOut(p, s, q, s', b, kv); }
    forall k: nat | k < |s'.table| ensures Shows(q.blocks[s'.table[k]], Part(h + [kv], size, k)) {
      PartGrows(h, size, kv, k);
      if k < l {
        assert Shows(p.blocks[s.table[k]], Part(h, size, k));
      } else {
        TakenBlockShows(p, s, q, s', b, kv, h);
      }
    }
  }

  lemma TakenBlockShows(p: Pool, s: Sequence, q: Pool, s': Sequence, b: nat, kv: Kv, h: seq<Kv>)
    requires Shaped(p) && LaidOut(p, s) && |h| == s.tokens && Took(p, s, q, s', b, kv) && Contains(p, s.table, h)
    ensures Shows(q.blocks[b], Part(h, p.blockSize, Last(p.blockSize, s.tokens)) + [kv])
  {
    hide Fits, Count, Part, Last;
    var l := Last(p.blockSize, s.tokens);
    CountAtLast(p.blockSize, s.tokens);
    if s.tokens % p.blockSize > 0 {
      assert Shows(p.blocks[s.table[l]], Part(h, p.blockSize, l));
    }
  }

  /** Blocks that do not change go on showing what they showed. */
  lemma OthersUnchanged(p: Pool, q: Pool, b: nat, s: Sequence, h: seq<Kv>)
    requires Shaped(p) && LaidOut(p, s) && OnlyChanges(p, q, b) && b !in s.table
    ensures LaidOut(q, s) && (Contains(q, s.table, h) <==> Contains(p, s.table, h))
  {
    hide Fits, Count, Part;
    forall k: nat | k < |s.table|
      ensures q.blocks[s.table[k]].used == p.blocks[s.table[k]].used
      ensures q.blocks[s.table[k]].slots == p.blocks[s.table[k]].slots
    {
    }
  }

  // ---------------------------------------------------------------------------------------------
  // When an append does harm
  // ---------------------------------------------------------------------------------------------

  /** Sequence `s` counts slot `slot` of block `b`, at index `k` of its table. */
  predicate CountsSlot(size: nat, s: Sequence, b: nat, slot: nat, k: nat) {
    k < |s.table| && s.table[k] == b && slot < Count(size, s.tokens, k)
  }

  /** The history `h` of `s` has another token than `kv` in that slot. */
  ghost predicate Differs(size: nat, s: Sequence, h: seq<Kv>, b: nat, slot: nat, kv: Kv, k: nat)
    requires |h| == s.tokens
  {
    CountsSlot(size, s, b, slot, k) && !Same(Some(kv), Part(h, size, k)[slot])
  }

  ghost predicate Overwritten(size: nat, s: Sequence, h: seq<Kv>, b: nat, slot: nat, kv: Kv)
    requires |h| == s.tokens
  {
    exists k: nat :: Differs(size, s, h, b, slot, kv, k)
  }

  /** A sequence whose table has the written block goes on containing its history exactly when the slot is not
      one of its own, or holds the same key and value. */
  lemma SharerReads(p: Pool, b: nat, slot: nat, kv: Kv, q: Pool, s: Sequence, h: seq<Kv>)
    requires Shaped(p) && LaidOut(p, s) && |h| == s.tokens && Contains(p, s.table, h)
    requires b < |p.blocks| && slot < p.blockSize && q.blockSize == p.blockSize
    requires q.blocks == p.blocks[b := Put(p.blocks[b], slot, kv)]
    ensures LaidOut(q, s) && (Contains(q, s.table, h) <==> !Overwritten(p.blockSize, s, h, b, slot, kv))
  {
    hide Fits, Count, Part;
    var size := p.blockSize;
    forall k: nat | k < |s.table|
      ensures Count(size, s.tokens, k) <= q.blocks[s.table[k]].used
      ensures Shows(q.blocks[s.table[k]], Part(h, size, k)) <==> !Differs(size, s, h, b, slot, kv, k)
    {
      assert Shows(p.blocks[s.table[k]], Part(h, size, k));
      BlockReads(p.blocks[s.table[k]], Part(h, size, k), slot, kv);
    }
    assert Contains(q, s.table, h) <==> forall k: nat :: k < |s.table| ==> !Differs(size, s, h, b, slot, kv, k);
  }

  lemma BlockReads(b: Block, part: seq<Kv>, slot: nat, kv: Kv)
    requires Shows(b, part) && slot < |b.slots|
    ensures Shows(Put(b, slot, kv), part) <==> (slot < |part| ==> Same(Some(kv), part[slot]))
  {
    var b' := Put(b, slot, kv);
    assert b'.slots[slot] == Some(kv);
    assert forall j :: 0 <= j < |part| && j != slot ==> b'.slots[j] == b.slots[j];
  }

  /** The append overwrites a token that another branch has in its history. */
  ghost predicate Clobbers(c: Cache, hist: seq<seq<Kv>>, i: nat, kv: Kv, cow: bool)
    requires Shaped(c.pool) && i < |c.seqs| && Placed(c.pool, c.seqs[i]) && Lengths(c, hist)
  {
    var p, s := c.pool, c.seqs[i];
    && InPlace(p, s, cow)
    && exists j :: 0 <= j < |c.seqs| && j != i &&
        Overwritten(p.blockSize, c.seqs[j], hist[j], Tail(s), s.tokens % p.blockSize, kv)
  }

  ghost predicate Lengths(c: Cache, hist: seq<seq<Kv>>) {
    |hist| == |c.seqs| && forall j :: 0 <= j < |c.seqs| ==> |hist[j]| == c.seqs[j].tokens
  }

  /** Every append keeps the layout, and fails exactly when it needs a block and none is free. */
  lemma AppendKeepsLayout(c: Cache, i: nat, kv: Kv, cow: bool)
    requires Layout(c) && i < |c.seqs|
    ensures Placed(c.pool, c.seqs[i])
    ensures var r, s := Append(c.pool, c.seqs[i], kv, cow), c.seqs[i];
            && (r.None? <==> c.pool.free == [] && !InPlace(c.pool, s, cow))
            && (r.Some? ==> Layout(Stepped(c, i, r.value)) && r.value.1.tokens == s.tokens + 1)
  {
    hide FreeOk, CountsOk, LaidOut, Count, Fits;
    LayoutPlaces(c, i);
    var p, s := c.pool, c.seqs[i];
    if InPlace(p, s, cow) {
      InPlaceTakes(c, i, kv, cow);
      StepLaidOut(c, i, kv, cow, Tail(s));
    } else if p.free != [] {
      if s.tokens % p.blockSize == 0 { BoundaryTakes(c, i, kv, cow); } else { CopyTakes(c, i, kv); }
      StepLaidOut(c, i, kv, cow, p.free[0]);
    }
  }

  lemma StepLaidOut(c: Cache, i: nat, kv: Kv, cow: bool, b: nat)
    requires Layout(c) && i < |c.seqs| && Placed(c.pool, c.seqs[i])
    requires var r := Append(c.pool, c.seqs[i], kv, cow);
             r.Some? && Took(c.pool, c.seqs[i], r.value.0, r.value.1, b, kv)
    requires InPlace(c.pool, c.seqs[i], cow) || forall j :: 0 <= j < |c.seqs| ==> b !in c.seqs[j].table
    ensures var after := Stepped(c, i, Append(c.pool, c.seqs[i], kv, cow).value);
            forall j :: 0 <= j < |after.seqs| ==> LaidOut(after.pool, after.seqs[j])
  {
    hide FreeOk, CountsOk, Count, Fits, Append, Last;
    var r := Append(c.pool, c.seqs[i], kv, cow).value;
    var after := Stepped(c, i, r);
    forall j | 0 <= j < |after.seqs| ensures LaidOut(after.pool, after.seqs[j]) {
      assert LaidOut(c.pool, c.seqs[j]);
      if j == i {
        TakerLaidOut(c.pool, c.seqs[i], r.0, r.1, b, kv);
      } else if b !in c.seqs[j].table {
        OthersUnchanged(c.pool, r.0, b, c.seqs[j], []);
      } else {
        InPlaceTakes(c, i, kv, cow);
        SharerLaidOut(c.pool, Tail(c.seqs[i]), c.seqs[i].tokens % c.pool.blockSize, kv, r.0, c.seqs[j]);
      }
    }
  }

  lemma SharerLaidOut(p: Pool, b: nat, slot: nat, kv: Kv, q: Pool, s: Sequence)
    requires Shaped(p) && LaidOut(p, s) && b < |p.blocks| && slot < p.blockSize && q.blockSize == p.blockSize
    requires q.blocks == p.blocks[b := Put(p.blocks[b], slot, kv)]
    ensures LaidOut(q, s)
  {
    hide Fits, Count;
  }

  lemma AllReadLengths(c: Cache, hist: seq<seq<Kv>>)
    requires AllRead(c, hist)
    ensures Lengths(c, hist)
  {
    forall j | 0 <= j < |c.seqs| ensures |hist[j]| == c.seqs[j].tokens { assert Reads(c.pool, c.seqs[j], hist[j]); }
  }

  /** After an append that succeeds, every branch still reads its own history if and only if the append does not
      overwrite a token of another branch. */
  lemma AppendReads(c: Cache, hist: seq<seq<Kv>>, i: nat, kv: Kv, cow: bool)
    requires Layout(c) && AllRead(c, hist) && i < |c.seqs|
    ensures Lengths(c, hist) && Placed(c.pool, c.seqs[i])
    ensures var r := Append(c.pool, c.seqs[i], kv, cow);
            r.Some? ==> (AllRead(Stepped(c, i, r.value), hist[i := hist[i] + [kv]]) <==> !Clobbers(c, hist, i, kv, cow))
  {
    hide FreeOk, CountsOk, LaidOut, Append, Reads, Overwritten;
    AllReadLengths(c, hist);
    AppendKeepsLayout(c, i, kv, cow);
    var p, s, r := c.pool, c.seqs[i], Append(c.pool, c.seqs[i], kv, cow);
    if r.Some? {
      var after, hist' := Stepped(c, i, r.value), hist[i := hist[i] + [kv]];
      forall j | 0 <= j < |c.seqs| && j != i
        ensures Reads(after.pool, after.seqs[j], hist'[j]) <==>
          !(InPlace(p, s, cow) && Overwritten(p.blockSize, c.seqs[j], hist[j], Tail(s), s.tokens % p.blockSize, kv))
      {
        OtherReads(c, hist, i, kv, cow, j);
      }
      TakerReads(c, hist, i, kv, cow);
    }
  }

  lemma TakerReads(c: Cache, hist: seq<seq<Kv>>, i: nat, kv: Kv, cow: bool)
    requires Layout(c) && AllRead(c, hist) && i < |c.seqs| && Lengths(c, hist) && Placed(c.pool, c.seqs[i])
    requires Append(c.pool, c.seqs[i], kv, cow).Some?
    ensures var r := Append(c.pool, c.seqs[i], kv, cow).value; Reads(r.0, r.1, hist[i] + [kv])
  {
    hide FreeOk, CountsOk, Append, Reads, Contains, Count, Fits, Last, Took;
    var p, s, r, h := c.pool, c.seqs[i], Append(c.pool, c.seqs[i], kv, cow).value, hist[i];
    AppendKeepsLayout(c, i, kv, cow);
    assert Layout(Stepped(c, i, r));
    assert LaidOut(r.0, Stepped(c, i, r).seqs[i]);
    var b := TakenBlock(c, i, kv, cow);
    assert Reads(p, s, h);
    ReadsExactly(p, s, h);
    TakerContains(p, s, r.0, r.1, b, kv, h);
    ReadsExactly(r.0, r.1, h + [kv]);
  }

  lemma TakenBlock(c: Cache, i: nat, kv: Kv, cow: bool) returns (b: nat)
    requires Layout(c) && i < |c.seqs| && Placed(c.pool, c.seqs[i]) && Append(c.pool, c.seqs[i], kv, cow).Some?
    ensures var r := Append(c.pool, c.seqs[i], kv, cow).value; Took(c.pool, c.seqs[i], r.0, r.1, b, kv)
    ensures if InPlace(c.pool, c.seqs[i], cow) then b == Tail(c.seqs[i])
            else forall j :: 0 <= j < |c.seqs| ==> b !in c.seqs[j].table
  {
    hide FreeOk, CountsOk, LaidOut, Count, Fits, Append, Took;
    var p, s := c.pool, c.seqs[i];
    AppendKeepsLayout(c, i, kv, cow);
    if InPlace(p, s, cow) {
      b := Tail(s);
      InPlaceTakes(c, i, kv, cow);
    } else {
      b := p.free[0];
      if s.tokens % p.blockSize == 0 { BoundaryTakes(c, i, kv, cow); } else { CopyTakes(c, i, kv); }
    }
  }

  lemma OtherReads(c: Cache, hist: seq<seq<Kv>>, i: nat, kv: Kv, cow: bool, j: nat)
    requires Layout(c) && AllRead(c, hist) && i < |c.seqs| && Lengths(c, hist) && Placed(c.pool, c.seqs[i])
    requires Append(c.pool, c.seqs[i], kv, cow).Some? && j < |c.seqs| && j != i
    ensures var p, s, q := c.pool, c.seqs[i], Append(c.pool, c.seqs[i], kv, cow).value.0;
            Reads(q, c.seqs[j], hist[j]) <==>
              !(InPlace(p, s, cow) && Overwritten(p.blockSize, c.seqs[j], hist[j], Tail(s), s.tokens % p.blockSize, kv))
  {
    hide FreeOk, CountsOk, Append, Reads, Contains, Count, Fits, Last, Overwritten;
    var p, s, r := c.pool, c.seqs[i], Append(c.pool, c.seqs[i], kv, cow).value;
    var b := TakenBlock(c, i, kv, cow);
    AppendKeepsLayout(c, i, kv, cow);
    assert LaidOut(r.0, Stepped(c, i, r).seqs[j]);
    assert LaidOut(p, c.seqs[j]) && Reads(p, c.seqs[j], hist[j]);
    ReadsExactly(p, c.seqs[j], hist[j]);
    ReadsExactly(r.0, c.seqs[j], hist[j]);
    if InPlace(p, s, cow) {
      InPlaceTakes(c, i, kv, cow);
      SharerReads(p, b, s.tokens % p.blockSize, kv, r.0, c.seqs[j], hist[j]);
    } else {
      OthersUnchanged(p, r.0, b, c.seqs[j], hist[j]);
    }
  }

  /** Sequence `j` already counts the slot that the next token of `i` would take in its tail block. */
  ghost predicate CountsNext(p: Pool, s: Sequence, other: Sequence)
    requires p.blockSize > 0 && s.table != []
  {
    exists k: nat :: CountsSlot(p.blockSize, other, Tail(s), s.tokens % p.blockSize, k)
  }

  /** Copy-on-write is on, or a new block starts, or the tail is not shared, or nobody who shares it has come as far. */
  ghost predicate Harmless(c: Cache, i: nat, cow: bool)
    requires i < |c.seqs| && Shaped(c.pool) && Placed(c.pool, c.seqs[i])
  {
    var p, s := c.pool, c.seqs[i];
    cow || s.tokens % p.blockSize == 0 || p.blocks[Tail(s)].refs <= 1
    || forall j :: 0 <= j < |c.seqs| && j != i ==> !CountsNext(p, s, c.seqs[j])
  }

  /** If the append succeeds, every branch reads its own history afterwards. */
  ghost predicate SafeFor(c: Cache, hist: seq<seq<Kv>>, i: nat, kv: Kv, cow: bool)
    requires i < |c.seqs| && Shaped(c.pool) && Placed(c.pool, c.seqs[i]) && |hist| == |c.seqs|
  {
    var r := Append(c.pool, c.seqs[i], kv, cow);
    r.Some? ==> AllRead(Stepped(c, i, r.value), hist[i := hist[i] + [kv]])
  }

  /** An append is safe for every token if and only if it is harmless. */
  lemma HarmlessExactly(c: Cache, hist: seq<seq<Kv>>, i: nat, cow: bool)
    requires Layout(c) && AllRead(c, hist) && i < |c.seqs|
    ensures Placed(c.pool, c.seqs[i])
    ensures (forall kv :: SafeFor(c, hist, i, kv, cow)) <==> Harmless(c, i, cow)
  {
    hide LaidOut, FreeOk, CountsOk, Reads, Append, Overwritten;
    LayoutPlaces(c, i);
    if Harmless(c, i, cow) {
      forall kv ensures SafeFor(c, hist, i, kv, cow) {
        AppendReads(c, hist, i, kv, cow);
        HarmlessNeverClobbers(c, hist, i, kv, cow);
      }
    } else {
      AllReadLengths(c, hist);
      var kv := HarmfulToken(c, hist, i, cow);
      AppendReads(c, hist, i, kv, cow);
      AppendKeepsLayout(c, i, kv, cow);
      assert !SafeFor(c, hist, i, kv, cow);
    }
  }

  lemma HarmlessNeverClobbers(c: Cache, hist: seq<seq<Kv>>, i: nat, kv: Kv, cow: bool)
    requires Layout(c) && Lengths(c, hist) && i < |c.seqs| && Placed(c.pool, c.seqs[i]) && Harmless(c, i, cow)
    ensures !Clobbers(c, hist, i, kv, cow)
  {
    hide LaidOut, FreeOk, CountsOk;
    var p, s := c.pool, c.seqs[i];
    if InPlace(p, s, cow) {
      forall j | 0 <= j < |c.seqs| && j != i
        ensures !Overwritten(p.blockSize, c.seqs[j], hist[j], Tail(s), s.tokens % p.blockSize, kv)
      {
        if k: nat :| Differs(p.blockSize, c.seqs[j], hist[j], Tail(s), s.tokens % p.blockSize, kv, k) {
          assert CountsNext(p, s, c.seqs[j]);
          assert Tail(s) in s.table && Tail(s) in c.seqs[j].table;
          CountedOnceIsPrivate(c, Tail(s), i, j);
        }
      }
    }
  }

  /** A token that another branch would read instead of its own. */
  lemma HarmfulToken(c: Cache, hist: seq<seq<Kv>>, i: nat, cow: bool) returns (kv: Kv)
    requires Shaped(c.pool) && Lengths(c, hist) && i < |c.seqs| && Placed(c.pool, c.seqs[i]) && !Harmless(c, i, cow)
    ensures InPlace(c.pool, c.seqs[i], cow) && Clobbers(c, hist, i, kv, cow)
  {
    var p, s := c.pool, c.seqs[i];
    var slot := s.tokens % p.blockSize;
    var j :| 0 <= j < |c.seqs| && j != i && CountsNext(p, s, c.seqs[j]);
    var k: nat :| CountsSlot(p.blockSize, c.seqs[j], Tail(s), slot, k);
    var theirs := Part(hist[j], p.blockSize, k)[slot];
    kv := theirs.(key := theirs.key + [0.0]);
    assert |kv.key| == |theirs.key| + 1;
    assert Differs(p.blockSize, c.seqs[j], hist[j], Tail(s), slot, kv, k);
    assert Overwritten(p.blockSize, c.seqs[j], hist[j], Tail(s), slot, kv);
  }

  // ---------------------------------------------------------------------------------------------
  // Runs of arbitrary operations
  // ---------------------------------------------------------------------------------------------

  ghost predicate Clobbering(c: Cache, hist: seq<seq<Kv>>, op: Op) {
    && Applicable(c, op) && Lengths(c, hist) && op.AppendOp?
    && Append(c.pool, c.seqs[op.i], op.kv, op.cow).Some? && Clobbers(c, hist, op.i, op.kv, op.cow)
  }

  /** In a reachable cache every operation on an existing sequence is defined. */
  lemma EveryOpApplies(c: Cache, op: Op)
    requires Layout(c)
    requires op.ForkOp? ==> op.parent < |c.seqs|
    requires op.AppendOp? ==> op.i < |c.seqs|
    ensures Applicable(c, op)
  {
    if op.ForkOp? {
      assert LaidOut(c.pool, c.seqs[op.parent]);
    } else if op.AppendOp? {
      LayoutPlaces(c, op.i);
    }
  }

  /** The pools differ in reference counts only. */
  ghost predicate SameSlots(p: Pool, q: Pool) {
    && |q.blocks| == |p.blocks| && q.blockSize == p.blockSize
    && forall b :: 0 <= b < |p.blocks| ==>
        q.blocks[b].used == p.blocks[b].used && q.blocks[b].slots == p.blocks[b].slots
  }

  lemma SameSlotsRead(p: Pool, q: Pool, s: Sequence, h: seq<Kv>)
    requires Shaped(p) && Shaped(q) && LaidOut(p, s) && SameSlots(p, q)
    ensures LaidOut(q, s) && (Reads(q, s, h) <==> Reads(p, s, h))
  {
    hide Fits, Count, Part, Iterate, Yields;
    if |h| == s.tokens {
      ReadsExactly(p, s, h);
      ReadsExactly(q, s, h);
      assert Contains(q, s.table, h) <==> Contains(p, s.table, h);
    }
  }

  lemma ForkReads(c: Cache, hist: seq<seq<Kv>>, parent: nat)
    requires Layout(c) && |hist| == |c.seqs| && parent < |c.seqs| && InPool(c.pool, c.seqs[parent].table)
    ensures Layout(Fork(c, parent))
    ensures AllRead(c, hist) ==> AllRead(Fork(c, parent), hist + [hist[parent]])
  {
    hide ShareAll, Entries, Reads, LaidOut;
    var p, s, c' := c.pool, c.seqs[parent], Fork(c, parent);
    ShareAllEffect(p, s.table);
    EntriesAppend(c.seqs, s);
    forall b | 0 <= b < |p.blocks| ensures b in c'.pool.free <==> c'.pool.blocks[b].refs == 0 {
      OwnEntries(c.seqs, parent, b);
    }
    forall i | 0 <= i < |c'.seqs|
      ensures LaidOut(c'.pool, c'.seqs[i])
      ensures AllRead(c, hist) ==> Reads(c'.pool, c'.seqs[i], (hist + [hist[parent]])[i])
    {
      var k := if i < |c.seqs| then i else parent;
      assert LaidOut(p, c.seqs[k]);
      SameSlotsRead(p, c'.pool, c.seqs[k], hist[k]);
    }
  }

  lemma CreateReads(c: Cache, hist: seq<seq<Kv>>)
    requires Layout(c) && |hist| == |c.seqs|
    ensures Layout(c.(seqs := c.seqs + [Sequence([], 0)]))
    ensures AllRead(c, hist) ==> AllRead(c.(seqs := c.seqs + [Sequence([], 0)]), hist + [[]])
  {
    hide Entries, FreeOk, Shaped;
    EntriesAppend(c.seqs, Sequence([], 0));
  }

  lemma StepReads(c: Cache, hist: seq<seq<Kv>>, op: Op)
    requires Layout(c) && Lengths(c, hist) && Applicable(c, op)
    ensures Layout(Step(c, op)) && Lengths(Step(c, op), Record(c, hist, op))
    ensures AllRead(c, hist) ==> (AllRead(Step(c, op), Record(c, hist, op)) <==> !Clobbering(c, hist, op))
  {
    hide Layout, AllRead, Append, Clobbers;
    match op
    case CreateOp => CreateReads(c, hist);
    case ForkOp(parent) => ForkReads(c, hist, parent);
    case AppendOp(i, kv, cow) =>
      AppendKeepsLayout(c, i, kv, cow);
      if AllRead(c, hist) {
        AppendReads(c, hist, i, kv, cow);
      }
  }

  lemma NewPoolReads(numBlocks: nat, blockSize: nat)
    requires blockSize > 0
    ensures Layout(Cache(NewPool(numBlocks, blockSize), [])) && AllRead(Cache(NewPool(numBlocks, blockSize), []), [])
  {
    NewPoolInv(numBlocks, blockSize);
  }

  /** Counts, free list and layout are right in every state of every run, whatever its appends overwrite; and all
      branches read their histories up to the first append that overwrites one. */
  lemma {:induction false} RunReads(
      numBlocks: nat, blockSize: nat, caches: seq<Cache>, hists: seq<seq<seq<Kv>>>, ops: seq<Op>, k: nat)
    requires blockSize > 0 && IsRun(numBlocks, blockSize, caches, hists, ops) && k < |caches|
    ensures Layout(caches[k]) && Lengths(caches[k], hists[k])
    ensures (forall j :: 0 <= j < k ==> !Clobbering(caches[j], hists[j], ops[j])) ==> AllRead(caches[k], hists[k])
  {
    hide Layout, Lengths, AllRead, Step, Record, Applicable, NewPool, Clobbering;
    if k == 0 {
      NewPoolReads(numBlocks, blockSize);
      assert Lengths(caches[0], hists[0]) by { NoLengths(caches[0], hists[0]); }
    } else {
      RunReads(numBlocks, blockSize, caches, hists, ops, k - 1);
      StepReads(caches[k - 1], hists[k - 1], ops[k - 1]);
    }
  }

  lemma NoLengths(c: Cache, hist: seq<seq<Kv>>)
    requires c.seqs == [] && hist == []
    ensures Lengths(c, hist)
  {
  }

  ghost predicate AlwaysReads(caches: seq<Cache>, hists: seq<seq<seq<Kv>>>) {
    |caches| == |hists| && forall k :: 0 <= k < |caches| ==> AllRead(caches[k], hists[k])
  }

  ghost predicate NeverClobbers(caches: seq<Cache>, hists: seq<seq<seq<Kv>>>, ops: seq<Op>)
    requires |caches| == |hists| == |ops| + 1
  {
    forall k :: 0 <= k < |ops| ==> !Clobbering(caches[k], hists[k], ops[k])
  }

  /** In a run of any creates, forks and appends, every branch reads its own history in every state if and only if
      no append overwrites a token of another branch. */
  lemma MaterializeIsHistory(numBlocks: nat, blockSize: nat, caches: seq<Cache>, hists: seq<seq<seq<Kv>>>, ops: seq<Op>)
    requires blockSize > 0 && IsRun(numBlocks, blockSize, caches, hists, ops)
    ensures AlwaysReads(caches, hists) <==> NeverClobbers(caches, hists, ops)
  {
    hide Layout, Lengths, AllRead, Step, Record, Applicable, NewPool, Clobbering;
    if NeverClobbers(caches, hists, ops) {
      forall k | 0 <= k < |caches| ensures AllRead(caches[k], hists[k]) {
        RunReads(numBlocks, blockSize, caches, hists, ops, k);
      }
    } else {
      var k :| 0 <= k < |ops| && Clobbering(caches[k], hists[k], ops[k]);
      RunReads(numBlocks, blockSize, caches, hists, ops, k);
      StepReads(caches[k], hists[k], ops[k]);
      assert !(AllRead(caches[k], hists[k]) && AllRead(caches[k + 1], hists[k + 1]));
    }
  }

  /** In every state of every run, whatever it overwrites, each branch reads its tokens where its table says. */
  lemma RunLocates(
      numBlocks: nat, blockSize: nat, caches: seq<Cache>, hists: seq<seq<seq<Kv>>>, ops: seq<Op>, k: nat, i: nat)
    requires blockSize > 0 && IsRun(numBlocks, blockSize, caches, hists, ops) && k < |caches| && i < |caches[k].seqs|
    ensures var p, s := caches[k].pool, caches[k].seqs[i];
            && p.blockSize > 0 && Readable(p, s.table)
            && var r := Iterate(p, s.table, s.tokens);
               r.Some? ==> |r.value| == s.tokens && AllLocated(p, s.table, r.value)
  {
    hide Step, Record, Applicable, NewPool, Clobbering, Iterate, Located, AllRead, FreeOk, CountsOk;
    RunReads(numBlocks, blockSize, caches, hists, ops, k);
    var p, s := caches[k].pool, caches[k].seqs[i];
    assert LaidOut(p, s);
    IterateLocates(p, s.table, s.tokens);
  }

  /** In particular when every append is isolated. */
  lemma IsolatedRunReads(numBlocks: nat, blockSize: nat, caches: seq<Cache>, hists: seq<seq<seq<Kv>>>, ops: seq<Op>)
    requires blockSize > 0 && IsRun(numBlocks, blockSize, caches, hists, ops) && IsolatedRun(caches, ops)
    ensures NeverClobbers(caches, hists, ops) && AlwaysReads(caches, hists)
  {
    hide AllRead, Step, Record, NewPool, Clobbers, Layout;
    forall k | 0 <= k < |ops| ensures !Clobbering(caches[k], hists[k], ops[k]) {
      RunReads(numBlocks, blockSize, caches, hists, ops, k);
      assert Applicable(caches[k], ops[k]) && IsolatedOp(caches[k], ops[k]);
      if ops[k].AppendOp? {
        HarmlessNeverClobbers(caches[k], hists[k], ops[k].i, ops[k].kv, ops[k].cow);
      }
    }
    MaterializeIsHistory(numBlocks, blockSize, caches, hists, ops);
  }
}
