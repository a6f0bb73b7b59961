/**
 * The paged KV cache on values: a pool of fixed-size blocks with reference counts, and sequences whose
 * block tables share blocks after a fork.  The classes in `PagedKvCache` are proved against these functions.
 */
module PagedKv {
  import opened Sequences
  import opened Wrappers
  import opened Arithmetic

  type Vector = seq<real>

  datatype Kv = Kv(key: Vector, value: Vector, token: Option<int>)

  /** `refs` may be any integer here; that it never goes negative is part of what is proved. */
  datatype Block = Block(refs: int, used: nat, slots: seq<Option<Kv>>)

  datatype Pool = Pool(blockSize: nat, blocks: seq<Block>, free: seq<nat>)

  datatype Sequence = Sequence(table: seq<nat>, tokens: nat)

  // ---------------------------------------------------------------------------------------------
  // The block pool
  // ---------------------------------------------------------------------------------------------

  predicate InPool(p: Pool, ids: seq<nat>) {
    forall i :: 0 <= i < |ids| ==> ids[i] < |p.blocks|
  }

  function EmptySlots(n: nat): (r: seq<Option<Kv>>)
    ensures |r| == n && forall i :: 0 <= i < n ==> r[i] == None
  {
    seq(n, _ => None)
  }

  function NewPool(numBlocks: nat, blockSize: nat): Pool {
    Pool(blockSize, seq(numBlocks, _ => Block(0, 0, EmptySlots(blockSize))), seq(numBlocks, i => i))
  }

  /** `allocate_block`: the first free block, reset; nothing when the free list is empty. */
  function Allocate(p: Pool): (r: Option<(Pool, nat)>)
    requires InPool(p, p.free)
    ensures r.Some? ==> r.value.1 < |p.blocks| == |r.value.0.blocks| && r.value.0.blockSize == p.blockSize
  {
    if p.free == [] then None
    else
      var b := p.free[0];
      Some((p.(free := p.free[1..], blocks := p.blocks[b := Block(1, 0, EmptySlots(p.blockSize))]), b))
  }

  function IncRef(p: Pool, b: nat): Pool
    requires b < |p.blocks|
  {
    p.(blocks := p.blocks[b := p.blocks[b].(refs := p.blocks[b].refs + 1)])
  }

  /** `dec_ref`: refuses a count that is not positive; the last reference returns the block to the free list. */
  function DecRef(p: Pool, b: nat): Option<Pool>
    requires b < |p.blocks|
  {
    var block := p.blocks[b];
    if block.refs <= 0 then None
    else Some(p.(blocks := p.blocks[b := block.(refs := block.refs - 1)],
                 free := if block.refs == 1 then p.free + [b] else p.free))
  }

  /** The written slots of `src` over the empty slots of a block of the same size. */
  function CopiedSlots(src: Block, size: nat): seq<Option<Kv>>
    requires src.used <= |src.slots| && src.used <= size
  {
    src.slots[..src.used] + EmptySlots(size - src.used)
  }

  function Clone(p: Pool, b: nat): (r: Option<(Pool, nat)>)
    requires b < |p.blocks| && InPool(p, p.free)
    requires p.blocks[b].used <= |p.blocks[b].slots| && p.blocks[b].used <= p.blockSize
    ensures r.Some? ==> r.value.1 < |p.blocks| == |r.value.0.blocks| && r.value.0.blockSize == p.blockSize
  {
    match Allocate(p)
    case None => None
    case Some((q, c)) =>
      Some((q.(blocks := q.blocks[c := Block(1, p.blocks[b].used, CopiedSlots(p.blocks[b], p.blockSize))]), c))
  }

  function Write(p: Pool, b: nat, slot: nat, kv: Kv): Pool
    requires b < |p.blocks| && slot < |p.blocks[b].slots|
  {
    var block := p.blocks[b];
    p.(blocks := p.blocks[b := block.(slots := block.slots[slot := Some(kv)],
                                      used := if slot + 1 > block.used then slot + 1 else block.used)])
  }

  // ---------------------------------------------------------------------------------------------
  // Sequences
  // ---------------------------------------------------------------------------------------------

  /** `fork` counts one more reference for every block of the parent's table. */
  function ShareAll(p: Pool, table: seq<nat>): (q: Pool)
    requires InPool(p, table)
    ensures |q.blocks| == |p.blocks| && q.blockSize == p.blockSize && q.free == p.free
  {
    if table == [] then p else IncRef(ShareAll(p, table[..|table| - 1]), table[|table| - 1])
  }

  /** The pool keeps its shape, so the operations below are defined. */
  predicate Shaped(p: Pool) {
    && p.blockSize > 0
    && (forall b :: 0 <= b < |p.blocks| ==> |p.blocks[b].slots| == p.blockSize && p.blocks[b].used <= p.blockSize)
    && InPool(p, p.free)
  }

  /** The sequence addresses blocks of the pool and has a tail block when it is inside one. */
  predicate Placed(p: Pool, s: Sequence) {
    && InPool(p, s.table)
    && (p.blockSize > 0 && s.tokens % p.blockSize != 0 ==> s.table != [])
  }

  /** `append`: a new block at a boundary, a private copy of a shared tail when asked for, else in place.
      Nothing means out of blocks. */
  function Append(p: Pool, s: Sequence, kv: Kv, cow: bool): Option<(Pool, Sequence)>
    requires Shaped(p) && Placed(p, s)
  {
    var slot := s.tokens % p.blockSize;
    if slot == 0 then
      match Allocate(p)
      case None => None
      case Some((q, b)) => Some((Write(q, b, slot, kv), Sequence(s.table + [b], s.tokens + 1)))
    else
      var last := |s.table| - 1;
      var b := s.table[last];
      if cow && p.blocks[b].refs > 1 then
        match Clone(p, b)
        case None => None
        case Some((q, c)) =>
          Some((Write(DecRef(q, b).value, c, slot, kv), Sequence(s.table[last := c], s.tokens + 1)))
      else
        Some((Write(p, b, slot, kv), s.(tokens := s.tokens + 1)))
  }

  // ---------------------------------------------------------------------------------------------
  // What a sequence stores
  // ---------------------------------------------------------------------------------------------

  /** The written slots of `b` are exactly `part`. */
  ghost predicate Holds(b: Block, part: seq<Kv>) {
    b.used == |part| <= |b.slots| && forall j :: 0 <= j < |part| ==> b.slots[j] == Some(part[j])
  }

  /** The blocks of `table` hold `h` in order: all full, except that the last one may be partial. */
  ghost predicate Stores(blocks: seq<Block>, size: nat, table: seq<nat>, h: seq<Kv>) {
    if table == [] then h == []
    else
      && table[0] < |blocks|
      && if |table| == 1 then 1 <= |h| <= size && Holds(blocks[table[0]], h)
         else |h| > size && Holds(blocks[table[0]], h[..size]) && Stores(blocks, size, table[1..], h[size..])
  }

  /** The blocks of `table` have the same contents in both pools. */
  ghost predicate SameContents(blocks: seq<Block>, blocks': seq<Block>, table: seq<nat>) {
    && |blocks'| == |blocks|
    && forall i :: 0 <= i < |table| && table[i] < |blocks| ==>
         blocks'[table[i]].used == blocks[table[i]].used && blocks'[table[i]].slots == blocks[table[i]].slots
  }

  lemma {:induction false} StoresFrame(blocks: seq<Block>, blocks': seq<Block>, size: nat, table: seq<nat>, h: seq<Kv>)
    requires Stores(blocks, size, table, h) && SameContents(blocks, blocks', table)
    ensures Stores(blocks', size, table, h)
  {
    if |table| > 1 {
      assert forall i :: 0 <= i < |table[1..]| ==> table[1..][i] == table[i + 1];
      StoresFrame(blocks, blocks', size, table[1..], h[size..]);
    }
  }

  /** The tail block of a sequence holds the tokens beyond the last boundary, or a full block's worth. */
  lemma {:induction false} TailOf(blocks: seq<Block>, size: nat, table: seq<nat>, h: seq<Kv>)
    requires size > 0 && Stores(blocks, size, table, h) && table != []
    ensures var last := table[|table| - 1];
            && last < |blocks| && 1 <= blocks[last].used <= size && blocks[last].used <= |h|
            && |h| % size == if blocks[last].used == size then 0 else blocks[last].used
  {
    if |table| == 1 {
      assert Holds(blocks[table[0]], h);
      RemainderWithin(|h|, size);
    } else {
      assert Stores(blocks, size, table[1..], h[size..]) && |h| > size;
      hide Stores, Holds;
      TailOf(blocks, size, table[1..], h[size..]);
      SubtractOnce(|h|, size);
    }
  }

  lemma RemainderWithin(n: nat, size: nat)
    requires 1 <= n <= size
    ensures n % size == if n == size then 0 else n
  {
    RemainderIs(n, size, if n == size then 1 else 0, if n == size then 0 else n);
  }

  lemma {:induction false} StoresNewBlock(blocks: seq<Block>, size: nat, table: seq<nat>, h: seq<Kv>, b: nat, kv: Kv)
    requires size > 0 && Stores(blocks, size, table, h) && |h| % size == 0
    requires b < |blocks| && Holds(blocks[b], [kv])
    ensures Stores(blocks, size, table + [b], h + [kv])
  {
    var table', h' := table + [b], h + [kv];
    if table == [] {
      assert table' == [b] && h' == [kv];
    } else {
      if |table| == 1 {
        TailOf(blocks, size, table, h);
        assert h'[..size] == h && h'[size..] == [kv] && table'[1..] == [b];
      } else {
        SubtractOnce(|h|, size);
        StoresNewBlock(blocks, size, table[1..], h[size..], b, kv);
        assert h'[..size] == h[..size] && h'[size..] == h[size..] + [kv] && table'[1..] == table[1..] + [b];
      }
    }
  }

  lemma {:induction false} StoresInPlace(
      blocks: seq<Block>, blocks': seq<Block>, size: nat, table: seq<nat>, h: seq<Kv>, kv: Kv)
    requires size > 0 && Stores(blocks, size, table, h) && table != []
    requires SameContents(blocks, blocks', table[..|table| - 1])
    requires var last := table[|table| - 1];
             last < |blocks| && blocks[last].used < size && blocks[last].used < |blocks[last].slots|
             && blocks'[last].used == blocks[last].used + 1
             && blocks'[last].slots == blocks[last].slots[blocks[last].used := Some(kv)]
    ensures Stores(blocks', size, table, h + [kv])
  {
    var h' := h + [kv];
    if |table| > 1 {
      var rest, init := table[1..], table[..|table| - 1];
      assert rest[..|rest| - 1] == init[1..] && init[0] == table[0];
      assert forall i :: 0 <= i < |init[1..]| ==> init[1..][i] == init[i + 1];
      StoresInPlace(blocks, blocks', size, rest, h[size..], kv);
      assert h'[..size] == h[..size] && h'[size..] == h[size..] + [kv];
    }
  }

  lemma {:induction false} StoresNewTail(
      blocks: seq<Block>, blocks': seq<Block>, size: nat, table: seq<nat>, h: seq<Kv>, c: nat)
    requires size > 0 && Stores(blocks, size, table, h) && table != []
    requires SameContents(blocks, blocks', table[..|table| - 1])
    requires var last := table[|table| - 1];
             last < |blocks| && c < |blocks'|
             && blocks'[c].used == blocks[last].used <= |blocks[last].slots| && blocks[last].used <= |blocks'[c].slots|
             && blocks'[c].slots[..blocks'[c].used] == blocks[last].slots[..blocks[last].used]
    ensures Stores(blocks', size, table[|table| - 1 := c], h)
  {
    var table' := table[|table| - 1 := c];
    if |table| > 1 {
      var rest, init := table[1..], table[..|table| - 1];
      assert rest[..|rest| - 1] == init[1..] && init[0] == table[0];
      assert forall i :: 0 <= i < |init[1..]| ==> init[1..][i] == init[i + 1];
      StoresNewTail(blocks, blocks', size, rest, h[size..], c);
      assert table'[1..] == rest[|rest| - 1 := c];
    } else {
      var last := table[0];
      forall j | 0 <= j < |h| ensures blocks'[c].slots[j] == Some(h[j]) {
        assert blocks'[c].slots[j] == blocks'[c].slots[..blocks'[c].used][j] == blocks[last].slots[j];
      }
    }
  }

  // ---------------------------------------------------------------------------------------------
  // All sequences of a cache
  // ---------------------------------------------------------------------------------------------

  datatype Cache = Cache(pool: Pool, seqs: seq<Sequence>)

  /** Every block-table entry of every sequence. */
  ghost function Entries(seqs: seq<Sequence>): multiset<nat> {
    if seqs == [] then multiset{} else Entries(seqs[..|seqs| - 1]) + multiset(seqs[|seqs| - 1].table)
  }

  ghost predicate SequenceOk(p: Pool, s: Sequence, h: seq<Kv>) {
    s.tokens == |h| && InPool(p, s.table) && NoRepeats(s.table) && Stores(p.blocks, p.blockSize, s.table, h)
  }

  /** The free list is duplicate-free and is exactly the blocks with count 0. */
  ghost predicate FreeOk(p: Pool) {
    && NoRepeats(p.free)
    && forall b :: 0 <= b < |p.blocks| ==> (b in p.free <==> p.blocks[b].refs == 0)
  }

  /** Each count is the number of table entries that point at the block. */
  ghost predicate CountsOk(p: Pool, seqs: seq<Sequence>) {
    forall b :: 0 <= b < |p.blocks| ==> p.blocks[b].refs == Entries(seqs)[b]
  }

  /** The cache stores exactly the histories `hist`, one per sequence. */
  ghost predicate Inv(c: Cache, hist: seq<seq<Kv>>) {
    && Shaped(c.pool) && FreeOk(c.pool) && CountsOk(c.pool, c.seqs)
    && |hist| == |c.seqs|
    && forall i :: 0 <= i < |c.seqs| ==> SequenceOk(c.pool, c.seqs[i], hist[i])
  }

  lemma Rearrange(a: multiset<nat>, b: multiset<nat>, common: multiset<nat>, x: multiset<nat>, y: multiset<nat>)
    requires a + x == b + y
    ensures (a + common) + x == (b + common) + y
  {
    assert (a + common) + x == (a + x) + common;
    assert (b + common) + y == (b + y) + common;
  }

  lemma {:induction false} EntriesUpdate(seqs: seq<Sequence>, i: nat, s: Sequence)
    requires i < |seqs|
    ensures Entries(seqs[i := s]) + multiset(seqs[i].table) == Entries(seqs) + multiset(s.table)
  {
    var n := |seqs| - 1;
    if i == n {
      assert seqs[i := s][..n] == seqs[..n];
    } else {
      assert seqs[i := s][..n] == seqs[..n][i := s];
      EntriesUpdate(seqs[..n], i, s);
      Rearrange(Entries(seqs[..n][i := s]), Entries(seqs[..n]), multiset(seqs[n].table), multiset(seqs[i].table),
        multiset(s.table));
    }
  }

  lemma SameTableEntries(seqs: seq<Sequence>, i: nat, s: Sequence)
    requires i < |seqs| && s.table == seqs[i].table
    ensures Entries(seqs[i := s]) == Entries(seqs)
  {
    hide Entries;
    EntriesUpdate(seqs, i, s);
    forall x: nat ensures Entries(seqs[i := s])[x] == Entries(seqs)[x] {
      assert (Entries(seqs[i := s]) + multiset(s.table))[x] == (Entries(seqs) + multiset(s.table))[x];
    }
  }

  lemma EntriesAppend(seqs: seq<Sequence>, s: Sequence)
    ensures Entries(seqs + [s]) == Entries(seqs) + multiset(s.table)
  {
    assert (seqs + [s])[..|seqs|] == seqs;
  }

  /** A sequence's own entries are among all entries; what is left belongs to the others. */
  lemma {:induction false} OwnEntries(seqs: seq<Sequence>, i: nat, b: nat)
    requires i < |seqs|
    ensures multiset(seqs[i].table)[b] <= Entries(seqs)[b]
  {
    var n := |seqs| - 1;
    assert Entries(seqs)[b] == Entries(seqs[..n])[b] + multiset(seqs[n].table)[b];
    if i < n {
      OwnEntries(seqs[..n], i, b);
    }
  }

  lemma {:induction false} TwoOwners(seqs: seq<Sequence>, i: nat, j: nat, b: nat)
    requires i < j < |seqs|
    ensures multiset(seqs[i].table)[b] + multiset(seqs[j].table)[b] <= Entries(seqs)[b]
  {
    var n := |seqs| - 1;
    assert Entries(seqs)[b] == Entries(seqs[..n])[b] + multiset(seqs[n].table)[b];
    if j < n {
      TwoOwners(seqs[..n], i, j, b);
    } else {
      OwnEntries(seqs[..n], i, b);
    }
  }

  lemma Uncounted(c: Cache, b: nat, i: nat)
    requires CountsOk(c.pool, c.seqs) && b < |c.pool.blocks| && c.pool.blocks[b].refs == 0 && i < |c.seqs|
    ensures b !in c.seqs[i].table
  {
    OwnEntries(c.seqs, i, b);
  }

  lemma CountedOnceIsPrivate(c: Cache, b: nat, i: nat, j: nat)
    requires CountsOk(c.pool, c.seqs) && i < |c.seqs| && j < |c.seqs| && i != j
    requires b < |c.pool.blocks| && b in c.seqs[i].table && c.pool.blocks[b].refs <= 1
    ensures b !in c.seqs[j].table
  {
    TwoOwners(c.seqs, if i < j then i else j, if i < j then j else i, b);
  }

  // ---------------------------------------------------------------------------------------------
  // Forking
  // ---------------------------------------------------------------------------------------------

  lemma {:induction false} ShareAllEffect(p: Pool, table: seq<nat>)
    requires InPool(p, table)
    ensures var q := ShareAll(p, table);
            forall b :: 0 <= b < |p.blocks| ==>
              q.blocks[b] == p.blocks[b].(refs := p.blocks[b].refs + multiset(table)[b])
  {
    if table != [] {
      var init, last := table[..|table| - 1], table[|table| - 1];
      ShareAllEffect(p, init);
      assert table == init + [last];
    }
  }

  function Fork(c: Cache, parent: nat): Cache
    requires parent < |c.seqs| && InPool(c.pool, c.seqs[parent].table)
  {
    Cache(ShareAll(c.pool, c.seqs[parent].table), c.seqs + [c.seqs[parent]])
  }

  lemma ForkKeepsInv(c: Cache, hist: seq<seq<Kv>>, parent: nat)
    requires Inv(c, hist) && parent < |c.seqs|
    ensures InPool(c.pool, c.seqs[parent].table) && Inv(Fork(c, parent), hist + [hist[parent]])
  {
    hide ShareAll, Entries, Stores;
    var p, s := c.pool, c.seqs[parent];
    assert SequenceOk(p, s, hist[parent]);
    var q := ShareAll(p, s.table);
    ShareAllEffect(p, s.table);
    EntriesAppend(c.seqs, s);
    assert FreeOk(q) by {
      forall b | 0 <= b < |q.blocks| ensures b in q.free <==> q.blocks[b].refs == 0 {
        OwnEntries(c.seqs, parent, b);
      }
    }
    forall i | 0 <= i < |c.seqs + [s]| ensures SequenceOk(q, (c.seqs + [s])[i], (hist + [hist[parent]])[i]) {
      var k := if i < |c.seqs| then i else parent;
      assert SequenceOk(p, c.seqs[k], hist[k]);
      StoresFrame(p.blocks, q.blocks, p.blockSize, c.seqs[k].table, hist[k]);
    }
  }

  // ---------------------------------------------------------------------------------------------
  // Appending
  // ---------------------------------------------------------------------------------------------

  /** The append does not write into a block that another sequence can see. */
  ghost predicate Isolated(c: Cache, i: nat, cow: bool)
    requires i < |c.seqs| && Shaped(c.pool) && Placed(c.pool, c.seqs[i])
  {
    var s := c.seqs[i];
    cow || s.tokens % c.pool.blockSize == 0 || c.pool.blocks[s.table[|s.table| - 1]].refs <= 1
  }

  lemma InvPlaces(c: Cache, hist: seq<seq<Kv>>, i: nat)
    requires Inv(c, hist) && i < |c.seqs|
    ensures Placed(c.pool, c.seqs[i])
  {
    assert SequenceOk(c.pool, c.seqs[i], hist[i]);
    if c.seqs[i].table != [] { TailOf(c.pool.blocks, c.pool.blockSize, c.seqs[i].table, hist[i]); }
  }

  /** Another sequence keeps its history when only blocks outside its table change their contents. */
  lemma OthersKeep(p: Pool, q: Pool, s: Sequence, h: seq<Kv>, changed: set<nat>)
    requires SequenceOk(p, s, h) && |q.blocks| == |p.blocks| && q.blockSize == p.blockSize
    requires forall b :: 0 <= b < |p.blocks| && b !in changed ==>
               q.blocks[b].used == p.blocks[b].used && q.blocks[b].slots == p.blocks[b].slots
    requires forall b :: b in changed ==> b !in s.table
    ensures SequenceOk(q, s, h)
  {
    StoresFrame(p.blocks, q.blocks, p.blockSize, s.table, h);
  }

  /** Taking the first free block. */
  lemma FirstFree(p: Pool)
    requires FreeOk(p) && InPool(p, p.free) && p.free != []
    ensures p.blocks[p.free[0]].refs == 0
    ensures NoRepeats(p.free[1..]) && forall b :: b in p.free[1..] <==> b in p.free && b != p.free[0]
  {
    assert p.free[0] in p.free;
    assert p.free == [p.free[0]] + p.free[1..];
  }

  /** The new value of sequence `i`, with the pool it leaves behind. */
  function Stepped(c: Cache, i: nat, r: (Pool, Sequence)): Cache
    requires i < |c.seqs|
  {
    Cache(r.0, c.seqs[i := r.1])
  }

  /** A block with one more token. */
  function Filled(b: Block, kv: Kv): Block
    requires b.used < |b.slots|
  {
    b.(slots := b.slots[b.used := Some(kv)], used := b.used + 1)
  }

  function FreshBlock(size: nat): Block { Block(1, 0, EmptySlots(size)) }

  function CopyOf(b: Block, size: nat): Block
    requires b.used <= |b.slots| && b.used <= size
  {
    Block(1, b.used, CopiedSlots(b, size))
  }

  function Dropped(b: Block): Block { b.(refs := b.refs - 1) }

  /** What the three kinds of append do to the pool, in terms of the block that takes the token. */
  lemma AppendEffect(p: Pool, s: Sequence, kv: Kv, cow: bool)
    requires Shaped(p) && Placed(p, s)
    requires s.tokens % p.blockSize != 0 ==> p.blocks[s.table[|s.table| - 1]].used == s.tokens % p.blockSize
    requires p.free != [] && s.tokens % p.blockSize != 0 ==> p.free[0] != s.table[|s.table| - 1]
    ensures var r, last := Append(p, s, kv, cow), |s.table| - 1;
            if s.tokens % p.blockSize == 0 then
              if p.free == [] then r.None?
              else r == Some((p.(free := p.free[1..],
                blocks := p.blocks[p.free[0] := Filled(FreshBlock(p.blockSize), kv)]),
                              Sequence(s.table + [p.free[0]], s.tokens + 1)))
            else if cow && p.blocks[s.table[last]].refs > 1 then
              if p.free == [] then r.None?
              else var b, d := s.table[last], p.free[0];
                r == Some((p.(free := p.free[1..],
                  blocks := p.blocks[d := Filled(CopyOf(p.blocks[b], p.blockSize), kv)][b := Dropped(p.blocks[b])]),
                           Sequence(s.table[last := d], s.tokens + 1)))
            else
              var b := s.table[last];
              r == Some((p.(blocks := p.blocks[b := Filled(p.blocks[b], kv)]), s.(tokens := s.tokens + 1)))
  {
    if s.tokens % p.blockSize == 0 && p.free != [] {
      assert Append(p, s, kv, cow).value.0.blocks == p.blocks[p.free[0] := Filled(FreshBlock(p.blockSize), kv)];
    }
    if s.tokens % p.blockSize != 0 && p.free != [] {
      var b, d := s.table[|s.table| - 1], p.free[0];
      if cow && p.blocks[b].refs > 1 {
        assert Append(p, s, kv, cow).value.0.blocks ==
          p.blocks[d := Filled(CopyOf(p.blocks[b], p.blockSize), kv)][b := Dropped(p.blocks[b])];
      }
    }
  }

  /** `p` and `q` differ in the contents of block `b` only. */
  ghost predicate OnlyChanges(p: Pool, q: Pool, b: nat) {
    && |q.blocks| == |p.blocks| && q.blockSize == p.blockSize
    && forall k :: 0 <= k < |p.blocks| && k != b ==>
        q.blocks[k].used == p.blocks[k].used && q.blocks[k].slots == p.blocks[k].slots
  }

  /** The parts of the invariant, put together after sequence `i` has taken one more token in block `b`. */
  lemma AppendInv(c: Cache, hist: seq<seq<Kv>>, i: nat, q: Pool, s: Sequence, h: seq<Kv>, b: nat)
    requires Inv(c, hist) && i < |c.seqs|
    requires Shaped(q) && FreeOk(q) && CountsOk(q, c.seqs[i := s]) && SequenceOk(q, s, h)
    requires OnlyChanges(c.pool, q, b) && forall j :: 0 <= j < |c.seqs| && j != i ==> b !in c.seqs[j].table
    ensures Inv(Cache(q, c.seqs[i := s]), hist[i := h])
  {
    hide Shaped, FreeOk, CountsOk, Stores;
    forall j | 0 <= j < |c.seqs| && j != i ensures SequenceOk(q, c.seqs[j], hist[j]) {
      assert SequenceOk(c.pool, c.seqs[j], hist[j]);
      OthersKeep(c.pool, q, c.seqs[j], hist[j], {b});
    }
  }

  lemma NewBlockCounts(c: Cache, i: nat, q: Pool, b: nat)
    requires i < |c.seqs| && CountsOk(c.pool, c.seqs) && b < |c.pool.blocks| == |q.blocks|
    requires c.pool.blocks[b].refs == 0 && q.blocks[b].refs == 1
    requires forall k :: 0 <= k < |q.blocks| && k != b ==> q.blocks[k].refs == c.pool.blocks[k].refs
    ensures CountsOk(q, c.seqs[i := Sequence(c.seqs[i].table + [b], c.seqs[i].tokens + 1)])
  {
    var s, s' := c.seqs[i], Sequence(c.seqs[i].table + [b], c.seqs[i].tokens + 1);
    EntriesUpdate(c.seqs, i, s');
    assert multiset(s'.table) == multiset(s.table) + multiset{b};
    forall k | 0 <= k < |q.blocks| ensures q.blocks[k].refs == Entries(c.seqs[i := s'])[k] {
      assert (Entries(c.seqs[i := s']) + multiset(s.table))[k] == (Entries(c.seqs) + multiset(s'.table))[k];
    }
  }

  lemma SwapCount(was: multiset<nat>, now: multiset<nat>, init: seq<nat>, b: nat, d: nat, k: nat)
    requires now + multiset(init + [b]) == was + multiset(init + [d]) && b != d
    ensures now[k] + (if k == b then 1 else 0) == was[k] + if k == d then 1 else 0
  {
    assert (now + multiset(init + [b]))[k] == now[k] + multiset(init)[k] + if k == b then 1 else 0;
    assert (was + multiset(init + [d]))[k] == was[k] + multiset(init)[k] + if k == d then 1 else 0;
  }

  lemma SwapCounts(p: Pool, q: Pool, was: multiset<nat>, now: multiset<nat>, init: seq<nat>, b: nat, d: nat)
    requires now + multiset(init + [b]) == was + multiset(init + [d]) && b != d && |q.blocks| == |p.blocks|
    requires forall k :: 0 <= k < |p.blocks| ==> p.blocks[k].refs == was[k]
    requires forall k :: 0 <= k < |q.blocks| ==>
      q.blocks[k].refs == if k == b then p.blocks[k].refs - 1 else if k == d then 1 else p.blocks[k].refs
    requires d < |p.blocks| && p.blocks[d].refs == 0
    ensures forall k :: 0 <= k < |q.blocks| ==> q.blocks[k].refs == now[k]
  {
    forall k | 0 <= k < |q.blocks| ensures q.blocks[k].refs == now[k] {
      SwapCount(was, now, init, b, d, k);
    }
  }

  lemma NewTailCounts(c: Cache, i: nat, q: Pool, d: nat)
    requires i < |c.seqs| && CountsOk(c.pool, c.seqs) && c.seqs[i].table != [] && d < |c.pool.blocks| == |q.blocks|
    requires var b := c.seqs[i].table[|c.seqs[i].table| - 1];
             && b < |q.blocks| && b != d && c.pool.blocks[d].refs == 0 && q.blocks[d].refs == 1
             && q.blocks[b].refs == c.pool.blocks[b].refs - 1
             && forall k :: 0 <= k < |q.blocks| && k != b && k != d ==> q.blocks[k].refs == c.pool.blocks[k].refs
    ensures CountsOk(q, c.seqs[i := Sequence(c.seqs[i].table[|c.seqs[i].table| - 1 := d], c.seqs[i].tokens + 1)])
  {
    hide Entries;
    var s, last := c.seqs[i], |c.seqs[i].table| - 1;
    var s' := Sequence(s.table[last := d], s.tokens + 1);
    var was, now := Entries(c.seqs), Entries(c.seqs[i := s']);
    assert now + multiset(s.table) == was + multiset(s'.table) by { EntriesUpdate(c.seqs, i, s'); }
    SplitTail(s.table, d);
    SwapCounts(c.pool, q, was, now, s.table[..last], s.table[last], d);
  }

  lemma SplitTail(table: seq<nat>, d: nat)
    requires table != []
    ensures table == table[..|table| - 1] + [table[|table| - 1]]
    ensures table[|table| - 1 := d] == table[..|table| - 1] + [d]
  {
  }

  lemma FreeAfterTaking(p: Pool, q: Pool)
    requires FreeOk(p) && InPool(p, p.free) && p.free != [] && q.free == p.free[1..] && |q.blocks| == |p.blocks|
    requires q.blocks[p.free[0]].refs != 0
    requires forall k :: 0 <= k < |q.blocks| && k != p.free[0] ==> (q.blocks[k].refs == 0 <==> p.blocks[k].refs == 0)
    ensures FreeOk(q) && InPool(q, q.free)
  {
    FirstFree(p);
  }

  lemma AppendAtBoundary(c: Cache, hist: seq<seq<Kv>>, i: nat, kv: Kv, cow: bool)
    requires Inv(c, hist) && i < |c.seqs| && c.seqs[i].tokens % c.pool.blockSize == 0 && c.pool.free != []
    ensures Placed(c.pool, c.seqs[i])
    ensures var r := Append(c.pool, c.seqs[i], kv, cow);
            r.Some? && Inv(Stepped(c, i, r.value), hist[i := hist[i] + [kv]])
  {
    hide Append, Stores, FreeOk, CountsOk, Entries;
    InvPlaces(c, hist, i);
    var p, s := c.pool, c.seqs[i];
    AppendEffect(p, s, kv, cow);
    var r := Append(p, s, kv, cow).value;
    var b, q := p.free[0], r.0;
    FirstFree(p);
    assert SequenceOk(p, s, hist[i]);
    forall j | 0 <= j < |c.seqs| ensures b !in c.seqs[j].table { Uncounted(c, b, j); }
    StoresFrame(p.blocks, q.blocks, p.blockSize, s.table, hist[i]);
    StoresNewBlock(q.blocks, p.blockSize, s.table, hist[i], b, kv);
    NewBlockCounts(c, i, q, b);
    FreeAfterTaking(p, q);
    AppendInv(c, hist, i, q, r.1, hist[i] + [kv], b);
  }

  lemma AppendInPlace(c: Cache, hist: seq<seq<Kv>>, i: nat, kv: Kv, cow: bool)
    requires Inv(c, hist) && i < |c.seqs| && c.seqs[i].tokens % c.pool.blockSize != 0 && Placed(c.pool, c.seqs[i])
    requires c.pool.blocks[c.seqs[i].table[|c.seqs[i].table| - 1]].refs <= 1
    ensures var r := Append(c.pool, c.seqs[i], kv, cow);
            r.Some? && Inv(Stepped(c, i, r.value), hist[i := hist[i] + [kv]])
  {
    hide Append, Stores, Entries;
    var p, s := c.pool, c.seqs[i];
    TailFacts(c, hist, i);
    AppendEffect(p, s, kv, cow);
    var r := Append(p, s, kv, cow).value;
    var b, q := s.table[|s.table| - 1], r.0;
    assert SequenceOk(p, s, hist[i]);
    StoresInPlace(p.blocks, q.blocks, p.blockSize, s.table, hist[i], kv);
    assert b in s.table;
    forall j | 0 <= j < |c.seqs| && j != i ensures b !in c.seqs[j].table { CountedOnceIsPrivate(c, b, i, j); }
    SameTableEntries(c.seqs, i, r.1);
    AppendInv(c, hist, i, q, r.1, hist[i] + [kv], b);
  }

  /** Inside a block, the tail block holds exactly the tokens beyond the boundary, and is not free. */
  lemma TailFacts(c: Cache, hist: seq<seq<Kv>>, i: nat)
    requires Inv(c, hist) && i < |c.seqs| && c.seqs[i].tokens % c.pool.blockSize != 0
    ensures var s, p := c.seqs[i], c.pool;
            && Placed(p, s) && s.table != [] && s.table[|s.table| - 1] !in p.free
            && p.blocks[s.table[|s.table| - 1]].used == s.tokens % p.blockSize
            && p.blocks[s.table[|s.table| - 1]].used < p.blockSize
  {
    var s, p := c.seqs[i], c.pool;
    InvPlaces(c, hist, i);
    assert SequenceOk(p, s, hist[i]);
    TailOf(p.blocks, p.blockSize, s.table, hist[i]);
    var b := s.table[|s.table| - 1];
    if p.blocks[b].refs == 0 { Uncounted(c, b, i); }
  }

  lemma AppendCopying(c: Cache, hist: seq<seq<Kv>>, i: nat, kv: Kv)
    requires Inv(c, hist) && i < |c.seqs| && c.seqs[i].tokens % c.pool.blockSize != 0 && Placed(c.pool, c.seqs[i])
    requires c.pool.blocks[c.seqs[i].table[|c.seqs[i].table| - 1]].refs > 1 && c.pool.free != []
    ensures var r := Append(c.pool, c.seqs[i], kv, true);
            r.Some? && Inv(Stepped(c, i, r.value), hist[i := hist[i] + [kv]])
  {
    hide Append, Stores, FreeOk, CountsOk, Entries;
    var p, s := c.pool, c.seqs[i];
    TailFacts(c, hist, i);
    AppendEffect(p, s, kv, true);
    var r := Append(p, s, kv, true).value;
    var last := |s.table| - 1;
    var b, d, q := s.table[last], p.free[0], r.0;
    FirstFree(p);
    assert SequenceOk(p, s, hist[i]);
    forall j | 0 <= j < |c.seqs| ensures d !in c.seqs[j].table { Uncounted(c, d, j); }
    CopiedSequence(p, s, hist[i], kv, d);
    NewTailCounts(c, i, q, d);
    FreeAfterTaking(p, q);
    AppendInv(c, hist, i, q, r.1, hist[i] + [kv], d);
  }

  /** The copied tail takes the new token; the rest of the table is untouched. */
  lemma CopiedSequence(p: Pool, s: Sequence, h: seq<Kv>, kv: Kv, d: nat)
    requires Shaped(p) && SequenceOk(p, s, h) && s.table != [] && d < |p.blocks| && d !in s.table
    requires p.blocks[s.table[|s.table| - 1]].used < p.blockSize
    ensures var last := |s.table| - 1; var b := s.table[last];
            SequenceOk(p.(free := [],
                          blocks := p.blocks[d := Filled(CopyOf(p.blocks[b], p.blockSize), kv)]
                                            [b := Dropped(p.blocks[b])]),
                       Sequence(s.table[last := d], s.tokens + 1), h + [kv])
  {
    var last := |s.table| - 1;
    var b := s.table[last];
    var copy := p.blocks[d := CopyOf(p.blocks[b], p.blockSize)];
    var blocks' := p.blocks[d := Filled(CopyOf(p.blocks[b], p.blockSize), kv)][b := Dropped(p.blocks[b])];
    var table' := s.table[last := d];
    assert s.table[..last] == table'[..last];
    StoresNewTail(p.blocks, copy, p.blockSize, s.table, h, d);
    StoresInPlace(copy, blocks', p.blockSize, table', h, kv);
  }

  /** Writing in place into a shared tail is counted once by the storage and once by every sequence that shares
      the block, though only one of them has gained a token: the reported saving is too large. */
  lemma UnisolatedAppendMiscounts(c: Cache, hist: seq<seq<Kv>>, i: nat, kv: Kv)
    requires Inv(c, hist) && i < |c.seqs| && Placed(c.pool, c.seqs[i]) && !Isolated(c, i, false)
    ensures var r := Append(c.pool, c.seqs[i], kv, false);
            r.Some? && var after := Stepped(c, i, r.value);
            TotalTokens(after.seqs) - StorageCost(after.pool.blocks) < SavedSlots(after.pool.blocks)
  {
    hide Append, Entries, Stores, StorageCost, SavedSlots, TotalTokens;
    var p, s := c.pool, c.seqs[i];
    TailFacts(c, hist, i);
    AppendEffect(p, s, kv, false);
    var b := s.table[|s.table| - 1];
    FilledCosts(p.blocks, b, Filled(p.blocks[b], kv));
    OneMoreToken(c.seqs, i, s.(tokens := s.tokens + 1));
    InvIsBalanced(c, hist);
  }

  lemma InvIsBalanced(c: Cache, hist: seq<seq<Kv>>)
    requires Inv(c, hist)
    ensures Balanced(c) && SavedSlots(c.pool.blocks) >= 0
  {
    hide Weight, StorageCost, SavedSlots, TotalTokens, Entries, SequenceOk;
    WeightOfSequences(c.pool, c.seqs, hist);
    WeightSplits(c.pool.blocks, Entries(c.seqs));
  }

  lemma {:induction false} FilledCosts(blocks: seq<Block>, b: nat, x: Block)
    requires b < |blocks| && x.refs == blocks[b].refs > 0 && x.used == blocks[b].used + 1
    ensures StorageCost(blocks[b := x]) == StorageCost(blocks) + 1
    ensures SavedSlots(blocks[b := x]) == SavedSlots(blocks) + x.refs - 1
  {
    var m := |blocks| - 1;
    if b == m {
      assert blocks[b := x][..m] == blocks[..m];
      assert (x.refs - 1) * x.used == (x.refs - 1) * blocks[b].used + (x.refs - 1);
    } else {
      assert blocks[b := x][..m] == blocks[..m][b := x];
      FilledCosts(blocks[..m], b, x);
    }
  }

  lemma {:induction false} OneMoreToken(seqs: seq<Sequence>, i: nat, s: Sequence)
    requires i < |seqs| && s.tokens == seqs[i].tokens + 1
    ensures TotalTokens(seqs[i := s]) == TotalTokens(seqs) + 1
  {
    var m := |seqs| - 1;
    if i == m {
      assert seqs[i := s][..m] == seqs[..m];
    } else {
      assert seqs[i := s][..m] == seqs[..m][i := s];
      OneMoreToken(seqs[..m], i, s);
    }
  }

  /** An append fails exactly when it needs a block and none is free.  One that succeeds keeps the accounting exact,
      block by block and in total, if and only if it is isolated: copy-on-write is on, or it starts a new block, or
      its tail block is not shared. */
  lemma AppendExact(c: Cache, hist: seq<seq<Kv>>, i: nat, kv: Kv, cow: bool)
    requires Inv(c, hist) && i < |c.seqs|
    ensures Placed(c.pool, c.seqs[i])
    ensures var r, s := Append(c.pool, c.seqs[i], kv, cow), c.seqs[i];
            && (r.None? <==> c.pool.free == [] && (s.tokens % c.pool.blockSize == 0
                                                   || (cow && c.pool.blocks[s.table[|s.table| - 1]].refs > 1)))
            && (r.Some? ==> (Inv(Stepped(c, i, r.value), hist[i := hist[i] + [kv]]) <==> Isolated(c, i, cow)))
            && (r.Some? ==> (Balanced(Stepped(c, i, r.value)) <==> Isolated(c, i, cow)))
  {
    hide Append, Stores, SequenceOk, CountsOk, FreeOk, StorageCost, SavedSlots, TotalTokens;
    InvPlaces(c, hist, i);
    var s, p := c.seqs[i], c.pool;
    var r := Append(p, s, kv, cow);
    if s.tokens % p.blockSize == 0 {
      if p.free != [] { AppendAtBoundary(c, hist, i, kv, cow); } else { EmptyPoolAppend(c, hist, i, kv, cow); }
    } else {
      TailFacts(c, hist, i);
      if p.blocks[s.table[|s.table| - 1]].refs <= 1 {
        AppendInPlace(c, hist, i, kv, cow);
      } else if !cow {
        UnisolatedAppendMiscounts(c, hist, i, kv);
      } else if p.free != [] {
        AppendCopying(c, hist, i, kv);
      } else {
        EmptyPoolAppend(c, hist, i, kv, cow);
      }
    }
    if r.Some? && Inv(Stepped(c, i, r.value), hist[i := hist[i] + [kv]]) {
      InvIsBalanced(Stepped(c, i, r.value), hist[i := hist[i] + [kv]]);
    }
  }

  lemma EmptyPoolAppend(c: Cache, hist: seq<seq<Kv>>, i: nat, kv: Kv, cow: bool)
    requires Inv(c, hist) && i < |c.seqs| && c.pool.free == [] && Placed(c.pool, c.seqs[i])
    requires c.seqs[i].tokens % c.pool.blockSize == 0
             || (cow && c.pool.blocks[c.seqs[i].table[|c.seqs[i].table| - 1]].refs > 1)
    ensures Append(c.pool, c.seqs[i], kv, cow).None?
  {
  }

  // ---------------------------------------------------------------------------------------------
  // Runs
  // ---------------------------------------------------------------------------------------------

  datatype Op = CreateOp | ForkOp(parent: nat) | AppendOp(i: nat, kv: Kv, cow: bool)

  ghost predicate Applicable(c: Cache, op: Op) {
    match op
    case CreateOp => true
    case ForkOp(parent) => parent < |c.seqs| && InPool(c.pool, c.seqs[parent].table)
    case AppendOp(i, _, _) => i < |c.seqs| && Shaped(c.pool) && Placed(c.pool, c.seqs[i])
  }

  ghost predicate IsolatedOp(c: Cache, op: Op)
    requires Applicable(c, op)
  {
    op.AppendOp? ==> Isolated(c, op.i, op.cow)
  }

  /** An append that runs out of blocks raises and changes nothing. */
  function Step(c: Cache, op: Op): Cache
    requires Applicable(c, op)
  {
    match op
    case CreateOp => c.(seqs := c.seqs + [Sequence([], 0)])
    case ForkOp(parent) => Fork(c, parent)
    case AppendOp(i, kv, cow) =>
      var r := Append(c.pool, c.seqs[i], kv, cow);
      if r.None? then c else Stepped(c, i, r.value)
  }

  /** The dense history that each branch would have if nothing were shared. */
  function Record(c: Cache, hist: seq<seq<Kv>>, op: Op): seq<seq<Kv>>
    requires Applicable(c, op) && |hist| == |c.seqs|
  {
    match op
    case CreateOp => hist + [[]]
    case ForkOp(parent) => hist + [hist[parent]]
    case AppendOp(i, kv, cow) =>
      if Append(c.pool, c.seqs[i], kv, cow).None? then hist else hist[i := hist[i] + [kv]]
  }

  ghost predicate IsRun(numBlocks: nat, blockSize: nat, caches: seq<Cache>, hists: seq<seq<seq<Kv>>>, ops: seq<Op>) {
    && |caches| == |hists| == |ops| + 1
    && caches[0] == Cache(NewPool(numBlocks, blockSize), []) && hists[0] == []
    && forall k :: 0 <= k < |ops| ==>
         && Applicable(caches[k], ops[k]) && |hists[k]| == |caches[k].seqs|
         && caches[k + 1] == Step(caches[k], ops[k]) && hists[k + 1] == Record(caches[k], hists[k], ops[k])
  }

  /** No append of the run writes into a block that another sequence can see. */
  ghost predicate IsolatedRun(caches: seq<Cache>, ops: seq<Op>) {
    |caches| > |ops| && forall k :: 0 <= k < |ops| ==> Applicable(caches[k], ops[k]) && IsolatedOp(caches[k], ops[k])
  }

  lemma StepKeepsInv(c: Cache, hist: seq<seq<Kv>>, op: Op)
    requires Inv(c, hist) && Applicable(c, op) && IsolatedOp(c, op)
    ensures Inv(Step(c, op), Record(c, hist, op))
  {
    hide Append, Stores, Isolated;
    match op
    case CreateOp =>
      EntriesAppend(c.seqs, Sequence([], 0));
      CreateKeepsInv(c, hist);
    case ForkOp(parent) => ForkKeepsInv(c, hist, parent);
    case AppendOp(i, kv, cow) => AppendExact(c, hist, i, kv, cow);
  }

  lemma CreateKeepsInv(c: Cache, hist: seq<seq<Kv>>)
    requires Inv(c, hist)
    ensures Inv(c.(seqs := c.seqs + [Sequence([], 0)]), hist + [[]])
  {
    EntriesAppend(c.seqs, Sequence([], 0));
    forall i | 0 <= i < |c.seqs| + 1 ensures SequenceOk(c.pool, (c.seqs + [Sequence([], 0)])[i], (hist + [[]])[i]) {
      if i < |c.seqs| { assert SequenceOk(c.pool, c.seqs[i], hist[i]); }
    }
  }

  lemma NewPoolInv(numBlocks: nat, blockSize: nat)
    requires blockSize > 0
    ensures Inv(Cache(NewPool(numBlocks, blockSize), []), [])
  {
    var p := NewPool(numBlocks, blockSize);
    forall b | 0 <= b < numBlocks ensures b in p.free {
      assert p.free[b] == b;
    }
  }

  /** Over every run of create, fork and isolated appends, each sequence stores exactly its own branch's history,
      the counts equal the table entries and the free list is exactly the unreferenced blocks. */
  lemma {:induction false} RunInv(
      numBlocks: nat, blockSize: nat, caches: seq<Cache>, hists: seq<seq<seq<Kv>>>, ops: seq<Op>, k: nat)
    requires blockSize > 0 && IsRun(numBlocks, blockSize, caches, hists, ops)
    requires IsolatedRun(caches, ops) && k < |caches|
    ensures Inv(caches[k], hists[k])
  {
    hide Inv, Step, Record, Applicable, NewPool, IsolatedOp;
    if k == 0 {
      NewPoolInv(numBlocks, blockSize);
    } else {
      RunInv(numBlocks, blockSize, caches, hists, ops, k - 1);
      StepKeepsInv(caches[k - 1], hists[k - 1], ops[k - 1]);
    }
  }

  // ---------------------------------------------------------------------------------------------
  // Reading a sequence back
  // ---------------------------------------------------------------------------------------------

  /** What `iter_kv` yields for one token. */
  datatype Entry = Entry(block: nat, slot: nat, key: Vector, value: Vector)

  /** The first `take` slots of block `b`; nothing if one of them was never written. */
  function ReadSlots(p: Pool, b: nat, take: nat): Option<seq<Entry>>
    requires b < |p.blocks| && take <= |p.blocks[b].slots|
  {
    if take == 0 then Some([])
    else match ReadSlots(p, b, take - 1)
      case None => None
      case Some(es) =>
        match p.blocks[b].slots[take - 1]
        case None => None
        case Some(kv) => Some(es + [Entry(b, take - 1, kv.key, kv.value)])
  }

  predicate Readable(p: Pool, table: seq<nat>) {
    forall i :: 0 <= i < |table| ==> table[i] < |p.blocks| && p.blocks[table[i]].used <= |p.blocks[table[i]].slots|
  }

  /** `iter_kv`: block by block, never beyond the token count. */
  function Iterate(p: Pool, table: seq<nat>, remaining: nat): Option<seq<Entry>>
    requires Readable(p, table)
  {
    if table == [] then Some([])
    else
      var used := p.blocks[table[0]].used;
      var take := if used < remaining then used else remaining;
      match ReadSlots(p, table[0], take)
      case None => None
      case Some(es) =>
        if remaining - take == 0 then Some(es)
        else match Iterate(p, table[1..], remaining - take)
          case None => None
          case Some(rest) => Some(es + rest)
  }

  ghost predicate Yields(es: seq<Entry>, h: seq<Kv>) {
    |es| == |h| && forall k :: 0 <= k < |h| ==> es[k].key == h[k].key && es[k].value == h[k].value
  }

  lemma {:induction false} ReadSlotsYield(p: Pool, b: nat, part: seq<Kv>, take: nat)
    requires b < |p.blocks| && Holds(p.blocks[b], part) && take <= |part|
    ensures ReadSlots(p, b, take).Some? && Yields(ReadSlots(p, b, take).value, part[..take])
  {
    if take > 0 {
      ReadSlotsYield(p, b, part, take - 1);
      assert part[..take] == part[..take - 1] + [part[take - 1]];
    }
  }

  lemma NothingYields(h: seq<Kv>)
    requires h == []
    ensures Yields([], h)
  {
  }

  lemma YieldsJoin(a: seq<Entry>, b: seq<Entry>, h: seq<Kv>, n: nat)
    requires n <= |h| && Yields(a, h[..n]) && Yields(b, h[n..])
    ensures Yields(a + b, h)
  {
    assert forall k :: n <= k < |h| ==> h[n..][k - n] == h[k];
  }

  /** Iterating over a stored sequence yields its history, token by token and nothing beyond it. */
  lemma {:induction false} IterateYields(p: Pool, size: nat, table: seq<nat>, h: seq<Kv>)
    requires size > 0 && Stores(p.blocks, size, table, h) && Readable(p, table)
    ensures Iterate(p, table, |h|).Some? && Yields(Iterate(p, table, |h|).value, h)
  {
    hide ReadSlots, Yields;
    if |table| == 0 {
      NothingYields(h);
    } else if |table| == 1 {
      ReadSlotsYield(p, table[0], h, |h|);
      assert h[..|h|] == h;
    } else {
      ReadSlotsYield(p, table[0], h[..size], size);
      assert h[..size][..size] == h[..size];
      IterateYields(p, size, table[1..], h[size..]);
      YieldsJoin(ReadSlots(p, table[0], size).value, Iterate(p, table[1..], |h| - size).value, h, size);
    }
  }

  /** Two branches that share a half-filled block. */
  function SharedTail(x: Kv): Pool { Pool(2, [Block(2, 1, [Some(x), None])], []) }

  lemma SharedTailPool(x: Kv)
    ensures Shaped(SharedTail(x)) && FreeOk(SharedTail(x))
  {
    var p := SharedTail(x);
    assert |p.blocks| == 1 && p.blocks[0] == Block(2, 1, [Some(x), None]);
    assert |p.blocks[0].slots| == 2;
  }

  lemma SharedTailCounts(x: Kv, s: Sequence)
    requires s == Sequence([0], 1)
    ensures CountsOk(SharedTail(x), [s, s])
  {
    hide Entries;
    EntriesAppend([s], s);
    EntriesAppend([], s);
    NoEntries();
    assert [] + [s] == [s] && [s] + [s] == [s, s];
    assert multiset(s.table) == multiset{0};
  }

  lemma NoEntries()
    ensures Entries([]) == multiset{}
  {
  }

  lemma SharedTailStores(x: Kv, s: Sequence)
    requires s == Sequence([0], 1)
    ensures SequenceOk(SharedTail(x), s, [x])
  {
    var b := SharedTail(x).blocks[0];
    assert b.slots[0] == Some(x) && |b.slots| == 2;
    assert Holds(b, [x]);
  }

  lemma SharedTailIsSound(x: Kv)
    ensures Inv(Cache(SharedTail(x), [Sequence([0], 1), Sequence([0], 1)]), [[x], [x]])
  {
    var s := Sequence([0], 1);
    hide CountsOk, SequenceOk, Shaped, FreeOk;
    SharedTailPool(x);
    SharedTailCounts(x, s);
    SharedTailStores(x, s);
  }

  /** Without isolation two branches overwrite each other: after one plain append on each side, the first
      branch reads the token of the second. */
  lemma PlainAppendsCollide(x: Kv, y: Kv, z: Kv)
    requires y.key != z.key
    ensures var s := Sequence([0], 1);
            var a := Append(SharedTail(x), s, y, false);
            a.Some? && Shaped(a.value.0) && Placed(a.value.0, s)
            && var b := Append(a.value.0, s, z, false);
            b.Some? && Readable(b.value.0, a.value.1.table)
            && var r := Iterate(b.value.0, a.value.1.table, a.value.1.tokens);
            r.Some? && !Yields(r.value, [x, y]) && Yields(r.value, [x, z])
  {
    var s := Sequence([0], 1);
    var a := Append(SharedTail(x), s, y, false).value;
    assert a.0.blocks[0].slots == [Some(x), Some(y)];
    assert a.0.blocks == [Block(2, 2, [Some(x), Some(y)])];
    var b := Append(a.0, s, z, false).value;
    assert b.0.blocks[0].slots == [Some(x), Some(z)];
    assert b.0.blocks == [Block(2, 2, [Some(x), Some(z)])];
    assert Holds(b.0.blocks[0], [x, z]);
    IterateYields(b.0, 2, [0], [x, z]);
    var r := Iterate(b.0, [0], 2).value;
    assert r[1].key == [x, z][1].key;
    assert [x, y][1] == y;
  }

  // ---------------------------------------------------------------------------------------------
  // What sharing saves
  // ---------------------------------------------------------------------------------------------

  /** `token_storage_cost`: the written slots of all referenced blocks. */
  function StorageCost(blocks: seq<Block>): nat {
    if blocks == [] then 0
    else
      var b := blocks[|blocks| - 1];
      StorageCost(blocks[..|blocks| - 1]) + if b.refs > 0 then b.used else 0
  }

  /** Each reference beyond the first saves the block's written slots. */
  function SavedSlots(blocks: seq<Block>): int {
    if blocks == [] then 0
    else
      var b := blocks[|blocks| - 1];
      SavedSlots(blocks[..|blocks| - 1]) + if b.refs > 0 then (b.refs - 1) * b.used else 0
  }

  function TotalTokens(seqs: seq<Sequence>): nat {
    if seqs == [] then 0 else TotalTokens(seqs[..|seqs| - 1]) + seqs[|seqs| - 1].tokens
  }

  /** The saving that `04_prefix_cow.py` reports is what the counts say. */
  ghost predicate Balanced(c: Cache) {
    TotalTokens(c.seqs) - StorageCost(c.pool.blocks) == SavedSlots(c.pool.blocks)
  }

  /** The written slots of the blocks counted in `m`, with multiplicity. */
  ghost function Weight(blocks: seq<Block>, m: multiset<nat>): int {
    if blocks == [] then 0
    else Weight(blocks[..|blocks| - 1], m) + m[|blocks| - 1] * blocks[|blocks| - 1].used
  }

  lemma {:induction false} WeightAdds(blocks: seq<Block>, m: multiset<nat>, n: multiset<nat>)
    ensures Weight(blocks, m + n) == Weight(blocks, m) + Weight(blocks, n)
  {
    if blocks != [] {
      var last := |blocks| - 1;
      WeightAdds(blocks[..last], m, n);
      assert (m + n)[last] * blocks[last].used == m[last] * blocks[last].used + n[last] * blocks[last].used;
    }
  }

  lemma {:induction false} WeightOfOne(blocks: seq<Block>, b: nat)
    ensures Weight(blocks, multiset{b}) == if b < |blocks| then blocks[b].used as int else 0
  {
    if blocks != [] {
      WeightOfOne(blocks[..|blocks| - 1], b);
    }
  }

  lemma {:induction false} WeightOfNone(blocks: seq<Block>)
    ensures Weight(blocks, multiset{}) == 0
  {
    if blocks != [] {
      WeightOfNone(blocks[..|blocks| - 1]);
    }
  }

  lemma {:induction false} WeightOfTable(blocks: seq<Block>, size: nat, table: seq<nat>, h: seq<Kv>)
    requires Stores(blocks, size, table, h)
    ensures Weight(blocks, multiset(table)) == |h|
  {
    if table == [] {
      WeightOfNone(blocks);
    } else {
      assert table == [table[0]] + table[1..];
      assert multiset(table) == multiset{table[0]} + multiset(table[1..]);
      WeightAdds(blocks, multiset{table[0]}, multiset(table[1..]));
      WeightOfOne(blocks, table[0]);
      if |table| == 1 {
        WeightOfNone(blocks);
      } else {
        WeightOfTable(blocks, size, table[1..], h[size..]);
      }
    }
  }

  lemma {:induction false} WeightOfSequences(p: Pool, seqs: seq<Sequence>, hist: seq<seq<Kv>>)
    requires |seqs| == |hist| && forall i :: 0 <= i < |seqs| ==> SequenceOk(p, seqs[i], hist[i])
    ensures Weight(p.blocks, Entries(seqs)) == TotalTokens(seqs)
  {
    if seqs == [] {
      WeightOfNone(p.blocks);
    } else {
      var n := |seqs| - 1;
      WeightOfSequences(p, seqs[..n], hist[..n]);
      assert SequenceOk(p, seqs[n], hist[n]);
      WeightOfTable(p.blocks, p.blockSize, seqs[n].table, hist[n]);
      WeightAdds(p.blocks, Entries(seqs[..n]), multiset(seqs[n].table));
    }
  }

  lemma {:induction false} WeightSplits(blocks: seq<Block>, m: multiset<nat>)
    requires forall b :: 0 <= b < |blocks| ==> blocks[b].refs == m[b]
    ensures Weight(blocks, m) == StorageCost(blocks) + SavedSlots(blocks) && SavedSlots(blocks) >= 0
  {
    if blocks != [] {
      var last := |blocks| - 1;
      var b := blocks[last];
      assert forall k :: 0 <= k < last ==> blocks[..last][k] == blocks[k];
      WeightSplits(blocks[..last], m);
      OneAndTheRest(b.refs, b.used);
    }
  }

  lemma OneAndTheRest(refs: nat, used: nat)
    ensures if refs == 0 then refs * used == 0 else refs * used == used + (refs - 1) * used && (refs - 1) * used >= 0
  {
  }

  ghost function Row(b: nat, n: nat): set<(nat, nat)> { set j: nat | j < n :: (b, j) }

  lemma {:induction false} RowSize(b: nat, n: nat)
    ensures |Row(b, n)| == n
  {
    if n > 0 {
      RowSize(b, n - 1);
      assert Row(b, n) == Row(b, n - 1) + {(b, n - 1)};
    }
  }

  /** The written slots of all referenced blocks. */
  ghost function LiveSlots(blocks: seq<Block>): set<(nat, nat)> {
    set b: nat, j: nat | b < |blocks| && blocks[b].refs > 0 && j < blocks[b].used :: (b, j)
  }

  lemma {:induction false} StorageIsLiveSlots(blocks: seq<Block>)
    ensures StorageCost(blocks) == |LiveSlots(blocks)|
  {
    if blocks != [] {
      var n := |blocks| - 1;
      var b := blocks[n];
      StorageIsLiveSlots(blocks[..n]);
      RowSize(n, b.used);
      LastLiveSlots(blocks);
    }
  }

  lemma LastLiveSlots(blocks: seq<Block>)
    requires blocks != []
    ensures var n := |blocks| - 1;
            var first := LiveSlots(blocks[..n]);
            var last := if blocks[n].refs > 0 then Row(n, blocks[n].used) else {};
            LiveSlots(blocks) == first + last && |LiveSlots(blocks)| == |first| + |last|
  {
    var n := |blocks| - 1;
    var first := LiveSlots(blocks[..n]);
    var last := if blocks[n].refs > 0 then Row(n, blocks[n].used) else {};
    forall p | p in LiveSlots(blocks) ensures p in first + last {
      assert p.0 < n ==> p in first;
    }
    assert first !! last;
    assert LiveSlots(blocks) == first + last;
  }

  /** All tokens of all branches, by branch and position. */
  ghost function TokensOf(seqs: seq<Sequence>): set<(nat, nat)> {
    set i: nat, j: nat | i < |seqs| && j < seqs[i].tokens :: (i, j)
  }

  lemma {:induction false} TotalIsAllTokens(seqs: seq<Sequence>)
    ensures TotalTokens(seqs) == |TokensOf(seqs)|
  {
    if seqs != [] {
      var n := |seqs| - 1;
      TotalIsAllTokens(seqs[..n]);
      RowSize(n, seqs[n].tokens);
      assert TokensOf(seqs) == TokensOf(seqs[..n]) + Row(n, seqs[n].tokens);
    }
  }

  /** The reported saving is exact and never negative: unshared storage is what is stored plus what sharing saves. */
  lemma SavingIsExact(
      numBlocks: nat, blockSize: nat, caches: seq<Cache>, hists: seq<seq<seq<Kv>>>, ops: seq<Op>, k: nat)
    requires blockSize > 0 && IsRun(numBlocks, blockSize, caches, hists, ops)
    requires IsolatedRun(caches, ops) && k < |caches|
    ensures var c := caches[k];
            TotalTokens(c.seqs) - StorageCost(c.pool.blocks) == SavedSlots(c.pool.blocks) >= 0
    ensures StorageCost(caches[k].pool.blocks) == |LiveSlots(caches[k].pool.blocks)|
    ensures TotalTokens(caches[k].seqs) == |TokensOf(caches[k].seqs)|
  {
    hide LiveSlots, TokensOf;
    hide Step, Record, Applicable, IsolatedRun, Inv, StorageCost, SavedSlots, TotalTokens;
    RunInv(numBlocks, blockSize, caches, hists, ops, k);
    InvIsBalanced(caches[k], hists[k]);
    StorageIsLiveSlots(caches[k].pool.blocks);
    TotalIsAllTokens(caches[k].seqs);
  }
}
