/** Elias-Fano coding of sorted blocks of 32-bit numbers, with a scalar and an eight-lane decoder. */
module EliasFano {
  import opened Arithmetic

  // ---------------------------------------------------------------------------------------------
  // Words and their operators
  // ---------------------------------------------------------------------------------------------

  type Word = x: nat | x < 0x1_0000_0000
  type Byte = x: nat | x < 0x100

  function Pow2(k: nat): (p: nat)
    ensures p >= 1
  {
    if k == 0 then 1 else 2 * Pow2(k - 1)
  }

  /** Bit by bit, as the machine does it. */
  function BitAnd(a: nat, b: nat): nat {
    if a == 0 || b == 0 then 0
    else 2 * BitAnd(a / 2, b / 2) + if a % 2 == 1 && b % 2 == 1 then 1 else 0
  }

  function BitOr(a: nat, b: nat): nat
    decreases a + b
  {
    if a == 0 then b else if b == 0 then a
    else 2 * BitOr(a / 2, b / 2) + if a % 2 == 1 || b % 2 == 1 then 1 else 0
  }

  function ShiftRight(v: Word, k: nat): Word {
    Divides(v, Pow2(k));
    v / Pow2(k)
  }

  function ShiftLeft(v: Word, k: nat): Word { v * Pow2(k) % 0x1_0000_0000 }

  /** Subtraction of 32-bit words wraps around. */
  function WordSub(a: Word, b: Word): Word { (a - b) % 0x1_0000_0000 }

  function ToWord(i: nat): Word { i % 0x1_0000_0000 }

  function Or(a: Word, b: Word): Word {
    Pow2Of32();
    OrBound(a, b, 32);
    BitOr(a, b)
  }

  function And(a: Word, b: Word): (r: Word)
    ensures r <= b
  {
    AndBound(a, b);
    BitAnd(a, b)
  }

  /** Bit `k` of `v`. */
  ghost predicate Bit(v: nat, k: nat) {
    if k == 0 then v % 2 == 1 else Bit(v / 2, k - 1)
  }

  lemma {:induction false} NoBits(k: nat)
    ensures !Bit(0, k)
  {
    if k > 0 {
      NoBits(k - 1);
    }
  }

  lemma TwiceAndOne(h: nat, one: bool)
    ensures var v := 2 * h + if one then 1 else 0; v / 2 == h && (v % 2 == 1 <==> one)
  {
  }

  lemma HalfAnd(a: nat, b: nat)
    requires a != 0 && b != 0
    ensures BitAnd(a, b) / 2 == BitAnd(a / 2, b / 2) && (BitAnd(a, b) % 2 == 1 <==> a % 2 == 1 && b % 2 == 1)
  {
    TwiceAndOne(BitAnd(a / 2, b / 2), a % 2 == 1 && b % 2 == 1);
  }

  lemma HalfOr(a: nat, b: nat)
    requires a != 0 && b != 0
    ensures BitOr(a, b) / 2 == BitOr(a / 2, b / 2) && (BitOr(a, b) % 2 == 1 <==> a % 2 == 1 || b % 2 == 1)
  {
    TwiceAndOne(BitOr(a / 2, b / 2), a % 2 == 1 || b % 2 == 1);
  }

  lemma {:induction false} BitsOfAnd(a: nat, b: nat, k: nat)
    ensures Bit(BitAnd(a, b), k) <==> Bit(a, k) && Bit(b, k)
    decreases k
  {
    if a == 0 || b == 0 {
      NoBits(k);
    } else {
      HalfAnd(a, b);
      if k > 0 {
        hide BitAnd;
        BitsOfAnd(a / 2, b / 2, k - 1);
      }
    }
  }

  lemma {:induction false} BitsOfOr(a: nat, b: nat, k: nat)
    ensures Bit(BitOr(a, b), k) <==> Bit(a, k) || Bit(b, k)
    decreases k
  {
    if a == 0 || b == 0 {
      NoBits(k);
    } else {
      HalfOr(a, b);
      if k > 0 {
        hide BitOr;
        BitsOfOr(a / 2, b / 2, k - 1);
      }
    }
  }

  lemma Divides(v: nat, p: nat)
    requires p >= 1
    ensures 0 <= v / p <= v
  {
    QuotientBounds(v, p);
    MulAtLeast(p, v / p);
  }

  lemma Pow2Of32()
    ensures Pow2(32) == 0x1_0000_0000
  {
    assert Pow2(8) == 0x100;
    assert Pow2(16) == 0x1_0000;
    assert Pow2(24) == 0x100_0000;
  }

  lemma {:induction false} Pow2Monotone(i: nat, j: nat)
    requires i <= j
    ensures Pow2(i) <= Pow2(j)
  {
    if i < j {
      Pow2Monotone(i, j - 1);
    }
  }

  lemma {:induction false} AndBound(a: nat, b: nat)
    ensures BitAnd(a, b) <= b
  {
    if a != 0 && b != 0 {
      AndBound(a / 2, b / 2);
    }
  }

  lemma {:induction false} OrBound(a: nat, b: nat, k: nat)
    requires a < Pow2(k) && b < Pow2(k)
    ensures BitOr(a, b) < Pow2(k)
    decreases k
  {
    if a != 0 && b != 0 {
      OrBound(a / 2, b / 2, k - 1);
    }
  }

  lemma HalfRemainder(v: nat, p: nat)
    requires p >= 1
    ensures v % (2 * p) == 2 * (v / 2 % p) + v % 2
  {
    var half := v / 2;
    var q := half / p;
    QuotientBounds(half, p);
    assert q * (2 * p) == 2 * (q * p);
    RemainderIs(v, 2 * p, q, 2 * (half % p) + v % 2);
  }

  /** Masking with `k` ones keeps the remainder by 2^k. */
  lemma {:induction false} MaskIsRemainder(v: nat, k: nat)
    ensures BitAnd(v, Pow2(k) - 1) == v % Pow2(k)
    decreases k
  {
    if k > 0 {
      var p, half := Pow2(k - 1), v / 2;
      MaskIsRemainder(half, k - 1);
      assert (Pow2(k) - 1) / 2 == p - 1;
      HalfRemainder(v, p);
    }
  }

  /** Over disjoint bits, or is addition. */
  lemma {:induction false} OrIsSum(h: nat, k: nat, low: nat)
    requires low < Pow2(k)
    ensures BitOr(h * Pow2(k), low) == h * Pow2(k) + low
    decreases k
  {
    if k > 0 {
      hide BitOr;
      var p := Pow2(k - 1);
      assert h * Pow2(k) == 2 * (h * p);
      OrIsSum(h, k - 1, low / 2);
      OrHalves(h * p, low);
    } else {
      assert h * Pow2(k) == h;
    }
  }

  lemma OrHalves(a: nat, b: nat)
    ensures BitOr(2 * a, b) == 2 * BitOr(a, b / 2) + b % 2
  {
    assert 2 * a / 2 == a && 2 * a % 2 == 0;
  }

  lemma MaskIsWord(k: nat)
    requires k < 32
    ensures 1 <= Pow2(k) < 0x1_0000_0000
  {
    Pow2Of32();
    Pow2Monotone(k, 31);
  }

  /** `k` ones. */
  function Mask(k: nat): Word
    requires k < 32
  {
    WordSub(ShiftLeft(1, k), 1)
  }

  lemma MaskIs(k: nat)
    requires k < 32
    ensures Mask(k) == Pow2(k) - 1
  {
    hide Pow2;
    MaskIsWord(k);
    assert ShiftLeft(1, k) == Pow2(k);
  }

  lemma HighPart(v: Word, k: nat)
    ensures ShiftRight(v, k) * Pow2(k) + v % Pow2(k) == v
    ensures 0 <= v % Pow2(k) < Pow2(k)
  {
    QuotientBounds(v, Pow2(k));
  }

  lemma LowPart(v: Word, k: nat)
    requires k < 32
    ensures And(v, Mask(k)) == v % Pow2(k)
  {
    MaskIs(k);
    MaskIsRemainder(v, k);
  }

  lemma ShiftBack(h: Word, k: nat)
    requires h * Pow2(k) < 0x1_0000_0000
    ensures ShiftLeft(h, k) == h * Pow2(k)
  {
  }

  /** The two parts of a word, put together again. */
  lemma SplitAndJoin(v: Word, k: nat)
    requires k < 32
    ensures Or(ShiftLeft(ShiftRight(v, k), k), And(v, Mask(k))) == v
  {
    hide ShiftLeft, ShiftRight, And, Mask;
    HighPart(v, k);
    LowPart(v, k);
    ShiftBack(ShiftRight(v, k), k);
    OrIsSum(ShiftRight(v, k), k, v % Pow2(k));
  }

  lemma ShiftRightMonotone(v: Word, w: Word, k: nat)
    requires v <= w
    ensures ShiftRight(v, k) <= ShiftRight(w, k)
  {
    hide ShiftRight;
    HighPart(v, k);
    HighPart(w, k);
    assert (ShiftRight(w, k) + 1) * Pow2(k) == ShiftRight(w, k) * Pow2(k) + Pow2(k);
    MulCancel(ShiftRight(v, k), ShiftRight(w, k) + 1, Pow2(k));
  }

  // ---------------------------------------------------------------------------------------------
  // The number of low bits
  // ---------------------------------------------------------------------------------------------

  /** The larger of 1 and the whole part of log2(u / n): a maximal exponent. */
  function LowBits(u: Word, n: nat): (l: nat)
    requires n > 0
    ensures 1 <= l < 32
  {
    LowBitsFrom(u, n, 1)
  }

  /** Beyond 1, the number of low bits reaches `k` exactly when 2^k is at most u / n. */
  lemma LowBitsIsFloorLog(u: Word, n: nat, k: nat)
    requires n > 0 && k > 1
    ensures k <= LowBits(u, n) <==> n * Pow2(k) <= u
  {
    hide Pow2, LowBitsFrom;
    var l := LowBits(u, n);
    if k <= l {
      Pow2Monotone(k, l);
      Scale(n, Pow2(k), Pow2(l));
    } else {
      Pow2Monotone(l + 1, k);
      Scale(n, Pow2(l + 1), Pow2(k));
    }
  }

  lemma Scale(n: nat, a: nat, b: nat)
    requires a <= b
    ensures n * a <= n * b
  {
  }

  function LowBitsFrom(u: Word, n: nat, k: nat): (l: nat)
    requires n > 0 && 1 <= k && (k == 1 || n * Pow2(k) <= u)
    ensures k <= l < 32
    ensures u < n * Pow2(l + 1)
    ensures l == 1 || n * Pow2(l) <= u
    decreases 32 - k
  {
    ExponentBelow32(u, n, k);
    if n * Pow2(k + 1) <= u then LowBitsFrom(u, n, k + 1) else k
  }

  lemma ExponentBelow32(u: Word, n: nat, k: nat)
    requires n > 0 && (k == 1 || n * Pow2(k) <= u)
    ensures k < 32
  {
    if k >= 32 {
      Pow2Of32();
      Pow2Monotone(32, k);
      MulAtLeast(n, Pow2(k));
    }
  }

  // ---------------------------------------------------------------------------------------------
  // The code of a block
  // ---------------------------------------------------------------------------------------------

  datatype EfBlock = EfBlock(lowBits: seq<Word>, highBits: seq<Byte>, L: nat)

  ghost predicate Sorted(s: seq<Word>) { forall i, j :: 0 <= i <= j < |s| ==> s[i] <= s[j] }

  /** Where the high part of element `i` is marked. */
  function Mark(block: seq<Word>, l: nat, i: nat): nat
    requires i < |block|
  {
    ShiftRight(block[i], l) + i
  }

  ghost predicate IsMark(block: seq<Word>, l: nat, n: nat, p: int) {
    exists i: nat :: i < n <= |block| && p == Mark(block, l, i)
  }

  /** `blk` is the code of `block`: the low parts in order, and a one exactly at each mark. */
  ghost predicate Encodes(blk: EfBlock, block: seq<Word>) {
    && block != [] && Sorted(block) && blk.L < 32
    && |blk.lowBits| == |block|
    && (forall i :: 0 <= i < |block| ==> blk.lowBits[i] == And(block[i], Mask(blk.L)))
    && |blk.highBits| == Mark(block, blk.L, |block| - 1) + 1
    && (forall p :: 0 <= p < |blk.highBits| ==> (blk.highBits[p] != 0 <==> IsMark(block, blk.L, |block|, p)))
  }

  lemma MarksIncrease(block: seq<Word>, l: nat, i: nat, j: nat)
    requires Sorted(block) && i < j < |block|
    ensures Mark(block, l, i) < Mark(block, l, j)
  {
    ShiftRightMonotone(block[i], block[j], l);
  }

  /** With the chosen number of low bits, the high bits stay below three per element. */
  lemma HighBitsAreFew(block: seq<Word>)
    requires block != []
    ensures Mark(block, LowBits(block[|block| - 1], |block|), |block| - 1) + 1 < 3 * |block|
  {
    var u, n := block[|block| - 1], |block|;
    LowBitsIsFloorLog(u, n, LowBits(u, n) + 1);
    FewHighs(u, n, LowBits(u, n));
  }

  lemma FewHighs(u: Word, n: nat, l: nat)
    requires u < n * Pow2(l + 1)
    ensures ShiftRight(u, l) < 2 * n
  {
    hide ShiftRight;
    HighPart(u, l);
    assert n * Pow2(l + 1) == 2 * n * Pow2(l);
    MulCancel(ShiftRight(u, l), 2 * n, Pow2(l));
  }

  method Encode(block: seq<Word>) returns (blk: EfBlock)
    requires block != [] && Sorted(block)
    ensures Encodes(blk, block)
    ensures blk.L == LowBits(block[|block| - 1], |block|)
    ensures |blk.highBits| < 3 * |block|
  {
    hide Mask, ShiftRight, And, IsMark;
    var n := |block|;
    var l := LowBits(block[n - 1], n);
    var mask := Mask(l);
    var low := new Word[n](_ => 0);
    var highs := new Word[n](_ => 0);
    for i := 0 to n
      invariant forall k :: 0 <= k < i ==> low[k] == And(block[k], mask) && highs[k] == ShiftRight(block[k], l)
    {
      low[i] := And(block[i], mask);
      highs[i] := ShiftRight(block[i], l);
    }
    NoMarkYet(block, l);
    var size := highs[n - 1] + n;
    var highBits := new Byte[size](_ => 0);
    for i := 0 to n
      invariant forall k :: 0 <= k < n ==> low[k] == And(block[k], mask) && highs[k] == ShiftRight(block[k], l)
      invariant forall p :: 0 <= p < size ==> (highBits[p] != 0 <==> IsMark(block, l, i, p))
    {
      if i < n - 1 {
        MarksIncrease(block, l, i, n - 1);
      }
      OneMoreMark(block, l, i);
      assert highs[i] + i == Mark(block, l, i);
      highBits[highs[i] + i] := 1;
      forall p | 0 <= p < size ensures highBits[p] != 0 <==> IsMark(block, l, i + 1, p) {
        assert IsMark(block, l, i + 1, p) <==> IsMark(block, l, i, p) || p == Mark(block, l, i);
      }
    }
    HighBitsAreFew(block);
    blk := EfBlock(low[..], highBits[..], l);
  }

  lemma NoMarkYet(block: seq<Word>, l: nat)
    ensures forall p :: !IsMark(block, l, 0, p)
  {
  }

  lemma OneMoreMark(block: seq<Word>, l: nat, n: nat)
    requires n < |block|
    ensures forall p :: IsMark(block, l, n + 1, p) <==> IsMark(block, l, n, p) || p == Mark(block, l, n)
  {
    forall p ensures IsMark(block, l, n + 1, p) <==> IsMark(block, l, n, p) || p == Mark(block, l, n) {
      if IsMark(block, l, n + 1, p) {
        var i: nat :| i < n + 1 <= |block| && p == Mark(block, l, i);
        assert i < n ==> IsMark(block, l, n, p);
      }
      if IsMark(block, l, n, p) {
        var i: nat :| i < n <= |block| && p == Mark(block, l, i);
        assert i < n + 1;
      }
      if p == Mark(block, l, n) {
        assert n < n + 1;
      }
    }
  }

  // ---------------------------------------------------------------------------------------------
  // What a decoder computes
  // ---------------------------------------------------------------------------------------------

  /** The positions of the ones, in order. */
  function Ones(bits: seq<Byte>): (r: seq<nat>) {
    if bits == [] then []
    else
      var m := |bits| - 1;
      if bits[m] != 0 then Ones(bits[..m]) + [m] else Ones(bits[..m])
  }

  lemma {:induction false} OnesPrefix(bits: seq<Byte>, i: nat)
    requires i <= |bits|
    ensures Ones(bits[..i]) <= Ones(bits)
    decreases |bits|
  {
    if i == |bits| {
      assert bits[..i] == bits;
    } else {
      var m := |bits| - 1;
      OnesPrefix(bits[..m], i);
      assert bits[..m][..i] == bits[..i];
    }
  }

  lemma OneMore(bits: seq<Byte>, i: nat)
    requires i < |bits|
    ensures Ones(bits[..i + 1]) == Ones(bits[..i]) + if bits[i] != 0 then [i] else []
  {
    assert bits[..i + 1][..i] == bits[..i];
  }

  lemma {:induction false} OnesAtLeast(bits: seq<Byte>, k: nat)
    requires k < |Ones(bits)|
    ensures k <= Ones(bits)[k] < |bits|
    decreases |bits|
  {
    var m := |bits| - 1;
    if k < |Ones(bits[..m])| {
      OnesAtLeast(bits[..m], k);
    } else if k > 0 {
      OnesAtLeast(bits[..m], k - 1);
    }
  }

  /** Element `k`: its high part is the number of zeros before its mark. */
  function Item(blk: EfBlock, k: nat): Word
    requires k < |blk.lowBits| && k < |Ones(blk.highBits)|
  {
    OnesAtLeast(blk.highBits, k);
    Or(ShiftLeft(ToWord(Ones(blk.highBits)[k] - k), blk.L), blk.lowBits[k])
  }

  function Decodable(blk: EfBlock): (n: nat) {
    if |Ones(blk.highBits)| < |blk.lowBits| then |Ones(blk.highBits)| else |blk.lowBits|
  }

  /** Everything that `blk` holds. */
  function Contents(blk: EfBlock): (out: seq<Word>)
    ensures |out| == Decodable(blk)
    ensures forall k :: 0 <= k < |out| ==> out[k] == Item(blk, k)
  {
    seq(Decodable(blk), k requires 0 <= k < Decodable(blk) => Item(blk, k))
  }

  /** The ones of a code are its marks. */
  lemma {:induction false} OnesAreMarks(blk: EfBlock, block: seq<Word>, p: nat) returns (c: nat)
    requires Encodes(blk, block) && p <= |blk.highBits|
    ensures c == |Ones(blk.highBits[..p])| <= |block|
    ensures forall k :: 0 <= k < c ==> Ones(blk.highBits[..p])[k] == Mark(block, blk.L, k) < p
    ensures forall k :: c <= k < |block| ==> p <= Mark(block, blk.L, k)
    decreases p
  {
    hide And, Mask, ShiftRight, Mark;
    if p == 0 {
      c := 0;
    } else {
      c := OnesAreMarks(blk, block, p - 1);
      OneMore(blk.highBits, p - 1);
      if blk.highBits[p - 1] != 0 {
        var i: nat :| i < |block| && p - 1 == Mark(block, blk.L, i);
        if c < i {
          MarksIncrease(block, blk.L, c, i);
        }
        forall k | i < k < |block| ensures p <= Mark(block, blk.L, k) {
          MarksIncrease(block, blk.L, i, k);
        }
        c := c + 1;
      } else if c < |block| {
        forall k | c < k < |block| ensures p <= Mark(block, blk.L, k) {
          MarksIncrease(block, blk.L, c, k);
        }
      }
    }
  }

  /** The code of a block holds that block. */
  lemma ContentsOfCode(blk: EfBlock, block: seq<Word>)
    requires Encodes(blk, block)
    ensures |Ones(blk.highBits)| == |block| && Contents(blk) == block
  {
    hide Item, Ones;
    var size := |blk.highBits|;
    var c := OnesAreMarks(blk, block, size);
    assert blk.highBits[..size] == blk.highBits;
    assert c == |block|;
    forall k | 0 <= k < |block| ensures Item(blk, k) == block[k] {
      ItemIs(blk, block, k);
    }
  }

  lemma ItemIs(blk: EfBlock, block: seq<Word>, k: nat)
    requires Encodes(blk, block) && k < |block| && k < |Ones(blk.highBits)|
    requires Ones(blk.highBits)[k] == Mark(block, blk.L, k)
    ensures Item(blk, k) == block[k]
  {
    hide Or, And, ShiftLeft, ShiftRight, Ones, Mask, IsMark;
    SplitAndJoin(block[k], blk.L);
  }

  // ---------------------------------------------------------------------------------------------
  // The decoders
  // ---------------------------------------------------------------------------------------------

  method DecodeScalar(blk: EfBlock) returns (out: seq<Word>)
    requires blk.L < 32
    ensures out == Contents(blk)
  {
    hide Or, ShiftLeft, Ones;
    var n := |blk.lowBits|;
    out := [];
    var count := 0;
    var i := 0;
    NoOnes();
    while i < |blk.highBits| && count < n
      invariant 0 <= i <= |blk.highBits| && count == |out| == |Ones(blk.highBits[..i])| <= n
      invariant Ones(blk.highBits[..i]) <= Ones(blk.highBits)
      invariant forall k :: 0 <= k < count ==> out[k] == Item(blk, k)
    {
      OneMore(blk.highBits, i);
      OnesPrefix(blk.highBits, i + 1);
      if blk.highBits[i] != 0 {
        assert Ones(blk.highBits[..i + 1])[count] == i;
        OnesAtLeast(blk.highBits, count);
        var highVal := ToWord(i - count);
        out := out + [Or(ShiftLeft(highVal, blk.L), blk.lowBits[count])];
        count := count + 1;
      }
      i := i + 1;
    }
    assert i == |blk.highBits| ==> blk.highBits[..i] == blk.highBits;
  }

  lemma NoOnes()
    ensures Ones([]) == []
  {
  }

  /** A vector register of eight words. */
  type Lanes = s: seq<Word> | |s| == 8 witness [0, 0, 0, 0, 0, 0, 0, 0]

  function SubLanes(a: Lanes, b: Lanes): Lanes { seq(8, i requires 0 <= i < 8 => WordSub(a[i], b[i])) }

  function ShiftLanes(a: Lanes, k: nat): Lanes { seq(8, i requires 0 <= i < 8 => ShiftLeft(a[i], k)) }

  function OrLanes(a: Lanes, b: Lanes): Lanes { seq(8, i requires 0 <= i < 8 => Or(a[i], b[i])) }

  method CollectPositions(bits: seq<Byte>) returns (positions: seq<Word>)
    ensures |positions| == |Ones(bits)|
    ensures forall k :: 0 <= k < |positions| ==> positions[k] == ToWord(Ones(bits)[k])
  {
    hide Ones;
    positions := [];
    NoOnes();
    for i := 0 to |bits|
      invariant |positions| == |Ones(bits[..i])|
      invariant forall k :: 0 <= k < |positions| ==> positions[k] == ToWord(Ones(bits[..i])[k])
    {
      OneMore(bits, i);
      if bits[i] != 0 {
        positions := positions + [ToWord(i)];
      }
    }
    assert bits[..|bits|] == bits;
  }

  /** Word subtraction gives the high part, whether or not the position itself fits a word. */
  lemma LaneIsItem(blk: EfBlock, k: nat)
    requires k < |blk.lowBits| && k < |Ones(blk.highBits)|
    ensures Item(blk, k)
            == Or(ShiftLeft(WordSub(ToWord(Ones(blk.highBits)[k]), ToWord(k)), blk.L), blk.lowBits[k])
  {
    hide Or, ShiftLeft, Ones, WordSub, ToWord;
    OnesAtLeast(blk.highBits, k);
    WrapsAlike(Ones(blk.highBits)[k], k);
  }

  lemma WrapsAlike(p: nat, k: nat)
    requires k <= p
    ensures WordSub(ToWord(p), ToWord(k)) == ToWord(p - k)
  {
    var w := 0x1_0000_0000;
    assert p == w * (p / w) + p % w && k == w * (k / w) + k % w;
  }

  /** One vector step: the items `k` to `k + 7`. */
  method DecodeLanes(blk: EfBlock, positions: seq<Word>, k: nat) returns (vals: Lanes)
    requires k + 8 <= |blk.lowBits| <= |positions| == |Ones(blk.highBits)|
    requires forall j :: 0 <= j < |positions| ==> positions[j] == ToWord(Ones(blk.highBits)[j])
    ensures forall i :: 0 <= i < 8 ==> vals[i] == Item(blk, k + i)
  {
    hide Or, ShiftLeft, Ones, WordSub, ToWord;
    var pos := positions[k..k + 8];
    var idx := new Word[8](_ => 0);
    for i := 0 to 8
      invariant forall j :: 0 <= j < i ==> idx[j] == ToWord(k + j)
    {
      idx[i] := ToWord(k + i);
    }
    var highs := SubLanes(pos, idx[..]);
    var lows := blk.lowBits[k..k + 8];
    var shifted := ShiftLanes(highs, blk.L);
    vals := OrLanes(shifted, lows);
    forall i | 0 <= i < 8 ensures vals[i] == Item(blk, k + i) {
      LaneIsItem(blk, k + i);
    }
  }

  /** Reads one position for each low part, so the block must have as many ones. */
  method DecodeSimd(blk: EfBlock) returns (out: seq<Word>)
    requires blk.L < 32 && |blk.lowBits| <= |Ones(blk.highBits)|
    ensures out == Contents(blk)
  {
    hide Or, ShiftLeft, Ones, WordSub, ToWord;
    var n := |blk.lowBits|;
    var result := new Word[n](_ => 0);
    var positions := CollectPositions(blk.highBits);
    var k := 0;
    while k + 8 <= n
      invariant 0 <= k <= n
      invariant forall j :: 0 <= j < k ==> result[j] == Item(blk, j)
    {
      var vals := DecodeLanes(blk, positions, k);
      forall i | 0 <= i < 8 {
        result[k + i] := vals[i];
      }
      forall j | k <= j < k + 8 ensures result[j] == Item(blk, j) {
        assert result[k + (j - k)] == vals[j - k];
      }
      k := k + 8;
    }
    while k < n
      invariant 0 <= k <= n
      invariant forall j :: 0 <= j < k ==> result[j] == Item(blk, j)
    {
      LaneIsItem(blk, k);
      var highVal := WordSub(positions[k], ToWord(k));
      result[k] := Or(ShiftLeft(highVal, blk.L), blk.lowBits[k]);
      k := k + 1;
    }
    out := result[..];
  }

  // ---------------------------------------------------------------------------------------------
  // Partitions
  // ---------------------------------------------------------------------------------------------

  /** `docs` cut every `b` elements. */
  function Pieces(docs: seq<Word>, b: nat): seq<seq<Word>>
    requires b > 0
  {
    if docs == [] then [] else if |docs| <= b then [docs] else [docs[..b]] + Pieces(docs[b..], b)
  }

  function Concat(pieces: seq<seq<Word>>): seq<Word> {
    if pieces == [] then [] else pieces[0] + Concat(pieces[1..])
  }

  /** `piece` is the run of `b` elements from `start`, or what is left of it at the end. */
  ghost predicate IsCut(docs: seq<Word>, start: int, b: nat, piece: seq<Word>) {
    0 <= start < |docs| && piece == docs[start..if |docs| < start + b then |docs| else start + b]
  }

  lemma CutLater(docs: seq<Word>, start: int, b: nat, piece: seq<Word>)
    requires 0 <= start && b < |docs|
    ensures IsCut(docs[b..], start, b, piece) <==> IsCut(docs, start + b, b, piece)
  {
  }

  /** Piece `i` is the `i`-th run of `b` elements, and there are as many pieces as runs. */
  lemma {:induction false} PiecesAreCuts(docs: seq<Word>, b: nat, i: nat)
    requires b > 0
    ensures i < |Pieces(docs, b)| <==> i * b < |docs|
    ensures i < |Pieces(docs, b)| ==> IsCut(docs, i * b, b, Pieces(docs, b)[i])
    decreases i
  {
    var pieces := Pieces(docs, b);
    if i > 0 {
      hide IsCut;
      MulMonotone(i - 1, i, b);
      MulMonotone(0, i - 1, b);
      if |docs| > b {
        PiecesAreCuts(docs[b..], b, i - 1);
        if i < |pieces| {
          CutLater(docs, (i - 1) * b, b, pieces[i]);
        }
      }
    }
  }

  lemma {:induction false} ConcatPieces(docs: seq<Word>, b: nat)
    requires b > 0
    ensures Concat(Pieces(docs, b)) == docs
  {
    if |docs| > b {
      ConcatPieces(docs[b..], b);
      assert docs == docs[..b] + docs[b..];
    }
  }

  lemma {:induction false} ConcatOneMore(pieces: seq<seq<Word>>, last: seq<Word>)
    ensures Concat(pieces + [last]) == Concat(pieces) + last
  {
    if pieces != [] {
      assert (pieces + [last])[1..] == pieces[1..] + [last];
      ConcatOneMore(pieces[1..], last);
    }
  }

  /** `blocks` code the `pieces`, each with fewer than three high bits per element. */
  ghost predicate Partitions(blocks: seq<EfBlock>, pieces: seq<seq<Word>>) {
    |blocks| == |pieces|
    && forall i :: 0 <= i < |pieces| ==> Encodes(blocks[i], pieces[i]) && |blocks[i].highBits| < 3 * |pieces[i]|
  }

  lemma FirstPiece(docs: seq<Word>, i: nat, b: nat)
    requires b > 0 && i < |docs|
    ensures var end := if |docs| < i + b then |docs| else i + b;
            Pieces(Rest(docs, i), b) == [docs[i..end]] + Pieces(Rest(docs, i + b), b)
  {
    var rest := docs[i..];
    if |rest| > b {
      assert rest[..b] == docs[i..i + b] && rest[b..] == docs[i + b..];
    } else {
      assert rest == docs[i..|docs|] && Pieces([], b) == [];
    }
  }

  ghost function Rest(docs: seq<Word>, i: nat): seq<Word> { if i < |docs| then docs[i..] else [] }

  lemma SortedSlice(docs: seq<Word>, i: nat, end: nat)
    requires Sorted(docs) && i <= end <= |docs|
    ensures Sorted(docs[i..end])
  {
  }

  /** The blocks so far code the pieces before position `i`. */
  ghost predicate Progress(blocks: seq<EfBlock>, docs: seq<Word>, i: nat, b: nat)
    requires b > 0
  {
    var all, n := Pieces(docs, b), |blocks|;
    n <= |all| && Partitions(blocks, all[..n]) && all[n..] == Pieces(Rest(docs, i), b)
  }

  lemma ProgressStarts(docs: seq<Word>, b: nat)
    requires b > 0
    ensures Progress([], docs, 0, b)
  {
    assert Rest(docs, 0) == docs;
  }

  lemma ProgressStep(blocks: seq<EfBlock>, docs: seq<Word>, i: nat, b: nat, blk: EfBlock, block: seq<Word>)
    requires b > 0 && i < |docs| && Progress(blocks, docs, i, b)
    requires block == docs[i..if |docs| < i + b then |docs| else i + b]
    requires Encodes(blk, block) && |blk.highBits| < 3 * |block|
    ensures Progress(blocks + [blk], docs, i + b, b)
  {
    hide Encodes, Pieces, Rest;
    FirstPiece(docs, i, b);
    var all, n := Pieces(docs, b), |blocks|;
    assert all[n] == all[n..][0] == block;
    assert all[n + 1..] == all[n..][1..] == Pieces(Rest(docs, i + b), b);
    assert all[..n + 1] == all[..n] + [block];
  }

  lemma ProgressEnds(blocks: seq<EfBlock>, docs: seq<Word>, i: nat, b: nat)
    requires b > 0 && |docs| <= i && Progress(blocks, docs, i, b)
    ensures Partitions(blocks, Pieces(docs, b))
  {
    var all := Pieces(docs, b);
    assert all[..|blocks|] == all;
  }

  method EncodePartitions(docs: seq<Word>, b: nat) returns (blocks: seq<EfBlock>)
    requires b > 0 && Sorted(docs)
    ensures Partitions(blocks, Pieces(docs, b))
  {
    hide Encodes, Sorted, Progress, Partitions, Pieces, LowBits;
    blocks := [];
    var i := 0;
    ProgressStarts(docs, b);
    while i < |docs|
      invariant Progress(blocks, docs, i, b)
      decreases |docs| - i
    {
      var end := if |docs| < i + b then |docs| else i + b;
      var block := docs[i..end];
      SortedSlice(docs, i, end);
      var blk := Encode(block);
      ProgressStep(blocks, docs, i, b, blk, block);
      blocks := blocks + [blk];
      i := i + b;
    }
    ProgressEnds(blocks, docs, i, b);
  }

  method DecodePartitions(blocks: seq<EfBlock>, ghost pieces: seq<seq<Word>>) returns (out: seq<Word>)
    requires Partitions(blocks, pieces)
    ensures out == Concat(pieces)
  {
    out := [];
    for i := 0 to |blocks|
      invariant out == Concat(pieces[..i])
    {
      ContentsOfCode(blocks[i], pieces[i]);
      var part := DecodeSimd(blocks[i]);
      assert pieces[..i + 1] == pieces[..i] + [pieces[i]];
      ConcatOneMore(pieces[..i], pieces[i]);
      out := out + part;
    }
    assert pieces[..|blocks|] == pieces;
  }

  /** Partitioned coding and decoding gives the sorted list back, whatever the size of a partition. */
  method EncodeAndDecode(docs: seq<Word>, b: nat) returns (blocks: seq<EfBlock>, out: seq<Word>)
    requires b > 0 && Sorted(docs)
    ensures Partitions(blocks, Pieces(docs, b)) && out == docs
  {
    blocks := EncodePartitions(docs, b);
    out := DecodePartitions(blocks, Pieces(docs, b));
    ConcatPieces(docs, b);
  }
}
