/** The type-level lists of Typelist.hpp as list functions. */
module Typelist {
  import opened Sequences

  function FoldL<A, T>(xs: seq<T>, acc: A, op: (A, T) -> A): A {
    if xs == [] then acc else FoldL(xs[1..], op(acc, xs[0]), op)
  }

  function Map<T, U>(xs: seq<T>, f: T -> U): (r: seq<U>)
    ensures |r| == |xs| && forall i :: 0 <= i < |xs| ==> r[i] == f(xs[i])
  {
    if xs == [] then [] else [f(xs[0])] + Map(xs[1..], f)
  }

  /** `Filter` carries its output along. */
  function Filter<T>(xs: seq<T>, p: T -> bool, out: seq<T>): seq<T> {
    if xs == [] then out else Filter(xs[1..], p, if p(xs[0]) then out + [xs[0]] else out)
  }

  lemma {:induction false} FilterContents<T>(xs: seq<T>, p: T -> bool, out: seq<T>)
    ensures forall x :: x in Filter(xs, p, out) <==> x in out || (x in xs && p(x))
  {
    if xs != [] {
      FilterContents(xs[1..], p, if p(xs[0]) then out + [xs[0]] else out);
      assert xs == [xs[0]] + xs[1..];
    }
  }

  /** `Partition` by "smaller than `h`"; it carries both of its outputs along. */
  function Partition<T>(xs: seq<T>, cmp: (T, T) -> bool, h: T, satisfied: seq<T>, rest: seq<T>): (r: (seq<T>, seq<T>))
    ensures |r.0| + |r.1| == |xs| + |satisfied| + |rest|
  {
    if xs == [] then (satisfied, rest)
    else if cmp(xs[0], h) then Partition(xs[1..], cmp, h, satisfied + [xs[0]], rest)
    else Partition(xs[1..], cmp, h, satisfied, rest + [xs[0]])
  }

  lemma {:induction false} PartitionContents<T>(xs: seq<T>, cmp: (T, T) -> bool, h: T, satisfied: seq<T>, rest: seq<T>)
    ensures var r := Partition(xs, cmp, h, satisfied, rest);
            && multiset(r.0) + multiset(r.1) == multiset(xs) + multiset(satisfied) + multiset(rest)
            && (forall x :: x in r.0 <==> x in satisfied || (x in xs && cmp(x, h)))
            && (forall x :: x in r.1 <==> x in rest || (x in xs && !cmp(x, h)))
  {
    if xs != [] {
      assert xs == [xs[0]] + xs[1..];
      if cmp(xs[0], h) {
        PartitionContents(xs[1..], cmp, h, satisfied + [xs[0]], rest);
      } else {
        PartitionContents(xs[1..], cmp, h, satisfied, rest + [xs[0]]);
      }
    }
  }

  /** Quicksort with the head as pivot; `cmp(a, b)` puts `a` before `b`. */
  function Sort<T>(xs: seq<T>, cmp: (T, T) -> bool): seq<T>
    decreases |xs|
  {
    if xs == [] then []
    else
      var p := Partition(xs[1..], cmp, xs[0], [], []);
      Sort(p.0, cmp) + [xs[0]] + Sort(p.1, cmp)
  }

  /** `cmp` is transitive on the elements of `xs`; nothing says that it compares any two of them. */
  ghost predicate TransitiveOn<T(!new)>(xs: seq<T>, cmp: (T, T) -> bool) {
    forall a, b, c :: a in xs && b in xs && c in xs && cmp(a, b) && cmp(b, c) ==> cmp(a, c)
  }

  /** No element is preceded by one that should come after it. */
  ghost predicate Extends<T(!new)>(xs: seq<T>, cmp: (T, T) -> bool) {
    forall i, j :: 0 <= i < j < |xs| ==> !cmp(xs[j], xs[i])
  }

  lemma {:induction false} SortKeepsElements<T>(xs: seq<T>, cmp: (T, T) -> bool)
    ensures multiset(Sort(xs, cmp)) == multiset(xs)
    decreases |xs|
  {
    if xs != [] {
      var p := Partition(xs[1..], cmp, xs[0], [], []);
      var small, big := Sort(p.0, cmp), Sort(p.1, cmp);
      assert Sort(xs, cmp) == small + [xs[0]] + big;
      PartitionContents(xs[1..], cmp, xs[0], [], []);
      SortKeepsElements(p.0, cmp);
      SortKeepsElements(p.1, cmp);
      Joined(small, big, xs[0], p.0, p.1, xs);
    }
  }

  lemma Joined<T>(small: seq<T>, big: seq<T>, h: T, a: seq<T>, b: seq<T>, xs: seq<T>)
    requires xs != [] && xs[0] == h
    requires multiset(small) == multiset(a) && multiset(big) == multiset(b)
    requires multiset(a) + multiset(b) == multiset(xs[1..]) + multiset([]) + multiset([])
    ensures multiset(small + [h] + big) == multiset(xs)
  {
    assert multiset(small + [h] + big) == multiset{h} + (multiset(small) + multiset(big));
    assert multiset(small) + multiset(big) == multiset(xs[1..]);
    assert xs == [h] + xs[1..];
  }

  lemma SortMembers<T>(xs: seq<T>, cmp: (T, T) -> bool)
    ensures |Sort(xs, cmp)| == |xs| && forall x :: x in Sort(xs, cmp) <==> x in xs
  {
    hide Sort;
    SortKeepsElements(xs, cmp);
    assert |multiset(Sort(xs, cmp))| == |multiset(xs)|;
    forall x ensures x in Sort(xs, cmp) <==> x in xs {
      assert x in Sort(xs, cmp) <==> x in multiset(Sort(xs, cmp));
    }
  }

  /** Around a pivot: nothing in the second part may precede the pivot or anything that precedes the pivot. */
  lemma ExtendsAround<T(!new)>(s: seq<T>, h: T, r: seq<T>, cmp: (T, T) -> bool)
    requires Extends(s, cmp) && Extends(r, cmp) && !cmp(h, h)
    requires forall a, b :: a in s && b in r ==> !cmp(b, a)
    requires forall a :: a in s ==> !cmp(h, a)
    requires forall b :: b in r ==> !cmp(b, h)
    ensures Extends(s + [h] + r, cmp)
  {
    var out := s + [h] + r;
    forall i, j | 0 <= i < j < |out| ensures !cmp(out[j], out[i]) {
      if i < |s| { assert out[i] == s[i]; }
      if j > |s| { assert out[j] == r[j - |s| - 1]; }
      if i > |s| { assert out[i] == r[i - |s| - 1]; }
    }
  }

  /** The quicksort is a linear extension even of a comparator that is only a partial order: an element that
      should precede something smaller than the pivot is smaller than the pivot itself. */
  lemma {:induction false} SortExtends<T(!new)>(xs: seq<T>, cmp: (T, T) -> bool)
    requires TransitiveOn(xs, cmp) && forall x :: x in xs ==> !cmp(x, x)
    ensures Extends(Sort(xs, cmp), cmp)
    decreases |xs|
  {
    if xs != [] {
      var h := xs[0];
      var p := Partition(xs[1..], cmp, h, [], []);
      PartitionContents(xs[1..], cmp, h, [], []);
      assert forall x :: x in p.0 || x in p.1 ==> x in xs;
      SortExtends(p.0, cmp);
      SortExtends(p.1, cmp);
      SortMembers(p.0, cmp);
      SortMembers(p.1, cmp);
      assert h in xs;
      ExtendsAround(Sort(p.0, cmp), h, Sort(p.1, cmp), cmp);
    }
  }

  function Append<T(==)>(acc: seq<T>, e: T): seq<T> { if e in acc then acc else acc + [e] }

  /** `Unique` keeps the first occurrence of each element. */
  function Unique<T(==)>(xs: seq<T>): seq<T> { FoldL(xs, [], (acc, e) => Append(acc, e)) }

  lemma {:induction false} UniqueFold<T>(xs: seq<T>, acc: seq<T>)
    requires NoRepeats(acc)
    ensures var r := FoldL(xs, acc, (acc, e) => Append(acc, e));
            NoRepeats(r) && forall x :: x in r <==> x in acc || x in xs
  {
    if xs != [] {
      UniqueFold(xs[1..], Append(acc, xs[0]));
      assert xs == [xs[0]] + xs[1..];
    }
  }

  lemma UniqueContents<T>(xs: seq<T>)
    ensures NoRepeats(Unique(xs)) && forall x :: x in Unique(xs) <==> x in xs
  {
    UniqueFold(xs, []);
  }

  lemma {:induction false} FoldGrows<T>(xs: seq<T>, acc: seq<T>)
    ensures acc <= FoldL(xs, acc, (acc, e) => Append(acc, e))
  {
    if xs != [] {
      FoldGrows(xs[1..], Append(acc, xs[0]));
    }
  }

  lemma {:induction false} FoldOfPrefix<T>(xs: seq<T>, n: nat, acc: seq<T>)
    requires n <= |xs|
    ensures FoldL(xs[..n], acc, (acc, e) => Append(acc, e)) <= FoldL(xs, acc, (acc, e) => Append(acc, e))
    decreases n
  {
    if n == 0 {
      FoldGrows(xs, acc);
    } else {
      FoldOfPrefix(xs[1..], n - 1, Append(acc, xs[0]));
      assert xs[..n][1..] == xs[1..][..n - 1];
    }
  }

  /** What a prefix leaves comes first, so the elements keep the order of their first occurrences. */
  lemma UniqueKeepsOrder<T>(xs: seq<T>, n: nat)
    requires n <= |xs|
    ensures Unique(xs[..n]) <= Unique(xs)
  {
    FoldOfPrefix(xs, n, []);
  }
}
