/** Finite directed graphs as sets of edges: paths, cycles, and what a rank or a missing source says about them. */
module Graphs {

  /** `p` visits at least one vertex and follows an edge at every step. */
  ghost predicate IsPath<V(!new)>(edges: set<(V, V)>, p: seq<V>) {
    |p| >= 1 && forall i :: 0 <= i < |p| - 1 ==> (p[i], p[i + 1]) in edges
  }

  ghost predicate IsPathBetween<V(!new)>(edges: set<(V, V)>, p: seq<V>, u: V, v: V) {
    IsPath(edges, p) && |p| >= 2 && p[0] == u && p[|p| - 1] == v
  }

  /** One or more edges lead from `u` to `v`. */
  ghost predicate Reaches<V(!new)>(edges: set<(V, V)>, u: V, v: V) {
    exists p :: IsPathBetween(edges, p, u, v)
  }

  ghost predicate Acyclic<V(!new)>(edges: set<(V, V)>) {
    forall v :: !Reaches(edges, v, v)
  }

  lemma EdgeReaches<V(!new)>(edges: set<(V, V)>, u: V, v: V)
    requires (u, v) in edges
    ensures Reaches(edges, u, v)
  {
    assert IsPathBetween(edges, [u, v], u, v);
  }

  lemma ReachesTrans<V(!new)>(edges: set<(V, V)>, u: V, v: V, w: V)
    requires Reaches(edges, u, v) && Reaches(edges, v, w)
    ensures Reaches(edges, u, w)
  {
    var p :| IsPathBetween(edges, p, u, v);
    var q :| IsPathBetween(edges, q, v, w);
    var r := p + q[1..];
    forall i | 0 <= i < |r| - 1 ensures (r[i], r[i + 1]) in edges {
      if i >= |p| - 1 {
        assert r[i] == q[i - |p| + 1] && r[i + 1] == q[i - |p| + 2];
      }
    }
    assert IsPathBetween(edges, r, u, w);
  }

  /** A rank that grows along every edge rules out cycles. */
  lemma RankedIsAcyclic<V(!new)>(edges: set<(V, V)>, rank: V -> int)
    requires forall u, v :: (u, v) in edges ==> rank(u) < rank(v)
    ensures forall u, v :: Reaches(edges, u, v) ==> rank(u) < rank(v)
    ensures Acyclic(edges)
  {
    forall u, v | Reaches(edges, u, v) ensures rank(u) < rank(v) {
      var p :| IsPathBetween(edges, p, u, v);
      RankGrows(edges, rank, p, |p| - 1);
    }
  }

  lemma {:induction false} RankGrows<V(!new)>(edges: set<(V, V)>, rank: V -> int, p: seq<V>, k: nat)
    requires forall u, v :: (u, v) in edges ==> rank(u) < rank(v)
    requires IsPath(edges, p) && 1 <= k < |p|
    ensures rank(p[0]) < rank(p[k])
  {
    assert (p[k - 1], p[k - 1 + 1]) in edges;
    if k > 1 {
      RankGrows(edges, rank, p, k - 1);
    }
  }

  /** The numbers from 0 up to `n`. */
  function Below(n: nat): (s: set<nat>)
    ensures |s| == n && forall i: nat :: i in s <==> i < n
  {
    if n == 0 then {} else Below(n - 1) + {n - 1}
  }

  lemma {:induction false} Pigeonhole<V(!new)>(p: seq<V>, s: set<V>)
    requires |p| > |s| && forall i :: 0 <= i < |p| ==> p[i] in s
    ensures exists i, j :: 0 <= i < j < |p| && p[i] == p[j]
  {
    var last := p[|p| - 1];
    var rest := p[..|p| - 1];
    if last in rest {
      var i :| 0 <= i < |rest| && rest[i] == last;
      assert 0 <= i < |p| - 1 < |p| && p[i] == p[|p| - 1];
    } else {
      assert s == (s - {last}) + {last};
      Pigeonhole(rest, s - {last});
      var i, j :| 0 <= i < j < |rest| && rest[i] == rest[j];
      assert p[i] == p[j];
    }
  }

  ghost predicate HasPredecessor<V(!new)>(edges: set<(V, V)>, s: set<V>, v: V) {
    exists u :: u in s && (u, v) in edges
  }

  /** Every vertex of `s` has a predecessor in `s`. */
  ghost predicate NoSource<V(!new)>(edges: set<(V, V)>, s: set<V>) {
    forall v :: v in s ==> HasPredecessor(edges, s, v)
  }

  lemma Predecessor<V(!new)>(edges: set<(V, V)>, s: set<V>, v: V) returns (u: V)
    requires NoSource(edges, s) && v in s
    ensures u in s && (u, v) in edges
  {
    assert HasPredecessor(edges, s, v);
    u :| u in s && (u, v) in edges;
  }

  lemma Prepend<V(!new)>(edges: set<(V, V)>, u: V, p: seq<V>)
    requires IsPath(edges, p) && (u, p[0]) in edges
    ensures IsPath(edges, [u] + p)
  {
    var q := [u] + p;
    forall i | 0 <= i < |q| - 1 ensures (q[i], q[i + 1]) in edges {
      if i > 0 {
        assert (p[i - 1], p[i - 1 + 1]) in edges;
      }
    }
  }

  lemma Append<V(!new)>(edges: set<(V, V)>, p: seq<V>, v: V)
    requires IsPath(edges, p) && (p[|p| - 1], v) in edges
    ensures IsPath(edges, p + [v])
  {
    var q := p + [v];
    forall i | 0 <= i < |q| - 1 ensures (q[i], q[i + 1]) in edges {
      if i < |p| - 1 {
        assert (p[i], p[i + 1]) in edges;
      }
    }
  }

  lemma Subpath<V(!new)>(edges: set<(V, V)>, p: seq<V>, i: nat, j: nat)
    requires IsPath(edges, p) && i < j <= |p|
    ensures IsPath(edges, p[i..j])
  {
    var q := p[i..j];
    forall k | 0 <= k < |q| - 1 ensures (q[k], q[k + 1]) in edges {
      assert (p[i + k], p[i + k + 1]) in edges;
    }
  }

  lemma {:induction false} LongPath<V(!new)>(edges: set<(V, V)>, s: set<V>, n: nat) returns (p: seq<V>)
    requires s != {} && NoSource(edges, s) && n >= 1
    ensures |p| == n && IsPath(edges, p) && forall i :: 0 <= i < n ==> p[i] in s
  {
    hide NoSource;
    if n == 1 {
      var v :| v in s;
      p := [v];
    } else {
      var q := LongPath(edges, s, n - 1);
      var u := Predecessor(edges, s, q[0]);
      p := [u] + q;
      Prepend(edges, u, q);
    }
  }

  /** A nonempty set of vertices without a source contains a cycle. */
  lemma NoSourceIsCyclic<V(!new)>(edges: set<(V, V)>, s: set<V>)
    requires s != {} && NoSource(edges, s)
    ensures !Acyclic(edges)
  {
    hide NoSource;
    var p := LongPath(edges, s, |s| + 1);
    Pigeonhole(p, s);
    var i, j :| 0 <= i < j < |p| && p[i] == p[j];
    Subpath(edges, p, i, j + 1);
    assert IsPathBetween(edges, p[i..j + 1], p[i], p[i]);
    assert Reaches(edges, p[i], p[i]);
  }

  /** Every path starts with an edge. */
  lemma FirstStep<V(!new)>(edges: set<(V, V)>, u: V, v: V) returns (w: V)
    requires Reaches(edges, u, v)
    ensures (u, w) in edges && (w == v || Reaches(edges, w, v))
  {
    var p :| IsPathBetween(edges, p, u, v);
    w := p[1];
    assert (p[0], p[0 + 1]) in edges;
    if |p| > 2 {
      Subpath(edges, p, 1, |p|);
      assert IsPathBetween(edges, p[1..|p|], w, v);
    }
  }

  /** Every path ends with an edge. */
  lemma LastStep<V(!new)>(edges: set<(V, V)>, u: V, v: V) returns (w: V)
    requires Reaches(edges, u, v)
    ensures (w, v) in edges && (w == u || Reaches(edges, u, w))
  {
    var p :| IsPathBetween(edges, p, u, v);
    var n := |p| - 2;
    w := p[n];
    assert (p[n], p[n + 1]) in edges;
    if |p| > 2 {
      Subpath(edges, p, 0, |p| - 1);
      assert IsPathBetween(edges, p[0..|p| - 1], u, w);
    }
  }

  ghost function Targets<V>(edges: set<(V, V)>): set<V> { set e | e in edges :: e.1 }

  /** Everything that `u` reaches. */
  ghost function Reach<V(!new)>(edges: set<(V, V)>, u: V): set<V> {
    set v | v in Targets(edges) && Reaches(edges, u, v)
  }

  lemma InReach<V(!new)>(edges: set<(V, V)>, u: V, v: V)
    ensures v in Reach(edges, u) <==> Reaches(edges, u, v)
  {
    if Reaches(edges, u, v) {
      var w := LastStep(edges, u, v);
      assert (w, v).1 in Targets(edges);
    }
  }

  /** Without cycles, a successor reaches strictly less. */
  lemma ReachShrinks<V(!new)>(edges: set<(V, V)>, u: V, v: V)
    requires Acyclic(edges) && (u, v) in edges
    ensures Reach(edges, v) < Reach(edges, u) && |Reach(edges, v)| < |Reach(edges, u)|
  {
    EdgeReaches(edges, u, v);
    InReach(edges, u, v);
    InReach(edges, v, v);
    forall x | x in Reach(edges, v) ensures x in Reach(edges, u) {
      InReach(edges, v, x);
      ReachesTrans(edges, u, v, x);
      InReach(edges, u, x);
    }
    Smaller(Reach(edges, v), Reach(edges, u), v);
  }

  lemma Smaller<V>(a: set<V>, b: set<V>, x: V)
    requires a <= b && x in b && x !in a
    ensures |a| < |b|
  {
    assert b == a + (b - a) && x in b - a;
  }
}
