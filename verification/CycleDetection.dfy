/** `DAG::isCyclic`: depth-first search with a recursion stack. */
module CycleDetection {
  import opened Graphs
  import opened Sequences

  /** All successors are vertices. */
  ghost predicate InRange(adj: seq<seq<nat>>) {
    forall v, k :: 0 <= v < |adj| && 0 <= k < |adj[v]| ==> adj[v][k] < |adj|
  }

  ghost function Edges(adj: seq<seq<nat>>): set<(nat, nat)> {
    set v, k | 0 <= v < |adj| && 0 <= k < |adj[v]| :: (v, adj[v][k])
  }

  /** Every finished vertex finished after all its successors. */
  ghost predicate SuccessorsFirst(adj: seq<seq<nat>>, done: seq<nat>) {
    forall i, k :: 0 <= i < |done| && done[i] < |adj| && 0 <= k < |adj[done[i]]| ==> adj[done[i]][k] in done[..i]
  }

  lemma DoneGrows(adj: seq<seq<nat>>, done: seq<nat>, v: nat)
    requires SuccessorsFirst(adj, done) && v < |adj| && forall k :: 0 <= k < |adj[v]| ==> adj[v][k] in done
    ensures SuccessorsFirst(adj, done + [v])
  {
    var done' := done + [v];
    forall i, k | 0 <= i < |done'| && done'[i] < |adj| && 0 <= k < |adj[done'[i]]|
      ensures adj[done'[i]][k] in done'[..i]
    {
      if i < |done| {
        assert done'[i] == done[i] && done'[..i] == done[..i];
      } else {
        assert done'[..i] == done;
      }
    }
  }

  lemma FinishedIsAcyclic(adj: seq<seq<nat>>, done: seq<nat>)
    requires SuccessorsFirst(adj, done) && NoRepeats(done) && forall v :: 0 <= v < |adj| ==> v in done
    ensures Acyclic(Edges(adj))
  {
    var rank := (v: nat) => if v in done then -(IndexOf(done, v) as int) else 1;
    forall u, v | (u, v) in Edges(adj) ensures rank(u) < rank(v) {
      var k :| 0 <= k < |adj[u]| && adj[u][k] == v;
      var i := IndexOf(done, u);
      assert adj[done[i]][k] in done[..i];
      var j :| 0 <= j < i && done[..i][j] == v;
      assert done[j] == v && IndexOf(done, v) == j;
    }
    RankedIsAcyclic(Edges(adj), rank);
  }

  class Dag {
    const adj: seq<seq<nat>>
    /** The vertices on which `isCyclicUtil` was called, and those it has finished, in order. */
    ghost var expanded: seq<nat>
    ghost var done: seq<nat>

    constructor (adj: seq<seq<nat>>)
      ensures this.adj == adj
    {
      this.adj := adj;
      expanded, done := [], [];
    }

    /** A vertex is visited once it is expanded, and on the stack until it is done. */
    ghost predicate Searching(visited: array<bool>, stack: array<bool>)
      reads this, visited, stack
    {
      && visited != stack && visited.Length == stack.Length == |adj|
      && NoRepeats(expanded) && NoRepeats(done) && SuccessorsFirst(adj, done)
      && (forall v :: v in expanded ==> 0 <= v < |adj|) && (forall v :: v in done ==> v in expanded)
      && (forall v :: 0 <= v < |adj| ==> (visited[v] <==> v in expanded))
      && forall v :: 0 <= v < |adj| ==> (stack[v] <==> v in expanded && v !in done)
    }

    ghost function Unvisited(visited: array<bool>): set<nat>
      reads visited
    {
      set v: nat | v < visited.Length && !visited[v]
    }

    method IsCyclicUtil(vertex: nat, visited: array<bool>, stack: array<bool>) returns (cyclic: bool)
      requires InRange(adj) && vertex < |adj| && Searching(visited, stack) && !visited[vertex]
      requires forall u: nat :: u < |adj| && stack[u] ==> Reaches(Edges(adj), u, vertex)
      modifies visited, stack, this`expanded, this`done
      ensures NoRepeats(expanded)
      ensures cyclic ==> !Acyclic(Edges(adj))
      ensures !cyclic ==> Searching(visited, stack) && visited[vertex]
      ensures !cyclic ==> forall u :: 0 <= u < |adj| ==> stack[u] == old(stack[u]) && (old(visited[u]) ==> visited[u])
      decreases Unvisited(visited)
    {
      hide Edges, SuccessorsFirst, NoRepeats, Acyclic;
      ghost var start := Unvisited(visited);
      ExpandOnce(expanded, vertex);
      visited[vertex] := true;
      stack[vertex] := true;
      expanded := expanded + [vertex];
      for i := 0 to |adj[vertex]|
        invariant Searching(visited, stack) && visited[vertex] && stack[vertex] && vertex !in done
        invariant forall u :: 0 <= u < |adj| && u != vertex ==> stack[u] == old(stack[u])
        invariant forall u :: 0 <= u < |adj| && old(visited[u]) ==> visited[u]
        invariant forall k :: 0 <= k < i ==> adj[vertex][k] in done
      {
        var next := adj[vertex][i];
        IsEdge(adj, vertex, i);
        EdgeReaches(Edges(adj), vertex, next);
        if !visited[next] {
          forall u: nat | u < |adj| && stack[u] ensures Reaches(Edges(adj), u, next) {
            if u != vertex { ReachesTrans(Edges(adj), u, vertex, next); }
          }
          assert Unvisited(visited) < start by { assert vertex in start && vertex !in Unvisited(visited); }
          var found := IsCyclicUtil(next, visited, stack);
          if found {
            return true;
          }
        } else if stack[next] {
          assert next == vertex || Reaches(Edges(adj), next, vertex);
          StackEdgeIsCycle(adj, vertex, next);
          return true;
        }
      }
      stack[vertex] := false;
      DoneGrows(adj, done, vertex);
      ExpandOnce(done, vertex);
      done := done + [vertex];
      return false;
    }

    /** True exactly when the graph has a directed cycle; no vertex is expanded twice. */
    method IsCyclic() returns (cyclic: bool)
      requires InRange(adj)
      modifies this`expanded, this`done
      ensures cyclic <==> !Acyclic(Edges(adj))
      ensures NoRepeats(expanded)
    {
      hide Edges, SuccessorsFirst, Acyclic;
      var visited := new bool[|adj|](_ => false);
      var stack := new bool[|adj|](_ => false);
      expanded, done := [], [];
      assert SuccessorsFirst(adj, done) by { NothingDone(adj); }
      for i := 0 to |adj|
        invariant fresh(visited) && fresh(stack) && Searching(visited, stack)
        invariant forall v :: 0 <= v < |adj| ==> !stack[v]
        invariant forall v :: 0 <= v < i ==> visited[v]
      {
        if !visited[i] {
          var found := IsCyclicUtil(i, visited, stack);
          if found {
            return true;
          }
        }
      }
      FinishedIsAcyclic(adj, done);
      return false;
    }
  }

  lemma NothingDone(adj: seq<seq<nat>>)
    ensures SuccessorsFirst(adj, [])
  {
  }

  lemma ExpandOnce(log: seq<nat>, v: nat)
    requires NoRepeats(log) && v !in log
    ensures NoRepeats(log + [v])
  {
  }

  lemma IsEdge(adj: seq<seq<nat>>, v: nat, i: nat)
    requires v < |adj| && i < |adj[v]|
    ensures (v, adj[v][i]) in Edges(adj)
  {
  }

  /** An edge back to the stack closes a cycle. */
  lemma StackEdgeIsCycle(adj: seq<seq<nat>>, v: nat, w: nat)
    requires Reaches(Edges(adj), v, w) && (w == v || Reaches(Edges(adj), w, v))
    ensures !Acyclic(Edges(adj))
  {
    if w != v { ReachesTrans(Edges(adj), v, w, v); }
    assert Reaches(Edges(adj), v, v);
  }
}
