/** The module executor of dag.cpp: depth-first, dependencies before the module itself. */
module DagExecutor {
  import opened Graphs
  import opened Sequences

  type Modules = map<string, seq<string>>

  /** An edge leads from a module to one of its dependencies. */
  ghost function Edges(modules: Modules): set<(string, string)> {
    set m, k | m in modules && 0 <= k < |modules[m]| :: (m, modules[m][k])
  }

  /** Every dependency is registered, so no lookup inserts a null module. */
  ghost predicate AllRegistered(modules: Modules) {
    forall m, k :: m in modules && 0 <= k < |modules[m]| ==> modules[m][k] in modules
  }

  /** Each logged module runs after all its dependencies. */
  ghost predicate DepsFirst(modules: Modules, log: seq<string>) {
    forall i, k :: 0 <= i < |log| && log[i] in modules && 0 <= k < |modules[log[i]]| ==> modules[log[i]][k] in log[..i]
  }

  /** The modules that are being executed: visited, but not logged yet. */
  ghost predicate OnStack(visited: set<string>, log: seq<string>, m: string) { m in visited && m !in log }

  ghost predicate SearchOk(modules: Modules, visited: set<string>, log: seq<string>) {
    && visited <= modules.Keys && NoRepeats(log) && (forall m :: m in log ==> m in visited)
    && (Acyclic(Edges(modules)) ==> DepsFirst(modules, log))
  }

  /** Everything being executed depends, directly or not, on `name`. */
  ghost predicate StackReaches(modules: Modules, visited: set<string>, log: seq<string>, name: string) {
    forall m :: OnStack(visited, log, m) ==> Reaches(Edges(modules), m, name)
  }

  lemma LogGrows(modules: Modules, log: seq<string>, name: string)
    requires DepsFirst(modules, log) && name in modules
    requires forall k :: 0 <= k < |modules[name]| ==> modules[name][k] in log
    ensures DepsFirst(modules, log + [name])
  {
    var log' := log + [name];
    forall i, k | 0 <= i < |log'| && log'[i] in modules && 0 <= k < |modules[log'[i]]|
      ensures modules[log'[i]][k] in log'[..i]
    {
      if i < |log| {
        assert log'[i] == log[i] && log'[..i] == log[..i];
      } else {
        assert log'[..i] == log;
      }
    }
  }

  /** A visited dependency of the module being executed is logged, unless there is a cycle. */
  lemma VisitedIsLogged(modules: Modules, visited: set<string>, log: seq<string>, name: string, dep: string)
    requires Acyclic(Edges(modules)) && (name, dep) in Edges(modules) && dep in visited
    requires forall m :: OnStack(visited, log, m) ==> m == name || Reaches(Edges(modules), m, name)
    ensures dep in log
  {
    EdgeReaches(Edges(modules), name, dep);
    if OnStack(visited, log, dep) && dep != name {
      ReachesTrans(Edges(modules), name, dep, name);
    }
    assert !Reaches(Edges(modules), name, name);
  }

  class Executor {
    var modules: Modules
    /** The modules run so far, in order. */
    var log: seq<string>

    constructor ()
      ensures modules == map[] && log == []
    {
      modules, log := map[], [];
    }

    /** A module added again under the same name replaces the first. */
    method AddModule(name: string, deps: seq<string>)
      modifies this
      ensures modules == old(modules)[name := deps] && log == old(log)
    {
      modules := modules[name := deps];
    }

    /** Runs the unvisited dependencies of `name`, then `name`. */
    method Execute(name: string, visited0: set<string>) returns (visited: set<string>)
      requires AllRegistered(modules) && SearchOk(modules, visited0, log) && name in modules && name !in visited0
      requires StackReaches(modules, visited0, log, name)
      modifies this`log
      ensures SearchOk(modules, visited, log) && visited0 + {name} <= visited && old(log) <= log
      ensures name in log && forall m :: OnStack(visited, log, m) <==> OnStack(visited0, old(log), m)
      decreases modules.Keys - visited0
    {
      hide Edges, DepsFirst, Acyclic;
      visited := visited0 + {name};
      for i := 0 to |modules[name]|
        invariant SearchOk(modules, visited, log) && visited0 + {name} <= visited && old(log) <= log
        invariant forall m :: OnStack(visited, log, m) <==> m == name || OnStack(visited0, old(log), m)
        invariant Acyclic(Edges(modules)) ==> forall k :: 0 <= k < i ==> modules[name][k] in log
      {
        var dep := modules[name][i];
        assert (name, dep) in Edges(modules) by { IsEdge(modules, name, i); }
        if dep !in visited {
          assert StackReaches(modules, visited, log, dep) by { ReachesDependency(modules, visited, log, name, dep); }
          visited := Execute(dep, visited);
        } else if Acyclic(Edges(modules)) {
          VisitedIsLogged(modules, visited, log, name, dep);
        }
      }
      assert OnStack(visited, log, name);
      if Acyclic(Edges(modules)) {
        LogGrows(modules, log, name);
      }
      log := log + [name];
    }

    /** Runs every module, whatever order `keys` the map is iterated in. */
    method ExecuteAll(keys: seq<string>)
      requires AllRegistered(modules) && log == [] && forall m :: m in keys <==> m in modules
      modifies this`log
      ensures NoRepeats(log) && forall m :: m in log <==> m in modules
      ensures DepsFirst(modules, log) <==> Acyclic(Edges(modules))
    {
      hide Edges, Acyclic;
      var visited: set<string> := {};
      for i := 0 to |keys|
        invariant SearchOk(modules, visited, log)
        invariant forall m :: !OnStack(visited, log, m)
        invariant forall k :: 0 <= k < i ==> keys[k] in visited
      {
        if keys[i] !in visited {
          visited := Execute(keys[i], visited);
        }
      }
      assert forall m :: m in modules ==> m in visited && !OnStack(visited, log, m);
      if DepsFirst(modules, log) {
        OrderedIsAcyclic(modules, log);
      }
    }
  }

  lemma IsEdge(modules: Modules, name: string, i: nat)
    requires name in modules && i < |modules[name]|
    ensures (name, modules[name][i]) in Edges(modules)
  {
  }

  lemma ReachesDependency(modules: Modules, visited: set<string>, log: seq<string>, name: string, dep: string)
    requires (name, dep) in Edges(modules)
    requires forall m :: OnStack(visited, log, m) ==> m == name || Reaches(Edges(modules), m, name)
    ensures StackReaches(modules, visited, log, dep)
  {
    forall m | OnStack(visited, log, m) ensures Reaches(Edges(modules), m, dep) {
      EdgeReaches(Edges(modules), name, dep);
      if m != name { ReachesTrans(Edges(modules), m, name, dep); }
    }
  }

  /** An order with all dependencies first exists only without cycles. */
  lemma OrderedIsAcyclic(modules: Modules, log: seq<string>)
    requires DepsFirst(modules, log) && NoRepeats(log) && forall m :: m in log <==> m in modules
    ensures Acyclic(Edges(modules))
  {
    var rank := (m: string) => if m in log then -(IndexOf(log, m) as int) else 1;
    forall u, v | (u, v) in Edges(modules) ensures rank(u) < rank(v) {
      var k :| u in modules && 0 <= k < |modules[u]| && modules[u][k] == v;
      var i := IndexOf(log, u);
      assert modules[log[i]][k] in log[..i];
      var j :| 0 <= j < i && log[..i][j] == v;
      assert log[j] == v && IndexOf(log, v) == j;
    }
    RankedIsAcyclic(Edges(modules), rank);
  }
}
