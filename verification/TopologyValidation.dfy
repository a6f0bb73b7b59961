/** The checks that `add_topology` makes on the elements before it publishes a topology. */
module TopologyValidation {
  import opened Graphs
  import opened TopologySort

  datatype Verdict =
    | NoElements
    | Undefined
    | Duplicated
    | MissingDependency
    | LoopFound
    | Accepted(sorted: seq<Runnable>, parallelModules: set<string>)

  ghost predicate Defined(settings: Settings, topology: seq<Element>) {
    forall i :: 0 <= i < |topology| ==> topology[i].name in settings.factories
  }

  /** Every element has a definition, and `seen` are their names, all different. */
  method CheckElements(
      settings: Settings, topology: seq<Element>)
      returns (error: bool, verdict: Verdict, seen: set<string>)
    ensures error <==> !(Defined(settings, topology) && UniqueNames(topology))
    ensures error ==>
      exists i :: 0 <= i < |topology| && Defined(settings, topology[..i]) && UniqueNames(topology[..i])
        && (verdict == Undefined <==> topology[i].name !in settings.factories)
        && (verdict == Duplicated <==>
            topology[i].name in settings.factories && topology[i].name in Names(topology[..i]))
        && (verdict == Undefined || verdict == Duplicated)
    ensures !error ==> seen == Names(topology)
  {
    seen := {};
    for i := 0 to |topology|
      invariant seen == Names(topology[..i]) && Defined(settings, topology[..i]) && UniqueNames(topology[..i])
    {
      var name := topology[i].name;
      if name !in settings.factories {
        return true, Undefined, seen;
      }
      if name in seen {
        NotUnique(topology, i);
        return true, Duplicated, seen;
      }
      OneMoreName(topology, i);
      seen := seen + {name};
    }
    assert topology[..|topology|] == topology;
    return false, NoElements, seen;
  }

  lemma NotUnique(topology: seq<Element>, i: nat)
    requires i < |topology| && topology[i].name in Names(topology[..i])
    ensures !UniqueNames(topology)
  {
    var j :| 0 <= j < i && topology[..i][j].name == topology[i].name;
    assert topology[j].name == topology[i].name;
  }

  lemma OneMoreName(topology: seq<Element>, i: nat)
    requires i < |topology|
    ensures Names(topology[..i + 1]) == Names(topology[..i]) + {topology[i].name}
  {
    var before, now := topology[..i], topology[..i + 1];
    assert now[i] == topology[i];
    forall x | x in Names(before) ensures x in Names(now) {
      var k :| 0 <= k < i && before[k].name == x;
      assert now[k].name == x;
    }
    forall x | x in Names(now) ensures x in Names(before) + {topology[i].name} {
      var k :| 0 <= k < i + 1 && now[k].name == x;
      assert k < i ==> before[k].name == x;
    }
  }

  method CheckDependencies(topology: seq<Element>, seen: set<string>) returns (missing: bool)
    requires seen == Names(topology)
    ensures missing <==> !DepsListed(topology)
  {
    hide Names;
    for i := 0 to |topology|
      invariant forall k, d :: 0 <= k < i && d in topology[k].deps ==> d in seen
    {
      var deps := topology[i].deps;
      for j := 0 to |deps|
        invariant forall k :: 0 <= k < j ==> deps[k] in seen
      {
        if deps[j] !in seen {
          assert deps[j] in topology[i].deps;
          return true;
        }
      }
    }
    return false;
  }

  /** A topology is accepted exactly when it has elements, all defined, and can be sorted; what is then reported
      as a loop is a cycle and nothing else. */
  method Validate(settings: Settings, topology: seq<Element>, parallel: bool) returns (verdict: Verdict)
    ensures verdict.NoElements? <==> topology == []
    ensures verdict.Undefined? || verdict.Duplicated? <==> !(Defined(settings, topology) && UniqueNames(topology))
    ensures verdict.MissingDependency? <==>
      topology != [] && Defined(settings, topology) && UniqueNames(topology) && !DepsListed(topology)
    ensures verdict.LoopFound? <==>
      topology != [] && Defined(settings, topology) && UniqueNames(topology) && DepsListed(topology) &&
        !Acyclic(Edges(topology))
    ensures verdict.Accepted? <==> topology != [] && Defined(settings, topology) && Sortable(topology)
    ensures verdict.Accepted? ==>
        exists order, level :: SortedAs(settings, topology, parallel, verdict.sorted, order, level)
    ensures verdict.Accepted? && parallel ==>
      forall x :: x in verdict.parallelModules <==>
        exists i :: 0 <= i < |topology| && topology[i].name == x && MayRunInParallel(settings, topology, i)
  {
    hide SortedAs, Edges, Acyclic, DepsListed, MayRunInParallel;
    if topology == [] {
      return NoElements;
    }
    var error, reported, seen := CheckElements(settings, topology);
    if error {
      return reported;
    }
    var missing := CheckDependencies(topology, seen);
    if missing {
      return MissingDependency;
    }
    var ok, sorted, parallelModules := Sort(settings, topology, parallel);
    if !ok {
      return LoopFound;
    }
    return Accepted(sorted, parallelModules);
  }
}
