/** The packers that turn the short topology forms into runnable topologies, and what the sort makes of them. */
module TopologyPackers {
  import opened Wrappers
  import opened Graphs
  import opened Sequences
  import opened TopologySort

  type Params = map<string, string>

  datatype SimpleElement = SimpleElement(name: string, params: Params)

  datatype SemiElement = SemiElement(name: string, deps: seq<string>, params: Params)

  datatype ModuleDef = ModuleDef(name: string, factory: string)

  datatype Packed = Packed(element: Element, params: Params)

  function Elements(packed: seq<Packed>): (r: seq<Element>)
    ensures |r| == |packed| && forall i :: 0 <= i < |r| ==> r[i] == packed[i].element
  {
    seq(|packed|, i requires 0 <= i < |packed| => packed[i].element)
  }

  // ---------------------------------------------------------------------------------------------
  // Minimal and simple topologies: a chain
  // ---------------------------------------------------------------------------------------------

  /** Each element depends on the one declared before it, unless that one has no name. */
  function ChainElement(names: seq<string>, i: nat): Element
    requires i < |names|
  {
    Element(names[i], if i == 0 || names[i - 1] == "" then [] else [names[i - 1]], false)
  }

  ghost predicate IsChainOf(names: seq<string>, topology: seq<Element>) {
    |topology| == |names| && forall i :: 0 <= i < |names| ==> topology[i] == ChainElement(names, i)
  }

  method PackMinimal(names: seq<string>) returns (packed: seq<Packed>)
    ensures IsChainOf(names, Elements(packed))
    ensures forall i :: 0 <= i < |packed| ==> packed[i].params == map[] && !packed[i].element.allowParallel
  {
    packed := [];
    var nameOfLast := "";
    for i := 0 to |names|
      invariant |packed| == i && nameOfLast == if i == 0 then "" else names[i - 1]
      invariant forall j :: 0 <= j < i ==> packed[j] == Packed(ChainElement(names, j), map[])
    {
      var added := Element(names[i], [], false);
      if nameOfLast != "" {
        added := added.(deps := added.deps + [nameOfLast]);
      }
      packed := packed + [Packed(added, map[])];
      nameOfLast := names[i];
    }
  }

  function NamesOfSimple(elements: seq<SimpleElement>): (r: seq<string>)
    ensures |r| == |elements| && forall i :: 0 <= i < |r| ==> r[i] == elements[i].name
  {
    seq(|elements|, i requires 0 <= i < |elements| => elements[i].name)
  }

  function PackedSimple(elements: seq<SimpleElement>, i: nat): Packed
    requires i < |elements|
  {
    Packed(ChainElement(NamesOfSimple(elements), i), elements[i].params)
  }

  method PackSimple(elements: seq<SimpleElement>) returns (packed: seq<Packed>)
    ensures IsChainOf(NamesOfSimple(elements), Elements(packed))
    ensures forall i :: 0 <= i < |packed| ==> packed[i].params == elements[i].params && !packed[i].element.allowParallel
  {
    hide NamesOfSimple;
    packed := [];
    var nameOfLast := "";
    ghost var names := NamesOfSimple(elements);
    for i := 0 to |elements|
      invariant |packed| == i && nameOfLast == if i == 0 then "" else names[i - 1]
      invariant forall j :: 0 <= j < i ==> packed[j] == PackedSimple(elements, j)
    {
      var added := Element(elements[i].name, [], false);
      if nameOfLast != "" {
        added := added.(deps := added.deps + [nameOfLast]);
      }
      packed := packed + [Packed(added, elements[i].params)];
      nameOfLast := elements[i].name;
    }
  }

  /** Every element but the last has a name. */
  ghost predicate Named(names: seq<string>) { forall i :: 0 <= i < |names| - 1 ==> names[i] != "" }

  /** A schedule of a chain of named elements is the declared order itself. */
  lemma {:induction false} ChainScheduleIsIdentity(names: seq<string>, topology: seq<Element>, order: seq<nat>, k: nat)
    requires IsChainOf(names, topology) && NoRepeats(names) && Named(names)
    requires IsSchedule(topology, order) && k <= |order|
    ensures forall i :: 0 <= i < k ==> order[i] == i
  {
    if k > 0 {
      ChainScheduleIsIdentity(names, topology, order, k - 1);
      var i := k - 1;
      var e := order[i];
      var placed := if e < i then e else i;
      assert order[placed] == placed || placed == i;
      if e > 0 {
        assert topology[e] == ChainElement(names, e) && names[e - 1] != "";
        assert names[e - 1] in topology[order[i]].deps;
        var j :| 0 <= j < i && topology[order[j]].name == names[e - 1];
        assert topology[order[j]] == ChainElement(names, order[j]);
        assert order[j] == e - 1;
      }
    }
  }

  function Identity(n: nat): (r: seq<nat>)
    ensures |r| == n && forall i :: 0 <= i < n ==> r[i] == i
  {
    seq(n, i => i)
  }

  lemma DeclaredOrderIsSchedule(names: seq<string>, topology: seq<Element>)
    requires IsChainOf(names, topology)
    ensures IsSchedule(topology, Identity(|topology|))
  {
    hide Identity;
    var order := Identity(|topology|);
    forall k, d | 0 <= k < |order| && d in topology[order[k]].deps
      ensures exists j :: 0 <= j < k && topology[order[j]].name == d
    {
      assert topology[k] == ChainElement(names, k);
      var j := k - 1;
      assert topology[j] == ChainElement(names, j);
      assert topology[order[j]].name == d;
    }
  }

  /** The sort accepts a chain exactly when its names are distinct. */
  lemma ChainIsSortable(names: seq<string>, topology: seq<Element>)
    requires IsChainOf(names, topology)
    ensures Sortable(topology) <==> NoRepeats(names)
  {
    hide Edges, DepsListed, IsSchedule, Acyclic;
    assert forall i :: 0 <= i < |topology| ==> topology[i].name == names[i];
    assert UniqueNames(topology) <==> NoRepeats(names);
    if NoRepeats(names) {
      DeclaredOrderIsSchedule(names, topology);
      ScheduleIsAcyclic(topology, Identity(|topology|));
    }
  }

  ghost predicate AsDeclared(names: seq<string>, sorted: seq<Runnable>) {
    |sorted| == |names| && forall i :: 0 <= i < |names| ==> sorted[i].name == names[i]
  }

  /** Every element between the first and the last has a name. */
  ghost predicate MiddleNamed(names: seq<string>) { forall i :: 0 < i < |names| - 1 ==> names[i] != "" }

  /** The sequential sort always runs a chain as declared, the parallel one if and only if the elements between
      the first and the last have names. */
  lemma ChainRunsAsDeclared(
      settings: Settings, names: seq<string>, topology: seq<Element>, parallel: bool, sorted: seq<Runnable>,
      order: seq<nat>, level: seq<nat>)
    requires IsChainOf(names, topology) && NoRepeats(names)
    requires SortedAs(settings, topology, parallel, sorted, order, level)
    ensures AsDeclared(names, sorted) <==> !parallel || MiddleNamed(names)
  {
    hide IsChainOf, Greedy, ByLevel, DepsFirst, NoRepeats;
    ChainNames(names, topology);
    ChainDependsBackwards(names, topology);
    assert AsDeclared(names, sorted) <==> forall k :: 0 <= k < |order| ==> order[k] == k by {
      SortedNames(settings, names, topology, sorted, order);
    }
    if !parallel {
      DeclaredOrderIsKept(topology, order, level);
    } else if MiddleNamed(names) {
      LevelsKeepTheChain(names, topology, order, level, |order|);
    } else {
      LevelsBreakTheChain(names, topology, order, level);
    }
  }

  lemma ChainNames(names: seq<string>, topology: seq<Element>)
    requires IsChainOf(names, topology)
    ensures |topology| == |names| && forall i :: 0 <= i < |names| ==> topology[i].name == names[i]
  {
    assert forall i :: 0 <= i < |names| ==> topology[i] == ChainElement(names, i);
  }

  lemma SortedNames(
      settings: Settings, names: seq<string>, topology: seq<Element>, sorted: seq<Runnable>, order: seq<nat>)
    requires |topology| == |names| && (forall i :: 0 <= i < |names| ==>
        topology[i].name == names[i]) && NoRepeats(names)
    requires InRange(topology, order) && |sorted| == |order| == |topology|
    requires forall k :: 0 <= k < |order| ==> Carries(settings, sorted[k], topology[order[k]])
    ensures AsDeclared(names, sorted) <==> forall k :: 0 <= k < |order| ==> order[k] == k
  {
    assert forall k :: 0 <= k < |order| ==> sorted[k].name == names[order[k]];
  }

  lemma ReadyAtStart(e: Element, removed: set<string>)
    requires removed == {}
    ensures Ready(e, removed) <==> e.deps == []
  {
    if e.deps != [] {
      assert e.deps[0] !in removed;
    }
  }

  /** The first level holds exactly the elements without dependencies. */
  lemma FirstLevel(topology: seq<Element>, order: seq<nat>, level: seq<nat>, k: nat)
    requires Sortable(topology) && InRange(topology, order) && ByLevel(topology, order, level) && k < |order|
    ensures level[k] == 0 <==> topology[order[k]].deps == []
  {
    hide LevelIs, Edges, Acyclic;
    NoWavesYet(topology);
    ReadyIsLevel(topology, {}, 0, order[k]);
    ReadyAtStart(topology[order[k]], {});
    if LevelIs(Edges(topology), topology[order[k]].name, 0) {
      LevelsDiffer(Edges(topology), topology[order[k]].name, 0, level[k]);
    }
  }

  lemma LevelsBreakTheChain(names: seq<string>, topology: seq<Element>, order: seq<nat>, level: seq<nat>)
    requires IsChainOf(names, topology) && NoRepeats(names)
    requires IsSchedule(topology, order) && ByLevel(topology, order, level)
    requires !MiddleNamed(names)
    ensures exists k :: 0 <= k < |order| && order[k] != k
  {
    var j :| 0 < j < |names| - 1 && names[j] == "";
    if order[j] == j && order[j + 1] == j + 1 {
      ChainIsSortable(names, topology);
      assert topology[j] == ChainElement(names, j) && topology[j + 1] == ChainElement(names, j + 1);
      FirstLevel(topology, order, level, j);
      FirstLevel(topology, order, level, j + 1);
    }
  }

  lemma {:induction false} LevelsKeepTheChain(
      names: seq<string>, topology: seq<Element>, order: seq<nat>, level: seq<nat>, k: nat)
    requires IsChainOf(names, topology) && NoRepeats(names)
    requires IsSchedule(topology, order) && ByLevel(topology, order, level)
    requires MiddleNamed(names) && k <= |order|
    ensures forall i :: 0 <= i < k ==> order[i] == i
  {
    if k == 1 {
      FirstComesFirst(names, topology, order, level);
    } else if k > 1 {
      LevelsKeepTheChain(names, topology, order, level, k - 1);
      NextComesNext(names, topology, order, k - 1);
    }
  }

  lemma FirstComesFirst(names: seq<string>, topology: seq<Element>, order: seq<nat>, level: seq<nat>)
    requires IsChainOf(names, topology) && NoRepeats(names)
    requires IsSchedule(topology, order) && ByLevel(topology, order, level)
    requires |order| > 0
    ensures order[0] == 0
  {
    hide LevelIs, Edges, DepsFirst;
    ChainIsSortable(names, topology);
    CoversAll(topology, order);
    assert 0 in order;
    var p: nat :| p < |order| && order[p] == 0;
    assert topology[0] == ChainElement(names, 0);
    FirstLevel(topology, order, level, p);
  }

  lemma NextComesNext(names: seq<string>, topology: seq<Element>, order: seq<nat>, i: nat)
    requires IsChainOf(names, topology) && NoRepeats(names) && IsSchedule(topology, order) && MiddleNamed(names)
    requires 0 < i < |order| && forall j :: 0 <= j < i ==> order[j] == j
    ensures order[i] == i
  {
    var e := order[i];
    var placed := if e < i then e else i;
    assert order[placed] == placed || placed == i;
    if e > 1 {
      assert topology[e] == ChainElement(names, e) && names[e - 1] != "";
      assert names[e - 1] in topology[order[i]].deps;
      var j :| 0 <= j < i && topology[order[j]].name == names[e - 1];
      assert topology[order[j]] == ChainElement(names, order[j]);
      assert order[j] == e - 1;
    }
  }

  lemma ChainDependsBackwards(names: seq<string>, topology: seq<Element>)
    requires IsChainOf(names, topology) && NoRepeats(names)
    ensures UniqueNames(topology)
    ensures DependsBackwards(topology)
  {
    assert forall i :: 0 <= i < |topology| ==> topology[i].name == names[i];
    forall i, d | 0 <= i < |topology| && d in topology[i].deps ensures exists j :: 0 <= j < i && topology[j].name == d {
      assert topology[i] == ChainElement(names, i);
      assert topology[i - 1].name == d;
    }
  }

  /** Packing then sorting: accepted exactly when the names are distinct, and then run as declared, in parallel mode
      exactly when the elements between the first and the last have names. */
  method PackAndSort(settings: Settings, names: seq<string>, parallel: bool) returns (ok: bool, sorted: seq<Runnable>)
    ensures ok <==> NoRepeats(names)
    ensures ok ==> (AsDeclared(names, sorted) <==> !parallel || MiddleNamed(names))
  {
    hide IsChainOf, NoRepeats, MiddleNamed, AsDeclared, SortedAs, Sortable;
    var packed := PackMinimal(names);
    var topology := Elements(packed);
    ChainIsSortable(names, topology);
    var parallelModules;
    ok, sorted, parallelModules := Sort(settings, topology, parallel);
    if ok {
      ghost var order, level :| SortedAs(settings, topology, parallel, sorted, order, level);
      ChainRunsAsDeclared(settings, names, topology, parallel, sorted, order, level);
    }
  }

  /** The declared order with elements `k` and `k + 1` exchanged. */
  function Exchanged(n: nat, k: nat): (r: seq<nat>)
    requires k + 1 < n
    ensures |r| == n && r[k] == k + 1 && r[k + 1] == k && forall i :: 0 <= i < n && i != k && i != k + 1 ==> r[i] == i
  {
    Identity(n)[k := k + 1][k + 1 := k]
  }

  /** Neighbours may be exchanged when the second does not depend on the first. */
  lemma ExchangedIsSchedule(topology: seq<Element>, k: nat)
    requires k + 1 < |topology| && IsSchedule(topology, Identity(|topology|))
    requires topology[k].name !in topology[k + 1].deps
    ensures IsSchedule(topology, Exchanged(|topology|, k))
  {
    hide Identity, Exchanged;
    var n := |topology|;
    var declared, order := Identity(n), Exchanged(n, k);
    forall p, d | 0 <= p < n && d in topology[order[p]].deps
      ensures exists j :: 0 <= j < p && topology[order[j]].name == d
    {
      assert topology[declared[order[p]]] == topology[order[p]];
      var j :| 0 <= j < order[p] && topology[declared[j]].name == d;
      var q := if j == k then k + 1 else if j == k + 1 then k else j;
      assert topology[order[q]].name == d;
    }
  }

  ghost predicate DeclaredOrderIsForced(topology: seq<Element>) {
    forall order :: IsSchedule(topology, order) ==> order == Identity(|topology|)
  }

  /** The declared order is the only one that keeps a chain's dependencies exactly when every element but
      the last has a name. */
  lemma ChainIsForcedExactlyWhenNamed(names: seq<string>, topology: seq<Element>)
    requires IsChainOf(names, topology) && NoRepeats(names)
    ensures DeclaredOrderIsForced(topology) <==> Named(names)
  {
    hide Identity, Exchanged, IsSchedule;
    if Named(names) {
      forall order | IsSchedule(topology, order) ensures order == Identity(|topology|) {
        assert |order| == |topology| by { ScheduleLength(topology, order); }
        ChainScheduleIsIdentity(names, topology, order, |order|);
      }
    } else {
      var k: nat :| k < |names| - 1 && names[k] == "";
      DeclaredOrderIsSchedule(names, topology);
      assert topology[k + 1] == ChainElement(names, k + 1);
      ExchangedIsSchedule(topology, k);
      assert Exchanged(|topology|, k)[k] != Identity(|topology|)[k];
    }
  }

  lemma ScheduleLength(topology: seq<Element>, order: seq<nat>)
    requires IsSchedule(topology, order)
    ensures |order| == |topology|
  {
  }

  /** Without a name in the middle the chain is broken: the element after it depends on nothing. */
  lemma UnnamedElementBreaksTheChain(topology: seq<Element>)
    requires IsChainOf(["a", "", "b"], topology)
    ensures topology[2].deps == [] && IsSchedule(topology, [0, 2, 1]) && !DepsFirst(topology, [1, 0, 2])
  {
    assert topology[0] == Element("a", [], false);
    assert topology[1] == Element("", ["a"], false);
    assert topology[2] == Element("b", [], false);
    var bad := [1, 0, 2];
    assert "a" in topology[bad[0]].deps;
    var good := [0, 2, 1];
    assert topology[good[0]].name == "a";
  }

  // ---------------------------------------------------------------------------------------------
  // Semi-sequential topologies: every element waits for the last sync element before it
  // ---------------------------------------------------------------------------------------------

  /** Definition `k` is the last one called `name`. */
  ghost predicate Defines(modules: seq<ModuleDef>, name: string, k: nat) {
    k < |modules| && modules[k].name == name && forall j :: k < j < |modules| ==> modules[j].name != name
  }

  ghost predicate Undefined(modules: seq<ModuleDef>, name: string) {
    forall k :: 0 <= k < |modules| ==> modules[k].name != name
  }

  /** `factory` is that of the last definition called `name`, and empty if there is none. */
  ghost predicate IsFactory(modules: seq<ModuleDef>, name: string, factory: string) {
    || (exists k: nat :: Defines(modules, name, k) && modules[k].factory == factory)
    || (Undefined(modules, name) && factory == "")
  }

  lemma FactoryIsUnique(modules: seq<ModuleDef>, name: string, f: string, g: string)
    requires IsFactory(modules, name, f) && IsFactory(modules, name, g)
    ensures f == g
  {
    if !Undefined(modules, name) {
      var k: nat :| Defines(modules, name, k) && modules[k].factory == f;
      var l: nat :| Defines(modules, name, l) && modules[l].factory == g;
      assert k == l;
    }
  }

  method FindFactory(modules: seq<ModuleDef>, name: string) returns (factory: string)
    ensures IsFactory(modules, name, factory)
  {
    factory := "";
    for i := 0 to |modules|
      invariant IsFactory(modules[..i], name, factory)
    {
      OneMoreDefinition(modules, name, factory, i);
      if modules[i].name == name {
        factory := modules[i].factory;
      }
    }
    assert modules[..|modules|] == modules;
  }

  lemma OneMoreDefinition(modules: seq<ModuleDef>, name: string, factory: string, i: nat)
    requires i < |modules| && IsFactory(modules[..i], name, factory)
    ensures IsFactory(modules[..i + 1], name, if modules[i].name == name then modules[i].factory else factory)
  {
    var before, now := modules[..i], modules[..i + 1];
    if modules[i].name == name {
      assert Defines(now, name, i);
    } else if k: nat :| Defines(before, name, k) && before[k].factory == factory {
      assert Defines(now, name, k) && now[k].factory == factory;
    }
  }

  ghost predicate IsSyncElement(modules: seq<ModuleDef>, isSync: string -> bool, e: SemiElement) {
    IsSyncName(modules, isSync, e.name)
  }

  /** The type test holds of the factory of `name`. */
  ghost predicate IsSyncName(modules: seq<ModuleDef>, isSync: string -> bool, name: string) {
    exists f :: IsFactory(modules, name, f) && isSync(f)
  }

  /** Element `k` is the last sync element before element `i`. */
  ghost predicate LastSyncBefore(
      modules: seq<ModuleDef>, isSync: string -> bool, elements: seq<SemiElement>, i: nat, k: nat)
    requires i <= |elements|
  {
    k < i && IsSyncElement(modules, isSync, elements[k])
    && forall j :: k < j < i ==> !IsSyncElement(modules, isSync, elements[j])
  }

  /** What becomes of element `i`: its name and its dependencies, then the last sync element before it if that has a
      name and is not among them. */
  ghost predicate Packs(
      modules: seq<ModuleDef>, isSync: string -> bool, elements: seq<SemiElement>, i: nat, packed: Element)
    requires i < |elements|
  {
    var e := elements[i];
    && packed.name == e.name && !packed.allowParallel
    && (forall k: nat :: LastSyncBefore(modules, isSync, elements, i, k) ==>
          var last := elements[k].name;
          packed.deps == if last == "" || last in e.deps then e.deps else e.deps + [last])
    && ((forall k :: 0 <= k < i ==> !IsSyncElement(modules, isSync, elements[k])) ==> packed.deps == e.deps)
  }

  ghost predicate IsSemiOf(
      modules: seq<ModuleDef>, isSync: string -> bool, elements: seq<SemiElement>, topology: seq<Element>)
  {
    |topology| == |elements| && forall i :: 0 <= i < |elements| ==> Packs(modules, isSync, elements, i, topology[i])
  }

  /** Packing fails exactly when some element has no module definition, or a last one without a factory. */
  method PackSemiSequential(
      modules: seq<ModuleDef>, isSync: string -> bool, elements: seq<SemiElement>)
      returns (r: Option<seq<Packed>>)
    ensures r.Some? <==> forall i :: 0 <= i < |elements| ==> !IsFactory(modules, elements[i].name, "")
    ensures r.Some? ==> IsSemiOf(modules, isSync, elements, Elements(r.value))
    ensures r.Some? ==> |r.value| == |elements|
    ensures r.Some? ==> forall i :: 0 <= i < |elements| ==> r.value[i].params == elements[i].params
  {
    hide IsFactory, Elements, Packs;
    var packed: seq<Packed> := [];
    var nameOfLastSync := "";
    for i := 0 to |elements|
      invariant |packed| == i && nameOfLastSync == LastSync(modules, isSync, elements, i)
      invariant forall j :: 0 <= j < i ==> packed[j] == PackedSemi(modules, isSync, elements, j)
      invariant forall j :: 0 <= j < i ==> !IsFactory(modules, elements[j].name, "")
    {
      var e := elements[i];
      var added := Element(e.name, e.deps, false);
      if nameOfLastSync != "" && nameOfLastSync !in added.deps {
        added := added.(deps := added.deps + [nameOfLastSync]);
      }
      packed := packed + [Packed(added, e.params)];
      var factory := FindFactory(modules, e.name);
      if factory == "" {
        return None;
      }
      OnlyFactory(modules, isSync, e, factory);
      if isSync(factory) {
        nameOfLastSync := e.name;
      }
    }
    PackedIsSemi(modules, isSync, elements, Elements(packed));
    return Some(packed);
  }

  lemma OnlyFactory(modules: seq<ModuleDef>, isSync: string -> bool, e: SemiElement, factory: string)
    requires IsFactory(modules, e.name, factory)
    ensures IsSyncElement(modules, isSync, e) <==> isSync(factory)
    ensures factory != "" ==> !IsFactory(modules, e.name, "")
  {
    hide IsFactory;
    if f :| IsFactory(modules, e.name, f) && isSync(f) {
      FactoryIsUnique(modules, e.name, f, factory);
    }
    if IsFactory(modules, e.name, "") {
      FactoryIsUnique(modules, e.name, "", factory);
    }
  }

  /** The name of the last sync element among the first `i`, or the empty string. */
  ghost function LastSync(modules: seq<ModuleDef>, isSync: string -> bool, elements: seq<SemiElement>, i: nat): string
    requires i <= |elements|
  {
    if i == 0 then ""
    else if IsSyncElement(modules, isSync, elements[i - 1]) then elements[i - 1].name
    else LastSync(modules, isSync, elements, i - 1)
  }

  ghost function PackedSemi(
      modules: seq<ModuleDef>, isSync: string -> bool, elements: seq<SemiElement>, i: nat): Packed
    requires i < |elements|
  {
    var e, last := elements[i], LastSync(modules, isSync, elements, i);
    var deps := if last != "" && last !in e.deps then e.deps + [last] else e.deps;
    Packed(Element(e.name, deps, false), e.params)
  }

  lemma {:induction false} LastSyncIs(
      modules: seq<ModuleDef>, isSync: string -> bool, elements: seq<SemiElement>, i: nat)
    requires i <= |elements|
    ensures forall k: nat :: LastSyncBefore(modules, isSync, elements, i, k) ==>
      LastSync(modules, isSync, elements, i) == elements[k].name
    ensures (forall k :: 0 <= k < i ==> !IsSyncElement(modules, isSync, elements[k])) ==>
      LastSync(modules, isSync, elements, i) == ""
    ensures (exists k: nat :: LastSyncBefore(modules, isSync, elements, i, k))
            || forall k :: 0 <= k < i ==> !IsSyncElement(modules, isSync, elements[k])
  {
    hide IsSyncName;
    if i > 0 {
      var m := i - 1;
      LastSyncIs(modules, isSync, elements, m);
      if IsSyncElement(modules, isSync, elements[i - 1]) {
        assert LastSyncBefore(modules, isSync, elements, i, i - 1);
      } else if exists k: nat :: LastSyncBefore(modules, isSync, elements, m, k) {
        var k: nat :| LastSyncBefore(modules, isSync, elements, m, k);
        assert LastSyncBefore(modules, isSync, elements, i, k);
      }
      forall k: nat | LastSyncBefore(modules, isSync, elements, i, k)
        ensures LastSync(modules, isSync, elements, i) == elements[k].name
      {
        assert k < i - 1 ==> LastSyncBefore(modules, isSync, elements, i - 1, k);
      }
    }
  }

  lemma PackedExactly(
      modules: seq<ModuleDef>, isSync: string -> bool, elements: seq<SemiElement>, i: nat, packed: Element)
    requires i < |elements|
    ensures Packs(modules, isSync, elements, i, packed) <==> packed == PackedSemi(modules, isSync, elements, i).element
  {
    hide IsSyncName, LastSync, LastSyncBefore;
    LastSyncIs(modules, isSync, elements, i);
  }

  ghost predicate IsPackedFrom(
      modules: seq<ModuleDef>, isSync: string -> bool, elements: seq<SemiElement>, topology: seq<Element>)
  {
    |topology| == |elements| && forall i :: 0 <= i < |elements| ==>
      topology[i] == PackedSemi(modules, isSync, elements, i).element
  }

  lemma PackedIsSemi(
      modules: seq<ModuleDef>, isSync: string -> bool, elements: seq<SemiElement>, topology: seq<Element>)
    ensures IsSemiOf(modules, isSync, elements, topology) <==> IsPackedFrom(modules, isSync, elements, topology)
  {
    hide Packs, PackedSemi;
    if |topology| == |elements| {
      forall i | 0 <= i < |elements|
        ensures Packs(modules, isSync, elements, i, topology[i]) <==>
          topology[i] == PackedSemi(modules, isSync, elements, i).element
      {
        PackedExactly(modules, isSync, elements, i, topology[i]);
      }
    }
  }

  /** The position at which a schedule runs element `i`. */
  ghost function PositionOf(topology: seq<Element>, order: seq<nat>, i: nat): (k: nat)
    requires IsSchedule(topology, order) && i < |topology|
    ensures k < |order| && order[k] == i
  {
    CoversAll(topology, order);
    assert i in order;
    var k :| 0 <= k < |order| && order[k] == i;
    k
  }

  lemma DependencyRunsFirst(topology: seq<Element>, order: seq<nat>, i: nat, j: nat)
    requires IsSchedule(topology, order) && UniqueNames(topology) && i < |topology| && j < |topology|
    requires topology[i].name in topology[j].deps
    ensures PositionOf(topology, order, i) < PositionOf(topology, order, j)
  {
    var kj := PositionOf(topology, order, j);
    var k :| 0 <= k < kj && topology[order[k]].name == topology[i].name;
    assert order[k] == i;
    var ki := PositionOf(topology, order, i);
    assert order[ki] == order[k];
  }

  /** Every sync element but a last one has a name. */
  ghost predicate SyncNamed(modules: seq<ModuleDef>, isSync: string -> bool, elements: seq<SemiElement>) {
    forall k :: 0 <= k < |elements| - 1 && IsSyncElement(modules, isSync, elements[k]) ==> elements[k].name != ""
  }

  /** In every accepted semi-sequential topology whose sync elements are named, a sync element runs before
      every element declared after it, whatever else the elements depend on. */
  lemma {:induction false} SyncRunsBeforeLater(
    modules: seq<ModuleDef>, isSync: string -> bool, elements: seq<SemiElement>, topology: seq<Element>,
      order: seq<nat>, i: nat, j: nat)
    requires IsSemiOf(modules, isSync, elements, topology) && Sortable(topology) && IsSchedule(topology, order)
    requires SyncNamed(modules, isSync, elements)
    requires i < j < |elements| && IsSyncElement(modules, isSync, elements[i])
    ensures PositionOf(topology, order, i) < PositionOf(topology, order, j)
    decreases j
  {
    hide Packs, IsSyncName, IsSemiOf, Sortable, IsSchedule, PositionOf, LastSync;
    PackedIsSemi(modules, isSync, elements, topology);
    SortableIsUnique(topology);
    var k := LastSyncIndex(modules, isSync, elements, i, j);
    assert topology[j] == PackedSemi(modules, isSync, elements, j).element;
    assert topology[k] == PackedSemi(modules, isSync, elements, k).element;
    DependencyRunsFirst(topology, order, k, j);
    if i < k {
      SyncRunsBeforeLater(modules, isSync, elements, topology, order, i, k);
    }
  }

  lemma {:induction false} LastSyncIndex(
      modules: seq<ModuleDef>, isSync: string -> bool, elements: seq<SemiElement>, i: nat, j: nat)
      returns (k: nat)
    requires i < j <= |elements| && IsSyncElement(modules, isSync, elements[i])
    ensures i <= k < j && IsSyncElement(modules, isSync, elements[k])
    ensures LastSync(modules, isSync, elements, j) == elements[k].name
  {
    if IsSyncElement(modules, isSync, elements[j - 1]) {
      k := j - 1;
    } else {
      k := LastSyncIndex(modules, isSync, elements, i, j - 1);
    }
  }

  ghost predicate SyncFirst(
    modules: seq<ModuleDef>, isSync: string -> bool, elements: seq<SemiElement>, topology: seq<Element>,
      order: seq<nat>)
    requires |topology| == |elements| && IsSchedule(topology, order)
  {
    forall i: nat, j: nat :: i < j < |elements| && IsSyncElement(modules, isSync, elements[i]) ==>
      PositionOf(topology, order, i) < PositionOf(topology, order, j)
  }

  ghost predicate DistinctlyNamed(elements: seq<SemiElement>) {
    forall i, j :: 0 <= i < j < |elements| ==> elements[i].name != elements[j].name
  }

  ghost predicate SameNames(elements: seq<SemiElement>, others: seq<SemiElement>) {
    |others| == |elements| && forall i :: 0 <= i < |elements| ==> others[i].name == elements[i].name
  }

  /** Whatever the elements of these names depend on, the sort runs every sync element of an accepted topology before
      everything declared after it. */
  ghost predicate SyncAlwaysFirst(
    modules: seq<ModuleDef>, isSync: string -> bool, elements: seq<SemiElement>, settings: Settings, parallel: bool)
  {
    forall others, topology, sorted, order, level ::
      (&& SameNames(elements, others) && IsSemiOf(modules, isSync, others, topology) && Sortable(topology)
       && SortedAs(settings, topology, parallel, sorted, order, level))
      ==> SyncFirst(modules, isSync, others, topology, order)
  }

  lemma {:induction false} LastSyncIsDeclared(
      modules: seq<ModuleDef>, isSync: string -> bool, elements: seq<SemiElement>, i: nat)
      returns (k: nat)
    requires i <= |elements| && LastSync(modules, isSync, elements, i) != ""
    ensures k < i && elements[k].name == LastSync(modules, isSync, elements, i)
  {
    if IsSyncElement(modules, isSync, elements[i - 1]) {
      k := i - 1;
    } else {
      k := LastSyncIsDeclared(modules, isSync, elements, i - 1);
    }
  }

  /** The elements of these names without dependencies of their own. */
  function Bare(elements: seq<SemiElement>): (r: seq<SemiElement>)
    ensures |r| == |elements| && forall i :: 0 <= i < |r| ==> r[i] == SemiElement(elements[i].name, [], map[])
  {
    seq(|elements|, i requires 0 <= i < |elements| => SemiElement(elements[i].name, [], map[]))
  }

  ghost function SemiTopology(
      modules: seq<ModuleDef>, isSync: string -> bool, elements: seq<SemiElement>): (r: seq<Element>)
    ensures IsPackedFrom(modules, isSync, elements, r)
  {
    seq(|elements|, i requires 0 <= i < |elements| => PackedSemi(modules, isSync, elements, i).element)
  }

  lemma BareOrderIsSchedule(modules: seq<ModuleDef>, isSync: string -> bool, elements: seq<SemiElement>)
    ensures var topology := SemiTopology(modules, isSync, Bare(elements)); IsSchedule(topology, Identity(|topology|))
  {
    hide Identity, SemiTopology, Bare, IsSyncName, LastSync;
    var bare := Bare(elements);
    var topology := SemiTopology(modules, isSync, bare);
    var order := Identity(|topology|);
    forall k, d | 0 <= k < |order| && d in topology[order[k]].deps
      ensures exists j :: 0 <= j < k && topology[order[j]].name == d
    {
      assert topology[k] == PackedSemi(modules, isSync, bare, k).element;
      var j := LastSyncIsDeclared(modules, isSync, bare, k);
      assert topology[order[j]] == PackedSemi(modules, isSync, bare, j).element;
    }
  }

  /** In either mode of the sort, the guarantee of a semi-sequential topology holds for every choice of further
      dependencies if and only if every sync element but a last one has a name. */
  lemma SyncIsFirstExactlyWhenNamed(
    modules: seq<ModuleDef>, isSync: string -> bool, elements: seq<SemiElement>, settings: Settings, parallel: bool)
    requires DistinctlyNamed(elements)
    ensures SyncAlwaysFirst(modules, isSync, elements, settings, parallel) <==> SyncNamed(modules, isSync, elements)
  {
    if SyncNamed(modules, isSync, elements) {
      forall others, topology, sorted, order, level |
        SameNames(elements, others) && IsSemiOf(modules, isSync, others, topology) && Sortable(topology)
        && SortedAs(settings, topology, parallel, sorted, order, level)
        ensures SyncFirst(modules, isSync, others, topology, order)
      {
        NamedRunsFirst(modules, isSync, elements, others, topology, order);
      }
    } else {
      var others, topology, sorted, order, level := UnnamedIsOvertaken(modules, isSync, elements, settings, parallel);
    }
  }

  lemma NamedRunsFirst(
      modules: seq<ModuleDef>, isSync: string -> bool, elements: seq<SemiElement>, others: seq<SemiElement>,
      topology: seq<Element>, order: seq<nat>)
    requires SyncNamed(modules, isSync, elements) && SameNames(elements, others)
    requires IsSemiOf(modules, isSync, others, topology) && Sortable(topology) && IsSchedule(topology, order)
    ensures SyncFirst(modules, isSync, others, topology, order)
  {
    hide Sortable, IsSchedule, IsSyncName, PositionOf;
    assert SyncNamed(modules, isSync, others);
    forall i: nat, j: nat | i < j < |others| && IsSyncElement(modules, isSync, others[i])
      ensures PositionOf(topology, order, i) < PositionOf(topology, order, j)
    {
      SyncRunsBeforeLater(modules, isSync, others, topology, order, i, j);
    }
  }

  /** The elements without dependencies, except that element `k` depends on the next one. */
  function Backwards(elements: seq<SemiElement>, k: nat): (r: seq<SemiElement>)
    requires k + 1 < |elements|
    ensures SameNames(elements, r)
    ensures forall i :: 0 <= i < |r| ==> r[i].deps == if i == k then [elements[k + 1].name] else []
  {
    Bare(elements)[k := SemiElement(elements[k].name, [elements[k + 1].name], map[])]
  }

  /** An unnamed sync element may itself depend on the element after it, which then does not wait for it: such a
      topology is accepted, and whatever the sort returns for it, in either mode, runs the later element first. */
  lemma UnnamedIsOvertaken(
    modules: seq<ModuleDef>, isSync: string -> bool, elements: seq<SemiElement>, settings: Settings, parallel: bool)
    returns (others: seq<SemiElement>, topology: seq<Element>, sorted: seq<Runnable>, order: seq<nat>, level: seq<nat>)
    requires DistinctlyNamed(elements)
    requires !SyncNamed(modules, isSync, elements)
    ensures SameNames(elements, others) && IsSemiOf(modules, isSync, others, topology) && Sortable(topology)
    ensures SortedAs(settings, topology, parallel, sorted, order, level)
    ensures !SyncFirst(modules, isSync, others, topology, order)
  {
    hide IsSyncName, SemiTopology, Backwards, Sortable, PositionOf, DepsFirst, NoRepeats, ByLevel, Greedy, Resolved;
    hide Packs, IsSemiOf, LastSync;
    var k: nat :| k < |elements| - 1 && IsSyncElement(modules, isSync, elements[k]) && elements[k].name == "";
    others := Backwards(elements, k);
    topology := SemiTopology(modules, isSync, others);
    PackedIsSemi(modules, isSync, others, topology);
    BackwardsIsSortable(modules, isSync, elements, k);
    sorted, order, level := SortedFormExists(settings, topology, parallel);
    assert topology[k] == PackedSemi(modules, isSync, others, k).element;
    assert topology[k + 1] == PackedSemi(modules, isSync, others, k + 1).element;
    assert UniqueNames(topology) by { SortableIsUnique(topology); }
    assert others[k].deps[0] == topology[k + 1].name;
    DependencyRunsFirst(topology, order, k + 1, k);
  }

  lemma SortableIsUnique(topology: seq<Element>)
    requires Sortable(topology)
    ensures UniqueNames(topology)
  {
  }

  lemma BackwardsIsSortable(modules: seq<ModuleDef>, isSync: string -> bool, elements: seq<SemiElement>, k: nat)
    requires DistinctlyNamed(elements)
    requires k + 1 < |elements| && IsSyncElement(modules, isSync, elements[k]) && elements[k].name == ""
    ensures Sortable(SemiTopology(modules, isSync, Backwards(elements, k)))
  {
    hide Exchanged, IsSyncName, SemiTopology, Backwards, Bare, Sortable, LastSync, NoRepeats;
    var bare, others := Bare(elements), Backwards(elements, k);
    var plain, topology := SemiTopology(modules, isSync, bare), SemiTopology(modules, isSync, others);
    OvertakingSchedule(modules, isSync, elements, k);
    var order := Exchanged(|elements|, k);
    forall i: nat | i < |elements|
      ensures topology[i].name == elements[i].name == plain[i].name
      ensures forall d :: d in topology[i].deps ==> d in plain[i].deps || (i == k && d == elements[k + 1].name)
    {
      assert topology[i] == PackedSemi(modules, isSync, others, i).element;
      assert plain[i] == PackedSemi(modules, isSync, bare, i).element;
      SameLastSync(modules, isSync, others, bare, i);
    }
    forall p, d | 0 <= p < |order| && d in topology[order[p]].deps
      ensures exists j :: 0 <= j < p && topology[order[j]].name == d
    {
      if d in plain[order[p]].deps {
        var j :| 0 <= j < p && plain[order[j]].name == d;
        assert topology[order[j]].name == d;
      } else {
        assert order[p] == k && p == k + 1;
        assert topology[order[k]].name == d;
      }
    }
    ScheduleIsAcyclic(topology, order);
  }

  lemma {:induction false} SameLastSync(
    modules: seq<ModuleDef>, isSync: string -> bool, elements: seq<SemiElement>, others: seq<SemiElement>, i: nat)
    requires SameNames(elements, others) && i <= |elements|
    ensures LastSync(modules, isSync, elements, i) == LastSync(modules, isSync, others, i)
  {
    if i > 0 {
      SameLastSync(modules, isSync, elements, others, i - 1);
    }
  }

  lemma OvertakingSchedule(modules: seq<ModuleDef>, isSync: string -> bool, elements: seq<SemiElement>, k: nat)
    requires DistinctlyNamed(elements)
    requires k + 1 < |elements| && IsSyncElement(modules, isSync, elements[k]) && elements[k].name == ""
    ensures var topology := SemiTopology(modules, isSync, Bare(elements));
            |topology| == |elements| && Sortable(topology) && IsSchedule(topology, Exchanged(|topology|, k))
  {
    hide Identity, Exchanged, IsSchedule, IsSyncName, SemiTopology, Bare, Sortable;
    var bare := Bare(elements);
    var topology := SemiTopology(modules, isSync, bare);
    BareOrderIsSchedule(modules, isSync, elements);
    assert forall i :: 0 <= i < |topology| ==> topology[i].name == elements[i].name by {
      assert forall i :: 0 <= i < |topology| ==> topology[i] == PackedSemi(modules, isSync, bare, i).element;
    }
    ScheduleIsAcyclic(topology, Identity(|topology|));
    assert topology[k + 1] == PackedSemi(modules, isSync, bare, k + 1).element;
    assert LastSync(modules, isSync, bare, k + 1) == "";
    ExchangedIsSchedule(topology, k);
  }

  /** The names matter: a sync element without a name hides the sync element before it as well.  The parallel sort puts
      the third of these elements in the first wave, beside the first and before the second. */
  lemma UnnamedSyncIsNotWaitedFor(
    isSync: string -> bool, topology: seq<Element>, settings: Settings, sorted: seq<Runnable>, order: seq<nat>,
      level: seq<nat>)
    requires isSync("f")
    requires IsSemiOf([ModuleDef("a", "f"), ModuleDef("", "f"), ModuleDef("b", "f")], isSync,
                      [SemiElement("a", [], map[]), SemiElement("", [], map[]), SemiElement("b", [], map[])], topology)
    requires SortedAs(settings, topology, true, sorted, order, level)
    ensures order == [0, 2, 1] && level[0] == level[1] == 0
  {
    ThreeSyncElements(isSync, topology);
    var plain := [0, 1, 2];
    assert topology[plain[0]].name == "a";
    ScheduleIsAcyclic(topology, plain);
    hide Sortable, DepsFirst;
    FirstLevel(topology, order, level, 0);
    FirstLevel(topology, order, level, 1);
    FirstLevel(topology, order, level, 2);
    assert order[0] != 1 && order[1] != 1;
  }

  lemma ThreeSyncElements(isSync: string -> bool, topology: seq<Element>)
    requires isSync("f")
    requires IsSemiOf([ModuleDef("a", "f"), ModuleDef("", "f"), ModuleDef("b", "f")], isSync,
                      [SemiElement("a", [], map[]), SemiElement("", [], map[]), SemiElement("b", [], map[])], topology)
    ensures topology == [Element("a", [], false), Element("", ["a"], false), Element("b", [], false)]
  {
    var modules := [ModuleDef("a", "f"), ModuleDef("", "f"), ModuleDef("b", "f")];
    var elements := [SemiElement("a", [], map[]), SemiElement("", [], map[]), SemiElement("b", [], map[])];
    PackedIsSemi(modules, isSync, elements, topology);
    hide Packs, IsSemiOf;
    assert Defines(modules, "a", 0) && Defines(modules, "", 1);
    assert IsFactory(modules, "a", "f") && IsFactory(modules, "", "f");
    assert IsSyncElement(modules, isSync, elements[0]) && IsSyncElement(modules, isSync, elements[1]);
    assert LastSync(modules, isSync, elements, 1) == "a" && LastSync(modules, isSync, elements, 2) == "";
    assert topology[0] == Element("a", [], false);
    assert topology[1] == Element("", ["a"], false);
    assert topology[2] == Element("b", [], false);
  }
}
