/** `topology_sort`: a wave-by-wave topological sort that also extracts the modules that may run in parallel. */
module TopologySort {
  import opened Graphs
  import opened Sequences

  datatype Element = Element(name: string, deps: seq<string>, allowParallel: bool)

  datatype Runnable = Runnable(name: string, factory: string, deps: seq<string>)

  /** The three lists a wave is sorted into. */
  datatype Kind = Sync | Async | AllowedSync

  /** What the sort is given besides the elements: module factories, the type test and the gflag. */
  datatype Settings = Settings(factories: map<string, string>, isSync: string -> bool, checkAllowParallel: bool)
  {
    function FactoryOf(name: string): string { if name in factories then factories[name] else "" }

    predicate SyncElement(e: Element) { isSync(FactoryOf(e.name)) }

    predicate Is(kind: Kind, e: Element) {
      match kind
      case Sync => SyncElement(e)
      case Async => !SyncElement(e)
      case AllowedSync => SyncElement(e) && checkAllowParallel && e.allowParallel
    }

    function Resolve(e: Element): Runnable { Runnable(e.name, FactoryOf(e.name), e.deps) }
  }

  // ---------------------------------------------------------------------------------------------
  // What a topology means
  // ---------------------------------------------------------------------------------------------

  function Names(topology: seq<Element>): set<string> {
    set i | 0 <= i < |topology| :: topology[i].name
  }

  ghost predicate UniqueNames(topology: seq<Element>) {
    forall i, j :: 0 <= i < j < |topology| ==> topology[i].name != topology[j].name
  }

  ghost predicate DepsListed(topology: seq<Element>) {
    forall i, d :: 0 <= i < |topology| && d in topology[i].deps ==> d in Names(topology)
  }

  /** An edge leads from a dependency to its dependent. */
  function Edges(topology: seq<Element>): set<(string, string)> {
    set i, k | 0 <= i < |topology| && 0 <= k < |topology[i].deps| :: (topology[i].deps[k], topology[i].name)
  }

  ghost predicate Sortable(topology: seq<Element>) {
    UniqueNames(topology) && DepsListed(topology) && Acyclic(Edges(topology))
  }

  // ---------------------------------------------------------------------------------------------
  // Orders of elements, as sequences of indices
  // ---------------------------------------------------------------------------------------------

  ghost predicate InRange(topology: seq<Element>, order: seq<nat>) {
    forall k :: 0 <= k < |order| ==> order[k] < |topology|
  }

  ghost function NamesOf(topology: seq<Element>, order: seq<nat>): set<string>
    requires InRange(topology, order)
  {
    set k | 0 <= k < |order| :: topology[order[k]].name
  }

  ghost function Resolved(settings: Settings, topology: seq<Element>, order: seq<nat>): seq<Runnable>
    requires InRange(topology, order)
  {
    seq(|order|, k requires 0 <= k < |order| => settings.Resolve(topology[order[k]]))
  }

  /** Every dependency of every listed element comes earlier. */
  ghost predicate DepsFirst(topology: seq<Element>, order: seq<nat>)
    requires InRange(topology, order)
  {
    forall k, d :: 0 <= k < |order| && d in topology[order[k]].deps ==>
      exists j :: 0 <= j < k && topology[order[j]].name == d
  }

  /** A complete schedule: every element once, each after everything it depends on. */
  ghost predicate IsSchedule(topology: seq<Element>, order: seq<nat>) {
    |order| == |topology| && InRange(topology, order) && NoRepeats(order) && DepsFirst(topology, order)
  }

  /** The state between passes: `removed` are the names scheduled so far, in `order`. */
  ghost predicate Partial(topology: seq<Element>, removed: set<string>, order: seq<nat>) {
    InRange(topology, order) && NoRepeats(order) && DepsFirst(topology, order) && removed == NamesOf(topology, order)
  }

  predicate Ready(e: Element, removed: set<string>) {
    e.name !in removed && forall k :: 0 <= k < |e.deps| ==> e.deps[k] in removed
  }

  // ---------------------------------------------------------------------------------------------
  // The verdict
  // ---------------------------------------------------------------------------------------------

  lemma {:induction false} NamesBound(topology: seq<Element>)
    ensures |Names(topology)| <= |topology|
    ensures |Names(topology)| == |topology| <==> UniqueNames(topology)
  {
    if topology != [] {
      var rest, last := topology[..|topology| - 1], topology[|topology| - 1];
      NamesBound(rest);
      assert forall i :: 0 <= i < |rest| ==> rest[i] == topology[i];
      assert Names(topology) == Names(rest) + {last.name};
      if last.name in Names(rest) {
        var i :| 0 <= i < |rest| && rest[i].name == last.name;
        assert topology[i].name == topology[|topology| - 1].name;
      }
    } else {
      assert Names(topology) == {};
    }
  }

  lemma DistinctBound(order: seq<nat>, n: nat)
    requires NoRepeats(order) && forall k :: 0 <= k < |order| ==> order[k] < n
    ensures |order| <= n
  {
    if |order| > n {
      Pigeonhole(order, Below(n));
    }
  }

  /** An order with all dependencies first gives every name a rank, so there is no cycle. */
  lemma ScheduleIsAcyclic(topology: seq<Element>, order: seq<nat>)
    requires UniqueNames(topology) && IsSchedule(topology, order)
    ensures Sortable(topology)
  {
    hide Edges, IsSchedule, UniqueNames, Acyclic;
    var rank := (v: string) => Rank(topology, order, v);
    forall u, v | (u, v) in Edges(topology) ensures rank(u) < rank(v) {
      EdgeRises(topology, order, u, v);
    }
    RankedIsAcyclic(Edges(topology), rank);
    ScheduledDepsAreListed(topology, order);
  }

  /** The position of `v` in the order; -1 if it has none. */
  ghost function Rank(topology: seq<Element>, order: seq<nat>, v: string): int {
    if k :| 0 <= k < |order| && order[k] < |topology| && topology[order[k]].name == v then k else -1
  }

  lemma RankAt(topology: seq<Element>, order: seq<nat>, k: nat)
    requires UniqueNames(topology) && InRange(topology, order) && NoRepeats(order) && k < |order|
    ensures Rank(topology, order, topology[order[k]].name) == k
  {
    var r := Rank(topology, order, topology[order[k]].name);
    assert order[r] == order[k];
  }

  lemma EdgeRises(topology: seq<Element>, order: seq<nat>, u: string, v: string)
    requires UniqueNames(topology) && IsSchedule(topology, order) && (u, v) in Edges(topology)
    ensures Rank(topology, order, u) < Rank(topology, order, v)
  {
    hide Rank, NoRepeats;
    var i, d :| 0 <= i < |topology| && 0 <= d < |topology[i].deps| && u == topology[i].deps[d] && v == topology[i].name;
    CoversAll(topology, order);
    assert i in order;
    var k :| 0 <= k < |order| && order[k] == i;
    assert u in topology[order[k]].deps;
    var j :| 0 <= j < k && topology[order[j]].name == u;
    RankAt(topology, order, k);
    RankAt(topology, order, j);
  }

  lemma ScheduledDepsAreListed(topology: seq<Element>, order: seq<nat>)
    requires IsSchedule(topology, order)
    ensures DepsListed(topology)
  {
    hide NoRepeats;
    CoversAll(topology, order);
    forall i, d | 0 <= i < |topology| && d in topology[i].deps ensures d in Names(topology) {
      assert i in order;
      var k :| 0 <= k < |order| && order[k] == i;
      assert d in topology[order[k]].deps;
      var j :| 0 <= j < k && topology[order[j]].name == d;
    }
  }

  lemma CoversAll(topology: seq<Element>, order: seq<nat>)
    requires |order| == |topology| && InRange(topology, order) && NoRepeats(order)
    ensures forall i :: 0 <= i < |topology| ==> i in order
  {
    forall i | 0 <= i < |topology| ensures i in order {
      if i !in order {
        DistinctBound(order + [i], |topology|);
      }
    }
  }

  lemma WaitsForLeft(topology: seq<Element>, removed: set<string>, v: string)
    requires DepsListed(topology) && v in Names(topology) - removed
    requires forall i :: 0 <= i < |topology| ==> !Ready(topology[i], removed)
    ensures HasPredecessor(Edges(topology), Names(topology) - removed, v)
  {
    var i :| 0 <= i < |topology| && topology[i].name == v;
    assert !Ready(topology[i], removed);
    var k :| 0 <= k < |topology[i].deps| && topology[i].deps[k] !in removed;
    var d := topology[i].deps[k];
    assert d in topology[i].deps;
    assert (d, v) in Edges(topology);
    assert d in Names(topology) - removed;
  }

  lemma SomethingIsLeft<A>(part: set<A>, whole: set<A>)
    requires part <= whole && |part| != |whole|
    ensures whole - part != {}
  {
    assert whole == part + (whole - part);
  }

  /** When every remaining element waits for a remaining dependency, the topology is not sortable. */
  lemma StuckIsUnsortable(topology: seq<Element>, removed: set<string>)
    requires removed <= Names(topology) && |removed| != |topology|
    requires forall i :: 0 <= i < |topology| ==> !Ready(topology[i], removed)
    ensures !Sortable(topology)
  {
    hide Names, Edges, UniqueNames, Ready, Acyclic, DepsListed;
    if Sortable(topology) {
      NamesBound(topology);
      SomethingIsLeft(removed, Names(topology));
      forall v | v in Names(topology) - removed ensures HasPredecessor(Edges(topology), Names(topology) - removed, v) {
        WaitsForLeft(topology, removed, v);
      }
      NoSourceIsCyclic(Edges(topology), Names(topology) - removed);
    }
  }

  /** When as many names are removed as there are elements, the order is a complete schedule. */
  lemma FullIsSchedule(topology: seq<Element>, removed: set<string>, order: seq<nat>)
    requires Partial(topology, removed, order) && |removed| == |topology|
    ensures IsSchedule(topology, order) && Sortable(topology)
  {
    NamesBound(topology);
    assert removed <= Names(topology);
    SubsetBound(removed, Names(topology));
    DistinctBound(order, |topology|);
    OrderBound(topology, order);
    ScheduleIsAcyclic(topology, order);
  }

  lemma SubsetBound<A>(a: set<A>, b: set<A>)
    requires a <= b
    ensures |a| <= |b| && (|a| == |b| ==> a == b)
  {
    assert b == a + (b - a);
  }

  lemma {:induction false} OrderBound(topology: seq<Element>, order: seq<nat>)
    requires InRange(topology, order)
    ensures |NamesOf(topology, order)| <= |order|
  {
    if order != [] {
      var rest := order[..|order| - 1];
      OrderBound(topology, rest);
      assert NamesOf(topology, order) == NamesOf(topology, rest) + {topology[order[|order| - 1]].name};
    } else {
      assert NamesOf(topology, order) == {};
    }
  }

  // ---------------------------------------------------------------------------------------------
  // Levels
  // ---------------------------------------------------------------------------------------------

  ghost predicate IsChain(edges: set<(string, string)>, p: seq<string>, v: string, k: nat) {
    IsPath(edges, p) && |p| == k + 1 && p[k] == v
  }

  /** A chain of `k` dependencies ends in `v`. */
  ghost predicate HasChain(edges: set<(string, string)>, v: string, k: nat) {
    exists p :: IsChain(edges, p, v, k)
  }

  /** The longest chain of dependencies that ends in `v` has `k` edges. */
  ghost predicate LevelIs(edges: set<(string, string)>, v: string, k: nat) {
    HasChain(edges, v, k) && !HasChain(edges, v, k + 1)
  }

  lemma ChainShortens(edges: set<(string, string)>, v: string, k: nat)
    requires HasChain(edges, v, k + 1)
    ensures HasChain(edges, v, k)
  {
    var p :| IsChain(edges, p, v, k + 1);
    Subpath(edges, p, 1, |p|);
    assert IsChain(edges, p[1..|p|], v, k);
  }

  lemma ChainExtends(edges: set<(string, string)>, u: string, v: string, k: nat)
    requires (u, v) in edges && HasChain(edges, u, k)
    ensures HasChain(edges, v, k + 1)
  {
    var p :| IsChain(edges, p, u, k);
    Append(edges, p, v);
    assert IsChain(edges, p + [v], v, k + 1);
  }

  lemma ChainEnds(edges: set<(string, string)>, v: string, k: nat) returns (u: string)
    requires HasChain(edges, v, k + 1)
    ensures (u, v) in edges && HasChain(edges, u, k)
  {
    var p :| IsChain(edges, p, v, k + 1);
    u := p[k];
    assert (p[k], p[k + 1]) in edges;
    Subpath(edges, p, 0, k + 1);
    assert IsChain(edges, p[0..k + 1], u, k);
  }

  lemma {:induction false} ChainAlongPath(edges: set<(string, string)>, p: seq<string>, i: nat, k: nat)
    requires IsPath(edges, p) && i < |p| && HasChain(edges, p[0], k)
    ensures HasChain(edges, p[i], k + i)
  {
    if i > 0 {
      ChainAlongPath(edges, p, i - 1, k);
      assert (p[i - 1], p[i - 1 + 1]) in edges;
      ChainExtends(edges, p[i - 1], p[i], k + i - 1);
    }
  }

  lemma {:induction false} ChainPrefix(edges: set<(string, string)>, v: string, j: nat, k: nat)
    requires j <= k && HasChain(edges, v, k)
    ensures HasChain(edges, v, j)
  {
    if j < k {
      ChainShortens(edges, v, k - 1);
      ChainPrefix(edges, v, j, k - 1);
    }
  }

  lemma LevelsDiffer(edges: set<(string, string)>, v: string, j: nat, k: nat)
    requires LevelIs(edges, v, j) && LevelIs(edges, v, k)
    ensures j == k
  {
    if j < k { ChainPrefix(edges, v, j + 1, k); }
    if k < j { ChainPrefix(edges, v, k + 1, j); }
  }

  /** Modules of one level do not depend on each other, even transitively. */
  lemma SameLevelIsIndependent(edges: set<(string, string)>, u: string, v: string, k: nat)
    requires LevelIs(edges, u, k) && LevelIs(edges, v, k)
    ensures !Reaches(edges, u, v) && !Reaches(edges, v, u)
  {
    forall a, b | LevelIs(edges, a, k) && LevelIs(edges, b, k) ensures !Reaches(edges, a, b) {
      if Reaches(edges, a, b) {
        var p :| IsPathBetween(edges, p, a, b);
        ChainAlongPath(edges, p, |p| - 1, k);
        ChainPrefix(edges, b, k + 1, k + |p| - 1);
      }
    }
  }

  /** After `k` waves exactly the names without a chain of `k` dependencies are removed. */
  ghost predicate AfterWaves(topology: seq<Element>, removed: set<string>, k: nat) {
    forall v :: v in Names(topology) ==> (v in removed <==> !HasChain(Edges(topology), v, k))
  }

  lemma NoWavesYet(topology: seq<Element>)
    ensures AfterWaves(topology, {}, 0)
  {
    forall v ensures HasChain(Edges(topology), v, 0) {
      assert IsChain(Edges(topology), [v], v, 0);
    }
  }

  lemma EdgeInto(topology: seq<Element>, i: nat, u: string)
    requires UniqueNames(topology) && i < |topology|
    ensures (u, topology[i].name) in Edges(topology) <==> u in topology[i].deps
  {
    if (u, topology[i].name) in Edges(topology) {
      var j, k :| 0 <= j < |topology| && 0 <= k < |topology[j].deps|
                  && topology[j].deps[k] == u && topology[j].name == topology[i].name;
      assert i == j;
    }
  }

  /** An element not removed yet is ready in wave `k` exactly when its longest chain has `k` edges. */
  lemma ReadyIsLevel(topology: seq<Element>, removed: set<string>, k: nat, i: nat)
    requires UniqueNames(topology) && DepsListed(topology) && AfterWaves(topology, removed, k) && i < |topology|
    ensures Ready(topology[i], removed) <==> LevelIs(Edges(topology), topology[i].name, k)
  {
    var e, edges := topology[i], Edges(topology);
    assert e.name in Names(topology);
    if Ready(e, removed) && HasChain(edges, e.name, k + 1) {
      var u := ChainEnds(edges, e.name, k);
      EdgeInto(topology, i, u);
    }
    if LevelIs(edges, e.name, k) {
      forall j | 0 <= j < |e.deps| ensures e.deps[j] in removed {
        var u := e.deps[j];
        assert u in e.deps && u in Names(topology);
        EdgeInto(topology, i, u);
        if HasChain(edges, u, k) { ChainExtends(edges, u, e.name, k); }
      }
    }
  }

  lemma NextWave(topology: seq<Element>, removed: set<string>, removed': set<string>, k: nat)
    requires UniqueNames(topology) && DepsListed(topology) && AfterWaves(topology, removed, k)
    requires forall i :: 0 <= i < |topology| ==>
               (topology[i].name in removed' <==> topology[i].name in removed || Ready(topology[i], removed))
    ensures AfterWaves(topology, removed', k + 1)
  {
    forall v | v in Names(topology) ensures v in removed' <==> !HasChain(Edges(topology), v, k + 1) {
      var i :| 0 <= i < |topology| && topology[i].name == v;
      ReadyIsLevel(topology, removed, k, i);
      if HasChain(Edges(topology), v, k + 1) { ChainShortens(Edges(topology), v, k); }
    }
  }

  // ---------------------------------------------------------------------------------------------
  // One pass over the elements
  // ---------------------------------------------------------------------------------------------

  method UpstreamAllRemoved(deps: seq<string>, removed: set<string>) returns (all: bool)
    ensures all <==> forall k :: 0 <= k < |deps| ==> deps[k] in removed
  {
    all := true;
    for j := 0 to |deps|
      invariant all && forall k :: 0 <= k < j ==> deps[k] in removed
    {
      if deps[j] !in removed {
        all := false;
        break;
      }
    }
  }

  lemma PartialExtends(topology: seq<Element>, removed: set<string>, order: seq<nat>, i: nat)
    requires Partial(topology, removed, order) && i < |topology| && Ready(topology[i], removed)
    ensures Partial(topology, removed + {topology[i].name}, order + [i])
  {
    var order' := order + [i];
    assert forall k :: 0 <= k < |order| ==> order'[k] == order[k];
    forall k, d | 0 <= k < |order'| && d in topology[order'[k]].deps
      ensures exists j :: 0 <= j < k && topology[order'[j]].name == d
    {
      if k == |order| {
        assert d in removed;
        var j :| 0 <= j < |order| && topology[order[j]].name == d;
        assert topology[order'[j]].name == d;
      } else {
        var j :| 0 <= j < k && topology[order[j]].name == d;
        assert topology[order'[j]].name == d;
      }
    }
    assert NamesOf(topology, order') == NamesOf(topology, order) + {topology[i].name} by {
      assert order'[|order|] == i;
    }
  }

  /** The pass taken without `parallel_modules`: an element is removed as soon as it is found ready. */
  method SequentialPass(
      settings: Settings, topology: seq<Element>, removed0: set<string>, sorted0: seq<Runnable>,
      ghost order0: seq<nat>, ghost pass0: seq<nat>, ghost n: nat)
    returns (removed: set<string>, sorted: seq<Runnable>, found: bool, ghost order: seq<nat>, ghost pass: seq<nat>)
    requires Partial(topology, removed0, order0) && sorted0 == Resolved(settings, topology, order0)
    requires Scanned(topology, removed0, order0, pass0, n, 0)
    ensures Partial(topology, removed, order) && sorted == Resolved(settings, topology, order)
    ensures Scanned(topology, removed, order, pass, n + 1, 0)
    ensures found ==> removed0 < removed
    ensures !found ==> removed == removed0 && forall i :: 0 <= i < |topology| ==> !Ready(topology[i], removed)
  {
    hide Scanned, Resolved, Partial, Ready;
    RemovedAreNames(topology, removed0, order0);
    removed, sorted, found, order, pass := removed0, sorted0, false, order0, pass0;
    for i := 0 to |topology|
      invariant Partial(topology, removed, order) && InRange(topology, order)
      invariant sorted == Resolved(settings, topology, order)
      invariant Scanned(topology, removed, order, pass, n, i)
      invariant removed0 <= removed && (found ==> removed0 < removed) && (!found ==> removed == removed0)
      invariant !found ==> forall j :: 0 <= j < i ==> !Ready(topology[j], removed)
    {
      ghost var ready := Ready(topology[i], removed);
      if !ready {
        ScanPast(topology, removed, order, pass, n, i);
      }
      if topology[i].name !in removed {
        var upstreamAllRemoved := UpstreamAllRemoved(topology[i].deps, removed);
        ReadyMeans(topology[i], removed);
        if upstreamAllRemoved {
          found := true;
          PartialExtends(topology, removed, order, i);
          ScanPlace(topology, removed, order, pass, n, i);
          ResolvedAppend(settings, topology, order, i);
          removed := removed + {topology[i].name};
          sorted := sorted + [settings.Resolve(topology[i])];
          order, pass := order + [i], pass + [n];
        }
      } else {
        ReadyMeans(topology[i], removed);
      }
    }
    ScanNextPass(topology, removed, order, pass, n);
  }

  lemma ReadyMeans(e: Element, removed: set<string>)
    ensures Ready(e, removed) <==> e.name !in removed && forall k :: 0 <= k < |e.deps| ==> e.deps[k] in removed
  {
  }

  /** The indices below `n` that are ready, in declared order. */
  function ReadyUpTo(topology: seq<Element>, removed: set<string>, n: nat): (wave: seq<nat>)
    requires n <= |topology|
    ensures forall k :: 0 <= k < |wave| ==> wave[k] < n && Ready(topology[wave[k]], removed)
    ensures forall j, k :: 0 <= j < k < |wave| ==> wave[j] < wave[k]
    ensures forall i :: 0 <= i < n && Ready(topology[i], removed) ==> i in wave
  {
    if n == 0 then []
    else ReadyUpTo(topology, removed, n - 1) + (if Ready(topology[n - 1], removed) then [n - 1] else [])
  }

  /** The names of the elements of `wave` that go into the list `kind`. */
  function Picked(settings: Settings, topology: seq<Element>, wave: seq<nat>, kind: Kind): seq<string>
    requires forall k :: 0 <= k < |wave| ==> wave[k] < |topology|
  {
    if wave == [] then []
    else
      var last := topology[wave[|wave| - 1]];
      Picked(settings, topology, wave[..|wave| - 1], kind) + (if settings.Is(kind, last) then [last.name] else [])
  }

  lemma PickedAppend(settings: Settings, topology: seq<Element>, wave: seq<nat>, i: nat, kind: Kind)
    requires InRange(topology, wave) && i < |topology|
    ensures InRange(topology, wave + [i])
    ensures Picked(settings, topology, wave + [i], kind)
            == Picked(settings, topology, wave, kind) + if settings.Is(kind,
              topology[i]) then [topology[i].name] else []
  {
    assert (wave + [i])[..|wave|] == wave;
  }

  lemma ResolvedAppend(settings: Settings, topology: seq<Element>, order: seq<nat>, i: nat)
    requires InRange(topology, order) && i < |topology|
    ensures InRange(topology, order + [i])
    ensures Resolved(settings, topology, order + [i]) ==
        Resolved(settings, topology, order) + [settings.Resolve(topology[i])]
  {
  }

  /** The pass taken with `parallel_modules`: nothing is removed before the end of the pass. */
  method ParallelPass(settings: Settings, topology: seq<Element>, removed: set<string>, sorted0: seq<Runnable>)
    returns (sync: seq<string>, async: seq<string>, allowed: seq<string>, sorted: seq<Runnable>, found: bool)
    ensures var wave := ReadyUpTo(topology, removed, |topology|);
            && sorted == sorted0 + Resolved(settings, topology, wave)
            && (found <==> wave != [])
            && sync == Picked(settings, topology, wave, Sync)
            && async == Picked(settings, topology, wave, Async)
            && allowed == Picked(settings, topology, wave, AllowedSync)
  {
    hide Picked, Resolved, Settings.Resolve, ReadyUpTo;
    sync, async, allowed, sorted, found := [], [], [], sorted0, false;
    ghost var wave := [];
    PickedNothing(settings, topology);
    ReadyUpToStart(topology, removed);
    for i := 0 to |topology|
      invariant wave == ReadyUpTo(topology, removed, i)
      invariant sorted == sorted0 + Resolved(settings, topology, wave)
      invariant found <==> wave != []
      invariant sync == Picked(settings, topology, wave, Sync)
      invariant async == Picked(settings, topology, wave, Async)
      invariant allowed == Picked(settings, topology, wave, AllowedSync)
    {
      ReadyUpToStep(topology, removed, i);
      if topology[i].name !in removed {
        var upstreamAllRemoved := UpstreamAllRemoved(topology[i].deps, removed);
        if upstreamAllRemoved {
          found := true;
          ResolvedAppend(settings, topology, wave, i);
          PickedAppend(settings, topology, wave, i, Sync);
          PickedAppend(settings, topology, wave, i, Async);
          PickedAppend(settings, topology, wave, i, AllowedSync);
          if settings.SyncElement(topology[i]) {
            sync := sync + [topology[i].name];
            if settings.checkAllowParallel && topology[i].allowParallel {
              allowed := allowed + [topology[i].name];
            }
          } else {
            async := async + [topology[i].name];
          }
          sorted := sorted + [settings.Resolve(topology[i])];
          wave := wave + [i];
        }
      }
    }
  }

  lemma ReadyUpToStart(topology: seq<Element>, removed: set<string>)
    ensures ReadyUpTo(topology, removed, 0) == []
  {
  }

  lemma ReadyUpToStep(topology: seq<Element>, removed: set<string>, i: nat)
    requires i < |topology|
    ensures ReadyUpTo(topology, removed, i + 1)
            == ReadyUpTo(topology, removed, i) + if Ready(topology[i], removed) then [i] else []
  {
  }

  lemma PickedNothing(settings: Settings, topology: seq<Element>)
    ensures forall kind :: Picked(settings, topology, [], kind) == []
    ensures Resolved(settings, topology, []) == []
  {
  }

  lemma {:induction false} PickedContents(settings: Settings, topology: seq<Element>, wave: seq<nat>, kind: Kind)
    requires InRange(topology, wave) && NoRepeats(wave)
    ensures forall x :: x in Picked(settings, topology, wave, kind) <==>
      exists k :: 0 <= k < |wave| && settings.Is(kind, topology[wave[k]]) && topology[wave[k]].name == x
    ensures |Picked(settings, topology, wave, kind)| > 1 <==>
      exists j, k :: 0 <= j < k < |wave| && settings.Is(kind, topology[wave[j]]) && settings.Is(kind, topology[wave[k]])
    ensures |Picked(settings, topology, wave, kind)| > 0 <==>
        exists k :: 0 <= k < |wave| && settings.Is(kind, topology[wave[k]])
  {
    hide Settings.Is;
    forall x
      ensures x in Picked(settings, topology, wave, kind) <==>
        exists k :: 0 <= k < |wave| && settings.Is(kind, topology[wave[k]]) && topology[wave[k]].name == x
    {
      PickedMember(settings, topology, wave, kind, x);
    }
    PickedSome(settings, topology, wave, kind);
    PickedTwo(settings, topology, wave, kind);
  }

  lemma {:induction false} PickedMember(
      settings: Settings, topology: seq<Element>, wave: seq<nat>, kind: Kind, x: string)
    requires InRange(topology, wave)
    ensures x in Picked(settings, topology, wave, kind)
            <==> exists k :: 0 <= k < |wave| && settings.Is(kind, topology[wave[k]]) && topology[wave[k]].name == x
  {
    hide Settings.Is;
    if wave != [] {
      var rest := wave[..|wave| - 1];
      PickedMember(settings, topology, rest, kind, x);
      assert forall k :: 0 <= k < |rest| ==> rest[k] == wave[k];
    }
  }

  lemma {:induction false} PickedSome(settings: Settings, topology: seq<Element>, wave: seq<nat>, kind: Kind)
    requires InRange(topology, wave)
    ensures |Picked(settings, topology, wave, kind)| > 0 <==>
        exists k :: 0 <= k < |wave| && settings.Is(kind, topology[wave[k]])
  {
    hide Settings.Is;
    if wave != [] {
      var rest := wave[..|wave| - 1];
      PickedSome(settings, topology, rest, kind);
      assert forall k :: 0 <= k < |rest| ==> rest[k] == wave[k];
    }
  }

  lemma {:induction false} PickedTwo(settings: Settings, topology: seq<Element>, wave: seq<nat>, kind: Kind)
    requires InRange(topology, wave)
    ensures |Picked(settings, topology, wave, kind)| > 1 <==>
      exists j, k :: 0 <= j < k < |wave| && settings.Is(kind, topology[wave[j]]) && settings.Is(kind, topology[wave[k]])
  {
    hide Settings.Is;
    if wave != [] {
      var rest := wave[..|wave| - 1];
      PickedTwo(settings, topology, rest, kind);
      PickedSome(settings, topology, rest, kind);
      assert forall k :: 0 <= k < |rest| ==> rest[k] == wave[k];
    }
  }

  lemma PartialWave(topology: seq<Element>, removed: set<string>, order: seq<nat>, wave: seq<nat>)
    requires Partial(topology, removed, order) && InRange(topology, wave) && NoRepeats(wave)
    requires forall k :: 0 <= k < |wave| ==> Ready(topology[wave[k]], removed)
    ensures Partial(topology, removed + NamesOf(topology, wave), order + wave)
  {
    var order' := order + wave;
    assert InRange(topology, order') && forall k :: 0 <= k < |order| ==> order'[k] == order[k];
    assert forall k :: |order| <= k < |order'| ==> order'[k] == wave[k - |order|];
    assert NoRepeats(order') by {
      forall j, k | 0 <= j < k < |order'| ensures order'[j] != order'[k] {
        if j < |order| <= k {
          assert topology[order[j]].name in removed && Ready(topology[wave[k - |order|]], removed);
        }
      }
    }
    forall k, d | 0 <= k < |order'| && d in topology[order'[k]].deps
      ensures exists j :: 0 <= j < k && topology[order'[j]].name == d
    {
      if k < |order| {
        var j :| 0 <= j < k && topology[order[j]].name == d;
        assert topology[order'[j]].name == d;
      } else {
        assert d in removed;
        var j :| 0 <= j < |order| && topology[order[j]].name == d;
        assert topology[order'[j]].name == d;
      }
    }
    forall k | 0 <= k < |wave| ensures topology[wave[k]].name in NamesOf(topology, order') {
      assert order'[|order| + k] == wave[k];
    }
    assert NamesOf(topology, order') == removed + NamesOf(topology, wave);
  }

  // ---------------------------------------------------------------------------------------------
  // Which modules may run in parallel
  // ---------------------------------------------------------------------------------------------

  /** `level[k]` is the number of the wave that produced `order[k]`; `n` waves have run. */
  ghost predicate Leveled(order: seq<nat>, level: seq<nat>, n: nat) {
    && |level| == |order|
    && (forall k :: 0 <= k < |level| ==> level[k] < n)
    && forall j, k :: 0 <= j < k < |order| ==> level[j] < level[k] || (level[j] == level[k] && order[j] < order[k])
  }

  /** Position `k` holds a sync element that the flag allows, or that shares its wave with another one. */
  ghost predicate ParallelAt(settings: Settings, topology: seq<Element>, order: seq<nat>, level: seq<nat>, k: nat)
    requires InRange(topology, order) && |level| == |order| && k < |order|
  {
    if settings.checkAllowParallel then settings.Is(AllowedSync, topology[order[k]])
    else settings.Is(Sync, topology[order[k]])
         && exists j :: 0 <= j < |order| && j != k && level[j] == level[k] && settings.Is(Sync, topology[order[j]])
  }

  ghost predicate ParallelNames(
      settings: Settings, topology: seq<Element>, order: seq<nat>, level: seq<nat>, names: set<string>)
    requires InRange(topology, order) && |level| == |order|
  {
    forall x :: x in names <==>
      exists k :: 0 <= k < |order| && topology[order[k]].name == x && ParallelAt(settings, topology, order, level, k)
  }

  function ToSet(names: seq<string>): (r: set<string>)
    ensures forall x :: x in r <==> x in names
  {
    set x | x in names
  }

  ghost function Repeat(x: nat, times: nat): (r: seq<nat>)
    ensures |r| == times && forall k :: 0 <= k < times ==> r[k] == x
  {
    seq(times, _ => x)
  }

  /** What one wave adds to `parallel_modules`. */
  function WaveParallel(settings: Settings, topology: seq<Element>, wave: seq<nat>): set<string>
    requires forall k :: 0 <= k < |wave| ==> wave[k] < |topology|
  {
    if settings.checkAllowParallel then ToSet(Picked(settings, topology, wave, AllowedSync))
    else if |Picked(settings, topology, wave, Sync)| > 1 then ToSet(Picked(settings, topology, wave, Sync))
    else {}
  }

  lemma ParallelAtWave(
      settings: Settings, topology: seq<Element>, order: seq<nat>, level: seq<nat>, wave: seq<nat>, n: nat,
      k: nat)
    requires InRange(topology, order) && Leveled(order, level, n)
    requires InRange(topology, wave) && NoRepeats(wave)
    requires k < |order + wave|
    ensures InRange(topology, order + wave)
    ensures var order', level' := order + wave, level + Repeat(n, |wave|);
            ParallelAt(settings, topology, order', level', k)
            <==> if k < |order| then ParallelAt(settings, topology, order, level, k)
                 else if settings.checkAllowParallel then settings.Is(AllowedSync, topology[wave[k - |order|]])
                 else settings.Is(Sync, topology[wave[k - |order|]]) && |Picked(settings, topology, wave, Sync)| > 1
  {
    hide Picked, Settings.Is;
    var order', level' := order + wave, level + Repeat(n, |wave|);
    PickedContents(settings, topology, wave, Sync);
    assert forall j :: 0 <= j < |order| ==> order'[j] == order[j] && level'[j] == level[j] && level[j] < n;
    assert forall j :: |order| <= j < |order'| ==> order'[j] == wave[j - |order|] && level'[j] == n;
    if !settings.checkAllowParallel {
      if k < |order| {
        if ParallelAt(settings, topology, order, level, k) {
          var j :| 0 <= j < |order| && j != k && level[j] == level[k] && settings.Is(Sync, topology[order[j]]);
          assert level'[j] == level'[k] && settings.Is(Sync, topology[order'[j]]);
        }
      } else if settings.Is(Sync, topology[wave[k - |order|]]) && |Picked(settings, topology, wave, Sync)| > 1 {
        var a, b :| 0 <= a < b < |wave| && settings.Is(Sync, topology[wave[a]]) && settings.Is(Sync, topology[wave[b]]);
        var j := if a + |order| == k then b + |order| else a + |order|;
        assert level'[j] == level'[k] && settings.Is(Sync, topology[order'[j]]);
      }
    }
  }

  lemma ParallelNamesWave(
      settings: Settings, topology: seq<Element>, order: seq<nat>, level: seq<nat>, wave: seq<nat>, n: nat,
      names: set<string>)
    requires InRange(topology, order) && Leveled(order, level, n)
    requires InRange(topology, wave) && NoRepeats(wave)
    requires ParallelNames(settings, topology, order, level, names)
    ensures InRange(topology, order + wave)
    ensures ParallelNames(settings, topology, order + wave, level + Repeat(n, |wave|),
                          names + WaveParallel(settings, topology, wave))
  {
    hide Picked, Settings.Is, ParallelAt;
    var order', level' := order + wave, level + Repeat(n, |wave|);
    var names' := names + WaveParallel(settings, topology, wave);
    PickedContents(settings, topology, wave, Sync);
    PickedContents(settings, topology, wave, AllowedSync);
    forall k | 0 <= k < |order'|
      ensures ParallelAt(settings, topology, order', level', k) ==> topology[order'[k]].name in names'
    {
      ParallelAtWave(settings, topology, order, level, wave, n, k);
      if k < |order| {
        assert order'[k] == order[k];
      } else {
        var i := k - |order|;
        assert order'[k] == wave[i];
        var kind := if settings.checkAllowParallel then AllowedSync else Sync;
        if settings.Is(kind, topology[wave[i]]) {
          assert topology[wave[i]].name in Picked(settings, topology, wave, kind);
        }
      }
    }
    forall x | x in names'
      ensures exists k ::
        0 <= k < |order'| && topology[order'[k]].name == x && ParallelAt(settings, topology, order', level', k)
    {
      var k: nat;
      if x in names {
        k :| 0 <= k < |order| && topology[order[k]].name == x && ParallelAt(settings, topology, order, level, k);
        assert order'[k] == order[k];
      } else {
        var kind := if settings.checkAllowParallel then AllowedSync else Sync;
        assert x in Picked(settings, topology, wave, kind);
        var i :| 0 <= i < |wave| && settings.Is(kind, topology[wave[i]]) && topology[wave[i]].name == x;
        k := |order| + i;
        assert order'[k] == wave[i];
      }
      ParallelAtWave(settings, topology, order, level, wave, n, k);
    }
  }

  lemma LeveledWave(order: seq<nat>, level: seq<nat>, wave: seq<nat>, n: nat)
    requires Leveled(order, level, n) && forall j, k :: 0 <= j < k < |wave| ==> wave[j] < wave[k]
    ensures Leveled(order + wave, level + Repeat(n, |wave|), n + 1)
  {
  }

  lemma WaveNames(settings: Settings, topology: seq<Element>, wave: seq<nat>)
    requires InRange(topology, wave) && NoRepeats(wave)
    ensures ToSet(Picked(settings, topology, wave, Sync)) + ToSet(Picked(settings, topology, wave, Async)) ==
        NamesOf(topology, wave)
  {
    PickedContents(settings, topology, wave, Sync);
    PickedContents(settings, topology, wave, Async);
    hide Picked;
    forall k | 0 <= k < |wave|
      ensures topology[wave[k]].name in ToSet(Picked(settings, topology, wave, Sync)) + ToSet(Picked(settings,
          topology, wave, Async))
    {
      var kind := if settings.Is(Sync, topology[wave[k]]) then Sync else Async;
      assert settings.Is(kind, topology[wave[k]]);
      assert topology[wave[k]].name in Picked(settings, topology, wave, kind);
    }
  }

  // ---------------------------------------------------------------------------------------------
  // The sort
  // ---------------------------------------------------------------------------------------------

  /** Elements come out level by level, and in declared order within a level. */
  ghost predicate ByLevel(topology: seq<Element>, order: seq<nat>, level: seq<nat>)
    requires InRange(topology, order)
  {
    && |level| == |order|
    && (forall k :: 0 <= k < |order| ==> LevelIs(Edges(topology), topology[order[k]].name, level[k]))
    && forall j, k :: 0 <= j < k < |order| ==> level[j] < level[k] || (level[j] == level[k] && order[j] < order[k])
  }

  /** A sync element that the flag allows or, without the flag, that shares its level with another sync element. */
  ghost predicate MayRunInParallel(settings: Settings, topology: seq<Element>, i: nat)
    requires i < |topology|
  {
    && RunsSync(settings, topology[i].name)
    && if settings.checkAllowParallel then topology[i].allowParallel
       else exists j, l :: 0 <= j < |topology| && j != i && RunsSync(settings, topology[j].name)
                           && SameLevel(topology, i, j, l)
  }

  /** The type test holds of the factory that the map gives to `name`, the empty string if it has none. */
  ghost predicate RunsSync(settings: Settings, name: string) {
    if name in settings.factories then settings.isSync(settings.factories[name]) else settings.isSync("")
  }

  ghost predicate SameLevel(topology: seq<Element>, i: nat, j: nat, l: nat)
    requires i < |topology| && j < |topology|
  {
    LevelIs(Edges(topology), topology[i].name, l) && LevelIs(Edges(topology), topology[j].name, l)
  }

  lemma SyncIsByFactory(settings: Settings, e: Element)
    ensures settings.SyncElement(e) <==> RunsSync(settings, e.name)
  {
  }

  /** `r` is what becomes of element `e`: its name, its dependencies and its factory. */
  ghost predicate Carries(settings: Settings, r: Runnable, e: Element) {
    && r.name == e.name && r.deps == e.deps
    && r.factory == if e.name in settings.factories then settings.factories[e.name] else ""
  }

  lemma ResolvedCarries(settings: Settings, topology: seq<Element>, order: seq<nat>)
    requires InRange(topology, order)
    ensures |Resolved(settings, topology, order)| == |order|
    ensures forall k :: 0 <= k < |order| ==>
              Carries(settings, Resolved(settings, topology, order)[k], topology[order[k]])
  {
  }

  /** `sorted` lists the elements in a schedule, level by level when `parallel` and pass by pass otherwise. */
  ghost predicate SortedAs(
      settings: Settings, topology: seq<Element>, parallel: bool, sorted: seq<Runnable>, order: seq<nat>,
      level: seq<nat>) {
    && IsSchedule(topology, order) && |sorted| == |order|
    && (forall k :: 0 <= k < |order| ==> Carries(settings, sorted[k], topology[order[k]]))
    && (if parallel then ByLevel(topology, order, level) else Greedy(topology, order, level))
  }

  /** What a run of waves leaves behind. */
  ghost predicate Waved(
      settings: Settings, topology: seq<Element>, removed: set<string>, order: seq<nat>, level: seq<nat>, n: nat,
      names: set<string>) {
    && InRange(topology, order) && Leveled(order, level, n)
    && ParallelNames(settings, topology, order, level, names)
    && (UniqueNames(topology) && DepsListed(topology) ==>
          && AfterWaves(topology, removed, n)
          && forall k :: 0 <= k < |order| ==> LevelIs(Edges(topology), topology[order[k]].name, level[k]))
  }

  lemma WavedStart(settings: Settings, topology: seq<Element>)
    ensures Waved(settings, topology, {}, [], [], 0, {})
  {
    NoWavesYet(topology);
  }

  lemma WavedStep(
      settings: Settings, topology: seq<Element>, removed: set<string>, order: seq<nat>, level: seq<nat>, n: nat,
      names: set<string>)
    requires Waved(settings, topology, removed, order, level, n, names)
    ensures var wave := ReadyUpTo(topology, removed, |topology|);
            Waved(settings, topology, removed + NamesOf(topology, wave), order + wave, level + Repeat(n, |wave|), n + 1,
                  names + WaveParallel(settings, topology, wave))
  {
    hide LevelIs, ParallelNames, Edges, Picked;
    var wave := ReadyUpTo(topology, removed, |topology|);
    var order', level' := order + wave, level + Repeat(n, |wave|);
    LeveledWave(order, level, wave, n);
    ParallelNamesWave(settings, topology, order, level, wave, n, names);
    if UniqueNames(topology) && DepsListed(topology) {
      var removed' := removed + NamesOf(topology, wave);
      forall i | 0 <= i < |topology|
        ensures topology[i].name in removed' <==> topology[i].name in removed || Ready(topology[i], removed)
      {
        if Ready(topology[i], removed) {
          var k :| 0 <= k < |wave| && wave[k] == i;
          assert topology[wave[k]].name in NamesOf(topology, wave);
        }
      }
      NextWave(topology, removed, removed', n);
      forall k | 0 <= k < |order'| ensures LevelIs(Edges(topology), topology[order'[k]].name, level'[k]) {
        if k >= |order| {
          assert order'[k] == wave[k - |order|];
          ReadyIsLevel(topology, removed, n, order'[k]);
        }
      }
    }
  }

  lemma WavedByLevel(
      settings: Settings, topology: seq<Element>, removed: set<string>, order: seq<nat>, level: seq<nat>, n: nat,
      names: set<string>)
    requires Waved(settings, topology, removed, order, level, n, names) && Sortable(topology)
    ensures ByLevel(topology, order, level)
  {
  }

  lemma ParallelIffMay(
      settings: Settings, topology: seq<Element>, removed: set<string>, order: seq<nat>, level: seq<nat>, n: nat,
      names: set<string>, k: nat)
    requires Waved(settings, topology, removed, order, level, n, names)
    requires Sortable(topology) && IsSchedule(topology, order)
    requires k < |order|
    ensures ParallelAt(settings, topology, order, level, k) <==> MayRunInParallel(settings, topology, order[k])
  {
    hide LevelIs, ParallelNames, Edges, AfterWaves, DepsFirst, RunsSync, Settings.SyncElement;
    SyncIsByFactory(settings, topology[order[k]]);
    if !settings.checkAllowParallel {
      if ParallelAt(settings, topology, order, level, k) {
        var j :| 0 <= j < |order| && j != k && level[j] == level[k] && settings.Is(Sync, topology[order[j]]);
        SyncIsByFactory(settings, topology[order[j]]);
        assert order[j] != order[k] && RunsSync(settings, topology[order[j]].name);
        assert SameLevel(topology, order[k], order[j], level[k]);
      }
      if MayRunInParallel(settings, topology, order[k]) {
        var i, l :| 0 <= i < |topology| && i != order[k] && RunsSync(settings, topology[i].name)
                    && SameLevel(topology, order[k], i, l);
        SyncIsByFactory(settings, topology[i]);
        CoversAll(topology, order);
        assert i in order;
        var j :| 0 <= j < |order| && order[j] == i;
        LevelsDiffer(Edges(topology), topology[order[k]].name, l, level[k]);
        LevelsDiffer(Edges(topology), topology[i].name, l, level[j]);
        assert settings.Is(Sync, topology[order[j]]);
      }
    }
  }

  lemma WavedParallel(
      settings: Settings, topology: seq<Element>, removed: set<string>, order: seq<nat>, level: seq<nat>, n: nat,
      names: set<string>)
    requires Waved(settings, topology, removed, order, level, n, names)
    requires Sortable(topology) && IsSchedule(topology, order)
    ensures forall x :: x in names <==>
              exists i :: 0 <= i < |topology| && topology[i].name == x && MayRunInParallel(settings, topology, i)
  {
    hide LevelIs, Edges, AfterWaves, DepsFirst, ParallelAt, MayRunInParallel;
    CoversAll(topology, order);
    forall k | 0 <= k < |order|
      ensures ParallelAt(settings, topology, order, level, k) <==> MayRunInParallel(settings, topology, order[k])
    {
      ParallelIffMay(settings, topology, removed, order, level, n, names, k);
    }
    forall x
      ensures x in names <==>
        exists i :: 0 <= i < |topology| && topology[i].name == x && MayRunInParallel(settings, topology, i)
    {
      if x in names {
        var k :| 0 <= k < |order| && topology[order[k]].name == x && ParallelAt(settings, topology, order, level, k);
        assert MayRunInParallel(settings, topology, order[k]);
      }
      if i :| 0 <= i < |topology| && topology[i].name == x && MayRunInParallel(settings, topology, i) {
        assert i in order;
        var k :| 0 <= k < |order| && order[k] == i;
        assert ParallelAt(settings, topology, order, level, k);
      }
    }
  }

  /** One round of the outer loop when `parallel_modules` is supplied. */
  method ParallelRound(
      settings: Settings, topology: seq<Element>, removed0: set<string>, sorted0: seq<Runnable>,
      names0: set<string>, ghost order0: seq<nat>, ghost level0: seq<nat>, ghost n: nat)
    returns (removed: set<string>, sorted: seq<Runnable>, names: set<string>, found: bool, ghost order: seq<nat>,
      ghost level: seq<nat>)
    requires Partial(topology, removed0, order0) && sorted0 == Resolved(settings, topology, order0)
    requires Waved(settings, topology, removed0, order0, level0, n, names0)
    ensures Partial(topology, removed, order) && sorted == Resolved(settings, topology, order)
    ensures Waved(settings, topology, removed, order, level, n + 1, names)
    ensures found ==> removed0 < removed
    ensures !found ==> removed == removed0 && forall i :: 0 <= i < |topology| ==> !Ready(topology[i], removed)
  {
    hide Resolved, Waved, Picked, NamesOf, Ready, Partial, ReadyUpTo, ToSet;
    var sync, async, allowed;
    sync, async, allowed, sorted, found := ParallelPass(settings, topology, removed0, sorted0);
    ghost var wave := ReadyUpTo(topology, removed0, |topology|);
    RoundFacts(settings, topology, removed0, order0, wave);
    WavedStep(settings, topology, removed0, order0, level0, n, names0);
    names := names0;
    if settings.checkAllowParallel {
      names := names + ToSet(allowed);
    } else if |sync| > 1 {
      names := names + ToSet(sync);
    }
    removed := removed0 + ToSet(sync) + ToSet(async);
    assert names == names0 + WaveParallel(settings, topology, wave);
    order, level := order0 + wave, level0 + Repeat(n, |wave|);
  }

  lemma RoundFacts(settings: Settings, topology: seq<Element>, removed: set<string>, order: seq<nat>, wave: seq<nat>)
    requires Partial(topology, removed, order) && wave == ReadyUpTo(topology, removed, |topology|)
    ensures Partial(topology, removed + NamesOf(topology, wave), order + wave)
    ensures Resolved(settings, topology, order + wave) ==
        Resolved(settings, topology, order) + Resolved(settings, topology, wave)
    ensures removed + ToSet(Picked(settings, topology, wave, Sync)) + ToSet(Picked(settings, topology, wave, Async))
            == removed + NamesOf(topology, wave)
    ensures if wave != [] then removed < removed + NamesOf(topology, wave)
            else removed + NamesOf(topology, wave) == removed && forall i :: 0 <= i < |topology| ==>
              !Ready(topology[i], removed)
  {
    hide Resolved, Picked, NamesOf, Ready, ToSet, DepsFirst;
    assert forall j, k :: 0 <= j < k < |wave| ==> wave[j] < wave[k];
    PartialWave(topology, removed, order, wave);
    ResolvedConcat(settings, topology, order, wave);
    WaveNames(settings, topology, wave);
    WaveIsNew(topology, removed, wave);
  }

  // ---------------------------------------------------------------------------------------------
  // The sequential mode: passes over the declared order
  // ---------------------------------------------------------------------------------------------

  /** An element placed in `pass` at `index` comes after the scan of element `m` in pass `n - 1`. */
  ghost predicate Late(pass: nat, index: nat, n: nat, m: nat) { pass >= n || (pass + 1 == n && index > m) }

  /** Some dependency of element `m` had not been removed when pass `n - 1` scanned it. */
  ghost predicate Waits(topology: seq<Element>, order: seq<nat>, pass: seq<nat>, n: nat, m: nat)
    requires InRange(topology, order) && |pass| == |order| && m < |topology|
  {
    n == 0 || exists d :: d in topology[m].deps && LatelyRemoved(topology, order, pass, n, m, d)
  }

  ghost predicate LatelyRemoved(topology: seq<Element>, order: seq<nat>, pass: seq<nat>, n: nat, m: nat, d: string)
    requires InRange(topology, order) && |pass| == |order|
  {
    forall j :: 0 <= j < |order| && topology[order[j]].name == d ==> Late(pass[j], order[j], n, m)
  }

  /** The element at position `k` could not have been placed in an earlier pass. */
  ghost predicate HeldBack(topology: seq<Element>, order: seq<nat>, pass: seq<nat>, k: nat)
    requires InRange(topology, order) && |pass| == |order| && k < |order|
  {
    exists j :: 0 <= j < k && topology[order[j]].name in topology[order[k]].deps &&
      Late(pass[j], order[j], pass[k], order[k])
  }

  /** Pass by pass in declared order, and every element in the first pass that can take it. */
  ghost predicate Greedy(topology: seq<Element>, order: seq<nat>, pass: seq<nat>)
    requires InRange(topology, order)
  {
    && |pass| == |order|
    && (forall j, k :: 0 <= j < k < |order| ==> pass[j] < pass[k] || (pass[j] == pass[k] && order[j] < order[k]))
    && (forall k :: 0 <= k < |order| && pass[k] > 0 ==> HeldBack(topology, order, pass, k))
  }

  /** The state in pass `n` before element `i` is scanned. */
  ghost predicate Scanned(
      topology: seq<Element>, removed: set<string>, order: seq<nat>, pass: seq<nat>, n: nat, i: nat) {
    && InRange(topology, order) && |pass| == |order| && Greedy(topology, order, pass)
    && (forall j :: 0 <= j < |order| ==> pass[j] < n || (pass[j] == n && order[j] < i))
    && (forall m :: 0 <= m < |topology| && topology[m].name !in removed ==>
        Waits(topology, order, pass, if m < i then n + 1 else n, m))
  }

  lemma ScanStart(topology: seq<Element>)
    ensures Scanned(topology, {}, [], [], 0, 0)
  {
  }

  lemma ScanNextPass(topology: seq<Element>, removed: set<string>, order: seq<nat>, pass: seq<nat>, n: nat)
    requires Scanned(topology, removed, order, pass, n, |topology|)
    ensures Scanned(topology, removed, order, pass, n + 1, 0)
  {
    hide Waits, Greedy;
  }

  lemma ScanPast(topology: seq<Element>, removed: set<string>, order: seq<nat>, pass: seq<nat>, n: nat, i: nat)
    requires Partial(topology, removed, order) && Scanned(topology, removed, order, pass, n, i) && i < |topology|
    requires !Ready(topology[i], removed)
    ensures Scanned(topology, removed, order, pass, n, i + 1)
  {
    hide Greedy, DepsFirst;
    if topology[i].name !in removed {
      var k :| 0 <= k < |topology[i].deps| && topology[i].deps[k] !in removed;
      var d := topology[i].deps[k];
      assert d in topology[i].deps;
      forall j | 0 <= j < |order| ensures topology[order[j]].name != d {
        assert topology[order[j]].name in NamesOf(topology, order);
      }
      assert LatelyRemoved(topology, order, pass, n + 1, i, d);
      assert Waits(topology, order, pass, n + 1, i);
    }
    hide Waits;
  }

  lemma ScanPlace(topology: seq<Element>, removed: set<string>, order: seq<nat>, pass: seq<nat>, n: nat, i: nat)
    requires Partial(topology, removed, order) && Scanned(topology, removed, order, pass, n, i) && i < |topology|
    requires Ready(topology[i], removed)
    ensures Scanned(topology, removed + {topology[i].name}, order + [i], pass + [n], n, i + 1)
  {
    hide Waits, HeldBack, DepsFirst, NamesOf, Ready;
    var order', pass' := order + [i], pass + [n];
    assert forall k :: 0 <= k < |order| ==> order'[k] == order[k] && pass'[k] == pass[k];
    forall k | 0 <= k < |order'| && pass'[k] > 0 ensures HeldBack(topology, order', pass', k) {
      if k < |order| {
        HeldBackStays(topology, order, pass, n, i, k);
      } else {
        ReadyMeans(topology[i], removed);
        PlacedIsHeldBack(topology, removed, order, pass, n, i);
      }
    }
    forall m | 0 <= m < |topology| && topology[m].name !in removed && topology[m].name != topology[i].name
      ensures Waits(topology, order', pass', if m < i + 1 then n + 1 else n, m)
    {
      WaitsStays(topology, order, pass, n, i, m);
    }
  }

  lemma HeldBackStays(topology: seq<Element>, order: seq<nat>, pass: seq<nat>, n: nat, i: nat, k: nat)
    requires InRange(topology, order) && |pass| == |order| && k < |order|
    requires HeldBack(topology, order, pass, k) && i < |topology|
    ensures HeldBack(topology, order + [i], pass + [n], k)
  {
    var j :| 0 <= j < k && topology[order[j]].name in topology[order[k]].deps &&
      Late(pass[j], order[j], pass[k], order[k]);
    var order', pass' := order + [i], pass + [n];
    assert topology[order'[j]].name in topology[order'[k]].deps && Late(pass'[j], order'[j], pass'[k], order'[k]);
  }

  lemma PlacedIsHeldBack(topology: seq<Element>, removed: set<string>, order: seq<nat>, pass: seq<nat>, n: nat, i: nat)
    requires Partial(topology, removed, order) && |pass| == |order| && i < |topology| && n > 0
    requires Ready(topology[i], removed) && Waits(topology, order, pass, n, i)
    ensures HeldBack(topology, order + [i], pass + [n], |order|)
  {
    hide DepsFirst;
    var d :| d in topology[i].deps && LatelyRemoved(topology, order, pass, n, i, d);
    assert d in removed;
    var j :| 0 <= j < |order| && topology[order[j]].name == d;
    var order', pass' := order + [i], pass + [n];
    assert order'[j] == order[j] && pass'[j] == pass[j] && order'[|order|] == i && pass'[|order|] == n;
    assert topology[order'[j]].name in topology[order'[|order|]].deps;
  }

  lemma WaitsStays(topology: seq<Element>, order: seq<nat>, pass: seq<nat>, n: nat, i: nat, m: nat)
    requires InRange(topology, order) && |pass| == |order| && i < |topology| && m < |topology| && m != i
    requires Waits(topology, order, pass, if m < i then n + 1 else n, m)
    ensures Waits(topology, order + [i], pass + [n], if m < i then n + 1 else n, m)
  {
    var n' := if m < i then n + 1 else n;
    if n' > 0 {
      var d :| d in topology[m].deps && LatelyRemoved(topology, order, pass, n', m, d);
      var order', pass' := order + [i], pass + [n];
      forall j | 0 <= j < |order'| && topology[order'[j]].name == d ensures Late(pass'[j], order'[j], n', m) {
        assert j < |order| ==> order'[j] == order[j] && pass'[j] == pass[j];
      }
      assert LatelyRemoved(topology, order', pass', n', m, d);
    }
  }

  ghost predicate Before(
      pass: nat, index: nat, pass': nat, index': nat) { pass < pass' || (pass == pass' && index < index') }

  ghost predicate SameUpTo(a: seq<nat>, pa: seq<nat>, b: seq<nat>, pb: seq<nat>, k: nat) {
    k <= |a| == |pa| && k <= |b| == |pb| && forall h :: 0 <= h < k ==> a[h] == b[h] && pa[h] == pb[h]
  }

  ghost predicate GreedySchedule(topology: seq<Element>, order: seq<nat>, pass: seq<nat>) {
    IsSchedule(topology, order) && Greedy(topology, order, pass)
  }

  /** The passes determine the order. */
  lemma {:induction false} GreedyIsUnique(
      topology: seq<Element>, a: seq<nat>, pa: seq<nat>, b: seq<nat>, pb: seq<nat>, k: nat)
    requires UniqueNames(topology) && GreedySchedule(topology, a, pa)
    requires GreedySchedule(topology, b, pb) && k <= |topology|
    ensures SameUpTo(a, pa, b, pb, k)
  {
    hide GreedySchedule, UniqueNames;
    SameLengths(topology, a, pa, b, pb);
    if k > 0 {
      GreedyIsUnique(topology, a, pa, b, pb, k - 1);
      NotOvertaken(topology, a, pa, b, pb, k - 1);
      SameUpToSwap(a, pa, b, pb, k - 1);
      NotOvertaken(topology, b, pb, a, pa, k - 1);
    }
  }

  lemma SameLengths(topology: seq<Element>, a: seq<nat>, pa: seq<nat>, b: seq<nat>, pb: seq<nat>)
    requires GreedySchedule(topology, a, pa) && GreedySchedule(topology, b, pb)
    ensures |a| == |pa| == |b| == |pb| == |topology|
  {
  }

  lemma SameUpToSwap(a: seq<nat>, pa: seq<nat>, b: seq<nat>, pb: seq<nat>, k: nat)
    requires SameUpTo(a, pa, b, pb, k)
    ensures SameUpTo(b, pb, a, pa, k)
  {
  }

  /** After the same beginning, neither order places its next element before the other does. */
  lemma NotOvertaken(topology: seq<Element>, a: seq<nat>, pa: seq<nat>, b: seq<nat>, pb: seq<nat>, i: nat)
    requires UniqueNames(topology) && GreedySchedule(topology, a, pa) && GreedySchedule(topology, b, pb)
    requires i < |topology| == |a| == |pa| == |b| == |pb| && SameUpTo(a, pa, b, pb, i)
    ensures !Before(pa[i], a[i], pb[i], b[i])
  {
    if Before(pa[i], a[i], pb[i], b[i]) {
      var l := LaterPlace(topology, a, pa, b, pb, i);
      var j := WaitedFor(topology, b, pb, l);
      var h := DependencyPlace(topology, a, i, topology[b[j]].name);
      PlaceOfName(topology, b, h, j);
      PlacesIncrease(topology, a, pa, h, i);
    }
  }

  lemma LaterPlace(
      topology: seq<Element>, a: seq<nat>, pa: seq<nat>, b: seq<nat>, pb: seq<nat>, i: nat)
      returns (l: nat)
    requires GreedySchedule(topology, a, pa) && GreedySchedule(topology, b, pb)
    requires i < |topology| == |a| == |pa| == |b| == |pb|
    requires SameUpTo(a, pa, b, pb, i) && Before(pa[i], a[i], pb[i], b[i])
    ensures i <= l < |b| && b[l] == a[i] && pb[l] > pa[i]
  {
    hide DepsFirst, HeldBack;
    CoversAll(topology, b);
    assert a[i] in b;
    l :| 0 <= l < |b| && b[l] == a[i];
    if i < l {
      PlacesIncrease(topology, b, pb, i, l);
    }
  }

  lemma PlacesIncrease(topology: seq<Element>, order: seq<nat>, pass: seq<nat>, j: nat, k: nat)
    requires GreedySchedule(topology, order, pass) && j < k < |order| == |pass|
    ensures Before(pass[j], order[j], pass[k], order[k])
  {
  }

  lemma WaitedFor(topology: seq<Element>, b: seq<nat>, pb: seq<nat>, l: nat) returns (j: nat)
    requires GreedySchedule(topology, b, pb) && l < |b| == |pb| == |topology| && InRange(topology, b) && pb[l] > 0
    ensures j < l && topology[b[j]].name in topology[b[l]].deps && Late(pb[j], b[j], pb[l], b[l])
  {
    assert HeldBack(topology, b, pb, l);
    j :| 0 <= j < l && topology[b[j]].name in topology[b[l]].deps && Late(pb[j], b[j], pb[l], b[l]);
  }

  lemma DependencyPlace(topology: seq<Element>, a: seq<nat>, i: nat, d: string) returns (h: nat)
    requires IsSchedule(topology, a) && i < |a| && d in topology[a[i]].deps
    ensures h < i && topology[a[h]].name == d
  {
    h :| 0 <= h < i && topology[a[h]].name == d;
  }

  lemma PlaceOfName(topology: seq<Element>, b: seq<nat>, h: nat, j: nat)
    requires IsSchedule(topology, b) && UniqueNames(topology) && h < |b| && j < |b|
    requires topology[b[h]].name == topology[b[j]].name
    ensures h == j
  {
    assert b[h] == b[j];
  }

  /** Every dependency is declared before its dependents. */
  ghost predicate DependsBackwards(topology: seq<Element>) {
    forall i, d :: 0 <= i < |topology| && d in topology[i].deps ==> exists j :: 0 <= j < i && topology[j].name == d
  }

  lemma DeclaredBefore(topology: seq<Element>, i: nat, j: nat)
    requires UniqueNames(topology) && DependsBackwards(topology) && i < |topology| && j < |topology|
    requires topology[i].name in topology[j].deps
    ensures i < j
  {
    var h :| 0 <= h < j && topology[h].name == topology[i].name;
    assert h == i;
  }

  lemma ScheduleInRange(topology: seq<Element>, order: seq<nat>, pass: seq<nat>)
    requires GreedySchedule(topology, order, pass)
    ensures InRange(topology, order)
  {
  }

  /** When the declared order is a schedule already, a single pass takes every element. */
  lemma {:induction false} DeclaredOrderTakesOnePass(topology: seq<Element>, order: seq<nat>, pass: seq<nat>, k: nat)
    requires UniqueNames(topology) && GreedySchedule(topology, order, pass) && |pass| == |order|
    requires DependsBackwards(topology)
    requires k < |order|
    ensures pass[k] == 0
    decreases k
  {
    hide GreedySchedule, UniqueNames, DependsBackwards;
    SameLengths(topology, order, pass, order, pass);
    ScheduleInRange(topology, order, pass);
    if pass[k] > 0 {
      var j := WaitedFor(topology, order, pass, k);
      DeclaredOrderTakesOnePass(topology, order, pass, j);
      DeclaredBefore(topology, order[j], order[k]);
    }
  }

  /** The sequential mode keeps a declared order that is a schedule already. */
  lemma DeclaredOrderIsKept(topology: seq<Element>, order: seq<nat>, pass: seq<nat>)
    requires UniqueNames(topology) && GreedySchedule(topology, order, pass)
    requires DependsBackwards(topology)
    ensures |order| == |topology| && forall k :: 0 <= k < |order| ==> order[k] == k
  {
    hide GreedySchedule, UniqueNames, DependsBackwards;
    SameLengths(topology, order, pass, order, pass);
    ScheduleInRange(topology, order, pass);
    forall j, k | 0 <= j < k < |order| ensures order[j] < order[k] {
      DeclaredOrderTakesOnePass(topology, order, pass, j);
      DeclaredOrderTakesOnePass(topology, order, pass, k);
      PlacesIncrease(topology, order, pass, j, k);
    }
    forall k | 0 <= k < |order| ensures order[k] == k {
      AtLeastIndex(order, k);
      AtMostIndex(order, |topology|, k);
    }
  }

  lemma {:induction false} AtLeastIndex(order: seq<nat>, k: nat)
    requires k < |order| && forall i, j :: 0 <= i < j < |order| ==> order[i] < order[j]
    ensures k <= order[k]
  {
    if k > 0 {
      AtLeastIndex(order, k - 1);
    }
  }

  lemma {:induction false} AtMostIndex(order: seq<nat>, n: nat, k: nat)
    requires k < |order| == n && (forall i, j :: 0 <= i < j < |order| ==> order[i] < order[j])
    requires forall i :: 0 <= i < |order| ==> order[i] < n
    ensures order[k] <= k
    decreases n - k
  {
    if k + 1 < n {
      AtMostIndex(order, n, k + 1);
    }
  }

  /** `topology_sort`.  `parallel` says whether the caller supplies `parallel_modules`. */
  method Sort(settings: Settings, topology: seq<Element>, parallel: bool)
    returns (ok: bool, sorted: seq<Runnable>, parallelModules: set<string>)
    ensures ok <==> Sortable(topology)
    ensures ok ==> exists order, level :: SortedAs(settings, topology, parallel, sorted, order, level)
    ensures ok && parallel ==>
              forall x :: x in parallelModules <==>
                exists i :: 0 <= i < |topology| && topology[i].name == x && MayRunInParallel(settings, topology, i)
    ensures !parallel ==> parallelModules == {}
  {
    hide Sortable, Resolved, Waved, Picked, Names, NamesOf;
    hide Ready, DepsFirst, NoRepeats, ByLevel, MayRunInParallel, Scanned, Greedy;
    var removed: set<string> := {};
    sorted, parallelModules := [], {};
    ghost var order: seq<nat>, level: seq<nat>, n: nat := [], [], 0;
    StartPartial(settings, topology);
    WavedStart(settings, topology);
    ScanStart(topology);
    while |removed| != |topology|
      invariant Partial(topology, removed, order) && sorted == Resolved(settings, topology, order)
      invariant removed <= Names(topology)
      invariant parallel ==> Waved(settings, topology, removed, order, level, n, parallelModules)
      invariant !parallel ==> parallelModules == {} && Scanned(topology, removed, order, level, n, 0)
      decreases |Names(topology)| - |removed|
    {
      ghost var before := removed;
      var found;
      if parallel {
        removed, sorted, parallelModules, found, order, level :=
          ParallelRound(settings, topology, removed, sorted, parallelModules, order, level, n);
      } else {
        removed, sorted, found, order, level := SequentialPass(settings, topology, removed, sorted, order, level, n);
      }
      n := n + 1;
      RemovedAreNames(topology, removed, order);
      if !found {
        StuckIsUnsortable(topology, before);
        return false, sorted, parallelModules;
      }
      SmallerRest(before, removed, Names(topology));
    }
    FullIsSchedule(topology, removed, order);
    if parallel {
      WavedByLevel(settings, topology, removed, order, level, n, parallelModules);
      WavedParallel(settings, topology, removed, order, level, n, parallelModules);
    } else {
      ScannedIsGreedy(topology, removed, order, level, n);
    }
    ResolvedCarries(settings, topology, order);
    assert SortedAs(settings, topology, parallel, sorted, order, level);
    return true, sorted, parallelModules;
  }

  lemma ScannedIsGreedy(topology: seq<Element>, removed: set<string>, order: seq<nat>, pass: seq<nat>, n: nat)
    requires Scanned(topology, removed, order, pass, n, 0)
    ensures InRange(topology, order) && Greedy(topology, order, pass)
  {
  }

  lemma StartPartial(settings: Settings, topology: seq<Element>)
    ensures Partial(topology, {}, []) && Resolved(settings, topology, []) == []
  {
  }

  lemma ResolvedConcat(settings: Settings, topology: seq<Element>, order: seq<nat>, wave: seq<nat>)
    requires InRange(topology, order) && InRange(topology, wave)
    ensures InRange(topology, order + wave)
    ensures Resolved(settings, topology, order + wave) ==
        Resolved(settings, topology, order) + Resolved(settings, topology, wave)
  {
  }

  lemma RemovedAreNames(topology: seq<Element>, removed: set<string>, order: seq<nat>)
    requires Partial(topology, removed, order)
    ensures InRange(topology, order) && removed <= Names(topology)
  {
  }

  lemma WaveIsNew(topology: seq<Element>, removed: set<string>, wave: seq<nat>)
    requires wave == ReadyUpTo(topology, removed, |topology|)
    ensures wave != [] ==> removed < removed + NamesOf(topology, wave)
    ensures wave == [] ==> NamesOf(topology, wave) == {} && forall i :: 0 <= i < |topology| ==>
        !Ready(topology[i], removed)
  {
    if wave != [] {
      assert topology[wave[0]].name in NamesOf(topology, wave) && Ready(topology[wave[0]], removed);
    }
  }

  lemma SmallerRest<A>(a: set<A>, b: set<A>, c: set<A>)
    requires a < b <= c
    ensures |c| - |b| < |c| - |a| && |b| <= |c|
  {
    SubsetBound(a, b);
    SubsetBound(b, c);
  }

  // ---------------------------------------------------------------------------------------------
  // Every sortable topology has a sorted form
  // ---------------------------------------------------------------------------------------------

  lemma {:induction false} WavesEnd(settings: Settings, topology: seq<Element>, removed: set<string>, order: seq<nat>,
                                    level: seq<nat>, n: nat, names: set<string>)
    returns (order': seq<nat>, level': seq<nat>)
    requires Sortable(topology) && Partial(topology, removed, order)
    requires Waved(settings, topology, removed, order, level, n, names) && removed <= Names(topology)
    ensures IsSchedule(topology, order') && ByLevel(topology, order', level')
    decreases |Names(topology)| - |removed|
  {
    hide Sortable, Waved, Partial, Names, NamesOf, Ready;
    hide IsSchedule, ByLevel, WaveParallel, Resolved, Picked, ReadyUpTo, ToSet;
    RemovedAreNames(topology, removed, order);
    if |removed| == |topology| {
      FullIsSchedule(topology, removed, order);
      WavedByLevel(settings, topology, removed, order, level, n, names);
      return order, level;
    }
    var wave := ReadyUpTo(topology, removed, |topology|);
    RoundFacts(settings, topology, removed, order, wave);
    if wave == [] {
      StuckIsUnsortable(topology, removed);
    }
    WavedStep(settings, topology, removed, order, level, n, names);
    var removed' := removed + NamesOf(topology, wave);
    RemovedAreNames(topology, removed', order + wave);
    SmallerRest(removed, removed', Names(topology));
    order', level' := WavesEnd(settings, topology, removed', order + wave, level + Repeat(n, |wave|), n + 1,
                               names + WaveParallel(settings, topology, wave));
  }

  /** The rest of pass `n`, from element `i` on. */
  lemma {:induction false} PassEnds(
      topology: seq<Element>, removed: set<string>, order: seq<nat>, pass: seq<nat>, n: nat, i: nat)
    returns (removed': set<string>, order': seq<nat>, pass': seq<nat>)
    requires Partial(topology, removed, order) && Scanned(topology, removed, order, pass, n, i) && i <= |topology|
    ensures Partial(topology, removed', order') && Scanned(topology, removed', order', pass', n, |topology|)
    ensures removed <= removed'
    ensures removed' == removed ==> forall j :: i <= j < |topology| ==> !Ready(topology[j], removed)
    decreases |topology| - i
  {
    hide Partial, Scanned;
    if i == |topology| {
      return removed, order, pass;
    }
    if Ready(topology[i], removed) {
      PartialExtends(topology, removed, order, i);
      ScanPlace(topology, removed, order, pass, n, i);
      removed', order', pass' := PassEnds(topology, removed + {topology[i].name}, order + [i], pass + [n], n, i + 1);
      assert topology[i].name in removed';
    } else {
      ScanPast(topology, removed, order, pass, n, i);
      removed', order', pass' := PassEnds(topology, removed, order, pass, n, i + 1);
    }
  }

  lemma {:induction false} PassesEnd(
      topology: seq<Element>, removed: set<string>, order: seq<nat>, pass: seq<nat>, n: nat)
    returns (order': seq<nat>, pass': seq<nat>)
    requires Sortable(topology) && Partial(topology, removed, order) && Scanned(topology, removed, order, pass, n, 0)
    requires removed <= Names(topology)
    ensures IsSchedule(topology, order') && Greedy(topology, order', pass')
    decreases |Names(topology)| - |removed|
  {
    hide Sortable, Scanned, Partial, Names, Ready, IsSchedule, Greedy;
    if |removed| == |topology| {
      FullIsSchedule(topology, removed, order);
      ScannedIsGreedy(topology, removed, order, pass, n);
      return order, pass;
    }
    var removed', order1, pass1 := PassEnds(topology, removed, order, pass, n, 0);
    if removed' == removed {
      StuckIsUnsortable(topology, removed);
    }
    RemovedAreNames(topology, removed', order1);
    SmallerRest(removed, removed', Names(topology));
    ScanNextPass(topology, removed', order1, pass1, n);
    order', pass' := PassesEnd(topology, removed', order1, pass1, n + 1);
  }

  /** What `Sort` promises exists for every topology that it accepts. */
  lemma SortedFormExists(settings: Settings, topology: seq<Element>, parallel: bool)
    returns (sorted: seq<Runnable>, order: seq<nat>, level: seq<nat>)
    requires Sortable(topology)
    ensures SortedAs(settings, topology, parallel, sorted, order, level)
  {
    hide Sortable, Partial, Waved, Scanned, Names, DepsFirst, NoRepeats, ByLevel, Greedy, Resolved;
    StartPartial(settings, topology);
    RemovedAreNames(topology, {}, []);
    if parallel {
      WavedStart(settings, topology);
      order, level := WavesEnd(settings, topology, {}, [], [], 0, {});
    } else {
      ScanStart(topology);
      order, level := PassesEnd(topology, {}, [], [], 0);
    }
    sorted := Resolved(settings, topology, order);
    ResolvedCarries(settings, topology, order);
  }
}
