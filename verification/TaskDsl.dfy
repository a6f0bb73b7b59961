/** `Task`: jobs and links between them, sorted at compile time so that each job runs after its predecessors. */
module TaskDsl {
  import opened Graphs
  import opened Sequences
  import opened Typelist

  /** Links are ordered pairs of jobs, possibly repeated. */
  type Link<J> = (J, J)

  function Connections<J(==)>(links: seq<Link<J>>): seq<Link<J>> { Unique(links) }

  function AllJobs<J(==)>(links: seq<Link<J>>): seq<J> {
    var cons := Connections(links);
    Unique(Map(cons, (c: Link<J>) => c.0) + Map(cons, (c: Link<J>) => c.1))
  }

  /** `FindJobDescendants`: the direct successors of `j`. */
  function Successors<J(==)>(links: seq<Link<J>>, j: J): seq<J> {
    Map(Filter(Connections(links), (c: Link<J>) => c.0 == j, []), (c: Link<J>) => c.1)
  }

  ghost function Edges<J>(links: seq<Link<J>>): set<(J, J)> { set c | c in links }

  lemma SuccessorsContents<J>(links: seq<Link<J>>, j: J)
    ensures forall x :: x in Successors(links, j) <==> (j, x) in Edges(links)
  {
    var p := (c: Link<J>) => c.0 == j;
    var f := (c: Link<J>) => c.1;
    var cons := Connections(links);
    UniqueContents(links);
    FilterContents(cons, p, []);
    var out := Filter(cons, p, []);
    assert Successors(links, j) == Map(out, f);
    forall x ensures x in Successors(links, j) <==> (j, x) in Edges(links) {
      if (j, x) in Edges(links) {
        assert (j, x) in out;
        var i :| 0 <= i < |out| && out[i] == (j, x);
        assert Map(out, f)[i] == x;
      }
      if x in Map(out, f) {
        var i :| 0 <= i < |out| && Map(out, f)[i] == x;
        assert out[i] in out && out[i] == (j, x);
      }
    }
  }

  lemma AllJobsContents<J>(links: seq<Link<J>>)
    ensures NoRepeats(AllJobs(links))
    ensures forall x :: x in AllJobs(links) <==> exists c :: c in links && (c.0 == x || c.1 == x)
  {
    var f, g := (c: Link<J>) => c.0, (c: Link<J>) => c.1;
    var cons := Connections(links);
    UniqueContents(links);
    var sources, targets := Map(cons, f), Map(cons, g);
    UniqueContents(sources + targets);
    assert AllJobs(links) == Unique(sources + targets);
    hide Unique, AllJobs, NoRepeats;
    EndsContents(cons, sources, targets);
  }

  lemma EndsContents<J>(cons: seq<Link<J>>, sources: seq<J>, targets: seq<J>)
    requires |sources| == |targets| == |cons|
    requires forall i :: 0 <= i < |cons| ==> sources[i] == cons[i].0 && targets[i] == cons[i].1
    ensures forall x :: x in sources + targets <==> exists c :: c in cons && (c.0 == x || c.1 == x)
  {
    forall x ensures x in sources + targets <==> exists c :: c in cons && (c.0 == x || c.1 == x) {
      if c :| c in cons && (c.0 == x || c.1 == x) {
        var i :| 0 <= i < |cons| && cons[i] == c;
        assert sources[i] == c.0 && targets[i] == c.1;
      }
      if x in sources {
        var i :| 0 <= i < |cons| && sources[i] == x;
        assert cons[i] in cons;
      } else if x in targets {
        var i :| 0 <= i < |cons| && targets[i] == x;
        assert cons[i] in cons;
      }
    }
  }

  /** An entry of the adjacency map. */
  datatype JobDeps<J> = JobDeps(job: J, descendants: seq<J>)

  function JobDescendantsMap<J(==)>(links: seq<Link<J>>): seq<JobDeps<J>> {
    Map(AllJobs(links), j => JobDeps(j, Successors(links, j)))
  }

  /** `FindBy` on the adjacency map; an unknown job has no entry. */
  function FindDescendants<J(==)>(entries: seq<JobDeps<J>>, j: J): seq<J> {
    if entries == [] then []
    else if entries[0].job == j then entries[0].descendants
    else FindDescendants(entries[1..], j)
  }

  lemma {:induction false} FoundIsListed<J>(entries: seq<JobDeps<J>>, j: J)
    ensures FindDescendants(entries, j) == []
            || exists e :: e in entries && e.job == j && e.descendants == FindDescendants(entries, j)
    ensures (exists e :: e in entries && e.job == j) ==>
        exists e :: e in entries && e.job == j && e.descendants == FindDescendants(entries, j)
  {
    if entries != [] && entries[0].job != j {
      FoundIsListed(entries[1..], j);
      assert entries == [entries[0]] + entries[1..];
    }
  }

  function Lookup<J(==)>(links: seq<Link<J>>, j: J): seq<J> { FindDescendants(JobDescendantsMap(links), j) }

  /** Looking a job up gives its direct successors. */
  lemma LookupContents<J>(links: seq<Link<J>>, j: J)
    ensures forall x :: x in Lookup(links, j) <==> (j, x) in Edges(links)
  {
    var entries := JobDescendantsMap(links);
    FoundIsListed(entries, j);
    SuccessorsContents(links, j);
    AllJobsContents(links);
    if j in AllJobs(links) {
      var i :| 0 <= i < |AllJobs(links)| && AllJobs(links)[i] == j;
      assert entries[i].job == j && entries[i] in entries;
      var e :| e in entries && e.job == j && e.descendants == FindDescendants(entries, j);
      assert e.descendants == Successors(links, j);
    } else {
      assert forall e :: e in entries ==> e.job in AllJobs(links);
      forall x ensures (j, x) !in Edges(links) {
        assert (j, x) in links ==> (j, x).0 == j;
      }
    }
  }

  /** A bound on how far any of `ds` reaches, for termination. */
  ghost function MaxRank<J(!new)>(links: seq<Link<J>>, ds: seq<J>): nat {
    if ds == [] then 0
    else
      var r, s := |Reach(Edges(links), ds[0])| + 1, MaxRank(links, ds[1..]);
      if r > s then r else s
  }

  lemma {:induction false} MaxRankBelow<J(!new)>(links: seq<Link<J>>, ds: seq<J>, bound: nat)
    requires forall d :: d in ds ==> |Reach(Edges(links), d)| < bound
    ensures MaxRank(links, ds) <= bound
  {
    if ds != [] {
      MaxRankBelow(links, ds[1..], bound);
    }
  }

  lemma SuccessorsRankLower<J(!new)>(links: seq<Link<J>>, j: J)
    requires Acyclic(Edges(links))
    ensures MaxRank(links, Lookup(links, j)) < |Reach(Edges(links), j)| + 1
  {
    LookupContents(links, j);
    forall d | d in Lookup(links, j) ensures |Reach(Edges(links), d)| < |Reach(Edges(links), j)| {
      ReachShrinks(Edges(links), j, d);
    }
    MaxRankBelow(links, Lookup(links, j), |Reach(Edges(links), j)|);
  }

  /** `FindAllDescendants` as the fold it is: each job, then everything below it. */
  function FindAll<J(!new, ==)>(links: seq<Link<J>>, acc: seq<J>, ds: seq<J>): seq<J>
    requires Acyclic(Edges(links))
    decreases MaxRank(links, ds), |ds|
  {
    if ds == [] then acc
    else
      SuccessorsRankLower(links, ds[0]);
      FindAll(links, acc + [ds[0]] + FindAll(links, [], Lookup(links, ds[0])), ds[1..])
  }

  ghost predicate Below<J(!new)>(links: seq<Link<J>>, ds: seq<J>, x: J) {
    exists d :: d in ds && (x == d || Reaches(Edges(links), d, x))
  }

  lemma {:induction false} FindAllContents<J(!new)>(links: seq<Link<J>>, acc: seq<J>, ds: seq<J>, x: J)
    requires Acyclic(Edges(links))
    ensures x in FindAll(links, acc, ds) <==> x in acc || Below(links, ds, x)
    decreases MaxRank(links, ds), |ds|
  {
    if ds != [] {
      var d := ds[0];
      SuccessorsRankLower(links, d);
      var below := FindAll(links, [], Lookup(links, d));
      FindAllContents(links, [], Lookup(links, d), x);
      FindAllContents(links, acc + [d] + below, ds[1..], x);
      BelowSuccessors(links, d, x);
      BelowFirst(links, ds, x);
    }
  }

  lemma BelowFirst<J(!new)>(links: seq<Link<J>>, ds: seq<J>, x: J)
    requires ds != []
    ensures Below(links, ds, x) <==> x == ds[0] || Reaches(Edges(links), ds[0], x) || Below(links, ds[1..], x)
  {
    assert ds == [ds[0]] + ds[1..];
    if d :| d in ds && (x == d || Reaches(Edges(links), d, x)) {
      assert d == ds[0] || d in ds[1..];
    }
    if d :| d in ds[1..] && (x == d || Reaches(Edges(links), d, x)) {
      assert d in ds;
    }
    assert ds[0] in ds;
  }

  lemma BelowSuccessors<J(!new)>(links: seq<Link<J>>, d: J, x: J)
    ensures Below(links, Lookup(links, d), x) <==> Reaches(Edges(links), d, x)
  {
    LookupContents(links, d);
    if Reaches(Edges(links), d, x) {
      var c := FirstStep(Edges(links), d, x);
      assert c in Lookup(links, d);
    }
    if c :| c in Lookup(links, d) && (x == c || Reaches(Edges(links), c, x)) {
      EdgeReaches(Edges(links), d, c);
      if x != c { ReachesTrans(Edges(links), d, c, x); }
    }
  }

  /** A job with everything that must run after it. */
  function AllDescendants<J(!new, ==)>(links: seq<Link<J>>, j: J): seq<J>
    requires Acyclic(Edges(links))
  {
    FindAll(links, [], Lookup(links, j))
  }

  /** `AllDescendants` is the transitive closure of the links. */
  lemma DescendantsAreReachable<J(!new)>(links: seq<Link<J>>, j: J, x: J)
    requires Acyclic(Edges(links))
    ensures x in AllDescendants(links, j) <==> Reaches(Edges(links), j, x)
  {
    FindAllContents(links, [], Lookup(links, j), x);
    BelowSuccessors(links, j, x);
  }

  /** `JobCmp`: a job precedes everything below it. */
  predicate JobCmp<J(==)>(l: JobDeps<J>, r: JobDeps<J>) { r.job in l.descendants }

  function JobAllDescendantsMap<J(!new, ==)>(links: seq<Link<J>>): seq<JobDeps<J>>
    requires Acyclic(Edges(links))
  {
    Map(AllJobs(links), j requires Acyclic(Edges(links)) => JobDeps(j, AllDescendants(links, j)))
  }

  /** `SortedJobs`, in the order in which `Run` executes them. */
  function RunOrder<J(!new, ==)>(links: seq<Link<J>>): seq<J>
    requires Acyclic(Edges(links))
  {
    Map(Sort(JobAllDescendantsMap(links), (l: JobDeps<J>, r: JobDeps<J>) => JobCmp(l, r)), (e: JobDeps<J>) => e.job)
  }

  /** The entries that are sorted: one per job, each with exactly what its job reaches. */
  ghost predicate IsClosureOf<J(!new)>(links: seq<Link<J>>, es: seq<JobDeps<J>>) {
    && |es| == |AllJobs(links)| && (forall i :: 0 <= i < |es| ==> es[i].job == AllJobs(links)[i])
    && forall e :: e in es ==> forall x :: x in e.descendants <==> Reaches(Edges(links), e.job, x)
  }

  lemma EntriesAreClosure<J(!new)>(links: seq<Link<J>>)
    requires Acyclic(Edges(links))
    ensures IsClosureOf(links, JobAllDescendantsMap(links))
  {
    hide AllDescendants, AllJobs;
    var es := JobAllDescendantsMap(links);
    forall i | 0 <= i < |es|
      ensures es[i].job == AllJobs(links)[i] && forall x :: x in es[i].descendants <==>
          Reaches(Edges(links), es[i].job, x)
    {
      var j := AllJobs(links)[i];
      assert es[i] == JobDeps(j, AllDescendants(links, j));
      forall x ensures x in es[i].descendants <==> Reaches(Edges(links), j, x) { DescendantsAreReachable(links, j, x); }
    }
  }

  lemma ComparesPartially<J(!new)>(links: seq<Link<J>>, es: seq<JobDeps<J>>, cmp: (JobDeps<J>, JobDeps<J>) -> bool)
    requires Acyclic(Edges(links)) && IsClosureOf(links, es) && forall l, r :: cmp(l, r) <==> JobCmp(l, r)
    ensures TransitiveOn(es, cmp) && forall e :: e in es ==> !cmp(e, e)
  {
    forall a, b, c | a in es && b in es && c in es && cmp(a, b) && cmp(b, c) ensures cmp(a, c) {
      assert Reaches(Edges(links), a.job, b.job) && Reaches(Edges(links), b.job, c.job);
      ReachesTrans(Edges(links), a.job, b.job, c.job);
    }
    forall e | e in es ensures !cmp(e, e) {
      assert !Reaches(Edges(links), e.job, e.job);
    }
  }

  /** `Run` executes every job of the links exactly once, and the source of every link before its destination. */
  lemma RunsEachJobOnceInOrder<J(!new)>(links: seq<Link<J>>)
    requires Acyclic(Edges(links))
    ensures var order := RunOrder(links);
            && NoRepeats(order)
            && (forall x :: x in order <==> exists c :: c in links && (c.0 == x || c.1 == x))
            && forall i, j :: 0 <= i < |order| && 0 <= j < |order| && (order[i], order[j]) in links ==> i < j
  {
    hide AllJobs, JobAllDescendantsMap, Sort;
    var cmp := (l: JobDeps<J>, r: JobDeps<J>) => JobCmp(l, r);
    var job := (e: JobDeps<J>) => e.job;
    var es := JobAllDescendantsMap(links);
    var sorted := Sort(es, cmp);
    var order := RunOrder(links);
    assert order == Map(sorted, job);
    EntriesAreClosure(links);
    ComparesPartially(links, es, cmp);
    SortExtends(es, cmp);
    SortMembers(es, cmp);
    SortKeepsElements(es, cmp);
    AllJobsContents(links);
    hide Map, RunOrder, TransitiveOn;
    OrderHasAllJobs(links, es, sorted, order);
    LinksAreRespected(links, es, sorted, order, cmp);
  }

  lemma OrderHasAllJobs<J(!new)>(links: seq<Link<J>>, es: seq<JobDeps<J>>, sorted: seq<JobDeps<J>>, order: seq<J>)
    requires IsClosureOf(links, es) && multiset(sorted) == multiset(es) && (forall e :: e in sorted <==> e in es)
    requires |order| == |sorted| && forall k :: 0 <= k < |order| ==> order[k] == sorted[k].job
    requires NoRepeats(AllJobs(links))
    ensures NoRepeats(order) && forall x :: x in order <==> x in AllJobs(links)
  {
    hide AllJobs;
    JobsOnce(es, sorted);
    forall x ensures x in order <==> x in AllJobs(links) {
      JobListed(es, sorted, x);
      assert x in order <==> exists k :: 0 <= k < |sorted| && sorted[k].job == x;
    }
  }

  lemma LinksAreRespected<J(!new)>(
    links: seq<Link<J>>, es: seq<JobDeps<J>>, sorted: seq<JobDeps<J>>, order: seq<J>,
      cmp: (JobDeps<J>, JobDeps<J>) -> bool)
    requires IsClosureOf(links, es) && (forall e :: e in sorted <==>
        e in es) && (forall l, r :: cmp(l, r) <==> JobCmp(l, r))
    requires |order| == |sorted| && forall k :: 0 <= k < |order| ==> order[k] == sorted[k].job
    requires Extends(sorted, cmp) && forall e :: e in es ==> !cmp(e, e)
    ensures forall i, j :: 0 <= i < |order| && 0 <= j < |order| && (order[i], order[j]) in links ==> i < j
  {
    hide AllJobs;
    forall i, j | 0 <= i < |order| && 0 <= j < |order| && (order[i], order[j]) in links ensures i < j {
      EdgeReaches(Edges(links), order[i], order[j]);
      hide Reaches;
      assert sorted[i] in es && sorted[j] in es;
      assert cmp(sorted[i], sorted[j]);
      assert !cmp(sorted[i], sorted[i]);
    }
  }

  /** Distinct jobs stay distinct under a permutation of the entries. */
  lemma JobsOnce<J>(es: seq<JobDeps<J>>, sorted: seq<JobDeps<J>>)
    requires multiset(sorted) == multiset(es) && forall i, j :: 0 <= i < j < |es| ==> es[i].job != es[j].job
    ensures forall i, j :: 0 <= i < j < |sorted| ==> sorted[i].job != sorted[j].job
  {
    forall i, j | 0 <= i < j < |sorted| ensures sorted[i].job != sorted[j].job {
      var a, b := sorted[i], sorted[j];
      assert a in multiset(es) && b in multiset(es);
      if a == b {
        TwiceInMultiset(sorted, i, j);
        OnceInMultiset(es, a);
      } else {
        var k :| 0 <= k < |es| && es[k] == a;
        var l :| 0 <= l < |es| && es[l] == b;
        assert if k < l then es[k].job != es[l].job else es[l].job != es[k].job;
      }
    }
  }

  lemma TwiceInMultiset<T>(xs: seq<T>, i: nat, j: nat)
    requires i < j < |xs| && xs[i] == xs[j]
    ensures multiset(xs)[xs[i]] >= 2
  {
    assert xs == xs[..i] + [xs[i]] + xs[i + 1..j] + [xs[j]] + xs[j + 1..];
  }

  lemma {:induction false} OnceInMultiset<J>(es: seq<JobDeps<J>>, a: JobDeps<J>)
    requires forall i, j :: 0 <= i < j < |es| ==> es[i].job != es[j].job
    ensures multiset(es)[a] <= 1
  {
    if es != [] {
      OnceInMultiset(es[1..], a);
      assert es == [es[0]] + es[1..];
      if es[0] == a {
        assert a !in es[1..];
      }
    }
  }

  lemma JobListed<J>(es: seq<JobDeps<J>>, sorted: seq<JobDeps<J>>, x: J)
    requires forall e :: e in sorted <==> e in es
    ensures (exists k :: 0 <= k < |sorted| && sorted[k].job == x) <==> exists k :: 0 <= k < |es| && es[k].job == x
  {
    if k :| 0 <= k < |sorted| && sorted[k].job == x {
      assert sorted[k] in es;
    }
    if k :| 0 <= k < |es| && es[k].job == x {
      assert es[k] in sorted;
    }
  }
}
