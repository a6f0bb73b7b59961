/**
 * How `wait_and_delete` comes to an end.  Its spin waits for exactly the requests that still count the topology, and
 * from every state that a run reaches the rest of the call can be taken, with the releases it waits for and no step
 * of any other manager.
 */
module TopologyProgress {
  import opened TopologyLifetime
  import DB = DoublyBuffered

  /** The call is past its edit and its storage, and has topologies to wait for and to delete. */
  predicate Reclaims(ph: Phase) { ph.Reclaiming? || ph.Spinning? || ph.Deleting? }

  /** The spin of a reachable state ends exactly when nobody holds the topology, and otherwise a holder can leave. */
  lemma SpinWaitsForHolders(states: seq<State>, actions: seq<Action>, i: nat, m: Id)
    requires IsRun(states, actions) && i < |states|
    requires m in states[i].phases && states[i].phases[m].Spinning?
    ensures var s := states[i];
            var x := s.phases[m].topo;
            && (Enabled(s, SeeZero(m)) <==> x !in s.held)
            && (x in s.held ==> Enabled(s, Release(x)) && Step(s, Release(x)).held[x] == s.held[x] - 1)
  {
    hide DB.Inv, DB.DataInv, CopyOk, PickOk, PlaceOk, Disjoint;
    RunInv(states, actions, i);
    TopicIsCounted(states[i], m);
  }

  lemma TopicIsCounted(s: State, m: Id)
    requires LifeInv(s) && m in s.phases && (s.phases[m].Spinning? || s.phases[m].Deleting?)
    ensures var x := s.phases[m].topo; x in s.refs && s.refs[x] == s.held[x] && x !in s.phases[m].todo
    ensures s.phases[m].Deleting? ==> s.held[s.phases[m].topo] == 0
  {
    hide CopyOk, PickOk, Disjoint;
    assert LiveOk(s, s.phases[m]) && PlaceOk(s.db, s.phases[m], s.db.modifiers[m]);
    assert s.phases[m].topo in s.phases[m].Retired();
  }

  /** The topologies `done` have lost their holders and their place in the storage, and those that had one are freed;
      nothing else has changed. */
  ghost predicate Cleared(s: State, e: State, done: set<Topo>) {
    && e.db == s.db && e.picks == s.picks && e.next == s.next
    && (forall x :: e.held[x] == if x in done then 0 else s.held[x])
    && (forall x :: x in e.storage <==> x in s.storage && x !in done)
    && (forall x :: x in e.freed <==> x in s.freed || (x in done && x in s.storage))
  }

  ghost function Rank(ph: Phase): nat {
    match ph
    case Reclaiming(_) => 2
    case Spinning(_, _) => 1
    case _ => 0
  }

  /** What one step does to the books. */
  ghost predicate Advances(s: State, e: State, m: Id)
    requires m in s.phases
  {
    && m in e.phases && e.phases == s.phases[m := e.phases[m]] && Reclaims(e.phases[m])
    && e.phases[m].Retired() <= s.phases[m].Retired()
    && Cleared(s, e, s.phases[m].Retired() - e.phases[m].Retired())
    && (e.phases[m].Retired() == s.phases[m].Retired() ==> Rank(e.phases[m]) < Rank(s.phases[m]))
  }

  /** How much is left to do in a spin. */
  ghost function Holders(s: State, ph: Phase): nat { if ph.Spinning? then s.held[ph.topo] else 0 }

  lemma FewerRetired(p: Phase, q: Phase)
    requires q.Retired() <= p.Retired() && q.Retired() != p.Retired()
    ensures |q.Retired()| < |p.Retired()|
  {
    assert p.Retired() == q.Retired() + (p.Retired() - q.Retired());
  }

  lemma AdvanceThenClear(s: State, e: State, m: Id, f: State)
    requires m in s.phases && Advances(s, e, m)
    requires f.phases == e.phases[m := Resting] && Cleared(e, f, e.phases[m].Retired())
    ensures f.phases == s.phases[m := Resting] && Cleared(s, f, s.phases[m].Retired())
  {
    hide Cleared;
    var now, later := s.phases[m].Retired() - e.phases[m].Retired(), e.phases[m].Retired();
    ClearedTwice(s, e, f, now, later);
    assert now + later == s.phases[m].Retired();
  }

  lemma PhaseAdvances(s: State, m: Id, ph: Phase)
    requires m in s.phases && Reclaims(ph) && ph.Retired() == s.phases[m].Retired() && Rank(ph) < Rank(s.phases[m])
    ensures Advances(s, s.(phases := s.phases[m := ph]), m)
  {
  }

  lemma CanTakeNext(s: State, m: Id, x: Topo)
    requires m in s.phases && s.phases[m].Reclaiming? && x in s.phases[m].todo
    ensures Enabled(s, TakeNext(m, x)) && Advances(s, Step(s, TakeNext(m, x)), m)
  {
    hide Advances;
    var todo := s.phases[m].todo;
    assert todo - {x} + {x} == todo;
    PhaseAdvances(s, m, Spinning(x, todo - {x}));
  }

  lemma CanLeaveSpin(s: State, m: Id)
    requires LifeInv(s) && m in s.phases && s.phases[m].Spinning? && s.phases[m].topo !in s.held
    ensures Enabled(s, SeeZero(m)) && Advances(s, Step(s, SeeZero(m)), m)
  {
    hide Advances, LifeInv;
    TopicIsCounted(s, m);
    PhaseAdvances(s, m, Deleting(s.phases[m].topo, s.phases[m].todo));
  }

  lemma DeleteAdvances(s: State, m: Id)
    requires LifeInv(s) && m in s.phases && s.phases[m].Deleting?
    ensures Advances(s, DeleteStep(s, m), m)
  {
    hide ManagersOk, CopyOk, PickOk;
    var x, todo := s.phases[m].topo, s.phases[m].todo;
    TopicIsCounted(s, m);
    WithoutContents(s.storage, x);
    assert todo + {x} - todo == {x};
    assert |todo + {x}| == |todo| + 1;
  }

  lemma CanDelete(s: State, m: Id)
    requires LifeInv(s) && m in s.phases && s.phases[m].Deleting?
    ensures Enabled(s, Delete(m)) && Advances(s, Step(s, Delete(m)), m)
  {
    hide Advances, LifeInv, DeleteStep;
    DeleteAdvances(s, m);
  }

  lemma HolderCanLeave(s: State, m: Id)
    requires LifeInv(s) && m in s.phases && s.phases[m].Spinning? && s.phases[m].topo in s.held
    ensures var x := s.phases[m].topo;
            CanRelease(s, x) && Enabled(s, Release(x)) && Step(s, Release(x)) == ReleaseStep(s, x)
  {
    hide LifeInv;
    TopicIsCounted(s, m);
  }

  /** The next step of the call, if no holder has to leave first. */
  lemma OwnStep(s: State, m: Id) returns (a: Action)
    requires LifeInv(s) && m in s.phases && Reclaims(s.phases[m]) && s.phases[m] != Reclaiming({})
    requires s.phases[m].Spinning? ==> s.phases[m].topo !in s.held
    ensures Enabled(s, a) && Advances(s, Step(s, a), m)
  {
    hide Advances, LifeInv, Enabled, Step;
    if s.phases[m].Reclaiming? {
      var x :| x in s.phases[m].todo;
      CanTakeNext(s, m, x);
      a := TakeNext(m, x);
    } else if s.phases[m].Spinning? {
      CanLeaveSpin(s, m);
      a := SeeZero(m);
    } else {
      CanDelete(s, m);
      a := Delete(m);
    }
  }

  lemma ClearedTwice(s: State, e: State, f: State, now: set<Topo>, later: set<Topo>)
    requires Cleared(s, e, now) && Cleared(e, f, later) && now !! later
    ensures Cleared(s, f, now + later)
  {
  }

  lemma ClearedAfterRelease(s: State, x: Topo, f: State, done: set<Topo>)
    requires CanRelease(s, x) && x in done && Cleared(ReleaseStep(s, x), f, done)
    ensures Cleared(s, f, done)
  {
  }

  ghost predicate IsRunTo(states: seq<State>, actions: seq<Action>, s: State) {
    IsRun(states, actions) && states[|actions|] == s
  }

  lemma RunOn(states: seq<State>, actions: seq<Action>, s: State, a: Action)
    requires IsRunTo(states, actions, s) && Enabled(s, a)
    ensures IsRunTo(states + [Step(s, a)], actions + [a], Step(s, a))
  {
    hide Init, Enabled, Step;
  }

  lemma RunToInv(states: seq<State>, actions: seq<Action>, s: State)
    requires IsRunTo(states, actions, s)
    ensures LifeInv(s)
  {
    hide Init, Enabled, Step, LifeInv;
    RunInv(states, actions, |actions|);
  }

  /** A longer run, and the state that it ends in. */
  datatype Longer = Longer(states: seq<State>, actions: seq<Action>, last: State)

  ghost predicate Continues(states: seq<State>, actions: seq<Action>, r: Longer) {
    states <= r.states && actions <= r.actions && IsRunTo(r.states, r.actions, r.last)
  }

  lemma {:induction false} FinishFrom(states: seq<State>, actions: seq<Action>, s: State, m: Id) returns (r: Longer)
    requires IsRunTo(states, actions, s) && m in s.phases && Reclaims(s.phases[m])
    ensures Continues(states, actions, r)
    ensures r.last.phases == s.phases[m := Resting] && Cleared(s, r.last, s.phases[m].Retired())
    decreases |s.phases[m].Retired()|, Rank(s.phases[m]), Holders(s, s.phases[m])
  {
    hide LifeInv, Enabled, Cleared, Step, IsRunTo;
    var ph := s.phases[m];
    RunToInv(states, actions, s);
    if ph == Reclaiming({}) {
      FinishClears(s, m);
      RunOn(states, actions, s, Finish(m));
      r := Longer(states + [Step(s, Finish(m))], actions + [Finish(m)], Step(s, Finish(m)));
    } else if ph.Spinning? && ph.topo in s.held {
      var x := ph.topo;
      HolderCanLeave(s, m);
      RunOn(states, actions, s, Release(x));
      r := FinishFrom(states + [ReleaseStep(s, x)], actions + [Release(x)], ReleaseStep(s, x), m);
      ClearedAfterRelease(s, x, r.last, ph.Retired());
    } else {
      var a := OwnStep(s, m);
      RunOn(states, actions, s, a);
      var e := Step(s, a);
      if e.phases[m].Retired() != ph.Retired() {
        FewerRetired(ph, e.phases[m]);
      }
      r := FinishFrom(states + [e], actions + [a], e, m);
      AdvanceThenClear(s, e, m, r.last);
    }
  }

  /** From every state that a run reaches, a manager that has something to reclaim can finish: the run goes on by its
      own steps and by releases of the topologies it waits for, until the call is over.  Then none of those topologies
      is held or stored, the ones that were stored are freed, and nothing else has changed. */
  lemma ReclaimingCanFinish(states: seq<State>, actions: seq<Action>, m: Id)
    returns (states': seq<State>, actions': seq<Action>)
    requires IsRun(states, actions)
    requires m in states[|actions|].phases && Reclaims(states[|actions|].phases[m])
    ensures IsRun(states', actions') && states <= states' && actions <= actions'
    ensures var s, e := states[|actions|], states'[|actions'|];
            e.phases == s.phases[m := Resting] && Cleared(s, e, s.phases[m].Retired())
  {
    hide Init, Enabled, Step, Cleared;
    var r := FinishFrom(states, actions, states[|actions|], m);
    states', actions' := r.states, r.actions;
  }

  lemma FinishClears(s: State, m: Id)
    requires m in s.phases && s.phases[m] == Reclaiming({})
    ensures Enabled(s, Finish(m))
    ensures Step(s, Finish(m)).phases == s.phases[m := Resting] && Cleared(s, Step(s, Finish(m)), {})
  {
  }
}
