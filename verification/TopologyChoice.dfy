/** Which topology a request gets, in terms of the published edits alone. */
module TopologyChoice {
  import opened Wrappers
  import DB = DoublyBuffered
  import opened TopologyLifetime
  import opened TopologyReclaim

  /** The last edit in `h` that names `name` replaces it by `x`. */
  ghost predicate Binds(h: seq<Edit>, name: Name, x: Topo) {
    exists k: nat :: k < |h| && h[k] == Replace(name, x) && NotNamedAfter(h, name, k)
  }

  ghost predicate NotNamedAfter(h: seq<Edit>, name: Name, k: nat) {
    forall j :: k < j < |h| ==> h[j].name != name
  }

  ghost predicate Bound(h: seq<Edit>, name: Name) { exists x :: Binds(h, name, x) }

  /** The index that the edits `h` build up from nothing. */
  ghost function IndexAfter(h: seq<Edit>): Index { DB.Fold(IndexApi(), map[], h) }

  lemma IndexAfterOneMore(h: seq<Edit>)
    requires h != []
    ensures IndexAfter(h) == Apply(h[|h| - 1], IndexAfter(h[..|h| - 1]))
  {
  }

  lemma BindsOneMore(h: seq<Edit>, name: Name, x: Topo)
    requires h != []
    ensures var e := h[|h| - 1];
            Binds(h, name, x) <==> if e.name == name then e == Replace(name, x) else Binds(h[..|h| - 1], name, x)
  {
    var m, e := |h| - 1, h[|h| - 1];
    var rest := h[..m];
    if Binds(h, name, x) {
      var k: nat :| k < |h| && h[k] == Replace(name, x) && NotNamedAfter(h, name, k);
      if e.name != name {
        assert rest[k] == h[k] && NotNamedAfter(rest, name, k);
      }
    }
    if e == Replace(name, x) {
      assert h[m] == Replace(name, x) && NotNamedAfter(h, name, m);
    }
    if e.name != name && Binds(rest, name, x) {
      var k: nat :| k < |rest| && rest[k] == Replace(name, x) && NotNamedAfter(rest, name, k);
      forall j | k < j < |h| ensures h[j].name != name {
        assert j < m ==> rest[j] == h[j];
      }
      assert h[k] == Replace(name, x) && NotNamedAfter(h, name, k);
    }
  }

  /** The index lists `x` under `name` exactly when the last edit of that name put it there. */
  lemma {:induction false} IndexIsHistory(h: seq<Edit>, name: Name, x: Topo)
    ensures name in IndexAfter(h) && IndexAfter(h)[name] == x <==> Binds(h, name, x)
  {
    if h == [] {
      assert IndexAfter(h) == map[];
    } else {
      IndexIsHistory(h[..|h| - 1], name, x);
      hide Binds, IndexAfter;
      IndexAfterOneMore(h);
      BindsOneMore(h, name, x);
    }
  }

  lemma BoundIsListed(h: seq<Edit>, name: Name)
    ensures name in IndexAfter(h) <==> Bound(h, name)
  {
    hide Binds, IndexAfter;
    if name in IndexAfter(h) {
      IndexIsHistory(h, name, IndexAfter(h)[name]);
    }
    if x :| Binds(h, name, x) {
      IndexIsHistory(h, name, x);
    }
  }

  // ---------------------------------------------------------------------------------------------
  // Requests
  // ---------------------------------------------------------------------------------------------

  /** The edits that had been published when the reader of `t` loaded the index. */
  ghost function Held(s: State, t: Id): seq<Edit>
    requires t in s.db.readers && s.db.readers[t].pc.Holding? && s.db.readers[t].pc.version <= |s.db.published|
  {
    s.db.published[..s.db.readers[t].pc.version]
  }

  lemma HeldIndex(s: State, t: Id)
    requires DB.Inv(s.db) && DB.DataInv(IndexApi(), s.db) && s.db.initial == map[]
    requires t in s.db.readers && s.db.readers[t].pc.Holding?
    ensures s.db.readers[t].pc.version <= |s.db.published|
    ensures s.db.Data(s.db.readers[t].pc.at) == IndexAfter(Held(s, t))
  {
    hide DB.ReaderOk, DB.ModifierOk, DB.LockOk;
    assert DB.HolderOk(s.db, t);
    assert s.db.published[..|s.db.published|] == s.db.published;
  }

  lemma {:induction false} StartsEmpty(states: seq<State>, actions: seq<Action>, i: nat)
    requires IsRun(states, actions) && i < |states|
    ensures states[i].db.initial == map[]
  {
    hide Enabled, Step;
    if i > 0 {
      StartsEmpty(states, actions, i - 1);
      StepKeepsInitial(states[i - 1], actions[i - 1]);
    }
  }

  lemma StepKeepsInitial(s: State, a: Action)
    requires Enabled(s, a)
    ensures Step(s, a).db.initial == s.db.initial
  {
    hide DB.ReaderStep, DB.ModifierStep, PickTopology, AfterModifyStep;
  }

  /** A request inside its read section can choose exactly when the picker's answer or the method's default is bound,
      by the edits published up to the version that it holds; it then gets what the answer is bound to, or, when
      there is no answer or it is not bound, what the default is bound to. */
  lemma ChoiceFollowsHistory(
      states: seq<State>, actions: seq<Action>, i: nat, t: Id, answer: Option<Name>, fallback: Name)
    requires IsRun(states, actions) && i < |states|
    requires var s := states[i];
             t in s.db.readers && s.db.readers[t].pc.Holding? && t in s.picks && s.picks[t].NotPicked?
    ensures var s := states[i];
            && s.db.readers[t].pc.version <= |s.db.published|
            && var h := Held(s, t);
               var answered := answer.Some? && Bound(h, answer.value);
               && (Enabled(s, Choose(t, answer, fallback)) <==> answered || Bound(h, fallback))
               && (Enabled(s, Choose(t, answer, fallback)) ==>
                     var s' := Step(s, Choose(t, answer, fallback));
                     && t in s'.picks && s'.picks[t].Chosen?
                     && Binds(h, if answered then answer.value else fallback, s'.picks[t].topo))
  {
    hide IsRun, DB.Inv, DB.DataInv, LifeInv, Binds, IndexAfter;
    var s := states[i];
    RunInv(states, actions, i);
    StartsEmpty(states, actions, i);
    HeldIndex(s, t);
    var h := Held(s, t);
    BoundIsListed(h, fallback);
    if fallback in IndexAfter(h) {
      IndexIsHistory(h, fallback, IndexAfter(h)[fallback]);
    }
    if answer.Some? {
      BoundIsListed(h, answer.value);
      if answer.value in IndexAfter(h) {
        IndexIsHistory(h, answer.value, IndexAfter(h)[answer.value]);
      }
    }
  }

  // ---------------------------------------------------------------------------------------------
  // Edits
  // ---------------------------------------------------------------------------------------------

  /** When the `Modify` of `add_topology` or `remove_topology` returns, published or not, both copies have the name
      stand for the new topology, or for none. */
  lemma EditTakesEffect(states: seq<State>, actions: seq<Action>, i: nat, m: Id, op: DB.ModifierOp<Edit>)
    requires IsRun(states, actions) && i < |actions| && actions[i] == Modify(m, op) && (op.GiveUp? || op.UnlockModify?)
    ensures m in states[i].phases && states[i].phases[m].InModify?
    ensures var e, db := states[i].phases[m].edit, states[i + 1].db;
            match e
            case Replace(name, x) => name in db.data0 && name in db.data1 && db.data0[name] == db.data1[name] == x
            case Remove(name) => name !in db.data0 && name !in db.data1
  {
    hide Inv;
    RunKeepsTrack(states, actions, i);
    ReturnIsDone(states[i], m, op, Missed(states, actions, i));
  }

  lemma ReturnIsDone(s: State, m: Id, op: DB.ModifierOp<Edit>, missed: set<Topo>)
    requires ReclaimInv(s, missed) && Enabled(s, Modify(m, op)) && (op.GiveUp? || op.UnlockModify?)
    ensures m in s.phases && s.phases[m].InModify?
    ensures var e, s' := s.phases[m].edit, Step(s, Modify(m, op)); Done(e, s'.db.data0) && Done(e, s'.db.data1)
  {
    hide Owned, Tracked, OutOfReach;
    assert Published(s.db, s.phases[m], s.db.modifiers[m]);
  }

  /** `Modify` publishes a replacement always and a removal exactly when the edits published before bind its name;
      otherwise it gives up, and `remove_topology` reports that there is no such topology. */
  lemma GivesUpExactlyWhenMissing(states: seq<State>, actions: seq<Action>, i: nat, m: Id)
    requires IsRun(states, actions) && i < |states|
    requires var s := states[i];
             m in s.phases && s.phases[m].InModify? && m in s.db.modifiers && s.db.modifiers[m].Edited?
    ensures var s := states[i];
            var found := s.phases[m].edit.Replace? || Bound(s.db.published, s.phases[m].edit.name);
            && (Enabled(s, Modify(m, DB.Flip)) <==> found)
            && (Enabled(s, Modify(m, DB.GiveUp)) <==> !found)
  {
    hide IsRun, Inv, ReclaimInv;
    RunInv(states, actions, i);
    RunKeepsTrack(states, actions, i);
    StartsEmpty(states, actions, i);
    FoundIsPublished(states[i], m, Missed(states, actions, i));
  }

  lemma FoundIsPublished(s: State, m: Id, missed: set<Topo>)
    requires Inv(s) && ReclaimInv(s, missed) && s.db.initial == map[]
    requires m in s.phases && s.phases[m].InModify? && m in s.db.modifiers && s.db.modifiers[m].Edited?
    ensures s.db.modifiers[m].ok <==> s.phases[m].edit.Replace? || Bound(s.db.published, s.phases[m].edit.name)
  {
    hide Owned, Tracked, OutOfReach, CopyOk, CountsOk, PickOk, LiveOk, Disjoint, Bound, PlaceOk;
    hide DB.ReaderOk, DB.HolderOk, DB.LockOk, IndexAfter;
    assert Published(s.db, s.phases[m], s.db.modifiers[m]);
    assert DB.ModifierOk(s.db, m);
    ForegroundIsHistory(s);
    BoundIsListed(s.db.published, s.phases[m].edit.name);
  }

  /** Every published removal found its name bound. */
  ghost predicate RemovesBound(h: seq<Edit>) {
    forall k :: 0 <= k < |h| && h[k].Remove? ==> Bound(h[..k], h[k].name)
  }

  lemma {:induction false} PublishedRemovalsFoundTheirName(states: seq<State>, actions: seq<Action>, i: nat)
    requires IsRun(states, actions) && i < |states|
    ensures RemovesBound(states[i].db.published)
  {
    hide RemovesBound, Enabled, Step, Inv, ReclaimInv;
    if i == 0 {
      NothingPublished(states[0]);
    } else {
      PublishedRemovalsFoundTheirName(states, actions, i - 1);
      RunInv(states, actions, i - 1);
      RunKeepsTrack(states, actions, i - 1);
      StartsEmpty(states, actions, i - 1);
      StepKeepsRemovesBound(states[i - 1], actions[i - 1], Missed(states, actions, i - 1));
    }
  }

  lemma NothingPublished(s: State)
    requires Init(s)
    ensures RemovesBound(s.db.published)
  {
  }

  lemma StepKeepsRemovesBound(s: State, a: Action, missed: set<Topo>)
    requires Inv(s) && ReclaimInv(s, missed) && s.db.initial == map[] && Enabled(s, a) && RemovesBound(s.db.published)
    ensures RemovesBound(Step(s, a).db.published)
  {
    hide RemovesBound, Inv, ReclaimInv;
    if a.Modify? && a.mop.Flip? {
      FlipKeepsRemovesBound(s, a.m, missed);
    } else {
      OnlyFlipPublishes(s, a);
    }
  }

  lemma OnlyFlipPublishes(s: State, a: Action)
    requires Enabled(s, a) && !(a.Modify? && a.mop.Flip?)
    ensures Step(s, a).db.published == s.db.published
  {
    if a.Modify? {
      ModifyPublishes(s.db, a.m, a.mop);
      hide DB.ModifierStep;
    } else if a.Read? {
      hide DB.ReaderStep;
    }
  }

  lemma ModifyPublishes(db: DB.State<Index, Edit>, m: Id, op: DB.ModifierOp<Edit>)
    requires DB.ModifierEnabled(db, m, op) && !op.Flip?
    ensures DB.ModifierStep(IndexApi(), db, m, op).published == db.published
  {
  }

  lemma FlipKeepsRemovesBound(s: State, m: Id, missed: set<Topo>)
    requires Inv(s) && ReclaimInv(s, missed) && s.db.initial == map[] && Enabled(s, Modify(m, DB.Flip))
    requires RemovesBound(s.db.published)
    ensures RemovesBound(Step(s, Modify(m, DB.Flip)).db.published)
  {
    hide Owned, Tracked, OutOfReach, CopyOk, CountsOk, PickOk, LiveOk, Disjoint, Bound, DB.DataInv, RemovesBound;
    hide DB.ReaderOk, DB.HolderOk, DB.LockOk, IndexAfter;
    FoundIsPublished(s, m, missed);
    assert PlaceOk(s.db, s.phases[m], s.db.modifiers[m]);
    OneMoreEdit(s.db.published, s.phases[m].edit);
  }

  lemma ForegroundIsHistory(s: State)
    requires DB.DataInv(IndexApi(), s.db) && s.db.initial == map[]
    ensures s.db.Data(s.db.index) == IndexAfter(s.db.published)
  {
  }

  lemma OneMoreEdit(h: seq<Edit>, e: Edit)
    requires RemovesBound(h) && (e.Remove? ==> Bound(h, e.name))
    ensures RemovesBound(h + [e])
  {
    hide Bound;
    var h' := h + [e];
    forall k | 0 <= k < |h'| && h'[k].Remove? ensures Bound(h'[..k], h'[k].name) {
      assert h'[..k] == h[..k];
      if k == |h| {
        assert h[..k] == h;
      }
    }
  }
}
