/**
 * Which topologies are reclaimed in the end.  Publishing a topology precedes its storage, so a manager that
 * replaces it quickly may find nothing to delete; such a topology then stays in the storage for good.
 */
module TopologyReclaim {
  import opened Sequences
  import opened Wrappers
  import DB = DoublyBuffered
  import opened TopologyLifetime

  // ---------------------------------------------------------------------------------------------
  // Deletions that come too early
  // ---------------------------------------------------------------------------------------------

  /** The topology whose `Delete` this action performs before its `Store`. */
  function MissedBy(s: State, a: Action): set<Topo>
    requires Enabled(s, a)
  {
    if a.Delete? && s.phases[a.m].topo !in s.storage then {s.phases[a.m].topo} else {}
  }

  /** All topologies whose `Delete` has come before their `Store` in the first `i` actions. */
  ghost function Missed(states: seq<State>, actions: seq<Action>, i: nat): set<Topo>
    requires IsRun(states, actions) && i < |states|
  {
    if i == 0 then {} else Missed(states, actions, i - 1) + MissedBy(states[i - 1], actions[i - 1])
  }

  // ---------------------------------------------------------------------------------------------
  // Where a topology can be
  // ---------------------------------------------------------------------------------------------

  /** `x` is in the storage, freed, or still to be stored by its creator. */
  ghost predicate Owned(s: State, x: Topo) {
    x in s.freed || x in s.storage || exists m :: m in s.phases && x in s.phases[m].Unstored()
  }

  /** `x` is on its way into the index, listed, on its way out, freed, or missed. */
  ghost predicate Tracked(s: State, missed: set<Topo>, x: Topo) {
    || x in s.freed || x in missed || !Unlisted(s.db, x)
    || exists m :: m in s.phases && (x in s.phases[m].Publishing() || x in s.phases[m].Retired())
  }

  /** A missed topology is out of reach for good. */
  ghost predicate OutOfReach(s: State, x: Topo) {
    Gone(s, x) && x !in s.freed && forall m :: m in s.phases ==> x !in s.phases[m].Retired()
  }

  /** What an edit is for: after `replace` the name stands for the new topology, after `remove` for none. */
  ghost predicate Done(e: Edit, index: Index) {
    match e
    case Replace(name, topo) => name in index && index[name] == topo
    case Remove(name) => name !in index
  }

  /** The edit is done in every copy that its callback has run on, and is published exactly when it is a replacement
      or the removal of a name that is there. */
  ghost predicate Published(db: DB.State<Index, Edit>, ph: Phase, pc: DB.ModifierPc<Edit>) {
    ph.InModify? ==>
      && (pc.Edited? ==> Done(ph.edit, db.Data(pc.bg)))
      && (pc.Edited? ==> (pc.ok <==> ph.edit.Replace? || ph.edit.name in db.Data(!pc.bg)))
      && (pc.HalfPublished() ==> Done(ph.edit, db.Data(!pc.bg)))
      && (pc.Finished? ==> Done(ph.edit, db.data0) && Done(ph.edit, db.data1))
  }

  ghost predicate ReclaimInv(s: State, missed: set<Topo>) {
    && KeysOk(s)
    && (forall x: Topo :: x < s.next ==> Owned(s, x) && Tracked(s, missed, x))
    && (forall x :: x in missed ==> OutOfReach(s, x))
    && (forall m :: m in s.phases ==> Published(s.db, s.phases[m], s.db.modifiers[m]))
  }

  // ---------------------------------------------------------------------------------------------
  // Every step keeps track
  // ---------------------------------------------------------------------------------------------

  lemma RequestKeepsTrack(s: State, s': State, missed: set<Topo>)
    requires ReclaimInv(s, missed) && KeysOk(s')
    requires s'.phases == s.phases && s'.db.modifiers == s.db.modifiers
    requires s'.db.data0 == s.db.data0 && s'.db.data1 == s.db.data1
    requires s'.next == s.next && s'.freed == s.freed && s'.storage == s.storage
    ensures ReclaimInv(s', missed)
  {
    hide Lists;
    assert forall x :: Unlisted(s'.db, x) <==> Unlisted(s.db, x);
    forall x: Topo | x < s'.next ensures Owned(s', x) && Tracked(s', missed, x) {
      assert Owned(s, x) && Tracked(s, missed, x);
    }
    forall x | x in missed ensures OutOfReach(s', x) { assert OutOfReach(s, x); }
    forall m | m in s'.phases ensures Published(s'.db, s'.phases[m], s'.db.modifiers[m]) {
      assert Published(s.db, s.phases[m], s.db.modifiers[m]);
    }
  }

  /** Manager `m` moves on outside `Modify`: what it no longer deals with is stored, freed or missed. */
  ghost predicate Accounts(s: State, s': State, m: Id, missed': set<Topo>) {
    && m in s.phases && m in s'.phases && s'.phases == s.phases[m := s'.phases[m]] && s'.db == s.db
    && s'.picks == s.picks && s.next <= s'.next
    && (forall x :: x in s.freed ==> x in s'.freed)
    && (forall x :: x in s.storage || x in s.phases[m].Unstored() ==>
        x in s'.freed || x in s'.storage || x in s'.phases[m].Unstored())
    && (forall x :: x in s.phases[m].Publishing() ==> x in s'.phases[m].Publishing())
    && (forall x :: x in s.phases[m].Retired() ==> x in s'.freed || x in missed' || x in s'.phases[m].Retired())
    && (forall x :: s.next <= x < s'.next ==> x in s'.phases[m].Unstored() && x in s'.phases[m].Publishing())
  }

  lemma OwnMoveKeepsTrack(s: State, s': State, m: Id, missed: set<Topo>, missed': set<Topo>)
    requires ReclaimInv(s, missed) && KeysOk(s') && Accounts(s, s', m, missed') && missed <= missed'
    requires forall x :: x in missed' ==> OutOfReach(s', x)
    requires s'.db.modifiers[m].Idle?
    ensures ReclaimInv(s', missed')
  {
    hide Lists, OutOfReach;
    forall x: Topo | x < s'.next ensures Owned(s', x) {
      if x < s.next {
        assert Owned(s, x);
        if n :| n in s.phases && x in s.phases[n].Unstored() && n != m {
          assert x in s'.phases[n].Unstored();
        }
      } else {
        assert x in s'.phases[m].Unstored();
      }
    }
    forall x: Topo | x < s'.next ensures Tracked(s', missed', x) {
      if x < s.next {
        assert Tracked(s, missed, x);
        if n :| n in s.phases && (x in s.phases[n].Publishing() || x in s.phases[n].Retired()) && n != m {
          assert x in s'.phases[n].Publishing() || x in s'.phases[n].Retired();
        }
      } else {
        assert x in s'.phases[m].Publishing();
      }
    }
    forall n | n in s'.phases ensures Published(s'.db, s'.phases[n], s'.db.modifiers[n]) {
      assert n != m ==> Published(s.db, s.phases[n], s.db.modifiers[n]);
    }
  }

  lemma OutOfReachStays(s: State, s': State, m: Id, missed: set<Topo>)
    requires ReclaimInv(s, missed) && m in s.phases && m in s'.phases
    requires s'.phases == s.phases[m := s'.phases[m]] && s'.db == s.db
    requires s.next <= s'.next && forall x :: x in missed && x in s'.freed ==> x in s.freed
    requires forall x :: x in s'.phases[m].Retired() ==> x in s.phases[m].Retired()
    requires forall x :: x in s'.phases[m].Publishing() ==> x in s.phases[m].Publishing() || x >= s.next
    ensures forall x :: x in missed ==> OutOfReach(s', x)
  {
    hide Lists;
    forall x | x in missed ensures OutOfReach(s', x) { assert OutOfReach(s, x); }
  }

  lemma IdleOutsideModify(s: State, m: Id)
    requires LifeInv(s) && m in s.phases && !s.phases[m].InModify?
    ensures s.db.modifiers[m].Idle?
  {
    hide CopyOk, CountsOk, PickOk;
    ManagerOk(s, m);
  }

  lemma PhaseKeepsTrack(s: State, m: Id, ph: Phase, missed: set<Topo>)
    requires LifeInv(s) && ReclaimInv(s, missed) && m in s.phases && !s.phases[m].InModify? && !s.phases[m].ToStore?
    requires ph.Retired() == s.phases[m].Retired() && ph.Publishing() == {}
    ensures ReclaimInv(s.(phases := s.phases[m := ph]), missed)
  {
    hide LifeInv;
    var s' := s.(phases := s.phases[m := ph]);
    IdleOutsideModify(s, m);
    OutOfReachStays(s, s', m, missed);
    OwnMoveKeepsTrack(s, s', m, missed, missed);
  }

  lemma StartAddKeepsTrack(s: State, m: Id, name: Name, missed: set<Topo>)
    requires LifeInv(s) && ReclaimInv(s, missed) && m in s.phases && s.phases[m].Resting?
    ensures ReclaimInv(StartAddStep(s, m, name), missed)
  {
    hide LifeInv;
    var s' := StartAddStep(s, m, name);
    IdleOutsideModify(s, m);
    OutOfReachStays(s, s', m, missed);
    OwnMoveKeepsTrack(s, s', m, missed, missed);
  }

  lemma StoreKeepsTrack(s: State, m: Id, missed: set<Topo>)
    requires LifeInv(s) && ReclaimInv(s, missed) && m in s.phases && s.phases[m].ToStore?
    ensures ReclaimInv(StoreStep(s, m), missed)
  {
    hide LifeInv;
    var s' := StoreStep(s, m);
    IdleOutsideModify(s, m);
    OutOfReachStays(s, s', m, missed);
    OwnMoveKeepsTrack(s, s', m, missed, missed);
  }

  /** A deletion either frees the topology or is too early, and nobody comes back to it. */
  lemma DeleteKeepsTrack(s: State, m: Id, missed: set<Topo>)
    requires LifeInv(s) && ReclaimInv(s, missed) && m in s.phases && s.phases[m].Deleting?
    ensures var x := s.phases[m].topo; ReclaimInv(DeleteStep(s, m), missed + if x in s.storage then {} else {x})
  {
    hide LifeInv, Without;
    var s', x := DeleteStep(s, m), s.phases[m].topo;
    var missed' := missed + if x in s.storage then {} else {x};
    IdleOutsideModify(s, m);
    DeleteFrees(s, m);
    DeleteEffect(s, m);
    assert x in s.phases[m].Retired();
    forall y | y in missed ensures y != x { assert OutOfReach(s, y); }
    OutOfReachStays(s, s', m, missed);
    if x !in s.storage {
      MissedIsOutOfReach(s, m);
    }
    OwnMoveKeepsTrack(s, s', m, missed, missed');
  }

  lemma DeleteEffect(s: State, m: Id)
    requires LifeInv(s) && m in s.phases && s.phases[m].Deleting?
    ensures var s', x := DeleteStep(s, m), s.phases[m].topo;
            && (forall y :: y in s'.storage <==> y in s.storage && y != x)
            && (forall y :: y in s'.freed <==> y in s.freed || (y == x && x in s.storage))
  {
    hide CopyOk, PickOk, ManagersOk;
    WithoutContents(s.storage, s.phases[m].topo);
    CountOnce(s.storage, s.phases[m].topo);
  }

  lemma MissedIsOutOfReach(s: State, m: Id)
    requires LifeInv(s) && m in s.phases && s.phases[m].Deleting? && s.phases[m].topo !in s.storage
    ensures OutOfReach(DeleteStep(s, m), s.phases[m].topo)
  {
    hide CopyOk, PickOk, CountsOk, Lists, Without, LiveOk, PlaceOk;
    var s', x := DeleteStep(s, m), s.phases[m].topo;
    assert x in s.phases[m].Retired();
    RetiredIsGone(s, m, x);
    DeleteFrees(s, m);
    TakenOutOfTodo(s, m);
    forall n | n in s'.phases ensures x !in s'.phases[n].Retired() {
      if n != m { assert Disjoint(s.phases[m], s.phases[n]); }
    }
  }

  // Steps inside `Modify`.

  /** What a callback takes out of the index, it captures. */
  lemma ListedOrCaptured(e: Edit, before: Index, x: Topo)
    requires Lists(before, x)
    ensures Lists(Apply(e, before), x) || x in Captured(e, before)
  {
    var name :| name in before && before[name] == x;
    if name != e.name {
      assert name in Apply(e, before) && Apply(e, before)[name] == x;
    }
  }

  lemma ApplyIsDone(e: Edit, before: Index)
    ensures Done(e, Apply(e, before))
  {
  }

  lemma ModifyKeepsListed(s: State, m: Id, op: DB.ModifierOp<Edit>, x: Topo)
    requires Inv(s) && CanModify(s, m, op) && !Unlisted(s.db, x)
    ensures var s' := ModifyStep(s, m, op); !Unlisted(s'.db, x) || x in s'.phases[m].Retired()
  {
    hide DB.Inv, DB.DataInv, DB.ModifierStep, Lists, Apply, Captured;
    hide ManagersOk, CopyOk, CountsOk, PickOk, PlaceOk, LiveOk;
    ManagerOk(s, m);
    if !RunsCallback(op) {
      QuietData(s, m, op);
    } else {
      BufferFacts(s.db, m, op);
      CallbackData(s, m, op);
      var bg := s.db.modifiers[m].bg;
      if !Lists(s.db.Data(!bg), x) {
        ListedOrCaptured(s.phases[m].edit, s.db.Data(bg), x);
      }
    }
  }

  /** A topology in publication stays so until both copies list it. */
  lemma ModifyKeepsPublishing(s: State, m: Id, op: DB.ModifierOp<Edit>, x: Topo)
    requires CanModify(s, m, op) && x in s.phases[m].Publishing() && Published(s.db, s.phases[m], s.db.modifiers[m])
    ensures var s' := ModifyStep(s, m, op); !Unlisted(s'.db, x) || x in s'.phases[m].Publishing()
  {
    hide Apply, Captured;
  }

  lemma ModifyKeepsPublished(s: State, m: Id, op: DB.ModifierOp<Edit>)
    requires Inv(s) && CanModify(s, m, op) && Published(s.db, s.phases[m], s.db.modifiers[m])
    ensures var s' := ModifyStep(s, m, op); m in s'.db.modifiers && Published(s'.db, s'.phases[m], s'.db.modifiers[m])
  {
    hide DB.Inv, DB.DataInv, DB.ModifierStep, Lists, Apply, Captured;
    hide ManagersOk, CopyOk, CountsOk, PickOk, PlaceOk, LiveOk, Published, Done;
    ManagerOk(s, m);
    if RunsCallback(op) {
      CallbackData(s, m, op);
      CallbackSeesNew(s, m, op);
      BufferFacts(s.db, m, op);
      ApplyIsDone(s.phases[m].edit, s.db.Data(s.db.modifiers[m].bg));
      CallbackPublishes(s, m, op);
    } else {
      QuietKeepsPublished(s, m, op);
    }
  }

  lemma CallbackPublishes(s: State, m: Id, op: DB.ModifierOp<Edit>)
    requires CanModify(s, m, op) && RunsCallback(op) && Published(s.db, s.phases[m], s.db.modifiers[m])
    requires s.db.modifiers[m].fn == s.phases[m].edit
    requires Done(s.phases[m].edit, ModifyStep(s, m, op).db.Data(s.db.modifiers[m].bg))
    requires s.db.modifiers[m].Editing? ==> s.db.Data(s.db.modifiers[m].bg) == s.db.Data(!s.db.modifiers[m].bg)
    ensures var s' := ModifyStep(s, m, op); m in s'.db.modifiers && Published(s'.db, s'.phases[m], s'.db.modifiers[m])
  {
    hide Lists, Apply, Captured, Done;
  }

  lemma QuietKeepsPublished(s: State, m: Id, op: DB.ModifierOp<Edit>)
    requires CanModify(s, m, op) && !RunsCallback(op) && Published(s.db, s.phases[m], s.db.modifiers[m])
    ensures var s' := ModifyStep(s, m, op); m in s'.db.modifiers && Published(s'.db, s'.phases[m], s'.db.modifiers[m])
  {
    hide Lists, Apply, Captured, Done;
  }

  lemma ModifyKeepsRetired(s: State, m: Id, op: DB.ModifierOp<Edit>)
    requires CanModify(s, m, op)
    ensures s.phases[m].Retired() <= AfterModifyStep(s, m, op).Retired()
  {
  }

  lemma ModifyTracks(s: State, m: Id, op: DB.ModifierOp<Edit>, missed: set<Topo>, x: Topo)
    requires Inv(s) && CanModify(s, m, op) && ReclaimInv(s, missed) && x < s.next
    ensures Owned(ModifyStep(s, m, op), x) && Tracked(ModifyStep(s, m, op), missed, x)
  {
    hide Inv, Unlisted, DB.ModifierStep, AfterModifyStep, Published, OutOfReach;
    var s' := ModifyStep(s, m, op);
    assert Owned(s, x) && Tracked(s, missed, x);
    ModifyRetired(s, m, op);
    ModifyKeepsRetired(s, m, op);
    if n :| n in s.phases && x in s.phases[n].Unstored() {
      assert x in s'.phases[n].Unstored();
    }
    if !Unlisted(s.db, x) {
      ModifyKeepsListed(s, m, op, x);
    }
    if n :| n in s.phases && (x in s.phases[n].Publishing() || x in s.phases[n].Retired()) {
      if n == m && x in s.phases[m].Publishing() {
        ModifyKeepsPublishing(s, m, op, x);
      }
      assert n != m ==> s'.phases[n] == s.phases[n];
      assert !Unlisted(s'.db, x) || x in s'.phases[n].Publishing() || x in s'.phases[n].Retired();
    }
  }

  lemma ModifyKeepsTrack(s: State, m: Id, op: DB.ModifierOp<Edit>, missed: set<Topo>)
    requires Inv(s) && CanModify(s, m, op) && ReclaimInv(s, missed)
    ensures ReclaimInv(ModifyStep(s, m, op), missed)
  {
    hide DB.Inv, DB.DataInv, DB.ModifierStep, AfterModifyStep, Owned;
    hide Tracked, ManagersOk, CopyOk, CountsOk, PickOk, Lists;
    var s' := ModifyStep(s, m, op);
    BufferFacts(s.db, m, op);
    OthersStayIdle(s, m, op);
    forall x: Topo | x < s'.next ensures Owned(s', x) && Tracked(s', missed, x) { ModifyTracks(s, m, op, missed, x); }
    ModifyRetired(s, m, op);
    forall x | x in missed ensures OutOfReach(s', x) {
      assert OutOfReach(s, x);
      ModifyKeepsGone(s, m, op, x);
    }
    ModifyKeepsPublished(s, m, op);
    forall n | n in s'.phases ensures Published(s'.db, s'.phases[n], s'.db.modifiers[n]) {
      assert n != m ==> s'.db.modifiers[n] == DB.Idle;
    }
  }

  lemma StepKeepsTrack(s: State, a: Action, missed: set<Topo>)
    requires Inv(s) && Enabled(s, a) && ReclaimInv(s, missed)
    ensures ReclaimInv(Step(s, a), missed + MissedBy(s, a))
  {
    hide DB.Inv, DB.DataInv, ManagersOk, CopyOk, CountsOk, PickOk, ReclaimInv, CanModify, ModifyStep;
    assert !a.Delete? ==> missed + MissedBy(s, a) == missed;
    match a
    case Read(t, op) => ReadTracks(s, t, op, missed);
    case Choose(t, answer, fallback) => RequestKeepsTrack(s, Step(s, a), missed);
    case Count(t) => RequestKeepsTrack(s, Step(s, a), missed);
    case Release(x) => RequestKeepsTrack(s, Step(s, a), missed);
    case StartAdd(m, name) => StartAddKeepsTrack(s, m, name, missed);
    case StartRemove(m, name) => PhaseKeepsTrack(s, m, InModify(Remove(name), {}), missed);
    case Modify(m, op) => ModifyKeepsTrack(s, m, op, missed);
    case Store(m) => StoreKeepsTrack(s, m, missed);
    case TakeNext(m, x) =>
      assert s.phases[m].todo - {x} + {x} == s.phases[m].todo;
      PhaseKeepsTrack(s, m, Spinning(x, s.phases[m].todo - {x}), missed);
    case SeeZero(m) => PhaseKeepsTrack(s, m, Deleting(s.phases[m].topo, s.phases[m].todo), missed);
    case Delete(m) => DeleteKeepsTrack(s, m, missed);
    case Finish(m) => PhaseKeepsTrack(s, m, Resting, missed);
  }

  lemma ReadTracks(s: State, t: Id, op: DB.ReaderOp, missed: set<Topo>)
    requires LifeInv(s) && CanRead(s, t, op) && ReclaimInv(s, missed)
    ensures ReclaimInv(ReadStep(s, t, op), missed)
  {
    hide ReclaimInv, ManagersOk, CopyOk, CountsOk, PickOk;
    RequestKeepsTrack(s, ReadStep(s, t, op), missed);
  }

  // ---------------------------------------------------------------------------------------------
  // What holds over every run
  // ---------------------------------------------------------------------------------------------

  lemma {:induction false} RunKeepsTrack(states: seq<State>, actions: seq<Action>, i: nat)
    requires IsRun(states, actions) && i < |states|
    ensures ReclaimInv(states[i], Missed(states, actions, i))
  {
    hide Inv, Step, Enabled, ReclaimInv;
    if i == 0 {
      NothingToTrack(states[0]);
    } else {
      RunInv(states, actions, i - 1);
      RunKeepsTrack(states, actions, i - 1);
      StepKeepsTrack(states[i - 1], actions[i - 1], Missed(states, actions, i - 1));
    }
  }

  lemma NothingToTrack(s: State)
    requires Init(s)
    ensures ReclaimInv(s, {})
  {
  }

  ghost predicate AllResting(s: State) { forall m :: m in s.phases ==> s.phases[m].Resting? }

  ghost predicate Listed(s: State, x: Topo) { Lists(s.db.data0, x) && Lists(s.db.data1, x) }

  /** When no manager is at work the two copies of the index are the same. */
  lemma RestingCopiesAgree(s: State)
    requires Inv(s) && AllResting(s)
    ensures s.db.data0 == s.db.data1
  {
    hide CopyOk, CountsOk, PickOk, DB.ReaderOk, DB.HolderOk, DB.LockOk;
    forall m | m in s.phases ensures s.db.modifiers[m].Idle? && DB.ModifierOk(s.db, m) { IdleOutsideModify(s, m); }
    assert s.db.modifyMutex.None?;
  }

  /** Whenever all managers rest, every topology ever created is exactly one of: listed, freed once, or missed because
      its `Delete` came before its `Store`; and the missed ones are exactly what the storage holds without being
      listed. */
  lemma EveryTopologyIsAccountedFor(states: seq<State>, actions: seq<Action>, i: nat)
    requires IsRun(states, actions) && i < |states| && AllResting(states[i])
    ensures var s, missed := states[i], Missed(states, actions, i);
            forall x: Topo :: x < s.next ==>
              && (Listed(s, x) || s.freed[x] == 1 || x in missed)
              && !(Listed(s, x) && x in s.freed) && !(Listed(s, x) && x in missed) && !(x in s.freed && x in missed)
    ensures var s, missed := states[i], Missed(states, actions, i);
            forall x: Topo :: x in missed <==> x in s.storage && Unlisted(s.db, x)
  {
    hide DB.Inv, DB.DataInv, Step, Enabled;
    RunInv(states, actions, i);
    RunKeepsTrack(states, actions, i);
    var s, missed := states[i], Missed(states, actions, i);
    RestingCopiesAgree(s);
    forall x: Topo | x < s.next
      ensures Listed(s, x) || s.freed[x] == 1 || x in missed
      ensures !(Listed(s, x) && x in s.freed) && !(Listed(s, x) && x in missed) && !(x in s.freed && x in missed)
      ensures x in missed <==> x in s.storage && Unlisted(s.db, x)
    {
      RestingTopology(s, missed, x);
    }
    forall x: Topo | x in s.storage || x in missed ensures x < s.next {
      assert x in missed ==> OutOfReach(s, x);
      assert x in s.storage ==> Alive(s, x);
    }
  }

  lemma RestingTopology(s: State, missed: set<Topo>, x: Topo)
    requires LifeInv(s) && ReclaimInv(s, missed) && AllResting(s) && s.db.data0 == s.db.data1 && x < s.next
    ensures Listed(s, x) || s.freed[x] == 1 || x in missed
    ensures !(Listed(s, x) && x in s.freed) && !(Listed(s, x) && x in missed) && !(x in s.freed && x in missed)
    ensures x in missed <==> x in s.storage && Unlisted(s.db, x)
  {
    hide ManagersOk, PickOk, Injective;
    assert Owned(s, x) && Tracked(s, missed, x);
    assert x in missed ==> OutOfReach(s, x);
    if Lists(s.db.data0, x) {
      var name :| name in s.db.data0 && s.db.data0[name] == x;
      assert Alive(s, s.db.data0[name]);
    }
    assert x in s.storage ==> Alive(s, x);
  }

  // ---------------------------------------------------------------------------------------------
  // A topology that is never reclaimed
  // ---------------------------------------------------------------------------------------------

  /** `acts` lead from `s` to `s'`. */
  ghost predicate Leads(s: State, acts: seq<Action>, s': State)
    decreases |acts|
  {
    if acts == [] then s == s' else Enabled(s, acts[0]) && Leads(Step(s, acts[0]), acts[1..], s')
  }

  lemma {:induction false} LeadsOn(s: State, acts: seq<Action>, mid: State, more: seq<Action>, s': State)
    requires Leads(s, acts, mid) && Leads(mid, more, s')
    ensures Leads(s, acts + more, s')
    decreases |acts|
  {
    hide Enabled, Step;
    if acts == [] {
      assert acts + more == more;
    } else {
      LeadsOn(Step(s, acts[0]), acts[1..], mid, more, s');
      assert (acts + more)[0] == acts[0] && (acts + more)[1..] == acts[1..] + more;
    }
  }

  lemma LeadsOnce(s: State, acts: seq<Action>, mid: State, a: Action)
    requires Leads(s, acts, mid) && Enabled(mid, a)
    ensures Leads(s, acts + [a], Step(mid, a))
  {
    hide Enabled, Step;
    assert Leads(Step(mid, a), [], Step(mid, a));
    assert [a][1..] == [];
    LeadsOn(s, acts, mid, [a], Step(mid, a));
  }

  lemma {:induction false} LeadsIsRun(s: State, acts: seq<Action>, s': State) returns (states: seq<State>)
    requires Leads(s, acts, s')
    ensures |states| == |acts| + 1 && states[0] == s && states[|acts|] == s'
    ensures forall i :: 0 <= i < |acts| ==> Enabled(states[i], acts[i]) && states[i + 1] == Step(states[i], acts[i])
    decreases |acts|
  {
    hide Enabled, Step;
    if acts == [] {
      states := [s];
    } else {
      var rest := LeadsIsRun(Step(s, acts[0]), acts[1..], s');
      states := [s] + rest;
      forall i | 0 <= i < |acts| ensures Enabled(states[i], acts[i]) && states[i + 1] == Step(states[i], acts[i]) {
        if i > 0 {
          assert states[i] == rest[i - 1] && states[i + 1] == rest[i] && acts[i] == acts[1..][i - 1];
        }
      }
    }
  }

  /** Nobody reads and nobody is inside `Modify`; both copies are `index`. */
  ghost predicate Calm(s: State, index: Index) {
    && s.db.data0 == index && s.db.data1 == index && s.db.wrappers == []
    && s.db.wrappersMutex.None? && s.db.modifyMutex.None? && s.db.readers == map[] && s.picks == map[]
    && s.phases.Keys == s.db.modifiers.Keys && forall m :: m in s.db.modifiers ==> s.db.modifiers[m].Idle?
  }

  /** The steps of an undisturbed `Modify` while no wrapper exists, and where it stands before each of them. */
  function OpAt(e: Edit, i: nat): DB.ModifierOp<Edit>
    requires i < 10
  {
    match i
    case 0 => DB.LockModify(e)
    case 1 => DB.LoadIndex
    case 2 => DB.EnterEdit
    case 3 => DB.LeaveEdit
    case 4 => DB.Flip
    case 5 => DB.LockWrappers
    case 6 => DB.UnlockWrappers
    case 7 => DB.EnterSync
    case 8 => DB.LeaveSync
    case _ => DB.UnlockModify
  }

  function PcAt(e: Edit, bg: bool, i: nat): DB.ModifierPc<Edit>
    requires i <= 10
  {
    match i
    case 1 => DB.Locked(e)
    case 2 => DB.Loaded(e, bg)
    case 3 => DB.Editing(e, bg)
    case 4 => DB.Edited(e, bg, true)
    case 5 => DB.Flipped(e, !bg)
    case 6 => DB.Draining(e, !bg, 0)
    case 7 => DB.Drained(e, !bg)
    case 8 => DB.Syncing(e, !bg)
    case 9 => DB.Finished
    case _ => DB.Idle
  }

  ghost predicate Stage(s: State, m: Id, e: Edit, index: Index, bg: bool, i: nat)
    requires i <= 10 && e.Replace?
  {
    && m in s.phases && s.phases.Keys == s.db.modifiers.Keys && s.db.modifiers[m] == PcAt(e, bg, i)
    && s.db.index == (if i < 5 then !bg else bg)
    && s.db.Data(bg) == (if i < 4 then index else Apply(e, index))
    && s.db.Data(!bg) == (if i < 9 then index else Apply(e, index))
    && s.phases[m] == (if i < 4 then InModify(e, {}) else if i < 10 then InModify(e, Captured(e, index))
                       else ToStore(e.topo, Captured(e, index)))
    && s.db.modifyMutex == (if i == 0 || i == 10 then None else Some(m))
    && s.db.wrappersMutex == (if i == 6 then Some(DB.Modifier(m)) else None)
    && s.db.wrappers == [] && s.db.readers == map[] && s.picks == map[]
    && forall n :: n in s.db.modifiers && n != m ==> s.db.modifiers[n].Idle?
  }

  ghost predicate SameBooks(s: State, s': State, m: Id) {
    && m in s.phases && m in s'.phases && s'.phases == s.phases[m := s'.phases[m]]
    && s'.next == s.next && s'.refs == s.refs && s'.storage == s.storage && s'.freed == s.freed && s'.held == s.held
  }

  lemma StageStep(s: State, m: Id, e: Edit, index: Index, bg: bool, i: nat)
    requires i < 10 && e.Replace? && Stage(s, m, e, index, bg, i)
    ensures var a := Modify(m, OpAt(e, i));
            Enabled(s, a) && Stage(Step(s, a), m, e, index, bg, i + 1) && SameBooks(s, Step(s, a), m)
  {
    hide Stage, CanModify, ModifyStep, OpAt;
    if i < 3 {
      StageBefore(s, m, e, index, bg, i);
    } else if i == 3 {
      StageEdit(s, m, e, index, bg, i);
    } else if i == 4 {
      StageFlip(s, m, e, index, bg, i);
    } else if i < 8 {
      StageDrain(s, m, e, index, bg, i);
    } else if i == 8 {
      StageSync(s, m, e, index, bg, i);
    } else {
      StageReturn(s, m, e, index, bg, i);
    }
  }

  lemma StageBefore(s: State, m: Id, e: Edit, index: Index, bg: bool, i: nat)
    requires i < 3 && e.Replace? && Stage(s, m, e, index, bg, i)
    ensures CanModify(s, m, OpAt(e, i))
    ensures var s' := ModifyStep(s, m, OpAt(e, i)); Stage(s', m, e, index, bg, i + 1) && SameBooks(s, s', m)
  {
    hide Apply, Captured;
  }

  lemma StageEdit(s: State, m: Id, e: Edit, index: Index, bg: bool, i: nat)
    requires i == 3 && e.Replace? && Stage(s, m, e, index, bg, i)
    ensures CanModify(s, m, OpAt(e, i))
    ensures var s' := ModifyStep(s, m, OpAt(e, i)); Stage(s', m, e, index, bg, i + 1) && SameBooks(s, s', m)
  {
    hide Captured;
  }

  lemma StageSync(s: State, m: Id, e: Edit, index: Index, bg: bool, i: nat)
    requires i == 8 && e.Replace? && Stage(s, m, e, index, bg, i)
    ensures CanModify(s, m, OpAt(e, i))
    ensures var s' := ModifyStep(s, m, OpAt(e, i)); Stage(s', m, e, index, bg, i + 1) && SameBooks(s, s', m)
  {
    hide Captured;
    assert Captured(e, index) + Captured(e, index) == Captured(e, index);
  }

  lemma StageFlip(s: State, m: Id, e: Edit, index: Index, bg: bool, i: nat)
    requires i == 4 && e.Replace? && Stage(s, m, e, index, bg, i)
    ensures CanModify(s, m, OpAt(e, i))
    ensures var s' := ModifyStep(s, m, OpAt(e, i)); Stage(s', m, e, index, bg, i + 1) && SameBooks(s, s', m)
  {
    hide Apply, Captured;
  }

  lemma StageDrain(s: State, m: Id, e: Edit, index: Index, bg: bool, i: nat)
    requires 5 <= i < 8 && e.Replace? && Stage(s, m, e, index, bg, i)
    ensures CanModify(s, m, OpAt(e, i))
    ensures var s' := ModifyStep(s, m, OpAt(e, i)); Stage(s', m, e, index, bg, i + 1) && SameBooks(s, s', m)
  {
    hide Apply, Captured;
  }

  lemma StageReturn(s: State, m: Id, e: Edit, index: Index, bg: bool, i: nat)
    requires i == 9 && e.Replace? && Stage(s, m, e, index, bg, i)
    ensures CanModify(s, m, OpAt(e, i))
    ensures var s' := ModifyStep(s, m, OpAt(e, i)); Stage(s', m, e, index, bg, i + 1) && SameBooks(s, s', m)
  {
    hide Apply, Captured;
  }

  /** `Modify` from its call to its return, undisturbed. */
  lemma WholeModify(s: State, m: Id, e: Edit, index: Index) returns (acts: seq<Action>, s': State)
    requires Calm(s, index) && m in s.phases && s.phases[m] == InModify(e, {}) && e.Replace?
    ensures Leads(s, acts, s') && Calm(s', Apply(e, index)) && SameBooks(s, s', m)
    ensures s'.phases[m] == ToStore(e.topo, Captured(e, index))
  {
    hide Leads, Enabled, Step;
    var bg := !s.db.index;
    LeadsNowhere(s);
    acts, s' := [], s;
    for i := 0 to 10
      invariant Leads(s, acts, s') && SameBooks(s, s', m) && Stage(s', m, e, index, bg, i)
    {
      var a := Modify(m, OpAt(e, i));
      StageStep(s', m, e, index, bg, i);
      LeadsOnce(s, acts, s', a);
      acts, s' := acts + [a], Step(s', a);
    }
  }

  lemma LeadsNowhere(s: State)
    ensures Leads(s, [], s)
  {
  }

  /** Two managers that have not begun. */
  function Start(): State {
    var db: DB.State<Index, Edit> :=
      DB.State(map[], map[], false, [], None, None, map[], map[], map[0 := DB.Idle, 1 := DB.Idle], map[], []);
    State(db, map[], map[0 := Resting, 1 := Resting], 0, map[], multiset{}, [], multiset{})
  }

  /** Manager 0 publishes topology 0; before it stores it, manager 1 replaces it, sees its count at zero and deletes
      nothing; then manager 0 stores it.  All managers rest, nothing lists it, and it is in the storage for good. */
  lemma QuickReplacementIsNeverReclaimed(name: Name) returns (states: seq<State>, actions: seq<Action>)
    ensures IsRun(states, actions)
    ensures var s := states[|actions|]; AllResting(s) && 0 in s.storage && Unlisted(s.db, 0) && 0 !in s.freed
  {
    hide Leads, Enabled, Step, Calm, AllResting, Unlisted, Start, Init;
    StartIsInit();
    var s0 := Start();
    var acts1, s1 := FirstAdds(name);
    var acts2, s2 := SecondReplaces(name, s1);
    LeadsOn(s0, acts1, s1, acts2, s2);
    var acts3, s3 := SecondWaits(name, s2);
    LeadsOn(s0, acts1 + acts2, s2, acts3, s3);
    var acts4, s4 := SecondDeletes(name, s3);
    LeadsOn(s0, acts1 + acts2 + acts3, s3, acts4, s4);
    var acts5, s5 := FirstStores(name, s4);
    actions := acts1 + acts2 + acts3 + acts4 + acts5;
    LeadsOn(s0, acts1 + acts2 + acts3 + acts4, s4, acts5, s5);
    states := LeadsIsRun(s0, actions, s5);
  }

  lemma StartIsInit()
    ensures Init(Start())
  {
  }

  lemma FirstAdds(name: Name) returns (acts: seq<Action>, s': State)
    ensures Leads(Start(), acts, s') && Calm(s', map[name := 0])
    ensures s'.phases == map[0 := ToStore(0, {}), 1 := Resting]
    ensures s'.next == 1 && s'.refs == map[0 := 0] && s'.storage == [] && s'.freed == multiset{}
  {
    hide Leads;
    var s, a := Start(), StartAdd(0, name);
    LeadsNowhere(s);
    LeadsOnce(s, [], s, a);
    var more;
    more, s' := WholeModify(Step(s, a), 0, Replace(name, 0), map[]);
    LeadsOn(s, [] + [a], Step(s, a), more, s');
    acts := [] + [a] + more;
  }

  lemma SecondReplaces(name: Name, s: State) returns (acts: seq<Action>, s': State)
    requires Calm(s, map[name := 0]) && s.phases == map[0 := ToStore(0, {}), 1 := Resting]
    requires s.next == 1 && s.refs == map[0 := 0] && s.storage == [] && s.freed == multiset{}
    ensures Leads(s, acts, s') && Calm(s', map[name := 1])
    ensures s'.phases == map[0 := ToStore(0, {}), 1 := ToStore(1, {0})]
    ensures s'.next == 2 && s'.refs == map[0 := 0, 1 := 0] && s'.storage == [] && s'.freed == multiset{}
  {
    hide Leads;
    var a := StartAdd(1, name);
    LeadsNowhere(s);
    LeadsOnce(s, [], s, a);
    var more;
    more, s' := WholeModify(Step(s, a), 1, Replace(name, 1), map[name := 0]);
    LeadsOn(s, [] + [a], Step(s, a), more, s');
    acts := [] + [a] + more;
  }

  lemma SecondWaits(name: Name, s: State) returns (acts: seq<Action>, s': State)
    requires Calm(s, map[name := 1]) && s.phases == map[0 := ToStore(0, {}), 1 := ToStore(1, {0})]
    requires s.refs == map[0 := 0, 1 := 0] && s.storage == [] && s.freed == multiset{}
    ensures Leads(s, acts, s') && Calm(s', map[name := 1])
    ensures s'.phases == map[0 := ToStore(0, {}), 1 := Deleting(0, {})] && s'.storage == [1] && s'.freed == multiset{}
  {
    hide Leads;
    LeadsNowhere(s);
    LeadsOnce(s, [], s, Store(1));
    var s1 := Step(s, Store(1));
    assert s1.phases[1] == Reclaiming({0}) && s1.storage == [1];
    LeadsOnce(s, [] + [Store(1)], s1, TakeNext(1, 0));
    var s2 := Step(s1, TakeNext(1, 0));
    assert s2.phases[1] == Spinning(0, {});
    LeadsOnce(s, [] + [Store(1)] + [TakeNext(1, 0)], s2, SeeZero(1));
    acts, s' := [] + [Store(1)] + [TakeNext(1, 0)] + [SeeZero(1)], Step(s2, SeeZero(1));
  }

  lemma SecondDeletes(name: Name, s: State) returns (acts: seq<Action>, s': State)
    requires Calm(s, map[name := 1]) && s.phases == map[0 := ToStore(0, {}), 1 := Deleting(0, {})]
    requires s.storage == [1] && s.freed == multiset{}
    ensures Leads(s, acts, s') && Calm(s', map[name := 1])
    ensures s'.phases == map[0 := ToStore(0, {}), 1 := Resting] && s'.storage == [1] && s'.freed == multiset{}
  {
    hide Leads, Without;
    LeadsNowhere(s);
    LeadsOnce(s, [], s, Delete(1));
    var s1 := Step(s, Delete(1));
    DeletesNothing(s);
    LeadsOnce(s, [] + [Delete(1)], s1, Finish(1));
    acts, s' := [] + [Delete(1)] + [Finish(1)], Step(s1, Finish(1));
  }

  lemma DeletesNothing(s: State)
    requires 1 in s.phases && s.phases[1] == Deleting(0, {}) && s.storage == [1] && s.freed == multiset{}
    ensures DeleteStep(s, 1).storage == [1] && DeleteStep(s, 1).freed == multiset{}
    ensures DeleteStep(s, 1).phases == s.phases[1 := Reclaiming({})]
  {
    assert s.storage[1..] == [] && Without(s.storage[1..], 0) == [];
    assert multiset(s.storage)[0] == 0;
  }

  lemma FirstStores(name: Name, s: State) returns (acts: seq<Action>, s': State)
    requires Calm(s, map[name := 1]) && s.phases == map[0 := ToStore(0, {}), 1 := Resting]
    requires s.storage == [1] && s.freed == multiset{}
    ensures Leads(s, acts, s') && AllResting(s') && 0 in s'.storage && Unlisted(s'.db, 0) && 0 !in s'.freed
  {
    hide Leads;
    LeadsNowhere(s);
    LeadsOnce(s, [], s, Store(0));
    var mid := Step(s, Store(0));
    assert mid.phases[0] == Reclaiming({});
    LeadsOnce(s, [] + [Store(0)], mid, Finish(0));
    acts, s' := [] + [Store(0)] + [Finish(0)], Step(mid, Finish(0));
    assert s'.storage == [1, 0] && s'.storage[1] == 0;
  }
}