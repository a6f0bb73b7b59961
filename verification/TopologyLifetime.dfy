/**
 * Topology lifetime on top of the doubly buffered index.  Managers replace and remove topologies,
 * wait for the reference count of what they took out to reach zero, and free it.  Requests pick a
 * topology inside a read section and count themselves in before they leave it.
 */
module TopologyLifetime {
  import opened Sequences
  import opened Wrappers
  import DB = DoublyBuffered

  type Id = DB.Id
  type Name = string
  type Topo = nat
  type Index = map<Name, Topo>

  /** The two callbacks handed to `Modify`. */
  datatype Edit = Replace(name: Name, topo: Topo) | Remove(name: Name)

  function Apply(e: Edit, index: Index): Index {
    match e
    case Replace(name, topo) => index[name := topo]
    case Remove(name) => index - {name}
  }

  /** `replace` always reports one changed entry, `remove` only if the name was there. */
  predicate Publishes(e: Edit, index: Index) {
    e.Replace? || e.name in index
  }

  /** What a callback adds to the caller's set of topologies to reclaim. */
  function Captured(e: Edit, index: Index): set<Topo> {
    if e.name in index then {index[e.name]} else {}
  }

  function IndexApi(): (api: DB.Api<Index, Edit>)
    ensures api.DeclinesCleanly()
  {
    var api := DB.Api((e: Edit, index: Index) => Apply(e, index), (e: Edit, index: Index) => Publishes(e, index));
    assert forall e: Edit, index: Index :: !api.publishes(e, index) ==> index - {e.name} == index;
    api
  }

  /** `PickTopology`: the picker's answer if it names a topology, else the method's default. */
  function PickTopology(index: Index, answer: Option<Name>, fallback: Name): Option<Topo> {
    if answer.Some? && answer.value in index then Some(index[answer.value])
    else if fallback in index then Some(index[fallback])
    else None
  }

  /** How far `PickTopology` has come in the current read section. */
  datatype Pick = NotPicked | Chosen(topo: Topo) | Counted

  /** Where a call of `add_topology` or `remove_topology` stands. */
  datatype Phase =
    | Resting
    | InModify(edit: Edit, replaced: set<Topo>)
    | ToStore(topo: Topo, todo: set<Topo>)
    | Reclaiming(todo: set<Topo>)
    | Spinning(topo: Topo, todo: set<Topo>)
    | Deleting(topo: Topo, todo: set<Topo>)
  {
    /** The topologies this call has taken out of the index and not finished with. */
    function Retired(): set<Topo> {
      match this
      case Resting => {}
      case InModify(_, replaced) => replaced
      case ToStore(_, todo) => todo
      case Reclaiming(todo) => todo
      case Spinning(x, todo) => todo + {x}
      case Deleting(x, todo) => todo + {x}
    }

    /** The new topology of this call, until its `Modify` returns. */
    function Publishing(): set<Topo> { if InModify? && edit.Replace? then {edit.topo} else {} }

    /** The new topology of this call, until it is in the storage. */
    function Unstored(): set<Topo> { if ToStore? then {topo} else Publishing() }
  }

  /** `refs` are the atomic counters; `held` counts the requests that have incremented and not yet
      decremented; `freed` counts `delete`s.  Topologies are numbered in order of creation. */
  datatype State = State(
    db: DB.State<Index, Edit>,
    picks: map<Id, Pick>,
    phases: map<Id, Phase>,
    next: Topo,
    refs: map<Topo, int>,
    held: multiset<Topo>,
    storage: seq<Topo>,
    freed: multiset<Topo>)

  // Steps of requests.

  predicate CanRead(s: State, t: Id, op: DB.ReaderOp) {
    DB.ReaderEnabled(s.db, t, op) && t in s.picks && (op.EndRead? ==> !s.picks[t].Chosen?)
  }

  function ReadStep(s: State, t: Id, op: DB.ReaderOp): State
    requires CanRead(s, t, op)
  {
    s.(db := DB.ReaderStep(s.db, t, op), picks := if op.EndRead? then s.picks[t := NotPicked] else s.picks)
  }

  predicate CanChoose(s: State, t: Id, answer: Option<Name>, fallback: Name) {
    && t in s.db.readers && s.db.readers[t].pc.Holding? && t in s.picks && s.picks[t].NotPicked?
    && PickTopology(s.db.Data(s.db.readers[t].pc.at), answer, fallback).Some?
  }

  function ChooseStep(s: State, t: Id, answer: Option<Name>, fallback: Name): State
    requires CanChoose(s, t, answer, fallback)
  {
    var x := PickTopology(s.db.Data(s.db.readers[t].pc.at), answer, fallback).value;
    s.(picks := s.picks[t := Chosen(x)])
  }

  predicate CanCount(s: State, t: Id) {
    t in s.picks && s.picks[t].Chosen? && s.picks[t].topo in s.refs
  }

  function CountStep(s: State, t: Id): State
    requires CanCount(s, t)
  {
    var x := s.picks[t].topo;
    s.(picks := s.picks[t := Counted], refs := s.refs[x := s.refs[x] + 1], held := s.held + multiset{x})
  }

  predicate CanRelease(s: State, x: Topo) { x in s.held && x in s.refs }

  function ReleaseStep(s: State, x: Topo): State
    requires CanRelease(s, x)
  {
    s.(refs := s.refs[x := s.refs[x] - 1], held := s.held - multiset{x})
  }

  // Steps of managers.

  function StartAddStep(s: State, m: Id, name: Name): State {
    s.(phases := s.phases[m := InModify(Replace(name, s.next), {})], refs := s.refs[s.next := 0], next := s.next + 1)
  }

  predicate CanModify(s: State, m: Id, op: DB.ModifierOp<Edit>) {
    && DB.ModifierEnabled(s.db, m, op)
    && m in s.phases && s.phases[m].InModify? && (op.LockModify? ==> op.fn == s.phases[m].edit)
  }

  /** `Modify` has returned: an addition still has to be stored. */
  function Returned(ph: Phase): Phase
    requires ph.InModify?
  {
    match ph.edit
    case Replace(_, topo) => ToStore(topo, ph.replaced)
    case Remove(_) => Reclaiming(ph.replaced)
  }

  /** The phase of a manager after its `Modify` has taken step `op`: each run of the callback captures
      what it displaces. */
  function AfterModifyStep(s: State, m: Id, op: DB.ModifierOp<Edit>): Phase
    requires CanModify(s, m, op)
  {
    var ph := s.phases[m];
    match op
    case LeaveEdit => ph.(replaced := ph.replaced + Captured(ph.edit, s.db.Data(s.db.modifiers[m].bg)))
    case LeaveSync => ph.(replaced := ph.replaced + Captured(ph.edit, s.db.Data(s.db.modifiers[m].bg)))
    case GiveUp => Returned(ph)
    case UnlockModify => Returned(ph)
    case _ => ph
  }

  function ModifyStep(s: State, m: Id, op: DB.ModifierOp<Edit>): State
    requires CanModify(s, m, op)
  {
    s.(db := DB.ModifierStep(IndexApi(), s.db, m, op), phases := s.phases[m := AfterModifyStep(s, m, op)])
  }

  function StoreStep(s: State, m: Id): State
    requires m in s.phases && s.phases[m].ToStore?
  {
    s.(storage := s.storage + [s.phases[m].topo], phases := s.phases[m := Reclaiming(s.phases[m].todo)])
  }

  /** `wait_and_delete` reads the counter of `x` once more; it leaves the spin when the count is not positive. */
  predicate SeesZero(s: State, m: Id) {
    m in s.phases && s.phases[m].Spinning? && s.phases[m].topo in s.refs && s.refs[s.phases[m].topo] <= 0
  }

  /** `ManagerStorage::Delete` erases every entry equal to `x`. */
  function Without(storage: seq<Topo>, x: Topo): seq<Topo> {
    if storage == [] then []
    else (if storage[0] == x then [] else [storage[0]]) + Without(storage[1..], x)
  }

  /** Every erased entry is one `delete`. */
  function DeleteStep(s: State, m: Id): State
    requires m in s.phases && s.phases[m].Deleting?
  {
    var x := s.phases[m].topo;
    s.(storage := Without(s.storage, x), freed := s.freed[x := s.freed[x] + multiset(s.storage)[x]],
       phases := s.phases[m := Reclaiming(s.phases[m].todo)])
  }

  datatype Action =
    | Read(t: Id, rop: DB.ReaderOp)
    | Choose(t: Id, answer: Option<Name>, fallback: Name)
    | Count(t: Id)
    | Release(x: Topo)
    | StartAdd(m: Id, name: Name)
    | StartRemove(m: Id, name: Name)
    | Modify(m: Id, mop: DB.ModifierOp<Edit>)
    | Store(m: Id)
    | TakeNext(m: Id, x: Topo)
    | SeeZero(m: Id)
    | Delete(m: Id)
    | Finish(m: Id)

  predicate Enabled(s: State, a: Action) {
    match a
    case Read(t, op) => CanRead(s, t, op)
    case Choose(t, answer, fallback) => CanChoose(s, t, answer, fallback)
    case Count(t) => CanCount(s, t)
    case Release(x) => CanRelease(s, x)
    case StartAdd(m, _) => m in s.phases && s.phases[m].Resting?
    case StartRemove(m, _) => m in s.phases && s.phases[m].Resting?
    case Modify(m, op) => CanModify(s, m, op)
    case Store(m) => m in s.phases && s.phases[m].ToStore?
    case TakeNext(m, x) => m in s.phases && s.phases[m].Reclaiming? && x in s.phases[m].todo
    case SeeZero(m) => SeesZero(s, m)
    case Delete(m) => m in s.phases && s.phases[m].Deleting?
    case Finish(m) => m in s.phases && s.phases[m].Reclaiming? && s.phases[m].todo == {}
  }

  function Step(s: State, a: Action): State
    requires Enabled(s, a)
  {
    match a
    case Read(t, op) => ReadStep(s, t, op)
    case Choose(t, answer, fallback) => ChooseStep(s, t, answer, fallback)
    case Count(t) => CountStep(s, t)
    case Release(x) => ReleaseStep(s, x)
    case StartAdd(m, name) => StartAddStep(s, m, name)
    case StartRemove(m, name) => s.(phases := s.phases[m := InModify(Remove(name), {})])
    case Modify(m, op) => ModifyStep(s, m, op)
    case Store(m) => StoreStep(s, m)
    case TakeNext(m, x) => s.(phases := s.phases[m := Spinning(x, s.phases[m].todo - {x})])
    case SeeZero(m) => s.(phases := s.phases[m := Deleting(s.phases[m].topo, s.phases[m].todo)])
    case Delete(m) => DeleteStep(s, m)
    case Finish(m) => s.(phases := s.phases[m := Resting])
  }

  predicate Init(s: State) {
    && DB.Init(s.db) && s.db.initial == map[]
    && s.picks.Keys == s.db.readers.Keys && s.phases.Keys == s.db.modifiers.Keys
    && (forall t :: t in s.picks ==> s.picks[t].NotPicked?)
    && (forall m :: m in s.phases ==> s.phases[m].Resting?)
    && s.next == 0 && s.refs == map[] && s.held == multiset{} && s.storage == [] && s.freed == multiset{}
  }

  ghost predicate IsRun(states: seq<State>, actions: seq<Action>) {
    && |states| == |actions| + 1
    && Init(states[0])
    && forall i :: 0 <= i < |actions| ==> Enabled(states[i], actions[i]) && states[i + 1] == Step(states[i], actions[i])
  }

  // ---------------------------------------------------------------------------------------------
  // The inductive invariant
  // ---------------------------------------------------------------------------------------------

  predicate Lists(index: Index, x: Topo) {
    exists name :: name in index && index[name] == x
  }

  ghost predicate Injective(index: Index) {
    forall a, b :: a in index && b in index && index[a] == index[b] ==> a == b
  }

  predicate Alive(s: State, x: Topo) { x < s.next && x !in s.freed }

  /** Every topology that a copy of the index lists is alive, under one name only. */
  ghost predicate CopyOk(s: State, index: Index) {
    Injective(index) && forall name :: name in index ==> Alive(s, index[name])
  }

  predicate Unlisted(db: DB.State<Index, Edit>, x: Topo) { !Lists(db.data0, x) && !Lists(db.data1, x) }

  /** Nothing that a manager still deals with has been freed, and what it waited for has no holder left. */
  ghost predicate LiveOk(s: State, ph: Phase) {
    && (forall x :: x in ph.Retired() ==> Alive(s, x))
    && (forall x :: x in ph.Unstored() ==> Alive(s, x) && x !in s.storage)
    && (ph.Deleting? ==> s.held[ph.topo] == 0)
  }

  /** How the topologies of a manager whose `Modify` stands at `pc` relate to the two copies of the index. */
  ghost predicate PlaceOk(db: DB.State<Index, Edit>, ph: Phase, pc: DB.ModifierPc<Edit>) {
    && (!ph.InModify? ==> pc.Idle?)
    && (!ph.InModify? || pc.Finished? ==> forall x :: x in ph.Retired() ==> Unlisted(db, x))
    && (ph.Spinning? || ph.Deleting? ==> ph.topo !in ph.todo)
    && (ph.InModify? ==>
          && (pc.Locked? || pc.Loaded? || pc.Editing? || pc.Edited? || pc.HalfPublished() ==> pc.fn == ph.edit)
          && (pc.Idle? || pc.Locked? || pc.Loaded? || pc.Editing? ==> ph.replaced == {})
          && (pc.Edited? ==> ph.replaced == Captured(ph.edit, db.Data(!pc.bg)) && (!pc.ok ==> ph.replaced == {}))
          && (pc.HalfPublished() ==> ph.replaced == Captured(ph.edit, db.Data(pc.bg))))
    && (forall x :: x in ph.Publishing() ==>
          && x !in ph.replaced
          && (pc.Idle? || pc.Locked? || pc.Loaded? || pc.Editing? ==> Unlisted(db, x))
          && (pc.Edited? ==> !Lists(db.Data(!pc.bg), x))
          && (pc.HalfPublished() ==> !Lists(db.Data(pc.bg), x)))
  }

  /** Two managers never deal with the same topology, except that one may retire what another still has to store. */
  ghost predicate Disjoint(p: Phase, q: Phase) {
    && p.Retired() !! q.Retired()
    && p.Unstored() !! q.Unstored()
    && p.Publishing() !! q.Retired()
    && q.Publishing() !! p.Retired()
  }

  /** A topology chosen but not counted yet is listed in the copy that its reader holds. */
  ghost predicate PickOk(s: State, t: Id)
    requires t in s.picks && t in s.db.readers
  {
    var pc := s.db.readers[t].pc;
    && (!s.picks[t].NotPicked? ==> pc.Holding?)
    && (s.picks[t].Chosen? ==> Lists(s.db.Data(pc.at), s.picks[t].topo))
  }

  ghost predicate CountsOk(s: State) {
    && (forall x: Topo :: x in s.refs <==> x < s.next)
    && (forall x: Topo :: x in s.refs ==> s.refs[x] == s.held[x])
    && (forall x: Topo :: x in s.held ==> Alive(s, x))
    && NoRepeats(s.storage)
    && (forall x: Topo :: x in s.storage ==> Alive(s, x))
    && (forall x: Topo :: s.freed[x] <= 1)
    && (forall x: Topo :: x in s.freed ==> x < s.next)
  }

  ghost predicate KeysOk(s: State) {
    s.picks.Keys == s.db.readers.Keys && s.phases.Keys == s.db.modifiers.Keys
  }

  ghost predicate ManagersOk(s: State)
    requires KeysOk(s)
  {
    && (forall m :: m in s.phases ==> LiveOk(s, s.phases[m]) && PlaceOk(s.db, s.phases[m], s.db.modifiers[m]))
    && (forall m, n :: m in s.phases && n in s.phases && m != n ==> Disjoint(s.phases[m], s.phases[n]))
  }

  ghost predicate LifeInv(s: State) {
    && KeysOk(s)
    && CopyOk(s, s.db.data0) && CopyOk(s, s.db.data1)
    && CountsOk(s)
    && ManagersOk(s)
    && (forall t :: t in s.picks ==> PickOk(s, t))
  }

  ghost predicate Inv(s: State) {
    DB.Inv(s.db) && DB.DataInv(IndexApi(), s.db) && LifeInv(s)
  }

  lemma InitInv(s: State)
    requires Init(s)
    ensures Inv(s)
  {
    DB.InitInv(IndexApi(), s.db);
  }

  /** A step of a request keeps the managers' part of the invariant unless it counts in a topology that
      somebody is about to delete. */
  lemma ManagersFrame(s: State, s': State)
    requires KeysOk(s) && ManagersOk(s) && KeysOk(s')
    requires s'.phases == s.phases && s'.db.modifiers == s.db.modifiers
    requires s'.db.data0 == s.db.data0 && s'.db.data1 == s.db.data1
    requires s'.next == s.next && s'.freed == s.freed && s'.storage == s.storage
    requires forall m :: m in s.phases && s.phases[m].Deleting? ==> s'.held[s.phases[m].topo] == 0
    ensures ManagersOk(s')
  {
    hide Disjoint, LiveOk, PlaceOk;
    forall m | m in s'.phases ensures LiveOk(s', s'.phases[m]) && PlaceOk(s'.db, s'.phases[m], s'.db.modifiers[m]) {
      LiveFrame(s, s', s.phases[m]);
      PlaceFrame(s.db, s'.db, s.phases[m], s.db.modifiers[m]);
    }
  }

  lemma LiveFrame(s: State, s': State, ph: Phase)
    requires LiveOk(s, ph) && s'.next == s.next && s'.freed == s.freed && s'.storage == s.storage
    requires ph.Deleting? ==> s'.held[ph.topo] == 0
    ensures LiveOk(s', ph)
  {
    assert forall x :: Alive(s, x) ==> Alive(s', x);
  }

  lemma PlaceFrame(db: DB.State<Index, Edit>, db': DB.State<Index, Edit>, ph: Phase, pc: DB.ModifierPc<Edit>)
    requires PlaceOk(db, ph, pc) && db'.data0 == db.data0 && db'.data1 == db.data1
    ensures PlaceOk(db', ph, pc)
  {
    hide Lists, Captured;
    assert forall x :: Unlisted(db, x) ==> Unlisted(db', x);
    assert db'.Data(false) == db.Data(false) && db'.Data(true) == db.Data(true);
  }

  lemma PicksFrame(s: State, s': State)
    requires KeysOk(s) && KeysOk(s')
    requires s'.picks == s.picks && s'.db == s.db
    requires forall t :: t in s.picks ==> PickOk(s, t)
    ensures forall t :: t in s'.picks ==> PickOk(s', t)
  {
    forall t | t in s'.picks ensures PickOk(s', t) { assert PickOk(s, t); }
  }

  /** A topology that no copy of the index lists is not chosen by any reader. */
  lemma ChosenIsListed(s: State, t: Id)
    requires LifeInv(s) && t in s.picks && s.picks[t].Chosen?
    ensures !Unlisted(s.db, s.picks[t].topo) && Alive(s, s.picks[t].topo)
  {
    assert PickOk(s, t);
  }

  lemma NobodyDeletesAListedTopology(s: State, m: Id)
    requires LifeInv(s) && m in s.phases && s.phases[m].Deleting?
    ensures Unlisted(s.db, s.phases[m].topo) && s.held[s.phases[m].topo] == 0
  {
    assert LiveOk(s, s.phases[m]) && PlaceOk(s.db, s.phases[m], s.db.modifiers[m]);
    assert s.phases[m].topo in s.phases[m].Retired();
  }

  // Steps of a request.

  lemma ReadKeepsInv(s: State, t: Id, op: DB.ReaderOp)
    requires LifeInv(s) && CanRead(s, t, op)
    ensures LifeInv(ReadStep(s, t, op))
  {
    hide ManagersOk, CopyOk, PickOk, Lists;
    var s' := ReadStep(s, t, op);
    CopiesFrame(s, s');
    forall m | m in s.phases && s.phases[m].Deleting? ensures s'.held[s.phases[m].topo] == 0 {
      NobodyDeletesAListedTopology(s, m);
    }
    ManagersFrame(s, s');
    forall r | r in s'.picks ensures PickOk(s', r) {
      ReadKeepsPick(s, t, op, r);
    }
  }

  lemma ReadKeepsPick(s: State, t: Id, op: DB.ReaderOp, r: Id)
    requires KeysOk(s) && CanRead(s, t, op) && r in s.picks && PickOk(s, r) && PickOk(s, t)
    ensures r in ReadStep(s, t, op).picks && r in ReadStep(s, t, op).db.readers && PickOk(ReadStep(s, t, op), r)
  {
  }

  lemma ChooseKeepsInv(s: State, t: Id, answer: Option<Name>, fallback: Name)
    requires LifeInv(s) && CanChoose(s, t, answer, fallback)
    ensures LifeInv(ChooseStep(s, t, answer, fallback))
  {
    hide ManagersOk, Injective;
    var s' := ChooseStep(s, t, answer, fallback);
    forall m | m in s.phases && s.phases[m].Deleting? ensures s'.held[s.phases[m].topo] == 0 {
      NobodyDeletesAListedTopology(s, m);
    }
    ManagersFrame(s, s');
    forall r | r in s'.picks ensures PickOk(s', r) { assert PickOk(s, r); }
  }

  lemma CountKeepsInv(s: State, t: Id)
    requires LifeInv(s) && CanCount(s, t)
    ensures LifeInv(CountStep(s, t))
  {
    hide ManagersOk, Injective, Lists;
    var s' := CountStep(s, t);
    ChosenIsListed(s, t);
    forall m | m in s.phases && s.phases[m].Deleting? ensures s'.held[s.phases[m].topo] == 0 {
      NobodyDeletesAListedTopology(s, m);
    }
    ManagersFrame(s, s');
    forall r | r in s'.picks ensures PickOk(s', r) { assert PickOk(s, r); }
  }

  lemma ReleaseKeepsInv(s: State, x: Topo)
    requires LifeInv(s) && CanRelease(s, x)
    ensures LifeInv(ReleaseStep(s, x))
  {
    hide ManagersOk, Injective, Lists;
    var s' := ReleaseStep(s, x);
    forall m | m in s.phases && s.phases[m].Deleting? ensures s'.held[s.phases[m].topo] == 0 {
      NobodyDeletesAListedTopology(s, m);
    }
    ManagersFrame(s, s');
    PicksFrame(s, s');
  }

  // Steps of a manager outside `Modify`.

  lemma {:induction false} WithoutContents(storage: seq<Topo>, x: Topo)
    requires NoRepeats(storage)
    ensures NoRepeats(Without(storage, x))
    ensures forall y :: y in Without(storage, x) <==> y in storage && y != x
  {
    if storage != [] {
      var rest := Without(storage[1..], x);
      WithoutContents(storage[1..], x);
      assert storage[0] !in rest;
      assert forall i :: 0 < i < |[storage[0]] + rest| ==> ([storage[0]] + rest)[i] == rest[i - 1];
      assert forall y :: y in storage <==> y == storage[0] || y in storage[1..];
    }
  }

  /** Manager `m` moves on, frees at most what it retired and the storage held, stores at most its own new
      topology, and deals from now on with no more than before and topologies that did not exist. */
  ghost predicate OwnMove(s: State, s': State, m: Id) {
    && m in s.phases && m in s'.phases
    && s'.db == s.db && s'.picks == s.picks && s'.held == s.held && s.next <= s'.next
    && s'.phases == s.phases[m := s'.phases[m]]
    && (forall x :: x in s'.freed ==> x in s.freed || (x in s.phases[m].Retired() && x in s.storage))
    && (forall x :: x in s'.storage ==> x in s.storage || x in s.phases[m].Unstored())
    && (forall x :: x in s'.phases[m].Retired() ==> x in s.phases[m].Retired())
    && (forall x :: x in s'.phases[m].Unstored() ==> x in s.phases[m].Unstored() || x == s.next)
    && (forall x :: x in s'.phases[m].Publishing() ==> x in s.phases[m].Publishing() || x == s.next)
  }

  lemma OwnMoveKeepsOther(s: State, s': State, m: Id, n: Id)
    requires OwnMove(s, s', m) && n in s.phases && n != m
    requires LiveOk(s, s.phases[n]) && Disjoint(s.phases[m], s.phases[n])
    ensures LiveOk(s', s'.phases[n]) && Disjoint(s'.phases[m], s'.phases[n]) && Disjoint(s'.phases[n], s'.phases[m])
  {
    var p := s.phases[n];
    assert forall x :: x in p.Retired() || x in p.Unstored() ==> Alive(s, x);
    assert forall x :: x in p.Publishing() ==> x in p.Unstored();
  }

  lemma OwnMoveKeepsManagers(s: State, s': State, m: Id)
    requires KeysOk(s) && ManagersOk(s) && KeysOk(s') && OwnMove(s, s', m)
    requires LiveOk(s', s'.phases[m]) && PlaceOk(s'.db, s'.phases[m], s'.db.modifiers[m])
    ensures ManagersOk(s')
  {
    hide LiveOk, PlaceOk, Disjoint;
    forall n | n in s'.phases && n != m
      ensures LiveOk(s', s'.phases[n]) && Disjoint(s'.phases[m], s'.phases[n]) && Disjoint(s'.phases[n], s'.phases[m])
    {
      OwnMoveKeepsOther(s, s', m, n);
    }
  }

  lemma CopyKeepsAlive(s: State, s': State, index: Index, x: Topo)
    requires CopyOk(s, index) && !Lists(index, x) && s.next <= s'.next
    requires forall y :: y in s'.freed ==> y in s.freed || y == x
    ensures CopyOk(s', index)
  {
    forall name | name in index ensures Alive(s', index[name]) {
      assert Alive(s, index[name]);
    }
  }

  /** The heart of reclamation: what is freed is listed by no copy, held by no request and known to no other manager. */
  lemma DeleteKeepsInv(s: State, m: Id)
    requires LifeInv(s) && m in s.phases && s.phases[m].Deleting?
    ensures LifeInv(DeleteStep(s, m))
  {
    hide CopyOk, CountsOk, PickOk, Lists, Without, ManagersOk, LiveOk;
    var s' := DeleteStep(s, m);
    var x := s.phases[m].topo;
    NobodyDeletesAListedTopology(s, m);
    ManagerOk(s, m);
    assert NoRepeats(s.storage) by { NoStorageRepeats(s); }
    DeleteKeepsManagers(s, m);
    DeleteKeepsCounts(s, m);
    PicksFrame(s, s');
    CopyKeepsAlive(s, s', s.db.data0, x);
    CopyKeepsAlive(s, s', s.db.data1, x);
  }

  lemma NoStorageRepeats(s: State)
    requires CountsOk(s)
    ensures NoRepeats(s.storage)
  {
  }

  lemma DeleteKeepsManagers(s: State, m: Id)
    requires KeysOk(s) && ManagersOk(s) && m in s.phases && s.phases[m].Deleting?
    requires NoRepeats(s.storage)
    ensures KeysOk(DeleteStep(s, m)) && ManagersOk(DeleteStep(s, m))
  {
    hide Disjoint, PlaceOk, Without;
    var s', ph := DeleteStep(s, m), s.phases[m];
    WithoutContents(s.storage, ph.topo);
    CountOnce(s.storage, ph.topo);
    TakenOutOfTodo(s, m);
    PlaceShrinks(s.db, ph, s'.phases[m], s.db.modifiers[m]);
    assert LiveOk(s, ph);
    OwnMoveKeepsManagers(s, s', m);
  }

  /** A call that has left `Modify` and drops some of its topologies keeps its relation to the copies. */
  lemma PlaceShrinks(db: DB.State<Index, Edit>, ph: Phase, ph': Phase, pc: DB.ModifierPc<Edit>)
    requires PlaceOk(db, ph, pc) && !ph.InModify?
    requires ph'.Retired() <= ph.Retired() && ph'.Publishing() == {}
    requires ph'.InModify? ==> ph'.replaced == {}
    requires ph'.Spinning? || ph'.Deleting? ==> ph'.topo !in ph'.todo
    ensures PlaceOk(db, ph', pc)
  {
  }

  lemma TakenOutOfTodo(s: State, m: Id)
    requires KeysOk(s) && ManagersOk(s) && m in s.phases
    ensures s.phases[m].Spinning? || s.phases[m].Deleting? ==> s.phases[m].topo !in s.phases[m].todo
  {
    assert PlaceOk(s.db, s.phases[m], s.db.modifiers[m]);
  }

  lemma DeleteKeepsCounts(s: State, m: Id)
    requires CountsOk(s) && m in s.phases && s.phases[m].Deleting?
    requires LiveOk(s, s.phases[m])
    ensures CountsOk(DeleteStep(s, m))
  {
    var x := s.phases[m].topo;
    WithoutContents(s.storage, x);
    CountOnce(s.storage, x);
    assert Alive(s, x);
  }

  lemma CopiesFrame(s: State, s': State)
    requires CopyOk(s, s.db.data0) && CopyOk(s, s.db.data1)
    requires s'.db.data0 == s.db.data0 && s'.db.data1 == s.db.data1 && s.next <= s'.next && s'.freed == s.freed
    ensures CopyOk(s', s'.db.data0) && CopyOk(s', s'.db.data1)
  {
    assert forall x :: Alive(s, x) ==> Alive(s', x);
  }

  lemma FreshIsUnknown(s: State)
    requires LifeInv(s)
    ensures Unlisted(s.db, s.next) && s.next !in s.storage && s.next !in s.held && s.next !in s.freed
  {
  }

  lemma NewcomerIsPlaced(s: State, m: Id, name: Name)
    requires m in s.phases && s.phases[m].Resting? && m in s.db.modifiers && s.db.modifiers[m].Idle?
    requires Unlisted(s.db, s.next) && s.next !in s.storage && s.next !in s.freed
    ensures var s' := StartAddStep(s, m, name);
            LiveOk(s', s'.phases[m]) && PlaceOk(s'.db, s'.phases[m], s'.db.modifiers[m])
  {
    hide Lists, Captured;
  }

  lemma StartAddKeepsManagers(s: State, m: Id, name: Name)
    requires KeysOk(s) && ManagersOk(s) && m in s.phases && s.phases[m].Resting?
    requires Unlisted(s.db, s.next) && s.next !in s.storage && s.next !in s.freed
    ensures KeysOk(StartAddStep(s, m, name)) && ManagersOk(StartAddStep(s, m, name))
  {
    hide Disjoint, Lists;
    var s' := StartAddStep(s, m, name);
    assert PlaceOk(s.db, s.phases[m], s.db.modifiers[m]);
    NewcomerIsPlaced(s, m, name);
    hide LiveOk, PlaceOk;
    OwnMoveKeepsManagers(s, s', m);
  }

  lemma StartAddKeepsInv(s: State, m: Id, name: Name)
    requires LifeInv(s) && m in s.phases && s.phases[m].Resting?
    ensures LifeInv(StartAddStep(s, m, name))
  {
    hide ManagersOk, PickOk, CopyOk, Unlisted;
    FreshIsUnknown(s);
    StartAddKeepsManagers(s, m, name);
    PicksFrame(s, StartAddStep(s, m, name));
    CopiesFrame(s, StartAddStep(s, m, name));
  }

  lemma StoreKeepsManagers(s: State, m: Id)
    requires KeysOk(s) && ManagersOk(s) && m in s.phases && s.phases[m].ToStore?
    ensures KeysOk(StoreStep(s, m)) && ManagersOk(StoreStep(s, m))
    ensures Alive(s, s.phases[m].topo) && s.phases[m].topo !in s.storage
  {
    hide Disjoint, PlaceOk;
    var s', ph := StoreStep(s, m), s.phases[m];
    assert ph.Unstored() == {ph.topo} && s'.phases[m].Retired() == ph.Retired();
    PlaceShrinks(s.db, ph, s'.phases[m], s.db.modifiers[m]);
    assert LiveOk(s, ph);
    OwnMoveKeepsManagers(s, s', m);
  }

  lemma StoreKeepsInv(s: State, m: Id)
    requires LifeInv(s) && m in s.phases && s.phases[m].ToStore?
    ensures LifeInv(StoreStep(s, m))
  {
    hide ManagersOk, PickOk, CopyOk;
    var s' := StoreStep(s, m);
    StoreKeepsManagers(s, m);
    PicksFrame(s, s');
    CopiesFrame(s, s');
  }

  /** The remaining steps of a manager only change its phase. */
  lemma PhaseKeepsManagers(s: State, m: Id, ph: Phase)
    requires KeysOk(s) && ManagersOk(s) && m in s.phases
    requires !s.phases[m].InModify? && ph.Retired() <= s.phases[m].Retired() && ph.Unstored() == {}
    requires ph.InModify? ==> ph.replaced == {} && ph.edit.Remove?
    requires ph.Spinning? || ph.Deleting? ==> ph.topo !in ph.todo
    requires ph.Deleting? ==> s.held[ph.topo] == 0
    ensures var s' := s.(phases := s.phases[m := ph]); KeysOk(s') && ManagersOk(s')
  {
    hide Disjoint, PlaceOk;
    var s' := s.(phases := s.phases[m := ph]);
    PlaceShrinks(s.db, s.phases[m], ph, s.db.modifiers[m]);
    assert LiveOk(s, s.phases[m]);
    OwnMoveKeepsManagers(s, s', m);
  }

  lemma PhaseKeepsInv(s: State, m: Id, ph: Phase)
    requires LifeInv(s) && m in s.phases
    requires !s.phases[m].InModify? && ph.Retired() <= s.phases[m].Retired() && ph.Unstored() == {}
    requires ph.InModify? ==> ph.replaced == {} && ph.edit.Remove?
    requires ph.Spinning? || ph.Deleting? ==> ph.topo !in ph.todo
    requires ph.Deleting? ==> s.held[ph.topo] == 0
    ensures LifeInv(s.(phases := s.phases[m := ph]))
  {
    hide ManagersOk, PickOk, CopyOk;
    var s' := s.(phases := s.phases[m := ph]);
    PhaseKeepsManagers(s, m, ph);
    PicksFrame(s, s');
    CopiesFrame(s, s');
  }

  // Steps of a manager inside `Modify`.

  /** What an edit does to an index that lists each topology once and not yet the new one. */
  lemma ApplyFacts(e: Edit, before: Index)
    requires Injective(before) && (e.Replace? ==> !Lists(before, e.topo))
    ensures Injective(Apply(e, before))
    ensures forall x :: Lists(Apply(e, before), x) ==> Lists(before, x) || (e.Replace? && x == e.topo)
    ensures forall x :: x in Captured(e, before) ==> Lists(before, x) && !Lists(Apply(e, before), x)
  {
    var after := Apply(e, before);
    forall x | Lists(after, x) ensures Lists(before, x) || (e.Replace? && x == e.topo) {
      var name :| name in after && after[name] == x;
      if !(e.Replace? && name == e.name) {
        assert name in before && before[name] == x;
      }
    }
    if e.name in before {
      assert Lists(before, before[e.name]);
      assert forall name :: name in after && name != e.name ==> name in before && before[name] == after[name];
    }
  }

  /** What the buffer's own invariant says to the manager that is inside `Modify`. */
  lemma BufferFacts(db: DB.State<Index, Edit>, m: Id, op: DB.ModifierOp<Edit>)
    requires DB.Inv(db) && DB.DataInv(IndexApi(), db) && DB.ModifierEnabled(db, m, op)
    ensures forall n :: n in db.modifiers && n != m ==> db.modifiers[n].Idle?
    ensures var pc := db.modifiers[m];
            && (pc.Editing? ==> db.Data(pc.bg) == db.Data(!pc.bg))
            && (pc.Syncing? ==> db.Data(!pc.bg) == Apply(pc.fn, db.Data(pc.bg)))
    ensures db.modifiers[m].RunsCallback() ==>
              forall t :: t in db.readers && db.readers[t].pc.Holding? ==> db.readers[t].pc.at != db.modifiers[m].bg
  {
    assert DB.ModifierOk(db, m);
    forall n | n in db.modifiers && n != m ensures db.modifiers[n].Idle? {
      assert DB.ModifierOk(db, n);
    }
    if db.modifiers[m].RunsCallback() {
      forall t | t in db.readers && db.readers[t].pc.Holding? ensures db.readers[t].pc.at != db.modifiers[m].bg {
        assert DB.HolderOk(db, t);
      }
    }
  }

  /** The callback runs on the background copy for the first time. */
  lemma EditKeepsPlace(s: State, m: Id)
    requires CanModify(s, m, DB.LeaveEdit)
    requires PlaceOk(s.db, s.phases[m], s.db.modifiers[m])
    requires s.db.Data(s.db.modifiers[m].bg) == s.db.Data(!s.db.modifiers[m].bg)
    ensures var s' := ModifyStep(s, m, DB.LeaveEdit); PlaceOk(s'.db, s'.phases[m], s'.db.modifiers[m])
  {
  }

  /** The callback runs on the other copy: what it displaced is now in neither. */
  lemma SyncKeepsPlace(s: State, m: Id)
    requires CanModify(s, m, DB.LeaveSync)
    requires PlaceOk(s.db, s.phases[m], s.db.modifiers[m])
    requires var pc := s.db.modifiers[m];
             Injective(s.db.Data(pc.bg)) && s.db.Data(!pc.bg) == Apply(pc.fn, s.db.Data(pc.bg))
    ensures var s' := ModifyStep(s, m, DB.LeaveSync); PlaceOk(s'.db, s'.phases[m], s'.db.modifiers[m])
  {
    var s' := ModifyStep(s, m, DB.LeaveSync);
    var ph, before := s.phases[m], s.db.Data(s.db.modifiers[m].bg);
    ApplyFacts(ph.edit, before);
    assert s'.db.data0 == Apply(ph.edit, before) && s'.db.data1 == Apply(ph.edit, before);
  }

  lemma QuietKeepsPlace(s: State, m: Id, op: DB.ModifierOp<Edit>)
    requires CanModify(s, m, op) && !op.LeaveEdit? && !op.LeaveSync? && !op.GiveUp? && !op.UnlockModify?
    requires PlaceOk(s.db, s.phases[m], s.db.modifiers[m])
    ensures var s' := ModifyStep(s, m, op); PlaceOk(s'.db, s'.phases[m], s'.db.modifiers[m])
  {
    hide PlaceOk, DB.ModifierStep, AfterModifyStep;
    if op.LockModify? || op.LoadIndex? || op.EnterEdit? {
      BeforeEditKeepsPlace(s, m, op);
    } else if op.Flip? {
      FlipKeepsPlace(s, m);
    } else {
      AfterFlipKeepsPlace(s, m, op);
    }
  }

  lemma BeforeEditKeepsPlace(s: State, m: Id, op: DB.ModifierOp<Edit>)
    requires CanModify(s, m, op) && (op.LockModify? || op.LoadIndex? || op.EnterEdit?)
    requires PlaceOk(s.db, s.phases[m], s.db.modifiers[m])
    ensures var s' := ModifyStep(s, m, op); PlaceOk(s'.db, s'.phases[m], s'.db.modifiers[m])
  {
    hide Captured;
  }

  lemma FlipKeepsPlace(s: State, m: Id)
    requires CanModify(s, m, DB.Flip) && PlaceOk(s.db, s.phases[m], s.db.modifiers[m])
    ensures var s' := ModifyStep(s, m, DB.Flip); PlaceOk(s'.db, s'.phases[m], s'.db.modifiers[m])
  {
    hide Captured;
  }

  lemma AfterFlipKeepsPlace(s: State, m: Id, op: DB.ModifierOp<Edit>)
    requires CanModify(s, m, op)
    requires op.LockWrappers? || op.WaitLock? || op.WaitUnlock? || op.UnlockWrappers? || op.EnterSync?
    requires PlaceOk(s.db, s.phases[m], s.db.modifiers[m])
    ensures var s' := ModifyStep(s, m, op); PlaceOk(s'.db, s'.phases[m], s'.db.modifiers[m])
  {
    hide Captured;
  }

  lemma ReturnKeepsPlace(s: State, m: Id, op: DB.ModifierOp<Edit>)
    requires CanModify(s, m, op) && (op.GiveUp? || op.UnlockModify?)
    requires PlaceOk(s.db, s.phases[m], s.db.modifiers[m])
    ensures var s' := ModifyStep(s, m, op); PlaceOk(s'.db, s'.phases[m], s'.db.modifiers[m])
  {
    var s', ph := ModifyStep(s, m, op), s.phases[m];
    assert s'.phases[m] == Returned(ph) && Returned(ph).Retired() == ph.Retired() == ph.replaced;
    assert s'.db.data0 == s.db.data0 && s'.db.data1 == s.db.data1;
    assert forall x :: x in ph.replaced ==> Unlisted(s.db, x);
  }

  predicate RunsCallback(op: DB.ModifierOp<Edit>) { op.LeaveEdit? || op.LeaveSync? }

  /** The copy that a callback edits changes by exactly that edit, and did not list the new topology. */
  lemma CallbackData(s: State, m: Id, op: DB.ModifierOp<Edit>)
    requires CanModify(s, m, op) && RunsCallback(op) && PlaceOk(s.db, s.phases[m], s.db.modifiers[m])
    ensures var s', pc, e := ModifyStep(s, m, op), s.db.modifiers[m], s.phases[m].edit;
            && s'.db.Data(pc.bg) == Apply(e, s.db.Data(pc.bg)) && s'.db.Data(!pc.bg) == s.db.Data(!pc.bg)
            && (e.Replace? ==> !Lists(s.db.Data(pc.bg), e.topo))
  {
    hide Lists, Captured;
    CallbackEdits(s, m, op);
    CallbackSeesNew(s, m, op);
  }

  lemma CallbackEdits(s: State, m: Id, op: DB.ModifierOp<Edit>)
    requires CanModify(s, m, op) && RunsCallback(op) && s.db.modifiers[m].fn == s.phases[m].edit
    ensures var s', pc, e := ModifyStep(s, m, op), s.db.modifiers[m], s.phases[m].edit;
            s'.db.Data(pc.bg) == Apply(e, s.db.Data(pc.bg)) && s'.db.Data(!pc.bg) == s.db.Data(!pc.bg)
  {
    hide Captured, AfterModifyStep;
  }

  lemma CallbackSeesNew(s: State, m: Id, op: DB.ModifierOp<Edit>)
    requires CanModify(s, m, op) && RunsCallback(op) && PlaceOk(s.db, s.phases[m], s.db.modifiers[m])
    ensures var pc, e := s.db.modifiers[m], s.phases[m].edit;
            pc.fn == e && (e.Replace? ==> !Lists(s.db.Data(pc.bg), e.topo))
  {
    hide Lists, Captured;
    var ph := s.phases[m];
    assert ph.edit.Replace? ==> ph.edit.topo in ph.Publishing();
  }

  lemma QuietData(s: State, m: Id, op: DB.ModifierOp<Edit>)
    requires CanModify(s, m, op) && !RunsCallback(op)
    ensures var s' := ModifyStep(s, m, op); s'.db.data0 == s.db.data0 && s'.db.data1 == s.db.data1
  {
  }

  ghost predicate NewlyListed(s: State, s': State, added: set<Topo>) {
    forall x :: Unlisted(s.db, x) && x !in added ==> Unlisted(s'.db, x)
  }

  lemma ModifyCopies(s: State, m: Id, op: DB.ModifierOp<Edit>)
    requires CanModify(s, m, op) && PlaceOk(s.db, s.phases[m], s.db.modifiers[m]) && LiveOk(s, s.phases[m])
    requires CopyOk(s, s.db.data0) && CopyOk(s, s.db.data1)
    ensures var s' := ModifyStep(s, m, op);
            && CopyOk(s', s'.db.data0) && CopyOk(s', s'.db.data1)
            && NewlyListed(s, s', s.phases[m].Publishing())
  {
    hide PlaceOk, DB.ModifierStep, AfterModifyStep;
    var s', ph, pc := ModifyStep(s, m, op), s.phases[m], s.db.modifiers[m];
    if !RunsCallback(op) {
      QuietData(s, m, op);
    } else {
      CallbackData(s, m, op);
      var before := s.db.Data(pc.bg);
      ApplyFacts(ph.edit, before);
      assert ph.edit.Replace? ==> ph.edit.topo in ph.Publishing() && ph.edit.topo in ph.Unstored();
      assert CopyOk(s', Apply(ph.edit, before));
      assert CopyOk(s', s.db.Data(!pc.bg));
    }
  }

  /** What the callback captures was listed, so it is alive and nobody else deals with it. */
  lemma ModifyRetired(s: State, m: Id, op: DB.ModifierOp<Edit>)
    requires CanModify(s, m, op)
    ensures var ph, ph' := s.phases[m], AfterModifyStep(s, m, op);
            && (forall x :: x in ph'.Retired() ==> x in ph.Retired() || !Unlisted(s.db, x))
            && ph'.Unstored() == ph.Unstored() && ph'.Publishing() <= ph.Publishing() && !ph'.Deleting?
  {
  }

  lemma ModifyKeepsOther(s: State, s': State, ph: Phase, ph': Phase, p: Phase)
    requires NewlyListed(s, s', ph.Publishing())
    requires forall x :: x in ph'.Retired() ==> x in ph.Retired() || !Unlisted(s.db, x)
    requires ph'.Unstored() == ph.Unstored() && ph'.Publishing() <= ph.Publishing()
    requires Disjoint(ph, p) && PlaceOk(s.db, p, DB.Idle)
    ensures Disjoint(ph', p) && Disjoint(p, ph') && PlaceOk(s'.db, p, DB.Idle)
  {
    hide Unlisted;
    assert forall x :: x in p.Retired() || x in p.Publishing() ==> Unlisted(s.db, x);
    assert forall x :: x in p.Publishing() && x in ph.Publishing() ==> x in p.Unstored() && x in ph.Unstored();
  }

  lemma ModifyKeepsManagers(s: State, m: Id, op: DB.ModifierOp<Edit>)
    requires DB.Inv(s.db) && DB.DataInv(IndexApi(), s.db) && LifeInv(s) && CanModify(s, m, op)
    ensures var s' := ModifyStep(s, m, op); KeysOk(s') && ManagersOk(s')
  {
    hide PlaceOk, LiveOk, Disjoint, CopyOk, CountsOk, PickOk, DB.Inv, DB.DataInv, DB.ModifierStep, AfterModifyStep;
    var s', ph, ph' := ModifyStep(s, m, op), s.phases[m], AfterModifyStep(s, m, op);
    BufferFacts(s.db, m, op);
    ModifyCopies(s, m, op);
    ModifyRetired(s, m, op);
    ModifyKeepsOwn(s, m, op);
    OthersStayIdle(s, m, op);
    forall n | n in s.phases && n != m
      ensures LiveOk(s', s'.phases[n]) && PlaceOk(s'.db, s'.phases[n], s'.db.modifiers[n])
      ensures Disjoint(s'.phases[m], s'.phases[n]) && Disjoint(s'.phases[n], s'.phases[m])
    {
      ModifyKeepsOther(s, s', ph, ph', s.phases[n]);
      ModifyKeepsLive(s, s', s.phases[n]);
    }
  }

  lemma OthersStayIdle(s: State, m: Id, op: DB.ModifierOp<Edit>)
    requires KeysOk(s) && CanModify(s, m, op)
    requires forall n :: n in s.db.modifiers && n != m ==> s.db.modifiers[n].Idle?
    ensures var s' := ModifyStep(s, m, op);
            && KeysOk(s') && s'.phases == s.phases[m := AfterModifyStep(s, m, op)]
            && forall n :: n in s.db.modifiers && n != m ==> n in s'.db.modifiers && s'.db.modifiers[n] == DB.Idle
    ensures var s' := ModifyStep(s, m, op);
            s'.next == s.next && s'.freed == s.freed && s'.storage == s.storage && s'.held == s.held
            && s'.refs == s.refs && s'.picks == s.picks && s'.db.readers == s.db.readers
  {
  }

  lemma ModifyKeepsLive(s: State, s': State, p: Phase)
    requires LiveOk(s, p) && s'.next == s.next && s'.freed == s.freed && s'.storage == s.storage && s'.held == s.held
    ensures LiveOk(s', p)
  {
    assert forall x :: Alive(s, x) ==> Alive(s', x);
  }

  lemma ModifyKeepsOwn(s: State, m: Id, op: DB.ModifierOp<Edit>)
    requires LifeInv(s) && CanModify(s, m, op)
    requires var pc := s.db.modifiers[m];
             && (pc.Editing? ==> s.db.Data(pc.bg) == s.db.Data(!pc.bg))
             && (pc.Syncing? ==> s.db.Data(!pc.bg) == Apply(pc.fn, s.db.Data(pc.bg)))
    ensures var s' := ModifyStep(s, m, op);
            LiveOk(s', s'.phases[m]) && m in s'.db.modifiers && PlaceOk(s'.db, s'.phases[m], s'.db.modifiers[m])
  {
    hide PlaceOk, Disjoint, CountsOk, PickOk, AfterModifyStep;
    var s', ph' := ModifyStep(s, m, op), AfterModifyStep(s, m, op);
    ModifyRetired(s, m, op);
    assert LiveOk(s', ph') by { RetiredAreAlive(s, s', s.phases[m], ph'); }
    match op
    case LeaveEdit => EditKeepsPlace(s, m);
    case LeaveSync => SyncKeepsPlace(s, m);
    case GiveUp => ReturnKeepsPlace(s, m, op);
    case UnlockModify => ReturnKeepsPlace(s, m, op);
    case _ => QuietKeepsPlace(s, m, op);
  }

  lemma RetiredAreAlive(s: State, s': State, ph: Phase, ph': Phase)
    requires CopyOk(s, s.db.data0) && CopyOk(s, s.db.data1) && LiveOk(s, ph)
    requires forall x :: x in ph'.Retired() ==> x in ph.Retired() || !Unlisted(s.db, x)
    requires ph'.Unstored() == ph.Unstored() && !ph'.Deleting?
    requires s'.next == s.next && s'.freed == s.freed && s'.storage == s.storage
    ensures LiveOk(s', ph')
  {
    assert forall x :: Alive(s, x) ==> Alive(s', x);
  }

  lemma ModifyKeepsInv(s: State, m: Id, op: DB.ModifierOp<Edit>)
    requires Inv(s) && CanModify(s, m, op)
    ensures LifeInv(ModifyStep(s, m, op))
  {
    hide ManagersOk, CopyOk, CountsOk, PickOk, DB.Inv, DB.DataInv, CanModify, ModifyStep;
    var s' := ModifyStep(s, m, op);
    assert m in s.phases && DB.ModifierEnabled(s.db, m, op) by { CanModifyMeans(s, m, op); }
    BufferFacts(s.db, m, op);
    ManagerOk(s, m);
    ModifyKeepsManagers(s, m, op);
    ModifyCopies(s, m, op);
    OthersStayIdle(s, m, op);
    CountsFrame(s, s');
    forall t | t in s'.picks ensures PickOk(s', t) {
      ModifyKeepsPick(s, m, op, t);
    }
  }

  lemma CanModifyMeans(s: State, m: Id, op: DB.ModifierOp<Edit>)
    requires CanModify(s, m, op)
    ensures DB.ModifierEnabled(s.db, m, op) && m in s.phases && s.phases[m].InModify?
  {
  }

  lemma CountsFrame(s: State, s': State)
    requires CountsOk(s) && s'.next == s.next && s'.refs == s.refs && s'.held == s.held
    requires s'.storage == s.storage && s'.freed == s.freed
    ensures CountsOk(s')
  {
    assert forall x :: Alive(s', x) <==> Alive(s, x);
  }

  /** A callback leaves alone the copy in which a reader has made its choice. */
  lemma ModifyKeepsPick(s: State, m: Id, op: DB.ModifierOp<Edit>, t: Id)
    requires Inv(s) && CanModify(s, m, op) && t in s.picks && KeysOk(ModifyStep(s, m, op))
    ensures var s' := ModifyStep(s, m, op); t in s'.picks && t in s'.db.readers && PickOk(s', t)
  {
    hide ManagersOk, CopyOk, CountsOk, DB.Inv, DB.DataInv, DB.ModifierStep, AfterModifyStep, PlaceOk, LiveOk, Lists;
    assert PickOk(s, t);
    ManagerOk(s, m);
    BufferFacts(s.db, m, op);
    if RunsCallback(op) { CallbackData(s, m, op); } else { QuietData(s, m, op); }
  }

  lemma StepKeepsInv(s: State, a: Action)
    requires Inv(s) && Enabled(s, a)
    ensures Inv(Step(s, a))
  {
    hide ManagersOk, CopyOk, CountsOk, PickOk, DB.Inv, DB.DataInv, CanModify;
    match a
    case Read(t, op) => ReadKeepsInv(s, t, op); DB.InvStep(IndexApi(), s.db, DB.Reads(t, op));
    case Choose(t, answer, fallback) => ChooseKeepsInv(s, t, answer, fallback);
    case Count(t) => CountKeepsInv(s, t);
    case Release(x) => ReleaseKeepsInv(s, x);
    case StartAdd(m, name) => StartAddKeepsInv(s, m, name);
    case StartRemove(m, name) => PhaseKeepsInv(s, m, InModify(Remove(name), {}));
    case Modify(m, op) => ModifyKeepsInv(s, m, op); ModifyKeepsBuffer(s, m, op);
    case Store(m) => StoreKeepsInv(s, m);
    case TakeNext(m, x) => PhaseKeepsInv(s, m, Spinning(x, s.phases[m].todo - {x}));
    case SeeZero(m) => ZeroMeansUnheld(s, m); PhaseKeepsInv(s, m, Deleting(s.phases[m].topo, s.phases[m].todo));
    case Delete(m) => DeleteKeepsInv(s, m);
    case Finish(m) => PhaseKeepsInv(s, m, Resting);
  }

  lemma ModifyKeepsBuffer(s: State, m: Id, op: DB.ModifierOp<Edit>)
    requires DB.Inv(s.db) && DB.DataInv(IndexApi(), s.db) && CanModify(s, m, op)
    ensures DB.Inv(ModifyStep(s, m, op).db) && DB.DataInv(IndexApi(), ModifyStep(s, m, op).db)
  {
    hide DB.Inv, DB.DataInv;
    DB.InvStep(IndexApi(), s.db, DB.Modifies(m, op));
  }

  lemma ZeroMeansUnheld(s: State, m: Id)
    requires LifeInv(s) && SeesZero(s, m)
    ensures s.held[s.phases[m].topo] == 0 && s.phases[m].topo !in s.phases[m].todo
  {
    hide ManagersOk;
    TakenOutOfTodo(s, m);
  }

  // ---------------------------------------------------------------------------------------------
  // What holds over every run
  // ---------------------------------------------------------------------------------------------

  lemma {:induction false} RunInv(states: seq<State>, actions: seq<Action>, i: nat)
    requires IsRun(states, actions) && i < |states|
    ensures Inv(states[i])
  {
    hide Inv, Step, Enabled;
    if i == 0 {
      InitInv(states[0]);
    } else {
      RunInv(states, actions, i - 1);
      StepKeepsInv(states[i - 1], actions[i - 1]);
    }
  }

  /** No run frees a topology that a request holds, or that anybody can still reach: through a copy of the
      index held in a read section, through a choice not counted yet, or from a manager's own sets.  No
      topology is freed twice, and the counter is exact. */
  lemma NothingInUseIsFreed(states: seq<State>, actions: seq<Action>, i: nat)
    requires IsRun(states, actions) && i < |states|
    ensures var s := states[i];
            && (forall x :: x in s.held ==> x !in s.freed)
            && (forall x :: s.freed[x] <= 1)
            && (forall x :: x in s.refs ==> s.refs[x] == s.held[x])
    ensures var s := states[i];
            && (forall name :: name in s.db.data0 ==> s.db.data0[name] !in s.freed)
            && (forall name :: name in s.db.data1 ==> s.db.data1[name] !in s.freed)
            && (forall t :: t in s.picks && s.picks[t].Chosen? ==> s.picks[t].topo !in s.freed)
            && (forall m, x :: m in s.phases && x in s.phases[m].Retired() ==> x !in s.freed)
  {
    hide DB.Inv, DB.DataInv, PlaceOk, Disjoint;
    RunInv(states, actions, i);
    var s := states[i];
    forall t | t in s.picks && s.picks[t].Chosen? ensures s.picks[t].topo !in s.freed {
      ChosenIsListed(s, t);
    }
    forall m, x | m in s.phases && x in s.phases[m].Retired() ensures x !in s.freed {
      assert LiveOk(s, s.phases[m]);
      assert Alive(s, x);
    }
    forall x | x in s.held ensures x !in s.freed { assert Alive(s, x); }
    forall name | name in s.db.data0 ensures s.db.data0[name] !in s.freed { assert Alive(s, s.db.data0[name]); }
    forall name | name in s.db.data1 ensures s.db.data1[name] !in s.freed { assert Alive(s, s.db.data1[name]); }
  }

  /** `x` exists, no copy lists it and nobody is about to publish it. */
  ghost predicate Gone(s: State, x: Topo) {
    && x < s.next && Unlisted(s.db, x)
    && forall m :: m in s.phases ==> x !in s.phases[m].Publishing()
  }

  /** What a manager has taken out of both copies is gone. */
  lemma RetiredIsGone(s: State, m: Id, x: Topo)
    requires LifeInv(s) && m in s.phases && !s.phases[m].InModify? && x in s.phases[m].Retired()
    ensures Gone(s, x)
  {
    hide CopyOk, CountsOk, PickOk, Lists;
    assert LiveOk(s, s.phases[m]) && PlaceOk(s.db, s.phases[m], s.db.modifiers[m]);
    assert Alive(s, x);
    assert Unlisted(s.db, x);
    forall n | n in s.phases ensures x !in s.phases[n].Publishing() {
      if n != m { assert Disjoint(s.phases[m], s.phases[n]); }
    }
  }

  lemma GoneStaysGone(s: State, a: Action, x: Topo)
    requires Inv(s) && Enabled(s, a) && Gone(s, x)
    ensures Gone(Step(s, a), x) && x in s.refs && x in Step(s, a).refs && Step(s, a).refs[x] <= s.refs[x]
  {
    hide Gone, ManagersOk, CopyOk, PickOk, DB.Inv, DB.DataInv, CountsOk, CanModify, ModifyStep;
    if a.Modify? {
      ModifyKeepsGone(s, a.m, a.mop, x);
    } else if a.Read? || a.Choose? || a.Count? || a.Release? {
      RequestKeepsGone(s, a, x);
    } else {
      ManagerKeepsGone(s, a, x);
    }
  }

  lemma RequestKeepsGone(s: State, a: Action, x: Topo)
    requires LifeInv(s) && Enabled(s, a) && Gone(s, x) && (a.Read? || a.Choose? || a.Count? || a.Release?)
    ensures Gone(Step(s, a), x) && x in s.refs && x in Step(s, a).refs && Step(s, a).refs[x] <= s.refs[x]
  {
    hide ManagersOk, CopyOk, PickOk, Lists;
    if a.Count? {
      ChosenIsListed(s, a.t);
    }
  }

  lemma ManagerKeepsGone(s: State, a: Action, x: Topo)
    requires LifeInv(s) && Enabled(s, a) && Gone(s, x) && !(a.Read? || a.Choose? || a.Count? || a.Release? || a.Modify?)
    ensures Gone(Step(s, a), x) && x in s.refs && x in Step(s, a).refs && Step(s, a).refs[x] <= s.refs[x]
  {
    hide ManagersOk, CopyOk, PickOk, Lists;
  }

  lemma ModifyKeepsGone(s: State, m: Id, op: DB.ModifierOp<Edit>, x: Topo)
    requires Inv(s) && CanModify(s, m, op) && Gone(s, x)
    ensures Gone(ModifyStep(s, m, op), x) && x in s.refs && ModifyStep(s, m, op).refs == s.refs
  {
    hide ManagersOk, CopyOk, PickOk, DB.Inv, DB.DataInv, Lists, DB.ModifierStep, PlaceOk, LiveOk, AfterModifyStep;
    ManagerOk(s, m);
    ModifyCopies(s, m, op);
    ModifyRetired(s, m, op);
  }

  lemma ManagerOk(s: State, m: Id)
    requires KeysOk(s) && ManagersOk(s) && m in s.phases
    ensures LiveOk(s, s.phases[m]) && PlaceOk(s.db, s.phases[m], s.db.modifiers[m])
  {
  }

  /** Once the two-copy edit has returned, the count of a retired topology can only fall, in every later state. */
  lemma {:induction false} RetiredCountsOnlyFall(
      states: seq<State>, actions: seq<Action>, i: nat, j: nat, m: Id, x: Topo)
    requires IsRun(states, actions) && i <= j < |states|
    requires m in states[i].phases && !states[i].phases[m].InModify? && x in states[i].phases[m].Retired()
    ensures x in states[i].refs && x in states[j].refs && states[j].refs[x] <= states[i].refs[x]
    ensures Gone(states[j], x)
  {
    hide ManagersOk, CopyOk, PickOk, DB.Inv, DB.DataInv, Unlisted, Step, Enabled;
    RunInv(states, actions, j);
    if i == j {
      RetiredIsGone(states[i], m, x);
    } else {
      RetiredCountsOnlyFall(states, actions, i, j - 1, m, x);
      RunInv(states, actions, j - 1);
      GoneStaysGone(states[j - 1], actions[j - 1], x);
    }
  }

  /** `wait_and_delete` reclaims a topology exactly when its `Add` has come first: the edit that publishes a
      topology precedes its storage, so a quick replacement leaves it unreclaimed. */
  lemma DeleteReclaimsExactlyTheStored(states: seq<State>, actions: seq<Action>, i: nat, m: Id)
    requires IsRun(states, actions) && i < |actions| && actions[i] == Delete(m)
    ensures m in states[i].phases && states[i].phases[m].Deleting?
    ensures var x := states[i].phases[m].topo;
            x !in states[i].freed && (x in states[i + 1].freed <==> x in states[i].storage)
  {
    hide DB.Inv, DB.DataInv, CopyOk, PickOk, PlaceOk, Disjoint, CanModify, DB.ReaderEnabled;
    RunInv(states, actions, i);
    DeleteFrees(states[i], m);
    assert Enabled(states[i], actions[i]) && states[i + 1] == Step(states[i], actions[i]);
  }

  lemma DeleteFrees(s: State, m: Id)
    requires LifeInv(s) && m in s.phases && s.phases[m].Deleting?
    ensures var x := s.phases[m].topo; x !in s.freed && (x in DeleteStep(s, m).freed <==> x in s.storage)
  {
    hide CopyOk, PickOk, PlaceOk, Disjoint;
    assert s.phases[m].topo in s.phases[m].Retired();
    assert LiveOk(s, s.phases[m]);
    CountOnce(s.storage, s.phases[m].topo);
  }
}
