/**
 * The doubly buffered data protocol as a transition system: one step per lock, unlock, load, store,
 * and one for each end of a callback.  Any finite number of reader threads and of `Modify` calls
 * interleave freely.  A thread that both reads and modifies is one reader and one modifier here;
 * `DoublyBufferedThreads` puts the two together.
 */
module DoublyBuffered {
  import opened Sequences
  import opened Wrappers

  type Id = nat

  /** What a `Modify` callback does to an instance, and whether it asks for the result to be published. */
  datatype Api<!T(!new), !F(!new)> = Api(apply: (F, T) -> T, publishes: (F, T) -> bool)
  {
    /** The callback contract under which both copies stay equal: a callback that declines to publish
        has not touched the instance. */
    ghost predicate DeclinesCleanly() {
      forall f: F, d: T :: !publishes(f, d) ==> apply(f, d) == d
    }
  }

  datatype Owner = Reader(r: Id) | Modifier(m: Id)

  /** Where a reader thread stands inside `AddWrapper`, `RemoveWrapper` or `Read`. */
  datatype ReaderPc =
    | Outside
    | Adding
    | Added
    | Removing
    | Removed
    | Begun
    | Holding(at: bool, version: nat)

  /** `seen` is the version returned by the thread's latest `Read`. */
  datatype ReaderState = ReaderState(pc: ReaderPc, hasWrapper: bool, seen: nat)

  /** Where a `Modify` call stands.  `bg` is the copy it is about to edit or is editing. */
  datatype ModifierPc<F> =
    | Idle
    | Locked(fn: F)
    | Loaded(fn: F, bg: bool)
    | Editing(fn: F, bg: bool)
    | Edited(fn: F, bg: bool, ok: bool)
    | Flipped(fn: F, bg: bool)
    | Draining(fn: F, bg: bool, next: nat)
    | Waiting(fn: F, bg: bool, next: nat)
    | Drained(fn: F, bg: bool)
    | Syncing(fn: F, bg: bool)
    | Finished
  {
    /** A callback is running on copy `bg`. */
    predicate RunsCallback() { Editing? || Syncing? }

    /** The index has been flipped and the old foreground may still have readers. */
    predicate MayHaveOldReaders() { Flipped? || Draining? || Waiting? }

    predicate HoldsWrappersMutex() { Draining? || Waiting? }

    /** The published callback has reached one copy only. */
    predicate HalfPublished() { MayHaveOldReaders() || Drained? || Syncing? }
  }

  /** `wrapperMutex` maps each locked wrapper to its owner.  `published` is a history variable: the
      callbacks whose flip has happened, in flip order. */
  datatype State<T, F> = State(
    data0: T,
    data1: T,
    index: bool,
    wrappers: seq<Id>,
    wrappersMutex: Option<Owner>,
    modifyMutex: Option<Id>,
    wrapperMutex: map<Id, Owner>,
    readers: map<Id, ReaderState>,
    modifiers: map<Id, ModifierPc<F>>,
    initial: T,
    published: seq<F>)
  {
    function Data(side: bool): T { if side then data1 else data0 }

    function WithData(side: bool, d: T): State<T, F> {
      if side then this.(data1 := d) else this.(data0 := d)
    }
  }

  datatype ReaderOp =
    | LockToAdd | Push | UnlockAdded
    | LockToRemove | SwapPop | UnlockRemoved
    | BeginRead | LoadForeground | EndRead

  datatype ModifierOp<F> =
    | LockModify(fn: F) | LoadIndex | EnterEdit | LeaveEdit | GiveUp
    | Flip | LockWrappers | WaitLock | WaitUnlock | UnlockWrappers
    | EnterSync | LeaveSync | UnlockModify

  datatype Action<F> = Reads(t: Id, rop: ReaderOp) | Modifies(m: Id, mop: ModifierOp<F>)

  /** The position of the first `w`, or the length of `ws`. */
  function FirstIndex(ws: seq<Id>, w: Id): (i: nat)
    ensures i <= |ws| && w !in ws[..i] && (i < |ws| ==> ws[i] == w)
  {
    if ws == [] || ws[0] == w then 0 else 1 + FirstIndex(ws[1..], w)
  }

  /** `RemoveWrapper`'s edit of the vector: the last entry takes the place of the first match. */
  function SwapRemove(ws: seq<Id>, w: Id): seq<Id> {
    var i := FirstIndex(ws, w);
    if i == |ws| then ws else ws[i := ws[|ws| - 1]][..|ws| - 1]
  }

  predicate ReaderEnabled<T, F>(s: State<T, F>, t: Id, op: ReaderOp) {
    t in s.readers &&
    var r := s.readers[t];
    match op
    case LockToAdd => r.pc.Outside? && !r.hasWrapper && s.wrappersMutex.None?
    case Push => r.pc.Adding?
    case UnlockAdded => r.pc.Added?
    case LockToRemove => r.pc.Outside? && r.hasWrapper && s.wrappersMutex.None?
    case SwapPop => r.pc.Removing?
    case UnlockRemoved => r.pc.Removed?
    case BeginRead => r.pc.Outside? && r.hasWrapper && t !in s.wrapperMutex
    case LoadForeground => r.pc.Begun?
    case EndRead => r.pc.Holding?
  }

  predicate ModifierEnabled<T, F>(s: State<T, F>, m: Id, op: ModifierOp<F>) {
    m in s.modifiers &&
    var pc := s.modifiers[m];
    match op
    case LockModify(_) => pc.Idle? && s.modifyMutex.None?
    case LoadIndex => pc.Locked?
    case EnterEdit => pc.Loaded?
    case LeaveEdit => pc.Editing?
    case GiveUp => pc.Edited? && !pc.ok
    case Flip => pc.Edited? && pc.ok
    case LockWrappers => pc.Flipped? && s.wrappersMutex.None?
    case WaitLock => pc.Draining? && pc.next < |s.wrappers| && s.wrappers[pc.next] !in s.wrapperMutex
    case WaitUnlock => pc.Waiting? && pc.next < |s.wrappers|
    case UnlockWrappers => pc.Draining? && pc.next >= |s.wrappers|
    case EnterSync => pc.Drained?
    case LeaveSync => pc.Syncing?
    case UnlockModify => pc.Finished?
  }

  predicate Enabled<T, F>(s: State<T, F>, a: Action<F>) {
    match a
    case Reads(t, op) => ReaderEnabled(s, t, op)
    case Modifies(m, op) => ModifierEnabled(s, m, op)
  }

  function ReaderStep<T, F>(s: State<T, F>, t: Id, op: ReaderOp): (s': State<T, F>)
    requires ReaderEnabled(s, t, op)
    ensures s'.readers.Keys == s.readers.Keys && s'.modifiers == s.modifiers
    ensures s'.initial == s.initial && s'.published == s.published
    ensures !op.SwapPop? ==> s.wrappers <= s'.wrappers
    ensures s'.data0 == s.data0 && s'.data1 == s.data1 && s'.index == s.index && s'.modifyMutex == s.modifyMutex
  {
    var r := s.readers[t];
    match op
    case LockToAdd => s.(wrappersMutex := Some(Reader(t)), readers := s.readers[t := r.(pc := Adding)])
    case Push =>
      s.(wrappers := s.wrappers + [t], readers := s.readers[t := r.(pc := Added, hasWrapper := true)])
    case UnlockAdded => s.(wrappersMutex := None, readers := s.readers[t := r.(pc := Outside)])
    case LockToRemove => s.(wrappersMutex := Some(Reader(t)), readers := s.readers[t := r.(pc := Removing)])
    case SwapPop =>
      s.(wrappers := SwapRemove(s.wrappers, t), readers := s.readers[t := r.(pc := Removed, hasWrapper := false)])
    case UnlockRemoved => s.(wrappersMutex := None, readers := s.readers[t := r.(pc := Outside)])
    case BeginRead =>
      s.(wrapperMutex := s.wrapperMutex[t := Reader(t)], readers := s.readers[t := r.(pc := Begun)])
    case LoadForeground =>
      var version := |s.published|;
      s.(readers := s.readers[t := r.(pc := Holding(s.index, version), seen := version)])
    case EndRead => s.(wrapperMutex := s.wrapperMutex - {t}, readers := s.readers[t := r.(pc := Outside)])
  }

  function ModifierStep<T(!new), F(!new)>(api: Api<T, F>, s: State<T, F>, m: Id, op: ModifierOp<F>): (s': State<T, F>)
    requires ModifierEnabled(s, m, op)
    ensures s'.modifiers.Keys == s.modifiers.Keys && s'.readers == s.readers
    ensures s'.initial == s.initial && s'.wrappers == s.wrappers && s.published <= s'.published
  {
    var pc := s.modifiers[m];
    match op
    case LockModify(fn) => s.(modifyMutex := Some(m), modifiers := s.modifiers[m := Locked(fn)])
    case LoadIndex => s.(modifiers := s.modifiers[m := Loaded(pc.fn, !s.index)])
    case EnterEdit => s.(modifiers := s.modifiers[m := Editing(pc.fn, pc.bg)])
    case LeaveEdit =>
      var d := s.Data(pc.bg);
      s.WithData(pc.bg, api.apply(pc.fn, d))
       .(modifiers := s.modifiers[m := Edited(pc.fn, pc.bg, api.publishes(pc.fn, d))])
    case GiveUp => s.(modifyMutex := None, modifiers := s.modifiers[m := Idle])
    case Flip =>
      s.(index := pc.bg, published := s.published + [pc.fn], modifiers := s.modifiers[m := Flipped(pc.fn, !pc.bg)])
    case LockWrappers =>
      s.(wrappersMutex := Some(Modifier(m)), modifiers := s.modifiers[m := Draining(pc.fn, pc.bg, 0)])
    case WaitLock =>
      s.(wrapperMutex := s.wrapperMutex[s.wrappers[pc.next] := Modifier(m)],
         modifiers := s.modifiers[m := Waiting(pc.fn, pc.bg, pc.next)])
    case WaitUnlock =>
      s.(wrapperMutex := s.wrapperMutex - {s.wrappers[pc.next]},
         modifiers := s.modifiers[m := Draining(pc.fn, pc.bg, pc.next + 1)])
    case UnlockWrappers => s.(wrappersMutex := None, modifiers := s.modifiers[m := Drained(pc.fn, pc.bg)])
    case EnterSync => s.(modifiers := s.modifiers[m := Syncing(pc.fn, pc.bg)])
    case LeaveSync =>
      s.WithData(pc.bg, api.apply(pc.fn, s.Data(pc.bg))).(modifiers := s.modifiers[m := Finished])
    case UnlockModify => s.(modifyMutex := None, modifiers := s.modifiers[m := Idle])
  }

  function Step<T(!new), F(!new)>(api: Api<T, F>, s: State<T, F>, a: Action<F>): State<T, F>
    requires Enabled(s, a)
  {
    match a
    case Reads(t, op) => ReaderStep(s, t, op)
    case Modifies(m, op) => ModifierStep(api, s, m, op)
  }

  predicate Init<T(==), F>(s: State<T, F>) {
    && s.data0 == s.initial && s.data1 == s.initial && s.published == []
    && s.wrappers == [] && s.wrappersMutex.None? && s.modifyMutex.None? && s.wrapperMutex == map[]
    && (forall t :: t in s.readers ==> s.readers[t] == ReaderState(Outside, false, 0))
    && (forall m :: m in s.modifiers ==> s.modifiers[m].Idle?)
  }

  /** `states` is a run of the protocol that performs `actions`. */
  ghost predicate IsRun<T(!new), F(!new)>(api: Api<T, F>, states: seq<State<T, F>>, actions: seq<Action<F>>) {
    && |states| == |actions| + 1
    && Init(states[0])
    && forall i :: 0 <= i < |actions| ==>
        Enabled(states[i], actions[i]) && states[i + 1] == Step(api, states[i], actions[i])
  }

  // ---------------------------------------------------------------------------------------------
  // The inductive invariant
  // ---------------------------------------------------------------------------------------------

  /** What the mutexes and the wrapper list say about reader `t`. */
  ghost predicate ReaderOk<T, F>(s: State<T, F>, t: Id)
    requires t in s.readers
  {
    var r := s.readers[t];
    && (s.wrappersMutex == Some(Reader(t)) <==> r.pc.Adding? || r.pc.Added? || r.pc.Removing? || r.pc.Removed?)
    && (r.hasWrapper <==> t in s.wrappers)
    && (r.pc.Adding? || r.pc.Removed? ==> !r.hasWrapper)
    && (r.pc.Begun? || r.pc.Holding? || r.pc.Added? || r.pc.Removing? ==> r.hasWrapper)
    && (r.pc.Begun? || r.pc.Holding? <==> t in s.wrapperMutex && s.wrapperMutex[t] == Reader(t))
    && r.seen <= |s.published|
  }

  /** What the mutexes and the wrapper list say about modifier `m`. */
  ghost predicate ModifierOk<T, F>(s: State<T, F>, m: Id)
    requires m in s.modifiers
  {
    var pc := s.modifiers[m];
    && (s.modifyMutex == Some(m) <==> !pc.Idle?)
    && (s.wrappersMutex == Some(Modifier(m)) <==> pc.HoldsWrappersMutex())
    && (pc.HoldsWrappersMutex() ==> pc.next <= |s.wrappers|)
    && (pc.Waiting? ==>
          && pc.next < |s.wrappers|
          && s.wrappers[pc.next] in s.wrapperMutex
          && s.wrapperMutex[s.wrappers[pc.next]] == Modifier(m))
    && (pc.Loaded? || pc.Editing? || pc.Edited? || pc.HalfPublished() ==> pc.bg == !s.index)
  }

  /** A locked wrapper is listed, and is locked by its own thread or by the modifier waiting for it. */
  ghost predicate LockOk<T, F>(s: State<T, F>, t: Id)
    requires t in s.wrapperMutex
  {
    && t in s.wrappers
    && match s.wrapperMutex[t]
       case Reader(r) => r == t
       case Modifier(m) =>
         && m in s.modifiers && s.modifiers[m].Waiting? && s.modifiers[m].next < |s.wrappers|
         && s.wrappers[s.modifiers[m].next] == t
  }

  ghost predicate GlobalOk<T, F>(s: State<T, F>) {
    && NoRepeats(s.wrappers)
    && (forall t :: t in s.wrappers ==> t in s.readers)
    && (s.modifyMutex.Some? ==> s.modifyMutex.value in s.modifiers)
    && (s.wrappersMutex.Some? ==>
          match s.wrappersMutex.value case Reader(t) => t in s.readers case Modifier(m) => m in s.modifiers)
  }

  /** A reader of the old foreground entered before the flip and has not been waited for yet. */
  ghost predicate OldReader<T, F>(s: State<T, F>, t: Id) {
    && s.modifyMutex.Some? && s.modifyMutex.value in s.modifiers
    && var pc := s.modifiers[s.modifyMutex.value];
    && pc.MayHaveOldReaders()
    && (pc.HoldsWrappersMutex() ==> pc.next <= |s.wrappers| && t !in s.wrappers[..pc.next])
  }

  /** The version a reader holds is the current one, or the previous one while it is still being drained. */
  ghost predicate HolderOk<T, F>(s: State<T, F>, t: Id)
    requires t in s.readers
  {
    var pc := s.readers[t].pc;
    pc.Holding? ==>
      && s.readers[t].seen == pc.version
      && if pc.at == s.index then pc.version == |s.published|
         else pc.version + 1 == |s.published| && OldReader(s, t)
  }

  ghost predicate Inv<T, F>(s: State<T, F>) {
    && GlobalOk(s)
    && (forall t :: t in s.readers ==> ReaderOk(s, t))
    && (forall m :: m in s.modifiers ==> ModifierOk(s, m))
    && (forall t :: t in s.wrapperMutex ==> LockOk(s, t))
    && (forall t :: t in s.readers ==> HolderOk(s, t))
  }

  /** The value of an instance that has received the callbacks `fns` in order. */
  function Fold<T(!new), F(!new)>(api: Api<T, F>, d: T, fns: seq<F>): T {
    if fns == [] then d else api.apply(fns[|fns| - 1], Fold(api, d, fns[..|fns| - 1]))
  }

  /** What the two copies hold, phase by phase. */
  ghost predicate DataInv<T(!new), F(!new)>(api: Api<T, F>, s: State<T, F>) {
    var now := Fold(api, s.initial, s.published);
    && s.Data(s.index) == now
    && (match s.modifyMutex
        case None => s.Data(!s.index) == now
        case Some(m) =>
          m in s.modifiers &&
          var pc := s.modifiers[m];
          && ((pc.Idle? || pc.Locked? || pc.Loaded? || pc.Editing? || pc.Finished?) ==> s.Data(!s.index) == now)
          && (pc.Edited? ==> s.Data(!s.index) == if pc.ok then api.apply(pc.fn, now) else now)
          && (pc.HalfPublished() ==>
                && s.published != [] && s.published[|s.published| - 1] == pc.fn
                && s.Data(!s.index) == Fold(api, s.initial, s.published[..|s.published| - 1])))
  }

  lemma SwapRemoveContents(ws: seq<Id>, w: Id)
    requires NoRepeats(ws)
    ensures NoRepeats(SwapRemove(ws, w))
    ensures forall x :: x in SwapRemove(ws, w) <==> x in ws && x != w
  {
    var k := FirstIndex(ws, w);
    if k < |ws| {
      var r := SwapRemove(ws, w);
      forall x | x in ws && x != w ensures x in r {
        var i :| 0 <= i < |ws| && ws[i] == x;
        assert r[if i == |ws| - 1 then k else i] == x;
      }
    }
  }

  /** The loop of `RemoveWrapper`, run while the wrappers mutex is held: the last entry takes the place of the first
      `w`, and all others stay where they are. */
  method RemoveWrapper(ws: seq<Id>, w: Id) returns (r: seq<Id>)
    ensures r == SwapRemove(ws, w)
    ensures w !in ws ==> r == ws
    ensures w in ws ==> |r| == |ws| - 1
    ensures forall i :: 0 <= i < |ws| && ws[i] == w && w !in ws[..i] ==>
              forall k :: 0 <= k < |r| ==> r[k] == if k == i then ws[|ws| - 1] else ws[k]
  {
    r := ws;
    var i := 0;
    while i < |r|
      invariant i <= |r| && r == ws && w !in ws[..i]
    {
      if r[i] == w {
        assert FirstIndex(ws, w) == i;
        r := r[i := r[|r| - 1]];
        r := r[..|r| - 1];
        return;
      }
      i := i + 1;
    }
  }

  lemma InitInv<T(!new), F(!new)>(api: Api<T, F>, s: State<T, F>)
    requires Init(s)
    ensures Inv(s) && DataInv(api, s)
  {
  }

  // Steps of a reader.

  lemma ReaderKeepsReader<T(!new), F(!new)>(s: State<T, F>, t: Id, op: ReaderOp, r: Id)
    requires Inv(s) && ReaderEnabled(s, t, op) && r in s.readers
    ensures ReaderOk(ReaderStep(s, t, op), r)
  {
    assert ReaderOk(s, t) && ReaderOk(s, r);
    if t == r {
      OwnStepKeepsReader(s, t, op);
    } else {
      StepKeepsOtherReader(s, t, op, r);
    }
  }

  lemma OwnStepKeepsReader<T(!new), F(!new)>(s: State<T, F>, t: Id, op: ReaderOp)
    requires GlobalOk(s) && ReaderEnabled(s, t, op) && ReaderOk(s, t)
    ensures ReaderOk(ReaderStep(s, t, op), t)
  {
    if op.SwapPop? {
      SwapRemoveContents(s.wrappers, t);
    }
  }

  lemma StepKeepsOtherReader<T(!new), F(!new)>(s: State<T, F>, t: Id, op: ReaderOp, r: Id)
    requires GlobalOk(s) && ReaderEnabled(s, t, op) && ReaderOk(s, t) && r in s.readers && ReaderOk(s, r) && r != t
    ensures ReaderOk(ReaderStep(s, t, op), r)
  {
    if op.SwapPop? {
      SwapRemoveContents(s.wrappers, t);
    }
  }

  lemma ReaderKeepsHolder<T(!new), F(!new)>(s: State<T, F>, t: Id, op: ReaderOp, r: Id)
    requires Inv(s) && ReaderEnabled(s, t, op) && r in s.readers
    ensures HolderOk(ReaderStep(s, t, op), r)
  {
    assert ReaderOk(s, t) && HolderOk(s, r);
  }

  lemma ReaderKeepsModifier<T(!new), F(!new)>(s: State<T, F>, t: Id, op: ReaderOp, m: Id)
    requires Inv(s) && ReaderEnabled(s, t, op) && m in s.modifiers
    ensures ModifierOk(ReaderStep(s, t, op), m)
  {
    assert ReaderOk(s, t) && ModifierOk(s, m);
  }

  /** A modifier that holds a wrapper mutex holds the other two as well. */
  lemma LockedByModifier<T(!new), F(!new)>(s: State<T, F>, t: Id)
    requires Inv(s) && t in s.wrapperMutex && s.wrapperMutex[t].Modifier?
    ensures s.wrappersMutex == Some(s.wrapperMutex[t]) && s.modifyMutex == Some(s.wrapperMutex[t].m)
  {
    assert LockOk(s, t);
    assert ModifierOk(s, s.wrapperMutex[t].m);
  }

  lemma ReaderKeepsLock<T(!new), F(!new)>(s: State<T, F>, t: Id, op: ReaderOp, w: Id)
    requires Inv(s) && ReaderEnabled(s, t, op) && w in ReaderStep(s, t, op).wrapperMutex
    ensures LockOk(ReaderStep(s, t, op), w)
  {
    assert ReaderOk(s, t);
    if w in s.wrapperMutex {
      assert LockOk(s, w);
      if s.wrapperMutex[w].Modifier? {
        LockedByModifier(s, w);
      }
      if op.SwapPop? {
        SwapRemoveContents(s.wrappers, t);
      }
    }
  }

  lemma ReaderKeepsInv<T(!new), F(!new)>(s: State<T, F>, t: Id, op: ReaderOp)
    requires Inv(s) && ReaderEnabled(s, t, op)
    ensures Inv(ReaderStep(s, t, op))
  {
    var s' := ReaderStep(s, t, op);
    assert GlobalOk(s') by {
      assert ReaderOk(s, t);
      if op.SwapPop? {
        SwapRemoveContents(s.wrappers, t);
      }
    }
    forall r | r in s'.readers ensures ReaderOk(s', r) && HolderOk(s', r) {
      ReaderKeepsReader(s, t, op, r);
      ReaderKeepsHolder(s, t, op, r);
    }
    forall m | m in s'.modifiers ensures ModifierOk(s', m) {
      ReaderKeepsModifier(s, t, op, m);
    }
    forall w | w in s'.wrapperMutex ensures LockOk(s', w) {
      ReaderKeepsLock(s, t, op, w);
    }
  }

  // Steps of a modifier.

  lemma ModifierKeepsReader<T(!new), F(!new)>(api: Api<T, F>, s: State<T, F>, m: Id, op: ModifierOp<F>, t: Id)
    requires Inv(s) && ModifierEnabled(s, m, op) && t in s.readers
    ensures ReaderOk(ModifierStep(api, s, m, op), t)
  {
    assert ReaderOk(s, t) && ModifierOk(s, m);
    hide Inv;
  }

  lemma ModifierKeepsHolder<T(!new), F(!new)>(api: Api<T, F>, s: State<T, F>, m: Id, op: ModifierOp<F>, t: Id)
    requires Inv(s) && ModifierEnabled(s, m, op) && t in s.readers
    ensures HolderOk(ModifierStep(api, s, m, op), t)
  {
    assert ReaderOk(s, t) && HolderOk(s, t) && ModifierOk(s, m);
  }

  lemma ModifierKeepsItself<T(!new), F(!new)>(api: Api<T, F>, s: State<T, F>, m: Id, op: ModifierOp<F>)
    requires GlobalOk(s) && ModifierEnabled(s, m, op) && ModifierOk(s, m)
    ensures ModifierOk(ModifierStep(api, s, m, op), m)
  {
  }

  lemma ModifierKeepsModifier<T(!new), F(!new)>(api: Api<T, F>, s: State<T, F>, m: Id, op: ModifierOp<F>, n: Id)
    requires Inv(s) && ModifierEnabled(s, m, op) && n in s.modifiers
    ensures ModifierOk(ModifierStep(api, s, m, op), n)
  {
    assert ModifierOk(s, m) && ModifierOk(s, n);
    if m == n {
      ModifierKeepsItself(api, s, m, op);
    } else {
      assert s.modifiers[n].Idle?;
    }
  }

  lemma ModifierKeepsLock<T(!new), F(!new)>(api: Api<T, F>, s: State<T, F>, m: Id, op: ModifierOp<F>, w: Id)
    requires Inv(s) && ModifierEnabled(s, m, op) && w in ModifierStep(api, s, m, op).wrapperMutex
    ensures LockOk(ModifierStep(api, s, m, op), w)
  {
    assert ModifierOk(s, m);
    if w in s.wrapperMutex {
      assert LockOk(s, w);
      if s.wrapperMutex[w].Modifier? {
        LockedByModifier(s, w);
      }
    }
  }

  lemma ModifierKeepsInv<T(!new), F(!new)>(api: Api<T, F>, s: State<T, F>, m: Id, op: ModifierOp<F>)
    requires Inv(s) && ModifierEnabled(s, m, op)
    ensures Inv(ModifierStep(api, s, m, op))
  {
    var s' := ModifierStep(api, s, m, op);
    forall t | t in s'.readers ensures ReaderOk(s', t) && HolderOk(s', t) {
      ModifierKeepsReader(api, s, m, op, t);
      ModifierKeepsHolder(api, s, m, op, t);
    }
    forall n | n in s'.modifiers ensures ModifierOk(s', n) {
      ModifierKeepsModifier(api, s, m, op, n);
    }
    forall w | w in s'.wrapperMutex ensures LockOk(s', w) {
      ModifierKeepsLock(api, s, m, op, w);
    }
  }

  lemma FlipKeepsData<T(!new), F(!new)>(api: Api<T, F>, s: State<T, F>, m: Id)
    requires Inv(s) && DataInv(api, s) && ModifierEnabled(s, m, Flip)
    ensures DataInv(api, ModifierStep(api, s, m, Flip))
  {
    assert ModifierOk(s, m);
    assert (s.published + [s.modifiers[m].fn])[..|s.published|] == s.published;
  }

  lemma CallbackKeepsData<T(!new), F(!new)>(api: Api<T, F>, s: State<T, F>, m: Id, op: ModifierOp<F>)
    requires api.DeclinesCleanly()
    requires Inv(s) && DataInv(api, s) && (op.LeaveEdit? || op.LeaveSync?) && ModifierEnabled(s, m, op)
    ensures DataInv(api, ModifierStep(api, s, m, op))
  {
    assert ModifierOk(s, m);
  }

  lemma QuietKeepsData<T(!new), F(!new)>(api: Api<T, F>, s: State<T, F>, m: Id, op: ModifierOp<F>)
    requires Inv(s) && DataInv(api, s) && ModifierEnabled(s, m, op) && !op.Flip? && !op.LeaveEdit? && !op.LeaveSync?
    ensures DataInv(api, ModifierStep(api, s, m, op))
  {
    assert ModifierOk(s, m);
    QuietStepKeepsData(api, s, m, op);
  }

  lemma QuietStepKeepsData<T(!new), F(!new)>(api: Api<T, F>, s: State<T, F>, m: Id, op: ModifierOp<F>)
    requires ModifierEnabled(s, m, op) && !op.Flip? && !op.LeaveEdit? && !op.LeaveSync?
    requires DataInv(api, s) && ModifierOk(s, m)
    ensures DataInv(api, ModifierStep(api, s, m, op))
  {
    hide Fold;
  }

  lemma ModifierKeepsData<T(!new), F(!new)>(api: Api<T, F>, s: State<T, F>, m: Id, op: ModifierOp<F>)
    requires api.DeclinesCleanly()
    requires Inv(s) && DataInv(api, s) && ModifierEnabled(s, m, op)
    ensures DataInv(api, ModifierStep(api, s, m, op))
  {
    hide Inv, DataInv, ModifierStep, ModifierEnabled;
    match op
    case Flip => FlipKeepsData(api, s, m);
    case LeaveEdit => CallbackKeepsData(api, s, m, op);
    case LeaveSync => CallbackKeepsData(api, s, m, op);
    case _ => QuietKeepsData(api, s, m, op);
  }

  lemma InvStep<T(!new), F(!new)>(api: Api<T, F>, s: State<T, F>, a: Action<F>)
    requires Inv(s) && Enabled(s, a)
    ensures Inv(Step(api, s, a))
    ensures api.DeclinesCleanly() && DataInv(api, s) ==> DataInv(api, Step(api, s, a))
  {
    match a
    case Reads(t, op) => ReaderKeepsInv(s, t, op);
    case Modifies(m, op) =>
      ModifierKeepsInv(api, s, m, op);
      if api.DeclinesCleanly() && DataInv(api, s) {
        ModifierKeepsData(api, s, m, op);
      }
  }

  // ---------------------------------------------------------------------------------------------
  // What holds over every run
  // ---------------------------------------------------------------------------------------------

  lemma {:induction false} RunInv<T(!new), F(!new)>(
      api: Api<T, F>, states: seq<State<T, F>>, actions: seq<Action<F>>, i: nat)
    requires IsRun(api, states, actions) && i < |states|
    ensures Inv(states[i])
    ensures api.DeclinesCleanly() ==> DataInv(api, states[i])
  {
    if i == 0 {
      InitInv(api, states[0]);
    } else {
      RunInv(api, states, actions, i - 1);
      InvStep(api, states[i - 1], actions[i - 1]);
    }
  }

  /** In every interleaving, no callback runs on an instance that a reader holds, and no two callbacks run at once. */
  lemma CallbacksAreExclusive<T(!new), F(!new)>(
    api: Api<T, F>, states: seq<State<T, F>>, actions: seq<Action<F>>, i: nat, m: Id)
    requires IsRun(api, states, actions) && i < |states|
    requires m in states[i].modifiers && states[i].modifiers[m].RunsCallback()
    ensures forall t :: t in states[i].readers && states[i].readers[t].pc.Holding? ==>
              states[i].readers[t].pc.at != states[i].modifiers[m].bg
    ensures forall n :: n in states[i].modifiers && !states[i].modifiers[n].Idle? ==> n == m
  {
    RunInv(api, states, actions, i);
    var s := states[i];
    assert ModifierOk(s, m);
    forall t | t in s.readers && s.readers[t].pc.Holding? ensures s.readers[t].pc.at != s.modifiers[m].bg {
      assert HolderOk(s, t);
    }
    forall n | n in s.modifiers && !s.modifiers[n].Idle? ensures n == m {
      assert ModifierOk(s, n);
    }
  }

  /** Whenever no `Modify` is in progress both copies are the fold of everything published, in flip order. */
  lemma QuiescentCopiesAgree<T(!new), F(!new)>(
    api: Api<T, F>, states: seq<State<T, F>>, actions: seq<Action<F>>, i: nat)
    requires api.DeclinesCleanly()
    requires IsRun(api, states, actions) && i < |states|
    requires forall m :: m in states[i].modifiers ==> states[i].modifiers[m].Idle?
    ensures states[i].data0 == states[i].data1 == Fold(api, states[i].initial, states[i].published)
  {
    RunInv(api, states, actions, i);
    var s := states[i];
    if s.modifyMutex.Some? {
      assert ModifierOk(s, s.modifyMutex.value);
    }
  }

  /** A reader holds exactly the first `version` published callbacks, in every phase of a concurrent `Modify`. */
  lemma HeldInstanceIsAVersion<T(!new), F(!new)>(
    api: Api<T, F>, states: seq<State<T, F>>, actions: seq<Action<F>>, i: nat, t: Id)
    requires api.DeclinesCleanly()
    requires IsRun(api, states, actions) && i < |states|
    requires t in states[i].readers && states[i].readers[t].pc.Holding?
    ensures var s := states[i]; var pc := s.readers[t].pc;
            && pc.version <= |s.published| <= pc.version + 1
            && s.Data(pc.at) == Fold(api, s.initial, s.published[..pc.version])
  {
    RunInv(api, states, actions, i);
    var s := states[i];
    assert HolderOk(s, t);
    assert s.published[..|s.published|] == s.published;
  }

  /** `s'` has published no less than `s`, and no reader has gone back to an earlier version. */
  ghost predicate Grown<T(!new), F(!new)>(s: State<T, F>, s': State<T, F>) {
    && s.published <= s'.published && s.initial == s'.initial && s.readers.Keys == s'.readers.Keys
    && forall t :: t in s.readers ==> s.readers[t].seen <= s'.readers[t].seen
  }

  lemma GrownTrans<T(!new), F(!new)>(a: State<T, F>, b: State<T, F>, c: State<T, F>)
    requires Grown(a, b) && Grown(b, c)
    ensures Grown(a, c)
  {
    assert forall t :: t in a.readers ==> t in b.readers.Keys && t in c.readers.Keys;
  }

  lemma StepGrows<T(!new), F(!new)>(api: Api<T, F>, s: State<T, F>, a: Action<F>)
    requires Inv(s) && Enabled(s, a)
    ensures Grown(s, Step(api, s, a))
  {
    match a
    case Reads(t, op) =>
      assert ReaderOk(s, t);
      var s' := ReaderStep(s, t, op);
      forall r | r in s.readers ensures s.readers[r].seen <= s'.readers[r].seen {
        assert r != t ==> s'.readers[r] == s.readers[r];
      }
    case Modifies(m, op) =>
  }

  lemma RunLength<T(!new), F(!new)>(api: Api<T, F>, states: seq<State<T, F>>, actions: seq<Action<F>>)
    requires IsRun(api, states, actions)
    ensures |states| == |actions| + 1
  {
  }

  lemma StepStates<T(!new), F(!new)>(api: Api<T, F>, states: seq<State<T, F>>, actions: seq<Action<F>>, i: nat)
    requires IsRun(api, states, actions) && i < |actions|
    ensures Enabled(states[i], actions[i]) && states[i + 1] == Step(api, states[i], actions[i])
  {
  }

  /** The published history only grows, and each reader's last version never falls. */
  lemma {:induction false} HistoryGrows<T(!new), F(!new)>(
    api: Api<T, F>, states: seq<State<T, F>>, actions: seq<Action<F>>, i: nat, j: nat)
    requires IsRun(api, states, actions) && i <= j < |states|
    ensures Grown(states[i], states[j])
  {
    hide IsRun, Inv, DataInv, Enabled, Step;
    RunLength(api, states, actions);
    if i < j {
      hide Grown;
      HistoryGrows(api, states, actions, i, j - 1);
      RunInv(api, states, actions, j - 1);
      StepStates(api, states, actions, j - 1);
      StepGrows(api, states[j - 1], actions[j - 1]);
      GrownTrans(states[i], states[j - 1], states[j]);
    }
  }

  /** Successive reads of one thread return non-decreasing versions, and two reads of the same version
      return the same value, whatever is published in between. */
  lemma ReadsAreMonotone<T(!new), F(!new)>(
    api: Api<T, F>, states: seq<State<T, F>>, actions: seq<Action<F>>, i: nat, j: nat, t: Id)
    requires api.DeclinesCleanly()
    requires IsRun(api, states, actions) && i <= j < |states|
    requires t in states[i].readers && states[i].readers[t].pc.Holding?
    requires t in states[j].readers && states[j].readers[t].pc.Holding?
    ensures states[i].readers[t].pc.version <= states[j].readers[t].pc.version
    ensures states[i].readers[t].pc.version == states[j].readers[t].pc.version ==>
              states[i].Data(states[i].readers[t].pc.at) == states[j].Data(states[j].readers[t].pc.at)
  {
    HistoryGrows(api, states, actions, i, j);
    HeldInstanceIsAVersion(api, states, actions, i, t);
    HeldInstanceIsAVersion(api, states, actions, j, t);
    RunInv(api, states, actions, i);
    RunInv(api, states, actions, j);
    assert HolderOk(states[i], t) && HolderOk(states[j], t);
    var v := states[i].readers[t].pc.version;
    assert states[i].published[..v] == states[j].published[..v];
  }

  /** Both copies agree at the end of every run that leaves no `Modify` in progress. */
  ghost predicate CopiesAlwaysAgree<T(!new), F(!new)>(api: Api<T, F>) {
    forall states: seq<State<T, F>>, actions: seq<Action<F>> ::
      IsRun(api, states, actions) && (forall m :: m in states[|actions|].modifiers ==>
        states[|actions|].modifiers[m].Idle?)
      ==> states[|actions|].data0 == states[|actions|].data1
  }

  lemma ExtendRun<T(!new), F(!new)>(api: Api<T, F>, states: seq<State<T, F>>, actions: seq<Action<F>>, a: Action<F>)
    requires IsRun(api, states, actions) && Enabled(states[|actions|], a)
    ensures IsRun(api, states + [Step(api, states[|actions|], a)], actions + [a])
  {
  }

  /** One `Modify` whose callback declines to publish. */
  lemma DecliningRun<T(!new), F(!new)>(
      api: Api<T, F>, f: F, d: T)
      returns (states: seq<State<T, F>>, actions: seq<Action<F>>)
    requires !api.publishes(f, d)
    ensures IsRun(api, states, actions)
    ensures forall m :: m in states[|actions|].modifiers ==> states[|actions|].modifiers[m].Idle?
    ensures states[|actions|].data0 == d && states[|actions|].data1 == api.apply(f, d)
  {
    var s: State<T, F> := State(d, d, false, [], None, None, map[], map[], map[0 := Idle], d, []);
    states, actions := [s], [];
    var todo := [LockModify(f), LoadIndex, EnterEdit, LeaveEdit, GiveUp];
    var i := 0;
    while i < 5
      invariant 0 <= i <= 5 && |todo| == 5
      invariant IsRun(api, states, actions) && s == states[|actions|]
      invariant s.modifiers == map[0 := [Idle, Locked(f), Loaded(f, true), Editing(f, true), Edited(f, true, false),
          Idle][i]]
      invariant i == 0 ==> s.modifyMutex.None?
      invariant s.data0 == d && s.data1 == (if i < 4 then d else api.apply(f, d)) && !s.index
    {
      ExtendRun(api, states, actions, Modifies(0, todo[i]));
      s := ModifierStep(api, s, 0, todo[i]);
      states, actions, i := states + [s], actions + [Modifies(0, todo[i])], i + 1;
    }
  }

  /** The condition on callbacks is exact. */
  lemma CopiesAgreeExactlyWhenDeclinesAreClean<T(!new), F(!new)>(api: Api<T, F>)
    ensures CopiesAlwaysAgree(api) <==> api.DeclinesCleanly()
  {
    if api.DeclinesCleanly() {
      forall states: seq<State<T, F>>, actions: seq<Action<F>> |
        IsRun(api, states, actions) && (forall m :: m in states[|actions|].modifiers ==>
          states[|actions|].modifiers[m].Idle?)
        ensures states[|actions|].data0 == states[|actions|].data1
      {
        QuiescentCopiesAgree(api, states, actions, |actions|);
      }
    }
    if CopiesAlwaysAgree(api) {
      forall f: F, d: T | !api.publishes(f, d) ensures api.apply(f, d) == d {
        var states, actions := DecliningRun(api, f, d);
        assert states[|actions|].data0 == states[|actions|].data1;
      }
    }
  }
}
