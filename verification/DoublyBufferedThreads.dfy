/**
 * Threads that both read and modify.  A thread inside `Modify` does nothing else, so one that enters `Modify` while it
 * holds a pointer cannot give it back: that, and nothing else, can deadlock the protocol.
 */
module DoublyBufferedThreads {
  import opened Sequences
  import opened Wrappers
  import opened DoublyBuffered

  /** `calls` are the threads inside `Modify`, from its call to its return, with their callbacks. */
  datatype Threads<T, F> = Threads(db: State<T, F>, calls: map<Id, F>)

  datatype Act<F> = Enter(t: Id, fn: F) | Does(a: Action<F>)

  /** A thread calls `Modify` between its other calls; inside it, it takes the steps of `Modify` only. */
  predicate CanAct<T, F(==)>(ts: Threads<T, F>, act: Act<F>) {
    match act
    case Enter(t, _) =>
      && t in ts.db.readers && t in ts.db.modifiers && t !in ts.calls
      && (ts.db.readers[t].pc.Outside? || ts.db.readers[t].pc.Holding?)
    case Does(Reads(t, op)) => ReaderEnabled(ts.db, t, op) && t !in ts.calls
    case Does(Modifies(m, op)) =>
      ModifierEnabled(ts.db, m, op) && m in ts.calls && (op.LockModify? ==> op.fn == ts.calls[m])
  }

  function After<T(!new), F(!new, ==)>(api: Api<T, F>, ts: Threads<T, F>, act: Act<F>): Threads<T, F>
    requires CanAct(ts, act)
  {
    match act
    case Enter(t, fn) => ts.(calls := ts.calls[t := fn])
    case Does(Reads(t, op)) => ts.(db := ReaderStep(ts.db, t, op))
    case Does(Modifies(m, op)) =>
      Threads(ModifierStep(api, ts.db, m, op), if op.GiveUp? || op.UnlockModify? then ts.calls - {m} else ts.calls)
  }

  ghost predicate Begins<T, F>(ts: Threads<T, F>) {
    Init(ts.db) && ts.db.readers.Keys == ts.db.modifiers.Keys && ts.calls == map[]
  }

  ghost predicate IsThreadRun<T(!new), F(!new)>(api: Api<T, F>, run: seq<Threads<T, F>>, acts: seq<Act<F>>) {
    && |run| == |acts| + 1 && Begins(run[0])
    && forall i :: 0 <= i < |acts| ==> CanAct(run[i], acts[i]) && run[i + 1] == After(api, run[i], acts[i])
  }

  // ---------------------------------------------------------------------------------------------
  // The invariant
  // ---------------------------------------------------------------------------------------------

  ghost predicate ThreadOk<T, F>(ts: Threads<T, F>, t: Id)
    requires t in ts.db.readers && t in ts.db.modifiers
  {
    && (!ts.db.modifiers[t].Idle? ==> t in ts.calls)
    && (t in ts.calls ==> ts.db.readers[t].pc.Outside? || ts.db.readers[t].pc.Holding?)
  }

  ghost predicate ThreadsInv<T, F>(ts: Threads<T, F>) {
    && Inv(ts.db) && ts.db.readers.Keys == ts.db.modifiers.Keys && ts.calls.Keys <= ts.db.readers.Keys
    && forall t :: t in ts.db.readers ==> ThreadOk(ts, t)
  }

  lemma ActKeepsInv<T(!new), F(!new)>(api: Api<T, F>, ts: Threads<T, F>, act: Act<F>)
    requires ThreadsInv(ts) && CanAct(ts, act)
    ensures ThreadsInv(After(api, ts, act))
  {
    hide GlobalOk, ReaderOk, ModifierOk, HolderOk, LockOk;
    match act
    case Enter(t, fn) =>
    case Does(Reads(t, op)) => ReaderKeepsInv(ts.db, t, op);
    case Does(Modifies(m, op)) => ModifierKeepsInv(api, ts.db, m, op);
  }

  lemma {:induction false} ThreadRunInv<T(!new), F(!new)>(
      api: Api<T, F>, run: seq<Threads<T, F>>, acts: seq<Act<F>>, i: nat)
    requires IsThreadRun(api, run, acts) && i < |run|
    ensures ThreadsInv(run[i])
  {
    hide CanAct, After, Inv;
    if i == 0 {
      BeginsInv(api, run[0]);
    } else {
      ThreadRunInv(api, run, acts, i - 1);
      ActKeepsInv(api, run[i - 1], acts[i - 1]);
    }
  }

  lemma BeginsInv<T(!new), F(!new)>(api: Api<T, F>, ts: Threads<T, F>)
    requires Begins(ts)
    ensures ThreadsInv(ts)
  {
    InitInv(api, ts.db);
  }

  // ---------------------------------------------------------------------------------------------
  // Who is inside `Modify`
  // ---------------------------------------------------------------------------------------------

  /** The `Modify` of thread `t` returns. */
  predicate Returns<F>(act: Act<F>, t: Id) {
    act.Does? && act.a.Modifies? && act.a.m == t && (act.a.mop.GiveUp? || act.a.mop.UnlockModify?)
  }

  /** Among the first `i` actions, thread `t` called `Modify` with `fn` and has not returned since. */
  ghost predicate Entered<F>(acts: seq<Act<F>>, i: nat, t: Id, fn: F)
    requires i <= |acts|
  {
    exists j: nat :: j < i && acts[j] == Enter(t, fn) && forall k :: j < k < i ==> !Returns(acts[k], t)
  }

  lemma EnteredOneMore<F>(acts: seq<Act<F>>, i: nat, t: Id, fn: F)
    requires 0 < i <= |acts|
    ensures Entered(acts, i, t, fn) <==>
      acts[i - 1] == Enter(t, fn) || (Entered(acts, i - 1, t, fn) && !Returns(acts[i - 1], t))
  {
    if acts[i - 1] == Enter(t, fn) {
      assert Entered(acts, i, t, fn);
    } else if Entered(acts, i - 1, t, fn) && !Returns(acts[i - 1], t) {
      var j: nat :| j < i - 1 && acts[j] == Enter(t, fn) && forall k :: j < k < i - 1 ==> !Returns(acts[k], t);
      assert Entered(acts, i, t, fn);
    }
  }

  /** A thread is inside `Modify` from its call to its return, so that it reads again afterwards. */
  lemma {:induction false} InsideFromCallToReturn<T(!new), F(!new)>(
      api: Api<T, F>, run: seq<Threads<T, F>>, acts: seq<Act<F>>, i: nat, t: Id, fn: F)
    requires IsThreadRun(api, run, acts) && i < |run|
    ensures t in run[i].calls && run[i].calls[t] == fn <==> Entered(acts, i, t, fn)
  {
    if i > 0 {
      var before, act := run[i - 1], acts[i - 1];
      InsideFromCallToReturn(api, run, acts, i - 1, t, fn);
      assert CanAct(before, act) && run[i] == After(api, before, act);
      hide IsThreadRun, Entered, ReaderStep, ModifierStep, ReaderEnabled, ModifierEnabled;
      EnteredOneMore(acts, i, t, fn);
    }
  }

  // ---------------------------------------------------------------------------------------------
  // Progress
  // ---------------------------------------------------------------------------------------------

  /** Some thread is inside a call, or holds a pointer. */
  ghost predicate Busy<T, F>(ts: Threads<T, F>) {
    (exists t :: t in ts.calls) || exists t :: t in ts.db.readers && !ts.db.readers[t].pc.Outside?
  }

  /** The action goes on with something already begun. */
  predicate Continues<T, F>(ts: Threads<T, F>, act: Act<F>) {
    match act
    case Enter(_, _) => false
    case Does(Reads(t, _)) => t in ts.db.readers && !ts.db.readers[t].pc.Outside?
    case Does(Modifies(m, _)) => m in ts.calls
  }

  ghost predicate CanProgress<T, F(!new)>(ts: Threads<T, F>) {
    exists act: Act<F> :: Continues(ts, act) && CanAct(ts, act)
  }

  /** Thread `m` waits for thread `w`, which holds a pointer and is inside `Modify` itself. */
  ghost predicate Blocked<T, F>(ts: Threads<T, F>, m: Id, w: Id) {
    && m in ts.db.modifiers && ts.db.modifiers[m].Draining?
    && ts.db.modifiers[m].next < |ts.db.wrappers| && ts.db.wrappers[ts.db.modifiers[m].next] == w
    && w in ts.calls && w in ts.db.readers && ts.db.readers[w].pc.Holding?
  }

  lemma ReaderCanProgress<T(!new), F(!new)>(ts: Threads<T, F>, t: Id)
    requires t in ts.db.readers && !ts.db.readers[t].pc.Outside? && t !in ts.calls
    ensures CanProgress(ts)
  {
    var op :=
      match ts.db.readers[t].pc
      case Adding => Push
      case Added => UnlockAdded
      case Removing => SwapPop
      case Removed => UnlockRemoved
      case Begun => LoadForeground
      case _ => EndRead;
    var act: Act<F> := Does(Reads(t, op));
    assert Continues(ts, act) && CanAct(ts, act);
  }

  lemma ModifierCanProgress<T(!new), F(!new)>(ts: Threads<T, F>, m: Id)
    requires ThreadsInv(ts) && m in ts.db.modifiers && !ts.db.modifiers[m].Idle?
    ensures CanProgress(ts) || exists w :: Blocked(ts, m, w)
  {
    var s := ts.db;
    assert ModifierOk(s, m) && ThreadOk(ts, m);
    var pc := s.modifiers[m];
    if pc.Flipped? && s.wrappersMutex.Some? {
      match s.wrappersMutex.value {
        case Reader(t) => assert ReaderOk(s, t) && ThreadOk(ts, t); ReaderCanProgress(ts, t);
        case Modifier(n) =>
      }
    } else if pc.Draining? && pc.next < |s.wrappers| && s.wrappers[pc.next] in s.wrapperMutex {
      var t := s.wrappers[pc.next];
      assert LockOk(s, t) && ReaderOk(s, t) && ThreadOk(ts, t);
      if t in ts.calls {
        assert Blocked(ts, m, t);
      } else {
        ReaderCanProgress(ts, t);
      }
    } else {
      FreeModifierMoves(ts, m);
    }
  }

  lemma FreeModifierMoves<T(!new), F(!new)>(ts: Threads<T, F>, m: Id)
    requires m in ts.db.modifiers && !ts.db.modifiers[m].Idle? && m in ts.calls && ModifierOk(ts.db, m)
    requires ts.db.modifiers[m].Flipped? ==> ts.db.wrappersMutex.None?
    requires var pc, s := ts.db.modifiers[m], ts.db;
             pc.Draining? && pc.next < |s.wrappers| ==> s.wrappers[pc.next] !in s.wrapperMutex
    ensures CanProgress(ts)
  {
    var op: ModifierOp<F> :=
      match ts.db.modifiers[m]
      case Locked(_) => LoadIndex
      case Loaded(_, _) => EnterEdit
      case Editing(_, _) => LeaveEdit
      case Edited(_, _, ok) => if ok then Flip else GiveUp
      case Flipped(_, _) => LockWrappers
      case Draining(_, _, i) => if i < |ts.db.wrappers| then WaitLock else UnlockWrappers
      case Waiting(_, _, _) => WaitUnlock
      case Drained(_, _) => EnterSync
      case Syncing(_, _) => LeaveSync
      case _ => UnlockModify;
    var act: Act<F> := Does(Modifies(m, op));
    assert Continues(ts, act) && CanAct(ts, act);
  }

  /** Whatever the threads do: while anything is in progress, something in progress can move, unless a `Modify` waits
      for a thread that holds a pointer inside `Modify`. */
  lemma StuckMeansBlocked<T(!new), F(!new)>(api: Api<T, F>, run: seq<Threads<T, F>>, acts: seq<Act<F>>, i: nat)
    requires IsThreadRun(api, run, acts) && i < |run| && Busy(run[i])
    ensures CanProgress(run[i]) || exists m, w :: Blocked(run[i], m, w)
  {
    hide IsThreadRun, CanAct, After, Blocked;
    ThreadRunInv(api, run, acts, i);
    var ts := run[i];
    if m :| m in ts.db.modifiers && !ts.db.modifiers[m].Idle? {
      ModifierCanProgress(ts, m);
    } else if t :| t in ts.calls {
      WaitingModifyMoves(ts, t);
    } else {
      var t :| t in ts.db.readers && !ts.db.readers[t].pc.Outside?;
      ReaderCanProgress(ts, t);
    }
  }

  lemma WaitingModifyMoves<T(!new), F(!new)>(ts: Threads<T, F>, t: Id)
    requires ThreadsInv(ts) && t in ts.calls && forall m :: m in ts.db.modifiers ==> ts.db.modifiers[m].Idle?
    ensures CanProgress(ts)
  {
    assert t in ts.db.modifiers.Keys;
    assert ts.db.modifyMutex.Some? ==> ModifierOk(ts.db, ts.db.modifyMutex.value);
    var act := Does(Modifies(t, LockModify(ts.calls[t])));
    assert Continues(ts, act) && CanAct(ts, act);
  }

  /** A blocked `Modify` stays blocked whatever any thread does. */
  lemma BlockedStays<T(!new), F(!new)>(api: Api<T, F>, ts: Threads<T, F>, act: Act<F>, m: Id, w: Id)
    requires ThreadsInv(ts) && Blocked(ts, m, w) && CanAct(ts, act)
    ensures Blocked(After(api, ts, act), m, w)
  {
    hide ReaderStep, ModifierStep, HolderOk, LockOk, ReaderOk, ModifierOk;
    assert ModifierOk(ts.db, m) && ReaderOk(ts.db, w);
    match act
    case Enter(_, _) => EnterKeepsBlocked(api, ts, act, m, w);
    case Does(Reads(t, op)) => ReadKeepsBlocked(api, ts, t, op, m, w);
    case Does(Modifies(n, op)) => NoModifyMoves(ts, m, w, n, op);
  }

  lemma EnterKeepsBlocked<T(!new), F(!new)>(api: Api<T, F>, ts: Threads<T, F>, act: Act<F>, m: Id, w: Id)
    requires Blocked(ts, m, w) && act.Enter? && CanAct(ts, act)
    ensures Blocked(After(api, ts, act), m, w)
  {
  }

  lemma ReadKeepsBlocked<T(!new), F(!new)>(api: Api<T, F>, ts: Threads<T, F>, t: Id, op: ReaderOp, m: Id, w: Id)
    requires Blocked(ts, m, w) && CanAct(ts, Does(Reads(t, op))) && ModifierOk(ts.db, m) && ReaderOk(ts.db, t)
    ensures Blocked(After(api, ts, Does(Reads(t, op))), m, w)
  {
  }

  /** Nobody can take a step of `Modify` while one `Modify` is blocked. */
  lemma NoModifyMoves<T(!new), F(!new)>(ts: Threads<T, F>, m: Id, w: Id, n: Id, op: ModifierOp<F>)
    requires Blocked(ts, m, w) && ModifierOk(ts.db, m) && ReaderOk(ts.db, w)
    requires n in ts.db.modifiers ==> ModifierOk(ts.db, n)
    ensures !ModifierEnabled(ts.db, n, op)
  {
  }

  lemma {:induction false} BlockedForever<T(!new), F(!new)>(
    api: Api<T, F>, run: seq<Threads<T, F>>, acts: seq<Act<F>>, i: nat, j: nat, m: Id, w: Id)
    requires IsThreadRun(api, run, acts) && i <= j < |run| && Blocked(run[i], m, w)
    ensures Blocked(run[j], m, w)
  {
    hide CanAct, After, Blocked, ThreadsInv;
    if i < j {
      BlockedForever(api, run, acts, i, j - 1, m, w);
      ThreadRunInv(api, run, acts, j - 1);
      BlockedStays(api, run[j - 1], acts[j - 1], m, w);
    }
  }

  // ---------------------------------------------------------------------------------------------
  // Threads that give their pointers back first
  // ---------------------------------------------------------------------------------------------

  /** No thread calls `Modify` while it holds a pointer. */
  ghost predicate Disciplined<T, F>(run: seq<Threads<T, F>>, acts: seq<Act<F>>) {
    |run| > |acts| && forall i :: 0 <= i < |acts| && acts[i].Enter? ==>
      acts[i].t in run[i].db.readers && !run[i].db.readers[acts[i].t].pc.Holding?
  }

  ghost predicate NoneHolds<T, F>(ts: Threads<T, F>) {
    forall t :: t in ts.calls && t in ts.db.readers ==> ts.db.readers[t].pc.Outside?
  }

  lemma {:induction false} DisciplinedRun<T(!new), F(!new)>(
      api: Api<T, F>, run: seq<Threads<T, F>>, acts: seq<Act<F>>, i: nat)
    requires IsThreadRun(api, run, acts) && Disciplined(run, acts) && i < |run|
    ensures NoneHolds(run[i])
  {
    if i > 0 {
      DisciplinedRun(api, run, acts, i - 1);
      assert CanAct(run[i - 1], acts[i - 1]) && run[i] == After(api, run[i - 1], acts[i - 1]);
      DisciplinedStep(api, run[i - 1], acts[i - 1]);
    }
  }

  lemma DisciplinedStep<T(!new), F(!new)>(api: Api<T, F>, ts: Threads<T, F>, act: Act<F>)
    requires CanAct(ts, act) && NoneHolds(ts) && (act.Enter? ==> !ts.db.readers[act.t].pc.Holding?)
    ensures NoneHolds(After(api, ts, act))
  {
  }

  /** When no thread calls `Modify` while it holds a pointer, there is no deadlock: while any thread is inside a call
      or holds a pointer, some such thread can take its next step. */
  lemma NeverDeadlocks<T(!new), F(!new)>(api: Api<T, F>, run: seq<Threads<T, F>>, acts: seq<Act<F>>, i: nat)
    requires IsThreadRun(api, run, acts) && Disciplined(run, acts) && i < |run| && Busy(run[i])
    ensures CanProgress(run[i])
  {
    hide IsThreadRun, Disciplined;
    DisciplinedRun(api, run, acts, i);
    StuckMeansBlocked(api, run, acts, i);
  }

  // ---------------------------------------------------------------------------------------------
  // A thread that does not
  // ---------------------------------------------------------------------------------------------

  /** One thread, with a pointer into the foreground, at step `i` of its own `Modify`. */
  function Alone<T, F>(d: T, d': T, f: F, i: nat): Threads<T, F>
    requires i < 8
  {
    var held := ReaderState(Holding(false, 0), true, 0);
    var pc :=
      match i
      case 2 => Locked(f)
      case 3 => Loaded(f, true)
      case 4 => Editing(f, true)
      case 5 => Edited(f, true, true)
      case 6 => Flipped(f, false)
      case 7 => Draining(f, false, 0)
      case _ => Idle;
    Threads(State(d, if i < 5 then d else d', i >= 6, [0], if i == 7 then Some(Modifier(0)) else None,
                  if i < 2 then None else Some(0), map[0 := Reader(0)], map[0 := held], map[0 := pc], d,
                    if i < 6 then [] else [f]),
            if i == 0 then map[] else map[0 := f])
  }

  function AloneAct<F>(f: F, i: nat): Act<F>
    requires i < 7
  {
    match i
    case 0 => Enter(0, f)
    case 1 => Does(Modifies(0, LockModify(f)))
    case 2 => Does(Modifies(0, LoadIndex))
    case 3 => Does(Modifies(0, EnterEdit))
    case 4 => Does(Modifies(0, LeaveEdit))
    case 5 => Does(Modifies(0, Flip))
    case _ => Does(Modifies(0, LockWrappers))
  }

  lemma AloneStep<T(!new), F(!new)>(api: Api<T, F>, d: T, f: F, i: nat)
    requires i < 7 && api.publishes(f, d)
    ensures var ts := Alone(d, api.apply(f, d), f, i);
            CanAct(ts, AloneAct(f, i)) && After(api, ts, AloneAct(f, i)) == Alone(d, api.apply(f, d), f, i + 1)
  {
  }

  /** One thread on its way to its first pointer. */
  function Reading<T, F>(d: T, i: nat): Threads<T, F>
    requires i < 6
  {
    var pc := [Outside, Adding, Added, Outside, Begun, Holding(false, 0)][i];
    Threads(State(d, d, false, if i < 2 then [] else [0], if i == 1 || i == 2 then Some(Reader(0)) else None, None,
                  if i < 4 then map[] else map[0 := Reader(0)], map[0 := ReaderState(pc, i >= 2, 0)], map[0 := Idle],
                    d, []), map[])
  }

  lemma ReadingStep<T(!new), F(!new)>(api: Api<T, F>, d: T, i: nat)
    requires i < 5
    ensures var ts: Threads<T, F>, act := Reading(d, i),
        Does(Reads(0, [LockToAdd, Push, UnlockAdded, BeginRead, LoadForeground][i]));
            CanAct(ts, act) && After(api, ts, act) == Reading(d, i + 1)
  {
  }

  /** A thread that calls `Modify` with a publishing callback while it holds a pointer waits for itself for ever. */
  lemma SelfDeadlock<T(!new), F(!new)>(api: Api<T, F>, d: T, f: F) returns (run: seq<Threads<T, F>>, acts: seq<Act<F>>)
    requires api.publishes(f, d)
    ensures IsThreadRun(api, run, acts) && Blocked(run[|acts|], 0, 0) && Busy(run[|acts|]) && !CanProgress(run[|acts|])
  {
    hide CanAct, After;
    run, acts := [Reading(d, 0)], [];
    for i := 0 to 5
      invariant IsThreadRun(api, run, acts) && run[|acts|] == Reading(d, i)
    {
      var act: Act<F> := Does(Reads(0, [LockToAdd, Push, UnlockAdded, BeginRead, LoadForeground][i]));
      ReadingStep<T, F>(api, d, i);
      ExtendThreadRun(api, run, acts, act);
      run, acts := run + [After(api, run[|acts|], act)], acts + [act];
    }
    assert run[|acts|] == Alone(d, api.apply(f, d), f, 0);
    for i := 0 to 7
      invariant IsThreadRun(api, run, acts) && run[|acts|] == Alone(d, api.apply(f, d), f, i)
    {
      AloneStep(api, d, f, i);
      ExtendThreadRun(api, run, acts, AloneAct(f, i));
      run, acts := run + [After(api, run[|acts|], AloneAct(f, i))], acts + [AloneAct(f, i)];
    }
    assert 0 in run[|acts|].calls;
    NobodyElse(run[|acts|]);
  }

  lemma ExtendThreadRun<T(!new), F(!new)>(api: Api<T, F>, run: seq<Threads<T, F>>, acts: seq<Act<F>>, act: Act<F>)
    requires IsThreadRun(api, run, acts) && CanAct(run[|acts|], act)
    ensures IsThreadRun(api, run + [After(api, run[|acts|], act)], acts + [act])
  {
  }

  lemma NobodyElse<T(!new), F(!new)>(ts: Threads<T, F>)
    requires Blocked(ts, 0, 0) && ts.db.readers.Keys == {0} && ts.db.modifiers.Keys == {0} && 0 in ts.db.wrapperMutex
    ensures !CanProgress(ts)
  {
    forall act: Act<F> | Continues(ts, act) ensures !CanAct(ts, act) {
    }
  }

  ghost predicate AlwaysProgresses<T(!new), F(!new)>(api: Api<T, F>) {
    forall run: seq<Threads<T, F>>, acts: seq<Act<F>>, i: nat ::
      IsThreadRun(api, run, acts) && i < |run| && Busy(run[i]) ==> CanProgress(run[i])
  }

  /** Without the discipline, deadlock is out of the question only if no callback ever publishes anything. */
  lemma DeadlockNeedsPublishing<T(!new), F(!new)>(api: Api<T, F>)
    ensures AlwaysProgresses(api) <==> forall f, d :: !api.publishes(f, d)
  {
    hide IsThreadRun, Busy, CanProgress, Blocked;
    if f, d :| api.publishes(f, d) {
      var run, acts := SelfDeadlock(api, d, f);
      RunLasts(api, run, acts);
    } else {
      forall run: seq<Threads<T, F>>, acts: seq<Act<F>>, i: nat |
        IsThreadRun(api, run, acts) && i < |run| && Busy(run[i])
        ensures CanProgress(run[i])
      {
        StuckMeansBlocked(api, run, acts, i);
        NothingPublished(api, run, acts, i);
      }
    }
  }

  lemma RunLasts<T(!new), F(!new)>(api: Api<T, F>, run: seq<Threads<T, F>>, acts: seq<Act<F>>)
    requires IsThreadRun(api, run, acts)
    ensures |acts| < |run|
  {
  }

  predicate BeforeFlip<F>(pc: ModifierPc<F>) {
    pc.Idle? || pc.Locked? || pc.Loaded? || pc.Editing? || (pc.Edited? && !pc.ok)
  }

  lemma {:induction false} NothingPublished<T(!new), F(!new)>(
      api: Api<T, F>, run: seq<Threads<T, F>>, acts: seq<Act<F>>, i: nat)
    requires IsThreadRun(api, run, acts) && i < |run| && forall f, d :: !api.publishes(f, d)
    ensures forall m :: m in run[i].db.modifiers ==> BeforeFlip(run[i].db.modifiers[m])
    ensures forall m, w :: !Blocked(run[i], m, w)
  {
    if i > 0 {
      NothingPublished(api, run, acts, i - 1);
      assert CanAct(run[i - 1], acts[i - 1]) && run[i] == After(api, run[i - 1], acts[i - 1]);
      NothingFlips(api, run[i - 1], acts[i - 1]);
    }
    forall m, w ensures !Blocked(run[i], m, w) {
      assert m in run[i].db.modifiers ==> BeforeFlip(run[i].db.modifiers[m]);
    }
  }

  lemma NothingFlips<T(!new), F(!new)>(api: Api<T, F>, ts: Threads<T, F>, act: Act<F>)
    requires CanAct(ts, act) && (forall f, d :: !api.publishes(f, d))
    requires forall m :: m in ts.db.modifiers ==> BeforeFlip(ts.db.modifiers[m])
    ensures forall m :: m in After(api, ts, act).db.modifiers ==> BeforeFlip(After(api, ts, act).db.modifiers[m])
  {
  }
}
