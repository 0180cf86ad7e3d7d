/** Any number of sessions sharing one accounting mutex, making any calls in any order, with any
    failures: who may hold the mutex, and what the flags and graph sets then mean. */
module GraphRuns {
  import opened GraphAccounting

  datatype World = World(sessions: map<nat, Session>, locked: bool)

  datatype Act =
    | Create(id: nat, limit: nat, explicit: nat, contexts: seq<nat>, codecContexts: seq<nat>)
    | Invoke(id: nat, op: Op, env: Env)
    | Destroy(id: nat)

  const IDLE := World(map[], false)

  predicate Callable(w: World, id: nat) {
    id in w.sessions && |w.sessions[id].main| == 2 && |w.sessions[id].codec| == 3
  }

  /** Acts on absent sessions do nothing; destroying a session drops the locks it owns. */
  function Step(w: World, act: Act): (World, Answer) {
    match act
    case Create(id, limit, explicit, contexts, codecContexts) =>
      if id in w.sessions then (w, Refused)
      else
        (w.(sessions := w.sessions[id := NewSession(limit, explicit, contexts, codecContexts)]),
         Done)
    case Invoke(id, op, env) =>
      if !Callable(w, id) then (w, Refused)
      else
        var (y, locked, answer) := Call(w.sessions[id], w.locked, op, env);
        (World(w.sessions[id := y], locked), answer)
    case Destroy(id) =>
      if id !in w.sessions then (w, Refused)
      else (World(w.sessions - {id}, w.locked && !Owns(w.sessions[id])), Done)
  }

  function Run(w: World, acts: seq<Act>): World
    decreases |acts|
  {
    if acts == [] then w else Run(Step(w, acts[0]).0, acts[1..])
  }

  // ---------- what holds of one session ----------

  /** A captured Main Decoder graph has a warmed context, and the two directions never share one. */
  predicate MainOk(main: seq<Slot>) {
    && |main| == 2
    && (forall k :: 0 <= k < 2 ==> (main[k].ready ==> main[k].warmed))
    && (forall k :: 0 <= k < 2 ==> (main[k].warmed <==> main[k].identity != 0))
    && (main[0].identity != 0 ==> main[0].identity != main[1].identity)
  }

  predicate CodecOk(codec: seq<Slot>) {
    && |codec| == 3
    && (forall k :: 0 <= k < 3 ==> (codec[k].ready <==> codec[k].identity != 0))
    && (forall j, k :: 0 <= j < k < 3 && codec[j].ready ==> codec[j].identity != codec[k].identity)
  }

  /** The flags, the locks and the budget. */
  predicate FlagsOk(x: Session) {
    && (x.startupPending ==> x.startupLock && !x.accounted)
    && (x.accounted ==> !x.startupLock && x.explicit + x.graphBytes <= x.limit)
    && (x.mainLock ==> x.mainPending && x.accounted && !x.usesStartup)
    && (x.mainPending && x.usesStartup ==> x.startupPending)
    && (x.mainPending && !x.usesStartup ==> x.accounted)
    && (x.unmeasured ==> x.mainPending || x.startupPending)
  }

  predicate SessionOk(x: Session) {
    MainOk(x.main) && CodecOk(x.codec) && FlagsOk(x)
  }

  /** How a call may change who holds the mutex. */
  predicate LockStep(x: Session, locked: bool, y: Session, after: bool) {
    || (Owns(y) == Owns(x) && after == locked)
    || (!Owns(x) && !locked && Owns(y) && after)
    || (Owns(x) && !Owns(y) && !after)
  }

  lemma MainCallsOk(main: seq<Slot>, k: nat, context: nat, fails: bool, secondFails: bool)
    requires MainOk(main)
    ensures MainOk(RecordWarmup(main, k, context).0)
    ensures MainOk(CaptureSlot(main, k, context, fails).0)
    ensures MainOk(ResetChecked(main, fails, secondFails).0)
  {
  }

  lemma BeginOk(x: Session, locked: bool, env: Env)
    requires SessionOk(x)
    ensures var (y, after, answer) := Begin(x, locked, env);
            SessionOk(y) && LockStep(x, locked, y, after) && answer != SelfDeadlock
  {
  }

  lemma CaptureCodecOk(x: Session, k: nat, env: Env)
    requires SessionOk(x)
    ensures SessionOk(CaptureCodec(x, k, env).0) && Owns(CaptureCodec(x, k, env).0) == Owns(x)
    ensures CaptureCodec(x, k, env).1 != SelfDeadlock
  {
    var context := ContextOf(x.codecContexts, k);
    if k < 3 && !Bound(x.codec, context) {
      assert forall j :: 0 <= j < 3 ==> x.codec[j].identity != context;
    }
  }

  lemma BeginRequestOk(x: Session, env: Env)
    requires SessionOk(x)
    ensures SessionOk(BeginRequest(x, env).0) && Owns(BeginRequest(x, env).0) == Owns(x)
  {
    MainCallsOk(x.main, 0, 0, env.destroyFails, env.secondDestroyFails);
  }

  lemma WarmUpOk(x: Session, k: nat)
    requires SessionOk(x)
    ensures SessionOk(WarmUp(x, k).0) && Owns(WarmUp(x, k).0) == Owns(x)
  {
    MainCallsOk(x.main, k, ContextOf(x.contexts, k), false, false);
  }

  lemma OpenScopeOk(x: Session, locked: bool, env: Env)
    requires FlagsOk(x)
    ensures var (y, after, answer) := OpenScope(x, locked, env);
            && FlagsOk(y) && LockStep(x, locked, y, after) && answer != SelfDeadlock
            && y.main == x.main && y.codec == x.codec && (answer == Done ==> y.mainPending)
  {
  }

  lemma CaptureMainOk(x: Session, locked: bool, k: nat, env: Env)
    requires SessionOk(x)
    ensures var (y, after, answer) := CaptureMain(x, locked, k, env);
            SessionOk(y) && LockStep(x, locked, y, after) && answer != SelfDeadlock
  {
    OpenScopeOk(x, locked, env);
    MainCallsOk(x.main, k, ContextOf(x.contexts, k), env.captureFails, false);
  }

  lemma LaunchMainOk(x: Session, locked: bool, k: nat, env: Env)
    requires SessionOk(x)
    ensures var (y, after, answer) := LaunchMain(x, locked, k, env);
            SessionOk(y) && LockStep(x, locked, y, after) && answer != SelfDeadlock
  {
  }

  lemma AbortOk(x: Session, locked: bool)
    requires SessionOk(x)
    ensures var (y, after) := Abort(x, locked);
            SessionOk(y) && LockStep(x, locked, y, after)
  {
  }

  lemma FinalizeOk(x: Session, locked: bool, env: Env)
    requires SessionOk(x)
    ensures var (y, after, answer) := Finalize(x, locked, env);
            SessionOk(y) && LockStep(x, locked, y, after) && answer != SelfDeadlock
  {
  }

  /** No call breaks a session, and none asks for a mutex its own session holds. */
  lemma CallOk(x: Session, locked: bool, op: Op, env: Env)
    requires SessionOk(x)
    ensures var (y, after, answer) := Call(x, locked, op, env);
            SessionOk(y) && LockStep(x, locked, y, after) && answer != SelfDeadlock
  {
    match op
    case BeginOp => BeginOk(x, locked, env);
    case CaptureLocalOp =>
    case CaptureCodecOp(k) => CaptureCodecOk(x, k, env);
    case BeginRequestOp => BeginRequestOk(x, env);
    case WarmUpOp(k) => WarmUpOk(x, k);
    case CaptureMainOp(k) => CaptureMainOk(x, locked, k, env);
    case LaunchMainOp(k) => LaunchMainOk(x, locked, k, env);
    case AbortOp => AbortOk(x, locked);
    case FinalizeOp => FinalizeOk(x, locked, env);
  }

  // ---------- the shared mutex ----------

  /** The mutex is locked exactly while some session owns it, and only one does. */
  predicate MutexOk(w: World) {
    && (w.locked <==> exists i :: i in w.sessions && Owns(w.sessions[i]))
    && (forall i, j :: i in w.sessions && j in w.sessions ==>
          Owns(w.sessions[i]) && Owns(w.sessions[j]) ==> i == j)
  }

  predicate WorldOk(w: World) {
    MutexOk(w) && forall i :: i in w.sessions ==> SessionOk(w.sessions[i])
  }

  lemma InvokeMutex(w: World, id: nat, y: Session, after: bool)
    requires MutexOk(w) && id in w.sessions && LockStep(w.sessions[id], w.locked, y, after)
    ensures MutexOk(World(w.sessions[id := y], after))
  {
    var v := World(w.sessions[id := y], after);
    assert forall i :: i in w.sessions && i != id ==> v.sessions[i] == w.sessions[i];
    if Owns(y) {
      assert id in v.sessions && Owns(v.sessions[id]);
    } else if after {
      var i :| i in w.sessions && Owns(w.sessions[i]);
      assert i in v.sessions && Owns(v.sessions[i]);
    }
  }

  lemma DestroyMutex(w: World, id: nat)
    requires MutexOk(w) && id in w.sessions
    ensures MutexOk(World(w.sessions - {id}, w.locked && !Owns(w.sessions[id])))
  {
    var v := World(w.sessions - {id}, w.locked && !Owns(w.sessions[id]));
    if v.locked {
      var i :| i in w.sessions && Owns(w.sessions[i]);
      assert i in v.sessions && Owns(v.sessions[i]);
    }
  }

  lemma CreateMutex(w: World, id: nat, x: Session)
    requires MutexOk(w) && id !in w.sessions && !Owns(x)
    ensures MutexOk(w.(sessions := w.sessions[id := x]))
  {
    var v := w.(sessions := w.sessions[id := x]);
    if w.locked {
      var i :| i in w.sessions && Owns(w.sessions[i]);
      assert i in v.sessions && Owns(v.sessions[i]);
    }
  }

  lemma StepOk(w: World, act: Act)
    requires WorldOk(w)
    ensures WorldOk(Step(w, act).0) && Step(w, act).1 != SelfDeadlock
  {
    match act
    case Create(id, limit, explicit, contexts, codecContexts) =>
      if id !in w.sessions {
        CreateMutex(w, id, NewSession(limit, explicit, contexts, codecContexts));
      }
    case Invoke(id, op, env) =>
      if Callable(w, id) {
        var (y, after, answer) := Call(w.sessions[id], w.locked, op, env);
        CallOk(w.sessions[id], w.locked, op, env);
        InvokeMutex(w, id, y, after);
      }
    case Destroy(id) =>
      if id in w.sessions {
        DestroyMutex(w, id);
      }
  }

  lemma {:induction false} RunOk(w: World, acts: seq<Act>)
    requires WorldOk(w)
    ensures WorldOk(Run(w, acts))
    decreases |acts|
  {
    if acts != [] {
      StepOk(w, acts[0]);
      RunOk(Step(w, acts[0]).0, acts[1..]);
    }
  }

  // ---------- the guarantees ----------

  /** Over every call sequence, failures included, no call locks the mutex while its own session
      holds it; and a call that has to wait waits for another session, which exists. */
  lemma NeverSelfLocks(acts: seq<Act>, act: Act)
    ensures
      var w := Run(IDLE, acts);
      && Step(w, act).1 != SelfDeadlock
      && (Step(w, act).1 == Waiting && act.Invoke? ==>
            exists i :: i in w.sessions && i != act.id && Owns(w.sessions[i]))
  {
    var w := Run(IDLE, acts);
    RunOk(IDLE, acts);
    StepOk(w, act);
    if Step(w, act).1 == Waiting && act.Invoke? {
      WaitingMeansHeld(w.sessions[act.id], w.locked, act.op, act.env);
      var i :| i in w.sessions && Owns(w.sessions[i]);
    }
  }

  lemma WaitingMeansHeld(x: Session, locked: bool, op: Op, env: Env)
    requires SessionOk(x) && Call(x, locked, op, env).2 == Waiting
    ensures locked && !Owns(x)
  {
    if op.CaptureMainOp? {
      assert OpenScope(x, locked, env).2 == Waiting;
    }
  }

  /** A Main Decoder graph that is ready was captured in a warmed context that is not the one of
      the reverse direction; NanoCodec graphs never share a context either. */
  lemma ReadyGraphsOwnTheirContexts(acts: seq<Act>, i: nat, k: nat)
    requires i in Run(IDLE, acts).sessions && k < 2
    ensures
      var x := Run(IDLE, acts).sessions[i];
      && |x.main| == 2 && |x.codec| == 3
      && (x.main[k].ready ==>
            && x.main[k].warmed && x.main[k].identity != 0
            && x.main[k].identity != x.main[1 - k].identity)
      && forall p, q :: 0 <= p < q < 3 && x.codec[p].ready && x.codec[q].ready ==>
           x.codec[p].identity != x.codec[q].identity
  {
    RunOk(IDLE, acts);
  }

  /** An accounted session is within its limit, and every Main Decoder graph captured since the
      last measurement still has its accounting scope open. */
  lemma AccountedWithinBudget(acts: seq<Act>, i: nat)
    requires i in Run(IDLE, acts).sessions && Run(IDLE, acts).sessions[i].accounted
    ensures
      var x := Run(IDLE, acts).sessions[i];
      && x.explicit + x.graphBytes <= x.limit
      && !x.startupPending && !x.startupLock
      && (x.unmeasured ==> x.mainPending)
  {
    RunOk(IDLE, acts);
  }
}
