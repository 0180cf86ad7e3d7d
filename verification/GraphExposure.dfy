/** A request's accounting scope is armed before the mutex is locked for it. When exactly a scope is
    therefore open without the mutex, and what is measured under the mutex all the same. */
module GraphExposure {
  import opened Options
  import opened GraphAccounting
  import opened GraphRuns

  /** A request scope of the session's own, open without the mutex. */
  predicate Exposed(x: Session) {
    x.mainPending && !x.usesStartup && !x.mainLock
  }

  predicate HasOpenScope(x: Session) {
    x.startupPending || x.mainPending
  }

  // ---------- one call ----------

  /** How a call of a session changes whether it is exposed. */
  predicate ExposureStep(x: Session, op: Op, y: Session, answer: Answer) {
    Exposed(y) <==>
    || (op.CaptureMainOp? && answer == LockFailed)
    || (Exposed(x) && !op.AbortOp? && !(op.LaunchMainOp? && answer == LockFailed))
  }

  lemma CaptureExposure(x: Session, locked: bool, k: nat, env: Env)
    requires |x.main| == 2
    ensures var (y, after, answer) := CaptureMain(x, locked, k, env);
            ExposureStep(x, CaptureMainOp(k), y, answer)
  {
  }

  lemma LaunchExposure(x: Session, locked: bool, k: nat, env: Env)
    requires |x.main| == 2
    ensures var (y, after, answer) := LaunchMain(x, locked, k, env);
            ExposureStep(x, LaunchMainOp(k), y, answer)
  {
  }

  lemma FinalizeExposure(x: Session, locked: bool, env: Env)
    ensures var (y, after, answer) := Finalize(x, locked, env);
            ExposureStep(x, FinalizeOp, y, answer)
  {
  }

  /** A call leaves a scope open without the mutex exactly when it failed to lock for a capture, or
      the scope was so before and the call neither aborts nor settles it. */
  lemma CallExposure(x: Session, locked: bool, op: Op, env: Env)
    requires |x.main| == 2 && |x.codec| == 3
    ensures var (y, after, answer) := Call(x, locked, op, env);
            ExposureStep(x, op, y, answer)
  {
    match op
    case CaptureMainOp(k) => CaptureExposure(x, locked, k, env);
    case LaunchMainOp(k) => LaunchExposure(x, locked, k, env);
    case FinalizeOp => FinalizeExposure(x, locked, env);
    case _ =>
  }

  // ---------- whole runs ----------

  /** Whether session `i` still owes an abort after this act: its last failed lock for a capture has
      not been followed by an abort, a settling launch or the end of the session. */
  function OwesAfter(w: World, act: Act, i: nat, owes: bool): bool {
    match act
    case Create(_, _, _, _, _) => owes
    case Destroy(id) => owes && id != i
    case Invoke(id, op, _) =>
      if id != i then owes
      else
        || (op.CaptureMainOp? && Step(w, act).1 == LockFailed)
        || (owes && !op.AbortOp? && !(op.LaunchMainOp? && Step(w, act).1 == LockFailed))
  }

  function Owes(w: World, acts: seq<Act>, i: nat, owes: bool): bool
    decreases |acts|
  {
    if acts == [] then owes
    else Owes(Step(w, acts[0]).0, acts[1..], i, OwesAfter(w, acts[0], i, owes))
  }

  predicate OwesMatches(w: World, i: nat, owes: bool) {
    owes <==> i in w.sessions && Exposed(w.sessions[i])
  }

  lemma OwesStep(w: World, act: Act, i: nat, owes: bool)
    requires WorldOk(w) && OwesMatches(w, i, owes)
    ensures OwesMatches(Step(w, act).0, i, OwesAfter(w, act, i, owes))
  {
    if act.Invoke? && act.id == i && i in w.sessions {
      assert SessionOk(w.sessions[i]);
      CallExposure(w.sessions[i], w.locked, act.op, act.env);
    }
  }

  lemma {:induction false} OwesRun(w: World, acts: seq<Act>, i: nat, owes: bool)
    requires WorldOk(w) && OwesMatches(w, i, owes)
    ensures OwesMatches(Run(w, acts), i, Owes(w, acts, i, owes))
    decreases |acts|
  {
    if acts != [] {
      OwesStep(w, acts[0], i, owes);
      StepOk(w, acts[0]);
      OwesRun(Step(w, acts[0]).0, acts[1..], i, OwesAfter(w, acts[0], i, owes));
    }
  }

  /** Over every run, a scope is open without the mutex if and only if its session's last failed
      lock has not been followed by an abort, a settling launch or the session's end. */
  lemma ExposedExactly(acts: seq<Act>, i: nat)
    requires i in Run(IDLE, acts).sessions
    ensures Exposed(Run(IDLE, acts).sessions[i]) <==> Owes(IDLE, acts, i, false)
  {
    OwesRun(IDLE, acts, i, false);
  }

  /** The request scope this launch measured and closed. */
  predicate Settles(x: Session, y: Session) {
    x.mainPending && !x.usesStartup && !y.mainPending
  }

  lemma SettlesUnderLock(x: Session, locked: bool, k: nat, env: Env)
    requires |x.main| == 2
    ensures
      var (y, after, answer) := LaunchMain(x, locked, k, env);
      && (Settles(x, y) ==> (x.mainLock <==> !Exposed(x)))
      && (answer == LockFailed <==> Settles(x, y) && Exposed(x))
  {
  }

  /** Over every run, a request's measurement is made while its session holds the mutex if and only
      if the session owes no abort; otherwise the unlock finds the mutex unowned, and only then. */
  lemma MeasurementsUnderMutex(acts: seq<Act>, i: nat, k: nat, env: Env)
    requires i in Run(IDLE, acts).sessions
    ensures
      var w := Run(IDLE, acts);
      var x := w.sessions[i];
      && |x.main| == 2
      && var (y, after, answer) := LaunchMain(x, w.locked, k, env);
         && (Settles(x, y) ==> (x.mainLock && w.locked <==> !Owes(IDLE, acts, i, false)))
         && (answer == LockFailed <==> Settles(x, y) && Owes(IDLE, acts, i, false))
  {
    var w := Run(IDLE, acts);
    RunOk(IDLE, acts);
    assert SessionOk(w.sessions[i]);
    ExposedExactly(acts, i);
    SettlesUnderLock(w.sessions[i], w.locked, k, env);
    if w.sessions[i].mainLock {
      assert Owns(w.sessions[i]);
    }
  }

  /** At most one session has an open scope, save those that owe an abort; every other open scope is
      held together with the mutex. */
  lemma OneOpenScope(acts: seq<Act>, i: nat, j: nat)
    requires i in Run(IDLE, acts).sessions && j in Run(IDLE, acts).sessions
    ensures
      var w := Run(IDLE, acts);
      var x, y := w.sessions[i], w.sessions[j];
      && (HasOpenScope(x) && !Owes(IDLE, acts, i, false) ==> Owns(x) && w.locked)
      && (i != j && HasOpenScope(x) && HasOpenScope(y) ==>
            Owes(IDLE, acts, i, false) || Owes(IDLE, acts, j, false))
      && (Owns(x) && Owns(y) ==> i == j)
      && !(x.startupLock && x.mainLock)
  {
    var w := Run(IDLE, acts);
    RunOk(IDLE, acts);
    ExposedExactly(acts, i);
    ExposedExactly(acts, j);
    OpenMeansOwned(w.sessions[i]);
    OpenMeansOwned(w.sessions[j]);
  }

  lemma OpenMeansOwned(x: Session)
    requires FlagsOk(x)
    ensures HasOpenScope(x) <==> (Owns(x) && HasOpenScope(x)) || Exposed(x)
    ensures Exposed(x) ==> !Owns(x)
    ensures !(x.startupLock && x.mainLock)
  {
  }

  // ---------- callers that abort ----------

  /** The sessions whose last lock for a capture failed and that have not been aborted since. */
  function OwingAfter(w: World, act: Act, owing: set<nat>): set<nat> {
    match act
    case Create(_, _, _, _, _) => owing
    case Destroy(id) => owing - {id}
    case Invoke(id, op, _) =>
      if op.CaptureMainOp? && Step(w, act).1 == LockFailed then owing + {id}
      else if op.AbortOp? then owing - {id}
      else owing
  }

  /** After a failed lock the next call of that session is the abort, as the pipeline's failure
      handling makes it. */
  predicate AbortsFailures(w: World, acts: seq<Act>, owing: set<nat>)
    decreases |acts|
  {
    acts == []
    || (&& (acts[0].Invoke? && acts[0].id in owing ==> acts[0].op.AbortOp?)
        && AbortsFailures(Step(w, acts[0]).0, acts[1..], OwingAfter(w, acts[0], owing)))
  }

  /** No launch of the run finds the mutex unowned when it is done measuring. */
  predicate NoLooseMeasurement(w: World, acts: seq<Act>)
    decreases |acts|
  {
    acts == []
    || (&& !(acts[0].Invoke? && acts[0].op.LaunchMainOp? && Step(w, acts[0]).1 == LockFailed)
        && NoLooseMeasurement(Step(w, acts[0]).0, acts[1..]))
  }

  ghost predicate OwingMatches(w: World, owing: set<nat>) {
    forall i :: i in owing <==> i in w.sessions && Exposed(w.sessions[i])
  }

  lemma OwingStep(w: World, act: Act, owing: set<nat>)
    requires WorldOk(w) && OwingMatches(w, owing)
    requires act.Invoke? && act.id in owing ==> act.op.AbortOp?
    ensures OwingMatches(Step(w, act).0, OwingAfter(w, act, owing))
    ensures !(act.Invoke? && act.op.LaunchMainOp? && Step(w, act).1 == LockFailed)
  {
    if act.Invoke? && act.id in w.sessions {
      assert SessionOk(w.sessions[act.id]);
      CallOwing(w.sessions[act.id], w.locked, act.op, act.env);
    }
  }

  /** One call, in terms of owing an abort. */
  lemma CallOwing(x: Session, locked: bool, op: Op, env: Env)
    requires |x.main| == 2 && |x.codec| == 3
    ensures
      var (y, after, answer) := Call(x, locked, op, env);
      && (op.CaptureMainOp? && answer == LockFailed ==> Exposed(y))
      && (op.AbortOp? ==> !Exposed(y))
      && (!Exposed(x) && !(op.CaptureMainOp? && answer == LockFailed) ==> !Exposed(y))
      && (op.LaunchMainOp? && answer == LockFailed ==> Exposed(x))
  {
    CallExposure(x, locked, op, env);
    if op.LaunchMainOp? {
      SettlesUnderLock(x, locked, op.k, env);
    }
  }

  /** If every failed lock is followed by an abort, every measurement is made under the mutex. */
  lemma {:induction false} AbortingKeepsMutex(w: World, acts: seq<Act>, owing: set<nat>)
    requires WorldOk(w) && OwingMatches(w, owing) && AbortsFailures(w, acts, owing)
    ensures NoLooseMeasurement(w, acts)
    decreases |acts|
  {
    if acts != [] {
      OwingStep(w, acts[0], owing);
      StepOk(w, acts[0]);
      AbortingKeepsMutex(Step(w, acts[0]).0, acts[1..], OwingAfter(w, acts[0], owing));
    }
  }

  lemma AbortingRunsMeasureUnderMutex(acts: seq<Act>)
    requires AbortsFailures(IDLE, acts, {})
    ensures NoLooseMeasurement(IDLE, acts)
  {
    AbortingKeepsMutex(IDLE, acts, {});
  }

  // ---------- a run that does not abort ----------

  const ZERO := Memory(0, 0, 0, 0, 0)
  const GOOD := Env(false, false, false, false, false, false, false, false, Some(ZERO))
  const NO_LOCK := GOOD.(lockFails := true)

  /** A whole startup, and the warm-ups of the first request after it. */
  const CODEC_STARTUP: seq<Op> :=
    [BeginOp, CaptureLocalOp, CaptureCodecOp(0), CaptureCodecOp(1), CaptureCodecOp(2)]
  const MAIN_STARTUP: seq<Op> :=
    [WarmUpOp(0), WarmUpOp(1), CaptureMainOp(0), CaptureMainOp(1), LaunchMainOp(0), FinalizeOp]
  const FIRST_REQUEST: seq<Op> := [BeginRequestOp, WarmUpOp(0), WarmUpOp(1)]
  const STARTUP: seq<Op> := CODEC_STARTUP + MAIN_STARTUP + FIRST_REQUEST

  const CODEC_READY: seq<Slot> := [Slot(false, 3, true), Slot(false, 4, true), Slot(false, 5, true)]

  const YOUNG := NewSession(0, 0, [1, 2], [3, 4, 5])
  const BEGUN := YOUNG.(startupPending := true, startupLock := true, localReady := true,
                        codec := CODEC_READY)
  const ACCOUNTED := YOUNG.(accounted := true, localReady := true, codec := CODEC_READY,
                            main := [Slot(true, 1, true), Slot(true, 2, true)])
  /** Accounted, and ready for the first capture of a request. */
  const WARMED := ACCOUNTED.(main := [Slot(true, 1, false), Slot(true, 2, false)])

  /** The calls of one session, in order, with nothing going wrong. */
  function CallAll(x: Session, locked: bool, ops: seq<Op>): (Session, bool)
    decreases |ops|
  {
    if ops == [] || |x.main| != 2 || |x.codec| != 3 then (x, locked)
    else
      var (y, after, _) := Call(x, locked, ops[0], GOOD);
      CallAll(y, after, ops[1..])
  }

  lemma CallNext(x: Session, locked: bool, ops: seq<Op>, y: Session, after: bool)
    requires |x.main| == 2 && |x.codec| == 3 && ops != []
    requires Call(x, locked, ops[0], GOOD).0 == y && Call(x, locked, ops[0], GOOD).1 == after
    ensures CallAll(x, locked, ops) == CallAll(y, after, ops[1..])
  {
  }

  lemma {:induction false} CallAllConcat(x: Session, locked: bool, a: seq<Op>, b: seq<Op>)
    ensures var (y, after) := CallAll(x, locked, a);
            CallAll(x, locked, a + b) == CallAll(y, after, b)
    decreases |a|
  {
    if a == [] {
      assert a + b == b;
    } else if |x.main| == 2 && |x.codec| == 3 {
      assert (a + b)[0] == a[0] && (a + b)[1..] == a[1..] + b;
      var (y, after, _) := Call(x, locked, a[0], GOOD);
      CallAllConcat(y, after, a[1..], b);
    }
  }

  lemma CaptureFreshCodec(x: Session, k: nat)
    requires |x.codec| == 3 && k < 3 && x.startupPending && !x.accounted
    requires x.codecContexts == [3, 4, 5] && !x.codec[k].ready
    requires forall j :: 0 <= j < 3 ==> x.codec[j].identity != 3 + k
    ensures CaptureCodec(x, k, GOOD) == (x.(codec := x.codec[k := Slot(false, 3 + k, true)]), Done)
  {
  }

  lemma CodecStartup()
    ensures CallAll(YOUNG, false, CODEC_STARTUP) == (BEGUN, true)
  {
    var b := YOUNG.(startupPending := true, startupLock := true);
    var l := b.(localReady := true);
    var c := l.(codec := [Slot(false, 3, true), VACANT, VACANT]);
    var d := l.(codec := [Slot(false, 3, true), Slot(false, 4, true), VACANT]);
    CallNext(YOUNG, false, CODEC_STARTUP, b, true);
    CallNext(b, true, CODEC_STARTUP[1..], l, true);
    CaptureFreshCodec(l, 0);
    assert l.codec[0 := Slot(false, 3, true)] == c.codec;
    CallNext(l, true, CODEC_STARTUP[2..], c, true);
    CaptureFreshCodec(c, 1);
    assert c.codec[1 := Slot(false, 4, true)] == d.codec;
    CallNext(c, true, CODEC_STARTUP[3..], d, true);
    CaptureFreshCodec(d, 2);
    assert d.codec[2 := Slot(false, 5, true)] == CODEC_READY;
    CallNext(d, true, CODEC_STARTUP[4..], BEGUN, true);
    assert CODEC_STARTUP[4..][1..] == [];
  }

  lemma BothReady(x: Session)
    requires |x.main| == 2
    ensures AllReady(x.main) <==> x.main[0].ready && x.main[1].ready
  {
  }

  const HALF_WARM := BEGUN.(main := [Slot(true, 1, false), VACANT])
  const BOTH_WARM := BEGUN.(main := [Slot(true, 1, false), Slot(true, 2, false)])
  const STARTUP_OPEN := BEGUN.(mainPending := true, usesStartup := true, unmeasured := true)
  const HALF_READY := STARTUP_OPEN.(main := [Slot(true, 1, true), Slot(true, 2, false)])
  const BOTH_READY := STARTUP_OPEN.(main := [Slot(true, 1, true), Slot(true, 2, true)])

  lemma MainWarmUps()
    ensures WarmUp(BEGUN, 0) == (HALF_WARM, Done)
    ensures WarmUp(HALF_WARM, 1) == (BOTH_WARM, Done)
  {
    assert BEGUN.main[0 := Slot(true, 1, false)] == HALF_WARM.main;
    assert HALF_WARM.main[1 := Slot(true, 2, false)] == BOTH_WARM.main;
  }

  lemma MainCaptures()
    ensures CaptureMain(BOTH_WARM, true, 0, GOOD) == (HALF_READY, true, Done)
    ensures CaptureMain(HALF_READY, true, 1, GOOD) == (BOTH_READY, true, Done)
  {
    BothReady(BOTH_WARM);
    assert BOTH_WARM.main[0 := Slot(true, 1, true)] == HALF_READY.main;
    assert HALF_READY.main[1 := Slot(true, 2, true)] == BOTH_READY.main;
  }

  lemma MainLaunch()
    ensures LaunchMain(BOTH_READY, true, 0, GOOD)
         == (BEGUN.(unmeasured := true, main := BOTH_READY.main), true, Done)
  {
    BothReady(BOTH_READY);
  }

  /** Both directions captured under startup accounting, launched and accounted for. */
  lemma MainStartup()
    ensures CallAll(BEGUN, true, MAIN_STARTUP) == (ACCOUNTED, false)
  {
    MainWarmUps();
    CallNext(BEGUN, true, MAIN_STARTUP, HALF_WARM, true);
    CallNext(HALF_WARM, true, MAIN_STARTUP[1..], BOTH_WARM, true);
    MainCaptures();
    CallNext(BOTH_WARM, true, MAIN_STARTUP[2..], HALF_READY, true);
    CallNext(HALF_READY, true, MAIN_STARTUP[3..], BOTH_READY, true);
    MainEnd();
  }

  lemma MainEnd()
    ensures CallAll(BOTH_READY, true, MAIN_STARTUP[4..]) == (ACCOUNTED, false)
  {
    var launched := BEGUN.(unmeasured := true, main := BOTH_READY.main);
    MainLaunch();
    CallNext(BOTH_READY, true, MAIN_STARTUP[4..], launched, true);
    FinalizeZero(launched);
    CallNext(launched, true, MAIN_STARTUP[5..], ACCOUNTED, false);
    assert MAIN_STARTUP[5..][1..] == [];
  }

  lemma FinalizeZero(e: Session)
    requires e == BEGUN.(unmeasured := true, main := ACCOUNTED.main)
    ensures Finalize(e, true, GOOD) == (ACCOUNTED, false, Done)
  {
    assert AllReady(e.main) && AllReady(e.codec);
    assert Growth(ZERO, ZERO) == 0;
  }

  lemma FirstRequest()
    ensures CallAll(ACCOUNTED, false, FIRST_REQUEST) == (WARMED, false)
  {
    var reset := ACCOUNTED.(main := [VACANT, VACANT]);
    var half := ACCOUNTED.(main := [Slot(true, 1, false), VACANT]);
    CallNext(ACCOUNTED, false, FIRST_REQUEST, reset, false);
    assert reset.main[0 := Slot(true, 1, false)] == half.main;
    CallNext(reset, false, FIRST_REQUEST[1..], half, false);
    assert half.main[1 := Slot(true, 2, false)] == WARMED.main;
    CallNext(half, false, FIRST_REQUEST[2..], WARMED, false);
    assert FIRST_REQUEST[2..][1..] == [];
  }

  lemma StartupWarms()
    ensures CallAll(YOUNG, false, STARTUP) == (WARMED, false)
  {
    CodecStartup();
    MainStartup();
    FirstRequest();
    CallAllConcat(YOUNG, false, CODEC_STARTUP, MAIN_STARTUP);
    CallAllConcat(YOUNG, false, CODEC_STARTUP + MAIN_STARTUP, FIRST_REQUEST);
  }

  /** The same calls as acts of a world. */
  function Acts(id: nat, ops: seq<Op>): seq<Act> {
    seq(|ops|, k requires 0 <= k < |ops| => Invoke(id, ops[k], GOOD))
  }

  lemma {:induction false} ActsCallAll(w: World, id: nat, ops: seq<Op>)
    requires id in w.sessions
    ensures var (y, locked) := CallAll(w.sessions[id], w.locked, ops);
            Run(w, Acts(id, ops)) == World(w.sessions[id := y], locked)
    decreases |ops|
  {
    var x := w.sessions[id];
    if ops == [] {
      assert w.sessions[id := x] == w.sessions;
    } else {
      assert Acts(id, ops)[1..] == Acts(id, ops[1..]);
      if |x.main| == 2 && |x.codec| == 3 {
        var v := Step(w, Invoke(id, ops[0], GOOD)).0;
        ActsCallAll(v, id, ops[1..]);
        var (y, locked) := CallAll(v.sessions[id], v.locked, ops[1..]);
        assert v.sessions[id := y] == w.sessions[id := y];
      } else {
        Idle(w, id, ops);
        assert w.sessions[id := x] == w.sessions;
      }
    }
  }

  lemma {:induction false} Idle(w: World, id: nat, ops: seq<Op>)
    requires id in w.sessions && !Callable(w, id)
    ensures Run(w, Acts(id, ops)) == w
    decreases |ops|
  {
    if ops != [] {
      assert Acts(id, ops)[1..] == Acts(id, ops[1..]);
      Idle(w, id, ops[1..]);
    }
  }

  lemma {:induction false} RunConcat(w: World, a: seq<Act>, b: seq<Act>)
    ensures Run(w, a + b) == Run(Run(w, a), b)
    decreases |a|
  {
    if a == [] {
      assert a + b == b;
    } else {
      assert (a + b)[0] == a[0] && (a + b)[1..] == a[1..] + b;
      RunConcat(Step(w, a[0]).0, a[1..], b);
    }
  }

  const NEW_ONE := Create(1, 0, 0, [1, 2], [3, 4, 5])
  const NEW_TWO := Create(2, 0, 0, [1, 2], [3, 4, 5])

  /** Two sessions started up one after the other. */
  const TWO_STARTED: seq<Act> :=
    [NEW_ONE] + Acts(1, STARTUP) + ([NEW_TWO] + Acts(2, STARTUP))

  lemma NewWarmed(w: World, id: nat)
    requires id !in w.sessions && !w.locked
    ensures Run(w, [Create(id, 0, 0, [1, 2], [3, 4, 5])] + Acts(id, STARTUP))
         == World(w.sessions[id := WARMED], false)
  {
    var create := Create(id, 0, 0, [1, 2], [3, 4, 5]);
    var v := Step(w, create).0;
    RunConcat(w, [create], Acts(id, STARTUP));
    assert Run(w, [create]) == v by {
      assert [create][1..] == [];
    }
    StartupWarms();
    ActsCallAll(v, id, STARTUP);
    assert v.sessions[id := WARMED] == w.sessions[id := WARMED];
  }

  lemma TwoStarted()
    ensures Run(IDLE, TWO_STARTED) == World(map[1 := WARMED, 2 := WARMED], false)
  {
    NewWarmed(IDLE, 1);
    NewWarmed(World(map[1 := WARMED], false), 2);
    RunConcat(IDLE, [NEW_ONE] + Acts(1, STARTUP), [NEW_TWO] + Acts(2, STARTUP));
    assert IDLE.sessions[1 := WARMED] == map[1 := WARMED];
    assert map[1 := WARMED][2 := WARMED] == map[1 := WARMED, 2 := WARMED];
  }

  const OPEN := WARMED.(mainPending := true)
  const CAPTURING := OPEN.(main := [Slot(true, 1, true), Slot(true, 2, false)], unmeasured := true)

  lemma FirstCaptures()
    ensures CaptureMain(WARMED, false, 0, NO_LOCK) == (OPEN, false, LockFailed)
    ensures CaptureMain(WARMED, false, 0, GOOD) == (CAPTURING.(mainLock := true), true, Done)
    ensures CaptureMain(OPEN, true, 0, GOOD) == (CAPTURING, true, Done)
    ensures Abort(OPEN, true).0.main == [VACANT, VACANT] && !Abort(OPEN, true).0.mainPending
  {
    BothReady(WARMED);
    assert WARMED.main[0 := Slot(true, 1, true)] == CAPTURING.main;
  }

  lemma InvokeCalls(w: World, id: nat, op: Op, env: Env, y: Session, held: bool, answer: Answer)
    requires Callable(w, id) && Call(w.sessions[id], w.locked, op, env) == (y, held, answer)
    ensures Step(w, Invoke(id, op, env)) == (World(w.sessions[id := y], held), answer)
  {
  }

  /** The failing run. Session 1 cannot lock the mutex and does not abort; session 2 opens its scope
      under the mutex; session 1's next capture then goes ahead with both scopes open. */
  lemma FailedLockNeedsAbort()
    ensures
      var w := Run(IDLE, TWO_STARTED);
      var (a, first) := Step(w, Invoke(1, CaptureMainOp(0), NO_LOCK));
      var (b, second) := Step(a, Invoke(2, CaptureMainOp(0), GOOD));
      var (c, third) := Step(b, Invoke(1, CaptureMainOp(0), GOOD));
      && first == LockFailed && second == Done && third == Done
      && 1 in c.sessions && 2 in c.sessions
      && HasOpenScope(c.sessions[1]) && HasOpenScope(c.sessions[2])
      && Owns(c.sessions[2]) && !Owns(c.sessions[1])
  {
    var w := World(map[1 := WARMED, 2 := WARMED], false);
    var a := World(w.sessions[1 := OPEN], false);
    var b := World(a.sessions[2 := CAPTURING.(mainLock := true)], true);
    TwoStarted();
    FirstCaptures();
    InvokeCalls(w, 1, CaptureMainOp(0), NO_LOCK, OPEN, false, LockFailed);
    InvokeCalls(a, 2, CaptureMainOp(0), GOOD, CAPTURING.(mainLock := true), true, Done);
    InvokeCalls(b, 1, CaptureMainOp(0), GOOD, CAPTURING, true, Done);
  }

  /** The same run with the abort in its place: session 1's next capture waits for session 2. */
  lemma AbortedLockWaits()
    ensures
      var w := Run(IDLE, TWO_STARTED);
      var a := Step(w, Invoke(1, CaptureMainOp(0), NO_LOCK)).0;
      var b := Step(a, Invoke(1, AbortOp, GOOD)).0;
      var c := Step(b, Invoke(2, CaptureMainOp(0), GOOD)).0;
      Step(c, Invoke(1, CaptureMainOp(0), GOOD)).1 == Waiting
  {
    var w := World(map[1 := WARMED, 2 := WARMED], false);
    var a := World(w.sessions[1 := OPEN], false);
    var b := World(a.sessions[1 := ABORTED], false);
    var c := World(b.sessions[2 := CAPTURING.(mainLock := true)], true);
    TwoStarted();
    FirstCaptures();
    AbortedCapture();
    InvokeCalls(w, 1, CaptureMainOp(0), NO_LOCK, OPEN, false, LockFailed);
    InvokeCalls(a, 1, AbortOp, GOOD, ABORTED, false, Done);
    InvokeCalls(b, 2, CaptureMainOp(0), GOOD, CAPTURING.(mainLock := true), true, Done);
    InvokeCalls(c, 1, CaptureMainOp(0), GOOD, ABORTED, true, Waiting);
  }

  const ABORTED := OPEN.(mainPending := false, main := [VACANT, VACANT])

  lemma AbortedCapture()
    ensures Abort(OPEN, false) == (ABORTED, false)
    ensures CaptureMain(ABORTED, true, 0, GOOD) == (ABORTED, true, Waiting)
  {
    BothReady(ABORTED);
  }
}
