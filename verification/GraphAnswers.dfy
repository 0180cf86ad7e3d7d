/** When each graph call goes through, what it then changes, and what a refused or failing one leaves
    behind: what a caller has to know to go on after it. */
module GraphAnswers {
  import opened Options
  import opened GraphAccounting
  import opened GraphRuns
  import opened GraphExposure

  /** A mutex that can be had: nobody holds it, and locking it does not fail. */
  predicate Lockable(x: Session, locked: bool, env: Env) {
    !locked && !Owns(x) && !env.lockFails
  }

  /** A new session has no graph, no scope, no lock and no charge. */
  lemma NewSessionAnswers(limit: nat, explicit: nat, contexts: seq<nat>, codecContexts: seq<nat>)
    ensures
      var x := NewSession(limit, explicit, contexts, codecContexts);
      && SessionOk(x) && !Owns(x) && !HasOpenScope(x) && !x.accounted && x.graphBytes == 0
      && !x.localReady && x.main == [VACANT, VACANT] && x.codec == [VACANT, VACANT, VACANT]
      && x.limit == limit && x.explicit == explicit
      && x.contexts == contexts && x.codecContexts == codecContexts
  {
  }

  /** Until startup begins, every capture, launch and end of startup is refused. */
  lemma NothingBeforeStartup(x: Session, locked: bool, k: nat, env: Env)
    requires SessionOk(x) && !HasOpenScope(x) && !x.accounted && !x.main[0].ready && !x.main[1].ready
    ensures CaptureLocal(x, env).1 == Refused && CaptureCodec(x, k, env).1 == Refused
    ensures CaptureMain(x, locked, k, env).2 == Refused
    ensures LaunchMain(x, locked, k, env).2 == Refused && Finalize(x, locked, env).2 == Refused
  {
    BothReady(x);
  }

  /** Startup begins once, under the mutex. Once locked the mutex stays with the session even if the
      first reading fails, and then startup can never begin again. */
  lemma BeginAnswers(x: Session, locked: bool, env: Env)
    requires FlagsOk(x)
    ensures
      var (y, after, answer) := Begin(x, locked, env);
      var untouched := !x.startupPending && !x.accounted && !x.startupLock;
      && (answer == Done
          <==> untouched && Lockable(x, locked, env) && !env.watermarkFails && env.reading.Some?)
      && (answer == CudaFailed
          <==> && untouched && Lockable(x, locked, env)
               && (env.watermarkFails || env.reading.None?))
      && (answer == Waiting <==> untouched && !Owns(x) && locked)
      && (answer == LockFailed <==> untouched && !Owns(x) && !locked && env.lockFails)
      && (if answer == Done then
            after && y == x.(startupLock := true, startupPending := true,
                             baseline := env.reading.value)
          else if answer == CudaFailed then
            && after && y == x.(startupLock := true)
            && forall l, e :: Begin(y, l, e).2 == Refused
          else y == x && after == locked)
  {
  }

  /** The startup scope is open: graphs of the startup fixture may be captured. */
  predicate InStartup(x: Session) {
    x.startupPending && !x.accounted
  }

  /** The Local AR graph is captured once, inside startup; a failure to upload it leaves it
      captured. */
  lemma CaptureLocalAnswers(x: Session, env: Env)
    ensures
      var (y, answer) := CaptureLocal(x, env);
      && (answer == Done
          <==> && InStartup(x) && !x.localReady
               && !env.syncFails && !env.captureFails && !env.lateSyncFails)
      && (answer == CudaFailed
          <==> && InStartup(x)
               && (env.syncFails || (!x.localReady && (env.captureFails || env.lateSyncFails))))
      && y == x.(localReady := x.localReady || (answer == Done)
                               || (answer == CudaFailed && !env.syncFails && !env.captureFails))
  {
  }

  /** A codec graph is captured once, inside startup, in a context that is there and that no other
      codec graph has. */
  lemma CaptureCodecAnswers(x: Session, k: nat, env: Env)
    requires CodecOk(x.codec)
    ensures
      var (y, answer) := CaptureCodec(x, k, env);
      var context := ContextOf(x.codecContexts, k);
      var free := && InStartup(x) && k < 3 && context != 0 && !x.codec[k].ready
                  && forall j :: 0 <= j < 3 ==> x.codec[j].identity != context;
      && (answer == Done
          <==> free && !env.syncFails && !env.captureFails && !env.lateSyncFails)
      && (answer == Refused <==> !InStartup(x) || (!env.syncFails && !free))
      && (answer in {Done, Refused, CudaFailed})
      && (answer == Done ==> k < |x.codecContexts|)
      && y == (if free && !env.syncFails && !env.captureFails then
                 x.(codec := x.codec[k := Slot(false, context, true)])
               else x)
  {
    var context := ContextOf(x.codecContexts, k);
    assert Bound(x.codec, context) <==> exists j :: 0 <= j < 3 && x.codec[j].identity == context;
  }

  /** A request begins with no graph of the one before it and both directions to warm up again,
      unless its scope is still open or a graph cannot be destroyed; graphs destroyed before that
      one are gone all the same, but stay warmed. */
  lemma BeginRequestAnswers(x: Session, env: Env)
    requires MainOk(x.main)
    ensures
      var (y, answer) := BeginRequest(x, env);
      && (answer == Refused <==> x.mainPending)
      && (answer == Done
          <==> && !x.mainPending
               && !(x.main[0].ready && env.destroyFails)
               && !(x.main[1].ready && env.secondDestroyFails))
      && answer in {Done, Refused, CudaFailed}
      && (if answer == Done then y == x.(main := [VACANT, VACANT], unmeasured := false)
          else if answer == Refused || (x.main[0].ready && env.destroyFails) then y == x
          else y == x.(main := [x.main[0].(ready := false), x.main[1]]))
  {
    assert x.main[0 := x.main[0].(ready := false)] == [x.main[0].(ready := false), x.main[1]];
    assert x.main == [x.main[0], x.main[1]];
  }

  /** A direction is warmed up once between two request beginnings, by its own context, which must be
      there and must not have warmed the reverse direction. */
  lemma WarmUpAnswers(x: Session, k: nat)
    requires MainOk(x.main)
    ensures
      var (y, answer) := WarmUp(x, k);
      var context := ContextOf(x.contexts, k);
      && (answer == Done
          <==> k < 2 && context != 0 && !x.main[k].warmed && x.main[1 - k].identity != context)
      && (answer != Done ==> answer == Refused)
      && (k >= |x.contexts| ==> answer == Refused)
      && y == (if answer == Done then x.(main := x.main[k := Slot(true, context, false)]) else x)
  {
  }

  /** Whether a capture finds its accounting scope open or can open it. */
  predicate ScopeReady(x: Session, locked: bool, env: Env) {
    || x.mainPending
    || (&& !AllReady(x.main)
        && (InStartup(x) || (x.accounted && Lockable(x, locked, env) && !env.watermarkFails)))
  }

  /** A direction is captured once, in the context that warmed it, inside startup's scope or a
      request's own; the first capture opens the scope, and a scope that was opened stays open, with
      its mutex, whatever fails after that. */
  lemma CaptureMainAnswers(x: Session, locked: bool, k: nat, env: Env)
    requires MainOk(x.main) && FlagsOk(x)
    ensures
      var (y, after, answer) := CaptureMain(x, locked, k, env);
      var own := !x.mainPending && !AllReady(x.main) && !InStartup(x) && x.accounted
                 && !locked && !Owns(x);
      && (answer == Done
          <==> && ScopeReady(x, locked, env) && !env.captureFails && k < 2
               && x.main[k].warmed && !x.main[k].ready
               && ContextOf(x.contexts, k) == x.main[k].identity)
      && (answer == LockFailed <==> own && env.lockFails)
      && (y.mainPending <==> x.mainPending || (!AllReady(x.main) && InStartup(x)) || own)
      && (y.mainLock <==> x.mainLock || (own && !env.lockFails))
      && (after <==> locked || (own && !env.lockFails))
      && y.main == (if answer == Done then x.main[k := x.main[k].(ready := true)] else x.main)
      && (y.unmeasured <==> x.unmeasured || answer == Done)
      && y == x.(mainPending := y.mainPending, usesStartup := y.usesStartup,
                 mainLock := y.mainLock, main := y.main, unmeasured := y.unmeasured)
      && (y.mainPending ==> (y.usesStartup <==> InStartup(y)))
      && (!x.mainPending && !AllReady(x.main) && !x.accounted ==>
            (y.usesStartup <==> InStartup(x)))
  {
  }

  /** Only a ready graph is launched. Inside startup's scope the launch that finds both ready closes
      it without measuring; the graphs themselves stay. */
  lemma LaunchMainAnswers(x: Session, locked: bool, k: nat, env: Env)
    requires MainOk(x.main) && FlagsOk(x)
    ensures
      var (y, after, answer) := LaunchMain(x, locked, k, env);
      && (answer == Refused <==> k >= 2 || !x.main[k].ready)
      && (answer == CudaFailed
          <==> && k < 2 && x.main[k].ready
               && (env.launchFails
                   || (&& AllReady(x.main) && x.mainPending && !x.usesStartup
                       && (env.syncFails || env.reading.None?))))
      && (Settles(x, y) ==> answer == (if x.mainLock then Done else LockFailed))
      && (answer == LockFailed ==> Settles(x, y))
      && answer in {Done, Refused, CudaFailed, OverBudget, LockFailed}
      && y.main == x.main && y.baseline == x.baseline && y.accounted == x.accounted
      && y.startupLock == x.startupLock && y.startupPending == x.startupPending
      && (y.mainPending
          <==> x.mainPending
               && !(&& k < 2 && AllReady(x.main) && !env.launchFails
                    && (x.usesStartup || Settles(x, y))))
      && (x.mainPending && x.usesStartup && !y.mainPending ==>
            answer == Done && y.graphBytes == x.graphBytes && after == locked)
      && (!x.mainPending ==> y == x && after == locked)
  {
    BothReady(x);
  }

  /** An abort closes an open scope and drops its graphs and its mutex; without one it does
      nothing. */
  lemma AbortAnswers(x: Session, locked: bool)
    requires FlagsOk(x)
    ensures
      var (y, after) := Abort(x, locked);
      && !y.mainPending && !y.mainLock && (y.usesStartup ==> x.usesStartup && !x.mainPending)
      && (after <==> locked && !x.mainLock)
      && y.main == (if x.mainPending then [VACANT, VACANT] else x.main)
      && (y.unmeasured <==> x.unmeasured && !x.mainPending)
      && y == x.(mainPending := false, mainLock := false, usesStartup := y.usesStartup,
                 main := y.main, unmeasured := y.unmeasured)
  {
  }

  /** Startup ends once and for all: every graph ready, no request scope open, the reading within
      budget. A refused or failing end leaves startup open, under its lock, to be tried again. */
  lemma FinalizeAnswers(x: Session, locked: bool, env: Env)
    requires FlagsOk(x)
    ensures
      var (y, after, answer) := Finalize(x, locked, env);
      var ready := && AllReady(x.main) && x.localReady && AllReady(x.codec)
                   && !x.mainPending && InStartup(x);
      && (answer == Refused <==> !ready)
      && (answer == CudaFailed <==> ready && (env.syncFails || env.reading.None?))
      && answer in {Done, Refused, CudaFailed, OverBudget}
      && (if answer == Done then
            && !after && !y.startupLock && y.accounted && !y.startupPending && !y.unmeasured
          else
            && after == locked && y.startupLock == x.startupLock
            && y.accounted == x.accounted && y.startupPending == x.startupPending)
      && (answer == Refused || answer == CudaFailed ==> y == x)
      && y == x.(startupPending := y.startupPending, accounted := y.accounted,
                 startupLock := y.startupLock, graphBytes := y.graphBytes,
                 unmeasured := y.unmeasured)
  {
  }
}
