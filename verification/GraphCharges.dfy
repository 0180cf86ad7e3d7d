/** What a session is charged for its CUDA graphs: each measurement of a run against the budget and
    against the one baseline it is measured from. */
module GraphCharges {
  import opened Options
  import opened GraphAccounting
  import opened GraphRuns
  import opened GraphExposure

  // ---------- one launch ----------

  /** A launch that finds both graphs ready and a request's own scope open, and gets a reading. */
  predicate Measures(x: Session, k: nat, env: Env)
    requires |x.main| == 2
  {
    && k < 2 && AllReady(x.main) && x.mainPending && !x.usesStartup
    && !env.launchFails && !env.syncFails && env.reading.Some?
  }

  /** Such a launch closes its scope exactly when the growth it reads fits beside the explicit memory,
      and is then charged for at least that growth; over budget it changes nothing at all. A launch
      that does not measure closes no request scope. */
  lemma SettlingExact(x: Session, locked: bool, k: nat, env: Env)
    requires |x.main| == 2
    ensures
      var (y, after, answer) := LaunchMain(x, locked, k, env);
      && (Settles(x, y)
          <==> Measures(x, k, env)
               && x.explicit + Growth(x.baseline, env.reading.value) <= x.limit)
      && (Settles(x, y) ==>
            && y.graphBytes >= Growth(x.baseline, env.reading.value)
            && y.graphBytes >= x.graphBytes
            && (y.graphBytes == x.graphBytes
                || y.graphBytes == Growth(x.baseline, env.reading.value))
            && !y.mainLock && !y.unmeasured && y.main == x.main
            && after == (locked && !x.mainLock))
      && (answer == OverBudget
          <==> Measures(x, k, env)
               && x.explicit + Growth(x.baseline, env.reading.value) > x.limit)
      && (answer == OverBudget ==> y == x && after == locked)
  {
    BothReady(x);
  }

  /** Startup's one measurement: it ends startup accounting exactly when every graph is ready, no
      request scope is open, and the growth fits; it is then the session's whole charge. */
  lemma FinalizingExact(x: Session, locked: bool, env: Env)
    ensures
      var (y, after, answer) := Finalize(x, locked, env);
      var measured := && AllReady(x.main) && x.localReady && AllReady(x.codec)
                      && !x.mainPending && x.startupPending && !x.accounted
                      && !env.syncFails && env.reading.Some?;
      && (y.accounted && !x.accounted
          <==> measured && x.explicit + Growth(x.baseline, env.reading.value) <= x.limit)
      && (measured ==> y.graphBytes == Growth(x.baseline, env.reading.value))
      && (answer == OverBudget
          <==> measured && x.explicit + Growth(x.baseline, env.reading.value) > x.limit)
      && (answer == OverBudget ==> !y.accounted && y.startupPending && after == locked)
  {
  }

  // ---------- whole runs ----------

  /** A session's books, kept from outside: the reading its accounting began with, and the growth of
      each measurement it was admitted under, startup's first. */
  datatype Books = Books(baseline: Memory, growths: seq<nat>)

  const EMPTY_BOOKS := Books(Memory(0, 0, 0, 0, 0), [])

  function CallBooks(x: Session, y: Session, op: Op, env: Env, b: Books): Books {
    if env.reading.None? then b
    else if op.BeginOp? && !x.startupPending && y.startupPending then
      b.(baseline := env.reading.value)
    else if (op.FinalizeOp? && !x.accounted && y.accounted)
            || (op.LaunchMainOp? && Settles(x, y)) then
      b.(growths := b.growths + [Growth(b.baseline, env.reading.value)])
    else b
  }

  function BooksAfter(w: World, act: Act, i: nat, b: Books): Books {
    match act
    case Create(id, _, _, _, _) => if id == i && id !in w.sessions then EMPTY_BOOKS else b
    case Destroy(_) => b
    case Invoke(id, op, env) =>
      if id != i || !Callable(w, id) then b
      else CallBooks(w.sessions[i], Call(w.sessions[i], w.locked, op, env).0, op, env, b)
  }

  function BooksOf(w: World, acts: seq<Act>, i: nat, b: Books): Books
    decreases |acts|
  {
    if acts == [] then b
    else BooksOf(Step(w, acts[0]).0, acts[1..], i, BooksAfter(w, acts[0], i, b))
  }

  /** `m` is the greatest of these. */
  predicate Greatest(growths: seq<nat>, m: nat) {
    m in growths && forall k :: 0 <= k < |growths| ==> growths[k] <= m
  }

  predicate AllFit(growths: seq<nat>, explicit: nat, limit: nat) {
    forall k :: 0 <= k < |growths| ==> explicit + growths[k] <= limit
  }

  /** How the books stand to the session. */
  predicate Booked(x: Session, b: Books) {
    && (x.startupPending || x.accounted ==> x.baseline == b.baseline)
    && (if x.accounted then
          Greatest(b.growths, x.graphBytes) && AllFit(b.growths, x.explicit, x.limit)
        else b.growths == [])
  }

  lemma GreatestGrows(growths: seq<nat>, m: nat, g: nat)
    requires Greatest(growths, m)
    ensures Greatest(growths + [g], Max(m, g))
  {
    assert (growths + [g])[|growths|] == g;
    var k :| 0 <= k < |growths| && growths[k] == m;
    assert (growths + [g])[k] == m;
  }

  lemma BooksKept(x: Session, locked: bool, op: Op, env: Env, b: Books)
    requires SessionOk(x) && Booked(x, b)
    requires !op.BeginOp? && !op.FinalizeOp? && !op.LaunchMainOp?
    ensures Booked(Call(x, locked, op, env).0, b)
  {
  }

  lemma BeginBooked(x: Session, locked: bool, env: Env, b: Books)
    requires SessionOk(x) && Booked(x, b)
    ensures var y := Begin(x, locked, env).0; Booked(y, CallBooks(x, y, BeginOp, env, b))
  {
  }

  lemma FinalizeBooked(x: Session, locked: bool, env: Env, b: Books)
    requires SessionOk(x) && Booked(x, b)
    ensures var y := Finalize(x, locked, env).0; Booked(y, CallBooks(x, y, FinalizeOp, env, b))
  {
    FinalizingExact(x, locked, env);
  }

  lemma LaunchBooked(x: Session, locked: bool, k: nat, env: Env, b: Books)
    requires SessionOk(x) && Booked(x, b)
    ensures var y := LaunchMain(x, locked, k, env).0; Booked(y, CallBooks(x, y, LaunchMainOp(k), env, b))
  {
    SettlingExact(x, locked, k, env);
    if Settles(x, LaunchMain(x, locked, k, env).0) {
      GreatestGrows(b.growths, x.graphBytes, Growth(b.baseline, env.reading.value));
    }
  }

  lemma CallBooked(x: Session, locked: bool, op: Op, env: Env, b: Books)
    requires SessionOk(x) && Booked(x, b)
    ensures var y := Call(x, locked, op, env).0; Booked(y, CallBooks(x, y, op, env, b))
  {
    match op
    case BeginOp => BeginBooked(x, locked, env, b);
    case FinalizeOp => FinalizeBooked(x, locked, env, b);
    case LaunchMainOp(k) => LaunchBooked(x, locked, k, env, b);
    case _ => BooksKept(x, locked, op, env, b);
  }

  ghost predicate BooksMatch(w: World, i: nat, b: Books) {
    i in w.sessions ==> Booked(w.sessions[i], b)
  }

  lemma BooksStep(w: World, act: Act, i: nat, b: Books)
    requires WorldOk(w) && BooksMatch(w, i, b)
    ensures BooksMatch(Step(w, act).0, i, BooksAfter(w, act, i, b))
  {
    if act.Invoke? && act.id == i && Callable(w, i) {
      assert SessionOk(w.sessions[i]);
      CallBooked(w.sessions[i], w.locked, act.op, act.env, b);
    }
  }

  lemma {:induction false} BooksRun(w: World, acts: seq<Act>, i: nat, b: Books)
    requires WorldOk(w) && BooksMatch(w, i, b)
    ensures BooksMatch(Run(w, acts), i, BooksOf(w, acts, i, b))
    decreases |acts|
  {
    if acts != [] {
      BooksStep(w, acts[0], i, b);
      StepOk(w, acts[0]);
      BooksRun(Step(w, acts[0]).0, acts[1..], i, BooksAfter(w, acts[0], i, b));
    }
  }

  /** Over every run: an accounted session is charged the greatest growth it was ever measured with,
      startup's included, all of them measured from the reading its accounting began with, and each
      of them fitted the budget beside the explicit memory. */
  lemma ChargedForGreatestGrowth(acts: seq<Act>, i: nat)
    requires i in Run(IDLE, acts).sessions && Run(IDLE, acts).sessions[i].accounted
    ensures
      var x, b := Run(IDLE, acts).sessions[i], BooksOf(IDLE, acts, i, EMPTY_BOOKS);
      && b.growths != []
      && Greatest(b.growths, x.graphBytes)
      && AllFit(b.growths, x.explicit, x.limit)
  {
    BooksRun(IDLE, acts, i, EMPTY_BOOKS);
  }
}
