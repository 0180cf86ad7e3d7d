/** Accounting for the device memory of captured CUDA graphs: one session's flags, locks and graph
    sets as a value, and what each call does to them. Which CUDA or mutex operation fails is part
    of a call's environment. */
module GraphAccounting {
  import opened Options

  // ---------- the arithmetic of the budget ----------

  datatype Memory = Memory(free: nat, used: nat, reserved: nat, usedHigh: nat, reservedHigh: nat)

  function Decrease(before: nat, after: nat): nat {
    if after < before then before - after else 0
  }

  function Max(a: nat, b: nat): nat {
    if a < b then b else a
  }

  /** The largest of the five positive changes from the baseline. */
  function Growth(baseline: Memory, now: Memory): (g: nat)
    ensures baseline.free <= now.free + g
    ensures now.used <= baseline.used + g && now.usedHigh <= baseline.used + g
    ensures now.reserved <= baseline.reserved + g && now.reservedHigh <= baseline.reserved + g
  {
    Max(Decrease(baseline.free, now.free),
        Max(Max(Decrease(now.used, baseline.used), Decrease(now.reserved, baseline.reserved)),
            Max(Decrease(now.usedHigh, baseline.used),
                Decrease(now.reservedHigh, baseline.reserved))))
  }

  /** Growth is the least charge that covers all five changes. */
  lemma GrowthIsLeast(baseline: Memory, now: Memory, g: nat)
    requires baseline.free <= now.free + g
    requires now.used <= baseline.used + g && now.usedHigh <= baseline.used + g
    requires now.reserved <= baseline.reserved + g && now.reservedHigh <= baseline.reserved + g
    ensures Growth(baseline, now) <= g
  {
  }

  /** The guarded subtraction admits exactly the sums within the limit. */
  predicate FitsBudget(maximum: nat, explicit: nat, observed: nat)
    ensures FitsBudget(maximum, explicit, observed) <==> explicit + observed <= maximum
  {
    explicit <= maximum && observed <= maximum - explicit
  }

  // ---------- one session ----------

  /** One captured graph's place: whether its context was warmed up, the identity of that context
      (0 for none), and whether an executable graph is present. */
  datatype Slot = Slot(warmed: bool, identity: nat, ready: bool)

  const VACANT := Slot(false, 0, false)

  /** `contexts` are the identities of the two Main Decoder and three NanoCodec execution contexts,
      0 where a context is missing. `unmeasured` records that a Main Decoder graph was captured
      since graph memory was last measured. */
  datatype Session = Session(
    limit: nat,
    explicit: nat,
    contexts: seq<nat>,
    codecContexts: seq<nat>,
    startupPending: bool,
    accounted: bool,
    startupLock: bool,
    mainPending: bool,
    usesStartup: bool,
    mainLock: bool,
    graphBytes: nat,
    baseline: Memory,
    main: seq<Slot>,
    localReady: bool,
    codec: seq<Slot>,
    unmeasured: bool)

  function NewSession(limit: nat, explicit: nat, contexts: seq<nat>, codecContexts: seq<nat>)
    : Session
  {
    Session(limit, explicit, contexts, codecContexts, false, false, false, false, false, false, 0,
            Memory(0, 0, 0, 0, 0), [VACANT, VACANT], false, [VACANT, VACANT, VACANT], false)
  }

  datatype Answer =
    | Done
    | Refused
    | CudaFailed
    | LockFailed
    | OverBudget
    | Waiting       // the mutex is held by another session; the call has not proceeded
    | SelfDeadlock  // the mutex is held by this very session

  /** What goes wrong outside the session during one call, and the memory reading it gets. */
  datatype Env = Env(
    lockFails: bool,
    watermarkFails: bool,
    syncFails: bool,
    lateSyncFails: bool,
    captureFails: bool,
    launchFails: bool,
    destroyFails: bool,
    secondDestroyFails: bool,
    reading: Option<Memory>)

  predicate Owns(x: Session) {
    x.startupLock || x.mainLock
  }

  predicate AllReady(slots: seq<Slot>) {
    forall k :: 0 <= k < |slots| ==> slots[k].ready
  }

  // ---------- the Main Decoder graph set ----------

  function RecordWarmup(main: seq<Slot>, k: nat, context: nat): (seq<Slot>, Answer)
    requires |main| == 2
  {
    if k >= 2 || context == 0 then (main, Refused)
    else if main[k].warmed || main[k].ready then (main, Refused)
    else if context == main[1 - k].identity then (main, Refused)
    else (main[k := Slot(true, context, main[k].ready)], Done)
  }

  function CaptureSlot(main: seq<Slot>, k: nat, context: nat, fails: bool): (seq<Slot>, Answer)
    requires |main| == 2
  {
    if k >= 2 || !main[k].warmed then (main, Refused)
    else if context == 0 || context != main[k].identity then (main, Refused)
    else if main[k].ready then (main, Refused)
    else if fails then (main, CudaFailed)
    else (main[k := main[k].(ready := true)], Done)
  }

  /** Destroys the two graphs in turn; identities and warm-ups go only if both succeed. */
  function ResetChecked(main: seq<Slot>, fails: bool, secondFails: bool): (seq<Slot>, Answer)
    requires |main| == 2
  {
    if main[0].ready && fails then (main, CudaFailed)
    else if main[1].ready && secondFails then
      (main[0 := main[0].(ready := false)], CudaFailed)
    else ([VACANT, VACANT], Done)
  }

  // ---------- the calls ----------

  function Begin(x: Session, locked: bool, env: Env): (Session, bool, Answer) {
    if x.startupPending || x.accounted || x.startupLock then (x, locked, Refused)
    else if Owns(x) then (x, locked, SelfDeadlock)
    else if locked then (x, locked, Waiting)
    else if env.lockFails then (x, locked, LockFailed)
    else
      var y := x.(startupLock := true);
      if env.watermarkFails || env.reading.None? then (y, true, CudaFailed)
      else (y.(baseline := env.reading.value, startupPending := true), true, Done)
  }

  function CaptureLocal(x: Session, env: Env): (Session, Answer) {
    if !x.startupPending || x.accounted then (x, Refused)
    else if env.syncFails then (x, CudaFailed)
    else if x.localReady then (x, Refused)
    else if env.captureFails then (x, CudaFailed)
    else (x.(localReady := true), if env.lateSyncFails then CudaFailed else Done)
  }

  function ContextOf(contexts: seq<nat>, k: nat): nat {
    if k < |contexts| then contexts[k] else 0
  }

  predicate Bound(slots: seq<Slot>, context: nat) {
    exists j :: 0 <= j < |slots| && slots[j].identity == context
  }

  /** Place 0 is the initial graph, 1 and 2 the two steady directions. */
  function CaptureCodec(x: Session, k: nat, env: Env): (Session, Answer)
    requires |x.codec| == 3
  {
    var context := ContextOf(x.codecContexts, k);
    if !x.startupPending || x.accounted then (x, Refused)
    else if env.syncFails then (x, CudaFailed)
    else if k >= 3 || context == 0 || Bound(x.codec, context) then (x, Refused)
    else if x.codec[k].ready then (x, Refused)
    else if env.captureFails then (x, CudaFailed)
    else
      (x.(codec := x.codec[k := Slot(false, context, true)]),
       if env.lateSyncFails then CudaFailed else Done)
  }

  function BeginRequest(x: Session, env: Env): (Session, Answer)
    requires |x.main| == 2
  {
    if x.mainPending then (x, Refused)
    else
      var (main, answer) := ResetChecked(x.main, env.destroyFails, env.secondDestroyFails);
      (x.(main := main, unmeasured := x.unmeasured && answer != Done), answer)
  }

  function WarmUp(x: Session, k: nat): (Session, Answer)
    requires |x.main| == 2
  {
    var (main, answer) := RecordWarmup(x.main, k, ContextOf(x.contexts, k));
    (x.(main := main), answer)
  }

  /** Opens the accounting scope of a request's first capture: inside startup's, or its own. */
  function OpenScope(x: Session, locked: bool, env: Env): (Session, bool, Answer) {
    if x.mainPending then (x, locked, Done)
    else if AllReady(x.main) then (x, locked, Refused)
    else if x.startupPending && !x.accounted then
      (x.(usesStartup := true, mainPending := true), locked, Done)
    else if !x.accounted then (x.(usesStartup := false), locked, Refused)
    else if Owns(x) then (x, locked, SelfDeadlock)
    else if locked then (x, locked, Waiting)
    else
      var y := x.(usesStartup := false, mainPending := true);
      if env.lockFails then (y, locked, LockFailed)
      else (y.(mainLock := true), true, if env.watermarkFails then CudaFailed else Done)
  }

  function CaptureMain(x: Session, locked: bool, k: nat, env: Env): (Session, bool, Answer)
    requires |x.main| == 2
  {
    var (y, held, answer) := OpenScope(x, locked, env);
    if answer != Done then (y, held, answer)
    else
      var (main, captured) := CaptureSlot(y.main, k, ContextOf(x.contexts, k), env.captureFails);
      (y.(main := main, unmeasured := y.unmeasured || captured == Done), held, captured)
  }

  /** The measurement that closes a request's own accounting scope. */
  function Settle(x: Session, locked: bool, env: Env): (Session, bool, Answer) {
    if env.syncFails || env.reading.None? then (x, locked, CudaFailed)
    else
      var observed := Growth(x.baseline, env.reading.value);
      if !FitsBudget(x.limit, x.explicit, observed) then (x, locked, OverBudget)
      else
        (x.(graphBytes := Max(x.graphBytes, observed), mainPending := false, mainLock := false,
            unmeasured := false),
         locked && !x.mainLock, if x.mainLock then Done else LockFailed)
  }

  /** Launches a graph; the launch that finds both graphs ready and the scope open settles it. */
  function LaunchMain(x: Session, locked: bool, k: nat, env: Env): (Session, bool, Answer)
    requires |x.main| == 2
  {
    if k >= 2 || !x.main[k].ready then (x, locked, Refused)
    else if env.launchFails then (x, locked, CudaFailed)
    else if !AllReady(x.main) || !x.mainPending then (x, locked, Done)
    else if x.usesStartup then
      (x.(mainPending := false, usesStartup := false), locked, Done)
    else Settle(x, locked, env)
  }

  function Abort(x: Session, locked: bool): (Session, bool) {
    if !x.mainPending then (x, locked)
    else
      (x.(main := [VACANT, VACANT], mainPending := false, usesStartup := false, mainLock := false,
          unmeasured := false),
       locked && !x.mainLock)
  }

  function Finalize(x: Session, locked: bool, env: Env): (Session, bool, Answer) {
    if !AllReady(x.main) || !x.localReady || !AllReady(x.codec) || x.mainPending
       || !x.startupPending || x.accounted then (x, locked, Refused)
    else if env.syncFails || env.reading.None? then (x, locked, CudaFailed)
    else
      var y := x.(graphBytes := Growth(x.baseline, env.reading.value), unmeasured := false);
      if !FitsBudget(x.limit, x.explicit, y.graphBytes) then (y, locked, OverBudget)
      else
        (y.(startupPending := false, accounted := true, startupLock := false),
         locked && !x.startupLock, if x.startupLock then Done else LockFailed)
  }

  // ---------- any call ----------

  datatype Op =
    | BeginOp
    | CaptureLocalOp
    | CaptureCodecOp(k: nat)
    | BeginRequestOp
    | WarmUpOp(k: nat)
    | CaptureMainOp(k: nat)
    | LaunchMainOp(k: nat)
    | AbortOp
    | FinalizeOp

  function Call(x: Session, locked: bool, op: Op, env: Env): (Session, bool, Answer)
    requires |x.main| == 2 && |x.codec| == 3
  {
    match op
    case BeginOp => Begin(x, locked, env)
    case CaptureLocalOp => var (y, answer) := CaptureLocal(x, env); (y, locked, answer)
    case CaptureCodecOp(k) => var (y, answer) := CaptureCodec(x, k, env); (y, locked, answer)
    case BeginRequestOp => var (y, answer) := BeginRequest(x, env); (y, locked, answer)
    case WarmUpOp(k) => var (y, answer) := WarmUp(x, k); (y, locked, answer)
    case CaptureMainOp(k) => CaptureMain(x, locked, k, env)
    case LaunchMainOp(k) => LaunchMain(x, locked, k, env)
    case AbortOp => var (y, held) := Abort(x, locked); (y, held, Done)
    case FinalizeOp => Finalize(x, locked, env)
  }
}
