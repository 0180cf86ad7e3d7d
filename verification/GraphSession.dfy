/** The session object that captures, launches and accounts for its CUDA graphs, and the graph set
    of the two Main Decoder directions, updated in place. */
module GraphSession {
  import opened GraphAccounting

  /** The process-wide accounting mutex. */
  class AccountingMutex {
    var locked: bool

    constructor ()
      ensures !locked
    {
      locked := false;
    }
  }

  class MainDecoderCudaGraphSet {
    const warmed: array<bool>
    const identities: array<nat>
    const graphs: array<bool>

    ghost predicate Valid()
      reads this
    {
      warmed.Length == 2 && identities.Length == 2 && graphs.Length == 2 && warmed != graphs
    }

    ghost function Model(): (slots: seq<Slot>)
      requires Valid()
      reads this, warmed, identities, graphs
      ensures |slots| == 2
    {
      [Slot(warmed[0], identities[0], graphs[0]), Slot(warmed[1], identities[1], graphs[1])]
    }

    constructor ()
      ensures Valid() && Model() == [VACANT, VACANT]
      ensures fresh(warmed) && fresh(identities) && fresh(graphs)
    {
      warmed := new bool[2](_ => false);
      identities := new nat[2](_ => 0);
      graphs := new bool[2](_ => false);
    }

    method Ready() returns (ready: bool)
      requires Valid()
      ensures ready == AllReady(Model())
    {
      ready := graphs[0] && graphs[1];
      assert Model()[0].ready == graphs[0] && Model()[1].ready == graphs[1];
    }

    method RecordEagerWarmup(k: nat, context: nat) returns (answer: Answer)
      requires Valid()
      modifies warmed, identities
      ensures (Model(), answer) == RecordWarmup(old(Model()), k, context)
    {
      if k >= 2 {
        return Refused;
      }
      if context == 0 {
        return Refused;
      }
      if warmed[k] || graphs[k] {
        return Refused;
      }
      var other := 1 - k;
      if context == identities[other] {
        return Refused;
      }
      identities[k] := context;
      warmed[k] := true;
      assert Model() == old(Model())[k := Slot(true, context, graphs[k])];
      return Done;
    }

    method Capture(k: nat, context: nat, fails: bool) returns (answer: Answer)
      requires Valid()
      modifies graphs
      ensures (Model(), answer) == CaptureSlot(old(Model()), k, context, fails)
    {
      if k >= 2 {
        return Refused;
      }
      if !warmed[k] {
        return Refused;
      }
      if context == 0 || context != identities[k] {
        return Refused;
      }
      if graphs[k] {
        return Refused;
      }
      if fails {
        return CudaFailed;
      }
      graphs[k] := true;
      assert Model() == old(Model())[k := old(Model())[k].(ready := true)];
      return Done;
    }

    method Clear()
      requires Valid()
      modifies warmed, identities
      ensures Model() == [Slot(false, 0, graphs[0]), Slot(false, 0, graphs[1])]
    {
      identities[0], identities[1] := 0, 0;
      warmed[0], warmed[1] := false, false;
    }

    method Reset()
      requires Valid()
      modifies warmed, identities, graphs
      ensures Model() == [VACANT, VACANT]
    {
      graphs[0], graphs[1] := false, false;
      Clear();
    }

    /** Destroys the graphs in order and stops at the first that cannot be destroyed. */
    method ResetChecked(fails: bool, secondFails: bool) returns (answer: Answer)
      requires Valid()
      modifies warmed, identities, graphs
      ensures (Model(), answer) == GraphAccounting.ResetChecked(old(Model()), fails, secondFails)
    {
      var i := 0;
      while i < 2
        invariant 0 <= i <= 2
        invariant forall k :: i <= k < 2 ==> graphs[k] == old(graphs[k])
        invariant forall k :: 0 <= k < i ==> !graphs[k]
        invariant i > 0 ==> !(old(graphs[0]) && fails)
        invariant i > 1 ==> !(old(graphs[1]) && secondFails)
        invariant warmed[0] == old(warmed[0]) && warmed[1] == old(warmed[1])
        invariant identities[0] == old(identities[0]) && identities[1] == old(identities[1])
      {
        if graphs[i] && (if i == 0 then fails else secondFails) {
          assert Model() == GraphAccounting.ResetChecked(old(Model()), fails, secondFails).0;
          return CudaFailed;
        }
        graphs[i] := false;
        i := i + 1;
      }
      Clear();
      return Done;
    }
  }

  class SessionResources {
    const limit: nat
    const explicit: nat
    const contexts: seq<nat>
    const codecContexts: seq<nat>
    const mutex: AccountingMutex
    const mainGraphs: MainDecoderCudaGraphSet
    var startupPending: bool
    var accounted: bool
    var startupLock: bool
    var mainPending: bool
    var usesStartup: bool
    var mainLock: bool
    var graphBytes: nat
    var baseline: Memory
    var localReady: bool
    var codec: seq<Slot>
    ghost var unmeasured: bool

    ghost predicate Valid()
      reads this, mainGraphs
    {
      mainGraphs.Valid() && |codec| == 3
    }

    ghost function Model(): (x: Session)
      requires Valid()
      reads this, mainGraphs, mainGraphs.warmed, mainGraphs.identities, mainGraphs.graphs
      ensures |x.main| == 2
    {
      Session(limit, explicit, contexts, codecContexts, startupPending, accounted, startupLock,
              mainPending, usesStartup, mainLock, graphBytes, baseline, mainGraphs.Model(),
              localReady, codec, unmeasured)
    }

    constructor (limit: nat, explicit: nat, contexts: seq<nat>, codecContexts: seq<nat>,
                 mutex: AccountingMutex)
      ensures Valid() && Model() == NewSession(limit, explicit, contexts, codecContexts)
      ensures this.mutex == mutex
    {
      this.limit, this.explicit := limit, explicit;
      this.contexts, this.codecContexts := contexts, codecContexts;
      this.mutex := mutex;
      startupPending, accounted, startupLock := false, false, false;
      mainPending, usesStartup, mainLock := false, false, false;
      graphBytes, baseline, localReady := 0, Memory(0, 0, 0, 0, 0), false;
      codec := [VACANT, VACANT, VACANT];
      unmeasured := false;
      mainGraphs := new MainDecoderCudaGraphSet();
    }

    method BeginCudaGraphMemoryAccounting(env: Env) returns (answer: Answer)
      requires Valid()
      modifies this, mutex
      ensures Valid()
      ensures (Model(), mutex.locked, answer) == Begin(old(Model()), old(mutex.locked), env)
    {
      if startupPending || accounted || startupLock {
        return Refused;
      }
      if mainLock {
        return SelfDeadlock;
      }
      if mutex.locked {
        return Waiting;
      }
      if env.lockFails {
        return LockFailed;
      }
      startupLock, mutex.locked := true, true;
      if env.watermarkFails {
        return CudaFailed;
      }
      if env.reading.None? {
        return CudaFailed;
      }
      baseline := env.reading.value;
      startupPending := true;
      return Done;
    }

    method CaptureLocalArGraph(env: Env) returns (answer: Answer)
      requires Valid()
      modifies this
      ensures Valid() && (Model(), answer) == CaptureLocal(old(Model()), env)
    {
      if !startupPending || accounted {
        return Refused;
      }
      if env.syncFails {
        return CudaFailed;
      }
      if localReady {
        return Refused;
      }
      if env.captureFails {
        return CudaFailed;
      }
      localReady := true;
      return if env.lateSyncFails then CudaFailed else Done;
    }

    method CaptureNanoCodecGraph(k: nat, env: Env) returns (answer: Answer)
      requires Valid()
      modifies this
      ensures Valid() && (Model(), answer) == CaptureCodec(old(Model()), k, env)
    {
      if !startupPending || accounted {
        return Refused;
      }
      if env.syncFails {
        return CudaFailed;
      }
      var context := ContextOf(codecContexts, k);
      if k >= 3 || context == 0 {
        return Refused;
      }
      var j := 0;
      while j < 3
        invariant 0 <= j <= 3
        invariant forall i :: 0 <= i < j ==> codec[i].identity != context
      {
        if codec[j].identity == context {
          assert Bound(codec, context);
          return Refused;
        }
        j := j + 1;
      }
      if codec[k].ready {
        return Refused;
      }
      if env.captureFails {
        return CudaFailed;
      }
      codec := codec[k := Slot(false, context, true)];
      return if env.lateSyncFails then CudaFailed else Done;
    }

    method BeginMainDecoderRequest(env: Env) returns (answer: Answer)
      requires Valid()
      modifies this, mainGraphs.warmed, mainGraphs.identities, mainGraphs.graphs
      ensures Valid() && (Model(), answer) == BeginRequest(old(Model()), env)
    {
      if mainPending {
        return Refused;
      }
      answer := mainGraphs.ResetChecked(env.destroyFails, env.secondDestroyFails);
      unmeasured := unmeasured && answer != Done;
    }

    method RecordMainDecoderEagerWarmup(k: nat) returns (answer: Answer)
      requires Valid()
      modifies mainGraphs.warmed, mainGraphs.identities
      ensures Valid() && (Model(), answer) == WarmUp(old(Model()), k)
    {
      answer := mainGraphs.RecordEagerWarmup(k, ContextOf(contexts, k));
    }

    method OpenMainScope(env: Env) returns (answer: Answer)
      requires Valid()
      modifies this, mutex
      ensures Valid()
      ensures (Model(), mutex.locked, answer) == OpenScope(old(Model()), old(mutex.locked), env)
    {
      if mainPending {
        return Done;
      }
      var ready := mainGraphs.Ready();
      if ready {
        return Refused;
      }
      if startupPending && !accounted {
        usesStartup, mainPending := true, true;
        return Done;
      }
      if !accounted {
        usesStartup := false;
        return Refused;
      }
      if startupLock || mainLock {
        return SelfDeadlock;
      }
      if mutex.locked {
        return Waiting;
      }
      usesStartup, mainPending := false, true;
      if env.lockFails {
        return LockFailed;
      }
      mainLock, mutex.locked := true, true;
      return if env.watermarkFails then CudaFailed else Done;
    }

    method CaptureMainDecoderGraph(k: nat, env: Env) returns (answer: Answer)
      requires Valid()
      modifies this, mutex, mainGraphs.graphs
      ensures Valid()
      ensures (Model(), mutex.locked, answer)
           == CaptureMain(old(Model()), old(mutex.locked), k, env)
    {
      answer := OpenMainScope(env);
      if answer == Done {
        answer := mainGraphs.Capture(k, ContextOf(contexts, k), env.captureFails);
        unmeasured := unmeasured || answer == Done;
      }
    }

    method LaunchMainDecoderGraph(k: nat, env: Env) returns (answer: Answer)
      requires Valid()
      modifies this, mutex
      ensures Valid()
      ensures (Model(), mutex.locked, answer)
           == LaunchMain(old(Model()), old(mutex.locked), k, env)
    {
      if k >= 2 || !mainGraphs.graphs[k] {
        return Refused;
      }
      if env.launchFails {
        return CudaFailed;
      }
      var ready := mainGraphs.Ready();
      if !ready || !mainPending {
        return Done;
      }
      if usesStartup {
        mainPending, usesStartup := false, false;
        return Done;
      }
      answer := MeasureMainDecoderGraphs(env);
    }

    /** The measurement that closes a request's own accounting scope. */
    method MeasureMainDecoderGraphs(env: Env) returns (answer: Answer)
      requires Valid()
      modifies this, mutex
      ensures Valid()
      ensures (Model(), mutex.locked, answer) == Settle(old(Model()), old(mutex.locked), env)
    {
      if env.syncFails || env.reading.None? {
        return CudaFailed;
      }
      var observed := Growth(baseline, env.reading.value);
      if !FitsBudget(limit, explicit, observed) {
        return OverBudget;
      }
      graphBytes := Max(graphBytes, observed);
      mainPending := false;
      unmeasured := false;
      if !mainLock {
        return LockFailed;
      }
      mainLock, mutex.locked := false, false;
      return Done;
    }

    method AbortMainDecoderRequest()
      requires Valid()
      modifies this, mutex, mainGraphs.warmed, mainGraphs.identities, mainGraphs.graphs
      ensures Valid() && (Model(), mutex.locked) == Abort(old(Model()), old(mutex.locked))
    {
      if !mainPending {
        return;
      }
      mainGraphs.Reset();
      mainPending, usesStartup, unmeasured := false, false, false;
      if mainLock {
        mainLock, mutex.locked := false, false;
      }
    }

    method FinalizeCudaGraphMemoryAccounting(env: Env) returns (answer: Answer)
      requires Valid()
      modifies this, mutex
      ensures Valid()
      ensures (Model(), mutex.locked, answer) == Finalize(old(Model()), old(mutex.locked), env)
    {
      var mainReady := mainGraphs.Ready();
      var codecReady := codec[0].ready && codec[1].ready && codec[2].ready;
      assert codecReady == AllReady(codec);
      if !mainReady || !localReady || !codecReady || mainPending || !startupPending || accounted {
        return Refused;
      }
      if env.syncFails || env.reading.None? {
        return CudaFailed;
      }
      graphBytes := Growth(baseline, env.reading.value);
      unmeasured := false;
      if !FitsBudget(limit, explicit, graphBytes) {
        return OverBudget;
      }
      answer := CloseStartup();
    }

    method CloseStartup() returns (answer: Answer)
      requires Valid()
      modifies this`startupPending, this`accounted, this`startupLock, mutex
      ensures Valid()
      ensures Model()
           == old(Model()).(startupPending := false, accounted := true, startupLock := false)
      ensures mutex.locked == (old(mutex.locked) && !old(startupLock))
      ensures answer == if old(startupLock) then Done else LockFailed
    {
      startupPending, accounted := false, true;
      if !startupLock {
        return LockFailed;
      }
      startupLock, mutex.locked := false, false;
      return Done;
    }
  }
}
