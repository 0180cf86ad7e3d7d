/** The startup gate: a producer thread that publishes and then reports that it is done, against
    the drain loop and the wrapper that joins the producer and picks the error to rethrow. */
module StartupDrain {
  import opened Request
  import opened RequestRuns
  import opened RequestGuarantees

  /** Where the draining thread stands. `Look` is one snapshot call and the test of what it saw;
      `Joining` waits for the producer; `Finished` has returned or thrown. */
  datatype Pc =
    | Look
    | Drain
    | GiveBack(id: nat)
    | Empty
    | Sleep
    | Joining
    | Finished(outcome: Exit)

  datatype Exit = Returned | ThrewDrainError | ThrewProducerError

  datatype Gate = Gate(
    w: World,
    producerDone: bool,
    producerError: bool,
    completionObserved: bool,
    drainError: bool,
    released: seq<nat>,
    pc: Pc)

  /** The producer publishes, or ends, possibly with an exception; the drain takes its next step,
      or throws. */
  datatype Act =
    | ProducerPublishes(c: Chunk)
    | ProducerEnds(failed: bool)
    | DrainActs
    | DrainThrows

  function Fresh(w: World): Gate {
    Gate(w, false, false, false, false, [], Look)
  }

  /** A failed drain cancels the request, then joins. */
  function Abandon(g: Gate): Gate {
    g.(drainError := true, w := Step(g.w, CancelOp), pc := Joining)
  }

  function DrainStep(g: Gate): Gate {
    match g.pc
    case Look => g.(pc := if g.w.s.queue != [] then Drain else Empty)
    case Drain =>
      var (_, _, r) := Acquire(g.w.s, g.w.next);
      if r.Err? then Abandon(g) else g.(w := Step(g.w, AcquireOp), pc := GiveBack(r.value.id))
    case GiveBack(id) =>
      if Release(g.w.s, id).1.Err? then Abandon(g)
      else g.(w := Step(g.w, ReleaseOp(id)), released := g.released + [id], pc := Look)
    case Empty =>
      if g.completionObserved then g.(pc := Joining)
      else if g.producerDone then g.(completionObserved := true, pc := Look)
      else g.(pc := Sleep)
    case Sleep => g.(pc := Look)  // notified or timed out
    case Joining =>
      if !g.producerDone then g
      else g.(pc := Finished(if g.drainError then ThrewDrainError
                             else if g.producerError then ThrewProducerError
                             else Returned))
    case Finished(_) => g
  }

  function Next(g: Gate, act: Act): Gate {
    match act
    case ProducerPublishes(c) => if g.producerDone then g else g.(w := Step(g.w, PublishOp(c)))
    case ProducerEnds(failed) =>
      if g.producerDone then g else g.(producerDone := true, producerError := failed)
    case DrainActs => DrainStep(g)
    case DrainThrows => if g.pc.Joining? || g.pc.Finished? then g else Abandon(g)
  }

  function Execute(g: Gate, acts: seq<Act>): Gate
    decreases |acts|
  {
    if acts == [] then g else Execute(Next(g, acts[0]), acts[1..])
  }

  function Ids(leases: seq<Lease>): seq<nat> {
    seq(|leases|, i requires 0 <= i < |leases| => leases[i].id)
  }

  /** What holds while the drain has not failed. */
  predicate Orderly(g: Gate) {
    && !g.w.s.cancelRequested && g.w.s.phase != Failed && g.w.s.phase != Cancelled
    && (g.completionObserved ==> g.producerDone)
    && (g.pc == Drain ==> g.w.s.queue != [])
    && (g.completionObserved && (g.pc == Empty || g.pc == Joining || g.pc.Finished?) ==>
          g.w.s.queue == [])
    && (g.pc == Joining || g.pc.Finished? ==> g.completionObserved)
    && (if g.pc.GiveBack? then
          && g.w.s.leases.Keys == {g.pc.id}
          && |g.w.acquired| > 0
          && g.pc.id == g.w.acquired[|g.w.acquired| - 1].id
          && g.released == Ids(g.w.acquired[..|g.w.acquired| - 1])
        else
          && g.w.s.leases == map[]
          && g.released == Ids(g.w.acquired))
  }

  /** What holds of the gate besides its request. */
  predicate Placed(g: Gate) {
    && (!g.drainError ==> Orderly(g))
    && (g.drainError ==> g.w.s.cancelRequested || g.w.s.phase != Running)
    && (g.drainError ==> g.pc == Joining || g.pc.Finished?)
    && (g.pc.Finished? ==>
          && g.producerDone
          && (g.pc.outcome == ThrewDrainError <==> g.drainError)
          && (g.pc.outcome == ThrewProducerError <==> !g.drainError && g.producerError))
  }

  ghost predicate GateInv(g: Gate) {
    Inv(g.w) && Placed(g)
  }

  // What each step does to the request.

  lemma QuietWorld(g: Gate)
    requires g.pc != Drain && !g.pc.GiveBack?
    ensures DrainStep(g).w == g.w
  {
  }

  lemma AcquireWorld(g: Gate)
    requires g.pc == Drain && Acquire(g.w.s, g.w.next).2.Ok?
    ensures DrainStep(g).w == Step(g.w, AcquireOp)
  {
  }

  lemma ReleaseWorld(g: Gate)
    requires g.pc.GiveBack? && Release(g.w.s, g.pc.id).1.Ok?
    ensures DrainStep(g).w == Step(g.w, ReleaseOp(g.pc.id))
  {
  }

  lemma EndsWorld(g: Gate, failed: bool)
    ensures Next(g, ProducerEnds(failed)).w == g.w
  {
  }

  lemma AbandonInv(g: Gate)
    requires GateInv(g) && !g.drainError && !g.pc.Finished?
    ensures GateInv(Abandon(g))
  {
    StepInv(g.w, CancelOp);
    CancelPlaced(g);
    assert Abandon(g).w == Step(g.w, CancelOp);
  }

  lemma CancelPlaced(g: Gate)
    requires StateInv(g.w.s) && !g.drainError && !g.pc.Finished?
    ensures Placed(Abandon(g))
  {
    DiscardExact(g.w.s.queue, g.w.s.occupied);
  }

  lemma PublishKeeps(g: Gate, c: Chunk)
    requires GateInv(g) && !g.producerDone
    ensures GateInv(Next(g, ProducerPublishes(c)))
  {
    StepInv(g.w, PublishOp(c));
    PublishPlaced(g, c);
    assert Next(g, ProducerPublishes(c)).w == Step(g.w, PublishOp(c));
  }

  lemma PublishPlaced(g: Gate, c: Chunk)
    requires Placed(g) && !g.producerDone
    ensures Placed(Next(g, ProducerPublishes(c)))
  {
    PublishOnlyAppends(g.w, c);
  }

  lemma PublishOnlyAppends(w: World, c: Chunk)
    ensures var v := Step(w, PublishOp(c));
            && v.s.cancelRequested == w.s.cancelRequested
            && v.s.leases == w.s.leases && v.acquired == w.acquired
            && (v.s.phase == w.s.phase || v.s.phase == Completed)
            && w.s.queue <= v.s.queue
            && (w.s.phase != Running ==> v.s.phase == w.s.phase)
  {
  }

  lemma AcquireOrderly(g: Gate)
    requires Orderly(g) && g.pc == Drain && Acquire(g.w.s, g.w.next).2.Ok?
    ensures Orderly(DrainStep(g))
  {
    var v := Step(g.w, AcquireOp);
    assert v.acquired[..|v.acquired| - 1] == g.w.acquired;
  }

  lemma AcquirePlaced(g: Gate)
    requires Placed(g) && !g.drainError && g.pc == Drain && Acquire(g.w.s, g.w.next).2.Ok?
    ensures Placed(DrainStep(g))
  {
    AcquireOrderly(g);
  }

  lemma AcquireKeeps(g: Gate)
    requires GateInv(g) && !g.drainError && g.pc == Drain
    requires Acquire(g.w.s, g.w.next).2.Ok?
    ensures GateInv(DrainStep(g))
  {
    AcquirePlaced(g);
    StepInv(g.w, AcquireOp);
    AcquireWorld(g);
  }

  lemma ReleaseOrderly(g: Gate)
    requires Orderly(g) && g.pc.GiveBack? && Release(g.w.s, g.pc.id).1.Ok?
    ensures Orderly(DrainStep(g))
  {
    var n := |g.w.acquired| - 1;
    assert g.w.s.leases - {g.pc.id} == map[];
    assert Ids(g.w.acquired) == Ids(g.w.acquired[..n]) + [g.pc.id];
  }

  lemma ReleasePlaced(g: Gate)
    requires Placed(g) && !g.drainError && g.pc.GiveBack? && Release(g.w.s, g.pc.id).1.Ok?
    ensures Placed(DrainStep(g))
  {
    ReleaseOrderly(g);
  }

  lemma ReleaseKeeps(g: Gate)
    requires GateInv(g) && !g.drainError && g.pc.GiveBack?
    requires Release(g.w.s, g.pc.id).1.Ok?
    ensures GateInv(DrainStep(g))
  {
    ReleasePlaced(g);
    StepInv(g.w, ReleaseOp(g.pc.id));
    ReleaseWorld(g);
  }

  /** The steps that only move the draining thread along. */
  lemma QuietKeeps(g: Gate)
    requires GateInv(g) && g.pc != Drain && !g.pc.GiveBack?
    ensures GateInv(DrainStep(g))
  {
    QuietPlaced(g);
    QuietWorld(g);
  }

  lemma QuietPlaced(g: Gate)
    requires Placed(g) && g.pc != Drain && !g.pc.GiveBack?
    ensures Placed(DrainStep(g))
  {
  }

  lemma DrainKeeps(g: Gate)
    requires GateInv(g)
    ensures GateInv(DrainStep(g))
  {
    if g.pc == Drain {
      if Acquire(g.w.s, g.w.next).2.Ok? {
        AcquireKeeps(g);
      } else {
        AbandonInv(g);
      }
    } else if g.pc.GiveBack? {
      if Release(g.w.s, g.pc.id).1.Ok? {
        ReleaseKeeps(g);
      } else {
        AbandonInv(g);
      }
    } else {
      QuietKeeps(g);
    }
  }

  lemma EndsKeeps(g: Gate, failed: bool)
    requires GateInv(g)
    ensures GateInv(Next(g, ProducerEnds(failed)))
  {
    EndsPlaced(g, failed);
    EndsWorld(g, failed);
  }

  lemma EndsPlaced(g: Gate, failed: bool)
    requires Placed(g)
    ensures Placed(Next(g, ProducerEnds(failed)))
  {
  }

  lemma NextInv(g: Gate, act: Act)
    requires GateInv(g)
    ensures GateInv(Next(g, act))
  {
    match act
    case ProducerPublishes(c) =>
      if !g.producerDone {
        PublishKeeps(g, c);
      }
    case ProducerEnds(failed) => EndsKeeps(g, failed);
    case DrainThrows =>
      if !g.pc.Joining? && !g.pc.Finished? {
        AbandonInv(g);
      }
    case DrainActs => DrainKeeps(g);
  }

  lemma {:induction false} ExecuteInv(g: Gate, acts: seq<Act>)
    requires GateInv(g)
    ensures GateInv(Execute(g, acts))
    decreases |acts|
  {
    if acts != [] {
      NextInv(g, acts[0]);
      ExecuteInv(Next(g, acts[0]), acts[1..]);
    }
  }

  /** Startup drain is complete. In every interleaving, the wrapper returns or throws only after
      its producer has ended; a drain error wins over a producer error; and without a drain error
      every published chunk has been acquired and released exactly once, in order, leaving the
      queue and the lease table empty. */
  lemma DrainComplete(tokenLimit: nat, capacity: nat, next: nat, acts: seq<Act>)
    requires Constructible(tokenLimit, capacity, next)
    ensures
      var g := Execute(Fresh(Start(tokenLimit, capacity, next)), acts);
      g.pc.Finished? ==>
        && g.producerDone
        && g.pc.outcome == (if g.drainError then ThrewDrainError
                            else if g.producerError then ThrewProducerError
                            else Returned)
        && (!g.drainError ==>
              && g.w.s.queue == [] && g.w.s.leases == map[] && g.w.s.occupied == 0
              && |g.w.acquired| == |g.w.published|
              && (forall i :: 0 <= i < |g.w.acquired| ==>
                    g.w.acquired[i].chunk == g.w.published[i])
              && g.released == Ids(g.w.acquired))
  {
    StartInv(tokenLimit, capacity, next);
    ExecuteInv(Fresh(Start(tokenLimit, capacity, next)), acts);
    var g := Execute(Fresh(Start(tokenLimit, capacity, next)), acts);
    if g.pc.Finished? && !g.drainError {
      FinishedMeansDrained(g);
    }
  }

  lemma FinishedMeansDrained(g: Gate)
    requires GateInv(g) && g.pc.Finished? && !g.drainError
    ensures g.w.s.queue == [] && g.w.s.leases == map[] && g.w.s.occupied == 0
    ensures |g.w.acquired| == |g.w.published|
    ensures forall i :: 0 <= i < |g.w.acquired| ==> g.w.acquired[i].chunk == g.w.published[i]
    ensures g.released == Ids(g.w.acquired)
  {
  }

  /** The drain itself can only fail by running out of lease identifiers. */
  lemma DrainFailsOnlyExhausted(g: Gate)
    requires GateInv(g) && !g.drainError
    ensures DrainStep(g).drainError ==> g.pc == Drain && g.w.next >= UINT64_MAX
  {
    NextLeaseFresh(g.w);
    HeldLeaseReleases(g);
    StepFails(g);
  }

  lemma HeldLeaseReleases(g: Gate)
    requires StateInv(g.w.s) && Orderly(g)
    ensures g.pc.GiveBack? ==> Release(g.w.s, g.pc.id).1.Ok?
  {
    if g.pc.GiveBack? {
      assert g.pc.id in g.w.s.leases;
      LeasedFramesRemove(g.w.s.leases, g.pc.id);
    }
  }

  lemma StepFails(g: Gate)
    requires !g.drainError && g.w.next !in g.w.s.leases && g.w.next > 0
    requires g.pc == Drain ==> g.w.s.queue != []
    requires g.pc.GiveBack? ==> Release(g.w.s, g.pc.id).1.Ok?
    ensures DrainStep(g).drainError ==> g.pc == Drain && g.w.next >= UINT64_MAX
  {
  }

  // ---------- termination ----------

  function Position(pc: Pc): nat {
    match pc
    case Sleep => 4
    case Look => 3
    case Drain => 2
    case Empty => 2
    case GiveBack(_) => 5
    case Joining => 1
    case Finished(_) => 0
  }

  /** Steps the drain still has to make once nothing more is published. */
  function Remaining(g: Gate): nat {
    6 * |g.w.s.queue| + Position(g.pc) + if g.completionObserved then 0 else 6
  }

  /** Once the producer is done, every step of an unfinished drain brings its end closer. */
  lemma DrainTerminates(g: Gate)
    requires g.producerDone && !g.pc.Finished? && (g.pc == Drain ==> g.w.s.queue != [])
    ensures DrainStep(g).producerDone
    ensures DrainStep(g).pc == Drain ==> DrainStep(g).w.s.queue != []
    ensures Remaining(DrainStep(g)) < Remaining(g)
  {
    if g.pc == Drain || g.pc.GiveBack? {
      CancelShortens(g.w);
      AudioStepShortens(g);
    }
  }

  /** Acquiring takes a chunk off the queue, releasing leaves it, abandoning cannot lengthen it. */
  lemma AudioStepShortens(g: Gate)
    requires (g.pc == Drain && g.w.s.queue != []) || g.pc.GiveBack?
    requires |Step(g.w, CancelOp).s.queue| <= |g.w.s.queue|
    ensures DrainStep(g).completionObserved == g.completionObserved
    ensures DrainStep(g).producerDone == g.producerDone
    ensures DrainStep(g).pc != Drain
    ensures Remaining(DrainStep(g)) < Remaining(g)
  {
    if g.pc == Drain {
      AcquireShortens(g);
    } else {
      ReleaseShortens(g);
    }
  }

  lemma AcquireShortens(g: Gate)
    requires g.pc == Drain && g.w.s.queue != []
    requires |Step(g.w, CancelOp).s.queue| <= |g.w.s.queue|
    ensures DrainStep(g).completionObserved == g.completionObserved
    ensures DrainStep(g).producerDone == g.producerDone
    ensures DrainStep(g).pc != Drain
    ensures Remaining(DrainStep(g)) < Remaining(g)
  {
    assert Acquire(g.w.s, g.w.next).2.Ok? ==>
        |Acquire(g.w.s, g.w.next).0.queue| == |g.w.s.queue| - 1;
  }

  lemma ReleaseShortens(g: Gate)
    requires g.pc.GiveBack?
    requires |Step(g.w, CancelOp).s.queue| <= |g.w.s.queue|
    ensures DrainStep(g).completionObserved == g.completionObserved
    ensures DrainStep(g).producerDone == g.producerDone
    ensures DrainStep(g).pc != Drain
    ensures Remaining(DrainStep(g)) < Remaining(g)
  {
  }

  lemma CancelShortens(w: World)
    ensures |Step(w, CancelOp).s.queue| <= |w.s.queue|
  {
  }

  // ---------- how every startup ends ----------

  function DrainSteps(n: nat): seq<Act> {
    seq(n, _ => DrainActs)
  }

  lemma {:induction false} FinishedStays(g: Gate, n: nat)
    requires g.pc.Finished?
    ensures Execute(g, DrainSteps(n)) == g
    decreases n
  {
    if n > 0 {
      assert DrainSteps(n)[1..] == DrainSteps(n - 1);
      FinishedStays(g, n - 1);
    }
  }

  /** The drain will run out of lease identifiers before it is through the queue. */
  predicate RunsOut(g: Gate) {
    g.drainError || g.w.next + |g.w.s.queue| > UINT64_MAX
  }

  lemma DrainStepCounts(g: Gate)
    requires GateInv(g) && g.w.next <= UINT64_MAX
    ensures DrainStep(g).w.next <= UINT64_MAX
    ensures RunsOut(DrainStep(g)) <==> RunsOut(g)
  {
    if g.pc == Drain {
      NextLeaseFresh(g.w);
      TakesOne(g);
    } else if g.pc.GiveBack? {
      HeldLeaseReleases(g);
      GivesBack(g);
    } else {
      QuietWorld(g);
      QuietError(g);
    }
  }

  lemma QuietError(g: Gate)
    requires g.pc != Drain && !g.pc.GiveBack?
    ensures DrainStep(g).drainError == g.drainError
  {
  }

  lemma TakesOne(g: Gate)
    requires g.pc == Drain && !g.drainError && g.w.s.queue != []
    requires g.w.next !in g.w.s.leases && 0 < g.w.next <= UINT64_MAX
    ensures
      var h := DrainStep(g);
      && h.w.next <= UINT64_MAX && (RunsOut(h) <==> RunsOut(g))
  {
  }

  lemma GivesBack(g: Gate)
    requires g.pc.GiveBack? && !g.drainError && Release(g.w.s, g.pc.id).1.Ok?
    ensures
      var h := DrainStep(g);
      && h.w.next == g.w.next && h.w.s.queue == g.w.s.queue && h.drainError == g.drainError
  {
  }

  lemma FirstDrainStep(g: Gate, n: nat)
    requires n > 0
    ensures Execute(g, DrainSteps(n)) == Execute(DrainStep(g), DrainSteps(n - 1))
  {
    assert DrainSteps(n)[1..] == DrainSteps(n - 1);
  }

  lemma {:induction false} DrainCounts(g: Gate, n: nat)
    requires GateInv(g) && g.w.next <= UINT64_MAX
    ensures RunsOut(Execute(g, DrainSteps(n))) <==> RunsOut(g)
    decreases n
  {
    if n > 0 {
      DrainStepCounts(g);
      DrainKeeps(g);
      FirstDrainStep(g, n);
      DrainCounts(DrainStep(g), n - 1);
    }
  }

  lemma ErrorKept(g: Gate)
    ensures DrainStep(g).producerError == g.producerError
  {
  }

  /** The drain's own steps reach the end. */
  lemma {:induction false} DrainReaches(g: Gate, n: nat)
    requires g.producerDone && (g.pc == Drain ==> g.w.s.queue != []) && n >= Remaining(g)
    ensures Execute(g, DrainSteps(n)).pc.Finished?
    ensures Execute(g, DrainSteps(n)).producerError == g.producerError
    decreases n
  {
    if g.pc.Finished? {
      FinishedStays(g, n);
    } else {
      DrainTerminates(g);
      ErrorKept(g);
      FirstDrainStep(g, n);
      DrainReaches(DrainStep(g), n - 1);
    }
  }

  lemma FinishedQueue(g: Gate)
    requires GateInv(g) && g.pc.Finished? && g.w.next <= UINT64_MAX
    ensures g.drainError <==> RunsOut(g)
  {
  }

  lemma {:induction false} NextBounded(g: Gate, acts: seq<Act>)
    requires g.w.next <= UINT64_MAX
    ensures Execute(g, acts).w.next <= UINT64_MAX
    decreases |acts|
  {
    if acts != [] {
      StepBounded(g, acts[0]);
      NextBounded(Next(g, acts[0]), acts[1..]);
    }
  }

  lemma StepBounded(g: Gate, act: Act)
    requires g.w.next <= UINT64_MAX
    ensures Next(g, act).w.next <= UINT64_MAX
  {
  }

  lemma {:induction false} NotDoneYet(g: Gate, acts: seq<Act>)
    requires !g.producerDone && forall k :: 0 <= k < |acts| ==> !acts[k].ProducerEnds?
    ensures !Execute(g, acts).producerDone
    decreases |acts|
  {
    if acts != [] {
      NotDoneYet(Next(g, acts[0]), acts[1..]);
    }
  }

  /** Every startup ends. Whatever producer and drain did so far, once the producer ends, with or
      without an error, the drain's own steps finish the wrapper; it reports a drain error exactly if
      there was one or the identifiers do not reach through the queue, else the producer's error
      exactly if there is one, and else it returns. */
  lemma StartupEnds(tokenLimit: nat, capacity: nat, next: nat, acts: seq<Act>, failed: bool,
                    n: nat)
    requires Constructible(tokenLimit, capacity, next) && next <= UINT64_MAX
    requires forall k :: 0 <= k < |acts| ==> !acts[k].ProducerEnds?
    requires
      n >= Remaining(Execute(Fresh(Start(tokenLimit, capacity, next)), acts))
    ensures
      var g := Execute(Fresh(Start(tokenLimit, capacity, next)), acts);
      var end := Execute(Next(g, ProducerEnds(failed)), DrainSteps(n));
      && end.pc.Finished?
      && end.pc.outcome == (if RunsOut(g) then ThrewDrainError
                            else if failed then ThrewProducerError else Returned)
  {
    var start := Fresh(Start(tokenLimit, capacity, next));
    var g := Execute(start, acts);
    StartInv(tokenLimit, capacity, next);
    ExecuteInv(start, acts);
    NextBounded(start, acts);
    NotDoneYet(start, acts);
    EndsKeeps(g, failed);
    var ended := Next(g, ProducerEnds(failed));
    assert ended == g.(producerDone := true, producerError := failed);
    DrainHasAudio(g);
    DrainReaches(ended, n);
    DrainCounts(ended, n);
    ExecuteInv(ended, DrainSteps(n));
    NextBounded(ended, DrainSteps(n));
    FinishedQueue(Execute(ended, DrainSteps(n)));
    OutcomeOf(Execute(ended, DrainSteps(n)));
  }

  lemma DrainHasAudio(g: Gate)
    requires Placed(g)
    ensures g.pc == Drain ==> g.w.s.queue != []
  {
  }

  lemma OutcomeOf(g: Gate)
    requires GateInv(g) && g.pc.Finished?
    ensures g.pc.outcome == (if g.drainError then ThrewDrainError
                             else if g.producerError then ThrewProducerError else Returned)
  {
  }

  /** A drain that throws cancels the request it was draining, and its error is then certain. */
  lemma ThrowCancels(g: Gate)
    requires GateInv(g) && g.pc != Joining && !g.pc.Finished?
    ensures
      var h := Next(g, DrainThrows);
      && h.pc == Joining && RunsOut(h)
      && (g.w.s.phase == Running ==> h.w.s.cancelRequested && h.w.s.queue == [])
      && h.w.published == g.w.published && h.w.acquired == g.w.acquired
  {
    DiscardExact(g.w.s.queue, g.w.s.occupied);
  }
}
