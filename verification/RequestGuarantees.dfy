/** What every run of a request guarantees to its producer, its consumer and its canceller. */
module RequestGuarantees {
  import opened Request
  import opened RequestRuns

  /** The parameters a request may be constructed with. */
  predicate Constructible(tokenLimit: nat, capacity: nat, next: nat) {
    tokenLimit > 0 && STEADY_FRAMES <= capacity < UINT32 && next > 0
  }

  lemma ReachableInv(tokenLimit: nat, capacity: nat, next: nat, ops: seq<Op>)
    requires Constructible(tokenLimit, capacity, next)
    ensures Inv(Run(Start(tokenLimit, capacity, next), ops))
  {
    StartInv(tokenLimit, capacity, next);
    RunInv(Start(tokenLimit, capacity, next), ops);
  }

  // ---------- ring conservation ----------

  /** Queued chunks but the last carry at least four frames each. */
  lemma {:induction false} QueueFrames(p: seq<Chunk>, from: nat, limit: nat)
    requires StreamOk(p, limit) && from <= |p|
    ensures Frames(p[from..]) >= INITIAL_FRAMES * (|p| - from) - INITIAL_FRAMES
    decreases |p| - from
  {
    var n := |p|;
    if from < n {
      var q := p[..n - 1];
      assert p[from..] == q[from..] + [p[n - 1]];
      FramesAppend(q[from..], p[n - 1]);
      SteadyFrames(q, from, limit);
    }
  }

  lemma {:induction false} SteadyFrames(p: seq<Chunk>, from: nat, limit: nat)
    requires StreamOk(p, limit) && from <= |p| && !Closed(p)
    ensures Frames(p[from..]) >= INITIAL_FRAMES * (|p| - from)
    decreases |p| - from
  {
    var n := |p|;
    if from < n {
      var q := p[..n - 1];
      assert p[from..] == q[from..] + [p[n - 1]];
      FramesAppend(q[from..], p[n - 1]);
      SteadyFrames(q, from, limit);
    }
  }

  /** In every reachable state the occupied frames are exactly the queued and leased ones and fit
      the ring; no accounting failure is reachable; and an idle ring takes any decoded chunk. */
  lemma RingConservation(tokenLimit: nat, capacity: nat, next: nat, ops: seq<Op>)
    requires Constructible(tokenLimit, capacity, next)
    ensures
      var w := Run(Start(tokenLimit, capacity, next), ops);
      && w.s.occupied == Frames(w.s.queue) + LeasedFrames(w.s.leases) <= w.s.capacity == capacity
      && Discard(w.s).1
      && (forall id :: id in w.s.leases ==> Release(w.s, id).1.Ok?)
      && (Acquire(w.s, w.next).2.Ok? <==> w.s.queue != [] && w.next < UINT64_MAX)
      && TakeSnapshot(w.s).Ok?
      && (w.s.queue == [] && w.s.leases == map[] && w.s.phase == Running && !w.s.cancelRequested
          ==> forall n :: 1 <= n <= STEADY_FRAMES ==> CanPublish(w.s, n))
  {
    var w := Run(Start(tokenLimit, capacity, next), ops);
    ReachableInv(tokenLimit, capacity, next, ops);
    ParametersFixed(Start(tokenLimit, capacity, next), ops);
    NextLeaseFresh(w);
    QueueCounted(w.s, w.published, |w.acquired|);
    RingOk(w.s);
    AcquireOk(w.s, w.next);
  }

  /** The ring bounds the number of queued chunks. */
  lemma QueueCounted(s: State, p: seq<Chunk>, n: nat)
    requires Frames(s.queue) <= s.capacity < UINT32
    requires StreamOk(p, s.tokenLimit) && n <= |p|
    requires s.queue == [] || s.queue == p[n..]
    ensures TakeSnapshot(s).Ok?
  {
    if s.queue != [] {
      QueueFrames(p, n, s.tokenLimit);
    }
  }

  lemma RingOk(s: State)
    requires StateInv(s)
    ensures Discard(s).1
    ensures forall id :: id in s.leases ==> Release(s, id).1.Ok?
    ensures s.queue == [] && s.leases == map[] && s.phase == Running && !s.cancelRequested
            ==> forall n :: 1 <= n <= STEADY_FRAMES ==> CanPublish(s, n)
  {
    DiscardExact(s.queue, s.occupied);
    forall id | id in s.leases ensures Release(s, id).1.Ok? {
      LeasedFramesRemove(s.leases, id);
    }
  }

  lemma AcquireOk(s: State, next: nat)
    requires next !in s.leases && next > 0
    ensures Acquire(s, next).2.Ok? <==> s.queue != [] && next < UINT64_MAX
  {
  }

  lemma {:induction false} ParametersFixed(w: World, ops: seq<Op>)
    ensures Run(w, ops).s.capacity == w.s.capacity
    ensures Run(w, ops).s.tokenLimit == w.s.tokenLimit
    decreases |ops|
  {
    if ops != [] {
      ParametersFixed(Step(w, ops[0]), ops[1..]);
    }
  }

  // ---------- what publication accepts ----------

  /** Publication accepts a chunk exactly when nobody has cancelled, the ring has room for it, and
      the published stream is still a legal one with it; the chunk is then its last. Anything else
      leaves the request as it was, silently after a cancellation and with an error otherwise. */
  lemma PublicationExact(w: World, c: Chunk)
    requires Inv(w)
    ensures
      var (s, r) := Publish(w.s, c);
      && (r == Ok(true)
          <==> && !w.s.cancelRequested && w.s.phase != Failed
               && StreamOk(w.published + [c], w.s.tokenLimit)
               && w.s.occupied + c.frames <= w.s.capacity)
      && (r == Ok(false) <==> w.s.cancelRequested)
      && (if r == Ok(true) then
            Step(w, PublishOp(c)).published == w.published + [c] && s.queue == w.s.queue + [c]
          else s == w.s)
  {
    VerdictMeansAdmissible(w.s, c);
    ExtensionExact(w.published, c, w.s.tokenLimit);
  }

  /** A longer stream is legal exactly when its last chunk is admissible behind an open one. */
  lemma ExtensionExact(p: seq<Chunk>, c: Chunk, limit: nat)
    requires StreamOk(p, limit)
    ensures StreamOk(p + [c], limit)
       <==> !Closed(p) && Admissible(c, |p|, EndOf(p), CommittedAfter(p), limit)
  {
    assert (p + [c])[..|p|] == p;
    if !Closed(p) {
      OpenStreamEnd(p, limit);
    }
  }

  /** Which fault a refusal names: the end of the request, then the chunk's shape, then the ring,
      then its text progress, event by event. Back-pressure is only reported for well-shaped chunks
      of a running request, whatever their events. */
  lemma RefusalNamesFirstFault(s: State, c: Chunk)
    ensures
      var shaped := ShapeOk(c, s.nextSequence, s.nextSample);
      var v := Verdict(s, c);
      && (v == Err(InvalidTransition, -1) <==> s.phase != Running)
      && (v == Err(Backpressure, -1)
          <==> s.phase == Running && shaped && c.frames > FreeFrames(s))
      && (v.Err? ==>
            v == Err(InvalidTransition, -1) || v == Err(Backpressure, -1)
            || (v.code == InvalidAudioChunk && v.eventIndex >= -1))
      && (v.Err? && v.eventIndex >= 0
          <==> && s.phase == Running && shaped && c.frames <= FreeFrames(s)
               && ProgressOk(c, s.committed, s.tokenLimit)
               && !EventsOk(c, s.committed, s.tokenLimit))
      && (v.Err? && v.eventIndex >= 0 ==>
            && v.eventIndex < |c.events|
            && !EventOk(c, v.eventIndex, s.committed, s.tokenLimit)
            && forall j :: 0 <= j < v.eventIndex ==> EventOk(c, j, s.committed, s.tokenLimit))
  {
    var bad := FirstBadEvent(c, 0, s.committed, s.tokenLimit);
    if bad < |c.events| {
      assert !EventOk(c, bad, s.committed, s.tokenLimit);
    } else {
      assert EventsOk(c, s.committed, s.tokenLimit);
    }
  }

  /** The producer's question is answered exactly: there is room for at least one and at most the free
      frames, on a running request that nobody has cancelled. */
  lemma CanPublishExact(s: State, frames: nat)
    requires StateInv(s)
    ensures CanPublish(s, frames) <==>
            && s.phase == Running && !s.cancelRequested
            && 1 <= frames && s.occupied + frames <= s.capacity
    ensures CancellationRequested(s) ==> !CanPublish(s, frames)
  {
  }

  /** A lease is given back once: it and exactly its frames go, nothing else changes, and from then on
      it is as unknown as one that was never handed out. */
  lemma ReleaseExact(w: World, id: nat, ops: seq<Op>)
    requires Inv(w)
    ensures
      var (s, r) := Release(w.s, id);
      if id in w.s.leases then
        && r == Ok(()) && s.leases == w.s.leases - {id} && s.queue == w.s.queue
        && s.occupied + w.s.leases[id].frames == w.s.occupied
        && Release(Run(w.(s := s), ops).s, id).1 == Err(UnknownLease, -1)
      else r == Err(UnknownLease, -1) && s == w.s
  {
    if id in w.s.leases {
      LeasedFramesRemove(w.s.leases, id);
      var after := Step(w, ReleaseOp(id));
      assert Lease(id, w.s.leases[id]) in w.acquired;
      GoneStaysGone(after, id, ops);
      assert after == w.(s := Release(w.s, id).0);
    }
  }

  lemma {:induction false} GoneStaysGone(w: World, id: nat, ops: seq<Op>)
    requires id !in w.s.leases && id < w.next
    ensures id !in Run(w, ops).s.leases
    decreases |ops|
  {
    if ops != [] {
      OneStepGone(w, id, ops[0]);
      GoneStaysGone(Step(w, ops[0]), id, ops[1..]);
    }
  }

  lemma OneStepGone(w: World, id: nat, op: Op)
    requires id !in w.s.leases && id < w.next
    ensures id !in Step(w, op).s.leases && id < Step(w, op).next
  {
  }

  // ---------- the text of a stream ----------

  /** What is committed never falls along a stream, and stays within the text. */
  lemma {:induction false} CommittedGrows(p: seq<Chunk>, limit: nat, i: nat, k: nat)
    requires StreamOk(p, limit) && i <= k <= |p|
    ensures CommittedAfter(p[..i]) <= CommittedAfter(p[..k]) <= limit
    decreases |p|, k - i
  {
    if k < |p| {
      CommittedGrows(p[..|p| - 1], limit, i, k);
      assert p[..|p| - 1][..i] == p[..i] && p[..|p| - 1][..k] == p[..k];
    } else if p != [] {
      var n := |p| - 1;
      CommittedGrows(p[..n], limit, if i <= n then i else n, n);
      assert p[..k] == p && p[..n][..n] == p[..n];
      if i <= n {
        assert p[..n][..i] == p[..i];
      }
    } else {
      assert p[..i] == [] && p[..k] == [];
    }
  }

  lemma {:induction false} EventInside(c: Chunk, committed: nat, limit: nat, j: nat)
    requires EventsOk(c, committed, limit) && LastEventOk(c) && c.aligned && j < |c.events|
    ensures c.firstSample < c.events[j].sample <= ChunkEnd(c)
    ensures committed < c.events[j].tokens <= c.tokens
    ensures forall i :: 0 <= i < j ==>
              c.events[i].sample < c.events[j].sample && c.events[i].tokens < c.events[j].tokens
  {
    EventsRise(c, committed, limit, 0, j);
    EventsRise(c, committed, limit, j, |c.events| - 1);
    assert EventOk(c, 0, committed, limit) && EventOk(c, j, committed, limit);
    forall i | 0 <= i < j
      ensures c.events[i].sample < c.events[j].sample && c.events[i].tokens < c.events[j].tokens
    {
      EventsRise(c, committed, limit, i, j);
    }
  }

  lemma {:induction false} EventsRise(c: Chunk, committed: nat, limit: nat, i: nat, j: nat)
    requires EventsOk(c, committed, limit) && i <= j < |c.events|
    ensures i < j ==> c.events[i].sample < c.events[j].sample
    ensures i < j ==> c.events[i].tokens < c.events[j].tokens
    decreases j - i
  {
    if i < j {
      EventsRise(c, committed, limit, i, j - 1);
      assert EventOk(c, j, committed, limit);
    }
  }

  /** Over a whole stream text progress only ever goes forward: each event lies on a codec frame inside
      its own chunk, and any later one, in the same chunk or another, has a later sample and more
      text. */
  lemma EventsOnlyAdvance(p: seq<Chunk>, limit: nat, k: nat, j: nat, l: nat, i: nat)
    requires StreamOk(p, limit) && k <= l < |p| && j < |p[k].events| && i < |p[l].events|
    ensures
      var e, later := p[k].events[j], p[l].events[i];
      && e.sample % SAMPLES_PER_FRAME == 0
      && StartOf(k) < e.sample <= ChunkEnd(p[k]) && e.tokens <= limit
      && (k < l || j < i ==> e.sample < later.sample && e.tokens < later.tokens)
  {
    StreamSchedule(p, limit, k);
    StreamSchedule(p, limit, l);
    assert EventOk(p[k], j, CommittedAfter(p[..k]), limit);
    EventInside(p[k], CommittedAfter(p[..k]), limit, j);
    EventInside(p[l], CommittedAfter(p[..l]), limit, i);
    if k < l {
      CommittedGrows(p, limit, k + 1, l);
      assert p[..k + 1][..k] == p[..k];
      PlacesRise(p, limit, k, l);
    }
  }

  /** A later chunk starts where an earlier one has ended, or after. */
  lemma PlacesRise(p: seq<Chunk>, limit: nat, k: nat, l: nat)
    requires StreamOk(p, limit) && k < l < |p|
    ensures ChunkEnd(p[k]) <= StartOf(l)
  {
    StreamSchedule(p, limit, k);
  }

  // ---------- the revision as a version stamp ----------

  predicate CountersGrow(a: State, b: State) {
    && a.generatedFrames <= b.generatedFrames
    && a.publishedSamples <= b.publishedSamples
    && a.committed <= b.committed
  }

  /** A terminal state keeps its phase, its diagnostic and its counters. */
  predicate TerminalKept(a: State, b: State) {
    a.phase != Running ==>
      && b.phase == a.phase
      && b.status == a.status && b.stage == a.stage && b.message == a.message
      && b.generatedFrames == a.generatedFrames && b.committed == a.committed
  }

  lemma StepStamp(w: World, op: Op)
    requires Inv(w)
    ensures
      var a, b := w.s, Step(w, op).s;
      && (b == a || b.revision == a.revision + 1)
      && CountersGrow(a, b)
      && TerminalKept(a, b)
  {
    NextLeaseFresh(w);
    if op.PublishOp? {
      VerdictMeansAdmissible(w.s, op.c);
      PublishStamp(w.s, op.c);
    } else {
      OtherStamp(w, op);
    }
  }

  predicate Stamped(a: State, b: State) {
    (b == a || b.revision == a.revision + 1) && CountersGrow(a, b) && TerminalKept(a, b)
  }

  lemma PublishStamp(s: State, c: Chunk)
    requires Verdict(s, c).Ok? ==>
               s.phase == Running && Admissible(c, s.nextSequence, s.nextSample, s.committed,
                                                s.tokenLimit)
    ensures Stamped(s, Publish(s, c).0)
  {
  }

  lemma OtherStamp(w: World, op: Op)
    requires StateInv(w.s) && w.next !in w.s.leases && !op.PublishOp?
    ensures Stamped(w.s, Step(w, op).s)
  {
    DiscardExact(w.s.queue, w.s.occupied);
    if op.ReleaseOp? && op.id in w.s.leases {
      LeasedFramesRemove(w.s.leases, op.id);
    }
  }

  /** From any point of any run: the revision never falls, an unchanged revision means an
      unchanged state, the counters never fall, and a terminal state is immutable. */
  lemma {:induction false} VersionStamp(w: World, ops: seq<Op>)
    requires Inv(w)
    ensures
      var a, b := w.s, Run(w, ops).s;
      && a.revision <= b.revision
      && (a.revision == b.revision ==> a == b)
      && CountersGrow(a, b)
      && TerminalKept(a, b)
    decreases |ops|
  {
    if ops != [] {
      StepStamp(w, ops[0]);
      StepInv(w, ops[0]);
      VersionStamp(Step(w, ops[0]), ops[1..]);
    }
  }

  // ---------- cancellation ----------

  /** Nothing is published, delivered or counted between these two points, and no new lease
      appears: the later leases are among the earlier ones. */
  predicate Frozen(a: World, b: World) {
    && b.published == a.published && b.acquired == a.acquired
    && b.s.generatedFrames == a.s.generatedFrames
    && b.s.publishedSamples == a.s.publishedSamples
    && b.s.committed == a.s.committed
    && (forall id :: id in b.s.leases ==> id in a.s.leases && b.s.leases[id] == a.s.leases[id])
  }

  lemma CancelledStep(w: World, op: Op)
    requires Inv(w) && w.s.cancelRequested
    ensures Step(w, op).s.cancelRequested
    ensures Frozen(w, Step(w, op))
  {
    DiscardExact(w.s.queue, w.s.occupied);
  }

  /** Once a cancellation is accepted, whatever follows: the stream and its counters are frozen,
      no later acquire succeeds, every lease still held is releasable, and the request never
      completes. */
  lemma {:induction false} CancellationSafety(w: World, ops: seq<Op>)
    requires Inv(w) && w.s.cancelRequested
    ensures
      var b := Run(w, ops);
      && b.s.cancelRequested
      && Frozen(w, b)
      && Acquire(b.s, b.next).2 == Err(NoAudio, -1)
      && (forall id :: id in b.s.leases ==> Release(b.s, id).1.Ok?)
      && b.s.phase != Completed
    decreases |ops|
  {
    if ops == [] {
      forall id | id in w.s.leases ensures Release(w.s, id).1.Ok? {
        LeasedFramesRemove(w.s.leases, id);
      }
    } else {
      CancelledStep(w, ops[0]);
      StepInv(w, ops[0]);
      CancellationSafety(Step(w, ops[0]), ops[1..]);
    }
  }

  /** Cancellation is accepted exactly on a running or already cancelled request; accepted on a
      running one, it closes publication at once, and a second one changes nothing. */
  lemma CancellationAccepted(w: World)
    requires Inv(w)
    ensures RequestCancellation(w.s).1 == Ok(w.s.phase == Running || w.s.phase == Cancelled)
    ensures w.s.cancelRequested || w.s.phase != Running ==> RequestCancellation(w.s).0 == w.s
    ensures w.s.phase == Running ==> Step(w, CancelOp).s.cancelRequested
    ensures w.s.phase == Running ==>
            forall c :: Publish(Step(w, CancelOp).s, c) == (Step(w, CancelOp).s, Ok(false))
  {
    DiscardExact(w.s.queue, w.s.occupied);
  }

  /** The worker's last word on a cancellation: it is accepted exactly once, on a running request
      whose cancellation was accepted, which it ends; otherwise nothing changes. */
  lemma CancellationCompletes(w: World)
    requires Inv(w)
    ensures
      var (s, r) := CompleteCancellation(w.s);
      && r == Ok(w.s.phase == Running && w.s.cancelRequested)
      && (r == Ok(true) ==>
            && s.phase == Cancelled && s.revision > w.s.revision
            && s.leases == w.s.leases && s.occupied == LeasedFrames(w.s.leases))
      && (r == Ok(false) ==> s == w.s)
      && (w.s.cancelRequested ==> s.phase != Running)
  {
    DiscardExact(w.s.queue, w.s.occupied);
  }

  predicate NoFailure(ops: seq<Op>) {
    forall k :: 0 <= k < |ops| ==> !ops[k].FailOp?
  }

  lemma OnlyFailuresFail(w: World, op: Op)
    requires w.s.phase != Failed && !op.FailOp?
    ensures Step(w, op).s.phase != Failed
  {
  }

  lemma {:induction false} NeverFailed(w: World, ops: seq<Op>)
    requires w.s.phase != Failed && NoFailure(ops)
    ensures Run(w, ops).s.phase != Failed
    decreases |ops|
  {
    if ops != [] {
      OnlyFailuresFail(w, ops[0]);
      NeverFailed(Step(w, ops[0]), ops[1..]);
    }
  }

  /** A cancelled request until its worker completes the cancellation, and from then on. */
  lemma CompletedThenKept(w: World, after: seq<Op>)
    requires Inv(w) && w.s.cancelRequested
    ensures
      var end := Run(Step(w, CompleteCancelOp), after).s;
      && end.phase != Running
      && end.phase == (if w.s.phase == Running then Cancelled else w.s.phase)
      && (end.phase == Cancelled ==> end.status == 10 && end.stage == 6)
      && end.leases.Keys <= w.s.leases.Keys
  {
    CancellationCompletes(w);
    StepInv(w, CompleteCancelOp);
    var completed := Step(w, CompleteCancelOp);
    assert completed.s == CompleteCancellation(w.s).0;
    VersionStamp(completed, after);
    FrozenLeases(w, after);
    RunInv(completed, after);
  }

  lemma FrozenLeases(w: World, after: seq<Op>)
    requires Inv(w) && w.s.cancelRequested
    ensures Run(Step(w, CompleteCancelOp), after).s.leases.Keys <= w.s.leases.Keys
  {
    CancelledStep(w, CompleteCancelOp);
    StepInv(w, CompleteCancelOp);
    CancellationSafety(Step(w, CompleteCancelOp), after);
  }

  lemma CancelAccepted(w: World)
    requires Inv(w) && w.s.phase == Running
    ensures Inv(Step(w, CancelOp)) && Step(w, CancelOp).s.cancelRequested
    ensures Step(w, CancelOp).s.leases == w.s.leases && Step(w, CancelOp).s.phase == Running
  {
    StepInv(w, CancelOp);
    DiscardExact(w.s.queue, w.s.occupied);
  }

  lemma CancelledThenRun(w: World, between: seq<Op>)
    requires Inv(w) && w.s.cancelRequested && w.s.phase != Failed
    ensures
      var drained := Run(w, between);
      && Inv(drained) && drained.s.cancelRequested && drained.s.phase != Completed
      && drained.s.leases.Keys <= w.s.leases.Keys
      && (NoFailure(between) ==> drained.s.phase != Failed)
  {
    CancellationSafety(w, between);
    RunInv(w, between);
    if NoFailure(between) {
      NeverFailed(w, between);
    }
  }

  /** Every accepted cancellation ends the request: cancelled by anyone, then whatever happens, then
      completed by the worker, it is terminal for good, and CANCELLED unless it failed meanwhile. */
  lemma CancelledRunEnds(w: World, between: seq<Op>, after: seq<Op>)
    requires Inv(w) && w.s.phase == Running
    ensures
      var drained := Run(Step(w, CancelOp), between);
      var end := Run(Step(drained, CompleteCancelOp), after).s;
      && (end.phase == Cancelled || end.phase == Failed)
      && (NoFailure(between) ==> end.phase == Cancelled)
      && (end.phase == Cancelled ==> end.status == 10 && end.stage == 6)
      && end.leases.Keys <= w.s.leases.Keys
  {
    CancelAccepted(w);
    CancelledThenRun(Step(w, CancelOp), between);
    CompletedThenKept(Run(Step(w, CancelOp), between), after);
  }

  /** A request keeps the first failure it accepts, word for word, whatever follows; failures that
      are not declared or come after the end change nothing. */
  lemma FirstFailureKept(w: World, status: int, stage: int, message: string, after: seq<Op>)
    requires Inv(w)
    ensures
      var r := Fail(w.s, status, stage, message).1;
      var failed := Step(w, FailOp(status, stage, message));
      var end := Run(failed, after).s;
      && (r == Ok(()) <==> w.s.phase == Running && FailureDeclared(status, stage, message))
      && (r != Ok(()) ==> r == Err(InvalidTransition, -1) && failed == w)
      && (r == Ok(()) ==>
            && end.phase == Failed && end.queue == []
            && end.status == status && end.stage == stage && end.message == message
            && Run(failed, after).published == w.published)
  {
    DiscardExact(w.s.queue, w.s.occupied);
    StepInv(w, FailOp(status, stage, message));
    var failed := Step(w, FailOp(status, stage, message));
    VersionStamp(failed, after);
    RunInv(failed, after);
    if failed.s.phase != Running {
      TerminalPublishesNothing(failed, after);
    }
  }

  lemma {:induction false} TerminalPublishesNothing(w: World, ops: seq<Op>)
    requires Inv(w) && w.s.phase != Running
    ensures Run(w, ops).published == w.published
    decreases |ops|
  {
    if ops != [] {
      StepInv(w, ops[0]);
      StepStamp(w, ops[0]);
      TerminalPublishesNothing(Step(w, ops[0]), ops[1..]);
    }
  }

  // ---------- what a snapshot tells ----------

  /** A snapshot of any reachable state tells its reader what is there: the chunks published and not
      yet delivered, the text and samples of the stream so far, whether the stream is whole, and
      whether a lease call would succeed. */
  lemma SnapshotTells(tokenLimit: nat, capacity: nat, next: nat, ops: seq<Op>)
    requires Constructible(tokenLimit, capacity, next)
    ensures
      var w := Run(Start(tokenLimit, capacity, next), ops);
      && TakeSnapshot(w.s).Ok?
      && var v := TakeSnapshot(w.s).value;
         && |w.acquired| <= |w.published|
         && v.available == (if w.s.cancelRequested || v.phase == Failed then 0
                            else |w.published| - |w.acquired|)
         && v.committed == CommittedAfter(w.published)
         && v.publishedSamples == v.generatedFrames * SAMPLES_PER_FRAME == EndOf(w.published)
         && (v.phase == Completed <==> Closed(w.published))
         && (Acquire(w.s, w.next).2.Ok? <==> v.available > 0 && w.next < UINT64_MAX)
  {
    RingConservation(tokenLimit, capacity, next, ops);
    ReachableInv(tokenLimit, capacity, next, ops);
    SnapshotCounts(Run(Start(tokenLimit, capacity, next), ops));
  }

  lemma SnapshotCounts(w: World)
    requires Inv(w) && TakeSnapshot(w.s).Ok?
    ensures
      var v := TakeSnapshot(w.s).value;
      && v.available == |w.s.queue|
      && v.available == (if w.s.cancelRequested || v.phase == Failed then 0
                         else |w.published| - |w.acquired|)
      && v.committed == CommittedAfter(w.published)
      && v.publishedSamples == v.generatedFrames * SAMPLES_PER_FRAME == EndOf(w.published)
      && (v.phase == Completed <==> Closed(w.published))
  {
  }

  /** A new request can be seen at once by a wait from revision 0: running, with nothing to show. */
  lemma FreshSnapshot(tokenLimit: nat, capacity: nat)
    ensures
      var s := Initial(tokenLimit, capacity);
      && TakeSnapshot(s) == Ok(Snapshot(1, Running, 0, 0, 0, 0, 0, 0, ""))
      && s.occupied == 0 && s.leases == map[] && !s.cancelRequested
      && s.tokenLimit == tokenLimit && s.capacity == capacity
      && s.nextSequence == 0 && s.nextSample == 0
  {
  }

  predicate ShowsDiagnostic(s: State, v: Snapshot) {
    v.status == s.status && v.stage == s.stage && v.message == s.message
  }

  /** A wait that began at a snapshot's own revision is over exactly when the request has changed
      since, at whatever point of a run; and it then shows the new state's diagnostic. */
  lemma RevisionWakes(w: World, ops: seq<Op>)
    requires Inv(w) && TakeSnapshot(w.s).Ok? && TakeSnapshot(Run(w, ops).s).Ok?
    ensures
      var seen, now := TakeSnapshot(w.s).value, TakeSnapshot(Run(w, ops).s).value;
      && (Run(w, ops).s.revision > seen.revision <==> Run(w, ops).s != w.s)
      && (now.revision == seen.revision ==> now == seen)
      && ShowsDiagnostic(Run(w, ops).s, now) && now.phase == Run(w, ops).s.phase
  {
    VersionStamp(w, ops);
  }

  // ---------- delivery ----------

  /** Chunk k of every published stream is FIRST exactly at 0, starts on the 4-8-8 schedule,
      and is FINAL only at the end. */
  lemma {:induction false} StreamSchedule(p: seq<Chunk>, limit: nat, k: nat)
    requires StreamOk(p, limit) && k < |p|
    ensures Admissible(p[k], k, StartOf(k), CommittedAfter(p[..k]), limit)
    ensures p[k].sequence == k && (p[k].first <==> k == 0)
    ensures p[k].firstSample == StartOf(k)
    ensures p[k].final ==> k == |p| - 1
    decreases |p|
  {
    var n := |p| - 1;
    if k < n {
      StreamSchedule(p[..n], limit, k);
      assert p[..n][..k] == p[..k];
    }
  }

  /** Delivery is a contiguous first-in-first-out prefix of publication, under pairwise distinct
      increasing identifiers; and it is the whole stream once a completed request is drained. */
  lemma DeliveredPrefix(tokenLimit: nat, capacity: nat, next: nat, ops: seq<Op>)
    requires Constructible(tokenLimit, capacity, next)
    ensures
      var w := Run(Start(tokenLimit, capacity, next), ops);
      && |w.acquired| <= |w.published|
      && (forall i :: 0 <= i < |w.acquired| ==>
            && w.acquired[i].chunk == w.published[i]
            && w.published[i].firstSample == StartOf(i))
      && (forall i, j :: 0 <= i < j < |w.acquired| ==> w.acquired[i].id < w.acquired[j].id)
      && (w.s.phase == Completed && w.s.queue == [] ==>
            && |w.acquired| == |w.published| > 0
            && w.acquired[|w.acquired| - 1].chunk.final
            && w.s.committed == CommittedAfter(w.published)
            && w.s.publishedSamples == EndOf(w.published))
  {
    var w := Run(Start(tokenLimit, capacity, next), ops);
    ReachableInv(tokenLimit, capacity, next, ops);
    forall i | 0 <= i < |w.acquired| ensures w.published[i].firstSample == StartOf(i) {
      StreamSchedule(w.published, w.s.tokenLimit, i);
    }
  }
}
