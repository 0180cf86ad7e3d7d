/** Runs of one request: any sequence of operations by its producer, its consumer, the
    cancelling thread and other requests drawing from the shared lease sequence, in any order. */
module RequestRuns {
  import opened Request

  datatype Op =
    | PublishOp(c: Chunk)
    | AcquireOp
    | ReleaseOp(id: nat)
    | CancelOp
    | CompleteCancelOp
    | FailOp(status: int, stage: int, message: string)
    | ForeignLeaseOp

  /** A request, the lease sequence, and the histories of accepted and delivered chunks. */
  datatype World = World(s: State, next: nat, published: seq<Chunk>, acquired: seq<Lease>)

  function Start(tokenLimit: nat, capacity: nat, next: nat): World {
    World(Initial(tokenLimit, capacity), next, [], [])
  }

  function Step(w: World, op: Op): World {
    match op
    case PublishOp(c) =>
      var (s, r) := Publish(w.s, c);
      w.(s := s, published := if r == Ok(true) then w.published + [c] else w.published)
    case AcquireOp =>
      var (s, next, r) := Acquire(w.s, w.next);
      w.(s := s, next := next, acquired := if r.Ok? then w.acquired + [r.value] else w.acquired)
    case ReleaseOp(id) => w.(s := Release(w.s, id).0)
    case CancelOp => w.(s := RequestCancellation(w.s).0)
    case CompleteCancelOp => w.(s := CompleteCancellation(w.s).0)
    case FailOp(status, stage, message) => w.(s := Fail(w.s, status, stage, message).0)
    case ForeignLeaseOp => w.(next := TakeLeaseId(w.next).0)
  }

  function Run(w: World, ops: seq<Op>): World
    decreases |ops|
  {
    if ops == [] then w else Run(Step(w, ops[0]), ops[1..])
  }

  // ---------- what the histories look like ----------

  function Frames(q: seq<Chunk>): nat {
    if q == [] then 0 else q[0].frames + Frames(q[1..])
  }

  ghost function LeasedFrames(leases: map<nat, Chunk>): nat
    decreases |leases|
  {
    if leases == map[] then 0
    else
      var id :| id in leases;
      leases[id].frames + LeasedFrames(leases - {id})
  }

  /** Where chunk k of every stream starts: 4 initial frames, then 8 frames a chunk. */
  function StartOf(k: nat): nat {
    if k == 0 then 0 else (INITIAL_FRAMES + STEADY_FRAMES * (k - 1)) * SAMPLES_PER_FRAME
  }

  function EndOf(p: seq<Chunk>): nat {
    if p == [] then 0 else ChunkEnd(p[|p| - 1])
  }

  /** The text tokens committed by a published history: those of its last aligned chunk. */
  function CommittedAfter(p: seq<Chunk>): nat {
    if p == [] then 0
    else if p[|p| - 1].aligned then p[|p| - 1].tokens
    else CommittedAfter(p[..|p| - 1])
  }

  /** A stream a consumer may rely on: every chunk admissible at its place, FINAL only last. */
  predicate StreamOk(p: seq<Chunk>, limit: nat) {
    p == []
    || var n := |p| - 1;
       && StreamOk(p[..n], limit)
       && (n > 0 ==> !p[n - 1].final)
       && Admissible(p[n], n, StartOf(n), CommittedAfter(p[..n]), limit)
  }

  predicate Closed(p: seq<Chunk>) {
    p != [] && p[|p| - 1].final
  }

  /** What the state alone satisfies in every run. */
  ghost predicate StateInv(s: State) {
    && STEADY_FRAMES <= s.capacity < UINT32
    && s.occupied == Frames(s.queue) + LeasedFrames(s.leases) <= s.capacity
    && s.generatedFrames * SAMPLES_PER_FRAME == s.publishedSamples == s.nextSample
    && s.committed <= s.tokenLimit
    && (s.phase == Running || s.phase == Completed ==>
          s.status == 0 && s.stage == 0 && s.message == "")
    && (s.phase == Completed ==> !s.cancelRequested)
    && (s.phase == Cancelled ==>
          s.cancelRequested && s.status == 10 && s.stage == 6 && s.message == "")
    && (s.phase == Failed ==> FailureDeclared(s.status, s.stage, s.message))
    && (s.cancelRequested || s.phase == Failed ==> s.queue == [])
  }

  /** The counters of the state are those of the published history. */
  predicate PublishedInv(s: State, p: seq<Chunk>) {
    && |p| == s.nextSequence
    && StreamOk(p, s.tokenLimit)
    && s.committed == CommittedAfter(p)
    && s.nextSample == EndOf(p)
    && (s.phase == Completed <==> Closed(p))
  }

  /** Delivery is first in, first out, under fresh increasing identifiers. */
  predicate DeliveryInv(w: World) {
    && |w.acquired| <= |w.published|
    && (forall i :: 0 <= i < |w.acquired| ==> w.acquired[i].chunk == w.published[i])
    && (!w.s.cancelRequested && w.s.phase != Failed ==> w.s.queue == w.published[|w.acquired|..])
    && (forall i :: 0 <= i < |w.acquired| ==> 0 < w.acquired[i].id < w.next)
    && (forall i, j :: 0 <= i < j < |w.acquired| ==> w.acquired[i].id < w.acquired[j].id)
    && (forall id :: id in w.s.leases ==> Lease(id, w.s.leases[id]) in w.acquired)
  }

  ghost predicate Inv(w: World) {
    StateInv(w.s) && PublishedInv(w.s, w.published) && DeliveryInv(w) && w.next > 0
  }

  // ---------- lemmas about the two sums and about streams ----------

  lemma {:induction false} FramesAppend(q: seq<Chunk>, c: Chunk)
    ensures Frames(q + [c]) == Frames(q) + c.frames
  {
    if q == [] {
      assert (q + [c])[1..] == [];
    } else {
      assert (q + [c])[1..] == q[1..] + [c];
      FramesAppend(q[1..], c);
    }
  }

  /** The leased sum does not depend on the order in which leases are picked. */
  lemma {:induction false} LeasedFramesRemove(leases: map<nat, Chunk>, id: nat)
    requires id in leases
    ensures LeasedFrames(leases) == leases[id].frames + LeasedFrames(leases - {id})
    decreases |leases|
  {
    var picked :| picked in leases && LeasedFrames(leases)
                              == leases[picked].frames + LeasedFrames(leases - {picked});
    if picked != id {
      LeasedFramesRemove(leases - {picked}, id);
      LeasedFramesRemove(leases - {id}, picked);
      assert leases - {picked} - {id} == leases - {id} - {picked};
    }
  }

  lemma LeasedFramesAdd(leases: map<nat, Chunk>, id: nat, c: Chunk)
    requires id !in leases
    ensures LeasedFrames(leases[id := c]) == LeasedFrames(leases) + c.frames
  {
    LeasedFramesRemove(leases[id := c], id);
    assert leases[id := c] - {id} == leases;
  }

  /** Discarding the queue gives back exactly the queued frames and never underflows. */
  lemma {:induction false} DiscardExact(q: seq<Chunk>, occupied: nat)
    requires Frames(q) <= occupied
    ensures DiscardFrames(q, occupied) == (occupied - Frames(q), true)
    decreases |q|
  {
    if q != [] {
      DiscardExact(q[1..], occupied - q[0].frames);
    }
  }

  /** And where the ring held less than that, the underflow is noticed. */
  lemma {:induction false} DiscardUnderflows(q: seq<Chunk>, occupied: nat)
    requires Frames(q) > occupied
    ensures !DiscardFrames(q, occupied).1
    decreases |q|
  {
    if q[0].frames <= occupied {
      DiscardUnderflows(q[1..], occupied - q[0].frames);
    }
  }

  lemma StreamExtend(p: seq<Chunk>, c: Chunk, limit: nat)
    requires StreamOk(p, limit) && !Closed(p)
    requires Admissible(c, |p|, StartOf(|p|), CommittedAfter(p), limit)
    ensures StreamOk(p + [c], limit)
    ensures CommittedAfter(p + [c]) == if c.aligned then c.tokens else CommittedAfter(p)
  {
    assert (p + [c])[..|p|] == p;
  }

  /** A stream that is still open ends where its next chunk has to start. */
  lemma OpenStreamEnd(p: seq<Chunk>, limit: nat)
    requires StreamOk(p, limit) && !Closed(p)
    ensures EndOf(p) == StartOf(|p|)
  {
  }

  // ---------- validation, read declaratively ----------

  lemma VerdictMeansAdmissible(s: State, c: Chunk)
    ensures Verdict(s, c).Ok? <==>
            && s.phase == Running
            && Admissible(c, s.nextSequence, s.nextSample, s.committed, s.tokenLimit)
            && c.frames <= FreeFrames(s)
  {
    var bad := FirstBadEvent(c, 0, s.committed, s.tokenLimit);
    if bad == |c.events| {
      assert EventsOk(c, s.committed, s.tokenLimit);
    } else {
      assert !EventOk(c, bad, s.committed, s.tokenLimit);
    }
  }

  // ---------- every step keeps the invariant ----------

  lemma StartInv(tokenLimit: nat, capacity: nat, next: nat)
    requires tokenLimit > 0 && STEADY_FRAMES <= capacity < UINT32 && next > 0
    ensures Inv(Start(tokenLimit, capacity, next))
  {
  }

  lemma EnqueueState(s: State, c: Chunk)
    requires StateInv(s) && s.phase == Running && !s.cancelRequested
    requires |c.samples| == c.frames * SAMPLES_PER_FRAME && c.frames <= FreeFrames(s)
    requires c.aligned ==> c.tokens <= s.tokenLimit
    ensures StateInv(Enqueue(s, c))
  {
    FramesAppend(s.queue, c);
  }

  lemma EnqueuePublished(s: State, p: seq<Chunk>, c: Chunk)
    requires PublishedInv(s, p) && s.phase == Running
    requires Admissible(c, s.nextSequence, s.nextSample, s.committed, s.tokenLimit)
    ensures PublishedInv(Enqueue(s, c), p + [c])
  {
    OpenStreamEnd(p, s.tokenLimit);
    StreamExtend(p, c, s.tokenLimit);
  }

  lemma PublishInv(w: World, c: Chunk)
    requires Inv(w)
    ensures Inv(Step(w, PublishOp(c)))
  {
    VerdictMeansAdmissible(w.s, c);
    if !w.s.cancelRequested && Verdict(w.s, c).Ok? {
      EnqueueState(w.s, c);
      EnqueuePublished(w.s, w.published, c);
      EnqueueDelivery(w, c);
    }
    PublishWorld(w, c);
  }

  lemma PublishWorld(w: World, c: Chunk)
    ensures Step(w, PublishOp(c))
         == if !w.s.cancelRequested && Verdict(w.s, c).Ok?
            then w.(s := Enqueue(w.s, c), published := w.published + [c]) else w
  {
  }

  lemma EnqueueDelivery(w: World, c: Chunk)
    requires DeliveryInv(w) && w.s.phase == Running && !w.s.cancelRequested
    ensures DeliveryInv(w.(s := Enqueue(w.s, c), published := w.published + [c]))
  {
    assert (w.published + [c])[|w.acquired|..] == w.published[|w.acquired|..] + [c];
  }

  lemma AcquireDelivery(w: World)
    requires DeliveryInv(w) && Acquire(w.s, w.next).2.Ok?
    requires w.s.cancelRequested || w.s.phase == Failed ==> w.s.queue == []
    ensures DeliveryInv(Step(w, AcquireOp))
  {
    var after := Step(w, AcquireOp);
    var lease := Lease(w.next, w.s.queue[0]);
    assert after.acquired == w.acquired + [lease];
    LeasesRecorded(w.s.leases, w.acquired, lease);
  }

  lemma LeasesRecorded(leases: map<nat, Chunk>, acquired: seq<Lease>, lease: Lease)
    requires forall id :: id in leases ==> Lease(id, leases[id]) in acquired
    ensures var more := leases[lease.id := lease.chunk];
            forall id :: id in more ==> Lease(id, more[id]) in acquired + [lease]
  {
    assert (acquired + [lease])[|acquired|] == lease;
    forall id | id in leases && id != lease.id
      ensures Lease(id, leases[id]) in acquired + [lease]
    {
      assert Lease(id, leases[id]) in acquired;
    }
  }

  /** The next identifier is never live, so the reuse failure cannot happen. */
  lemma NextLeaseFresh(w: World)
    requires DeliveryInv(w)
    ensures w.next !in w.s.leases
  {
    forall id | id in w.s.leases ensures id < w.next {
      assert Lease(id, w.s.leases[id]) in w.acquired;
    }
  }

  lemma AcquireInv(w: World)
    requires Inv(w)
    ensures Inv(Step(w, AcquireOp))
  {
    NextLeaseFresh(w);
    var (s, next, r) := Acquire(w.s, w.next);
    if r.Ok? {
      LeasedFramesAdd(w.s.leases, r.value.id, w.s.queue[0]);
      AcquireDelivery(w);
    }
  }

  lemma ReleaseInv(w: World, id: nat)
    requires Inv(w)
    ensures Inv(Step(w, ReleaseOp(id)))
  {
    ReleaseState(w.s, id);
    ReleaseDelivery(w, id);
  }

  lemma ReleaseState(s: State, id: nat)
    requires StateInv(s)
    ensures StateInv(Release(s, id).0)
  {
    if id in s.leases {
      LeasedFramesRemove(s.leases, id);
    }
  }

  lemma ReleaseDelivery(w: World, id: nat)
    requires DeliveryInv(w)
    ensures DeliveryInv(Step(w, ReleaseOp(id)))
  {
    var after := Step(w, ReleaseOp(id));
    forall j | j in after.s.leases ensures Lease(j, after.s.leases[j]) in after.acquired {
      assert Lease(j, w.s.leases[j]) in w.acquired;
    }
  }

  lemma ClosingInv(w: World, op: Op)
    requires Inv(w)
    requires op.CancelOp? || op.CompleteCancelOp? || op.FailOp?
    ensures Inv(Step(w, op))
  {
    ClosingState(w.s, op);
    ClosingPublished(w, op);
    ClosingDelivery(w, op);
    ClosingWorld(w, op);
  }

  /** What the three ending operations leave of the request. */
  function StateAfter(s: State, op: Op): State
    requires op.CancelOp? || op.CompleteCancelOp? || op.FailOp?
  {
    match op
    case CancelOp => RequestCancellation(s).0
    case CompleteCancelOp => CompleteCancellation(s).0
    case FailOp(status, stage, message) => Fail(s, status, stage, message).0
  }

  lemma ClosingState(s: State, op: Op)
    requires StateInv(s)
    requires op.CancelOp? || op.CompleteCancelOp? || op.FailOp?
    ensures StateInv(StateAfter(s, op))
  {
    DiscardExact(s.queue, s.occupied);
  }

  lemma ClosingPublished(w: World, op: Op)
    requires PublishedInv(w.s, w.published)
    requires op.CancelOp? || op.CompleteCancelOp? || op.FailOp?
    ensures PublishedInv(StateAfter(w.s, op), w.published)
  {
  }

  lemma ClosingDelivery(w: World, op: Op)
    requires DeliveryInv(w)
    requires op.CancelOp? || op.CompleteCancelOp? || op.FailOp?
    ensures DeliveryInv(w.(s := StateAfter(w.s, op)))
  {
  }

  lemma ClosingWorld(w: World, op: Op)
    requires op.CancelOp? || op.CompleteCancelOp? || op.FailOp?
    ensures Step(w, op) == w.(s := StateAfter(w.s, op))
  {
  }

  lemma StepInv(w: World, op: Op)
    requires Inv(w)
    ensures Inv(Step(w, op))
  {
    match op
    case PublishOp(c) => PublishInv(w, c);
    case AcquireOp => AcquireInv(w);
    case ReleaseOp(id) => ReleaseInv(w, id);
    case ForeignLeaseOp =>
    case _ => ClosingInv(w, op);
  }

  lemma {:induction false} RunInv(w: World, ops: seq<Op>)
    requires Inv(w)
    ensures Inv(Run(w, ops))
    decreases |ops|
  {
    if ops != [] {
      StepInv(w, ops[0]);
      RunInv(Step(w, ops[0]), ops[1..]);
    }
  }
}
