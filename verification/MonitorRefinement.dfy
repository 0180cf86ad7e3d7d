/** The producer-side state machine against the consumer-side monitor: exactly when every lease
    and every snapshot of a run is accepted. */
module MonitorRefinement {
  import opened Options
  import opened Request
  import opened RequestRuns
  import opened RequestGuarantees
  import opened StreamMonitor

  // ---------- leases ----------

  /** What a chunk must satisfy beyond admissibility: finite PCM, inside the model's frame limit,
      and text progress only on decoder steps (or at the end of the FINAL chunk). */
  predicate Conforming(c: Chunk, maximumFrames: nat) {
    && ChunkEnd(c) <= maximumFrames * SAMPLES_PER_FRAME
    && (forall i :: 0 <= i < |c.samples| ==> c.samples[i].Finite?)
    && EventsStepAligned(c)
  }

  predicate StepAligned(c: Chunk, k: nat)
    requires k < |c.events|
  {
    c.events[k].sample % DECODER_STEP_SAMPLES == 0
    || (c.final && c.events[k].sample == ChunkEnd(c))
  }

  predicate EventsStepAligned(c: Chunk) {
    forall j :: 0 <= j < |c.events| ==> StepAligned(c, j)
  }

  /** The monitor run over leases in order: the final metrics, or None at the first rejection. */
  function Watch(m: Metrics, leases: seq<PublicLease>, limits: Limits): Option<Metrics>
    decreases |leases|
  {
    if leases == [] then Some(m)
    else if !LeaseAccepted(m, leases[0], limits) then None
    else Watch(Absorb(m, leases[0]), leases[1..], limits)
  }

  /** The chunk a lease shows. */
  function ChunkIn(l: PublicLease): Chunk {
    Chunk(l.samples, l.firstSample, l.sequence, LeaseFrames(l), l.first, l.final, l.aligned,
          l.tokens, l.events)
  }

  function ChunksIn(leases: seq<PublicLease>): seq<Chunk> {
    seq(|leases|, i requires 0 <= i < |leases| => ChunkIn(leases[i]))
  }

  function LastId(leases: seq<PublicLease>): Option<nat> {
    if leases == [] then None else Some(leases[|leases| - 1].id)
  }

  /** The monitor's books after these chunks, the last of them under this identifier. */
  predicate Tracks(m: Metrics, p: seq<Chunk>, last: Option<nat>) {
    && m.chunkCount == m.expectedSequence == |p|
    && m.sampleCount == m.expectedSample == EndOf(p)
    && m.lastLease == last
    && m.lastSample <= m.expectedSample
    && m.lastToken == CommittedAfter(p)
    && m.firstSeen == (p != [])
    && m.finalSeen == Closed(p)
    && m.markerSeen == (Closed(p) && p[|p| - 1].frames == 0)
  }

  /** Step-aligned strictly advancing events are at most one per 2048 samples. */
  lemma EventsFitSteps(c: Chunk, committed: nat, limit: nat)
    requires EventsOk(c, committed, limit)
    requires c.firstSample % DECODER_STEP_SAMPLES == 0
    requires |c.samples| == c.frames * SAMPLES_PER_FRAME
    requires EventsStepAligned(c)
    ensures |c.events| <= (|c.samples| + DECODER_STEP_SAMPLES - 1) / DECODER_STEP_SAMPLES
  {
    var n := |c.events|;
    if n > 0 {
      FullSteps(c, committed, limit, n - 1);
      assert EventOk(c, n - 1, committed, limit);
    }
  }

  /** Every event before the last sits on a full step, the k-th at least k + 1 steps in. */
  lemma {:induction false} FullSteps(c: Chunk, committed: nat, limit: nat, n: nat)
    requires EventsOk(c, committed, limit)
    requires c.firstSample % DECODER_STEP_SAMPLES == 0
    requires EventsStepAligned(c)
    requires n < |c.events|
    ensures SampleBefore(c, n) % DECODER_STEP_SAMPLES == 0
    ensures SampleBefore(c, n) >= c.firstSample + DECODER_STEP_SAMPLES * n
  {
    if n > 0 {
      FullSteps(c, committed, limit, n - 1);
      assert EventOk(c, n - 1, committed, limit) && EventOk(c, n, committed, limit);
      assert StepAligned(c, n - 1);
      StepsApart(SampleBefore(c, n - 1), SampleBefore(c, n));
    }
  }

  lemma StepsApart(a: nat, b: nat)
    requires a < b && a % DECODER_STEP_SAMPLES == 0 && b % DECODER_STEP_SAMPLES == 0
    ensures a + DECODER_STEP_SAMPLES <= b
  {
  }

  lemma StartAligned(k: nat)
    ensures StartOf(k) % DECODER_STEP_SAMPLES == 0
  {
    if k > 0 {
      assert StartOf(k) == DECODER_STEP_SAMPLES * (2 + 4 * (k - 1));
    }
  }

  /** Where chunk k starts and what was committed before it, in terms of the delivered prefix. */
  lemma PrefixPlace(p: seq<Chunk>, limit: nat, k: nat)
    requires StreamOk(p, limit) && k < |p|
    ensures Admissible(p[k], k, EndOf(p[..k]), CommittedAfter(p[..k]), limit)
    ensures !Closed(p[..k])
    ensures EndOf(p[..k]) == StartOf(k)
    ensures CommittedAfter(p[..k + 1])
         == if p[k].aligned then p[k].tokens else CommittedAfter(p[..k])
  {
    StreamSchedule(p, limit, k);
    StreamPrefix(p, limit, k);
    if k > 0 {
      StreamSchedule(p, limit, k - 1);
    }
    OpenStreamEnd(p[..k], limit);
    assert p[..k + 1][..k] == p[..k];
  }

  lemma {:induction false} StreamPrefix(p: seq<Chunk>, limit: nat, k: nat)
    requires StreamOk(p, limit) && k <= |p|
    ensures StreamOk(p[..k], limit)
    decreases |p|
  {
    if k < |p| {
      StreamPrefix(p[..|p| - 1], limit, k);
      assert p[..|p| - 1][..k] == p[..k];
    } else {
      assert p[..k] == p;
    }
  }

  /** What a lease must be beside the chunk it shows: a new identifier, and a pointer exactly where
      there is something to point to. */
  predicate LeaseLegal(l: PublicLease, last: Option<nat>) {
    && l.id > 0 && (last.Some? ==> l.id > last.value)
    && l.hasSamples == (l.samples != []) && l.hasEvents == (l.events != [])
  }

  lemma WholeFrames(l: PublicLease)
    requires |l.samples| % SAMPLES_PER_FRAME == 0
    ensures ChunkEnd(ChunkIn(l)) == LeaseEnd(l)
  {
  }

  lemma StepsAreFrames(n: nat)
    ensures n % DECODER_STEP_SAMPLES == 0 ==> n % SAMPLES_PER_FRAME == 0
  {
  }

  lemma GeometryMatches(m: Metrics, p: seq<Chunk>, last: Option<nat>, l: PublicLease,
                        limits: Limits)
    requires StreamOk(p, limits.tokenCount) && Tracks(m, p, last)
    requires limits.maximumFrames < UINT32
    ensures var c := ChunkIn(l);
            GeometryAccepted(m, l, limits) <==>
            && l.id > 0 && (last.Some? ==> l.id > last.value)
            && l.hasSamples == (l.samples != [])
            && !Closed(p) && ShapeOk(c, |p|, StartOf(|p|))
            && ChunkEnd(c) <= limits.maximumFrames * SAMPLES_PER_FRAME
            && forall i :: 0 <= i < |c.samples| ==> c.samples[i].Finite?
  {
    if !Closed(p) {
      OpenStreamEnd(p, limits.tokenCount);
      StartAligned(|p|);
      StepsAreFrames(StartOf(|p|));
      GeometryAt(m, |p|, StartOf(|p|), l, limits);
    }
  }

  /** The geometry checks for a lease expected at this place. */
  lemma GeometryAt(m: Metrics, sequence: nat, start: nat, l: PublicLease, limits: Limits)
    requires m.expectedSequence == sequence && m.sampleCount == m.expectedSample == start
    requires start % SAMPLES_PER_FRAME == 0 && !m.finalSeen && limits.maximumFrames < UINT32
    ensures var c := ChunkIn(l);
            GeometryAccepted(m, l, limits) <==>
            && l.id > 0 && (m.lastLease.Some? ==> l.id > m.lastLease.value)
            && l.hasSamples == (l.samples != [])
            && ShapeOk(c, sequence, start)
            && ChunkEnd(c) <= limits.maximumFrames * SAMPLES_PER_FRAME
            && forall i :: 0 <= i < |c.samples| ==> c.samples[i].Finite?
  {
    WithinLimit(start, LeaseFrames(l), limits.maximumFrames);
    if |l.samples| % SAMPLES_PER_FRAME == 0 {
      WholeFrames(l);
    }
  }

  lemma WithinLimit(start: nat, frames: nat, maximumFrames: nat)
    requires start % SAMPLES_PER_FRAME == 0 && maximumFrames < UINT32
    ensures start / SAMPLES_PER_FRAME + frames <= maximumFrames
       <==> start + frames * SAMPLES_PER_FRAME <= maximumFrames * SAMPLES_PER_FRAME
    ensures start + frames * SAMPLES_PER_FRAME <= maximumFrames * SAMPLES_PER_FRAME ==>
              start + frames * SAMPLES_PER_FRAME <= UINT64_MAX
  {
  }

  lemma {:induction false} EventsAfterStart(c: Chunk, committed: nat, limit: nat, j: nat)
    requires EventsOk(c, committed, limit) && j < |c.events|
    ensures c.firstSample < c.events[j].sample
  {
    assert EventOk(c, j, committed, limit);
    if j > 0 {
      EventsAfterStart(c, committed, limit, j - 1);
    }
  }

  /** Where the monitor stands when it gets to the events of a chunk. */
  predicate AtChunk(m: Metrics, l: PublicLease, committed: nat) {
    && m.lastSample <= l.firstSample && m.lastToken == committed
    && |l.samples| % SAMPLES_PER_FRAME == 0 && l.firstSample % DECODER_STEP_SAMPLES == 0
  }

  lemma EventMatches(m: Metrics, l: PublicLease, committed: nat, limits: Limits, k: nat)
    requires AtChunk(m, l, committed) && k < |l.events|
    ensures EventAccepted(m, l, k, limits) <==>
            && l.firstSample < l.events[k].sample
            && EventOk(ChunkIn(l), k, committed, limits.tokenCount)
            && StepAligned(ChunkIn(l), k)
  {
    WholeFrames(l);
    StepsAreFrames(l.events[k].sample);
    assert k > 0 ==> SampleBefore(ChunkIn(l), k) == EventSampleBefore(m, l, k);
    assert TokensBefore(ChunkIn(l), k, committed) == EventTokenBefore(m, l, k);
  }

  lemma EventsMatch(m: Metrics, l: PublicLease, committed: nat, limits: Limits)
    requires AtChunk(m, l, committed)
    ensures (forall k :: 0 <= k < |l.events| ==> EventAccepted(m, l, k, limits))
       <==> EventsOk(ChunkIn(l), committed, limits.tokenCount) && EventsStepAligned(ChunkIn(l))
  {
    var c := ChunkIn(l);
    forall k | 0 <= k < |l.events|
      ensures EventAccepted(m, l, k, limits) <==>
              && l.firstSample < l.events[k].sample
              && EventOk(c, k, committed, limits.tokenCount) && StepAligned(c, k)
    {
      EventMatches(m, l, committed, limits, k);
    }
    if EventsOk(c, committed, limits.tokenCount) {
      forall k | 0 <= k < |l.events| ensures l.firstSample < l.events[k].sample {
        EventsAfterStart(c, committed, limits.tokenCount, k);
      }
    }
  }

  lemma ProgressMatches(m: Metrics, l: PublicLease, committed: nat, limits: Limits)
    requires AtChunk(m, l, committed)
    ensures var c := ChunkIn(l);
            ProgressAccepted(m, l, limits) <==>
            && l.hasEvents == (l.events != [])
            && ProgressOk(c, committed, limits.tokenCount)
            && EventsOk(c, committed, limits.tokenCount) && LastEventOk(c)
            && EventsStepAligned(c)
  {
    var c := ChunkIn(l);
    EventsMatch(m, l, committed, limits);
    if EventsOk(c, committed, limits.tokenCount) && EventsStepAligned(c) {
      EventsFitSteps(c, committed, limits.tokenCount);
    }
  }

  /** One more lease: accepted exactly when it is legal and the chunk it shows continues the stream
      and conforms; and the books stay right. */
  lemma LeaseExact(m: Metrics, p: seq<Chunk>, last: Option<nat>, l: PublicLease, limits: Limits)
    requires StreamOk(p, limits.tokenCount) && Tracks(m, p, last)
    requires limits.maximumFrames < UINT32
    ensures LeaseAccepted(m, l, limits) <==>
            && LeaseLegal(l, last) && StreamOk(p + [ChunkIn(l)], limits.tokenCount)
            && Conforming(ChunkIn(l), limits.maximumFrames)
    ensures LeaseAccepted(m, l, limits) ==> Tracks(Absorb(m, l), p + [ChunkIn(l)], Some(l.id))
  {
    var c := ChunkIn(l);
    GeometryMatches(m, p, last, l, limits);
    ExtensionExact(p, c, limits.tokenCount);
    if !Closed(p) && ShapeOk(c, |p|, StartOf(|p|)) {
      OpenStreamEnd(p, limits.tokenCount);
      StartAligned(|p|);
      ProgressMatches(m, l, CommittedAfter(p), limits);
      if LeaseAccepted(m, l, limits) {
        BooksStep(m, p, last, l, limits.tokenCount);
      }
    }
  }

  lemma BooksStep(m: Metrics, p: seq<Chunk>, last: Option<nat>, l: PublicLease, limit: nat)
    requires StreamOk(p, limit) && !Closed(p) && Tracks(m, p, last)
    requires Admissible(ChunkIn(l), |p|, EndOf(p), CommittedAfter(p), limit)
    ensures Tracks(Absorb(m, l), p + [ChunkIn(l)], Some(l.id))
  {
    var c := ChunkIn(l);
    assert (p + [c])[..|p|] == p;
    if c.events != [] {
      assert EventOk(c, |c.events| - 1, CommittedAfter(p), limit);
    }
  }

  // ---------- whole deliveries ----------

  /** Positive, ever higher identifiers, and pointers where there is data. */
  predicate LeasesLegal(leases: seq<PublicLease>) {
    && (forall i :: 0 <= i < |leases| ==> LeaseLegal(leases[i], None))
    && (forall i, j :: 0 <= i < j < |leases| ==> leases[i].id < leases[j].id)
  }

  predicate AllConform(p: seq<Chunk>, maximumFrames: nat) {
    forall i :: 0 <= i < |p| ==> Conforming(p[i], maximumFrames)
  }

  /** What a consumer relies on of all the leases it was handed, whoever handed them out: legal
      leases whose chunks form a legal stream and conform. */
  predicate LegalDelivery(leases: seq<PublicLease>, limits: Limits) {
    && LeasesLegal(leases)
    && StreamOk(ChunksIn(leases), limits.tokenCount)
    && AllConform(ChunksIn(leases), limits.maximumFrames)
  }

  lemma LegalPrefix(leases: seq<PublicLease>, k: nat, limits: Limits)
    requires LegalDelivery(leases, limits) && k <= |leases|
    ensures LegalDelivery(leases[..k], limits)
  {
    assert ChunksIn(leases[..k]) == ChunksIn(leases)[..k];
    StreamPrefix(ChunksIn(leases), limits.tokenCount, k);
    LeasesPrefix(leases, k);
  }

  lemma LeasesPrefix(leases: seq<PublicLease>, k: nat)
    requires LeasesLegal(leases) && k <= |leases|
    ensures LeasesLegal(leases[..k])
  {
  }

  lemma LeasesExtension(leases: seq<PublicLease>, l: PublicLease)
    requires LeasesLegal(leases)
    ensures LeasesLegal(leases + [l]) <==> LeaseLegal(l, LastId(leases))
  {
    var all := leases + [l];
    assert all[|leases|] == l;
    if LeasesLegal(all) && leases != [] {
      assert all[|leases| - 1].id < all[|leases|].id;
    }
  }

  lemma ConformExtension(p: seq<Chunk>, c: Chunk, maximumFrames: nat)
    requires AllConform(p, maximumFrames)
    ensures AllConform(p + [c], maximumFrames) <==> Conforming(c, maximumFrames)
  {
    assert (p + [c])[|p|] == c;
  }

  lemma LegalExtension(leases: seq<PublicLease>, l: PublicLease, limits: Limits)
    requires LegalDelivery(leases, limits)
    ensures LegalDelivery(leases + [l], limits) <==>
            && LeaseLegal(l, LastId(leases))
            && StreamOk(ChunksIn(leases) + [ChunkIn(l)], limits.tokenCount)
            && Conforming(ChunkIn(l), limits.maximumFrames)
  {
    assert ChunksIn(leases + [l]) == ChunksIn(leases) + [ChunkIn(l)];
    LeasesExtension(leases, l);
    ConformExtension(ChunksIn(leases), ChunkIn(l), limits.maximumFrames);
  }

  lemma {:induction false} WatchFrom(leases: seq<PublicLease>, k: nat, m: Metrics, limits: Limits)
    requires k <= |leases| && limits.maximumFrames < UINT32
    requires LegalDelivery(leases[..k], limits)
    requires Tracks(m, ChunksIn(leases[..k]), LastId(leases[..k]))
    ensures
      var result := Watch(m, leases[k..], limits);
      && (result.Some? <==> LegalDelivery(leases, limits))
      && (result.Some? ==> Tracks(result.value, ChunksIn(leases), LastId(leases)))
    decreases |leases| - k
  {
    if k == |leases| {
      assert leases[..k] == leases;
    } else {
      var before, l := leases[..k], leases[k];
      assert leases[..k + 1] == before + [l];
      assert ChunksIn(before + [l]) == ChunksIn(before) + [ChunkIn(l)];
      LeaseExact(m, ChunksIn(before), LastId(before), l, limits);
      LegalExtension(before, l, limits);
      assert leases[k..][1..] == leases[k + 1..];
      if LeaseAccepted(m, l, limits) {
        WatchFrom(leases, k + 1, Absorb(m, l), limits);
      } else if LegalDelivery(leases, limits) {
        LegalPrefix(leases, k + 1, limits);
      }
    }
  }

  /** The monitor accepts exactly the legal deliveries: whatever leases it is shown, by whatever
      producer, it accepts them all if and only if together they are one. */
  lemma MonitorAcceptsExactly(leases: seq<PublicLease>, limits: Limits)
    requires limits.maximumFrames < UINT32
    ensures
      var result := Watch(FRESH, leases, limits);
      && (result.Some? <==> LegalDelivery(leases, limits))
      && (result.Some? ==> Tracks(result.value, ChunksIn(leases), LastId(leases)))
  {
    assert leases[..0] == [] && leases[0..] == leases;
    WatchFrom(leases, 0, FRESH, limits);
  }

  function ExposeAll(leases: seq<Lease>): seq<PublicLease> {
    seq(|leases|, i requires 0 <= i < |leases| => Expose(leases[i]))
  }

  lemma ShownChunk(p: seq<Chunk>, limit: nat, k: nat, id: nat)
    requires StreamOk(p, limit) && k < |p|
    ensures ChunkIn(Expose(Lease(id, p[k]))) == p[k]
  {
    StreamSchedule(p, limit, k);
  }

  lemma ShownChunks(p: seq<Chunk>, limit: nat, acquired: seq<Lease>)
    requires StreamOk(p, limit) && |acquired| <= |p|
    requires forall i :: 0 <= i < |acquired| ==> acquired[i].chunk == p[i]
    ensures ChunksIn(ExposeAll(acquired)) == p[..|acquired|]
  {
    forall k | 0 <= k < |acquired| ensures ChunkIn(Expose(acquired[k])) == p[k] {
      ShownChunk(p, limit, k, acquired[k].id);
    }
  }

  lemma IdsLegal(w: World)
    requires DeliveryInv(w)
    ensures LeasesLegal(ExposeAll(w.acquired))
  {
  }

  /** What the request hands out over any run is a legal delivery as far as it conforms. */
  lemma DeliveryLegal(w: World, limits: Limits)
    requires PublishedInv(w.s, w.published) && DeliveryInv(w)
    requires limits.tokenCount == w.s.tokenLimit
    ensures ChunksIn(ExposeAll(w.acquired)) == w.published[..|w.acquired|]
    ensures LegalDelivery(ExposeAll(w.acquired), limits)
       <==> AllConform(w.published[..|w.acquired|], limits.maximumFrames)
  {
    ShownChunks(w.published, w.s.tokenLimit, w.acquired);
    StreamPrefix(w.published, w.s.tokenLimit, |w.acquired|);
    IdsLegal(w);
  }

  /** The producer refines the monitor, and exactly so: over every run, the monitor accepts the
      delivered leases if and only if every delivered chunk conforms; its books then equal the
      producer's. */
  lemma ProducerRefinesMonitor(tokenLimit: nat, capacity: nat, next: nat, ops: seq<Op>,
                               maximumFrames: nat)
    requires Constructible(tokenLimit, capacity, next) && maximumFrames < UINT32
    ensures
      var w := Run(Start(tokenLimit, capacity, next), ops);
      var leases := ExposeAll(w.acquired);
      var result := Watch(FRESH, leases, Limits(tokenLimit, maximumFrames));
      && |w.acquired| <= |w.published|
      && (result.Some? <==> AllConform(w.published[..|w.acquired|], maximumFrames))
      && (result.Some? ==> Tracks(result.value, w.published[..|w.acquired|], LastId(leases)))
  {
    var w := Run(Start(tokenLimit, capacity, next), ops);
    ReachableInv(tokenLimit, capacity, next, ops);
    ParametersFixed(Start(tokenLimit, capacity, next), ops);
    MonitorAcceptsExactly(ExposeAll(w.acquired), Limits(tokenLimit, maximumFrames));
    DeliveryLegal(w, Limits(tokenLimit, maximumFrames));
  }

  /** After completion and a full drain, the final snapshot shows no audio left and equals the
      consumer's own totals. */
  lemma DrainedStreamMatchesSnapshot(tokenLimit: nat, capacity: nat, next: nat, ops: seq<Op>,
                                     maximumFrames: nat)
    requires Constructible(tokenLimit, capacity, next) && maximumFrames < UINT32
    requires var w := Run(Start(tokenLimit, capacity, next), ops);
             && w.s.phase == Completed && w.s.queue == []
             && Watch(FRESH, ExposeAll(w.acquired), Limits(tokenLimit, maximumFrames)).Some?
    ensures
      var w := Run(Start(tokenLimit, capacity, next), ops);
      var m := Watch(FRESH, ExposeAll(w.acquired), Limits(tokenLimit, maximumFrames)).value;
      && TakeSnapshot(w.s).Ok?
      && var v := Shown(w.s);
      && v.phase == Completed && v.available == 0
      && v.publishedSamples == m.sampleCount > 0
      && v.generatedFrames == m.sampleCount / SAMPLES_PER_FRAME
      && v.committed == m.lastToken
      && m.firstSeen && m.finalSeen && m.chunkCount == |w.published|
  {
    var w := Run(Start(tokenLimit, capacity, next), ops);
    ReachableInv(tokenLimit, capacity, next, ops);
    ProducerRefinesMonitor(tokenLimit, capacity, next, ops, maximumFrames);
    SnapshotTells(tokenLimit, capacity, next, ops);
    assert w.published[..|w.acquired|] == w.published;
    StreamSchedule(w.published, w.s.tokenLimit, 0);
    EndGrows(w.published, w.s.tokenLimit);
  }

  lemma {:induction false} EndGrows(p: seq<Chunk>, limit: nat)
    requires StreamOk(p, limit) && p != []
    ensures EndOf(p) >= INITIAL_FRAMES * SAMPLES_PER_FRAME
    decreases |p|
  {
    if |p| > 1 {
      StreamSchedule(p, limit, |p| - 1);
    }
  }

  // ---------- a stream the producer accepts and the monitor does not ----------

  /** Four frames of silence whose only event falls on frame 1, half a decoder step. */
  function HalfStepChunk(): Chunk {
    Chunk(seq(4096, _ => Finite(0.0)), 0, 0, 4, true, false, true, 1, [Progress(1024, 1)])
  }

  /** The producer checks events against frames of 1024 samples, the monitor against decoder steps
      of 2048: this chunk is published and delivered, and then rejected. */
  lemma HalfStepEventRejected(maximumFrames: nat)
    requires 4 <= maximumFrames < UINT32
    ensures
      var c := HalfStepChunk();
      var w := Run(Start(2, 8, 1), [PublishOp(c), AcquireOp]);
      && w.published == [c] && w.acquired == [Lease(1, c)]
      && Watch(FRESH, ExposeAll(w.acquired), Limits(2, maximumFrames)) == None
  {
    var c := HalfStepChunk();
    var start := Start(2, 8, 1);
    var ops := [PublishOp(c), AcquireOp];
    assert Verdict(start.s, c) == Ok(());
    assert Run(start, ops) == Run(Step(start, PublishOp(c)), [AcquireOp]) by {
      assert ops[1..] == [AcquireOp];
    }
    var published := Step(start, PublishOp(c));
    assert published.s.queue == [c];
    assert Run(published, [AcquireOp]) == Step(published, AcquireOp) by {
      assert [AcquireOp][1..] == [];
    }
    assert Run(start, ops).acquired[0].chunk == c;
    assert !StepAligned(c, 0);
    ProducerRefinesMonitor(2, 8, 1, ops, maximumFrames);
  }

  // ---------- snapshots ----------

  lemma {:induction false} CutExact(message: string, room: nat)
    ensures
      var cut := CutAt(message, room);
      && |cut| <= room && cut <= message && '\0' !in cut
      && (|cut| == room || |cut| == |message| || message[|cut|] == '\0')
    decreases room
  {
    if message != "" && room > 0 && message[0] != '\0' {
      CutExact(message[1..], room - 1);
      var rest := CutAt(message[1..], room - 1);
      assert message == [message[0]] + message[1..];
      assert CutAt(message, room) == [message[0]] + rest;
    }
  }

  /** What the consumer sees of a message: all of it up to the first NUL, or as much as 511
      characters; nothing exactly when it is empty or begins with NUL. */
  lemma PublicMessageExact(message: string)
    ensures
      var shown := PublicMessage(message);
      && |shown| <= 511 && shown <= message && '\0' !in shown
      && (|shown| == 511 || |shown| == |message| || message[|shown|] == '\0')
      && (shown != "" <==> message != "" && message[0] != '\0')
  {
    CutExact(message, 511);
  }

  /** The failures the monitor knows are those `fail` lets through, among the fifteen declared
      statuses. */
  lemma TerminalFailures(status: int, stage: int, message: string)
    ensures IsTerminalFailure(status) <==> FailureDeclared(status, 1, "x") && status <= 15
    ensures FailureDeclared(status, stage, message)
       <==> (IsTerminalFailure(status) || status > 15) && stage >= 1 && |message| >= 1
  {
  }

  /** What `fail` itself does not check: a declared status and stage, a message that is not
      empty as a C string. */
  predicate PublicDiagnostic(s: State) {
    s.phase == Failed ==>
      IsTerminalFailure(s.status) && s.stage <= STAGE_CODEC && PublicMessage(s.message) != ""
  }

  predicate Watchable(s: State, maximumFrames: nat) {
    s.generatedFrames <= maximumFrames && PublicDiagnostic(s)
  }

  function Shown(s: State): Snapshot
    requires TakeSnapshot(s).Ok?
  {
    ExposeSnapshot(TakeSnapshot(s).value)
  }

  lemma ShownOk(w: World)
    requires Inv(w)
    ensures TakeSnapshot(w.s).Ok?
  {
    QueueCounted(w.s, w.published, |w.acquired|);
  }

  lemma DiagnosticMatches(s: State)
    requires StateInv(s) && TakeSnapshot(s).Ok?
    ensures DiagnosticAccepted(Shown(s)) <==> PublicDiagnostic(s)
  {
  }

  lemma SnapshotAlone(s: State, limits: Limits, after: Option<nat>)
    requires StateInv(s) && TakeSnapshot(s).Ok?
    requires limits.tokenCount == s.tokenLimit && limits.maximumFrames < UINT32
    requires after.Some? ==> s.revision > after.value
    ensures SnapshotAccepted(None, Shown(s), limits, after) <==> Watchable(s, limits.maximumFrames)
  {
    DiagnosticMatches(s);
  }

  /** A failure the request accepts is shown to the consumer as an acceptable one exactly when its
      status and stage are declared ones and its message survives as a C string; the request
      itself also accepts others, such as status 16 or a message that starts with NUL. */
  lemma AcceptedFailureIsPublic(s: State, status: int, stage: int, message: string,
                                limits: Limits)
    requires StateInv(s) && s.phase == Running && |s.queue| < UINT32
    requires FailureDeclared(status, stage, message)
    requires limits.tokenCount == s.tokenLimit
    requires s.generatedFrames <= limits.maximumFrames < UINT32
    ensures
      var (t, r) := Fail(s, status, stage, message);
      && r == Ok(()) && TakeSnapshot(t).Ok?
      && (SnapshotAccepted(None, Shown(t), limits, None)
          <==> status <= 15 && stage <= 11 && message[0] != '\0')
  {
    DiscardExact(s.queue, s.occupied);
    PublicMessageExact(message);
  }

  /** Two failures a fresh request accepts and the monitor then rejects. */
  lemma UndeclaredFailuresRejected(tokenLimit: nat, capacity: nat, maximumFrames: nat)
    requires Constructible(tokenLimit, capacity, 1) && maximumFrames < UINT32
    ensures
      var limits := Limits(tokenLimit, maximumFrames);
      var (s, r) := Fail(Initial(tokenLimit, capacity), 16, 1, "x");
      var (t, q) := Fail(Initial(tokenLimit, capacity), 13, 1, "\0x");
      && r == q == Ok(()) && TakeSnapshot(s).Ok? && TakeSnapshot(t).Ok?
      && !SnapshotAccepted(None, Shown(s), limits, None)
      && !SnapshotAccepted(None, Shown(t), limits, None)
  {
    var limits := Limits(tokenLimit, maximumFrames);
    StartInv(tokenLimit, capacity, 1);
    AcceptedFailureIsPublic(Initial(tokenLimit, capacity), 16, 1, "x", limits);
    AcceptedFailureIsPublic(Initial(tokenLimit, capacity), 13, 1, "\0x", limits);
  }

  lemma LaterFollows(w: World, ops: seq<Op>)
    requires Inv(w) && TakeSnapshot(w.s).Ok? && TakeSnapshot(Run(w, ops).s).Ok?
    ensures Follows(Shown(w.s), Shown(Run(w, ops).s))
  {
    VersionStamp(w, ops);
  }

  /** Any two snapshots of one run, in order: the later one is accepted exactly when the state is
      within the frame limit and its failure, if any, carries a public diagnostic. */
  lemma SnapshotPairAccepted(w: World, ops: seq<Op>, limits: Limits, after: Option<nat>)
    requires Inv(w) && limits.tokenCount == w.s.tokenLimit && limits.maximumFrames < UINT32
    requires after.Some? ==> Run(w, ops).s.revision > after.value
    ensures TakeSnapshot(w.s).Ok? && TakeSnapshot(Run(w, ops).s).Ok?
    ensures SnapshotAccepted(Some(Shown(w.s)), Shown(Run(w, ops).s), limits, after)
       <==> Watchable(Run(w, ops).s, limits.maximumFrames)
    ensures SnapshotAccepted(None, Shown(Run(w, ops).s), limits, after)
       <==> Watchable(Run(w, ops).s, limits.maximumFrames)
  {
    RunInv(w, ops);
    ShownOk(w);
    ShownOk(Run(w, ops));
    LaterFollows(w, ops);
    ParametersFixed(w, ops);
    SnapshotAlone(Run(w, ops).s, limits, after);
  }

  /** What any accepted snapshot tells, whoever took it. */
  lemma AcceptedSnapshotMeans(previous: Option<Snapshot>, s: Snapshot, limits: Limits,
                              after: Option<nat>)
    requires SnapshotAccepted(previous, s, limits, after)
    ensures s.publishedSamples == s.generatedFrames * SAMPLES_PER_FRAME <= UINT64_MAX
    ensures s.generatedFrames <= limits.maximumFrames && s.committed <= limits.tokenCount
    ensures s.phase in {Running, Completed} <==> s.status == 0
    ensures s.phase == Cancelled <==> s.status == 10
    ensures s.phase == Failed <==> IsTerminalFailure(s.status)
    ensures s.phase == Failed <==> s.message != ""
    ensures s.stage == (if s.phase == Failed then s.stage
                        else if s.phase == Cancelled then 6 else 0)
    ensures s.phase == Failed ==> 1 <= s.stage <= STAGE_CODEC
    ensures after.Some? ==> s.revision > after.value
  {
  }

  /** Whether the monitor accepts these snapshots in turn; `after` are the revisions waited from. */
  predicate AcceptsInTurn(previous: Option<Snapshot>, snapshots: seq<Snapshot>,
                          after: seq<Option<nat>>, limits: Limits)
    requires |after| == |snapshots|
    decreases |snapshots|
  {
    snapshots == []
    || (&& SnapshotAccepted(previous, snapshots[0], limits, after[0])
        && AcceptsInTurn(Some(snapshots[0]), snapshots[1..], after[1..], limits))
  }

  /** Each snapshot is in order by itself, and any later one follows any earlier one. */
  predicate Consistent(snapshots: seq<Snapshot>, after: seq<Option<nat>>, limits: Limits)
    requires |after| == |snapshots|
  {
    && (forall i :: 0 <= i < |snapshots| ==>
          SnapshotAccepted(None, snapshots[i], limits, after[i]))
    && (forall i, j :: 0 <= i < j < |snapshots| ==> Follows(snapshots[i], snapshots[j]))
  }

  /** What it means that a snapshot follows another. */
  lemma FollowsMeans(p: Snapshot, s: Snapshot)
    requires Follows(p, s)
    ensures p.revision <= s.revision && (p.revision == s.revision ==> s == p)
    ensures p.generatedFrames <= s.generatedFrames && p.publishedSamples <= s.publishedSamples
    ensures p.committed <= s.committed
    ensures s.phase == Running ==> p.phase == Running
    ensures p.phase in {Completed, Cancelled, Failed} ==> s.phase == p.phase
    ensures p.phase == Failed ==>
              s.status == p.status && s.stage == p.stage && s.message == p.message
  {
  }

  lemma FollowsTransitive(p: Snapshot, q: Snapshot, r: Snapshot)
    requires Follows(p, q) && Follows(q, r)
    ensures Follows(p, r)
  {
  }

  lemma ConsistentFirst(snapshots: seq<Snapshot>, after: seq<Option<nat>>, limits: Limits)
    requires |after| == |snapshots| > 0
    ensures Consistent(snapshots, after, limits) <==>
            && SnapshotAccepted(None, snapshots[0], limits, after[0])
            && Consistent(snapshots[1..], after[1..], limits)
            && forall j :: 1 <= j < |snapshots| ==> Follows(snapshots[0], snapshots[j])
  {
    var rest := snapshots[1..];
    assert forall j :: 1 <= j < |snapshots| ==> snapshots[j] == rest[j - 1];
    assert forall j :: 1 <= j < |snapshots| ==> after[j] == after[1..][j - 1];
    assert forall j :: 0 <= j < |rest| ==> rest[j] == snapshots[j + 1];
  }

  /** The monitor compares a snapshot with its predecessor only, and that is enough: it accepts a
      sequence of snapshots exactly when every one is in order and follows all the earlier ones, so
      no revision goes back or is reused, no counter falls, and no terminal state or failure is ever
      taken back, however far apart they were seen. */
  lemma {:induction false} SnapshotsAcceptedExactly(snapshots: seq<Snapshot>,
                                                    after: seq<Option<nat>>, limits: Limits)
    requires |after| == |snapshots|
    ensures AcceptsInTurn(None, snapshots, after, limits) <==> Consistent(snapshots, after, limits)
    decreases |snapshots|
  {
    if snapshots != [] {
      AcceptedAfter(snapshots[0], snapshots[1..], after[1..], limits);
      ConsistentFirst(snapshots, after, limits);
      var rest := snapshots[1..];
      assert forall j :: 0 <= j < |rest| ==> rest[j] == snapshots[j + 1];
    }
  }

  lemma {:induction false} AcceptedAfter(previous: Snapshot, snapshots: seq<Snapshot>,
                                         after: seq<Option<nat>>, limits: Limits)
    requires |after| == |snapshots|
    ensures AcceptsInTurn(Some(previous), snapshots, after, limits)
       <==> && Consistent(snapshots, after, limits)
            && forall j :: 0 <= j < |snapshots| ==> Follows(previous, snapshots[j])
    decreases |snapshots|
  {
    if snapshots != [] {
      var rest := snapshots[1..];
      AcceptedAfter(snapshots[0], rest, after[1..], limits);
      ConsistentFirst(snapshots, after, limits);
      assert forall j :: 0 <= j < |rest| ==> rest[j] == snapshots[j + 1];
      if Follows(previous, snapshots[0]) {
        forall j | 1 <= j < |snapshots| && Follows(snapshots[0], snapshots[j])
          ensures Follows(previous, snapshots[j])
        {
          FollowsTransitive(previous, snapshots[0], snapshots[j]);
        }
      }
    }
  }

  /** A stretch of operations followed by an observation: a poll, or a wait from the revision
      last seen, which times out unless the revision has moved. */
  datatype Segment = Segment(ops: seq<Op>, wait: bool)

  /** The worlds a watcher observes along a run. */
  function Observed(w: World, seen: nat, segments: seq<Segment>): seq<World>
    decreases |segments|
  {
    if segments == [] then []
    else
      var v := Run(w, segments[0].ops);
      if segments[0].wait && v.s.revision <= seen then Observed(v, seen, segments[1..])
      else [v] + Observed(v, v.s.revision, segments[1..])
  }

  /** Whether the monitor accepts every snapshot the watcher takes. */
  predicate WatchSnapshots(previous: Option<Snapshot>, w: World, seen: nat,
                           segments: seq<Segment>, limits: Limits)
    decreases |segments|
  {
    segments == []
    || var v := Run(w, segments[0].ops);
       if segments[0].wait && v.s.revision <= seen then
         WatchSnapshots(previous, v, seen, segments[1..], limits)
       else
         && TakeSnapshot(v.s).Ok?
         && SnapshotAccepted(previous, Shown(v.s), limits,
                             if segments[0].wait then Some(seen) else None)
         && WatchSnapshots(Some(Shown(v.s)), v, v.s.revision, segments[1..], limits)
  }

  lemma {:induction false} RunConcat(w: World, a: seq<Op>, b: seq<Op>)
    ensures Run(w, a + b) == Run(Run(w, a), b)
    decreases |a|
  {
    if a == [] {
      assert a + b == b;
    } else {
      assert (a + b)[0] == a[0] && (a + b)[1..] == a[1..] + b;
      RunConcat(Step(w, a[0]), a[1..], b);
    }
  }

  /** For a monitor that starts with the request and every way of polling and waiting along every
      run: all snapshots are accepted exactly when every observed state is watchable. */
  lemma AllSnapshotsAccepted(tokenLimit: nat, capacity: nat, next: nat, segments: seq<Segment>,
                             maximumFrames: nat)
    requires Constructible(tokenLimit, capacity, next) && maximumFrames < UINT32
    ensures
      var w := Start(tokenLimit, capacity, next);
      WatchSnapshots(None, w, 0, segments, Limits(tokenLimit, maximumFrames))
      <==> forall v :: v in Observed(w, 0, segments) ==> Watchable(v.s, maximumFrames)
  {
    var w := Start(tokenLimit, capacity, next);
    StartInv(tokenLimit, capacity, next);
    assert Run(w, []) == w;
    EverySnapshotAccepted(w, [], w, false, 0, segments, Limits(tokenLimit, maximumFrames));
  }

  /** The same from the middle of a run, after `past` operations since the last snapshot, if any. */
  lemma {:induction false} EverySnapshotAccepted(base: World, past: seq<Op>, w: World,
                                                 previous: bool, seen: nat,
                                                 segments: seq<Segment>, limits: Limits)
    requires Inv(base) && w == Run(base, past)
    requires limits.tokenCount == base.s.tokenLimit && limits.maximumFrames < UINT32
    requires TakeSnapshot(base.s).Ok?
    ensures WatchSnapshots(if previous then Some(Shown(base.s)) else None, w, seen, segments,
                           limits)
       <==> forall v :: v in Observed(w, seen, segments) ==> Watchable(v.s, limits.maximumFrames)
    decreases |segments|
  {
    if segments != [] {
      var v := Run(w, segments[0].ops);
      var path := past + segments[0].ops;
      RunConcat(base, past, segments[0].ops);
      if segments[0].wait && v.s.revision <= seen {
        EverySnapshotAccepted(base, path, v, previous, seen, segments[1..], limits);
      } else {
        SnapshotPairAccepted(base, path, limits, if segments[0].wait then Some(seen) else None);
        RunInv(base, path);
        ParametersFixed(base, path);
        EverySnapshotAccepted(v, [], v, true, v.s.revision, segments[1..], limits);
        assert v in Observed(w, seen, segments);
      }
    }
  }
}
