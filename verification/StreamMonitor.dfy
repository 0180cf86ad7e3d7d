/** The consumer-side monitor of the smoke tool: an independent check of every leased chunk and
    of every request snapshot that crosses the C boundary. */
module StreamMonitor {
  import opened Options
  import opened Request

  const DECODER_STEP_SAMPLES: nat := 2048
  const MESSAGE_CAPACITY: nat := 512
  const STAGE_CODEC: int := 11

  /** A lease as the C boundary shows it: an empty buffer has a null pointer. */
  datatype PublicLease = PublicLease(
    id: nat,
    hasSamples: bool,
    samples: seq<Sample>,
    firstSample: nat,
    sequence: nat,
    first: bool,
    final: bool,
    aligned: bool,
    tokens: nat,
    hasEvents: bool,
    events: seq<Progress>)

  function Expose(l: Lease): PublicLease {
    PublicLease(l.id, l.chunk.samples != [], l.chunk.samples, l.chunk.firstSample,
                l.chunk.sequence, l.chunk.first, l.chunk.final, l.chunk.aligned, l.chunk.tokens,
                l.chunk.events != [], l.chunk.events)
  }

  datatype Metrics = Metrics(
    chunkCount: nat,
    sampleCount: nat,
    expectedSequence: nat,
    expectedSample: nat,
    lastLease: Option<nat>,
    lastSample: nat,
    lastToken: nat,
    firstSeen: bool,
    finalSeen: bool,
    markerSeen: bool)

  const FRESH := Metrics(0, 0, 0, 0, None, 0, 0, false, false, false)

  /** The request and model facts the monitor is given: token count and frame limit. */
  datatype Limits = Limits(tokenCount: nat, maximumFrames: nat)

  // ---------- leases ----------

  function LeaseEnd(l: PublicLease): nat {
    l.firstSample + |l.samples|
  }

  function LeaseFrames(l: PublicLease): nat {
    |l.samples| / SAMPLES_PER_FRAME
  }

  predicate GeometryAccepted(m: Metrics, l: PublicLease, limits: Limits) {
    && l.id != 0
    && (m.lastLease.Some? ==> l.id > m.lastLease.value)
    && l.hasSamples == (l.samples != [])
    && |l.samples| % SAMPLES_PER_FRAME == 0
    && LeaseFrames(l) <= STEADY_FRAMES
    && l.sequence == m.expectedSequence
    && l.firstSample == m.expectedSample
    && LeaseEnd(l) <= UINT64_MAX
    && l.first == (m.expectedSequence == 0)
    && !m.finalSeen
    && (l.samples == [] ==> l.final && !l.first)
    && (l.first ==> LeaseFrames(l) == INITIAL_FRAMES)
    && (!l.first && !l.final ==> LeaseFrames(l) == STEADY_FRAMES)
    && m.sampleCount / SAMPLES_PER_FRAME + LeaseFrames(l) <= limits.maximumFrames
    && forall i :: 0 <= i < |l.samples| ==> l.samples[i].Finite?
  }

  function EventSampleBefore(m: Metrics, l: PublicLease, k: nat): nat
    requires k <= |l.events|
  {
    if k == 0 then m.lastSample else l.events[k - 1].sample
  }

  function EventTokenBefore(m: Metrics, l: PublicLease, k: nat): nat
    requires k <= |l.events|
  {
    if k == 0 then m.lastToken else l.events[k - 1].tokens
  }

  /** An event on a full decoder step, or at the very end of the FINAL lease. */
  predicate EventAccepted(m: Metrics, l: PublicLease, k: nat, limits: Limits)
    requires k < |l.events|
  {
    var e := l.events[k];
    && EventSampleBefore(m, l, k) < e.sample
    && l.firstSample < e.sample <= LeaseEnd(l)
    && (e.sample % DECODER_STEP_SAMPLES == 0
        || (l.final && e.sample == LeaseEnd(l) && e.sample % SAMPLES_PER_FRAME == 0))
    && EventTokenBefore(m, l, k) < e.tokens <= limits.tokenCount
  }

  predicate ProgressAccepted(m: Metrics, l: PublicLease, limits: Limits) {
    && l.hasEvents == (l.events != [])
    && (!l.aligned ==> l.events == [] && l.tokens == 0)
    && (l.aligned ==> m.lastToken <= l.tokens <= limits.tokenCount)
    && (l.aligned && l.events == [] ==> l.tokens == m.lastToken)
    && |l.events| <= (|l.samples| + DECODER_STEP_SAMPLES - 1) / DECODER_STEP_SAMPLES
    && (forall k :: 0 <= k < |l.events| ==> EventAccepted(m, l, k, limits))
    && (l.aligned ==> l.tokens == EventTokenBefore(m, l, |l.events|))
  }

  predicate LeaseAccepted(m: Metrics, l: PublicLease, limits: Limits) {
    GeometryAccepted(m, l, limits) && ProgressAccepted(m, l, limits)
  }

  function Absorb(m: Metrics, l: PublicLease): Metrics {
    m.(chunkCount := m.chunkCount + 1,
       sampleCount := m.sampleCount + |l.samples|,
       expectedSequence := m.expectedSequence + 1,
       expectedSample := LeaseEnd(l),
       lastLease := Some(l.id),
       lastSample := EventSampleBefore(m, l, |l.events|),
       lastToken := EventTokenBefore(m, l, |l.events|),
       firstSeen := m.firstSeen || l.first,
       finalSeen := l.final,
       markerSeen := m.markerSeen || l.samples == [])
  }

  // ---------- snapshots ----------

  /** The C string a message becomes: cut at the first NUL and at the buffer capacity. */
  function PublicMessage(message: string): string {
    CutAt(message, MESSAGE_CAPACITY - 1)
  }

  function CutAt(message: string, room: nat): string {
    if message == "" || room == 0 || message[0] == '\0' then ""
    else [message[0]] + CutAt(message[1..], room - 1)
  }

  function ExposeSnapshot(s: Snapshot): Snapshot {
    s.(message := PublicMessage(s.message))
  }

  /** The statuses a FAILED request may carry. */
  predicate IsTerminalFailure(status: int) {
    status in {1, 2, 4, 5, 6, 7, 8, 9, 13, 14, 15}
  }

  predicate DiagnosticAccepted(s: Snapshot) {
    && 0 <= s.stage <= STAGE_CODEC
    && match s.phase
       case Running => s.status == 0 && s.stage == 0 && s.message == ""
       case Completed => s.status == 0 && s.stage == 0 && s.message == ""
       case Cancelled => s.status == 10 && s.stage == 6 && s.message == ""
       case Failed => IsTerminalFailure(s.status) && s.stage != 0 && s.message != ""
  }

  predicate SnapshotAccepted(previous: Option<Snapshot>, s: Snapshot, limits: Limits,
                             after: Option<nat>)
  {
    && s.committed <= limits.tokenCount
    && (after.Some? ==> s.revision > after.value)
    && s.generatedFrames <= limits.maximumFrames
    && s.generatedFrames <= UINT64_MAX / SAMPLES_PER_FRAME
    && s.publishedSamples == s.generatedFrames * SAMPLES_PER_FRAME
    && DiagnosticAccepted(s)
    && (previous.Some? ==> Follows(previous.value, s))
  }

  predicate Follows(p: Snapshot, s: Snapshot) {
    && p.revision <= s.revision
    && p.generatedFrames <= s.generatedFrames
    && p.publishedSamples <= s.publishedSamples
    && p.committed <= s.committed
    && (p.revision == s.revision ==> p == s)
    && (p.phase != Running ==> s.phase == p.phase)
    && (p.phase == Failed ==> s.status == p.status && s.stage == p.stage && s.message == p.message)
  }

  // ---------- the monitor object ----------

  class Monitor {
    const limits: Limits
    var metrics: Metrics
    var lastSnapshot: Option<Snapshot>

    constructor (limits: Limits)
      ensures this.limits == limits && metrics == FRESH && lastSnapshot == None
    {
      this.limits := limits;
      metrics, lastSnapshot := FRESH, None;
    }

    /** Checks one lease; an accepted lease is absorbed, a rejected one leaves the metrics. */
    method ValidateLease(l: PublicLease) returns (ok: bool)
      modifies this`metrics
      ensures ok <==> LeaseAccepted(old(metrics), l, limits)
      ensures metrics == if ok then Absorb(old(metrics), l) else old(metrics)
    {
      ok := CheckGeometry(l);
      if !ok {
        return;
      }
      var lastSample, lastToken;
      ok, lastSample, lastToken := CheckProgress(l);
      if !ok {
        return;
      }
      metrics := metrics.(
        firstSeen := metrics.firstSeen || l.first,
        finalSeen := l.final,
        markerSeen := metrics.markerSeen || |l.samples| == 0,
        chunkCount := metrics.chunkCount + 1,
        sampleCount := metrics.sampleCount + |l.samples|,
        lastLease := Some(l.id),
        lastSample := lastSample,
        lastToken := lastToken,
        expectedSequence := metrics.expectedSequence + 1,
        expectedSample := l.firstSample + |l.samples|);
    }

    method CheckGeometry(l: PublicLease) returns (ok: bool)
      ensures ok <==> GeometryAccepted(metrics, l, limits)
    {
      var marker := |l.samples| == 0;
      var frames := |l.samples| / SAMPLES_PER_FRAME;
      var drained := metrics.sampleCount / SAMPLES_PER_FRAME;
      if l.id == 0 {
        return false;
      }
      if metrics.lastLease.Some? && l.id <= metrics.lastLease.value {
        return false;
      }
      if (marker && l.hasSamples) || (!marker && !l.hasSamples) {
        return false;
      }
      if |l.samples| % SAMPLES_PER_FRAME != 0 || frames > 8 {
        return false;
      }
      if l.sequence != metrics.expectedSequence || l.firstSample != metrics.expectedSample {
        return false;
      }
      if l.firstSample > UINT64_MAX - |l.samples| {
        return false;
      }
      if l.first != (metrics.expectedSequence == 0) || metrics.finalSeen {
        return false;
      }
      if marker && (!l.final || l.first) {
        return false;
      }
      if (l.first && frames != 4) || (!l.first && !l.final && frames != 8) {
        return false;
      }
      if l.final && !marker && (frames < 1 || frames > 8) {
        return false;
      }
      if drained > limits.maximumFrames || frames > limits.maximumFrames - drained {
        return false;
      }
      for i := 0 to |l.samples|
        invariant forall j :: 0 <= j < i ==> l.samples[j].Finite?
      {
        if l.samples[i].NonFinite? {
          return false;
        }
      }
      return true;
    }

    method CheckProgress(l: PublicLease) returns (ok: bool, lastSample: nat, lastToken: nat)
      ensures ok <==> ProgressAccepted(metrics, l, limits)
      ensures ok ==> lastSample == EventSampleBefore(metrics, l, |l.events|)
      ensures ok ==> lastToken == EventTokenBefore(metrics, l, |l.events|)
    {
      lastSample, lastToken := metrics.lastSample, metrics.lastToken;
      if (l.events == [] && l.hasEvents) || (l.events != [] && !l.hasEvents) {
        return false, lastSample, lastToken;
      }
      if !l.aligned && (l.events != [] || l.tokens != 0) {
        return false, lastSample, lastToken;
      }
      if l.aligned && (l.tokens < lastToken || l.tokens > limits.tokenCount) {
        return false, lastSample, lastToken;
      }
      if l.aligned && l.events == [] && l.tokens != lastToken {
        return false, lastSample, lastToken;
      }
      if |l.events| > (|l.samples| + DECODER_STEP_SAMPLES - 1) / DECODER_STEP_SAMPLES {
        return false, lastSample, lastToken;
      }
      var k := 0;
      while k < |l.events|
        invariant 0 <= k <= |l.events|
        invariant lastSample == EventSampleBefore(metrics, l, k)
        invariant lastToken == EventTokenBefore(metrics, l, k)
        invariant forall j :: 0 <= j < k ==> EventAccepted(metrics, l, j, limits)
      {
        var e := l.events[k];
        var fullStep := e.sample % DECODER_STEP_SAMPLES == 0;
        var terminalBoundary :=
          l.final && e.sample == l.firstSample + |l.samples| && e.sample % SAMPLES_PER_FRAME == 0;
        if e.sample <= lastSample || e.sample <= l.firstSample
           || e.sample > l.firstSample + |l.samples|
           || (!fullStep && !terminalBoundary)
           || e.tokens <= lastToken || e.tokens > limits.tokenCount {
          assert !EventAccepted(metrics, l, k, limits);
          return false, lastSample, lastToken;
        }
        lastSample, lastToken := e.sample, e.tokens;
        k := k + 1;
      }
      ok := !(l.aligned && l.tokens != lastToken);
    }

    /** Checks one snapshot against its predecessor; `after` is the revision a wait began from. */
    method ValidateSnapshot(s: Snapshot, after: Option<nat>) returns (ok: bool)
      modifies this`lastSnapshot
      ensures ok <==> SnapshotAccepted(old(lastSnapshot), s, limits, after)
      ensures lastSnapshot == if ok then Some(s) else old(lastSnapshot)
    {
      if s.committed > limits.tokenCount {
        return false;
      }
      if after.Some? && s.revision <= after.value {
        return false;
      }
      if s.generatedFrames > limits.maximumFrames {
        return false;
      }
      if s.generatedFrames > UINT64_MAX / SAMPLES_PER_FRAME
         || s.publishedSamples != s.generatedFrames * SAMPLES_PER_FRAME {
        return false;
      }
      if s.stage < 0 || s.stage > STAGE_CODEC {
        return false;
      }
      match s.phase {
        case Cancelled =>
          if s.status != 10 || s.stage != 6 || s.message != "" {
            return false;
          }
        case Failed =>
          if !IsTerminalFailure(s.status) || s.stage == 0 || s.message == "" {
            return false;
          }
        case _ =>
          if s.status != 0 || s.stage != 0 || s.message != "" {
            return false;
          }
      }
      if lastSnapshot.Some? {
        var p := lastSnapshot.value;
        if s.revision < p.revision || s.generatedFrames < p.generatedFrames
           || s.publishedSamples < p.publishedSamples || s.committed < p.committed {
          return false;
        }
        if s.revision == p.revision && s != p {
          return false;
        }
        if p.phase != Running && s.phase != p.phase {
          return false;
        }
        if p.phase == Failed
           && (s.status != p.status || s.stage != p.stage || s.message != p.message) {
          return false;
        }
      }
      lastSnapshot := Some(s);
      return true;
    }
  }
}
