/** How the synthesis pipeline turns one batch of decoder-step diagnostics into a chunk: where EOS
    cuts the batch, and which text-progress events the chunk carries. */
module Emission {
  import opened Options
  import opened Request
  import opened RequestRuns
  import opened RequestGuarantees
  import opened StreamMonitor
  import opened MonitorRefinement

  const FRAMES_PER_STEP: nat := 2
  const INITIAL_STEPS: nat := 2
  const STEADY_STEPS: nat := 4

  datatype StepDiagnostics =
    StepDiagnostics(attended: int, eos: int, alignmentInvalid: bool, localInvalid: bool)

  datatype Batch = Batch(frames: nat, final: bool, attended: seq<nat>)

  /** What the device reports for one batch: whether the packed payload is well-formed, the Main
      Decoder's status, the steps, and whether the decoder context is used up. */
  datatype Report = Report(payloadValid: bool, decoderStatus: int, steps: seq<StepDiagnostics>,
                           exhausted: bool)

  datatype EmissionError =
    | AlignmentFailure
    | LocalArFailure
    | MainDecoderFailure
    | ContextExhausted
    | InvariantFailure

  datatype Emitted<+T> = Emitted(value: T) | Rejected(error: EmissionError)

  // ---------- the batch ----------

  predicate StepValid(d: StepDiagnostics, tokenCount: nat) {
    !d.alignmentInvalid && !d.localInvalid && 0 <= d.attended < tokenCount && d.eos in {-1, 0, 1}
  }

  /** A valid step attends inside the text and ends at one of its frames or not at all. */
  lemma StepValidMeans(d: StepDiagnostics, tokenCount: nat)
    ensures StepValid(d, tokenCount) <==>
            && !d.alignmentInvalid && !d.localInvalid
            && 0 <= d.attended <= tokenCount - 1
            && -1 <= d.eos <= FRAMES_PER_STEP - 1
  {
  }

  /** The first step at which EOS is reported, or the step count. */
  function FirstEos(steps: seq<StepDiagnostics>): (k: nat)
    ensures k <= |steps|
    ensures forall j :: 0 <= j < k ==> steps[j].eos < 0
    ensures k < |steps| ==> steps[k].eos >= 0
  {
    if steps == [] || steps[0].eos >= 0 then 0 else 1 + FirstEos(steps[1..])
  }

  /** Payload and decoder must be in order, every step valid, even those after EOS, and an
      exhausted context must end in EOS. */
  predicate BatchAccepted(report: Report, tokenCount: nat) {
    && report.payloadValid && report.decoderStatus == 0
    && (forall k :: 0 <= k < |report.steps| ==> StepValid(report.steps[k], tokenCount))
    && (report.exhausted ==> FirstEos(report.steps) < |report.steps|)
  }

  /** Accepted is what is in order throughout and, where the context is used up, ended in time. */
  lemma BatchAcceptedMeans(report: Report, tokenCount: nat)
    ensures BatchAccepted(report, tokenCount) <==>
            && report.payloadValid && !(report.decoderStatus != 0)
            && (forall d :: d in report.steps ==> StepValid(d, tokenCount))
            && (report.exhausted ==> exists d :: d in report.steps && d.eos >= 0)
  {
    var steps := report.steps;
    if FirstEos(steps) < |steps| {
      assert steps[FirstEos(steps)] in steps;
    }
    if forall d :: d in steps ==> StepValid(d, tokenCount) {
      forall k | 0 <= k < |steps| ensures StepValid(steps[k], tokenCount) {
        assert steps[k] in steps;
      }
    }
  }

  /** What a batch carries: the steps up to and including EOS, the frames before it. */
  predicate BatchOf(steps: seq<StepDiagnostics>, b: Batch) {
    var e := FirstEos(steps);
    && b.final == (e < |steps|)
    && |b.attended| == (if b.final then e + 1 else |steps|)
    && (forall k :: 0 <= k < |b.attended| ==> b.attended[k] == steps[k].attended)
    && b.frames == (if b.final then FRAMES_PER_STEP * e + steps[e].eos
                    else FRAMES_PER_STEP * |steps|)
  }

  predicate FirstInvalid(steps: seq<StepDiagnostics>, tokenCount: nat, k: nat) {
    && k < |steps| && !StepValid(steps[k], tokenCount)
    && forall j :: 0 <= j < k ==> StepValid(steps[j], tokenCount)
  }

  /** The first invalid step is blamed on the alignment, unless Local AR rejected it or, with its text
      position in range, ended it at no frame of the step. */
  predicate BlamesAlignment(d: StepDiagnostics, tokenCount: nat) {
    d.alignmentInvalid || (!d.localInvalid && !(0 <= d.attended < tokenCount))
  }

  method CheckStep(d: StepDiagnostics, tokenCount: nat) returns (fault: Option<EmissionError>)
    ensures fault
         == if StepValid(d, tokenCount) then None
            else if BlamesAlignment(d, tokenCount) then Some(AlignmentFailure)
            else Some(LocalArFailure)
  {
    if d.alignmentInvalid {
      return Some(AlignmentFailure);
    }
    if d.localInvalid {
      return Some(LocalArFailure);
    }
    if d.attended < 0 || d.attended >= tokenCount {
      return Some(AlignmentFailure);
    }
    if d.eos != -1 && d.eos != 0 && d.eos != 1 {
      return Some(LocalArFailure);
    }
    return None;
  }

  method AwaitBatch(report: Report, tokenCount: nat) returns (r: Emitted<Batch>)
    ensures r.Emitted? <==> BatchAccepted(report, tokenCount)
    ensures r.Emitted? ==> BatchOf(report.steps, r.value)
    ensures r == Rejected(InvariantFailure) <==> !report.payloadValid
    ensures r == Rejected(MainDecoderFailure)
       <==> report.payloadValid && report.decoderStatus != 0
    ensures r == Rejected(ContextExhausted)
       <==> && BatchAccepted(report.(exhausted := false), tokenCount)
            && report.exhausted && FirstEos(report.steps) == |report.steps|
    ensures r == Rejected(AlignmentFailure)
       <==> && report.payloadValid && report.decoderStatus == 0
            && exists k: nat :: FirstInvalid(report.steps, tokenCount, k)
                                && BlamesAlignment(report.steps[k], tokenCount)
  {
    if !report.payloadValid {
      return Rejected(InvariantFailure);
    }
    if report.decoderStatus != 0 {
      return Rejected(MainDecoderFailure);
    }
    var fault, batch := ReadSteps(report.steps, tokenCount);
    if fault.Some? {
      return Rejected(fault.value);
    }
    if !batch.final && report.exhausted {
      return Rejected(ContextExhausted);
    }
    return Emitted(batch);
  }

  /** The loop over the reported steps: the first fault, or the batch. */
  method ReadSteps(steps: seq<StepDiagnostics>, tokenCount: nat)
    returns (fault: Option<EmissionError>, batch: Batch)
    ensures fault.None? <==> forall k :: 0 <= k < |steps| ==> StepValid(steps[k], tokenCount)
    ensures fault.None? ==> BatchOf(steps, batch)
    ensures fault.Some? ==> fault.value == AlignmentFailure || fault.value == LocalArFailure
    ensures fault == Some(AlignmentFailure)
       <==> exists k: nat :: FirstInvalid(steps, tokenCount, k)
                             && BlamesAlignment(steps[k], tokenCount)
  {
    var attended: seq<nat> := [];
    var frames := |steps| * FRAMES_PER_STEP;
    var final := false;
    var k := 0;
    ghost var e := FirstEos(steps);
    while k < |steps|
      invariant 0 <= k <= |steps|
      invariant forall j :: 0 <= j < k ==> StepValid(steps[j], tokenCount)
      invariant final == (e < k)
      invariant |attended| == (if final then e + 1 else k)
      invariant forall j :: 0 <= j < |attended| ==> attended[j] == steps[j].attended
      invariant frames
             == if final then FRAMES_PER_STEP * e + steps[e].eos else FRAMES_PER_STEP * |steps|
    {
      var d := steps[k];
      fault := CheckStep(d, tokenCount);
      if fault.Some? {
        assert FirstInvalid(steps, tokenCount, k);
        return fault, Batch(0, false, []);
      }
      if !final {
        attended := attended + [d.attended];
        if d.eos >= 0 {
          frames := k * FRAMES_PER_STEP + d.eos;
          final := true;
        }
      }
      k := k + 1;
    }
    return None, Batch(frames, final, attended);
  }

  // ---------- the events ----------

  /** A batch as `AwaitBatch` makes it. */
  predicate BatchShape(b: Batch, tokenCount: nat) {
    && (!b.final ==> b.frames == FRAMES_PER_STEP * |b.attended|)
    && (b.final ==>
          && |b.attended| >= 1
          && 0 <= b.frames - FRAMES_PER_STEP * (|b.attended| - 1) <= 1)
    && (forall k :: 0 <= k < |b.attended| ==> b.attended[k] < tokenCount)
  }

  /** The frames of a final batch reach its terminal step. */
  predicate EosInside(b: Batch) {
    b.final && b.attended != [] ==> FRAMES_PER_STEP * (|b.attended| - 1) <= b.frames
  }

  /** The frames step k contributes: two, except that EOS truncates the terminal step. */
  function StepFrames(b: Batch, k: nat): nat
    requires k < |b.attended| && EosInside(b)
  {
    if b.final && k + 1 == |b.attended| then b.frames - FRAMES_PER_STEP * k else FRAMES_PER_STEP
  }

  function Latest(events: seq<Progress>, committed: nat): nat {
    if events == [] then committed else events[|events| - 1].tokens
  }

  /** The events of the first k steps: one per step that plays audio and advances the text. */
  function EventsOf(b: Batch, start: nat, committed: nat, limit: nat, k: nat): seq<Progress>
    requires EosInside(b) && k <= |b.attended|
  {
    if k == 0 then []
    else
      var earlier := EventsOf(b, start, committed, limit, k - 1);
      var frames := StepFrames(b, k - 1);
      var tokens := if b.attended[k - 1] < limit then b.attended[k - 1] + 1 else limit;
      if frames == 0 || tokens <= Latest(earlier, committed) then earlier
      else
        earlier + [Progress(start + (FRAMES_PER_STEP * (k - 1) + frames) * SAMPLES_PER_FRAME,
                            tokens)]
  }

  method BuildEvents(b: Batch, start: nat, committed: nat, limit: nat)
    returns (r: Emitted<(seq<Progress>, nat)>)
    ensures r.Emitted? <==> EosInside(b)
    ensures r.Emitted? ==> r.value.0 == EventsOf(b, start, committed, limit, |b.attended|)
    ensures r.Emitted? ==> r.value.1 == Latest(r.value.0, committed)
  {
    var events: seq<Progress> := [];
    var latest := committed;
    var k := 0;
    while k < |b.attended|
      invariant 0 <= k <= |b.attended|
      invariant k == |b.attended| ==> EosInside(b)
      invariant EosInside(b) ==> events == EventsOf(b, start, committed, limit, k)
      invariant latest == Latest(events, committed)
    {
      var before := k * FRAMES_PER_STEP;
      var terminal := b.final && k + 1 == |b.attended|;
      if terminal && b.frames < before {
        return Rejected(InvariantFailure);
      }
      var frames := if terminal then b.frames - before else FRAMES_PER_STEP;
      if frames != 0 {
        var boundary := start + (before + frames) * SAMPLES_PER_FRAME;
        var tokens := if b.attended[k] + 1 < limit then b.attended[k] + 1 else limit;
        if tokens > latest {
          events := events + [Progress(boundary, tokens)];
          latest := tokens;
        }
      }
      k := k + 1;
    }
    return Emitted((events, latest));
  }

  // ---------- the chunk ----------

  /** The chunk published for a batch, the zero-frame FINAL marker included. */
  function ChunkOf(b: Batch, pcm: seq<Sample>, sequence: nat, start: nat, committed: nat,
                   limit: nat): Chunk
    requires BatchShape(b, limit)
  {
    var events := EventsOf(b, start, committed, limit, |b.attended|);
    Chunk(pcm, start, sequence, b.frames, sequence == 0, b.final, true, Latest(events, committed),
          if b.frames == 0 then [] else events)
  }

  lemma BatchOfHasShape(steps: seq<StepDiagnostics>, tokenCount: nat, b: Batch)
    requires BatchOf(steps, b)
    requires forall k :: 0 <= k < |steps| ==> StepValid(steps[k], tokenCount)
    ensures BatchShape(b, tokenCount)
  {
    if b.final {
      assert StepValid(steps[FirstEos(steps)], tokenCount);
    }
    forall k | 0 <= k < |b.attended| ensures b.attended[k] < tokenCount {
      assert StepValid(steps[k], tokenCount);
    }
  }

  /** The events of a batch advance strictly, stay inside its frames, and stop on decoder steps or
      at the end of a FINAL batch. `c` is any chunk with the batch's geometry. */
  lemma {:induction false} EventsAdvance(b: Batch, c: Chunk, committed: nat, limit: nat, k: nat)
    requires BatchShape(b, limit) && k <= |b.attended|
    requires c.frames == b.frames && c.final == b.final
    requires c.firstSample % DECODER_STEP_SAMPLES == 0
    requires c.events == EventsOf(b, c.firstSample, committed, limit, k)
    ensures EventsOk(c, committed, limit)
    ensures forall j :: 0 <= j < |c.events| ==> StepAligned(c, j)
    ensures forall j :: 0 <= j < |c.events| ==>
              c.events[j].sample <= c.firstSample + DECODER_STEP_SAMPLES * k
    ensures committed <= Latest(c.events, committed)
    ensures committed <= limit ==> Latest(c.events, committed) <= limit
    decreases k
  {
    if k > 0 {
      var earlier := EventsOf(b, c.firstSample, committed, limit, k - 1);
      var d := c.(events := earlier);
      EventsAdvance(b, d, committed, limit, k - 1);
      forall j | 0 <= j < |c.events|
        ensures EventOk(c, j, committed, limit) && StepAligned(c, j)
      {
        if j < |earlier| {
          assert EventOk(d, j, committed, limit) && StepAligned(d, j);
        } else {
          StepBoundary(b, c.firstSample, k - 1);
        }
      }
    }
  }

  lemma StepBoundary(b: Batch, start: nat, k: nat)
    requires k < |b.attended| && EosInside(b)
    requires start % DECODER_STEP_SAMPLES == 0
    ensures
      var boundary := start + (FRAMES_PER_STEP * k + StepFrames(b, k)) * SAMPLES_PER_FRAME;
      && boundary % SAMPLES_PER_FRAME == 0
      && (StepFrames(b, k) == FRAMES_PER_STEP ==> boundary % DECODER_STEP_SAMPLES == 0)
  {
    var boundary := start + (FRAMES_PER_STEP * k + StepFrames(b, k)) * SAMPLES_PER_FRAME;
    assert boundary == start + DECODER_STEP_SAMPLES * k + SAMPLES_PER_FRAME * StepFrames(b, k);
  }

  // ---------- which text the events tell ----------

  /** Step j plays audio: the batch's frames reach into it. */
  predicate Plays(b: Batch, j: nat) {
    FRAMES_PER_STEP * j < b.frames
  }

  /** Where the audio of step j ends. */
  function Boundary(b: Batch, start: nat, j: nat): nat {
    start + (if FRAMES_PER_STEP * (j + 1) < b.frames then FRAMES_PER_STEP * (j + 1) else b.frames)
            * SAMPLES_PER_FRAME
  }

  /** The frames of a batch reach its terminal step exactly when every step before that plays in
      full. */
  lemma EosInsideMeans(b: Batch)
    ensures EosInside(b) <==>
            (b.final ==> forall k :: 0 <= k < |b.attended| - 1 ==>
                           Boundary(b, 0, k) == FRAMES_PER_STEP * (k + 1) * SAMPLES_PER_FRAME)
  {
    if b.final && |b.attended| >= 2 {
      var k := |b.attended| - 2;
      assert Boundary(b, 0, k) == FRAMES_PER_STEP * (k + 1) * SAMPLES_PER_FRAME
        <==> FRAMES_PER_STEP * (k + 1) <= b.frames;
    }
  }

  /** The text tokens spoken once step j is: up to and including the attended one. */
  function TokensAt(b: Batch, limit: nat, j: nat): nat
    requires j < |b.attended|
  {
    if b.attended[j] + 1 < limit then b.attended[j] + 1 else limit
  }

  /** Step j plays audio and gets further in the text than every earlier one that does. */
  predicate Advances(b: Batch, committed: nat, limit: nat, j: nat)
    requires j < |b.attended|
  {
    && Plays(b, j) && committed < TokensAt(b, limit, j)
    && forall i :: 0 <= i < j && Plays(b, i) ==> TokensAt(b, limit, i) < TokensAt(b, limit, j)
  }

  /** `t` is the furthest the first k steps get in the text, starting from `committed`. */
  predicate Furthest(b: Batch, committed: nat, limit: nat, k: nat, t: nat)
    requires k <= |b.attended|
  {
    && committed <= t
    && (forall j :: 0 <= j < k && Plays(b, j) ==> TokensAt(b, limit, j) <= t)
    && (t == committed || exists j :: 0 <= j < k && Plays(b, j) && TokensAt(b, limit, j) == t)
  }

  lemma StepPlays(b: Batch, start: nat, limit: nat, k: nat)
    requires BatchShape(b, limit) && k < |b.attended|
    ensures StepFrames(b, k) != 0 <==> Plays(b, k)
    ensures Plays(b, k) ==>
              start + (FRAMES_PER_STEP * k + StepFrames(b, k)) * SAMPLES_PER_FRAME
              == Boundary(b, start, k)
  {
  }

  lemma EventOfStep(b: Batch, start: nat, committed: nat, limit: nat, k: nat)
    requires BatchShape(b, limit) && k < |b.attended|
    ensures
      var earlier := EventsOf(b, start, committed, limit, k);
      EventsOf(b, start, committed, limit, k + 1)
      == if Plays(b, k) && TokensAt(b, limit, k) > Latest(earlier, committed) then
           earlier + [Progress(Boundary(b, start, k), TokensAt(b, limit, k))]
         else earlier
  {
    StepPlays(b, start, limit, k);
  }

  lemma FurthestNext(b: Batch, committed: nat, limit: nat, k: nat, t: nat)
    requires k < |b.attended| && Furthest(b, committed, limit, k, t)
    ensures Furthest(b, committed, limit, k + 1,
                     if Plays(b, k) && TokensAt(b, limit, k) > t then TokensAt(b, limit, k) else t)
    ensures Advances(b, committed, limit, k) <==> Plays(b, k) && TokensAt(b, limit, k) > t
  {
  }

  /** One event for each of the first k steps that advances: where its audio ends, and the text it
      reaches. */
  function AdvanceEvents(b: Batch, start: nat, committed: nat, limit: nat, k: nat): seq<Progress>
    requires k <= |b.attended|
    decreases k
  {
    if k == 0 then []
    else
      AdvanceEvents(b, start, committed, limit, k - 1)
      + if Advances(b, committed, limit, k - 1) then
          [Progress(Boundary(b, start, k - 1), TokensAt(b, limit, k - 1))]
        else []
  }

  /** The last event of the first k steps tells the furthest any of them gets. */
  lemma {:induction false} EventsReachFurthest(b: Batch, start: nat, committed: nat, limit: nat,
                                               k: nat)
    requires BatchShape(b, limit) && k <= |b.attended|
    ensures Furthest(b, committed, limit, k,
                     Latest(EventsOf(b, start, committed, limit, k), committed))
    decreases k
  {
    if k > 0 {
      EventsReachFurthest(b, start, committed, limit, k - 1);
      EventOfStep(b, start, committed, limit, k - 1);
      FurthestNext(b, committed, limit, k - 1,
                   Latest(EventsOf(b, start, committed, limit, k - 1), committed));
    }
  }

  lemma EventOfAdvance(b: Batch, start: nat, committed: nat, limit: nat, k: nat)
    requires BatchShape(b, limit) && k < |b.attended|
    ensures
      var earlier := EventsOf(b, start, committed, limit, k);
      EventsOf(b, start, committed, limit, k + 1)
      == if Advances(b, committed, limit, k) then
           earlier + [Progress(Boundary(b, start, k), TokensAt(b, limit, k))]
         else earlier
  {
    EventsReachFurthest(b, start, committed, limit, k);
    EventOfStep(b, start, committed, limit, k);
    FurthestNext(b, committed, limit, k,
                 Latest(EventsOf(b, start, committed, limit, k), committed));
  }

  /** The events of the first k steps are exactly those of the advances among them, in order. */
  lemma {:induction false} EventsAreAdvances(b: Batch, start: nat, committed: nat, limit: nat,
                                             k: nat)
    requires BatchShape(b, limit) && k <= |b.attended|
    ensures EventsOf(b, start, committed, limit, k) == AdvanceEvents(b, start, committed, limit, k)
    decreases k
  {
    if k > 0 {
      EventsAreAdvances(b, start, committed, limit, k - 1);
      EventOfAdvance(b, start, committed, limit, k - 1);
    }
  }

  /** Every emitted chunk is admissible where it is emitted, and its events are step-aligned: the
      initial two-step batch without EOS, then four-step batches. */
  lemma EmittedChunkAdmissible(b: Batch, pcm: seq<Sample>, sequence: nat, committed: nat,
                               limit: nat)
    requires BatchShape(b, limit) && committed <= limit
    requires |pcm| == b.frames * SAMPLES_PER_FRAME
    requires if sequence == 0 then |b.attended| == INITIAL_STEPS && !b.final
             else |b.attended| <= STEADY_STEPS && (!b.final ==> |b.attended| == STEADY_STEPS)
    ensures var c := ChunkOf(b, pcm, sequence, StartOf(sequence), committed, limit);
            && Admissible(c, sequence, StartOf(sequence), committed, limit)
            && forall j :: 0 <= j < |c.events| ==> StepAligned(c, j)
  {
    var c := ChunkOf(b, pcm, sequence, StartOf(sequence), committed, limit);
    var events := EventsOf(b, StartOf(sequence), committed, limit, |b.attended|);
    StartAligned(sequence);
    EventsAdvance(b, c.(events := events), committed, limit, |b.attended|);
    if b.frames == 0 {
      assert |b.attended| == 1 && EventsOf(b, StartOf(sequence), committed, limit, 0) == [];
    }
    assert c.events == events;
  }

  // ---------- whole emissions ----------

  /** What a batch at this place of a synthesis is, and the PCM decoded for it. */
  predicate BatchFits(b: Batch, pcm: seq<Sample>, place: nat, limit: nat) {
    && BatchShape(b, limit)
    && |pcm| == b.frames * SAMPLES_PER_FRAME
    && (if place == 0 then |b.attended| == INITIAL_STEPS && !b.final
        else |b.attended| <= STEADY_STEPS && (!b.final ==> |b.attended| == STEADY_STEPS))
  }

  /** The batches of one synthesis: an initial one, then steady ones up to the first FINAL. */
  predicate Synthesis(batches: seq<Batch>, pcm: seq<seq<Sample>>, limit: nat)
    decreases |batches|
  {
    && |pcm| == |batches|
    && (batches == []
        || var n := |batches| - 1;
           && Synthesis(batches[..n], pcm[..n], limit)
           && (n > 0 ==> !batches[n - 1].final)
           && BatchFits(batches[n], pcm[n], n, limit))
  }

  /** The chunks the pipeline publishes, with its own running sample, sequence and token counts. */
  function Chunks(batches: seq<Batch>, pcm: seq<seq<Sample>>, limit: nat): (p: seq<Chunk>)
    requires Synthesis(batches, pcm, limit)
    ensures |p| == |batches|
    decreases |batches|
  {
    if batches == [] then []
    else
      var n := |batches| - 1;
      var before := Chunks(batches[..n], pcm[..n], limit);
      before + [ChunkOf(batches[n], pcm[n], n, EndOf(before), CommittedAfter(before), limit)]
  }

  predicate AllStepAligned(p: seq<Chunk>) {
    forall k :: 0 <= k < |p| ==> EventsStepAligned(p[k])
  }

  /** The pipeline never emits a chunk the request rejects or the monitor would refuse for its
      events: whatever the decoder reports, its chunks form a legal stream. */
  lemma {:induction false} SynthesisIsLegalStream(batches: seq<Batch>, pcm: seq<seq<Sample>>,
                                                  limit: nat)
    requires Synthesis(batches, pcm, limit)
    ensures
      var p := Chunks(batches, pcm, limit);
      && |p| == |batches|
      && StreamOk(p, limit)
      && CommittedAfter(p) <= limit
      && AllStepAligned(p)
      && (Closed(p) <==> batches != [] && batches[|batches| - 1].final)
    decreases |batches|
  {
    if batches != [] {
      var n := |batches| - 1;
      SynthesisIsLegalStream(batches[..n], pcm[..n], limit);
      OneMoreChunk(Chunks(batches[..n], pcm[..n], limit), batches[n], pcm[n], limit);
    }
  }

  /** A legal open stream stays legal under the chunk of the next batch. */
  lemma OneMoreChunk(before: seq<Chunk>, b: Batch, pcm: seq<Sample>, limit: nat)
    requires StreamOk(before, limit) && !Closed(before) && CommittedAfter(before) <= limit
    requires BatchFits(b, pcm, |before|, limit)
    ensures
      var c := ChunkOf(b, pcm, |before|, EndOf(before), CommittedAfter(before), limit);
      && StreamOk(before + [c], limit)
      && CommittedAfter(before + [c]) <= limit
      && EventsStepAligned(c)
      && (Closed(before + [c]) <==> b.final)
  {
    var c := ChunkOf(b, pcm, |before|, EndOf(before), CommittedAfter(before), limit);
    OpenStreamEnd(before, limit);
    EmittedChunkAdmissible(b, pcm, |before|, CommittedAfter(before), limit);
    StreamExtend(before, c, limit);
  }

  /** `t` is the furthest any step of these batches that plays audio gets in the text. */
  predicate FurthestOfAll(batches: seq<Batch>, limit: nat, t: nat) {
    && (forall i, j :: 0 <= i < |batches| && 0 <= j < |batches[i].attended|
                       && Plays(batches[i], j) ==>
          TokensAt(batches[i], limit, j) <= t)
    && (t == 0
        || exists i, j :: 0 <= i < |batches| && 0 <= j < |batches[i].attended|
                          && Plays(batches[i], j) && TokensAt(batches[i], limit, j) == t)
  }

  lemma FurthestWithOneMore(batches: seq<Batch>, b: Batch, limit: nat, committed: nat, t: nat)
    requires FurthestOfAll(batches, limit, committed)
    requires Furthest(b, committed, limit, |b.attended|, t)
    ensures FurthestOfAll(batches + [b], limit, t)
  {
    var all := batches + [b];
    assert forall i :: 0 <= i < |batches| ==> all[i] == batches[i];
    if t != committed {
      var j :| 0 <= j < |b.attended| && Plays(b, j) && TokensAt(b, limit, j) == t;
      assert all[|batches|] == b;
    } else if t != 0 {
      var i, j :| 0 <= i < |batches| && 0 <= j < |batches[i].attended|
                  && Plays(batches[i], j) && TokensAt(batches[i], limit, j) == t;
      assert all[i] == batches[i];
    }
  }

  /** What the consumer of a synthesis is told: after any number of batches the committed text is the
      furthest that any step played so far has reached. */
  lemma {:induction false} SynthesisTellsText(batches: seq<Batch>, pcm: seq<seq<Sample>>,
                                              limit: nat)
    requires Synthesis(batches, pcm, limit)
    ensures FurthestOfAll(batches, limit, CommittedAfter(Chunks(batches, pcm, limit)))
    decreases |batches|
  {
    if batches != [] {
      var n := |batches| - 1;
      SynthesisTellsText(batches[..n], pcm[..n], limit);
      var before := Chunks(batches[..n], pcm[..n], limit);
      OneMoreTells(before, batches[..n], batches[n], pcm[n], limit);
      assert batches == batches[..n] + [batches[n]];
    }
  }

  lemma {:induction false} OneMoreTells(before: seq<Chunk>, batches: seq<Batch>, b: Batch,
                                        pcm: seq<Sample>, limit: nat)
    requires BatchShape(b, limit) && FurthestOfAll(batches, limit, CommittedAfter(before))
    ensures
      var c := ChunkOf(b, pcm, |before|, EndOf(before), CommittedAfter(before), limit);
      FurthestOfAll(batches + [b], limit, CommittedAfter(before + [c]))
  {
    var c := ChunkOf(b, pcm, |before|, EndOf(before), CommittedAfter(before), limit);
    EventsReachFurthest(b, EndOf(before), CommittedAfter(before), limit, |b.attended|);
    FurthestWithOneMore(batches, b, limit, CommittedAfter(before), c.tokens);
    assert (before + [c])[..|before|] == before;
  }

  lemma ChunksButLast(batches: seq<Batch>, pcm: seq<seq<Sample>>, limit: nat)
    requires Synthesis(batches, pcm, limit) && batches != []
    ensures
      var n := |batches| - 1;
      && |pcm| == |batches| && Synthesis(batches[..n], pcm[..n], limit)
      && Chunks(batches, pcm, limit)[..n] == Chunks(batches[..n], pcm[..n], limit)
  {
  }

  lemma {:induction false} ChunksPrefix(batches: seq<Batch>, pcm: seq<seq<Sample>>, limit: nat,
                                        k: nat)
    requires Synthesis(batches, pcm, limit) && k <= |batches|
    ensures |pcm| == |batches| && Synthesis(batches[..k], pcm[..k], limit)
    ensures Chunks(batches[..k], pcm[..k], limit) == Chunks(batches, pcm, limit)[..k]
    decreases |batches|
  {
    if k == |batches| {
      assert batches[..k] == batches && pcm[..k] == pcm;
    } else {
      var n := |batches| - 1;
      ChunksButLast(batches, pcm, limit);
      PrefixOfPrefix(batches, n, k);
      PrefixOfPrefix(pcm, n, k);
      PrefixOfPrefix(Chunks(batches, pcm, limit), n, k);
      var front, sound := batches[..n], pcm[..n];
      ChunksPrefix(front, sound, limit, k);
      ShorterPrefix(batches, pcm, front, sound, limit, k);
    }
  }

  lemma ShorterPrefix(batches: seq<Batch>, pcm: seq<seq<Sample>>, front: seq<Batch>,
                      sound: seq<seq<Sample>>, limit: nat, k: nat)
    requires Synthesis(batches, pcm, limit) && Synthesis(front, sound, limit)
    requires k <= |front| <= |batches| && |front| == |sound| && |batches| == |pcm|
    requires front[..k] == batches[..k] && sound[..k] == pcm[..k]
    requires Synthesis(front[..k], sound[..k], limit)
    requires Chunks(front[..k], sound[..k], limit) == Chunks(front, sound, limit)[..k]
    requires Chunks(front, sound, limit)[..k] == Chunks(batches, pcm, limit)[..k]
    ensures Synthesis(batches[..k], pcm[..k], limit)
    ensures Chunks(batches[..k], pcm[..k], limit) == Chunks(batches, pcm, limit)[..k]
  {
  }

  lemma PrefixOfPrefix<T>(s: seq<T>, n: nat, k: nat)
    requires k <= n <= |s|
    ensures s[..n][..k] == s[..k]
  {
  }

  /** And chunk k carries the PCM of its batch, and one event for each step of it that gets further
      in the text than everything before, at the sample where that step's audio ends. */
  lemma ChunkTellsText(batches: seq<Batch>, pcm: seq<seq<Sample>>, limit: nat, k: nat)
    requires Synthesis(batches, pcm, limit) && k < |batches|
    ensures
      var p, b := Chunks(batches, pcm, limit), batches[k];
      var committed := CommittedAfter(p[..k]);
      && p[k].samples == pcm[k] && p[k].frames == b.frames && p[k].final == b.final
      && FurthestOfAll(batches[..k], limit, committed)
      && p[k].events == AdvanceEvents(b, p[k].firstSample, committed, limit, |b.attended|)
  {
    ChunksPrefix(batches, pcm, limit, k);
    SynthesisTellsText(batches[..k], pcm[..k], limit);
    ChunkAt(batches, pcm, limit, k);
    var p, b := Chunks(batches, pcm, limit), batches[k];
    ChunkAdvances(b, pcm[k], k, EndOf(p[..k]), CommittedAfter(p[..k]), limit);
  }

  lemma ChunkAt(batches: seq<Batch>, pcm: seq<seq<Sample>>, limit: nat, k: nat)
    requires Synthesis(batches, pcm, limit) && k < |batches|
    ensures BatchFits(batches[k], pcm[k], k, limit)
    ensures var p := Chunks(batches, pcm, limit);
            p[k] == ChunkOf(batches[k], pcm[k], k, EndOf(p[..k]), CommittedAfter(p[..k]), limit)
  {
    ChunksPrefix(batches, pcm, limit, k);
    ChunksPrefix(batches, pcm, limit, k + 1);
    PrefixOfPrefix(batches, k + 1, k);
    PrefixOfPrefix(pcm, k + 1, k);
    LastChunk(batches[..k + 1], pcm[..k + 1], limit);
  }

  lemma LastChunk(batches: seq<Batch>, pcm: seq<seq<Sample>>, limit: nat)
    requires Synthesis(batches, pcm, limit) && batches != []
    ensures
      var n := |batches| - 1;
      && Synthesis(batches[..n], pcm[..n], limit) && BatchFits(batches[n], pcm[n], n, limit)
      && var before := Chunks(batches[..n], pcm[..n], limit);
         Chunks(batches, pcm, limit)[n]
         == ChunkOf(batches[n], pcm[n], n, EndOf(before), CommittedAfter(before), limit)
  {
  }

  lemma ChunkAdvances(b: Batch, pcm: seq<Sample>, sequence: nat, start: nat, committed: nat,
                      limit: nat)
    requires BatchShape(b, limit)
    ensures ChunkOf(b, pcm, sequence, start, committed, limit).events
         == AdvanceEvents(b, start, committed, limit, |b.attended|)
  {
    EventsAreAdvances(b, start, committed, limit, |b.attended|);
    if b.frames == 0 {
      SilentBatch(b, start, committed, limit, |b.attended|);
    }
  }

  lemma {:induction false} SilentBatch(b: Batch, start: nat, committed: nat, limit: nat, k: nat)
    requires b.frames == 0 && k <= |b.attended|
    ensures AdvanceEvents(b, start, committed, limit, k) == []
    decreases k
  {
    if k > 0 {
      SilentBatch(b, start, committed, limit, k - 1);
    }
  }

  /** So publication of the pipeline's next chunk can only fail for lack of ring space. */
  lemma SynthesisNeverRejected(w: World, batches: seq<Batch>, pcm: seq<seq<Sample>>, k: nat)
    requires Inv(w) && w.s.phase == Running
    requires Synthesis(batches, pcm, w.s.tokenLimit) && k < |batches|
    requires w.published == Chunks(batches, pcm, w.s.tokenLimit)[..k]
    ensures var c := Chunks(batches, pcm, w.s.tokenLimit)[k];
            Verdict(w.s, c)
            == if c.frames <= FreeFrames(w.s) then Ok(()) else Err(Backpressure, -1)
  {
    var p := Chunks(batches, pcm, w.s.tokenLimit);
    SynthesisIsLegalStream(batches, pcm, w.s.tokenLimit);
    PrefixPlace(p, w.s.tokenLimit, k);
    VerdictMeansAdmissible(w.s, p[k]);
  }
}
