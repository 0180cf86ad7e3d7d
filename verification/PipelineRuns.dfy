/** From decoder diagnostics to the caller: the batches a synthesis accepts form a legal stream, and
    publishing its chunks never meets back-pressure. */
module PipelineRuns {
  import opened Request
  import opened RequestRuns
  import opened Emission
  import O = OutputCapacity

  /** A batch, made of the report the pipeline waited for, and the PCM decoded for it. */
  predicate DecodedAt(report: Report, b: Batch, pcm: seq<Sample>, place: nat, limit: nat) {
    && BatchAccepted(report, limit)
    && BatchOf(report.steps, b)
    && |report.steps| == (if place == 0 then INITIAL_STEPS else STEADY_STEPS)
    && (place == 0 ==> !b.final)
    && |pcm| == b.frames * SAMPLES_PER_FRAME
  }

  /** A synthesis as it is decoded. Nothing is asked for after a FINAL batch. */
  predicate Decoded(reports: seq<Report>, batches: seq<Batch>, pcm: seq<seq<Sample>>,
                    limit: nat)
  {
    && |reports| == |batches| == |pcm|
    && (forall k :: 0 <= k < |batches| ==>
          DecodedAt(reports[k], batches[k], pcm[k], k, limit))
    && (forall k :: 0 <= k < |batches| - 1 ==> !batches[k].final)
  }

  /** One accepted report of the right length makes a batch that fits its place. */
  lemma AcceptedFits(report: Report, b: Batch, pcm: seq<Sample>, place: nat, limit: nat)
    requires DecodedAt(report, b, pcm, place, limit)
    ensures BatchFits(b, pcm, place, limit)
  {
    BatchOfHasShape(report.steps, limit, b);
  }

  lemma {:induction false} DecodedIsSynthesis(reports: seq<Report>, batches: seq<Batch>,
                                              pcm: seq<seq<Sample>>, limit: nat)
    requires Decoded(reports, batches, pcm, limit)
    ensures Synthesis(batches, pcm, limit)
    decreases |batches|
  {
    if batches != [] {
      var n := |batches| - 1;
      DecodedIsSynthesis(reports[..n], batches[..n], pcm[..n], limit);
      AcceptedFits(reports[n], batches[n], pcm[n], n, limit);
    }
  }

  /** Whatever the decoder reports, as long as its reports are accepted: the chunks form a legal
      stream, with every event on a decoder step or at the FINAL end, and commit the text up to the
      furthest position attended in a step that plays audio. */
  lemma DecodedStreamLegal(reports: seq<Report>, batches: seq<Batch>, pcm: seq<seq<Sample>>,
                           limit: nat)
    requires Decoded(reports, batches, pcm, limit)
    ensures Synthesis(batches, pcm, limit)
    ensures StreamOk(Chunks(batches, pcm, limit), limit)
    ensures AllStepAligned(Chunks(batches, pcm, limit))
    ensures FurthestOfAll(batches, limit, CommittedAfter(Chunks(batches, pcm, limit)))
  {
    DecodedIsSynthesis(reports, batches, pcm, limit);
    SynthesisTellsText(batches, pcm, limit);
    SynthesisIsLegalStream(batches, pcm, limit);
  }

  // ---------- publication ----------

  lemma {:induction false} OthersPublishNothing(m: O.Machine, acts: seq<O.Act>)
    requires O.SingleProducer(acts)
    ensures O.Execute(m, acts).w.published == m.w.published
    ensures O.Execute(m, acts).w.s.tokenLimit == m.w.s.tokenLimit
    decreases |acts|
  {
    if acts != [] {
      OthersPublishNothing(O.Next(m, acts[0]), acts[1..]);
    }
  }

  /** Room for eight frames is room for any chunk of a synthesis. */
  lemma RoomAccepts(w: World, batches: seq<Batch>, pcm: seq<seq<Sample>>, k: nat)
    requires Inv(w) && w.s.phase == Running && !w.s.cancelRequested
    requires Synthesis(batches, pcm, w.s.tokenLimit) && k < |batches|
    requires w.published == Chunks(batches, pcm, w.s.tokenLimit)[..k]
    requires O.Room(w.s, batches[k].frames)
    ensures Publish(w.s, Chunks(batches, pcm, w.s.tokenLimit)[k]).1 == Ok(true)
  {
    SynthesisNeverRejected(w, batches, pcm, k);
    ChunkFrames(batches, pcm, w.s.tokenLimit, k);
    RoomIsFree(w.s, batches[k].frames);
  }

  lemma RoomIsFree(s: State, frames: nat)
    requires StateInv(s) && O.Room(s, frames)
    ensures frames <= FreeFrames(s)
  {
  }

  lemma {:induction false} ChunkFrames(batches: seq<Batch>, pcm: seq<seq<Sample>>, limit: nat,
                                       k: nat)
    requires Synthesis(batches, pcm, limit) && k < |batches|
    ensures Chunks(batches, pcm, limit)[k].frames == batches[k].frames <= STEADY_FRAMES
    decreases |batches|
  {
    if k < |batches| - 1 {
      ChunkFrames(batches[..|batches| - 1], pcm[..|batches| - 1], limit, k);
    }
  }

  /** The first chunk finds an empty ring: it is published without waiting for space. */
  lemma FirstChunkPublishes(w: World, reports: seq<Report>, batches: seq<Batch>,
                            pcm: seq<seq<Sample>>)
    requires Inv(w) && w.s.phase == Running && !w.s.cancelRequested && w.published == []
    requires Decoded(reports, batches, pcm, w.s.tokenLimit) && batches != []
    ensures Synthesis(batches, pcm, w.s.tokenLimit)
    ensures Publish(w.s, Chunks(batches, pcm, w.s.tokenLimit)[0]).1 == Ok(true)
  {
    DecodedIsSynthesis(reports, batches, pcm, w.s.tokenLimit);
    ChunkFrames(batches, pcm, w.s.tokenLimit, 0);
    NothingPublishedIsEmpty(w);
    RoomAccepts(w, batches, pcm, 0);
  }

  lemma NothingPublishedIsEmpty(w: World)
    requires Inv(w) && w.published == [] && w.s.phase == Running && !w.s.cancelRequested
    ensures w.s.occupied == 0
  {
    assert w.acquired == [] && w.s.queue == [];
    assert w.s.leases == map[];
  }

  /** Every later chunk is published after a grant: in every interleaving, once the producer has been
      granted eight frames, its next chunk is accepted, unless the request was meanwhile cancelled
      or failed. */
  lemma GrantedChunkPublishes(w: World, reports: seq<Report>, batches: seq<Batch>,
                              pcm: seq<seq<Sample>>, k: nat, acts: seq<O.Act>)
    requires Inv(w) && O.SingleProducer(acts)
    requires Decoded(reports, batches, pcm, w.s.tokenLimit) && k < |batches|
    ensures Synthesis(batches, pcm, w.s.tokenLimit)
    ensures
      var p := Chunks(batches, pcm, w.s.tokenLimit);
      var m := O.Execute(O.Machine(w, STEADY_FRAMES, O.Poll), acts);
      && w.published == p[..k] && m.pc == O.Returned(true)
      && m.w.s.phase == Running && !m.w.s.cancelRequested
      ==> Publish(m.w.s, p[k]).1 == Ok(true)
  {
    DecodedIsSynthesis(reports, batches, pcm, w.s.tokenLimit);
    ChunkFrames(batches, pcm, w.s.tokenLimit, k);
    var start := O.Machine(w, STEADY_FRAMES, O.Poll);
    var m := O.Execute(start, acts);
    O.ExecuteInv(start, acts);
    O.FramesFixed(start, acts);
    OthersPublishNothing(start, acts);
    if w.published == Chunks(batches, pcm, w.s.tokenLimit)[..k] && m.pc == O.Returned(true)
       && m.w.s.phase == Running && !m.w.s.cancelRequested {
      RoomAccepts(m.w, batches, pcm, k);
    }
  }
}
