/** The streaming request as a value: its audio chunks, its mutex-protected state, and what
    each public operation of the runtime does to that state, error paths included. */
module Request {

  const SAMPLES_PER_FRAME: nat := 1024
  const STEADY_FRAMES: nat := 8
  const INITIAL_FRAMES: nat := 4
  const UINT32: nat := 0x1_0000_0000
  const UINT64_MAX: nat := 0xFFFF_FFFF_FFFF_FFFF

  /** One PCM sample: only finiteness matters to the protocol. */
  datatype Sample = Finite(value: real) | NonFinite

  /** Text progress: `tokens` text tokens are spoken once `sample` samples are played. */
  datatype Progress = Progress(sample: nat, tokens: nat)

  datatype Chunk = Chunk(
    samples: seq<Sample>,
    firstSample: nat,
    sequence: nat,
    frames: nat,
    first: bool,
    final: bool,
    aligned: bool,
    tokens: nat,
    events: seq<Progress>)

  datatype Phase = Running | Completed | Cancelled | Failed

  datatype ErrorCode =
    | InvalidTransition
    | InvalidAudioChunk
    | Backpressure
    | NoAudio
    | UnknownLease
    | LeaseSequenceExhausted

  /** A returned value or the thrown error; `eventIndex` is -1 outside the per-event checks. */
  datatype Outcome<+T> = Ok(value: T) | Err(code: ErrorCode, eventIndex: int)

  /** A live lease as its holder sees it. */
  datatype Lease = Lease(id: nat, chunk: Chunk)

  datatype Snapshot = Snapshot(
    revision: nat,
    phase: Phase,
    available: nat,
    generatedFrames: nat,
    publishedSamples: nat,
    committed: nat,
    status: int,
    stage: int,
    message: string)

  datatype State = State(
    tokenLimit: nat,
    capacity: nat,
    revision: nat,
    phase: Phase,
    cancelRequested: bool,
    generatedFrames: nat,
    publishedSamples: nat,
    committed: nat,
    nextSample: nat,
    nextSequence: nat,
    occupied: nat,
    status: int,
    stage: int,
    message: string,
    queue: seq<Chunk>,
    leases: map<nat, Chunk>)

  /** The state a request starts in. */
  function Initial(tokenLimit: nat, capacity: nat): State {
    State(tokenLimit, capacity, 1, Running, false, 0, 0, 0, 0, 0, 0, 0, 0, "", [], map[])
  }

  // ---------- what an admissible chunk is ----------

  function ChunkEnd(c: Chunk): nat {
    c.firstSample + c.frames * SAMPLES_PER_FRAME
  }

  /** The fixed 4-8-8-...-tail schedule, the flags and the PCM geometry of chunk `sequence`. */
  predicate ShapeOk(c: Chunk, sequence: nat, start: nat) {
    && c.frames <= STEADY_FRAMES
    && (c.frames == 0 ==> c.final && !c.first)
    && |c.samples| == c.frames * SAMPLES_PER_FRAME
    && c.firstSample == start
    && c.sequence == sequence
    && (c.first <==> sequence == 0)
    && (c.first ==> c.frames == INITIAL_FRAMES)
    && (!c.first && !c.final ==> c.frames == STEADY_FRAMES)
  }

  /** The checks on lease-level progress made before the events are looked at. */
  predicate ProgressOk(c: Chunk, committed: nat, limit: nat) {
    && (!c.aligned ==> c.events == [] && c.tokens == 0)
    && (c.aligned ==> committed <= c.tokens <= limit)
    && (c.aligned && c.events == [] ==> c.tokens == committed)
  }

  function SampleBefore(c: Chunk, k: nat): nat
    requires k <= |c.events|
  {
    if k == 0 then c.firstSample else c.events[k - 1].sample
  }

  function TokensBefore(c: Chunk, k: nat, committed: nat): nat
    requires k <= |c.events|
  {
    if k == 0 then committed else c.events[k - 1].tokens
  }

  /** Event k strictly advances both sample and token progress, frame-aligned and in range. */
  predicate EventOk(c: Chunk, k: nat, committed: nat, limit: nat)
    requires k < |c.events|
  {
    && SampleBefore(c, k) < c.events[k].sample <= ChunkEnd(c)
    && c.events[k].sample % SAMPLES_PER_FRAME == 0
    && TokensBefore(c, k, committed) < c.events[k].tokens <= limit
  }

  predicate EventsOk(c: Chunk, committed: nat, limit: nat) {
    forall k :: 0 <= k < |c.events| ==> EventOk(c, k, committed, limit)
  }

  predicate LastEventOk(c: Chunk) {
    c.aligned && c.events != [] ==> c.tokens == c.events[|c.events| - 1].tokens
  }

  predicate Admissible(c: Chunk, sequence: nat, start: nat, committed: nat, limit: nat) {
    && ShapeOk(c, sequence, start)
    && ProgressOk(c, committed, limit)
    && EventsOk(c, committed, limit)
    && LastEventOk(c)
  }

  /** Free ring frames, as the unsigned 32-bit subtraction computes them. */
  function FreeFrames(s: State): nat {
    (s.capacity - s.occupied) % UINT32
  }

  predicate CanPublish(s: State, frames: nat) {
    s.phase == Running && !s.cancelRequested && 0 < frames <= FreeFrames(s)
  }

  predicate CancellationRequested(s: State) {
    s.phase == Running && s.cancelRequested
  }

  /** The least event index at or after `from` that is not acceptable, or the event count. */
  function FirstBadEvent(c: Chunk, from: nat, committed: nat, limit: nat): (k: nat)
    requires from <= |c.events|
    ensures from <= k <= |c.events|
    ensures forall j :: from <= j < k ==> EventOk(c, j, committed, limit)
    ensures k < |c.events| ==> !EventOk(c, k, committed, limit)
    decreases |c.events| - from
  {
    if from == |c.events| || !EventOk(c, from, committed, limit) then from
    else FirstBadEvent(c, from + 1, committed, limit)
  }

  /** What validation of a chunk answers: unit, or the error it throws. */
  function Verdict(s: State, c: Chunk): Outcome<()> {
    if s.phase != Running then Err(InvalidTransition, -1)
    else if !ShapeOk(c, s.nextSequence, s.nextSample) then Err(InvalidAudioChunk, -1)
    else if c.frames > FreeFrames(s) then Err(Backpressure, -1)
    else if !ProgressOk(c, s.committed, s.tokenLimit) then Err(InvalidAudioChunk, -1)
    else
      var bad := FirstBadEvent(c, 0, s.committed, s.tokenLimit);
      if bad < |c.events| then Err(InvalidAudioChunk, bad)
      else if !LastEventOk(c) then Err(InvalidAudioChunk, -1)
      else Ok(())
  }

  // ---------- the operations ----------

  /** The state after an admissible chunk has been queued. */
  function Enqueue(s: State, c: Chunk): State {
    s.(committed := if c.aligned then c.tokens else s.committed,
       nextSample := s.nextSample + |c.samples|,
       nextSequence := s.nextSequence + 1,
       generatedFrames := s.generatedFrames + c.frames,
       publishedSamples := s.publishedSamples + |c.samples|,
       occupied := s.occupied + c.frames,
       queue := s.queue + [c],
       phase := if c.final then Completed else s.phase,
       revision := s.revision + 1)
  }

  function Publish(s: State, c: Chunk): (State, Outcome<bool>) {
    if s.cancelRequested then (s, Ok(false))
    else
      var v := Verdict(s, c);
      if v.Err? then (s, Err(v.code, v.eventIndex)) else (Enqueue(s, c), Ok(true))
  }

  /** Subtracts the frames of each queued chunk in turn; false means the accounting underflowed,
      and the first component is then what had been reached. */
  function DiscardFrames(queue: seq<Chunk>, occupied: nat): (nat, bool) {
    if queue == [] then (occupied, true)
    else if queue[0].frames > occupied then (occupied, false)
    else DiscardFrames(queue[1..], occupied - queue[0].frames)
  }

  function Discard(s: State): (State, bool) {
    var (occupied, ok) := DiscardFrames(s.queue, s.occupied);
    (s.(occupied := occupied, queue := if ok then [] else s.queue), ok)
  }

  function RequestCancellation(s: State): (State, Outcome<bool>) {
    if s.phase == Cancelled then (s, Ok(true))
    else if s.phase != Running then (s, Ok(false))
    else if s.cancelRequested then (s, Ok(true))
    else
      var (d, ok) := Discard(s.(cancelRequested := true));
      if ok then (d.(revision := d.revision + 1), Ok(true)) else (d, Err(InvalidTransition, -1))
  }

  function CompleteCancellation(s: State): (State, Outcome<bool>) {
    if s.phase != Running || !s.cancelRequested then (s, Ok(false))
    else
      var (d, ok) := Discard(s);
      if !ok then (d, Err(InvalidTransition, -1))
      else (d.(phase := Cancelled, status := 10, stage := 6, message := "",
               revision := d.revision + 1), Ok(true))
  }

  predicate FailureDeclared(status: int, stage: int, message: string) {
    0 < status && status !in {3, 10, 11, 12} && 0 < stage && message != ""
  }

  function Fail(s: State, status: int, stage: int, message: string): (State, Outcome<()>) {
    if !FailureDeclared(status, stage, message) then (s, Err(InvalidTransition, -1))
    else if s.phase != Running then (s, Err(InvalidTransition, -1))
    else
      var (d, ok) := Discard(s);
      if !ok then (d, Err(InvalidTransition, -1))
      else (d.(phase := Failed, status := status, stage := stage, message := message,
               revision := d.revision + 1), Ok(()))
  }

  function TakeSnapshot(s: State): Outcome<Snapshot> {
    if |s.queue| >= UINT32 then Err(InvalidTransition, -1)
    else Ok(Snapshot(s.revision, s.phase, |s.queue|, s.generatedFrames, s.publishedSamples,
                     s.committed, s.status, s.stage, s.message))
  }

  /** The process-wide lease identifier sequence: the identifier taken and the next value. */
  function TakeLeaseId(next: nat): (nat, Outcome<nat>) {
    if next == 0 || next >= UINT64_MAX then (next, Err(LeaseSequenceExhausted, -1))
    else (next + 1, Ok(next))
  }

  function Acquire(s: State, next: nat): (State, nat, Outcome<Lease>) {
    if s.queue == [] then (s, next, Err(NoAudio, -1))
    else
      match TakeLeaseId(next)
      case (same, Err(code, k)) => (s, same, Err(code, k))
      case (following, Ok(id)) =>
        var popped := s.(queue := s.queue[1..]);
        if id in s.leases then (popped, following, Err(InvalidTransition, -1))
        else
          (popped.(leases := s.leases[id := s.queue[0]], revision := s.revision + 1),
           following, Ok(Lease(id, s.queue[0])))
  }

  function Release(s: State, id: nat): (State, Outcome<()>) {
    if id !in s.leases then (s, Err(UnknownLease, -1))
    else if s.leases[id].frames > s.occupied then (s, Err(InvalidTransition, -1))
    else (s.(occupied := s.occupied - s.leases[id].frames, leases := s.leases - {id},
             revision := s.revision + 1), Ok(()))
  }
}
