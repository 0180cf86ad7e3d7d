/** The mutable request object and the lease identifier sequence it shares with other requests.
    Every method is one mutex-held critical section. */
module RequestState {
  import opened Request

  class LeaseIdSequence {
    var next: nat

    constructor (initialValue: nat)
      requires initialValue != 0
      ensures next == initialValue
    {
      next := initialValue;
    }

    method Acquire() returns (r: Outcome<nat>)
      modifies this
      ensures (next, r) == TakeLeaseId(old(next))
    {
      var candidate := next;
      if candidate == 0 || candidate >= UINT64_MAX {
        return Err(LeaseSequenceExhausted, -1);
      }
      next := candidate + 1;
      return Ok(candidate);
    }
  }

  class StreamingRequestState {
    const tokenLimit: nat
    const capacity: nat
    const leaseIds: LeaseIdSequence
    var revision: nat
    var phase: Phase
    var cancelRequested: bool
    var generatedFrames: nat
    var publishedSamples: nat
    var committed: nat
    var nextSample: nat
    var nextSequence: nat
    var occupied: nat
    var status: int
    var stage: int
    var message: string
    var queue: seq<Chunk>
    var leases: map<nat, Chunk>

    /** The abstract value of this object. */
    function Model(): State
      reads this
    {
      State(tokenLimit, capacity, revision, phase, cancelRequested, generatedFrames,
            publishedSamples, committed, nextSample, nextSequence, occupied, status, stage,
            message, queue, leases)
    }

    constructor (tokenLimit: nat, capacity: nat, leaseIds: LeaseIdSequence)
      requires tokenLimit > 0 && STEADY_FRAMES <= capacity < UINT32
      ensures Model() == Initial(tokenLimit, capacity)
      ensures this.leaseIds == leaseIds
    {
      this.tokenLimit, this.capacity, this.leaseIds := tokenLimit, capacity, leaseIds;
      revision, phase, cancelRequested := 1, Running, false;
      generatedFrames, publishedSamples, committed := 0, 0, 0;
      nextSample, nextSequence, occupied := 0, 0, 0;
      status, stage, message := 0, 0, "";
      queue, leases := [], map[];
    }

    /** The chain of checks, in source order, against the declarative verdict. */
    method ValidateChunk(c: Chunk) returns (r: Outcome<()>)
      ensures r == Verdict(Model(), c)
    {
      if phase != Running {
        return Err(InvalidTransition, -1);
      }
      if c.frames > 8 {
        return Err(InvalidAudioChunk, -1);
      }
      var marker := c.frames == 0;
      if marker && (!c.final || c.first || |c.samples| != 0) {
        return Err(InvalidAudioChunk, -1);
      }
      var expectedSamples := c.frames * SAMPLES_PER_FRAME;
      if |c.samples| != expectedSamples {
        return Err(InvalidAudioChunk, -1);
      }
      if c.firstSample != nextSample {
        return Err(InvalidAudioChunk, -1);
      }
      if c.sequence != nextSequence {
        return Err(InvalidAudioChunk, -1);
      }
      if c.first != (nextSequence == 0) {
        return Err(InvalidAudioChunk, -1);
      }
      if c.first && c.frames != 4 {
        return Err(InvalidAudioChunk, -1);
      }
      if !c.first && !c.final && c.frames != 8 {
        return Err(InvalidAudioChunk, -1);
      }
      if c.frames > (capacity - occupied) % UINT32 {
        return Err(Backpressure, -1);
      }
      var previousSample, previousTokens := c.firstSample, committed;
      var chunkEnd := c.firstSample + expectedSamples;
      if !c.aligned && (c.events != [] || c.tokens != 0) {
        return Err(InvalidAudioChunk, -1);
      }
      if c.aligned && (c.tokens < committed || c.tokens > tokenLimit) {
        return Err(InvalidAudioChunk, -1);
      }
      if c.aligned && c.events == [] && c.tokens != committed {
        return Err(InvalidAudioChunk, -1);
      }
      var k := 0;
      while k < |c.events|
        invariant 0 <= k <= |c.events|
        invariant previousSample == SampleBefore(c, k)
        invariant previousTokens == TokensBefore(c, k, committed)
        invariant forall j :: 0 <= j < k ==> EventOk(c, j, committed, tokenLimit)
        invariant FirstBadEvent(c, 0, committed, tokenLimit)
               == FirstBadEvent(c, k, committed, tokenLimit)
      {
        var event := c.events[k];
        if event.sample <= previousSample || event.sample > chunkEnd
           || event.sample % SAMPLES_PER_FRAME != 0 {
          return Err(InvalidAudioChunk, k);
        }
        if event.tokens <= previousTokens || event.tokens > tokenLimit {
          return Err(InvalidAudioChunk, k);
        }
        previousSample, previousTokens := event.sample, event.tokens;
        k := k + 1;
      }
      if c.aligned && c.events != [] && c.tokens != c.events[|c.events| - 1].tokens {
        return Err(InvalidAudioChunk, -1);
      }
      return Ok(());
    }

    method PublishChunk(c: Chunk) returns (r: Outcome<bool>)
      modifies this
      ensures (Model(), r) == Publish(old(Model()), c)
    {
      if cancelRequested {
        return Ok(false);
      }
      var verdict := ValidateChunk(c);
      if verdict.Err? {
        return Err(verdict.code, verdict.eventIndex);
      }
      AdvanceCounters(c);
      return Ok(true);
    }

    /** The mutation half of a publication. */
    method AdvanceCounters(c: Chunk)
      modifies this
      ensures Model() == Enqueue(old(Model()), c)
    {
      if c.aligned {
        committed := c.tokens;
      }
      nextSample := nextSample + |c.samples|;
      nextSequence := nextSequence + 1;
      AppendChunk(c);
      if c.final {
        phase := Completed;
      }
      revision := revision + 1;
    }

    method AppendChunk(c: Chunk)
      modifies this`generatedFrames, this`publishedSamples, this`occupied, this`queue
      ensures generatedFrames == old(generatedFrames) + c.frames
      ensures publishedSamples == old(publishedSamples) + |c.samples|
      ensures occupied == old(occupied) + c.frames
      ensures queue == old(queue) + [c]
    {
      generatedFrames := generatedFrames + c.frames;
      publishedSamples := publishedSamples + |c.samples|;
      occupied := occupied + c.frames;
      queue := queue + [c];
    }

    /** Drops every queued chunk, one subtraction at a time; false when a subtraction underflows. */
    method DiscardUnleased() returns (ok: bool)
      modifies this`occupied, this`queue
      ensures (Model(), ok) == Discard(old(Model()))
    {
      var k := 0;
      while k < |queue|
        invariant 0 <= k <= |queue|
        invariant queue == old(queue)
        invariant DiscardFrames(queue, old(occupied)) == DiscardFrames(queue[k..], occupied)
      {
        if queue[k].frames > occupied {
          return false;
        }
        occupied := occupied - queue[k].frames;
        assert queue[k..][1..] == queue[k + 1..];
        k := k + 1;
      }
      queue := [];
      return true;
    }

    method Cancel() returns (r: Outcome<bool>)
      modifies this
      ensures (Model(), r) == RequestCancellation(old(Model()))
    {
      if phase == Cancelled {
        return Ok(true);
      }
      if phase != Running {
        return Ok(false);
      }
      if cancelRequested {
        return Ok(true);
      }
      cancelRequested := true;
      var ok := DiscardUnleased();
      if !ok {
        return Err(InvalidTransition, -1);
      }
      revision := revision + 1;
      return Ok(true);
    }

    method CompleteCancellationAfterDrain() returns (r: Outcome<bool>)
      modifies this
      ensures (Model(), r) == CompleteCancellation(old(Model()))
    {
      if phase != Running || !cancelRequested {
        return Ok(false);
      }
      var ok := DiscardUnleased();
      if !ok {
        return Err(InvalidTransition, -1);
      }
      phase, status, stage, message := Cancelled, 10, 6, "";
      revision := revision + 1;
      return Ok(true);
    }

    method FailRequest(status: int, stage: int, message: string) returns (r: Outcome<()>)
      modifies this
      ensures (Model(), r) == Fail(old(Model()), status, stage, message)
    {
      if status <= 0 || status == 3 || status == 10 || status == 11 || status == 12
         || stage <= 0 || message == "" {
        return Err(InvalidTransition, -1);
      }
      if phase != Running {
        return Err(InvalidTransition, -1);
      }
      var ok := DiscardUnleased();
      if !ok {
        return Err(InvalidTransition, -1);
      }
      phase, this.status, this.stage, this.message := Failed, status, stage, message;
      revision := revision + 1;
      return Ok(());
    }

    /** A wait that is over: the snapshot exactly when the revision has moved past `after`. */
    method PollRevision(after: nat) returns (changed: bool, r: Outcome<Snapshot>)
      ensures changed <==> revision > after
      ensures changed ==> r == TakeSnapshot(Model())
    {
      changed := revision > after;
      r := Err(NoAudio, -1);
      if changed {
        if |queue| >= UINT32 {
          return true, Err(InvalidTransition, -1);
        }
        r := Ok(Snapshot(revision, phase, |queue|, generatedFrames, publishedSamples, committed,
                         status, stage, message));
      }
    }

    method AcquireAudio() returns (r: Outcome<Lease>)
      modifies this, leaseIds
      ensures (Model(), leaseIds.next, r) == Acquire(old(Model()), old(leaseIds.next))
    {
      if queue == [] {
        return Err(NoAudio, -1);
      }
      var id := leaseIds.Acquire();
      if id.Err? {
        return Err(id.code, id.eventIndex);
      }
      var chunk := queue[0];
      queue := queue[1..];
      if id.value in leases {
        return Err(InvalidTransition, -1);
      }
      leases := leases[id.value := chunk];
      revision := revision + 1;
      return Ok(Lease(id.value, chunk));
    }

    method ReleaseAudio(id: nat) returns (r: Outcome<()>)
      modifies this
      ensures (Model(), r) == Release(old(Model()), id)
    {
      if id !in leases {
        return Err(UnknownLease, -1);
      }
      if leases[id].frames > occupied {
        return Err(InvalidTransition, -1);
      }
      occupied := occupied - leases[id].frames;
      leases := leases - {id};
      revision := revision + 1;
      return Ok(());
    }
  }
}
