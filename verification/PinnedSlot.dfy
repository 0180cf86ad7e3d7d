/** The published PCM is not copied: it stays in one pinned buffer that the next decode overwrites.
    What keeps a reader safe is only the ring, and how small it has to be for that. */
module PinnedSlot {
  import opened Request
  import opened RequestRuns
  import opened RequestGuarantees
  import opened OutputCapacity

  /** Nobody can still read the pinned buffer: no chunk is queued and none is leased. */
  predicate BufferFree(s: State) {
    s.queue == [] && s.leases == map[]
  }

  /** In an unfinished stream every chunk fills at least four frames. */
  lemma OpenChunksLarge(p: seq<Chunk>, limit: nat, k: nat)
    requires StreamOk(p, limit) && !Closed(p) && k < |p|
    ensures p[k].frames >= INITIAL_FRAMES
  {
    StreamSchedule(p, limit, k);
  }

  /** Fewer occupied frames than the smallest chunk means no chunk at all. */
  lemma SmallOccupancyIsNone(w: World)
    requires Inv(w) && !Closed(w.published) && w.s.occupied < INITIAL_FRAMES
    ensures BufferFree(w.s)
  {
    if w.s.queue != [] {
      OpenChunksLarge(w.published, w.s.tokenLimit, |w.acquired|);
    }
    if w.s.leases != map[] {
      var id :| id in w.s.leases;
      LeasedFramesRemove(w.s.leases, id);
      var i :| 0 <= i < |w.acquired| && w.acquired[i] == Lease(id, w.s.leases[id]);
      OpenChunksLarge(w.published, w.s.tokenLimit, i);
    }
  }

  /** With a ring of fewer than twelve frames the pinned buffer is never overwritten under a
      reader: in every interleaving, once the producer has been granted eight frames, nothing is
      queued or leased, and nothing will be before its own next publication. */
  lemma GrantFreesBuffer(w: World, acts: seq<Act>)
    requires Inv(w) && SingleProducer(acts)
    requires w.s.capacity < INITIAL_FRAMES + STEADY_FRAMES
    ensures
      var m := Execute(Machine(w, STEADY_FRAMES, Poll), acts);
      m.pc == Returned(true) ==> BufferFree(m.w.s)
  {
    ExecuteInv(Machine(w, STEADY_FRAMES, Poll), acts);
    FramesFixed(Machine(w, STEADY_FRAMES, Poll), acts);
    CapacityFixed(Machine(w, STEADY_FRAMES, Poll), acts);
    var m := Execute(Machine(w, STEADY_FRAMES, Poll), acts);
    if m.pc == Returned(true) {
      SmallOccupancyIsNone(m.w);
    }
  }

  lemma {:induction false} CapacityFixed(m: Machine, acts: seq<Act>)
    ensures Execute(m, acts).w.s.capacity == m.w.s.capacity
    decreases |acts|
  {
    if acts != [] {
      CapacityFixed(Next(m, acts[0]), acts[1..]);
    }
  }

  /** Four frames of silence, the first chunk of a stream. */
  function FirstChunk(): Chunk {
    Chunk(seq(4096, _ => Finite(0.0)), 0, 0, 4, true, false, true, 0, [])
  }

  lemma FirstPublication(tokenLimit: nat, capacity: nat, next: nat)
    requires Constructible(tokenLimit, capacity, next)
    ensures
      var w := Step(Start(tokenLimit, capacity, next), PublishOp(FirstChunk()));
      w.s.queue == [FirstChunk()] && w.s.occupied == 4 && w.s.phase == Running
      && !w.s.cancelRequested && w.s.capacity == capacity
  {
    assert Verdict(Initial(tokenLimit, capacity), FirstChunk()) == Ok(());
  }

  /** A poll that finds space is granted it at its next look. */
  lemma TwoLooksGrant(w: World, frames: nat)
    requires CanPublish(w.s, frames)
    ensures Execute(Machine(w, frames, Poll), [ProducerAct, ProducerAct])
         == Machine(w, frames, Returned(true))
  {
    assert [ProducerAct, ProducerAct][1..] == [ProducerAct] && [ProducerAct][1..] == [];
    assert Next(Machine(w, frames, Poll), ProducerAct) == Machine(w, frames, LastCheck);
  }

  /** Twelve frames are where it breaks: with any ring that large, the producer is granted eight
      frames while its first chunk is still waiting to be read. */
  lemma LargerRingSharesBuffer(tokenLimit: nat, capacity: nat, next: nat)
    requires Constructible(tokenLimit, capacity, next)
    requires capacity >= INITIAL_FRAMES + STEADY_FRAMES
    ensures
      var w := Run(Start(tokenLimit, capacity, next), [PublishOp(FirstChunk())]);
      var m := Execute(Machine(w, STEADY_FRAMES, Poll), [ProducerAct, ProducerAct]);
      Inv(w) && m.pc == Returned(true) && !BufferFree(m.w.s)
  {
    var start, ops := Start(tokenLimit, capacity, next), [PublishOp(FirstChunk())];
    ReachableInv(tokenLimit, capacity, next, ops);
    assert Run(start, ops) == Step(start, ops[0]) by {
      assert ops[1..] == [];
    }
    FirstPublication(tokenLimit, capacity, next);
    TwoLooksGrant(Run(start, ops), STEADY_FRAMES);
  }
}
