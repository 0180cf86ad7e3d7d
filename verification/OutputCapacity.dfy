/** The producer's polling loop for ring space, interleaved with every other user of the request.
    Each callback and each operation of another thread is one atomic step. */
module OutputCapacity {
  import opened Request
  import opened RequestRuns
  import opened RequestGuarantees

  /** Where the loop stands; a captured revision travels with the states after it. */
  datatype Pc =
    | Poll
    | PollCancelled
    | TakeRevision
    | Recheck(revision: nat)
    | RecheckCancelled(revision: nat)
    | Waiting(revision: nat)
    | LastCheck
    | Returned(granted: bool)

  datatype Machine = Machine(w: World, frames: nat, pc: Pc)

  /** One step of the producer, or one operation by anybody else (who never publishes). */
  datatype Act = ProducerAct | OtherAct(op: Op)

  predicate SingleProducer(acts: seq<Act>) {
    forall k :: 0 <= k < |acts| ==> acts[k].OtherAct? ==> !acts[k].op.PublishOp?
  }

  /** One step of the producer, which looks at the request once. */
  function Look(pc: Pc, s: State, frames: nat): Pc {
    match pc
    case Poll => if CanPublish(s, frames) then LastCheck else PollCancelled
    case PollCancelled => if CancellationRequested(s) then Returned(false) else TakeRevision
    case TakeRevision => Recheck(s.revision)
    case Recheck(r) => if CanPublish(s, frames) then Poll else RecheckCancelled(r)
    case RecheckCancelled(r) => if CancellationRequested(s) then Returned(false) else Waiting(r)
    case Waiting(_) => Poll  // notified or timed out
    case LastCheck => Returned(!CancellationRequested(s))
    case Returned(_) => pc
  }

  function Advance(m: Machine): Machine {
    m.(pc := Look(m.pc, m.w.s, m.frames))
  }

  /** Where the producer stands after looking at these states in turn, from the i-th on. */
  function LookAll(pc: Pc, looks: seq<State>, i: nat, frames: nat): Pc
    decreases |looks| - i
  {
    if i >= |looks| then pc else LookAll(Look(pc, looks[i], frames), looks, i + 1, frames)
  }

  lemma {:induction false} ReturnedStays(granted: bool, looks: seq<State>, i: nat, frames: nat)
    ensures LookAll(Returned(granted), looks, i, frames) == Returned(granted)
    decreases |looks| - i
  {
    if i < |looks| {
      ReturnedStays(granted, looks, i + 1, frames);
    }
  }

  /** The loop itself. `looks` are the states its callbacks find, in order; where they run out the
      loop is still inside, at the place returned. */
  method AwaitOutputCapacity(looks: seq<State>, frames: nat) returns (pc: Pc)
    ensures pc == LookAll(Poll, looks, 0, frames)
  {
    var i := 0;
    while i < |looks| && !CanPublish(looks[i], frames)
      invariant 0 <= i <= |looks|
      invariant LookAll(Poll, looks, 0, frames) == LookAll(Poll, looks, i, frames)
    {
      i := i + 1;
      assert LookAll(Poll, looks, 0, frames) == LookAll(PollCancelled, looks, i, frames);
      if i == |looks| {
        return PollCancelled;
      }
      if CancellationRequested(looks[i]) {
        ReturnedStays(false, looks, i + 1, frames);
        return Returned(false);
      }
      i := i + 1;
      assert LookAll(Poll, looks, 0, frames) == LookAll(TakeRevision, looks, i, frames);
      if i == |looks| {
        return TakeRevision;
      }
      var revision := looks[i].revision;
      i := i + 1;
      assert LookAll(Poll, looks, 0, frames) == LookAll(Recheck(revision), looks, i, frames);
      if i == |looks| {
        return Recheck(revision);
      }
      if CanPublish(looks[i], frames) {
        i := i + 1;
        continue;
      }
      i := i + 1;
      assert LookAll(Poll, looks, 0, frames)
          == LookAll(RecheckCancelled(revision), looks, i, frames);
      if i == |looks| {
        return RecheckCancelled(revision);
      }
      if CancellationRequested(looks[i]) {
        ReturnedStays(false, looks, i + 1, frames);
        return Returned(false);
      }
      i := i + 1;
      assert LookAll(Poll, looks, 0, frames) == LookAll(Waiting(revision), looks, i, frames);
      if i == |looks| {
        return Waiting(revision);
      }
      i := i + 1;
    }
    if i == |looks| {
      return Poll;
    }
    i := i + 1;
    if i == |looks| {
      return LastCheck;
    }
    ReturnedStays(!CancellationRequested(looks[i]), looks, i + 1, frames);
    return Returned(!CancellationRequested(looks[i]));
  }

  function Next(m: Machine, act: Act): Machine {
    match act
    case ProducerAct => Advance(m)
    case OtherAct(op) => m.(w := Step(m.w, op))
  }

  function Execute(m: Machine, acts: seq<Act>): Machine
    decreases |acts|
  {
    if acts == [] then m else Execute(Next(m, acts[0]), acts[1..])
  }

  /** Ring space no other user can take away again. */
  predicate Room(s: State, frames: nat) {
    frames + s.occupied <= s.capacity
  }

  ghost predicate LoopInv(m: Machine) {
    && Inv(m.w)
    && (m.pc.Recheck? || m.pc.RecheckCancelled? || m.pc.Waiting? ==>
          m.pc.revision <= m.w.s.revision)
    && (m.pc.RecheckCancelled? || m.pc.Waiting? ==>
          m.pc.revision == m.w.s.revision ==> !CanPublish(m.w.s, m.frames))
    && (m.pc.Waiting? ==>
          m.pc.revision == m.w.s.revision ==> !CancellationRequested(m.w.s))
    && (m.pc == LastCheck || m.pc == Returned(true) ==>
          Room(m.w.s, m.frames) && !Closed(m.w.published))
    && (m.pc == Returned(false) ==> m.w.s.cancelRequested)
  }

  /** Nothing a request undergoes besides a publication takes ring frames or revokes a
      cancellation. */
  predicate OnlyFrees(s: State, t: State) {
    t.occupied <= s.occupied && t.capacity == s.capacity && (s.cancelRequested ==> t.cancelRequested)
  }

  lemma ClosingFrees(s: State, status: int, stage: int, message: string)
    requires Frames(s.queue) <= s.occupied
    ensures OnlyFrees(s, RequestCancellation(s).0)
    ensures OnlyFrees(s, CompleteCancellation(s).0)
    ensures OnlyFrees(s, Fail(s, status, stage, message).0)
  {
    DiscardExact(s.queue, s.occupied);
  }

  lemma LeasingFrees(s: State, next: nat, id: nat)
    ensures OnlyFrees(s, Acquire(s, next).0)
    ensures OnlyFrees(s, Release(s, id).0)
  {
  }

  lemma OthersOnlyFreeRoom(w: World, op: Op)
    requires Inv(w) && !op.PublishOp?
    ensures OnlyFrees(w.s, Step(w, op).s)
  {
    match op
    case AcquireOp => LeasingFrees(w.s, w.next, 0);
    case ReleaseOp(id) => LeasingFrees(w.s, w.next, id);
    case CancelOp => ClosingFrees(w.s, 0, 0, "");
    case CompleteCancelOp => ClosingFrees(w.s, 0, 0, "");
    case FailOp(status, stage, message) => ClosingFrees(w.s, status, stage, message);
    case ForeignLeaseOp =>
  }

  lemma NextInv(m: Machine, act: Act)
    requires LoopInv(m) && (act.OtherAct? ==> !act.op.PublishOp?)
    ensures LoopInv(Next(m, act))
  {
    if act.OtherAct? {
      StepInv(m.w, act.op);
      StepStamp(m.w, act.op);
      OthersOnlyFreeRoom(m.w, act.op);
    }
  }

  lemma {:induction false} ExecuteInv(m: Machine, acts: seq<Act>)
    requires LoopInv(m) && SingleProducer(acts)
    ensures LoopInv(Execute(m, acts))
    decreases |acts|
  {
    if acts != [] {
      NextInv(m, acts[0]);
      ExecuteInv(Next(m, acts[0]), acts[1..]);
    }
  }

  /** No lost wake-up: in every interleaving, a producer asleep on a captured revision although
      space or a cancellation is there has a newer revision pending, so its wait is over. */
  lemma NoLostWakeUp(w: World, frames: nat, acts: seq<Act>)
    requires Inv(w) && SingleProducer(acts)
    ensures
      var m := Execute(Machine(w, frames, Poll), acts);
      m.pc.Waiting? && (CanPublish(m.w.s, frames) || CancellationRequested(m.w.s)) ==>
        m.w.s.revision > m.pc.revision
  {
    ExecuteInv(Machine(w, frames, Poll), acts);
    FramesFixed(Machine(w, frames, Poll), acts);
  }

  /** Asleep with its revision still current, a running request really is full and uncancelled. */
  lemma SleepIsJustified(w: World, frames: nat, acts: seq<Act>)
    requires Inv(w) && SingleProducer(acts) && frames > 0
    ensures
      var m := Execute(Machine(w, frames, Poll), acts);
      m.pc.Waiting? && m.w.s.revision == m.pc.revision && m.w.s.phase == Running ==>
        !Room(m.w.s, frames) && !m.w.s.cancelRequested
  {
    ExecuteInv(Machine(w, frames, Poll), acts);
    FramesFixed(Machine(w, frames, Poll), acts);
  }

  /** No late back-pressure: once space is granted, whatever happens before the producer's next
      publication, a chunk of at most that many frames is not refused for space. A refusal to
      grant means that a cancellation was accepted. */
  lemma GrantedSpaceStays(w: World, frames: nat, acts: seq<Act>)
    requires Inv(w) && SingleProducer(acts)
    ensures
      var m := Execute(Machine(w, frames, Poll), acts);
      && (m.pc == Returned(true) ==>
            forall c: Chunk :: c.frames <= frames ==> Verdict(m.w.s, c) != Err(Backpressure, -1))
      && (m.pc == Returned(false) ==> m.w.s.cancelRequested)
  {
    ExecuteInv(Machine(w, frames, Poll), acts);
    FramesFixed(Machine(w, frames, Poll), acts);
    var s := Execute(Machine(w, frames, Poll), acts).w.s;
    if Room(s, frames) && s.capacity < UINT32 {
      forall c: Chunk | c.frames <= frames ensures Verdict(s, c) != Err(Backpressure, -1) {
        RoomMeansNoBackpressure(s, frames, c);
      }
    }
  }

  lemma RoomMeansNoBackpressure(s: State, frames: nat, c: Chunk)
    requires Room(s, frames) && s.capacity < UINT32 && c.frames <= frames
    ensures Verdict(s, c) != Err(Backpressure, -1)
  {
  }

  lemma {:induction false} FramesFixed(m: Machine, acts: seq<Act>)
    ensures Execute(m, acts).frames == m.frames
    decreases |acts|
  {
    if acts != [] {
      FramesFixed(Next(m, acts[0]), acts[1..]);
    }
  }

  /** The states the producer's own steps find along an interleaving. */
  function Looks(m: Machine, acts: seq<Act>): seq<State>
    decreases |acts|
  {
    if acts == [] then []
    else (if acts[0].ProducerAct? then [m.w.s] else []) + Looks(Next(m, acts[0]), acts[1..])
  }

  lemma {:induction false} LookShift(pc: Pc, first: State, rest: seq<State>, i: nat, frames: nat)
    ensures LookAll(pc, [first] + rest, i + 1, frames) == LookAll(pc, rest, i, frames)
    decreases |rest| - i
  {
    if i < |rest| {
      LookShift(Look(pc, rest[i], frames), first, rest, i + 1, frames);
    }
  }

  /** Interleaved with anything, the producer is where its loop is after the states it has found. */
  lemma {:induction false} LoopFollowsItsLooks(m: Machine, acts: seq<Act>)
    ensures Execute(m, acts).pc == LookAll(m.pc, Looks(m, acts), 0, m.frames)
    decreases |acts|
  {
    if acts != [] {
      LoopFollowsItsLooks(Next(m, acts[0]), acts[1..]);
      var rest := Looks(Next(m, acts[0]), acts[1..]);
      if acts[0].ProducerAct? {
        LookShift(Look(m.pc, m.w.s, m.frames), m.w.s, rest, 0, m.frames);
      } else {
        assert [] + rest == rest;
      }
    }
  }

  // ---------- and it does wake up ----------

  /** What the request's callers do meanwhile. To complete a cancellation or to fail the request is
      up to the worker itself, which is in the loop. */
  predicate CallersOnly(acts: seq<Act>) {
    forall k :: 0 <= k < |acts| && acts[k].OtherAct? ==>
      !acts[k].op.PublishOp? && !acts[k].op.CompleteCancelOp? && !acts[k].op.FailOp?
  }

  /** How many more looks the loop takes at most, once there is room or a cancellation to be found. */
  function LooksLeft(pc: Pc, cancelled: bool): nat {
    match pc
    case Poll => 2
    case PollCancelled => if cancelled then 1 else 5
    case TakeRevision => if cancelled then 3 else 4
    case Recheck(_) => if cancelled then 2 else 3
    case RecheckCancelled(_) => if cancelled then 1 else 4
    case Waiting(_) => 3
    case LastCheck => 1
    case Returned(_) => 0
  }

  predicate SomethingToFind(s: State, frames: nat) {
    CanPublish(s, frames) || CancellationRequested(s)
  }

  lemma OneLook(pc: Pc, s: State, frames: nat)
    requires SomethingToFind(s, frames) && !pc.Returned?
    ensures LooksLeft(Look(pc, s, frames), s.cancelRequested) < LooksLeft(pc, s.cancelRequested)
    ensures Look(pc, s, frames).Returned? ==>
              Look(pc, s, frames) == Returned(!s.cancelRequested)
  {
  }

  /** Each of these states has room or a cancellation, and a cancellation stays. */
  predicate Findable(looks: seq<State>, frames: nat) {
    && (forall k :: 0 <= k < |looks| ==> SomethingToFind(looks[k], frames))
    && (forall j, k :: 0 <= j < k < |looks| && looks[j].cancelRequested ==>
          looks[k].cancelRequested)
  }

  lemma {:induction false} LoopReturns(pc: Pc, looks: seq<State>, i: nat, frames: nat)
    requires Findable(looks, frames) && !pc.Returned? && i < |looks|
    requires |looks| - i >= LooksLeft(pc, looks[i].cancelRequested)
    ensures
      var end := LookAll(pc, looks, i, frames);
      && end.Returned?
      && (looks[i].cancelRequested ==> end == Returned(false))
      && (!looks[|looks| - 1].cancelRequested ==> end == Returned(true))
    decreases |looks| - i
  {
    OneLook(pc, looks[i], frames);
    var next := Look(pc, looks[i], frames);
    if next.Returned? {
      ReturnedStays(next.granted, looks, i + 1, frames);
    } else {
      LoopReturns(next, looks, i + 1, frames);
    }
  }

  /** A caller's operation leaves a running request running and only ever frees ring frames. */
  lemma CallerStep(w: World, op: Op)
    requires Inv(w) && w.s.phase == Running
    requires !op.PublishOp? && !op.CompleteCancelOp? && !op.FailOp?
    ensures Step(w, op).s.phase == Running
    ensures w.s.cancelRequested ==> Step(w, op).s.cancelRequested
  {
    DiscardExact(w.s.queue, w.s.occupied);
  }

  lemma LessOccupied(s: State, t: State, frames: nat)
    requires SomethingToFind(s, frames) && t.phase == Running && s.capacity < UINT32
    requires s.occupied <= s.capacity == t.capacity && t.occupied <= s.occupied
    requires s.cancelRequested ==> t.cancelRequested
    ensures SomethingToFind(t, frames)
  {
  }

  lemma CallersKeepIt(w: World, op: Op, frames: nat)
    requires Inv(w) && SomethingToFind(w.s, frames)
    requires !op.PublishOp? && !op.CompleteCancelOp? && !op.FailOp?
    ensures SomethingToFind(Step(w, op).s, frames)
    ensures w.s.cancelRequested ==> Step(w, op).s.cancelRequested
  {
    CallerStep(w, op);
    OthersOnlyFreeRoom(w, op);
    LessOccupied(w.s, Step(w, op).s, frames);
  }

  lemma CallersLeave(m: Machine, act: Act)
    requires Inv(m.w) && SomethingToFind(m.w.s, m.frames) && CallersOnly([act])
    ensures
      var next := Next(m, act);
      && Inv(next.w) && SomethingToFind(next.w.s, m.frames) && next.frames == m.frames
      && (m.w.s.cancelRequested ==> next.w.s.cancelRequested)
  {
    assert [act][0] == act;
    if act.OtherAct? {
      CallersKeepIt(m.w, act.op, m.frames);
      StepInv(m.w, act.op);
    }
  }

  /** A cancellation at the start is found by every look, and one that is not there at the end by
      none. */
  predicate Between(start: State, looks: seq<State>, end: State) {
    && (start.cancelRequested ==> end.cancelRequested)
    && (forall k :: 0 <= k < |looks| ==>
          && (start.cancelRequested ==> looks[k].cancelRequested)
          && (looks[k].cancelRequested ==> end.cancelRequested))
  }

  lemma OneMoreLook(first: State, next: State, rest: seq<State>, end: State, frames: nat)
    requires SomethingToFind(first, frames) && (first.cancelRequested ==> next.cancelRequested)
    requires Findable(rest, frames) && Between(next, rest, end)
    ensures Findable([first] + rest, frames) && Between(first, [first] + rest, end)
    ensures Between(first, [] + rest, end) && [] + rest == rest
  {
  }

  lemma {:induction false} LooksFind(m: Machine, acts: seq<Act>)
    requires Inv(m.w) && CallersOnly(acts) && SomethingToFind(m.w.s, m.frames)
    ensures Findable(Looks(m, acts), m.frames)
    ensures Between(m.w.s, Looks(m, acts), Execute(m, acts).w.s)
    decreases |acts|
  {
    if acts != [] {
      var next := Next(m, acts[0]);
      assert CallersOnly([acts[0]]);
      CallersLeave(m, acts[0]);
      LooksFind(next, acts[1..]);
      OneMoreLook(m.w.s, next.w.s, Looks(next, acts[1..]), Execute(m, acts).w.s, m.frames);
    }
  }

  /** From wherever it stands, asleep included, the producer returns within five of its own looks
      once there is room or a cancellation, however its callers interleave: false if the
      cancellation was there from the start, true if none has come by the end. */
  lemma ProducerReturns(m: Machine, acts: seq<Act>)
    requires Inv(m.w) && CallersOnly(acts) && !m.pc.Returned?
    requires SomethingToFind(m.w.s, m.frames) && |Looks(m, acts)| >= 5
    ensures
      var end := Execute(m, acts);
      && end.pc.Returned?
      && (m.w.s.cancelRequested ==> end.pc == Returned(false))
      && (!end.w.s.cancelRequested ==> end.pc == Returned(true))
  {
    LooksFind(m, acts);
    LoopFollowsItsLooks(m, acts);
    LoopReturns(m.pc, Looks(m, acts), 0, m.frames);
  }

  function OwnLooks(n: nat): seq<Act> {
    seq(n, _ => ProducerAct)
  }

  lemma {:induction false} OwnLooksFind(m: Machine, n: nat)
    ensures |Looks(m, OwnLooks(n))| == n && CallersOnly(OwnLooks(n))
    ensures Execute(m, OwnLooks(n)).w == m.w
    decreases n
  {
    if n > 0 {
      assert OwnLooks(n)[1..] == OwnLooks(n - 1);
      OwnLooksFind(Next(m, ProducerAct), n - 1);
    }
  }

  /** With nothing to find it does sleep, on the revision it saw: five undisturbed looks take it from
      its first poll into the wait. */
  lemma FullRequestSleeps(w: World, frames: nat)
    requires !SomethingToFind(w.s, frames)
    ensures Execute(Machine(w, frames, Poll), OwnLooks(5)).pc == Waiting(w.s.revision)
  {
    var m := Machine(w, frames, Poll);
    OwnLooksSame(m, 5);
    LoopFollowsItsLooks(m, OwnLooks(5));
    var looks := Looks(m, OwnLooks(5));
    var r := w.s.revision;
    assert LookAll(Waiting(r), looks, 5, frames) == Waiting(r);
    assert LookAll(RecheckCancelled(r), looks, 4, frames) == Waiting(r);
    assert LookAll(Recheck(r), looks, 3, frames) == Waiting(r);
    assert LookAll(TakeRevision, looks, 2, frames) == Waiting(r);
    assert LookAll(PollCancelled, looks, 1, frames) == Waiting(r);
  }

  lemma {:induction false} OwnLooksSame(m: Machine, n: nat)
    ensures |Looks(m, OwnLooks(n))| == n
    ensures forall k :: 0 <= k < n ==> Looks(m, OwnLooks(n))[k] == m.w.s
    decreases n
  {
    if n > 0 {
      assert OwnLooks(n)[1..] == OwnLooks(n - 1);
      OwnLooksSame(Next(m, ProducerAct), n - 1);
    }
  }

  /** So five undisturbed looks are always enough: nobody sleeps next to an empty ring. */
  lemma FiveLooksEnough(m: Machine)
    requires Inv(m.w) && !m.pc.Returned?
    ensures CanPublish(m.w.s, m.frames) ==> Execute(m, OwnLooks(5)).pc == Returned(true)
    ensures CancellationRequested(m.w.s) ==> Execute(m, OwnLooks(5)).pc == Returned(false)
  {
    OwnLooksFind(m, 5);
    if SomethingToFind(m.w.s, m.frames) {
      ProducerReturns(m, OwnLooks(5));
    }
  }
}
