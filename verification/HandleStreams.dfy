/** What the callers of one request handle receive over whole runs of the handle tree: every
    request in the tree lives a run of its own, and its stream reaches the caller up to the chunks
    that failing lease calls drop. */
module HandleStreams {
  import opened Options
  import opened Request
  import opened HandleTree
  import opened HandleTreeRuns
  import R = RequestRuns
  import G = RequestGuarantees

  /** The story of a request handle: the run of the request behind it, the chunks its callers
      received from successful lease calls, and for each chunk that left the queue in a lease call
      whether the caller got it. */
  datatype Story = Untold | Told(w: R.World, received: seq<Chunk>, kept: seq<bool>)

  /** What one act does to a request, in the request's own operations. */
  function OpsOf(a: Api, act: Act, q: nat): seq<R.Op>
    requires Legal(a, act) && Has(a, q, 3)
  {
    match act
    case Cancel(p) => if p == q then [R.CancelOp] else []
    case AudioAcquire(p, metadataFails) =>
      if p == q then
        if metadataFails && CanLease(a, q) then [R.AcquireOp, R.ReleaseOp(a.nextLease)]
        else [R.AcquireOp]
      else if a.handles[p].body.state.queue != [] then [R.ForeignLeaseOp]
      else []
    case AudioRelease(p, id) =>
      if p == q && id != 0 && id in a.handles[q].body.metadata then [R.ReleaseOp(id)] else []
    case WorkerPublish(p, c) => if p == q then [R.PublishOp(c)] else []
    case WorkerCompletesCancel(p) => if p == q then [R.CompleteCancelOp] else []
    case WorkerFails(p, status, stage, message) =>
      if p == q && a.handles[q].body.state.phase == Running then
        [R.FailOp(status, stage, message)]
      else []
    case _ => []
  }

  /** There is audio, and an identifier to lease it under. */
  predicate CanLease(a: Api, q: nat)
    requires Has(a, q, 3)
  {
    a.handles[q].body.state.queue != [] && a.nextLease < UINT64_MAX
  }

  function Extend(a: Api, t: Story, act: Act, q: nat): Story
    requires Legal(a, act)
  {
    var (b, status) := HandleTree.Step(a, act);
    if !Has(b, q, 3) then t
    else if !Has(a, q, 3) then
      if act.StartFinish? then Told(R.Start(act.tokens, act.capacity, a.nextLease), [], []) else t
    else if t.Untold? then t
    else
      var w := R.Run(t.w, OpsOf(a, act, q));
      var queue := a.handles[q].body.state.queue;
      if act.AudioAcquire? && act.request == q && queue != [] then
        if status == Success then Told(w, t.received + [queue[0]], t.kept + [true])
        else if b.handles[q].body.state.queue != queue then Told(w, t.received, t.kept + [false])
        else t.(w := w)
      else t.(w := w)
  }

  function StoryOf(a: Api, t: Story, acts: seq<Act>, q: nat): Story
    decreases |acts|
  {
    if acts == [] then t
    else if Legal(a, acts[0]) then
      StoryOf(HandleTree.Step(a, acts[0]).0, Extend(a, t, acts[0], q), acts[1..], q)
    else StoryOf(a, t, acts[1..], q)
  }

  /** The chunks of those leases that were kept. */
  function Kept(acquired: seq<Lease>, kept: seq<bool>): seq<Chunk>
    requires |acquired| == |kept|
    decreases |kept|
  {
    if kept == [] then []
    else
      var n := |kept| - 1;
      Kept(acquired[..n], kept[..n]) + if kept[n] then [acquired[n].chunk] else []
  }

  predicate Faithful(a: Api, t: Story, q: nat) {
    && (t.Told? ==> q < a.nextHandle)
    && (t.Told? ==> |t.kept| == |t.w.acquired| && t.received == Kept(t.w.acquired, t.kept))
    && (Has(a, q, 3) ==>
          t.Told? && t.w.s == a.handles[q].body.state && t.w.next == a.nextLease)
  }

  // ---------- one act ----------

  lemma RunOne(w: R.World, op: R.Op)
    ensures R.Run(w, [op]) == R.Step(w, op)
  {
    assert [op][1..] == [];
  }

  lemma RunTwo(w: R.World, op: R.Op, next: R.Op)
    ensures R.Run(w, [op, next]) == R.Step(R.Step(w, op), next)
  {
    assert [op, next][1..] == [next];
    RunOne(R.Step(w, op), next);
  }

  /** The world and the tree move together under an act on the request itself. */
  predicate Together(a: Api, w: R.World, b: Api, v: R.World, q: nat) {
    && Has(a, q, 3) && Has(b, q, 3)
    && w.s == a.handles[q].body.state && w.next == a.nextLease
    && v.s == b.handles[q].body.state && v.next == b.nextLease
  }

  lemma AcquireTogether(a: Api, w: R.World, q: nat, metadataFails: bool)
    requires Has(a, q, 3) && RequestOk(a.handles[q].body, a.nextLease) && 0 < a.nextLease
    requires w.s == a.handles[q].body.state && w.next == a.nextLease
    ensures
      var b := AcquireAudio(a, q, metadataFails).0;
      var v := R.Run(w, if metadataFails && CanLease(a, q)
                        then [R.AcquireOp, R.ReleaseOp(a.nextLease)] else [R.AcquireOp]);
      && Together(a, w, b, v, q) && v.published == w.published
      && v.acquired == w.acquired + if CanLease(a, q) then [Lease(a.nextLease, w.s.queue[0])]
                                    else []
  {
    RunOne(w, R.AcquireOp);
    RunTwo(w, R.AcquireOp, R.ReleaseOp(a.nextLease));
    if Acquire(w.s, w.next).2.Ok? {
      LeaseTaken(a.handles[q].body, a.nextLease);
    } else {
      LeaseRefused(a.handles[q].body, a.nextLease);
    }
  }

  lemma ForeignAcquireTogether(a: Api, w: R.World, p: nat, q: nat, metadataFails: bool)
    requires Has(a, q, 3) && Has(a, p, 3) && p != q
    requires RequestOk(a.handles[p].body, a.nextLease) && 0 < a.nextLease
    requires w.s == a.handles[q].body.state && w.next == a.nextLease
    ensures
      var b := AcquireAudio(a, p, metadataFails).0;
      var v := R.Run(w, if a.handles[p].body.state.queue != [] then [R.ForeignLeaseOp] else []);
      Together(a, w, b, v, q) && v.published == w.published && v.acquired == w.acquired
  {
    RunOne(w, R.ForeignLeaseOp);
    if Acquire(a.handles[p].body.state, a.nextLease).2.Ok? {
      LeaseTaken(a.handles[p].body, a.nextLease);
    } else {
      LeaseRefused(a.handles[p].body, a.nextLease);
    }
  }

  lemma ReleaseTogether(a: Api, w: R.World, p: nat, q: nat, id: nat)
    requires Has(a, q, 3) && Has(a, p, 3)
    requires w.s == a.handles[q].body.state && w.next == a.nextLease
    ensures
      var b := ReleaseAudio(a, p, id).0;
      var v := R.Run(w, if p == q && id != 0 && id in a.handles[q].body.metadata
                        then [R.ReleaseOp(id)] else []);
      Together(a, w, b, v, q) && v.acquired == w.acquired && v.published == w.published
  {
    RunOne(w, R.ReleaseOp(id));
  }

  lemma StateTogether(a: Api, w: R.World, p: nat, q: nat, op: R.Op)
    requires Has(a, q, 3) && Has(a, p, 3) && !op.AcquireOp? && !op.ForeignLeaseOp?
    requires w.s == a.handles[q].body.state && w.next == a.nextLease
    ensures
      var s := a.handles[p].body.state;
      var b := SetState(a, p, R.Step(w.(s := s), op).s);
      var v := R.Run(w, if p == q then [op] else []);
      Together(a, w, b, v, q) && v.acquired == w.acquired
  {
    RunOne(w, op);
  }

  /** Acts that concern no request's state leave each request where it is. */
  lemma QuietTogether(a: Api, act: Act, q: nat)
    requires Legal(a, act) && Has(a, q, 3) && a.nextHandle !in a.handles
    requires act.RuntimeCreate? || act.ModelLoad? || act.SessionCreate? || act.HandleDestroy?
             || act.StartCheck? || act.StartFinish? || act.RequestDestroy? || act.WorkerPoisons?
             || act.WorkerEnds?
    ensures
      var b := HandleTree.Step(a, act).0;
      && b.nextLease == a.nextLease
      && (Has(b, q, 3) ==> b.handles[q].body.state == a.handles[q].body.state)
  {
  }

  lemma WorkerTogether(a: Api, w: R.World, act: Act, q: nat)
    requires Legal(a, act) && Has(a, q, 3)
    requires act.WorkerPublish? || act.WorkerCompletesCancel? || act.WorkerFails? || act.Cancel?
    requires w.s == a.handles[q].body.state && w.next == a.nextLease
    ensures
      var b := HandleTree.Step(a, act).0;
      var v := R.Run(w, OpsOf(a, act, q));
      Together(a, w, b, v, q) && v.acquired == w.acquired
  {
    match act
    case WorkerPublish(p, c) => StateTogether(a, w, p, q, R.PublishOp(c));
    case WorkerCompletesCancel(p) => StateTogether(a, w, p, q, R.CompleteCancelOp);
    case Cancel(p) => StateTogether(a, w, p, q, R.CancelOp);
    case WorkerFails(p, status, stage, message) =>
      StateTogether(a, w, p, q, R.FailOp(status, stage, message));
      assert R.Run(w, []) == w;
  }

  // ---------- stories stay faithful ----------

  lemma KeptOneMore(acquired: seq<Lease>, kept: seq<bool>, lease: Lease, keep: bool)
    requires |acquired| == |kept|
    ensures Kept(acquired + [lease], kept + [keep])
         == Kept(acquired, kept) + if keep then [lease.chunk] else []
  {
    assert (acquired + [lease])[..|kept|] == acquired && (kept + [keep])[..|kept|] == kept;
  }

  lemma OwnAcquireFaithful(a: Api, t: Story, act: Act, q: nat)
    requires Faithful(a, t, q) && Legal(a, act) && act.AudioAcquire? && act.request == q
    requires RequestOk(a.handles[q].body, a.nextLease) && 0 < a.nextLease
    ensures Faithful(HandleTree.Step(a, act).0, Extend(a, t, act, q), q)
    ensures Extend(a, t, act, q).Told?
    ensures Extend(a, t, act, q).kept
         == t.kept + if CanLease(a, q) then [!act.metadataFails] else []
  {
    AcquireTogether(a, t.w, q, act.metadataFails);
    AcquireQueue(a, q, act.metadataFails);
    if CanLease(a, q) {
      KeptOneMore(t.w.acquired, t.kept, Lease(a.nextLease, t.w.s.queue[0]), !act.metadataFails);
    }
  }

  /** Every act but a lease call on the request itself leaves what was acquired alone. */
  lemma OtherTogether(a: Api, w: R.World, act: Act, q: nat)
    requires Legal(a, act) && Has(a, q, 3) && !(act.AudioAcquire? && act.request == q)
    requires w.s == a.handles[q].body.state && w.next == a.nextLease
    requires RequestsOk(a.handles, a.nextLease) && 0 < a.nextLease
    requires a.nextHandle !in a.handles
    ensures
      var b := HandleTree.Step(a, act).0;
      var v := R.Run(w, OpsOf(a, act, q));
      && v.acquired == w.acquired
      && (Has(b, q, 3) ==> v.s == b.handles[q].body.state && v.next == b.nextLease)
  {
    match act
    case AudioAcquire(p, fails) =>
      assert RequestOk(a.handles[p].body, a.nextLease);
      ForeignAcquireTogether(a, w, p, q, fails);
    case AudioRelease(p, id) => ReleaseTogether(a, w, p, q, id);
    case WorkerPublish(_, _) => WorkerTogether(a, w, act, q);
    case WorkerCompletesCancel(_) => WorkerTogether(a, w, act, q);
    case WorkerFails(_, _, _, _) => WorkerTogether(a, w, act, q);
    case Cancel(_) => WorkerTogether(a, w, act, q);
    case _ => QuietTogether(a, act, q);
  }

  lemma HandlesGrow(a: Api, act: Act)
    requires Legal(a, act)
    ensures a.nextHandle <= HandleTree.Step(a, act).0.nextHandle
    ensures forall h :: h in HandleTree.Step(a, act).0.handles && h !in a.handles ==>
              h == a.nextHandle < HandleTree.Step(a, act).0.nextHandle
  {
  }

  lemma NoOtherBirth(a: Api, act: Act, h: nat)
    requires Legal(a, act) && !act.StartFinish? && !Has(a, h, 3)
    ensures !Has(HandleTree.Step(a, act).0, h, 3)
  {
  }

  lemma BornByStart(a: Api, act: Act, h: nat)
    requires Legal(a, act) && Has(HandleTree.Step(a, act).0, h, 3) && !Has(a, h, 3)
    ensures h == a.nextHandle && act.StartFinish?
    ensures HandleTree.Step(a, act).0.handles[h].body.state == Initial(act.tokens, act.capacity)
    ensures HandleTree.Step(a, act).0.nextLease == a.nextLease
  {
    if !act.StartFinish? {
      NoOtherBirth(a, act, h);
    }
  }

  lemma OtherActFaithful(a: Api, t: Story, act: Act, q: nat)
    requires Faithful(a, t, q) && Legal(a, act) && Has(a, q, 3)
    requires !(act.AudioAcquire? && act.request == q)
    requires RequestsOk(a.handles, a.nextLease) && 0 < a.nextLease
    requires a.nextHandle !in a.handles
    ensures Faithful(HandleTree.Step(a, act).0, Extend(a, t, act, q), q)
    ensures Extend(a, t, act, q).Told? && Extend(a, t, act, q).kept == t.kept
  {
    OtherTogether(a, t.w, act, q);
    HandlesGrow(a, act);
  }

  /** Before it exists and after it is gone, a handle's story does not move, except by its birth. */
  lemma AbsentFaithful(a: Api, t: Story, act: Act, q: nat)
    requires Faithful(a, t, q) && Legal(a, act) && !Has(a, q, 3)
    ensures Faithful(HandleTree.Step(a, act).0, Extend(a, t, act, q), q)
    ensures Extend(a, t, act, q) == t
            || (t.Untold? && Extend(a, t, act, q).Told? && Extend(a, t, act, q).kept == [])
  {
    HandlesGrow(a, act);
    if Has(HandleTree.Step(a, act).0, q, 3) {
      BornByStart(a, act, q);
    }
  }

  /** A lease call on `q` that drops the chunk it was asked for. */
  predicate Drops(a: Api, act: Act, q: nat) {
    act.AudioAcquire? && act.request == q && act.metadataFails && Has(a, q, 3) && CanLease(a, q)
  }

  /** No lease call of the run drops a chunk of `q`. */
  predicate DropFree(a: Api, acts: seq<Act>, q: nat)
    decreases |acts|
  {
    acts == []
    || (if Legal(a, acts[0]) then
          !Drops(a, acts[0], q) && DropFree(HandleTree.Step(a, acts[0]).0, acts[1..], q)
        else DropFree(a, acts[1..], q))
  }

  predicate NothingDropped(t: Story) {
    t.Told? ==> false !in t.kept
  }

  lemma ExtendFaithful(a: Api, t: Story, act: Act, q: nat)
    requires TreeInv(a) && Faithful(a, t, q) && Legal(a, act)
    ensures Faithful(HandleTree.Step(a, act).0, Extend(a, t, act, q), q)
    ensures NothingDropped(Extend(a, t, act, q)) <==> NothingDropped(t) && !Drops(a, act, q)
  {
    assert a.nextHandle !in a.handles;
    if !Has(a, q, 3) {
      AbsentFaithful(a, t, act, q);
    } else if act.AudioAcquire? && act.request == q {
      assert RequestOk(a.handles[q].body, a.nextLease);
      OwnAcquireFaithful(a, t, act, q);
    } else {
      OtherActFaithful(a, t, act, q);
    }
  }

  ghost predicate Lived(t: Story) {
    t.Told? ==> R.Inv(t.w)
  }

  lemma ExtendLived(a: Api, t: Story, act: Act, q: nat)
    requires Lived(t) && Legal(a, act) && 0 < a.nextLease
    ensures Lived(Extend(a, t, act, q))
  {
    var end := Extend(a, t, act, q);
    if t.Told? && Has(a, q, 3) {
      R.RunInv(t.w, OpsOf(a, act, q));
      assert end == t || end.w == R.Run(t.w, OpsOf(a, act, q));
    } else if end != t {
      R.StartInv(act.tokens, act.capacity, a.nextLease);
      assert end.w == R.Start(act.tokens, act.capacity, a.nextLease);
    }
  }

  lemma {:induction false} StoryRun(a: Api, t: Story, acts: seq<Act>, q: nat)
    requires TreeInv(a) && Faithful(a, t, q) && Lived(t)
    ensures
      var end := StoryOf(a, t, acts, q);
      && Faithful(HandleTree.Run(a, acts), end, q) && Lived(end)
      && (NothingDropped(end) <==> NothingDropped(t) && DropFree(a, acts, q))
    decreases |acts|
  {
    if acts != [] {
      if Legal(a, acts[0]) {
        ExtendFaithful(a, t, acts[0], q);
        ExtendLived(a, t, acts[0], q);
        StepInv(a, acts[0]);
        StoryRun(HandleTree.Step(a, acts[0]).0, Extend(a, t, acts[0], q), acts[1..], q);
      } else {
        StoryRun(a, t, acts[1..], q);
      }
    }
  }

  // ---------- the guarantees ----------

  /** Every request of every run of the tree lives a run of its own: its state is that of a request
      run over the shared lease sequence, so whatever holds of all request runs holds of it. */
  lemma RequestLivesItsOwnRun(acts: seq<Act>, q: nat)
    requires Has(HandleTree.Run(EMPTY, acts), q, 3)
    ensures
      var a := HandleTree.Run(EMPTY, acts);
      var t := StoryOf(EMPTY, Untold, acts, q);
      && t.Told? && R.Inv(t.w)
      && t.w.s == a.handles[q].body.state && t.w.next == a.nextLease
      && |t.kept| == |t.w.acquired| && t.received == Kept(t.w.acquired, t.kept)
      && (NothingDropped(t) <==> DropFree(EMPTY, acts, q))
  {
    EmptyInv();
    StoryRun(EMPTY, Untold, acts, q);
  }

  lemma EmptyInv()
    ensures TreeInv(EMPTY)
  {
  }

  /** The chunks of leases [from, ..), all of them. */
  function Chunks(acquired: seq<Lease>): seq<Chunk> {
    seq(|acquired|, i requires 0 <= i < |acquired| => acquired[i].chunk)
  }

  lemma {:induction false} KeptCount(acquired: seq<Lease>, kept: seq<bool>)
    requires |acquired| == |kept|
    ensures |Kept(acquired, kept)| <= |kept|
    ensures false in kept <==> |Kept(acquired, kept)| < |kept|
    ensures false !in kept ==> Kept(acquired, kept) == Chunks(acquired)
    decreases |kept|
  {
    if kept != [] {
      var n := |kept| - 1;
      KeptCount(acquired[..n], kept[..n]);
      assert kept == kept[..n] + [kept[n]];
      assert Chunks(acquired) == Chunks(acquired[..n]) + [acquired[n].chunk];
    }
  }

  /** Nothing is lost exactly when no call dropped a chunk: while a request is neither cancelled nor
      failed, what its callers received and what is still queued make up the published stream if and
      only if no lease call of the run failed on its metadata. */
  lemma StreamReachesCaller(acts: seq<Act>, q: nat)
    requires Has(HandleTree.Run(EMPTY, acts), q, 3)
    requires var s := HandleTree.Run(EMPTY, acts).handles[q].body.state;
             !s.cancelRequested && s.phase != Failed
    ensures
      var t := StoryOf(EMPTY, Untold, acts, q);
      var queue := HandleTree.Run(EMPTY, acts).handles[q].body.state.queue;
      && t.Told?
      && (t.received + queue == t.w.published <==> DropFree(EMPTY, acts, q))
  {
    RequestLivesItsOwnRun(acts, q);
    var t := StoryOf(EMPTY, Untold, acts, q);
    KeptCount(t.w.acquired, t.kept);
    Delivered(t.w);
  }

  lemma Delivered(w: R.World)
    requires R.DeliveryInv(w)
    ensures |w.acquired| <= |w.published|
    ensures Chunks(w.acquired) == w.published[..|w.acquired|]
    ensures !w.s.cancelRequested && w.s.phase != Failed ==>
              |w.acquired| + |w.s.queue| == |w.published|
              && Chunks(w.acquired) + w.s.queue == w.published
  {
  }

  /** Every received chunk precedes every dropped one. */
  predicate DropsLast(kept: seq<bool>) {
    forall i, j :: 0 <= i < j < |kept| && kept[j] ==> kept[i]
  }

  /** Received chunks keep their order, and the last kept lease ends them. */
  lemma {:induction false} KeptLast(acquired: seq<Lease>, kept: seq<bool>, j: nat)
    requires |acquired| == |kept| && j < |kept| && kept[j]
    ensures |Kept(acquired[..j], kept[..j])| < |Kept(acquired, kept)|
    ensures Kept(acquired, kept)[|Kept(acquired[..j], kept[..j])|] == acquired[j].chunk
    decreases |kept|
  {
    var n := |kept| - 1;
    if j < n {
      KeptLast(acquired[..n], kept[..n], j);
      assert acquired[..n][..j] == acquired[..j] && kept[..n][..j] == kept[..j];
    }
  }

  lemma {:induction false} KeptPrefix(acquired: seq<Lease>, kept: seq<bool>)
    requires |acquired| == |kept| && DropsLast(kept)
    ensures Kept(acquired, kept) <= Chunks(acquired)
    decreases |kept|
  {
    KeptCount(acquired, kept);
    if kept != [] {
      var n := |kept| - 1;
      KeptPrefix(acquired[..n], kept[..n]);
      KeptCount(acquired[..n], kept[..n]);
      assert Chunks(acquired) == Chunks(acquired[..n]) + [acquired[n].chunk];
      if kept[n] {
        assert false !in kept[..n];
      }
    }
  }

  /** The received chunks are a contiguous prefix of the published stream if and only if nothing was
      received after a dropped chunk; a drop that nothing follows cannot be told from an end. */
  lemma ReceivedPrefix(acts: seq<Act>, q: nat)
    requires Has(HandleTree.Run(EMPTY, acts), q, 3)
    ensures
      var t := StoryOf(EMPTY, Untold, acts, q);
      t.Told? && (t.received <= t.w.published <==> DropsLast(t.kept))
  {
    RequestLivesItsOwnRun(acts, q);
    var t := StoryOf(EMPTY, Untold, acts, q);
    Delivered(t.w);
    KeptCount(t.w.acquired, t.kept);
    if DropsLast(t.kept) {
      KeptPrefix(t.w.acquired, t.kept);
    } else {
      var i, j :| 0 <= i < j < |t.kept| && t.kept[j] && !t.kept[i];
      GapShows(t.w, t.kept, i, j);
    }
  }

  /** A chunk received behind a gap sits too early in what was received. */
  lemma GapShows(w: R.World, kept: seq<bool>, i: nat, j: nat)
    requires R.StreamOk(w.published, w.s.tokenLimit) && |w.acquired| <= |w.published|
    requires Chunks(w.acquired) == w.published[..|w.acquired|]
    requires |kept| == |w.acquired| && i < j < |kept| && kept[j] && !kept[i]
    ensures !(Kept(w.acquired, kept) <= w.published)
  {
    KeptLast(w.acquired, kept, j);
    KeptCount(w.acquired[..j], kept[..j]);
    var k := |Kept(w.acquired[..j], kept[..j])|;
    assert false in kept[..j] by {
      assert kept[..j][i] == false;
    }
    assert w.acquired[j].chunk == Chunks(w.acquired)[j] == w.published[j];
    G.StreamSchedule(w.published, w.s.tokenLimit, j);
    G.StreamSchedule(w.published, w.s.tokenLimit, k);
  }
}
