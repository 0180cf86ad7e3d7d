/** What each call of the C boundary answers in every reachable tree, which handles it touches, and
    how a request, a session and a poison flag come about and go away. */
module HandleAnswers {
  import opened Options
  import opened Request
  import opened HandleTree
  import opened HandleTreeRuns
  import R = RequestRuns
  import G = RequestGuarantees

  /** Every handle but these is as it was. */
  predicate Untouched(a: Api, b: Api, but: set<nat>) {
    forall h :: h in a.handles && h !in but ==> h in b.handles && b.handles[h] == a.handles[h]
  }

  /** What a handle keeps as long as it lives. */
  predicate SameIdentity(x: Handle, y: Handle) {
    y.owner == x.owner && y.limit == x.limit && Level(y.body) == Level(x.body)
  }

  /** One new handle, under a number not used before, counted at its owner. */
  predicate Born(a: Api, b: Api, p: nat, body: Body, limit: Option<nat>) {
    && a.nextHandle !in a.handles
    && b.handles.Keys == a.handles.Keys + {a.nextHandle}
    && b.handles[a.nextHandle] == Handle(p, body, 0, limit)
    && Untouched(a, b, {p})
    && Kids(b.handles, p) == Kids(a.handles, p) + {a.nextHandle}
    && (p in a.handles ==>
          b.handles[p] == a.handles[p].(live := |Kids(b.handles, p)|))
  }

  lemma AttachBears(a: Api, p: nat, body: Body, limit: Option<nat>)
    requires Forest(a.handles, a.nextHandle) && p in a.handles
    ensures Born(a, Attach(a, p, body, limit), p, body, limit)
  {
    NextUnused(a.handles, a.nextHandle);
    AttachedKids(a, p, body, limit);
    AttachKids(a, p, body, limit, p);
    assert a.handles[p].live == |Kids(a.handles, p)|;
    AttachedHandles(a, p, body, limit);
  }

  lemma AttachedKids(a: Api, p: nat, body: Body, limit: Option<nat>)
    requires a.nextHandle !in a.handles
    ensures Kids(Attach(a, p, body, limit).handles, p) == Kids(a.handles, p) + {a.nextHandle}
  {
  }

  lemma AttachedHandles(a: Api, p: nat, body: Body, limit: Option<nat>)
    requires a.nextHandle !in a.handles && p in a.handles
    ensures
      var b := Attach(a, p, body, limit);
      && b.handles.Keys == a.handles.Keys + {a.nextHandle}
      && b.handles[a.nextHandle] == Handle(p, body, 0, limit)
      && Untouched(a, b, {p})
      && b.handles[p] == a.handles[p].(live := a.handles[p].live + 1)
  {
  }

  // ---------- what may be called ----------

  /** While no start is in progress every call may be made on a handle of its kind; a start in
      progress leaves only its own second half to the callers. A worker acts as long as it runs. */
  lemma CallsAreLegal(a: Api, h: nat, failure: Option<Failure>, fails: bool, tokens: nat,
                      capacity: nat, n: nat, c: Chunk)
    ensures a.starting.None? ==>
              && Legal(a, RuntimeCreate(failure))
              && (Legal(a, ModelLoad(h, n, failure)) <==> Has(a, h, 0))
              && (Legal(a, SessionCreate(h, failure)) <==> Has(a, h, 1))
              && (Legal(a, HandleDestroy(h, failure))
                  <==> Has(a, h, 0) || Has(a, h, 1) || Has(a, h, 2))
              && (Legal(a, StartCheck(h)) <==> Has(a, h, 2))
              && (Legal(a, Cancel(h)) <==> Has(a, h, 3))
              && (Legal(a, RequestDestroy(h)) <==> Has(a, h, 3))
              && (Legal(a, AudioAcquire(h, fails)) <==> Has(a, h, 3))
              && (Legal(a, AudioRelease(h, n)) <==> Has(a, h, 3))
    ensures Legal(a, StartFinish(failure, tokens, capacity, failure))
       <==> && a.starting.Some? && Has(a, a.starting.value, 2)
            && 0 < tokens && 8 <= capacity < UINT32
    ensures
      var runs := Has(a, h, 3) && a.handles[h].body.working;
      && (Legal(a, WorkerPublish(h, c)) <==> runs)
      && (Legal(a, WorkerCompletesCancel(h)) <==> runs)
      && (Legal(a, WorkerPoisons(h)) <==> runs)
      && (Legal(a, WorkerFails(h, tokens, capacity, "")) <==> runs)
      && (Legal(a, WorkerEnds(h)) <==> runs)
  {
  }

  // ---------- what is created ----------

  /** A runtime is created, and a model loaded, unless something outside fails; the new handle is
      then the only news, and a failure none at all. */
  lemma LoadAnswers(acts: seq<Act>, r: nat, maximum: nat, failure: Option<Failure>)
    ensures
      var a := HandleTree.Run(EMPTY, acts);
      && (var (b, status) := CreateRuntime(a, failure);
          if failure.None? then status == Success && Born(a, b, 0, RuntimeBody, None)
          else status == Reported(failure.value) && b == a)
      && (Has(a, r, 0) ==>
            var (b, status) := LoadModel(a, r, maximum, failure);
            if failure.None? then status == Success && Born(a, b, r, ModelBody, Some(maximum))
            else status == Reported(failure.value) && b == a)
  {
    var a := HandleTree.Run(EMPTY, acts);
    ReachableInv(acts);
    NextUnused(a.handles, a.nextHandle);
    if Has(a, r, 0) {
      AttachBears(a, r, ModelBody, Some(maximum));
    }
    PlantBears(a);
  }

  lemma PlantBears(a: Api)
    requires a.nextHandle !in a.handles && 0 !in a.handles && a.nextHandle > 0
    ensures Born(a, Plant(a), 0, RuntimeBody, None)
  {
    assert Kids(Plant(a).handles, 0) == Kids(a.handles, 0) + {a.nextHandle};
  }

  /** A session is created exactly when the model has fewer sessions than it may have and nothing
      fails; it is busy exactly when it has as many, whatever else would have failed. */
  lemma CreateSessionAnswers(acts: seq<Act>, m: nat, failure: Option<Failure>)
    requires Has(HandleTree.Run(EMPTY, acts), m, 1)
    ensures
      var a := HandleTree.Run(EMPTY, acts);
      var (b, status) := CreateSession(a, m, failure);
      && a.handles[m].limit.Some?
      && var room := |Kids(a.handles, m)| < a.handles[m].limit.value;
         && (status == Success <==> room && failure.None?)
         && (status == Busy <==> !room)
         && (room && failure.Some? ==> status == Reported(failure.value))
         && (if status == Success then
               Born(a, b, m, SessionBody(false), Some(REQUESTS_PER_SESSION))
             else b == a)
  {
    ReachableInv(acts);
    OneCreateSession(HandleTree.Run(EMPTY, acts), m, failure);
  }

  lemma OneCreateSession(a: Api, m: nat, failure: Option<Failure>)
    requires Forest(a.handles, a.nextHandle) && Has(a, m, 1)
    ensures
      var (b, status) := CreateSession(a, m, failure);
      && a.handles[m].limit.Some?
      && var room := |Kids(a.handles, m)| < a.handles[m].limit.value;
         && (status == Success <==> room && failure.None?)
         && (status == Busy <==> !room)
         && (room && failure.Some? ==> status == Reported(failure.value))
         && (if status == Success then
               Born(a, b, m, SessionBody(false), Some(REQUESTS_PER_SESSION))
             else b == a)
  {
    assert LimitOk(a.handles[m].body, a.handles[m].limit);
    FullMeans(a, m);
    SessionStatus(a, m, failure, |Kids(a.handles, m)| < a.handles[m].limit.value);
    if CreateSession(a, m, failure).1 == Success {
      AttachBears(a, m, SessionBody(false), Some(REQUESTS_PER_SESSION));
    }
  }

  lemma SessionStatus(a: Api, m: nat, failure: Option<Failure>, room: bool)
    requires Has(a, m, 1) && (room <==> !AtLimit(a.handles[m]))
    ensures
      var (b, status) := CreateSession(a, m, failure);
      && status == (if !room then Busy
                    else if failure.Some? then Reported(failure.value) else Success)
      && b == (if status == Success then
                 Attach(a, m, SessionBody(false), Some(REQUESTS_PER_SESSION))
               else a)
  {
  }

  lemma FullMeans(a: Api, p: nat)
    requires Counted(a.handles) && p in a.handles && a.handles[p].limit.Some?
    ensures AtLimit(a.handles[p]) <==> |Kids(a.handles, p)| >= a.handles[p].limit.value
  {
  }

  /** A start gets past its check exactly on a session that is not poisoned. */
  lemma CheckStartAnswers(a: Api, s: nat)
    requires Has(a, s, 2)
    ensures
      var (b, status) := CheckStart(a, s);
      && (status == PoisonedSession <==> a.handles[s].body.poisoned)
      && (if status == PoisonedSession then b == a
          else status == Blocked && b == a.(starting := Some(s)))
  {
  }

  /** And it then succeeds exactly on an idle session, if neither the tokens nor the building of the
      request fail; the request it makes is fresh, and its worker runs. */
  lemma FinishStartAnswers(acts: seq<Act>, early: Option<Failure>, tokens: nat, capacity: nat,
                           late: Option<Failure>)
    requires HandleTree.Run(EMPTY, acts).starting.Some?
    ensures
      var a := HandleTree.Run(EMPTY, acts);
      var s := a.starting.value;
      && Has(a, s, 2)
      && var (b, status) := FinishStart(a, early, tokens, capacity, late);
         && b.starting == None
         && status == (if early.Some? then Reported(early.value)
                       else if Kids(a.handles, s) != {} then Busy
                       else if late.Some? then Reported(late.value) else Success)
         && (if status == Success then
               Born(a, b, s, RequestBody(Initial(tokens, capacity), {}, true), Some(0))
             else b.handles == a.handles)
  {
    ReachableInv(acts);
    OneFinishStart(HandleTree.Run(EMPTY, acts), early, tokens, capacity, late);
  }

  lemma OneFinishStart(a: Api, early: Option<Failure>, tokens: nat, capacity: nat,
                       late: Option<Failure>)
    requires Forest(a.handles, a.nextHandle) && a.starting.Some? && Has(a, a.starting.value, 2)
    ensures
      var s := a.starting.value;
      var (b, status) := FinishStart(a, early, tokens, capacity, late);
      && b.starting == None
      && status == (if early.Some? then Reported(early.value)
                    else if Kids(a.handles, s) != {} then Busy
                    else if late.Some? then Reported(late.value) else Success)
      && (if status == Success then
            Born(a, b, s, RequestBody(Initial(tokens, capacity), {}, true), Some(0))
          else b.handles == a.handles)
  {
    var s := a.starting.value;
    var body := RequestBody(Initial(tokens, capacity), {}, true);
    SessionFull(a, s);
    if early.None? && !AtLimit(a.handles[s]) && late.None? {
      AttachBears(a, s, body, Some(0));
      BornIdle(a, s, body, Some(0));
    }
  }

  lemma BornIdle(a: Api, s: nat, body: Body, limit: Option<nat>)
    requires Born(a, Attach(a, s, body, limit), s, body, limit)
    ensures Born(a, Attach(a.(starting := None), s, body, limit), s, body, limit)
  {
    assert Attach(a.(starting := None), s, body, limit).handles == Attach(a, s, body, limit).handles;
  }

  lemma SessionFull(a: Api, s: nat)
    requires Forest(a.handles, a.nextHandle) && Has(a, s, 2)
    ensures AtLimit(a.handles[s]) <==> Kids(a.handles, s) != {}
  {
    assert LimitOk(a.handles[s].body, a.handles[s].limit);
    FullMeans(a, s);
  }

  // ---------- what is cancelled and destroyed ----------

  /** A cancellation succeeds exactly on a running or cancelled request, and concerns that request
      alone; a running one has nothing queued after it and hands out nothing more. */
  lemma CancelAnswers(acts: seq<Act>, q: nat)
    requires Has(HandleTree.Run(EMPTY, acts), q, 3)
    ensures
      var a := HandleTree.Run(EMPTY, acts);
      var (b, status) := CancelRequest(a, q);
      var before := a.handles[q].body.state;
      && Has(b, q, 3)
      && status == (if before.phase == Running || before.phase == Cancelled then Success
                    else InvalidArgument)
      && Untouched(a, b, {q}) && b.handles.Keys == a.handles.Keys
      && var after := b.handles[q].body.state;
         && b.handles[q] == a.handles[q].(body := a.handles[q].body.(state := after))
         && (if before.phase == Running then
               after.cancelRequested && after.phase == Running && after.queue == []
               && after.leases == before.leases
             else after == before)
  {
    var a := HandleTree.Run(EMPTY, acts);
    ReachableInv(acts);
    StateOf(a, q);
    CancelState(a.handles[q].body.state);
  }

  lemma CancelState(s: State)
    requires R.StateInv(s)
    ensures
      var (t, r) := RequestCancellation(s);
      && r == Ok(s.phase == Running || s.phase == Cancelled)
      && (if s.phase == Running then
            t.cancelRequested && t.phase == Running && t.queue == [] && t.leases == s.leases
          else t == s)
  {
    R.DiscardExact(s.queue, s.occupied);
  }

  /** A request is destroyed exactly when it is over, no lease of it is out, and its worker has
      ended; its session is then idle and nothing else has changed. */
  lemma DestroyRequestAnswers(acts: seq<Act>, q: nat)
    requires Has(HandleTree.Run(EMPTY, acts), q, 3)
    ensures
      var a := HandleTree.Run(EMPTY, acts);
      var (b, status) := DestroyRequest(a, q);
      var body, s := a.handles[q].body, SessionOf(a, q);
      && status == (if body.state.phase == Running || body.state.leases != map[] then Busy
                    else if body.working then Blocked else Success)
      && (if status == Success then
            && b.handles.Keys == a.handles.Keys - {q} && Untouched(a, b, {q, s})
            && Has(b, s, 2) && Kids(b.handles, s) == {} && !AtLimit(b.handles[s])
            && b.handles[s].body == a.handles[s].body
          else b == a)
  {
    var a := HandleTree.Run(EMPTY, acts);
    ReachableInv(acts);
    assert RequestOk(a.handles[q].body, a.nextLease);
    if DestroyRequest(a, q).1 == Success {
      OnlyRequestGone(a, q);
    }
  }

  lemma OnlyRequestGone(a: Api, q: nat)
    requires Forest(a.handles, a.nextHandle) && Has(a, q, 3)
    ensures
      var s, b := SessionOf(a, q), Detach(a, q);
      && Has(b, s, 2) && Kids(b.handles, s) == {} && !AtLimit(b.handles[s])
      && b.handles[s].body == a.handles[s].body
  {
    var s, b := SessionOf(a, q), Detach(a, q);
    SessionBusy(a, q);
    assert |Kids(a.handles, s)| == 1;
    assert Kids(b.handles, s) == Kids(a.handles, s) - {q};
    assert |Kids(b.handles, s)| == 0;
  }

  /** Every request that was cancelled and whose leases are back goes away: once its worker has
      completed the cancellation and ended, destroying it succeeds. */
  lemma CancelledRequestGoes(acts: seq<Act>, q: nat)
    requires Has(HandleTree.Run(EMPTY, acts), q, 3)
    requires var body := HandleTree.Run(EMPTY, acts).handles[q].body;
             body.working && body.state.cancelRequested && body.state.leases == map[]
    ensures
      var b := HandleTree.Run(EMPTY, acts + [WorkerCompletesCancel(q), WorkerEnds(q)]);
      Has(b, q, 3) && DestroyRequest(b, q).1 == Success
  {
    var a := HandleTree.Run(EMPTY, acts);
    var complete, ends := WorkerCompletesCancel(q), WorkerEnds(q);
    ReachableInv(acts);
    StateOf(a, q);
    CompletedState(a.handles[q].body.state);
    RunMore(EMPTY, acts, [complete, ends]);
    CompletedAndEnded(a, q);
    RunTwoActs(a, complete, ends);
    DestroyRequestAnswers(acts + [complete, ends], q);
  }

  lemma RunTwoActs(a: Api, act: Act, next: Act)
    requires Legal(a, act) && Legal(HandleTree.Step(a, act).0, next)
    ensures HandleTree.Run(a, [act, next])
         == HandleTree.Step(HandleTree.Step(a, act).0, next).0
  {
    var b := HandleTree.Step(a, act).0;
    assert HandleTree.Run(b, [next]) == HandleTree.Step(b, next).0 by {
      assert [next][1..] == [];
    }
    assert [act, next][1..] == [next];
  }

  lemma CompletedAndEnded(a: Api, q: nat)
    requires Has(a, q, 3) && a.handles[q].body.working
    ensures
      var complete, ends := WorkerCompletesCancel(q), WorkerEnds(q);
      && Legal(a, complete) && Legal(HandleTree.Step(a, complete).0, ends)
      && var b := HandleTree.Step(HandleTree.Step(a, complete).0, ends).0;
         && Has(b, q, 3) && !b.handles[q].body.working
         && b.handles[q].body.state == CompleteCancellation(a.handles[q].body.state).0
  {
  }

  lemma CompletedState(s: State)
    requires R.StateInv(s) && s.cancelRequested
    ensures CompleteCancellation(s).0.phase != Running
    ensures CompleteCancellation(s).0.leases == s.leases
  {
    R.DiscardExact(s.queue, s.occupied);
  }

  lemma {:induction false} RunMore(a: Api, acts: seq<Act>, more: seq<Act>)
    ensures HandleTree.Run(a, acts + more) == HandleTree.Run(HandleTree.Run(a, acts), more)
    decreases |acts|
  {
    if acts == [] {
      assert acts + more == more;
    } else {
      assert (acts + more)[0] == acts[0] && (acts + more)[1..] == acts[1..] + more;
      RunMore(if Legal(a, acts[0]) then HandleTree.Step(a, acts[0]).0 else a, acts[1..], more);
    }
  }

  // ---------- identity ----------

  lemma WorkerIdentity(a: Api, act: Act, h: nat)
    requires Legal(a, act) && h in a.handles && IsWorkerAct(act)
    ensures h in HandleTree.Step(a, act).0.handles
    ensures SameIdentity(a.handles[h], HandleTree.Step(a, act).0.handles[h])
  {
  }

  lemma AudioIdentity(a: Api, act: Act, h: nat)
    requires Legal(a, act) && h in a.handles
    requires act.Cancel? || act.AudioAcquire? || act.AudioRelease?
    ensures h in HandleTree.Step(a, act).0.handles
    ensures SameIdentity(a.handles[h], HandleTree.Step(a, act).0.handles[h])
  {
    if act.AudioAcquire? {
      AcquireIdentity(a, act.request, act.metadataFails, h);
    }
  }

  lemma AcquireIdentity(a: Api, q: nat, metadataFails: bool, h: nat)
    requires Has(a, q, 3) && h in a.handles
    ensures
      var b := AcquireAudio(a, q, metadataFails).0;
      h in b.handles && SameIdentity(a.handles[h], b.handles[h])
  {
  }

  lemma CallIdentity(a: Api, act: Act, h: nat)
    requires Legal(a, act) && h in a.handles && a.nextHandle !in a.handles && !IsWorkerAct(act)
    requires !act.Cancel? && !act.AudioAcquire? && !act.AudioRelease?
    ensures h in HandleTree.Step(a, act).0.handles ==>
              SameIdentity(a.handles[h], HandleTree.Step(a, act).0.handles[h])
  {
  }

  lemma StepIdentity(a: Api, act: Act, h: nat)
    requires Legal(a, act) && h in a.handles && a.nextHandle !in a.handles
    ensures h in HandleTree.Step(a, act).0.handles ==>
              SameIdentity(a.handles[h], HandleTree.Step(a, act).0.handles[h])
  {
    if IsWorkerAct(act) {
      WorkerIdentity(a, act, h);
    } else if act.Cancel? || act.AudioAcquire? || act.AudioRelease? {
      AudioIdentity(a, act, h);
    } else {
      CallIdentity(a, act, h);
    }
  }

  lemma StepNoRevival(a: Api, act: Act, h: nat)
    requires Legal(a, act) && h !in a.handles && h < a.nextHandle
    ensures h !in HandleTree.Step(a, act).0.handles
    ensures h < HandleTree.Step(a, act).0.nextHandle
  {
  }

  lemma {:induction false} GoneForGood(a: Api, acts: seq<Act>, h: nat)
    requires h !in a.handles && h < a.nextHandle
    ensures h !in HandleTree.Run(a, acts).handles
    decreases |acts|
  {
    if acts != [] {
      if Legal(a, acts[0]) {
        StepNoRevival(a, acts[0], h);
        GoneForGood(HandleTree.Step(a, acts[0]).0, acts[1..], h);
      } else {
        GoneForGood(a, acts[1..], h);
      }
    }
  }

  /** A handle is the same thing throughout: it keeps its owner, its kind and its limit as long as it
      lives, and its number never names anything else. */
  lemma {:induction false} HandleIdentity(a: Api, acts: seq<Act>, h: nat)
    requires TreeInv(a) && h in a.handles
    ensures h in HandleTree.Run(a, acts).handles ==>
              SameIdentity(a.handles[h], HandleTree.Run(a, acts).handles[h])
    decreases |acts|
  {
    if acts != [] {
      if Legal(a, acts[0]) {
        var b := HandleTree.Step(a, acts[0]).0;
        NextUnused(a.handles, a.nextHandle);
        StepIdentity(a, acts[0], h);
        StepInv(a, acts[0]);
        if h in b.handles {
          HandleIdentity(b, acts[1..], h);
        } else {
          NextOnlyGrows(a, acts[0]);
          GoneForGood(b, acts[1..], h);
        }
      } else {
        HandleIdentity(a, acts[1..], h);
      }
    }
  }

  lemma NextOnlyGrows(a: Api, act: Act)
    requires Legal(a, act)
    ensures a.nextHandle <= HandleTree.Step(a, act).0.nextHandle
  {
  }

  /** So a model never owns more sessions than it was loaded for, whatever happens in between. */
  lemma ModelWithinItsLimit(before: seq<Act>, after: seq<Act>, r: nat, maximum: nat)
    requires Has(HandleTree.Run(EMPTY, before), r, 0)
    ensures
      var a := HandleTree.Run(EMPTY, before);
      var b := HandleTree.Run(LoadModel(a, r, maximum, None).0, after);
      a.nextHandle in b.handles && a.starting.None? ==>
        && Has(b, a.nextHandle, 1) && b.handles[a.nextHandle].owner == r
        && b.handles[a.nextHandle].limit == Some(maximum)
        && |Kids(b.handles, a.nextHandle)| <= maximum
  {
    var a := HandleTree.Run(EMPTY, before);
    ReachableInv(before);
    if a.starting.None? {
      var loaded := LoadModel(a, r, maximum, None).0;
      LoadModelInv(a, r, maximum, None);
      HandleIdentity(loaded, after, a.nextHandle);
      RunInv(loaded, after);
    }
  }

  // ---------- audio ----------

  predicate AcquireDone(a: Api, q: nat, metadataFails: bool)
    requires Has(a, q, 3)
  {
    var (b, status) := AcquireAudio(a, q, metadataFails);
    var queue, s := a.handles[q].body.state.queue, SessionOf(a, q);
    && status == (if queue == [] then WouldBlock
                  else if a.nextLease >= UINT64_MAX then PoisonedSession
                  else if metadataFails then InternalError else Success)
    && b.handles.Keys == a.handles.Keys && Untouched(a, b, {q, s})
    && b.nextLease == a.nextLease + (if status == Success || status == InternalError then 1 else 0)
    && Has(a, s, 2) && Has(b, s, 2)
    && b.handles[s] == a.handles[s].(body :=
         SessionBody(a.handles[s].body.poisoned || status == PoisonedSession))
    && (status != Success && status != InternalError ==> b.handles[q] == a.handles[q])
  }

  lemma OneAcquire(a: Api, q: nat, metadataFails: bool)
    requires TreeInv(a) && Has(a, q, 3)
    ensures AcquireDone(a, q, metadataFails)
  {
    SessionBusy(a, q);
    assert RequestOk(a.handles[q].body, a.nextLease);
    if Acquire(a.handles[q].body.state, a.nextLease).2.Ok? {
      AcquireTaken(a, q, metadataFails);
    } else {
      AcquireRefused(a, q, metadataFails);
    }
  }

  lemma AcquireTaken(a: Api, q: nat, metadataFails: bool)
    requires Has(a, q, 3) && RequestOk(a.handles[q].body, a.nextLease) && 0 < a.nextLease
    requires Has(a, SessionOf(a, q), 2)
    requires Acquire(a.handles[q].body.state, a.nextLease).2.Ok?
    ensures AcquireDone(a, q, metadataFails)
  {
    LeaseTaken(a.handles[q].body, a.nextLease);
    var s := a.handles[SessionOf(a, q)];
    assert s.(body := SessionBody(s.body.poisoned)) == s;
  }

  lemma AcquireRefused(a: Api, q: nat, metadataFails: bool)
    requires Has(a, q, 3) && RequestOk(a.handles[q].body, a.nextLease) && 0 < a.nextLease
    requires Has(a, SessionOf(a, q), 2)
    requires Acquire(a.handles[q].body.state, a.nextLease).2.Err?
    ensures AcquireDone(a, q, metadataFails)
  {
    var body := a.handles[q].body;
    LeaseRefused(body, a.nextLease);
    assert body.(state := body.state) == body;
    var s := a.handles[SessionOf(a, q)];
    assert s.(body := SessionBody(s.body.poisoned)) == s;
  }

  /** All answers of a lease call, failing metadata included, and what it does to the session: only an
      exhausted identifier sequence poisons it. */
  lemma AcquireAnswers(acts: seq<Act>, q: nat, metadataFails: bool)
    requires Has(HandleTree.Run(EMPTY, acts), q, 3)
    ensures AcquireDone(HandleTree.Run(EMPTY, acts), q, metadataFails)
  {
    ReachableInv(acts);
    OneAcquire(HandleTree.Run(EMPTY, acts), q, metadataFails);
  }

  // ---------- poison ----------

  /** Whether this act poisons session `s`: its worker says so, one of its requests cannot be failed
      as its worker asks, or a lease identifier for it cannot be had. */
  predicate Poisons(a: Api, act: Act, s: nat)
    requires Legal(a, act)
  {
    match act
    case WorkerPoisons(q) => SessionOf(a, q) == s
    case WorkerFails(q, status, stage, message) =>
      && SessionOf(a, q) == s && a.handles[q].body.state.phase == Running
      && !FailureDeclared(status, stage, message)
    case AudioAcquire(q, _) =>
      SessionOf(a, q) == s && HandleTree.Step(a, act).1 == PoisonedSession
    case _ => false
  }

  /** Whether some act of the run so far poisoned `s`. */
  predicate WasPoisoned(a: Api, acts: seq<Act>, s: nat, was: bool)
    decreases |acts|
  {
    if acts == [] then was
    else if Legal(a, acts[0]) then
      WasPoisoned(HandleTree.Step(a, acts[0]).0, acts[1..], s, was || Poisons(a, acts[0], s))
    else WasPoisoned(a, acts[1..], s, was)
  }

  predicate PoisonedAt(a: Api, s: nat) {
    Has(a, s, 2) && a.handles[s].body.poisoned
  }

  // What the edits of the tree do to a session's body.

  lemma AttachBody(a: Api, p: nat, body: Body, limit: Option<nat>, s: nat)
    requires s in a.handles && a.nextHandle !in a.handles
    ensures Attach(a, p, body, limit).handles[s].body == a.handles[s].body
  {
  }

  lemma DetachBody(a: Api, c: nat, s: nat)
    requires c in a.handles && s in a.handles
    ensures s in Detach(a, c).handles ==> Detach(a, c).handles[s].body == a.handles[s].body
  {
  }

  lemma PoisonBody(a: Api, p: nat, s: nat)
    requires Has(a, s, 2)
    ensures Has(Poison(a, p), s, 2)
    ensures PoisonedAt(Poison(a, p), s) <==> PoisonedAt(a, s) || p == s
  {
  }

  lemma RequestBodyOnly(a: Api, q: nat, body: Body, s: nat)
    requires Has(a, q, 3) && body.RequestBody? && Has(a, s, 2)
    ensures Has(SetBody(a, q, body), s, 2)
    ensures PoisonedAt(SetBody(a, q, body), s) <==> PoisonedAt(a, s)
    ensures SessionOf(SetBody(a, q, body), q) == SessionOf(a, q)
  {
  }

  lemma AudioPoison(a: Api, q: nat, metadataFails: bool, s: nat)
    requires Has(a, q, 3) && Has(a, s, 2) && AcquireDone(a, q, metadataFails)
    ensures
      var (b, status) := AcquireAudio(a, q, metadataFails);
      && Has(b, s, 2)
      && (PoisonedAt(b, s)
          <==> PoisonedAt(a, s) || (SessionOf(a, q) == s && status == PoisonedSession))
  {
  }

  lemma FailPoison(a: Api, q: nat, status: int, stage: int, message: string, s: nat)
    requires Has(a, q, 3) && Has(a, s, 2) && R.StateInv(a.handles[q].body.state)
    ensures
      var b := ReportFailure(a, q, status, stage, message).0;
      && Has(b, s, 2)
      && (PoisonedAt(b, s)
          <==> PoisonedAt(a, s)
               || (&& SessionOf(a, q) == s && a.handles[q].body.state.phase == Running
                   && !FailureDeclared(status, stage, message)))
  {
    var body := a.handles[q].body;
    var t := Fail(body.state, status, stage, message).0;
    if body.state.phase == Running {
      FailAccepted(body.state, status, stage, message);
    }
    RequestBodyOnly(a, q, body.(state := t), s);
    PoisonBody(SetState(a, q, t), SessionOf(a, q), s);
  }

  lemma FailAccepted(s: State, status: int, stage: int, message: string)
    requires R.StateInv(s) && s.phase == Running
    ensures Fail(s, status, stage, message).1.Ok? <==> FailureDeclared(status, stage, message)
  {
    R.DiscardExact(s.queue, s.occupied);
  }

  lemma RequestPoison(a: Api, act: Act, s: nat)
    requires Legal(a, act) && Has(a, s, 2)
    requires act.Cancel? || act.AudioRelease? || act.WorkerPublish? || act.WorkerCompletesCancel?
             || act.WorkerEnds?
    ensures Has(HandleTree.Step(a, act).0, s, 2)
    ensures PoisonedAt(HandleTree.Step(a, act).0, s) <==> PoisonedAt(a, s)
  {
  }

  lemma CallPoison(a: Api, act: Act, s: nat)
    requires Legal(a, act) && Has(a, s, 2) && a.nextHandle !in a.handles
    requires act.RuntimeCreate? || act.ModelLoad? || act.SessionCreate? || act.HandleDestroy?
             || act.StartCheck? || act.StartFinish? || act.RequestDestroy?
    ensures
      var b := HandleTree.Step(a, act).0;
      Has(b, s, 2) ==> (PoisonedAt(b, s) <==> PoisonedAt(a, s))
  {
    match act
    case RuntimeCreate(_) =>
    case ModelLoad(r, maximum, _) => AttachBody(a, r, ModelBody, Some(maximum), s);
    case SessionCreate(m, _) =>
      AttachBody(a, m, SessionBody(false), Some(REQUESTS_PER_SESSION), s);
    case HandleDestroy(h, _) => DetachBody(a, h, s);
    case RequestDestroy(q) => DetachBody(a, q, s);
    case StartCheck(_) =>
    case StartFinish(_, tokens, capacity, _) =>
      AttachBody(a.(starting := None), a.starting.value,
                 RequestBody(Initial(tokens, capacity), {}, true), Some(0), s);
  }

  /** What an act does to the poison of a session that is there. */
  predicate PoisonEffect(a: Api, act: Act, s: nat)
    requires Legal(a, act)
  {
    var b := HandleTree.Step(a, act).0;
    Has(b, s, 2) ==> (PoisonedAt(b, s) <==> PoisonedAt(a, s) || Poisons(a, act, s))
  }

  lemma AudioEffect(a: Api, act: Act, s: nat)
    requires Legal(a, act) && Has(a, s, 2) && act.AudioAcquire?
    requires AcquireDone(a, act.request, act.metadataFails)
    ensures PoisonEffect(a, act, s)
  {
    AudioPoison(a, act.request, act.metadataFails, s);
  }

  lemma FailEffect(a: Api, act: Act, s: nat)
    requires Legal(a, act) && Has(a, s, 2) && act.WorkerFails?
    requires R.StateInv(a.handles[act.request].body.state)
    ensures PoisonEffect(a, act, s)
  {
    FailPoison(a, act.request, act.status, act.stage, act.message, s);
  }

  lemma OtherEffect(a: Api, act: Act, s: nat)
    requires Legal(a, act) && Has(a, s, 2) && a.nextHandle !in a.handles
    requires !act.AudioAcquire? && !act.WorkerFails?
    ensures PoisonEffect(a, act, s)
  {
    if act.WorkerPoisons? {
      PoisonBody(a, SessionOf(a, act.request), s);
    } else if act.Cancel? || act.AudioRelease? || act.WorkerPublish? || act.WorkerCompletesCancel?
              || act.WorkerEnds? {
      RequestPoison(a, act, s);
    } else {
      CallPoison(a, act, s);
    }
  }

  /** What is new in the tree is a clean session, or no session. */
  lemma BornClean(a: Api, act: Act, s: nat)
    requires Legal(a, act) && s !in a.handles
    ensures !PoisonedAt(HandleTree.Step(a, act).0, s)
    ensures s in HandleTree.Step(a, act).0.handles ==> s == a.nextHandle
  {
  }

  predicate PoisonMatches(a: Api, s: nat, was: bool) {
    && (Has(a, s, 2) ==> (PoisonedAt(a, s) <==> was))
    && (s >= a.nextHandle ==> !was)
  }

  lemma PoisonStep(a: Api, act: Act, s: nat, was: bool)
    requires TreeInv(a) && Legal(a, act) && PoisonMatches(a, s, was)
    ensures PoisonMatches(HandleTree.Step(a, act).0, s, was || Poisons(a, act, s))
  {
    NextUnused(a.handles, a.nextHandle);
    NextOnlyGrows(a, act);
    if Poisons(a, act, s) {
      PoisonsLive(a, act, s);
    }
    if !Has(a, s, 2) {
      NoSessionYet(a, act, s);
    } else if act.AudioAcquire? {
      OneAcquire(a, act.request, act.metadataFails);
      AudioEffect(a, act, s);
    } else if act.WorkerFails? {
      StateOf(a, act.request);
      FailEffect(a, act, s);
    } else {
      OtherEffect(a, act, s);
    }
  }

  lemma NoSessionYet(a: Api, act: Act, s: nat)
    requires Legal(a, act) && !Has(a, s, 2) && a.nextHandle !in a.handles
    ensures Has(HandleTree.Step(a, act).0, s, 2) ==>
              s == a.nextHandle && !PoisonedAt(HandleTree.Step(a, act).0, s)
  {
    if s in a.handles {
      StepIdentity(a, act, s);
    } else {
      BornClean(a, act, s);
    }
  }

  lemma PoisonsLive(a: Api, act: Act, s: nat)
    requires TreeInv(a) && Legal(a, act) && Poisons(a, act, s)
    ensures Has(a, s, 2) && s < a.nextHandle
  {
    SessionBusy(a, act.request);
  }

  lemma {:induction false} PoisonRun(a: Api, acts: seq<Act>, s: nat, was: bool)
    requires TreeInv(a) && PoisonMatches(a, s, was)
    ensures PoisonMatches(HandleTree.Run(a, acts), s, WasPoisoned(a, acts, s, was))
    decreases |acts|
  {
    if acts != [] {
      if Legal(a, acts[0]) {
        StepInv(a, acts[0]);
        PoisonStep(a, acts[0], s, was);
        PoisonRun(HandleTree.Step(a, acts[0]).0, acts[1..], s, was || Poisons(a, acts[0], s));
      } else {
        PoisonRun(a, acts[1..], s, was);
      }
    }
  }

  /** Over every run a session is poisoned exactly when a worker of it said so, a failure of one of
      its requests could not be recorded as asked, or a lease of it found the identifiers used up;
      and once poisoned it stays so. */
  lemma PoisonedExactly(acts: seq<Act>, s: nat)
    requires Has(HandleTree.Run(EMPTY, acts), s, 2)
    ensures HandleTree.Run(EMPTY, acts).handles[s].body.poisoned
       <==> WasPoisoned(EMPTY, acts, s, false)
  {
    ReachableInv([]);
    PoisonRun(EMPTY, acts, s, false);
  }
}
