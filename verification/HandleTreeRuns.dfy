/** Whole runs of the handle tree: what no sequence of calls, worker steps and failures breaks. */
module HandleTreeRuns {
  import opened Options
  import opened Request
  import opened RequestRuns
  import opened HandleTree

  function Kids(handles: map<nat, Handle>, p: nat): set<nat> {
    set c | c in handles && handles[c].owner == p
  }

  /** Every handle but a runtime has a live owner one level up. */
  predicate Owned(handles: map<nat, Handle>) {
    forall c :: c in handles ==>
      if Level(handles[c].body) == 0 then handles[c].owner == 0
      else && handles[c].owner in handles
           && Level(handles[handles[c].owner].body) + 1 == Level(handles[c].body)
  }

  /** Every live counter is the number of live children, within its limit. */
  predicate Counted(handles: map<nat, Handle>) {
    forall p :: p in handles ==>
      && handles[p].live == |Kids(handles, p)|
      && (handles[p].limit.Some? ==> handles[p].live <= handles[p].limit.value)
  }

  /** A runtime may own any number of models, a model so many sessions, a session one request. */
  predicate LimitOk(b: Body, limit: Option<nat>) {
    && (b.RuntimeBody? ==> limit.None?)
    && (b.ModelBody? ==> limit.Some?)
    && (b.SessionBody? ==> limit == Some(REQUESTS_PER_SESSION))
  }

  predicate Numbered(handles: map<nat, Handle>, next: nat) {
    && 0 < next
    && (forall h :: h in handles ==> 0 < h < next)
    && (forall h :: h in handles ==> LimitOk(handles[h].body, handles[h].limit))
  }

  predicate Forest(handles: map<nat, Handle>, next: nat) {
    Owned(handles) && Counted(handles) && Numbered(handles, next)
  }

  /** A start past its poison check: if the session is idle, it is still not poisoned. */
  predicate StartSafe(a: Api) {
    a.starting.Some? ==>
      && Has(a, a.starting.value, 2)
      && (a.handles[a.starting.value].live == 0 ==>
            !a.handles[a.starting.value].body.poisoned)
  }

  ghost predicate RequestOk(b: Body, nextLease: nat)
    requires b.RequestBody?
  {
    && StateInv(b.state)
    && b.metadata == b.state.leases.Keys
    && forall id :: id in b.metadata ==> 0 < id < nextLease
  }

  ghost predicate RequestsOk(handles: map<nat, Handle>, nextLease: nat) {
    forall q :: q in handles && handles[q].body.RequestBody? ==>
      RequestOk(handles[q].body, nextLease)
  }

  /** No two requests hold the same lease identifier. */
  predicate LeasesDisjoint(handles: map<nat, Handle>) {
    forall p, q :: p in handles && q in handles && p != q
                   && handles[p].body.RequestBody? && handles[q].body.RequestBody? ==>
      handles[p].body.metadata !! handles[q].body.metadata
  }

  predicate IssuedAscending(issued: seq<nat>, nextLease: nat) {
    && 0 < nextLease
    && (forall i :: 0 <= i < |issued| ==> 0 < issued[i] < nextLease)
    && (forall i, j :: 0 <= i < j < |issued| ==> issued[i] < issued[j])
  }

  ghost predicate Leases(handles: map<nat, Handle>, nextLease: nat) {
    RequestsOk(handles, nextLease) && LeasesDisjoint(handles)
  }

  ghost predicate TreeInv(a: Api) {
    && Forest(a.handles, a.nextHandle)
    && StartSafe(a)
    && Leases(a.handles, a.nextLease)
    && IssuedAscending(a.issued, a.nextLease)
  }

  // ---------- counting children ----------

  lemma KidsSetLive(handles: map<nat, Handle>, c: nat, live: nat, p: nat)
    ensures Kids(SetLive(handles, c, live), p) == Kids(handles, p)
  {
  }

  lemma KidsAdd(handles: map<nat, Handle>, c: nat, x: Handle, p: nat)
    requires c !in handles
    ensures |Kids(handles[c := x], p)| == |Kids(handles, p)| + if x.owner == p then 1 else 0
  {
    assert Kids(handles[c := x], p) == Kids(handles, p) + if x.owner == p then {c} else {};
  }

  lemma KidsRemove(handles: map<nat, Handle>, c: nat, p: nat)
    requires c in handles
    ensures |Kids(handles - {c}, p)|
         == |Kids(handles, p)| - if handles[c].owner == p then 1 else 0
  {
    assert Kids(handles - {c}, p) == Kids(handles, p) - {c};
  }

  lemma NoKids(handles: map<nat, Handle>, p: nat)
    requires Counted(handles) && p in handles && handles[p].live == 0
    ensures forall c :: c in handles ==> handles[c].owner != p
  {
    assert Kids(handles, p) == {};
    forall c | c in handles ensures handles[c].owner != p {
      assert c !in Kids(handles, p);
    }
  }

  // ---------- the forest under each edit ----------

  lemma PlantForest(a: Api)
    requires Forest(a.handles, a.nextHandle)
    ensures Forest(Plant(a).handles, Plant(a).nextHandle)
  {
    var h := Plant(a).handles;
    forall p | p in h ensures |Kids(h, p)| == h[p].live {
      KidsAdd(a.handles, a.nextHandle, Handle(0, RuntimeBody, 0, None), p);
      if p == a.nextHandle {
        assert Kids(a.handles, p) == {};
      }
    }
  }

  lemma AttachCounted(a: Api, p: nat, body: Body, limit: Option<nat>)
    requires Forest(a.handles, a.nextHandle) && p in a.handles && !AtLimit(a.handles[p])
    ensures Counted(Attach(a, p, body, limit).handles)
  {
    var h := Attach(a, p, body, limit).handles;
    NextUnused(a.handles, a.nextHandle);
    forall c | c in h ensures |Kids(h, c)| == h[c].live {
      AttachKids(a, p, body, limit, c);
    }
  }

  lemma NextUnused(handles: map<nat, Handle>, next: nat)
    requires Owned(handles) && Numbered(handles, next)
    ensures next !in handles && Kids(handles, next) == {}
  {
    forall c | c in handles ensures handles[c].owner != next {
      assert handles[c].owner == 0 || handles[c].owner in handles;
    }
  }

  lemma AttachKids(a: Api, p: nat, body: Body, limit: Option<nat>, c: nat)
    requires a.nextHandle !in a.handles && p in a.handles
    ensures |Kids(Attach(a, p, body, limit).handles, c)|
         == |Kids(a.handles, c)| + if c == p then 1 else 0
  {
    KidsSetLive(a.handles, p, LiveOf(a.handles, p) + 1, c);
    KidsAdd(SetLive(a.handles, p, LiveOf(a.handles, p) + 1), a.nextHandle,
            Handle(p, body, 0, limit), c);
  }

  lemma AttachOwned(a: Api, p: nat, body: Body, limit: Option<nat>)
    requires Owned(a.handles) && a.nextHandle !in a.handles && p in a.handles
    requires Level(body) == Level(a.handles[p].body) + 1
    ensures Owned(Attach(a, p, body, limit).handles)
  {
  }

  lemma AttachNumbered(a: Api, p: nat, body: Body, limit: Option<nat>)
    requires Numbered(a.handles, a.nextHandle) && LimitOk(body, limit)
    ensures Numbered(Attach(a, p, body, limit).handles, Attach(a, p, body, limit).nextHandle)
  {
  }

  lemma AttachForest(a: Api, p: nat, body: Body, limit: Option<nat>)
    requires Forest(a.handles, a.nextHandle) && p in a.handles && !AtLimit(a.handles[p])
    requires Level(body) == Level(a.handles[p].body) + 1
    requires LimitOk(body, limit)
    ensures Forest(Attach(a, p, body, limit).handles, Attach(a, p, body, limit).nextHandle)
  {
    assert a.nextHandle !in a.handles;
    AttachOwned(a, p, body, limit);
    AttachCounted(a, p, body, limit);
    AttachNumbered(a, p, body, limit);
  }

  lemma DetachCounted(a: Api, c: nat)
    requires Forest(a.handles, a.nextHandle) && c in a.handles
    ensures Counted(Detach(a, c).handles)
  {
    var p := a.handles[c].owner;
    var shrunk := SetLive(a.handles, p, Pred(LiveOf(a.handles, p)));
    var h := Detach(a, c).handles;
    assert c in Kids(a.handles, p);
    forall x | x in h ensures |Kids(h, x)| == h[x].live {
      KidsSetLive(a.handles, p, Pred(LiveOf(a.handles, p)), x);
      KidsRemove(shrunk, c, x);
    }
  }

  lemma DetachOwned(a: Api, c: nat)
    requires Owned(a.handles) && c in a.handles
    requires forall x :: x in a.handles ==> a.handles[x].owner != c
    ensures Owned(Detach(a, c).handles)
  {
  }

  lemma DetachForest(a: Api, c: nat)
    requires Forest(a.handles, a.nextHandle) && c in a.handles && a.handles[c].live == 0
    ensures Forest(Detach(a, c).handles, Detach(a, c).nextHandle)
  {
    NoKids(a.handles, c);
    DetachOwned(a, c);
    DetachCounted(a, c);
  }

  lemma SetBodyForest(a: Api, c: nat, body: Body)
    requires Forest(a.handles, a.nextHandle) && Has(a, c, Level(body))
    ensures Forest(SetBody(a, c, body).handles, a.nextHandle)
  {
    SetBodyCounted(a, c, body);
    SetBodyOwned(a, c, body);
  }

  lemma SetBodyCounted(a: Api, c: nat, body: Body)
    requires Counted(a.handles) && c in a.handles
    ensures Counted(SetBody(a, c, body).handles)
  {
    var h := SetBody(a, c, body).handles;
    forall p | p in h ensures |Kids(h, p)| == h[p].live {
      assert Kids(h, p) == Kids(a.handles, p);
    }
  }

  lemma SetBodyOwned(a: Api, c: nat, body: Body)
    requires Owned(a.handles) && Has(a, c, Level(body))
    ensures Owned(SetBody(a, c, body).handles)
  {
  }

  // ---------- the requests and their leases under each edit ----------

  /** Requests that are all still there keep what they had. */
  lemma FewerRequests(g: map<nat, Handle>, h: map<nat, Handle>, nextLease: nat)
    requires Leases(g, nextLease)
    requires forall q :: q in h && h[q].body.RequestBody? ==> q in g && h[q].body == g[q].body
    ensures Leases(h, nextLease)
  {
  }

  lemma OneRequest(g: map<nat, Handle>, h: map<nat, Handle>, q: nat, nextLease: nat, later: nat)
    requires Leases(g, nextLease) && nextLease <= later
    requires q in h && h[q].body.RequestBody? && RequestOk(h[q].body, later)
    requires forall p :: p in h && p != q && h[p].body.RequestBody? ==>
               p in g && h[p].body == g[p].body
    requires forall id :: id in h[q].body.metadata ==>
               id >= nextLease
               || (q in g && g[q].body.RequestBody? && id in g[q].body.metadata)
    ensures Leases(h, later)
  {
    forall p | p in h && p != q && h[p].body.RequestBody?
      ensures RequestOk(h[p].body, later) && h[p].body.metadata !! h[q].body.metadata
    {
      assert RequestOk(g[p].body, nextLease);
    }
  }

  // ---------- the request state inside the tree ----------

  lemma AcquireKeepsState(s: State, next: nat)
    requires StateInv(s) && next !in s.leases
    ensures StateInv(Acquire(s, next).0)
  {
    if Acquire(s, next).2.Ok? {
      LeasedFramesAdd(s.leases, next, s.queue[0]);
    }
  }

  lemma ReleaseKeepsState(s: State, id: nat)
    requires StateInv(s)
    ensures StateInv(Release(s, id).0)
    ensures id in s.leases ==> Release(s, id).1.Ok?
  {
    if id in s.leases {
      LeasedFramesRemove(s.leases, id);
    }
  }

  lemma ClosingKeepsState(s: State)
    requires StateInv(s)
    ensures Discard(s).1
    ensures StateInv(RequestCancellation(s).0) && RequestCancellation(s).1.Ok?
    ensures StateInv(CompleteCancellation(s).0)
    ensures forall status, stage, message :: StateInv(Fail(s, status, stage, message).0)
  {
    DiscardExact(s.queue, s.occupied);
  }

  lemma PublishKeepsState(s: State, c: Chunk)
    requires StateInv(s)
    ensures StateInv(Publish(s, c).0)
  {
    VerdictMeansAdmissible(s, c);
    if !s.cancelRequested && Verdict(s, c).Ok? {
      EnqueueState(s, c);
    }
  }

  /** A lease taken and kept, or taken and released again, leaves the request in order. */
  lemma LeaseTaken(body: Body, nextLease: nat)
    requires body.RequestBody? && RequestOk(body, nextLease)
    requires nextLease > 0 && Acquire(body.state, nextLease).2.Ok?
    ensures var (s, next, r) := Acquire(body.state, nextLease);
            && next == nextLease + 1 && r.value.id == nextLease && nextLease !in body.metadata
            && RequestOk(body.(state := s, metadata := body.metadata + {nextLease}), next)
            && RequestOk(body.(state := Release(s, nextLease).0), next)
  {
    var (s, next, r) := Acquire(body.state, nextLease);
    assert nextLease !in body.state.leases;
    AcquireKeepsState(body.state, nextLease);
    ReleaseKeepsState(s, nextLease);
    assert s.leases - {nextLease} == body.state.leases;
  }

  lemma LeaseRefused(body: Body, nextLease: nat)
    requires body.RequestBody? && RequestOk(body, nextLease)
    requires Acquire(body.state, nextLease).2.Err?
    ensures var (s, next, r) := Acquire(body.state, nextLease);
            s == body.state && next == nextLease
            && (r.code == NoAudio || r.code == LeaseSequenceExhausted)
  {
    assert nextLease !in body.state.leases;
  }

  lemma LeaseReleased(body: Body, nextLease: nat, id: nat)
    requires body.RequestBody? && RequestOk(body, nextLease) && id in body.metadata
    ensures Release(body.state, id).1.Ok?
    ensures RequestOk(body.(state := Release(body.state, id).0, metadata := body.metadata - {id}),
                      nextLease)
  {
    ReleaseKeepsState(body.state, id);
  }

  lemma SameLeasesOk(body: Body, s: State, nextLease: nat)
    requires body.RequestBody? && RequestOk(body, nextLease)
    requires StateInv(s) && s.leases == body.state.leases
    ensures RequestOk(body.(state := s), nextLease)
  {
  }

  lemma SameLeases(s: State, c: Chunk, status: int, stage: int, message: string)
    ensures Publish(s, c).0.leases == s.leases
    ensures RequestCancellation(s).0.leases == s.leases
    ensures CompleteCancellation(s).0.leases == s.leases
    ensures Fail(s, status, stage, message).0.leases == s.leases
  {
  }

  // ---------- every act keeps the invariant ----------

  lemma CreateInv(a: Api, p: nat, body: Body, limit: Option<nat>)
    requires TreeInv(a) && p in a.handles && !AtLimit(a.handles[p]) && !body.RequestBody?
    requires Level(body) == Level(a.handles[p].body) + 1 && a.starting.None?
    requires LimitOk(body, limit)
    ensures TreeInv(Attach(a, p, body, limit))
  {
    AttachForest(a, p, body, limit);
    AttachLeases(a, p, body, limit);
  }

  lemma AttachLeases(a: Api, p: nat, body: Body, limit: Option<nat>)
    requires Leases(a.handles, a.nextLease) && !body.RequestBody?
    ensures Leases(Attach(a, p, body, limit).handles, a.nextLease)
  {
    FewerRequests(a.handles, Attach(a, p, body, limit).handles, a.nextLease);
  }

  lemma PlantInv(a: Api)
    requires TreeInv(a) && a.starting.None?
    ensures TreeInv(Plant(a))
  {
    PlantForest(a);
    FewerRequests(a.handles, Plant(a).handles, a.nextLease);
  }

  lemma DetachInv(a: Api, c: nat)
    requires TreeInv(a) && c in a.handles && a.handles[c].live == 0 && a.starting.None?
    ensures TreeInv(Detach(a, c))
  {
    DetachForest(a, c);
    FewerRequests(a.handles, Detach(a, c).handles, a.nextLease);
  }

  /** A request owns nothing below it. */
  lemma RequestHasNoKids(a: Api, q: nat)
    requires Forest(a.handles, a.nextHandle) && Has(a, q, 3)
    ensures a.handles[q].live == 0
  {
    assert Kids(a.handles, q) == {};
  }

  /** A worker's session has a live request, its own. */
  lemma SessionBusy(a: Api, q: nat)
    requires Forest(a.handles, a.nextHandle) && Has(a, q, 3)
    ensures Has(a, SessionOf(a, q), 2) && a.handles[SessionOf(a, q)].live > 0
  {
    assert q in Kids(a.handles, SessionOf(a, q));
  }

  lemma PoisonForest(a: Api, q: nat)
    requires Forest(a.handles, a.nextHandle) && StartSafe(a) && Has(a, q, 3)
    ensures var b := Poison(a, SessionOf(a, q));
            Forest(b.handles, b.nextHandle) && StartSafe(b)
  {
    SessionBusy(a, q);
    SetBodyForest(a, SessionOf(a, q), SessionBody(true));
  }

  lemma PoisonLeases(a: Api, s: nat)
    requires Leases(a.handles, a.nextLease)
    ensures Leases(Poison(a, s).handles, Poison(a, s).nextLease)
  {
    FewerRequests(a.handles, Poison(a, s).handles, a.nextLease);
  }

  lemma PoisonInv(a: Api, q: nat)
    requires TreeInv(a) && Has(a, q, 3)
    ensures TreeInv(Poison(a, SessionOf(a, q)))
  {
    PoisonForest(a, q);
    PoisonLeases(a, SessionOf(a, q));
  }

  lemma SetRequestForest(a: Api, q: nat, body: Body)
    requires Forest(a.handles, a.nextHandle) && StartSafe(a)
    requires Has(a, q, 3) && body.RequestBody?
    ensures var b := SetBody(a, q, body);
            Forest(b.handles, b.nextHandle) && StartSafe(b)
  {
    SetBodyForest(a, q, body);
  }

  lemma SetRequestLeases(a: Api, q: nat, body: Body, later: nat)
    requires Leases(a.handles, a.nextLease) && a.nextLease <= later
    requires Has(a, q, 3) && body.RequestBody? && RequestOk(body, later)
    requires forall id :: id in body.metadata ==>
               id >= a.nextLease || id in a.handles[q].body.metadata
    ensures Leases(SetBody(a, q, body).handles, later)
  {
    OneRequest(a.handles, SetBody(a, q, body).handles, q, a.nextLease, later);
  }

  /** Replacing a request's body. */
  lemma SetRequestInv(a: Api, q: nat, body: Body)
    requires TreeInv(a) && Has(a, q, 3) && body.RequestBody? && RequestOk(body, a.nextLease)
    requires body.metadata <= a.handles[q].body.metadata
    ensures TreeInv(SetBody(a, q, body))
  {
    SetRequestForest(a, q, body);
    SetRequestLeases(a, q, body, a.nextLease);
  }

  lemma IssueAscending(issued: seq<nat>, nextLease: nat)
    requires IssuedAscending(issued, nextLease)
    ensures IssuedAscending(issued + [nextLease], nextLease + 1)
  {
  }

  function Issue(a: Api): Api {
    a.(nextLease := a.nextLease + 1, issued := a.issued + [a.nextLease])
  }

  /** Replacing a request's body while the lease sequence moves on. */
  lemma TakeLeaseInv(a: Api, q: nat, body: Body)
    requires TreeInv(a) && Has(a, q, 3)
    requires body.RequestBody? && RequestOk(body, a.nextLease + 1)
    requires body.metadata <= a.handles[q].body.metadata + {a.nextLease}
    ensures TreeInv(SetBody(Issue(a), q, body))
  {
    SetRequestForest(Issue(a), q, body);
    SetRequestLeases(a, q, body, a.nextLease + 1);
    IssueAscending(a.issued, a.nextLease);
  }

  lemma SetStateInv(a: Api, q: nat, s: State)
    requires TreeInv(a) && Has(a, q, 3)
    requires StateInv(s) && s.leases == a.handles[q].body.state.leases
    ensures TreeInv(SetState(a, q, s))
  {
    var body := a.handles[q].body;
    assert RequestOk(body, a.nextLease);
    SameLeasesOk(body, s, a.nextLease);
    SetRequestInv(a, q, body.(state := s));
  }

  lemma StateOf(a: Api, q: nat)
    requires TreeInv(a) && Has(a, q, 3)
    ensures StateInv(a.handles[q].body.state)
  {
    assert RequestOk(a.handles[q].body, a.nextLease);
  }

  lemma FinishStartInv(a: Api, early: Option<Failure>, tokens: nat, capacity: nat,
                       late: Option<Failure>)
    requires TreeInv(a) && a.starting.Some?
    requires tokens > 0 && STEADY_FRAMES <= capacity < UINT32
    ensures TreeInv(FinishStart(a, early, tokens, capacity, late).0)
  {
    var s, idle := a.starting.value, a.(starting := None);
    if !AtLimit(a.handles[s]) {
      var body := RequestBody(Initial(tokens, capacity), {}, true);
      AttachForest(idle, s, body, Some(0));
      InitialOk(tokens, capacity, a.nextLease);
      NewRequestLeases(idle, s, body);
    }
  }

  lemma InitialOk(tokens: nat, capacity: nat, nextLease: nat)
    requires STEADY_FRAMES <= capacity < UINT32
    ensures RequestOk(RequestBody(Initial(tokens, capacity), {}, true), nextLease)
  {
  }

  lemma NewRequestLeases(a: Api, s: nat, body: Body)
    requires Leases(a.handles, a.nextLease) && Numbered(a.handles, a.nextHandle)
    requires body.RequestBody? && body.metadata == {} && RequestOk(body, a.nextLease)
    ensures Leases(Attach(a, s, body, Some(0)).handles, a.nextLease)
  {
    OneRequest(a.handles, Attach(a, s, body, Some(0)).handles, a.nextHandle, a.nextLease,
               a.nextLease);
  }

  lemma AcquireAudioInv(a: Api, q: nat, metadataFails: bool)
    requires TreeInv(a) && Has(a, q, 3)
    ensures TreeInv(AcquireAudio(a, q, metadataFails).0)
  {
    var body := a.handles[q].body;
    assert RequestOk(body, a.nextLease);
    var (s, next, r) := Acquire(body.state, a.nextLease);
    if r.Ok? {
      LeaseTaken(body, a.nextLease);
      var after := if metadataFails then body.(state := Release(s, a.nextLease).0)
                   else body.(state := s, metadata := body.metadata + {a.nextLease});
      TakeLeaseInv(a, q, after);
      AcquiredTree(a, q, metadataFails, after);
    } else {
      LeaseRefused(body, a.nextLease);
      SetRequestInv(a, q, body);
      PoisonInv(SetBody(a, q, body), q);
      RefusedTree(a, q, metadataFails);
    }
  }

  lemma AcquiredTree(a: Api, q: nat, metadataFails: bool, after: Body)
    requires Has(a, q, 3)
    requires Acquire(a.handles[q].body.state, a.nextLease).2.Ok?
    requires a.nextLease !in a.handles[q].body.metadata
    requires var body := a.handles[q].body;
             var s := Acquire(body.state, a.nextLease).0;
             after == if metadataFails then body.(state := Release(s, a.nextLease).0)
                      else body.(state := s, metadata := body.metadata + {a.nextLease})
    ensures AcquireAudio(a, q, metadataFails).0 == SetBody(Issue(a), q, after)
  {
  }

  lemma RefusedTree(a: Api, q: nat, metadataFails: bool)
    requires Has(a, q, 3)
    requires var (s, next, r) := Acquire(a.handles[q].body.state, a.nextLease);
             && r.Err? && s == a.handles[q].body.state && next == a.nextLease
             && (r.code == NoAudio || r.code == LeaseSequenceExhausted)
    ensures var b := SetBody(a, q, a.handles[q].body);
            || AcquireAudio(a, q, metadataFails).0 == b
            || AcquireAudio(a, q, metadataFails).0 == Poison(b, SessionOf(b, q))
  {
    var body := a.handles[q].body;
    assert body.(state := body.state) == body;
  }

  lemma ReleaseAudioInv(a: Api, q: nat, id: nat)
    requires TreeInv(a) && Has(a, q, 3)
    ensures TreeInv(ReleaseAudio(a, q, id).0)
  {
    var body := a.handles[q].body;
    assert RequestOk(body, a.nextLease);
    if id != 0 && id in body.metadata {
      LeaseReleased(body, a.nextLease, id);
      SetRequestInv(a, q, body.(state := Release(body.state, id).0,
                                metadata := body.metadata - {id}));
    }
  }

  lemma CancelInv(a: Api, q: nat)
    requires TreeInv(a) && Has(a, q, 3)
    ensures TreeInv(CancelRequest(a, q).0)
  {
    var s := a.handles[q].body.state;
    StateOf(a, q);
    ClosingKeepsState(s);
    assert RequestCancellation(s).0.leases == s.leases;
    SetStateInv(a, q, RequestCancellation(s).0);
  }

  lemma PublishStepInv(a: Api, q: nat, c: Chunk)
    requires TreeInv(a) && Has(a, q, 3)
    ensures TreeInv(SetState(a, q, Publish(a.handles[q].body.state, c).0))
  {
    var s := a.handles[q].body.state;
    StateOf(a, q);
    PublishKeepsState(s, c);
    SameLeases(s, c, 0, 0, "");
    SetStateInv(a, q, Publish(s, c).0);
  }

  lemma CompleteCancelInv(a: Api, q: nat)
    requires TreeInv(a) && Has(a, q, 3)
    ensures TreeInv(SetState(a, q, CompleteCancellation(a.handles[q].body.state).0))
  {
    var s := a.handles[q].body.state;
    StateOf(a, q);
    ClosingKeepsState(s);
    assert CompleteCancellation(s).0.leases == s.leases;
    SetStateInv(a, q, CompleteCancellation(s).0);
  }

  lemma ReportInv(a: Api, q: nat, status: int, stage: int, message: string)
    requires TreeInv(a) && Has(a, q, 3)
    ensures TreeInv(ReportFailure(a, q, status, stage, message).0)
  {
    var t := Fail(a.handles[q].body.state, status, stage, message).0;
    FailStateInv(a, q, status, stage, message);
    PoisonInv(SetState(a, q, t), q);
  }

  lemma FailStateInv(a: Api, q: nat, status: int, stage: int, message: string)
    requires TreeInv(a) && Has(a, q, 3)
    ensures TreeInv(SetState(a, q, Fail(a.handles[q].body.state, status, stage, message).0))
  {
    StateOf(a, q);
    FailKeepsState(a.handles[q].body.state, status, stage, message);
    SetStateInv(a, q, Fail(a.handles[q].body.state, status, stage, message).0);
  }

  lemma FailKeepsState(s: State, status: int, stage: int, message: string)
    requires StateInv(s)
    ensures StateInv(Fail(s, status, stage, message).0)
    ensures Fail(s, status, stage, message).0.leases == s.leases
  {
    ClosingKeepsState(s);
  }

  lemma WorkerEndsInv(a: Api, q: nat)
    requires TreeInv(a) && Has(a, q, 3)
    ensures TreeInv(SetBody(a, q, a.handles[q].body.(working := false)))
  {
    var body := a.handles[q].body;
    assert RequestOk(body, a.nextLease);
    assert RequestOk(body.(working := false), a.nextLease);
    SetRequestInv(a, q, body.(working := false));
  }

  lemma LoadModelInv(a: Api, r: nat, maximum: nat, failure: Option<Failure>)
    requires TreeInv(a) && Has(a, r, 0) && a.starting.None?
    ensures TreeInv(LoadModel(a, r, maximum, failure).0)
  {
    assert a.handles[r].limit.None?;
    CreateInv(a, r, ModelBody, Some(maximum));
  }

  lemma CreateSessionInv(a: Api, m: nat, failure: Option<Failure>)
    requires TreeInv(a) && Has(a, m, 1) && a.starting.None?
    ensures TreeInv(CreateSession(a, m, failure).0)
  {
    if !AtLimit(a.handles[m]) {
      CreateInv(a, m, SessionBody(false), Some(REQUESTS_PER_SESSION));
    }
  }

  lemma DestroyInv(a: Api, h: nat, failure: Option<Failure>)
    requires TreeInv(a) && h in a.handles && a.starting.None?
    ensures TreeInv(Destroy(a, h, failure).0)
  {
    if a.handles[h].live == 0 {
      DetachInv(a, h);
    }
  }

  lemma DestroyRequestInv(a: Api, q: nat)
    requires TreeInv(a) && Has(a, q, 3) && a.starting.None?
    ensures TreeInv(DestroyRequest(a, q).0)
  {
    RequestHasNoKids(a, q);
    DetachInv(a, q);
  }

  lemma WorkerStepInv(a: Api, act: Act)
    requires TreeInv(a) && Legal(a, act) && IsWorkerAct(act)
    ensures TreeInv(HandleTree.Step(a, act).0)
  {
    match act
    case WorkerPublish(q, c) => PublishStepInv(a, q, c);
    case WorkerCompletesCancel(q) => CompleteCancelInv(a, q);
    case WorkerPoisons(q) => PoisonInv(a, q);
    case WorkerFails(q, status, stage, message) => ReportInv(a, q, status, stage, message);
    case WorkerEnds(q) => WorkerEndsInv(a, q);
  }

  lemma StartStepInv(a: Api, act: Act)
    requires TreeInv(a) && Legal(a, act) && (act.StartCheck? || act.StartFinish?)
    ensures TreeInv(HandleTree.Step(a, act).0)
  {
    if act.StartFinish? {
      FinishStartInv(a, act.early, act.tokens, act.capacity, act.late);
    }
  }

  lemma CallStepInv(a: Api, act: Act)
    requires TreeInv(a) && Legal(a, act)
    requires !IsWorkerAct(act) && !act.StartCheck? && !act.StartFinish?
    ensures TreeInv(HandleTree.Step(a, act).0)
  {
    match act
    case RuntimeCreate(failure) => PlantInv(a);
    case ModelLoad(r, maximum, failure) => LoadModelInv(a, r, maximum, failure);
    case SessionCreate(m, failure) => CreateSessionInv(a, m, failure);
    case HandleDestroy(h, failure) => DestroyInv(a, h, failure);
    case RequestDestroy(q) => DestroyRequestInv(a, q);
    case Cancel(q) => CancelInv(a, q);
    case AudioAcquire(q, metadataFails) => AcquireAudioInv(a, q, metadataFails);
    case AudioRelease(q, id) => ReleaseAudioInv(a, q, id);
  }

  lemma StepInv(a: Api, act: Act)
    requires TreeInv(a) && Legal(a, act)
    ensures TreeInv(HandleTree.Step(a, act).0)
  {
    if IsWorkerAct(act) {
      WorkerStepInv(a, act);
    } else if act.StartCheck? || act.StartFinish? {
      StartStepInv(a, act);
    } else {
      CallStepInv(a, act);
    }
  }

  lemma {:induction false} RunInv(a: Api, acts: seq<Act>)
    requires TreeInv(a)
    ensures TreeInv(HandleTree.Run(a, acts))
    decreases |acts|
  {
    if acts != [] {
      if Legal(a, acts[0]) {
        StepInv(a, acts[0]);
        RunInv(HandleTree.Step(a, acts[0]).0, acts[1..]);
      } else {
        RunInv(a, acts[1..]);
      }
    }
  }

  lemma ReachableInv(acts: seq<Act>)
    ensures TreeInv(HandleTree.Run(EMPTY, acts))
  {
    RunInv(EMPTY, acts);
  }

  // ---------- the guarantees ----------

  /** In every run, through every failure: no handle outlives its owner, each live counter is the
      number of live children and within its limit, the retained lease metadata of a request are
      exactly its live leases, and no lease identifier is issued twice or held by two requests. */
  lemma TreeConsistent(acts: seq<Act>)
    ensures
      var a := HandleTree.Run(EMPTY, acts);
      && Owned(a.handles)
      && Counted(a.handles)
      && LeasesDisjoint(a.handles)
      && IssuedAscending(a.issued, a.nextLease)
      && forall q :: Has(a, q, 3) ==>
           a.handles[q].body.metadata == a.handles[q].body.state.leases.Keys
  {
    ReachableInv(acts);
    var a := HandleTree.Run(EMPTY, acts);
    forall q | Has(a, q, 3)
      ensures a.handles[q].body.metadata == a.handles[q].body.state.leases.Keys
    {
      assert RequestOk(a.handles[q].body, a.nextLease);
    }
  }

  /** A destroy call is busy exactly on a handle that owns something, whatever else would fail, and one
      that succeeds removes that handle only. */
  lemma DestroyOnlyChildless(acts: seq<Act>, h: nat, failure: Option<Failure>)
    requires h in HandleTree.Run(EMPTY, acts).handles
    ensures
      var a := HandleTree.Run(EMPTY, acts);
      var (b, status) := Destroy(a, h, failure);
      && status == (if Kids(a.handles, h) != {} then Busy
                    else if failure.Some? then Reported(failure.value) else Success)
      && (if status == Success then b.handles.Keys == a.handles.Keys - {h} else b == a)
  {
    ReachableInv(acts);
    var a := HandleTree.Run(EMPTY, acts);
    DestroyIffChildless(a.handles, h);
  }

  lemma DestroyIffChildless(handles: map<nat, Handle>, h: nat)
    requires Counted(handles) && h in handles
    ensures handles[h].live == 0 <==> Kids(handles, h) == {}
  {
  }

  /** A start that succeeds finds its session idle and not poisoned, whatever the session's workers
      did between the poison check and the reservation. */
  lemma NoStartOnPoisonedSession(acts: seq<Act>, early: Option<Failure>, tokens: nat, capacity: nat)
    requires HandleTree.Run(EMPTY, acts).starting.Some?
    ensures
      var a := HandleTree.Run(EMPTY, acts);
      var s := a.starting.value;
      && Has(a, s, 2)
      && (FinishStart(a, None, tokens, capacity, None).1 == Success <==> Kids(a.handles, s) == {})
      && (Kids(a.handles, s) == {} ==> !a.handles[s].body.poisoned)
  {
    ReachableInv(acts);
    var a := HandleTree.Run(EMPTY, acts);
    DestroyIffChildless(a.handles, a.starting.value);
  }

  /** A poisoned session without a request; a destroyed one counts too. */
  predicate Dead(a: Api, s: nat) {
    && s < a.nextHandle
    && (s in a.handles ==> Has(a, s, 2) && a.handles[s].body.poisoned && a.handles[s].live == 0)
  }

  lemma DeadAttach(a: Api, s: nat, p: nat, body: Body, limit: Option<nat>)
    requires Dead(a, s) && p != s
    ensures Dead(Attach(a, p, body, limit), s)
  {
  }

  lemma DeadDetach(a: Api, s: nat, c: nat)
    requires Dead(a, s) && c in a.handles
    ensures Dead(Detach(a, c), s)
  {
  }

  lemma DeadSetRequest(a: Api, s: nat, q: nat, body: Body)
    requires Dead(a, s) && Has(a, q, 3)
    ensures Dead(SetBody(a, q, body), s)
  {
  }

  lemma DeadPoison(a: Api, s: nat, p: nat)
    requires Dead(a, s)
    ensures Dead(Poison(a, p), s)
  {
  }

  lemma DeadStepWorker(a: Api, s: nat, act: Act)
    requires Dead(a, s) && Legal(a, act) && IsWorkerAct(act)
    ensures Dead(HandleTree.Step(a, act).0, s)
  {
    match act
    case WorkerPublish(q, c) =>
      DeadSetRequest(a, s, q, a.handles[q].body.(state := Publish(a.handles[q].body.state, c).0));
    case WorkerCompletesCancel(q) =>
      DeadSetRequest(a, s, q,
                     a.handles[q].body.(state := CompleteCancellation(a.handles[q].body.state).0));
    case WorkerPoisons(q) => DeadPoison(a, s, SessionOf(a, q));
    case WorkerFails(q, status, stage, message) =>
      var t := Fail(a.handles[q].body.state, status, stage, message).0;
      DeadSetRequest(a, s, q, a.handles[q].body.(state := t));
      DeadPoison(SetState(a, q, t), s, SessionOf(a, q));
    case WorkerEnds(q) => DeadSetRequest(a, s, q, a.handles[q].body.(working := false));
  }

  lemma DeadStepAudio(a: Api, s: nat, act: Act)
    requires Dead(a, s) && Legal(a, act)
    requires act.Cancel? || act.AudioAcquire? || act.AudioRelease?
    ensures Dead(HandleTree.Step(a, act).0, s)
  {
    match act
    case Cancel(q) => DeadSetRequest(a, s, q, CancelRequest(a, q).0.handles[q].body);
    case AudioAcquire(q, fails) => DeadAcquire(a, s, q, fails);
    case AudioRelease(q, id) => DeadSetRequest(a, s, q, ReleaseAudio(a, q, id).0.handles[q].body);
  }

  lemma DeadAcquire(a: Api, s: nat, q: nat, metadataFails: bool)
    requires Dead(a, s) && Has(a, q, 3)
    ensures Dead(AcquireAudio(a, q, metadataFails).0, s)
  {
    var body := a.handles[q].body;
    var (t, next, r) := Acquire(body.state, a.nextLease);
    if r.Err? {
      DeadSetRequest(a, s, q, body.(state := t));
      DeadPoison(SetState(a, q, t).(nextLease := next), s, SessionOf(a, q));
    } else {
      var u := Release(t, r.value.id).0;
      DeadSetRequest(a, s, q, body.(state := u));
      DeadSetRequest(a, s, q, body.(state := t, metadata := body.metadata + {r.value.id}));
      DeadPoison(SetState(a, q, u).(nextLease := next, issued := a.issued + [r.value.id]), s,
                 SessionOf(a, q));
    }
  }

  lemma DeadStepCall(a: Api, s: nat, act: Act)
    requires StartSafe(a) && Dead(a, s) && Legal(a, act) && !IsWorkerAct(act)
    requires !act.Cancel? && !act.AudioAcquire? && !act.AudioRelease?
    ensures Dead(HandleTree.Step(a, act).0, s)
  {
    match act
    case RuntimeCreate(failure) =>
    case ModelLoad(r, maximum, failure) => DeadAttach(a, s, r, ModelBody, Some(maximum));
    case SessionCreate(m, failure) =>
      DeadAttach(a, s, m, SessionBody(false), Some(REQUESTS_PER_SESSION));
    case HandleDestroy(h, failure) => DeadDetach(a, s, h);
    case RequestDestroy(q) => DeadDetach(a, s, q);
    case StartCheck(_) =>
    case StartFinish(early, tokens, capacity, late) =>
      DeadFinishStart(a, s, early, tokens, capacity, late);
  }

  /** A start in progress is on another session, for this one had been refused. */
  lemma DeadFinishStart(a: Api, s: nat, early: Option<Failure>, tokens: nat, capacity: nat,
                        late: Option<Failure>)
    requires StartSafe(a) && Dead(a, s) && a.starting.Some?
    ensures Dead(FinishStart(a, early, tokens, capacity, late).0, s)
  {
    assert s != a.starting.value;
    DeadAttach(a.(starting := None), s, a.starting.value,
               RequestBody(Initial(tokens, capacity), {}, true), Some(0));
  }

  lemma DeadStep(a: Api, s: nat, act: Act)
    requires TreeInv(a) && Dead(a, s) && Legal(a, act)
    ensures Dead(HandleTree.Step(a, act).0, s)
  {
    if IsWorkerAct(act) {
      DeadStepWorker(a, s, act);
    } else if act.Cancel? || act.AudioAcquire? || act.AudioRelease? {
      DeadStepAudio(a, s, act);
    } else {
      DeadStepCall(a, s, act);
    }
  }

  lemma {:induction false} DeadRun(a: Api, s: nat, acts: seq<Act>)
    requires TreeInv(a) && Dead(a, s)
    ensures Dead(HandleTree.Run(a, acts), s)
    decreases |acts|
  {
    if acts != [] {
      if Legal(a, acts[0]) {
        StepInv(a, acts[0]);
        DeadStep(a, s, acts[0]);
        DeadRun(HandleTree.Step(a, acts[0]).0, s, acts[1..]);
      } else {
        DeadRun(a, s, acts[1..]);
      }
    }
  }

  /** A poisoned session that has lost its request never owns a request again, in any continuation
      of any run, and stays poisoned until it is destroyed. */
  lemma PoisonedSessionStaysDead(before: seq<Act>, after: seq<Act>, s: nat)
    requires Has(HandleTree.Run(EMPTY, before), s, 2)
    requires HandleTree.Run(EMPTY, before).handles[s].body.poisoned
    requires Kids(HandleTree.Run(EMPTY, before).handles, s) == {}
    ensures
      var b := HandleTree.Run(HandleTree.Run(EMPTY, before), after);
      && Kids(b.handles, s) == {}
      && (s in b.handles ==> Has(b, s, 2) && b.handles[s].body.poisoned)
  {
    var a := HandleTree.Run(EMPTY, before);
    ReachableInv(before);
    DestroyIffChildless(a.handles, s);
    DeadRun(a, s, after);
    RunInv(a, after);
    DeadHasNoKids(HandleTree.Run(a, after), s);
  }

  lemma DeadHasNoKids(b: Api, s: nat)
    requires Owned(b.handles) && Counted(b.handles) && Dead(b, s) && s > 0
    ensures Kids(b.handles, s) == {}
  {
    if s in b.handles {
      DestroyIffChildless(b.handles, s);
    } else {
      forall c | c in b.handles ensures b.handles[c].owner != s {
        assert b.handles[c].owner == 0 || b.handles[c].owner in b.handles;
      }
    }
  }

  lemma AcquireAnswer(a: Api, q: nat)
    requires Has(a, q, 3) && RequestOk(a.handles[q].body, a.nextLease) && 0 < a.nextLease
    ensures AcquireAudio(a, q, false).1
         == if a.handles[q].body.state.queue == [] then WouldBlock
            else if a.nextLease >= UINT64_MAX then PoisonedSession else Success
  {
    assert a.nextLease !in a.handles[q].body.state.leases;
  }

  lemma ReleaseAnswer(a: Api, q: nat, id: nat)
    requires Has(a, q, 3) && RequestOk(a.handles[q].body, a.nextLease)
    ensures ReleaseAudio(a, q, id).1
         == if id in a.handles[q].body.state.leases then Success else InvalidArgument
  {
    if id in a.handles[q].body.metadata {
      LeaseReleased(a.handles[q].body, a.nextLease, id);
    }
  }

  /** What the audio calls can answer in a reachable state: acquiring fails only for want of audio
      or of identifiers, and a release succeeds exactly on a live lease. The reused-identifier and
      the internal-error answers do not occur. */
  lemma AudioCallAnswers(acts: seq<Act>, q: nat, id: nat)
    requires Has(HandleTree.Run(EMPTY, acts), q, 3)
    ensures
      var a := HandleTree.Run(EMPTY, acts);
      var s := a.handles[q].body.state;
      && AcquireAudio(a, q, false).1
           == (if s.queue == [] then WouldBlock
               else if a.nextLease >= UINT64_MAX then PoisonedSession else Success)
      && ReleaseAudio(a, q, id).1 == (if id in s.leases then Success else InvalidArgument)
  {
    var a := HandleTree.Run(EMPTY, acts);
    ReachableInv(acts);
    AcquireAnswer(a, q);
    ReleaseAnswer(a, q, id);
  }

  /** A call that cannot store a lease's metadata fails, yet its chunk is gone: it has left the
      queue, no lease holds it, and its ring frames are free. */
  lemma FailedMetadataDropsChunk(acts: seq<Act>, q: nat)
    requires Has(HandleTree.Run(EMPTY, acts), q, 3)
    requires HandleTree.Run(EMPTY, acts).handles[q].body.state.queue != []
    requires HandleTree.Run(EMPTY, acts).nextLease < UINT64_MAX
    ensures
      var a := HandleTree.Run(EMPTY, acts);
      var s := a.handles[q].body.state;
      var (b, status) := AcquireAudio(a, q, true);
      var t := b.handles[q].body.state;
      && status == InternalError
      && t.queue == s.queue[1..] && t.leases == s.leases
      && t.occupied + s.queue[0].frames == s.occupied
  {
    var a := HandleTree.Run(EMPTY, acts);
    ReachableInv(acts);
    TakenAndReleased(a.handles[q].body, a.nextLease);
  }

  lemma TakenAndReleased(body: Body, nextLease: nat)
    requires body.RequestBody? && RequestOk(body, nextLease) && 0 < nextLease < UINT64_MAX
    requires body.state.queue != []
    ensures
      var (s, next, r) := Acquire(body.state, nextLease);
      && r.Ok? && r.value.id == nextLease && Release(s, nextLease).1.Ok?
      && Release(s, nextLease).0.queue == body.state.queue[1..]
      && Release(s, nextLease).0.leases == body.state.leases
      && Release(s, nextLease).0.occupied + body.state.queue[0].frames == body.state.occupied
  {
    assert nextLease !in body.state.leases;
    var s := Acquire(body.state, nextLease).0;
    AcquireKeepsState(body.state, nextLease);
    ReleaseKeepsState(s, nextLease);
    assert s.leases - {nextLease} == body.state.leases;
  }

  lemma AcquireQueue(a: Api, q: nat, metadataFails: bool)
    requires Has(a, q, 3) && RequestOk(a.handles[q].body, a.nextLease) && 0 < a.nextLease
    ensures
      var s := a.handles[q].body.state;
      var (b, status) := AcquireAudio(a, q, metadataFails);
      && Has(b, q, 3)
      && (status != Success && b.handles[q].body.state.queue != s.queue
          <==> metadataFails && s.queue != [] && a.nextLease < UINT64_MAX)
      && (status == Success
          <==> !metadataFails && s.queue != [] && a.nextLease < UINT64_MAX)
  {
    var body := a.handles[q].body;
    if Acquire(body.state, a.nextLease).2.Ok? {
      LeaseTaken(body, a.nextLease);
      assert |body.state.queue[1..]| < |body.state.queue|;
    } else {
      LeaseRefused(body, a.nextLease);
    }
  }

  /** A failing lease call takes a chunk off the queue exactly when only its metadata failed: there
      was audio and an identifier for it. No other failing call loses a chunk. */
  lemma ChunkLostExactly(acts: seq<Act>, q: nat, metadataFails: bool)
    requires Has(HandleTree.Run(EMPTY, acts), q, 3)
    ensures
      var a := HandleTree.Run(EMPTY, acts);
      var s := a.handles[q].body.state;
      var (b, status) := AcquireAudio(a, q, metadataFails);
      && Has(b, q, 3)
      && (status != Success && b.handles[q].body.state.queue != s.queue
          <==> metadataFails && s.queue != [] && a.nextLease < UINT64_MAX)
  {
    var a := HandleTree.Run(EMPTY, acts);
    ReachableInv(acts);
    AcquireQueue(a, q, metadataFails);
  }

  /** What a caller sees of a lease call: on success one new identifier joins both the metadata and
      the leases, for the chunk that was at the front; on any other answer neither changes. */
  lemma LeaseAllOrNothing(acts: seq<Act>, q: nat, metadataFails: bool)
    requires Has(HandleTree.Run(EMPTY, acts), q, 3)
    ensures
      var a := HandleTree.Run(EMPTY, acts);
      var (b, status) := AcquireAudio(a, q, metadataFails);
      var before, id := a.handles[q].body, a.nextLease;
      && Has(b, q, 3)
      && id !in before.metadata
      && (if status == Success then
            && before.state.queue != []
            && b.handles[q].body.metadata == before.metadata + {id}
            && b.handles[q].body.state.leases == before.state.leases[id := before.state.queue[0]]
          else
            && b.handles[q].body.metadata == before.metadata
            && b.handles[q].body.state.leases == before.state.leases)
  {
    var a := HandleTree.Run(EMPTY, acts);
    ReachableInv(acts);
    OneLeaseAllOrNothing(a, q, metadataFails);
  }

  lemma OneLeaseAllOrNothing(a: Api, q: nat, metadataFails: bool)
    requires Has(a, q, 3) && RequestOk(a.handles[q].body, a.nextLease) && 0 < a.nextLease
    ensures
      var (b, status) := AcquireAudio(a, q, metadataFails);
      var before, id := a.handles[q].body, a.nextLease;
      && Has(b, q, 3)
      && id !in before.metadata
      && (if status == Success then
            && before.state.queue != []
            && b.handles[q].body.metadata == before.metadata + {id}
            && b.handles[q].body.state.leases == before.state.leases[id := before.state.queue[0]]
          else
            && b.handles[q].body.metadata == before.metadata
            && b.handles[q].body.state.leases == before.state.leases)
  {
    var body := a.handles[q].body;
    if Acquire(body.state, a.nextLease).2.Ok? {
      LeaseTaken(body, a.nextLease);
      assert body.state.leases[a.nextLease := body.state.queue[0]] - {a.nextLease}
          == body.state.leases;
    } else {
      LeaseRefused(body, a.nextLease);
    }
  }
}
