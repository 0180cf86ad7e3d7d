/** The calls of the C boundary as they run: counters reserved and given back, poison flags set,
    lease metadata stored and erased, and the request objects' own methods called, one statement
    after another. */
module HandleApi {
  import opened Options
  import opened Request
  import opened RequestState
  import opened HandleTree

  datatype Kind =
    | RuntimeKind
    | ModelKind
    | SessionKind(poisoned: bool)
    | RequestKind(request: StreamingRequestState, metadata: set<nat>, working: bool)

  datatype Entry = Entry(owner: nat, kind: Kind, live: nat, limit: Option<nat>)

  ghost function HandleOf(e: Entry): Handle
    reads if e.kind.RequestKind? then {e.kind.request} else {}
  {
    Handle(e.owner,
           match e.kind
           case RuntimeKind => RuntimeBody
           case ModelKind => ModelBody
           case SessionKind(poisoned) => SessionBody(poisoned)
           case RequestKind(request, metadata, working) =>
             RequestBody(request.Model(), metadata, working),
           e.live, e.limit)
  }

  /** Entering a child and counting it may be done in either order. */
  lemma EnteredThenCounted(handles: map<nat, Handle>, p: nat, h: nat, x: Handle)
    requires p in handles && h !in handles
    ensures SetLive(handles[h := x], p, LiveOf(handles[h := x], p) + 1)
         == SetLive(handles, p, LiveOf(handles, p) + 1)[h := x]
  {
  }

  /** A child counted first and entered then is attached. */
  lemma CountedThenEntered(a: Api, counted: map<nat, Handle>, p: nat, body: Body,
                           limit: Option<nat>)
    requires counted == SetLive(a.handles, p, LiveOf(a.handles, p) + 1)
    ensures counted[a.nextHandle := Handle(p, body, 0, limit)] == Attach(a, p, body, limit).handles
  {
  }

  /** A counted child given back leaves the handles as they were. */
  lemma GivenBack(handles: map<nat, Handle>, p: nat)
    requires p in handles
    ensures var counted := SetLive(handles, p, handles[p].live + 1);
            SetLive(counted, p, Pred(LiveOf(counted, p))) == handles
  {
    var counted := SetLive(handles, p, handles[p].live + 1);
    assert SetLive(counted, p, Pred(LiveOf(counted, p))) == handles[p := handles[p]];
  }

  /** Deleting a child and counting it off may be done in either order. */
  lemma DeletedThenCounted(handles: map<nat, Handle>, h: nat)
    requires h in handles && handles[h].owner != h
    ensures var p, rest := handles[h].owner, handles - {h};
            SetLive(rest, p, Pred(LiveOf(rest, p)))
            == SetLive(handles, p, Pred(LiveOf(handles, p))) - {h}
  {
  }

  lemma SetTwice(a: Api, q: nat, x: Handle, body: Body)
    requires q in a.handles && x == a.handles[q].(body := x.body)
    ensures SetBody(a.(handles := a.handles[q := x]), q, body) == SetBody(a, q, body)
  {
    assert a.handles[q := x][q := x.(body := body)] == a.handles[q := x.(body := body)];
  }

  class HandleTable {
    const leaseIds: LeaseIdSequence
    var entries: map<nat, Entry>
    var nextHandle: nat
    ghost var issued: seq<nat>
    var starting: Option<nat>

    ghost function Requests(): set<StreamingRequestState>
      reads this`entries
    {
      set h | h in entries && entries[h].kind.RequestKind? :: entries[h].kind.request
    }

    /** Each request handle has a request object of its own, drawing from the shared sequence. */
    ghost predicate Valid()
      reads this`entries
    {
      && (forall h :: h in entries && entries[h].kind.RequestKind? ==>
            entries[h].kind.request.leaseIds == leaseIds)
      && (forall p, q :: p in entries && q in entries && p != q
                         && entries[p].kind.RequestKind? && entries[q].kind.RequestKind? ==>
            entries[p].kind.request != entries[q].kind.request)
    }

    ghost function Handles(): map<nat, Handle>
      reads this`entries, Requests()
    {
      map h | h in entries :: HandleOf(entries[h])
    }

    ghost function Model(): Api
      reads this, Requests(), leaseIds
    {
      Api(Handles(), nextHandle, leaseIds.next, issued, starting)
    }

    constructor (leaseIds: LeaseIdSequence)
      requires leaseIds.next == 1
      ensures Valid() && Model() == EMPTY && Requests() == {} && this.leaseIds == leaseIds
    {
      this.leaseIds := leaseIds;
      entries, nextHandle, issued, starting := map[], 1, [], None;
    }

    /** Replaces what one handle other than by its request object consists of. */
    method Store(h: nat, e: Entry)
      requires Valid() && h in entries
      requires e.kind.RequestKind? ==>
                 entries[h].kind.RequestKind? && e.kind.request == entries[h].kind.request
      modifies this`entries
      ensures Valid() && Requests() <= old(Requests())
      ensures entries == old(entries)[h := e]
      ensures Handles() == old(Handles())[h := HandleOf(e)]
    {
      entries := entries[h := e];
    }

    /** Takes a slot of a bounded counter if one is free. */
    method ReserveBoundedCounter(p: nat) returns (reserved: bool)
      requires Valid() && p in entries
      modifies this`entries
      ensures Valid() && Requests() <= old(Requests())
      ensures reserved == !AtLimit(old(Handles())[p])
      ensures Handles() == if reserved then SetLive(old(Handles()), p, old(Handles())[p].live + 1)
                           else old(Handles())
      ensures entries.Keys == old(entries.Keys)
    {
      var counter := entries[p];
      if counter.limit.Some? && counter.live >= counter.limit.value {
        return false;
      }
      Store(p, counter.(live := counter.live + 1));
      return true;
    }

    /** Counts one child less. */
    method ReleaseCounter(p: nat)
      requires Valid()
      modifies this`entries
      ensures Valid() && Requests() <= old(Requests())
      ensures Handles() == SetLive(old(Handles()), p, Pred(LiveOf(old(Handles()), p)))
      ensures entries.Keys == old(entries.Keys)
    {
      if p in entries {
        Store(p, entries[p].(live := Pred(entries[p].live)));
      }
    }

    /** Enters a new handle; a request object that is entered must be one no handle has. */
    method Insert(owner: nat, kind: Kind, limit: Option<nat>) returns (h: nat)
      requires Valid() && nextHandle !in entries
      requires kind.RequestKind? ==>
                 kind.request !in Requests() && kind.request.leaseIds == leaseIds
      modifies this`entries, this`nextHandle
      ensures Valid()
      ensures Requests() == old(Requests()) + if kind.RequestKind? then {kind.request} else {}
      ensures h == old(nextHandle) && nextHandle == h + 1
      ensures entries == old(entries)[h := Entry(owner, kind, 0, limit)]
      ensures Handles() == old(Handles())[h := HandleOf(Entry(owner, kind, 0, limit))]
    {
      h := nextHandle;
      entries := entries[h := Entry(owner, kind, 0, limit)];
      nextHandle := h + 1;
      assert h in entries && entries[h].kind == kind;
      assert forall x :: x in old(entries) ==> x in entries && entries[x] == old(entries[x]);
    }

    method LoadModel(r: nat, maximumSessions: nat, failure: Option<Failure>)
      returns (status: Status)
      requires Valid() && Has(Model(), r, 0) && nextHandle !in entries
      modifies this`entries, this`nextHandle
      ensures Valid() && Requests() <= old(Requests())
      ensures (Model(), status) == HandleTree.LoadModel(old(Model()), r, maximumSessions, failure)
    {
      if failure.Some? {
        return Reported(failure.value);
      }
      AddModel(r, maximumSessions);
      return Success;
    }

    /** The new model exists before it is counted. */
    method AddModel(r: nat, maximumSessions: nat)
      requires Valid() && r in entries && nextHandle !in entries
      modifies this`entries, this`nextHandle
      ensures Valid() && Requests() <= old(Requests())
      ensures nextHandle == old(nextHandle) + 1
      ensures Handles()
           == SetLive(old(Handles()), r, LiveOf(old(Handles()), r) + 1)
                [old(nextHandle) := Handle(r, ModelBody, 0, Some(maximumSessions))]
    {
      EnteredThenCounted(Handles(), r, nextHandle, Handle(r, ModelBody, 0, Some(maximumSessions)));
      EnterModel(r, maximumSessions);
      CountChild(r);
    }

    method EnterModel(r: nat, maximumSessions: nat)
      requires Valid() && nextHandle !in entries
      modifies this`entries, this`nextHandle
      ensures Valid() && Requests() <= old(Requests())
      ensures nextHandle == old(nextHandle) + 1
      ensures Handles()
           == old(Handles())[old(nextHandle) := Handle(r, ModelBody, 0, Some(maximumSessions))]
      ensures old(entries.Keys) <= entries.Keys
    {
      var _ := Insert(r, ModelKind, Some(maximumSessions));
    }

    method CountChild(p: nat)
      requires Valid() && p in entries
      modifies this`entries
      ensures Valid() && Requests() <= old(Requests())
      ensures Handles() == SetLive(old(Handles()), p, LiveOf(old(Handles()), p) + 1)
    {
      Store(p, entries[p].(live := entries[p].live + 1));
    }

    /** Reserves a slot, then builds what it was reserved for; a failure to build gives the slot
        back. The refusal to report, or None with the slot reserved. */
    method ReserveAndBuild(p: nat, failure: Option<Failure>) returns (refusal: Option<Status>)
      requires Valid() && p in entries
      modifies this`entries
      ensures Valid() && Requests() <= old(Requests()) && entries.Keys == old(entries.Keys)
      ensures refusal == if AtLimit(old(Handles())[p]) then Some(Busy)
                         else if failure.Some? then Some(Reported(failure.value)) else None
      ensures Handles() == if refusal.None? then
                             SetLive(old(Handles()), p, LiveOf(old(Handles()), p) + 1)
                           else old(Handles())
    {
      GivenBack(Handles(), p);
      var reserved := ReserveBoundedCounter(p);
      if !reserved {
        return Some(Busy);
      }
      if failure.Some? {
        ReleaseCounter(p);
        return Some(Reported(failure.value));
      }
      return None;
    }

    /** Reserves first; every later failure gives the slot back. */
    method CreateSession(m: nat, failure: Option<Failure>) returns (status: Status)
      requires Valid() && Has(Model(), m, 1) && nextHandle !in entries
      modifies this`entries, this`nextHandle
      ensures Valid() && Requests() <= old(Requests())
      ensures (Model(), status) == HandleTree.CreateSession(old(Model()), m, failure)
    {
      var refusal := ReserveAndBuild(m, failure);
      if refusal.Some? {
        return refusal.value;
      }
      CountedThenEntered(old(Model()), Handles(), m, SessionBody(false),
                         Some(REQUESTS_PER_SESSION));
      EnterSession(m);
      return Success;
    }

    method EnterSession(m: nat)
      requires Valid() && nextHandle !in entries
      modifies this`entries, this`nextHandle
      ensures Valid() && Requests() <= old(Requests())
      ensures nextHandle == old(nextHandle) + 1
      ensures Handles()
           == old(Handles())[old(nextHandle) :=
                Handle(m, SessionBody(false), 0, Some(REQUESTS_PER_SESSION))]
    {
      var _ := Insert(m, SessionKind(false), Some(REQUESTS_PER_SESSION));
    }

    /** Destroying a runtime, a model or a session. */
    method Destroy(h: nat, failure: Option<Failure>) returns (status: Status)
      requires Valid() && h in entries && entries[h].owner != h
      modifies this`entries
      ensures Valid() && Requests() <= old(Requests())
      ensures (Model(), status) == HandleTree.Destroy(old(Model()), h, failure)
    {
      if entries[h].live != 0 {
        return Busy;
      }
      if failure.Some? {
        return Reported(failure.value);
      }
      Remove(h);
      return Success;
    }

    /** Deletes the object, then counts it off at its owner. */
    method Remove(h: nat)
      requires Valid() && h in entries && entries[h].owner != h
      modifies this`entries
      ensures Valid() && Requests() <= old(Requests())
      ensures Model() == Detach(old(Model()), h)
    {
      var owner := entries[h].owner;
      DeletedThenCounted(Handles(), h);
      Delete(h);
      ReleaseCounter(owner);
    }

    method Delete(h: nat)
      requires Valid() && h in entries
      modifies this`entries
      ensures Valid() && Requests() <= old(Requests())
      ensures Handles() == old(Handles()) - {h}
    {
      entries := entries - {h};
    }

    method CheckStart(s: nat) returns (status: Status)
      requires Valid() && Has(Model(), s, 2)
      modifies this`starting
      ensures Valid() && (Model(), status) == HandleTree.CheckStart(old(Model()), s)
    {
      if entries[s].kind.poisoned {
        return PoisonedSession;
      }
      starting := Some(s);
      SameEntries();
      return Blocked;
    }

    /** The second half of a start: tokens, reservation, request object, worker. */
    method FinishStart(early: Option<Failure>, tokens: nat, capacity: nat, late: Option<Failure>)
      returns (status: Status)
      requires Valid() && starting.Some? && Has(Model(), starting.value, 2)
      requires nextHandle !in entries
      requires tokens > 0 && STEADY_FRAMES <= capacity < UINT32
      modifies this`entries, this`nextHandle, this`starting
      ensures Valid() && fresh(Requests() - old(Requests()))
      ensures (Model(), status)
           == HandleTree.FinishStart(old(Model()), early, tokens, capacity, late)
    {
      var s := starting.value;
      starting := None;
      SameEntries();
      if early.Some? {
        return Reported(early.value);
      }
      status := BuildRequest(s, tokens, capacity, late);
    }

    /** Reserves the session's request slot, then builds the request; a failure gives it back. */
    method BuildRequest(s: nat, tokens: nat, capacity: nat, late: Option<Failure>)
      returns (status: Status)
      requires Valid() && Has(Model(), s, 2) && nextHandle !in entries
      requires tokens > 0 && STEADY_FRAMES <= capacity < UINT32
      modifies this`entries, this`nextHandle
      ensures Valid() && fresh(Requests() - old(Requests()))
      ensures status == if AtLimit(old(Handles())[s]) then Busy
                        else if late.Some? then Reported(late.value) else Success
      ensures AtLimit(old(Handles())[s]) || late.Some? ==>
                Handles() == old(Handles()) && nextHandle == old(nextHandle)
      ensures !AtLimit(old(Handles())[s]) && late.None? ==>
                && nextHandle == old(nextHandle) + 1
                && Handles()
                   == Attach(old(Model()), s, RequestBody(Initial(tokens, capacity), {}, true),
                             Some(0)).handles
    {
      var refusal := ReserveAndBuild(s, late);
      if refusal.Some? {
        return refusal.value;
      }
      CountedThenEntered(old(Model()), Handles(), s,
                         RequestBody(Initial(tokens, capacity), {}, true), Some(0));
      EnterRequest(s, tokens, capacity);
      return Success;
    }

    method EnterRequest(s: nat, tokens: nat, capacity: nat)
      requires Valid() && nextHandle !in entries
      requires tokens > 0 && STEADY_FRAMES <= capacity < UINT32
      modifies this`entries, this`nextHandle
      ensures Valid() && fresh(Requests() - old(Requests()))
      ensures nextHandle == old(nextHandle) + 1
      ensures Handles()
           == old(Handles())[old(nextHandle) :=
                Handle(s, RequestBody(Initial(tokens, capacity), {}, true), 0, Some(0))]
    {
      var created := new StreamingRequestState(tokens, capacity, leaseIds);
      SameEntries();
      var _ := Insert(s, RequestKind(created, {}, true), Some(0));
    }

    /** Nothing but the entries and the request objects makes up the handles. */
    twostate lemma SameEntries()
      requires old(Valid()) && unchanged(this`entries)
      requires forall r :: r in Requests() ==> unchanged(r)
      ensures Handles() == old(Handles())
    {
      forall h | h in entries ensures Handles()[h] == old(Handles())[h] {
        if entries[h].kind.RequestKind? {
          assert entries[h].kind.request in Requests();
        }
      }
    }

    method DestroyRequest(q: nat) returns (status: Status)
      requires Valid() && Has(Model(), q, 3) && entries[q].owner != q
      modifies this`entries
      ensures Valid() && Requests() <= old(Requests())
      ensures (Model(), status) == HandleTree.DestroyRequest(old(Model()), q)
    {
      var kind := entries[q].kind;
      if kind.request.phase == Running {
        return Busy;
      }
      if kind.request.leases != map[] || kind.metadata != {} {
        return Busy;
      }
      if kind.working {
        return Blocked;
      }
      Remove(q);
      return Success;
    }

    method PoisonSession(s: nat)
      requires Valid()
      modifies this`entries
      ensures Valid() && Requests() <= old(Requests())
      ensures Model() == Poison(old(Model()), s)
      ensures forall h :: h in old(entries) && h != s ==>
                h in entries && entries[h] == old(entries[h])
    {
      if s in entries && entries[s].kind.SessionKind? {
        Store(s, entries[s].(kind := SessionKind(true)));
      }
    }

    /** A request object's own change, seen from the table: no other handle notices. */
    twostate lemma OneRequestChanged(q: nat)
      requires old(Valid()) && unchanged(this`entries)
      requires q in entries && entries[q].kind.RequestKind?
      requires forall r :: r in Requests() && r != entries[q].kind.request ==> unchanged(r)
      ensures Handles() == old(Handles())[q := HandleOf(entries[q])]
    {
      forall h | h in entries && h != q ensures Handles()[h] == old(Handles())[h] {
        if entries[h].kind.RequestKind? {
          assert entries[h].kind.request in Requests();
        }
      }
    }

    /** The request object hands out a lease. */
    method TakeLease(q: nat) returns (r: Outcome<Lease>)
      requires Valid() && Has(Model(), q, 3)
      modifies this`issued, entries[q].kind.request, leaseIds
      ensures Valid()
      ensures
        var (s, next, taken) := Acquire(old(Handles())[q].body.state, old(leaseIds.next));
        && r == taken && leaseIds.next == next
        && Handles() == SetState(old(Model()), q, s).handles
      ensures issued == if r.Ok? then old(issued) + [r.value.id] else old(issued)
    {
      r := entries[q].kind.request.AcquireAudio();
      OneRequestChanged(q);
      if r.Ok? {
        issued := issued + [r.value.id];
      }
    }

    /** The request object takes a lease back that no caller has seen. */
    method GiveBackLease(q: nat, id: nat)
      requires Valid() && Has(Model(), q, 3)
      modifies entries[q].kind.request
      ensures Valid()
      ensures Model()
           == SetState(old(Model()), q, Release(old(Handles())[q].body.state, id).0)
    {
      var _ := entries[q].kind.request.ReleaseAudio(id);
      OneRequestChanged(q);
    }

    /** The call hands a lease to its caller only after the lease's metadata are stored. */
    method AcquireAudio(q: nat, metadataFails: bool) returns (status: Status)
      requires Valid() && Has(Model(), q, 3)
      modifies this`entries, this`issued, entries[q].kind.request, leaseIds
      ensures Valid() && Requests() <= old(Requests())
      ensures (Model(), status) == HandleTree.AcquireAudio(old(Model()), q, metadataFails)
    {
      var session, metadata := entries[q].owner, entries[q].kind.metadata;
      var r := TakeLease(q);
      match r
      case Err(code, _) =>
        if code == NoAudio {
          return WouldBlock;
        }
        if code == LeaseSequenceExhausted {
          PoisonSession(session);
          return PoisonedSession;
        }
        return InternalError;
      case Ok(lease) =>
        ghost var taken := old(Model()).(nextLease := leaseIds.next, issued := issued);
        if metadataFails {
          SetTwice(taken, q, Handles()[q], Handles()[q].body.(state :=
                     Release(Handles()[q].body.state, lease.id).0));
          GiveBackLease(q, lease.id);
          return InternalError;
        }
        if lease.id in metadata {
          SetTwice(taken, q, Handles()[q], Handles()[q].body.(state :=
                     Release(Handles()[q].body.state, lease.id).0));
          GiveBackLease(q, lease.id);
          PoisonSession(session);
          return PoisonedSession;
        }
        SetTwice(taken, q, Handles()[q],
                 Handles()[q].body.(metadata := metadata + {lease.id}));
        StoreMetadata(q, metadata + {lease.id});
        return Success;
    }

    method StoreMetadata(q: nat, metadata: set<nat>)
      requires Valid() && q in entries && entries[q].kind.RequestKind?
      modifies this`entries
      ensures Valid() && Requests() <= old(Requests())
      ensures Model()
           == SetBody(old(Model()), q, old(Handles())[q].body.(metadata := metadata))
    {
      Store(q, entries[q].(kind := entries[q].kind.(metadata := metadata)));
    }

    method ReleaseAudio(q: nat, id: nat) returns (status: Status)
      requires Valid() && Has(Model(), q, 3)
      modifies this`entries, entries[q].kind.request
      ensures Valid() && Requests() <= old(Requests())
      ensures (Model(), status) == HandleTree.ReleaseAudio(old(Model()), q, id)
    {
      var kind := entries[q].kind;
      if id == 0 {
        return InvalidArgument;
      }
      if id !in kind.metadata {
        return InvalidArgument;
      }
      var r := kind.request.ReleaseAudio(id);
      OneRequestChanged(q);
      if r.Err? {
        return InternalError;
      }
      SetTwice(old(Model()), q, Handles()[q],
               Handles()[q].body.(metadata := kind.metadata - {id}));
      StoreMetadata(q, kind.metadata - {id});
      return Success;
    }

    method Cancel(q: nat) returns (status: Status)
      requires Valid() && Has(Model(), q, 3)
      modifies entries[q].kind.request
      ensures Valid() && (Model(), status) == CancelRequest(old(Model()), q)
    {
      var r := entries[q].kind.request.Cancel();
      OneRequestChanged(q);
      return if r.Err? then InternalError else if r.value then Success else InvalidArgument;
    }

    /** The worker's failure report: the poison flag first, then the request's own failure. */
    method FailRequestWorker(q: nat, code: int, stage: int, message: string, poison: bool)
      requires Valid() && Has(Model(), q, 3) && entries[q].owner != q
      modifies this`entries, entries[q].kind.request
      ensures Valid() && Requests() <= old(Requests())
      ensures
        var poisoned := if poison then Poison(old(Model()), old(entries[q].owner))
                        else old(Model());
        Model() == ReportFailure(poisoned, q, code, stage, message).0
    {
      var session, request := entries[q].owner, entries[q].kind.request;
      if poison {
        PoisonSession(session);
      }
      if request.phase == Running {
        FailRequest(q, session, code, stage, message);
      }
    }

    method FailRequest(q: nat, session: nat, code: int, stage: int, message: string)
      requires Valid() && Has(Model(), q, 3) && entries[q].owner == session != q
      requires entries[q].kind.request.phase == Running
      modifies this`entries, entries[q].kind.request
      ensures Valid() && Requests() <= old(Requests())
      ensures Model() == ReportFailure(old(Model()), q, code, stage, message).0
    {
      var r := entries[q].kind.request.FailRequest(code, stage, message);
      OneRequestChanged(q);
      if r.Err? {
        PoisonSession(session);
      }
    }
  }
}
