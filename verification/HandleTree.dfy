/** The C boundary's ownership tree, runtime over model over session over request, as a value:
    what each call and each worker step does to it, on success and on every failure. */
module HandleTree {
  import opened Options
  import opened Request

  const REQUESTS_PER_SESSION: nat := 1

  datatype Status =
    | Success
    | InvalidArgument
    | Busy
    | PoisonedSession
    | WouldBlock
    | InternalError
    | Foreign(code: int)  // what a CUDA, engine or loader failure is reported as
    | Blocked             // the call has not returned yet

  /** What may go wrong inside a call besides the tree's own refusals: a rejected argument, an
      exhausted host, or a failure of foreign code. */
  datatype Failure = Rejected | Exhausted | External(code: int)

  function Reported(f: Failure): Status {
    match f
    case Rejected => InvalidArgument
    case Exhausted => InternalError
    case External(code) => Foreign(code)
  }

  /** `metadata` are the lease identifiers with a retained event array. */
  datatype Body =
    | RuntimeBody
    | ModelBody
    | SessionBody(poisoned: bool)
    | RequestBody(state: State, metadata: set<nat>, working: bool)

  /** A live handle, its owner, and its counter of live children with the counter's limit. */
  datatype Handle = Handle(owner: nat, body: Body, live: nat, limit: Option<nat>)

  /** Handles are numbered from 1 and never reused; `starting` is the session of a start call
      between its poison check and its reservation, `issued` every lease identifier handed out. */
  datatype Api = Api(
    handles: map<nat, Handle>,
    nextHandle: nat,
    nextLease: nat,
    issued: seq<nat>,
    starting: Option<nat>)

  const EMPTY := Api(map[], 1, 1, [], None)

  function Level(b: Body): nat {
    match b
    case RuntimeBody => 0
    case ModelBody => 1
    case SessionBody(_) => 2
    case RequestBody(_, _, _) => 3
  }

  predicate Has(a: Api, h: nat, level: nat) {
    h in a.handles && Level(a.handles[h].body) == level
  }

  function SessionOf(a: Api, q: nat): nat
    requires Has(a, q, 3)
  {
    a.handles[q].owner
  }

  // ---------- edits of the tree ----------

  function Pred(n: nat): nat {
    if n == 0 then 0 else n - 1
  }

  predicate AtLimit(h: Handle) {
    h.limit.Some? && h.live >= h.limit.value
  }

  function Plant(a: Api): Api {
    a.(handles := a.handles[a.nextHandle := Handle(0, RuntimeBody, 0, None)],
       nextHandle := a.nextHandle + 1)
  }

  function SetLive(handles: map<nat, Handle>, p: nat, live: nat): map<nat, Handle> {
    if p in handles then handles[p := handles[p].(live := live)] else handles
  }

  function LiveOf(handles: map<nat, Handle>, p: nat): nat {
    if p in handles then handles[p].live else 0
  }

  /** Counts one more child at `p` and adds it. */
  function Attach(a: Api, p: nat, body: Body, limit: Option<nat>): Api {
    a.(handles := SetLive(a.handles, p, LiveOf(a.handles, p) + 1)
                    [a.nextHandle := Handle(p, body, 0, limit)],
       nextHandle := a.nextHandle + 1)
  }

  /** Deletes a handle and counts one child less at its owner. */
  function Detach(a: Api, c: nat): Api
    requires c in a.handles
  {
    var p := a.handles[c].owner;
    a.(handles := SetLive(a.handles, p, Pred(LiveOf(a.handles, p))) - {c})
  }

  function SetBody(a: Api, c: nat, body: Body): Api
    requires c in a.handles
  {
    a.(handles := a.handles[c := a.handles[c].(body := body)])
  }

  function Poison(a: Api, s: nat): Api {
    if Has(a, s, 2) then SetBody(a, s, SessionBody(true)) else a
  }

  function SetState(a: Api, q: nat, s: State): Api
    requires Has(a, q, 3)
  {
    SetBody(a, q, a.handles[q].body.(state := s))
  }

  // ---------- the calls ----------

  function CreateRuntime(a: Api, failure: Option<Failure>): (Api, Status) {
    if failure.Some? then (a, Reported(failure.value)) else (Plant(a), Success)
  }

  function LoadModel(a: Api, r: nat, maximumSessions: nat, failure: Option<Failure>): (Api, Status) {
    if failure.Some? then (a, Reported(failure.value))
    else (Attach(a, r, ModelBody, Some(maximumSessions)), Success)
  }

  /** A failure after the session slot was reserved leaves the tree as it was. */
  function CreateSession(a: Api, m: nat, failure: Option<Failure>): (Api, Status)
    requires Has(a, m, 1)
  {
    if AtLimit(a.handles[m]) then (a, Busy)
    else if failure.Some? then (a, Reported(failure.value))
    else (Attach(a, m, SessionBody(false), Some(REQUESTS_PER_SESSION)), Success)
  }

  /** Destroying a runtime, a model or a session. */
  function Destroy(a: Api, h: nat, failure: Option<Failure>): (Api, Status)
    requires h in a.handles
  {
    if a.handles[h].live != 0 then (a, Busy)
    else if failure.Some? then (a, Reported(failure.value))
    else (Detach(a, h), Success)
  }

  function CheckStart(a: Api, s: nat): (Api, Status)
    requires Has(a, s, 2)
  {
    if a.handles[s].body.poisoned then (a, PoisonedSession)
    else (a.(starting := Some(s)), Blocked)
  }

  /** Validate the tokens (`early` failures), reserve the request slot, build the request and its
      worker (`late` failures, which give the slot back). */
  function FinishStart(a: Api, early: Option<Failure>, tokens: nat, capacity: nat,
                       late: Option<Failure>): (Api, Status)
    requires a.starting.Some? && Has(a, a.starting.value, 2)
  {
    var s, idle := a.starting.value, a.(starting := None);
    if early.Some? then (idle, Reported(early.value))
    else if AtLimit(a.handles[s]) then (idle, Busy)
    else if late.Some? then (idle, Reported(late.value))
    else (Attach(idle, s, RequestBody(Initial(tokens, capacity), {}, true), Some(0)), Success)
  }

  function CancelRequest(a: Api, q: nat): (Api, Status)
    requires Has(a, q, 3)
  {
    var (s, r) := RequestCancellation(a.handles[q].body.state);
    (SetState(a, q, s),
     if r.Err? then InternalError else if r.value then Success else InvalidArgument)
  }

  function DestroyRequest(a: Api, q: nat): (Api, Status)
    requires Has(a, q, 3)
  {
    var body := a.handles[q].body;
    if body.state.phase == Running then (a, Busy)
    else if body.state.leases != map[] || body.metadata != {} then (a, Busy)
    else if body.working then (a, Blocked)  // joining the worker
    else (Detach(a, q), Success)
  }

  /** A lease whose metadata cannot be stored is released again before the call fails. */
  function AcquireAudio(a: Api, q: nat, metadataFails: bool): (Api, Status)
    requires Has(a, q, 3)
  {
    var body := a.handles[q].body;
    var (s, next, r) := Acquire(body.state, a.nextLease);
    match r
    case Err(code, _) =>
      var b := SetState(a, q, s).(nextLease := next);
      if code == NoAudio then (b, WouldBlock)
      else if code == LeaseSequenceExhausted then (Poison(b, SessionOf(a, q)), PoisonedSession)
      else (b, InternalError)
    case Ok(lease) =>
      var taken := a.(nextLease := next, issued := a.issued + [lease.id]);
      if metadataFails then (SetState(taken, q, Release(s, lease.id).0), InternalError)
      else if lease.id in body.metadata then
        (Poison(SetState(taken, q, Release(s, lease.id).0), SessionOf(a, q)), PoisonedSession)
      else
        (SetBody(taken, q, body.(state := s, metadata := body.metadata + {lease.id})), Success)
  }

  function ReleaseAudio(a: Api, q: nat, id: nat): (Api, Status)
    requires Has(a, q, 3)
  {
    var body := a.handles[q].body;
    if id == 0 || id !in body.metadata then (a, InvalidArgument)
    else
      var (s, r) := Release(body.state, id);
      if r.Err? then (SetState(a, q, s), InternalError)
      else (SetBody(a, q, body.(state := s, metadata := body.metadata - {id})), Success)
  }

  /** A failure report on a terminal request is dropped; one that is itself rejected poisons the
      session. */
  function ReportFailure(a: Api, q: nat, status: int, stage: int, message: string): (Api, Status)
    requires Has(a, q, 3)
  {
    var s := a.handles[q].body.state;
    if s.phase != Running then (a, Success)
    else
      var (t, r) := Fail(s, status, stage, message);
      (if r.Err? then Poison(SetState(a, q, t), SessionOf(a, q)) else SetState(a, q, t), Success)
  }

  // ---------- one step of the whole system ----------

  datatype Act =
    | RuntimeCreate(failure: Option<Failure>)
    | ModelLoad(runtime: nat, maximumSessions: nat, failure: Option<Failure>)
    | SessionCreate(model: nat, failure: Option<Failure>)
    | HandleDestroy(handle: nat, failure: Option<Failure>)
    | StartCheck(session: nat)
    | StartFinish(early: Option<Failure>, tokens: nat, capacity: nat, late: Option<Failure>)
    | Cancel(request: nat)
    | RequestDestroy(request: nat)
    | AudioAcquire(request: nat, metadataFails: bool)
    | AudioRelease(request: nat, lease: nat)
    | WorkerPublish(request: nat, c: Chunk)
    | WorkerCompletesCancel(request: nat)
    | WorkerPoisons(request: nat)
    | WorkerFails(request: nat, status: int, stage: int, message: string)
    | WorkerEnds(request: nat)

  predicate IsWorkerAct(act: Act) {
    act.WorkerPublish? || act.WorkerCompletesCancel? || act.WorkerPoisons? || act.WorkerFails?
    || act.WorkerEnds?
  }

  /** An act names a live handle of the right kind. API calls exclude one another, so between the
      check and the finish of a start only workers run; a worker acts until it ends. */
  predicate Legal(a: Api, act: Act) {
    && (IsWorkerAct(act) || (act.StartFinish? <==> a.starting.Some?))
    && match act
       case RuntimeCreate(_) => true
       case ModelLoad(r, _, _) => Has(a, r, 0)
       case SessionCreate(m, _) => Has(a, m, 1)
       case HandleDestroy(h, _) => h in a.handles && !Has(a, h, 3)
       case StartCheck(s) => Has(a, s, 2)
       case StartFinish(_, tokens, capacity, _) =>
         Has(a, a.starting.value, 2) && tokens > 0 && STEADY_FRAMES <= capacity < UINT32
       case Cancel(q) => Has(a, q, 3)
       case RequestDestroy(q) => Has(a, q, 3)
       case AudioAcquire(q, _) => Has(a, q, 3)
       case AudioRelease(q, _) => Has(a, q, 3)
       case WorkerPublish(q, _) => Has(a, q, 3) && a.handles[q].body.working
       case WorkerCompletesCancel(q) => Has(a, q, 3) && a.handles[q].body.working
       case WorkerPoisons(q) => Has(a, q, 3) && a.handles[q].body.working
       case WorkerFails(q, _, _, _) => Has(a, q, 3) && a.handles[q].body.working
       case WorkerEnds(q) => Has(a, q, 3) && a.handles[q].body.working
  }

  function Step(a: Api, act: Act): (Api, Status)
    requires Legal(a, act)
  {
    match act
    case RuntimeCreate(failure) => CreateRuntime(a, failure)
    case ModelLoad(r, maximum, failure) => LoadModel(a, r, maximum, failure)
    case SessionCreate(m, failure) => CreateSession(a, m, failure)
    case HandleDestroy(h, failure) => Destroy(a, h, failure)
    case StartCheck(s) => CheckStart(a, s)
    case StartFinish(early, tokens, capacity, late) => FinishStart(a, early, tokens, capacity, late)
    case Cancel(q) => CancelRequest(a, q)
    case RequestDestroy(q) => DestroyRequest(a, q)
    case AudioAcquire(q, metadataFails) => AcquireAudio(a, q, metadataFails)
    case AudioRelease(q, id) => ReleaseAudio(a, q, id)
    case WorkerPublish(q, c) => (SetState(a, q, Publish(a.handles[q].body.state, c).0), Success)
    case WorkerCompletesCancel(q) =>
      (SetState(a, q, CompleteCancellation(a.handles[q].body.state).0), Success)
    case WorkerPoisons(q) => (Poison(a, SessionOf(a, q)), Success)
    case WorkerFails(q, status, stage, message) => ReportFailure(a, q, status, stage, message)
    case WorkerEnds(q) => (SetBody(a, q, a.handles[q].body.(working := false)), Success)
  }

  /** Acts that are not legal when their turn comes do not happen. */
  function Run(a: Api, acts: seq<Act>): Api
    decreases |acts|
  {
    if acts == [] then a
    else Run(if Legal(a, acts[0]) then Step(a, acts[0]).0 else a, acts[1..])
  }
}
