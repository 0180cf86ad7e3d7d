/** The two lock-free loops of the runtime, the lease identifier sequence and the bounded live
    counter, step by step under any interleaving of any number of threads. */
module AtomicCounters {
  import Request

  /** A thread is outside the loop, or holds the value it last read. */
  datatype Thread = Outside | Holding(candidate: nat)

  /** `ceiling` is the first value the loop refuses to start from; `taken` are the values from
      which increments succeeded, in order; `held` counts increments not yet given back. */
  datatype Counter = Counter(value: nat, ceiling: nat, threads: map<nat, Thread>,
                             taken: seq<nat>, held: nat)

  datatype Act =
    | Load(thread: nat)
    | CompareExchange(thread: nat, spurious: bool)
    | GiveBack

  function Fresh(value: nat, ceiling: nat): Counter {
    Counter(value, ceiling, map[], [], 0)
  }

  function ThreadOf(c: Counter, t: nat): Thread {
    if t in c.threads then c.threads[t] else Outside
  }

  /** A weak exchange may fail spuriously; a failed one reloads the candidate. A candidate at the
      ceiling ends the loop without an exchange. */
  function Step(c: Counter, act: Act): Counter {
    match act
    case Load(t) =>
      if ThreadOf(c, t) == Outside then c.(threads := c.threads[t := Holding(c.value)]) else c
    case CompareExchange(t, spurious) =>
      (match ThreadOf(c, t)
       case Outside => c
       case Holding(candidate) =>
         if candidate >= c.ceiling then c.(threads := c.threads[t := Outside])
         else if spurious || candidate != c.value then
           c.(threads := c.threads[t := Holding(c.value)])
         else
           c.(threads := c.threads[t := Outside], value := candidate + 1,
              taken := c.taken + [candidate], held := c.held + 1))
    case GiveBack =>
      if c.held == 0 then c else c.(value := if c.value == 0 then 0 else c.value - 1,
                                    held := c.held - 1)
  }

  function Run(c: Counter, acts: seq<Act>): Counter
    decreases |acts|
  {
    if acts == [] then c else Run(Step(c, acts[0]), acts[1..])
  }

  // ---------- the lease identifier sequence: nothing is given back ----------

  predicate Ascending(taken: seq<nat>) {
    forall i, j :: 0 <= i < j < |taken| ==> taken[i] < taken[j]
  }

  predicate SequenceInv(c: Counter, first: nat) {
    && first <= c.value
    && Ascending(c.taken)
    && (forall i :: 0 <= i < |c.taken| ==> first <= c.taken[i] < c.value)
    && (forall i :: 0 <= i < |c.taken| ==> c.taken[i] < c.ceiling)
  }

  lemma {:induction false} SequenceRun(c: Counter, first: nat, acts: seq<Act>)
    requires SequenceInv(c, first)
    requires forall k :: 0 <= k < |acts| ==> !acts[k].GiveBack?
    ensures SequenceInv(Run(c, acts), first)
    ensures Run(c, acts).ceiling == c.ceiling
    decreases |acts|
  {
    if acts != [] {
      SequenceRun(Step(c, acts[0]), first, acts[1..]);
    }
  }

  /** Lease identifiers are never reused: in every interleaving the identifiers handed out
      process-wide are strictly increasing, start at the first one, and stop before the maximum. */
  lemma LeaseIdentifiersUnique(first: nat, acts: seq<Act>)
    requires first > 0
    requires forall k :: 0 <= k < |acts| ==> !acts[k].GiveBack?
    ensures var taken := Run(Fresh(first, Request.UINT64_MAX), acts).taken;
            && Ascending(taken)
            && forall i :: 0 <= i < |taken| ==> first <= taken[i] < Request.UINT64_MAX
  {
    SequenceRun(Fresh(first, Request.UINT64_MAX), first, acts);
  }

  /** The identifiers are handed out without a gap: n of them, whoever took them and however the
      exchanges failed, are the ones n calls one after the other would have taken. */
  lemma {:induction false} TakenWithoutGap(c: Counter, first: nat, acts: seq<Act>)
    requires first <= c.value && c.taken == Consecutive(first, c.value)
    requires forall k :: 0 <= k < |acts| ==> !acts[k].GiveBack?
    ensures first <= Run(c, acts).value
    ensures Run(c, acts).taken == Consecutive(first, Run(c, acts).value)
    decreases |acts|
  {
    if acts != [] {
      TakenWithoutGap(Step(c, acts[0]), first, acts[1..]);
    }
  }

  function Consecutive(first: nat, end: nat): seq<nat>
    requires first <= end
  {
    seq(end - first, k requires 0 <= k => first + k)
  }

  /** The identifiers that n calls take one after the other, and the value they leave. */
  function TakeMany(next: nat, n: nat): (seq<nat>, nat)
    decreases n
  {
    if n == 0 then ([], next)
    else
      match Request.TakeLeaseId(next)
      case (same, Err(_, _)) => ([], same)
      case (following, Ok(id)) =>
        var (rest, end) := TakeMany(following, n - 1);
        ([id] + rest, end)
  }

  lemma {:induction false} TakeManyConsecutive(next: nat, n: nat)
    requires 0 < next && next + n <= Request.UINT64_MAX
    ensures TakeMany(next, n) == (Consecutive(next, next + n), next + n)
    decreases n
  {
    if n == 0 {
      assert Consecutive(next, next) == [];
    } else {
      TakeManyConsecutive(next + 1, n - 1);
      assert Consecutive(next, next + n) == [next] + Consecutive(next + 1, next + n);
    }
  }

  /** The lock-free sequence does what the mutex-free specification of one call does, in some order:
      after any interleaving, it has handed out what that many calls in a row hand out. */
  lemma InterleavedIsSequential(first: nat, acts: seq<Act>)
    requires 0 < first <= Request.UINT64_MAX
    requires forall k :: 0 <= k < |acts| ==> !acts[k].GiveBack?
    ensures
      var c := Run(Fresh(first, Request.UINT64_MAX), acts);
      TakeMany(first, |c.taken|) == (c.taken, c.value)
  {
    var c := Run(Fresh(first, Request.UINT64_MAX), acts);
    TakenWithoutGap(Fresh(first, Request.UINT64_MAX), first, acts);
    LeaseIdentifiersUnique(first, acts);
    assert |c.taken| > 0 ==> c.taken[|c.taken| - 1] == c.value - 1;
    TakeManyConsecutive(first, |c.taken|);
  }

  // ---------- no thread is held up for nothing ----------

  /** The others' acts: not those of thread t. */
  predicate Others(acts: seq<Act>, t: nat) {
    forall k :: 0 <= k < |acts| ==>
      (acts[k].Load? ==> acts[k].thread != t) && (acts[k].CompareExchange? ==> acts[k].thread != t)
  }

  /** How often the value was changed along a run: by a successful exchange or by giving back. */
  function Changes(c: Counter, acts: seq<Act>): nat
    decreases |acts|
  {
    if acts == [] then 0
    else
      (if Step(c, acts[0]).value != c.value then 1 else 0) + Changes(Step(c, acts[0]), acts[1..])
  }

  lemma {:induction false} OthersLeaveThread(c: Counter, acts: seq<Act>, t: nat)
    requires Others(acts, t)
    ensures ThreadOf(Run(c, acts), t) == ThreadOf(c, t)
    ensures Run(c, acts).ceiling == c.ceiling
    ensures Changes(c, acts) == 0 ==> Run(c, acts).value == c.value
    decreases |acts|
  {
    if acts != [] {
      OthersLeaveThread(Step(c, acts[0]), acts[1..], t);
    }
  }

  /** Lock freedom: a thread that has loaded the value, let the others do what they like, and then
      exchanges without a spurious failure, gets the value it loaded unless it was at the ceiling or
      somebody else has changed the counter meanwhile. */
  lemma ExchangeOrOvertaken(c: Counter, t: nat, acts: seq<Act>)
    requires ThreadOf(c, t) == Outside && Others(acts, t)
    ensures
      var loaded := Step(c, Load(t));
      var before := Run(loaded, acts);
      var after := Step(before, CompareExchange(t, false));
      || (after.taken == before.taken + [c.value] && after.value == c.value + 1
          && after.held == before.held + 1 && ThreadOf(after, t) == Outside)
      || (c.value >= c.ceiling && after.value == before.value && ThreadOf(after, t) == Outside)
      || Changes(loaded, acts) > 0
  {
    OthersLeaveThread(Step(c, Load(t)), acts, t);
  }

  // ---------- the bounded counter: holders give back ----------

  /** How many of these acts give a reservation back. */
  function Returned(c: Counter, acts: seq<Act>): nat
    decreases |acts|
  {
    if acts == [] then 0
    else
      (if acts[0].GiveBack? && c.held > 0 then 1 else 0) + Returned(Step(c, acts[0]), acts[1..])
  }

  /** In every interleaving the counter equals the reservations taken and not given back, and stays
      within its maximum. */
  lemma {:induction false} ReservationsBounded(c: Counter, acts: seq<Act>)
    requires c.value == c.held <= c.ceiling
    ensures Run(c, acts).value == Run(c, acts).held <= Run(c, acts).ceiling == c.ceiling
    ensures |Run(c, acts).taken| - |c.taken| == Run(c, acts).held - c.held + Returned(c, acts)
    decreases |acts|
  {
    if acts != [] {
      ReservationsBounded(Step(c, acts[0]), acts[1..]);
    }
  }

  /** From the start: as many reservations are held as were taken and not given back, and never more
      than the maximum. */
  lemma ReservationsFresh(maximum: nat, acts: seq<Act>)
    ensures
      var c := Run(Fresh(0, maximum), acts);
      c.value + Returned(Fresh(0, maximum), acts) == |c.taken| && c.value <= maximum
  {
    ReservationsBounded(Fresh(0, maximum), acts);
  }
}
