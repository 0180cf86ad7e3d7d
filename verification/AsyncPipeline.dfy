/** The two generation batch slots and the synchronization counts of the overlap contract. */
module AsyncPipeline {

  datatype Slot = Unused | GenerationPending | GenerationReady | CodecPending | ReuseQueued

  datatype Contract = Contract(
    slots: seq<Slot>,
    generationBatches: nat,
    codecBatches: nat,
    dependencies: nat,
    reuseWaits: nat)

  datatype Event =
    | ScheduleGeneration(slot: nat)
    | MarkReady(slot: nat)
    | ScheduleCodec(slot: nat)
    | QueueReuse(slot: nat)

  const FRESH := Contract([Unused, Unused], 0, 0, 0, 0)

  /** The slot state an event needs and the one it leaves. */
  predicate Enabled(c: Contract, e: Event) {
    && e.slot < |c.slots|
    && match e
       case ScheduleGeneration(k) => c.slots[k] == Unused || c.slots[k] == ReuseQueued
       case MarkReady(k) => c.slots[k] == GenerationPending
       case ScheduleCodec(k) => c.slots[k] == GenerationReady
       case QueueReuse(k) => c.slots[k] == CodecPending
  }

  /** An event that is not enabled throws and changes nothing. */
  function Apply(c: Contract, e: Event): Contract {
    if !Enabled(c, e) then c
    else
      match e
      case ScheduleGeneration(k) =>
        c.(slots := c.slots[k := GenerationPending], generationBatches := c.generationBatches + 1)
      case MarkReady(k) => c.(slots := c.slots[k := GenerationReady])
      case ScheduleCodec(k) =>
        c.(slots := c.slots[k := CodecPending], codecBatches := c.codecBatches + 1,
           dependencies := c.dependencies + 1)
      case QueueReuse(k) =>
        c.(slots := c.slots[k := ReuseQueued], reuseWaits := c.reuseWaits + 1)
  }

  function ApplyAll(c: Contract, events: seq<Event>): Contract
    decreases |events|
  {
    if events == [] then c else ApplyAll(Apply(c, events[0]), events[1..])
  }

  function InGeneration(s: Slot): nat {
    if s == GenerationPending || s == GenerationReady then 1 else 0
  }

  function InCodec(s: Slot): nat {
    if s == CodecPending then 1 else 0
  }

  predicate Conserved(c: Contract) {
    && |c.slots| == 2
    && c.generationBatches == c.codecBatches + InGeneration(c.slots[0]) + InGeneration(c.slots[1])
    && c.dependencies == c.codecBatches
    && c.codecBatches == c.reuseWaits + InCodec(c.slots[0]) + InCodec(c.slots[1])
  }

  /** Over every call sequence, refused calls included: each scheduled batch is in generation or
      has reached the codec, and each codec batch is in the codec or has been waited for. */
  lemma {:induction false} BatchesConserved(c: Contract, events: seq<Event>)
    requires Conserved(c)
    ensures Conserved(ApplyAll(c, events))
    decreases |events|
  {
    if events != [] {
      BatchesConserved(Apply(c, events[0]), events[1..]);
    }
  }

  // ---------- the four stages of a slot ----------

  /** The stage an event moves its slot on from. */
  function Stage(e: Event): nat {
    match e
    case ScheduleGeneration(_) => 0
    case MarkReady(_) => 1
    case ScheduleCodec(_) => 2
    case QueueReuse(_) => 3
  }

  /** How many of the events on this slot are let through. */
  function Passed(c: Contract, events: seq<Event>, slot: nat): nat
    decreases |events|
  {
    if events == [] then 0
    else
      (if events[0].slot == slot && Enabled(c, events[0]) then 1 else 0)
      + Passed(Apply(c, events[0]), events[1..], slot)
  }

  /** The stage n events leave a slot at: they go round and round. */
  function Turn(n: nat): nat
    decreases n
  {
    if n == 0 then 0 else if Turn(n - 1) == 3 then 0 else Turn(n - 1) + 1
  }

  function StateAfter(n: nat): Slot {
    if n == 0 then Unused
    else
      match Turn(n)
      case 0 => ReuseQueued
      case 1 => GenerationPending
      case 2 => GenerationReady
      case _ => CodecPending
  }

  /** How many of n events left this stage. */
  function Left(n: nat, stage: nat): nat
    decreases n
  {
    if n == 0 then 0 else Left(n - 1, stage) + if Turn(n - 1) == stage then 1 else 0
  }

  lemma {:induction false} TurnClosed(n: nat)
    ensures Turn(n) == n % 4
    decreases n
  {
    if n > 0 {
      TurnClosed(n - 1);
    }
  }

  /** In closed form: stage s is left for the k-th time by event 4 (k - 1) + s + 1. */
  lemma {:induction false} LeftClosed(n: nat, stage: nat)
    requires stage < 4
    ensures Left(n, stage) == (n + 3 - stage) / 4
    decreases n
  {
    if n > 0 {
      LeftClosed(n - 1, stage);
      TurnClosed(n - 1);
    }
  }

  /** The whole contract after n events on slot 0 and m on slot 1. */
  predicate After(c: Contract, n: nat, m: nat) {
    && c.slots == [StateAfter(n), StateAfter(m)]
    && c.generationBatches == Left(n, 0) + Left(m, 0)
    && c.codecBatches == c.dependencies == Left(n, 2) + Left(m, 2)
    && c.reuseWaits == Left(n, 3) + Left(m, 3)
  }

  predicate DueAt(e: Event, slot: nat, n: nat) {
    e.slot == slot && Stage(e) == Turn(n)
  }

  lemma OneEvent(c: Contract, e: Event, n: nat, m: nat)
    requires After(c, n, m)
    ensures Enabled(c, e) <==> DueAt(e, 0, n) || DueAt(e, 1, m)
    ensures After(Apply(c, e), n + if e.slot == 0 && Enabled(c, e) then 1 else 0,
                  m + if e.slot == 1 && Enabled(c, e) then 1 else 0)
  {
    TurnClosed(n);
    TurnClosed(m);
  }

  lemma {:induction false} EventsAfter(c: Contract, events: seq<Event>, n: nat, m: nat)
    requires After(c, n, m)
    ensures After(ApplyAll(c, events), n + Passed(c, events, 0), m + Passed(c, events, 1))
    decreases |events|
  {
    if events != [] {
      var e := events[0];
      OneEvent(c, e, n, m);
      EventsAfter(Apply(c, e), events[1..], n + if e.slot == 0 && Enabled(c, e) then 1 else 0,
                  m + if e.slot == 1 && Enabled(c, e) then 1 else 0);
    }
  }

  /** Over every call sequence each slot goes through its four stages in order, over and over: a call
      is let through exactly when its slot is at its stage, and the counts are those of the rounds. */
  lemma SlotsGoRound(events: seq<Event>, next: Event)
    ensures
      var c := ApplyAll(FRESH, events);
      var n, m := Passed(FRESH, events, 0), Passed(FRESH, events, 1);
      && After(c, n, m)
      && (Enabled(c, next) <==> DueAt(next, 0, n) || DueAt(next, 1, m))
  {
    EventsAfter(FRESH, events, 0, 0);
    OneEvent(ApplyAll(FRESH, events), next, Passed(FRESH, events, 0), Passed(FRESH, events, 1));
  }

  // ---------- the pipeline's own calls ----------

  /** The calls of the first batches: slot 0 is generated, completed and handed to the codec, and
      slot 1 is generated meanwhile. */
  const OPENING: seq<Event> :=
    [ScheduleGeneration(0), MarkReady(0), ScheduleCodec(0), ScheduleGeneration(1)]

  /** The calls of one turn of the pipeline's loop on the slot being generated: it is completed and
      handed to the codec, and the other slot is waited for and generated again. */
  function Turns(s: nat): seq<Event>
    requires s < 2
  {
    [MarkReady(s), ScheduleCodec(s), QueueReuse(1 - s), ScheduleGeneration(1 - s)]
  }

  function Loop(s: nat, n: nat): seq<Event>
    requires s < 2
    decreases n
  {
    if n == 0 then [] else Turns(s) + Loop(1 - s, n - 1)
  }

  predicate AllPass(c: Contract, events: seq<Event>)
    decreases |events|
  {
    events == [] || (Enabled(c, events[0]) && AllPass(Apply(c, events[0]), events[1..]))
  }

  lemma {:induction false} PassConcat(c: Contract, a: seq<Event>, b: seq<Event>)
    ensures AllPass(c, a + b) <==> AllPass(c, a) && AllPass(ApplyAll(c, a), b)
    decreases |a|
  {
    if a == [] {
      assert a + b == b;
    } else {
      assert (a + b)[0] == a[0] && (a + b)[1..] == a[1..] + b;
      PassConcat(Apply(c, a[0]), a[1..], b);
    }
  }

  lemma FourPass(c: Contract, p: Event, q: Event, r: Event, t: Event)
    requires Enabled(c, p) && Enabled(Apply(c, p), q) && Enabled(Apply(Apply(c, p), q), r)
    requires Enabled(Apply(Apply(Apply(c, p), q), r), t)
    ensures AllPass(c, [p, q, r, t])
    ensures ApplyAll(c, [p, q, r, t]) == Apply(Apply(Apply(Apply(c, p), q), r), t)
  {
    assert [p, q, r, t][1..] == [q, r, t] && [q, r, t][1..] == [r, t];
    assert [r, t][1..] == [t] && [t][1..] == [];
    assert AllPass(Apply(Apply(Apply(c, p), q), r), [t]);
    assert AllPass(Apply(Apply(c, p), q), [r, t]);
    assert AllPass(Apply(c, p), [q, r, t]);
    assert ApplyAll(Apply(Apply(Apply(c, p), q), r), [t])
        == Apply(Apply(Apply(Apply(c, p), q), r), t);
    assert ApplyAll(Apply(Apply(c, p), q), [r, t])
        == Apply(Apply(Apply(Apply(c, p), q), r), t);
    assert ApplyAll(Apply(c, p), [q, r, t]) == Apply(Apply(Apply(Apply(c, p), q), r), t);
  }

  /** One slot is being generated while the codec still reads the other. */
  predicate Overlapping(c: Contract, s: nat)
    requires s < 2
  {
    |c.slots| == 2 && c.slots[s] == GenerationPending && c.slots[1 - s] == CodecPending
  }

  lemma {:induction false} LoopPasses(c: Contract, s: nat, n: nat)
    requires s < 2 && Overlapping(c, s)
    ensures AllPass(c, Loop(s, n))
    decreases n
  {
    if n > 0 {
      FourPass(c, MarkReady(s), ScheduleCodec(s), QueueReuse(1 - s), ScheduleGeneration(1 - s));
      LoopPasses(ApplyAll(c, Turns(s)), 1 - s, n - 1);
      PassConcat(c, Turns(s), Loop(1 - s, n - 1));
    }
  }

  /** The pipeline never misuses the contract: however many batches it makes and wherever it stops,
      every one of its calls is let through, with a slot waited for between the codec's reading of it
      and its next generation; and a generation still pending where it stops can be completed. */
  lemma PipelineNeverMisuses(n: nat, k: nat, slot: nat)
    requires k <= |OPENING + Loop(1, n)|
    ensures AllPass(FRESH, (OPENING + Loop(1, n))[..k])
    ensures
      var c := ApplyAll(FRESH, (OPENING + Loop(1, n))[..k]);
      slot < |c.slots| && c.slots[slot] == GenerationPending ==> Enabled(c, MarkReady(slot))
  {
    var all := OPENING + Loop(1, n);
    FourPass(FRESH, ScheduleGeneration(0), MarkReady(0), ScheduleCodec(0), ScheduleGeneration(1));
    LoopPasses(ApplyAll(FRESH, OPENING), 1, n);
    PassConcat(FRESH, OPENING, Loop(1, n));
    assert all == all[..k] + all[k..];
    PassConcat(FRESH, all[..k], all[k..]);
  }

  class AsyncPipelineContract {
    var states: array<Slot>
    var generationBatches: nat
    var codecBatches: nat
    var dependencies: nat
    var reuseWaits: nat

    function Model(): Contract
      reads this, states
    {
      Contract(states[..], generationBatches, codecBatches, dependencies, reuseWaits)
    }

    constructor ()
      ensures fresh(states) && Model() == FRESH
    {
      states := new Slot[2](_ => Unused);
      generationBatches, codecBatches, dependencies, reuseWaits := 0, 0, 0, 0;
    }

    method ScheduleGenerationBatch(slot: nat) returns (ok: bool)
      modifies this, states
      ensures states == old(states)
      ensures ok == Enabled(old(Model()), ScheduleGeneration(slot))
      ensures Model() == Apply(old(Model()), ScheduleGeneration(slot))
    {
      if slot >= states.Length || (states[slot] != Unused && states[slot] != ReuseQueued) {
        return false;
      }
      states[slot] := GenerationPending;
      generationBatches := generationBatches + 1;
      return true;
    }

    method MarkGenerationReady(slot: nat) returns (ok: bool)
      modifies states
      ensures ok == Enabled(old(Model()), MarkReady(slot))
      ensures Model() == Apply(old(Model()), MarkReady(slot))
    {
      if slot >= states.Length || states[slot] != GenerationPending {
        return false;
      }
      states[slot] := GenerationReady;
      return true;
    }

    method ScheduleCodecBatch(slot: nat) returns (ok: bool)
      modifies this, states
      ensures states == old(states)
      ensures ok == Enabled(old(Model()), ScheduleCodec(slot))
      ensures Model() == Apply(old(Model()), ScheduleCodec(slot))
    {
      if slot >= states.Length || states[slot] != GenerationReady {
        return false;
      }
      states[slot] := CodecPending;
      codecBatches := codecBatches + 1;
      dependencies := dependencies + 1;
      return true;
    }

    method QueueReuseDependency(slot: nat) returns (ok: bool)
      modifies this, states
      ensures states == old(states)
      ensures ok == Enabled(old(Model()), QueueReuse(slot))
      ensures Model() == Apply(old(Model()), QueueReuse(slot))
    {
      if slot >= states.Length || states[slot] != CodecPending {
        return false;
      }
      states[slot] := ReuseQueued;
      reuseWaits := reuseWaits + 1;
      return true;
    }
  }
}
