/** The controller as it runs on the device: one block of threads, of which the first decides and
    all write the prior, in place in device buffers. */
module AlignmentKernel {
  import opened Alignment
  import opened AlignmentController
  import opened AlignmentRuns
  import opened SofiaController

  const THREADS: nat := 256
  const MAXIMUM_TEXT_TOKENS: nat := 512

  /** The contracts and text lengths the kernel runs for. */
  predicate Launchable(c: Contract, length: nat) {
    && 0 < length <= MAXIMUM_TEXT_TOKENS && c.ignored < length
    && c.lookahead != 0 && c.sink != 0
  }

  /** The kernel runs for every text with content it has room for, provided there is something to look
      ahead to and a sink to count to; the shipped contract meets that. */
  lemma LaunchableExactly(c: Contract, length: nat)
    ensures Launchable(c, length) <==>
            && ContentEnd(c, Initial(length, 0)) > 0 && length <= MAXIMUM_TEXT_TOKENS
            && c.lookahead >= 1 && c.sink >= 1
    ensures Launchable(SOFIA, length) <==> 4 <= length <= 512
  {
  }

  predicate AllScoresFinite(scores: seq<Score>) {
    forall k :: 0 <= k < |scores| ==> scores[k].Finite?
  }

  /** What the block writes: each thread lights at most the one position of its own number. */
  function KernelPrior(c: Contract, counters: seq<nat>, attended: nat): seq<real>
    requires attended < |counters|
  {
    seq(2 * |counters|, i requires 0 <= i =>
        if i < THREADS then PriorAt(c, counters, attended, i) else c.epsilon)
  }

  class DeviceController {
    const contract: Contract
    const length: nat
    var last: nat
    const counters: array<nat>
    const prior: array<real>

    ghost predicate Valid()
      reads this, counters
    {
      && counters.Length == length && prior.Length == 2 * length
      && (length > 0 ==> last < length)
    }

    function Model(): State
      reads this, counters
    {
      State(last, counters[..])
    }

    constructor (length: nat, contract: Contract, initial: nat)
      requires initial < length
      ensures Valid() && fresh(counters) && fresh(prior)
      ensures this.length == length && this.contract == contract
      ensures Model() == Initial(length, initial)
    {
      this.length, this.contract, last := length, contract, initial;
      counters := new nat[length](_ => 0);
      prior := new real[2 * length](_ => 0.0);
    }

    /** One launch. The prior is written only after a valid decision. */
    method Launch(scores: seq<Score>) returns (invalid: bool, attended: nat, unfinished: bool)
      requires Valid() && |scores| == length
      modifies this, counters, prior
      ensures Valid()
      ensures !Launchable(contract, length) ==> invalid && Model() == old(Model())
      ensures Launchable(contract, length) && !AllScoresFinite(scores) ==> invalid
      ensures Launchable(contract, length) && AllScoresFinite(scores) ==>
                var (t, r) := Next(contract, old(Model()), Values(scores));
                && attended == r.attended && unfinished == r.unfinished
                && (invalid <==> old(counters[..])[attended] == UINT32_MAX)
                && Model() == (if invalid then old(Model()).(last := attended) else t)
                && (!invalid ==> prior[..] == KernelPrior(contract, t.counters, attended))
    {
      var deepest;
      invalid, attended, unfinished, deepest := Decide(scores);
      if !invalid {
        WritePrior(attended, deepest);
      }
    }

    /** What the first thread does. */
    method Decide(scores: seq<Score>)
      returns (invalid: bool, attended: nat, unfinished: bool, deepest: int)
      requires Valid() && |scores| == length
      modifies this`last, counters
      ensures Valid()
      ensures !Launchable(contract, length) ==> invalid && Model() == old(Model())
      ensures Launchable(contract, length) && !AllScoresFinite(scores) ==> invalid
      ensures Launchable(contract, length) && AllScoresFinite(scores) ==>
                var (t, r) := Next(contract, old(Model()), Values(scores));
                && attended == r.attended && unfinished == r.unfinished
                && (invalid <==> old(counters[..])[attended] == UINT32_MAX)
                && Model() == (if invalid then old(Model()).(last := attended) else t)
      ensures !invalid ==> attended < length && IsDeepest(deepest)
    {
      invalid, attended, unfinished, deepest := false, 0, false, -1;
      if length == 0 || length > MAXIMUM_TEXT_TOKENS || length <= contract.ignored
         || contract.lookahead == 0 || contract.sink == 0 {
        invalid := true;
        return;
      }
      ghost var before := Model();
      invalid, attended := Search(scores);
      var finite := CheckScores(scores);
      if !finite {
        invalid := true;
      }
      if counters[attended] == UINT32_MAX {
        invalid := true;
        assert counters[..] == before.counters;
      } else {
        counters[attended] := counters[attended] + 1;
        assert counters[..] == before.counters[attended := before.counters[attended] + 1];
      }
      last := attended;
      unfinished := attended < length - contract.ignored;
      deepest := FindDeepest();
    }

    method CheckScores(scores: seq<Score>) returns (finite: bool)
      ensures finite <==> AllScoresFinite(scores)
    {
      finite := true;
      for k := 0 to |scores|
        invariant finite <==> forall j :: 0 <= j < k ==> scores[j].Finite?
      {
        if scores[k].NonFinite? {
          finite := false;
        }
      }
    }

    /** The windowed maximum; a non-finite score in the window is reported, and then which position
        wins no longer matters. */
    method Search(scores: seq<Score>) returns (invalid: bool, attended: nat)
      requires Valid() && |scores| == length && Launchable(contract, length)
      ensures attended < length
      ensures invalid ==> !AllScoresFinite(scores)
      ensures AllScoresFinite(scores) ==>
                attended == Attended(contract, Model(), Values(scores))
    {
      invalid := false;
      var searchStart := last;
      if counters[last] >= contract.sink {
        searchStart := searchStart + 1;
      }
      var contentEnd := length - contract.ignored;
      var windowEnd := Min(Min(searchStart + contract.lookahead, UINT32_MAX), contentEnd);
      attended := length - 1;
      if windowEnd > searchStart {
        attended := searchStart;
        var best := scores[searchStart];
        if best.NonFinite? {
          invalid := true;
        }
        var k := searchStart + 1;
        while k < windowEnd
          invariant searchStart < k <= windowEnd && attended < length
          invariant invalid ==> !AllScoresFinite(scores)
          invariant AllScoresFinite(scores) ==>
                      && IsFirstMax(Values(scores), searchStart, k, attended)
                      && best == scores[attended]
        {
          var candidate := scores[k];
          if candidate.NonFinite? {
            invalid := true;
          } else if best.Finite? && candidate.value > best.value {
            attended, best := k, candidate;
          }
          k := k + 1;
        }
        if AllScoresFinite(scores) {
          FirstMaxUnique(Values(scores), searchStart, windowEnd, attended,
                         FirstMax(Values(scores), searchStart, windowEnd));
        }
      }
    }

    /** The last position that has reached the sink threshold, or -1. */
    predicate IsDeepest(deepest: int)
      reads this, counters
    {
      && -1 <= deepest < counters.Length
      && (deepest >= 0 ==> counters[deepest] >= contract.sink)
      && forall j :: deepest < j < counters.Length ==> counters[j] < contract.sink
    }

    method FindDeepest() returns (deepest: int)
      requires Valid()
      ensures IsDeepest(deepest)
    {
      deepest := -1;
      for i := 0 to counters.Length
        invariant -1 <= deepest < i
        invariant deepest >= 0 ==> counters[deepest] >= contract.sink
        invariant forall j :: deepest < j < i ==> counters[j] < contract.sink
      {
        if counters[i] >= contract.sink {
          deepest := i;
        }
      }
    }

    /** What the block does after the barrier, thread by thread. */
    method WritePrior(attended: nat, deepest: int)
      requires Valid() && 0 < length && attended < length && IsDeepest(deepest)
      modifies prior
      ensures prior[..] == KernelPrior(contract, counters[..], attended)
    {
      Clear();
      for thread := 0 to THREADS
        invariant forall i :: 0 <= i < prior.Length ==>
                    prior[i] == if i < thread then PriorAt(contract, counters[..], attended, i)
                                else contract.epsilon
      {
        if thread < length {
          var one := Lights(attended, thread);
          assert Sunk(contract, counters[..], thread) <==> thread <= deepest;
          if one && (deepest < 0 || thread > deepest) {
            prior[thread] := 1.0;
          }
        }
      }
    }

    method Clear()
      requires Valid()
      modifies prior
      ensures forall i :: 0 <= i < prior.Length ==> prior[i] == contract.epsilon
    {
      for thread := 0 to THREADS
        invariant forall i :: 0 <= i < prior.Length && i % THREADS < thread ==>
                    prior[i] == contract.epsilon
      {
        ClearStride(thread);
      }
    }

    /** Every thread clears its stride of both rows. */
    method ClearStride(thread: nat)
      requires Valid() && thread < THREADS
      modifies prior
      ensures forall i :: 0 <= i < prior.Length ==>
                prior[i] == if i % THREADS == thread then contract.epsilon else old(prior[i])
    {
      var i := thread;
      while i < prior.Length
        invariant i % THREADS == thread
        invariant forall j :: 0 <= j < prior.Length ==>
                    prior[j] == if j % THREADS == thread && j < i then contract.epsilon
                                else old(prior[j])
      {
        prior[i] := contract.epsilon;
        i := i + THREADS;
      }
    }

    /** Whether a thread finds its position lit. */
    method Lights(attended: nat, index: nat) returns (one: bool)
      requires attended < length && index < length
      ensures one <==> Lit(contract, length, attended, index)
    {
      one := length <= contract.shortText;
      if !one {
        var floor := Min(1, length - 1);
        var behind := if attended == 0 then 0 else attended - 1;
        var history := if behind < floor then floor else behind;
        one := index == history || index == attended;
        var offset := 1;
        while !one && offset <= contract.lookahead
          invariant 1 <= offset <= contract.lookahead + 1
          invariant one ==> Lit(contract, length, attended, index)
          invariant !one ==>
                      index != History(length, attended)
                      && !(attended <= index < attended + offset)
        {
          one := index == Min(attended + offset, length - 1);
          offset := offset + 1;
        }
      }
    }
  }

  // ---------- against the reference ----------

  /** The last lit position. */
  function Reach(c: Contract, length: nat, attended: nat): nat
    requires attended < length
  {
    if length <= c.shortText then length - 1 else Min(attended + c.lookahead, length - 1)
  }

  lemma LitUpToReach(c: Contract, length: nat, attended: nat, i: nat)
    requires attended < length && i < length && c.lookahead >= 1
    ensures Lit(c, length, attended, i) ==> i <= Reach(c, length, attended)
    ensures i == Reach(c, length, attended) ==> Lit(c, length, attended, i)
  {
  }

  /** The device writes the reference's prior exactly as long as no unmasked lit position lies at or
      beyond the number of its threads: texts of more than 256 tokens lose the ones above. */
  lemma KernelPriorExact(c: Contract, counters: seq<nat>, attended: nat)
    requires attended < |counters| && c.lookahead >= 1
    ensures
      KernelPrior(c, counters, attended) == Prior(c, counters, attended)
      <==> || c.epsilon == 1.0
           || Reach(c, |counters|, attended) < THREADS
           || Sunk(c, counters, Reach(c, |counters|, attended))
  {
    var n, reach := |counters|, Reach(c, |counters|, attended);
    var device, reference := KernelPrior(c, counters, attended), Prior(c, counters, attended);
    if c.epsilon == 1.0 || reach < THREADS || Sunk(c, counters, reach) {
      forall i | 0 <= i < 2 * n ensures device[i] == reference[i] {
        if THREADS <= i < n {
          LitUpToReach(c, n, attended, i);
          if i <= reach && Sunk(c, counters, reach) {
            assert Sunk(c, counters, i);
          }
        }
      }
    } else {
      LitUpToReach(c, n, attended, reach);
      assert device[reach] == c.epsilon && reference[reach] == 1.0;
    }
  }

  /** And the next search is then supported exactly up to position 255. */
  lemma KernelCoverExact(c: Contract, s: State, scores: seq<real>)
    requires Progressing(c, s) && |scores| == |s.counters| && c.sink >= 1
    ensures
      var (t, r) := Next(c, s, scores);
      Covers(c, t, KernelPrior(c, t.counters, r.attended))
      <==> || c.epsilon == 1.0
           || WindowEnd(c, t) <= SearchStart(c, t)
           || WindowEnd(c, t) <= THREADS
  {
    var (t, r) := Next(c, s, scores);
    var device := KernelPrior(c, t.counters, r.attended);
    PriorSupportsNextSearch(c, s, scores);
    forall i | 0 <= i < |t.counters|
      ensures device[i] == if i < THREADS then r.prior[i] else c.epsilon
    {
    }
    if WindowEnd(c, t) > SearchStart(c, t) && WindowEnd(c, t) > THREADS {
      assert device[WindowEnd(c, t) - 1] == c.epsilon;
    }
  }

  // ---------- a run that gets there ----------

  /** Scores that rise along the text: every step attends to the end of its window. */
  function Ramp(length: nat): seq<real> {
    seq(length, i requires 0 <= i => i as real)
  }

  function Ramps(length: nat, n: nat): seq<seq<real>> {
    seq(n, _ => Ramp(length))
  }

  lemma RampStep(s: State)
    requires WellFormed(s) && s.counters[s.last] < SOFIA.sink
    requires s.last + SOFIA.lookahead <= |s.counters| - SOFIA.ignored
    requires forall i :: s.last < i < |s.counters| ==> s.counters[i] == 0
    ensures
      var t := Next(SOFIA, s, Ramp(|s.counters|)).0;
      && t.last == s.last + 5 && t.counters[t.last] == 1
      && forall i :: t.last < i < |t.counters| ==> t.counters[i] == 0
  {
    var lo, hi := s.last, s.last + SOFIA.lookahead;
    FirstMaxUnique(Ramp(|s.counters|), lo, hi, FirstMax(Ramp(|s.counters|), lo, hi), hi - 1);
  }

  /** Each rising step moves five positions on. */
  lemma {:induction false} RampRun(length: nat, n: nat)
    requires 4 <= length <= UINT32_MAX && (n > 0 ==> 5 * n + 2 <= length - 3)
    ensures
      var s := Trace(SOFIA, Initial(length, 1), Ramps(length, n)).0;
      && WellFormed(s) && |s.counters| == length
      && s.last == 1 + 5 * n && s.counters[s.last] <= 1
      && forall i :: s.last < i < length ==> s.counters[i] == 0
  {
    if n > 0 {
      RampRun(length, n - 1);
      var s := Trace(SOFIA, Initial(length, 1), Ramps(length, n - 1)).0;
      TraceExtend(SOFIA, Initial(length, 1), Ramps(length, n - 1), Ramp(length));
      assert Ramps(length, n) == Ramps(length, n - 1) + [Ramp(length)];
      RampStep(s);
    }
  }

  /** For every text the kernel admits of at least 260 tokens, fifty rising steps from the start
      reach a step whose device prior leaves part of the next search window unlit. */
  lemma LongTextUncovered(length: nat)
    requires 260 <= length <= MAXIMUM_TEXT_TOKENS
    ensures
      var s := Trace(SOFIA, Initial(length, 1), Ramps(length, 49)).0;
      && Launchable(SOFIA, length) && WellFormed(s) && |s.counters| == length
      && var (t, r) := Next(SOFIA, s, Ramp(length));
         !Covers(SOFIA, t, KernelPrior(SOFIA, t.counters, r.attended))
  {
    RampRun(length, 49);
    var s := Trace(SOFIA, Initial(length, 1), Ramps(length, 49)).0;
    RampStep(s);
    AttentionMonotone(SOFIA, Initial(length, 1), Ramps(length, 49));
    KernelCoverExact(SOFIA, s, Ramp(length));
  }
}
