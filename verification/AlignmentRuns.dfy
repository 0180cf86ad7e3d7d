/** Whole runs of the alignment controller: progress, the absorbing end, the prior's cover of the
    next search, and the agreement of the two implementations. */
module AlignmentRuns {
  import opened Alignment
  import opened AlignmentController
  import opened SofiaController

  function Max(a: int, b: int): int {
    if a < b then b else a
  }

  /** How often a position short of the last one can be attended. */
  function Cap(c: Contract): nat {
    Max(c.sink, 1)
  }

  /** Positions ahead are untouched; no position short of the last exceeds the cap. */
  predicate Progressing(c: Contract, s: State) {
    && WellFormed(s)
    && (forall i :: s.last < i < |s.counters| ==> s.counters[i] == 0)
    && (forall i :: 0 <= i < |s.counters| - 1 ==> s.counters[i] <= Cap(c))
  }

  lemma StepProgress(c: Contract, s: State, scores: seq<real>)
    requires Progressing(c, s) && |scores| == |s.counters|
    ensures var (t, r) := Next(c, s, scores);
            && Progressing(c, t) && |t.counters| == |s.counters|
            && r.attended == t.last >= s.last
  {
  }

  // ---------- the bound on unfinished steps ----------

  function UnfinishedSteps(steps: seq<StepResult>): nat {
    if steps == [] then 0 else (if steps[0].unfinished then 1 else 0) + UnfinishedSteps(steps[1..])
  }

  function Visits(counters: seq<nat>, lo: nat, hi: int): nat
    decreases hi - lo
  {
    if hi <= lo || lo >= |counters| then 0 else counters[lo] + Visits(counters, lo + 1, hi)
  }

  lemma {:induction false} VisitsBump(counters: seq<nat>, k: nat, lo: nat, hi: int)
    requires k < |counters| && hi <= |counters|
    ensures Visits(counters[k := counters[k] + 1], lo, hi)
         == Visits(counters, lo, hi) + if lo <= k < hi then 1 else 0
    decreases hi - lo
  {
    if lo < hi {
      VisitsBump(counters, k, lo + 1, hi);
    }
  }

  lemma {:induction false} VisitsBounded(counters: seq<nat>, cap: nat, lo: nat, hi: int)
    requires lo <= hi <= |counters|
    requires forall i :: lo <= i < hi ==> counters[i] <= cap
    ensures Visits(counters, lo, hi) <= cap * (hi - lo)
    decreases hi - lo
  {
    if lo < hi {
      VisitsBounded(counters, cap, lo + 1, hi);
      assert cap * (hi - lo) == cap + cap * (hi - (lo + 1));
    }
  }

  /** Each unfinished step is one visit to the content positions. */
  lemma {:induction false} UnfinishedAreVisits(c: Contract, s: State, rows: seq<seq<real>>,
                                               lo: nat)
    requires Progressing(c, s) && Rows(rows, |s.counters|)
    requires lo <= s.last
    ensures
      var (t, steps) := Trace(c, s, rows);
      && Progressing(c, t) && |t.counters| == |s.counters| && lo <= t.last
      && UnfinishedSteps(steps)
         == Visits(t.counters, lo, ContentEnd(c, s)) - Visits(s.counters, lo, ContentEnd(c, s))
    decreases |rows|
  {
    if rows != [] {
      var (t, r) := Next(c, s, rows[0]);
      StepProgress(c, s, rows[0]);
      VisitsBump(s.counters, r.attended, lo, ContentEnd(c, s));
      UnfinishedAreVisits(c, t, rows[1..], lo);
      UnfinishedFirst(r, Trace(c, t, rows[1..]).1);
    }
  }

  lemma UnfinishedFirst(r: StepResult, rest: seq<StepResult>)
    ensures UnfinishedSteps([r] + rest)
         == (if r.unfinished then 1 else 0) + UnfinishedSteps(rest)
  {
    assert ([r] + rest)[1..] == rest;
  }

  lemma {:induction false} FreshVisits(length: nat, initial: nat, lo: nat, hi: int)
    ensures Visits(Initial(length, initial).counters, lo, hi) == 0
    decreases hi - lo
  {
    if lo < hi && lo < length {
      FreshVisits(length, initial, lo + 1, hi);
    }
  }

  /** Alignment makes progress: whatever the scores, at most cap * (content_end - initial) steps
      report unfinished text, provided some terminal token is ignored. */
  lemma UnfinishedBounded(c: Contract, length: nat, rows: seq<seq<real>>)
    requires Constructible(length, c) && c.ignored >= 1 && Rows(rows, length)
    ensures var (t, steps) := Trace(c, Initial(length, c.initial), rows);
            UnfinishedSteps(steps) <= Cap(c) * Max(length - c.ignored - c.initial, 0)
  {
    var s := Initial(length, c.initial);
    var hi := length - c.ignored;
    UnfinishedAreVisits(c, s, rows, c.initial);
    FreshVisits(length, c.initial, c.initial, hi);
    var (t, steps) := Trace(c, s, rows);
    if c.initial <= hi {
      VisitsBounded(t.counters, Cap(c), c.initial, hi);
    }
  }

  /** The condition is exact: with no ignored token, no step of any run ever reports an end. */
  lemma {:induction false} NothingIgnoredNeverFinishes(c: Contract, s: State,
                                                       rows: seq<seq<real>>)
    requires WellFormed(s) && Rows(rows, |s.counters|) && c.ignored == 0
    ensures var (t, steps) := Trace(c, s, rows);
            UnfinishedSteps(steps) == |rows|
    decreases |rows|
  {
    if rows != [] {
      var (t, r) := Next(c, s, rows[0]);
      NothingIgnoredNeverFinishes(c, t, rows[1..]);
      UnfinishedFirst(r, Trace(c, t, rows[1..]).1);
    }
  }

  // ---------- monotone attention with an absorbing end ----------

  /** Attended positions never fall; each position short of the last is attended at most cap
      times; and once a step is finished, every later one is, at the last position. */
  lemma AttentionMonotone(c: Contract, s: State, rows: seq<seq<real>>)
    requires Progressing(c, s) && Rows(rows, |s.counters|)
    ensures
      var (t, steps) := Trace(c, s, rows);
      && |steps| == |rows| && Progressing(c, t)
      && (forall i :: 0 <= i < |steps| ==> s.last <= steps[i].attended)
      && (forall i, j :: 0 <= i < j < |steps| ==> steps[i].attended <= steps[j].attended)
      && (c.ignored >= 1 ==>
            forall i, j :: 0 <= i <= j < |steps| && !steps[i].unfinished ==>
              !steps[j].unfinished && steps[j].attended == |s.counters| - 1)
  {
    AttentionOrdered(c, s, rows);
    if c.ignored >= 1 {
      FinishedStays(c, s, rows);
    }
  }

  lemma {:induction false} AttentionOrdered(c: Contract, s: State, rows: seq<seq<real>>)
    requires Progressing(c, s) && Rows(rows, |s.counters|)
    ensures
      var (t, steps) := Trace(c, s, rows);
      && |steps| == |rows| && Progressing(c, t)
      && (forall i :: 0 <= i < |steps| ==> s.last <= steps[i].attended)
      && (forall i, j :: 0 <= i < j < |steps| ==> steps[i].attended <= steps[j].attended)
    decreases |rows|
  {
    if rows != [] {
      var (t, r) := Next(c, s, rows[0]);
      StepProgress(c, s, rows[0]);
      AttentionOrdered(c, t, rows[1..]);
      OrderedFirst(r, Trace(c, t, rows[1..]).1, t.last);
    }
  }

  lemma OrderedFirst(r: StepResult, rest: seq<StepResult>, last: nat)
    requires r.attended == last
    requires forall i :: 0 <= i < |rest| ==> last <= rest[i].attended
    requires forall i, j :: 0 <= i < j < |rest| ==> rest[i].attended <= rest[j].attended
    ensures var steps := [r] + rest;
            && (forall i :: 0 <= i < |steps| ==> last <= steps[i].attended)
            && forall i, j :: 0 <= i < j < |steps| ==> steps[i].attended <= steps[j].attended
  {
  }

  lemma {:induction false} FinishedStays(c: Contract, s: State, rows: seq<seq<real>>)
    requires Progressing(c, s) && Rows(rows, |s.counters|) && c.ignored >= 1
    ensures
      var (t, steps) := Trace(c, s, rows);
      && |steps| == |rows|
      && forall i, j :: 0 <= i <= j < |steps| && !steps[i].unfinished ==>
           !steps[j].unfinished && steps[j].attended == |s.counters| - 1
    decreases |rows|
  {
    if rows != [] {
      var (t, r) := Next(c, s, rows[0]);
      StepProgress(c, s, rows[0]);
      FinishedStays(c, t, rows[1..]);
      if !r.unfinished {
        EndAbsorbs(c, t, rows[1..]);
      }
    }
  }

  lemma {:induction false} EndAbsorbs(c: Contract, s: State, rows: seq<seq<real>>)
    requires WellFormed(s) && Rows(rows, |s.counters|)
    requires c.ignored >= 1 && s.last == |s.counters| - 1
    ensures
      var (t, steps) := Trace(c, s, rows);
      && |steps| == |rows|
      && forall i :: 0 <= i < |steps| ==>
           !steps[i].unfinished && steps[i].attended == |s.counters| - 1
    decreases |rows|
  {
    if rows != [] {
      var (t, r) := Next(c, s, rows[0]);
      EndAbsorbs(c, t, rows[1..]);
    }
  }

  // ---------- the prior covers the next search ----------

  /** Each position the next step will search has conditional prior 1.0 in spite of the sink
      mask; each position at or below a sunk one is epsilon; the unconditional row is epsilon. */
  lemma PriorSupportsNextSearch(c: Contract, s: State, scores: seq<real>)
    requires Progressing(c, s) && |scores| == |s.counters| && c.sink >= 1
    ensures
      var (t, r) := Next(c, s, scores);
      var n := |s.counters|;
      && |r.prior| == 2 * n
      && (forall i :: SearchStart(c, t) <= i < WindowEnd(c, t) && i < n ==> r.prior[i] == 1.0)
      && (forall i, j :: 0 <= i <= j < n && t.counters[j] >= c.sink ==> r.prior[i] == c.epsilon)
      && (forall i :: n <= i < 2 * n ==> r.prior[i] == c.epsilon)
  {
    var (t, r) := Next(c, s, scores);
    StepProgress(c, s, scores);
    forall i | SearchStart(c, t) <= i < WindowEnd(c, t) && i < |s.counters|
      ensures r.prior[i] == 1.0
    {
      assert !Sunk(c, t.counters, i);
    }
    forall i, j | 0 <= i <= j < |s.counters| && t.counters[j] >= c.sink
      ensures r.prior[i] == c.epsilon
    {
      assert Sunk(c, t.counters, i);
    }
  }

  /** The position before the attended one, but not position 0 unless that is attended itself. */
  function Behind(attended: nat): nat {
    if attended <= 1 then attended else attended - 1
  }

  /** The whole prior in one sentence: 1.0 on one unbroken stretch of the conditional row, from just
      behind the attended position to the lookahead, or on all of a short text, less what is sunk;
      epsilon everywhere else. */
  lemma PriorIsOneStretch(c: Contract, counters: seq<nat>, attended: nat)
    requires attended < |counters| && c.lookahead >= 1
    ensures
      var n, prior := |counters|, Prior(c, counters, attended);
      && |prior| == 2 * n
      && forall i :: 0 <= i < 2 * n ==>
           prior[i] == if && i < n && !Sunk(c, counters, i)
                          && (n <= c.shortText
                              || Behind(attended) <= i <= attended + c.lookahead)
                       then 1.0 else c.epsilon
  {
  }

  /** With threshold zero every prior is epsilon throughout. */
  lemma ZeroThresholdMasksEverything(c: Contract, s: State, scores: seq<real>)
    requires WellFormed(s) && |scores| == |s.counters| && c.sink == 0
    ensures var (t, r) := Next(c, s, scores);
            forall i :: 0 <= i < |r.prior| ==> r.prior[i] == c.epsilon
  {
    var (t, r) := Next(c, s, scores);
    forall i | 0 <= i < |r.prior| ensures r.prior[i] == c.epsilon {
      assert i < |t.counters| ==> t.counters[i] >= c.sink;
    }
  }

  /** Every position the next step will search is lit. */
  predicate Covers(c: Contract, t: State, prior: seq<real>)
    requires WellFormed(t) && |prior| == 2 * |t.counters|
  {
    forall i :: SearchStart(c, t) <= i < WindowEnd(c, t) && i < |t.counters| ==> prior[i] == 1.0
  }

  /** Exactly when a step's prior covers the next search: under a positive threshold always, under
      threshold zero only where there is nothing to search or epsilon itself is 1.0. */
  lemma PriorCoverExact(c: Contract, s: State, scores: seq<real>)
    requires Progressing(c, s) && |scores| == |s.counters|
    ensures
      var (t, r) := Next(c, s, scores);
      && |r.prior| == 2 * |t.counters|
      && (Covers(c, t, r.prior)
          <==> c.sink >= 1 || WindowEnd(c, t) <= SearchStart(c, t) || c.epsilon == 1.0)
  {
    var (t, r) := Next(c, s, scores);
    if c.sink >= 1 {
      PriorSupportsNextSearch(c, s, scores);
    } else {
      ZeroThresholdMasksEverything(c, s, scores);
      if SearchStart(c, t) < WindowEnd(c, t) {
        assert r.prior[SearchStart(c, t)] == c.epsilon;
      }
    }
  }

  /** A first step under threshold zero whose next search window is not lit. */
  lemma ZeroThresholdUncovered()
    ensures
      var c := Contract(0.1, 0, 1, 0, 6, 0);
      var (t, r) := Next(c, Initial(8, 0), seq(8, _ => 0.0));
      |r.prior| == 16 && SearchStart(c, t) < WindowEnd(c, t) && !Covers(c, t, r.prior)
  {
    PriorCoverExact(Contract(0.1, 0, 1, 0, 6, 0), Initial(8, 0), seq(8, _ => 0.0));
  }

  // ---------- the two implementations ----------

  function AllFinite(row: seq<real>): seq<Score> {
    seq(|row|, k requires 0 <= k < |row| => Finite(row[k]))
  }

  /** Both controllers in the same state, given the same scores, make the same step. */
  method StepBoth(cpp: AlignmentControllerReference, py: SofiaAlignmentController,
                  row: seq<real>)
    returns (a: StepResult, b: Update)
    requires cpp.Valid() && py.Valid() && cpp.counters != py.counters
    requires cpp.length == py.length == |row| && cpp.contract == SOFIA
    requires cpp.Model() == py.Model()
    requires forall i :: 0 <= i < cpp.length ==> cpp.counters[i] < UINT32_MAX
    modifies cpp, py, cpp.counters, py.counters
    ensures cpp.Valid() && py.Valid()
    ensures (cpp.Model(), a) == Next(SOFIA, old(cpp.Model()), row)
    ensures py.Model() == cpp.Model() && b == Update(a.attended, a.prior)
  {
    assert Values(AllFinite(row)) == row;
    ghost var s := cpp.Model();
    var r := cpp.Advance(AllFinite(row));
    assert r.Ok?;
    a := r.value;
    var u := py.UpdateState(row);
    b := u.value;
  }

  /** Drives both controllers over the same score rows. For every text of at least four tokens
      and every run short of counter overflow, they attend to the same positions, build the same
      priors and end with the same counters, step by step. */
  method RunBoth(length: nat, rows: seq<seq<real>>)
    returns (reference: seq<StepResult>, vectorised: seq<Update>, first: State, second: State)
    requires 4 <= length <= UINT32_MAX && Rows(rows, length) && |rows| <= UINT32_MAX
    ensures (first, reference) == Trace(SOFIA, Initial(length, 1), rows)
    ensures first == second
    ensures |reference| == |vectorised| == |rows|
    ensures forall k :: 0 <= k < |rows| ==>
              vectorised[k] == Update(reference[k].attended, reference[k].prior)
  {
    var cpp := new AlignmentControllerReference(length, SOFIA);
    var py := new SofiaAlignmentController(length);
    reference, vectorised := [], [];
    var k := 0;
    while k < |rows|
      invariant 0 <= k <= |rows|
      invariant cpp.Valid() && py.Valid() && cpp.counters != py.counters
      invariant fresh(cpp) && fresh(py) && fresh(cpp.counters) && fresh(py.counters)
      invariant cpp.length == py.length == length && cpp.contract == SOFIA
      invariant cpp.Model() == py.Model()
      invariant (cpp.Model(), reference) == Trace(SOFIA, Initial(length, 1), rows[..k])
      invariant Agree(reference, vectorised, k)
    {
      CountersSlow(SOFIA, Initial(length, 1), rows[..k], 0);
      var a, b := StepBoth(cpp, py, rows[k]);
      TracePrefix(SOFIA, Initial(length, 1), rows, k);
      AgreeExtend(reference, vectorised, k, a, b);
      reference, vectorised := reference + [a], vectorised + [b];
      k := k + 1;
    }
    assert rows[..k] == rows;
    first, second := cpp.Model(), py.Model();
  }

  /** The first k results of both controllers are the same. */
  predicate Agree(reference: seq<StepResult>, vectorised: seq<Update>, k: nat) {
    && |reference| == |vectorised| == k
    && forall i :: 0 <= i < k ==>
         vectorised[i] == Update(reference[i].attended, reference[i].prior)
  }

  lemma AgreeExtend(reference: seq<StepResult>, vectorised: seq<Update>, k: nat, a: StepResult,
                    b: Update)
    requires Agree(reference, vectorised, k) && b == Update(a.attended, a.prior)
    ensures Agree(reference + [a], vectorised + [b], k + 1)
  {
  }

  lemma TracePrefix(c: Contract, s: State, rows: seq<seq<real>>, k: nat)
    requires WellFormed(s) && Rows(rows, |s.counters|) && k < |rows|
    ensures
      var (t, steps) := Trace(c, s, rows[..k]);
      && WellFormed(t) && |t.counters| == |s.counters|
      && Trace(c, s, rows[..k + 1])
         == (Next(c, t, rows[k]).0, steps + [Next(c, t, rows[k]).1])
  {
    TraceExtend(c, s, rows[..k], rows[k]);
    assert rows[..k + 1] == rows[..k] + [rows[k]];
  }

  /** No counter grows by more than one a step. */
  lemma {:induction false} CountersSlow(c: Contract, s: State, rows: seq<seq<real>>, k: nat)
    requires WellFormed(s) && Rows(rows, |s.counters|)
    requires forall i :: 0 <= i < |s.counters| ==> s.counters[i] <= k
    ensures var t := Trace(c, s, rows).0;
            && |t.counters| == |s.counters|
            && forall i :: 0 <= i < |t.counters| ==> t.counters[i] <= k + |rows|
    decreases |rows|
  {
    if rows != [] {
      CountersSlow(c, Next(c, s, rows[0]).0, rows[1..], k + 1);
    }
  }

  lemma {:induction false} TraceExtend(c: Contract, s: State, rows: seq<seq<real>>,
                                       row: seq<real>)
    requires WellFormed(s) && Rows(rows, |s.counters|) && |row| == |s.counters|
    ensures |Trace(c, s, rows).0.counters| == |s.counters| && WellFormed(Trace(c, s, rows).0)
    ensures var (t, steps) := Trace(c, s, rows);
            var (u, r) := Next(c, t, row);
            Trace(c, s, rows + [row]) == (u, steps + [r])
    decreases |rows|
  {
    if rows == [] {
      var (u, r) := Next(c, s, row);
      assert rows + [row] == [row] && [row][1..] == [] && Trace(c, u, []) == (u, []);
      assert [r] + [] == [] + [r];
    } else {
      var (t, r) := Next(c, s, rows[0]);
      TraceExtend(c, t, rows[1..], row);
      assert (rows + [row])[1..] == rows[1..] + [row];
      var (end, rest) := Trace(c, t, rows[1..]);
      assert [r] + (rest + [Next(c, end, row).1]) == ([r] + rest) + [Next(c, end, row).1];
    }
  }
}
