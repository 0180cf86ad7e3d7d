/** The dynamic attention-prior controller as a value: which text position a step attends to,
    and the prior handed to the next decoder step. */
module Alignment {

  const UINT32_MAX: nat := 0xFFFF_FFFF

  /** The authenticated controller contract. */
  datatype Contract = Contract(
    epsilon: real,
    initial: nat,
    ignored: nat,
    shortText: nat,
    lookahead: nat,
    sink: nat)

  /** The last attended position and how often each position was attended. */
  datatype State = State(last: nat, counters: seq<nat>)

  datatype StepResult = StepResult(attended: nat, unfinished: bool, prior: seq<real>)

  predicate WellFormed(s: State) {
    s.last < |s.counters| <= UINT32_MAX
  }

  function Initial(length: nat, initial: nat): State {
    State(initial, seq(length, _ => 0))
  }

  function Min(a: int, b: int): int {
    if a < b then a else b
  }

  // ---------- the search window ----------

  function SearchStart(c: Contract, s: State): nat
    requires WellFormed(s)
  {
    if s.counters[s.last] >= c.sink then s.last + 1 else s.last
  }

  function ContentEnd(c: Contract, s: State): int {
    |s.counters| - c.ignored
  }

  function WindowEnd(c: Contract, s: State): int
    requires WellFormed(s)
  {
    Min(SearchStart(c, s) + c.lookahead, ContentEnd(c, s))
  }

  /** The leftmost position of [lo, hi) with the highest score. */
  ghost predicate IsFirstMax(scores: seq<real>, lo: nat, hi: nat, k: nat) {
    && lo <= k < hi <= |scores|
    && (forall j :: lo <= j < hi ==> scores[j] <= scores[k])
    && (forall j :: lo <= j < k ==> scores[j] < scores[k])
  }

  function FirstMax(scores: seq<real>, lo: nat, hi: nat): (k: nat)
    requires lo < hi <= |scores|
    ensures IsFirstMax(scores, lo, hi, k)
    decreases hi - lo
  {
    if lo + 1 == hi then lo
    else
      var rest := FirstMax(scores, lo + 1, hi);
      if scores[rest] > scores[lo] then rest else lo
  }

  lemma FirstMaxUnique(scores: seq<real>, lo: nat, hi: nat, a: nat, b: nat)
    requires IsFirstMax(scores, lo, hi, a) && IsFirstMax(scores, lo, hi, b)
    ensures a == b
  {
    assert scores[a] <= scores[b] <= scores[a];
  }

  /** The window's first maximum, or the last position when the window is empty. */
  function Attended(c: Contract, s: State, scores: seq<real>): (k: nat)
    requires WellFormed(s) && |scores| == |s.counters|
    ensures k < |s.counters|
  {
    if WindowEnd(c, s) > SearchStart(c, s) then
      FirstMax(scores, SearchStart(c, s), WindowEnd(c, s))
    else |s.counters| - 1
  }

  // ---------- the prior ----------

  /** Some position at or after i has reached the sink threshold. */
  predicate Sunk(c: Contract, counters: seq<nat>, i: nat) {
    exists j :: i <= j < |counters| && counters[j] >= c.sink
  }

  /** The position just before the attended one, kept off position 0 where there is a choice. */
  function History(length: nat, attended: nat): nat
    requires attended < length
  {
    if attended >= 2 then attended - 1 else Min(1, length - 1)
  }

  predicate Lit(c: Contract, length: nat, attended: nat, i: nat)
    requires attended < length
  {
    || length <= c.shortText
    || i == History(length, attended)
    || attended <= i <= attended + c.lookahead
  }

  /** Both prior rows: the conditional one, then the unconditional one. */
  function PriorAt(c: Contract, counters: seq<nat>, attended: nat, i: nat): real
    requires attended < |counters|
  {
    if i >= |counters| || Sunk(c, counters, i) then c.epsilon
    else if Lit(c, |counters|, attended, i) then 1.0
    else c.epsilon
  }

  function Prior(c: Contract, counters: seq<nat>, attended: nat): seq<real>
    requires attended < |counters|
  {
    seq(2 * |counters|, i requires 0 <= i => PriorAt(c, counters, attended, i))
  }

  // ---------- one step ----------

  function Moved(s: State, attended: nat): State
    requires attended < |s.counters|
  {
    State(attended, s.counters[attended := s.counters[attended] + 1])
  }

  function Next(c: Contract, s: State, scores: seq<real>): (State, StepResult)
    requires WellFormed(s) && |scores| == |s.counters|
  {
    var attended := Attended(c, s, scores);
    var t := Moved(s, attended);
    (t, StepResult(attended, attended < ContentEnd(c, s), Prior(c, t.counters, attended)))
  }

  predicate Rows(rows: seq<seq<real>>, length: nat) {
    forall k :: 0 <= k < |rows| ==> |rows[k]| == length
  }

  /** A run over any score rows: the final state and every step's result. */
  function Trace(c: Contract, s: State, rows: seq<seq<real>>): (State, seq<StepResult>)
    requires WellFormed(s) && Rows(rows, |s.counters|)
    decreases |rows|
  {
    if rows == [] then (s, [])
    else
      var (t, r) := Next(c, s, rows[0]);
      var (end, rest) := Trace(c, t, rows[1..]);
      (end, [r] + rest)
  }
}
