/** The exporter's vectorised controller: masks, an argmax over the whole row and scatters, with
    its constants written in. */
module SofiaController {
  import opened Alignment
  import opened Options

  /** prior 0.1, initial 1, ignored 3, short text 5, lookahead 6, sink threshold 4. */
  const SOFIA := Contract(0.1, 1, 3, 5, 6, 4)

  /** The attended position and the conditional and unconditional prior rows. */
  datatype Update = Update(attended: nat, prior: seq<real>)

  /** A score outside the window reads as minus infinity (None). */
  predicate Above(a: Option<real>, b: Option<real>) {
    a.Some? && (b.None? || a.value > b.value)
  }

  class SofiaAlignmentController {
    const length: nat
    var last: nat
    const counters: array<nat>

    ghost predicate Valid()
      reads this, counters
    {
      0 < length <= UINT32_MAX && counters.Length == length && last < length
    }

    function Model(): State
      reads this, counters
    {
      State(last, counters[..])
    }

    constructor (length: nat)
      requires 0 < length <= UINT32_MAX
      ensures Valid() && fresh(counters)
      ensures this.length == length
      ensures Model() == Initial(length, Min(SOFIA.initial, length - 1))
    {
      this.length, last := length, Min(1, length - 1);
      counters := new nat[length](_ => 0);
    }

    method UpdateState(alignment: seq<real>) returns (r: Option<Update>)
      requires Valid()
      modifies this, counters
      ensures Valid()
      ensures r.None? <==> |alignment| != length
      ensures r.None? ==> Model() == old(Model())
      ensures r.Some? ==>
                var (t, step) := Next(SOFIA, old(Model()), alignment);
                Model() == t && r.value == Update(step.attended, step.prior)
    {
      if |alignment| != length {
        return None;
      }
      ghost var before := Model();
      var attended := Attend(alignment);
      last := attended;
      counters[attended] := counters[attended] + 1;
      assert counters[..] == before.counters[attended := before.counters[attended] + 1];
      var prior := ScatterPrior(attended);
      return Some(Update(attended, prior));
    }

    /** The masked argmax, or the last position when the window is empty. */
    method Attend(alignment: seq<real>) returns (attended: nat)
      requires Valid() && |alignment| == length
      ensures attended == Attended(SOFIA, Model(), alignment)
    {
      var searchStart := last + if counters[last] >= 4 then 1 else 0;
      var windowEnd := Min(searchStart + 6, length - 3);
      var masked := MaskScores(alignment, searchStart, windowEnd);
      var maximum := ArgMax(masked);
      attended := if windowEnd > searchStart then maximum else length - 1;
      if windowEnd > searchStart {
        MaskedMaximum(alignment, searchStart, windowEnd, masked, maximum);
        FirstMaxUnique(alignment, searchStart, windowEnd, maximum,
                       FirstMax(alignment, searchStart, windowEnd));
      }
    }

    method MaskScores(alignment: seq<real>, lo: nat, hi: int) returns (masked: seq<Option<real>>)
      requires Valid() && |alignment| == length
      ensures |masked| == length
      ensures forall k :: 0 <= k < length ==>
                masked[k] == if lo <= k < hi then Some(alignment[k]) else None
    {
      masked := seq(length, k requires 0 <= k < length =>
                              if lo <= k < hi then Some(alignment[k]) else None);
    }

    /** The first position no other position is above. */
    method ArgMax(masked: seq<Option<real>>) returns (maximum: nat)
      requires Valid() && |masked| == length
      ensures maximum < length
      ensures forall j :: 0 <= j < length ==> !Above(masked[j], masked[maximum])
      ensures forall j :: 0 <= j < maximum ==> Above(masked[maximum], masked[j])
    {
      maximum := 0;
      for k := 1 to length
        invariant maximum < k
        invariant forall j :: 0 <= j < k ==> !Above(masked[j], masked[maximum])
        invariant forall j :: 0 <= j < maximum ==> Above(masked[maximum], masked[j])
      {
        if Above(masked[k], masked[maximum]) {
          maximum := k;
        }
      }
    }

    lemma MaskedMaximum(alignment: seq<real>, lo: nat, hi: nat, masked: seq<Option<real>>,
                        maximum: nat)
      requires lo < hi <= |alignment| == |masked|
      requires forall k :: 0 <= k < |masked| ==>
                 masked[k] == if lo <= k < hi then Some(alignment[k]) else None
      requires maximum < |masked|
      requires forall j :: 0 <= j < |masked| ==> !Above(masked[j], masked[maximum])
      requires forall j :: 0 <= j < maximum ==> Above(masked[maximum], masked[j])
      ensures IsFirstMax(alignment, lo, hi, maximum)
    {
      assert !Above(masked[lo], masked[maximum]);
      forall j | lo <= j < hi ensures alignment[j] <= alignment[maximum] {
        assert !Above(masked[j], masked[maximum]);
      }
      forall j | lo <= j < maximum ensures alignment[j] < alignment[maximum] {
        assert Above(masked[maximum], masked[j]);
      }
    }

    method ScatterPrior(attended: nat) returns (prior: seq<real>)
      requires Valid() && attended < length
      ensures prior == Prior(SOFIA, counters[..], attended)
    {
      var conditional := Scatter(attended);
      if length <= 5 {
        conditional := seq(length, _ => 1.0);
      }
      var deepest := -1;
      for i := 0 to length
        invariant -1 <= deepest < i
        invariant deepest >= 0 ==> counters[deepest] >= 4
        invariant forall j :: deepest < j < i ==> counters[j] < 4
      {
        var position := if counters[i] < 4 then -1 else i;
        if position > deepest {
          deepest := position;
        }
      }
      conditional := seq(length, i requires 0 <= i < length =>
                                   if i <= deepest then 0.1 else conditional[i]);
      prior := conditional + seq(length, _ => 0.1);
      forall j | 0 <= j < 2 * length
        ensures prior[j] == PriorAt(SOFIA, counters[..], attended, j)
      {
        assert j < length ==> (Sunk(SOFIA, counters[..], j) <==> j <= deepest);
      }
    }

    /** The row of epsilon with ones scattered at the history, attended and lookahead indices. */
    method Scatter(attended: nat) returns (row: seq<real>)
      requires Valid() && attended < length
      ensures |row| == length
      ensures forall j :: 0 <= j < length ==>
                row[j] == if j == History(length, attended)
                             || attended <= j <= attended + SOFIA.lookahead then 1.0 else 0.1
    {
      var floor := Min(1, length - 1);
      var behind := Min(if attended - 1 < floor then floor else attended - 1, length - 1);
      row := seq(length, _ => 0.1);
      row := row[behind := 1.0];
      row := row[attended := 1.0];
      for offset := 1 to 7
        invariant |row| == length
        invariant forall j :: 0 <= j < length ==>
                    row[j] == if j == History(length, attended)
                                 || attended <= j < attended + offset then 1.0 else 0.1
      {
        row := row[Min(attended + offset, length - 1) := 1.0];
      }
    }
  }
}
