/** The C++ reference controller: explicit loops over a counter array and a prior vector. */
module AlignmentController {
  import opened Alignment

  datatype Score = Finite(value: real) | NonFinite

  datatype ErrorCode = InvalidTextLength | InvalidScoreCount | NonFiniteScore | StateOverflow

  datatype Outcome<+T> = Ok(value: T) | Err(code: ErrorCode)

  /** What the constructor accepts. */
  predicate Constructible(length: nat, c: Contract) {
    0 < length <= UINT32_MAX && c.ignored < length && c.initial < length
  }

  function Values(scores: seq<Score>): seq<real>
    requires forall k :: 0 <= k < |scores| ==> scores[k].Finite?
  {
    seq(|scores|, k requires 0 <= k < |scores| => scores[k].value)
  }

  class AlignmentControllerReference {
    const contract: Contract
    const length: nat
    var last: nat
    const counters: array<nat>

    ghost predicate Valid()
      reads this, counters
    {
      && counters.Length == length
      && Constructible(length, contract)
      && last < length
    }

    function Model(): State
      reads this, counters
    {
      State(last, counters[..])
    }

    constructor (length: nat, contract: Contract)
      requires Constructible(length, contract)
      ensures Valid() && fresh(counters)
      ensures this.contract == contract && Model() == Initial(length, contract.initial)
    {
      this.contract, this.length, last := contract, length, contract.initial;
      counters := new nat[length](_ => 0);
    }

    /** One step. An overflowing counter is reported after the position has already moved. */
    method Advance(scores: seq<Score>) returns (r: Outcome<StepResult>)
      requires Valid()
      modifies this, counters
      ensures Valid()
      ensures |scores| != length ==> r == Err(InvalidScoreCount) && Model() == old(Model())
      ensures |scores| == length && (exists k :: 0 <= k < length && scores[k].NonFinite?) ==>
                r == Err(NonFiniteScore) && Model() == old(Model())
      ensures |scores| == length && (forall k :: 0 <= k < length ==> scores[k].Finite?) ==>
                var attended := Attended(contract, old(Model()), Values(scores));
                if old(counters[..])[attended] == UINT32_MAX then
                  r == Err(StateOverflow) && Model() == old(Model()).(last := attended)
                else
                  && r.Ok?
                  && (Model(), r.value) == Next(contract, old(Model()), Values(scores))
    {
      if |scores| != length {
        return Err(InvalidScoreCount);
      }
      for k := 0 to |scores|
        invariant forall j :: 0 <= j < k ==> scores[j].Finite?
      {
        if scores[k].NonFinite? {
          return Err(NonFiniteScore);
        }
      }
      ghost var before := Model();
      var attended := Search(scores);
      last := attended;
      if counters[attended] == UINT32_MAX {
        assert counters[..] == before.counters;
        return Err(StateOverflow);
      }
      counters[attended] := counters[attended] + 1;
      assert counters[..] == before.counters[attended := before.counters[attended] + 1];
      var prior := BuildPrior(attended);
      return Ok(StepResult(attended, attended < length - contract.ignored, prior));
    }

    method Search(scores: seq<Score>) returns (attended: nat)
      requires Valid() && |scores| == length
      requires forall k :: 0 <= k < length ==> scores[k].Finite?
      ensures attended == Attended(contract, Model(), Values(scores))
    {
      var searchStart := last;
      if counters[last] >= contract.sink {
        searchStart := searchStart + 1;
      }
      var contentEnd := length - contract.ignored;
      var requested := searchStart + contract.lookahead;
      var windowEnd := Min(Min(requested, UINT32_MAX), contentEnd);
      attended := length - 1;
      if windowEnd > searchStart {
        attended := searchStart;
        var best := scores[searchStart].value;
        var k := searchStart + 1;
        while k < windowEnd
          invariant searchStart < k <= windowEnd
          invariant IsFirstMax(Values(scores), searchStart, k, attended)
          invariant best == scores[attended].value
        {
          if scores[k].value > best {
            attended, best := k, scores[k].value;
          }
          k := k + 1;
        }
        FirstMaxUnique(Values(scores), searchStart, windowEnd, attended,
                       FirstMax(Values(scores), searchStart, windowEnd));
      }
    }

    method BuildPrior(attended: nat) returns (prior: seq<real>)
      requires Valid() && attended < length
      ensures prior == Prior(contract, counters[..], attended)
    {
      var row := LightPositions(attended);
      var deepest := DeepestSink();
      var i := 0;
      while i < deepest + 1
        invariant 0 <= i <= deepest + 1
        invariant row.Length == 2 * length && fresh(row)
        invariant forall j :: 0 <= j < i ==> row[j] == contract.epsilon
        invariant forall j :: i <= j < 2 * length ==>
                    row[j] == if j < length && Lit(contract, length, attended, j) then 1.0
                              else contract.epsilon
      {
        row[i] := contract.epsilon;
        i := i + 1;
      }
      prior := row[..];
      forall j | 0 <= j < 2 * length
        ensures prior[j] == PriorAt(contract, counters[..], attended, j)
      {
        assert j < length ==> (Sunk(contract, counters[..], j) <==> j <= deepest);
      }
    }

    /** The conditional row before sinks are masked; the unconditional row. */
    method LightPositions(attended: nat) returns (row: array<real>)
      requires Valid() && attended < length
      ensures fresh(row) && row.Length == 2 * length
      ensures forall j :: 0 <= j < 2 * length ==>
                row[j] == if j < length && Lit(contract, length, attended, j) then 1.0
                          else contract.epsilon
    {
      row := new real[2 * length](_ => contract.epsilon);
      if length <= contract.shortText {
        var i := 0;
        while i < length
          invariant 0 <= i <= length
          invariant forall j :: 0 <= j < 2 * length ==>
                      row[j] == if j < i then 1.0 else contract.epsilon
        {
          row[i] := 1.0;
          i := i + 1;
        }
        return;
      }
      var floor := Min(1, length - 1);
      var behind := if attended == 0 then 0 else attended - 1;
      var history := if behind < floor then floor else Min(behind, length - 1);
      row[history] := 1.0;
      row[attended] := 1.0;
      var offset := 1;
      while offset <= contract.lookahead
        invariant 1 <= offset <= contract.lookahead + 1
        invariant forall j :: 0 <= j < 2 * length ==>
                    row[j] == if j < length && (j == History(length, attended)
                                                || attended <= j < attended + offset) then 1.0
                              else contract.epsilon
      {
        row[Min(attended + offset, length - 1)] := 1.0;
        offset := offset + 1;
      }
    }

    method DeepestSink() returns (deepest: int)
      requires Valid()
      ensures -1 <= deepest < length
      ensures deepest >= 0 ==> counters[deepest] >= contract.sink
      ensures forall j :: deepest < j < length ==> counters[j] < contract.sink
    {
      deepest := -1;
      for i := 0 to length
        invariant -1 <= deepest < i
        invariant deepest >= 0 ==> counters[deepest] >= contract.sink
        invariant forall j :: deepest < j < i ==> counters[j] < contract.sink
      {
        if counters[i] >= contract.sink {
          deepest := i;
        }
      }
    }
  }
}
