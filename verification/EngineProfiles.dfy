/** Optimization profiles against engine inputs: as many ranges as inputs that need one, each of
    them fitting its input, and that this means one range for each. */
module EngineProfiles {
  import opened Options
  import opened Request
  import opened TensorNames

  /** Minimum, optimum and maximum of a tensor's dimensions, or of its values. */
  datatype Range = Range(name: string, minimum: seq<int>, optimum: seq<int>, maximum: seq<int>)

  predicate Dynamic(t: TensorSpec) {
    -1 in t.traits.shape
  }

  predicate ShapeInput(t: TensorSpec) {
    t.traits.shapeInference
  }

  /** The names of the inputs that need a range of one kind. */
  function NamesOf(inputs: seq<TensorSpec>, needs: TensorSpec -> bool): seq<string> {
    if inputs == [] then []
    else (if needs(inputs[0]) then [inputs[0].name] else []) + NamesOf(inputs[1..], needs)
  }

  function InputNamed(inputs: seq<TensorSpec>, name: string): Option<TensorSpec> {
    if inputs == [] then None
    else if inputs[0].name == name then Some(inputs[0])
    else InputNamed(inputs[1..], name)
  }

  function RangeNames(ranges: seq<Range>): seq<string> {
    seq(|ranges|, i requires 0 <= i < |ranges| => ranges[i].name)
  }

  // ---------- shape ranges ----------

  /** A range fits its input: same rank, and static dimensions pinned. */
  predicate ShapeFits(r: Range, t: TensorSpec) {
    && Dynamic(t)
    && |r.minimum| == |r.optimum| == |r.maximum| == |t.traits.shape|
    && forall d :: 0 <= d < |r.minimum| ==>
         var declared := t.traits.shape[d];
         declared == -1 || r.minimum[d] == r.optimum[d] == r.maximum[d] == declared
  }

  /** A shape an input may take: its static dimensions as declared. */
  predicate InstanceOf(shape: seq<int>, declared: seq<int>) {
    && |shape| == |declared|
    && forall d :: 0 <= d < |shape| ==> declared[d] == -1 || shape[d] == declared[d]
  }

  /** A range fits exactly when its three shapes are ones the input may take, and it has a choice. */
  lemma FittingRange(r: Range, t: TensorSpec)
    ensures ShapeFits(r, t) <==>
            && -1 in t.traits.shape
            && InstanceOf(r.minimum, t.traits.shape)
            && InstanceOf(r.optimum, t.traits.shape)
            && InstanceOf(r.maximum, t.traits.shape)
  {
  }

  predicate ShapeRangeFits(r: Range, inputs: seq<TensorSpec>) {
    var t := InputNamed(inputs, r.name);
    t.Some? && ShapeFits(r, t.value)
  }

  /** The number of inputs that need a range. */
  method CountInputs(inputs: seq<TensorSpec>, needs: TensorSpec -> bool) returns (count: nat)
    ensures count == |NamesOf(inputs, needs)|
  {
    count := 0;
    for i := 0 to |inputs|
      invariant |NamesOf(inputs, needs)| == count + |NamesOf(inputs[i..], needs)|
    {
      assert inputs[i..][1..] == inputs[i + 1..];
      if needs(inputs[i]) {
        count := count + 1;
      }
    }
  }

  /** The shape half of the validation. Ranges already carry equal-length bounds. */
  method ValidateShapeRanges(ranges: seq<Range>, inputs: seq<TensorSpec>) returns (ok: bool)
    requires forall i :: 0 <= i < |ranges| ==>
               |ranges[i].minimum| == |ranges[i].optimum| == |ranges[i].maximum|
    ensures ok <==>
            && |ranges| == |NamesOf(inputs, Dynamic)|
            && forall i :: 0 <= i < |ranges| ==> ShapeRangeFits(ranges[i], inputs)
  {
    var count := CountInputs(inputs, Dynamic);
    if |ranges| != count {
      return false;
    }
    for i := 0 to |ranges|
      invariant forall k :: 0 <= k < i ==> ShapeRangeFits(ranges[k], inputs)
    {
      var r := ranges[i];
      var found := InputNamed(inputs, r.name);
      if found.None? || !Dynamic(found.value) {
        return false;
      }
      var shape := found.value.traits.shape;
      if |r.minimum| != |shape| {
        return false;
      }
      for d := 0 to |shape|
        invariant forall k :: 0 <= k < d ==>
                    shape[k] == -1
                    || r.minimum[k] == r.optimum[k] == r.maximum[k] == shape[k]
      {
        if shape[d] != -1
           && (r.minimum[d] != shape[d] || r.optimum[d] != shape[d] || r.maximum[d] != shape[d]) {
          return false;
        }
      }
    }
    ok := true;
  }

  // ---------- value ranges ----------

  /** The number of values of a fixed shape. */
  function Volume(shape: seq<int>): int {
    if shape == [] then 1 else Volume(shape[..|shape| - 1]) * shape[|shape| - 1]
  }

  /** One dimension counts for itself, and the volumes of a split shape multiply. */
  lemma {:induction false} VolumeMultiplies(a: seq<int>, b: seq<int>)
    ensures Volume(a + b) == Volume(a) * Volume(b)
    ensures |a| == 1 ==> Volume(a) == a[0]
    decreases |b|
  {
    if |a| == 1 {
      assert a[..0] == [];
    }
    if b == [] {
      assert a + b == a;
    } else {
      var n := |b| - 1;
      VolumeMultiplies(a, b[..n]);
      assert (a + b)[..|a + b| - 1] == a + b[..n];
      Associates(Volume(a), Volume(b[..n]), b[n]);
    }
  }

  lemma Associates(x: int, y: int, z: int)
    ensures (x * y) * z == x * (y * z)
  {
  }

  predicate Fixed(shape: seq<int>) {
    forall d :: 0 <= d < |shape| ==> shape[d] > 0
  }

  lemma {:induction false} VolumePositive(shape: seq<int>)
    requires Fixed(shape)
    ensures Volume(shape) >= 1
    decreases |shape|
  {
    if shape != [] {
      VolumePositive(shape[..|shape| - 1]);
      Grows(Volume(shape[..|shape| - 1]), shape[|shape| - 1]);
    }
  }

  lemma Grows(a: int, d: int)
    requires a >= 1 && d >= 1
    ensures a * d >= a && a * d >= 1
  {
    assert a * d == a + a * (d - 1);
  }

  /** The volume of a longer shape is no smaller. */
  lemma {:induction false} VolumeGrows(shape: seq<int>, k: nat)
    requires Fixed(shape) && k <= |shape|
    ensures Volume(shape[..k]) <= Volume(shape)
    decreases |shape|
  {
    if k < |shape| {
      var n := |shape| - 1;
      VolumeGrows(shape[..n], k);
      VolumePositive(shape[..n]);
      Grows(Volume(shape[..n]), shape[n]);
      assert shape[..n][..k] == shape[..k];
    } else {
      assert shape[..k] == shape;
    }
  }

  lemma Quotient(n: nat, d: nat)
    requires d >= 1
    ensures n == (n / d) * d + n % d && 0 <= n % d < d
  {
  }

  lemma Scaled(a: int, b: int, d: int)
    requires a <= b && d >= 1
    ensures a * d <= b * d
  {
  }

  lemma OneMore(q: int, d: int)
    ensures (q + 1) * d == q * d + d
  {
  }

  /** The overflow guard before a multiplication admits exactly the products that fit. */
  lemma GuardExact(n: nat, a: nat, d: nat)
    requires d >= 1
    ensures a > n / d <==> a * d > n
  {
    Quotient(n, d);
    if a > n / d {
      Scaled(n / d + 1, a, d);
      OneMore(n / d, d);
    } else {
      Scaled(a, n / d, d);
    }
  }

  /** The value count of a shape, None where it is not fixed or does not fit 64 bits. */
  method CountValues(shape: seq<int>) returns (r: Option<nat>)
    ensures r.Some? <==> Fixed(shape) && Volume(shape) <= UINT64_MAX
    ensures r.Some? ==> r.value == Volume(shape)
  {
    var expected := 1;
    for d := 0 to |shape|
      invariant Fixed(shape[..d]) && 1 <= expected == Volume(shape[..d]) <= UINT64_MAX
    {
      assert shape[..d + 1][..d] == shape[..d];
      if shape[d] <= 0 {
        return None;
      }
      GuardExact(UINT64_MAX, expected, shape[d]);
      Grows(expected, shape[d]);
      if expected > UINT64_MAX / shape[d] {
        if Fixed(shape) {
          VolumeGrows(shape, d + 1);
        }
        return None;
      }
      expected := expected * shape[d];
    }
    assert shape[..|shape|] == shape;
    return Some(expected);
  }

  /** A value range fits a shape input with a fixed, representable number of values. */
  predicate ValueFits(r: Range, t: TensorSpec) {
    && ShapeInput(t)
    && Fixed(t.traits.shape)
    && Volume(t.traits.shape) == |r.minimum| <= UINT64_MAX
  }

  /** A value range fits exactly when it gives a shape input one value for each of its elements. */
  lemma FittingValues(r: Range, t: TensorSpec)
    ensures ValueFits(r, t) <==>
            && t.traits.shapeInference && 0 < |r.minimum| <= UINT64_MAX
            && (forall d :: d in t.traits.shape ==> d >= 1)
            && Volume(t.traits.shape) == |r.minimum|
  {
    var shape := t.traits.shape;
    if forall d :: d in shape ==> d >= 1 {
      forall k | 0 <= k < |shape| ensures shape[k] > 0 {
        assert shape[k] in shape;
      }
    }
    if Fixed(shape) {
      VolumePositive(shape);
    }
  }

  predicate ValueRangeFits(r: Range, inputs: seq<TensorSpec>) {
    var t := InputNamed(inputs, r.name);
    t.Some? && ValueFits(r, t.value)
  }

  /** The value half of the validation. */
  method ValidateValueRanges(ranges: seq<Range>, inputs: seq<TensorSpec>) returns (ok: bool)
    ensures ok <==>
            && |ranges| == |NamesOf(inputs, ShapeInput)|
            && forall i :: 0 <= i < |ranges| ==> ValueRangeFits(ranges[i], inputs)
  {
    var count := CountInputs(inputs, ShapeInput);
    if |ranges| != count {
      return false;
    }
    for i := 0 to |ranges|
      invariant forall k :: 0 <= k < i ==> ValueRangeFits(ranges[k], inputs)
    {
      var r := ranges[i];
      var found := InputNamed(inputs, r.name);
      if found.None? || !ShapeInput(found.value) {
        return false;
      }
      var values := CountValues(found.value.traits.shape);
      if values.None? || values.value != |r.minimum| {
        return false;
      }
    }
    ok := true;
  }

  // ---------- the count check means one range each ----------

  lemma {:induction false} NamesOfDistinct(inputs: seq<TensorSpec>, needs: TensorSpec -> bool)
    requires Distinct(Names(inputs))
    ensures Distinct(NamesOf(inputs, needs))
    ensures forall name :: name in NamesOf(inputs, needs) <==>
              InputNamed(inputs, name).Some? && needs(InputNamed(inputs, name).value)
    ensures forall name :: InputNamed(inputs, name).Some? <==> name in Names(inputs)
    decreases |inputs|
  {
    if inputs != [] {
      var rest := inputs[1..];
      assert Names(inputs) == [inputs[0].name] + Names(rest);
      forall i, j | 0 <= i < j < |Names(rest)| ensures Names(rest)[i] != Names(rest)[j] {
        assert Names(inputs)[i + 1] != Names(inputs)[j + 1];
      }
      NamesOfDistinct(rest, needs);
      assert forall k :: 0 <= k < |Names(rest)| ==> Names(rest)[k] == Names(inputs)[k + 1];
      assert inputs[0].name == Names(inputs)[0];
      assert inputs[0].name !in Names(rest);
      var d := NamesOf(rest, needs);
      forall j | 0 <= j < |d| ensures d[j] != inputs[0].name {
        assert d[j] in d;
      }
    }
  }

  /** Distinct ranges, each naming an input that needs one, are as many as those inputs exactly when
      every such input has its range. */
  lemma CountMeansEach(ranges: seq<Range>, inputs: seq<TensorSpec>, needs: TensorSpec -> bool)
    requires Distinct(Names(inputs)) && Distinct(RangeNames(ranges))
    requires forall i :: 0 <= i < |ranges| ==>
               var t := InputNamed(inputs, ranges[i].name); t.Some? && needs(t.value)
    ensures |ranges| == |NamesOf(inputs, needs)|
       <==> Elements(RangeNames(ranges)) == Elements(NamesOf(inputs, needs))
  {
    NamesOfDistinct(inputs, needs);
    DistinctCount(RangeNames(ranges));
    DistinctCount(NamesOf(inputs, needs));
    if |ranges| == |NamesOf(inputs, needs)| {
      CountingForcesEquality(RangeNames(ranges), NamesOf(inputs, needs));
    }
  }

  /** A profile as a whole: among fitting ranges the two count checks hold exactly when each dynamic
      input has its shape range and each shape input its value range, and nothing else has one. */
  lemma ProfileIsBijection(shapes: seq<Range>, values: seq<Range>, inputs: seq<TensorSpec>)
    requires Distinct(Names(inputs))
    requires Distinct(RangeNames(shapes)) && Distinct(RangeNames(values))
    requires forall i :: 0 <= i < |shapes| ==> ShapeRangeFits(shapes[i], inputs)
    requires forall i :: 0 <= i < |values| ==> ValueRangeFits(values[i], inputs)
    ensures && |shapes| == |NamesOf(inputs, Dynamic)|
            && |values| == |NamesOf(inputs, ShapeInput)|
       <==> && Elements(RangeNames(shapes)) == Elements(NamesOf(inputs, Dynamic))
            && Elements(RangeNames(values)) == Elements(NamesOf(inputs, ShapeInput))
  {
    CountMeansEach(shapes, inputs, Dynamic);
    CountMeansEach(values, inputs, ShapeInput);
  }
}
