/** Tensors matched by name: address tables, the engine I/O contract and optimization profiles all
    check "same count, no name twice, every name known" and rely on it meaning "exactly these". */
module TensorNames {
  import opened Options

  datatype Traits = Traits(dtype: nat, shape: seq<int>, device: bool, shapeInference: bool)

  datatype TensorSpec = TensorSpec(name: string, traits: Traits)

  datatype EngineManifest = EngineManifest(inputs: seq<TensorSpec>, outputs: seq<TensorSpec>)

  function Names(specs: seq<TensorSpec>): seq<string> {
    seq(|specs|, i requires 0 <= i < |specs| => specs[i].name)
  }

  function AllNames(m: EngineManifest): seq<string> {
    Names(m.inputs) + Names(m.outputs)
  }

  predicate Distinct<T(==)>(s: seq<T>) {
    forall i, j :: 0 <= i < j < |s| ==> s[i] != s[j]
  }

  function Elements<T>(s: seq<T>): set<T> {
    set x | x in s
  }

  // ---------- counting ----------

  lemma {:induction false} DistinctCount<T>(s: seq<T>)
    requires Distinct(s)
    ensures |Elements(s)| == |s|
    decreases |s|
  {
    if s != [] {
      DistinctCount(s[1..]);
      assert Elements(s) == Elements(s[1..]) + {s[0]};
    }
  }

  lemma {:induction false} SubsetOfSameSize<T>(a: set<T>, b: set<T>)
    requires a <= b && |a| == |b|
    ensures a == b
    decreases |a|
  {
    if a != {} {
      var x :| x in a;
      SubsetOfSameSize(a - {x}, b - {x});
      assert a == (a - {x}) + {x} && b == (b - {x}) + {x};
    } else {
      assert b == {};
    }
  }

  /** Two duplicate-free lists of one length, one inside the other, have the same elements. */
  lemma CountingForcesEquality<T>(a: seq<T>, b: seq<T>)
    requires Distinct(a) && Distinct(b) && |a| == |b|
    requires forall x :: x in a ==> x in b
    ensures Elements(a) == Elements(b)
  {
    DistinctCount(a);
    DistinctCount(b);
    SubsetOfSameSize(Elements(a), Elements(b));
  }

  // ---------- names of one engine ----------

  /** The two name checks of manifest parsing: no name twice in a list, none in both lists. */
  method CheckNames(m: EngineManifest) returns (ok: bool)
    ensures ok <==> Distinct(AllNames(m))
  {
    var all := AllNames(m);
    var seen: set<string> := {};
    for i := 0 to |m.inputs|
      invariant seen == Elements(all[..i])
      invariant Distinct(all[..i])
    {
      assert all[i] == m.inputs[i].name;
      OneMoreName(all, i);
      if m.inputs[i].name in seen {
        return false;
      }
      seen := seen + {m.inputs[i].name};
    }
    for k := 0 to |m.outputs|
      invariant seen == Elements(all[..|m.inputs| + k])
      invariant Distinct(all[..|m.inputs| + k])
    {
      assert all[|m.inputs| + k] == m.outputs[k].name;
      OneMoreName(all, |m.inputs| + k);
      if m.outputs[k].name in seen {
        return false;
      }
      seen := seen + {m.outputs[k].name};
    }
    assert all[..|all|] == all;
    ok := true;
  }

  /** A list stays free of repetitions as long as its next element is new. */
  lemma OneMoreName<T>(s: seq<T>, i: nat)
    requires i < |s| && Distinct(s[..i])
    ensures Elements(s[..i + 1]) == Elements(s[..i]) + {s[i]}
    ensures s[i] in Elements(s[..i]) ==> !Distinct(s)
    ensures s[i] !in Elements(s[..i]) ==> Distinct(s[..i + 1])
  {
    assert s[..i + 1] == s[..i] + [s[i]];
    if s[i] in Elements(s[..i]) {
      var j :| 0 <= j < i && s[..i][j] == s[i];
      assert s[j] == s[i];
    }
  }

  // ---------- the address set and the prepared table ----------

  datatype TensorAddress = TensorAddress(name: string, address: nat)

  datatype AddressError = Missing | Duplicated | Unknown

  datatype Prepared = Prepared(inputs: seq<nat>, outputs: seq<nat>) | Refused(error: AddressError)

  function AddressNames(a: seq<TensorAddress>): seq<string> {
    seq(|a|, i requires 0 <= i < |a| => a[i].name)
  }

  /** The address bound to a name: the first entry that carries it. */
  function Lookup(a: seq<TensorAddress>, name: string): Option<nat> {
    if a == [] then None
    else if a[0].name == name then Some(a[0].address)
    else Lookup(a[1..], name)
  }

  lemma {:induction false} LookupFinds(a: seq<TensorAddress>, name: string)
    ensures Lookup(a, name).Some? <==> name in AddressNames(a)
    ensures Lookup(a, name).Some? ==> TensorAddress(name, Lookup(a, name).value) in a
    decreases |a|
  {
    if a != [] {
      LookupFinds(a[1..], name);
      assert AddressNames(a) == [a[0].name] + AddressNames(a[1..]);
    }
  }

  class TensorAddressSet {
    var addresses: seq<TensorAddress>

    /** Bound names are never repeated, never empty; addresses are never null. */
    predicate Valid()
      reads this
    {
      && Distinct(AddressNames(addresses))
      && forall i :: 0 <= i < |addresses| ==>
           addresses[i].name != "" && addresses[i].address != 0
    }

    constructor ()
      ensures Valid() && addresses == []
    {
      addresses := [];
    }

    method Add(name: string, address: nat) returns (r: Option<AddressError>)
      requires Valid()
      modifies this
      ensures Valid()
      ensures r == if name == "" || address == 0 then Some(Missing)
                   else if name in AddressNames(old(addresses)) then Some(Duplicated) else None
      ensures addresses == if r.None? then old(addresses) + [TensorAddress(name, address)]
                           else old(addresses)
    {
      if name == "" || address == 0 {
        return Some(Missing);
      }
      for i := 0 to |addresses|
        invariant name !in AddressNames(addresses)[..i]
      {
        assert AddressNames(addresses)[..i + 1]
            == AddressNames(addresses)[..i] + [addresses[i].name];
        if addresses[i].name == name {
          assert AddressNames(addresses)[i] == name;
          return Some(Duplicated);
        }
      }
      assert AddressNames(addresses)[..|addresses|] == AddressNames(addresses);
      assert AddressNames(addresses + [TensorAddress(name, address)])
          == AddressNames(addresses) + [name];
      addresses := addresses + [TensorAddress(name, address)];
      return None;
    }

    method Require(name: string) returns (r: Option<nat>)
      ensures r == Lookup(addresses, name)
    {
      for i := 0 to |addresses|
        invariant Lookup(addresses, name) == Lookup(addresses[i..], name)
      {
        assert addresses[i..][1..] == addresses[i + 1..];
        if addresses[i].name == name {
          return Some(addresses[i].address);
        }
      }
      return None;
    }

    /** Resolves every manifest tensor to a position, after checking only the count. */
    method Prepare(m: EngineManifest) returns (r: Prepared)
      ensures |addresses| != |AllNames(m)| ==>
                r == Refused(if |addresses| < |AllNames(m)| then Missing else Unknown)
      ensures |addresses| == |AllNames(m)| ==>
                if forall name :: name in AllNames(m) ==> Lookup(addresses, name).Some? then
                  r.Prepared? && Resolves(r, m, addresses)
                else r == Refused(Missing)
    {
      var expected := |m.inputs| + |m.outputs|;
      if |addresses| != expected {
        return Refused(if |addresses| < expected then Missing else Unknown);
      }
      var ok, inputs := ResolveAll(m.inputs);
      if !ok {
        ghost var name :| name in Names(m.inputs) && Lookup(addresses, name).None?;
        assert name in AllNames(m);
        return Refused(Missing);
      }
      var also, outputs := ResolveAll(m.outputs);
      if !also {
        ghost var name :| name in Names(m.outputs) && Lookup(addresses, name).None?;
        assert name in AllNames(m);
        return Refused(Missing);
      }
      return Prepared(inputs, outputs);
    }

    method ResolveAll(specs: seq<TensorSpec>) returns (ok: bool, table: seq<nat>)
      ensures ok <==> forall name :: name in Names(specs) ==> Lookup(addresses, name).Some?
      ensures ok ==> |table| == |specs|
      ensures ok ==> forall i :: 0 <= i < |specs| ==>
                       Lookup(addresses, specs[i].name) == Some(table[i])
    {
      table := [];
      for i := 0 to |specs|
        invariant |table| == i
        invariant forall k :: 0 <= k < i ==> Lookup(addresses, specs[k].name) == Some(table[k])
      {
        var address := Require(specs[i].name);
        if address.None? {
          assert Names(specs)[i] == specs[i].name;
          return false, table;
        }
        table := table + [address.value];
      }
      ok := true;
    }
  }

  /** Each positional entry is the named lookup. */
  predicate Resolves(r: Prepared, m: EngineManifest, a: seq<TensorAddress>)
    requires r.Prepared?
  {
    && |r.inputs| == |m.inputs| && |r.outputs| == |m.outputs|
    && (forall i :: 0 <= i < |m.inputs| ==> Lookup(a, m.inputs[i].name) == Some(r.inputs[i]))
    && (forall i :: 0 <= i < |m.outputs| ==> Lookup(a, m.outputs[i].name) == Some(r.outputs[i]))
  }

  lemma {:induction false} LookupExact(a: seq<TensorAddress>, name: string, address: nat)
    requires Distinct(AddressNames(a))
    ensures Lookup(a, name) == Some(address) <==> TensorAddress(name, address) in a
  {
    LookupFinds(a, name);
    if Lookup(a, name).Some? && TensorAddress(name, address) in a {
      var found := TensorAddress(name, Lookup(a, name).value);
      var i :| 0 <= i < |a| && a[i] == TensorAddress(name, address);
      var j :| 0 <= j < |a| && a[j] == found;
      assert AddressNames(a)[i] == name && AddressNames(a)[j] == name;
    }
    if TensorAddress(name, address) in a {
      var i :| 0 <= i < |a| && a[i] == TensorAddress(name, address);
      assert AddressNames(a)[i] == name;
    }
  }

  /** A prepared table holds, in the manifest's order, exactly the addresses bound to its names. */
  lemma ResolvesMeansBound(r: Prepared, m: EngineManifest, a: seq<TensorAddress>)
    requires r.Prepared? && Distinct(AddressNames(a))
    requires |r.inputs| == |m.inputs| && |r.outputs| == |m.outputs|
    ensures Resolves(r, m, a) <==>
            && (forall i :: 0 <= i < |m.inputs| ==>
                  TensorAddress(m.inputs[i].name, r.inputs[i]) in a)
            && (forall i :: 0 <= i < |m.outputs| ==>
                  TensorAddress(m.outputs[i].name, r.outputs[i]) in a)
  {
    forall i | 0 <= i < |m.inputs|
      ensures Lookup(a, m.inputs[i].name) == Some(r.inputs[i])
         <==> TensorAddress(m.inputs[i].name, r.inputs[i]) in a
    {
      LookupExact(a, m.inputs[i].name, r.inputs[i]);
    }
    forall i | 0 <= i < |m.outputs|
      ensures Lookup(a, m.outputs[i].name) == Some(r.outputs[i])
         <==> TensorAddress(m.outputs[i].name, r.outputs[i]) in a
    {
      LookupExact(a, m.outputs[i].name, r.outputs[i]);
    }
  }

  /** No strangers: with distinct manifest names, equal counts and every name resolvable hold
      exactly when the bound names are the manifest's names. */
  lemma PreparedMeansSameNames(m: EngineManifest, a: seq<TensorAddress>)
    requires Distinct(AllNames(m)) && Distinct(AddressNames(a))
    ensures && |a| == |AllNames(m)|
            && (forall name :: name in AllNames(m) ==> Lookup(a, name).Some?)
       <==> Elements(AddressNames(a)) == Elements(AllNames(m))
  {
    DistinctCount(AllNames(m));
    DistinctCount(AddressNames(a));
    forall name | name in AllNames(m)
      ensures Lookup(a, name).Some? <==> name in AddressNames(a)
    {
      LookupFinds(a, name);
    }
    if |a| == |AllNames(m)| && forall name :: name in AllNames(m) ==> Lookup(a, name).Some? {
      CountingForcesEquality(AllNames(m), AddressNames(a));
    }
    if Elements(AddressNames(a)) == Elements(AllNames(m)) {
      forall name | name in AllNames(m) ensures Lookup(a, name).Some? {
        assert name in Elements(AllNames(m));
      }
    }
  }

  // ---------- the engine I/O contract ----------

  /** A tensor as the deserialized engine reports it, or as the manifest declares it. */
  datatype IoTensor = IoTensor(name: string, isInput: bool, traits: Traits)

  function Declared(m: EngineManifest): seq<IoTensor> {
    seq(|m.inputs|, i requires 0 <= i < |m.inputs| =>
        IoTensor(m.inputs[i].name, true, m.inputs[i].traits))
    + seq(|m.outputs|, i requires 0 <= i < |m.outputs| =>
          IoTensor(m.outputs[i].name, false, m.outputs[i].traits))
  }

  /** The first declaration of a name, inputs before outputs. */
  function Find(declared: seq<IoTensor>, name: string): Option<IoTensor> {
    if declared == [] then None
    else if declared[0].name == name then Some(declared[0])
    else Find(declared[1..], name)
  }

  lemma {:induction false} FindDistinct(declared: seq<IoTensor>, t: IoTensor)
    requires forall i, j :: 0 <= i < j < |declared| ==> declared[i].name != declared[j].name
    ensures Find(declared, t.name) == Some(t) <==> t in declared
    decreases |declared|
  {
    if declared != [] {
      FindDistinct(declared[1..], t);
      if t in declared[1..] {
        assert t != declared[0];
      }
    }
  }

  method ValidateIoContract(engine: seq<IoTensor>, m: EngineManifest) returns (ok: bool)
    ensures ok <==>
            && |engine| == |Declared(m)|
            && (forall i, j :: 0 <= i < j < |engine| ==> engine[i].name != engine[j].name)
            && (forall i :: 0 <= i < |engine| ==>
                  engine[i].name != "" && Find(Declared(m), engine[i].name) == Some(engine[i]))
  {
    if |engine| != |m.inputs| + |m.outputs| {
      return false;
    }
    var observed: set<string> := {};
    for i := 0 to |engine|
      invariant forall name :: name in observed <==> exists k :: 0 <= k < i && engine[k].name == name
      invariant forall j, k :: 0 <= j < k < i ==> engine[j].name != engine[k].name
      invariant forall k :: 0 <= k < i ==>
                  engine[k].name != "" && Find(Declared(m), engine[k].name) == Some(engine[k])
    {
      var t := engine[i];
      if t.name == "" || t.name in observed {
        return false;
      }
      observed := observed + {t.name};
      var expected := Find(Declared(m), t.name);
      if expected.None? || t.isInput != expected.value.isInput
         || t.traits != expected.value.traits {
        return false;
      }
      NamedByFind(Declared(m), t.name);
    }
    ok := true;
  }

  lemma {:induction false} NamedByFind(declared: seq<IoTensor>, name: string)
    ensures Find(declared, name).Some? ==> Find(declared, name).value.name == name
    decreases |declared|
  {
    if declared != [] {
      NamedByFind(declared[1..], name);
    }
  }

  /** An accepted engine reports exactly the declared tensors, each once: the contract is a
      bijection, not just an inclusion. */
  lemma IoContractIsBijection(engine: seq<IoTensor>, m: EngineManifest)
    requires Distinct(AllNames(m)) && "" !in AllNames(m)
    ensures && |engine| == |Declared(m)|
            && (forall i, j :: 0 <= i < j < |engine| ==> engine[i].name != engine[j].name)
            && (forall i :: 0 <= i < |engine| ==>
                  engine[i].name != "" && Find(Declared(m), engine[i].name) == Some(engine[i]))
       <==> Distinct(engine) && Elements(engine) == Elements(Declared(m))
  {
    var declared := Declared(m);
    DeclaredNames(m);
    forall t: IoTensor ensures Find(declared, t.name) == Some(t) <==> t in declared {
      FindDistinct(declared, t);
    }
    if && |engine| == |declared|
       && (forall i, j :: 0 <= i < j < |engine| ==> engine[i].name != engine[j].name)
       && (forall i :: 0 <= i < |engine| ==> Find(declared, engine[i].name) == Some(engine[i])) {
      CountingForcesEquality(engine, declared);
    }
    if Distinct(engine) && Elements(engine) == Elements(declared) {
      DistinctCount(engine);
      DistinctCount(declared);
      forall i | 0 <= i < |engine|
        ensures engine[i] in declared && engine[i].name != ""
      {
        assert engine[i] in Elements(engine);
      }
      forall i, j | 0 <= i < j < |engine| ensures engine[i].name != engine[j].name {
        assert engine[i] in declared && engine[j] in declared && engine[i] != engine[j];
      }
    }
  }

  /** An input is declared as one, with its own traits, and so is an output. */
  lemma DeclaredMeans(m: EngineManifest, t: IoTensor)
    ensures t in Declared(m)
       <==> TensorSpec(t.name, t.traits) in (if t.isInput then m.inputs else m.outputs)
  {
    if TensorSpec(t.name, t.traits) in (if t.isInput then m.inputs else m.outputs) {
      if t.isInput {
        var i :| 0 <= i < |m.inputs| && m.inputs[i] == TensorSpec(t.name, t.traits);
        assert Declared(m)[i] == t;
      } else {
        var i :| 0 <= i < |m.outputs| && m.outputs[i] == TensorSpec(t.name, t.traits);
        assert Declared(m)[|m.inputs| + i] == t;
      }
    }
  }

  lemma DeclaredNames(m: EngineManifest)
    requires Distinct(AllNames(m))
    ensures |Declared(m)| == |AllNames(m)|
    ensures forall i :: 0 <= i < |Declared(m)| ==> Declared(m)[i].name == AllNames(m)[i]
    ensures forall i, j :: 0 <= i < j < |Declared(m)| ==> Declared(m)[i].name != Declared(m)[j].name
    ensures Distinct(Declared(m))
    ensures "" !in AllNames(m) ==> forall t :: t in Declared(m) ==> t.name != ""
  {
    forall i | 0 <= i < |Declared(m)| ensures Declared(m)[i].name == AllNames(m)[i] {
    }
  }
}
