/** Two ways of rejecting repeated object keys from parser callbacks, a depth-indexed table and a
    stack, against the plain reading of a JSON document. */
module DuplicateKeys {
  import opened Options

  datatype Event =
    | ObjectStart
    | ObjectEnd
    | ArrayStart
    | ArrayEnd
    | Key(key: string)
    | ScalarValue

  /** `Misplaced` is a key or an object end with no object open. */
  datatype Verdict = Clean | Duplicate(key: string) | Misplaced

  // ---------- the depth-indexed table ----------

  /** The keys seen per depth; a callback's depth is the number of open containers around it. */
  function TableRun(seen: map<int, set<string>>, open: int, events: seq<Event>): Verdict
    decreases |events|
  {
    if events == [] then Clean
    else
      var rest := events[1..];
      match events[0]
      case ObjectStart => TableRun(seen[open := {}], open + 1, rest)
      case ObjectEnd => TableRun(seen - {open - 1}, open - 1, rest)
      case ArrayStart => TableRun(seen, open + 1, rest)
      case ArrayEnd => TableRun(seen, open - 1, rest)
      case ScalarValue => TableRun(seen, open, rest)
      case Key(k) =>
        var here := KeysAt(seen, open - 1);
        if k in here then Duplicate(k) else TableRun(seen[open - 1 := here + {k}], open, rest)
  }

  function KeysAt(seen: map<int, set<string>>, depth: int): set<string> {
    if depth in seen then seen[depth] else {}
  }

  method TableChecker(events: seq<Event>) returns (verdict: Verdict)
    ensures verdict == TableRun(map[], 0, events)
  {
    var seen: map<int, set<string>> := map[];
    var open := 0;
    var i := 0;
    while i < |events|
      invariant 0 <= i <= |events|
      invariant TableRun(map[], 0, events) == TableRun(seen, open, events[i..])
    {
      assert events[i..][1..] == events[i + 1..];
      match events[i] {
        case ObjectStart =>
          seen := seen[open := {}];
          open := open + 1;
        case ObjectEnd =>
          open := open - 1;
          seen := seen - {open};
        case ArrayStart => open := open + 1;
        case ArrayEnd => open := open - 1;
        case ScalarValue =>
        case Key(k) =>
          var depth := open - 1;
          ghost var before := seen;
          if depth !in seen {
            seen := seen[depth := {}];
          }
          if k in seen[depth] {
            return Duplicate(k);
          }
          seen := seen[depth := seen[depth] + {k}];
          assert seen == before[depth := KeysAt(before, depth) + {k}];
      }
      i := i + 1;
    }
    return Clean;
  }

  // ---------- the stack ----------

  /** One key set per open object, innermost last. */
  function StackRun(stack: seq<set<string>>, events: seq<Event>): Verdict
    decreases |events|
  {
    if events == [] then Clean
    else
      var rest := events[1..];
      match events[0]
      case ObjectStart => StackRun(stack + [{}], rest)
      case ObjectEnd => if stack == [] then Misplaced else StackRun(stack[..|stack| - 1], rest)
      case ArrayStart => StackRun(stack, rest)
      case ArrayEnd => StackRun(stack, rest)
      case ScalarValue => StackRun(stack, rest)
      case Key(k) =>
        if stack == [] then Misplaced
        else
          var top := |stack| - 1;
          if k in stack[top] then Duplicate(k)
          else StackRun(stack[top := stack[top] + {k}], rest)
  }

  method StackChecker(events: seq<Event>) returns (verdict: Verdict)
    ensures verdict == StackRun([], events)
  {
    var stack: seq<set<string>> := [];
    var i := 0;
    while i < |events|
      invariant 0 <= i <= |events|
      invariant StackRun([], events) == StackRun(stack, events[i..])
    {
      assert events[i..][1..] == events[i + 1..];
      match events[i] {
        case ObjectStart => stack := stack + [{}];
        case ObjectEnd =>
          if stack == [] {
            return Misplaced;
          }
          stack := stack[..|stack| - 1];
        case Key(k) =>
          if stack == [] {
            return Misplaced;
          }
          var top := |stack| - 1;
          if k in stack[top] {
            return Duplicate(k);
          }
          stack := stack[top := stack[top] + {k}];
        case _ =>
      }
      i := i + 1;
    }
    return Clean;
  }

  // ---------- the two agree on every parser stream ----------

  /** What a parser may report next, given the open containers (true for an object); a stream may
      stop anywhere, as on a syntax error. */
  predicate Nested(open: seq<bool>, events: seq<Event>)
    decreases |events|
  {
    events == []
    || var rest := events[1..];
       match events[0]
       case ObjectStart => Nested(open + [true], rest)
       case ArrayStart => Nested(open + [false], rest)
       case ObjectEnd => open != [] && open[|open| - 1] && Nested(open[..|open| - 1], rest)
       case ArrayEnd => open != [] && !open[|open| - 1] && Nested(open[..|open| - 1], rest)
       case ScalarValue => Nested(open, rest)
       case Key(_) => open != [] && open[|open| - 1] && Nested(open, rest)
  }

  /** The stack a table stands for: its entries at the depths of the open objects. */
  function Objects(open: seq<bool>, seen: map<int, set<string>>): seq<set<string>> {
    if open == [] then []
    else
      var d := |open| - 1;
      Objects(open[..d], seen) + if open[d] then [KeysAt(seen, d)] else []
  }

  lemma {:induction false} ObjectsFrame(open: seq<bool>, seen: map<int, set<string>>,
                                        other: map<int, set<string>>)
    requires forall d :: 0 <= d < |open| ==> KeysAt(seen, d) == KeysAt(other, d)
    ensures Objects(open, seen) == Objects(open, other)
    decreases |open|
  {
    if open != [] {
      ObjectsFrame(open[..|open| - 1], seen, other);
    }
  }

  lemma OpenedObject(open: seq<bool>, seen: map<int, set<string>>)
    ensures Objects(open + [true], seen[|open| := {}]) == Objects(open, seen) + [{}]
  {
    assert (open + [true])[..|open|] == open;
    ObjectsFrame(open, seen, seen[|open| := {}]);
  }

  lemma OpenedArray(open: seq<bool>, seen: map<int, set<string>>)
    ensures Objects(open + [false], seen) == Objects(open, seen)
  {
    assert (open + [false])[..|open|] == open;
    assert Objects(open, seen) + [] == Objects(open, seen);
  }

  lemma ClosedObject(open: seq<bool>, seen: map<int, set<string>>)
    requires open != [] && open[|open| - 1]
    ensures var d, stack := |open| - 1, Objects(open, seen);
            stack != [] && Objects(open[..d], seen - {d}) == stack[..|stack| - 1]
  {
    var d := |open| - 1;
    ObjectsFrame(open[..d], seen, seen - {d});
  }

  lemma ClosedArray(open: seq<bool>, seen: map<int, set<string>>)
    requires open != [] && !open[|open| - 1]
    ensures Objects(open[..|open| - 1], seen) == Objects(open, seen)
  {
    assert Objects(open[..|open| - 1], seen) + [] == Objects(open[..|open| - 1], seen);
  }

  lemma KeyRecorded(open: seq<bool>, seen: map<int, set<string>>, key: string)
    requires open != [] && open[|open| - 1]
    ensures var d, stack := |open| - 1, Objects(open, seen);
            && stack != [] && stack[|stack| - 1] == KeysAt(seen, d)
            && Objects(open, seen[d := KeysAt(seen, d) + {key}])
               == stack[|stack| - 1 := KeysAt(seen, d) + {key}]
  {
    var d := |open| - 1;
    ObjectsFrame(open[..d], seen, seen[d := KeysAt(seen, d) + {key}]);
  }

  /** On every nested event stream, complete or cut short, the table and the stack give the same
      verdict and name the same key. */
  lemma {:induction false} TableMatchesStack(open: seq<bool>, seen: map<int, set<string>>,
                                             events: seq<Event>)
    requires Nested(open, events)
    ensures TableRun(seen, |open|, events) == StackRun(Objects(open, seen), events)
    ensures TableRun(seen, |open|, events) != Misplaced
    decreases |events|
  {
    if events != [] {
      var rest, d := events[1..], |open| - 1;
      match events[0]
      case ObjectStart =>
        OpenedObject(open, seen);
        TableMatchesStack(open + [true], seen[|open| := {}], rest);
      case ArrayStart =>
        OpenedArray(open, seen);
        TableMatchesStack(open + [false], seen, rest);
      case ObjectEnd =>
        ClosedObject(open, seen);
        TableMatchesStack(open[..d], seen - {d}, rest);
      case ArrayEnd =>
        ClosedArray(open, seen);
        TableMatchesStack(open[..d], seen, rest);
      case ScalarValue => TableMatchesStack(open, seen, rest);
      case Key(k) =>
        KeyRecorded(open, seen, k);
        TableMatchesStack(open, seen[d := KeysAt(seen, d) + {k}], rest);
    }
  }

  // ---------- and mean what they should on every document ----------

  datatype Json = Scalar | Array(items: seq<Json>) | Object(members: seq<Member>)
  datatype Member = Member(key: string, value: Json)

  function Events(j: Json): seq<Event>
    decreases j, 1
  {
    match j
    case Scalar => [ScalarValue]
    case Array(items) => [ArrayStart] + ItemEvents(items) + [ArrayEnd]
    case Object(members) => [ObjectStart] + MemberEvents(members) + [ObjectEnd]
  }

  function ItemEvents(items: seq<Json>): seq<Event>
    decreases items, 0
  {
    if items == [] then [] else Events(items[0]) + ItemEvents(items[1..])
  }

  function MemberEvents(members: seq<Member>): seq<Event>
    decreases members, 0
  {
    if members == [] then []
    else [Key(members[0].key)] + Events(members[0].value) + MemberEvents(members[1..])
  }

  /** Some object of the document, at any depth, has two members with one key. */
  predicate RepeatsKey(j: Json)
    decreases j
  {
    match j
    case Scalar => false
    case Array(items) => exists i :: 0 <= i < |items| && RepeatsKey(items[i])
    case Object(members) =>
      || (exists i, k :: 0 <= i < k < |members| && members[i].key == members[k].key)
      || (exists i :: 0 <= i < |members| && RepeatsKey(members[i].value))
  }

  predicate MembersRepeat(members: seq<Member>, keys: set<string>) {
    || (exists i :: 0 <= i < |members| && members[i].key in keys)
    || (exists i, k :: 0 <= i < k < |members| && members[i].key == members[k].key)
    || (exists i :: 0 <= i < |members| && RepeatsKey(members[i].value))
  }

  lemma MembersRepeatStep(members: seq<Member>, keys: set<string>)
    requires members != []
    ensures MembersRepeat(members, keys)
       <==> || members[0].key in keys
            || RepeatsKey(members[0].value)
            || MembersRepeat(members[1..], keys + {members[0].key})
  {
    var first, rest, more := members[0], members[1..], keys + {members[0].key};
    forall i | 0 <= i < |rest| && (rest[i].key in more || RepeatsKey(rest[i].value))
      ensures MembersRepeat(members, keys)
    {
      assert members[i + 1] == rest[i];
    }
    forall i, k | 0 <= i < k < |rest| && rest[i].key == rest[k].key
      ensures MembersRepeat(members, keys)
    {
      assert members[i + 1] == rest[i] && members[k + 1] == rest[k];
    }
    forall i | 1 <= i < |members|
              && (members[i].key in more || RepeatsKey(members[i].value))
      ensures MembersRepeat(rest, more)
    {
      assert members[i] == rest[i - 1];
    }
    forall i, k | 1 <= i < k < |members| && members[i].key == members[k].key
      ensures MembersRepeat(rest, more)
    {
      assert members[i] == rest[i - 1] && members[k] == rest[k - 1];
    }
  }

  /** The first key, in reading order, that repeats one of its own object. */
  function FirstRepeat(j: Json): Option<string>
    decreases j, 1
  {
    match j
    case Scalar => None
    case Array(items) => FirstItemRepeat(items)
    case Object(members) => FirstMemberRepeat(members, {})
  }

  function FirstItemRepeat(items: seq<Json>): Option<string>
    decreases items, 0
  {
    if items == [] then None
    else Otherwise(FirstRepeat(items[0]), FirstItemRepeat(items[1..]))
  }

  /** `keys` are those of the object's earlier members. */
  function FirstMemberRepeat(members: seq<Member>, keys: set<string>): Option<string>
    decreases members, 0
  {
    if members == [] then None
    else if members[0].key in keys then Some(members[0].key)
    else
      Otherwise(FirstRepeat(members[0].value),
                FirstMemberRepeat(members[1..], keys + {members[0].key}))
  }

  function Otherwise(first: Option<string>, rest: Option<string>): Option<string> {
    if first.Some? then first else rest
  }

  /** There is a first one exactly when some object repeats a key. */
  lemma {:induction false} RepeatFound(j: Json)
    ensures FirstRepeat(j).Some? <==> RepeatsKey(j)
    decreases j, 1
  {
    match j
    case Scalar =>
    case Array(items) => ItemRepeatFound(items);
    case Object(members) => MemberRepeatFound(members, {});
  }

  lemma {:induction false} ItemRepeatFound(items: seq<Json>)
    ensures FirstItemRepeat(items).Some? <==> exists i :: 0 <= i < |items| && RepeatsKey(items[i])
    decreases items, 0
  {
    if items != [] {
      RepeatFound(items[0]);
      ItemRepeatFound(items[1..]);
      forall i | 1 <= i < |items| && RepeatsKey(items[i])
        ensures exists k :: 0 <= k < |items[1..]| && RepeatsKey(items[1..][k])
      {
        assert items[1..][i - 1] == items[i];
      }
    }
  }

  lemma {:induction false} MemberRepeatFound(members: seq<Member>, keys: set<string>)
    ensures FirstMemberRepeat(members, keys).Some? <==> MembersRepeat(members, keys)
    decreases members, 0
  {
    if members != [] {
      RepeatFound(members[0].value);
      MemberRepeatFound(members[1..], keys + {members[0].key});
      MembersRepeatStep(members, keys);
    }
  }

  /** What a checker does behind a value: it stops at its first repeat, or goes on. */
  function StopOr(repeat: Option<string>, otherwise: Verdict): Verdict {
    if repeat.Some? then Duplicate(repeat.value) else otherwise
  }

  /** Reading a whole value leaves the stack as it was, or ends at the value's first repeat. */
  lemma {:induction false} ValueRun(stack: seq<set<string>>, j: Json, rest: seq<Event>)
    ensures StackRun(stack, Events(j) + rest) == StopOr(FirstRepeat(j), StackRun(stack, rest))
    decreases j, 1
  {
    match j
    case Scalar =>
      assert (Events(j) + rest)[1..] == rest;
    case Array(items) =>
      assert (Events(j) + rest)[1..] == ItemEvents(items) + ([ArrayEnd] + rest);
      ItemsRun(stack, items, [ArrayEnd] + rest);
      assert ([ArrayEnd] + rest)[1..] == rest;
    case Object(members) =>
      assert (Events(j) + rest)[1..] == MemberEvents(members) + ([ObjectEnd] + rest);
      MembersRun(stack, {}, members, rest);
  }

  lemma {:induction false} ItemsRun(stack: seq<set<string>>, items: seq<Json>, rest: seq<Event>)
    ensures StackRun(stack, ItemEvents(items) + rest)
         == StopOr(FirstItemRepeat(items), StackRun(stack, rest))
    decreases items, 0
  {
    if items == [] {
      assert ItemEvents(items) + rest == rest;
    } else {
      var tail := ItemEvents(items[1..]) + rest;
      assert ItemEvents(items) + rest == Events(items[0]) + tail;
      ValueRun(stack, items[0], tail);
      ItemsRun(stack, items[1..], rest);
    }
  }

  lemma {:induction false} MembersRun(stack: seq<set<string>>, keys: set<string>,
                                      members: seq<Member>, rest: seq<Event>)
    ensures StackRun(stack + [keys], MemberEvents(members) + ([ObjectEnd] + rest))
         == StopOr(FirstMemberRepeat(members, keys), StackRun(stack, rest))
    decreases members, 0
  {
    var end := [ObjectEnd] + rest;
    if members == [] {
      assert MemberEvents(members) + end == end && end[1..] == rest;
      assert (stack + [keys])[..|stack|] == stack;
    } else {
      var first := members[0];
      var tail := MemberEvents(members[1..]) + end;
      MemberFirst(members, end);
      KeyRun(stack, keys, first.key, Events(first.value) + tail);
      if first.key !in keys {
        ValueRun(stack + [keys + {first.key}], first.value, tail);
        MembersRun(stack, keys + {first.key}, members[1..], rest);
      }
    }
  }

  lemma MemberFirst(members: seq<Member>, end: seq<Event>)
    requires members != []
    ensures MemberEvents(members) + end
         == [Key(members[0].key)]
            + (Events(members[0].value) + (MemberEvents(members[1..]) + end))
  {
  }

  lemma KeyRun(stack: seq<set<string>>, keys: set<string>, key: string, rest: seq<Event>)
    ensures StackRun(stack + [keys], [Key(key)] + rest)
         == if key in keys then Duplicate(key) else StackRun(stack + [keys + {key}], rest)
  {
    assert ([Key(key)] + rest)[1..] == rest;
    assert (stack + [keys])[|stack| := keys + {key}] == stack + [keys + {key}];
  }

  /** The stream of a document is nested, whatever is open around it. */
  lemma {:induction false} ValueNested(open: seq<bool>, j: Json, rest: seq<Event>)
    requires Nested(open, rest)
    ensures Nested(open, Events(j) + rest)
    decreases j, 1
  {
    match j
    case Scalar =>
      assert (Events(j) + rest)[1..] == rest;
    case Array(items) =>
      assert (open + [false])[..|open|] == open && ([ArrayEnd] + rest)[1..] == rest;
      ItemsNested(open + [false], items, [ArrayEnd] + rest);
      assert (Events(j) + rest)[1..] == ItemEvents(items) + ([ArrayEnd] + rest);
    case Object(members) =>
      assert (open + [true])[..|open|] == open && ([ObjectEnd] + rest)[1..] == rest;
      MembersNested(open + [true], members, [ObjectEnd] + rest);
      assert (Events(j) + rest)[1..] == MemberEvents(members) + ([ObjectEnd] + rest);
  }

  lemma {:induction false} ItemsNested(open: seq<bool>, items: seq<Json>, rest: seq<Event>)
    requires Nested(open, rest)
    ensures Nested(open, ItemEvents(items) + rest)
    decreases items, 0
  {
    if items == [] {
      assert ItemEvents(items) + rest == rest;
    } else {
      ItemsNested(open, items[1..], rest);
      ValueNested(open, items[0], ItemEvents(items[1..]) + rest);
      assert ItemEvents(items) + rest == Events(items[0]) + (ItemEvents(items[1..]) + rest);
    }
  }

  lemma {:induction false} MembersNested(open: seq<bool>, members: seq<Member>, rest: seq<Event>)
    requires open != [] && open[|open| - 1] && Nested(open, rest)
    ensures Nested(open, MemberEvents(members) + rest)
    decreases members, 0
  {
    if members == [] {
      assert MemberEvents(members) + rest == rest;
    } else {
      var tail := MemberEvents(members[1..]) + rest;
      MembersNested(open, members[1..], rest);
      ValueNested(open, members[0].value, tail);
      MemberFirst(members, rest);
      assert ([Key(members[0].key)] + (Events(members[0].value) + tail))[1..]
          == Events(members[0].value) + tail;
    }
  }

  /** For every JSON document, both checkers name the first key, in reading order, that repeats one of
      its own object, and accept exactly when no object, at any depth, repeats a key. */
  lemma CheckersMeanRepeatedKey(j: Json)
    ensures TableRun(map[], 0, Events(j)) == StackRun([], Events(j))
    ensures StackRun([], Events(j)) == StopOr(FirstRepeat(j), Clean)
    ensures StackRun([], Events(j)) == Clean <==> !RepeatsKey(j)
  {
    assert Events(j) + [] == Events(j);
    ValueRun([], j, []);
    RepeatFound(j);
    ValueNested([], j, []);
    TableMatchesStack([], map[], Events(j));
  }
}
