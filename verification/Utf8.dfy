/** The runtime's path validator and the benchmark's text scanner, two hand-written UTF-8 decoders,
    against the syntax of section 4 of RFC 3629. Bytes and code points are machine words. */
module Utf8 {
  import opened Options

  type Byte = bv8
  type CodePoint = bv32

  // ---------- RFC 3629 ----------

  predicate IsScalar(c: CodePoint) {
    c <= 0x10FFFF && !(0xD800 <= c <= 0xDFFF)
  }

  predicate IsTail(b: Byte) {
    0x80 <= b <= 0xBF
  }

  predicate IsTwo(a: Byte, b: Byte) {
    0xC2 <= a <= 0xDF && IsTail(b)
  }

  predicate IsThree(a: Byte, b: Byte, c: Byte) {
    && IsTail(c)
    && (|| (a == 0xE0 && 0xA0 <= b <= 0xBF)
        || (0xE1 <= a <= 0xEC && IsTail(b))
        || (a == 0xED && 0x80 <= b <= 0x9F)
        || (0xEE <= a <= 0xEF && IsTail(b)))
  }

  predicate IsFour(a: Byte, b: Byte, c: Byte, d: Byte) {
    && IsTail(c) && IsTail(d)
    && (|| (a == 0xF0 && 0x90 <= b <= 0xBF)
        || (0xF1 <= a <= 0xF3 && IsTail(b))
        || (a == 0xF4 && 0x80 <= b <= 0x8F))
  }

  function Low(b: Byte): CodePoint {
    (b & 0x3F) as CodePoint
  }

  /** Six more bits from a continuation byte. */
  function Push(c: CodePoint, b: Byte): CodePoint {
    (c << 6) | Low(b)
  }

  function Two(a: Byte, b: Byte): CodePoint {
    Push((a & 0x1F) as CodePoint, b)
  }

  function Three(a: Byte, b: Byte, c: Byte): CodePoint {
    Push(Push((a & 0x0F) as CodePoint, b), c)
  }

  function Four(a: Byte, b: Byte, c: Byte, d: Byte): CodePoint {
    Push(Push(Push((a & 0x07) as CodePoint, b), c), d)
  }

  /** The width of the well-formed character at the front of the text, 0 if there is none. */
  function Width(t: seq<Byte>): (w: nat)
    ensures w <= |t| && w <= 4
  {
    if |t| >= 1 && t[0] <= 0x7F then 1
    else if |t| >= 2 && IsTwo(t[0], t[1]) then 2
    else if |t| >= 3 && IsThree(t[0], t[1], t[2]) then 3
    else if |t| >= 4 && IsFour(t[0], t[1], t[2], t[3]) then 4
    else 0
  }

  function First(t: seq<Byte>): CodePoint
    requires Width(t) > 0
  {
    if Width(t) == 1 then t[0] as CodePoint
    else if Width(t) == 2 then Two(t[0], t[1])
    else if Width(t) == 3 then Three(t[0], t[1], t[2])
    else Four(t[0], t[1], t[2], t[3])
  }

  /** The scalar values of a well-formed text, None for any other. */
  function Decode(t: seq<Byte>): Option<seq<CodePoint>> {
    if t == [] then Some([])
    else if Width(t) == 0 then None
    else
      match Decode(t[Width(t)..])
      case None => None
      case Some(rest) => Some([First(t)] + rest)
  }

  // ---------- encoding, section 3 ----------

  function Tail(c: CodePoint): Byte {
    ((c & 0x3F) | 0x80) as Byte
  }

  function EncodeOne(c: CodePoint): seq<Byte>
    requires IsScalar(c)
  {
    if c <= 0x7F then [c as Byte]
    else if c <= 0x7FF then [((c >> 6) | 0xC0) as Byte, Tail(c)]
    else if c <= 0xFFFF then [((c >> 12) | 0xE0) as Byte, Tail(c >> 6), Tail(c)]
    else [((c >> 18) | 0xF0) as Byte, Tail(c >> 12), Tail(c >> 6), Tail(c)]
  }

  predicate AllScalar(s: seq<CodePoint>) {
    forall k :: 0 <= k < |s| ==> IsScalar(s[k])
  }

  function Encode(s: seq<CodePoint>): seq<Byte>
    requires AllScalar(s)
  {
    if s == [] then [] else EncodeOne(s[0]) + Encode(s[1..])
  }

  // ---------- decoding inverts encoding, and only encodings decode ----------

  lemma EncodeTwoDecodes(c: CodePoint)
    requires 0x7F < c <= 0x7FF
    ensures var a, b := ((c >> 6) | 0xC0) as Byte, Tail(c);
            a > 0x7F && IsTwo(a, b) && Two(a, b) == c
  {
  }

  lemma EncodeThreeDecodes(c: CodePoint)
    requires IsScalar(c) && 0x7FF < c <= 0xFFFF
    ensures var a, b, d := ((c >> 12) | 0xE0) as Byte, Tail(c >> 6), Tail(c);
            a > 0x7F && !IsTwo(a, b) && IsThree(a, b, d) && Three(a, b, d) == c
  {
  }

  lemma EncodeFourDecodes(c: CodePoint)
    requires IsScalar(c) && 0xFFFF < c
    ensures var a, b, d, e := ((c >> 18) | 0xF0) as Byte, Tail(c >> 12), Tail(c >> 6), Tail(c);
            && a > 0x7F && !IsTwo(a, b) && !IsThree(a, b, d)
            && IsFour(a, b, d, e) && Four(a, b, d, e) == c
  {
  }

  lemma EncodeOneDecodes(c: CodePoint, rest: seq<Byte>)
    requires IsScalar(c)
    ensures Width(EncodeOne(c) + rest) == |EncodeOne(c)|
    ensures First(EncodeOne(c) + rest) == c
  {
    if c <= 0x7F {
    } else if c <= 0x7FF {
      EncodeTwoDecodes(c);
    } else if c <= 0xFFFF {
      EncodeThreeDecodes(c);
    } else {
      EncodeFourDecodes(c);
    }
  }

  /** Every sequence of Unicode scalar values survives encoding and decoding. */
  lemma {:induction false} RoundTrip(s: seq<CodePoint>)
    requires AllScalar(s)
    ensures Decode(Encode(s)) == Some(s)
    decreases |s|
  {
    if s != [] {
      RoundTrip(s[1..]);
      EncodeOneDecodes(s[0], Encode(s[1..]));
      var t := EncodeOne(s[0]) + Encode(s[1..]);
      assert t[Width(t)..] == Encode(s[1..]);
      assert [s[0]] + s[1..] == s;
    }
  }

  // The facts about single bytes are stated as implications, one goal each: the solver works bit by
  // bit, and only as long as it has one goal at a time.

  lemma PushTail(c: CodePoint, b: Byte)
    ensures IsTail(b) ==> Tail(Push(c, b)) == b
  {
  }

  lemma TwoInRange(a: Byte, b: Byte)
    ensures IsTwo(a, b) ==> 0x7F < Two(a, b) <= 0x7FF
  {
  }

  lemma TwoTop(a: Byte, b: Byte)
    ensures IsTwo(a, b) ==> ((Two(a, b) >> 6) | 0xC0) as Byte == a
  {
  }

  lemma EncodeTwo(c: CodePoint, a: Byte, b: Byte)
    ensures 0x7F < c <= 0x7FF && ((c >> 6) | 0xC0) as Byte == a && Tail(c) == b ==>
              IsScalar(c) && EncodeOne(c) == [a, b]
  {
  }

  lemma TwoEncodes(a: Byte, b: Byte)
    requires IsTwo(a, b)
    ensures IsScalar(Two(a, b)) && EncodeOne(Two(a, b)) == [a, b]
  {
    TwoInRange(a, b);
    TwoTop(a, b);
    PushTail((a & 0x1F) as CodePoint, b);
    EncodeTwo(Two(a, b), a, b);
  }

  lemma ThreeInRange(a: Byte, b: Byte, d: Byte)
    ensures IsThree(a, b, d) ==> 0x7FF < Three(a, b, d) <= 0xFFFF && IsScalar(Three(a, b, d))
  {
  }

  lemma ThreeTop(a: Byte, b: Byte, d: Byte)
    ensures IsThree(a, b, d) ==> ((Three(a, b, d) >> 12) | 0xE0) as Byte == a
  {
  }

  lemma ThreeMiddle(a: Byte, b: Byte, d: Byte)
    ensures IsThree(a, b, d) ==> Tail(Three(a, b, d) >> 6) == b
  {
  }

  lemma ThreeLast(a: Byte, b: Byte, d: Byte)
    ensures IsThree(a, b, d) ==> Tail(Three(a, b, d)) == d
  {
    PushTail(Push((a & 0x0F) as CodePoint, b), d);
  }

  lemma EncodeThree(c: CodePoint, a: Byte, b: Byte, d: Byte)
    ensures 0x7FF < c <= 0xFFFF && IsScalar(c)
            && ((c >> 12) | 0xE0) as Byte == a && Tail(c >> 6) == b && Tail(c) == d ==>
              EncodeOne(c) == [a, b, d]
  {
  }

  lemma ThreeEncodes(a: Byte, b: Byte, d: Byte)
    requires IsThree(a, b, d)
    ensures IsScalar(Three(a, b, d)) && EncodeOne(Three(a, b, d)) == [a, b, d]
  {
    ThreeInRange(a, b, d);
    ThreeTop(a, b, d);
    ThreeMiddle(a, b, d);
    ThreeLast(a, b, d);
    EncodeThree(Three(a, b, d), a, b, d);
  }

  lemma FourInRange(a: Byte, b: Byte, d: Byte, e: Byte)
    ensures IsFour(a, b, d, e) ==> 0xFFFF < Four(a, b, d, e) <= 0x10FFFF
  {
  }

  lemma FourTop(a: Byte, b: Byte, d: Byte, e: Byte)
    ensures IsFour(a, b, d, e) ==> ((Four(a, b, d, e) >> 18) | 0xF0) as Byte == a
  {
  }

  lemma FourSecond(a: Byte, b: Byte, d: Byte, e: Byte)
    ensures IsFour(a, b, d, e) ==> Tail(Four(a, b, d, e) >> 12) == b
  {
  }

  lemma FourThird(a: Byte, b: Byte, d: Byte, e: Byte)
    ensures IsFour(a, b, d, e) ==> Tail(Four(a, b, d, e) >> 6) == d
  {
  }

  lemma FourLast(a: Byte, b: Byte, d: Byte, e: Byte)
    ensures IsFour(a, b, d, e) ==> Tail(Four(a, b, d, e)) == e
  {
    PushTail(Push(Push((a & 0x07) as CodePoint, b), d), e);
  }

  lemma EncodeFour(c: CodePoint, a: Byte, b: Byte, d: Byte, e: Byte)
    ensures 0xFFFF < c <= 0x10FFFF && ((c >> 18) | 0xF0) as Byte == a && Tail(c >> 12) == b
            && Tail(c >> 6) == d && Tail(c) == e ==>
              IsScalar(c) && EncodeOne(c) == [a, b, d, e]
  {
  }

  lemma FourEncodes(a: Byte, b: Byte, d: Byte, e: Byte)
    requires IsFour(a, b, d, e)
    ensures IsScalar(Four(a, b, d, e)) && EncodeOne(Four(a, b, d, e)) == [a, b, d, e]
  {
    FourInRange(a, b, d, e);
    FourTop(a, b, d, e);
    FourSecond(a, b, d, e);
    FourThird(a, b, d, e);
    FourLast(a, b, d, e);
    EncodeFour(Four(a, b, d, e), a, b, d, e);
  }

  lemma FirstEncodes(t: seq<Byte>)
    requires Width(t) > 0
    ensures IsScalar(First(t)) && EncodeOne(First(t)) == t[..Width(t)]
  {
    if Width(t) == 2 {
      TwoEncodes(t[0], t[1]);
    } else if Width(t) == 3 {
      ThreeEncodes(t[0], t[1], t[2]);
    } else if Width(t) == 4 {
      FourEncodes(t[0], t[1], t[2], t[3]);
    }
  }

  /** Whatever decodes is the encoding of what it decodes to. */
  lemma {:induction false} DecodedIsEncoding(t: seq<Byte>)
    requires Decode(t).Some?
    ensures AllScalar(Decode(t).value) && Encode(Decode(t).value) == t
    decreases |t|
  {
    if t != [] {
      FirstEncodes(t);
      DecodedIsEncoding(t[Width(t)..]);
      EncodeFirst(t, Width(t), First(t), Decode(t[Width(t)..]).value);
    }
  }

  lemma EncodeFirst(t: seq<Byte>, w: nat, c: CodePoint, rest: seq<CodePoint>)
    requires IsScalar(c) && AllScalar(rest) && w <= |t|
    requires EncodeOne(c) == t[..w] && Encode(rest) == t[w..]
    ensures AllScalar([c] + rest) && Encode([c] + rest) == t
  {
    assert ([c] + rest)[1..] == rest;
    assert t == t[..w] + t[w..];
  }

  ghost predicate IsEncoding(t: seq<Byte>) {
    exists s :: AllScalar(s) && Encode(s) == t
  }

  lemma DecodesExactlyEncodings(t: seq<Byte>)
    ensures Decode(t).Some? <==> IsEncoding(t)
  {
    if Decode(t).Some? {
      DecodedIsEncoding(t);
      assert AllScalar(Decode(t).value) && Encode(Decode(t).value) == t;
    } else if IsEncoding(t) {
      var s :| AllScalar(s) && Encode(s) == t;
      RoundTrip(s);
    }
  }

  // ---------- what the hand-written checks amount to ----------

  predicate Continues(b: Byte) {
    b & 0xC0 == 0x80
  }

  /** The accumulated code point: six more bits from each continuation byte. */
  function Gather(seed: CodePoint, bytes: seq<Byte>): CodePoint {
    if bytes == [] then seed
    else Push(Gather(seed, bytes[..|bytes| - 1]), bytes[|bytes| - 1])
  }

  predicate AllContinue(bytes: seq<Byte>) {
    forall k :: 0 <= k < |bytes| ==> Continues(bytes[k])
  }

  lemma TwoChecked(a: Byte, b: Byte)
    requires a & 0xE0 == 0xC0
    ensures IsTwo(a, b) <==> Continues(b) && Two(a, b) >= 0x80
    ensures a > 0x7F && IsScalar(Two(a, b))
  {
  }

  lemma ThreeChecked(a: Byte, b: Byte, c: Byte)
    requires a & 0xF0 == 0xE0
    ensures IsThree(a, b, c)
       <==> Continues(b) && Continues(c) && Three(a, b, c) >= 0x800 && IsScalar(Three(a, b, c))
    ensures a > 0x7F && !IsTwo(a, b)
  {
  }

  lemma FourChecked(a: Byte, b: Byte, c: Byte, d: Byte)
    requires a & 0xF8 == 0xF0
    ensures IsFour(a, b, c, d)
       <==> && Continues(b) && Continues(c) && Continues(d)
            && Four(a, b, c, d) >= 0x1_0000 && IsScalar(Four(a, b, c, d))
    ensures a > 0x7F && !IsTwo(a, b) && !IsThree(a, b, c)
  {
  }

  /** The continuation count a lead byte announces, or None. */
  function Announced(a: Byte): Option<nat> {
    if a <= 0x7F then Some(0)
    else if a & 0xE0 == 0xC0 then Some(1)
    else if a & 0xF0 == 0xE0 then Some(2)
    else if a & 0xF8 == 0xF0 then Some(3)
    else None
  }

  function Seed(a: Byte): CodePoint {
    if a <= 0x7F then a as CodePoint
    else if a & 0xE0 == 0xC0 then (a & 0x1F) as CodePoint
    else if a & 0xF0 == 0xE0 then (a & 0x0F) as CodePoint
    else (a & 0x07) as CodePoint
  }

  /** The least code point a sequence of this many continuation bytes may encode. */
  function Least(count: nat): CodePoint {
    if count == 0 then 0 else if count == 1 then 0x80 else if count == 2 then 0x800 else 0x1_0000
  }

  /** What both decoders check at a character: enough continuation bytes, a minimal encoding, a
      scalar value. */
  predicate Checked(t: seq<Byte>)
    requires t != []
  {
    && Announced(t[0]).Some?
    && var n := Announced(t[0]).value;
       && n < |t|
       && AllContinue(t[1..n + 1])
       && Gather(Seed(t[0]), t[1..n + 1]) >= Least(n)
       && IsScalar(Gather(Seed(t[0]), t[1..n + 1]))
  }

  lemma GatherAppend(seed: CodePoint, bytes: seq<Byte>, b: Byte)
    ensures Gather(seed, bytes + [b]) == Push(Gather(seed, bytes), b)
  {
    assert (bytes + [b])[..|bytes|] == bytes;
  }

  lemma GatherShort(seed: CodePoint, a: Byte, b: Byte, c: Byte)
    ensures Gather(seed, [a]) == Push(seed, a)
    ensures Gather(seed, [a, b]) == Push(Push(seed, a), b)
    ensures Gather(seed, [a, b, c]) == Push(Push(Push(seed, a), b), c)
  {
    GatherAppend(seed, [], a);
    GatherAppend(seed, [a], b);
    GatherAppend(seed, [a, b], c);
    assert [] + [a] == [a] && [a] + [b] == [a, b] && [a, b] + [c] == [a, b, c];
  }

  lemma NoLead(a: Byte, b: Byte, c: Byte, d: Byte)
    requires Announced(a) == None
    ensures a > 0x7F && !IsTwo(a, b) && !IsThree(a, b, c) && !IsFour(a, b, c, d)
  {
  }

  lemma LeadsDisjoint(a: Byte, b: Byte, c: Byte, d: Byte)
    ensures IsTwo(a, b) ==> a & 0xE0 == 0xC0
    ensures IsThree(a, b, c) ==> a & 0xF0 == 0xE0 && a & 0xE0 != 0xC0
    ensures IsFour(a, b, c, d) ==> a & 0xF8 == 0xF0 && a & 0xE0 != 0xC0 && a & 0xF0 != 0xE0
  {
  }

  lemma TwoByteText(t: seq<Byte>)
    requires t != [] && t[0] & 0xE0 == 0xC0
    ensures Width(t) == if |t| > 1 && IsTwo(t[0], t[1]) then 2 else 0
    ensures |t| > 1 ==> t[1..2] == [t[1]] && Gather(Seed(t[0]), t[1..2]) == Two(t[0], t[1])
  {
    var zero: Byte := 0;
    var a, b := t[0], if |t| > 1 then t[1] else zero;
    var c, d := if |t| > 2 then t[2] else zero, if |t| > 3 then t[3] else zero;
    assert a > 0x7F;
    LeadsDisjoint(a, b, c, d);
    GatherShort(Seed(a), b, c, d);
  }

  lemma ThreeByteText(t: seq<Byte>)
    requires t != [] && t[0] & 0xF0 == 0xE0
    ensures Width(t) == if |t| > 2 && IsThree(t[0], t[1], t[2]) then 3 else 0
    ensures |t| > 2 ==> t[1..3] == [t[1], t[2]]
                        && Gather(Seed(t[0]), t[1..3]) == Three(t[0], t[1], t[2])
  {
    var zero: Byte := 0;
    var a, b := t[0], if |t| > 1 then t[1] else zero;
    var c, d := if |t| > 2 then t[2] else zero, if |t| > 3 then t[3] else zero;
    assert a > 0x7F && a & 0xE0 != 0xC0;
    LeadsDisjoint(a, b, c, d);
    GatherShort(Seed(a), b, c, d);
  }

  lemma FourByteText(t: seq<Byte>)
    requires t != [] && t[0] & 0xF8 == 0xF0
    ensures Width(t) == if |t| > 3 && IsFour(t[0], t[1], t[2], t[3]) then 4 else 0
    ensures |t| > 3 ==> t[1..4] == [t[1], t[2], t[3]]
                        && Gather(Seed(t[0]), t[1..4]) == Four(t[0], t[1], t[2], t[3])
  {
    var zero: Byte := 0;
    var a, b := t[0], if |t| > 1 then t[1] else zero;
    var c, d := if |t| > 2 then t[2] else zero, if |t| > 3 then t[3] else zero;
    assert a > 0x7F && a & 0xE0 != 0xC0 && a & 0xF0 != 0xE0;
    LeadsDisjoint(a, b, c, d);
    GatherShort(Seed(a), b, c, d);
  }

  /** The checks are exactly the RFC's syntax, and gather the same scalar value. */
  lemma CheckedMeansWellFormed(t: seq<Byte>)
    requires t != []
    ensures Checked(t) <==> Width(t) > 0
    ensures Checked(t) ==> Width(t) == Announced(t[0]).value + 1
    ensures Checked(t) ==> First(t) == Gather(Seed(t[0]), t[1..Width(t)])
  {
    match Announced(t[0])
    case None => UnannouncedText(t);
    case Some(n) =>
      if n == 0 {
        assert t[1..1] == [];
      } else if n == 1 {
        TwoByteText(t);
        if |t| > 1 {
          TwoChecked(t[0], t[1]);
        }
      } else if n == 2 {
        ThreeByteText(t);
        if |t| > 2 {
          ThreeChecked(t[0], t[1], t[2]);
          ContinueTwo(t[1], t[2]);
        }
      } else {
        FourByteText(t);
        if |t| > 3 {
          FourChecked(t[0], t[1], t[2], t[3]);
          ContinueThree(t[1], t[2], t[3]);
        }
      }
  }

  lemma ContinueTwo(a: Byte, b: Byte)
    ensures AllContinue([a, b]) <==> Continues(a) && Continues(b)
  {
    assert [a, b][0] == a && [a, b][1] == b;
  }

  lemma ContinueThree(a: Byte, b: Byte, c: Byte)
    ensures AllContinue([a, b, c]) <==> Continues(a) && Continues(b) && Continues(c)
  {
    assert [a, b, c][0] == a && [a, b, c][1] == b && [a, b, c][2] == c;
  }

  lemma UnannouncedText(t: seq<Byte>)
    requires t != [] && Announced(t[0]) == None
    ensures Width(t) == 0
  {
    var zero: Byte := 0;
    NoLead(t[0], if |t| > 1 then t[1] else zero, if |t| > 2 then t[2] else zero,
           if |t| > 3 then t[3] else zero);
  }

  // ---------- the two decoders ----------

  /** The inner loop of both: `ok` while every byte continues, `codePoint` what they gather. */
  method GatherContinuations(t: seq<Byte>, index: nat, count: nat, seed: CodePoint)
    returns (ok: bool, codePoint: CodePoint)
    requires index + count < |t|
    ensures ok <==> AllContinue(t[index + 1..index + count + 1])
    ensures ok ==> codePoint == Gather(seed, t[index + 1..index + count + 1])
  {
    ghost var window := t[index + 1..index + count + 1];
    codePoint := seed;
    var offset := 1;
    while offset <= count
      invariant 1 <= offset <= count + 1
      invariant forall k :: 0 <= k < offset - 1 ==> Continues(window[k])
      invariant codePoint == Gather(seed, window[..offset - 1])
    {
      var continuation := t[index + offset];
      assert continuation == window[offset - 1];
      if !Continues(continuation) {
        return false, codePoint;
      }
      GatherAppend(seed, window[..offset - 1], continuation);
      assert window[..offset] == window[..offset - 1] + [continuation];
      codePoint := Push(codePoint, continuation);
      offset := offset + 1;
    }
    assert window[..offset - 1] == window;
    ok := true;
  }

  lemma DecodeStep(t: seq<Byte>, index: nat)
    requires index < |t|
    ensures !Checked(t[index..]) ==> Decode(t[index..]) == None
    ensures Checked(t[index..]) ==>
              var w := Announced(t[index]).value + 1;
              && index + w <= |t|
              && Decode(t[index..])
                 == Prefixed([CodePointAt(t, index, w)], Decode(t[index + w..]))
  {
    var s := t[index..];
    CheckedMeansWellFormed(s);
    if Checked(s) {
      assert s[Width(s)..] == t[index + Width(s)..];
      assert s[1..Width(s)] == t[index + 1..index + Width(s)];
    }
  }

  /** The code point gathered from the character of this width. */
  function CodePointAt(t: seq<Byte>, index: nat, width: nat): CodePoint
    requires 0 < width && index + width <= |t|
  {
    Gather(Seed(t[index]), t[index + 1..index + width])
  }

  /** The path validator's reading of a lead byte beyond ASCII: how many bytes follow, 0 when none
      may. */
  method PathLead(lead: Byte) returns (count: nat, codePoint: CodePoint)
    requires lead > 0x7F
    ensures count <= 3
    ensures Announced(lead) == if count == 0 then None else Some(count)
    ensures count > 0 ==> codePoint == Seed(lead)
  {
    count, codePoint := 0, 0;
    if lead & 0xE0 == 0xC0 {
      count, codePoint := 1, (lead & 0x1F) as CodePoint;
    } else if lead & 0xF0 == 0xE0 {
      count, codePoint := 2, (lead & 0x0F) as CodePoint;
    } else if lead & 0xF8 == 0xF0 {
      count, codePoint := 3, (lead & 0x07) as CodePoint;
    }
  }

  /** The range checks both decoders end with. */
  lemma RangeChecks(count: nat, codePoint: CodePoint)
    requires 1 <= count <= 3
    ensures codePoint >= Least(count) && IsScalar(codePoint)
       <==> !((count == 1 && codePoint < 0x80) || (count == 2 && codePoint < 0x800)
              || (count == 3 && codePoint < 0x1_0000) || codePoint > 0x10FFFF
              || (codePoint >= 0xD800 && codePoint <= 0xDFFF))
  {
  }

  /** The path validator's look at one character: its width, 0 when it is malformed. */
  method PathCharacter(t: seq<Byte>, index: nat) returns (width: nat)
    requires index < |t|
    ensures width == if Checked(t[index..]) then Announced(t[index]).value + 1 else 0
  {
    var lead := t[index];
    assert t[index..][0] == lead;
    if lead <= 0x7F {
      assert t[index..][1..1] == [];
      return 1;
    }
    var count, codePoint := PathLead(lead);
    if count == 0 {
      return 0;
    }
    if count == 1 && codePoint == 0 {
      NoZeroLead(t, index);
      return 0;
    }
    if count > |t| - index - 1 {
      return 0;
    }
    var ok;
    ok, codePoint := GatherContinuations(t, index, count, codePoint);
    assert t[index..][1..count + 1] == t[index + 1..index + count + 1];
    if !ok {
      return 0;
    }
    RangeChecks(count, codePoint);
    if (count == 1 && codePoint < 0x80) || (count == 2 && codePoint < 0x800)
       || (count == 3 && codePoint < 0x1_0000) || codePoint > 0x10FFFF
       || (codePoint >= 0xD800 && codePoint <= 0xDFFF) {
      return 0;
    }
    return count + 1;
  }

  predicate Decodes(t: seq<Byte>) {
    Decode(t).Some?
  }

  /** One turn of the validator's loop, in terms of what is left to decode. */
  method PathStep(t: seq<Byte>, index: nat) returns (width: nat)
    requires index < |t|
    ensures width == 0 ==> !Decodes(t[index..])
    ensures width > 0 ==>
              index + width <= |t| && (Decodes(t[index..]) <==> Decodes(t[index + width..]))
  {
    width := PathCharacter(t, index);
    DecodesStep(t, index, width);
  }

  lemma DecodesStep(t: seq<Byte>, index: nat, width: nat)
    requires index < |t|
    requires width == if Checked(t[index..]) then Announced(t[index]).value + 1 else 0
    ensures width == 0 ==> !Decodes(t[index..])
    ensures width > 0 ==>
              index + width <= |t| && (Decodes(t[index..]) <==> Decodes(t[index + width..]))
  {
    DecodeStep(t, index);
  }

  /** The path validator: accepts exactly the encodings of scalar sequences. */
  method IsValidUtf8(t: seq<Byte>) returns (valid: bool)
    ensures valid <==> Decodes(t)
  {
    var index := 0;
    assert t[0..] == t;
    while index < |t|
      invariant 0 <= index <= |t|
      invariant Decodes(t) <==> Decodes(t[index..])
    {
      var width := PathStep(t, index);
      if width == 0 {
        return false;
      }
      index := index + width;
    }
    assert t[index..] == [];
    valid := true;
  }

  /** A lead byte of zero payload announces nothing minimal. */
  lemma NoZeroLead(t: seq<Byte>, index: nat)
    requires index < |t| && Announced(t[index]) == Some(1) && Seed(t[index]) == 0
    ensures !Checked(t[index..])
  {
    var s := t[index..];
    assert s[0] == 0xC0;
    CheckedMeansWellFormed(s);
    TwoByteText(s);
  }

  predicate Japanese(c: CodePoint) {
    0x3040 <= c <= 0x30FF || 0x3400 <= c <= 0x9FFF
  }

  predicate AnyJapanese(s: seq<CodePoint>) {
    exists k :: 0 <= k < |s| && Japanese(s[k])
  }

  method TextLead(first: Byte) returns (width: nat, codePoint: CodePoint)
    ensures Announced(first) == if width == 0 then None else Some(width - 1)
    ensures width > 0 ==> codePoint == Seed(first)
  {
    codePoint, width := 0, 0;
    if first < 0x80 {
      codePoint, width := first as CodePoint, 1;
    } else if first & 0xE0 == 0xC0 {
      codePoint, width := (first & 0x1F) as CodePoint, 2;
    } else if first & 0xF0 == 0xE0 {
      codePoint, width := (first & 0x0F) as CodePoint, 3;
    } else if first & 0xF8 == 0xF0 {
      codePoint, width := (first & 0x07) as CodePoint, 4;
    }
  }

  /** The text scanner's look at one character: its width and code point, 0 when it throws. */
  method TextCharacter(t: seq<Byte>, index: nat) returns (width: nat, codePoint: CodePoint)
    requires index < |t|
    ensures width == if Checked(t[index..]) then Announced(t[index]).value + 1 else 0
    ensures width > 0 ==> index + width <= |t| && codePoint == CodePointAt(t, index, width)
  {
    assert t[index..][0] == t[index];
    width, codePoint := TextLead(t[index]);
    if width == 0 {
      return;
    }
    if index + width > |t| {
      return 0, 0;
    }
    var ok;
    ok, codePoint := GatherContinuations(t, index, width - 1, codePoint);
    assert t[index..][1..width] == t[index + 1..index + width];
    if !ok {
      return 0, 0;
    }
    if width > 1 {
      RangeChecks(width - 1, codePoint);
    }
    if (width == 2 && codePoint < 0x80) || (width == 3 && codePoint < 0x800)
       || (width == 4 && codePoint < 0x1_0000) || (codePoint >= 0xD800 && codePoint <= 0xDFFF)
       || codePoint > 0x10FFFF {
      return 0, 0;
    }
  }

  /** The scanner's answer for a text. */
  function Flag(t: seq<Byte>): Option<bool> {
    match Decode(t)
    case None => None
    case Some(s) => Some(AnyJapanese(s))
  }

  function OrFlag(found: bool, rest: Option<bool>): Option<bool> {
    if rest.None? then None else Some(found || rest.value)
  }

  lemma FlagStep(t: seq<Byte>, index: nat)
    requires index < |t|
    ensures !Checked(t[index..]) ==> Flag(t[index..]) == None
    ensures Checked(t[index..]) ==>
              var w := Announced(t[index]).value + 1;
              && index + w <= |t|
              && Flag(t[index..])
                 == OrFlag(Japanese(CodePointAt(t, index, w)), Flag(t[index + w..]))
  {
    DecodeStep(t, index);
    if Checked(t[index..]) {
      var w := Announced(t[index]).value + 1;
      if Decode(t[index + w..]).Some? {
        JapaneseFirst(CodePointAt(t, index, w), Decode(t[index + w..]).value);
      }
    }
  }

  lemma JapaneseFirst(c: CodePoint, rest: seq<CodePoint>)
    ensures AnyJapanese([c] + rest) <==> Japanese(c) || AnyJapanese(rest)
  {
    if Japanese(c) {
      assert ([c] + rest)[0] == c;
    }
    if AnyJapanese(rest) {
      var k :| 0 <= k < |rest| && Japanese(rest[k]);
      assert ([c] + rest)[k + 1] == rest[k];
    }
  }

  /** One turn of the scanner's loop, in terms of what is left to scan. */
  method TextStep(t: seq<Byte>, index: nat) returns (width: nat, codePoint: CodePoint)
    requires index < |t|
    ensures width == 0 ==> Flag(t[index..]) == None
    ensures width > 0 ==>
              && index + width <= |t|
              && Flag(t[index..]) == OrFlag(Japanese(codePoint), Flag(t[index + width..]))
  {
    width, codePoint := TextCharacter(t, index);
    FlagStep(t, index);
  }

  /** The text scanner: None when it throws, otherwise whether some character is Japanese. */
  method ContainsJapanese(t: seq<Byte>) returns (r: Option<bool>)
    ensures r == match Decode(t)
                 case None => None
                 case Some(s) => Some(AnyJapanese(s))
  {
    var index := 0;
    var found := false;
    assert t[0..] == t;
    while index < |t|
      invariant 0 <= index <= |t|
      invariant Flag(t) == OrFlag(found, Flag(t[index..]))
    {
      var width, codePoint := TextStep(t, index);
      if width == 0 {
        return None;
      }
      if (codePoint >= 0x3040 && codePoint <= 0x30FF)
         || (codePoint >= 0x3400 && codePoint <= 0x9FFF) {
        found := true;
      }
      index := index + width;
    }
    r := Some(found);
  }

  function Prefixed(seen: seq<CodePoint>, rest: Option<seq<CodePoint>>): Option<seq<CodePoint>> {
    if rest.None? then None else Some(seen + rest.value)
  }

  /** Run on the same text, the two decoders accept alike: exactly the encodings of sequences of
      Unicode scalar values. */
  method DecodeBoth(t: seq<Byte>) returns (valid: bool, japanese: Option<bool>)
    ensures valid <==> japanese.Some?
    ensures valid <==> IsEncoding(t)
    ensures forall s :: AllScalar(s) && Encode(s) == t ==> japanese == Some(AnyJapanese(s))
  {
    valid := IsValidUtf8(t);
    japanese := ContainsJapanese(t);
    DecodesExactlyEncodings(t);
    forall s | AllScalar(s) && Encode(s) == t
      ensures japanese == Some(AnyJapanese(s))
    {
      RoundTrip(s);
    }
  }
}
