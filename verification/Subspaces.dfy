/** Subspaces: nested prefixes, the keys under them, and the range that holds exactly the tuples extending a prefix. */
module Subspaces {
  import opened ByteStrings
  import opened Digits
  import opened Sequences
  import opened TupleCodes
  import opened TupleElement
  import opened TupleEncoding
  import opened TupleOrder
  import opened TuplePacking
  import opened TupleUnpacking
  import opened VersionstampOffsets
  import opened Wrappers

  predicate StartsWith(key: bytes, prefix: bytes) {
    |prefix| <= |key| && key[..|prefix|] == prefix
  }

  datatype Subspace = Subspace(prefix: bytes, offset: VersionstampOffset) {

    static function All(): Subspace {
      Subspace([], NoStamp(0))
    }

    static function FromBytes(prefix: bytes): Subspace {
      Subspace(prefix, NoStamp(|prefix|))
    }

    /** What the subspace nested under this one by `t` is. */
    function Extended(t: Element): Subspace
      requires Packable(t)
    {
      Subspace(prefix + Encode(t, 0), offset.Add(OffsetOf(t, 0)))
    }

    static method FromElement(e: Element) returns (r: Result<Subspace, Panic>)
      ensures r.Ok? <==> Packable(e)
      ensures r.Ok? ==> r.value == All().Extended(e)
    {
      var buffer := new Buffer([]);
      var packed := PackIntoVec(e, buffer);
      if packed.Err? {
        return Err(packed.error);
      }
      return Ok(Subspace(buffer.data, packed.value));
    }

    method Nested(t: Element) returns (r: Result<Subspace, Panic>)
      ensures r.Ok? <==> Packable(t)
      ensures r.Ok? ==> r.value == Extended(t)
    {
      var buffer := new Buffer(prefix);
      var packed := PackIntoVec(t, buffer);
      if packed.Err? {
        return Err(packed.error);
      }
      return Ok(Subspace(buffer.data, offset.Add(packed.value)));
    }

    method Pack(t: Element) returns (r: Result<bytes, Panic>)
      ensures r.Ok? <==> Packable(t)
      ensures r.Ok? ==> r.value == prefix + Encode(t, 0)
    {
      var buffer := new Buffer(prefix);
      var packed := PackIntoVec(t, buffer);
      if packed.Err? {
        return Err(packed.error);
      }
      return Ok(buffer.data);
    }

    /** The key of `t` under this subspace, with the offset of the incomplete versionstamp of either. */
    function VersionstampedKey(t: Element, apiVersion: int): Result<bytes, Panic>
      requires Packable(t)
    {
      KeyOperand(prefix + Encode(t, 0), offset.Add(OffsetOf(t, 0)), apiVersion)
    }

    method PackWithVersionstamp(t: Element) returns (r: Result<bytes, Panic>)
      ensures Packable(t) ==> r == VersionstampedKey(t, 520)
      ensures !Packable(t) ==> r.Err?
    {
      var output := new Buffer(prefix);
      var packed := PackIntoVec(t, output);
      if packed.Err? {
        return Err(packed.error);
      }
      var total := offset.Add(packed.value);
      match total {
        case OneIncomplete(p) => output.WriteAll(LittleEndian(p, 4));
        case MultipleIncomplete => return Err(MultipleVersionstamps);
        case NoStamp(_) =>
      }
      return Ok(output.data);
    }

    method PackWithVersionstampForKey(t: Element, apiVersion: int) returns (r: Result<bytes, Panic>)
      ensures Packable(t) ==> r == VersionstampedKey(t, apiVersion)
      ensures !Packable(t) ==> r.Err?
    {
      var output := new Buffer(prefix);
      var packed := PackIntoVec(t, output);
      if packed.Err? {
        return Err(packed.error);
      }
      var appended := AppendKeyOffset(offset.Add(packed.value), output, apiVersion);
      if appended.Err? {
        return Err(appended.error);
      }
      return Ok(output.data);
    }

    predicate IsStartOf(key: bytes) {
      StartsWith(key, prefix)
    }

    function Unpack(key: bytes): Result<Element, PackError> {
      if IsStartOf(key) then DecodeRoot(key[|prefix|..]) else Err(BadPrefix)
    }

    function Range(): (bytes, bytes) {
      (prefix + [0x00], prefix + [0xff])
    }

    predicate InRange(key: bytes) {
      Le(Range().0, key) && Lt(key, Range().1)
    }
  }

  // ---------- nesting ----------

  /** The subspace of a tuple with these values. */
  function Of(values: seq<Element>): Subspace
    requires AllPackable(values)
  {
    Subspace(EncodeAll(values, 1), OffsetOfAll(values, 1))
  }

  /** The values of consecutive elements, as one tuple has them. */
  function Flattened(ts: seq<Element>): seq<Element> {
    if ts == [] then [] else Flattened(ts[..|ts| - 1]) + CmpValues(ts[|ts| - 1])
  }

  /** The subspace reached from the whole keyspace by nesting each element in turn. */
  function Chain(ts: seq<Element>): Subspace
    requires AllPackable(ts)
  {
    if ts == [] then Subspace.All() else Chain(ts[..|ts| - 1]).Extended(ts[|ts| - 1])
  }

  lemma ExtendedOf(values: seq<Element>, t: Element)
    requires AllPackable(values) && Packable(t)
    ensures AllPackable(values + CmpValues(t))
    ensures Of(values).Extended(t) == Of(values + CmpValues(t))
  {
    EncodeRoot(t);
    OffsetRoot(t);
    EncodeAllConcat(values, CmpValues(t), 1);
    OffsetConcat(values, CmpValues(t), 1);
  }

  /** Nesting subspaces one by one is packing their tuples as one. */
  lemma {:induction false} NestingConcatenates(ts: seq<Element>)
    requires AllPackable(ts)
    ensures AllPackable(Flattened(ts)) && Chain(ts) == Of(Flattened(ts))
  {
    if ts != [] {
      var last := |ts| - 1;
      assert forall i :: 0 <= i < last ==> ts[..last][i] == ts[i];
      NestingConcatenates(ts[..last]);
      ExtendedOf(Flattened(ts[..last]), ts[last]);
    }
  }

  /** A key under any chain of subspaces is the key of the whole tuple, offset included. */
  lemma NestedKeyIsWholeKey(ts: seq<Element>, t: Element, apiVersion: int)
    requires AllPackable(ts) && Packable(t)
    ensures var whole := Tuple(Flattened(ts) + CmpValues(t));
            && Packable(whole)
            && Chain(ts).prefix + Encode(t, 0) == Encode(whole, 0)
            && Chain(ts).VersionstampedKey(t, apiVersion)
            == KeyOperand(Encode(whole, 0), OffsetOf(whole, 0), apiVersion)
  {
    NestingConcatenates(ts);
    ExtendedOf(Flattened(ts), t);
    var whole := Tuple(Flattened(ts) + CmpValues(t));
    EncodeRoot(whole);
    OffsetRoot(whole);
  }

  /** Unpacking undoes packing under the same subspace, whatever its prefix. */
  lemma UnpackUndoesPack(s: Subspace, t: Element)
    requires Packable(t)
    ensures s.Unpack(s.prefix + Encode(t, 0)) == Ok(RootForm(NormalizeAll(CmpValues(t))))
  {
    DropPrefix(s.prefix, Encode(t, 0));
    RoundTrip(t);
  }

  /** So it does for a versionstamped key in which no versionstamp is incomplete. */
  lemma UnpackUndoesVersionstampedKey(s: Subspace, t: Element, apiVersion: int)
    requires Packable(t) && s.offset.NoStamp? && CountIncomplete(t) == 0
    ensures var key := s.VersionstampedKey(t, apiVersion);
            key.Ok? && s.Unpack(key.value) == Ok(RootForm(NormalizeAll(CmpValues(t))))
  {
    UnpackUndoesPack(s, t);
  }

  /** What committing a versionstamped key stores: the offset is removed, and `tr` written at that position. */
  function Committed(operand: bytes, apiVersion: int, tr: bytes): Option<bytes>
    requires |tr| == 10
  {
    var suffix := if apiVersion < 520 then 2 else 4;
    if |operand| < suffix then None
    else
      var b, p := operand[..|operand| - suffix], LittleEndianValue(operand[|operand| - suffix..]);
      if p + 10 <= |b| then Some(Stamped(b, p, tr)) else None
  }

  /** A key with one incomplete versionstamp is stored as the key of the completed values. */
  lemma CommittedKeyIsCompleted(values: seq<Element>, apiVersion: int, tr: bytes)
    requires AllPackable(values) && CountAllIncomplete(values) == 1 && |tr| == 10
    requires |EncodeAll(values, 1)| < 0x1_0000_0000
    ensures var p := StampPositionIn(values, 1);
            var operand := KeyOperand(EncodeAll(values, 1), OffsetOfAll(values, 1), apiVersion);
            if apiVersion < 520 && p >= 0x1_0000 then operand == Err(LegacyOffsetTooLarge)
            else && operand.Ok?
                 && Committed(operand.value, apiVersion, tr) == Some(EncodeAll(AllCompleted(values, tr), 1))
  {
    var b, p := EncodeAll(values, 1), StampPositionIn(values, 1);
    StampingCompletesIn(values, 1, tr);
    PowersOfWidths();
    if apiVersion >= 520 {
      LittleEndianRoundTrip(p, 4);
      DropPrefix(b, LittleEndian(p, 4));
    } else if p < 0x1_0000 {
      LittleEndianRoundTrip(p, 2);
      DropPrefix(b, LittleEndian(p, 2));
    }
  }

  // ---------- the range ----------

  /** `t` has fewer values than `u`, equal to the first ones of `u` in the order of elements. */
  predicate IsProperPrefix(t: seq<Element>, u: seq<Element>) {
    |t| < |u| && CmpElements(t, u[..|t|]).Equal?
  }

  predicate IsPrefix(t: seq<Element>, u: seq<Element>) {
    |t| <= |u| && CmpElements(t, u[..|t|]).Equal?
  }

  /** A range holds the keys that continue the prefix with anything but the escape byte. */
  lemma RangeShape(s: Subspace, key: bytes)
    ensures s.InRange(key) <==>
            StartsWith(key, s.prefix) && |key| > |s.prefix| && key[|s.prefix|] != 0xff
  {
    var p := s.prefix;
    if StartsWith(key, p) {
      Split(key, |p|);
      CmpPrepend(p, [0x00], key[|p|..]);
      CmpPrepend(p, key[|p|..], [0xff]);
      CmpOneByte(0x00, key[|p|..]);
      CmpReverse(key[|p|..], [0xff]);
      CmpOneByte(0xff, key[|p|..]);
    } else {
      DifferentStart(p, key, [0x00], [0xff]);
      CmpReverse(key, p + [0x00]);
    }
  }

  lemma CmpOneByte(x: byte, b: bytes)
    ensures CmpBytes([x], b).Less? <==> b != [] && (x < b[0] || (x == b[0] && |b| > 1))
    ensures CmpBytes([x], b).Equal? <==> b == [x]
  {
    assert [x][1..] == [];
    CmpEqualIff([x], b);
  }

  /** A key that does not start with `p` is on one side of all those that do. */
  lemma {:induction false} DifferentStart(p: bytes, key: bytes, s: bytes, t: bytes)
    requires !StartsWith(key, p)
    ensures CmpBytes(key, p + s) == CmpBytes(key, p + t) && !CmpBytes(key, p + s).Equal?
  {
    if key != [] && key[0] == p[0] {
      if StartsWith(key[1..], p[1..]) {
        Uncons(key[..|p|]);
        Uncons(p);
      }
      DifferentStart(p[1..], key[1..], s, t);
      TailOfConcat(p, s);
      TailOfConcat(p, t);
    }
  }

  lemma {:induction false} NormalizeTake(es: seq<Element>, n: nat)
    requires n <= |es|
    ensures NormalizeAll(es[..n]) == NormalizeAll(es)[..n]
  {
    if n > 0 {
      NormalizeTake(es[1..], n - 1);
      assert es[..n][1..] == es[1..][..n - 1];
    }
  }

  lemma EqualValues(t: seq<Element>, u: seq<Element>)
    requires AllPackable(t) && AllPackable(u)
    ensures CmpElements(t, u).Equal? <==> EncodeAll(t, 1) == EncodeAll(u, 1)
  {
    ValuesOrder(t, u);
    CmpEqualIff(EncodeAll(t, 1), EncodeAll(u, 1));
  }

  /** A packed tuple that continues a packed prefix with `r` has the values of the prefix first. */
  lemma ContinuationIsExtension(t: seq<Element>, u: seq<Element>, r: bytes)
    requires AllPackable(t) && AllPackable(u)
    requires EncodeAll(u, 1) == EncodeAll(t, 1) + r && NoEscape(r)
    ensures IsPrefix(t, u) && (r != [] ==> IsProperPrefix(t, u))
  {
    ItemsInvert(t, r);
    ItemsInvert(u, []);
    Empty(EncodeAll(u, 1));
    PrependAll(NormalizeAll(u));
    var ws := DecodeItems(r, 1, false).value.1;
    assert NormalizeAll(u) == NormalizeAll(t) + ws;
    DropPrefix(NormalizeAll(t), ws);
    NormalizeTake(u, |t|);
    EncodeAllNormalized(t, 1);
    EncodeAllNormalized(u[..|t|], 1);
    EqualValues(t, u[..|t|]);
  }

  lemma ExtensionIsContinuation(t: seq<Element>, u: seq<Element>)
    requires AllPackable(t) && AllPackable(u) && IsPrefix(t, u)
    ensures EncodeAll(u, 1) == EncodeAll(t, 1) + EncodeAll(u[|t|..], 1)
    ensures NoEscape(EncodeAll(u[|t|..], 1))
    ensures |t| < |u| ==> EncodeAll(u[|t|..], 1) != []
  {
    Split(u, |t|);
    EncodeAllConcat(u[..|t|], u[|t|..], 1);
    EqualValues(t, u[..|t|]);
    ValuesHead(u[|t|..]);
  }

  /** The range of a subspace holds the packed tuples that extend its tuple, and no other. */
  lemma RangeIsProperExtensions(t: seq<Element>, u: seq<Element>)
    requires AllPackable(t) && AllPackable(u)
    ensures Of(t).InRange(EncodeAll(u, 1)) <==> IsProperPrefix(t, u)
  {
    var p, key := EncodeAll(t, 1), EncodeAll(u, 1);
    RangeShape(Of(t), key);
    if Of(t).InRange(key) {
      Split(key, |p|);
      ContinuationIsExtension(t, u, key[|p|..]);
    }
    if IsProperPrefix(t, u) {
      ExtensionIsContinuation(t, u);
      DropPrefix(p, EncodeAll(u[|t|..], 1));
    }
  }

  // ---------- `is_start_of` accepts more ----------

  /** A packed tuple that starts with the prefix extends its tuple unless an escape byte follows the prefix. */
  lemma StartOfCondition(t: seq<Element>, u: seq<Element>)
    requires AllPackable(t) && AllPackable(u) && Of(t).IsStartOf(EncodeAll(u, 1))
    ensures var p, key := EncodeAll(t, 1), EncodeAll(u, 1);
            IsPrefix(t, u) <==> |key| == |p| || key[|p|] != ESCAPE
  {
    var p, key := EncodeAll(t, 1), EncodeAll(u, 1);
    Split(key, |p|);
    if |key| == |p| || key[|p|] != ESCAPE {
      ContinuationIsExtension(t, u, key[|p|..]);
    }
    if IsPrefix(t, u) {
      ExtensionIsContinuation(t, u);
      DropPrefix(p, EncodeAll(u[|t|..], 1));
    }
  }

  lemma IsStartOfExtensions(t: seq<Element>, u: seq<Element>)
    requires AllPackable(t) && AllPackable(u) && IsPrefix(t, u)
    ensures Of(t).IsStartOf(EncodeAll(u, 1))
  {
    ExtensionIsContinuation(t, u);
    DropPrefix(EncodeAll(t, 1), EncodeAll(u[|t|..], 1));
  }

  /** `is_start_of` accepts no packed tuple but those that extend `t`. */
  ghost predicate StartOfIsExact(t: seq<Element>)
    requires AllPackable(t)
  {
    forall u | AllPackable(u) && Of(t).IsStartOf(EncodeAll(u, 1)) :: IsPrefix(t, u)
  }

  lemma {:induction false} ValidUtf8Concat(a: bytes, b: bytes)
    requires ValidUtf8(a) && ValidUtf8(b)
    ensures ValidUtf8(a + b)
  {
    if a == [] {
      Empty(b);
    } else {
      var n := if a[0] <= 0x7f then 1 else if a[0] <= 0xdf then 2 else if a[0] <= 0xef then 3 else 4;
      ValidUtf8Concat(a[n..], b);
      var c := a + b;
      SameStart(a, b, n);
      assert c[0] == a[0] && (n > 1 ==> c[1] == a[1]) && (n > 2 ==> c[2] == a[2]) && (n > 3 ==> c[3] == a[3]);
    }
  }

  lemma SameStart(a: bytes, b: bytes, n: nat)
    requires n <= |a|
    ensures (a + b)[n..] == a[n..] + b
    ensures forall i :: 0 <= i < n ==> (a + b)[i] == a[i]
  {
  }

  /** A longer element whose encoding starts with that of `e`, when `e` does not end by itself. */
  function ByteExtension(e: Element): Element
    requires !SelfDelimiting(e)
  {
    match e
    case Bytes(v) => Bytes(v + [NIL])
    case String(v) => ValidUtf8Concat(v, [NIL]); String(v + [NIL])
    case Tuple(v) => Tuple(v + [Nil])
  }

  lemma ByteExtensionEscapes(e: Element)
    requires Packable(e) && !SelfDelimiting(e) && |Encode(e, 1)| < 0x1_0000_0000
    ensures Packable(ByteExtension(e))
    ensures StartsWith(Encode(ByteExtension(e), 1), Encode(e, 1) + [ESCAPE])
  {
    match e
    case Bytes(v) => TerminatedExtension([BYTES], v);
    case String(v) => TerminatedExtension([STRING], v);
    case Tuple(v) =>
      EncodeAllConcat(v, [Nil], 2);
      EncodeAllOfOne(Nil, 2);
      var all := EncodeAll(v, 2);
      assert Encode(ByteExtension(e), 1) == [NESTED] + (all + [NIL, ESCAPE] + [NIL]);
      assert Encode(e, 1) + [ESCAPE] == [NESTED] + (all + [NIL, ESCAPE]);
  }

  lemma TerminatedExtension(h: bytes, v: bytes)
    ensures StartsWith(h + Terminated(v + [NIL]), h + Terminated(v) + [ESCAPE])
    ensures |v| <= |Escape(v)|
  {
    EscapeConcat(v, [NIL]);
    EscapeOfNil();
    EscapeGrows(v);
    var x, y := h + Terminated(v) + [ESCAPE], [NIL];
    Append3(h, Escape(v), [NIL], [ESCAPE]);
    Assoc(Escape(v), [NIL], [ESCAPE]);
    Assoc(h, Escape(v) + [NIL] + [ESCAPE], y);
    Assoc(h, Escape(v), [NIL]);
    assert h + Terminated(v + [NIL]) == x + y;
    DropPrefix(x, y);
  }

  lemma {:induction false} EscapeGrows(v: bytes)
    ensures |v| <= |Escape(v)|
  {
    if v != [] {
      EscapeGrows(v[1..]);
    }
  }

  /** `is_start_of` is exact for a tuple exactly when its last value is no byte string, text or nested tuple. */
  lemma StartOfIsExactWhen(t: seq<Element>)
    requires AllPackable(t) && |EncodeAll(t, 1)| < 0x1_0000_0000
    ensures StartOfIsExact(t) <==> t == [] || SelfDelimiting(t[|t| - 1])
  {
    if t == [] || SelfDelimiting(t[|t| - 1]) {
      forall u | AllPackable(u) && Of(t).IsStartOf(EncodeAll(u, 1))
        ensures IsPrefix(t, u)
      {
        StartOfCondition(t, u);
        NoEscapeFollows(t, u);
      }
    } else {
      var u := FalseExtension(t);
      StartOfCondition(t, u);
      assert !IsPrefix(t, u);
    }
  }

  /** A packed tuple that starts with the prefix of `t` and goes on with an escape byte. */
  lemma FalseExtension(t: seq<Element>) returns (u: seq<Element>)
    requires AllPackable(t) && |EncodeAll(t, 1)| < 0x1_0000_0000
    requires t != [] && !SelfDelimiting(t[|t| - 1])
    ensures AllPackable(u) && Of(t).IsStartOf(EncodeAll(u, 1))
    ensures |EncodeAll(u, 1)| > |EncodeAll(t, 1)| && EncodeAll(u, 1)[|EncodeAll(t, 1)|] == ESCAPE
  {
    var init, e := t[..|t| - 1], t[|t| - 1];
    u := init + [ByteExtension(e)];
    LastValue(t);
    ByteExtensionEscapes(e);
    EncodeAllConcat(init, [ByteExtension(e)], 1);
    EncodeAllOfOne(ByteExtension(e), 1);
    EscapedContinuation(EncodeAll(init, 1), Encode(e, 1), Encode(ByteExtension(e), 1));
  }

  lemma LastValue(t: seq<Element>)
    requires AllPackable(t) && t != []
    ensures AllPackable(t[..|t| - 1])
    ensures EncodeAll(t, 1) == EncodeAll(t[..|t| - 1], 1) + Encode(t[|t| - 1], 1)
  {
    var init, e := t[..|t| - 1], t[|t| - 1];
    hide Packable, Encode, EncodeAll;
    Unsnoc(t);
    assert forall i :: 0 <= i < |init| ==> init[i] == t[i];
    EncodeAllConcat(init, [e], 1);
    EncodeAllOfOne(e, 1);
  }

  lemma EscapedContinuation(a: bytes, b: bytes, c: bytes)
    requires StartsWith(c, b + [ESCAPE])
    ensures StartsWith(a + c, a + b) && |a + c| > |a + b| && (a + c)[|a + b|] == ESCAPE
  {
    assert c[..|b|] == c[..|b| + 1][..|b|];
    assert (a + c)[..|a + b|] == a + c[..|b|];
    assert c[|b|] == c[..|b| + 1][|b|];
  }

  /** After a value that ends by itself, a packed tuple cannot go on with an escape byte. */
  lemma NoEscapeFollows(t: seq<Element>, u: seq<Element>)
    requires AllPackable(t) && AllPackable(u) && Of(t).IsStartOf(EncodeAll(u, 1))
    requires t == [] || SelfDelimiting(t[|t| - 1])
    ensures |EncodeAll(u, 1)| == |EncodeAll(t, 1)| || EncodeAll(u, 1)[|EncodeAll(t, 1)|] != ESCAPE
  {
    var p, key := EncodeAll(t, 1), EncodeAll(u, 1);
    Split(key, |p|);
    var r := key[|p|..];
    if t == [] {
      ValuesHead(u);
    } else if r != [] && r[0] == ESCAPE {
      EscapeDoesNotParse(t, r);
      ItemsInvert(u, []);
      Empty(key);
      PrependAll(NormalizeAll(u));
      assert false;
    }
  }

  lemma EscapeDoesNotParse(t: seq<Element>, r: bytes)
    requires AllPackable(t) && t != [] && SelfDelimiting(t[|t| - 1])
    requires r != [] && r[0] == ESCAPE
    ensures DecodeItems(EncodeAll(t, 1) + r, 1, false).Err?
  {
    hide Encode, Packable, Normalize, NormalizeAll;
    var init, e := t[..|t| - 1], t[|t| - 1];
    LastValue(t);
    Assoc(EncodeAll(init, 1), Encode(e, 1), r);
    EncodeHead(e, 1);
    ItemsInvert(init, Encode(e, 1) + r);
    DecodeSelfDelimiting(e, 1, r);
    assert DecodeFirst(r, 1).Err?;
    assert DecodeItems(r, 1, false).Err?;
  }
}
