/** Packing into a buffer: each method appends the encoding and returns the versionstamp offset. */
module TuplePacking {
  import opened ByteStrings
  import opened Digits
  import opened Sequences
  import opened TupleCodes
  import opened TupleElement
  import opened TupleEncoding
  import opened TupleIntegers
  import opened VersionstampOffsets
  import opened Wrappers

  type PackResult = Result<VersionstampOffset, IoError>

  lemma {:induction false} EscapeConcat(a: bytes, b: bytes)
    ensures Escape(a + b) == Escape(a) + Escape(b)
  {
    if a == [] {
      Empty(b);
      Empty(Escape(b));
    } else {
      EscapeConcat(a[1..], b);
      TailOfConcat(a, b);
      Assoc(EscapeByte(a[0]), Escape(a[1..]), Escape(b));
    }
  }

  lemma {:induction false} EscapeClean(v: bytes)
    requires NIL !in v
    ensures Escape(v) == v
  {
    if v != [] {
      EscapeClean(v[1..]);
      Uncons(v);
    }
  }

  /** The bytes from `pos` to the zero byte at `idx` are copied, with an escape after. */
  lemma EscapeUpTo(v: bytes, pos: nat, idx: nat)
    requires pos <= idx < |v| && NIL !in v[pos..idx] && v[idx] == NIL
    ensures Escape(v[..idx + 1]) == Escape(v[..pos]) + v[pos..idx + 1] + [ESCAPE]
  {
    var clean := v[pos..idx];
    EscapeClean(clean);
    EscapeConcat(clean, [NIL]);
    EscapeOfNil();
    SliceNext(v, pos, idx);
    Assoc(clean, [NIL], [ESCAPE]);
    EscapeConcat(v[..pos], clean + [NIL]);
    assert v[..idx + 1] == v[..pos] + v[pos..idx + 1];
    Assoc(Escape(v[..pos]), clean + [NIL], [ESCAPE]);
  }

  lemma EscapeOfNil()
    ensures Escape([NIL]) == [NIL] + [ESCAPE]
  {
    assert [NIL][1..] == [];
  }

  lemma EscapeRest(v: bytes, pos: nat)
    requires pos <= |v| && NIL !in v[pos..]
    ensures Escape(v) == Escape(v[..pos]) + v[pos..]
  {
    EscapeClean(v[pos..]);
    EscapeConcat(v[..pos], v[pos..]);
    Split(v, pos);
  }

  lemma Append3(a: bytes, b: bytes, c: bytes, d: bytes)
    ensures a + b + c + d == a + (b + c + d)
  {
    Assoc(a, b, c);
    Assoc(a, b + c, d);
  }

  /** The pieces of `v` between its zero bytes, each zero byte followed by an escape, then the terminator. The returned
      size counts the type code the caller wrote. */
  method WriteBytes(w: Buffer, v: bytes) returns (r: PackResult)
    modifies w
    ensures r.Ok? <==> |v| < 0x1_0000_0000
    ensures r.Ok? ==> w.data == old(w.data) + Terminated(v)
    ensures r.Ok? ==> r.value == NoStamp(1 + |Terminated(v)|)
    ensures r.Err? ==> w.data == old(w.data)
  {
    if |v| >= 0x1_0000_0000 {
      return Err(InvalidData);
    }
    var size, pos := |v|, 0;
    for idx := 0 to |v|
      invariant 0 <= pos <= idx
      invariant NIL !in v[pos..idx]
      invariant w.data == old(w.data) + Escape(v[..pos])
      invariant size == |v| + |Escape(v[..pos])| - pos
    {
      if v[idx] == NIL {
        var next := idx + 1;
        EscapeUpTo(v, pos, idx);
        Append3(old(w.data), Escape(v[..pos]), v[pos..next], [ESCAPE]);
        size := size + 1;
        w.WriteAll(v[pos..next]);
        w.WriteAll([ESCAPE]);
        assert w.data == old(w.data) + Escape(v[..next]);
        pos := next;
      }
    }
    EscapeRest(v, pos);
    Append3(old(w.data), Escape(v[..pos]), v[pos..], [NIL]);
    w.WriteAll(v[pos..]);
    w.WriteAll([NIL]);
    size := size + 2;
    return Ok(NoStamp(size));
  }

  method PackElement(e: Element, w: Buffer, depth: nat) returns (r: PackResult)
    modifies w
    ensures r.Ok? <==> Packable(e)
    ensures r.Ok? ==> w.data == old(w.data) + Encode(e, depth) && r.value == OffsetOf(e, depth)
    decreases e, 1
  {
    hide Terminated, EncodeInt, PackableInt, Float32Bytes, Float64Bytes, EncodeAll, OffsetOfAll;
    match e
    case Nil =>
      var nil := if depth > 1 then [NIL, ESCAPE] else [NIL];
      w.WriteAll(nil);
      r := Ok(NoStamp(|nil|));
    case Bool(b) =>
      w.WriteAll([if b then TRUE else FALSE]);
      r := Ok(NoStamp(1));
    case Int(i) =>
      I64IsPackable(i);
      var offset := PackSigned(w, i, 8);
      r := Ok(offset);
    case BigInt(n) =>
      r := PackBigInt(w, n);
    case Float(bits) =>
      w.WriteAll([FLOAT]);
      w.WriteAll(Float32Bytes(bits));
      Assoc(old(w.data), [FLOAT], Float32Bytes(bits));
      r := Ok(NoStamp(4 + 1));
    case Double(bits) =>
      w.WriteAll([DOUBLE]);
      w.WriteAll(Float64Bytes(bits));
      Assoc(old(w.data), [DOUBLE], Float64Bytes(bits));
      r := Ok(NoStamp(8 + 1));
    case String(s) =>
      w.WriteAll([STRING]);
      Assoc(old(w.data), [STRING], Terminated(s));
      r := WriteBytes(w, s);
    case Bytes(b) =>
      w.WriteAll([BYTES]);
      Assoc(old(w.data), [BYTES], Terminated(b));
      r := WriteBytes(w, b);
    case Uuid(u) =>
      w.WriteAll([UUID]);
      w.WriteAll(u);
      Assoc(old(w.data), [UUID], u);
      r := Ok(NoStamp(1 + 16));
    case Versionstamp(s) =>
      w.WriteAll([VERSIONSTAMP]);
      w.WriteAll(s);
      Assoc(old(w.data), [VERSIONSTAMP], s);
      r := Ok(if IsComplete(s) then NoStamp(1 + 12) else OneIncomplete(1));
    case Tuple(v) =>
      r := PackSlice(v, w, depth);
  }

  /** The elements one level deeper, between the nesting markers unless at the root. */
  method PackSlice(v: seq<Element>, w: Buffer, depth: nat) returns (r: PackResult)
    modifies w
    ensures r.Ok? <==> Packable(Tuple(v))
    ensures r.Ok? ==> w.data == old(w.data) + Encode(Tuple(v), depth) && r.value == OffsetOf(Tuple(v), depth)
    decreases v, 1
  {
    var offset := NoStamp(0);
    if depth > 0 {
      w.WriteAll([NESTED]);
      offset := offset.AddSize(1);
    }
    var items := PackItems(v, w, depth + 1, offset);
    if items.Err? {
      return items;
    }
    offset := items.value;
    if depth > 0 {
      w.WriteAll([NIL]);
      offset := offset.AddSize(1);
    }
    PackedTuple(v, depth, old(w.data));
    return Ok(offset);
  }

  /** The loop of `PackSlice`, which adds to the offset of what is already written. */
  method PackItems(v: seq<Element>, w: Buffer, depth: nat, first: VersionstampOffset) returns (r: PackResult)
    modifies w
    ensures r.Ok? <==> AllPackable(v)
    ensures r.Ok? ==> w.data == old(w.data) + EncodeAll(v, depth) && r.value == first.Add(OffsetOfAll(v, depth))
    decreases v, 0
  {
    var offset := first;
    TakeEnds(v);
    Empty(w.data);
    for i := 0 to |v|
      invariant AllPackable(v[..i])
      invariant w.data == old(w.data) + EncodeAll(v[..i], depth)
      invariant offset == first.Add(OffsetOfAll(v[..i], depth))
    {
      var packed := PackElement(v[i], w, depth);
      if packed.Err? {
        return packed;
      }
      PackedNext(v, i, depth, first);
      Assoc(old(w.data), EncodeAll(v[..i], depth), Encode(v[i], depth));
      offset := offset.Add(packed.value);
    }
    return Ok(offset);
  }

  /** The markers around the elements of a nested tuple, and none at the root. */
  lemma PackedTuple(v: seq<Element>, depth: nat, before: bytes)
    requires AllPackable(v)
    ensures depth > 0 ==>
              && before + [NESTED] + EncodeAll(v, depth + 1) + [NIL] == before + Encode(Tuple(v), depth)
              && NoStamp(1).Add(OffsetOfAll(v, depth + 1)).AddSize(1) == OffsetOf(Tuple(v), depth)
    ensures depth == 0 ==>
              && Encode(Tuple(v), depth) == EncodeAll(v, 1)
              && NoStamp(0).Add(OffsetOfAll(v, 1)) == OffsetOf(Tuple(v), depth)
  {
    Assoc(before + [NESTED], EncodeAll(v, depth + 1), [NIL]);
    Assoc(before, [NESTED], EncodeAll(v, depth + 1) + [NIL]);
  }

  lemma PackedNext(v: seq<Element>, i: nat, depth: nat, first: VersionstampOffset)
    requires i < |v| && AllPackable(v[..i]) && Packable(v[i])
    ensures AllPackable(v[..i + 1])
    ensures EncodeAll(v[..i + 1], depth) == EncodeAll(v[..i], depth) + Encode(v[i], depth)
    ensures first.Add(OffsetOfAll(v[..i], depth)).Add(OffsetOf(v[i], depth))
         == first.Add(OffsetOfAll(v[..i + 1], depth))
  {
    TakeNext(v, i);
    OffsetOfOne(v[i], depth);
    OffsetConcat(v[..i], [v[i]], depth);
    EncodeAllConcat(v[..i], [v[i]], depth);
    EncodeAllOfOne(v[i], depth);
    AddAssociative(first, OffsetOfAll(v[..i], depth), OffsetOf(v[i], depth));
  }

  // ---------- keys with a versionstamp to fill in ----------

  datatype Panic =
    | PackFailed(error: IoError)
    | MultipleVersionstamps
    | LegacyOffsetTooLarge

  /** The key operand made of the encoding `b`: a little-endian offset follows an incomplete versionstamp. */
  function KeyOperand(b: bytes, offset: VersionstampOffset, apiVersion: int): Result<bytes, Panic> {
    match offset
    case NoStamp(_) => Ok(b)
    case OneIncomplete(p) =>
      if apiVersion >= 520 then Ok(b + LittleEndian(p, 4))
      else if p < 0x1_0000 then Ok(b + LittleEndian(p, 2))
      else Err(LegacyOffsetTooLarge)
    case MultipleIncomplete => Err(MultipleVersionstamps)
  }

  method AppendKeyOffset(offset: VersionstampOffset, output: Buffer, apiVersion: int) returns (r: Result<(), Panic>)
    modifies output
    ensures var k := KeyOperand(old(output.data), offset, apiVersion);
            match k case Ok(b) => r == Ok(()) && output.data == b case Err(p) => r == Err(p)
  {
    match offset {
      case OneIncomplete(p) =>
        if apiVersion < 520 {
          if p >= 0x1_0000 {
            return Err(LegacyOffsetTooLarge);
          }
          output.WriteAll(LittleEndian(p, 2));
        } else {
          output.WriteAll(LittleEndian(p, 4));
        }
      case MultipleIncomplete =>
        return Err(MultipleVersionstamps);
      case NoStamp(_) =>
    }
    return Ok(());
  }

  method PackIntoVec(e: Element, output: Buffer) returns (r: Result<VersionstampOffset, Panic>)
    modifies output
    ensures r.Ok? <==> Packable(e)
    ensures r.Err? ==> r.error.PackFailed?
    ensures r.Ok? ==> output.data == old(output.data) + Encode(e, 0) && r.value == OffsetOf(e, 0)
  {
    var packed := PackElement(e, output, 0);
    if packed.Err? {
      return Err(PackFailed(packed.error));
    }
    return Ok(packed.value);
  }

  /** The offset also counts the bytes that were in the buffer. */
  method PackIntoVecWithVersionstamp(e: Element, output: Buffer) returns (r: Result<VersionstampOffset, Panic>)
    modifies output
    ensures r.Ok? <==> Packable(e)
    ensures r.Err? ==> r.error.PackFailed?
    ensures r.Ok? ==> r.value == NoStamp(|old(output.data)|).Add(OffsetOf(e, 0))
    ensures r.Ok? && !r.value.MultipleIncomplete? ==>
              KeyOperand(old(output.data) + Encode(e, 0), r.value, 520) == Ok(output.data)
    ensures r.Ok? && r.value.MultipleIncomplete? ==> output.data == old(output.data) + Encode(e, 0)
  {
    var offset := NoStamp(|output.data|);
    var packed :- PackIntoVec(e, output);
    offset := offset.Add(packed);
    if offset.OneIncomplete? {
      output.WriteAll(LittleEndian(offset.offset, 4));
    }
    return Ok(offset);
  }

  method PackToVecWithVersionstamp(e: Element) returns (r: Result<bytes, Panic>)
    ensures Packable(e) ==> r == KeyOperand(Encode(e, 0), OffsetOf(e, 0), 520)
    ensures !Packable(e) ==> r.Err? && r.error.PackFailed?
  {
    var vec := new Buffer([]);
    var packed := PackIntoVecWithVersionstamp(e, vec);
    if packed.Ok? {
      OperandOfWhole(e, packed.value, vec.data);
    }
    r := match packed
      case Err(error) => Err(error)
      case Ok(MultipleIncomplete) => Err(MultipleVersionstamps)
      case Ok(_) => Ok(vec.data);
  }

  lemma OperandOfWhole(e: Element, offset: VersionstampOffset, data: bytes)
    requires Packable(e) && offset == NoStamp(0).Add(OffsetOf(e, 0))
    requires !offset.MultipleIncomplete? ==> KeyOperand([] + Encode(e, 0), offset, 520) == Ok(data)
    ensures KeyOperand(Encode(e, 0), OffsetOf(e, 0), 520)
         == if offset.MultipleIncomplete? then Err(MultipleVersionstamps) else Ok(data)
  {
    Empty(Encode(e, 0));
  }

  /** The bytes that a key ends with for its incomplete versionstamp: two up to API version 510, four from 520 on. */
  lemma KeyOffsetBytes(b: bytes, p: nat, apiVersion: int)
    requires p < 0x1_0000_0000
    ensures KeyOperand(b, OneIncomplete(p), apiVersion)
         == if apiVersion >= 520 then
              Ok(b + [p % 256, p / 256 % 256, p / 0x1_0000 % 256, p / 0x100_0000])
            else if p < 0x1_0000 then Ok(b + [p % 256, p / 256])
            else Err(LegacyOffsetTooLarge)
    ensures KeyOperand(b, NoStamp(p), apiVersion) == Ok(b)
    ensures KeyOperand(b, MultipleIncomplete, apiVersion) == Err(MultipleVersionstamps)
  {
    assert p / 256 / 256 == p / 0x1_0000 && p / 256 / 256 / 256 == p / 0x100_0000;
    assert LittleEndian(p / 256 / 256, 2) == [p / 0x1_0000 % 256, p / 0x100_0000 % 256];
    assert LittleEndian(p, 2) == [p % 256, p / 256 % 256];
    assert LittleEndian(p, 4) == [p % 256, p / 256 % 256] + LittleEndian(p / 256 / 256, 2);
    assert LittleEndian(p, 4) == [p % 256, p / 256 % 256, p / 0x1_0000 % 256, p / 0x100_0000 % 256];
    assert p / 0x100_0000 % 256 == p / 0x100_0000;
    assert p < 0x1_0000 ==> p / 256 % 256 == p / 256;
  }
}
