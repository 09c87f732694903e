/** The wire of profiling blobs in bytes: numbers, protocol versions, event codes, flags and the layout of spans. */
module ProfileWire {
  import opened ByteStrings
  import opened Digits
  import opened ProfileDecoding
  import opened ProfileEvents
  import opened ProfileRoundTrip
  import opened Sequences
  import opened Wrappers

  // ---------- numbers ----------

  /** The number of four bytes, least significant first. */
  function OfFour(x0: nat, x1: nat, x2: nat, x3: nat): nat {
    x0 + 0x100 * x1 + 0x1_0000 * x2 + 0x100_0000 * x3
  }

  function Number32(b: bytes, p: nat): nat
    requires p + 4 <= |b|
  {
    OfFour(b[p], b[p + 1], b[p + 2], b[p + 3])
  }

  function Number64(b: bytes, p: nat): nat
    requires p + 8 <= |b|
  {
    Number32(b, p) + 0x1_0000_0000 * Number32(b, p + 4)
  }

  /** A number whose top bit is a sign, in two's complement. */
  function Signed(x: nat, sign: nat): int {
    if x < sign then x else x - 2 * sign
  }

  lemma ValueOfFour(d: bytes)
    requires |d| == 4
    ensures LittleEndianValue(d) == OfFour(d[0], d[1], d[2], d[3])
  {
    assert d[1..][1..] == d[2..] && d[2..][1..] == d[3..] && d[3..][1..] == [];
    assert LittleEndianValue(d[3..]) == OfFour(d[3], 0, 0, 0);
    assert LittleEndianValue(d[2..]) == OfFour(d[2], d[3], 0, 0);
    assert LittleEndianValue(d[1..]) == OfFour(d[1], d[2], d[3], 0);
  }

  lemma {:induction false} ValueOfConcat(c: bytes, d: bytes)
    ensures LittleEndianValue(c + d) == LittleEndianValue(c) + Pow256(|c|) * LittleEndianValue(d)
  {
    if c == [] {
      Empty(d);
    } else {
      TailOfConcat(c, d);
      ValueOfConcat(c[1..], d);
      assert Pow256(|c|) * LittleEndianValue(d) == 256 * (Pow256(|c| - 1) * LittleEndianValue(d));
    }
  }

  lemma ValueOfOne(b: bytes, p: nat)
    requires p < |b|
    ensures LittleEndianValue(b[p..p + 1]) == b[p]
  {
    assert b[p..p + 1][1..] == [];
  }

  /**
   What the primitives read: little-endian bytes, two's complement, and any byte but zero for true; or what they say
   when the blob ends before.
   */
  lemma NumbersRead(b: bytes, p: nat)
    ensures p + 4 <= |b| ==>
              && U32(b, p) == Ok((Number32(b, p), p + 4))
              && I32(b, p) == Ok((Signed(Number32(b, p), 0x8000_0000), p + 4))
    ensures p + 8 <= |b| ==>
              && U64(b, p) == Ok((Number64(b, p), p + 8))
              && I64(b, p) == Ok((Signed(Number64(b, p), 0x8000_0000_0000_0000), p + 8))
    ensures p < |b| ==> U8(b, p) == Ok((b[p], p + 1)) && Bool(b, p) == Ok((b[p] != 0x00, p + 1))
    ensures p <= |b| < p + 4 ==>
              U32(b, p).Err? && I32(b, p).Err? && U32(b, p).error == I32(b, p).error == UnexpectedEof(p, 4, |b| - p)
    ensures p <= |b| < p + 8 ==>
              U64(b, p).Err? && I64(b, p).Err? && U64(b, p).error == I64(b, p).error == UnexpectedEof(p, 8, |b| - p)
    ensures p == |b| ==>
              U8(b, p).Err? && Bool(b, p).Err? && U8(b, p).error == Bool(b, p).error == UnexpectedEof(p, 1, 0)
  {
    hide LittleEndianValue, OfFour, Pow256, Uint;
    PowersOfWidths();
    if p < |b| {
      UintRead(b, p, 1);
      ValueOfOne(b, p);
    }
    if p + 4 <= |b| {
      UintRead(b, p, 4);
      ValueOf32(b, p);
    }
    if p + 8 <= |b| {
      UintRead(b, p, 8);
      ValueOf64(b, p);
    }
    if p <= |b| {
      UintEnds(b, p);
    }
  }

  lemma UintRead(b: bytes, p: nat, n: nat)
    requires p + n <= |b|
    ensures Uint(b, p, n) == Ok((LittleEndianValue(b[p..p + n]), p + n))
  {
    hide LittleEndianValue;
  }

  lemma UintEnds(b: bytes, p: nat)
    requires p <= |b|
    ensures forall n :: p + n > |b| ==> Uint(b, p, n) == Err(UnexpectedEof(p, n, |b| - p))
  {
    hide LittleEndianValue;
  }

  lemma ValueOf32(b: bytes, p: nat)
    requires p + 4 <= |b|
    ensures LittleEndianValue(b[p..p + 4]) == Number32(b, p)
  {
    hide LittleEndianValue;
    ValueOfFour(b[p..p + 4]);
  }

  lemma ValueOf64(b: bytes, p: nat)
    requires p + 8 <= |b|
    ensures LittleEndianValue(b[p..p + 8]) == Number64(b, p)
  {
    hide LittleEndianValue, OfFour;
    PowersOfWidths();
    ValueOf32(b, p);
    ValueOf32(b, p + 4);
    ValueOfConcat(b[p..p + 4], b[p + 4..p + 8]);
    assert b[p..p + 8] == b[p..p + 4] + b[p + 4..p + 8];
  }

  /** Four bytes of length and that many bytes. */
  lemma StringsRead(b: bytes, p: nat)
    requires p + 4 <= |b|
    ensures var n, q := Number32(b, p), p + 4;
            Bytes(b, p) == if q + n <= |b| then Ok((b[q..q + n], q + n)) else Err(UnexpectedEof(q, n, |b| - q))
  {
    hide U32, I32, U64, I64, U8, Bool, OfFour;
    NumbersRead(b, p);
  }

  // ---------- versions ----------

  predicate IsVersion(version: u64) {
    version in {0x0fdb_00b0_7101_0000, 0x0fdb_00b0_7200_0000, 0x0fdb_00b0_7300_0000, 0x0fdb_00b0_7400_0000}
  }

  /** A blob of any other version is refused for it; one of these four never is. */
  lemma VersionsAreChecked(blob: bytes)
    requires |blob| >= 8
    ensures var version, r := Number64(blob, 0), Decoded(blob);
            && (r == Err(UnsupportedProtocolVersion(version)) <==> !IsVersion(version))
            && (r.Ok? ==> r.value.0 == version)
  {
    hide U64, Events;
    NumbersRead(blob, 0);
  }

  // ---------- spans ----------

  /** 7.2, 7.3 and 7.4 have 25 bytes of span context, 7.1 has the 16 bytes of its trace. */
  lemma SpansRead(b: bytes, p: nat, version: u64)
    requires IsVersion(version)
    ensures version != 0x0fdb_00b0_7101_0000 && p + 25 <= |b| ==>
              Span(b, p, version)
              == Ok((SpanContext(Number64(b, p), Number64(b, p + 8), Number64(b, p + 16), b[p + 24]), p + 25))
    ensures version == 0x0fdb_00b0_7101_0000 && p + 16 <= |b| ==>
              Span(b, p, version) == Ok((SpanContext(Number64(b, p), Number64(b, p + 8), 0, 0), p + 16))
  {
    hide U64, U8, Number64;
    NumbersRead(b, p);
    NumbersRead(b, p + 8);
    NumbersRead(b, p + 16);
    NumbersRead(b, p + 24);
  }

  // ---------- events ----------

  /** The code of each kind of event. */
  function KindOf<R, M>(e: EventOf<R, M>): byte {
    match e
    case GetVersion(_, _, _, _) => 0
    case Get(_, _, _, _) => 1
    case GetRange(_, _, _, _) => 2
    case Commit(_, _, _, _, _, _) => 3
    case GetError(_, _, _) => 4
    case GetRangeError(_, _, _) => 5
    case CommitError(_, _, _) => 6
  }

  /** The first four bytes of an event say which kind is read, or are the code that is not known. */
  lemma CodesRead(b: bytes, p: nat, version: u64)
    requires p + 4 <= |b|
    ensures var code, r := Signed(Number32(b, p), 0x8000_0000), EventAt(b, p, version);
            && (r.Ok? ==> code == KindOf(r.value.0))
            && (!(0 <= code <= 6) ==> r == Err(UnknownEventType(code)))
  {
    hide I32, Header, Body;
    NumbersRead(b, p);
    var code := Signed(Number32(b, p), 0x8000_0000);
    if 0 <= code <= 6 {
      var header := Header(b, p + 4);
      if header.Ok? {
        BodiesRead(b, header.value.1, version, code, header.value.0);
      }
    }
  }

  lemma BodiesRead(b: bytes, p: nat, version: u64, code: i32, header: EventHeader)
    requires p <= |b| && 0 <= code <= 6
    ensures var r := Body(b, p, version, code, header);
            r.Ok? ==> code == KindOf(r.value.0) && r.value.0.header == header
  {
    hide U64, U32, I32, I64, Bytes, Range, Request;
  }

  /** An event is written with the code of its kind. */
  lemma CodesWritten(w: WireEvent, version: u64)
    ensures |EncodeEvent(w, version)| >= 4 && EncodeEvent(w, version)[..4] == [KindOf(w), 0, 0, 0]
  {
    hide EncodeHeader, EncodeBody;
    SmallCode(KindOf(w));
  }

  lemma SmallCode(k: byte)
    requires k < 128
    ensures EncodeI32(k) == [k, 0, 0, 0]
  {
    PowersOfWidths();
    assert LittleEndian(0, 3) == [0, 0, 0];
  }

  // ---------- mutations and conflict ranges ----------

  lemma ChecksumsStripped(m: Mutation, offset: nat)
    ensures var kind := if m.mutationType >= 0x80 then m.mutationType % 0x40 else m.mutationType;
            var more := if m.mutationType >= 0xc0 then 6 else if m.mutationType >= 0x80 then 4 else 0;
            StripChecksum(m, offset)
            == if |m.param2| < more then Err(MalformedMutation(offset))
               else Ok(Mutation(kind, m.param1, m.param2[..|m.param2| - more]))
  {
    TakeEnds(m.param2);
  }

  lemma ClearsExpanded(m: Mutation)
    ensures ExpandClear(m)
         == if m.mutationType == 1 && m.param2 == [] && m.param1 != [] then
              Mutation(1, m.param1[..|m.param1| - 1], m.param1)
            else m
  {
  }

  /** The top bit of a mutation's type announces four bytes more, and the next bit then two more. */
  lemma MutationsRead(b: bytes, p: nat, param1: bytes, q: nat, param2: bytes, r: nat)
    requires p < |b| && Bytes(b, p + 1) == Ok((param1, q)) && Bytes(b, q) == Ok((param2, r))
    ensures var kind := if b[p] >= 0x80 then b[p] % 0x40 else b[p];
            var more := if b[p] >= 0xc0 then 6 else if b[p] >= 0x80 then 4 else 0;
            MutationAt(b, p)
            == if |param2| < more then Err(MalformedMutation(p))
               else if kind == 1 && |param2| == more && param1 != [] then
                 Ok((Mutation(1, param1[..|param1| - 1], param1), r))
               else Ok((Mutation(kind, param1, param2[..|param2| - more]), r))
  {
    hide U8, Bytes, StripChecksum, ExpandClear;
    NumbersRead(b, p);
    var m := Mutation(b[p], param1, param2);
    ChecksumsStripped(m, p);
    if StripChecksum(m, p).Ok? {
      ClearsExpanded(StripChecksum(m, p).value);
    }
  }

  /** An empty end stands for the single key before the begin, which ends in zero then. */
  lemma RangesRead(b: bytes, p: nat, begin: bytes, q: nat, end: bytes, r: nat)
    requires p <= |b| && Bytes(b, p) == Ok((begin, q)) && Bytes(b, q) == Ok((end, r))
    ensures ConflictRange(b, p)
         == if end != [] || begin == [] then Ok((KeyRange(begin, end), r))
            else if begin[|begin| - 1] == 0x00 then Ok((KeyRange(begin[..|begin| - 1], begin), r))
            else Err(MalformedKeyRange(p))
  {
    hide Bytes;
  }
}
