/**
 The layout that the C++ client writes, and its round trip. The wire has choices that decoding undoes: a compact form
 for single-key ranges and clears, a checksum with or without an index after each mutation, two span contexts.
 */
module ProfileRoundTrip {
  import opened ByteStrings
  import opened Digits
  import opened ProfileDecoding
  import opened ProfileEvents
  import opened Sequences
  import opened Wrappers

  datatype WireRange = WireRange(range: KeyRange, compact: bool)

  /** `suffix` is what follows the second parameter: nothing, a checksum, or a checksum and its index. */
  datatype WireMutation = WireMutation(mutation: Mutation, compact: bool, suffix: bytes)

  type WireEvent = EventOf<WireRange, WireMutation>
  type WireRequest = CommitRequest<WireRange, WireMutation>

  // ---------- layout ----------

  function EncodeSigned(x: int, width: nat): bytes
    requires width > 0 && -128 * Pow256(width - 1) <= x < 128 * Pow256(width - 1)
  {
    LittleEndian(AsUnsigned(x, width), width)
  }

  function EncodeI32(x: i32): bytes {
    PowersOfWidths();
    EncodeSigned(x, 4)
  }

  function EncodeI64(x: i64): bytes {
    PowersOfWidths();
    EncodeSigned(x, 8)
  }

  function EncodeBool(x: bool): bytes {
    LittleEndian(if x then 1 else 0, 1)
  }

  function EncodeBytes(v: bytes): bytes {
    LittleEndian(|v|, 4) + v
  }

  predicate Short(v: bytes) {
    |v| < 0x1_0000_0000
  }

  function EncodeRange(range: KeyRange): bytes {
    EncodeBytes(range.begin) + EncodeBytes(range.end)
  }

  predicate ShortRange(range: KeyRange) {
    Short(range.begin) && Short(range.end)
  }

  function EncodeOptionalBytes(v: Option<bytes>): bytes {
    EncodeBool(v.Some?) + if v.Some? then EncodeBytes(v.value) else []
  }

  function EncodeHeader(h: EventHeader): bytes {
    LittleEndian(h.startTimestamp, 8) + (EncodeBytes(h.dcId) + EncodeOptionalBytes(h.tenant))
  }

  predicate ShortHeader(h: EventHeader) {
    Short(h.dcId) && (h.tenant.Some? ==> Short(h.tenant.value))
  }

  function WrittenRange(w: WireRange): KeyRange {
    if w.compact then KeyRange(w.range.end, []) else w.range
  }

  predicate WritableRange(w: WireRange) {
    ShortRange(WrittenRange(w)) && (w.compact ==> w.range.end != [])
  }

  /** A compact range is that of a single key; a plain one must not look like a compact one. */
  predicate ValidRange(w: WireRange) {
    && WritableRange(w)
    && if w.compact then w.range.end == w.range.begin + [0] else w.range.begin == [] || w.range.end != []
  }

  function EncodeRanges(ws: seq<WireRange>): bytes {
    if ws == [] then [] else EncodeRange(WrittenRange(ws[0])) + EncodeRanges(ws[1..])
  }

  function WrittenMutation(w: WireMutation): Mutation {
    var flags := if |w.suffix| == 0 then 0 else if |w.suffix| == CHECKSUM_LEN then 0x80 else 0xc0;
    var m := w.mutation;
    var code := if m.mutationType + flags < 256 then m.mutationType + flags else m.mutationType;
    if w.compact then Mutation(code, m.param2, w.suffix) else Mutation(code, m.param1, m.param2 + w.suffix)
  }

  /** The flag bits are free when a checksum is written, and only a clear has a compact form. */
  predicate WritableMutation(w: WireMutation) {
    var m := w.mutation;
    && Short(WrittenMutation(w).param1) && Short(WrittenMutation(w).param2)
    && (|w.suffix| == 0 || |w.suffix| == CHECKSUM_LEN || |w.suffix| == CHECKSUM_LEN + ACCUMULATIVE_INDEX_LEN)
    && m.mutationType < (if |w.suffix| == 0 then 0x80 else 0x40)
    && (w.compact ==> m.mutationType == CLEAR_RANGE && m.param2 != [])
  }

  /** A compact clear begins at its end without the last byte; a plain one must not look like a compact one. */
  predicate ValidMutation(w: WireMutation) {
    var m := w.mutation;
    && WritableMutation(w)
    && if w.compact then m.param1 == m.param2[..|m.param2| - 1]
       else m.mutationType == CLEAR_RANGE ==> m.param1 == [] || m.param2 != []
  }

  function EncodeMutation(m: Mutation): bytes {
    LittleEndian(m.mutationType, 1) + (EncodeBytes(m.param1) + EncodeBytes(m.param2))
  }

  function EncodeMutations(ws: seq<WireMutation>): bytes {
    if ws == [] then [] else EncodeMutation(WrittenMutation(ws[0])) + EncodeMutations(ws[1..])
  }

  function EncodeSpan(span: SpanContext, version: u64): bytes {
    LittleEndian(span.traceFirst, 8) + (LittleEndian(span.traceSecond, 8)
      + if HasOtelSpanContext(version) then LittleEndian(span.spanId, 8) + LittleEndian(span.flags, 1) else [])
  }

  function EncodeOptionalSpan(span: Option<SpanContext>, version: u64): bytes {
    EncodeBool(span.Some?) + if span.Some? then EncodeSpan(span.value, version) else []
  }

  function EncodeRequest(w: WireRequest, version: u64): bytes {
    LittleEndian(|w.readConflictRanges|, 4) + (EncodeRanges(w.readConflictRanges)
      + (LittleEndian(|w.writeConflictRanges|, 4) + (EncodeRanges(w.writeConflictRanges)
      + (LittleEndian(|w.mutations|, 4) + (EncodeMutations(w.mutations)
      + EncodeScalars(w, version))))))
  }

  /** The fields of a request after its vectors. */
  function EncodeScalars(w: WireRequest, version: u64): bytes {
    EncodeI64(w.readSnapshot) + (EncodeBool(w.reportConflictingKeys) + (EncodeBool(w.lockAware)
      + EncodeOptionalSpan(w.spanContext, version)))
  }

  predicate WritableRequest(w: WireRequest) {
    && |w.readConflictRanges| < 0x1_0000_0000 && |w.writeConflictRanges| < 0x1_0000_0000
    && |w.mutations| < 0x1_0000_0000
    && (forall i :: 0 <= i < |w.readConflictRanges| ==> WritableRange(w.readConflictRanges[i]))
    && (forall i :: 0 <= i < |w.writeConflictRanges| ==> WritableRange(w.writeConflictRanges[i]))
    && (forall i :: 0 <= i < |w.mutations| ==> WritableMutation(w.mutations[i]))
  }

  predicate ValidRequest(w: WireRequest, version: u64) {
    && WritableRequest(w)
    && (forall i :: 0 <= i < |w.readConflictRanges| ==> ValidRange(w.readConflictRanges[i]))
    && (forall i :: 0 <= i < |w.writeConflictRanges| ==> ValidRange(w.writeConflictRanges[i]))
    && (forall i :: 0 <= i < |w.mutations| ==> ValidMutation(w.mutations[i]))
    && (w.spanContext.Some? ==> ValidSpan(w.spanContext.value, version))
  }

  /** The span context of 7.1 has no room for a span id and flags. */
  predicate ValidSpan(span: SpanContext, version: u64) {
    HasOtelSpanContext(version) || (span.spanId == 0 && span.flags == 0)
  }

  function EventCode(w: WireEvent): i32 {
    match w
    case GetVersion(_, _, _, _) => EVENT_GET_VERSION
    case Get(_, _, _, _) => EVENT_GET
    case GetRange(_, _, _, _) => EVENT_GET_RANGE
    case Commit(_, _, _, _, _, _) => EVENT_COMMIT
    case GetError(_, _, _) => EVENT_ERROR_GET
    case GetRangeError(_, _, _) => EVENT_ERROR_GET_RANGE
    case CommitError(_, _, _) => EVENT_ERROR_COMMIT
  }

  function EncodeBody(w: WireEvent, version: u64): bytes {
    match w
    case GetVersion(_, latency, priority, readVersion) =>
      LittleEndian(latency, 8) + (LittleEndian(priority, 4) + EncodeI64(readVersion))
    case Get(_, latency, valueSize, key) =>
      LittleEndian(latency, 8) + (EncodeI32(valueSize) + EncodeBytes(key))
    case GetRange(_, latency, rangeSize, range) =>
      LittleEndian(latency, 8) + (EncodeI32(rangeSize) + EncodeRange(range))
    case Commit(_, latency, numMutations, commitBytes, commitVersion, request) =>
      LittleEndian(latency, 8) + (EncodeI32(numMutations) + (EncodeI32(commitBytes) + (EncodeI64(commitVersion)
        + EncodeRequest(request, version))))
    case GetError(_, errorCode, key) =>
      EncodeI32(errorCode) + EncodeBytes(key)
    case GetRangeError(_, errorCode, range) =>
      EncodeI32(errorCode) + EncodeRange(range)
    case CommitError(_, errorCode, request) =>
      EncodeI32(errorCode) + EncodeRequest(request, version)
  }

  function EncodeEvent(w: WireEvent, version: u64): bytes {
    EncodeI32(EventCode(w)) + (EncodeHeader(w.header) + EncodeBody(w, version))
  }

  predicate WritableEvent(w: WireEvent) {
    && ShortHeader(w.header)
    && match w
       case GetVersion(_, _, _, _) => true
       case Get(_, _, _, key) => Short(key)
       case GetRange(_, _, _, range) => ShortRange(range)
       case Commit(_, _, _, _, _, request) => WritableRequest(request)
       case GetError(_, _, key) => Short(key)
       case GetRangeError(_, _, range) => ShortRange(range)
       case CommitError(_, _, request) => WritableRequest(request)
  }

  /** An event that decoding gives back. */
  predicate ValidEvent(w: WireEvent, version: u64) {
    && WritableEvent(w)
    && (w.Commit? || w.CommitError? ==> ValidRequest(w.request, version))
  }

  function EncodeEvents(ws: seq<WireEvent>, version: u64): bytes {
    if ws == [] then [] else EncodeEvent(ws[0], version) + EncodeEvents(ws[1..], version)
  }

  function EncodeBlob(version: u64, ws: seq<WireEvent>): bytes {
    LittleEndian(version, 8) + EncodeEvents(ws, version)
  }

  // ---------- what the choices mean ----------

  function RangesOf(ws: seq<WireRange>): seq<KeyRange> {
    seq(|ws|, i requires 0 <= i < |ws| => ws[i].range)
  }

  function MutationsOf(ws: seq<WireMutation>): seq<Mutation> {
    seq(|ws|, i requires 0 <= i < |ws| => ws[i].mutation)
  }

  function RequestOf(w: WireRequest): CommitRequest<KeyRange, Mutation> {
    CommitRequest(RangesOf(w.readConflictRanges), RangesOf(w.writeConflictRanges), MutationsOf(w.mutations),
                  w.readSnapshot, w.reportConflictingKeys, w.lockAware, w.spanContext)
  }

  /** The event, whichever way its conflict ranges and mutations are written. */
  function EventOfWire(w: WireEvent): Event {
    match w
    case GetVersion(header, latency, priority, readVersion) => GetVersion(header, latency, priority, readVersion)
    case Get(header, latency, valueSize, key) => Get(header, latency, valueSize, key)
    case GetRange(header, latency, rangeSize, range) => GetRange(header, latency, rangeSize, range)
    case Commit(header, latency, numMutations, commitBytes, commitVersion, request) =>
      Commit(header, latency, numMutations, commitBytes, commitVersion, RequestOf(request))
    case GetError(header, errorCode, key) => GetError(header, errorCode, key)
    case GetRangeError(header, errorCode, range) => GetRangeError(header, errorCode, range)
    case CommitError(header, errorCode, request) => CommitError(header, errorCode, RequestOf(request))
  }

  // ---------- what decoding makes of them ----------

  /** The range that is read at a position, or the error when it is not a range that any key has. */
  function ReadRange(w: WireRange, p: nat): Result<KeyRange, DecodeError> {
    ExpandRange(WrittenRange(w), p)
  }

  function ReadRanges(ws: seq<WireRange>, p: nat): Result<seq<KeyRange>, DecodeError> {
    if ws == [] then Ok([])
    else
      var range :- ReadRange(ws[0], p);
      var ranges :- ReadRanges(ws[1..], p + |EncodeRange(WrittenRange(ws[0]))|);
      Ok([range] + ranges)
  }

  function ReadMutation(w: WireMutation): Mutation {
    ExpandClear(if w.compact then Mutation(w.mutation.mutationType, w.mutation.param2, []) else w.mutation)
  }

  function ReadMutations(ws: seq<WireMutation>): seq<Mutation> {
    if ws == [] then [] else [ReadMutation(ws[0])] + ReadMutations(ws[1..])
  }

  function ReadSpan(span: SpanContext, version: u64): SpanContext {
    if HasOtelSpanContext(version) then span else span.(spanId := 0, flags := 0)
  }

  function ReadOptionalSpan(span: Option<SpanContext>, version: u64): Option<SpanContext> {
    if span.Some? then Some(ReadSpan(span.value, version)) else None
  }

  function ReadRequest(w: WireRequest, version: u64, p: nat): Result<CommitRequest<KeyRange, Mutation>, DecodeError> {
    var readRanges :- ReadRanges(w.readConflictRanges, p + 4);
    var writeRanges :- ReadRanges(w.writeConflictRanges, p + 4 + |EncodeRanges(w.readConflictRanges)| + 4);
    Ok(CommitRequest(readRanges, writeRanges, ReadMutations(w.mutations), w.readSnapshot, w.reportConflictingKeys,
                     w.lockAware, ReadOptionalSpan(w.spanContext, version)))
  }

  /** The size of the fields of an event between its header and its request, if it has one. */
  function BeforeRequest(w: WireEvent): nat {
    if w.Commit? then 24 else 4
  }

  /** The event whose body is read at a position. */
  function ReadBody(w: WireEvent, version: u64, p: nat): Result<Event, DecodeError> {
    match w
    case GetVersion(header, latency, priority, readVersion) => Ok(GetVersion(header, latency, priority, readVersion))
    case Get(header, latency, valueSize, key) => Ok(Get(header, latency, valueSize, key))
    case GetRange(header, latency, rangeSize, range) => Ok(GetRange(header, latency, rangeSize, range))
    case Commit(header, latency, numMutations, commitBytes, commitVersion, request) =>
      var r :- ReadRequest(request, version, p + BeforeRequest(w));
      Ok(Commit(header, latency, numMutations, commitBytes, commitVersion, r))
    case GetError(header, errorCode, key) => Ok(GetError(header, errorCode, key))
    case GetRangeError(header, errorCode, range) => Ok(GetRangeError(header, errorCode, range))
    case CommitError(header, errorCode, request) =>
      var r :- ReadRequest(request, version, p + BeforeRequest(w));
      Ok(CommitError(header, errorCode, r))
  }

  function BodyOffset(w: WireEvent, p: nat): nat {
    p + 4 + |EncodeHeader(w.header)|
  }

  function ReadEvents(ws: seq<WireEvent>, version: u64, p: nat): Result<seq<Event>, DecodeError> {
    if ws == [] then Ok([])
    else
      var event :- ReadBody(ws[0], version, BodyOffset(ws[0], p));
      var events :- ReadEvents(ws[1..], version, p + |EncodeEvent(ws[0], version)|);
      Ok([event] + events)
  }

  /** Parsing gives this value and goes on at `q`, or this error. */
  ghost predicate ReadsAs<T>(r: Parse<T>, value: Result<T, DecodeError>, q: nat) {
    match value
    case Err(e) => r == Err(e)
    case Ok(v) => r == Ok((v, q))
  }

  // ---------- round trip ----------

  /** The bytes `e` are in `b` at position `p`. */
  predicate At(b: bytes, p: nat, e: bytes) {
    p + |e| <= |b| && b[p..p + |e|] == e
  }

  lemma AtConcat(b: bytes, p: nat, e: bytes, f: bytes)
    requires At(b, p, e + f)
    ensures At(b, p, e) && At(b, p + |e|, f)
  {
    var s := b[p..p + |e + f|];
    DropPrefix(e, f);
    assert s[..|e|] == b[p..p + |e|];
    assert s[|e|..] == b[p + |e|..p + |e| + |f|];
  }

  lemma UintInverts(b: bytes, p: nat, x: nat, n: nat)
    requires x < Pow256(n) && At(b, p, LittleEndian(x, n))
    ensures Uint(b, p, n) == Ok((x, p + n))
  {
    hide LittleEndian, LittleEndianValue;
    LittleEndianRoundTrip(x, n);
  }

  lemma U8Inverts(b: bytes, p: nat, x: byte)
    requires At(b, p, LittleEndian(x, 1))
    ensures U8(b, p) == Ok((x, p + 1))
  {
    hide LittleEndian, Uint;
    assert Pow256(1) == 256;
    UintInverts(b, p, x, 1);
  }

  lemma BoolInverts(b: bytes, p: nat, x: bool)
    requires At(b, p, EncodeBool(x))
    ensures Bool(b, p) == Ok((x, p + 1))
  {
    hide LittleEndian, U8;
    U8Inverts(b, p, if x then 1 else 0);
  }

  lemma U32Inverts(b: bytes, p: nat, x: u32)
    requires At(b, p, LittleEndian(x, 4))
    ensures U32(b, p) == Ok((x, p + 4))
  {
    hide LittleEndian, Uint;
    PowersOfWidths();
    UintInverts(b, p, x, 4);
  }

  lemma U64Inverts(b: bytes, p: nat, x: u64)
    requires At(b, p, LittleEndian(x, 8))
    ensures U64(b, p) == Ok((x, p + 8))
  {
    hide LittleEndian, Uint;
    PowersOfWidths();
    UintInverts(b, p, x, 8);
  }

  lemma I32Inverts(b: bytes, p: nat, x: i32)
    requires At(b, p, EncodeI32(x))
    ensures I32(b, p) == Ok((x, p + 4))
  {
    hide LittleEndian, Uint;
    PowersOfWidths();
    UintInverts(b, p, AsUnsigned(x, 4), 4);
  }

  lemma I64Inverts(b: bytes, p: nat, x: i64)
    requires At(b, p, EncodeI64(x))
    ensures I64(b, p) == Ok((x, p + 8))
  {
    hide LittleEndian, Uint;
    PowersOfWidths();
    UintInverts(b, p, AsUnsigned(x, 8), 8);
  }

  lemma BytesInverts(b: bytes, p: nat, v: bytes)
    requires Short(v) && At(b, p, EncodeBytes(v))
    ensures Bytes(b, p) == Ok((v, p + |EncodeBytes(v)|))
  {
    hide LittleEndian, U32;
    AtConcat(b, p, LittleEndian(|v|, 4), v);
    U32Inverts(b, p, |v|);
  }

  lemma RangeInverts(b: bytes, p: nat, range: KeyRange)
    requires ShortRange(range) && At(b, p, EncodeRange(range))
    ensures Range(b, p) == Ok((range, p + |EncodeRange(range)|))
  {
    hide EncodeBytes, Bytes;
    AtConcat(b, p, EncodeBytes(range.begin), EncodeBytes(range.end));
    BytesInverts(b, p, range.begin);
    BytesInverts(b, p + |EncodeBytes(range.begin)|, range.end);
  }

  lemma OptionalBytesInverts(b: bytes, p: nat, v: Option<bytes>)
    requires v.Some? ==> Short(v.value)
    requires At(b, p, EncodeOptionalBytes(v))
    ensures OptionalBytes(b, p) == Ok((v, p + |EncodeOptionalBytes(v)|))
  {
    hide EncodeBytes, Bytes, Bool;
    AtConcat(b, p, EncodeBool(v.Some?), if v.Some? then EncodeBytes(v.value) else []);
    BoolInverts(b, p, v.Some?);
    if v.Some? {
      BytesInverts(b, p + 1, v.value);
    }
  }

  lemma HeaderInverts(b: bytes, p: nat, h: EventHeader)
    requires ShortHeader(h) && At(b, p, EncodeHeader(h))
    ensures Header(b, p) == Ok((h, p + |EncodeHeader(h)|))
  {
    hide LittleEndian, EncodeBytes, EncodeOptionalBytes, U64, Bytes, OptionalBytes;
    AtConcat(b, p, LittleEndian(h.startTimestamp, 8), EncodeBytes(h.dcId) + EncodeOptionalBytes(h.tenant));
    AtConcat(b, p + 8, EncodeBytes(h.dcId), EncodeOptionalBytes(h.tenant));
    U64Inverts(b, p, h.startTimestamp);
    BytesInverts(b, p + 8, h.dcId);
    OptionalBytesInverts(b, p + 8 + |EncodeBytes(h.dcId)|, h.tenant);
  }

  lemma {:induction false} RangesInvert(b: bytes, p: nat, ws: seq<WireRange>)
    requires forall i :: 0 <= i < |ws| ==> WritableRange(ws[i])
    requires At(b, p, EncodeRanges(ws))
    ensures ReadsAs(ConflictRanges(b, p, |ws|), ReadRanges(ws, p), p + |EncodeRanges(ws)|)
    decreases |ws|
  {
    hide EncodeRange, Range, ExpandRange;
    if ws != [] {
      var e := EncodeRange(WrittenRange(ws[0]));
      AtConcat(b, p, e, EncodeRanges(ws[1..]));
      assert WritableRange(ws[0]);
      RangeInverts(b, p, WrittenRange(ws[0]));
      RangesInvert(b, p + |e|, ws[1..]);
    }
  }

  lemma MutationFormsExpand(w: WireMutation, offset: nat)
    requires WritableMutation(w)
    ensures var m := StripChecksum(WrittenMutation(w), offset); m.Ok? && ExpandClear(m.value) == ReadMutation(w)
  {
    DropPrefix(w.mutation.param2, w.suffix);
    Empty(w.mutation.param2);
  }

  lemma MutationInverts(b: bytes, p: nat, w: WireMutation)
    requires WritableMutation(w) && At(b, p, EncodeMutation(WrittenMutation(w)))
    ensures MutationAt(b, p) == Ok((ReadMutation(w), p + |EncodeMutation(WrittenMutation(w))|))
  {
    hide LittleEndian, EncodeBytes, U8, Bytes, StripChecksum, ExpandClear, WrittenMutation, ReadMutation;
    var m := WrittenMutation(w);
    AtConcat(b, p, LittleEndian(m.mutationType, 1), EncodeBytes(m.param1) + EncodeBytes(m.param2));
    AtConcat(b, p + 1, EncodeBytes(m.param1), EncodeBytes(m.param2));
    U8Inverts(b, p, m.mutationType);
    BytesInverts(b, p + 1, m.param1);
    BytesInverts(b, p + 1 + |EncodeBytes(m.param1)|, m.param2);
    MutationFormsExpand(w, p);
  }

  lemma {:induction false} MutationsInvert(b: bytes, p: nat, ws: seq<WireMutation>)
    requires forall i :: 0 <= i < |ws| ==> WritableMutation(ws[i])
    requires At(b, p, EncodeMutations(ws))
    ensures Mutations(b, p, |ws|) == Ok((ReadMutations(ws), p + |EncodeMutations(ws)|))
    decreases |ws|
  {
    hide EncodeMutation, WrittenMutation, MutationAt, WritableMutation, ReadMutation;
    if ws != [] {
      var e := EncodeMutation(WrittenMutation(ws[0]));
      AtConcat(b, p, e, EncodeMutations(ws[1..]));
      MutationInverts(b, p, ws[0]);
      MutationsInvert(b, p + |e|, ws[1..]);
    }
  }

  lemma CountedRangesInvert(b: bytes, p: nat, ws: seq<WireRange>)
    requires |ws| < 0x1_0000_0000 && forall i :: 0 <= i < |ws| ==> WritableRange(ws[i])
    requires At(b, p, LittleEndian(|ws|, 4)) && At(b, p + 4, EncodeRanges(ws))
    ensures ReadsAs(CountedRanges(b, p), ReadRanges(ws, p + 4), p + 4 + |EncodeRanges(ws)|)
  {
    hide LittleEndian, EncodeRanges, ReadRanges, U32, ConflictRanges, WritableRange;
    U32Inverts(b, p, |ws|);
    RangesInvert(b, p + 4, ws);
  }

  lemma CountedMutationsInvert(b: bytes, p: nat, ws: seq<WireMutation>)
    requires |ws| < 0x1_0000_0000 && forall i :: 0 <= i < |ws| ==> WritableMutation(ws[i])
    requires At(b, p, LittleEndian(|ws|, 4)) && At(b, p + 4, EncodeMutations(ws))
    ensures CountedMutations(b, p) == Ok((ReadMutations(ws), p + 4 + |EncodeMutations(ws)|))
  {
    hide LittleEndian, EncodeMutations, ReadMutations, U32, Mutations, WritableMutation;
    U32Inverts(b, p, |ws|);
    MutationsInvert(b, p + 4, ws);
  }

  lemma SpanInverts(b: bytes, p: nat, span: SpanContext, version: u64)
    requires At(b, p, EncodeSpan(span, version))
    ensures Span(b, p, version) == Ok((ReadSpan(span, version), p + |EncodeSpan(span, version)|))
  {
    hide LittleEndian, U64, U8;
    var tail := if HasOtelSpanContext(version) then LittleEndian(span.spanId, 8) + LittleEndian(span.flags, 1) else [];
    AtConcat(b, p, LittleEndian(span.traceFirst, 8), LittleEndian(span.traceSecond, 8) + tail);
    AtConcat(b, p + 8, LittleEndian(span.traceSecond, 8), tail);
    U64Inverts(b, p, span.traceFirst);
    U64Inverts(b, p + 8, span.traceSecond);
    if HasOtelSpanContext(version) {
      AtConcat(b, p + 16, LittleEndian(span.spanId, 8), LittleEndian(span.flags, 1));
      U64Inverts(b, p + 16, span.spanId);
      U8Inverts(b, p + 24, span.flags);
    }
  }

  lemma OptionalSpanInverts(b: bytes, p: nat, span: Option<SpanContext>, version: u64)
    requires At(b, p, EncodeOptionalSpan(span, version))
    ensures OptionalSpan(b, p, version)
         == Ok((ReadOptionalSpan(span, version), p + |EncodeOptionalSpan(span, version)|))
  {
    hide EncodeSpan, Span, Bool, ReadSpan;
    AtConcat(b, p, EncodeBool(span.Some?), if span.Some? then EncodeSpan(span.value, version) else []);
    BoolInverts(b, p, span.Some?);
    if span.Some? {
      SpanInverts(b, p + 1, span.value, version);
    }
  }

  lemma RequestInverts(b: bytes, p: nat, w: WireRequest, version: u64)
    requires WritableRequest(w) && At(b, p, EncodeRequest(w, version))
    ensures ReadsAs(Request(b, p, version), ReadRequest(w, version, p), p + |EncodeRequest(w, version)|)
  {
    hide LittleEndian, EncodeRanges, EncodeMutations, EncodeI64, EncodeBool, EncodeOptionalSpan, EncodeRequest,
         EncodeScalars, At;
    hide CountedRanges, CountedMutations, I64, Bool, OptionalSpan, ReadRanges, ReadMutations, WritableRange,
         WritableMutation, ReadOptionalSpan;
    var q := p + 4 + |EncodeRanges(w.readConflictRanges)|;
    var r := q + 4 + |EncodeRanges(w.writeConflictRanges)|;
    var s := r + 4 + |EncodeMutations(w.mutations)|;
    RequestFields(b, p, w, version);
    ScalarFields(b, s, w, version);
    CountedRangesInvert(b, p, w.readConflictRanges);
    CountedRangesInvert(b, q, w.writeConflictRanges);
    CountedMutationsInvert(b, r, w.mutations);
    I64Inverts(b, s, w.readSnapshot);
    BoolInverts(b, s + 8, w.reportConflictingKeys);
    BoolInverts(b, s + 9, w.lockAware);
    OptionalSpanInverts(b, s + 10, w.spanContext, version);
  }

  /** Where the fields of a request are. */
  lemma RequestFields(b: bytes, p: nat, w: WireRequest, version: u64)
    requires At(b, p, EncodeRequest(w, version))
    ensures var q := p + 4 + |EncodeRanges(w.readConflictRanges)|;
            var r := q + 4 + |EncodeRanges(w.writeConflictRanges)|;
            var s := r + 4 + |EncodeMutations(w.mutations)|;
            && At(b, p, LittleEndian(|w.readConflictRanges|, 4)) && At(b, p + 4, EncodeRanges(w.readConflictRanges))
            && At(b, q, LittleEndian(|w.writeConflictRanges|, 4)) && At(b, q + 4, EncodeRanges(w.writeConflictRanges))
            && At(b, r, LittleEndian(|w.mutations|, 4)) && At(b, r + 4, EncodeMutations(w.mutations))
            && At(b, s, EncodeScalars(w, version))
            && s + |EncodeScalars(w, version)| == p + |EncodeRequest(w, version)|
  {
    hide LittleEndian, EncodeRanges, EncodeMutations, EncodeScalars, At;
    var n1, e1 := LittleEndian(|w.readConflictRanges|, 4), EncodeRanges(w.readConflictRanges);
    var n2, e2 := LittleEndian(|w.writeConflictRanges|, 4), EncodeRanges(w.writeConflictRanges);
    var n3, e3, e4 := LittleEndian(|w.mutations|, 4), EncodeMutations(w.mutations), EncodeScalars(w, version);
    var t2 := n2 + (e2 + (n3 + (e3 + e4)));
    AtConcat(b, p, n1, e1 + t2);
    AtConcat(b, p + 4, e1, t2);
    var q := p + 4 + |e1|;
    AtConcat(b, q, n2, e2 + (n3 + (e3 + e4)));
    AtConcat(b, q + 4, e2, n3 + (e3 + e4));
    var r := q + 4 + |e2|;
    AtConcat(b, r, n3, e3 + e4);
    AtConcat(b, r + 4, e3, e4);
  }

  lemma ScalarFields(b: bytes, s: nat, w: WireRequest, version: u64)
    requires At(b, s, EncodeScalars(w, version))
    ensures At(b, s, EncodeI64(w.readSnapshot)) && At(b, s + 8, EncodeBool(w.reportConflictingKeys))
    ensures At(b, s + 9, EncodeBool(w.lockAware)) && At(b, s + 10, EncodeOptionalSpan(w.spanContext, version))
    ensures |EncodeScalars(w, version)| == 10 + |EncodeOptionalSpan(w.spanContext, version)|
  {
    hide EncodeI64, EncodeBool, EncodeOptionalSpan, At;
    var e4, e5 := EncodeI64(w.readSnapshot), EncodeBool(w.reportConflictingKeys);
    var e6, e7 := EncodeBool(w.lockAware), EncodeOptionalSpan(w.spanContext, version);
    SmallSizes(w.readSnapshot, w.reportConflictingKeys);
    SmallSizes(w.readSnapshot, w.lockAware);
    AtConcat(b, s, e4, e5 + (e6 + e7));
    AtConcat(b, s + 8, e5, e6 + e7);
    AtConcat(b, s + 9, e6, e7);
  }

  lemma SmallSizes(x: i64, y: bool)
    ensures |EncodeI64(x)| == 8 && |EncodeBool(y)| == 1
  {
    hide LittleEndian;
  }

  lemma BodyInverts(b: bytes, p: nat, w: WireEvent, version: u64)
    requires WritableEvent(w) && At(b, p, EncodeBody(w, version))
    ensures ReadsAs(Body(b, p, version, EventCode(w), w.header), ReadBody(w, version, p), p + |EncodeBody(w, version)|)
  {
    hide LittleEndian, EncodeI64, EncodeI32, EncodeBytes, EncodeRange, EncodeRequest;
    hide U64, U32, I32, I64, Bytes, Range, Request, ReadRequest, Advances, WritableRequest, ShortHeader, At;
    match w
    case GetVersion(_, latency, priority, readVersion) =>
      AtConcat(b, p, LittleEndian(latency, 8), LittleEndian(priority, 4) + EncodeI64(readVersion));
      AtConcat(b, p + 8, LittleEndian(priority, 4), EncodeI64(readVersion));
      U64Inverts(b, p, latency);
      U32Inverts(b, p + 8, priority);
      I64Inverts(b, p + 12, readVersion);
      SmallSizes(readVersion, true);
    case Get(_, latency, valueSize, key) =>
      AtConcat(b, p, LittleEndian(latency, 8), EncodeI32(valueSize) + EncodeBytes(key));
      AtConcat(b, p + 8, EncodeI32(valueSize), EncodeBytes(key));
      U64Inverts(b, p, latency);
      SizeOfI32(valueSize);
      I32Inverts(b, p + 8, valueSize);
      BytesInverts(b, p + 12, key);
    case GetRange(_, latency, rangeSize, range) =>
      AtConcat(b, p, LittleEndian(latency, 8), EncodeI32(rangeSize) + EncodeRange(range));
      AtConcat(b, p + 8, EncodeI32(rangeSize), EncodeRange(range));
      U64Inverts(b, p, latency);
      SizeOfI32(rangeSize);
      I32Inverts(b, p + 8, rangeSize);
      RangeInverts(b, p + 12, range);
    case Commit(_, _, _, _, _, _) =>
      CommitBodyInverts(b, p, w, version);
    case GetError(_, errorCode, key) =>
      AtConcat(b, p, EncodeI32(errorCode), EncodeBytes(key));
      SizeOfI32(errorCode);
      I32Inverts(b, p, errorCode);
      BytesInverts(b, p + 4, key);
    case GetRangeError(_, errorCode, range) =>
      AtConcat(b, p, EncodeI32(errorCode), EncodeRange(range));
      SizeOfI32(errorCode);
      I32Inverts(b, p, errorCode);
      RangeInverts(b, p + 4, range);
    case CommitError(_, errorCode, request) =>
      AtConcat(b, p, EncodeI32(errorCode), EncodeRequest(request, version));
      SizeOfI32(errorCode);
      I32Inverts(b, p, errorCode);
      RequestInverts(b, p + 4, request, version);
  }

  lemma SizeOfI32(x: i32)
    ensures |EncodeI32(x)| == 4
  {
    hide LittleEndian;
  }

  /** Where the fields of a commit are. */
  lemma CommitFields(b: bytes, p: nat, w: WireEvent, version: u64)
    requires w.Commit? && At(b, p, EncodeBody(w, version))
    ensures At(b, p, LittleEndian(w.latency, 8)) && At(b, p + 8, EncodeI32(w.numMutations))
    ensures At(b, p + 12, EncodeI32(w.commitBytes)) && At(b, p + 16, EncodeI64(w.commitVersion))
    ensures At(b, p + 24, EncodeRequest(w.request, version))
    ensures |EncodeBody(w, version)| == 24 + |EncodeRequest(w.request, version)|
  {
    hide LittleEndian, EncodeI64, EncodeI32, EncodeRequest, At;
    var e0, e1, e2 := LittleEndian(w.latency, 8), EncodeI32(w.numMutations), EncodeI32(w.commitBytes);
    var e3, e4 := EncodeI64(w.commitVersion), EncodeRequest(w.request, version);
    SizeOfI32(w.numMutations);
    SizeOfI32(w.commitBytes);
    SmallSizes(w.commitVersion, true);
    AtConcat(b, p, e0, e1 + (e2 + (e3 + e4)));
    AtConcat(b, p + 8, e1, e2 + (e3 + e4));
    AtConcat(b, p + 12, e2, e3 + e4);
    AtConcat(b, p + 16, e3, e4);
  }

  lemma CommitBodyInverts(b: bytes, p: nat, w: WireEvent, version: u64)
    requires w.Commit? && WritableRequest(w.request) && At(b, p, EncodeBody(w, version))
    ensures ReadsAs(Body(b, p, version, EVENT_COMMIT, w.header), ReadBody(w, version, p), p + |EncodeBody(w, version)|)
  {
    hide LittleEndian, EncodeI64, EncodeI32, EncodeRequest, U64, I32, I64, Request, ReadRequest, WritableRequest, At;
    CommitFields(b, p, w, version);
    U64Inverts(b, p, w.latency);
    I32Inverts(b, p + 8, w.numMutations);
    I32Inverts(b, p + 12, w.commitBytes);
    I64Inverts(b, p + 16, w.commitVersion);
    RequestInverts(b, p + 24, w.request, version);
  }

  lemma EventInverts(b: bytes, p: nat, w: WireEvent, version: u64)
    requires WritableEvent(w) && At(b, p, EncodeEvent(w, version))
    ensures ReadsAs(EventAt(b, p, version), ReadBody(w, version, BodyOffset(w, p)), p + |EncodeEvent(w, version)|)
  {
    hide EncodeI32, EncodeHeader, EncodeBody, I32, Header, Body, ReadBody;
    var code, header, body := EncodeI32(EventCode(w)), EncodeHeader(w.header), EncodeBody(w, version);
    AtConcat(b, p, code, header + body);
    AtConcat(b, p + |code|, header, body);
    SizeOfI32(EventCode(w));
    I32Inverts(b, p, EventCode(w));
    HeaderInverts(b, p + 4, w.header);
    BodyInverts(b, p + 4 + |header|, w, version);
  }

  lemma EventIsNotEmpty(w: WireEvent, version: u64)
    ensures |EncodeEvent(w, version)| > 0
  {
    hide EncodeI32, EncodeHeader, EncodeBody;
    SizeOfI32(EventCode(w));
  }

  function EventsOf(ws: seq<WireEvent>): seq<Event> {
    if ws == [] then [] else [EventOfWire(ws[0])] + EventsOf(ws[1..])
  }

  lemma {:induction false} EventsInvert(b: bytes, p: nat, ws: seq<WireEvent>, version: u64)
    requires forall i :: 0 <= i < |ws| ==> WritableEvent(ws[i])
    requires At(b, p, EncodeEvents(ws, version)) && p + |EncodeEvents(ws, version)| == |b|
    ensures Events(b, p, version) == ReadEvents(ws, version, p)
    decreases |ws|
  {
    hide EncodeEvent, EventAt, ReadBody, WritableEvent, BodyOffset;
    if ws != [] {
      var e := EncodeEvent(ws[0], version);
      AtConcat(b, p, e, EncodeEvents(ws[1..], version));
      EventIsNotEmpty(ws[0], version);
      EventInverts(b, p, ws[0], version);
      EventsInvert(b, p + |e|, ws[1..], version);
    }
  }

  /** What decoding makes of any events, in whichever forms they are written. */
  lemma BlobReadsAs(version: u64, ws: seq<WireEvent>)
    requires IsSupported(version) && forall i :: 0 <= i < |ws| ==> WritableEvent(ws[i])
    ensures var r, read := ReadEvents(ws, version, 8), Decoded(EncodeBlob(version, ws));
            read == if r.Err? then Err(r.error) else Ok((version, r.value))
  {
    hide LittleEndian, EncodeEvents, U64, Events, WritableEvent, ReadEvents;
    var b := EncodeBlob(version, ws);
    assert At(b, 0, b);
    AtConcat(b, 0, LittleEndian(version, 8), EncodeEvents(ws, version));
    U64Inverts(b, 0, version);
    EventsInvert(b, 8, ws, version);
  }

  // ---------- what comes back ----------

  lemma RangeComesBackWhen(w: WireRange, p: nat)
    requires WritableRange(w)
    ensures ReadRange(w, p) == Ok(w.range) <==> ValidRange(w)
  {
    if w.compact {
      Unsnoc(w.range.end);
      DropPrefix(w.range.begin, [0]);
    }
  }

  lemma {:induction false} RangesComeBackWhen(ws: seq<WireRange>, p: nat)
    requires forall i :: 0 <= i < |ws| ==> WritableRange(ws[i])
    ensures ReadRanges(ws, p) == Ok(RangesOf(ws)) <==> forall i :: 0 <= i < |ws| ==> ValidRange(ws[i])
  {
    hide ReadRange, WritableRange, ValidRange, EncodeRange, WrittenRange;
    if ws != [] {
      var q := p + |EncodeRange(WrittenRange(ws[0]))|;
      RangeComesBackWhen(ws[0], p);
      RangesComeBackWhen(ws[1..], q);
      assert RangesOf(ws) == [ws[0].range] + RangesOf(ws[1..]);
      ConsEqual(ws[0].range, RangesOf(ws[1..]), ReadRange(ws[0], p), ReadRanges(ws[1..], q));
      assert (forall i :: 0 <= i < |ws| ==> ValidRange(ws[i]))
        <==> ValidRange(ws[0]) && forall i :: 0 <= i < |ws[1..]| ==> ValidRange(ws[1..][i]);
    } else {
      assert RangesOf(ws) == [];
    }
  }

  lemma ConsEqual<T>(x: T, xs: seq<T>, y: Result<T, DecodeError>, ys: Result<seq<T>, DecodeError>)
    ensures y.Ok? && ys.Ok? ==> ([y.value] + ys.value == [x] + xs <==> y.value == x && ys.value == xs)
  {
    if y.Ok? && ys.Ok? {
      TailOfConcat([y.value], ys.value);
      TailOfConcat([x], xs);
      Empty(xs);
      Empty(ys.value);
    }
  }

  lemma MutationComesBackWhen(w: WireMutation)
    requires WritableMutation(w)
    ensures ReadMutation(w) == w.mutation <==> ValidMutation(w)
  {
  }

  lemma {:induction false} MutationsComeBackWhen(ws: seq<WireMutation>)
    requires forall i :: 0 <= i < |ws| ==> WritableMutation(ws[i])
    ensures ReadMutations(ws) == MutationsOf(ws) <==> forall i :: 0 <= i < |ws| ==> ValidMutation(ws[i])
  {
    hide ReadMutation, WritableMutation, ValidMutation;
    if ws != [] {
      MutationComesBackWhen(ws[0]);
      MutationsComeBackWhen(ws[1..]);
      assert MutationsOf(ws) == [ws[0].mutation] + MutationsOf(ws[1..]);
      ConsEqual(ws[0].mutation, MutationsOf(ws[1..]), Ok(ReadMutation(ws[0])), Ok(ReadMutations(ws[1..])));
      assert (forall i :: 0 <= i < |ws| ==> ValidMutation(ws[i]))
        <==> ValidMutation(ws[0]) && forall i :: 0 <= i < |ws[1..]| ==> ValidMutation(ws[1..][i]);
    } else {
      assert MutationsOf(ws) == [];
    }
  }

  lemma RequestComesBackWhen(w: WireRequest, version: u64, p: nat)
    requires WritableRequest(w)
    ensures ReadRequest(w, version, p) == Ok(RequestOf(w)) <==> ValidRequest(w, version)
  {
    hide ReadRanges, ReadMutations, RangesOf, MutationsOf, ValidRange, ValidMutation, WritableRange, WritableMutation;
    RangesComeBackWhen(w.readConflictRanges, p + 4);
    RangesComeBackWhen(w.writeConflictRanges, p + 4 + |EncodeRanges(w.readConflictRanges)| + 4);
    MutationsComeBackWhen(w.mutations);
  }

  lemma EventComesBackWhen(w: WireEvent, version: u64, p: nat)
    requires WritableEvent(w)
    ensures ReadBody(w, version, p) == Ok(EventOfWire(w)) <==> ValidEvent(w, version)
  {
    hide ReadRequest, RequestOf, ValidRequest, WritableRequest;
    if w.Commit? || w.CommitError? {
      RequestComesBackWhen(w.request, version, p + BeforeRequest(w));
    }
  }

  lemma {:induction false} EventsComeBackWhen(ws: seq<WireEvent>, version: u64, p: nat)
    requires forall i :: 0 <= i < |ws| ==> WritableEvent(ws[i])
    ensures ReadEvents(ws, version, p) == Ok(EventsOf(ws)) <==> forall i :: 0 <= i < |ws| ==> ValidEvent(ws[i], version)
  {
    hide ReadBody, EventOfWire, EncodeEvent, BodyOffset, WritableEvent, ValidEvent;
    if ws != [] {
      var at, q := BodyOffset(ws[0], p), p + |EncodeEvent(ws[0], version)|;
      EventComesBackWhen(ws[0], version, at);
      EventsComeBackWhen(ws[1..], version, q);
      ConsEqual(EventOfWire(ws[0]), EventsOf(ws[1..]), ReadBody(ws[0], version, at), ReadEvents(ws[1..], version, q));
      assert (forall i :: 0 <= i < |ws| ==> ValidEvent(ws[i], version))
        <==> ValidEvent(ws[0], version) && forall i :: 0 <= i < |ws[1..]| ==> ValidEvent(ws[1..][i], version);
    }
  }

  /**
   Decoding a blob gives back its version and events exactly when each conflict range and clear is written in a form
   that means it, and no span of 7.1 has a span id or flags.
   */
  lemma BlobComesBackWhen(version: u64, ws: seq<WireEvent>)
    requires IsSupported(version) && forall i :: 0 <= i < |ws| ==> WritableEvent(ws[i])
    ensures Decoded(EncodeBlob(version, ws)) == Ok((version, EventsOf(ws)))
       <==> forall i :: 0 <= i < |ws| ==> ValidEvent(ws[i], version)
  {
    hide EncodeBlob, Decoded, WritableEvent, ValidEvent, ReadEvents, EventsOf;
    BlobReadsAs(version, ws);
    EventsComeBackWhen(ws, version, 8);
  }

  /** Decoding a blob gives back its version and events, whichever forms it was written with. */
  lemma BlobRoundTrip(version: u64, ws: seq<WireEvent>)
    requires IsSupported(version)
    requires forall i :: 0 <= i < |ws| ==> ValidEvent(ws[i], version)
    ensures Decoded(EncodeBlob(version, ws)) == Ok((version, EventsOf(ws)))
  {
    hide EncodeBlob, Decoded, ValidRequest, WritableRequest, ReadEvents, EventsOf, ShortHeader;
    BlobComesBackWhen(version, ws);
  }
}
