/** Decoding of profiling blobs: parsers as functions of the blob and a position, and the reader that advances. */
module ProfileDecoding {
  import opened ByteStrings
  import opened Digits
  import opened ProfileEvents
  import opened Wrappers

  datatype DecodeError =
    | UnexpectedEof(offset: nat, needed: nat, remaining: nat)
    | UnsupportedProtocolVersion(version: u64)
    | UnknownEventType(code: i32)
    | MalformedKeyRange(offset: nat)
    | MalformedMutation(offset: nat)

  /** A value and the position after it. */
  type Parse<+T> = Result<(T, nat), DecodeError>

  const EVENT_GET_VERSION: i32 := 0
  const EVENT_GET: i32 := 1
  const EVENT_GET_RANGE: i32 := 2
  const EVENT_COMMIT: i32 := 3
  const EVENT_ERROR_GET: i32 := 4
  const EVENT_ERROR_GET_RANGE: i32 := 5
  const EVENT_ERROR_COMMIT: i32 := 6

  const CHECKSUM_FLAG: byte := 0x80
  const ACCUMULATIVE_INDEX_FLAG: byte := 0x40
  const CHECKSUM_LEN: nat := 4
  const ACCUMULATIVE_INDEX_LEN: nat := 2

  const MIN_KEY_RANGE_LEN: nat := 8
  const MIN_MUTATION_LEN: nat := 9

  predicate IsSupported(version: u64) {
    version == V7_1 || version == V7_2 || version == V7_3 || version == V7_4
  }

  predicate HasOtelSpanContext(version: u64) {
    version >= V7_2
  }

  // ---------- parsers ----------

  /** A parser goes on by some bytes or more, inside the blob, or fails; the version is no reason to. */
  predicate Advances<T>(b: bytes, p: nat, min: nat, r: Parse<T>) {
    && (r.Ok? ==> p + min <= r.value.1 <= |b|)
    && (r.Err? ==> !r.error.UnsupportedProtocolVersion?)
  }

  function Take(b: bytes, p: nat, n: nat): (r: Parse<bytes>)
    requires p <= |b|
    ensures Advances(b, p, n, r)
    ensures r.Ok? ==> |r.value.0| == n
  {
    if p + n <= |b| then Ok((b[p..p + n], p + n)) else Err(UnexpectedEof(p, n, |b| - p))
  }

  function Uint(b: bytes, p: nat, n: nat): (r: Parse<nat>)
    requires p <= |b|
    ensures Advances(b, p, n, r)
    ensures r.Ok? ==> r.value.0 < Pow256(n)
  {
    var (digits, p) :- Take(b, p, n);
    LittleEndianValueBound(digits);
    Ok((LittleEndianValue(digits), p))
  }

  function U8(b: bytes, p: nat): (r: Parse<byte>)
    requires p <= |b|
    ensures Advances(b, p, 1, r)
  {
    var (x, p) :- Uint(b, p, 1);
    Ok((x, p))
  }

  function Bool(b: bytes, p: nat): (r: Parse<bool>)
    requires p <= |b|
    ensures Advances(b, p, 1, r)
  {
    var (x, p) :- U8(b, p);
    Ok((x != 0, p))
  }

  function U32(b: bytes, p: nat): (r: Parse<u32>)
    requires p <= |b|
    ensures Advances(b, p, 4, r)
  {
    PowersOfWidths();
    var (x, p) :- Uint(b, p, 4);
    Ok((x, p))
  }

  function I32(b: bytes, p: nat): (r: Parse<i32>)
    requires p <= |b|
    ensures Advances(b, p, 4, r)
  {
    PowersOfWidths();
    var (x, p) :- Uint(b, p, 4);
    Ok((AsSigned(x, 4), p))
  }

  function U64(b: bytes, p: nat): (r: Parse<u64>)
    requires p <= |b|
    ensures Advances(b, p, 8, r)
  {
    PowersOfWidths();
    var (x, p) :- Uint(b, p, 8);
    Ok((x, p))
  }

  function I64(b: bytes, p: nat): (r: Parse<i64>)
    requires p <= |b|
    ensures Advances(b, p, 8, r)
  {
    PowersOfWidths();
    var (x, p) :- Uint(b, p, 8);
    Ok((AsSigned(x, 8), p))
  }

  function Bytes(b: bytes, p: nat): (r: Parse<bytes>)
    requires p <= |b|
    ensures Advances(b, p, 4, r)
  {
    var (len, p) :- U32(b, p);
    Take(b, p, len)
  }

  function Range(b: bytes, p: nat): (r: Parse<KeyRange>)
    requires p <= |b|
    ensures Advances(b, p, 8, r)
  {
    var (begin, p) :- Bytes(b, p);
    var (end, p) :- Bytes(b, p);
    Ok((KeyRange(begin, end), p))
  }

  function OptionalBytes(b: bytes, p: nat): (r: Parse<Option<bytes>>)
    requires p <= |b|
    ensures Advances(b, p, 1, r)
  {
    var (present, p) :- Bool(b, p);
    if present then
      var (v, p) :- Bytes(b, p);
      Ok((Some(v), p))
    else
      Ok((None, p))
  }

  function Header(b: bytes, p: nat): (r: Parse<EventHeader>)
    requires p <= |b|
    ensures Advances(b, p, 13, r)
  {
    var (startTimestamp, p) :- U64(b, p);
    var (dcId, p) :- Bytes(b, p);
    var (tenant, p) :- OptionalBytes(b, p);
    Ok((EventHeader(startTimestamp, dcId, tenant), p))
  }

  /** The single-key range from `k` to `k` and a zero byte is written as that end key and an empty one. */
  function ExpandRange(range: KeyRange, offset: nat): Result<KeyRange, DecodeError> {
    var KeyRange(begin, end) := range;
    if end == [] && begin != [] then
      if begin[|begin| - 1] != 0 then Err(MalformedKeyRange(offset))
      else Ok(KeyRange(begin[..|begin| - 1], begin))
    else
      Ok(range)
  }

  function ConflictRange(b: bytes, p: nat): (r: Parse<KeyRange>)
    requires p <= |b|
    ensures Advances(b, p, MIN_KEY_RANGE_LEN, r)
  {
    var (range, q) :- Range(b, p);
    var range :- ExpandRange(range, p);
    Ok((range, q))
  }

  function ConflictRanges(b: bytes, p: nat, count: nat): (r: Parse<seq<KeyRange>>)
    requires p <= |b|
    ensures Advances(b, p, count * MIN_KEY_RANGE_LEN, r)
    ensures r.Ok? ==> |r.value.0| == count
    decreases count
  {
    if count == 0 then Ok(([], p))
    else
      var (range, p) :- ConflictRange(b, p);
      var (ranges, p) :- ConflictRanges(b, p, count - 1);
      Ok(([range] + ranges, p))
  }

  /** A checksum, and the accumulative checksum index after it, are cut from the end of `param2`. */
  function StripChecksum(m: Mutation, offset: nat): Result<Mutation, DecodeError> {
    if m.mutationType >= CHECKSUM_FLAG then
      var flags := m.mutationType - CHECKSUM_FLAG;
      var indexed := flags >= ACCUMULATIVE_INDEX_FLAG;
      var suffix := CHECKSUM_LEN + if indexed then ACCUMULATIVE_INDEX_LEN else 0;
      if |m.param2| < suffix then Err(MalformedMutation(offset))
      else Ok(Mutation(if indexed then flags - ACCUMULATIVE_INDEX_FLAG else flags, m.param1,
                       m.param2[..|m.param2| - suffix]))
    else
      Ok(m)
  }

  /** The clear of a single key is written as its end key and an empty one; whatever byte is last, it is dropped. */
  function ExpandClear(m: Mutation): Mutation {
    if m.mutationType == CLEAR_RANGE && m.param2 == [] && m.param1 != [] then
      Mutation(m.mutationType, m.param1[..|m.param1| - 1], m.param1)
    else
      m
  }

  function MutationAt(b: bytes, p: nat): (r: Parse<Mutation>)
    requires p <= |b|
    ensures Advances(b, p, MIN_MUTATION_LEN, r)
  {
    var (mutationType, q) :- U8(b, p);
    var (param1, q) :- Bytes(b, q);
    var (param2, q) :- Bytes(b, q);
    var m :- StripChecksum(Mutation(mutationType, param1, param2), p);
    Ok((ExpandClear(m), q))
  }

  function Mutations(b: bytes, p: nat, count: nat): (r: Parse<seq<Mutation>>)
    requires p <= |b|
    ensures Advances(b, p, count * MIN_MUTATION_LEN, r)
    ensures r.Ok? ==> |r.value.0| == count
    decreases count
  {
    if count == 0 then Ok(([], p))
    else
      var (m, p) :- MutationAt(b, p);
      var (ms, p) :- Mutations(b, p, count - 1);
      Ok(([m] + ms, p))
  }

  function CountedRanges(b: bytes, p: nat): (r: Parse<seq<KeyRange>>)
    requires p <= |b|
    ensures Advances(b, p, 4, r)
  {
    var (count, p) :- U32(b, p);
    ConflictRanges(b, p, count)
  }

  function CountedMutations(b: bytes, p: nat): (r: Parse<seq<Mutation>>)
    requires p <= |b|
    ensures Advances(b, p, 4, r)
  {
    var (count, p) :- U32(b, p);
    Mutations(b, p, count)
  }

  function Span(b: bytes, p: nat, version: u64): (r: Parse<SpanContext>)
    requires p <= |b|
    ensures Advances(b, p, 16, r)
  {
    var (first, p) :- U64(b, p);
    var (second, p) :- U64(b, p);
    if HasOtelSpanContext(version) then
      var (spanId, p) :- U64(b, p);
      var (flags, p) :- U8(b, p);
      Ok((SpanContext(first, second, spanId, flags), p))
    else
      Ok((SpanContext(first, second, 0, 0), p))
  }

  function OptionalSpan(b: bytes, p: nat, version: u64): (r: Parse<Option<SpanContext>>)
    requires p <= |b|
    ensures Advances(b, p, 1, r)
  {
    var (present, p) :- Bool(b, p);
    if present then
      var (v, p) :- Span(b, p, version);
      Ok((Some(v), p))
    else
      Ok((None, p))
  }

  function Request(b: bytes, p: nat, version: u64): (r: Parse<CommitRequest<KeyRange, Mutation>>)
    requires p <= |b|
    ensures Advances(b, p, 23, r)
  {
    var (readRanges, p) :- CountedRanges(b, p);
    var (writeRanges, p) :- CountedRanges(b, p);
    var (mutations, p) :- CountedMutations(b, p);
    var (readSnapshot, p) :- I64(b, p);
    var (reportConflictingKeys, p) :- Bool(b, p);
    var (lockAware, p) :- Bool(b, p);
    var (spanContext, p) :- OptionalSpan(b, p, version);
    Ok((CommitRequest(readRanges, writeRanges, mutations, readSnapshot, reportConflictingKeys, lockAware, spanContext),
        p))
  }

  /** What follows the header of an event of this type. */
  function Body(b: bytes, p: nat, version: u64, code: i32, header: EventHeader): (r: Parse<Event>)
    requires p <= |b|
    requires EVENT_GET_VERSION <= code <= EVENT_ERROR_COMMIT
    ensures Advances(b, p, 0, r)
  {
    if code == EVENT_GET_VERSION then
      var (latency, p) :- U64(b, p);
      var (priority, p) :- U32(b, p);
      var (readVersion, p) :- I64(b, p);
      Ok((GetVersion(header, latency, priority, readVersion), p))
    else if code == EVENT_GET then
      var (latency, p) :- U64(b, p);
      var (valueSize, p) :- I32(b, p);
      var (key, p) :- Bytes(b, p);
      Ok((Get(header, latency, valueSize, key), p))
    else if code == EVENT_GET_RANGE then
      var (latency, p) :- U64(b, p);
      var (rangeSize, p) :- I32(b, p);
      var (range, p) :- Range(b, p);
      Ok((GetRange(header, latency, rangeSize, range), p))
    else if code == EVENT_COMMIT then
      var (latency, p) :- U64(b, p);
      var (numMutations, p) :- I32(b, p);
      var (commitBytes, p) :- I32(b, p);
      var (commitVersion, p) :- I64(b, p);
      var (request, p) :- Request(b, p, version);
      Ok((Commit(header, latency, numMutations, commitBytes, commitVersion, request), p))
    else if code == EVENT_ERROR_GET then
      var (errorCode, p) :- I32(b, p);
      var (key, p) :- Bytes(b, p);
      Ok((GetError(header, errorCode, key), p))
    else if code == EVENT_ERROR_GET_RANGE then
      var (errorCode, p) :- I32(b, p);
      var (range, p) :- Range(b, p);
      Ok((GetRangeError(header, errorCode, range), p))
    else
      var (errorCode, p) :- I32(b, p);
      var (request, p) :- Request(b, p, version);
      Ok((CommitError(header, errorCode, request), p))
  }

  function EventAt(b: bytes, p: nat, version: u64): (r: Parse<Event>)
    requires p <= |b|
    ensures Advances(b, p, 17, r)
  {
    var (code, p) :- I32(b, p);
    if EVENT_GET_VERSION <= code <= EVENT_ERROR_COMMIT then
      var (header, p) :- Header(b, p);
      Body(b, p, version, code, header)
    else
      Err(UnknownEventType(code))
  }

  function Events(b: bytes, p: nat, version: u64): (r: Result<seq<Event>, DecodeError>)
    requires p <= |b|
    ensures r.Err? ==> !r.error.UnsupportedProtocolVersion?
    decreases |b| - p
  {
    if p == |b| then Ok([])
    else
      var (event, p) :- EventAt(b, p, version);
      var events :- Events(b, p, version);
      Ok([event] + events)
  }

  /** The events of a blob, or why it does not decode. */
  function Decoded(blob: bytes): Result<(u64, seq<Event>), DecodeError> {
    var (version, p) :- U64(blob, 0);
    if IsSupported(version) then
      var events :- Events(blob, p, version);
      Ok((version, events))
    else
      Err(UnsupportedProtocolVersion(version))
  }
}
