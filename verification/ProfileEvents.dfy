/** The events of a profiled transaction. Conflict ranges and mutations are parameters: the wire has its own forms. */
module ProfileEvents {
  import opened ByteStrings
  import opened Digits
  import opened Wrappers

  const V7_1: u64 := 0x0FDB_00B0_7101_0000
  const V7_2: u64 := 0x0FDB_00B0_7200_0000
  const V7_3: u64 := 0x0FDB_00B0_7300_0000
  const V7_4: u64 := 0x0FDB_00B0_7400_0000

  datatype KeyRange = KeyRange(begin: bytes, end: bytes)

  const CLEAR_RANGE: byte := 1

  datatype Mutation = Mutation(mutationType: byte, param1: bytes, param2: bytes)

  datatype SpanContext = SpanContext(traceFirst: u64, traceSecond: u64, spanId: u64, flags: byte)

  datatype CommitRequest<R, M> = CommitRequest(
    readConflictRanges: seq<R>,
    writeConflictRanges: seq<R>,
    mutations: seq<M>,
    readSnapshot: i64,
    reportConflictingKeys: bool,
    lockAware: bool,
    spanContext: Option<SpanContext>)

  /** Times are the bit patterns of doubles. */
  datatype EventHeader = EventHeader(startTimestamp: u64, dcId: bytes, tenant: Option<bytes>)

  datatype EventOf<R, M> =
    | GetVersion(header: EventHeader, latency: u64, priority: u32, readVersion: i64)
    | Get(header: EventHeader, latency: u64, valueSize: i32, key: bytes)
    | GetRange(header: EventHeader, latency: u64, rangeSize: i32, range: KeyRange)
    | Commit(header: EventHeader, latency: u64, numMutations: i32, commitBytes: i32, commitVersion: i64,
             request: CommitRequest<R, M>)
    | GetError(header: EventHeader, errorCode: i32, key: bytes)
    | GetRangeError(header: EventHeader, errorCode: i32, range: KeyRange)
    | CommitError(header: EventHeader, errorCode: i32, request: CommitRequest<R, M>)

  type Event = EventOf<KeyRange, Mutation>
}
