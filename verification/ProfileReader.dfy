/** The reader of profiling blobs, whose position moves past each field it returns, and the event loop. */
module ProfileReader {
  import opened ByteStrings
  import opened Digits
  import opened ProfileDecoding
  import opened ProfileEvents
  import opened Sequences
  import opened Wrappers

  /** A read returned what parsing gives, and moved to where it ends. */
  ghost predicate Follows<T>(r: Result<T, DecodeError>, pos: nat, parsed: Parse<T>) {
    match parsed
    case Ok(v) => r == Ok(v.0) && pos == v.1
    case Err(error) => r == Err(error)
  }

  /** `xs` in front of the elements that `r` parsed. */
  function After<T>(xs: seq<T>, r: Parse<seq<T>>): Parse<seq<T>> {
    var (ys, p) :- r;
    Ok((xs + ys, p))
  }

  lemma AfterNothing<T>(r: Parse<seq<T>>)
    ensures After([], r) == r
  {
    if r.Ok? {
      Empty(r.value.0);
    }
  }

  lemma AfterTwice<T>(xs: seq<T>, x: T, r: Parse<seq<T>>)
    ensures After(xs, After([x], r)) == After(xs + [x], r)
  {
    if r.Ok? {
      Assoc(xs, [x], r.value.0);
    }
  }

  class Reader {
    const buf: bytes
    var pos: nat

    ghost predicate Valid()
      reads this
    {
      pos <= |buf|
    }

    constructor (blob: bytes)
      ensures Valid() && buf == blob && pos == 0
    {
      buf := blob;
      pos := 0;
    }

    function Remaining(): nat
      requires Valid()
      reads this
    {
      |buf| - pos
    }

    method TakeBytes(n: nat) returns (r: Result<bytes, DecodeError>)
      requires Valid()
      modifies this
      ensures Valid() && Follows(r, pos, Take(buf, old(pos), n))
    {
      if pos + n <= |buf| {
        r := Ok(buf[pos..pos + n]);
        pos := pos + n;
      } else {
        r := Err(UnexpectedEof(pos, n, Remaining()));
      }
    }

    /** Little-endian bytes of a fixed width: the integers, and doubles as their bit patterns. */
    method ReadUint(n: nat) returns (r: Result<nat, DecodeError>)
      requires Valid()
      modifies this
      ensures Valid() && Follows(r, pos, Uint(buf, old(pos), n))
    {
      var digits :- TakeBytes(n);
      return Ok(LittleEndianValue(digits));
    }

    method ReadU8() returns (r: Result<byte, DecodeError>)
      requires Valid()
      modifies this
      ensures Valid() && Follows(r, pos, U8(buf, old(pos)))
    {
      var x :- ReadUint(1);
      return Ok(x);
    }

    method ReadBool() returns (r: Result<bool, DecodeError>)
      requires Valid()
      modifies this
      ensures Valid() && Follows(r, pos, Bool(buf, old(pos)))
    {
      var x :- ReadU8();
      return Ok(x != 0);
    }

    method ReadU32() returns (r: Result<u32, DecodeError>)
      requires Valid()
      modifies this
      ensures Valid() && Follows(r, pos, U32(buf, old(pos)))
    {
      PowersOfWidths();
      var x :- ReadUint(4);
      return Ok(x);
    }

    method ReadI32() returns (r: Result<i32, DecodeError>)
      requires Valid()
      modifies this
      ensures Valid() && Follows(r, pos, I32(buf, old(pos)))
    {
      PowersOfWidths();
      var x :- ReadUint(4);
      return Ok(AsSigned(x, 4));
    }

    method ReadU64() returns (r: Result<u64, DecodeError>)
      requires Valid()
      modifies this
      ensures Valid() && Follows(r, pos, U64(buf, old(pos)))
    {
      PowersOfWidths();
      var x :- ReadUint(8);
      return Ok(x);
    }

    method ReadI64() returns (r: Result<i64, DecodeError>)
      requires Valid()
      modifies this
      ensures Valid() && Follows(r, pos, I64(buf, old(pos)))
    {
      PowersOfWidths();
      var x :- ReadUint(8);
      return Ok(AsSigned(x, 8));
    }

    method ReadBytes() returns (r: Result<bytes, DecodeError>)
      requires Valid()
      modifies this
      ensures Valid() && Follows(r, pos, Bytes(buf, old(pos)))
    {
      var len :- ReadU32();
      r := TakeBytes(len);
    }

    method ReadKeyRange() returns (r: Result<KeyRange, DecodeError>)
      requires Valid()
      modifies this
      ensures Valid() && Follows(r, pos, Range(buf, old(pos)))
    {
      var begin :- ReadBytes();
      var end :- ReadBytes();
      return Ok(KeyRange(begin, end));
    }

    method ReadHeader() returns (r: Result<EventHeader, DecodeError>)
      requires Valid()
      modifies this
      ensures Valid() && Follows(r, pos, Header(buf, old(pos)))
    {
      var startTimestamp :- ReadU64();
      var dcId :- ReadBytes();
      var tenant := None;
      var present :- ReadBool();
      if present {
        var name :- ReadBytes();
        tenant := Some(name);
      }
      return Ok(EventHeader(startTimestamp, dcId, tenant));
    }

    method ReadConflictRange() returns (r: Result<KeyRange, DecodeError>)
      requires Valid()
      modifies this
      ensures Valid() && Follows(r, pos, ConflictRange(buf, old(pos)))
    {
      var offset := pos;
      var range :- ReadKeyRange();
      var begin, end := range.begin, range.end;
      if end == [] && begin != [] {
        if begin[|begin| - 1] != 0 {
          return Err(MalformedKeyRange(offset));
        }
        end := begin;
        begin := begin[..|begin| - 1];
      }
      return Ok(KeyRange(begin, end));
    }

    method ReadMutation() returns (r: Result<Mutation, DecodeError>)
      requires Valid()
      modifies this
      ensures Valid() && Follows(r, pos, MutationAt(buf, old(pos)))
    {
      var offset := pos;
      var mutationType :- ReadU8();
      var param1 :- ReadBytes();
      var param2 :- ReadBytes();
      if mutationType >= CHECKSUM_FLAG {
        var suffix := CHECKSUM_LEN;
        var flags := mutationType - CHECKSUM_FLAG;
        if flags >= ACCUMULATIVE_INDEX_FLAG {
          suffix := suffix + ACCUMULATIVE_INDEX_LEN;
          flags := flags - ACCUMULATIVE_INDEX_FLAG;
        }
        if |param2| < suffix {
          return Err(MalformedMutation(offset));
        }
        param2 := param2[..|param2| - suffix];
        mutationType := flags;
      }
      if mutationType == CLEAR_RANGE && param2 == [] && param1 != [] {
        param2 := param1;
        param1 := param1[..|param1| - 1];
      }
      return Ok(Mutation(mutationType, param1, param2));
    }

    /** A count-prefixed vector. The capacity reserved for it is the count when every element is there. */
    method ReadConflictRanges() returns (r: Result<seq<KeyRange>, DecodeError>)
      requires Valid()
      modifies this
      ensures Valid() && Follows(r, pos, CountedRanges(buf, old(pos)))
    {
      var count :- ReadU32();
      var capacity := MinOf(count, Remaining() / MIN_KEY_RANGE_LEN);
      r := RepeatConflictRange(count);
      assert r.Ok? ==> capacity == |r.value|;
    }

    method RepeatConflictRange(count: nat) returns (r: Result<seq<KeyRange>, DecodeError>)
      requires Valid()
      modifies this
      ensures Valid() && Follows(r, pos, ConflictRanges(buf, old(pos), count))
    {
      hide ConflictRange, Advances;
      var out := [];
      ghost var whole := ConflictRanges(buf, pos, count);
      assert whole == After(out, whole) by {
        AfterNothing(whole);
      }
      for i := 0 to count
        invariant Valid()
        invariant whole == After(out, ConflictRanges(buf, pos, count - i))
      {
        var element :- ReadConflictRange();
        AfterTwice(out, element, ConflictRanges(buf, pos, count - i - 1));
        out := out + [element];
      }
      Empty(out);
      return Ok(out);
    }

    /** The same for mutations. */
    method ReadMutations() returns (r: Result<seq<Mutation>, DecodeError>)
      requires Valid()
      modifies this
      ensures Valid() && Follows(r, pos, CountedMutations(buf, old(pos)))
    {
      var count :- ReadU32();
      var capacity := MinOf(count, Remaining() / MIN_MUTATION_LEN);
      r := RepeatMutation(count);
      assert r.Ok? ==> capacity == |r.value|;
    }

    method RepeatMutation(count: nat) returns (r: Result<seq<Mutation>, DecodeError>)
      requires Valid()
      modifies this
      ensures Valid() && Follows(r, pos, Mutations(buf, old(pos), count))
    {
      hide MutationAt, Advances;
      var out := [];
      ghost var whole := Mutations(buf, pos, count);
      assert whole == After(out, whole) by {
        AfterNothing(whole);
      }
      for i := 0 to count
        invariant Valid()
        invariant whole == After(out, Mutations(buf, pos, count - i))
      {
        var element :- ReadMutation();
        AfterTwice(out, element, Mutations(buf, pos, count - i - 1));
        out := out + [element];
      }
      Empty(out);
      return Ok(out);
    }

    method ReadSpanContext(version: u64) returns (r: Result<SpanContext, DecodeError>)
      requires Valid()
      modifies this
      ensures Valid() && Follows(r, pos, Span(buf, old(pos), version))
    {
      var first :- ReadU64();
      var second :- ReadU64();
      if HasOtelSpanContext(version) {
        var spanId :- ReadU64();
        var flags :- ReadU8();
        return Ok(SpanContext(first, second, spanId, flags));
      }
      return Ok(SpanContext(first, second, 0, 0));
    }

    method ReadCommitRequest(version: u64) returns (r: Result<CommitRequest<KeyRange, Mutation>, DecodeError>)
      requires Valid()
      modifies this
      ensures Valid() && Follows(r, pos, Request(buf, old(pos), version))
    {
      var readRanges :- ReadConflictRanges();
      var writeRanges :- ReadConflictRanges();
      var mutations :- ReadMutations();
      var readSnapshot :- ReadI64();
      var report :- ReadBool();
      var lockAware :- ReadBool();
      var spanContext := None;
      var present :- ReadBool();
      if present {
        var span :- ReadSpanContext(version);
        spanContext := Some(span);
      }
      return Ok(CommitRequest(readRanges, writeRanges, mutations, readSnapshot, report, lockAware, spanContext));
    }

    method ReadEvent(version: u64) returns (r: Result<Event, DecodeError>)
      requires Valid()
      modifies this
      ensures Valid() && Follows(r, pos, EventAt(buf, old(pos), version))
    {
      var code :- ReadI32();
      if !(EVENT_GET_VERSION <= code <= EVENT_ERROR_COMMIT) {
        return Err(UnknownEventType(code));
      }
      var header :- ReadHeader();
      r := ReadBody(version, code, header);
    }

    method ReadBody(version: u64, code: i32, header: EventHeader) returns (r: Result<Event, DecodeError>)
      requires Valid() && EVENT_GET_VERSION <= code <= EVENT_ERROR_COMMIT
      modifies this
      ensures Valid() && Follows(r, pos, Body(buf, old(pos), version, code, header))
    {
      if code == EVENT_GET_VERSION {
        var latency :- ReadU64();
        var priority :- ReadU32();
        var readVersion :- ReadI64();
        return Ok(GetVersion(header, latency, priority, readVersion));
      } else if code == EVENT_GET {
        var latency :- ReadU64();
        var valueSize :- ReadI32();
        var key :- ReadBytes();
        return Ok(Get(header, latency, valueSize, key));
      } else if code == EVENT_GET_RANGE {
        var latency :- ReadU64();
        var rangeSize :- ReadI32();
        var range :- ReadKeyRange();
        return Ok(GetRange(header, latency, rangeSize, range));
      } else if code == EVENT_COMMIT {
        var latency :- ReadU64();
        var numMutations :- ReadI32();
        var commitBytes :- ReadI32();
        var commitVersion :- ReadI64();
        var request :- ReadCommitRequest(version);
        return Ok(Commit(header, latency, numMutations, commitBytes, commitVersion, request));
      } else if code == EVENT_ERROR_GET {
        var errorCode :- ReadI32();
        var key :- ReadBytes();
        return Ok(GetError(header, errorCode, key));
      } else if code == EVENT_ERROR_GET_RANGE {
        var errorCode :- ReadI32();
        var range :- ReadKeyRange();
        return Ok(GetRangeError(header, errorCode, range));
      } else {
        var errorCode :- ReadI32();
        var request :- ReadCommitRequest(version);
        return Ok(CommitError(header, errorCode, request));
      }
    }
  }

  function MinOf(a: nat, b: nat): nat {
    if a < b then a else b
  }

  /** `es` in front of the events that `r` decoded. */
  function EventsAfter(es: seq<Event>, r: Result<seq<Event>, DecodeError>): Result<seq<Event>, DecodeError> {
    var rest :- r;
    Ok(es + rest)
  }

  /** Decodes a whole blob. The loop ends because every event takes bytes. */
  method DecodeEvents(blob: bytes) returns (r: Result<(u64, seq<Event>), DecodeError>)
    ensures r == Decoded(blob)
  {
    var reader := new Reader(blob);
    var version :- reader.ReadU64();
    if !IsSupported(version) {
      return Err(UnsupportedProtocolVersion(version));
    }
    var events := [];
    ghost var whole := Events(blob, reader.pos, version);
    assert whole == EventsAfter(events, whole) by {
      if whole.Ok? {
        Empty(whole.value);
      }
    }
    while reader.Remaining() != 0
      invariant reader.Valid() && reader.buf == blob
      invariant whole == EventsAfter(events, Events(blob, reader.pos, version))
      decreases reader.Remaining()
    {
      var event :- reader.ReadEvent(version);
      if Events(blob, reader.pos, version).Ok? {
        Assoc(events, [event], Events(blob, reader.pos, version).value);
      }
      events := events + [event];
    }
    Empty(events);
    return Ok((version, events));
  }
}
