/** Cutting a blob that decodes: the events before the cut are still read, and then the blob ends too early. */
module ProfileTruncation {
  import opened ByteStrings
  import opened Digits
  import opened ProfileDecoding
  import opened ProfileEvents
  import opened Wrappers

  /** The blob ends before a field: at an offset in the `k` bytes there are, with fewer bytes left than it needs. */
  predicate EndsWithin(error: DecodeError, k: nat) {
    error.UnexpectedEof? && error.offset <= k && error.remaining == k - error.offset < error.needed
  }

  /** On the first `k` bytes, what a parser accepts is parsed alike if it ends there, and ends too early otherwise. */
  ghost predicate Truncates<T>(full: Parse<T>, cut: Parse<T>, k: nat) {
    full.Ok? ==>
      if full.value.1 <= k then cut == full else cut.Err? && EndsWithin(cut.error, k)
  }

  lemma TruncatedTake(b: bytes, p: nat, n: nat, k: nat)
    requires p <= k <= |b|
    ensures Truncates(Take(b, p, n), Take(b[..k], p, n), k)
  {
    if p + n <= k {
      assert b[..k][p..p + n] == b[p..p + n];
    }
  }

  lemma TruncatedUint(b: bytes, p: nat, n: nat, k: nat)
    requires p <= k <= |b|
    ensures Truncates(Uint(b, p, n), Uint(b[..k], p, n), k)
  {
    TruncatedTake(b, p, n, k);
  }

  lemma TruncatedIntegers(b: bytes, p: nat, k: nat)
    requires p <= k <= |b|
    ensures Truncates(U8(b, p), U8(b[..k], p), k)
    ensures Truncates(Bool(b, p), Bool(b[..k], p), k)
    ensures Truncates(U32(b, p), U32(b[..k], p), k)
    ensures Truncates(I32(b, p), I32(b[..k], p), k)
    ensures Truncates(U64(b, p), U64(b[..k], p), k)
    ensures Truncates(I64(b, p), I64(b[..k], p), k)
  {
    hide Uint;
    TruncatedUint(b, p, 1, k);
    TruncatedUint(b, p, 4, k);
    TruncatedUint(b, p, 8, k);
  }

  lemma TruncatedU64(b: bytes, p: nat, k: nat)
    requires p <= k <= |b|
    ensures Truncates(U64(b, p), U64(b[..k], p), k)
  {
    hide Uint;
    TruncatedUint(b, p, 8, k);
  }

  lemma TruncatedBool(b: bytes, p: nat, k: nat)
    requires p <= k <= |b|
    ensures Truncates(Bool(b, p), Bool(b[..k], p), k)
  {
    hide Uint;
    TruncatedUint(b, p, 1, k);
  }

  lemma TruncatedBytes(b: bytes, p: nat, k: nat)
    requires p <= k <= |b|
    ensures Truncates(Bytes(b, p), Bytes(b[..k], p), k)
  {
    hide U32, Take;
    TruncatedIntegers(b, p, k);
    var len := U32(b, p);
    if len.Ok? && len.value.1 <= k {
      TruncatedTake(b, len.value.1, len.value.0, k);
    }
  }

  lemma TruncatedRange(b: bytes, p: nat, k: nat)
    requires p <= k <= |b|
    ensures Truncates(Range(b, p), Range(b[..k], p), k)
  {
    hide Bytes;
    TruncatedBytes(b, p, k);
    var begin := Bytes(b, p);
    if begin.Ok? && begin.value.1 <= k {
      TruncatedBytes(b, begin.value.1, k);
    }
  }

  lemma TruncatedOptionalBytes(b: bytes, p: nat, k: nat)
    requires p <= k <= |b|
    ensures Truncates(OptionalBytes(b, p), OptionalBytes(b[..k], p), k)
  {
    hide Bytes, Bool;
    TruncatedIntegers(b, p, k);
    var present := Bool(b, p);
    if present.Ok? && present.value.1 <= k {
      TruncatedBytes(b, present.value.1, k);
    }
  }

  lemma TruncatedHeader(b: bytes, p: nat, k: nat)
    requires p <= k <= |b|
    ensures Truncates(Header(b, p), Header(b[..k], p), k)
  {
    hide Bytes, U64, OptionalBytes;
    TruncatedIntegers(b, p, k);
    var time := U64(b, p);
    if time.Ok? && time.value.1 <= k {
      TruncatedBytes(b, time.value.1, k);
      var dc := Bytes(b, time.value.1);
      if dc.Ok? && dc.value.1 <= k {
        TruncatedOptionalBytes(b, dc.value.1, k);
      }
    }
  }

  lemma TruncatedConflictRange(b: bytes, p: nat, k: nat)
    requires p <= k <= |b|
    ensures Truncates(ConflictRange(b, p), ConflictRange(b[..k], p), k)
  {
    hide Range, ExpandRange;
    TruncatedRange(b, p, k);
  }

  lemma {:induction false} TruncatedConflictRanges(b: bytes, p: nat, count: nat, k: nat)
    requires p <= k <= |b|
    ensures Truncates(ConflictRanges(b, p, count), ConflictRanges(b[..k], p, count), k)
    decreases count
  {
    hide ConflictRange;
    if count > 0 {
      TruncatedConflictRange(b, p, k);
      var first := ConflictRange(b, p);
      if first.Ok? && first.value.1 <= k {
        TruncatedConflictRanges(b, first.value.1, count - 1, k);
      }
    }
  }

  lemma TruncatedMutation(b: bytes, p: nat, k: nat)
    requires p <= k <= |b|
    ensures Truncates(MutationAt(b, p), MutationAt(b[..k], p), k)
  {
    hide U8, Bytes, StripChecksum, ExpandClear;
    TruncatedIntegers(b, p, k);
    var code := U8(b, p);
    if code.Ok? && code.value.1 <= k {
      TruncatedBytes(b, code.value.1, k);
      var param1 := Bytes(b, code.value.1);
      if param1.Ok? && param1.value.1 <= k {
        TruncatedBytes(b, param1.value.1, k);
      }
    }
  }

  lemma {:induction false} TruncatedMutations(b: bytes, p: nat, count: nat, k: nat)
    requires p <= k <= |b|
    ensures Truncates(Mutations(b, p, count), Mutations(b[..k], p, count), k)
    decreases count
  {
    hide MutationAt;
    if count > 0 {
      TruncatedMutation(b, p, k);
      var first := MutationAt(b, p);
      if first.Ok? && first.value.1 <= k {
        TruncatedMutations(b, first.value.1, count - 1, k);
      }
    }
  }

  lemma TruncatedVectors(b: bytes, p: nat, k: nat)
    requires p <= k <= |b|
    ensures Truncates(CountedRanges(b, p), CountedRanges(b[..k], p), k)
    ensures Truncates(CountedMutations(b, p), CountedMutations(b[..k], p), k)
  {
    hide U32, ConflictRanges, Mutations;
    TruncatedIntegers(b, p, k);
    var count := U32(b, p);
    if count.Ok? && count.value.1 <= k {
      TruncatedConflictRanges(b, count.value.1, count.value.0, k);
      TruncatedMutations(b, count.value.1, count.value.0, k);
    }
  }

  lemma TruncatedSpan(b: bytes, p: nat, version: u64, k: nat)
    requires p <= k <= |b|
    ensures Truncates(Span(b, p, version), Span(b[..k], p, version), k)
  {
    hide U64, U8;
    TruncatedU64(b, p, k);
    var first := U64(b, p);
    if first.Ok? && first.value.1 <= k {
      TruncatedU64(b, first.value.1, k);
      var second := U64(b, first.value.1);
      if second.Ok? && second.value.1 <= k {
        TruncatedU64(b, second.value.1, k);
        var id := U64(b, second.value.1);
        if id.Ok? && id.value.1 <= k {
          TruncatedIntegers(b, id.value.1, k);
        }
      }
    }
  }

  lemma TruncatedOptionalSpan(b: bytes, p: nat, version: u64, k: nat)
    requires p <= k <= |b|
    ensures Truncates(OptionalSpan(b, p, version), OptionalSpan(b[..k], p, version), k)
  {
    hide Bool, Span;
    TruncatedIntegers(b, p, k);
    var present := Bool(b, p);
    if present.Ok? && present.value.1 <= k {
      TruncatedSpan(b, present.value.1, version, k);
    }
  }

  lemma TruncatedRequest(b: bytes, p: nat, version: u64, k: nat)
    requires p <= k <= |b|
    ensures Truncates(Request(b, p, version), Request(b[..k], p, version), k)
  {
    hide CountedRanges, CountedMutations, I64, Bool, OptionalSpan, EndsWithin;
    TruncatedVectors(b, p, k);
    var readRanges := CountedRanges(b, p);
    if readRanges.Ok? && readRanges.value.1 <= k {
      TruncatedVectors(b, readRanges.value.1, k);
      var writeRanges := CountedRanges(b, readRanges.value.1);
      if writeRanges.Ok? && writeRanges.value.1 <= k {
        TruncatedVectors(b, writeRanges.value.1, k);
        var mutations := CountedMutations(b, writeRanges.value.1);
        if mutations.Ok? && mutations.value.1 <= k {
          TruncatedIntegers(b, mutations.value.1, k);
          var snapshot := I64(b, mutations.value.1);
          if snapshot.Ok? && snapshot.value.1 <= k {
            TruncatedBool(b, snapshot.value.1, k);
            var report := Bool(b, snapshot.value.1);
            if report.Ok? && report.value.1 <= k {
              TruncatedBool(b, report.value.1, k);
              var lockAware := Bool(b, report.value.1);
              if lockAware.Ok? && lockAware.value.1 <= k {
                TruncatedOptionalSpan(b, lockAware.value.1, version, k);
              }
            }
          }
        }
      }
    }
  }

  lemma TruncatedBody(b: bytes, p: nat, version: u64, code: i32, header: EventHeader, k: nat)
    requires p <= k <= |b| && EVENT_GET_VERSION <= code <= EVENT_ERROR_COMMIT
    ensures Truncates(Body(b, p, version, code, header), Body(b[..k], p, version, code, header), k)
  {
    hide U64, U32, I32, I64, Bytes, Range, Request;
    TruncatedIntegers(b, p, k);
    if code < EVENT_ERROR_GET {
      var latency := U64(b, p);
      if latency.Ok? && latency.value.1 <= k {
        TruncatedLatencyBody(b, p, version, code, header, k);
      }
    } else {
      var error := I32(b, p);
      if error.Ok? && error.value.1 <= k {
        TruncatedBytes(b, error.value.1, k);
        TruncatedRange(b, error.value.1, k);
        TruncatedRequest(b, error.value.1, version, k);
      }
    }
  }

  lemma TruncatedLatencyBody(b: bytes, p: nat, version: u64, code: i32, header: EventHeader, k: nat)
    requires p <= k <= |b| && EVENT_GET_VERSION <= code < EVENT_ERROR_GET
    requires U64(b, p).Ok? && U64(b, p).value.1 <= k
    ensures Truncates(Body(b, p, version, code, header), Body(b[..k], p, version, code, header), k)
  {
    hide U64, U32, I32, I64, Bytes, Range, Request;
    TruncatedIntegers(b, p, k);
    var q := U64(b, p).value.1;
    TruncatedIntegers(b, q, k);
    var x, y := I32(b, q), U32(b, q);
    if code == EVENT_GET_VERSION {
      if y.Ok? && y.value.1 <= k {
        TruncatedIntegers(b, y.value.1, k);
      }
    } else if x.Ok? && x.value.1 <= k {
      TruncatedBytes(b, x.value.1, k);
      TruncatedRange(b, x.value.1, k);
      if code == EVENT_COMMIT {
        TruncatedCommitBody(b, x.value.1, version, k);
      }
    }
  }

  /** The part of a commit after the number of mutations. */
  lemma TruncatedCommitBody(b: bytes, p: nat, version: u64, k: nat)
    requires p <= k <= |b|
    ensures Truncates(I32(b, p), I32(b[..k], p), k)
    ensures var size := I32(b, p);
            size.Ok? && size.value.1 <= k ==>
              var version' := I64(b, size.value.1);
              && Truncates(version', I64(b[..k], size.value.1), k)
              && (version'.Ok? && version'.value.1 <= k ==>
                    Truncates(Request(b, version'.value.1, version), Request(b[..k], version'.value.1, version), k))
  {
    hide I32, I64, Request, Truncates;
    TruncatedIntegers(b, p, k);
    var size := I32(b, p);
    if size.Ok? && size.value.1 <= k {
      TruncatedIntegers(b, size.value.1, k);
      var version' := I64(b, size.value.1);
      if version'.Ok? && version'.value.1 <= k {
        TruncatedRequest(b, version'.value.1, version, k);
      }
    }
  }

  lemma TruncatedEvent(b: bytes, p: nat, version: u64, k: nat)
    requires p <= k <= |b|
    ensures Truncates(EventAt(b, p, version), EventAt(b[..k], p, version), k)
  {
    hide I32, Header, Body;
    TruncatedIntegers(b, p, k);
    var code := I32(b, p);
    if code.Ok? && code.value.1 <= k && EVENT_GET_VERSION <= code.value.0 <= EVENT_ERROR_COMMIT {
      TruncatedHeader(b, code.value.1, k);
      var header := Header(b, code.value.1);
      if header.Ok? && header.value.1 <= k {
        TruncatedBody(b, header.value.1, version, code.value.0, header.value.0, k);
      }
    }
  }

  /** The events of a cut blob are the first of those of the whole one, or it ends too early. */
  ghost predicate FirstEvents(full: seq<Event>, cut: Result<seq<Event>, DecodeError>, k: nat) {
    match cut
    case Ok(events) => |events| < |full| && events == full[..|events|]
    case Err(error) => EndsWithin(error, k)
  }

  lemma {:induction false} TruncatedEvents(b: bytes, p: nat, version: u64, k: nat)
    requires p <= k < |b| && Events(b, p, version).Ok?
    ensures FirstEvents(Events(b, p, version).value, Events(b[..k], p, version), k)
    decreases |b| - p
  {
    hide EventAt;
    if p < k {
      TruncatedEvent(b, p, version, k);
      var q := EventAt(b, p, version).value.1;
      if q <= k {
        TruncatedEvents(b, q, version, k);
      }
    }
  }

  /** Truncation never invents or reorders: a proper prefix decodes to fewer of the events, or ends too early. */
  lemma TruncationIsMonotone(blob: bytes, k: nat)
    requires Decoded(blob).Ok? && k < |blob|
    ensures var (version, events) := Decoded(blob).value;
            match Decoded(blob[..k])
            case Ok(cut) => cut.0 == version && |cut.1| < |events| && cut.1 == events[..|cut.1|]
            case Err(error) => EndsWithin(error, k)
  {
    hide U64, Events;
    TruncatedIntegers(blob, 0, k);
    var (version, p) := U64(blob, 0).value;
    if p <= k {
      TruncatedEvents(blob, p, version, k);
    }
  }

  /** On success the capacity reserved for a vector, which the bytes left bound, is its count. */
  lemma CapacityIsCount(b: bytes, p: nat)
    requires p <= |b| && U32(b, p).Ok?
    ensures var (count, q) := U32(b, p).value;
            && (CountedRanges(b, p).Ok? ==> |CountedRanges(b, p).value.0| == count <= (|b| - q) / MIN_KEY_RANGE_LEN)
            && (CountedMutations(b, p).Ok? ==>
                  |CountedMutations(b, p).value.0| == count <= (|b| - q) / MIN_MUTATION_LEN)
  {
    hide U32, ConflictRanges, Mutations;
  }
}
