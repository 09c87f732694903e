# Verification of the FoundationDB Rust bindings

A Dafny model of the parts of the bindings whose correctness is hardest to see by reading them: the tuple layer, the
reader and decoder of transaction profiling records, and the retry loops with their accounting. Everything is proved for
all inputs, all runs and all interleavings of the modelled steps. `dafny verify dfyconfig.toml` checks the project.

## What is modelled

- **Tuple layer** (`foundationdb-tuple`). `TupleElement` has the elements, their order and the flipped bits of floats;
  `TupleIntegers` the packing of every integer type; `TupleEncoding` the encoding as a function of element and depth,
  and the offset of its incomplete versionstamp; `TuplePacking` the code that writes into a buffer, proved to write
  that encoding; `TupleOrder`, `TupleUnpacking` and `Subspaces` the three laws the layer is for: bytes sort as
  elements do, unpacking undoes packing, and a subspace range holds exactly the extensions of its tuple. `TupleFormat`
  says in literal bytes what is written and read, and in which order types sort, and `TupleText` what text is. Keys
  and values are sequences of bytes, `f32` and `f64` are their bit patterns, strings are byte strings with a UTF-8
  predicate.
- **Profiling decoder** (`ProfileEvents`, `ProfileDecoding`, `ProfileReader`, `ProfileRoundTrip`, `ProfileWire`,
  `ProfileMalformed`, `ProfileTruncation`). The reader class moves its position as the original does; it is proved to
  compute a parsing function, and that function is proved to undo an independent encoder of the wire layout, to read
  literal bytes as `ProfileWire` says, to fail at the first malformed range when there is one, and to be monotone
  under truncation.
- **Profiling pages** (`ProfileKeys`, `ProfileAssembly`, `ProfilePages`, `ProfileScanning`, `ProfileRuns`,
  `ProfileOwnRows`, `ProfilePaging`, `ProfileResuming`, `ProfileScans`, `ProfileReturns`, `ProfileCoverage`,
  `ProfileBrokenReports`). The assembler class runs a state machine over rows. `ProfileRuns` says without state what
  it computes, `ProfilePaging` proves that pages which each resume where the last one said return what one
  uninterrupted pass returns, except what a broken boundary cuts through, `ProfileResuming` says where a page resumes
  by the rows it read, `ProfileScans` says of the transactions a caller gets what `ProfilePaging` says of outcomes,
  `ProfileReturns` which transactions and skips these are, `ProfileCoverage` proves that every row a page passes has
  an outcome that the page keeps, and `ProfileBrokenReports` counts the reports of an id.
- **Buckets** (`ProfileBuckets`). The counters and the greedy split of the keyspace, against the list of recorded
  hits.
- **Retry loops** (`Runner`, `RunnerContract`, `RunnerSteps`, `Transact`). The client, the closure, the policy and the
  hooks are a script of arbitrary answers; a run that outlives its script has no result yet. `RunnerContract` holds an
  automaton for the order of the steps in the code, and one for the documented order; `RunnerSteps` says of the script
  alone which steps a run takes, what its closures are told and how it ends.
- **Usage and metrics** (`Usage`, `Metrics`, `AttemptHistories`, `Attempts`, `RunReports`, `InstrumentedRuns`).
  Generations of usage are objects, and `Attempts` proves over any history of issuing, resolving and restarting what
  each of them has recorded. `RunReports` says what a collector makes of the steps of `Runner`; `InstrumentedRuns`
  plays those steps on a transaction, its collector and the metrics hooks, and proves that they collect it.

`ByteStrings`, `Digits`, `Sequences` and `Wrappers` hold the order of byte strings, base-256 digits, facts about sequences,
and the option and result types.

## Results about the code

- `Subspace::is_start_of` accepts keys that are no extension of the subspace: a tuple whose last element is a byte
  string, a text or a nested tuple packs to a byte prefix of the packing of a tuple that ends in a longer one.
  `Subspaces.StartOfIsExactWhen` says exactly for which subspaces it is exact, and `Subspaces.StartOfCondition` which of
  the accepted keys are extensions. `Subspace::range` has no such exception (`Subspaces.RangeIsProperExtensions`).
- A conflict range or a clear with a non-empty begin and an empty end does not survive the wire: an empty end is the
  compact form of the single key `begin`, and the decoder reads it so. The span context of 7.1 drops a span id and flags.
  `ProfileRoundTrip.BlobComesBackWhen` says that nothing else is lost: a blob comes back exactly when it has none of these.
- The documentation of a page says that an id is reported as broken once per page.
  `ProfileBrokenReports.ReportedOncePerPageWhen` says exactly when that is so: no row of the id that the page passes
  fails after a first chunk that came after, or with, a row that fails, and the page is not stuck with something pending
  of such an id. Which rows it passes and whether it is stuck is a matter of the rows, its start and the decision to stop
  (`ProfileResuming.PageResumes`). `ProfileBrokenReports.ReportedTwice` gives pages that skip one id twice.
- A closure declared idempotent can be applied twice by `Database::transact`, unless its retry limit is 0 or 1; one that is
  not declared so is applied at most once (`Transact.AppliedAtMostOnceWhen`, an exact condition).
- The retry runner calls the closure, to get its future, before `on_attempt_start`, and awaits the future after it
  (`RunnerContract.ClosureIsCalledFirst`). The documentation of the hooks lists the closure after `on_attempt_start`. The
  model follows the code and has both steps; without the calls the steps are in the documented order
  (`RunnerContract.RunsFollowTheDocumentation`).

- The documentation of the conflict count of a report says that it is the number of retries caused by commit conflicts.
  `RunReports.ConflictsAreRetriesWhen` says exactly when that is so: unless the run ended with a conflict, which is counted
  and not retried. `RunReports.ConflictWithoutRetry` gives such a run.
- The documentation of the total usage says that its elapsed time is the sum of the durations of the attempts, without
  the backoffs. The code takes the elapsed time of an attempt when it reports it, after the error handler has waited.
  `RunReports.ElapsedIsSumOfDurationsWhen` says exactly when the two are equal: when every attempt was reported as soon as
  its work was over. `RunReports.BackoffIsElapsed` says that any retry that waited makes the elapsed time greater.

## Model

| member | source | states |
|---|---|---|
| ByteStrings.LtTotal | foundationdb-tuple/src/element.rs:42-80 | the lexicographic byte order is total, antisymmetric, and its strict part is irreflexive |
| ByteStrings.LtTransitive | foundationdb-tuple/src/element.rs:42-80 | the lexicographic byte order is transitive, strictly if either step is strict |
| ByteStrings.LtIsLexicographic | foundationdb-tuple/src/element.rs:42-80 | one byte string is before another exactly when it is a proper prefix of it or has the smaller byte where they first differ |
| TupleText.TextsAreEncodings | foundationdb-tuple/src/pack.rs:226-240 | a byte string is text exactly when it encodes some sequence of Unicode scalar values in UTF-8 |
| TupleElement.FloatRoundTrip | foundationdb-tuple/src/pack.rs:498-545 | undoing the flipped bits of a float gives back every bit pattern, of any width |
| TupleElement.FloatOrder | foundationdb-tuple/src/pack.rs:498-508 | the flipped bytes of two floats compare as the floats do in the total order by sign and magnitude, NaNs included |
| TupleIntegers.PackUnsigned | foundationdb-tuple/src/pack.rs:372-397 | an unsigned integer of any width writes the one encoding of its value and returns its size |
| TupleIntegers.PackSigned | foundationdb-tuple/src/pack.rs:424-461 | a signed integer of any width writes the one encoding of its value, the minimum included, whose absolute value wraps |
| TupleIntegers.PackBigInt | foundationdb-tuple/src/pack.rs:595-633 | a big integer writes the same encoding and fails, writing nothing, exactly when it needs more than 255 bytes |
| TupleIntegers.IntDigitsValue | foundationdb-tuple/src/pack.rs:424-461 | the digits of a non-negative integer have its value; those of a negative one have 256^n - 1 - abs, n being the minimal length |
| TupleIntegers.EncodeIntShape | foundationdb-tuple/src/pack.rs:424-461 | up to eight bytes the length is in the code, on either side of zero; above that a length byte follows, complemented for negatives |
| TupleIntegers.UnpackUnsignedInverts | foundationdb-tuple/src/pack.rs:399-420 | unpacking into an unsigned type gives the value back, whatever follows, when it fits the type, and fails when it does not |
| TupleIntegers.UnpackSignedInverts | foundationdb-tuple/src/pack.rs:463-494 | the same for signed types; an i64 fails on at most eight bytes with UnsupportedIntLength, which sends Element to BigInt |
| TupleIntegers.UnpackBigIntInverts | foundationdb-tuple/src/pack.rs:635-663 | unpacking into a big integer gives every encoded integer back |
| TupleIntegers.EncodeIntOrder | foundationdb-tuple/src/pack.rs:424-496 | encodings compare as the integers do, across signs and lengths, and equal ones leave the order to what follows |
| TupleEncoding.EncodeRoot | foundationdb-tuple/src/element.rs:126-131 | at the root an element packs as the tuple of its values: a tuple without its marks, anything else alone |
| TupleEncoding.OffsetRoot | foundationdb-tuple/src/pack.rs:737-763 | the offset of an element at the root is that of the tuple of its values |
| TupleEncoding.AddAssociative | foundationdb-tuple/src/pack.rs:37-59 | adding offsets is associative, so parts may be packed in any grouping |
| TupleEncoding.OffsetConcat | foundationdb-tuple/src/pack.rs:37-59 | the offset of two sequences of elements is the sum of theirs, where the offset is defined by the number and the place of incomplete stamps |
| TupleEncoding.StampingCompletes | foundationdb-tuple/src/pack.rs:1075-1089 | with one incomplete stamp, ten 0xff follow code 0x33 at the offset, and overwriting them gives the packing of the completed element |
| TupleEncoding.CompletedWithoutStamp | foundationdb-tuple/src/versionstamp.rs:54-62 | an element that counts no incomplete stamp is its own completion |
| TuplePacking.WriteBytes | foundationdb-tuple/src/pack.rs:185-200 | writes a string with every zero byte escaped and a terminator, and fails exactly when its length does not fit u32 |
| TuplePacking.PackElement | foundationdb-tuple/src/pack.rs:951-973 | appends the encoding of an element at its depth to any buffer and returns no offset, the place of the one incomplete stamp, or multiple |
| TuplePacking.PackSlice | foundationdb-tuple/src/pack.rs:737-763 | a tuple writes its code and terminator only below the root, with nil escaped inside, and returns its offset |
| TuplePacking.PackItems | foundationdb-tuple/src/pack.rs:741-763 | the items of a tuple are written in order and their offsets added up |
| TuplePacking.AppendKeyOffset | foundationdb-tuple/src/pack.rs:13-28 | appends two little-endian bytes before API 520 and four from then on, only for one incomplete stamp; panics for several, or an offset that two bytes cannot hold |
| TuplePacking.PackIntoVec | foundationdb-tuple/src/pack.rs:106-108 | appends the packing at the root to the buffer |
| TuplePacking.PackIntoVecWithVersionstamp | foundationdb-tuple/src/pack.rs:117-127 | the offset counts the bytes already in the buffer and is appended for exactly one incomplete stamp |
| TuplePacking.PackToVecWithVersionstamp | foundationdb-tuple/src/pack.rs:92-99 | the key with its offset, or a panic for several incomplete stamps |
| TuplePacking.KeyOffsetBytes | foundationdb-tuple/src/pack.rs:13-28 | the literal bytes of the offset, four from API 520 on and two before, and nothing or the panic without exactly one incomplete stamp |
| TupleFormat.EncodeIsFormatted | foundationdb-tuple/src/lib.rs:24-41 | below the root every element has the bytes of the format: its literal type code, each zero byte of a string followed by 0xff and a zero byte after it, 0x14 plus or minus the least number of digits or 0x1d and 0x0b with a length byte, flipped floats, two bytes for a nested nil |
| TupleFormat.OrderIsByTypeAndValue | foundationdb-tuple/src/element.rs:42-125 | elements sort by type, in the order nil, bytes, string, tuple, integer, float, double, false, true, uuid, versionstamp, and by value within one; integers compare as numbers whatever their type |
| TupleFormat.CodesAnnounceTypes | foundationdb-tuple/src/pack.rs:975-1055 | what is unpacked has the type of its literal first byte, and a byte that is no type code is the error BadCode |
| TupleFormat.StringsAreEscaped | foundationdb-tuple/src/pack.rs:202-224 | for any input, a string is read up to the first zero byte without a 0xff after it, and its absence is the only error |
| TupleFormat.TextIsChecked | foundationdb-tuple/src/pack.rs:226-240 | text that is no UTF-8 is BadStringFormat, and that alone |
| TupleFormat.FixedSizesAreTaken | foundationdb-tuple/src/pack.rs:1033-1048 | floats, doubles, uuids and stamps take 5, 9, 17 and 13 bytes, or fail with MissingBytes |
| TupleFormat.IntegersAreRead | foundationdb-tuple/src/pack.rs:1003-1011 | any integer of up to eight digits, minimal or not, is read as its number: an Int exactly when it fits i64 |
| TupleFormat.LongIntegersAreRead | foundationdb-tuple/src/pack.rs:635-663 | any integer with a length byte is read as its number, for negatives with length and digits complemented |
| TupleFormat.IncompleteStamps | foundationdb-tuple/src/versionstamp.rs:39-41 | a stamp is incomplete exactly when its first ten bytes are 0xff |
| TupleFormat.StampsAreAtOffsets | foundationdb-tuple/src/pack.rs:1075-1089 | the offset of an element with one incomplete stamp is that of its ten 0xff, after 0x33, and replacing those packs the completed element |
| TupleOrder.EncodeOrder | foundationdb-tuple/src/element.rs:42-80 | below the root, encodings compare as elements do, and equal ones leave the order to any suffix that does not start with 0xff |
| TupleOrder.NestedOrder | foundationdb-tuple/src/element.rs:42-80 | the same for the items of nested tuples, where nil is two bytes and the terminator one |
| TupleOrder.PackingPreservesOrder | foundationdb-tuple/src/element.rs:89-137 | the order of elements is the byte order of their packings at the root, and they are equal exactly when the bytes are |
| TupleUnpacking.UnescapedInverts | foundationdb-tuple/src/pack.rs:202-224 | parsing a written string gives it back and leaves any suffix that does not start with 0xff |
| TupleUnpacking.ParseSlice | foundationdb-tuple/src/pack.rs:202-224 | the loop over zero bytes computes the string up to the first unescaped zero, or fails without one |
| TupleUnpacking.UnpackFirst | foundationdb-tuple/src/pack.rs:975-1073 | the dispatch on the first byte computes the decoding function on every code |
| TupleUnpacking.UnpackInteger | foundationdb-tuple/src/pack.rs:1003-1011 | an integer of up to eight bytes is an Int, or a BigInt when it does not fit i64 |
| TupleUnpacking.UnpackVec | foundationdb-tuple/src/pack.rs:787-811 | the loop over the items of a tuple computes the decoding function |
| TupleUnpacking.Unpack | foundationdb-tuple/src/pack.rs:975-1073 | at the root a second element makes a tuple, else the first one stands alone |
| TupleUnpacking.UnpackRoot | foundationdb-tuple/src/pack.rs:133-140 | unpacking at the root fails on anything left over |
| TupleUnpacking.DecodeIntegerInverts | foundationdb-tuple/src/pack.rs:975-1073 | integers of up to eight bytes come back as Int when they fit i64 and as BigInt when they do not |
| TupleUnpacking.DecodeInverts | foundationdb-tuple/src/pack.rs:951-1073 | below the root, unpacking consumes exactly the packing before any suffix that does not start with 0xff, and gives the element back |
| TupleUnpacking.NestedItemsInvert | foundationdb-tuple/src/pack.rs:778-811 | the items of a nested tuple come back up to its terminator, which two-byte nils do not look like |
| TupleUnpacking.ItemsInvert | foundationdb-tuple/src/pack.rs:778-811 | packed items are read back one by one in front of whatever follows |
| TupleUnpacking.RoundTrip | foundationdb-tuple/src/pack.rs:951-1073 | unpacking a packing at the root succeeds with an element equal to it; a singleton tuple comes back as its element, a small BigInt as Int |
| Subspaces.Subspace.FromElement | foundationdb-tuple/src/subspace.rs:45-54 | the subspace of an element is its packing with its offset |
| Subspaces.Subspace.Nested | foundationdb-tuple/src/subspace.rs:82-91 | a nested subspace appends the packing and adds the offsets |
| Subspaces.Subspace.Pack | foundationdb-tuple/src/subspace.rs:99-104 | a key is the prefix and the packing of the tuple |
| Subspaces.Subspace.PackWithVersionstamp | foundationdb-tuple/src/subspace.rs:111-126 | the key with a four-byte offset over prefix and tuple, with the same panics as a tuple |
| Subspaces.Subspace.PackWithVersionstampForKey | foundationdb-tuple/src/subspace.rs:138-147 | the key with the offset in the width of the API version |
| Subspaces.NestingConcatenates | foundationdb-tuple/src/subspace.rs:82-91 | any chain of nested subspaces is the subspace of the concatenated tuple, bytes and offset |
| Subspaces.NestedKeyIsWholeKey | foundationdb-tuple/src/subspace.rs:82-147 | a key packed in a chain of subspaces, plain or with a versionstamp, is the key of the concatenated tuple packed at once |
| Subspaces.UnpackUndoesPack | foundationdb-tuple/src/subspace.rs:149-155 | unpacking a key of a subspace gives the tuple back |
| Subspaces.UnpackUndoesVersionstampedKey | foundationdb-tuple/src/subspace.rs:138-155 | without incomplete stamps a versionstamped key has no suffix and unpacks to its tuple |
| Subspaces.CommittedKeyIsCompleted | foundationdb-tuple/src/subspace.rs:138-147 | what the database makes of a versionstamped key is the packing of the completed tuple; only an offset too large for the old API fails |
| Subspaces.RangeShape | foundationdb-tuple/src/subspace.rs:164-174 | the range holds exactly the keys that continue the prefix with a byte other than 0xff |
| Subspaces.RangeIsProperExtensions | foundationdb-tuple/src/subspace.rs:164-174 | a packed tuple is in the range exactly when the tuple of the subspace is a proper prefix of it |
| Subspaces.IsStartOfExtensions | foundationdb-tuple/src/subspace.rs:159-161 | every extension of the tuple is accepted |
| Subspaces.StartOfCondition | foundationdb-tuple/src/subspace.rs:159-161 | an accepted tuple is an extension exactly when its key ends with the prefix or does not go on with 0xff |
| Subspaces.StartOfIsExactWhen | foundationdb-tuple/src/subspace.rs:159-161 | a subspace accepts extensions only, exactly when its tuple is empty or its last element is none of bytes, string and tuple |
| Subspaces.FalseExtension | foundationdb-tuple/src/subspace.rs:159-161 | for every other subspace, a tuple that is accepted and is no extension |
| ProfileReader.Reader.TakeBytes | foundationdb-profiling/src/decode.rs:125-137 | takes n bytes and moves past them, or fails with the offset, the bytes needed and those remaining |
| ProfileReader.Reader.ReadBytes | foundationdb-profiling/src/decode.rs:175-178 | a length and that many bytes |
| ProfileReader.Reader.ReadHeader | foundationdb-profiling/src/decode.rs:202-215 | the header fields in wire order, with an optional tenant |
| ProfileReader.Reader.ReadConflictRange | foundationdb-profiling/src/decode.rs:272-283 | a range, where an empty end stands for the single key begin |
| ProfileReader.Reader.ReadConflictRanges | foundationdb-profiling/src/decode.rs:189-200 | the loop reads as many ranges as the count says, or fails where the first one does |
| ProfileReader.Reader.ReadMutation | foundationdb-profiling/src/decode.rs:326-363 | strips the checksum and the accumulative index that the type flags announce, and expands a compact clear |
| ProfileReader.Reader.ReadMutations | foundationdb-profiling/src/decode.rs:189-200 | the loop reads as many mutations as the count says |
| ProfileReader.Reader.ReadSpanContext | foundationdb-profiling/src/decode.rs:308-324 | the span context in the layout of the protocol version, which `ProfileWire.SpansRead` says in bytes |
| ProfileReader.Reader.ReadCommitRequest | foundationdb-profiling/src/decode.rs:285-306 | the commit request in wire order, its span only when present |
| ProfileReader.Reader.ReadEvent | foundationdb-profiling/src/decode.rs:217-270 | an event by its code, or the unknown code as an error |
| ProfileReader.DecodeEvents | foundationdb-profiling/src/decode.rs:78-89 | the loop computes the events up to the end of the blob, after a supported protocol version |
| ProfileRoundTrip.SpanInverts | foundationdb-profiling/src/decode.rs:308-324 | a written span is read whole from 7.2 on, and with a zero span id and flags in 7.1 |
| ProfileRoundTrip.RangesInvert | foundationdb-profiling/src/decode.rs:189-200 | written conflict ranges, plain or compact, are read from any place in a blob as what each form means, or fail with the error and the offset of the first that is no range of a key |
| ProfileRoundTrip.MutationsInvert | foundationdb-profiling/src/decode.rs:326-363 | written mutations, compact or not, with either suffix or none, are read as what each form means |
| ProfileRoundTrip.EventInverts | foundationdb-profiling/src/decode.rs:217-270 | a written event is read from any place in a blob as what its forms mean, and reading stops where it ends, or fails with the error of its first malformed range |
| ProfileRoundTrip.EventsInvert | foundationdb-profiling/src/decode.rs:78-89 | written events are read up to the end of the blob, or fail with the error of the first one that does |
| ProfileRoundTrip.BlobReadsAs | foundationdb-profiling/src/decode.rs:78-89 | what decoding makes of any written events, in every supported version, with the error of those that fail |
| ProfileRoundTrip.BlobComesBackWhen | foundationdb-profiling/src/decode.rs:78-89 | decoding a blob gives its version and events exactly when every conflict range and clear is in a form that means it and no 7.1 span has a span id or flags |
| ProfileRoundTrip.BlobRoundTrip | foundationdb-profiling/src/decode.rs:78-89 | for every supported version and every list of valid events, decoding an encoded blob gives the version and the events |
| ProfileWire.NumbersRead | foundationdb-profiling/src/decode.rs:139-171 | numbers are little-endian, signed ones in two's complement, any byte but zero is true, and a blob that ends before one says where, what it needed and what was left |
| ProfileWire.StringsRead | foundationdb-profiling/src/decode.rs:173-178 | a byte string is four bytes of length and that many bytes, or the end of the blob |
| ProfileWire.VersionsAreChecked | foundationdb-profiling/src/decode.rs:91-99 | a blob is refused for its protocol version exactly when that is none of four literal numbers |
| ProfileWire.SpansRead | foundationdb-profiling/src/decode.rs:101-105 | at the literal versions of 7.2, 7.3 and 7.4 a span is 25 bytes, at that of 7.1 it is 16 with zero id and flags |
| ProfileWire.CodesRead | foundationdb-profiling/src/decode.rs:217-270 | an event that is read is of the kind of its literal code, and any code but 0 to 6 is the error UnknownEventType |
| ProfileWire.CodesWritten | foundationdb-profiling/src/decode.rs:54-60 | every event is written with the literal code of its kind |
| ProfileWire.MutationsRead | foundationdb-profiling/src/decode.rs:326-363 | for any type byte and parameters: the bit 0x80 strips four bytes, with 0x40 six, or the mutation is malformed; type 1 with an empty end is expanded |
| ProfileWire.RangesRead | foundationdb-profiling/src/decode.rs:272-283 | for any begin and end: an empty end needs a begin that is empty or ends in zero, and is expanded |
| ProfileMalformed.BlobFailsAtFirstMalformed | foundationdb-profiling/src/decode.rs:272-283 | written events decode exactly when none of their conflict ranges is malformed; else the error is MalformedKeyRange with the offset of the first such range in the blob |
| ProfileMalformed.PlacedAreThere | foundationdb-profiling/src/decode.rs:272-306 | the offsets of those ranges are where their bytes are |
| ProfileTruncation.TruncatedEvents | foundationdb-profiling/src/decode.rs:78-89 | cutting a blob anywhere leaves the first events, or an end of file inside the cut |
| ProfileTruncation.TruncationIsMonotone | foundationdb-profiling/src/decode.rs:78-200 | every proper prefix of a blob that decodes gives strictly fewer, first events, or UnexpectedEof with its offset inside and less remaining than needed |
| ProfileTruncation.CapacityIsCount | foundationdb-profiling/src/decode.rs:189-200 | when a counted list decodes, its length is the count, which the capacity cap by remaining bytes never cuts |
| ProfileKeys.KeyAfterIsNext | foundationdb-profiling/src/reader.rs:114-117 | no key lies between a key and the one after it |
| ProfileKeys.KeysRestore | foundationdb-profiling/src/reader.rs:92-98 | every key of the keyspace, and the key after it, restores to the cursor that it was |
| ProfileKeys.FirstCursorsRestore | foundationdb-profiling/src/reader.rs:58-98 | the cursors at the beginning and at a version can be restored from their bytes |
| ProfileKeys.VersionKeyIsFirst | foundationdb-profiling/src/reader.rs:106-112 | the key of a version is at or before exactly the records of that version and later ones, and of a negative version before all |
| ProfileKeys.RangeOfVersions | foundationdb-profiling/src/reader.rs:197-212 | the range of a page between two versions holds exactly the records from the first up to the second |
| ProfileKeys.OpenRangeHoldsRest | foundationdb-profiling/src/reader.rs:197-212 | without an end version the range holds exactly the records from the cursor on, and nothing outside the keyspace |
| ProfileKeys.VersionKeyIsOfLeastStamp | foundationdb-profiling/src/reader.rs:106-112 | the key of a version is that of a record with the least stamp of it, up to the stamp |
| ProfileKeys.KeyOrderIsStampOrder | foundationdb-profiling/src/reader.rs:386-413 | chunk keys in order have their versionstamps in order |
| ProfileKeys.ParseInverts | foundationdb-profiling/src/reader.rs:386-413 | parsing a key in the layout of chunk keys gives back its versionstamp, id, chunk and total |
| ProfileKeys.ParsesExactly | foundationdb-profiling/src/reader.rs:386-413 | a key parses to some fields exactly when it begins with the key written for them |
| ProfileKeys.KeyLayout | foundationdb-profiling/src/reader.rs:386-413 | that key spelled out, its prefix as text |
| ProfilePages.Assembler.Push | foundationdb-profiling/src/reader.rs:493-500 | one row takes the assembler one step of the state machine, a key that does not parse counting as the last row only |
| ProfilePages.Assembler.Process | foundationdb-profiling/src/reader.rs:502-563 | a parsed row continues, completes, restarts or breaks its transaction as the state machine says |
| ProfilePages.Assembler.ReportBroken | foundationdb-profiling/src/reader.rs:565-586 | a broken id is reported once; a later row of it becomes the last one of its report |
| ProfilePages.Assembler.Cut | foundationdb-profiling/src/reader.rs:588-607 | the greatest position at or before its argument that no outcome straddles; dropped, once each, are exactly the outcomes whose last key is at or after it, and those lie after it whole |
| ProfilePages.Assembler.Finish | foundationdb-profiling/src/reader.rs:609-665 | resumes after the last row, or at the cut before the oldest pending transaction keeping the outcomes before it, or breaks what is pending when a stopped page would not advance |
| ProfilePages.BuildPage | foundationdb-profiling/src/reader.rs:667-712 | the loop computes the page of the kept outcomes, which `ProfileReturns.PageReturnsKept` says |
| ProfilePages.SortByLast | foundationdb-profiling/src/reader.rs:592-594 | each index once, by descending last key |
| ProfilePages.SortPending | foundationdb-profiling/src/reader.rs:616-618 | each pending transaction once, by first key |
| ProfileScanning.ReadPage | foundationdb-profiling/src/reader.rs:330-368 | reads rows until the stream ends, fails or the check says stop; a row outside the range or out of order is the error, and otherwise the page is that of the rows read |
| ProfileRuns.AssemblerComputesRuns | foundationdb-profiling/src/reader.rs:493-586 | after any rows, pending are exactly the incomplete runs, the complete outcomes are exactly the complete runs, pending and broken ids are disjoint, and every broken id points at its report |
| ProfileRuns.NumberedIsRun | foundationdb-profiling/src/reader.rs:459-466 | consecutive own rows numbered from 1 form the run of their last row |
| ProfileRuns.RunIsNumbered | foundationdb-profiling/src/reader.rs:459-466 | every run consists of consecutive own rows numbered from 1 |
| ProfileRuns.CompleteExactlyForNumberedRows | foundationdb-profiling/src/reader.rs:502-563 | over sorted rows an outcome is complete exactly for consecutive rows of an id numbered 1 to a total they agree on, its blob joining their values |
| ProfileRuns.CompletesInOrder | foundationdb-profiling/src/reader.rs:259-262 | complete outcomes come by strictly increasing last keys, so each once |
| ProfileOwnRows.OutcomesDependOnOwnRows | foundationdb-profiling/src/reader.rs:502-586 | all outcomes of an id, complete and broken, over interleaved rows are those over its own rows alone |
| ProfileCoverage.RowsAreAccounted | foundationdb-profiling/src/reader.rs:462-466 | after any sorted rows, every row of a transaction lies between the first and last key of an outcome of its id, or belongs to what is pending of it |
| ProfileCoverage.PageKeepsOnePass | foundationdb-profiling/src/reader.rs:609-665 | a page keeps exactly the outcomes, complete and broken, of one pass over the rows between its cursor and the next one; when it breaks what is pending, a report of each is added |
| ProfileCoverage.PagesReportEveryRow | foundationdb-profiling/src/reader.rs:609-665 | every row of a transaction that any page passes has a kept outcome of its id that begins at or before it, and that spans it unless the page breaks its pending transactions |
| ProfileCoverage.ChainsReportEveryRow | foundationdb-profiling/src/reader.rs:272-313 | every row of a transaction, from the start of chained pages to the final cursor, has such an outcome in one of the pages |
| ProfileResuming.PageIsDetermined | foundationdb-profiling/src/reader.rs:609-665 | two pages with the same start, rows read and decision to stop keep the same outcomes, in the same order, and resume at the same key |
| ProfileResuming.PageResumes | foundationdb-profiling/src/reader.rs:609-665 | a page resumes at the last row it read that no outcome straddles and nothing is pending from before, or after all of them; it breaks what is pending exactly when it is stopped and that row is not past its start |
| ProfileBrokenReports.ReportsCounted | foundationdb-profiling/src/reader.rs:565-586 | after any rows an id is broken exactly when a row of it failed and no first chunk came since; it was never reported exactly when no row failed, and at most once exactly when none failed after a first chunk that came after a failure |
| ProfileBrokenReports.ReportedOncePerPageWhen | foundationdb-profiling/src/reader.rs:309-311 | a page skips an id as broken at most once exactly when no row of it before the row it resumes at fails again, and it is not stuck with something pending of the id after one failed; where it resumes and whether it is stuck are said of the rows |
| ProfileBrokenReports.BrokenOncePerRestart | foundationdb-profiling/src/reader.rs:473-475 | over sorted rows, the first chunk between two reports of an id lies neither before the last row of the one nor after the first row of the other |
| ProfileBrokenReports.ReportedTwice | foundationdb-profiling/src/reader.rs:309-311 | for all stamps, ids and values, three rows such that any page which reads them skips the id twice, and with which stamps |
| ProfilePaging.PageKeepsRuns | foundationdb-profiling/src/reader.rs:609-665 | a page keeps exactly the runs between its cursor and the next one, and leaves later ones whole unless it breaks its pending transactions |
| ProfilePaging.PagingRefinesOnePass | foundationdb-profiling/src/reader.rs:272-313 | for any stops, and for pages that end before later rows are written, the complete outcomes of chained pages are those of one pass that end before the final cursor, in order and once, minus those that straddle a boundary where a page broke its pending transactions |
| ProfilePaging.PagingLosesNothing | foundationdb-profiling/src/reader.rs:300-307 | when no page broke anything, nothing is missing |
| ProfilePaging.PageAdvances | foundationdb-profiling/src/reader.rs:295-298 | no page moves the cursor back, a stopped page moves it forward and uses up part of a measure |
| ProfilePaging.StopsAreBounded | foundationdb-profiling/src/reader.rs:295-298 | over N rows at most 2N pages are stopped, whatever the stop decisions |
| ProfilePaging.RangeHoldsRest | foundationdb-profiling/src/reader.rs:197-212 | of the rows of a scan, the range of a cursor holds exactly those from the cursor on |
| ProfilePaging.NextCursorRestores | foundationdb-profiling/src/reader.rs:42-50 | a page of the keyspace read from a cursor that can be restored gives one that can be |
| ProfilePaging.ReadPageIsPageRun | foundationdb-profiling/src/reader.rs:330-368 | a page read from the rows of its range, or the first of them, is a page in the sense of the refinement |
| ProfilePaging.TransactionsAreOfCompletes | foundationdb-profiling/src/reader.rs:667-705 | the transactions of a page are those of its complete outcomes |
| ProfileScans.ScanReturnsOnePass | foundationdb-profiling/src/reader.rs:300-307 | what a caller gets from chained calls, stopped anywhere or tailing the rows: the transactions of one pass up to the final cursor, in order and once, but for those that a page broke |
| ProfileReturns.PageReturnsKept | foundationdb-profiling/src/reader.rs:667-712 | a page has one transaction for each kept outcome that decodes and one skip for each other, in their order: with the versions, stamp, id and events, or with the stamp, id and reason |
| ProfileReturns.ReadingReturnsRecords | foundationdb-profiling/src/reader.rs:667-712 | every record a reading passes, rows of an id numbered to their total whose values join to the blob of some events, is returned by exactly one transaction: first row's stamp and id, the stamp's first eight bytes as a signed version, protocol version and events |
| ProfileReturns.ReadingReportsRest | foundationdb-profiling/src/reader.rs:233-252 | what a reading skips: each outcome it keeps that is broken or does not decode, once, with the reason and the stamp and id of its first row |
| ProfileReturns.FirstRowsAreNamed | foundationdb-profiling/src/reader.rs:502-586 | after any rows, every outcome, broken or not, and every pending transaction has the key, stamp and id of its first row |
| ProfileReturns.ScanReturnsOutcomes | foundationdb-profiling/src/reader.rs:300-307 | a scan returns one transaction for each outcome up to its final cursor that decodes and that no page broke, in their order |
| ProfileReturns.OutcomesAre | foundationdb-profiling/src/reader.rs:300-307 | those outcomes are exactly those of rows of an id numbered to their total, from the start of the scan to the final cursor, that no page broke |
| ProfileReturns.ScanReturnsRecords | foundationdb-profiling/src/reader.rs:300-307 | every record up to the final cursor that no page broke is returned by the scan, with its stamp, id, versions and events |
| ProfileBuckets.KeyCounts.InsertKey | foundationdb-profiling/src/aggregate.rs:121-123 | counts one more hit of a key |
| ProfileBuckets.KeyCounts.InsertRange | foundationdb-profiling/src/aggregate.rs:125-127 | counts one more hit of a range |
| ProfileBuckets.KeyCounts.Total | foundationdb-profiling/src/aggregate.rs:129-135 | the total is the number of recorded hits |
| ProfileBuckets.KeyCounts.Starts | foundationdb-profiling/src/aggregate.rs:175-184 | every key where a hit starts, a range at its begin, with how many do |
| ProfileBuckets.SplitKeys | foundationdb-profiling/src/aggregate.rs:196-226 | consecutive keys without gaps in at most n buckets, each but the last full at its last key and not before |
| ProfileBuckets.KeyCounts.Buckets | foundationdb-profiling/src/aggregate.rs:170-227 | at most n buckets with increasing starts from the least one; each counts the hits up to the next start, they add up to the total, and all but the last hold max(1, total/n) and would not without their last start |
| ProfileBuckets.SplitIsUnique | foundationdb-profiling/src/aggregate.rs:159-168 | no other list of buckets has these properties |
| ProfileBuckets.BucketsCountHits | foundationdb-profiling/src/aggregate.rs:159-168 | the count of a bucket is the number of recorded keys and range begins from its start up to the next one, and every bucket but the last has at least max(1, total/n) |
| Runner.RunAttempt | foundationdb/src/runner.rs:561-598 | one pass over closure and commit, reporting a failed hook and committing anyway |
| Runner.Turn | foundationdb/src/runner.rs:622-728 | the steps and the result of one attempt, and the doubt it adds before the policy is asked |
| Runner.RetryLoop | foundationdb/src/runner.rs:605-741 | attempts are made up to the first that ends the run, whose result is the run's: the value, the original error, or the native or binding error |
| Runner.Run | foundationdb/src/runner.rs:743-765 | completion follows every run that ends, and the only step when no transaction could be created |
| RunnerContract.RunsFollowTheContract | foundationdb/src/runner.rs:561-765 | the steps of every run are accepted by the automaton of the code's order with consecutive attempt indexes; one that ends completes exactly once, last |
| RunnerContract.RunsFollowTheDocumentation | foundationdb/src/runner.rs:69-96 | without the calls that make the closures' futures, the steps of every run are accepted by the automaton of the documented order |
| RunnerContract.ClosureIsCalledFirst | foundationdb/src/runner.rs:622-626 | in every attempt the closure is called just before the start hook and awaited just after it |
| RunnerContract.FlagsAreDoubts | foundationdb/src/runner.rs:488-490 | each attempt's closure is called once and told exactly whether an original error before it leaves a commit in doubt, whatever the policy decided |
| RunnerContract.HooksOnlyWatch | foundationdb/src/runner.rs:65-67 | runs that differ in hook results only make the same attempts, return the same result and take the same steps but for reports of failed hooks |
| RunnerSteps.StepsAreSaid | foundationdb/src/runner.rs:566-741 | for every step, a run takes it exactly when its script says so: which hooks fire and with which codes, what is proposed, and that on_error gets the policy's error or 1020 |
| RunnerSteps.FlagsAreSaid | foundationdb/src/runner.rs:618-683 | the closure of attempt k is called with true exactly when an earlier attempt's commit failed with a maybe-committed error, or its closure with an error classified as one |
| RunnerSteps.PoliciesKeepFlags | foundationdb/src/runner.rs:649-653 | runs that differ in what the policy decides hand out the same flags over the attempts both make |
| RunnerSteps.RunEndsAsSaid | foundationdb/src/runner.rs:622-741 | a run goes on past exactly the attempts that failed, were not fatal and could be restarted; the result for every other attempt, case by case |
| Transact.Tries.CanRetry | foundationdb/src/database.rs:198-202 | each question counts a try, and the answer is no from the limit on or past the deadline |
| Transact.Transact | foundationdb/src/database.rs:189-230 | the loop goes on past a native error, of the commit or the closure, exactly when the closure is idempotent or the error is not maybe-committed, the limit and the deadline allow it and on_error does not refuse; the result is the value, the closure's own error, the refusal, or the native error |
| Transact.CallsAreLimited | foundationdb/src/database.rs:195-202 | the closure is called at most max(1, limit) times |
| Transact.AppliedAtMostOnce | foundationdb/src/database.rs:189-230 | without idempotence every call before the last is known not to have committed, so writes are applied at most once, and once when the run commits |
| Transact.AppliedAtMostOnceWhen | foundationdb/src/database.rs:189-230 | as long as some error leaves a commit in doubt, every run applies writes at most once exactly when the closure is not idempotent or its retry limit is 0 or 1 |
| Usage.AttemptUsage.RecordGet | foundationdb/src/budget.rs:314-320 | a read adds its bytes, its pairs and one call |
| Usage.AttemptUsage.RecordGetRange | foundationdb/src/budget.rs:322-328 | a batch adds its bytes, its pairs and one call of its kind |
| Usage.AttemptUsage.RecordSet | foundationdb/src/budget.rs:330-334 | a write adds its bytes on the written side and one call of its kind |
| Usage.AttemptUsage.RecordClear | foundationdb/src/budget.rs:336-340 | the same for a clear |
| Usage.AttemptUsage.RecordClearRange | foundationdb/src/budget.rs:342-346 | the same for a range clear |
| Usage.AttemptUsage.RecordAtomicOp | foundationdb/src/budget.rs:348-352 | the same for an atomic operation |
| Usage.AttemptUsage.SetCustom | foundationdb/src/budget.rs:354-359 | notes a replacement; the metrics stay the values of the notes |
| Usage.AttemptUsage.IncrementCustom | foundationdb/src/budget.rs:361-367 | notes an increment; the metrics stay the values of the notes |
| Usage.IncrementsAddUp | foundationdb/src/budget.rs:361-367 | increments of a metric add up, in whatever order, to the value before them or to zero, and make it present |
| Usage.ValueSinceReplaced | foundationdb/src/budget.rs:354-367 | after a replacement only it and the increments since count |
| Usage.TallyOfConcat | foundationdb/src/budget.rs:294-312 | counters add up over operations, in whatever order those resolve |
| Usage.TallyOfMultiset | foundationdb/src/budget.rs:294-312 | only which operations there were matters to the counters, not their order |
| Usage.CountersAre | foundationdb/src/budget.rs:314-352 | each counter is the sum or the number over the operations it is for: bytes of reads, bytes of writes, pairs read, and calls of each kind |
| Usage.UsageSlot.Begin | foundationdb/src/budget.rs:441-450 | installs a fresh, empty generation and leaves the old object alone |
| Usage.ClientBudget.Check | foundationdb/src/budget.rs:116-153 | reports an exceeded limit exactly when one is exceeded, the first in the order time, bytes read, bytes written |
| Metrics.TransactionMetrics.BeginAttempt | foundationdb/src/metrics.rs:249-283 | opens an empty attempt on a generation, dropping what was open |
| Metrics.TransactionMetrics.RecordCommit | foundationdb/src/metrics.rs:295-303 | records the commit and freezes the duration once |
| Metrics.TransactionMetrics.RecordGrv | foundationdb/src/metrics.rs:305-328 | changes nothing unless the issuing attempt is still open, and then keeps the first duration |
| Metrics.TransactionMetrics.FinishAttempt | foundationdb/src/metrics.rs:330-364 | pushes one entry with the next index if an attempt is open, field by field from what was open, keeps earlier ones, and counts retries |
| Metrics.TransactionMetrics.SetOnErrorDuration | foundationdb/src/metrics.rs:366-374 | changes one field of the last entry and nothing else |
| Metrics.RetriesOfCompletedRun | foundationdb/src/metrics.rs:138-140 | the retries of a completed run are one fewer than its attempts |
| Metrics.TotalUsage | foundationdb/src/metrics.rs:162-185 | the total is the sum of the usage of all attempts |
| InstrumentedRuns.MetricsHooks.OnCommitError | foundationdb/src/runner.rs:407-433 | counts a conflict exactly for error 1020 and keeps the conflicting keys of the open attempt |
| InstrumentedRuns.MetricsHooks.OnComplete | foundationdb/src/runner.rs:455-461 | an attempt that is still open is reported as failed, and nothing otherwise; the total duration is the time since the hooks were made |
| InstrumentedRuns.Play | foundationdb/src/runner.rs:393-462 | any steps of a run, played on a transaction and its hooks, leave in the collector what `RunReports` says of them |
| InstrumentedRuns.InstrumentedRun | foundationdb/src/database.rs:467-483 | the report of a run has one entry for each attempt made, with the usage of its operations, its elapsed time and duration, its outcome and cause, its conflicting keys and the durations of commit and error handling, the number of conflicts, the commit version and the total duration; without a transaction only the last |
| RunReports.RunCollected | foundationdb/src/runner.rs:605-765 | what the steps of any run leave is the entries of its attempts: retried with the cause the policy chose, committed, or failed, also for the attempt that was open when the run ended |
| RunReports.ReportOfEndedRun | foundationdb/src/metrics.rs:59-70 | of an ended run exactly the last attempt was not retried, it committed exactly when the run succeeded, and the retries are one fewer than the attempts |
| RunReports.UsageOfRun | foundationdb/src/metrics.rs:162-185 | the total usage of a report counts the operations of every attempt of its run, those before the collector was attached included, and nothing else |
| RunReports.ElapsedIsSumOfDurationsWhen | foundationdb/src/metrics.rs:162-173 | the elapsed time of the total usage is at least the sum of the durations of the attempts, and equal exactly when each was reported as soon as its work was over |
| RunReports.BackoffIsElapsed | foundationdb/src/metrics.rs:344-352 | one retry that waited is enough for it to be greater |
| RunReports.ConflictsAreRetriesWhen | foundationdb/src/metrics.rs:141-142 | the conflict count is the number of conflicts that were retried exactly when the run did not end with a conflict |
| RunReports.ConflictWithoutRetry | foundationdb/src/metrics.rs:141-142 | a run with one conflict and no retry |
| Attempts.Transaction.Attach | foundationdb/src/transaction.rs:604-616 | the attempt is reported from here on with what it has recorded already, and a second call changes nothing |
| Attempts.Transaction.Issue | foundationdb/src/transaction.rs:646-653 | an operation holds the generation that is current when it is issued |
| Attempts.Transaction.Resolve | foundationdb/src/transaction.rs:886-921 | an operation resolves once and records into that generation whatever the current one is: each generation has recorded the operations issued in it that have resolved, in the order they did, and pushed entries stay as they were |
| Attempts.Transaction.TotalUsageIsTally | foundationdb/src/metrics.rs:162-185 | at any time the counters of the total usage are the tally of operations issued in the reported attempts, none counted twice, and of all of them when they had resolved before their attempts were reported |
| AttemptHistories.IssuedAreRecordedOnce | foundationdb/src/transaction.rs:646-653 | over any history, the operations issued in a generation are those recorded in it and those that have not resolved, each once |
| AttemptHistories.RecordedWereIssued | foundationdb/src/transaction.rs:646-653 | a generation records each operation issued in it at most once and no other, and all of them once they have resolved |
| Attempts.Transaction.BeginAttempt | foundationdb/src/transaction.rs:655-682 | a new attempt has a fresh empty generation, which metrics record from then on; earlier ones keep their operations |
| Attempts.Transaction.EndAttempt | foundationdb/src/transaction.rs:639-645 | appends the snapshot of the open attempt, at most once per generation |
| Attempts.Transaction.Commit | foundationdb/src/transaction.rs:1402-1421 | an answered commit freezes the duration and records that of the commit; one that succeeded reports the attempt as committed with both |
| Attempts.Transaction.OnError | foundationdb/src/transaction.rs:1458-1477 | the duration is frozen first; an accepted error reports the attempt as retried with that duration and its cause and starts the next one empty, a refused one changes nothing else |
| Attempts.Transaction.ResolveReadVersion | foundationdb/src/transaction.rs:1674-1691 | a read version of an earlier attempt changes nothing in the report |
| Attempts.Transaction.SetCustomMetric | foundationdb/src/transaction.rs:1526-1528 | an application metric is noted in the current attempt only |
| Attempts.Transaction.IncrementCustomMetric | foundationdb/src/transaction.rs:1558-1561 | the same for an increment |
| AttemptHistories.NothingRecordedYet | foundationdb/src/budget.rs:421-428 | no operation is ever recorded in a generation that has not begun |

## Left out

- The C client, its futures and pointers: commits, `on_error` and error predicates are arbitrary answers in a script.
- Asynchronous polling, wakers and pinning: a stream is the sequence of its rows and its possible error, a future its result.
- Clocks, log lines, tracing spans, formatting and the deadline's time source: elapsed times and deadline answers are parameters.
- Integer overflow of counters and of buffers beyond 4 GiB: counters are unbounded, string and tuple sizes that must fit `u32` are part of `Packable` only where the code checks them, and `transact`'s try counter does not wrap.
- Statically typed Rust tuples, `Option<T>` and `Vec<T>` of other types: tuples and nils are modelled as the cases of `Element`, whose packing goes through the same code paths.
- `BigUint`: it packs like the non-negative big integers; the `num-bigint` and `uuid` features are taken as enabled.
- Borrowed and owned variants (`Cow`, `into_owned`, `as_*` accessors): both are one value in the model.
- The sorts of the standard library: insertion sorts stand for them, with the same order as their contract.
- The iteration order of hash maps: pending transactions are sorted by first key, which no two of them share.
- Aggregator events, `top_keys` and `top_ranges`: which events count as hits, and two sorts of the counters.
- ProfileReader.DecodeEvents: the reservation of memory is represented by its element count only.
- Transact.Transact: the closure's data and the transaction handle it passes around are not modelled.
- Runner.Run: tuples of hooks are not modelled, one observer sees all steps; the hooks of the metrics are in `InstrumentedRuns`.
- InstrumentedRuns.InstrumentedRun: the operations of an attempt resolve within it, and read versions and application metrics are not recorded; `Attempts` has all of them, at any time.
- Attempts.Transaction.Issue: an operation that fails or is cancelled never resolves; writes are issued and resolved at once.
- Directories, the high-contention allocator, leader election, the network lifecycle, the simulation executor and the binding tester.
