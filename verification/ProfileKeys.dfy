/** Keys of the profiling keyspace, cursors into it, and the range a page reads. */
module ProfileKeys {
  import opened ByteStrings
  import opened Digits
  import opened Sequences
  import opened Wrappers

  /** `\xff\x02/fdbClientInfo/client_latency`, which the prefix and the end of the keyspace continue. */
  const PROFILE_BASE: bytes := [
    0xff, 0x02, 0x2f, 0x66, 0x64, 0x62, 0x43, 0x6c, 0x69, 0x65, 0x6e, 0x74, 0x49, 0x6e, 0x66, 0x6f, 0x2f,
    0x63, 0x6c, 0x69, 0x65, 0x6e, 0x74, 0x5f, 0x6c, 0x61, 0x74, 0x65, 0x6e, 0x63, 0x79
  ]
  const SLASH: byte := 0x2f
  const PROFILE_PREFIX: bytes := PROFILE_BASE + [SLASH]
  const PROFILE_END: bytes := PROFILE_BASE + [0x30]

  const VERSIONSTAMP_START: nat := 32
  const VERSIONSTAMP_END: nat := 42
  const ID_START: nat := 43
  const ID_END: nat := 59
  const CHUNK_START: nat := 60
  const TOTAL_START: nat := 64
  const MIN_KEY_LEN: nat := 68

  type Versionstamp = s: bytes | |s| == 10 witness seq(10, _ => 0)
  type Id = s: bytes | |s| == 16 witness seq(16, _ => 0)

  datatype Cursor = Cursor(key: bytes) {
    static function Beginning(): Cursor {
      Cursor(PROFILE_PREFIX)
    }

    static function AtVersion(version: i64): Cursor {
      Cursor(VersionKey(version))
    }

    /** Restores a cursor from its bytes, which start with the prefix. */
    static function FromBytes(b: bytes): Option<Cursor> {
      if PROFILE_PREFIX <= b then Some(Cursor(b)) else None
    }
  }

  /** The first key of a version; a negative one counts as zero. */
  function VersionKey(version: i64): bytes {
    PROFILE_PREFIX + BigEndian(if version < 0 then 0 else version, 8) + [0, 0]
  }

  function KeyAfter(key: bytes): bytes {
    key + [0]
  }

  /** No key lies between a key and the one after it. */
  lemma {:induction false} KeyAfterIsNext(a: bytes, b: bytes)
    ensures Lt(a, b) <==> Le(KeyAfter(a), b)
  {
    if a != [] && b != [] {
      KeyAfterIsNext(a[1..], b[1..]);
      TailOfConcat(a, [0]);
    } else if a == [] {
      assert KeyAfter(a) == [0] && [0][1..] == [];
      assert b != [] ==> CmpBytes([0], b) == CmpInt(0, b[0]).Then(CmpBytes([], b[1..]));
    }
  }

  datatype ScanRange = ScanRange(begin: bytes, end: bytes) {
    predicate Contains(key: bytes) {
      Le(begin, key) && Lt(key, end)
    }
  }

  datatype ProfileScanner = ProfileScanner(endVersion: Option<i64>) {
    function End(): bytes {
      if endVersion.Some? then VersionKey(endVersion.value) else PROFILE_END
    }

    /** The range from the cursor, never an inverted one. */
    function Range(cursor: Cursor): ScanRange {
      ScanRange(cursor.key, if Lt(End(), cursor.key) then cursor.key else End())
    }
  }

  datatype ChunkKey = ChunkKey(versionstamp: Versionstamp, id: Id, chunk: nat, total: nat)

  /** The fields of a chunk key, by their offsets; what follows the total is ignored. */
  function ParseChunkKey(key: bytes): Option<ChunkKey> {
    if |key| < MIN_KEY_LEN || !(PROFILE_PREFIX <= key) || key[VERSIONSTAMP_END] != SLASH || key[ID_END] != SLASH then
      None
    else
      Some(ChunkKey(key[VERSIONSTAMP_START..VERSIONSTAMP_END], key[ID_START..ID_END],
                    Value(key[CHUNK_START..TOTAL_START]), Value(key[TOTAL_START..MIN_KEY_LEN])))
  }

  /** Chunk numbers are four bytes. */
  predicate IsWritable(c: ChunkKey) {
    c.chunk < 0x1_0000_0000 && c.total < 0x1_0000_0000
  }

  /** The key a client writes for a chunk. */
  function ChunkKeyOf(c: ChunkKey): bytes
    requires IsWritable(c)
  {
    PROFILE_PREFIX + (c.versionstamp + AfterStamp(c))
  }

  function AfterStamp(c: ChunkKey): bytes
    requires IsWritable(c)
  {
    [SLASH] + (c.id + ([SLASH] + (BigEndian(c.chunk, 4) + BigEndian(c.total, 4))))
  }

  /** Parsing gives the fields of a written key back. */
  lemma ParseInverts(c: ChunkKey)
    requires IsWritable(c)
    ensures ParseChunkKey(ChunkKeyOf(c)) == Some(c)
  {
    hide BigEndian, Value;
    PowersOfWidths();
    PrefixLength();
    var key := ChunkKeyOf(c);
    assert |key| == MIN_KEY_LEN && PROFILE_PREFIX <= key;
    assert key[VERSIONSTAMP_START..VERSIONSTAMP_END] == c.versionstamp;
    assert key[ID_START..ID_END] == c.id;
    assert key[CHUNK_START..TOTAL_START] == BigEndian(c.chunk, 4);
    assert key[TOTAL_START..MIN_KEY_LEN] == BigEndian(c.total, 4);
    ValueOfBigEndian(c.chunk, 4);
    ValueOfBigEndian(c.total, 4);
  }

  /** The commit version of a record, as the unsigned number its first eight versionstamp bytes are. */
  function VersionOf(versionstamp: Versionstamp): nat {
    Value(versionstamp[..8])
  }

  lemma PrefixLength()
    ensures |PROFILE_PREFIX| == VERSIONSTAMP_START
  {
  }

  lemma {:induction false} BetweenHasPrefix(p: bytes, x: byte, key: bytes)
    requires x < 255 && Le(p + [x], key) && Lt(key, p + [x + 1])
    ensures p + [x] <= key
  {
    if p == [] {
      Empty([x]);
      Empty([x + 1]);
      assert key != [] && [x + 1][1..] == [] && !Lt(key[1..], []);
      assert key[0] == x;
    } else {
      TailOfConcat(p, [x]);
      TailOfConcat(p, [x + 1]);
      BetweenHasPrefix(p[1..], x, key[1..]);
      Uncons(key);
      Uncons(p);
    }
  }

  /** Every key of the keyspace restores to a cursor, and so does the one after it. */
  lemma KeysRestore(key: bytes)
    requires Le(PROFILE_PREFIX, key) && Lt(key, PROFILE_END)
    ensures Cursor.FromBytes(key) == Some(Cursor(key)) && Cursor.FromBytes(KeyAfter(key)) == Some(Cursor(KeyAfter(key)))
  {
    hide CmpBytes;
    BetweenHasPrefix(PROFILE_BASE, SLASH, key);
  }

  /** So do the cursors a scan begins with. */
  lemma FirstCursorsRestore(version: i64)
    ensures Cursor.FromBytes(Cursor.Beginning().key) == Some(Cursor.Beginning())
    ensures Cursor.FromBytes(Cursor.AtVersion(version).key) == Some(Cursor.AtVersion(version))
  {
    hide BigEndian;
  }

  lemma StampSplits(key: bytes)
    requires ParseChunkKey(key).Some?
    ensures key == PROFILE_PREFIX + (ParseChunkKey(key).value.versionstamp + key[VERSIONSTAMP_END..])
  {
    PrefixLength();
    assert key[..VERSIONSTAMP_START] == PROFILE_PREFIX;
    assert key[VERSIONSTAMP_START..] == key[VERSIONSTAMP_START..VERSIONSTAMP_END] + key[VERSIONSTAMP_END..];
    Split(key, VERSIONSTAMP_START);
  }

  /** A cursor at a version is before exactly the records of that version and later ones; before all, when negative. */
  lemma VersionKeyIsFirst(version: i64, key: bytes)
    requires ParseChunkKey(key).Some?
    ensures Le(VersionKey(version), key) <==> version <= VersionOf(ParseChunkKey(key).value.versionstamp)
  {
    hide BigEndian, Value, CmpBytes, ParseChunkKey;
    StampSplits(key);
    PowersOfWidths();
    var stamp, rest := ParseChunkKey(key).value.versionstamp, key[VERSIONSTAMP_END..];
    var first := if version < 0 then 0 else version;
    var v := BigEndian(first, 8);
    Split(stamp, 8);
    Assoc(stamp[..8], stamp[8..], rest);
    Assoc(PROFILE_PREFIX, v, [0, 0]);
    CmpPrepend(PROFILE_PREFIX, v + [0, 0], stamp[..8] + (stamp[8..] + rest));
    CmpSameLength(v, stamp[..8], [0, 0], stamp[8..] + rest);
    ZerosFirst(stamp[8..] + rest);
    ValueBound(stamp[..8]);
    BigEndianOfValue(stamp[..8]);
    BigEndianOrder(first, VersionOf(stamp), 8);
  }

  /** A page between two versions reads the records from the first one up to the second one, which is excluded. */
  lemma RangeOfVersions(begin: i64, end: i64, key: bytes)
    requires ParseChunkKey(key).Some?
    ensures ProfileScanner(Some(end)).Range(Cursor.AtVersion(begin)).Contains(key)
       <==> begin <= VersionOf(ParseChunkKey(key).value.versionstamp) < end
  {
    hide BigEndian, Value, CmpBytes, ParseChunkKey, VersionKey, VersionOf;
    VersionKeyIsFirst(begin, key);
    VersionKeyIsFirst(end, key);
    LtTotal(VersionKey(end), key);
    LtTotal(key, VersionKey(end));
    LtTotal(key, VersionKey(begin));
    LtTotal(VersionKey(begin), key);
    if Lt(VersionKey(end), VersionKey(begin)) && Le(VersionKey(begin), key) {
      LtTransitive(VersionKey(end), VersionKey(begin), key);
      LtTotal(VersionKey(end), VersionKey(begin));
    }
  }

  lemma ZerosFirst(b: bytes)
    requires |b| >= 2
    ensures Le([0, 0], b)
  {
    assert [0, 0][1..] == [0];
    assert [0][1..] == [];
    assert CmpBytes([0], b[1..]) == CmpInt(0, b[1]).Then(CmpBytes([], b[1..][1..]));
  }

  /** Chunk keys in order have their versionstamps in order. */
  lemma KeyOrderIsStampOrder(a: bytes, b: bytes)
    requires ParseChunkKey(a).Some? && ParseChunkKey(b).Some? && Le(a, b)
    ensures Le(ParseChunkKey(a).value.versionstamp, ParseChunkKey(b).value.versionstamp)
  {
    hide CmpBytes, ParseChunkKey;
    StampSplits(a);
    StampSplits(b);
    var s, t := ParseChunkKey(a).value.versionstamp, ParseChunkKey(b).value.versionstamp;
    var x, y := a[VERSIONSTAMP_END..], b[VERSIONSTAMP_END..];
    CmpPrepend(PROFILE_PREFIX, s + x, t + y);
    CmpSameLength(s, t, x, y);
  }

  /** Without an end version the range holds exactly the records from the cursor on, and nothing but the keyspace. */
  lemma OpenRangeHoldsRest(cursor: Cursor, key: bytes)
    requires PROFILE_PREFIX <= cursor.key
    ensures ParseChunkKey(key).Some? ==>
              (ProfileScanner(None).Range(cursor).Contains(key) <==> Le(cursor.key, key))
    ensures ProfileScanner(None).Range(cursor).Contains(key) ==> PROFILE_PREFIX <= key
  {
    hide CmpBytes, ParseChunkKey;
    WithPrefixIsInside(cursor.key);
    if ParseChunkKey(key).Some? {
      StampSplits(key);
      WithPrefixIsInside(key);
    }
    LtTotal(PROFILE_END, cursor.key);
    LtTotal(cursor.key, PROFILE_END);
    if Le(cursor.key, key) && Lt(key, PROFILE_END) {
      LtTransitive(PROFILE_PREFIX, cursor.key, key);
      BetweenHasPrefix(PROFILE_BASE, SLASH, key);
    }
  }

  lemma WithPrefixIsInside(key: bytes)
    requires PROFILE_PREFIX <= key
    ensures Le(PROFILE_PREFIX, key) && Lt(key, PROFILE_END)
  {
    hide CmpBytes, Lt, Le;
    var rest := key[|PROFILE_PREFIX|..];
    assert key == PROFILE_PREFIX + rest;
    PrefixIsFirst(PROFILE_PREFIX, rest);
    Assoc(PROFILE_BASE, [SLASH], rest);
    FirstDecides(PROFILE_BASE, SLASH, rest, 0x30, []);
    Empty([0x30]);
  }

  lemma PrefixIsFirst(p: bytes, rest: bytes)
    ensures Le(p, p + rest)
  {
    Empty(p);
    CmpPrepend(p, [], rest);
  }

  lemma FirstDecides(p: bytes, x: byte, a: bytes, y: byte, b: bytes)
    requires x < y
    ensures Lt(p + ([x] + a), p + ([y] + b))
  {
    CmpPrepend(p, [x] + a, [y] + b);
  }

  /** The characters of a text as bytes, when they are all ASCII. */
  function Ascii(text: string): bytes
    requires forall i :: 0 <= i < |text| ==> text[i] < 128 as char
  {
    seq(|text|, i requires 0 <= i < |text| => text[i] as int)
  }

  /** What a written key looks like. */
  lemma KeyLayout(c: ChunkKey)
    requires IsWritable(c)
    ensures ChunkKeyOf(c) == ([0xff, 0x02] + Ascii("/fdbClientInfo/client_latency/")) + (c.versionstamp
              + (Ascii("/") + (c.id + (Ascii("/") + (BigEndian(c.chunk, 4) + BigEndian(c.total, 4))))))
  {
    hide BigEndian;
    SlashIsAscii();
    PrefixIsAscii();
  }

  lemma SlashIsAscii()
    ensures Ascii("/") == [SLASH]
  {
  }

  lemma PrefixIsAscii()
    ensures [0xff, 0x02] + Ascii("/fdbClientInfo/client_latency/") == PROFILE_PREFIX
  {
  }

  lemma RestIsIgnored(key: bytes, more: bytes)
    requires |key| == MIN_KEY_LEN
    ensures ParseChunkKey(key + more) == ParseChunkKey(key)
  {
    hide Value;
    var w := key + more;
    assert w[VERSIONSTAMP_START..VERSIONSTAMP_END] == key[VERSIONSTAMP_START..VERSIONSTAMP_END];
    assert w[ID_START..ID_END] == key[ID_START..ID_END];
    assert w[CHUNK_START..TOTAL_START] == key[CHUNK_START..TOTAL_START];
    assert w[TOTAL_START..MIN_KEY_LEN] == key[TOTAL_START..MIN_KEY_LEN];
    assert PROFILE_PREFIX <= w <==> PROFILE_PREFIX <= key;
  }

  /** A key that parses is the one written for its fields, with anything after it. */
  lemma ParsedIsWritten(key: bytes)
    requires ParseChunkKey(key).Some?
    ensures |key| >= MIN_KEY_LEN
    ensures IsWritable(ParseChunkKey(key).value) && ChunkKeyOf(ParseChunkKey(key).value) == key[..MIN_KEY_LEN]
  {
    hide BigEndian, Value;
    var chunk, total := key[CHUNK_START..TOTAL_START], key[TOTAL_START..MIN_KEY_LEN];
    PowersOfWidths();
    PrefixLength();
    ValueBound(chunk);
    ValueBound(total);
    BigEndianOfValue(chunk);
    BigEndianOfValue(total);
    assert key[ID_END..MIN_KEY_LEN] == [SLASH] + (chunk + total);
    assert key[VERSIONSTAMP_END..MIN_KEY_LEN] == [SLASH] + (key[ID_START..ID_END] + key[ID_END..MIN_KEY_LEN]);
    assert key[..VERSIONSTAMP_START] == PROFILE_PREFIX;
    assert key[..MIN_KEY_LEN] == key[..VERSIONSTAMP_START]
      + (key[VERSIONSTAMP_START..VERSIONSTAMP_END] + key[VERSIONSTAMP_END..MIN_KEY_LEN]);
  }

  /** A key parses to some fields exactly when it begins with the key that is written for them. */
  lemma ParsesExactly(key: bytes, c: ChunkKey)
    ensures ParseChunkKey(key) == Some(c) <==> IsWritable(c) && ChunkKeyOf(c) <= key
  {
    hide ParseChunkKey, ChunkKeyOf;
    if ParseChunkKey(key) == Some(c) {
      ParsedIsWritten(key);
    }
    if IsWritable(c) && ChunkKeyOf(c) <= key {
      LengthOfKey(c);
      ParseInverts(c);
      RestIsIgnored(ChunkKeyOf(c), key[MIN_KEY_LEN..]);
      assert key == ChunkKeyOf(c) + key[MIN_KEY_LEN..];
    }
  }

  lemma LengthOfKey(c: ChunkKey)
    requires IsWritable(c)
    ensures |ChunkKeyOf(c)| == MIN_KEY_LEN
  {
    PrefixLength();
  }

  /** The key of a version is that of its least stamp, without what follows the stamp in a record's key. */
  lemma VersionKeyIsOfLeastStamp(version: i64, c: ChunkKey)
    requires IsWritable(c) && version >= 0 && c.versionstamp == BigEndian(version, 8) + [0, 0]
    ensures ChunkKeyOf(c) == VersionKey(version) + AfterStamp(c)
    ensures |VersionKey(version)| == 42
  {
    hide BigEndian, AfterStamp;
    PrefixLength();
    Assoc(PROFILE_PREFIX, BigEndian(version, 8), [0, 0]);
    Assoc(PROFILE_PREFIX, c.versionstamp, AfterStamp(c));
  }
}
