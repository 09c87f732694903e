/** Tuple elements, their order, and the text and float representations they carry. */
module TupleElement {
  import opened ByteStrings
  import opened Digits
  import opened TupleCodes

  /** Text is kept as its bytes. */
  type Utf8 = s: bytes | ValidUtf8(s) witness []

  type UuidBytes = s: bytes | |s| == 16 witness seq(16, _ => 0)

  /** Ten bytes of transaction version, two of user version. */
  type Stamp = s: bytes | |s| == 12 witness seq(12, _ => 0)

  /** Floats are their bit patterns. */
  datatype Element =
    | Nil
    | Bytes(bytes: bytes)
    | String(text: Utf8)
    | Tuple(elements: seq<Element>)
    | Int(i: i64)
    | BigInt(n: int)
    | Float(f32: u32)
    | Double(f64: u64)
    | Bool(b: bool)
    | Uuid(uuid: UuidBytes)
    | Versionstamp(stamp: Stamp)

  // ---------- text ----------

  predicate Continuation(s: bytes, i: nat) {
    i < |s| && 0x80 <= s[i] <= 0xbf
  }

  /** Well-formed UTF-8, table 3-7 of the Unicode standard. */
  predicate ValidUtf8(s: bytes) {
    s == [] ||
    if s[0] <= 0x7f then
      ValidUtf8(s[1..])
    else if 0xc2 <= s[0] <= 0xdf then
      Continuation(s, 1) && ValidUtf8(s[2..])
    else if 0xe0 <= s[0] <= 0xef then
      && Continuation(s, 1) && Continuation(s, 2)
      && (s[0] == 0xe0 ==> s[1] >= 0xa0) && (s[0] == 0xed ==> s[1] <= 0x9f)
      && ValidUtf8(s[3..])
    else
      && 0xf0 <= s[0] <= 0xf4
      && Continuation(s, 1) && Continuation(s, 2) && Continuation(s, 3)
      && (s[0] == 0xf0 ==> s[1] >= 0x90) && (s[0] == 0xf4 ==> s[1] <= 0x8f)
      && ValidUtf8(s[4..])
  }

  // ---------- floats ----------

  /** A negative float has every bit flipped, another one only its sign. */
  function Flipped(bits: nat, width: nat): (u: nat)
    requires width > 0 && bits < Pow256(width)
    ensures u < Pow256(width)
  {
    var sign := 128 * Pow256(width - 1);
    if bits >= sign then Pow256(width) - 1 - bits else bits + sign
  }

  function Unflipped(u: nat, width: nat): (bits: nat)
    requires width > 0 && u < Pow256(width)
    ensures bits < Pow256(width) && Flipped(bits, width) == u
  {
    var sign := 128 * Pow256(width - 1);
    if u < sign then Pow256(width) - 1 - u else u - sign
  }

  function FloatBytes(bits: nat, width: nat): (b: bytes)
    requires width > 0 && bits < Pow256(width)
    ensures |b| == width
  {
    BigEndian(Flipped(bits, width), width)
  }

  function FloatBits(b: bytes): (bits: nat)
    requires b != []
    ensures bits < Pow256(|b|)
  {
    ValueBound(b);
    Unflipped(Value(b), |b|)
  }

  /** The position of a bit pattern in the order of IEEE 754, section 5.10: sign, then magnitude. */
  function TotalOrderKey(bits: nat, width: nat): int
    requires width > 0
  {
    var sign := 128 * Pow256(width - 1);
    if bits >= sign then sign - 1 - bits else bits
  }

  lemma FloatRoundTrip(bits: nat, width: nat)
    requires width > 0 && bits < Pow256(width)
    ensures FloatBits(FloatBytes(bits, width)) == bits
  {
    hide BigEndian, Value;
    ValueOfBigEndian(Flipped(bits, width), width);
  }

  /** The flipped bytes compare as the floats do in the total order: -NaN, negatives, -0, +0, positives, NaN. */
  lemma FloatOrder(a: nat, b: nat, width: nat)
    requires width > 0 && a < Pow256(width) && b < Pow256(width)
    ensures CmpBytes(FloatBytes(a, width), FloatBytes(b, width))
         == CmpInt(TotalOrderKey(a, width), TotalOrderKey(b, width))
  {
    hide BigEndian, CmpBytes;
    BigEndianOrder(Flipped(a, width), Flipped(b, width), width);
  }

  function Float32Bytes(bits: u32): (b: bytes)
    ensures |b| == 4
  {
    PowersOfWidths();
    FloatBytes(bits, 4)
  }

  function Float64Bytes(bits: u64): (b: bytes)
    ensures |b| == 8
  {
    PowersOfWidths();
    FloatBytes(bits, 8)
  }

  // ---------- order ----------

  function Code(e: Element): byte {
    match e
    case Nil => NIL
    case Bytes(_) => BYTES
    case String(_) => STRING
    case Tuple(_) => NESTED
    case Int(_) => INTZERO
    case BigInt(_) => INTZERO
    case Float(_) => FLOAT
    case Double(_) => DOUBLE
    case Bool(b) => if b then TRUE else FALSE
    case Uuid(_) => UUID
    case Versionstamp(_) => VERSIONSTAMP
  }

  predicate FitsI64(n: int) {
    -0x8000_0000_0000_0000 <= n < 0x8000_0000_0000_0000
  }

  function CmpElement(a: Element, b: Element): Ordering
    decreases a, 1
  {
    CmpInt(Code(a), Code(b)).Then(
      match a
      case Bytes(x) => if b.Bytes? then CmpBytes(x, b.bytes) else Equal
      case String(x) => if b.String? then CmpBytes(x, b.text) else Equal
      case Tuple(x) => if b.Tuple? then CmpElements(x, b.elements) else Equal
      case Int(x) =>
        if b.Int? then CmpInt(x, b.i)
        else if b.BigInt? then if FitsI64(b.n) then CmpInt(x, b.n) else CmpInt(0, b.n)
        else Equal
      case BigInt(x) =>
        if b.BigInt? then CmpInt(x, b.n)
        else if b.Int? then if FitsI64(x) then CmpInt(x, b.i) else CmpInt(x, 0)
        else Equal
      case Float(x) => if b.Float? then CmpBytes(Float32Bytes(x), Float32Bytes(b.f32)) else Equal
      case Double(x) => if b.Double? then CmpBytes(Float64Bytes(x), Float64Bytes(b.f64)) else Equal
      case Uuid(x) => if b.Uuid? then CmpBytes(x, b.uuid) else Equal
      case Versionstamp(x) => if b.Versionstamp? then CmpBytes(x, b.stamp) else Equal
      case _ => Equal)
  }

  /** Lexicographic, a proper prefix first. */
  function CmpElements(a: seq<Element>, b: seq<Element>): Ordering
    decreases a, 0
  {
    if a == [] then
      if b == [] then Equal else Less
    else if b == [] then
      Greater
    else
      CmpElement(a[0], b[0]).Then(CmpElements(a[1..], b[1..]))
  }

  /** At the root, an element that is not a tuple counts as the tuple of it alone. */
  function CmpValues(e: Element): seq<Element> {
    match e
    case Tuple(v) => v
    case _ => [e]
  }

  function CmpAtRoot(a: Element, b: Element): Ordering {
    CmpElements(CmpValues(a), CmpValues(b))
  }

  // ---------- versionstamps ----------

  const INCOMPLETE: bytes := [0xff, 0xff, 0xff, 0xff, 0xff, 0xff, 0xff, 0xff, 0xff, 0xff]

  predicate IsComplete(s: Stamp) {
    s[0..10] != INCOMPLETE
  }

  function CountIncomplete(e: Element): nat
    decreases e, 1
  {
    match e
    case Versionstamp(s) => if IsComplete(s) then 0 else 1
    case Tuple(v) => CountAllIncomplete(v)
    case _ => 0
  }

  function CountAllIncomplete(es: seq<Element>): nat
    decreases es, 0
  {
    if es == [] then 0 else CountIncomplete(es[0]) + CountAllIncomplete(es[1..])
  }
}
