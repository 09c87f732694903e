/** The tuple format in bytes: the type codes and marks that other clients read, and the order of the types. */
module TupleFormat {
  import opened ByteStrings
  import opened Digits
  import opened Sequences
  import opened TupleCodes
  import opened TupleElement
  import opened TupleEncoding
  import opened TupleIntegers
  import opened TupleUnpacking
  import opened VersionstampOffsets
  import opened Wrappers

  /** The least number of base-256 digits that hold a magnitude. */
  predicate IsDigitCount(n: nat, magnitude: nat) {
    magnitude < Pow256(n) && (n > 0 ==> Pow256(n - 1) <= magnitude)
  }

  /** The bytes of an integer of `n` digits; those of a negative one are the complement of its magnitude. */
  predicate IsInteger(v: int, n: nat, b: bytes) {
    var size := if n <= 8 then 1 else 2;
    && |b| == size + n
    && (n <= 8 ==> b[0] == (if v < 0 then 0x14 - n else 0x14 + n))
    && (n > 8 ==> b[0] == (if v < 0 then 0x0b else 0x1d) && b[1] == (if v < 0 then 255 - n else n))
    && Value(b[size..]) == if v < 0 then Pow256(n) - 1 + v else v
  }

  /** The bytes of a float: a negative one has every bit flipped, another one its sign. */
  predicate IsFloat(bits: nat, sign: nat, b: bytes) {
    Value(b) == if bits >= sign then 2 * sign - 1 - bits else bits + sign
  }

  /** What an element below the root begins with and how it is built. */
  ghost predicate IsFormatted(e: Element, nested: bool, b: bytes) {
    match e
    case Nil => b == if nested then [0x00, 0xff] else [0x00]
    case Bytes(v) => exists w :: IsEscaped(v, w) && b == [0x01] + w + [0x00]
    case String(v) => exists w :: IsEscaped(v, w) && b == [0x02] + w + [0x00]
    case Tuple(v) => exists parts :: AreFormatted(v, parts) && b == [0x05] + Concat(parts) + [0x00]
    case Int(i) => exists n :: IsDigitCount(n, Abs(i)) && IsInteger(i, n, b)
    case BigInt(i) => exists n :: IsDigitCount(n, Abs(i)) && IsInteger(i, n, b)
    case Float(bits) => |b| == 5 && b[0] == 0x20 && IsFloat(bits, 0x8000_0000, b[1..])
    case Double(bits) => |b| == 9 && b[0] == 0x21 && IsFloat(bits, 0x8000_0000_0000_0000, b[1..])
    case Bool(false) => b == [0x26]
    case Bool(true) => b == [0x27]
    case Uuid(u) => b == [0x30] + u
    case Versionstamp(s) => b == [0x33] + s
  }

  ghost predicate AreFormatted(es: seq<Element>, parts: seq<bytes>) {
    |parts| == |es| && forall i :: 0 <= i < |es| ==> IsFormatted(es[i], true, parts[i])
  }

  function Concat(parts: seq<bytes>): bytes {
    if parts == [] then [] else parts[0] + Concat(parts[1..])
  }

  /** A 0xff after each zero byte, and nothing else. */
  predicate IsEscaped(v: bytes, w: bytes) {
    if v == [] then w == []
    else if v[0] == 0x00 then |w| >= 2 && w[0] == 0x00 && w[1] == 0xff && IsEscaped(v[1..], w[2..])
    else w != [] && w[0] == v[0] && IsEscaped(v[1..], w[1..])
  }

  lemma {:induction false} EscapeIsEscaped(v: bytes)
    ensures IsEscaped(v, Escape(v))
  {
    if v != [] {
      EscapeIsEscaped(v[1..]);
      DropPrefix(EscapeByte(v[0]), Escape(v[1..]));
    }
  }

  lemma {:induction false} ByteLenIsDigitCount(m: nat)
    ensures IsDigitCount(ByteLen(m), m)
  {
    ByteLenBound(m, ByteLen(m));
    if m > 0 {
      ByteLenBound(m, ByteLen(m) - 1);
    }
  }

  lemma IntegerIsFormatted(v: int)
    requires PackableInt(v)
    ensures IsDigitCount(ByteLen(Abs(v)), Abs(v)) && IsInteger(v, ByteLen(Abs(v)), EncodeInt(v))
  {
    hide ByteLen, BigEndian, Value, Pow256;
    var n := ByteLen(Abs(v));
    ByteLenIsDigitCount(Abs(v));
    ValueOfBigEndian(if v >= 0 then v else Pow256(n) - 1 + v, n);
    DropPrefix(IntHead(v), IntDigits(v));
  }

  lemma FloatIsFormatted(code: byte, bits: nat, width: nat)
    requires width > 0 && bits < Pow256(width)
    ensures IsFloat(bits, 128 * Pow256(width - 1), ([code] + FloatBytes(bits, width))[1..])
  {
    hide BigEndian, Value;
    ValueOfBigEndian(Flipped(bits, width), width);
    DropPrefix([code], FloatBytes(bits, width));
  }

  /** Every element below the root has the bytes of the format. */
  lemma {:induction false} EncodeIsFormatted(e: Element, depth: nat)
    requires Packable(e) && depth > 0
    ensures IsFormatted(e, depth > 1, Encode(e, depth))
    decreases e, 1
  {
    hide IsInteger, IsDigitCount, EncodeInt, IsEscaped, Escape, ByteLen, IsFloat, FloatBytes;
    match e
    case Bytes(v) =>
      EscapeIsEscaped(v);
      Assoc([0x01], Escape(v), [0x00]);
    case String(v) =>
      EscapeIsEscaped(v);
      Assoc([0x02], Escape(v), [0x00]);
    case Tuple(v) =>
      var parts := PartsOf(v, depth + 1);
      Assoc([0x05], EncodeAll(v, depth + 1), [0x00]);
    case Int(i) =>
      I64IsPackable(i);
      IntegerIsFormatted(i);
    case BigInt(i) => IntegerIsFormatted(i);
    case Float(bits) =>
      PowersOfWidths();
      FloatIsFormatted(0x20, bits, 4);
    case Double(bits) =>
      PowersOfWidths();
      FloatIsFormatted(0x21, bits, 8);
    case _ =>
  }

  lemma {:induction false} PartsOf(es: seq<Element>, depth: nat) returns (parts: seq<bytes>)
    requires AllPackable(es) && depth > 1
    ensures AreFormatted(es, parts) && Concat(parts) == EncodeAll(es, depth)
    decreases es, 0
  {
    hide IsFormatted;
    if es == [] {
      parts := [];
    } else {
      EncodeIsFormatted(es[0], depth);
      var rest := PartsOf(es[1..], depth);
      parts := [Encode(es[0], depth)] + rest;
      assert parts[1..] == rest;
    }
  }

  // ---------- the order of the types ----------

  /** The documented order of the types. */
  function Rank(e: Element): nat {
    match e
    case Nil => 0
    case Bytes(_) => 1
    case String(_) => 2
    case Tuple(_) => 3
    case Int(_) => 4
    case BigInt(_) => 4
    case Float(_) => 5
    case Double(_) => 6
    case Bool(b) => if b then 8 else 7
    case Uuid(_) => 9
    case Versionstamp(_) => 10
  }

  /** Elements of one type, as their values compare. */
  ghost predicate IsOrderOfValues(a: Element, b: Element, r: Ordering)
    requires Rank(a) == Rank(b)
  {
    match a
    case Bytes(v) => r == CmpBytes(v, b.bytes)
    case String(v) => r == CmpBytes(v, b.text)
    case Tuple(v) => r == CmpElements(v, b.elements)
    case Int(v) => r == CmpInt(v, if b.Int? then b.i else b.n)
    case BigInt(v) => r == CmpInt(v, if b.Int? then b.i else b.n)
    case Float(bits) => PowersOfWidths(); r == CmpInt(TotalOrderKey(bits, 4), TotalOrderKey(b.f32, 4))
    case Double(bits) => PowersOfWidths(); r == CmpInt(TotalOrderKey(bits, 8), TotalOrderKey(b.f64, 8))
    case Uuid(v) => r == CmpBytes(v, b.uuid)
    case Versionstamp(v) => r == CmpBytes(v, b.stamp)
    case _ => r == Equal
  }

  /** Elements compare by their types, and by their values within one; integers are of one type, whatever their size. */
  lemma OrderIsByTypeAndValue(a: Element, b: Element)
    ensures Rank(a) != Rank(b) ==> CmpElement(a, b) == CmpInt(Rank(a), Rank(b))
    ensures Rank(a) == Rank(b) ==> IsOrderOfValues(a, b, CmpElement(a, b))
  {
    hide CmpBytes, FloatBytes;
    PowersOfWidths();
    if a.Float? && b.Float? {
      FloatOrder(a.f32, b.f32, 4);
    }
    if a.Double? && b.Double? {
      FloatOrder(a.f64, b.f64, 8);
    }
  }

  // ---------- what unpacking accepts ----------

  /** The type that a first byte announces. */
  predicate IsAnnounced(code: byte, e: Element) {
    match e
    case Nil => code == 0x00
    case Bytes(_) => code == 0x01
    case String(_) => code == 0x02
    case Tuple(_) => code == 0x05
    case Int(_) => 0x0c <= code <= 0x1c
    case BigInt(_) => 0x0b <= code <= 0x1d
    case Float(_) => code == 0x20
    case Double(_) => code == 0x21
    case Bool(b) => code == if b then 0x27 else 0x26
    case Uuid(_) => code == 0x30
    case Versionstamp(_) => code == 0x33
  }

  predicate IsKnown(code: byte) {
    code in {0x00, 0x01, 0x02, 0x05, 0x20, 0x21, 0x26, 0x27, 0x30, 0x33} || 0x0b <= code <= 0x1d
  }

  /** Unpacking gives the type that the first byte announces, and any byte that announces none is an error. */
  lemma CodesAnnounceTypes(input: bytes, depth: nat)
    requires input != []
    ensures var r := DecodeFirst(input, depth);
            && (r.Ok? ==> IsAnnounced(input[0], r.value.1))
            && (!IsKnown(input[0]) ==> r == Err(BadCode(input[0], None)))
  {
    hide Unescaped, UnpackSigned, UnpackBigInt, ValidUtf8, FloatBits;
  }

  /** Reading a string takes escaped bytes up to a zero byte with no 0xff after it, and fails only without one. */
  lemma {:induction false} StringsAreEscaped(input: bytes) returns (w: bytes)
    ensures var r := Unescaped(input);
            if r.Ok? then
              && IsEscaped(r.value.1, w) && input == w + ([0x00] + r.value.0)
              && (r.value.0 != [] ==> r.value.0[0] != 0xff)
            else r == Err(MissingBytes)
    decreases |input|
  {
    w := [];
    if input != [] {
      Uncons(input);
      var n := if input[0] == 0x00 then 2 else 1;
      if n == 1 || (|input| > 1 && input[1] == 0xff) {
        w := StringsAreEscaped(input[n..]);
        Split(input, n);
        if Unescaped(input[n..]).Ok? {
          Assoc(input[..n], w, [0x00] + Unescaped(input[n..]).value.0);
          w := input[..n] + w;
        }
      } else {
        Empty([0x00] + input[1..]);
      }
    }
  }

  /** Elements of a fixed size take it or are too short, and text that is no UTF-8 is an error of its own. */
  lemma FixedSizesAreTaken(input: bytes, depth: nat, size: nat)
    requires input != []
    requires match input[0]
             case 0x20 => size == 5
             case 0x21 => size == 9
             case 0x30 => size == 17
             case 0x33 => size == 13
             case _ => false
    ensures var r := DecodeFirst(input, depth);
            if |input| < size then r == Err(MissingBytes) else r.Ok? && r.value.0 == input[size..]
  {
    hide Unescaped, UnpackSigned, UnpackBigInt, ValidUtf8, FloatBits;
  }

  lemma TextIsChecked(input: bytes, depth: nat)
    requires input != [] && input[0] == 0x02
    ensures var r, v := DecodeFirst(input, depth), Unescaped(input[1..]);
            if v.Err? then r == Err(MissingBytes)
            else if ValidUtf8(v.value.1) then r.Ok? && r.value == (v.value.0, String(v.value.1))
            else r == Err(BadStringFormat)
  {
    hide UnpackSigned, UnpackBigInt, ValidUtf8, FloatBits, Unescaped;
    var w := StringsAreEscaped(input[1..]);
  }

  /** The number of some digits, those of a negative one being the complement of its magnitude. */
  function NumberOf(b: bytes, negative: bool): int {
    if negative then Value(b) + 1 - Pow256(|b|) else Value(b)
  }

  lemma DigitsRead(input: bytes, n: nat, negative: bool)
    ensures UnpackDigits(input, n, negative)
         == if |input| < n then Err(MissingBytes) else Ok((input[n..], NumberOf(input[..n], negative)))
  {
    hide Value, Inverted;
    if n <= |input| {
      ValueOfInverted(input[..n]);
    }
  }

  /** Eight bytes or fewer, read as a machine integer: the number, or that it does not fit. */
  lemma FixedDigitsRead(input: bytes, n: nat, negative: bool)
    requires n <= 8
    ensures var r := if negative then UnpackNx(input, n, 8) else UnpackPx(input, n, 8);
            if |input| < n then r == Err(MissingBytes)
            else
              var v := NumberOf(input[..n], negative);
              r == if -0x8000_0000_0000_0000 <= v < 0x8000_0000_0000_0000 then Ok((input[n..], v))
                   else Err(UnsupportedIntLength)
  {
    hide Value, Padded, Pow256;
    PowersOfWidths();
    if n <= |input| {
      var b := input[..n];
      ValueBound(b);
      Pow256Within(n);
      ValuePadded(if negative then 255 else 0, 8 - n, b);
      var v := NumberOf(b, negative);
      if negative && v < 0 {
        ModuloWraps(v, 0x1_0000_0000_0000_0000);
      }
    }
  }

  lemma {:induction false} Pow256Within(n: nat)
    requires n <= 8
    ensures Pow256(n) <= 0x1_0000_0000_0000_0000
  {
    PowersOfWidths();
    Pow256Sum(n, 8 - n);
  }

  /** Any integer of up to eight digits, minimal or not, is read as its number: an Int when that fits, a BigInt else. */
  lemma IntegersAreRead(input: bytes, depth: nat)
    requires input != [] && 0x0c <= input[0] <= 0x1c
    ensures var r, negative := DecodeFirst(input, depth), input[0] < 0x14;
            var n: nat := if negative then 0x14 - input[0] else input[0] - 0x14;
            if |input| < n + 1 then r == Err(MissingBytes)
            else
              var v := NumberOf(input[1..n + 1], negative);
              r == Ok((input[n + 1..],
                       if -0x8000_0000_0000_0000 <= v < 0x8000_0000_0000_0000 then Int(v) else BigInt(v)))
  {
    hide Unescaped, Value, UnpackPx, UnpackNx, UnpackDigits, NumberOf;
    var negative := input[0] < 0x14;
    var n: nat := if negative then 0x14 - input[0] else input[0] - 0x14;
    FixedDigitsRead(input[1..], n, negative);
    DigitsRead(input[1..], n, negative);
    if |input| >= n + 1 {
      assert input[1..][..n] == input[1..n + 1] && input[1..][n..] == input[n + 1..];
    }
  }

  /** So is one with a length byte, as a BigInt; that byte is the complement of the length for negative ones. */
  lemma LongIntegersAreRead(input: bytes, depth: nat)
    requires input != [] && (input[0] == 0x0b || input[0] == 0x1d)
    ensures var r, negative := DecodeFirst(input, depth), input[0] == 0x0b;
            if |input| < 2 then r == Err(MissingBytes)
            else
              var n: nat := if negative then 255 - input[1] else input[1];
              if |input| < n + 2 then r == Err(MissingBytes)
              else r == Ok((input[n + 2..], BigInt(NumberOf(input[2..n + 2], negative))))
  {
    hide Unescaped, Value, UnpackDigits, NumberOf, UnpackSigned;
    if |input| >= 2 {
      var negative := input[0] == 0x0b;
      var n: nat := if negative then 255 - input[1] else input[1];
      assert input[1..][1..] == input[2..];
      DigitsRead(input[2..], n, negative);
      if |input| >= n + 2 {
        assert input[2..][..n] == input[2..n + 2] && input[2..][n..] == input[n + 2..];
      }
    }
  }

  // ---------- incomplete versionstamps ----------

  /** A stamp is incomplete when its first ten bytes are all 0xff; its last two do not matter. */
  lemma IncompleteStamps(s: Stamp)
    ensures IsComplete(s) <==> exists i :: 0 <= i < 10 && s[i] != 0xff
  {
    if forall i :: 0 <= i < 10 ==> s[i] == 0xff {
      assert s[0..10] == INCOMPLETE;
    } else {
      var i :| 0 <= i < 10 && s[i] != 0xff;
      assert s[0..10][i] != INCOMPLETE[i];
    }
  }

  /** The one incomplete versionstamp of an element is where its offset says: ten bytes 0xff after the code 0x33. */
  lemma StampsAreAtOffsets(e: Element, depth: nat, tr: bytes)
    requires Packable(e) && CountIncomplete(e) == 1 && |tr| == 10
    ensures var b, p := Encode(e, depth), StampPosition(e, depth);
            && OffsetOf(e, depth) == OneIncomplete(p)
            && 1 <= p <= |b| - 12 && b[p - 1] == 0x33 && (forall i :: p <= i < p + 10 ==> b[i] == 0xff)
            && Encode(Completed(e, tr), depth) == b[..p] + tr + b[p + 10..]
  {
    hide Encode, StampPosition, Completed, CountIncomplete;
    StampingCompletes(e, depth, tr);
    var b, p := Encode(e, depth), StampPosition(e, depth);
    forall i | p <= i < p + 10 ensures b[i] == 0xff {
      assert b[p..p + 10][i - p] == 0xff;
    }
  }
}
