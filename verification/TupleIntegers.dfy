/**
 The integer encodings: every signed and unsigned machine width, and integers of any size, write
 `EncodeInt`, and each reads back exactly the integers of its own range.
 */
module TupleIntegers {
  import opened ByteStrings
  import opened Digits
  import opened Sequences
  import opened TupleCodes
  import opened VersionstampOffsets
  import opened Wrappers

  /** Integers of at most this many bytes have their length in the type code. */
  const MAX_SZ: nat := 8

  /** Sizes in bytes of a machine integer: those that can be packed are 2, 4, 8 and 16. */
  predicate Width(sz: nat) {
    0 < sz <= 16
  }

  function Abs(v: int): nat {
    if v < 0 then -v else v
  }

  predicate FitsUnsigned(v: int, sz: nat) {
    0 <= v < Pow256(sz)
  }

  predicate FitsSigned(v: int, sz: nat)
    requires sz > 0
  {
    -128 * Pow256(sz - 1) <= v < 128 * Pow256(sz - 1)
  }

  /** The length byte bounds the integers that have an encoding. */
  predicate PackableInt(v: int) {
    ByteLen(Abs(v)) <= 255
  }

  /**
   The encoding of the design document: the minimal number `n` of base-256 digits of the magnitude, in the type code
   up to eight and in a byte of its own after, then the digits, of `256^n - 1 - |v|` when `v` is negative.
   */
  function EncodeInt(v: int): bytes
    requires PackableInt(v)
  {
    IntHead(v) + IntDigits(v)
  }

  function IntHead(v: int): bytes
    requires PackableInt(v)
  {
    Head(ByteLen(Abs(v)), v < 0)
  }

  /** The type code of `n` digits, with a length byte when `n` does not fit in the code. */
  function Head(n: nat, negative: bool): bytes
    requires n <= 255
  {
    if negative then
      if n <= MAX_SZ then [INTZERO - n] else [NEGINTSTART, 255 - n]
    else
      if n <= MAX_SZ then [INTZERO + n] else [POSINTEND, n]
  }

  function IntDigits(v: int): (b: bytes)
    ensures |b| == ByteLen(Abs(v))
  {
    var n := ByteLen(Abs(v));
    ByteLenBound(Abs(v), n);
    BigEndian(if v >= 0 then v else Pow256(n) - 1 + v, n)
  }

  // ---------- packing ----------

  lemma FitsIsPackable(v: int, sz: nat)
    requires Width(sz)
    requires FitsSigned(v, sz) || FitsUnsigned(v, sz)
    ensures ByteLen(Abs(v)) <= sz && PackableInt(v)
  {
    ByteLenBound(Abs(v), sz);
  }

  /** Writes the type code and length of an integer of `n` digits and a type of `sz` bytes. */
  method WriteHead(w: Buffer, n: nat, negative: bool, sz: nat) returns (offset: VersionstampOffset)
    requires n <= sz && n <= 255
    modifies w
    ensures w.data == old(w.data) + Head(n, negative)
    ensures offset == NoStamp(n + |Head(n, negative)|)
  {
    offset := NoStamp(n + 1);
    if sz <= MAX_SZ || n <= MAX_SZ {
      w.WriteAll([if negative then INTZERO - n else INTZERO + n]);
    } else {
      w.WriteAll(if negative then [NEGINTSTART, 255 - n] else [POSINTEND, n]);
      offset := offset.AddSize(1);
    }
  }

  /** An unsigned integer of `sz` bytes: the digits are the last ones of its fixed-width form. */
  method PackUnsigned(w: Buffer, u: nat, sz: nat) returns (offset: VersionstampOffset)
    requires Width(sz) && FitsUnsigned(u, sz)
    modifies w
    ensures PackableInt(u)
    ensures w.data == old(w.data) + EncodeInt(u)
    ensures offset == NoStamp(|EncodeInt(u)|)
  {
    FitsIsPackable(u, sz);
    var n := ByteLen(u);
    offset := WriteHead(w, n, false, sz);
    BigEndianDropsHigh(u, sz, n);
    w.WriteAll(BigEndian(u, sz)[sz - n..]);
    assert w.data == old(w.data) + (IntHead(u) + IntDigits(u));
  }

  /** A signed integer of `sz` bytes; `wrapping_abs` and `wrapping_sub` are spelled out. */
  method PackSigned(w: Buffer, i: int, sz: nat) returns (offset: VersionstampOffset)
    requires Width(sz) && FitsSigned(i, sz)
    modifies w
    ensures PackableInt(i)
    ensures w.data == old(w.data) + EncodeInt(i)
    ensures offset == NoStamp(|EncodeInt(i)|)
  {
    FitsIsPackable(i, sz);
    var u := Abs(i);  // the magnitude of the least integer fits the unsigned type
    var n := ByteLen(u);
    offset := WriteHead(w, n, i < 0, sz);
    SignedDigits(i, sz, n);
    w.WriteAll(FixedDigits(i, sz)[sz - n..]);
    assert w.data == old(w.data) + (IntHead(i) + IntDigits(i));
  }

  /** The big-endian bytes of a non-negative integer, or of the wrapping predecessor of a negative one. */
  function FixedDigits(i: int, sz: nat): (b: bytes)
    ensures |b| == sz
  {
    if i >= 0 then BigEndian(i, sz) else BigEndian((i - 1) % Pow256(sz), sz)
  }

  lemma SignedDigits(i: int, sz: nat, n: nat)
    requires n == ByteLen(Abs(i)) <= sz
    ensures FixedDigits(i, sz)[sz - n..] == IntDigits(i)
  {
    if i >= 0 {
      BigEndianDropsHigh(i, sz, n);
    } else {
      ByteLenBound(Abs(i), n);
      WrappedDigits(i, sz, n);
    }
  }

  /** Two's complement of `i - 1` and ones' complement of `-i` agree on the low digits. */
  lemma WrappedDigits(i: int, sz: nat, n: nat)
    requires n <= sz && 0 - Pow256(n) < i < 0
    ensures BigEndian((i - 1) % Pow256(sz), sz)[sz - n..] == BigEndian(Pow256(n) - 1 + i, n)
  {
    var p, k := Pow256(n), Pow256(sz - n) - 1;
    Pow256Sum(sz - n, n);
    assert Pow256(sz) == k * p + p;
    assert k * p >= 0;
    ModuloWraps(i - 1, Pow256(sz));
    BigEndianDropsHigh(Pow256(sz) + i - 1, sz, n);
    BigEndianModulo(p - 1 + i, k, n);
  }

  /** An integer of any size: its minimal digits, inverted when negative; over 255 digits is an error. */
  method PackBigInt(w: Buffer, v: int) returns (r: Result<VersionstampOffset, IoError>)
    modifies w
    ensures r.Ok? <==> PackableInt(v)
    ensures r.Ok? ==> w.data == old(w.data) + EncodeInt(v) && r.value == NoStamp(|EncodeInt(v)|)
    ensures r.Err? ==> w.data == old(w.data)
  {
    if v == 0 {
      w.WriteAll([INTZERO]);
      return Ok(NoStamp(1));
    }
    var n := ByteLen(Abs(v));
    var digits := BigEndian(Abs(v), n);
    if n > 255 {
      return Err(InvalidInput);
    }
    var offset := WriteHead(w, n, v < 0, n);
    ByteLenBound(Abs(v), n);
    if v < 0 {
      InvertedDigits(Abs(v), n);
      digits := Inverted(digits);
    }
    w.WriteAll(digits);
    assert w.data == old(w.data) + (IntHead(v) + IntDigits(v));
    return Ok(offset);
  }

  lemma InvertedDigits(u: nat, n: nat)
    requires u < Pow256(n)
    ensures Inverted(BigEndian(u, n)) == BigEndian(Pow256(n) - 1 - u, n)
  {
    ValueOfInverted(BigEndian(u, n));
    ValueOfBigEndian(u, n);
    BigEndianOfValue(Inverted(BigEndian(u, n)));
  }

  // ---------- unpacking ----------

  function UnpackUx(input: bytes, n: nat, sz: nat): Parsed<nat>
    requires n <= sz
  {
    var (rest, b) :- ParseBytes(input, n);
    Ok((rest, Value(Padded(0, sz - n, b))))
  }

  function UnpackPx(input: bytes, n: nat, sz: nat): Parsed<int>
    requires n <= sz && sz > 0
  {
    var (rest, b) :- ParseBytes(input, n);
    var x := AsSigned(Value(Padded(0, sz - n, b)), sz);
    if x < 0 then Err(UnsupportedIntLength) else Ok((rest, x))
  }

  function UnpackNx(input: bytes, n: nat, sz: nat): Parsed<int>
    requires n <= sz && sz > 0
  {
    var (rest, b) :- ParseBytes(input, n);
    var x := AsSigned((Value(Padded(255, sz - n, b)) + 1) % Pow256(sz), sz);
    if x > 0 then Err(UnsupportedIntLength) else Ok((rest, x))
  }

  function Min(a: nat, b: nat): nat {
    if a < b then a else b
  }

  function UnpackUnsigned(input: bytes, sz: nat): Parsed<nat>
    requires Width(sz)
  {
    var maxSz := Min(sz, MAX_SZ);
    var (rest, found) :- ParseByte(input);
    if INTZERO <= found <= INTZERO + maxSz then
      UnpackUx(rest, found - INTZERO, sz)
    else if found == POSINTEND then
      var (rest, n) :- ParseByte(rest);
      if n > sz then Err(UnsupportedIntLength) else UnpackUx(rest, n, sz)
    else
      Err(BadCode(found, None))
  }

  function UnpackSigned(input: bytes, sz: nat): Parsed<int>
    requires Width(sz)
  {
    var maxSz := Min(sz, MAX_SZ);
    var (rest, found) :- ParseByte(input);
    if INTZERO <= found <= INTZERO + maxSz then
      UnpackPx(rest, found - INTZERO, sz)
    else if INTZERO - maxSz <= found < INTZERO then
      UnpackNx(rest, INTZERO - found, sz)
    else if found == NEGINTSTART then
      var (rest, raw) :- ParseByte(rest);
      var n := 255 - raw;
      if n > sz then Err(UnsupportedIntLength) else UnpackNx(rest, n, sz)
    else if found == POSINTEND then
      var (rest, n) :- ParseByte(rest);
      if n > sz then Err(UnsupportedIntLength) else UnpackPx(rest, n, sz)
    else
      Err(BadCode(found, None))
  }

  function UnpackDigits(input: bytes, n: nat, negative: bool): Parsed<int> {
    var (rest, b) :- ParseBytes(input, n);
    Ok((rest, if negative then 0 - Value(Inverted(b)) else Value(b)))
  }

  function UnpackBigInt(input: bytes): Parsed<int> {
    var (rest, found) :- ParseByte(input);
    if INTZERO <= found <= INTZERO + MAX_SZ then
      UnpackDigits(rest, found - INTZERO, false)
    else if INTZERO - MAX_SZ <= found < INTZERO then
      UnpackDigits(rest, INTZERO - found, true)
    else if found == NEGINTSTART then
      var (rest, raw) :- ParseByte(rest);
      UnpackDigits(rest, 255 - raw, true)
    else if found == POSINTEND then
      var (rest, n) :- ParseByte(rest);
      UnpackDigits(rest, n, false)
    else
      Err(BadCode(found, None))
  }

  // ---------- each type reads back its own range ----------

  /** How every reader sees an encoding: the code, the length byte of a long one, the digits and the rest. */
  lemma EncodeIntShape(v: int, s: bytes)
    requires PackableInt(v)
    ensures var n := ByteLen(Abs(v)); var e := EncodeInt(v) + s;
            && (n <= MAX_SZ ==> |e| == 1 + n + |s| && e[1..] == IntDigits(v) + s
                                && e[0] == if v >= 0 then INTZERO + n else INTZERO - n)
            && (n > MAX_SZ ==> |e| == 2 + n + |s| && e[1..][1..] == IntDigits(v) + s
                               && e[0] == (if v >= 0 then POSINTEND else NEGINTSTART)
                               && e[1] == if v >= 0 then n else 255 - n)
    ensures var n := ByteLen(Abs(v));
            ParseBytes(IntDigits(v) + s, n) == Ok((s, IntDigits(v)))
  {
    hide BigEndian, ByteLen, IntDigits;
    var e, h := EncodeInt(v) + s, IntHead(v);
    assert e == h + (IntDigits(v) + s);
    assert e[|h|..] == IntDigits(v) + s;
    assert |h| == 2 ==> e[1..][1..] == e[2..];
  }

  lemma IntDigitsValue(v: int)
    ensures v >= 0 ==> Value(IntDigits(v)) == v
    ensures v < 0 ==> Value(IntDigits(v)) == Pow256(ByteLen(-v)) - 1 + v
    ensures v < 0 ==> ByteLen(-v) > 0
  {
    var n := ByteLen(Abs(v));
    ByteLenBound(Abs(v), n);
    ValueOfBigEndian(if v >= 0 then v else Pow256(n) - 1 + v, n);
  }

  lemma UnpackBigIntInverts(v: int, s: bytes)
    requires PackableInt(v)
    ensures UnpackBigInt(EncodeInt(v) + s) == Ok((s, v))
  {
    hide BigEndian, Value, ByteLen, IntDigits, Inverted, Pow256;
    EncodeIntShape(v, s);
    IntDigitsValue(v);
    ValueOfInverted(IntDigits(v));
    var n, e := ByteLen(Abs(v)), EncodeInt(v) + s;
    var body := if n <= MAX_SZ then e[1..] else e[1..][1..];
    assert UnpackDigits(body, n, v < 0) == Ok((s, v));
    if n <= MAX_SZ {
      assert UnpackBigInt(e) == UnpackDigits(body, n, v < 0);
    } else {
      assert UnpackBigInt(e) == UnpackDigits(body, n, v < 0);
    }
  }

  /** An unsigned type reads `v` back when `v` is in its range, and errs otherwise. */
  lemma UnpackUnsignedInverts(v: int, sz: nat, s: bytes)
    requires Width(sz) && PackableInt(v)
    ensures FitsUnsigned(v, sz) ==> UnpackUnsigned(EncodeInt(v) + s, sz) == Ok((s, v))
    ensures !FitsUnsigned(v, sz) ==> UnpackUnsigned(EncodeInt(v) + s, sz).Err?
  {
    hide BigEndian, Value, Padded, ByteLen, IntDigits, Pow256;
    EncodeIntShape(v, s);
    IntDigitsValue(v);
    ByteLenBound(Abs(v), sz);
    var n := ByteLen(Abs(v));
    if n <= sz {
      ValuePadded(0, sz - n, IntDigits(v));
    }
  }

  /** A signed type reads `v` back when `v` is in its range, and errs otherwise. */
  lemma UnpackSignedInverts(v: int, sz: nat, s: bytes)
    requires Width(sz) && PackableInt(v)
    ensures FitsSigned(v, sz) ==> UnpackSigned(EncodeInt(v) + s, sz) == Ok((s, v))
    ensures !FitsSigned(v, sz) ==> UnpackSigned(EncodeInt(v) + s, sz).Err?
    ensures !FitsSigned(v, sz) && sz == 8 && ByteLen(Abs(v)) <= 8
            ==> UnpackSigned(EncodeInt(v) + s, sz) == Err(UnsupportedIntLength)
  {
    hide BigEndian, Value, Padded, IntDigits, UnpackPx, UnpackNx, EncodeInt;
    EncodeIntShape(v, s);
    ByteLenBound(Abs(v), sz);
    var n, e := ByteLen(Abs(v)), EncodeInt(v) + s;
    var body := if n <= MAX_SZ then e[1..] else e[1..][1..];
    if n <= sz {
      UnpackSignedBody(v, sz, s, body);
      if n <= MAX_SZ {
        assert UnpackSigned(e, sz) == if v >= 0 then UnpackPx(body, n, sz) else UnpackNx(body, n, sz);
      } else {
        assert UnpackSigned(e, sz) == if v >= 0 then UnpackPx(body, n, sz) else UnpackNx(body, n, sz);
      }
    }
  }

  lemma UnpackSignedBody(v: int, sz: nat, s: bytes, body: bytes)
    requires Width(sz) && ByteLen(Abs(v)) <= sz && body == IntDigits(v) + s
    ensures (if v >= 0 then UnpackPx(body, ByteLen(Abs(v)), sz) else UnpackNx(body, ByteLen(Abs(v)), sz))
         == if FitsSigned(v, sz) then Ok((s, v)) else Err(UnsupportedIntLength)
  {
    hide BigEndian, Value, Padded, ByteLen, IntDigits;
    var n := ByteLen(Abs(v));
    assert ParseBytes(body, n) == Ok((s, IntDigits(v)));
    SignedPadding(v, sz, n);
  }

  /** The fixed-width pattern the digits stand for: `v` when it fits, else a number of the other sign. */
  lemma SignedPadding(v: int, sz: nat, n: nat)
    requires Width(sz) && n == ByteLen(Abs(v)) <= sz
    ensures Abs(v) < Pow256(sz)
    ensures v >= 0 ==> Value(Padded(0, sz - n, IntDigits(v))) == v
    ensures v < 0 ==> (Value(Padded(255, sz - n, IntDigits(v))) + 1) % Pow256(sz) == v + Pow256(sz)
  {
    IntDigitsValue(v);
    ByteLenBound(Abs(v), sz);
    ValuePadded(if v >= 0 then 0 else 255, sz - n, IntDigits(v));
    if v < 0 {
      ModuloWraps(v, Pow256(sz));
      assert Value(Padded(255, sz - n, IntDigits(v))) + 1 == Pow256(sz) + v;
    }
  }

  // ---------- order ----------

  /** Longer digit strings are larger numbers. */
  lemma {:induction false} ByteLenMonotone(a: nat, b: nat)
    requires a <= b
    ensures ByteLen(a) <= ByteLen(b)
  {
    if a > 0 {
      ByteLenMonotone(a / 256, b / 256);
    }
  }

  /** Encodings compare as the integers they encode, whatever the signs and lengths, and whatever follows. */
  lemma EncodeIntOrder(a: int, b: int, s: bytes, t: bytes)
    requires PackableInt(a) && PackableInt(b)
    ensures CmpBytes(EncodeInt(a) + s, EncodeInt(b) + t) == CmpInt(a, b).Then(CmpBytes(s, t))
  {
    hide BigEndian, ByteLen, IntDigits;
    var n, m := ByteLen(Abs(a)), ByteLen(Abs(b));
    EncodeIntShape(a, s);
    EncodeIntShape(b, t);
    if n == m && (a < 0 <==> b < 0) {
      ByteLenBound(Abs(a), n);
      ByteLenBound(Abs(b), n);
      IntDigitsOrder(a, b);
      CmpSameLength(EncodeInt(a), EncodeInt(b), s, t);
      CmpPrepend(IntHead(a), IntDigits(a), IntDigits(b));
    } else {
      hide IntHead, Head, CmpBytes;
      IntHeadOrder(a, b, n, m);
      var ra, rb := IntDigits(a) + s, IntDigits(b) + t;
      Assoc(IntHead(a), IntDigits(a), s);
      Assoc(IntHead(b), IntDigits(b), t);
      HeadsDecide(IntHead(a), IntHead(b), ra, rb);
    }
  }

  lemma HeadsDecide(h: bytes, k: bytes, s: bytes, t: bytes)
    requires h != [] && k != []
    requires h[0] != k[0] || (|h| == |k| == 2 && h[1] != k[1])
    ensures CmpBytes(h + s, k + t) == if h[0] != k[0] then CmpInt(h[0], k[0]) else CmpInt(h[1], k[1])
  {
    TailOfConcat(h, s);
    TailOfConcat(k, t);
  }

  lemma IntDigitsOrder(a: int, b: int)
    requires ByteLen(Abs(a)) == ByteLen(Abs(b)) && (a < 0 <==> b < 0)
    ensures CmpBytes(IntDigits(a), IntDigits(b)) == CmpInt(a, b)
  {
    hide BigEndian, CmpBytes, ByteLen;
    var n := ByteLen(Abs(a));
    ByteLenBound(Abs(a), n);
    ByteLenBound(Abs(b), n);
    if a < 0 {
      BigEndianOrder(Pow256(n) - 1 + a, Pow256(n) - 1 + b, n);
    } else {
      BigEndianOrder(a, b, n);
    }
  }

  /** Signs and lengths are decided by the first byte, or the second of two long encodings. */
  lemma IntHeadOrder(a: int, b: int, n: nat, m: nat)
    requires PackableInt(a) && PackableInt(b)
    requires n == ByteLen(Abs(a)) && m == ByteLen(Abs(b))
    requires n != m || (a < 0) != (b < 0)
    ensures a != b
    ensures var h, k := IntHead(a), IntHead(b);
            if h[0] != k[0] then (h[0] < k[0] <==> a < b)
            else |h| == |k| == 2 && h[1] != k[1] && (h[1] < k[1] <==> a < b)
  {
    if Abs(a) <= Abs(b) { ByteLenMonotone(Abs(a), Abs(b)); } else { ByteLenMonotone(Abs(b), Abs(a)); }
  }
}
