/** Unpacking: recursive parsers, the loops that run them, and the round trip with packing at every depth. */
module TupleUnpacking {
  import opened ByteStrings
  import opened Digits
  import opened Sequences
  import opened TupleCodes
  import opened TupleElement
  import opened TupleEncoding
  import opened TupleIntegers
  import opened TupleOrder
  import opened Wrappers

  // ---------- parsers ----------

  /** A byte string up to the first zero byte that is not followed by an escape. */
  function Unescaped(input: bytes): (r: Parsed<bytes>)
    ensures r.Ok? ==> |r.value.0| < |input|
  {
    if input == [] then
      Err(MissingBytes)
    else if input[0] != NIL then
      var (rest, v) :- Unescaped(input[1..]);
      Ok((rest, [input[0]] + v))
    else if |input| > 1 && input[1] == ESCAPE then
      var (rest, v) :- Unescaped(input[2..]);
      Ok((rest, [NIL] + v))
    else
      Ok((input[1..], []))
  }

  predicate IsEndOfTuple(input: bytes, nested: bool) {
    if input == [] then true
    else if !nested then false
    else input[0] == NIL && !(|input| > 1 && input[1] == ESCAPE)
  }

  function DecodeInteger(input: bytes): (r: Parsed<Element>)
    ensures r.Ok? ==> |r.value.0| < |input|
  {
    match UnpackSigned(input, 8)
    case Ok(v) =>
      UnpackSignedRange(input, 8);
      PowersOfWidths();
      Ok((v.0, Int(v.1)))
    case Err(UnsupportedIntLength) =>
      var (rest, n) :- UnpackBigInt(input);
      Ok((rest, BigInt(n)))
    case Err(error) =>
      Err(error)
  }

  /** What a signed reader returns fits its type. */
  lemma UnpackSignedRange(input: bytes, sz: nat)
    requires Width(sz)
    ensures var r := UnpackSigned(input, sz); r.Ok? ==> FitsSigned(r.value.1, sz) && |r.value.0| < |input|
  {
    forall n: nat, b: bytes | n + |b| == sz
      ensures Value(Padded(0, n, b)) < Pow256(sz)
    {
      ValuePadded(0, n, b);
      ValueBound(Padded(0, n, b));
    }
  }

  function DecodeFloat(input: bytes, width: nat): (r: Parsed<nat>)
    requires width > 0
    ensures r.Ok? ==> |r.value.0| <= |input| && r.value.1 < Pow256(width)
  {
    var (rest, b) :- ParseBytes(input, width);
    Ok((rest, FloatBits(b)))
  }

  /** The element whose type code is first. At the root, a nested tuple there makes the whole input a tuple. */
  function DecodeFirst(input: bytes, depth: nat): (r: Parsed<Element>)
    requires input != []
    ensures r.Ok? ==> |r.value.0| < |input|
    decreases |input|, if depth == 0 then 3 else 0
  {
    var code, body := input[0], input[1..];
    if code == NIL then
      if depth > 1 then
        var rest :- ParseCode(body, ESCAPE);
        Ok((rest, Nil))
      else
        Ok((body, Nil))
    else if code == BYTES then
      var (rest, v) :- Unescaped(body);
      Ok((rest, Bytes(v)))
    else if code == STRING then
      var (rest, v) :- Unescaped(body);
      if ValidUtf8(v) then Ok((rest, String(v))) else Err(BadStringFormat)
    else if code == NESTED then
      if depth > 0 then
        var (rest, es) :- DecodeItems(body, depth + 1, true);
        var rest :- ParseCode(rest, NIL);
        Ok((rest, Tuple(es)))
      else
        var (rest, es) :- DecodeItems(input, 1, false);
        Ok((rest, Tuple(es)))
    else if INTZERO - 8 <= code <= INTZERO + 8 then
      DecodeInteger(input)
    else if code == NEGINTSTART || code == POSINTEND then
      var (rest, n) :- UnpackBigInt(input);
      Ok((rest, BigInt(n)))
    else if code == FLOAT then
      PowersOfWidths();
      var (rest, bits) :- DecodeFloat(body, 4);
      Ok((rest, Float(bits)))
    else if code == DOUBLE then
      PowersOfWidths();
      var (rest, bits) :- DecodeFloat(body, 8);
      Ok((rest, Double(bits)))
    else if code == FALSE || code == TRUE then
      Ok((body, Bool(code == TRUE)))
    else if code == VERSIONSTAMP then
      var (rest, s) :- ParseBytes(body, 12);
      Ok((rest, Versionstamp(s)))
    else if code == UUID then
      var (rest, u) :- ParseBytes(body, 16);
      Ok((rest, Uuid(u)))
    else
      Err(BadCode(code, None))
  }

  function Decode(input: bytes, depth: nat): (r: Parsed<Element>)
    ensures r.Ok? ==> |r.value.0| <= |input| && (depth > 0 ==> |r.value.0| < |input|)
    decreases |input|, if depth == 0 then 4 else 1
  {
    if input == [] then
      if depth == 0 then Ok((input, Tuple([]))) else Err(MissingBytes)
    else
      var (rest, v) :- DecodeFirst(input, depth);
      if depth == 0 && rest != [] then
        var (rest, vs) :- DecodeItems(rest, 1, false);
        Ok((rest, Tuple([v] + vs)))
      else
        Ok((rest, v))
  }

  function DecodeItems(input: bytes, depth: nat, nested: bool): (r: Parsed<seq<Element>>)
    requires depth > 0
    ensures r.Ok? ==> |r.value.0| <= |input| && IsEndOfTuple(r.value.0, nested)
    ensures r.Ok? && !IsEndOfTuple(input, nested) ==> |r.value.0| < |input|
    decreases |input|, 2
  {
    if IsEndOfTuple(input, nested) then
      Ok((input, []))
    else
      var (rest, v) :- Decode(input, depth);
      var (rest, vs) :- DecodeItems(rest, depth, nested);
      Ok((rest, [v] + vs))
  }

  function DecodeRoot(input: bytes): Result<Element, PackError> {
    var (rest, v) :- Decode(input, 0);
    if rest != [] then Err(TrailingBytes) else Ok(v)
  }

  // ---------- what unpacking gives back ----------

  /** The element that unpacking returns for a packed one: an integer has the smallest type that holds it. */
  function Normalize(e: Element): Element
    decreases e, 1
  {
    match e
    case BigInt(n) => if FitsI64(n) then Int(n) else e
    case Tuple(v) => Tuple(NormalizeAll(v))
    case _ => e
  }

  function NormalizeAll(es: seq<Element>): (r: seq<Element>)
    ensures |r| == |es|
    decreases es, 0
  {
    if es == [] then [] else [Normalize(es[0])] + NormalizeAll(es[1..])
  }

  /** Only a tuple of one element that is itself not a tuple is not told apart from that element. */
  function RootForm(values: seq<Element>): Element {
    if |values| == 1 && !values[0].Tuple? then values[0] else Tuple(values)
  }

  lemma {:induction false} UnescapedInverts(v: bytes, s: bytes)
    requires NoEscape(s)
    ensures Unescaped(Terminated(v) + s) == Ok((s, v))
  {
    TerminatedHead(v, s);
    var w := Terminated(v) + s;
    if v != [] {
      UnescapedInverts(v[1..], s);
      var h := EscapeByte(v[0]);
      DropPrefix(h, Terminated(v[1..]) + s);
      assert w[|h|..] == Terminated(v[1..]) + s;
      Uncons(v);
    }
  }

  lemma DecodeIntegerInverts(v: int, s: bytes)
    requires PackableInt(v) && ByteLen(Abs(v)) <= MAX_SZ
    ensures DecodeInteger(EncodeInt(v) + s) == Ok((s, if FitsI64(v) then Int(v) else BigInt(v)))
  {
    PowersOfWidths();
    UnpackSignedInverts(v, 8, s);
    UnpackBigIntInverts(v, s);
  }

  /** The elements whose encoding ends by itself, whatever follows it. */
  predicate SelfDelimiting(e: Element) {
    !e.Bytes? && !e.String? && !e.Tuple?
  }

  lemma DecodeIntElement(e: Element, depth: nat, s: bytes)
    requires Packable(e) && (e.Int? || e.BigInt?)
    ensures DecodeFirst(Encode(e, depth) + s, depth) == Ok((s, Normalize(e)))
  {
    hide BigEndian, ByteLen, IntDigits, UnpackBigInt, UnpackSigned;
    var v := if e.Int? then e.i else e.n;
    if e.Int? {
      I64IsPackable(v);
    }
    EncodeIntShape(v, s);
    if ByteLen(Abs(v)) <= MAX_SZ {
      DecodeIntegerInverts(v, s);
    } else {
      UnpackBigIntInverts(v, s);
      PowersOfWidths();
      ByteLenBound(Abs(v), 8);
    }
  }

  lemma FixedSizeShape(code: byte, b: bytes, s: bytes)
    ensures var w := [code] + b + s;
            w != [] && w[0] == code && w[1..] == b + s && ParseBytes(w[1..], |b|) == Ok((s, b))
  {
    Assoc([code], b, s);
    DropPrefix(b, s);
  }

  lemma DecodeFloatElement(e: Element, depth: nat, s: bytes)
    requires Packable(e) && (e.Float? || e.Double?)
    ensures Encode(e, depth) + s != [] && DecodeFirst(Encode(e, depth) + s, depth) == Ok((s, e))
  {
    hide BigEndian, Value, FloatBits, FloatBytes, DecodeInteger, UnpackBigInt, Unescaped, DecodeItems;
    PowersOfWidths();
    if e.Float? {
      FixedSizeShape(FLOAT, Float32Bytes(e.f32), s);
      FloatRoundTrip(e.f32, 4);
    } else {
      FixedSizeShape(DOUBLE, Float64Bytes(e.f64), s);
      FloatRoundTrip(e.f64, 8);
    }
  }

  /** A self-delimiting element reads back whatever follows its encoding. */
  lemma DecodeSelfDelimiting(e: Element, depth: nat, s: bytes)
    requires Packable(e) && SelfDelimiting(e)
    ensures Encode(e, depth) + s != [] && DecodeFirst(Encode(e, depth) + s, depth) == Ok((s, Normalize(e)))
  {
    hide BigEndian, Value, FloatBits, FloatBytes, DecodeInteger, UnpackBigInt, Unescaped, DecodeItems;
    match e
    case Nil =>
      if depth > 1 {
        FixedSizeShape(NIL, [ESCAPE], s);
      }
    case Int(_) => DecodeIntElement(e, depth, s);
    case BigInt(_) => DecodeIntElement(e, depth, s);
    case Float(_) => DecodeFloatElement(e, depth, s);
    case Double(_) => DecodeFloatElement(e, depth, s);
    case Bool(_) =>
    case Uuid(u) => FixedSizeShape(UUID, u, s);
    case Versionstamp(v) => FixedSizeShape(VERSIONSTAMP, v, s);
  }

  /** Below the root, unpacking consumes exactly one packed element. */
  lemma {:induction false} DecodeInverts(e: Element, depth: nat, s: bytes)
    requires Packable(e) && depth > 0 && NoEscape(s)
    ensures Decode(Encode(e, depth) + s, depth) == Ok((s, Normalize(e)))
    decreases e, 1
  {
    match e
    case Bytes(v) =>
      FixedSizeShape(BYTES, Terminated(v), s);
      UnescapedInverts(v, s);
    case String(v) =>
      FixedSizeShape(STRING, Terminated(v), s);
      UnescapedInverts(v, s);
    case Tuple(v) =>
      FixedSizeShape(NESTED, EncodeAll(v, depth + 1) + [NIL], s);
      NestedItemsInvert(v, depth + 1, s);
    case _ =>
      DecodeSelfDelimiting(e, depth, s);
  }

  lemma {:induction false} NestedItemsInvert(es: seq<Element>, depth: nat, s: bytes)
    requires AllPackable(es) && depth > 1 && NoEscape(s)
    ensures DecodeItems(EncodeAll(es, depth) + [NIL] + s, depth, true) == Ok(([NIL] + s, NormalizeAll(es)))
    decreases es, 0
  {
    NestedHead(es, depth, s);
    if es != [] {
      var rest := EncodeAll(es[1..], depth) + [NIL] + s;
      NestedHead(es[1..], depth, s);
      EncodeHead(es[0], depth);
      DecodeInverts(es[0], depth, rest);
      NestedItemsInvert(es[1..], depth, s);
    }
  }

  /** `vs` in front of the elements that `r` parsed. */
  function Prepend(vs: seq<Element>, r: Parsed<seq<Element>>): Parsed<seq<Element>> {
    var (rest, ws) :- r;
    Ok((rest, vs + ws))
  }

  /** Without an end marker, packed values are read back in front of whatever follows them. */
  lemma {:induction false} ItemsInvert(es: seq<Element>, s: bytes)
    requires AllPackable(es) && NoEscape(s)
    ensures DecodeItems(EncodeAll(es, 1) + s, 1, false) == Prepend(NormalizeAll(es), DecodeItems(s, 1, false))
  {
    if es == [] {
      Empty(s);
      PrependNothing(DecodeItems(s, 1, false));
    } else {
      var rest := EncodeAll(es[1..], 1) + s;
      ValuesHead(es[1..]);
      EncodeHead(es[0], 1);
      Assoc(Encode(es[0], 1), EncodeAll(es[1..], 1), s);
      DecodeInverts(es[0], 1, rest);
      ItemsInvert(es[1..], s);
      PrependTwice([Normalize(es[0])], NormalizeAll(es[1..]), DecodeItems(s, 1, false));
    }
  }

  lemma PrependNothing(r: Parsed<seq<Element>>)
    ensures Prepend([], r) == r
  {
    if r.Ok? {
      Empty(r.value.1);
    }
  }

  lemma PrependTwice(v: seq<Element>, w: seq<Element>, r: Parsed<seq<Element>>)
    ensures Prepend(v, Prepend(w, r)) == Prepend(v + w, r)
  {
    if r.Ok? {
      Assoc(v, w, r.value.1);
    }
  }

  /** A root element that is not empty is read as its values, the first of them at depth zero. */
  lemma DecodeRootOfValues(es: seq<Element>)
    requires AllPackable(es)
    ensures DecodeRoot(EncodeAll(es, 1)) == Ok(RootForm(NormalizeAll(es)))
  {
    if es != [] {
      var input, rest := EncodeAll(es, 1), EncodeAll(es[1..], 1);
      ValuesHead(es[1..]);
      EncodeHead(es[0], 1);
      Empty(input);
      Empty(rest);
      ItemsInvert(es, []);
      ItemsInvert(es[1..], []);
      PrependAll(NormalizeAll(es));
      PrependAll(NormalizeAll(es[1..]));
      if es[0].Tuple? {
        assert DecodeFirst(input, 0) == Ok(([], Tuple(NormalizeAll(es))));
      } else {
        FirstAtRoot(es[0], rest);
        assert rest == [] <==> es[1..] == [];
        assert Decode(input, 0) == Ok(([], RootForm(NormalizeAll(es))));
      }
    }
  }

  lemma PrependAll(vs: seq<Element>)
    ensures Prepend(vs, DecodeItems([], 1, false)) == Ok(([], vs))
  {
    Empty(vs);
  }

  /** Depth zero and depth one read alike what is not a nested tuple. */
  lemma FirstAtRoot(e: Element, s: bytes)
    requires Packable(e) && !e.Tuple? && NoEscape(s)
    ensures Encode(e, 1) + s != [] && DecodeFirst(Encode(e, 1) + s, 0) == Ok((s, Normalize(e)))
  {
    assert Encode(e, 1) == Encode(e, 0);
    if SelfDelimiting(e) {
      DecodeSelfDelimiting(e, 0, s);
    } else {
      DecodeInverts(e, 1, s);
      EncodeHead(e, 1);
    }
  }

  lemma {:induction false} EncodeNormalized(e: Element, depth: nat)
    requires Packable(e)
    ensures Packable(Normalize(e)) && Encode(Normalize(e), depth) == Encode(e, depth)
    decreases e, 1
  {
    if e.Tuple? {
      EncodeAllNormalized(e.elements, depth + 1);
    }
  }

  lemma {:induction false} EncodeAllNormalized(es: seq<Element>, depth: nat)
    requires AllPackable(es)
    ensures AllPackable(NormalizeAll(es)) && EncodeAll(NormalizeAll(es), depth) == EncodeAll(es, depth)
    decreases es, 0
  {
    if es != [] {
      EncodeNormalized(es[0], depth);
      EncodeAllNormalized(es[1..], depth);
      assert NormalizeAll(es)[1..] == NormalizeAll(es[1..]);
    }
  }

  /** Unpacking what was packed gives an equal element, and tells which. */
  lemma RoundTrip(e: Element)
    requires Packable(e)
    ensures var back := RootForm(NormalizeAll(CmpValues(e)));
            DecodeRoot(Encode(e, 0)) == Ok(back) && CmpAtRoot(back, e).Equal?
  {
    var values := CmpValues(e);
    EncodeRoot(e);
    DecodeRootOfValues(values);
    EncodeAllNormalized(values, 1);
    ValuesOrder(NormalizeAll(values), values);
    CmpEqualIff(EncodeAll(values, 1), EncodeAll(values, 1));
    assert CmpValues(RootForm(NormalizeAll(values))) == NormalizeAll(values);
  }

  // ---------- the loops ----------

  /** `v` in front of the byte string that `r` parsed. */
  function Resumed(v: bytes, r: Parsed<bytes>): Parsed<bytes> {
    var (rest, w) :- r;
    Ok((rest, v + w))
  }

  lemma ResumedTwice(v: bytes, w: bytes, r: Parsed<bytes>)
    ensures Resumed(v, Resumed(w, r)) == Resumed(v + w, r)
  {
    if r.Ok? {
      Assoc(v, w, r.value.1);
    }
  }

  /** The bytes up to a zero byte are copied. */
  lemma {:induction false} UnescapedSkips(s: bytes, n: nat)
    requires n <= |s| && NIL !in s[..n]
    ensures Unescaped(s) == Resumed(s[..n], Unescaped(s[n..]))
  {
    TakeEnds(s);
    if n == 0 {
      var r := Unescaped(s);
      if r.Ok? {
        Empty(r.value.1);
      }
    } else {
      assert s[..n][0] == s[0] && s[1..][..n - 1] == s[..n][1..] && s[1..][n - 1..] == s[n..];
      UnescapedSkips(s[1..], n - 1);
      ResumedTwice([s[0]], s[1..][..n - 1], Unescaped(s[n..]));
      Uncons(s[..n]);
    }
  }

  lemma UnescapedAtNil(input: bytes, collected: bytes, pos: nat, idx: nat)
    requires pos <= idx < |input| && NIL !in input[pos..idx] && input[idx] == NIL
    ensures var r := Resumed(collected, Unescaped(input[pos..]));
            if idx + 1 < |input| && input[idx + 1] == ESCAPE
            then r == Resumed(collected + input[pos..idx + 1], Unescaped(input[idx + 2..]))
            else r == Ok((input[idx + 1..], collected + input[pos..idx]))
  {
    var tail, clean := input[idx..], input[pos..idx];
    assert input[pos..][..idx - pos] == clean && input[pos..][idx - pos..] == tail;
    UnescapedSkips(input[pos..], idx - pos);
    ResumedTwice(collected, clean, Unescaped(tail));
    if idx + 1 < |input| && input[idx + 1] == ESCAPE {
      assert tail[2..] == input[idx + 2..];
      ResumedTwice(collected + clean, [NIL], Unescaped(tail[2..]));
      Assoc(collected, clean, [NIL]);
      SliceNext(input, pos, idx);
    } else {
      assert tail[1..] == input[idx + 1..];
      Empty(collected + clean);
    }
  }

  /** Scans for zero bytes: an escaped one is copied with what is before it, another one ends the string. */
  method ParseSlice(input: bytes) returns (r: Parsed<bytes>)
    ensures r == Unescaped(input)
  {
    var collected: bytes, pos := [], 0;
    UnescapedSkips(input, 0);
    TakeEnds(input);
    for idx := 0 to |input|
      invariant pos <= |input|
      invariant pos <= idx || (pos == idx + 1 && input[idx] == ESCAPE)
      invariant pos <= idx ==> NIL !in input[pos..idx]
      invariant Unescaped(input) == Resumed(collected, Unescaped(input[pos..]))
    {
      if input[idx] == NIL {
        var next := idx + 1;
        UnescapedAtNil(input, collected, pos, idx);
        if next < |input| && input[next] == ESCAPE {
          collected := collected + input[pos..next];
          pos := next + 1;
        } else {
          return Ok((input[next..], collected + input[pos..idx]));
        }
      } else if pos <= idx {
        SliceNext(input, pos, idx);
      }
    }
    UnescapedSkips(input[pos..], |input| - pos);
    return Err(MissingBytes);
  }

  method UnpackFirst(input: bytes, depth: nat) returns (r: Parsed<Element>)
    requires input != []
    ensures r == DecodeFirst(input, depth)
    decreases |input|, if depth == 0 then 5 else 2
  {
    var code := input[0];
    Uncons(input);
    if code == BYTES || code == STRING {
      var parsed := ParseSlice(input[1..]);
      if parsed.Err? {
        return Err(parsed.error);
      }
      var (rest, v) := parsed.value;
      if code == BYTES {
        return Ok((rest, Bytes(v)));
      }
      return if ValidUtf8(v) then Ok((rest, String(v))) else Err(BadStringFormat);
    } else if code == NESTED {
      r := UnpackVec(input, depth);
    } else if code == NIL {
      r := UnpackNil(input[1..], depth);
    } else if INTZERO - 8 <= code <= INTZERO + 8 {
      r := UnpackInteger(input);
    } else if code == NEGINTSTART || code == POSINTEND {
      var v :- UnpackBigInt(input);
      return Ok((v.0, BigInt(v.1)));
    } else {
      r := UnpackFixed(code, input[1..]);
    }
  }

  /** Inside a nested tuple, nil is two bytes. */
  method UnpackNil(body: bytes, depth: nat) returns (r: Parsed<Element>)
    ensures r == DecodeFirst([NIL] + body, depth)
  {
    assert ([NIL] + body)[1..] == body;
    if depth > 1 {
      var rest :- ParseCode(body, ESCAPE);
      return Ok((rest, Nil));
    }
    return Ok((body, Nil));
  }

  /** An integer of up to eight bytes, which may still be too large for an `i64`. */
  method UnpackInteger(input: bytes) returns (r: Parsed<Element>)
    ensures r == DecodeInteger(input)
  {
    var small := UnpackSigned(input, 8);
    if small.Ok? {
      UnpackSignedRange(input, 8);
      PowersOfWidths();
      return Ok((small.value.0, Int(small.value.1)));
    }
    if small.error == UnsupportedIntLength {
      var v :- UnpackBigInt(input);
      return Ok((v.0, BigInt(v.1)));
    }
    return Err(small.error);
  }

  /** The elements whose size their code gives, or an unknown code. */
  method UnpackFixed(code: byte, body: bytes) returns (r: Parsed<Element>)
    requires code != NIL && code != BYTES && code != STRING && code != NESTED
    requires !(INTZERO - 8 <= code <= INTZERO + 8) && code != NEGINTSTART && code != POSINTEND
    ensures forall depth :: r == DecodeFirst([code] + body, depth)
  {
    assert ([code] + body)[1..] == body;
    if code == FLOAT {
      PowersOfWidths();
      var v :- DecodeFloat(body, 4);
      return Ok((v.0, Float(v.1)));
    }
    if code == DOUBLE {
      PowersOfWidths();
      var v :- DecodeFloat(body, 8);
      return Ok((v.0, Double(v.1)));
    }
    if code == FALSE || code == TRUE {
      return Ok((body, Bool(code == TRUE)));
    }
    if code == VERSIONSTAMP {
      var v :- ParseBytes(body, 12);
      return Ok((v.0, Versionstamp(v.1)));
    }
    if code == UUID {
      var v :- ParseBytes(body, 16);
      return Ok((v.0, Uuid(v.1)));
    }
    return Err(BadCode(code, None));
  }

  /** The elements up to the end of the tuple, which at the root is the end of the input. */
  method UnpackVec(input: bytes, depth: nat) returns (r: Parsed<Element>)
    requires input != [] && input[0] == NESTED
    ensures r == DecodeFirst(input, depth)
    decreases |input|, if depth == 0 then 4 else 1
  {
    var nested := depth > 0;
    var rest := if nested then input[1..] else input;
    ghost var whole := DecodeItems(rest, depth + 1, nested);
    var vec := [];
    PrependNothing(whole);
    while !IsEndOfTuple(rest, nested)
      invariant |rest| <= |input| - if nested then 1 else 0
      invariant whole == Prepend(vec, DecodeItems(rest, depth + 1, nested))
      decreases |rest|
    {
      var element := Unpack(rest, depth + 1);
      if element.Err? {
        return Err(element.error);
      }
      PrependTwice(vec, [element.value.1], DecodeItems(element.value.0, depth + 1, nested));
      rest, vec := element.value.0, vec + [element.value.1];
    }
    Empty(vec);
    if nested {
      var end := ParseCode(rest, NIL);
      if end.Err? {
        return Err(end.error);
      }
      rest := end.value;
    }
    return Ok((rest, Tuple(vec)));
  }

  /** One element, or at the root a whole tuple. */
  method Unpack(input: bytes, depth: nat) returns (r: Parsed<Element>)
    ensures r == Decode(input, depth)
    decreases |input|, if depth == 0 then 6 else 3
  {
    if input == [] {
      return if depth == 0 then Ok((input, Tuple([]))) else Err(MissingBytes);
    }
    r := UnpackFirst(input, depth);
    if r.Ok? && depth == 0 && r.value.0 != [] {
      var rest, tuple := r.value.0, [r.value.1];
      ghost var whole := Prepend(tuple, DecodeItems(rest, 1, false));
      while rest != []
        invariant |rest| < |input|
        invariant whole == Prepend(tuple, DecodeItems(rest, 1, false))
        decreases |rest|
      {
        var element := Unpack(rest, depth + 1);
        if element.Err? {
          return element;
        }
        PrependTwice(tuple, [element.value.1], DecodeItems(element.value.0, 1, false));
        rest, tuple := element.value.0, tuple + [element.value.1];
      }
      Empty(tuple);
      r := Ok((rest, Tuple(tuple)));
    }
  }

  method UnpackRoot(input: bytes) returns (r: Result<Element, PackError>)
    ensures r == DecodeRoot(input)
  {
    var unpacked := Unpack(input, 0);
    if unpacked.Err? {
      return Err(unpacked.error);
    }
    return if unpacked.value.0 != [] then Err(TrailingBytes) else Ok(unpacked.value.1);
  }
}
