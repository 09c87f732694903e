/**
 Packing preserves order: packed keys compare, byte by byte, as the elements they encode. An encoding can be a byte
 prefix of another one, so the lemmas compare encodings together with what follows them.
 */
module TupleOrder {
  import opened ByteStrings
  import opened Sequences
  import opened TupleCodes
  import opened TupleElement
  import opened TupleEncoding
  import opened TupleIntegers

  /** What can follow an encoding without changing where it ends. */
  predicate NoEscape(s: bytes) {
    s == [] || s[0] != ESCAPE
  }

  /** The first byte of an encoding is the type code, or near that of zero for an integer. */
  lemma EncodeHead(e: Element, depth: nat)
    requires Packable(e) && depth > 0
    ensures Encode(e, depth) != []
    ensures !e.Int? && !e.BigInt? ==> Encode(e, depth)[0] == Code(e)
    ensures e.Int? || e.BigInt? ==> NEGINTSTART <= Encode(e, depth)[0] <= POSINTEND
    ensures Encode(e, depth)[0] == NIL <==> e.Nil?
    ensures NoEscape(Encode(e, depth))
  {
  }

  lemma {:induction false} EscapeOrder(a: bytes, b: bytes, s: bytes, t: bytes)
    requires NoEscape(s) && NoEscape(t)
    ensures CmpBytes(Terminated(a) + s, Terminated(b) + t) == CmpBytes(a, b).Then(CmpBytes(s, t))
  {
    TerminatedHead(a, s);
    TerminatedHead(b, t);
    if a != [] && b != [] && a[0] == b[0] {
      EscapeOrder(a[1..], b[1..], s, t);
      CmpPrepend(EscapeByte(a[0]), Terminated(a[1..]) + s, Terminated(b[1..]) + t);
    }
  }

  /** A terminated string starts with its first byte escaped, or with a zero byte that is not followed by an escape. */
  lemma TerminatedHead(a: bytes, s: bytes)
    requires NoEscape(s)
    ensures var w := Terminated(a) + s;
            && w != []
            && (a == [] ==> w[0] == NIL && w[1..] == s)
            && (a != [] ==> w[0] == a[0] && w == EscapeByte(a[0]) + (Terminated(a[1..]) + s))
            && (a != [] && a[0] == NIL ==> |w| > 1 && w[1] == ESCAPE)
  {
    if a != [] {
      Assoc(EscapeByte(a[0]), Escape(a[1..]), [NIL]);
      Assoc(EscapeByte(a[0]), Terminated(a[1..]), s);
    }
  }

  /** Encodings compare as their elements, whatever follows. */
  lemma {:induction false} EncodeOrder(a: Element, b: Element, depth: nat, s: bytes, t: bytes)
    requires Packable(a) && Packable(b) && depth > 0 && NoEscape(s) && NoEscape(t)
    ensures CmpBytes(Encode(a, depth) + s, Encode(b, depth) + t) == CmpElement(a, b).Then(CmpBytes(s, t))
    decreases a, 1
  {
    if Code(a) != Code(b) {
      CodeOrder(a, b, depth, s, t);
    } else {
      match a
      case Int(_) => IntegerOrder(a, b, depth, s, t);
      case BigInt(_) => IntegerOrder(a, b, depth, s, t);
      case Bytes(x) => TerminatedOrder([BYTES], x, b.bytes, s, t);
      case String(x) => TerminatedOrder([STRING], x, b.text, s, t);
      case Float(x) => SameLengthOrder([FLOAT], Float32Bytes(x), Float32Bytes(b.f32), s, t);
      case Double(x) => SameLengthOrder([DOUBLE], Float64Bytes(x), Float64Bytes(b.f64), s, t);
      case Uuid(x) => SameLengthOrder([UUID], x, b.uuid, s, t);
      case Versionstamp(x) => SameLengthOrder([VERSIONSTAMP], x, b.stamp, s, t);
      case Tuple(x) =>
        Assoc([NESTED], EncodeAll(x, depth + 1) + [NIL], s);
        Assoc([NESTED], EncodeAll(b.elements, depth + 1) + [NIL], t);
        CmpPrepend([NESTED], EncodeAll(x, depth + 1) + [NIL] + s, EncodeAll(b.elements, depth + 1) + [NIL] + t);
        NestedOrder(x, b.elements, depth + 1, s, t);
      case _ =>
        CmpPrepend(Encode(a, depth), s, t);
    }
  }

  lemma CodeOrder(a: Element, b: Element, depth: nat, s: bytes, t: bytes)
    requires Packable(a) && Packable(b) && depth > 0
    requires Code(a) != Code(b)
    ensures CmpBytes(Encode(a, depth) + s, Encode(b, depth) + t) == CmpInt(Code(a), Code(b))
  {
    EncodeHead(a, depth);
    EncodeHead(b, depth);
  }

  lemma TerminatedOrder(h: bytes, a: bytes, b: bytes, s: bytes, t: bytes)
    requires NoEscape(s) && NoEscape(t)
    ensures CmpBytes(h + Terminated(a) + s, h + Terminated(b) + t) == CmpBytes(a, b).Then(CmpBytes(s, t))
  {
    Assoc(h, Terminated(a), s);
    Assoc(h, Terminated(b), t);
    CmpPrepend(h, Terminated(a) + s, Terminated(b) + t);
    EscapeOrder(a, b, s, t);
  }

  lemma IntegerOrder(a: Element, b: Element, depth: nat, s: bytes, t: bytes)
    requires Packable(a) && Packable(b)
    requires (a.Int? || a.BigInt?) && (b.Int? || b.BigInt?)
    ensures CmpBytes(Encode(a, depth) + s, Encode(b, depth) + t) == CmpElement(a, b).Then(CmpBytes(s, t))
  {
    var x, y := if a.Int? then a.i else a.n, if b.Int? then b.i else b.n;
    if a.Int? { I64IsPackable(x); }
    if b.Int? { I64IsPackable(y); }
    EncodeIntOrder(x, y, s, t);
  }

  lemma SameLengthOrder(h: bytes, a: bytes, b: bytes, s: bytes, t: bytes)
    requires |a| == |b|
    ensures CmpBytes(h + a + s, h + b + t) == CmpBytes(a, b).Then(CmpBytes(s, t))
  {
    Assoc(h, a, s);
    Assoc(h, b, t);
    CmpPrepend(h, a + s, b + t);
    CmpSameLength(a, b, s, t);
  }

  /** Inside a tuple the end marker is before every element: a nil element is a zero byte with an escape. */
  lemma {:induction false} NestedOrder(a: seq<Element>, b: seq<Element>, depth: nat, s: bytes, t: bytes)
    requires AllPackable(a) && AllPackable(b) && depth > 1 && NoEscape(s) && NoEscape(t)
    ensures CmpBytes(EncodeAll(a, depth) + [NIL] + s, EncodeAll(b, depth) + [NIL] + t)
         == CmpElements(a, b).Then(CmpBytes(s, t))
    decreases a, 0
  {
    hide Encode, CmpElement, Packable;
    NestedHead(a, depth, s);
    NestedHead(b, depth, t);
    if a != [] && b != [] {
      var s', t' := EncodeAll(a[1..], depth) + [NIL] + s, EncodeAll(b[1..], depth) + [NIL] + t;
      NestedHead(a[1..], depth, s);
      NestedHead(b[1..], depth, t);
      EncodeOrder(a[0], b[0], depth, s', t');
      NestedOrder(a[1..], b[1..], depth, s, t);
    } else if a == [] && b == [] {
      CmpPrepend([NIL], s, t);
      Empty([NIL]);
    }
  }

  lemma NestedHead(a: seq<Element>, depth: nat, s: bytes)
    requires AllPackable(a) && depth > 1 && NoEscape(s)
    ensures var w := EncodeAll(a, depth) + [NIL] + s;
            && w != [] && NoEscape(w)
            && (a == [] ==> w == [NIL] + s)
            && (a != [] ==> w == Encode(a[0], depth) + (EncodeAll(a[1..], depth) + [NIL] + s))
            && (a != [] && w[0] == NIL ==> |w| > 1 && w[1] == ESCAPE)
  {
    if a != [] {
      EncodeHead(a[0], depth);
      Assoc(Encode(a[0], depth), EncodeAll(a[1..], depth), [NIL]);
      Assoc(Encode(a[0], depth), EncodeAll(a[1..], depth) + [NIL], s);
    } else {
      Empty([NIL]);
    }
  }

  /** Sequences of values compare without an end marker: a proper prefix has nothing left. */
  lemma {:induction false} ValuesOrder(a: seq<Element>, b: seq<Element>)
    requires AllPackable(a) && AllPackable(b)
    ensures CmpBytes(EncodeAll(a, 1), EncodeAll(b, 1)) == CmpElements(a, b)
  {
    if a != [] && b != [] {
      ValuesOrder(a[1..], b[1..]);
      ValuesHead(a[1..]);
      ValuesHead(b[1..]);
      EncodeOrder(a[0], b[0], 1, EncodeAll(a[1..], 1), EncodeAll(b[1..], 1));
    } else {
      ValuesHead(a);
      ValuesHead(b);
    }
  }

  lemma ValuesHead(a: seq<Element>)
    requires AllPackable(a)
    ensures NoEscape(EncodeAll(a, 1))
    ensures a != [] ==> EncodeAll(a, 1) != []
  {
    if a != [] {
      EncodeHead(a[0], 1);
    }
  }

  /** The order of elements is the byte order of their packed form, and equal elements are those packed alike. */
  lemma PackingPreservesOrder(a: Element, b: Element)
    requires Packable(a) && Packable(b)
    ensures CmpAtRoot(a, b) == CmpBytes(Encode(a, 0), Encode(b, 0))
    ensures CmpAtRoot(a, b).Equal? <==> Encode(a, 0) == Encode(b, 0)
  {
    EncodeRoot(a);
    EncodeRoot(b);
    ValuesOrder(CmpValues(a), CmpValues(b));
    CmpEqualIff(Encode(a, 0), Encode(b, 0));
  }
}
