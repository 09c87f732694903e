/** What packing an element writes, as a function of the element and its nesting depth. */
module TupleEncoding {
  import opened ByteStrings
  import opened Digits
  import opened Sequences
  import opened TupleCodes
  import opened TupleElement
  import opened TupleIntegers
  import opened VersionstampOffsets

  /** The data that has an encoding: lengths fit in `u32`, and integers in 255 bytes. */
  predicate Packable(e: Element) {
    match e
    case Bytes(b) => |b| < 0x1_0000_0000
    case String(s) => |s| < 0x1_0000_0000
    case BigInt(n) => PackableInt(n)
    case Tuple(v) => forall i :: 0 <= i < |v| ==> Packable(v[i])
    case _ => true
  }

  predicate AllPackable(es: seq<Element>) {
    forall i :: 0 <= i < |es| ==> Packable(es[i])
  }

  /** Every zero byte is followed by an escape, so that a bare one can end the string. */
  function Escape(v: bytes): bytes {
    if v == [] then [] else EscapeByte(v[0]) + Escape(v[1..])
  }

  function EscapeByte(b: byte): bytes {
    if b == NIL then [NIL, ESCAPE] else [b]
  }

  function Terminated(v: bytes): bytes {
    Escape(v) + [NIL]
  }

  function Encode(e: Element, depth: nat): (b: bytes)
    requires Packable(e)
    ensures depth > 0 ==> b != []
    decreases e, 1
  {
    match e
    case Nil => if depth > 1 then [NIL, ESCAPE] else [NIL]
    case Bytes(v) => [BYTES] + Terminated(v)
    case String(s) => [STRING] + Terminated(s)
    case Tuple(v) =>
      if depth > 0 then [NESTED] + (EncodeAll(v, depth + 1) + [NIL]) else EncodeAll(v, 1)
    case Int(i) => I64IsPackable(i); EncodeInt(i)
    case BigInt(n) => EncodeInt(n)
    case Float(bits) => [FLOAT] + Float32Bytes(bits)
    case Double(bits) => [DOUBLE] + Float64Bytes(bits)
    case Bool(b) => [if b then TRUE else FALSE]
    case Uuid(u) => [UUID] + u
    case Versionstamp(s) => [VERSIONSTAMP] + s
  }

  function EncodeAll(es: seq<Element>, depth: nat): bytes
    requires AllPackable(es)
    decreases es, 0
  {
    if es == [] then [] else Encode(es[0], depth) + EncodeAll(es[1..], depth)
  }

  lemma I64IsPackable(i: i64)
    ensures FitsSigned(i, 8) && ByteLen(Abs(i)) <= 8 && PackableInt(i)
  {
    PowersOfWidths();
    FitsIsPackable(i, 8);
  }

  lemma {:induction false} EncodeAllConcat(a: seq<Element>, b: seq<Element>, depth: nat)
    requires AllPackable(a) && AllPackable(b)
    ensures AllPackable(a + b)
    ensures EncodeAll(a + b, depth) == EncodeAll(a, depth) + EncodeAll(b, depth)
  {
    if a == [] {
      Empty(b);
      Empty(EncodeAll(b, depth));
    } else {
      TailOfConcat(a, b);
      assert forall i :: 0 <= i < |a[1..]| ==> Packable(a[1..][i]) by {
        assert forall i :: 0 <= i < |a[1..]| ==> a[1..][i] == a[i + 1];
      }
      EncodeAllConcat(a[1..], b, depth);
      Assoc(Encode(a[0], depth), EncodeAll(a[1..], depth), EncodeAll(b, depth));
    }
  }

  lemma EncodeAllOfOne(e: Element, depth: nat)
    requires Packable(e)
    ensures EncodeAll([e], depth) == Encode(e, depth)
  {
    assert [e][1..] == [];
    Empty(Encode(e, depth));
  }

  /** At the root an element is encoded as the sequence of its values. */
  lemma EncodeRoot(e: Element)
    requires Packable(e)
    ensures AllPackable(CmpValues(e)) && Encode(e, 0) == EncodeAll(CmpValues(e), 1)
  {
    if !e.Tuple? {
      EncodeAllOfOne(e, 1);
    }
  }

  // ---------- the incomplete versionstamp ----------

  /** The position, in the encoding, of the ten bytes of the one incomplete versionstamp. */
  function StampPosition(e: Element, depth: nat): nat
    requires Packable(e) && CountIncomplete(e) == 1
    decreases e, 1
  {
    match e
    case Tuple(v) => (if depth > 0 then 1 else 0) + StampPositionIn(v, depth + 1)
    case _ => 1
  }

  function StampPositionIn(es: seq<Element>, depth: nat): nat
    requires AllPackable(es) && CountAllIncomplete(es) == 1
    decreases es, 0
  {
    if CountIncomplete(es[0]) == 1 then StampPosition(es[0], depth)
    else |Encode(es[0], depth)| + StampPositionIn(es[1..], depth)
  }

  function OffsetOf(e: Element, depth: nat): VersionstampOffset
    requires Packable(e)
  {
    var n := CountIncomplete(e);
    if n == 0 then NoStamp(|Encode(e, depth)|)
    else if n == 1 then OneIncomplete(StampPosition(e, depth))
    else MultipleIncomplete
  }

  function OffsetOfAll(es: seq<Element>, depth: nat): VersionstampOffset
    requires AllPackable(es)
  {
    var n := CountAllIncomplete(es);
    if n == 0 then NoStamp(|EncodeAll(es, depth)|)
    else if n == 1 then OneIncomplete(StampPositionIn(es, depth))
    else MultipleIncomplete
  }

  lemma AddAssociative(a: VersionstampOffset, b: VersionstampOffset, c: VersionstampOffset)
    ensures a.Add(b).Add(c) == a.Add(b.Add(c))
  {
  }

  lemma OffsetCons(es: seq<Element>, depth: nat)
    requires AllPackable(es) && es != []
    ensures OffsetOfAll(es, depth) == OffsetOf(es[0], depth).Add(OffsetOfAll(es[1..], depth))
  {
  }

  /** The offset algebra adds up the offsets of consecutive parts. */
  lemma {:induction false} OffsetConcat(a: seq<Element>, b: seq<Element>, depth: nat)
    requires AllPackable(a) && AllPackable(b)
    ensures AllPackable(a + b)
    ensures OffsetOfAll(a + b, depth) == OffsetOfAll(a, depth).Add(OffsetOfAll(b, depth))
  {
    if a == [] {
      Empty(b);
    } else {
      TailOfConcat(a, b);
      OffsetConcat(a[1..], b, depth);
      OffsetCons(a, depth);
      OffsetCons(a + b, depth);
      AddAssociative(OffsetOf(a[0], depth), OffsetOfAll(a[1..], depth), OffsetOfAll(b, depth));
    }
  }

  lemma OffsetOfOne(e: Element, depth: nat)
    requires Packable(e)
    ensures AllPackable([e]) && OffsetOfAll([e], depth) == OffsetOf(e, depth)
  {
    assert [e][1..] == [];
    OffsetCons([e], depth);
    assert OffsetOfAll([], depth) == NoStamp(0);
  }

  lemma OffsetRoot(e: Element)
    requires Packable(e)
    ensures AllPackable(CmpValues(e)) && OffsetOf(e, 0) == OffsetOfAll(CmpValues(e), 1)
  {
    EncodeRoot(e);
    if !e.Tuple? {
      OffsetOfOne(e, 1);
      assert OffsetOf(e, 0) == OffsetOf(e, 1);
    }
  }

  /** `e` once the database has written the transaction version `tr` in its incomplete versionstamps. */
  function Completed(e: Element, tr: bytes): (c: Element)
    requires |tr| == 10
    ensures Packable(e) ==> Packable(c)
    decreases e, 1
  {
    match e
    case Versionstamp(s) => if IsComplete(s) then e else Versionstamp(tr + s[10..])
    case Tuple(v) => Tuple(AllCompleted(v, tr))
    case _ => e
  }

  function AllCompleted(es: seq<Element>, tr: bytes): (c: seq<Element>)
    requires |tr| == 10
    ensures |c| == |es| && (AllPackable(es) ==> AllPackable(c))
    decreases es, 0
  {
    if es == [] then [] else [Completed(es[0], tr)] + AllCompleted(es[1..], tr)
  }

  /** `b` with `tr` written over its ten bytes at `p`. */
  function Stamped(b: bytes, p: nat, tr: bytes): bytes
    requires p + 10 <= |b|
  {
    b[..p] + tr + b[p + 10..]
  }

  /** The ten bytes at `p` are those of an incomplete versionstamp: its type code is just before. */
  predicate StampAt(b: bytes, p: nat) {
    1 <= p <= |b| - 12 && b[p - 1] == VERSIONSTAMP && b[p..p + 10] == INCOMPLETE
  }

  lemma {:induction false} CompletedWithoutStamp(e: Element, tr: bytes)
    requires |tr| == 10 && CountIncomplete(e) == 0
    ensures Completed(e, tr) == e
    decreases e, 1
  {
    if e.Tuple? {
      AllCompletedWithoutStamp(e.elements, tr);
    }
  }

  lemma {:induction false} AllCompletedWithoutStamp(es: seq<Element>, tr: bytes)
    requires |tr| == 10 && CountAllIncomplete(es) == 0
    ensures AllCompleted(es, tr) == es
    decreases es, 0
  {
    if es != [] {
      CompletedWithoutStamp(es[0], tr);
      AllCompletedWithoutStamp(es[1..], tr);
    }
  }

  /** Writing a transaction version at the offset yields the encoding of the completed element. */
  lemma {:induction false} StampingCompletes(e: Element, depth: nat, tr: bytes)
    requires Packable(e) && CountIncomplete(e) == 1 && |tr| == 10
    ensures StampAt(Encode(e, depth), StampPosition(e, depth))
    ensures Encode(Completed(e, tr), depth) == Stamped(Encode(e, depth), StampPosition(e, depth), tr)
    decreases e, 1
  {
    hide EncodeAll, AllCompleted, StampPositionIn, CountAllIncomplete;
    match e
    case Versionstamp(s) =>
      assert s[..10] == s[0..10];
    case Tuple(v) =>
      StampingCompletesIn(v, depth + 1, tr);
      if depth > 0 {
        StampedLeft(EncodeAll(v, depth + 1), [NIL], StampPositionIn(v, depth + 1), tr);
        StampedRight([NESTED], EncodeAll(v, depth + 1) + [NIL], StampPositionIn(v, depth + 1), tr);
      }
  }

  lemma {:induction false} StampingCompletesIn(es: seq<Element>, depth: nat, tr: bytes)
    requires AllPackable(es) && CountAllIncomplete(es) == 1 && |tr| == 10
    ensures StampAt(EncodeAll(es, depth), StampPositionIn(es, depth))
    ensures EncodeAll(AllCompleted(es, tr), depth) == Stamped(EncodeAll(es, depth), StampPositionIn(es, depth), tr)
    decreases es, 0
  {
    hide Encode, Completed, AllCompleted, StampPosition, CountIncomplete, Packable, Stamped, StampAt;
    var head, rest := Encode(es[0], depth), EncodeAll(es[1..], depth);
    CompletedCons(es, tr, depth);
    if CountIncomplete(es[0]) == 1 {
      AllCompletedWithoutStamp(es[1..], tr);
      StampingCompletes(es[0], depth, tr);
      StampedLeft(head, rest, StampPosition(es[0], depth), tr);
    } else {
      CompletedWithoutStamp(es[0], tr);
      StampingCompletesIn(es[1..], depth, tr);
      StampedRight(head, rest, StampPositionIn(es[1..], depth), tr);
    }
  }

  lemma CompletedCons(es: seq<Element>, tr: bytes, depth: nat)
    requires AllPackable(es) && es != [] && |tr| == 10
    ensures EncodeAll(AllCompleted(es, tr), depth)
         == Encode(Completed(es[0], tr), depth) + EncodeAll(AllCompleted(es[1..], tr), depth)
  {
    assert AllCompleted(es, tr)[1..] == AllCompleted(es[1..], tr);
  }

  lemma StampedLeft(b: bytes, c: bytes, p: nat, tr: bytes)
    requires StampAt(b, p) && |tr| == 10
    ensures StampAt(b + c, p) && Stamped(b + c, p, tr) == Stamped(b, p, tr) + c
  {
    assert (b + c)[p..p + 10] == b[p..p + 10];
    assert (b + c)[..p] == b[..p];
    assert (b + c)[p + 10..] == b[p + 10..] + c;
    Assoc(b[..p] + tr, b[p + 10..], c);
  }

  lemma StampedRight(a: bytes, b: bytes, p: nat, tr: bytes)
    requires StampAt(b, p) && |tr| == 10
    ensures StampAt(a + b, |a| + p) && Stamped(a + b, |a| + p, tr) == a + Stamped(b, p, tr)
  {
    assert (a + b)[|a| + p..|a| + p + 10] == b[p..p + 10];
    assert (a + b)[..|a| + p] == a + b[..p];
    assert (a + b)[|a| + p + 10..] == b[p + 10..];
    Assoc(a, b[..p], tr);
    Assoc(a, b[..p] + tr, b[p + 10..]);
  }
}
