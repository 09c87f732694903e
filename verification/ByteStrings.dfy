/** Byte strings and the lexicographic order FoundationDB sorts its keys by. */
module ByteStrings {
  import opened Sequences

  type byte = x: int | 0 <= x < 256
  type bytes = seq<byte>

  datatype Ordering = Less | Equal | Greater {

    /** The ordering of a compound value whose first parts compare as `this`. */
    function Then(next: Ordering): Ordering {
      if Equal? then next else this
    }

    function Reverse(): Ordering {
      match this
      case Less => Greater
      case Equal => Equal
      case Greater => Less
    }
  }

  function CmpInt(a: int, b: int): Ordering {
    if a < b then Less else if a == b then Equal else Greater
  }

  function CmpBytes(a: bytes, b: bytes): Ordering {
    if a == [] then
      if b == [] then Equal else Less
    else if b == [] then
      Greater
    else
      CmpInt(a[0], b[0]).Then(CmpBytes(a[1..], b[1..]))
  }

  predicate Lt(a: bytes, b: bytes) {
    CmpBytes(a, b).Less?
  }

  predicate Le(a: bytes, b: bytes) {
    !CmpBytes(a, b).Greater?
  }

  lemma {:induction false} CmpEqualIff(a: bytes, b: bytes)
    ensures CmpBytes(a, b).Equal? <==> a == b
  {
    if a != [] && b != [] {
      CmpEqualIff(a[1..], b[1..]);
      Uncons(a);
      Uncons(b);
    }
  }

  lemma {:induction false} CmpReverse(a: bytes, b: bytes)
    ensures CmpBytes(b, a) == CmpBytes(a, b).Reverse()
  {
    if a != [] && b != [] {
      CmpReverse(a[1..], b[1..]);
    }
  }

  lemma {:induction false} LtTransitive(a: bytes, b: bytes, c: bytes)
    requires Le(a, b) && Le(b, c)
    ensures Le(a, c)
    ensures Lt(a, b) || Lt(b, c) ==> Lt(a, c)
  {
    if a != [] && b != [] && c != [] && a[0] == b[0] == c[0] {
      LtTransitive(a[1..], b[1..], c[1..]);
    }
  }

  /** `Le` and `Lt` are a total order and its strict part, at any two byte strings. */
  lemma LtTotal(a: bytes, b: bytes)
    ensures Le(a, b) <==> Lt(a, b) || a == b
    ensures !Le(a, b) <==> Lt(b, a)
    ensures Lt(a, b) ==> !Lt(b, a) && a != b
  {
    CmpEqualIff(a, b);
    CmpReverse(a, b);
  }

  /** A common prefix does not matter. */
  lemma {:induction false} CmpPrepend(p: bytes, s: bytes, t: bytes)
    ensures CmpBytes(p + s, p + t) == CmpBytes(s, t)
  {
    if p == [] {
      Empty(s);
      Empty(t);
    } else {
      CmpPrepend(p[1..], s, t);
      TailOfConcat(p, s);
      TailOfConcat(p, t);
    }
  }

  /** Prefixes of one length decide, and what follows them breaks a tie. */
  lemma {:induction false} CmpSameLength(a: bytes, b: bytes, s: bytes, t: bytes)
    requires |a| == |b|
    ensures CmpBytes(a + s, b + t) == CmpBytes(a, b).Then(CmpBytes(s, t))
  {
    if a == [] {
      Empty(s);
      Empty(t);
    } else {
      CmpSameLength(a[1..], b[1..], s, t);
      TailOfConcat(a, s);
      TailOfConcat(b, t);
    }
  }

  /** One byte string is before another one: it is a proper prefix, or its first differing byte is smaller. */
  ghost predicate IsBefore(a: bytes, b: bytes, i: int) {
    && 0 <= i <= |a| && i < |b| && a[..i] == b[..i]
    && (i == |a| || a[i] < b[i])
  }

  lemma {:induction false} LtIsLexicographic(a: bytes, b: bytes)
    ensures Lt(a, b) <==> exists i :: IsBefore(a, b, i)
  {
    if a == [] {
      assert b != [] ==> IsBefore(a, b, 0);
    } else if b != [] {
      LtIsLexicographic(a[1..], b[1..]);
      Uncons(a);
      Uncons(b);
      if a[0] < b[0] {
        assert IsBefore(a, b, 0);
      }
      if i :| a[0] == b[0] && IsBefore(a[1..], b[1..], i) {
        assert a[..i + 1] == [a[0]] + a[1..][..i] && b[..i + 1] == [b[0]] + b[1..][..i];
        assert IsBefore(a, b, i + 1);
      }
      if i :| IsBefore(a, b, i) && i > 0 {
        assert a[0] == a[..i][0] == b[..i][0] == b[0];
        assert a[1..][..i - 1] == a[..i][1..] && b[1..][..i - 1] == b[..i][1..];
        assert IsBefore(a[1..], b[1..], i - 1);
      }
    }
  }
}
