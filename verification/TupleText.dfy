/** UTF-8, said of code points: the texts of tuples are exactly the encodings of sequences of them. */
module TupleText {
  import opened ByteStrings
  import opened Sequences
  import opened TupleElement

  /** A Unicode scalar value: a code point that is no surrogate. */
  type Scalar = c: int | 0 <= c < 0xd800 || 0xe000 <= c < 0x11_0000

  /** Its bytes in UTF-8, section 3 of RFC 3629. */
  function BytesOf(c: Scalar): (b: bytes)
    ensures b != []
  {
    if c < 0x80 then [c]
    else if c < 0x800 then [0xc0 + c / 64, 0x80 + c % 64]
    else if c < 0x1_0000 then [0xe0 + c / 4096, 0x80 + c / 64 % 64, 0x80 + c % 64]
    else [0xf0 + c / 0x4_0000, 0x80 + c / 4096 % 64, 0x80 + c / 64 % 64, 0x80 + c % 64]
  }

  function TextOf(scalars: seq<Scalar>): bytes {
    if scalars == [] then [] else BytesOf(scalars[0]) + TextOf(scalars[1..])
  }

  lemma SixBits(high: nat, low: nat)
    requires low < 64
    ensures (high * 64 + low) / 64 == high && (high * 64 + low) % 64 == low
  {
  }

  lemma TwoBytes(a: nat, b: nat)
    requires 2 <= a < 32 && b < 64
    ensures BytesOf(a * 64 + b) == [0xc0 + a, 0x80 + b]
  {
    SixBits(a, b);
  }

  lemma ThreeBytes(a: nat, b: nat, c: nat)
    requires a < 16 && b < 64 && c < 64 && (a == 0 ==> b >= 32) && (a == 13 ==> b < 32)
    ensures BytesOf((a * 64 + b) * 64 + c) == [0xe0 + a, 0x80 + b, 0x80 + c]
  {
    SixBits(a * 64 + b, c);
    SixBits(a, b);
    assert ((a * 64 + b) * 64 + c) / 4096 == a;
  }

  lemma FourBytes(a: nat, b: nat, c: nat, d: nat)
    requires a < 5 && b < 64 && c < 64 && d < 64 && (a == 0 ==> b >= 16) && (a == 4 ==> b < 16)
    ensures BytesOf(((a * 64 + b) * 64 + c) * 64 + d) == [0xf0 + a, 0x80 + b, 0x80 + c, 0x80 + d]
  {
    var x := ((a * 64 + b) * 64 + c) * 64 + d;
    SixBits((a * 64 + b) * 64 + c, d);
    SixBits(a * 64 + b, c);
    SixBits(a, b);
    assert x / 4096 == a * 64 + b;
    assert x / 0x4_0000 == a;
  }

  /** The first scalar value of a well-formed text. */
  lemma FirstScalar(s: bytes) returns (c: Scalar)
    requires ValidUtf8(s) && s != []
    ensures BytesOf(c) <= s && ValidUtf8(s[|BytesOf(c)|..])
  {
    hide BytesOf;
    var first: int := s[0];
    if first <= 0x7f {
      c := first;
      OneByte(c);
    } else {
      var second: int := s[1];
      if first <= 0xdf {
        TwoBytes(first - 0xc0, second - 0x80);
        c := (first - 0xc0) * 64 + (second - 0x80);
      } else {
        var third: int := s[2];
        if first <= 0xef {
          ThreeBytes(first - 0xe0, second - 0x80, third - 0x80);
          c := ((first - 0xe0) * 64 + (second - 0x80)) * 64 + (third - 0x80);
        } else {
          var fourth: int := s[3];
          FourBytes(first - 0xf0, second - 0x80, third - 0x80, fourth - 0x80);
          c := (((first - 0xf0) * 64 + (second - 0x80)) * 64 + (third - 0x80)) * 64 + (fourth - 0x80);
        }
      }
    }
  }

  lemma OneByte(c: Scalar)
    requires c < 0x80
    ensures BytesOf(c) == [c]
  {
  }

  lemma ScalarFirst(c: Scalar, s: bytes)
    requires ValidUtf8(s)
    ensures ValidUtf8(BytesOf(c) + s)
  {
    var w := BytesOf(c) + s;
    DropPrefix(BytesOf(c), s);
  }

  lemma {:induction false} ScalarsOf(s: bytes) returns (scalars: seq<Scalar>)
    requires ValidUtf8(s)
    ensures TextOf(scalars) == s
    decreases |s|
  {
    if s == [] {
      scalars := [];
    } else {
      var c := FirstScalar(s);
      var rest := ScalarsOf(s[|BytesOf(c)|..]);
      scalars := [c] + rest;
      assert scalars[1..] == rest;
      Split(s, |BytesOf(c)|);
    }
  }

  lemma {:induction false} TextIsValid(scalars: seq<Scalar>)
    ensures ValidUtf8(TextOf(scalars))
  {
    hide BytesOf;
    if scalars != [] {
      TextIsValid(scalars[1..]);
      ScalarFirst(scalars[0], TextOf(scalars[1..]));
    }
  }

  /** A byte string is a text exactly when some scalar values are written so. */
  lemma TextsAreEncodings(s: bytes)
    ensures ValidUtf8(s) <==> exists scalars :: TextOf(scalars) == s
  {
    hide ValidUtf8, TextOf;
    if ValidUtf8(s) {
      var scalars := ScalarsOf(s);
    }
    if scalars :| TextOf(scalars) == s {
      TextIsValid(scalars);
    }
  }
}
