/** Natural numbers as big-endian base-256 digit strings, and as little-endian ones. */
module Digits {
  import opened ByteStrings

  function Pow256(n: nat): (p: nat)
    ensures p > 0
  {
    if n == 0 then 1 else 256 * Pow256(n - 1)
  }

  /** The number of base-256 digits of `n`, none for zero. */
  function ByteLen(n: nat): nat {
    if n == 0 then 0 else 1 + ByteLen(n / 256)
  }

  /** `n` modulo `Pow256(width)` on exactly `width` digits, most significant first. */
  function BigEndian(n: nat, width: nat): (b: bytes)
    ensures |b| == width
    decreases width
  {
    if width == 0 then [] else BigEndian(n / 256, width - 1) + [n % 256]
  }

  /** The number a big-endian digit string denotes. */
  function Value(b: bytes): nat {
    if b == [] then 0 else 256 * Value(b[..|b| - 1]) + b[|b| - 1]
  }

  /** The digits of `BigEndian`, least significant first. */
  function LittleEndian(n: nat, width: nat): (b: bytes)
    ensures |b| == width
    decreases width
  {
    if width == 0 then [] else [n % 256] + LittleEndian(n / 256, width - 1)
  }

  function LittleEndianValue(b: bytes): nat {
    if b == [] then 0 else b[0] + 256 * LittleEndianValue(b[1..])
  }

  lemma {:induction false} ValueBound(b: bytes)
    ensures Value(b) < Pow256(|b|)
  {
    if b != [] {
      ValueBound(b[..|b| - 1]);
    }
  }

  lemma {:induction false} ByteLenBound(n: nat, width: nat)
    ensures n < Pow256(width) <==> ByteLen(n) <= width
  {
    if n == 0 {
    } else if width == 0 {
    } else {
      ByteLenBound(n / 256, width - 1);
      DivideBelow(n, Pow256(width - 1));
    }
  }

  lemma DivideBelow(n: nat, p: nat)
    ensures n / 256 < p <==> n < 256 * p
  {
  }

  lemma {:induction false} ValueOfBigEndian(n: nat, width: nat)
    requires n < Pow256(width)
    ensures Value(BigEndian(n, width)) == n
  {
    if width > 0 {
      DivideBelow(n, Pow256(width - 1));
      ValueOfBigEndian(n / 256, width - 1);
      assert BigEndian(n, width)[..width - 1] == BigEndian(n / 256, width - 1);
    }
  }

  lemma {:induction false} BigEndianOfValue(b: bytes)
    ensures BigEndian(Value(b), |b|) == b
  {
    if b != [] {
      BigEndianOfValue(b[..|b| - 1]);
      assert b == b[..|b| - 1] + [b[|b| - 1]];
    }
  }

  lemma {:induction false} LittleEndianRoundTrip(n: nat, width: nat)
    requires n < Pow256(width)
    ensures LittleEndianValue(LittleEndian(n, width)) == n
  {
    if width > 0 {
      DivideBelow(n, Pow256(width - 1));
      LittleEndianRoundTrip(n / 256, width - 1);
      assert LittleEndian(n, width)[1..] == LittleEndian(n / 256, width - 1);
    }
  }

  lemma {:induction false} LittleEndianValueBound(b: bytes)
    ensures LittleEndianValue(b) < Pow256(|b|)
  {
    if b != [] {
      LittleEndianValueBound(b[1..]);
    }
  }

  /** On one width, numbers compare as their digit strings. */
  lemma {:induction false} BigEndianOrder(a: nat, b: nat, width: nat)
    requires a < Pow256(width) && b < Pow256(width)
    ensures CmpBytes(BigEndian(a, width), BigEndian(b, width)) == CmpInt(a, b)
  {
    if width > 0 {
      DivideBelow(a, Pow256(width - 1));
      DivideBelow(b, Pow256(width - 1));
      BigEndianOrder(a / 256, b / 256, width - 1);
      CmpSameLength(BigEndian(a / 256, width - 1), BigEndian(b / 256, width - 1), [a % 256], [b % 256]);
      assert CmpBytes([a % 256], [b % 256]) == CmpInt(a % 256, b % 256) by {
        assert CmpBytes([a % 256][1..], [b % 256][1..]) == Equal;
      }
    }
  }

  /** Only the last digits of a number depend on what it is modulo a power of 256. */
  lemma {:induction false} BigEndianDropsHigh(n: nat, width: nat, low: nat)
    requires low <= width
    ensures BigEndian(n, width)[width - low..] == BigEndian(n, low)
    decreases width
  {
    if low == 0 {
    } else {
      BigEndianDropsHigh(n / 256, width - 1, low - 1);
      var hi := BigEndian(n / 256, width - 1);
      assert (hi + [n % 256])[width - low..] == hi[width - low..] + [n % 256];
    }
  }

  lemma {:induction false} BigEndianModulo(n: nat, k: nat, width: nat)
    ensures BigEndian(n + k * Pow256(width), width) == BigEndian(n, width)
  {
    if width > 0 {
      var p := Pow256(width - 1);
      assert k * Pow256(width) == 256 * (k * p);
      assert (n + 256 * (k * p)) / 256 == n / 256 + k * p && (n + 256 * (k * p)) % 256 == n % 256;
      BigEndianModulo(n / 256, k, width - 1);
    }
  }

  /** The signed reading of a `width`-byte pattern. */
  function AsSigned(u: nat, width: nat): int
    requires width > 0
  {
    if u < 128 * Pow256(width - 1) then u else u - Pow256(width)
  }

  /** The pattern of a signed number. */
  function AsUnsigned(x: int, width: nat): (u: nat)
    requires width > 0 && -128 * Pow256(width - 1) <= x < 128 * Pow256(width - 1)
    ensures u < Pow256(width) && AsSigned(u, width) == x
  {
    if x < 0 then x + Pow256(width) else x
  }

  /** The ones' complement of a digit string. */
  function Inverted(b: bytes): (r: bytes)
    ensures |r| == |b|
    ensures forall i :: 0 <= i < |b| ==> r[i] == 255 - b[i]
  {
    seq(|b|, i requires 0 <= i < |b| => 255 - b[i])
  }

  lemma {:induction false} ValueOfInverted(b: bytes)
    ensures Value(Inverted(b)) == Pow256(|b|) - 1 - Value(b)
  {
    if b != [] {
      ValueOfInverted(b[..|b| - 1]);
      assert Inverted(b)[..|b| - 1] == Inverted(b[..|b| - 1]);
    }
  }

  /** `b` with `n` copies of `pad` in front. */
  function Padded(pad: byte, n: nat, b: bytes): bytes
    decreases n
  {
    if n == 0 then b else [pad] + Padded(pad, n - 1, b)
  }

  /** Leading zeros leave the value, leading 0xff bytes are a borrow. */
  lemma {:induction false} ValuePadded(pad: byte, n: nat, b: bytes)
    requires pad == 0 || pad == 255
    ensures |Padded(pad, n, b)| == n + |b|
    ensures Value(Padded(pad, n, b)) == Value(b) + if pad == 0 then 0 else Pow256(n + |b|) - Pow256(|b|)
    decreases n
  {
    if n > 0 {
      ValuePadded(pad, n - 1, b);
      ValueOfCons(pad, Padded(pad, n - 1, b));
    }
  }

  lemma {:induction false} ValueOfCons(x: byte, b: bytes)
    ensures Value([x] + b) == x * Pow256(|b|) + Value(b)
  {
    if b == [] {
      assert ([x] + b)[..0] == [];
    } else {
      var init := b[..|b| - 1];
      ValueOfCons(x, init);
      assert ([x] + b)[..|b|] == [x] + init;
      assert x * Pow256(|b|) == 256 * (x * Pow256(|init|));
    }
  }

  lemma ModuloWraps(x: int, p: nat)
    requires p > 0 && 0 <= x + p < p
    ensures x % p == x + p
    ensures (x + p) % p == x + p
  {
    assert x == -1 * p + (x + p);
    assert x + p == 0 * p + (x + p);
  }

  lemma {:induction false} Pow256Sum(m: nat, n: nat)
    ensures Pow256(m + n) == Pow256(m) * Pow256(n)
  {
    if m > 0 {
      Pow256Sum(m - 1, n);
      assert Pow256(m) * Pow256(n) == 256 * (Pow256(m - 1) * Pow256(n));
    }
  }

  type i32 = x: int | -0x8000_0000 <= x < 0x8000_0000
  type i64 = x: int | -0x8000_0000_0000_0000 <= x < 0x8000_0000_0000_0000
  type u32 = x: int | 0 <= x < 0x1_0000_0000
  type u64 = x: int | 0 <= x < 0x1_0000_0000_0000_0000

  lemma PowersOfWidths()
    ensures Pow256(2) == 0x1_0000
    ensures Pow256(3) == 0x100_0000 && Pow256(4) == 0x1_0000_0000
    ensures Pow256(7) == 0x100_0000_0000_0000 && Pow256(8) == 0x1_0000_0000_0000_0000
  {
    assert Pow256(1) == 256;
    assert Pow256(2) == 0x1_0000;
    assert Pow256(3) == 0x100_0000;
    assert Pow256(4) == 0x1_0000_0000;
    assert Pow256(5) == 0x100_0000_0000;
    assert Pow256(6) == 0x1_0000_0000_0000;
  }
}
