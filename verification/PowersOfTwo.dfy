/**
 Powers of two: rounding up by smearing bits, and masking with one less than a power of two.
 */
module PowersOfTwo {
  import opened Modular

  function Pow2(k: nat): (r: nat)
    ensures r >= 1
  {
    if k == 0 then 1 else 2 * Pow2(k - 1)
  }

  ghost predicate IsPow2(n: nat) { exists k: nat :: n == Pow2(k) }

  lemma DoubleIsPow2(n: nat)
    requires IsPow2(n)
    ensures IsPow2(2 * n)
  {
    var k: nat :| n == Pow2(k);
    assert Pow2(k + 1) == 2 * n;
  }

  // ----- Bits of a natural number -----

  predicate Bit(x: nat, i: nat) {
    if i == 0 then x % 2 == 1 else Bit(x / 2, i - 1)
  }

  /** `x >> m` */
  function Shr(x: nat, m: nat): nat {
    if m == 0 then x else Shr(x / 2, m - 1)
  }

  /** `a & b` */
  function And(a: nat, b: nat): nat {
    if a == 0 || b == 0 then 0 else 2 * And(a / 2, b / 2) + (if a % 2 == 1 && b % 2 == 1 then 1 else 0)
  }

  /** `a | b` */
  function Or(a: nat, b: nat): nat
    decreases a + b
  {
    if a == 0 && b == 0 then 0 else 2 * Or(a / 2, b / 2) + (if a % 2 == 1 || b % 2 == 1 then 1 else 0)
  }

  lemma {:induction false} ZeroBits(i: nat)
    ensures !Bit(0, i)
  {
    if i > 0 {
      ZeroBits(i - 1);
    }
  }

  lemma {:induction false} BitOfShr(x: nat, m: nat, i: nat)
    ensures Bit(Shr(x, m), i) == Bit(x, i + m)
  {
    if m > 0 {
      BitOfShr(x / 2, m - 1, i);
    }
  }

  lemma HalfOfOr(a: nat, b: nat)
    ensures Or(a, b) / 2 == Or(a / 2, b / 2) && Or(a, b) % 2 == (if a % 2 == 1 || b % 2 == 1 then 1 else 0)
  {
  }

  lemma {:induction false} BitOfOr(a: nat, b: nat, i: nat)
    ensures Bit(Or(a, b), i) == (Bit(a, i) || Bit(b, i))
  {
    HalfOfOr(a, b);
    if i > 0 {
      BitOfOr(a / 2, b / 2, i - 1);
    }
  }

  /** A number whose n lowest bits are its ones is a power of two less one. */
  lemma {:induction false} OnesUpTo(x: nat, n: nat)
    requires forall i: nat :: Bit(x, i) <==> i < n
    ensures x == Pow2(n) - 1
  {
    if n == 0 {
      NoBits(x);
    } else {
      assert Bit(x, 0);
      forall i: nat ensures Bit(x / 2, i) <==> i < n - 1 {
        assert Bit(x, i + 1) == Bit(x / 2, i);
      }
      OnesUpTo(x / 2, n - 1);
    }
  }

  lemma {:induction false} NoBits(x: nat)
    requires forall i: nat :: !Bit(x, i)
    ensures x == 0
  {
    assert !Bit(x, 0);
    forall i: nat ensures !Bit(x / 2, i) {
      assert Bit(x, i + 1) == Bit(x / 2, i);
    }
    if x > 0 {
      NoBits(x / 2);
    }
  }

  /** The position of the highest one. */
  function Top(x: nat): (k: nat)
    requires x > 0
    ensures Pow2(k) <= x < Pow2(k + 1)
  {
    if x == 1 then 0 else 1 + Top(x / 2)
  }

  lemma {:induction false} TopIsHighest(x: nat, i: nat)
    requires x > 0 && i >= Top(x)
    ensures Bit(x, i) <==> i == Top(x)
  {
    if x == 1 {
      if i > 0 {
        ZeroBits(i - 1);
      }
    } else {
      TopIsHighest(x / 2, i - 1);
    }
  }

  /** The highest m bits of x, from bit k down, are ones. */
  ghost predicate Smeared(x: nat, k: nat, m: nat) {
    && (forall i: nat :: i > k ==> !Bit(x, i))
    && (forall i: nat :: i <= k < i + m ==> Bit(x, i))
  }

  /** `x |= x >> m` doubles the run of ones. */
  lemma SmearStep(x: nat, k: nat, m: nat)
    requires Smeared(x, k, m)
    ensures Smeared(Or(x, Shr(x, m)), k, 2 * m)
  {
    var y := Or(x, Shr(x, m));
    forall i: nat | i > k ensures !Bit(y, i) {
      BitOfOr(x, Shr(x, m), i);
      BitOfShr(x, m, i);
    }
    forall i: nat | i <= k < i + 2 * m ensures Bit(y, i) {
      BitOfOr(x, Shr(x, m), i);
      BitOfShr(x, m, i);
    }
  }

  // ----- Rounding up to a power of two -----

  const WORD := 0x1_0000_0000_0000_0000

  /** The smallest power of two that is at least x. */
  function CeilToPow2(x: nat): (r: nat)
    ensures x <= r && (x > 0 ==> r < 2 * x)
  {
    if x <= 1 then 1 else 2 * CeilToPow2((x + 1) / 2)
  }

  lemma {:induction false} CeilIsPow2(x: nat)
    ensures IsPow2(CeilToPow2(x))
  {
    if x <= 1 {
      assert Pow2(0) == 1;
    } else {
      CeilIsPow2((x + 1) / 2);
      DoubleIsPow2(CeilToPow2((x + 1) / 2));
    }
  }

  lemma {:induction false} CeilBetween(x: nat, k: nat)
    requires Pow2(k) < x <= Pow2(k + 1)
    ensures CeilToPow2(x) == Pow2(k + 1)
  {
    if k > 0 {
      CeilBetween((x + 1) / 2, k - 1);
    }
  }

  lemma {:induction false} PowAdd(j: nat, k: nat)
    ensures Pow2(j + k) == Pow2(j) * Pow2(k)
  {
    if j > 0 {
      PowAdd(j - 1, k);
    }
  }

  lemma PowSquare(k: nat, v: nat)
    requires Pow2(k) == v
    ensures Pow2(2 * k) == v * v
  {
    PowAdd(k, k);
  }

  lemma WordIsPow2()
    ensures WORD == Pow2(64)
  {
    PowSquare(1, 2);
    PowSquare(2, 4);
    PowSquare(4, 16);
    PowSquare(8, 256);
    PowSquare(16, 65536);
    PowSquare(32, 65536 * 65536);
  }

  lemma {:induction false} PowMonotone(j: nat, k: nat)
    requires j <= k
    ensures Pow2(j) <= Pow2(k)
  {
    if j < k {
      PowMonotone(j, k - 1);
    }
  }

  lemma SmearedWhole(y: nat, k: nat, m: nat)
    requires Smeared(y, k, m) && k < m
    ensures y + 1 == Pow2(k + 1)
  {
    OnesUpTo(y, k + 1);
  }

  /** y is z with m ones from its highest bit down. */
  ghost predicate SmearedFrom(z: nat, y: nat, m: nat) {
    if z == 0 then y == 0 else Smeared(y, Top(z), m)
  }

  lemma SmearStart(z: nat)
    ensures SmearedFrom(z, z, 1)
  {
    if z > 0 {
      forall i: nat | i >= Top(z) ensures Bit(z, i) <==> i == Top(z) {
        TopIsHighest(z, i);
      }
    }
  }

  lemma SmearMore(z: nat, y: nat, m: nat)
    requires SmearedFrom(z, y, m)
    ensures SmearedFrom(z, Or(y, Shr(y, m)), 2 * m)
  {
    if z == 0 {
      ShrZero(m);
    } else {
      SmearStep(y, Top(z), m);
    }
  }

  lemma SmearEnd(x: nat, y: nat)
    requires x < WORD && SmearedFrom(if x == 0 then WORD - 1 else x - 1, y, 64)
    ensures (y + 1) % WORD == if 1 <= x <= WORD / 2 then CeilToPow2(x) else 0
  {
    var z := if x == 0 then WORD - 1 else x - 1;
    if z > 0 {
      TopInWord(z);
      SmearedWhole(y, Top(z), 64);
      RoundedUp(x, Top(z));
    }
  }

  lemma TopInWord(z: nat)
    requires 0 < z < WORD
    ensures Top(z) < 64 && (z == WORD - 1 ==> Top(z) == 63)
  {
    WordIsPow2();
    if Top(z) >= 64 {
      PowMonotone(64, Top(z));
    } else if Top(z) < 63 {
      PowMonotone(Top(z) + 1, 63);
      assert Pow2(64) == 2 * Pow2(63);
    }
  }

  /** The smeared word plus one, where the highest bit of x - 1, with wrap-around, is bit k. */
  lemma RoundedUp(x: nat, k: nat)
    requires x < WORD && k < 64 && (x == 0 ==> k == 63) && (x > 0 ==> Pow2(k) <= x - 1 < Pow2(k + 1))
    ensures Pow2(k + 1) % WORD == if 1 <= x <= WORD / 2 then CeilToPow2(x) else 0
  {
    WordIsPow2();
    assert Pow2(64) == 2 * Pow2(63);
    if k == 63 {
      UniqueRemainder(WORD, 1, 0, WORD);
    } else {
      PowMonotone(k + 1, 63);
      CeilBetween(x, k);
      UniqueRemainder(Pow2(k + 1), 0, Pow2(k + 1), WORD);
    }
  }

  /** The bit smearing on 64-bit words: both ends of the range wrap around to 0. */
  method CeilByBits(x: nat) returns (r: nat)
    requires x < WORD
    ensures r == if 1 <= x <= WORD / 2 then CeilToPow2(x) else 0
  {
    var y: nat := if x == 0 then WORD - 1 else x - 1;
    ghost var z: nat := y;
    SmearStart(z);
    SmearMore(z, y, 1);
    y := Or(y, Shr(y, 1));
    SmearMore(z, y, 2);
    y := Or(y, Shr(y, 2));
    SmearMore(z, y, 4);
    y := Or(y, Shr(y, 4));
    var i: nat := 1;
    while i < 8
      invariant i == 1 || i == 2 || i == 4 || i == 8
      invariant SmearedFrom(z, y, 8 * i)
      decreases 8 - i
    {
      SmearMore(z, y, 8 * i);
      y := Or(y, Shr(y, 8 * i));
      i := 2 * i;
    }
    SmearEnd(x, y);
    r := (y + 1) % WORD;
  }

  lemma {:induction false} ShrZero(m: nat)
    ensures Shr(0, m) == 0
  {
    if m > 0 {
      ShrZero(m - 1);
    }
  }

  // ----- Masking -----

  /** Masking with a power of two less one is the remainder. */
  lemma {:induction false} MaskIsRemainder(x: nat, k: nat)
    ensures And(x, Pow2(k) - 1) == x % Pow2(k)
  {
    if k > 0 {
      var p := Pow2(k - 1);
      if x > 0 {
        assert (Pow2(k) - 1) / 2 == p - 1 && (Pow2(k) - 1) % 2 == 1;
        MaskIsRemainder(x / 2, k - 1);
        HalfRemainder(x, p);
      } else {
        assert 0 % Pow2(k) == 0;
      }
    }
  }

  lemma HalfRemainder(x: nat, p: nat)
    requires p >= 1
    ensures x % (2 * p) == 2 * ((x / 2) % p) + x % 2
  {
    var h := x / 2;
    var q, r := h / p, h % p;
    assert h == q * p + r;
    assert x == q * (2 * p) + (2 * r + x % 2);
    UniqueRemainder(x, q, 2 * r + x % 2, 2 * p);
  }
}
