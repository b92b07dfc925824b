/** Arithmetic of offsets in a ring of n cells. */
module Modular {

  /** The only multiple of n strictly between -n and n is zero. */
  lemma SmallMultiple(n: int, d: int)
    requires -n < n * d < n
    ensures d == 0
  {
    assert d >= 1 ==> n * (d - 1) >= 0;
    assert d <= -1 ==> n * (-1 - d) >= 0;
  }

  /** Positions closer than n apart that share a cell are the same position. */
  lemma SameCell(a: nat, b: nat, n: nat)
    requires 0 < n && a <= b < a + n && a % n == b % n
    ensures a == b
  {
    assert b - a == n * (b / n - a / n);
    SmallMultiple(n, b / n - a / n);
  }

  /** Within one window of n consecutive positions, different positions use different cells. */
  lemma DifferentCells(a: nat, b: nat, low: nat, n: nat)
    requires 0 < n && low <= a < low + n && low <= b < low + n
    ensures a != b <==> a % n != b % n
  {
    if a % n == b % n {
      if a < b { SameCell(a, b, n); } else { SameCell(b, a, n); }
    }
  }

  lemma UniqueRemainder(a: nat, q: nat, r: nat, n: nat)
    requires r < n && a == n * q + r
    ensures a % n == r && a / n == q
  {
    assert n * (a / n - q) == r - a % n;
    SmallMultiple(n, a / n - q);
  }

  /** Adding to an offset that was already reduced gives the same cell. */
  lemma AddToReduced(a: nat, b: nat, n: nat)
    requires 0 < n
    ensures (a % n + b) % n == (a + b) % n
  {
    var c := a % n + b;
    assert a + b == n * (a / n + c / n) + c % n;
    UniqueRemainder(a + b, a / n + c / n, c % n, n);
  }

  lemma ReducedTwice(a: nat, n: nat)
    requires 0 < n
    ensures a % n % n == a % n
  {
    UniqueRemainder(a % n, 0, a % n, n);
  }
}
