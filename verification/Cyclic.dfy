/** Positions on a ring of `n` ranks. */
module Cyclic {

  /** `x` brought back into the ring; the sources write `(x + n) % n`. */
  function Wrap(x: int, n: nat): (r: nat)
    requires n > 0 && 0 <= x + n && x < 2 * n
    ensures r < n
  {
    if x < 0 then x + n else if x >= n then x - n else x
  }

  /** On the values that occur the remainder operator is `Wrap`. */
  lemma ModWrap(x: int, n: nat)
    requires n > 0 && 0 <= x < 2 * n
    ensures x % n == Wrap(x, n)
  {
    if x < n {
      ModSmall(x, n);
    } else {
      ModSmall(x - n, n);
      assert x == 1 * n + (x - n);
      ModPlus(x - n, n);
    }
  }

  method Successor(x: nat, n: nat) returns (y: nat)
    requires x < n
    ensures y == Wrap(x + 1, n)
  {
    ModWrap(x + 1, n);
    y := (x + 1) % n;
  }

  method Predecessor(x: nat, n: nat) returns (y: nat)
    requires x < n
    ensures y == Wrap(x - 1, n)
  {
    ModWrap(x + n - 1, n);
    y := (x + n - 1) % n;
  }

  method Forward(x: nat, d: nat, n: nat) returns (y: nat)
    requires x < n && d < n
    ensures y == Wrap(x + d, n)
  {
    ModWrap(x + d, n);
    y := (x + d) % n;
  }

  method Backward(x: nat, d: nat, n: nat) returns (y: nat)
    requires x < n && d < n
    ensures y == Wrap(x - d, n)
  {
    ModWrap(x - d + n, n);
    y := (x - d + n) % n;
  }

  lemma ModSmall(x: nat, n: nat)
    requires x < n
    ensures x % n == x && x / n == 0
  {
  }

  lemma ModPlus(x: nat, n: nat)
    requires x < n
    ensures (x + n) % n == x
  {
    ModUnique(x + n, n, 1, x);
  }

  /** The remainder of a number given by quotient and remainder. */
  lemma ModUnique(x: int, n: nat, q: int, r: nat)
    requires r < n && x == q * n + r
    ensures x % n == r && x / n == q
  {
    var d := x / n - q;
    assert d * n == (x / n) * n - q * n == r - x % n;
    if d != 0 {
      Distant(d, n);
      assert false;
    }
  }

  lemma Distant(d: int, n: nat)
    requires d != 0
    ensures d * n + n <= 0 || d * n >= n
  {
    if d > 0 {
      assert (d - 1) * n >= 0;
    } else {
      assert (-d - 1) * n >= 0;
    }
  }

  lemma MulSplit(m: nat, i: nat, n: nat)
    requires i < m
    ensures 0 <= i * n && i * n + n <= m * n
  {
    var rest: nat := m - i - 1;
    assert m == i + 1 + rest;
    assert m * n == i * n + n + rest * n;
    NonNegative(rest, n);
    NonNegative(i, n);
  }

  lemma NonNegative(a: nat, b: nat)
    ensures a * b >= 0
  {
  }

  /** How far `x` lies in front of `k`. */
  function Ahead(k: nat, x: nat, n: nat): (d: nat)
    requires k < n && x < n
    ensures d < n
  {
    Wrap(x - k, n)
  }

  /** The positions in order. */
  function Identity(n: nat): seq<nat>
  {
    seq(n, (i: nat) => i)
  }
}
