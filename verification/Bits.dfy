/** Ranks as binary numbers: the groups of ranks that share their upper bits, and the partner that differs in one. */
module Bits {

  function Pow2(i: nat): (p: nat)
    ensures p >= 1
  {
    if i == 0 then 1 else 2 * Pow2(i - 1)
  }

  /** The largest `l` with `Pow2(l) <= n`. */
  function Log2(n: nat): nat
  {
    if n <= 1 then 0 else 1 + Log2(n / 2)
  }

  lemma {:induction false} Log2Is(n: nat)
    requires n >= 1
    ensures Pow2(Log2(n)) <= n < 2 * Pow2(Log2(n))
  {
    if n > 1 {
      Log2Is(n / 2);
    }
  }

  /** The bitwise exclusive or of `j` and bit `i`. */
  function Toggle(j: nat, i: nat): nat
  {
    if i == 0 then (if j % 2 == 0 then j + 1 else j - 1) else 2 * Toggle(j / 2, i - 1) + j % 2
  }

  /** `j` without its lowest `i` bits, moved down. */
  function Shift(j: nat, i: nat): nat
  {
    if i == 0 then j else Shift(j / 2, i - 1)
  }

  lemma {:induction false} ToggleTwice(j: nat, i: nat)
    ensures Toggle(Toggle(j, i), i) == j
  {
    if i > 0 {
      var k := Toggle(j / 2, i - 1);
      assert Toggle(j, i) / 2 == k && Toggle(j, i) % 2 == j % 2;
      ToggleTwice(j / 2, i - 1);
    }
  }

  lemma {:induction false} ToggleBelow(j: nat, i: nat, l: nat)
    requires i < l && j < Pow2(l)
    ensures Toggle(j, i) < Pow2(l) && Toggle(j, i) != j
  {
    if i > 0 {
      ToggleBelow(j / 2, i - 1, l - 1);
    }
  }

  /** The partner is in the other half of the same larger group, and above exactly if its half is. */
  lemma {:induction false} ToggleShift(j: nat, i: nat)
    ensures Shift(Toggle(j, i), i) == if Shift(j, i) % 2 == 0 then Shift(j, i) + 1 else Shift(j, i) - 1
    ensures Shift(j, i + 1) == Shift(j, i) / 2 == Shift(Toggle(j, i), i + 1)
    ensures j < Toggle(j, i) <==> Shift(j, i) % 2 == 0
  {
    if i > 0 {
      ToggleShift(j / 2, i - 1);
      assert Toggle(j, i) / 2 == Toggle(j / 2, i - 1);
    }
  }

  /** The first rank of the `g`-th group of `Pow2(i)` ranks. */
  function GroupStart(g: nat, i: nat): nat
  {
    if i == 0 then g else 2 * GroupStart(g, i - 1)
  }

  /** Two neighbouring groups, the first with an even number, make up one larger group. */
  lemma {:induction false} GroupsPair(g: nat, i: nat)
    ensures GroupStart(g, i + 1) == GroupStart(2 * g, i)
  {
    if i > 0 {
      GroupsPair(g, i - 1);
    }
  }

  lemma {:induction false} GroupWidth(g: nat, i: nat)
    ensures GroupStart(g + 1, i) == GroupStart(g, i) + Pow2(i)
  {
    if i > 0 {
      GroupWidth(g, i - 1);
    }
  }

  /** A rank is in its group. */
  lemma {:induction false} InGroup(j: nat, i: nat)
    ensures GroupStart(Shift(j, i), i) <= j < GroupStart(Shift(j, i) + 1, i)
    ensures j < Pow2(i) ==> Shift(j, i) == 0
  {
    if i > 0 {
      InGroup(j / 2, i - 1);
    }
  }

  /** A group of a power of two of ranks is within a larger power of two. */
  lemma {:induction false} GroupBelow(j: nat, i: nat, l: nat)
    requires i <= l && j < Pow2(l)
    ensures GroupStart(Shift(j, i) + 1, i) <= Pow2(l)
  {
    if i > 0 {
      GroupBelow(j / 2, i - 1, l - 1);
    }
  }

  /** The two groups that meet in step `i` are the halves of the group of the next step. */
  lemma GroupHalves(j: nat, i: nat, l: nat)
    requires i < l && j < Pow2(l) && j < Toggle(j, i)
    ensures var g := Shift(j, i + 1);
      && Shift(j, i) == 2 * g && Shift(Toggle(j, i), i) == 2 * g + 1
      && GroupStart(2 * g, i) == GroupStart(g, i + 1) && GroupStart(2 * g + 2, i) == GroupStart(g + 1, i + 1)
      && GroupStart(g, i + 1) < GroupStart(2 * g + 1, i) < GroupStart(g + 1, i + 1) <= Pow2(l)
  {
    var g := Shift(j, i + 1);
    ToggleShift(j, i);
    GroupsPair(g, i);
    GroupsPair(g + 1, i);
    GroupWidth(2 * g, i);
    GroupWidth(2 * g + 1, i);
    GroupBelow(j, i + 1, l);
  }
}
