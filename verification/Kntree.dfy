/** The k-nomial tree over virtual ranks 0 to n - 1, rank 0 the root.  A rank heads a block of the tree whose size
    is a power of the degree; its children are the heads of the smaller blocks inside. */
module Kntree {
  import opened Cyclic

  // ----- powers and multiples -----

  function Pow(k: nat, m: nat): (p: nat)
    requires k >= 2
    ensures p >= 1
  {
    if m == 0 then 1 else Times(k, Pow(k, m - 1))
  }

  /** The product, unfolded one factor at a time. */
  function Times(a: nat, b: nat): (p: nat)
    ensures a >= 1 ==> p >= b
  {
    if a == 0 then 0 else b + Times(a - 1, b)
  }

  lemma {:induction false} TimesIs(a: nat, b: nat)
    ensures Times(a, b) == a * b
  {
    if a > 0 {
      TimesIs(a - 1, b);
      assert a * b == (a - 1) * b + b;
    }
  }

  lemma TimesSwap(a: nat, b: nat)
    ensures Times(a, b) == Times(b, a)
  {
    TimesIs(a, b);
    TimesIs(b, a);
    assert a * b == b * a;
  }

  /** The remainder, by repeated subtraction. */
  function Rest(x: nat, d: nat): (r: nat)
    requires d > 0
    ensures r < d && r <= x
  {
    if x < d then x else Rest(x - d, d)
  }

  lemma {:induction false} RestIs(x: nat, d: nat)
    requires d > 0
    ensures Rest(x, d) == x % d && x - Rest(x, d) == x / d * d
  {
    if x < d {
      ModSmall(x, d);
    } else {
      RestIs(x - d, d);
      var q := (x - d) / d;
      assert x - d == q * d + (x - d) % d;
      assert (q + 1) * d == q * d + d;
      ModUnique(x, d, q + 1, (x - d) % d);
    }
  }

  lemma PowNext(k: nat, m: nat)
    requires k >= 2
    ensures Pow(k, m + 1) == Times(k, Pow(k, m)) && Pow(k, m + 1) >= 2 * Pow(k, m) && Pow(k, m + 1) > Pow(k, m)
  {
    assert Times(k, Pow(k, m)) == Pow(k, m) + (Pow(k, m) + Times(k - 2, Pow(k, m)));
  }

  lemma {:induction false} PowGrows(k: nat, a: nat, b: nat)
    requires k >= 2 && a <= b
    ensures Pow(k, a) <= Pow(k, b) && (a < b ==> Pow(k, a) < Pow(k, b))
  {
    if a < b {
      PowGrows(k, a, b - 1);
      PowNext(k, b - 1);
    }
  }

  ghost predicate Multiple(x: nat, d: nat)
  {
    exists q: nat :: x == Times(q, d)
  }

  lemma {:induction false} TimesRest(q: nat, d: nat, r: nat)
    requires r < d
    ensures Rest(Times(q, d) + r, d) == r
  {
    if q > 0 {
      TimesRest(q - 1, d, r);
    }
  }

  lemma {:induction false} FloorIs(x: nat, d: nat)
    requires d > 0
    ensures Multiple(x - Rest(x, d), d)
  {
    if x < d {
      assert 0 == Times(0, d);
    } else {
      FloorIs(x - d, d);
      var q: nat :| x - d - Rest(x - d, d) == Times(q, d);
      assert x - Rest(x, d) == Times(q + 1, d);
    }
  }

  lemma MultipleRest(x: nat, d: nat)
    requires d > 0
    ensures Multiple(x, d) <==> Rest(x, d) == 0
  {
    FloorIs(x, d);
    if Multiple(x, d) {
      var q: nat :| x == Times(q, d);
      TimesRest(q, d, 0);
    }
  }

  lemma {:induction false} TimesSum(p: nat, q: nat, d: nat)
    ensures Times(p + q, d) == Times(p, d) + Times(q, d)
  {
    if p > 0 {
      TimesSum(p - 1, q, d);
      assert Times(p + q, d) == d + Times(p - 1 + q, d);
    }
  }

  lemma MultipleSum(x: nat, y: nat, d: nat)
    requires Multiple(x, d) && Multiple(y, d)
    ensures Multiple(x + y, d)
  {
    var p: nat :| x == Times(p, d);
    var q: nat :| y == Times(q, d);
    TimesSum(p, q, d);
    assert x + y == Times(p + q, d);
  }

  lemma TimesLess(p: nat, q: nat, d: nat)
    requires p < q
    ensures Times(p, d) + d <= Times(q, d)
  {
    TimesSum(p, q - p, d);
  }

  /** Two multiples of `d` are at least `d` apart. */
  lemma MultiplesApart(x: nat, y: nat, d: nat)
    requires Multiple(x, d) && Multiple(y, d) && x < y
    ensures x + d <= y
  {
    var p: nat :| x == Times(p, d);
    var q: nat :| y == Times(q, d);
    if q < p {
      TimesLess(q, p, d);
    } else if p < q {
      TimesLess(p, q, d);
    }
  }

  lemma {:induction false} TimesTimes(p: nat, q: nat, d: nat)
    ensures Times(p, Times(q, d)) == Times(Times(p, q), d)
  {
    if p > 0 {
      TimesTimes(p - 1, q, d);
      TimesSum(q, Times(p - 1, q), d);
    }
  }

  lemma MultipleOfMultiple(x: nat, y: nat, d: nat)
    requires Multiple(x, y) && Multiple(y, d)
    ensures Multiple(x, d)
  {
    var p: nat :| x == Times(p, y);
    var q: nat :| y == Times(q, d);
    TimesTimes(p, q, d);
    assert x == Times(Times(p, q), d);
  }

  lemma {:induction false} PowMultiple(k: nat, a: nat, b: nat)
    requires k >= 2 && a <= b
    ensures Multiple(Pow(k, b), Pow(k, a))
  {
    if a == b {
      assert Pow(k, b) == Times(1, Pow(k, a));
    } else {
      PowMultiple(k, a, b - 1);
      assert Pow(k, b) == Times(k, Pow(k, b - 1));
      MultipleOfMultiple(Pow(k, b), Pow(k, b - 1), Pow(k, a));
    }
  }

  // ----- the blocks of the tree -----

  /** The loop that looks for the largest block that `v` heads, from size `Pow(k, m)` on. */
  function TopFrom(n: nat, k: nat, v: nat, m: nat): nat
    requires k >= 2
    decreases if Pow(k, m) < n then n - Pow(k, m) else 0
  {
    PowNext(k, m);
    if Pow(k, m) >= n || Rest(v, Pow(k, m + 1)) != 0 then m else TopFrom(n, k, v, m + 1)
  }

  /** The largest block headed by `v` has size `Pow(k, Top)`. */
  function Top(n: nat, k: nat, v: nat): nat
    requires k >= 2
  {
    TopFrom(n, k, v, 0)
  }

  lemma {:induction false} TopFromIs(n: nat, k: nat, v: nat, m: nat)
    requires k >= 2 && Multiple(v, Pow(k, m)) && v < n
    ensures var j := TopFrom(n, k, v, m);
      m <= j && Multiple(v, Pow(k, j)) && (Pow(k, j) >= n || !Multiple(v, Pow(k, j + 1)))
    decreases if Pow(k, m) < n then n - Pow(k, m) else 0
  {
    PowNext(k, m);
    MultipleRest(v, Pow(k, m + 1));
    if Pow(k, m) < n && Rest(v, Pow(k, m + 1)) == 0 {
      TopFromIs(n, k, v, m + 1);
    }
  }

  lemma ByOne(v: nat)
    ensures Multiple(v, 1)
  {
    TimesIs(v, 1);
    assert v == Times(v, 1);
  }

  /** The block of `v` starts at a multiple of its size.  Unless `v` is the root, the next larger size does not
      divide `v`, and the block is smaller than the group; the root's block covers the group. */
  lemma TopIs(n: nat, k: nat, v: nat)
    requires k >= 2 && v < n
    ensures Multiple(v, Pow(k, Top(n, k, v)))
    ensures v > 0 ==> Pow(k, Top(n, k, v)) <= v && !Multiple(v, Pow(k, Top(n, k, v) + 1))
    ensures v == 0 ==> Pow(k, Top(n, k, v)) >= n
  {
    ByOne(v);
    TopFromIs(n, k, v, 0);
    var j := Top(n, k, v);
    if v == 0 {
      assert 0 == Times(0, Pow(k, j + 1));
    } else {
      assert 0 == Times(0, Pow(k, j));
      MultiplesApart(0, v, Pow(k, j));
    }
  }

  lemma MultipleDown(v: nat, k: nat, a: nat, b: nat)
    requires k >= 2 && a <= b && Multiple(v, Pow(k, b))
    ensures Multiple(v, Pow(k, a))
  {
    PowMultiple(k, a, b);
    MultipleOfMultiple(v, Pow(k, b), Pow(k, a));
  }

  /** The level is determined by divisibility. */
  lemma TopUnique(n: nat, k: nat, v: nat, j: nat)
    requires k >= 2 && 0 < v < n && Multiple(v, Pow(k, j)) && !Multiple(v, Pow(k, j + 1))
    ensures Top(n, k, v) == j
  {
    TopIs(n, k, v);
    var t := Top(n, k, v);
    if t < j {
      MultipleDown(v, k, t + 1, j);
    } else if j < t {
      MultipleDown(v, k, j + 1, t);
    }
  }

  /** A rank that divides by `Pow(k, j)` heads a block at least that large. */
  lemma TopAtLeast(n: nat, k: nat, v: nat, j: nat)
    requires k >= 2 && v < n && Multiple(v, Pow(k, j)) && (j > 0 ==> Pow(k, j - 1) < n)
    ensures j <= Top(n, k, v)
  {
    TopIs(n, k, v);
    var t := Top(n, k, v);
    if t < j {
      PowGrows(k, t, j - 1);
      MultipleDown(v, k, t + 1, j);
      assert false;
    }
  }

  // ----- parents and children -----

  function Block(n: nat, k: nat, v: nat): (b: nat)
    requires k >= 2
    ensures b >= 1
  {
    Pow(k, Top(n, k, v))
  }

  /** The head of the next larger block around `v`. */
  function Parent(n: nat, k: nat, v: nat): nat
    requires k >= 2
  {
    v - Rest(v, Pow(k, Top(n, k, v) + 1))
  }

  /** `c` heads the `i`-th block of size `Pow(k, m)` inside the block of `p`. */
  predicate IsChild(n: nat, k: nat, p: nat, c: nat, m: nat, i: nat)
    requires k >= 2
  {
    c < n && m < Top(n, k, p) && 1 <= i < k && c == p + Times(Pow(k, m), i)
  }

  lemma SmallPart(k: nat, m: nat, i: nat)
    requires k >= 2 && 1 <= i < k
    ensures 0 < Times(Pow(k, m), i) < Pow(k, m + 1) && Multiple(Times(Pow(k, m), i), Pow(k, m))
    ensures Times(Pow(k, m), i) + Pow(k, m) <= Pow(k, m + 1)
  {
    TimesLess(i, k, Pow(k, m));
    TimesSwap(Pow(k, m), i);
    assert Times(i, Pow(k, m)) >= Pow(k, m);
  }

  /** The head of the `i`-th block inside a larger block has exactly the size of that block. */
  lemma HeadLevel(n: nat, k: nat, p: nat, c: nat, m: nat, i: nat)
    requires k >= 2 && Multiple(p, Pow(k, m + 1)) && 1 <= i < k && c == p + Times(Pow(k, m), i) && c < n
    ensures p < c && Top(n, k, c) == m && Rest(c, Pow(k, m + 1)) == Times(Pow(k, m), i)
  {
    var s, size := Pow(k, m), Pow(k, m + 1);
    MultipleDown(p, k, m, m + 1);
    SmallPart(k, m, i);
    MultipleSum(p, Times(s, i), s);
    var q: nat :| p == Times(q, size);
    TimesRest(q, size, Times(s, i));
    MultipleRest(c, size);
    TopUnique(n, k, c, m);
  }

  /** An enumerated child has the block size of its stride, and its parent is the enumerating rank. */
  lemma ChildIsOwn(n: nat, k: nat, p: nat, c: nat, m: nat, i: nat)
    requires k >= 2 && p < n && IsChild(n, k, p, c, m, i)
    ensures p < c && Top(n, k, c) == m && Parent(n, k, c) == p
  {
    TopIs(n, k, p);
    MultipleDown(p, k, m + 1, Top(n, k, p));
    HeadLevel(n, k, p, c, m, i);
  }

  /** Every rank but the root is enumerated by its parent. */
  lemma ParentEnumerates(n: nat, k: nat, c: nat) returns (i: nat)
    requires k >= 2 && 0 < c < n
    ensures Parent(n, k, c) < c && IsChild(n, k, Parent(n, k, c), c, Top(n, k, c), i)
  {
    var m := Top(n, k, c);
    var s, size := Pow(k, m), Pow(k, m + 1);
    TopIs(n, k, c);
    var p := Parent(n, k, c);
    FloorIs(c, size);
    MultipleRest(c, size);
    MultipleDown(p, k, m, m + 1);
    i := Quotient(k, m, p, c);
    TopAtLeast(n, k, p, m + 1);
  }

  /** The difference of two multiples of a power that are less than the next power apart. */
  lemma Quotient(k: nat, m: nat, p: nat, c: nat) returns (i: nat)
    requires k >= 2 && Multiple(p, Pow(k, m)) && Multiple(c, Pow(k, m)) && p < c < p + Pow(k, m + 1)
    ensures 1 <= i < k && c == p + Times(Pow(k, m), i)
  {
    var s := Pow(k, m);
    var a: nat :| p == Times(a, s);
    var b: nat :| c == Times(b, s);
    if b < a {
      TimesLess(b, a, s);
    }
    i := b - a;
    TimesSum(a, i, s);
    TimesSwap(s, i);
    if k < i {
      TimesLess(k, i, s);
    }
  }

  lemma ParentIsBelow(n: nat, k: nat, c: nat)
    requires k >= 2 && 0 < c < n
    ensures Parent(n, k, c) < c
  {
    var i := ParentEnumerates(n, k, c);
  }

  /** A rank enumerates exactly the ranks whose parent it is. */
  lemma ChildIffParent(n: nat, k: nat, p: nat, c: nat)
    requires k >= 2 && p < n && c < n
    ensures (exists m: nat, i: nat :: IsChild(n, k, p, c, m, i)) <==> c > 0 && Parent(n, k, c) == p
  {
    if m: nat, i: nat :| IsChild(n, k, p, c, m, i) {
      ChildIsOwn(n, k, p, c, m, i);
    }
    if c > 0 && Parent(n, k, c) == p {
      var i := ParentEnumerates(n, k, c);
    }
  }

  // ----- subtrees -----

  /** `v` is `w` or an ancestor of `w`. */
  predicate Above(n: nat, k: nat, v: nat, w: nat)
    requires k >= 2 && w < n
    decreases w
  {
    v == w || (w > 0 && Above(n, k, v, ParentBelow(n, k, w)))
  }

  function ParentBelow(n: nat, k: nat, w: nat): (p: nat)
    requires k >= 2 && 0 < w < n
    ensures p < w && p == Parent(n, k, w)
  {
    ParentIsBelow(n, k, w);
    Parent(n, k, w)
  }

  /** The ranks from `v` to the end of its block. */
  predicate InBlock(n: nat, k: nat, v: nat, w: nat)
    requires k >= 2
  {
    v <= w < v + Block(n, k, v)
  }

  /** Inside the block of `v` another rank heads a smaller block, which does not reach out of it. */
  lemma BlocksNest(n: nat, k: nat, v: nat, w: nat)
    requires k >= 2 && v < w < n && InBlock(n, k, v, w)
    ensures Top(n, k, w) < Top(n, k, v) && w + Block(n, k, w) <= v + Block(n, k, v)
    ensures v <= Parent(n, k, w)
  {
    var t, m := Top(n, k, v), Top(n, k, w);
    TopIs(n, k, v);
    TopIs(n, k, w);
    if t <= m {
      MultipleDown(w, k, t, m);
      MultiplesApart(v, w, Pow(k, t));
      assert false;
    }
    MultipleDown(v, k, m, t);
    PowMultiple(k, m, t);
    MultipleSum(v, Pow(k, t), Pow(k, m));
    MultiplesApart(w, v + Pow(k, t), Pow(k, m));
    MultipleDown(v, k, m + 1, t);
    FloorKeeps(v, w, Pow(k, m + 1));
  }

  /** Rounding down does not pass a multiple. */
  lemma FloorKeeps(v: nat, w: nat, d: nat)
    requires d > 0 && Multiple(v, d) && v <= w
    ensures v <= w - Rest(w, d)
  {
    FloorIs(w, d);
    if w - Rest(w, d) < v {
      MultiplesApart(w - Rest(w, d), v, d);
    }
  }

  /** A rank is in the block of `v` exactly if its parent is, or it is `v`. */
  lemma BlockOfParent(n: nat, k: nat, v: nat, w: nat)
    requires k >= 2 && v < n && 0 < w < n && v != w
    ensures InBlock(n, k, v, w) <==> InBlock(n, k, v, ParentBelow(n, k, w))
  {
    var p := ParentBelow(n, k, w);
    if InBlock(n, k, v, w) {
      BlocksNest(n, k, v, w);
    }
    if InBlock(n, k, v, p) {
      WithinParent(n, k, w);
      if v < p {
        BlocksNest(n, k, v, p);
      }
    }
  }

  lemma WithinParent(n: nat, k: nat, w: nat)
    requires k >= 2 && 0 < w < n
    ensures w < ParentBelow(n, k, w) + Block(n, k, ParentBelow(n, k, w))
  {
    var m, p := Top(n, k, w), ParentBelow(n, k, w);
    var i := ParentEnumerates(n, k, w);
    SmallPart(k, m, i);
    PowGrows(k, m + 1, Top(n, k, p));
  }

  /** The subtree of a rank is one interval that starts with the rank. */
  lemma {:induction false} SubtreeIsInterval(n: nat, k: nat, v: nat, w: nat)
    requires k >= 2 && v < n && w < n
    ensures Above(n, k, v, w) <==> InBlock(n, k, v, w)
    decreases w
  {
    if w > 0 && v != w {
      SubtreeIsInterval(n, k, v, ParentBelow(n, k, w));
      BlockOfParent(n, k, v, w);
    }
  }

  /** All ranks are below the root: the parents form a spanning tree. */
  lemma Spanning(n: nat, k: nat, w: nat)
    requires k >= 2 && w < n
    ensures Above(n, k, 0, w)
  {
    TopIs(n, k, 0);
    SubtreeIsInterval(n, k, 0, w);
  }
}
