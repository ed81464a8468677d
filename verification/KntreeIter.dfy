/** The iterator over the children of a rank, from the largest block to the smallest or the other way round. */
module KntreeIter {
  import opened Network
  import opened Cyclic
  import opened Kntree

  // ----- the children in both orders -----

  function Cell(k: nat, v: nat, m: nat, i: nat): nat
    requires k >= 2
  {
    v + Times(Pow(k, m), i)
  }

  function Here(n: nat, k: nat, v: nat, m: nat, i: nat): seq<nat>
    requires k >= 2
  {
    if Cell(k, v, m, i) < n then [Cell(k, v, m, i)] else []
  }

  /** The children of stride `Pow(k, m)` from the `i`-th on. */
  function Row(n: nat, k: nat, v: nat, m: nat, i: nat): seq<nat>
    requires k >= 2
    decreases k - i
  {
    if i >= k then [] else Here(n, k, v, m, i) + Row(n, k, v, m, i + 1)
  }

  /** The children of strides below `Pow(k, m)`, largest stride first. */
  function LeftKids(n: nat, k: nat, v: nat, m: nat): seq<nat>
    requires k >= 2
  {
    if m == 0 then [] else Row(n, k, v, m - 1, 1) + LeftKids(n, k, v, m - 1)
  }

  function Kids(n: nat, k: nat, v: nat): seq<nat>
    requires k >= 2
  {
    LeftKids(n, k, v, Top(n, k, v))
  }

  /** The children of stride `Pow(k, m)` from the `i`-th down. */
  function RowDown(n: nat, k: nat, v: nat, m: nat, i: nat): seq<nat>
    requires k >= 2
  {
    if i == 0 then [] else Here(n, k, v, m, i) + RowDown(n, k, v, m, i - 1)
  }

  /** The children of strides from `Pow(k, m)` up to `Pow(k, t)`, smallest stride first. */
  function RightKids(n: nat, k: nat, v: nat, m: nat, t: nat): seq<nat>
    requires k >= 2
    decreases t - m
  {
    if m >= t then [] else RowDown(n, k, v, m, k - 1) + RightKids(n, k, v, m + 1, t)
  }

  function Reversed(s: seq<nat>): seq<nat>
  {
    if s == [] then [] else Reversed(s[1..]) + [s[0]]
  }

  lemma {:induction false} ReversedConcat(x: seq<nat>, y: seq<nat>)
    ensures Reversed(x + y) == Reversed(y) + Reversed(x)
  {
    if x == [] {
      assert x + y == y;
    } else {
      assert (x + y)[0] == x[0] && (x + y)[1..] == x[1..] + y;
      ReversedConcat(x[1..], y);
    }
  }

  lemma Associative(x: seq<nat>, y: seq<nat>, z: seq<nat>)
    ensures (x + y) + z == x + (y + z)
  {
  }

  lemma ReversedHere(n: nat, k: nat, v: nat, m: nat, i: nat)
    requires k >= 2
    ensures Reversed(Here(n, k, v, m, i)) == Here(n, k, v, m, i)
  {
  }

  lemma {:induction false} RowReversed(n: nat, k: nat, v: nat, m: nat, i: nat)
    requires k >= 2 && 1 <= i <= k
    ensures Reversed(Row(n, k, v, m, i)) + RowDown(n, k, v, m, i - 1) == RowDown(n, k, v, m, k - 1)
    decreases k - i
  {
    if i < k {
      var here, rest := Here(n, k, v, m, i), Row(n, k, v, m, i + 1);
      var down := RowDown(n, k, v, m, i - 1);
      RowReversed(n, k, v, m, i + 1);
      assert RowDown(n, k, v, m, i) == here + down;
      ReversedConcat(here, rest);
      ReversedHere(n, k, v, m, i);
      Associative(Reversed(rest), here, down);
    } else {
      assert Reversed(Row(n, k, v, m, k)) == [];
    }
  }

  lemma {:induction false} RightSplit(n: nat, k: nat, v: nat, m: nat, t: nat)
    requires k >= 2 && m <= t
    ensures RightKids(n, k, v, m, t + 1) == RightKids(n, k, v, m, t) + RowDown(n, k, v, t, k - 1)
    decreases t - m
  {
    var row := RowDown(n, k, v, m, k - 1);
    assert RightKids(n, k, v, m, t + 1) == row + RightKids(n, k, v, m + 1, t + 1);
    if m < t {
      RightSplit(n, k, v, m + 1, t);
      Associative(row, RightKids(n, k, v, m + 1, t), RowDown(n, k, v, t, k - 1));
    }
  }

  lemma RowTurned(n: nat, k: nat, v: nat, m: nat)
    requires k >= 2
    ensures Reversed(Row(n, k, v, m, 1)) == RowDown(n, k, v, m, k - 1)
  {
    RowReversed(n, k, v, m, 1);
    assert RowDown(n, k, v, m, 0) == [];
  }

  /** Rightmost enumeration is the reverse of leftmost enumeration. */
  lemma {:induction false} RightIsReversed(n: nat, k: nat, v: nat, t: nat)
    requires k >= 2
    ensures RightKids(n, k, v, 0, t) == Reversed(LeftKids(n, k, v, t))
    decreases t
  {
    if t > 0 {
      var m, row, kids := t - 1, Row(n, k, v, t - 1, 1), LeftKids(n, k, v, t - 1);
      RightIsReversed(n, k, v, m);
      RightSplit(n, k, v, 0, m);
      RowTurned(n, k, v, m);
      ReversedConcat(row, kids);
    }
  }

  lemma {:induction false} RowMember(n: nat, k: nat, v: nat, m: nat, i: nat, c: nat) returns (j: nat)
    requires k >= 2 && c in Row(n, k, v, m, i)
    ensures i <= j < k && c == Cell(k, v, m, j) && c < n
    decreases k - i
  {
    if c in Here(n, k, v, m, i) {
      j := i;
    } else {
      j := RowMember(n, k, v, m, i + 1, c);
    }
  }

  lemma {:induction false} RowHas(n: nat, k: nat, v: nat, m: nat, i: nat, j: nat)
    requires k >= 2 && i <= j < k && Cell(k, v, m, j) < n
    ensures Cell(k, v, m, j) in Row(n, k, v, m, i)
    decreases k - i
  {
    if i < j {
      RowHas(n, k, v, m, i + 1, j);
    }
  }

  lemma {:induction false} KidMember(n: nat, k: nat, v: nat, t: nat, c: nat) returns (m: nat, i: nat)
    requires k >= 2 && c in LeftKids(n, k, v, t)
    ensures m < t && 1 <= i < k && c == Cell(k, v, m, i) && c < n
    decreases t
  {
    if c in Row(n, k, v, t - 1, 1) {
      m := t - 1;
      i := RowMember(n, k, v, t - 1, 1, c);
    } else {
      m, i := KidMember(n, k, v, t - 1, c);
    }
  }

  lemma {:induction false} KidHas(n: nat, k: nat, v: nat, t: nat, m: nat, i: nat)
    requires k >= 2 && m < t && 1 <= i < k && Cell(k, v, m, i) < n
    ensures Cell(k, v, m, i) in LeftKids(n, k, v, t)
    decreases t
  {
    if m == t - 1 {
      RowHas(n, k, v, m, 1, i);
    } else {
      KidHas(n, k, v, t - 1, m, i);
    }
  }

  /** A rank is enumerated by `v` exactly if `v` is its parent. */
  lemma KidsAreChildren(n: nat, k: nat, v: nat, c: nat)
    requires k >= 2 && v < n && c < n
    ensures c in Kids(n, k, v) <==> c > 0 && Parent(n, k, c) == v
  {
    if c in Kids(n, k, v) {
      var m, i := KidMember(n, k, v, Top(n, k, v), c);
      assert IsChild(n, k, v, c, m, i);
      ChildIsOwn(n, k, v, c, m, i);
    }
    if c > 0 && Parent(n, k, c) == v {
      var i := ParentEnumerates(n, k, c);
      KidHas(n, k, v, Top(n, k, v), Top(n, k, c), i);
    }
  }

  /** Children come by falling level, and at one level in ascending order. */
  predicate InOrder(n: nat, k: nat, kids: seq<nat>)
    requires k >= 2
  {
    forall i: nat, j: nat :: i < j < |kids| ==> Earlier(n, k, kids[i], kids[j])
  }

  predicate Earlier(n: nat, k: nat, a: nat, b: nat)
    requires k >= 2
  {
    Top(n, k, a) > Top(n, k, b) || (Top(n, k, a) == Top(n, k, b) && a < b)
  }

  lemma OrderConcat(n: nat, k: nat, x: seq<nat>, y: seq<nat>)
    requires k >= 2 && InOrder(n, k, x) && InOrder(n, k, y)
    requires forall a, b :: a in x && b in y ==> Earlier(n, k, a, b)
    ensures InOrder(n, k, x + y)
  {
    forall i: nat, j: nat | i < j < |x + y| ensures Earlier(n, k, (x + y)[i], (x + y)[j]) {
      if i < |x| <= j {
        assert x[i] in x && y[j - |x|] in y;
      }
    }
  }

  lemma {:induction false} RowInOrder(n: nat, k: nat, v: nat, m: nat, i: nat)
    requires k >= 2 && v < n && Multiple(v, Pow(k, m + 1)) && 1 <= i
    ensures InOrder(n, k, Row(n, k, v, m, i))
    decreases k - i
  {
    if i < k {
      RowInOrder(n, k, v, m, i + 1);
      forall a, b | a in Here(n, k, v, m, i) && b in Row(n, k, v, m, i + 1) ensures Earlier(n, k, a, b) {
        var j := RowMember(n, k, v, m, i + 1, b);
        HeadLevel(n, k, v, a, m, i);
        HeadLevel(n, k, v, b, m, j);
        CellsAscend(k, v, m, i, j);
      }
      OrderConcat(n, k, Here(n, k, v, m, i), Row(n, k, v, m, i + 1));
    }
  }

  lemma CellsAscend(k: nat, v: nat, m: nat, i: nat, j: nat)
    requires k >= 2 && i < j
    ensures Cell(k, v, m, i) < Cell(k, v, m, j)
  {
    TimesIs(Pow(k, m), i);
    TimesIs(Pow(k, m), j);
    NonNegative(Pow(k, m) - 1, j - i);
    assert Pow(k, m) * j == Pow(k, m) * i + (Pow(k, m) - 1) * (j - i) + (j - i);
  }

  lemma {:induction false} LeftKidsInOrder(n: nat, k: nat, v: nat, t: nat)
    requires k >= 2 && v < n && Multiple(v, Pow(k, t))
    ensures InOrder(n, k, LeftKids(n, k, v, t))
    decreases t
  {
    if t > 0 {
      MultipleDown(v, k, t - 1, t);
      LeftKidsInOrder(n, k, v, t - 1);
      RowInOrder(n, k, v, t - 1, 1);
      RowBeforeRest(n, k, v, t - 1, t);
      OrderConcat(n, k, Row(n, k, v, t - 1, 1), LeftKids(n, k, v, t - 1));
    }
  }

  lemma RowBeforeRest(n: nat, k: nat, v: nat, m: nat, t: nat)
    requires k >= 2 && v < n && t == m + 1 && Multiple(v, Pow(k, t))
    ensures forall a, b :: a in Row(n, k, v, m, 1) && b in LeftKids(n, k, v, m) ==> Earlier(n, k, a, b)
  {
    forall a, b | a in Row(n, k, v, m, 1) && b in LeftKids(n, k, v, m) ensures Earlier(n, k, a, b) {
      var i := RowMember(n, k, v, m, 1, a);
      var l, j := KidMember(n, k, v, m, b);
      HeadLevel(n, k, v, a, m, i);
      MultipleDown(v, k, l + 1, t);
      HeadLevel(n, k, v, b, l, j);
    }
  }

  /** Leftmost order: large blocks first, and blocks of one size from left to right. */
  lemma LeftmostOrder(n: nat, k: nat, v: nat)
    requires k >= 2 && v < n
    ensures InOrder(n, k, Kids(n, k, v))
  {
    TopIs(n, k, v);
    LeftKidsInOrder(n, k, v, Top(n, k, v));
  }

  // ----- subtree sizes -----

  function Clip(n: nat, x: nat): nat
  {
    if x < n then x else n
  }

  /** The number of ranks in the subtree of `v`. */
  function SubSize(n: nat, k: nat, v: nat): nat
    requires k >= 2 && v < n
  {
    Clip(n, v + Block(n, k, v)) - v
  }

  function SumSizes(n: nat, k: nat, kids: seq<nat>): nat
    requires k >= 2
  {
    if kids == [] then 0 else (if kids[0] < n then SubSize(n, k, kids[0]) else 0) + SumSizes(n, k, kids[1..])
  }

  lemma {:induction false} SumConcat(n: nat, k: nat, x: seq<nat>, y: seq<nat>)
    requires k >= 2
    ensures SumSizes(n, k, x + y) == SumSizes(n, k, x) + SumSizes(n, k, y)
  {
    if x == [] {
      assert x + y == y;
    } else {
      assert (x + y)[0] == x[0] && (x + y)[1..] == x[1..] + y;
      SumConcat(n, k, x[1..], y);
    }
  }

  /** The subtree of a child ends where the next child of the same stride begins. */
  lemma CellSize(n: nat, k: nat, v: nat, m: nat, i: nat)
    requires k >= 2 && v < n && Multiple(v, Pow(k, m + 1)) && 1 <= i < k
    ensures Cell(k, v, m, i + 1) == Cell(k, v, m, i) + Pow(k, m)
    ensures SumSizes(n, k, Here(n, k, v, m, i)) == Clip(n, Cell(k, v, m, i + 1)) - Clip(n, Cell(k, v, m, i))
  {
    var c := Cell(k, v, m, i);
    TimesNext(Pow(k, m), i);
    if c < n {
      HeadLevel(n, k, v, c, m, i);
      assert [c][1..] == [];
      assert SumSizes(n, k, [c]) == SubSize(n, k, c) + SumSizes(n, k, []);
    }
  }

  lemma TimesNext(a: nat, b: nat)
    ensures Times(a, b + 1) == Times(a, b) + a
  {
    TimesIs(a, b + 1);
    TimesIs(a, b);
    assert a * (b + 1) == a * b + a;
  }

  lemma FirstCell(k: nat, v: nat, m: nat)
    requires k >= 2
    ensures Cell(k, v, m, 1) == v + Pow(k, m)
  {
    TimesIs(Pow(k, m), 1);
  }

  lemma LastCell(k: nat, v: nat, m: nat)
    requires k >= 2
    ensures Cell(k, v, m, k) == v + Pow(k, m + 1)
  {
    TimesSwap(Pow(k, m), k);
  }

  lemma {:induction false} RowSizes(n: nat, k: nat, v: nat, m: nat, i: nat)
    requires k >= 2 && v < n && Multiple(v, Pow(k, m + 1)) && 1 <= i <= k
    ensures SumSizes(n, k, Row(n, k, v, m, i)) == Clip(n, v + Pow(k, m + 1)) - Clip(n, Cell(k, v, m, i))
    decreases k - i
  {
    if i < k {
      CellSize(n, k, v, m, i);
      RowSizes(n, k, v, m, i + 1);
      SumConcat(n, k, Here(n, k, v, m, i), Row(n, k, v, m, i + 1));
    } else {
      LastCell(k, v, m);
    }
  }

  /** The subtrees of the children of strides below `Pow(k, t)` fill the block of that size, but for its head. */
  lemma {:induction false} KidsSizes(n: nat, k: nat, v: nat, t: nat)
    requires k >= 2 && v < n && Multiple(v, Pow(k, t))
    ensures SumSizes(n, k, LeftKids(n, k, v, t)) == Clip(n, v + Pow(k, t)) - (v + 1)
    decreases t
  {
    if t == 0 {
      assert Clip(n, v + 1) == v + 1;
    } else {
      MultipleDown(v, k, t - 1, t);
      KidsSizes(n, k, v, t - 1);
      OneStride(n, k, v, t - 1, t);
    }
  }

  /** What the children of one stride add. */
  lemma OneStride(n: nat, k: nat, v: nat, m: nat, t: nat)
    requires k >= 2 && v < n && t == m + 1 && Multiple(v, Pow(k, t))
    ensures SumSizes(n, k, LeftKids(n, k, v, t))
         == SumSizes(n, k, LeftKids(n, k, v, m)) + Clip(n, v + Pow(k, t)) - Clip(n, v + Pow(k, m))
  {
    var row, rest := Row(n, k, v, m, 1), LeftKids(n, k, v, m);
    RowSizes(n, k, v, m, 1);
    FirstCell(k, v, m);
    SumConcat(n, k, row, rest);
    assert LeftKids(n, k, v, t) == row + rest;
  }

  // ----- the iterator -----

  /** The children that are left when the search stands in the blocks of size `Pow(k, m)` at the `i`-th stride. */
  function LeftRest(n: nat, k: nat, v: nat, m: nat, i: nat): seq<nat>
    requires k >= 2
  {
    if m == 0 then [] else Row(n, k, v, m - 1, i) + LeftKids(n, k, v, m - 1)
  }

  function RightRest(n: nat, k: nat, v: nat, m: nat, i: nat, t: nat): seq<nat>
    requires k >= 2 && 1 <= i <= k
  {
    if m >= t then [] else RowDown(n, k, v, m, k - i) + RightKids(n, k, v, m + 1, t)
  }

  lemma DividePow(k: nat, m: nat)
    requires k >= 2
    ensures Pow(k, m) / k == if m == 0 then 0 else Pow(k, m - 1)
  {
    if m == 0 {
      ModUnique(1, k, 0, 1);
    } else {
      TimesIs(k, Pow(k, m - 1));
      ModUnique(Pow(k, m), k, Pow(k, m - 1), 0);
    }
  }

  /** The search among the children of one stride, from the near end. */
  method SearchUp(n: nat, k: nat, v: nat, stride: nat, childIdx: nat, ghost m: nat)
    returns (child: Option<nat>, childIdx': nat)
    requires k >= 2 && stride == Pow(k, m) && 1 <= childIdx <= k
    ensures 1 <= childIdx' <= k && Row(n, k, v, m, childIdx') == Row(n, k, v, m, childIdx)
    ensures child.Some? ==> childIdx' < k && child.value == Cell(k, v, m, childIdx') < n
    ensures child.None? ==> childIdx' == k
    ensures child == FirstInRow(n, k, v, stride, childIdx)
  {
    childIdx' := childIdx;
    while childIdx' < k
      invariant 1 <= childIdx' <= k
      invariant Row(n, k, v, m, childIdx') == Row(n, k, v, m, childIdx)
      invariant FirstInRow(n, k, v, stride, childIdx') == FirstInRow(n, k, v, stride, childIdx)
    {
      var c := v + stride * childIdx';
      TimesIs(stride, childIdx');
      assert c == Cell(k, v, m, childIdx');
      if c < n {
        return Some(c), childIdx';
      }
      childIdx' := childIdx' + 1;
    }
    return None, childIdx';
  }

  lemma LeftNext(n: nat, k: nat, v: nat, m: nat)
    requires k >= 2 && m > 0
    ensures LeftRest(n, k, v, m, k) == LeftRest(n, k, v, m - 1, 1)
  {
  }

  /** The search for the next child, from large blocks to small ones. */
  method NextLeft(n: nat, k: nat, v: nat, subsize: nat, childIdx: nat, ghost m: nat)
    returns (child: Option<nat>, subsize': nat, childIdx': nat, ghost m': nat)
    requires k >= 2 && subsize == Pow(k, m) && 1 <= childIdx <= k
    ensures subsize' == Pow(k, m') && 1 <= childIdx' <= k && m' <= m
    ensures LeftRest(n, k, v, m', childIdx') == LeftRest(n, k, v, m, childIdx)
    ensures child.Some? ==> m' > 0 && childIdx' < k && child.value == Cell(k, v, m' - 1, childIdx') < n
    ensures child.None? ==> LeftRest(n, k, v, m, childIdx) == []
    ensures exists rounds: nat :: SearchAfter(n, k, v, subsize, childIdx, rounds) == FromOption(child)
  {
    subsize', childIdx', m' := subsize, childIdx, m;
    DividePow(k, m);
    var stride: nat := subsize / k;
    ghost var rounds: nat := 0;
    while stride > 0
      invariant SearchAfter(n, k, v, subsize, childIdx, rounds) == At(stride) && childIdx' == IdxIn(rounds, childIdx)
      invariant subsize' == Pow(k, m') && 1 <= childIdx' <= k && m' <= m
      invariant stride == if m' == 0 then 0 else Pow(k, m' - 1)
      invariant LeftRest(n, k, v, m', childIdx') == LeftRest(n, k, v, m, childIdx)
      decreases m'
    {
      child, childIdx' := SearchUp(n, k, v, stride, childIdx', m' - 1);
      NextRound(n, k, v, subsize, childIdx, rounds, stride);
      rounds := rounds + 1;
      if child.Some? {
        return;
      }
      LeftNext(n, k, v, m');
      subsize' := stride;
      childIdx' := 1;
      m' := m' - 1;
      DividePow(k, m');
      stride := stride / k;
    }
    return None, subsize', childIdx', m';
  }

  /** The search among the children of one stride, from the far end. */
  method SearchDown(n: nat, k: nat, v: nat, subsize: nat, childIdx: nat, ghost m: nat)
    returns (child: Option<nat>, childIdx': nat)
    requires k >= 2 && subsize == Pow(k, m) && 1 <= childIdx <= k
    ensures 1 <= childIdx' <= k && RowDown(n, k, v, m, k - childIdx') == RowDown(n, k, v, m, k - childIdx)
    ensures child.Some? ==> childIdx' < k && child.value == Cell(k, v, m, k - childIdx') < n
    ensures child.None? ==> childIdx' == k
  {
    childIdx' := childIdx;
    var i := k - childIdx';
    while i > 0
      invariant i == k - childIdx' && 1 <= childIdx' <= k
      invariant RowDown(n, k, v, m, k - childIdx') == RowDown(n, k, v, m, k - childIdx)
    {
      var c := v + subsize * i;
      TimesIs(subsize, i);
      assert c == Cell(k, v, m, i);
      if c < n {
        return Some(c), childIdx';
      }
      i := i - 1;
      childIdx' := childIdx' + 1;
    }
    return None, childIdx';
  }

  lemma BelowTop(k: nat, m: nat, t: nat)
    requires k >= 2 && m <= t
    ensures Pow(k, m) < Pow(k, t) <==> m < t
  {
    PowGrows(k, m, t);
  }

  lemma RightNext(n: nat, k: nat, v: nat, m: nat, t: nat)
    requires k >= 2 && m < t
    ensures RightRest(n, k, v, m, k, t) == RightRest(n, k, v, m + 1, 1, t)
  {
  }

  /** The degree of the tree: a tree of one rank may have degree one, which then plays no part. */
  function TreeDegree(degree: nat): (k: nat)
    ensures k >= 2
  {
    if degree < 2 then 2 else degree
  }

  /** The search from small blocks to large ones. */
  method NextRight(n: nat, degree: nat, v: nat, maxSubsize: nat, subsize: nat, childIdx: nat,
                   ghost k: nat, ghost m: nat, ghost t: nat)
    returns (child: Option<nat>, subsize': nat, childIdx': nat, ghost m': nat)
    requires k == TreeDegree(degree) && (degree < 2 ==> t == 0)
    requires subsize == Pow(k, m) && maxSubsize == Pow(k, t) && m <= t && 1 <= childIdx <= k
    ensures subsize' == Pow(k, m') && 1 <= childIdx' <= k && m' <= t
    ensures RightRest(n, k, v, m', childIdx', t) == RightRest(n, k, v, m, childIdx, t)
    ensures child.Some? ==> m' < t && childIdx' < k && child.value == Cell(k, v, m', k - childIdx') < n
    ensures child.None? ==> RightRest(n, k, v, m, childIdx, t) == []
  {
    subsize', childIdx', m' := subsize, childIdx, m;
    BelowTop(k, m', t);
    ghost var rest := RightRest(n, k, v, m, childIdx, t);
    while subsize' < maxSubsize
      invariant subsize' == Pow(k, m') && 1 <= childIdx' <= k && m' <= t
      invariant subsize' < maxSubsize <==> m' < t
      invariant RightRest(n, k, v, m', childIdx', t) == rest
      decreases t - m'
    {
      child, childIdx' := SearchStride(n, degree, v, subsize', childIdx', k, m', t);
      if child.Some? {
        return;
      }
      RightNext(n, k, v, m', t);
      subsize' := NextPower(degree, subsize', maxSubsize, m', t);
      m' := m' + 1;
      childIdx' := 1;
    }
    return None, subsize', childIdx', m';
  }

  /** The search among the children of one stride, from the far end. */
  method SearchStride(n: nat, degree: nat, v: nat, subsize: nat, childIdx: nat, ghost k: nat, ghost m: nat, ghost t: nat)
    returns (child: Option<nat>, childIdx': nat)
    requires k == degree >= 2 && subsize == Pow(k, m) && m < t && 1 <= childIdx <= k
    ensures 1 <= childIdx' <= k && RightRest(n, k, v, m, childIdx', t) == RightRest(n, k, v, m, childIdx, t)
    ensures if child.Some? then childIdx' < k && child.value == Cell(k, v, m, k - childIdx') < n else childIdx' == k
  {
    child, childIdx' := SearchDown(n, degree, v, subsize, childIdx, m);
  }

  method NextPower(k: nat, x: nat, max: nat, ghost m: nat, ghost t: nat) returns (y: nat)
    requires k >= 2 && x == Pow(k, m) && max == Pow(k, t) && m < t
    ensures y == Pow(k, m + 1) && (y < max <==> m + 1 < t)
  {
    BelowTop(k, m + 1, t);
    TimesIs(k, x);
    y := x * k;
  }

  // ----- the iterator as an object -----

  /** The children left, in either order; `t` is the level of `v`. */
  function Remaining(n: nat, k: nat, v: nat, leftmost: bool, m: nat, i: nat, t: nat): seq<nat>
    requires k >= 2 && 1 <= i <= k
  {
    if leftmost then LeftRest(n, k, v, m, i) else RightRest(n, k, v, m, i, t)
  }

  lemma LeftHere(n: nat, k: nat, v: nat, m: nat, i: nat)
    requires k >= 2 && 1 <= i < k && m > 0 && Cell(k, v, m - 1, i) < n
    ensures LeftRest(n, k, v, m, i) == [Cell(k, v, m - 1, i)] + LeftRest(n, k, v, m, i + 1)
  {
  }

  lemma RightHere(n: nat, k: nat, v: nat, m: nat, i: nat, t: nat)
    requires k >= 2 && 1 <= i < k && m < t && Cell(k, v, m, k - i) < n
    ensures RightRest(n, k, v, m, i, t) == [Cell(k, v, m, k - i)] + RightRest(n, k, v, m, i + 1, t)
  {
    var j: nat := k - i;
    assert RowDown(n, k, v, m, j) == Here(n, k, v, m, j) + RowDown(n, k, v, m, j - 1);
    Associative(Here(n, k, v, m, j), RowDown(n, k, v, m, j - 1), RightKids(n, k, v, m + 1, t));
  }

  /** The next position that has a child. */
  method NextChild(n: nat, degree: nat, v: nat, leftmost: bool, maxSubsize: nat, subsize: nat, childIdx: nat,
                   ghost k: nat, ghost m: nat, ghost t: nat)
    returns (child: Option<nat>, subsize': nat, childIdx': nat, ghost m': nat)
    requires k == TreeDegree(degree) && (degree < 2 ==> !leftmost && t == 0)
    requires subsize == Pow(k, m) && maxSubsize == Pow(k, t) && m <= t && 1 <= childIdx <= k
    ensures subsize' == Pow(k, m') && 1 <= childIdx' <= k && m' <= t
    ensures Remaining(n, k, v, leftmost, m', childIdx', t) == Remaining(n, k, v, leftmost, m, childIdx, t)
    ensures var rest := Remaining(n, k, v, leftmost, m, childIdx, t);
      && (rest == [] ==> child.None?)
      && (rest != [] ==>
            && child == Some(rest[0]) && rest[0] < n && childIdx' < k
            && Remaining(n, k, v, leftmost, m', childIdx' + 1, t) == rest[1..])
  {
    if leftmost {
      child, subsize', childIdx', m' := NextLeft(n, degree, v, subsize, childIdx, m);
      if child.Some? {
        LeftHere(n, k, v, m', childIdx');
      }
    } else {
      child, subsize', childIdx', m' := NextRight(n, degree, v, maxSubsize, subsize, childIdx, k, m, t);
      if child.Some? {
        RightHere(n, k, v, m', childIdx', t);
      }
    }
  }

  method RankOf(size: nat, root: nat, next: Option<nat>, ghost rest: seq<nat>) returns (child: Option<nat>)
    requires root < size && AllBelow(rest, size) && next == if rest == [] then None else Some(rest[0])
    ensures child == First(size, root, rest)
  {
    if next.None? {
      return None;
    }
    ModWrap(next.value + root, size);
    child := Some((next.value + root) % size);
  }

  /** The child at the next position that has one, as a rank. */
  method NextRank(n: nat, degree: nat, root: nat, v: nat, leftmost: bool, maxSubsize: nat, subsize: nat, childIdx: nat,
                  ghost k: nat, ghost m: nat, ghost t: nat)
    returns (child: Option<nat>, subsize': nat, childIdx': nat, ghost m': nat)
    requires root < n && v < n && k == TreeDegree(degree) && t == Top(n, k, v) && (degree < 2 ==> n < 2 && !leftmost)
    requires subsize == Pow(k, m) && maxSubsize == Pow(k, t) && m <= t && 1 <= childIdx <= k
    ensures subsize' == Pow(k, m') && 1 <= childIdx' <= k && m' <= t
    ensures var rest := Remaining(n, k, v, leftmost, m, childIdx, t);
      && Remaining(n, k, v, leftmost, m', childIdx', t) == rest && AllBelow(rest, n) && child == First(n, root, rest)
      && (rest != [] ==> childIdx' < k && Remaining(n, k, v, leftmost, m', childIdx' + 1, t) == rest[1..])
  {
    RemainingInRange(n, k, v, leftmost, m, childIdx, t);
    OneRank(n, k, v);
    var next;
    next, subsize', childIdx', m' := NextChild(n, degree, v, leftmost, maxSubsize, subsize, childIdx, k, m, t);
    child := RankOf(n, root, next, Remaining(n, k, v, leftmost, m, childIdx, t));
  }

  /** The degree that is used instead of one that is too small or too large. */
  function ClampDegree(degree: int, size: nat): nat
  {
    if degree <= 1 then 2 else if degree > size then size else degree
  }

  /** The rank of virtual rank `v`, and the other way round. */
  function Actual(n: nat, root: nat, v: nat): nat
    requires root < n && v < n
  {
    Wrap(v + root, n)
  }

  function Virtual(n: nat, root: nat, r: nat): (v: nat)
    requires root < n && r < n
    ensures v < n && Actual(n, root, v) == r
  {
    Wrap(r - root, n)
  }

  /** A virtual rank is the distance behind the root, as the remainder that the code takes. */
  lemma VirtualIs(n: nat, root: nat, r: nat)
    requires root < n && r < n
    ensures Virtual(n, root, r) == (r + n - root) % n
  {
    ModUnique(r + n - root, n, if r < root then 0 else 1, Virtual(n, root, r));
  }

  lemma VirtualActual(n: nat, root: nat, v: nat)
    requires root < n && v < n
    ensures Actual(n, root, v) < n && Virtual(n, root, Actual(n, root, v)) == v
  {
  }

  predicate AllBelow(s: seq<nat>, n: nat)
  {
    forall i: nat :: i < |s| ==> s[i] < n
  }

  /** The child that stands first among the ones left, as a rank. */
  function First(n: nat, root: nat, rest: seq<nat>): Option<nat>
    requires root < n && AllBelow(rest, n)
  {
    if rest == [] then None else Some(Actual(n, root, rest[0]))
  }

  /** The search for the parent: how large the block of `v` is, and who is the head around it. */
  method FindParent(size: nat, degree: nat, v: nat) returns (parent: Option<nat>, maxSubsize: nat)
    requires degree >= 1 && (size >= 2 ==> degree >= 2) && v < size
    ensures maxSubsize == Pow(TreeDegree(degree), Top(size, TreeDegree(degree), v))
    ensures parent == if v == 0 then None else Some(Parent(size, TreeDegree(degree), v))
  {
    ghost var k := TreeDegree(degree);
    parent := None;
    var subsize := 1;
    ghost var m: nat := 0;
    while subsize < size
      invariant subsize == Pow(k, m) && parent == None
      invariant Top(size, k, v) == TopFrom(size, k, v, m)
      decreases size - subsize
    {
      PowNext(k, m);
      TimesIs(degree, subsize);
      var nextSubsize := subsize * degree;
      RestIs(v, nextSubsize);
      if v % nextSubsize != 0 {
        parent := Some(v / nextSubsize * nextSubsize);
        break;
      }
      subsize := nextSubsize;
      m := m + 1;
    }
    maxSubsize := subsize;
    TopIs(size, k, v);
  }

  method ActualParent(size: nat, degree: nat, root: nat, v: nat) returns (parent: Option<nat>, maxSubsize: nat)
    requires degree >= 1 && (size >= 2 ==> degree >= 2) && v < size && root < size
    ensures maxSubsize == Pow(TreeDegree(degree), Top(size, TreeDegree(degree), v))
    ensures parent == if v == 0 then None else Some(Actual(size, root, ParentBelow(size, TreeDegree(degree), v)))
  {
    var above;
    above, maxSubsize := FindParent(size, degree, v);
    if above.None? {
      return None, maxSubsize;
    }
    ParentIsBelow(size, TreeDegree(degree), v);
    var p := Forward(above.value, root, size);
    parent := Some(p);
  }

  class Iterator {
    const size: nat
    const degree: nat
    const root: nat
    const myrank: nat          // virtual
    const leftmost: bool
    const maxSubsize: nat
    const parent: Option<nat>
    var subsize: nat
    var childIdx: nat
    var child: Option<nat>
    ghost var level: nat       // the power that `subsize` is
    ghost var rest: seq<nat>   // the children left, `child` first, as virtual ranks

    /** The degree of the tree; `degree` itself is one only in a tree of one rank. */
    ghost function K(): (k: nat)
      ensures k >= 2
    {
      TreeDegree(degree)
    }

    ghost function Levels(): nat
    {
      Top(size, K(), myrank)
    }

    /** The children left from the `i`-th of the current stride on. */
    ghost function LeftFrom(i: nat): seq<nat>
      requires 1 <= i <= K()
      reads this
    {
      Remaining(size, K(), myrank, leftmost, level, i, Levels())
    }

    ghost predicate Positioned()
      reads this
    {
      && degree >= 1 && (size >= 2 || leftmost ==> degree >= 2)
      && root < size && myrank < size && maxSubsize == Pow(K(), Levels())
      && subsize == Pow(K(), level) && level <= Levels() && 1 <= childIdx <= K()
    }

    ghost predicate Valid()
      reads this
    {
      && Positioned() && rest == LeftFrom(childIdx) && AllBelow(rest, size)
      && child == First(size, root, rest)
      && (rest != [] ==> childIdx < K() && rest[1..] == LeftFrom(childIdx + 1))
    }

    /** The children in the order of this iterator. */
    ghost function Children(): seq<nat>
    {
      if leftmost then Kids(size, K(), myrank) else Reversed(Kids(size, K(), myrank))
    }

    /** For one rank, a degree of two or more and leftmost order the first search does not end, see
        `LeftSearchEndsIff`. */
    constructor (size: nat, degree: int, root: nat, rank: nat, leftmost: bool)
      requires root < size && rank < size && (size >= 2 || degree <= 1 || !leftmost)
      ensures Valid() && rest == Children()
      ensures this.size == size && this.root == root && this.leftmost == leftmost
      ensures this.degree == ClampDegree(degree, size)
      ensures this.degree == (if degree <= 1 then 2 else if size <= degree then size else degree)
      ensures myrank == Virtual(size, root, rank)
      ensures parent == if rank == root then None else Some(Actual(size, root, ParentBelow(size, K(), myrank)))
    {
      var d := if degree <= 1 then 2 else if degree > size then size else degree;
      var v := Backward(rank, root, size);
      var above, maxSubsize := ActualParent(size, d, root, v);
      this.size, this.degree, this.root, this.myrank, this.leftmost := size, d, root, v, leftmost;
      this.maxSubsize, parent := maxSubsize, above;
      subsize := if leftmost then maxSubsize else 1;
      level := if leftmost then Top(size, TreeDegree(d), v) else 0;
      childIdx := 1;
      child, rest := None, [];
      new;
      StartsWithAll();
      Update();
    }

    lemma StartsWithAll()
      requires Positioned() && childIdx == 1 && level == if leftmost then Levels() else 0
      ensures LeftFrom(1) == Children()
    {
      if !leftmost {
        RightIsReversed(size, K(), myrank, Levels());
      }
    }

    /** The next position that has a child; `left` are the children left from here on. */
    method Find(ghost left: seq<nat>)
      returns (next: Option<nat>, subsize': nat, childIdx': nat, ghost level': nat)
      requires Positioned() && left == LeftFrom(childIdx)
      ensures subsize' == Pow(K(), level') && 1 <= childIdx' <= K() && level' <= Levels()
      ensures Remaining(size, K(), myrank, leftmost, level', childIdx', Levels()) == left
      ensures AllBelow(left, size) && next == First(size, root, left)
      ensures left != [] ==>
        childIdx' < K() && Remaining(size, K(), myrank, leftmost, level', childIdx' + 1, Levels()) == left[1..]
    {
      next, subsize', childIdx', level' :=
        NextRank(size, degree, root, myrank, leftmost, maxSubsize, subsize, childIdx, K(), level, Levels());
    }

    /** Moves on to the next position that has a child. */
    method Update()
      requires Positioned()
      modifies this`subsize, this`childIdx, this`child, this`level, this`rest
      ensures Valid() && rest == old(LeftFrom(childIdx))
    {
      ghost var left := LeftFrom(childIdx);
      var next, size', idx', level' := Find(left);
      child, subsize, childIdx, level, rest := next, size', idx', level', left;
    }

    method Reset()
      requires Valid()
      modifies this
      ensures Valid() && rest == Children()
    {
      subsize := if leftmost then maxSubsize else 1;
      level := if leftmost then Levels() else 0;
      childIdx := 1;
      StartsWithAll();
      Update();
    }

    /** Goes to the next child. */
    method ChildInc()
      requires Valid() && child.Some?
      modifies this
      ensures Valid() && rest == old(rest)[1..]
    {
      childIdx := childIdx + 1;
      Update();
    }
  }

  /** A tree of one rank is one block of size one. */
  lemma OneRank(n: nat, k: nat, v: nat)
    requires k >= 2
    ensures n == 1 ==> Top(n, k, v) == 0
  {
  }

  lemma RowInRange(n: nat, k: nat, v: nat, m: nat, i: nat)
    requires k >= 2
    ensures forall c :: c in Row(n, k, v, m, i) ==> c < n
  {
    forall c | c in Row(n, k, v, m, i) ensures c < n {
      var j := RowMember(n, k, v, m, i, c);
    }
  }

  lemma KidsInRange(n: nat, k: nat, v: nat, m: nat)
    requires k >= 2
    ensures forall c :: c in LeftKids(n, k, v, m) ==> c < n
  {
    forall c | c in LeftKids(n, k, v, m) ensures c < n {
      var l, j := KidMember(n, k, v, m, c);
    }
  }

  lemma LeftInRange(n: nat, k: nat, v: nat, m: nat, i: nat)
    requires k >= 2
    ensures forall c :: c in LeftRest(n, k, v, m, i) ==> c < n
  {
    if m > 0 {
      RowInRange(n, k, v, m - 1, i);
      KidsInRange(n, k, v, m - 1);
    }
  }

  lemma {:induction false} DownInRange(n: nat, k: nat, v: nat, m: nat, i: nat)
    requires k >= 2
    ensures forall c :: c in RowDown(n, k, v, m, i) ==> c < n
  {
    if i > 0 {
      DownInRange(n, k, v, m, i - 1);
    }
  }

  lemma {:induction false} RightKidsInRange(n: nat, k: nat, v: nat, m: nat, t: nat)
    requires k >= 2
    ensures forall c :: c in RightKids(n, k, v, m, t) ==> c < n
    decreases t - m
  {
    if m < t {
      DownInRange(n, k, v, m, k - 1);
      RightKidsInRange(n, k, v, m + 1, t);
    }
  }

  lemma RightInRange(n: nat, k: nat, v: nat, m: nat, i: nat, t: nat)
    requires k >= 2 && 1 <= i <= k
    ensures forall c :: c in RightRest(n, k, v, m, i, t) ==> c < n
  {
    if m < t {
      DownInRange(n, k, v, m, k - i);
      RightKidsInRange(n, k, v, m + 1, t);
    }
  }

  lemma RemainingInRange(n: nat, k: nat, v: nat, leftmost: bool, m: nat, i: nat, t: nat)
    requires k >= 2 && 1 <= i <= k
    ensures AllBelow(Remaining(n, k, v, leftmost, m, i, t), n)
  {
    var rest := Remaining(n, k, v, leftmost, m, i, t);
    if leftmost {
      LeftInRange(n, k, v, m, i);
    } else {
      RightInRange(n, k, v, m, i, t);
    }
    forall j: nat | j < |rest| ensures rest[j] < n {
      assert rest[j] in rest;
    }
  }

  /** The iterator stands at the `i`-th child. */
  ghost predicate Standing(iter: Iterator, n: nat, root: nat, kids: seq<nat>, i: nat)
    reads iter
  {
    && iter.Valid() && iter.size == n && iter.root == root && i <= |kids| && iter.rest == kids[i..]
  }

  lemma AtChild(iter: Iterator, n: nat, root: nat, kids: seq<nat>, i: nat)
    requires Standing(iter, n, root, kids, i)
    ensures root < n && (iter.child.Some? <==> i < |kids|)
    ensures i < |kids| ==> kids[i] < n && iter.child == Some(Actual(n, root, kids[i]))
  {
    if i < |kids| {
      assert iter.rest[0] == kids[i];
    }
  }

  /** Goes from the `i`-th child to the next. */
  method StepOn(iter: Iterator, n: nat, root: nat, ghost kids: seq<nat>, ghost i: nat)
    requires Standing(iter, n, root, kids, i) && i < |kids|
    modifies iter
    ensures Standing(iter, n, root, kids, i + 1)
  {
    AtChild(iter, n, root, kids, i);
    iter.ChildInc();
    assert kids[i..][1..] == kids[i + 1..];
  }

  /** The number of ranks in the subtree of a rank, counted by walking over it. */
  method GetSubtreeSize(size: nat, degree: nat, root: nat, rank: nat) returns (count: nat)
    requires 1 <= degree <= size && (size >= 2 ==> degree >= 2) && root < size && rank < size
    ensures count == SubSize(size, TreeDegree(degree), Virtual(size, root, rank))
    decreases size - Virtual(size, root, rank)
  {
    var iter := new Iterator(size, degree, root, rank, true);
    ghost var k := TreeDegree(degree);
    ghost var v, kids, i: nat := Virtual(size, root, rank), iter.rest, 0;
    AllCounted(size, k, v);
    count := 1;
    AtChild(iter, size, root, kids, 0);
    while iter.child.Some?
      invariant Standing(iter, size, root, kids, i) && (iter.child.Some? <==> i < |kids|)
      invariant count + SumSizes(size, k, kids[i..]) == SubSize(size, k, v)
      decreases |kids| - i
    {
      AtChild(iter, size, root, kids, i);
      CountOne(size, k, root, v, kids, i);
      var below := GetSubtreeSize(size, degree, root, iter.child.value);
      count := count + below;
      StepOn(iter, size, root, kids, i);
      i := i + 1;
      AtChild(iter, size, root, kids, i);
    }
    assert kids[i..] == [];
  }

  /** A rank and the subtrees of its children make up its subtree. */
  lemma AllCounted(n: nat, k: nat, v: nat)
    requires k >= 2 && v < n
    ensures 1 + SumSizes(n, k, Kids(n, k, v)) == SubSize(n, k, v)
  {
    TopIs(n, k, v);
    KidsSizes(n, k, v, Top(n, k, v));
  }

  lemma CountOne(n: nat, k: nat, root: nat, v: nat, kids: seq<nat>, i: nat)
    requires k >= 2 && v < n && root < n && i < |kids| && kids == Kids(n, k, v)
    ensures v < kids[i] < n && Virtual(n, root, Actual(n, root, kids[i])) == kids[i]
    ensures kids[i..][1..] == kids[i + 1..]
    ensures SumSizes(n, k, kids[i..]) == SubSize(n, k, kids[i]) + SumSizes(n, k, kids[i + 1..])
  {
    var c := kids[i];
    assert c in kids;
    var m, j := KidMember(n, k, v, Top(n, k, v), c);
    KidsAreChildren(n, k, v, c);
    ParentIsBelow(n, k, c);
    VirtualActual(n, root, c);
    assert kids[i..][0] == c && kids[i..][1..] == kids[i + 1..];
  }

  // ----- whether the leftmost search ends -----

  /** The leftmost search between two rounds: it has found a child or goes on with a stride, and ends at stride 0. */
  datatype Search = Found(child: nat) | At(stride: nat)

  /** The first of the cells `v + stride * i`, from `i = childIdx` up to the degree, that is a rank. */
  function FirstInRow(n: nat, degree: nat, v: nat, stride: nat, childIdx: nat): Option<nat>
    decreases degree - childIdx
  {
    if childIdx >= degree then None
    else if v + stride * childIdx < n then Some(v + stride * childIdx)
    else FirstInRow(n, degree, v, stride, childIdx + 1)
  }

  /** Where a round begins after `rounds` others. */
  function IdxIn(rounds: nat, childIdx: nat): nat
  {
    if rounds == 0 then childIdx else 1
  }

  function Quotient(x: nat, d: nat): nat
    requires d > 0
  {
    x / d
  }

  function FromOption(child: Option<nat>): Search
  {
    if child.Some? then Found(child.value) else At(0)
  }

  lemma NextRound(n: nat, degree: nat, v: nat, subsize: nat, childIdx: nat, rounds: nat, stride: nat)
    requires degree > 0 && stride > 0 && SearchAfter(n, degree, v, subsize, childIdx, rounds) == At(stride)
    ensures var c := FirstInRow(n, degree, v, stride, IdxIn(rounds, childIdx));
      SearchAfter(n, degree, v, subsize, childIdx, rounds + 1) == if c.Some? then Found(c.value) else At(Quotient(stride, degree))
  {
  }

  /** The search after some rounds of its outer loop, whatever the degree. */
  function SearchAfter(n: nat, degree: nat, v: nat, subsize: nat, childIdx: nat, rounds: nat): Search
    requires degree > 0
  {
    if rounds == 0 then At(Quotient(subsize, degree))
    else
      var s := SearchAfter(n, degree, v, subsize, childIdx, rounds - 1);
      if s.Found? || s.stride == 0 then s
      else
        var c := FirstInRow(n, degree, v, s.stride, IdxIn(rounds - 1, childIdx));
        if c.Some? then Found(c.value) else At(Quotient(s.stride, degree))
  }

  predicate Over(s: Search)
  {
    s.Found? || s.stride == 0
  }

  ghost predicate SearchEnds(n: nat, degree: nat, v: nat, subsize: nat, childIdx: nat)
    requires degree > 0
  {
    exists rounds: nat :: Over(SearchAfter(n, degree, v, subsize, childIdx, rounds))
  }

  lemma DivideShrinks(x: nat, d: nat)
    requires x >= 1 && d >= 2
    ensures 0 <= x / d < x
  {
    var q := x / d;
    assert x == q * d + x % d;
    NonNegative(q, d - 2);
    assert q * d == 2 * q + q * (d - 2);
  }

  /** From degree two on the stride shrinks in every round. */
  lemma {:induction false} SearchShrinks(n: nat, degree: nat, v: nat, subsize: nat, childIdx: nat, rounds: nat)
    requires degree >= 2
    ensures var s := SearchAfter(n, degree, v, subsize, childIdx, rounds);
      Over(s) || s.stride + rounds <= subsize
  {
    if rounds == 0 {
      if subsize > 0 {
        DivideShrinks(subsize, degree);
      }
    } else {
      SearchShrinks(n, degree, v, subsize, childIdx, rounds - 1);
      var s := SearchAfter(n, degree, v, subsize, childIdx, rounds - 1);
      if !Over(s) {
        DivideShrinks(s.stride, degree);
      }
    }
  }

  /** With degree one no round finds a child, and the stride stays what it is. */
  lemma {:induction false} SearchStays(n: nat, v: nat, subsize: nat, childIdx: nat, rounds: nat)
    requires childIdx >= 1
    ensures SearchAfter(n, 1, v, subsize, childIdx, rounds) == At(subsize)
  {
    if rounds > 0 {
      SearchStays(n, v, subsize, childIdx, rounds - 1);
    }
  }

  /** The leftmost search for a child ends exactly if there are two ranks or more or the given degree is at most
      one. */
  lemma LeftSearchEndsIff(size: nat, degree: int, v: nat, subsize: nat, childIdx: nat)
    requires v < size && subsize >= 1 && childIdx >= 1
    ensures SearchEnds(size, ClampDegree(degree, size), v, subsize, childIdx) <==> size >= 2 || degree <= 1
  {
    var d := ClampDegree(degree, size);
    if size >= 2 || degree <= 1 {
      SearchShrinks(size, d, v, subsize, childIdx, subsize);
      assert Over(SearchAfter(size, d, v, subsize, childIdx, subsize));
    } else {
      forall rounds: nat ensures !Over(SearchAfter(size, d, v, subsize, childIdx, rounds)) {
        SearchStays(size, v, subsize, childIdx, rounds);
      }
    }
  }

  /** A tree of one rank with degree 2: the first search goes round for ever with stride 1. */
  lemma OneRankSearches(rounds: nat)
    ensures SearchAfter(1, ClampDegree(2, 1), 0, 1, 1, rounds) == At(1)
  {
    SearchStays(1, 0, 1, 1, rounds);
  }
}
