/** The binomial tree (degree 2) in the order in which its subtrees are walked. */
module TreeOrder {
  import opened Kntree
  import opened KntreeIter

  function ParentOf(n: nat, v: nat): (p: nat)
    requires 0 < v < n
    ensures p < v
  {
    ParentBelow(n, 2, v)
  }

  function KidsOf(n: nat, v: nat): seq<nat>
  {
    Kids(n, 2, v)
  }

  function SizeOf(n: nat, v: nat): (s: nat)
    requires v < n
    ensures s >= 1 && v + s <= n
  {
    SubSize(n, 2, v)
  }

  lemma KidIs(n: nat, v: nat, c: nat)
    requires v < n && c in KidsOf(n, v)
    ensures v < c < n && ParentOf(n, c) == v && Top(n, 2, c) < Top(n, 2, v) && c == v + Pow(2, Top(n, 2, c))
  {
    var m, i := KidMember(n, 2, v, Top(n, 2, v), c);
    TimesIs(Pow(2, m), 1);
    ChildIsOwn(n, 2, v, c, m, i);
  }

  lemma ParentHasKid(n: nat, c: nat)
    requires 0 < c < n
    ensures c in KidsOf(n, ParentOf(n, c))
  {
    KidsAreChildren(n, 2, ParentOf(n, c), c);
  }

  /** The children come with smaller and smaller subtrees, hence in descending order. */
  predicate Shrinking(n: nat, kids: seq<nat>)
  {
    forall i: nat, j: nat :: i < j < |kids| ==> Top(n, 2, kids[j]) < Top(n, 2, kids[i]) && kids[j] < kids[i]
  }

  lemma RowOfTwo(n: nat, v: nat, m: nat)
    ensures Row(n, 2, v, m, 1) == Here(n, 2, v, m, 1)
  {
    assert Row(n, 2, v, m, 2) == [];
  }

  lemma {:induction false} KidsShrink(n: nat, v: nat, t: nat)
    requires v < n && Multiple(v, Pow(2, t))
    ensures Shrinking(n, LeftKids(n, 2, v, t))
    decreases t
  {
    if t > 0 {
      MultipleDown(v, 2, t - 1, t);
      KidsShrink(n, v, t - 1);
      RowOfTwo(n, v, t - 1);
      ShrinkOne(n, v, t - 1, t);
    }
  }

  lemma LevelOfKid(n: nat, v: nat, t: nat, c: nat)
    requires v < n && Multiple(v, Pow(2, t)) && c in LeftKids(n, 2, v, t)
    ensures Top(n, 2, c) < t && c == v + Pow(2, Top(n, 2, c))
  {
    var m, i := KidMember(n, 2, v, t, c);
    MultipleDown(v, 2, m + 1, t);
    HeadLevel(n, 2, v, c, m, i);
    TimesIs(Pow(2, m), 1);
  }

  lemma ShrinkOne(n: nat, v: nat, m: nat, t: nat)
    requires v < n && t == m + 1 && Multiple(v, Pow(2, m)) && Multiple(v, Pow(2, t))
    requires Shrinking(n, LeftKids(n, 2, v, m))
    ensures Shrinking(n, Here(n, 2, v, m, 1) + LeftKids(n, 2, v, m))
  {
    var rest := LeftKids(n, 2, v, m);
    if Here(n, 2, v, m, 1) != [] {
      var c := Cell(2, v, m, 1);
      HeadLevel(n, 2, v, c, m, 1);
      TimesIs(Pow(2, m), 1);
      forall j: nat | j < |rest| ensures Top(n, 2, rest[j]) < m && rest[j] < c {
        assert rest[j] in rest;
        LevelOfKid(n, v, m, rest[j]);
        PowGrows(2, Top(n, 2, rest[j]), m);
      }
      ShrinkFirst(n, c, rest);
    } else {
      assert [] + rest == rest;
    }
  }

  lemma ShrinkFirst(n: nat, c: nat, rest: seq<nat>)
    requires Shrinking(n, rest)
    requires forall j: nat :: j < |rest| ==> Top(n, 2, rest[j]) < Top(n, 2, c) && rest[j] < c
    ensures Shrinking(n, [c] + rest)
  {
  }

  lemma KidsInOrder(n: nat, v: nat)
    requires v < n
    ensures Shrinking(n, KidsOf(n, v))
  {
    TopIs(n, 2, v);
    KidsShrink(n, v, Top(n, 2, v));
  }

  predicate InSubtree(n: nat, v: nat, w: nat)
    requires v < n
  {
    v <= w < v + SizeOf(n, v)
  }

  lemma SubtreeIs(n: nat, v: nat, w: nat)
    requires v < n && w < n
    ensures InSubtree(n, v, w) <==> Above(n, 2, v, w)
  {
    SubtreeIsInterval(n, 2, v, w);
  }

  /** Every rank strictly inside the subtree of `v` is in the subtree of a child of `v`. */
  lemma {:induction false} KidAbove(n: nat, v: nat, w: nat) returns (c: nat)
    requires v < w < n && InSubtree(n, v, w)
    ensures c in KidsOf(n, v) && v < c < n && InSubtree(n, c, w)
    decreases w
  {
    var p := ParentOf(n, w);
    SubtreeIs(n, v, w);
    SubtreeIs(n, v, p);
    if p == v {
      c := w;
      ParentHasKid(n, w);
    } else {
      c := KidAbove(n, v, p);
      SubtreeIs(n, c, p);
      SubtreeIs(n, c, w);
    }
  }

  /** A subtree lies inside the subtree of the parent. */
  lemma KidInside(n: nat, v: nat, c: nat)
    requires v < n && c in KidsOf(n, v)
    ensures v < c < n && c + SizeOf(n, c) <= v + SizeOf(n, v)
  {
    KidIs(n, v, c);
    var last := c + SizeOf(n, c) - 1;
    SubtreeIs(n, c, last);
    AboveThrough(n, v, c, last);
    SubtreeIs(n, v, last);
  }

  lemma {:induction false} AboveThrough(n: nat, v: nat, c: nat, w: nat)
    requires c < n && w < n && 0 < c && ParentOf(n, c) == v && Above(n, 2, c, w)
    ensures Above(n, 2, v, w)
    decreases w
  {
    if w != c {
      AboveThrough(n, v, c, ParentBelow(n, 2, w));
    }
  }
}
