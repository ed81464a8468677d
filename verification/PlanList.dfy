/** The list of plans for one collective type and one memory type, changed in place. */
module PlanList {
  import opened Plans

  /** Memory that may run out; `failures` counts the requests that were refused. */
  class Memory {
    var left: nat
    var failures: nat

    method Alloc(units: nat) returns (ok: bool)
      modifies this
      ensures ok == (old(left) >= units)
      ensures left == (if ok then old(left) - units else old(left))
      ensures failures == (if ok then old(failures) else old(failures) + 1)
    {
      ok := left >= units;
      if ok {
        left := left - units;
      } else {
        failures := failures + 1;
      }
    }
  }

  /** A copy of a plan takes the plan, its name and its domain, and the same for every fallback. */
  function CopyUnits(p: Plan): nat
  {
    3 * (1 + |p.fallback|)
  }

  // ----- making ranges equal or disjoint -----

  /** Equal, or without common message sizes. */
  predicate Fit(a: Range, b: Range)
  {
    a == b || a.end <= b.start || b.end <= a.start
  }

  predicate Aligned(plans: seq<Plan>, pieces: seq<Plan>)
  {
    forall i: nat, j: nat :: i < |plans| && j < |pieces| ==> Fit(plans[i].own.range, pieces[j].own.range)
  }

  predicate Joint(p: Plan, q: Plan)
  {
    p.own.range.end == q.own.range.start
  }

  /** The pieces cover the range of `plan` without gap or overlap, with its stack. */
  ghost predicate Tiles(pieces: seq<Plan>, plan: Plan)
  {
    && pieces != [] && WellFormed(pieces) && SameStacks([plan], pieces)
    && pieces[0].own.range.start == plan.own.range.start
    && pieces[|pieces| - 1].own.range.end == plan.own.range.end
    && forall j: nat {:trigger pieces[j]} :: j + 1 < |pieces| ==> Joint(pieces[j], pieces[j + 1])
  }

  function Last(plans: seq<Plan>): Plan
    requires plans != []
  {
    plans[|plans| - 1]
  }

  /** All pieces but the last are settled, and so are the plans before `i`. */
  predicate Settled(plans: seq<Plan>, pieces: seq<Plan>, i: nat)
  {
    && pieces != [] && i <= |plans| && Aligned(plans, pieces[..|pieces| - 1]) && Aligned(plans[..i], [Last(pieces)])
  }

  lemma FitParts(r: Range, mid: nat, s: Range)
    requires r.start < mid < r.end && Fit(r, s) && r != s && s.start < s.end
    ensures Fit(Range(r.start, mid), s) && Fit(Range(mid, r.end), s)
  {
  }

  /** Cutting the current plan leaves everything settled settled. */
  lemma CutPlan(plans: seq<Plan>, pieces: seq<Plan>, i: nat, mid: nat)
    requires WellFormed(plans) && WellFormed(pieces) && Settled(plans, pieces, i) && i < |plans|
    requires mid == SplitPos(plans[i].own.range, Last(pieces).own.range) && mid != 0
    ensures Settled(SplitAt(plans, i, mid), pieces, i)
    ensures SplitPos(SplitAt(plans, i, mid)[i].own.range, Last(pieces).own.range) == 0
  {
    var plans', front := SplitAt(plans, i, mid), pieces[..|pieces| - 1];
    forall k: nat, j: nat | k < |plans'| && j < |front| ensures Fit(plans'[k].own.range, front[j].own.range) {
      var k' := if k <= i then k else k - 1;
      assert Fit(plans[k'].own.range, front[j].own.range);
      if k' == i {
        assert Before(front[j], Last(pieces));
        FitParts(plans[i].own.range, mid, front[j].own.range);
      }
    }
    assert plans'[..i] == plans[..i];
  }

  /** Cutting the last piece does too. */
  lemma CutPiece(plans: seq<Plan>, pieces: seq<Plan>, i: nat, mid: nat)
    requires WellFormed(plans) && WellFormed(pieces) && Settled(plans, pieces, i) && i < |plans|
    requires SplitPos(plans[i].own.range, Last(pieces).own.range) == 0
    requires plans[i].own.range.start < Last(pieces).own.range.end
    requires mid == SplitPos(Last(pieces).own.range, plans[i].own.range) && mid != 0
    ensures Settled(plans, SplitAt(pieces, |pieces| - 1, mid), i)
  {
    var n := |pieces| - 1;
    var pieces', tail := SplitAt(pieces, n, mid), Last(pieces).own.range;
    assert pieces'[..|pieces'| - 1] == pieces[..n] + [pieces'[n]];
    forall k: nat | k < |plans| ensures Fit(plans[k].own.range, Range(tail.start, mid)) {
      CutPieceOne(plans, pieces, i, mid, k);
    }
    forall k: nat | k < i ensures Fit(plans[..i][k].own.range, Range(mid, tail.end)) {
      CutPieceOne(plans, pieces, i, mid, k);
    }
  }

  lemma CutPieceOne(plans: seq<Plan>, pieces: seq<Plan>, i: nat, mid: nat, k: nat)
    requires WellFormed(plans) && WellFormed(pieces) && Settled(plans, pieces, i) && i < |plans|
    requires SplitPos(plans[i].own.range, Last(pieces).own.range) == 0
    requires plans[i].own.range.start < Last(pieces).own.range.end
    requires mid == SplitPos(Last(pieces).own.range, plans[i].own.range) && mid != 0 && k < |plans|
    ensures var tail := Last(pieces).own.range;
      Fit(plans[k].own.range, Range(tail.start, mid)) && (k < i ==> Fit(plans[k].own.range, Range(mid, tail.end)))
  {
    var tail := Last(pieces).own.range;
    if k < i {
      assert Fit(plans[..i][k].own.range, [Last(pieces)][0].own.range);
      assert Before(plans[k], plans[i]);
    } else if k > i {
      assert Before(plans[i], plans[k]);
    }
  }

  /** A current plan that cuts nothing and is not cut fits the last piece. */
  lemma PassPlan(plans: seq<Plan>, pieces: seq<Plan>, i: nat)
    requires WellFormed(plans) && WellFormed(pieces) && Settled(plans, pieces, i) && i < |plans|
    requires SplitPos(plans[i].own.range, Last(pieces).own.range) == 0
    requires SplitPos(Last(pieces).own.range, plans[i].own.range) == 0
    ensures Settled(plans, pieces, i + 1)
  {
    var front := plans[..i + 1];
    forall k: nat | k < |front| ensures Fit(front[k].own.range, Last(pieces).own.range) {
      if k < i {
        assert Fit(plans[..i][k].own.range, [Last(pieces)][0].own.range);
      }
    }
  }

  lemma AllSettled(plans: seq<Plan>, pieces: seq<Plan>, i: nat)
    requires WellFormed(plans) && WellFormed(pieces) && Settled(plans, pieces, i)
    requires i < |plans| ==> Last(pieces).own.range.end <= plans[i].own.range.start
    ensures Aligned(plans, pieces)
  {
    forall k: nat, j: nat | k < |plans| && j < |pieces| ensures Fit(plans[k].own.range, pieces[j].own.range) {
      if j < |pieces| - 1 {
        assert Fit(plans[k].own.range, pieces[..|pieces| - 1][j].own.range);
      } else if k < i {
        assert Fit(plans[..i][k].own.range, [Last(pieces)][0].own.range);
      } else if k > i {
        assert Before(plans[i], plans[k]);
      }
    }
  }

  /** Cutting the last piece keeps the tiling. */
  lemma TilesCut(pieces: seq<Plan>, plan: Plan, mid: nat)
    requires Tiles(pieces, plan) && Last(pieces).own.range.start < mid < Last(pieces).own.range.end
    ensures Tiles(SplitAt(pieces, |pieces| - 1, mid), plan)
  {
    var n := |pieces| - 1;
    var pieces' := SplitAt(pieces, n, mid);
    SplitAtKeeps(pieces, n, mid);
    forall j: nat | j + 1 < |pieces'| ensures Joint(pieces'[j], pieces'[j + 1]) {
      assert j + 1 <= n ==> Joint(pieces[j], pieces[j + 1]);
    }
  }

  function EndOf(plans: seq<Plan>): nat
  {
    if plans == [] then 0 else Last(plans).own.range.end
  }

  function Width(r: Range): nat
  {
    if r.start < r.end then r.end - r.start else 0
  }

  /** How far the plan at `i` starts before the end of the list; 0 behind the list. */
  function Remaining(plans: seq<Plan>, i: nat): nat
  {
    if i < |plans| && plans[i].own.range.start < EndOf(plans) then EndOf(plans) - plans[i].own.range.start else 0
  }

  function WidthAt(plans: seq<Plan>, i: nat): nat
  {
    if i < |plans| then Width(plans[i].own.range) else 0
  }

  /** A cut makes the plan narrower and leaves start and end of the list. */
  lemma CutMeasure(plans: seq<Plan>, i: nat, mid: nat)
    requires WellFormed(plans) && i < |plans| && plans[i].own.range.start < mid < plans[i].own.range.end
    ensures Remaining(SplitAt(plans, i, mid), i) == Remaining(plans, i)
    ensures WidthAt(SplitAt(plans, i, mid), i) < WidthAt(plans, i)
  {
  }

  lemma NextMeasure(plans: seq<Plan>, i: nat)
    requires WellFormed(plans) && i < |plans|
    ensures Remaining(plans, i + 1) < Remaining(plans, i)
  {
    var n := |plans| - 1;
    assert i < n ==> Before(plans[i], plans[n]) && Before(plans[i], plans[i + 1]);
  }

  // ----- interleaving -----

  /** Two plans of a sorted list have no common size. */
  lemma Overlap(plans: seq<Plan>, i: nat, j: nat, m: nat)
    requires Sorted(plans) && i < j < |plans| && Covers(plans[i].own.range, m)
    ensures !Covers(plans[j].own.range, m)
  {
    assert Before(plans[i], plans[j]);
  }

  /** In a well-formed list at most one of two parts covers a size. */
  lemma BagSum(x: seq<Plan>, y: seq<Plan>, m: nat)
    requires WellFormed(x + y)
    ensures BagAt(x + y, m) == BagAt(x, m) + BagAt(y, m)
  {
    StackConcat(x, y, m);
    if StackAt(x, m) != [] && StackAt(y, m) != [] {
      var i := StackFound(x, m);
      var j := StackFound(y, m);
      Overlap(x + y, i, |x| + j, m);
    }
  }

  /** The lists during interleaving: the first piece lies behind all plans before `i`. */
  predicate Interleaving(plans: seq<Plan>, pieces: seq<Plan>, i: nat)
  {
    && WellFormed(plans) && WellFormed(pieces) && Aligned(plans, pieces) && i <= |plans|
    && (pieces != [] ==> Behind(plans[..i], pieces[0]))
  }

  predicate Behind(plans: seq<Plan>, p: Plan)
  {
    forall k: nat :: k < |plans| ==> Before(plans[k], p)
  }

  /** The plans of `x` and `y` together are those of `x'` and `y'`. */
  ghost predicate SameBags(x: seq<Plan>, y: seq<Plan>, x': seq<Plan>, y': seq<Plan>)
  {
    forall m: nat :: BagAt(x, m) + BagAt(y, m) == BagAt(x', m) + BagAt(y', m)
  }

  /** The one with the higher score takes the other as fallback; the old one wins a draw. */
  function Winner(old_: Plan, new_: Plan): Plan
  {
    if new_.own.key.score > old_.own.key.score then Demoted(new_, old_) else Demoted(old_, new_)
  }

  lemma WinnerIsGood(p: Plan, q: Plan)
    requires GoodPlan(p) && GoodPlan(q) && p.own.range == q.own.range
    ensures GoodPlan(Winner(p, q)) && Winner(p, q).own.range == p.own.range
    ensures multiset(Stack(Winner(p, q))) == multiset(Stack(p)) + multiset(Stack(q))
  {
    if q.own.key.score > p.own.key.score {
      DemotedIsGood(q, p);
    } else {
      DemotedIsGood(p, q);
    }
  }

  lemma OnePlanBag(p: Plan, m: nat)
    ensures BagAt([p], m) == if Covers(p.own.range, m) then multiset(Stack(p)) else multiset{}
  {
    var rest := [p][1..];
    assert rest == [] && StackAt(rest, m) == [];
    assert StackAt([p], m) == if Covers(p.own.range, m) then Stack(p) else [];
  }

  lemma SplitBag(plans: seq<Plan>, i: nat, m: nat)
    requires WellFormed(plans) && i < |plans|
    ensures BagAt(plans, m) == BagAt(plans[..i], m) + BagAt([plans[i]], m) + BagAt(plans[i + 1..], m)
  {
    assert plans == plans[..i] + plans[i..] && plans[i..] == [plans[i]] + plans[i + 1..];
    BagSum(plans[..i], plans[i..], m);
    BagSum([plans[i]], plans[i + 1..], m);
  }

  lemma PartsOk(plans: seq<Plan>, i: nat)
    requires WellFormed(plans) && i <= |plans|
    ensures WellFormed(plans[..i]) && WellFormed(plans[i..])
  {
  }

  lemma FirstBag(pieces: seq<Plan>, m: nat)
    requires WellFormed(pieces) && pieces != []
    ensures BagAt(pieces, m) == BagAt([pieces[0]], m) + BagAt(pieces[1..], m)
  {
    assert pieces == [pieces[0]] + pieces[1..];
    BagSum([pieces[0]], pieces[1..], m);
  }

  lemma BehindFirst(plans: seq<Plan>, pieces: seq<Plan>, i: nat)
    requires WellFormed(plans) && WellFormed(pieces) && |pieces| > 1 && i < |plans|
    requires plans[i].own.range.end <= pieces[0].own.range.end
    ensures Behind(plans[..i + 1], pieces[1])
  {
    assert Before(pieces[0], pieces[1]);
    var front := plans[..i + 1];
    forall k: nat | k < |front| ensures Before(front[k], pieces[1]) {
      assert k < i ==> Before(plans[k], plans[i]);
    }
  }

  /** The winner has the stacks of both. */
  lemma EqualBags(plans: seq<Plan>, pieces: seq<Plan>, i: nat, w: Plan, m: nat)
    requires WellFormed(plans) && WellFormed(pieces) && i < |plans| && pieces != []
    requires WellFormed(plans[i := w]) && w.own.range == plans[i].own.range == pieces[0].own.range
    requires multiset(Stack(w)) == multiset(Stack(plans[i])) + multiset(Stack(pieces[0]))
    ensures BagAt(plans, m) + BagAt(pieces, m) == BagAt(plans[i := w], m) + BagAt(pieces[1..], m)
  {
    var plans' := plans[i := w];
    SplitBag(plans, i, m);
    SplitBag(plans', i, m);
    FirstBag(pieces, m);
    assert plans'[..i] == plans[..i] && plans'[i + 1..] == plans[i + 1..];
    assert BagAt([w], m) == BagAt([plans[i]], m) + BagAt([pieces[0]], m) by {
      OnePlanBag(plans[i], m);
      OnePlanBag(pieces[0], m);
      OnePlanBag(w, m);
    }
  }

  /** Same range: the winner stays in the list. */
  lemma MeetEqual(plans: seq<Plan>, pieces: seq<Plan>, i: nat)
    requires Interleaving(plans, pieces, i) && i < |plans| && pieces != []
    requires pieces[0].own.range == plans[i].own.range
    ensures var plans' := plans[i := Winner(plans[i], pieces[0])];
      Interleaving(plans', pieces[1..], i + 1) && SameBags(plans, pieces, plans', pieces[1..])
  {
    var w := Winner(plans[i], pieces[0]);
    var plans' := plans[i := w];
    WinnerIsGood(plans[i], pieces[0]);
    SameRanges(plans, i, w);
    forall m: nat ensures BagAt(plans, m) + BagAt(pieces, m) == BagAt(plans', m) + BagAt(pieces[1..], m) {
      EqualBags(plans, pieces, i, w, m);
    }
    EqualAligned(plans, pieces, i, w);
    if |pieces| > 1 {
      BehindFirst(plans', pieces, i);
    }
  }

  lemma EqualAligned(plans: seq<Plan>, pieces: seq<Plan>, i: nat, w: Plan)
    requires Aligned(plans, pieces) && i < |plans| && pieces != [] && w.own.range == plans[i].own.range
    ensures Aligned(plans[i := w], pieces[1..])
  {
    AlignedTail(plans, pieces);
    var plans', rest := plans[i := w], pieces[1..];
    forall k: nat, j: nat | k < |plans'| && j < |rest| ensures Fit(plans'[k].own.range, rest[j].own.range) {
      assert Fit(plans[k].own.range, rest[j].own.range);
    }
  }

  lemma SameRanges(plans: seq<Plan>, i: nat, w: Plan)
    requires WellFormed(plans) && i < |plans| && GoodPlan(w) && w.own.range == plans[i].own.range
    ensures WellFormed(plans[i := w])
  {
    var plans' := plans[i := w];
    forall k: nat, j: nat | k < j < |plans'| ensures Before(plans'[k], plans'[j]) {
      assert Before(plans[k], plans[j]);
    }
  }

  lemma AlignedTail(plans: seq<Plan>, pieces: seq<Plan>)
    requires Aligned(plans, pieces) && pieces != []
    ensures Aligned(plans, pieces[1..])
  {
    forall k: nat, j: nat | k < |plans| && j < |pieces[1..]| ensures Fit(plans[k].own.range, pieces[1..][j].own.range) {
      assert Fit(plans[k].own.range, pieces[j + 1].own.range);
    }
  }

  function InsertAt(plans: seq<Plan>, i: nat, p: Plan): seq<Plan>
    requires i <= |plans|
  {
    plans[..i] + [p] + plans[i..]
  }

  /** The new range comes first: the piece enters the list. */
  lemma MeetBefore(plans: seq<Plan>, pieces: seq<Plan>, i: nat)
    requires Interleaving(plans, pieces, i) && i < |plans| && pieces != []
    requires pieces[0].own.range.start < plans[i].own.range.start
    ensures var plans' := InsertAt(plans, i, pieces[0]);
      Interleaving(plans', pieces[1..], i + 1) && SameBags(plans, pieces, plans', pieces[1..])
  {
    var p := pieces[0];
    var plans' := InsertAt(plans, i, p);
    assert Fit(plans[i].own.range, p.own.range);
    InsertOk(plans, i, p);
    forall m: nat ensures BagAt(plans, m) + BagAt(pieces, m) == BagAt(plans', m) + BagAt(pieces[1..], m) {
      InsertBag(plans, i, p, m);
      FirstBag(pieces, m);
    }
    forall k: nat, j: nat | k < |plans'| && j < |pieces[1..]|
      ensures Fit(plans'[k].own.range, pieces[1..][j].own.range)
    {
      if k == i {
        assert Before(pieces[0], pieces[j + 1]);
      } else {
        assert Fit(plans[if k < i then k else k - 1].own.range, pieces[j + 1].own.range);
      }
    }
    if |pieces| > 1 {
      BehindFirst(plans', pieces, i);
    }
  }

  lemma InsertOk(plans: seq<Plan>, i: nat, p: Plan)
    requires WellFormed(plans) && i <= |plans| && GoodPlan(p) && Behind(plans[..i], p)
    requires i < |plans| ==> Before(p, plans[i])
    ensures WellFormed(InsertAt(plans, i, p))
  {
    var plans' := InsertAt(plans, i, p);
    forall k: nat | k < |plans'| ensures GoodPlan(plans'[k]) {
      assert k > i ==> plans'[k] == plans[k - 1];
    }
    forall k: nat, j: nat | k < j < |plans'| ensures Before(plans'[k], plans'[j]) {
      if k == i {
        assert j - 1 > i ==> Before(plans[i], plans[j - 1]);
      } else if j == i {
        assert Before(plans[..i][k], p);
      } else {
        assert Before(plans[if k < i then k else k - 1], plans[if j < i then j else j - 1]);
      }
    }
  }

  lemma InsertBag(plans: seq<Plan>, i: nat, p: Plan, m: nat)
    requires WellFormed(plans) && i <= |plans| && WellFormed(InsertAt(plans, i, p))
    ensures BagAt(InsertAt(plans, i, p), m) == BagAt(plans, m) + BagAt([p], m)
  {
    var plans' := InsertAt(plans, i, p);
    SplitBag(plans', i, m);
    assert plans'[..i] == plans[..i] && plans'[i + 1..] == plans[i..];
    assert plans == plans[..i] + plans[i..];
    BagSum(plans[..i], plans[i..], m);
  }

  /** The new range comes later: on to the next plan. */
  lemma MeetAfter(plans: seq<Plan>, pieces: seq<Plan>, i: nat)
    requires Interleaving(plans, pieces, i) && i < |plans| && pieces != []
    requires pieces[0].own.range.start > plans[i].own.range.start
    ensures Interleaving(plans, pieces, i + 1)
  {
    assert Fit(plans[i].own.range, pieces[0].own.range);
    var front := plans[..i + 1];
    forall k: nat | k < |front| ensures Before(front[k], pieces[0]) {
      assert k < i ==> Before(plans[k], plans[i]);
    }
  }

  /** The pieces left over go to the end. */
  lemma AppendRest(plans: seq<Plan>, pieces: seq<Plan>, i: nat)
    requires Interleaving(plans, pieces, i) && (pieces == [] || i == |plans|)
    ensures WellFormed(plans + pieces) && SameBags(plans, pieces, plans + pieces, [])
  {
    var all := plans + pieces;
    assert pieces != [] ==> plans[..i] == plans;
    forall k: nat, j: nat | k < j < |all| ensures Before(all[k], all[j]) {
      if k < |plans| <= j {
        assert Before(plans[k], pieces[0]);
        assert j > |plans| ==> Before(pieces[0], pieces[j - |plans|]);
        assert GoodPlan(pieces[0]);
      }
    }
    forall m: nat ensures BagAt(plans, m) + BagAt(pieces, m) == BagAt(all, m) + BagAt([], m) {
      BagSum(plans, pieces, m);
    }
  }

  /** `after` has, for every size, the plans of `before` and those of `added`. */
  ghost predicate Added(before: seq<Plan>, added: seq<Plan>, after: seq<Plan>)
  {
    forall m: nat :: BagAt(after, m) == BagAt(before, m) + BagAt(added, m)
  }

  // ----- who owns a size -----

  function Top(stack: seq<Key>): seq<Key>
  {
    if stack == [] then [] else [stack[0]]
  }

  /** Of two owners the one with the higher score, and the first one on a draw. */
  function OwnerOf(x: seq<Key>, y: seq<Key>): seq<Key>
  {
    if x == [] || (y != [] && y[0].score > x[0].score) then Top(y) else Top(x)
  }

  function Lower(stack: seq<Key>, score: nat): seq<Key>
  {
    if stack == [] then [] else OfScore(stack[1..], score)
  }

  /** The fallbacks of one score behind the owner of two stacks: the winner's, then the loser's, then the loser. */
  function TailOf(x: seq<Key>, y: seq<Key>, score: nat): seq<Key>
  {
    if x == [] then Lower(y, score)
    else if y == [] then Lower(x, score)
    else if y[0].score > x[0].score then Lower(y, score) + Lower(x, score) + OfScore([x[0]], score)
    else Lower(x, score) + Lower(y, score) + OfScore([y[0]], score)
  }

  ghost predicate SameTails(x: seq<Key>, y: seq<Key>, x': seq<Key>, y': seq<Key>)
  {
    forall score: nat :: TailOf(x, y, score) == TailOf(x', y', score)
  }

  /** Moving from one pair of lists to another keeps the owner at `m` and the order of the fallbacks, and where the
      second list has nothing it keeps the whole stack. */
  ghost predicate OwnerAt(x: seq<Plan>, y: seq<Plan>, x': seq<Plan>, y': seq<Plan>, m: nat)
  {
    StacksKept(StackAt(x, m), StackAt(y, m), StackAt(x', m), StackAt(y', m))
  }

  ghost predicate StacksKept(x: seq<Key>, y: seq<Key>, x': seq<Key>, y': seq<Key>)
  {
    OwnerOf(x, y) == OwnerOf(x', y') && SameTails(x, y, x', y') && (y == [] ==> y' == [] && x' == x)
  }

  ghost predicate SameOwners(x: seq<Plan>, y: seq<Plan>, x': seq<Plan>, y': seq<Plan>)
  {
    forall m: nat :: OwnerAt(x, y, x', y', m)
  }

  lemma OwnersThrough(a: seq<Plan>, b: seq<Plan>, x: seq<Plan>, y: seq<Plan>, x': seq<Plan>, y': seq<Plan>)
    requires SameOwners(a, b, x, y) && SameOwners(x, y, x', y')
    ensures SameOwners(a, b, x', y')
  {
    forall m: nat ensures OwnerAt(a, b, x', y', m) {
      assert OwnerAt(a, b, x, y, m) && OwnerAt(x, y, x', y', m);
    }
  }

  lemma WinnerOwns(p: Plan, q: Plan)
    requires GoodPlan(p) && GoodPlan(q) && p.own.range == q.own.range
    ensures [Winner(p, q).own.key] == OwnerOf(Stack(p), Stack(q))
    ensures SameTails(Stack(p), Stack(q), Stack(Winner(p, q)), [])
  {
    var w := Winner(p, q);
    forall score: nat ensures TailOf(Stack(p), Stack(q), score) == TailOf(Stack(w), [], score) {
      WinnerTail(p, q, score);
    }
  }

  lemma LowerIs(p: Plan, score: nat)
    ensures Lower(Stack(p), score) == OfScore(Keys(p.fallback), score)
    ensures OfScore([Stack(p)[0]], score) == if p.own.key.score == score then [p.own.key] else []
  {
    assert Stack(p)[1..] == Keys(p.fallback);
    assert [Stack(p)[0]][1..] == [];
  }

  lemma WinnerTail(p: Plan, q: Plan, score: nat)
    requires GoodPlan(p) && GoodPlan(q) && p.own.range == q.own.range
    ensures TailOf(Stack(p), Stack(q), score) == Lower(Stack(Winner(p, q)), score)
  {
    LowerIs(p, score);
    LowerIs(q, score);
    LowerIs(Winner(p, q), score);
    if q.own.key.score > p.own.key.score {
      DemotedTail(q, p, score);
    } else {
      DemotedTail(p, q, score);
    }
  }

  lemma StackOfPart(x: seq<Plan>, p: Plan, z: seq<Plan>, m: nat)
    ensures StackAt(x + [p] + z, m)
         == if StackAt(x, m) != [] then StackAt(x, m) else if Covers(p.own.range, m) then Stack(p) else StackAt(z, m)
  {
    StackConcat(x + [p], z, m);
    StackConcat(x, [p], m);
    assert [p][1..] == [];
  }

  lemma StackAtSet(plans: seq<Plan>, i: nat, w: Plan, m: nat)
    requires i < |plans| && !Covers(plans[i].own.range, m) && w.own.range == plans[i].own.range
    ensures StackAt(plans[i := w], m) == StackAt(plans, m)
  {
    StackOfPart(plans[..i], plans[i], plans[i + 1..], m);
    StackOfPart(plans[..i], w, plans[i + 1..], m);
    assert plans == plans[..i] + [plans[i]] + plans[i + 1..] && plans[i := w] == plans[..i] + [w] + plans[i + 1..];
  }

  lemma EqualOwner(plans: seq<Plan>, pieces: seq<Plan>, i: nat, w: Plan, m: nat)
    requires WellFormed(plans) && WellFormed(pieces) && i < |plans| && pieces != [] && WellFormed(plans[i := w])
    requires w.own.range == plans[i].own.range == pieces[0].own.range
    requires [w.own.key] == OwnerOf(Stack(plans[i]), Stack(pieces[0]))
    requires SameTails(Stack(plans[i]), Stack(pieces[0]), Stack(w), [])
    ensures OwnerAt(plans, pieces, plans[i := w], pieces[1..], m)
  {
    StackFrom(pieces, m);
    if Covers(plans[i].own.range, m) {
      StackCovered(plans, i, m);
      StackCovered(plans[i := w], i, m);
    } else {
      StackAtSet(plans, i, w, m);
    }
  }

  lemma EqualOwners(plans: seq<Plan>, pieces: seq<Plan>, i: nat)
    requires Interleaving(plans, pieces, i) && i < |plans| && pieces != []
    requires pieces[0].own.range == plans[i].own.range
    ensures SameOwners(plans, pieces, plans[i := Winner(plans[i], pieces[0])], pieces[1..])
  {
    var w := Winner(plans[i], pieces[0]);
    WinnerIsGood(plans[i], pieces[0]);
    WinnerOwns(plans[i], pieces[0]);
    SameRanges(plans, i, w);
    var plans', rest := plans[i := w], pieces[1..];
    forall m: nat ensures OwnerAt(plans, pieces, plans', rest, m) {
      EqualOwner(plans, pieces, i, w, m);
    }
  }

  lemma InsertOwners(plans: seq<Plan>, pieces: seq<Plan>, i: nat)
    requires WellFormed(plans) && WellFormed(pieces) && i <= |plans| && pieces != []
    requires WellFormed(InsertAt(plans, i, pieces[0]))
    ensures SameOwners(plans, pieces, InsertAt(plans, i, pieces[0]), pieces[1..])
  {
    var plans', rest := InsertAt(plans, i, pieces[0]), pieces[1..];
    forall m: nat ensures OwnerAt(plans, pieces, plans', rest, m) {
      InsertOwner(plans, pieces, i, m);
    }
  }

  lemma StackCovered(plans: seq<Plan>, i: nat, m: nat)
    requires WellFormed(plans) && i < |plans| && Covers(plans[i].own.range, m)
    ensures StackAt(plans, m) == Stack(plans[i])
  {
    forall j: nat | j < |plans| ensures plans[j].own.range.start < plans[j].own.range.end {
      assert GoodPlan(plans[j]);
    }
    StackIs(plans, m, i);
  }

  lemma InsertOwner(plans: seq<Plan>, pieces: seq<Plan>, i: nat, m: nat)
    requires WellFormed(plans) && WellFormed(pieces) && i <= |plans| && pieces != []
    requires WellFormed(InsertAt(plans, i, pieces[0]))
    ensures OwnerAt(plans, pieces, InsertAt(plans, i, pieces[0]), pieces[1..], m)
  {
    var p, plans' := pieces[0], InsertAt(plans, i, pieces[0]);
    StackFrom(pieces, m);
    StackConcat(plans[..i], plans[i..], m);
    StackOfPart(plans[..i], p, plans[i..], m);
    assert plans == plans[..i] + plans[i..] && plans' == plans[..i] + [p] + plans[i..];
    if Covers(p.own.range, m) {
      StackCovered(plans', i, m);
      NothingBelow(plans, i, p, m);
    }
  }

  /** Where a new plan fits in, no other plan covers its sizes. */
  lemma NothingBelow(plans: seq<Plan>, i: nat, p: Plan, m: nat)
    requires i <= |plans| && WellFormed(InsertAt(plans, i, p)) && Covers(p.own.range, m)
    ensures StackAt(plans, m) == []
  {
    var plans' := InsertAt(plans, i, p);
    forall j: nat | j < |plans| ensures !Covers(plans[j].own.range, m) {
      if j < i {
        assert plans'[j] == plans[j] && plans'[i] == p && Before(plans'[j], plans'[i]);
      } else {
        assert plans'[j + 1] == plans[j] && plans'[i] == p && Before(plans'[i], plans'[j + 1]);
      }
    }
    NotCovered(plans, m);
  }

  lemma RestOwner(plans: seq<Plan>, pieces: seq<Plan>, m: nat)
    requires WellFormed(plans + pieces)
    ensures OwnerAt(plans, pieces, plans + pieces, [], m)
  {
    StackConcat(plans, pieces, m);
    if StackAt(plans, m) != [] && StackAt(pieces, m) != [] {
      var i := StackFound(plans, m);
      var j := StackFound(pieces, m);
      Overlap(plans + pieces, i, |plans| + j, m);
    }
  }

  lemma AddedOwners(before: seq<Plan>, normal: seq<Plan>, plan: Plan, all: seq<Plan>, plans: seq<Plan>, pieces: seq<Plan>)
    requires SameStacks(before, normal) && SameStacks([plan], all) && SameOwners(normal, all, plans, pieces)
    requires WellFormed(plans + pieces)
    ensures OwnersAdded(before, [plan], plans + pieces)
  {
    forall m: nat ensures OwnerAt(before, [plan], plans + pieces, [], m) {
      RestOwner(plans, pieces, m);
      assert OwnerAt(normal, all, plans, pieces, m);
      assert StackAt(before, m) == StackAt(normal, m) && StackAt([plan], m) == StackAt(all, m);
    }
  }

  lemma OwnersOneMoreAt(before: seq<Plan>, front: seq<Plan>, last: Plan, was: seq<Plan>, after: seq<Plan>, m: nat)
    requires WellFormed(front + [last])
    requires OwnerAt(before, front, was, [], m) && OwnerAt(was, [last], after, [], m)
    ensures OwnerAt(before, front + [last], after, [], m)
  {
    StackConcat(front, [last], m);
    if StackAt(front, m) != [] && StackAt([last], m) != [] {
      var i := StackFound(front, m);
      var j := StackFound([last], m);
      Overlap(front + [last], i, |front| + j, m);
    }
  }

  lemma OwnersOneMore(before: seq<Plan>, more: seq<Plan>, k: nat, was: seq<Plan>, after: seq<Plan>)
    requires WellFormed(more) && k < |more| && OwnersAdded(before, more[..k], was) && OwnersAdded(was, [more[k]], after)
    ensures OwnersAdded(before, more[..k + 1], after)
  {
    var front, added := more[..k], more[..k + 1];
    assert added == front + [more[k]];
    PartsOk(more, k + 1);
    forall m: nat ensures OwnerAt(before, added, after, [], m) {
      assert OwnerAt(before, front, was, [], m) && OwnerAt(was, [more[k]], after, [], m);
      OwnersOneMoreAt(before, front, more[k], was, after, m);
    }
  }

  lemma SameIsOwned(before: seq<Plan>, more: seq<Plan>, was: seq<Plan>, after: seq<Plan>)
    requires OwnersAdded(before, more, was) && SameStacks(was, after)
    ensures OwnersAdded(before, more, after)
  {
    forall m: nat ensures OwnerAt(before, more, after, [], m) {
      assert OwnerAt(before, more, was, [], m) && StackAt(was, m) == StackAt(after, m);
    }
  }

  /** The owners after adding one plan: an old owner that scores at least as much stays, otherwise the new plan takes
      over; the fallbacks of each score are the winner's, the loser's and the loser, in this order; sizes outside its
      range keep their stacks. */
  ghost predicate OwnerRule(before: seq<Plan>, plan: Plan, after: seq<Plan>)
  {
    forall m: nat ::
      var old_, new_ := StackAt(before, m), StackAt(after, m);
      if !Covers(plan.own.range, m) then new_ == old_
      else
        && new_ != [] && SameTails(old_, Stack(plan), new_, [])
        && new_[0] == if old_ != [] && old_[0].score >= plan.own.key.score then old_[0] else plan.own.key
  }

  lemma OneOwner(before: seq<Plan>, plan: Plan, after: seq<Plan>)
    requires OwnersAdded(before, [plan], after)
    ensures OwnerRule(before, plan, after)
  {
    forall m: nat
      ensures var old_, new_ := StackAt(before, m), StackAt(after, m);
        if !Covers(plan.own.range, m) then new_ == old_
        else
          && new_ != [] && SameTails(old_, Stack(plan), new_, [])
          && new_[0] == if old_ != [] && old_[0].score >= plan.own.key.score then old_[0] else plan.own.key
    {
      assert OwnerAt(before, [plan], after, [], m);
      assert [plan][1..] == [];
    }
  }

  /** After adding plans, every size is owned by the better one of the owner before and the owner among the added
      plans, by the owner before on a draw.  Where nothing is added the stack stays as it is. */
  ghost predicate OwnersAdded(before: seq<Plan>, added: seq<Plan>, after: seq<Plan>)
  {
    SameOwners(before, added, after, [])
  }

  /** What holds while the lists are cut against each other. */
  ghost predicate Normalising(before: seq<Plan>, plan: Plan, plans: seq<Plan>, pieces: seq<Plan>, i: nat)
  {
    && WellFormed(plans) && SameStacks(before, plans) && Tiles(pieces, plan) && Settled(plans, pieces, i)
  }

  lemma NormalCutPlan(before: seq<Plan>, plan: Plan, plans: seq<Plan>, pieces: seq<Plan>, i: nat, mid: nat)
    requires Normalising(before, plan, plans, pieces, i) && i < |plans|
    requires mid == SplitPos(plans[i].own.range, Last(pieces).own.range) && mid != 0
    ensures Normalising(before, plan, SplitAt(plans, i, mid), pieces, i)
    ensures var cut := SplitAt(plans, i, mid);
      && |cut| > i && SplitPos(cut[i].own.range, Last(pieces).own.range) == 0
      && cut[i].own.range.start == plans[i].own.range.start
      && Remaining(cut, i) == Remaining(plans, i) && WidthAt(cut, i) < WidthAt(plans, i)
  {
    SplitAtKeeps(plans, i, mid);
    CutPlan(plans, pieces, i, mid);
    CutMeasure(plans, i, mid);
    forall m: nat ensures StackAt(before, m) == StackAt(SplitAt(plans, i, mid), m) {
      assert StackAt(before, m) == StackAt(plans, m);
    }
  }

  lemma NormalCutPiece(before: seq<Plan>, plan: Plan, plans: seq<Plan>, pieces: seq<Plan>, i: nat, mid: nat)
    requires Normalising(before, plan, plans, pieces, i) && i < |plans|
    requires SplitPos(plans[i].own.range, Last(pieces).own.range) == 0
    requires plans[i].own.range.start < Last(pieces).own.range.end
    requires mid == SplitPos(Last(pieces).own.range, plans[i].own.range) && mid != 0
    ensures var cut := SplitAt(pieces, |pieces| - 1, mid);
      Normalising(before, plan, plans, cut, i) && Width(Last(cut).own.range) < Width(Last(pieces).own.range)
  {
    CutPiece(plans, pieces, i, mid);
    TilesCut(pieces, plan, mid);
  }

  class PlanList {
    var plans: seq<Plan>

    ghost predicate Valid()
      reads this
    {
      WellFormed(plans)
    }

    constructor ()
      ensures Valid() && plans == []
    {
      plans := [];
    }

    /** Cuts the `i`-th plan where the rest of the new plan begins or ends inside it. */
    method CutOwn(plan: Plan, pieces: seq<Plan>, i: nat, mem: Memory, ghost before: seq<Plan>)
      returns (ok: bool, cut: bool)
      requires Normalising(before, plan, plans, pieces, i) && i < |plans|
      modifies this, mem
      ensures mem.failures >= old(mem.failures) && (ok <==> mem.failures == old(mem.failures))
      ensures Normalising(before, plan, plans, pieces, i) && (!cut ==> plans == old(plans))
      ensures i < |plans| && plans[i].own.range.start == old(plans[i].own.range.start)
      ensures ok ==> SplitPos(plans[i].own.range, Last(pieces).own.range) == 0
      ensures cut ==> Remaining(plans, i) == old(Remaining(plans, i)) && WidthAt(plans, i) < old(WidthAt(plans, i))
    {
      var mid := SplitPos(plans[i].own.range, Last(pieces).own.range);
      if mid == 0 {
        return true, false;
      }
      ok := mem.Alloc(CopyUnits(plans[i]));
      if !ok {
        return false, false;
      }
      NormalCutPlan(before, plan, plans, pieces, i, mid);
      plans := SplitAt(plans, i, mid);
      cut := true;
    }

    /** Cuts the rest of the new plan where the `i`-th plan begins or ends inside it. */
    method CutTail(plan: Plan, pieces: seq<Plan>, i: nat, mem: Memory, ghost before: seq<Plan>)
      returns (ok: bool, cut: bool, pieces': seq<Plan>)
      requires Normalising(before, plan, plans, pieces, i) && i < |plans|
      requires SplitPos(plans[i].own.range, Last(pieces).own.range) == 0
      requires plans[i].own.range.start < Last(pieces).own.range.end
      modifies mem
      ensures mem.failures >= old(mem.failures) && (ok <==> mem.failures == old(mem.failures))
      ensures Normalising(before, plan, plans, pieces', i)
      ensures if cut then Width(Last(pieces').own.range) < Width(Last(pieces).own.range) else pieces' == pieces
      ensures ok && !cut ==> SplitPos(Last(pieces).own.range, plans[i].own.range) == 0
    {
      var mid := SplitPos(Last(pieces).own.range, plans[i].own.range);
      if mid == 0 {
        return true, false, pieces;
      }
      ok := mem.Alloc(CopyUnits(Last(pieces)));
      if !ok {
        return false, false, pieces;
      }
      NormalCutPiece(before, plan, plans, pieces, i, mid);
      pieces' := SplitAt(pieces, |pieces| - 1, mid);
      cut := true;
    }

    /** Cuts the plans of the list and the new plan against each other. */
    method NormaliseOne(plan: Plan, mem: Memory) returns (ok: bool, pieces: seq<Plan>)
      requires Valid() && GoodPlan(plan)
      modifies this, mem
      ensures Valid() && SameStacks(old(plans), plans)
      ensures ok <==> mem.failures == old(mem.failures)
      ensures mem.failures >= old(mem.failures)
      ensures ok ==> Tiles(pieces, plan) && Aligned(plans, pieces)
    {
      pieces := [plan];
      var i := 0;
      while i < |plans|
        invariant Normalising(old(plans), plan, plans, pieces, i)
        invariant mem.failures == old(mem.failures)
        decreases Width(Last(pieces).own.range), Remaining(plans, i), WidthAt(plans, i)
      {
        var tail := Last(pieces);
        if tail.own.range.end <= plans[i].own.range.start {
          break;
        }
        var planCut, pieceCut;
        ok, planCut := CutOwn(plan, pieces, i, mem, old(plans));
        if !ok {
          return false, [];
        }
        ok, pieceCut, pieces := CutTail(plan, pieces, i, mem, old(plans));
        if !ok {
          return false, [];
        }
        if !planCut && !pieceCut {
          PassPlan(plans, pieces, i);
          NextMeasure(plans, i);
          i := i + 1;
        }
      }
      AllSettled(plans, pieces, i);
      return true, pieces;
    }

    /** Adding one plan: every size in its range gains exactly the plan and its fallbacks.  Without memory no
        lookup changes. */
    method AddOne(plan: Plan, mem: Memory) returns (ok: bool)
      requires Valid() && GoodPlan(plan)
      modifies this, mem
      ensures Valid() && mem.failures >= old(mem.failures)
      ensures ok <==> mem.failures == old(mem.failures)
      ensures ok ==> Added(old(plans), [plan], plans) && OwnerRule(old(plans), plan, plans)
      ensures ok ==> OwnersAdded(old(plans), [plan], plans)
      ensures !ok ==> SameStacks(old(plans), plans)
    {
      var pieces;
      ok, pieces := NormaliseOne(plan, mem);
      if !ok {
        return;
      }
      ghost var normal, all := plans, pieces;
      var i := 0;
      while i < |plans| && pieces != []
        invariant Interleaving(plans, pieces, i) && SameBags(normal, all, plans, pieces)
        invariant SameOwners(normal, all, plans, pieces)
        invariant mem.failures == old(mem.failures)
        decreases |plans| - i + 2 * |pieces|
      {
        var next, exist := pieces[0], plans[i];
        ghost var plans', pieces' := plans, pieces;
        if next.own.range.start == exist.own.range.start {
          SameStart(plans, pieces, i);
          MeetEqual(plans, pieces, i);
          EqualOwners(plans, pieces, i);
          if next.own.key.score > exist.own.key.score {
            var winner := AddFallback(next, exist);
            plans := plans[i := winner];
          } else {
            var winner := AddFallback(exist, next);
            plans := plans[i := winner];
          }
          pieces := pieces[1..];
          OwnersThrough(normal, all, plans', pieces', plans, pieces);
        } else if next.own.range.start < exist.own.range.start {
          MeetBefore(plans, pieces, i);
          InsertOwners(plans, pieces, i);
          plans := InsertAt(plans, i, next);
          pieces := pieces[1..];
          OwnersThrough(normal, all, plans', pieces', plans, pieces);
        } else {
          MeetAfter(plans, pieces, i);
        }
        i := i + 1;
      }
      AppendRest(plans, pieces, i);
      AddedOwners(old(plans), normal, plan, all, plans, pieces);
      OneOwner(old(plans), plan, plans + pieces);
      plans := plans + pieces;
      assert SameBags(normal, all, plans, []);
      AddedPieces(old(plans), normal, plan, all, plans);
    }

    /** Joins neighbours that differ only in their ranges. */
    method CompactOne()
      requires Valid()
      modifies this
      ensures Valid() && plans == Compacted(old(plans))
      ensures SameStacks(old(plans), plans) && FullyCompacted(plans) && StacksDiffer(plans)
    {
      CompactedKeeps(plans);
      CompactedFully(plans);
      FullyIsDiffer(Compacted(plans));
      JoinNeighbours();
    }

    /** Joins neighbours wherever that is possible. */
    method JoinNeighbours()
      modifies this
      ensures plans == Compacted(old(plans))
    {
      ghost var goal := Compacted(plans);
      var i := 0;
      while i + 1 < |plans|
        invariant i <= |plans| && plans[..i] + Compacted(plans[i..]) == goal
        decreases |plans| - i
      {
        var compactible := IsCompactible(plans[i], plans[i + 1]);
        if compactible {
          JoinStep(plans, i);
          plans := JoinAt(plans, i);
        } else {
          PassStep(plans, i);
          i := i + 1;
        }
      }
      assert plans == plans[..i] + plans[i..];
    }

    /** Adds copies of all plans of another list. */
    method MergeOne(more: seq<Plan>, mem: Memory) returns (ok: bool)
      requires Valid() && WellFormed(more)
      modifies this, mem
      ensures Valid() && mem.failures >= old(mem.failures)
      ensures ok <==> mem.failures == old(mem.failures)
      ensures ok ==> Added(old(plans), more, plans) && OwnersAdded(old(plans), more, plans)
      ensures ok ==> FullyCompacted(plans) && StacksDiffer(plans)
    {
      for k := 0 to |more|
        invariant Valid() && mem.failures == old(mem.failures)
        invariant Added(old(plans), more[..k], plans) && OwnersAdded(old(plans), more[..k], plans)
      {
        var copied := mem.Alloc(CopyUnits(more[k]));
        if !copied {
          return false;
        }
        ghost var was := plans;
        ok := AddOne(more[k], mem);
        if !ok {
          return;
        }
        AddedOneMore(old(plans), more, k, was, plans);
        OwnersOneMore(old(plans), more, k, was, plans);
      }
      assert more[..|more|] == more;
      ghost var was := plans;
      CompactOne();
      SameIsAdded(old(plans), more, was, plans);
      SameIsOwned(old(plans), more, was, plans);
      ok := true;
    }
  }

  lemma SameStart(plans: seq<Plan>, pieces: seq<Plan>, i: nat)
    requires Interleaving(plans, pieces, i) && i < |plans| && pieces != []
    requires pieces[0].own.range.start == plans[i].own.range.start
    ensures pieces[0].own.range == plans[i].own.range
  {
    assert Fit(plans[i].own.range, pieces[0].own.range) && GoodPlan(plans[i]) && GoodPlan(pieces[0]);
  }

  lemma AddedPieces(before: seq<Plan>, normal: seq<Plan>, plan: Plan, pieces: seq<Plan>, after: seq<Plan>)
    requires SameStacks(before, normal) && SameStacks([plan], pieces) && SameBags(normal, pieces, after, [])
    ensures Added(before, [plan], after)
  {
    forall m: nat ensures BagAt(after, m) == BagAt(before, m) + BagAt([plan], m) {
      assert StackAt(before, m) == StackAt(normal, m) && StackAt([plan], m) == StackAt(pieces, m);
      assert BagAt(normal, m) + BagAt(pieces, m) == BagAt(after, m) + BagAt([], m);
    }
  }

  lemma AddedOneMore(before: seq<Plan>, more: seq<Plan>, k: nat, was: seq<Plan>, after: seq<Plan>)
    requires WellFormed(more) && k < |more| && Added(before, more[..k], was) && Added(was, [more[k]], after)
    ensures Added(before, more[..k + 1], after)
  {
    assert more[..k + 1] == more[..k] + [more[k]];
    PartsOk(more, k + 1);
    forall m: nat ensures BagAt(after, m) == BagAt(before, m) + BagAt(more[..k + 1], m) {
      BagSum(more[..k], [more[k]], m);
      assert BagAt(was, m) == BagAt(before, m) + BagAt(more[..k], m);
    }
  }

  lemma SameIsAdded(before: seq<Plan>, more: seq<Plan>, was: seq<Plan>, after: seq<Plan>)
    requires Added(before, more, was) && SameStacks(was, after)
    ensures Added(before, more, after)
  {
    forall m: nat ensures BagAt(after, m) == BagAt(before, m) + BagAt(more, m) {
      assert StackAt(was, m) == StackAt(after, m);
    }
  }

  function JoinAt(plans: seq<Plan>, i: nat): seq<Plan>
    requires i + 1 < |plans| && |plans[i].fallback| == |plans[i + 1].fallback|
  {
    plans[..i] + [Joined(plans[i], plans[i + 1])] + plans[i + 2..]
  }

  lemma JoinAtRest(plans: seq<Plan>, i: nat)
    requires i + 1 < |plans| && |plans[i].fallback| == |plans[i + 1].fallback|
    ensures JoinAt(plans, i)[..i] == plans[..i]
    ensures JoinAt(plans, i)[i..] == [Joined(plans[i], plans[i + 1])] + plans[i..][2..]
  {
    assert plans[i..][2..] == plans[i + 2..];
  }

  /** What is left to do after joining two neighbours. */
  lemma JoinStep(plans: seq<Plan>, i: nat)
    requires i + 1 < |plans| && Compactible(plans[i], plans[i + 1])
    ensures plans[..i] + Compacted(plans[i..]) == JoinAt(plans, i)[..i] + Compacted(JoinAt(plans, i)[i..])
  {
    var rest := plans[i..];
    assert rest[0] == plans[i] && rest[1] == plans[i + 1];
    JoinAtRest(plans, i);
  }

  /** What is left to do after passing the first of two. */
  lemma PassStep(plans: seq<Plan>, i: nat)
    requires i + 1 < |plans| && !Compactible(plans[i], plans[i + 1])
    ensures plans[..i] + Compacted(plans[i..]) == plans[..i + 1] + Compacted(plans[i + 1..])
  {
    var rest := plans[i..];
    assert rest[0] == plans[i] && rest[1] == plans[i + 1] && rest[1..] == plans[i + 1..];
    assert plans[..i + 1] == plans[..i] + [plans[i]];
  }

  lemma CompactibleMeans(p: Plan, q: Plan)
    ensures GoodPlan(p) && GoodPlan(q) ==>
      (Compactible(p, q) <==> p.own.range.end == q.own.range.start && Stack(p) == Stack(q))
  {
    if GoodPlan(p) && GoodPlan(q) {
      CompactibleIff(p, q);
    }
  }

  method IsCompactible(p: Plan, q: Plan) returns (yes: bool)
    ensures yes <==> Compactible(p, q)
    ensures GoodPlan(p) && GoodPlan(q) ==> (yes <==> p.own.range.end == q.own.range.start && Stack(p) == Stack(q))
  {
    CompactibleMeans(p, q);
    if p.own.key != q.own.key || p.own.range.end != q.own.range.start || |p.fallback| != |q.fallback| {
      return false;
    }
    for i := 0 to |p.fallback|
      invariant forall j: nat :: j < i ==> Adjoin(p.fallback[j], q.fallback[j])
    {
      if p.fallback[i].key != q.fallback[i].key || p.fallback[i].range.end != q.fallback[i].range.start {
        assert !Adjoin(p.fallback[i], q.fallback[i]);
        return false;
      }
    }
    return true;
  }

  /** Puts a fallback behind those that score at least as much. */
  method InsertFallback(fallback: seq<Attr>, a: Attr) returns (r: seq<Attr>)
    ensures r == InsertByScore(fallback, a)
  {
    for i := 0 to |fallback|
      invariant InsertByScore(fallback, a) == fallback[..i] + InsertByScore(fallback[i..], a)
    {
      if a.key.score > fallback[i].key.score {
        return fallback[..i] + [a] + fallback[i..];
      }
      assert fallback[i..][1..] == fallback[i + 1..];
    }
    return fallback + [a];
  }

  /** `q` becomes a fallback of `p`; its own fallbacks go first. */
  method AddFallback(p: Plan, q: Plan) returns (r: Plan)
    ensures r == Demoted(p, q)
  {
    var fallback := p.fallback;
    for i := 0 to |q.fallback|
      invariant fallback == InsertAll(p.fallback, q.fallback[..i])
    {
      assert q.fallback[..i + 1][..i] == q.fallback[..i];
      fallback := InsertFallback(fallback, q.fallback[i]);
    }
    assert q.fallback[..|q.fallback|] == q.fallback;
    fallback := InsertFallback(fallback, q.own);
    r := Plan(p.own, fallback);
  }
}
