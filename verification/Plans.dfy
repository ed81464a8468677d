/** Plans for ranges of message sizes: what a list of plans means, and the pure steps of changing one.

    A list means one thing: for every message size, the stack of plans to try.  Adding a plan is meant to add it to
    the bag of every size in its range and to change nothing else.
 */
module Plans {

  /** What decides which plan is taken; identifiers and names play no part. */
  datatype Key = Key(prepare: nat, vgroup: nat, score: nat)

  /** Message sizes from `start` up to, not including, `end`. */
  datatype Range = Range(start: nat, end: nat)

  datatype Attr = Attr(key: Key, id: int, range: Range)

  /** A first-class plan with its fallbacks. */
  datatype Plan = Plan(own: Attr, fallback: seq<Attr>)

  predicate Covers(r: Range, m: nat)
  {
    r.start <= m < r.end
  }

  function Keys(attrs: seq<Attr>): seq<Key>
  {
    seq(|attrs|, i requires 0 <= i < |attrs| => attrs[i].key)
  }

  function Stack(p: Plan): seq<Key>
  {
    [p.own.key] + Keys(p.fallback)
  }

  /** The plans for message size `m`, in the order in which they are tried. */
  function StackAt(plans: seq<Plan>, m: nat): seq<Key>
  {
    if plans == [] then []
    else if Covers(plans[0].own.range, m) then Stack(plans[0])
    else StackAt(plans[1..], m)
  }

  function BagAt(plans: seq<Plan>, m: nat): multiset<Key>
  {
    multiset(StackAt(plans, m))
  }

  // ----- well-formed lists -----

  predicate Descending(attrs: seq<Attr>)
  {
    forall i: nat, j: nat :: i < j < |attrs| ==> attrs[i].key.score >= attrs[j].key.score
  }

  predicate FallbackOk(a: Attr, own: Attr)
  {
    a.range == own.range && a.key.score <= own.key.score
  }

  /** Fallbacks have their owner's range, come by descending score and never outscore the owner. */
  predicate GoodPlan(p: Plan)
  {
    && p.own.range.start < p.own.range.end
    && Descending(p.fallback)
    && forall i: nat :: i < |p.fallback| ==> FallbackOk(p.fallback[i], p.own)
  }

  predicate Before(p: Plan, q: Plan)
  {
    p.own.range.end <= q.own.range.start
  }

  predicate Sorted(plans: seq<Plan>)
  {
    forall i: nat, j: nat :: i < j < |plans| ==> Before(plans[i], plans[j])
  }

  predicate WellFormed(plans: seq<Plan>)
  {
    (forall i: nat :: i < |plans| ==> GoodPlan(plans[i])) && Sorted(plans)
  }

  ghost predicate SameStacks(x: seq<Plan>, y: seq<Plan>)
  {
    forall m: nat :: StackAt(x, m) == StackAt(y, m)
  }

  // ----- lookups -----

  lemma {:induction false} StackConcat(x: seq<Plan>, y: seq<Plan>, m: nat)
    ensures StackAt(x + y, m) == if StackAt(x, m) != [] then StackAt(x, m) else StackAt(y, m)
  {
    if x == [] {
      assert x + y == y;
    } else {
      assert (x + y)[1..] == x[1..] + y;
      StackConcat(x[1..], y, m);
    }
  }

  lemma {:induction false} StackFound(plans: seq<Plan>, m: nat) returns (i: nat)
    requires StackAt(plans, m) != []
    ensures i < |plans| && Covers(plans[i].own.range, m) && StackAt(plans, m) == Stack(plans[i])
  {
    if Covers(plans[0].own.range, m) {
      i := 0;
    } else {
      var j := StackFound(plans[1..], m);
      i := j + 1;
    }
  }

  lemma {:induction false} NotCovered(plans: seq<Plan>, m: nat)
    requires forall i: nat :: i < |plans| ==> !Covers(plans[i].own.range, m)
    ensures StackAt(plans, m) == []
  {
    if plans != [] {
      NotCovered(plans[1..], m);
    }
  }

  lemma {:induction false} StackIs(plans: seq<Plan>, m: nat, i: nat)
    requires Sorted(plans) && i < |plans| && Covers(plans[i].own.range, m)
    requires forall j: nat :: j < |plans| ==> plans[j].own.range.start < plans[j].own.range.end
    ensures StackAt(plans, m) == Stack(plans[i])
  {
    if i > 0 {
      assert Before(plans[0], plans[i]);
      StackIs(plans[1..], m, i - 1);
    }
  }

  /** Replacing a middle part by one with the same stacks changes no stack. */
  lemma ReplaceMiddle(x: seq<Plan>, y: seq<Plan>, y': seq<Plan>, z: seq<Plan>)
    requires SameStacks(y, y')
    ensures SameStacks(x + y + z, x + y' + z)
  {
    forall m: nat ensures StackAt(x + y + z, m) == StackAt(x + y' + z, m) {
      StackConcat(x + y, z, m);
      StackConcat(x, y, m);
      StackConcat(x + y', z, m);
      StackConcat(x, y', m);
    }
  }

  // ----- splitting -----

  function Clip(a: Attr, start: nat, end: nat): Attr
  {
    a.(range := Range(start, end))
  }

  function ClipAll(attrs: seq<Attr>, start: nat, end: nat): seq<Attr>
  {
    seq(|attrs|, i requires 0 <= i < |attrs| => Clip(attrs[i], start, end))
  }

  /** A plan for another range. */
  function Clipped(p: Plan, start: nat, end: nat): Plan
  {
    Plan(Clip(p.own, start, end), ClipAll(p.fallback, start, end))
  }

  lemma ClippedIsGood(p: Plan, start: nat, end: nat)
    requires GoodPlan(p) && start < end
    ensures GoodPlan(Clipped(p, start, end)) && Stack(Clipped(p, start, end)) == Stack(p)
  {
  }

  /** The position at which `q` cuts `p`, if it does. */
  function SplitPos(p: Range, q: Range): nat
  {
    if p.start < q.start < p.end then q.start
    else if p.start < q.end < p.end then q.end
    else 0
  }

  /** A split is only for lookups as if nothing had happened. */
  lemma SplitKeepsStacks(p: Plan, mid: nat)
    requires GoodPlan(p) && p.own.range.start < mid < p.own.range.end
    ensures var l, r := Clipped(p, p.own.range.start, mid), Clipped(p, mid, p.own.range.end);
      SameStacks([p], [l, r]) && GoodPlan(l) && GoodPlan(r) && Before(l, r)
  {
    var l, r := Clipped(p, p.own.range.start, mid), Clipped(p, mid, p.own.range.end);
    ClippedIsGood(p, p.own.range.start, mid);
    ClippedIsGood(p, mid, p.own.range.end);
    forall m: nat ensures StackAt([p], m) == StackAt([l, r], m) {
      assert [l, r][1..] == [r] && [r][1..] == [] && [p][1..] == [];
    }
  }

  function SplitAt(plans: seq<Plan>, i: nat, mid: nat): seq<Plan>
    requires i < |plans|
  {
    var p := plans[i];
    plans[..i] + [Clipped(p, p.own.range.start, mid), Clipped(p, mid, p.own.range.end)] + plans[i + 1..]
  }

  lemma SplitAtKeeps(plans: seq<Plan>, i: nat, mid: nat)
    requires WellFormed(plans) && i < |plans| && plans[i].own.range.start < mid < plans[i].own.range.end
    ensures WellFormed(SplitAt(plans, i, mid)) && SameStacks(plans, SplitAt(plans, i, mid))
  {
    var p := plans[i];
    var l, r := Clipped(p, p.own.range.start, mid), Clipped(p, mid, p.own.range.end);
    SplitKeepsStacks(p, mid);
    ReplaceMiddle(plans[..i], [p], [l, r], plans[i + 1..]);
    assert plans == plans[..i] + [p] + plans[i + 1..];
    SplitSorted(plans, i, mid);
  }

  lemma SplitSorted(plans: seq<Plan>, i: nat, mid: nat)
    requires WellFormed(plans) && i < |plans| && plans[i].own.range.start < mid < plans[i].own.range.end
    requires var p := plans[i]; GoodPlan(Clipped(p, p.own.range.start, mid)) && GoodPlan(Clipped(p, mid, p.own.range.end))
    ensures WellFormed(SplitAt(plans, i, mid))
  {
    var s := SplitAt(plans, i, mid);
    forall k: nat | k < |s| ensures GoodPlan(s[k]) {
      assert k > i + 1 ==> s[k] == plans[k - 1];
    }
    forall k: nat, j: nat | k < j < |s| ensures Before(s[k], s[j]) {
      var k' := if k <= i then k else k - 1;
      var j' := if j <= i then j else j - 1;
      assert k' < j' ==> Before(plans[k'], plans[j']);
    }
  }

  // ----- fallbacks -----

  /** Behind all fallbacks that score at least as much. */
  function InsertByScore(attrs: seq<Attr>, a: Attr): seq<Attr>
  {
    if attrs == [] then [a]
    else if a.key.score > attrs[0].key.score then [a] + attrs
    else [attrs[0]] + InsertByScore(attrs[1..], a)
  }

  function InsertAll(attrs: seq<Attr>, more: seq<Attr>): seq<Attr>
  {
    if more == [] then attrs else InsertByScore(InsertAll(attrs, more[..|more| - 1]), more[|more| - 1])
  }

  /** `q` becomes a fallback of `p`, and so do the fallbacks of `q`. */
  function Demoted(p: Plan, q: Plan): Plan
  {
    Plan(p.own, InsertByScore(InsertAll(p.fallback, q.fallback), q.own))
  }

  /** Where the new fallback goes: behind those with at least its score, before the first with less. */
  lemma {:induction false} InsertPos(attrs: seq<Attr>, a: Attr) returns (k: nat)
    ensures k <= |attrs| && InsertByScore(attrs, a) == attrs[..k] + [a] + attrs[k..]
    ensures forall i: nat :: i < k ==> attrs[i].key.score >= a.key.score
    ensures k < |attrs| ==> attrs[k].key.score < a.key.score
  {
    if attrs == [] || a.key.score > attrs[0].key.score {
      k := 0;
    } else {
      var j := InsertPos(attrs[1..], a);
      k := j + 1;
      assert attrs[..k] == [attrs[0]] + attrs[1..][..j];
    }
  }

  lemma KeysConcat(x: seq<Attr>, y: seq<Attr>)
    ensures Keys(x + y) == Keys(x) + Keys(y)
  {
  }

  lemma InsertKeeps(attrs: seq<Attr>, a: Attr)
    ensures multiset(Keys(InsertByScore(attrs, a))) == multiset(Keys(attrs)) + multiset{a.key}
  {
    var k := InsertPos(attrs, a);
    var x, y := attrs[..k], attrs[k..];
    assert attrs == x + y;
    KeysConcat(x, y);
    KeysConcat(x + [a], y);
    KeysConcat(x, [a]);
    assert Keys([a]) == [a.key];
  }

  /** Every fallback after an insertion is the new one or an old one. */
  predicate AllFrom(attrs: seq<Attr>, own: Attr)
  {
    forall i: nat :: i < |attrs| ==> FallbackOk(attrs[i], own)
  }

  lemma InsertGood(attrs: seq<Attr>, a: Attr, own: Attr)
    requires Descending(attrs) && AllFrom(attrs, own) && FallbackOk(a, own)
    ensures Descending(InsertByScore(attrs, a)) && AllFrom(InsertByScore(attrs, a), own)
  {
    var k := InsertPos(attrs, a);
  }

  lemma {:induction false} InsertAllGood(attrs: seq<Attr>, more: seq<Attr>, own: Attr)
    requires Descending(attrs) && AllFrom(attrs, own) && AllFrom(more, own)
    ensures Descending(InsertAll(attrs, more)) && AllFrom(InsertAll(attrs, more), own)
    ensures multiset(Keys(InsertAll(attrs, more))) == multiset(Keys(attrs)) + multiset(Keys(more))
    decreases |more|
  {
    if more != [] {
      var front, last := more[..|more| - 1], more[|more| - 1];
      InsertAllGood(attrs, front, own);
      InsertGood(InsertAll(attrs, front), last, own);
      InsertKeeps(InsertAll(attrs, front), last);
      LastKey(more);
    }
  }

  lemma LastKey(more: seq<Attr>)
    requires more != []
    ensures multiset(Keys(more)) == multiset(Keys(more[..|more| - 1])) + multiset{more[|more| - 1].key}
  {
    var front, last := more[..|more| - 1], more[|more| - 1];
    KeysConcat(front, [last]);
    assert more == front + [last] && Keys([last]) == [last.key];
  }

  /** The winner takes over the loser and its fallbacks: the stacks join as bags. */
  lemma DemotedIsGood(p: Plan, q: Plan)
    requires GoodPlan(p) && GoodPlan(q) && p.own.range == q.own.range && q.own.key.score <= p.own.key.score
    ensures GoodPlan(Demoted(p, q)) && Demoted(p, q).own == p.own
    ensures multiset(Stack(Demoted(p, q))) == multiset(Stack(p)) + multiset(Stack(q))
  {
    InsertAllGood(p.fallback, q.fallback, p.own);
    var all := InsertAll(p.fallback, q.fallback);
    InsertGood(all, q.own, p.own);
    InsertKeeps(all, q.own);
  }

  /** The fallbacks of one score, in order. */
  function AtScore(attrs: seq<Attr>, score: nat): seq<Attr>
  {
    if attrs == [] then []
    else (if attrs[0].key.score == score then [attrs[0]] else []) + AtScore(attrs[1..], score)
  }

  /** A new fallback comes last among those with its score; the order of the others stays. */
  lemma {:induction false} InsertAtScore(attrs: seq<Attr>, a: Attr, score: nat)
    requires Descending(attrs)
    ensures AtScore(InsertByScore(attrs, a), score) == AtScore(attrs, score) + if a.key.score == score then [a] else []
  {
    if attrs == [] {
      assert [a][1..] == [];
    } else if a.key.score > attrs[0].key.score {
      assert ([a] + attrs)[1..] == attrs;
      if a.key.score == score {
        NoneAtScore(attrs, score);
      }
    } else {
      var rest := InsertByScore(attrs[1..], a);
      InsertAtScore(attrs[1..], a, score);
      assert ([attrs[0]] + rest)[1..] == rest;
    }
  }

  lemma {:induction false} NoneAtScore(attrs: seq<Attr>, score: nat)
    requires forall i: nat :: i < |attrs| ==> attrs[i].key.score != score
    ensures AtScore(attrs, score) == []
  {
    if attrs != [] {
      NoneAtScore(attrs[1..], score);
    }
  }

  lemma {:induction false} AtScoreLast(attrs: seq<Attr>, score: nat)
    requires attrs != []
    ensures var front, last := attrs[..|attrs| - 1], attrs[|attrs| - 1];
      AtScore(attrs, score) == AtScore(front, score) + if last.key.score == score then [last] else []
  {
    if |attrs| > 1 {
      var rest := attrs[1..];
      AtScoreLast(rest, score);
      assert rest[..|rest| - 1] == attrs[..|attrs| - 1][1..] && rest[|rest| - 1] == attrs[|attrs| - 1];
    } else {
      assert attrs[1..] == [] && attrs[..0] == [];
    }
  }

  lemma {:induction false} InsertAllAtScore(attrs: seq<Attr>, more: seq<Attr>, own: Attr, score: nat)
    requires Descending(attrs) && AllFrom(attrs, own) && AllFrom(more, own)
    ensures AtScore(InsertAll(attrs, more), score) == AtScore(attrs, score) + AtScore(more, score)
    decreases |more|
  {
    if more != [] {
      var front, last := more[..|more| - 1], more[|more| - 1];
      InsertAllGood(attrs, front, own);
      InsertAllAtScore(attrs, front, own, score);
      InsertAtScore(InsertAll(attrs, front), last, score);
      AtScoreLast(more, score);
    }
  }

  /** Among fallbacks with the same score the winner's come first, then the loser's, then the loser itself; with the
      descending order this settles the whole list. */
  lemma DemotedOrder(p: Plan, q: Plan, score: nat)
    requires GoodPlan(p) && GoodPlan(q) && p.own.range == q.own.range && q.own.key.score <= p.own.key.score
    ensures AtScore(Demoted(p, q).fallback, score)
         == AtScore(p.fallback, score) + AtScore(q.fallback, score) + if q.own.key.score == score then [q.own] else []
  {
    InsertAllGood(p.fallback, q.fallback, p.own);
    InsertAllAtScore(p.fallback, q.fallback, p.own, score);
    InsertAtScore(InsertAll(p.fallback, q.fallback), q.own, score);
  }

  /** The keys of one score, in order. */
  function OfScore(keys: seq<Key>, score: nat): seq<Key>
  {
    if keys == [] then [] else (if keys[0].score == score then [keys[0]] else []) + OfScore(keys[1..], score)
  }

  lemma {:induction false} OfScoreKeys(attrs: seq<Attr>, score: nat)
    ensures OfScore(Keys(attrs), score) == Keys(AtScore(attrs, score))
  {
    if attrs != [] {
      assert Keys(attrs)[1..] == Keys(attrs[1..]);
      OfScoreKeys(attrs[1..], score);
      KeysConcat(if attrs[0].key.score == score then [attrs[0]] else [], AtScore(attrs[1..], score));
    }
  }

  /** The order of fallbacks, in terms of what is tried. */
  lemma DemotedTail(p: Plan, q: Plan, score: nat)
    requires GoodPlan(p) && GoodPlan(q) && p.own.range == q.own.range && q.own.key.score <= p.own.key.score
    ensures OfScore(Keys(Demoted(p, q).fallback), score)
         == OfScore(Keys(p.fallback), score) + OfScore(Keys(q.fallback), score)
            + if q.own.key.score == score then [q.own.key] else []
  {
    DemotedOrder(p, q, score);
    OfScoreKeys(p.fallback, score);
    OfScoreKeys(q.fallback, score);
    OfScoreKeys(Demoted(p, q).fallback, score);
    var last := if q.own.key.score == score then [q.own] else [];
    KeysConcat(AtScore(p.fallback, score), AtScore(q.fallback, score));
    KeysConcat(AtScore(p.fallback, score) + AtScore(q.fallback, score), last);
  }

  // ----- compaction -----

  /** The two attributes differ only in adjoining ranges. */
  predicate Adjoin(a: Attr, b: Attr)
  {
    a.key == b.key && a.range.end == b.range.start
  }

  predicate Compactible(p: Plan, q: Plan)
  {
    && Adjoin(p.own, q.own) && |p.fallback| == |q.fallback|
    && forall i: nat :: i < |p.fallback| ==> Adjoin(p.fallback[i], q.fallback[i])
  }

  function Stretch(a: Attr, end: nat): Attr
  {
    a.(range := Range(a.range.start, end))
  }

  /** `p` takes over the range of `q`, and so do its fallbacks. */
  function Joined(p: Plan, q: Plan): Plan
    requires |p.fallback| == |q.fallback|
  {
    Plan(Stretch(p.own, q.own.range.end),
         seq(|p.fallback|, i requires 0 <= i < |p.fallback| => Stretch(p.fallback[i], q.fallback[i].range.end)))
  }

  function Compacted(plans: seq<Plan>): seq<Plan>
    decreases |plans|
  {
    if |plans| <= 1 then plans
    else if Compactible(plans[0], plans[1]) then Compacted([Joined(plans[0], plans[1])] + plans[2..])
    else [plans[0]] + Compacted(plans[1..])
  }

  lemma JoinedIsGood(p: Plan, q: Plan)
    requires GoodPlan(p) && GoodPlan(q) && Compactible(p, q)
    ensures GoodPlan(Joined(p, q)) && Joined(p, q).own.range == Range(p.own.range.start, q.own.range.end)
    ensures Stack(Joined(p, q)) == Stack(p) == Stack(q)
  {
    assert Keys(p.fallback) == Keys(q.fallback);
    assert Keys(Joined(p, q).fallback) == Keys(p.fallback);
  }

  lemma JoinKeepsStacks(p: Plan, q: Plan)
    requires GoodPlan(p) && GoodPlan(q) && Compactible(p, q)
    ensures SameStacks([p, q], [Joined(p, q)])
  {
    JoinedIsGood(p, q);
    var pq := Joined(p, q);
    forall m: nat ensures StackAt([p, q], m) == StackAt([pq], m) {
      assert [p, q][1..] == [q] && [q][1..] == [] && [pq][1..] == [];
    }
  }

  lemma JoinFirst(plans: seq<Plan>)
    requires WellFormed(plans) && |plans| > 1 && Compactible(plans[0], plans[1])
    ensures var plans' := [Joined(plans[0], plans[1])] + plans[2..];
      WellFormed(plans') && SameStacks(plans, plans')
  {
    var p, q := plans[0], plans[1];
    var plans' := [Joined(p, q)] + plans[2..];
    JoinedIsGood(p, q);
    JoinKeepsStacks(p, q);
    ReplaceMiddle([], [p, q], [Joined(p, q)], plans[2..]);
    assert plans == [] + [p, q] + plans[2..];
    assert plans' == [] + [Joined(p, q)] + plans[2..];
    forall i: nat, j: nat | i < j < |plans'| ensures Before(plans'[i], plans'[j]) {
      assert Before(plans[if i == 0 then 1 else i + 1], plans[j + 1]);
    }
  }

  /** Compaction keeps every lookup, down to the order, and the list well formed. */
  lemma {:induction false} CompactedKeeps(plans: seq<Plan>)
    requires WellFormed(plans)
    ensures WellFormed(Compacted(plans)) && SameStacks(plans, Compacted(plans))
    ensures plans != [] ==> Compacted(plans) != [] && Compacted(plans)[0].own.range.start == plans[0].own.range.start
    decreases |plans|
  {
    if |plans| > 1 {
      if Compactible(plans[0], plans[1]) {
        JoinFirst(plans);
        JoinedIsGood(plans[0], plans[1]);
        CompactedKeeps([Joined(plans[0], plans[1])] + plans[2..]);
      } else {
        CompactedKeeps(plans[1..]);
        KeepFirst(plans, Compacted(plans[1..]));
      }
    }
  }

  lemma KeepFirst(plans: seq<Plan>, rest: seq<Plan>)
    requires WellFormed(plans) && |plans| > 1 && WellFormed(rest) && SameStacks(plans[1..], rest)
    requires rest != [] && rest[0].own.range.start == plans[1].own.range.start
    ensures WellFormed([plans[0]] + rest) && SameStacks(plans, [plans[0]] + rest)
  {
    var plans' := [plans[0]] + rest;
    ReplaceMiddle([plans[0]], plans[1..], rest, []);
    assert plans == [plans[0]] + plans[1..] + [] && plans' == [plans[0]] + rest + [];
    assert Before(plans[0], plans[1]);
    forall j: nat | 0 < j < |plans'| ensures Before(plans'[0], plans'[j]) {
      assert j > 1 ==> Before(rest[0], rest[j - 1]);
      assert GoodPlan(rest[0]);
    }
  }

  predicate FullyCompacted(plans: seq<Plan>)
  {
    forall i: nat {:trigger plans[i]} :: i + 1 < |plans| ==> !Compactible(plans[i], plans[i + 1])
  }

  /** Joining does not change how the front of a plan fits another. */
  lemma JoinedFront(o: Plan, p: Plan, q: Plan)
    requires |p.fallback| == |q.fallback|
    ensures Compactible(o, Joined(p, q)) <==> Compactible(o, p)
  {
    var pq := Joined(p, q);
    if Compactible(o, pq) {
      forall i: nat | i < |o.fallback| ensures Adjoin(o.fallback[i], p.fallback[i]) {
        assert Adjoin(o.fallback[i], pq.fallback[i]);
      }
    }
  }

  lemma {:induction false} CompactedHead(plans: seq<Plan>, o: Plan)
    requires plans != []
    ensures Compacted(plans) != [] && (Compactible(o, Compacted(plans)[0]) <==> Compactible(o, plans[0]))
    decreases |plans|
  {
    if |plans| > 1 && Compactible(plans[0], plans[1]) {
      CompactedHead([Joined(plans[0], plans[1])] + plans[2..], o);
      JoinedFront(o, plans[0], plans[1]);
    }
  }

  /** Afterwards no two neighbours can be compacted. */
  lemma {:induction false} CompactedFully(plans: seq<Plan>)
    ensures FullyCompacted(Compacted(plans))
    decreases |plans|
  {
    if |plans| > 1 {
      if Compactible(plans[0], plans[1]) {
        CompactedFully([Joined(plans[0], plans[1])] + plans[2..]);
      } else {
        var rest := Compacted(plans[1..]);
        CompactedFully(plans[1..]);
        CompactedHead(plans[1..], plans[0]);
        forall i: nat | i + 1 < |[plans[0]] + rest|
          ensures !Compactible(([plans[0]] + rest)[i], ([plans[0]] + rest)[i + 1])
        {
          assert i > 0 ==> !Compactible(rest[i - 1], rest[i]);
        }
      }
    }
  }

  // ----- what is joined, said by the lookups -----

  /** Two neighbours can be joined exactly if their ranges adjoin and they mean the same for every size. */
  lemma CompactibleIff(p: Plan, q: Plan)
    requires GoodPlan(p) && GoodPlan(q)
    ensures Compactible(p, q) <==> p.own.range.end == q.own.range.start && Stack(p) == Stack(q)
  {
    if Compactible(p, q) {
      JoinedIsGood(p, q);
    } else if p.own.range.end == q.own.range.start && Stack(p) == Stack(q) {
      assert Stack(p)[0] == p.own.key && Stack(q)[0] == q.own.key;
      assert |Stack(p)| == |p.fallback| + 1 && |Stack(q)| == |q.fallback| + 1;
      forall i: nat | i < |p.fallback| ensures Adjoin(p.fallback[i], q.fallback[i]) {
        assert Stack(p)[i + 1] == p.fallback[i].key && Stack(q)[i + 1] == q.fallback[i].key;
        assert FallbackOk(p.fallback[i], p.own) && FallbackOk(q.fallback[i], q.own);
      }
    }
  }

  /** Where one range ends and the next begins, the stack changes. */
  predicate StacksDiffer(plans: seq<Plan>)
  {
    forall i: nat {:trigger plans[i]} :: i + 1 < |plans| && plans[i].own.range.end == plans[i + 1].own.range.start ==>
      Stack(plans[i]) != Stack(plans[i + 1])
  }

  lemma FullyIsDiffer(plans: seq<Plan>)
    requires WellFormed(plans) && FullyCompacted(plans)
    ensures StacksDiffer(plans)
  {
    forall i: nat {:trigger plans[i]} | i + 1 < |plans| && plans[i].own.range.end == plans[i + 1].own.range.start
      ensures Stack(plans[i]) != Stack(plans[i + 1])
    {
      CompactibleIff(plans[i], plans[i + 1]);
    }
  }

  /** The lookups from the first plan on: its stack up to its end, and then those of the others. */
  lemma StackFrom(plans: seq<Plan>, m: nat)
    requires WellFormed(plans) && plans != []
    ensures m < plans[0].own.range.start ==> StackAt(plans, m) == []
    ensures Covers(plans[0].own.range, m) ==> StackAt(plans, m) == Stack(plans[0]) && StackAt(plans[1..], m) == []
    ensures m < plans[0].own.range.end ==> StackAt(plans[1..], m) == []
    ensures m >= plans[0].own.range.end ==> StackAt(plans, m) == StackAt(plans[1..], m)
  {
    assert GoodPlan(plans[0]);
    if m < plans[0].own.range.end {
      forall i: nat | i < |plans[1..]| ensures !Covers(plans[1..][i].own.range, m) {
        assert Before(plans[0], plans[i + 1]);
      }
      NotCovered(plans[1..], m);
    }
  }

  lemma TailOk(plans: seq<Plan>)
    requires WellFormed(plans) && StacksDiffer(plans) && plans != []
    ensures WellFormed(plans[1..]) && StacksDiffer(plans[1..])
  {
    var rest := plans[1..];
    forall i: nat {:trigger rest[i]} | i + 1 < |rest| && rest[i].own.range.end == rest[i + 1].own.range.start
      ensures Stack(rest[i]) != Stack(rest[i + 1])
    {
      assert rest[i] == plans[i + 1] && rest[i + 1] == plans[i + 2];
    }
  }

  /** The stack changes where the first range ends. */
  lemma ChangesAtEnd(plans: seq<Plan>)
    requires WellFormed(plans) && StacksDiffer(plans) && plans != []
    ensures StackAt(plans, plans[0].own.range.end) != Stack(plans[0])
  {
    var m := plans[0].own.range.end;
    StackFrom(plans, m);
    if |plans| > 1 {
      TailOk(plans);
      StackFrom(plans[1..], m);
      assert Before(plans[0], plans[1]) && GoodPlan(plans[1]) && plans[1..][0] == plans[1];
    }
  }

  /** The first range is where the first stack is. */
  lemma SameFirst(x: seq<Plan>, y: seq<Plan>)
    requires WellFormed(x) && WellFormed(y) && StacksDiffer(x) && StacksDiffer(y) && SameStacks(x, y)
    requires x != [] && y != []
    ensures x[0].own.range == y[0].own.range && Stack(x[0]) == Stack(y[0])
  {
    assert GoodPlan(x[0]) && GoodPlan(y[0]);
    var a, b := x[0].own.range, y[0].own.range;
    forall m: nat ensures StackAt(x, m) == StackAt(y, m) && (Covers(a, m) ==> StackAt(x, m) == Stack(x[0]))
                          && (Covers(b, m) ==> StackAt(y, m) == Stack(y[0]))
                          && (m < a.start ==> StackAt(x, m) == []) && (m < b.start ==> StackAt(y, m) == []) {
      StackFrom(x, m);
      StackFrom(y, m);
    }
    assert StackAt(x, a.start) == StackAt(y, a.start) && StackAt(x, b.start) == StackAt(y, b.start);
    assert a.start == b.start && Stack(x[0]) == Stack(y[0]);
    ChangesAtEnd(x);
    ChangesAtEnd(y);
    assert StackAt(x, a.end) == StackAt(y, a.end) && StackAt(x, b.end) == StackAt(y, b.end);
  }

  lemma SameTails(x: seq<Plan>, y: seq<Plan>)
    requires WellFormed(x) && WellFormed(y) && SameStacks(x, y) && x != [] && y != []
    requires x[0].own.range == y[0].own.range
    ensures SameStacks(x[1..], y[1..])
  {
    forall m: nat ensures StackAt(x[1..], m) == StackAt(y[1..], m) {
      StackFrom(x, m);
      StackFrom(y, m);
      assert StackAt(x, m) == StackAt(y, m);
    }
  }

  /** Same ranges and same stacks, plan by plan. */
  predicate SamePlans(x: seq<Plan>, y: seq<Plan>)
  {
    |x| == |y| && forall i: nat :: i < |x| ==> x[i].own.range == y[i].own.range && Stack(x[i]) == Stack(y[i])
  }

  /** A compacted list is determined by its lookups. */
  lemma {:induction false} CompactedUnique(x: seq<Plan>, y: seq<Plan>)
    requires WellFormed(x) && WellFormed(y) && StacksDiffer(x) && StacksDiffer(y) && SameStacks(x, y)
    ensures SamePlans(x, y)
    decreases |x|
  {
    if x == [] {
      EmptyToo(y, x);
    } else if y == [] {
      EmptyToo(x, y);
    } else {
      SameFirst(x, y);
      SameTails(x, y);
      TailOk(x);
      TailOk(y);
      CompactedUnique(x[1..], y[1..]);
      forall i: nat | i < |x| ensures x[i].own.range == y[i].own.range && Stack(x[i]) == Stack(y[i]) {
        assert i > 0 ==> x[i] == x[1..][i - 1] && y[i] == y[1..][i - 1];
      }
    }
  }

  lemma CoversStart(x: seq<Plan>)
    requires WellFormed(x) && x != []
    ensures StackAt(x, x[0].own.range.start) != []
  {
    assert GoodPlan(x[0]);
  }

  lemma EmptyToo(x: seq<Plan>, y: seq<Plan>)
    requires WellFormed(x) && SameStacks(x, y) && y == []
    ensures x == []
  {
    if x != [] {
      CoversStart(x);
    }
  }

  lemma {:induction false} CompactedFix(plans: seq<Plan>)
    requires FullyCompacted(plans)
    ensures Compacted(plans) == plans
    decreases |plans|
  {
    if |plans| > 1 {
      assert !Compactible(plans[0], plans[1]);
      forall i: nat | i + 1 < |plans[1..]| ensures !Compactible(plans[1..][i], plans[1..][i + 1]) {
        assert !Compactible(plans[i + 1], plans[i + 2]);
      }
      CompactedFix(plans[1..]);
    }
  }

  /** Compacting twice is compacting once. */
  lemma CompactedTwice(plans: seq<Plan>)
    ensures Compacted(Compacted(plans)) == Compacted(plans)
  {
    CompactedFully(plans);
    CompactedFix(Compacted(plans));
  }
}
