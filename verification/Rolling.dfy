/** The rolling exchange: every rank keeps a cyclic window of blocks and grows it alternately at its two ends,
    exchanging with its right and left neighbour in turn.  When the group is odd, rank 0 exchanges with both
    neighbours in odd steps and rests in even ones.

    One exchange pattern serves three uses: a plain group, the groups of ranks with the same offset on their
    nodes, and the ranks of one node, which exchange one block per node in every step.
 */
module Rolling {
  import opened Network
  import opened LockStep
  import opened Cyclic

  /** One exchange with member `peer` of the group: block `give` for block `take`, by group index. */
  datatype Xchg = Xchg(peer: nat, give: nat, take: nat)

  /** Rank 0 of an odd group. */
  predicate Special(n: nat, k: nat)
  {
    k == 0 && n % 2 == 1
  }

  /** How often rank `k` has grown its window at the left and right end before step `t`; step 0 is an odd step. */
  function Back(n: nat, k: nat, t: nat): nat
  {
    if Special(n, k) || k % 2 == 1 then (t + 1) / 2 else t / 2
  }

  function Fore(n: nat, k: nat, t: nat): nat
  {
    if Special(n, k) || k % 2 == 0 then (t + 1) / 2 else t / 2
  }

  function Steps(n: nat, k: nat): nat
  {
    if n <= 1 then 0 else if Special(n, k) then n - 2 else n - 1
  }

  predicate InRange(n: nat, k: nat, t: nat)
  {
    k < n && t <= Steps(n, k)
  }

  function Left(n: nat, k: nat, t: nat): nat
    requires InRange(n, k, t)
  {
    Wrap(k - Back(n, k, t), n)
  }

  function Right(n: nat, k: nat, t: nat): nat
    requires InRange(n, k, t)
  {
    Wrap(k + Fore(n, k, t), n)
  }

  /** The exchanges of a step, in the order in which they are posted, for a window from `l` to `r`. */
  function StepXchgs(n: nat, k: nat, l: nat, r: nat, odd: bool): seq<Xchg>
    requires k < n && l < n && r < n
  {
    var right, left := Wrap(k + 1, n), Wrap(k - 1, n);
    if odd then
      (if k % 2 == 0 then [Xchg(right, l, Wrap(r + 1, n))] else [])
      + (if k % 2 == 1 || Special(n, k) then [Xchg(left, r, Wrap(l - 1, n))] else [])
    else if Special(n, k) then []
    else if k % 2 == 0 then [Xchg(left, Wrap(r - 1, n), Wrap(l - 1, n))]
    else [Xchg(right, Wrap(l + 1, n), Wrap(r + 1, n))]
  }

  /** The exchanges of rank `k` in step `t`. */
  function Xchgs(n: nat, k: nat, t: nat): seq<Xchg>
    requires InRange(n, k, t)
  {
    StepXchgs(n, k, Left(n, k, t), Right(n, k, t), t % 2 == 0)
  }

  /** The two kinds of step in closed form, after `h` rounds of two steps. */
  function OddStep(n: nat, k: nat, h: nat): seq<Xchg>
    requires k < n && 2 * h < n
  {
    (if k % 2 == 0 then [Xchg(Wrap(k + 1, n), Wrap(k - h, n), Wrap(k + h + 1, n))] else [])
    + (if k % 2 == 1 || Special(n, k) then [Xchg(Wrap(k - 1, n), Wrap(k + h, n), Wrap(k - h - 1, n))] else [])
  }

  function EvenStep(n: nat, k: nat, h: nat): seq<Xchg>
    requires k < n && 2 * h + 1 < n
  {
    if Special(n, k) then []
    else if k % 2 == 0 then [Xchg(Wrap(k - 1, n), Wrap(k + h, n), Wrap(k - h - 1, n))]
    else [Xchg(Wrap(k + 1, n), Wrap(k - h, n), Wrap(k + h + 1, n))]
  }

  lemma Closed(n: nat, k: nat, t: nat)
    requires k < n && t < Steps(n, k)
    ensures Xchgs(n, k, t) == if t % 2 == 0 then OddStep(n, k, t / 2) else EvenStep(n, k, t / 2)
  {
  }

  lemma OddSymmetric(n: nat, k: nat, h: nat, x: Xchg)
    requires k < n && 2 * h + 1 < n && x in OddStep(n, k, h)
    ensures x.peer < n && x.peer != k && x.give < n && x.take < n
    ensures Xchg(k, x.take, x.give) in OddStep(n, x.peer, h)
  {
    if x.peer == Wrap(k + 1, n) && k % 2 == 0 && x == OddStep(n, k, h)[0] {
      var p := x.peer;
      assert p % 2 == 1 || Special(n, p);
      var s := OddStep(n, p, h);
      assert s[|s| - 1] == Xchg(k, x.take, x.give);
    } else {
      assert x.peer == Wrap(k - 1, n);
      var p := x.peer;
      assert p % 2 == 0;
      assert OddStep(n, p, h)[0] == Xchg(k, x.take, x.give);
    }
  }

  lemma EvenPartner(n: nat, k: nat, h: nat, p: nat)
    requires k < n && 2 * h + 2 < n && !Special(n, k) && p == if k % 2 == 0 then Wrap(k - 1, n) else Wrap(k + 1, n)
    ensures p < n && p != k && !Special(n, p) && p % 2 != k % 2
    ensures k % 2 == 0 ==> Wrap(p + 1, n) == k
    ensures k % 2 == 0 ==> Wrap(p - h, n) == Wrap(k - h - 1, n) && Wrap(p + h + 1, n) == Wrap(k + h, n)
    ensures k % 2 == 1 ==> Wrap(p - 1, n) == k
    ensures k % 2 == 1 ==> Wrap(p + h, n) == Wrap(k + h + 1, n) && Wrap(p - h - 1, n) == Wrap(k - h, n)
  {
  }

  lemma EvenSymmetric(n: nat, k: nat, h: nat, x: Xchg)
    requires k < n && 2 * h + 2 < n && x in EvenStep(n, k, h)
    ensures x.peer < n && x.peer != k && x.give < n && x.take < n
    ensures Xchg(k, x.take, x.give) in EvenStep(n, x.peer, h)
  {
    assert x == EvenStep(n, k, h)[0];
    EvenPartner(n, k, h, x.peer);
    assert EvenStep(n, x.peer, h)[0] == Xchg(k, x.take, x.give);
  }

  /** Both partners see the same exchange, from their own side, in the same step. */
  lemma XchgSymmetric(n: nat, k: nat, t: nat, x: Xchg)
    requires k < n && t < Steps(n, k) && x in Xchgs(n, k, t)
    ensures x.peer < n && x.peer != k && x.give < n && x.take < n
    ensures t < Steps(n, x.peer) && Xchg(k, x.take, x.give) in Xchgs(n, x.peer, t)
  {
    Closed(n, k, t);
    if t % 2 == 0 {
      OddSymmetric(n, k, t / 2, x);
    } else {
      EvenSymmetric(n, k, t / 2, x);
    }
    Closed(n, x.peer, t);
  }

  /** A rank has one exchange in a step; rank 0 of an odd group has two, with different partners, in odd steps and
      none in even ones. */
  lemma PeersDiffer(n: nat, k: nat, t: nat)
    requires k < n && t < Steps(n, k)
    ensures |Xchgs(n, k, t)| == if !Special(n, k) then 1 else if t % 2 == 0 then 2 else 0
    ensures |Xchgs(n, k, t)| == 2 ==> Xchgs(n, k, t)[0].peer != Xchgs(n, k, t)[1].peer
  {
    Closed(n, k, t);
  }

  /** The blocks within `back` positions behind and `fore` positions in front of `k`. */
  function Around(n: nat, k: nat, back: nat, fore: nat): set<nat>
    requires k < n
  {
    set b: nat | b < n && (Ahead(k, b, n) <= fore || n - Ahead(k, b, n) <= back)
  }

  /** The blocks from the left to the right end of the window of rank `k` before step `t`. */
  function Window(n: nat, k: nat, t: nat): set<nat>
    requires k < n
  {
    Around(n, k, Back(n, k, t), Fore(n, k, t))
  }

  function Taken(xs: seq<Xchg>): set<nat>
  {
    set x | x in xs :: x.take
  }

  lemma GrowFore(n: nat, k: nat, back: nat, fore: nat)
    requires k < n && back + fore + 1 < n
    ensures Around(n, k, back, fore + 1) == Around(n, k, back, fore) + {Wrap(k + fore + 1, n)}
    ensures Wrap(k + fore + 1, n) !in Around(n, k, back, fore)
  {
  }

  lemma GrowBack(n: nat, k: nat, back: nat, fore: nat)
    requires k < n && back + fore + 1 < n
    ensures Around(n, k, back + 1, fore) == Around(n, k, back, fore) + {Wrap(k - back - 1, n)}
    ensures Wrap(k - back - 1, n) !in Around(n, k, back, fore)
  {
  }

  lemma NearEnds(n: nat, k: nat, back: nat, fore: nat, d: nat)
    requires k < n && back + fore < n
    ensures d <= back ==> Wrap(k - d, n) in Around(n, k, back, fore)
    ensures d <= fore ==> Wrap(k + d, n) in Around(n, k, back, fore)
  {
  }

  lemma TakenOne(x: Xchg)
    ensures Taken([x]) == {x.take}
  {
    assert x in [x];
  }

  lemma TakenTwo(x: Xchg, y: Xchg)
    ensures Taken([x, y]) == {x.take, y.take}
  {
    assert [x, y][0] == x && [x, y][1] == y;
  }

  lemma OddGrows(n: nat, k: nat, h: nat)
    requires k < n && 2 * h + 1 < n
    ensures var back, fore := if k % 2 == 1 || Special(n, k) then h + 1 else h, if k % 2 == 0 then h + 1 else h;
      && Around(n, k, back, fore) == Around(n, k, h, h) + Taken(OddStep(n, k, h))
      && Around(n, k, h, h) !! Taken(OddStep(n, k, h))
      && forall x :: x in OddStep(n, k, h) ==> x.give in Around(n, k, h, h)
  {
    NearEnds(n, k, h, h, h);
    GrowFore(n, k, h, h);
    GrowBack(n, k, h, h);
    var xs := OddStep(n, k, h);
    if Special(n, k) {
      GrowFore(n, k, h + 1, h);
      TakenTwo(xs[0], xs[1]);
    } else {
      TakenOne(xs[0]);
    }
  }

  lemma EvenGrows(n: nat, k: nat, h: nat)
    requires k < n && 2 * h + 2 < n && !Special(n, k)
    ensures var back, fore := if k % 2 == 1 then h + 1 else h, if k % 2 == 0 then h + 1 else h;
      && Around(n, k, h + 1, h + 1) == Around(n, k, back, fore) + Taken(EvenStep(n, k, h))
      && Around(n, k, back, fore) !! Taken(EvenStep(n, k, h))
      && forall x :: x in EvenStep(n, k, h) ==> x.give in Around(n, k, back, fore)
  {
    var back, fore := if k % 2 == 1 then h + 1 else h, if k % 2 == 0 then h + 1 else h;
    NearEnds(n, k, back, fore, h);
    if k % 2 == 1 {
      GrowFore(n, k, back, fore);
    } else {
      GrowBack(n, k, back, fore);
    }
    TakenOne(EvenStep(n, k, h)[0]);
  }

  /** The window before and after a step adds up, and the step gives blocks of the window. */
  predicate Grown(before: set<nat>, after: set<nat>, xs: seq<Xchg>)
  {
    after == before + Taken(xs) && before !! Taken(xs) && forall x :: x in xs ==> x.give in before
  }

  lemma OddWindow(n: nat, k: nat, t: nat, h: nat)
    requires k < n && t < Steps(n, k) && t == 2 * h
    ensures Grown(Window(n, k, t), Window(n, k, t + 1), OddStep(n, k, h))
  {
    OddGrows(n, k, h);
    assert Back(n, k, t) == h == Fore(n, k, t);
  }

  lemma EvenWindow(n: nat, k: nat, t: nat, h: nat)
    requires k < n && t < Steps(n, k) && t == 2 * h + 1
    ensures Grown(Window(n, k, t), Window(n, k, t + 1), EvenStep(n, k, h))
  {
    assert Back(n, k, t + 1) == h + 1 == Fore(n, k, t + 1);
    if !Special(n, k) {
      EvenGrows(n, k, h);
    }
  }

  /** A step adds to the window exactly the blocks it takes, all of them new, and gives blocks of the window. */
  lemma WindowGrows(n: nat, k: nat, t: nat)
    requires k < n && t < Steps(n, k)
    ensures Window(n, k, t + 1) == Window(n, k, t) + Taken(Xchgs(n, k, t))
    ensures Window(n, k, t) !! Taken(Xchgs(n, k, t))
    ensures forall x :: x in Xchgs(n, k, t) ==> x.give in Window(n, k, t)
  {
    Closed(n, k, t);
    if t % 2 == 0 {
      OddWindow(n, k, t, t / 2);
    } else {
      EvenWindow(n, k, t, t / 2);
    }
  }

  lemma WindowEnds(n: nat, k: nat)
    requires k < n
    ensures Window(n, k, 0) == {k}
    ensures forall x: nat :: x < n ==> x in Window(n, k, Steps(n, k))
  {
  }

  // ----- from group indices to ranks and slots -----

  function XchgsAt(n: nat, k: nat, t: nat): seq<Xchg>
  {
    if k < n && t < Steps(n, k) then Xchgs(n, k, t) else []
  }

  predicate XchgsFit(xs: seq<Xchg>, n: nat)
  {
    forall x :: x in xs ==> x.peer < n && x.give < n && x.take < n
  }

  lemma XchgsAtFit(n: nat, k: nat, t: nat)
    ensures XchgsFit(XchgsAt(n, k, t), n)
  {
    forall x | x in XchgsAt(n, k, t) ensures x.peer < n && x.give < n && x.take < n {
      XchgSymmetric(n, k, t, x);
    }
  }

  predicate SlicesFit(n: nat, slices: seq<seq<nat>>)
  {
    forall i: nat :: i < |slices| ==> |slices[i]| == n
  }

  /** `peers` are the ranks of the group; a slice names the slot of each member's block. */
  predicate GroupFits(n: nat, peers: seq<nat>, slices: seq<seq<nat>>)
  {
    && |peers| == n && (forall i: nat, j: nat :: i < j < n ==> peers[i] != peers[j])
    && SlicesFit(n, slices)
  }

  function MsgVia(x: Xchg, peers: seq<nat>, slice: seq<nat>, giving: bool): Msg
    requires x.peer < |peers| && x.give < |slice| && x.take < |slice|
  {
    Msg(peers[x.peer], [slice[if giving then x.give else x.take]])
  }

  /** The messages of one slice, in the order of the exchanges. */
  function SliceMsgs(xs: seq<Xchg>, peers: seq<nat>, slice: seq<nat>, giving: bool): seq<Msg>
    requires |slice| == |peers| && XchgsFit(xs, |peers|)
  {
    if xs == [] then []
    else SliceMsgs(xs[..|xs| - 1], peers, slice, giving) + [MsgVia(xs[|xs| - 1], peers, slice, giving)]
  }

  lemma {:induction false} SliceMsgsLength(xs: seq<Xchg>, peers: seq<nat>, slice: seq<nat>, giving: bool)
    requires |slice| == |peers| && XchgsFit(xs, |peers|)
    ensures |SliceMsgs(xs, peers, slice, giving)| == |xs|
    decreases |xs|
  {
    if xs != [] {
      SliceMsgsLength(xs[..|xs| - 1], peers, slice, giving);
    }
  }

  lemma {:induction false} SliceMsgsAt(xs: seq<Xchg>, peers: seq<nat>, slice: seq<nat>, giving: bool, i: nat)
    requires |slice| == |peers| && XchgsFit(xs, |peers|) && i < |xs|
    ensures |SliceMsgs(xs, peers, slice, giving)| == |xs|
    ensures XchgsFit([xs[i]], |peers|)
    ensures SliceMsgs(xs, peers, slice, giving)[i] == MsgVia(xs[i], peers, slice, giving)
    decreases |xs|
  {
    SliceMsgsLength(xs, peers, slice, giving);
    SliceMsgsLength(xs[..|xs| - 1], peers, slice, giving);
    if i < |xs| - 1 {
      SliceMsgsAt(xs[..|xs| - 1], peers, slice, giving, i);
    }
  }

  /** The messages of one step: all exchanges, once per slice. */
  function Msgs(xs: seq<Xchg>, peers: seq<nat>, slices: seq<seq<nat>>, giving: bool): seq<Msg>
    requires SlicesFit(|peers|, slices) && XchgsFit(xs, |peers|)
  {
    if slices == [] then []
    else Msgs(xs, peers, slices[..|slices| - 1], giving) + SliceMsgs(xs, peers, slices[|slices| - 1], giving)
  }

  function RollStep(n: nat, k: nat, t: nat, peers: seq<nat>, slices: seq<seq<nat>>): Step
    requires GroupFits(n, peers, slices)
  {
    XchgsAtFit(n, k, t);
    var xs := XchgsAt(n, k, t);
    Step(Msgs(xs, peers, slices, true), Msgs(xs, peers, slices, false), None)
  }

  /** The payloads that one exchange sends or receives over all slices. */
  function Column(slices: seq<seq<nat>>, n: nat, block: nat): seq<seq<nat>>
    requires block < n && SlicesFit(n, slices)
  {
    Singletons(seq(|slices|, i requires 0 <= i < |slices| => slices[i][block]))
  }

  /** One message, seen from one partner. */
  lemma ToOne(m: Msg, peer: nat)
    ensures To([m], peer) == if m.peer == peer then [m.slots] else []
  {
    assert [m][1..] == [];
    assert To([m][1..], peer) == [];
  }

  /** The messages of a slice are those of its one or two exchanges. */
  lemma SliceIs(xs: seq<Xchg>, peers: seq<nat>, slice: seq<nat>, giving: bool)
    requires |slice| == |peers| && XchgsFit(xs, |peers|) && |xs| <= 2
    ensures |xs| == 0 ==> SliceMsgs(xs, peers, slice, giving) == []
    ensures |xs| >= 1 ==> xs[0].peer < |peers| && xs[0].give < |peers| && xs[0].take < |peers|
    ensures |xs| == 1 ==> SliceMsgs(xs, peers, slice, giving) == [MsgVia(xs[0], peers, slice, giving)]
    ensures |xs| == 2 ==> xs[1].peer < |peers| && xs[1].give < |peers| && xs[1].take < |peers|
    ensures |xs| == 2 ==>
      SliceMsgs(xs, peers, slice, giving) == [MsgVia(xs[0], peers, slice, giving)] + [MsgVia(xs[1], peers, slice, giving)]
  {
    SliceMsgsLength(xs, peers, slice, giving);
    if |xs| >= 1 {
      SliceMsgsAt(xs, peers, slice, giving, 0);
    }
    if |xs| == 2 {
      SliceMsgsAt(xs, peers, slice, giving, 1);
    }
  }

  lemma ToSlice(xs: seq<Xchg>, peers: seq<nat>, slice: seq<nat>, giving: bool, to: nat)
    requires GroupFits(|peers|, peers, [slice]) && |slice| == |peers| && XchgsFit(xs, |peers|) && to < |peers|
    requires |xs| <= 2 && (|xs| == 2 ==> xs[0].peer != xs[1].peer)
    ensures forall x :: x in xs && x.peer == to ==>
      To(SliceMsgs(xs, peers, slice, giving), peers[to]) == [[slice[if giving then x.give else x.take]]]
    ensures (forall x :: x in xs ==> x.peer != to) ==> To(SliceMsgs(xs, peers, slice, giving), peers[to]) == []
  {
    SliceIs(xs, peers, slice, giving);
    if |xs| >= 1 {
      ToOne(MsgVia(xs[0], peers, slice, giving), peers[to]);
    }
    if |xs| == 2 {
      var m, m' := MsgVia(xs[0], peers, slice, giving), MsgVia(xs[1], peers, slice, giving);
      ToOne(m', peers[to]);
      ToConcat([m], [m'], peers[to]);
    }
  }

  lemma NextSlice(xs: seq<Xchg>, x: Xchg, peers: seq<nat>, front: seq<seq<nat>>, last: seq<nat>, giving: bool)
    requires GroupFits(|peers|, peers, front) && |last| == |peers| && XchgsFit(xs, |peers|) && x in xs
    requires |xs| <= 2 && (|xs| == 2 ==> xs[0].peer != xs[1].peer)
    ensures To(Msgs(xs, peers, front, giving) + SliceMsgs(xs, peers, last, giving), peers[x.peer])
         == To(Msgs(xs, peers, front, giving), peers[x.peer]) + [[last[if giving then x.give else x.take]]]
  {
    ToSlice(xs, peers, last, giving, x.peer);
    ToConcat(Msgs(xs, peers, front, giving), SliceMsgs(xs, peers, last, giving), peers[x.peer]);
  }

  lemma {:induction false} ToColumn(xs: seq<Xchg>, x: Xchg, peers: seq<nat>, slices: seq<seq<nat>>, giving: bool)
    requires GroupFits(|peers|, peers, slices) && XchgsFit(xs, |peers|) && x in xs
    requires |xs| <= 2 && (|xs| == 2 ==> xs[0].peer != xs[1].peer)
    ensures To(Msgs(xs, peers, slices, giving), peers[x.peer])
         == Column(slices, |peers|, if giving then x.give else x.take)
    decreases |slices|
  {
    if slices != [] {
      var front, last := slices[..|slices| - 1], slices[|slices| - 1];
      ToColumn(xs, x, peers, front, giving);
      NextSlice(xs, x, peers, front, last, giving);
      var block := if giving then x.give else x.take;
      assert Column(slices, |peers|, block) == Column(front, |peers|, block) + [[last[block]]];
    }
  }

  lemma {:induction false} ToNobody(xs: seq<Xchg>, to: nat, peers: seq<nat>, slices: seq<seq<nat>>, giving: bool)
    requires SlicesFit(|peers|, slices) && XchgsFit(xs, |peers|)
    requires forall x :: x in xs ==> peers[x.peer] != to
    ensures To(Msgs(xs, peers, slices, giving), to) == []
    decreases |slices|
  {
    if slices != [] {
      var front, last := slices[..|slices| - 1], slices[|slices| - 1];
      ToNobody(xs, to, peers, front, giving);
      var ms := SliceMsgs(xs, peers, last, giving);
      if To(ms, to) != [] {
        ToSound(ms, to, 0);
        var q: nat :| q < |ms| && ms[q].peer == to;
        SliceMsgsLength(xs, peers, last, giving);
        SliceMsgsAt(xs, peers, last, giving, q);
        assert false;
      }
      ToConcat(Msgs(xs, peers, front, giving), ms, to);
    }
  }

  /** In every step members `k` and `j` agree on what goes from `k` to `j`. */
  lemma StepsAgree(n: nat, k: nat, j: nat, t: nat, peers: seq<nat>, slices: seq<seq<nat>>)
    requires GroupFits(n, peers, slices) && k < n && j < n
    ensures To(RollStep(n, k, t, peers, slices).sends, peers[j]) == To(RollStep(n, j, t, peers, slices).recvs, peers[k])
  {
    var xs, ys := XchgsAt(n, k, t), XchgsAt(n, j, t);
    XchgsAtFit(n, k, t);
    XchgsAtFit(n, j, t);
    if xs != [] {
      PeersDiffer(n, k, t);
    }
    if ys != [] {
      PeersDiffer(n, j, t);
    }
    if x :| x in xs && x.peer == j {
      XchgSymmetric(n, k, t, x);
      ToColumn(xs, x, peers, slices, true);
      ToColumn(ys, Xchg(k, x.take, x.give), peers, slices, false);
    } else {
      forall y | y in ys ensures y.peer != k {
        XchgSymmetric(n, j, t, y);
      }
      ToNobody(xs, peers[j], peers, slices, true);
      ToNobody(ys, peers[k], peers, slices, false);
    }
  }

  /** A member exchanges messages with members only. */
  lemma OutsiderSilent(n: nat, k: nat, t: nat, peers: seq<nat>, slices: seq<seq<nat>>, to: nat)
    requires GroupFits(n, peers, slices) && to !in peers
    ensures To(RollStep(n, k, t, peers, slices).sends, to) == []
    ensures To(RollStep(n, k, t, peers, slices).recvs, to) == []
  {
    XchgsAtFit(n, k, t);
    ToNobody(XchgsAt(n, k, t), to, peers, slices, true);
    ToNobody(XchgsAt(n, k, t), to, peers, slices, false);
  }

  // ----- what a rank holds -----

  /** The slots of the blocks `w`, in all slices. */
  function Image(slices: seq<seq<nat>>, w: set<nat>): set<nat>
  {
    set i: nat, b | i < |slices| && b in w && b < |slices[i]| :: slices[i][b]
  }

  lemma {:induction false} MsgOf(xs: seq<Xchg>, peers: seq<nat>, slices: seq<seq<nat>>, giving: bool, m: Msg)
    returns (i: nat, x: Xchg)
    requires SlicesFit(|peers|, slices) && XchgsFit(xs, |peers|)
    requires m in Msgs(xs, peers, slices, giving)
    ensures i < |slices| && x in xs && m == Msg(peers[x.peer], [slices[i][if giving then x.give else x.take]])
    decreases |slices|
  {
    var front, last := slices[..|slices| - 1], slices[|slices| - 1];
    var ms := SliceMsgs(xs, peers, last, giving);
    if m in ms {
      var q :| 0 <= q < |ms| && ms[q] == m;
      SliceMsgsLength(xs, peers, last, giving);
      SliceMsgsAt(xs, peers, last, giving, q);
      i, x := |slices| - 1, xs[q];
    } else {
      i, x := MsgOf(xs, peers, front, giving, m);
    }
  }

  lemma {:induction false} MsgFor(xs: seq<Xchg>, peers: seq<nat>, slices: seq<seq<nat>>, giving: bool, i: nat, x: Xchg)
    requires SlicesFit(|peers|, slices) && XchgsFit(xs, |peers|)
    requires i < |slices| && x in xs
    ensures Msg(peers[x.peer], [slices[i][if giving then x.give else x.take]]) in Msgs(xs, peers, slices, giving)
    decreases |slices|
  {
    var front, last := slices[..|slices| - 1], slices[|slices| - 1];
    if i < |front| {
      MsgFor(xs, peers, front, giving, i, x);
    } else {
      var q :| 0 <= q < |xs| && xs[q] == x;
      SliceMsgsAt(xs, peers, last, giving, q);
      assert SliceMsgs(xs, peers, last, giving)[q] in SliceMsgs(xs, peers, last, giving);
    }
  }

  /** A step receives the image of the blocks it takes. */
  lemma StepTakes(xs: seq<Xchg>, peers: seq<nat>, slices: seq<seq<nat>>)
    requires SlicesFit(|peers|, slices) && XchgsFit(xs, |peers|)
    ensures SlotsOf(Msgs(xs, peers, slices, false)) == Image(slices, Taken(xs))
  {
    var ms := Msgs(xs, peers, slices, false);
    forall s | s in SlotsOf(ms) ensures s in Image(slices, Taken(xs)) {
      var m :| m in ms && s in m.slots;
      var i, x := MsgOf(xs, peers, slices, false, m);
      assert x.take in Taken(xs);
    }
    forall s | s in Image(slices, Taken(xs)) ensures s in SlotsOf(ms) {
      var i: nat, b :| i < |slices| && b in Taken(xs) && b < |slices[i]| && s == slices[i][b];
      var x :| x in xs && x.take == b;
      MsgFor(xs, peers, slices, false, i, x);
      var m := Msg(peers[x.peer], [slices[i][x.take]]);
      assert m in ms && s in m.slots;
    }
  }

  lemma ImageUnion(slices: seq<seq<nat>>, v: set<nat>, w: set<nat>)
    ensures Image(slices, v + w) == Image(slices, v) + Image(slices, w)
  {
  }

  /** A program runs the rolling exchange of member `k` from step `from` on. */
  ghost predicate Rolls(prog: Program, from: nat, n: nat, k: nat, peers: seq<nat>, slices: seq<seq<nat>>)
  {
    && GroupFits(n, peers, slices) && k < n && from + Steps(n, k) <= |prog|
    && forall u: nat :: from <= u < from + Steps(n, k) ==> prog[u] == RollStep(n, k, u - from, peers, slices)
  }

  lemma RollStepTakes(n: nat, k: nat, t: nat, peers: seq<nat>, slices: seq<seq<nat>>)
    requires GroupFits(n, peers, slices) && k < n && t < Steps(n, k)
    ensures Image(slices, Window(n, k, t + 1))
         == Image(slices, Window(n, k, t)) + SlotsOf(RollStep(n, k, t, peers, slices).recvs)
  {
    WindowGrows(n, k, t);
    XchgsAtFit(n, k, t);
    StepTakes(XchgsAt(n, k, t), peers, slices);
    ImageUnion(slices, Window(n, k, t), Taken(XchgsAt(n, k, t)));
  }

  ghost function WindowSlots(n: nat, k: nat, slices: seq<seq<nat>>): nat -> set<nat>
    requires k < n
  {
    (t: nat) => Image(slices, Window(n, k, t))
  }

  lemma SlotsGrow(n: nat, k: nat, t: nat, peers: seq<nat>, slices: seq<seq<nat>>, step: Step)
    requires GroupFits(n, peers, slices) && k < n && t < Steps(n, k) && step == RollStep(n, k, t, peers, slices)
    ensures var h := WindowSlots(n, k, slices); step.fold == None && h(t + 1) == h(t) + SlotsOf(step.recvs)
  {
    RollStepTakes(n, k, t, peers, slices);
  }

  lemma RollsFollow(prog: Program, from: nat, n: nat, k: nat, peers: seq<nat>, slices: seq<seq<nat>>)
    requires Rolls(prog, from, n, k, peers, slices)
    ensures Follows(prog, from, Steps(n, k), WindowSlots(n, k, slices))
  {
    var h := WindowSlots(n, k, slices);
    forall u: nat | from <= u < from + Steps(n, k)
      ensures prog[u].fold == None && h(u - from + 1) == h(u - from) + SlotsOf(prog[u].recvs)
    {
      SlotsGrow(n, k, u - from, peers, slices, prog[u]);
    }
  }

  /** Before every step a rank holds exactly the image of its window. */
  lemma HeldIsWindow(own: set<nat>, prog: Program, from: nat, n: nat, k: nat, t: nat, at: nat,
                     peers: seq<nat>, slices: seq<seq<nat>>)
    requires Rolls(prog, from, n, k, peers, slices) && t <= Steps(n, k) && at == from + t
    requires Held(own, prog, from) == Image(slices, {k})
    ensures Held(own, prog, at) == Image(slices, Window(n, k, t))
  {
    var h := WindowSlots(n, k, slices);
    WindowEnds(n, k);
    RollsFollow(prog, from, n, k, peers, slices);
    HeldFollows(own, prog, from, Steps(n, k), h, t, at, Image(slices, Window(n, k, t)));
  }

  /** Every slot a step sends is in the image of the window. */
  lemma SendsHeld(n: nat, k: nat, t: nat, peers: seq<nat>, slices: seq<seq<nat>>, m: Msg)
    requires GroupFits(n, peers, slices) && k < n && m in RollStep(n, k, t, peers, slices).sends
    ensures m.peer in peers && forall s :: s in m.slots ==> s in Image(slices, Window(n, k, t))
  {
    XchgsAtFit(n, k, t);
    var i, x := MsgOf(XchgsAt(n, k, t), peers, slices, true, m);
    WindowGrows(n, k, t);
    assert slices[i] in slices;
  }

  lemma RecvsFromPeers(n: nat, k: nat, t: nat, peers: seq<nat>, slices: seq<seq<nat>>, m: Msg)
    requires GroupFits(n, peers, slices) && k < n && m in RollStep(n, k, t, peers, slices).recvs
    ensures m.peer in peers
  {
    XchgsAtFit(n, k, t);
    var i, x := MsgOf(XchgsAt(n, k, t), peers, slices, false, m);
  }

  // ----- one group -----

  function GroupProg(n: nat, k: nat, peers: seq<nat>, slices: seq<seq<nat>>): Program
    requires GroupFits(n, peers, slices)
  {
    seq(Steps(n, k), (t: nat) => RollStep(n, k, t, peers, slices))
  }

  lemma IdentityFits(n: nat)
    ensures GroupFits(n, Identity(n), [Identity(n)])
  {
  }

  function PlainProg(n: nat, k: nat): Program
  {
    IdentityFits(n);
    GroupProg(n, k, Identity(n), [Identity(n)])
  }

  /** The rolling allgather of a group of `n` ranks, rank `k` starting with block `k`. */
  ghost function AllgatherNet<V>(n: nat, data: nat -> V): Net<V>
  {
    Net(seq(n, (k: nat) => PlainProg(n, k)), seq(n, (k: nat) => map[k := data(k)]), NoReduction())
  }

  lemma ImageOfIdentity(n: nat, w: set<nat>)
    requires forall b :: b in w ==> b < n
    ensures Image([Identity(n)], w) == w
  {
    forall b | b in w ensures b in Image([Identity(n)], w) {
      assert [Identity(n)][0][b] == b;
    }
  }

  /** Before every step a rank holds exactly its window of blocks. */
  lemma RankHolds(n: nat, k: nat, t: nat)
    requires k < n && t <= Steps(n, k)
    ensures Held({k}, PlainProg(n, k), t) == Window(n, k, t)
  {
    IdentityFits(n);
    var id := Identity(n);
    ImageOfIdentity(n, {k});
    assert Held({k}, PlainProg(n, k), 0) == Image([id], {k});
    HeldIsWindow({k}, PlainProg(n, k), 0, n, k, t, t, id, [id]);
    ImageOfIdentity(n, Window(n, k, t));
  }

  lemma PlainTraffic(n: nat, k: nat, t: nat, peer: nat, sending: bool)
    requires k < n
    ensures GroupFits(n, Identity(n), [Identity(n)])
    ensures var step := RollStep(n, k, t, Identity(n), [Identity(n)]);
      StepTraffic(PlainProg(n, k), t, peer, sending) == To(if sending then step.sends else step.recvs, peer)
  {
    IdentityFits(n);
    var id := Identity(n);
    if t >= Steps(n, k) {
      ToNobody([], peer, id, [id], sending);
      assert XchgsAt(n, k, t) == [];
    } else {
      assert PlainProg(n, k)[t] == RollStep(n, k, t, id, [id]);
    }
  }

  lemma PlainMeets(n: nat, progs: seq<Program>, a: nat, b: nat)
    requires a < n && b < n && progs == seq(n, (k: nat) => PlainProg(n, k))
    ensures Meets(progs, StepNumber(), a, b)
  {
    var id := Identity(n);
    forall t: nat
      ensures StepTraffic(progs[a], t, b, true) == StepTraffic(progs[b], t, a, false)
    {
      PlainTraffic(n, a, t, b, true);
      PlainTraffic(n, b, t, a, false);
      StepsAgree(n, a, b, t, id, [id]);
      assert id[a] == a && id[b] == b;
    }
    SameStepMeets(progs, a, b);
  }

  lemma PlainStepSound<V(!new)>(n: nat, data: nat -> V, r: nat, t: nat)
    requires r < n && t < Steps(n, r)
    ensures StepSound(AllgatherNet(n, data), data, r, t)
  {
    IdentityFits(n);
    var id, net := Identity(n), AllgatherNet(n, data);
    var step := net.progs[r][t];
    assert step == RollStep(n, r, t, id, [id]) && net.init[r].Keys == {r};
    RankHolds(n, r, t);
    ImageOfIdentity(n, Window(n, r, t));
    forall m | m in step.sends
      ensures m.peer < n && forall x :: x in m.slots ==> x in Held(net.init[r].Keys, net.progs[r], t)
    {
      SendsHeld(n, r, t, id, [id], m);
    }
    forall m | m in step.recvs ensures m.peer < n {
      RecvsFromPeers(n, r, t, id, [id], m);
    }
  }

  lemma AllgatherSound<V(!new)>(n: nat, data: nat -> V)
    ensures Sound(AllgatherNet(n, data), data) && Live(AllgatherNet(n, data).progs, StepNumber())
  {
    var net := AllgatherNet(n, data);
    forall a: nat, b: nat | a < n && b < n ensures Meets(net.progs, StepNumber(), a, b) {
      PlainMeets(n, net.progs, a, b);
    }
    MatchedAndLive(net.progs, StepNumber());
    forall r: nat, t: nat | r < n && t < |net.progs[r]| ensures StepSound(net, data, r, t) {
      PlainStepSound(n, data, r, t);
    }
  }

  lemma AllHeld<V>(n: nat, data: nat -> V, r: nat, b: nat)
    requires r < n && b < n
    ensures var net := AllgatherNet(n, data); b in Held(net.init[r].Keys, net.progs[r], |net.progs[r]|)
  {
    RankHolds(n, r, Steps(n, r));
    WindowEnds(n, r);
    assert AllgatherNet(n, data).init[r].Keys == {r};
  }

  lemma AllDelivered<V(!new)>(n: nat, data: nat -> V, s: State<V>)
    requires |AllgatherNet(n, data).progs| == |AllgatherNet(n, data).init|
    requires Complete(AllgatherNet(n, data), data, s)
    ensures AllGathered(s, n, n, data)
  {
    forall r: nat | r < n
      ensures Gathered(s.buf(r), n, data)
    {
      forall b: nat | b < n ensures b in s.buf(r) && s.buf(r)[b] == data(b) {
        AllHeld(n, data, r, b);
        CompleteHolds(AllgatherNet(n, data), data, s, r, b);
      }
    }
  }

  /** Rolling allgather, for every group size and every interleaving: no run gets stuck, and when the ranks
      are done every rank has every rank's block and no message is left. */
  lemma RollingAllgather<V(!new)>(n: nat, data: nat -> V, run: seq<Event>)
    requires IsRun(AllgatherNet(n, data), run)
    ensures OnItsWay(AllgatherNet(n, data), data, run)
    ensures |run| == TotalWork(AllgatherNet(n, data)) ==> AllGathered(After(AllgatherNet(n, data), run), n, n, data)
  {
    var net := AllgatherNet(n, data);
    AllgatherSound(n, data);
    EveryRunCompletes(net, data, StepNumber(), run);
    if |run| == TotalWork(net) {
      AllDelivered(n, data, After(net, run));
    }
  }
}
