/** Bruck allgatherv: the distance to the partner doubles in every round, and with it the number of blocks a rank
    has.  Blocks that lie next to each other in the receive buffer travel as one message.

    Slots are the elements of the receive buffer; all ranks use the same displacements and counts. */
module Bruck {
  import opened Network
  import opened LockStep
  import opened Cyclic

  datatype Seg = Seg(displ: nat, count: nat)

  function End(s: Seg): nat
  {
    s.displ + s.count
  }

  function Range(s: Seg): seq<nat>
  {
    seq(s.count, (i: nat) => s.displ + i)
  }

  /** The elements that a list of segments covers, in order. */
  function Elems(segs: seq<Seg>): seq<nat>
  {
    if segs == [] then [] else Elems(segs[..|segs| - 1]) + Range(segs[|segs| - 1])
  }

  // ----- coalescing -----

  /** Segments that follow one another without a gap become one. */
  function Merged(segs: seq<Seg>): seq<Seg>
    requires segs != []
    ensures Merged(segs) != []
  {
    if |segs| == 1 then segs else AddSeg(Merged(segs[..|segs| - 1]), segs[|segs| - 2], segs[|segs| - 1])
  }

  function AddSeg(merged: seq<Seg>, before: Seg, s: Seg): seq<Seg>
    requires merged != []
  {
    var last := merged[|merged| - 1];
    if s.displ == End(before) then merged[..|merged| - 1] + [Seg(last.displ, last.count + s.count)]
    else merged + [s]
  }

  lemma RangesJoin(a: Seg, b: Seg)
    requires b.displ == End(a)
    ensures Range(a) + Range(b) == Range(Seg(a.displ, a.count + b.count))
  {
  }

  lemma ElemsNext(segs: seq<Seg>, s: Seg)
    ensures Elems(segs + [s]) == Elems(segs) + Range(s)
  {
    assert (segs + [s])[..|segs|] == segs;
  }

  lemma AddSegElems(merged: seq<Seg>, before: Seg, s: Seg)
    requires merged != [] && End(merged[|merged| - 1]) == End(before)
    ensures Elems(AddSeg(merged, before, s)) == Elems(merged) + Range(s)
    ensures var merged' := AddSeg(merged, before, s); End(merged'[|merged'| - 1]) == End(s)
  {
    var rest, last := merged[..|merged| - 1], merged[|merged| - 1];
    if s.displ == End(before) {
      RangesJoin(last, s);
      ElemsNext(rest, Seg(last.displ, last.count + s.count));
      assert Elems(merged) + Range(s) == Elems(rest) + (Range(last) + Range(s));
    } else {
      ElemsNext(merged, s);
    }
  }

  /** The coalesced segments cover the same elements in the same order. */
  lemma {:induction false} MergedElems(segs: seq<Seg>)
    requires segs != []
    ensures Elems(Merged(segs)) == Elems(segs)
    ensures End(Merged(segs)[|Merged(segs)| - 1]) == End(segs[|segs| - 1])
    decreases |segs|
  {
    if |segs| > 1 {
      var front := segs[..|segs| - 1];
      MergedElems(front);
      AddSegElems(Merged(front), segs[|segs| - 2], segs[|segs| - 1]);
    }
  }

  /** No two neighbours among the coalesced segments could be joined. */
  lemma {:induction false} MergedFully(segs: seq<Seg>, i: nat)
    requires segs != [] && i + 1 < |Merged(segs)|
    ensures Merged(segs)[i + 1].displ != End(Merged(segs)[i])
    decreases |segs|
  {
    if |segs| > 1 {
      var front := segs[..|segs| - 1];
      MergedElems(front);
      if i + 1 < |Merged(front)| {
        MergedFully(front, i);
      }
    }
  }

  lemma MergedNext(segs: seq<Seg>, i: nat)
    requires 0 < i < |segs|
    ensures Merged(segs[..i + 1]) == AddSeg(Merged(segs[..i]), segs[i - 1], segs[i])
  {
    assert segs[..i + 1][..i] == segs[..i];
  }

  /** One more block: it extends the last segment or starts a new one. */
  lemma MergeOne(all: seq<Seg>, i: nat, merged: seq<Seg>, last: nat, merged': seq<Seg>, last': nat)
    requires 0 < i < |all| && last < |merged| && merged[..last + 1] == Merged(all[..i])
    requires if all[i].displ == End(all[i - 1])
             then last' == last && merged' == merged[last := Seg(merged[last].displ, merged[last].count + all[i].count)]
             else last' == last + 1 < |merged| && merged' == merged[last' := all[i]]
    ensures last' < |merged'| && merged'[..last' + 1] == Merged(all[..i + 1])
  {
    MergedNext(all, i);
    PrefixSet(merged, last', merged'[last']);
  }

  /** The next segment: it makes the last one longer, or comes behind it. */
  method AddSegment(ghost all: seq<Seg>, ghost i: nat, before: Seg, seg: Seg, merged: array<Seg>, last: nat)
    returns (last': nat)
    requires 0 < i < |all| && before == all[i - 1] && seg == all[i] && last < i < merged.Length
    requires merged[..last + 1] == Merged(all[..i])
    modifies merged
    ensures last' <= i && merged[..last' + 1] == Merged(all[..i + 1])
  {
    ghost var was := merged[..];
    assert was[..last + 1] == merged[..last + 1];
    last' := last;
    if seg.displ == before.displ + before.count {
      merged[last] := Seg(merged[last].displ, merged[last].count + seg.count);
    } else {
      last' := last + 1;
      merged[last'] := seg;
    }
    MergeOne(all, i, was, last, merged[..], last');
    assert merged[..][..last' + 1] == merged[..last' + 1];
  }

  /** Coalescing into the front of `merged`; `last` is the index of the last segment. */
  method Coalesce(blocks: array<Seg>, blockcount: nat, merged: array<Seg>) returns (last: nat)
    requires 0 < blockcount <= blocks.Length && blockcount <= merged.Length && merged != blocks
    modifies merged
    ensures last < blockcount
    ensures merged[..last + 1] == Merged(blocks[..blockcount])
  {
    ghost var all := blocks[..blockcount];
    last := 0;
    merged[0] := blocks[0];
    assert merged[..1] == all[..1];
    for i := 1 to blockcount
      invariant last < i && blocks[..blockcount] == all
      invariant merged[..last + 1] == Merged(all[..i])
    {
      assert blocks[i] == all[i] && blocks[i - 1] == all[i - 1];
      last := AddSegment(all, i, blocks[i - 1], blocks[i], merged, last);
    }
    assert all[..blockcount] == all;
  }

  lemma PrefixSet(s: seq<Seg>, i: nat, x: Seg)
    requires i < |s|
    ensures s[i := x][..i + 1] == s[..i] + [x]
    ensures i > 0 ==> s[..i] == s[..i - 1] + [s[i - 1]]
  {
  }

  // ----- the rounds -----

  /** Where each rank's block goes in the receive buffer. */
  datatype Layout = Layout(displs: seq<nat>, counts: seq<nat>)

  predicate Fits(l: Layout, n: nat)
  {
    |l.displs| == n && |l.counts| == n
  }

  function Block(l: Layout, b: nat): Seg
    requires b < |l.displs| == |l.counts|
  {
    Seg(l.displs[b], l.counts[b])
  }

  /** The blocks of `m` ranks from rank `r` on. */
  function BlocksFrom(l: Layout, n: nat, r: nat, m: nat): seq<Seg>
    requires Fits(l, n) && r < n && m <= n
  {
    seq(m, (i: nat) requires i < m => Block(l, Wrap(r + i, n)))
  }

  function BlockCount(n: nat, d: nat): nat
    requires d < n
  {
    if d <= n / 2 then d else n - d
  }

  function Rounds(n: nat, d: nat): nat
    requires d > 0
    decreases n - d
  {
    if d >= n then 0 else 1 + Rounds(n, 2 * d)
  }

  function Distance(j: nat): (d: nat)
    ensures d > 0
  {
    if j == 0 then 1 else 2 * Distance(j - 1)
  }

  function Payload(l: Layout, n: nat, r: nat, d: nat): seq<Seg>
    requires Fits(l, n) && r < n && 0 < d < n
  {
    Merged(BlocksFrom(l, n, r, BlockCount(n, d)))
  }

  function SegMsgs(peer: nat, segs: seq<Seg>): seq<Msg>
  {
    seq(|segs|, i requires 0 <= i < |segs| => Msg(peer, Range(segs[i])))
  }

  function Round(l: Layout, n: nat, r: nat, d: nat): Step
    requires Fits(l, n) && r < n && 0 < d < n
  {
    Step(SegMsgs(Wrap(r - d, n), Payload(l, n, r, d)),
         SegMsgs(Wrap(r + d, n), Payload(l, n, Wrap(r + d, n), d)), None)
  }

  lemma {:induction false} RoundsUsed(n: nat, d: nat, j: nat, k: nat)
    requires d == Distance(k) && j < Rounds(n, d)
    ensures Distance(k + j) < n
    decreases j
  {
    if j > 0 {
      RoundsUsed(n, 2 * d, j - 1, k + 1);
    }
  }

  lemma {:induction false} RoundsEnd(n: nat, d: nat, k: nat)
    requires d == Distance(k)
    ensures Distance(k + Rounds(n, d)) >= n
    decreases n - d
  {
    if d < n {
      RoundsEnd(n, 2 * d, k + 1);
    }
  }

  function StepCount(n: nat): nat
  {
    Rounds(n, 1)
  }

  function RoundAt(l: Layout, n: nat, r: nat, j: nat): Step
    requires Fits(l, n) && r < n && j < StepCount(n)
  {
    RoundsUsed(n, 1, j, 0);
    Round(l, n, r, Distance(j))
  }

  function BruckProg(l: Layout, n: nat, r: nat): Program
    requires Fits(l, n) && r < n
  {
    seq(StepCount(n), (j: nat) requires j < StepCount(n) => RoundAt(l, n, r, j))
  }

  /** The elements of the blocks `w`. */
  function ElementsOf(l: Layout, n: nat, w: set<nat>): set<nat>
    requires Fits(l, n)
  {
    set b, x | b in w && b < n && x in Range(Block(l, b)) :: x
  }

  ghost function BruckNet<V>(l: Layout, n: nat, data: nat -> V): Net<V>
    requires Fits(l, n)
  {
    Net(seq(n, (r: nat) requires r < n => BruckProg(l, n, r)),
        seq(n, (r: nat) requires r < n => map x | x in ElementsOf(l, n, {r}) :: data(x)), NoReduction())
  }

  // ----- both sides agree -----

  lemma RoundTraffic(l: Layout, n: nat, r: nat, d: nat, peer: nat)
    requires Fits(l, n) && r < n && 0 < d < n
    ensures To(Round(l, n, r, d).sends, peer) == if peer == Wrap(r - d, n) then Ranges(Payload(l, n, r, d)) else []
    ensures To(Round(l, n, r, d).recvs, peer)
         == if peer == Wrap(r + d, n) then Ranges(Payload(l, n, peer, d)) else []
  {
    SegsTo(Wrap(r - d, n), Payload(l, n, r, d), peer);
    SegsTo(Wrap(r + d, n), Payload(l, n, Wrap(r + d, n), d), peer);
  }

  function Ranges(segs: seq<Seg>): seq<seq<nat>>
  {
    seq(|segs|, i requires 0 <= i < |segs| => Range(segs[i]))
  }

  lemma SegsTo(to: nat, segs: seq<Seg>, peer: nat)
    ensures To(SegMsgs(to, segs), peer) == if peer == to then Ranges(segs) else []
  {
    ToMany(SegMsgs(to, segs), to, peer);
  }

  lemma RoundAgrees(l: Layout, n: nat, a: nat, b: nat, t: nat)
    requires Fits(l, n) && a < n && b < n && t < StepCount(n)
    ensures To(RoundAt(l, n, a, t).sends, b) == To(RoundAt(l, n, b, t).recvs, a)
  {
    RoundsUsed(n, 1, t, 0);
    RoundTraffic(l, n, a, Distance(t), b);
    RoundTraffic(l, n, b, Distance(t), a);
  }

  lemma BruckMeets<V>(l: Layout, n: nat, data: nat -> V, a: nat, b: nat)
    requires Fits(l, n) && a < n && b < n
    ensures Meets(BruckNet(l, n, data).progs, StepNumber(), a, b)
  {
    var progs := BruckNet(l, n, data).progs;
    forall t: nat ensures StepTraffic(progs[a], t, b, true) == StepTraffic(progs[b], t, a, false) {
      if t < StepCount(n) {
        RoundAgrees(l, n, a, b, t);
        assert progs[a][t] == RoundAt(l, n, a, t) && progs[b][t] == RoundAt(l, n, b, t);
      }
    }
    SameStepMeets(progs, a, b);
  }

  // ----- what the ranks hold -----

  lemma {:induction false} ElemsAre(segs: seq<Seg>, x: nat)
    ensures x in Elems(segs) <==> exists i: nat :: i < |segs| && x in Range(segs[i])
    decreases |segs|
  {
    if segs != [] {
      var front := segs[..|segs| - 1];
      ElemsAre(front, x);
      if x in Elems(front) {
        var i: nat :| i < |front| && x in Range(front[i]);
        assert x in Range(segs[i]);
      }
    }
  }

  lemma SegSlots(peer: nat, segs: seq<Seg>, x: nat)
    ensures x in SlotsOf(SegMsgs(peer, segs)) <==> x in Elems(segs)
  {
    var ms := SegMsgs(peer, segs);
    ElemsAre(segs, x);
    if x in SlotsOf(ms) {
      var m :| m in ms && x in m.slots;
      var i: nat :| i < |ms| && ms[i] == m;
      assert x in Range(segs[i]);
    }
    if x in Elems(segs) {
      var i: nat :| i < |segs| && x in Range(segs[i]);
      assert ms[i] in ms && x in ms[i].slots;
    }
  }

  /** The ranks less than `d` positions in front of `r`, itself included. */
  function InFront(n: nat, r: nat, d: nat): set<nat>
    requires r < n
  {
    set b: nat | b < n && Ahead(r, b, n) < d
  }

  lemma BlocksElems(l: Layout, n: nat, r: nat, m: nat, x: nat)
    requires Fits(l, n) && r < n && m <= n
    ensures x in Elems(BlocksFrom(l, n, r, m)) <==> x in ElementsOf(l, n, InFront(n, r, m))
  {
    var segs := BlocksFrom(l, n, r, m);
    ElemsAre(segs, x);
    if x in Elems(segs) {
      var i: nat :| i < |segs| && x in Range(segs[i]);
      assert Wrap(r + i, n) in InFront(n, r, m);
    }
    if x in ElementsOf(l, n, InFront(n, r, m)) {
      var b :| b in InFront(n, r, m) && b < n && x in Range(Block(l, b));
      var i := Ahead(r, b, n);
      assert Wrap(r + i, n) == b && x in Range(segs[i]);
    }
  }

  /** A payload covers the elements of its blocks. */
  lemma PayloadSlots(l: Layout, n: nat, r: nat, d: nat, peer: nat)
    requires Fits(l, n) && r < n && 0 < d < n
    ensures SlotsOf(SegMsgs(peer, Payload(l, n, r, d))) == ElementsOf(l, n, InFront(n, r, BlockCount(n, d)))
  {
    var m := BlockCount(n, d);
    var ms := SegMsgs(peer, Payload(l, n, r, d));
    MergedElems(BlocksFrom(l, n, r, m));
    forall x: nat ensures x in SlotsOf(ms) <==> x in ElementsOf(l, n, InFront(n, r, m)) {
      SegSlots(peer, Payload(l, n, r, d), x);
      BlocksElems(l, n, r, m, x);
    }
  }

  function Reach(n: nat, d: nat): nat
  {
    if d < n then d else n
  }

  /** A round adds the blocks from `d` up to the doubled distance, or up to the end; all of them are new. */
  lemma WindowDoubles(n: nat, r: nat, d: nat)
    requires r < n && 0 < d < n
    ensures InFront(n, r, Reach(n, 2 * d)) == InFront(n, r, d) + InFront(n, Wrap(r + d, n), BlockCount(n, d))
    ensures InFront(n, r, d) !! InFront(n, Wrap(r + d, n), BlockCount(n, d))
    ensures InFront(n, r, BlockCount(n, d)) <= InFront(n, r, d)
  {
  }

  lemma ElementsUnion(l: Layout, n: nat, v: set<nat>, w: set<nat>)
    requires Fits(l, n)
    ensures ElementsOf(l, n, v + w) == ElementsOf(l, n, v) + ElementsOf(l, n, w)
  {
  }

  /** The blocks that rank `r` has before round `j`. */
  function BlocksAt(n: nat, r: nat, j: nat): set<nat>
    requires r < n
  {
    InFront(n, r, Reach(n, Distance(j)))
  }

  lemma RoundTakes(l: Layout, n: nat, r: nat, j: nat)
    requires Fits(l, n) && r < n && j < StepCount(n)
    ensures ElementsOf(l, n, BlocksAt(n, r, j + 1))
         == ElementsOf(l, n, BlocksAt(n, r, j)) + SlotsOf(RoundAt(l, n, r, j).recvs)
  {
    RoundsUsed(n, 1, j, 0);
    var d := Distance(j);
    var p := Wrap(r + d, n);
    WindowDoubles(n, r, d);
    PayloadSlots(l, n, p, d, p);
    ElementsUnion(l, n, InFront(n, r, d), InFront(n, p, BlockCount(n, d)));
  }

  ghost function ElementsAt(l: Layout, n: nat, r: nat): nat -> set<nat>
    requires Fits(l, n) && r < n
  {
    (j: nat) => ElementsOf(l, n, BlocksAt(n, r, j))
  }

  /** Before every round a rank has exactly the blocks less than the distance in front of it. */
  lemma HeldIs(l: Layout, n: nat, r: nat, j: nat, own: set<nat>)
    requires Fits(l, n) && r < n && j <= StepCount(n) && own == ElementsOf(l, n, {r})
    ensures Held(own, BruckProg(l, n, r), j) == ElementsOf(l, n, BlocksAt(n, r, j))
  {
    var h, prog := ElementsAt(l, n, r), BruckProg(l, n, r);
    ProgFollows(l, n, r);
    OnlyOwn(n, r);
    HeldFollows(own, prog, 0, StepCount(n), h, j, j, ElementsOf(l, n, BlocksAt(n, r, j)));
  }

  lemma OnlyOwn(n: nat, r: nat)
    requires r < n
    ensures BlocksAt(n, r, 0) == {r}
  {
  }

  lemma ProgFollows(l: Layout, n: nat, r: nat)
    requires Fits(l, n) && r < n
    ensures Follows(BruckProg(l, n, r), 0, StepCount(n), ElementsAt(l, n, r))
  {
    var h, prog := ElementsAt(l, n, r), BruckProg(l, n, r);
    forall u: nat | 0 <= u < 0 + StepCount(n)
      ensures prog[u].fold == None && h(u - 0 + 1) == h(u - 0) + SlotsOf(prog[u].recvs)
    {
      RoundTakes(l, n, r, u);
      assert prog[u] == RoundAt(l, n, r, u);
    }
  }

  lemma PayloadHeld(l: Layout, n: nat, r: nat, j: nat, m: Msg)
    requires Fits(l, n) && r < n && j < StepCount(n) && m in RoundAt(l, n, r, j).sends
    ensures m.peer < n && forall x :: x in m.slots ==> x in ElementsOf(l, n, BlocksAt(n, r, j))
  {
    RoundsUsed(n, 1, j, 0);
    var d := Distance(j);
    PayloadSlots(l, n, r, d, Wrap(r - d, n));
    WindowDoubles(n, r, d);
    forall x | x in m.slots ensures x in ElementsOf(l, n, BlocksAt(n, r, j)) {
      assert x in SlotsOf(RoundAt(l, n, r, j).sends);
    }
  }

  lemma BruckStepSound<V(!new)>(l: Layout, n: nat, data: nat -> V, r: nat, j: nat)
    requires Fits(l, n) && r < n && j < StepCount(n)
    ensures StepSound(BruckNet(l, n, data), data, r, j)
  {
    var net := BruckNet(l, n, data);
    var own := ElementsOf(l, n, {r});
    assert net.init[r].Keys == own && net.progs[r] == BruckProg(l, n, r);
    HeldIs(l, n, r, j, own);
    var step := net.progs[r][j];
    assert step == RoundAt(l, n, r, j);
    forall m | m in step.sends
      ensures m.peer < n && forall x :: x in m.slots ==> x in Held(net.init[r].Keys, net.progs[r], j)
    {
      PayloadHeld(l, n, r, j, m);
    }
    RoundsUsed(n, 1, j, 0);
  }

  lemma BruckSound<V(!new)>(l: Layout, n: nat, data: nat -> V)
    requires Fits(l, n)
    ensures Sound(BruckNet(l, n, data), data) && Live(BruckNet(l, n, data).progs, StepNumber())
  {
    var net := BruckNet(l, n, data);
    forall a: nat, b: nat | a < n && b < n ensures Meets(net.progs, StepNumber(), a, b) {
      BruckMeets(l, n, data, a, b);
    }
    MatchedAndLive(net.progs, StepNumber());
    forall r: nat, t: nat | r < n && t < |net.progs[r]| ensures StepSound(net, data, r, t) {
      BruckStepSound(l, n, data, r, t);
    }
  }

  lemma EndsWithAll(n: nat, r: nat, b: nat)
    requires r < n && b < n
    ensures b in BlocksAt(n, r, StepCount(n))
  {
    RoundsEnd(n, 1, 0);
  }

  ghost predicate HasSeg<V>(buf: map<nat, V>, s: Seg, data: nat -> V)
  {
    forall x :: x in Range(s) ==> x in buf && buf[x] == data(x)
  }

  /** Every rank has every element of every rank's block. */
  ghost predicate AllBlocks<V(!new)>(s: State<V>, l: Layout, n: nat, data: nat -> V)
    requires Fits(l, n)
  {
    forall r: nat, b: nat :: r < n && b < n ==> HasSeg(s.buf(r), Block(l, b), data)
  }

  lemma InElements(l: Layout, n: nat, w: set<nat>, b: nat, x: nat)
    requires Fits(l, n) && b in w && b < n && x in Range(Block(l, b))
    ensures x in ElementsOf(l, n, w)
  {
  }

  lemma BlockDelivered<V(!new)>(l: Layout, n: nat, data: nat -> V, s: State<V>, r: nat, b: nat)
    requires Fits(l, n) && r < n && b < n
    requires |BruckNet(l, n, data).progs| == |BruckNet(l, n, data).init| && Complete(BruckNet(l, n, data), data, s)
    ensures HasSeg(s.buf(r), Block(l, b), data)
  {
    var net, own, m := BruckNet(l, n, data), ElementsOf(l, n, {r}), StepCount(n);
    assert net.init[r].Keys == own && net.progs[r] == BruckProg(l, n, r) && |net.progs[r]| == m;
    HeldIs(l, n, r, m, own);
    EndsWithAll(n, r, b);
    forall x | x in Range(Block(l, b)) ensures x in s.buf(r) && s.buf(r)[x] == data(x) {
      InElements(l, n, BlocksAt(n, r, m), b, x);
      CompleteHolds(net, data, s, r, x);
    }
  }

  /** Bruck allgatherv, for every group size, every layout and every interleaving. */
  lemma BruckAllgatherv<V(!new)>(l: Layout, n: nat, data: nat -> V, run: seq<Event>)
    requires Fits(l, n) && IsRun(BruckNet(l, n, data), run)
    ensures OnItsWay(BruckNet(l, n, data), data, run)
    ensures |run| == TotalWork(BruckNet(l, n, data)) ==> AllBlocks(After(BruckNet(l, n, data), run), l, n, data)
  {
    var net := BruckNet(l, n, data);
    BruckSound(l, n, data);
    EveryRunCompletes(net, data, StepNumber(), run);
    if |run| == TotalWork(net) {
      AllDelivered(l, n, data, After(net, run));
    }
  }

  lemma AllDelivered<V(!new)>(l: Layout, n: nat, data: nat -> V, s: State<V>)
    requires Fits(l, n)
    requires |BruckNet(l, n, data).progs| == |BruckNet(l, n, data).init| && Complete(BruckNet(l, n, data), data, s)
    ensures AllBlocks(s, l, n, data)
  {
    forall r: nat, b: nat | r < n && b < n ensures HasSeg(s.buf(r), Block(l, b), data) {
      BlockDelivered(l, n, data, s, r, b);
    }
  }

  // ----- the progress loop -----

  ghost function Requests(l: Layout, n: nat, r: nat): nat -> Step
    requires Fits(l, n) && r < n
  {
    (t: nat) => if t < StepCount(n) then RoundAt(l, n, r, t) else Step([], [], None)
  }

  /** The messages for the blocks from rank `r` on, coalesced. */
  method PostSide(l: Layout, n: nat, r: nat, ghost d: nat, blockcount: nat, blocks: array<Seg>, merged: array<Seg>,
                  peer: nat) returns (msgs: seq<Msg>)
    requires Fits(l, n) && r < n && 0 < d < n && blockcount == BlockCount(n, d)
    requires blocks.Length == n && merged.Length == n && blocks != merged
    modifies blocks, merged
    ensures msgs == SegMsgs(peer, Payload(l, n, r, d))
  {
    CopyBlocks(blocks, l, n, r, blockcount);
    var last := Coalesce(blocks, blockcount, merged);
    msgs := PostSegs(peer, merged, last + 1);
  }

  /** How many blocks a round moves, and the two partners. */
  method RoundPeers(n: nat, rank: nat, distance: nat) returns (blockcount: nat, sendto: nat, recvfrom: nat)
    requires rank < n && 0 < distance < n
    ensures blockcount == BlockCount(n, distance)
    ensures sendto == Wrap(rank - distance, n) && recvfrom == Wrap(rank + distance, n)
  {
    blockcount := if distance <= n / 2 then distance else n - distance;
    recvfrom := Forward(rank, distance, n);
    sendto := Backward(rank, distance, n);
  }

  lemma RoundIs(l: Layout, n: nat, r: nat, d: nat, sendto: nat, recvfrom: nat)
    requires Fits(l, n) && r < n && 0 < d < n && sendto == Wrap(r - d, n) && recvfrom == Wrap(r + d, n)
    ensures recvfrom < n
    ensures Round(l, n, r, d) == Step(SegMsgs(sendto, Payload(l, n, r, d)), SegMsgs(recvfrom, Payload(l, n, recvfrom, d)), None)
  {
  }

  lemma BlocksNext(l: Layout, n: nat, r: nat, i: nat)
    requires Fits(l, n) && r < n && i < n
    ensures BlocksFrom(l, n, r, i + 1) == BlocksFrom(l, n, r, i) + [Block(l, Wrap(r + i, n))]
  {
  }

  class BruckOp {
    const n: nat
    const rank: nat
    const layout: Layout
    const newSend: array<Seg>
    const newRecv: array<Seg>
    const mergedSend: array<Seg>
    const mergedRecv: array<Seg>
    var distance: nat
    var flags: bool           // the requests of the current round still have to be posted
    var log: seq<Step>        // the requests posted so far
    ghost var round: nat

    ghost predicate Buffers()
      reads this
    {
      && newSend.Length == n && newRecv.Length == n && mergedSend.Length == n && mergedRecv.Length == n
      && newSend != newRecv && newSend != mergedSend && newSend != mergedRecv
      && newRecv != mergedSend && newRecv != mergedRecv && mergedSend != mergedRecv
    }

    ghost predicate Valid()
      reads this
    {
      && rank < n && Fits(layout, n) && Buffers()
      && distance == Distance(round) && round <= StepCount(n)
      && (distance < n <==> round < StepCount(n)) && (round == StepCount(n) ==> flags)
      && Begins(Requests(layout, n, rank), log, if flags then round else round + 1)
    }

    constructor (n: nat, rank: nat, layout: Layout)
      requires rank < n && Fits(layout, n)
      ensures Valid() && round == 0 && flags && this.n == n && this.rank == rank && this.layout == layout
      ensures fresh(newSend) && fresh(newRecv) && fresh(mergedSend) && fresh(mergedRecv)
    {
      this.n, this.rank, this.layout := n, rank, layout;
      newSend := new Seg[n](_ => Seg(0, 0));
      newRecv := new Seg[n](_ => Seg(0, 0));
      mergedSend := new Seg[n](_ => Seg(0, 0));
      mergedRecv := new Seg[n](_ => Seg(0, 0));
      distance, flags, log, round := 1, true, [], 0;
    }

    /** The requests of the current round. */
    method RoundRequests() returns (step: Step)
      requires rank < n && Fits(layout, n) && Buffers() && 0 < distance < n
      modifies newSend, newRecv, mergedSend, mergedRecv
      ensures step == Round(layout, n, rank, distance)
    {
      var blockcount, sendto, recvfrom := RoundPeers(n, rank, distance);
      var sends := PostSide(layout, n, rank, distance, blockcount, newSend, mergedSend, sendto);
      var recvs := PostSide(layout, n, recvfrom, distance, blockcount, newRecv, mergedRecv, recvfrom);
      step := Step(sends, recvs, None);
      RoundIs(layout, n, rank, distance, sendto, recvfrom);
    }

    /** What has been posted is the beginning of the program. */
    lemma LogIsProgram()
      requires Valid()
      ensures log <= BruckProg(layout, n, rank) && |BruckProg(layout, n, rank)| == StepCount(n)
    {
      BeginsProgram(Requests(layout, n, rank), log, |log|, BruckProg(layout, n, rank));
    }

    /** One call of the progress routine, during which the completion test succeeds `completions` times before
        it reports that requests are still under way. */
    method Progress(completions: nat) returns (done: bool)
      requires Valid()
      modifies this, newSend, newRecv, mergedSend, mergedRecv
      ensures Valid()
      ensures round == if old(round) + completions < StepCount(n) then old(round) + completions else StepCount(n)
      ensures done <==> round == StepCount(n)
      ensures |log| == (if done then round else round + 1) && log <= BruckProg(layout, n, rank)
      ensures done ==> log == BruckProg(layout, n, rank)
    {
      var left := completions;
      while distance < n
        invariant Valid() && round + left == old(round) + completions
        decreases n - distance
      {
        if flags {
          flags := false;
          BeginsNext(Requests(layout, n, rank), log, round);
          var step := RoundRequests();
          log := log + [step];
        }
        if left == 0 {
          LogIsProgram();
          return false;
        }
        left := left - 1;
        flags := true;
        LastRound(n, round);
        distance := 2 * distance;
        round := round + 1;
      }
      LogIsProgram();
      return true;
    }
  }

  lemma LastRound(n: nat, j: nat)
    requires j < StepCount(n)
    ensures Distance(j + 1) < n <==> j + 1 < StepCount(n)
  {
    if j + 1 < StepCount(n) {
      RoundsUsed(n, 1, j + 1, 0);
    } else {
      RoundsEnd(n, 1, 0);
    }
  }

  method CopyBlocks(a: array<Seg>, l: Layout, n: nat, r: nat, blockcount: nat)
    requires Fits(l, n) && r < n && a.Length == n && blockcount <= n
    modifies a
    ensures a[..blockcount] == BlocksFrom(l, n, r, blockcount)
  {
    for i := 0 to blockcount
      invariant a[..i] == BlocksFrom(l, n, r, i)
    {
      var rank := Forward(r, i, n);
      a[i] := Seg(l.displs[rank], l.counts[rank]);
      BlocksNext(l, n, r, i);
    }
  }

  method PostSegs(peer: nat, segs: array<Seg>, count: nat) returns (msgs: seq<Msg>)
    requires count <= segs.Length
    ensures msgs == SegMsgs(peer, segs[..count])
  {
    msgs := [];
    for i := 0 to count
      invariant msgs == SegMsgs(peer, segs[..i])
    {
      msgs := msgs + [Msg(peer, Range(segs[i]))];
    }
  }
}
