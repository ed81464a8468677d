/** The progress routine of recursive doubling, with its flags and its two buffers, which take turns as the one that
    holds the result so far. */
module RdOp {
  import opened Network
  import opened Bits
  import opened Doubling
  import opened RdRhIter

  /** What a rank posts before it waits: the values it sends, and the ranks it receives from. */
  datatype Posting<V> = Posting(sends: seq<(nat, V)>, recvs: seq<nat>)

  function SlotOf(m: Msg): nat
  {
    if m.slots == [] then 0 else m.slots[0]
  }

  /** A step of the program as the routine posts it: `val` gives the contents of the slots. */
  ghost function PostingOf<V>(step: Step, val: nat -> V): Posting<V>
  {
    Posting(seq(|step.sends|, i requires 0 <= i < |step.sends| => (step.sends[i].peer, val(SlotOf(step.sends[i])))),
            seq(|step.recvs|, i requires 0 <= i < |step.recvs| => step.recvs[i].peer))
  }

  /** A step that exchanges one message each way, or only sends, or only receives. */
  lemma PostingIs<V>(step: Step, val: nat -> V)
    ensures |step.sends| == 0 ==> PostingOf(step, val).sends == []
    ensures |step.sends| == 1 ==> PostingOf(step, val).sends == [(step.sends[0].peer, val(SlotOf(step.sends[0])))]
    ensures |step.recvs| == 0 ==> PostingOf(step, val).recvs == []
    ensures |step.recvs| == 1 ==> PostingOf(step, val).recvs == [step.recvs[0].peer]
  {
  }

  /** What arrives in a step: the right content of the slot it receives. */
  ghost predicate Arrives<V(!new)>(n: nat, r: nat, val: nat -> V, t: nat, x: V)
    requires n >= 1 && r < n
  {
    t < |RdProg(n, r)| && RdProg(n, r)[t].recvs != [] ==> x == val(SlotOf(RdProg(n, r)[t].recvs[0]))
  }

  // ----- the steps -----

  ghost predicate FoldOk<V>(op: (V, V) -> V, val: nat -> V, step: Step)
  {
    step.fold.Some? ==> val(step.fold.value.dst) == op(val(step.fold.value.lo), val(step.fold.value.hi))
  }

  /** Every combination that the programs ask for gives the right content. */
  ghost predicate Folds<V>(n: nat, op: (V, V) -> V, val: nat -> V)
    requires n >= 1
  {
    && (forall j: nat, i: nat :: j < BaseCount(n) && i < Log2(n) ==> FoldOk(op, val, BaseStep(n, j, i)))
    && (forall r: nat :: 0 < r < n ==> FoldOk(op, val, ProxyFirst(n, r)))
  }

  lemma AssociativeFolds<V(!new)>(n: nat, op: (V, V) -> V, data: nat -> V)
    requires n >= 1 && Associative(op)
    ensures Folds(n, op, Value(n, op, data))
  {
    var val := Value(n, op, data);
    forall j: nat, i: nat | j < BaseCount(n) && i < Log2(n) ensures FoldOk(op, val, BaseStep(n, j, i)) {
      FoldRight(n, op, data, j, i);
    }
    forall r: nat | 0 < r < n ensures FoldOk(op, val, ProxyFirst(n, r)) {
      JoinSlots(n, op, data, r - 1, r, r + 1);
    }
  }

  /** A base step: what it posts, and what the two buffers combine to. */
  lemma BaseRound<V(!new)>(n: nat, r: nat, op: (V, V) -> V, val: nat -> V, i: nat, mine: V, other: V)
    requires n >= 1 && Folds(n, op, val) && r < n && !IsExtra(n, r) && i < Log2(n)
    requires mine == val(GroupSlot(n, NewRank(n, r), i))
    ensures var t, peer := BaseIndex(n, r, i), BasePeer(n, r, i);
      && t < |RdProg(n, r)| && PostingOf(RdProg(n, r)[t], val) == Posting([(peer, mine)], [peer])
      && (Arrives(n, r, val, t, other) ==>
            val(GroupSlot(n, NewRank(n, r), i + 1)) == if r < peer then op(mine, other) else op(other, mine))
  {
    var j := NewRank(n, r);
    BaseStepAt(n, r, i);
    assert FoldOk(op, val, BaseStep(n, j, i));
    ToggleBelow(j, i, Log2(n));
    PostingIs(BaseStep(n, j, i), val);
  }

  /** A proxy's first step. */
  lemma FirstRound<V(!new)>(n: nat, r: nat, op: (V, V) -> V, val: nat -> V, own: V, other: V)
    requires n >= 1 && Folds(n, op, val) && r < n && IsProxy(n, r) && own == val(Code(n, r, r + 1))
    ensures r > 0 && 0 < |RdProg(n, r)| && PostingOf(RdProg(n, r)[0], val) == Posting([], [r - 1])
    ensures Arrives(n, r, val, 0, other) ==> val(GroupSlot(n, NewRank(n, r), 0)) == op(other, own)
  {
    ProxyStart(n, r);
    assert RdProg(n, r)[0] == ProxyFirst(n, r);
    assert FoldOk(op, val, ProxyFirst(n, r));
    PostingIs(ProxyFirst(n, r), val);
  }

  /** A proxy's last step. */
  lemma LastRound<V(!new)>(n: nat, r: nat, val: nat -> V)
    requires n >= 1 && r < n && IsProxy(n, r)
    ensures r > 0 && |RdProg(n, r)| == Log2(n) + 2
    ensures PostingOf(RdProg(n, r)[Log2(n) + 1], val) == Posting([(r - 1, val(Code(n, 0, n)))], [])
  {
    var base := BaseProg(n, NewRank(n, r));
    assert RdProg(n, r) == ([ProxyFirst(n, r)] + base) + [ProxyLast(n, r)];
    PostingIs(ProxyLast(n, r), val);
  }

  /** An extra rank's only step. */
  lemma ExtraRound<V(!new)>(n: nat, r: nat, val: nat -> V, other: V)
    requires n >= 1 && r < n && IsExtra(n, r)
    ensures |RdProg(n, r)| == 1
    ensures PostingOf(RdProg(n, r)[0], val) == Posting([(r + 1, val(Code(n, r, r + 1)))], [r + 1])
    ensures Arrives(n, r, val, 0, other) ==> other == val(Code(n, 0, n))
  {
    PostingIs(ExtraStep(n, r), val);
  }

  /** The two buffers; `swapped` tells that the staging area holds the result so far. */
  datatype Buffers<V> = Buffers(recvbuf: V, staging: V, swapped: bool)
  {
    function Current(): V
    {
      if swapped then staging else recvbuf
    }
  }

  /** The value that arrived goes into the other buffer and is combined with the current one.  The lower rank, whose
      value goes to the left, finds the result in the other buffer and swaps the two. */
  method Combine<V>(op: (V, V) -> V, b: Buffers<V>, x: V, lower: bool) returns (b': Buffers<V>)
    ensures b'.Current() == if lower then op(b.Current(), x) else op(x, b.Current())
  {
    var recvbuf, staging, swapped := b.recvbuf, b.staging, b.swapped;
    if swapped {
      recvbuf := x;
    } else {
      staging := x;
    }
    if lower {
      if swapped {
        recvbuf := op(staging, recvbuf);
      } else {
        staging := op(recvbuf, staging);
      }
      swapped := !swapped;
    } else if swapped {
      staging := op(recvbuf, staging);
    } else {
      recvbuf := op(staging, recvbuf);
    }
    b' := Buffers(recvbuf, staging, swapped);
  }

  // ----- what one rank goes through -----

  /** Partners, postings and arriving values step by step, and the results before every base step. */
  datatype Course<V> = Course(kind: RdType, peers: seq<nat>, posts: seq<Posting<V>>, takes: seq<V>, wants: seq<V>)

  /** Where the base steps begin. */
  function Offset(kind: RdType): nat
  {
    if kind == RdProxy then 1 else 0
  }

  /** Base step `i` exchanges the result so far with the partner and combines the two, the lower rank's on the left. */
  ghost predicate RoundOk<V>(c: Course<V>, rank: nat, op: (V, V) -> V, i: nat)
    requires Offset(c.kind) + i < |c.peers| && |c.posts| == |c.peers| && |c.takes| == |c.peers| && i + 1 < |c.wants|
  {
    var t := Offset(c.kind) + i;
    var peer := c.peers[t];
    && c.posts[t] == Posting([(peer, c.wants[i])], [peer])
    && c.wants[i + 1] == if rank < peer then op(c.wants[i], c.takes[t]) else op(c.takes[t], c.wants[i])
  }

  /** The course of a rank that starts with `own` and ends with `result`. */
  ghost predicate CourseOk<V>(c: Course<V>, rank: nat, op: (V, V) -> V, own: V, result: V)
  {
    match c.kind
    case RdExtra =>
      |c.peers| == 2 && |c.takes| == 1 && c.posts == [Posting([(c.peers[0], own)], [c.peers[1]])] && c.takes[0] == result
    case RdBase =>
      && |c.posts| == |c.peers| && |c.takes| == |c.peers| && |c.wants| == |c.peers| + 1
      && c.wants[0] == own && c.wants[|c.peers|] == result
      && forall i: nat :: i < |c.peers| ==> RoundOk(c, rank, op, i)
    case RdProxy =>
      var m := |c.peers| - 2;
      && m >= 0 && |c.posts| == m + 2 && |c.takes| == m + 2 && |c.wants| == m + 1
      && c.posts[0] == Posting([], [c.peers[0]]) && c.wants[0] == op(c.takes[0], own)
      && c.posts[m + 1] == Posting([(c.peers[m + 1], result)], []) && c.wants[m] == result
      && forall i: nat :: i < m ==> RoundOk(c, rank, op, i)
  }

  function KindOfRank(n: nat, r: nat): RdType
    requires n >= 1
  {
    if IsExtra(n, r) then RdExtra else if IsProxy(n, r) then RdProxy else RdBase
  }

  /** What arrives in step `t`. */
  ghost function TakeAt<V>(n: nat, r: nat, val: nat -> V, t: nat): V
    requires n >= 1 && r < n && t < |RdProg(n, r)|
  {
    var step := RdProg(n, r)[t];
    val(if step.recvs == [] then 0 else SlotOf(step.recvs[0]))
  }

  /** The course that the program of a rank prescribes. */
  ghost function CourseOf<V>(n: nat, r: nat, val: nat -> V): Course<V>
    requires n >= 1 && r < n
  {
    var m := |RdProg(n, r)|;
    Course(KindOfRank(n, r), Peers(n, r),
           seq(m, (t: nat) requires t < m => PostingOf(RdProg(n, r)[t], val)),
           seq(m, (t: nat) requires t < m => TakeAt(n, r, val, t)),
           if IsExtra(n, r) then []
           else seq(Log2(n) + 1, (i: nat) requires i <= Log2(n) => val(GroupSlot(n, NewRank(n, r), i))))
  }

  /** The parts of a course at base step `i`. */
  lemma PeerOfCourse(n: nat, r: nat, i: nat, t: nat)
    requires n >= 1 && r < n && !IsExtra(n, r) && i < Log2(n) && t == BaseIndex(n, r, i)
    ensures t < |Peers(n, r)| == |RdProg(n, r)| && Peers(n, r)[t] == BasePeer(n, r, i)
    ensures t == Offset(KindOfRank(n, r)) + i
  {
    Lengths(n, r);
    PeersAt(n, r, t);
  }

  lemma CourseAt<V>(n: nat, r: nat, val: nat -> V, i: nat, c: Course<V>, t: nat)
    requires n >= 1 && r < n && !IsExtra(n, r) && i < Log2(n) && t < |RdProg(n, r)| && c == CourseOf(n, r, val)
    ensures |c.posts| == |c.takes| == |RdProg(n, r)|
    ensures c.posts[t] == PostingOf(RdProg(n, r)[t], val) && c.takes[t] == TakeAt(n, r, val, t)
  {
  }

  lemma WantsAt<V>(n: nat, r: nat, val: nat -> V, i: nat, c: Course<V>)
    requires n >= 1 && r < n && !IsExtra(n, r) && i < Log2(n) && c == CourseOf(n, r, val)
    ensures i + 1 < |c.wants|
    ensures c.wants[i] == val(GroupSlot(n, NewRank(n, r), i)) && c.wants[i + 1] == val(GroupSlot(n, NewRank(n, r), i + 1))
  {
  }

  lemma BaseArrives<V(!new)>(n: nat, r: nat, val: nat -> V, i: nat)
    requires n >= 1 && r < n && !IsExtra(n, r) && i < Log2(n) && BaseIndex(n, r, i) < |RdProg(n, r)|
    ensures Arrives(n, r, val, BaseIndex(n, r, i), TakeAt(n, r, val, BaseIndex(n, r, i)))
  {
  }

  lemma RoundAt<V(!new)>(n: nat, r: nat, op: (V, V) -> V, val: nat -> V, i: nat, x: V, y: V)
    requires n >= 1 && Folds(n, op, val) && r < n && !IsExtra(n, r) && i < Log2(n) && BaseIndex(n, r, i) < |RdProg(n, r)|
    requires x == val(GroupSlot(n, NewRank(n, r), i)) && y == TakeAt(n, r, val, BaseIndex(n, r, i))
    ensures var peer := BasePeer(n, r, i);
      && PostingOf(RdProg(n, r)[BaseIndex(n, r, i)], val) == Posting([(peer, x)], [peer])
      && val(GroupSlot(n, NewRank(n, r), i + 1)) == if r < peer then op(x, y) else op(y, x)
  {
    BaseArrives(n, r, val, i);
    BaseRound(n, r, op, val, i, x, y);
  }

  lemma RoundIs<V>(c: Course<V>, rank: nat, op: (V, V) -> V, i: nat, t: nat, peer: nat, x: V, y: V, z: V)
    requires t == Offset(c.kind) + i && t < |c.peers| == |c.posts| == |c.takes| && i + 1 < |c.wants|
    requires c.peers[t] == peer && c.posts[t] == Posting([(peer, x)], [peer]) && c.takes[t] == y
    requires c.wants[i] == x && c.wants[i + 1] == z && z == if rank < peer then op(x, y) else op(y, x)
    ensures RoundOk(c, rank, op, i)
  {
  }

  lemma BaseCourse<V(!new)>(n: nat, r: nat, op: (V, V) -> V, val: nat -> V, i: nat, c: Course<V>, t: nat)
    requires n >= 1 && Folds(n, op, val) && r < n && !IsExtra(n, r) && i < Log2(n) && c == CourseOf(n, r, val)
    requires t == BaseIndex(n, r, i) && t == Offset(c.kind) + i && t < |RdProg(n, r)|
    requires t < |c.peers| == |c.posts| == |c.takes| && i + 1 < |c.wants| && c.peers[t] == BasePeer(n, r, i)
    ensures RoundOk(c, r, op, i)
  {
    CourseAt(n, r, val, i, c, t);
    WantsAt(n, r, val, i, c);
    RoundAt(n, r, op, val, i, c.wants[i], c.takes[t]);
    RoundIs(c, r, op, i, t, BasePeer(n, r, i), c.wants[i], c.takes[t], c.wants[i + 1]);
  }

  lemma Lengths(n: nat, r: nat)
    requires n >= 1 && r < n
    ensures IsExtra(n, r) ==> |RdProg(n, r)| == 1 && |Peers(n, r)| == 2
    ensures IsProxy(n, r) ==> |RdProg(n, r)| == Log2(n) + 2 == |Peers(n, r)|
    ensures !IsExtra(n, r) && !IsProxy(n, r) ==> |RdProg(n, r)| == Log2(n) == |Peers(n, r)|
  {
  }

  lemma Rounds<V(!new)>(n: nat, r: nat, op: (V, V) -> V, val: nat -> V, c: Course<V>)
    requires n >= 1 && Folds(n, op, val) && r < n && !IsExtra(n, r) && c == CourseOf(n, r, val)
    ensures Offset(c.kind) + Log2(n) <= |c.peers| == |c.posts| == |c.takes| && |c.wants| == Log2(n) + 1
    ensures forall i: nat :: i < Log2(n) ==> RoundOk(c, r, op, i)
  {
    Lengths(n, r);
    forall i: nat | i < Log2(n) ensures RoundOk(c, r, op, i) {
      var t := BaseIndex(n, r, i);
      PeerOfCourse(n, r, i, t);
      BaseCourse(n, r, op, val, i, c, t);
    }
  }

  lemma ExtraCourse<V(!new)>(n: nat, r: nat, op: (V, V) -> V, val: nat -> V, c: Course<V>)
    requires n >= 1 && r < n && IsExtra(n, r) && c == CourseOf(n, r, val)
    ensures CourseOk(c, r, op, val(Code(n, r, r + 1)), val(Code(n, 0, n)))
  {
    Lengths(n, r);
    ExtraRound(n, r, val, TakeAt(n, r, val, 0));
    assert c.posts == [c.posts[0]];
  }

  lemma PlainCourse<V(!new)>(n: nat, r: nat, op: (V, V) -> V, val: nat -> V, c: Course<V>)
    requires n >= 1 && r < n && !IsExtra(n, r) && !IsProxy(n, r) && c == CourseOf(n, r, val)
    requires |c.peers| == |c.posts| == |c.takes| && |c.wants| == Log2(n) + 1
    requires forall i: nat :: i < Log2(n) ==> Offset(c.kind) + i < |c.peers| && RoundOk(c, r, op, i)
    ensures CourseOk(c, r, op, val(Code(n, r, r + 1)), val(Code(n, 0, n)))
  {
    Lengths(n, r);
    AllCombined(n, NewRank(n, r));
    PlainStart(n, r);
  }

  lemma ProxyEnds<V(!new)>(n: nat, r: nat, op: (V, V) -> V, val: nat -> V, c: Course<V>, own: V, result: V)
    requires n >= 1 && Folds(n, op, val) && r < n && IsProxy(n, r) && c == CourseOf(n, r, val)
    requires own == val(Code(n, r, r + 1)) && result == val(Code(n, 0, n))
    ensures var m := Log2(n);
      && m + 2 == |c.peers| == |c.posts| == |c.takes| && |c.wants| == m + 1
      && c.posts[0] == Posting([], [c.peers[0]]) && c.wants[0] == op(c.takes[0], own)
      && c.posts[m + 1] == Posting([(c.peers[m + 1], result)], []) && c.wants[m] == result
  {
    Lengths(n, r);
    AllCombined(n, NewRank(n, r));
    FirstRound(n, r, op, val, own, TakeAt(n, r, val, 0));
    LastRound(n, r, val);
    PeersAt(n, r, 0);
    PeersAt(n, r, Log2(n) + 1);
  }

  /** Every rank's course is right. */
  lemma CourseIsOk<V(!new)>(n: nat, r: nat, op: (V, V) -> V, val: nat -> V)
    requires n >= 1 && Folds(n, op, val) && r < n
    ensures CourseOk(CourseOf(n, r, val), r, op, val(Code(n, r, r + 1)), val(Code(n, 0, n)))
  {
    var c := CourseOf(n, r, val);
    if IsExtra(n, r) {
      ExtraCourse(n, r, op, val, c);
    } else {
      Rounds(n, r, op, val, c);
      if IsProxy(n, r) {
        ProxyEnds(n, r, op, val, c, val(Code(n, r, r + 1)), val(Code(n, 0, n)));
      } else {
        PlainCourse(n, r, op, val, c);
      }
    }
  }

  lemma EndValues<V(!new)>(n: nat, r: nat, op: (V, V) -> V, data: nat -> V)
    requires r < n
    ensures Value(n, op, data)(Code(n, r, r + 1)) == data(r)
    ensures Value(n, op, data)(Code(n, 0, n)) == Combined(op, data, 0, n)
  {
    ValueIs(n, op, data, r, r + 1);
    ValueIs(n, op, data, 0, n);
  }

  lemma CourseIsRight<V(!new)>(n: nat, r: nat, op: (V, V) -> V, data: nat -> V)
    requires n >= 1 && Associative(op) && r < n
    ensures CourseOk(CourseOf(n, r, Value(n, op, data)), r, op, data(r), Combined(op, data, 0, n))
  {
    AssociativeFolds(n, op, data);
    EndValues(n, r, op, data);
    CourseIsOk(n, r, op, Value(n, op, data));
  }

  /** The values that arrive in the steps from `pc` on, as far as these steps receive. */
  ghost predicate AllArrive<V(!new)>(c: Course<V>, pc: nat, arrivals: seq<V>)
    requires |c.takes| == |c.posts|
  {
    forall i: nat :: i < |arrivals| && pc + i < |c.posts| ==> ArrivesAt(c, pc + i, arrivals[i])
  }

  ghost predicate ArrivesAt<V(!new)>(c: Course<V>, t: nat, x: V)
    requires t < |c.posts| == |c.takes|
  {
    c.posts[t].recvs != [] ==> x == c.takes[t]
  }

  lemma NextArrives<V(!new)>(c: Course<V>, pc: nat, arrivals: seq<V>)
    requires |c.takes| == |c.posts| && AllArrive(c, pc, arrivals) && arrivals != [] && pc < |c.posts|
    ensures ArrivesAt(c, pc, arrivals[0]) && AllArrive(c, pc + 1, arrivals[1..])
  {
    assert ArrivesAt(c, pc + 0, arrivals[0]);
    forall i: nat | i < |arrivals[1..]| && pc + 1 + i < |c.posts| ensures ArrivesAt(c, pc + 1 + i, arrivals[1..][i]) {
      assert ArrivesAt(c, pc + (i + 1), arrivals[i + 1]);
    }
  }

  // ----- the routine -----

  function Least(a: nat, b: nat): nat
  {
    if a < b then a else b
  }

  /** The first `count` steps have been posted. */
  ghost predicate Posted<V>(c: Course<V>, log: seq<Posting<V>>, count: nat)
  {
    count <= |c.posts| && log == c.posts[..count]
  }

  /** Before base step `i`, or in it once it is posted: `x` is the result so far and `idx` the step's index. */
  ghost predicate InRound<V>(c: Course<V>, i: nat, idx: nat, posted: bool, x: V, log: seq<Posting<V>>)
  {
    && c.kind != RdExtra && idx == Offset(c.kind) + i && i < |c.wants| && x == c.wants[i]
    && (posted ==> i + 1 < |c.wants|) && Posted(c, log, if posted then idx + 1 else idx)
  }

  lemma PostRound<V>(c: Course<V>, rank: nat, op: (V, V) -> V, own: V, result: V, i: nat, idx: nat, x: V,
                     log: seq<Posting<V>>)
    requires CourseOk(c, rank, op, own, result) && InRound(c, i, idx, false, x, log) && i + 1 < |c.wants|
    ensures idx < |c.peers| && InRound(c, i, idx, true, x, log + [Posting([(c.peers[idx], x)], [c.peers[idx]])])
  {
    assert RoundOk(c, rank, op, i);
  }

  lemma EndRound<V(!new)>(c: Course<V>, rank: nat, op: (V, V) -> V, own: V, result: V, i: nat, idx: nat, x: V, y: V,
                          log: seq<Posting<V>>)
    requires CourseOk(c, rank, op, own, result) && InRound(c, i, idx, true, x, log)
    requires idx < |c.posts| ==> ArrivesAt(c, idx, y)
    ensures idx < |c.peers|
    ensures InRound(c, i + 1, idx + 1, false, if rank < c.peers[idx] then op(x, y) else op(y, x), log)
  {
    assert RoundOk(c, rank, op, i);
  }

  /** Which indices belong to base steps. */
  lemma InLoop<V>(c: Course<V>, rank: nat, op: (V, V) -> V, own: V, result: V, i: nat, idx: nat)
    requires CourseOk(c, rank, op, own, result) && c.kind != RdExtra && idx == Offset(c.kind) + i && i < |c.wants|
    ensures |c.posts| == |c.takes| == |c.peers| && idx <= |c.peers|
    ensures i + 1 < |c.wants| <==> idx < |c.peers| && (c.kind == RdProxy ==> 0 < idx && idx + 1 < |c.peers|)
    ensures i + 1 == |c.wants| ==> c.wants[i] == result
  {
  }

  class RdOp<V(!new)> {
    const rank: nat
    const op: (V, V) -> V
    const own: V
    const iter: RdIter
    var buffers: Buffers<V>
    var baseSend: bool
    var baseRecv: bool
    var proxyRecv: bool
    var proxyReduce: bool
    var proxyBase: bool
    var proxySend: bool
    var extraSend: bool
    var extraRecv: bool
    var log: seq<Posting<V>>    // what has been posted
    ghost const course: Course<V>
    ghost const result: V
    ghost var pc: nat           // the steps that are complete

    /** The course is right, and the iterator gives its partners. */
    ghost predicate Set()
    {
      && CourseOk(course, rank, op, own, result)
      && iter.Fixed() && iter.kind == course.kind && iter.peers == course.peers
    }

    /** Before or in base step `i`: the current buffer holds the value of the interval combined so far. */
    ghost predicate InBase(i: nat)
      reads this, iter
    {
      && iter.InPlace() && baseSend == baseRecv && pc == iter.idx
      && InRound(course, i, iter.idx, !baseSend, buffers.Current(), log)
    }

    /** The caller's buffer holds the combination of all ranks. */
    ghost predicate HasResult()
      reads this
    {
      buffers.recvbuf == result
    }

    ghost predicate ExtraOk()
      reads this, iter
    {
      && iter.InPlace() && extraSend == extraRecv && pc <= 1 && (pc == 1 ==> !extraSend && HasResult())
      && iter.idx == (if extraSend then 0 else 2) && Posted(course, log, if extraSend then 0 else 1)
    }

    /** A proxy before its first step is complete. */
    ghost predicate ProxyFirstOk()
      reads this, iter
    {
      && iter.InPlace() && baseSend && baseRecv && pc == 0 && !buffers.swapped && buffers.recvbuf == own
      && iter.idx == (if proxyRecv then 0 else 1) && Posted(course, log, iter.idx)
    }

    /** A proxy after its last step has been posted. */
    ghost predicate ProxyLastOk()
      reads this, iter
    {
      var m := |course.posts|;
      iter.InPlace() && m <= pc + 1 && pc <= m && iter.idx == m && Posted(course, log, m) && HasResult()
    }

    ghost predicate ProxyOk()
      reads this, iter
    {
      && (proxyRecv ==> proxyReduce) && (proxyReduce ==> proxyBase) && proxyBase == proxySend
      && (if proxyReduce then ProxyFirstOk() else if proxyBase then pc >= 1 && InBase(pc - 1) else ProxyLastOk())
    }

    ghost predicate Valid()
      reads this, iter
    {
      && Set()
      && match course.kind
         case RdExtra => ExtraOk()
         case RdProxy => ProxyOk()
         case RdBase => InBase(pc)
    }

    constructor (n: nat, rank: nat, op: (V, V) -> V, own: V, ghost data: nat -> V)
      requires n >= 1 && rank < n && Associative(op) && own == data(rank)
      ensures Valid() && pc == 0 && log == [] && fresh(iter)
      ensures this.rank == rank && this.op == op && this.own == own
      ensures course == CourseOf(n, rank, Value(n, op, data)) && result == Combined(op, data, 0, n)
    {
      CourseIsRight(n, rank, op, data);
      this.rank, this.op, this.own := rank, op, own;
      course, result := CourseOf(n, rank, Value(n, op, data)), Combined(op, data, 0, n);
      iter := new RdIter(n, rank);
      buffers := Buffers(own, own, false);
      baseSend, baseRecv, extraSend, extraRecv := true, true, true, true;
      proxyRecv, proxyReduce, proxyBase, proxySend := true, true, true, true;
      log, pc := [], 0;
    }

    method PostBase(peer: nat, ghost i: nat)
      requires Set() && InBase(i) && i + 1 < |course.wants| && iter.current == Some(peer)
      modifies this`baseSend, this`baseRecv, this`log
      ensures InBase(i) && !baseSend
    {
      if baseSend {
        PostRound(course, rank, op, own, result, i, iter.idx, buffers.Current(), log);
        baseSend, baseRecv := false, false;
        log := log + [Posting([(peer, buffers.Current())], [peer])];
      }
    }

    /** The exchange of a base step is complete. */
    method FinishBase(peer: nat, arrivals: seq<V>, ghost i: nat) returns (left: seq<V>)
      requires Set() && InBase(i) && !baseSend && iter.current == Some(peer)
      requires AllArrive(course, pc, arrivals) && arrivals != []
      modifies this`buffers, this`baseSend, this`baseRecv, this`pc, iter`idx, iter`current
      ensures InBase(i + 1) && baseSend && pc == old(pc) + 1
      ensures |left| + 1 == |arrivals| && AllArrive(course, pc, left)
    {
      NextArrives(course, pc, arrivals);
      EndRound(course, rank, op, own, result, i, iter.idx, buffers.Current(), arrivals[0], log);
      buffers := Combine(op, buffers, arrivals[0], rank < peer);
      left := arrivals[1..];
      iter.Inc();
      baseSend, baseRecv := true, true;
      pc := pc + 1;
    }

    /** The partner of base step `i`, if there is such a step. */
    method PartnerOf(ghost i: nat) returns (peer: Option<nat>)
      requires Set() && InBase(i)
      ensures if i + 1 < |course.wants| then peer.Some? && peer == iter.current else peer.None?
      ensures peer.None? ==> i + 1 == |course.wants| && baseSend && buffers.Current() == result
    {
      InLoop(course, rank, op, own, result, i, iter.idx);
      peer := iter.BaseValue();
    }

    /** Base step `i`: posts its exchange, and completes it if there is an arrival left. */
    method BaseStep(peer: nat, arrivals: seq<V>, ghost i: nat) returns (done: bool, left: seq<V>)
      requires Set() && InBase(i) && i + 1 < |course.wants| && iter.current == Some(peer)
      requires AllArrive(course, pc, arrivals)
      modifies this`buffers, this`baseSend, this`baseRecv, this`pc, this`log, iter`idx, iter`current
      ensures done ==> InBase(i + 1) && baseSend && pc == old(pc) + 1 && |left| + 1 == |arrivals| && AllArrive(course, pc, left)
      ensures !done ==> InBase(i) && !baseSend && pc == old(pc) && left == arrivals == []
    {
      PostBase(peer, i);
      if arrivals == [] {
        return false, [];
      }
      left := FinishBase(peer, arrivals, i);
      done := true;
    }

    /** The loop over the base steps, from step `from` on; `left` are the arrivals that it has not used. */
    method BaseLoop(arrivals: seq<V>, ghost from: nat) returns (done: bool, left: seq<V>, ghost at: nat)
      requires Set() && InBase(from) && AllArrive(course, pc, arrivals)
      modifies this`buffers, this`baseSend, this`baseRecv, this`pc, this`log, iter`idx, iter`current
      ensures InBase(at) && pc - old(pc) == |arrivals| - |left| >= 0 && AllArrive(course, pc, left)
      ensures done ==> at + 1 == |course.wants| && baseSend && HasResult()
      ensures !done ==> left == [] && !baseSend
    {
      left, at, done := arrivals, from, true;
      var peer := PartnerOf(at);
      while peer.Some?
        invariant InBase(at) && AllArrive(course, pc, left) && done
        invariant if peer.Some? then at + 1 < |course.wants| && peer == iter.current
                  else at + 1 == |course.wants| && baseSend && buffers.Current() == result
        invariant pc - old(pc) == |arrivals| - |left| >= 0
        decreases |course.wants| - at
      {
        done, left := BaseStep(peer.value, left, at);
        if !done {
          return;
        }
        at := at + 1;
        peer := PartnerOf(at);
      }
      CopyBack();
    }

    /** Brings the result into the caller's buffer. */
    method CopyBack()
      modifies this`buffers
      ensures buffers.Current() == old(buffers.Current()) == buffers.recvbuf
    {
      if buffers.swapped {
        buffers := buffers.(recvbuf := buffers.staging);
      }
    }

    /** An extra rank posts its send and its receive together. */
    method Extra(arrivals: seq<V>) returns (done: bool)
      requires Valid() && course.kind == RdExtra && AllArrive(course, pc, arrivals) && pc == 0
      modifies this, iter
      ensures Valid() && done == (arrivals != []) && pc == (if done then 1 else 0) && Posted(course, log, 1)
      ensures done ==> HasResult()
    {
      if extraSend {
        var peer := iter.ValueInc();
        var from := iter.ValueInc();
        extraSend, extraRecv := false, false;
        log := log + [Posting([(peer, own)], [from])];
      }
      if arrivals == [] {
        return false;
      }
      NextArrives(course, pc, arrivals);
      buffers := buffers.(recvbuf := arrivals[0]);
      pc := 1;
      return true;
    }

    /** A proxy's first step: it receives its extra rank's value and puts it in front of its own. */
    method ProxyFirst(arrivals: seq<V>) returns (done: bool, left: seq<V>)
      requires Valid() && course.kind == RdProxy && proxyReduce && AllArrive(course, pc, arrivals)
      modifies this, iter
      ensures Valid() && pc - old(pc) == |arrivals| - |left| >= 0 && AllArrive(course, pc, left)
      ensures if done then !proxyReduce && proxyBase && pc == 1 else proxyReduce && !proxyRecv && pc == 0 && left == []
    {
      if proxyRecv {
        var peer := iter.ValueInc();
        proxyRecv := false;
        log := log + [Posting([], [peer])];
      }
      if arrivals == [] {
        return false, [];
      }
      NextArrives(course, pc, arrivals);
      proxyReduce := false;
      buffers := Buffers(op(arrivals[0], buffers.recvbuf), arrivals[0], false);
      pc := 1;
      return true, arrivals[1..];
    }

    /** A proxy's last step: it gives the result to its extra rank. */
    method ProxyLast(ghost at: nat)
      requires Set() && course.kind == RdProxy && InBase(at) && at + 1 == |course.wants| && baseSend && HasResult()
      requires proxyBase && proxySend && !proxyReduce && !proxyRecv
      modifies this`proxyBase, this`proxySend, this`log, iter`idx, iter`current
      ensures ProxyOk() && !proxyReduce && !proxyBase && pc + 1 == |course.posts|
    {
      var peer := iter.ValueInc();
      proxyBase, proxySend := false, false;
      log := log + [Posting([(peer, buffers.recvbuf)], [])];
    }

    /** A proxy's base steps and its last posting. */
    method ProxyRest(arrivals: seq<V>) returns (done: bool, left: seq<V>)
      requires Valid() && course.kind == RdProxy && !proxyReduce && AllArrive(course, pc, arrivals) && pc < |course.posts|
      modifies this, iter
      ensures Valid() && !proxyReduce && pc - old(pc) == |arrivals| - |left| >= 0
      ensures Posted(course, log, pc + 1)
      ensures if done then !proxyBase && pc + 1 == |course.posts| else left == []
    {
      left, done := arrivals, true;
      if proxyBase {
        ghost var at;
        done, left, at := BaseLoop(left, pc - 1);
        if done {
          ProxyLast(at);
        }
      }
    }

    method Proxy(arrivals: seq<V>) returns (done: bool)
      requires Valid() && course.kind == RdProxy && AllArrive(course, pc, arrivals) && pc < |course.posts|
      modifies this, iter
      ensures Valid() && pc == Least(old(pc) + |arrivals|, |course.posts|)
      ensures (done <==> pc == |course.posts|) && Posted(course, log, Least(pc + 1, |course.posts|))
      ensures done ==> HasResult()
    {
      var left, ok := arrivals, true;
      if proxyReduce {
        ok, left := ProxyFirst(arrivals);
        if !ok {
          return false;
        }
      }
      ok, left := ProxyRest(left);
      if !ok || left == [] {
        return false;
      }
      pc := pc + 1;
      return true;
    }

    /** One call of the progress routine, during which the steps from `pc` on complete one after the other, with the
        given arrivals, until the completion test reports that requests are still under way. */
    method Progress(arrivals: seq<V>) returns (done: bool)
      requires Valid() && AllArrive(course, pc, arrivals) && (pc < |course.posts| || pc == 0)
      modifies this, iter
      ensures Valid() && pc == Least(old(pc) + |arrivals|, |course.posts|)
      ensures (done <==> pc == |course.posts|) && Posted(course, log, Least(pc + 1, |course.posts|))
      ensures done ==> HasResult()
    {
      match iter.kind
      case RdBase =>
        var left;
        ghost var at;
        done, left, at := BaseLoop(arrivals, pc);
      case RdProxy =>
        done := Proxy(arrivals);
      case RdExtra =>
        done := Extra(arrivals);
    }
  }
}
