/** The rolling iterator and the progress loop that drives it, for the phase across nodes (one slice) and the
    phase inside a node (one slice per node). */
module RollingOp {
  import opened Network
  import opened Cyclic
  import opened Rolling

  class RollingIter {
    var left: nat
    var right: nat
    var leftFlag: bool
    var rightFlag: bool
    var oddStep: bool

    constructor (myrank: nat)
      ensures left == right == myrank && !leftFlag && !rightFlag && oddStep
    {
      left, right := myrank, myrank;
      leftFlag, rightFlag := false, false;
      oddStep := true;
    }

    predicate Full(size: nat)
      requires size > 0
      reads this
    {
      left == (right + 1) % size
    }

    method Next()
      modifies this`oddStep
      ensures oddStep == !old(oddStep)
    {
      oddStep := !oddStep;
    }

    method LeftInc(size: nat)
      requires left < size
      modifies this`left
      ensures left == Wrap(old(left) - 1, size)
    {
      left := Predecessor(left, size);
    }

    method RightInc(size: nat)
      requires right < size
      modifies this`right
      ensures right == Wrap(old(right) + 1, size)
    {
      right := Successor(right, size);
    }
  }

  /** The window is full exactly when the last step is over. */
  lemma FullAtEnd(n: nat, k: nat, t: nat)
    requires InRange(n, k, t)
    ensures Left(n, k, t) == (Right(n, k, t) + 1) % n <==> t == Steps(n, k)
  {
    ModWrap(Right(n, k, t) + 1, n);
  }

  lemma StartsAtRank(n: nat, k: nat)
    requires k < n
    ensures InRange(n, k, 0) && Left(n, k, 0) == k && Right(n, k, 0) == k
  {
  }

  /** The ends of the window of rank `k` before step `t`, moved step by step. */
  function LeftEnd(n: nat, k: nat, t: nat): (left: nat)
    requires k < n
    ensures left < n
  {
    if t == 0 then k
    else if MovesLeft(n, k, (t - 1) % 2 == 0) then Wrap(LeftEnd(n, k, t - 1) - 1, n) else LeftEnd(n, k, t - 1)
  }

  function RightEnd(n: nat, k: nat, t: nat): (right: nat)
    requires k < n
    ensures right < n
  {
    if t == 0 then k
    else if MovesRight(n, k, (t - 1) % 2 == 0) then Wrap(RightEnd(n, k, t - 1) + 1, n) else RightEnd(n, k, t - 1)
  }

  /** Step `t` moves the ends of a window to the new ones. */
  predicate OneMove(n: nat, k: nat, t: nat, left: nat, right: nat, left': nat, right': nat)
  {
    && left < n && right < n
    && left' == (if MovesLeft(n, k, t % 2 == 0) then Wrap(left - 1, n) else left)
    && right' == (if MovesRight(n, k, t % 2 == 0) then Wrap(right + 1, n) else right)
  }

  /** The windows before and after a step, in terms of the ends that the step moves. */
  lemma EndsMove(n: nat, k: nat, t: nat, u: nat)
    requires InRange(n, k, u) && u == t + 1
    ensures OneMove(n, k, t, Left(n, k, t), Right(n, k, t), Left(n, k, u), Right(n, k, u))
  {
  }

  lemma EndsNext(n: nat, k: nat, t: nat, u: nat, left: nat, right: nat, left': nat, right': nat)
    requires k < n && u == t + 1 && OneMove(n, k, t, left, right, left', right')
    requires LeftEnd(n, k, t) == left && RightEnd(n, k, t) == right
    ensures LeftEnd(n, k, u) == left' && RightEnd(n, k, u) == right'
  {
  }

  lemma EndsStep(n: nat, k: nat, t: nat, u: nat)
    requires InRange(n, k, t) && InRange(n, k, u) && u == t + 1
    requires LeftEnd(n, k, t) == Left(n, k, t) && RightEnd(n, k, t) == Right(n, k, t)
    ensures LeftEnd(n, k, u) == Left(n, k, u) && RightEnd(n, k, u) == Right(n, k, u)
  {
    EndsMove(n, k, t, u);
    EndsNext(n, k, t, u, Left(n, k, t), Right(n, k, t), Left(n, k, u), Right(n, k, u));
  }

  lemma {:induction false} EndsAre(n: nat, k: nat, t: nat)
    requires InRange(n, k, t)
    ensures LeftEnd(n, k, t) == Left(n, k, t) && RightEnd(n, k, t) == Right(n, k, t)
  {
    if t == 0 {
      StartsAtRank(n, k);
    } else {
      EndsAre(n, k, t - 1);
      EndsStep(n, k, t - 1, t);
    }
  }

  predicate StandsAt(n: nat, k: nat, t: nat, left: nat, right: nat)
  {
    k < n && t <= Steps(n, k) && left == LeftEnd(n, k, t) && right == RightEnd(n, k, t)
  }

  /** A step moves the ends that take part in it. */
  lemma MovesOn(n: nat, k: nat, t: nat, left: nat, right: nat, odd: bool)
    requires StandsAt(n, k, t, left, right) && t < Steps(n, k) && odd == (t % 2 == 0)
    ensures left < n && right < n
    ensures StandsAt(n, k, t + 1, if MovesLeft(n, k, odd) then Wrap(left - 1, n) else left,
                     if MovesRight(n, k, odd) then Wrap(right + 1, n) else right)
  {
  }

  lemma FullWhere(n: nat, k: nat, t: nat, left: nat, right: nat)
    requires StandsAt(n, k, t, left, right)
    ensures left == (right + 1) % n <==> t == Steps(n, k)
  {
    EndsAre(n, k, t);
    FullAtEnd(n, k, t);
  }

  predicate MovesLeft(n: nat, k: nat, odd: bool)
  {
    if odd then k % 2 == 1 || Special(n, k) else k % 2 == 0 && !Special(n, k)
  }

  predicate MovesRight(n: nat, k: nat, odd: bool)
  {
    if odd then k % 2 == 0 else k % 2 == 1
  }

  /** Posting one more exchange. */
  lemma OneMore(xs: seq<Xchg>, x: Xchg, peers: seq<nat>, displs: seq<nat>, base: nat, n: nat)
    requires base + n <= |displs| && |peers| == n && XchgsFit(xs, n) && x.peer < n && x.give < n && x.take < n
    ensures XchgsFit(xs + [x], n)
    ensures SliceMsgs(xs + [x], peers, displs[base..base + n], true)
         == SliceMsgs(xs, peers, displs[base..base + n], true) + [Msg(peers[x.peer], [displs[base + x.give]])]
    ensures SliceMsgs(xs + [x], peers, displs[base..base + n], false)
         == SliceMsgs(xs, peers, displs[base..base + n], false) + [Msg(peers[x.peer], [displs[base + x.take]])]
  {
  }

  lemma StepFits(n: nat, k: nat, l: nat, r: nat, odd: bool)
    requires k < n && l < n && r < n
    ensures XchgsFit(StepXchgs(n, k, l, r, odd), n)
  {
  }

  /** The slots of each node: consecutive stretches of the displacement array. */
  function SlicesOf(displs: seq<nat>, n: nat, nodes: nat): seq<seq<nat>>
    requires |displs| == nodes * n
  {
    seq(nodes, i requires 0 <= i < nodes => SliceOf(displs, n, nodes, i))
  }

  function SliceOf(displs: seq<nat>, n: nat, nodes: nat, i: nat): (slice: seq<nat>)
    requires |displs| == nodes * n && i < nodes
    ensures |slice| == n
  {
    MulSplit(nodes, i, n);
    displs[i * n..i * n + n]
  }

  /** The requests of an odd step for the slice that starts at `base`, and the ends that take part. */
  method PostOdd(n: nat, rank: nat, left: nat, right: nat, peers: seq<nat>, displs: seq<nat>, base: nat,
                 ghost xs: seq<Xchg>)
    returns (out: seq<Msg>, inc: seq<Msg>, rightFlag: bool, leftFlag: bool)
    requires rank < n && left < n && right < n && |peers| == n && base + n <= |displs|
    requires xs == StepXchgs(n, rank, left, right, true) && XchgsFit(xs, n)
    ensures out == SliceMsgs(xs, peers, displs[base..base + n], true)
    ensures inc == SliceMsgs(xs, peers, displs[base..base + n], false)
    ensures rightFlag == MovesRight(n, rank, true) && leftFlag == MovesLeft(n, rank, true)
  {
    var rightPeer := Successor(rank, n);
    var leftPeer := Predecessor(rank, n);
    var lleft := Predecessor(left, n);
    var rright := Successor(right, n);
    out, inc, rightFlag, leftFlag := [], [], false, false;
    ghost var ys: seq<Xchg> := [];
    if rank % 2 == 0 {
      inc := inc + [Msg(peers[rightPeer], [displs[base + rright]])];
      out := out + [Msg(peers[rightPeer], [displs[base + left]])];
      rightFlag := true;
      OneMore(ys, Xchg(rightPeer, left, rright), peers, displs, base, n);
      ys := ys + [Xchg(rightPeer, left, rright)];
    }
    if rank % 2 == 1 || (rank == 0 && n % 2 == 1) {
      inc := inc + [Msg(peers[leftPeer], [displs[base + lleft]])];
      out := out + [Msg(peers[leftPeer], [displs[base + right]])];
      leftFlag := true;
      OneMore(ys, Xchg(leftPeer, right, lleft), peers, displs, base, n);
      ys := ys + [Xchg(leftPeer, right, lleft)];
    }
    assert ys == xs;
  }

  /** One exchange as a pair of requests. */
  method PostOne(x: Xchg, peers: seq<nat>, displs: seq<nat>, base: nat, n: nat) returns (out: seq<Msg>, inc: seq<Msg>)
    requires |peers| == n && base + n <= |displs| && x.peer < n && x.give < n && x.take < n
    ensures XchgsFit([x], n)
    ensures out == SliceMsgs([x], peers, displs[base..base + n], true)
    ensures inc == SliceMsgs([x], peers, displs[base..base + n], false)
  {
    OneMore([], x, peers, displs, base, n);
    assert [] + [x] == [x];
    inc := [Msg(peers[x.peer], [displs[base + x.take]])];
    out := [Msg(peers[x.peer], [displs[base + x.give]])];
  }

  /** The requests of an even step for the slice that starts at `base`, and the ends that take part. */
  method PostEven(n: nat, rank: nat, left: nat, right: nat, peers: seq<nat>, displs: seq<nat>, base: nat,
                  ghost xs: seq<Xchg>)
    returns (out: seq<Msg>, inc: seq<Msg>, rightFlag: bool, leftFlag: bool)
    requires rank < n && left < n && right < n && |peers| == n && base + n <= |displs|
    requires xs == StepXchgs(n, rank, left, right, false) && XchgsFit(xs, n)
    ensures out == SliceMsgs(xs, peers, displs[base..base + n], true)
    ensures inc == SliceMsgs(xs, peers, displs[base..base + n], false)
    ensures rightFlag == MovesRight(n, rank, false) && leftFlag == MovesLeft(n, rank, false)
  {
    out, inc, rightFlag, leftFlag := [], [], false, false;
    if rank == 0 && n % 2 == 1 {
    } else if rank % 2 == 0 {
      var leftPeer := Predecessor(rank, n);
      var lleft := Predecessor(left, n);
      var lright := Predecessor(right, n);
      out, inc := PostOne(Xchg(leftPeer, lright, lleft), peers, displs, base, n);
      leftFlag := true;
    } else {
      var rightPeer := Successor(rank, n);
      var rright := Successor(right, n);
      var rleft := Successor(left, n);
      out, inc := PostOne(Xchg(rightPeer, rleft, rright), peers, displs, base, n);
      rightFlag := true;
    }
  }

  /** Before step `t`, or in it once it is posted: the window, the flags and what has been posted. */
  ghost predicate InRollStep(n: nat, k: nat, plan: nat -> Step, t: nat, left: nat, right: nat, odd: bool,
                         leftFlag: bool, rightFlag: bool, posted: bool, log: seq<Step>)
  {
    && StandsAt(n, k, t, left, right) && odd == (t % 2 == 0) && (posted ==> t < Steps(n, k))
    && leftFlag == (posted && MovesLeft(n, k, odd)) && rightFlag == (posted && MovesRight(n, k, odd))
    && Begins(plan, log, if posted then t + 1 else t)
  }

  /** At the end of a step the ends that took part move. */
  lemma StepEnds(n: nat, k: nat, plan: nat -> Step, t: nat, left: nat, right: nat, odd: bool,
                 leftFlag: bool, rightFlag: bool, log: seq<Step>)
    requires InRollStep(n, k, plan, t, left, right, odd, leftFlag, rightFlag, true, log)
    ensures left < n && right < n
    ensures InRollStep(n, k, plan, t + 1, if leftFlag then Wrap(left - 1, n) else left,
                       if rightFlag then Wrap(right + 1, n) else right, !odd, false, false, false, log)
  {
    MovesOn(n, k, t, left, right, odd);
  }

  class RollingOp {
    const n: nat
    const rank: nat
    const peers: seq<nat>
    const displs: seq<nat>
    const nodes: nat
    const iter: RollingIter
    ghost const plan: nat -> Step
    var flags: bool         // the requests of the current step still have to be posted
    var log: seq<Step>      // the requests posted so far
    ghost var pc: nat

    ghost function Slices(): seq<seq<nat>>
      requires |displs| == nodes * n
    {
      SlicesOf(displs, n, nodes)
    }

    ghost predicate Fits()
    {
      rank < n && |displs| == nodes * n && GroupFits(n, peers, Slices())
    }

    ghost function Prog(): Program
      requires Fits()
    {
      GroupProg(n, rank, peers, Slices())
    }

    ghost function Plan(): nat -> Step
      requires Fits()
    {
      (t: nat) => RollStep(n, rank, t, peers, Slices())
    }

    ghost predicate Standing()
      reads this, iter
    {
      InRollStep(n, rank, plan, pc, iter.left, iter.right, iter.oddStep, iter.leftFlag, iter.rightFlag, !flags, log)
    }

    ghost predicate Valid()
      reads this, iter
    {
      Fits() && plan == Plan() && Standing()
    }

    /** Triggering the operation: nothing posted yet. */
    constructor (n: nat, rank: nat, peers: seq<nat>, displs: seq<nat>, nodes: nat)
      requires rank < n && |displs| == nodes * n && GroupFits(n, peers, SlicesOf(displs, n, nodes))
      ensures Valid() && fresh(iter) && pc == 0 && flags
      ensures this.n == n && this.rank == rank && this.peers == peers && this.displs == displs && this.nodes == nodes
    {
      StartsAtRank(n, rank);
      this.n, this.rank, this.peers, this.displs, this.nodes := n, rank, peers, displs, nodes;
      plan := (t: nat) => RollStep(n, rank, t, peers, SlicesOf(displs, n, nodes));
      iter := new RollingIter(rank);
      flags, log, pc := true, [], 0;
    }

    /** The iterator points into the group. */
    ghost predicate Ready()
      reads this, iter
    {
      rank < n && |peers| == n && iter.left < n && iter.right < n
    }

    /** The exchanges that the iterator stands for. */
    ghost function Current(): (xs: seq<Xchg>)
      requires Ready()
      reads this, iter
      ensures XchgsFit(xs, n)
    {
      StepFits(n, rank, iter.left, iter.right, iter.oddStep);
      StepXchgs(n, rank, iter.left, iter.right, iter.oddStep)
    }

    /** The requests of one slice; the flags remember which ends of the window will move. */
    method PostSlice(base: nat, ghost xs: seq<Xchg>) returns (out: seq<Msg>, inc: seq<Msg>)
      requires Ready() && base + n <= |displs| && xs == Current()
      modifies iter`leftFlag, iter`rightFlag
      ensures out == SliceMsgs(xs, peers, displs[base..base + n], true)
      ensures inc == SliceMsgs(xs, peers, displs[base..base + n], false)
      ensures iter.leftFlag == (old(iter.leftFlag) || MovesLeft(n, rank, iter.oddStep))
      ensures iter.rightFlag == (old(iter.rightFlag) || MovesRight(n, rank, iter.oddStep))
    {
      var right, left;
      if iter.oddStep {
        out, inc, right, left := PostOdd(n, rank, iter.left, iter.right, peers, displs, base, xs);
      } else {
        out, inc, right, left := PostEven(n, rank, iter.left, iter.right, peers, displs, base, xs);
      }
      if right {
        iter.rightFlag := true;
      }
      if left {
        iter.leftFlag := true;
      }
    }

    /** One step posts its exchanges once per node, shifting the displacements from node to node. */
    method PostSlices(ghost xs: seq<Xchg>, ghost slices: seq<seq<nat>>) returns (sends: seq<Msg>, recvs: seq<Msg>)
      requires Ready() && nodes > 0 && |displs| == nodes * n && !iter.leftFlag && !iter.rightFlag
      requires xs == Current() && slices == Slices()
      modifies iter`leftFlag, iter`rightFlag
      ensures SlicesFit(n, slices)
      ensures sends == Msgs(xs, peers, slices, true) && recvs == Msgs(xs, peers, slices, false)
      ensures iter.leftFlag == MovesLeft(n, rank, iter.oddStep) && iter.rightFlag == MovesRight(n, rank, iter.oddStep)
    {
      sends, recvs := [], [];
      var base: nat := 0;
      for it := 0 to nodes
        invariant Ready() && Current() == xs && base == 0 && PostedFor(xs, peers, slices, it, sends, recvs)
        invariant iter.leftFlag == (it > 0 && MovesLeft(n, rank, iter.oddStep))
        invariant iter.rightFlag == (it > 0 && MovesRight(n, rank, iter.oddStep))
      {
        NextSliceOf(displs, n, nodes, it);
        var shift := it * n;
        base := base + shift;
        var out, inc := PostSlice(base, xs);
        PostedNext(xs, peers, slices, it, sends, recvs, displs[base..base + n]);
        sends, recvs := sends + out, recvs + inc;
        base := base - shift;
      }
      assert slices[..nodes] == slices;
    }

    lemma CurrentStep()
      requires Valid() && pc < Steps(n, rank)
      ensures Ready() && Current() == XchgsAt(n, rank, pc)
      ensures plan(pc) == Step(Msgs(Current(), peers, Slices(), true), Msgs(Current(), peers, Slices(), false), None)
    {
      EndsAre(n, rank, pc);
    }

    /** After a step: toggle the step kind and grow the window at the ends that exchanged. */
    method Move()
      requires iter.left < n && iter.right < n
      modifies iter
      ensures iter.oddStep == !old(iter.oddStep) && !iter.leftFlag && !iter.rightFlag
      ensures iter.left == if old(iter.leftFlag) then Wrap(old(iter.left) - 1, n) else old(iter.left)
      ensures iter.right == if old(iter.rightFlag) then Wrap(old(iter.right) + 1, n) else old(iter.right)
    {
      iter.Next();
      if iter.rightFlag {
        iter.RightInc(n);
        iter.rightFlag := false;
      }
      if iter.leftFlag {
        iter.LeftInc(n);
        iter.leftFlag := false;
      }
    }

    /** Posting the requests of the current step, unless that has been done. */
    method PostOnce()
      requires Valid() && nodes > 0 && pc < Steps(n, rank)
      modifies this`flags, this`log, iter`leftFlag, iter`rightFlag
      ensures Valid() && !flags
    {
      if flags {
        CurrentStep();
        flags := false;
        BeginsNext(plan, log, pc);
        var sends, recvs := PostSlices(Current(), Slices());
        log := log + [Step(sends, recvs, None)];
      }
    }

    /** The step is complete. */
    method Finish()
      requires Standing() && !flags
      modifies this`flags, this`pc, iter
      ensures Standing() && flags && pc == old(pc) + 1
    {
      StepEnds(n, rank, plan, pc, iter.left, iter.right, iter.oddStep, iter.leftFlag, iter.rightFlag, log);
      Move();
      flags := true;
      pc := pc + 1;
    }

    /** What has been posted is the beginning of the program. */
    lemma LogIsProgram(count: nat)
      requires Fits() && Begins(Plan(), log, count) && count <= Steps(n, rank)
      ensures log == Prog()[..count] && |Prog()| == Steps(n, rank)
    {
      BeginsProgram(Plan(), log, count, Prog());
    }

    /** One call of the progress routine, during which the completion test succeeds `completions` times before
        it reports that requests are still under way. */
    method Progress(completions: nat) returns (done: bool)
      requires Valid() && nodes > 0
      modifies this, iter
      ensures Valid()
      ensures pc == if old(pc) + completions < Steps(n, rank) then old(pc) + completions else Steps(n, rank)
      ensures done <==> pc == Steps(n, rank)
      ensures Begins(Plan(), log, if done then pc else pc + 1)
      ensures log <= Prog() && (done ==> log == Prog())
    {
      var left := completions;
      FullWhere(n, rank, pc, iter.left, iter.right);
      while !iter.Full(n)
        invariant Valid() && pc + left == old(pc) + completions
        invariant iter.Full(n) <==> pc == Steps(n, rank)
        decreases Steps(n, rank) - pc
      {
        PostOnce();
        if left == 0 {
          LogIsProgram(pc + 1);
          return false;
        }
        left := left - 1;
        Finish();
        FullWhere(n, rank, pc, iter.left, iter.right);
      }
      LogIsProgram(pc);
      return true;
    }
  }

  /** The requests of the first `it` slices have been posted. */
  ghost predicate PostedFor(xs: seq<Xchg>, peers: seq<nat>, slices: seq<seq<nat>>, it: nat, sends: seq<Msg>, recvs: seq<Msg>)
    requires XchgsFit(xs, |peers|) && it <= |slices|
  {
    && SlicesFit(|peers|, slices[..it])
    && sends == Msgs(xs, peers, slices[..it], true) && recvs == Msgs(xs, peers, slices[..it], false)
  }

  lemma PostedNext(xs: seq<Xchg>, peers: seq<nat>, slices: seq<seq<nat>>, it: nat, sends: seq<Msg>, recvs: seq<Msg>,
                   slice: seq<nat>)
    requires XchgsFit(xs, |peers|) && it < |slices| && PostedFor(xs, peers, slices, it, sends, recvs)
    requires slices[it] == slice && |slice| == |peers|
    ensures PostedFor(xs, peers, slices, it + 1, sends + SliceMsgs(xs, peers, slice, true),
                      recvs + SliceMsgs(xs, peers, slice, false))
  {
    assert slices[..it + 1][..it] == slices[..it];
  }

  lemma NextSliceOf(displs: seq<nat>, n: nat, nodes: nat, i: nat)
    requires |displs| == nodes * n && i < nodes
    ensures 0 <= i * n && i * n + n <= |displs|
    ensures SlicesOf(displs, n, nodes)[i] == displs[i * n..i * n + n]
  {
    MulSplit(nodes, i, n);
  }
}
