/** The composed operation: the rolling operation between nodes and then the one inside the node, each with the
    group and the displacements that the set-up computes. */
module NodeAwareOp {
  import opened Network
  import opened Cyclic
  import opened Rolling
  import opened RollingOp
  import opened Topology
  import opened NodeAware

  lemma OneSlice(displs: seq<nat>)
    ensures SlicesOf(displs, |displs|, 1) == [displs]
  {
    MulSplit(1, 0, |displs|);
    assert SliceOf(displs, |displs|, 1, 0) == displs;
  }

  /** The slices of the global order are the rows of ranks of the nodes. */
  lemma RowsOfOrder(order: seq<nat>, loc: seq<nat>, nodes: nat, ppn: nat)
    requires ByNode(order, loc, nodes, ppn)
    ensures SlicesOf(order, ppn, nodes) == NodeRows(loc, nodes)
  {
    forall v: nat | v < nodes ensures SliceOf(order, ppn, nodes, v) == Members(loc, v) {
      assert NodePart(order, loc, nodes, ppn, v);
    }
  }

  /** A rolling operation that runs phase `p`. */
  ghost predicate Runs(op: RollingOp, p: Phase)
    reads op, op.iter
  {
    && Fits(p) && op.Valid() && op.nodes > 0
    && op.n == p.n && op.rank == p.k && op.peers == p.peers && op.Slices() == p.slices
  }

  /** What the operation has posted is the beginning of the program of the phase. */
  lemma PostedSoFar(op: RollingOp, p: Phase)
    requires Runs(op, p)
    ensures op.log <= PhaseProg(p)
    ensures op.pc == Steps(p.n, p.k) ==> op.log == PhaseProg(p)
    ensures op.pc == 0 && op.flags ==> op.log == []
  {
    forall t: nat | t < |op.log| ensures op.log[t] == PhaseProg(p)[t] {
      assert op.log[t] == op.Plan()(t);
    }
  }

  class NodeAwareOp {
    ghost const loc: seq<nat>
    ghost const nodes: nat
    ghost const ppn: nat
    const rank: nat
    const inter: RollingOp
    const intra: RollingOp
    var nCompletedOps: nat

    ghost predicate Placed()
    {
      Balanced(loc, nodes, ppn) && rank < |loc|
    }

    ghost predicate Valid()
      reads this, inter, inter.iter, intra, intra.iter
    {
      && Placed() && inter != intra && inter.iter != intra.iter && nCompletedOps <= 2
      && Runs(inter, Inter(loc, nodes, ppn, rank)) && Runs(intra, Intra(loc, nodes, ppn, rank))
      && (nCompletedOps == 0 ==> intra.pc == 0 && intra.flags)
      && (nCompletedOps > 0 ==> inter.pc == Steps(inter.n, inter.rank))
      && (nCompletedOps == 2 ==> intra.pc == Steps(intra.n, intra.rank))
    }

    ghost function Prog(): Program
      requires Placed()
    {
      RankProg(loc, nodes, ppn, rank)
    }

    /** The requests posted so far, in order. */
    ghost function Posted(): seq<Step>
      reads inter, intra
    {
      inter.log + intra.log
    }

    lemma PostedIsPrefix()
      requires Valid()
      ensures Posted() <= Prog()
      ensures nCompletedOps == 2 ==> Posted() == Prog()
    {
      PostedSoFar(inter, Inter(loc, nodes, ppn, rank));
      PostedSoFar(intra, Intra(loc, nodes, ppn, rank));
    }

    constructor (keys: seq<int>, ppn: nat, self: nat)
      requires Balanced(NodeOf(keys), NodeCount(keys), ppn) && self < |keys|
      ensures Valid() && nCompletedOps == 0 && Posted() == []
      ensures loc == NodeOf(keys) && nodes == NodeCount(keys) && this.ppn == ppn && rank == self
      ensures fresh(inter) && fresh(inter.iter) && fresh(intra) && fresh(intra.iter)
    {
      var n, loc, continuous := InitDetail(keys);
      LeadersPartition(loc, n, ppn, self);
      var order := OrderForPhases(keys, ppn);
      var displs := InterDispls(keys, ppn, self, order, continuous);
      var leaders, vrank := CreateLeaderGroup(loc, n, ppn, self);
      var ranks, offset := CreateNodeGroup(loc, self);
      InterFits(loc, n, ppn, self);
      IntraFits(loc, n, ppn, self);
      OneSlice(displs);
      RowsOfOrder(order, loc, n, ppn);
      inter := new RollingOp(n, vrank, leaders, displs, 1);
      intra := new RollingOp(ppn, offset, ranks, order, n);
      this.loc, this.nodes, this.ppn, rank := loc, n, ppn, self;
      nCompletedOps := 0;
      new;
      PostedSoFar(inter, Inter(loc, n, ppn, self));
      PostedSoFar(intra, Intra(loc, n, ppn, self));
    }

    /** One call of the progress routine: only the operation that comes next makes progress, and the one after
        it starts with the next call. */
    method Progress(completions: nat) returns (done: bool)
      requires Valid() && nCompletedOps < 2
      modifies this, inter, inter.iter, intra, intra.iter
      ensures Valid() && Posted() <= Prog()
      ensures done <==> nCompletedOps == 2
      ensures done ==> Posted() == Prog()
      ensures old(nCompletedOps) <= nCompletedOps <= old(nCompletedOps) + 1
      ensures inter.pc + intra.pc <= old(inter.pc + intra.pc) + completions
      ensures nCompletedOps == old(nCompletedOps) ==> inter.pc + intra.pc == old(inter.pc + intra.pc) + completions
    {
      var complete;
      if nCompletedOps == 0 {
        complete := inter.Progress(completions);
      } else {
        complete := intra.Progress(completions);
      }
      if complete {
        nCompletedOps := nCompletedOps + 1;
      }
      done := nCompletedOps == 2;
      PostedIsPrefix();
    }
  }
}
