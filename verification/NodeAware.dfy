/** Node-aware rolling allgather: the ranks with the same offset on their nodes roll their blocks round the nodes,
    and then the ranks of each node roll all blocks round the node, one block per node in every step.

    A rank's block keeps its own slot throughout, the rank's number: the displacements that the two phases use
    are permutations of the caller's.
 */
module NodeAware {
  import opened Network
  import opened LockStep
  import opened Rolling
  import opened Topology

  /** The blocks by node; the slices of the phase inside a node. */
  function NodeRows(loc: seq<nat>, nodes: nat): seq<seq<nat>>
  {
    seq(nodes, (v: nat) => Members(loc, v))
  }

  /** The two phases as a rank sees them: group size, own index, members and slices. */
  datatype Phase = Phase(n: nat, k: nat, peers: seq<nat>, slices: seq<seq<nat>>)

  function Inter(loc: seq<nat>, nodes: nat, ppn: nat, r: nat): Phase
    requires Balanced(loc, nodes, ppn) && r < |loc|
  {
    LeadersPartition(loc, nodes, ppn, r);
    var leaders := Leaders(loc, nodes, ppn, Offset(loc, r));
    Phase(nodes, loc[r], leaders, [leaders])
  }

  function Intra(loc: seq<nat>, nodes: nat, ppn: nat, r: nat): Phase
    requires Balanced(loc, nodes, ppn) && r < |loc|
  {
    Phase(ppn, Offset(loc, r), Members(loc, loc[r]), NodeRows(loc, nodes))
  }

  predicate Fits(p: Phase)
  {
    GroupFits(p.n, p.peers, p.slices) && p.k < p.n
  }

  lemma InterFits(loc: seq<nat>, nodes: nat, ppn: nat, r: nat)
    requires Balanced(loc, nodes, ppn) && r < |loc|
    ensures Fits(Inter(loc, nodes, ppn, r))
  {
    var o := Offset(loc, r);
    LeadersPartition(loc, nodes, ppn, r);
    forall v: nat, w: nat | v < w < nodes
      ensures Leaders(loc, nodes, ppn, o)[v] != Leaders(loc, nodes, ppn, o)[w]
    {
      LeaderAt(loc, nodes, ppn, o, v);
      LeaderAt(loc, nodes, ppn, o, w);
    }
  }

  lemma IntraFits(loc: seq<nat>, nodes: nat, ppn: nat, r: nat)
    requires Balanced(loc, nodes, ppn) && r < |loc|
    ensures Fits(Intra(loc, nodes, ppn, r))
  {
    AtOffset(loc, r);
    var row := Members(loc, loc[r]);
    forall i: nat, j: nat | i < j < ppn ensures row[i] != row[j] {
      MembersAscend(loc, loc[r], i, j);
    }
  }

  function PhaseProg(p: Phase): Program
    requires Fits(p)
  {
    GroupProg(p.n, p.k, p.peers, p.slices)
  }

  function PhaseStep(p: Phase, t: nat): Step
    requires Fits(p)
  {
    RollStep(p.n, p.k, t, p.peers, p.slices)
  }

  /** The two operations of a rank, one after the other. */
  function RankProg(loc: seq<nat>, nodes: nat, ppn: nat, r: nat): Program
    requires Balanced(loc, nodes, ppn) && r < |loc|
  {
    InterFits(loc, nodes, ppn, r);
    IntraFits(loc, nodes, ppn, r);
    PhaseProg(Inter(loc, nodes, ppn, r)) + PhaseProg(Intra(loc, nodes, ppn, r))
  }

  function AllProgs(loc: seq<nat>, nodes: nat, ppn: nat): seq<Program>
    requires Balanced(loc, nodes, ppn)
  {
    seq(|loc|, (r: nat) requires r < |loc| => RankProg(loc, nodes, ppn, r))
  }

  ghost function NodeAwareNet<V>(loc: seq<nat>, nodes: nat, ppn: nat, data: nat -> V): Net<V>
    requires Balanced(loc, nodes, ppn)
  {
    Net(AllProgs(loc, nodes, ppn), seq(|loc|, (r: nat) => map[r := data(r)]), NoReduction())
  }

  // ----- the two phases meet -----

  /** Members of one group agree in every step; ranks of different groups exchange nothing. */
  lemma InterAgrees(loc: seq<nat>, nodes: nat, ppn: nat, a: nat, b: nat, t: nat)
    requires Balanced(loc, nodes, ppn) && a < |loc| && b < |loc|
    requires Fits(Inter(loc, nodes, ppn, a)) && Fits(Inter(loc, nodes, ppn, b))
    ensures To(PhaseStep(Inter(loc, nodes, ppn, a), t).sends, b) == To(PhaseStep(Inter(loc, nodes, ppn, b), t).recvs, a)
  {
    var pa, pb := Inter(loc, nodes, ppn, a), Inter(loc, nodes, ppn, b);
    LeadersPartition(loc, nodes, ppn, a);
    LeadersPartition(loc, nodes, ppn, b);
    if Offset(loc, a) == Offset(loc, b) {
      StepsAgree(nodes, loc[a], loc[b], t, pa.peers, pa.slices);
    } else {
      OutsiderSilent(nodes, loc[a], t, pa.peers, pa.slices, b);
      OutsiderSilent(nodes, loc[b], t, pb.peers, pb.slices, a);
    }
  }

  lemma IntraAgrees(loc: seq<nat>, nodes: nat, ppn: nat, a: nat, b: nat, t: nat)
    requires Balanced(loc, nodes, ppn) && a < |loc| && b < |loc|
    requires Fits(Intra(loc, nodes, ppn, a)) && Fits(Intra(loc, nodes, ppn, b))
    ensures To(PhaseStep(Intra(loc, nodes, ppn, a), t).sends, b) == To(PhaseStep(Intra(loc, nodes, ppn, b), t).recvs, a)
  {
    var pa, pb := Intra(loc, nodes, ppn, a), Intra(loc, nodes, ppn, b);
    AtOffset(loc, a);
    AtOffset(loc, b);
    if loc[a] == loc[b] {
      StepsAgree(ppn, pa.k, pb.k, t, pa.peers, pa.slices);
    } else {
      NotOnNode(loc, loc[a], b);
      NotOnNode(loc, loc[b], a);
      OutsiderSilent(ppn, pa.k, t, pa.peers, pa.slices, b);
      OutsiderSilent(ppn, pb.k, t, pb.peers, pb.slices, a);
    }
  }

  lemma NotOnNode(loc: seq<nat>, v: nat, r: nat)
    requires r < |loc| && loc[r] != v
    ensures r !in Members(loc, v)
  {
    if r in Members(loc, v) {
      var k :| 0 <= k < |Members(loc, v)| && Members(loc, v)[k] == r;
      MembersAre(loc, v, k);
    }
  }

  /** The phase inside the nodes starts after the last step of the other phase anywhere. */
  ghost function Clock(loc: seq<nat>, nodes: nat): (nat, nat) -> nat
  {
    (r: nat, t: nat) =>
      (if r < |loc| && t >= Steps(nodes, loc[r]) then nodes + (t - Steps(nodes, loc[r])) else t) as nat
  }

  /** Step `t` of a phase as a step of the program. */
  ghost function StepIndex(loc: seq<nat>, nodes: nat, r: nat, intra: bool, t: nat): nat
    requires r < |loc|
  {
    if intra then Steps(nodes, loc[r]) + t else t
  }

  lemma StepOfPhase(loc: seq<nat>, nodes: nat, ppn: nat, r: nat, intra: bool, t: nat, peer: nat, sending: bool)
    requires Balanced(loc, nodes, ppn) && r < |loc|
    requires intra || t < Steps(nodes, loc[r])
    ensures Fits(Inter(loc, nodes, ppn, r)) && Fits(Intra(loc, nodes, ppn, r))
    ensures var step := PhaseStep(if intra then Intra(loc, nodes, ppn, r) else Inter(loc, nodes, ppn, r), t);
      StepTraffic(RankProg(loc, nodes, ppn, r), StepIndex(loc, nodes, r, intra, t), peer, sending)
        == To(if sending then step.sends else step.recvs, peer)
  {
    InterFits(loc, nodes, ppn, r);
    IntraFits(loc, nodes, ppn, r);
    var p, q := Inter(loc, nodes, ppn, r), Intra(loc, nodes, ppn, r);
    ConcatTraffic(PhaseProg(p), PhaseProg(q), StepIndex(loc, nodes, r, intra, t), peer, sending);
    ProgTraffic(if intra then q else p, t, peer, sending);
  }

  lemma ConcatTraffic(x: Program, y: Program, t: nat, peer: nat, sending: bool)
    ensures StepTraffic(x + y, t, peer, sending)
         == if t < |x| then StepTraffic(x, t, peer, sending) else StepTraffic(y, t - |x|, peer, sending)
  {
  }

  lemma ProgTraffic(p: Phase, t: nat, peer: nat, sending: bool)
    requires Fits(p)
    ensures StepTraffic(PhaseProg(p), t, peer, sending)
         == To(if sending then PhaseStep(p, t).sends else PhaseStep(p, t).recvs, peer)
  {
    if t >= Steps(p.n, p.k) {
      SilentAfter(p, t, peer, sending);
    }
  }

  lemma SilentAfter(p: Phase, t: nat, peer: nat, sending: bool)
    requires Fits(p) && t >= Steps(p.n, p.k)
    ensures To(if sending then PhaseStep(p, t).sends else PhaseStep(p, t).recvs, peer) == []
  {
    XchgsAtFit(p.n, p.k, t);
    ToNobody(XchgsAt(p.n, p.k, t), peer, p.peers, p.slices, sending);
  }

  /** A phase step with traffic to or from a group member is within the program of that member too. */
  lemma BothInPhase(loc: seq<nat>, nodes: nat, ppn: nat, a: nat, b: nat, intra: bool, t: nat)
    requires Balanced(loc, nodes, ppn) && a < |loc| && b < |loc|
    requires Fits(Inter(loc, nodes, ppn, a)) && Fits(Intra(loc, nodes, ppn, a))
    requires Fits(Inter(loc, nodes, ppn, b)) && Fits(Intra(loc, nodes, ppn, b))
    requires var pa := if intra then Intra(loc, nodes, ppn, a) else Inter(loc, nodes, ppn, a);
      To(PhaseStep(pa, t).sends, b) != []
    ensures var pa := if intra then Intra(loc, nodes, ppn, a) else Inter(loc, nodes, ppn, a);
      var pb := if intra then Intra(loc, nodes, ppn, b) else Inter(loc, nodes, ppn, b);
      && t < Steps(pa.n, pa.k) && t < Steps(pb.n, pb.k)
      && To(PhaseStep(pa, t).sends, b) == To(PhaseStep(pb, t).recvs, a)
  {
    var pa := if intra then Intra(loc, nodes, ppn, a) else Inter(loc, nodes, ppn, a);
    var pb := if intra then Intra(loc, nodes, ppn, b) else Inter(loc, nodes, ppn, b);
    if intra {
      IntraAgrees(loc, nodes, ppn, a, b, t);
    } else {
      InterAgrees(loc, nodes, ppn, a, b, t);
    }
    if t >= Steps(pa.n, pa.k) {
      SilentAfter(pa, t, b, true);
    }
    if t >= Steps(pb.n, pb.k) {
      SilentAfter(pb, t, a, false);
    }
  }

  /** A phase step that sends from `a` to `b` happens together with the same phase step of `b`. */
  lemma PhaseTogether(loc: seq<nat>, nodes: nat, ppn: nat, a: nat, b: nat, intra: bool, t: nat)
    requires Balanced(loc, nodes, ppn) && a < |loc| && b < |loc|
    requires Fits(Inter(loc, nodes, ppn, a)) && Fits(Intra(loc, nodes, ppn, a))
    requires var pa := if intra then Intra(loc, nodes, ppn, a) else Inter(loc, nodes, ppn, a);
      To(PhaseStep(pa, t).sends, b) != []
    ensures Together(AllProgs(loc, nodes, ppn), Clock(loc, nodes), a, StepIndex(loc, nodes, a, intra, t),
                     b, StepIndex(loc, nodes, b, intra, t))
  {
    InterFits(loc, nodes, ppn, b);
    IntraFits(loc, nodes, ppn, b);
    BothInPhase(loc, nodes, ppn, a, b, intra, t);
    StepOfPhase(loc, nodes, ppn, a, intra, t, b, true);
    StepOfPhase(loc, nodes, ppn, b, intra, t, a, false);
    var progs := AllProgs(loc, nodes, ppn);
    assert progs[a] == RankProg(loc, nodes, ppn, a) && progs[b] == RankProg(loc, nodes, ppn, b);
  }

  /** The phase and the step within it of a step of the program. */
  lemma InWhichPhase(loc: seq<nat>, nodes: nat, ppn: nat, r: nat, t: nat) returns (intra: bool, u: nat)
    requires Balanced(loc, nodes, ppn) && r < |loc|
    ensures StepIndex(loc, nodes, r, intra, u) == t && (intra || u < Steps(nodes, loc[r]))
  {
    intra := t >= Steps(nodes, loc[r]);
    u := if intra then t - Steps(nodes, loc[r]) else t;
  }

  lemma SendsMeet(loc: seq<nat>, nodes: nat, ppn: nat, a: nat, b: nat, t: nat)
    requires Balanced(loc, nodes, ppn) && a < |loc| && b < |loc|
    ensures SendMeets(AllProgs(loc, nodes, ppn), Clock(loc, nodes), a, t, b)
  {
    var progs := AllProgs(loc, nodes, ppn);
    if StepTraffic(progs[a], t, b, true) != [] {
      var intra, u := InWhichPhase(loc, nodes, ppn, a, t);
      StepOfPhase(loc, nodes, ppn, a, intra, u, b, true);
      PhaseTogether(loc, nodes, ppn, a, b, intra, u);
    }
  }

  lemma RecvsMeet(loc: seq<nat>, nodes: nat, ppn: nat, a: nat, b: nat, t: nat)
    requires Balanced(loc, nodes, ppn) && a < |loc| && b < |loc|
    ensures RecvMeets(AllProgs(loc, nodes, ppn), Clock(loc, nodes), a, b, t)
  {
    var progs := AllProgs(loc, nodes, ppn);
    if StepTraffic(progs[b], t, a, false) != [] {
      var intra, u := InWhichPhase(loc, nodes, ppn, b, t);
      StepOfPhase(loc, nodes, ppn, b, intra, u, a, false);
      InterFits(loc, nodes, ppn, a);
      IntraFits(loc, nodes, ppn, a);
      if intra {
        IntraAgrees(loc, nodes, ppn, a, b, u);
      } else {
        InterAgrees(loc, nodes, ppn, a, b, u);
      }
      PhaseTogether(loc, nodes, ppn, a, b, intra, u);
    }
  }

  lemma AllMeet(loc: seq<nat>, nodes: nat, ppn: nat)
    requires Balanced(loc, nodes, ppn)
    ensures var progs := AllProgs(loc, nodes, ppn);
      && (forall a: nat, b: nat :: a < |progs| && b < |progs| ==> EdgeMatched(progs, a, b))
      && Live(progs, Clock(loc, nodes))
  {
    var progs := AllProgs(loc, nodes, ppn);
    forall a: nat, b: nat | a < |progs| && b < |progs| ensures Meets(progs, Clock(loc, nodes), a, b) {
      forall t: nat ensures SendMeets(progs, Clock(loc, nodes), a, t, b) && RecvMeets(progs, Clock(loc, nodes), a, b, t) {
        SendsMeet(loc, nodes, ppn, a, b, t);
        RecvsMeet(loc, nodes, ppn, a, b, t);
      }
    }
    Increases(loc, nodes, ppn);
    MatchedAndLive(progs, Clock(loc, nodes));
  }

  lemma Increases(loc: seq<nat>, nodes: nat, ppn: nat)
    requires Balanced(loc, nodes, ppn)
    ensures Increasing(AllProgs(loc, nodes, ppn), Clock(loc, nodes))
  {
  }

  // ----- what the ranks hold -----

  /** After the phase between nodes a rank holds one block per node, those of its group. */
  lemma HeldBetween(loc: seq<nat>, nodes: nat, ppn: nat, r: nat, t: nat)
    requires Balanced(loc, nodes, ppn) && r < |loc| && Fits(Inter(loc, nodes, ppn, r))
    requires t <= Steps(nodes, loc[r])
    ensures |RankProg(loc, nodes, ppn, r)| >= Steps(nodes, loc[r])
    ensures Held({r}, RankProg(loc, nodes, ppn, r), t)
         == Image(Inter(loc, nodes, ppn, r).slices, Window(nodes, loc[r], t))
  {
    var p, prog := Inter(loc, nodes, ppn, r), RankProg(loc, nodes, ppn, r);
    LeadersPartition(loc, nodes, ppn, r);
    ImageOne(p.slices, p.k, r);
    IntraFits(loc, nodes, ppn, r);
    FirstHeld({r}, p, PhaseProg(Intra(loc, nodes, ppn, r)), t);
  }

  lemma ImageOne(slices: seq<seq<nat>>, k: nat, x: nat)
    requires |slices| == 1 && k < |slices[0]| && slices[0][k] == x
    ensures Image(slices, {k}) == {x}
  {
  }

  /** The blocks of the group of equal offset are the block with the own offset in every slice. */
  lemma PhasesJoin(loc: seq<nat>, nodes: nat, ppn: nat, r: nat)
    requires Balanced(loc, nodes, ppn) && r < |loc|
    ensures Image(Inter(loc, nodes, ppn, r).slices, Window(nodes, loc[r], Steps(nodes, loc[r])))
         == Image(Intra(loc, nodes, ppn, r).slices, {Offset(loc, r)})
  {
    var o, w := Offset(loc, r), Window(nodes, loc[r], Steps(nodes, loc[r]));
    LeadersPartition(loc, nodes, ppn, r);
    WindowEnds(nodes, loc[r]);
    var leaders, rows := Leaders(loc, nodes, ppn, o), NodeRows(loc, nodes);
    forall x | x in Image([leaders], w) ensures x in Image(rows, {o}) {
      var v :| v in w && v < nodes && leaders[v] == x;
      assert rows[v][o] == x;
    }
    forall x | x in Image(rows, {o}) ensures x in Image([leaders], w) {
      var v: nat :| v < nodes && rows[v][o] == x;
      assert v in w && [leaders][0][v] == x;
    }
  }

  /** One rolling phase after another, when the first leaves what the second starts from. */
  lemma TwoPhases(own: set<nat>, p: Phase, q: Phase, t: nat, at: nat)
    requires Fits(p) && Fits(q) && t <= Steps(q.n, q.k) && at == Steps(p.n, p.k) + t
    requires own == Image(p.slices, {p.k})
    requires Image(p.slices, Window(p.n, p.k, Steps(p.n, p.k))) == Image(q.slices, {q.k})
    ensures Held(own, PhaseProg(p) + PhaseProg(q), at) == Image(q.slices, Window(q.n, q.k, t))
  {
    FirstHeld(own, p, PhaseProg(q), Steps(p.n, p.k));
    SecondHeld(own, PhaseProg(p), Steps(p.n, p.k), q, t, at);
  }

  lemma FirstHeld(own: set<nat>, p: Phase, y: Program, t: nat)
    requires Fits(p) && t <= Steps(p.n, p.k) && own == Image(p.slices, {p.k})
    ensures Held(own, PhaseProg(p) + y, t) == Image(p.slices, Window(p.n, p.k, t))
  {
    RollsFirst(p, y);
    HeldIsWindow(own, PhaseProg(p) + y, 0, p.n, p.k, t, t, p.peers, p.slices);
  }

  lemma SecondHeld(own: set<nat>, x: Program, from: nat, q: Phase, t: nat, at: nat)
    requires Fits(q) && t <= Steps(q.n, q.k) && from == |x| && at == from + t
    requires Held(own, x + PhaseProg(q), from) == Image(q.slices, {q.k})
    ensures Held(own, x + PhaseProg(q), at) == Image(q.slices, Window(q.n, q.k, t))
  {
    RollsAfter(x, q);
    HeldIsWindow(own, x + PhaseProg(q), from, q.n, q.k, t, at, q.peers, q.slices);
  }

  lemma HeldInside(loc: seq<nat>, nodes: nat, ppn: nat, r: nat, t: nat, at: nat)
    requires Balanced(loc, nodes, ppn) && r < |loc| && Offset(loc, r) < ppn && t <= Steps(ppn, Offset(loc, r))
    requires at == Steps(nodes, loc[r]) + t
    ensures |RankProg(loc, nodes, ppn, r)| == Steps(nodes, loc[r]) + Steps(ppn, Offset(loc, r))
    ensures Held({r}, RankProg(loc, nodes, ppn, r), at)
         == Image(NodeRows(loc, nodes), Window(ppn, Offset(loc, r), t))
  {
    InterFits(loc, nodes, ppn, r);
    IntraFits(loc, nodes, ppn, r);
    LeadersPartition(loc, nodes, ppn, r);
    var p, q := Inter(loc, nodes, ppn, r), Intra(loc, nodes, ppn, r);
    ImageOne(p.slices, p.k, r);
    PhasesJoin(loc, nodes, ppn, r);
    TwoPhases({r}, p, q, t, at);
  }

  lemma RollsFirst(p: Phase, y: Program)
    requires Fits(p)
    ensures Rolls(PhaseProg(p) + y, 0, p.n, p.k, p.peers, p.slices)
  {
    var prog := PhaseProg(p) + y;
    forall u: nat | u < Steps(p.n, p.k) ensures prog[u] == RollStep(p.n, p.k, u - 0, p.peers, p.slices) {
      ProgAt(p, u);
      assert prog[u] == PhaseProg(p)[u];
    }
  }

  lemma RollsAfter(x: Program, p: Phase)
    requires Fits(p)
    ensures Rolls(x + PhaseProg(p), |x|, p.n, p.k, p.peers, p.slices)
  {
    var prog := x + PhaseProg(p);
    forall u: nat | |x| <= u < |x| + Steps(p.n, p.k)
      ensures prog[u] == RollStep(p.n, p.k, u - |x|, p.peers, p.slices)
    {
      ProgAt(p, u - |x|);
      assert prog[u] == PhaseProg(p)[u - |x|];
    }
  }

  lemma ProgAt(p: Phase, t: nat)
    requires Fits(p) && t < Steps(p.n, p.k)
    ensures PhaseProg(p)[t] == PhaseStep(p, t)
  {
  }

  /** A step of a phase only sends what the window of the phase covers, to members of its group. */
  lemma PhaseSound(p: Phase, t: nat, held: set<nat>, ranks: nat)
    requires Fits(p) && held == Image(p.slices, Window(p.n, p.k, t))
    requires PeersBelow(p, ranks)
    ensures forall m :: m in PhaseStep(p, t).sends ==> m.peer < ranks && forall x :: x in m.slots ==> x in held
    ensures forall m :: m in PhaseStep(p, t).recvs ==> m.peer < ranks
  {
    forall m | m in PhaseStep(p, t).sends ensures m.peer < ranks && forall x :: x in m.slots ==> x in held {
      SendsHeld(p.n, p.k, t, p.peers, p.slices, m);
    }
    forall m | m in PhaseStep(p, t).recvs ensures m.peer < ranks {
      RecvsFromPeers(p.n, p.k, t, p.peers, p.slices, m);
    }
  }

  predicate PeersBelow(p: Phase, ranks: nat)
  {
    forall q :: q in p.peers ==> q < ranks
  }

  lemma PeersInRange(loc: seq<nat>, nodes: nat, ppn: nat, r: nat, intra: bool)
    requires Balanced(loc, nodes, ppn) && r < |loc|
    ensures PeersBelow(if intra then Intra(loc, nodes, ppn, r) else Inter(loc, nodes, ppn, r), |loc|)
  {
    LeadersPartition(loc, nodes, ppn, r);
    var peers := (if intra then Intra(loc, nodes, ppn, r) else Inter(loc, nodes, ppn, r)).peers;
    forall q | q in peers ensures q < |loc| {
      var v :| 0 <= v < |peers| && peers[v] == q;
      if intra {
        MembersAre(loc, loc[r], v);
      } else {
        LeaderAt(loc, nodes, ppn, Offset(loc, r), v);
      }
    }
  }

  lemma NetAt<V>(loc: seq<nat>, nodes: nat, ppn: nat, data: nat -> V, r: nat)
    requires Balanced(loc, nodes, ppn) && r < |loc|
    ensures var net := NodeAwareNet(loc, nodes, ppn, data);
      && |net.progs| == |net.init| == |loc| && net.progs[r] == RankProg(loc, nodes, ppn, r)
      && net.init[r].Keys == {r}
  {
  }

  lemma BehindAt(x: Program, y: Program, u: nat, t: nat)
    requires u < |y| && t == |x| + u
    ensures (x + y)[t] == y[u]
  {
  }

  lemma InterStepSound<V(!new)>(loc: seq<nat>, nodes: nat, ppn: nat, data: nat -> V, r: nat, u: nat)
    requires Balanced(loc, nodes, ppn) && r < |loc| && u < Steps(nodes, loc[r]) && u < |RankProg(loc, nodes, ppn, r)|
    ensures StepSound(NodeAwareNet(loc, nodes, ppn, data), data, r, u)
  {
    InterFits(loc, nodes, ppn, r);
    IntraFits(loc, nodes, ppn, r);
    PeersInRange(loc, nodes, ppn, r, false);
    var p, prog := Inter(loc, nodes, ppn, r), RankProg(loc, nodes, ppn, r);
    var held := Image(p.slices, Window(p.n, p.k, u));
    HeldBetween(loc, nodes, ppn, r, u);
    PhaseSound(p, u, held, |loc|);
    NetAt(loc, nodes, ppn, data, r);
    ProgAt(p, u);
    assert prog[u] == PhaseProg(p)[u];
    SoundStep(NodeAwareNet(loc, nodes, ppn, data), data, r, u, {r}, prog, PhaseStep(p, u), held);
  }

  lemma IntraStepSound<V(!new)>(loc: seq<nat>, nodes: nat, ppn: nat, data: nat -> V, r: nat, u: nat, t: nat)
    requires Balanced(loc, nodes, ppn) && r < |loc| && t == Steps(nodes, loc[r]) + u
    requires t < |RankProg(loc, nodes, ppn, r)|
    ensures StepSound(NodeAwareNet(loc, nodes, ppn, data), data, r, t)
  {
    InterFits(loc, nodes, ppn, r);
    IntraFits(loc, nodes, ppn, r);
    PeersInRange(loc, nodes, ppn, r, true);
    var p, q, prog := Inter(loc, nodes, ppn, r), Intra(loc, nodes, ppn, r), RankProg(loc, nodes, ppn, r);
    var held := Image(NodeRows(loc, nodes), Window(ppn, Offset(loc, r), u));
    HeldInside(loc, nodes, ppn, r, u, t);
    PhaseSound(q, u, held, |loc|);
    NetAt(loc, nodes, ppn, data, r);
    ProgAt(q, u);
    BehindAt(PhaseProg(p), PhaseProg(q), u, t);
    SoundStep(NodeAwareNet(loc, nodes, ppn, data), data, r, t, {r}, prog, PhaseStep(q, u), held);
  }

  lemma RankStepSound<V(!new)>(loc: seq<nat>, nodes: nat, ppn: nat, data: nat -> V, r: nat, t: nat)
    requires Balanced(loc, nodes, ppn) && r < |loc| && t < |RankProg(loc, nodes, ppn, r)|
    ensures StepSound(NodeAwareNet(loc, nodes, ppn, data), data, r, t)
  {
    var intra, u := InWhichPhase(loc, nodes, ppn, r, t);
    if intra {
      IntraStepSound(loc, nodes, ppn, data, r, u, t);
    } else {
      InterStepSound(loc, nodes, ppn, data, r, u);
    }
  }

  lemma NodeAwareSound<V(!new)>(loc: seq<nat>, nodes: nat, ppn: nat, data: nat -> V)
    requires Balanced(loc, nodes, ppn)
    ensures Sound(NodeAwareNet(loc, nodes, ppn, data), data)
    ensures Live(NodeAwareNet(loc, nodes, ppn, data).progs, Clock(loc, nodes))
  {
    var net := NodeAwareNet(loc, nodes, ppn, data);
    AllMeet(loc, nodes, ppn);
    forall r: nat, t: nat | r < |net.progs| && t < |net.progs[r]| ensures StepSound(net, data, r, t) {
      RankStepSound(loc, nodes, ppn, data, r, t);
    }
  }

  /** At the end a rank holds every rank's block. */
  lemma AllHeld(loc: seq<nat>, nodes: nat, ppn: nat, r: nat, b: nat, m: nat)
    requires Balanced(loc, nodes, ppn) && r < |loc| && b < |loc| && m == |RankProg(loc, nodes, ppn, r)|
    ensures b in Held({r}, RankProg(loc, nodes, ppn, r), m)
  {
    AtOffset(loc, r);
    AtOffset(loc, b);
    var n := Offset(loc, r);
    var w := Window(ppn, n, Steps(ppn, n));
    InterFits(loc, nodes, ppn, r);
    IntraFits(loc, nodes, ppn, r);
    HeldInside(loc, nodes, ppn, r, Steps(ppn, n), m);
    WindowEnds(ppn, n);
    ImageHas(NodeRows(loc, nodes), w, loc[b], Offset(loc, b));
  }

  lemma ImageHas(slices: seq<seq<nat>>, w: set<nat>, i: nat, k: nat)
    requires i < |slices| && k in w && k < |slices[i]|
    ensures slices[i][k] in Image(slices, w)
  {
  }

  lemma AllDelivered<V(!new)>(loc: seq<nat>, nodes: nat, ppn: nat, data: nat -> V, s: State<V>)
    requires Balanced(loc, nodes, ppn)
    requires var net := NodeAwareNet(loc, nodes, ppn, data); |net.progs| == |net.init| && Complete(net, data, s)
    ensures AllGathered(s, |loc|, |loc|, data)
  {
    var net := NodeAwareNet(loc, nodes, ppn, data);
    forall r: nat | r < |loc| ensures Gathered(s.buf(r), |loc|, data) {
      assert net.init[r].Keys == {r} && net.progs[r] == RankProg(loc, nodes, ppn, r);
      forall b: nat | b < |loc| ensures b in s.buf(r) && s.buf(r)[b] == data(b) {
        AllHeld(loc, nodes, ppn, r, b, |net.progs[r]|);
        CompleteHolds(net, data, s, r, b);
      }
    }
  }

  /** Node-aware rolling allgather, for every balanced placement, consecutive or not, and every interleaving:
      no run gets stuck, and when the ranks are done every rank has every rank's block in that rank's slot. */
  lemma NodeAwareAllgather<V(!new)>(keys: seq<int>, ppn: nat, data: nat -> V, run: seq<Event>)
    requires Balanced(NodeOf(keys), NodeCount(keys), ppn)
    requires IsRun(NodeAwareNet(NodeOf(keys), NodeCount(keys), ppn, data), run)
    ensures var net := NodeAwareNet(NodeOf(keys), NodeCount(keys), ppn, data);
      && |net.progs| == |net.init| && OnItsWay(net, data, run)
      && (|run| == TotalWork(net) ==> AllGathered(After(net, run), |keys|, |keys|, data))
  {
    var loc, nodes := NodeOf(keys), NodeCount(keys);
    var net := NodeAwareNet(loc, nodes, ppn, data);
    NodeAwareSound(loc, nodes, ppn, data);
    EveryRunCompletes(net, data, Clock(loc, nodes), run);
    if |run| == TotalWork(net) {
      AllDelivered(loc, nodes, ppn, data, After(net, run));
    }
  }
}
