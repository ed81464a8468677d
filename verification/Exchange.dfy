/** Allgather schedules in which every step of a rank is an exchange with one partner. */
module Exchange {
  import opened Network
  import opened LockStep

  /** One exchange: the blocks `gives`, one message each, for the blocks `takes`. */
  datatype Swap = Swap(peer: nat, gives: seq<nat>, takes: seq<nat>)

  function Singles(peer: nat, blocks: seq<nat>): seq<Msg>
  {
    seq(|blocks|, i requires 0 <= i < |blocks| => Msg(peer, [blocks[i]]))
  }

  function StepOf(s: Swap): Step
  {
    Step(Singles(s.peer, s.gives), Singles(s.peer, s.takes), None)
  }

  lemma OneEach(peer: nat, give: nat, take: nat)
    ensures StepOf(Swap(peer, [give], [take])) == Step([Msg(peer, [give])], [Msg(peer, [take])], None)
  {
    assert Singles(peer, [give]) == [Msg(peer, [give])];
    assert Singles(peer, [take]) == [Msg(peer, [take])];
  }

  /** A schedule: how many steps each rank has, and which exchange each step is. */
  datatype Plan = Plan(n: nat, len: nat -> nat, swap: (nat, nat) -> Swap)

  function ProgOf(p: Plan, r: nat): Program
  {
    seq(p.len(r), (t: nat) => StepOf(p.swap(r, t)))
  }

  function Progs(p: Plan): seq<Program>
  {
    seq(p.n, (r: nat) => ProgOf(p, r))
  }

  /** Step `t` of rank `r` and step `other(r, t)` of its partner are the two sides of one exchange and have
      the same clock reading. */
  ghost predicate Mutual(p: Plan, clock: (nat, nat) -> nat, other: (nat, nat) -> nat, r: nat, t: nat)
  {
    var s, u := p.swap(r, t), other(r, t);
    && s.peer < p.n && u < p.len(s.peer) && clock(s.peer, u) == clock(r, t)
    && p.swap(s.peer, u) == Swap(r, s.takes, s.gives)
  }

  /** `h(r, t)` is what rank `r` holds before step `t`; a step sends only held blocks and adds what it takes. */
  ghost predicate Holds(p: Plan, h: (nat, nat) -> set<nat>, r: nat, t: nat)
  {
    var s := p.swap(r, t);
    && (forall x :: x in s.gives ==> x in h(r, t))
    && h(r, t + 1) == h(r, t) + set x | x in s.takes
  }

  lemma HoldsBy(p: Plan, h: (nat, nat) -> set<nat>, r: nat, t: nat, s: Swap, before: set<nat>, after: set<nat>)
    requires p.swap(r, t) == s && h(r, t) == before && h(r, t + 1) == after
    requires (forall x :: x in s.gives ==> x in before) && after == before + set x | x in s.takes
    ensures Holds(p, h, r, t)
  {
  }

  ghost predicate Gathers(p: Plan, clock: (nat, nat) -> nat, other: (nat, nat) -> nat, h: (nat, nat) -> set<nat>)
  {
    && (forall r: nat, t: nat, u: nat :: r < p.n && t < u < p.len(r) ==> clock(r, t) < clock(r, u))
    && (forall r: nat, t: nat :: r < p.n && t < p.len(r) ==> Mutual(p, clock, other, r, t))
    && (forall r: nat, t: nat :: r < p.n && t < p.len(r) ==> Holds(p, h, r, t))
    && (forall r: nat :: r < p.n ==> h(r, 0) == {r})
    && (forall r: nat, b: nat :: r < p.n && b < p.n ==> b in h(r, p.len(r)))
  }

  ghost function NetOf<V>(p: Plan, data: nat -> V): Net<V>
  {
    Net(Progs(p), seq(p.n, (r: nat) => map[r := data(r)]), NoReduction())
  }

  lemma ToSingles(peer: nat, blocks: seq<nat>, to: nat)
    ensures To(Singles(peer, blocks), to) == if to == peer then Singletons(blocks) else []
  {
    ToMany(Singles(peer, blocks), peer, to);
  }

  lemma SwapTraffic(p: Plan, r: nat, t: nat, to: nat, sending: bool)
    requires r < p.n && t < p.len(r)
    ensures var s := p.swap(r, t);
      StepTraffic(Progs(p)[r], t, to, sending)
        == if to == s.peer then Singletons(if sending then s.gives else s.takes) else []
  {
    var s := p.swap(r, t);
    assert Progs(p)[r][t] == StepOf(s);
    ToSingles(s.peer, if sending then s.gives else s.takes, to);
  }

  lemma SwapsMeet(p: Plan, clock: (nat, nat) -> nat, other: (nat, nat) -> nat, a: nat, b: nat)
    requires a < p.n && b < p.n
    requires forall r: nat, t: nat :: r < p.n && t < p.len(r) ==> Mutual(p, clock, other, r, t)
    ensures Meets(Progs(p), clock, a, b)
  {
    var progs := Progs(p);
    forall t: nat | t < |progs[a]|
      ensures SendMeets(progs, clock, a, t, b)
    {
      SwapTraffic(p, a, t, b, true);
      assert Mutual(p, clock, other, a, t);
      if p.swap(a, t).peer == b {
        SwapTraffic(p, b, other(a, t), a, false);
        assert Together(progs, clock, a, t, b, other(a, t));
      }
    }
    forall u: nat | u < |progs[b]|
      ensures RecvMeets(progs, clock, a, b, u)
    {
      SwapTraffic(p, b, u, a, false);
      assert Mutual(p, clock, other, b, u);
      if p.swap(b, u).peer == a {
        SwapTraffic(p, a, other(b, u), b, true);
        assert Together(progs, clock, a, other(b, u), b, u);
      }
    }
  }

  lemma SinglesSlots(peer: nat, blocks: seq<nat>)
    ensures SlotsOf(Singles(peer, blocks)) == set x | x in blocks
  {
    var ms := Singles(peer, blocks);
    forall x | x in blocks ensures x in SlotsOf(ms) {
      var i :| 0 <= i < |blocks| && blocks[i] == x;
      assert ms[i] in ms && x in ms[i].slots;
    }
  }

  lemma {:induction false} HeldIs(p: Plan, h: (nat, nat) -> set<nat>, r: nat, t: nat)
    requires r < p.n && t <= p.len(r) && h(r, 0) == {r}
    requires forall u: nat :: u < p.len(r) ==> Holds(p, h, r, u)
    ensures Held({r}, ProgOf(p, r), t) == h(r, t)
    decreases t
  {
    if t > 0 {
      HeldIs(p, h, r, t - 1);
      assert Holds(p, h, r, t - 1);
      HeldNext({r}, ProgOf(p, r), t - 1);
      SinglesSlots(p.swap(r, t - 1).peer, p.swap(r, t - 1).takes);
    }
  }

  lemma SwapStepSound<V(!new)>(p: Plan, clock: (nat, nat) -> nat, other: (nat, nat) -> nat, h: (nat, nat) -> set<nat>,
                               data: nat -> V, r: nat, t: nat)
    requires Gathers(p, clock, other, h) && r < p.n && t < p.len(r)
    ensures StepSound(NetOf(p, data), data, r, t)
  {
    var net, s := NetOf(p, data), p.swap(r, t);
    assert net.progs[r][t] == StepOf(s) && net.init[r].Keys == {r};
    assert Mutual(p, clock, other, r, t) && Holds(p, h, r, t);
    HeldIs(p, h, r, t);
    forall m | m in Singles(s.peer, s.gives)
      ensures m.peer < p.n && forall x :: x in m.slots ==> x in h(r, t)
    {
    }
  }

  lemma GathersSound<V(!new)>(p: Plan, clock: (nat, nat) -> nat, other: (nat, nat) -> nat, h: (nat, nat) -> set<nat>,
                              data: nat -> V)
    requires Gathers(p, clock, other, h)
    ensures Sound(NetOf(p, data), data) && Live(NetOf(p, data).progs, clock)
  {
    var net := NetOf(p, data);
    forall a: nat, b: nat | a < p.n && b < p.n ensures Meets(net.progs, clock, a, b) {
      SwapsMeet(p, clock, other, a, b);
    }
    MatchedAndLive(net.progs, clock);
    forall r: nat, t: nat | r < p.n && t < |net.progs[r]| ensures StepSound(net, data, r, t) {
      SwapStepSound(p, clock, other, h, data, r, t);
    }
  }

  lemma AllTaken<V(!new)>(p: Plan, clock: (nat, nat) -> nat, other: (nat, nat) -> nat, h: (nat, nat) -> set<nat>,
                          data: nat -> V, s: State<V>)
    requires Gathers(p, clock, other, h) && |NetOf(p, data).progs| == |NetOf(p, data).init|
    requires Complete(NetOf(p, data), data, s)
    ensures AllGathered(s, p.n, p.n, data)
  {
    forall r: nat | r < p.n ensures Gathered(s.buf(r), p.n, data) {
      HeldIs(p, h, r, p.len(r));
      assert NetOf(p, data).init[r].Keys == {r};
      forall b: nat | b < p.n ensures b in s.buf(r) && s.buf(r)[b] == data(b) {
        CompleteHolds(NetOf(p, data), data, s, r, b);
      }
    }
  }

  /** A plan that gathers does so in every run: no run gets stuck, and at the end every rank has every block. */
  lemma PlanGathers<V(!new)>(p: Plan, clock: (nat, nat) -> nat, other: (nat, nat) -> nat, h: (nat, nat) -> set<nat>,
                             data: nat -> V, run: seq<Event>)
    requires Gathers(p, clock, other, h) && IsRun(NetOf(p, data), run)
    ensures OnItsWay(NetOf(p, data), data, run)
    ensures |run| == TotalWork(NetOf(p, data)) ==> AllGathered(After(NetOf(p, data), run), p.n, p.n, data)
  {
    var net := NetOf(p, data);
    GathersSound(p, clock, other, h, data);
    EveryRunCompletes(net, data, clock, run);
    if |run| == TotalWork(net) {
      AllTaken(p, clock, other, h, data, After(net, run));
    }
  }
}
