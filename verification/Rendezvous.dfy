/** Ranks that run straight-line scripts of blocking sends and receives: a call returns when its message has been
    handed over, so two ranks that both send to each other first wait for ever. */
module Rendezvous {
  import opened Network
  import opened LockStep

  datatype Call = Send(peer: nat, slots: seq<nat>) | Recv(peer: nat, slots: seq<nat>)

  function CallStep(c: Call): Step
  {
    match c
    case Send(peer, slots) => Step([Msg(peer, slots)], [], None)
    case Recv(peer, slots) => Step([], [Msg(peer, slots)], None)
  }

  /** A script for every rank: its length and its calls. */
  datatype Script = Script(n: nat, len: nat -> nat, call: (nat, nat) -> Call)

  function ProgOf(p: Script, r: nat): Program
  {
    seq(p.len(r), (u: nat) => CallStep(p.call(r, u)))
  }

  function Progs(p: Script): seq<Program>
  {
    seq(p.n, (r: nat) => ProgOf(p, r))
  }

  /** The call that takes up call `c` of rank `r` at the other end. */
  function Answer(c: Call, r: nat): Call
  {
    match c
    case Send(_, slots) => Recv(r, slots)
    case Recv(_, slots) => Send(r, slots)
  }

  ghost predicate Paired(p: Script, clock: (nat, nat) -> nat, other: (nat, nat) -> nat, r: nat, u: nat)
  {
    var c, v := p.call(r, u), other(r, u);
    c.peer < p.n && v < p.len(c.peer) && clock(c.peer, v) == clock(r, u) && p.call(c.peer, v) == Answer(c, r)
  }

  /** `h(r, u)` is what rank `r` holds before call `u`. */
  ghost predicate CallHolds(p: Script, h: (nat, nat) -> set<nat>, r: nat, u: nat)
  {
    match p.call(r, u)
    case Send(_, slots) => (forall x :: x in slots ==> x in h(r, u)) && h(r, u + 1) == h(r, u)
    case Recv(_, slots) => h(r, u + 1) == h(r, u) + set x | x in slots
  }

  ghost predicate Delivers(p: Script, clock: (nat, nat) -> nat, other: (nat, nat) -> nat, h: (nat, nat) -> set<nat>)
  {
    && (forall r: nat, t: nat, u: nat :: r < p.n && t < u < p.len(r) ==> clock(r, t) < clock(r, u))
    && (forall r: nat, u: nat :: r < p.n && u < p.len(r) ==> Paired(p, clock, other, r, u))
    && (forall r: nat, u: nat :: r < p.n && u < p.len(r) ==> CallHolds(p, h, r, u))
  }

  ghost function Owned<V>(own: set<nat>, data: nat -> V): map<nat, V>
  {
    map x | x in own :: data(x)
  }

  /** `h(r, 0)` is what rank `r` starts with. */
  ghost function NetOf<V>(p: Script, h: (nat, nat) -> set<nat>, data: nat -> V): Net<V>
  {
    Net(Progs(p), seq(p.n, (r: nat) => Owned(h(r, 0), data)), NoReduction())
  }

  lemma CallTraffic(p: Script, r: nat, u: nat, to: nat, sending: bool)
    requires r < p.n && u < p.len(r)
    ensures var c := p.call(r, u);
      StepTraffic(Progs(p)[r], u, to, sending) == if c.peer == to && c.Send? == sending then [c.slots] else []
  {
    var c := p.call(r, u);
    assert Progs(p)[r][u] == CallStep(c);
    ToMany([Msg(c.peer, c.slots)], c.peer, to);
  }

  lemma CallsMeet(p: Script, clock: (nat, nat) -> nat, other: (nat, nat) -> nat, a: nat, b: nat)
    requires a < p.n && b < p.n
    requires forall r: nat, u: nat :: r < p.n && u < p.len(r) ==> Paired(p, clock, other, r, u)
    ensures Meets(Progs(p), clock, a, b)
  {
    var progs := Progs(p);
    forall t: nat | t < |progs[a]| ensures SendMeets(progs, clock, a, t, b) {
      CallTraffic(p, a, t, b, true);
      assert Paired(p, clock, other, a, t);
      var c := p.call(a, t);
      if c.Send? && c.peer == b {
        CallTraffic(p, b, other(a, t), a, false);
        assert Together(progs, clock, a, t, b, other(a, t));
      }
    }
    forall u: nat | u < |progs[b]| ensures RecvMeets(progs, clock, a, b, u) {
      CallTraffic(p, b, u, a, false);
      assert Paired(p, clock, other, b, u);
      var c := p.call(b, u);
      if c.Recv? && c.peer == a {
        CallTraffic(p, a, other(b, u), b, true);
        assert Together(progs, clock, a, other(b, u), b, u);
      }
    }
  }

  lemma CallSlots(c: Call)
    ensures SlotsOf(CallStep(c).recvs) == if c.Send? then {} else set x | x in c.slots
  {
    if c.Recv? {
      var m := Msg(c.peer, c.slots);
      assert [m][0] == m;
    }
  }

  lemma {:induction false} HeldIs(p: Script, h: (nat, nat) -> set<nat>, r: nat, u: nat, held: set<nat>)
    requires r < p.n && u <= p.len(r) && held == h(r, u)
    requires forall v: nat :: v < p.len(r) ==> CallHolds(p, h, r, v)
    ensures Held(h(r, 0), ProgOf(p, r), u) == held
    decreases u
  {
    if u > 0 {
      HeldIs(p, h, r, u - 1, h(r, u - 1));
      assert CallHolds(p, h, r, u - 1);
      HeldNext(h(r, 0), ProgOf(p, r), u - 1);
      CallSlots(p.call(r, u - 1));
    }
  }

  lemma CallSound<V(!new)>(p: Script, clock: (nat, nat) -> nat, other: (nat, nat) -> nat, h: (nat, nat) -> set<nat>,
                           data: nat -> V, r: nat, u: nat)
    requires Delivers(p, clock, other, h) && r < p.n && u < p.len(r)
    ensures StepSound(NetOf(p, h, data), data, r, u)
  {
    var net, c := NetOf(p, h, data), p.call(r, u);
    assert net.progs[r][u] == CallStep(c) && net.init[r].Keys == h(r, 0);
    assert Paired(p, clock, other, r, u) && CallHolds(p, h, r, u);
    HeldIs(p, h, r, u, h(r, u));
  }

  lemma ScriptSound<V(!new)>(p: Script, clock: (nat, nat) -> nat, other: (nat, nat) -> nat,
                             h: (nat, nat) -> set<nat>, data: nat -> V)
    requires Delivers(p, clock, other, h)
    ensures Sound(NetOf(p, h, data), data) && Live(NetOf(p, h, data).progs, clock)
  {
    var net := NetOf(p, h, data);
    forall a: nat, b: nat | a < p.n && b < p.n ensures Meets(net.progs, clock, a, b) {
      CallsMeet(p, clock, other, a, b);
    }
    MatchedAndLive(net.progs, clock);
    forall r: nat | r < p.n ensures Agrees(net.init[r], data) {
      assert net.init[r] == Owned(h(r, 0), data);
    }
    forall r: nat, u: nat | r < p.n && u < |net.progs[r]| ensures StepSound(net, data, r, u) {
      CallSound(p, clock, other, h, data, r, u);
    }
  }

  ghost predicate Has<V>(buf: map<nat, V>, held: set<nat>, data: nat -> V)
  {
    forall x :: x in held ==> x in buf && buf[x] == data(x)
  }

  /** Every rank has the right data in the slots that its script ends with. */
  ghost predicate AllDelivered<V(!new)>(s: State<V>, p: Script, h: (nat, nat) -> set<nat>, data: nat -> V)
  {
    forall r: nat :: r < p.n ==> Has(s.buf(r), h(r, p.len(r)), data)
  }

  lemma RankDelivered<V(!new)>(p: Script, h: (nat, nat) -> set<nat>, data: nat -> V, s: State<V>, r: nat)
    requires r < p.n && forall u: nat :: u < p.len(r) ==> CallHolds(p, h, r, u)
    requires var net := NetOf(p, h, data); |net.progs| == |net.init| && Complete(net, data, s)
    ensures Has(s.buf(r), h(r, p.len(r)), data)
  {
    var net, m := NetOf(p, h, data), p.len(r);
    HeldIs(p, h, r, m, h(r, m));
    assert net.progs[r] == ProgOf(p, r) && net.init[r].Keys == h(r, 0);
    forall x | x in h(r, m) ensures x in s.buf(r) && s.buf(r)[x] == data(x) {
      CompleteHolds(net, data, s, r, x);
    }
  }

  /** Scripts that deliver do so in every run: some call can always go on although every send waits for its
      receive, and at the end every rank has its data. */
  lemma ScriptDelivers<V(!new)>(p: Script, clock: (nat, nat) -> nat, other: (nat, nat) -> nat,
                                h: (nat, nat) -> set<nat>, data: nat -> V, run: seq<Event>)
    requires Delivers(p, clock, other, h) && IsRun(NetOf(p, h, data), run)
    ensures OnItsWay(NetOf(p, h, data), data, run)
    ensures |run| == TotalWork(NetOf(p, h, data)) ==> AllDelivered(After(NetOf(p, h, data), run), p, h, data)
  {
    var net := NetOf(p, h, data);
    ScriptSound(p, clock, other, h, data);
    EveryRunCompletes(net, data, clock, run);
    if |run| == TotalWork(net) {
      var s := After(net, run);
      forall r: nat | r < p.n ensures Has(s.buf(r), h(r, p.len(r)), data) {
        RankDelivered(p, h, data, s, r);
      }
    }
  }
}
