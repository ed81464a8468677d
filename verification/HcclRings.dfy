/** The allgather rings over blocking calls: the plain ring, in which rank 0 sends first and the others receive
    first, and Ring-HPL, in which the left one of two partners sends first. */
module HcclRings {
  import opened Network
  import opened Cyclic
  import opened Rendezvous
  import Exchange
  import Rolling
  import RingHpl

  // ----- the plain ring -----

  function RoundCall(n: nat, r: nat, i: nat, sending: bool): Call
    requires r < n && i + 1 < n
  {
    if sending then Send(Wrap(r + 1, n), [Wrap(r - i, n)]) else Recv(Wrap(r - 1, n), [Wrap(r - i - 1, n)])
  }

  /** Every round has two calls; rank 0 sends in the first one. */
  predicate SendsAt(r: nat, u: nat)
  {
    (u % 2 == 0) == (r == 0)
  }

  ghost function Ring(n: nat): Script
  {
    Script(n, (r: nat) => 2 * RingHpl.Steps(n),
           (r: nat, u: nat) => if r < n && u / 2 + 1 < n then RoundCall(n, r, u / 2, SendsAt(r, u)) else Send(0, []))
  }

  /** The message that rank `r` sends in round `i` goes over at time `i * n + r`. */
  ghost function RingClock(n: nat): (nat, nat) -> nat
  {
    (r: nat, u: nat) => MessageTime(n, u / 2, if SendsAt(r, u) then r else if r == 0 then n - 1 else r - 1)
  }

  function MessageTime(n: nat, i: nat, sender: int): nat
  {
    if sender < 0 then 0 else Product(i, n) + sender
  }

  function Product(i: nat, n: nat): nat
  {
    NonNegative(i, n);
    i * n
  }

  ghost function RingOther(n: nat): (nat, nat) -> nat
  {
    (r: nat, u: nat) =>
      (if r < n then OtherCall(u / 2, if SendsAt(r, u) then Wrap(r + 1, n) == 0 else r != 1) else 0) as nat
  }

  /** The call of round `i`, the first or the second. */
  function OtherCall(i: nat, second: bool): nat
  {
    2 * i + (if second then 1 else 0)
  }

  /** The blocks received in `rounds` rounds, and the own one. */
  ghost function RingHeld(n: nat): (nat, nat) -> set<nat>
  {
    (r: nat, u: nat) =>
      if r >= n then {} else Rolling.Around(n, r, if u % 2 == 1 && r != 0 then u / 2 + 1 else u / 2, 0)
  }

  lemma RoundsApart(n: nat, i: nat, j: nat, s: nat, s': nat)
    requires i < j && s < n
    ensures Product(i, n) + s < Product(j, n) + s'
  {
    MulSplit(j, i, n);
  }

  lemma RingIncreases(n: nat, r: nat, t: nat, u: nat)
    requires r < n && t < u < 2 * RingHpl.Steps(n)
    ensures RingClock(n)(r, t) < RingClock(n)(r, u)
  {
    if t / 2 < u / 2 {
      var s := if SendsAt(r, t) then r else if r == 0 then n - 1 else r - 1;
      var s' := if SendsAt(r, u) then r else if r == 0 then n - 1 else r - 1;
      RoundsApart(n, t / 2, u / 2, s, s');
    }
  }

  lemma RingPaired(n: nat, r: nat, u: nat)
    requires r < n && u < 2 * RingHpl.Steps(n)
    ensures Paired(Ring(n), RingClock(n), RingOther(n), r, u)
  {
    var i := u / 2;
    var p := if SendsAt(r, u) then Wrap(r + 1, n) else Wrap(r - 1, n);
    var v := RingOther(n)(r, u);
    assert v / 2 == i && SendsAt(p, v) == !SendsAt(r, u);
    RoundAnswered(n, r, i, SendsAt(r, u));
    assert Ring(n).call(r, u) == RoundCall(n, r, i, SendsAt(r, u));
    assert Ring(n).call(p, v) == RoundCall(n, p, i, SendsAt(p, v));
  }

  /** The right neighbour receives in round `i` what a rank sends in round `i`. */
  lemma RoundAnswered(n: nat, r: nat, i: nat, sending: bool)
    requires r < n && i + 1 < n
    ensures var c := RoundCall(n, r, i, sending);
      c.peer < n && RoundCall(n, c.peer, i, !sending) == Answer(c, r)
  {
  }

  lemma RingHolds(n: nat, r: nat, u: nat)
    requires r < n && u < 2 * RingHpl.Steps(n)
    ensures CallHolds(Ring(n), RingHeld(n), r, u)
  {
    var i := u / 2;
    var back := if u % 2 == 1 && r != 0 then i + 1 else i;
    var back' := if SendsAt(r, u) then back else back + 1;
    assert RingHeld(n)(r, u) == Rolling.Around(n, r, back, 0);
    assert RingHeld(n)(r, u + 1) == Rolling.Around(n, r, back', 0);
    assert Ring(n).call(r, u) == RoundCall(n, r, i, SendsAt(r, u));
    if SendsAt(r, u) {
      Rolling.NearEnds(n, r, back, 0, i);
    } else {
      Rolling.GrowBack(n, r, i, 0);
      RingHpl.SingletonOf(Wrap(r - i - 1, n));
    }
  }

  lemma RingDelivers(n: nat)
    ensures Delivers(Ring(n), RingClock(n), RingOther(n), RingHeld(n))
  {
    forall r: nat, u: nat | r < n && u < 2 * RingHpl.Steps(n)
      ensures Paired(Ring(n), RingClock(n), RingOther(n), r, u) && CallHolds(Ring(n), RingHeld(n), r, u)
    {
      RingPaired(n, r, u);
      RingHolds(n, r, u);
    }
    forall r: nat, t: nat, u: nat | r < n && t < u < 2 * RingHpl.Steps(n)
      ensures RingClock(n)(r, t) < RingClock(n)(r, u)
    {
      RingIncreases(n, r, t, u);
    }
  }

  lemma RingEnds(n: nat, r: nat)
    requires r < n
    ensures RingHeld(n)(r, 0) == {r}
    ensures forall b: nat :: b < n ==> b in RingHeld(n)(r, 2 * RingHpl.Steps(n))
  {
    var u := 2 * RingHpl.Steps(n);
    assert u / 2 == n - 1 && u % 2 == 0;
    assert RingHeld(n)(r, 0) == Rolling.Around(n, r, 0, 0);
    var all := Rolling.Around(n, r, n - 1, 0);
    assert RingHeld(n)(r, u) == all;
    forall b: nat | b < n ensures b in all {
      AllBehind(n, r, b);
    }
    Alone(n, r);
  }

  lemma Alone(n: nat, r: nat)
    requires r < n
    ensures Rolling.Around(n, r, 0, 0) == {r}
  {
  }

  lemma AllBehind(n: nat, r: nat, b: nat)
    requires r < n && b < n
    ensures b in Rolling.Around(n, r, n - 1, 0)
  {
  }

  /** The blocking ring, for every group size: no run of it gets stuck, and every rank ends with every block. */
  lemma RingAllgather<V(!new)>(n: nat, data: nat -> V, run: seq<Event>)
    requires IsRun(NetOf(Ring(n), RingHeld(n), data), run)
    ensures OnItsWay(NetOf(Ring(n), RingHeld(n), data), data, run)
    ensures |run| == TotalWork(NetOf(Ring(n), RingHeld(n), data)) ==>
      AllGathered(After(NetOf(Ring(n), RingHeld(n), data), run), n, n, data)
  {
    var net := NetOf(Ring(n), RingHeld(n), data);
    RingDelivers(n);
    ScriptDelivers(Ring(n), RingClock(n), RingOther(n), RingHeld(n), data, run);
    if |run| == TotalWork(net) {
      var s := After(net, run);
      forall r: nat | r < n ensures Gathered(s.buf(r), n, data) {
        RingEnds(n, r);
        assert Has(s.buf(r), RingHeld(n)(r, Ring(n).len(r)), data);
      }
    }
  }

  /** The first `count` calls of rank `r`. */
  ghost function Calls(p: Script, r: nat, count: nat): seq<Call>
  {
    seq(count, (u: nat) => p.call(r, u))
  }

  lemma CallsNext(p: Script, r: nat, count: nat, first: Call, second: Call)
    requires p.call(r, count) == first && p.call(r, count + 1) == second
    ensures Calls(p, r, count + 2) == Calls(p, r, count) + [first, second]
  {
  }

  /** The kernel: the calls it makes, in order. */
  method RingKernel(n: nat, myrank: nat) returns (log: seq<Call>)
    requires myrank < n
    ensures log == Calls(Ring(n), myrank, Ring(n).len(myrank))
  {
    log := [];
    var sendto := Successor(myrank, n);
    var recvfrom := Predecessor(myrank, n);
    for i := 0 to n - 1
      invariant log == Calls(Ring(n), myrank, 2 * i)
    {
      var recvdatafrom := Backward(myrank, i + 1, n);
      var senddatafrom := Backward(myrank, i, n);
      var send, recv := Send(sendto, [senddatafrom]), Recv(recvfrom, [recvdatafrom]);
      CallsNext(Ring(n), myrank, 2 * i, if myrank == 0 then send else recv, if myrank == 0 then recv else send);
      if myrank == 0 {
        log := log + [send, recv];
      } else {
        log := log + [recv, send];
      }
    }
  }

  // ----- Ring-HPL -----

  /** Of two partners the one that has the other on its right sends first. */
  predicate IsLeft(n: nat, r: nat, c: nat)
  {
    if n > 2 then RingHpl.ToRight(n, r, c) else r == 0
  }

  predicate HplSendsAt(n: nat, r: nat, u: nat)
  {
    (u % 2 == 0) == IsLeft(n, r, u / 2)
  }

  function HplCall(n: nat, r: nat, c: nat, sending: bool): Call
    requires r < n && c < RingHpl.Steps(n)
  {
    var s := RingHpl.Exchanged(n, r, c);
    if sending then Send(s.peer, s.gives) else Recv(s.peer, s.takes)
  }

  ghost function Hpl(n: nat): Script
  {
    Script(n, (r: nat) => 2 * RingHpl.Steps(n),
           (r: nat, u: nat) =>
             if r < n && u / 2 < RingHpl.Steps(n) then HplCall(n, r, u / 2, HplSendsAt(n, r, u)) else Send(0, []))
  }

  ghost function HplClock(n: nat): (nat, nat) -> nat
  {
    (r: nat, u: nat) => (2 * RingHpl.Clock(n)(r, u / 2) + u % 2) as nat
  }

  ghost function HplOther(n: nat): (nat, nat) -> nat
  {
    (r: nat, u: nat) => (2 * RingHpl.Other(n)(r, u / 2) + u % 2) as nat
  }

  /** In the middle of an exchange the blocks of the step are there if the receive came first. */
  ghost function HplHeld(n: nat): (nat, nat) -> set<nat>
  {
    (r: nat, u: nat) =>
      if r >= n then {}
      else RingHpl.WindowAt(n, r, if u % 2 == 1 && !IsLeft(n, r, u / 2) then u / 2 + 1 else u / 2)
  }

  /** Partners disagree about who is on the left. */
  lemma OneIsLeft(n: nat, r: nat, c: nat)
    requires r < n && c < RingHpl.Steps(n)
    ensures var s, d := RingHpl.Exchanged(n, r, c), RingHpl.Other(n)(r, c);
      && s.peer < n && d < RingHpl.Steps(n) && IsLeft(n, s.peer, d) == !IsLeft(n, r, c)
      && RingHpl.Clock(n)(s.peer, d) == RingHpl.Clock(n)(r, c)
      && RingHpl.Exchanged(n, s.peer, d) == Exchange.Swap(r, s.takes, s.gives)
  {
    RingHpl.Partners(n, r, c);
  }

  lemma HplPaired(n: nat, r: nat, u: nat)
    requires r < n && u < 2 * RingHpl.Steps(n)
    ensures Paired(Hpl(n), HplClock(n), HplOther(n), r, u)
  {
    var c := u / 2;
    OneIsLeft(n, r, c);
    var p, v := RingHpl.Exchanged(n, r, c).peer, HplOther(n)(r, u);
    assert v / 2 == RingHpl.Other(n)(r, c) && v % 2 == u % 2;
    assert HplSendsAt(n, p, v) == !HplSendsAt(n, r, u);
    assert Hpl(n).call(r, u) == HplCall(n, r, c, HplSendsAt(n, r, u));
    assert Hpl(n).call(p, v) == HplCall(n, p, v / 2, HplSendsAt(n, p, v));
  }

  lemma HplHolds(n: nat, r: nat, u: nat)
    requires r < n && u < 2 * RingHpl.Steps(n)
    ensures CallHolds(Hpl(n), HplHeld(n), r, u)
  {
    var c := u / 2;
    var sending := HplSendsAt(n, r, u);
    var before := RingHpl.WindowAt(n, r, if u % 2 == 1 && !IsLeft(n, r, c) then c + 1 else c);
    var after := RingHpl.WindowAt(n, r, if u % 2 == 1 || !IsLeft(n, r, c) then c + 1 else c);
    assert HplHeld(n)(r, u) == before && HplHeld(n)(r, u + 1) == after;
    assert Hpl(n).call(r, u) == HplCall(n, r, c, sending);
    ExchangeGrows(n, r, c);
    if sending {
      assert before == after;
    }
  }

  lemma ExchangeGrows(n: nat, r: nat, c: nat)
    requires r < n && c < RingHpl.Steps(n)
    ensures var s := RingHpl.Exchanged(n, r, c);
      && RingHpl.WindowAt(n, r, c + 1) == RingHpl.WindowAt(n, r, c) + (set x | x in s.takes)
      && forall x :: x in s.gives ==> x in RingHpl.WindowAt(n, r, c) && x in RingHpl.WindowAt(n, r, c + 1)
  {
    RingHpl.Grows(n, r, c);
    assert RingHpl.ThePlan(n).swap(r, c) == RingHpl.Exchanged(n, r, c);
    assert RingHpl.Windows(n)(r, c) == RingHpl.WindowAt(n, r, c);
    assert RingHpl.Windows(n)(r, c + 1) == RingHpl.WindowAt(n, r, c + 1);
  }

  lemma HplDelivers(n: nat)
    ensures Delivers(Hpl(n), HplClock(n), HplOther(n), HplHeld(n))
  {
    forall r: nat, u: nat | r < n && u < 2 * RingHpl.Steps(n)
      ensures Paired(Hpl(n), HplClock(n), HplOther(n), r, u) && CallHolds(Hpl(n), HplHeld(n), r, u)
    {
      HplPaired(n, r, u);
      HplHolds(n, r, u);
    }
    forall r: nat, t: nat, u: nat | r < n && t < u < 2 * RingHpl.Steps(n)
      ensures HplClock(n)(r, t) < HplClock(n)(r, u)
    {
      HplIncreases(n, r, t, u);
    }
  }

  lemma HplIncreases(n: nat, r: nat, t: nat, u: nat)
    requires r < n && t < u < 2 * RingHpl.Steps(n)
    ensures HplClock(n)(r, t) < HplClock(n)(r, u)
  {
    if t / 2 < u / 2 {
      assert RingHpl.Clock(n)(r, t / 2) < RingHpl.Clock(n)(r, u / 2);
    }
  }

  lemma HplEnds(n: nat, r: nat)
    requires r < n
    ensures HplHeld(n)(r, 0) == {r}
    ensures forall b: nat :: b < n ==> b in HplHeld(n)(r, 2 * RingHpl.Steps(n))
  {
    RingHpl.RingHplGathers(n);
    assert RingHpl.Windows(n)(r, 0) == RingHpl.WindowAt(n, r, 0);
    var m := RingHpl.Steps(n);
    assert RingHpl.Windows(n)(r, RingHpl.ThePlan(n).len(r)) == RingHpl.WindowAt(n, r, m);
  }

  /** Ring-HPL over blocking calls, for every group size, odd ones included. */
  lemma HplAllgather<V(!new)>(n: nat, data: nat -> V, run: seq<Event>)
    requires IsRun(NetOf(Hpl(n), HplHeld(n), data), run)
    ensures OnItsWay(NetOf(Hpl(n), HplHeld(n), data), data, run)
    ensures |run| == TotalWork(NetOf(Hpl(n), HplHeld(n), data)) ==>
      AllGathered(After(NetOf(Hpl(n), HplHeld(n), data), run), n, n, data)
  {
    var net := NetOf(Hpl(n), HplHeld(n), data);
    HplDelivers(n);
    ScriptDelivers(Hpl(n), HplClock(n), HplOther(n), HplHeld(n), data, run);
    if |run| == TotalWork(net) {
      var s := After(net, run);
      forall r: nat | r < n ensures Gathered(s.buf(r), n, data) {
        HplEnds(n, r);
        assert Has(s.buf(r), HplHeld(n)(r, Hpl(n).len(r)), data);
      }
    }
  }

  /** The two calls of step `i`: the left of the two partners sends first. */
  method HplStep(n: nat, myrank: nat, i: nat, leftPeer: nat, rightPeer: nat) returns (first: Call, second: Call)
    requires myrank < n && i < n - 1 && leftPeer == Wrap(myrank - 1, n) && rightPeer == Wrap(myrank + 1, n)
    ensures first == Hpl(n).call(myrank, 2 * i) && second == Hpl(n).call(myrank, 2 * i + 1)
  {
    var peer := if (myrank + i) % 2 != 0 then leftPeer else rightPeer;
    var isLeft := if n > 2 then peer == rightPeer else myrank == 0;
    var p, give, take := RingHpl.StepRequests(n, myrank, i);
    if isLeft {
      first, second := Send(peer, [give]), Recv(peer, [take]);
    } else {
      first, second := Recv(peer, [take]), Send(peer, [give]);
    }
  }

  method HplKernel(n: nat, myrank: nat) returns (log: seq<Call>)
    requires myrank < n
    ensures log == Calls(Hpl(n), myrank, Hpl(n).len(myrank))
  {
    log := [];
    var leftPeer := Predecessor(myrank, n);
    var rightPeer := Successor(myrank, n);
    for i := 0 to n - 1
      invariant log == Calls(Hpl(n), myrank, 2 * i)
    {
      var first, second := HplStep(n, myrank, i, leftPeer, rightPeer);
      CallsNext(Hpl(n), myrank, 2 * i, first, second);
      log := log + [first, second];
    }
  }
}
