/** A simple way to show that a schedule is matched and cannot deadlock: give every step a clock reading
    such that, on every edge, the steps that exchange messages have the same reading and the same traffic. */
module LockStep {
  import opened Network

  ghost predicate Increasing(progs: seq<Program>, clock: (nat, nat) -> nat)
  {
    forall r: nat, t: nat, u: nat :: r < |progs| && t < u < |progs[r]| ==> clock(r, t) < clock(r, u)
  }

  /** Step `t` of `a` and step `u` of `b` have the same reading and agree on what goes from `a` to `b`. */
  ghost predicate Together(progs: seq<Program>, clock: (nat, nat) -> nat, a: nat, t: nat, b: nat, u: nat)
    requires a < |progs| && b < |progs|
  {
    && t < |progs[a]| && u < |progs[b]| && clock(a, t) == clock(b, u)
    && StepTraffic(progs[a], t, b, true) == StepTraffic(progs[b], u, a, false)
  }

  /** What step `t` of `a` sends to `b`, if anything, is received by a step of `b` at the same time. */
  ghost predicate SendMeets(progs: seq<Program>, clock: (nat, nat) -> nat, a: nat, t: nat, b: nat)
    requires a < |progs| && b < |progs|
  {
    StepTraffic(progs[a], t, b, true) != [] ==> exists u: nat :: Together(progs, clock, a, t, b, u)
  }

  /** What step `u` of `b` receives from `a`, if anything, is sent by a step of `a` at the same time. */
  ghost predicate RecvMeets(progs: seq<Program>, clock: (nat, nat) -> nat, a: nat, b: nat, u: nat)
    requires a < |progs| && b < |progs|
  {
    StepTraffic(progs[b], u, a, false) != [] ==> exists t: nat :: Together(progs, clock, a, t, b, u)
  }

  ghost predicate Meets(progs: seq<Program>, clock: (nat, nat) -> nat, a: nat, b: nat)
    requires a < |progs| && b < |progs|
  {
    && (forall t: nat :: t < |progs[a]| ==> SendMeets(progs, clock, a, t, b))
    && (forall u: nat :: u < |progs[b]| ==> RecvMeets(progs, clock, a, b, u))
  }

  /** The first `i` of the `len` steps of rank `r` are those before `time`. */
  ghost predicate Cut(clock: (nat, nat) -> nat, r: nat, len: nat, i: nat, time: nat)
  {
    i <= len && forall t: nat :: t < len ==> (clock(r, t) < time <==> t < i)
  }

  lemma {:induction false} FindCut(clock: (nat, nat) -> nat, r: nat, len: nat, n: nat, time: nat) returns (i: nat)
    requires n <= len && forall t: nat, u: nat :: t < u < len ==> clock(r, t) < clock(r, u)
    requires forall t: nat :: n <= t < len ==> clock(r, t) >= time
    ensures Cut(clock, r, len, i, time)
  {
    if n == 0 || clock(r, n - 1) < time {
      i := n;
    } else {
      i := FindCut(clock, r, len, n - 1, time);
    }
  }

  /** What one step adds to an edge, and when. */
  datatype Tick = Tick(time: nat, load: seq<seq<nat>>)

  function Flatten(x: seq<Tick>): seq<seq<nat>>
  {
    if x == [] then [] else Flatten(x[..|x| - 1]) + x[|x| - 1].load
  }

  predicate InOrder(x: seq<Tick>)
  {
    forall i: nat, j: nat :: i < j < |x| ==> x[i].time < x[j].time
  }

  predicate Covered(x: seq<Tick>, y: seq<Tick>)
  {
    forall i: nat :: i < |x| ==> x[i].load == [] || x[i] in y
  }

  /** A last step without load can be left off. */
  lemma DropEmpty(x: seq<Tick>, y: seq<Tick>)
    requires x != [] && InOrder(x) && Covered(x, y) && Covered(y, x) && x[|x| - 1].load == []
    ensures var x' := x[..|x| - 1]; InOrder(x') && Covered(x', y) && Covered(y, x') && Flatten(x) == Flatten(x')
  {
    var x' := x[..|x| - 1];
    assert x == x' + [x[|x| - 1]];
  }

  /** Last steps at the same time have the same load. */
  lemma DropSame(x: seq<Tick>, y: seq<Tick>)
    requires x != [] && y != [] && InOrder(x) && InOrder(y) && Covered(x, y) && Covered(y, x)
    requires x[|x| - 1].time == y[|y| - 1].time
    ensures x[|x| - 1].load == y[|y| - 1].load
    ensures var x', y' := x[..|x| - 1], y[..|y| - 1]; InOrder(x') && InOrder(y') && Covered(x', y') && Covered(y', x')
  {
    FrontCovered(x, y);
    FrontCovered(y, x);
  }

  lemma FrontCovered(x: seq<Tick>, y: seq<Tick>)
    requires x != [] && y != [] && InOrder(x) && InOrder(y) && Covered(x, y)
    requires x[|x| - 1].time == y[|y| - 1].time
    ensures x[|x| - 1].load == [] || x[|x| - 1] == y[|y| - 1]
    ensures Covered(x[..|x| - 1], y[..|y| - 1])
  {
  }

  /** Two time lines with the same loads at the same times add up to the same traffic. */
  lemma {:induction false} SameTotal(x: seq<Tick>, y: seq<Tick>)
    requires InOrder(x) && InOrder(y) && Covered(x, y) && Covered(y, x)
    ensures Flatten(x) == Flatten(y)
    decreases |x| + |y|
  {
    if x != [] && (y == [] || y[|y| - 1].time < x[|x| - 1].time) {
      assert x[|x| - 1].load == [];
      DropEmpty(x, y);
      SameTotal(x[..|x| - 1], y);
    } else if y != [] && (x == [] || x[|x| - 1].time < y[|y| - 1].time) {
      assert y[|y| - 1].load == [];
      DropEmpty(y, x);
      SameTotal(x, y[..|y| - 1]);
    } else if x != [] {
      DropSame(x, y);
      SameTotal(x[..|x| - 1], y[..|y| - 1]);
    }
  }

  ghost function Line(prog: Program, clock: (nat, nat) -> nat, r: nat, n: nat, peer: nat, sending: bool): seq<Tick>
  {
    seq(n, (t: nat) => Tick(clock(r, t), StepTraffic(prog, t, peer, sending)))
  }

  lemma {:induction false} LineTraffic(prog: Program, clock: (nat, nat) -> nat, r: nat, n: nat, peer: nat, sending: bool)
    ensures Flatten(Line(prog, clock, r, n, peer, sending)) == Traffic(prog, n, peer, sending)
  {
    if n > 0 {
      LineTraffic(prog, clock, r, n - 1, peer, sending);
      var line := Line(prog, clock, r, n, peer, sending);
      assert line[..|line| - 1] == Line(prog, clock, r, n - 1, peer, sending);
    }
  }

  /** Up to any time the traffic is the same on both sides of an edge. */
  lemma AlignedCut(progs: seq<Program>, clock: (nat, nat) -> nat, a: nat, i: nat, b: nat, j: nat, time: nat)
    requires a < |progs| && b < |progs| && Increasing(progs, clock) && Meets(progs, clock, a, b)
    requires Cut(clock, a, |progs[a]|, i, time) && Cut(clock, b, |progs[b]|, j, time)
    ensures Traffic(progs[a], i, b, true) == Traffic(progs[b], j, a, false)
  {
    var x, y := Line(progs[a], clock, a, i, b, true), Line(progs[b], clock, b, j, a, false);
    forall t: nat | t < |x| ensures x[t].load == [] || x[t] in y {
      assert SendMeets(progs, clock, a, t, b);
      if x[t].load != [] {
        var u: nat :| Together(progs, clock, a, t, b, u);
        assert y[u] == x[t];
      }
    }
    forall u: nat | u < |y| ensures y[u].load == [] || y[u] in x {
      assert RecvMeets(progs, clock, a, b, u);
      if y[u].load != [] {
        var t: nat :| Together(progs, clock, a, t, b, u);
        assert x[t] == y[u];
      }
    }
    SameTotal(x, y);
    LineTraffic(progs[a], clock, a, i, b, true);
    LineTraffic(progs[b], clock, b, j, a, false);
  }

  /** Matched readings give matched edges. */
  lemma EdgeIsMatched(progs: seq<Program>, clock: (nat, nat) -> nat, a: nat, b: nat)
    requires a < |progs| && b < |progs| && Increasing(progs, clock) && Meets(progs, clock, a, b)
    ensures EdgeMatched(progs, a, b)
  {
    var endA := if progs[a] == [] then 0 else clock(a, |progs[a]| - 1) + 1;
    var endB := if progs[b] == [] then 0 else clock(b, |progs[b]| - 1) + 1;
    AlignedCut(progs, clock, a, |progs[a]|, b, |progs[b]|, endA + endB);
  }

  /** If program `x` has had its `t`-th step and `y` not its `u`-th when the two are aligned, a message
      cannot belong to both steps. */
  lemma StepsApart(x: Program, y: Program, i: nat, j: nat, t: nat, u: nat, b: nat, a: nat, sending: bool, k: nat)
    requires Traffic(x, i, b, sending) == Traffic(y, j, a, !sending)
    requires t < i && j <= u
    ensures !(InStep(x, t, b, sending, k) && InStep(y, u, a, !sending, k))
  {
    TrafficPrefix(x, t + 1, i, b, sending);
    TrafficPrefix(y, j, u, a, !sending);
  }

  /** The k-th send and the k-th receive on an edge have the same reading. */
  lemma SameReading(progs: seq<Program>, clock: (nat, nat) -> nat, a: nat, t: nat, b: nat, u: nat, k: nat)
    requires a < |progs| && b < |progs| && Increasing(progs, clock) && Meets(progs, clock, a, b)
    requires t < |progs[a]| && u < |progs[b]|
    requires InStep(progs[a], t, b, true, k) && InStep(progs[b], u, a, false, k)
    ensures clock(a, t) == clock(b, u)
  {
    var time := if clock(a, t) < clock(b, u) then clock(b, u) else clock(a, t);
    var i := FindCut(clock, a, |progs[a]|, |progs[a]|, time);
    var j := FindCut(clock, b, |progs[b]|, |progs[b]|, time);
    AlignedCut(progs, clock, a, i, b, j, time);
    if clock(a, t) < clock(b, u) {
      StepsApart(progs[a], progs[b], i, j, t, u, b, a, true, k);
    } else if clock(b, u) < clock(a, t) {
      StepsApart(progs[b], progs[a], j, i, u, t, a, b, false, k);
    }
  }

  lemma EdgeIsLive(progs: seq<Program>, clock: (nat, nat) -> nat, a: nat, b: nat)
    requires a < |progs| && b < |progs| && Increasing(progs, clock) && Meets(progs, clock, a, b)
    ensures EdgeLive(progs, clock, a, b)
  {
    forall t: nat, u: nat, k: nat |
      t < |progs[a]| && u < |progs[b]| && InStep(progs[a], t, b, true, k) && InStep(progs[b], u, a, false, k)
      ensures (u > 0 ==> clock(b, u - 1) < clock(a, t)) && (t > 0 ==> clock(a, t - 1) < clock(b, u))
    {
      SameReading(progs, clock, a, t, b, u, k);
    }
  }

  /** If the steps meet on every edge the schedule is matched, and it is live by the same clock. */
  lemma MatchedAndLive(progs: seq<Program>, clock: (nat, nat) -> nat)
    requires Increasing(progs, clock)
    requires forall a: nat, b: nat :: a < |progs| && b < |progs| ==> Meets(progs, clock, a, b)
    ensures forall a: nat, b: nat :: a < |progs| && b < |progs| ==> EdgeMatched(progs, a, b)
    ensures Live(progs, clock)
  {
    forall a: nat, b: nat | a < |progs| && b < |progs|
      ensures EdgeMatched(progs, a, b) && EdgeLive(progs, clock, a, b)
    {
      assert Meets(progs, clock, a, b);
      EdgeIsMatched(progs, clock, a, b);
      EdgeIsLive(progs, clock, a, b);
    }
  }

  lemma LiveBy(progs: seq<Program>, clock: (nat, nat) -> nat)
    requires Increasing(progs, clock)
    requires forall a: nat, b: nat :: a < |progs| && b < |progs| ==> EdgeLive(progs, clock, a, b)
    ensures Live(progs, clock)
  {
  }

  ghost function StepNumber(): (nat, nat) -> nat
  {
    (_: nat, t: nat) => t
  }

  /** Steps that meet at the same index on both sides. */
  lemma SameStepMeets(progs: seq<Program>, a: nat, b: nat)
    requires a < |progs| && b < |progs|
    requires forall t: nat :: StepTraffic(progs[a], t, b, true) == StepTraffic(progs[b], t, a, false)
    ensures Meets(progs, StepNumber(), a, b)
  {
    forall t: nat | t < |progs[a]|
      ensures SendMeets(progs, StepNumber(), a, t, b)
    {
      if StepTraffic(progs[a], t, b, true) != [] {
        assert Together(progs, StepNumber(), a, t, b, t);
      }
    }
    forall u: nat | u < |progs[b]|
      ensures RecvMeets(progs, StepNumber(), a, b, u)
    {
      assert StepTraffic(progs[a], u, b, true) == StepTraffic(progs[b], u, a, false);
      if StepTraffic(progs[b], u, a, false) != [] {
        assert Together(progs, StepNumber(), a, u, b, u);
      }
    }
  }

  /** One payload per slot. */
  function Singletons(blocks: seq<nat>): seq<seq<nat>>
  {
    seq(|blocks|, i requires 0 <= i < |blocks| => [blocks[i]])
  }

  // ----- holding what a step sends -----

  lemma HeldNext(own: set<nat>, prog: Program, t: nat)
    requires t < |prog| && prog[t].fold == None
    ensures Held(own, prog, t + 1) == Held(own, prog, t) + SlotsOf(prog[t].recvs)
  {
  }

  /** `h` follows a program from step `from` on: it grows by what the steps receive. */
  ghost predicate Follows(prog: Program, from: nat, steps: nat, h: nat -> set<nat>)
  {
    && from + steps <= |prog|
    && forall u: nat :: from <= u < from + steps ==>
         prog[u].fold == None && h(u - from + 1) == h(u - from) + SlotsOf(prog[u].recvs)
  }

  lemma {:induction false} HeldFollows(own: set<nat>, prog: Program, from: nat, steps: nat, h: nat -> set<nat>,
                                        t: nat, at: nat, held: set<nat>)
    requires Follows(prog, from, steps, h) && Held(own, prog, from) == h(0)
    requires t <= steps && at == from + t && held == h(t)
    ensures Held(own, prog, at) == held
    decreases t
  {
    if t > 0 {
      HeldFollows(own, prog, from, steps, h, t - 1, at - 1, h(t - 1));
      HeldNext(own, prog, at - 1);
      assert at - 1 - from + 1 == t;
    }
  }

  /** A step without reduction is sound if it sends what is held, and within the group. */
  lemma SoundStep<V(!new)>(net: Net<V>, val: nat -> V, r: nat, t: nat, own: set<nat>, prog: Program, step: Step,
                           held: set<nat>)
    requires r < |net.progs| == |net.init| && net.progs[r] == prog && net.init[r].Keys == own
    requires t < |prog| && prog[t] == step && step.fold == None && Held(own, prog, t) == held
    requires forall m :: m in step.sends ==> m.peer < |net.progs| && forall x :: x in m.slots ==> x in held
    requires forall m :: m in step.recvs ==> m.peer < |net.progs|
    ensures StepSound(net, val, r, t)
  {
  }
}
