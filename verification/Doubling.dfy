/** Allreduce by recursive doubling, for any group size.  The ranks beyond a power of two first give their value to
    a proxy and get the result back from it at the end; the others double the interval of ranks that they have
    combined in every step.

    A slot stands for an interval of ranks; its right content is the values of these ranks combined in rank order.
    A rank's buffer is the slot of the interval that it has combined. */
module Doubling {
  import opened Network
  import opened LockStep
  import opened Bits
  import opened Kntree

  // ----- who is who -----

  function BaseCount(n: nat): nat
    requires n >= 1
  {
    Pow2(Log2(n))
  }

  function ProxyCount(n: nat): nat
    requires n >= 1
  {
    Log2Is(n);
    n - BaseCount(n)
  }

  predicate IsExtra(n: nat, r: nat)
    requires n >= 1
  {
    r < 2 * ProxyCount(n) && r % 2 == 0
  }

  predicate IsProxy(n: nat, r: nat)
    requires n >= 1
  {
    r < 2 * ProxyCount(n) && r % 2 == 1
  }

  /** The rank of a base rank among the base ranks, and the other way round. */
  function NewRank(n: nat, r: nat): (j: nat)
    requires n >= 1 && r < n && !IsExtra(n, r)
    ensures j < BaseCount(n) && OldRank(n, j) == r
  {
    Log2Is(n);
    if r < 2 * ProxyCount(n) then r / 2 else r - ProxyCount(n)
  }

  function OldRank(n: nat, j: nat): (r: nat)
    requires n >= 1 && j < BaseCount(n)
    ensures r < n && !IsExtra(n, r)
  {
    Log2Is(n);
    if j < ProxyCount(n) then 2 * j + 1 else j + ProxyCount(n)
  }

  lemma NewOld(n: nat, j: nat)
    requires n >= 1 && j < BaseCount(n)
    ensures NewRank(n, OldRank(n, j)) == j
  {
  }

  /** The first rank whose value base rank `j` stands for: itself, or its extra rank. */
  function Start(n: nat, j: nat): nat
    requires n >= 1
  {
    if j < ProxyCount(n) then 2 * j else j + ProxyCount(n)
  }

  lemma StartsGrow(n: nat, i: nat, j: nat)
    requires n >= 1 && i < j <= BaseCount(n)
    ensures Start(n, i) < Start(n, j) <= n
    ensures Start(n, 0) == 0 && Start(n, BaseCount(n)) == n
  {
    Log2Is(n);
  }

  // ----- intervals of ranks as slots -----

  function Code(n: nat, lo: nat, hi: nat): nat
  {
    Times(lo, n + 1) + hi
  }

  function Quot(x: nat, d: nat): nat
    requires d > 0
  {
    if x < d then 0 else 1 + Quot(x - d, d)
  }

  lemma {:induction false} Decode(n: nat, lo: nat, hi: nat)
    requires hi <= n
    ensures Quot(Code(n, lo, hi), n + 1) == lo && Rest(Code(n, lo, hi), n + 1) == hi
  {
    if lo > 0 {
      Decode(n, lo - 1, hi);
    }
  }

  ghost predicate Associative<V(!new)>(op: (V, V) -> V)
  {
    forall x, y, z :: op(op(x, y), z) == op(x, op(y, z))
  }

  /** The values of the ranks from `lo` up to `hi`, combined in rank order. */
  ghost function Combined<V>(op: (V, V) -> V, data: nat -> V, lo: nat, hi: nat): V
    decreases hi
  {
    if hi <= lo + 1 then data(lo) else op(Combined(op, data, lo, hi - 1), data(hi - 1))
  }

  lemma {:induction false} CombinedJoin<V(!new)>(op: (V, V) -> V, data: nat -> V, lo: nat, mid: nat, hi: nat)
    requires Associative(op) && lo < mid < hi
    ensures op(Combined(op, data, lo, mid), Combined(op, data, mid, hi)) == Combined(op, data, lo, hi)
    decreases hi
  {
    if mid + 1 < hi {
      CombinedJoin(op, data, lo, mid, hi - 1);
    }
  }

  /** The right content of a slot. */
  ghost function Value<V>(n: nat, op: (V, V) -> V, data: nat -> V): nat -> V
  {
    (x: nat) => Combined(op, data, Quot(x, n + 1), Rest(x, n + 1))
  }

  lemma ValueIs<V>(n: nat, op: (V, V) -> V, data: nat -> V, lo: nat, hi: nat)
    requires hi <= n
    ensures Value(n, op, data)(Code(n, lo, hi)) == Combined(op, data, lo, hi)
  {
    Decode(n, lo, hi);
  }

  // ----- the steps -----

  /** The slot of the group of `Pow2(i)` base ranks that `j` is in. */
  function GroupSlot(n: nat, j: nat, i: nat): nat
    requires n >= 1
  {
    var g := Shift(j, i);
    Code(n, Start(n, GroupStart(g, i)), Start(n, GroupStart(g + 1, i)))
  }

  /** Step `i` of base rank `j`: exchange with the partner and combine, the lower interval on the left. */
  function BaseStep(n: nat, j: nat, i: nat): Step
    requires n >= 1 && j < BaseCount(n) && i < Log2(n)
  {
    ToggleBelow(j, i, Log2(n));
    var k := Toggle(j, i);
    var peer := OldRank(n, k);
    var mine, other := GroupSlot(n, j, i), GroupSlot(n, k, i);
    Step([Msg(peer, [mine])], [Msg(peer, [other])],
         Some(if OldRank(n, j) < peer then Fold(GroupSlot(n, j, i + 1), mine, other)
              else Fold(GroupSlot(n, j, i + 1), other, mine)))
  }

  function ExtraStep(n: nat, r: nat): Step
  {
    Step([Msg(r + 1, [Code(n, r, r + 1)])], [Msg(r + 1, [Code(n, 0, n)])], None)
  }

  function ProxyFirst(n: nat, r: nat): Step
    requires r > 0
  {
    Step([], [Msg(r - 1, [Code(n, r - 1, r)])],
         Some(Fold(Code(n, r - 1, r + 1), Code(n, r - 1, r), Code(n, r, r + 1))))
  }

  function ProxyLast(n: nat, r: nat): Step
    requires r > 0
  {
    Step([Msg(r - 1, [Code(n, 0, n)])], [], None)
  }

  function BaseProg(n: nat, j: nat): Program
    requires n >= 1 && j < BaseCount(n)
  {
    seq(Log2(n), (i: nat) requires i < Log2(n) => BaseStep(n, j, i))
  }

  function RdProg(n: nat, r: nat): Program
    requires n >= 1 && r < n
  {
    if IsExtra(n, r) then [ExtraStep(n, r)]
    else if IsProxy(n, r) then [ProxyFirst(n, r)] + BaseProg(n, NewRank(n, r)) + [ProxyLast(n, r)]
    else BaseProg(n, NewRank(n, r))
  }

  ghost function OwnValue<V>(n: nat, data: nat -> V, r: nat): map<nat, V>
  {
    var own: nat := Code(n, r, r + 1);
    map[own := data(r)]
  }

  ghost function RdNet<V>(n: nat, op: (V, V) -> V, data: nat -> V): Net<V>
    requires n >= 1
  {
    Net(seq(n, (r: nat) requires r < n => RdProg(n, r)),
        seq(n, (r: nat) => OwnValue(n, data, r)), op)
  }

  // ----- partners -----

  /** Partners see each other, their intervals are next to each other, and the lower rank has the lower one. */
  lemma Partners(n: nat, j: nat, i: nat)
    requires n >= 1 && j < BaseCount(n) && i < Log2(n)
    ensures var k := Toggle(j, i);
      && k < BaseCount(n) && k != j && Toggle(k, i) == j
      && GroupSlot(n, k, i + 1) == GroupSlot(n, j, i + 1)
      && (OldRank(n, j) < OldRank(n, k) <==> j < k)
  {
    ToggleBelow(j, i, Log2(n));
    ToggleTwice(j, i);
    ToggleShift(j, i);
    Log2Is(n);
  }

  /** The two groups that meet are the halves of the larger group. */
  lemma Halves(n: nat, j: nat, i: nat, lo: nat, mid: nat, hi: nat)
    requires n >= 1 && j < BaseCount(n) && i < Log2(n) && j < Toggle(j, i)
    requires var g := Shift(j, i + 1);
      lo == GroupStart(g, i + 1) && mid == GroupStart(2 * g + 1, i) && hi == GroupStart(g + 1, i + 1)
    ensures GroupSlot(n, j, i) == Code(n, Start(n, lo), Start(n, mid))
    ensures GroupSlot(n, Toggle(j, i), i) == Code(n, Start(n, mid), Start(n, hi))
    ensures GroupSlot(n, j, i + 1) == Code(n, Start(n, lo), Start(n, hi))
    ensures lo < mid < hi <= BaseCount(n)
  {
    var g := Shift(j, i + 1);
    GroupHalves(j, i, Log2(n));
    SlotIs(n, j, i, 2 * g, 2 * g + 1, lo, mid);
    SlotIs(n, Toggle(j, i), i, 2 * g + 1, 2 * g + 2, mid, hi);
    SlotIs(n, j, i + 1, g, g + 1, lo, hi);
  }

  lemma SlotIs(n: nat, j: nat, i: nat, g: nat, g': nat, lo: nat, hi: nat)
    requires n >= 1 && Shift(j, i) == g && g' == g + 1 && GroupStart(g, i) == lo && GroupStart(g', i) == hi
    ensures GroupSlot(n, j, i) == Code(n, Start(n, lo), Start(n, hi))
  {
  }

  // ----- both sides agree -----

  /** The step index of base step `i` in the program of rank `r`. */
  function BaseIndex(n: nat, r: nat, i: nat): nat
    requires n >= 1
  {
    if IsProxy(n, r) then i + 1 else i
  }

  /** The base steps have the same time everywhere; `x` is the time of the extra ranks' only step. */
  ghost function RdClock(n: nat, x: nat): (nat, nat) -> nat
    requires n >= 1
  {
    (r: nat, t: nat) => (if IsExtra(n, r) then x + t else if IsProxy(n, r) then t + 1 else t + 2) as nat
  }

  ghost function RdProgs(n: nat): seq<Program>
    requires n >= 1
  {
    seq(n, (r: nat) requires r < n => RdProg(n, r))
  }

  lemma RdIncreasing(n: nat, x: nat)
    requires n >= 1
    ensures Increasing(RdProgs(n), RdClock(n, x))
  {
  }

  function SlotsTo(m: Msg, peer: nat): seq<seq<nat>>
  {
    if m.peer == peer then [m.slots] else []
  }

  lemma OneMsg(m: Msg, peer: nat)
    ensures To([m], peer) == SlotsTo(m, peer) && To([], peer) == []
  {
    assert [m][1..] == [];
  }

  lemma BaseStepAt(n: nat, r: nat, i: nat)
    requires n >= 1 && r < n && !IsExtra(n, r) && i < Log2(n)
    ensures BaseIndex(n, r, i) < |RdProg(n, r)|
    ensures RdProg(n, r)[BaseIndex(n, r, i)] == BaseStep(n, NewRank(n, r), i)
  {
    if IsProxy(n, r) {
      MiddleAt(ProxyFirst(n, r), BaseProg(n, NewRank(n, r)), ProxyLast(n, r), i);
    }
  }

  lemma MiddleAt(first: Step, base: Program, last: Step, i: nat)
    requires i < |base|
    ensures ([first] + base + [last])[i + 1] == base[i]
  {
  }

  /** The traffic of a base step. */
  lemma BaseTraffic(n: nat, r: nat, i: nat, peer: nat, sending: bool)
    requires n >= 1 && r < n && !IsExtra(n, r) && i < Log2(n)
    ensures var j := NewRank(n, r);
      && BaseIndex(n, r, i) < |RdProg(n, r)| && RdProg(n, r)[BaseIndex(n, r, i)] == BaseStep(n, j, i)
      && Toggle(j, i) < BaseCount(n)
      && StepTraffic(RdProg(n, r), BaseIndex(n, r, i), peer, sending)
         == SlotsTo(Msg(OldRank(n, Toggle(j, i)), [GroupSlot(n, if sending then j else Toggle(j, i), i)]), peer)
  {
    var j := NewRank(n, r);
    ToggleBelow(j, i, Log2(n));
    BaseStepAt(n, r, i);
    var step := BaseStep(n, j, i);
    OneMsg(step.sends[0], peer);
    OneMsg(step.recvs[0], peer);
  }

  /** Which step a step of a program is. */
  datatype Kind = Extra | First | Base(i: nat) | Final

  function KindOf(n: nat, r: nat, t: nat): Kind
    requires n >= 1 && r < n && t < |RdProg(n, r)|
  {
    if IsExtra(n, r) then Extra
    else if IsProxy(n, r) then (if t == 0 then First else if t <= Log2(n) then Base(t - 1) else Final)
    else Base(t)
  }

  lemma ExtraHasProxy(n: nat, r: nat)
    requires n >= 1 && r < n
    ensures IsExtra(n, r) ==> r + 1 < n && IsProxy(n, r + 1)
    ensures IsProxy(n, r) ==> r > 0 && IsExtra(n, r - 1)
  {
    Log2Is(n);
  }

  lemma KindIs(n: nat, r: nat, t: nat)
    requires n >= 1 && r < n && t < |RdProg(n, r)|
    ensures match KindOf(n, r, t)
      case Extra => t == 0 && IsExtra(n, r) && RdProg(n, r)[t] == ExtraStep(n, r) && r + 1 < n && IsProxy(n, r + 1)
      case First => t == 0 && IsProxy(n, r) && r > 0 && RdProg(n, r)[t] == ProxyFirst(n, r) && IsExtra(n, r - 1)
      case Base(i) => i < Log2(n) && t == BaseIndex(n, r, i) && !IsExtra(n, r)
      case Final => t == Log2(n) + 1 && IsProxy(n, r) && r > 0 && RdProg(n, r)[t] == ProxyLast(n, r) && IsExtra(n, r - 1)
  {
    ExtraHasProxy(n, r);
    if IsProxy(n, r) {
      var base := BaseProg(n, NewRank(n, r));
      assert RdProg(n, r) == ([ProxyFirst(n, r)] + base) + [ProxyLast(n, r)];
    }
  }

  // ----- the edges -----

  /** Base steps of two ranks meet at the same base step. */
  lemma BaseAgrees(n: nat, a: nat, b: nat, i: nat)
    requires n >= 1 && a < n && b < n && !IsExtra(n, a) && !IsExtra(n, b) && i < Log2(n)
    ensures BaseIndex(n, a, i) < |RdProg(n, a)| && BaseIndex(n, b, i) < |RdProg(n, b)|
    ensures StepTraffic(RdProg(n, a), BaseIndex(n, a, i), b, true) == StepTraffic(RdProg(n, b), BaseIndex(n, b, i), a, false)
  {
    var j, k := NewRank(n, a), NewRank(n, b);
    BaseTraffic(n, a, i, b, true);
    BaseTraffic(n, b, i, a, false);
    ToggleTwice(j, i);
    ToggleTwice(k, i);
    NewOld(n, Toggle(j, i));
    NewOld(n, Toggle(k, i));
  }

  /** The traffic of the other kinds of steps. */
  lemma OtherTraffic(n: nat, r: nat, t: nat, peer: nat, sending: bool)
    requires n >= 1 && r < n && t < |RdProg(n, r)| && !KindOf(n, r, t).Base?
    ensures var x := StepTraffic(RdProg(n, r), t, peer, sending);
      match KindOf(n, r, t)
      case Extra => x == SlotsTo(Msg(r + 1, [if sending then Code(n, r, r + 1) else Code(n, 0, n)]), peer)
      case First => r > 0 && x == if sending then [] else SlotsTo(Msg(r - 1, [Code(n, r - 1, r)]), peer)
      case Final => r > 0 && x == if sending then SlotsTo(Msg(r - 1, [Code(n, 0, n)]), peer) else []
  {
    KindIs(n, r, t);
    var step := RdProg(n, r)[t];
    if step.sends != [] {
      assert step.sends == [step.sends[0]];
      OneMsg(step.sends[0], peer);
    }
    if step.recvs != [] {
      assert step.recvs == [step.recvs[0]];
      OneMsg(step.recvs[0], peer);
    }
  }

  /** Time 1 for the extra ranks fits the first exchange with the proxies, the other time the last one. */
  predicate Fitting(n: nat, x: nat, b: nat)
    requires n >= 1
  {
    x == if IsExtra(n, b) then Log2(n) + 2 else 1
  }

  ghost predicate SendTogether(n: nat, x: nat, a: nat, t: nat, b: nat)
    requires n >= 1 && a < n && b < n
  {
    exists u: nat :: Together(RdProgs(n), RdClock(n, x), a, t, b, u)
  }

  ghost predicate RecvTogether(n: nat, x: nat, a: nat, b: nat, u: nat)
    requires n >= 1 && a < n && b < n
  {
    exists t: nat :: Together(RdProgs(n), RdClock(n, x), a, t, b, u)
  }

  /** A base step with traffic between two base ranks meets the base step of the other. */
  lemma BaseTogether(n: nat, x: nat, a: nat, b: nat, i: nat)
    requires n >= 1 && a < n && b < n && !IsExtra(n, a) && !IsExtra(n, b) && i < Log2(n)
    ensures Together(RdProgs(n), RdClock(n, x), a, BaseIndex(n, a, i), b, BaseIndex(n, b, i))
  {
    BaseAgrees(n, a, b, i);
  }

  /** The first exchange: the extra rank's send and the proxy's first step. */
  lemma FirstTogether(n: nat, a: nat)
    requires n >= 1 && a + 1 < n && IsExtra(n, a) && IsProxy(n, a + 1)
    ensures Together(RdProgs(n), RdClock(n, 1), a, 0, a + 1, 0)
  {
    OtherTraffic(n, a, 0, a + 1, true);
    OtherTraffic(n, a + 1, 0, a, false);
  }

  /** The last exchange: the proxy's last step and the extra rank's receive. */
  lemma FinalTogether(n: nat, a: nat)
    requires n >= 1 && a + 1 < n && IsExtra(n, a) && IsProxy(n, a + 1)
    ensures Together(RdProgs(n), RdClock(n, Log2(n) + 2), a + 1, Log2(n) + 1, a, 0)
  {
    OtherTraffic(n, a + 1, Log2(n) + 1, a, true);
    OtherTraffic(n, a, 0, a + 1, false);
  }

  /** Base steps have base ranks as partners. */
  lemma BasePeers(n: nat, r: nat, i: nat, peer: nat, sending: bool)
    requires n >= 1 && r < n && !IsExtra(n, r) && i < Log2(n) && BaseIndex(n, r, i) < |RdProg(n, r)|
    requires StepTraffic(RdProg(n, r), BaseIndex(n, r, i), peer, sending) != []
    ensures !IsExtra(n, peer)
  {
    BaseTraffic(n, r, i, peer, sending);
  }

  /** What a step that sends to `b` is. */
  lemma SendKind(n: nat, a: nat, t: nat, b: nat)
    requires n >= 1 && a < n && b < n && t < |RdProg(n, a)| && StepTraffic(RdProg(n, a), t, b, true) != []
    ensures match KindOf(n, a, t)
      case Base(i) => i < Log2(n) && t == BaseIndex(n, a, i) && !IsExtra(n, a) && !IsExtra(n, b)
      case Extra => t == 0 && b == a + 1 && IsExtra(n, a) && IsProxy(n, b)
      case First => false
      case Final => t == Log2(n) + 1 && a == b + 1 && IsExtra(n, b) && IsProxy(n, a)
  {
    KindIs(n, a, t);
    match KindOf(n, a, t)
    case Base(i) => BasePeers(n, a, i, b, true);
    case Extra => OtherTraffic(n, a, t, b, true); SlotsToPeer(Msg(a + 1, [Code(n, a, a + 1)]), b);
    case First => OtherTraffic(n, a, t, b, true);
    case Final => OtherTraffic(n, a, t, b, true); SlotsToPeer(Msg(a - 1, [Code(n, 0, n)]), b);
  }

  lemma SlotsToPeer(m: Msg, peer: nat)
    ensures SlotsTo(m, peer) != [] ==> m.peer == peer
  {
  }

  lemma RecvKind(n: nat, a: nat, b: nat, u: nat)
    requires n >= 1 && a < n && b < n && u < |RdProg(n, b)| && StepTraffic(RdProg(n, b), u, a, false) != []
    ensures match KindOf(n, b, u)
      case Base(i) => i < Log2(n) && u == BaseIndex(n, b, i) && !IsExtra(n, a) && !IsExtra(n, b)
      case Extra => u == 0 && a == b + 1 && IsExtra(n, b) && IsProxy(n, a)
      case First => u == 0 && b == a + 1 && IsExtra(n, a) && IsProxy(n, b)
      case Final => false
  {
    KindIs(n, b, u);
    if KindOf(n, b, u).Base? {
      BasePeers(n, b, KindOf(n, b, u).i, a, false);
    } else {
      OtherTraffic(n, b, u, a, false);
    }
  }

  lemma RdSendMeets(n: nat, x: nat, a: nat, t: nat, b: nat)
    requires n >= 1 && a < n && b < n && t < |RdProg(n, a)| && Fitting(n, x, b)
    ensures SendMeets(RdProgs(n), RdClock(n, x), a, t, b)
  {
    if StepTraffic(RdProg(n, a), t, b, true) != [] {
      SendKind(n, a, t, b);
      match KindOf(n, a, t)
      case Base(i) =>
        BaseTogether(n, x, a, b, i);
        assert SendTogether(n, x, a, t, b);
      case Extra =>
        FirstTogether(n, a);
        assert SendTogether(n, x, a, t, b);
      case First =>
      case Final =>
        FinalTogether(n, b);
        assert SendTogether(n, x, a, t, b);
    }
  }

  lemma RdRecvMeets(n: nat, x: nat, a: nat, b: nat, u: nat)
    requires n >= 1 && a < n && b < n && u < |RdProg(n, b)| && Fitting(n, x, b)
    ensures RecvMeets(RdProgs(n), RdClock(n, x), a, b, u)
  {
    if StepTraffic(RdProg(n, b), u, a, false) != [] {
      RecvKind(n, a, b, u);
      match KindOf(n, b, u)
      case Base(i) =>
        BaseTogether(n, x, a, b, i);
        assert RecvTogether(n, x, a, b, u);
      case Extra =>
        FinalTogether(n, b);
        assert RecvTogether(n, x, a, b, u);
      case First =>
        FirstTogether(n, a);
        assert RecvTogether(n, x, a, b, u);
      case Final =>
    }
  }

  lemma RdMeets(n: nat, x: nat, a: nat, b: nat)
    requires n >= 1 && a < n && b < n && Fitting(n, x, b)
    ensures Meets(RdProgs(n), RdClock(n, x), a, b)
  {
    var progs := RdProgs(n);
    forall t: nat | t < |progs[a]| ensures SendMeets(progs, RdClock(n, x), a, t, b) {
      RdSendMeets(n, x, a, t, b);
    }
    forall u: nat | u < |progs[b]| ensures RecvMeets(progs, RdClock(n, x), a, b, u) {
      RdRecvMeets(n, x, a, b, u);
    }
  }

  lemma EdgesMatch(n: nat, a: nat, b: nat)
    requires n >= 1 && a < n && b < n
    ensures EdgeMatched(RdProgs(n), a, b)
  {
    var x := if IsExtra(n, b) then Log2(n) + 2 else 1;
    RdIncreasing(n, x);
    RdMeets(n, x, a, b);
    EdgeIsMatched(RdProgs(n), RdClock(n, x), a, b);
  }

  /** Waiting is not circular when the extra ranks' step counts as the last of all: they wait for both exchanges in
      one step. */
  lemma EdgesLive(n: nat, a: nat, b: nat)
    requires n >= 1 && a < n && b < n
    ensures EdgeLive(RdProgs(n), RdClock(n, Log2(n) + 3), a, b)
  {
    var progs := RdProgs(n);
    if !IsExtra(n, a) && !IsExtra(n, b) {
      RdIncreasing(n, 1);
      RdMeets(n, 1, a, b);
      EdgeIsLive(progs, RdClock(n, 1), a, b);
      SameClock(n, a, b);
    }
  }

  /** The extra ranks' time does not matter for the edges between other ranks. */
  lemma SameClock(n: nat, a: nat, b: nat)
    requires n >= 1 && a < n && b < n && !IsExtra(n, a) && !IsExtra(n, b)
    requires EdgeLive(RdProgs(n), RdClock(n, 1), a, b)
    ensures EdgeLive(RdProgs(n), RdClock(n, Log2(n) + 3), a, b)
  {
    var progs, clock, late := RdProgs(n), RdClock(n, 1), RdClock(n, Log2(n) + 3);
    assert forall t: nat :: late(a, t) == clock(a, t) && late(b, t) == clock(b, t);
    forall t: nat, u: nat, k: nat |
      t < |progs[a]| && u < |progs[b]| && InStep(progs[a], t, b, true, k) && InStep(progs[b], u, a, false, k)
      ensures (u > 0 ==> late(b, u - 1) < late(a, t)) && (t > 0 ==> late(a, t - 1) < late(b, u))
    {
      assert (u > 0 ==> clock(b, u - 1) < clock(a, t)) && (t > 0 ==> clock(a, t - 1) < clock(b, u));
    }
  }

  // ----- what the ranks hold -----

  lemma FoldIsHeld(own: set<nat>, prog: Program, t: nat, u: nat, x: nat)
    requires 0 <= t < |prog| && u == t + 1 && prog[t].fold.Some? && prog[t].fold.value.dst == x
    ensures x in Held(own, prog, u)
  {
  }

  lemma HeldStart(n: nat, r: nat)
    requires n >= 1 && r < n && !IsExtra(n, r)
    ensures BaseIndex(n, r, 0) <= |RdProg(n, r)|
    ensures GroupSlot(n, NewRank(n, r), 0) in Held({Code(n, r, r + 1)}, RdProg(n, r), BaseIndex(n, r, 0))
  {
    if IsProxy(n, r) {
      ProxyStart(n, r);
    } else {
      PlainStart(n, r);
    }
  }

  lemma HeldNext(n: nat, r: nat, i: nat, k: nat)
    requires n >= 1 && r < n && !IsExtra(n, r) && i < Log2(n) && k == i + 1
    ensures BaseIndex(n, r, k) <= |RdProg(n, r)|
    ensures GroupSlot(n, NewRank(n, r), k) in Held({Code(n, r, r + 1)}, RdProg(n, r), BaseIndex(n, r, k))
  {
    BaseStepAt(n, r, i);
    BaseFoldSlot(n, NewRank(n, r), i, k);
    FoldIsHeld({Code(n, r, r + 1)}, RdProg(n, r), BaseIndex(n, r, i), BaseIndex(n, r, k), GroupSlot(n, NewRank(n, r), k));
  }

  /** The interval that base rank `j` has before base step `i`. */
  lemma HeldBase(n: nat, r: nat, i: nat)
    requires n >= 1 && r < n && !IsExtra(n, r) && i <= Log2(n)
    ensures BaseIndex(n, r, i) <= |RdProg(n, r)|
    ensures GroupSlot(n, NewRank(n, r), i) in Held({Code(n, r, r + 1)}, RdProg(n, r), BaseIndex(n, r, i))
  {
    if i > 0 {
      HeldNext(n, r, i - 1, i);
    } else {
      HeldStart(n, r);
    }
  }

  lemma BaseFoldSlot(n: nat, j: nat, i: nat, k: nat)
    requires n >= 1 && j < BaseCount(n) && i < Log2(n) && k == i + 1
    ensures BaseStep(n, j, i).fold.Some? && BaseStep(n, j, i).fold.value.dst == GroupSlot(n, j, k)
  {
  }

  lemma PlainStart(n: nat, r: nat)
    requires n >= 1 && r < n && !IsExtra(n, r) && !IsProxy(n, r)
    ensures GroupSlot(n, NewRank(n, r), 0) == Code(n, r, r + 1)
  {
    Log2Is(n);
  }

  /** A proxy starts the base steps with its own and its extra rank's value. */
  lemma ProxyStart(n: nat, r: nat)
    requires n >= 1 && r < n && IsProxy(n, r)
    ensures r > 0 && |RdProg(n, r)| > 0
    ensures GroupSlot(n, NewRank(n, r), 0) == Code(n, r - 1, r + 1)
    ensures Code(n, r - 1, r + 1) in Held({Code(n, r, r + 1)}, RdProg(n, r), 1)
  {
    Log2Is(n);
    assert RdProg(n, r)[0] == ProxyFirst(n, r);
    assert ProxyFirst(n, r).fold.value.dst == Code(n, r - 1, r + 1);
  }

  /** After all base steps the interval is the whole group. */
  lemma AllCombined(n: nat, j: nat)
    requires n >= 1 && j < BaseCount(n)
    ensures GroupSlot(n, j, Log2(n)) == Code(n, 0, n)
  {
    var l := Log2(n);
    InGroup(j, l);
    InGroup(0, l);
    GroupWidth(0, l);
    Log2Is(n);
    ZeroGroup(l);
  }

  lemma {:induction false} ZeroGroup(i: nat)
    ensures GroupStart(0, i) == 0
  {
    if i > 0 {
      ZeroGroup(i - 1);
    }
  }

  /** The two intervals of a base step combine to the next one. */
  lemma BaseFold<V(!new)>(n: nat, op: (V, V) -> V, data: nat -> V, j: nat, i: nat)
    requires n >= 1 && Associative(op) && j < BaseCount(n) && i < Log2(n) && j < Toggle(j, i)
    ensures var k := Toggle(j, i);
      Value(n, op, data)(GroupSlot(n, j, i + 1))
        == op(Value(n, op, data)(GroupSlot(n, j, i)), Value(n, op, data)(GroupSlot(n, k, i)))
  {
    var g := Shift(j, i + 1);
    var lo, mid, hi := GroupStart(g, i + 1), GroupStart(2 * g + 1, i), GroupStart(g + 1, i + 1);
    Halves(n, j, i, lo, mid, hi);
    StartsGrow(n, lo, mid);
    StartsGrow(n, mid, hi);
    JoinSlots(n, op, data, Start(n, lo), Start(n, mid), Start(n, hi));
  }

  lemma JoinSlots<V(!new)>(n: nat, op: (V, V) -> V, data: nat -> V, lo: nat, mid: nat, hi: nat)
    requires Associative(op) && lo < mid < hi <= n
    ensures Value(n, op, data)(Code(n, lo, hi)) == op(Value(n, op, data)(Code(n, lo, mid)), Value(n, op, data)(Code(n, mid, hi)))
  {
    ValueIs(n, op, data, lo, mid);
    ValueIs(n, op, data, mid, hi);
    ValueIs(n, op, data, lo, hi);
    CombinedJoin(op, data, lo, mid, hi);
  }

  lemma BaseStepSound<V(!new)>(n: nat, op: (V, V) -> V, data: nat -> V, r: nat, i: nat, t: nat)
    requires n >= 1 && Associative(op) && r < n && !IsExtra(n, r) && i < Log2(n) && t == BaseIndex(n, r, i)
    requires t < |RdProg(n, r)|
    ensures StepSound(RdNet(n, op, data), Value(n, op, data), r, t)
  {
    var net, j := RdNet(n, op, data), NewRank(n, r);
    var k := Toggle(j, i);
    BaseStepAt(n, r, i);
    HeldBase(n, r, i);
    Partners(n, j, i);
    FoldRight(n, op, data, j, i);
    assert net.progs[r][t] == BaseStep(n, j, i) && net.init[r].Keys == {Code(n, r, r + 1)};
    var step := BaseStep(n, j, i);
    RecvSlot(step.recvs[0]);
    assert step.recvs == [step.recvs[0]];
  }

  lemma RecvSlot(m: Msg)
    ensures forall x :: x in m.slots ==> x in SlotsOf([m])
  {
    assert [m][0] == m;
  }

  /** Both partners compute the content of the larger interval. */
  lemma FoldRight<V(!new)>(n: nat, op: (V, V) -> V, data: nat -> V, j: nat, i: nat)
    requires n >= 1 && Associative(op) && j < BaseCount(n) && i < Log2(n)
    ensures var f := BaseStep(n, j, i).fold.value;
      Value(n, op, data)(f.dst) == op(Value(n, op, data)(f.lo), Value(n, op, data)(f.hi))
  {
    Partners(n, j, i);
    var k := Toggle(j, i);
    if j < k {
      BaseFold(n, op, data, j, i);
    } else {
      BaseFold(n, op, data, k, i);
    }
  }

  lemma ExtraSound<V(!new)>(n: nat, op: (V, V) -> V, data: nat -> V, r: nat)
    requires n >= 1 && r < n && IsExtra(n, r) && 0 < |RdProg(n, r)|
    ensures StepSound(RdNet(n, op, data), Value(n, op, data), r, 0)
  {
    KindIs(n, r, 0);
    assert RdNet(n, op, data).progs[r] == RdProg(n, r) == [ExtraStep(n, r)];
    RdOwn(n, op, data, r);
  }

  lemma OtherStepSound<V(!new)>(n: nat, op: (V, V) -> V, data: nat -> V, r: nat, t: nat)
    requires n >= 1 && Associative(op) && r < n && t < |RdProg(n, r)| && !KindOf(n, r, t).Base?
    ensures StepSound(RdNet(n, op, data), Value(n, op, data), r, t)
  {
    KindIs(n, r, t);
    match KindOf(n, r, t)
    case Extra => ExtraSound(n, op, data, r);
    case First => FirstSound(n, op, data, r);
    case Final => FinalSound(n, op, data, r);
  }

  lemma RdOwn<V(!new)>(n: nat, op: (V, V) -> V, data: nat -> V, r: nat)
    requires n >= 1 && r < n
    ensures RdNet(n, op, data).init[r].Keys == {Code(n, r, r + 1)}
  {
    assert RdNet(n, op, data).init[r] == OwnValue(n, data, r);
    OwnKeys(n, data, r);
  }

  lemma FirstSound<V(!new)>(n: nat, op: (V, V) -> V, data: nat -> V, r: nat)
    requires n >= 1 && Associative(op) && r < n && IsProxy(n, r) && 0 < |RdProg(n, r)|
    ensures StepSound(RdNet(n, op, data), Value(n, op, data), r, 0)
  {
    RdOwn(n, op, data, r);
    RdFirst(n, op, data, r);
    FirstFold(n, op, data, r);
    FoldStepSound(RdNet(n, op, data), Value(n, op, data), r, ProxyFirst(n, r));
  }

  /** The extra rank's value comes first. */
  lemma FirstFold<V(!new)>(n: nat, op: (V, V) -> V, data: nat -> V, r: nat)
    requires n >= 1 && Associative(op) && r < n && 0 < r
    ensures var step, val := ProxyFirst(n, r), Value(n, op, data);
      && OneFold(step) && step.recvs[0].peer < n && step.fold.value.hi == Code(n, r, r + 1)
      && val(step.fold.value.dst) == op(val(step.fold.value.lo), val(step.fold.value.hi))
  {
    JoinSlots(n, op, data, r - 1, r, r + 1);
  }

  /** A step that receives one slot and puts it in front of another. */
  predicate OneFold(step: Step)
  {
    && step.sends == [] && |step.recvs| == 1 && step.fold.Some? && step.recvs[0].slots == [step.fold.value.lo]
  }

  lemma RdFirst<V(!new)>(n: nat, op: (V, V) -> V, data: nat -> V, r: nat)
    requires n >= 1 && r < n && IsProxy(n, r)
    ensures var net := RdNet(n, op, data);
      && |net.progs| == |net.init| == n && net.op == op && |net.progs[r]| > 0 && r > 0
      && net.progs[r][0] == ProxyFirst(n, r)
  {
    assert RdNet(n, op, data).progs[r] == RdProg(n, r);
    assert RdProg(n, r)[0] == ProxyFirst(n, r);
  }

  lemma FoldStepSound<V(!new)>(net: Net<V>, val: nat -> V, r: nat, step: Step)
    requires r < |net.progs| == |net.init| && |net.progs[r]| > 0 && net.progs[r][0] == step && OneFold(step)
    requires step.recvs[0].peer < |net.progs| && step.fold.value.hi in net.init[r].Keys
    requires val(step.fold.value.dst) == net.op(val(step.fold.value.lo), val(step.fold.value.hi))
    ensures StepSound(net, val, r, 0)
  {
    RecvSlot(step.recvs[0]);
    assert step.recvs == [step.recvs[0]];
  }

  lemma FinalSound<V(!new)>(n: nat, op: (V, V) -> V, data: nat -> V, r: nat)
    requires n >= 1 && r < n && IsProxy(n, r) && |RdProg(n, r)| == Log2(n) + 2 && r > 0
    requires RdProg(n, r)[Log2(n) + 1] == ProxyLast(n, r)
    ensures StepSound(RdNet(n, op, data), Value(n, op, data), r, Log2(n) + 1)
  {
    RdOwn(n, op, data, r);
    HeldBase(n, r, Log2(n));
    AllCombined(n, NewRank(n, r));
  }

  lemma RdLive(n: nat)
    requires n >= 1
    ensures Live(RdProgs(n), RdClock(n, Log2(n) + 3))
  {
    var progs, clock := RdProgs(n), RdClock(n, Log2(n) + 3);
    forall a: nat, b: nat | a < |progs| && b < |progs| ensures EdgeLive(progs, clock, a, b) {
      EdgesLive(n, a, b);
    }
    RdIncreasing(n, Log2(n) + 3);
    LiveBy(progs, clock);
  }

  lemma RdStepSound<V(!new)>(n: nat, op: (V, V) -> V, data: nat -> V, r: nat, t: nat)
    requires n >= 1 && Associative(op) && r < n && t < |RdProg(n, r)|
    ensures StepSound(RdNet(n, op, data), Value(n, op, data), r, t)
  {
    KindIs(n, r, t);
    match KindOf(n, r, t)
    case Base(i) => BaseStepSound(n, op, data, r, i, t);
    case _ => OtherStepSound(n, op, data, r, t);
  }

  lemma RdStart<V(!new)>(n: nat, op: (V, V) -> V, data: nat -> V, r: nat)
    requires n >= 1 && r < n
    ensures Agrees(RdNet(n, op, data).init[r], Value(n, op, data))
  {
    ValueIs(n, op, data, r, r + 1);
    assert RdNet(n, op, data).init[r] == OwnValue(n, data, r);
  }

  lemma RdSound<V(!new)>(n: nat, op: (V, V) -> V, data: nat -> V)
    requires n >= 1 && Associative(op)
    ensures RdNet(n, op, data).progs == RdProgs(n) && Sound(RdNet(n, op, data), Value(n, op, data))
  {
    var net, val := RdNet(n, op, data), Value(n, op, data);
    assert net.progs == RdProgs(n);
    forall r: nat | r < n ensures Agrees(net.init[r], val) {
      RdStart(n, op, data, r);
    }
    forall r: nat, t: nat | r < n && t < |net.progs[r]| ensures StepSound(net, val, r, t) {
      RdStepSound(n, op, data, r, t);
    }
    forall a: nat, b: nat | a < n && b < n ensures EdgeMatched(net.progs, a, b) {
      EdgesMatch(n, a, b);
    }
  }

  /** At the end every rank holds the combination of all ranks. */
  lemma HeldAtEnd(n: nat, r: nat)
    requires n >= 1 && r < n
    ensures Code(n, 0, n) in Held({Code(n, r, r + 1)}, RdProg(n, r), |RdProg(n, r)|)
  {
    var own, prog := {Code(n, r, r + 1)}, RdProg(n, r);
    if IsExtra(n, r) {
      assert prog == [ExtraStep(n, r)];
      RecvSlot(Msg(r + 1, [Code(n, 0, n)]));
    } else {
      HeldBase(n, r, Log2(n));
      AllCombined(n, NewRank(n, r));
      HeldGrows(own, prog, BaseIndex(n, r, Log2(n)), |prog|);
    }
  }

  /** Every rank has the values of all ranks combined in rank order. */
  ghost predicate Reduced<V(!new)>(s: State<V>, n: nat, op: (V, V) -> V, data: nat -> V)
  {
    forall r: nat :: r < n ==> HasResult(s.buf(r), n, op, data)
  }

  ghost predicate HasResult<V>(buf: map<nat, V>, n: nat, op: (V, V) -> V, data: nat -> V)
  {
    Code(n, 0, n) in buf && buf[Code(n, 0, n)] == Combined(op, data, 0, n)
  }

  /** Recursive doubling, for every group size, every associative operator and every interleaving: no run gets
      stuck, and every rank ends with each rank's value combined exactly once, in rank order. */
  lemma RdAllreduce<V(!new)>(n: nat, op: (V, V) -> V, data: nat -> V, run: seq<Event>)
    requires n >= 1 && Associative(op) && IsRun(RdNet(n, op, data), run)
    ensures OnItsWay(RdNet(n, op, data), Value(n, op, data), run)
    ensures |run| == TotalWork(RdNet(n, op, data)) ==> Reduced(After(RdNet(n, op, data), run), n, op, data)
  {
    var net, val, clock := RdNet(n, op, data), Value(n, op, data), RdClock(n, Log2(n) + 3);
    RdSound(n, op, data);
    RdLive(n);
    EveryRunCompletes(net, val, clock, run);
    if |run| == TotalWork(net) {
      AllReduced(n, op, data, After(net, run));
    }
  }

  lemma AllReduced<V(!new)>(n: nat, op: (V, V) -> V, data: nat -> V, s: State<V>)
    requires n >= 1
    requires var net := RdNet(n, op, data); |net.progs| == |net.init| && Complete(net, Value(n, op, data), s)
    ensures Reduced(s, n, op, data)
  {
    forall r: nat | r < n ensures HasResult(s.buf(r), n, op, data) {
      RankReduced(n, op, data, s, r);
    }
  }

  lemma RankReduced<V(!new)>(n: nat, op: (V, V) -> V, data: nat -> V, s: State<V>, r: nat)
    requires n >= 1 && r < n
    requires var net := RdNet(n, op, data); |net.progs| == |net.init| && Complete(net, Value(n, op, data), s)
    ensures HasResult(s.buf(r), n, op, data)
  {
    var net := RdNet(n, op, data);
    ValueIs(n, op, data, 0, n);
    HeldAtEnd(n, r);
    RdOwn(n, op, data, r);
    assert net.progs[r] == RdProg(n, r);
    CompleteHolds(net, Value(n, op, data), s, r, Code(n, 0, n));
  }

  lemma OwnKeys<V>(n: nat, data: nat -> V, r: nat)
    ensures OwnValue(n, data, r).Keys == {Code(n, r, r + 1)}
  {
  }
}
