/** The iterators that give a rank its partners: recursive doubling, from the lowest bit up, and recursive halving,
    from the highest bit down. */
module RdRhIter {
  import opened Network
  import opened Bits
  import opened Doubling

  datatype RdType = RdExtra | RdProxy | RdBase

  function BasePeers(n: nat, r: nat): seq<nat>
    requires n >= 1 && r < n && !IsExtra(n, r)
  {
    seq(Log2(n), (i: nat) requires i < Log2(n) => BasePeer(n, r, i))
  }

  function BasePeer(n: nat, r: nat, i: nat): (peer: nat)
    requires n >= 1 && r < n && !IsExtra(n, r) && i < Log2(n)
    ensures peer < n
  {
    ToggleBelow(NewRank(n, r), i, Log2(n));
    OldRank(n, Toggle(NewRank(n, r), i))
  }

  /** The partners of a rank, in order. */
  function Peers(n: nat, r: nat): seq<nat>
    requires n >= 1 && r < n
  {
    if IsExtra(n, r) then [r + 1, r + 1]
    else if IsProxy(n, r) then [r - 1] + BasePeers(n, r) + [r - 1]
    else BasePeers(n, r)
  }

  /** Partners in a base step are each other's partners. */
  lemma PeersAreMutual(n: nat, r: nat, i: nat)
    requires n >= 1 && r < n && !IsExtra(n, r) && i < Log2(n)
    ensures var peer := BasePeer(n, r, i);
      peer != r && !IsExtra(n, peer) && BasePeer(n, peer, i) == r
  {
    var j := NewRank(n, r);
    Partners(n, j, i);
    NewOld(n, Toggle(j, i));
  }

  /** The program of a rank exchanges with the partners that the iterator gives, in this order. */
  lemma ProgramFollowsPeers(n: nat, r: nat, i: nat)
    requires n >= 1 && r < n && !IsExtra(n, r) && i < Log2(n)
    ensures BaseIndex(n, r, i) < |RdProg(n, r)| && BaseIndex(n, r, i) < |Peers(n, r)|
    ensures var step, peer := RdProg(n, r)[BaseIndex(n, r, i)], Peers(n, r)[BaseIndex(n, r, i)];
      |step.sends| == 1 && |step.recvs| == 1 && step.sends[0].peer == peer && step.recvs[0].peer == peer
  {
    var u := BaseIndex(n, r, i);
    BaseStepAt(n, r, i);
    assert |Peers(n, r)| == |BasePeers(n, r)| + if IsProxy(n, r) then 2 else 0;
    PeersAt(n, r, u);
    assert Peers(n, r)[u] == BasePeer(n, r, i);
    OneEach(n, NewRank(n, r), i);
  }

  lemma OneEach(n: nat, j: nat, i: nat)
    requires n >= 1 && j < BaseCount(n) && i < Log2(n)
    ensures Toggle(j, i) < BaseCount(n)
    ensures var step, peer := BaseStep(n, j, i), OldRank(n, Toggle(j, i));
      |step.sends| == 1 && |step.recvs| == 1 && step.sends[0].peer == peer && step.recvs[0].peer == peer
  {
    ToggleBelow(j, i, Log2(n));
  }

  class RdIter {
    const kind: RdType
    const size: nat
    const nBase: nat
    const proxyNum: nat
    const maxIdx: nat
    const myrank: nat
    const newRank: nat
    var idx: nat
    var current: Option<nat>
    ghost const peers: seq<nat>

    ghost predicate Fixed()
    {
      && size >= 1 && myrank < size && nBase == BaseCount(size) && proxyNum == ProxyCount(size)
      && peers == Peers(size, myrank) && maxIdx == |peers|
      && (kind == if IsExtra(size, myrank) then RdExtra else if IsProxy(size, myrank) then RdProxy else RdBase)
      && (kind != RdExtra ==> newRank == NewRank(size, myrank))
    }

    /** The current partner is the one at the index; behind the last there is none. */
    ghost predicate InPlace()
      reads this
    {
      idx <= |peers| && current == if idx < |peers| then Some(peers[idx]) else None
    }

    ghost predicate Valid()
      reads this
    {
      Fixed() && InPlace()
    }

    /** The partner of base step `i`. */
    method Partner(i: nat) returns (peer: nat)
      requires Fixed() && kind != RdExtra && i < Log2(size)
      ensures peer == BasePeer(size, myrank, i)
    {
      ToggleBelow(newRank, i, Log2(size));
      var k := FlipBit(newRank, i);
      peer := if k < proxyNum then k * 2 + 1 else k + proxyNum;
    }

    method Update()
      requires Fixed() && idx <= maxIdx
      modifies this`current
      ensures InPlace()
    {
      if idx == maxIdx {
        current := None;
        return;
      }
      PeersAt(size, myrank, idx);
      match kind
      case RdProxy =>
        if idx == 0 || idx == maxIdx - 1 {
          current := Some(myrank - 1);
        } else {
          var peer := Partner(idx - 1);
          current := Some(peer);
        }
      case RdBase =>
        var peer := Partner(idx);
        current := Some(peer);
      case RdExtra =>
        current := Some(myrank + 1);
    }

    constructor (size: nat, myrank: nat)
      requires size >= 1 && myrank < size
      ensures Valid() && idx == 0 && this.size == size && this.myrank == myrank
    {
      var steps := FloorLog2(size);
      var nBase := PowerOf2(steps);
      Log2Is(size);
      var proxyNum := size - nBase;
      this.size, this.myrank, this.nBase, this.proxyNum := size, myrank, nBase, proxyNum;
      peers := Peers(size, myrank);
      if myrank < proxyNum * 2 {
        if myrank % 2 == 0 {
          kind, maxIdx, newRank := RdExtra, 2, 0;
        } else {
          kind, maxIdx, newRank := RdProxy, steps + 2, myrank / 2;
        }
      } else {
        kind, maxIdx, newRank := RdBase, steps, myrank - proxyNum;
      }
      idx, current := 0, None;
      new;
      Update();
    }

    method Reset()
      requires Valid()
      modifies this`idx, this`current
      ensures Valid() && idx == 0
    {
      idx := 0;
      Update();
    }

    /** Of the first ranks, twice as many as exceed the power of two, the even ones are extra and the odd ones proxies. */
    method Type() returns (type_: RdType)
      requires Valid()
      ensures var excess := size - BaseCount(size);
        type_ == if myrank >= 2 * excess then RdBase else if myrank % 2 == 0 then RdExtra else RdProxy
    {
      type_ := kind;
    }

    /** The partner if this is a base step. */
    method BaseValue() returns (peer: Option<nat>)
      requires Valid()
      ensures peer == if kind != RdExtra && idx < maxIdx && (kind == RdProxy ==> 0 < idx && idx + 1 < maxIdx)
                      then Some(peers[idx]) else None
    {
      if (kind == RdProxy && (idx == 0 || idx + 1 == maxIdx)) || kind == RdExtra {
        return None;
      }
      return current;
    }

    /** The current partner; goes on to the next. */
    method ValueInc() returns (peer: nat)
      requires Valid() && idx < maxIdx
      modifies this`idx, this`current
      ensures Valid() && idx == old(idx) + 1 && peer == peers[old(idx)]
    {
      peer := current.value;
      Inc();
    }

    method Inc()
      requires Valid() && idx < maxIdx
      modifies this`idx, this`current
      ensures Valid() && idx == old(idx) + 1
    {
      idx := idx + 1;
      Update();
    }
  }

  lemma PeersAt(n: nat, r: nat, idx: nat)
    requires n >= 1 && r < n && idx < |Peers(n, r)|
    ensures IsExtra(n, r) ==> Peers(n, r)[idx] == r + 1
    ensures IsProxy(n, r) ==> |Peers(n, r)| == Log2(n) + 2 && r > 0
    ensures IsProxy(n, r) && (idx == 0 || idx == Log2(n) + 1) ==> Peers(n, r)[idx] == r - 1
    ensures IsProxy(n, r) && 0 < idx <= Log2(n) ==> Peers(n, r)[idx] == BasePeer(n, r, idx - 1)
    ensures !IsProxy(n, r) && !IsExtra(n, r) ==> |Peers(n, r)| == Log2(n) && Peers(n, r)[idx] == BasePeer(n, r, idx)
  {
    if IsProxy(n, r) && 0 < idx <= Log2(n) {
      assert ([r - 1] + BasePeers(n, r))[idx] == BasePeers(n, r)[idx - 1];
    }
  }

  /** The exclusive or of `j` and bit `i`, computed on the bits. */
  method FlipBit(j: nat, i: nat) returns (k: nat)
    ensures k == Toggle(j, i)
  {
    if i == 0 {
      k := if j % 2 == 0 then j + 1 else j - 1;
    } else {
      k := FlipBit(j / 2, i - 1);
      k := 2 * k + j % 2;
    }
  }

  method FloorLog2(n: nat) returns (l: nat)
    ensures l == Log2(n)
  {
    l := 0;
    var x := n;
    while x > 1
      invariant Log2(n) == l + Log2(x)
    {
      x := x / 2;
      l := l + 1;
    }
  }

  method PowerOf2(l: nat) returns (p: nat)
    ensures p == Pow2(l)
  {
    p := 1;
    for i := 0 to l
      invariant p == Pow2(i)
    {
      p := 2 * p;
    }
  }

  // ----- recursive halving -----

  /** The lowest `i` bits of `j`. */
  function Low(j: nat, i: nat): nat
  {
    if i == 0 then 0 else j % 2 + 2 * Low(j / 2, i - 1)
  }

  lemma {:induction false} LowToggle(j: nat, i: nat, x: nat)
    ensures Low(Toggle(j, i), i) == Low(j, i) && Low(Toggle(j, i), i + 1) != Low(j, i + 1)
    ensures Low(x, i) == Low(j, i) <==> Low(x, i + 1) == Low(j, i + 1) || Low(x, i + 1) == Low(Toggle(j, i), i + 1)
  {
    if i > 0 {
      var k := Toggle(j / 2, i - 1);
      assert Toggle(j, i) / 2 == k && Toggle(j, i) % 2 == j % 2;
      LowToggle(j / 2, i - 1, x / 2);
    }
  }

  lemma {:induction false} LowAll(j: nat, l: nat)
    requires j < Pow2(l)
    ensures Low(j, l) == j
  {
    if l > 0 {
      LowAll(j / 2, l - 1);
    }
  }

  /** The base rank that answers for a rank. */
  function RhBase(n: nat, x: nat): nat
    requires n >= 1
  {
    if x < BaseCount(n) then x else x - BaseCount(n)
  }

  /** The ranks that base rank `j` has combined after the extra ranks have handed over and `t` steps. */
  function RhCombined(n: nat, j: nat, t: nat): set<nat>
    requires n >= 1 && t <= Log2(n)
    decreases t
  {
    if t == 0 then set x: nat | x < n && RhBase(n, x) == j
    else RhCombined(n, j, t - 1) + RhCombined(n, Toggle(j, Log2(n) - t), t - 1)
  }

  /** The combined ranks are those that agree with `j` in the lower bits. */
  lemma {:induction false} RhClasses(n: nat, j: nat, t: nat)
    requires n >= 1 && t <= Log2(n) && j < BaseCount(n)
    ensures RhCombined(n, j, t) == set x: nat | x < n && Low(RhBase(n, x), Log2(n) - t) == Low(j, Log2(n) - t)
    decreases t
  {
    var l := Log2(n);
    Log2Is(n);
    if t == 0 {
      LowAll(j, l);
      forall x: nat | x < n ensures Low(RhBase(n, x), l) == RhBase(n, x) {
        LowAll(RhBase(n, x), l);
      }
    } else {
      var k := Toggle(j, l - t);
      ToggleBelow(j, l - t, l);
      RhClasses(n, j, t - 1);
      RhClasses(n, k, t - 1);
      forall x: nat | x < n
        ensures Low(RhBase(n, x), l - t) == Low(j, l - t) <==>
                Low(RhBase(n, x), l - t + 1) == Low(j, l - t + 1) || Low(RhBase(n, x), l - t + 1) == Low(k, l - t + 1)
      {
        LowToggle(j, l - t, RhBase(n, x));
      }
    }
  }

  /** In every step partners are mutual and have combined disjoint sets of ranks: none is counted twice. */
  lemma RhDisjoint(n: nat, j: nat, t: nat)
    requires n >= 1 && t < Log2(n) && j < BaseCount(n)
    ensures var k := Toggle(j, Log2(n) - t - 1);
      k < BaseCount(n) && k != j && Toggle(k, Log2(n) - t - 1) == j
      && RhCombined(n, j, t) !! RhCombined(n, k, t)
  {
    var l := Log2(n);
    var k := Toggle(j, l - t - 1);
    ToggleBelow(j, l - t - 1, l);
    ToggleTwice(j, l - t - 1);
    RhClasses(n, j, t);
    RhClasses(n, k, t);
    LowToggle(j, l - t - 1, 0);
  }

  /** After the last step every base rank has combined all ranks. */
  lemma RhComplete(n: nat, j: nat)
    requires n >= 1 && j < BaseCount(n)
    ensures forall x: nat :: x in RhCombined(n, j, Log2(n)) <==> x < n
  {
    RhClasses(n, j, Log2(n));
  }

  class RhIter {
    const groupSize: nat
    const myRank: nat
    const adjustGroupSize: nat
    const maxIteration: nat
    const isBase: bool
    const isProxy: bool
    const isExtra: bool
    var iteration: nat

    ghost predicate Valid()
      reads this
    {
      && groupSize >= 1 && myRank < groupSize
      && adjustGroupSize == BaseCount(groupSize) && maxIteration == Log2(groupSize)
      && isBase == (myRank < adjustGroupSize) && isExtra == !isBase
      && isProxy == (isBase && myRank + adjustGroupSize < groupSize)
      && iteration <= maxIteration
    }

    constructor (groupSize: nat, myRank: nat)
      requires groupSize >= 1 && myRank < groupSize
      ensures Valid() && iteration == 0 && this.groupSize == groupSize && this.myRank == myRank
    {
      var steps := FloorLog2(groupSize);
      var adjust := PowerOf2(steps);
      this.groupSize, this.myRank, adjustGroupSize, maxIteration := groupSize, myRank, adjust, steps;
      isBase, isExtra := myRank < adjust, myRank >= adjust;
      isProxy := myRank < adjust && myRank < groupSize - adjust;
      iteration := 0;
    }

    /** The extra rank of a proxy and the proxy of an extra rank belong together. */
    method GetExtra() returns (peer: Option<nat>)
      requires Valid()
      ensures peer.Some? <==> isProxy
      ensures peer.Some? ==> BaseCount(groupSize) <= peer.value < groupSize && RhBase(groupSize, peer.value) == myRank
      ensures peer.Some? ==> peer.value == myRank + BaseCount(groupSize)
    {
      if !isProxy {
        return None;
      }
      return Some(myRank + adjustGroupSize);
    }

    method GetProxy() returns (peer: Option<nat>)
      requires Valid()
      ensures peer.Some? <==> isExtra
      ensures peer.Some? ==> peer.value == RhBase(groupSize, myRank) < BaseCount(groupSize)
      ensures peer.Some? ==> peer.value == myRank - BaseCount(groupSize)
    {
      if !isExtra {
        return None;
      }
      Log2Is(groupSize);
      return Some(myRank - adjustGroupSize);
    }

    /** The partners of a base rank, highest bit first. */
    method GetNextBase() returns (peer: Option<nat>)
      requires Valid()
      modifies this`iteration
      ensures Valid()
      ensures peer.Some? <==> isBase && old(iteration) < maxIteration
      ensures peer.Some? ==> iteration == old(iteration) + 1 && peer.value == Toggle(myRank, maxIteration - iteration)
      ensures peer.None? ==> iteration == old(iteration)
    {
      if !isBase || iteration >= maxIteration {
        return None;
      }
      var k := FlipBit(myRank, maxIteration - iteration - 1);
      peer := Some(k);
      iteration := iteration + 1;
    }
  }
}
