/** The windows of the Rabenseifner allreduce: in every step two partners halve the window that they share, each
    keeps one half and sends the other. */
module HalvingWindows {
  import opened Bits
  import opened RdRhIter
  import opened Doubling

  /** `count` elements from `start` on. */
  datatype Window = Window(start: nat, count: nat)

  predicate Contains(w: Window, x: nat)
  {
    w.start <= x < w.start + w.count
  }

  /** The lower half is the smaller one. */
  function Half(w: Window, lower: bool): Window
  {
    if lower then Window(w.start, w.count / 2) else Window(w.start + w.count / 2, w.count - w.count / 2)
  }

  /** Whether `j` has the lower half in step `s`. */
  predicate IsLower(j: nat, s: nat)
  {
    Shift(j, s) % 2 == 0
  }

  /** The window of active rank `j` before step `s`. */
  function WindowAt(j: nat, s: nat, count: nat): Window
  {
    if s == 0 then Window(0, count) else Half(WindowAt(j, s - 1, count), IsLower(j, s - 1))
  }

  lemma {:induction false} LowBits(j: nat, k: nat, s: nat)
    ensures Low(j, s + 1) == Low(k, s + 1) <==> Low(j, s) == Low(k, s) && (IsLower(j, s) <==> IsLower(k, s))
  {
    if s > 0 {
      LowBits(j / 2, k / 2, s - 1);
    }
  }

  /** The window depends on the lower bits only. */
  lemma {:induction false} SameLowSameWindow(j: nat, k: nat, s: nat, count: nat)
    requires Low(j, s) == Low(k, s)
    ensures WindowAt(j, s, count) == WindowAt(k, s, count)
  {
    if s > 0 {
      LowBits(j, k, s - 1);
      SameLowSameWindow(j, k, s - 1, count);
    }
  }

  /** Partners start a step from the same window, and what one keeps the other sends: the kept window of the
      partner.  The two halves make up the window. */
  lemma PartnersShare(j: nat, s: nat, count: nat)
    ensures var k, w := Toggle(j, s), WindowAt(j, s, count);
      && WindowAt(k, s, count) == w && (IsLower(k, s) <==> !IsLower(j, s))
      && WindowAt(j, s + 1, count) == Half(w, IsLower(j, s)) && WindowAt(k, s + 1, count) == Half(w, !IsLower(j, s))
      && forall x: nat :: Contains(w, x) <==>
           Contains(WindowAt(j, s + 1, count), x) != Contains(WindowAt(k, s + 1, count), x)
    ensures var k, w := Toggle(j, s), WindowAt(j, s, count);
      && WindowAt(if j < k then j else k, s + 1, count) == Window(w.start, w.count / 2)
      && WindowAt(if j < k then k else j, s + 1, count) == Window(w.start + w.count / 2, w.count - w.count / 2)
  {
    LowToggle(j, s, j);
    ToggleShift(j, s);
    SameLowSameWindow(j, Toggle(j, s), s, count);
  }

  // ----- the final windows -----

  lemma {:induction false} WithinWindow(j: nat, s: nat, t: nat, count: nat, x: nat)
    requires s <= t && Contains(WindowAt(j, t, count), x)
    ensures Contains(WindowAt(j, s, count), x)
    decreases t
  {
    if s < t {
      WithinWindow(j, s, t - 1, count, x);
    }
  }

  /** Two ranks whose windows share an element agree in the bits so far. */
  lemma {:induction false} SharedIsSame(j: nat, k: nat, s: nat, count: nat, x: nat)
    requires Contains(WindowAt(j, s, count), x) && Contains(WindowAt(k, s, count), x)
    ensures Low(j, s) == Low(k, s)
  {
    if s > 0 {
      WithinWindow(j, s - 1, s, count, x);
      WithinWindow(k, s - 1, s, count, x);
      SharedIsSame(j, k, s - 1, count, x);
      SameLowSameWindow(j, k, s - 1, count);
      LowBits(j, k, s - 1);
    }
  }

  lemma {:induction false} HighBit(j: nat, s: nat)
    requires j < Pow2(s)
    ensures IsLower(j, s) && !IsLower(j + Pow2(s), s) && Low(j + Pow2(s), s) == Low(j, s)
  {
    if s > 0 {
      assert (j + Pow2(s)) / 2 == j / 2 + Pow2(s - 1) && (j + Pow2(s)) % 2 == j % 2;
      HighBit(j / 2, s - 1);
    }
  }

  /** Some rank keeps `x`. */
  lemma {:induction false} Keeper(s: nat, count: nat, x: nat) returns (j: nat)
    requires x < count
    ensures j < Pow2(s) && Contains(WindowAt(j, s, count), x)
  {
    if s == 0 {
      j := 0;
    } else {
      j := Keeper(s - 1, count, x);
      HighBit(j, s - 1);
      SameLowSameWindow(j, j + Pow2(s - 1), s - 1, count);
      if !Contains(WindowAt(j, s, count), x) {
        j := j + Pow2(s - 1);
      }
    }
  }

  /** The final windows of the `Pow2(l)` active ranks partition the elements: each element is in exactly one, and
      no window reaches beyond them. */
  lemma WindowsPartition(l: nat, count: nat, x: nat)
    ensures x < count ==> exists j: nat :: j < Pow2(l) && Contains(WindowAt(j, l, count), x)
    ensures forall j: nat :: Contains(WindowAt(j, l, count), x) ==> x < count
    ensures forall j: nat, k: nat ::
      j < Pow2(l) && k < Pow2(l) && Contains(WindowAt(j, l, count), x) && Contains(WindowAt(k, l, count), x) ==> j == k
  {
    if x < count {
      var j := Keeper(l, count, x);
    }
    forall j: nat | Contains(WindowAt(j, l, count), x) ensures x < count {
      WithinWindow(j, 0, l, count, x);
    }
    forall j: nat, k: nat | j < Pow2(l) && k < Pow2(l) && Contains(WindowAt(j, l, count), x)
                            && Contains(WindowAt(k, l, count), x)
      ensures j == k
    {
      SharedIsSame(j, k, l, count, x);
      LowAll(j, l);
      LowAll(k, l);
    }
  }

  // ----- the routine -----

  /** The active ranks: the even ones among the first, and all behind. */
  predicate Active(rem: nat, r: nat)
  {
    r >= 2 * rem || r % 2 == 0
  }

  function ActiveRank(rem: nat, j: nat): nat
  {
    if j < rem then 2 * j else j + rem
  }

  /** Active ranks are in the order of their numbers. */
  lemma ActiveInOrder(rem: nat, j: nat, k: nat)
    ensures ActiveRank(rem, j) < ActiveRank(rem, k) <==> j < k
    ensures Active(rem, ActiveRank(rem, j))
  {
  }

  /** The kept and the sent window of step `s`. */
  predicate Recorded(j: nat, s: nat, count: nat, kept: Window, sent: Window)
  {
    kept == WindowAt(j, s + 1, count) && sent == WindowAt(Toggle(j, s), s + 1, count)
  }

  lemma {:induction false} Pow2Grows(a: nat, b: nat)
    ensures Pow2(a) < Pow2(b) <==> a < b
  {
    if a > 0 && b > 0 {
      Pow2Grows(a - 1, b - 1);
    }
  }

  /** The sizes of the two parts of a window that a rank keeps and sends. */
  method Split(rank: nat, peer: int, start: nat, wsize: nat) returns (rindex: nat, rcount: nat, sindex: nat, scount: nat)
    ensures Window(rindex, rcount) == Half(Window(start, wsize), rank < peer)
    ensures Window(sindex, scount) == Half(Window(start, wsize), rank >= peer)
  {
    rindex, sindex := start, start;
    if rank < peer {
      rcount := wsize / 2;
      scount := wsize - rcount;
      sindex := rindex + rcount;
    } else {
      scount := wsize / 2;
      rcount := wsize - scount;
      rindex := sindex + scount;
    }
  }

  /** The number whose windows a rank goes through: its own if it is active.  The others have number -1, in which all
      bits are set, and go through the windows of the last active rank. */
  function Number(size: nat, r: nat): (j: nat)
    requires size >= 1 && r < size
    ensures j < BaseCount(size) && (Active(ProxyCount(size), r) ==> ActiveRank(ProxyCount(size), j) == r)
  {
    Log2Is(size);
    if !Active(ProxyCount(size), r) then BaseCount(size) - 1
    else if r < 2 * ProxyCount(size) then r / 2
    else r - ProxyCount(size)
  }

  lemma {:induction false} AllOnes(l: nat, s: nat)
    requires s < l
    ensures !IsLower(Pow2(l) - 1, s)
  {
    if s > 0 {
      assert (Pow2(l) - 1) / 2 == Pow2(l - 1) - 1;
      AllOnes(l - 1, s - 1);
    }
  }

  /** What the routine calculates with: the number of an active rank, or -1. */
  predicate Stands(rem: nat, myrank: nat, newRank: int, j: nat, step: nat)
  {
    if newRank < 0 then newRank == -1 && !IsLower(j, step) else newRank == j && myrank == ActiveRank(rem, j)
  }

  /** The exclusive or of a number with bit `step`, of value `mask`; all bits of -1 are set. */
  method XorBit(newRank: int, step: nat, mask: nat) returns (k: int)
    requires newRank >= -1
    ensures k == if newRank < 0 then -1 - mask else Toggle(newRank, step)
  {
    if newRank < 0 {
      k := newRank - mask;
    } else {
      k := FlipBit(newRank, step);
    }
  }

  /** One step: the partner, and the two halves of the window. */
  method HalvingStep(rem: nat, myrank: nat, newRank: int, step: nat, mask: nat, start: nat, wsize: nat,
                     ghost j: nat, ghost args: nat)
    returns (rindex: nat, rcount: nat, sindex: nat, scount: nat)
    requires Stands(rem, myrank, newRank, j, step) && Window(start, wsize) == WindowAt(j, step, args)
    ensures Recorded(j, step, args, Window(rindex, rcount), Window(sindex, scount))
  {
    var newPeer := XorBit(newRank, step, mask);
    var peer := if newPeer < rem then newPeer * 2 else newPeer + rem;
    ActiveInOrder(rem, j, Toggle(j, step));
    PartnersShare(j, step, args);
    ToggleShift(j, step);
    rindex, rcount, sindex, scount := Split(myrank, peer, start, wsize);
  }

  /** The loop over the steps; `mask` is the value of the bit that the step is about. */
  method HalveAll(rem: nat, myrank: nat, newRank: int, nstep: nat, pof2: nat, args: nat, ghost j: nat)
    returns (offset: nat, count: nat, sindex: array<nat>, rindex: array<nat>, scount: array<nat>, rcount: array<nat>)
    requires nstep >= 1 && pof2 == Pow2(nstep)
    requires forall s: nat :: s < nstep ==> Stands(rem, myrank, newRank, j, s)
    ensures sindex.Length == rindex.Length == scount.Length == rcount.Length == nstep
    ensures Window(offset, count) == WindowAt(j, nstep, args)
    ensures forall s: nat :: s < nstep ==>
      Recorded(j, s, args, Window(rindex[s], rcount[s]), Window(sindex[s], scount[s]))
  {
    sindex, rindex := new nat[nstep](_ => 0), new nat[nstep](_ => 0);
    scount, rcount := new nat[nstep](_ => 0), new nat[nstep](_ => 0);
    var mask, wsize, step := 1, args, 0;
    ghost var bit: nat := 0;
    Pow2Grows(0, nstep);
    while mask < pof2
      invariant mask == Pow2(bit) && (mask < pof2 <==> bit < nstep) && bit <= nstep
      invariant step == if bit < nstep then bit else nstep - 1
      invariant bit < nstep ==> sindex[step] == rindex[step]
      invariant bit < nstep ==> Window(rindex[step], wsize) == WindowAt(j, step, args)
      invariant forall s: nat :: s < bit ==>
        Recorded(j, s, args, Window(rindex[s], rcount[s]), Window(sindex[s], scount[s]))
      decreases nstep - bit
    {
      var ri, rc, si, sc := HalvingStep(rem, myrank, newRank, step, mask, rindex[step], wsize, j, args);
      rindex[step], rcount[step], sindex[step], scount[step] := ri, rc, si, sc;
      if step + 1 < nstep {
        rindex[step + 1], sindex[step + 1] := ri, ri;
        wsize := rc;
        step := step + 1;
      }
      mask := 2 * mask;
      bit := bit + 1;
      Pow2Grows(bit, nstep);
    }
    offset, count := rindex[step], rcount[step];
  }

  /** The windows of a rank of a group of at least two. */
  method GetRdArgs(size: nat, myrank: nat, args: nat)
    returns (offset: nat, count: nat, sindex: array<nat>, rindex: array<nat>, scount: array<nat>, rcount: array<nat>)
    requires size >= 2 && myrank < size
    ensures sindex.Length == rindex.Length == scount.Length == rcount.Length == Log2(size)
    ensures var rem := size - BaseCount(size);
      Number(size, myrank) == if myrank >= 2 * rem then myrank - rem else if myrank % 2 == 0 then myrank / 2
                              else BaseCount(size) - 1
    ensures Window(offset, count) == WindowAt(Number(size, myrank), Log2(size), args)
    ensures forall s: nat :: s < Log2(size) ==>
      Recorded(Number(size, myrank), s, args, Window(rindex[s], rcount[s]), Window(sindex[s], scount[s]))
  {
    Log2Is(size);
    var nstep := FloorLog2(size);
    var pof2 := PowerOf2(nstep);
    var rem := size - pof2;
    var newRank := if myrank < 2 * rem then (if myrank % 2 == 0 then myrank / 2 else -1) else myrank - rem;
    forall s: nat | s < nstep ensures Stands(rem, myrank, newRank, Number(size, myrank), s) {
      NumberStands(size, myrank, newRank, s);
    }
    offset, count, sindex, rindex, scount, rcount :=
      HalveAll(rem, myrank, newRank, nstep, pof2, args, Number(size, myrank));
  }

  lemma NumberStands(size: nat, r: nat, newRank: int, step: nat)
    requires size >= 2 && r < size && step < Log2(size)
    requires var rem := ProxyCount(size);
      newRank == if r < 2 * rem then (if r % 2 == 0 then r / 2 else -1) else r - rem
    ensures Stands(ProxyCount(size), r, newRank, Number(size, r), step)
  {
    AllOnes(Log2(size), step);
  }
}
