/** Neighbour exchange allgather, for even groups: ranks 2i and 2i+1 form a pair and first exchange their own
    blocks.  From then on a rank passes on, to its two neighbours in turn, the pair of blocks it received last.
 */
module Neighbor {
  import opened Network
  import opened LockStep
  import opened Cyclic
  import opened Exchange
  import Rolling

  /** The pair whose blocks rank `r` of pair `p` passes on in round `j`. */
  function Give(m: nat, p: nat, even: bool, j: nat): nat
    requires p < m && 1 <= j <= m
  {
    if even == (j % 2 == 1) then Wrap(p + (if even then (j - 1) / 2 else j / 2), m)
    else Wrap(p - (if even then j / 2 else (j - 1) / 2), m)
  }

  /** The pair whose blocks it receives. */
  function Take(m: nat, p: nat, even: bool, j: nat): nat
    requires p < m && 1 <= j < m
  {
    if even == (j % 2 == 1) then Wrap(p - (j + 1) / 2, m) else Wrap(p + (j + 1) / 2, m)
  }

  /** The pair of the partner; its other rank is the partner itself. */
  function Toward(m: nat, p: nat, even: bool, j: nat): nat
    requires p < m && 1 <= j
  {
    if j % 2 == 0 then p else if even then Wrap(p - 1, m) else Wrap(p + 1, m)
  }

  function Both(p: nat): seq<nat>
  {
    [2 * p, 2 * p + 1]
  }

  function Partner(r: nat): nat
  {
    if r % 2 == 0 then r + 1 else r - 1
  }

  function Exchanged(n: nat, r: nat, t: nat): Swap
    requires n % 2 == 0 && r < n && t < n / 2
  {
    if t == 0 then Swap(Partner(r), [r], [Partner(r)])
    else
      var m, p, even := n / 2, r / 2, r % 2 == 0;
      Swap(2 * Toward(m, p, even, t) + (if even then 1 else 0), Both(Give(m, p, even, t)), Both(Take(m, p, even, t)))
  }

  ghost function ThePlan(n: nat): Plan
  {
    Plan(n, (r: nat) => n / 2,
         (r: nat, t: nat) => if n % 2 == 0 && r < n && t < n / 2 then Exchanged(n, r, t) else Swap(0, [], []))
  }

  /** The pairs held after `rounds` rounds, by a rank of pair `p`. */
  function PairWindow(m: nat, p: nat, even: bool, rounds: nat): set<nat>
    requires p < m
  {
    if even then Rolling.Around(m, p, (rounds + 1) / 2, rounds / 2)
    else Rolling.Around(m, p, rounds / 2, (rounds + 1) / 2)
  }

  function BlocksOf(pairs: set<nat>): set<nat>
  {
    (set p | p in pairs :: 2 * p) + (set p | p in pairs :: 2 * p + 1)
  }

  function Blocks(n: nat, r: nat, t: nat): set<nat>
    requires n % 2 == 0 && r < n
  {
    if t == 0 then {r} else BlocksOf(PairWindow(n / 2, r / 2, r % 2 == 0, t - 1))
  }

  ghost function Windows(n: nat): (nat, nat) -> set<nat>
  {
    (r: nat, t: nat) => if n % 2 == 0 && r < n then Blocks(n, r, t) else {}
  }

  /** The pairs of the odd rounds, counted by `h`, and of the even ones. */
  lemma OddTerms(m: nat, p: nat, even: bool, j: nat, h: nat)
    requires p < m && j == 2 * h + 1 < m
    ensures Toward(m, p, even, j) == (if even then Wrap(p - 1, m) else Wrap(p + 1, m))
    ensures Give(m, p, even, j) == (if even then Wrap(p + h, m) else Wrap(p - h, m))
    ensures Take(m, p, even, j) == (if even then Wrap(p - (h + 1), m) else Wrap(p + (h + 1), m))
    ensures (j - 1) / 2 == h && j / 2 == h && (j + 1) / 2 == h + 1 && j % 2 == 1
  {
  }

  lemma EvenTerms(m: nat, p: nat, even: bool, j: nat, h: nat)
    requires p < m && 1 <= h && j == 2 * h < m
    ensures Toward(m, p, even, j) == p
    ensures Give(m, p, even, j) == (if even then Wrap(p - h, m) else Wrap(p + h, m))
    ensures Take(m, p, even, j) == (if even then Wrap(p + h, m) else Wrap(p - h, m))
    ensures (j - 1) / 2 == h - 1 && j / 2 == h && (j + 1) / 2 == h && j % 2 == 0
  {
  }

  /** Positions seen from two neighbouring pairs. */
  lemma Beside(m: nat, p: nat, q: nat, h: nat)
    requires p < m && h + 1 < m && q == Wrap(p - 1, m)
    ensures q < m && Wrap(q + 1, m) == p
    ensures Wrap(q - h, m) == Wrap(p - (h + 1), m) && Wrap(q + (h + 1), m) == Wrap(p + h, m)
  {
  }

  lemma OddMatch(m: nat, p: nat, even: bool, j: nat, q: nat, h: nat)
    requires p < m && j == 2 * h + 1 < m && q == Toward(m, p, even, j)
    ensures q < m && Toward(m, q, !even, j) == p && Give(m, q, !even, j) == Take(m, p, even, j)
  {
    OddTerms(m, p, even, j, h);
    OddTerms(m, q, !even, j, h);
    if even {
      Beside(m, p, q, h);
    } else {
      Beside(m, q, p, h);
    }
  }

  lemma EvenMatch(m: nat, p: nat, even: bool, j: nat, q: nat, h: nat)
    requires p < m && 1 <= h && j == 2 * h < m && q == Toward(m, p, even, j)
    ensures q < m && Toward(m, q, !even, j) == p && Give(m, q, !even, j) == Take(m, p, even, j)
  {
    EvenTerms(m, p, even, j, h);
    EvenTerms(m, q, !even, j, h);
  }

  lemma TermsMatch(m: nat, p: nat, even: bool, j: nat, q: nat)
    requires p < m && 1 <= j < m && q == Toward(m, p, even, j)
    ensures q < m && Toward(m, q, !even, j) == p && Give(m, q, !even, j) == Take(m, p, even, j)
  {
    if j % 2 == 1 {
      OddMatch(m, p, even, j, q, j / 2);
    } else {
      EvenMatch(m, p, even, j, q, j / 2);
    }
  }

  lemma ExchangedAt(n: nat, p: nat, even: bool, t: nat)
    requires n % 2 == 0 && p < n / 2 && 1 <= t < n / 2
    ensures var m, r := n / 2, 2 * p + (if even then 0 else 1);
      && r < n && r / 2 == p && (r % 2 == 0) == even
      && Exchanged(n, r, t) == Swap(2 * Toward(m, p, even, t) + (if even then 1 else 0),
                                    Both(Give(m, p, even, t)), Both(Take(m, p, even, t)))
  {
  }

  lemma RoundPartners(n: nat, r: nat, t: nat)
    requires n % 2 == 0 && r < n && 1 <= t < n / 2
    ensures var s := Exchanged(n, r, t);
      s.peer < n && Exchanged(n, s.peer, t) == Swap(r, s.takes, s.gives)
  {
    var m, p, even := n / 2, r / 2, r % 2 == 0;
    var q := Toward(m, p, even, t);
    TermsMatch(m, p, even, t, q);
    TermsMatch(m, q, !even, t, p);
    ExchangedAt(n, p, even, t);
    ExchangedAt(n, q, !even, t);
  }

  lemma PlanAt(n: nat, r: nat, t: nat)
    requires n % 2 == 0 && r < n && t < n / 2
    ensures ThePlan(n).swap(r, t) == Exchanged(n, r, t)
  {
  }

  lemma Partners(n: nat, r: nat, t: nat)
    requires n % 2 == 0 && r < n && t < n / 2
    ensures Mutual(ThePlan(n), StepNumber(), StepNumber(), r, t)
  {
    if t > 0 {
      RoundPartners(n, r, t);
    }
    PlanAt(n, r, t);
    PlanAt(n, Exchanged(n, r, t).peer, t);
  }

  /** How far the window reaches on the side where round `j` adds a pair, and on the other side. */
  lemma Halves(j: nat)
    requires j > 0
    ensures j % 2 == 1 ==> j / 2 == (j - 1) / 2 && (j + 1) / 2 == j / 2 + 1
    ensures j % 2 == 0 ==> j / 2 == (j - 1) / 2 + 1 && (j + 1) / 2 == j / 2
    ensures (j - 1) / 2 + j / 2 == j - 1
  {
  }

  /** The window before and after a round that reaches `back` and `fore` positions. */
  lemma WindowsOf(m: nat, p: nat, even: bool, j: nat, back: nat, fore: nat, behind: bool)
    requires p < m && 1 <= j < m && behind == (even == (j % 2 == 1))
    requires back == (if even then j / 2 else (j - 1) / 2) && fore == if even then (j - 1) / 2 else j / 2
    ensures back + fore + 1 == j
    ensures PairWindow(m, p, even, j - 1) == Rolling.Around(m, p, back, fore)
    ensures PairWindow(m, p, even, j)
         == if behind then Rolling.Around(m, p, back + 1, fore) else Rolling.Around(m, p, back, fore + 1)
    ensures Give(m, p, even, j) == if behind then Wrap(p + fore, m) else Wrap(p - back, m)
    ensures Take(m, p, even, j) == if behind then Wrap(p - back - 1, m) else Wrap(p + fore + 1, m)
  {
    var h := j / 2;
    if j % 2 == 1 {
      OddTerms(m, p, even, j, h);
    } else {
      EvenTerms(m, p, even, j, h);
    }
  }

  /** Adding a pair behind the window, or in front of it. */
  lemma WindowGrows(m: nat, p: nat, back: nat, fore: nat, behind: bool)
    requires p < m && back + fore + 1 < m
    ensures var w := Rolling.Around(m, p, back, fore);
      if behind then
        && Rolling.Around(m, p, back + 1, fore) == w + {Wrap(p - back - 1, m)}
        && Wrap(p - back - 1, m) !in w && Wrap(p + fore, m) in w
      else
        && Rolling.Around(m, p, back, fore + 1) == w + {Wrap(p + fore + 1, m)}
        && Wrap(p + fore + 1, m) !in w && Wrap(p - back, m) in w
  {
    if behind {
      Rolling.GrowBack(m, p, back, fore);
      Rolling.NearEnds(m, p, back, fore, fore);
    } else {
      Rolling.GrowFore(m, p, back, fore);
      Rolling.NearEnds(m, p, back, fore, back);
    }
  }

  lemma PairsGrow(m: nat, p: nat, even: bool, j: nat)
    requires p < m && 1 <= j < m
    ensures PairWindow(m, p, even, j) == PairWindow(m, p, even, j - 1) + {Take(m, p, even, j)}
    ensures Take(m, p, even, j) !in PairWindow(m, p, even, j - 1)
    ensures Give(m, p, even, j) in PairWindow(m, p, even, j - 1)
  {
    var back, fore, behind := if even then j / 2 else (j - 1) / 2, if even then (j - 1) / 2 else j / 2, even == (j % 2 == 1);
    WindowsOf(m, p, even, j, back, fore, behind);
    WindowGrows(m, p, back, fore, behind);
  }

  lemma BlocksGrow(pairs: set<nat>, p: nat)
    ensures BlocksOf(pairs + {p}) == BlocksOf(pairs) + set x | x in Both(p)
  {
  }

  /** A round adds exactly the two blocks it receives, which are new, and gives two blocks it holds. */
  lemma RoundGrows(n: nat, r: nat, t: nat)
    requires n % 2 == 0 && r < n && 1 <= t < n / 2
    ensures var s := Exchanged(n, r, t);
      && Blocks(n, r, t + 1) == Blocks(n, r, t) + (set x | x in s.takes)
      && (forall x :: x in s.takes ==> x !in Blocks(n, r, t))
      && (forall x :: x in s.gives ==> x in Blocks(n, r, t))
  {
    var m, p, even := n / 2, r / 2, r % 2 == 0;
    PairsGrow(m, p, even, t);
    var w, give, take := PairWindow(m, p, even, t - 1), Give(m, p, even, t), Take(m, p, even, t);
    BlocksGrow(w, take);
    BothOutside(w, take);
    BothInside(w, give);
    assert Exchanged(n, r, t).takes == Both(take) && Exchanged(n, r, t).gives == Both(give);
  }

  lemma BothInside(pairs: set<nat>, p: nat)
    requires p in pairs
    ensures forall x :: x in Both(p) ==> x in BlocksOf(pairs)
  {
  }

  lemma BothOutside(pairs: set<nat>, p: nat)
    requires p !in pairs
    ensures forall x :: x in Both(p) ==> x !in BlocksOf(pairs)
  {
  }

  lemma FirstGrows(n: nat, r: nat)
    requires n % 2 == 0 && r < n
    ensures Blocks(n, r, 1) == Blocks(n, r, 0) + set x | x in Exchanged(n, r, 0).takes
  {
    var p := r / 2;
    assert PairWindow(n / 2, p, r % 2 == 0, 0) == {p};
    assert [Partner(r)][0] == Partner(r);
  }

  lemma StepGrows(n: nat, r: nat, t: nat)
    requires n % 2 == 0 && r < n && t < n / 2
    ensures var s := Exchanged(n, r, t);
      && Blocks(n, r, t + 1) == Blocks(n, r, t) + (set x | x in s.takes)
      && (forall x :: x in s.gives ==> x in Blocks(n, r, t))
  {
    if t == 0 {
      FirstGrows(n, r);
    } else {
      RoundGrows(n, r, t);
    }
  }

  lemma Grows(n: nat, r: nat, t: nat)
    requires n % 2 == 0 && r < n && t < n / 2
    ensures Holds(ThePlan(n), Windows(n), r, t)
  {
    StepGrows(n, r, t);
    HoldsBy(ThePlan(n), Windows(n), r, t, Exchanged(n, r, t), Blocks(n, r, t), Blocks(n, r, t + 1));
  }

  lemma Ends(n: nat, r: nat, b: nat)
    requires n % 2 == 0 && r < n && b < n
    ensures b in Blocks(n, r, n / 2)
  {
    var m, p, even := n / 2, r / 2, r % 2 == 0;
    assert b / 2 in PairWindow(m, p, even, m - 1);
  }

  lemma NeighborGathers(n: nat)
    requires n % 2 == 0
    ensures Gathers(ThePlan(n), StepNumber(), StepNumber(), Windows(n))
  {
    forall r: nat, t: nat | r < n && t < n / 2
      ensures Mutual(ThePlan(n), StepNumber(), StepNumber(), r, t) && Holds(ThePlan(n), Windows(n), r, t)
    {
      Partners(n, r, t);
      Grows(n, r, t);
    }
    forall r: nat, b: nat | r < n && b < n
      ensures b in Windows(n)(r, n / 2)
    {
      Ends(n, r, b);
    }
  }

  /** Neighbour exchange, for every even group size and every interleaving. */
  lemma NeighborAllgather<V(!new)>(n: nat, data: nat -> V, run: seq<Event>)
    requires Check(n) && IsRun(NetOf(ThePlan(n), data), run)
    ensures OnItsWay(NetOf(ThePlan(n), data), data, run)
    ensures |run| == TotalWork(NetOf(ThePlan(n), data)) ==>
      AllGathered(After(NetOf(ThePlan(n), data), run), n, n, data)
  {
    NeighborGathers(n);
    PlanGathers(ThePlan(n), StepNumber(), StepNumber(), Windows(n), data, run);
  }

  /** The algorithm refuses odd groups. */
  predicate Check(groupSize: nat)
  {
    groupSize % 2 == 0
  }

  // ----- the progress loop -----

  ghost function Requests(n: nat, r: nat): nat -> Step
  {
    (t: nat) => StepOf(ThePlan(n).swap(r, t))
  }

  /** Where `recv_data_from` of a side stands before round `j`, as a pair: every round moves that of one side. */
  function From(m: nat, p: nat, even: bool, side: nat, j: nat): (x: nat)
    requires p < m && 1 <= j
    ensures x < m
  {
    if j == 1 then p
    else
      var before := From(m, p, even, side, j - 1);
      if (j - 1) % 2 != side then before
      else if even == (side == 0) then Wrap(before + 1, m)
      else Wrap(before - 1, m)
  }

  function Distance(side: nat, j: nat): nat
    requires 1 <= j
  {
    if side == 0 then (j - 1) / 2 else j / 2
  }

  /** The pair `d` in front of `p`, or behind it. */
  function Away(m: nat, p: nat, ahead: bool, d: nat): nat
    requires p < m && d < m
  {
    if ahead then Wrap(p + d, m) else Wrap(p - d, m)
  }

  lemma AwayNext(m: nat, p: nat, ahead: bool, d: nat)
    requires p < m && d + 1 < m
    ensures var x := Away(m, p, ahead, d);
      x < m && Away(m, p, ahead, d + 1) == if ahead then Wrap(x + 1, m) else Wrap(x - 1, m)
  {
  }

  lemma FromIsNext(m: nat, p: nat, even: bool, side: nat, i: nat, j: nat, d: nat)
    requires p < m && 1 <= i < m && j == i + 1 && side < 2 && d == Distance(side, i) < m
    requires From(m, p, even, side, i) == Away(m, p, even == (side == 0), d)
    ensures Distance(side, j) < m && From(m, p, even, side, j) == Away(m, p, even == (side == 0), Distance(side, j))
  {
    DistanceNext(side, i, j);
    if i % 2 == side {
      AwayNext(m, p, even == (side == 0), d);
    }
  }

  lemma {:induction false} FromIs(m: nat, p: nat, even: bool, side: nat, j: nat)
    requires p < m && 1 <= j <= m && side < 2
    ensures Distance(side, j) < m && From(m, p, even, side, j) == Away(m, p, even == (side == 0), Distance(side, j))
  {
    if j > 1 {
      FromIs(m, p, even, side, j - 1);
      FromIsNext(m, p, even, side, j - 1, j, Distance(side, j - 1));
    }
  }

  lemma DistanceNext(side: nat, i: nat, j: nat)
    requires side < 2 && 1 <= i && j == i + 1
    ensures Distance(side, j) == Distance(side, i) + if i % 2 == side then 1 else 0
    ensures Distance(side, j) < j
  {
  }

  /** A round receives the pair next to the one that `recv_data_from` stands at. */
  lemma TakeAfter(m: nat, p: nat, even: bool, j: nat)
    requires p < m && 1 <= j < m
    ensures var from := From(m, p, even, j % 2, j);
      Take(m, p, even, j) == if even == (j % 2 == 0) then Wrap(from + 1, m) else Wrap(from - 1, m)
  {
    FromIs(m, p, even, j % 2, j);
    Halves(j);
  }

  lemma FromNext(m: nat, p: nat, even: bool, j: nat)
    requires p < m && 1 <= j < m
    ensures From(m, p, even, j % 2, j + 1) == Take(m, p, even, j)
    ensures From(m, p, even, 1 - j % 2, j + 1) == From(m, p, even, 1 - j % 2, j)
  {
    TakeAfter(m, p, even, j);
  }

  /** A round passes on the pair that the round before has received. */
  lemma GiveIs(m: nat, p: nat, even: bool, j: nat)
    requires p < m && 1 <= j < m
    ensures Give(m, p, even, j) == From(m, p, even, (j - 1) % 2, j)
  {
    FromIs(m, p, even, (j - 1) % 2, j);
  }

  /** Moving `recv_data_from` by one pair keeps it even and in the group. */
  method NextPair(from: nat, offset: int, n: nat, ghost x: nat) returns (next: nat)
    requires n % 2 == 0 && from == 2 * x < n && (offset == 2 || offset == -2)
    ensures next == 2 * (if offset == 2 then Wrap(x + 1, n / 2) else Wrap(x - 1, n / 2))
    ensures next + 1 < n
  {
    next := (from + offset + n) % n;
    if from + offset == n {
      ModUnique(from + offset + n, n, 2, 0);
    } else {
      ModWrap(from + offset + n, n);
    }
  }

  /** The neighbours and offsets that the reset fills in. */
  method Sides(n: nat, rank: nat) returns (neighbor0: nat, neighbor1: nat, offset0: int, offset1: int, start: nat)
    requires n % 2 == 0 && rank < n
    ensures neighbor0 == Partner(rank)
    ensures var p, even := rank / 2, rank % 2 == 0;
      && neighbor1 == 2 * Toward(n / 2, p, even, 1) + (if even then 1 else 0)
      && offset0 == (if even then 2 else -2) && offset1 == -offset0 && start == 2 * p
  {
    var right := Successor(rank, n);
    var left := Predecessor(rank, n);
    if rank % 2 == 0 {
      neighbor0, neighbor1 := right, left;
      offset0, offset1, start := 2, -2, rank;
    } else {
      neighbor0, neighbor1 := left, right;
      offset0, offset1, start := -2, 2, neighbor0;
    }
  }

  lemma FirstIs(n: nat, r: nat)
    requires n % 2 == 0 && r < n
    ensures Requests(n, r)(0) == Step([Msg(Partner(r), [r])], [Msg(Partner(r), [Partner(r)])], None)
  {
    OneEach(Partner(r), r, Partner(r));
    assert ThePlan(n).swap(r, 0) == Exchanged(n, r, 0);
  }

  lemma RoundIs(n: nat, r: nat, t: nat, peer: nat, give: nat, take: nat)
    requires n % 2 == 0 && r < n && 1 <= t < n / 2
    requires var m, p, even := n / 2, r / 2, r % 2 == 0;
      && peer == 2 * Toward(m, p, even, t) + (if even then 1 else 0)
      && give == 2 * Give(m, p, even, t) && take == 2 * Take(m, p, even, t)
    ensures Requests(n, r)(t) == Step([Msg(peer, [give]), Msg(peer, [give + 1])],
                                      [Msg(peer, [take]), Msg(peer, [take + 1])], None)
  {
    var s := Exchanged(n, r, t);
    assert s == Swap(peer, [give, give + 1], [take, take + 1]);
    assert Singles(peer, s.gives) == [Msg(peer, [give]), Msg(peer, [give + 1])];
    assert Singles(peer, s.takes) == [Msg(peer, [take]), Msg(peer, [take + 1])];
    assert ThePlan(n).swap(r, t) == s;
  }

  /** `recv_data_from` of both sides before the receives of round `j`. */
  ghost predicate Stand(n: nat, r: nat, j: nat, from0: nat, from1: nat)
    requires n % 2 == 0 && r < n && 1 <= j <= n / 2
  {
    var m, p, even := n / 2, r / 2, r % 2 == 0;
    from0 == 2 * From(m, p, even, 0, j) && from1 == 2 * From(m, p, even, 1, j)
  }

  /** The pair that round `j` receives, and how `recv_data_from` moves. */
  method NextReceivePair(n: nat, ghost r: nat, j: nat, from0: nat, from1: nat, offset0: int, offset1: int)
    returns (from: nat, next0: nat, next1: nat)
    requires n % 2 == 0 && r < n && 1 <= j < n / 2 && Stand(n, r, j, from0, from1)
    requires offset0 == (if r % 2 == 0 then 2 else -2) && offset1 == -offset0
    ensures from == 2 * Take(n / 2, r / 2, r % 2 == 0, j) && from + 1 < n && Stand(n, r, j + 1, next0, next1)
    ensures from == if j % 2 == 0 then next0 else next1
  {
    ghost var m, p, even := n / 2, r / 2, r % 2 == 0;
    TakeAfter(m, p, even, j);
    next0, next1 := from0, from1;
    if j % 2 == 0 {
      from := NextPair(from0, offset0, n, From(m, p, even, 0, j));
      next0 := from;
    } else {
      from := NextPair(from1, offset1, n, From(m, p, even, 1, j));
      next1 := from;
    }
    StandNext(n, r, j, from0, from1, from);
  }

  lemma StandNext(n: nat, r: nat, j: nat, from0: nat, from1: nat, from: nat)
    requires n % 2 == 0 && r < n && 1 <= j < n / 2 && Stand(n, r, j, from0, from1)
    requires from == 2 * Take(n / 2, r / 2, r % 2 == 0, j)
    ensures Stand(n, r, j + 1, if j % 2 == 0 then from else from0, if j % 2 == 0 then from1 else from)
  {
    FromNext(n / 2, r / 2, r % 2 == 0, j);
  }

  ghost predicate Passes(n: nat, r: nat, j: nat, first: nat)
    requires n % 2 == 0 && r < n && 1 <= j
  {
    first == 2 * From(n / 2, r / 2, r % 2 == 0, (j - 1) % 2, j)
  }

  /** What a round has received is what the next round passes on. */
  lemma PassesOn(n: nat, r: nat, j: nat, from0: nat, from1: nat)
    requires n % 2 == 0 && r < n && 1 <= j < n / 2 && Stand(n, r, j + 1, from0, from1)
    ensures Passes(n, r, j + 1, if j % 2 == 0 then from0 else from1)
  {
  }

  ghost predicate Neighbors(n: nat, r: nat, neighbor0: nat, neighbor1: nat)
    requires n % 2 == 0 && r < n
  {
    && neighbor0 == Partner(r)
    && neighbor1 == 2 * Toward(n / 2, r / 2, r % 2 == 0, 1) + (if r % 2 == 0 then 1 else 0)
  }

  /** The requests of round `j`. */
  lemma RoundRequests(n: nat, r: nat, j: nat, neighbor0: nat, neighbor1: nat, give: nat, take: nat)
    requires n % 2 == 0 && r < n && 1 <= j < n / 2 && Neighbors(n, r, neighbor0, neighbor1)
    requires Passes(n, r, j, give) && take == 2 * Take(n / 2, r / 2, r % 2 == 0, j)
    ensures var peer := if j % 2 == 0 then neighbor0 else neighbor1;
      Requests(n, r)(j) == Step([Msg(peer, [give]), Msg(peer, [give + 1])],
                                [Msg(peer, [take]), Msg(peer, [take + 1])], None)
  {
    var peer := if j % 2 == 0 then neighbor0 else neighbor1;
    assert peer == 2 * Toward(n / 2, r / 2, r % 2 == 0, j) + (if r % 2 == 0 then 1 else 0);
    GiveIs(n / 2, r / 2, r % 2 == 0, j);
    RoundIs(n, r, j, peer, give, take);
  }

  /** The requests of round `j`, and where `recv_data_from` stands once they are posted. */
  method RoundStep(n: nat, ghost r: nat, j: nat, neighbor0: nat, neighbor1: nat, sendDataFrom: nat,
                   from0: nat, from1: nat, offset0: int, offset1: int)
    returns (step: Step, next0: nat, next1: nat)
    requires n % 2 == 0 && r < n && 1 <= j < n / 2 && Neighbors(n, r, neighbor0, neighbor1)
    requires Passes(n, r, j, sendDataFrom) && Stand(n, r, j, from0, from1)
    requires offset0 == (if r % 2 == 0 then 2 else -2) && offset1 == -offset0
    ensures step == Requests(n, r)(j) && Stand(n, r, j + 1, next0, next1)
  {
    var peer := if j % 2 == 0 then neighbor0 else neighbor1;
    var from;
    from, next0, next1 := NextReceivePair(n, r, j, from0, from1, offset0, offset1);
    RoundRequests(n, r, j, neighbor0, neighbor1, sendDataFrom, from);
    step := Step([Msg(peer, [sendDataFrom]), Msg(peer, [sendDataFrom + 1])],
                 [Msg(peer, [from]), Msg(peer, [from + 1])], None);
  }

  class NeighborOp {
    const n: nat
    const rank: nat
    var neighbor0: nat
    var neighbor1: nat
    var offset0: int
    var offset1: int
    var recvDataFrom0: nat
    var recvDataFrom1: nat
    var sendDataFrom: nat
    var loopCount: nat
    var loopMax: nat
    var phaseInit: bool
    var initSend: bool
    var initRecv: bool
    var loopSend: bool
    var loopRecv: bool
    var log: seq<Step>        // the requests posted so far

    ghost predicate Valid()
      reads this
    {
      && n % 2 == 0 && rank < n && loopMax == n / 2
      && Neighbors(n, rank, neighbor0, neighbor1) && offset0 == (if rank % 2 == 0 then 2 else -2) && offset1 == -offset0
      && 1 <= loopCount <= loopMax && initSend == initRecv && loopSend == loopRecv
      && (phaseInit ==> loopCount == 1 && loopSend) && (!phaseInit ==> !initSend)
      && (loopCount == loopMax ==> loopSend)
      && Passes(n, rank, loopCount, sendDataFrom)
      && Stand(n, rank, if loopSend then loopCount else loopCount + 1, recvDataFrom0, recvDataFrom1)
      && Begins(Requests(n, rank), log, Posted())
    }

    /** The steps whose requests have been posted. */
    ghost function Posted(): nat
      reads this
    {
      if phaseInit then (if initSend then 0 else 1) else if loopSend then loopCount else loopCount + 1
    }

    /** The steps that are complete. */
    ghost function Completed(): nat
      reads this
    {
      if phaseInit then 0 else loopCount
    }

    constructor (n: nat, rank: nat)
      requires Check(n) && rank < n
      ensures Valid() && Completed() == 0 && Posted() == 0 && this.n == n && this.rank == rank
    {
      this.n, this.rank := n, rank;
      var n0, n1, o0, o1, start := Sides(n, rank);
      neighbor0, neighbor1, offset0, offset1 := n0, n1, o0, o1;
      recvDataFrom0, recvDataFrom1, sendDataFrom := start, start, start;
      loopCount, loopMax := 1, n / 2;
      phaseInit, initSend, initRecv, loopSend, loopRecv := true, true, true, true, true;
      log := [];
    }

    method PostInit()
      requires Valid() && phaseInit
      modifies this
      ensures Valid() && phaseInit && !initSend
    {
      var sends, recvs := [], [];
      if initSend {
        initSend := false;
        sends := [Msg(neighbor0, [rank])];
      }
      if initRecv {
        initRecv := false;
        recvs := [Msg(neighbor0, [neighbor0])];
      }
      if sends != [] {
        FirstIs(n, rank);
        BeginsNext(Requests(n, rank), log, 0);
        log := log + [Step(sends, recvs, None)];
      }
    }

    /** The two flags of a round are set and cleared together. */
    method PostRound()
      requires Valid() && !phaseInit && loopCount < loopMax
      modifies this`loopSend, this`loopRecv, this`recvDataFrom0, this`recvDataFrom1, this`log
      ensures Valid() && !loopSend
    {
      if loopSend {
        BeginsNext(Requests(n, rank), log, loopCount);
        var step, next0, next1 := RoundStep(n, rank, loopCount, neighbor0, neighbor1, sendDataFrom,
                                            recvDataFrom0, recvDataFrom1, offset0, offset1);
        loopSend, loopRecv := false, false;
        recvDataFrom0, recvDataFrom1 := next0, next1;
        log := log + [step];
      }
    }

    method FinishRound()
      requires Valid() && !phaseInit && !loopSend
      modifies this`loopSend, this`loopRecv, this`sendDataFrom, this`loopCount
      ensures Valid() && loopSend && loopCount == old(loopCount) + 1
    {
      PassesOn(n, rank, loopCount, recvDataFrom0, recvDataFrom1);
      loopSend, loopRecv := true, true;
      sendDataFrom := if loopCount % 2 == 0 then recvDataFrom0 else recvDataFrom1;
      loopCount := loopCount + 1;
    }

    /** What has been posted is the beginning of the program. */
    lemma LogIsProgram()
      requires Valid()
      ensures Posted() <= n / 2 == |ProgOf(ThePlan(n), rank)| && log == ProgOf(ThePlan(n), rank)[..Posted()]
    {
      BeginsProgram(Requests(n, rank), log, Posted(), ProgOf(ThePlan(n), rank));
    }

    /** One call of the progress routine, during which the completion test succeeds `completions` times before
        it reports that requests are still under way. */
    method Progress(completions: nat) returns (done: bool)
      requires Valid()
      modifies this
      ensures Valid()
      ensures Completed() == if old(Completed()) + completions < n / 2 then old(Completed()) + completions else n / 2
      ensures done <==> Completed() == n / 2
      ensures Posted() == if done then n / 2 else Completed() + 1
      ensures log == ProgOf(ThePlan(n), rank)[..Posted()] && (done ==> log == ProgOf(ThePlan(n), rank))
    {
      var left := completions;
      if phaseInit {
        PostInit();
        if left == 0 {
          LogIsProgram();
          return false;
        }
        left := left - 1;
        phaseInit := false;
      }
      while loopCount < loopMax
        invariant Valid() && !phaseInit && loopCount + left == old(Completed()) + completions
      {
        PostRound();
        if left == 0 {
          LogIsProgram();
          return false;
        }
        left := left - 1;
        FinishRound();
      }
      LogIsProgram();
      return true;
    }
  }
}
