/** Ring-HPL allgather: in every step a rank exchanges one block with one neighbour, right and left in turn.
    In an odd group the ring has one edge whose two ends are one step apart. */
module RingHpl {
  import opened Network
  import opened Cyclic
  import opened Exchange
  import Rolling

  function Steps(n: nat): nat
  {
    if n == 0 then 0 else n - 1
  }

  /** Whether the partner of step `t` is the right neighbour; with two ranks both neighbours are the same. */
  predicate ToRight(n: nat, r: nat, t: nat)
  {
    n == 2 || (r + t) % 2 == 0
  }

  function Exchanged(n: nat, r: nat, t: nat): Swap
    requires r < n && t < Steps(n)
  {
    var h := t / 2;
    if ToRight(n, r, t) then Swap(Wrap(r + 1, n), [Wrap(r - h, n)], [Wrap(Wrap(r + 1, n) + h, n)])
    else Swap(Wrap(r - 1, n), [Wrap(r + h, n)], [Wrap(Wrap(r - 1, n) - h, n)])
  }

  ghost function ThePlan(n: nat): Plan
  {
    Plan(n, (r: nat) => Steps(n),
         (r: nat, t: nat) => if r < n && t < Steps(n) then Exchanged(n, r, t) else Swap(0, [], []))
  }

  /** The exchanges over the edge between the last rank and rank 0 of an odd group take place between the
      others. */
  ghost function Clock(n: nat): (nat, nat) -> nat
  {
    (r: nat, t: nat) =>
      (if n % 2 == 1 && r == n - 1 && t % 2 == 0 then 2 * t + 1
       else if n % 2 == 1 && r == 0 && t % 2 == 1 then 2 * t - 1
       else 2 * t) as nat
  }

  /** The step of the partner that step `t` of rank `r` meets. */
  ghost function Other(n: nat): (nat, nat) -> nat
  {
    (r: nat, t: nat) =>
      (if n % 2 == 1 && r == n - 1 && t % 2 == 0 then t + 1
       else if n % 2 == 1 && r == 0 && t % 2 == 1 then t - 1
       else t) as nat
  }

  /** The blocks held after `h` rounds of two steps, or (`half`) one step later. */
  function Window(n: nat, r: nat, h: nat, half: bool): set<nat>
    requires r < n
  {
    Rolling.Around(n, r, if half && r % 2 == 1 then h + 1 else h, if half && r % 2 == 0 then h + 1 else h)
  }

  /** The window before step `t`. */
  function WindowAt(n: nat, r: nat, t: nat): set<nat>
    requires r < n
  {
    Window(n, r, t / 2, t % 2 == 1)
  }

  ghost function Windows(n: nat): (nat, nat) -> set<nat>
  {
    (r: nat, t: nat) => if r >= n then {} else WindowAt(n, r, t)
  }

  /** The partner of an exchange, in a form that does not depend on which of the two asks. */
  lemma SameExchange(n: nat, r: nat, p: nat, h: nat)
    requires r < n && p < n && h < n && p == Wrap(r + 1, n)
    ensures Wrap(p - 1, n) == r
    ensures Swap(r, [Wrap(p + h, n)], [Wrap(Wrap(p - 1, n) - h, n)])
         == Swap(r, [Wrap(Wrap(r + 1, n) + h, n)], [Wrap(r - h, n)])
  {
  }

  /** The right neighbour sees a rightward exchange as its leftward one, and the other way round. */
  lemma Sides(n: nat, r: nat, t: nat, p: nat, u: nat)
    requires r < n && p < n && t < Steps(n) && u < Steps(n) && t / 2 == u / 2
    requires if ToRight(n, r, t) then p == Wrap(r + 1, n) else p == Wrap(r - 1, n)
    requires n == 2 || ToRight(n, r, t) != ToRight(n, p, u)
    ensures Exchanged(n, r, t).peer == p
    ensures Exchanged(n, p, u) == Swap(r, Exchanged(n, r, t).takes, Exchanged(n, r, t).gives)
  {
    if ToRight(n, r, t) {
      SameExchange(n, r, p, t / 2);
    } else {
      assert r == Wrap(p + 1, n);
      SameExchange(n, p, r, t / 2);
    }
  }

  /** The step that the other end of an exchange is in: one apart on the edge between the last rank and rank 0 of an
      odd group. */
  lemma OtherStep(n: nat, r: nat, t: nat)
    requires r < n && t < Steps(n)
    ensures var p, u := if ToRight(n, r, t) then Wrap(r + 1, n) else Wrap(r - 1, n), Other(n)(r, t);
      && u < Steps(n) && t / 2 == u / 2 && Clock(n)(p, u) == Clock(n)(r, t)
      && (n == 2 || ToRight(n, r, t) != ToRight(n, p, u))
  {
  }

  lemma Partners(n: nat, r: nat, t: nat)
    requires r < n && t < Steps(n)
    ensures Mutual(ThePlan(n), Clock(n), Other(n), r, t)
  {
    var p := if ToRight(n, r, t) then Wrap(r + 1, n) else Wrap(r - 1, n);
    var u := Other(n)(r, t);
    OtherStep(n, r, t);
    Sides(n, r, t, p, u);
    PlanAt(n, r, t);
    PlanAt(n, p, u);
  }

  lemma PlanAt(n: nat, r: nat, t: nat)
    requires r < n && t < Steps(n)
    ensures ThePlan(n).swap(r, t) == Exchanged(n, r, t)
  {
  }

  /** Whether the window of rank `r` grows in front in step `t`. */
  predicate GrowsFore(r: nat, t: nat)
  {
    (r + t) % 2 == 0
  }

  lemma Terms(n: nat, r: nat, t: nat)
    requires r < n && t < Steps(n)
    ensures var h, s := t / 2, Exchanged(n, r, t);
      && s.gives == [if GrowsFore(r, t) then Wrap(r - h, n) else Wrap(r + h, n)]
      && s.takes == [if GrowsFore(r, t) then Wrap(r + h + 1, n) else Wrap(r - h - 1, n)]
  {
  }

  lemma SingletonOf(x: nat)
    ensures (set y | y in [x]) == {x}
  {
    assert x in [x];
  }

  lemma WindowMoves(n: nat, r: nat, h: nat, half: bool)
    requires r < n && 2 * h + (if half then 1 else 0) < Steps(n)
    ensures var fore := (r % 2 == 0) != half;
      && (if half then Window(n, r, h + 1, false) else Window(n, r, h, true))
         == Window(n, r, h, half) + {if fore then Wrap(r + h + 1, n) else Wrap(r - h - 1, n)}
      && (if fore then Wrap(r + h + 1, n) else Wrap(r - h - 1, n)) !in Window(n, r, h, half)
      && (if fore then Wrap(r - h, n) else Wrap(r + h, n)) in Window(n, r, h, half)
  {
    var back := if half && r % 2 == 1 then h + 1 else h;
    var fore := if half && r % 2 == 0 then h + 1 else h;
    Rolling.NearEnds(n, r, back, fore, h);
    if (r % 2 == 0) != half {
      Rolling.GrowFore(n, r, back, fore);
    } else {
      Rolling.GrowBack(n, r, back, fore);
    }
  }

  /** A step sends a held block and adds the block it receives, which is new. */
  lemma WindowStep(n: nat, r: nat, t: nat)
    requires r < n && t < Steps(n)
    ensures WindowAt(n, r, t + 1)
         == WindowAt(n, r, t) + {if GrowsFore(r, t) then Wrap(r + t / 2 + 1, n) else Wrap(r - t / 2 - 1, n)}
    ensures (if GrowsFore(r, t) then Wrap(r + t / 2 + 1, n) else Wrap(r - t / 2 - 1, n)) !in WindowAt(n, r, t)
    ensures (if GrowsFore(r, t) then Wrap(r - t / 2, n) else Wrap(r + t / 2, n)) in WindowAt(n, r, t)
  {
    HalfSteps(r, t);
    WindowMovesAt(n, r, t, t / 2, t % 2 == 1, WindowAt(n, r, t), WindowAt(n, r, t + 1));
  }

  lemma WindowMovesAt(n: nat, r: nat, t: nat, h: nat, half: bool, before: set<nat>, after: set<nat>)
    requires r < n && t == 2 * h + (if half then 1 else 0) < Steps(n)
    requires before == Window(n, r, h, half) && after == if half then Window(n, r, h + 1, false) else Window(n, r, h, true)
    ensures after == before + {if GrowsFore(r, t) then Wrap(r + h + 1, n) else Wrap(r - h - 1, n)}
    ensures (if GrowsFore(r, t) then Wrap(r + h + 1, n) else Wrap(r - h - 1, n)) !in before
    ensures (if GrowsFore(r, t) then Wrap(r - h, n) else Wrap(r + h, n)) in before
  {
    WindowMoves(n, r, h, half);
    assert GrowsFore(r, t) <==> (r % 2 == 0) != half;
  }

  lemma HalfSteps(r: nat, t: nat)
    ensures t % 2 == 1 ==> (t + 1) / 2 == t / 2 + 1 && (t + 1) % 2 == 0
    ensures t % 2 == 0 ==> (t + 1) / 2 == t / 2 && (t + 1) % 2 == 1
    ensures GrowsFore(r, t) <==> (r % 2 == 0) != (t % 2 == 1)
    ensures 2 * (t / 2) + (if t % 2 == 1 then 1 else 0) == t
  {
  }

  lemma Grows(n: nat, r: nat, t: nat)
    requires r < n && t < Steps(n)
    ensures Holds(ThePlan(n), Windows(n), r, t)
  {
    Terms(n, r, t);
    WindowStep(n, r, t);
    var s := Exchanged(n, r, t);
    SingletonOf(s.takes[0]);
    PlanAt(n, r, t);
    HoldsBy(ThePlan(n), Windows(n), r, t, s, WindowAt(n, r, t), WindowAt(n, r, t + 1));
  }

  lemma RingHplGathers(n: nat)
    ensures Gathers(ThePlan(n), Clock(n), Other(n), Windows(n))
  {
    forall r: nat, t: nat | r < n && t < Steps(n)
      ensures Mutual(ThePlan(n), Clock(n), Other(n), r, t) && Holds(ThePlan(n), Windows(n), r, t)
    {
      Partners(n, r, t);
      Grows(n, r, t);
    }
    forall r: nat | r < n
      ensures Windows(n)(r, 0) == {r} && forall b: nat :: b < n ==> b in Windows(n)(r, Steps(n))
    {
    }
  }

  /** Ring-HPL allgather, for every group size and every interleaving. */
  lemma RingHplAllgather<V(!new)>(n: nat, data: nat -> V, run: seq<Event>)
    requires IsRun(NetOf(ThePlan(n), data), run)
    ensures OnItsWay(NetOf(ThePlan(n), data), data, run)
    ensures |run| == TotalWork(NetOf(ThePlan(n), data)) ==>
      AllGathered(After(NetOf(ThePlan(n), data), run), n, n, data)
  {
    RingHplGathers(n);
    PlanGathers(ThePlan(n), Clock(n), Other(n), Windows(n), data, run);
  }

  // ----- the progress loop -----

  ghost function Requests(n: nat, r: nat): nat -> Step
  {
    (t: nat) => StepOf(ThePlan(n).swap(r, t))
  }

  /** The partner and the blocks of a step, as the loop computes them. */
  method StepRequests(n: nat, rank: nat, idx: nat) returns (peer: nat, give: nat, take: nat)
    requires rank < n && idx < Steps(n)
    ensures Swap(peer, [give], [take]) == Exchanged(n, rank, idx)
  {
    var left := Predecessor(rank, n);
    var right := Successor(rank, n);
    peer := if (rank + idx) % 2 != 0 then left else right;
    ghost var h := idx / 2;
    if peer == right {
      give := (rank - idx / 2 + n) % n;
      take := (peer + idx / 2 + n) % n;
      ModWraps(rank, h, n);
      ModWraps(peer, h, n);
    } else {
      give := (rank + idx / 2 + n) % n;
      take := (peer - idx / 2 + n) % n;
      ModWraps(rank, h, n);
      ModWraps(peer, h, n);
    }
  }

  lemma ModWraps(x: nat, h: nat, n: nat)
    requires x < n && h < n
    ensures (x - h + n) % n == Wrap(x - h, n) && (x + h + n) % n == Wrap(x + h, n)
  {
    ModWrap(x - h + n, n);
    if x + h < n {
      ModWrap(x + h + n, n);
    } else {
      ModUnique(x + h + n, n, 2, x + h - n);
    }
  }

  lemma StepIs(n: nat, r: nat, t: nat, peer: nat, give: nat, take: nat)
    requires r < n && t < Steps(n) && Swap(peer, [give], [take]) == Exchanged(n, r, t)
    ensures Requests(n, r)(t) == Step([Msg(peer, [give])], [Msg(peer, [take])], None)
  {
    PlanAt(n, r, t);
    assert Requests(n, r)(t) == StepOf(Swap(peer, [give], [take]));
    OneEach(peer, give, take);
  }

  class RingHplOp {
    const n: nat
    const rank: nat
    var idx: nat              // the ring iterator
    var sendFlag: bool        // the send of the current step still has to be posted
    var recvFlag: bool
    var log: seq<Step>        // the requests posted so far

    ghost predicate Valid()
      reads this
    {
      && rank < n && idx <= Steps(n) && sendFlag == recvFlag && (idx == Steps(n) ==> sendFlag)
      && Begins(Requests(n, rank), log, if sendFlag then idx else idx + 1)
    }

    constructor (n: nat, rank: nat)
      requires rank < n
      ensures Valid() && idx == 0 && sendFlag && this.n == n && this.rank == rank
    {
      this.n, this.rank, idx, sendFlag, recvFlag, log := n, rank, 0, true, true, [];
    }

    /** One call of the progress routine, during which the completion test succeeds `completions` times before
        it reports that requests are still under way. */
    method Progress(completions: nat) returns (done: bool)
      requires Valid()
      modifies this
      ensures Valid()
      ensures idx == if old(idx) + completions < Steps(n) then old(idx) + completions else Steps(n)
      ensures done <==> idx == Steps(n)
      ensures log == ProgOf(ThePlan(n), rank)[..if done then idx else idx + 1]
      ensures done ==> log == ProgOf(ThePlan(n), rank)
    {
      var left := completions;
      while idx < n - 1
        invariant Valid() && idx + left == old(idx) + completions
      {
        var peer, give, take := StepRequests(n, rank, idx);
        var sends, recvs := [], [];
        if sendFlag {
          sendFlag := false;
          sends := [Msg(peer, [give])];
        }
        if recvFlag {
          recvFlag := false;
          recvs := [Msg(peer, [take])];
        }
        if sends != [] || recvs != [] {
          BeginsNext(Requests(n, rank), log, idx);
          StepIs(n, rank, idx, peer, give, take);
          log := log + [Step(sends, recvs, None)];
        }
        if left == 0 {
          BeginsProgram(Requests(n, rank), log, idx + 1, ProgOf(ThePlan(n), rank));
          return false;
        }
        left := left - 1;
        idx := idx + 1;
        sendFlag, recvFlag := true, true;
      }
      BeginsProgram(Requests(n, rank), log, idx, ProgOf(ThePlan(n), rank));
      return true;
    }
  }
}
