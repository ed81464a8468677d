/** Where a rank keeps the blocks of a scatterv or gatherv over the tree.  Blocks that are passed on wait in the staging
    area, one behind the other; the root has all blocks in the caller's buffer. */
module TreePlaces {
  import opened KntreeIter
  import opened TreeOrder
  import opened Items
  import opened TreeScatter
  import opened TreeGather
  import opened TreeMemory

  /** The space of the first `i` blocks behind `v`. */
  function Offset(s: Setup, v: nat, i: nat): nat
    requires Fits(s) && v + i < s.n
  {
    if i == 0 then 0 else Offset(s, v, i - 1) + TableCount(s, v + i)
  }

  /** Where rank `v` keeps a block, whether it comes or goes; `user` are the caller's displacements, which matter at the
      root only. */
  function PlaceOf(s: Setup, user: seq<nat>, v: nat, block: nat): Place
    requires Fits(s) && |user| == s.n && v < s.n && block < s.n
  {
    var w := Virt(s, block);
    if v == 0 then Place(User, user[block])
    else if w <= v then Place(Own, 0)
    else Place(Staging, Offset(s, v, w - v - 1))
  }

  /** The staged blocks do not overlap, and they fill the area. */
  lemma {:induction false} StagingApart(s: Setup, v: nat, i: nat, j: nat)
    requires Fits(s) && i <= j && v + j < s.n
    ensures Offset(s, v, i) <= Offset(s, v, j)
    ensures i < j ==> Offset(s, v, i) + TableCount(s, v + i + 1) <= Offset(s, v, j)
    decreases j - i
  {
    if i + 1 < j {
      StagingApart(s, v, i, j - 1);
    }
  }

  /** The items logged, whatever their places. */
  function ItemsOf(log: seq<Access>): seq<Item>
  {
    seq(|log|, i requires 0 <= i < |log| => log[i].item)
  }

  /** Every logged access is at the place of its block. */
  ghost predicate InPlace(s: Setup, user: seq<nat>, v: nat, log: seq<Access>)
    requires Fits(s) && |user| == s.n && v < s.n
  {
    forall i: nat :: i < |log| ==> log[i].item.block < s.n && log[i].place == PlaceOf(s, user, v, log[i].item.block)
  }

  // ----- places do not overlap -----

  /** The caller's buffer has the blocks apart from each other. */
  predicate UserApart(s: Setup, user: seq<nat>)
    requires Fits(s) && |user| == s.n
  {
    forall b: nat, c: nat :: b < s.n && c < s.n && b != c && s.counts[b] > 0 && s.counts[c] > 0 ==>
      user[b] + s.counts[b] <= user[c] || user[c] + s.counts[c] <= user[b]
  }

  /** A message of `v` carries a block of its subtree, with the count that `v` knows. */
  predicate ItemFits(s: Setup, v: nat, it: Item)
    requires Fits(s) && v < s.n
  {
    && it.block < s.n && v <= Virt(s, it.block)
    && it.count == if v == 0 || Virt(s, it.block) == v then s.counts[it.block] else s.table[it.block]
  }

  lemma ScatterFits(s: Setup, v: nat, it: Item)
    requires Fits(s) && v < s.n && it in ScatterItems(s, v)
    ensures ItemFits(s, v, it) && (v == 0 ==> it.sending)
  {
    var c, i := TreeScatter.OnTree(s, v, it);
  }

  lemma GatherFits(s: Setup, v: nat, it: Item)
    requires Fits(s) && v < s.n && it in GatherItems(s, v)
    ensures ItemFits(s, v, it) && (v == 0 ==> !it.sending)
  {
    var c, i := TreeGather.OnTree(s, v, it);
  }

  lemma RangesApart(a: Access, b: Access)
    requires a.item.count > 0 && b.item.count > 0 ==>
      a.place.offset + a.item.count <= b.place.offset || b.place.offset + b.item.count <= a.place.offset
    ensures Apart(a, b)
  {
  }

  lemma AccessesFit(s: Setup, user: seq<nat>, v: nat, a: Access, b: Access)
    requires Fits(s) && |user| == s.n && v < s.n && ItemFits(s, v, a.item) && ItemFits(s, v, b.item)
    requires a.place == PlaceOf(s, user, v, a.item.block) && b.place == PlaceOf(s, user, v, b.item.block)
    requires v == 0 ==> UserApart(s, user)
    ensures TreeMemory.Fit(a, b)
  {
    var w, x := Virt(s, a.item.block), Virt(s, b.item.block);
    if a.item.block != b.item.block {
      assert w != x;
      if v == 0 {
        RangesApart(a, b);
      } else if v == w || v == x {
        AreasApart(a, b);
      } else {
        StagedApart(s, v, w, x, a, b);
      }
    }
  }

  lemma AreasApart(a: Access, b: Access)
    requires a.place.area != b.place.area
    ensures Apart(a, b)
  {
  }

  lemma StagedApart(s: Setup, v: nat, w: nat, x: nat, a: Access, b: Access)
    requires Fits(s) && v < w < s.n && v < x < s.n && w != x
    requires a.place == Place(Staging, Offset(s, v, w - v - 1)) && a.item.count == TableCount(s, w)
    requires b.place == Place(Staging, Offset(s, v, x - v - 1)) && b.item.count == TableCount(s, x)
    ensures Apart(a, b)
  {
    if w < x {
      StagingApart(s, v, w - v - 1, x - v - 1);
    } else {
      StagingApart(s, v, x - v - 1, w - v - 1);
    }
    RangesApart(a, b);
  }

  lemma LogTidy(s: Setup, user: seq<nat>, v: nat, log: seq<Access>)
    requires Fits(s) && |user| == s.n && v < s.n && InPlace(s, user, v, log) && (v == 0 ==> UserApart(s, user))
    requires forall i: nat :: i < |log| ==> ItemFits(s, v, log[i].item)
    ensures Tidy(log)
  {
    forall i: nat, j: nat | i < |log| && j < |log| ensures TreeMemory.Fit(log[i], log[j]) {
      AccessesFit(s, user, v, log[i], log[j]);
    }
  }

  // ----- scatterv -----

  lemma LogItem(log: seq<Access>, items: seq<Item>, u: nat)
    requires ItemsOf(log) == items && u < |log|
    ensures |log| == |items| && items[u] == log[u].item && log[u].item in items
  {
    assert ItemsOf(log)[u] == log[u].item;
  }

  lemma ScatterTidy(s: Setup, user: seq<nat>, v: nat, log: seq<Access>)
    requires Fits(s) && |user| == s.n && v < s.n && InPlace(s, user, v, log) && (v == 0 ==> UserApart(s, user))
    requires ItemsOf(log) == ScatterItems(s, v)
    ensures Tidy(log)
  {
    forall i: nat | i < |log| ensures ItemFits(s, v, log[i].item) {
      LogItem(log, ScatterItems(s, v), i);
      ScatterFits(s, v, log[i].item);
    }
    LogTidy(s, user, v, log);
  }

  /** The caller's buffer holds all blocks. */
  ghost predicate UserHolds<V(!new)>(mem: Cell -> V, s: Setup, user: seq<nat>, data: nat -> V)
    requires Fits(s) && |user| == s.n
  {
    forall b: nat :: b < s.n ==> HoldsBlock(mem, Place(User, user[b]), s.n, b, s.counts[b], data)
  }

  /** At the root nothing is received, and every send reads from the caller's buffer. */
  lemma RootReads<V(!new)>(s: Setup, user: seq<nat>, log: seq<Access>, mem: Cell -> V, data: nat -> V)
    requires Fits(s) && |user| == s.n && InPlace(s, user, 0, log) && ItemsOf(log) == ScatterItems(s, 0)
    requires UserHolds(mem, s, user, data)
    ensures ReadsRight(mem, log, s.n, data)
  {
    forall i: nat | i < |log| ensures log[i].item.sending && ItemFits(s, 0, log[i].item) {
      LogItem(log, ScatterItems(s, 0), i);
      ScatterFits(s, 0, log[i].item);
    }
    forall u: nat | u < |log| ensures Holds(Memory(mem, log[..u], s.n, data), log[u], s.n, data) {
      OnlySends(mem, log[..u], s.n, data);
      var b := log[u].item.block;
      HoldsSame(mem, BlockAt(Place(User, user[b]), b, s.counts[b]), log[u], s.n, data);
    }
  }

  /** The other ranks read a block where they have stored it. */
  lemma StagedReads<V(!new)>(s: Setup, user: seq<nat>, v: nat, log: seq<Access>, mem: Cell -> V, data: nat -> V)
    requires Fits(s) && |user| == s.n && 0 < v < s.n && InPlace(s, user, v, log) && ItemsOf(log) == ScatterItems(s, v)
    ensures ReadsRight(mem, log, s.n, data)
  {
    ScatterTidy(s, user, v, log);
    forall u: nat | u < |log| && log[u].item.sending ensures ThereBefore(mem, log, u, s.n, data) {
      LogItem(log, ScatterItems(s, v), u);
      var c, i := TreeScatter.OnTree(s, v, log[u].item);
      SendsAfter(s, v, u);
      ReceivedBefore(s, v, c, i);
      var t: nat :| t < |RecvItems(s, v)| && var it := ScatterItems(s, v)[t];
        !it.sending && it.block == Act(s, c + i) && it.count == TableCount(s, c + i);
      LogItem(log, ScatterItems(s, v), t);
    }
    ReadsRightBy(mem, log, s.n, data);
  }

  /** In the end a rank other than the root has its own block in its own buffer. */
  lemma OwnArrives<V(!new)>(s: Setup, user: seq<nat>, v: nat, log: seq<Access>, mem: Cell -> V, data: nat -> V)
    requires Fits(s) && |user| == s.n && 0 < v < s.n && InPlace(s, user, v, log) && ItemsOf(log) == ScatterItems(s, v)
    ensures HoldsBlock(Memory(mem, log, s.n, data), Place(Own, 0), s.n, Act(s, v), RootCount(s, v), data)
  {
    ScatterTidy(s, user, v, log);
    assert ScatterItems(s, v)[0] == RecvItems(s, v)[0] == RecvItem(s, v, 0);
    LogItem(log, ScatterItems(s, v), 0);
    ReceivedHolds(mem, log, 0, BlockAt(Place(Own, 0), Act(s, v), RootCount(s, v)), |log|, s.n, data);
    assert log[..|log|] == log;
  }

  // ----- gatherv -----

  lemma GatherTidy(s: Setup, user: seq<nat>, v: nat, log: seq<Access>)
    requires Fits(s) && |user| == s.n && v < s.n && InPlace(s, user, v, log) && (v == 0 ==> UserApart(s, user))
    requires ItemsOf(log) == GatherItems(s, v)
    ensures Tidy(log)
  {
    forall i: nat | i < |log| ensures ItemFits(s, v, log[i].item) {
      LogItem(log, GatherItems(s, v), i);
      GatherFits(s, v, log[i].item);
    }
    LogTidy(s, user, v, log);
  }

  /** A rank other than the root reads its own block from its own buffer and the others where it has stored them. */
  lemma UpReads<V(!new)>(s: Setup, user: seq<nat>, v: nat, log: seq<Access>, mem: Cell -> V, data: nat -> V)
    requires Fits(s) && |user| == s.n && 0 < v < s.n && InPlace(s, user, v, log) && ItemsOf(log) == GatherItems(s, v)
    requires HoldsBlock(mem, Place(Own, 0), s.n, Act(s, v), RootCount(s, v), data)
    ensures ReadsRight(mem, log, s.n, data)
  {
    GatherTidy(s, user, v, log);
    forall u: nat | u < |log| && log[u].item.sending ensures ThereBefore(mem, log, u, s.n, data) {
      LogItem(log, GatherItems(s, v), u);
      var c, i := TreeGather.OnTree(s, v, log[u].item);
      if i == 0 {
        HoldsSame(mem, BlockAt(Place(Own, 0), Act(s, v), RootCount(s, v)), log[u], s.n, data);
      } else {
        KidsBelow(s.n, v);
        var t := ReceivedFromKid(s, v, i);
        SendsBehind(s, v, u);
        FrontOf(s, v, t);
        LogItem(log, GatherItems(s, v), t);
      }
    }
    ReadsRightBy(mem, log, s.n, data);
  }

  /** The root sends nothing. */
  lemma RootOnlyReceives<V(!new)>(s: Setup, log: seq<Access>, mem: Cell -> V, data: nat -> V)
    requires Fits(s) && ItemsOf(log) == GatherItems(s, 0)
    ensures ReadsRight(mem, log, s.n, data)
  {
    forall u: nat | u < |log| ensures !log[u].item.sending {
      LogItem(log, GatherItems(s, 0), u);
      GatherFits(s, 0, log[u].item);
    }
  }

  /** In the end the root has every block at the caller's place for it, its own if it was there before. */
  lemma RootCollects<V(!new)>(s: Setup, user: seq<nat>, log: seq<Access>, mem: Cell -> V, data: nat -> V)
    requires Fits(s) && |user| == s.n && InPlace(s, user, 0, log) && ItemsOf(log) == GatherItems(s, 0)
    requires UserApart(s, user)
    requires HoldsBlock(mem, Place(User, user[s.root]), s.n, s.root, s.counts[s.root], data)
    ensures UserHolds(Memory(mem, log, s.n, data), s, user, data)
  {
    forall b: nat | b < s.n
      ensures HoldsBlock(Memory(mem, log, s.n, data), Place(User, user[b]), s.n, b, s.counts[b], data)
    {
      RootCollectsBlock(s, user, log, mem, data, b);
    }
  }

  lemma RootCollectsBlock<V(!new)>(s: Setup, user: seq<nat>, log: seq<Access>, mem: Cell -> V, data: nat -> V, b: nat)
    requires Fits(s) && |user| == s.n && InPlace(s, user, 0, log) && ItemsOf(log) == GatherItems(s, 0)
    requires UserApart(s, user) && b < s.n
    requires HoldsBlock(mem, Place(User, user[s.root]), s.n, s.root, s.counts[s.root], data)
    ensures HoldsBlock(Memory(mem, log, s.n, data), Place(User, user[b]), s.n, b, s.counts[b], data)
  {
    var a := BlockAt(Place(User, user[b]), b, s.counts[b]);
    assert log[..|log|] == log && log[..0] == [];
    RootIsZero(s);
    if b == s.root {
      forall i: nat | i < |log| ensures TreeMemory.Fit(a, log[i]) {
        LogItem(log, GatherItems(s, 0), i);
        GatherFits(s, 0, log[i].item);
        AccessesFit(s, user, 0, a, log[i]);
      }
      HoldsOn(mem, log, a, 0, |log|, s.n, data);
    } else if s.counts[b] > 0 {
      GatherTidy(s, user, 0, log);
      var t := ArrivesAtRoot(s, log, b);
      ReceivedHolds(mem, log, t, a, |log|, s.n, data);
    }
  }

  lemma ArrivesAtRoot(s: Setup, log: seq<Access>, b: nat) returns (t: nat)
    requires Fits(s) && ItemsOf(log) == GatherItems(s, 0) && b < s.n && b != s.root && s.counts[b] > 0
    ensures t < |log| && !log[t].item.sending && log[t].item.block == b && log[t].item.count == s.counts[b]
  {
    RootIsZero(s);
    var w := Virt(s, b);
    var c := ChildOfRoot(s.n, w);
    var it := RootReceives(s, c, w - c, b);
    assert it in ItemsOf(log);
    t :| t < |ItemsOf(log)| && ItemsOf(log)[t] == it;
  }

  // ----- what the routines promise about memory -----

  /** The root takes every block from the caller's place for it. */
  ghost predicate AtUser(s: Setup, user: seq<nat>, log: seq<Access>)
    requires Fits(s) && |user| == s.n
  {
    forall i: nat :: i < |log| ==> log[i].item.block < s.n && log[i].place == Place(User, user[log[i].item.block])
  }

  lemma RootAtUser(s: Setup, user: seq<nat>, log: seq<Access>)
    requires Fits(s) && |user| == s.n && InPlace(s, user, 0, log)
    ensures AtUser(s, user, log)
  {
  }

  /** Scatterv: if the root's buffer holds all blocks, every send of every rank reads the elements of its block, and
      a rank other than the root ends with its own block in its own buffer. */
  ghost predicate ScatterMemory<V(!new)>(s: Setup, user: seq<nat>, r: nat, log: seq<Access>, mem: Cell -> V, data: nat -> V)
    requires Fits(s) && |user| == s.n && r < s.n
  {
    && ((r == s.root ==> UserHolds(mem, s, user, data)) ==> ReadsRight(mem, log, s.n, data))
    && (r != s.root ==> HoldsBlock(Memory(mem, log, s.n, data), Place(Own, 0), s.n, r, s.counts[r], data))
  }

  lemma ScatterMemoryOk<V(!new)>(s: Setup, user: seq<nat>, r: nat, log: seq<Access>, mem: Cell -> V, data: nat -> V)
    requires Fits(s) && |user| == s.n && r < s.n && InPlace(s, user, Virt(s, r), log) && ItemsOf(log) == Scatter(s)(r)
    ensures ScatterMemory(s, user, r, log, mem, data)
    ensures r != s.root || UserApart(s, user) ==> Tidy(log)
    ensures r == s.root ==> AtUser(s, user, log)
  {
    RootIsZero(s);
    var v := Virt(s, r);
    if v == 0 {
      assert r == s.root;
      RootAtUser(s, user, log);
      if UserHolds(mem, s, user, data) {
        RootReads(s, user, log, mem, data);
      }
      if UserApart(s, user) {
        ScatterTidy(s, user, 0, log);
      }
    } else {
      ScatterTidy(s, user, v, log);
      StagedReads(s, user, v, log, mem, data);
      OwnArrives(s, user, v, log, mem, data);
    }
  }

  /** Gatherv: if a rank has its own block, every send reads the elements of its block, and the root ends with all
      blocks at the caller's places, provided that these do not overlap. */
  ghost predicate GatherMemory<V(!new)>(s: Setup, user: seq<nat>, r: nat, log: seq<Access>, mem: Cell -> V, data: nat -> V)
    requires Fits(s) && |user| == s.n && r < s.n
  {
    HoldsBlock(mem, Place(if r == s.root then User else Own, if r == s.root then user[r] else 0), s.n, r, s.counts[r], data) ==>
      && ReadsRight(mem, log, s.n, data)
      && (r == s.root && UserApart(s, user) ==> UserHolds(Memory(mem, log, s.n, data), s, user, data))
  }

  lemma GatherMemoryOk<V(!new)>(s: Setup, user: seq<nat>, r: nat, log: seq<Access>, mem: Cell -> V, data: nat -> V)
    requires Fits(s) && |user| == s.n && r < s.n && InPlace(s, user, Virt(s, r), log) && ItemsOf(log) == Gather(s)(r)
    ensures GatherMemory(s, user, r, log, mem, data)
    ensures r != s.root || UserApart(s, user) ==> Tidy(log)
    ensures r == s.root ==> AtUser(s, user, log)
  {
    RootIsZero(s);
    var v := Virt(s, r);
    if v == 0 {
      assert r == s.root;
      RootAtUser(s, user, log);
      RootOnlyReceives(s, log, mem, data);
      if UserApart(s, user) {
        GatherTidy(s, user, 0, log);
        if HoldsBlock(mem, Place(User, user[r]), s.n, r, s.counts[r], data) {
          RootCollects(s, user, log, mem, data);
        }
      }
    } else {
      GatherTidy(s, user, v, log);
      if HoldsBlock(mem, Place(Own, 0), s.n, r, s.counts[r], data) {
        UpReads(s, user, v, log, mem, data);
      }
    }
  }
}
