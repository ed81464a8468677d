/** Gatherv over the binomial tree with blocking calls: scatterv backwards, except that a rank first receives the
    blocks of its subtree and then passes them on, and that empty blocks are not sent at all. */
module TreeGather {
  import opened Network
  import opened Rendezvous
  import opened Kntree
  import opened KntreeIter
  import opened TreeOrder
  import opened Items
  import opened TreeScatter

  /** A message in the other direction. */
  function Flip(it: Item): Item
  {
    it.(sending := !it.sending)
  }

  function Unless(it: Item): seq<Item>
  {
    if it.count > 0 then [it] else []
  }

  /** The first `m` messages that `v` receives from its child `c`. */
  function RecvsFrom(s: Setup, v: nat, c: nat, m: nat): seq<Item>
    requires Fits(s) && v < s.n && c < s.n && c + m <= s.n
  {
    if m == 0 then [] else RecvsFrom(s, v, c, m - 1) + Unless(Flip(SendItem(s, v, c, m - 1)))
  }

  function RecvsAll(s: Setup, v: nat, kids: seq<nat>): seq<Item>
    requires Fits(s) && v < s.n && AllBelow(kids, s.n)
  {
    if kids == [] then [] else RecvsFrom(s, v, kids[0], SizeOf(s.n, kids[0])) + RecvsAll(s, v, kids[1..])
  }

  /** The first `m` messages that `v` sends to its parent. */
  function SendsUp(s: Setup, v: nat, m: nat): seq<Item>
    requires Fits(s) && 0 < v < s.n && v + m <= s.n
  {
    SendsVia(s, ParentOf(s.n, v), v, m)
  }

  function SendsVia(s: Setup, p: nat, v: nat, m: nat): seq<Item>
    requires Fits(s) && p < s.n && v < s.n && v + m <= s.n
  {
    if m == 0 then [] else SendsVia(s, p, v, m - 1) + Unless(Flip(RecvVia(s, p, v, m - 1)))
  }

  function GatherItems(s: Setup, v: nat): seq<Item>
    requires Fits(s) && v < s.n
  {
    KidsBelow(s.n, v);
    RecvsAll(s, v, KidsOf(s.n, v)) + if v == 0 then [] else SendsUp(s, v, SizeOf(s.n, v))
  }

  ghost function Gather(s: Setup): nat -> seq<Item>
    requires Fits(s)
  {
    (r: nat) => if r < s.n then GatherItems(s, Virt(s, r)) else []
  }

  // ----- membership -----

  lemma {:induction false} FromMember(s: Setup, v: nat, c: nat, m: nat, it: Item) returns (i: nat)
    requires Fits(s) && v < s.n && c < s.n && c + m <= s.n && it in RecvsFrom(s, v, c, m)
    ensures i < m && it == Flip(SendItem(s, v, c, i)) && it.count > 0
  {
    if it in RecvsFrom(s, v, c, m - 1) {
      i := FromMember(s, v, c, m - 1, it);
    } else {
      i := m - 1;
    }
  }

  lemma {:induction false} FromHas(s: Setup, v: nat, c: nat, m: nat, i: nat)
    requires Fits(s) && v < s.n && c < s.n && i < m && c + m <= s.n && SendItem(s, v, c, i).count > 0
    ensures Flip(SendItem(s, v, c, i)) in RecvsFrom(s, v, c, m)
  {
    if i < m - 1 {
      FromHas(s, v, c, m - 1, i);
    }
  }

  lemma {:induction false} AllMember(s: Setup, v: nat, kids: seq<nat>, it: Item) returns (c: nat, i: nat)
    requires Fits(s) && v < s.n && AllBelow(kids, s.n) && it in RecvsAll(s, v, kids)
    ensures c in kids && c < s.n && i < SizeOf(s.n, c) && it == Flip(SendItem(s, v, c, i)) && it.count > 0
  {
    var first := RecvsFrom(s, v, kids[0], SizeOf(s.n, kids[0]));
    if it in first {
      c := kids[0];
      i := FromMember(s, v, c, SizeOf(s.n, c), it);
    } else {
      c, i := AllMember(s, v, kids[1..], it);
    }
  }

  lemma {:induction false} AllHas(s: Setup, v: nat, kids: seq<nat>, c: nat, i: nat)
    requires Fits(s) && v < s.n && AllBelow(kids, s.n) && c in kids && c < s.n && i < SizeOf(s.n, c)
    requires SendItem(s, v, c, i).count > 0
    ensures Flip(SendItem(s, v, c, i)) in RecvsAll(s, v, kids)
  {
    if c == kids[0] {
      FromHas(s, v, c, SizeOf(s.n, c), i);
    } else {
      AllHas(s, v, kids[1..], c, i);
    }
  }

  lemma {:induction false} UpMember(s: Setup, p: nat, v: nat, m: nat, it: Item) returns (i: nat)
    requires Fits(s) && p < s.n && v < s.n && v + m <= s.n && it in SendsVia(s, p, v, m)
    ensures i < m && it == Flip(RecvVia(s, p, v, i)) && it.count > 0
  {
    if it in SendsVia(s, p, v, m - 1) {
      i := UpMember(s, p, v, m - 1, it);
    } else {
      i := m - 1;
    }
  }

  lemma {:induction false} UpHas(s: Setup, p: nat, v: nat, m: nat, i: nat)
    requires Fits(s) && p < s.n && v < s.n && i < m && v + m <= s.n && RecvVia(s, p, v, i).count > 0
    ensures Flip(RecvVia(s, p, v, i)) in SendsVia(s, p, v, m)
  {
    if i < m - 1 {
      UpHas(s, p, v, m - 1, i);
    } else {
      assert Unless(Flip(RecvVia(s, p, v, i))) == [Flip(RecvVia(s, p, v, i))];
    }
  }

  lemma UpListed(s: Setup, v: nat, i: nat)
    requires Fits(s) && 0 < v < s.n && i < SizeOf(s.n, v) && RecvItem(s, v, i).count > 0
    ensures Flip(RecvItem(s, v, i)) in Gather(s)(Act(s, v))
  {
    UpHas(s, ParentOf(s.n, v), v, SizeOf(s.n, v), i);
  }

  lemma DownListed(s: Setup, c: nat, i: nat)
    requires Fits(s) && 0 < c < s.n && i < SizeOf(s.n, c) && SendItem(s, ParentOf(s.n, c), c, i).count > 0
    ensures Flip(SendItem(s, ParentOf(s.n, c), c, i)) in Gather(s)(Act(s, ParentOf(s.n, c)))
  {
    var v := ParentOf(s.n, c);
    KidsBelow(s.n, v);
    ParentHasKid(s.n, c);
    AllHas(s, v, KidsOf(s.n, v), c, i);
  }

  /** Every message is on the edge between a rank and its parent. */
  lemma OnTree(s: Setup, v: nat, it: Item) returns (c: nat, i: nat)
    requires Fits(s) && v < s.n && it in GatherItems(s, v)
    ensures 0 < c < s.n && i < SizeOf(s.n, c) && it.count > 0
    ensures if it.sending then v == c && it == Flip(RecvItem(s, v, i))
            else v == ParentOf(s.n, c) && it == Flip(SendItem(s, v, c, i))
  {
    KidsBelow(s.n, v);
    if it in RecvsAll(s, v, KidsOf(s.n, v)) {
      c, i := AllMember(s, v, KidsOf(s.n, v), it);
      KidIs(s.n, v, c);
    } else {
      c := v;
      i := UpMember(s, ParentOf(s.n, v), v, SizeOf(s.n, v), it);
    }
  }

  // ----- the messages in time -----

  /** Ranks far behind the root send first. */
  function Time(s: Setup, c: nat, w: nat): nat
  {
    if c <= s.n && c <= w then Times(s.n - c, s.n) + (w - c) else 0
  }

  function UpTime(s: Setup, r: nat, it: Item): nat
    requires Fits(s)
  {
    if r >= s.n || it.peer >= s.n || it.block >= s.n then 0
    else Time(s, Virt(s, if it.sending then r else it.peer), Virt(s, it.block))
  }

  ghost function UpTimes(s: Setup): (nat, Item) -> nat
    requires Fits(s)
  {
    (r: nat, it: Item) => UpTime(s, r, it)
  }

  lemma ViaTimeIs(s: Setup, p: nat, v: nat, i: nat)
    requires Fits(s) && p < s.n && v + i < s.n
    ensures UpTime(s, Act(s, v), Flip(RecvVia(s, p, v, i))) == Time(s, v, v + i)
  {
  }

  lemma UpTimeIs(s: Setup, v: nat, i: nat)
    requires Fits(s) && 0 < v && v + i < s.n
    ensures UpTime(s, Act(s, v), Flip(RecvItem(s, v, i))) == Time(s, v, v + i)
  {
  }

  lemma DownTimeIs(s: Setup, v: nat, c: nat, i: nat)
    requires Fits(s) && v < s.n && c + i < s.n
    ensures UpTime(s, Act(s, v), Flip(SendItem(s, v, c, i))) == Time(s, c, c + i)
  {
  }

  lemma LaterRank(s: Setup, c: nat, i: nat, d: nat, j: nat)
    requires Fits(s) && d < c < s.n && c + i < s.n && d + j < s.n
    ensures Time(s, c, c + i) < Time(s, d, d + j)
  {
    TimesLess(s.n - c, s.n - d, s.n);
  }

  ghost predicate AllBefore(x: seq<Item>, it: Item, time: Item -> nat)
  {
    forall a :: a in x ==> time(a) < time(it)
  }

  /** Adding a message that is later than all before. */
  lemma InTimeOneMore(x: seq<Item>, it: Item, time: Item -> nat)
    requires InTime(x, time) && AllBefore(x, it, time)
    ensures InTime(x + Unless(it), time)
  {
    if it.count > 0 {
      forall a, b | a in x && b in [it] ensures time(a) < time(b) {
        assert b == it;
      }
      InTimeConcat(x, [it], time);
    }
  }

  ghost function TimeAt(s: Setup, v: nat): Item -> nat
    requires Fits(s) && v < s.n
  {
    (it: Item) => UpTime(s, Act(s, v), it)
  }

  lemma LaterBlock(s: Setup, c: nat, i: nat, j: nat)
    requires c <= s.n && i < j
    ensures Time(s, c, c + i) < Time(s, c, c + j)
  {
  }

  lemma FromLater(s: Setup, v: nat, c: nat, m: nat)
    requires Fits(s) && v < s.n && c + m < s.n
    ensures AllBefore(RecvsFrom(s, v, c, m), Flip(SendItem(s, v, c, m)), TimeAt(s, v))
  {
    var time := TimeAt(s, v);
    forall a | a in RecvsFrom(s, v, c, m) ensures time(a) < time(Flip(SendItem(s, v, c, m))) {
      var i := FromMember(s, v, c, m, a);
      DownTimeIs(s, v, c, i);
      DownTimeIs(s, v, c, m);
      LaterBlock(s, c, i, m);
    }
  }

  lemma FromInTimeNext(s: Setup, v: nat, c: nat, m: nat, k: nat)
    requires Fits(s) && v < s.n && c + m < s.n && k == m + 1 && InTime(RecvsFrom(s, v, c, m), TimeAt(s, v))
    ensures InTime(RecvsFrom(s, v, c, k), TimeAt(s, v))
  {
    FromLater(s, v, c, m);
    InTimeOneMore(RecvsFrom(s, v, c, m), Flip(SendItem(s, v, c, m)), TimeAt(s, v));
  }

  lemma {:induction false} FromInTime(s: Setup, v: nat, c: nat, m: nat)
    requires Fits(s) && v < s.n && c < s.n && c + m <= s.n
    ensures InTime(RecvsFrom(s, v, c, m), TimeAt(s, v))
  {
    if m > 0 {
      FromInTime(s, v, c, m - 1);
      FromInTimeNext(s, v, c, m - 1, m);
    }
  }

  lemma UpLater(s: Setup, p: nat, v: nat, m: nat)
    requires Fits(s) && p < s.n && v + m < s.n
    ensures AllBefore(SendsVia(s, p, v, m), Flip(RecvVia(s, p, v, m)), TimeAt(s, v))
  {
    var time := TimeAt(s, v);
    forall a | a in SendsVia(s, p, v, m) ensures time(a) < time(Flip(RecvVia(s, p, v, m))) {
      var i := UpMember(s, p, v, m, a);
      ViaTimeIs(s, p, v, i);
      ViaTimeIs(s, p, v, m);
      LaterBlock(s, v, i, m);
    }
  }

  lemma UpInTimeNext(s: Setup, p: nat, v: nat, m: nat, k: nat)
    requires Fits(s) && p < s.n && v + m < s.n && k == m + 1 && InTime(SendsVia(s, p, v, m), TimeAt(s, v))
    ensures InTime(SendsVia(s, p, v, k), TimeAt(s, v))
  {
    UpLater(s, p, v, m);
    InTimeOneMore(SendsVia(s, p, v, m), Flip(RecvVia(s, p, v, m)), TimeAt(s, v));
  }

  lemma {:induction false} UpInTime(s: Setup, p: nat, v: nat, m: nat)
    requires Fits(s) && p < s.n && v < s.n && v + m <= s.n
    ensures InTime(SendsVia(s, p, v, m), TimeAt(s, v))
  {
    if m > 0 {
      UpInTime(s, p, v, m - 1);
      UpInTimeNext(s, p, v, m - 1, m);
    }
  }

  lemma {:induction false} AllInTime(s: Setup, v: nat, kids: seq<nat>)
    requires Fits(s) && v < s.n && AllBelow(kids, s.n) && Shrinking(s.n, kids)
    ensures InTime(RecvsAll(s, v, kids), TimeAt(s, v))
  {
    if kids != [] {
      var c, rest := kids[0], kids[1..];
      AllInTime(s, v, rest);
      FromInTime(s, v, c, SizeOf(s.n, c));
      var x, y := RecvsFrom(s, v, c, SizeOf(s.n, c)), RecvsAll(s, v, rest);
      forall a, b | a in x && b in y ensures TimeAt(s, v)(a) < TimeAt(s, v)(b) {
        var i := FromMember(s, v, c, SizeOf(s.n, c), a);
        var d, j := AllMember(s, v, rest, b);
        DownTimeIs(s, v, c, i);
        DownTimeIs(s, v, d, j);
        var k: nat :| k < |rest| && rest[k] == d;
        assert kids[k + 1] == d;
        LaterRank(s, c, i, d, j);
      }
      InTimeConcat(x, y, TimeAt(s, v));
    }
  }

  lemma GatherInTime(s: Setup, v: nat)
    requires Fits(s) && v < s.n
    ensures InTime(GatherItems(s, v), TimeAt(s, v))
  {
    var kids := KidsOf(s.n, v);
    KidsBelow(s.n, v);
    KidsInOrder(s.n, v);
    AllInTime(s, v, kids);
    if v > 0 {
      UpInTime(s, ParentOf(s.n, v), v, SizeOf(s.n, v));
      var x, y := RecvsAll(s, v, kids), SendsUp(s, v, SizeOf(s.n, v));
      forall a, b | a in x && b in y ensures TimeAt(s, v)(a) < TimeAt(s, v)(b) {
        var c, i := AllMember(s, v, kids, a);
        var j := UpMember(s, ParentOf(s.n, v), v, SizeOf(s.n, v), b);
        KidIs(s.n, v, c);
        DownTimeIs(s, v, c, i);
        UpTimeIs(s, v, j);
        LaterRank(s, c, i, v, j);
      }
      InTimeConcat(x, y, TimeAt(s, v));
    } else {
      assert RecvsAll(s, v, kids) + [] == RecvsAll(s, v, kids);
    }
  }

  // ----- delivery -----

  lemma GatherAnswered(s: Setup, r: nat, it: Item)
    requires Fits(s) && TableRight(s) && r < s.n && it in Gather(s)(r)
    ensures Answered(s.n, Gather(s), UpTimes(s), r, it)
  {
    var v := Virt(s, r);
    var c, i := OnTree(s, v, it);
    var p := ParentOf(s.n, c);
    EndsAgree(s, c, i);
    UpTimeIs(s, c, i);
    DownTimeIs(s, p, c, i);
    UpListed(s, c, i);
    DownListed(s, c, i);
  }

  /** A rank starts with its own block. */
  ghost function OwnBlock(s: Setup): nat -> set<nat>
    requires Fits(s)
  {
    (r: nat) => if r < s.n then Elements(s.n, r, s.counts[r]) else {}
  }

  lemma SendsBehind(s: Setup, v: nat, u: nat)
    requires Fits(s) && v < s.n && u < |GatherItems(s, v)| && GatherItems(s, v)[u].sending
    requires AllBelow(KidsOf(s.n, v), s.n)
    ensures u >= |RecvsAll(s, v, KidsOf(s.n, v))|
  {
    var x := RecvsAll(s, v, KidsOf(s.n, v));
    if u < |x| {
      var c, i := AllMember(s, v, KidsOf(s.n, v), x[u]);
      assert false;
    }
  }

  /** The block of `v + i` comes from the child of `v` above it. */
  lemma ReceivedFromKid(s: Setup, v: nat, i: nat) returns (j: nat)
    requires Fits(s) && 0 < v < s.n && 0 < i < SizeOf(s.n, v) && TableCount(s, v + i) > 0
    requires AllBelow(KidsOf(s.n, v), s.n)
    ensures var x := RecvsAll(s, v, KidsOf(s.n, v));
      j < |x| && !x[j].sending && x[j].block == Act(s, v + i) && x[j].count == TableCount(s, v + i)
  {
    var d := KidAbove(s.n, v, v + i);
    var x, got := RecvsAll(s, v, KidsOf(s.n, v)), Flip(SendItem(s, v, d, v + i - d));
    AllHas(s, v, KidsOf(s.n, v), d, v + i - d);
    j :| j < |x| && x[j] == got;
  }

  lemma FrontOf(s: Setup, v: nat, j: nat)
    requires Fits(s) && v < s.n && AllBelow(KidsOf(s.n, v), s.n) && j < |RecvsAll(s, v, KidsOf(s.n, v))|
    ensures j < |GatherItems(s, v)| && GatherItems(s, v)[j] == RecvsAll(s, v, KidsOf(s.n, v))[j]
  {
  }

  /** A rank has what it sends: its own block from the start, the others from its children. */
  lemma GatherHasBefore(s: Setup, r: nat, u: nat)
    requires Fits(s) && r < s.n && u < |Gather(s)(r)|
    ensures HasBefore(s.n, Gather(s)(r), OwnBlock(s)(r), u)
  {
    var v := Virt(s, r);
    var items := GatherItems(s, v);
    assert Gather(s)(r) == items;
    if items[u].sending {
      var c, i := OnTree(s, v, items[u]);
      if i > 0 {
        KidsBelow(s.n, v);
        var j := ReceivedFromKid(s, v, i);
        SendsBehind(s, v, u);
        FrontOf(s, v, j);
      }
    }
  }

  lemma GatherWorks(s: Setup)
    requires Fits(s) && TableRight(s)
    ensures Works(s.n, Gather(s), UpTimes(s), OwnBlock(s))
  {
    var items := Gather(s);
    forall r: nat, it | r < s.n && it in items(r) ensures Answered(s.n, items, UpTimes(s), r, it) {
      GatherAnswered(s, r, it);
    }
    forall r: nat, i: nat, j: nat | r < s.n && i < j < |items(r)|
      ensures UpTimes(s)(r, items(r)[i]) < UpTimes(s)(r, items(r)[j])
    {
      GatherInTime(s, Virt(s, r));
      assert TimeAt(s, Virt(s, r))(items(r)[i]) < TimeAt(s, Virt(s, r))(items(r)[j]);
    }
    forall r: nat, u: nat | r < s.n && u < |items(r)| ensures HasBefore(s.n, items(r), OwnBlock(s)(r), u) {
      GatherHasBefore(s, r, u);
    }
  }

  ghost function GatherNet<V>(s: Setup, data: nat -> V): Net<V>
    requires Fits(s)
  {
    ItemNet(s.n, Gather(s), OwnBlock(s), data)
  }

  /** The root has every rank's block. */
  ghost predicate GatheredAt<V(!new)>(st: State<V>, s: Setup, data: nat -> V)
    requires Fits(s)
  {
    forall b: nat :: b < s.n ==> HasBlock(st.buf(s.root), s.n, b, s.counts[b], data)
  }

  lemma RootReceives(s: Setup, c: nat, i: nat, b: nat) returns (it: Item)
    requires Fits(s) && 0 < c < s.n && ParentOf(s.n, c) == 0 && i < SizeOf(s.n, c) && b == Act(s, c + i)
    requires s.counts[b] > 0
    ensures it in Gather(s)(s.root) && it == Item(false, Act(s, c), b, s.counts[b])
  {
    RootIsZero(s);
    DownListed(s, c, i);
    it := Flip(SendItem(s, 0, c, i));
  }

  lemma BlockArrives<V(!new)>(s: Setup, data: nat -> V, st: State<V>, b: nat)
    requires Fits(s) && b < s.n
    requires AllDelivered(st, ItemScript(s.n, Gather(s)), ItemHeld(s.n, Gather(s), OwnBlock(s)), data)
    ensures HasBlock(st.buf(s.root), s.n, b, s.counts[b], data)
  {
    RootIsZero(s);
    var w := Virt(s, b);
    if w == 0 {
      OwnDelivered(s.n, Gather(s), OwnBlock(s), data, st, s.root, b, s.counts[b]);
    } else if s.counts[b] > 0 {
      var c := ChildOfRoot(s.n, w);
      var it := RootReceives(s, c, w - c, b);
      ItemDelivered(s.n, Gather(s), OwnBlock(s), data, st, s.root, it);
    }
  }

  /** If the table is right, no run gets stuck, and the root ends with every rank's block. */
  lemma TreeGatherDelivers<V(!new)>(s: Setup, data: nat -> V, run: seq<Event>)
    requires Fits(s) && TableRight(s) && IsRun(GatherNet(s, data), run)
    ensures |GatherNet(s, data).progs| == |GatherNet(s, data).init| && OnItsWay(GatherNet(s, data), data, run)
    ensures |run| == TotalWork(GatherNet(s, data)) ==> GatheredAt(After(GatherNet(s, data), run), s, data)
  {
    var net, items, own := GatherNet(s, data), Gather(s), OwnBlock(s);
    GatherWorks(s);
    ItemsDeliver(s.n, items, UpTimes(s), own);
    ScriptDelivers(ItemScript(s.n, items), ItemClock(items, UpTimes(s)), ItemOther(items), ItemHeld(s.n, items, own), data, run);
    if |run| == TotalWork(net) {
      var st := After(net, run);
      forall b: nat | b < s.n ensures HasBlock(st.buf(s.root), s.n, b, s.counts[b], data) {
        BlockArrives(s, data, st, b);
      }
    }
  }

  /** The blocks that the ranks have in `st`, and nothing else. */
  ghost function KeptOwn<V>(s: Setup, st: State<V>): seq<map<nat, V>>
    requires Fits(s)
  {
    seq(s.n, (r: nat) requires r < s.n => map x | x in Elements(s.n, r, s.counts[r]) && x in st.buf(r) :: st.buf(r)[x])
  }

  /** What the ranks have after a complete scatter is what they start a gather with. */
  lemma KeptIsInit<V(!new)>(s: Setup, data: nat -> V, st: State<V>)
    requires Fits(s) && Scattered(st, s, data)
    ensures KeptOwn(s, st) == GatherNet(s, data).init
  {
    var init := GatherNet(s, data).init;
    forall r: nat | r < s.n ensures KeptOwn(s, st)[r] == init[r] {
      assert HasBlock(st.buf(r), s.n, r, s.counts[r], data);
      OwnAtStart(s, r);
      assert init[r] == Owned(Elements(s.n, r, s.counts[r]), data);
      assert forall x :: x in Elements(s.n, r, s.counts[r]) ==> x in Payload(s.n, r, s.counts[r]);
    }
  }

  lemma OwnAtStart(s: Setup, r: nat)
    requires Fits(s) && r < s.n
    ensures ItemHeld(s.n, Gather(s), OwnBlock(s))(r, 0) == Elements(s.n, r, s.counts[r])
  {
    var none := Gather(s)(r)[..0];
    assert none == [] && Brought(s.n, none) == {};
    assert OwnBlock(s)(r) == Elements(s.n, r, s.counts[r]);
    assert ItemHeld(s.n, Gather(s), OwnBlock(s))(r, 0) == OwnBlock(s)(r) + Brought(s.n, none);
  }

  /** The gather of the ranks that keep what a scatter has left them. */
  ghost function GatherFrom<V(!new)>(s: Setup, data: nat -> V, st: State<V>): Net<V>
    requires Fits(s)
  {
    GatherNet(s, data).(init := KeptOwn(s, st))
  }

  lemma FromIsNet<V(!new)>(s: Setup, data: nat -> V, st: State<V>)
    requires Fits(s) && Scattered(st, s, data)
    ensures GatherFrom(s, data, st) == GatherNet(s, data)
  {
    KeptIsInit(s, data, st);
  }

  /** Gathering what has been scattered gives the root its blocks back. */
  lemma GatherAfterScatter<V(!new)>(s: Setup, data: nat -> V, scatter: seq<Event>, st: State<V>, gather: seq<Event>)
    requires Fits(s) && TableRight(s)
    requires IsRun(ScatterNet(s, data), scatter) && |scatter| == TotalWork(ScatterNet(s, data))
    requires st == After(ScatterNet(s, data), scatter)
    requires IsRun(GatherFrom(s, data, st), gather) && |gather| == TotalWork(GatherFrom(s, data, st))
    ensures GatheredAt(After(GatherFrom(s, data, st), gather), s, data)
  {
    TreeScatterDelivers(s, data, scatter);
    FromIsNet(s, data, st);
    TreeGatherDelivers(s, data, gather);
  }

  // ----- when the ends do not agree -----

  ghost predicate AllMatched(s: Setup)
    requires Fits(s)
  {
    var progs := Progs(ItemScript(s.n, Gather(s)));
    forall a: nat, b: nat :: a < s.n && b < s.n ==> EdgeMatched(progs, a, b)
  }

  lemma MatchedItem(s: Setup, r: nat, it: Item) returns (other: Item)
    requires Fits(s) && AllMatched(s) && r < s.n && it in Gather(s)(r) && it.peer < s.n
    ensures other in Gather(s)(it.peer) && other.peer == r && other.sending == !it.sending
    ensures other.count == it.count && (it.count > 0 ==> other.block == it.block)
  {
    var progs := Progs(ItemScript(s.n, Gather(s)));
    assert if it.sending then EdgeMatched(progs, r, it.peer) else EdgeMatched(progs, it.peer, r);
    other := MatchedPayload(s.n, Gather(s), r, it);
    PayloadTells(s.n, it.block, it.count, other.block, other.count);
  }

  lemma UpTells(s: Setup, c: nat, w: nat, it: Item)
    requires Fits(s) && 0 < c < w < s.n && ParentOf(s.n, c) == 0
    requires it in Gather(s)(Act(s, c)) && it.sending && it.block == Act(s, w)
    ensures it.count == TableCount(s, w)
  {
    var d, j := OnTree(s, c, it);
    SamePlace(s, c + j, w);
  }

  lemma DownTells(s: Setup, c: nat, w: nat, it: Item)
    requires Fits(s) && 0 < c < s.n && w < s.n && ParentOf(s.n, c) == 0
    requires it in Gather(s)(s.root) && !it.sending && it.block == Act(s, w)
    ensures it.count == RootCount(s, w)
  {
    RootIsZero(s);
    var d, j := OnTree(s, 0, it);
    SamePlace(s, d + j, w);
  }

  lemma DownMatched(s: Setup, c: nat, w: nat, it: Item)
    requires Fits(s) && AllMatched(s) && 0 < c < w < s.n && ParentOf(s.n, c) == 0
    requires it in Gather(s)(s.root) && it.peer == Act(s, c) && !it.sending && it.block == Act(s, w) && it.count > 0
    ensures it.count == TableCount(s, w)
  {
    var other := MatchedItem(s, s.root, it);
    UpTells(s, c, w, other);
  }

  lemma UpMatched(s: Setup, c: nat, w: nat, it: Item)
    requires Fits(s) && AllMatched(s) && 0 < c < w < s.n && ParentOf(s.n, c) == 0
    requires it in Gather(s)(Act(s, c)) && it.peer == s.root && it.sending && it.block == Act(s, w) && it.count > 0
    ensures it.count == RootCount(s, w)
  {
    var other := MatchedItem(s, Act(s, c), it);
    DownTells(s, c, w, other);
  }

  lemma ChildSends(s: Setup, c: nat, i: nat) returns (it: Item)
    requires Fits(s) && 0 < c < s.n && 0 < i < SizeOf(s.n, c) && ParentOf(s.n, c) == 0 && TableCount(s, c + i) > 0
    ensures it in Gather(s)(Act(s, c)) && it == Item(true, s.root, Act(s, c + i), TableCount(s, c + i))
  {
    RootIsZero(s);
    UpListed(s, c, i);
    it := Flip(RecvItem(s, c, i));
  }

  lemma RightBelow(s: Setup, c: nat, i: nat)
    requires Fits(s) && AllMatched(s) && 0 < c < s.n && 0 < i < SizeOf(s.n, c) && ParentOf(s.n, c) == 0
    ensures TableCount(s, c + i) == RootCount(s, c + i)
  {
    if RootCount(s, c + i) > 0 {
      var it := RootReceives(s, c, i, Act(s, c + i));
      DownMatched(s, c, c + i, it);
    } else if TableCount(s, c + i) > 0 {
      var it := ChildSends(s, c, i);
      UpMatched(s, c, c + i, it);
    }
  }

  lemma MatchedIsRight(s: Setup, w: nat)
    requires Fits(s) && AllMatched(s) && w < s.n && Forwarded(s.n, w)
    ensures TableCount(s, w) == RootCount(s, w)
  {
    var c, i := BelowChild(s.n, w);
    RightBelow(s, c, i);
  }

  /** The two ends of every edge agree exactly if the table is right about the forwarded blocks. */
  lemma MatchedIffTableRight(s: Setup)
    requires Fits(s)
    ensures AllMatched(s) <==> TableRight(s)
  {
    if AllMatched(s) {
      forall w: nat | w < s.n && Forwarded(s.n, w) ensures TableCount(s, w) == RootCount(s, w) {
        MatchedIsRight(s, w);
      }
    }
    if TableRight(s) {
      GatherWorks(s);
      ItemsDeliver(s.n, Gather(s), UpTimes(s), OwnBlock(s));
      var d: nat -> nat := (x: nat) => x;
      ScriptSound(ItemScript(s.n, Gather(s)), ItemClock(Gather(s), UpTimes(s)), ItemOther(Gather(s)),
                  ItemHeld(s.n, Gather(s), OwnBlock(s)), d);
    }
  }

  ghost predicate AlwaysMatched(n: nat, root: nat, counts: seq<nat>)
    requires n >= 2 && root < n && |counts| == n
  {
    forall table: seq<nat> :: |table| == n && MayHold(Setup(n, root, counts, table)) ==>
      AllMatched(Setup(n, root, counts, table))
  }

  /** Whatever the memory holds, the calls match exactly if rank 0 is the root or there are at most three ranks. */
  lemma AlwaysMatchedIff(n: nat, root: nat, counts: seq<nat>)
    requires n >= 2 && root < n && |counts| == n
    ensures AlwaysMatched(n, root, counts) <==> root == 0 || n <= 3
  {
    AlwaysRightIff(n, root, counts);
    forall table: seq<nat> | |table| == n
      ensures AllMatched(Setup(n, root, counts, table)) <==> TableRight(Setup(n, root, counts, table))
    {
      MatchedIffTableRight(Setup(n, root, counts, table));
    }
  }
}
