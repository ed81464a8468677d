/** Scatterv over the binomial tree with blocking calls.  A rank receives its own block and then those of its
    subtree from its parent, and passes them on, one message per block.

    The root knows the counts of all blocks.  The other ranks take the counts of the blocks that they forward from
    a table: what rank 0 contributed to an exchange in which only the root fills in its contribution. */
module TreeScatter {
  import opened Network
  import opened Rendezvous
  import opened Kntree
  import opened KntreeIter
  import opened TreeOrder
  import opened Items

  /** `counts` are the root's; `table` is what the other ranks use instead. */
  datatype Setup = Setup(n: nat, root: nat, counts: seq<nat>, table: seq<nat>)

  predicate Fits(s: Setup)
  {
    s.n >= 2 && s.root < s.n && |s.counts| == s.n && |s.table| == s.n
  }

  /** The rank that virtual rank `v` is. */
  function Act(s: Setup, v: nat): (r: nat)
    requires Fits(s) && v < s.n
    ensures r < s.n && Virtual(s.n, s.root, r) == v
  {
    VirtualActual(s.n, s.root, v);
    Actual(s.n, s.root, v)
  }

  function Virt(s: Setup, r: nat): (v: nat)
    requires Fits(s) && r < s.n
    ensures v < s.n && Act(s, v) == r
  {
    Virtual(s.n, s.root, r)
  }

  function RootCount(s: Setup, v: nat): nat
    requires Fits(s) && v < s.n
  {
    s.counts[Act(s, v)]
  }

  function TableCount(s: Setup, v: nat): nat
    requires Fits(s) && v < s.n
  {
    s.table[Act(s, v)]
  }

  /** The `i`-th message that `v` receives: the block of `v + i`. */
  function RecvItem(s: Setup, v: nat, i: nat): Item
    requires Fits(s) && 0 < v && v + i < s.n
  {
    RecvVia(s, ParentOf(s.n, v), v, i)
  }

  function RecvVia(s: Setup, p: nat, v: nat, i: nat): Item
    requires Fits(s) && p < s.n && v + i < s.n
  {
    Item(false, Act(s, p), Act(s, v + i), if i == 0 then RootCount(s, v) else TableCount(s, v + i))
  }

  /** The `i`-th message that `v` sends to its child `c`: the block of `c + i`. */
  function SendItem(s: Setup, v: nat, c: nat, i: nat): Item
    requires Fits(s) && v < s.n && c + i < s.n
  {
    Item(true, Act(s, c), Act(s, c + i), if v == 0 then RootCount(s, c + i) else TableCount(s, c + i))
  }

  function RecvItems(s: Setup, v: nat): seq<Item>
    requires Fits(s) && v < s.n
  {
    if v == 0 then [] else seq(SizeOf(s.n, v), (i: nat) requires i < SizeOf(s.n, v) => RecvItem(s, v, i))
  }

  function SendsTo(s: Setup, v: nat, c: nat): seq<Item>
    requires Fits(s) && v < s.n && c < s.n
  {
    seq(SizeOf(s.n, c), (i: nat) requires i < SizeOf(s.n, c) => SendItem(s, v, c, i))
  }

  function SendItems(s: Setup, v: nat, kids: seq<nat>): seq<Item>
    requires Fits(s) && v < s.n && AllBelow(kids, s.n)
  {
    if kids == [] then [] else SendsTo(s, v, kids[0]) + SendItems(s, v, kids[1..])
  }

  lemma KidsBelow(n: nat, v: nat)
    requires v < n
    ensures AllBelow(KidsOf(n, v), n)
  {
    var kids := KidsOf(n, v);
    forall i: nat | i < |kids| ensures kids[i] < n {
      assert kids[i] in kids;
      KidIs(n, v, kids[i]);
    }
  }

  function ScatterItems(s: Setup, v: nat): seq<Item>
    requires Fits(s) && v < s.n
  {
    KidsBelow(s.n, v);
    RecvItems(s, v) + SendItems(s, v, KidsOf(s.n, v))
  }

  ghost function Scatter(s: Setup): nat -> seq<Item>
    requires Fits(s)
  {
    (r: nat) => if r < s.n then ScatterItems(s, Virt(s, r)) else []
  }

  // ----- the messages in time -----

  function Level(n: nat, c: nat): nat
  {
    if Top(n, 2, c) < Top(n, 2, 0) then Top(n, 2, 0) - Top(n, 2, c) else 0
  }

  /** Messages into large subtrees go first; the rank at the lower end and the block decide. */
  function Time(s: Setup, c: nat, w: nat): nat
  {
    Times(Level(s.n, c), s.n) + w
  }

  function ItemTime(s: Setup, r: nat, it: Item): nat
    requires Fits(s)
  {
    if r >= s.n || it.peer >= s.n || it.block >= s.n then 0
    else Time(s, Virt(s, if it.sending then it.peer else r), Virt(s, it.block))
  }

  ghost function MessageTimes(s: Setup): (nat, Item) -> nat
    requires Fits(s)
  {
    (r: nat, it: Item) => ItemTime(s, r, it)
  }

  lemma RecvTime(s: Setup, v: nat, i: nat)
    requires Fits(s) && 0 < v && v + i < s.n
    ensures ItemTime(s, Act(s, v), RecvItem(s, v, i)) == Time(s, v, v + i)
  {
  }

  lemma SendTime(s: Setup, v: nat, c: nat, i: nat)
    requires Fits(s) && v < s.n && c + i < s.n
    ensures ItemTime(s, Act(s, v), SendItem(s, v, c, i)) == Time(s, c, c + i)
  {
  }

  /** A smaller subtree is later, whatever the blocks are. */
  lemma LaterLevel(s: Setup, c: nat, w: nat, c': nat, w': nat)
    requires Fits(s) && w < s.n && Top(s.n, 2, c') < Top(s.n, 2, c) <= Top(s.n, 2, 0)
    ensures Time(s, c, w) < Time(s, c', w')
  {
    TimesLess(Level(s.n, c), Level(s.n, c'), s.n);
  }

  lemma TopBelowRoot(n: nat, v: nat)
    requires v < n
    ensures Top(n, 2, v) <= Top(n, 2, 0)
  {
    TopIs(n, 2, 0);
    TopIs(n, 2, v);
    if v > 0 && Top(n, 2, 0) < Top(n, 2, v) {
      PowGrows(2, Top(n, 2, 0), Top(n, 2, v));
    }
  }

  /** The times of messages of one rank that come from the given children. */
  ghost predicate SendsInTime(s: Setup, v: nat, kids: seq<nat>)
    requires Fits(s) && v < s.n && AllBelow(kids, s.n)
  {
    InTime(SendItems(s, v, kids), (it: Item) => ItemTime(s, Act(s, v), it))
  }

  lemma {:induction false} SendMember(s: Setup, v: nat, kids: seq<nat>, it: Item) returns (c: nat, i: nat)
    requires Fits(s) && v < s.n && AllBelow(kids, s.n) && it in SendItems(s, v, kids)
    ensures c in kids && c < s.n && i < SizeOf(s.n, c) && it == SendItem(s, v, c, i)
  {
    var first := SendsTo(s, v, kids[0]);
    if it in first {
      c := kids[0];
      i :| i < |first| && first[i] == it;
    } else {
      c, i := SendMember(s, v, kids[1..], it);
    }
  }

  lemma {:induction false} SendHas(s: Setup, v: nat, kids: seq<nat>, c: nat, i: nat)
    requires Fits(s) && v < s.n && AllBelow(kids, s.n) && c in kids && c < s.n && i < SizeOf(s.n, c)
    ensures SendItem(s, v, c, i) in SendItems(s, v, kids)
  {
    if c == kids[0] {
      assert SendsTo(s, v, c)[i] == SendItem(s, v, c, i);
    } else {
      SendHas(s, v, kids[1..], c, i);
    }
  }

  lemma InTimeConcat(x: seq<Item>, y: seq<Item>, time: Item -> nat)
    requires InTime(x, time) && InTime(y, time)
    requires forall a, b :: a in x && b in y ==> time(a) < time(b)
    ensures InTime(x + y, time)
  {
    forall i: nat, j: nat | i < j < |x + y| ensures time((x + y)[i]) < time((x + y)[j]) {
      if i < |x| <= j {
        assert x[i] in x && y[j - |x|] in y;
      }
    }
  }

  /** A message to the first child goes before those to the others. */
  lemma LaterSend(s: Setup, v: nat, kids: seq<nat>, i: nat, b: Item)
    requires Fits(s) && v < s.n && AllBelow(kids, s.n) && Shrinking(s.n, kids) && kids != []
    requires i < SizeOf(s.n, kids[0]) && AllBelow(kids[1..], s.n) && b in SendItems(s, v, kids[1..])
    ensures ItemTime(s, Act(s, v), SendItem(s, v, kids[0], i)) < ItemTime(s, Act(s, v), b)
  {
    var c := kids[0];
    var d, j := SendMember(s, v, kids[1..], b);
    SendTime(s, v, c, i);
    SendTime(s, v, d, j);
    var k: nat :| k < |kids[1..]| && kids[1..][k] == d;
    assert kids[k + 1] == d;
    TopBelowRoot(s.n, c);
    LaterLevel(s, c, c + i, d, d + j);
  }

  lemma {:induction false} SendsAreInTime(s: Setup, v: nat, kids: seq<nat>)
    requires Fits(s) && v < s.n && AllBelow(kids, s.n) && Shrinking(s.n, kids)
    ensures SendsInTime(s, v, kids)
  {
    if kids != [] {
      var time := (it: Item) => ItemTime(s, Act(s, v), it);
      var c, rest := kids[0], kids[1..];
      SendsAreInTime(s, v, rest);
      var x, y := SendsTo(s, v, c), SendItems(s, v, rest);
      forall i: nat, j: nat | i < j < |x| ensures time(x[i]) < time(x[j]) {
        SendTime(s, v, c, i);
        SendTime(s, v, c, j);
      }
      forall a, b | a in x && b in y ensures time(a) < time(b) {
        var i: nat :| i < |x| && x[i] == a;
        LaterSend(s, v, kids, i, b);
      }
      InTimeConcat(x, y, time);
    }
  }

  lemma ScatterInTime(s: Setup, v: nat)
    requires Fits(s) && v < s.n
    ensures InTime(ScatterItems(s, v), (it: Item) => ItemTime(s, Act(s, v), it))
  {
    var time := (it: Item) => ItemTime(s, Act(s, v), it);
    var kids := KidsOf(s.n, v);
    KidsBelow(s.n, v);
    KidsInOrder(s.n, v);
    SendsAreInTime(s, v, kids);
    var x, y := RecvItems(s, v), SendItems(s, v, kids);
    forall i: nat, j: nat | i < j < |x| ensures time(x[i]) < time(x[j]) {
      RecvTime(s, v, i);
      RecvTime(s, v, j);
    }
    forall a, b | a in x && b in y ensures time(a) < time(b) {
      var i: nat :| i < |x| && x[i] == a;
      var d, j := SendMember(s, v, kids, b);
      RecvTime(s, v, i);
      SendTime(s, v, d, j);
      KidIs(s.n, v, d);
      TopBelowRoot(s.n, v);
      LaterLevel(s, v, v + i, d, d + j);
    }
    InTimeConcat(x, y, time);
  }

  // ----- when the two ends agree -----

  /** A block that is passed on by a rank other than the root. */
  predicate Forwarded(n: nat, w: nat)
  {
    0 < w < n && ParentOf(n, w) > 0
  }

  /** The table is right about all blocks that are passed on. */
  ghost predicate TableRight(s: Setup)
    requires Fits(s)
  {
    forall w: nat :: w < s.n && Forwarded(s.n, w) ==> TableCount(s, w) == RootCount(s, w)
  }

  lemma InsideIsForwarded(n: nat, v: nat, i: nat)
    requires 0 < v < n && 0 < i < SizeOf(n, v)
    ensures Forwarded(n, v + i)
  {
    SubtreeIs(n, v, v + i);
    SubtreeIs(n, v, ParentOf(n, v + i));
  }

  /** A receive and the send of the parent are the same message if the counts agree. */
  lemma EndsAgree(s: Setup, v: nat, i: nat)
    requires Fits(s) && TableRight(s) && 0 < v < s.n && i < SizeOf(s.n, v)
    ensures Reply(Act(s, v), RecvItem(s, v, i)) == SendItem(s, ParentOf(s.n, v), v, i)
    ensures Reply(Act(s, ParentOf(s.n, v)), SendItem(s, ParentOf(s.n, v), v, i)) == RecvItem(s, v, i)
  {
    if i > 0 {
      InsideIsForwarded(s.n, v, i);
    } else if ParentOf(s.n, v) > 0 {
      assert Forwarded(s.n, v);
    }
  }

  lemma RecvListed(s: Setup, v: nat, i: nat)
    requires Fits(s) && 0 < v < s.n && i < SizeOf(s.n, v)
    ensures RecvItem(s, v, i) in Scatter(s)(Act(s, v))
  {
    assert RecvItems(s, v)[i] in RecvItems(s, v);
  }

  lemma SendListed(s: Setup, c: nat, i: nat)
    requires Fits(s) && 0 < c < s.n && i < SizeOf(s.n, c)
    ensures SendItem(s, ParentOf(s.n, c), c, i) in Scatter(s)(Act(s, ParentOf(s.n, c)))
  {
    var v := ParentOf(s.n, c);
    KidsBelow(s.n, v);
    ParentHasKid(s.n, c);
    SendHas(s, v, KidsOf(s.n, v), c, i);
  }

  /** Every message is on the edge between a rank and its parent. */
  lemma OnTree(s: Setup, v: nat, it: Item) returns (c: nat, i: nat)
    requires Fits(s) && v < s.n && it in ScatterItems(s, v)
    ensures 0 < c < s.n && i < SizeOf(s.n, c)
    ensures if it.sending then v == ParentOf(s.n, c) && it == SendItem(s, v, c, i)
            else v == c && it == RecvItem(s, v, i)
  {
    KidsBelow(s.n, v);
    var x := RecvItems(s, v);
    if it in x {
      c := v;
      i :| i < |x| && x[i] == it;
    } else {
      c, i := SendMember(s, v, KidsOf(s.n, v), it);
      KidIs(s.n, v, c);
    }
  }

  lemma ScatterAnswered(s: Setup, r: nat, it: Item)
    requires Fits(s) && TableRight(s) && r < s.n && it in Scatter(s)(r)
    ensures Answered(s.n, Scatter(s), MessageTimes(s), r, it)
  {
    var v := Virt(s, r);
    var c, i := OnTree(s, v, it);
    EndsAgree(s, c, i);
    RecvTime(s, c, i);
    SendTime(s, ParentOf(s.n, c), c, i);
    RecvListed(s, c, i);
    SendListed(s, c, i);
  }

  /** The elements that a rank starts with: all blocks at the root. */
  ghost function Own(s: Setup): nat -> set<nat>
    requires Fits(s)
  {
    (r: nat) => if r == s.root then AllElements(s.n, s.counts, s.n) else {}
  }

  /** The elements of the first `m` blocks. */
  function AllElements(n: nat, counts: seq<nat>, m: nat): set<nat>
    requires m <= |counts|
  {
    if m == 0 then {} else AllElements(n, counts, m - 1) + Elements(n, m - 1, counts[m - 1])
  }

  lemma {:induction false} BlockInAll(n: nat, counts: seq<nat>, m: nat, b: nat)
    requires b < m <= |counts|
    ensures forall x :: x in Payload(n, b, counts[b]) ==> x in AllElements(n, counts, m)
  {
    if b < m - 1 {
      BlockInAll(n, counts, m - 1, b);
    }
  }

  lemma RootIsZero(s: Setup)
    requires Fits(s)
    ensures Act(s, 0) == s.root && Virt(s, s.root) == 0
  {
  }

  /** The sends come behind the receives. */
  lemma SendsAfter(s: Setup, v: nat, u: nat)
    requires Fits(s) && v < s.n && u < |ScatterItems(s, v)| && ScatterItems(s, v)[u].sending
    ensures u >= |RecvItems(s, v)|
  {
  }

  /** A block that goes on to a child comes as one of the messages from the parent. */
  lemma ReceivedBefore(s: Setup, v: nat, c: nat, i: nat)
    requires Fits(s) && 0 < v < s.n && 0 < c < s.n && v == ParentOf(s.n, c) && i < SizeOf(s.n, c)
    ensures exists j: nat :: j < |RecvItems(s, v)| && var it := ScatterItems(s, v)[j];
      !it.sending && it.block == Act(s, c + i) && it.count == TableCount(s, c + i)
  {
    ParentHasKid(s.n, c);
    KidInside(s.n, v, c);
    var j := c + i - v;
    assert ScatterItems(s, v)[j] == RecvItems(s, v)[j] == RecvItem(s, v, j);
  }

  /** A rank has what it sends: the root from the start, the others from their parent. */
  lemma ScatterHasBefore(s: Setup, r: nat, u: nat)
    requires Fits(s) && r < s.n && u < |Scatter(s)(r)|
    ensures HasBefore(s.n, Scatter(s)(r), Own(s)(r), u)
  {
    var v, items := Virt(s, r), Scatter(s)(r);
    var it := items[u];
    if it.sending {
      var c, i := OnTree(s, v, it);
      if v == 0 {
        RootIsZero(s);
        BlockInAll(s.n, s.counts, s.n, it.block);
      } else {
        SendsAfter(s, v, u);
        ReceivedBefore(s, v, c, i);
      }
    }
  }

  lemma ScatterWorks(s: Setup)
    requires Fits(s) && TableRight(s)
    ensures Works(s.n, Scatter(s), MessageTimes(s), Own(s))
  {
    var items := Scatter(s);
    forall r: nat, it | r < s.n && it in items(r) ensures Answered(s.n, items, MessageTimes(s), r, it) {
      ScatterAnswered(s, r, it);
    }
    forall r: nat, i: nat, j: nat | r < s.n && i < j < |items(r)|
      ensures MessageTimes(s)(r, items(r)[i]) < MessageTimes(s)(r, items(r)[j])
    {
      ScatterInTime(s, Virt(s, r));
    }
    forall r: nat, u: nat | r < s.n && u < |items(r)| ensures HasBefore(s.n, items(r), Own(s)(r), u) {
      ScatterHasBefore(s, r, u);
    }
  }

  ghost function ScatterNet<V>(s: Setup, data: nat -> V): Net<V>
    requires Fits(s)
  {
    ItemNet(s.n, Scatter(s), Own(s), data)
  }

  /** Every rank has its own block. */
  ghost predicate Scattered<V(!new)>(st: State<V>, s: Setup, data: nat -> V)
    requires Fits(s)
  {
    forall r: nat :: r < s.n ==> HasBlock(st.buf(r), s.n, r, s.counts[r], data)
  }

  lemma OwnBlockArrives<V(!new)>(s: Setup, data: nat -> V, st: State<V>, r: nat)
    requires Fits(s) && r < s.n
    requires AllDelivered(st, ItemScript(s.n, Scatter(s)), ItemHeld(s.n, Scatter(s), Own(s)), data)
    ensures HasBlock(st.buf(r), s.n, r, s.counts[r], data)
  {
    if r == s.root {
      BlockInAll(s.n, s.counts, s.n, r);
      OwnDelivered(s.n, Scatter(s), Own(s), data, st, r, r, s.counts[r]);
    } else {
      var v := Virt(s, r);
      RootIsZero(s);
      RecvListed(s, v, 0);
      ItemDelivered(s.n, Scatter(s), Own(s), data, st, r, RecvItem(s, v, 0));
    }
  }

  /** If the table is right, no run gets stuck although every send waits for its receive, and every rank ends with
      its own block. */
  lemma TreeScatterDelivers<V(!new)>(s: Setup, data: nat -> V, run: seq<Event>)
    requires Fits(s) && TableRight(s) && IsRun(ScatterNet(s, data), run)
    ensures |ScatterNet(s, data).progs| == |ScatterNet(s, data).init| && OnItsWay(ScatterNet(s, data), data, run)
    ensures |run| == TotalWork(ScatterNet(s, data)) ==> Scattered(After(ScatterNet(s, data), run), s, data)
  {
    var net, items, own := ScatterNet(s, data), Scatter(s), Own(s);
    ScatterWorks(s);
    ItemsDeliver(s.n, items, MessageTimes(s), own);
    ScriptDelivers(ItemScript(s.n, items), ItemClock(items, MessageTimes(s)), ItemOther(items), ItemHeld(s.n, items, own), data, run);
    if |run| == TotalWork(net) {
      var st := After(net, run);
      forall r: nat | r < s.n ensures HasBlock(st.buf(r), s.n, r, s.counts[r], data) {
        OwnBlockArrives(s, data, st, r);
      }
    }
  }

  // ----- when they do not -----

  /** On every edge the messages that are sent are the ones that are received. */
  ghost predicate AllMatched(s: Setup)
    requires Fits(s)
  {
    var progs := Progs(ItemScript(s.n, Scatter(s)));
    forall a: nat, b: nat :: a < s.n && b < s.n ==> EdgeMatched(progs, a, b)
  }

  /** The rank between the root and `w`. */
  lemma {:induction false} ChildOfRoot(n: nat, w: nat) returns (c: nat)
    requires 0 < w < n
    ensures 0 < c < n && ParentOf(n, c) == 0 && InSubtree(n, c, w)
    decreases w
  {
    if ParentOf(n, w) == 0 {
      c := w;
    } else {
      c := ChildOfRoot(n, ParentOf(n, w));
      SubtreeIs(n, c, ParentOf(n, w));
      SubtreeIs(n, c, w);
    }
  }

  lemma MessageTo(s: Setup, c: nat, it: Item) returns (i: nat)
    requires Fits(s) && 0 < c < s.n && ParentOf(s.n, c) == 0
    requires it in Scatter(s)(s.root) && it.peer == Act(s, c) && it.sending
    ensures i < SizeOf(s.n, c) && it == SendItem(s, 0, c, i)
  {
    RootIsZero(s);
    var d, j := OnTree(s, 0, it);
    i := j;
    assert Virt(s, Act(s, d)) == Virt(s, Act(s, c));
  }

  lemma MessageFrom(s: Setup, c: nat, it: Item) returns (i: nat)
    requires Fits(s) && 0 < c < s.n && ParentOf(s.n, c) == 0
    requires it in Scatter(s)(Act(s, c)) && !it.sending
    ensures i < SizeOf(s.n, c) && it == RecvItem(s, c, i)
  {
    var d, j := OnTree(s, c, it);
    i := j;
  }

  /** The block of a message tells its place. */
  lemma SamePlace(s: Setup, v: nat, w: nat)
    requires Fits(s) && v < s.n && w < s.n && Act(s, v) == Act(s, w)
    ensures v == w
  {
    assert Virt(s, Act(s, v)) == Virt(s, Act(s, w));
  }

  lemma MatchedItem(s: Setup, r: nat, it: Item) returns (other: Item)
    requires Fits(s) && AllMatched(s) && r < s.n && it in Scatter(s)(r) && it.peer < s.n
    ensures other in Scatter(s)(it.peer) && other.peer == r && other.sending == !it.sending
    ensures other.count == it.count && (it.count > 0 ==> other.block == it.block)
  {
    var progs := Progs(ItemScript(s.n, Scatter(s)));
    assert if it.sending then EdgeMatched(progs, r, it.peer) else EdgeMatched(progs, it.peer, r);
    other := MatchedPayload(s.n, Scatter(s), r, it);
    PayloadTells(s.n, it.block, it.count, other.block, other.count);
  }

  /** What `c` receives for the block of `w`, which lies below it, has the count of the table. */
  lemma RecvTells(s: Setup, c: nat, w: nat, it: Item)
    requires Fits(s) && 0 < c < w < s.n && ParentOf(s.n, c) == 0
    requires it in Scatter(s)(Act(s, c)) && !it.sending && it.block == Act(s, w)
    ensures it.count == TableCount(s, w)
  {
    var j := MessageFrom(s, c, it);
    SamePlace(s, c + j, w);
  }

  /** What the root sends to `c` for the block of `w` has the root's count. */
  lemma SendTells(s: Setup, c: nat, w: nat, it: Item)
    requires Fits(s) && 0 < c < s.n && w < s.n && ParentOf(s.n, c) == 0
    requires it in Scatter(s)(s.root) && it.peer == Act(s, c) && it.sending && it.block == Act(s, w)
    ensures it.count == RootCount(s, w)
  {
    var j := MessageTo(s, c, it);
    SamePlace(s, c + j, w);
  }

  /** If the root's message for the block of `w` is matched, it has the count of the table. */
  lemma SentIsRight(s: Setup, c: nat, w: nat, it: Item)
    requires Fits(s) && AllMatched(s) && 0 < c < w < s.n && ParentOf(s.n, c) == 0
    requires it in Scatter(s)(s.root) && it.peer == Act(s, c) && it.sending && it.block == Act(s, w) && it.count > 0
    ensures it.count == TableCount(s, w)
  {
    var other := MatchedItem(s, s.root, it);
    RecvTells(s, c, w, other);
  }

  /** If what `c` receives for the block of `w` is matched, it has the root's count. */
  lemma ReceivedIsRight(s: Setup, c: nat, w: nat, it: Item)
    requires Fits(s) && AllMatched(s) && 0 < c < w < s.n && ParentOf(s.n, c) == 0
    requires it in Scatter(s)(Act(s, c)) && it.peer == s.root && !it.sending && it.block == Act(s, w) && it.count > 0
    ensures it.count == RootCount(s, w)
  {
    var other := MatchedItem(s, Act(s, c), it);
    SendTells(s, c, w, other);
  }

  /** The message for the block of `c + i` that the root sends to its child `c`. */
  lemma RootSends(s: Setup, c: nat, i: nat) returns (it: Item)
    requires Fits(s) && 0 < c < s.n && i < SizeOf(s.n, c) && ParentOf(s.n, c) == 0
    ensures it in Scatter(s)(s.root) && it == Item(true, Act(s, c), Act(s, c + i), RootCount(s, c + i))
  {
    RootIsZero(s);
    SendListed(s, c, i);
    it := SendItem(s, 0, c, i);
  }

  lemma ChildReceives(s: Setup, c: nat, i: nat) returns (it: Item)
    requires Fits(s) && 0 < c < s.n && 0 < i < SizeOf(s.n, c) && ParentOf(s.n, c) == 0
    ensures it in Scatter(s)(Act(s, c)) && it == Item(false, s.root, Act(s, c + i), TableCount(s, c + i))
  {
    RootIsZero(s);
    RecvListed(s, c, i);
    it := RecvItem(s, c, i);
  }

  /** If the edge from the root to its child is matched, the table is right about the blocks below the child. */
  lemma RightBelow(s: Setup, c: nat, i: nat)
    requires Fits(s) && AllMatched(s) && 0 < c < s.n && 0 < i < SizeOf(s.n, c) && ParentOf(s.n, c) == 0
    ensures TableCount(s, c + i) == RootCount(s, c + i)
  {
    if RootCount(s, c + i) > 0 {
      var it := RootSends(s, c, i);
      SentIsRight(s, c, c + i, it);
    } else if TableCount(s, c + i) > 0 {
      var it := ChildReceives(s, c, i);
      ReceivedIsRight(s, c, c + i, it);
    }
  }

  lemma BelowChild(n: nat, w: nat) returns (c: nat, i: nat)
    requires Forwarded(n, w)
    ensures 0 < c < n && 0 < i < SizeOf(n, c) && ParentOf(n, c) == 0 && w == c + i
  {
    c := ChildOfRoot(n, w);
    i := w - c;
  }

  lemma MatchedIsRight(s: Setup, w: nat)
    requires Fits(s) && AllMatched(s) && w < s.n && Forwarded(s.n, w)
    ensures TableCount(s, w) == RootCount(s, w)
  {
    var c, i := BelowChild(s.n, w);
    RightBelow(s, c, i);
  }

  lemma WorksIsMatched(s: Setup)
    requires Fits(s) && TableRight(s)
    ensures AllMatched(s)
  {
    ScatterWorks(s);
    ItemsDeliver(s.n, Scatter(s), MessageTimes(s), Own(s));
    var d: nat -> nat := (x: nat) => x;
    ScriptSound(ItemScript(s.n, Scatter(s)), ItemClock(Scatter(s), MessageTimes(s)), ItemOther(Scatter(s)),
                ItemHeld(s.n, Scatter(s), Own(s)), d);
  }

  /** The two ends of every edge agree exactly if the table is right about the forwarded blocks. */
  lemma MatchedIffTableRight(s: Setup)
    requires Fits(s)
    ensures AllMatched(s) <==> TableRight(s)
  {
    if AllMatched(s) {
      forall w: nat | w < s.n && Forwarded(s.n, w) ensures TableCount(s, w) == RootCount(s, w) {
        MatchedIsRight(s, w);
      }
    }
    if TableRight(s) {
      WorksIsMatched(s);
    }
  }

  /** Rank 0 fills in its contribution only if it is the root; otherwise the table holds anything. */
  predicate MayHold(s: Setup)
  {
    s.root == 0 ==> s.table == s.counts
  }

  ghost predicate AlwaysRight(n: nat, root: nat, counts: seq<nat>)
    requires n >= 2 && root < n && |counts| == n
  {
    forall table: seq<nat> :: |table| == n && MayHold(Setup(n, root, counts, table)) ==>
      TableRight(Setup(n, root, counts, table))
  }

  ghost predicate AlwaysMatched(n: nat, root: nat, counts: seq<nat>)
    requires n >= 2 && root < n && |counts| == n
  {
    forall table: seq<nat> :: |table| == n && MayHold(Setup(n, root, counts, table)) ==>
      AllMatched(Setup(n, root, counts, table))
  }

  lemma SmallTrees(n: nat, w: nat)
    requires 2 <= n <= 3 && 0 < w < n
    ensures ParentOf(n, w) == 0
  {
    assert Pow(2, 0) == 1 && Pow(2, 1) == 2;
    if w == 2 {
      TopIs(n, 2, 2);
      assert 2 == Times(1, 2);
      TopAtLeast(n, 2, 2, 1);
      PowGrows(2, 1, Top(n, 2, 2));
      ParentHasKid(n, 2);
      KidIs(n, ParentOf(n, 2), 2);
    }
  }

  lemma SmallTableRight(s: Setup)
    requires Fits(s) && s.n <= 3
    ensures TableRight(s)
  {
    forall w: nat | w < s.n ensures !Forwarded(s.n, w) {
      if w > 0 {
        SmallTrees(s.n, w);
      }
    }
  }

  lemma ThreeIsForwarded(n: nat)
    requires n >= 4
    ensures Forwarded(n, 3)
  {
    assert Pow(2, 0) == 1 && Pow(2, 1) == 2 && Pow(2, 2) == 4;
    ParentHasKid(n, 3);
    KidIs(n, ParentOf(n, 3), 3);
    var t := Top(n, 2, 3);
    if t >= 2 {
      PowGrows(2, 2, t);
    }
  }

  /** Whatever the memory holds, the table is right exactly if rank 0 is the root or no block has to be forwarded. */
  lemma AlwaysRightIff(n: nat, root: nat, counts: seq<nat>)
    requires n >= 2 && root < n && |counts| == n
    ensures AlwaysRight(n, root, counts) <==> root == 0 || n <= 3
  {
    if root == 0 || n <= 3 {
      forall table: seq<nat> | |table| == n && MayHold(Setup(n, root, counts, table))
        ensures TableRight(Setup(n, root, counts, table))
      {
        if root != 0 {
          SmallTableRight(Setup(n, root, counts, table));
        }
      }
    } else {
      var table := WrongTable(n, root, counts);
    }
  }

  /** With another root and four ranks or more, the table can be wrong about virtual rank 3. */
  lemma WrongTable(n: nat, root: nat, counts: seq<nat>) returns (table: seq<nat>)
    requires n >= 4 && 0 < root < n && |counts| == n
    ensures |table| == n && MayHold(Setup(n, root, counts, table)) && !TableRight(Setup(n, root, counts, table))
  {
    var b := Act(Setup(n, root, counts, counts), 3);
    table := counts[b := counts[b] + 1];
    var s := Setup(n, root, counts, table);
    assert Act(s, 3) == b && TableCount(s, 3) != RootCount(s, 3);
    ThreeIsForwarded(n);
  }

  /** Whatever the memory holds, the calls match exactly if rank 0 is the root or there are at most three ranks. */
  lemma AlwaysMatchedIff(n: nat, root: nat, counts: seq<nat>)
    requires n >= 2 && root < n && |counts| == n
    ensures AlwaysMatched(n, root, counts) <==> root == 0 || n <= 3
  {
    AlwaysRightIff(n, root, counts);
    forall table: seq<nat> | |table| == n
      ensures AllMatched(Setup(n, root, counts, table)) <==> TableRight(Setup(n, root, counts, table))
    {
      MatchedIffTableRight(Setup(n, root, counts, table));
    }
  }
}
