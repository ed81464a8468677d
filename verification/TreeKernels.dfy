/** The scatterv and gatherv routines of one rank: the calls in order, and the places in memory that they use.
    Blocks that are passed on wait in a staging area, one behind the other. */
module TreeKernels {
  import opened Network
  import opened Cyclic
  import opened KntreeIter
  import opened TreeOrder
  import opened Items
  import opened TreeScatter
  import opened TreeGather
  import opened TreeMemory
  import opened TreePlaces

  predicate BlocksFit(n: nat, items: seq<Item>)
  {
    forall i: nat :: i < |items| ==> items[i].block < n
  }

  function Placed(s: Setup, user: seq<nat>, v: nat, items: seq<Item>): seq<Access>
    requires Fits(s) && |user| == s.n && v < s.n && BlocksFit(s.n, items)
  {
    seq(|items|, i requires 0 <= i < |items| => Access(items[i], PlaceOf(s, user, v, items[i].block)))
  }

  // ----- ranks and blocks -----

  /** Counting on from a rank. */
  lemma ActShift(s: Setup, v: nat, i: nat)
    requires Fits(s) && v + i < s.n
    ensures Act(s, v + i) == Wrap(Act(s, v) + i, s.n)
  {
  }

  /** How far a block lies behind a rank, as the routines compute it. */
  lemma StagingIndex(s: Setup, v: nat, w: nat)
    requires Fits(s) && v < w < s.n
    ensures var myrank, idx := Act(s, v), Act(s, w);
      (if myrank < idx then idx - myrank - 1 else idx + s.n - myrank - 1) == w - v - 1
  {
  }

  /** The rank that is `i` places behind, and the count that the table gives for it. */
  method Behind(s: Setup, myrank: nat, i: nat) returns (idx: nat)
    requires Fits(s) && myrank < s.n && Virt(s, myrank) + i < s.n
    ensures idx < s.n && idx == Act(s, Virt(s, myrank) + i)
  {
    ActShift(s, Virt(s, myrank), i);
    idx := Forward(myrank, i, s.n);
  }

  ghost predicate DisplsOk(s: Setup, v: nat, displs: seq<nat>)
    requires Fits(s) && v < s.n
  {
    forall i: nat :: i < |displs| ==> v + i < s.n && displs[i] == Offset(s, v, i)
  }

  /** The displacements in the staging area. */
  method StagingDispls(s: Setup, myrank: nat, stagingCount: nat) returns (displs: seq<nat>)
    requires Fits(s) && myrank < s.n && Virt(s, myrank) + stagingCount < s.n
    ensures |displs| == stagingCount && DisplsOk(s, Virt(s, myrank), displs)
  {
    ghost var v := Virt(s, myrank);
    displs := [];
    var stagingLen: nat := 0;
    for i := 0 to stagingCount
      invariant |displs| == i && stagingLen == Offset(s, v, i) && DisplsOk(s, v, displs)
    {
      var idx := Behind(s, myrank, i + 1);
      displs := displs + [stagingLen];
      stagingLen := stagingLen + s.table[idx];
    }
  }

  // ----- scatterv -----

  function RecvAccess(s: Setup, user: seq<nat>, v: nat, i: nat): Access
    requires Fits(s) && |user| == s.n && 0 < v < s.n && i < SizeOf(s.n, v)
  {
    Access(RecvItem(s, v, i), PlaceOf(s, user, v, Act(s, v + i)))
  }

  function SendAccess(s: Setup, user: seq<nat>, v: nat, c: nat, i: nat): Access
    requires Fits(s) && |user| == s.n && v < s.n && c < s.n && i < SizeOf(s.n, c)
  {
    Access(SendItem(s, v, c, i), PlaceOf(s, user, v, Act(s, c + i)))
  }

  ghost predicate RecvLog(s: Setup, user: seq<nat>, v: nat, log: seq<Access>)
    requires Fits(s) && |user| == s.n && 0 < v < s.n && |log| <= SizeOf(s.n, v)
  {
    forall i: nat :: i < |log| ==> log[i] == RecvAccess(s, user, v, i)
  }

  ghost predicate SendLog(s: Setup, user: seq<nat>, v: nat, c: nat, log: seq<Access>)
    requires Fits(s) && |user| == s.n && v < s.n && c < s.n && |log| <= SizeOf(s.n, c)
  {
    forall i: nat :: i < |log| ==> log[i] == SendAccess(s, user, v, c, i)
  }

  lemma RecvLogIs(s: Setup, user: seq<nat>, v: nat, log: seq<Access>)
    requires Fits(s) && |user| == s.n && 0 < v < s.n && |log| == SizeOf(s.n, v) && RecvLog(s, user, v, log)
    ensures BlocksFit(s.n, RecvItems(s, v)) && log == Placed(s, user, v, RecvItems(s, v))
  {
    var all := RecvItems(s, v);
    forall i: nat | i < |all| ensures all[i] == log[i].item && all[i].block == Act(s, v + i) {
      assert log[i] == RecvAccess(s, user, v, i);
    }
  }

  lemma RecvLogNext(s: Setup, user: seq<nat>, v: nat, log: seq<Access>, access: Access)
    requires Fits(s) && |user| == s.n && 0 < v < s.n && |log| < SizeOf(s.n, v) && RecvLog(s, user, v, log)
    requires access == RecvAccess(s, user, v, |log|)
    ensures RecvLog(s, user, v, log + [access])
  {
  }

  lemma SendLogIs(s: Setup, user: seq<nat>, v: nat, c: nat, log: seq<Access>)
    requires Fits(s) && |user| == s.n && v < s.n && c < s.n && |log| == SizeOf(s.n, c) && SendLog(s, user, v, c, log)
    ensures BlocksFit(s.n, SendsTo(s, v, c)) && log == Placed(s, user, v, SendsTo(s, v, c))
  {
    var all := SendsTo(s, v, c);
    forall i: nat | i < |all| ensures all[i] == log[i].item && all[i].block == Act(s, c + i) {
      assert log[i] == SendAccess(s, user, v, c, i);
    }
  }

  lemma OwnAccess(s: Setup, user: seq<nat>, v: nat)
    requires Fits(s) && |user| == s.n && 0 < v < s.n
    ensures RecvAccess(s, user, v, 0) == Access(Item(false, Act(s, ParentOf(s.n, v)), Act(s, v), RootCount(s, v)),
                                          Place(Own, 0))
  {
  }

  lemma StagedAccess(s: Setup, user: seq<nat>, v: nat, i: nat)
    requires Fits(s) && |user| == s.n && 0 < v < s.n && 0 < i < SizeOf(s.n, v)
    ensures RecvAccess(s, user, v, i) == Access(Item(false, Act(s, ParentOf(s.n, v)), Act(s, v + i), TableCount(s, v + i)),
                                          Place(Staging, Offset(s, v, i - 1)))
  {
  }

  /** The receives: the own block, and then those for the staging area. */
  method ScatterRecvs(s: Setup, user: seq<nat>, myrank: nat, parent: nat, stagingCount: nat) returns (log: seq<Access>)
    requires Fits(s) && |user| == s.n && myrank < s.n && 0 < Virt(s, myrank)
    requires parent == Act(s, ParentOf(s.n, Virt(s, myrank))) && stagingCount + 1 == SizeOf(s.n, Virt(s, myrank))
    ensures BlocksFit(s.n, RecvItems(s, Virt(s, myrank)))
    ensures log == Placed(s, user, Virt(s, myrank), RecvItems(s, Virt(s, myrank)))
  {
    ghost var v := Virt(s, myrank);
    OwnAccess(s, user, v);
    log := [Access(Item(false, parent, myrank, s.counts[myrank]), Place(Own, 0))];
    var stagingLen: nat := 0;
    for i := 0 to stagingCount
      invariant |log| == i + 1 && stagingLen == Offset(s, v, i) && RecvLog(s, user, v, log)
    {
      var access;
      access, stagingLen := StagedRecv(s, user, myrank, parent, i + 1, stagingLen);
      RecvLogNext(s, user, v, log, access);
      log := log + [access];
    }
    RecvLogIs(s, user, v, log);
  }

  /** The receive of the `m`-th block into the staging area. */
  method StagedRecv(s: Setup, user: seq<nat>, myrank: nat, parent: nat, m: nat, stagingLen: nat)
    returns (access: Access, stagingLen': nat)
    requires Fits(s) && |user| == s.n && myrank < s.n && 0 < Virt(s, myrank) && 0 < m < SizeOf(s.n, Virt(s, myrank))
    requires parent == Act(s, ParentOf(s.n, Virt(s, myrank))) && stagingLen == Offset(s, Virt(s, myrank), m - 1)
    ensures access == RecvAccess(s, user, Virt(s, myrank), m) && stagingLen' == Offset(s, Virt(s, myrank), m)
  {
    StagedAccess(s, user, Virt(s, myrank), m);
    var idx := Behind(s, myrank, m);
    access := Access(Item(false, parent, idx, s.table[idx]), Place(Staging, stagingLen));
    stagingLen' := stagingLen + s.table[idx];
  }

  /** The place of the block that is `i` places behind `peer`. */
  method PlaceFor(s: Setup, user: seq<nat>, myrank: nat, idx: nat, displs: seq<nat>, ghost w: nat) returns (place: Place)
    requires Fits(s) && |user| == s.n && myrank < s.n && Virt(s, myrank) < w < s.n && idx == Act(s, w)
    requires DisplsOk(s, Virt(s, myrank), displs) && (myrank != s.root ==> w <= Virt(s, myrank) + |displs|)
    ensures place == PlaceOf(s, user, Virt(s, myrank), idx)
  {
    RootIsZero(s);
    StagingIndex(s, Virt(s, myrank), w);
    if myrank == s.root {
      place := Place(User, user[idx]);
    } else {
      var stagingIdx := if myrank < idx then idx - myrank - 1 else idx + s.n - myrank - 1;
      place := Place(Staging, displs[stagingIdx]);
    }
  }

  /** The send of the `i`-th block of a child's subtree. */
  method ScatterSend(s: Setup, user: seq<nat>, myrank: nat, peer: nat, i: nat, displs: seq<nat>) returns (access: Access)
    requires Fits(s) && |user| == s.n && myrank < s.n && peer < s.n && Virt(s, myrank) < Virt(s, peer)
    requires i < SizeOf(s.n, Virt(s, peer)) && DisplsOk(s, Virt(s, myrank), displs)
    requires myrank != s.root ==> Virt(s, peer) + i < Virt(s, myrank) + |displs| + 1
    ensures access == SendAccess(s, user, Virt(s, myrank), Virt(s, peer), i)
  {
    RootIsZero(s);
    var idx := Behind(s, peer, i);
    var place := PlaceFor(s, user, myrank, idx, displs, Virt(s, peer) + i);
    var count := if myrank == s.root then s.counts[idx] else s.table[idx];
    access := Access(Item(true, peer, idx, count), place);
  }

  /** The sends to one child. */
  method ScatterSendsTo(s: Setup, user: seq<nat>, myrank: nat, peer: nat, childrenSize: nat, displs: seq<nat>)
    returns (log: seq<Access>)
    requires Fits(s) && |user| == s.n && myrank < s.n && peer < s.n && Virt(s, myrank) < Virt(s, peer)
    requires childrenSize == SizeOf(s.n, Virt(s, peer)) && DisplsOk(s, Virt(s, myrank), displs)
    requires myrank != s.root ==> Virt(s, peer) + childrenSize <= Virt(s, myrank) + |displs| + 1
    ensures BlocksFit(s.n, SendsTo(s, Virt(s, myrank), Virt(s, peer)))
    ensures log == Placed(s, user, Virt(s, myrank), SendsTo(s, Virt(s, myrank), Virt(s, peer)))
  {
    ghost var v, c := Virt(s, myrank), Virt(s, peer);
    RootIsZero(s);
    log := [];
    for i := 0 to childrenSize
      invariant |log| == i && SendLog(s, user, v, c, log)
    {
      var access := ScatterSend(s, user, myrank, peer, i, displs);
      log := log + [access];
    }
    SendLogIs(s, user, v, c, log);
  }

  lemma SendsNext(s: Setup, v: nat, kids: seq<nat>, i: nat)
    requires Fits(s) && v < s.n && AllBelow(kids, s.n) && i < |kids|
    ensures AllBelow(kids[i..], s.n) && AllBelow(kids[i + 1..], s.n) && kids[i] < s.n
    ensures SendItems(s, v, kids[i..]) == SendsTo(s, v, kids[i]) + SendItems(s, v, kids[i + 1..])
    ensures RecvsAll(s, v, kids[i..]) == RecvsFrom(s, v, kids[i], SizeOf(s.n, kids[i])) + RecvsAll(s, v, kids[i + 1..])
  {
    assert kids[i..][0] == kids[i] && kids[i..][1..] == kids[i + 1..];
  }

  lemma PlacedIs(s: Setup, user: seq<nat>, v: nat, items: seq<Item>)
    requires Fits(s) && |user| == s.n && v < s.n && BlocksFit(s.n, items)
    ensures ItemsOf(Placed(s, user, v, items)) == items && InPlace(s, user, v, Placed(s, user, v, items))
  {
  }

  lemma LogsJoin(s: Setup, user: seq<nat>, v: nat, x: seq<Access>, y: seq<Access>)
    requires Fits(s) && |user| == s.n && v < s.n && InPlace(s, user, v, x) && InPlace(s, user, v, y)
    ensures InPlace(s, user, v, x + y) && ItemsOf(x + y) == ItemsOf(x) + ItemsOf(y)
  {
  }

  /** The children before the `i`-th have been served. */
  ghost predicate Sent(s: Setup, user: seq<nat>, v: nat, kids: seq<nat>, i: nat, log: seq<Access>)
    requires Fits(s) && |user| == s.n && v < s.n && AllBelow(kids, s.n) && i <= |kids|
  {
    InPlace(s, user, v, log) && AllBelow(kids[i..], s.n) && ItemsOf(log) + SendItems(s, v, kids[i..]) == SendItems(s, v, kids)
  }

  ghost predicate Received(s: Setup, user: seq<nat>, v: nat, kids: seq<nat>, i: nat, log: seq<Access>)
    requires Fits(s) && |user| == s.n && v < s.n && AllBelow(kids, s.n) && i <= |kids|
  {
    InPlace(s, user, v, log) && AllBelow(kids[i..], s.n) && ItemsOf(log) + RecvsAll(s, v, kids[i..]) == RecvsAll(s, v, kids)
  }

  lemma Glue(a: seq<Item>, b: seq<Item>, c: seq<Item>, d: seq<Item>)
    requires d == b + c
    ensures (a + b) + c == a + d
  {
  }

  lemma SentNext(s: Setup, user: seq<nat>, v: nat, kids: seq<nat>, i: nat, log: seq<Access>, more: seq<Access>)
    requires Fits(s) && |user| == s.n && v < s.n && AllBelow(kids, s.n) && i < |kids| && Sent(s, user, v, kids, i, log)
    requires InPlace(s, user, v, more) && ItemsOf(more) == SendsTo(s, v, kids[i])
    ensures Sent(s, user, v, kids, i + 1, log + more)
  {
    SendsNext(s, v, kids, i);
    LogsJoin(s, user, v, log, more);
    Glue(ItemsOf(log), ItemsOf(more), SendItems(s, v, kids[i + 1..]), SendItems(s, v, kids[i..]));
  }

  lemma ReceivedNext(s: Setup, user: seq<nat>, v: nat, kids: seq<nat>, i: nat, log: seq<Access>, more: seq<Access>)
    requires Fits(s) && |user| == s.n && v < s.n && AllBelow(kids, s.n) && i < |kids|
    requires Received(s, user, v, kids, i, log)
    requires InPlace(s, user, v, more) && ItemsOf(more) == RecvsFrom(s, v, kids[i], SizeOf(s.n, kids[i]))
    ensures Received(s, user, v, kids, i + 1, log + more)
  {
    SendsNext(s, v, kids, i);
    LogsJoin(s, user, v, log, more);
    Glue(ItemsOf(log), ItemsOf(more), RecvsAll(s, v, kids[i + 1..]), RecvsAll(s, v, kids[i..]));
  }

  lemma BeforeFirst(s: Setup, user: seq<nat>, v: nat, kids: seq<nat>)
    requires Fits(s) && |user| == s.n && v < s.n && AllBelow(kids, s.n)
    ensures Sent(s, user, v, kids, 0, []) && Received(s, user, v, kids, 0, [])
  {
    assert kids[0..] == kids;
  }

  lemma AllSent(s: Setup, user: seq<nat>, v: nat, kids: seq<nat>, log: seq<Access>)
    requires Fits(s) && |user| == s.n && v < s.n && AllBelow(kids, s.n) && Sent(s, user, v, kids, |kids|, log)
    ensures InPlace(s, user, v, log) && ItemsOf(log) == SendItems(s, v, kids)
  {
    assert kids[|kids|..] == [];
  }

  lemma AllReceived(s: Setup, user: seq<nat>, v: nat, kids: seq<nat>, log: seq<Access>)
    requires Fits(s) && |user| == s.n && v < s.n && AllBelow(kids, s.n) && Received(s, user, v, kids, |kids|, log)
    ensures InPlace(s, user, v, log) && ItemsOf(log) == RecvsAll(s, v, kids)
  {
    assert kids[|kids|..] == [];
  }

  /** A child that the iterator stands at, as a rank. */
  lemma ChildRank(s: Setup, v: nat, kids: seq<nat>, i: nat)
    requires Fits(s) && v < s.n && kids == KidsOf(s.n, v) && i < |kids|
    ensures v < kids[i] < s.n && kids[i] + SizeOf(s.n, kids[i]) <= v + SizeOf(s.n, v)
    ensures Actual(s.n, s.root, kids[i]) < s.n && Virt(s, Actual(s.n, s.root, kids[i])) == kids[i]
  {
    assert kids[i] in kids;
    KidInside(s.n, v, kids[i]);
    VirtualActual(s.n, s.root, kids[i]);
  }

  method ScatterChild(s: Setup, user: seq<nat>, myrank: nat, peer: nat, displs: seq<nat>, ghost c: nat)
    returns (log: seq<Access>)
    requires Fits(s) && |user| == s.n && myrank < s.n && peer < s.n && Virt(s, myrank) < c == Virt(s, peer)
    requires c + SizeOf(s.n, c) <= Virt(s, myrank) + SizeOf(s.n, Virt(s, myrank))
    requires DisplsOk(s, Virt(s, myrank), displs)
    requires myrank != s.root ==> |displs| + 1 == SizeOf(s.n, Virt(s, myrank))
    ensures ItemsOf(log) == SendsTo(s, Virt(s, myrank), c) && InPlace(s, user, Virt(s, myrank), log)
  {
    var size := GetSubtreeSize(s.n, 2, s.root, peer);
    log := ScatterSendsTo(s, user, myrank, peer, size, displs);
    PlacedIs(s, user, Virt(s, myrank), SendsTo(s, Virt(s, myrank), c));
  }

  /** The sends to all children. */
  method ScatterChildren(s: Setup, user: seq<nat>, myrank: nat, iter: Iterator, displs: seq<nat>)
    returns (log: seq<Access>)
    requires Fits(s) && |user| == s.n && myrank < s.n && AllBelow(KidsOf(s.n, Virt(s, myrank)), s.n)
    requires Standing(iter, s.n, s.root, KidsOf(s.n, Virt(s, myrank)), 0)
    requires DisplsOk(s, Virt(s, myrank), displs)
    requires myrank != s.root ==> |displs| + 1 == SizeOf(s.n, Virt(s, myrank))
    modifies iter
    ensures ItemsOf(log) == SendItems(s, Virt(s, myrank), KidsOf(s.n, Virt(s, myrank)))
    ensures InPlace(s, user, Virt(s, myrank), log)
  {
    ghost var v := Virt(s, myrank);
    ghost var kids, i: nat := KidsOf(s.n, v), 0;
    log := [];
    BeforeFirst(s, user, v, kids);
    AtChild(iter, s.n, s.root, kids, 0);
    while iter.child.Some?
      invariant Standing(iter, s.n, s.root, kids, i) && Sent(s, user, v, kids, i, log)
      invariant iter.child.Some? <==> i < |kids|
      decreases |kids| - i
    {
      AtChild(iter, s.n, s.root, kids, i);
      ChildRank(s, v, kids, i);
      var sends := ScatterChild(s, user, myrank, iter.child.value, displs, kids[i]);
      SentNext(s, user, v, kids, i, log, sends);
      log := log + sends;
      StepOn(iter, s.n, s.root, kids, i);
      i := i + 1;
      AtChild(iter, s.n, s.root, kids, i);
    }
    AllSent(s, user, v, kids, log);
  }

  /** The iterator over the children of a rank, and its parent. */
  method ChildrenOf(s: Setup, myrank: nat) returns (iter: Iterator)
    requires Fits(s) && myrank < s.n
    ensures fresh(iter) && AllBelow(KidsOf(s.n, Virt(s, myrank)), s.n)
    ensures Standing(iter, s.n, s.root, KidsOf(s.n, Virt(s, myrank)), 0)
    ensures (iter.parent.None? <==> myrank == s.root) && (myrank == s.root <==> Virt(s, myrank) == 0)
    ensures myrank != s.root ==> iter.parent == Some(Act(s, ParentOf(s.n, Virt(s, myrank))))
  {
    RootIsZero(s);
    KidsBelow(s.n, Virt(s, myrank));
    iter := new Iterator(s.n, 2, s.root, myrank, true);
    assert KidsOf(s.n, Virt(s, myrank))[0..] == KidsOf(s.n, Virt(s, myrank));
  }

  /** The staging area of a rank with a parent: the number of blocks behind its own, and their offsets. */
  method StagingArea(s: Setup, myrank: nat) returns (stagingCount: nat, displs: seq<nat>)
    requires Fits(s) && myrank < s.n && myrank != s.root
    ensures stagingCount + 1 == SizeOf(s.n, Virt(s, myrank)) && |displs| == stagingCount
    ensures DisplsOk(s, Virt(s, myrank), displs)
  {
    var size := GetSubtreeSize(s.n, 2, s.root, myrank);
    stagingCount := size - 1;
    displs := StagingDispls(s, myrank, stagingCount);
  }

  lemma ScatterIs(s: Setup, r: nat)
    requires Fits(s) && r < s.n && AllBelow(KidsOf(s.n, Virt(s, r)), s.n)
    ensures Scatter(s)(r) == RecvItems(s, Virt(s, r)) + SendItems(s, Virt(s, r), KidsOf(s.n, Virt(s, r)))
  {
  }

  /** The calls of one rank. */
  method ScatterCalls(s: Setup, user: seq<nat>, myrank: nat) returns (log: seq<Access>)
    requires Fits(s) && |user| == s.n && myrank < s.n
    ensures ItemsOf(log) == Scatter(s)(myrank) && InPlace(s, user, Virt(s, myrank), log)
  {
    ghost var v := Virt(s, myrank);
    var iter := ChildrenOf(s, myrank);
    log := [];
    var displs, stagingCount := [], 0;
    if iter.parent.Some? {
      stagingCount, displs := StagingArea(s, myrank);
      log := ScatterRecvs(s, user, myrank, iter.parent.value, stagingCount);
      PlacedIs(s, user, v, RecvItems(s, v));
    }
    var sends := ScatterChildren(s, user, myrank, iter, displs);
    LogsJoin(s, user, v, log, sends);
    log := log + sends;
    ScatterIs(s, myrank);
  }

  /** What one rank does in a scatterv: the calls of its script.  The root reads every block at the caller's place for
      it; the others read a block where they have stored it, and no two blocks overlap. */
  method ScattervKntree<V(!new)>(s: Setup, user: seq<nat>, myrank: nat, ghost mem: Cell -> V, ghost data: nat -> V)
    returns (log: seq<Access>)
    requires Fits(s) && |user| == s.n && myrank < s.n
    ensures ItemsOf(log) == Scatter(s)(myrank) && ScatterMemory(s, user, myrank, log, mem, data)
    ensures myrank == s.root ==> AtUser(s, user, log)
    ensures myrank != s.root || UserApart(s, user) ==> Tidy(log)
  {
    log := ScatterCalls(s, user, myrank);
    ScatterMemoryOk(s, user, myrank, log, mem, data);
  }

  // ----- gatherv -----

  /** The receives from one child; empty blocks are passed over. */
  method GatherRecvsFrom(s: Setup, user: seq<nat>, myrank: nat, peer: nat, childrenSize: nat, displs: seq<nat>)
    returns (log: seq<Access>)
    requires Fits(s) && |user| == s.n && myrank < s.n && peer < s.n && Virt(s, myrank) < Virt(s, peer)
    requires childrenSize == SizeOf(s.n, Virt(s, peer)) && DisplsOk(s, Virt(s, myrank), displs)
    requires myrank != s.root ==> Virt(s, peer) + childrenSize <= Virt(s, myrank) + |displs| + 1
    ensures ItemsOf(log) == RecvsFrom(s, Virt(s, myrank), Virt(s, peer), childrenSize)
    ensures InPlace(s, user, Virt(s, myrank), log)
  {
    ghost var v, c := Virt(s, myrank), Virt(s, peer);
    RootIsZero(s);
    log := [];
    for i := 0 to childrenSize
      invariant ItemsOf(log) == RecvsFrom(s, v, c, i) && InPlace(s, user, v, log)
    {
      var idx := Behind(s, peer, i);
      var place := PlaceFor(s, user, myrank, idx, displs, c + i);
      var count := if myrank == s.root then s.counts[idx] else s.table[idx];
      var it := Item(false, peer, idx, count);
      assert it == Flip(SendItem(s, v, c, i));
      if count > 0 {
        AppendAccess(s, user, v, log, it, place);
        log := log + [Access(it, place)];
      }
    }
  }

  lemma AppendAccess(s: Setup, user: seq<nat>, v: nat, log: seq<Access>, it: Item, place: Place)
    requires Fits(s) && |user| == s.n && v < s.n && InPlace(s, user, v, log) && it.block < s.n
    requires place == PlaceOf(s, user, v, it.block)
    ensures InPlace(s, user, v, log + [Access(it, place)]) && ItemsOf(log + [Access(it, place)]) == ItemsOf(log) + [it]
  {
  }

  lemma UpNext(s: Setup, v: nat, m: nat, it: Item)
    requires Fits(s) && 0 < v < s.n && m < SizeOf(s.n, v) && it == Flip(RecvItem(s, v, m))
    ensures SendsUp(s, v, m + 1) == SendsUp(s, v, m) + if it.count > 0 then [it] else []
  {
  }

  /** Logs a send unless the block is empty. */
  method LogSend(s: Setup, user: seq<nat>, ghost v: nat, log: seq<Access>, it: Item, place: Place)
    returns (log': seq<Access>)
    requires Fits(s) && |user| == s.n && v < s.n && InPlace(s, user, v, log) && it.block < s.n
    requires place == PlaceOf(s, user, v, it.block)
    ensures InPlace(s, user, v, log') && ItemsOf(log') == ItemsOf(log) + if it.count > 0 then [it] else []
  {
    log' := log;
    if it.count > 0 {
      AppendAccess(s, user, v, log, it, place);
      log' := log + [Access(it, place)];
    }
  }

  /** The sends to the parent: the own block, and then those from the staging area. */
  method GatherSends(s: Setup, user: seq<nat>, myrank: nat, parent: nat, stagingCount: nat) returns (log: seq<Access>)
    requires Fits(s) && |user| == s.n && myrank < s.n && 0 < Virt(s, myrank)
    requires parent == Act(s, ParentOf(s.n, Virt(s, myrank))) && stagingCount + 1 == SizeOf(s.n, Virt(s, myrank))
    ensures ItemsOf(log) == SendsUp(s, Virt(s, myrank), stagingCount + 1) && InPlace(s, user, Virt(s, myrank), log)
  {
    ghost var v := Virt(s, myrank);
    OwnAccess(s, user, v);
    var own := Item(true, parent, myrank, s.counts[myrank]);
    UpNext(s, v, 0, own);
    log := LogSend(s, user, v, [], own, Place(Own, 0));
    var stagingLen: nat := 0;
    for i := 0 to stagingCount
      invariant UpTo(s, user, v, i + 1, log) && stagingLen == Offset(s, v, i)
    {
      log, stagingLen := StagedSend(s, user, myrank, parent, i + 1, stagingLen, log);
    }
  }

  ghost predicate UpTo(s: Setup, user: seq<nat>, v: nat, m: nat, log: seq<Access>)
    requires Fits(s) && |user| == s.n && 0 < v < s.n && m <= SizeOf(s.n, v)
  {
    ItemsOf(log) == SendsUp(s, v, m) && InPlace(s, user, v, log)
  }

  /** The send of the `m`-th block, from the staging area. */
  method StagedSend(s: Setup, user: seq<nat>, myrank: nat, parent: nat, m: nat, stagingLen: nat, log: seq<Access>)
    returns (log': seq<Access>, stagingLen': nat)
    requires Fits(s) && |user| == s.n && myrank < s.n && 0 < Virt(s, myrank) && 0 < m < SizeOf(s.n, Virt(s, myrank))
    requires parent == Act(s, ParentOf(s.n, Virt(s, myrank)))
    requires UpTo(s, user, Virt(s, myrank), m, log) && stagingLen == Offset(s, Virt(s, myrank), m - 1)
    ensures UpTo(s, user, Virt(s, myrank), m + 1, log') && stagingLen' == Offset(s, Virt(s, myrank), m)
  {
    StagedAccess(s, user, Virt(s, myrank), m);
    var idx := Behind(s, myrank, m);
    var it := Item(true, parent, idx, s.table[idx]);
    UpNext(s, Virt(s, myrank), m, it);
    log' := LogSend(s, user, Virt(s, myrank), log, it, Place(Staging, stagingLen));
    stagingLen' := stagingLen + s.table[idx];
  }

  /** The receives from all children. */
  method GatherChildren(s: Setup, user: seq<nat>, myrank: nat, iter: Iterator, displs: seq<nat>)
    returns (log: seq<Access>)
    requires Fits(s) && |user| == s.n && myrank < s.n && AllBelow(KidsOf(s.n, Virt(s, myrank)), s.n)
    requires Standing(iter, s.n, s.root, KidsOf(s.n, Virt(s, myrank)), 0)
    requires DisplsOk(s, Virt(s, myrank), displs)
    requires myrank != s.root ==> |displs| + 1 == SizeOf(s.n, Virt(s, myrank))
    modifies iter
    ensures ItemsOf(log) == RecvsAll(s, Virt(s, myrank), KidsOf(s.n, Virt(s, myrank)))
    ensures InPlace(s, user, Virt(s, myrank), log)
  {
    ghost var v := Virt(s, myrank);
    ghost var kids, i: nat := KidsOf(s.n, v), 0;
    log := [];
    BeforeFirst(s, user, v, kids);
    AtChild(iter, s.n, s.root, kids, 0);
    while iter.child.Some?
      invariant Standing(iter, s.n, s.root, kids, i) && Received(s, user, v, kids, i, log)
      invariant iter.child.Some? <==> i < |kids|
      decreases |kids| - i
    {
      AtChild(iter, s.n, s.root, kids, i);
      ChildRank(s, v, kids, i);
      var size := GetSubtreeSize(s.n, 2, s.root, iter.child.value);
      var recvs := GatherRecvsFrom(s, user, myrank, iter.child.value, size, displs);
      ReceivedNext(s, user, v, kids, i, log, recvs);
      log := log + recvs;
      StepOn(iter, s.n, s.root, kids, i);
      i := i + 1;
      AtChild(iter, s.n, s.root, kids, i);
    }
    AllReceived(s, user, v, kids, log);
  }

  lemma GatherIs(s: Setup, r: nat, recvs: seq<Item>, sends: seq<Item>)
    requires Fits(s) && r < s.n && AllBelow(KidsOf(s.n, Virt(s, r)), s.n)
    requires recvs == RecvsAll(s, Virt(s, r), KidsOf(s.n, Virt(s, r)))
    requires sends == if Virt(s, r) == 0 then [] else SendsUp(s, Virt(s, r), SizeOf(s.n, Virt(s, r)))
    ensures Gather(s)(r) == recvs + sends
  {
  }

  /** The calls of one rank. */
  method GatherCalls(s: Setup, user: seq<nat>, myrank: nat) returns (log: seq<Access>)
    requires Fits(s) && |user| == s.n && myrank < s.n
    ensures ItemsOf(log) == Gather(s)(myrank) && InPlace(s, user, Virt(s, myrank), log)
  {
    var iter := ChildrenOf(s, myrank);
    var displs, stagingCount := [], 0;
    if iter.parent.Some? {
      stagingCount, displs := StagingArea(s, myrank);
    }
    var recvs := GatherChildren(s, user, myrank, iter, displs);
    var sends := [];
    if iter.parent.Some? {
      sends := GatherSends(s, user, myrank, iter.parent.value, stagingCount);
    }
    LogsJoin(s, user, Virt(s, myrank), recvs, sends);
    GatherIs(s, myrank, ItemsOf(recvs), ItemsOf(sends));
    log := recvs + sends;
  }

  /** What one rank does in a gatherv: the calls of its script.  A rank reads its own block from its own buffer and the
      others where it has stored them; the root stores every block at the caller's place for it. */
  method GathervKntree<V(!new)>(s: Setup, user: seq<nat>, myrank: nat, ghost mem: Cell -> V, ghost data: nat -> V)
    returns (log: seq<Access>)
    requires Fits(s) && |user| == s.n && myrank < s.n
    ensures ItemsOf(log) == Gather(s)(myrank) && GatherMemory(s, user, myrank, log, mem, data)
    ensures myrank == s.root ==> AtUser(s, user, log)
    ensures myrank != s.root || UserApart(s, user) ==> Tidy(log)
  {
    log := GatherCalls(s, user, myrank);
    GatherMemoryOk(s, user, myrank, log, mem, data);
  }
}
