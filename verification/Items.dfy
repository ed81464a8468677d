/** Scripts whose messages are labelled with the block that they carry. */
module Items {
  import opened Network
  import opened Rendezvous
  import opened Kntree

  /** A message to or from `peer` with the first `count` elements of `block`. */
  datatype Item = Item(sending: bool, peer: nat, block: nat, count: nat)

  /** Element `j` of block `b` among `n` blocks. */
  function Element(n: nat, b: nat, j: nat): nat
  {
    Times(j, n) + b
  }

  function Payload(n: nat, b: nat, count: nat): seq<nat>
  {
    seq(count, (j: nat) => Element(n, b, j))
  }

  function Elements(n: nat, b: nat, count: nat): set<nat>
  {
    set x | x in Payload(n, b, count)
  }

  function CallOf(n: nat, it: Item): Call
  {
    if it.sending then Send(it.peer, Payload(n, it.block, it.count)) else Recv(it.peer, Payload(n, it.block, it.count))
  }

  /** What rank `r`'s message looks like at the other end. */
  function Reply(r: nat, it: Item): Item
  {
    Item(!it.sending, r, it.block, it.count)
  }

  ghost function ItemScript(n: nat, items: nat -> seq<Item>): Script
  {
    Script(n, (r: nat) => |items(r)|,
           (r: nat, u: nat) => if u < |items(r)| then CallOf(n, items(r)[u]) else Send(0, []))
  }

  function IndexOf(s: seq<Item>, x: Item): (i: nat)
    ensures x in s ==> i < |s| && s[i] == x
  {
    if s == [] then 0 else if s[0] == x then 0 else 1 + IndexOf(s[1..], x)
  }

  ghost function ItemClock(items: nat -> seq<Item>, time: (nat, Item) -> nat): (nat, nat) -> nat
  {
    (r: nat, u: nat) => if u < |items(r)| then time(r, items(r)[u]) else 0
  }

  ghost function ItemOther(items: nat -> seq<Item>): (nat, nat) -> nat
  {
    (r: nat, u: nat) =>
      (if u < |items(r)| then IndexOf(items(items(r)[u].peer), Reply(r, items(r)[u])) else 0) as nat
  }

  /** The elements that the messages bring. */
  function Brought(n: nat, items: seq<Item>): set<nat>
  {
    if items == [] then {}
    else
      var front, last := items[..|items| - 1], items[|items| - 1];
      Brought(n, front) + if last.sending then {} else set x | x in Payload(n, last.block, last.count)
  }

  /** What a rank has before its `u`-th message. */
  ghost function ItemHeld(n: nat, items: nat -> seq<Item>, own: nat -> set<nat>): (nat, nat) -> set<nat>
  {
    (r: nat, u: nat) => own(r) + if u <= |items(r)| then Brought(n, items(r)[..u]) else {}
  }

  ghost predicate Answered(n: nat, items: nat -> seq<Item>, time: (nat, Item) -> nat, r: nat, it: Item)
  {
    it.peer < n && Reply(r, it) in items(it.peer) && time(it.peer, Reply(r, it)) == time(r, it)
  }

  ghost predicate InTime(items: seq<Item>, time: Item -> nat)
  {
    forall i: nat, j: nat :: i < j < |items| ==> time(items[i]) < time(items[j])
  }

  /** What is sent is the rank's own or has been received before. */
  ghost predicate HasBefore(n: nat, items: seq<Item>, own: set<nat>, u: nat)
    requires u < |items|
  {
    var it := items[u];
    it.sending ==>
      || (forall x :: x in Payload(n, it.block, it.count) ==> x in own)
      || exists i: nat :: i < u && !items[i].sending && items[i].block == it.block && items[i].count == it.count
  }

  ghost predicate Works(n: nat, items: nat -> seq<Item>, time: (nat, Item) -> nat, own: nat -> set<nat>)
  {
    && (forall r: nat, it :: r < n && it in items(r) ==> Answered(n, items, time, r, it))
    && (forall r: nat, i: nat, j: nat :: r < n && i < j < |items(r)| ==> time(r, items(r)[i]) < time(r, items(r)[j]))
    && (forall r: nat, u: nat :: r < n && u < |items(r)| ==> HasBefore(n, items(r), own(r), u))
  }

  lemma BroughtNext(n: nat, items: seq<Item>, u: nat)
    requires u < |items|
    ensures Brought(n, items[..u + 1]) == Brought(n, items[..u])
      + if items[u].sending then {} else set x | x in Payload(n, items[u].block, items[u].count)
  {
    assert items[..u + 1][..u] == items[..u];
  }

  /** A received block stays. */
  lemma {:induction false} BroughtHas(n: nat, items: seq<Item>, i: nat, u: nat, x: nat)
    requires i < u <= |items| && !items[i].sending && x in Payload(n, items[i].block, items[i].count)
    ensures x in Brought(n, items[..u])
    decreases u
  {
    BroughtNext(n, items, u - 1);
    if i < u - 1 {
      BroughtHas(n, items, i, u - 1, x);
    }
  }

  lemma ItemPaired(n: nat, items: nat -> seq<Item>, time: (nat, Item) -> nat, own: nat -> set<nat>, r: nat, u: nat)
    requires Works(n, items, time, own) && r < n && u < |items(r)|
    ensures Paired(ItemScript(n, items), ItemClock(items, time), ItemOther(items), r, u)
  {
    var it := items(r)[u];
    assert Answered(n, items, time, r, it);
    var v := IndexOf(items(it.peer), Reply(r, it));
    assert ItemOther(items)(r, u) == v && items(it.peer)[v] == Reply(r, it);
  }

  lemma ItemHolds(n: nat, items: nat -> seq<Item>, time: (nat, Item) -> nat, own: nat -> set<nat>, r: nat, u: nat)
    requires Works(n, items, time, own) && r < n && u < |items(r)|
    ensures CallHolds(ItemScript(n, items), ItemHeld(n, items, own), r, u)
  {
    var it := items(r)[u];
    var before := own(r) + Brought(n, items(r)[..u]);
    BroughtNext(n, items(r), u);
    assert ItemHeld(n, items, own)(r, u) == before;
    assert ItemHeld(n, items, own)(r, u + 1) == own(r) + Brought(n, items(r)[..u + 1]);
    if it.sending {
      SentIsHeld(n, items(r), own(r), u);
    }
  }

  lemma SentIsHeld(n: nat, items: seq<Item>, own: set<nat>, u: nat)
    requires u < |items| && items[u].sending && HasBefore(n, items, own, u)
    ensures forall x :: x in Payload(n, items[u].block, items[u].count) ==> x in own + Brought(n, items[..u])
  {
    if i: nat :| i < u && !items[i].sending && items[i].block == items[u].block && items[i].count == items[u].count {
      forall x | x in Payload(n, items[u].block, items[u].count) ensures x in Brought(n, items[..u]) {
        BroughtHas(n, items, i, u, x);
      }
    }
  }

  lemma ItemsDeliver(n: nat, items: nat -> seq<Item>, time: (nat, Item) -> nat, own: nat -> set<nat>)
    requires Works(n, items, time, own)
    ensures Delivers(ItemScript(n, items), ItemClock(items, time), ItemOther(items), ItemHeld(n, items, own))
  {
    var p, clock, other, h := ItemScript(n, items), ItemClock(items, time), ItemOther(items), ItemHeld(n, items, own);
    forall r: nat, u: nat | r < n && u < p.len(r) ensures Paired(p, clock, other, r, u) && CallHolds(p, h, r, u) {
      ItemPaired(n, items, time, own, r, u);
      ItemHolds(n, items, time, own, r, u);
    }
  }

  ghost function ItemNet<V>(n: nat, items: nat -> seq<Item>, own: nat -> set<nat>, data: nat -> V): Net<V>
  {
    NetOf(ItemScript(n, items), ItemHeld(n, items, own), data)
  }

  /** The element is there with the right content. */
  ghost predicate HasBlock<V>(buf: map<nat, V>, n: nat, b: nat, count: nat, data: nat -> V)
  {
    forall x :: x in Payload(n, b, count) ==> x in buf && buf[x] == data(x)
  }

  lemma OwnDelivered<V(!new)>(n: nat, items: nat -> seq<Item>, own: nat -> set<nat>, data: nat -> V, s: State<V>,
                              r: nat, b: nat, count: nat)
    requires AllDelivered(s, ItemScript(n, items), ItemHeld(n, items, own), data) && r < n
    requires forall x :: x in Payload(n, b, count) ==> x in own(r)
    ensures HasBlock(s.buf(r), n, b, count, data)
  {
    assert Has(s.buf(r), ItemHeld(n, items, own)(r, |items(r)|), data);
  }

  lemma ItemDelivered<V(!new)>(n: nat, items: nat -> seq<Item>, own: nat -> set<nat>, data: nat -> V, s: State<V>,
                               r: nat, it: Item)
    requires AllDelivered(s, ItemScript(n, items), ItemHeld(n, items, own), data) && r < n
    requires it in items(r) && !it.sending
    ensures HasBlock(s.buf(r), n, it.block, it.count, data)
  {
    var u := IndexOf(items(r), it);
    assert Has(s.buf(r), ItemHeld(n, items, own)(r, |items(r)|), data);
    forall x | x in Payload(n, it.block, it.count) ensures x in s.buf(r) && s.buf(r)[x] == data(x) {
      BroughtHas(n, items(r), u, |items(r)|, x);
    }
  }

  // ----- edges that do not match -----

  lemma {:induction false} TrafficHas(prog: Program, t: nat, u: nat, peer: nat, sending: bool, x: seq<nat>)
    requires u < t && x in StepTraffic(prog, u, peer, sending)
    ensures x in Traffic(prog, t, peer, sending)
  {
    if u < t - 1 {
      TrafficHas(prog, t - 1, u, peer, sending, x);
    }
  }

  lemma {:induction false} TrafficFrom(prog: Program, t: nat, peer: nat, sending: bool, x: seq<nat>) returns (u: nat)
    requires x in Traffic(prog, t, peer, sending)
    ensures u < t && x in StepTraffic(prog, u, peer, sending)
  {
    if x in Traffic(prog, t - 1, peer, sending) {
      u := TrafficFrom(prog, t - 1, peer, sending, x);
    } else {
      u := t - 1;
    }
  }

  /** On a matched edge every message has one with the same payload at the other end. */
  lemma MatchedPayload(n: nat, items: nat -> seq<Item>, r: nat, it: Item) returns (other: Item)
    requires r < n && it in items(r) && it.peer < n
    requires var progs := Progs(ItemScript(n, items));
      if it.sending then EdgeMatched(progs, r, it.peer) else EdgeMatched(progs, it.peer, r)
    ensures other in items(it.peer) && other.peer == r && other.sending == !it.sending
    ensures Payload(n, other.block, other.count) == Payload(n, it.block, it.count)
  {
    var p := ItemScript(n, items);
    var u := IndexOf(items(r), it);
    CallTraffic(p, r, u, it.peer, it.sending);
    var x := Payload(n, it.block, it.count);
    TrafficHas(Progs(p)[r], |Progs(p)[r]|, u, it.peer, it.sending, x);
    var v := TrafficFrom(Progs(p)[it.peer], |Progs(p)[it.peer]|, r, !it.sending, x);
    CallTraffic(p, it.peer, v, r, !it.sending);
    other := items(it.peer)[v];
  }

  /** A payload that is not empty tells block and count. */
  lemma PayloadTells(n: nat, b: nat, count: nat, b': nat, count': nat)
    requires Payload(n, b, count) == Payload(n, b', count')
    ensures count == count' && (count > 0 ==> b == b')
  {
    assert |Payload(n, b, count)| == count && |Payload(n, b', count')| == count';
    if count > 0 {
      assert Payload(n, b, count)[0] == Element(n, b, 0) && Payload(n, b', count')[0] == Element(n, b', 0);
    }
  }
}
