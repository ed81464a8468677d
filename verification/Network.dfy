/** Ranks that run step programs over first-in first-out channels.

    A step posts its sends and receives together, waits for all of them and then moves on, which is how
    every collective here uses the point-to-point layer.  All messages of one operation carry the same tag
    and the sender's rank, so on one directed pair of ranks the k-th send meets the k-th posted receive.

    The machine interleaves the ranks and the deliveries freely.  Everything proved about it at the end of
    the file holds for every run of every schedule that is `Sound` and `Live`.
 */
module Network {

  datatype Option<+T> = None | Some(value: T)

  /** A send to, or a receive from, `peer` of the data in `slots`, in that order. */
  datatype Msg = Msg(peer: nat, slots: seq<nat>)

  /** The local reduction that ends a step: slot `dst` becomes `lo op hi`. */
  datatype Fold = Fold(dst: nat, lo: nat, hi: nat)

  datatype Step = Step(sends: seq<Msg>, recvs: seq<Msg>, fold: Option<Fold>)

  type Program = seq<Step>

  /** A schedule: one program per rank, the slots each rank starts with, and the reduction operator. */
  datatype Net<!V> = Net(progs: seq<Program>, init: seq<map<nat, V>>, op: (V, V) -> V)

  /** A message under way; a slot the sender did not hold travels as None. */
  type Packet<V> = seq<Option<V>>

  datatype State<!V> = State(
    pc: nat -> nat,                        // the step each rank is at
    posted: nat -> bool,                   // whether that step's requests have been posted
    chan: (nat, nat) -> seq<Packet<V>>,    // sent and not yet received, by sender and receiver
    want: (nat, nat) -> seq<seq<nat>>,     // posted receives not yet matched, by sender and receiver
    buf: nat -> map<nat, V>)               // what each rank holds

  datatype Event = Post(rank: nat) | Deliver(src: nat, dst: nat) | Advance(rank: nat)

  // ----- the machine -----

  /** The payloads of `msgs` that concern `peer`, in posting order. */
  function To(msgs: seq<Msg>, peer: nat): seq<seq<nat>>
  {
    if msgs == [] then []
    else (if msgs[0].peer == peer then [msgs[0].slots] else []) + To(msgs[1..], peer)
  }

  function Pack<V>(buf: map<nat, V>, slots: seq<nat>): Packet<V>
  {
    seq(|slots|, i requires 0 <= i < |slots| => if slots[i] in buf then Some(buf[slots[i]]) else None)
  }

  function PackAll<V>(buf: map<nat, V>, msgs: seq<seq<nat>>): seq<Packet<V>>
  {
    seq(|msgs|, i requires 0 <= i < |msgs| => Pack(buf, msgs[i]))
  }

  /** Receiving writes the payload into the slots the receive was posted for. */
  function Store<V>(buf: map<nat, V>, slots: seq<nat>, packet: Packet<V>): map<nat, V>
    decreases |slots|
  {
    if slots == [] || packet == [] then buf
    else
      var buf' := if packet[0].Some? then buf[slots[0] := packet[0].value] else buf - {slots[0]};
      Store(buf', slots[1..], packet[1..])
  }

  function Reduce<V>(buf: map<nat, V>, fold: Option<Fold>, op: (V, V) -> V): map<nat, V>
  {
    if fold.Some? && fold.value.lo in buf && fold.value.hi in buf
    then buf[fold.value.dst := op(buf[fold.value.lo], buf[fold.value.hi])]
    else buf
  }

  /** The operator of schedules that do not reduce. */
  ghost function NoReduction<V>(): (V, V) -> V
  {
    (x: V, y: V) => x
  }

  ghost function Start<V>(net: Net<V>): State<V>
  {
    State((_: nat) => 0, (_: nat) => false, (_: nat, _: nat) => [], (_: nat, _: nat) => [],
          (r: nat) => if r < |net.init| then net.init[r] else map[])
  }

  /** With `sync` a rank also waits until its sends have been received; without, sends are buffered.
      A real run lies anywhere between the two. */
  ghost predicate Enabled<V>(net: Net<V>, s: State<V>, e: Event, sync: bool)
  {
    var n := |net.progs|;
    match e
    case Post(r) => r < n && !s.posted(r) && s.pc(r) < |net.progs[r]|
    case Deliver(a, b) => a < n && b < n && s.chan(a, b) != [] && s.want(a, b) != []
    case Advance(r) =>
      && r < n && s.posted(r)
      && (forall a: nat :: a < n ==> s.want(a, r) == [])
      && (sync ==> forall b: nat :: b < n ==> s.chan(r, b) == [])
  }

  ghost function DoPost<V>(net: Net<V>, s: State<V>, r: nat): State<V>
    requires r < |net.progs| && s.pc(r) < |net.progs[r]|
  {
    var step := net.progs[r][s.pc(r)];
    s.(posted := (x: nat) => if x == r then true else s.posted(x),
       chan := (a: nat, b: nat) => if a == r then s.chan(a, b) + PackAll(s.buf(r), To(step.sends, b)) else s.chan(a, b),
       want := (a: nat, b: nat) => if b == r then s.want(a, b) + To(step.recvs, a) else s.want(a, b))
  }

  ghost function DoDeliver<V>(s: State<V>, src: nat, dst: nat): State<V>
    requires s.chan(src, dst) != [] && s.want(src, dst) != []
  {
    var packet, slots := s.chan(src, dst)[0], s.want(src, dst)[0];
    s.(chan := (a: nat, b: nat) => if a == src && b == dst then s.chan(a, b)[1..] else s.chan(a, b),
       want := (a: nat, b: nat) => if a == src && b == dst then s.want(a, b)[1..] else s.want(a, b),
       buf := (x: nat) => if x == dst then Store(s.buf(x), slots, packet) else s.buf(x))
  }

  ghost function DoAdvance<V>(net: Net<V>, s: State<V>, r: nat): State<V>
  {
    s.(pc := (x: nat) => (if x == r then s.pc(x) + 1 else s.pc(x)) as nat,
       posted := (x: nat) => if x == r then false else s.posted(x),
       buf := (x: nat) => if x == r && r < |net.progs| && s.pc(r) < |net.progs[r]|
                   then Reduce(s.buf(x), net.progs[r][s.pc(r)].fold, net.op) else s.buf(x))
  }

  ghost function Next<V>(net: Net<V>, s: State<V>, e: Event): State<V>
    requires Enabled(net, s, e, false)
  {
    match e
    case Post(r) => DoPost(net, s, r)
    case Deliver(a, b) => DoDeliver(s, a, b)
    case Advance(r) => DoAdvance(net, s, r)
  }

  /** The state after `run`; an event that is not enabled does nothing. */
  ghost function After<V>(net: Net<V>, run: seq<Event>): State<V>
    decreases |run|
  {
    if run == [] then Start(net)
    else
      var s := After(net, run[..|run| - 1]);
      if Enabled(net, s, run[|run| - 1], false) then Next(net, s, run[|run| - 1]) else s
  }

  /** Every event of `run` is enabled when it happens. */
  ghost predicate IsRun<V>(net: Net<V>, run: seq<Event>)
    decreases |run|
  {
    run != [] ==>
      && IsRun(net, run[..|run| - 1])
      && Enabled(net, After(net, run[..|run| - 1]), run[|run| - 1], false)
  }

  /** Every rank has left its last step. */
  ghost predicate Finished<V>(net: Net<V>, s: State<V>)
  {
    forall r: nat :: r < |net.progs| ==> s.pc(r) == |net.progs[r]| && !s.posted(r)
  }

  // ----- what a schedule has to provide -----

  function StepTraffic(prog: Program, t: nat, peer: nat, sending: bool): seq<seq<nat>>
  {
    if t >= |prog| then [] else To(if sending then prog[t].sends else prog[t].recvs, peer)
  }

  /** The payloads a program sends to (or receives from) `peer` before step `t`. */
  function Traffic(prog: Program, t: nat, peer: nat, sending: bool): seq<seq<nat>>
  {
    if t == 0 then []
    else Traffic(prog, t - 1, peer, sending) + StepTraffic(prog, t - 1, peer, sending)
  }

  function SlotsOf(msgs: seq<Msg>): set<nat>
  {
    set m, x | m in msgs && x in m.slots :: x
  }

  /** The slots a rank holds before step `t`, by its own program. */
  function Held(own: set<nat>, prog: Program, t: nat): set<nat>
    requires t <= |prog|
  {
    if t == 0 then own
    else Held(own, prog, t - 1) + SlotsOf(prog[t - 1].recvs)
         + (if prog[t - 1].fold.Some? then {prog[t - 1].fold.value.dst} else {})
  }

  /** `val` gives the right content of every slot. */
  ghost predicate StepSound<V(!new)>(net: Net<V>, val: nat -> V, r: nat, t: nat)
    requires r < |net.progs| == |net.init| && t < |net.progs[r]|
  {
    var step := net.progs[r][t];
    var held := Held(net.init[r].Keys, net.progs[r], t);
    && (forall m :: m in step.sends ==> m.peer < |net.progs| && forall x :: x in m.slots ==> x in held)
    && (forall m :: m in step.recvs ==> m.peer < |net.progs|)
    && (step.fold.Some? ==>
          var f := step.fold.value;
          && f.lo in held + SlotsOf(step.recvs) && f.hi in held + SlotsOf(step.recvs)
          && val(f.dst) == net.op(val(f.lo), val(f.hi)))
  }

  /** On the edge from `a` to `b` the sends are, one by one, the receives that `b` posts. */
  predicate EdgeMatched(progs: seq<Program>, a: nat, b: nat)
    requires a < |progs| && b < |progs|
  {
    Traffic(progs[a], |progs[a]|, b, true) == Traffic(progs[b], |progs[b]|, a, false)
  }

  ghost predicate Agrees<V>(buf: map<nat, V>, val: nat -> V)
  {
    forall x :: x in buf ==> buf[x] == val(x)
  }

  ghost predicate Sound<V(!new)>(net: Net<V>, val: nat -> V)
  {
    && |net.progs| == |net.init|
    && (forall r: nat :: r < |net.init| ==> Agrees(net.init[r], val))
    && (forall r: nat, t: nat :: r < |net.progs| && t < |net.progs[r]| ==> StepSound(net, val, r, t))
    && (forall a: nat, b: nat :: a < |net.progs| && b < |net.progs| ==> EdgeMatched(net.progs, a, b))
  }

  /** Message `k` between a program and `peer` belongs to step `t`. */
  predicate InStep(prog: Program, t: nat, peer: nat, sending: bool, k: nat)
  {
    |Traffic(prog, t, peer, sending)| <= k < |Traffic(prog, t + 1, peer, sending)|
  }

  /** A clock shows that waiting cannot be circular: whoever waits in a step for its partner's step waits
      for one whose predecessors all have smaller clocks. */
  ghost predicate EdgeLive(progs: seq<Program>, clock: (nat, nat) -> nat, a: nat, b: nat)
    requires a < |progs| && b < |progs|
  {
    forall t: nat, u: nat, k: nat ::
      t < |progs[a]| && u < |progs[b]| && InStep(progs[a], t, b, true, k) && InStep(progs[b], u, a, false, k) ==>
        (u > 0 ==> clock(b, u - 1) < clock(a, t)) && (t > 0 ==> clock(a, t - 1) < clock(b, u))
  }

  ghost predicate Live(progs: seq<Program>, clock: (nat, nat) -> nat)
  {
    && (forall r: nat, t: nat, u: nat :: r < |progs| && t < u < |progs[r]| ==> clock(r, t) < clock(r, u))
    && (forall a: nat, b: nat :: a < |progs| && b < |progs| ==> EdgeLive(progs, clock, a, b))
  }

  // ----- following a plan -----

  /** `steps` are the first `count` steps of a plan. */
  ghost predicate Begins(plan: nat -> Step, steps: seq<Step>, count: nat)
  {
    |steps| == count && forall t: nat :: t < count ==> steps[t] == plan(t)
  }

  /** Steps posted according to a plan that a program follows are the beginning of the program. */
  lemma BeginsProgram(plan: nat -> Step, steps: seq<Step>, count: nat, prog: Program)
    requires Begins(plan, steps, count) && count <= |prog| && forall t: nat :: t < count ==> prog[t] == plan(t)
    ensures steps == prog[..count]
  {
  }

  lemma BeginsNext(plan: nat -> Step, steps: seq<Step>, count: nat)
    requires Begins(plan, steps, count)
    ensures Begins(plan, steps + [plan(count)], count + 1)
  {
  }

  // ----- traffic and slots -----

  lemma {:induction false} TrafficPrefix(prog: Program, t: nat, u: nat, peer: nat, sending: bool)
    requires t <= u
    ensures Traffic(prog, t, peer, sending) <= Traffic(prog, u, peer, sending)
  {
    if t < u {
      TrafficPrefix(prog, t, u - 1, peer, sending);
    }
  }

  lemma {:induction false} HeldGrows(own: set<nat>, prog: Program, t: nat, u: nat)
    requires t <= u <= |prog|
    ensures Held(own, prog, t) <= Held(own, prog, u)
  {
    if t < u {
      HeldGrows(own, prog, t, u - 1);
    }
  }

  /** Every message of a list is found when the list is filtered by its peer. */
  lemma {:induction false} ToComplete(msgs: seq<Msg>, m: Msg)
    requires m in msgs
    ensures m.slots in To(msgs, m.peer)
  {
    if msgs[0] != m {
      ToComplete(msgs[1..], m);
    }
  }

  lemma {:induction false} ToSound(msgs: seq<Msg>, peer: nat, i: nat)
    requires i < |To(msgs, peer)|
    ensures Msg(peer, To(msgs, peer)[i]) in msgs
  {
    if msgs[0].peer != peer {
      ToSound(msgs[1..], peer, i);
    } else if i > 0 {
      ToSound(msgs[1..], peer, i - 1);
    }
  }

  lemma ToFirst(m: Msg, x: seq<Msg>, peer: nat)
    ensures To([m] + x, peer) == (if m.peer == peer then [m.slots] else []) + To(x, peer)
  {
    assert ([m] + x)[1..] == x;
  }

  lemma {:induction false} ToConcat(x: seq<Msg>, y: seq<Msg>, peer: nat)
    ensures To(x + y, peer) == To(x, peer) + To(y, peer)
  {
    if x == [] {
      assert x + y == y;
    } else {
      var m, rest := x[0], x[1..];
      assert x == [m] + rest && x + y == [m] + (rest + y);
      ToFirst(m, rest, peer);
      ToFirst(m, rest + y, peer);
      ToConcat(rest, y, peer);
    }
  }

  lemma {:induction false} ToMany(msgs: seq<Msg>, to: nat, peer: nat)
    requires forall m :: m in msgs ==> m.peer == to
    ensures to == peer ==> To(msgs, peer) == seq(|msgs|, i requires 0 <= i < |msgs| => msgs[i].slots)
    ensures to != peer ==> To(msgs, peer) == []
  {
    if msgs != [] {
      ToMany(msgs[1..], to, peer);
    }
  }

  // ----- the invariant -----

  /** What a packet for `slots` has to contain. */
  ghost function Intact<V>(val: nat -> V, slots: seq<nat>): Packet<V>
  {
    seq(|slots|, i requires 0 <= i < |slots| => Some(val(slots[i])))
  }

  /** The number of steps whose requests have been posted. */
  ghost function Begun<V>(s: State<V>, r: nat): nat
  {
    s.pc(r) + if s.posted(r) then 1 else 0
  }

  ghost function Sent<V>(net: Net<V>, s: State<V>, a: nat, b: nat): seq<seq<nat>>
    requires a < |net.progs|
  {
    Traffic(net.progs[a], Begun(s, a), b, true)
  }

  ghost function Asked<V>(net: Net<V>, s: State<V>, a: nat, b: nat): seq<seq<nat>>
    requires b < |net.progs|
  {
    Traffic(net.progs[b], Begun(s, b), a, false)
  }

  /** One channel: some messages have been received, and what is under way and what is awaited are the
      next ones on the two sides. */
  ghost predicate ChannelOk<V(!new)>(val: nat -> V, sent: seq<seq<nat>>, asked: seq<seq<nat>>,
                                     chan: seq<Packet<V>>, want: seq<seq<nat>>, held: set<nat>)
  {
    var done := |sent| - |chan|;
    && 0 <= done <= |asked|
    && want == asked[done..]
    && (forall k: nat :: k < |chan| ==> chan[k] == Intact(val, sent[done + k]))
    && (forall k: nat, x: nat :: k < done && x in asked[k] ==> x in held)
  }

  ghost predicate ChannelInv<V(!new)>(net: Net<V>, val: nat -> V, s: State<V>, a: nat, b: nat)
    requires a < |net.progs| && b < |net.progs|
  {
    ChannelOk(val, Sent(net, s, a, b), Asked(net, s, a, b), s.chan(a, b), s.want(a, b), s.buf(b).Keys)
  }

  /** The receives from `a` in the step that `r` is waiting in. */
  ghost function Pending<V>(net: Net<V>, s: State<V>, a: nat, r: nat): seq<seq<nat>>
    requires r < |net.progs|
  {
    if s.posted(r) then StepTraffic(net.progs[r], s.pc(r), a, false) else []
  }

  ghost predicate RankInv<V(!new)>(net: Net<V>, val: nat -> V, s: State<V>, r: nat)
    requires r < |net.progs| == |net.init|
  {
    && Begun(s, r) <= |net.progs[r]|
    && Agrees(s.buf(r), val)
    && Held(net.init[r].Keys, net.progs[r], s.pc(r)) <= s.buf(r).Keys
    && (forall a: nat :: a < |net.progs| ==> |s.want(a, r)| <= |Pending(net, s, a, r)|)
  }

  ghost predicate Inv<V(!new)>(net: Net<V>, val: nat -> V, s: State<V>)
    requires |net.progs| == |net.init|
  {
    && (forall r: nat :: r < |net.progs| ==> RankInv(net, val, s, r))
    && (forall a: nat, b: nat :: a < |net.progs| && b < |net.progs| ==> ChannelInv(net, val, s, a, b))
  }

  lemma {:induction false} StoreRight<V(!new)>(buf: map<nat, V>, slots: seq<nat>, val: nat -> V)
    requires Agrees(buf, val)
    decreases |slots|
    ensures var buf' := Store(buf, slots, Intact(val, slots));
      Agrees(buf', val) && buf'.Keys == buf.Keys + set x | x in slots
  {
    if slots != [] {
      var packet := Intact(val, slots);
      assert packet[1..] == Intact(val, slots[1..]);
      StoreRight(buf[slots[0] := val(slots[0])], slots[1..], val);
      assert slots == [slots[0]] + slots[1..];
    }
  }

  lemma StartRank<V(!new)>(net: Net<V>, val: nat -> V, r: nat)
    requires Sound(net, val) && r < |net.progs|
    ensures RankInv(net, val, Start(net), r)
  {
  }

  lemma StartChannel<V(!new)>(net: Net<V>, val: nat -> V, a: nat, b: nat)
    requires a < |net.progs| && b < |net.progs|
    ensures ChannelInv(net, val, Start(net), a, b)
  {
  }

  lemma StartInv<V(!new)>(net: Net<V>, val: nat -> V)
    requires Sound(net, val)
    ensures Inv(net, val, Start(net))
  {
    forall r: nat | r < |net.progs| ensures RankInv(net, val, Start(net), r) {
      StartRank(net, val, r);
    }
    forall a: nat, b: nat | a < |net.progs| && b < |net.progs| ensures ChannelInv(net, val, Start(net), a, b) {
      StartChannel(net, val, a, b);
    }
  }

  lemma SendMore<V(!new)>(val: nat -> V, sent: seq<seq<nat>>, asked: seq<seq<nat>>, chan: seq<Packet<V>>,
                          want: seq<seq<nat>>, held: set<nat>, more: seq<seq<nat>>, packets: seq<Packet<V>>)
    requires ChannelOk(val, sent, asked, chan, want, held)
    requires |more| == |packets| && forall k: nat :: k < |more| ==> packets[k] == Intact(val, more[k])
    ensures ChannelOk(val, sent + more, asked, chan + packets, want, held)
  {
  }

  lemma AskMore<V(!new)>(val: nat -> V, sent: seq<seq<nat>>, asked: seq<seq<nat>>, chan: seq<Packet<V>>,
                         want: seq<seq<nat>>, held: set<nat>, more: seq<seq<nat>>)
    requires ChannelOk(val, sent, asked, chan, want, held)
    ensures ChannelOk(val, sent, asked + more, chan, want + more, held)
  {
  }

  lemma ReceiveOne<V(!new)>(val: nat -> V, sent: seq<seq<nat>>, asked: seq<seq<nat>>, chan: seq<Packet<V>>,
                            want: seq<seq<nat>>, held: set<nat>, held': set<nat>)
    requires ChannelOk(val, sent, asked, chan, want, held) && chan != [] && want != []
    requires held <= held' && forall x :: x in want[0] ==> x in held'
    ensures ChannelOk(val, sent, asked, chan[1..], want[1..], held')
  {
  }

  /** What posting a step adds to the edge from `a` to `b`. */
  ghost function NewSends<V>(net: Net<V>, s: State<V>, r: nat, a: nat, b: nat): seq<seq<nat>>
  {
    if a == r < |net.progs| then StepTraffic(net.progs[r], s.pc(r), b, true) else []
  }

  ghost function NewRecvs<V>(net: Net<V>, s: State<V>, r: nat, a: nat, b: nat): seq<seq<nat>>
  {
    if b == r < |net.progs| then StepTraffic(net.progs[r], s.pc(r), a, false) else []
  }

  lemma PostCounts<V>(net: Net<V>, s: State<V>, r: nat, a: nat, b: nat)
    requires Enabled(net, s, Post(r), false) && a < |net.progs| && b < |net.progs|
    ensures Sent(net, DoPost(net, s, r), a, b) == Sent(net, s, a, b) + NewSends(net, s, r, a, b)
    ensures Asked(net, DoPost(net, s, r), a, b) == Asked(net, s, a, b) + NewRecvs(net, s, r, a, b)
  {
    var s' := DoPost(net, s, r);
    assert Begun(s', r) == Begun(s, r) + 1;
    assert a != r ==> Begun(s', a) == Begun(s, a);
    assert b != r ==> Begun(s', b) == Begun(s, b);
  }

  lemma PostEffect<V>(net: Net<V>, s: State<V>, r: nat, a: nat, b: nat)
    requires Enabled(net, s, Post(r), false) && a < |net.progs| && b < |net.progs|
    ensures var s' := DoPost(net, s, r);
      && s'.chan(a, b) == s.chan(a, b) + PackAll(s.buf(r), NewSends(net, s, r, a, b))
      && s'.want(a, b) == s.want(a, b) + NewRecvs(net, s, r, a, b)
      && s'.buf(b) == s.buf(b)
  {
    var step := net.progs[r][s.pc(r)];
    assert a == r ==> NewSends(net, s, r, a, b) == To(step.sends, b);
    assert b == r ==> NewRecvs(net, s, r, a, b) == To(step.recvs, a);
  }

  lemma PacketsRight<V(!new)>(net: Net<V>, val: nat -> V, s: State<V>, r: nat, a: nat, b: nat)
    requires Sound(net, val) && Inv(net, val, s) && Enabled(net, s, Post(r), false)
    ensures var sends := NewSends(net, s, r, a, b);
      forall k: nat :: k < |sends| ==> PackAll(s.buf(r), sends)[k] == Intact(val, sends[k])
  {
    var step := net.progs[r][s.pc(r)];
    assert RankInv(net, val, s, r) && StepSound(net, val, r, s.pc(r));
    var sends := NewSends(net, s, r, a, b);
    forall k: nat | k < |sends|
      ensures PackAll(s.buf(r), sends)[k] == Intact(val, sends[k])
    {
      ToSound(step.sends, b, k);
    }
  }

  lemma PostKeepsChannel<V(!new)>(net: Net<V>, val: nat -> V, s: State<V>, r: nat, a: nat, b: nat)
    requires Sound(net, val) && Inv(net, val, s) && Enabled(net, s, Post(r), false)
    requires a < |net.progs| && b < |net.progs|
    ensures ChannelInv(net, val, DoPost(net, s, r), a, b)
  {
    assert ChannelInv(net, val, s, a, b);
    PacketsRight(net, val, s, r, a, b);
    var sends, recvs := NewSends(net, s, r, a, b), NewRecvs(net, s, r, a, b);
    var packets := PackAll(s.buf(r), sends);
    var sent, asked, chan, want := Sent(net, s, a, b), Asked(net, s, a, b), s.chan(a, b), s.want(a, b);
    SendMore(val, sent, asked, chan, want, s.buf(b).Keys, sends, packets);
    AskMore(val, sent + sends, asked, chan + packets, want, s.buf(b).Keys, recvs);
    PostEffect(net, s, r, a, b);
    PostCounts(net, s, r, a, b);
  }

  lemma PostKeepsInv<V(!new)>(net: Net<V>, val: nat -> V, s: State<V>, r: nat)
    requires Sound(net, val) && Inv(net, val, s) && Enabled(net, s, Post(r), false)
    ensures Inv(net, val, DoPost(net, s, r))
  {
    var s' := DoPost(net, s, r);
    forall x: nat | x < |net.progs| ensures RankInv(net, val, s', x) {
      assert RankInv(net, val, s, x);
    }
    forall a: nat, b: nat | a < |net.progs| && b < |net.progs| ensures ChannelInv(net, val, s', a, b) {
      PostKeepsChannel(net, val, s, r, a, b);
    }
  }

  /** What has been sent on an edge and what has been asked for are beginnings of the same traffic. */
  lemma SameTraffic<V(!new)>(net: Net<V>, val: nat -> V, s: State<V>, a: nat, b: nat, all: seq<seq<nat>>)
    requires Sound(net, val) && Inv(net, val, s) && a < |net.progs| && b < |net.progs|
    requires all == Traffic(net.progs[a], |net.progs[a]|, b, true)
    ensures Sent(net, s, a, b) <= all && Asked(net, s, a, b) <= all
  {
    assert RankInv(net, val, s, a) && RankInv(net, val, s, b);
    assert EdgeMatched(net.progs, a, b);
    TrafficPrefix(net.progs[a], Begun(s, a), |net.progs[a]|, b, true);
    TrafficPrefix(net.progs[b], Begun(s, b), |net.progs[b]|, a, false);
  }

  lemma ChannelHeads<V(!new)>(val: nat -> V, sent: seq<seq<nat>>, asked: seq<seq<nat>>, chan: seq<Packet<V>>,
                              want: seq<seq<nat>>, held: set<nat>, all: seq<seq<nat>>)
    requires ChannelOk(val, sent, asked, chan, want, held) && sent <= all && asked <= all && chan != [] && want != []
    ensures chan[0] == Intact(val, want[0])
  {
    var done := |sent| - |chan|;
    assert sent[done] == all[done] == asked[done];
  }

  /** The first packet under way on an edge is the one the first posted receive is for. */
  lemma HeadsMatch<V(!new)>(net: Net<V>, val: nat -> V, s: State<V>, a: nat, b: nat)
    requires Sound(net, val) && Inv(net, val, s)
    requires a < |net.progs| && b < |net.progs| && s.chan(a, b) != [] && s.want(a, b) != []
    ensures s.chan(a, b)[0] == Intact(val, s.want(a, b)[0])
  {
    var all := Traffic(net.progs[a], |net.progs[a]|, b, true);
    SameTraffic(net, val, s, a, b, all);
    assert ChannelInv(net, val, s, a, b);
    ChannelHeads(val, Sent(net, s, a, b), Asked(net, s, a, b), s.chan(a, b), s.want(a, b), s.buf(b).Keys, all);
  }

  lemma RankFrame<V(!new)>(net: Net<V>, val: nat -> V, s: State<V>, s': State<V>, r: nat)
    requires r < |net.progs| == |net.init| && RankInv(net, val, s, r)
    requires s'.pc(r) == s.pc(r) && s'.posted(r) == s.posted(r)
    requires Agrees(s'.buf(r), val) && s.buf(r).Keys <= s'.buf(r).Keys
    requires forall a: nat :: a < |net.progs| ==> |s'.want(a, r)| <= |s.want(a, r)|
    ensures RankInv(net, val, s', r)
  {
    forall a: nat | a < |net.progs|
      ensures |s'.want(a, r)| <= |Pending(net, s', a, r)|
    {
      assert |s.want(a, r)| <= |Pending(net, s, a, r)|;
    }
  }

  lemma ChannelFrame<V(!new)>(net: Net<V>, val: nat -> V, s: State<V>, s': State<V>, a: nat, b: nat)
    requires a < |net.progs| && b < |net.progs| && ChannelInv(net, val, s, a, b)
    requires Begun(s', a) == Begun(s, a) && Begun(s', b) == Begun(s, b)
    requires s'.chan(a, b) == s.chan(a, b) && s'.want(a, b) == s.want(a, b) && s.buf(b).Keys <= s'.buf(b).Keys
    ensures ChannelInv(net, val, s', a, b)
  {
    assert Sent(net, s', a, b) == Sent(net, s, a, b) && Asked(net, s', a, b) == Asked(net, s, a, b);
  }

  lemma DeliverEffect<V(!new)>(net: Net<V>, val: nat -> V, s: State<V>, src: nat, dst: nat)
    requires Sound(net, val) && Inv(net, val, s) && Enabled(net, s, Deliver(src, dst), false)
    ensures var buf' := DoDeliver(s, src, dst).buf(dst);
      Agrees(buf', val) && buf'.Keys == s.buf(dst).Keys + set x | x in s.want(src, dst)[0]
  {
    HeadsMatch(net, val, s, src, dst);
    assert RankInv(net, val, s, dst);
    StoreRight(s.buf(dst), s.want(src, dst)[0], val);
  }

  lemma DeliverKeepsInv<V(!new)>(net: Net<V>, val: nat -> V, s: State<V>, src: nat, dst: nat)
    requires Sound(net, val) && Inv(net, val, s) && Enabled(net, s, Deliver(src, dst), false)
    ensures Inv(net, val, DoDeliver(s, src, dst))
  {
    var s' := DoDeliver(s, src, dst);
    DeliverEffect(net, val, s, src, dst);
    forall x: nat | x < |net.progs| ensures RankInv(net, val, s', x) {
      assert RankInv(net, val, s, x);
      RankFrame(net, val, s, s', x);
    }
    forall a: nat, b: nat | a < |net.progs| && b < |net.progs| ensures ChannelInv(net, val, s', a, b) {
      assert ChannelInv(net, val, s, a, b);
      if a == src && b == dst {
        ReceiveOne(val, Sent(net, s, a, b), Asked(net, s, a, b), s.chan(a, b), s.want(a, b),
                   s.buf(b).Keys, s'.buf(b).Keys);
      } else {
        ChannelFrame(net, val, s, s', a, b);
      }
    }
  }

  lemma AllReceived<V(!new)>(val: nat -> V, sent: seq<seq<nat>>, asked: seq<seq<nat>>, chan: seq<Packet<V>>,
                             want: seq<seq<nat>>, held: set<nat>, slots: seq<nat>)
    requires ChannelOk(val, sent, asked, chan, want, held) && want == [] && slots in asked
    ensures forall x :: x in slots ==> x in held
  {
  }

  lemma MessageReceived<V(!new)>(net: Net<V>, val: nat -> V, s: State<V>, r: nat, m: Msg)
    requires r < |net.progs| && m.peer < |net.progs| && s.posted(r) && s.pc(r) < |net.progs[r]|
    requires ChannelInv(net, val, s, m.peer, r) && s.want(m.peer, r) == [] && m in net.progs[r][s.pc(r)].recvs
    ensures forall x :: x in m.slots ==> x in s.buf(r)
  {
    var a, recvs := m.peer, net.progs[r][s.pc(r)].recvs;
    ToComplete(recvs, m);
    assert Asked(net, s, a, r) == Traffic(net.progs[r], s.pc(r), a, false) + To(recvs, a);
    AllReceived(val, Sent(net, s, a, r), Asked(net, s, a, r), s.chan(a, r), s.want(a, r), s.buf(r).Keys, m.slots);
  }

  /** When a rank leaves a step it has received everything the step asked for. */
  lemma StepReceived<V(!new)>(net: Net<V>, val: nat -> V, s: State<V>, r: nat)
    requires Sound(net, val) && Inv(net, val, s) && Enabled(net, s, Advance(r), false)
    ensures s.pc(r) < |net.progs[r]| && SlotsOf(net.progs[r][s.pc(r)].recvs) <= s.buf(r).Keys
  {
    assert RankInv(net, val, s, r);
    var recvs := net.progs[r][s.pc(r)].recvs;
    assert StepSound(net, val, r, s.pc(r));
    forall m | m in recvs
      ensures forall x :: x in m.slots ==> x in s.buf(r)
    {
      assert ChannelInv(net, val, s, m.peer, r);
      MessageReceived(net, val, s, r, m);
    }
  }

  lemma ReduceRight<V(!new)>(buf: map<nat, V>, fold: Option<Fold>, op: (V, V) -> V, val: nat -> V)
    requires Agrees(buf, val)
    requires fold.Some? ==> fold.value.lo in buf && fold.value.hi in buf
    requires fold.Some? ==> val(fold.value.dst) == op(val(fold.value.lo), val(fold.value.hi))
    ensures Agrees(Reduce(buf, fold, op), val)
    ensures Reduce(buf, fold, op).Keys == buf.Keys + if fold.Some? then {fold.value.dst} else {}
  {
  }

  lemma AdvanceKeepsRank<V(!new)>(net: Net<V>, val: nat -> V, s: State<V>, r: nat)
    requires Sound(net, val) && Inv(net, val, s) && Enabled(net, s, Advance(r), false)
    ensures RankInv(net, val, DoAdvance(net, s, r), r) && s.buf(r).Keys <= DoAdvance(net, s, r).buf(r).Keys
  {
    StepReceived(net, val, s, r);
    assert RankInv(net, val, s, r);
    assert StepSound(net, val, r, s.pc(r));
    ReduceRight(s.buf(r), net.progs[r][s.pc(r)].fold, net.op, val);
    var s' := DoAdvance(net, s, r);
    assert s'.buf(r) == Reduce(s.buf(r), net.progs[r][s.pc(r)].fold, net.op);
    assert Held(net.init[r].Keys, net.progs[r], s.pc(r) + 1) <= s'.buf(r).Keys;
  }

  lemma AdvanceKeepsInv<V(!new)>(net: Net<V>, val: nat -> V, s: State<V>, r: nat)
    requires Sound(net, val) && Inv(net, val, s) && Enabled(net, s, Advance(r), false)
    ensures Inv(net, val, DoAdvance(net, s, r))
  {
    var s' := DoAdvance(net, s, r);
    AdvanceKeepsRank(net, val, s, r);
    forall x: nat | x < |net.progs| ensures RankInv(net, val, s', x) {
      assert RankInv(net, val, s, x);
      if x != r {
        RankFrame(net, val, s, s', x);
      }
    }
    forall a: nat, b: nat | a < |net.progs| && b < |net.progs| ensures ChannelInv(net, val, s', a, b) {
      assert ChannelInv(net, val, s, a, b);
      ChannelFrame(net, val, s, s', a, b);
    }
  }

  lemma NextKeepsInv<V(!new)>(net: Net<V>, val: nat -> V, s: State<V>, e: Event)
    requires Sound(net, val) && Inv(net, val, s) && Enabled(net, s, e, false)
    ensures Inv(net, val, Next(net, s, e))
  {
    match e
    case Post(r) => PostKeepsInv(net, val, s, r);
    case Deliver(a, b) => DeliverKeepsInv(net, val, s, a, b);
    case Advance(r) => AdvanceKeepsInv(net, val, s, r);
  }

  /** Safety: the invariant holds after every run. */
  lemma {:induction false} RunInv<V(!new)>(net: Net<V>, val: nat -> V, run: seq<Event>)
    requires Sound(net, val) && IsRun(net, run)
    ensures Inv(net, val, After(net, run))
    decreases |run|
  {
    if run == [] {
      StartInv(net, val);
    } else {
      RunInv(net, val, run[..|run| - 1]);
      NextKeepsInv(net, val, After(net, run[..|run| - 1]), run[|run| - 1]);
    }
  }

  // ----- progress -----

  lemma {:induction false} FindStep(prog: Program, t: nat, peer: nat, sending: bool, k: nat) returns (u: nat)
    requires k < |Traffic(prog, t, peer, sending)|
    ensures u < t && u < |prog| && InStep(prog, u, peer, sending, k)
  {
    if k < |Traffic(prog, t - 1, peer, sending)| {
      u := FindStep(prog, t - 1, peer, sending, k);
    } else {
      u := t - 1;
    }
  }

  ghost predicate Unfinished<V>(net: Net<V>, s: State<V>, r: nat)
  {
    r < |net.progs| && s.pc(r) < |net.progs[r]|
  }

  /** An unfinished rank whose current step is earliest by the clock. */
  lemma {:induction false} Earliest<V>(net: Net<V>, s: State<V>, clock: (nat, nat) -> nat, m: nat, r0: nat)
    returns (r: nat)
    requires Unfinished(net, s, r0) && r0 < m
    ensures Unfinished(net, s, r)
    ensures forall x: nat :: x < m && Unfinished(net, s, x) ==> clock(r, s.pc(r)) <= clock(x, s.pc(x))
    decreases clock(r0, s.pc(r0))
  {
    r := r0;
    if x: nat :| x < m && Unfinished(net, s, x) && clock(x, s.pc(x)) < clock(r0, s.pc(r0)) {
      r := Earliest(net, s, clock, m, x);
    }
  }

  /** A rank whose step before `t` has a smaller clock than the earliest rank has reached `t`. */
  lemma NotBehind<V>(net: Net<V>, clock: (nat, nat) -> nat, s: State<V>, r: nat, u: nat, a: nat, t: nat)
    requires Live(net.progs, clock)
    requires Unfinished(net, s, r) && u <= s.pc(r) && a < |net.progs| && t <= |net.progs[a]|
    requires forall x: nat :: Unfinished(net, s, x) ==> clock(r, s.pc(r)) <= clock(x, s.pc(x))
    requires t > 0 ==> clock(a, t - 1) < clock(r, u)
    ensures t <= s.pc(a)
  {
  }

  /** The message that `r` waits for is the next one that `a` has to send. */
  lemma WaitsInStep<V(!new)>(net: Net<V>, val: nat -> V, s: State<V>, r: nat, a: nat, k: nat)
    requires Sound(net, val) && Inv(net, val, s) && Unfinished(net, s, r) && s.posted(r) && a < |net.progs|
    requires s.want(a, r) != [] && s.chan(a, r) == [] && k == |Sent(net, s, a, r)|
    ensures InStep(net.progs[r], s.pc(r), a, false, k)
  {
    assert RankInv(net, val, s, r) && ChannelInv(net, val, s, a, r);
    assert Asked(net, s, a, r) == Traffic(net.progs[r], s.pc(r), a, false) + Pending(net, s, a, r);
  }

  /** The step in which `x` sends the message after those of its first `i` steps, for which `y` waits in step `j`. */
  lemma NextSend(x: Program, y: Program, a: nat, b: nat, i: nat, j: nat) returns (t: nat)
    requires Traffic(x, |x|, b, true) == Traffic(y, |y|, a, false) && j < |y|
    requires InStep(y, j, a, false, |Traffic(x, i, b, true)|)
    ensures i <= t < |x| && InStep(x, t, b, true, |Traffic(x, i, b, true)|)
  {
    TrafficPrefix(y, j + 1, |y|, a, false);
    t := FindStep(x, |x|, b, true, |Traffic(x, i, b, true)|);
    StepAfter(x, t, i, b, true);
  }

  /** If the earliest rank waits for a message from `a` that is not under way, `a` can post its step. */
  lemma SenderCanPost<V(!new)>(net: Net<V>, val: nat -> V, clock: (nat, nat) -> nat, s: State<V>, r: nat, a: nat)
    requires Sound(net, val) && Live(net.progs, clock) && Inv(net, val, s)
    requires Unfinished(net, s, r) && s.posted(r) && a < |net.progs|
    requires forall x: nat :: Unfinished(net, s, x) ==> clock(r, s.pc(r)) <= clock(x, s.pc(x))
    requires s.want(a, r) != [] && s.chan(a, r) == []
    ensures Enabled(net, s, Post(a), true)
  {
    WaitsInStep(net, val, s, r, a, |Sent(net, s, a, r)|);
    assert EdgeMatched(net.progs, a, r);
    var t := NextSend(net.progs[a], net.progs[r], a, r, Begun(s, a), s.pc(r));
    assert EdgeLive(net.progs, clock, a, r);
    NotBehind(net, clock, s, r, s.pc(r), a, t);
  }

  lemma AskedBehindSent<V(!new)>(val: nat -> V, sent: seq<seq<nat>>, asked: seq<seq<nat>>, chan: seq<Packet<V>>,
                                 want: seq<seq<nat>>, held: set<nat>)
    requires ChannelOk(val, sent, asked, chan, want, held) && chan != [] && want == []
    ensures |asked| < |sent|
  {
  }

  /** The steps of the first message that program `x` has sent by step `i` and `y` has not asked for by `j`. */
  lemma NextReceive(x: Program, y: Program, a: nat, b: nat, i: nat, j: nat) returns (t: nat, u: nat)
    requires Traffic(x, |x|, b, true) == Traffic(y, |y|, a, false) && i <= |x| && j <= |y|
    requires |Traffic(y, j, a, false)| < |Traffic(x, i, b, true)|
    ensures t < i && InStep(x, t, b, true, |Traffic(y, j, a, false)|)
    ensures j <= u < |y| && InStep(y, u, a, false, |Traffic(y, j, a, false)|)
  {
    var k := |Traffic(y, j, a, false)|;
    TrafficPrefix(x, i, |x|, b, true);
    t := FindStep(x, i, b, true, k);
    u := FindStep(y, |y|, a, false, k);
    StepAfter(y, u, j, a, false);
  }

  /** The message after those of the first `j` steps belongs to a later step. */
  lemma StepAfter(prog: Program, u: nat, j: nat, peer: nat, sending: bool)
    requires InStep(prog, u, peer, sending, |Traffic(prog, j, peer, sending)|)
    ensures j <= u
  {
    if u < j {
      TrafficPrefix(prog, u + 1, j, peer, sending);
      assert false;
    }
  }

  /** If a send of the earliest rank has no receive yet, the receiver `b` can post its step. */
  lemma ReceiverCanPost<V(!new)>(net: Net<V>, val: nat -> V, clock: (nat, nat) -> nat, s: State<V>, r: nat, b: nat)
    requires Sound(net, val) && Live(net.progs, clock) && Inv(net, val, s)
    requires Unfinished(net, s, r) && s.posted(r) && b < |net.progs|
    requires forall x: nat :: Unfinished(net, s, x) ==> clock(r, s.pc(r)) <= clock(x, s.pc(x))
    requires s.chan(r, b) != [] && s.want(r, b) == []
    ensures Enabled(net, s, Post(b), true)
  {
    assert RankInv(net, val, s, r) && RankInv(net, val, s, b) && ChannelInv(net, val, s, r, b);
    assert EdgeMatched(net.progs, r, b);
    AskedBehindSent(val, Sent(net, s, r, b), Asked(net, s, r, b), s.chan(r, b), s.want(r, b), s.buf(b).Keys);
    var t, u := NextReceive(net.progs[r], net.progs[b], r, b, Begun(s, r), Begun(s, b));
    assert EdgeLive(net.progs, clock, r, b);
    NotBehind(net, clock, s, r, t, b, u);
  }

  /** No deadlock, even if every send waits for its receive. */
  lemma Progress<V(!new)>(net: Net<V>, val: nat -> V, clock: (nat, nat) -> nat, s: State<V>)
    requires Sound(net, val) && Live(net.progs, clock) && Inv(net, val, s)
    requires !Finished(net, s)
    ensures exists e :: Enabled(net, s, e, true)
  {
    var r0: nat :| r0 < |net.progs| && !(s.pc(r0) == |net.progs[r0]| && !s.posted(r0));
    assert RankInv(net, val, s, r0);
    var r := Earliest(net, s, clock, |net.progs|, r0);
    if !s.posted(r) {
      assert Enabled(net, s, Post(r), true);
    } else if a: nat :| a < |net.progs| && s.want(a, r) != [] {
      if s.chan(a, r) != [] {
        assert Enabled(net, s, Deliver(a, r), true);
      } else {
        SenderCanPost(net, val, clock, s, r, a);
      }
    } else if b: nat :| b < |net.progs| && s.chan(r, b) != [] {
      if s.want(r, b) != [] {
        assert Enabled(net, s, Deliver(r, b), true);
      } else {
        ReceiverCanPost(net, val, clock, s, r, b);
      }
    } else {
      assert Enabled(net, s, Advance(r), true);
    }
  }

  // ----- termination: every event uses up one unit of work -----

  ghost function Sum(f: nat -> nat, n: nat): nat
  {
    if n == 0 then 0 else Sum(f, n - 1) + f(n - 1)
  }

  ghost function StepsWork(prog: Program, t: nat): nat
    decreases |prog| - t
  {
    if t >= |prog| then 0 else 2 + |prog[t].sends| + StepsWork(prog, t + 1)
  }

  ghost function RankUnits(prog: Program, pc: nat, posted: bool): nat
  {
    if posted then 1 + StepsWork(prog, pc + 1) else StepsWork(prog, pc)
  }

  ghost function RankWork<V>(net: Net<V>, s: State<V>): nat -> nat
  {
    (r: nat) => (if r < |net.progs| then RankUnits(net.progs[r], s.pc(r), s.posted(r)) else 0) as nat
  }

  ghost function Row<T>(chan: (nat, nat) -> seq<T>, a: nat): nat -> nat
  {
    (b: nat) => |chan(a, b)|
  }

  ghost function Rows<T>(chan: (nat, nat) -> seq<T>, n: nat): nat -> nat
  {
    (a: nat) => Sum(Row(chan, a), n)
  }

  /** The messages under way. */
  ghost function UnderWay<T>(chan: (nat, nat) -> seq<T>, n: nat): nat
  {
    Sum(Rows(chan, n), n)
  }

  /** The events left: posting and leaving every step, and delivering every message. */
  ghost function Work<V>(net: Net<V>, s: State<V>): nat
  {
    Sum(RankWork(net, s), |net.progs|) + UnderWay(s.chan, |net.progs|)
  }

  ghost function TotalWork<V>(net: Net<V>): nat
  {
    Work(net, Start(net))
  }

  lemma {:induction false} SumSame(f: nat -> nat, g: nat -> nat, n: nat)
    requires forall i: nat :: i < n ==> f(i) == g(i)
    ensures Sum(f, n) == Sum(g, n)
  {
    if n > 0 {
      SumSame(f, g, n - 1);
    }
  }

  lemma {:induction false} SumChange(f: nat -> nat, g: nat -> nat, n: nat, k: nat)
    requires k < n && forall i: nat :: i < n && i != k ==> f(i) == g(i)
    ensures Sum(g, n) - Sum(f, n) == g(k) - f(k)
  {
    if k == n - 1 {
      SumSame(f, g, n - 1);
    } else {
      SumChange(f, g, n - 1, k);
    }
  }

  lemma {:induction false} SumZero(f: nat -> nat, n: nat, k: nat)
    requires k < n && Sum(f, n) == 0
    ensures f(k) == 0
  {
    if k < n - 1 {
      SumZero(f, n - 1, k);
    }
  }

  lemma {:induction false} SumOfZeros(f: nat -> nat, n: nat)
    requires forall i: nat :: i < n ==> f(i) == 0
    ensures Sum(f, n) == 0
  {
    if n > 0 {
      SumOfZeros(f, n - 1);
    }
  }

  /** Splitting the messages of a step by peer loses none. */
  lemma {:induction false} SumOfTo(msgs: seq<Msg>, f: nat -> nat, g: nat -> nat, n: nat)
    requires forall m :: m in msgs ==> m.peer < n
    requires forall b: nat :: b < n ==> g(b) == f(b) + |To(msgs, b)|
    ensures Sum(g, n) == Sum(f, n) + |msgs|
    decreases |msgs|
  {
    if msgs == [] {
      SumSame(f, g, n);
    } else {
      var p := msgs[0].peer;
      var f' := (b: nat) => if b == p then f(b) + 1 else f(b);
      SumChange(f, f', n, p);
      SumOfTo(msgs[1..], f', g, n);
    }
  }

  lemma UnderWayChanges<T>(chan: (nat, nat) -> seq<T>, chan': (nat, nat) -> seq<T>, n: nat, r: nat)
    requires r < n
    requires forall a: nat, b: nat :: a < n && b < n && a != r ==> |chan'(a, b)| == |chan(a, b)|
    ensures UnderWay(chan', n) - UnderWay(chan, n) == Sum(Row(chan', r), n) - Sum(Row(chan, r), n)
  {
    forall a: nat | a < n && a != r ensures Rows(chan, n)(a) == Rows(chan', n)(a) {
      SumSame(Row(chan, a), Row(chan', a), n);
    }
    SumChange(Rows(chan, n), Rows(chan', n), n, r);
  }

  lemma RankWorks<V>(net: Net<V>, s: State<V>, s': State<V>, r: nat)
    requires r < |net.progs|
    requires forall x: nat :: x < |net.progs| && x != r ==> s.pc(x) == s'.pc(x) && s.posted(x) == s'.posted(x)
    ensures Sum(RankWork(net, s'), |net.progs|) - Sum(RankWork(net, s), |net.progs|)
            == RankUnits(net.progs[r], s'.pc(r), s'.posted(r)) - RankUnits(net.progs[r], s.pc(r), s.posted(r))
  {
    SumChange(RankWork(net, s), RankWork(net, s'), |net.progs|, r);
  }

  lemma PostWorks<V(!new)>(net: Net<V>, val: nat -> V, s: State<V>, r: nat)
    requires Sound(net, val) && Enabled(net, s, Post(r), false)
    ensures Work(net, DoPost(net, s, r)) + 1 == Work(net, s)
  {
    var n, s', sends := |net.progs|, DoPost(net, s, r), net.progs[r][s.pc(r)].sends;
    assert StepSound(net, val, r, s.pc(r));
    forall b: nat | b < n ensures Row(s'.chan, r)(b) == Row(s.chan, r)(b) + |To(sends, b)| {
      PostEffect(net, s, r, r, b);
    }
    SumOfTo(sends, Row(s.chan, r), Row(s'.chan, r), n);
    UnderWayChanges(s.chan, s'.chan, n, r);
    RankWorks(net, s, s', r);
  }

  lemma DeliverWorks<V>(net: Net<V>, s: State<V>, src: nat, dst: nat)
    requires Enabled(net, s, Deliver(src, dst), false)
    ensures Work(net, DoDeliver(s, src, dst)) + 1 == Work(net, s)
  {
    var n, s' := |net.progs|, DoDeliver(s, src, dst);
    SumChange(Row(s.chan, src), Row(s'.chan, src), n, dst);
    UnderWayChanges(s.chan, s'.chan, n, src);
    RankWorks(net, s, s', dst);
  }

  lemma AdvanceWorks<V>(net: Net<V>, s: State<V>, r: nat)
    requires Enabled(net, s, Advance(r), false)
    ensures Work(net, DoAdvance(net, s, r)) + 1 == Work(net, s)
  {
    var s' := DoAdvance(net, s, r);
    assert s'.chan == s.chan;
    RankWorks(net, s, s', r);
    LeaveStep(net.progs[r], s.pc(r));
  }

  lemma LeaveStep(prog: Program, pc: nat)
    ensures RankUnits(prog, pc + 1, false) + 1 == RankUnits(prog, pc, true)
  {
  }

  lemma {:induction false} RunLength<V(!new)>(net: Net<V>, val: nat -> V, run: seq<Event>)
    requires Sound(net, val) && IsRun(net, run)
    ensures Work(net, After(net, run)) + |run| == TotalWork(net)
    decreases |run|
  {
    if run != [] {
      var before, e := run[..|run| - 1], run[|run| - 1];
      RunLength(net, val, before);
      RunInv(net, val, before);
      var s := After(net, before);
      match e
      case Post(r) => PostWorks(net, val, s, r);
      case Deliver(a, b) => DeliverWorks(net, s, a, b);
      case Advance(r) => AdvanceWorks(net, s, r);
    }
  }

  // ----- the results -----

  /** Every rank is through its program and holds the right data in every slot it was to get; no message
      and no receive is left over. */
  ghost predicate Complete<V(!new)>(net: Net<V>, val: nat -> V, s: State<V>)
    requires |net.progs| == |net.init|
  {
    && Finished(net, s)
    && (forall a: nat, b: nat :: a < |net.progs| && b < |net.progs| ==> s.chan(a, b) == [] && s.want(a, b) == [])
    && (forall r: nat :: r < |net.progs| ==>
          Agrees(s.buf(r), val) && Held(net.init[r].Keys, net.progs[r], |net.progs[r]|) <= s.buf(r).Keys)
  }

  /** Blocks 0 up to `n` are there with the right content. */
  ghost predicate Gathered<V>(buf: map<nat, V>, n: nat, val: nat -> V)
  {
    forall b: nat :: b < n ==> b in buf && buf[b] == val(b)
  }

  /** Every rank has all of the first `n` blocks. */
  ghost predicate AllGathered<V(!new)>(s: State<V>, ranks: nat, n: nat, val: nat -> V)
  {
    forall r: nat :: r < ranks ==> Gathered(s.buf(r), n, val)
  }

  lemma CompleteHolds<V(!new)>(net: Net<V>, val: nat -> V, s: State<V>, r: nat, x: nat)
    requires |net.progs| == |net.init| && Complete(net, val, s) && r < |net.progs|
    requires x in Held(net.init[r].Keys, net.progs[r], |net.progs[r]|)
    ensures x in s.buf(r) && s.buf(r)[x] == val(x)
  {
  }

  lemma FinishedChannel<V(!new)>(net: Net<V>, val: nat -> V, s: State<V>, a: nat, b: nat)
    requires Sound(net, val) && Inv(net, val, s) && Finished(net, s)
    requires a < |net.progs| && b < |net.progs|
    ensures s.chan(a, b) == [] && s.want(a, b) == []
  {
    assert RankInv(net, val, s, a) && RankInv(net, val, s, b) && ChannelInv(net, val, s, a, b);
    assert EdgeMatched(net.progs, a, b);
    assert |s.want(a, b)| <= |Pending(net, s, a, b)|;
  }

  lemma FinishedWork<V>(net: Net<V>, s: State<V>)
    requires Finished(net, s)
    requires forall a: nat, b: nat :: a < |net.progs| && b < |net.progs| ==> s.chan(a, b) == []
    ensures Work(net, s) == 0
  {
    var n := |net.progs|;
    forall a: nat | a < n
      ensures Rows(s.chan, n)(a) == 0
    {
      SumOfZeros(Row(s.chan, a), n);
    }
    SumOfZeros(Rows(s.chan, n), n);
    SumOfZeros(RankWork(net, s), n);
  }

  lemma FinishedIsComplete<V(!new)>(net: Net<V>, val: nat -> V, s: State<V>)
    requires Sound(net, val) && Inv(net, val, s) && Finished(net, s)
    ensures Complete(net, val, s) && Work(net, s) == 0
  {
    forall a: nat, b: nat | a < |net.progs| && b < |net.progs|
      ensures s.chan(a, b) == [] && s.want(a, b) == []
    {
      FinishedChannel(net, val, s, a, b);
    }
    FinishedWork(net, s);
    forall r: nat | r < |net.progs|
      ensures Agrees(s.buf(r), val) && Held(net.init[r].Keys, net.progs[r], |net.progs[r]|) <= s.buf(r).Keys
    {
      assert RankInv(net, val, s, r);
    }
  }

  /** The run has not used up its events, and can then go on; or it has, and then it is complete. */
  ghost predicate OnItsWay<V(!new)>(net: Net<V>, val: nat -> V, run: seq<Event>)
    requires |net.progs| == |net.init|
  {
    if |run| < TotalWork(net) then exists e :: Enabled(net, After(net, run), e, true)
    else |run| == TotalWork(net) && Complete(net, val, After(net, run))
  }

  /** Every run can go on until all ranks are done, it takes the same number of events whatever the
      interleaving, and it ends with every slot filled as it should be. */
  lemma EveryRunCompletes<V(!new)>(net: Net<V>, val: nat -> V, clock: (nat, nat) -> nat, run: seq<Event>)
    requires Sound(net, val) && Live(net.progs, clock) && IsRun(net, run)
    ensures OnItsWay(net, val, run)
  {
    RunInv(net, val, run);
    RunLength(net, val, run);
    var s := After(net, run);
    if Finished(net, s) {
      FinishedIsComplete(net, val, s);
    } else {
      Progress(net, val, clock, s);
      if |run| == TotalWork(net) {
        WorkIsLeft(net, val, s);
      }
    }
  }

  lemma WorkIsLeft<V(!new)>(net: Net<V>, val: nat -> V, s: State<V>)
    requires Sound(net, val) && Inv(net, val, s) && !Finished(net, s)
    ensures Work(net, s) > 0
  {
    var r: nat :| r < |net.progs| && !(s.pc(r) == |net.progs[r]| && !s.posted(r));
    assert RankInv(net, val, s, r);
    if Work(net, s) == 0 {
      SumZero(RankWork(net, s), |net.progs|, r);
    }
  }

  /** At any moment of any run the next message on an edge holds exactly the data that the receive it will
      be matched with was posted for. */
  lemma MessagesMeetTheirReceives<V(!new)>(net: Net<V>, val: nat -> V, run: seq<Event>, a: nat, b: nat)
    requires Sound(net, val) && IsRun(net, run)
    requires a < |net.progs| && b < |net.progs|
    ensures var s := After(net, run);
      s.chan(a, b) != [] && s.want(a, b) != [] ==> s.chan(a, b)[0] == Intact(val, s.want(a, b)[0])
  {
    RunInv(net, val, run);
    var s := After(net, run);
    if s.chan(a, b) != [] && s.want(a, b) != [] {
      HeadsMatch(net, val, s, a, b);
    }
  }
}
