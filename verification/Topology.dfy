/** Where the ranks of a group run: dense node numbers, the ranks of each node, the balanced-placement test and
    the groups of ranks that have the same offset on their nodes. */
module Topology {
  import opened Cyclic

  // ----- dense node numbers -----

  /** Numbers in the order of first appearance. */
  function Ids(keys: seq<int>): map<int, nat>
  {
    if keys == [] then map[]
    else
      var ids, key := Ids(keys[..|keys| - 1]), keys[|keys| - 1];
      if key in ids then ids else ids[key := |ids|]
  }

  lemma {:induction false} IdsOfKeys(keys: seq<int>)
    ensures forall key :: key in Ids(keys) <==> key in keys
    decreases |keys|
  {
    if keys != [] {
      IdsOfKeys(keys[..|keys| - 1]);
    }
  }

  ghost predicate Dense(ids: map<int, nat>)
  {
    && (forall key :: key in ids ==> ids[key] < |ids|)
    && (forall key, key' :: key in ids && key' in ids && ids[key] == ids[key'] ==> key == key')
    && (forall id: nat :: id < |ids| ==> Given(ids, id))
  }

  /** Some node has number `id`. */
  ghost predicate Given(ids: map<int, nat>, id: nat)
  {
    exists key :: key in ids && ids[key] == id
  }

  lemma DenseAt(ids: map<int, nat>, key: int, key': int)
    requires Dense(ids) && key in ids && key' in ids
    ensures ids[key] < |ids| && (ids[key] == ids[key'] ==> key == key')
  {
  }

  lemma OneMoreId(ids: map<int, nat>, key: int)
    requires Dense(ids) && key !in ids
    ensures Dense(ids[key := |ids|])
  {
    var ids' := ids[key := |ids|];
    assert |ids'| == |ids| + 1;
    forall id: nat | id < |ids'| ensures Given(ids', id) {
      if id < |ids| {
        assert Given(ids, id);
        var k :| k in ids && ids[k] == id;
        assert k in ids' && ids'[k] == id;
      } else {
        assert key in ids' && ids'[key] == id;
      }
    }
  }

  /** Different nodes get different numbers, and the numbers are exactly those below the number of nodes. */
  lemma {:induction false} IdsDense(keys: seq<int>)
    ensures Dense(Ids(keys))
    decreases |keys|
  {
    if keys != [] {
      var front, key := keys[..|keys| - 1], keys[|keys| - 1];
      IdsDense(front);
      if key !in Ids(front) {
        OneMoreId(Ids(front), key);
      }
    }
  }

  lemma {:induction false} IdsKept(keys: seq<int>, m: nat, key: int)
    requires m <= |keys| && key in Ids(keys[..m])
    ensures key in Ids(keys) && Ids(keys)[key] == Ids(keys[..m])[key] && |Ids(keys[..m])| <= |Ids(keys)|
    decreases |keys|
  {
    if m == |keys| {
      assert keys[..m] == keys;
    } else {
      var front := keys[..|keys| - 1];
      assert front[..m] == keys[..m];
      IdsKept(front, m, key);
    }
  }

  lemma KeysOf(keys: seq<int>)
    ensures |Ids(keys)| == |set x | x in keys|
  {
    var all := set x | x in keys;
    forall key ensures key in Ids(keys).Keys <==> key in all {
      IdsOfKeys(keys);
    }
    assert Ids(keys).Keys == all;
  }

  /** The number of a node is the number of different nodes before its first rank. */
  lemma FirstAppearance(keys: seq<int>, i: nat)
    requires i < |keys| && keys[i] !in keys[..i]
    ensures keys[i] in Ids(keys) && Ids(keys)[keys[i]] == |set x | x in keys[..i]|
  {
    var front := keys[..i];
    assert keys[..i + 1][..i] == front;
    IdsOfKeys(front);
    IdsKept(keys, i + 1, keys[i]);
    assert keys[i] !in Ids(front) && Ids(keys[..i + 1]) == Ids(front)[keys[i] := |Ids(front)|];
    KeysOf(front);
  }

  lemma IdAt(keys: seq<int>, i: nat)
    requires i < |keys|
    ensures keys[i] in Ids(keys)
  {
    IdsOfKeys(keys);
    assert keys[i] in keys;
  }

  method FillIdHash(keys: seq<int>) returns (hash: map<int, nat>)
    ensures hash == Ids(keys)
  {
    hash := map[];
    for i := 0 to |keys|
      invariant hash == Ids(keys[..i])
    {
      assert keys[..i + 1][..i] == keys[..i];
      if keys[i] !in hash {
        hash := hash[keys[i] := |hash|];
      }
    }
    assert keys[..|keys|] == keys;
  }

  function IdOf(keys: seq<int>, i: nat): nat
    requires i < |keys|
  {
    IdAt(keys, i);
    Ids(keys)[keys[i]]
  }

  /** The node number of every rank. */
  function NodeOf(keys: seq<int>): (loc: seq<nat>)
    ensures |loc| == |keys|
  {
    seq(|keys|, i requires 0 <= i < |keys| => IdOf(keys, i))
  }

  function NodeCount(keys: seq<int>): nat
  {
    |Ids(keys)|
  }

  lemma SameNode(keys: seq<int>, i: nat, j: nat)
    requires i < |keys| && j < |keys|
    ensures NodeOf(keys)[i] < NodeCount(keys)
    ensures NodeOf(keys)[i] == NodeOf(keys)[j] <==> keys[i] == keys[j]
  {
    IdsDense(keys);
    IdAt(keys, i);
    IdAt(keys, j);
    DenseAt(Ids(keys), keys[i], keys[j]);
    assert NodeOf(keys)[i] == IdOf(keys, i) && NodeOf(keys)[j] == IdOf(keys, j);
  }

  method InitDetail(keys: seq<int>) returns (nnode: nat, locations: seq<nat>, nrankContinuous: bool)
    ensures nnode == NodeCount(keys) && locations == NodeOf(keys)
    ensures nrankContinuous <==> Continuous(keys)
    ensures nrankContinuous <==> NoGaps(keys)
  {
    var hash := FillIdHash(keys);
    nnode := |hash|;
    locations := [];
    for i := 0 to |keys|
      invariant locations == NodeOf(keys)[..i]
    {
      IdAt(keys, i);
      locations := locations + [hash[keys[i]]];
    }
    nrankContinuous := ScanContinuous(keys);
  }

  /** Whether every node's ranks are consecutive. */
  predicate Continuous(keys: seq<int>)
  {
    keys == [] || (Continuous(keys[..|keys| - 1]) && Joins(keys[..|keys| - 1], keys[|keys| - 1]))
  }

  /** The next rank is on a new node or on the node of the rank before it. */
  predicate Joins(keys: seq<int>, key: int)
  {
    key in keys ==> key == keys[|keys| - 1]
  }

  lemma {:induction false} ContinuousPrefix(keys: seq<int>, m: nat)
    requires m <= |keys| && Continuous(keys)
    ensures Continuous(keys[..m])
    decreases |keys|
  {
    if m == |keys| {
      assert keys[..m] == keys;
    } else {
      ContinuousPrefix(keys[..|keys| - 1], m);
      assert keys[..|keys| - 1][..m] == keys[..m];
    }
  }

  lemma NotContinuous(keys: seq<int>, i: nat)
    requires i < |keys| && !Joins(keys[..i], keys[i])
    ensures !Continuous(keys)
  {
    assert keys[..i + 1][..i] == keys[..i];
    if Continuous(keys) {
      ContinuousPrefix(keys, i + 1);
    }
  }

  /** Of three ranks in order, the outer two are on the same node only if the middle one is, too. */
  predicate NoGaps(keys: seq<int>)
  {
    forall i: nat, j: nat, k: nat :: i < j < k < |keys| && keys[i] == keys[k] ==> keys[j] == keys[i]
  }

  lemma {:induction false} ContinuousIff(keys: seq<int>)
    ensures Continuous(keys) <==> NoGaps(keys)
    decreases |keys|
  {
    if keys != [] {
      var front, last := keys[..|keys| - 1], keys[|keys| - 1];
      ContinuousIff(front);
      if NoGaps(keys) {
        if last in front {
          var i: nat :| i < |front| && front[i] == last;
          assert i < |front| - 1 ==> keys[|front| - 1] == keys[i];
        }
      } else if NoGaps(front) {
        var i: nat, j: nat :| i < j < |front| && keys[i] == last && keys[j] != keys[i];
        assert front[i] == last && front[j] != last;
      }
    }
  }

  method ScanContinuous(keys: seq<int>) returns (continuous: bool)
    ensures continuous <==> Continuous(keys)
    ensures continuous <==> NoGaps(keys)
  {
    ContinuousIff(keys);
    var seen: set<int> := {};
    var last := -1;
    for i := 0 to |keys|
      invariant Continuous(keys[..i]) && (i > 0 ==> last == keys[i - 1])
      invariant seen == set x | x in keys[..i]
    {
      var key := keys[i];
      assert keys[..i + 1][..i] == keys[..i];
      if key !in seen {
        seen := seen + {key};
      } else if key != last {
        NotContinuous(keys, i);
        return false;
      }
      last := key;
    }
    assert keys[..|keys|] == keys;
    return true;
  }

  // ----- the ranks of a node -----

  /** The ranks of node `v` in ascending order. */
  function Members(loc: seq<nat>, v: nat): seq<nat>
  {
    if loc == [] then []
    else Members(loc[..|loc| - 1], v) + if loc[|loc| - 1] == v then [|loc| - 1] else []
  }

  lemma {:induction false} MembersAre(loc: seq<nat>, v: nat, k: nat)
    requires k < |Members(loc, v)|
    ensures Members(loc, v)[k] < |loc| && loc[Members(loc, v)[k]] == v
    decreases |loc|
  {
    var front := loc[..|loc| - 1];
    if k < |Members(front, v)| {
      MembersAre(front, v, k);
    }
  }

  lemma {:induction false} MembersAscend(loc: seq<nat>, v: nat, i: nat, j: nat)
    requires i < j < |Members(loc, v)|
    ensures Members(loc, v)[i] < Members(loc, v)[j]
    decreases |loc|
  {
    var front := loc[..|loc| - 1];
    if j < |Members(front, v)| {
      MembersAscend(front, v, i, j);
    } else {
      MembersAre(front, v, i);
    }
  }

  /** The position of rank `r` among the ranks of its node. */
  function Offset(loc: seq<nat>, r: nat): nat
    requires r < |loc|
  {
    |Members(loc[..r], loc[r])|
  }

  lemma {:induction false} MembersPrefix(loc: seq<nat>, v: nat, m: nat)
    requires m <= |loc|
    ensures Members(loc[..m], v) <= Members(loc, v)
    decreases |loc|
  {
    if m == |loc| {
      assert loc[..m] == loc;
    } else {
      var front := loc[..|loc| - 1];
      assert front[..m] == loc[..m];
      MembersPrefix(front, v, m);
    }
  }

  /** Every rank is at its offset among the ranks of its node. */
  lemma AtOffset(loc: seq<nat>, r: nat)
    requires r < |loc|
    ensures Offset(loc, r) < |Members(loc, loc[r])| && Members(loc, loc[r])[Offset(loc, r)] == r
  {
    MembersPrefix(loc, loc[r], r + 1);
    assert loc[..r + 1][..r] == loc[..r];
    var m := Members(loc[..r + 1], loc[r]);
    assert m == Members(loc[..r], loc[r]) + [r];
  }

  /** The `k`-th rank of a node has offset `k`. */
  lemma OffsetOfMember(loc: seq<nat>, v: nat, k: nat)
    requires k < |Members(loc, v)|
    ensures Members(loc, v)[k] < |loc| && loc[Members(loc, v)[k]] == v && Offset(loc, Members(loc, v)[k]) == k
  {
    var r := Members(loc, v)[k];
    MembersAre(loc, v, k);
    AtOffset(loc, r);
    var o := Offset(loc, r);
    if o < k {
      MembersAscend(loc, v, o, k);
    } else if k < o {
      MembersAscend(loc, v, k, o);
    }
  }

  /** The group of a node: its ranks, and which of them is `self`. */
  method CreateNodeGroup(loc: seq<nat>, self: nat) returns (ranks: seq<nat>, vrank: nat)
    requires self < |loc|
    ensures ranks == Members(loc, loc[self]) && vrank == Offset(loc, self)
  {
    ranks, vrank := [], 0;
    for i := 0 to |loc|
      invariant ranks == Members(loc[..i], loc[self])
      invariant i > self ==> vrank == Offset(loc, self)
    {
      assert loc[..i + 1][..i] == loc[..i];
      if loc[i] == loc[self] {
        if i == self {
          vrank := |ranks|;
        }
        ranks := ranks + [i];
      }
    }
    assert loc[..|loc|] == loc;
  }

  // ----- balanced placements -----

  predicate Balanced(loc: seq<nat>, nodes: nat, ppn: nat)
  {
    && (forall r: nat :: r < |loc| ==> loc[r] < nodes)
    && (forall v: nat :: v < nodes ==> |Members(loc, v)| == ppn)
  }

  datatype Ppn = Unknown | Unbalanced | Ppn(value: nat)

  method CountRanks(loc: seq<nat>, nodes: nat) returns (count: array<nat>)
    requires forall r: nat :: r < |loc| ==> loc[r] < nodes
    ensures count.Length == nodes && forall v: nat :: v < nodes ==> count[v] == |Members(loc, v)|
  {
    count := new nat[nodes](_ => 0);
    for i := 0 to |loc|
      invariant forall v: nat :: v < nodes ==> count[v] == |Members(loc[..i], v)|
    {
      assert loc[..i + 1][..i] == loc[..i];
      count[loc[i]] := count[loc[i]] + 1;
    }
    assert loc[..|loc|] == loc;
  }

  /** The ranks per node, if they are the same on all nodes that have any. */
  method CalcPpn(loc: seq<nat>, nodes: nat) returns (ppn: Ppn)
    requires forall r: nat :: r < |loc| ==> loc[r] < nodes
    ensures ppn.Unknown? <==> nodes == 0
    ensures ppn.Ppn? ==> forall v: nat :: v < nodes && |Members(loc, v)| > 0 ==> |Members(loc, v)| == ppn.value
    ensures ppn.Unbalanced? ==> exists v: nat, w: nat ::
      v < nodes && w < nodes && |Members(loc, v)| > 0 && |Members(loc, w)| > 0 && |Members(loc, v)| != |Members(loc, w)|
  {
    if nodes == 0 {
      return Unknown;
    }
    var count := CountRanks(loc, nodes);
    var res: nat := 0;
    ghost var first: nat := 0;
    for i := 0 to nodes
      invariant forall v: nat :: v < i && |Members(loc, v)| > 0 ==> |Members(loc, v)| == res
      invariant res > 0 ==> first < nodes && res == |Members(loc, first)|
    {
      if count[i] == 0 {
        continue;
      }
      if res == 0 {
        res := count[i];
        first := i;
      } else if count[i] != res {
        assert |Members(loc, first)| > 0 && |Members(loc, i)| > 0 && |Members(loc, first)| != |Members(loc, i)|;
        return Unbalanced;
      }
    }
    return Ppn(res);
  }

  /** For the node numbers of real ranks the answer is a number exactly for the balanced placements. */
  method PpnOf(keys: seq<int>) returns (ppn: Ppn)
    ensures ppn.Unknown? <==> keys == []
    ensures ppn.Ppn? ==> Balanced(NodeOf(keys), NodeCount(keys), ppn.value)
    ensures ppn.Unbalanced? ==> forall p: nat :: !Balanced(NodeOf(keys), NodeCount(keys), p)
  {
    var nnode, loc, continuous := InitDetail(keys);
    forall r: nat | r < |loc| ensures loc[r] < nnode {
      SameNode(keys, r, r);
    }
    forall v: nat | v < nnode ensures |Members(loc, v)| > 0 {
      NoEmptyNode(keys, v);
    }
    if keys == [] {
      assert NodeCount(keys) == 0;
    } else {
      SameNode(keys, 0, 0);
    }
    ppn := CalcPpn(loc, nnode);
  }

  /** Every node number has a rank. */
  lemma NoEmptyNode(keys: seq<int>, v: nat)
    requires v < NodeCount(keys)
    ensures |Members(NodeOf(keys), v)| > 0
  {
    IdsDense(keys);
    IdsOfKeys(keys);
    assert Given(Ids(keys), v);
    var key :| key in Ids(keys) && Ids(keys)[key] == v;
    var r :| 0 <= r < |keys| && keys[r] == key;
    AtOffset(NodeOf(keys), r);
  }

  // ----- the global order and the groups of equal offset -----

  /** The ranks ordered by node, and by rank within a node. */
  predicate ByNode(order: seq<nat>, loc: seq<nat>, nodes: nat, ppn: nat)
  {
    && |order| == nodes * ppn
    && forall v: nat :: v < nodes ==> NodePart(order, loc, nodes, ppn, v)
  }

  predicate NodePart(order: seq<nat>, loc: seq<nat>, nodes: nat, ppn: nat, v: nat)
    requires |order| == nodes * ppn && v < nodes
  {
    MulSplit(nodes, v, ppn);
    order[v * ppn..v * ppn + ppn] == Members(loc, v)
  }

  /** How many ranks run on nodes before `v`. */
  function Below(loc: seq<nat>, v: nat): nat
  {
    if loc == [] then 0 else Below(loc[..|loc| - 1], v) + if loc[|loc| - 1] < v then 1 else 0
  }

  lemma {:induction false} BelowNext(loc: seq<nat>, v: nat)
    ensures Below(loc, v + 1) == Below(loc, v) + |Members(loc, v)|
    decreases |loc|
  {
    if loc != [] {
      BelowNext(loc[..|loc| - 1], v);
    }
  }

  lemma {:induction false} BelowAll(loc: seq<nat>, v: nat)
    requires forall r: nat :: r < |loc| ==> loc[r] < v
    ensures Below(loc, v) == |loc|
    decreases |loc|
  {
    if loc != [] {
      BelowAll(loc[..|loc| - 1], v);
    }
  }

  lemma {:induction false} BelowNone(loc: seq<nat>)
    ensures Below(loc, 0) == 0
    decreases |loc|
  {
    if loc != [] {
      BelowNone(loc[..|loc| - 1]);
    }
  }

  lemma {:induction false} BelowBalanced(loc: seq<nat>, nodes: nat, ppn: nat, v: nat)
    requires Balanced(loc, nodes, ppn) && v <= nodes
    ensures Below(loc, v) == v * ppn
    decreases v
  {
    if v == 0 {
      BelowNone(loc);
    } else {
      BelowBalanced(loc, nodes, ppn, v - 1);
      BelowNext(loc, v - 1);
      assert v * ppn == (v - 1) * ppn + ppn;
    }
  }

  lemma BalancedSize(loc: seq<nat>, nodes: nat, ppn: nat)
    requires Balanced(loc, nodes, ppn)
    ensures |loc| == nodes * ppn
  {
    BelowBalanced(loc, nodes, ppn, nodes);
    BelowAll(loc, nodes);
  }

  /** The rows of `order` that the first ranks have filled. */
  predicate Filled(order: seq<nat>, part: seq<nat>, nodes: nat, ppn: nat)
    requires |order| == nodes * ppn
  {
    forall v: nat :: v < nodes ==> RowFilled(order, part, nodes, ppn, v)
  }

  predicate RowFilled(order: seq<nat>, part: seq<nat>, nodes: nat, ppn: nat, v: nat)
    requires |order| == nodes * ppn && v < nodes
  {
    MulSplit(nodes, v, ppn);
    var row := Members(part, v);
    |row| <= ppn && order[v * ppn..v * ppn + |row|] == row
  }

  /** Rows do not overlap. */
  lemma RowsApart(v: nat, k: nat, w: nat, l: nat, ppn: nat)
    requires v < w && k < ppn && l < ppn
    ensures v * ppn + k < w * ppn + l
  {
    MulSplit(w, v, ppn);
  }

  lemma FillOne(order: seq<nat>, part: seq<nat>, x: nat, nodes: nat, ppn: nat)
    requires |order| == nodes * ppn && Filled(order, part, nodes, ppn) && x < nodes && |Members(part, x)| < ppn
    ensures 0 <= x * ppn && x * ppn + |Members(part, x)| < |order|
    ensures Filled(order[x * ppn + |Members(part, x)| := |part|], part + [x], nodes, ppn)
  {
    MulSplit(nodes, x, ppn);
    assert RowFilled(order, part, nodes, ppn, x);
    var at := x * ppn + |Members(part, x)|;
    var order' := order[at := |part|];
    forall v: nat | v < nodes ensures RowFilled(order', part + [x], nodes, ppn, v) {
      MulSplit(nodes, v, ppn);
      assert RowFilled(order, part, nodes, ppn, v);
      assert (part + [x])[..|part|] == part;
      FillRow(order, order', part, x, nodes, ppn, v);
    }
  }

  lemma FillRow(order: seq<nat>, order': seq<nat>, part: seq<nat>, x: nat, nodes: nat, ppn: nat, v: nat)
    requires |order| == nodes * ppn && v < nodes && x < nodes && |Members(part, x)| < ppn
    requires 0 <= x * ppn && x * ppn + |Members(part, x)| < |order|
    requires RowFilled(order, part, nodes, ppn, v)
    requires order' == order[x * ppn + |Members(part, x)| := |part|]
    ensures RowFilled(order', part + [x], nodes, ppn, v)
  {
    MulSplit(nodes, v, ppn);
    assert (part + [x])[..|part|] == part;
    var row, at := Members(part, v), x * ppn + |Members(part, x)|;
    OutsideRow(v, |row|, x, |Members(part, x)|, ppn);
    StillThere(order, order', v * ppn, row, at, |part|);
  }

  /** Writing behind a row leaves it as it is, and makes it longer if it is right behind it. */
  lemma StillThere(order: seq<nat>, order': seq<nat>, start: nat, row: seq<nat>, at: nat, x: nat)
    requires start + |row| <= |order| && order[start..start + |row|] == row && at < |order| && order' == order[at := x]
    requires at < start || start + |row| <= at
    ensures order'[start..start + |row|] == row
    ensures at == start + |row| ==> order'[start..start + |row| + 1] == row + [x]
  {
    assert order'[start..start + |row|] == order[start..start + |row|];
  }

  lemma OutsideRow(v: nat, size: nat, x: nat, l: nat, ppn: nat)
    requires size <= ppn && l < ppn && (v == x ==> size <= l)
    ensures x * ppn + l < v * ppn || v * ppn + size <= x * ppn + l
  {
    if v < x {
      RowsApart(v, ppn - 1, x, l, ppn);
    } else if x < v {
      RowsApart(x, l, v, 0, ppn);
    }
  }

  lemma {:induction false} PartSize(loc: seq<nat>, i: nat, v: nat)
    requires i < |loc| && loc[i] == v
    ensures |Members(loc[..i], v)| < |Members(loc, v)|
  {
    AtOffset(loc, i);
  }

  /** The ranks in global order, filled in by walking over the ranks once. */
  method GetGlobalRanks(loc: seq<nat>, nodes: nat, ppn: nat) returns (order: seq<nat>)
    requires Balanced(loc, nodes, ppn)
    ensures ByNode(order, loc, nodes, ppn)
  {
    BalancedSize(loc, nodes, ppn);
    var globalRanks := new nat[|loc|](_ => 0);
    var count := new nat[nodes](_ => 0);
    forall v: nat | v < nodes ensures RowFilled(globalRanks[..], [], nodes, ppn, v) {
      MulSplit(nodes, v, ppn);
    }
    for i := 0 to |loc|
      invariant forall v: nat :: v < nodes ==> count[v] == |Members(loc[..i], v)|
      invariant |globalRanks[..]| == nodes * ppn && Filled(globalRanks[..], loc[..i], nodes, ppn)
    {
      var v := loc[i];
      PartSize(loc, i, v);
      FillOne(globalRanks[..], loc[..i], v, nodes, ppn);
      assert loc[..i + 1] == loc[..i] + [v] && loc[..i + 1][..i] == loc[..i];
      ghost var was := globalRanks[..];
      globalRanks[v * ppn + count[v]] := i;
      assert globalRanks[..] == was[v * ppn + |Members(loc[..i], v)| := i];
      count[v] := count[v] + 1;
    }
    assert loc[..|loc|] == loc;
    order := globalRanks[..];
    forall v: nat | v < nodes ensures NodePart(order, loc, nodes, ppn, v) {
      assert RowFilled(order, loc, nodes, ppn, v);
    }
  }

  /** The ranks with offset `o` on their nodes, by node. */
  function Leaders(loc: seq<nat>, nodes: nat, ppn: nat, o: nat): seq<nat>
    requires Balanced(loc, nodes, ppn) && o < ppn
  {
    seq(nodes, (v: nat) requires v < nodes => Members(loc, v)[o])
  }

  lemma LeaderAt(loc: seq<nat>, nodes: nat, ppn: nat, o: nat, v: nat)
    requires Balanced(loc, nodes, ppn) && o < ppn && v < nodes
    ensures var r := Leaders(loc, nodes, ppn, o)[v]; r < |loc| && loc[r] == v && Offset(loc, r) == o
  {
    OffsetOfMember(loc, v, o);
  }

  /** The groups of equal offset partition the ranks: a rank is in the group of its own offset only, once,
      as the member of its node. */
  lemma LeadersPartition(loc: seq<nat>, nodes: nat, ppn: nat, r: nat)
    requires Balanced(loc, nodes, ppn) && r < |loc|
    ensures loc[r] < nodes && Offset(loc, r) < ppn
    ensures Leaders(loc, nodes, ppn, Offset(loc, r))[loc[r]] == r
    ensures forall o: nat, v: nat :: o < ppn && v < nodes && Leaders(loc, nodes, ppn, o)[v] == r ==>
      o == Offset(loc, r) && v == loc[r]
  {
    AtOffset(loc, r);
    forall o: nat, v: nat | o < ppn && v < nodes && Leaders(loc, nodes, ppn, o)[v] == r
      ensures o == Offset(loc, r) && v == loc[r]
    {
      LeaderAt(loc, nodes, ppn, o, v);
    }
  }

  /** What the second walk has found when it has seen the first `k` ranks of node `v`. */
  ghost predicate Walked(loc: seq<nat>, nodes: nat, ppn: nat, o: nat, v: nat, k: nat,
                         offsets: seq<nat>, ranks: seq<nat>)
    requires Balanced(loc, nodes, ppn) && o < ppn
  {
    && |offsets| == nodes && (if v < nodes then k < ppn else v == nodes && k == 0)
    && (forall w: nat :: w < nodes ==> offsets[w] == if w < v then ppn else if w == v then k else 0)
    && ranks == Leaders(loc, nodes, ppn, o)[..if o < k then v + 1 else v]
  }

  /** The group of the ranks that have the offset of `self`, in node order, and the place of `self` in it. */
  method CreateLeaderGroup(loc: seq<nat>, nodes: nat, ppn: nat, self: nat) returns (ranks: seq<nat>, vrank: nat)
    requires Balanced(loc, nodes, ppn) && self < |loc|
    ensures Offset(loc, self) < ppn && ranks == Leaders(loc, nodes, ppn, Offset(loc, self)) && vrank == loc[self]
  {
    LeadersPartition(loc, nodes, ppn, self);
    BalancedSize(loc, nodes, ppn);
    var myoffset := CountBefore(loc, self);
    var order := GetGlobalRanks(loc, nodes, ppn);
    ranks := WalkOrder(loc, nodes, ppn, myoffset, order);
    vrank := 0;
    for i := 0 to nodes
      invariant vrank == 0 && i <= loc[self]
    {
      if ranks[i] == self {
        vrank := i;
        break;
      }
    }
  }

  method CountBefore(loc: seq<nat>, self: nat) returns (offset: nat)
    requires self < |loc|
    ensures offset == Offset(loc, self)
  {
    offset := 0;
    for i := 0 to self
      invariant offset == |Members(loc[..i], loc[self])|
    {
      assert loc[..i + 1][..i] == loc[..i];
      if loc[i] == loc[self] {
        offset := offset + 1;
      }
    }
  }

  /** The place after the `k`-th rank of node `v`. */
  lemma NextCell(v: nat, k: nat, ppn: nat) returns (v': nat, k': nat)
    requires k < ppn
    ensures k' < ppn && v' * ppn + k' == v * ppn + k + 1
    ensures if k + 1 < ppn then v' == v && k' == k + 1 else v' == v + 1 && k' == 0
  {
    v', k' := if k + 1 < ppn then v else v + 1, if k + 1 < ppn then k + 1 else 0;
  }

  lemma InRow(order: seq<nat>, loc: seq<nat>, nodes: nat, ppn: nat, v: nat, k: nat)
    requires Balanced(loc, nodes, ppn) && ByNode(order, loc, nodes, ppn)
    requires v < nodes && k < ppn
    ensures 0 <= v * ppn + k < |order| && order[v * ppn + k] == Members(loc, v)[k]
    ensures order[v * ppn + k] < |loc| && loc[order[v * ppn + k]] == v
  {
    MulSplit(nodes, v, ppn);
    assert NodePart(order, loc, nodes, ppn, v);
    assert order[v * ppn..v * ppn + ppn][k] == order[v * ppn + k];
    MembersAre(loc, v, k);
  }

  lemma WalkNext(loc: seq<nat>, nodes: nat, ppn: nat, o: nat, v: nat, k: nat, offsets: seq<nat>, ranks: seq<nat>,
                 v': nat, k': nat)
    requires Balanced(loc, nodes, ppn) && o < ppn && v < nodes && Walked(loc, nodes, ppn, o, v, k, offsets, ranks)
    requires if k + 1 < ppn then v' == v && k' == k + 1 else v' == v + 1 && k' == 0
    ensures Walked(loc, nodes, ppn, o, v', k', offsets[v := k + 1],
                   if k == o then ranks + [Members(loc, v)[k]] else ranks)
  {
    var leaders := Leaders(loc, nodes, ppn, o);
    assert leaders[..v + 1] == leaders[..v] + [leaders[v]];
  }

  lemma StillRows(nodes: nat, v: nat, k: nat, ppn: nat)
    requires v <= nodes && k < ppn && v * ppn + k < nodes * ppn
    ensures v < nodes
  {
  }

  method CountUp(offsets: array<nat>, node: nat)
    requires node < offsets.Length
    modifies offsets
    ensures offsets[..] == old(offsets[..])[node := old(offsets[node]) + 1]
  {
    offsets[node] := offsets[node] + 1;
  }

  method WalkOrder(loc: seq<nat>, nodes: nat, ppn: nat, myoffset: nat, order: seq<nat>) returns (ranks: seq<nat>)
    requires Balanced(loc, nodes, ppn) && myoffset < ppn && ByNode(order, loc, nodes, ppn)
    ensures ranks == Leaders(loc, nodes, ppn, myoffset)
  {
    var offsets := new nat[nodes](_ => 0);
    ranks := [];
    ghost var v: nat, k: nat := 0, 0;
    for j := 0 to |order|
      invariant j == v * ppn + k
      invariant Walked(loc, nodes, ppn, myoffset, v, k, offsets[..], ranks)
    {
      StillRows(nodes, v, k, ppn);
      InRow(order, loc, nodes, ppn, v, k);
      ghost var v', k' := NextCell(v, k, ppn);
      WalkNext(loc, nodes, ppn, myoffset, v, k, offsets[..], ranks, v', k');
      var i := order[j];
      var node := loc[i];
      if offsets[node] == myoffset {
        ranks := ranks + [i];
      }
      CountUp(offsets, node);
      v, k := v', k';
    }
    LastCell(nodes, v, k, ppn);
  }

  lemma LastCell(nodes: nat, v: nat, k: nat, ppn: nat)
    requires v <= nodes && k < ppn && v * ppn + k == nodes * ppn
    ensures v == nodes && k == 0
  {
    if v < nodes {
      MulSplit(nodes, v, ppn);
    }
  }

  // ----- consecutive placements -----

  /** The numbers start at 0 and never skip or go back. */
  predicate Rising(loc: seq<nat>)
  {
    && (loc != [] ==> loc[0] == 0)
    && forall i: nat, j: nat :: i <= j < |loc| ==> loc[i] <= loc[j]
  }

  lemma {:induction false} ContinuousRises(keys: seq<int>)
    requires Continuous(keys)
    ensures Rising(NodeOf(keys)) && (keys != [] ==> NodeOf(keys)[|keys| - 1] == NodeCount(keys) - 1)
    decreases |keys|
  {
    if keys != [] {
      var front, key := keys[..|keys| - 1], keys[|keys| - 1];
      ContinuousRises(front);
      IdsOfKeys(front);
      forall i: nat | i < |front| ensures NodeOf(keys)[i] == NodeOf(front)[i] < NodeCount(front) {
        IdAt(front, i);
        SameNode(front, i, i);
        assert keys[..|front|] == front;
        IdsKept(keys, |front|, keys[i]);
      }
      var last := NodeOf(keys)[|front|];
      if key in Ids(front) {
        assert Ids(keys) == Ids(front) && front != [];
        assert NodeOf(front)[|front| - 1] == Ids(front)[key];
      } else {
        assert last == NodeCount(front);
      }
    }
  }

  /** On a consecutive placement the ranks of a node follow each other. */
  lemma {:induction false} RisingMembers(loc: seq<nat>, v: nat, k: nat)
    requires Rising(loc) && k < |Members(loc, v)|
    ensures Members(loc, v)[k] == Below(loc, v) + k
    decreases |loc|
  {
    var front, x := loc[..|loc| - 1], loc[|loc| - 1];
    if k < |Members(front, v)| {
      RisingMembers(front, v, k);
      MembersAre(front, v, k);
    } else {
      BelowAll(front, v + 1);
      BelowNext(front, v);
    }
  }

  /** If every node's ranks are consecutive, the global order is the order of the ranks. */
  lemma ContinuousIsOrdered(keys: seq<int>, ppn: nat)
    requires Continuous(keys) && Balanced(NodeOf(keys), NodeCount(keys), ppn)
    ensures ByNode(Identity(|keys|), NodeOf(keys), NodeCount(keys), ppn)
  {
    var loc, nodes := NodeOf(keys), NodeCount(keys);
    BalancedSize(loc, nodes, ppn);
    ContinuousRises(keys);
    forall v: nat | v < nodes ensures NodePart(Identity(|keys|), loc, nodes, ppn, v) {
      MulSplit(nodes, v, ppn);
      BelowBalanced(loc, nodes, ppn, v);
      forall k: nat | k < ppn ensures Members(loc, v)[k] == v * ppn + k {
        RisingMembers(loc, v, k);
      }
      assert Identity(|keys|)[v * ppn..v * ppn + ppn] == Members(loc, v);
    }
  }

  // ----- the displacements that the operation hands to its two phases -----

  /** The global order of the ranks, looked up only if they are not consecutive. */
  method OrderForPhases(keys: seq<int>, ppn: nat) returns (order: seq<nat>)
    requires Balanced(NodeOf(keys), NodeCount(keys), ppn)
    ensures ByNode(order, NodeOf(keys), NodeCount(keys), ppn)
  {
    var nodes, loc, continuous := InitDetail(keys);
    if !continuous {
      order := GetGlobalRanks(loc, nodes, ppn);
    } else {
      order := [];
      for i := 0 to |keys|
        invariant order == Identity(i)
      {
        order := order + [i];
      }
      ContinuousIsOrdered(keys, ppn);
    }
  }

  /** The displacements of the phase between nodes: those of the ranks with the offset of `self`. */
  method InterDispls(keys: seq<int>, ppn: nat, self: nat, order: seq<nat>, continuous: bool) returns (displs: seq<nat>)
    requires Balanced(NodeOf(keys), NodeCount(keys), ppn) && self < |keys|
    requires ByNode(order, NodeOf(keys), NodeCount(keys), ppn) && continuous == Continuous(keys)
    ensures Offset(NodeOf(keys), self) < ppn
    ensures displs == Leaders(NodeOf(keys), NodeCount(keys), ppn, Offset(NodeOf(keys), self))
  {
    ghost var loc, o := NodeOf(keys), Offset(NodeOf(keys), self);
    var nodes := NodeCount(keys);
    LeadersPartition(loc, nodes, ppn, self);
    BalancedSize(loc, nodes, ppn);
    var index := self;
    if !continuous {
      index := FindIndex(order, self, loc, nodes, ppn);
    } else {
      ContinuousIndex(keys, ppn, self);
    }
    assert index == loc[self] * ppn + o;
    ModUnique(index, ppn, loc[self], o);
    displs := [];
    for i := 0 to nodes
      invariant displs == Leaders(loc, nodes, ppn, o)[..i]
    {
      InRow(order, loc, nodes, ppn, i, o);
      displs := displs + [order[i * ppn + index % ppn]];
    }
  }

  lemma ContinuousIndex(keys: seq<int>, ppn: nat, r: nat)
    requires Continuous(keys) && Balanced(NodeOf(keys), NodeCount(keys), ppn) && r < |keys|
    ensures r == NodeOf(keys)[r] * ppn + Offset(NodeOf(keys), r)
  {
    var loc := NodeOf(keys);
    LeadersPartition(loc, NodeCount(keys), ppn, r);
    ContinuousRises(keys);
    AtOffset(loc, r);
    RisingMembers(loc, loc[r], Offset(loc, r));
    BelowBalanced(loc, NodeCount(keys), ppn, loc[r]);
  }

  /** The place of a rank in the global order. */
  method FindIndex(order: seq<nat>, self: nat, ghost loc: seq<nat>, ghost nodes: nat, ghost ppn: nat)
    returns (index: nat)
    requires Balanced(loc, nodes, ppn) && ByNode(order, loc, nodes, ppn) && self < |loc|
    ensures index == loc[self] * ppn + Offset(loc, self)
  {
    LeadersPartition(loc, nodes, ppn, self);
    AtOffset(loc, self);
    InRow(order, loc, nodes, ppn, loc[self], Offset(loc, self));
    ghost var place := loc[self] * ppn + Offset(loc, self);
    index := 0;
    ghost var v: nat, k: nat := 0, 0;
    for i := 0 to |order|
      invariant i == v * ppn + k && k < ppn && v <= nodes
      invariant i > place ==> index == place
    {
      StillRows(nodes, v, k, ppn);
      InRow(order, loc, nodes, ppn, v, k);
      if order[i] == self {
        OffsetOfMember(loc, v, k);
        index := i;
      }
      v, k := NextCell(v, k, ppn);
    }
  }
}
