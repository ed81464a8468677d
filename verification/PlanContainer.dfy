/** The container: one list of plans per collective type and memory type; adding, merging and selecting plans. */
module PlanContainer {
  import opened Plans
  import opened PlanList

  datatype Status = Ok | InvalidParam | NoMemory

  /** What a caller passes to add a plan; the three flags tell whether the pointers are set. */
  datatype Params = Params(slot: nat, attr: Attr, hasPrepare: bool, hasName: bool, hasDomain: bool, deprecated: bool)

  predicate AttrOk(p: Params)
  {
    p.hasPrepare && p.hasName && p.hasDomain && p.attr.range.start < p.attr.range.end
  }

  predicate Distinct(lists: seq<PlanList>)
  {
    forall i: nat, j: nat :: i < j < |lists| ==> lists[i] != lists[j]
  }

  /** `slot` numbers the pairs of collective type and memory type. */
  class Container {
    const lists: seq<PlanList>

    ghost predicate Valid()
      reads this, lists
    {
      && Distinct(lists)
      && forall i: nat :: i < |lists| ==> lists[i].Valid()
    }

    constructor (slots: nat)
      ensures Valid() && |lists| == slots && forall i: nat :: i < slots ==> fresh(lists[i]) && lists[i].plans == []
    {
      var all: seq<PlanList> := [];
      for k := 0 to slots
        invariant |all| == k
        invariant forall i: nat :: i < k ==> fresh(all[i]) && all[i].plans == []
        invariant forall i: nat, j: nat :: i < j < k ==> all[i] != all[j]
      {
        var list := new PlanList();
        all := all + [list];
      }
      lists := all;
    }

    /** Adding a plan changes the lookups of its own slot only, by exactly that plan. */
    method Add(params: Params, mem: Memory) returns (status: Status)
      requires Valid()
      modifies lists, mem
      ensures Valid()
      ensures status.InvalidParam? <==>
        || params.slot >= |lists| || !params.hasPrepare || !params.hasName || !params.hasDomain
        || params.attr.range.end <= params.attr.range.start
      ensures status.NoMemory? <==> mem.failures != old(mem.failures)
      ensures status.Ok? && !params.deprecated ==>
        && Added(old(lists[params.slot].plans), [Plan(params.attr, [])], lists[params.slot].plans)
        && OwnerRule(old(lists[params.slot].plans), Plan(params.attr, []), lists[params.slot].plans)
      ensures status.Ok? && !params.deprecated ==>
        FullyCompacted(lists[params.slot].plans) && StacksDiffer(lists[params.slot].plans)
      ensures status.Ok? && params.deprecated ==> forall i: nat :: i < |lists| ==> lists[i].plans == old(lists[i].plans)
      ensures !status.Ok? ==> forall i: nat :: i < |lists| ==> SameStacks(old(lists[i].plans), lists[i].plans)
      ensures forall i: nat :: i < |lists| && i != params.slot ==> lists[i].plans == old(lists[i].plans)
    {
      if params.slot >= |lists| || !AttrOk(params) {
        return InvalidParam;
      }
      if params.deprecated {
        return Ok;
      }
      var created := mem.Alloc(3);
      if !created {
        return NoMemory;
      }
      var list := lists[params.slot];
      var ok := list.AddOne(Plan(params.attr, []), mem);
      if !ok {
        return NoMemory;
      }
      ghost var was := list.plans;
      list.CompactOne();
      SameIsAdded(old(list.plans), [Plan(params.attr, [])], was, list.plans);
      SameIsOwned(old(list.plans), [Plan(params.attr, [])], was, list.plans);
      OneOwner(old(list.plans), Plan(params.attr, []), list.plans);
      return Ok;
    }
  }

  /** Copies of all plans of a list. */
  method DupOne(list: PlanList, plans: seq<Plan>, mem: Memory) returns (ok: bool)
    requires list.plans == []
    modifies list, mem
    ensures mem.failures >= old(mem.failures)
    ensures ok <==> mem.failures == old(mem.failures)
    ensures ok ==> list.plans == plans
  {
    for k := 0 to |plans|
      invariant list.plans == plans[..k] && mem.failures == old(mem.failures)
    {
      var copied := mem.Alloc(CopyUnits(plans[k]));
      if !copied {
        return false;
      }
      list.plans := list.plans + [plans[k]];
    }
    return true;
  }

  /** One slot of a merge: the copied plans of the destination, and the source's added to them. */
  method MergeSlot(list: PlanList, dst: seq<Plan>, src: seq<Plan>, mem: Memory) returns (ok: bool)
    requires list.plans == [] && WellFormed(dst) && WellFormed(src)
    modifies list, mem
    ensures mem.failures >= old(mem.failures)
    ensures ok <==> mem.failures == old(mem.failures)
    ensures ok ==> SlotDone(dst, src, list.plans) && FullyCompacted(list.plans) && StacksDiffer(list.plans)
  {
    ok := DupOne(list, dst, mem);
    if ok {
      ok := list.MergeOne(src, mem);
    }
  }

  /** Every slot of `after` has, for every size, the plans of `dst` and those of `src`, and the better one of the two
      owners, that of `dst` on a draw. */
  ghost predicate Merged(dst: Container, src: Container, after: Container)
    reads dst, dst.lists, src, src.lists, after, after.lists
  {
    && |after.lists| == |dst.lists| == |src.lists|
    && forall i: nat :: i < |dst.lists| ==> SlotDone(dst.lists[i].plans, src.lists[i].plans, after.lists[i].plans)
  }

  ghost predicate SlotDone(dst: seq<Plan>, src: seq<Plan>, after: seq<Plan>)
  {
    WellFormed(after) && Added(dst, src, after) && OwnersAdded(dst, src, after)
  }

  /** The slots one by one, into empty lists that neither container uses. */
  method MergeSlots(dst: Container, src: Container, merged: Container, mem: Memory) returns (ok: bool)
    requires dst.Valid() && src.Valid() && |dst.lists| == |src.lists| == |merged.lists| && Distinct(merged.lists)
    requires forall i: nat :: i < |merged.lists| ==>
      merged.lists[i] !in dst.lists && merged.lists[i] !in src.lists && merged.lists[i].plans == []
    modifies merged.lists, mem
    ensures mem.failures >= old(mem.failures)
    ensures ok <==> mem.failures == old(mem.failures)
    ensures ok ==> merged.Valid() && Merged(dst, src, merged)
  {
    for k := 0 to |dst.lists|
      invariant mem.failures == old(mem.failures)
      invariant forall i: nat :: k <= i < |merged.lists| ==> merged.lists[i].plans == []
      invariant forall i: nat :: i < k ==> SlotDone(dst.lists[i].plans, src.lists[i].plans, merged.lists[i].plans)
    {
      var list := merged.lists[k];
      ok := MergeSlot(list, dst.lists[k].plans, src.lists[k].plans, mem);
      if !ok {
        return;
      }
    }
    ok := true;
  }

  /** Merging builds a new container and gives it out only if all went well: until then, and after a failure,
      the destination is what it was.  Merging a container into itself does nothing. */
  method Merge(dst: Container, src: Container, mem: Memory) returns (status: Status, result: Container)
    requires dst.Valid() && src.Valid() && |dst.lists| == |src.lists|
    modifies mem
    ensures result.Valid()
    ensures status.Ok? <==> mem.failures == old(mem.failures)
    ensures dst == src ==> status.Ok? && result == dst
    ensures !status.Ok? ==> status.NoMemory? && result == dst
    ensures status.Ok? && dst != src ==> fresh(result) && Merged(dst, src, result)
  {
    if dst == src {
      return Ok, dst;
    }
    var created := mem.Alloc(1);
    if !created {
      return NoMemory, dst;
    }
    var merged := new Container(|dst.lists|);
    var ok := MergeSlots(dst, src, merged, mem);
    if !ok {
      return NoMemory, dst;
    }
    return Ok, merged;
  }
}
