/** Selecting a plan: the owner of the message size is tried first, then its fallbacks, until a prepare routine
    accepts.  Fallbacks that share the owner's routine are passed over, even if they come from another group. */
module Selection {
  import opened Plans
  import opened PlanList
  import Network

  type Option<+T> = Network.Option<T>

  /** Whether a prepare routine, called for a group, accepts the request at hand. */
  type Accept = (nat, nat) -> bool

  predicate Accepts(accept: Accept, k: Key)
  {
    accept(k.prepare, k.vgroup)
  }

  /** The first fallback that is tried and accepts. */
  function FirstAccepted(keys: seq<Key>, owner: nat, accept: Accept): Option<Key>
  {
    if keys == [] then Network.None
    else if keys[0].prepare != owner && Accepts(accept, keys[0]) then Network.Some(keys[0])
    else FirstAccepted(keys[1..], owner, accept)
  }

  function Select(stack: seq<Key>, accept: Accept): Option<Key>
  {
    if stack == [] then Network.None
    else if Accepts(accept, stack[0]) then Network.Some(stack[0])
    else FirstAccepted(stack[1..], stack[0].prepare, accept)
  }

  /** Variable all-to-all looks again, at size 0, when the first owner refuses, so that all ranks fall back to the
      same plan whatever their own sizes are. */
  function Chosen(plans: seq<Plan>, m: nat, reselects: bool, accept: Accept): Option<Key>
  {
    var stack := StackAt(plans, m);
    if stack == [] || Accepts(accept, stack[0]) || !reselects then Select(stack, accept)
    else Select(StackAt(plans, 0), accept)
  }

  predicate NonIncreasing(keys: seq<Key>)
  {
    forall i: nat, j: nat :: i < j < |keys| ==> keys[i].score >= keys[j].score
  }

  lemma AppendLast(keys: seq<Key>, k: Key)
    requires NonIncreasing(keys) && forall x :: x in keys ==> x.score >= k.score
    ensures NonIncreasing(keys + [k])
  {
  }

  lemma StackDescends(plans: seq<Plan>, m: nat)
    requires WellFormed(plans)
    ensures NonIncreasing(StackAt(plans, m))
  {
    if StackAt(plans, m) != [] {
      var i := StackFound(plans, m);
      assert GoodPlan(plans[i]);
    }
  }

  // ----- when the selection is what the bag promises -----

  ghost predicate SomeAccepts(stack: seq<Key>, accept: Accept)
  {
    exists k :: k in multiset(stack) && Accepts(accept, k)
  }

  /** A plan is selected exactly if some plan for the size accepts. */
  ghost predicate Faithful(stack: seq<Key>, accept: Accept)
  {
    Select(stack, accept).Some? <==> SomeAccepts(stack, accept)
  }

  predicate Tried(stack: seq<Key>, i: nat)
    requires i < |stack|
  {
    i == 0 || stack[i].prepare != stack[0].prepare
  }

  lemma {:induction false} FirstAcceptedIs(keys: seq<Key>, owner: nat, accept: Accept)
    ensures FirstAccepted(keys, owner, accept).Some? <==>
      exists i: nat :: i < |keys| && keys[i].prepare != owner && Accepts(accept, keys[i])
    ensures FirstAccepted(keys, owner, accept).Some? ==>
      FirstAccepted(keys, owner, accept).value in keys && Accepts(accept, FirstAccepted(keys, owner, accept).value)
  {
    if keys != [] && !(keys[0].prepare != owner && Accepts(accept, keys[0])) {
      FirstAcceptedIs(keys[1..], owner, accept);
      if i: nat :| i < |keys| && keys[i].prepare != owner && Accepts(accept, keys[i]) {
        assert keys[1..][i - 1] == keys[i];
      }
    }
  }

  /** What is selected accepts and is one of the plans for the size. */
  lemma SelectedAccepts(stack: seq<Key>, accept: Accept)
    requires Select(stack, accept).Some?
    ensures Select(stack, accept).value in multiset(stack) && Accepts(accept, Select(stack, accept).value)
  {
    if !Accepts(accept, stack[0]) {
      FirstAcceptedIs(stack[1..], stack[0].prepare, accept);
    }
  }

  /** Nothing is selected exactly if all plans that are tried refuse. */
  lemma SelectedIff(stack: seq<Key>, accept: Accept)
    ensures Select(stack, accept).Some? <==> exists i: nat :: i < |stack| && Tried(stack, i) && Accepts(accept, stack[i])
  {
    if stack != [] {
      var rest := stack[1..];
      FirstAcceptedIs(rest, stack[0].prepare, accept);
      if i: nat :| i < |rest| && rest[i].prepare != stack[0].prepare && Accepts(accept, rest[i]) {
        assert Tried(stack, i + 1) && Accepts(accept, stack[i + 1]);
      }
      if i: nat :| 0 < i < |stack| && Tried(stack, i) && Accepts(accept, stack[i]) {
        assert rest[i - 1] == stack[i];
      }
      assert Tried(stack, 0);
    }
  }

  /** `result` is the first plan of the stack that is tried and accepts; there is none exactly if all that are tried
      refuse. */
  ghost predicate FirstTaker(stack: seq<Key>, accept: Accept, result: Option<Key>)
  {
    if result.None? then forall i: nat :: i < |stack| && Tried(stack, i) ==> !Accepts(accept, stack[i])
    else exists i: nat :: TakenAt(stack, accept, i, result.value)
  }

  ghost predicate TakenAt(stack: seq<Key>, accept: Accept, i: nat, k: Key)
  {
    && i < |stack| && Tried(stack, i) && Accepts(accept, stack[i]) && stack[i] == k
    && forall j: nat :: j < i && Tried(stack, j) ==> !Accepts(accept, stack[j])
  }

  lemma {:induction false} FirstAcceptedAt(keys: seq<Key>, owner: nat, accept: Accept) returns (i: nat)
    requires FirstAccepted(keys, owner, accept).Some?
    ensures i < |keys| && keys[i].prepare != owner && Accepts(accept, keys[i])
    ensures keys[i] == FirstAccepted(keys, owner, accept).value
    ensures forall j: nat :: j < i && keys[j].prepare != owner ==> !Accepts(accept, keys[j])
  {
    if keys[0].prepare != owner && Accepts(accept, keys[0]) {
      i := 0;
    } else {
      i := FirstAcceptedAt(keys[1..], owner, accept);
      i := i + 1;
      forall j: nat | j < i && keys[j].prepare != owner ensures !Accepts(accept, keys[j]) {
        assert j > 0 ==> keys[1..][j - 1] == keys[j];
      }
    }
  }

  /** A selection takes the first plan of the stack that is tried and accepts. */
  lemma SelectIsFirst(stack: seq<Key>, accept: Accept)
    ensures FirstTaker(stack, accept, Select(stack, accept))
  {
    SelectedIff(stack, accept);
    if Select(stack, accept).Some? {
      if Accepts(accept, stack[0]) {
        assert TakenAt(stack, accept, 0, stack[0]);
      } else {
        var rest := stack[1..];
        var i := FirstAcceptedAt(rest, stack[0].prepare, accept);
        forall j: nat | j < i + 1 && Tried(stack, j) ensures !Accepts(accept, stack[j]) {
          assert j > 0 ==> rest[j - 1] == stack[j];
        }
        assert TakenAt(stack, accept, i + 1, rest[i]);
      }
    }
  }

  /** No fallback has the owner's routine with another group. */
  predicate NoneHidden(stack: seq<Key>)
  {
    forall i: nat :: i < |stack| ==> Tried(stack, i) || stack[i].vgroup == stack[0].vgroup
  }

  lemma NoneHiddenFaithful(stack: seq<Key>, accept: Accept)
    requires NoneHidden(stack)
    ensures Faithful(stack, accept)
  {
    SelectedIff(stack, accept);
    if Select(stack, accept).Some? {
      SelectedAccepts(stack, accept);
    }
    if SomeAccepts(stack, accept) {
      var k :| k in multiset(stack) && Accepts(accept, k);
      var i: nat :| i < |stack| && stack[i] == k;
      assert Tried(stack, i) || (Tried(stack, 0) && Accepts(accept, stack[0]));
    }
  }

  /** If a fallback hides behind the owner's routine, there are routines for which the selection fails although
      that fallback would accept. */
  lemma HiddenUnfaithful(stack: seq<Key>, i: nat) returns (accept: Accept)
    requires i < |stack| && !Tried(stack, i) && stack[i].vgroup != stack[0].vgroup
    ensures !Faithful(stack, accept)
  {
    accept := (prepare: nat, vgroup: nat) => prepare == stack[i].prepare && vgroup == stack[i].vgroup;
    SelectedIff(stack, accept);
    assert stack[i] in multiset(stack) && Accepts(accept, stack[i]);
  }

  /** Selection agrees with the bag of a size, whatever the prepare routines do, if and only if no fallback for
      that size has the owner's routine with another group. */
  lemma FaithfulIff(stack: seq<Key>)
    ensures (forall accept: Accept :: Faithful(stack, accept)) <==> NoneHidden(stack)
  {
    if NoneHidden(stack) {
      forall accept: Accept ensures Faithful(stack, accept) {
        NoneHiddenFaithful(stack, accept);
      }
    } else {
      var i: nat :| i < |stack| && !(Tried(stack, i) || stack[i].vgroup == stack[0].vgroup);
      var accept := HiddenUnfaithful(stack, i);
    }
  }

  /** A list, reached by adding two plans, for which the selection misses a plan that accepts. */
  lemma HiddenExample()
    ensures var plan := Plan(Attr(Key(1, 1, 9), 0, Range(0, 10)), [Attr(Key(1, 2, 5), 0, Range(0, 10))]);
      WellFormed([plan]) && Winner(Plan(plan.own, []), Plan(plan.fallback[0], [])) == plan
      && !Faithful(StackAt([plan], 3), (prepare: nat, vgroup: nat) => vgroup == 2)
  {
    var low := Attr(Key(1, 2, 5), 0, Range(0, 10));
    var plan := Plan(Attr(Key(1, 1, 9), 0, Range(0, 10)), [low]);
    assert InsertByScore([], low) == [low];
    var stack := StackAt([plan], 3);
    assert stack == [Key(1, 1, 9), Key(1, 2, 5)];
    var accept := (prepare: nat, vgroup: nat) => vgroup == 2;
    assert stack[1] in multiset(stack) && Accepts(accept, stack[1]);
    SelectedIff(stack, accept);
  }

  // ----- the routine -----

  /** The first plan that covers `m`; the search stops at a range that starts behind it. */
  method Lookup(plans: seq<Plan>, m: nat) returns (plan: Option<Plan>)
    requires WellFormed(plans)
    ensures plan.Some? ==> plan.value in plans && StackAt(plans, m) == Stack(plan.value)
    ensures plan.None? ==> StackAt(plans, m) == []
  {
    for i := 0 to |plans|
      invariant forall j: nat :: j < i ==> !Covers(plans[j].own.range, m)
    {
      var range := plans[i].own.range;
      if m < range.start {
        forall j: nat | j < |plans| ensures !Covers(plans[j].own.range, m) {
          assert j > i ==> Before(plans[i], plans[j]);
          assert GoodPlan(plans[i]);
        }
        NotCovered(plans, m);
        return Network.None;
      }
      if m >= range.start && m < range.end {
        StackIs(plans, m, i);
        return Network.Some(plans[i]);
      }
    }
    NotCovered(plans, m);
    return Network.None;
  }

  /** Tries the fallbacks in order; `tried` lists the ones whose routine was called. */
  method TryFallbacks(plan: Plan, accept: Accept) returns (result: Option<Key>, tried: seq<Key>)
    requires GoodPlan(plan)
    ensures result == FirstAccepted(Keys(plan.fallback), plan.own.key.prepare, accept)
    ensures NonIncreasing([plan.own.key] + tried)
    ensures forall k :: k in tried ==> k.prepare != plan.own.key.prepare
    ensures result.Some? ==> tried != [] && tried[|tried| - 1] == result.value
  {
    tried := [];
    ghost var all := Keys(plan.fallback);
    for i := 0 to |plan.fallback|
      invariant FirstAccepted(all, plan.own.key.prepare, accept) == FirstAccepted(all[i..], plan.own.key.prepare, accept)
      invariant NonIncreasing([plan.own.key] + tried)
      invariant forall k :: k in tried ==> k.prepare != plan.own.key.prepare
      invariant forall k, j: nat :: k in [plan.own.key] + tried && i <= j < |plan.fallback| ==>
        k.score >= plan.fallback[j].key.score
    {
      var k := plan.fallback[i].key;
      assert all[i..][0] == k && all[i..][1..] == all[i + 1..];
      if k.prepare == plan.own.key.prepare {
        continue;
      }
      AppendLast([plan.own.key] + tried, k);
      assert [plan.own.key] + (tried + [k]) == [plan.own.key] + tried + [k];
      tried := tried + [k];
      if accept(k.prepare, k.vgroup) {
        return Network.Some(k), tried;
      }
    }
    return Network.None, tried;
  }

  /** What selection promises: the first plan tried that accepts, and, where no fallback is hidden, some plan whenever
      one of the bag accepts. */
  ghost predicate Takes(stack: seq<Key>, accept: Accept, result: Option<Key>)
  {
    FirstTaker(stack, accept, result) && (NoneHidden(stack) ==> (result.Some? <==> SomeAccepts(stack, accept)))
  }

  lemma SelectTakes(stack: seq<Key>, accept: Accept)
    ensures Takes(stack, accept, Select(stack, accept))
  {
    SelectIsFirst(stack, accept);
    if NoneHidden(stack) {
      NoneHiddenFaithful(stack, accept);
    }
  }

  lemma ChosenTakes(plans: seq<Plan>, m: nat, reselects: bool, accept: Accept)
    ensures var stack, result := StackAt(plans, m), Chosen(plans, m, reselects, accept);
      && (!reselects ==> Takes(stack, accept, result))
      && (stack == [] ==> result.None?)
      && (stack != [] && Accepts(accept, stack[0]) ==> result == Network.Some(stack[0]))
      && (stack != [] && !Accepts(accept, stack[0]) && reselects ==> Takes(StackAt(plans, 0), accept, result))
  {
    SelectTakes(StackAt(plans, m), accept);
    SelectTakes(StackAt(plans, 0), accept);
  }

  /** Selects a plan for message size `m`: the owner if it accepts, and otherwise the first fallback that is tried and
      accepts.  With reselection, a refusal by the owner means that the same is done at size 0. */
  method Prepare(list: PlanList, m: nat, reselects: bool, accept: Accept)
    returns (result: Option<Key>, tried: seq<Key>)
    requires list.Valid()
    ensures result == Chosen(list.plans, m, reselects, accept)
    ensures !reselects ==> Takes(StackAt(list.plans, m), accept, result)
    ensures StackAt(list.plans, m) == [] ==> result.None?
    ensures StackAt(list.plans, m) != [] && Accepts(accept, StackAt(list.plans, m)[0]) ==>
      result == Network.Some(StackAt(list.plans, m)[0])
    ensures reselects && StackAt(list.plans, m) != [] && !Accepts(accept, StackAt(list.plans, m)[0]) ==>
      Takes(StackAt(list.plans, 0), accept, result)
    ensures !reselects ==> NonIncreasing(tried)
    ensures result.Some? ==> tried != [] && tried[|tried| - 1] == result.value
  {
    ChosenTakes(list.plans, m, reselects, accept);
    var plan := Lookup(list.plans, m);
    if plan.None? {
      return Network.None, [];
    }
    var own := plan.value.own.key;
    tried := [own];
    if accept(own.prepare, own.vgroup) {
      return Network.Some(own), tried;
    }
    if reselects {
      plan := Lookup(list.plans, 0);
      if plan.None? {
        return Network.None, tried;
      }
      own := plan.value.own.key;
      tried := tried + [own];
      if accept(own.prepare, own.vgroup) {
        return Network.Some(own), tried;
      }
    }
    var more;
    assert Stack(plan.value)[1..] == Keys(plan.value.fallback);
    result, more := TryFallbacks(plan.value, accept);
    tried := tried + more;
  }
}
