/** The Spectrum scheduler's entry point: it weighs the resources, runs the
    three passes and delivers what each claim received. */
module Scheduler {
  import opened Ordering
  import opened Wrappers
  import opened SchedulerPlan
  import opened SchedulerStep
  import opened SchedulerMilp
  import opened SchedulerRun

  datatype Item<T> = Item(lifecycle: string, resource: Resource, item: T)

  datatype WeightedItems<S> = WeightedItems(items: seq<S>, weights: seq<Option<real>>)

  datatype ScheduledItem<S, T> = ScheduledItem(item: T, lifecycle: string, priority: int, resources: seq<S>)

  // ----- missing weights

  function Known(weights: seq<Option<real>>): seq<real> {
    if weights == [] then []
    else (if weights[0].Some? then [weights[0].value] else []) + Known(weights[1..])
  }

  function MinOf(xs: seq<real>): (m: real)
    requires xs != []
    ensures m in xs && forall x | x in xs :: m <= x
  {
    if |xs| == 1 then xs[0]
    else
      var m := MinOf(xs[1..]);
      assert forall x | x in xs :: x == xs[0] || x in xs[1..];
      if xs[0] <= m then xs[0] else m
  }

  function MaxOf(xs: seq<real>): (m: real)
    requires xs != []
    ensures m in xs && forall x | x in xs :: x <= m
  {
    if |xs| == 1 then xs[0]
    else
      var m := MaxOf(xs[1..]);
      assert forall x | x in xs :: x == xs[0] || x in xs[1..];
      if xs[0] >= m then xs[0] else m
  }

  /** The weight given to a resource whose weight is not known. */
  function Fallback(weights: seq<Option<real>>): real {
    var known := Known(weights);
    var least := if known == [] then 0.0 else MinOf(known);
    var most := if known == [] then 0.0 else MaxOf(known);
    var low := if least >= 1.0 then least else 1.0;
    var high := if most <= low then most else low;
    (low + high) / 2.0
  }

  function Flatten(weights: seq<Option<real>>): (ws: seq<real>)
    ensures |ws| == |weights|
  {
    seq(|weights|, i requires 0 <= i < |weights| =>
      if weights[i].Some? then weights[i].value else Fallback(weights))
  }

  lemma {:induction false} KnownAre(weights: seq<Option<real>>, x: real)
    ensures x in Known(weights) <==> Some(x) in weights
  {
    if weights != [] {
      KnownAre(weights[1..], x);
      assert weights == [weights[0]] + weights[1..];
    }
  }

  /** The least known weight. */
  ghost predicate IsLeast(weights: seq<Option<real>>, m: real) {
    Some(m) in weights && forall x :: Some(x) in weights ==> m <= x
  }

  /** The largest known weight. */
  ghost predicate IsMost(weights: seq<Option<real>>, m: real) {
    Some(m) in weights && forall x :: Some(x) in weights ==> x <= m
  }

  /** What a missing weight is taken for: the least known weight if that is at least one,
      else halfway between one and the largest known weight, but at most one; and one
      half if no weight is known. */
  ghost predicate StandsIn(weights: seq<Option<real>>, w: real) {
    && (forall least | IsLeast(weights, least) && least >= 1.0 :: w == least)
    && (forall least, most | IsLeast(weights, least) && least < 1.0 && IsMost(weights, most) ::
          w == (1.0 + if most <= 1.0 then most else 1.0) / 2.0)
    && ((forall x :: Some(x) !in weights) ==> w == 0.5)
  }

  /** Known weights are kept and missing ones stood in for. */
  ghost predicate Weighs(weights: seq<Option<real>>, ws: seq<real>) {
    && |ws| == |weights|
    && forall i | 0 <= i < |weights| ::
         && (weights[i].Some? ==> ws[i] == weights[i].value)
         && (weights[i].None? ==> StandsIn(weights, ws[i]))
  }

  lemma FallbackStandsIn(weights: seq<Option<real>>)
    ensures StandsIn(weights, Fallback(weights))
  {
    var known := Known(weights);
    forall x
      ensures x in known <==> Some(x) in weights
    {
      KnownAre(weights, x);
    }
    if known == [] {
      assert forall x :: x !in known;
      assert Fallback(weights) == 0.5;
    } else {
      var least, most := MinOf(known), MaxOf(known);
      assert forall m | IsLeast(weights, m) :: m == least;
      assert forall m | IsMost(weights, m) :: m == most;
      assert Some(least) in weights;
    }
  }

  lemma FlattenWeighs(weights: seq<Option<real>>)
    ensures Weighs(weights, Flatten(weights))
  {
    FallbackStandsIn(weights);
  }

  /** Only one number stands in for missing weights. */
  lemma StandInIsUnique(weights: seq<Option<real>>, a: real, b: real)
    requires StandsIn(weights, a) && StandsIn(weights, b)
    ensures a == b
  {
    var known := Known(weights);
    forall x
      ensures x in known <==> Some(x) in weights
    {
      KnownAre(weights, x);
    }
    if known == [] {
      assert forall x :: x !in known;
    } else {
      assert IsLeast(weights, MinOf(known)) && IsMost(weights, MaxOf(known));
    }
  }

  lemma WeightsAreUnique(weights: seq<Option<real>>, a: seq<real>, b: seq<real>)
    requires Weighs(weights, a) && Weighs(weights, b)
    ensures a == b
  {
    forall i | 0 <= i < |a|
      ensures a[i] == b[i]
    {
      if weights[i].None? {
        StandInIsUnique(weights, a[i], b[i]);
      }
    }
  }

  /** The fallback is the smallest known weight exactly when that weight is at
      least one; it is not an average of the known weights. */
  lemma FallbackIsSmallestKnown(weights: seq<Option<real>>)
    requires Known(weights) != []
    ensures Fallback(weights) == MinOf(Known(weights)) <==> MinOf(Known(weights)) >= 1.0
  {
  }

  function InputsOf<S, T>(items: seq<Item<T>>, bound: seq<PoolResource>, resources: WeightedItems<S>): (ins: Inputs)
    ensures |ins.demands| == |items|
  {
    Inputs(
      seq(|items|, j requires 0 <= j < |items| => items[j].resource),
      bound,
      Flatten(resources.weights))
  }

  /** The scheduler works on the given demands, bindings and weights. */
  ghost predicate Reflects<S, T>(
    ins: Inputs, items: seq<Item<T>>, bound: seq<PoolResource>, resources: WeightedItems<S>)
  {
    && |ins.demands| == |items| && (forall j | 0 <= j < |items| :: ins.demands[j] == items[j].resource)
    && ins.bound == bound
    && Weighs(resources.weights, ins.weights)
  }

  lemma InputsReflect<S, T>(items: seq<Item<T>>, bound: seq<PoolResource>, resources: WeightedItems<S>)
    ensures Reflects(InputsOf(items, bound, resources), items, bound, resources)
  {
    FlattenWeighs(resources.weights);
  }

  // ----- delivery

  /** The resources at a list of indices. */
  function Pick<S>(items: seq<S>, indices: seq<nat>): (r: seq<S>)
    requires Within(indices, |items|)
    ensures |r| == |indices| && forall k | 0 <= k < |r| :: r[k] == items[indices[k]]
  {
    seq(|indices|, k requires 0 <= k < |indices| => items[indices[k]])
  }

  /** Take the resources at `indices` out of `slots`, skipping those that are out
      of range or gone: the taken ones and the slots left. */
  function Take<S>(slots: seq<Option<S>>, indices: seq<nat>): (r: (seq<S>, seq<Option<S>>))
    ensures |r.1| == |slots|
    decreases |indices|
  {
    if indices == [] then ([], slots)
    else
      var i := indices[0];
      if i < |slots| && slots[i].Some? then
        var (taken, left) := Take(slots[i := None], indices[1..]);
        ([slots[i].value] + taken, left)
      else Take(slots, indices[1..])
  }

  lemma PickFirst<S>(items: seq<S>, indices: seq<nat>)
    requires Within(indices, |items|) && indices != []
    ensures Pick(items, indices) == [items[indices[0]]] + Pick(items, indices[1..])
  {
  }

  /** Fresh slots yield the resources at all indices, in order, and only those
      slots are emptied. */
  lemma {:induction false} TakeIsExact<S>(items: seq<S>, slots: seq<Option<S>>, indices: seq<nat>)
    requires |slots| == |items| && Within(indices, |items|) && Distinct(indices)
    requires forall k | 0 <= k < |indices| :: slots[indices[k]] == Some(items[indices[k]])
    ensures Take(slots, indices).0 == Pick(items, indices)
    ensures forall i: nat | i < |slots| && i !in indices :: Take(slots, indices).1[i] == slots[i]
    decreases |indices|
  {
    if indices != [] {
      var i, rest := indices[0], indices[1..];
      TakeIsExact(items, slots[i := None], rest);
      PickFirst(items, indices);
      assert forall k | k in rest :: k in indices;
    }
  }

  method TakeFrom<S>(slots: array<Option<S>>, indices: seq<nat>) returns (taken: seq<S>)
    modifies slots
    ensures taken == Take(old(slots[..]), indices).0
    ensures slots[..] == Take(old(slots[..]), indices).1
  {
    taken := [];
    for k := 0 to |indices|
      invariant taken + Take(slots[..], indices[k..]).0 == Take(old(slots[..]), indices).0
      invariant Take(slots[..], indices[k..]).1 == Take(old(slots[..]), indices).1
    {
      var index := indices[k];
      ghost var before := slots[..];
      assert indices[k..][0] == index && indices[k..][1..] == indices[k + 1..];
      if index < slots.Length && slots[index].Some? {
        taken := taken + [slots[index].value];
        slots[index] := None;
        assert slots[..] == before[index := None];
      }
    }
  }

  /** The delivery a plan calls for. */
  ghost predicate Delivers<S, T>(
    items: seq<Item<T>>, resources: seq<S>, lists: seq<seq<nat>>, out: seq<ScheduledItem<S, T>>)
  {
    && |lists| == |items| == |out|
    && forall j | 0 <= j < |items| ::
         && Within(lists[j], |resources|)
         && out[j] == ScheduledItem(items[j].item, items[j].lifecycle, items[j].resource.priority,
                                    Pick(resources, lists[j]))
  }

  /** The slots still hold the resources of the lists from j on. */
  ghost predicate Untaken<S>(slots: seq<Option<S>>, resources: seq<S>, lists: seq<seq<nat>>, j: nat) {
    forall k, m | j <= k < |lists| && 0 <= m < |lists[k]| ::
      lists[k][m] < |slots| == |resources| && slots[lists[k][m]] == Some(resources[lists[k][m]])
  }

  lemma TakeOneList<S>(slots: seq<Option<S>>, resources: seq<S>, lists: seq<seq<nat>>, j: nat)
    requires Apart(lists, |resources|) && j < |lists| && |slots| == |resources|
    requires Untaken(slots, resources, lists, j)
    ensures Take(slots, lists[j]).0 == Pick(resources, lists[j])
    ensures Untaken(Take(slots, lists[j]).1, resources, lists, j + 1)
  {
    TakeIsExact(resources, slots, lists[j]);
  }

  /** Walk over the items and take each one's resources out of the slots. */
  method Collect<S, T>(items: seq<Item<T>>, p: Plan, resources: seq<S>)
    returns (out: seq<ScheduledItem<S, T>>)
    requires |p.allotted| == |items|
    ensures |out| == |items|
    ensures Apart(p.allotted, |resources|) ==> Delivers(items, resources, p.allotted, out)
  {
    ghost var apart := Apart(p.allotted, |resources|);
    var slots := new Option<S>[|resources|](i requires 0 <= i < |resources| => Some(resources[i]));
    out := [];
    for j := 0 to |items|
      invariant |out| == j
      invariant apart ==> Delivers(items[..j], resources, p.allotted[..j], out)
      invariant apart ==> Untaken(slots[..], resources, p.allotted, j)
    {
      if apart {
        TakeOneList(slots[..], resources, p.allotted, j);
      }
      var taken := TakeFrom(slots, p.allotted[j]);
      out := out + [ScheduledItem(items[j].item, items[j].lifecycle, items[j].resource.priority, taken)];
    }
    assert items[..|items|] == items && p.allotted[..|items|] == p.allotted;
  }

  // ----- passes

  lemma {:induction false} NoneWithPriority(demands: seq<Resource>, targets: seq<nat>, key: int)
    requires Within(targets, |demands|) && key !in Priorities(demands, targets)
    ensures WithPriority(demands, targets, key) == []
  {
    if targets != [] {
      NoneWithPriority(demands, targets[..|targets| - 1], key);
    }
  }

  /** Every key has a group and every group is that of its priority. */
  ghost predicate Grouped(demands: seq<Resource>, targets: seq<nat>, keys: seq<int>, groups: map<int, seq<nat>>)
    requires Within(targets, |demands|)
  {
    && keys == Priorities(demands, targets)
    && (forall t | 0 <= t < |keys| :: keys[t] in groups)
    && (forall k | k in groups :: groups[k] == WithPriority(demands, targets, k))
  }

  lemma OneMoreTarget(demands: seq<Resource>, targets: seq<nat>, j: nat, k: int)
    requires Within(targets, |demands|) && j < |demands|
    ensures Within(targets + [j], |demands|)
    ensures WithPriority(demands, targets + [j], k) ==
            WithPriority(demands, targets, k) + if demands[j].priority == k then [j] else []
    ensures Priorities(demands, targets + [j]) == InsertKey(Priorities(demands, targets), demands[j].priority)
  {
    assert (targets + [j])[..|targets|] == targets;
  }

  lemma UngroupedIsUnlisted(keys: seq<int>, groups: map<int, seq<nat>>, key: int)
    requires forall t | 0 <= t < |keys| :: keys[t] in groups
    requires key !in groups
    ensures key !in keys
  {
  }

  lemma KeysGrow(keys: seq<int>, groups: map<int, seq<nat>>, key: int, group: seq<nat>)
    requires Ascending(keys) && forall t | 0 <= t < |keys| :: keys[t] in groups
    ensures forall t | 0 <= t < |InsertKey(keys, key)| :: InsertKey(keys, key)[t] in groups[key := group]
  {
    forall t | 0 <= t < |InsertKey(keys, key)|
      ensures InsertKey(keys, key)[t] in groups[key := group]
    {
      assert InsertKey(keys, key)[t] in InsertKey(keys, key);
    }
  }

  /** One more target joins the group of its priority and no other. */
  lemma GroupsGrow(demands: seq<Resource>, targets: seq<nat>, j: nat, keys: seq<int>, groups: map<int, seq<nat>>)
    requires Within(targets, |demands|) && j < |demands| && Grouped(demands, targets, keys, groups)
    ensures Within(targets + [j], |demands|)
    ensures var key := demands[j].priority;
            var group := (if key in groups then groups[key] else []) + [j];
            Grouped(demands, targets + [j], InsertKey(keys, key), groups[key := group])
  {
    var key := demands[j].priority;
    var group := (if key in groups then groups[key] else []) + [j];
    OneMoreTarget(demands, targets, j, key);
    if key !in groups {
      UngroupedIsUnlisted(keys, groups, key);
      NoneWithPriority(demands, targets, key);
    }
    KeysGrow(keys, groups, key, group);
    forall k | k in groups[key := group]
      ensures groups[key := group][k] == WithPriority(demands, targets + [j], k)
    {
      OneMoreTarget(demands, targets, j, k);
    }
  }

  /** The groups in the order of their keys. */
  method InKeyOrder(keys: seq<int>, groups: map<int, seq<nat>>) returns (values: seq<seq<nat>>)
    requires forall t | 0 <= t < |keys| :: keys[t] in groups
    ensures |values| == |keys|
    ensures forall t | 0 <= t < |keys| :: keys[t] in groups && values[t] == groups[keys[t]]
  {
    values := [];
    for t := 0 to |keys|
      invariant |values| == t
      invariant forall u | 0 <= u < t :: keys[u] in groups && values[u] == groups[keys[u]]
    {
      values := values + [groups[keys[t]]];
    }
  }

  /** Group the targets by priority. */
  method BuildTiers(demands: seq<Resource>, targets: seq<nat>) returns (tiers: seq<seq<nat>>)
    requires Within(targets, |demands|)
    ensures tiers == Tiers(demands, targets)
  {
    var keys: seq<int> := [];
    var groups: map<int, seq<nat>> := map[];
    for c := 0 to |targets|
      invariant Grouped(demands, targets[..c], keys, groups)
    {
      GroupsGrow(demands, targets[..c], targets[c], keys, groups);
      assert targets[..c + 1] == targets[..c] + [targets[c]];
      var key := demands[targets[c]].priority;
      groups := groups[key := (if key in groups then groups[key] else []) + [targets[c]]];
      keys := InsertKey(keys, key);
    }
    assert targets[..|targets|] == targets;
    tiers := InKeyOrder(keys, groups);
    assert tiers == Tiers(demands, targets);
  }

  lemma ChainExtends(ins: Inputs, calls: seq<Solver>, p: Plan, outs: seq<Outcome>, out: Outcome)
    requires Chain(ins, calls, p, outs) && |outs| < |calls|
    requires WellPosed(ins, calls[|outs|], EndOf(p, outs)) && Step(ins, calls[|outs|], EndOf(p, outs), out)
    ensures Chain(ins, calls, p, outs + [out])
    ensures EndOf(p, outs + [out]) == After(EndOf(p, outs), out)
    decreases |outs|
  {
    if outs == [] {
      assert (outs + [out])[1..] == [];
    } else {
      assert (outs + [out])[1..] == outs[1..] + [out];
      ChainExtends(ins, calls[1..], After(p, outs[0]), outs[1..], out);
    }
  }

  /** The outcomes so far form a chain that ends in the current plan. */
  ghost predicate PassReaches(ins: Inputs, calls: seq<Solver>, start: Plan, outs: seq<Outcome>, current: Plan)
    requires ins.Valid()
  {
    Chain(ins, calls, start, outs) && current == EndOf(start, outs) && ValidPlan(ins, current)
  }

  lemma PassGoesOn(ins: Inputs, calls: seq<Solver>, start: Plan, outs: seq<Outcome>, current: Plan, out: Outcome)
    requires ins.Valid() && PassReaches(ins, calls, start, outs, current)
    requires |outs| < |calls| && WellPosed(ins, calls[|outs|], current) && Step(ins, calls[|outs|], current, out)
    ensures PassReaches(ins, calls, start, outs + [out], After(current, out))
  {
    ChainExtends(ins, calls, start, outs, out);
    StepKeepsPlanValid(ins, calls[|outs|], current, out);
  }

  lemma TierIsWellPosed(ins: Inputs, k: Class, t: nat, p: Plan)
    requires k == Guaranteed || k == Burstable
    requires ins.Valid() && ValidPlan(ins, p) && t < |Calls(ins.demands, k)|
    ensures WellPosed(ins, Calls(ins.demands, k)[t], p)
  {
    CallsAreSuited(ins.demands, k);
    assert Suited(ins.demands, Calls(ins.demands, k)[t]);
  }

  /** Solve one tier after the other until one is not served. */
  method RunPass(state: State, k: Class, targets: seq<nat>, oracle: Oracle, attempt: nat)
    returns (r: Result<nat, ResolutionError>, ghost outs: seq<Outcome>)
    requires k == Guaranteed || k == Burstable
    requires state.ins.Valid() && ValidPlan(state.ins, state.Current()) && Honest(oracle)
    requires targets == Members(state.ins.demands, k, |state.ins.demands|)
    modifies state
    ensures Pass(state.ins, Calls(state.ins.demands, k), old(state.Current()), outs)
    ensures state.Current() == EndOf(old(state.Current()), outs)
    ensures ValidPlan(state.ins, state.Current())
    ensures r.Ok? <==> !Crashed(outs)
  {
    var ins := state.ins;
    ghost var calls := Calls(ins.demands, k);
    ghost var start := state.Current();
    var tiers := BuildTiers(ins.demands, targets);
    outs := [];
    var attempts := attempt;
    for t := 0 to |tiers|
      invariant |outs| == t && forall u | 0 <= u < t :: outs[u].Served?
      invariant PassReaches(ins, calls, start, outs, state.Current())
    {
      var problem := Bounded(tiers[t]);
      assert problem == calls[t];
      TierIsWellPosed(ins, k, t, state.Current());
      ghost var before := state.Current();
      var served, out := state.Solve(problem, oracle, attempts);
      attempts := attempts + 1;
      PassGoesOn(ins, calls, start, outs, before, out);
      outs := outs + [out];
      match served {
        case Err(e) => return Err(e), outs;
        case Ok(more) =>
          if !more {
            return Ok(attempts), outs;
          }
      }
    }
    return Ok(attempts), outs;
  }

  /** Split items by their bounds. */
  method SplitItems(demands: seq<Resource>) returns (bestEffort: seq<nat>, burstable: seq<nat>, guaranteed: seq<nat>)
    ensures bestEffort == Members(demands, BestEffort, |demands|)
    ensures burstable == Members(demands, Burstable, |demands|)
    ensures guaranteed == Members(demands, Guaranteed, |demands|)
  {
    bestEffort, burstable, guaranteed := [], [], [];
    for index := 0 to |demands|
      invariant bestEffort == Members(demands, BestEffort, index)
      invariant burstable == Members(demands, Burstable, index)
      invariant guaranteed == Members(demands, Guaranteed, index)
    {
      if demands[index].max.None? {
        bestEffort := bestEffort + [index];
      }
      if demands[index].min.Some? {
        burstable := burstable + [index];
        if demands[index].max.Some? {
          guaranteed := guaranteed + [index];
        }
      }
    }
  }

  /** Make the three passes from the prefilled state. */
  method RunPasses(state: State, oracle: Oracle)
    returns (failure: Option<ResolutionError>, ghost run: Run)
    requires state.ins.Valid() && Honest(oracle)
    requires state.Current() == Prefill(state.ins, |state.ins.bound|)
    modifies state
    ensures LegalRun(state.ins, run)
    ensures state.Current() == Final(state.ins, run)
    ensures failure.None? <==> Succeeded(run)
  {
    var ins := state.ins;
    PrefillIsValid(ins);
    var bestEffort, burstable, guaranteed := SplitItems(ins.demands);
    run := Run([], [], []);
    var first, outs1 := RunPass(state, Guaranteed, guaranteed, oracle, 0);
    run := Run(outs1, [], []);
    if first.Err? {
      return Some(first.error), run;
    }
    var second, outs2 := RunPass(state, Burstable, burstable, oracle, first.value);
    run := Run(outs1, outs2, []);
    if second.Err? {
      return Some(second.error), run;
    }
    if |state.remaining| != 0 && |bestEffort| != 0 {
      ghost var p2 := state.Current();
      var last, out := state.Solve(Even(bestEffort), oracle, second.value);
      ChainExtends(ins, [Even(bestEffort)], p2, [], out);
      assert [] + [out] == [out];
      run := Run(outs1, outs2, [out]);
      if last.Err? {
        return Some(last.error), run;
      }
    }
    return None, run;
  }

  /** Schedule the resources of a round that is not empty. */
  method ScheduleAll<S, T>(ins: Inputs, items: seq<Item<T>>, resources: seq<S>, oracle: Oracle)
    returns (r: Result<seq<ScheduledItem<S, T>>, ResolutionError>, ghost run: Run)
    requires ins.Valid() && |ins.demands| == |items| && |ins.weights| == |resources|
    requires Honest(oracle)
    ensures LegalRun(ins, run)
    ensures r.Ok? <==> Succeeded(run)
    ensures r.Ok? ==> Delivers(items, resources, Final(ins, run).allotted, r.value)
  {
    var state := new State(ins);
    state.PrefillLocked();
    var failure, passes := RunPasses(state, oracle);
    run := passes;
    if failure.Some? {
      return Err(failure.value), run;
    }
    FinalIsPartition(ins, run);
    var out := Collect(items, state.Current(), resources);
    return Ok(out), run;
  }

  /** Schedule the resources over the items. Every result comes from a legal round on
      what was given and delivers its final plan. */
  method Schedule<S, T>(items: seq<Item<T>>, bound: seq<PoolResource>, resources: WeightedItems<S>, oracle: Oracle)
    returns (r: Result<seq<ScheduledItem<S, T>>, ResolutionError>, ghost run: Run)
    requires |resources.items| == |resources.weights|
    requires items != [] && resources.items != [] ==> InputsOf(items, bound, resources).Valid()
    requires Honest(oracle)
    ensures items == [] || resources.items == [] ==> r == Ok([])
    ensures items != [] && resources.items != [] ==>
              var ins := InputsOf(items, bound, resources);
              && Reflects(ins, items, bound, resources)
              && LegalRun(ins, run)
              && (r.Ok? <==> Succeeded(run))
              && (r.Ok? ==> Delivers(items, resources.items, Final(ins, run).allotted, r.value))
  {
    run := Run([], [], []);
    if |items| == 0 || |resources.items| == 0 {
      return Ok([]), run;
    }
    InputsReflect(items, bound, resources);
    r, run := ScheduleAll(InputsOf(items, bound, resources), items, resources.items, oracle);
  }

  /** The resources delivered to a claim whose tier was served weigh at least its min,
      in terms of the weights as they were given. */
  lemma DeliveryMeetsMin<S, T>(
    items: seq<Item<T>>, bound: seq<PoolResource>, resources: WeightedItems<S>, ins: Inputs, run: Run,
    out: seq<ScheduledItem<S, T>>, pass: Class, k: nat, j: nat, ws: seq<real>)
    returns (indices: seq<nat>)
    requires |resources.items| == |resources.weights| && Reflects(ins, items, bound, resources)
    requires j < |items| && ServesTier(ins, run, pass, k, j, items[j].resource) && MinIsSafe(items[j].resource)
    requires Delivers(items, resources.items, Final(ins, run).allotted, out)
    requires Weighs(resources.weights, ws)
    ensures Distinct(indices) && Within(indices, |ws|) && |ws| == |resources.items|
    ensures out[j].item == items[j].item && |out[j].resources| == |indices|
    ensures forall m | 0 <= m < |indices| :: out[j].resources[m] == resources.items[indices[m]]
    ensures WeightSum(ws, indices) >= items[j].resource.min.value
  {
    ServedTierKeepsItsMin(ins, run, pass, k, j);
    WeightsAreUnique(resources.weights, ws, ins.weights);
    FinalIsPartition(ins, run);
    indices := Final(ins, run).allotted[j];
  }
}
