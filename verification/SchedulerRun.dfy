/** A whole round of the Spectrum scheduler: which solver calls it makes, and
    what holds at the end of every legal round. */
module SchedulerRun {
  import opened Ordering
  import opened Wrappers
  import opened SchedulerPlan
  import opened SchedulerStep

  // ----- classes of items

  datatype Class = BestEffort | Burstable | Guaranteed

  predicate InClass(k: Class, r: Resource) {
    match k
    case BestEffort => r.max.None?
    case Burstable => r.min.Some?
    case Guaranteed => r.min.Some? && r.max.Some?
  }

  /** Indices come in ascending order. */
  ghost predicate Rising(s: seq<nat>) {
    forall a, b | 0 <= a < b < |s| :: s[a] < s[b]
  }

  /** The items of one class among the first n, in order. */
  function Members(demands: seq<Resource>, k: Class, n: nat): (s: seq<nat>)
    requires n <= |demands|
    ensures Within(s, n)
  {
    if n == 0 then []
    else Members(demands, k, n - 1) + if InClass(k, demands[n - 1]) then [n - 1] else []
  }

  lemma {:induction false} MembersAre(demands: seq<Resource>, k: Class, n: nat)
    requires n <= |demands|
    ensures Distinct(Members(demands, k, n))
    ensures forall j: nat :: j in Members(demands, k, n) <==> j < n && InClass(k, demands[j])
    ensures Rising(Members(demands, k, n)) && Within(Members(demands, k, n), n)
  {
    if n > 0 {
      MembersAre(demands, k, n - 1);
    }
  }

  /** The passes are made over the items with both bounds, those with a min, and those
      without a max, each in the order of the items. */
  lemma ClassesAre(demands: seq<Resource>)
    ensures forall j: nat :: j in Members(demands, Guaranteed, |demands|) <==>
              j < |demands| && demands[j].min.Some? && demands[j].max.Some?
    ensures forall j: nat :: j in Members(demands, Burstable, |demands|) <==> j < |demands| && demands[j].min.Some?
    ensures forall j: nat :: j in Members(demands, BestEffort, |demands|) <==> j < |demands| && demands[j].max.None?
    ensures forall k :: Rising(Members(demands, k, |demands|))
  {
    forall k
      ensures forall j: nat :: j in Members(demands, k, |demands|) <==> j < |demands| && InClass(k, demands[j])
      ensures Rising(Members(demands, k, |demands|))
    {
      MembersAre(demands, k, |demands|);
    }
  }

  // ----- tiers

  /** The priorities of the targets, smallest number first. */
  function Priorities(demands: seq<Resource>, targets: seq<nat>): (ps: seq<int>)
    requires Within(targets, |demands|)
    ensures Ascending(ps)
  {
    if targets == [] then []
    else
      var n := |targets| - 1;
      InsertKey(Priorities(demands, targets[..n]), demands[targets[n]].priority)
  }

  function WithPriority(demands: seq<Resource>, targets: seq<nat>, p: int): (s: seq<nat>)
    requires Within(targets, |demands|)
    ensures Within(s, |demands|)
  {
    if targets == [] then []
    else
      var last := targets[|targets| - 1];
      WithPriority(demands, targets[..|targets| - 1], p) + if demands[last].priority == p then [last] else []
  }

  lemma {:induction false} PriorityIsListed(demands: seq<Resource>, targets: seq<nat>, c: nat)
    requires Within(targets, |demands|) && c < |targets|
    ensures demands[targets[c]].priority in Priorities(demands, targets)
  {
    var n := |targets| - 1;
    if c < n {
      PriorityIsListed(demands, targets[..n], c);
    }
  }

  lemma {:induction false} WithPriorityAre(demands: seq<Resource>, targets: seq<nat>, p: int)
    requires Within(targets, |demands|)
    ensures forall j: nat :: j in WithPriority(demands, targets, p) <==>
              j in targets && j < |demands| && demands[j].priority == p
    ensures Distinct(targets) ==> Distinct(WithPriority(demands, targets, p))
  {
    if targets != [] {
      var n := |targets| - 1;
      WithPriorityAre(demands, targets[..n], p);
      assert targets == targets[..n] + [targets[n]];
    }
  }

  /** A tier lists its items in the order of the targets. */
  lemma {:induction false} WithPriorityRises(demands: seq<Resource>, targets: seq<nat>, p: int)
    requires Within(targets, |demands|) && Rising(targets)
    ensures Rising(WithPriority(demands, targets, p))
  {
    if targets != [] {
      var n := |targets| - 1;
      var before := WithPriority(demands, targets[..n], p);
      WithPriorityRises(demands, targets[..n], p);
      WithPriorityAre(demands, targets[..n], p);
      forall a | 0 <= a < |before|
        ensures before[a] < targets[n]
      {
        assert before[a] in before;
        var c :| 0 <= c < n && targets[..n][c] == before[a];
      }
    }
  }

  /** The targets grouped by priority, smallest number first. */
  function Tiers(demands: seq<Resource>, targets: seq<nat>): (tiers: seq<seq<nat>>)
    requires Within(targets, |demands|)
    ensures |tiers| == |Priorities(demands, targets)|
  {
    var ps := Priorities(demands, targets);
    seq(|ps|, t requires 0 <= t < |ps| => WithPriority(demands, targets, ps[t]))
  }

  function Bounded(targets: seq<nat>): Solver {
    Solver(true, targets, false, true, true)
  }

  function Even(targets: seq<nat>): Solver {
    Solver(false, targets, true, false, false)
  }

  /** The solver calls a pass over one class would make if every tier is served. */
  function Calls(demands: seq<Resource>, k: Class): (calls: seq<Solver>)
    ensures |calls| == |Tiers(demands, Members(demands, k, |demands|))|
  {
    var tiers := Tiers(demands, Members(demands, k, |demands|));
    seq(|tiers|, t requires 0 <= t < |tiers| => Bounded(tiers[t]))
  }

  // ----- legal rounds

  /** Outcomes of consecutive calls, each allowed where the one before it ended. */
  ghost predicate Chain(ins: Inputs, calls: seq<Solver>, p: Plan, outs: seq<Outcome>)
    decreases |outs|
  {
    && |outs| <= |calls|
    && (outs == [] ||
        (&& WellPosed(ins, calls[0], p)
         && Step(ins, calls[0], p, outs[0])
         && Chain(ins, calls[1..], After(p, outs[0]), outs[1..])))
  }

  function EndOf(p: Plan, outs: seq<Outcome>): Plan
    decreases |outs|
  {
    if outs == [] then p else EndOf(After(p, outs[0]), outs[1..])
  }

  /** A pass goes on exactly as long as its calls are served. */
  ghost predicate StopsWhenUnserved(calls: seq<Solver>, outs: seq<Outcome>) {
    && (forall k | 0 <= k < |outs| - 1 :: outs[k].Served?)
    && (|outs| < |calls| ==> outs != [] && !outs[|outs| - 1].Served?)
  }

  predicate Crashed(outs: seq<Outcome>) {
    outs != [] && outs[|outs| - 1].Failed?
  }

  ghost predicate Pass(ins: Inputs, calls: seq<Solver>, p: Plan, outs: seq<Outcome>) {
    Chain(ins, calls, p, outs) && StopsWhenUnserved(calls, outs)
  }

  datatype Run = Run(guaranteed: seq<Outcome>, burstable: seq<Outcome>, bestEffort: seq<Outcome>)

  ghost predicate LegalRun(ins: Inputs, run: Run) {
    && ins.Valid()
    && var p0 := Prefill(ins, |ins.bound|);
       var p1 := EndOf(p0, run.guaranteed);
       var p2 := EndOf(p1, run.burstable);
       var rest := Members(ins.demands, BestEffort, |ins.demands|);
       && Pass(ins, Calls(ins.demands, Guaranteed), p0, run.guaranteed)
       && (if Crashed(run.guaranteed) then run.burstable == []
           else Pass(ins, Calls(ins.demands, Burstable), p1, run.burstable))
       && (if Crashed(run.guaranteed) || Crashed(run.burstable) || p2.remaining == [] || rest == []
           then run.bestEffort == []
           else |run.bestEffort| == 1 && Chain(ins, [Even(rest)], p2, run.bestEffort))
  }

  /** Callers turn claims into indices of the items, or into none. */
  ghost predicate ClaimsKnown(ins: Inputs) {
    forall i | 0 <= i < |ins.bound| && ins.bound[i].claim.Some? :: ins.bound[i].claim.value < |ins.demands|
  }

  predicate Succeeded(run: Run) {
    !Crashed(run.guaranteed) && !Crashed(run.burstable) && !Crashed(run.bestEffort)
  }

  function Final(ins: Inputs, run: Run): Plan
    requires ins.Valid()
  {
    EndOf(EndOf(EndOf(Prefill(ins, |ins.bound|), run.guaranteed), run.burstable), run.bestEffort)
  }

  // ----- chains

  /** A call serves only items its settings fit: bounded ones have a min, the
      others no max. */
  ghost predicate Suited(demands: seq<Resource>, s: Solver) {
    && Distinct(s.targets) && s.useMin == s.useMax
    && forall c | 0 <= c < |s.targets| ::
         && s.targets[c] < |demands|
         && (if s.useMax then demands[s.targets[c]].min.Some? else demands[s.targets[c]].max.None?)
  }

  ghost predicate AllSuited(demands: seq<Resource>, calls: seq<Solver>) {
    forall t | 0 <= t < |calls| :: Suited(demands, calls[t])
  }

  lemma {:induction false} ChainKeepsPlanValid(ins: Inputs, calls: seq<Solver>, p: Plan, outs: seq<Outcome>)
    requires ins.Valid() && ValidPlan(ins, p) && Chain(ins, calls, p, outs)
    ensures ValidPlan(ins, EndOf(p, outs))
    decreases |outs|
  {
    if outs != [] {
      StepKeepsPlanValid(ins, calls[0], p, outs[0]);
      ChainKeepsPlanValid(ins, calls[1..], After(p, outs[0]), outs[1..]);
    }
  }

  lemma {:induction false} ChainBelow(
    ins: Inputs, calls: seq<Solver>, p: Plan, outs: seq<Outcome>, j: nat, bound: real)
    requires ins.Valid() && ValidPlan(ins, p) && Chain(ins, calls, p, outs) && AllSuited(ins.demands, calls)
    requires j < |ins.demands| && p.filled[j] <= bound
    requires ins.demands[j].max.Some? && MaxIsSafe(ins.demands[j]) && ins.demands[j].max.value <= bound
    ensures ValidPlan(ins, EndOf(p, outs)) && EndOf(p, outs).filled[j] <= bound
    decreases |outs|
  {
    if outs != [] {
      StepKeepsPlanValid(ins, calls[0], p, outs[0]);
      if outs[0].Served? {
        StepFills(ins, calls[0], p, outs[0]);
        if j in calls[0].targets {
          var c :| 0 <= c < |calls[0].targets| && calls[0].targets[c] == j;
          ServedSafeMax(ins, calls[0], p, outs[0], c);
        }
      }
      ChainBelow(ins, calls[1..], After(p, outs[0]), outs[1..], j, bound);
    }
  }

  lemma {:induction false} ChainLeavesAlone(
    ins: Inputs, calls: seq<Solver>, p: Plan, outs: seq<Outcome>, j: nat)
    requires ins.Valid() && ValidPlan(ins, p) && Chain(ins, calls, p, outs) && AllSuited(ins.demands, calls)
    requires j < |ins.demands|
    requires ins.demands[j].max.Some? && ins.demands[j].min.None?
    ensures ValidPlan(ins, EndOf(p, outs)) && EndOf(p, outs).allotted[j] == p.allotted[j]
    decreases |outs|
  {
    if outs != [] {
      StepKeepsPlanValid(ins, calls[0], p, outs[0]);
      if outs[0].Served? {
        StepFills(ins, calls[0], p, outs[0]);
      }
      ChainLeavesAlone(ins, calls[1..], After(p, outs[0]), outs[1..], j);
    }
  }

  lemma {:induction false} ChainNeverDrains(
    ins: Inputs, calls: seq<Solver>, p: Plan, outs: seq<Outcome>, j: nat)
    requires ins.Valid() && ValidPlan(ins, p) && Chain(ins, calls, p, outs) && AllSuited(ins.demands, calls)
    requires NonNegativeWeights(ins)
    requires j < |ins.demands|
    ensures ValidPlan(ins, EndOf(p, outs)) && EndOf(p, outs).filled[j] >= p.filled[j]
    decreases |outs|
  {
    if outs != [] {
      StepKeepsPlanValid(ins, calls[0], p, outs[0]);
      StepNeverDrains(ins, calls[0], p, outs[0], j);
      ChainNeverDrains(ins, calls[1..], After(p, outs[0]), outs[1..], j);
    }
  }

  lemma {:induction false} ChainLifts(
    ins: Inputs, calls: seq<Solver>, p: Plan, outs: seq<Outcome>, k: nat, j: nat)
    requires ins.Valid() && ValidPlan(ins, p) && Chain(ins, calls, p, outs) && AllSuited(ins.demands, calls)
    requires NonNegativeWeights(ins)
    requires k < |outs| && outs[k].Served? && calls[k].useMin && calls[k].useMax
    requires j in calls[k].targets && j < |ins.demands|
    requires ins.demands[j].min.Some? && MinIsSafe(ins.demands[j])
    ensures ValidPlan(ins, EndOf(p, outs)) && EndOf(p, outs).filled[j] >= ins.demands[j].min.value
    decreases |outs|
  {
    StepKeepsPlanValid(ins, calls[0], p, outs[0]);
    if k == 0 {
      var c :| 0 <= c < |calls[0].targets| && calls[0].targets[c] == j;
      WeightSumIsNonNegative(ins.weights, p.allotted[j]);
      ServedSafeMin(ins, calls[0], p, outs[0], c);
      ChainNeverDrains(ins, calls[1..], outs[0].after, outs[1..], j);
    } else {
      ChainLifts(ins, calls[1..], After(p, outs[0]), outs[1..], k - 1, j);
    }
  }

  // ----- a round is one chain

  lemma {:induction false} ChainConcat(
    ins: Inputs, first: seq<Solver>, second: seq<Solver>, p: Plan, a: seq<Outcome>, b: seq<Outcome>)
    requires Chain(ins, first, p, a) && Chain(ins, second, EndOf(p, a), b)
    ensures Chain(ins, first[..|a|] + second, p, a + b)
    ensures EndOf(p, a + b) == EndOf(EndOf(p, a), b)
    decreases |a|
  {
    if a == [] {
      assert a + b == b && first[..0] + second == second;
    } else {
      ChainConcat(ins, first[1..], second, After(p, a[0]), a[1..], b);
      assert (a + b)[1..] == a[1..] + b;
      assert (first[..|a|] + second)[1..] == first[1..][..|a[1..]|] + second;
    }
  }

  lemma CallsAreSuited(demands: seq<Resource>, k: Class)
    requires k == Guaranteed || k == Burstable
    ensures AllSuited(demands, Calls(demands, k))
  {
    var members := Members(demands, k, |demands|);
    MembersAre(demands, k, |demands|);
    forall t | 0 <= t < |Calls(demands, k)|
      ensures Suited(demands, Calls(demands, k)[t])
    {
      var targets := Calls(demands, k)[t].targets;
      WithPriorityAre(demands, members, Priorities(demands, members)[t]);
      forall c | 0 <= c < |targets|
        ensures targets[c] < |demands| && demands[targets[c]].min.Some?
      {
        assert targets[c] in targets;
        assert targets[c] in members;
      }
    }
  }

  lemma EvenIsSuited(demands: seq<Resource>)
    ensures Suited(demands, Even(Members(demands, BestEffort, |demands|)))
  {
    var members := Members(demands, BestEffort, |demands|);
    MembersAre(demands, BestEffort, |demands|);
    forall c | 0 <= c < |members|
      ensures demands[members[c]].max.None?
    {
      assert members[c] in members;
    }
  }

  lemma SuitedConcat(demands: seq<Resource>, a: seq<Solver>, n: nat, b: seq<Solver>)
    requires AllSuited(demands, a) && AllSuited(demands, b) && n <= |a|
    ensures AllSuited(demands, a[..n] + b)
  {
  }

  /** All outcomes of a round, in order. */
  function AllOutcomes(run: Run): seq<Outcome> {
    run.guaranteed + run.burstable + run.bestEffort
  }

  /** The calls of the two bounded passes as far as they were made, and those of the
      burstable pass that were not. */
  function BoundedCalls(demands: seq<Resource>, run: Run): seq<Solver>
    requires |run.guaranteed| <= |Calls(demands, Guaranteed)|
  {
    Calls(demands, Guaranteed)[..|run.guaranteed|] + Calls(demands, Burstable)
  }

  lemma BoundedPassesChain(ins: Inputs, run: Run)
    requires LegalRun(ins, run)
    ensures |run.guaranteed| <= |Calls(ins.demands, Guaranteed)|
    ensures |run.burstable| <= |Calls(ins.demands, Burstable)|
    ensures Chain(ins, BoundedCalls(ins.demands, run), Prefill(ins, |ins.bound|), run.guaranteed + run.burstable)
    ensures EndOf(Prefill(ins, |ins.bound|), run.guaranteed + run.burstable)
            == EndOf(EndOf(Prefill(ins, |ins.bound|), run.guaranteed), run.burstable)
    ensures AllSuited(ins.demands, BoundedCalls(ins.demands, run))
  {
    var p0 := Prefill(ins, |ins.bound|);
    var g, b := Calls(ins.demands, Guaranteed), Calls(ins.demands, Burstable);
    CallsAreSuited(ins.demands, Guaranteed);
    CallsAreSuited(ins.demands, Burstable);
    assert Chain(ins, b, EndOf(p0, run.guaranteed), run.burstable);
    SuitedConcat(ins.demands, g, |run.guaranteed|, b);
    ChainConcat(ins, g, b, p0, run.guaranteed, run.burstable);
  }

  lemma LastPassChains(ins: Inputs, run: Run)
    requires LegalRun(ins, run)
    ensures Chain(ins, [Even(Members(ins.demands, BestEffort, |ins.demands|))],
                  EndOf(EndOf(Prefill(ins, |ins.bound|), run.guaranteed), run.burstable), run.bestEffort)
  {
  }

  /** All calls of a round, the guaranteed tiers first. */
  function RoundCalls(demands: seq<Resource>, run: Run): seq<Solver>
    requires |run.guaranteed| <= |Calls(demands, Guaranteed)|
    requires |run.burstable| <= |Calls(demands, Burstable)|
  {
    BoundedCalls(demands, run)[..|run.guaranteed + run.burstable|] + [Even(Members(demands, BestEffort, |demands|))]
  }

  lemma RoundCallsAt(demands: seq<Resource>, run: Run, pass: Class, t: nat)
    requires |run.guaranteed| <= |Calls(demands, Guaranteed)|
    requires |run.burstable| <= |Calls(demands, Burstable)|
    requires pass != BestEffort && t < |if pass == Guaranteed then run.guaranteed else run.burstable|
    ensures var at := if pass == Guaranteed then t else |run.guaranteed| + t;
            at < |RoundCalls(demands, run)| && RoundCalls(demands, run)[at] == Calls(demands, pass)[t]
  {
  }

  /** A legal round is one chain of suited calls. */
  lemma RunIsChain(ins: Inputs, run: Run) returns (calls: seq<Solver>)
    requires LegalRun(ins, run)
    ensures |run.guaranteed| <= |Calls(ins.demands, Guaranteed)|
    ensures |run.burstable| <= |Calls(ins.demands, Burstable)|
    ensures calls == RoundCalls(ins.demands, run)
    ensures Chain(ins, calls, Prefill(ins, |ins.bound|), AllOutcomes(run))
    ensures EndOf(Prefill(ins, |ins.bound|), AllOutcomes(run)) == Final(ins, run)
    ensures AllSuited(ins.demands, calls)
  {
    BoundedPassesChain(ins, run);
    var bounded := BoundedCalls(ins.demands, run);
    var outs := run.guaranteed + run.burstable;
    var last := [Even(Members(ins.demands, BestEffort, |ins.demands|))];
    EvenIsSuited(ins.demands);
    calls := bounded[..|outs|] + last;
    SuitedConcat(ins.demands, bounded, |outs|, last);
    LastPassChains(ins, run);
    ChainConcat(ins, bounded, last, Prefill(ins, |ins.bound|), outs, run.bestEffort);
  }

  lemma {:induction false} ChainStartsChain(ins: Inputs, calls: seq<Solver>, p: Plan, outs: seq<Outcome>, k: nat)
    requires Chain(ins, calls, p, outs) && k <= |outs|
    ensures Chain(ins, calls, p, outs[..k])
    decreases |outs|
  {
    if k > 0 {
      ChainStartsChain(ins, calls[1..], After(p, outs[0]), outs[1..], k - 1);
      assert outs[..k][1..] == outs[1..][..k - 1];
    }
  }

  /** After prefilling and after every solver call of a legal round, each resource
      sits in exactly one list or is free, every list weighs what `filled` says,
      and locked resources stay at the head of their claim's list. */
  lemma RoundPartitionsResources(ins: Inputs, run: Run, k: nat)
    requires LegalRun(ins, run) && k <= |AllOutcomes(run)|
    ensures var p := EndOf(Prefill(ins, |ins.bound|), AllOutcomes(run)[..k]);
            ValidPlan(ins, p) && PlacedOnce(|ins.bound|, p)
  {
    var p0 := Prefill(ins, |ins.bound|);
    var outs := AllOutcomes(run);
    var calls := RunIsChain(ins, run);
    PrefillIsValid(ins);
    ChainStartsChain(ins, calls, p0, outs, k);
    ChainKeepsPlanValid(ins, calls, p0, outs[..k]);
    ConservedMeansPlacedOnce(|ins.bound|, EndOf(p0, outs[..k]));
  }

  lemma FinalIsPartition(ins: Inputs, run: Run)
    requires LegalRun(ins, run)
    ensures ValidPlan(ins, Final(ins, run)) && PlacedOnce(|ins.bound|, Final(ins, run))
  {
    var calls := RunIsChain(ins, run);
    var n := |AllOutcomes(run)|;
    RoundPartitionsResources(ins, run, n);
    assert AllOutcomes(run)[..n] == AllOutcomes(run);
  }

  /** An item with a max but no min is never a target: it ends with exactly its
      locked resources. */
  lemma MaxWithoutMinKeepsLockedOnly(ins: Inputs, run: Run, j: nat)
    requires LegalRun(ins, run) && j < |ins.demands|
    requires ins.demands[j].max.Some? && ins.demands[j].min.None?
    ensures j < |Final(ins, run).allotted|
    ensures Final(ins, run).allotted[j] == Locked(ins.bound, j, |ins.bound|)
  {
    var calls := RunIsChain(ins, run);
    PrefillIsValid(ins);
    ChainLeavesAlone(ins, calls, Prefill(ins, |ins.bound|), AllOutcomes(run), j);
  }

  /** An item with a safe max, or with a max and no min, ends at or below the larger of
      its max and the weight that was locked to it. */
  lemma MaxIsRespected(ins: Inputs, run: Run, j: nat)
    requires LegalRun(ins, run) && j < |ins.demands|
    requires ins.demands[j].max.Some? && (MaxIsSafe(ins.demands[j]) || ins.demands[j].min.None?)
    ensures j < |Final(ins, run).allotted| && Within(Final(ins, run).allotted[j], |ins.weights|)
    ensures var m := ins.demands[j].max.value;
            var locked := WeightSum(ins.weights, Locked(ins.bound, j, |ins.bound|));
            WeightSum(ins.weights, Final(ins, run).allotted[j]) <= if m >= locked then m else locked
  {
    var m := ins.demands[j].max.value;
    var locked := WeightSum(ins.weights, Locked(ins.bound, j, |ins.bound|));
    if MaxIsSafe(ins.demands[j]) {
      var calls := RunIsChain(ins, run);
      PrefillIsValid(ins);
      ChainBelow(ins, calls, Prefill(ins, |ins.bound|), AllOutcomes(run), j, if m >= locked then m else locked);
    } else {
      FinalIsPartition(ins, run);
      MaxWithoutMinKeepsLockedOnly(ins, run, j);
    }
  }

  /** The tier an item of a class belongs to. */
  lemma TierOf(demands: seq<Resource>, k: Class, j: nat) returns (t: nat)
    requires j < |demands| && InClass(k, demands[j])
    ensures t < |Calls(demands, k)| && j in Calls(demands, k)[t].targets
    ensures t < |Priorities(demands, Members(demands, k, |demands|))|
    ensures Priorities(demands, Members(demands, k, |demands|))[t] == demands[j].priority
  {
    var members := Members(demands, k, |demands|);
    MembersAre(demands, k, |demands|);
    assert j in members;
    var c :| 0 <= c < |members| && members[c] == j;
    var ps := Priorities(demands, members);
    PriorityIsListed(demands, members, c);
    WithPriorityAre(demands, members, demands[j].priority);
    t :| 0 <= t < |ps| && ps[t] == demands[j].priority;
  }

  /** An item takes part in the guaranteed pass if it has both bounds and in the
      burstable pass if it has a min. */
  predicate TakesPart(pass: Class, d: Resource) {
    pass != BestEffort && d.min.Some? && (pass == Guaranteed ==> d.max.Some?)
  }

  function PassOf(run: Run, pass: Class): seq<Outcome> {
    match pass
    case Guaranteed => run.guaranteed
    case Burstable => run.burstable
    case BestEffort => run.bestEffort
  }

  /** Some item of tier k has this priority number or a larger one. */
  ghost predicate AtOrBeforeTier(demands: seq<Resource>, pass: Class, k: nat, priority: int)
    requires k < |Calls(demands, pass)|
  {
    exists other ::
      && other in Calls(demands, pass)[k].targets
      && other < |demands|
      && priority <= demands[other].priority
  }

  /** An item that takes part in a pass and whose priority number is not above that of
      tier k belongs to tier k or an earlier one. */
  lemma EarlierTier(demands: seq<Resource>, pass: Class, k: nat, j: nat) returns (t: nat)
    requires j < |demands| && TakesPart(pass, demands[j])
    requires k < |Calls(demands, pass)|
    requires AtOrBeforeTier(demands, pass, k, demands[j].priority)
    ensures t <= k && j in Calls(demands, pass)[t].targets
  {
    t := TierOf(demands, pass, j);
    var members := Members(demands, pass, |demands|);
    var ps := Priorities(demands, members);
    WithPriorityAre(demands, members, ps[k]);
    assert forall a, b | 0 <= a < b < |ps| :: ps[a] < ps[b];
  }

  /** The call that served item j. */
  lemma ServedCall(ins: Inputs, run: Run, pass: Class, k: nat, j: nat) returns (t: nat)
    requires StopsWhenUnserved(Calls(ins.demands, pass), PassOf(run, pass))
    requires k < |PassOf(run, pass)| && PassOf(run, pass)[k].Served?
    requires j < |ins.demands| && TakesPart(pass, ins.demands[j])
    requires k < |Calls(ins.demands, pass)|
    requires AtOrBeforeTier(ins.demands, pass, k, ins.demands[j].priority)
    ensures t < |PassOf(run, pass)| && t < |Calls(ins.demands, pass)|
    ensures PassOf(run, pass)[t].Served?
    ensures Calls(ins.demands, pass)[t] == Bounded(Calls(ins.demands, pass)[t].targets)
    ensures j in Calls(ins.demands, pass)[t].targets
  {
    t := EarlierTier(ins.demands, pass, k, j);
  }

  /** A pass serves tier k, and item j, which takes part in it with that priority or a
      smaller number, demands d. */
  ghost predicate ServesTier(ins: Inputs, run: Run, pass: Class, k: nat, j: nat, d: Resource) {
    && LegalRun(ins, run) && NonNegativeWeights(ins) && ClaimsKnown(ins)
    && k < |PassOf(run, pass)| && PassOf(run, pass)[k].Served?
    && j < |ins.demands| && ins.demands[j] == d && TakesPart(pass, d)
    && k < |Calls(ins.demands, pass)|
    && AtOrBeforeTier(ins.demands, pass, k, d.priority)
  }

  /** Item j finishes the round at or above its min. */
  ghost predicate EndsAtMin(ins: Inputs, run: Run, j: nat)
    requires ins.Valid()
  {
    && j < |ins.demands| && ins.demands[j].min.Some?
    && j < |Final(ins, run).allotted| && Within(Final(ins, run).allotted[j], |ins.weights|)
    && WeightSum(ins.weights, Final(ins, run).allotted[j]) >= ins.demands[j].min.value
  }

  lemma PassStops(ins: Inputs, run: Run, pass: Class)
    requires LegalRun(ins, run) && pass != BestEffort && PassOf(run, pass) != []
    ensures StopsWhenUnserved(Calls(ins.demands, pass), PassOf(run, pass))
  {
  }

  lemma PassInChain(run: Run, pass: Class, t: nat) returns (at: nat)
    requires pass != BestEffort && t < |PassOf(run, pass)|
    ensures at < |AllOutcomes(run)| && AllOutcomes(run)[at] == PassOf(run, pass)[t]
    ensures at == if pass == Guaranteed then t else |run.guaranteed| + t
  {
    at := if pass == Guaranteed then t else |run.guaranteed| + t;
  }

  /** Where the call that served item j sits in the whole round. */
  lemma ServedInChain(ins: Inputs, run: Run, pass: Class, k: nat, j: nat) returns (calls: seq<Solver>, at: nat)
    requires j < |ins.demands| && ServesTier(ins, run, pass, k, j, ins.demands[j])
    ensures Chain(ins, calls, Prefill(ins, |ins.bound|), AllOutcomes(run)) && AllSuited(ins.demands, calls)
    ensures EndOf(Prefill(ins, |ins.bound|), AllOutcomes(run)) == Final(ins, run)
    ensures at < |AllOutcomes(run)| && at < |calls| && AllOutcomes(run)[at].Served?
    ensures calls[at].useMin && calls[at].useMax && j in calls[at].targets
  {
    PassStops(ins, run, pass);
    var t := ServedCall(ins, run, pass, k, j);
    calls := RunIsChain(ins, run);
    at := PassInChain(run, pass, t);
    RoundCallsAt(ins.demands, run, pass, t);
  }

  /** If the guaranteed or the burstable pass serves tier k, every item of the pass with
      that priority or a smaller number whose min is safe finishes the round at or above
      its min: served tiers are a prefix of ascending priority, and later calls do not
      undo them. */
  lemma ServedTierKeepsItsMin(ins: Inputs, run: Run, pass: Class, k: nat, j: nat)
    requires j < |ins.demands| && ServesTier(ins, run, pass, k, j, ins.demands[j])
    requires MinIsSafe(ins.demands[j])
    ensures EndsAtMin(ins, run, j)
  {
    var calls, at := ServedInChain(ins, run, pass, k, j);
    PrefillIsValid(ins);
    ChainLifts(ins, calls, Prefill(ins, |ins.bound|), AllOutcomes(run), at, j);
  }

  lemma EvenCallPlacesAll(ins: Inputs, s: Solver, p: Plan, out: Outcome)
    requires WellPosed(ins, s, p) && ValidPlan(ins, p) && Step(ins, s, p, out) && !out.Failed?
    requires p.remaining != [] && s.targets != []
    requires s.useAll && !s.useMax && !s.useMin
    requires forall c | 0 <= c < |s.targets| :: ins.demands[s.targets[c]].weight > 0
    ensures After(p, out).remaining == []
  {
    BestEffortIsFeasible(ins, s, p);
    StepKeepsPlanValid(ins, s, p, out);
  }

  function BeforeLastPass(ins: Inputs, run: Run): Plan
    requires ins.Valid()
  {
    EndOf(EndOf(Prefill(ins, |ins.bound|), run.guaranteed), run.burstable)
  }

  lemma LastPassStartsValid(ins: Inputs, run: Run)
    requires LegalRun(ins, run)
    ensures ValidPlan(ins, BeforeLastPass(ins, run))
  {
    BoundedPassesChain(ins, run);
    PrefillIsValid(ins);
    ChainKeepsPlanValid(ins, BoundedCalls(ins.demands, run), Prefill(ins, |ins.bound|), run.guaranteed + run.burstable);
  }

  lemma EndOfOne(p: Plan, outs: seq<Outcome>)
    requires |outs| == 1
    ensures EndOf(p, outs) == After(p, outs[0])
  {
    assert outs[1..] == [];
  }

  lemma OneCall(ins: Inputs, s: Solver, p: Plan, outs: seq<Outcome>)
    requires |outs| == 1 && Chain(ins, [s], p, outs)
    ensures WellPosed(ins, s, p) && Step(ins, s, p, outs[0])
    ensures EndOf(p, outs) == After(p, outs[0])
  {
    EndOfOne(p, outs);
  }

  lemma LastPassPlacesAll(ins: Inputs, run: Run)
    requires LegalRun(ins, run) && Succeeded(run)
    requires Members(ins.demands, BestEffort, |ins.demands|) != []
    requires var rest := Members(ins.demands, BestEffort, |ins.demands|);
             forall c | 0 <= c < |rest| :: ins.demands[rest[c]].weight > 0
    ensures Final(ins, run).remaining == []
  {
    var p2 := BeforeLastPass(ins, run);
    LastPassStartsValid(ins, run);
    if p2.remaining != [] {
      var s := Even(Members(ins.demands, BestEffort, |ins.demands|));
      OneCall(ins, s, p2, run.bestEffort);
      EvenCallPlacesAll(ins, s, p2, run.bestEffort[0]);
    }
  }

  /** Some item holds resource i. */
  ghost predicate IsHeld(p: Plan, i: nat) {
    exists j :: 0 <= j < |p.allotted| && i in p.allotted[j]
  }

  lemma PlacedMeansHeld(n: nat, p: Plan)
    requires PlacedOnce(n, p) && p.remaining == []
    ensures forall i: nat :: i < n <==> IsHeld(p, i)
  {
    forall i: nat
      ensures i < n <==> IsHeld(p, i)
    {
      assert i !in p.remaining;
      if j :| 0 <= j < |p.allotted| && i in p.allotted[j] {
        var m :| 0 <= m < |p.allotted[j]| && p.allotted[j][m] == i;
        assert Within(p.allotted[j], n);
      }
    }
  }

  lemma BestEffortWeights(demands: seq<Resource>)
    requires exists j :: 0 <= j < |demands| && demands[j].max.None?
    requires forall j | 0 <= j < |demands| && demands[j].max.None? :: demands[j].weight > 0
    ensures var rest := Members(demands, BestEffort, |demands|);
            rest != [] && forall c | 0 <= c < |rest| :: demands[rest[c]].weight > 0
  {
    var rest := Members(demands, BestEffort, |demands|);
    MembersAre(demands, BestEffort, |demands|);
    var j: nat :| j < |demands| && demands[j].max.None?;
    assert j in rest;
    EvenIsSuited(demands);
  }

  /** If some item has no max and the weights of such items are positive, a round
      that does not fail leaves no resource over: exactly the resources with a
      binding record are handed out, so all of them when each one has a record. */
  lemma EveryResourceIsPlaced(ins: Inputs, run: Run)
    requires LegalRun(ins, run) && Succeeded(run)
    requires exists j :: 0 <= j < |ins.demands| && ins.demands[j].max.None?
    requires forall j | 0 <= j < |ins.demands| && ins.demands[j].max.None? :: ins.demands[j].weight > 0
    ensures Final(ins, run).remaining == []
    ensures forall i: nat :: i < |ins.bound| <==> IsHeld(Final(ins, run), i)
    ensures |ins.bound| == |ins.weights| ==> forall i: nat | i < |ins.weights| :: IsHeld(Final(ins, run), i)
  {
    BestEffortWeights(ins.demands);
    LastPassPlacesAll(ins, run);
    FinalIsPartition(ins, run);
    PlacedMeansHeld(|ins.bound|, Final(ins, run));
  }

  // ----- which mins are kept

  /** One resource of weight w, bound to the second of two items, which competes for
      nothing. */
  function Rivals(d: Resource, w: real): Inputs {
    var rival := Resource(0.0, 0, None, None, 1);
    Inputs([d, rival], [PoolResource(Some(1), SchedulerPlan.Running)], [w])
  }

  /** The resource as heavy as the min of d still allows once the penalty is counted. */
  function Contested(d: Resource): Inputs
    requires d.min.Some?
  {
    Rivals(d, if d.penalty <= d.min.value then d.min.value - d.penalty else 0.0)
  }

  /** Whatever goes to an item is inside its bounds; without a max it is the min. */
  predicate InBounds(d: Resource, total: real) {
    && (d.min.Some? ==> d.min.value <= total)
    && (d.max.Some? ==> total <= d.max.value)
    && (d.max.None? && d.min.Some? ==> total == d.min.value)
  }

  /** Inputs with one resource, which is not locked. */
  ghost predicate OneResource(ins: Inputs) {
    |ins.bound| == 1 == |ins.weights| && |ins.demands| > 0 && ins.bound[0].state == SchedulerPlan.Running
  }

  lemma OneResourceIsFree(ins: Inputs)
    requires OneResource(ins)
    ensures ins.Valid() && Prefill(ins, 1) == Empty(|ins.demands|).(remaining := [0])
  {
    assert Prefill(ins, 0) == Empty(|ins.demands|);
  }

  const TAKE_IT := Valuation([[true]], 0.0)

  lemma OneResourceLoad(ins: Inputs)
    requires OneResource(ins)
    ensures Load(ins, [0], [0], TAKE_IT.y, 0, 0) == ins.weights[0] + Penalty(ins, 0, 0)
    ensures Count(TAKE_IT.y[0], 0) == 1
  {
    assert Load(ins, [0], [0], TAKE_IT.y, 0, 1) == 0.0;
    assert Count(TAKE_IT.y[0], 1) == 0;
  }

  /** A bounded call may give the only resource to the first item exactly if weight and
      penalty together are inside its bounds. */
  lemma OneResourceFitsIff(ins: Inputs)
    requires OneResource(ins) && (ins.demands[0].min.Some? || ins.demands[0].max.Some?)
    ensures ins.Valid() && WellPosed(ins, Bounded([0]), Prefill(ins, 1))
    ensures Feasible(ins, Bounded([0]), Prefill(ins, 1), TAKE_IT) <==>
            InBounds(ins.demands[0], ins.weights[0] + Penalty(ins, 0, 0))
  {
    OneResourceIsFree(ins);
    OneResourceLoad(ins);
    var s, p := Bounded([0]), Prefill(ins, 1);
    assert Total(ins, s, p, TAKE_IT, 0) == ins.weights[0] + Penalty(ins, 0, 0);
    assert LoadBound(ins, s, p, TAKE_IT, 0) <==> InBounds(ins.demands[0], ins.weights[0] + Penalty(ins, 0, 0));
    assert RowBound(s, TAKE_IT.y[0]);
  }

  /** A resource counts with the penalty exactly if it is bound to another item. */
  lemma PenaltyCountsIff(d: Resource, claim: Option<nat>, w: real)
    requires d.min.Some? || d.max.Some?
    ensures var ins := Inputs([d], [PoolResource(claim, SchedulerPlan.Running)], [w]);
            && ins.Valid() && WellPosed(ins, Bounded([0]), Prefill(ins, 1))
            && (Feasible(ins, Bounded([0]), Prefill(ins, 1), TAKE_IT) <==>
                InBounds(d, if claim == None || claim == Some(0) then w else w + d.penalty))
  {
    OneResourceFitsIff(Inputs([d], [PoolResource(claim, SchedulerPlan.Running)], [w]));
  }

  /** A bounded call may move the resource to the first item when weight and penalty
      together keep the bounds. */
  lemma RivalLosesResource(d: Resource, w: real) returns (out: Outcome)
    requires (d.min.Some? || d.max.Some?) && InBounds(d, w + d.penalty)
    ensures var ins := Rivals(d, w);
            && ins.Valid() && ClaimsKnown(ins)
            && WellPosed(ins, Bounded([0]), Prefill(ins, 1))
            && Step(ins, Bounded([0]), Prefill(ins, 1), out)
            && out.Served? && out.after == Plan([[0], []], [w, 0.0], [])
  {
    var ins := Rivals(d, w);
    OneResourceIsFree(ins);
    OneResourceFitsIff(ins);
    var p, y := Prefill(ins, 1), TAKE_IT.y;
    var q := Put(ins, p, 0, 0);
    assert q == Plan([[0], []], [w, 0.0], []);
    assert StoreRow(ins, q, [0], 0, y[0], 1) == q;
    assert StoreRow(ins, p, [0], 0, y[0], 0) == q;
    assert StoreRows(ins, q, [0], [0], y, 1) == q;
    out := Served(TAKE_IT, StoreRows(ins, p, [0], [0], y, 0));
  }

  /** An unsafe min is undercut by a served call: the penalty counts as load. */
  lemma UnsafeMinIsUndercut(d: Resource) returns (out: Outcome)
    requires d.min.Some? && !MinIsSafe(d)
    ensures var ins := Contested(d);
            && ins.Valid() && NonNegativeWeights(ins) && ClaimsKnown(ins)
            && WellPosed(ins, Bounded([0]), Prefill(ins, 1))
            && Step(ins, Bounded([0]), Prefill(ins, 1), out)
            && out.Served? && out.after.remaining == []
            && |out.after.filled| == 2 && out.after.filled[0] < d.min.value
  {
    out := RivalLosesResource(d, Contested(d).weights[0]);
  }

  /** A bounded call serves target c, which demands d. */
  ghost predicate ServesTarget(ins: Inputs, s: Solver, p: Plan, out: Outcome, c: nat, d: Resource) {
    && WellPosed(ins, s, p) && ClaimsKnown(ins)
    && ValidPlan(ins, p) && Step(ins, s, p, out) && out.Served?
    && s == Bounded(s.targets) && Distinct(s.targets)
    && c < |s.targets| && ins.demands[s.targets[c]] == d
  }

  /** Every served bounded call leaves an item that demands d at or above its min if
      and only if that min is safe. */
  lemma CallKeepsMinIff(d: Resource)
    requires d.min.Some?
    ensures (forall ins, s, p, out, c: nat :: NonNegativeWeights(ins) && ServesTarget(ins, s, p, out, c, d) ==>
               |out.after.filled| == |ins.demands| && out.after.filled[s.targets[c]] >= d.min.value)
            <==> MinIsSafe(d)
  {
    if MinIsSafe(d) {
      forall ins, s, p, out, c: nat | NonNegativeWeights(ins) && ServesTarget(ins, s, p, out, c, d)
        ensures |out.after.filled| == |ins.demands| && out.after.filled[s.targets[c]] >= d.min.value
      {
        WeightSumIsNonNegative(ins.weights, p.allotted[s.targets[c]]);
        ServedSafeMin(ins, s, p, out, c);
      }
    } else {
      var out := UnsafeMinIsUndercut(d);
      PrefillIsValid(Contested(d));
      assert NonNegativeWeights(Contested(d)) && ServesTarget(Contested(d), Bounded([0]), Prefill(Contested(d), 1), out, 0, d);
    }
  }

  /** Every served bounded call leaves an item that demands d at or below its max if
      and only if that max is safe: a negative penalty makes room for more weight. */
  lemma CallKeepsMaxIff(d: Resource)
    requires d.max.Some?
    ensures (forall ins, s, p, out, c: nat :: ServesTarget(ins, s, p, out, c, d) ==>
               |out.after.filled| == |ins.demands| && out.after.filled[s.targets[c]] <= d.max.value)
            <==> MaxIsSafe(d)
  {
    if MaxIsSafe(d) {
      forall ins, s, p, out, c: nat | ServesTarget(ins, s, p, out, c, d)
        ensures |out.after.filled| == |ins.demands| && out.after.filled[s.targets[c]] <= d.max.value
      {
        ServedSafeMax(ins, s, p, out, c);
      }
    } else {
      var ins := Rivals(d, d.max.value - d.penalty);
      var out := RivalLosesResource(d, d.max.value - d.penalty);
      PrefillIsValid(ins);
      assert ServesTarget(ins, Bounded([0]), Prefill(ins, 1), out, 0, d);
    }
  }

  lemma ContestedMembers(d: Resource, pass: Class)
    requires d.min.Some? && pass != BestEffort
    ensures Members(Contested(d).demands, pass, 2) == if TakesPart(pass, d) then [0] else []
  {
    var demands := Contested(d).demands;
    assert Members(demands, pass, 0) == [];
    assert Members(demands, pass, 1) == if TakesPart(pass, d) then [0] else [];
  }

  lemma TiersOfOne(demands: seq<Resource>)
    requires |demands| > 0
    ensures Tiers(demands, [0]) == [[0]]
  {
    var key := demands[0].priority;
    assert Priorities(demands, []) == [];
    assert Priorities(demands, [0]) == [key];
    assert WithPriority(demands, [], key) == [];
    assert WithPriority(demands, [0], key) == [0];
  }

  lemma NoTiers(demands: seq<Resource>)
    ensures Tiers(demands, []) == []
  {
  }

  lemma ContestedCalls(d: Resource, pass: Class)
    requires d.min.Some? && pass != BestEffort
    ensures Calls(Contested(d).demands, pass) == if TakesPart(pass, d) then [Bounded([0])] else []
  {
    ContestedMembers(d, pass);
    TiersOfOne(Contested(d).demands);
    NoTiers(Contested(d).demands);
  }

  /** A served call for the only tier of a bounded pass that uses up the resources makes
      a legal round. */
  lemma OneServedCall(ins: Inputs, s: Solver, out: Outcome, pass: Class) returns (run: Run)
    requires ins.Valid() && WellPosed(ins, s, Prefill(ins, |ins.bound|)) && pass != BestEffort
    requires Calls(ins.demands, Guaranteed) == (if pass == Guaranteed then [s] else [])
    requires Calls(ins.demands, Burstable) == [s]
    requires Step(ins, s, Prefill(ins, |ins.bound|), out) && out.Served? && out.after.remaining == []
    requires WellPosed(ins, s, out.after)
    ensures PassOf(run, pass) == [out] && LegalRun(ins, run) && Succeeded(run) && Final(ins, run) == out.after
  {
    var p0 := Prefill(ins, |ins.bound|);
    run := if pass == Guaranteed then Run([out], [Stopped], []) else Run([], [out], []);
    EndOfOne(p0, [out]);
    EndOfOne(out.after, [Stopped]);
    assert Chain(ins, [s][1..], out.after, [out][1..]);
    assert Chain(ins, [s][1..], out.after, [Stopped][1..]);
  }

  /** A whole round in which an unsafe min is undercut although its tier is served. */
  lemma UnsafeRound(d: Resource, pass: Class) returns (run: Run)
    requires TakesPart(pass, d) && (pass == Burstable ==> d.max.None?) && !MinIsSafe(d)
    ensures ServesTier(Contested(d), run, pass, 0, 0, d) && Succeeded(run)
    ensures !EndsAtMin(Contested(d), run, 0)
  {
    var ins := Contested(d);
    var out := UnsafeMinIsUndercut(d);
    ContestedCalls(d, Guaranteed);
    ContestedCalls(d, Burstable);
    PrefillIsValid(ins);
    StepKeepsPlanValid(ins, Bounded([0]), Prefill(ins, 1), out);
    run := OneServedCall(ins, Bounded([0]), out, pass);
    assert 0 in Calls(ins.demands, pass)[0].targets;
  }

  /** In every round that serves its tier, a guaranteed item that demands d finishes at
      or above its min if and only if that min is safe; so does a burstable item without
      a max. */
  lemma RoundKeepsMinIff(d: Resource, pass: Class)
    requires TakesPart(pass, d) && (pass == Burstable ==> d.max.None?)
    ensures (forall ins, run, k: nat, j: nat :: ServesTier(ins, run, pass, k, j, d) ==> EndsAtMin(ins, run, j))
            <==> MinIsSafe(d)
  {
    if MinIsSafe(d) {
      forall ins, run, k: nat, j: nat | ServesTier(ins, run, pass, k, j, d)
        ensures EndsAtMin(ins, run, j)
      {
        ServedTierKeepsItsMin(ins, run, pass, k, j);
      }
    } else {
      var run := UnsafeRound(d, pass);
      assert ServesTier(Contested(d), run, pass, 0, 0, d);
    }
  }

  // ----- what a stopped tier and an even call mean

  lemma {:induction false} OneCounts(ys: seq<bool>, c: nat)
    requires c <= |ys| && OneAtMost(ys, c)
    ensures Count(ys, c) == if Marked(ys, c) then 1 else 0
    decreases |ys| - c
  {
    if c < |ys| {
      MarkedStep(ys, c);
      OneCounts(ys, c + 1);
    }
  }

  /** A tier that is not served although resources are left cannot be: every assignment
      of each free resource to at most one of its items breaks the bounds of some item. */
  lemma StoppedTierFitsNowhere(ins: Inputs, targets: seq<nat>, p: Plan, y: seq<seq<bool>>)
    requires WellPosed(ins, Bounded(targets), p) && Step(ins, Bounded(targets), p, Stopped)
    requires p.remaining != [] && targets != []
    requires |y| == |p.remaining| && Wide(y, |targets|) && forall r | 0 <= r < |y| :: OneAtMost(y[r], 0)
    ensures exists c :: 0 <= c < |targets| &&
              !InBounds(ins.demands[targets[c]], p.filled[targets[c]] + Load(ins, p.remaining, targets, y, c, 0))
  {
    var s, v := Bounded(targets), Valuation(y, 0.0);
    forall r | 0 <= r < |y|
      ensures RowBound(s, y[r])
    {
      OneCounts(y[r], 0);
    }
    assert !Feasible(ins, s, p, v);
    var c :| 0 <= c < |targets| && !LoadBound(ins, s, p, v, c);
    assert !InBounds(ins.demands[targets[c]], Total(ins, s, p, v, c));
  }

  /** After the last call the weights of any two of its items, divided by their shares,
      differ by no more than the deviation, if no penalties apply. */
  lemma EvenCallSpreadsWeight(ins: Inputs, targets: seq<nat>, p: Plan, out: Outcome, a: nat, b: nat)
    requires WellPosed(ins, Even(targets), p) && Step(ins, Even(targets), p, out) && out.Served? && Distinct(targets)
    requires a < |targets| && b < |targets|
    requires forall c | c == targets[a] || c == targets[b] :: ins.demands[c].penalty == 0.0 && ins.demands[c].weight > 0
    ensures out.after.filled[targets[a]] / ins.demands[targets[a]].weight as real
            - out.after.filled[targets[b]] / ins.demands[targets[b]].weight as real <= out.v.d
  {
    StepFills(ins, Even(targets), p, out);
    GainVersusLoad(ins, p.remaining, targets, out.v.y, a, 0);
    GainVersusLoad(ins, p.remaining, targets, out.v.y, b, 0);
    assert CloseTo(ins, Even(targets), p, out.v, a, b);
  }

  lemma NothingFreeStops(ins: Inputs, calls: seq<Solver>, p: Plan, outs: seq<Outcome>)
    requires Pass(ins, calls, p, outs) && p.remaining == []
    ensures !Crashed(outs) && EndOf(p, outs) == p
  {
    if outs != [] {
      assert outs[0].Stopped?;
      assert |outs| == 1;
      assert EndOf(After(p, outs[0]), outs[1..]) == p;
    }
  }

  /** A round whose resources are all locked succeeds, whatever the optimiser does, and
      delivers exactly what is locked. */
  lemma LockedRoundSucceeds(ins: Inputs, run: Run)
    requires LegalRun(ins, run) && forall i | 0 <= i < |ins.bound| :: IsLocked(ins.bound[i])
    ensures Succeeded(run) && Final(ins, run) == Prefill(ins, |ins.bound|)
  {
    var p0 := Prefill(ins, |ins.bound|);
    PrefillIsValid(ins);
    if p0.remaining != [] {
      var i := p0.remaining[0];
      assert i in p0.remaining;
      PrefillLocksPreparing(ins, i);
      assert false;
    }
    NothingFreeStops(ins, Calls(ins.demands, Guaranteed), p0, run.guaranteed);
    NothingFreeStops(ins, Calls(ins.demands, Burstable), p0, run.burstable);
  }
}
