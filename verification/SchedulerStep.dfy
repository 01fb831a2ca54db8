/** One solver call of the Spectrum scheduler, stated without reference to how
    the linear problem is written down: which assignments are feasible, what
    each outcome means, and what a call keeps. */
module SchedulerStep {
  import opened Wrappers
  import opened SchedulerPlan

  /** The settings of one solver call. */
  datatype Solver = Solver(maximise: bool, targets: seq<nat>, useAll: bool, useMax: bool, useMin: bool)

  /** A value of the problem's variables: the binary matrix [resource, target]
      and the deviation variable, which is bounded below by zero. */
  datatype Valuation = Valuation(y: seq<seq<bool>>, d: real)

  datatype ResolutionError = Unbounded | OtherError

  datatype Outcome =
    | Served(v: Valuation, after: Plan)
    | Stopped
    | Failed(error: ResolutionError)

  ghost predicate Fits(v: Valuation, rows: nat, cols: nat) {
    |v.y| == rows && Wide(v.y, cols) && v.d >= 0.0
  }

  /** The source stops with a panic on a target with neither bound when `use_max` is set. */
  ghost predicate WellPosed(ins: Inputs, s: Solver, p: Plan) {
    && ins.Valid() && Shaped(ins, p)
    && Within(s.targets, |ins.demands|)
    && (s.useMax ==> forall c | 0 <= c < |s.targets| ::
          ins.demands[s.targets[c]].max.Some? || ins.demands[s.targets[c]].min.Some?)
  }

  /** Moving a bound resource away from its claim costs the new item's penalty. */
  function Penalty(ins: Inputs, i: nat, j: nat): real
    requires i < |ins.bound| && j < |ins.demands|
  {
    match ins.bound[i].claim
    case None => 0.0
    case Some(j2) => if j == j2 then 0.0 else ins.demands[j].penalty
  }

  function Cost(ins: Inputs, i: nat, j: nat): real
    requires i < |ins.bound| <= |ins.weights| && j < |ins.demands|
  {
    ins.weights[i] + Penalty(ins, i, j)
  }

  /** The load on target column c from rows r onward. */
  function Load(ins: Inputs, rows: seq<nat>, targets: seq<nat>, y: seq<seq<bool>>, c: nat, r: nat): real
    requires |ins.bound| <= |ins.weights|
    requires Within(rows, |ins.bound|) && Within(targets, |ins.demands|)
    requires |y| == |rows| && Wide(y, |targets|) && c < |targets| && r <= |rows|
    decreases |rows| - r
  {
    if r == |rows| then 0.0
    else (if y[r][c] then Cost(ins, rows[r], targets[c]) else 0.0) + Load(ins, rows, targets, y, c, r + 1)
  }

  /** How many columns of a row are marked, from column c on. */
  function Count(ys: seq<bool>, c: nat): nat
    requires c <= |ys|
    decreases |ys| - c
  {
    if c == |ys| then 0 else (if ys[c] then 1 else 0) + Count(ys, c + 1)
  }

  /** What target column c would hold, penalties included. */
  ghost function Total(ins: Inputs, s: Solver, p: Plan, v: Valuation, c: nat): real
    requires WellPosed(ins, s, p) && Fits(v, |p.remaining|, |s.targets|) && c < |s.targets|
  {
    p.filled[s.targets[c]] + Load(ins, p.remaining, s.targets, v.y, c, 0)
  }

  ghost predicate RowBound(s: Solver, ys: seq<bool>) {
    if s.useAll then Count(ys, 0) == 1 else Count(ys, 0) <= 1
  }

  /** Min and max of column c; an item without max must meet its min exactly. */
  ghost predicate LoadBound(ins: Inputs, s: Solver, p: Plan, v: Valuation, c: nat)
    requires WellPosed(ins, s, p) && Fits(v, |p.remaining|, |s.targets|) && c < |s.targets|
  {
    var demand := ins.demands[s.targets[c]];
    var total := Total(ins, s, p, v, c);
    && (s.useMin && demand.min.Some? ==> total >= demand.min.value)
    && (s.useMax && demand.max.Some? ==> total <= demand.max.value)
    && (s.useMax && demand.max.None? ==> total == demand.min.value)
  }

  /** Columns a and b differ by at most d once divided by their weights. A zero
      weight gives no finite ratio, so such a pair is not constrained. */
  ghost predicate CloseTo(ins: Inputs, s: Solver, p: Plan, v: Valuation, a: nat, b: nat)
    requires WellPosed(ins, s, p) && Fits(v, |p.remaining|, |s.targets|)
    requires a < |s.targets| && b < |s.targets|
  {
    var wa := ins.demands[s.targets[a]].weight;
    var wb := ins.demands[s.targets[b]].weight;
    wa > 0 && wb > 0 ==>
      Total(ins, s, p, v, a) / wa as real - Total(ins, s, p, v, b) / wb as real <= v.d
  }

  ghost predicate Feasible(ins: Inputs, s: Solver, p: Plan, v: Valuation)
    requires WellPosed(ins, s, p)
  {
    && Fits(v, |p.remaining|, |s.targets|)
    && (forall r | 0 <= r < |v.y| :: RowBound(s, v.y[r]))
    && (forall c | 0 <= c < |s.targets| :: LoadBound(ins, s, p, v, c))
    && (!s.maximise ==>
          forall a, b | 0 <= a < |s.targets| && 0 <= b < |s.targets| :: CloseTo(ins, s, p, v, a, b))
  }

  /** All ratios of the problem are finite. */
  ghost predicate Finite(ins: Inputs, s: Solver)
    requires Within(s.targets, |ins.demands|)
  {
    !s.maximise ==> forall c | 0 <= c < |s.targets| :: ins.demands[s.targets[c]].weight > 0
  }

  /** What a solver call may do. */
  ghost predicate Step(ins: Inputs, s: Solver, p: Plan, out: Outcome)
    requires WellPosed(ins, s, p)
  {
    match out
    case Served(v, after) =>
      && p.remaining != [] && s.targets != []
      && Feasible(ins, s, p, v)
      && after == StoreRows(ins, p, s.targets, p.remaining, v.y, 0)
    case Stopped =>
      || p.remaining == [] || s.targets == []
      || (Finite(ins, s) ==> forall v :: !Feasible(ins, s, p, v))
    case Failed(_) => p.remaining != [] && s.targets != []
  }

  function After(p: Plan, out: Outcome): Plan {
    if out.Served? then out.after else p
  }

  // ----- what every call keeps

  lemma {:induction false} CountOne(ys: seq<bool>, c: nat)
    requires c <= |ys|
    ensures Count(ys, c) >= 1 <==> Marked(ys, c)
    ensures Count(ys, c) <= 1 ==> OneAtMost(ys, c)
    decreases |ys| - c
  {
    if c < |ys| {
      CountOne(ys, c + 1);
      if Marked(ys, c) && !ys[c] {
        var a :| c <= a < |ys| && ys[a];
        assert Marked(ys, c + 1);
      }
    }
  }

  lemma HeadIsIn(s: seq<nat>)
    ensures s == [] || s[0] in s
  {
  }

  lemma NothingLeft(before: seq<nat>, after: seq<nat>, y: seq<seq<bool>>)
    requires |y| == |before|
    requires forall r | 0 <= r < |y| :: Marked(y[r], 0)
    requires Leaves(before, after, before, y, 0)
    ensures after == []
  {
    HeadIsIn(after);
  }

  /** Every solver call keeps the plan valid, and a call that must use all
      resources leaves none over. */
  lemma StepKeepsPlanValid(ins: Inputs, s: Solver, p: Plan, out: Outcome)
    requires WellPosed(ins, s, p) && ValidPlan(ins, p) && Step(ins, s, p, out)
    ensures ValidPlan(ins, After(p, out))
    ensures out.Served? && s.useAll ==> After(p, out).remaining == []
  {
    if out.Served? {
      var y := out.v.y;
      forall r | 0 <= r < |y|
        ensures OneAtMost(y[r], 0) && (s.useAll ==> Marked(y[r], 0))
      {
        assert RowBound(s, y[r]);
        CountOne(y[r], 0);
      }
      BagDistinct(p.remaining, |ins.bound|);
      StoreRowsInvariant(ins, p, s.targets, p.remaining, y, 0);
      if s.useAll {
        NothingLeft(p.remaining, out.after.remaining, y);
      }
    }
  }

  /** A call changes its targets only: each gains the weight of the rows marked
      for it. */
  lemma StepFills(ins: Inputs, s: Solver, p: Plan, out: Outcome)
    requires WellPosed(ins, s, p) && Step(ins, s, p, out) && out.Served? && Distinct(s.targets)
    ensures forall c | 0 <= c < |s.targets| ::
              out.after.filled[s.targets[c]] ==
              p.filled[s.targets[c]] + Gain(ins.weights, p.remaining, out.v.y, c, 0)
    ensures forall j | 0 <= j < |p.filled| && j !in s.targets ::
              out.after.filled[j] == p.filled[j] && out.after.allotted[j] == p.allotted[j]
  {
    StoreRowsFill(ins, p, s.targets, p.remaining, out.v.y, 0);
  }

  lemma {:induction false} GainVersusLoad(
    ins: Inputs, rows: seq<nat>, targets: seq<nat>, y: seq<seq<bool>>, c: nat, r: nat)
    requires |ins.bound| <= |ins.weights|
    requires Within(rows, |ins.bound|) && Within(targets, |ins.demands|)
    requires |y| == |rows| && Wide(y, |targets|) && c < |targets| && r <= |rows|
    ensures ins.demands[targets[c]].penalty >= 0.0 ==>
              Gain(ins.weights, rows, y, c, r) <= Load(ins, rows, targets, y, c, r)
    ensures ins.demands[targets[c]].penalty <= 0.0 ==>
              Gain(ins.weights, rows, y, c, r) >= Load(ins, rows, targets, y, c, r)
    decreases |rows| - r
  {
    if r < |rows| {
      GainVersusLoad(ins, rows, targets, y, c, r + 1);
    }
  }

  lemma {:induction false} GainIsNonNegative(
    ins: Inputs, rows: seq<nat>, y: seq<seq<bool>>, c: nat, r: nat)
    requires Within(rows, |ins.weights|)
    requires |y| == |rows| && (forall k | 0 <= k < |y| :: c < |y[k]|) && r <= |rows|
    requires forall i | 0 <= i < |ins.weights| :: ins.weights[i] >= 0.0
    ensures Gain(ins.weights, rows, y, c, r) >= 0.0
    decreases |rows| - r
  {
    if r < |rows| {
      GainIsNonNegative(ins, rows, y, c, r + 1);
    }
  }

  /** A served call with `use_max` keeps a target with a non-negative penalty
      at or below its max. */
  lemma ServedBelowMax(ins: Inputs, s: Solver, p: Plan, out: Outcome, c: nat)
    requires WellPosed(ins, s, p) && Step(ins, s, p, out) && out.Served? && Distinct(s.targets)
    requires c < |s.targets| && s.useMax
    requires ins.demands[s.targets[c]].penalty >= 0.0 && ins.demands[s.targets[c]].max.Some?
    ensures out.after.filled[s.targets[c]] <= ins.demands[s.targets[c]].max.value
  {
    StepFills(ins, s, p, out);
    GainVersusLoad(ins, p.remaining, s.targets, out.v.y, c, 0);
    assert LoadBound(ins, s, p, out.v, c);
  }

  /** A served call with `use_min` lifts a target with a non-positive penalty
      to its min. */
  lemma ServedAboveMin(ins: Inputs, s: Solver, p: Plan, out: Outcome, c: nat)
    requires WellPosed(ins, s, p) && Step(ins, s, p, out) && out.Served? && Distinct(s.targets)
    requires c < |s.targets| && s.useMin
    requires ins.demands[s.targets[c]].penalty <= 0.0 && ins.demands[s.targets[c]].min.Some?
    ensures out.after.filled[s.targets[c]] >= ins.demands[s.targets[c]].min.value
  {
    StepFills(ins, s, p, out);
    GainVersusLoad(ins, p.remaining, s.targets, out.v.y, c, 0);
    assert LoadBound(ins, s, p, out.v, c);
  }

  ghost predicate NonNegativeWeights(ins: Inputs) {
    forall i | 0 <= i < |ins.weights| :: ins.weights[i] >= 0.0
  }

  lemma {:induction false} WeightSumIsNonNegative(weights: seq<real>, indices: seq<nat>)
    requires Within(indices, |weights|) && forall i | 0 <= i < |weights| :: weights[i] >= 0.0
    ensures WeightSum(weights, indices) >= 0.0
  {
    if indices != [] {
      WeightSumIsNonNegative(weights, indices[..|indices| - 1]);
    }
  }

  /** The load a bounded call allows an item with a min: its max, or exactly its
      min when it has no max. */
  function Cap(d: Resource): real
    requires d.min.Some?
  {
    if d.max.Some? then d.max.value else d.min.value
  }

  /** The penalty never counts towards the min: there is none, the min asks for
      nothing, or one penalty alone breaks the cap. A min above the cap is never
      served. */
  predicate MinIsSafe(d: Resource)
    requires d.min.Some?
  {
    d.penalty <= 0.0 || d.min.value <= 0.0 || d.penalty > Cap(d) || d.min.value > Cap(d)
  }

  /** A load is either the gained weight or contains a whole penalty. */
  lemma {:induction false} LoadIsGainOrPenalty(
    ins: Inputs, rows: seq<nat>, targets: seq<nat>, y: seq<seq<bool>>, c: nat, r: nat)
    requires |ins.bound| <= |ins.weights| && NonNegativeWeights(ins)
    requires Within(rows, |ins.bound|) && Within(targets, |ins.demands|)
    requires |y| == |rows| && Wide(y, |targets|) && c < |targets| && r <= |rows|
    requires ins.demands[targets[c]].penalty >= 0.0
    ensures var load := Load(ins, rows, targets, y, c, r);
            load >= 0.0 && (load == Gain(ins.weights, rows, y, c, r) || load >= ins.demands[targets[c]].penalty)
    decreases |rows| - r
  {
    if r < |rows| {
      LoadIsGainOrPenalty(ins, rows, targets, y, c, r + 1);
    }
  }

  /** A served bounded call lifts a target with a safe min to its min. */
  lemma ServedSafeMin(ins: Inputs, s: Solver, p: Plan, out: Outcome, c: nat)
    requires WellPosed(ins, s, p) && Step(ins, s, p, out) && out.Served? && Distinct(s.targets)
    requires NonNegativeWeights(ins)
    requires c < |s.targets| && s.useMin && s.useMax && p.filled[s.targets[c]] >= 0.0
    requires ins.demands[s.targets[c]].min.Some? && MinIsSafe(ins.demands[s.targets[c]])
    ensures out.after.filled[s.targets[c]] >= ins.demands[s.targets[c]].min.value
  {
    if ins.demands[s.targets[c]].penalty <= 0.0 {
      ServedAboveMin(ins, s, p, out, c);
    } else {
      StepFills(ins, s, p, out);
      GainIsNonNegative(ins, p.remaining, out.v.y, c, 0);
      LoadIsGainOrPenalty(ins, p.remaining, s.targets, out.v.y, c, 0);
      assert LoadBound(ins, s, p, out.v, c);
    }
  }

  /** Nothing can lift the item above its max: moving a resource to it earns no negative
      penalty, or no bounded call can serve it. */
  predicate MaxIsSafe(d: Resource)
    requires d.max.Some?
  {
    d.penalty >= 0.0 || (d.min.Some? && d.min.value > d.max.value)
  }

  /** A served bounded call leaves a target with a safe max at or below its max. */
  lemma ServedSafeMax(ins: Inputs, s: Solver, p: Plan, out: Outcome, c: nat)
    requires WellPosed(ins, s, p) && Step(ins, s, p, out) && out.Served? && Distinct(s.targets)
    requires c < |s.targets| && s.useMin && s.useMax
    requires ins.demands[s.targets[c]].max.Some? && MaxIsSafe(ins.demands[s.targets[c]])
    ensures out.after.filled[s.targets[c]] <= ins.demands[s.targets[c]].max.value
  {
    assert LoadBound(ins, s, p, out.v, c);
    if ins.demands[s.targets[c]].penalty >= 0.0 {
      ServedBelowMax(ins, s, p, out, c);
    }
  }

  /** With non-negative weights no call takes weight away from an item. */
  lemma StepNeverDrains(ins: Inputs, s: Solver, p: Plan, out: Outcome, j: nat)
    requires WellPosed(ins, s, p) && Step(ins, s, p, out) && Distinct(s.targets)
    requires NonNegativeWeights(ins)
    requires j < |p.filled|
    ensures |After(p, out).filled| == |p.filled|
    ensures After(p, out).filled[j] >= p.filled[j]
  {
    if out.Served? {
      StepFills(ins, s, p, out);
      if j in s.targets {
        var c :| 0 <= c < |s.targets| && s.targets[c] == j;
        GainIsNonNegative(ins, p.remaining, out.v.y, c, 0);
      }
    }
  }

  // ----- the best-effort problem always has a solution

  /** Give every resource to the first target. */
  function AllToFirst(rows: nat, cols: nat): (y: seq<seq<bool>>)
    requires cols > 0
    ensures |y| == rows && Wide(y, cols)
  {
    seq(rows, _ => seq(cols, c => c == 0))
  }

  function AbsSum(xs: seq<real>): (b: real)
    ensures b >= 0.0
  {
    if xs == [] then 0.0
    else AbsSum(xs[..|xs| - 1]) + if xs[|xs| - 1] >= 0.0 then xs[|xs| - 1] else -xs[|xs| - 1]
  }

  lemma {:induction false} AbsSumBounds(xs: seq<real>, k: nat)
    requires k < |xs|
    ensures -AbsSum(xs) <= xs[k] <= AbsSum(xs)
  {
    if k < |xs| - 1 {
      AbsSumBounds(xs[..|xs| - 1], k);
    }
  }

  lemma {:induction false} FirstCountsOne(ys: seq<bool>, c: nat)
    requires 0 < |ys| && c <= |ys| && forall k | 0 <= k < |ys| :: ys[k] == (k == 0)
    ensures Count(ys, c) == if c == 0 then 1 else 0
    decreases |ys| - c
  {
    if c < |ys| {
      FirstCountsOne(ys, c + 1);
    }
  }

  /** The best-effort problem has a feasible assignment: everything goes to the
      first target and the deviation variable is taken large enough. */
  lemma BestEffortIsFeasible(ins: Inputs, s: Solver, p: Plan)
    requires WellPosed(ins, s, p) && s.targets != []
    requires s.useAll && !s.useMax && !s.useMin
    requires forall c | 0 <= c < |s.targets| :: ins.demands[s.targets[c]].weight > 0
    ensures exists v :: Feasible(ins, s, p, v)
  {
    var n := |s.targets|;
    var y := AllToFirst(|p.remaining|, n);
    var v0 := Valuation(y, 0.0);
    var ratios := seq(n, c requires 0 <= c < n => Total(ins, s, p, v0, c) / ins.demands[s.targets[c]].weight as real);
    var v := Valuation(y, 2.0 * AbsSum(ratios));
    forall r | 0 <= r < |v.y|
      ensures RowBound(s, v.y[r])
    {
      FirstCountsOne(v.y[r], 0);
    }
    forall a, b | 0 <= a < n && 0 <= b < n
      ensures CloseTo(ins, s, p, v, a, b)
    {
      AbsSumBounds(ratios, a);
      AbsSumBounds(ratios, b);
      assert Total(ins, s, p, v, a) == Total(ins, s, p, v0, a);
      assert Total(ins, s, p, v, b) == Total(ins, s, p, v0, b);
    }
    assert Feasible(ins, s, p, v);
  }
}
