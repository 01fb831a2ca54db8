/** The Spectrum scheduler's solver: it writes a solver call down as linear
    constraints over expressions, asks an outside optimiser, and stores the
    answer. The optimiser may return any feasible point, may say that there is
    none only when there is none, and may fail at any time. */
module SchedulerMilp {
  import opened Wrappers
  import opened SchedulerPlan
  import opened SchedulerStep

  /** An affine expression over the binary matrix y and the deviation d. */
  datatype Expr =
    | Const(value: real)
    | Y(row: nat, col: nat)
    | D
    | Add(left: Expr, right: Expr)
    | Sub(left: Expr, right: Expr)
    | Scale(factor: real, expr: Expr)
    | Div(expr: Expr, divisor: nat)

  datatype Relation = AtMost | AtLeast | Equal

  datatype Constraint = Constraint(lhs: Expr, rel: Relation, rhs: Expr)

  datatype Problem = Problem(rows: nat, cols: nat, maximise: bool, objective: Expr, constraints: seq<Constraint>)

  datatype Answer = Solution(v: Valuation) | Infeasible | Failure(error: ResolutionError)

  /** The optimiser; the number tells repeated calls apart. */
  type Oracle = (nat, Problem) -> Answer

  function Eval(e: Expr, v: Valuation): real {
    match e
    case Const(value) => value
    case Y(row, col) => if row < |v.y| && col < |v.y[row]| && v.y[row][col] then 1.0 else 0.0
    case D => v.d
    case Add(l, r) => Eval(l, v) + Eval(r, v)
    case Sub(l, r) => Eval(l, v) - Eval(r, v)
    case Scale(k, x) => k * Eval(x, v)
    case Div(x, w) => if w == 0 then 0.0 else Eval(x, v) / w as real
  }

  /** No division by zero occurs. */
  predicate Defined(e: Expr) {
    match e
    case Const(_) => true
    case Y(_, _) => true
    case D => true
    case Add(l, r) => Defined(l) && Defined(r)
    case Sub(l, r) => Defined(l) && Defined(r)
    case Scale(_, x) => Defined(x)
    case Div(x, w) => w != 0 && Defined(x)
  }

  predicate Holds(c: Constraint, v: Valuation) {
    match c.rel
    case AtMost => Eval(c.lhs, v) <= Eval(c.rhs, v)
    case AtLeast => Eval(c.lhs, v) >= Eval(c.rhs, v)
    case Equal => Eval(c.lhs, v) == Eval(c.rhs, v)
  }

  predicate IsDefined(c: Constraint) {
    Defined(c.lhs) && Defined(c.rhs)
  }

  ghost predicate AllHold(cs: seq<Constraint>, v: Valuation) {
    forall k | 0 <= k < |cs| :: IsDefined(cs[k]) ==> Holds(cs[k], v)
  }

  ghost predicate AllDefined(cs: seq<Constraint>) {
    forall k | 0 <= k < |cs| :: IsDefined(cs[k])
  }

  ghost predicate IsHonest(pb: Problem, a: Answer) {
    match a
    case Solution(v) => Fits(v, pb.rows, pb.cols) && AllHold(pb.constraints, v)
    case Infeasible =>
      AllDefined(pb.constraints) ==>
        forall v :: Fits(v, pb.rows, pb.cols) ==> !AllHold(pb.constraints, v)
    case Failure(_) => true
  }

  ghost predicate Honest(oracle: Oracle) {
    forall k, pb :: IsHonest(pb, oracle(k, pb))
  }

  /** `load[c]` denotes the load on column c at every valuation. */
  ghost predicate Denotes(ins: Inputs, rows: seq<nat>, targets: seq<nat>, load: seq<Expr>)
    requires |ins.bound| <= |ins.weights|
    requires Within(rows, |ins.bound|) && Within(targets, |ins.demands|)
  {
    && |load| == |targets|
    && (forall c | 0 <= c < |load| :: Defined(load[c]))
    && forall v: Valuation, c | Fits(v, |rows|, |targets|) && 0 <= c < |load| ::
         Eval(load[c], v) == Load(ins, rows, targets, v.y, c, 0)
  }

  lemma ScaledBit(k: real, bit: bool)
    ensures k * (if bit then 1.0 else 0.0) == if bit then k else 0.0
  {
    if bit {
      assert k * 1.0 == k;
    } else {
      assert k * 0.0 == 0.0;
    }
  }

  /** Sum up the load expressions row by row and column by column. */
  method BuildLoads(ins: Inputs, rows: seq<nat>, targets: seq<nat>) returns (load: seq<Expr>)
    requires |ins.bound| <= |ins.weights|
    requires Within(rows, |ins.bound|) && Within(targets, |ins.demands|)
    ensures Denotes(ins, rows, targets, load)
  {
    load := seq(|targets|, _ => Const(0.0));
    for r := 0 to |rows|
      invariant |load| == |targets|
      invariant forall c | 0 <= c < |load| :: Defined(load[c])
      invariant forall v: Valuation, c | Fits(v, |rows|, |targets|) && 0 <= c < |load| ::
                  Eval(load[c], v) + Load(ins, rows, targets, v.y, c, r) == Load(ins, rows, targets, v.y, c, 0)
    {
      for col := 0 to |targets|
        invariant |load| == |targets|
        invariant forall c | 0 <= c < |load| :: Defined(load[c])
        invariant forall v: Valuation, c | Fits(v, |rows|, |targets|) && 0 <= c < |load| ::
                    Eval(load[c], v) + Load(ins, rows, targets, v.y, c, if c < col then r + 1 else r)
                    == Load(ins, rows, targets, v.y, c, 0)
      {
        var cost := Cost(ins, rows[r], targets[col]);
        var next := Add(load[col], Scale(cost, Y(r, col)));
        forall v: Valuation | Fits(v, |rows|, |targets|)
          ensures Eval(next, v) == Eval(load[col], v) + if v.y[r][col] then cost else 0.0
        {
          ScaledBit(cost, v.y[r][col]);
          assert Eval(Scale(cost, Y(r, col)), v) == cost * Eval(Y(r, col), v);
        }
        assert Defined(Scale(cost, Y(r, col)));
        assert Defined(next);
        load := load[col := next];
      }
    }
  }

  lemma AllHoldConcat(a: seq<Constraint>, b: seq<Constraint>)
    ensures AllDefined(a + b) <==> AllDefined(a) && AllDefined(b)
    ensures forall v :: AllHold(a + b, v) <==> AllHold(a, v) && AllHold(b, v)
  {
    forall k | 0 <= k < |b|
      ensures (a + b)[|a| + k] == b[k]
    {
    }
    forall v
      ensures AllHold(a + b, v) <==> AllHold(a, v) && AllHold(b, v)
    {
      if AllHold(a + b, v) {
        forall k | 0 <= k < |a| ensures IsDefined(a[k]) ==> Holds(a[k], v) {
          assert (a + b)[k] == a[k];
        }
        forall k | 0 <= k < |b| ensures IsDefined(b[k]) ==> Holds(b[k], v) {
          assert (a + b)[|a| + k] == b[k];
        }
      }
    }
    if AllDefined(a + b) {
      forall k | 0 <= k < |a| ensures IsDefined(a[k]) {
        assert (a + b)[k] == a[k];
      }
      forall k | 0 <= k < |b| ensures IsDefined(b[k]) {
        assert (a + b)[|a| + k] == b[k];
      }
    }
  }

  lemma AllHoldSingle(c: Constraint)
    ensures AllDefined([c]) <==> IsDefined(c)
    ensures forall v :: AllHold([c], v) <==> (IsDefined(c) ==> Holds(c, v))
  {
    assert [c][0] == c;
    forall v
      ensures AllHold([c], v) <==> (IsDefined(c) ==> Holds(c, v))
    {
      assert AllHold([c], v) <==> (IsDefined([c][0]) ==> Holds([c][0], v));
    }
  }

  /** The sum of one row's variables. */
  method RowSum(r: nat, cols: nat) returns (sum: Expr)
    ensures Defined(sum)
    ensures forall v, rows | r < rows && Fits(v, rows, cols) :: Eval(sum, v) == Count(v.y[r], 0) as real
  {
    sum := Const(0.0);
    for col := 0 to cols
      invariant Defined(sum)
      invariant forall v, rows | r < rows && Fits(v, rows, cols) ::
                  Eval(sum, v) + Count(v.y[r], col) as real == Count(v.y[r], 0) as real
    {
      sum := Add(sum, Y(r, col));
    }
  }

  /** (a) Bind each resource to one target, or to at most one. */
  method BindRows(s: Solver, rows: nat) returns (cs: seq<Constraint>)
    ensures AllDefined(cs)
    ensures forall v | Fits(v, rows, |s.targets|) ::
              AllHold(cs, v) <==> forall k | 0 <= k < rows :: RowBound(s, v.y[k])
  {
    cs := [];
    for r := 0 to rows
      invariant AllDefined(cs)
      invariant forall v | Fits(v, rows, |s.targets|) ::
                  AllHold(cs, v) <==> forall k | 0 <= k < r :: RowBound(s, v.y[k])
    {
      var sum := RowSum(r, |s.targets|);
      var c := Constraint(sum, if s.useAll then Equal else AtMost, Const(1.0));
      AllHoldConcat(cs, [c]);
      AllHoldSingle(c);
      cs := cs + [c];
    }
  }

  /** (b) The min and max constraints of one column. */
  method BoundColumn(ins: Inputs, s: Solver, p: Plan, load: seq<Expr>, c: nat) returns (cs: seq<Constraint>)
    requires WellPosed(ins, s, p) && Denotes(ins, p.remaining, s.targets, load) && c < |s.targets|
    ensures AllDefined(cs)
    ensures forall v | Fits(v, |p.remaining|, |s.targets|) ::
              AllHold(cs, v) <==> LoadBound(ins, s, p, v, c)
  {
    var demand := ins.demands[s.targets[c]];
    var total := Add(Const(p.filled[s.targets[c]]), load[c]);
    assert forall v | Fits(v, |p.remaining|, |s.targets|) :: Eval(total, v) == Total(ins, s, p, v, c);
    assert Defined(Const(p.filled[s.targets[c]])) && Defined(total);
    cs := [];
    if s.useMin && demand.min.Some? {
      var lower := Constraint(total, AtLeast, Const(demand.min.value));
      AllHoldSingle(lower);
      assert IsDefined(lower);
      cs := [lower];
    }
    assert forall v | Fits(v, |p.remaining|, |s.targets|) ::
        AllHold(cs, v) <==> (s.useMin && demand.min.Some? ==> Total(ins, s, p, v, c) >= demand.min.value);
    if s.useMax {
      var upper := if demand.max.Some? then Constraint(total, AtMost, Const(demand.max.value))
                   else Constraint(total, Equal, Const(demand.min.value));
      AllHoldConcat(cs, [upper]);
      AllHoldSingle(upper);
      assert IsDefined(upper);
      cs := cs + [upper];
    }
  }

  method BoundLoads(ins: Inputs, s: Solver, p: Plan, load: seq<Expr>) returns (cs: seq<Constraint>)
    requires WellPosed(ins, s, p) && Denotes(ins, p.remaining, s.targets, load)
    ensures AllDefined(cs)
    ensures forall v | Fits(v, |p.remaining|, |s.targets|) ::
              AllHold(cs, v) <==> forall c | 0 <= c < |s.targets| :: LoadBound(ins, s, p, v, c)
  {
    cs := [];
    if s.useMin || s.useMax {
      for c := 0 to |s.targets|
        invariant AllDefined(cs)
        invariant forall v | Fits(v, |p.remaining|, |s.targets|) ::
                    AllHold(cs, v) <==> forall k | 0 <= k < c :: LoadBound(ins, s, p, v, k)
      {
        var column := BoundColumn(ins, s, p, load, c);
        AllHoldConcat(cs, column);
        cs := cs + column;
      }
    }
  }

  /** The ratio of one column to its weight. */
  function Ratio(ins: Inputs, s: Solver, p: Plan, load: seq<Expr>, c: nat): Expr
    requires Within(s.targets, |ins.demands|) && Within(s.targets, |p.filled|)
    requires c < |s.targets| == |load|
  {
    Div(Add(Const(p.filled[s.targets[c]]), load[c]), ins.demands[s.targets[c]].weight)
  }

  /** Column a exceeds column b by at most the deviation. */
  function Spread(ins: Inputs, s: Solver, p: Plan, load: seq<Expr>, a: nat, b: nat): Constraint
    requires Within(s.targets, |ins.demands|) && Within(s.targets, |p.filled|)
    requires a < |s.targets| == |load| && b < |s.targets|
  {
    Constraint(Sub(Ratio(ins, s, p, load, a), Ratio(ins, s, p, load, b)), AtMost, D)
  }

  lemma RatioMeaning(ins: Inputs, s: Solver, p: Plan, load: seq<Expr>, c: nat)
    requires WellPosed(ins, s, p) && Denotes(ins, p.remaining, s.targets, load) && c < |s.targets|
    ensures var w := ins.demands[s.targets[c]].weight;
            && (Defined(Ratio(ins, s, p, load, c)) <==> w > 0)
            && forall v | Fits(v, |p.remaining|, |s.targets|) && w > 0 ::
                 Eval(Ratio(ins, s, p, load, c), v) == Total(ins, s, p, v, c) / w as real
  {
    var sum := Add(Const(p.filled[s.targets[c]]), load[c]);
    assert Defined(Const(p.filled[s.targets[c]])) && Defined(sum);
    assert forall v | Fits(v, |p.remaining|, |s.targets|) :: Eval(sum, v) == Total(ins, s, p, v, c);
  }

  lemma SpreadMeansClose(ins: Inputs, s: Solver, p: Plan, load: seq<Expr>, a: nat, b: nat)
    requires WellPosed(ins, s, p) && Denotes(ins, p.remaining, s.targets, load)
    requires a < |s.targets| && b < |s.targets|
    ensures var c := Spread(ins, s, p, load, a, b);
            && (Finite(ins, s) && !s.maximise ==> AllDefined([c]))
            && forall v | Fits(v, |p.remaining|, |s.targets|) ::
                 AllHold([c], v) <==> CloseTo(ins, s, p, v, a, b)
  {
    var ra, rb := Ratio(ins, s, p, load, a), Ratio(ins, s, p, load, b);
    RatioMeaning(ins, s, p, load, a);
    RatioMeaning(ins, s, p, load, b);
    AllHoldSingle(Spread(ins, s, p, load, a, b));
    assert Defined(Sub(ra, rb)) <==> Defined(ra) && Defined(rb);
  }

  /** (c) Both differences of every pair stay within the deviation. */
  method SpreadLoads(ins: Inputs, s: Solver, p: Plan, load: seq<Expr>) returns (cs: seq<Constraint>)
    requires WellPosed(ins, s, p) && Denotes(ins, p.remaining, s.targets, load) && !s.maximise
    ensures Finite(ins, s) ==> AllDefined(cs)
    ensures forall v | Fits(v, |p.remaining|, |s.targets|) ::
              AllHold(cs, v) <==>
              forall a, b | 0 <= a < |s.targets| && 0 <= b < |s.targets| :: CloseTo(ins, s, p, v, a, b)
  {
    var n := |s.targets|;
    cs := [];
    for j1 := 0 to n
      invariant Finite(ins, s) ==> AllDefined(cs)
      invariant forall v | Fits(v, |p.remaining|, n) ::
                  AllHold(cs, v) <==>
                  forall a, b | 0 <= a < j1 && 0 <= b < n ::
                    CloseTo(ins, s, p, v, a, b) && CloseTo(ins, s, p, v, b, a)
    {
      for j2 := 0 to n
        invariant Finite(ins, s) ==> AllDefined(cs)
        invariant forall v | Fits(v, |p.remaining|, n) ::
                    AllHold(cs, v) <==>
                    && (forall a, b | 0 <= a < j1 && 0 <= b < n ::
                          CloseTo(ins, s, p, v, a, b) && CloseTo(ins, s, p, v, b, a))
                    && (forall b | 0 <= b < j2 ::
                          CloseTo(ins, s, p, v, j1, b) && CloseTo(ins, s, p, v, b, j1))
      {
        var over := Spread(ins, s, p, load, j1, j2);
        var under := Spread(ins, s, p, load, j2, j1);
        SpreadMeansClose(ins, s, p, load, j1, j2);
        SpreadMeansClose(ins, s, p, load, j2, j1);
        AllHoldConcat([over], [under]);
        AllHoldConcat(cs, [over] + [under]);
        cs := cs + ([over] + [under]);
      }
    }
  }

  /** The load put on the first n targets together. */
  function LoadSum(ins: Inputs, rows: seq<nat>, targets: seq<nat>, y: seq<seq<bool>>, n: nat): real
    requires |ins.bound| <= |ins.weights|
    requires Within(rows, |ins.bound|) && Within(targets, |ins.demands|)
    requires |y| == |rows| && Wide(y, |targets|) && n <= |targets|
  {
    if n == 0 then 0.0 else LoadSum(ins, rows, targets, y, n - 1) + Load(ins, rows, targets, y, n - 1, 0)
  }

  /** The whole constraint list says exactly that the valuation is feasible, and the
      objective is the sum of the loads or the deviation. */
  method BuildProblem(ins: Inputs, s: Solver, p: Plan) returns (pb: Problem)
    requires WellPosed(ins, s, p)
    ensures pb.rows == |p.remaining| && pb.cols == |s.targets|
    ensures Finite(ins, s) ==> AllDefined(pb.constraints)
    ensures forall v | Fits(v, pb.rows, pb.cols) ::
              AllHold(pb.constraints, v) <==> Feasible(ins, s, p, v)
    ensures pb.maximise == s.maximise && Defined(pb.objective)
    ensures forall v | Fits(v, pb.rows, pb.cols) ::
              Eval(pb.objective, v) ==
              if s.maximise then LoadSum(ins, p.remaining, s.targets, v.y, |s.targets|) else v.d
  {
    var load := BuildLoads(ins, p.remaining, s.targets);
    var binding := BindRows(s, |p.remaining|);
    var bounds := BoundLoads(ins, s, p, load);
    AllHoldConcat(binding, bounds);
    var cs := binding + bounds;
    var objective := Const(0.0);
    if s.maximise {
      for c := 0 to |s.targets|
        invariant Defined(objective)
        invariant forall v | Fits(v, |p.remaining|, |s.targets|) ::
                    Eval(objective, v) == LoadSum(ins, p.remaining, s.targets, v.y, c)
      {
        objective := Add(objective, load[c]);
      }
    } else {
      var spread := SpreadLoads(ins, s, p, load);
      AllHoldConcat(cs, spread);
      cs := cs + spread;
      objective := D;
    }
    pb := Problem(|p.remaining|, |s.targets|, s.maximise, objective, cs);
  }

  /** The scheduler's mutable state. */
  class State {
    const ins: Inputs
    var allotted: seq<seq<nat>>
    var filled: seq<real>
    var remaining: seq<nat>

    constructor (ins: Inputs)
      ensures this.ins == ins && Current() == Empty(|ins.demands|)
    {
      this.ins := ins;
      allotted := seq(|ins.demands|, _ => []);
      filled := seq(|ins.demands|, _ => 0.0);
      remaining := [];
    }

    function Current(): Plan
      reads this
    {
      Plan(allotted, filled, remaining)
    }

    /** Keep locked resources with their claim and free all others. */
    method PrefillLocked()
      requires ins.Valid() && Current() == Empty(|ins.demands|)
      modifies this
      ensures Current() == Prefill(ins, |ins.bound|)
    {
      for i := 0 to |ins.bound|
        invariant Current() == Prefill(ins, i)
      {
        var last := ins.bound[i];
        if last.claim.Some? && last.state.Preparing? {
          var j := last.claim.value;
          allotted := allotted[j := allotted[j] + [i]];
          filled := filled[j := filled[j] + ins.weights[i]];
        } else {
          remaining := remaining + [i];
        }
      }
    }

    /** Store a solution's marks. */
    method Store(targets: seq<nat>, y: seq<seq<bool>>)
      requires ins.Valid() && Shaped(ins, Current()) && Within(targets, |ins.demands|)
      requires |y| == |remaining| && Wide(y, |targets|)
      modifies this
      ensures Current() == StoreRows(ins, old(Current()), targets, old(remaining), y, 0)
    {
      var rows := remaining;
      ghost var goal := StoreRows(ins, Current(), targets, rows, y, 0);
      for r := 0 to |rows|
        invariant |allotted| == |filled| == |ins.demands|
        invariant StoreRows(ins, Current(), targets, rows, y, r) == goal
      {
        var i := rows[r];
        for col := 0 to |targets|
          invariant |allotted| == |filled| == |ins.demands|
          invariant StoreRows(ins, StoreRow(ins, Current(), targets, i, y[r], col), targets, rows, y, r + 1) == goal
        {
          if y[r][col] {
            var j := targets[col];
            allotted := allotted[j := allotted[j] + [i]];
            filled := filled[j := filled[j] + ins.weights[i]];
            remaining := Remove(remaining, i);
          }
        }
      }
    }

    /** One solver call. The outcome is one that `Step` allows for the state it
        started in, whatever the optimiser answered. */
    method Solve(s: Solver, oracle: Oracle, attempt: nat)
      returns (r: Result<bool, ResolutionError>, ghost out: Outcome)
      requires WellPosed(ins, s, Current()) && Honest(oracle)
      modifies this
      ensures Step(ins, s, old(Current()), out)
      ensures Current() == After(old(Current()), out)
      ensures r == match out
                   case Served(_, _) => Ok(true)
                   case Stopped => Ok(false)
                   case Failed(e) => Err(e)
    {
      if |remaining| == 0 || |s.targets| == 0 {
        return Ok(false), Stopped;
      }
      var pb := BuildProblem(ins, s, Current());
      var answer := oracle(attempt, pb);
      assert IsHonest(pb, answer);
      match answer {
        case Solution(v) =>
          ghost var before := Current();
          Store(s.targets, v.y);
          return Ok(true), Served(v, StoreRows(ins, before, s.targets, before.remaining, v.y, 0));
        case Infeasible =>
          return Ok(false), Stopped;
        case Failure(e) =>
          return Err(e), Failed(e);
      }
    }
  }
}
