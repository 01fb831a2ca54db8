/** The Spectrum scheduler's bookkeeping on values: what a plan is, how one
    resource is handed to one item, and what every such hand-over keeps.
    Weights are exact reals. */
module SchedulerPlan {
  import opened Wrappers

  /** The demand of one claim. */
  datatype Resource = Resource(
    penalty: real,
    priority: int,
    min: Option<real>,
    max: Option<real>,
    weight: nat)

  datatype CommitState = Pending | Preparing | Running

  /** Where a resource was bound before this round. */
  datatype PoolResource = PoolResource(claim: Option<nat>, state: CommitState)

  predicate IsLocked(b: PoolResource) {
    b.claim.Some? && b.state.Preparing?
  }

  /** Everything a round of scheduling only reads. */
  datatype Inputs = Inputs(demands: seq<Resource>, bound: seq<PoolResource>, weights: seq<real>) {
    /** What the scheduler needs in order not to index out of range. */
    ghost predicate Valid() {
      && |bound| <= |weights|
      && forall i | 0 <= i < |bound| :: IsLocked(bound[i]) ==> bound[i].claim.value < |demands|
    }
  }

  /** Everything a round of scheduling changes. `remaining` is the ascending
      content of the free set. */
  datatype Plan = Plan(allotted: seq<seq<nat>>, filled: seq<real>, remaining: seq<nat>)

  /** Every entry of a list of indices is below n. */
  predicate Within(s: seq<nat>, n: nat) {
    forall k | 0 <= k < |s| :: s[k] < n
  }

  function WeightSum(weights: seq<real>, indices: seq<nat>): real
    requires Within(indices, |weights|)
  {
    if indices == [] then 0.0
    else WeightSum(weights, indices[..|indices| - 1]) + weights[indices[|indices| - 1]]
  }

  /** The resources locked to item j, in index order, among the first n. */
  function Locked(bound: seq<PoolResource>, j: nat, n: nat): (s: seq<nat>)
    requires n <= |bound|
    ensures Within(s, n)
  {
    if n == 0 then []
    else
      Locked(bound, j, n - 1)
      + (if IsLocked(bound[n - 1]) && bound[n - 1].claim.value == j then [n - 1] else [])
  }

  /** All indices handed out, with multiplicity. */
  ghost function Bag(allotted: seq<seq<nat>>): multiset<nat> {
    if allotted == [] then multiset{}
    else multiset(allotted[0]) + Bag(allotted[1..])
  }

  ghost function Below(n: nat): (s: set<nat>)
    ensures forall i: nat :: i in s <==> i < n
  {
    if n == 0 then {} else Below(n - 1) + {n - 1}
  }

  lemma {:induction false} BagPush(allotted: seq<seq<nat>>, j: nat, i: nat)
    requires j < |allotted|
    ensures Bag(allotted[j := allotted[j] + [i]]) == Bag(allotted) + multiset{i}
  {
    var pushed := allotted[j := allotted[j] + [i]];
    if j == 0 {
      assert pushed[1..] == allotted[1..];
    } else {
      assert pushed[1..] == allotted[1..][j - 1 := allotted[1..][j - 1] + [i]];
      BagPush(allotted[1..], j - 1, i);
    }
  }

  lemma {:induction false} BagHas(allotted: seq<seq<nat>>, j: nat)
    requires j < |allotted|
    ensures multiset(allotted[j]) <= Bag(allotted)
  {
    if j > 0 {
      BagHas(allotted[1..], j - 1);
      assert allotted[1..][j - 1] == allotted[j];
    }
  }

  lemma {:induction false} BagOfTwo(allotted: seq<seq<nat>>, j: nat, k: nat)
    requires j < k < |allotted|
    ensures multiset(allotted[j]) + multiset(allotted[k]) <= Bag(allotted)
  {
    if j > 0 {
      BagOfTwo(allotted[1..], j - 1, k - 1);
      assert allotted[1..][j - 1] == allotted[j] && allotted[1..][k - 1] == allotted[k];
    } else {
      BagHas(allotted[1..], k - 1);
      assert allotted[1..][k - 1] == allotted[k];
    }
  }

  lemma {:induction false} BagFinds(allotted: seq<seq<nat>>, i: nat) returns (j: nat)
    requires i in Bag(allotted)
    ensures j < |allotted| && i in allotted[j]
  {
    if i in multiset(allotted[0]) {
      assert i in allotted[0];
      j := 0;
    } else {
      var j' := BagFinds(allotted[1..], i);
      j := j' + 1;
    }
  }

  // ----- the invariant of every plan

  /** The plan's lists line up with the items and stay inside the inputs. */
  ghost predicate Shaped(ins: Inputs, p: Plan) {
    && |p.allotted| == |p.filled| == |ins.demands|
    && (forall j | 0 <= j < |p.allotted| :: Within(p.allotted[j], |ins.bound|))
    && Within(p.remaining, |ins.bound|)
  }

  /** No index is lost and none is held twice. */
  ghost predicate Conserved(n: nat, p: Plan) {
    Bag(p.allotted) + multiset(p.remaining) == multiset(Below(n))
  }

  /** `filled` is the weight each item holds. */
  ghost predicate Weighed(ins: Inputs, p: Plan)
    requires ins.Valid() && Shaped(ins, p)
  {
    forall j | 0 <= j < |p.filled| :: p.filled[j] == WeightSum(ins.weights, p.allotted[j])
  }

  /** Each item's list starts with its locked resources. */
  ghost predicate LockedKept(ins: Inputs, p: Plan) {
    forall j | 0 <= j < |p.allotted| :: Locked(ins.bound, j, |ins.bound|) <= p.allotted[j]
  }

  ghost predicate ValidPlan(ins: Inputs, p: Plan)
    requires ins.Valid()
  {
    && Shaped(ins, p)
    && Conserved(|ins.bound|, p)
    && Weighed(ins, p)
    && LockedKept(ins, p)
  }

  ghost predicate Distinct(s: seq<nat>) {
    forall a, b | 0 <= a < b < |s| :: s[a] != s[b]
  }

  /** No index is out of range and none occurs twice. */
  ghost predicate Apart(lists: seq<seq<nat>>, n: nat) {
    && (forall j | 0 <= j < |lists| :: Within(lists[j], n) && Distinct(lists[j]))
    && (forall j, k, m | 0 <= j < k < |lists| && 0 <= m < |lists[k]| :: lists[k][m] !in lists[j])
  }

  /** What conservation means index by index: each one has exactly one place. */
  ghost predicate PlacedOnce(n: nat, p: Plan) {
    && (forall i: nat | i < n ::
          i in p.remaining || exists j :: 0 <= j < |p.allotted| && i in p.allotted[j])
    && Apart(p.allotted, n)
    && (forall j, m | 0 <= j < |p.allotted| && 0 <= m < |p.allotted[j]| :: p.allotted[j][m] !in p.remaining)
    && Within(p.remaining, n) && Distinct(p.remaining)
  }

  lemma BagDistinct(s: seq<nat>, n: nat)
    requires multiset(s) <= multiset(Below(n))
    ensures Distinct(s)
  {
    forall a, b | 0 <= a < b < |s|
      ensures s[a] != s[b]
    {
      assert multiset(s)[s[b]] <= 1;
      assert s == s[..b] + [s[b]] + s[b + 1..];
      assert multiset(s) == multiset(s[..b]) + multiset{s[b]} + multiset(s[b + 1..]);
      assert s[a] in multiset(s[..b]);
    }
  }

  /** Each index has multiplicity one inside the bound and none outside. */
  lemma ConservedCounts(n: nat, p: Plan, i: nat)
    requires Conserved(n, p)
    ensures Bag(p.allotted)[i] + multiset(p.remaining)[i] == if i < n then 1 else 0
  {
    var free: multiset<nat> := multiset(p.remaining);
    assert (Bag(p.allotted) + free)[i] == Bag(p.allotted)[i] + free[i];
  }

  lemma ConservedCovers(n: nat, p: Plan, i: nat)
    requires Conserved(n, p) && i < n
    ensures i in p.remaining || exists j :: 0 <= j < |p.allotted| && i in p.allotted[j]
  {
    ConservedCounts(n, p, i);
    if i in Bag(p.allotted) {
      var j := BagFinds(p.allotted, i);
    }
  }

  lemma ConservedIsApart(n: nat, p: Plan)
    requires Conserved(n, p)
    ensures Apart(p.allotted, n)
  {
    forall j | 0 <= j < |p.allotted|
      ensures Within(p.allotted[j], n) && Distinct(p.allotted[j])
    {
      BagHas(p.allotted, j);
      BagDistinct(p.allotted[j], n);
      forall m | 0 <= m < |p.allotted[j]|
        ensures p.allotted[j][m] < n
      {
        assert p.allotted[j][m] in multiset(p.allotted[j]);
        ConservedCounts(n, p, p.allotted[j][m]);
      }
    }
    forall j, k, m | 0 <= j < k < |p.allotted| && 0 <= m < |p.allotted[k]|
      ensures p.allotted[k][m] !in p.allotted[j]
    {
      var i := p.allotted[k][m];
      BagOfTwo(p.allotted, j, k);
      ConservedCounts(n, p, i);
      assert i in multiset(p.allotted[k]);
      assert multiset(p.allotted[j])[i] + multiset(p.allotted[k])[i] <= Bag(p.allotted)[i];
      assert i in p.allotted[j] <==> i in multiset(p.allotted[j]);
    }
  }

  lemma AllottedIsNotFree(n: nat, p: Plan, j: nat, m: nat)
    requires Conserved(n, p) && j < |p.allotted| && m < |p.allotted[j]|
    ensures p.allotted[j][m] !in p.remaining
  {
    var i := p.allotted[j][m];
    BagHas(p.allotted, j);
    ConservedCounts(n, p, i);
    assert i in multiset(p.allotted[j]);
    assert i in p.remaining <==> i in multiset(p.remaining);
  }

  lemma ConservedMeansPlacedOnce(n: nat, p: Plan)
    requires Conserved(n, p)
    ensures PlacedOnce(n, p)
  {
    forall i: nat | i < n
      ensures i in p.remaining || exists j :: 0 <= j < |p.allotted| && i in p.allotted[j]
    {
      ConservedCovers(n, p, i);
    }
    ConservedIsApart(n, p);
    forall j, m | 0 <= j < |p.allotted| && 0 <= m < |p.allotted[j]|
      ensures p.allotted[j][m] !in p.remaining
    {
      AllottedIsNotFree(n, p, j, m);
    }
    BagDistinct(p.remaining, n);
    forall k | 0 <= k < |p.remaining|
      ensures p.remaining[k] < n
    {
      assert p.remaining[k] in multiset(p.remaining);
      ConservedCounts(n, p, p.remaining[k]);
    }
  }

  lemma DistinctCounts(s: seq<nat>, i: nat)
    requires Distinct(s)
    ensures multiset(s)[i] == if i in s then 1 else 0
  {
    if a :| 0 <= a < |s| && s[a] == i {
      assert s == s[..a] + [s[a]] + s[a + 1..];
      assert i !in s[..a] && i !in s[a + 1..];
    }
  }

  lemma TailIsApart(lists: seq<seq<nat>>, n: nat)
    requires Apart(lists, n) && lists != []
    ensures Apart(lists[1..], n)
  {
    assert forall j | 0 <= j < |lists[1..]| :: lists[1..][j] == lists[j + 1];
  }

  lemma {:induction false} ApartCounts(lists: seq<seq<nat>>, n: nat, i: nat)
    requires Apart(lists, n)
    ensures Bag(lists)[i] == if exists j :: 0 <= j < |lists| && i in lists[j] then 1 else 0
  {
    if lists != [] {
      DistinctCounts(lists[0], i);
      TailIsApart(lists, n);
      ApartCounts(lists[1..], n, i);
      if j :| 0 <= j < |lists| && i in lists[j] {
        if j > 0 {
          assert i in lists[1..][j - 1];
          var m :| 0 <= m < |lists[j]| && lists[j][m] == i;
          assert i !in lists[0];
        }
      }
    }
  }

  lemma PlacedOnceCounts(n: nat, p: Plan, i: nat)
    requires PlacedOnce(n, p)
    ensures Bag(p.allotted)[i] + multiset(p.remaining)[i] == if i < n then 1 else 0
  {
    ApartCounts(p.allotted, n, i);
    DistinctCounts(p.remaining, i);
    if j :| 0 <= j < |p.allotted| && i in p.allotted[j] {
      var m :| 0 <= m < |p.allotted[j]| && p.allotted[j][m] == i;
      assert Within(p.allotted[j], n);
    }
  }

  /** Conservation of the bag is exactly the statement that every index below n
      sits in one list, once, or is free. */
  lemma ConservedIffPlacedOnce(n: nat, p: Plan)
    ensures Conserved(n, p) <==> PlacedOnce(n, p)
  {
    if Conserved(n, p) {
      ConservedMeansPlacedOnce(n, p);
    }
    if PlacedOnce(n, p) {
      var free: multiset<nat> := multiset(p.remaining);
      forall i: nat
        ensures (Bag(p.allotted) + free)[i] == multiset(Below(n))[i]
      {
        PlacedOnceCounts(n, p, i);
      }
      assert Bag(p.allotted) + free == multiset(Below(n));
    }
  }

  // ----- prefilling

  function Empty(n: nat): Plan {
    Plan(seq(n, _ => []), seq(n, _ => 0.0), [])
  }

  /** Hand resource i to item j without touching the free set. */
  function Give(ins: Inputs, p: Plan, i: nat, j: nat): Plan
    requires j < |p.allotted| == |p.filled| && i < |ins.weights|
  {
    p.(allotted := p.allotted[j := p.allotted[j] + [i]],
       filled := p.filled[j := p.filled[j] + ins.weights[i]])
  }

  /** The plan after the first n resources have been looked at: locked ones stay
      with their claim and all others are free. */
  function Prefill(ins: Inputs, n: nat): (p: Plan)
    requires ins.Valid() && n <= |ins.bound|
    ensures |p.allotted| == |p.filled| == |ins.demands|
  {
    if n == 0 then Empty(|ins.demands|)
    else
      var p := Prefill(ins, n - 1);
      if IsLocked(ins.bound[n - 1]) then
        Give(ins, p, n - 1, ins.bound[n - 1].claim.value)
      else p.(remaining := p.remaining + [n - 1])
  }

  lemma {:induction false} EmptyBag(lists: seq<seq<nat>>)
    requires forall j | 0 <= j < |lists| :: lists[j] == []
    ensures Bag(lists) == multiset{}
  {
    if lists != [] {
      EmptyBag(lists[1..]);
    }
  }

  lemma WeightSumPush(weights: seq<real>, s: seq<nat>, i: nat)
    requires Within(s, |weights|)
    requires i < |weights|
    ensures WeightSum(weights, s + [i]) == WeightSum(weights, s) + weights[i]
  {
    assert (s + [i])[..|s|] == s;
  }

  /** Handing out a resource inside the bound keeps `filled` in step. */
  lemma GiveKeepsWeights(ins: Inputs, p: Plan, i: nat, j: nat)
    requires ins.Valid() && Shaped(ins, p) && Weighed(ins, p)
    requires i < |ins.bound| && j < |ins.demands|
    ensures Shaped(ins, Give(ins, p, i, j)) && Weighed(ins, Give(ins, p, i, j))
  {
    WeightSumPush(ins.weights, p.allotted[j], i);
  }

  lemma BelowNext(n: nat)
    ensures multiset(Below(n + 1)) == multiset(Below(n)) + multiset{n}
  {
    assert Below(n + 1) == Below(n) + {n};
  }

  lemma GiveConserves(ins: Inputs, p: Plan, n: nat, j: nat)
    requires Conserved(n, p) && j < |p.allotted| == |p.filled| && n < |ins.weights|
    ensures Conserved(n + 1, Give(ins, p, n, j))
  {
    BelowNext(n);
    BagPush(p.allotted, j, n);
  }

  lemma FreeConserves(p: Plan, n: nat)
    requires Conserved(n, p)
    ensures Conserved(n + 1, p.(remaining := p.remaining + [n]))
  {
    BelowNext(n);
    assert multiset(p.remaining + [n]) == multiset(p.remaining) + multiset{n};
  }

  lemma {:induction false} PrefillConserves(ins: Inputs, n: nat)
    requires ins.Valid() && n <= |ins.bound|
    ensures Conserved(n, Prefill(ins, n))
  {
    if n == 0 {
      EmptyBag(Empty(|ins.demands|).allotted);
    } else {
      PrefillConserves(ins, n - 1);
      var p := Prefill(ins, n - 1);
      if IsLocked(ins.bound[n - 1]) {
        GiveConserves(ins, p, n - 1, ins.bound[n - 1].claim.value);
      } else {
        FreeConserves(p, n - 1);
      }
    }
  }

  lemma {:induction false} PrefillWeighs(ins: Inputs, n: nat)
    requires ins.Valid() && n <= |ins.bound|
    ensures Shaped(ins, Prefill(ins, n)) && Weighed(ins, Prefill(ins, n))
    ensures Within(Prefill(ins, n).remaining, n)
  {
    if n > 0 {
      PrefillWeighs(ins, n - 1);
      if IsLocked(ins.bound[n - 1]) {
        GiveKeepsWeights(ins, Prefill(ins, n - 1), n - 1, ins.bound[n - 1].claim.value);
      }
    }
  }

  lemma {:induction false} PrefillHoldsLocked(ins: Inputs, n: nat, j: nat)
    requires ins.Valid() && n <= |ins.bound| && j < |ins.demands|
    ensures Prefill(ins, n).allotted[j] == Locked(ins.bound, j, n)
  {
    if n > 0 {
      PrefillHoldsLocked(ins, n - 1, j);
    }
  }

  /** After prefilling, the plan is valid and an item holds its locked
      resources and nothing else. */
  lemma PrefillIsValid(ins: Inputs)
    requires ins.Valid()
    ensures ValidPlan(ins, Prefill(ins, |ins.bound|))
    ensures forall j | 0 <= j < |ins.demands| ::
              Prefill(ins, |ins.bound|).allotted[j] == Locked(ins.bound, j, |ins.bound|)
  {
    PrefillWeighs(ins, |ins.bound|);
    PrefillConserves(ins, |ins.bound|);
    forall j | 0 <= j < |ins.demands|
      ensures Prefill(ins, |ins.bound|).allotted[j] == Locked(ins.bound, j, |ins.bound|)
    {
      PrefillHoldsLocked(ins, |ins.bound|, j);
    }
  }

  lemma {:induction false} LockedAre(bound: seq<PoolResource>, j: nat, n: nat, i: nat)
    requires n <= |bound|
    ensures i in Locked(bound, j, n) <==> i < n && bound[i] == PoolResource(Some(j), Preparing)
  {
    if n > 0 {
      LockedAre(bound, j, n - 1, i);
    }
  }

  /** After prefilling an item holds exactly the resources in preparation for it, and
      exactly the resources in preparation for nobody are free. */
  lemma PrefillLocksPreparing(ins: Inputs, i: nat)
    requires ins.Valid() && i < |ins.bound|
    ensures var p := Prefill(ins, |ins.bound|);
            && (forall j | 0 <= j < |p.allotted| ::
                  i in p.allotted[j] <==> ins.bound[i] == PoolResource(Some(j), Preparing))
            && (i in p.remaining <==> !(ins.bound[i].claim.Some? && ins.bound[i].state == Preparing))
  {
    var n := |ins.bound|;
    var p := Prefill(ins, n);
    PrefillIsValid(ins);
    ConservedMeansPlacedOnce(n, p);
    forall j: nat | j < |p.allotted|
      ensures i in p.allotted[j] <==> ins.bound[i] == PoolResource(Some(j), Preparing)
    {
      LockedAre(ins.bound, j, n, i);
    }
    if ins.bound[i].claim.Some? && ins.bound[i].state == Preparing {
      var j := ins.bound[i].claim.value;
      assert i in p.allotted[j];
      var m :| 0 <= m < |p.allotted[j]| && p.allotted[j][m] == i;
    }
  }

  // ----- storing a solution

  function Remove(s: seq<nat>, i: nat): (r: seq<nat>)
    ensures forall k :: k in r <==> k in s && k != i
    ensures |r| <= |s|
  {
    if s == [] then []
    else if s[0] == i then Remove(s[1..], i)
    else [s[0]] + Remove(s[1..], i)
  }

  lemma {:induction false} RemoveAbsent(s: seq<nat>, i: nat)
    requires i !in s
    ensures Remove(s, i) == s
  {
    if s != [] {
      RemoveAbsent(s[1..], i);
    }
  }

  lemma {:induction false} RemoveBag(s: seq<nat>, i: nat)
    requires i in s && Distinct(s)
    ensures multiset(Remove(s, i)) + multiset{i} == multiset(s)
  {
    assert s == [s[0]] + s[1..];
    if s[0] == i {
      assert i !in s[1..];
      RemoveAbsent(s[1..], i);
    } else {
      RemoveBag(s[1..], i);
    }
  }

  /** Hand resource i to item j and take it out of the free set. */
  function Put(ins: Inputs, p: Plan, i: nat, j: nat): (q: Plan)
    requires j < |p.allotted| == |p.filled| && i < |ins.weights|
    ensures |q.allotted| == |q.filled| == |p.allotted|
  {
    Give(ins, p, i, j).(remaining := Remove(p.remaining, i))
  }

  lemma PutConserves(ins: Inputs, p: Plan, i: nat, j: nat)
    requires Conserved(|ins.bound|, p) && |p.allotted| == |p.filled|
    requires i in p.remaining && j < |p.allotted| && i < |ins.weights|
    ensures Conserved(|ins.bound|, Put(ins, p, i, j))
  {
    BagDistinct(p.remaining, |ins.bound|);
    RemoveBag(p.remaining, i);
    BagPush(p.allotted, j, i);
  }

  lemma PutKeepsPlanValid(ins: Inputs, p: Plan, i: nat, j: nat)
    requires ins.Valid() && ValidPlan(ins, p)
    requires i in p.remaining && j < |ins.demands|
    ensures ValidPlan(ins, Put(ins, p, i, j))
  {
    PutConserves(ins, p, i, j);
    GiveKeepsWeights(ins, p, i, j);
    var q := Put(ins, p, i, j);
    forall k | 0 <= k < |q.remaining|
      ensures q.remaining[k] < |ins.bound|
    {
      assert q.remaining[k] in q.remaining;
    }
  }

  /** A matrix with n columns. */
  predicate Wide(y: seq<seq<bool>>, n: nat) {
    forall k | 0 <= k < |y| :: |y[k]| == n
  }

  /** Store row `ys` of a solution: resource i goes to every marked target,
      from column c on. */
  function StoreRow(ins: Inputs, p: Plan, targets: seq<nat>, i: nat, ys: seq<bool>, c: nat): (q: Plan)
    requires |p.allotted| == |p.filled| && i < |ins.weights|
    requires Within(targets, |p.allotted|)
    requires |ys| == |targets| && c <= |targets|
    ensures |q.allotted| == |q.filled| == |p.allotted|
    decreases |targets| - c
  {
    if c == |targets| then p
    else StoreRow(ins, if ys[c] then Put(ins, p, i, targets[c]) else p, targets, i, ys, c + 1)
  }

  /** Store a whole solution, from row r on. */
  function StoreRows(ins: Inputs, p: Plan, targets: seq<nat>, rows: seq<nat>, y: seq<seq<bool>>, r: nat): (q: Plan)
    requires |p.allotted| == |p.filled|
    requires Within(rows, |ins.weights|)
    requires Within(targets, |p.allotted|)
    requires |y| == |rows| && Wide(y, |targets|) && r <= |rows|
    ensures |q.allotted| == |q.filled| == |p.allotted|
    decreases |rows| - r
  {
    if r == |rows| then p
    else StoreRows(ins, StoreRow(ins, p, targets, rows[r], y[r], 0), targets, rows, y, r + 1)
  }

  /** At most one column of a row is marked from column c on. */
  ghost predicate OneAtMost(ys: seq<bool>, c: nat) {
    forall a, b | c <= a < b < |ys| :: !(ys[a] && ys[b])
  }

  /** Whether a row is marked from column c on. */
  predicate Marked(ys: seq<bool>, c: nat) {
    exists a :: c <= a < |ys| && ys[a]
  }

  lemma MarkedStep(ys: seq<bool>, c: nat)
    requires c < |ys|
    ensures Marked(ys, c) <==> ys[c] || Marked(ys, c + 1)
    ensures OneAtMost(ys, c) && ys[c] ==> !Marked(ys, c + 1)
    ensures OneAtMost(ys, c) ==> OneAtMost(ys, c + 1)
  {
  }

  lemma {:induction false} StoreRowFrees(ins: Inputs, p: Plan, targets: seq<nat>, i: nat, ys: seq<bool>, c: nat)
    requires |p.allotted| == |p.filled| && i < |ins.weights| && Within(targets, |p.allotted|)
    requires |ys| == |targets| && c <= |targets| && OneAtMost(ys, c)
    ensures StoreRow(ins, p, targets, i, ys, c).remaining ==
            if Marked(ys, c) then Remove(p.remaining, i) else p.remaining
    decreases |targets| - c
  {
    if c < |targets| {
      MarkedStep(ys, c);
      StoreRowFrees(ins, if ys[c] then Put(ins, p, i, targets[c]) else p, targets, i, ys, c + 1);
    }
  }

  lemma {:induction false} StoreRowKeepsValid(ins: Inputs, p: Plan, targets: seq<nat>, i: nat, ys: seq<bool>, c: nat)
    requires ins.Valid() && ValidPlan(ins, p) && i < |ins.weights| && Within(targets, |ins.demands|)
    requires |ys| == |targets| && c <= |targets| && OneAtMost(ys, c)
    requires Marked(ys, c) ==> i in p.remaining
    ensures ValidPlan(ins, StoreRow(ins, p, targets, i, ys, c))
    decreases |targets| - c
  {
    if c < |targets| {
      MarkedStep(ys, c);
      if ys[c] {
        PutKeepsPlanValid(ins, p, i, targets[c]);
        StoreRowKeepsValid(ins, Put(ins, p, i, targets[c]), targets, i, ys, c + 1);
      } else {
        StoreRowKeepsValid(ins, p, targets, i, ys, c + 1);
      }
    }
  }

  /** The free resources after storing the rows from r on. */
  ghost predicate Leaves(before: seq<nat>, after: seq<nat>, rows: seq<nat>, y: seq<seq<bool>>, r: nat)
    requires |y| == |rows|
  {
    forall i :: i in after <==>
      i in before && forall k | r <= k < |rows| && rows[k] == i :: !Marked(y[k], 0)
  }

  lemma LeavesOneMore(before: seq<nat>, between: seq<nat>, after: seq<nat>, rows: seq<nat>, y: seq<seq<bool>>, r: nat)
    requires |y| == |rows| && r < |rows|
    requires between == if Marked(y[r], 0) then Remove(before, rows[r]) else before
    requires Leaves(between, after, rows, y, r + 1)
    ensures Leaves(before, after, rows, y, r)
  {
  }

  lemma {:induction false} StoreRowsInvariant(
    ins: Inputs, p: Plan, targets: seq<nat>, rows: seq<nat>, y: seq<seq<bool>>, r: nat)
    requires ins.Valid() && ValidPlan(ins, p)
    requires Within(rows, |ins.weights|)
    requires Within(targets, |ins.demands|)
    requires |y| == |rows| && Wide(y, |targets|) && r <= |rows|
    requires forall k | 0 <= k < |y| :: OneAtMost(y[k], 0)
    requires Distinct(rows) && forall k | r <= k < |rows| :: rows[k] in p.remaining
    ensures var q := StoreRows(ins, p, targets, rows, y, r);
            ValidPlan(ins, q) && Leaves(p.remaining, q.remaining, rows, y, r)
    decreases |rows| - r
  {
    if r < |rows| {
      StoreRowKeepsValid(ins, p, targets, rows[r], y[r], 0);
      StoreRowFrees(ins, p, targets, rows[r], y[r], 0);
      var q := StoreRow(ins, p, targets, rows[r], y[r], 0);
      StoreRowsInvariant(ins, q, targets, rows, y, r + 1);
      LeavesOneMore(p.remaining, q.remaining, StoreRows(ins, p, targets, rows, y, r).remaining, rows, y, r);
    }
  }

  // ----- how much each item gains

  /** The weight column c receives from rows r onward. */
  function Gain(weights: seq<real>, rows: seq<nat>, y: seq<seq<bool>>, c: nat, r: nat): real
    requires Within(rows, |weights|)
    requires |y| == |rows| && (forall k | 0 <= k < |y| :: c < |y[k]|) && r <= |rows|
    decreases |rows| - r
  {
    if r == |rows| then 0.0
    else (if y[r][c] then weights[rows[r]] else 0.0) + Gain(weights, rows, y, c, r + 1)
  }

  lemma {:induction false} StoreRowFills(
    ins: Inputs, p: Plan, targets: seq<nat>, i: nat, ys: seq<bool>, c: nat)
    requires |p.allotted| == |p.filled| && i < |ins.weights|
    requires Within(targets, |p.allotted|)
    requires |ys| == |targets| && c <= |targets|
    requires Distinct(targets)
    ensures var q := StoreRow(ins, p, targets, i, ys, c);
            && (forall k | 0 <= k < |targets| ::
                  q.filled[targets[k]] ==
                  p.filled[targets[k]] + if c <= k && ys[k] then ins.weights[i] else 0.0)
            && (forall j | 0 <= j < |p.filled| && j !in targets ::
                  q.filled[j] == p.filled[j] && q.allotted[j] == p.allotted[j])
    decreases |targets| - c
  {
    if c < |targets| {
      var p' := if ys[c] then Put(ins, p, i, targets[c]) else p;
      StoreRowFills(ins, p', targets, i, ys, c + 1);
    }
  }

  /** A target gains exactly the weight of its marked rows; all other items
      keep their lists. */
  lemma {:induction false} StoreRowsFill(
    ins: Inputs, p: Plan, targets: seq<nat>, rows: seq<nat>, y: seq<seq<bool>>, r: nat)
    requires |p.allotted| == |p.filled|
    requires Within(rows, |ins.weights|)
    requires Within(targets, |p.allotted|)
    requires |y| == |rows| && Wide(y, |targets|) && r <= |rows|
    requires Distinct(targets)
    ensures var q := StoreRows(ins, p, targets, rows, y, r);
            && (forall k | 0 <= k < |targets| ::
                  q.filled[targets[k]] ==
                  p.filled[targets[k]] + Gain(ins.weights, rows, y, k, r))
            && (forall j | 0 <= j < |p.filled| && j !in targets ::
                  q.filled[j] == p.filled[j] && q.allotted[j] == p.allotted[j])
    decreases |rows| - r
  {
    if r < |rows| {
      StoreRowFills(ins, p, targets, rows[r], y[r], 0);
      var q := StoreRow(ins, p, targets, rows[r], y[r], 0);
      StoreRowsFill(ins, q, targets, rows, y, r + 1);
    }
  }
}
