/** The KISS control-plane join protocol. A reconciliation decides at one moment
    and writes the box status at a later one; in between, callbacks, job results
    and other reconciliations may run. */
module JoinProtocol {
  import opened Wrappers
  import opened Boxes
  import opened ControlPlanes

  /** `pending` holds the status each decided box is about to receive and
      `joinJobs` the boxes whose join job is still alive. */
  datatype World = World(boxes: seq<Box>, pending: map<nat, Status>, joinJobs: set<nat>)

  datatype Step =
    | Register(uuid: nat, createdAt: Option<int>, now: int)
    | Commission(i: nat, hasPrimary: bool, reset: bool, now: int)
    | SetGroup(i: nat, group: Group)
    | Decide(i: nat, now: int)
    | WriteStatus(i: nat, now: int)
    | JobSucceeded(i: nat, now: int)
    | JobFailed(i: nat, now: int)

  // ----- the steps

  function WithStatus(w: World, i: nat, s: Status): World
    requires i < |w.boxes|
  {
    w.(boxes := w.boxes[i := w.boxes[i].(status := Some(s))])
  }

  function WithGroup(w: World, i: nat, g: Group): World
    requires i < |w.boxes|
  {
    w.(boxes := w.boxes[i := w.boxes[i].(group := g)])
  }

  function WithState(w: World, i: nat, state: BoxState, now: int): World
    requires i < |w.boxes|
  {
    WithStatus(w, i, Status(state, HasPrimary(w.boxes[i]), BoundGroup(w.boxes[i]), now))
  }

  /** The box with this id, if any. */
  function IndexOf(boxes: seq<Box>, uuid: nat): (k: Option<nat>)
    ensures k.Some? ==> k.value < |boxes| && boxes[k.value].uuid == uuid
    ensures k.None? ==> forall i | 0 <= i < |boxes| :: boxes[i].uuid != uuid
  {
    if boxes == [] then None
    else if boxes[|boxes| - 1].uuid == uuid then Some(|boxes| - 1)
    else IndexOf(boxes[..|boxes| - 1], uuid)
  }

  /** A machine reports itself: a known box starts over and keeps its binding, an
      unknown one is created in the default group. */
  function Registered(w: World, uuid: nat, createdAt: Option<int>, now: int): World {
    match IndexOf(w.boxes, uuid)
    case Some(k) => WithStatus(w, k, Status(New, true, BoundGroup(w.boxes[k]), now))
    case None =>
      w.(boxes := w.boxes + [Box(uuid, createdAt, DEFAULT_GROUP, Some(Status(New, true, None, now)))])
  }

  predicate GateOpen(w: World, i: nat)
    requires i < |w.boxes|
  {
    var g := w.boxes[i].group;
    IsJoinable(Load(w.boxes, g.cluster), w.boxes[i].uuid, g.cluster == DEFAULT_CLUSTER)
  }

  /** Decide one box. Every launch first drops the box's earlier jobs; a join is
      launched only if the gate is open. */
  function Decided(kiss: Kiss, w: World, i: nat, now: int): World
    requires i < |w.boxes|
  {
    var b := w.boxes[i];
    match NextMove(kiss, b, now)
    case Wait => w
    case PromoteRole(role) => WithGroup(w, i, b.group.(role := role))
    case MarkRunning => WithState(w, i, Running, now)
    case Respawn => w.(joinJobs := w.joinJobs - {i})
    case Launch(state, bindGroup) =>
      if state.Joining? && !GateOpen(w, i) then w.(joinJobs := w.joinJobs - {i})
      else
        w.(pending := w.pending[i := Status(state, HasPrimary(b), bindGroup, now)],
           joinJobs := if state.Joining? then w.joinJobs + {i} else w.joinJobs - {i})
  }

  /** What may happen at all: no box is decided again before its write. */
  predicate Enabled(w: World, step: Step) {
    match step
    case Register(_, _, _) => true
    case Commission(i, _, _, _) => i < |w.boxes|
    case SetGroup(i, _) => i < |w.boxes|
    case Decide(i, _) => i < |w.boxes| && i !in w.pending
    case WriteStatus(i, _) => i < |w.boxes| && i in w.pending
    case JobSucceeded(i, _) => i < |w.boxes|
    case JobFailed(i, _) => i < |w.boxes|
  }

  function Next(kiss: Kiss, w: World, step: Step): World
    requires Enabled(w, step)
  {
    match step
    case Register(uuid, createdAt, now) => Registered(w, uuid, createdAt, now)
    case Commission(i, hasPrimary, reset, now) =>
      WithStatus(w, i, Status(Ready, hasPrimary, if reset then None else BoundGroup(w.boxes[i]), now))
    case SetGroup(i, group) => WithGroup(w, i, group)
    case Decide(i, now) => Decided(kiss, w, i, now)
    case WriteStatus(i, now) =>
      WithStatus(w, i, w.pending[i].(lastUpdated := now)).(pending := w.pending - {i})
    case JobSucceeded(i, now) => WithState(w, i, Running, now)
    case JobFailed(i, now) => WithState(w, i, Failed, now)
  }

  /** The step decides that box i joins. */
  predicate DecidesJoin(kiss: Kiss, w: World, step: Step, i: nat) {
    && step.Decide? && step.i == i && i < |w.boxes|
    && var m := NextMove(kiss, w.boxes[i], step.now);
       m.Launch? && m.state.Joining? && GateOpen(w, i)
  }

  // ----- mutual exclusion

  predicate JoinPending(w: World, i: nat) {
    i in w.pending && w.pending[i].state.Joining?
  }

  predicate Busy(w: World, i: nat)
    requires i < |w.boxes|
  {
    JoinPending(w, i) || StateOf(w.boxes[i]).Joining?
  }

  predicate Peers(w: World, i: nat, j: nat)
    requires i < |w.boxes| && j < |w.boxes|
  {
    && w.boxes[i].group.role == ControlPlane
    && w.boxes[j].group == w.boxes[i].group
  }

  /** At most one control plane of a cluster is decided-but-unwritten or joining. */
  ghost predicate AtMostOneJoins(w: World) {
    forall i, j | 0 <= i < j < |w.boxes| && Peers(w, i, j) :: !(Busy(w, i) && Busy(w, j))
  }

  /** The next reconciliation of this box may decide that it joins: it is ready, not
      bound to its group and has no pending write. */
  predicate MayBeDecided(w: World, i: nat)
    requires i < |w.boxes|
  {
    && StateOf(w.boxes[i]).Ready?
    && BoundGroup(w.boxes[i]) != Some(w.boxes[i].group)
    && i !in w.pending
  }

  /** A decided box is not running and no older peer of it may be decided. */
  ghost predicate DecisionsHold(w: World) {
    forall i | 0 <= i < |w.boxes| && JoinPending(w, i) && w.boxes[i].group.role == ControlPlane ::
      && !StateOf(w.boxes[i]).Running?
      && forall j | 0 <= j < |w.boxes| && Peers(w, i, j) && Older(w.boxes[j], w.boxes[i]) ::
           !MayBeDecided(w, j)
  }

  ghost predicate Exclusive(w: World) {
    && DistinctIds(w.boxes)
    && (forall i | i in w.pending :: i < |w.boxes|)
    && AtMostOneJoins(w)
    && DecisionsHold(w)
  }

  /** A control plane other than box i in the group g. */
  predicate OtherMember(w: World, i: nat, g: Group, k: nat) {
    k < |w.boxes| && k != i && w.boxes[k].group == g
  }

  /** Box i may enter the group g: a busy box finds no busy control plane there, a
      decided one is not running and finds no older one that may be decided, and one that
      may be decided there finds no younger one decided. */
  ghost predicate EntersHarmlessly(w: World, i: nat, g: Group)
    requires i < |w.boxes|
  {
    g.role == ControlPlane ==>
      && (Busy(w, i) ==> forall k: nat | OtherMember(w, i, g, k) :: !Busy(w, k))
      && (JoinPending(w, i) ==>
            && !StateOf(w.boxes[i]).Running?
            && forall k: nat | OtherMember(w, i, g, k) && Older(w.boxes[k], w.boxes[i]) :: !MayBeDecided(w, k))
      && (StateOf(w.boxes[i]).Ready? && BoundGroup(w.boxes[i]) != Some(g) && i !in w.pending ==>
            forall k: nat | OtherMember(w, i, g, k) && JoinPending(w, k) :: !Older(w.boxes[i], w.boxes[k]))
  }

  /** What a step must spare while a control plane is decided and its status not yet
      written: no commission callback that leaves an older peer unbound, no result of its
      own join job, and no harmful group change. */
  ghost predicate Harmless(kiss: Kiss, w: World, step: Step)
    requires Enabled(w, step)
  {
    match step
    case Commission(j, _, reset, _) =>
      (reset || BoundGroup(w.boxes[j]) != Some(w.boxes[j].group)) && j !in w.pending ==>
        forall i | 0 <= i < |w.boxes| && JoinPending(w, i) && Peers(w, i, j) :: !Older(w.boxes[j], w.boxes[i])
    case JobSucceeded(i, _) => JoinPending(w, i) ==> w.boxes[i].group.role != ControlPlane
    case SetGroup(i, g) => EntersHarmlessly(w, i, g)
    case Decide(i, now) =>
      var m := NextMove(kiss, w.boxes[i], now);
      m.PromoteRole? ==> EntersHarmlessly(w, i, w.boxes[i].group.(role := m.role))
    case _ => true
  }

  lemma StatusStepKeepsExclusive(w: World, i: nat, s: Status)
    requires Exclusive(w) && i < |w.boxes|
    requires !s.state.Joining?
    requires s.state.Running? && JoinPending(w, i) ==> w.boxes[i].group.role != ControlPlane
    requires s.state.Ready? && s.bindGroup != Some(w.boxes[i].group) && i !in w.pending ==>
               forall k | 0 <= k < |w.boxes| && JoinPending(w, k) && Peers(w, k, i) ::
                 !Older(w.boxes[i], w.boxes[k])
    ensures Exclusive(WithStatus(w, i, s))
  {
    var w' := WithStatus(w, i, s);
    assert forall k | 0 <= k < |w.boxes| :: w'.boxes[k].group == w.boxes[k].group && w'.boxes[k].uuid == w.boxes[k].uuid;
    assert forall k | 0 <= k < |w.boxes| :: Busy(w', k) ==> Busy(w, k);
  }

  lemma GroupStepKeepsExclusive(w: World, i: nat, g: Group)
    requires Exclusive(w) && i < |w.boxes| && EntersHarmlessly(w, i, g)
    ensures Exclusive(WithGroup(w, i, g))
  {
    var w' := WithGroup(w, i, g);
    assert forall k | 0 <= k < |w.boxes| && k != i :: w'.boxes[k] == w.boxes[k];
    assert forall k | 0 <= k < |w.boxes| :: Busy(w', k) <==> Busy(w, k);
    assert forall k: nat | k < |w.boxes| && k != i && Peers(w', i, k) :: OtherMember(w, i, g, k);
    assert forall k: nat | k < |w.boxes| && k != i && Peers(w', k, i) :: OtherMember(w, i, g, k);
  }

  lemma GroupStepIsHarmless(w: World, i: nat, g: Group)
    requires i < |w.boxes| && Exclusive(WithGroup(w, i, g))
    ensures EntersHarmlessly(w, i, g)
  {
    var w' := WithGroup(w, i, g);
    if g.role == ControlPlane {
      forall k: nat | OtherMember(w, i, g, k)
        ensures Peers(w', i, k) && Peers(w', k, i) && w'.boxes[k] == w.boxes[k]
        ensures Busy(w', k) <==> Busy(w, k)
        ensures Busy(w, i) ==> !Busy(w, k)
      {
        assert Busy(w', i) <==> Busy(w, i);
        assert i < k ==> !(Busy(w', i) && Busy(w', k));
        assert k < i ==> !(Busy(w', k) && Busy(w', i));
      }
      assert Peers(w', i, i);
    }
  }

  /** When the gate opens for a control plane that may be decided, no peer is decided or
      joining and every older peer runs. */
  lemma OpenGateFindsNoRival(w: World, i: nat)
    requires Exclusive(w) && i < |w.boxes| && w.boxes[i].group.role == ControlPlane
    requires MayBeDecided(w, i) && GateOpen(w, i)
    ensures forall k | 0 <= k < |w.boxes| && Peers(w, i, k) :: !Busy(w, k)
    ensures forall j | 0 <= j < |w.boxes| && Peers(w, i, j) && Older(w.boxes[j], w.boxes[i]) ::
              StateOf(w.boxes[j]).Running?
    ensures !StateOf(w.boxes[i]).Running?
  {
    var cluster := w.boxes[i].group.cluster;
    GateMeaning(w.boxes, cluster, i, cluster == DEFAULT_CLUSTER);
    forall k | 0 <= k < |w.boxes| && Peers(w, i, k)
      ensures !Busy(w, k)
    {
      assert IsControlPlane(w.boxes[k], cluster) && IsReadyBox(w.boxes[k]);
      if JoinPending(w, k) {
        assert Peers(w, k, i);
      }
    }
  }

  lemma JoinDecisionKeepsExclusive(w: World, i: nat, s: Status, jobs: set<nat>)
    requires Exclusive(w) && i < |w.boxes| && i !in w.pending
    requires s.state.Joining? ==> GateOpen(w, i) && MayBeDecided(w, i)
    ensures Exclusive(w.(pending := w.pending[i := s], joinJobs := jobs))
  {
    var w' := w.(pending := w.pending[i := s], joinJobs := jobs);
    if s.state.Joining? && w.boxes[i].group.role == ControlPlane {
      OpenGateFindsNoRival(w, i);
      assert forall k | 0 <= k < |w.boxes| && k != i :: Busy(w', k) <==> Busy(w, k);
    } else {
      assert forall k | 0 <= k < |w.boxes| && w.boxes[k].group.role == ControlPlane :: Busy(w', k) ==> Busy(w, k);
    }
  }

  /** No pending write makes a box ready or running. */
  ghost predicate PendingIsOrderly(w: World) {
    forall i | i in w.pending :: !w.pending[i].state.Ready? && !w.pending[i].state.Running?
  }

  lemma WriteKeepsExclusive(w: World, i: nat, now: int)
    requires Exclusive(w) && i < |w.boxes| && i in w.pending && PendingIsOrderly(w)
    ensures Exclusive(WithStatus(w, i, w.pending[i].(lastUpdated := now)).(pending := w.pending - {i}))
  {
    var w' := WithStatus(w, i, w.pending[i].(lastUpdated := now)).(pending := w.pending - {i});
    assert forall k | 0 <= k < |w.boxes| :: w'.boxes[k].group == w.boxes[k].group && w'.boxes[k].uuid == w.boxes[k].uuid;
    assert forall k | 0 <= k < |w.boxes| :: Busy(w', k) ==> Busy(w, k);
  }

  lemma NewBoxKeepsExclusive(w: World, w': World)
    requires Exclusive(w) && |w'.boxes| == |w.boxes| + 1 && w'.boxes[..|w.boxes|] == w.boxes
    requires w'.pending == w.pending
    requires w'.boxes[|w.boxes|].group == DEFAULT_GROUP
    requires forall i | 0 <= i < |w.boxes| :: w.boxes[i].uuid != w'.boxes[|w.boxes|].uuid
    ensures Exclusive(w')
  {
    assert forall k | 0 <= k < |w.boxes| :: w'.boxes[k] == w.boxes[k];
    assert forall k | 0 <= k < |w.boxes| :: Busy(w', k) <==> Busy(w, k);
  }

  lemma JobsDoNotMatter(w: World, jobs: set<nat>)
    requires Exclusive(w)
    ensures Exclusive(w.(joinJobs := jobs))
  {
    var w' := w.(joinJobs := jobs);
    assert forall k | 0 <= k < |w.boxes| :: Busy(w', k) <==> Busy(w, k);
  }

  lemma DecideKeepsExclusive(kiss: Kiss, w: World, i: nat, now: int)
    requires Exclusive(w) && Enabled(w, Decide(i, now)) && Harmless(kiss, w, Decide(i, now))
    ensures Exclusive(Decided(kiss, w, i, now))
  {
    var b := w.boxes[i];
    LaunchesAreOrderly(kiss, b, now);
    match NextMove(kiss, b, now)
    case Wait =>
    case PromoteRole(role) => GroupStepKeepsExclusive(w, i, b.group.(role := role));
    case MarkRunning => StatusStepKeepsExclusive(w, i, Status(Running, HasPrimary(b), BoundGroup(b), now));
    case Respawn => JobsDoNotMatter(w, w.joinJobs - {i});
    case Launch(state, bindGroup) =>
      if state.Joining? && !GateOpen(w, i) {
        JobsDoNotMatter(w, w.joinJobs - {i});
      } else {
        JoinDecisionKeepsExclusive(w, i, Status(state, HasPrimary(b), bindGroup, now),
                                   if state.Joining? then w.joinJobs + {i} else w.joinJobs - {i});
      }
  }

  lemma StepKeepsPendingOrderly(kiss: Kiss, w: World, step: Step)
    requires PendingIsOrderly(w) && Enabled(w, step)
    ensures PendingIsOrderly(Next(kiss, w, step))
  {
    if step.Decide? {
      LaunchesAreOrderly(kiss, w.boxes[step.i], step.now);
    }
  }

  /** Every harmless step keeps exclusion. */
  lemma HarmlessKeepsExclusive(kiss: Kiss, w: World, step: Step)
    requires Exclusive(w) && PendingIsOrderly(w) && Enabled(w, step) && Harmless(kiss, w, step)
    ensures Exclusive(Next(kiss, w, step))
  {
    match step
    case Register(uuid, createdAt, now) =>
      if k :| k == IndexOf(w.boxes, uuid) && k.Some? {
        StatusStepKeepsExclusive(w, k.value, Status(New, true, BoundGroup(w.boxes[k.value]), now));
      } else {
        NewBoxKeepsExclusive(w, Next(kiss, w, step));
      }
    case Commission(i, hasPrimary, reset, now) =>
      StatusStepKeepsExclusive(w, i, Status(Ready, hasPrimary, if reset then None else BoundGroup(w.boxes[i]), now));
    case SetGroup(i, group) =>
      GroupStepKeepsExclusive(w, i, group);
    case Decide(i, now) =>
      DecideKeepsExclusive(kiss, w, i, now);
    case WriteStatus(i, now) =>
      WriteKeepsExclusive(w, i, now);
    case JobSucceeded(i, now) =>
      StatusStepKeepsExclusive(w, i, Status(Running, HasPrimary(w.boxes[i]), BoundGroup(w.boxes[i]), now));
    case JobFailed(i, now) =>
      StatusStepKeepsExclusive(w, i, Status(Failed, HasPrimary(w.boxes[i]), BoundGroup(w.boxes[i]), now));
  }

  /** Every step that keeps exclusion is harmless. */
  lemma KeepingIsHarmless(kiss: Kiss, w: World, step: Step)
    requires Exclusive(w) && Enabled(w, step) && Exclusive(Next(kiss, w, step))
    ensures Harmless(kiss, w, step)
  {
    var w' := Next(kiss, w, step);
    match step
    case Commission(j, _, reset, _) =>
      assert forall k | 0 <= k < |w.boxes| && k != j :: w'.boxes[k] == w.boxes[k];
      if (reset || BoundGroup(w.boxes[j]) != Some(w.boxes[j].group)) && j !in w.pending {
        forall i | 0 <= i < |w.boxes| && JoinPending(w, i) && Peers(w, i, j)
          ensures !Older(w.boxes[j], w.boxes[i])
        {
          assert MayBeDecided(w', j);
          assert JoinPending(w', i) && Peers(w', i, j);
        }
      }
    case JobSucceeded(i, _) =>
      assert JoinPending(w', i) <==> JoinPending(w, i);
    case SetGroup(i, g) =>
      GroupStepIsHarmless(w, i, g);
    case Decide(i, now) =>
      var m := NextMove(kiss, w.boxes[i], now);
      if m.PromoteRole? {
        GroupStepIsHarmless(w, i, w.boxes[i].group.(role := m.role));
      }
    case _ =>
  }

  /** A step keeps exclusion if and only if it is harmless. */
  lemma StepKeepsExclusiveIff(kiss: Kiss, w: World, step: Step)
    requires Exclusive(w) && PendingIsOrderly(w) && Enabled(w, step)
    ensures Exclusive(Next(kiss, w, step)) <==> Harmless(kiss, w, step)
    ensures PendingIsOrderly(Next(kiss, w, step))
  {
    StepKeepsPendingOrderly(kiss, w, step);
    if Harmless(kiss, w, step) {
      HarmlessKeepsExclusive(kiss, w, step);
    }
    if Exclusive(Next(kiss, w, step)) {
      KeepingIsHarmless(kiss, w, step);
    }
  }

  // ----- runs

  ghost predicate StepsTo(kiss: Kiss, worlds: seq<World>, steps: seq<Step>, k: nat)
    requires k < |steps| && k + 1 < |worlds|
  {
    Enabled(worlds[k], steps[k]) && worlds[k + 1] == Next(kiss, worlds[k], steps[k])
  }

  /** A run, as the sequence of its worlds. */
  ghost predicate IsRun(kiss: Kiss, worlds: seq<World>, steps: seq<Step>) {
    |worlds| == |steps| + 1 && forall k: nat | k < |steps| :: StepsTo(kiss, worlds, steps, k)
  }

  ghost predicate HarmlessAt(kiss: Kiss, worlds: seq<World>, steps: seq<Step>, k: nat)
    requires k < |steps| && k + 1 < |worlds|
  {
    StepsTo(kiss, worlds, steps, k) && Harmless(kiss, worlds[k], steps[k])
  }

  /** No step before k was harmful. */
  ghost predicate HarmlessUpTo(kiss: Kiss, worlds: seq<World>, steps: seq<Step>, k: nat)
    requires k <= |steps| < |worlds|
  {
    forall m: nat | m < k :: HarmlessAt(kiss, worlds, steps, m)
  }

  /** In every state up to k at most one control plane per cluster is decided or
      joining, and every decision still holds. */
  ghost predicate ExclusiveUpTo(worlds: seq<World>, k: nat)
    requires k < |worlds|
  {
    forall m | 0 <= m <= k :: Exclusive(worlds[m])
  }

  /** A run keeps exclusion up to state k if and only if no step before k was harmful. */
  lemma {:induction false} JoinsAreExclusiveIff(kiss: Kiss, worlds: seq<World>, steps: seq<Step>, k: nat)
    requires IsRun(kiss, worlds, steps) && k <= |steps|
    requires Exclusive(worlds[0]) && PendingIsOrderly(worlds[0])
    ensures ExclusiveUpTo(worlds, k) <==> HarmlessUpTo(kiss, worlds, steps, k)
    ensures PendingIsOrderly(worlds[k])
  {
    if k > 0 {
      JoinsAreExclusiveIff(kiss, worlds, steps, k - 1);
      assert StepsTo(kiss, worlds, steps, k - 1);
      StepKeepsPendingOrderly(kiss, worlds[k - 1], steps[k - 1]);
      if ExclusiveUpTo(worlds, k - 1) {
        assert Exclusive(worlds[k - 1]);
        StepKeepsExclusiveIff(kiss, worlds[k - 1], steps[k - 1]);
      }
      assert ExclusiveUpTo(worlds, k) <==> ExclusiveUpTo(worlds, k - 1) && Exclusive(worlds[k]);
      assert HarmlessUpTo(kiss, worlds, steps, k) <==>
             HarmlessUpTo(kiss, worlds, steps, k - 1) && HarmlessAt(kiss, worlds, steps, k - 1);
    }
  }

  /** Whenever a control plane is decided in a run without harmful steps, every older
      peer runs and no peer is decided or joining. */
  lemma DecisionFindsOlderRunning(kiss: Kiss, worlds: seq<World>, steps: seq<Step>, k: nat, i: nat)
    requires IsRun(kiss, worlds, steps) && k < |steps| && HarmlessUpTo(kiss, worlds, steps, k)
    requires Exclusive(worlds[0]) && PendingIsOrderly(worlds[0])
    requires DecidesJoin(kiss, worlds[k], steps[k], i) && worlds[k].boxes[i].group.role == ControlPlane
    ensures var w := worlds[k];
            forall j | 0 <= j < |w.boxes| && Peers(w, i, j) ::
              !Busy(w, j) && (Older(w.boxes[j], w.boxes[i]) ==> StateOf(w.boxes[j]).Running?)
  {
    JoinsAreExclusiveIff(kiss, worlds, steps, k);
    assert StepsTo(kiss, worlds, steps, k) && Exclusive(worlds[k]);
    LaunchesAreOrderly(kiss, worlds[k].boxes[i], steps[k].now);
    OpenGateFindsNoRival(worlds[k], i);
  }

  // ----- the invariant is as weak as mutual exclusion allows

  /** A run without harmful steps leads from one world to another. */
  ghost predicate Leads(kiss: Kiss, w: World, v: World) {
    exists worlds, steps ::
      && IsRun(kiss, worlds, steps) && HarmlessUpTo(kiss, worlds, steps, |steps|)
      && worlds[0] == w && worlds[|steps|] == v
  }

  /** Whatever harmless steps follow, at most one control plane per cluster is decided
      or joining. */
  ghost predicate IsSafe(kiss: Kiss, w: World) {
    forall v | Leads(kiss, w, v) :: AtMostOneJoins(v)
  }

  lemma LeadsToItself(kiss: Kiss, w: World)
    ensures Leads(kiss, w, w)
  {
    var worlds, steps: seq<Step> := [w], [];
    assert IsRun(kiss, worlds, steps) && HarmlessUpTo(kiss, worlds, steps, |steps|);
  }

  lemma RunGoesOn(kiss: Kiss, worlds: seq<World>, steps: seq<Step>, step: Step)
    requires IsRun(kiss, worlds, steps) && Enabled(worlds[|steps|], step)
    ensures IsRun(kiss, worlds + [Next(kiss, worlds[|steps|], step)], steps + [step])
  {
    var worlds', steps' := worlds + [Next(kiss, worlds[|steps|], step)], steps + [step];
    forall k: nat | k < |steps'|
      ensures StepsTo(kiss, worlds', steps', k)
    {
      if k < |steps| {
        assert StepsTo(kiss, worlds, steps, k);
      }
    }
  }

  lemma LeadsFurther(kiss: Kiss, w: World, v: World, step: Step)
    requires Leads(kiss, w, v) && Enabled(v, step) && Harmless(kiss, v, step)
    ensures Leads(kiss, w, Next(kiss, v, step))
  {
    var worlds, steps :|
      && IsRun(kiss, worlds, steps) && HarmlessUpTo(kiss, worlds, steps, |steps|)
      && worlds[0] == w && worlds[|steps|] == v;
    var worlds', steps' := worlds + [Next(kiss, v, step)], steps + [step];
    RunGoesOn(kiss, worlds, steps, step);
    forall k: nat | k < |steps'|
      ensures HarmlessAt(kiss, worlds', steps', k)
    {
      assert StepsTo(kiss, worlds', steps', k);
      if k < |steps| {
        assert HarmlessAt(kiss, worlds, steps, k);
      }
    }
    assert IsRun(kiss, worlds', steps') && HarmlessUpTo(kiss, worlds', steps', |steps'|);
  }

  /** What a join decision does. */
  lemma JoinIsDecided(kiss: Kiss, w: World, i: nat)
    requires DistinctIds(w.boxes) && i < |w.boxes|
    requires w.boxes[i].group.role == ControlPlane && MayBeDecided(w, i)
    requires MayJoin(w.boxes, w.boxes[i].group.cluster, i)
    ensures var b := w.boxes[i];
            Next(kiss, w, Decide(i, 0)) ==
            w.(pending := w.pending[i := Status(Joining, HasPrimary(b), Some(b.group), 0)], joinJobs := w.joinJobs + {i})
  {
    var cluster := w.boxes[i].group.cluster;
    GateMeaning(w.boxes, cluster, i, cluster == DEFAULT_CLUSTER);
  }

  /** In v the control planes of the group of box i among the first n run, except boxes
      i and j; everything else is as in w. */
  ghost predicate Relieves(w: World, v: World, i: nat, j: nat, n: nat)
    requires i < |w.boxes|
  {
    && |v.boxes| == |w.boxes| && v.pending == w.pending
    && forall k | 0 <= k < |w.boxes| ::
         && v.boxes[k].uuid == w.boxes[k].uuid && v.boxes[k].createdAt == w.boxes[k].createdAt
         && v.boxes[k].group == w.boxes[k].group
         && (if k < n && k != i && k != j && w.boxes[k].group == w.boxes[i].group then StateOf(v.boxes[k]).Running?
             else v.boxes[k] == w.boxes[k])
  }

  /** The jobs of all control planes but two may succeed when none of them is decided. */
  lemma {:induction false} OthersRun(kiss: Kiss, w: World, i: nat, j: nat, n: nat) returns (v: World)
    requires i < |w.boxes| && n <= |w.boxes|
    requires forall k: nat | k < |w.boxes| && w.boxes[k].group == w.boxes[i].group && JoinPending(w, k) :: k == i || k == j
    ensures Leads(kiss, w, v) && Relieves(w, v, i, j, n)
  {
    if n == 0 {
      v := w;
      LeadsToItself(kiss, w);
    } else {
      v := OthersRun(kiss, w, i, j, n - 1);
      if n - 1 != i && n - 1 != j && w.boxes[n - 1].group == w.boxes[i].group {
        LeadsFurther(kiss, w, v, JobSucceeded(n - 1, 0));
        v := Next(kiss, v, JobSucceeded(n - 1, 0));
      }
    }
  }

  lemma TwoDecided(w: World, i: nat, j: nat)
    requires i < |w.boxes| && j < |w.boxes| && i != j && Peers(w, i, j)
    requires JoinPending(w, i) && JoinPending(w, j)
    ensures !AtMostOneJoins(w)
  {
    assert Peers(w, j, i);
    assert Busy(w, i) && Busy(w, j);
  }

  lemma NoOtherDecided(w: World, i: nat)
    requires AtMostOneJoins(w) && i < |w.boxes| && JoinPending(w, i) && w.boxes[i].group.role == ControlPlane
    ensures forall k: nat | k < |w.boxes| && w.boxes[k].group == w.boxes[i].group && JoinPending(w, k) :: k == i
  {
    forall k: nat | k < |w.boxes| && w.boxes[k].group == w.boxes[i].group && JoinPending(w, k)
      ensures k == i
    {
      if k != i {
        TwoDecided(w, i, k);
      }
    }
  }

  /** A decided box that is neither ready nor running may be commissioned. */
  lemma DecidedIsReady(kiss: Kiss, w: World, v: World, i: nat) returns (u: World)
    requires Leads(kiss, w, v) && i < |v.boxes| && i in v.pending
    ensures Leads(kiss, w, u) && u.pending == v.pending && |u.boxes| == |v.boxes|
    ensures IsReadyBox(u.boxes[i]) && u.boxes[i] == v.boxes[i].(status := u.boxes[i].status)
    ensures forall k | 0 <= k < |v.boxes| && k != i :: u.boxes[k] == v.boxes[k]
  {
    u := v;
    if !IsReadyBox(v.boxes[i]) {
      LeadsFurther(kiss, w, v, Commission(i, true, true, 0));
      u := Next(kiss, v, Commission(i, true, true, 0));
    }
  }

  /** Once an older peer of a decided box may be decided, it can be. */
  lemma OlderIsDecidedToo(kiss: Kiss, w: World, i: nat, j: nat) returns (bad: World)
    requires DistinctIds(w.boxes) && AtMostOneJoins(w)
    requires i < |w.boxes| && j < |w.boxes| && JoinPending(w, i) && Peers(w, i, j)
    requires Older(w.boxes[j], w.boxes[i]) && MayBeDecided(w, j)
    ensures Leads(kiss, w, bad) && !AtMostOneJoins(bad)
  {
    NoOtherDecided(w, i);
    var v := OthersRun(kiss, w, i, j, |w.boxes|);
    var u := DecidedIsReady(kiss, w, v, i);
    assert u.boxes[j] == w.boxes[j] && u.pending == w.pending;
    assert MayJoin(u.boxes, u.boxes[j].group.cluster, j) by {
      assert forall k | 0 <= k < |u.boxes| && IsControlPlane(u.boxes[k], u.boxes[j].group.cluster) && k != i && k != j ::
          StateOf(u.boxes[k]).Running?;
    }
    JoinIsDecided(kiss, u, j);
    LeadsFurther(kiss, w, u, Decide(j, 0));
    bad := Next(kiss, u, Decide(j, 0));
    TwoDecided(bad, i, j);
  }

  lemma {:induction false} UnusedId(boxes: seq<Box>) returns (uuid: nat)
    ensures forall k | 0 <= k < |boxes| :: boxes[k].uuid < uuid
  {
    if boxes == [] {
      uuid := 0;
    } else {
      var n := |boxes| - 1;
      var before := UnusedId(boxes[..n]);
      uuid := if before > boxes[n].uuid then before else boxes[n].uuid + 1;
      assert forall k | 0 <= k < n :: boxes[..n][k] == boxes[k];
    }
  }

  /** A new machine may register, be moved into the group of box i and be commissioned
      there, younger than box i. */
  lemma NewcomerArrives(kiss: Kiss, w: World, v: World, i: nat) returns (u: World)
    requires Leads(kiss, w, v) && DistinctIds(v.boxes) && (forall k | k in v.pending :: k < |v.boxes|)
    requires i < |v.boxes| && v.boxes[i].group.role == ControlPlane
    requires forall k: nat | k < |v.boxes| && v.boxes[k].group == v.boxes[i].group && JoinPending(v, k) :: k == i
    ensures Leads(kiss, w, u) && u.pending == v.pending && DistinctIds(u.boxes)
    ensures |u.boxes| == |v.boxes| + 1 && u.boxes[..|v.boxes|] == v.boxes
    ensures u.boxes[|v.boxes|].group == v.boxes[i].group && MayBeDecided(u, |v.boxes|)
  {
    var y, g := |v.boxes|, v.boxes[i].group;
    var uuid := UnusedId(v.boxes);
    var createdAt := Some(if v.boxes[i].createdAt.Some? then v.boxes[i].createdAt.value + 1 else 0);
    assert IndexOf(v.boxes, uuid).None?;
    LeadsFurther(kiss, w, v, Register(uuid, createdAt, 0));
    var a := Next(kiss, v, Register(uuid, createdAt, 0));
    assert a.boxes == v.boxes + [Box(uuid, createdAt, DEFAULT_GROUP, Some(Status(New, true, None, 0)))];
    LeadsFurther(kiss, w, a, SetGroup(y, g));
    var b := Next(kiss, a, SetGroup(y, g));
    assert forall k | 0 <= k < y :: b.boxes[k] == v.boxes[k];
    forall k: nat | k < |b.boxes| && JoinPending(b, k) && Peers(b, k, y)
      ensures k == i
    {
      assert k < y && JoinPending(v, k);
    }
    LeadsFurther(kiss, w, b, Commission(y, true, true, 0));
    u := Next(kiss, b, Commission(y, true, true, 0));
  }

  /** Once a decided box runs, a younger peer can be decided as well. */
  lemma YoungerIsDecidedToo(kiss: Kiss, w: World, i: nat) returns (bad: World)
    requires DistinctIds(w.boxes) && AtMostOneJoins(w) && (forall k | k in w.pending :: k < |w.boxes|)
    requires i < |w.boxes| && JoinPending(w, i) && w.boxes[i].group.role == ControlPlane
    requires StateOf(w.boxes[i]).Running?
    ensures Leads(kiss, w, bad) && !AtMostOneJoins(bad)
  {
    NoOtherDecided(w, i);
    var v := OthersRun(kiss, w, i, i, |w.boxes|);
    assert forall k: nat | k < |v.boxes| && JoinPending(v, k) :: JoinPending(w, k);
    var u := NewcomerArrives(kiss, w, v, i);
    var y := |v.boxes|;
    assert forall k | 0 <= k < y :: u.boxes[k] == v.boxes[k];
    JoinIsDecided(kiss, u, y);
    LeadsFurther(kiss, w, u, Decide(y, 0));
    bad := Next(kiss, u, Decide(y, 0));
    TwoDecided(bad, i, y);
  }

  /** A world is exclusive if and only if no harmless run from it breaks mutual
      exclusion: what the invariant says beyond mutual exclusion is needed. */
  lemma ExclusiveIffSafe(kiss: Kiss, w: World)
    requires DistinctIds(w.boxes) && (forall i | i in w.pending :: i < |w.boxes|) && PendingIsOrderly(w)
    ensures Exclusive(w) <==> IsSafe(kiss, w)
  {
    if Exclusive(w) {
      forall v | Leads(kiss, w, v)
        ensures AtMostOneJoins(v)
      {
        var worlds, steps :|
          && IsRun(kiss, worlds, steps) && HarmlessUpTo(kiss, worlds, steps, |steps|)
          && worlds[0] == w && worlds[|steps|] == v;
        JoinsAreExclusiveIff(kiss, worlds, steps, |steps|);
        assert Exclusive(worlds[|steps|]);
      }
    } else if !AtMostOneJoins(w) {
      LeadsToItself(kiss, w);
    } else {
      var i: nat :| i < |w.boxes| && JoinPending(w, i) && w.boxes[i].group.role == ControlPlane
        && (StateOf(w.boxes[i]).Running?
            || exists j: nat :: j < |w.boxes| && Peers(w, i, j) && Older(w.boxes[j], w.boxes[i]) && MayBeDecided(w, j));
      if StateOf(w.boxes[i]).Running? {
        var bad := YoungerIsDecidedToo(kiss, w, i);
      } else {
        var j: nat :| j < |w.boxes| && Peers(w, i, j) && Older(w.boxes[j], w.boxes[i]) && MayBeDecided(w, j);
        var bad := OlderIsDecidedToo(kiss, w, i, j);
      }
    }
  }

  lemma NewBoxesAreWorkers(kiss: Kiss, w: World, step: Step)
    requires Enabled(w, step)
    ensures var w' := Next(kiss, w, step);
            && |w.boxes| <= |w'.boxes| <= |w.boxes| + 1
            && (forall k | 0 <= k < |w.boxes| ::
                  w'.boxes[k].uuid == w.boxes[k].uuid && w'.boxes[k].createdAt == w.boxes[k].createdAt)
            && (forall k | |w.boxes| <= k < |w'.boxes| :: w'.boxes[k].group == DEFAULT_GROUP)
            && (DistinctIds(w.boxes) ==> DistinctIds(w'.boxes))
  {
  }

  lemma PendingStaysInRange(kiss: Kiss, w: World, step: Step)
    requires Enabled(w, step) && forall i | i in w.pending :: i < |w.boxes|
    ensures forall i | i in Next(kiss, w, step).pending :: i < |Next(kiss, w, step).boxes|
  {
  }

  /** A step is harmless if and only if mutual exclusion holds after it and after
      whatever harmless steps follow. */
  lemma HarmlessIffSafe(kiss: Kiss, w: World, step: Step)
    requires Exclusive(w) && PendingIsOrderly(w) && Enabled(w, step)
    ensures Harmless(kiss, w, step) <==> IsSafe(kiss, Next(kiss, w, step))
  {
    StepKeepsExclusiveIff(kiss, w, step);
    NewBoxesAreWorkers(kiss, w, step);
    PendingStaysInRange(kiss, w, step);
    ExclusiveIffSafe(kiss, Next(kiss, w, step));
  }

  // ----- who is let in

  /** The operator tries to let a ready box into this group. */
  predicate LetsIn(kiss: Kiss, g: Group) {
    && !g.role.ExternalWorker?
    && (g.role.GenericWorker? ==>
          kiss.defaultRole.GenericWorker? && (kiss.enableDefaultCluster || g.cluster != DEFAULT_CLUSTER))
  }

  /** A reconciliation decides that a box joins exactly if the box is ready, not bound to
      its group and of a role that is let in, and, for a control plane, all control planes
      are ready or running, it does not run and all older ones do; for another box, all
      control planes of the cluster run and it has one or is the default one. */
  lemma JoinIsDecidedIff(kiss: Kiss, w: World, i: nat, now: int)
    requires DistinctIds(w.boxes) && i < |w.boxes|
    ensures var b := w.boxes[i];
            DecidesJoin(kiss, w, Decide(i, now), i) <==>
            && StateOf(b) == Ready && BoundGroup(b) != Some(b.group) && LetsIn(kiss, b.group)
            && (if b.group.role == ControlPlane then MayJoin(w.boxes, b.group.cluster, i)
                else MayJoinAsWorker(w.boxes, b.group.cluster))
  {
    var g := w.boxes[i].group;
    LaunchesAreOrderly(kiss, w.boxes[i], now);
    if g.role == ControlPlane {
      GateMeaning(w.boxes, g.cluster, i, g.cluster == DEFAULT_CLUSTER);
    } else {
      WorkerGateMeaning(w.boxes, g.cluster, i);
    }
  }

  lemma {:induction false} IdsStayDistinct(kiss: Kiss, worlds: seq<World>, steps: seq<Step>, k: nat)
    requires IsRun(kiss, worlds, steps) && k <= |steps| && DistinctIds(worlds[0].boxes)
    ensures DistinctIds(worlds[k].boxes)
  {
    if k > 0 {
      IdsStayDistinct(kiss, worlds, steps, k - 1);
      assert StepsTo(kiss, worlds, steps, k - 1);
      NewBoxesAreWorkers(kiss, worlds[k - 1], steps[k - 1]);
    }
  }

  /** In every run, whatever its steps, all control planes of a cluster run whenever another
      box is decided to join it, and there is one unless it is the default cluster. */
  lemma WorkersFindControlPlanesRunning(kiss: Kiss, worlds: seq<World>, steps: seq<Step>, k: nat, i: nat)
    requires IsRun(kiss, worlds, steps) && k < |steps| && DistinctIds(worlds[0].boxes)
    requires DecidesJoin(kiss, worlds[k], steps[k], i) && worlds[k].boxes[i].group.role != ControlPlane
    ensures var boxes, cluster := worlds[k].boxes, worlds[k].boxes[i].group.cluster;
            && (forall j | 0 <= j < |boxes| && boxes[j].group == Group(cluster, ControlPlane) ::
                  StateOf(boxes[j]) == Running)
            && (cluster == "default" || exists j :: 0 <= j < |boxes| && boxes[j].group == Group(cluster, ControlPlane))
  {
    IdsStayDistinct(kiss, worlds, steps, k);
    JoinIsDecidedIff(kiss, worlds[k], i, steps[k].now);
  }

  // ----- machines that arrive

  lemma GoesOn(kiss: Kiss, worlds: seq<World>, steps: seq<Step>, step: Step)
    returns (worlds': seq<World>, steps': seq<Step>)
    requires IsRun(kiss, worlds, steps) && Enabled(worlds[|steps|], step)
    ensures IsRun(kiss, worlds', steps') && worlds'[0] == worlds[0] && |steps'| == |steps| + 1
    ensures worlds'[|steps'|] == Next(kiss, worlds[|steps|], step)
  {
    RunGoesOn(kiss, worlds, steps, step);
    worlds', steps' := worlds + [Next(kiss, worlds[|steps|], step)], steps + [step];
  }

  /** What a newly known machine looks like. */
  function Arrived(kiss: Kiss, uuid: nat, createdAt: Option<int>, status: Status): Box {
    Box(uuid, createdAt, Group("default", kiss.defaultRole), Some(status))
  }

  /** A machine that registers for the first time is given its role. */
  lemma NewMachineGetsRole(kiss: Kiss, w: World, uuid: nat, createdAt: Option<int>, t: int)
    returns (worlds: seq<World>, steps: seq<Step>)
    requires (forall j | 0 <= j < |w.boxes| :: w.boxes[j].uuid != uuid) && |w.boxes| !in w.pending
    ensures IsRun(kiss, worlds, steps) && worlds[0] == w
    ensures worlds[|steps|] == w.(boxes := w.boxes + [Arrived(kiss, uuid, createdAt, Status(New, true, None, t))])
  {
    assert IndexOf(w.boxes, uuid).None?;
    worlds, steps := [w], [];
    worlds, steps := GoesOn(kiss, worlds, steps, Register(uuid, createdAt, t));
    if kiss.defaultRole != GenericWorker {
      worlds, steps := GoesOn(kiss, worlds, steps, Decide(|w.boxes|, t));
    }
    assert worlds[|steps|].boxes == w.boxes + [Arrived(kiss, uuid, createdAt, Status(New, true, None, t))];
  }

  /** It is then commissioned. */
  lemma NewMachineIsCommissioned(kiss: Kiss, w: World, uuid: nat, createdAt: Option<int>, hasPrimary: bool, t: int)
    returns (worlds: seq<World>, steps: seq<Step>)
    requires (forall j | 0 <= j < |w.boxes| :: w.boxes[j].uuid != uuid) && |w.boxes| !in w.pending
    ensures IsRun(kiss, worlds, steps) && worlds[0] == w
    ensures worlds[|steps|] ==
            World(w.boxes + [Arrived(kiss, uuid, createdAt, Status(Ready, hasPrimary, None, t))],
                  w.pending, w.joinJobs - {|w.boxes|})
  {
    var n := |w.boxes|;
    worlds, steps := NewMachineGetsRole(kiss, w, uuid, createdAt, t);
    worlds, steps := GoesOn(kiss, worlds, steps, Decide(n, t));
    worlds, steps := GoesOn(kiss, worlds, steps, WriteStatus(n, t));
    worlds, steps := GoesOn(kiss, worlds, steps, Commission(n, hasPrimary, true, t));
    assert worlds[|steps|].boxes == w.boxes + [Arrived(kiss, uuid, createdAt, Status(Ready, hasPrimary, None, t))];
    assert worlds[|steps|].pending == w.pending;
  }

  lemma ArrivalKeepsGate(kiss: Kiss, boxes: seq<Box>, b: Box, cluster: string)
    requires MayJoinAsWorker(boxes, cluster) && !IsControlPlane(b, cluster)
    ensures MayJoinAsWorker(boxes + [b], cluster)
  {
    var all := boxes + [b];
    assert forall j | 0 <= j < |boxes| :: all[j] == boxes[j];
    if j :| 0 <= j < |boxes| && IsControlPlane(boxes[j], cluster) {
      assert IsControlPlane(all[j], cluster);
    }
  }

  /** A new machine of a default role that is let in ends up running and bound to the default
      cluster if the control planes there run. */
  lemma NewMachineJoins(kiss: Kiss, w: World, uuid: nat, createdAt: Option<int>, hasPrimary: bool, t: int)
    returns (worlds: seq<World>, steps: seq<Step>)
    requires DistinctIds(w.boxes)
    requires (forall j | 0 <= j < |w.boxes| :: w.boxes[j].uuid != uuid) && |w.boxes| !in w.pending
    requires kiss.defaultRole != ControlPlane && LetsIn(kiss, Group("default", kiss.defaultRole))
    requires MayJoinAsWorker(w.boxes, "default")
    ensures IsRun(kiss, worlds, steps) && worlds[0] == w
    ensures worlds[|steps|] ==
            World(w.boxes + [Arrived(kiss, uuid, createdAt,
                                     Status(Running, hasPrimary, Some(Group("default", kiss.defaultRole)), t))],
                  w.pending, w.joinJobs + {|w.boxes|})
  {
    var n := |w.boxes|;
    worlds, steps := NewMachineIsCommissioned(kiss, w, uuid, createdAt, hasPrimary, t);
    var ready := worlds[|steps|];
    ArrivalKeepsGate(kiss, w.boxes, ready.boxes[n], "default");
    JoinIsDecidedIff(kiss, ready, n, t);
    worlds, steps := GoesOn(kiss, worlds, steps, Decide(n, t));
    worlds, steps := GoesOn(kiss, worlds, steps, WriteStatus(n, t));
    worlds, steps := GoesOn(kiss, worlds, steps, JobSucceeded(n, t));
    var bound := Status(Running, hasPrimary, Some(Group("default", kiss.defaultRole)), t);
    assert worlds[|steps|].boxes == w.boxes + [Arrived(kiss, uuid, createdAt, bound)];
    assert worlds[|steps|].pending == w.pending;
    assert worlds[|steps|].joinJobs == w.joinJobs + {n};
  }

  /** A decision that launches or repeats a job drops the earlier join job of its box, and
      only a join that is let in creates one. */
  lemma JobsFollowDecisions(kiss: Kiss, w: World, i: nat, now: int, j: nat)
    requires i < |w.boxes| && i !in w.pending
    ensures var m := NextMove(kiss, w.boxes[i], now);
            j in Next(kiss, w, Decide(i, now)).joinJobs <==>
            || (j == i && DecidesJoin(kiss, w, Decide(i, now), i))
            || (j in w.joinJobs && (j == i ==> !m.Launch? && !m.Respawn?))
  {
  }

  /** A box whose job failed keeps its binding and is not decided to join before it is
      commissioned again. */
  lemma FailedBoxWaits(kiss: Kiss, w: World, i: nat, t: int, now: int)
    requires i < |w.boxes|
    ensures var failed := Next(kiss, w, JobFailed(i, t));
            && StateOf(failed.boxes[i]) == Failed && BoundGroup(failed.boxes[i]) == BoundGroup(w.boxes[i])
            && !DecidesJoin(kiss, failed, Decide(i, now), i)
  {
  }

  // ----- machines that come back

  /** A box bound to its group that registers and is commissioned again runs at the
      next decision, without a join, exactly if the commissioning did not reset it;
      after a reset it is decided to join exactly if the gate is open. */
  lemma ReturningBoxSkipsJoin(
    kiss: Kiss, w: World, i: nat, createdAt: Option<int>, hasPrimary: bool, reset: bool, t1: int, t2: int, t3: int)
    requires DistinctIds(w.boxes) && i < |w.boxes| && i !in w.pending
    requires BoundGroup(w.boxes[i]) == Some(w.boxes[i].group) && LetsIn(kiss, w.boxes[i].group)
    ensures var ready := Next(kiss, Next(kiss, w, Register(w.boxes[i].uuid, createdAt, t1)),
                              Commission(i, hasPrimary, reset, t2));
            var after := Next(kiss, ready, Decide(i, t3));
            && (StateOf(after.boxes[i]).Running? <==> !reset)
            && (JoinPending(after, i) <==> reset && GateOpen(ready, i))
            && (!reset ==> BoundGroup(after.boxes[i]) == Some(w.boxes[i].group)
                           && after.pending == w.pending && after.joinJobs == w.joinJobs)
  {
    var k := IndexOf(w.boxes, w.boxes[i].uuid);
    assert k == Some(i);
  }

  // ----- timeouts and group changes

  /** A join is given up exactly if nothing is heard for more than two hours after its
      status was written. */
  lemma JoinTimesOutIff(kiss: Kiss, w: World, i: nat, written: int, now: int)
    requires i < |w.boxes| && i in w.pending && w.pending[i].state == Joining
    requires w.boxes[i].group.role != GenericWorker
    ensures var joining := Next(kiss, w, WriteStatus(i, written));
            var after := Next(kiss, joining, Decide(i, now));
            if now > written + 7200 then i in after.pending && after.pending[i].state == Failed
            else after.pending == joining.pending && after.boxes == joining.boxes
  {
  }

  /** A running box that is moved to a group is disconnected at its next decision exactly
      if it is not bound to that group; it keeps its old binding until it is reset. */
  lemma RegroupedBoxLeavesIff(kiss: Kiss, w: World, i: nat, g: Group, now: int)
    requires i < |w.boxes| && i !in w.pending && StateOf(w.boxes[i]) == Running && g.role != GenericWorker
    ensures var after := Next(kiss, Next(kiss, w, SetGroup(i, g)), Decide(i, now));
            && (i in after.pending <==> BoundGroup(w.boxes[i]) != Some(g))
            && (i in after.pending ==>
                  after.pending[i].state == Disconnected && after.pending[i].bindGroup == BoundGroup(w.boxes[i]))
            && StateOf(after.boxes[i]) == Running
  {
  }

  // ----- what harmful steps lead to

  ghost predicate TwoControlPlanes(w: World, older: BoxState, younger: BoxState) {
    && |w.boxes| == 2 && w.pending == map[]
    && w.boxes[0].uuid != w.boxes[1].uuid && Older(w.boxes[0], w.boxes[1])
    && w.boxes[0].group.role == ControlPlane && w.boxes[1].group == w.boxes[0].group
    && StateOf(w.boxes[0]) == older && StateOf(w.boxes[1]) == younger
    && BoundGroup(w.boxes[1]) == None
  }

  lemma RunOfThree(kiss: Kiss, w: World, w1: World, w2: World, w3: World, s1: Step, s2: Step, s3: Step)
    requires Enabled(w, s1) && Next(kiss, w, s1) == w1
    requires Enabled(w1, s2) && Next(kiss, w1, s2) == w2
    requires Enabled(w2, s3) && Next(kiss, w2, s3) == w3
    ensures IsRun(kiss, [w, w1, w2, w3], [s1, s2, s3])
  {
  }

  /** The join job of a decided box must not report before the decision is
      written: the next control plane would be decided as well. */
  lemma EarlyResultBreaksExclusion(kiss: Kiss, w: World) returns (worlds: seq<World>, steps: seq<Step>)
    requires TwoControlPlanes(w, Ready, Ready) && BoundGroup(w.boxes[0]) == None
    ensures IsRun(kiss, worlds, steps) && worlds[0] == w
    ensures steps == [Decide(0, 0), JobSucceeded(0, 0), Decide(1, 0)]
    ensures !AtMostOneJoins(worlds[3])
  {
    JoinIsDecided(kiss, w, 0);
    var w1 := Next(kiss, w, Decide(0, 0));
    var w2 := WithState(w1, 0, Running, 0);
    JoinIsDecided(kiss, w2, 1);
    var w3 := Next(kiss, w2, Decide(1, 0));
    TwoDecided(w3, 0, 1);
    RunOfThree(kiss, w, w1, w2, w3, Decide(0, 0), JobSucceeded(0, 0), Decide(1, 0));
    worlds, steps := [w, w1, w2, w3], [Decide(0, 0), JobSucceeded(0, 0), Decide(1, 0)];
  }

  /** The younger box is decided, and the older one fails and is commissioned again. */
  lemma LateCommission(kiss: Kiss, w: World) returns (worlds: seq<World>, steps: seq<Step>, last: World)
    requires TwoControlPlanes(w, Running, Ready)
    ensures IsRun(kiss, worlds, steps) && worlds[0] == w && worlds[|steps|] == last
    ensures steps == [Decide(1, 0), JobFailed(0, 0), Commission(0, true, true, 0)]
    ensures |last.boxes| == 2 && last.pending.Keys == {1} && JoinPending(last, 1)
    ensures last.boxes[0] == w.boxes[0].(status := Some(Status(Ready, true, None, 0))) && last.boxes[1] == w.boxes[1]
  {
    JoinIsDecided(kiss, w, 1);
    var w1 := Next(kiss, w, Decide(1, 0));
    var w2 := WithState(w1, 0, Failed, 0);
    last := WithStatus(w2, 0, Status(Ready, true, None, 0));
    RunOfThree(kiss, w, w1, w2, last, Decide(1, 0), JobFailed(0, 0), Commission(0, true, true, 0));
    worlds, steps := [w, w1, w2, last], [Decide(1, 0), JobFailed(0, 0), Commission(0, true, true, 0)];
  }

  lemma LateDecision(kiss: Kiss, w: World) returns (bad: World)
    requires |w.boxes| == 2 && DistinctIds(w.boxes) && w.pending.Keys == {1} && JoinPending(w, 1)
    requires w.boxes[0].group.role == ControlPlane && w.boxes[1].group == w.boxes[0].group
    requires MayBeDecided(w, 0) && StateOf(w.boxes[1]) == Ready && Older(w.boxes[0], w.boxes[1])
    ensures bad == Next(kiss, w, Decide(0, 0)) && !AtMostOneJoins(bad)
  {
    JoinIsDecided(kiss, w, 0);
    bad := Next(kiss, w, Decide(0, 0));
    TwoDecided(bad, 0, 1);
  }

  /** An older control plane must not be commissioned with a reset between a decision and
      its write: it would be decided as well. */
  lemma LateCommissionBreaksExclusion(kiss: Kiss, w: World) returns (worlds: seq<World>, steps: seq<Step>)
    requires TwoControlPlanes(w, Running, Ready)
    ensures IsRun(kiss, worlds, steps) && worlds[0] == w
    ensures steps == [Decide(1, 0), JobFailed(0, 0), Commission(0, true, true, 0), Decide(0, 0)]
    ensures !AtMostOneJoins(worlds[4])
  {
    var w3;
    worlds, steps, w3 := LateCommission(kiss, w);
    var w4 := LateDecision(kiss, w3);
    RunGoesOn(kiss, worlds, steps, Decide(0, 0));
    worlds, steps := worlds + [w4], steps + [Decide(0, 0)];
  }

  // ----- bring-up order and quorum

  /** The box has been let in at some time: it runs, joins, is decided, has a live
      join job, or is or will be bound to its group. */
  predicate Started(w: World, i: nat)
    requires i < |w.boxes|
  {
    var b := w.boxes[i];
    || StateOf(b).Running? || StateOf(b).Joining?
    || i in w.joinJobs
    || BoundGroup(b) == Some(b.group)
    || (i in w.pending && (w.pending[i].state.Joining? || w.pending[i].bindGroup == Some(b.group)))
  }

  /** Every started control plane of the cluster has all older ones running. */
  ghost predicate InOrder(w: World, cluster: string) {
    && DistinctIds(w.boxes)
    && (forall i | i in w.pending :: i < |w.boxes|)
    && (forall i | i in w.joinJobs :: i < |w.boxes|)
    && PendingIsOrderly(w)
    && forall i, j | 0 <= i < |w.boxes| && 0 <= j < |w.boxes|
         && IsControlPlane(w.boxes[i], cluster) && IsControlPlane(w.boxes[j], cluster)
         && Started(w, i) && Older(w.boxes[j], w.boxes[i]) ::
           StateOf(w.boxes[j]).Running?
  }

  /** Bring-up: the cluster's membership is fixed, no control plane leaves Running,
      and only live join jobs report success. */
  ghost predicate BringsUp(kiss: Kiss, w: World, step: Step, cluster: string)
    requires Enabled(w, step)
  {
    var w' := Next(kiss, w, step);
    && |w.boxes| <= |w'.boxes|
    && (forall i | 0 <= i < |w.boxes| ::
          (IsControlPlane(w.boxes[i], cluster) || IsControlPlane(w'.boxes[i], cluster)) ==>
            w'.boxes[i].group == w.boxes[i].group)
    && (forall i | 0 <= i < |w.boxes| && IsControlPlane(w.boxes[i], cluster) && StateOf(w.boxes[i]).Running? ::
          StateOf(w'.boxes[i]).Running?)
    && (step.JobSucceeded? ==> step.i in w.joinJobs)
  }

  /** A started control plane after a step was started before, or the gate has just
      let it in. */
  lemma StartedComesFromGate(kiss: Kiss, w: World, step: Step, cluster: string, i: nat)
    requires InOrder(w, cluster) && Enabled(w, step) && BringsUp(kiss, w, step, cluster)
    requires i < |w.boxes| && IsControlPlane(w.boxes[i], cluster)
    requires Started(Next(kiss, w, step), i)
    ensures Started(w, i) || DecidesJoin(kiss, w, step, i)
  {
    if step.Decide? {
      LaunchesAreOrderly(kiss, w.boxes[step.i], step.now);
    }
  }

  lemma StepKeepsOrder(kiss: Kiss, w: World, step: Step, cluster: string)
    requires InOrder(w, cluster) && Enabled(w, step) && BringsUp(kiss, w, step, cluster)
    ensures InOrder(Next(kiss, w, step), cluster)
  {
    var w' := Next(kiss, w, step);
    NewBoxesAreWorkers(kiss, w, step);
    if step.Decide? {
      LaunchesAreOrderly(kiss, w.boxes[step.i], step.now);
    }
    forall i, j | 0 <= i < |w'.boxes| && 0 <= j < |w'.boxes|
      && IsControlPlane(w'.boxes[i], cluster) && IsControlPlane(w'.boxes[j], cluster)
      && Started(w', i) && Older(w'.boxes[j], w'.boxes[i])
      ensures StateOf(w'.boxes[j]).Running?
    {
      StartedComesFromGate(kiss, w, step, cluster, i);
      if !Started(w, i) {
        GateMeaning(w.boxes, cluster, i, cluster == DEFAULT_CLUSTER);
      }
      assert StateOf(w.boxes[j]).Running?;
    }
  }

  ghost predicate BringsUpAt(kiss: Kiss, worlds: seq<World>, steps: seq<Step>, cluster: string, k: nat)
    requires k < |steps| && k + 1 < |worlds|
  {
    StepsTo(kiss, worlds, steps, k) && BringsUp(kiss, worlds[k], steps[k], cluster)
  }

  ghost predicate IsBringUp(kiss: Kiss, worlds: seq<World>, steps: seq<Step>, cluster: string) {
    && IsRun(kiss, worlds, steps)
    && (forall k: nat | k < |steps| :: BringsUpAt(kiss, worlds, steps, cluster, k))
    && InOrder(worlds[0], cluster)
  }

  /** A fresh cluster, with nothing bound, decided or running, is in order. */
  lemma FreshClusterIsInOrder(w: World, cluster: string)
    requires DistinctIds(w.boxes) && w.pending == map[] && w.joinJobs == {}
    requires forall i | 0 <= i < |w.boxes| && IsControlPlane(w.boxes[i], cluster) ::
               && !StateOf(w.boxes[i]).Running? && !StateOf(w.boxes[i]).Joining?
               && BoundGroup(w.boxes[i]) != Some(w.boxes[i].group)
    ensures InOrder(w, cluster)
  {
  }

  lemma {:induction false} BringUpStaysInOrder(kiss: Kiss, worlds: seq<World>, steps: seq<Step>, cluster: string, k: nat)
    requires IsBringUp(kiss, worlds, steps, cluster) && k < |worlds|
    ensures InOrder(worlds[k], cluster)
  {
    if k > 0 {
      BringUpStaysInOrder(kiss, worlds, steps, cluster, k - 1);
      assert BringsUpAt(kiss, worlds, steps, cluster, k - 1);
      StepKeepsOrder(kiss, worlds[k - 1], steps[k - 1], cluster);
    }
  }

  /** The running or joining control planes form a prefix in creation order. */
  lemma MembersFormPrefix(kiss: Kiss, worlds: seq<World>, steps: seq<Step>, cluster: string, k: nat, i: nat, j: nat)
    requires IsBringUp(kiss, worlds, steps, cluster) && k < |worlds|
    requires i < |worlds[k].boxes| && j < |worlds[k].boxes|
    requires IsControlPlane(worlds[k].boxes[i], cluster) && IsControlPlane(worlds[k].boxes[j], cluster)
    requires StateOf(worlds[k].boxes[i]).Running? || StateOf(worlds[k].boxes[i]).Joining?
    requires Older(worlds[k].boxes[j], worlds[k].boxes[i])
    ensures StateOf(worlds[k].boxes[j]).Running?
  {
    BringUpStaysInOrder(kiss, worlds, steps, cluster, k);
    assert Started(worlds[k], i);
  }

  /** No control plane of the cluster stopped running. */
  ghost predicate RunningKept(earlier: seq<Box>, later: seq<Box>, cluster: string) {
    && |earlier| <= |later|
    && forall i | 0 <= i < |earlier| && IsControlPlane(earlier[i], cluster) && StateOf(earlier[i]).Running? ::
         StateOf(later[i]).Running?
  }

  lemma StepKeepsRoster(kiss: Kiss, w: World, step: Step, cluster: string)
    requires Enabled(w, step) && BringsUp(kiss, w, step, cluster)
    ensures SameRoster(w.boxes, Next(kiss, w, step).boxes, cluster)
    ensures RunningKept(w.boxes, Next(kiss, w, step).boxes, cluster)
  {
    NewBoxesAreWorkers(kiss, w, step);
  }

  lemma RosterIsTransitive(a: seq<Box>, b: seq<Box>, c: seq<Box>, cluster: string)
    requires SameRoster(a, b, cluster) && SameRoster(b, c, cluster)
    ensures SameRoster(a, c, cluster)
    ensures RunningKept(a, b, cluster) && RunningKept(b, c, cluster) ==> RunningKept(a, c, cluster)
  {
  }

  lemma BringUpStepKeepsRoster(kiss: Kiss, worlds: seq<World>, steps: seq<Step>, cluster: string, k: nat)
    requires IsBringUp(kiss, worlds, steps, cluster) && k < |steps|
    ensures SameRoster(worlds[k].boxes, worlds[k + 1].boxes, cluster)
    ensures RunningKept(worlds[k].boxes, worlds[k + 1].boxes, cluster)
  {
    assert BringsUpAt(kiss, worlds, steps, cluster, k);
    StepKeepsRoster(kiss, worlds[k], steps[k], cluster);
  }

  lemma RosterOfOne(boxes: seq<Box>, cluster: string)
    ensures SameRoster(boxes, boxes, cluster) && RunningKept(boxes, boxes, cluster)
  {
  }

  lemma {:induction false} RosterIsFixed(
    kiss: Kiss, worlds: seq<World>, steps: seq<Step>, cluster: string, k1: nat, k2: nat)
    requires IsBringUp(kiss, worlds, steps, cluster) && k1 <= k2 < |worlds|
    ensures SameRoster(worlds[k1].boxes, worlds[k2].boxes, cluster)
    ensures RunningKept(worlds[k1].boxes, worlds[k2].boxes, cluster)
    decreases k2
  {
    if k1 == k2 {
      RosterOfOne(worlds[k1].boxes, cluster);
    } else {
      RosterIsFixed(kiss, worlds, steps, cluster, k1, k2 - 1);
      BringUpStepKeepsRoster(kiss, worlds, steps, cluster, k2 - 1);
      RosterIsTransitive(worlds[k1].boxes, worlds[k2 - 1].boxes, worlds[k2].boxes, cluster);
    }
  }

  /** The etcd nodes selected for a join of box i. */
  function EtcdFor(w: World, cluster: string, i: nat, max: nat): seq<nat>
    requires i < |w.boxes|
  {
    var members := RunningWith(Load(w.boxes, cluster), w.boxes[i].uuid);
    Uuids(members[..EtcdSize(|members|, max)])
  }

  /** At a join decision the members are the whole creation order up to the joining
      box. */
  lemma DecisionSeesPrefix(kiss: Kiss, w: World, step: Step, cluster: string, i: nat) returns (p: nat)
    requires InOrder(w, cluster) && Enabled(w, step) && DecidesJoin(kiss, w, step, i)
    requires IsControlPlane(w.boxes[i], cluster)
    ensures p < |Load(w.boxes, cluster)| && Load(w.boxes, cluster)[p] == FromBox(w.boxes[i])
    ensures RunningWith(Load(w.boxes, cluster), w.boxes[i].uuid) == Load(w.boxes, cluster)[..p + 1]
  {
    var nodes := Load(w.boxes, cluster);
    GateMeaning(w.boxes, cluster, i, cluster == DEFAULT_CLUSTER);
    LoadIsFaithful(w.boxes, cluster);
    p := PositionOf(w.boxes, cluster, i);
    OlderRunAmongNodes(w.boxes, cluster, i, p);
    forall k | 0 <= k < |nodes|
      ensures nodes[k].isRunning <==> k < p
    {
      assert nodes[k] in nodes;
      var m :| 0 <= m < |w.boxes| && IsControlPlane(w.boxes[m], cluster) && nodes[k] == FromBox(w.boxes[m]);
      if p < k && nodes[k].isRunning {
        assert Before(nodes[p], nodes[k]);
        assert Older(w.boxes[i], w.boxes[m]) && Started(w, m);
      }
    }
    RunningWithIsPrefix(nodes, p);
  }

  /** If everything older than box i1 ran and still runs, a box that does not run
      later on sits at or after i1. */
  lemma LaterJoinsSitLater(a: World, b: World, cluster: string, i1: nat, p1: nat, i2: nat, p2: nat)
    requires DistinctIds(a.boxes) && DistinctIds(b.boxes)
    requires SameRoster(a.boxes, b.boxes, cluster)
    requires SameKeys(Load(a.boxes, cluster), Load(b.boxes, cluster))
    requires i1 < |a.boxes| && IsControlPlane(a.boxes[i1], cluster) && GateOpen(a, i1)
    requires i2 < |b.boxes| && IsControlPlane(b.boxes[i2], cluster) && GateOpen(b, i2)
    requires RunningKept(a.boxes, b.boxes, cluster)
    requires p1 < |Load(a.boxes, cluster)| && Load(a.boxes, cluster)[p1] == FromBox(a.boxes[i1])
    requires p2 < |Load(b.boxes, cluster)| && Load(b.boxes, cluster)[p2] == FromBox(b.boxes[i2])
    ensures p1 <= p2
  {
    GateMeaning(a.boxes, cluster, i1, cluster == DEFAULT_CLUSTER);
    GateMeaning(b.boxes, cluster, i2, cluster == DEFAULT_CLUSTER);
    LoadIsFaithful(a.boxes, cluster);
    var nodes := Load(a.boxes, cluster);
    assert SameKey(nodes[p2], Load(b.boxes, cluster)[p2]);
    assert forall x, y | 0 <= x < y < |nodes| :: Before(nodes[x], nodes[y]);
  }

  /** Longer prefixes of the same order give longer lists. */
  lemma PrefixQuorum(a: seq<Node>, b: seq<Node>, p1: nat, p2: nat, max: nat)
    requires SameKeys(a, b) && p1 <= p2 < |a|
    ensures var first, second := a[..p1 + 1], b[..p2 + 1];
            && Uuids(first[..EtcdSize(|first|, max)]) <= Uuids(second[..EtcdSize(|second|, max)])
            && |Uuids(first[..EtcdSize(|first|, max)])| % 2 == 1
  {
    var n1, n2 := EtcdSize(p1 + 1, max), EtcdSize(p2 + 1, max);
    assert n1 <= n2;
    var s, t := Uuids(a[..p1 + 1][..n1]), Uuids(b[..p2 + 1][..n2]);
    forall k | 0 <= k < n1
      ensures s[k] == t[k]
    {
      assert SameKey(a[k], b[k]);
    }
  }

  /** The etcd list of a later join decision extends that of an earlier one. */
  lemma QuorumOnlyGrows(
    kiss: Kiss, worlds: seq<World>, steps: seq<Step>, cluster: string, k1: nat, i1: nat, k2: nat, i2: nat, max: nat)
    requires IsBringUp(kiss, worlds, steps, cluster) && k1 <= k2 < |steps|
    requires DecidesJoin(kiss, worlds[k1], steps[k1], i1) && IsControlPlane(worlds[k1].boxes[i1], cluster)
    requires DecidesJoin(kiss, worlds[k2], steps[k2], i2) && IsControlPlane(worlds[k2].boxes[i2], cluster)
    ensures EtcdFor(worlds[k1], cluster, i1, max) <= EtcdFor(worlds[k2], cluster, i2, max)
    ensures |EtcdFor(worlds[k1], cluster, i1, max)| % 2 == 1
  {
    var a, b := worlds[k1], worlds[k2];
    assert StepsTo(kiss, worlds, steps, k1) && StepsTo(kiss, worlds, steps, k2);
    BringUpStaysInOrder(kiss, worlds, steps, cluster, k1);
    BringUpStaysInOrder(kiss, worlds, steps, cluster, k2);
    RosterIsFixed(kiss, worlds, steps, cluster, k1, k2);
    RosterKeys(a.boxes, b.boxes, cluster);
    var p1 := DecisionSeesPrefix(kiss, a, steps[k1], cluster, i1);
    var p2 := DecisionSeesPrefix(kiss, b, steps[k2], cluster, i2);
    LaterJoinsSitLater(a, b, cluster, i1, p1, i2, p2);
    PrefixQuorum(Load(a.boxes, cluster), Load(b.boxes, cluster), p1, p2, max);
  }
}
