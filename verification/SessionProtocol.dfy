/** The VINE session switch protocol: one node, its Argo application, the current
    binding, the clock and the handler on the node, driven by arbitrary
    interleavings of the operator, the handler and the environment. */
module SessionProtocol {
  import opened Wrappers
  import opened Session

  /** The session application, with the profile and revision it was built from. */
  datatype App = App(profile: string, revision: Option<string>, deleting: bool, synced: bool)

  datatype World = World(
    meta: Metadata,
    taints: seq<Taint>,
    app: Option<App>,
    target: Option<Target>,
    running: Option<bool>,
    now: int)

  datatype AppState = AppCreated | AppDeleted | AppDeleting | NodeNotReady

  datatype Step =
    | Operator(info: string, ready: bool)
    | Handler(seen: bool)
    | SetTarget(target: Option<Target>)
    | SyncApp(synced: bool)
    | StartDelete
    | FinishDelete
    | SetTaints(taints: seq<Taint>)
    | Tick(to: int)

  predicate IsLive(w: World) {
    w.app.Some? && !w.app.value.deleting
  }

  predicate LabelSaysSignedOut(w: World) {
    OrElse(w.meta.signedOut, true)
  }

  // ----- the operator

  function CreateApp(app: Option<App>, target: Target, ready: bool): (Option<App>, AppState) {
    if !ready then (app, NodeNotReady)
    else if app.None? then (Some(App(target.binding.profile, target.profile.revision, false, false)), AppCreated)
    else (app, AppCreated)
  }

  function DeleteApp(app: Option<App>): (Option<App>, AppState) {
    if app.Some? then (Some(app.value.(deleting := true)), AppDeleting) else (None, AppDeleted)
  }

  function UpdateApp(app: Option<App>, state: ProfileState, target: Option<Target>, grant: bool, ready: bool)
    : (Option<App>, AppState)
    requires state.Created? || state.Unchanged? ==> target.Some?
  {
    match state
    case Changed(_) => DeleteApp(app)
    case Deleted(Some(_)) => DeleteApp(app)
    case Deleted(None) => (app, AppDeleted)
    case Created => if grant then CreateApp(app, target.value, ready) else DeleteApp(app)
    case Unchanged => if grant then CreateApp(app, target.value, ready) else DeleteApp(app)
  }

  /** One reconciliation, its node patch included. `info` is the freshly collected
      resource information and `ready` says whether an application can be built. */
  function Reconcile(cfg: Config, w: World, info: string, ready: bool): World {
    if SigningOut(cfg, w.taints, w.now).Some? then w
    else if w.app.Some? && (w.app.value.deleting || !w.app.value.synced) then w
    else
      var current := SessionValue(w.meta, w.taints, IsUnreachable(w.taints));
      var collected := current.(meta := current.meta.(nodeInfo := info));
      var (bound, state) := ApplyProfile(cfg, collected, w.target, w.now);
      if bound.unreachable && !cfg.drainUnreachable then w
      else
        var mustSignOut := state.HasChanged() || bound.unreachable;
        var next := SetSignOut(cfg, bound, w.now, mustSignOut);
        var grant := !mustSignOut && next.meta.bind == Some(true);
        var (app, appState) := UpdateApp(w.app, state, w.target, grant, ready);
        var written :=
          if appState.AppDeleting? then current.(meta := current.meta.(bindRevision := None)) else next;
        if written == current then w.(app := app)
        else w.(app := app, meta := Patched(w.meta, written.meta), taints := written.taints)
  }

  // ----- the handler

  /** The handler reacts to the sign-out label it sees. */
  function Handle(cfg: Config, w: World, seen: bool): World {
    if seen then w.(running := Some(true))
    else if w.running == Some(false) then w
    else w.(running := Some(false), taints := Untainted(w.taints, cfg.labelSignedOut))
  }

  // ----- steps

  /** Profile names and revisions of stored objects are never empty. */
  predicate ProperTarget(t: Option<Target>) {
    t.Some? ==>
      && t.value.binding.profile != ""
      && t.value.profile.revision.Some?
      && t.value.profile.revision != Some("")
  }

  predicate Allowed(w: World, step: Step) {
    match step
    case SetTarget(target) => ProperTarget(target)
    case StartDelete => w.app.Some?
    case FinishDelete => w.app.Some? && w.app.value.deleting
    case SyncApp(_) => w.app.Some?
    case Tick(to) => w.now <= to
    case _ => true
  }

  function Next(cfg: Config, w: World, step: Step): World {
    match step
    case Operator(info, ready) => Reconcile(cfg, w, info, ready)
    case Handler(seen) => Handle(cfg, w, seen)
    case SetTarget(target) => w.(target := target)
    case SyncApp(synced) => if w.app.Some? then w.(app := Some(w.app.value.(synced := synced))) else w
    case StartDelete => if w.app.Some? then w.(app := Some(w.app.value.(deleting := true))) else w
    case FinishDelete => w.(app := None)
    case SetTaints(taints) => w.(taints := taints)
    case Tick(to) => w.(now := to)
  }

  function StateAt(cfg: Config, w: World, steps: seq<Step>, k: nat): World
    requires k <= |steps|
  {
    if k == 0 then w else Next(cfg, StateAt(cfg, w, steps, k - 1), steps[k - 1])
  }

  predicate AllowedAt(cfg: Config, w: World, steps: seq<Step>, k: nat)
    requires k < |steps|
  {
    Allowed(StateAt(cfg, w, steps, k), steps[k])
  }

  predicate IsRun(cfg: Config, w: World, steps: seq<Step>) {
    forall k: nat | k < |steps| :: AllowedAt(cfg, w, steps, k)
  }

  // ----- the application matches the record

  /** A live application was built from the recorded profile and revision, and a
      node without a recorded profile has no application at all. */
  predicate Recorded(w: World) {
    && ProperTarget(w.target)
    && w.meta.bindProfile != Some("")
    && (IsLive(w) ==>
          && w.meta.bindProfile == Some(w.app.value.profile)
          && w.meta.bindRevision == w.app.value.revision)
    && (w.app.Some? ==> w.meta.bindProfile.Some? && w.app.value.revision != Some(""))
  }

  lemma StepKeepsRecord(cfg: Config, w: World, step: Step)
    requires Recorded(w) && Allowed(w, step)
    ensures Recorded(Next(cfg, w, step))
  {
  }

  /** A reconciliation creates an application only on a bound node that it signs in,
      from the current target and if one can be built. */
  lemma AppIsCreatedSignedIn(cfg: Config, w: World, info: string, ready: bool)
    requires Recorded(w) && w.app.None? && Reconcile(cfg, w, info, ready).app.Some?
    ensures ready && w.target.Some?
    ensures var after := Reconcile(cfg, w, info, ready);
            && after.app == Some(App(w.target.value.binding.profile, w.target.value.profile.revision, false, false))
            && after.meta.bindProfile == Some(w.target.value.binding.profile)
            && after.meta.signedOut == Some(false)
  {
  }

  /** A reconciliation never removes or replaces an application; when it starts a
      deletion it forgets the recorded revision and keeps the recorded profile. */
  lemma AppIsNeverReplaced(cfg: Config, w: World, info: string, ready: bool)
    requires Recorded(w) && w.app.Some?
    ensures var after := Reconcile(cfg, w, info, ready);
            && after.app.Some?
            && after.app.value.profile == w.app.value.profile
            && after.app.value.revision == w.app.value.revision
            && (IsLive(w) && !IsLive(after) ==>
                  after.meta.bindRevision.None? && after.meta.bindProfile == w.meta.bindProfile)
  {
  }

  // ----- what a reconciliation brings about

  /** No sign-out is under way: there is no sign-out taint with a time, or its time is
      over. */
  predicate GraceIsOver(cfg: Config, w: World) {
    match TimeOf(w.taints, cfg.labelSignedOut)
    case Some(Some(t)) => t + cfg.duration <= w.now
    case _ => true
  }

  predicate IsReachable(w: World) {
    TimeOf(w.taints, UNREACHABLE).None?
  }

  /** The operator may act on the node: nothing is under way, and the node is reachable or
      unreachable nodes are drained. */
  predicate MayAct(cfg: Config, w: World) {
    && GraceIsOver(cfg, w)
    && (w.app.Some? ==> !w.app.value.deleting && w.app.value.synced)
    && (IsReachable(w) || cfg.drainUnreachable)
  }

  /** The node's record names the target's profile and revision. */
  predicate TargetIsRecorded(w: World) {
    && w.target.Some?
    && w.meta.bindProfile == Some(w.target.value.binding.profile)
    && w.meta.bindRevision == w.target.value.profile.revision
  }

  /** The node may hold a session of its target. */
  predicate MayHold(w: World) {
    IsReachable(w) && w.target.Some? && (w.meta.bindProfile.None? || TargetIsRecorded(w))
  }

  /** Otherwise it waits. */
  lemma OperatorWaits(cfg: Config, w: World, info: string, ready: bool)
    requires !MayAct(cfg, w)
    ensures Reconcile(cfg, w, info, ready) == w
  {
  }

  /** The application starts being deleted and the revision is forgotten; nothing else
      about the session changes. */
  predicate StartsDeletion(w: World, after: World) {
    && w.app.Some? && after.app == Some(w.app.value.(deleting := true))
    && after.meta.bindRevision.None? && after.meta.bindProfile == w.meta.bindProfile
    && after.taints == w.taints
  }

  lemma UnboundAppIsDeleted(cfg: Config, w: World, info: string, ready: bool)
    requires Recorded(w) && MayAct(cfg, w) && IsLive(w) && w.target.None?
    ensures StartsDeletion(w, Reconcile(cfg, w, info, ready))
  {
  }

  lemma StrandedAppIsDeleted(cfg: Config, w: World, info: string, ready: bool)
    requires Recorded(w) && MayAct(cfg, w) && IsLive(w) && w.target.Some?
    requires !IsReachable(w) || !TargetIsRecorded(w)
    ensures StartsDeletion(w, Reconcile(cfg, w, info, ready))
  {
  }

  lemma RecordedAppStays(cfg: Config, w: World, info: string, ready: bool)
    requires Recorded(w) && MayAct(cfg, w) && IsLive(w) && IsReachable(w) && TargetIsRecorded(w)
    ensures Reconcile(cfg, w, info, ready).app == w.app
  {
  }

  /** A live application stays exactly if the node is reachable and its target is the
      recorded one; if not, its deletion starts. */
  lemma LiveAppStaysIff(cfg: Config, w: World, info: string, ready: bool)
    requires Recorded(w) && MayAct(cfg, w) && IsLive(w)
    ensures var after := Reconcile(cfg, w, info, ready);
            if IsReachable(w) && TargetIsRecorded(w) then after.app == w.app else StartsDeletion(w, after)
  {
    if w.target.None? {
      UnboundAppIsDeleted(cfg, w, info, ready);
    } else if IsReachable(w) && TargetIsRecorded(w) {
      RecordedAppStays(cfg, w, info, ready);
    } else {
      StrandedAppIsDeleted(cfg, w, info, ready);
    }
  }

  /** An application appears exactly if it can be built and the node may hold it. */
  lemma AppAppearsIff(cfg: Config, w: World, info: string, ready: bool)
    requires Recorded(w) && MayAct(cfg, w) && w.app.None?
    ensures Reconcile(cfg, w, info, ready).app.Some? <==> ready && MayHold(w)
  {
  }

  /** Signed out, without an application, and nothing bound. */
  predicate IsCleared(w: World) {
    && w.app.None? && w.meta.signedOut == Some(true) && w.meta.bind == Some(false)
    && w.meta.bindProfile.None? && w.meta.bindRevision.None?
    && w.meta.bindTimestamp.None? && NonEmpty(w.meta.bindUser).None?
    && w.meta.computeMode == Some(VM) && w.meta.bindPersistent == Some(false) && w.meta.bindNamespace.None?
  }

  lemma UnboundEndsCleared(cfg: Config, w: World, info: string, ready: bool)
    requires Recorded(w) && MayAct(cfg, w) && w.app.None? && w.target.None?
    ensures IsCleared(Reconcile(cfg, w, info, ready)) && Reconcile(cfg, w, info, ready).meta.nodeInfo == info
  {
  }

  lemma OtherRecordEndsCleared(cfg: Config, w: World, info: string, ready: bool)
    requires Recorded(w) && MayAct(cfg, w) && w.app.None? && w.target.Some? && !MayHold(w)
    ensures IsCleared(Reconcile(cfg, w, info, ready)) && Reconcile(cfg, w, info, ready).meta.nodeInfo == info
  {
  }

  /** A node without an application that may not hold one of its target is signed out and
      its whole record is cleared. */
  lemma OtherwiseEndsCleared(cfg: Config, w: World, info: string, ready: bool)
    requires Recorded(w) && MayAct(cfg, w) && w.app.None? && !MayHold(w)
    ensures IsCleared(Reconcile(cfg, w, info, ready)) && Reconcile(cfg, w, info, ready).meta.nodeInfo == info
  {
    if w.target.None? {
      UnboundEndsCleared(cfg, w, info, ready);
    } else {
      OtherRecordEndsCleared(cfg, w, info, ready);
    }
  }

  /** A node that may hold its target and has no other application is signed in, and its
      record is that of the target. */
  lemma SignsInWithTarget(cfg: Config, w: World, info: string, ready: bool)
    requires Recorded(w) && MayAct(cfg, w) && MayHold(w) && (w.app.Some? ==> TargetIsRecorded(w))
    ensures var meta, target := Reconcile(cfg, w, info, ready).meta, w.target.value;
            && meta.signedOut == Some(false) && meta.bind == Some(true)
            && meta.bindProfile == Some(target.binding.profile)
            && meta.bindRevision == target.profile.revision
            && NonEmpty(meta.bindUser) == NonEmpty(target.binding.user)
            && meta.bindPersistent == Some(target.profile.persistent)
            && meta.computeMode == Some(target.profile.mode)
            && meta.bindNamespace.None? && meta.nodeInfo == info
            && meta.bindTimestamp ==
               (if w.meta.bindProfile.None? || w.meta.bindTimestamp.None? then Some(w.now) else w.meta.bindTimestamp)
  {
  }

  /** In every state of every run the live application is the recorded one. */
  lemma {:induction false} LiveAppIsRecorded(cfg: Config, w: World, steps: seq<Step>, k: nat)
    requires Recorded(w) && IsRun(cfg, w, steps) && k <= |steps|
    ensures Recorded(StateAt(cfg, w, steps, k))
  {
    if k > 0 {
      LiveAppIsRecorded(cfg, w, steps, k - 1);
      assert AllowedAt(cfg, w, steps, k - 1);
      StepKeepsRecord(cfg, StateAt(cfg, w, steps, k - 1), steps[k - 1]);
    }
  }

  /** The branch that skips deletion because no profile was recorded never leaves
      an application behind. */
  lemma SkippedDeletionLeaksNothing(cfg: Config, w: World, steps: seq<Step>, k: nat)
    requires Recorded(w) && IsRun(cfg, w, steps) && k <= |steps|
    ensures var s := StateAt(cfg, w, steps, k);
            var value := SessionValue(s.meta, s.taints, IsUnreachable(s.taints));
            ApplyProfile(cfg, value, s.target, s.now).1 == Deleted(None) ==> s.app.None?
  {
    LiveAppIsRecorded(cfg, w, steps, k);
  }

  // ----- a switch passes through a signed-out state

  /** No application, signed out, nothing bound. */
  predicate IsClean(w: World) {
    w.app.None? && w.meta.signedOut == Some(true) && w.meta.bindProfile.None?
  }

  /** The node still belongs to the session built from (profile, revision). */
  predicate BelongsTo(w: World, profile: string, revision: Option<string>) {
    && ProperTarget(w.target) && profile != "" && revision != Some("")
    && w.meta.bindProfile == Some(profile)
    && (w.meta.bindRevision == revision || w.meta.bindRevision == None)
    && (w.app.Some? ==> w.app.value.profile == profile && w.app.value.revision == revision)
    && (IsLive(w) ==> w.meta.bindRevision == revision)
  }

  lemma UnboundNodeStaysOrCleans(
    cfg: Config, w: World, info: string, ready: bool, profile: string, revision: Option<string>)
    requires BelongsTo(w, profile, revision) && w.target.None?
    ensures BelongsTo(Reconcile(cfg, w, info, ready), profile, revision) || IsClean(Reconcile(cfg, w, info, ready))
  {
  }

  lemma BoundNodeStaysOrCleans(
    cfg: Config, w: World, info: string, ready: bool, profile: string, revision: Option<string>)
    requires BelongsTo(w, profile, revision) && w.target.Some?
    ensures BelongsTo(Reconcile(cfg, w, info, ready), profile, revision) || IsClean(Reconcile(cfg, w, info, ready))
  {
  }

  /** A step away from a session either stays with it or reaches a clean state. */
  lemma StepStaysOrCleans(cfg: Config, w: World, step: Step, profile: string, revision: Option<string>)
    requires BelongsTo(w, profile, revision) && Allowed(w, step)
    ensures BelongsTo(Next(cfg, w, step), profile, revision) || IsClean(Next(cfg, w, step))
  {
    if step.Operator? {
      if w.target.None? {
        UnboundNodeStaysOrCleans(cfg, w, step.info, step.ready, profile, revision);
      } else {
        BoundNodeStaysOrCleans(cfg, w, step.info, step.ready, profile, revision);
      }
    }
  }

  /** A run that has left a session by state k was clean at some state up to k. */
  lemma {:induction false} FindClean(
    cfg: Config, w: World, steps: seq<Step>, k: nat, profile: string, revision: Option<string>) returns (i: nat)
    requires BelongsTo(w, profile, revision) && IsRun(cfg, w, steps) && k <= |steps|
    requires !BelongsTo(StateAt(cfg, w, steps, k), profile, revision)
    ensures 0 < i <= k && IsClean(StateAt(cfg, w, steps, i))
  {
    var before := StateAt(cfg, w, steps, k - 1);
    if BelongsTo(before, profile, revision) {
      assert AllowedAt(cfg, w, steps, k - 1);
      StepStaysOrCleans(cfg, before, steps[k - 1], profile, revision);
      i := k;
    } else {
      i := FindClean(cfg, w, steps, k - 1, profile, revision);
    }
  }

  lemma RecordedBelongs(w: World)
    requires Recorded(w) && IsLive(w)
    ensures BelongsTo(w, w.app.value.profile, w.app.value.revision)
  {
  }

  /** Between two live applications with different profile or revision there is a
      state with no application, signed out, and no bound profile. */
  lemma SwitchPassesThroughSignOut(cfg: Config, w: World, steps: seq<Step>) returns (k: nat)
    requires Recorded(w) && IsLive(w) && IsRun(cfg, w, steps)
    requires IsLive(StateAt(cfg, w, steps, |steps|))
    requires var last := StateAt(cfg, w, steps, |steps|).app.value;
             (last.profile, last.revision) != (w.app.value.profile, w.app.value.revision)
    ensures 0 < k < |steps| && IsClean(StateAt(cfg, w, steps, k))
  {
    RecordedBelongs(w);
    k := FindClean(cfg, w, steps, |steps|, w.app.value.profile, w.app.value.revision);
  }

  // ----- sign-out grace

  /** The sign-out taint is untouched by whoever else edits the node. */
  predicate SparesSignOut(cfg: Config, w: World, step: Step) {
    step.SetTaints? ==> TimeOf(step.taints, cfg.labelSignedOut) == TimeOf(w.taints, cfg.labelSignedOut)
  }

  predicate SparesAt(cfg: Config, w: World, steps: seq<Step>, k: nat)
    requires k < |steps|
  {
    SparesSignOut(cfg, StateAt(cfg, w, steps, k), steps[k])
  }

  /** A run in which nobody but the operator and the handler edits the sign-out
      taint. */
  predicate IsSparingRun(cfg: Config, w: World, steps: seq<Step>) {
    IsRun(cfg, w, steps) && forall k: nat | k < |steps| :: SparesAt(cfg, w, steps, k)
  }

  /** What a reconciliation does to the sign-out taint: it adds it, dated now, only
      when it signs out a node that has none, and never redates or removes it. */
  lemma OperatorDatesSignOutOnce(cfg: Config, w: World, info: string, ready: bool)
    requires cfg.KeysDiffer()
    ensures var after := Reconcile(cfg, w, info, ready);
            || TimeOf(after.taints, cfg.labelSignedOut) == TimeOf(w.taints, cfg.labelSignedOut)
            || (&& TimeOf(w.taints, cfg.labelSignedOut).None?
                && TimeOf(after.taints, cfg.labelSignedOut) == Some(Some(w.now))
                && after.meta.signedOut == Some(true) && after.meta.bindProfile.None?)
  {
    var key := cfg.labelSignedOut;
    var current := SessionValue(w.meta, w.taints, IsUnreachable(w.taints));
    var collected := current.(meta := current.meta.(nodeInfo := info));
    var (bound, state) := ApplyProfile(cfg, collected, w.target, w.now);
    assert TimeOf(bound.taints, key) == TimeOf(w.taints, key) by {
      if w.target.Some? {
        WithTaintTimes(w.taints, cfg.labelBind, "true", w.now, key);
        WithTaintTimes(WithTaint(w.taints, cfg.labelBind, "true", w.now),
                       cfg.labelBindProfile, w.target.value.binding.profile, w.now, key);
      } else {
        WithoutTaintTimes(w.taints, cfg.labelBind, key);
        WithoutTaintTimes(WithoutTaint(w.taints, cfg.labelBind), cfg.labelBindProfile, key);
      }
    }
    WithTaintTimes(bound.taints, key, "true", w.now, key);
  }

  /** A signed-out node whose sign-out began at t0. */
  predicate SignedOutAt(cfg: Config, w: World, t0: int) {
    && TimeOf(w.taints, cfg.labelSignedOut) == Some(Some(t0))
    && w.meta.signedOut == Some(true)
    && w.app.None?
  }

  lemma ClockNeverRunsBack(cfg: Config, w: World, step: Step)
    requires Allowed(w, step)
    ensures w.now <= Next(cfg, w, step).now
  {
  }

  /** The handler acts on a label that says the node is not signed out, and has not
      done so yet: it takes the sign-out taint off. */
  predicate Untaints(w: World, step: Step) {
    step.Handler? && !step.seen && w.running != Some(false)
  }

  /** Every step keeps the date of the sign-out until the handler removes the
      taint, so signing out again never extends the deadline. */
  lemma DeadlineNeverMoves(cfg: Config, w: World, step: Step, t0: int)
    requires cfg.KeysDiffer() && Allowed(w, step) && SparesSignOut(cfg, w, step)
    requires TimeOf(w.taints, cfg.labelSignedOut) == Some(Some(t0))
    ensures TimeOf(Next(cfg, w, step).taints, cfg.labelSignedOut) ==
            if Untaints(w, step) then None else Some(Some(t0))
  {
    UntaintedTimes(w.taints, cfg.labelSignedOut);
    if step.Operator? {
      OperatorDatesSignOutOnce(cfg, w, step.info, step.ready);
    }
  }

  /** During the grace period a step leaves the node signed out, without an
      application, if and only if it does not untaint the node. */
  lemma GraceStepIff(cfg: Config, w: World, step: Step, t0: int)
    requires SignedOutAt(cfg, w, t0) && w.now < t0 + cfg.duration
    requires Allowed(w, step) && SparesSignOut(cfg, w, step)
    ensures SignedOutAt(cfg, Next(cfg, w, step), t0) <==> !Untaints(w, step)
  {
    UntaintedTimes(w.taints, cfg.labelSignedOut);
  }

  predicate SignedOutBy(cfg: Config, w: World, steps: seq<Step>, k: nat, t0: int)
    requires k <= |steps|
  {
    SignedOutAt(cfg, StateAt(cfg, w, steps, k), t0)
  }

  predicate UntaintsAt(cfg: Config, w: World, steps: seq<Step>, k: nat)
    requires k < |steps|
  {
    Untaints(StateAt(cfg, w, steps, k), steps[k])
  }

  predicate InGrace(cfg: Config, w: World, steps: seq<Step>, k: nat, t0: int)
    requires k <= |steps|
  {
    StateAt(cfg, w, steps, k).now < t0 + cfg.duration
  }

  lemma {:induction false} GraceReachesBack(cfg: Config, w: World, steps: seq<Step>, m: nat, k: nat, t0: int)
    requires IsRun(cfg, w, steps) && m <= k <= |steps| && InGrace(cfg, w, steps, k, t0)
    ensures InGrace(cfg, w, steps, m, t0)
  {
    if m < k {
      assert AllowedAt(cfg, w, steps, k - 1);
      ClockNeverRunsBack(cfg, StateAt(cfg, w, steps, k - 1), steps[k - 1]);
      GraceReachesBack(cfg, w, steps, m, k - 1, t0);
    }
  }

  lemma GraceStepAlong(cfg: Config, w: World, steps: seq<Step>, m: nat, t0: int)
    requires IsSparingRun(cfg, w, steps) && m < |steps| && InGrace(cfg, w, steps, m, t0)
    requires SignedOutBy(cfg, w, steps, m, t0)
    ensures SignedOutBy(cfg, w, steps, m + 1, t0) <==> !UntaintsAt(cfg, w, steps, m)
  {
    assert AllowedAt(cfg, w, steps, m) && SparesAt(cfg, w, steps, m);
    GraceStepIff(cfg, StateAt(cfg, w, steps, m), steps[m], t0);
  }

  lemma {:induction false} UntouchedStaysSignedOut(cfg: Config, w: World, steps: seq<Step>, k: nat, t0: int)
    requires SignedOutAt(cfg, w, t0) && IsSparingRun(cfg, w, steps) && k <= |steps|
    requires InGrace(cfg, w, steps, k, t0)
    requires forall m: nat | m < k :: !UntaintsAt(cfg, w, steps, m)
    ensures SignedOutBy(cfg, w, steps, k, t0)
  {
    if k > 0 {
      GraceReachesBack(cfg, w, steps, k - 1, k, t0);
      UntouchedStaysSignedOut(cfg, w, steps, k - 1, t0);
      GraceStepAlong(cfg, w, steps, k - 1, t0);
    }
  }

  /** In any run that starts signed out at t0, every state up to one before t0 + D is
      signed out, without an application, if and only if no step untaints the node. */
  lemma GraceHoldsIff(cfg: Config, w: World, steps: seq<Step>, k: nat, t0: int)
    requires SignedOutAt(cfg, w, t0) && IsSparingRun(cfg, w, steps) && k <= |steps|
    requires InGrace(cfg, w, steps, k, t0)
    ensures (forall m: nat | m <= k :: SignedOutBy(cfg, w, steps, m, t0)) <==>
            (forall m: nat | m < k :: !UntaintsAt(cfg, w, steps, m))
  {
    if forall m: nat | m < k :: !UntaintsAt(cfg, w, steps, m) {
      forall m: nat | m <= k
        ensures SignedOutBy(cfg, w, steps, m, t0)
      {
        GraceReachesBack(cfg, w, steps, m, k, t0);
        UntouchedStaysSignedOut(cfg, w, steps, m, t0);
      }
    }
    if forall m: nat | m <= k :: SignedOutBy(cfg, w, steps, m, t0) {
      forall m: nat | m < k
        ensures !UntaintsAt(cfg, w, steps, m)
      {
        GraceReachesBack(cfg, w, steps, m, k, t0);
        GraceStepAlong(cfg, w, steps, m, t0);
      }
    }
  }

  lemma OperatorLetsAppIn(cfg: Config, w: World)
    requires w.taints == [] && w.app.None? && w.meta.bindProfile.None? && w.target.Some?
    ensures IsLive(Reconcile(cfg, w, "", true)) && Reconcile(cfg, w, "", true).now == w.now
  {
    assert TimeOf([], cfg.labelSignedOut) == None && TimeOf([], UNREACHABLE) == None;
  }

  lemma FourAllowed(cfg: Config, w: World, steps: seq<Step>, w1: World, w2: World, w3: World)
    requires |steps| == 4 && StateAt(cfg, w, steps, 1) == w1
    requires StateAt(cfg, w, steps, 2) == w2 && StateAt(cfg, w, steps, 3) == w3
    requires Allowed(w, steps[0]) && SparesSignOut(cfg, w, steps[0])
    requires Allowed(w1, steps[1]) && SparesSignOut(cfg, w1, steps[1])
    requires Allowed(w2, steps[2]) && SparesSignOut(cfg, w2, steps[2])
    requires Allowed(w3, steps[3]) && SparesSignOut(cfg, w3, steps[3])
    ensures IsSparingRun(cfg, w, steps)
  {
    assert StateAt(cfg, w, steps, 0) == w;
    forall k: nat | k < |steps|
      ensures AllowedAt(cfg, w, steps, k) && SparesAt(cfg, w, steps, k)
    {
      assert k == 0 || k == 1 || k == 2 || k == 3;
    }
  }

  /** Untainting ends the grace period at once: an application can be live at the
      same time three steps later. */
  lemma UntaintingLetsAppIn(cfg: Config, w: World) returns (steps: seq<Step>)
    requires w.app.None? && w.meta.bindProfile.None? && Untaints(w, Handler(false))
    ensures |steps| == 4 && steps[0] == Handler(false) && IsSparingRun(cfg, w, steps)
    ensures IsLive(StateAt(cfg, w, steps, 4)) && StateAt(cfg, w, steps, 4).now == w.now
  {
    var target := Target(Binding("b", None, None), Profile(Some("1"), false, VM));
    steps := [Handler(false), SetTarget(Some(target)), SetTaints([]), Operator("", true)];
    var w1 := w.(running := Some(false), taints := Untainted(w.taints, cfg.labelSignedOut));
    var w2 := w1.(target := Some(target));
    var w3 := w2.(taints := []);
    UntaintedTimes(w.taints, cfg.labelSignedOut);
    OperatorLetsAppIn(cfg, w3);
    assert StateAt(cfg, w, steps, 0) == w;
    assert StateAt(cfg, w, steps, 1) == w1;
    assert StateAt(cfg, w, steps, 2) == w2;
    assert StateAt(cfg, w, steps, 3) == w3;
    assert TimeOf([], cfg.labelSignedOut) == None;
    FourAllowed(cfg, w, steps, w1, w2, w3);
  }

  /** The handler acts on the label the node carries now. */
  predicate SeesCurrentLabel(w: World, step: Step) {
    step.Handler? ==> step.seen == LabelSaysSignedOut(w)
  }

  predicate SeesCurrentLabelAt(cfg: Config, w: World, steps: seq<Step>, k: nat)
    requires k < |steps|
  {
    SeesCurrentLabel(StateAt(cfg, w, steps, k), steps[k])
  }

  /** A handler that acts on the current label does not untaint a signed-out node. */
  lemma CurrentLabelNeverUntaints(cfg: Config, w: World, steps: seq<Step>, k: nat, t0: int)
    requires k < |steps| && SignedOutBy(cfg, w, steps, k, t0) && SeesCurrentLabelAt(cfg, w, steps, k)
    ensures !UntaintsAt(cfg, w, steps, k)
  {
  }

  lemma {:induction false} CurrentHandlerKeepsGrace(cfg: Config, w: World, steps: seq<Step>, k: nat, t0: int)
    requires SignedOutAt(cfg, w, t0) && IsSparingRun(cfg, w, steps) && k <= |steps|
    requires InGrace(cfg, w, steps, k, t0)
    requires forall m: nat | m < k :: SeesCurrentLabelAt(cfg, w, steps, m)
    ensures forall m: nat | m < k :: !UntaintsAt(cfg, w, steps, m)
  {
    if k > 0 {
      GraceReachesBack(cfg, w, steps, k - 1, k, t0);
      CurrentHandlerKeepsGrace(cfg, w, steps, k - 1, t0);
      UntouchedStaysSignedOut(cfg, w, steps, k - 1, t0);
      CurrentLabelNeverUntaints(cfg, w, steps, k - 1, t0);
    }
  }

  /** A reconciliation that adds the sign-out taint leaves the node signed out now,
      without an application or a bound profile. */
  lemma SignOutStartsGrace(cfg: Config, w: World, info: string, ready: bool)
    requires cfg.KeysDiffer() && Recorded(w)
    requires TimeOf(w.taints, cfg.labelSignedOut).None?
    requires TimeOf(Reconcile(cfg, w, info, ready).taints, cfg.labelSignedOut).Some?
    ensures var out := Reconcile(cfg, w, info, ready);
            SignedOutAt(cfg, out, w.now) && out.meta.bindProfile.None? && ProperTarget(out.target)
  {
    OperatorDatesSignOutOnce(cfg, w, info, ready);
    StepKeepsRecord(cfg, w, Operator(info, ready));
  }

  /** After a sign-out at t0 of a node without the sign-out taint, no state before
      t0 + D has an application, as long as the handler acts on current labels. */
  lemma GracePeriodHasNoApp(cfg: Config, w: World, info: string, ready: bool, steps: seq<Step>, k: nat)
    requires cfg.KeysDiffer() && Recorded(w)
    requires TimeOf(w.taints, cfg.labelSignedOut).None?
    requires var out := Reconcile(cfg, w, info, ready);
             && TimeOf(out.taints, cfg.labelSignedOut).Some?
             && IsSparingRun(cfg, out, steps) && k <= |steps|
             && (forall m: nat | m < k :: SeesCurrentLabelAt(cfg, out, steps, m))
             && InGrace(cfg, out, steps, k, w.now)
    ensures SignedOutAt(cfg, StateAt(cfg, Reconcile(cfg, w, info, ready), steps, k), w.now)
  {
    var out := Reconcile(cfg, w, info, ready);
    SignOutStartsGrace(cfg, w, info, ready);
    CurrentHandlerKeepsGrace(cfg, out, steps, k, w.now);
    UntouchedStaysSignedOut(cfg, out, steps, k, w.now);
  }

  // ----- a switch comes to its end

  /** Reconciliations touch only their own taints. */
  lemma OperatorKeepsOtherTaints(cfg: Config, w: World, info: string, ready: bool, key: string)
    requires key != cfg.labelBind && key != cfg.labelBindProfile && key != cfg.labelSignedOut
    ensures TimeOf(Reconcile(cfg, w, info, ready).taints, key) == TimeOf(w.taints, key)
  {
    var current := SessionValue(w.meta, w.taints, IsUnreachable(w.taints));
    var collected := current.(meta := current.meta.(nodeInfo := info));
    var (bound, state) := ApplyProfile(cfg, collected, w.target, w.now);
    assert TimeOf(bound.taints, key) == TimeOf(w.taints, key) by {
      if w.target.Some? {
        WithTaintTimes(w.taints, cfg.labelBind, "true", w.now, key);
        WithTaintTimes(WithTaint(w.taints, cfg.labelBind, "true", w.now),
                       cfg.labelBindProfile, w.target.value.binding.profile, w.now, key);
      } else {
        WithoutTaintTimes(w.taints, cfg.labelBind, key);
        WithoutTaintTimes(WithoutTaint(w.taints, cfg.labelBind), cfg.labelBindProfile, key);
      }
    }
    WithTaintTimes(bound.taints, cfg.labelSignedOut, "true", w.now, key);
  }

  /** A node that is signed in shows its profile in its taints; the sign-out taint is left to
      the handler. */
  lemma SignedInTaints(cfg: Config, w: World, info: string, ready: bool)
    requires Recorded(w) && MayAct(cfg, w) && MayHold(w) && (w.app.Some? ==> TargetIsRecorded(w))
    requires cfg.KeysDiffer() && cfg.labelBind != cfg.labelBindProfile
    ensures var taints := Reconcile(cfg, w, info, ready).taints;
            && ValueOf(taints, cfg.labelBind) == Some(Some("true"))
            && ValueOf(taints, cfg.labelBindProfile) == Some(Some(w.target.value.binding.profile))
            && ValueOf(taints, cfg.labelSignedOut) == ValueOf(w.taints, cfg.labelSignedOut)
  {
    var profile := w.target.value.binding.profile;
    var bound := WithTaint(w.taints, cfg.labelBind, "true", w.now);
    forall key
      ensures ValueOf(bound, key) == if key == cfg.labelBind then Some(Some("true")) else ValueOf(w.taints, key)
      ensures ValueOf(WithTaint(bound, cfg.labelBindProfile, profile, w.now), key) ==
              if key == cfg.labelBindProfile then Some(Some(profile)) else ValueOf(bound, key)
    {
      WithTaintValues(w.taints, cfg.labelBind, "true", w.now, key);
      WithTaintValues(bound, cfg.labelBindProfile, profile, w.now, key);
    }
    assert Reconcile(cfg, w, info, ready).taints == WithTaint(bound, cfg.labelBindProfile, profile, w.now);
  }

  lemma UnbindingForgets(cfg: Config, taints: seq<Taint>)
    requires cfg.labelBind != cfg.labelBindProfile
    requires IsUnique(taints, cfg.labelBind) && IsUnique(taints, cfg.labelBindProfile)
    ensures var rest := WithoutTaint(WithoutTaint(taints, cfg.labelBind), cfg.labelBindProfile);
            TimeOf(rest, cfg.labelBind) == None && TimeOf(rest, cfg.labelBindProfile) == None
  {
    WithoutTaintForgets(taints, cfg.labelBind);
    WithoutTaintTimes(WithoutTaint(taints, cfg.labelBind), cfg.labelBindProfile, cfg.labelBind);
    WithoutTaintKeepsUnique(taints, cfg.labelBindProfile, cfg.labelBind);
    WithoutTaintForgets(WithoutTaint(taints, cfg.labelBind), cfg.labelBindProfile);
  }

  /** A node that is cleared is tainted as signed out, and without a target it loses the
      taints of its binding. */
  lemma ClearedTaints(cfg: Config, w: World, info: string, ready: bool)
    requires Recorded(w) && MayAct(cfg, w) && w.app.None? && !MayHold(w) && cfg.KeysDiffer()
    ensures var taints := Reconcile(cfg, w, info, ready).taints;
            && ValueOf(taints, cfg.labelSignedOut) == Some(Some("true"))
            && (w.target.None? && cfg.labelBind != cfg.labelBindProfile
                && IsUnique(w.taints, cfg.labelBind) && IsUnique(w.taints, cfg.labelBindProfile) ==>
                  TimeOf(taints, cfg.labelBind) == None && TimeOf(taints, cfg.labelBindProfile) == None)
  {
    var current := SessionValue(w.meta, w.taints, IsUnreachable(w.taints));
    var collected := current.(meta := current.meta.(nodeInfo := info));
    var bound := ApplyProfile(cfg, collected, w.target, w.now).0.taints;
    WithTaintValues(bound, cfg.labelSignedOut, "true", w.now, cfg.labelSignedOut);
    WithTaintTimes(bound, cfg.labelSignedOut, "true", w.now, cfg.labelBind);
    WithTaintTimes(bound, cfg.labelSignedOut, "true", w.now, cfg.labelBindProfile);
    if w.target.None? && cfg.labelBind != cfg.labelBindProfile
       && IsUnique(w.taints, cfg.labelBind) && IsUnique(w.taints, cfg.labelBindProfile) {
      UnbindingForgets(cfg, w.taints);
    }
    assert Reconcile(cfg, w, info, ready).taints == WithTaint(bound, cfg.labelSignedOut, "true", w.now);
  }

  /** A reconciliation leaves the privileges of the session alone. */
  lemma OperatorKeepsPrivilege(cfg: Config, w: World, info: string, ready: bool)
    ensures Reconcile(cfg, w, info, ready).meta.bindPrivileged == w.meta.bindPrivileged
  {
  }

  /** Once the handler has seen the node signed out, the first label that says otherwise
      removes the sign-out taint, and later ones leave all taints alone. */
  lemma HandlerUntaintsOnce(cfg: Config, w: World, taints: seq<Taint>, key: string)
    requires key != cfg.labelSignedOut
    ensures var started := Handle(cfg, w, true);
            var stopped := Handle(cfg, started, false);
            && started.taints == w.taints
            && TimeOf(stopped.taints, cfg.labelSignedOut) == None
            && TimeOf(stopped.taints, key) == TimeOf(w.taints, key)
            && Handle(cfg, stopped.(taints := taints), false).taints == taints
  {
    UntaintedTimes(w.taints, cfg.labelSignedOut);
    UntaintedKeepsOthers(w.taints, cfg.labelSignedOut, key);
  }

  /** No label of the operator is the taint of unreachable nodes. */
  ghost predicate OwnKeys(cfg: Config) {
    && cfg.KeysDiffer()
    && cfg.labelBind != UNREACHABLE && cfg.labelBindProfile != UNREACHABLE && cfg.labelSignedOut != UNREACHABLE
  }

  /** Between switches: recorded, reachable and with no sign-out under way. */
  ghost predicate IsQuiet(cfg: Config, w: World) {
    Recorded(w) && IsReachable(w) && GraceIsOver(cfg, w)
  }

  /** The old application is on its way out. */
  lemma SwitchStarts(cfg: Config, w: World, target: Target, info: string) returns (after: World)
    requires IsQuiet(cfg, w) && IsLive(w) && w.app.value.synced && ProperTarget(Some(target))
    requires (target.binding.profile, target.profile.revision) != (w.app.value.profile, w.app.value.revision)
    ensures after == Reconcile(cfg, w.(target := Some(target)), info, true)
    ensures IsQuiet(cfg, after) && after.target == Some(target) && after.now == w.now
    ensures after.app.Some? && after.app.value.deleting && after.meta.bindRevision.None? && after.meta.bindProfile.Some?
  {
    var told := w.(target := Some(target));
    after := Reconcile(cfg, told, info, true);
    StepKeepsRecord(cfg, w, SetTarget(Some(target)));
    StepKeepsRecord(cfg, told, Operator(info, true));
    LiveAppStaysIff(cfg, told, info, true);
  }

  /** The old session is signed out. */
  lemma SwitchSignsOut(cfg: Config, w: World, info: string, until: int) returns (after: World)
    requires OwnKeys(cfg) && IsQuiet(cfg, w) && w.app.None? && w.target.Some?
    requires w.meta.bindProfile.Some? && w.meta.bindRevision.None?
    requires until >= w.now && until >= w.now + cfg.duration
    ensures after == Reconcile(cfg, w, info, true)
    ensures IsClean(after) && Recorded(after) && IsReachable(after) && after.target == w.target && after.now == w.now
    ensures GraceIsOver(cfg, after.(now := until))
  {
    after := Reconcile(cfg, w, info, true);
    StepKeepsRecord(cfg, w, Operator(info, true));
    OtherwiseEndsCleared(cfg, w, info, true);
    OperatorKeepsOtherTaints(cfg, w, info, true, UNREACHABLE);
    OperatorDatesSignOutOnce(cfg, w, info, true);
  }

  /** The new session is signed in. */
  lemma SwitchSignsIn(cfg: Config, w: World, info: string) returns (after: World)
    requires IsQuiet(cfg, w) && IsClean(w) && w.target.Some?
    ensures after == Reconcile(cfg, w, info, true)
    ensures after.app == Some(App(w.target.value.binding.profile, w.target.value.profile.revision, false, false))
  {
    after := Reconcile(cfg, w, info, true);
    AppAppearsIff(cfg, w, info, true);
    AppIsCreatedSignedIn(cfg, w, info, true);
  }

  lemma StateStep(cfg: Config, w: World, steps: seq<Step>, k: nat, v: World)
    requires k < |steps| && (if k == 0 then v == w else StateAt(cfg, w, steps, k) == v) && Allowed(v, steps[k])
    ensures AllowedAt(cfg, w, steps, k) && StateAt(cfg, w, steps, k + 1) == Next(cfg, v, steps[k])
  {
  }

  lemma RunOfThree(cfg: Config, w: World, s0: Step, s1: Step, s2: Step, w1: World, w2: World)
    requires Allowed(w, s0) && w1 == Next(cfg, w, s0)
    requires Allowed(w1, s1) && w2 == Next(cfg, w1, s1) && Allowed(w2, s2)
    ensures IsRun(cfg, w, [s0, s1, s2]) && StateAt(cfg, w, [s0, s1, s2], 3) == Next(cfg, w2, s2)
  {
    var steps := [s0, s1, s2];
    StateStep(cfg, w, steps, 0, w);
    StateStep(cfg, w, steps, 1, w1);
    StateStep(cfg, w, steps, 2, w2);
    forall k: nat | k < |steps|
      ensures AllowedAt(cfg, w, steps, k)
    {
      assert k == 0 || k == 1 || k == 2;
    }
  }

  lemma {:induction false} StateInFirst(cfg: Config, w: World, a: seq<Step>, b: seq<Step>, k: nat)
    requires k <= |a|
    ensures StateAt(cfg, w, a + b, k) == StateAt(cfg, w, a, k)
  {
    if k > 0 {
      StateInFirst(cfg, w, a, b, k - 1);
    }
  }

  lemma {:induction false} StateInSecond(cfg: Config, w: World, a: seq<Step>, b: seq<Step>, k: nat)
    requires k <= |b|
    ensures StateAt(cfg, w, a + b, |a| + k) == StateAt(cfg, StateAt(cfg, w, a, |a|), b, k)
  {
    if k == 0 {
      StateInFirst(cfg, w, a, b, |a|);
    } else {
      StateInSecond(cfg, w, a, b, k - 1);
    }
  }

  lemma RunConcat(cfg: Config, w: World, a: seq<Step>, b: seq<Step>)
    requires IsRun(cfg, w, a) && IsRun(cfg, StateAt(cfg, w, a, |a|), b)
    ensures IsRun(cfg, w, a + b)
    ensures StateAt(cfg, w, a + b, |a| + |b|) == StateAt(cfg, StateAt(cfg, w, a, |a|), b, |b|)
  {
    forall k: nat | k < |a + b|
      ensures AllowedAt(cfg, w, a + b, k)
    {
      if k < |a| {
        StateInFirst(cfg, w, a, b, k);
        assert AllowedAt(cfg, w, a, k);
      } else {
        StateInSecond(cfg, w, a, b, k - |a|);
        assert AllowedAt(cfg, StateAt(cfg, w, a, |a|), b, k - |a|);
      }
    }
    StateInSecond(cfg, w, a, b, |b|);
  }

  /** The states of a switch. */
  lemma SwitchWorlds(cfg: Config, w: World, target: Target, info: string, until: int)
    returns (w2: World, w4: World, w6: World)
    requires OwnKeys(cfg) && IsQuiet(cfg, w) && IsLive(w) && w.app.value.synced && ProperTarget(Some(target))
    requires (target.binding.profile, target.profile.revision) != (w.app.value.profile, w.app.value.revision)
    requires until >= w.now && until >= w.now + cfg.duration
    ensures w2 == Reconcile(cfg, w.(target := Some(target)), info, true)
    ensures w2.app.Some? && w2.app.value.deleting
    ensures w4 == Reconcile(cfg, w2.(app := None), info, true) && w4.now == w.now
    ensures w6 == Reconcile(cfg, w4.(now := until), info, true)
    ensures w6.app == Some(App(target.binding.profile, target.profile.revision, false, false))
  {
    w2 := SwitchStarts(cfg, w, target, info);
    var w3 := w2.(app := None);
    StepKeepsRecord(cfg, w2, FinishDelete);
    w4 := SwitchSignsOut(cfg, w3, info, until);
    StepKeepsRecord(cfg, w4, Tick(until));
    w6 := SwitchSignsIn(cfg, w4.(now := until), info);
  }

  /** From a live, synced application of a reachable node, a new target is reached: told of
      it, the operator deletes the old application, signs the node out, and after the grace
      period creates the new one. */
  lemma SwitchCompletes(cfg: Config, w: World, target: Target, info: string) returns (steps: seq<Step>)
    requires OwnKeys(cfg) && IsQuiet(cfg, w) && IsLive(w) && w.app.value.synced && ProperTarget(Some(target))
    requires (target.binding.profile, target.profile.revision) != (w.app.value.profile, w.app.value.revision)
    ensures IsRun(cfg, w, steps) && |steps| == 6 && steps[0] == SetTarget(Some(target))
    ensures StateAt(cfg, w, steps, 6).app == Some(App(target.binding.profile, target.profile.revision, false, false))
  {
    var until := w.now + if cfg.duration > 0 then cfg.duration else 0;
    var op := Operator(info, true);
    var w2, w4, w6 := SwitchWorlds(cfg, w, target, info, until);
    var a, b := [SetTarget(Some(target)), op, FinishDelete], [op, Tick(until), op];
    RunOfThree(cfg, w, SetTarget(Some(target)), op, FinishDelete, w.(target := Some(target)), w2);
    RunOfThree(cfg, w2.(app := None), op, Tick(until), op, w4, w4.(now := until));
    RunConcat(cfg, w, a, b);
    steps := a + b;
  }
}
