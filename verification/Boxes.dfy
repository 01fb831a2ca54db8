/** KISS boxes: their states, the transitions the operator plans for one box, and
    the reconciliation that plans them. Times are in seconds. */
module Boxes {
  import opened Wrappers

  datatype BoxState =
    New | Commissioning | Ready | Joining | Running | GroupChanged | Failed | Disconnected

  datatype Role =
    | ControlPlane | Compute | Dashboard | Desktop | Gateway | Storage | Robot
    | GenericWorker | ExternalWorker

  datatype Group = Group(cluster: string, role: Role)

  const DEFAULT_CLUSTER := "default"
  const DEFAULT_GROUP := Group(DEFAULT_CLUSTER, GenericWorker)

  datatype Status = Status(state: BoxState, hasPrimary: bool, bindGroup: Option<Group>, lastUpdated: int)

  datatype Box = Box(uuid: nat, createdAt: Option<int>, group: Group, status: Option<Status>)

  datatype Kiss = Kiss(defaultRole: Role, enableDefaultCluster: bool, enableCronjobs: bool)

  /** What one reconciliation of a box sets out to do. */
  datatype Move =
    | Wait
    | PromoteRole(role: Role)
    | MarkRunning
    | Respawn
    | Launch(state: BoxState, bindGroup: Option<Group>)

  const UPDATE_TIMEOUT := 7200
  const NEW_TIMEOUT := 30

  function AsTask(s: BoxState): Option<string> {
    match s
    case Commissioning => Some("commission")
    case Joining => Some("join")
    case Running => Some("ping")
    case GroupChanged | Failed | Disconnected => Some("reset")
    case New | Ready => None
  }

  predicate HasCron(s: BoxState) {
    s.Running? || s.GroupChanged? || s.Failed? || s.Disconnected?
  }

  function Following(s: BoxState): BoxState {
    match s
    case New => Commissioning
    case Ready => Joining
    case _ => s
  }

  function Timeout(s: BoxState): Option<int> {
    if s.Commissioning? || s.Joining? then Some(UPDATE_TIMEOUT) else None
  }

  function Completed(s: BoxState): Option<BoxState> {
    if s.Joining? then Some(Running) else None
  }

  function StateOf(b: Box): BoxState {
    if b.status.Some? then b.status.value.state else New
  }

  function BoundGroup(b: Box): Option<Group> {
    if b.status.Some? then b.status.value.bindGroup else None
  }

  predicate HasPrimary(b: Box) {
    b.status.Some? && b.status.value.hasPrimary
  }

  function LastUpdated(b: Box): Option<int> {
    if b.status.Some? then Some(b.status.value.lastUpdated) else b.createdAt
  }

  predicate Expired(b: Box, timeout: int, now: int) {
    LastUpdated(b).Some? && now > LastUpdated(b).value + timeout
  }

  /** The state a reconciliation aims for; none while a new box is given time. */
  function Aim(b: Box, now: int): Option<BoxState> {
    var current := StateOf(b);
    if current.New? && !HasPrimary(b) then
      if Expired(b, NEW_TIMEOUT, now) then Some(Disconnected) else None
    else if Timeout(current).Some? && Expired(b, Timeout(current).value, now) then Some(Failed)
    else if current.Running? && BoundGroup(b) != Some(b.group) then Some(Disconnected)
    else Some(Following(current))
  }

  /** What a reconciliation of b at time `now` sets out to do. */
  function NextMove(kiss: Kiss, b: Box, now: int): Move {
    var current := StateOf(b);
    if b.group.role.GenericWorker? && kiss.defaultRole != GenericWorker then PromoteRole(kiss.defaultRole)
    else match Aim(b, now)
      case None => Wait
      case Some(aim) =>
        if aim.Joining? && !current.Joining? && b.group.role.ExternalWorker? then Wait
        else if aim.Joining? && !current.Joining? && !kiss.enableDefaultCluster
                && b.group.cluster == DEFAULT_CLUSTER && b.group.role.GenericWorker? then Wait
        else if aim.Joining? && !current.Joining? && BoundGroup(b) == Some(b.group) then MarkRunning
        else if current != aim then Launch(aim, if aim.Joining? then Some(b.group) else BoundGroup(b))
        else if kiss.enableCronjobs && HasCron(aim) then Respawn
        else Wait
  }

  /** A reconciliation starts a join only for a ready box that is not bound to
      its group, and every other state it writes is neither ready nor running. */
  lemma LaunchesAreOrderly(kiss: Kiss, b: Box, now: int)
    ensures NextMove(kiss, b, now).Launch? ==>
              var m := NextMove(kiss, b, now);
              && AsTask(m.state).Some?
              && (m.state == Joining ==>
                    StateOf(b) == Ready && m.bindGroup == Some(b.group) && BoundGroup(b) != Some(b.group))
              && (m.state != Joining ==>
                    !m.state.Ready? && !m.state.Running? && m.bindGroup == BoundGroup(b))
    ensures NextMove(kiss, b, now).MarkRunning? ==>
              StateOf(b) == Ready && BoundGroup(b) == Some(b.group)
    ensures NextMove(kiss, b, now).PromoteRole? ==> b.group.role == GenericWorker
  {
  }

  /** Nothing is planned for a box that still waits for its default role. */
  predicate HasRole(kiss: Kiss, b: Box) {
    b.group.role == GenericWorker ==> kiss.defaultRole == GenericWorker
  }

  /** The last sign of life is more than so many seconds old: that of its status, or of
      its creation when it has none; without either there is none to count from. */
  predicate IsSilent(b: Box, seconds: int, now: int) {
    match b.status
    case Some(status) => now - status.lastUpdated > seconds
    case None => b.createdAt.Some? && now - b.createdAt.value > seconds
  }

  /** When a box is launched to which state, in terms of what it shows. */
  lemma LaunchMeaning(kiss: Kiss, b: Box, now: int, aim: BoxState)
    requires HasRole(kiss, b) && aim != StateOf(b) && aim != Joining
    ensures var m := NextMove(kiss, b, now);
            m.Launch? && m.state == aim <==>
            match StateOf(b)
            case New => if HasPrimary(b) then aim == Commissioning else aim == Disconnected && IsSilent(b, 30, now)
            case Commissioning => aim == Failed && IsSilent(b, 7200, now)
            case Joining => aim == Failed && IsSilent(b, 7200, now)
            case Running => aim == Disconnected && BoundGroup(b) != Some(b.group)
            case _ => false
  {
  }

  /** Recurring jobs keep checking a box that stays running, and resetting one that has
      failed or lost its group or connection, if they are enabled. */
  lemma RespawnMeaning(kiss: Kiss, b: Box, now: int)
    requires HasRole(kiss, b)
    ensures NextMove(kiss, b, now).Respawn? <==>
            && kiss.enableCronjobs
            && (|| (StateOf(b) == Running && BoundGroup(b) == Some(b.group))
                || StateOf(b) == GroupChanged || StateOf(b) == Failed || StateOf(b) == Disconnected)
  {
  }

  /** Which task a launched or repeated job runs. */
  lemma TaskMeaning(kiss: Kiss, b: Box, now: int)
    ensures NextMove(kiss, b, now).Launch? ==>
              AsTask(NextMove(kiss, b, now).state) ==
              Some(if StateOf(b) == New && HasPrimary(b) then "commission"
                   else if StateOf(b) == Ready then "join" else "reset")
    ensures NextMove(kiss, b, now).Respawn? ==> AsTask(StateOf(b)) == Some(if StateOf(b) == Running then "ping" else "reset")
  {
  }

  /** A box without a role of its own gets the default one first. */
  lemma PromotionMeaning(kiss: Kiss, b: Box, now: int)
    ensures NextMove(kiss, b, now).PromoteRole? <==> !HasRole(kiss, b)
    ensures !HasRole(kiss, b) ==> NextMove(kiss, b, now) == PromoteRole(kiss.defaultRole)
  {
  }

  /** The reconciliation as a chain of checks that overwrite the aimed state. */
  method PlanMove(kiss: Kiss, b: Box, now: int) returns (move: Move)
    ensures move == NextMove(kiss, b, now)
  {
    var oldState := StateOf(b);
    var newState := Following(oldState);

    // apply the default role
    if b.group.role == GenericWorker && b.group.role != kiss.defaultRole {
      return PromoteRole(kiss.defaultRole);
    }

    // detect that the group has changed
    var isBindGroupUpdated := BoundGroup(b).None? || BoundGroup(b).value != b.group;

    // wait for new boxes without access
    if oldState == New && !HasPrimary(b) {
      match LastUpdated(b) {
        case Some(lastUpdated) =>
          if now > lastUpdated + NEW_TIMEOUT {
            newState := Disconnected;
          } else {
            return Wait;
          }
        case None => return Wait;
      }
    }

    // capture the timeout
    if Timeout(oldState).Some? && LastUpdated(b).Some? && now > LastUpdated(b).value + Timeout(oldState).value {
      newState := Failed;
    }

    // capture the change of group
    if oldState == Running && isBindGroupUpdated {
      newState := Disconnected;
    }

    if oldState != Joining && newState == Joining {
      if b.group.role == ExternalWorker {
        return Wait;
      }
      if !kiss.enableDefaultCluster && b.group.cluster == DEFAULT_CLUSTER && b.group.role == GenericWorker {
        return Wait;
      }
      if !isBindGroupUpdated {
        return MarkRunning;
      }
    }

    if oldState != newState || (kiss.enableCronjobs && HasCron(newState)) {
      if oldState == newState {
        return Respawn;
      }
      var bindGroup := if newState == Joining then Some(b.group) else BoundGroup(b);
      return Launch(newState, bindGroup);
    }
    return Wait;
  }
}
