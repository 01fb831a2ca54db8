/** The stored boxes as the backend, the operator and the job watcher change
    them. Each method performs one step of the join protocol. */
module BoxStore {
  import opened Wrappers
  import opened Boxes
  import opened ControlPlanes
  import opened JoinProtocol

  /** Only states with a recurring job are launched again, and joining has none. */
  lemma LaunchedStatesAreNotJoining(kiss: Kiss, b: Box, now: int)
    ensures NextMove(kiss, b, now).Respawn? ==> HasCron(StateOf(b)) && !StateOf(b).Joining?
  {
  }

  class Store {
    const kiss: Kiss
    var boxes: seq<Box>
    var pending: map<nat, Status>
    var joinJobs: set<nat>

    constructor (kiss: Kiss, w: World)
      ensures this.kiss == kiss && Value() == w
    {
      this.kiss := kiss;
      boxes, pending, joinJobs := w.boxes, w.pending, w.joinJobs;
    }

    function Value(): World
      reads this
    {
      World(boxes, pending, joinJobs)
    }

    /** A machine reports itself for the first time or again. */
    method Register(uuid: nat, createdAt: Option<int>, now: int)
      modifies this`boxes
      ensures Value() == Next(kiss, old(Value()), Step.Register(uuid, createdAt, now))
    {
      match IndexOf(boxes, uuid) {
        case Some(k) =>
          var status := Status(New, true, BoundGroup(boxes[k]), now);
          boxes := boxes[k := boxes[k].(status := Some(status))];
        case None =>
          boxes := boxes + [Box(uuid, createdAt, DEFAULT_GROUP, Some(Status(New, true, None, now)))];
      }
    }

    /** A machine reports that it was commissioned; a reset forgets its binding. An
        unknown machine is refused. */
    method Commission(uuid: nat, hasPrimary: bool, reset: bool, now: int) returns (ok: bool)
      modifies this`boxes
      ensures ok <==> IndexOf(old(boxes), uuid).Some?
      ensures Value() ==
              if ok then Next(kiss, old(Value()), Step.Commission(IndexOf(old(boxes), uuid).value, hasPrimary, reset, now))
              else old(Value())
    {
      match IndexOf(boxes, uuid) {
        case Some(k) =>
          var bindGroup := if reset then None else BoundGroup(boxes[k]);
          boxes := boxes[k := boxes[k].(status := Some(Status(Ready, hasPrimary, bindGroup, now)))];
          ok := true;
        case None =>
          ok := false;
      }
    }

    /** Launch a task: drop the box's earlier jobs, check the join gate, then create
        the job. */
    method Spawn(i: nat, newState: BoxState) returns (spawned: bool)
      requires i < |boxes|
      modifies this`joinJobs
      ensures spawned <==> (newState.Joining? ==> GateOpen(Value(), i))
      ensures joinJobs == if spawned && newState.Joining? then old(joinJobs) + {i} else old(joinJobs) - {i}
    {
      joinJobs := joinJobs - {i};
      if newState.Joining? {
        var g := boxes[i].group;
        if !IsJoinable(Load(boxes, g.cluster), boxes[i].uuid, g.cluster == DEFAULT_CLUSTER) {
          return false;
        }
        joinJobs := joinJobs + {i};
      }
      return true;
    }

    /** The reconciliation of one box up to its final status write, which is left
        pending. */
    method Reconcile(i: nat, now: int)
      requires i < |boxes| && i !in pending
      modifies this
      ensures Value() == Next(kiss, old(Value()), Decide(i, now))
    {
      var b := boxes[i];
      var move := PlanMove(kiss, b, now);
      match move {
        case Wait =>
        case PromoteRole(role) =>
          boxes := boxes[i := b.(group := b.group.(role := role))];
        case MarkRunning =>
          boxes := boxes[i := b.(status := Some(Status(Running, HasPrimary(b), BoundGroup(b), now)))];
        case Respawn =>
          LaunchedStatesAreNotJoining(kiss, b, now);
          var _ := Spawn(i, StateOf(b));
        case Launch(state, bindGroup) =>
          var spawned := Spawn(i, state);
          if spawned {
            pending := pending[i := Status(state, HasPrimary(b), bindGroup, now)];
          }
      }
    }

    /** The status write that ends a reconciliation. */
    method FinishReconcile(i: nat, now: int)
      requires i < |boxes| && i in pending
      modifies this`boxes, this`pending
      ensures Value() == Next(kiss, old(Value()), WriteStatus(i, now))
    {
      boxes := boxes[i := boxes[i].(status := Some(pending[i].(lastUpdated := now)))];
      pending := pending - {i};
    }

    method UpdateBoxState(i: nat, state: BoxState, now: int)
      requires i < |boxes|
      modifies this`boxes
      ensures Value() == WithState(old(Value()), i, state, now)
    {
      var b := boxes[i];
      boxes := boxes[i := b.(status := Some(Status(state, HasPrimary(b), BoundGroup(b), now)))];
    }

    /** The watcher's reaction to a job: success moves the box to the job's
        completed state if it has one, failure moves it to Failed. */
    method ReconcileJob(i: nat, launched: BoxState, succeeded: int, failed: int, now: int)
      requires i < |boxes|
      modifies this`boxes
      ensures Value() ==
              if succeeded > 0 then
                if launched.Joining? then Next(kiss, old(Value()), JobSucceeded(i, now)) else old(Value())
              else if failed > 0 then Next(kiss, old(Value()), JobFailed(i, now))
              else old(Value())
    {
      if succeeded > 0 {
        match Completed(launched) {
          case Some(state) => UpdateBoxState(i, state, now);
          case None =>
        }
      } else if failed > 0 {
        UpdateBoxState(i, Failed, now);
      }
    }
  }
}
