/** The operator and the handler as they run: both edit the stored node and the
    operator also edits the application. */
module SessionOperator {
  import opened Wrappers
  import opened Session
  import opened NodeSessions
  import opened SessionProtocol
  import Protocol = SessionProtocol

  /** The stored objects around one node. */
  class Cluster {
    const cfg: Config
    var meta: Metadata
    var taints: seq<Taint>
    var app: Option<App>
    var target: Option<Target>
    var running: Option<bool>
    var now: int

    constructor (cfg: Config, w: World)
      ensures this.cfg == cfg && Value() == w
    {
      this.cfg := cfg;
      meta, taints, app := w.meta, w.taints, w.app;
      target, running, now := w.target, w.running, w.now;
    }

    function Value(): World
      reads this
    {
      World(meta, taints, app, target, running, now)
    }

    /** Whether the application is settled: gone, or created and synced. */
    method AppIsSynced() returns (synced: bool)
      ensures synced <==> app.None? || (!app.value.deleting && app.value.synced)
    {
      match app {
        case Some(a) => synced := if a.deleting then false else a.synced;
        case None => synced := true;
      }
    }

    method CreateApp(t: Target, ready: bool) returns (state: AppState)
      modifies this`app
      ensures (app, state) == Protocol.CreateApp(old(app), t, ready)
    {
      if !ready {
        return NodeNotReady;
      }
      if app.None? {
        app := Some(App(t.binding.profile, t.profile.revision, false, false));
      }
      state := AppCreated;
    }

    method DeleteApp() returns (state: AppState)
      modifies this`app
      ensures (app, state) == Protocol.DeleteApp(old(app))
    {
      match app {
        case Some(a) =>
          app := Some(a.(deleting := true));
          state := AppDeleting;
        case None =>
          state := AppDeleted;
      }
    }

    method UpdateApp(state: ProfileState, grant: bool, ready: bool) returns (appState: AppState)
      requires state.Created? || state.Unchanged? ==> target.Some?
      modifies this`app
      ensures (app, appState) == Protocol.UpdateApp(old(app), state, target, grant, ready)
    {
      match state {
        case Changed(_) => appState := DeleteApp();
        case Deleted(Some(_)) => appState := DeleteApp();
        case Deleted(None) => appState := AppDeleted;
        case Created =>
          if grant { appState := CreateApp(target.value, ready); } else { appState := DeleteApp(); }
        case Unchanged =>
          if grant { appState := CreateApp(target.value, ready); } else { appState := DeleteApp(); }
      }
    }

    /** One reconciliation of the node. */
    method Reconcile(info: string, ready: bool)
      modifies this
      ensures Value() == Protocol.Reconcile(cfg, old(Value()), info, ready)
    {
      if SigningOut(cfg, taints, now).Some? {
        return;
      }
      var synced := AppIsSynced();
      if !synced {
        return;
      }
      var current := SessionValue(meta, taints, IsUnreachable(taints));
      var next := new NodeSession(cfg, meta, taints);
      next.meta := next.meta.(nodeInfo := info);
      var profileState := next.ApplyProfile(target, now);
      var unreachable := next.unreachable;
      if unreachable && !cfg.drainUnreachable {
        return;
      }
      var mustSignOut := profileState.HasChanged() || unreachable;
      var _ := next.SetSignOut(now, mustSignOut);
      var grant := !mustSignOut && next.meta.bind == Some(true);

      var appState := UpdateApp(profileState, grant, ready);

      // A deletion under way reverts everything but the session revision.
      var written := next.Value();
      if appState.AppDeleting? {
        written := current.(meta := current.meta.(bindRevision := None));
      }
      if written != current {
        meta := Patched(meta, written.meta);
        taints := written.taints;
      }
    }

    method Start()
      modifies this`running
      ensures running == Some(true)
    {
      if running != Some(true) {
        running := Some(true);
      }
    }

    method Stop()
      modifies this`running, this`taints
      ensures running == Some(false)
      ensures taints == if old(running) == Some(false) then old(taints)
                        else Untainted(old(taints), cfg.labelSignedOut)
    {
      if running != Some(false) {
        taints := Untainted(taints, cfg.labelSignedOut);
        running := Some(false);
      }
    }

    /** The handler's reaction to the sign-out label it sees. */
    method Apply(seen: bool)
      modifies this
      ensures Value() == Handle(cfg, old(Value()), seen)
    {
      if seen {
        Start();
      } else {
        Stop();
      }
    }
  }
}
