/** The in-memory node session that the operator edits before it patches the node. */
module NodeSessions {
  import opened Wrappers
  import opened Session

  /** The in-memory copy of a node that the operator edits before patching. */
  class NodeSession {
    const cfg: Config
    var meta: Metadata
    var taints: seq<Taint>
    var unreachable: bool

    constructor (cfg: Config, meta: Metadata, taints: seq<Taint>)
      ensures this.cfg == cfg && Value() == SessionValue(meta, taints, IsUnreachable(taints))
    {
      this.cfg := cfg;
      this.meta := meta;
      this.taints := taints;
      this.unreachable := IsUnreachable(taints);
    }

    function Value(): SessionValue
      reads this
    {
      SessionValue(meta, taints, unreachable)
    }

    /** The index of the first matching taint. */
    method FindTaint(key: string) returns (index: nat)
      ensures FirstMatch(taints, key, index)
    {
      index := 0;
      while index < |taints| && !IsTaint(taints[index], key)
        invariant index <= |taints|
        invariant forall i | 0 <= i < index :: !IsTaint(taints[i], key)
      {
        index := index + 1;
      }
    }

    /** Set a taint; the result is the time it was added. */
    method SetTaint(key: string, value: string, now: int) returns (timeAdded: int)
      modifies this`taints
      ensures taints == WithTaint(old(taints), key, value, now)
      ensures timeAdded == match TimeOf(old(taints), key) case Some(Some(t)) => t case _ => now
    {
      var index := FindTaint(key);
      TimeAtMatch(taints, key, index);
      SetAtMatch(taints, key, index, value, now);
      if index < |taints| {
        timeAdded := if taints[index].timeAdded.Some? then taints[index].timeAdded.value else now;
        taints := taints[index := taints[index].(value := Some(value))];
      } else {
        timeAdded := now;
        taints := taints + [Taint(key, Some(value), NO_EXECUTE, Some(now))];
      }
    }

    method RemoveTaint(key: string)
      modifies this`taints
      ensures taints == WithoutTaint(old(taints), key)
    {
      var index := FindTaint(key);
      RemoveAtMatch(taints, key, index);
      if index < |taints| {
        taints := taints[..index] + taints[index + 1..];
      }
    }

    method ApplyProfile(target: Option<Target>, now: int) returns (state: ProfileState)
      modifies this
      ensures (Value(), state) == Session.ApplyProfile(cfg, old(Value()), target, now)
    {
      match target {
        case Some(Target(binding, profile)) =>
          match meta.bindProfile {
            case Some(last) =>
              if last == binding.profile && meta.bindRevision == profile.revision {
                state := Unchanged;
              } else {
                meta := meta.(bindTimestamp := None);
                state := Changed(last);
              }
            case None =>
              meta := meta.(bindTimestamp := None);
              state := Created;
          }
          meta := meta.(bind := Some(true), bindNamespace := None, bindPersistent := Some(profile.persistent));
          meta := meta.(bindPrivileged := binding.privileged, bindProfile := Some(binding.profile));
          meta := meta.(bindRevision := profile.revision);
          if meta.bindTimestamp.None? {
            meta := meta.(bindTimestamp := Some(now));
          }
          meta := meta.(bindUser := binding.user, computeMode := Some(profile.mode));
          var _ := SetTaint(cfg.labelBind, "true", now);
          var _ := SetTaint(cfg.labelBindProfile, binding.profile, now);
        case None =>
          meta := meta.(bind := Some(false), bindNamespace := None, bindPersistent := Some(false));
          state := Deleted(meta.bindProfile);
          meta := meta.(bindProfile := None, bindRevision := None, bindTimestamp := None, bindUser := None);
          RemoveTaint(cfg.labelBind);
          RemoveTaint(cfg.labelBindProfile);
      }
    }

    method SetSignOut(now: int, signOut: bool) returns (remaining: Option<int>)
      modifies this
      ensures Value() == Session.SetSignOut(cfg, old(Value()), now, signOut)
      ensures remaining == SignOutRemaining(cfg, old(taints), now, signOut)
    {
      if signOut {
        meta := meta.(bind := Some(false), bindRevision := None, bindNamespace := None);
        meta := meta.(bindPersistent := Some(false), bindProfile := None, bindTimestamp := None);
        meta := meta.(bindUser := None, computeMode := Some(VM));
      } else {
        unreachable := false;
      }
      meta := meta.(signedOut := Some(signOut));
      remaining := None;
      if signOut {
        var added := SetTaint(cfg.labelSignedOut, "true", now);
        if added + cfg.duration > now {
          remaining := Some(added + cfg.duration - now);
        }
      }
    }
  }
}
