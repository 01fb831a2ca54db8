/** The VINE node session on values: labels, taints, and the transitions the
    operator applies to them. */
module Session {
  import opened Wrappers

  const NO_EXECUTE := "NoExecute"
  const UNREACHABLE := "node.kubernetes.io/unreachable"

  datatype Config = Config(
    labelBind: string,
    labelBindProfile: string,
    labelSignedOut: string,
    duration: int,
    drainUnreachable: bool)
  {
    ghost predicate KeysDiffer() {
      labelBind != labelSignedOut && labelBindProfile != labelSignedOut
    }
  }

  datatype Taint = Taint(key: string, value: Option<string>, effect: string, timeAdded: Option<int>)

  datatype ComputeMode = Container | Kueue | VM

  /** The session labels of a node. `nodeInfo` stands for the resource labels,
      which do not steer the protocol. */
  datatype Metadata = Metadata(
    bind: Option<bool>,
    bindNamespace: Option<string>,
    bindPersistent: Option<bool>,
    bindPrivileged: Option<bool>,
    bindProfile: Option<string>,
    bindRevision: Option<string>,
    bindTimestamp: Option<int>,
    bindUser: Option<string>,
    computeMode: Option<ComputeMode>,
    nodeInfo: string,
    signedOut: Option<bool>)

  datatype Binding = Binding(profile: string, privileged: Option<bool>, user: Option<string>)

  datatype Profile = Profile(revision: Option<string>, persistent: bool, mode: ComputeMode)

  datatype Target = Target(binding: Binding, profile: Profile)

  datatype ProfileState = Changed(last: string) | Created | Deleted(gone: Option<string>) | Unchanged {
    predicate HasChanged() {
      Changed? || Deleted?
    }
  }

  datatype SessionValue = SessionValue(meta: Metadata, taints: seq<Taint>, unreachable: bool)

  // ----- taints

  predicate IsTaint(t: Taint, key: string) {
    t.key == key && t.effect == NO_EXECUTE
  }

  /** The first matching taint's time: absent, present without time, or present
      with a time. */
  function TimeOf(taints: seq<Taint>, key: string): Option<Option<int>> {
    if taints == [] then None
    else if IsTaint(taints[0], key) then Some(taints[0].timeAdded)
    else TimeOf(taints[1..], key)
  }

  function WithTaint(taints: seq<Taint>, key: string, value: string, now: int): seq<Taint> {
    if taints == [] then [Taint(key, Some(value), NO_EXECUTE, Some(now))]
    else if IsTaint(taints[0], key) then [taints[0].(value := Some(value))] + taints[1..]
    else [taints[0]] + WithTaint(taints[1..], key, value, now)
  }

  function WithoutTaint(taints: seq<Taint>, key: string): seq<Taint> {
    if taints == [] then []
    else if IsTaint(taints[0], key) then taints[1..]
    else [taints[0]] + WithoutTaint(taints[1..], key)
  }

  /** All matching taints dropped, as the handler does. */
  function Untainted(taints: seq<Taint>, key: string): seq<Taint> {
    if taints == [] then []
    else (if IsTaint(taints[0], key) then [] else [taints[0]]) + Untainted(taints[1..], key)
  }

  /** Setting a taint dates it only if it is new, and dates no other taint. */
  lemma {:induction false} WithTaintTimes(taints: seq<Taint>, key: string, value: string, now: int, other: string)
    ensures TimeOf(WithTaint(taints, key, value, now), other) ==
            if other == key && TimeOf(taints, key).None? then Some(Some(now)) else TimeOf(taints, other)
  {
    if taints == [] {
      assert TimeOf([], other) == None;
    } else if !IsTaint(taints[0], key) {
      WithTaintTimes(taints[1..], key, value, now, other);
      assert WithTaint(taints, key, value, now)[1..] == WithTaint(taints[1..], key, value, now);
    } else {
      assert WithTaint(taints, key, value, now)[1..] == taints[1..];
    }
  }

  /** The first matching taint's value, if there is one. */
  function ValueOf(taints: seq<Taint>, key: string): Option<Option<string>> {
    if taints == [] then None
    else if IsTaint(taints[0], key) then Some(taints[0].value)
    else ValueOf(taints[1..], key)
  }

  /** Setting a taint gives it the value and leaves the values of all others. */
  lemma {:induction false} WithTaintValues(taints: seq<Taint>, key: string, value: string, now: int, other: string)
    ensures ValueOf(WithTaint(taints, key, value, now), other) ==
            if other == key then Some(Some(value)) else ValueOf(taints, other)
  {
    if taints == [] {
      assert ValueOf([], other) == None;
    } else if !IsTaint(taints[0], key) {
      WithTaintValues(taints[1..], key, value, now, other);
      assert WithTaint(taints, key, value, now)[1..] == WithTaint(taints[1..], key, value, now);
    } else {
      assert WithTaint(taints, key, value, now)[1..] == taints[1..];
    }
  }

  lemma {:induction false} WithoutTaintTimes(taints: seq<Taint>, key: string, other: string)
    requires other != key
    ensures TimeOf(WithoutTaint(taints, key), other) == TimeOf(taints, other)
  {
    if taints != [] && !IsTaint(taints[0], key) {
      WithoutTaintTimes(taints[1..], key, other);
      assert WithoutTaint(taints, key)[1..] == WithoutTaint(taints[1..], key);
    }
  }

  lemma {:induction false} UntaintedTimes(taints: seq<Taint>, key: string)
    ensures TimeOf(Untainted(taints, key), key) == None
  {
    if taints != [] {
      UntaintedTimes(taints[1..], key);
      if !IsTaint(taints[0], key) {
        assert Untainted(taints, key)[1..] == Untainted(taints[1..], key);
      } else {
        assert Untainted(taints, key) == Untainted(taints[1..], key);
      }
    }
  }

  /** Dropping a key keeps the taints of all others. */
  lemma {:induction false} UntaintedKeepsOthers(taints: seq<Taint>, key: string, other: string)
    requires other != key
    ensures TimeOf(Untainted(taints, key), other) == TimeOf(taints, other)
  {
    if taints != [] {
      UntaintedKeepsOthers(taints[1..], key, other);
      if IsTaint(taints[0], key) {
        assert Untainted(taints, key) == Untainted(taints[1..], key);
      } else {
        assert Untainted(taints, key)[1..] == Untainted(taints[1..], key);
      }
    }
  }

  /** At most one taint has the key, as in the nodes that the cluster accepts. */
  ghost predicate IsUnique(taints: seq<Taint>, key: string) {
    forall i, j | 0 <= i < j < |taints| :: !(IsTaint(taints[i], key) && IsTaint(taints[j], key))
  }

  lemma {:induction false} AbsentTaint(taints: seq<Taint>, key: string)
    ensures TimeOf(taints, key).None? <==> forall i | 0 <= i < |taints| :: !IsTaint(taints[i], key)
  {
    if taints != [] {
      AbsentTaint(taints[1..], key);
      if TimeOf(taints, key).None? {
        forall i | 0 <= i < |taints|
          ensures !IsTaint(taints[i], key)
        {
          assert i > 0 ==> taints[1..][i - 1] == taints[i];
        }
      }
    }
  }

  /** Removing a taint that is there once leaves none of its key. */
  lemma {:induction false} WithoutTaintForgets(taints: seq<Taint>, key: string)
    requires IsUnique(taints, key)
    ensures TimeOf(WithoutTaint(taints, key), key) == None
  {
    if taints != [] {
      if IsTaint(taints[0], key) {
        AbsentTaint(taints[1..], key);
      } else {
        WithoutTaintForgets(taints[1..], key);
        assert WithoutTaint(taints, key)[1..] == WithoutTaint(taints[1..], key);
      }
    }
  }

  lemma {:induction false} WithoutTaintKeepsUnique(taints: seq<Taint>, key: string, other: string)
    requires other != key && IsUnique(taints, key)
    ensures IsUnique(WithoutTaint(taints, other), key)
  {
    if taints != [] && !IsTaint(taints[0], other) {
      var rest := WithoutTaint(taints[1..], other);
      WithoutTaintKeepsUnique(taints[1..], key, other);
      if IsTaint(taints[0], key) {
        AbsentTaint(taints[1..], key);
        WithoutTaintTimes(taints[1..], other, key);
        AbsentTaint(rest, key);
      }
    }
  }

  // ----- transitions

  function OrElse<T>(o: Option<T>, default: T): T {
    if o.Some? then o.value else default
  }

  /** The remaining sign-out time, if the sign-out is still under way. */
  function SigningOut(cfg: Config, taints: seq<Taint>, now: int): Option<int> {
    match TimeOf(taints, cfg.labelSignedOut)
    case Some(Some(t)) => if t + cfg.duration > now then Some(t + cfg.duration - now) else None
    case _ => None
  }

  /** Bind the node to the target, or unbind it. */
  function ApplyProfile(cfg: Config, s: SessionValue, target: Option<Target>, now: int): (SessionValue, ProfileState) {
    match target
    case Some(Target(binding, profile)) =>
      var same := s.meta.bindProfile == Some(binding.profile) && s.meta.bindRevision == profile.revision;
      var state :=
        if s.meta.bindProfile.None? then Created
        else if same then Unchanged
        else Changed(s.meta.bindProfile.value);
      var timestamp := if state.Unchanged? then OrElse(s.meta.bindTimestamp, now) else now;
      var meta := s.meta.(
        bind := Some(true),
        bindNamespace := None,
        bindPersistent := Some(profile.persistent),
        bindPrivileged := binding.privileged,
        bindProfile := Some(binding.profile),
        bindRevision := profile.revision,
        bindTimestamp := Some(timestamp),
        bindUser := binding.user,
        computeMode := Some(profile.mode));
      var bound := WithTaint(s.taints, cfg.labelBind, "true", now);
      var taints := WithTaint(bound, cfg.labelBindProfile, binding.profile, now);
      (SessionValue(meta, taints, s.unreachable), state)
    case None =>
      var meta := s.meta.(
        bind := Some(false),
        bindNamespace := None,
        bindPersistent := Some(false),
        bindProfile := None,
        bindRevision := None,
        bindTimestamp := None,
        bindUser := None);
      var taints := WithoutTaint(WithoutTaint(s.taints, cfg.labelBind), cfg.labelBindProfile);
      (SessionValue(meta, taints, s.unreachable), Deleted(s.meta.bindProfile))
  }

  /** Sign the node out or in; untainting is left to the handler. */
  function SetSignOut(cfg: Config, s: SessionValue, now: int, signOut: bool): SessionValue {
    if signOut then
      SessionValue(
        s.meta.(
          bind := Some(false),
          bindRevision := None,
          bindNamespace := None,
          bindPersistent := Some(false),
          bindProfile := None,
          bindTimestamp := None,
          bindUser := None,
          computeMode := Some(VM),
          signedOut := Some(true)),
        WithTaint(s.taints, cfg.labelSignedOut, "true", now),
        s.unreachable)
    else s.(meta := s.meta.(signedOut := Some(false)), unreachable := false)
  }

  /** The part of the sign-out deadline still ahead after `SetSignOut`. */
  function SignOutRemaining(cfg: Config, taints: seq<Taint>, now: int, signOut: bool): Option<int> {
    if !signOut then None
    else
      var added := match TimeOf(taints, cfg.labelSignedOut)
        case Some(Some(t)) => t
        case _ => now;
      if added + cfg.duration > now then Some(added + cfg.duration - now) else None
  }

  /** The remaining time is what the deadline leaves once the node is signed out. */
  lemma RemainingIsDeadline(cfg: Config, s: SessionValue, now: int)
    requires TimeOf(s.taints, cfg.labelSignedOut) != Some(None)
    ensures SignOutRemaining(cfg, s.taints, now, true) == SigningOut(cfg, SetSignOut(cfg, s, now, true).taints, now)
    ensures SignOutRemaining(cfg, s.taints, now, false).None?
  {
    WithTaintTimes(s.taints, cfg.labelSignedOut, "true", now, cfg.labelSignedOut);
  }

  /** Empty label values load as absent. */
  function NonEmpty(o: Option<string>): Option<string> {
    if o == Some("") then None else o
  }

  /** What loading the node yields after `next` was written over it as labels. The
      privilege label is never written. */
  function Patched(before: Metadata, next: Metadata): Metadata {
    Metadata(
      Some(OrElse(next.bind, false)),
      NonEmpty(next.bindNamespace),
      Some(OrElse(next.bindPersistent, false)),
      before.bindPrivileged,
      NonEmpty(next.bindProfile),
      NonEmpty(next.bindRevision),
      next.bindTimestamp,
      NonEmpty(next.bindUser),
      Some(OrElse(next.computeMode, VM)),
      next.nodeInfo,
      Some(OrElse(next.signedOut, true)))
  }

  function IsUnreachable(taints: seq<Taint>): bool {
    TimeOf(taints, UNREACHABLE).Some?
  }

  /** Position `index` is the first match, or the end if there is none. */
  ghost predicate FirstMatch(taints: seq<Taint>, key: string, index: nat) {
    && index <= |taints|
    && (forall i | 0 <= i < index :: !IsTaint(taints[i], key))
    && (index < |taints| ==> IsTaint(taints[index], key))
  }

  lemma {:induction false} TimeAtMatch(taints: seq<Taint>, key: string, index: nat)
    requires FirstMatch(taints, key, index)
    ensures TimeOf(taints, key) == if index < |taints| then Some(taints[index].timeAdded) else None
  {
    if index > 0 {
      TimeAtMatch(taints[1..], key, index - 1);
    }
  }

  /** Editing at the first match is the same as editing while walking the list. */
  lemma {:induction false} SetAtMatch(taints: seq<Taint>, key: string, index: nat, value: string, now: int)
    requires FirstMatch(taints, key, index)
    ensures WithTaint(taints, key, value, now) ==
            if index < |taints| then taints[index := taints[index].(value := Some(value))]
            else taints + [Taint(key, Some(value), NO_EXECUTE, Some(now))]
  {
    if index > 0 {
      SetAtMatch(taints[1..], key, index - 1, value, now);
    }
  }

  lemma {:induction false} NothingToRemove(taints: seq<Taint>, key: string)
    requires forall i | 0 <= i < |taints| :: !IsTaint(taints[i], key)
    ensures WithoutTaint(taints, key) == taints
  {
    if taints != [] {
      NothingToRemove(taints[1..], key);
    }
  }

  lemma {:induction false} RemoveAtMatch(taints: seq<Taint>, key: string, index: nat)
    requires FirstMatch(taints, key, index)
    ensures WithoutTaint(taints, key) ==
            if index < |taints| then taints[..index] + taints[index + 1..] else taints
  {
    if index == |taints| {
      NothingToRemove(taints, key);
    } else if index == 0 {
      assert taints[..0] + taints[1..] == taints[1..];
    } else {
      RemoveAtMatch(taints[1..], key, index - 1);
      assert taints[..index] == [taints[0]] + taints[1..][..index - 1];
      assert taints[index + 1..] == taints[1..][index..];
    }
  }
}
