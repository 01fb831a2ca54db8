/** Publish modes: which nodes hold a volume in which mode over a whole run. */
module PondPublish {
  import opened Wrappers
  import opened PondDevices
  import opened PondController
  import PondDiscovery

  /** The mode in which each node holds each volume, as granted so far. */
  type Modes = map<string, map<string, bool>>

  function ModesOf(modes: Modes, volumeId: string): map<string, bool> {
    if volumeId in modes then modes[volumeId] else map[]
  }

  function ModesAfter(s: State, modes: Modes, op: Op): Modes {
    match op
    case DoPublish(v, node, readonly, shared) =>
      if Publish(s, v, node, readonly, shared).1.Ok? then modes[v := ModesOf(modes, v)[node := readonly]] else modes
    case DoUnpublish(v, node) => if v in s.volumes then modes[v := ModesOf(modes, v) - {node}] else modes
    case _ => modes
  }

  /** A create does not reuse the name of a known volume. */
  predicate NamesAreFresh(s: State, op: Op) {
    op.DoCreate? ==> op.request.volumeId !in s.volumes
  }

  ghost predicate OneMode(v: Volume, modes: map<string, bool>) {
    forall node | node in modes :: modes[node] == v.readonly
  }

  /** The granted modes are those of the published nodes; on an unshared volume
      they all equal its flag. No flag is up when no node is published. */
  ghost predicate ModesAgree(s: State, modes: Modes) {
    && (forall v | v in s.volumes :: ModesOf(modes, v).Keys == s.volumes[v].published)
    && (forall v | v !in s.volumes :: ModesOf(modes, v) == map[])
    && (forall v | v in s.volumes && !s.volumes[v].mountShared :: OneMode(s.volumes[v], ModesOf(modes, v)))
    && (forall v | v in s.volumes && s.volumes[v].published == {} :: !s.volumes[v].readonly)
  }

  lemma ProvisionKeepsModes(s: State, modes: Modes, volumeId: string, shared: bool)
    requires ModesAgree(s, modes) && Provision(s, volumeId, shared).Ok?
    ensures ModesAgree(Provision(s, volumeId, shared).value, modes)
    ensures volumeId in Provision(s, volumeId, shared).value.volumes
  {
  }

  lemma SetModes(modes: Modes, v: string, m: map<string, bool>)
    ensures ModesOf(modes[v := m], v) == m
    ensures forall u | u != v :: ModesOf(modes[v := m], u) == ModesOf(modes, u)
  {
  }

  lemma OneVolumeKeepsModes(s: State, modes: Modes, v: string, volume: Volume, granted: map<string, bool>)
    requires ModesAgree(s, modes)
    requires granted.Keys == volume.published && (!volume.mountShared ==> OneMode(volume, granted))
    requires volume.published == {} ==> !volume.readonly
    ensures ModesAgree(s.(volumes := s.volumes[v := volume]), modes[v := granted])
  {
    SetModes(modes, v, granted);
  }

  lemma PublishKeepsModes(s: State, modes: Modes, v: string, node: string, readonly: bool, shared: bool)
    requires ModesAgree(s, modes) && v in s.volumes
    ensures ModesAgree(Publish(s, v, node, readonly, shared).0, ModesAfter(s, modes, DoPublish(v, node, readonly, shared)))
  {
    var volume := s.volumes[v];
    if ModeFits(volume, readonly) {
      var granted := ModesOf(modes, v)[node := readonly];
      assert granted.Keys == volume.published + {node};
      var published := volume.published + {node};
      OneVolumeKeepsModes(s, modes, v,
                          volume.(published := published, readonly := volume.readonly || readonly), granted);
    }
  }

  lemma UnpublishKeepsModes(s: State, modes: Modes, v: string, node: string)
    requires ModesAgree(s, modes) && v in s.volumes
    ensures ModesAgree(Unpublish(s, v, node), ModesAfter(s, modes, DoUnpublish(v, node)))
  {
    var volume := s.volumes[v];
    var granted := ModesOf(modes, v) - {node};
    var published := volume.published - {node};
    assert granted.Keys == published;
    OneVolumeKeepsModes(s, modes, v,
                        volume.(published := published, readonly := volume.readonly && published != {}), granted);
  }

  lemma CreateKeepsModes(s: State, modes: Modes, r: CreateRequest)
    requires ModesAgree(s, modes) && r.volumeId !in s.volumes
    ensures ModesAgree(Create(s, r).0, modes)
  {
  }

  lemma DeleteKeepsModes(s: State, modes: Modes, v: string, accepted: bool)
    requires ModesAgree(s, modes)
    ensures ModesAgree(Delete(s, v, accepted).0, modes)
  {
    if Provision(s, v, false).Ok? {
      ProvisionKeepsModes(s, modes, v, false);
      assert forall u | u in Delete(s, v, accepted).0.volumes ::
          Delete(s, v, accepted).0.volumes[u] == Provision(s, v, false).value.volumes[u];
    }
  }

  lemma OpKeepsModes(s: State, modes: Modes, op: Op)
    requires ModesAgree(s, modes) && NamesAreFresh(s, op)
    ensures ModesAgree(Apply(s, op), ModesAfter(s, modes, op))
  {
    match op
    case DoCreate(r) => CreateKeepsModes(s, modes, r);
    case DoDelete(v, accepted) => DeleteKeepsModes(s, modes, v, accepted);
    case DoPublish(v, node, readonly, shared) =>
      if Provision(s, v, shared).Ok? {
        ProvisionKeepsModes(s, modes, v, shared);
        PublishKeepsModes(Provision(s, v, shared).value, modes, v, node, readonly, shared);
      }
    case DoUnpublish(v, node) =>
      if v in s.volumes {
        UnpublishKeepsModes(s, modes, v, node);
      }
    case DoRefresh(ponds) =>
  }

  function ModesAfterAll(s: State, modes: Modes, ops: seq<Op>): Modes {
    if ops == [] then modes
    else
      var n := |ops| - 1;
      ModesAfter(StateAfter(s, ops[..n]), ModesAfterAll(s, modes, ops[..n]), ops[n])
  }

  ghost predicate FreshRun(s: State, ops: seq<Op>) {
    if ops == [] then true
    else
      var n := |ops| - 1;
      FreshRun(s, ops[..n]) && NamesAreFresh(StateAfter(s, ops[..n]), ops[n])
  }

  /** Over every run the nodes of an unshared volume all hold it in one mode, the
      stored one. */
  lemma {:induction false} UnsharedVolumesHaveOneMode(s: State, modes: Modes, ops: seq<Op>)
    requires ModesAgree(s, modes) && FreshRun(s, ops)
    ensures ModesAgree(StateAfter(s, ops), ModesAfterAll(s, modes, ops))
  {
    if ops != [] {
      var n := |ops| - 1;
      UnsharedVolumesHaveOneMode(s, modes, ops[..n]);
      OpKeepsModes(StateAfter(s, ops[..n]), ModesAfterAll(s, modes, ops[..n]), ops[n]);
    }
  }

  /** A delete that succeeds in a run finds no node holding the volume. */
  lemma DeleteNeedsNoNode(s: State, modes: Modes, ops: seq<Op>, v: string, accepted: bool)
    requires ModesAgree(s, modes) && FreshRun(s, ops)
    requires Delete(StateAfter(s, ops), v, accepted).1.Ok?
    ensures ModesOf(ModesAfterAll(s, modes, ops), v) == map[]
  {
    UnsharedVolumesHaveOneMode(s, modes, ops);
    var modes' := ModesOf(ModesAfterAll(s, modes, ops), v);
    assert modes'.Keys == {};
  }

  /** Some node was granted the other mode. */
  ghost predicate Conflicts(granted: map<string, bool>, readonly: bool) {
    exists other :: other in granted && granted[other] != readonly
  }

  lemma MisfitMeansConflict(v: Volume, granted: map<string, bool>, readonly: bool)
    requires !v.mountShared && OneMode(v, granted) && granted.Keys == v.published
    ensures !ModeFits(v, readonly) <==> Conflicts(granted, readonly)
  {
    if !ModeFits(v, readonly) {
      var other :| other in v.published;
      assert other in granted && granted[other] != readonly;
    }
  }

  /** On an unshared volume in a run, a node is refused exactly when some other
      mode is already granted. */
  lemma RefusedExactlyOnConflict(
    s: State, modes: Modes, ops: seq<Op>, v: string, node: string, readonly: bool, shared: bool)
    requires ModesAgree(s, modes) && FreshRun(s, ops)
    requires var now := StateAfter(s, ops); v in now.volumes && !now.volumes[v].mountShared
    ensures Publish(StateAfter(s, ops), v, node, readonly, shared).1.Err? <==>
            Conflicts(ModesOf(ModesAfterAll(s, modes, ops), v), readonly)
  {
    UnsharedVolumesHaveOneMode(s, modes, ops);
    MisfitMeansConflict(StateAfter(s, ops).volumes[v], ModesOf(ModesAfterAll(s, modes, ops), v), readonly);
  }

  /** The next node would be the first read-only one among nodes that share the
      volume. */
  predicate LeavesFlagUp(volume: Volume, readonly: bool) {
    volume.mountShared && volume.published != {} && !volume.readonly && readonly
  }

  lemma UndoneIff(s: State, v: string, node: string, readonly: bool, shared: bool)
    requires v in s.volumes && node !in s.volumes[v].published
    requires s.volumes[v].published == {} ==> !s.volumes[v].readonly
    requires ModeFits(s.volumes[v], readonly)
    ensures Unpublish(Publish(s, v, node, readonly, shared).0, v, node) == s <==> !LeavesFlagUp(s.volumes[v], readonly)
  {
    var volume := s.volumes[v];
    assert volume.published + {node} - {node} == volume.published;
    var undone := Unpublish(Publish(s, v, node, readonly, shared).0, v, node);
    assert undone.volumes == s.volumes[v := undone.volumes[v]];
    assert undone == s <==> undone.volumes[v] == volume;
  }

  lemma StaysCached(s: State, v: string, node: string, readonly: bool, shared: bool)
    requires Publish(s, v, node, readonly, shared).1.Ok?
    ensures v in Unpublish(Publish(s, v, node, readonly, shared).0, v, node).volumes
  {
  }

  /** In a run, publishing a volume to a new node and unpublishing it again restores the
      state if and only if the volume was known before and no flag stays up; one that the
      publish had to rediscover stays cached. */
  lemma UnpublishUndoesPublishIff(
    s: State, modes: Modes, ops: seq<Op>, v: string, node: string, readonly: bool, shared: bool)
    requires ModesAgree(s, modes) && FreshRun(s, ops)
    requires var now := StateAfter(s, ops); v in now.volumes ==> node !in now.volumes[v].published
    requires Publish(StateAfter(s, ops), v, node, readonly, shared).1.Ok?
    ensures var now := StateAfter(s, ops);
            Unpublish(Publish(now, v, node, readonly, shared).0, v, node) == now
            <==> v in now.volumes && !LeavesFlagUp(now.volumes[v], readonly)
  {
    var now := StateAfter(s, ops);
    UnsharedVolumesHaveOneMode(s, modes, ops);
    if v in now.volumes {
      UndoneIff(now, v, node, readonly, shared);
    } else {
      StaysCached(now, v, node, readonly, shared);
    }
  }

  /** The assumption that the volume is not shared is needed: a shared one takes
      nodes in both modes. */
  lemma SharedVolumesMixModes(s: State, v: string)
    requires v in s.volumes && s.volumes[v].mountShared && s.volumes[v].published == {}
    ensures var ops := [DoPublish(v, "a", true, true), DoPublish(v, "b", false, true)];
            ModesOf(ModesAfterAll(s, map[], ops), v) == map["a" := true, "b" := false]
  {
    var ops := [DoPublish(v, "a", true, true), DoPublish(v, "b", false, true)];
    assert ops[..1] == [ops[0]] && ops[..1][..0] == [];
    assert StateAfter(s, []) == s && ModesAfterAll(s, map[], []) == map[];
    assert StateAfter(s, ops[..1]) == Apply(s, ops[0]);
    assert ModesAfterAll(s, map[], ops[..1]) == map[v := map["a" := true]];
  }

  /** A rediscovered volume starts with no node, in the sharing mode of the request that
      found it: after a first node a second one is refused exactly if the volume is not
      shared and the modes differ. */
  lemma RediscoveredVolumeKeepsMode(
    s: State, v: string, a: string, b: string, ro: bool, ro': bool, shared: bool, shared': bool)
    requires v !in s.volumes && Rediscover(s.ponds, v).Ok?
    ensures var once := Publish(s, v, a, ro, shared);
            && once.1 == Ok(())
            && Publish(once.0, v, b, ro', shared').1 == if shared || ro' == ro then Ok(()) else Err(Aborted)
  {
  }

  /** A publish fails only as the rediscovery does or on a conflict, a delete also when it
      meets a published node or a pond refuses; failed calls book and grant nothing. */
  lemma FailuresOf(s: State, v: string, node: string, readonly: bool, shared: bool, accepted: bool)
    ensures var (after, r) := Publish(s, v, node, readonly, shared);
            r.Err? ==>
              && (if v in s.volumes then r == Err(Aborted) else r.error in {Unavailable, Internal})
              && after.allocation == s.allocation && after.volumes == s.volumes
    ensures var (after, r) := Delete(s, v, accepted);
            r.Err? ==>
              && after.allocation == s.allocation
              && (if v in s.volumes then
                    after == s && r.error == (if s.volumes[v].published != {} then Aborted else Remote)
                  else if Rediscover(s.ponds, v).Ok? then r.error == Remote
                  else after == s && r.error in {Unavailable, Internal})
  {
    PondDiscovery.RediscoveryErrors(s.ponds, v);
  }
}
