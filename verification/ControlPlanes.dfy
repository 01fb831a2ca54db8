/** The view of a cluster's control planes on which the join gate and the etcd
    node list are computed, and what that view says about the boxes. */
module ControlPlanes {
  import opened Wrappers
  import opened Boxes

  datatype Node = Node(createdAt: Option<int>, uuid: nat, isReady: bool, isRunning: bool)

  function FromBox(b: Box): Node {
    Node(b.createdAt, b.uuid,
         b.status.Some? && (b.status.value.state.Ready? || b.status.value.state.Running?),
         b.status.Some? && b.status.value.state.Running?)
  }

  /** The order by creation time, then by unique id; boxes without a time come first. */
  predicate Earlier(ta: Option<int>, ua: nat, tb: Option<int>, ub: nat) {
    match (ta, tb)
    case (None, Some(_)) => true
    case (Some(_), None) => false
    case (None, None) => ua < ub
    case (Some(x), Some(y)) => x < y || (x == y && ua < ub)
  }

  predicate Before(a: Node, b: Node) {
    Earlier(a.createdAt, a.uuid, b.createdAt, b.uuid)
  }

  predicate Older(a: Box, b: Box) {
    Earlier(a.createdAt, a.uuid, b.createdAt, b.uuid)
  }

  predicate IsControlPlane(b: Box, cluster: string) {
    b.group.cluster == cluster && b.group.role == ControlPlane
  }

  predicate Sorted(nodes: seq<Node>) {
    forall i, j | 0 <= i < j < |nodes| :: Before(nodes[i], nodes[j])
  }

  function Insert(nodes: seq<Node>, x: Node): (r: seq<Node>)
    ensures forall n :: n in r <==> n in nodes || n == x
    ensures |r| == |nodes| + 1
  {
    if nodes == [] then [x]
    else if Before(x, nodes[0]) then [x] + nodes
    else [nodes[0]] + Insert(nodes[1..], x)
  }

  /** The control planes of a cluster in creation order. */
  function Load(boxes: seq<Box>, cluster: string): seq<Node> {
    if boxes == [] then []
    else
      var n := |boxes| - 1;
      if IsControlPlane(boxes[n], cluster) then Insert(Load(boxes[..n], cluster), FromBox(boxes[n]))
      else Load(boxes[..n], cluster)
  }

  ghost predicate DistinctIds(boxes: seq<Box>) {
    forall i, j | 0 <= i < j < |boxes| :: boxes[i].uuid != boxes[j].uuid
  }

  lemma {:induction false} InsertSorts(nodes: seq<Node>, x: Node)
    requires Sorted(nodes) && forall k | 0 <= k < |nodes| :: nodes[k].uuid != x.uuid
    ensures Sorted(Insert(nodes, x))
  {
    if nodes != [] && !Before(x, nodes[0]) {
      InsertSorts(nodes[1..], x);
      var r := Insert(nodes[1..], x);
      forall k | 0 <= k < |r|
        ensures Before(nodes[0], r[k])
      {
        assert r[k] in r;
        if r[k] != x {
          var m :| 0 <= m < |nodes[1..]| && nodes[1..][m] == r[k];
          assert nodes[m + 1] == r[k];
        }
      }
    }
  }

  /** The loaded list is sorted and holds exactly the cluster's control planes. */
  lemma {:induction false} LoadIsFaithful(boxes: seq<Box>, cluster: string)
    requires DistinctIds(boxes)
    ensures Sorted(Load(boxes, cluster))
    ensures forall i | 0 <= i < |boxes| && IsControlPlane(boxes[i], cluster) ::
              FromBox(boxes[i]) in Load(boxes, cluster)
    ensures forall n | n in Load(boxes, cluster) ::
              exists i :: 0 <= i < |boxes| && IsControlPlane(boxes[i], cluster) && n == FromBox(boxes[i])
  {
    if boxes != [] {
      var n := |boxes| - 1;
      LoadIsFaithful(boxes[..n], cluster);
      var before := Load(boxes[..n], cluster);
      forall k | 0 <= k < |before|
        ensures before[k].uuid != boxes[n].uuid
      {
        assert before[k] in before;
      }
      if IsControlPlane(boxes[n], cluster) {
        InsertSorts(before, FromBox(boxes[n]));
      }
      forall i | 0 <= i < |boxes| && IsControlPlane(boxes[i], cluster)
        ensures FromBox(boxes[i]) in Load(boxes, cluster)
      {
        assert i < n ==> boxes[..n][i] == boxes[i];
      }
    }
  }

  // ----- the gate

  function NumReady(nodes: seq<Node>): nat {
    if nodes == [] then 0 else (if nodes[0].isReady then 1 else 0) + NumReady(nodes[1..])
  }

  function NumRunning(nodes: seq<Node>): nat {
    if nodes == [] then 0 else (if nodes[0].isRunning then 1 else 0) + NumRunning(nodes[1..])
  }

  predicate Contains(nodes: seq<Node>, uuid: nat) {
    exists k :: 0 <= k < |nodes| && nodes[k].uuid == uuid
  }

  /** The first node that is not running is the given one. */
  predicate IsNext(nodes: seq<Node>, uuid: nat) {
    if nodes == [] then false
    else if !nodes[0].isRunning then nodes[0].uuid == uuid
    else IsNext(nodes[1..], uuid)
  }

  predicate IsControlPlaneRunning(nodes: seq<Node>, isDefault: bool) {
    (NumRunning(nodes) != 0 || isDefault) && NumRunning(nodes) == |nodes|
  }

  predicate IsJoinable(nodes: seq<Node>, owner: nat, isDefault: bool) {
    if Contains(nodes, owner) then NumReady(nodes) == |nodes| && IsNext(nodes, owner)
    else IsControlPlaneRunning(nodes, isDefault)
  }

  lemma {:induction false} AllCounted(nodes: seq<Node>)
    ensures NumReady(nodes) <= |nodes| && NumRunning(nodes) <= |nodes|
    ensures NumReady(nodes) == |nodes| <==> forall k | 0 <= k < |nodes| :: nodes[k].isReady
    ensures NumRunning(nodes) == |nodes| <==> forall k | 0 <= k < |nodes| :: nodes[k].isRunning
  {
    if nodes != [] {
      AllCounted(nodes[1..]);
      assert forall k | 0 <= k < |nodes[1..]| :: nodes[1..][k] == nodes[k + 1];
      assert forall k | 0 < k < |nodes| :: nodes[k] == nodes[1..][k - 1];
    }
  }

  lemma {:induction false} StrangerIsNotNext(nodes: seq<Node>, uuid: nat)
    requires forall k | 0 <= k < |nodes| :: nodes[k].uuid != uuid
    ensures !IsNext(nodes, uuid)
  {
    if nodes != [] {
      StrangerIsNotNext(nodes[1..], uuid);
    }
  }

  lemma {:induction false} NextIsFirstNotRunning(nodes: seq<Node>, p: nat)
    requires p < |nodes| && forall k | 0 <= k < |nodes| && k != p :: nodes[k].uuid != nodes[p].uuid
    ensures IsNext(nodes, nodes[p].uuid) <==>
            !nodes[p].isRunning && forall k | 0 <= k < p :: nodes[k].isRunning
  {
    if p > 0 {
      NextIsFirstNotRunning(nodes[1..], p - 1);
      assert forall k | 0 <= k < |nodes[1..]| :: nodes[1..][k] == nodes[k + 1];
      assert forall k | 0 < k < |nodes| :: nodes[k] == nodes[1..][k - 1];
    } else {
      StrangerIsNotNext(nodes[1..], nodes[0].uuid);
    }
  }

  /** Where a control plane sits in the loaded list. */
  lemma PositionOf(boxes: seq<Box>, cluster: string, i: nat) returns (p: nat)
    requires DistinctIds(boxes) && i < |boxes| && IsControlPlane(boxes[i], cluster)
    ensures var nodes := Load(boxes, cluster);
            && p < |nodes| && nodes[p] == FromBox(boxes[i])
            && (forall k | 0 <= k < |nodes| && k != p :: nodes[k].uuid != boxes[i].uuid)
            && (forall k | 0 <= k < |nodes| :: k < p <==> Before(nodes[k], nodes[p]))
  {
    LoadIsFaithful(boxes, cluster);
    var nodes := Load(boxes, cluster);
    p :| 0 <= p < |nodes| && nodes[p] == FromBox(boxes[i]);
    forall k | 0 <= k < |nodes| && k != p
      ensures nodes[k].uuid != boxes[i].uuid
    {
      assert nodes[k] in nodes;
      assert Before(nodes[k], nodes[p]) || Before(nodes[p], nodes[k]);
    }
  }

  predicate IsReadyBox(b: Box) {
    StateOf(b).Ready? || StateOf(b).Running?
  }

  ghost predicate AllNodesReady(nodes: seq<Node>) {
    forall k | 0 <= k < |nodes| :: nodes[k].isReady
  }

  ghost predicate AllBoxesReady(boxes: seq<Box>, cluster: string) {
    forall j | 0 <= j < |boxes| && IsControlPlane(boxes[j], cluster) :: IsReadyBox(boxes[j])
  }

  lemma ReadyAmongNodes(boxes: seq<Box>, cluster: string)
    requires DistinctIds(boxes)
    ensures AllNodesReady(Load(boxes, cluster)) <==> AllBoxesReady(boxes, cluster)
  {
    var nodes := Load(boxes, cluster);
    LoadIsFaithful(boxes, cluster);
    if AllNodesReady(nodes) {
      forall j | 0 <= j < |boxes| && IsControlPlane(boxes[j], cluster)
        ensures IsReadyBox(boxes[j])
      {
        assert FromBox(boxes[j]) in nodes;
        var k :| 0 <= k < |nodes| && nodes[k] == FromBox(boxes[j]);
        assert nodes[k].isReady;
      }
    } else {
      var k :| 0 <= k < |nodes| && !nodes[k].isReady;
      assert nodes[k] in nodes;
      var j :| 0 <= j < |boxes| && IsControlPlane(boxes[j], cluster) && nodes[k] == FromBox(boxes[j]);
      assert !IsReadyBox(boxes[j]);
    }
  }

  lemma OlderRunAmongNodes(boxes: seq<Box>, cluster: string, i: nat, p: nat)
    requires DistinctIds(boxes) && i < |boxes|
    requires p < |Load(boxes, cluster)| && Load(boxes, cluster)[p] == FromBox(boxes[i])
    requires forall k | 0 <= k < |Load(boxes, cluster)| ::
               k < p <==> Before(Load(boxes, cluster)[k], Load(boxes, cluster)[p])
    ensures (forall k | 0 <= k < p :: Load(boxes, cluster)[k].isRunning) <==>
            (forall j | 0 <= j < |boxes| && IsControlPlane(boxes[j], cluster) && Older(boxes[j], boxes[i]) ::
               StateOf(boxes[j]).Running?)
  {
    var nodes := Load(boxes, cluster);
    LoadIsFaithful(boxes, cluster);
    if forall k | 0 <= k < p :: nodes[k].isRunning {
      forall j | 0 <= j < |boxes| && IsControlPlane(boxes[j], cluster) && Older(boxes[j], boxes[i])
        ensures StateOf(boxes[j]).Running?
      {
        assert FromBox(boxes[j]) in nodes;
        var k :| 0 <= k < |nodes| && nodes[k] == FromBox(boxes[j]);
        assert Before(nodes[k], nodes[p]);
      }
    }
    if forall j | 0 <= j < |boxes| && IsControlPlane(boxes[j], cluster) && Older(boxes[j], boxes[i]) ::
         StateOf(boxes[j]).Running? {
      forall k | 0 <= k < p
        ensures nodes[k].isRunning
      {
        assert nodes[k] in nodes;
        assert Before(nodes[k], nodes[p]);
      }
    }
  }

  /** Everything the gate demands of a control plane that wants to join. */
  ghost predicate MayJoin(boxes: seq<Box>, cluster: string, i: nat)
    requires i < |boxes|
  {
    && AllBoxesReady(boxes, cluster)
    && !StateOf(boxes[i]).Running?
    && (forall j | 0 <= j < |boxes| && IsControlPlane(boxes[j], cluster) && Older(boxes[j], boxes[i]) ::
          StateOf(boxes[j]).Running?)
  }

  /** The gate opens for a control plane exactly when all control planes are ready
      or running, it is not running, and all older ones are. */
  lemma GateMeaning(boxes: seq<Box>, cluster: string, i: nat, isDefault: bool)
    requires DistinctIds(boxes) && i < |boxes| && IsControlPlane(boxes[i], cluster)
    ensures IsJoinable(Load(boxes, cluster), boxes[i].uuid, isDefault) <==> MayJoin(boxes, cluster, i)
  {
    var nodes := Load(boxes, cluster);
    LoadIsFaithful(boxes, cluster);
    var p := PositionOf(boxes, cluster, i);
    assert Contains(nodes, boxes[i].uuid);
    AllCounted(nodes);
    NextIsFirstNotRunning(nodes, p);
    ReadyAmongNodes(boxes, cluster);
    OlderRunAmongNodes(boxes, cluster, i, p);
  }

  ghost predicate AllBoxesRun(boxes: seq<Box>, cluster: string) {
    forall j | 0 <= j < |boxes| && IsControlPlane(boxes[j], cluster) :: StateOf(boxes[j]).Running?
  }

  /** The control planes come in the order of their creation, those without a time first,
      and by id when created together. */
  lemma LoadIsByCreation(boxes: seq<Box>, cluster: string, i: nat, j: nat)
    requires DistinctIds(boxes) && i < j < |Load(boxes, cluster)|
    ensures var a, b := Load(boxes, cluster)[i], Load(boxes, cluster)[j];
            && (a.createdAt.None? || (b.createdAt.Some? && a.createdAt.value <= b.createdAt.value))
            && (a.createdAt == b.createdAt ==> a.uuid < b.uuid)
  {
    LoadIsFaithful(boxes, cluster);
  }

  ghost predicate AllNodesRun(nodes: seq<Node>) {
    forall k | 0 <= k < |nodes| :: nodes[k].isRunning
  }

  lemma RunningAmongNodes(boxes: seq<Box>, cluster: string)
    requires DistinctIds(boxes)
    ensures AllNodesRun(Load(boxes, cluster)) <==> AllBoxesRun(boxes, cluster)
  {
    var nodes := Load(boxes, cluster);
    LoadIsFaithful(boxes, cluster);
    if AllNodesRun(nodes) {
      forall j | 0 <= j < |boxes| && IsControlPlane(boxes[j], cluster)
        ensures StateOf(boxes[j]).Running?
      {
        assert FromBox(boxes[j]) in nodes;
        var k :| 0 <= k < |nodes| && nodes[k] == FromBox(boxes[j]);
        assert nodes[k].isRunning;
      }
    } else {
      var k :| 0 <= k < |nodes| && !nodes[k].isRunning;
      assert nodes[k] in nodes;
      var j :| 0 <= j < |boxes| && IsControlPlane(boxes[j], cluster) && nodes[k] == FromBox(boxes[j]);
      assert !StateOf(boxes[j]).Running?;
    }
  }

  lemma SomeNode(boxes: seq<Box>, cluster: string)
    requires DistinctIds(boxes)
    ensures Load(boxes, cluster) != [] <==> exists j :: 0 <= j < |boxes| && IsControlPlane(boxes[j], cluster)
  {
    var nodes := Load(boxes, cluster);
    LoadIsFaithful(boxes, cluster);
    if nodes != [] {
      assert nodes[0] in nodes;
    }
  }

  /** Everything the gate demands of a box that is no control plane. */
  ghost predicate MayJoinAsWorker(boxes: seq<Box>, cluster: string) {
    && AllBoxesRun(boxes, cluster)
    && (cluster == DEFAULT_CLUSTER || exists j :: 0 <= j < |boxes| && IsControlPlane(boxes[j], cluster))
  }

  /** The gate opens for a box that is no control plane of the cluster exactly when all
      control planes of the cluster run and it has one or is the default cluster. */
  lemma WorkerGateMeaning(boxes: seq<Box>, cluster: string, i: nat)
    requires DistinctIds(boxes) && i < |boxes| && !IsControlPlane(boxes[i], cluster)
    ensures IsJoinable(Load(boxes, cluster), boxes[i].uuid, cluster == DEFAULT_CLUSTER) <==>
            MayJoinAsWorker(boxes, cluster)
  {
    var nodes := Load(boxes, cluster);
    LoadIsFaithful(boxes, cluster);
    forall k | 0 <= k < |nodes|
      ensures nodes[k].uuid != boxes[i].uuid
    {
      assert nodes[k] in nodes;
    }
    assert !Contains(nodes, boxes[i].uuid);
    AllCounted(nodes);
    RunningAmongNodes(boxes, cluster);
    SomeNode(boxes, cluster);
  }

  // ----- the etcd node list

  /** The running nodes and the joining owner, in creation order. */
  function RunningWith(nodes: seq<Node>, owner: nat): seq<Node> {
    if nodes == [] then []
    else (if nodes[0].isRunning || nodes[0].uuid == owner then [nodes[0]] else []) + RunningWith(nodes[1..], owner)
  }

  /** The list holds the running nodes and the owner. */
  lemma {:induction false} RunningWithHolds(nodes: seq<Node>, owner: nat, n: Node)
    ensures n in RunningWith(nodes, owner) <==> n in nodes && (n.isRunning || n.uuid == owner)
  {
    if nodes != [] {
      RunningWithHolds(nodes[1..], owner, n);
      assert nodes == [nodes[0]] + nodes[1..];
    }
  }

  /** The list keeps the creation order. */
  lemma {:induction false} RunningWithIsSorted(nodes: seq<Node>, owner: nat)
    requires Sorted(nodes)
    ensures Sorted(RunningWith(nodes, owner))
  {
    if nodes != [] {
      var rest := RunningWith(nodes[1..], owner);
      RunningWithIsSorted(nodes[1..], owner);
      forall k | 0 <= k < |rest|
        ensures Before(nodes[0], rest[k])
      {
        RunningWithHolds(nodes[1..], owner, rest[k]);
        var m :| 0 <= m < |nodes[1..]| && nodes[1..][m] == rest[k];
        assert nodes[m + 1] == rest[k];
      }
    }
  }

  /** The largest odd number within both limits; zero stands for no limit. */
  function EtcdSize(n: nat, max: nat): (k: nat)
    ensures k <= n && (max > 0 ==> k <= max)
    ensures n > 0 ==> k % 2 == 1 && forall m: nat | m % 2 == 1 && m <= n && (max > 0 ==> m <= max) :: m <= k
    ensures n == 0 ==> k == 0
  {
    var cut := if max > 0 && n > max then max else n;
    if cut % 2 == 0 && cut > 0 then cut - 1 else cut
  }

  /** Cut the list to the limit, then to an odd size. */
  method SelectEtcd(nodes: seq<Node>, owner: nat, max: nat) returns (picked: seq<Node>)
    ensures picked == RunningWith(nodes, owner)[..EtcdSize(|RunningWith(nodes, owner)|, max)]
  {
    picked := RunningWith(nodes, owner);
    if max > 0 && |picked| > max {
      picked := picked[..max];
    }
    if |picked| % 2 == 0 && |picked| > 0 {
      picked := picked[..|picked| - 1];
    }
  }

  function Uuids(nodes: seq<Node>): (s: seq<nat>)
    ensures |s| == |nodes|
  {
    seq(|nodes|, k requires 0 <= k < |nodes| => nodes[k].uuid)
  }

  lemma {:induction false} NoneRunning(nodes: seq<Node>, owner: nat)
    requires forall k | 0 <= k < |nodes| :: !nodes[k].isRunning && nodes[k].uuid != owner
    ensures RunningWith(nodes, owner) == []
  {
    if nodes != [] {
      NoneRunning(nodes[1..], owner);
    }
  }

  /** When exactly the nodes before position p run, the list is everything up to
      and including p. */
  lemma {:induction false} RunningWithIsPrefix(nodes: seq<Node>, p: nat)
    requires p < |nodes| && forall k | 0 <= k < |nodes| && k != p :: nodes[k].uuid != nodes[p].uuid
    requires forall k | 0 <= k < |nodes| :: nodes[k].isRunning <==> k < p
    ensures RunningWith(nodes, nodes[p].uuid) == nodes[..p + 1]
  {
    assert forall k | 0 < k < |nodes| :: nodes[k] == nodes[1..][k - 1];
    if p > 0 {
      RunningWithIsPrefix(nodes[1..], p - 1);
      assert nodes[..p + 1] == [nodes[0]] + nodes[1..][..p];
    } else {
      NoneRunning(nodes[1..], nodes[0].uuid);
      assert nodes[..1] == [nodes[0]];
    }
  }

  // ----- the roster does not depend on the states

  predicate SameKey(a: Node, b: Node) {
    a.createdAt == b.createdAt && a.uuid == b.uuid
  }

  predicate SameKeys(a: seq<Node>, b: seq<Node>) {
    |a| == |b| && forall k | 0 <= k < |a| :: SameKey(a[k], b[k])
  }

  lemma {:induction false} InsertKeys(a: seq<Node>, b: seq<Node>, x: Node, y: Node)
    requires SameKeys(a, b) && SameKey(x, y)
    ensures SameKeys(Insert(a, x), Insert(b, y))
  {
    if a != [] && !Before(x, a[0]) {
      InsertKeys(a[1..], b[1..], x, y);
    }
  }

  /** The boxes of `later` extend those of `earlier`, with the same identities and, for
      the cluster's control planes, the same membership. */
  ghost predicate SameRoster(earlier: seq<Box>, later: seq<Box>, cluster: string) {
    && |earlier| <= |later|
    && (forall k | 0 <= k < |earlier| ::
          && earlier[k].uuid == later[k].uuid && earlier[k].createdAt == later[k].createdAt
          && (IsControlPlane(earlier[k], cluster) <==> IsControlPlane(later[k], cluster)))
    && (forall k | |earlier| <= k < |later| :: !IsControlPlane(later[k], cluster))
  }

  lemma {:induction false} RosterKeys(earlier: seq<Box>, later: seq<Box>, cluster: string)
    requires SameRoster(earlier, later, cluster)
    ensures SameKeys(Load(earlier, cluster), Load(later, cluster))
    decreases |later|
  {
    if later != [] {
      var n := |later| - 1;
      if |earlier| == |later| {
        RosterKeys(earlier[..n], later[..n], cluster);
        if IsControlPlane(later[n], cluster) {
          InsertKeys(Load(earlier[..n], cluster), Load(later[..n], cluster), FromBox(earlier[n]), FromBox(later[n]));
        }
      } else {
        RosterKeys(earlier, later[..n], cluster);
      }
    }
  }
}
