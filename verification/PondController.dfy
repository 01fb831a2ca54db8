/** The Data Pond controller on values: creating, deleting, publishing and
    unpublishing volumes, rediscovering a volume from the ponds' records, and the
    accounting of reserved space. */
module PondController {
  import opened Wrappers
  import opened PondDevices

  datatype Volume = Volume(bindings: seq<Claim>, mountShared: bool, published: set<string>, readonly: bool)

  datatype State = State(allocation: map<Key, int>, ponds: seq<Pond>, volumes: map<string, Volume>)

  datatype Failure =
    | InvalidArgument | Unimplemented | ResourceExhausted | Unavailable | Internal | Aborted | Remote

  /** A create call. `options` and `attributes` are absent when they cannot be
      parsed, `replicas` when the attribute is missing or not a number, and
      `accepted` says whether all ponds accept the allocation. */
  datatype CreateRequest = CreateRequest(
    volumeId: string,
    requiredBytes: Option<int>,
    options: Option<bool>,
    attributes: Option<(Layer, Option<int>)>,
    hasContentSource: bool,
    topology: Option<Topology>,
    accepted: bool)

  // ----- create

  function Replicas(parsed: Option<int>): (n: nat)
    ensures n >= 1
  {
    if parsed.Some? && parsed.value >= 1 then parsed.value else 1
  }

  /** Store the binding order. */
  function Numbered(bindings: seq<Claim>): (r: seq<Claim>)
    ensures |r| == |bindings|
  {
    seq(|bindings|, k requires 0 <= k < |bindings| =>
      bindings[k].(meta := bindings[k].meta.(index := k, total := |bindings|)))
  }

  /** The greedy plan over ranked candidates; only the grand total is checked. */
  function PlanFrom(cs: seq<Claim>, required: int, n: nat): Result<seq<Claim>, Failure> {
    var f := FillAll(cs, required, n);
    if f.filled < required * n then Err(ResourceExhausted) else Ok(Numbered(f.bindings))
  }

  /** The bindings for a request, or why there are none. */
  function PlanCreate(s: State, r: CreateRequest): Result<seq<Claim>, Failure> {
    if r.requiredBytes.None? || r.options.None? || r.attributes.None? then Err(InvalidArgument)
    else if r.hasContentSource then Err(Unimplemented)
    else
      var (layer, replicas) := r.attributes.value;
      PlanFrom(Claims(Rank(s.allocation, s.ponds, r.topology, r.volumeId)),
               r.requiredBytes.value + layer.Margin(), Replicas(replicas))
  }

  function Commit(allocation: map<Key, int>, bindings: seq<Claim>): map<Key, int> {
    if bindings == [] then allocation
    else
      var n := |bindings| - 1;
      var before := Commit(allocation, bindings[..n]);
      var key := bindings[n].DeviceKey();
      before[key := Get(before, key) + bindings[n].meta.reserved]
  }

  function Create(s: State, r: CreateRequest): (State, Result<seq<Claim>, Failure>) {
    match PlanCreate(s, r)
    case Err(e) => (s, Err(e))
    case Ok(bindings) =>
      if !r.accepted then (s, Err(Remote))
      else
        (s.(allocation := Commit(s.allocation, bindings),
            volumes := s.volumes[r.volumeId := Volume(bindings, r.options.value, {}, false)]),
         Ok(bindings))
  }

  // ----- rediscovery

  function FindDevice(devices: seq<Device>, id: string): Option<Device> {
    if devices == [] then None
    else if devices[0].id == id then Some(devices[0])
    else FindDevice(devices[1..], id)
  }

  /** The claims of a volume recorded by the first n bindings of a pond. */
  function Discover(p: Pond, volumeId: string, n: nat): Result<seq<Claim>, Failure>
    requires n <= |p.bindings|
  {
    if n == 0 then Ok([])
    else
      match Discover(p, volumeId, n - 1)
      case Err(e) => Err(e)
      case Ok(before) =>
        var meta := p.bindings[n - 1];
        if meta.volumeId != volumeId then Ok(before)
        else match FindDevice(p.devices, meta.deviceId)
          case None => Err(Internal)
          case Some(d) => Ok(before + [Claim(p.id, d, meta)])
  }

  function DiscoverAll(ponds: seq<Pond>, volumeId: string): Result<seq<Claim>, Failure> {
    if ponds == [] then Ok([])
    else
      var n := |ponds| - 1;
      match DiscoverAll(ponds[..n], volumeId)
      case Err(e) => Err(e)
      case Ok(before) =>
        match Discover(ponds[n], volumeId, |ponds[n].bindings|)
        case Err(e) => Err(e)
        case Ok(more) => Ok(before + more)
  }

  /** Insert after all claims with the same or a smaller index. */
  function InsertByIndex(cs: seq<Claim>, x: Claim): (r: seq<Claim>)
    ensures |r| == |cs| + 1
    ensures forall c | c in r :: c in cs || c == x
  {
    if cs == [] then [x]
    else if x.meta.index < cs[0].meta.index then [x] + cs
    else [cs[0]] + InsertByIndex(cs[1..], x)
  }

  /** The stable sort by index. */
  function SortByIndex(cs: seq<Claim>): (r: seq<Claim>)
    ensures |r| == |cs|
  {
    if cs == [] then []
    else InsertByIndex(SortByIndex(cs[..|cs| - 1]), cs[|cs| - 1])
  }

  predicate InOrder(cs: seq<Claim>) {
    forall i | 0 <= i < |cs| :: cs[i].meta.index == i
  }

  function Rediscover(ponds: seq<Pond>, volumeId: string): Result<seq<Claim>, Failure> {
    match DiscoverAll(ponds, volumeId)
    case Err(e) => Err(e)
    case Ok(found) =>
      if found == [] then Err(Unavailable)
      else if |found| != found[0].meta.total then Err(Unavailable)
      else if !InOrder(SortByIndex(found)) then Err(Internal)
      else Ok(SortByIndex(found))
  }

  /** The cached volume, or the rediscovered one, which is cached. */
  function Provision(s: State, volumeId: string, mountShared: bool): Result<State, Failure> {
    if volumeId in s.volumes then Ok(s)
    else match Rediscover(s.ponds, volumeId)
      case Err(e) => Err(e)
      case Ok(bindings) =>
        Ok(s.(volumes := s.volumes[volumeId := Volume(bindings, mountShared, {}, false)]))
  }

  // ----- delete, publish, unpublish

  function Release(allocation: map<Key, int>, bindings: seq<Claim>): map<Key, int> {
    if bindings == [] then allocation
    else
      var n := |bindings| - 1;
      var before := Release(allocation, bindings[..n]);
      var key := bindings[n].DeviceKey();
      if key in before then before[key := before[key] - bindings[n].meta.reserved] else before
  }

  function Delete(s: State, volumeId: string, accepted: bool): (State, Result<(), Failure>) {
    match Provision(s, volumeId, false)
    case Err(e) => (s, Err(e))
    case Ok(p) =>
      if volumeId !in p.volumes then (p, Err(Internal))
      else if p.volumes[volumeId].published != {} then (p, Err(Aborted))
      else if !accepted then (p, Err(Remote))
      else
        (p.(allocation := Release(p.allocation, p.volumes[volumeId].bindings),
            volumes := p.volumes - {volumeId}),
         Ok(()))
  }

  /** Whether a node may be added in a mode. */
  predicate ModeFits(v: Volume, readonly: bool) {
    v.mountShared || v.published == {} || v.readonly == readonly
  }

  function Publish(s: State, volumeId: string, node: string, readonly: bool, mountShared: bool)
    : (State, Result<(), Failure>)
  {
    match Provision(s, volumeId, mountShared)
    case Err(e) => (s, Err(e))
    case Ok(p) =>
      if volumeId !in p.volumes then (p, Err(Internal))
      else
        var v := p.volumes[volumeId];
        if !ModeFits(v, readonly) then (p, Err(Aborted))
        else
          var v' := v.(published := v.published + {node}, readonly := v.readonly || readonly);
          (p.(volumes := p.volumes[volumeId := v']), Ok(()))
  }

  function Unpublish(s: State, volumeId: string, node: string): State {
    if volumeId !in s.volumes then s
    else
      var v := s.volumes[volumeId];
      var published := v.published - {node};
      s.(volumes := s.volumes[volumeId := v.(published := published, readonly := v.readonly && published != {})])
  }

  // ----- create finds space exactly when there is space

  lemma SingleReplica(cs: seq<Claim>, required: int)
    ensures FillAll(cs, required, 1) == FillOne(cs, required, 0)
  {
    var first := FillOne(cs, required, 0);
    assert FillAll(cs[|first.bindings|..], required, 0) == Filling([], 0);
    assert first.bindings + [] == first.bindings;
  }

  lemma SinglePlan(cs: seq<Claim>, required: int)
    requires required >= 0
    ensures PlanFrom(cs, required, 1) ==
            if FillOne(cs, required, 0).filled == required then Ok(Numbered(FillOne(cs, required, 0).bindings))
            else Err(ResourceExhausted)
  {
    SingleReplica(cs, required);
    FillOneTakesNext(cs, required, 0);
    assert required * 1 == required;
  }

  /** The ranked candidates of a create call. */
  function Candidates(s: State, r: CreateRequest): seq<Claim> {
    Claims(Rank(s.allocation, s.ponds, r.topology, r.volumeId))
  }

  lemma UnrankedIsFullOnesLast(s: State, r: CreateRequest)
    requires DistinctDevices(s.ponds) && r.topology.None?
    ensures FullOnesLast(Candidates(s, r))
  {
    RankIsDescending(s.allocation, s.ponds, r.volumeId);
    assert r.topology == None;
  }

  lemma SinglePlanIsComplete(cs: seq<Claim>, required: int)
    requires required > 0
    ensures PlanFrom(cs, required, 1).Ok? <==> SomePrefixCovers(cs, required)
    ensures FullOnesLast(cs) ==> (PlanFrom(cs, required, 1).Ok? <==> PositiveSum(cs) >= required)
    ensures PlanFrom(cs, required, 1).Err? ==> PlanFrom(cs, required, 1) == Err(ResourceExhausted)
  {
    SinglePlan(cs, required);
    FillOneFindsPrefix(cs, required);
    if FullOnesLast(cs) {
      OneReplicaIsComplete(cs, required);
    }
  }

  /** A single-replica request of positive size is planned exactly when some prefix of
      the ranked devices covers it. When the full devices come last, as they do without
      a topology, that is exactly when the total space of the ponds covers it. */
  lemma CreateIsComplete(s: State, r: CreateRequest, layer: Layer, replicas: Option<int>)
    requires DistinctDevices(s.ponds) && !r.hasContentSource
    requires r.options.Some? && r.attributes == Some((layer, replicas)) && Replicas(replicas) == 1
    requires r.requiredBytes.Some? && r.requiredBytes.value + layer.Margin() > 0
    ensures var required := r.requiredBytes.value + layer.Margin();
            && (PlanCreate(s, r).Ok? <==> SomePrefixCovers(Candidates(s, r), required))
            && (FullOnesLast(Candidates(s, r)) ==>
                  (PlanCreate(s, r).Ok? <==> TotalSpace(s.allocation, s.ponds, r.topology, r.volumeId) >= required))
    ensures r.topology.None? ==> FullOnesLast(Candidates(s, r))
    ensures PlanCreate(s, r).Err? ==> PlanCreate(s, r) == Err(ResourceExhausted)
  {
    var required := r.requiredBytes.value + layer.Margin();
    SinglePlanIsComplete(Candidates(s, r), required);
    RankInvariant(s.allocation, s.ponds, r.topology, r.volumeId);
    if r.topology.None? {
      UnrankedIsFullOnesLast(s, r);
    }
  }

  lemma FullFirstFails(cs: seq<Claim>)
    requires |cs| == 2 && cs[0].Available() == -4194304 && cs[1].Available() == 10
    ensures FillOne(cs, 10, 0).filled != 10
  {
    FillOneFindsPrefix(cs, 10);
    assert SumAvailable(cs[..0]) == 0;
    assert cs[..1][1..] == [] && cs[..2] == cs && cs[1..][1..] == [];
    assert SumAvailable(cs[1..]) == 10;
  }

  lemma SpaceOfTwo(allocation: map<Key, int>, a: Pond, b: Pond, t: Option<Topology>)
    requires |a.devices| == 1 == |b.devices| && Meets(t, a) && Meets(t, b)
    requires NewClaim(allocation, a.id, a.devices[0], "v").Available() <= 0
    ensures TotalSpace(allocation, [a, b], t, "v")
            == Positive(NewClaim(allocation, b.id, b.devices[0], "v").Available())
  {
    assert [a, b][..1] == [a] && [a][..0] == [];
    assert TotalSpace(allocation, [], t, "v") == 0;
    assert PondSpace(allocation, a, "v", 0) == 0 && PondSpace(allocation, b, "v", 0) == 0;
    assert PondSpace(allocation, a, "v", 1) == 0;
    assert TotalSpace(allocation, [a], t, "v") == 0;
  }

  lemma RankOfOne(before: seq<Ranked>, allocation: map<Key, int>, p: Pond, pref: nat, v: string)
    requires |p.devices| == 1
    ensures RankDevices(before, allocation, p, pref, v, 1) ==
            InsertRanked(before, Ranked(pref, NewClaim(allocation, p.id, p.devices[0], v)))
  {
    assert RankDevices(before, allocation, p, pref, v, 0) == before;
  }

  lemma InsertAfter(x: Ranked, y: Ranked)
    requires x.preferred > y.preferred
    ensures InsertRanked([x], y) == [x, y]
  {
    assert InsertRanked([], y) == [y];
  }

  /** A preferred pond comes before another one, however much space they have. */
  lemma RankOfTwo(allocation: map<Key, int>, a: Pond, b: Pond, t: Option<Topology>, v: string)
    requires |a.devices| == 1 == |b.devices| && Meets(t, a) && Meets(t, b)
    requires Preference(t, a) > Preference(t, b)
    ensures Claims(Rank(allocation, [a, b], t, v)) ==
            [NewClaim(allocation, a.id, a.devices[0], v), NewClaim(allocation, b.id, b.devices[0], v)]
  {
    var x := Ranked(Preference(t, a), NewClaim(allocation, a.id, a.devices[0], v));
    var y := Ranked(Preference(t, b), NewClaim(allocation, b.id, b.devices[0], v));
    assert [a, b][..1] == [a] && [a][..0] == [];
    RankOfOne([], allocation, a, Preference(t, a), v);
    assert Rank(allocation, [a], t, v) == [x];
    RankOfOne([x], allocation, b, Preference(t, b), v);
    InsertAfter(x, y);
  }

  const NEAR := map["zone" := "near"]
  const FAR := map["zone" := "far"]

  /** Any pond will do, and the near one is preferred. */
  const NEAR_FIRST := Some(Topology([map[]], [NEAR]))

  lemma NearIsPreferred(a: Pond, b: Pond)
    requires a.offers == NEAR && b.offers == FAR
    ensures Meets(NEAR_FIRST, a) && Meets(NEAR_FIRST, b)
    ensures Preference(NEAR_FIRST, a) == 1 && Preference(NEAR_FIRST, b) == 0
  {
    var t := NEAR_FIRST.value;
    assert Matches(t.requisite[0], a.offers) && Matches(t.requisite[0], b.offers);
    assert "zone" in NEAR && FAR["zone"] != NEAR["zone"];
    assert Matches(NEAR, NEAR) && !Matches(NEAR, FAR);
    assert t.preferred[0] == NEAR && t.preferred[1..] == [];
    assert CountMatches([], NEAR) == 0 == CountMatches([], FAR);
  }

  /** With a topology a full device may come first: a preferred LVM device without
      space left makes a request fail that the other device alone could serve. */
  lemma FullPreferredDeviceBlocksCreate() returns (s: State, r: CreateRequest)
    ensures DistinctDevices(s.ponds) && r.options.Some? && r.attributes == Some((UnknownLayer, Some(1)))
    ensures r.requiredBytes == Some(10) && !r.hasContentSource
    ensures TotalSpace(s.allocation, s.ponds, r.topology, r.volumeId) == 10
    ensures PlanCreate(s, r) == Err(ResourceExhausted)
  {
    var a := Pond("a", [Device("d", Lvm, 100)], [], NEAR);
    var b := Pond("b", [Device("d", UnknownLayer, 10)], [], FAR);
    s := State(map[Key("a", "d") := 100], [a, b], map[]);
    r := CreateRequest("v", Some(10), Some(false), Some((UnknownLayer, Some(1))), false, NEAR_FIRST, true);
    NearIsPreferred(a, b);
    RankOfTwo(s.allocation, a, b, NEAR_FIRST, "v");
    FullFirstFails(Candidates(s, r));
    SinglePlan(Candidates(s, r), 10);
    SpaceOfTwo(s.allocation, a, b, NEAR_FIRST);
  }

  /** Such a plan uses the fewest devices: any choice of the ponds' devices, given
      by positions in the ranked list, that covers the demand has at least as many. */
  lemma CreateUsesFewestDevices(s: State, r: CreateRequest, layer: Layer, replicas: Option<int>, positions: seq<nat>)
    requires DistinctDevices(s.ponds) && r.topology.None?
    requires r.attributes == Some((layer, replicas)) && Replicas(replicas) == 1
    requires r.requiredBytes.Some? && r.requiredBytes.value + layer.Margin() > 0
    requires PlanCreate(s, r).Ok?
    requires var cs := Claims(Rank(s.allocation, s.ponds, None, r.volumeId));
             && (forall k | 0 <= k < |positions| :: positions[k] < |cs|)
             && (forall i, j | 0 <= i < j < |positions| :: positions[i] < positions[j])
             && SumAvailable(At(cs, positions)) >= r.requiredBytes.value + layer.Margin()
    ensures |PlanCreate(s, r).value| <= |positions|
  {
    var cs := Claims(Rank(s.allocation, s.ponds, None, r.volumeId));
    RankIsDescending(s.allocation, s.ponds, r.volumeId);
    SinglePlan(cs, r.requiredBytes.value + layer.Margin());
    FewestDevices(cs, r.requiredBytes.value + layer.Margin(), positions);
  }

  /** A volume laid out as promised: every replica has the whole demand from its
      own run of bindings, no device is used twice, and the bindings are numbered. */
  ghost predicate LaidOut(bindings: seq<Claim>, required: int, sizes: seq<nat>) {
    && EachReplicaFilled(bindings, required, sizes)
    && DistinctKeys(bindings)
    && InOrder(bindings)
    && forall k | 0 <= k < |bindings| :: bindings[k].meta.total == |bindings|
  }

  lemma {:induction false} SameSums(a: seq<Claim>, b: seq<Claim>)
    requires |a| == |b| && forall k | 0 <= k < |a| :: a[k].Usable() == b[k].Usable()
    ensures SumUsable(a) == SumUsable(b)
  {
    if a != [] {
      SameSums(a[1..], b[1..]);
    }
  }

  lemma {:induction false} NumberedKeepsFilling(a: seq<Claim>, b: seq<Claim>, required: int, sizes: seq<nat>)
    requires |a| == |b| && forall k | 0 <= k < |a| :: a[k].Usable() == b[k].Usable()
    requires EachReplicaFilled(a, required, sizes)
    ensures EachReplicaFilled(b, required, sizes)
    decreases |sizes|
  {
    if sizes != [] {
      SameSums(a[..sizes[0]], b[..sizes[0]]);
      NumberedKeepsFilling(a[sizes[0]..], b[sizes[0]..], required, sizes[1..]);
    }
  }

  lemma PlanIsLaidOut(cs: seq<Claim>, required: int, n: nat) returns (sizes: seq<nat>)
    requires DistinctKeys(cs) && required >= 0 && PlanFrom(cs, required, n).Ok?
    ensures |sizes| == n && LaidOut(PlanFrom(cs, required, n).value, required, sizes)
  {
    FillAllTakesNext(cs, required, n);
    TimesIsProduct(required, n);
    sizes := TotalMeansEachReplica(cs, required, n);
    var bindings := FillAll(cs, required, n).bindings;
    NumberedKeepsFilling(bindings, Numbered(bindings), required, sizes);
    forall i, j | 0 <= i < j < |bindings|
      ensures Numbered(bindings)[i].DeviceKey() != Numbered(bindings)[j].DeviceKey()
    {
      assert TakenFrom(bindings[i], cs[i]) && TakenFrom(bindings[j], cs[j]);
    }
  }

  lemma PlannedFromRanked(s: State, r: CreateRequest, layer: Layer, replicas: Option<int>)
    requires r.attributes == Some((layer, replicas)) && PlanCreate(s, r).Ok?
    ensures PlanCreate(s, r) ==
            PlanFrom(Claims(Rank(s.allocation, s.ponds, r.topology, r.volumeId)),
                     r.requiredBytes.value + layer.Margin(), Replicas(replicas))
  {
  }

  /** A planned multi-replica volume is laid out as promised. */
  lemma CreateFillsEachReplica(s: State, r: CreateRequest, layer: Layer, replicas: Option<int>) returns (sizes: seq<nat>)
    requires DistinctDevices(s.ponds)
    requires r.attributes == Some((layer, replicas))
    requires r.requiredBytes.Some? && r.requiredBytes.value + layer.Margin() >= 0
    requires PlanCreate(s, r).Ok?
    ensures |sizes| == if replicas.Some? && replicas.value >= 1 then replicas.value else 1
    ensures LaidOut(PlanCreate(s, r).value, r.requiredBytes.value + layer.Margin(), sizes)
  {
    RankInvariant(s.allocation, s.ponds, r.topology, r.volumeId);
    PlannedFromRanked(s, r, layer, replicas);
    sizes := PlanIsLaidOut(Claims(Rank(s.allocation, s.ponds, r.topology, r.volumeId)),
                           r.requiredBytes.value + layer.Margin(), Replicas(replicas));
  }

  /** A planned binding lies on a listed device of an admissible pond. */
  lemma PlannedOnAdmissiblePond(s: State, r: CreateRequest, layer: Layer, replicas: Option<int>, i: nat) returns (p: nat)
    requires r.attributes == Some((layer, replicas))
    requires PlanCreate(s, r).Ok? && i < |PlanCreate(s, r).value|
    requires r.requiredBytes.Some? && r.requiredBytes.value + layer.Margin() >= 0
    ensures p < |s.ponds| && Admissible(r.topology, s.ponds[p])
    ensures PlanCreate(s, r).value[i].pondId == s.ponds[p].id
    ensures PlanCreate(s, r).value[i].device in s.ponds[p].devices
  {
    var ranked := Rank(s.allocation, s.ponds, r.topology, r.volumeId);
    var required := r.requiredBytes.value + layer.Margin();
    PlannedFromRanked(s, r, layer, replicas);
    FillAllTakesNext(Claims(ranked), required, Replicas(replicas));
    var b := FillAll(Claims(ranked), required, Replicas(replicas)).bindings[i];
    assert TakenFrom(b, Claims(ranked)[i]);
    assert ranked[i] in ranked;
    p := RankIsAdmissible(s.allocation, s.ponds, r.topology, r.volumeId, ranked[i]);
  }

  lemma {:induction false} NothingAdmissible(
    allocation: map<Key, int>, ponds: seq<Pond>, t: Option<Topology>, volumeId: string)
    requires forall p | 0 <= p < |ponds| :: !Admissible(t, ponds[p])
    ensures Rank(allocation, ponds, t, volumeId) == []
  {
    if ponds != [] {
      var n := |ponds| - 1;
      assert forall p | 0 <= p < n :: ponds[..n][p] == ponds[p];
      NothingAdmissible(allocation, ponds[..n], t, volumeId);
      MeetsMeans(t, ponds[n]);
    }
  }

  lemma {:induction false} FillNone(required: int, n: nat)
    ensures FillAll([], required, n) == Filling([], 0)
  {
    if n > 0 {
      FillNone(required, n - 1);
    }
  }

  lemma ProductIsPositive(a: int, n: nat)
    requires a > 0 && n > 0
    ensures a * n > 0
  {
  }

  lemma NothingToFill(required: int, n: nat)
    requires required > 0 && n > 0
    ensures PlanFrom([], required, n) == Err(ResourceExhausted)
  {
    FillNone(required, n);
    ProductIsPositive(required, n);
  }

  /** Without an admissible pond every request of positive size is refused; an empty
      requisite list admits none. */
  lemma NoAdmissiblePondIsRefused(s: State, r: CreateRequest, layer: Layer, replicas: Option<int>)
    requires r.options.Some? && r.attributes == Some((layer, replicas)) && !r.hasContentSource
    requires r.requiredBytes.Some? && r.requiredBytes.value + layer.Margin() > 0
    requires (forall p | 0 <= p < |s.ponds| :: !Admissible(r.topology, s.ponds[p]))
             || (r.topology.Some? && r.topology.value.requisite == [])
    ensures PlanCreate(s, r) == Err(ResourceExhausted)
  {
    var required := r.requiredBytes.value + layer.Margin();
    NothingAdmissible(s.allocation, s.ponds, r.topology, r.volumeId);
    NothingToFill(required, Replicas(replicas));
    assert Candidates(s, r) == [];
  }

  /** A request of positive size is planned exactly when the candidates fall into one
      shortest covering run for each replica; it has as many replicas as asked for, or one. */
  lemma CreateFindsRunsIff(s: State, r: CreateRequest, layer: Layer, replicas: Option<int>)
    requires r.options.Some? && r.attributes == Some((layer, replicas)) && !r.hasContentSource
    requires r.requiredBytes.Some? && r.requiredBytes.value + layer.Margin() > 0
    ensures var n := if replicas.Some? && replicas.value >= 1 then replicas.value else 1;
            PlanCreate(s, r).Ok? <==> RunsCover(Candidates(s, r), r.requiredBytes.value + layer.Margin(), n)
  {
    var required := r.requiredBytes.value + layer.Margin();
    var n := Replicas(replicas);
    FillAllFindsRuns(Candidates(s, r), required, n);
    FillAllIsBounded(Candidates(s, r), required, n);
    TimesIsProduct(required, n);
  }

  /** Which requests are refused before any device is looked at. */
  lemma CreateRefusals(s: State, r: CreateRequest)
    ensures PlanCreate(s, r) == Err(InvalidArgument) <==>
            r.requiredBytes.None? || r.options.None? || r.attributes.None?
    ensures PlanCreate(s, r) == Err(Unimplemented) <==>
            r.requiredBytes.Some? && r.options.Some? && r.attributes.Some? && r.hasContentSource
    ensures PlanCreate(s, r).Err? ==>
              PlanCreate(s, r).error in {InvalidArgument, Unimplemented, ResourceExhausted}
  {
  }

  /** A create succeeds exactly if there is a plan and the ponds accept it; it then stores
      the planned volume, unpublished, and no other one. */
  lemma CreateStoresPlan(s: State, r: CreateRequest)
    ensures Create(s, r).1.Ok? <==> PlanCreate(s, r).Ok? && r.accepted
    ensures Create(s, r).1.Ok? ==>
              && Create(s, r).1 == PlanCreate(s, r)
              && Create(s, r).0.ponds == s.ponds
              && Create(s, r).0.volumes ==
                 s.volumes[r.volumeId := Volume(PlanCreate(s, r).value, r.options.value, {}, false)]
  {
  }

  /** A delete succeeds exactly if the volume is known or can be rediscovered, no node
      holds it and the ponds accept it; it then forgets the volume and no other one. */
  lemma DeleteSucceedsIff(s: State, v: string, accepted: bool)
    ensures Delete(s, v, accepted).1.Ok? <==>
            && accepted
            && (if v in s.volumes then s.volumes[v].published == {} else Rediscover(s.ponds, v).Ok?)
    ensures Delete(s, v, accepted).1.Ok? ==> Delete(s, v, accepted).0.volumes == s.volumes - {v}
  {
  }

  // ----- accounting

  /** What a list of bindings reserves on one device. */
  function ReservedOn(bindings: seq<Claim>, k: Key): int {
    if bindings == [] then 0
    else
      var n := |bindings| - 1;
      ReservedOn(bindings[..n], k) + if bindings[n].DeviceKey() == k then bindings[n].meta.reserved else 0
  }

  /** What the volumes of a set reserve on one device. */
  ghost function LiveOn(volumes: map<string, Volume>, live: set<string>, k: Key): int
    requires live <= volumes.Keys
    decreases live
  {
    if live == {} then 0
    else
      var v :| v in live;
      ReservedOn(volumes[v].bindings, k) + LiveOn(volumes, live - {v}, k)
  }

  lemma {:induction false} LiveOnSplit(volumes: map<string, Volume>, live: set<string>, v: string, k: Key)
    requires live <= volumes.Keys && v in live
    ensures LiveOn(volumes, live, k) == ReservedOn(volumes[v].bindings, k) + LiveOn(volumes, live - {v}, k)
    decreases live
  {
    var u :| u in live && LiveOn(volumes, live, k) == ReservedOn(volumes[u].bindings, k) + LiveOn(volumes, live - {u}, k);
    if u != v {
      LiveOnSplit(volumes, live - {u}, v, k);
      LiveOnSplit(volumes, live - {v}, u, k);
      assert live - {u} - {v} == live - {v} - {u};
    }
  }

  lemma {:induction false} LiveOnAgrees(a: map<string, Volume>, b: map<string, Volume>, live: set<string>, k: Key)
    requires live <= a.Keys && live <= b.Keys
    requires forall v | v in live :: a[v].bindings == b[v].bindings
    ensures LiveOn(a, live, k) == LiveOn(b, live, k)
    decreases live
  {
    if live != {} {
      var v :| v in live;
      LiveOnSplit(a, live, v, k);
      LiveOnSplit(b, live, v, k);
      LiveOnAgrees(a, b, live - {v}, k);
    }
  }

  predicate KeysKnown(allocation: map<Key, int>, bindings: seq<Claim>) {
    forall i | 0 <= i < |bindings| :: bindings[i].DeviceKey() in allocation
  }

  lemma {:induction false} CommitAdds(allocation: map<Key, int>, bindings: seq<Claim>, k: Key)
    ensures Get(Commit(allocation, bindings), k) == Get(allocation, k) + ReservedOn(bindings, k)
    ensures allocation.Keys <= Commit(allocation, bindings).Keys
    ensures KeysKnown(Commit(allocation, bindings), bindings)
  {
    if bindings != [] {
      var n := |bindings| - 1;
      CommitAdds(allocation, bindings[..n], k);
      assert forall i | 0 <= i < n :: bindings[..n][i] == bindings[i];
    }
  }

  lemma {:induction false} ReleaseSubtracts(allocation: map<Key, int>, bindings: seq<Claim>, k: Key)
    ensures Get(Release(allocation, bindings), k) ==
            Get(allocation, k) - if k in allocation then ReservedOn(bindings, k) else 0
    ensures KeysKnown(allocation, bindings) && k !in allocation ==> ReservedOn(bindings, k) == 0
    ensures Release(allocation, bindings).Keys == allocation.Keys
  {
    if bindings != [] {
      var n := |bindings| - 1;
      ReleaseSubtracts(allocation, bindings[..n], k);
    }
  }

  /** The account of every device is what the live volumes reserve on it. */
  ghost predicate Accounted(s: State, live: set<string>) {
    && live <= s.volumes.Keys
    && (forall k :: Get(s.allocation, k) == LiveOn(s.volumes, live, k))
    && (forall v | v in live :: KeysKnown(s.allocation, s.volumes[v].bindings))
  }

  ghost predicate PondsFit(ponds: seq<Pond>, caps: map<Key, int>) {
    && DistinctDevices(ponds)
    && (forall p, d | 0 <= p < |ponds| && 0 <= d < |ponds[p].devices| ::
          && Key(ponds[p].id, ponds[p].devices[d].id) in caps
          && ponds[p].devices[d].capacity == caps[Key(ponds[p].id, ponds[p].devices[d].id)] >= 0)
  }

  /** Every listed device has its fixed capacity and every account fits into it. */
  ghost predicate Fits(s: State, caps: map<Key, int>) {
    && PondsFit(s.ponds, caps)
    && (forall k | k in s.allocation :: k in caps && 0 <= s.allocation[k] <= caps[k])
  }

  /** A created volume adds exactly what it reserves; one it overwrites stops being
      counted as live while its space stays booked. */
  lemma CreateShiftsAccount(s: State, r: CreateRequest, live: set<string>, k: Key)
    requires live <= s.volumes.Keys && Create(s, r).1.Ok?
    ensures var s' := Create(s, r).0;
            var lost := if r.volumeId in live then ReservedOn(s.volumes[r.volumeId].bindings, k) else 0;
            Get(s'.allocation, k) - LiveOn(s'.volumes, live + {r.volumeId}, k)
            == Get(s.allocation, k) - LiveOn(s.volumes, live, k) + lost
  {
    var s' := Create(s, r).0;
    var bindings := Create(s, r).1.value;
    var others := live - {r.volumeId};
    CommitAdds(s.allocation, bindings, k);
    LiveOnSplit(s'.volumes, live + {r.volumeId}, r.volumeId, k);
    assert live + {r.volumeId} - {r.volumeId} == others;
    LiveOnAgrees(s'.volumes, s.volumes, others, k);
    if r.volumeId in live {
      LiveOnSplit(s.volumes, live, r.volumeId, k);
    } else {
      assert others == live;
    }
  }

  lemma CreateKnowsKeys(s: State, r: CreateRequest, live: set<string>)
    requires Accounted(s, live) && Create(s, r).1.Ok?
    ensures var s' := Create(s, r).0;
            forall v | v in live + {r.volumeId} :: KeysKnown(s'.allocation, s'.volumes[v].bindings)
  {
    var s' := Create(s, r).0;
    CommitAdds(s.allocation, Create(s, r).1.value, Key("", ""));
    forall v | v in live + {r.volumeId}
      ensures KeysKnown(s'.allocation, s'.volumes[v].bindings)
    {
      if v != r.volumeId {
        assert KeysKnown(s.allocation, s.volumes[v].bindings);
      }
    }
  }

  /** The accounts stay right after a create if and only if the name is fresh or
      the volume it overwrites had nothing reserved. */
  lemma CreateAccountsIff(s: State, r: CreateRequest, live: set<string>)
    requires Accounted(s, live) && Create(s, r).1.Ok?
    ensures Accounted(Create(s, r).0, live + {r.volumeId}) <==>
            r.volumeId !in live || forall k :: ReservedOn(s.volumes[r.volumeId].bindings, k) == 0
  {
    var s' := Create(s, r).0;
    CreateKnowsKeys(s, r, live);
    if r.volumeId !in live || forall k :: ReservedOn(s.volumes[r.volumeId].bindings, k) == 0 {
      forall k
        ensures Get(s'.allocation, k) == LiveOn(s'.volumes, live + {r.volumeId}, k)
      {
        CreateShiftsAccount(s, r, live, k);
      }
      assert Accounted(s', live + {r.volumeId});
    } else {
      var k :| ReservedOn(s.volumes[r.volumeId].bindings, k) != 0;
      CreateShiftsAccount(s, r, live, k);
      assert Get(s'.allocation, k) != LiveOn(s'.volumes, live + {r.volumeId}, k);
    }
  }

  lemma {:induction false} ReservedOnOnce(bindings: seq<Claim>, k: Key)
    requires DistinctKeys(bindings)
    ensures (forall i | 0 <= i < |bindings| :: bindings[i].DeviceKey() != k) ==> ReservedOn(bindings, k) == 0
    ensures forall i | 0 <= i < |bindings| && bindings[i].DeviceKey() == k ::
              ReservedOn(bindings, k) == bindings[i].meta.reserved
  {
    if bindings != [] {
      var n := |bindings| - 1;
      ReservedOnOnce(bindings[..n], k);
    }
  }

  /** One binding of a plan reserves no more than its device has left. */
  lemma PlannedBindingFits(s: State, r: CreateRequest, caps: map<Key, int>, i: nat)
    requires Fits(s, caps) && PlanCreate(s, r).Ok? && i < |PlanCreate(s, r).value|
    requires r.requiredBytes.value >= 0
    ensures var b := PlanCreate(s, r).value[i];
            && b.DeviceKey() in caps
            && 0 <= b.meta.reserved <= caps[b.DeviceKey()] - Get(s.allocation, b.DeviceKey())
  {
    var (layer, replicas) := r.attributes.value;
    var required := r.requiredBytes.value + layer.Margin();
    var ranked := Rank(s.allocation, s.ponds, r.topology, r.volumeId);
    FillAllTakesNext(Claims(ranked), required, Replicas(replicas));
    var bindings := FillAll(Claims(ranked), required, Replicas(replicas)).bindings;
    assert TakenFrom(bindings[i], Claims(ranked)[i]);
    assert ranked[i] in ranked;
    RankOrigin(s.allocation, s.ponds, r.topology, r.volumeId, ranked[i]);
  }

  lemma {:induction false} CommitTouchesOnlyBound(allocation: map<Key, int>, bindings: seq<Claim>, k: Key)
    requires forall i | 0 <= i < |bindings| :: bindings[i].DeviceKey() != k
    ensures k in Commit(allocation, bindings) <==> k in allocation
    ensures k in allocation ==> Commit(allocation, bindings)[k] == allocation[k]
  {
    if bindings != [] {
      CommitTouchesOnlyBound(allocation, bindings[..|bindings| - 1], k);
    }
  }

  lemma CreateFits(s: State, r: CreateRequest, caps: map<Key, int>)
    requires Fits(s, caps) && (r.requiredBytes.Some? ==> r.requiredBytes.value >= 0)
    ensures Fits(Create(s, r).0, caps)
  {
    if Create(s, r).1.Ok? {
      var (layer, replicas) := r.attributes.value;
      var sizes := CreateFillsEachReplica(s, r, layer, replicas);
      var bindings := PlanCreate(s, r).value;
      var after := Commit(s.allocation, bindings);
      forall k | k in after
        ensures k in caps && 0 <= after[k] <= caps[k]
      {
        CommitAdds(s.allocation, bindings, k);
        ReservedOnOnce(bindings, k);
        if i: nat :| i < |bindings| && bindings[i].DeviceKey() == k {
          PlannedBindingFits(s, r, caps, i);
        } else {
          CommitTouchesOnlyBound(s.allocation, bindings, k);
        }
      }
    }
  }

  // ----- runs

  datatype Op =
    | DoCreate(request: CreateRequest)
    | DoDelete(deleted: string, accepted: bool)
    | DoPublish(volume: string, node: string, readonly: bool, mountShared: bool)
    | DoUnpublish(from: string, gone: string)
    | DoRefresh(ponds: seq<Pond>)

  function Apply(s: State, op: Op): State {
    match op
    case DoCreate(r) => Create(s, r).0
    case DoDelete(v, accepted) => Delete(s, v, accepted).0
    case DoPublish(v, node, readonly, shared) => Publish(s, v, node, readonly, shared).0
    case DoUnpublish(v, node) => Unpublish(s, v, node)
    case DoRefresh(ponds) => s.(ponds := ponds)
  }

  /** The volumes created and not yet deleted. */
  function LiveAfter(s: State, live: set<string>, op: Op): set<string> {
    match op
    case DoCreate(r) => if Create(s, r).1.Ok? then live + {r.volumeId} else live
    case DoDelete(v, accepted) => if Delete(s, v, accepted).1.Ok? then live - {v} else live
    case _ => live
  }

  /** Names are fresh, requests are not negative, deletes are of live volumes, and
      devices keep their capacity. */
  ghost predicate Disciplined(live: set<string>, op: Op, caps: map<Key, int>) {
    match op
    case DoCreate(r) => r.volumeId !in live && (r.requiredBytes.Some? ==> r.requiredBytes.value >= 0)
    case DoDelete(v, _) => v in live
    case DoRefresh(ponds) => PondsFit(ponds, caps)
    case _ => true
  }

  /** The bindings a delete gives back: those of the cached or rediscovered volume. */
  function GivenBack(s: State, v: string): seq<Claim> {
    match Provision(s, v, false)
    case Ok(p) => if v in p.volumes then p.volumes[v].bindings else []
    case Err(_) => []
  }

  lemma DeleteKeepsOthers(s: State, live: set<string>, v: string, accepted: bool, k: Key)
    requires live <= s.volumes.Keys && Delete(s, v, accepted).1.Ok?
    ensures var s' := Delete(s, v, accepted).0;
            && live - {v} <= s'.volumes.Keys
            && s'.allocation.Keys == s.allocation.Keys
            && LiveOn(s'.volumes, live - {v}, k) == LiveOn(s.volumes, live - {v}, k)
            && Get(s'.allocation, k) ==
               Get(s.allocation, k) - if k in s.allocation then ReservedOn(GivenBack(s, v), k) else 0
  {
    LiveOnAgrees(s.volumes, Delete(s, v, accepted).0.volumes, live - {v}, k);
    ReleaseSubtracts(s.allocation, GivenBack(s, v), k);
  }

  /** The accounts stay right after a delete if and only if the volume was live or
      reserves nothing on the devices that have an account. A rediscovered volume is
      not live: what its delete gives back was never booked. */
  lemma DeleteAccountsIff(s: State, live: set<string>, v: string, accepted: bool)
    requires Accounted(s, live) && Delete(s, v, accepted).1.Ok?
    ensures Accounted(Delete(s, v, accepted).0, live - {v}) <==>
            v in live || forall k | k in s.allocation :: ReservedOn(GivenBack(s, v), k) == 0
  {
    var s' := Delete(s, v, accepted).0;
    DeleteKeepsOthers(s, live, v, accepted, Key("", ""));
    forall k
      ensures v in live ==> Get(s'.allocation, k) == LiveOn(s'.volumes, live - {v}, k)
      ensures v !in live && k in s.allocation ==>
                Get(s'.allocation, k) == LiveOn(s'.volumes, live - {v}, k) - ReservedOn(GivenBack(s, v), k)
      ensures v !in live && k !in s.allocation ==> Get(s'.allocation, k) == LiveOn(s'.volumes, live - {v}, k)
    {
      DeleteKeepsOthers(s, live, v, accepted, k);
      if v in live {
        LiveOnSplit(s.volumes, live, v, k);
        ReleaseSubtracts(s.allocation, GivenBack(s, v), k);
      } else {
        assert live - {v} == live;
      }
    }
    if v !in live {
      if k :| k in s.allocation && ReservedOn(GivenBack(s, v), k) != 0 {
        assert Get(s'.allocation, k) != LiveOn(s'.volumes, live - {v}, k);
      }
    }
  }

  ghost predicate LiveIsNonNegative(s: State, live: set<string>) {
    live <= s.volumes.Keys &&
    forall v, i | v in live && 0 <= i < |s.volumes[v].bindings| :: s.volumes[v].bindings[i].meta.reserved >= 0
  }

  lemma {:induction false} ReservedIsNonNegative(bindings: seq<Claim>, k: Key)
    requires forall i | 0 <= i < |bindings| :: bindings[i].meta.reserved >= 0
    ensures ReservedOn(bindings, k) >= 0
  {
    if bindings != [] {
      ReservedIsNonNegative(bindings[..|bindings| - 1], k);
    }
  }

  lemma {:induction false} LiveOnIsNonNegative(s: State, live: set<string>, k: Key)
    requires LiveIsNonNegative(s, live)
    ensures LiveOn(s.volumes, live, k) >= 0
    decreases live
  {
    if live != {} {
      var v :| v in live;
      LiveOnSplit(s.volumes, live, v, k);
      ReservedIsNonNegative(s.volumes[v].bindings, k);
      LiveOnIsNonNegative(s, live - {v}, k);
    }
  }

  lemma DeleteAccounts(s: State, live: set<string>, v: string, accepted: bool, caps: map<Key, int>)
    requires Accounted(s, live) && Fits(s, caps) && v in live && LiveIsNonNegative(s, live)
    ensures var op := DoDelete(v, accepted);
            Accounted(Apply(s, op), LiveAfter(s, live, op)) && Fits(Apply(s, op), caps)
  {
    if Delete(s, v, accepted).1.Ok? {
      var s' := Delete(s, v, accepted).0;
      var bindings := s.volumes[v].bindings;
      forall k
        ensures Get(s'.allocation, k) == LiveOn(s'.volumes, live - {v}, k)
        ensures 0 <= LiveOn(s.volumes, live - {v}, k) && 0 <= ReservedOn(bindings, k)
      {
        ReleaseSubtracts(s.allocation, bindings, k);
        LiveOnSplit(s.volumes, live, v, k);
        LiveOnAgrees(s.volumes, s'.volumes, live - {v}, k);
        LiveOnIsNonNegative(s, live - {v}, k);
        ReservedIsNonNegative(bindings, k);
      }
      ReleaseSubtracts(s.allocation, bindings, Key("", ""));
      forall k | k in s'.allocation
        ensures k in caps && 0 <= s'.allocation[k] <= caps[k]
      {
        ReleaseSubtracts(s.allocation, bindings, k);
        assert Get(s'.allocation, k) == LiveOn(s'.volumes, live - {v}, k);
        LiveOnAgrees(s.volumes, s'.volumes, live - {v}, k);
        assert 0 <= LiveOn(s.volumes, live - {v}, k);
      }
    }
  }

  /** The bindings of live volumes are untouched. */
  lemma SameLiveVolumes(s: State, s': State, live: set<string>)
    requires Accounted(s, live) && s'.allocation == s.allocation
    requires live <= s'.volumes.Keys && forall v | v in live :: s'.volumes[v].bindings == s.volumes[v].bindings
    ensures Accounted(s', live)
    ensures LiveIsNonNegative(s, live) ==> LiveIsNonNegative(s', live)
  {
    forall k
      ensures Get(s'.allocation, k) == LiveOn(s'.volumes, live, k)
    {
      LiveOnAgrees(s.volumes, s'.volumes, live, k);
    }
  }

  ghost predicate Sound(s: State, live: set<string>, caps: map<Key, int>) {
    Accounted(s, live) && Fits(s, caps) && LiveIsNonNegative(s, live)
  }

  lemma CreateKeepsSound(s: State, live: set<string>, r: CreateRequest, caps: map<Key, int>)
    requires Sound(s, live, caps) && Disciplined(live, DoCreate(r), caps)
    ensures Sound(Create(s, r).0, LiveAfter(s, live, DoCreate(r)), caps)
  {
    CreateFits(s, r, caps);
    if Create(s, r).1.Ok? {
      CreateAccountsIff(s, r, live);
      var s' := Create(s, r).0;
      forall v, i | v in live + {r.volumeId} && 0 <= i < |s'.volumes[v].bindings|
        ensures s'.volumes[v].bindings[i].meta.reserved >= 0
      {
        if v == r.volumeId {
          PlannedBindingFits(s, r, caps, i);
        }
      }
    }
  }

  lemma DeleteKeepsSound(s: State, live: set<string>, v: string, accepted: bool, caps: map<Key, int>)
    requires Sound(s, live, caps) && v in live
    ensures Sound(Delete(s, v, accepted).0, LiveAfter(s, live, DoDelete(v, accepted)), caps)
  {
    DeleteAccounts(s, live, v, accepted, caps);
  }

  lemma OtherOpsSpareAccounts(s: State, live: set<string>, op: Op)
    requires live <= s.volumes.Keys && !op.DoCreate? && !op.DoDelete?
    ensures var s' := Apply(s, op);
            && s'.allocation == s.allocation && live <= s'.volumes.Keys
            && (forall v | v in live :: s'.volumes[v].bindings == s.volumes[v].bindings)
            && (!op.DoRefresh? ==> s'.ponds == s.ponds)
  {
  }

  lemma OtherOpKeepsSound(s: State, live: set<string>, op: Op, caps: map<Key, int>)
    requires Sound(s, live, caps) && Disciplined(live, op, caps) && !op.DoCreate? && !op.DoDelete?
    ensures Sound(Apply(s, op), live, caps)
  {
    OtherOpsSpareAccounts(s, live, op);
    SameLiveVolumes(s, Apply(s, op), live);
  }

  /** Every disciplined operation keeps the accounts right and within capacity. */
  lemma OpKeepsSound(s: State, live: set<string>, op: Op, caps: map<Key, int>)
    requires Sound(s, live, caps) && Disciplined(live, op, caps)
    ensures Sound(Apply(s, op), LiveAfter(s, live, op), caps)
  {
    match op
    case DoCreate(r) => CreateKeepsSound(s, live, r, caps);
    case DoDelete(v, accepted) => DeleteKeepsSound(s, live, v, accepted, caps);
    case _ => OtherOpKeepsSound(s, live, op, caps);
  }

  /** What a call books on a device, less what it gives back. */
  ghost function Booked(s: State, op: Op, k: Key): int {
    match op
    case DoCreate(r) => if Create(s, r).1.Ok? then ReservedOn(Create(s, r).1.value, k) else 0
    case DoDelete(v, accepted) =>
      if Delete(s, v, accepted).1.Ok? && k in s.allocation then -ReservedOn(GivenBack(s, v), k) else 0
    case _ => 0
  }

  /** Every call moves every account by exactly what it books or gives back; failed calls
      and all other calls move none. */
  lemma AccountMovesByBooked(s: State, op: Op, k: Key)
    ensures Get(Apply(s, op).allocation, k) == Get(s.allocation, k) + Booked(s, op, k)
  {
    match op
    case DoCreate(r) =>
      if Create(s, r).1.Ok? {
        CommitAdds(s.allocation, Create(s, r).1.value, k);
      }
    case DoDelete(v, accepted) =>
      if Delete(s, v, accepted).1.Ok? {
        ReleaseSubtracts(s.allocation, GivenBack(s, v), k);
      }
    case _ =>
  }

  function StateAfter(s: State, ops: seq<Op>): State {
    if ops == [] then s else Apply(StateAfter(s, ops[..|ops| - 1]), ops[|ops| - 1])
  }

  function LiveAfterAll(s: State, live: set<string>, ops: seq<Op>): set<string> {
    if ops == [] then live
    else
      var n := |ops| - 1;
      LiveAfter(StateAfter(s, ops[..n]), LiveAfterAll(s, live, ops[..n]), ops[n])
  }

  ghost predicate DisciplinedRun(s: State, live: set<string>, ops: seq<Op>, caps: map<Key, int>) {
    if ops == [] then true
    else
      var n := |ops| - 1;
      DisciplinedRun(s, live, ops[..n], caps) && Disciplined(LiveAfterAll(s, live, ops[..n]), ops[n], caps)
  }

  /** Over every disciplined run each device's account is the sum of what the live
      volumes reserve on it and stays between zero and the capacity. */
  lemma {:induction false} AccountsAreConserved(s: State, live: set<string>, ops: seq<Op>, caps: map<Key, int>)
    requires Sound(s, live, caps) && DisciplinedRun(s, live, ops, caps)
    ensures Sound(StateAfter(s, ops), LiveAfterAll(s, live, ops), caps)
  {
    if ops != [] {
      var n := |ops| - 1;
      AccountsAreConserved(s, live, ops[..n], caps);
      OpKeepsSound(StateAfter(s, ops[..n]), LiveAfterAll(s, live, ops[..n]), ops[n], caps);
    }
  }

  /** The empty controller is sound. */
  lemma EmptyIsSound(ponds: seq<Pond>, caps: map<Key, int>)
    requires PondsFit(ponds, caps)
    ensures Sound(State(map[], ponds, map[]), {}, caps)
  {
  }

  // ----- runs that lose track of space

  const SAMPLE_KEY := Key("a", "d")
  const SAMPLE_DEVICE := Device("d", UnknownLayer, 100)

  /** One pond with one device of a hundred bytes. */
  function SamplePond(bindings: seq<Metadata>): Pond {
    Pond("a", [SAMPLE_DEVICE], bindings, map[])
  }

  function SampleRequest(volumeId: string): CreateRequest {
    CreateRequest(volumeId, Some(10), Some(false), Some((UnknownLayer, None)), false, None, true)
  }

  /** What a create of ten bytes plans when `taken` bytes of the device are booked. */
  function SampleClaim(volumeId: string, taken: int): Claim {
    Claim("a", SAMPLE_DEVICE, Metadata(volumeId, "d", 0, 1, taken, 10))
  }

  lemma SamplePlan(s: State, bindings: seq<Metadata>, v: string)
    requires s.ponds == [SamplePond(bindings)] && Get(s.allocation, SAMPLE_KEY) <= 90
    ensures PlanCreate(s, SampleRequest(v)) == Ok([SampleClaim(v, Get(s.allocation, SAMPLE_KEY))])
  {
    var taken := Get(s.allocation, SAMPLE_KEY);
    var x := Ranked(0, NewClaim(s.allocation, "a", SAMPLE_DEVICE, v));
    assert s.ponds[..0] == [];
    assert RankDevices([], s.allocation, s.ponds[0], 0, v, 0) == [];
    assert RankDevices([], s.allocation, s.ponds[0], 0, v, 1) == [x];
    assert Rank(s.allocation, s.ponds, None, v) == [x];
    var cs := Claims([x]);
    assert cs == [x.claim];
    SinglePlan(cs, 10);
    assert FillOne(cs, 10, 0) == Filling([Reserve(x.claim, 10)], 10);
    assert Numbered([Reserve(x.claim, 10)]) == [SampleClaim(v, taken)];
  }

  lemma SampleCreate(s: State, bindings: seq<Metadata>, v: string)
    requires s.ponds == [SamplePond(bindings)] && Get(s.allocation, SAMPLE_KEY) <= 90
    ensures var taken := Get(s.allocation, SAMPLE_KEY);
            var claims := [SampleClaim(v, taken)];
            && Create(s, SampleRequest(v)).1 == Ok(claims)
            && Create(s, SampleRequest(v)).0 ==
               State(s.allocation[SAMPLE_KEY := taken + 10], s.ponds, s.volumes[v := Volume(claims, false, {}, false)])
  {
    var taken := Get(s.allocation, SAMPLE_KEY);
    SamplePlan(s, bindings, v);
    assert Commit(s.allocation, []) == s.allocation;
    assert [SampleClaim(v, taken)][..0] == [];
    assert Commit(s.allocation, [SampleClaim(v, taken)]) == s.allocation[SAMPLE_KEY := taken + 10];
  }

  lemma ReservedOnOne(c: Claim)
    ensures ReservedOn([c], c.DeviceKey()) == c.meta.reserved
  {
    assert [c][..0] == [];
  }

  lemma TwoOps(s: State, live: set<string>, a: Op, b: Op)
    ensures StateAfter(s, [a, b]) == Apply(Apply(s, a), b)
    ensures LiveAfterAll(s, live, [a, b]) == LiveAfter(Apply(s, a), LiveAfter(s, live, a), b)
  {
    assert [a, b][..1] == [a] && [a][..0] == [];
    assert StateAfter(s, [a]) == Apply(StateAfter(s, []), a);
    assert LiveAfterAll(s, live, [a]) == LiveAfter(s, live, a);
  }

  /** A name created twice: the accounts then say twenty bytes, while the one live volume
      reserves ten. */
  lemma RepeatedNameLosesSpace() returns (s: State, ops: seq<Op>)
    ensures Accounted(s, {}) && ops == [DoCreate(SampleRequest("v")), DoCreate(SampleRequest("v"))]
    ensures LiveAfterAll(s, {}, ops) == {"v"} && !Accounted(StateAfter(s, ops), {"v"})
    ensures Get(StateAfter(s, ops).allocation, SAMPLE_KEY) == 20
  {
    var r := SampleRequest("v");
    s := State(map[], [SamplePond([])], map[]);
    ops := [DoCreate(r), DoCreate(r)];
    TwoOps(s, {}, DoCreate(r), DoCreate(r));
    SampleCreate(s, [], "v");
    var s1 := Create(s, r).0;
    CreateAccountsIff(s, r, {});
    assert Accounted(s1, {} + {"v"}) && {} + {"v"} == {"v"} == {"v"} + {"v"};
    SampleCreate(s1, [], "v");
    ReservedOnOne(SampleClaim("v", 0));
    CreateAccountsIff(s1, r, {"v"});
  }

  lemma OneRecord(p: Pond, c: Claim)
    requires p.id == c.pondId && p.devices == [c.device] && p.bindings == [c.meta]
    requires c.meta.deviceId == c.device.id
    ensures Discover(p, c.meta.volumeId, 1) == Ok([c])
  {
    assert FindDevice(p.devices, c.device.id) == Some(c.device);
    assert Discover(p, c.meta.volumeId, 0) == Ok([]);
    assert [] + [Claim(p.id, c.device, c.meta)] == [c];
  }

  lemma OnePond(p: Pond, volumeId: string, c: Claim)
    requires Discover(p, volumeId, |p.bindings|) == Ok([c])
    ensures DiscoverAll([p], volumeId) == Ok([c])
  {
    assert [p][..0] == [];
    assert DiscoverAll([], volumeId) == Ok([]);
    assert [] + [c] == [c];
  }

  lemma OneClaimIsSorted(c: Claim)
    ensures SortByIndex([c]) == [c]
  {
    assert [c][..0] == [];
    assert SortByIndex([]) == [];
  }

  /** A single record on a single pond is rediscovered. */
  lemma OneRecordIsRediscovered(p: Pond, c: Claim)
    requires p.id == c.pondId && p.devices == [c.device] && p.bindings == [c.meta]
    requires c.meta.deviceId == c.device.id && c.meta.index == 0 && c.meta.total == 1
    ensures Rediscover([p], c.meta.volumeId) == Ok([c])
  {
    OneRecord(p, c);
    OnePond(p, c.meta.volumeId, c);
    OneClaimIsSorted(c);
  }

  /** The delete of a volume whose record a pond still holds from before: ten bytes are
      given back that another live volume has booked. */
  lemma RediscoveredDeleteLosesSpace() returns (s: State, ops: seq<Op>)
    ensures Accounted(s, {}) && s.volumes == map[]
    ensures ops == [DoCreate(SampleRequest("u")), DoDelete("v", true)]
    ensures LiveAfterAll(s, {}, ops) == {"u"} && !Accounted(StateAfter(s, ops), {"u"})
    ensures Get(StateAfter(s, ops).allocation, SAMPLE_KEY) == 0
  {
    var r, earlier := SampleRequest("u"), SampleClaim("v", 0);
    s := State(map[], [SamplePond([earlier.meta])], map[]);
    ops := [DoCreate(r), DoDelete("v", true)];
    TwoOps(s, {}, DoCreate(r), DoDelete("v", true));
    SampleCreate(s, [earlier.meta], "u");
    var s1 := Create(s, r).0;
    CreateAccountsIff(s, r, {});
    assert Accounted(s1, {} + {"u"}) && {} + {"u"} == {"u"};
    OneRecordIsRediscovered(SamplePond([earlier.meta]), earlier);
    ReservedOnOne(earlier);
    ReleaseSubtracts(s1.allocation, [earlier], SAMPLE_KEY);
    DeleteAccountsIff(s1, {"u"}, "v", true);
    assert {"u"} - {"v"} == {"u"};
  }
}
