/** Data Pond devices and the greedy choice of devices for a new volume. */
module PondDevices {
  import opened Wrappers

  datatype Layer = UnknownLayer | Lvm {
    /** The child margin, for example of a volume group over its volumes. */
    function Margin(): int {
      match this
      case UnknownLayer => 0
      case Lvm => 0
    }

    /** The parent padding: metadata and alignment of the layer. */
    function Padding(): (p: int)
      ensures p >= 0
    {
      match this
      case UnknownLayer => 0
      case Lvm => 4194304
    }
  }

  datatype Device = Device(id: string, layer: Layer, capacity: int)

  datatype Metadata = Metadata(volumeId: string, deviceId: string, index: int, total: int, offset: int, reserved: int)

  datatype Key = Key(pondId: string, deviceId: string)

  datatype Pond = Pond(id: string, devices: seq<Device>, bindings: seq<Metadata>, offers: map<string, string>)

  /** A volume's claim on one device. */
  datatype Claim = Claim(pondId: string, device: Device, meta: Metadata) {
    function Available(): int {
      device.capacity - meta.offset - device.layer.Padding()
    }

    /** The bytes a volume may use on this device. */
    function Usable(): int {
      meta.reserved - device.layer.Padding()
    }

    function DeviceKey(): Key {
      Key(pondId, device.id)
    }
  }

  function Min(a: int, b: int): int {
    if a <= b then a else b
  }

  function Positive(a: int): int {
    if a >= 0 then a else 0
  }

  /** Reserve up to `remaining` bytes, padding on top. */
  function Reserve(c: Claim, remaining: int): Claim {
    c.(meta := c.meta.(reserved := Min(c.Available(), remaining) + c.device.layer.Padding()))
  }

  function Get(allocation: map<Key, int>, k: Key): int {
    if k in allocation then allocation[k] else 0
  }

  // ----- topology

  datatype Topology = Topology(requisite: seq<map<string, string>>, preferred: seq<map<string, string>>)

  predicate Matches(segments: map<string, string>, offers: map<string, string>) {
    forall k | k in segments :: k in offers && offers[k] == segments[k]
  }

  predicate Meets(t: Option<Topology>, p: Pond) {
    t.Some? ==> exists k :: 0 <= k < |t.value.requisite| && Matches(t.value.requisite[k], p.offers)
  }

  function CountMatches(segments: seq<map<string, string>>, offers: map<string, string>): nat {
    if segments == [] then 0
    else (if Matches(segments[0], offers) then 1 else 0) + CountMatches(segments[1..], offers)
  }

  function Preference(t: Option<Topology>, p: Pond): nat {
    if t.Some? then CountMatches(t.value.preferred, p.offers) else 0
  }

  /** The pond offers every segment. */
  ghost predicate OffersAll(segments: map<string, string>, p: Pond) {
    forall k :: k in segments.Keys ==> k in p.offers && segments[k] == p.offers[k]
  }

  /** Without a topology every pond will do; with one, it must offer all segments of some
      requisite topology. */
  ghost predicate Admissible(t: Option<Topology>, p: Pond) {
    match t
    case None => true
    case Some(topology) =>
      exists k :: 0 <= k < |topology.requisite| && OffersAll(topology.requisite[k], p)
  }

  lemma MatchesMeans(segments: map<string, string>, p: Pond)
    ensures Matches(segments, p.offers) <==> OffersAll(segments, p)
  {
  }

  lemma MeetsMeans(t: Option<Topology>, p: Pond)
    ensures Meets(t, p) <==> Admissible(t, p)
  {
    if t.Some? {
      forall k | 0 <= k < |t.value.requisite|
        ensures Matches(t.value.requisite[k], p.offers) <==> OffersAll(t.value.requisite[k], p)
      {
        MatchesMeans(t.value.requisite[k], p);
      }
    }
  }

  lemma {:induction false} CountMatchesLast(segments: seq<map<string, string>>, p: Pond)
    requires segments != []
    ensures var n := |segments| - 1;
            CountMatches(segments, p.offers) ==
            CountMatches(segments[..n], p.offers) + if OffersAll(segments[n], p) then 1 else 0
    decreases |segments|
  {
    var n := |segments| - 1;
    MatchesMeans(segments[0], p);
    if n > 0 {
      CountMatchesLast(segments[1..], p);
      assert segments[1..][..n - 1] == segments[..n][1..];
    } else {
      assert segments[1..] == [] && segments[..0] == [];
    }
  }

  ghost function Preferred(segments: seq<map<string, string>>, p: Pond): set<nat> {
    set k: nat | k < |segments| && OffersAll(segments[k], p)
  }

  /** A pond ranks by how many of the preferred topologies it offers. */
  lemma {:induction false} PreferenceCounts(segments: seq<map<string, string>>, p: Pond)
    ensures CountMatches(segments, p.offers) == |Preferred(segments, p)|
  {
    if segments == [] {
      assert Preferred(segments, p) == {};
    } else {
      var n := |segments| - 1;
      PreferenceCounts(segments[..n], p);
      CountMatchesLast(segments, p);
      assert Preferred(segments, p) ==
             Preferred(segments[..n], p) + if OffersAll(segments[n], p) then {n} else {};
    }
  }

  // ----- the ordered candidates

  datatype Ranked = Ranked(preferred: nat, claim: Claim)

  predicate StringLess(a: string, b: string) {
    if b == [] then false
    else if a == [] then true
    else a[0] < b[0] || (a[0] == b[0] && StringLess(a[1..], b[1..]))
  }

  /** More preferred topologies first, then more space, then the ids. */
  predicate RankedBefore(a: Ranked, b: Ranked) {
    || a.preferred > b.preferred
    || (a.preferred == b.preferred &&
        (|| a.claim.Available() > b.claim.Available()
         || (a.claim.Available() == b.claim.Available() &&
             (|| StringLess(a.claim.pondId, b.claim.pondId)
              || (a.claim.pondId == b.claim.pondId && StringLess(a.claim.device.id, b.claim.device.id))))))
  }

  predicate SameRank(a: Ranked, b: Ranked) {
    && a.preferred == b.preferred
    && a.claim.Available() == b.claim.Available()
    && a.claim.DeviceKey() == b.claim.DeviceKey()
  }

  /** Insert into the ordered map; an equal rank is replaced. */
  function InsertRanked(cs: seq<Ranked>, x: Ranked): (r: seq<Ranked>)
    ensures forall c | c in r :: c in cs || c == x
  {
    if cs == [] then [x]
    else if SameRank(x, cs[0]) then [x] + cs[1..]
    else if RankedBefore(x, cs[0]) then [x] + cs
    else [cs[0]] + InsertRanked(cs[1..], x)
  }

  function NewClaim(allocation: map<Key, int>, pondId: string, d: Device, volumeId: string): Claim {
    Claim(pondId, d, Metadata(volumeId, d.id, 0, 0, Get(allocation, Key(pondId, d.id)), 0))
  }

  /** Rank the first n devices of a pond. */
  function RankDevices(cs: seq<Ranked>, allocation: map<Key, int>, p: Pond, pref: nat, volumeId: string, n: nat): seq<Ranked>
    requires n <= |p.devices|
  {
    if n == 0 then cs
    else InsertRanked(RankDevices(cs, allocation, p, pref, volumeId, n - 1),
                      Ranked(pref, NewClaim(allocation, p.id, p.devices[n - 1], volumeId)))
  }

  /** All devices of the ponds that meet the topology, best first. */
  function Rank(allocation: map<Key, int>, ponds: seq<Pond>, t: Option<Topology>, volumeId: string): seq<Ranked> {
    if ponds == [] then []
    else
      var n := |ponds| - 1;
      var before := Rank(allocation, ponds[..n], t, volumeId);
      if Meets(t, ponds[n]) then
        RankDevices(before, allocation, ponds[n], Preference(t, ponds[n]), volumeId, |ponds[n].devices|)
      else before
  }

  function Claims(cs: seq<Ranked>): (r: seq<Claim>)
    ensures |r| == |cs| && forall k | 0 <= k < |cs| :: r[k] == cs[k].claim
  {
    seq(|cs|, k requires 0 <= k < |cs| => cs[k].claim)
  }

  // ----- the greedy choice

  datatype Filling = Filling(bindings: seq<Claim>, filled: int)

  /** Take candidates in order until `required` bytes are filled. */
  function FillOne(cs: seq<Claim>, required: int, filled: int): (f: Filling)
    ensures |f.bindings| <= |cs|
  {
    if cs == [] then Filling([], filled)
    else
      var b := Reserve(cs[0], required - filled);
      var sum := filled + b.Usable();
      if sum >= required then Filling([b], sum)
      else
        var rest := FillOne(cs[1..], required, sum);
        Filling([b] + rest.bindings, rest.filled)
  }

  /** Fill n replicas, each going on where the one before it stopped. */
  function FillAll(cs: seq<Claim>, required: int, n: nat): (f: Filling)
    ensures |f.bindings| <= |cs|
  {
    if n == 0 then Filling([], 0)
    else
      var first := FillOne(cs, required, 0);
      var rest := FillAll(cs[|first.bindings|..], required, n - 1);
      Filling(first.bindings + rest.bindings, first.filled + rest.filled)
  }

  lemma DropDrop<T>(s: seq<T>, a: nat, b: nat)
    requires a + b <= |s|
    ensures s[a..][b..] == s[a + b..]
  {
  }

  lemma Regroup<T>(a: seq<T>, b: seq<T>, c: seq<T>)
    ensures a + (b + c) == a + b + c
  {
  }

  /** The bindings picked so far and those to come from what is left make up the
      whole. */
  ghost predicate Picking(available: seq<Claim>, required: int, left: seq<Claim>, done: Filling) {
    && |done.bindings| <= |available| && left == available[|done.bindings|..]
    && var rest := FillOne(left, required, done.filled);
       FillOne(available, required, 0) == Filling(done.bindings + rest.bindings, rest.filled)
  }

  /** The picking is over. */
  ghost predicate Picked(available: seq<Claim>, required: int, left: seq<Claim>, done: Filling) {
    && |done.bindings| <= |available| && left == available[|done.bindings|..]
    && FillOne(available, required, 0) == done
  }

  lemma PickingStarts(available: seq<Claim>, required: int)
    ensures Picking(available, required, available, Filling([], 0))
  {
    assert [] + FillOne(available, required, 0).bindings == FillOne(available, required, 0).bindings;
  }

  lemma PickingOneMore(available: seq<Claim>, required: int, left: seq<Claim>, done: Filling, b: Claim)
    requires Picking(available, required, left, done) && left != []
    requires b == Reserve(left[0], required - done.filled)
    ensures var more := Filling(done.bindings + [b], done.filled + b.Usable());
            if more.filled >= required then Picked(available, required, left[1..], more)
            else Picking(available, required, left[1..], more)
  {
    var sum := done.filled + b.Usable();
    DropDrop(available, |done.bindings|, 1);
    if sum < required {
      Regroup(done.bindings, [b], FillOne(left[1..], required, sum).bindings);
    }
  }

  lemma PickingEnds(available: seq<Claim>, required: int, done: Filling)
    requires Picking(available, required, [], done)
    ensures Picked(available, required, [], done)
  {
    assert done.bindings + [] == done.bindings;
  }

  /** Pick up devices for one replica from those still available. */
  method PickOne(available: seq<Claim>, required: int) returns (bindings: seq<Claim>, filled: int, left: seq<Claim>)
    ensures Filling(bindings, filled) == FillOne(available, required, 0)
    ensures left == available[|bindings|..]
  {
    bindings, filled, left := [], 0, available;
    PickingStarts(available, required);
    while |left| > 0
      invariant Picking(available, required, left, Filling(bindings, filled))
      decreases |left|
    {
      var binding := Reserve(left[0], required - filled);
      PickingOneMore(available, required, left, Filling(bindings, filled), binding);
      left := left[1..];
      bindings := bindings + [binding];
      filled := filled + binding.Usable();
      if filled >= required {
        return;
      }
    }
    PickingEnds(available, required, Filling(bindings, filled));
  }

  /** The replicas filled so far and those still to come make up the whole. */
  ghost predicate Splits(whole: Filling, left: seq<Claim>, required: int, done: Filling, n: nat) {
    var rest := FillAll(left, required, n);
    whole == Filling(done.bindings + rest.bindings, done.filled + rest.filled)
  }

  lemma SplitsOneMore(whole: Filling, left: seq<Claim>, required: int, done: Filling, one: Filling, n: nat)
    requires Splits(whole, left, required, done, n) && n > 0 && one == FillOne(left, required, 0)
    ensures Splits(whole, left[|one.bindings|..], required,
                   Filling(done.bindings + one.bindings, done.filled + one.filled), n - 1)
  {
    Regroup(done.bindings, one.bindings, FillAll(left[|one.bindings|..], required, n - 1).bindings);
  }

  lemma SplitsToEnd(whole: Filling, left: seq<Claim>, required: int, done: Filling)
    requires Splits(whole, left, required, done, 0)
    ensures whole == done
  {
    assert done.bindings + [] == done.bindings;
  }

  lemma SplitsAtStart(cs: seq<Claim>, required: int, n: nat)
    ensures Splits(FillAll(cs, required, n), cs, required, Filling([], 0), n)
  {
    assert [] + FillAll(cs, required, n).bindings == FillAll(cs, required, n).bindings;
  }

  /** Pick up devices for all replicas, each going on where the last one stopped. */
  method PickDevices(cs: seq<Claim>, required: int, replicas: nat) returns (bindings: seq<Claim>, totalFilled: int)
    ensures Filling(bindings, totalFilled) == FillAll(cs, required, replicas)
  {
    var available := cs;
    bindings, totalFilled := [], 0;
    ghost var whole := FillAll(cs, required, replicas);
    SplitsAtStart(cs, required, replicas);
    for r := 0 to replicas
      invariant Splits(whole, available, required, Filling(bindings, totalFilled), replicas - r)
    {
      var picked, filled, left := PickOne(available, required);
      SplitsOneMore(whole, available, required, Filling(bindings, totalFilled), Filling(picked, filled), replicas - r);
      available := left;
      bindings := bindings + picked;
      totalFilled := totalFilled + filled;
    }
    SplitsToEnd(whole, available, required, Filling(bindings, totalFilled));
  }

  // ----- what the greedy choice takes

  function SumAvailable(cs: seq<Claim>): int {
    if cs == [] then 0 else cs[0].Available() + SumAvailable(cs[1..])
  }

  function SumUsable(cs: seq<Claim>): int {
    if cs == [] then 0 else cs[0].Usable() + SumUsable(cs[1..])
  }

  predicate SameDevice(b: Claim, c: Claim) {
    b.pondId == c.pondId && b.device == c.device && b.meta.offset == c.meta.offset
    && b.meta.volumeId == c.meta.volumeId && b.meta.deviceId == c.meta.deviceId
  }

  /** Binding b takes from candidate c at most what is available, and nothing
      negative unless that is all the candidate has. */
  predicate TakenFrom(b: Claim, c: Claim) {
    && SameDevice(b, c)
    && b.Usable() <= c.Available()
    && (b.Usable() >= 0 || b.Usable() == c.Available())
  }

  /** The bindings take from the first candidates, in order. */
  ghost predicate AllTaken(bs: seq<Claim>, cs: seq<Claim>) {
    |bs| <= |cs| && forall k | 0 <= k < |bs| :: TakenFrom(bs[k], cs[k])
  }

  lemma AllTakenConcat(a: seq<Claim>, b: seq<Claim>, cs: seq<Claim>)
    requires AllTaken(a, cs) && AllTaken(b, cs[|a|..])
    ensures AllTaken(a + b, cs)
  {
    forall k | 0 <= k < |a + b|
      ensures TakenFrom((a + b)[k], cs[k])
    {
      if k >= |a| {
        assert (a + b)[k] == b[k - |a|] && cs[k] == cs[|a|..][k - |a|];
      }
    }
  }

  /** One replica's bindings are the next candidates, in order; each reserves at
      most what is available and never less than its share of the demand allows. */
  lemma {:induction false} FillOneTakesNext(cs: seq<Claim>, required: int, filled: int)
    requires filled <= required
    ensures var f := FillOne(cs, required, filled);
            && AllTaken(f.bindings, cs)
            && f.filled == filled + SumUsable(f.bindings)
            && f.filled <= required
            && (f.filled < required ==> |f.bindings| == |cs|)
  {
    if cs != [] {
      var b := Reserve(cs[0], required - filled);
      var sum := filled + b.Usable();
      if sum < required {
        FillOneTakesNext(cs[1..], required, sum);
        var rest := FillOne(cs[1..], required, sum);
        assert ([b] + rest.bindings)[1..] == rest.bindings;
      } else {
        assert SumUsable([b]) == b.Usable() + SumUsable([]);
      }
    }
  }

  /** Space counted from the second candidate on. */
  lemma PrefixSums(cs: seq<Claim>, m: nat)
    requires 1 <= m <= |cs|
    ensures SumAvailable(cs[..m]) == cs[0].Available() + SumAvailable(cs[1..][..m - 1])
  {
    assert cs[..m][1..] == cs[1..][..m - 1];
  }

  /** Some prefix of the candidates covers what is still missing. */
  ghost predicate SomePrefixCovers(cs: seq<Claim>, missing: int) {
    exists m: nat :: m <= |cs| && SumAvailable(cs[..m]) >= missing
  }

  /** The choice never takes a device once a prefix covers the demand. */
  lemma {:induction false} FillOneStopsEarly(cs: seq<Claim>, required: int, filled: int, m: nat)
    requires filled < required
    requires m < |FillOne(cs, required, filled).bindings|
    ensures filled + SumAvailable(cs[..m]) < required
  {
    if m > 0 {
      var sum := filled + Reserve(cs[0], required - filled).Usable();
      FillOneStopsEarly(cs[1..], required, sum, m - 1);
      PrefixSums(cs, m);
    }
  }

  /** A filled replica stops at a prefix that covers the demand. */
  lemma {:induction false} FilledMeansCovered(cs: seq<Claim>, required: int, filled: int)
    requires filled < required && FillOne(cs, required, filled).filled >= required
    ensures filled + SumAvailable(cs[..|FillOne(cs, required, filled).bindings|]) >= required
  {
    var sum := filled + Reserve(cs[0], required - filled).Usable();
    var n := |FillOne(cs, required, filled).bindings|;
    PrefixSums(cs, n);
    if sum < required {
      FilledMeansCovered(cs[1..], required, sum);
    } else {
      assert cs[1..][..0] == [];
    }
  }

  /** A covering prefix lets the replica be filled. */
  lemma {:induction false} CoveredMeansFilled(cs: seq<Claim>, required: int, filled: int, m: nat)
    requires filled < required && m <= |cs| && filled + SumAvailable(cs[..m]) >= required
    ensures FillOne(cs, required, filled).filled >= required
  {
    var sum := filled + Reserve(cs[0], required - filled).Usable();
    if sum < required {
      PrefixSums(cs, m);
      CoveredMeansFilled(cs[1..], required, sum, m - 1);
    }
  }

  /** The choice fills the demand exactly when some prefix of the candidates
      covers it. */
  lemma FillOneFindsPrefix(cs: seq<Claim>, required: int)
    requires required > 0
    ensures FillOne(cs, required, 0).filled == required <==> SomePrefixCovers(cs, required)
  {
    FillOneTakesNext(cs, required, 0);
    if FillOne(cs, required, 0).filled == required {
      FilledMeansCovered(cs, required, 0);
    }
    if m: nat :| m <= |cs| && SumAvailable(cs[..m]) >= required {
      CoveredMeansFilled(cs, required, 0, m);
    }
  }

  // ----- completeness and fewest devices

  predicate Descending(cs: seq<Claim>) {
    forall i, j | 0 <= i < j < |cs| :: cs[i].Available() >= cs[j].Available()
  }

  function PositiveSum(cs: seq<Claim>): (s: int)
    ensures s >= 0
  {
    if cs == [] then 0 else Positive(cs[0].Available()) + PositiveSum(cs[1..])
  }

  lemma {:induction false} PrefixBelowPositiveSum(cs: seq<Claim>, m: nat)
    requires m <= |cs|
    ensures SumAvailable(cs[..m]) <= PositiveSum(cs)
  {
    if m > 0 {
      assert cs[..m][1..] == cs[1..][..m - 1];
      PrefixBelowPositiveSum(cs[1..], m - 1);
    }
  }

  /** No candidate without space stands before one with space. */
  ghost predicate FullOnesLast(cs: seq<Claim>) {
    forall i, j | 0 <= i < j < |cs| :: cs[i].Available() >= 0 || cs[j].Available() <= 0
  }

  lemma {:induction false} NoPositive(cs: seq<Claim>)
    requires forall k | 0 <= k < |cs| :: cs[k].Available() <= 0
    ensures PositiveSum(cs) == 0
  {
    if cs != [] {
      NoPositive(cs[1..]);
    }
  }

  /** Then some prefix holds exactly the positive space. */
  lemma {:induction false} PositivePrefix(cs: seq<Claim>) returns (m: nat)
    requires FullOnesLast(cs)
    ensures m <= |cs| && SumAvailable(cs[..m]) == PositiveSum(cs)
  {
    if cs == [] || cs[0].Available() < 0 {
      m := 0;
      NoPositive(cs);
    } else {
      var m' := PositivePrefix(cs[1..]);
      m := m' + 1;
      assert cs[..m][1..] == cs[1..][..m'];
    }
  }

  /** A prefix that takes in a full candidate, or leaves one with space out, holds
      less than the positive space. */
  lemma {:induction false} PrefixFallsShort(cs: seq<Claim>, m: nat, k: nat)
    requires m <= |cs| && k < |cs|
    requires if k < m then cs[k].Available() < 0 else cs[k].Available() > 0
    ensures SumAvailable(cs[..m]) < PositiveSum(cs)
  {
    if m > 0 {
      PrefixSums(cs, m);
    }
    if k == 0 {
      PrefixBelowPositiveSum(cs[1..], if m > 0 then m - 1 else 0);
    } else {
      PrefixFallsShort(cs[1..], if m > 0 then m - 1 else 0, k - 1);
    }
  }

  /** A single replica of a positive size is filled exactly when the positive
      space of all candidates covers it. */
  lemma OneReplicaIsComplete(cs: seq<Claim>, required: int)
    requires FullOnesLast(cs) && required > 0
    ensures FillOne(cs, required, 0).filled == required <==> PositiveSum(cs) >= required
  {
    FillOneFindsPrefix(cs, required);
    var m := PositivePrefix(cs);
    if p: nat :| p <= |cs| && SumAvailable(cs[..p]) >= required {
      PrefixBelowPositiveSum(cs, p);
    }
  }

  /** The choice fills every demand that the positive space covers if and only if the
      full candidates come last. */
  lemma CompleteIff(cs: seq<Claim>)
    ensures (forall required | required > 0 ::
               FillOne(cs, required, 0).filled == required <==> PositiveSum(cs) >= required)
            <==> FullOnesLast(cs)
  {
    if FullOnesLast(cs) {
      forall required | required > 0
        ensures FillOne(cs, required, 0).filled == required <==> PositiveSum(cs) >= required
      {
        OneReplicaIsComplete(cs, required);
      }
    } else {
      var i, j :| 0 <= i < j < |cs| && cs[i].Available() < 0 && cs[j].Available() > 0;
      var required := PositiveSum(cs);
      PrefixFallsShort(cs, 0, j);
      FillOneFindsPrefix(cs, required);
      if m: nat :| m <= |cs| && SumAvailable(cs[..m]) >= required {
        PrefixFallsShort(cs, m, if i < m then i else j);
      }
      assert FillOne(cs, required, 0).filled != required;
    }
  }

  /** The claims at some positions. */
  function At(cs: seq<Claim>, positions: seq<nat>): seq<Claim>
    requires forall k | 0 <= k < |positions| :: positions[k] < |cs|
  {
    seq(|positions|, k requires 0 <= k < |positions| => cs[positions[k]])
  }

  lemma {:induction false} SumLast(cs: seq<Claim>)
    requires cs != []
    ensures SumAvailable(cs) == SumAvailable(cs[..|cs| - 1]) + cs[|cs| - 1].Available()
    decreases |cs|
  {
    if |cs| > 1 {
      SumLast(cs[1..]);
      assert cs[1..][..|cs| - 2] == cs[..|cs| - 1][1..];
    } else {
      assert cs[1..] == [];
    }
  }

  lemma {:induction false} PositionsGrow(positions: seq<nat>, k: nat)
    requires k < |positions| && forall i, j | 0 <= i < j < |positions| :: positions[i] < positions[j]
    ensures k <= positions[k]
  {
    if k > 0 {
      PositionsGrow(positions, k - 1);
    }
  }

  /** No choice of as many candidates holds more than the first ones. */
  lemma {:induction false} FirstOnesHoldMost(cs: seq<Claim>, positions: seq<nat>)
    requires Descending(cs)
    requires forall k | 0 <= k < |positions| :: positions[k] < |cs|
    requires forall i, j | 0 <= i < j < |positions| :: positions[i] < positions[j]
    ensures |positions| <= |cs|
    ensures SumAvailable(At(cs, positions)) <= SumAvailable(cs[..|positions|])
  {
    if positions != [] {
      var n := |positions| - 1;
      PositionsGrow(positions, n);
      FirstOnesHoldMost(cs, positions[..n]);
      SumLast(At(cs, positions));
      assert At(cs, positions)[..n] == At(cs, positions[..n]);
      assert At(cs, positions)[n] == cs[positions[n]];
      assert cs[positions[n]].Available() <= cs[n].Available();
      SumLast(cs[..n + 1]);
      assert cs[..n + 1][..n] == cs[..n] && cs[..n + 1][n] == cs[n];
    }
  }

  /** A filled replica uses the fewest devices: any choice of candidates whose
      space covers the demand has at least as many. */
  lemma FewestDevices(cs: seq<Claim>, required: int, positions: seq<nat>)
    requires Descending(cs) && required > 0
    requires forall k | 0 <= k < |positions| :: positions[k] < |cs|
    requires forall i, j | 0 <= i < j < |positions| :: positions[i] < positions[j]
    requires SumAvailable(At(cs, positions)) >= required
    ensures |FillOne(cs, required, 0).bindings| <= |positions|
  {
    FirstOnesHoldMost(cs, positions);
    if |positions| < |FillOne(cs, required, 0).bindings| {
      FillOneStopsEarly(cs, required, 0, |positions|);
    }
  }

  // ----- replicas

  /** The bindings are one contiguous run per replica, of the given sizes, and
      each run fills exactly the demand. */
  ghost predicate EachReplicaFilled(bindings: seq<Claim>, required: int, sizes: seq<nat>) {
    if sizes == [] then bindings == []
    else
      && sizes[0] <= |bindings|
      && SumUsable(bindings[..sizes[0]]) == required
      && EachReplicaFilled(bindings[sizes[0]..], required, sizes[1..])
  }

  /** The demand of n replicas. */
  function Times(required: int, n: nat): int {
    if n == 0 then 0 else required + Times(required, n - 1)
  }

  lemma {:induction false} TimesIsProduct(required: int, n: nat)
    ensures Times(required, n) == required * n
  {
    if n > 0 {
      TimesIsProduct(required, n - 1);
    }
  }

  lemma {:induction false} FillAllTakesNext(cs: seq<Claim>, required: int, n: nat)
    requires required >= 0
    ensures AllTaken(FillAll(cs, required, n).bindings, cs)
  {
    if n > 0 {
      FillOneTakesNext(cs, required, 0);
      var first := FillOne(cs, required, 0).bindings;
      FillAllTakesNext(cs[|first|..], required, n - 1);
      AllTakenConcat(first, FillAll(cs[|first|..], required, n - 1).bindings, cs);
    }
  }

  lemma {:induction false} FillAllIsBounded(cs: seq<Claim>, required: int, n: nat)
    requires required >= 0
    ensures FillAll(cs, required, n).filled <= Times(required, n)
  {
    if n > 0 {
      FillOneTakesNext(cs, required, 0);
      FillAllIsBounded(cs[|FillOne(cs, required, 0).bindings|..], required, n - 1);
    }
  }

  lemma EachReplicaPrepend(first: seq<Claim>, rest: seq<Claim>, required: int, sizes: seq<nat>)
    requires SumUsable(first) == required && EachReplicaFilled(rest, required, sizes)
    ensures EachReplicaFilled(first + rest, required, [|first|] + sizes)
  {
    assert (first + rest)[..|first|] == first && (first + rest)[|first|..] == rest;
    assert ([|first|] + sizes)[1..] == sizes;
  }

  /** Although only the grand total is checked, it suffices exactly when every
      replica got the whole demand from its own contiguous run of bindings. */
  lemma {:induction false} TotalMeansEachReplica(cs: seq<Claim>, required: int, n: nat) returns (sizes: seq<nat>)
    requires required >= 0
    requires FillAll(cs, required, n).filled >= Times(required, n)
    ensures |sizes| == n && EachReplicaFilled(FillAll(cs, required, n).bindings, required, sizes)
  {
    if n == 0 {
      sizes := [];
    } else {
      var first := FillOne(cs, required, 0);
      var others := cs[|first.bindings|..];
      FillOneTakesNext(cs, required, 0);
      FillAllIsBounded(others, required, n - 1);
      var tail := TotalMeansEachReplica(others, required, n - 1);
      sizes := [|first.bindings|] + tail;
      EachReplicaPrepend(first.bindings, FillAll(others, required, n - 1).bindings, required, tail);
    }
  }

  /** The first m candidates are the shortest run that covers the demand. */
  ghost predicate ShortestCover(cs: seq<Claim>, required: int, m: nat) {
    && 0 < m <= |cs| && SumAvailable(cs[..m]) >= required
    && forall l: nat | l < m :: SumAvailable(cs[..l]) < required
  }

  /** The candidates fall into n shortest covering runs, one after the other. */
  ghost predicate RunsCover(cs: seq<Claim>, required: int, n: nat) {
    n == 0 || exists m: nat :: ShortestCover(cs, required, m) && RunsCover(cs[m..], required, n - 1)
  }

  lemma FilledIsShortest(cs: seq<Claim>, required: int)
    requires required > 0 && FillOne(cs, required, 0).filled == required
    ensures ShortestCover(cs, required, |FillOne(cs, required, 0).bindings|)
  {
    var m := |FillOne(cs, required, 0).bindings|;
    FilledMeansCovered(cs, required, 0);
    forall l: nat | l < m
      ensures SumAvailable(cs[..l]) < required
    {
      FillOneStopsEarly(cs, required, 0, l);
    }
    assert cs[..0] == [];
  }

  lemma ShortestIsUnique(cs: seq<Claim>, required: int, a: nat, b: nat)
    requires ShortestCover(cs, required, a) && ShortestCover(cs, required, b)
    ensures a == b
  {
  }

  lemma ShortestIsFilled(cs: seq<Claim>, required: int, m: nat)
    requires required > 0 && ShortestCover(cs, required, m)
    ensures FillOne(cs, required, 0).filled == required
    ensures |FillOne(cs, required, 0).bindings| == m
  {
    FillOneFindsPrefix(cs, required);
    FilledIsShortest(cs, required);
    ShortestIsUnique(cs, required, m, |FillOne(cs, required, 0).bindings|);
  }

  lemma RunsCoverNext(cs: seq<Claim>, required: int, n: nat)
    requires required > 0 && n > 0
    ensures var first := FillOne(cs, required, 0);
            RunsCover(cs, required, n) <==>
            first.filled == required && RunsCover(cs[|first.bindings|..], required, n - 1)
  {
    if FillOne(cs, required, 0).filled == required {
      FilledIsShortest(cs, required);
    }
    if m: nat :| ShortestCover(cs, required, m) && RunsCover(cs[m..], required, n - 1) {
      ShortestIsFilled(cs, required, m);
    }
  }

  /** All replicas are filled if and only if the candidates fall into that many shortest
      covering runs. */
  lemma {:induction false} FillAllFindsRuns(cs: seq<Claim>, required: int, n: nat)
    requires required > 0
    ensures FillAll(cs, required, n).filled == Times(required, n) <==> RunsCover(cs, required, n)
  {
    if n > 0 {
      var first := FillOne(cs, required, 0);
      var others := cs[|first.bindings|..];
      FillOneTakesNext(cs, required, 0);
      FillAllIsBounded(others, required, n - 1);
      FillAllFindsRuns(others, required, n - 1);
      RunsCoverNext(cs, required, n);
    }
  }

  // ----- the candidate list

  ghost predicate DistinctKeys(cs: seq<Claim>) {
    forall i, j | 0 <= i < j < |cs| :: cs[i].DeviceKey() != cs[j].DeviceKey()
  }

  /** Pond ids are the keys of the pond map, and a pond lists a device once. */
  ghost predicate DistinctDevices(ponds: seq<Pond>) {
    && (forall i, j | 0 <= i < j < |ponds| :: ponds[i].id != ponds[j].id)
    && (forall p, i, j | 0 <= p < |ponds| && 0 <= i < j < |ponds[p].devices| ::
          ponds[p].devices[i].id != ponds[p].devices[j].id)
  }

  ghost predicate RankedDescending(cs: seq<Ranked>) {
    forall i, j | 0 <= i < j < |cs| ::
      && cs[i].preferred >= cs[j].preferred
      && (cs[i].preferred == cs[j].preferred ==> cs[i].claim.Available() >= cs[j].claim.Available())
  }

  ghost predicate KeyIsNew(cs: seq<Ranked>, k: Key) {
    forall i | 0 <= i < |cs| :: cs[i].claim.DeviceKey() != k
  }

  lemma {:induction false} InsertRankedSums(cs: seq<Ranked>, x: Ranked)
    requires KeyIsNew(cs, x.claim.DeviceKey())
    ensures |InsertRanked(cs, x)| == |cs| + 1
    ensures PositiveSum(Claims(InsertRanked(cs, x))) == PositiveSum(Claims(cs)) + Positive(x.claim.Available())
  {
    if cs == [] {
      assert Claims([x])[1..] == [];
    } else if RankedBefore(x, cs[0]) {
      assert Claims([x] + cs)[1..] == Claims(cs);
    } else {
      var tail := InsertRanked(cs[1..], x);
      InsertRankedSums(cs[1..], x);
      assert Claims(cs)[1..] == Claims(cs[1..]);
      assert Claims([cs[0]] + tail)[1..] == Claims(tail);
    }
  }

  lemma DropFirst(cs: seq<Ranked>)
    requires cs != [] && RankedDescending(cs) && DistinctKeys(Claims(cs))
    ensures RankedDescending(cs[1..]) && DistinctKeys(Claims(cs[1..]))
  {
    forall i, j | 0 <= i < j < |cs[1..]|
      ensures Claims(cs[1..])[i].DeviceKey() != Claims(cs[1..])[j].DeviceKey()
    {
      assert Claims(cs)[i + 1].DeviceKey() != Claims(cs)[j + 1].DeviceKey();
    }
  }

  lemma ConsKeepsDistinct(c: Ranked, tail: seq<Ranked>)
    requires DistinctKeys(Claims(tail)) && KeyIsNew(tail, c.claim.DeviceKey())
    ensures DistinctKeys(Claims([c] + tail))
  {
    var r := [c] + tail;
    forall i, j | 0 <= i < j < |r|
      ensures Claims(r)[i].DeviceKey() != Claims(r)[j].DeviceKey()
    {
      if i > 0 {
        assert Claims(tail)[i - 1].DeviceKey() != Claims(tail)[j - 1].DeviceKey();
      } else {
        assert tail[j - 1].claim.DeviceKey() != c.claim.DeviceKey();
      }
    }
  }

  lemma NewHead(cs: seq<Ranked>, x: Ranked)
    requires cs != [] && RankedDescending(cs) && DistinctKeys(Claims(cs)) && KeyIsNew(cs, x.claim.DeviceKey())
    requires RankedBefore(x, cs[0])
    ensures RankedDescending([x] + cs) && DistinctKeys(Claims([x] + cs))
  {
    ConsKeepsDistinct(x, cs);
  }

  lemma InsertedOrigin(cs: seq<Ranked>, x: Ranked, j: nat)
    requires cs != [] && j < |InsertRanked(cs[1..], x)|
    ensures var c := InsertRanked(cs[1..], x)[j];
            c == x || exists m :: 1 <= m < |cs| && cs[m] == c
  {
    var tail := InsertRanked(cs[1..], x);
    assert tail[j] in tail;
    if tail[j] != x {
      var m :| 0 <= m < |cs[1..]| && cs[1..][m] == tail[j];
      assert cs[m + 1] == tail[j];
    }
  }

  lemma HeadStaysFirst(cs: seq<Ranked>, x: Ranked, tail: seq<Ranked>)
    requires cs != [] && RankedDescending(cs) && RankedDescending(tail)
    requires DistinctKeys(Claims(cs)) && DistinctKeys(Claims(tail)) && KeyIsNew(cs, x.claim.DeviceKey())
    requires !RankedBefore(x, cs[0]) && tail == InsertRanked(cs[1..], x)
    ensures RankedDescending([cs[0]] + tail) && DistinctKeys(Claims([cs[0]] + tail))
  {
    forall j | 0 <= j < |tail|
      ensures tail[j].claim.DeviceKey() != cs[0].claim.DeviceKey()
      ensures cs[0].preferred >= tail[j].preferred
      ensures cs[0].preferred == tail[j].preferred ==> cs[0].claim.Available() >= tail[j].claim.Available()
    {
      InsertedOrigin(cs, x, j);
      if tail[j] != x {
        var m :| 1 <= m < |cs| && cs[m] == tail[j];
        assert Claims(cs)[0].DeviceKey() != Claims(cs)[m].DeviceKey();
      }
    }
    ConsKeepsDistinct(cs[0], tail);
  }

  lemma {:induction false} InsertRankedInvariant(cs: seq<Ranked>, x: Ranked)
    requires RankedDescending(cs) && DistinctKeys(Claims(cs)) && KeyIsNew(cs, x.claim.DeviceKey())
    ensures RankedDescending(InsertRanked(cs, x)) && DistinctKeys(Claims(InsertRanked(cs, x)))
  {
    if cs != [] {
      if RankedBefore(x, cs[0]) {
        NewHead(cs, x);
      } else {
        DropFirst(cs);
        InsertRankedInvariant(cs[1..], x);
        HeadStaysFirst(cs, x, InsertRanked(cs[1..], x));
      }
    }
  }

  /** The positive space of the first n devices of a pond. */
  function PondSpace(allocation: map<Key, int>, p: Pond, volumeId: string, n: nat): int
    requires n <= |p.devices|
  {
    if n == 0 then 0
    else PondSpace(allocation, p, volumeId, n - 1)
         + Positive(NewClaim(allocation, p.id, p.devices[n - 1], volumeId).Available())
  }

  /** The positive space of all ponds that meet the topology. */
  function TotalSpace(allocation: map<Key, int>, ponds: seq<Pond>, t: Option<Topology>, volumeId: string): int {
    if ponds == [] then 0
    else
      var n := |ponds| - 1;
      TotalSpace(allocation, ponds[..n], t, volumeId)
      + if Meets(t, ponds[n]) then PondSpace(allocation, ponds[n], volumeId, |ponds[n].devices|) else 0
  }

  /** A ranked device is an earlier one or one of the pond's first n. */
  lemma {:induction false} RankDevicesOrigin(
    cs: seq<Ranked>, allocation: map<Key, int>, p: Pond, pref: nat, volumeId: string, n: nat, x: Ranked)
    requires n <= |p.devices| && x in RankDevices(cs, allocation, p, pref, volumeId, n)
    ensures x in cs ||
            exists d :: 0 <= d < n && x == Ranked(pref, NewClaim(allocation, p.id, p.devices[d], volumeId))
  {
    if n > 0 {
      var before := RankDevices(cs, allocation, p, pref, volumeId, n - 1);
      if x in before {
        RankDevicesOrigin(cs, allocation, p, pref, volumeId, n - 1, x);
      }
    }
  }

  lemma NextDeviceIsNew(cs: seq<Ranked>, allocation: map<Key, int>, p: Pond, pref: nat, volumeId: string, n: nat)
    requires n < |p.devices|
    requires forall i, j | 0 <= i < j < |p.devices| :: p.devices[i].id != p.devices[j].id
    requires forall i | 0 <= i < |cs| :: cs[i].claim.pondId != p.id
    ensures KeyIsNew(RankDevices(cs, allocation, p, pref, volumeId, n), Key(p.id, p.devices[n].id))
  {
    var before := RankDevices(cs, allocation, p, pref, volumeId, n);
    forall i | 0 <= i < |before|
      ensures before[i].claim.DeviceKey() != Key(p.id, p.devices[n].id)
    {
      RankDevicesOrigin(cs, allocation, p, pref, volumeId, n, before[i]);
    }
  }

  lemma {:induction false} RankDevicesOrder(
    cs: seq<Ranked>, allocation: map<Key, int>, p: Pond, pref: nat, volumeId: string, n: nat)
    requires n <= |p.devices|
    requires RankedDescending(cs) && DistinctKeys(Claims(cs))
    requires forall i, j | 0 <= i < j < |p.devices| :: p.devices[i].id != p.devices[j].id
    requires forall i | 0 <= i < |cs| :: cs[i].claim.pondId != p.id
    ensures RankedDescending(RankDevices(cs, allocation, p, pref, volumeId, n))
    ensures DistinctKeys(Claims(RankDevices(cs, allocation, p, pref, volumeId, n)))
  {
    if n > 0 {
      RankDevicesOrder(cs, allocation, p, pref, volumeId, n - 1);
      NextDeviceIsNew(cs, allocation, p, pref, volumeId, n - 1);
      InsertRankedInvariant(RankDevices(cs, allocation, p, pref, volumeId, n - 1),
                            Ranked(pref, NewClaim(allocation, p.id, p.devices[n - 1], volumeId)));
    }
  }

  lemma {:induction false} RankDevicesSums(
    cs: seq<Ranked>, allocation: map<Key, int>, p: Pond, pref: nat, volumeId: string, n: nat)
    requires n <= |p.devices|
    requires forall i, j | 0 <= i < j < |p.devices| :: p.devices[i].id != p.devices[j].id
    requires forall i | 0 <= i < |cs| :: cs[i].claim.pondId != p.id
    ensures PositiveSum(Claims(RankDevices(cs, allocation, p, pref, volumeId, n))) ==
            PositiveSum(Claims(cs)) + PondSpace(allocation, p, volumeId, n)
  {
    if n > 0 {
      RankDevicesSums(cs, allocation, p, pref, volumeId, n - 1);
      NextDeviceIsNew(cs, allocation, p, pref, volumeId, n - 1);
      InsertRankedSums(RankDevices(cs, allocation, p, pref, volumeId, n - 1),
                       Ranked(pref, NewClaim(allocation, p.id, p.devices[n - 1], volumeId)));
    }
  }

  /** Some pond lists the claim's device. */
  ghost predicate Listed(ponds: seq<Pond>, c: Claim) {
    exists p, d :: 0 <= p < |ponds| && 0 <= d < |ponds[p].devices|
      && c.pondId == ponds[p].id && c.device == ponds[p].devices[d]
  }

  lemma ListedInMore(ponds: seq<Pond>, n: nat, c: Claim)
    requires n <= |ponds| && Listed(ponds[..n], c)
    ensures Listed(ponds, c)
  {
    var p, d :| 0 <= p < n && 0 <= d < |ponds[..n][p].devices|
      && c.pondId == ponds[..n][p].id && c.device == ponds[..n][p].devices[d];
    assert ponds[..n][p] == ponds[p];
  }

  /** Every ranked device is listed and carries its current offset; without a
      topology none is preferred. */
  lemma {:induction false} RankOrigin(
    allocation: map<Key, int>, ponds: seq<Pond>, t: Option<Topology>, volumeId: string, x: Ranked)
    requires x in Rank(allocation, ponds, t, volumeId)
    ensures Listed(ponds, x.claim)
    ensures x.claim == NewClaim(allocation, x.claim.pondId, x.claim.device, volumeId)
    ensures t.None? ==> x.preferred == 0
  {
    var n := |ponds| - 1;
    var before := Rank(allocation, ponds[..n], t, volumeId);
    if x in before {
      RankOrigin(allocation, ponds[..n], t, volumeId, x);
      ListedInMore(ponds, n, x.claim);
    } else {
      RankDevicesOrigin(before, allocation, ponds[n], Preference(t, ponds[n]), volumeId, |ponds[n].devices|, x);
    }
  }

  /** The ranked list is ordered, lists each device once, and holds all the space
      of the ponds that meet the topology. */
  lemma {:induction false} RankInvariant(allocation: map<Key, int>, ponds: seq<Pond>, t: Option<Topology>, volumeId: string)
    requires DistinctDevices(ponds)
    ensures var r := Rank(allocation, ponds, t, volumeId);
            && RankedDescending(r) && DistinctKeys(Claims(r))
            && PositiveSum(Claims(r)) == TotalSpace(allocation, ponds, t, volumeId)
  {
    if ponds != [] {
      var n := |ponds| - 1;
      assert forall p | 0 <= p < n :: ponds[..n][p] == ponds[p];
      RankInvariant(allocation, ponds[..n], t, volumeId);
      var before := Rank(allocation, ponds[..n], t, volumeId);
      forall k | 0 <= k < |before|
        ensures before[k].claim.pondId != ponds[n].id
      {
        RankOrigin(allocation, ponds[..n], t, volumeId, before[k]);
      }
      if Meets(t, ponds[n]) {
        RankDevicesOrder(before, allocation, ponds[n], Preference(t, ponds[n]), volumeId, |ponds[n].devices|);
        RankDevicesSums(before, allocation, ponds[n], Preference(t, ponds[n]), volumeId, |ponds[n].devices|);
      }
    }
  }

  lemma {:induction false} InsertedIsIn(cs: seq<Ranked>, x: Ranked, c: Ranked)
    requires KeyIsNew(cs, x.claim.DeviceKey()) && (c in cs || c == x)
    ensures c in InsertRanked(cs, x)
  {
    if cs != [] && !SameRank(x, cs[0]) && !RankedBefore(x, cs[0]) && c != cs[0] {
      InsertedIsIn(cs[1..], x, c);
    }
  }

  lemma {:induction false} RankDevicesHolds(
    cs: seq<Ranked>, allocation: map<Key, int>, p: Pond, pref: nat, volumeId: string, n: nat, x: Ranked)
    requires n <= |p.devices|
    requires forall i, j | 0 <= i < j < |p.devices| :: p.devices[i].id != p.devices[j].id
    requires forall i | 0 <= i < |cs| :: cs[i].claim.pondId != p.id
    requires x in cs || exists d :: 0 <= d < n && x == Ranked(pref, NewClaim(allocation, p.id, p.devices[d], volumeId))
    ensures x in RankDevices(cs, allocation, p, pref, volumeId, n)
  {
    if n > 0 {
      var last := Ranked(pref, NewClaim(allocation, p.id, p.devices[n - 1], volumeId));
      NextDeviceIsNew(cs, allocation, p, pref, volumeId, n - 1);
      if x != last {
        RankDevicesHolds(cs, allocation, p, pref, volumeId, n - 1, x);
      }
      InsertedIsIn(RankDevices(cs, allocation, p, pref, volumeId, n - 1), last, x);
    }
  }

  /** No candidate lies on the pond. */
  ghost predicate NoneOn(cs: seq<Ranked>, pondId: string) {
    forall i | 0 <= i < |cs| :: cs[i].claim.pondId != pondId
  }

  lemma EarlierPondsDiffer(allocation: map<Key, int>, ponds: seq<Pond>, t: Option<Topology>, volumeId: string, n: nat)
    requires DistinctDevices(ponds) && n < |ponds|
    ensures DistinctDevices(ponds[..n])
    ensures NoneOn(Rank(allocation, ponds[..n], t, volumeId), ponds[n].id)
  {
    var before := Rank(allocation, ponds[..n], t, volumeId);
    assert forall p | 0 <= p < n :: ponds[..n][p] == ponds[p];
    forall i | 0 <= i < |before|
      ensures before[i].claim.pondId != ponds[n].id
    {
      RankOrigin(allocation, ponds[..n], t, volumeId, before[i]);
    }
  }

  /** Every device of an admissible pond is a candidate, ranked by the pond's preference. */
  lemma {:induction false} RankHolds(
    allocation: map<Key, int>, ponds: seq<Pond>, t: Option<Topology>, volumeId: string, p: nat, d: nat)
    requires DistinctDevices(ponds) && p < |ponds| && d < |ponds[p].devices| && Admissible(t, ponds[p])
    ensures Ranked(Preference(t, ponds[p]), NewClaim(allocation, ponds[p].id, ponds[p].devices[d], volumeId))
            in Rank(allocation, ponds, t, volumeId)
  {
    var n := |ponds| - 1;
    var before := Rank(allocation, ponds[..n], t, volumeId);
    EarlierPondsDiffer(allocation, ponds, t, volumeId, n);
    MeetsMeans(t, ponds[p]);
    if p < n {
      RankHolds(allocation, ponds[..n], t, volumeId, p, d);
    }
    if Meets(t, ponds[n]) {
      RankDevicesHolds(before, allocation, ponds[n], Preference(t, ponds[n]), volumeId, |ponds[n].devices|,
                       Ranked(Preference(t, ponds[p]), NewClaim(allocation, ponds[p].id, ponds[p].devices[d], volumeId)));
    }
  }

  /** A candidate is a device of an admissible pond. */
  lemma {:induction false} RankIsAdmissible(
    allocation: map<Key, int>, ponds: seq<Pond>, t: Option<Topology>, volumeId: string, x: Ranked) returns (p: nat)
    requires x in Rank(allocation, ponds, t, volumeId)
    ensures p < |ponds| && x.claim.pondId == ponds[p].id && x.claim.device in ponds[p].devices
    ensures Admissible(t, ponds[p]) && x.preferred == Preference(t, ponds[p])
  {
    var n := |ponds| - 1;
    var before := Rank(allocation, ponds[..n], t, volumeId);
    if x in before {
      p := RankIsAdmissible(allocation, ponds[..n], t, volumeId, x);
    } else {
      p := n;
      MeetsMeans(t, ponds[n]);
      RankDevicesOrigin(before, allocation, ponds[n], Preference(t, ponds[n]), volumeId, |ponds[n].devices|, x);
    }
  }

  /** A listed device is a candidate if and only if its pond is admissible. */
  lemma CandidateIff(
    allocation: map<Key, int>, ponds: seq<Pond>, t: Option<Topology>, volumeId: string, p: nat, d: nat)
    requires DistinctDevices(ponds) && p < |ponds| && d < |ponds[p].devices|
    ensures (exists x :: x in Rank(allocation, ponds, t, volumeId)
                         && x.claim.DeviceKey() == Key(ponds[p].id, ponds[p].devices[d].id))
            <==> Admissible(t, ponds[p])
  {
    if x :| x in Rank(allocation, ponds, t, volumeId)
            && x.claim.DeviceKey() == Key(ponds[p].id, ponds[p].devices[d].id) {
      var q := RankIsAdmissible(allocation, ponds, t, volumeId, x);
      assert ponds[q].id == ponds[p].id;
    }
    if Admissible(t, ponds[p]) {
      RankHolds(allocation, ponds, t, volumeId, p, d);
      var c := NewClaim(allocation, ponds[p].id, ponds[p].devices[d], volumeId);
      assert Ranked(Preference(t, ponds[p]), c).claim.DeviceKey() == Key(ponds[p].id, ponds[p].devices[d].id);
    }
  }

  /** At the first difference the character is the smaller one, or the string ends. */
  ghost predicate Precedes(a: string, b: string) {
    exists k :: 0 <= k <= |a| && k < |b| && a[..k] == b[..k] && (k < |a| ==> a[k] < b[k])
  }

  lemma {:induction false} StringLessMeans(a: string, b: string)
    ensures StringLess(a, b) <==> Precedes(a, b)
  {
    if a != [] && b != [] {
      StringLessMeans(a[1..], b[1..]);
      if StringLess(a, b) {
        if a[0] < b[0] {
          assert a[..0] == b[..0];
        } else {
          var k :| 0 <= k <= |a[1..]| && k < |b[1..]| && a[1..][..k] == b[1..][..k] && (k < |a[1..]| ==> a[1..][k] < b[1..][k]);
          assert a[..k + 1] == [a[0]] + a[1..][..k] && b[..k + 1] == [b[0]] + b[1..][..k];
        }
      }
      if k :| 0 <= k <= |a| && k < |b| && a[..k] == b[..k] && (k < |a| ==> a[k] < b[k]) {
        if k > 0 {
          assert a[..k][0] == b[..k][0];
          assert a[1..][..k - 1] == a[..k][1..] && b[1..][..k - 1] == b[..k][1..];
        }
      }
    } else if b != [] {
      assert a[..0] == b[..0];
    }
  }

  lemma {:induction false} StringLessIsTransitive(a: string, b: string, c: string)
    requires StringLess(a, b) && StringLess(b, c)
    ensures StringLess(a, c)
  {
    if a != [] && a[0] == b[0] && b[0] == c[0] {
      StringLessIsTransitive(a[1..], b[1..], c[1..]);
    }
  }

  lemma {:induction false} StringLessIsTotal(a: string, b: string)
    ensures a == b || StringLess(a, b) || StringLess(b, a)
  {
    if a != [] && b != [] && a[0] == b[0] {
      StringLessIsTotal(a[1..], b[1..]);
      assert a == [a[0]] + a[1..] && b == [b[0]] + b[1..];
    }
  }

  lemma RankIsTransitive(a: Ranked, b: Ranked, c: Ranked)
    requires RankedBefore(a, b) && RankedBefore(b, c)
    ensures RankedBefore(a, c)
  {
    if StringLess(a.claim.pondId, b.claim.pondId) && StringLess(b.claim.pondId, c.claim.pondId) {
      StringLessIsTransitive(a.claim.pondId, b.claim.pondId, c.claim.pondId);
    }
    if StringLess(a.claim.device.id, b.claim.device.id) && StringLess(b.claim.device.id, c.claim.device.id) {
      StringLessIsTransitive(a.claim.device.id, b.claim.device.id, c.claim.device.id);
    }
  }

  lemma RankIsTotal(a: Ranked, b: Ranked)
    ensures SameRank(a, b) || RankedBefore(a, b) || RankedBefore(b, a)
  {
    StringLessIsTotal(a.claim.pondId, b.claim.pondId);
    StringLessIsTotal(a.claim.device.id, b.claim.device.id);
  }

  ghost predicate InRankOrder(cs: seq<Ranked>) {
    forall i, j | 0 <= i < j < |cs| :: RankedBefore(cs[i], cs[j])
  }

  lemma {:induction false} InsertKeepsOrder(cs: seq<Ranked>, x: Ranked)
    requires InRankOrder(cs)
    ensures InRankOrder(InsertRanked(cs, x))
  {
    if cs != [] {
      if SameRank(x, cs[0]) {
      } else if RankedBefore(x, cs[0]) {
        forall j | 0 < j < |cs|
          ensures RankedBefore(x, cs[j])
        {
          RankIsTransitive(x, cs[0], cs[j]);
        }
      } else {
        RankIsTotal(x, cs[0]);
        InsertKeepsOrder(cs[1..], x);
        var rest := InsertRanked(cs[1..], x);
        forall j | 0 <= j < |rest|
          ensures RankedBefore(cs[0], rest[j])
        {
          assert rest[j] in rest;
        }
      }
    }
  }

  lemma {:induction false} RankDevicesKeepsOrder(
    cs: seq<Ranked>, allocation: map<Key, int>, p: Pond, pref: nat, volumeId: string, n: nat)
    requires InRankOrder(cs) && n <= |p.devices|
    ensures InRankOrder(RankDevices(cs, allocation, p, pref, volumeId, n))
  {
    if n > 0 {
      RankDevicesKeepsOrder(cs, allocation, p, pref, volumeId, n - 1);
      InsertKeepsOrder(RankDevices(cs, allocation, p, pref, volumeId, n - 1),
                       Ranked(pref, NewClaim(allocation, p.id, p.devices[n - 1], volumeId)));
    }
  }

  lemma {:induction false} RankIsInOrder(allocation: map<Key, int>, ponds: seq<Pond>, t: Option<Topology>, volumeId: string)
    ensures InRankOrder(Rank(allocation, ponds, t, volumeId))
  {
    if ponds != [] {
      var n := |ponds| - 1;
      RankIsInOrder(allocation, ponds[..n], t, volumeId);
      RankDevicesKeepsOrder(Rank(allocation, ponds[..n], t, volumeId), allocation, ponds[n],
                            Preference(t, ponds[n]), volumeId, |ponds[n].devices|);
    }
  }

  /** The candidates come by preference, then by space, then by the names of pond and device. */
  lemma RankOrder(allocation: map<Key, int>, ponds: seq<Pond>, t: Option<Topology>, volumeId: string, i: nat, j: nat)
    requires i < j < |Rank(allocation, ponds, t, volumeId)|
    ensures var r := Rank(allocation, ponds, t, volumeId);
            var (a, b) := (r[i].claim, r[j].claim);
            && r[i].preferred >= r[j].preferred
            && (r[i].preferred == r[j].preferred ==> a.Available() >= b.Available())
            && (r[i].preferred == r[j].preferred && a.Available() == b.Available() ==>
                  Precedes(a.pondId, b.pondId) || (a.pondId == b.pondId && Precedes(a.device.id, b.device.id)))
  {
    RankIsInOrder(allocation, ponds, t, volumeId);
    var r := Rank(allocation, ponds, t, volumeId);
    StringLessMeans(r[i].claim.pondId, r[j].claim.pondId);
    StringLessMeans(r[i].claim.device.id, r[j].claim.device.id);
  }

  /** No name comes before itself. */
  lemma {:induction false} StringLessIsStrict(a: string)
    ensures !StringLess(a, a)
  {
    if a != [] {
      StringLessIsStrict(a[1..]);
    }
  }

  /** Of two devices with the same rank the later one replaces the earlier one. */
  lemma {:induction false} LaterTwinReplaces(cs: seq<Ranked>, x: Ranked, k: nat)
    requires InRankOrder(cs) && k < |cs| && SameRank(x, cs[k])
    ensures InsertRanked(cs, x) == cs[k := x]
  {
    if k > 0 {
      assert RankedBefore(cs[0], cs[k]);
      StringLessIsStrict(x.claim.pondId);
      StringLessIsStrict(x.claim.device.id);
      if RankedBefore(x, cs[0]) {
        RankIsTransitive(x, cs[0], cs[k]);
        assert false;
      }
      LaterTwinReplaces(cs[1..], x, k - 1);
      assert InsertRanked(cs, x) == [cs[0]] + cs[1..][k - 1 := x];
    }
  }

  /** Without a topology the candidates come in descending space. */
  lemma RankIsDescending(allocation: map<Key, int>, ponds: seq<Pond>, volumeId: string)
    requires DistinctDevices(ponds)
    ensures Descending(Claims(Rank(allocation, ponds, None, volumeId)))
  {
    RankInvariant(allocation, ponds, None, volumeId);
    var r := Rank(allocation, ponds, None, volumeId);
    forall k | 0 <= k < |r|
      ensures r[k].preferred == 0
    {
      RankOrigin(allocation, ponds, None, volumeId, r[k]);
    }
  }
}
