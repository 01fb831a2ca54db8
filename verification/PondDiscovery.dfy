/** Rediscovery: what the controller rebuilds from the binding records that the
    ponds report. */
module PondDiscovery {
  import opened Wrappers
  import opened PondDevices
  import opened PondController

  /** A record as a pond reports it. */
  datatype Record = Record(pondId: string, meta: Metadata)

  function RecordOf(c: Claim): Record {
    Record(c.pondId, c.meta)
  }

  function Records(cs: seq<Claim>): (r: seq<Record>)
    ensures |r| == |cs| && forall k | 0 <= k < |cs| :: r[k] == RecordOf(cs[k])
  {
    seq(|cs|, k requires 0 <= k < |cs| => RecordOf(cs[k]))
  }

  /** The records of a volume among the first n bindings of a pond. */
  function PondRecords(p: Pond, volumeId: string, n: nat): seq<Record>
    requires n <= |p.bindings|
  {
    if n == 0 then []
    else
      PondRecords(p, volumeId, n - 1)
      + if p.bindings[n - 1].volumeId == volumeId then [Record(p.id, p.bindings[n - 1])] else []
  }

  /** The records of a volume over all ponds. */
  function Reported(ponds: seq<Pond>, volumeId: string): seq<Record> {
    if ponds == [] then []
    else
      var n := |ponds| - 1;
      Reported(ponds[..n], volumeId) + PondRecords(ponds[n], volumeId, |ponds[n].bindings|)
  }

  ghost predicate PondLists(p: Pond, volumeId: string) {
    forall m | 0 <= m < |p.bindings| && p.bindings[m].volumeId == volumeId ::
      FindDevice(p.devices, p.bindings[m].deviceId).Some?
  }

  /** Every pond lists the devices of its records. */
  ghost predicate AllListed(ponds: seq<Pond>, volumeId: string) {
    forall p | 0 <= p < |ponds| :: PondLists(ponds[p], volumeId)
  }

  // ----- what discovery finds

  lemma {:induction false} DiscoverFindsRecords(p: Pond, volumeId: string, n: nat)
    requires n <= |p.bindings|
    ensures Discover(p, volumeId, n).Ok? ==>
              Records(Discover(p, volumeId, n).value) == PondRecords(p, volumeId, n)
    ensures PondLists(p, volumeId) ==> Discover(p, volumeId, n).Ok?
  {
    if n > 0 {
      DiscoverFindsRecords(p, volumeId, n - 1);
    }
  }

  lemma {:induction false} ListedDevicesAreFound(ponds: seq<Pond>, volumeId: string)
    requires AllListed(ponds, volumeId)
    ensures DiscoverAll(ponds, volumeId).Ok?
  {
    if ponds != [] {
      var n := |ponds| - 1;
      assert PondLists(ponds[n], volumeId);
      ListedDevicesAreFound(ponds[..n], volumeId);
      DiscoverFindsRecords(ponds[n], volumeId, |ponds[n].bindings|);
    }
  }

  lemma RecordsConcat(a: seq<Claim>, b: seq<Claim>)
    ensures Records(a + b) == Records(a) + Records(b)
  {
  }

  lemma {:induction false} FoundClaimsAreReported(ponds: seq<Pond>, volumeId: string)
    requires DiscoverAll(ponds, volumeId).Ok?
    ensures Records(DiscoverAll(ponds, volumeId).value) == Reported(ponds, volumeId)
  {
    if ponds != [] {
      var n := |ponds| - 1;
      FoundClaimsAreReported(ponds[..n], volumeId);
      DiscoverFindsRecords(ponds[n], volumeId, |ponds[n].bindings|);
      RecordsConcat(DiscoverAll(ponds[..n], volumeId).value,
                    Discover(ponds[n], volumeId, |ponds[n].bindings|).value);
    }
  }

  lemma DiscoverAllFindsRecords(ponds: seq<Pond>, volumeId: string)
    ensures DiscoverAll(ponds, volumeId).Ok? ==>
              Records(DiscoverAll(ponds, volumeId).value) == Reported(ponds, volumeId)
    ensures AllListed(ponds, volumeId) ==> DiscoverAll(ponds, volumeId).Ok?
  {
    if DiscoverAll(ponds, volumeId).Ok? {
      FoundClaimsAreReported(ponds, volumeId);
    }
    if AllListed(ponds, volumeId) {
      ListedDevicesAreFound(ponds, volumeId);
    }
  }

  lemma {:induction false} FoundRecordsAreListed(p: Pond, volumeId: string, n: nat)
    requires n <= |p.bindings|
    ensures Discover(p, volumeId, n).Ok? ==>
              forall k | 0 <= k < n && p.bindings[k].volumeId == volumeId ::
                FindDevice(p.devices, p.bindings[k].deviceId).Some?
    ensures Discover(p, volumeId, n).Err? ==> Discover(p, volumeId, n).error == Internal
  {
    if n > 0 {
      FoundRecordsAreListed(p, volumeId, n - 1);
    }
  }

  /** Discovery fails exactly on a record whose device is not listed, as an internal error. */
  lemma {:induction false} DiscoverAllFailsIff(ponds: seq<Pond>, volumeId: string)
    ensures DiscoverAll(ponds, volumeId).Ok? <==> AllListed(ponds, volumeId)
    ensures DiscoverAll(ponds, volumeId).Err? ==> DiscoverAll(ponds, volumeId).error == Internal
  {
    if ponds != [] {
      var n := |ponds| - 1;
      DiscoverAllFailsIff(ponds[..n], volumeId);
      FoundRecordsAreListed(ponds[n], volumeId, |ponds[n].bindings|);
      assert forall p | 0 <= p < n :: ponds[..n][p] == ponds[p];
      if AllListed(ponds, volumeId) {
        ListedDevicesAreFound(ponds, volumeId);
      }
    }
  }

  // ----- sorting

  ghost predicate Ascending(cs: seq<Claim>) {
    forall i, j | 0 <= i < j < |cs| :: cs[i].meta.index <= cs[j].meta.index
  }

  lemma {:induction false} InsertSorts(cs: seq<Claim>, x: Claim)
    requires Ascending(cs)
    ensures Ascending(InsertByIndex(cs, x))
  {
    if cs != [] && x.meta.index >= cs[0].meta.index {
      InsertSorts(cs[1..], x);
      var tail := InsertByIndex(cs[1..], x);
      forall k | 0 <= k < |tail|
        ensures cs[0].meta.index <= tail[k].meta.index
      {
        assert tail[k] in tail;
        if tail[k] != x {
          assert tail[k] in cs[1..];
        }
      }
    }
  }

  lemma HeadRecord(c: Claim, cs: seq<Claim>)
    ensures multiset(Records([c] + cs)) == multiset{RecordOf(c)} + multiset(Records(cs))
  {
    assert Records([c] + cs) == [RecordOf(c)] + Records(cs);
  }

  lemma {:induction false} InsertKeepsRecords(cs: seq<Claim>, x: Claim)
    ensures multiset(Records(InsertByIndex(cs, x))) == multiset(Records(cs)) + multiset{RecordOf(x)}
  {
    if cs == [] || x.meta.index < cs[0].meta.index {
      HeadRecord(x, cs);
      assert [x] + cs == InsertByIndex(cs, x);
    } else {
      InsertKeepsRecords(cs[1..], x);
      HeadRecord(cs[0], cs[1..]);
      HeadRecord(cs[0], InsertByIndex(cs[1..], x));
      assert cs == [cs[0]] + cs[1..];
    }
  }

  lemma {:induction false} SortSorts(cs: seq<Claim>)
    ensures Ascending(SortByIndex(cs))
  {
    if cs != [] {
      var n := |cs| - 1;
      SortSorts(cs[..n]);
      InsertSorts(SortByIndex(cs[..n]), cs[n]);
    }
  }

  lemma LastRecord(cs: seq<Claim>)
    requires cs != []
    ensures multiset(Records(cs)) == multiset(Records(cs[..|cs| - 1])) + multiset{RecordOf(cs[|cs| - 1])}
  {
    assert Records(cs) == Records(cs[..|cs| - 1]) + [RecordOf(cs[|cs| - 1])];
  }

  lemma {:induction false} SortKeepsRecords(cs: seq<Claim>)
    ensures multiset(Records(SortByIndex(cs))) == multiset(Records(cs))
  {
    if cs == [] {
      assert SortByIndex(cs) == cs;
    } else {
      SortKeepsRecords(cs[..|cs| - 1]);
      InsertKeepsRecords(SortByIndex(cs[..|cs| - 1]), cs[|cs| - 1]);
      LastRecord(cs);
    }
  }

  lemma SameLength<T>(a: seq<T>, b: seq<T>)
    requires multiset(a) == multiset(b)
    ensures |a| == |b|
  {
    assert |multiset(a)| == |a| && |multiset(b)| == |b|;
  }

  // ----- the round trip

  /** What create wrote for a volume. */
  ghost predicate Written(bs: seq<Claim>) {
    bs != [] && InOrder(bs) && forall k | 0 <= k < |bs| :: bs[k].meta.total == |bs|
  }

  /** A record that was written sits at its own index. */
  lemma RecordSitsAtIndex(bs: seq<Claim>, r: Record)
    requires Written(bs) && r in multiset(Records(bs))
    ensures 0 <= r.meta.index < |bs| && r == RecordOf(bs[r.meta.index]) && r.meta.total == |bs|
  {
    var m :| 0 <= m < |bs| && Records(bs)[m] == r;
    assert bs[m].meta.index == m;
  }

  lemma TwiceInside<T>(s: seq<T>, i: nat, j: nat)
    requires i < j < |s| && s[i] == s[j]
    ensures multiset(s)[s[i]] >= 2
  {
    assert s == s[..j] + s[j..];
    assert s[i] == s[..j][i] && s[j] == s[j..][0];
    assert multiset(s[..j])[s[i]] >= 1 && multiset(s[j..])[s[i]] >= 1;
  }

  lemma {:induction false} OnceInside<T>(s: seq<T>, m: nat)
    requires m < |s| && forall k | 0 <= k < |s| && k != m :: s[k] != s[m]
    ensures multiset(s)[s[m]] == 1
  {
    assert s == s[..m] + ([s[m]] + s[m + 1..]);
    assert s[m] !in s[..m] && s[m] !in s[m + 1..];
  }

  lemma EachRecordOnce(bs: seq<Claim>, r: Record)
    requires Written(bs)
    ensures multiset(Records(bs))[r] <= 1
  {
    if r in multiset(Records(bs)) {
      RecordSitsAtIndex(bs, r);
      assert forall k | 0 <= k < |bs| :: Records(bs)[k].meta.index == k;
      OnceInside(Records(bs), r.meta.index);
    }
  }

  lemma StrictlyAscending(bs: seq<Claim>, cs: seq<Claim>, i: nat)
    requires Written(bs) && Ascending(cs) && i + 1 < |cs| == |bs|
    requires multiset(Records(cs)) == multiset(Records(bs))
    ensures cs[i].meta.index < cs[i + 1].meta.index
  {
    var s := Records(cs);
    assert s[i] in multiset(s) && s[i + 1] in multiset(s);
    RecordSitsAtIndex(bs, s[i]);
    RecordSitsAtIndex(bs, s[i + 1]);
    EachRecordOnce(bs, s[i]);
    if s[i] == s[i + 1] {
      TwiceInside(s, i, i + 1);
    }
  }

  /** Ascending claims whose records are all those written are in order. */
  lemma {:induction false} AscendingIsInOrder(bs: seq<Claim>, cs: seq<Claim>, k: nat)
    requires Written(bs) && Ascending(cs) && k <= |cs| == |bs|
    requires multiset(Records(cs)) == multiset(Records(bs))
    ensures forall i | 0 <= i < k :: i <= cs[i].meta.index
    ensures forall i | 0 <= i < |cs| :: RecordOf(cs[i]) in multiset(Records(bs))
  {
    forall i | 0 <= i < |cs|
      ensures RecordOf(cs[i]) in multiset(Records(bs))
    {
      assert Records(cs)[i] in multiset(Records(cs));
    }
    if k > 0 {
      AscendingIsInOrder(bs, cs, k - 1);
      RecordSitsAtIndex(bs, RecordOf(cs[k - 1]));
      if k > 1 {
        StrictlyAscending(bs, cs, k - 2);
      }
    }
  }

  /** From the other end: the indices cannot run ahead of the positions. */
  lemma {:induction false} AscendingFromEnd(bs: seq<Claim>, cs: seq<Claim>, k: nat)
    requires Written(bs) && Ascending(cs) && k <= |cs| == |bs|
    requires multiset(Records(cs)) == multiset(Records(bs))
    ensures forall i | |cs| - k <= i < |cs| :: cs[i].meta.index <= i
  {
    if k > 0 {
      AscendingFromEnd(bs, cs, k - 1);
      var i := |cs| - k;
      AscendingIsInOrder(bs, cs, 0);
      RecordSitsAtIndex(bs, RecordOf(cs[i]));
      if k > 1 {
        StrictlyAscending(bs, cs, i);
      }
    }
  }

  lemma SortRestoresOrder(bs: seq<Claim>, found: seq<Claim>)
    requires Written(bs) && multiset(Records(found)) == multiset(Records(bs))
    ensures InOrder(SortByIndex(found)) && Records(SortByIndex(found)) == Records(bs)
  {
    var cs := SortByIndex(found);
    SortSorts(found);
    SortKeepsRecords(found);
    SameLength(Records(cs), Records(bs));
    AscendingIsInOrder(bs, cs, |cs|);
    AscendingFromEnd(bs, cs, |cs|);
    forall i | 0 <= i < |cs|
      ensures RecordOf(cs[i]) == RecordOf(bs[i]) && cs[i].meta.index == i
    {
      RecordSitsAtIndex(bs, RecordOf(cs[i]));
    }
  }

  lemma SameSizeSameBag<T>(a: multiset<T>, b: multiset<T>)
    requires a <= b && |a| == |b|
    ensures a == b
  {
    assert b == a + (b - a);
    assert |b| == |a| + |b - a|;
    assert b - a == multiset{};
  }

  /** From any rearrangement of some of the written records over the ponds, the
      controller rebuilds the original order exactly when none is lost, and
      refuses otherwise. */
  lemma RediscoveryRoundTrip(ponds: seq<Pond>, volumeId: string, bs: seq<Claim>)
    requires Written(bs) && AllListed(ponds, volumeId)
    requires multiset(Reported(ponds, volumeId)) <= multiset(Records(bs))
    ensures Rediscover(ponds, volumeId).Ok? <==> multiset(Reported(ponds, volumeId)) == multiset(Records(bs))
    ensures Rediscover(ponds, volumeId).Ok? ==> Records(Rediscover(ponds, volumeId).value) == Records(bs)
  {
    DiscoverAllFindsRecords(ponds, volumeId);
    var found := DiscoverAll(ponds, volumeId).value;
    var reported := Reported(ponds, volumeId);
    if found != [] {
      assert Records(found)[0] in multiset(reported);
      RecordSitsAtIndex(bs, RecordOf(found[0]));
      if |found| == |bs| {
        SameSizeSameBag(multiset(reported), multiset(Records(bs)));
      }
    }
    if multiset(reported) == multiset(Records(bs)) {
      SameLength(reported, Records(bs));
      SortRestoresOrder(bs, found);
    }
  }

  // ----- created volumes come back whole

  /** A claim as discovery makes it: on a device its pond lists, the one its record
      names. */
  ghost predicate OnNamedDevice(ponds: seq<Pond>, c: Claim) {
    Listed(ponds, c) && c.device.id == c.meta.deviceId
  }

  lemma {:induction false} FoundDevice(devices: seq<Device>, id: string)
    requires FindDevice(devices, id).Some?
    ensures FindDevice(devices, id).value in devices && FindDevice(devices, id).value.id == id
  {
    if devices[0].id != id {
      FoundDevice(devices[1..], id);
    }
  }

  lemma {:induction false} DiscoverNamesDevices(p: Pond, volumeId: string, n: nat, c: Claim)
    requires n <= |p.bindings| && Discover(p, volumeId, n).Ok? && c in Discover(p, volumeId, n).value
    ensures c.pondId == p.id && c.device in p.devices && c.device.id == c.meta.deviceId
  {
    if c in Discover(p, volumeId, n - 1).value {
      DiscoverNamesDevices(p, volumeId, n - 1, c);
    } else {
      FoundDevice(p.devices, p.bindings[n - 1].deviceId);
    }
  }

  lemma {:induction false} DiscoverAllNamesDevices(ponds: seq<Pond>, volumeId: string, c: Claim)
    requires DiscoverAll(ponds, volumeId).Ok? && c in DiscoverAll(ponds, volumeId).value
    ensures OnNamedDevice(ponds, c)
  {
    var n := |ponds| - 1;
    if c in DiscoverAll(ponds[..n], volumeId).value {
      DiscoverAllNamesDevices(ponds[..n], volumeId, c);
      ListedInMore(ponds, n, c);
    } else {
      DiscoverNamesDevices(ponds[n], volumeId, |ponds[n].bindings|, c);
      var d :| 0 <= d < |ponds[n].devices| && ponds[n].devices[d] == c.device;
    }
  }

  lemma {:induction false} SortAddsNothing(cs: seq<Claim>, c: Claim)
    requires c in SortByIndex(cs)
    ensures c in cs
  {
    var n := |cs| - 1;
    if c != cs[n] {
      SortAddsNothing(cs[..n], c);
    }
  }

  lemma RediscoveredOnNamedDevice(ponds: seq<Pond>, volumeId: string, i: nat)
    requires Rediscover(ponds, volumeId).Ok? && i < |Rediscover(ponds, volumeId).value|
    ensures OnNamedDevice(ponds, Rediscover(ponds, volumeId).value[i])
  {
    var c := Rediscover(ponds, volumeId).value[i];
    SortAddsNothing(DiscoverAll(ponds, volumeId).value, c);
    DiscoverAllNamesDevices(ponds, volumeId, c);
  }

  lemma PlannedOnNamedDevice(s: State, r: CreateRequest, layer: Layer, replicas: Option<int>, i: nat)
    requires r.attributes == Some((layer, replicas))
    requires PlanCreate(s, r).Ok? && i < |PlanCreate(s, r).value|
    requires r.requiredBytes.Some? && r.requiredBytes.value + layer.Margin() >= 0
    ensures OnNamedDevice(s.ponds, PlanCreate(s, r).value[i])
  {
    var ranked := Rank(s.allocation, s.ponds, r.topology, r.volumeId);
    var required := r.requiredBytes.value + layer.Margin();
    PlannedFromRanked(s, r, layer, replicas);
    FillAllTakesNext(Claims(ranked), required, Replicas(replicas));
    var b := FillAll(Claims(ranked), required, Replicas(replicas)).bindings[i];
    assert TakenFrom(b, Claims(ranked)[i]);
    assert ranked[i] in ranked;
    RankOrigin(s.allocation, s.ponds, r.topology, r.volumeId, ranked[i]);
  }

  /** Ponds describe a device in the same way at both times. */
  ghost predicate SameDevices(before: seq<Pond>, after: seq<Pond>) {
    forall a: Claim, b: Claim | Listed(before, a) && Listed(after, b) && a.DeviceKey() == b.DeviceKey() ::
      a.device == b.device
  }

  /** The records determine the claims. */
  lemma SameRecordsSameClaims(before: seq<Pond>, a: seq<Claim>, after: seq<Pond>, b: seq<Claim>)
    requires SameDevices(before, after) && Records(a) == Records(b)
    requires forall i | 0 <= i < |a| :: OnNamedDevice(before, a[i])
    requires forall i | 0 <= i < |b| :: OnNamedDevice(after, b[i])
    ensures a == b
  {
    assert |Records(a)| == |Records(b)|;
    forall i | 0 <= i < |a|
      ensures a[i] == b[i]
    {
      assert Records(a)[i] == Records(b)[i];
      assert OnNamedDevice(before, a[i]) && OnNamedDevice(after, b[i]);
    }
  }

  lemma PlanIsWritten(s: State, r: CreateRequest, layer: Layer, replicas: Option<int>)
    requires DistinctDevices(s.ponds) && r.attributes == Some((layer, replicas))
    requires r.requiredBytes.Some? && r.requiredBytes.value + layer.Margin() >= 0
    requires PlanCreate(s, r).Ok? && PlanCreate(s, r).value != []
    ensures Written(PlanCreate(s, r).value)
    ensures forall i | 0 <= i < |PlanCreate(s, r).value| :: OnNamedDevice(s.ponds, PlanCreate(s, r).value[i])
  {
    var sizes := CreateFillsEachReplica(s, r, layer, replicas);
    forall i | 0 <= i < |PlanCreate(s, r).value|
      ensures OnNamedDevice(s.ponds, PlanCreate(s, r).value[i])
    {
      PlannedOnNamedDevice(s, r, layer, replicas, i);
    }
  }

  lemma NothingReported(ponds: seq<Pond>, volumeId: string)
    requires Reported(ponds, volumeId) == []
    ensures Rediscover(ponds, volumeId).Err?
  {
    DiscoverAllFindsRecords(ponds, volumeId);
  }

  /** From any rearrangement of some of the records that a create planned for a
      volume, over ponds that list their devices, the controller rebuilds exactly the
      planned bindings, devices included, if there were any and no record is lost, and
      refuses otherwise. */
  lemma CreatedVolumeIsRediscovered(s: State, r: CreateRequest, layer: Layer, replicas: Option<int>, ponds: seq<Pond>)
    requires DistinctDevices(s.ponds) && r.attributes == Some((layer, replicas))
    requires r.requiredBytes.Some? && r.requiredBytes.value + layer.Margin() >= 0
    requires PlanCreate(s, r).Ok?
    requires AllListed(ponds, r.volumeId) && SameDevices(s.ponds, ponds)
    requires multiset(Reported(ponds, r.volumeId)) <= multiset(Records(PlanCreate(s, r).value))
    ensures var planned := PlanCreate(s, r).value;
            if planned != [] && multiset(Reported(ponds, r.volumeId)) == multiset(Records(planned))
            then Rediscover(ponds, r.volumeId) == Ok(planned)
            else Rediscover(ponds, r.volumeId).Err?
  {
    var planned := PlanCreate(s, r).value;
    if planned == [] {
      SameLength(Reported(ponds, r.volumeId), Records(planned));
      NothingReported(ponds, r.volumeId);
    } else {
      PlanIsWritten(s, r, layer, replicas);
      RediscoveryRoundTrip(ponds, r.volumeId, planned);
      if Rediscover(ponds, r.volumeId).Ok? {
        var found := Rediscover(ponds, r.volumeId).value;
        forall i | 0 <= i < |found|
          ensures OnNamedDevice(ponds, found[i])
        {
          RediscoveredOnNamedDevice(ponds, r.volumeId, i);
        }
        SameRecordsSameClaims(s.ponds, planned, ponds, found);
      }
    }
  }

  /** Every success has record i at position i, as many records as the first one
      announces, and nothing that was not reported. */
  lemma RediscoveryIsOrdered(ponds: seq<Pond>, volumeId: string)
    ensures Rediscover(ponds, volumeId).Ok? ==>
              var r := Rediscover(ponds, volumeId).value;
              && r != [] && InOrder(r)
              && multiset(Records(r)) == multiset(Reported(ponds, volumeId))
              && |r| == Reported(ponds, volumeId)[0].meta.total
  {
    DiscoverAllFindsRecords(ponds, volumeId);
    if Rediscover(ponds, volumeId).Ok? {
      var found := DiscoverAll(ponds, volumeId).value;
      SortKeepsRecords(found);
      assert Records(found)[0] == RecordOf(found[0]);
    }
  }

  /** A volume is unavailable if and only if all devices are listed and no record or another
      number of records than the first one says is reported. Any other failure is internal. */
  lemma RediscoveryErrors(ponds: seq<Pond>, volumeId: string)
    ensures var reported := Reported(ponds, volumeId);
            Rediscover(ponds, volumeId) == Err(Unavailable) <==>
            AllListed(ponds, volumeId) && (reported == [] || |reported| != reported[0].meta.total)
    ensures Rediscover(ponds, volumeId).Err? ==> Rediscover(ponds, volumeId).error in {Unavailable, Internal}
  {
    DiscoverAllFailsIff(ponds, volumeId);
    DiscoverAllFindsRecords(ponds, volumeId);
    if AllListed(ponds, volumeId) {
      var found := DiscoverAll(ponds, volumeId).value;
      assert |Records(found)| == |Reported(ponds, volumeId)|;
      if found != [] {
        assert Records(found)[0] == RecordOf(found[0]);
      }
    }
  }
}
