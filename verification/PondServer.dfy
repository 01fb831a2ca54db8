/** The Data Pond controller service: the shared state its calls update in place. */
module PondServer {
  import opened Wrappers
  import opened PondDevices
  import opened PondController
  import Calls = PondController

  lemma {:induction false} StaysFailed(p: Pond, volumeId: string, m: nat, n: nat)
    requires m <= n <= |p.bindings| && Discover(p, volumeId, m) == Err(Internal)
    ensures Discover(p, volumeId, n) == Err(Internal)
  {
    if m < n {
      StaysFailed(p, volumeId, m, n - 1);
    }
  }

  lemma {:induction false} AllStaysFailed(ponds: seq<Pond>, volumeId: string, m: nat, n: nat)
    requires m <= n <= |ponds| && DiscoverAll(ponds[..m], volumeId) == Err(Internal)
    ensures DiscoverAll(ponds[..n], volumeId) == Err(Internal)
  {
    if m < n {
      AllStaysFailed(ponds, volumeId, m, n - 1);
      assert ponds[..n][..n - 1] == ponds[..n - 1];
    }
  }

  /** A record whose device is not listed spoils the whole discovery. */
  lemma DiscoverFails(ponds: seq<Pond>, volumeId: string, p: nat, m: nat)
    requires p < |ponds| && m <= |ponds[p].bindings|
    requires DiscoverAll(ponds[..p], volumeId).Ok?
    requires Discover(ponds[p], volumeId, m) == Err(Internal)
    ensures DiscoverAll(ponds, volumeId) == Err(Internal)
  {
    StaysFailed(ponds[p], volumeId, m, |ponds[p].bindings|);
    assert ponds[..p + 1][..p] == ponds[..p];
    AllStaysFailed(ponds, volumeId, p + 1, |ponds|);
    assert ponds[..|ponds|] == ponds;
  }

  class Server {
    var allocation: map<Key, int>
    var ponds: seq<Pond>
    var volumes: map<string, Volume>

    constructor ()
      ensures Value() == State(map[], [], map[])
    {
      allocation, ponds, volumes := map[], [], map[];
    }

    function Value(): State
      reads this
    {
      State(allocation, ponds, volumes)
    }

    /** Replace the cached ponds. */
    method StorePonds(fetched: seq<Pond>)
      modifies this`ponds
      ensures Value() == Apply(old(Value()), DoRefresh(fetched))
    {
      ponds := fetched;
    }

    /** Rank the devices that meet the topology. */
    method FilterDevices(topology: Option<Topology>, volumeId: string) returns (ranked: seq<Ranked>)
      ensures ranked == Rank(allocation, ponds, topology, volumeId)
    {
      ranked := [];
      for p := 0 to |ponds|
        invariant ranked == Rank(allocation, ponds[..p], topology, volumeId)
      {
        var pond := ponds[p];
        assert ponds[..p + 1][..p] == ponds[..p];
        ghost var before := ranked;
        if Meets(topology, pond) {
          var preferred := Preference(topology, pond);
          for d := 0 to |pond.devices|
            invariant ranked == RankDevices(before, allocation, pond, preferred, volumeId, d)
          {
            var claim := NewClaim(allocation, pond.id, pond.devices[d], volumeId);
            ranked := InsertRanked(ranked, Ranked(preferred, claim));
          }
        }
      }
      assert ponds[..|ponds|] == ponds;
    }

    /** Book what the bindings reserve. */
    method Book(bindings: seq<Claim>)
      modifies this`allocation
      ensures allocation == Commit(old(allocation), bindings)
    {
      for k := 0 to |bindings|
        invariant allocation == Commit(old(allocation), bindings[..k])
      {
        assert bindings[..k + 1][..k] == bindings[..k];
        var key := bindings[k].DeviceKey();
        allocation := allocation[key := Get(allocation, key) + bindings[k].meta.reserved];
      }
      assert bindings[..|bindings|] == bindings;
    }

    method CreateVolume(r: CreateRequest) returns (result: Result<seq<Claim>, Failure>)
      modifies this
      ensures (Value(), result) == Calls.Create(old(Value()), r)
    {
      if r.requiredBytes.None? || r.options.None? || r.attributes.None? {
        return Err(InvalidArgument);
      }
      if r.hasContentSource {
        return Err(Unimplemented);
      }
      var ranked := FilterDevices(r.topology, r.volumeId);
      var layer, parsed := r.attributes.value.0, r.attributes.value.1;
      var replicas := Replicas(parsed);
      var required := r.requiredBytes.value + layer.Margin();
      var bindings, totalFilled := PickDevices(Claims(ranked), required, replicas);
      if totalFilled < required * replicas {
        return Err(ResourceExhausted);
      }

      // Store the binding order
      var numbered := [];
      for k := 0 to |bindings|
        invariant |numbered| == k
        invariant forall i | 0 <= i < k :: numbered[i] == Numbered(bindings)[i]
      {
        var meta := bindings[k].meta.(index := k, total := |bindings|);
        numbered := numbered + [bindings[k].(meta := meta)];
      }
      assert numbered == Numbered(bindings);

      // Execute the claim
      if !r.accepted {
        return Err(Remote);
      }
      Book(numbered);
      volumes := volumes[r.volumeId := Volume(numbered, r.options.value, {}, false)];
      return Ok(numbered);
    }

    /** Give back what the bindings reserved, on devices that have an account. */
    method Unbook(bindings: seq<Claim>)
      modifies this`allocation
      ensures allocation == Release(old(allocation), bindings)
    {
      for k := 0 to |bindings|
        invariant allocation == Release(old(allocation), bindings[..k])
      {
        assert bindings[..k + 1][..k] == bindings[..k];
        var key := bindings[k].DeviceKey();
        if key in allocation {
          allocation := allocation[key := allocation[key] - bindings[k].meta.reserved];
        }
      }
      assert bindings[..|bindings|] == bindings;
    }

    /** Collect a volume's claims from the ponds' records. */
    method DiscoverBindings(volumeId: string) returns (r: Result<seq<Claim>, Failure>)
      ensures r == DiscoverAll(ponds, volumeId)
    {
      var bindings := [];
      for p := 0 to |ponds|
        invariant DiscoverAll(ponds[..p], volumeId) == Ok(bindings)
      {
        var pond := ponds[p];
        assert ponds[..p + 1][..p] == ponds[..p];
        ghost var before := bindings;
        for m := 0 to |pond.bindings|
          invariant exists more :: Discover(pond, volumeId, m) == Ok(more) && bindings == before + more
        {
          ghost var more :| Discover(pond, volumeId, m) == Ok(more) && bindings == before + more;
          var meta := pond.bindings[m];
          if meta.volumeId == volumeId {
            var device := FindDevice(pond.devices, meta.deviceId);
            if device.None? {
              DiscoverFails(ponds, volumeId, p, m + 1);
              return Err(Internal);
            }
            bindings := bindings + [Claim(pond.id, device.value, meta)];
            assert bindings == before + (more + [Claim(pond.id, device.value, meta)]);
          }
        }
      }
      assert ponds[..|ponds|] == ponds;
      return Ok(bindings);
    }

    method GetVolumeOrProvision(volumeId: string, mountShared: bool) returns (r: Result<(), Failure>)
      modifies this`volumes
      ensures match Provision(old(Value()), volumeId, mountShared)
              case Ok(s) => r == Ok(()) && Value() == s && volumeId in volumes
              case Err(e) => r == Err(e) && Value() == old(Value())
    {
      if volumeId !in volumes {
        var found := DiscoverBindings(volumeId);
        if found.Err? {
          return Err(found.error);
        }
        var bindings := found.value;
        if |bindings| == 0 {
          return Err(Unavailable);
        }
        if |bindings| != bindings[0].meta.total {
          return Err(Unavailable);
        }
        bindings := SortByIndex(bindings);
        if !InOrder(bindings) {
          return Err(Internal);
        }
        volumes := volumes[volumeId := Volume(bindings, mountShared, {}, false)];
      }
      return Ok(());
    }

    method DeleteVolume(volumeId: string, accepted: bool) returns (r: Result<(), Failure>)
      modifies this
      ensures (Value(), r) == Calls.Delete(old(Value()), volumeId, accepted)
    {
      var found := GetVolumeOrProvision(volumeId, false);
      if found.Err? {
        return Err(found.error);
      }
      if volumes[volumeId].published != {} {
        return Err(Aborted);
      }
      if !accepted {
        return Err(Remote);
      }
      Unbook(volumes[volumeId].bindings);
      volumes := volumes - {volumeId};
      return Ok(());
    }

    method PublishVolume(volumeId: string, node: string, readonly: bool, mountShared: bool) returns (r: Result<(), Failure>)
      modifies this`volumes
      ensures (Value(), r) == Calls.Publish(old(Value()), volumeId, node, readonly, mountShared)
    {
      var found := GetVolumeOrProvision(volumeId, mountShared);
      if found.Err? {
        return Err(found.error);
      }
      var volume := volumes[volumeId];
      if !volume.mountShared {
        var hasPublished := volume.published != {};
        if !readonly && volume.readonly && hasPublished {
          return Err(Aborted);
        }
        if readonly && !volume.readonly && hasPublished {
          return Err(Aborted);
        }
      }
      volume := volume.(published := volume.published + {node});
      volume := volume.(readonly := volume.readonly || readonly);
      volumes := volumes[volumeId := volume];
      return Ok(());
    }

    method UnpublishVolume(volumeId: string, node: string)
      modifies this`volumes
      ensures Value() == Calls.Unpublish(old(Value()), volumeId, node)
    {
      if volumeId in volumes {
        var volume := volumes[volumeId];
        volume := volume.(published := volume.published - {node});
        volume := volume.(readonly := volume.readonly && volume.published != {});
        volumes := volumes[volumeId := volume];
      }
    }
  }
}
