/**
 What happens to one BareMetalHost: claiming and re-provisioning it for a
 hostname of a set, and releasing it. Each operation is a function on the hosts
 and the set, and a method that performs it on the API server and the instance.
 */
module Lifecycle {
  import opened Types

  /** The cluster as one reconcile sees it: all hosts, and the set being reconciled. */
  datatype View = View(hosts: HostMap, bms: BaremetalSet)

  datatype ServerStatus = ServerStatus(localImageUrl: string, checksumUrl: string, checksumType: string)

  /** Merging label maps; a key that is present keeps its value. */
  function MergeKeeping<K, V>(base: map<K, V>, more: map<K, V>): map<K, V> {
    more + base
  }

  const NO_COMPUTE := Compute(map[], "", None, None)

  function ComputeOf(spec: SetSpec, h: string): Compute {
    if h in spec.hosts then spec.hosts[h] else NO_COMPUTE
  }

  function UserDataOf(s: BaremetalSet, h: string): SecretRef {
    var given := ComputeOf(s.spec, h).userData;
    if given.Some? then given.value
    else SecretRef(s.name + "-cloudinit-userdata-" + h, s.spec.bmhNamespace)
  }

  function NetworkDataOf(s: BaremetalSet, h: string): SecretRef {
    var given := ComputeOf(s.spec, h).networkData;
    if given.Some? then given.value
    else SecretRef(s.name + "-cloudinit-networkdata-" + h, s.spec.bmhNamespace)
  }

  function ImageFor(spec: SetSpec, server: ServerStatus): Image {
    match spec.deployment
    case PassThrough => Image(spec.containerImageUrl, "", "")
    case SelfExtracting => Image(server.localImageUrl, server.checksumUrl, server.checksumType)
  }

  // ---------------------------------------------------------------- as functions

  /** The host after provisioning for hostname `h`; only a free host gets the fields of a first provisioning. */
  function Claim(s: BaremetalSet, h: string, image: Image, x: Host): Host {
    var first := x.consumerRef.None?;
    x.(labels := MergeKeeping(x.labels, ClaimLabels(s, h)),
       cleaningMode := s.spec.cleaningMode,
       image := if first || x.state != Provisioned then Some(image) else x.image,
       online := first || x.online,
       consumerRef := if first then Some(RefTo(s)) else x.consumerRef,
       userData := if first then Some(UserDataOf(s, h)) else x.userData,
       networkData := if first then Some(NetworkDataOf(s, h)) else x.networkData)
  }

  /** The host after release. */
  function Unclaim(s: BaremetalSet, h: string, x: Host): Host {
    x.(labels := x.labels - ClaimLabels(s, h).Keys,
       online := false,
       consumerRef := None,
       image := None,
       userData := None,
       networkData := None)
  }

  /** The status entry written after provisioning; an existing entry keeps its BmhRef. */
  function Entry(s: BaremetalSet, h: string, bmh: string, observed: ProvisioningState): HostStatus {
    var base := if h in s.status then s.status[h]
                else HostStatus(h, bmh, ComputeOf(s.spec, h).ctlPlaneIp, OtherState(""), "", "");
    base.(userDataSecret := UserDataOf(s, h).name, networkDataSecret := NetworkDataOf(s, h).name, state := observed)
  }

  datatype Provisioning = Provisioning(view: View, ok: bool)

  /** Nothing changes when any call up to the host patch fails; after the patch nothing can fail. */
  function Provision(v: View, bmh: string, h: string, image: Image, apiOk: bool): Provisioning {
    if !apiOk || bmh !in v.hosts then Provisioning(v, false)
    else
      var x := v.hosts[bmh];
      Provisioning(
        View(v.hosts[bmh := Claim(v.bms, h, image, x)],
             v.bms.(status := v.bms.status[h := Entry(v.bms, h, bmh, x.state)])),
        true)
  }

  /** How the API calls of one release go. */
  datatype ReleaseApi = AllWell | CallFails | SecretDeletionFails
  datatype ReleaseResult = ReleaseDone | HostNotFound | ReleaseError
  datatype Releasing = Releasing(view: View, result: ReleaseResult)

  /** A failing secret deletion leaves the host released and the status entry in place. */
  function Release(v: View, entry: HostStatus, api: ReleaseApi): Releasing {
    if api.CallFails? then Releasing(v, ReleaseError)
    else if entry.bmhRef !in v.hosts then Releasing(v, HostNotFound)
    else
      var hosts' := v.hosts[entry.bmhRef := Unclaim(v.bms, entry.hostname, v.hosts[entry.bmhRef])];
      if api.SecretDeletionFails? then Releasing(View(hosts', v.bms), ReleaseError)
      else Releasing(View(hosts', v.bms.(status := v.bms.status - {entry.hostname})), ReleaseDone)
  }

  // ---------------------------------------------------------------- as operations

  /** Hosts are stored under their names. */
  ghost predicate Named(hosts: HostMap) {
    forall n | n in hosts :: hosts[n].name == n
  }

  /** The API server's BareMetalHosts. */
  class ApiServer {
    var hosts: HostMap

    /** A list call: some order of the hosts that match the selector. */
    method List(selector: Labels) returns (items: seq<Host>)
      requires Named(hosts)
      ensures IsList(items, hosts, selector)
    {
      var names := Range(hosts.Keys);
      items := [];
      for i := 0 to |names|
        invariant forall x :: x in items ==> x.name in names[..i] && hosts[x.name] == x && Subset(selector, x.labels)
        invariant forall j | 0 <= j < i :: Subset(selector, hosts[names[j]].labels) ==> hosts[names[j]] in items
        invariant forall j, k | 0 <= j < k < |items| :: items[j].name != items[k].name
      {
        assert names[i] in hosts.Keys;
        assert names[i] !in names[..i];
        if Subset(selector, hosts[names[i]].labels) {
          items := items + [hosts[names[i]]];
        }
      }
      forall x: Host | x.name in hosts && hosts[x.name] == x && Subset(selector, x.labels) ensures x in items {
        assert x.name in names;
      }
    }
  }

  /** An OpenStackBaremetalSet object in memory. */
  class Instance {
    const uid: string
    const namespace: string
    const name: string
    var spec: SetSpec
    var status: StatusMap
    var conditions: Conditions

    constructor (s: BaremetalSet)
      ensures Value() == s
    {
      uid, namespace, name := s.uid, s.namespace, s.name;
      spec, status, conditions := s.spec, s.status, s.conditions;
    }

    function Value(): BaremetalSet
      reads this
    {
      BaremetalSet(uid, namespace, name, spec, status, conditions)
    }
  }

  ghost function ViewOf(api: ApiServer, inst: Instance): View
    reads api, inst
  {
    View(api.hosts, inst.Value())
  }

  /** The mutate function handed to CreateOrPatch. */
  method MutateHost(s: BaremetalSet, h: string, server: ServerStatus, found: Host) returns (x: Host)
    ensures x == Claim(s, h, ImageFor(s.spec, server), found)
  {
    x := found.(labels := MergeKeeping(found.labels, ClaimLabels(s, h)));
    x := x.(cleaningMode := s.spec.cleaningMode);
    if x.state != Provisioned {
      x := x.(image := Some(ImageFor(s.spec, server)));
    }
    if x.consumerRef.None? {
      x := x.(online := true);
      x := x.(consumerRef := Some(RefTo(s)));
      x := x.(image := Some(ImageFor(s.spec, server)));
      x := x.(userData := Some(UserDataOf(s, h)));
      x := x.(networkData := Some(NetworkDataOf(s, h)));
    }
  }

  method BaremetalHostProvision(
    api: ApiServer, inst: Instance, bmh: string, h: string, server: ServerStatus, apiOk: bool) returns (ok: bool)
    modifies api, inst`status
    ensures Provisioning(ViewOf(api, inst), ok) ==
            Provision(old(ViewOf(api, inst)), bmh, h, ImageFor(inst.spec, server), apiOk)
    ensures old(Named(api.hosts)) ==> Named(api.hosts)
  {
    var s := inst.Value();
    var entry :=
      if h in inst.status then inst.status[h]
      else HostStatus(h, bmh, ComputeOf(inst.spec, h).ctlPlaneIp, OtherState(""), "", "");
    var userData, networkData := UserDataOf(s, h), NetworkDataOf(s, h);
    if !apiOk || bmh !in api.hosts {
      return false;
    }
    var x := MutateHost(s, h, server, api.hosts[bmh]);
    api.hosts := api.hosts[bmh := x];
    entry := entry.(userDataSecret := userData.name);
    entry := entry.(networkDataSecret := networkData.name);
    entry := entry.(state := x.state);
    inst.status := inst.status[h := entry];
    return true;
  }

  method BaremetalHostDeprovision(api: ApiServer, inst: Instance, entry: HostStatus, outcome: ReleaseApi)
    returns (result: ReleaseResult)
    modifies api, inst`status
    ensures Releasing(ViewOf(api, inst), result) == Release(old(ViewOf(api, inst)), entry, outcome)
    ensures old(Named(api.hosts)) ==> Named(api.hosts)
  {
    if outcome.CallFails? {
      return ReleaseError;
    }
    if entry.bmhRef !in api.hosts {
      return HostNotFound;
    }
    var x := api.hosts[entry.bmhRef];
    var labels := x.labels;
    var selector := ClaimLabels(inst.Value(), entry.hostname);
    var keys := Range(selector.Keys);
    for i := 0 to |keys|
      invariant labels == x.labels - (set k | k in keys[..i])
    {
      assert keys[..i + 1] == keys[..i] + [keys[i]];
      labels := labels - {keys[i]};
    }
    assert (set k | k in keys[..|keys|]) == selector.Keys;
    x := x.(labels := labels, online := false, consumerRef := None, image := None,
            userData := None, networkData := None);
    api.hosts := api.hosts[entry.bmhRef := x];
    if outcome.SecretDeletionFails? {
      return ReleaseError;
    }
    inst.status := inst.status - {entry.hostname};
    return ReleaseDone;
  }
}
