/**
 The controller's operations on the API server and the instance, each proved to
 do what the corresponding function of module Reconcile says for the choices it
 made on the way.
 */
module Controller {
  import opened Types
  import opened Allocation
  import opened ScaleUp
  import opened Lifecycle
  import opened Reconcile

  method IsListed(items: seq<Host>, name: string) returns (found: bool)
    ensures found <==> exists i :: 0 <= i < |items| && items[i].name == name
  {
    found := false;
    var i := 0;
    while i < |items| && !found
      invariant 0 <= i <= |items|
      invariant found <==> exists j :: 0 <= j < i && items[j].name == name
      decreases |items| - i, !found
    {
      if items[i].name == name {
        found := true;
      }
      i := i + 1;
    }
  }

  lemma ListedMeansPresent(items: seq<Host>, hosts: HostMap, name: string)
    requires IsList(items, hosts, map[]) && Named(hosts)
    ensures (exists i :: 0 <= i < |items| && items[i].name == name) <==> name in hosts
  {
  }

  /** Deletes the current entry while ranging over the status. */
  method VerifyAndSyncStatus(api: ApiServer, inst: Instance)
    requires Named(api.hosts)
    modifies inst`status
    ensures ViewOf(api, inst) == Sync(old(ViewOf(api, inst)))
  {
    var all := api.List(map[]);
    var was := inst.status;
    var order := Range(was.Keys);
    ExceptLostNone(was, api.hosts);
    for i := 0 to |order|
      invariant inst.status == ExceptLost(was, api.hosts, Elements(order[..i]))
    {
      var h := order[i];
      assert h in was.Keys;
      assert Elements(order[..i + 1]) == Elements(order[..i]) + {h};
      ExceptLostOne(was, api.hosts, Elements(order[..i]), h);
      var found := IsListed(all, was[h].bmhRef);
      ListedMeansPresent(all, api.hosts, was[h].bmhRef);
      if !found {
        inst.status := inst.status - {h};
      }
    }
    assert Elements(order[..|order|]) == was.Keys;
    ExceptLostAll(was, api.hosts);
  }

  /** The status without those hostnames in `seen` whose host is gone. */
  ghost function ExceptLost(was: StatusMap, hosts: HostMap, seen: set<string>): StatusMap {
    map h | h in was && (h in seen ==> was[h].bmhRef in hosts) :: was[h]
  }

  lemma ExceptLostNone(was: StatusMap, hosts: HostMap)
    ensures ExceptLost(was, hosts, {}) == was
  {
  }

  lemma ExceptLostOne(was: StatusMap, hosts: HostMap, seen: set<string>, h: string)
    requires h in was
    ensures ExceptLost(was, hosts, seen + {h}) ==
            if was[h].bmhRef in hosts then ExceptLost(was, hosts, seen) else ExceptLost(was, hosts, seen) - {h}
  {
  }

  lemma ExceptLostAll(was: StatusMap, hosts: HostMap)
    ensures ExceptLost(was, hosts, was.Keys) == SyncedStatus(hosts, was)
  {
  }

  method NamesToRelease(owned: seq<Host>, setName: string, requested: map<string, Compute>) returns (names: seq<string>)
    ensures names == ToRelease(owned, setName, requested)
  {
    names := [];
    for i := 0 to |owned|
      invariant names == ToRelease(owned[..i], setName, requested)
    {
      assert owned[..i + 1][..i] == owned[..i];
      var h := LabelText(owned[i].labels, HostnameOf(setName));
      if h !in requested {
        names := names + [h];
      }
    }
    assert owned[..|owned|] == owned;
  }

  method DeleteBmh(api: ApiServer, inst: Instance, releases: map<string, ReleaseApi>)
    returns (result: ReleaseResult, ghost owned: seq<Host>)
    requires Named(api.hosts)
    modifies api, inst`status
    ensures Named(api.hosts)
    ensures IsList(owned, old(api.hosts), OwnerLabels(old(inst.Value())))
    ensures Releasing(ViewOf(api, inst), result) ==
            ReleaseAll(old(ViewOf(api, inst)), ToRelease(owned, inst.name, inst.spec.hosts), releases)
  {
    ghost var before := ViewOf(api, inst);
    var items := api.List(OwnerLabels(inst.Value()));
    owned := items;
    var names := NamesToRelease(items, inst.name, inst.spec.hosts);
    result := ReleaseDone;
    for i := 0 to |names|
      invariant Named(api.hosts)
      invariant ReleaseAll(ViewOf(api, inst), names[i..], releases) == ReleaseAll(before, names, releases)
    {
      result := BaremetalHostDeprovision(api, inst, EntryOf(inst.status, names[i]), ApiFor(releases, names[i]));
      assert names[i..][1..] == names[i + 1..];
      if result != ReleaseDone {
        return;
      }
    }
    result := ReleaseDone;
  }

  method BuildExistingHostMap(owned: seq<Host>, setName: string) returns (existing: map<string, Host>)
    ensures existing == ExistingHosts(owned, setName)
  {
    existing := map[];
    for i := 0 to |owned|
      invariant existing == ExistingHosts(owned[..i], setName)
    {
      assert owned[..i + 1][..i] == owned[..i];
      if HostnameOf(setName) in owned[i].labels {
        existing := existing[owned[i].labels[HostnameOf(setName)] := owned[i]];
      }
    }
    assert owned[..|owned|] == owned;
  }

  method ProvisionTargets(
    api: ApiServer, inst: Instance, targets: map<string, Host>, server: ServerStatus, failing: set<string>)
    returns (ok: bool, ghost order: seq<string>)
    requires Named(api.hosts)
    modifies api, inst`status
    ensures Named(api.hosts) && Enumerates(order, targets.Keys)
    ensures Provisioning(ViewOf(api, inst), ok) ==
            ProvisionAll(old(ViewOf(api, inst)), targets, order, ImageFor(inst.spec, server), failing)
  {
    ghost var before := ViewOf(api, inst);
    var names := Range(targets.Keys);
    order := names;
    ok := true;
    for i := 0 to |names|
      invariant ok && Named(api.hosts)
      invariant forall h | h in names[i..] :: h in targets
      invariant ProvisionAll(ViewOf(api, inst), targets, names[i..], ImageFor(inst.spec, server), failing) ==
                ProvisionAll(before, targets, names, ImageFor(inst.spec, server), failing)
    {
      var h := names[i];
      assert names[i..][0] == h && names[i..][1..] == names[i + 1..];
      assert h in names;
      ok := BaremetalHostProvision(api, inst, targets[h].name, h, server, h !in failing);
      if !ok {
        return;
      }
    }
  }

  /** Selects hosts for the new computes and provisions every target. */
  method EnsureBaremetalHosts(api: ApiServer, inst: Instance, env: Env)
    returns (failure: Option<Stage>, ghost ch: Choices)
    requires Named(api.hosts)
    modifies api, inst`status
    ensures ch.selection.Some? ==> Enumerates(ch.order, Targets(inst.name, ch).Keys)
    ensures !env.poolListed ==> failure == Some(ListStage)
    ensures env.poolListed ==> AllowedFrom(old(ViewOf(api, inst)), ch)
    ensures env.poolListed && ch.selection.None? ==> failure == Some(SelectionStage)
    ensures !env.poolListed || ch.selection.None? ==> ViewOf(api, inst) == old(ViewOf(api, inst))
    ensures env.poolListed && ch.selection.Some? ==>
              && (failure.Some? ==> failure.value == ProvisionStage)
              && Provisioning(ViewOf(api, inst), failure.None?) ==
                 ProvisionAll(old(ViewOf(api, inst)), Targets(inst.name, ch), ch.order,
                              ImageFor(inst.spec, env.serverStatus), env.failing)
  {
    ch := Choices([], [], [], None, []);
    if !env.poolListed {
      return Some(ListStage), ch;
    }
    var pool := api.List(inst.spec.selector);
    var kept := api.List(OwnerLabels(inst.Value()));
    var selected := VerifyBaremetalSetScaleUp(inst.spec, inst.status, pool, kept);
    if selected.NotEnough? {
      return Some(SelectionStage), Choices([], pool, kept, None, []);
    }
    var existing := BuildExistingHostMap(kept, inst.name);
    var targets := MergeKeeping(selected.hosts, existing);
    var ok;
    ghost var order;
    ok, order := ProvisionTargets(api, inst, targets, env.serverStatus, env.failing);
    ch := Choices([], pool, kept, Some(selected.hosts), order);
    failure := if ok then None else Some(ProvisionStage);
  }

  /** The host stages of reconcileNormal. */
  method RunHostStages(api: ApiServer, inst: Instance, env: Env) returns (outcome: Outcome, ghost ch: Choices)
    requires Named(api.hosts)
    modifies api, inst`status
    ensures Named(old(api.hosts)) && Allowed(old(ViewOf(api, inst)), env, ch)
    ensures Result(ViewOf(api, inst), outcome) == Work(old(ViewOf(api, inst)), env, ch)
  {
    ghost var before := ViewOf(api, inst);
    ch := Choices([], [], [], None, []);
    if !env.syncListed {
      return Failed(SyncStage), ch;
    }
    VerifyAndSyncStatus(api, inst);
    if !env.ownedListed {
      return Failed(ReleaseStage), ch;
    }
    var released;
    ghost var owned;
    released, owned := DeleteBmh(api, inst, env.releases);
    ch := ch.(owned := owned);
    if released != ReleaseDone {
      return Failed(ReleaseStage), ch;
    }
    ghost var afterRelease := ViewOf(api, inst);
    assert AfterRelease(before, env, ch) == Releasing(afterRelease, ReleaseDone);
    var failure;
    ghost var made;
    failure, made := EnsureBaremetalHosts(api, inst, env);
    ch := made.(owned := owned);
    assert AfterRelease(before, env, ch) == Releasing(afterRelease, ReleaseDone);
    assert made.selection.Some? ==> Targets(inst.name, ch) == Targets(inst.name, made);
    outcome := if failure.Some? then Failed(failure.value) else Finished;
  }

  method AllHostsProvisioned(status: StatusMap) returns (all: bool)
    ensures all <==> AllProvisioned(status)
  {
    var order := Range(status.Keys);
    for i := 0 to |order|
      invariant forall j | 0 <= j < i :: order[j] in status && status[order[j]].state == Provisioned
    {
      assert order[i] in status.Keys;
      if status[order[i]].state != Provisioned {
        return false;
      }
    }
    assert forall h | h in status :: h in order;
    return true;
  }

  /** The gates of reconcileNormal, setting conditions as they go. */
  method PassGates(inst: Instance, env: Env) returns (stop: Option<Outcome>)
    modifies inst`conditions
    ensures Gates(inst.spec, env) == Gate(inst.conditions, stop)
  {
    inst.conditions := INITIAL_CONDITIONS;
    if !env.sshSecret.Found? {
      inst.conditions := inst.conditions.(inputReady := False);
      return Some(if env.sshSecret.NotFound? then Requeued else Failed(InputStage));
    }
    inst.conditions := inst.conditions.(inputReady := True);
    if inst.spec.passwordSecret.Some? && !env.passwordSecret.Found? {
      inst.conditions := inst.conditions.(inputReady := False);
      return Some(if env.passwordSecret.NotFound? then Requeued else Failed(InputStage));
    }
    if inst.spec.deployment == SelfExtracting {
      if !env.server.Found? {
        inst.conditions := inst.conditions.(serverReady := False);
        return Some(if env.server.NotFound? then Requeued else Failed(ServerStage));
      }
      if env.serverStatus.localImageUrl == "" {
        inst.conditions := inst.conditions.(serverReady := False);
        return Some(Requeued);
      }
      if env.serverStatus.checksumUrl == "" {
        inst.conditions := inst.conditions.(serverReady := False);
        return Some(Requeued);
      }
      inst.conditions := inst.conditions.(serverReady := True);
    } else {
      if inst.spec.containerImageUrl == "" {
        inst.conditions := inst.conditions.(inputReady := False);
        return Some(Requeued);
      }
      inst.conditions := inst.conditions.(serverReady := True);
    }
    return None;
  }

  method ReconcileNormal(api: ApiServer, inst: Instance, env: Env) returns (outcome: Outcome, ghost ch: Choices)
    requires Named(api.hosts)
    modifies api, inst`status, inst`conditions
    ensures Gates(inst.spec, env).stop.None? ==> Allowed(Entered(old(ViewOf(api, inst)), env), env, ch)
    ensures ch.selection.Some? ==> forall h | h in ch.order :: h in Targets(inst.name, ch)
    ensures Result(ViewOf(api, inst), outcome) == Reconciled(old(ViewOf(api, inst)), env, ch)
  {
    ghost var before := ViewOf(api, inst);
    ch := Choices([], [], [], None, []);
    var stop := PassGates(inst, env);
    if stop.Some? {
      return stop.value, ch;
    }
    assert ViewOf(api, inst) == Entered(before, env);
    outcome, ch := RunHostStages(api, inst, env);
    var all := AllHostsProvisioned(inst.status);
    if outcome != Finished || !all {
      inst.conditions := inst.conditions.(hostsReady := False);
      return;
    }
    inst.conditions := inst.conditions.(hostsReady := True);
    if inst.conditions.inputReady == True && inst.conditions.serverReady == True {
      inst.conditions := inst.conditions.(ready := True);
    }
  }

  /** Ranges over the status it deletes from. */
  method BaremetalHostCleanup(api: ApiServer, inst: Instance, releases: map<string, ReleaseApi>)
    returns (result: ReleaseResult, ghost order: seq<string>)
    modifies api, inst`status
    ensures Enumerates(order, old(inst.status).Keys)
    ensures Releasing(ViewOf(api, inst), result) == CleanUp(old(ViewOf(api, inst)), order, releases)
  {
    ghost var before := ViewOf(api, inst);
    var names := Range(inst.status.Keys);
    order := names;
    result := ReleaseDone;
    for i := 0 to |names|
      invariant result == ReleaseDone
      invariant CleanUp(ViewOf(api, inst), names[i..], releases) == CleanUp(before, names, releases)
    {
      assert names[i..][0] == names[i] && names[i..][1..] == names[i + 1..];
      if names[i] in inst.status {
        result := BaremetalHostDeprovision(api, inst, inst.status[names[i]], ApiFor(releases, names[i]));
        if result != ReleaseDone {
          return;
        }
      }
    }
  }

  /** Returns whether the finalizer is dropped. */
  method ReconcileDelete(api: ApiServer, inst: Instance, releases: map<string, ReleaseApi>)
    returns (dropped: bool, ghost order: seq<string>)
    modifies api, inst`status
    ensures Enumerates(order, old(inst.status).Keys)
    ensures ViewOf(api, inst) == CleanUp(old(ViewOf(api, inst)), order, releases).view
    ensures dropped == DropsFinalizer(CleanUp(old(ViewOf(api, inst)), order, releases))
  {
    var result;
    result, order := BaremetalHostCleanup(api, inst, releases);
    return result != ReleaseError, order;
  }
}
