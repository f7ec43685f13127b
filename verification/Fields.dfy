/**
 What a reconcile, a release and a deletion leave on a host and in its entry, field
 by field: from the spec, the server status and the host before, whatever functions
 compute it.
 */
module Fields {
  import opened Types
  import opened Allocation
  import opened Hardware
  import opened ScaleUp
  import opened Lifecycle
  import opened Reconcile
  import opened Ownership
  import opened Stages
  import opened Guarantees
  import opened Effects
  import opened Admission
  import opened Progress
  import opened Runs
  import opened Requirements

  // ---------------------------------------------------------------- what nobody changes

  /** Name, inventory, state and flags of a host. */
  ghost predicate SameHardware(x: Host, x': Host) {
    && x'.name == x.name && x'.state == x.state && x'.hardware == x.hardware
    && x'.externallyProvisioned == x.externallyProvisioned && x'.customDeploy == x.customDeploy
  }

  /** The labels that are not the operator's. */
  ghost predicate SameCustomLabels(x: Host, x': Host) {
    forall key :: && (Custom(key) in x'.labels <==> Custom(key) in x.labels)
                  && (Custom(key) in x.labels ==> x'.labels[Custom(key)] == x.labels[Custom(key)])
  }

  // ---------------------------------------------------------------- released hosts

  /** All provisioning fields and all labels of the operator are gone, and nothing else has changed. */
  ghost predicate Released(x: Host, x': Host) {
    && x'.consumerRef == None && x'.image == None && x'.userData == None && x'.networkData == None && !x'.online
    && (forall k | k in x'.labels :: k.Custom?) && SameCustomLabels(x, x')
    && SameHardware(x, x') && x'.cleaningMode == x.cleaningMode
  }

  lemma UnclaimReleases(s: BaremetalSet, h: string, x: Host)
    requires HeldAs(x, s, h)
    ensures Released(x, Unclaim(s, h, x))
  {
    UnclaimCleans(x, s, h);
    forall key ensures Custom(key) in Unclaim(s, h, x).labels <==> Custom(key) in x.labels {
      assert Custom(key) !in ClaimLabels(s, h);
    }
  }

  /** A release that finds its host frees it and no other; the entry goes unless the secrets cannot be deleted. */
  lemma ReleaseFreesHost(v: View, h: string, secretsDeleted: bool)
    requires HostsOk(v.hosts) && SetOk(v.hosts, v.bms) && HasHost(v, h)
    ensures
      var n := v.bms.status[h].bmhRef;
      var v' := Release(v, v.bms.status[h], if secretsDeleted then AllWell else SecretDeletionFails).view;
      && v'.hosts.Keys == v.hosts.Keys && Released(v.hosts[n], v'.hosts[n])
      && (forall m | m in v.hosts && m != n :: v'.hosts[m] == v.hosts[m])
      && (forall g :: g in v'.bms.status <==> g in v.bms.status && (g != h || !secretsDeleted))
      && (forall g | g in v'.bms.status :: v'.bms.status[g] == v.bms.status[g])
  {
    assert EntryOk(v.hosts, v.bms, h);
    UnclaimReleases(v.bms, h, v.hosts[v.bms.status[h].bmhRef]);
  }

  /** The status of `s` names host `n` for some hostname. */
  ghost predicate NamedBy(s: BaremetalSet, n: string) {
    exists h :: h in s.status && s.status[h].bmhRef == n
  }

  /** A deletion that gets through frees exactly the hosts the status names. */
  lemma DeletionFreesHosts(v: View, order: seq<string>, apis: map<string, ReleaseApi>, n: string)
    requires HostsOk(v.hosts) && SetOk(v.hosts, v.bms) && Enumerates(order, v.bms.status.Keys)
    requires forall h | h in v.bms.status :: GoesThrough(v, apis, h)
    requires n in v.hosts
    ensures
      var v' := CleanUp(v, order, apis).view;
      && v'.bms.status == map[] && n in v'.hosts
      && (NamedBy(v.bms, n) ==> Released(v.hosts[n], v'.hosts[n]))
      && (!NamedBy(v.bms, n) ==> v'.hosts[n] == v.hosts[n])
  {
    DeletionReleasesEverything(v, order, apis);
    if NamedBy(v.bms, n) {
      var h :| h in v.bms.status && v.bms.status[h].bmhRef == n;
      assert EntryOk(v.hosts, v.bms, h);
      HeldIsOwned(v.hosts[n], v.bms, h);
      UnclaimReleases(v.bms, h, v.hosts[n]);
    } else if Owned(v.bms, v.hosts[n]) {
      OwnedIsNamed(v, n);
    }
  }

  lemma OwnedIsNamed(v: View, n: string)
    requires SetOk(v.hosts, v.bms) && n in v.hosts && Owned(v.bms, v.hosts[n])
    ensures NamedBy(v.bms, n)
  {
    assert OwnedOk(v.bms, n, v.hosts[n]);
  }

  lemma DroppedIsReleased(v: View, n: string, g: string)
    requires n in v.hosts && HeldAs(v.hosts[n], v.bms, g) && g !in v.bms.spec.hosts
    ensures Released(v.hosts[n], AfterDrop(v.bms, v.hosts[n]))
  {
    HeldIsOwned(v.hosts[n], v.bms, g);
    UnclaimReleases(v.bms, g, v.hosts[n]);
  }

  /** After a finished reconcile a host held under a dropped hostname is free, unless it is in the status again. */
  lemma DroppedHostsAreFreed(w: World, v: View, env: Env, ch: Choices, n: string, g: string)
    requires Reconciling(w, v, env, ch) && Reconciled(v, env, ch).outcome == Finished
    requires n in v.hosts && HeldAs(v.hosts[n], v.bms, g) && g !in v.bms.spec.hosts
    ensures
      var r := Reconciled(v, env, ch).view;
      n in r.hosts && (Released(v.hosts[n], r.hosts[n]) || NamedBy(r.bms, n))
  {
    var e := Entered(v, env);
    FinishedHasPassed(v, env, ch);
    EnteringKeepsInv(w, v, env, ch);
    SuccessTouchesOnlyItsHosts(Put(w, e), e, env, ch, n);
    SameHolding(v.hosts[n], v.bms, e.bms, g);
    DroppedIsReleased(e, n, g);
  }

  // ---------------------------------------------------------------- provisioned hosts

  /** The image of the deployment mode. */
  ghost predicate HasImageOf(x: Host, spec: SetSpec, server: ServerStatus) {
    && x.image.Some?
    && (spec.deployment == PassThrough ==>
          && x.image.value.url == spec.containerImageUrl
          && x.image.value.checksum == "" && x.image.value.checksumType == "")
    && (spec.deployment == SelfExtracting ==>
          && x.image.value.url == server.localImageUrl
          && x.image.value.checksum == server.checksumUrl && x.image.value.checksumType == server.checksumType)
  }

  /** `secret` is the one the compute gives, or else the one generated in the BMH namespace. */
  ghost predicate IsSecret(secret: SecretRef, given: Option<SecretRef>, s: BaremetalSet, kind: string, h: string) {
    && (given.Some? ==> secret == given.value)
    && (given.None? ==> secret.name == s.name + kind + h && secret.namespace == s.spec.bmhNamespace)
  }

  /** The user-data and network-data secrets of hostname `h`. */
  ghost predicate AreSecretsOf(userData: SecretRef, networkData: SecretRef, s: BaremetalSet, h: string) {
    && h in s.spec.hosts
    && IsSecret(userData, s.spec.hosts[h].userData, s, "-cloudinit-userdata-", h)
    && IsSecret(networkData, s.spec.hosts[h].networkData, s, "-cloudinit-networkdata-", h)
  }

  /** The claim labels are on the host. */
  ghost predicate HasClaimLabels(x: Host, s: BaremetalSet, h: string) {
    && OwnerUid in x.labels && x.labels[OwnerUid] == s.uid
    && OwnerNamespace in x.labels && x.labels[OwnerNamespace] == s.namespace
    && OwnerName in x.labels && x.labels[OwnerName] == s.name
    && HostnameOf(s.name) in x.labels && x.labels[HostnameOf(s.name)] == h
  }

  /** What provisioning leaves on every host. */
  ghost predicate Provisions(x: Host, x': Host, s: BaremetalSet, h: string, server: ServerStatus) {
    && SameHardware(x, x') && SameCustomLabels(x, x') && HasClaimLabels(x', s, h)
    && x'.cleaningMode == s.spec.cleaningMode
    && (x.state != Provisioned ==> HasImageOf(x', s.spec, server))
  }

  /** In addition, on a host that is claimed for the first time. */
  ghost predicate ClaimsFirst(x': Host, s: BaremetalSet, h: string, server: ServerStatus) {
    && x'.online && HasImageOf(x', s.spec, server)
    && x'.consumerRef.Some? && x'.consumerRef.value.name == s.name && x'.consumerRef.value.namespace == s.namespace
    && x'.userData.Some? && x'.networkData.Some? && AreSecretsOf(x'.userData.value, x'.networkData.value, s, h)
  }

  /** What stays on a host that is provisioned again. */
  ghost predicate KeepsClaim(x: Host, x': Host) {
    && x'.online == x.online && x'.consumerRef == x.consumerRef
    && x'.userData == x.userData && x'.networkData == x.networkData
    && (x.state == Provisioned ==> x'.image == x.image)
  }

  lemma ClaimProvisions(s: BaremetalSet, h: string, server: ServerStatus, x: Host)
    requires Clean(x) || HeldAs(x, s, h)
    requires h in s.spec.hosts
    ensures
      var x' := Claim(s, h, ImageFor(s.spec, server), x);
      && Provisions(x, x', s, h, server)
      && (x.consumerRef.None? ==> ClaimsFirst(x', s, h, server))
      && (x.consumerRef.Some? ==> KeepsClaim(x, x'))
  {
    MergeEitherWay(x, s, h);
    var x' := Claim(s, h, ImageFor(s.spec, server), x);
    forall key ensures && (Custom(key) in x'.labels <==> Custom(key) in x.labels)
                       && (Custom(key) in x.labels ==> x'.labels[Custom(key)] == x.labels[Custom(key)])
    {
      assert Custom(key) !in ClaimLabels(s, h);
    }
    assert s.name + "-cloudinit-userdata-" + h == UserDataOf(s, h).name || s.spec.hosts[h].userData.Some?;
  }

  /** The entry of hostname `h`: its host's state as seen, the secrets of the spec, and this address. */
  ghost predicate EntryShows(entry: HostStatus, s: BaremetalSet, h: string, x: Host, ip: string) {
    && entry.hostname == h && entry.bmhRef == x.name && entry.state == x.state && entry.ctlPlaneIp == ip
    && exists userData: SecretRef, networkData: SecretRef ::
         AreSecretsOf(userData, networkData, s, h) &&
         entry.userDataSecret == userData.name && entry.networkDataSecret == networkData.name
  }

  lemma EntryIsShown(s: BaremetalSet, h: string, x: Host)
    requires h in s.spec.hosts && (h in s.status ==> s.status[h].hostname == h && s.status[h].bmhRef == x.name)
    ensures EntryShows(Entry(s, h, x.name, x.state), s, h, x,
                       if h in s.status then s.status[h].ctlPlaneIp else s.spec.hosts[h].ctlPlaneIp)
  {
    assert AreSecretsOf(UserDataOf(s, h), NetworkDataOf(s, h), s, h);
  }

  /** What a finished reconcile leaves for a requested hostname. */
  ghost predicate RequestedIsServed(v: View, v': View, h: string, server: ServerStatus) {
    && h in v.bms.spec.hosts && h in v'.bms.status
    && var n := v'.bms.status[h].bmhRef;
       && n in v.hosts && n in v'.hosts
       && Provisions(v.hosts[n], v'.hosts[n], v.bms, h, server)
       && (HasHost(v, h) ==> v.bms.status[h].bmhRef == n && KeepsClaim(v.hosts[n], v'.hosts[n]))
       && (!HasHost(v, h) ==> ClaimsFirst(v'.hosts[n], v.bms, h, server))
       && EntryShows(v'.bms.status[h], v.bms, h, v.hosts[n],
                     if HasHost(v, h) then v.bms.status[h].ctlPlaneIp else v.bms.spec.hosts[h].ctlPlaneIp)
  }

  lemma CustomLabelsCompose(x: Host, y: Host, z: Host)
    requires SameCustomLabels(x, y) && SameCustomLabels(y, z)
    ensures SameCustomLabels(x, z)
  {
  }

  /** One target of the provisioning loop, from the view `k` the release stage left. */
  lemma TargetIsServed(
    v: View, k: View, v': View, ch: Choices, targets: map<string, Host>, h: string, server: ServerStatus)
    requires ViewOk(v) && ViewOk(k) && k == Kept(v) && AllHaveHosts(k) && AllowedFrom(k, ch) && ch.selection.Some?
    requires h in targets && h in v.bms.spec.hosts && TargetOk(k, ch, h, targets[h])
    requires Provided(k, v', targets, targets.Keys, ImageFor(v.bms.spec, server))
    ensures RequestedIsServed(v, v', h, server)
  {
    var n, image := targets[h].name, ImageFor(v.bms.spec, server);
    assert ProvidedOne(k, v', n, h, image);
    StatusOfKept(v);
    SameClaim(k.bms, v.bms, h, image, k.hosts[n]);
    KeptHost(v, n);
    assert HostOk(n, v.hosts[n]) && HostOk(n, k.hosts[n]);
    if h in k.bms.status {
      assert HasHost(k, h) && HasHost(v, h);
      HostOfEntry(v, h);
      HostOfEntry(k, h);
      SameHolding(k.hosts[n], k.bms, v.bms, h);
      assert EntryOk(k.hosts, k.bms, h);
    } else {
      SelectedMayBeProvisioned(k, ch, h);
    }
    KeptFields(v, n);
    ClaimProvisions(v.bms, h, server, k.hosts[n]);
    CustomLabelsCompose(v.hosts[n], k.hosts[n], v'.hosts[n]);
    EntryIsShown(k.bms, h, k.hosts[n]);
    SameSecrets(v'.bms.status[h], k.bms, v.bms, h, k.hosts[n], v.hosts[n]);
  }

  lemma KeptFields(v: View, n: string)
    requires ViewOk(v) && n in v.hosts
    ensures n in Kept(v).hosts && SameHardware(v.hosts[n], Kept(v).hosts[n])
    ensures SameCustomLabels(v.hosts[n], Kept(v).hosts[n])
  {
    KeptHost(v, n);
    var x := v.hosts[n];
    if Kept(v).hosts[n] != x {
      OwnedHostname(v, x);
      HostOfEntry(v, HostnameIn(x, v.bms));
      UnclaimReleases(v.bms, HostnameIn(x, v.bms), x);
    }
  }

  lemma SameSecrets(entry: HostStatus, s: BaremetalSet, t: BaremetalSet, h: string, x: Host, y: Host)
    requires SameSet(s, t) && x.name == y.name && x.state == y.state
    ensures forall ip :: EntryShows(entry, s, h, x, ip) ==> EntryShows(entry, t, h, y, ip)
  {
  }

  lemma ServedByWork(w: World, v: View, env: Env, ch: Choices, h: string)
    requires Underway(w, v, env, ch) && Work(v, env, ch).outcome == Finished && h in v.bms.spec.hosts
    ensures RequestedIsServed(v, Work(v, env, ch).view, h, env.serverStatus)
  {
    var k := Kept(v);
    KeptIsOk(w, v, env, ch);
    FinishedMeans(w, v, env, ch, k);
    InvGivesViewOk(w, v);
    TargetsMayBeProvisioned(k, ch);
    TargetIsServed(v, k, Work(v, env, ch).view, ch, Targets(v.bms.name, ch), h, env.serverStatus);
  }

  lemma ServedWhateverConditions(v: View, c: Conditions, r: View, c': Conditions, h: string, server: ServerStatus)
    requires RequestedIsServed(SetConditions(v, c), r, h, server)
    ensures RequestedIsServed(v, SetConditions(r, c'), h, server)
  {
    var n := r.bms.status[h].bmhRef;
    SameSecrets(r.bms.status[h], SetConditions(v, c).bms, v.bms, h, v.hosts[n], v.hosts[n]);
    assert HasHost(SetConditions(v, c), h) <==> HasHost(v, h);
  }

  /**
   After a finished reconcile every requested hostname has a host with its labels, the
   cleaning mode of the spec and, unless it is already provisioned, the image of the
   deployment mode; a newly claimed host is powered on with the secrets of its compute;
   the entry shows what was seen.
   */
  lemma FinishedServesRequested(w: World, v: View, env: Env, ch: Choices, h: string)
    requires Reconciling(w, v, env, ch) && Reconciled(v, env, ch).outcome == Finished && h in v.bms.spec.hosts
    ensures RequestedIsServed(v, Reconciled(v, env, ch).view, h, env.serverStatus)
  {
    var e, r := Entered(v, env), Reconciled(v, env, ch).view;
    FinishedHasPassed(v, env, ch);
    EnteringKeepsInv(w, v, env, ch);
    ServedByWork(Put(w, e), e, env, ch, h);
    ServedWhateverConditions(v, e.bms.conditions, Work(e, env, ch).view, r.bms.conditions, h, env.serverStatus);
  }

  // ---------------------------------------------------------------- reconciles that stop early

  /** Exactly the entries in `kept` are left, unchanged. */
  ghost predicate EntriesLeft(status: StatusMap, status': StatusMap, kept: iset<string>) {
    forall h :: (h in status' <==> h in status && h in kept) && (h in status' ==> status'[h] == status[h])
  }

  /** Without the first list nothing changes; without the second only the entries without a host are gone. */
  lemma UnlistedLeaves(v: View, env: Env, ch: Choices)
    requires Allowed(v, env, ch)
    ensures !env.syncListed ==> Work(v, env, ch).view == v
    ensures env.syncListed && !env.ownedListed ==>
              var r := Work(v, env, ch).view;
              r.hosts == v.hosts && EntriesLeft(v.bms.status, r.bms.status, iset h | HasHost(v, h))
  {
  }

  lemma StoppedIsKept(w: World, v: View, env: Env, ch: Choices)
    requires Underway(w, v, env, ch) && Work(v, env, ch).outcome in {Failed(ListStage), Failed(SelectionStage)}
    ensures Work(v, env, ch).view == Kept(v) && ViewOk(v)
  {
    ReleaseStageKeepsInv(w, v, env, ch);
    InvGivesViewOk(w, v);
  }

  lemma KeptEntries(v: View)
    ensures EntriesLeft(v.bms.status, Kept(v).bms.status, iset h | HasHost(v, h) && h in v.bms.spec.hosts)
  {
    StatusOfKept(v);
  }

  /** The host is held under a hostname the spec does not ask for. */
  ghost predicate HeldAsDropped(v: View, n: string)
    requires n in v.hosts
  {
    exists g :: HeldAs(v.hosts[n], v.bms, g) && g !in v.bms.spec.hosts
  }

  lemma KeptHostFields(v: View, n: string)
    requires ViewOk(v) && n in v.hosts
    ensures n in Kept(v).hosts
    ensures HeldAsDropped(v, n) ==> Released(v.hosts[n], Kept(v).hosts[n])
    ensures !HeldAsDropped(v, n) ==> Kept(v).hosts[n] == v.hosts[n]
  {
    KeptHost(v, n);
    if HeldAsDropped(v, n) {
      var g :| HeldAs(v.hosts[n], v.bms, g) && g !in v.bms.spec.hosts;
      DroppedIsReleased(v, n, g);
    } else if Owned(v.bms, v.hosts[n]) {
      OwnedIsHeld(v, n);
    }
  }

  /**
   A reconcile that stops after its releases, for want of a list or of hosts, leaves
   the requested entries that have a host, has freed the hosts of the others, and has
   touched nothing else.
   */
  lemma StoppedAfterReleases(w: World, v: View, env: Env, ch: Choices, n: string)
    requires Underway(w, v, env, ch) && n in v.hosts
    requires Work(v, env, ch).outcome in {Failed(ListStage), Failed(SelectionStage)}
    ensures
      var r := Work(v, env, ch).view;
      && EntriesLeft(v.bms.status, r.bms.status, iset h | HasHost(v, h) && h in v.bms.spec.hosts)
      && n in r.hosts
      && (HeldAsDropped(v, n) ==> Released(v.hosts[n], r.hosts[n]))
      && (!HeldAsDropped(v, n) ==> r.hosts[n] == v.hosts[n])
  {
    StoppedIsKept(w, v, env, ch);
    KeptEntries(v);
    KeptHostFields(v, n);
  }

  lemma OwnedIsHeld(v: View, n: string)
    requires ViewOk(v) && n in v.hosts && Owned(v.bms, v.hosts[n])
    ensures HeldAs(v.hosts[n], v.bms, HostnameIn(v.hosts[n], v.bms))
  {
    assert HostOk(n, v.hosts[n]);
    OwnedHostname(v, v.hosts[n]);
    HostOfEntry(v, HostnameIn(v.hosts[n], v.bms));
  }

  // ---------------------------------------------------------------- which hosts are taken

  /** What a host must look like to be claimed. */
  ghost predicate Free(x: Host) {
    x.consumerRef == None && (x.image == None || x.image.value.url == "")
  }

  ghost predicate Usable(x: Host) {
    x.state == Available && !x.externallyProvisioned && !x.customDeploy
  }

  /**
   A host that a reconcile newly claims is available, neither externally provisioned
   nor custom deployed, and was free, or held by the same set under a dropped hostname.
   */
  lemma ClaimedHostsAreUsable(w: World, v: View, env: Env, ch: Choices, h: string, n: string)
    requires Reconciling(w, v, env, ch) && n in v.hosts && !HeldAs(v.hosts[n], v.bms, h)
    requires HeldIn(Put(w, Reconciled(v, env, ch).view), v.bms.uid, h, n)
    ensures Usable(v.hosts[n])
    ensures Free(v.hosts[n]) || exists g :: HeldAs(v.hosts[n], v.bms, g) && g !in v.bms.spec.hosts
  {
    NewlyHeldWasEligible(w, v, env, ch, h, n);
    InvGivesViewOk(w, v);
    KeptFields(v, n);
    KeptHost(v, n);
    if AfterDrop(v.bms, v.hosts[n]) != v.hosts[n] {
      OwnedHostname(v, v.hosts[n]);
      HostOfEntry(v, HostnameIn(v.hosts[n], v.bms));
    }
  }

  lemma UnclaimedIsNotOwned(x: Host, n: string, s: BaremetalSet)
    requires HostOk(n, x) && x.consumerRef == None
    ensures !Owned(s, x) && forall h :: !HeldAs(x, s, h)
  {
    OtherUidNotOwned(s, x);
  }

  /** A host without ConsumerRef that is not usable, or has an image, is left exactly as it is. */
  lemma UnusableHostsAreLeftAlone(w: World, v: View, env: Env, ch: Choices, n: string)
    requires Reconciling(w, v, env, ch) && n in v.hosts && v.hosts[n].consumerRef == None
    requires !(Usable(v.hosts[n]) && Free(v.hosts[n]))
    ensures
      var r := Reconciled(v, env, ch).view;
      n in r.hosts && r.hosts[n] == v.hosts[n]
  {
    var e := Entered(v, env);
    assert HostOk(n, v.hosts[n]);
    ReconcileEffect(w, v, env, ch, n);
    UnclaimedIsNotOwned(v.hosts[n], n, e.bms);
    NothingHappens(e, v.hosts[n], Reconciled(v, env, ch).view.hosts[n], ImageFor(v.bms.spec, env.serverStatus));
  }

  lemma NothingHappens(v: View, x: Host, x': Host, image: Image)
    requires HostEffect(v, x, x', image) && !Owned(v.bms, x) && forall h :: !HeldAs(x, v.bms, h)
    requires !(Usable(x) && Free(x))
    ensures x' == x
  {
  }

  lemma SelectorAsItems(selector: Labels, labels: Labels)
    ensures Subset(selector, labels) <==> selector.Items <= labels.Items
  {
    if Subset(selector, labels) {
      forall i | i in selector.Items ensures i in labels.Items {
        assert labels[i.0] == i.1;
      }
    }
    if selector.Items <= labels.Items {
      forall k | k in selector ensures k in labels && labels[k] == selector[k] {
        assert (k, selector[k]) in labels.Items;
      }
    }
  }

  /** Host `n` suits compute `c` of a set with this selector, as far as labels and state go. */
  ghost predicate Suits(x: Host, selector: Labels, c: Compute) {
    Free(x) && Usable(x) && selector.Items <= x.labels.Items && c.selector.Items <= x.labels.Items
  }

  /** Without hardware requests one new compute can be placed exactly when some host suits it. */
  lemma OneComputeFitsExactly(hosts: HostMap, spec: SetSpec, status: StatusMap, h: string)
    requires spec.hardwareReqs == NO_REQS && h in spec.hosts && h !in status
    requires forall g | g in spec.hosts && g != h :: g in status
    ensures CanScaleUp(hosts, spec, status) <==>
            exists n :: n in hosts && Suits(hosts[n], spec.selector, spec.hosts[h])
  {
    var computes, pool := NewComputes(spec.hosts, status), CandidatePool(hosts, spec);
    assert computes == map[h := spec.hosts[h]];
    if n :| n in hosts && Suits(hosts[n], spec.selector, spec.hosts[h]) {
      SelectorAsItems(spec.selector, hosts[n].labels);
      SelectorAsItems(spec.hosts[h].selector, hosts[n].labels);
      UnknownHardware(NO_REQS);
      assert hosts[n] in pool;
      assert ValidAssignment(map[h := hosts[n]], computes, pool);
    }
    if f: map<string, Host> :| ValidAssignment(f, computes, pool) {
      assert h in f && f[h] in pool;
      var n :| n in hosts && hosts[n] == f[h] && Subset(spec.selector, hosts[n].labels) && Eligible(NO_REQS, hosts[n]);
      SelectorAsItems(spec.selector, hosts[n].labels);
      SelectorAsItems(spec.hosts[h].selector, hosts[n].labels);
      assert Suits(hosts[n], spec.selector, spec.hosts[h]);
    }
  }
}
