/**
 What a reconcile guarantees from a consistent world: the state a successful one
 leaves, that repeating it changes nothing, and what the Ready condition means.
 */
module Guarantees {
  import opened Types
  import opened Allocation
  import opened ScaleUp
  import opened Lifecycle
  import opened Reconcile
  import opened Ownership
  import opened Stages

  /** A reconcile of `v` in the consistent world `w`, past the gates. */
  ghost predicate Underway(w: World, v: View, env: Env, ch: Choices) {
    && Inv(w) && Sees(w, v) && ReleasesSafe(v, env, ch)
    && Gates(v.bms.spec, env).stop.None? && Allowed(v, env, ch)
  }

  lemma StatusOfKept(v: View)
    ensures Kept(v).bms.status ==
            map h | h in v.bms.status && v.bms.status[h].bmhRef in v.hosts && h in v.bms.spec.hosts :: v.bms.status[h]
    ensures SameSet(Kept(v).bms, v.bms) && Kept(v).bms.conditions == v.bms.conditions
    ensures Kept(v).hosts.Keys == v.hosts.Keys
  {
  }

  /** The stages a finished reconcile went through. */
  lemma FinishedStages(v: View, env: Env, ch: Choices)
    requires Allowed(v, env, ch) && Work(v, env, ch).outcome == Finished
    ensures env.syncListed && env.ownedListed && env.poolListed
    ensures ch.selection.Some? && IsList(ch.owned, v.hosts, OwnerLabels(v.bms))
    ensures Enumerates(ch.order, Targets(v.bms.name, ch).Keys)
    ensures
      var r, image := AfterRelease(v, env, ch), ImageFor(v.bms.spec, env.serverStatus);
      && r.result == ReleaseDone && AllowedFrom(r.view, ch)
      && Work(v, env, ch).view == ProvisionAll(r.view, Targets(v.bms.name, ch), ch.order, image, env.failing).view
      && ProvisionAll(r.view, Targets(v.bms.name, ch), ch.order, image, env.failing).ok
  {
  }

  lemma LoopProvides(k: View, targets: map<string, Host>, order: seq<string>, image: Image, failing: set<string>)
    requires GoodTargets(k, targets) && Enumerates(order, targets.Keys)
    ensures Pending(k, targets, order)
    ensures
      var p := ProvisionAll(k, targets, order, image, failing);
      && (p.ok <==> forall h | h in targets :: h !in failing)
      && (p.ok ==> Provided(k, p.view, targets, targets.Keys, image))
  {
    ProvisionAllProvides(k, targets, order, image, failing);
    ProvisionAllOk(k, targets, order, image, failing);
    ServedIsPart(order, failing);
    EnumeratedElements(order, targets.Keys);
  }

  lemma EnumeratedElements(order: seq<string>, names: set<string>)
    requires Enumerates(order, names)
    ensures Elements(order) == names
  {
  }

  lemma KeptIsOk(w: World, v: View, env: Env, ch: Choices)
    requires Underway(w, v, env, ch) && Work(v, env, ch).outcome == Finished
    ensures AfterRelease(v, env, ch).view == Kept(v) && Inv(Put(w, Kept(v)))
    ensures ViewOk(Kept(v)) && AllHaveHosts(Kept(v)) && AllowedFrom(Kept(v), ch)
  {
    FinishedStages(v, env, ch);
    ReleaseStageKeepsInv(w, v, env, ch);
    InvGivesViewOk(Put(w, Kept(v)), Kept(v));
  }

  /** A finished reconcile: the release stage left `k`, and then every requested hostname was provisioned. */
  lemma FinishedMeans(w: World, v: View, env: Env, ch: Choices, k: View)
    requires Underway(w, v, env, ch) && Work(v, env, ch).outcome == Finished && k == AfterRelease(v, env, ch).view
    ensures ch.selection.Some? && AllowedFrom(k, ch) && ViewOk(k) && AllHaveHosts(k) && SameSet(k.bms, v.bms)
    ensures k.bms.status ==
            map h | h in v.bms.status && v.bms.status[h].bmhRef in v.hosts && h in v.bms.spec.hosts :: v.bms.status[h]
    ensures k.hosts.Keys == v.hosts.Keys
    ensures
      var targets := Targets(v.bms.name, ch);
      && targets.Keys == v.bms.spec.hosts.Keys && GoodTargets(k, targets)
      && Provided(k, Work(v, env, ch).view, targets, targets.Keys, ImageFor(v.bms.spec, env.serverStatus))
  {
    FinishedStages(v, env, ch);
    KeptIsOk(w, v, env, ch);
    StatusOfKept(v);
    TargetsMayBeProvisioned(k, ch);
    LoopProvides(k, Targets(v.bms.name, ch), ch.order, ImageFor(v.bms.spec, env.serverStatus), env.failing);
    assert v.bms.spec.hosts.Keys + k.bms.status.Keys == v.bms.spec.hosts.Keys;
  }

  /** The host of hostname `h`, by the status. */
  function RefOf(v: View, h: string): string {
    if h in v.bms.status then v.bms.status[h].bmhRef else ""
  }

  /** Hostname `h` has an existing, claimed host, last seen in its current state. */
  ghost predicate ServedAs(v: View, h: string) {
    && h in v.bms.status && RefOf(v, h) in v.hosts && HeldAs(v.hosts[RefOf(v, h)], v.bms, h)
    && v.bms.status[h].state == v.hosts[RefOf(v, h)].state
  }

  lemma HostnameServed(k: View, v': View, targets: map<string, Host>, h: string, image: Image)
    requires GoodTargets(k, targets) && h in targets && Provided(k, v', targets, targets.Keys, image) && ViewOk(v')
    ensures ServedAs(v', h) && RefOf(v', h) == targets[h].name
    ensures h in k.bms.status ==> RefOf(v', h) == RefOf(k, h)
  {
    assert ProvidedOne(k, v', targets[h].name, h, image);
    assert MayProvision(k, targets[h].name, h);
    assert EntryOk(v'.hosts, v'.bms, h);
  }

  /** The status names exactly the hostnames of the spec, each with its own host. */
  ghost predicate FullyServed(v: View) {
    && v.bms.status.Keys == v.bms.spec.hosts.Keys
    && DistinctRefs(v.bms.status)
    && forall h | h in v.bms.spec.hosts :: ServedAs(v, h)
  }

  lemma AllServed(k: View, v': View, targets: map<string, Host>, image: Image)
    requires GoodTargets(k, targets) && Provided(k, v', targets, targets.Keys, image) && ViewOk(v')
    requires k.bms.status.Keys <= targets.Keys == v'.bms.spec.hosts.Keys
    ensures FullyServed(v')
  {
    forall h | h in targets ensures ServedAs(v', h) {
      HostnameServed(k, v', targets, h, image);
    }
  }

  /**
   Success: the status names exactly the requested hostnames, each with its own
   existing host that carries the claim; hostnames that had a host keep it.
   */
  lemma SuccessGivesEveryHostnameItsHost(w: World, v: View, env: Env, ch: Choices)
    requires Underway(w, v, env, ch) && Work(v, env, ch).outcome == Finished
    ensures
      var v' := Work(v, env, ch).view;
      && SameSet(v'.bms, v.bms) && FullyServed(v')
      && forall h | h in v.bms.spec.hosts && HasHost(v, h) :: RefOf(v', h) == RefOf(v, h)
  {
    var v', k := Work(v, env, ch).view, AfterRelease(v, env, ch).view;
    FinishedMeans(w, v, env, ch, k);
    WorkKeepsInv(w, v, env, ch);
    InvGivesViewOk(Put(w, v'), v');
    AllServed(k, v', Targets(v.bms.name, ch), ImageFor(v.bms.spec, env.serverStatus));
    forall h | h in v.bms.spec.hosts && HasHost(v, h) ensures RefOf(v', h) == RefOf(v, h) {
      assert h in k.bms.status;
      HostnameServed(k, v', Targets(v.bms.name, ch), h, ImageFor(v.bms.spec, env.serverStatus));
    }
  }

  /** The host after the release stage: unclaimed if its hostname is no longer asked for. */
  function AfterDrop(s: BaremetalSet, x: Host): Host {
    if Owned(s, x) && HostnameIn(x, s) !in s.spec.hosts then Unclaim(s, HostnameIn(x, s), x) else x
  }

  lemma KeptHost(v: View, n: string)
    requires ViewOk(v) && n in v.hosts
    ensures n in Kept(v).hosts && Kept(v).hosts[n] == AfterDrop(v.bms, v.hosts[n])
  {
    var x := v.hosts[n];
    if Owned(v.bms, x) {
      assert HostOk(n, x);
      OwnedHostname(v, x);
    }
  }

  lemma ProvidedHost(k: View, v': View, targets: map<string, Host>, n: string, image: Image)
    requires GoodTargets(k, targets) && Provided(k, v', targets, targets.Keys, image) && ViewOk(v') && n in k.hosts
    requires k.bms.status.Keys <= targets.Keys
    ensures (forall h | h in v'.bms.status :: RefOf(v', h) != n) ==> v'.hosts[n] == k.hosts[n]
    ensures forall h | h in v'.bms.status && RefOf(v', h) == n :: v'.hosts[n] == Claim(k.bms, h, image, k.hosts[n])
  {
    if Targeted(targets, targets.Keys, n) {
      var h :| h in targets.Keys && targets[h].name == n;
      HostnameServed(k, v', targets, h, image);
    }
    forall h | h in v'.bms.status && RefOf(v', h) == n
      ensures v'.hosts[n] == Claim(k.bms, h, image, k.hosts[n])
    {
      HostnameServed(k, v', targets, h, image);
      assert ProvidedOne(k, v', targets[h].name, h, image);
    }
  }

  /**
   Success touches no more than it must: the hosts the status names afterwards
   are claimed for their hostname; every other host is as before, except that
   those owned under a dropped hostname are released.
   */
  lemma SuccessTouchesOnlyItsHosts(w: World, v: View, env: Env, ch: Choices, n: string)
    requires Underway(w, v, env, ch) && Work(v, env, ch).outcome == Finished && n in v.hosts
    ensures
      var v', base := Work(v, env, ch).view, AfterDrop(v.bms, v.hosts[n]);
      var image := ImageFor(v.bms.spec, env.serverStatus);
      && n in v'.hosts
      && ((forall h | h in v'.bms.status :: RefOf(v', h) != n) ==> v'.hosts[n] == base)
      && (forall h | h in v'.bms.status && RefOf(v', h) == n :: v'.hosts[n] == Claim(v.bms, h, image, base))
  {
    var v', k, image := Work(v, env, ch).view, AfterRelease(v, env, ch).view, ImageFor(v.bms.spec, env.serverStatus);
    FinishedMeans(w, v, env, ch, k);
    KeptIsOk(w, v, env, ch);
    WorkKeepsInv(w, v, env, ch);
    InvGivesViewOk(Put(w, v'), v');
    InvGivesViewOk(w, v);
    KeptHost(v, n);
    ProvidedHost(k, v', Targets(v.bms.name, ch), n, image);
    forall h | h in v'.bms.status ensures Claim(k.bms, h, image, k.hosts[n]) == Claim(v.bms, h, image, k.hosts[n]) {
      SameClaim(k.bms, v.bms, h, image, k.hosts[n]);
    }
  }

  // ---------------------------------------------------------------- repeating a reconcile

  /** Provisioning hostname `h` again with this image would change neither its host nor its entry. */
  ghost predicate FixedAs(v: View, h: string, image: Image) {
    && h in v.bms.status && v.bms.status[h].bmhRef in v.hosts
    && var x := v.hosts[v.bms.status[h].bmhRef];
       Claim(v.bms, h, image, x) == x && Entry(v.bms, h, x.name, x.state) == v.bms.status[h]
  }

  /** Nothing is left to do. */
  ghost predicate Settled(v: View, image: Image) {
    && ViewOk(v) && v.bms.status.Keys == v.bms.spec.hosts.Keys
    && forall h | h in v.bms.status :: FixedAs(v, h, image)
  }

  lemma ClaimIsIdempotent(s: BaremetalSet, t: BaremetalSet, h: string, image: Image, x: Host)
    requires SameSet(s, t)
    ensures Claim(t, h, image, Claim(s, h, image, x)) == Claim(s, h, image, x)
  {
  }

  lemma EntryIsIdempotent(s: BaremetalSet, t: BaremetalSet, h: string, n: string, observed: ProvisioningState)
    requires SameSet(s, t) && h in t.status && t.status[h] == Entry(s, h, n, observed)
    ensures Entry(t, h, n, observed) == t.status[h]
  {
  }

  lemma ServedIsFixed(k: View, v': View, c: Conditions, targets: map<string, Host>, h: string, image: Image)
    requires GoodTargets(k, targets) && h in targets && Provided(k, v', targets, targets.Keys, image) && ViewOk(v')
    ensures FixedAs(SetConditions(v', c), h, image)
  {
    var n, s' := targets[h].name, SetConditions(v', c).bms;
    HostnameServed(k, v', targets, h, image);
    assert ProvidedOne(k, v', n, h, image);
    assert HostOk(n, v'.hosts[n]);
    ClaimIsIdempotent(k.bms, s', h, image, k.hosts[n]);
    EntryIsIdempotent(k.bms, s', h, n, k.hosts[n].state);
  }

  lemma ConditionsDoNotMatter(v: View, c: Conditions)
    requires ViewOk(v)
    ensures ViewOk(SetConditions(v, c))
  {
  }

  lemma SuccessSettles(w: World, v: View, env: Env, ch: Choices, c: Conditions)
    requires Underway(w, v, env, ch) && Work(v, env, ch).outcome == Finished
    ensures Settled(SetConditions(Work(v, env, ch).view, c), ImageFor(v.bms.spec, env.serverStatus))
  {
    var v', k, image := Work(v, env, ch).view, AfterRelease(v, env, ch).view, ImageFor(v.bms.spec, env.serverStatus);
    FinishedMeans(w, v, env, ch, k);
    WorkKeepsInv(w, v, env, ch);
    InvGivesViewOk(Put(w, v'), v');
    ConditionsDoNotMatter(v', c);
    AllServed(k, v', Targets(v.bms.name, ch), image);
    forall h | h in v'.bms.status ensures FixedAs(SetConditions(v', c), h, image) {
      ServedIsFixed(k, v', c, Targets(v.bms.name, ch), h, image);
    }
  }

  lemma SettledHasHosts(v: View, image: Image)
    requires Settled(v, image)
    ensures AllHaveHosts(v) && Sync(v) == v && Dropped(v) == {}
  {
    forall h | h in v.bms.status ensures HasHost(v, h) {
      assert FixedAs(v, h, image);
    }
    assert SyncedStatus(v.hosts, v.bms.status) == v.bms.status;
  }

  lemma NothingToRelease(v: View, owned: seq<Host>)
    requires ViewOk(v) && IsList(owned, v.hosts, OwnerLabels(v.bms)) && Dropped(v) == {}
    ensures ToRelease(owned, v.bms.name, v.bms.spec.hosts) == []
  {
    ToReleaseIsDropped(v, owned);
    SomethingInside(ToRelease(owned, v.bms.name, v.bms.spec.hosts));
  }

  lemma SettledStages(v: View, env: Env, ch: Choices, image: Image)
    requires Settled(v, image) && Allowed(v, env, ch)
    requires env.syncListed && env.ownedListed
    ensures Sync(v) == v && AfterRelease(v, env, ch) == Releasing(v, ReleaseDone) && AllHaveHosts(v)
  {
    SettledHasHosts(v, image);
    NothingToRelease(v, ch.owned);
  }

  lemma SomethingInside(names: seq<string>)
    ensures names != [] ==> Elements(names) != {}
  {
    if names != [] {
      assert names[0] in Elements(names);
    }
  }

  lemma {:induction false} ProvisionAllFixed(
    v: View, targets: map<string, Host>, order: seq<string>, image: Image, failing: set<string>)
    requires HostsOk(v.hosts)
    requires forall h | h in order :: h in targets && FixedAs(v, h, image) && targets[h].name == v.bms.status[h].bmhRef
    ensures ProvisionAll(v, targets, order, image, failing).view == v
    decreases |order|
  {
    if order != [] {
      var h := order[0];
      assert h in order;
      var n := v.bms.status[h].bmhRef;
      assert HostOk(n, v.hosts[n]);
      assert v.hosts[n := v.hosts[n]] == v.hosts && v.bms.status[h := v.bms.status[h]] == v.bms.status;
      assert Provision(v, n, h, image, true).view == v;
      ProvisionAllFixed(v, targets, order[1..], image, failing);
    }
  }

  lemma NoNewComputes(v: View, ch: Choices)
    requires v.bms.status.Keys == v.bms.spec.hosts.Keys && AllowedFrom(v, ch)
    ensures ch.selection == Some(map[])
  {
    var computes := NewComputes(v.bms.spec.hosts, v.bms.status);
    var pool := EligibleAmong(v.bms.spec.hardwareReqs, Elements(ch.pool));
    assert computes == map[];
    assert ValidAssignment(map[], computes, pool);
  }

  lemma SettledTargetsAre(v: View, ch: Choices)
    requires ViewOk(v) && AllHaveHosts(v) && AllowedFrom(v, ch) && v.bms.status.Keys == v.bms.spec.hosts.Keys
    ensures ch.selection.Some? && Targets(v.bms.name, ch) == HostsByStatus(v)
  {
    NoNewComputes(v, ch);
    ExistingHostsIsStatus(v, ch.kept);
  }

  lemma SettledTarget(v: View, targets: map<string, Host>, h: string, image: Image)
    requires Settled(v, image) && targets == HostsByStatus(v) && h in targets
    ensures FixedAs(v, h, image) && targets[h].name == v.bms.status[h].bmhRef
  {
    assert HostOk(v.bms.status[h].bmhRef, v.hosts[v.bms.status[h].bmhRef]);
  }

  lemma SettledTargets(v: View, ch: Choices, image: Image)
    requires Settled(v, image) && AllHaveHosts(v) && AllowedFrom(v, ch)
    requires ch.selection.Some? ==> Enumerates(ch.order, Targets(v.bms.name, ch).Keys)
    ensures ch.selection.Some?
    ensures
      var targets := Targets(v.bms.name, ch);
      forall h | h in ch.order :: h in targets && FixedAs(v, h, image) && targets[h].name == v.bms.status[h].bmhRef
  {
    SettledTargetsAre(v, ch);
    var targets := Targets(v.bms.name, ch);
    forall h | h in ch.order
      ensures h in targets && FixedAs(v, h, image) && targets[h].name == v.bms.status[h].bmhRef
    {
      SettledTarget(v, targets, h, image);
    }
  }

  /** From a settled view a reconcile changes no host and no status entry, whatever fails on the way. */
  lemma SettledStaysPut(v: View, env: Env, ch: Choices)
    requires Settled(v, ImageFor(v.bms.spec, env.serverStatus)) && Allowed(v, env, ch)
    ensures Work(v, env, ch).view == v
  {
    var image := ImageFor(v.bms.spec, env.serverStatus);
    SettledHasHosts(v, image);
    if env.syncListed && env.ownedListed {
      SettledStages(v, env, ch, image);
      if env.poolListed {
        SettledTargets(v, ch, image);
        ProvisionAllFixed(v, Targets(v.bms.name, ch), ch.order, image, env.failing);
      }
    }
  }

  /** A reconcile of `v` in the consistent world `w`. */
  ghost predicate Reconciling(w: World, v: View, env: Env, ch: Choices) {
    && Inv(w) && Sees(w, v)
    && Allowed(Entered(v, env), env, ch)
    && (Gates(v.bms.spec, env).stop.None? ==> ReleasesSafe(Entered(v, env), env, ch))
  }

  lemma ConditionsKeepInv(w: World, v: View, c: Conditions)
    requires Inv(w) && Sees(w, v)
    ensures Inv(Put(w, SetConditions(v, c)))
  {
    ConditionsDoNotMatter(v, c);
    PutKeepsInv(w, SetConditions(v, c));
  }

  lemma EnteringKeepsInv(w: World, v: View, env: Env, ch: Choices)
    requires Reconciling(w, v, env, ch) && Gates(v.bms.spec, env).stop.None?
    ensures Underway(Put(w, Entered(v, env)), Entered(v, env), env, ch)
  {
    ConditionsKeepInv(w, v, Gates(v.bms.spec, env).conditions);
  }

  /** An immediate second reconcile changes no host and no entry; if it gets to the end, not even a condition. */
  lemma SecondReconcileChangesNothing(w: World, v: View, env: Env, ch: Choices, env': Env, ch': Choices)
    requires Reconciling(w, v, env, ch) && Reconciled(v, env, ch).outcome == Finished
    requires env'.serverStatus == env.serverStatus
    requires Gates(v.bms.spec, env').stop.None?
    requires Allowed(Entered(Reconciled(v, env, ch).view, env'), env', ch')
    ensures
      var v', r := Reconciled(v, env, ch).view, Reconciled(Reconciled(v, env, ch).view, env', ch');
      && SameSet(v'.bms, v.bms)
      && r.view == SetConditions(v', r.view.bms.conditions)
      && (r.outcome == Finished ==> r.view == v')
  {
    var e, v' := Entered(v, env), Reconciled(v, env, ch).view;
    FinishedHasPassed(v, env, ch);
    EnteringKeepsInv(w, v, env, ch);
    WorkKeepsInv(Put(w, e), e, env, ch);
    var c' := Gates(v.bms.spec, env').conditions;
    SuccessSettles(Put(w, e), e, env, ch, c');
    assert Entered(v', env') == SetConditions(Work(e, env, ch).view, c');
    SettledStaysPut(Entered(v', env'), env', ch');
    PassedGates(v.bms.spec, env);
    PassedGates(v.bms.spec, env');
  }

  lemma FinishedHasPassed(v: View, env: Env, ch: Choices)
    requires ch.selection.Some? ==> forall h | h in ch.order :: h in Targets(v.bms.name, ch)
    requires Reconciled(v, env, ch).outcome == Finished
    ensures Gates(v.bms.spec, env).stop.None? && Work(Entered(v, env), env, ch).outcome == Finished
  {
  }

  lemma PassedGates(spec: SetSpec, env: Env)
    requires Gates(spec, env).stop.None?
    ensures Gates(spec, env).conditions == Conditions(Unknown, True, True, Unknown)
  {
  }

  // ---------------------------------------------------------------- the gates and the Ready condition

  predicate SecretsAvailable(spec: SetSpec, env: Env) {
    env.sshSecret == Found && (spec.passwordSecret.Some? ==> env.passwordSecret == Found)
  }

  predicate ImageAvailable(spec: SetSpec, env: Env) {
    match spec.deployment
    case PassThrough => spec.containerImageUrl != ""
    case SelfExtracting =>
      env.server == Found && env.serverStatus.localImageUrl != "" && env.serverStatus.checksumUrl != ""
  }

  /**
   The gates open exactly when the secrets and the image of the deployment mode are
   there; a closed gate leaves hosts and status alone and is visible in a condition.
   */
  lemma GatesOpenExactly(v: View, env: Env, ch: Choices)
    requires ch.selection.Some? ==> forall h | h in ch.order :: h in Targets(v.bms.name, ch)
    ensures Gates(v.bms.spec, env).stop.None? <==> SecretsAvailable(v.bms.spec, env) && ImageAvailable(v.bms.spec, env)
    ensures Gates(v.bms.spec, env).stop.Some? ==>
              var v' := Reconciled(v, env, ch).view;
              && v' == SetConditions(v, v'.bms.conditions) && v'.bms.conditions.ready == Unknown
              && (v'.bms.conditions.inputReady == False || v'.bms.conditions.serverReady == False)
  {
  }

  lemma ReadyFromOutcome(v: View, env: Env, ch: Choices)
    requires Allowed(Entered(v, env), env, ch)
    ensures
      var r := Reconciled(v, env, ch);
      r.view.bms.conditions.ready == True <==>
      Gates(v.bms.spec, env).stop.None? && r.outcome == Finished && AllProvisioned(r.view.bms.status)
  {
    if Gates(v.bms.spec, env).stop.None? {
      PassedGates(v.bms.spec, env);
    }
  }

  /** If Ready is set, every requested hostname has its own host, which is provisioned; and the image gate held. */
  lemma ReadyMeansProvisioned(w: World, v: View, env: Env, ch: Choices)
    requires Reconciling(w, v, env, ch) && Reconciled(v, env, ch).view.bms.conditions.ready == True
    ensures
      var v' := Reconciled(v, env, ch).view;
      && v'.bms.status.Keys == v.bms.spec.hosts.Keys && DistinctRefs(v'.bms.status)
      && forall h | h in v.bms.spec.hosts ::
           && RefOf(v', h) in v'.hosts && HeldAs(v'.hosts[RefOf(v', h)], v.bms, h)
           && v'.hosts[RefOf(v', h)].state == Provisioned
    ensures SecretsAvailable(v.bms.spec, env) && ImageAvailable(v.bms.spec, env)
  {
    ReadyFromOutcome(v, env, ch);
    GatesOpenExactly(v, env, ch);
    var e := Entered(v, env);
    EnteringKeepsInv(w, v, env, ch);
    SuccessGivesEveryHostnameItsHost(Put(w, e), e, env, ch);
    ServedAndProvisioned(Work(e, env, ch).view, v.bms);
  }

  lemma ServedAndProvisioned(r: View, s: BaremetalSet)
    requires FullyServed(r) && SameSet(r.bms, s) && AllProvisioned(r.bms.status)
    ensures forall h | h in s.spec.hosts ::
              RefOf(r, h) in r.hosts && HeldAs(r.hosts[RefOf(r, h)], s, h) && r.hosts[RefOf(r, h)].state == Provisioned
  {
  }
}
