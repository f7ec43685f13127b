/**
 What one reconcile can do to one host, wherever it stops; and what follows:
 provisioning data is written once, other owners' hosts are left alone, and a
 newly claimed host was eligible when it was selected.
 */
module Effects {
  import opened Types
  import opened Allocation
  import opened ScaleUp
  import opened Lifecycle
  import opened Reconcile
  import opened Ownership
  import opened Stages
  import opened Guarantees

  /** `x` was free, or owned under a dropped hostname, and was selected for the new compute `h`. */
  ghost predicate ClaimedAnew(v: View, x: Host, x': Host, h: string, image: Image) {
    var s, base := v.bms, AfterDrop(v.bms, x);
    && h in s.spec.hosts && !HasHost(v, h)
    && Eligible(s.spec.hardwareReqs, base)
    && Subset(s.spec.selector, base.labels) && Subset(s.spec.hosts[h].selector, base.labels)
    && x' == Claim(s, h, image, base)
  }

  ghost predicate Reprovisioned(v: View, x: Host, x': Host, h: string, image: Image) {
    HeldAs(x, v.bms, h) && h in v.bms.spec.hosts && x' == Claim(v.bms, h, image, x)
  }

  ghost predicate ReleasedFrom(v: View, x: Host, x': Host, h: string) {
    HeldAs(x, v.bms, h) && h !in v.bms.spec.hosts && x' == Unclaim(v.bms, h, x)
  }

  /** Everything a reconcile can do to a host. */
  ghost predicate HostEffect(v: View, x: Host, x': Host, image: Image) {
    || x' == x
    || (exists h :: ReleasedFrom(v, x, x', h))
    || (exists h :: Reprovisioned(v, x, x', h, image))
    || (exists h :: ClaimedAnew(v, x, x', h, image))
  }

  lemma DropEffect(v: View, names: set<string>, n: string)
    requires ViewOk(v) && n in v.hosts && names <= Dropped(v)
    ensures
      var x, x' := v.hosts[n], Without(v, names).hosts[n];
      x' == x || exists h :: ReleasedFrom(v, x, x', h)
  {
    var x, x' := v.hosts[n], Without(v, names).hosts[n];
    ReleasedHost(v, names, n);
    if x' != x {
      var h := HostnameIn(x, v.bms);
      assert EntryOk(v.hosts, v.bms, h);
      assert ReleasedFrom(v, x, x', h);
    }
  }

  /** The provisioning loop, from the view `k` a completed release stage left. */
  lemma ProvisionEffect(
    v: View, k: View, v': View, ch: Choices, targets: map<string, Host>, done: set<string>, n: string, image: Image)
    requires ViewOk(v) && ViewOk(k) && SameSet(k.bms, v.bms) && n in v.hosts
    requires n in k.hosts && k.hosts[n] == AfterDrop(v.bms, v.hosts[n])
    requires forall h :: h in k.bms.status <==> HasHost(v, h) && h in v.bms.spec.hosts
    requires AllowedFrom(k, ch) && ch.selection.Some? && done <= targets.Keys
    requires forall h | h in targets :: TargetOk(k, ch, h, targets[h])
    requires Provided(k, v', targets, done, image)
    ensures HostEffect(v, v.hosts[n], k.hosts[n], image)
    ensures n in v'.hosts && HostEffect(v, v.hosts[n], v'.hosts[n], image)
  {
    var x, base := v.hosts[n], k.hosts[n];
    if base != x {
      OwnedHostname(v, x);
      HostOfEntry(v, HostnameIn(x, v.bms));
      assert ReleasedFrom(v, x, base, HostnameIn(x, v.bms));
    }
    if Targeted(targets, done, n) {
      var h :| h in done && targets[h].name == n;
      assert ProvidedOne(k, v', n, h, image);
      SameClaim(k.bms, v.bms, h, image, base);
      assert TargetOk(k, ch, h, targets[h]);
      if h in k.bms.status {
        StillTheSame(v, k, h, n);
        assert Reprovisioned(v, x, v'.hosts[n], h, image);
      } else {
        SelectedMayBeProvisioned(k, ch, h);
        assert ClaimedAnew(v, x, v'.hosts[n], h, image);
      }
    }
  }

  lemma StillTheSame(v: View, k: View, h: string, n: string)
    requires ViewOk(v) && ViewOk(k) && SameSet(k.bms, v.bms) && n in v.hosts && n in k.hosts
    requires h in k.bms.status && k.bms.status[h].bmhRef == n && h in v.bms.spec.hosts
    requires k.hosts[n] == AfterDrop(v.bms, v.hosts[n])
    ensures k.hosts[n] == v.hosts[n] && HeldAs(v.hosts[n], v.bms, h)
  {
  }

  /** A reconcile does one of these things to each host, wherever it stops. */
  lemma WorkEffect(w: World, v: View, env: Env, ch: Choices, n: string)
    requires Underway(w, v, env, ch) && n in v.hosts
    ensures
      var v' := Work(v, env, ch).view;
      n in v'.hosts && HostEffect(v, v.hosts[n], v'.hosts[n], ImageFor(v.bms.spec, env.serverStatus))
  {
    var image, s := ImageFor(v.bms.spec, env.serverStatus), Sync(v);
    if env.syncListed && env.ownedListed {
      SynchronisedView(w, v);
      var r := AfterRelease(v, env, ch);
      var names := ToRelease(ch.owned, v.bms.name, v.bms.spec.hosts);
      ReleaseStageIsWithout(s, ch.owned, env.releases);
      ToReleaseIsDropped(s, ch.owned);
      LeadingIsPart(names, Good(s, env.releases));
      DropEffect(s, Leading(names, Good(s, env.releases)), n);
      SyncEffect(v, v.hosts[n], r.view.hosts[n], image);
      if r.result == ReleaseDone && env.poolListed && ch.selection.Some? {
        EnsureEffect(w, v, env, ch, n);
      }
    }
  }

  lemma EnsureEffect(w: World, v: View, env: Env, ch: Choices, n: string)
    requires Underway(w, v, env, ch) && n in v.hosts && env.syncListed && env.ownedListed && env.poolListed
    requires AfterRelease(v, env, ch).result == ReleaseDone && ch.selection.Some?
    ensures
      var v' := Work(v, env, ch).view;
      n in v'.hosts && HostEffect(v, v.hosts[n], v'.hosts[n], ImageFor(v.bms.spec, env.serverStatus))
  {
    var image, targets := ImageFor(v.bms.spec, env.serverStatus), Targets(v.bms.name, ch);
    var k := AfterRelease(v, env, ch).view;
    ReleaseStageKeepsInv(w, v, env, ch);
    InvGivesViewOk(w, v);
    InvGivesViewOk(Put(w, k), k);
    StatusOfKept(v);
    KeptHost(v, n);
    TargetsMayBeProvisioned(k, ch);
    ProvisionAllProvides(k, targets, ch.order, image, env.failing);
    assert forall h :: h in k.bms.status <==> HasHost(v, h) && h in v.bms.spec.hosts;
    ProvisionEffect(v, k, Work(v, env, ch).view, ch, targets, Served(ch.order, env.failing), n, image);
  }

  /** Syncing the status first makes no difference to what happens to a host. */
  lemma SyncEffect(v: View, x: Host, x': Host, image: Image)
    requires x' == x || exists h :: ReleasedFrom(Sync(v), x, x', h)
    ensures HostEffect(v, x, x', image)
  {
    if x' != x {
      var h :| ReleasedFrom(Sync(v), x, x', h);
      assert ReleasedFrom(v, x, x', h);
    }
  }

  lemma ReconcileEffect(w: World, v: View, env: Env, ch: Choices, n: string)
    requires Reconciling(w, v, env, ch) && n in v.hosts
    ensures
      var r := Reconciled(v, env, ch).view;
      && SameSet(r.bms, v.bms) && n in r.hosts
      && HostEffect(Entered(v, env), v.hosts[n], r.hosts[n], ImageFor(v.bms.spec, env.serverStatus))
  {
    if Gates(v.bms.spec, env).stop.None? {
      var e := Entered(v, env);
      EnteringKeepsInv(w, v, env, ch);
      WorkKeepsInv(Put(w, e), e, env, ch);
      WorkEffect(Put(w, e), e, env, ch, n);
    }
  }
}
