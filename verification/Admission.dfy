/**
 The OpenStackBaremetalSet webhook, and what its verdict promises about the next
 reconcile.
 */
module Admission {
  import opened Types
  import opened Allocation
  import opened ScaleUp
  import opened Lifecycle
  import opened Reconcile
  import opened Ownership
  import opened Stages
  import opened Guarantees
  import opened Controller

  // ---------------------------------------------------------------- the verdicts

  predicate InNamespace(r: Option<SecretRef>, namespace: string) {
    r.None? || r.value.namespace == namespace
  }

  predicate SecretNamespacesOk(s: BaremetalSet) {
    && InNamespace(s.spec.passwordSecret, s.namespace)
    && forall h | h in s.spec.hosts ::
         && InNamespace(s.spec.hosts[h].networkData, s.spec.bmhNamespace)
         && InNamespace(s.spec.hosts[h].userData, s.spec.bmhNamespace)
  }

  /** Selector and hardware requests may change only when no host was requested before. */
  predicate TemplateOk(spec: SetSpec, previous: SetSpec) {
    |previous.hosts| > 0 ==> spec.selector == previous.selector && spec.hardwareReqs == previous.hardwareReqs
  }

  ghost predicate CreateAccepted(hosts: HostMap, s: BaremetalSet) {
    SecretNamespacesOk(s) && CanScaleUp(hosts, s.spec, s.status)
  }

  /** `s` is the updated object with its current status; the scale-up check runs only if the count grows. */
  ghost predicate UpdateAccepted(hosts: HostMap, s: BaremetalSet, previous: SetSpec) {
    && TemplateOk(s.spec, previous) && SecretNamespacesOk(s)
    && (|s.spec.hosts| > |previous.hosts| ==> CanScaleUp(hosts, s.spec, SyncedStatus(hosts, s.status)))
  }

  // ---------------------------------------------------------------- the operations

  method ValidateSecretNamespaces(s: BaremetalSet) returns (ok: bool)
    ensures ok <==> SecretNamespacesOk(s)
  {
    var withIssue: seq<string> := [];
    if s.spec.passwordSecret.Some? && s.spec.passwordSecret.value.namespace != s.namespace {
      withIssue := withIssue + [s.spec.passwordSecret.value.name];
    }
    ghost var passwordOk := InNamespace(s.spec.passwordSecret, s.namespace);
    var order := Range(s.spec.hosts.Keys);
    for i := 0 to |order|
      invariant |withIssue| == 0 <==>
                passwordOk && forall j | 0 <= j < i :: order[j] in s.spec.hosts &&
                                InNamespace(s.spec.hosts[order[j]].networkData, s.spec.bmhNamespace) &&
                                InNamespace(s.spec.hosts[order[j]].userData, s.spec.bmhNamespace)
    {
      assert order[i] in s.spec.hosts.Keys;
      var host := s.spec.hosts[order[i]];
      if host.networkData.Some? && host.networkData.value.namespace != s.spec.bmhNamespace {
        withIssue := withIssue + [host.networkData.value.name];
      }
      if host.userData.Some? && host.userData.value.namespace != s.spec.bmhNamespace {
        withIssue := withIssue + [host.userData.value.name];
      }
    }
    assert forall h | h in s.spec.hosts :: h in order;
    return |withIssue| == 0;
  }

  method ScaleUpAdmits(api: ApiServer, spec: SetSpec, status: StatusMap, inUse: seq<Host>) returns (ok: bool)
    requires Named(api.hosts)
    ensures ok <==> CanScaleUp(api.hosts, spec, status)
  {
    var items := api.List(spec.selector);
    var r := VerifyBaremetalSetScaleUp(spec, status, items, inUse);
    ListGivesPool(items, api.hosts, spec);
    return r.Selected?;
  }

  method ValidateCreate(api: ApiServer, inst: Instance, nameOk: bool, listed: bool) returns (accepted: bool)
    requires Named(api.hosts)
    ensures accepted <==> nameOk && listed && CreateAccepted(api.hosts, inst.Value())
  {
    if !nameOk {
      return false;
    }
    var secretsOk := ValidateSecretNamespaces(inst.Value());
    if !secretsOk || !listed {
      return false;
    }
    accepted := ScaleUpAdmits(api, inst.spec, inst.status, []);
  }

  /** Syncs the status of the submitted object on the way whenever the count changes. */
  method ValidateUpdate(api: ApiServer, inst: Instance, oldSpec: SetSpec, listed: bool) returns (accepted: bool)
    requires Named(api.hosts)
    modifies inst`status
    ensures accepted <==>
            && UpdateAccepted(api.hosts, old(inst.Value()), oldSpec)
            && (|inst.spec.hosts| == |oldSpec.hosts| || listed)
    ensures inst.status == old(inst.status) || inst.status == SyncedStatus(api.hosts, old(inst.status))
  {
    if !TemplateOk(inst.spec, oldSpec) {
      return false;
    }
    var secretsOk := ValidateSecretNamespaces(inst.Value());
    if !secretsOk {
      return false;
    }
    if |inst.spec.hosts| != |oldSpec.hosts| {
      if !listed {
        return false;
      }
      VerifyAndSyncStatus(api, inst);
      if |inst.spec.hosts| > |oldSpec.hosts| {
        var existing := api.List(OwnerLabels(inst.Value()));
        accepted := ScaleUpAdmits(api, inst.spec, inst.status, existing);
        return;
      }
    }
    return true;
  }

  // ---------------------------------------------------------------- what is let through and what is not

  /** Every secret is where it has to be: the password with the set, the cloud-init data with the hosts. */
  ghost predicate SecretsInPlace(s: BaremetalSet) {
    && (forall r | s.spec.passwordSecret == Some(r) :: r.namespace == s.namespace)
    && (forall h, r | h in s.spec.hosts && s.spec.hosts[h].userData == Some(r) :: r.namespace == s.spec.bmhNamespace)
    && (forall h, r | h in s.spec.hosts && s.spec.hosts[h].networkData == Some(r) :: r.namespace == s.spec.bmhNamespace)
  }

  lemma SecretsInPlaceExactly(s: BaremetalSet)
    ensures SecretNamespacesOk(s) <==> SecretsInPlace(s)
  {
  }

  /** A new set is accepted exactly when its secrets are in place and all hosts it asks for can be matched at once. */
  lemma CreationIsAcceptedExactly(hosts: HostMap, s: BaremetalSet)
    requires s.status == map[]
    ensures CreateAccepted(hosts, s) <==> SecretsInPlace(s) && Feasible(s.spec.hosts, CandidatePool(hosts, s.spec))
  {
    SecretsInPlaceExactly(s);
    assert NewComputes(s.spec.hosts, s.status) == s.spec.hosts;
  }

  /** An update that asks for no more hosts under the same template goes through, whatever else it changes. */
  lemma OrdinaryUpdateIsAccepted(hosts: HostMap, s: BaremetalSet, previous: SetSpec)
    requires s.spec.selector == previous.selector && s.spec.hardwareReqs == previous.hardwareReqs
    requires |s.spec.hosts| <= |previous.hosts| && SecretsInPlace(s)
    ensures UpdateAccepted(hosts, s, previous)
  {
    SecretsInPlaceExactly(s);
  }

  /** A set without hosts before may change its template as well, if what it asks for now fits. */
  lemma FirstHostsMayChangeTemplate(hosts: HostMap, s: BaremetalSet, previous: SetSpec)
    requires previous.hosts == map[] && SecretsInPlace(s) && CanScaleUp(hosts, s.spec, SyncedStatus(hosts, s.status))
    ensures UpdateAccepted(hosts, s, previous)
  {
    SecretsInPlaceExactly(s);
  }

  /** A changed template on a set with hosts, or a misplaced secret, is refused. */
  lemma BadUpdateIsRefused(hosts: HostMap, s: BaremetalSet, previous: SetSpec, h: string)
    requires
      || (h in previous.hosts && s.spec.selector != previous.selector)
      || (h in previous.hosts && s.spec.hardwareReqs != previous.hardwareReqs)
      || !SecretsInPlace(s)
    ensures !UpdateAccepted(hosts, s, previous)
  {
    SecretsInPlaceExactly(s);
    if h in previous.hosts {
      assert |previous.hosts| > 0 by {
        assert h in previous.hosts.Keys;
      }
    }
  }

  // ---------------------------------------------------------------- admission implies allocation

  /** A host the scale-up check could pick is untouched by the release stage. */
  lemma CandidatesSurvive(v: View, n: string)
    requires ViewOk(v) && n in v.hosts && v.hosts[n].consumerRef.None?
    ensures n in Kept(v).hosts && Kept(v).hosts[n] == v.hosts[n]
  {
  }

  lemma CandidateIsCovered(v: View, x: Host)
    requires ViewOk(v) && x in CandidatePool(v.hosts, v.bms.spec)
    ensures Covered(x, CandidatePool(Kept(v).hosts, v.bms.spec))
  {
    var spec := v.bms.spec;
    var n :| && n in v.hosts && v.hosts[n] == x
             && Subset(spec.selector, v.hosts[n].labels) && Eligible(spec.hardwareReqs, v.hosts[n]);
    CandidatesSurvive(v, n);
    assert StandsFor(x, x);
  }

  lemma SameNewComputes(v: View)
    ensures NewComputes(v.bms.spec.hosts, Kept(v).bms.status) ==
            NewComputes(v.bms.spec.hosts, SyncedStatus(v.hosts, v.bms.status))
  {
    StatusOfKept(v);
  }

  /** Between admission and selection the new computes stay the same and no candidate is lost. */
  lemma ReleaseStageHelps(v: View)
    requires ViewOk(v) && CanScaleUp(v.hosts, v.bms.spec, SyncedStatus(v.hosts, v.bms.status))
    ensures CanScaleUp(Kept(v).hosts, v.bms.spec, Kept(v).bms.status)
  {
    var spec, k := v.bms.spec, Kept(v);
    SameNewComputes(v);
    forall x | x in CandidatePool(v.hosts, spec) ensures Covered(x, CandidatePool(k.hosts, spec)) {
      CandidateIsCovered(v, x);
    }
    FeasibleIsMonotone(NewComputes(spec.hosts, k.bms.status), CandidatePool(k.hosts, spec),
                       NewComputes(spec.hosts, k.bms.status), CandidatePool(v.hosts, spec));
  }

  /** If the reconcile gets as far as selecting hosts, the selection fails exactly when no assignment exists then. */
  lemma SelectionFailsExactly(w: World, v: View, env: Env, ch: Choices)
    requires Underway(w, v, env, ch)
    requires env.syncListed && env.ownedListed && env.poolListed && AfterRelease(v, env, ch).result == ReleaseDone
    ensures Work(v, env, ch).outcome == Failed(SelectionStage) <==>
            !CanScaleUp(Kept(v).hosts, v.bms.spec, Kept(v).bms.status)
  {
    ReleaseStageKeepsInv(w, v, env, ch);
    var k := Kept(v);
    InvGivesViewOk(Put(w, k), k);
    assert AllowedFrom(k, ch);
    ListGivesPool(ch.pool, k.hosts, k.bms.spec);
  }

  /** What the webhook checked holds at the time of selection, so selection cannot fail. */
  lemma AdmissionImpliesSelection(w: World, v: View, env: Env, ch: Choices)
    requires Reconciling(w, v, env, ch)
    requires CanScaleUp(v.hosts, v.bms.spec, SyncedStatus(v.hosts, v.bms.status))
    ensures Reconciled(v, env, ch).outcome != Failed(SelectionStage)
  {
    if Gates(v.bms.spec, env).stop.None? {
      var e := Entered(v, env);
      EnteringKeepsInv(w, v, env, ch);
      var w' := Put(w, e);
      if env.syncListed && env.ownedListed && env.poolListed && AfterRelease(e, env, ch).result == ReleaseDone {
        InvGivesViewOk(w', e);
        ReleaseStageHelps(e);
        SelectionFailsExactly(w', e, env, ch);
      }
    }
  }

  /** An accepted new set does not fail at host selection in its next reconcile on the same hosts. */
  lemma AcceptedCreateIsSelectable(w: World, v: View, env: Env, ch: Choices)
    requires Reconciling(w, v, env, ch) && v.bms.status == map[]
    requires CreateAccepted(v.hosts, v.bms)
    ensures Reconciled(v, env, ch).outcome != Failed(SelectionStage)
  {
    assert SyncedStatus(v.hosts, v.bms.status) == v.bms.status;
    AdmissionImpliesSelection(w, v, env, ch);
  }

  /** Nor does a set whose accepted update asks for more hosts than before. */
  lemma AcceptedGrowthIsSelectable(w: World, v: View, oldSpec: SetSpec, env: Env, ch: Choices)
    requires Reconciling(w, v, env, ch)
    requires UpdateAccepted(v.hosts, v.bms, oldSpec) && |v.bms.spec.hosts| > |oldSpec.hosts|
    ensures Reconciled(v, env, ch).outcome != Failed(SelectionStage)
  {
    AdmissionImpliesSelection(w, v, env, ch);
  }

  lemma NothingListed(items: seq<Host>, selector: Labels)
    requires IsList(items, map[], selector)
    ensures items == []
  {
    HeadIsInside(items);
  }

  lemma HeadIsInside(items: seq<Host>)
    ensures items != [] ==> items[0] in items
  {
  }

  /** Without growth the promise fails: a swap of hostnames is accepted although there is no host for the new one. */
  lemma SwapIsAcceptedUnchecked(s: BaremetalSet, oldSpec: SetSpec, env: Env, ch: Choices)
    requires s.status == map[] && oldSpec.hosts == map["a" := NO_COMPUTE]
    requires s.spec == oldSpec.(hosts := map["b" := NO_COMPUTE])
    requires s.spec.passwordSecret.None? && Gates(s.spec, env).stop.None?
    requires env.syncListed && env.ownedListed && env.poolListed
    requires Allowed(Entered(View(map[], s), env), env, ch)
    ensures UpdateAccepted(map[], s, oldSpec)
    ensures Reconciled(View(map[], s), env, ch).outcome == Failed(SelectionStage)
  {
    var e := Entered(View(map[], s), env);
    assert |s.spec.hosts| == 1 && |oldSpec.hosts| == 1;
    assert IsList(ch.owned, e.hosts, OwnerLabels(e.bms));
    NothingListed(ch.owned, OwnerLabels(e.bms));
    assert Sync(e).bms.status == map[];
    assert AfterRelease(e, env, ch) == Releasing(Sync(e), ReleaseDone);
    assert AllowedFrom(Sync(e), ch);
    if ch.selection.Some? {
      assert "b" in NewComputes(s.spec.hosts, map[]);
      assert "b" in ch.selection.value;
      SelectedMayBeProvisioned(Sync(e), ch, "b");
    }
  }
}
