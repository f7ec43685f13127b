/**
 When a reconcile gets to its end, and what a reconcile that fails in the
 provisioning loop leaves for the next one.
 */
module Progress {
  import opened Types
  import opened Allocation
  import opened ScaleUp
  import opened Lifecycle
  import opened Reconcile
  import opened Ownership
  import opened Stages
  import opened Guarantees
  import opened Admission

  // ---------------------------------------------------------------- when a reconcile finishes

  ghost predicate AllListed(env: Env) {
    env.syncListed && env.ownedListed && env.poolListed
  }

  /** Every hostname to be dropped can be released. */
  ghost predicate ReleasesGoThrough(v: View, env: Env) {
    forall h | h in Dropped(Sync(v)) :: ApiFor(env.releases, h) == AllWell
  }

  ghost predicate RequestedGoThrough(v: View, env: Env) {
    forall h | h in v.bms.spec.hosts :: h !in env.failing
  }

  lemma ReleaseDoneExactly(w: World, v: View, env: Env, ch: Choices)
    requires Underway(w, v, env, ch) && env.syncListed && env.ownedListed
    ensures AfterRelease(v, env, ch).result == ReleaseDone <==> ReleasesGoThrough(v, env)
  {
    SynchronisedView(w, v);
    ReleaseStageIsWithout(Sync(v), ch.owned, env.releases);
  }

  lemma ReleasedIsKept(w: World, v: View, env: Env, ch: Choices)
    requires Underway(w, v, env, ch) && AllListed(env) && AfterRelease(v, env, ch).result == ReleaseDone
    ensures AfterRelease(v, env, ch).view == Kept(v) && AllowedFrom(Kept(v), ch)
    ensures ViewOk(Kept(v)) && AllHaveHosts(Kept(v))
  {
    ReleaseStageKeepsInv(w, v, env, ch);
    InvGivesViewOk(Put(w, Kept(v)), Kept(v));
  }

  /** With nothing left to drop, what is about to be provisioned is what the spec asks for. */
  lemma TargetsAreRequested(k: View, ch: Choices)
    requires ViewOk(k) && AllHaveHosts(k) && AllowedFrom(k, ch) && ch.selection.Some?
    requires k.bms.status.Keys <= k.bms.spec.hosts.Keys
    ensures
      var targets := Targets(k.bms.name, ch);
      && targets.Keys == k.bms.spec.hosts.Keys && GoodTargets(k, targets)
      && forall h | h in targets :: TargetOk(k, ch, h, targets[h])
  {
    TargetsMayBeProvisioned(k, ch);
    assert k.bms.spec.hosts.Keys + k.bms.status.Keys == k.bms.spec.hosts.Keys;
  }

  lemma ReleasedAndSelected(w: World, v: View, env: Env, ch: Choices)
    requires Underway(w, v, env, ch) && AllListed(env)
    requires AfterRelease(v, env, ch).result == ReleaseDone && ch.selection.Some?
    ensures
      var k, targets := Kept(v), Targets(v.bms.name, ch);
      && AfterRelease(v, env, ch).view == k && ViewOk(k) && AllHaveHosts(k) && AllowedFrom(k, ch)
      && targets.Keys == v.bms.spec.hosts.Keys && GoodTargets(k, targets) && Enumerates(ch.order, targets.Keys)
      && forall h | h in targets :: TargetOk(k, ch, h, targets[h])
  {
    ReleasedIsKept(w, v, env, ch);
    StatusOfKept(v);
    TargetsAreRequested(Kept(v), ch);
  }

  lemma ProvisionedExactly(w: World, v: View, env: Env, ch: Choices)
    requires Underway(w, v, env, ch) && AllListed(env)
    requires AfterRelease(v, env, ch).result == ReleaseDone && ch.selection.Some?
    ensures Work(v, env, ch).outcome == Finished <==> RequestedGoThrough(v, env)
  {
    ReleasedAndSelected(w, v, env, ch);
    LoopProvides(Kept(v), Targets(v.bms.name, ch), ch.order, ImageFor(v.bms.spec, env.serverStatus), env.failing);
  }

  /** The host stages finish exactly when the lists, the releases, the matching and the provisionings all succeed. */
  lemma WorkFinishesExactly(w: World, v: View, env: Env, ch: Choices)
    requires Underway(w, v, env, ch)
    ensures Work(v, env, ch).outcome == Finished <==>
            && AllListed(env) && ReleasesGoThrough(v, env) && RequestedGoThrough(v, env)
            && CanScaleUp(Kept(v).hosts, v.bms.spec, Kept(v).bms.status)
  {
    if AllListed(env) {
      ReleaseDoneExactly(w, v, env, ch);
      if AfterRelease(v, env, ch).result == ReleaseDone {
        SelectionFailsExactly(w, v, env, ch);
        if ch.selection.Some? {
          ProvisionedExactly(w, v, env, ch);
        }
      }
    }
  }

  /** A whole reconcile finishes exactly when in addition the secrets and the image are there. */
  lemma ReconcileFinishesExactly(w: World, v: View, env: Env, ch: Choices)
    requires Reconciling(w, v, env, ch)
    ensures Reconciled(v, env, ch).outcome == Finished <==>
            && SecretsAvailable(v.bms.spec, env) && ImageAvailable(v.bms.spec, env)
            && AllListed(env) && ReleasesGoThrough(v, env) && RequestedGoThrough(v, env)
            && CanScaleUp(Kept(v).hosts, v.bms.spec, Kept(v).bms.status)
  {
    GatesOpenExactly(v, env, ch);
    if Gates(v.bms.spec, env).stop.None? {
      var e := Entered(v, env);
      EnteringKeepsInv(w, v, env, ch);
      WorkFinishesExactly(Put(w, e), e, env, ch);
      ConditionsAreNotKept(v, Gates(v.bms.spec, env).conditions);
    } else {
      StoppedIsNotFinished(v.bms.spec, env);
    }
  }

  lemma StoppedIsNotFinished(spec: SetSpec, env: Env)
    ensures Gates(spec, env).stop != Some(Finished)
  {
  }

  /** Conditions play no part in what is kept. */
  lemma ConditionsAreNotKept(v: View, c: Conditions)
    ensures Kept(SetConditions(v, c)).hosts == Kept(v).hosts
    ensures Kept(SetConditions(v, c)).bms.status == Kept(v).bms.status
    ensures Dropped(Sync(SetConditions(v, c))) == Dropped(Sync(v))
  {
    var e := SetConditions(v, c);
    forall n | n in v.hosts
      ensures HostAfterRelease(Sync(e).bms, Dropped(Sync(v)), v.hosts[n]) ==
              HostAfterRelease(Sync(v).bms, Dropped(Sync(v)), v.hosts[n])
    {
      SameRelease(Sync(e).bms, Sync(v).bms, Dropped(Sync(v)), v.hosts[n]);
    }
  }

  // ---------------------------------------------------------------- when Ready is set

  /** Before the reconcile, hostname `h` has an existing host, and it is provisioned. */
  ghost predicate AlreadyProvisioned(v: View, h: string) {
    HasHost(v, h) && v.hosts[v.bms.status[h].bmhRef].state == Provisioned
  }

  lemma StateSeen(k: View, v': View, ch: Choices, targets: map<string, Host>, h: string, image: Image)
    requires AllHaveHosts(k) && AllowedFrom(k, ch) && ch.selection.Some? && h in targets
    requires TargetOk(k, ch, h, targets[h]) && Provided(k, v', targets, targets.Keys, image)
    ensures h in v'.bms.status && (v'.bms.status[h].state == Provisioned <==> AlreadyProvisioned(k, h))
  {
    assert ProvidedOne(k, v', targets[h].name, h, image);
    if h in ch.selection.value {
      SelectedMayBeProvisioned(k, ch, h);
    } else {
      assert HasHost(k, h);
    }
  }

  lemma KeptProvisioned(v: View, h: string)
    requires ViewOk(v) && h in v.bms.spec.hosts
    ensures AlreadyProvisioned(Kept(v), h) <==> AlreadyProvisioned(v, h)
  {
    StatusOfKept(v);
    if HasHost(v, h) {
      KeptHost(v, v.bms.status[h].bmhRef);
    }
  }

  ghost predicate RequestedAreProvisioned(v: View) {
    forall h | h in v.bms.spec.hosts :: AlreadyProvisioned(v, h)
  }

  lemma FinishedProvisioned(w: World, v: View, env: Env, ch: Choices)
    requires Underway(w, v, env, ch) && Work(v, env, ch).outcome == Finished
    ensures AllProvisioned(Work(v, env, ch).view.bms.status) <==> RequestedAreProvisioned(v)
  {
    var v', image, targets := Work(v, env, ch).view, ImageFor(v.bms.spec, env.serverStatus), Targets(v.bms.name, ch);
    var k := Kept(v);
    KeptIsOk(w, v, env, ch);
    FinishedMeans(w, v, env, ch, k);
    InvGivesViewOk(w, v);
    SuccessGivesEveryHostnameItsHost(w, v, env, ch);
    TargetsMayBeProvisioned(k, ch);
    forall h | h in v.bms.spec.hosts
      ensures h in v'.bms.status && (v'.bms.status[h].state == Provisioned <==> AlreadyProvisioned(v, h))
    {
      StateSeen(k, v', ch, targets, h, image);
      KeptProvisioned(v, h);
    }
  }

  lemma ProvisionedNeedNothing(v: View)
    requires RequestedAreProvisioned(v)
    ensures CanScaleUp(Kept(v).hosts, v.bms.spec, Kept(v).bms.status)
  {
    StatusOfKept(v);
    forall h | h in v.bms.spec.hosts ensures h in Kept(v).bms.status {
      assert AlreadyProvisioned(v, h);
    }
    NothingNewFits(Kept(v).hosts, v.bms.spec, Kept(v).bms.status);
  }

  lemma EnteredProvisioned(v: View, env: Env)
    ensures RequestedAreProvisioned(Entered(v, env)) <==> RequestedAreProvisioned(v)
  {
    forall h | h in v.bms.spec.hosts ensures AlreadyProvisioned(Entered(v, env), h) <==> AlreadyProvisioned(v, h) {
    }
  }

  /**
   Ready is set exactly when secrets, image and lists are there, every release and
   provisioning asked for goes through, and every requested hostname already has a
   provisioned host. So it is never set by a reconcile that selects a host.
   */
  lemma ReadyExactly(w: World, v: View, env: Env, ch: Choices)
    requires Reconciling(w, v, env, ch)
    ensures Reconciled(v, env, ch).view.bms.conditions.ready == True <==>
            && SecretsAvailable(v.bms.spec, env) && ImageAvailable(v.bms.spec, env)
            && AllListed(env) && ReleasesGoThrough(v, env) && RequestedGoThrough(v, env)
            && RequestedAreProvisioned(v)
  {
    ReadyFromOutcome(v, env, ch);
    ReconcileFinishesExactly(w, v, env, ch);
    if RequestedAreProvisioned(v) {
      ProvisionedNeedNothing(v);
    }
    if Reconciled(v, env, ch).outcome == Finished {
      var e := Entered(v, env);
      FinishedHasPassed(v, env, ch);
      EnteringKeepsInv(w, v, env, ch);
      FinishedProvisioned(Put(w, e), e, env, ch);
      EnteredProvisioned(v, env);
    }
  }

  // ---------------------------------------------------------------- every condition and every outcome

  /**
   The host condition: Unknown exactly when a gate is closed, True exactly when the
   reconcile finishes and every requested hostname already has a provisioned host,
   False otherwise. Ready follows it.
   */
  lemma ConditionsExactly(w: World, v: View, env: Env, ch: Choices)
    requires Reconciling(w, v, env, ch)
    ensures
      var c := Reconciled(v, env, ch).view.bms.conditions;
      var open := SecretsAvailable(v.bms.spec, env) && ImageAvailable(v.bms.spec, env);
      && (c.hostsReady == Unknown <==> !open)
      && (c.hostsReady == True <==>
            && open && AllListed(env) && ReleasesGoThrough(v, env) && RequestedGoThrough(v, env)
            && RequestedAreProvisioned(v))
      && c.ready == (if c.hostsReady == True then True else Unknown)
      && (open ==> c.inputReady == True && c.serverReady == True)
  {
    ReadyExactly(w, v, env, ch);
    GatesOpenExactly(v, env, ch);
    ConditionsFromOutcome(v, env, ch);
  }

  lemma ConditionsFromOutcome(v: View, env: Env, ch: Choices)
    requires Allowed(Entered(v, env), env, ch)
    ensures
      var c := Reconciled(v, env, ch).view.bms.conditions;
      && (c.hostsReady == Unknown <==> Gates(v.bms.spec, env).stop.Some?)
      && (c.hostsReady == True <==> c.ready == True) && c.ready != False
      && (Gates(v.bms.spec, env).stop.None? ==> c.inputReady == True && c.serverReady == True)
  {
    if Gates(v.bms.spec, env).stop.None? {
      PassedGates(v.bms.spec, env);
    } else {
      ClosedGateLeavesHostsUnknown(v.bms.spec, env);
    }
  }

  lemma ClosedGateLeavesHostsUnknown(spec: SetSpec, env: Env)
    ensures Gates(spec, env).conditions.hostsReady == Unknown && Gates(spec, env).conditions.ready == Unknown
  {
  }

  /** The reconcile stops with this outcome, leaves hosts and entries alone and sets these conditions. */
  ghost predicate StopsAt(v: View, r: Result, outcome: Outcome, inputReady: Truth, serverReady: Truth) {
    && r.outcome == outcome && r.view.hosts == v.hosts && r.view.bms.status == v.bms.status
    && r.view.bms.conditions == Conditions(Unknown, inputReady, serverReady, Unknown)
  }

  /** A secret that is missing means waiting, one that cannot be read is an error; both show in the input condition. */
  lemma SecretGates(v: View, env: Env, ch: Choices)
    requires Allowed(Entered(v, env), env, ch)
    ensures
      var r, password := Reconciled(v, env, ch), v.bms.spec.passwordSecret.Some?;
      && (env.sshSecret == NotFound ==> StopsAt(v, r, Requeued, False, Unknown))
      && (env.sshSecret == LookupError ==> StopsAt(v, r, Failed(InputStage), False, Unknown))
      && (env.sshSecret == Found && password && env.passwordSecret == NotFound ==>
            StopsAt(v, r, Requeued, False, Unknown))
      && (env.sshSecret == Found && password && env.passwordSecret == LookupError ==>
            StopsAt(v, r, Failed(InputStage), False, Unknown))
  {
  }

  /**
   With the secrets there: a missing server or one without both URLs means waiting and
   an unreadable one is an error, both in the server condition; without a server a
   missing image URL means waiting and shows in the input condition.
   */
  lemma ImageGates(v: View, env: Env, ch: Choices)
    requires Allowed(Entered(v, env), env, ch)
    requires env.sshSecret == Found && (v.bms.spec.passwordSecret.None? || env.passwordSecret == Found)
    ensures
      var r, status := Reconciled(v, env, ch), env.serverStatus;
      var server := v.bms.spec.deployment == SelfExtracting;
      && (server && env.server == NotFound ==> StopsAt(v, r, Requeued, True, False))
      && (server && env.server == LookupError ==> StopsAt(v, r, Failed(ServerStage), True, False))
      && (server && env.server == Found && status.localImageUrl == "" ==> StopsAt(v, r, Requeued, True, False))
      && (server && env.server == Found && status.checksumUrl == "" ==> StopsAt(v, r, Requeued, True, False))
      && (!server && v.bms.spec.containerImageUrl == "" ==> StopsAt(v, r, Requeued, False, Unknown))
  {
  }

  /** Past the gates each outcome is reached in exactly one way. */
  lemma OutcomeExactly(w: World, v: View, env: Env, ch: Choices)
    requires Underway(w, v, env, ch)
    ensures
      var fits := CanScaleUp(Kept(v).hosts, v.bms.spec, Kept(v).bms.status);
      Work(v, env, ch).outcome ==
        if !env.syncListed then Failed(SyncStage)
        else if !env.ownedListed || !ReleasesGoThrough(v, env) then Failed(ReleaseStage)
        else if !env.poolListed then Failed(ListStage)
        else if !fits then Failed(SelectionStage)
        else if !RequestedGoThrough(v, env) then Failed(ProvisionStage)
        else Finished
  {
    if env.syncListed && env.ownedListed {
      ReleaseDoneExactly(w, v, env, ch);
      if AllListed(env) && AfterRelease(v, env, ch).result == ReleaseDone {
        SelectionFailsExactly(w, v, env, ch);
        if ch.selection.Some? {
          ProvisionedExactly(w, v, env, ch);
        }
      }
    }
  }

  // ---------------------------------------------------------------- trying again

  /** A host selected for a compute that was not reached is untouched and still a candidate. */
  lemma UnservedStaysCandidate(
    k: View, v': View, ch: Choices, targets: map<string, Host>, done: set<string>, image: Image, h: string)
    requires AllowedFrom(k, ch) && ch.selection.Some? && Injective(targets) && done <= targets.Keys
    requires h in ch.selection.value && h in targets && h !in done && TargetOk(k, ch, h, targets[h])
    requires Provided(k, v', targets, done, image)
    ensures ch.selection.value[h] in CandidatePool(v'.hosts, k.bms.spec)
    ensures Subset(k.bms.spec.hosts[h].selector, ch.selection.value[h].labels)
  {
    var x := ch.selection.value[h];
    SelectedMayBeProvisioned(k, ch, h);
    assert !Targeted(targets, done, x.name);
    assert v'.hosts[x.name] == x;
  }

  /** The part of a selection that was not served. */
  ghost function Unserved(f: map<string, Host>, done: set<string>): map<string, Host> {
    map h | h in f && h !in done :: f[h]
  }

  lemma UnservedKeys(
    f: map<string, Host>, requested: map<string, Compute>, before: StatusMap, after: StatusMap, done: set<string>)
    requires f.Keys == NewComputes(requested, before).Keys && after.Keys == before.Keys + done
    ensures Unserved(f, done).Keys == NewComputes(requested, after).Keys
  {
  }

  lemma UnservedIsValid(f: map<string, Host>, done: set<string>, computes: map<string, Compute>, pool: set<Host>)
    requires Injective(f) && Unserved(f, done).Keys == computes.Keys
    requires forall h | h in computes && h in f && h !in done ::
               f[h] in pool && Subset(computes[h].selector, f[h].labels)
    ensures Feasible(computes, pool)
  {
    var g := Unserved(f, done);
    forall h | h in computes ensures h in g && g[h] in pool && Subset(computes[h].selector, g[h].labels) {
      assert h in g.Keys;
    }
    assert ValidAssignment(g, computes, pool);
  }

  /** However many hostnames have been provisioned, the remaining computes can still be matched. */
  lemma ProvisioningKeepsMatch(
    k: View, v': View, ch: Choices, targets: map<string, Host>, done: set<string>, image: Image)
    requires AllowedFrom(k, ch) && ch.selection.Some? && Injective(targets) && done <= targets.Keys
    requires targets.Keys == k.bms.spec.hosts.Keys && forall h | h in targets :: TargetOk(k, ch, h, targets[h])
    requires Provided(k, v', targets, done, image)
    ensures CanScaleUp(v'.hosts, k.bms.spec, v'.bms.status)
  {
    var f, computes := ch.selection.value, NewComputes(k.bms.spec.hosts, v'.bms.status);
    UnservedKeys(f, k.bms.spec.hosts, k.bms.status, v'.bms.status, done);
    forall h | h in computes && h in f && h !in done
      ensures f[h] in CandidatePool(v'.hosts, k.bms.spec) && Subset(computes[h].selector, f[h].labels)
    {
      UnservedStaysCandidate(k, v', ch, targets, done, image, h);
    }
    UnservedIsValid(f, done, computes, CandidatePool(v'.hosts, k.bms.spec));
  }

  lemma ProvidedHasHosts(k: View, v': View, targets: map<string, Host>, done: set<string>, image: Image)
    requires AllHaveHosts(k) && GoodTargets(k, targets) && done <= targets.Keys && Provided(k, v', targets, done, image)
    ensures SyncedStatus(v'.hosts, v'.bms.status) == v'.bms.status
  {
    forall h | h in v'.bms.status ensures v'.bms.status[h].bmhRef in v'.hosts {
      if h in done {
        assert ProvidedOne(k, v', targets[h].name, h, image);
        assert MayProvision(k, targets[h].name, h);
      } else {
        assert HasHost(k, h);
      }
    }
  }

  lemma WorkLeavesMatch(w: World, v: View, env: Env, ch: Choices)
    requires Underway(w, v, env, ch) && Work(v, env, ch).outcome in {Failed(ProvisionStage), Finished}
    ensures
      var v' := Work(v, env, ch).view;
      && SameSet(v'.bms, v.bms) && v'.bms.status.Keys <= v.bms.spec.hosts.Keys
      && CanScaleUp(v'.hosts, v'.bms.spec, SyncedStatus(v'.hosts, v'.bms.status))
  {
    var v', image, targets := Work(v, env, ch).view, ImageFor(v.bms.spec, env.serverStatus), Targets(v.bms.name, ch);
    ReleasedAndSelected(w, v, env, ch);
    var k, done := Kept(v), Served(ch.order, env.failing);
    LoopProvides(k, targets, ch.order, image, env.failing);
    ProvisionAllProvides(k, targets, ch.order, image, env.failing);
    ProvidedHasHosts(k, v', targets, done, image);
    StatusOfKept(v);
    ProvisioningKeepsMatch(k, v', ch, targets, done, image);
  }

  /**
   A reconcile that failed while provisioning strands nothing: on the same hosts the
   next one cannot fail at selection, and it finishes exactly when secrets and image
   are there, the lists are answered and no provisioning fails.
   */
  lemma RetryFinishesExactly(w: World, v: View, env: Env, ch: Choices, v': View, env': Env, ch': Choices)
    requires Reconciling(w, v, env, ch) && Reconciled(v, env, ch).outcome in {Failed(ProvisionStage), Finished}
    requires v' == Reconciled(v, env, ch).view && Reconciling(Put(w, v'), v', env', ch')
    ensures Reconciled(v', env', ch').outcome != Failed(SelectionStage)
    ensures Reconciled(v', env', ch').outcome == Finished <==>
            && SecretsAvailable(v.bms.spec, env') && ImageAvailable(v.bms.spec, env')
            && AllListed(env') && RequestedGoThrough(v, env')
  {
    var e := Entered(v, env);
    StoppedBeforeProvisioning(v.bms.spec, env);
    EnteringKeepsInv(w, v, env, ch);
    WorkLeavesMatch(Put(w, e), e, env, ch);
    AdmissionImpliesSelection(Put(w, v'), v', env', ch');
    ReconcileFinishesExactly(Put(w, v'), v', env', ch');
    InvGivesViewOk(Put(w, v'), v');
    ReleaseStageHelps(v');
    assert Dropped(Sync(v')) == {};
  }

  lemma StoppedBeforeProvisioning(spec: SetSpec, env: Env)
    ensures Gates(spec, env).stop !in {Some(Failed(ProvisionStage)), Some(Finished)}
  {
  }
}
