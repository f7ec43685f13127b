/**
 Small concrete cases in which a promise of the operator fails: one member for each
 exact condition that is not always met.
 */
module Witnesses {
  import opened Types
  import opened Allocation
  import opened ScaleUp
  import opened Lifecycle
  import opened Reconcile
  import opened Ownership
  import opened Stages
  import opened Guarantees
  import opened Admission
  import opened Progress
  import opened Runs
  import opened Requirements

  const IMAGE := Image("http://images/edpm.qcow2", "", "")
  const FREE_HOST := Host("bmh-0", map[], Available, None, false, false, None, None, false, "", None, None)

  const SPEC :=
    SetSpec(map["a" := NO_COMPUTE], map[], NO_REQS, PassThrough, IMAGE.url, "metadata", "openstack", None)
  const EMPTIED := SPEC.(hosts := map[])
  const REFILLED := SPEC.(selector := map[Custom("app") := "edpm"])
  const SET := BaremetalSet("uid-1", "openstack", "compute", SPEC, map[], INITIAL_CONDITIONS)

  // ---------------------------------------------------------------- deletion behind a missing host

  const LEAVING :=
    SET.(spec := EMPTIED,
         status := map["a" := HostStatus("a", "bmh-gone", "", Provisioned, "", ""),
                       "b" := HostStatus("b", "bmh-0", "", Provisioned, "", "")])
  const CLAIMED_HOST := Claim(LEAVING, "b", IMAGE, FREE_HOST)

  lemma LeavingIsOk(v: View)
    requires v == View(map["bmh-0" := CLAIMED_HOST], LEAVING)
    ensures HostsOk(v.hosts) && SetOk(v.hosts, v.bms) && HeldAs(CLAIMED_HOST, LEAVING, "b")
  {
    CleanMerge(FREE_HOST, LEAVING, "b");
    assert HeldAs(CLAIMED_HOST, LEAVING, "b");
    HeldIsOwned(CLAIMED_HOST, LEAVING, "b");
    assert EntryOk(v.hosts, v.bms, "a") && EntryOk(v.hosts, v.bms, "b");
    assert OwnedOk(v.bms, "bmh-0", CLAIMED_HOST);
  }

  /** Two entries, the first without a host: the finalizer goes and the second host stays claimed. */
  lemma DeletionLeaksHost(v: View, r: Releasing)
    requires v == View(map["bmh-0" := CLAIMED_HOST], LEAVING) && r == CleanUp(v, ["a", "b"], map[])
    ensures HostsOk(v.hosts) && SetOk(v.hosts, v.bms) && Enumerates(["a", "b"], v.bms.status.Keys)
    ensures DropsFinalizer(r) && StillHeld(r.view, v.bms, "b")
  {
    LeavingIsOk(v);
    assert r == Releasing(v, HostNotFound);
  }

  // ---------------------------------------------------------------- secrets in the status

  const OTHER_SECRET := Compute(map[], "", Some(SecretRef("my-userdata", "openstack")), None)

  /** After the spec names another user-data secret, the status reports it and the host keeps the old one. */
  lemma StatusReportsOtherSecret(x: Host, s: BaremetalSet, v': View)
    requires x == Claim(SET, "a", IMAGE, FREE_HOST) && s == SET.(spec := SPEC.(hosts := map["a" := OTHER_SECRET]))
    requires v' == Provision(View(map["bmh-0" := x], s), "bmh-0", "a", IMAGE, true).view
    ensures v'.bms.status["a"].userDataSecret == "my-userdata"
    ensures v'.hosts["bmh-0"].userData == Some(UserDataOf(SET, "a")) && UserDataOf(SET, "a").name != "my-userdata"
  {
    GeneratedName("compute", "-cloudinit-userdata-", "a");
    assert s.spec.hosts["a"] == OTHER_SECRET && SPEC.hosts["a"] == NO_COMPUTE;
  }

  lemma GeneratedName(setName: string, kind: string, h: string)
    requires setName != "" && setName[0] == 'c'
    ensures setName + kind + h != "my-userdata"
  {
    assert (setName + kind + h)[0] == 'c' && "my-userdata"[0] == 'm';
  }

  // ---------------------------------------------------------------- one set, one host, one reconcile

  const ENV :=
    Env(Found, Found, Found, ServerStatus("", "", ""), true, true, true, map[], {})
  const CHOICES := Choices([], [FREE_HOST], [], Some(map["a" := FREE_HOST]), ["a"])

  const AT_FIRST := World(map["bmh-0" := FREE_HOST], map[])

  /** A new set that asks for the one hostname of `SPEC`. */
  predicate AsksForOne(s: BaremetalSet) {
    s.spec == SPEC && s.status == map[]
  }

  /** The free host, and that set alone. */
  function Alone(s: BaremetalSet): World {
    World(map["bmh-0" := FREE_HOST], map[s.uid := s])
  }

  lemma FreeHostFits(spec: SetSpec, hosts: HostMap)
    requires spec == SPEC && hosts == map["bmh-0" := FREE_HOST]
    ensures ValidAssignment(map["a" := FREE_HOST], NewComputes(spec.hosts, map[]), CandidatePool(hosts, spec))
    ensures CanScaleUp(hosts, spec, map[])
  {
    assert Eligible(NO_REQS, hosts["bmh-0"]);
    assert FREE_HOST in CandidatePool(hosts, spec);
  }

  lemma CreationIsAccepted(s: BaremetalSet)
    requires AsksForOne(s)
    ensures Next(AT_FIRST, Create(s, false), Alone(s)) && Inv(AT_FIRST) && Inv(Alone(s))
  {
    FreeHostFits(SPEC, AT_FIRST.hosts);
    assert HostOk("bmh-0", FREE_HOST);
    NextKeepsInv(AT_FIRST, Create(s, false), Alone(s));
  }

  lemma FreeHostIsNotOwned(s: BaremetalSet)
    ensures !Owned(s, FREE_HOST)
  {
    OtherUidNotOwned(s, FREE_HOST);
  }

  lemma ListsAreRight(v: View)
    requires v.hosts == map["bmh-0" := FREE_HOST] && v.bms.spec == SPEC
    ensures IsList([], v.hosts, OwnerLabels(v.bms)) && IsList([FREE_HOST], v.hosts, v.bms.spec.selector)
  {
    FreeHostIsNotOwned(v.bms);
  }

  lemma ChoicesAreAllowed(v: View)
    requires v.hosts == map["bmh-0" := FREE_HOST] && v.bms.spec == SPEC && v.bms.status == map[]
    ensures Allowed(v, ENV, CHOICES)
  {
    ListsAreRight(v);
    FreeHostFits(SPEC, v.hosts);
    ListGivesPool([FREE_HOST], v.hosts, SPEC);
    assert Sync(v) == v;
    assert AfterRelease(v, ENV, CHOICES) == Releasing(v, ReleaseDone);
    assert AllowedFrom(v, CHOICES);
    assert Targets(v.bms.name, CHOICES) == map["a" := FREE_HOST];
    assert Enumerates(["a"], {"a"});
  }

  ghost function FirstReconcile(s: BaremetalSet): Result
    requires AsksForOne(s)
  {
    ChoicesAreAllowed(Entered(ViewIn(Alone(s), s.uid), ENV));
    Reconciled(ViewIn(Alone(s), s.uid), ENV, CHOICES)
  }

  lemma FirstReconcileFinishes(s: BaremetalSet, v: View)
    requires AsksForOne(s) && v == ViewIn(Alone(s), s.uid)
    ensures Reconciling(Alone(s), v, ENV, CHOICES) && FirstReconcile(s).outcome == Finished
  {
    CreationIsAccepted(s);
    ChoicesAreAllowed(Entered(v, ENV));
    FreeHostFits(SPEC, v.hosts);
    InvGivesViewOk(Alone(s), v);
    assert SyncedStatus(v.hosts, v.bms.status) == map[];
    ReleaseStageHelps(v);
    NothingIsReleased(Entered(v, ENV));
    ReconcileFinishesExactly(Alone(s), v, ENV, CHOICES);
  }

  lemma NothingIsReleased(v: View)
    ensures ReleasesSafe(v, ENV, CHOICES)
  {
    assert ToRelease([], v.bms.name, v.bms.spec.hosts) == [];
  }

  lemma FirstReconcileNames(s: BaremetalSet, v: View, v': View)
    requires AsksForOne(s) && v == ViewIn(Alone(s), s.uid) && v' == FirstReconcile(s).view
    ensures SameSet(v'.bms, s) && v'.bms.status.Keys == {"a"} && HasHost(v', "a")
    ensures HeldAs(v'.hosts[v'.bms.status["a"].bmhRef], s, "a")
  {
    var e := Entered(v, ENV);
    FirstReconcileFinishes(s, v);
    FinishedHasPassed(v, ENV, CHOICES);
    EnteringKeepsInv(Alone(s), v, ENV, CHOICES);
    SuccessGivesEveryHostnameItsHost(Put(Alone(s), e), e, ENV, CHOICES);
    var r := Work(e, ENV, CHOICES).view;
    assert ServedAs(r, "a");
    SameHolding(r.hosts[RefOf(r, "a")], r.bms, s, "a");
  }

  lemma FirstReconcileSteps(s: BaremetalSet, v: View, v': View)
    requires AsksForOne(s) && v == ViewIn(Alone(s), s.uid) && v' == FirstReconcile(s).view
    ensures v'.hosts.Keys <= {"bmh-0"} && v'.bms.uid == s.uid && Inv(Put(Alone(s), v'))
    ensures Next(Alone(s), ReconcileSet(s.uid, ENV, CHOICES), Put(Alone(s), v'))
  {
    FirstReconcileFinishes(s, v);
    ReconcileKeepsHosts(Alone(s), v, ENV, CHOICES);
    ReconcileKeepsInv(Alone(s), v, ENV, CHOICES);
  }

  /** The set holds the host afterwards. */
  lemma FirstReconcileServes(s: BaremetalSet, v: View, v': View)
    requires AsksForOne(s) && v == ViewIn(Alone(s), s.uid) && v' == FirstReconcile(s).view
    ensures Holds(v', s)
  {
    FirstReconcileNames(s, v, v');
    FirstReconcileSteps(s, v, v');
    EntryAndHost(Put(Alone(s), v'), v');
  }

  lemma EntryAndHost(w: World, v: View)
    requires Inv(w) && Sees(w, v) && "a" in v.bms.status && "bmh-0" in v.hosts
    ensures v.bms.status["a"].hostname == "a" && v.hosts["bmh-0"].name == "bmh-0"
  {
    assert EntryOk(v.hosts, v.bms, "a") && HostOk("bmh-0", v.hosts["bmh-0"]);
  }

  /** `s` holds the one host as "a". */
  ghost predicate Holds(v: View, s: BaremetalSet) {
    && SameSet(v.bms, s) && v.bms.status.Keys == {"a"} && v.hosts.Keys == {"bmh-0"}
    && v.bms.status["a"].bmhRef == "bmh-0" && v.bms.status["a"].hostname == "a"
    && HeldAs(v.hosts["bmh-0"], s, "a") && v.hosts["bmh-0"].name == "bmh-0"
  }

  // ---------------------------------------------------------------- a disruptive update

  /** The two updates, from any world in which the set has its host. */
  lemma UpdatesAreAccepted(w: World, w': World)
    requires "uid-1" in w.sets && SameSet(w.sets["uid-1"], SET) && HasHost(ViewIn(w, "uid-1"), "a")
    requires w' == Updated(w, "uid-1", EMPTIED)
    ensures Next(w, Update("uid-1", EMPTIED, false), w')
    ensures Next(w', Update("uid-1", REFILLED, false), Updated(w', "uid-1", REFILLED))
    ensures DisruptsEmptied(w', Update("uid-1", REFILLED, false))
  {
    assert Custom("app") in REFILLED.selector && Custom("app") !in SPEC.selector;
    assert "a" in SPEC.hosts;
    TwoUpdatesDisrupt(w, "uid-1", EMPTIED, REFILLED);
  }

  lemma TwoSteps(w: World, step: Step, w': World, step': Step, w'': World) returns (ws: seq<World>, steps: seq<Step>)
    requires w.sets == map[] && HostsOk(w.hosts) && Next(w, step, w') && Next(w', step', w'')
    requires Validated(step) && Validated(step')
    ensures Run(ws, steps) && AllValidated(steps) && ws[|steps|] == w''
  {
    ws, steps := [w, w'] + [w''], [step] + [step'];
    OneMoreStep([w, w'], [step], step', w'');
  }

  lemma OneMoreStep(ws: seq<World>, steps: seq<Step>, step: Step, w': World)
    requires Run(ws, steps) && Next(ws[|steps|], step, w')
    ensures Run(ws + [w'], steps + [step])
  {
    var ws', steps' := ws + [w'], steps + [step];
    forall i | 0 <= i < |steps'| ensures Next(ws'[i], steps'[i], ws'[i + 1]) {
      assert i < |steps| ==> Next(ws[i], steps[i], ws[i + 1]);
    }
  }

  lemma HostIsServed() returns (ws: seq<World>, steps: seq<Step>)
    ensures Run(ws, steps) && AllValidated(steps)
    ensures
      var w := ws[|steps|];
      "uid-1" in w.sets && SameSet(w.sets["uid-1"], SET) && HasHost(ViewIn(w, "uid-1"), "a")
  {
    var v' := FirstReconcile(SET).view;
    CreationIsAccepted(SET);
    FirstReconcileServes(SET, ViewIn(Alone(SET), "uid-1"), v');
    FirstReconcileSteps(SET, ViewIn(Alone(SET), "uid-1"), v');
    var first, second := Create(SET, false), ReconcileSet("uid-1", ENV, CHOICES);
    ws, steps := TwoSteps(AT_FIRST, first, Alone(SET), second, Put(Alone(SET), v'));
  }

  /** One set, one host, every update validated: the second update in a row is disruptive. */
  lemma DisruptionIsReachable() returns (ws: seq<World>, steps: seq<Step>)
    ensures Run(ws, steps) && AllValidated(steps)
    ensures exists j :: 0 <= j < |steps| && DisruptsEmptied(ws[j], steps[j])
  {
    ws, steps := HostIsServed();
    var w, j := ws[|steps|], |steps| + 1;
    var w' := Updated(w, "uid-1", EMPTIED);
    var emptying, refilling := Update("uid-1", EMPTIED, false), Update("uid-1", REFILLED, false);
    UpdatesAreAccepted(w, w');
    OneMoreStep(ws, steps, emptying, w');
    ws, steps := ws + [w'], steps + [emptying];
    OneMoreStep(ws, steps, refilling, Updated(w', "uid-1", REFILLED));
    ws, steps := ws + [Updated(w', "uid-1", REFILLED)], steps + [refilling];
    assert DisruptsEmptied(ws[j], steps[j]);
  }

  /** In that run some host ends up held that was selected under other requirements. */
  lemma BasisIsLost() returns (ws: seq<World>, steps: seq<Step>)
    ensures Run(ws, steps) && AllValidated(steps) && !AlwaysCurrent(ws, steps)
  {
    ws, steps := DisruptionIsReachable();
    BasisInValidatedRunExactly(ws, steps);
  }

  // ---------------------------------------------------------------- a stale entry

  const OTHER_SET := SET.(uid := "uid-2", name := "storage")

  /** The worlds of the run below. `one` and `two` are what the reconciles of the two sets leave. */
  datatype Stale = Stale(one: View, two: View)
  {
    ghost function Served(): World {
      Put(Alone(SET), one)
    }

    /** The deletion of the first set frees the host, fails to delete a secret and keeps the entry. */
    ghost function Freed(): World
      requires "bmh-0" in one.hosts
    {
      Put(Served(), View(one.hosts["bmh-0" := Unclaim(one.bms, "a", one.hosts["bmh-0"])], one.bms))
    }

    /** Metal3 makes the host available again. */
    ghost function Available(): World {
      World(map["bmh-0" := FREE_HOST], Served().sets)
    }

    ghost function Both(): World {
      Available().(sets := Available().sets["uid-2" := OTHER_SET])
    }

    ghost function Taken(): World {
      Put(Both(), two)
    }

    /** The deletion of the first set is tried again and gets through. */
    ghost function Stripped(): World
      requires "bmh-0" in two.hosts
    {
      World(two.hosts["bmh-0" := Unclaim(one.bms, "a", two.hosts["bmh-0"])], Taken().sets - {"uid-1"})
    }
  }

  ghost predicate IsStale(t: Stale) {
    Holds(t.one, SET) && Holds(t.two, OTHER_SET)
  }

  const HALFWAY := map["a" := SecretDeletionFails]

  lemma HalfwayFrees(t: Stale)
    requires IsStale(t)
    ensures "bmh-0" in t.one.hosts && Attempt(t.Served(), DeleteSet("uid-1", HALFWAY, ["a"]), t.Freed())
    ensures Breaks(t.Served(), DeleteSet("uid-1", HALFWAY, ["a"]))
  {
    assert ViewIn(t.Served(), "uid-1") == t.one;
    assert Enumerates(["a"], {"a"});
  }

  lemma HostIsReset(t: Stale)
    requires IsStale(t)
    ensures "bmh-0" in t.one.hosts && Attempt(t.Freed(), Edit(FREE_HOST), t.Available())
  {
    SameHolding(t.one.hosts["bmh-0"], SET, t.one.bms, "a");
    UnclaimCleans(t.one.hosts["bmh-0"], t.one.bms, "a");
    assert t.Freed().hosts["bmh-0" := FREE_HOST] == t.Available().hosts;
    assert t.Freed().sets == t.Available().sets;
  }

  lemma OtherIsCreated(t: Stale)
    requires IsStale(t)
    ensures Attempt(t.Available(), Create(OTHER_SET, false), t.Both())
  {
    FreeHostFits(SPEC, t.Available().hosts);
  }

  lemma OtherTakesHost(t: Stale)
    requires IsStale(t)
    requires t.two == FirstReconcile(OTHER_SET).view
    ensures Attempt(t.Both(), ReconcileSet("uid-2", ENV, CHOICES), t.Taken())
    ensures HeldIn(t.Taken(), "uid-2", "a", "bmh-0")
  {
    assert ViewIn(t.Both(), "uid-2") == ViewIn(Alone(OTHER_SET), "uid-2");
    ChoicesAreAllowed(Entered(ViewIn(t.Both(), "uid-2"), ENV));
    SameHolding(t.two.hosts["bmh-0"], OTHER_SET, t.two.bms, "a");
  }

  lemma DeletionStrips(t: Stale)
    requires IsStale(t)
    ensures "bmh-0" in t.two.hosts && Attempt(t.Taken(), DeleteSet("uid-1", map[], ["a"]), t.Stripped())
    ensures "uid-2" in t.Stripped().sets && Names(t.Stripped().sets["uid-2"], "a", "bmh-0")
    ensures "bmh-0" in t.Stripped().hosts && t.Stripped().hosts["bmh-0"].consumerRef.None?
    ensures !Owned(OTHER_SET, t.Stripped().hosts["bmh-0"])
  {
    assert ViewIn(t.Taken(), "uid-1") == View(t.two.hosts, t.one.bms);
    assert Enumerates(["a"], {"a"});
    assert OwnerUid !in t.Stripped().hosts["bmh-0"].labels;
  }

  lemma OneMoreAttempt(ws: seq<World>, steps: seq<Step>, step: Step, w': World)
    returns (ws': seq<World>, steps': seq<Step>)
    requires Attempts(ws, steps) && Attempt(ws[|steps|], step, w')
    ensures Attempts(ws', steps') && ws' == ws + [w'] && ws'[|steps'|] == w'
  {
    ws', steps' := ws + [w'], steps + [step];
    forall i | 0 <= i < |steps'| ensures Attempt(ws'[i], steps'[i], ws'[i + 1]) {
      assert i < |steps| ==> Attempt(ws[i], steps[i], ws[i + 1]);
    }
  }

  lemma ServedRun(t: Stale) returns (ws: seq<World>, steps: seq<Step>)
    requires t.one == FirstReconcile(SET).view
    ensures Attempts(ws, steps) && ws[|steps|] == t.Served()
  {
    CreationIsAccepted(SET);
    FirstReconcileSteps(SET, ViewIn(Alone(SET), "uid-1"), t.one);
    ws, steps := TwoSteps(AT_FIRST, Create(SET, false), Alone(SET), ReconcileSet("uid-1", ENV, CHOICES), t.Served());
    RunIsAttempts(ws, steps);
  }

  lemma RunIsAttempts(ws: seq<World>, steps: seq<Step>)
    requires Run(ws, steps)
    ensures Attempts(ws, steps)
  {
    forall i | 0 <= i < |steps| ensures Attempt(ws[i], steps[i], ws[i + 1]) {
      assert Next(ws[i], steps[i], ws[i + 1]);
    }
  }

  lemma FreedRun(t: Stale) returns (ws: seq<World>, steps: seq<Step>)
    requires IsStale(t) && t.one == FirstReconcile(SET).view
    ensures Attempts(ws, steps) && ws[|steps|] == t.Available()
  {
    ws, steps := ServedRun(t);
    HalfwayFrees(t);
    ws, steps := OneMoreAttempt(ws, steps, DeleteSet("uid-1", HALFWAY, ["a"]), t.Freed());
    HostIsReset(t);
    ws, steps := OneMoreAttempt(ws, steps, Edit(FREE_HOST), t.Available());
  }

  lemma TakenRun(t: Stale) returns (ws: seq<World>, steps: seq<Step>)
    requires IsStale(t) && t.one == FirstReconcile(SET).view && t.two == FirstReconcile(OTHER_SET).view
    ensures Attempts(ws, steps) && ws[|steps|] == t.Taken()
  {
    ws, steps := FreedRun(t);
    OtherIsCreated(t);
    ws, steps := OneMoreAttempt(ws, steps, Create(OTHER_SET, false), t.Both());
    OtherTakesHost(t);
    ws, steps := OneMoreAttempt(ws, steps, ReconcileSet("uid-2", ENV, CHOICES), t.Taken());
  }

  /** The second set still reports the host, which no longer has its ConsumerRef or owner labels. */
  ghost predicate ClaimStripped(w: World) {
    && "uid-2" in w.sets && "bmh-0" in w.hosts && Names(w.sets["uid-2"], "a", "bmh-0")
    && w.hosts["bmh-0"].consumerRef.None? && !Owned(OTHER_SET, w.hosts["bmh-0"])
  }

  lemma StrippedRun(t: Stale) returns (ws: seq<World>, steps: seq<Step>)
    requires IsStale(t) && t.one == FirstReconcile(SET).view && t.two == FirstReconcile(OTHER_SET).view
    ensures "bmh-0" in t.two.hosts && Attempts(ws, steps) && |steps| > 0
    ensures ws[|steps| - 1] == t.Taken() && ws[|steps|] == t.Stripped()
  {
    ws, steps := TakenRun(t);
    DeletionStrips(t);
    ws, steps := OneMoreAttempt(ws, steps, DeleteSet("uid-1", map[], ["a"]), t.Stripped());
  }

  lemma StaleViews() returns (t: Stale)
    ensures IsStale(t) && t.one == FirstReconcile(SET).view && t.two == FirstReconcile(OTHER_SET).view
  {
    t := Stale(FirstReconcile(SET).view, FirstReconcile(OTHER_SET).view);
    FirstReconcileServes(SET, ViewIn(Alone(SET), "uid-1"), t.one);
    FirstReconcileServes(OTHER_SET, ViewIn(Alone(OTHER_SET), "uid-2"), t.two);
  }

  /**
   After a release that failed half-way another set takes the host; the retried
   deletion of the first set then strips the host of the other set's claim.
   */
  lemma StaleEntryStripsClaim() returns (ws: seq<World>, steps: seq<Step>)
    ensures Attempts(ws, steps) && |steps| > 0
    ensures HeldIn(ws[|steps| - 1], "uid-2", "a", "bmh-0") && ClaimStripped(ws[|steps|])
  {
    var t := StaleViews();
    OtherTakesHost(t);
    DeletionStrips(t);
    assert ClaimStripped(t.Stripped());
    ws, steps := StrippedRun(t);
  }
}
