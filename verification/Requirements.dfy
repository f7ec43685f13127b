/**
 Under which selector and hardware requests a host was selected. Every host a set
 holds was selected under the requirements the set has now, in every state of a run,
 exactly when no update changes the requirements of a set that has a host. A
 validated update can do that only to a set whose hosts have all been struck off
 its spec and are still waiting to be released.
 */
module Requirements {
  import opened Types
  import opened Allocation
  import opened ScaleUp
  import opened Lifecycle
  import opened Reconcile
  import opened Ownership
  import opened Stages
  import opened Guarantees
  import opened Effects
  import opened Admission
  import opened Runs

  /** The requirements a selection is made under. */
  datatype Basis = Basis(selector: Labels, hardwareReqs: HardwareReqs)

  function BasisOf(s: BaremetalSet): Basis {
    Basis(s.spec.selector, s.spec.hardwareReqs)
  }

  // ---------------------------------------------------------------- what a step does to the holders

  /** If a set keeps its status, it holds what it held. */
  lemma SameStatusSameHosts(w: World, w': World, u: string, h: string, n: string)
    requires Inv(w) && Inv(w') && u in w.sets && u in w'.sets && w.sets[u].status == w'.sets[u].status
    requires HeldIn(w', u, h, n) && n in w.hosts
    ensures HeldIn(w, u, h, n)
  {
    StatusMatchesHosts(w', u, h, n);
    StatusMatchesHosts(w, u, h, n);
  }

  /** After a reconcile a set holds a host as `h` only if it did before, or selected it for `h`. */
  lemma EffectHostname(v: View, x: Host, x': Host, image: Image, h: string)
    requires HostEffect(v, x, x', image) && HeldAs(x', v.bms, h)
    requires x.consumerRef.None? ==> Clean(x)
    ensures HeldAs(x, v.bms, h) || ClaimedAnew(v, x, x', h, image)
  {
    HeldIsOwned(x', v.bms, h);
    if x' != x {
      if g :| ReleasedFrom(v, x, x', g) {
        UnclaimCleans(x, v.bms, g);
      } else if g :| Reprovisioned(v, x, x', g, image) {
        HeldIsOwned(x, v.bms, g);
        ClaimedLabel(x, v.bms, g, image);
      } else {
        var g :| ClaimedAnew(v, x, x', g, image);
        AnewHostname(v, x, g);
        assert x'.labels == MergeKeeping(AfterDrop(v.bms, x).labels, ClaimLabels(v.bms, g));
      }
    }
  }

  lemma ClaimedLabel(x: Host, s: BaremetalSet, g: string, image: Image)
    requires HostnameOf(s.name) in x.labels
    ensures HostnameOf(s.name) in Claim(s, g, image, x).labels
    ensures Claim(s, g, image, x).labels[HostnameOf(s.name)] == x.labels[HostnameOf(s.name)]
  {
  }

  lemma AnewHostname(v: View, x: Host, g: string)
    requires AfterDrop(v.bms, x).consumerRef.None? && (x.consumerRef.None? ==> Clean(x))
    ensures MergeKeeping(AfterDrop(v.bms, x).labels, ClaimLabels(v.bms, g))[HostnameOf(v.bms.name)] == g
  {
  }

  /** A host a set holds under a new hostname met its selector and hardware requests when it was selected. */
  lemma NewlyHeldWasEligible(w: World, v: View, env: Env, ch: Choices, h: string, n: string)
    requires Reconciling(w, v, env, ch) && n in v.hosts && !HeldAs(v.hosts[n], v.bms, h)
    requires HeldIn(Put(w, Reconciled(v, env, ch).view), v.bms.uid, h, n)
    ensures
      var x := AfterDrop(v.bms, v.hosts[n]);
      && Eligible(v.bms.spec.hardwareReqs, x) && Subset(v.bms.spec.selector, x.labels)
      && h in v.bms.spec.hosts && Subset(v.bms.spec.hosts[h].selector, x.labels)
  {
    var e, x, x' := Entered(v, env), v.hosts[n], Reconciled(v, env, ch).view.hosts[n];
    assert HostOk(n, x);
    ReconcileEffect(w, v, env, ch, n);
    SameHolding(x', Reconciled(v, env, ch).view.bms, e.bms, h);
    SameHolding(x, e.bms, v.bms, h);
    EffectHostname(e, x, x', ImageFor(v.bms.spec, env.serverStatus), h);
    AnewMeansEligible(e, v.bms, x, x', h, ImageFor(v.bms.spec, env.serverStatus));
  }

  lemma AnewMeansEligible(v: View, s: BaremetalSet, x: Host, x': Host, h: string, image: Image)
    requires SameSet(v.bms, s) && ClaimedAnew(v, x, x', h, image)
    ensures
      && Eligible(s.spec.hardwareReqs, AfterDrop(s, x)) && Subset(s.spec.selector, AfterDrop(s, x).labels)
      && h in s.spec.hosts && Subset(s.spec.hosts[h].selector, AfterDrop(s, x).labels)
  {
  }

  lemma SameHolding(x: Host, s: BaremetalSet, t: BaremetalSet, h: string)
    requires SameSet(s, t)
    ensures HeldAs(x, s, h) <==> HeldAs(x, t, h)
  {
  }

  /** After a finished reconcile every hostname held is asked for. */
  lemma FinishedHoldsOnlyRequested(w: World, v: View, env: Env, ch: Choices, h: string, n: string)
    requires Reconciling(w, v, env, ch) && Reconciled(v, env, ch).outcome == Finished
    requires HeldIn(Put(w, Reconciled(v, env, ch).view), v.bms.uid, h, n)
    ensures h in v.bms.spec.hosts
  {
    var e := Entered(v, env);
    FinishedHasPassed(v, env, ch);
    EnteringKeepsInv(w, v, env, ch);
    SuccessGivesEveryHostnameItsHost(Put(w, e), e, env, ch);
    ReconcileKeepsInv(w, v, env, ch);
    StatusMatchesHosts(Put(w, Reconciled(v, env, ch).view), v.bms.uid, h, n);
  }

  lemma ReconcileSameSet(w: World, v: View, env: Env, ch: Choices)
    requires Reconciling(w, v, env, ch)
    ensures SameSet(Reconciled(v, env, ch).view.bms, v.bms)
  {
    if Gates(v.bms.spec, env).stop.None? {
      EnteringKeepsInv(w, v, env, ch);
      WorkKeepsInv(Put(w, Entered(v, env)), Entered(v, env), env, ch);
    }
  }

  lemma DeletionKeepsSpecs(w: World, t: string, apis: map<string, ReleaseApi>, order: seq<string>)
    requires Inv(w) && t in w.sets && Enumerates(order, w.sets[t].status.Keys)
    requires !EndsHalfway(ViewIn(w, t), order, apis)
    ensures SameSet(CleanUp(ViewIn(w, t), order, apis).view.bms, w.sets[t])
  {
    CleanUpIsWithout(ViewIn(w, t), order, apis);
  }

  /** Only an update of a set changes its spec. */
  lemma SpecChangesByUpdateOnly(w: World, step: Step, w': World, u: string)
    requires Inv(w) && Next(w, step, w') && u in w.sets && u in w'.sets
    ensures w'.sets[u].spec == w.sets[u].spec || (step.Update? && step.uid == u)
  {
    if step.ReconcileSet? {
      ReconcileSameSet(w, ViewIn(w, step.uid), step.env, step.ch);
    } else if step.DeleteSet? {
      DeletionKeepsSpecs(w, step.uid, step.apis, step.order);
    }
  }

  lemma DeletionHolds(
    w: World, t: string, apis: map<string, ReleaseApi>, order: seq<string>, s: BaremetalSet, h: string, n: string)
    requires Inv(w) && t in w.sets && Enumerates(order, w.sets[t].status.Keys)
    requires !EndsHalfway(ViewIn(w, t), order, apis)
    requires
      var hosts' := CleanUp(ViewIn(w, t), order, apis).view.hosts;
      n in hosts' && HeldAs(hosts'[n], s, h)
    ensures n in w.hosts && HeldAs(w.hosts[n], s, h)
    ensures
      var s' := CleanUp(ViewIn(w, t), order, apis).view.bms;
      s' == w.sets[t].(status := s'.status)
  {
    CleanUpIsWithout(ViewIn(w, t), order, apis);
    ReleasedHost(ViewIn(w, t), Leading(order, Good(ViewIn(w, t), apis)), n);
    HeldIsOwned(CleanUp(ViewIn(w, t), order, apis).view.hosts[n], s, h);
  }

  lemma ReconcileBystander(w: World, v: View, env: Env, ch: Choices, u: string, h: string, n: string)
    requires Reconciling(w, v, env, ch) && u in w.sets && u != v.bms.uid
    requires HeldIn(Put(w, Reconciled(v, env, ch).view), u, h, n)
    ensures HeldIn(w, u, h, n)
  {
    var w' := Put(w, Reconciled(v, env, ch).view);
    ReconcileKeepsInv(w, v, env, ch);
    ReconcileKeepsHosts(w, v, env, ch);
    SameStatusSameHosts(w, w', u, h, n);
  }

  lemma AppearanceHolds(w: World, w': World, x: Host, u: string, h: string, n: string)
    requires Inv(w') && Unreferenced(w, x.name) && w' == w.(hosts := w.hosts[x.name := x]) && HeldIn(w', u, h, n)
    ensures HeldIn(w, u, h, n)
  {
    StatusMatchesHosts(w', u, h, n);
  }

  lemma UpdateHolds(w: World, w': World, t: string, spec: SetSpec, u: string, h: string, n: string)
    requires t in w.sets && w' == w.(sets := w.sets[t := w.sets[t].(spec := spec)])
    ensures HeldIn(w', u, h, n) <==> HeldIn(w, u, h, n)
  {
    if u in w.sets && n in w.hosts {
      SameHoldingAnySpec(w.hosts[n], w'.sets[u], w.sets[u], h);
    }
  }

  lemma DeletionSpares(
    w: World, w': World, t: string, apis: map<string, ReleaseApi>, order: seq<string>, u: string, h: string, n: string)
    requires Inv(w) && t in w.sets && Enumerates(order, w.sets[t].status.Keys)
    requires !EndsHalfway(ViewIn(w, t), order, apis)
    requires
      var r := CleanUp(ViewIn(w, t), order, apis);
      w' == World(r.view.hosts, w.sets - {t}) || w' == Put(w, r.view)
    requires u in w.sets && HeldIn(w', u, h, n)
    ensures HeldIn(w, u, h, n)
  {
    DeletionHolds(w, t, apis, order, w'.sets[u], h, n);
    SameHoldingAnySpec(w.hosts[n], w'.sets[u], w.sets[u], h);
  }

  /** Nobody but the operator makes a set hold a host. */
  lemma OutsideHolds(w: World, step: Step, w': World, u: string, h: string, n: string)
    requires Inv(w) && Inv(w') && (step.Edit? || step.Appear? || step.Vanish?) && Next(w, step, w')
    requires u in w.sets && HeldIn(w', u, h, n)
    ensures HeldIn(w, u, h, n)
  {
    match step
    case Edit(x) => SameStatusSameHosts(w, w', u, h, n);
    case Appear(x) => AppearanceHolds(w, w', x, u, h, n);
    case Vanish(_) =>
  }

  lemma RequestHolds(w: World, step: Step, w': World, u: string, h: string, n: string)
    requires (step.Create? || step.Update?) && Next(w, step, w') && u in w.sets && HeldIn(w', u, h, n)
    ensures HeldIn(w, u, h, n)
  {
    match step
    case Create(_, _) =>
    case Update(t, spec, _) => UpdateHolds(w, w', t, spec, u, h, n);
  }

  /** A set that is not itself reconciled or created holds only what it held. */
  lemma BystanderHolds(w: World, step: Step, w': World, u: string, h: string, n: string)
    requires Inv(w) && Inv(w') && Next(w, step, w') && u in w.sets && HeldIn(w', u, h, n)
    requires step.ReconcileSet? ==> step.uid != u
    ensures HeldIn(w, u, h, n)
  {
    if step.Create? || step.Update? {
      RequestHolds(w, step, w', u, h, n);
    } else if step.ReconcileSet? {
      ReconcileBystander(w, ViewIn(w, step.uid), step.env, step.ch, u, h, n);
    } else if step.DeleteSet? {
      DeletionSpares(w, w', step.uid, step.apis, step.order, u, h, n);
    } else {
      OutsideHolds(w, step, w', u, h, n);
    }
  }

  lemma ReconcileKeepsHosts(w: World, v: View, env: Env, ch: Choices)
    requires Reconciling(w, v, env, ch)
    ensures Reconciled(v, env, ch).view.hosts.Keys <= v.hosts.Keys
  {
    if Gates(v.bms.spec, env).stop.None? {
      EnteringKeepsInv(w, v, env, ch);
      WorkKeepsHosts(Put(w, Entered(v, env)), Entered(v, env), env, ch);
    }
  }

  lemma WorkKeepsHosts(w: World, v: View, env: Env, ch: Choices)
    requires Underway(w, v, env, ch)
    ensures Work(v, env, ch).view.hosts.Keys <= v.hosts.Keys
  {
    if env.syncListed && env.ownedListed {
      SynchronisedView(w, v);
      ReleaseStageIsWithout(Sync(v), ch.owned, env.releases);
      ReleaseStageKeepsInv(w, v, env, ch);
      var k := AfterRelease(v, env, ch).view;
      if AfterRelease(v, env, ch).result == ReleaseDone && env.poolListed && ch.selection.Some? {
        InvGivesViewOk(Put(w, k), k);
        TargetsMayBeProvisioned(k, ch);
        ProvisionAllProvides(k, Targets(v.bms.name, ch), ch.order, ImageFor(v.bms.spec, env.serverStatus), env.failing);
      }
    }
  }

  lemma SetsComeByCreation(w: World, step: Step, w': World, u: string)
    requires Inv(w) && Next(w, step, w') && u in w'.sets
    ensures u in w.sets || (step.Create? && step.s.uid == u)
  {
    match step
    case ReconcileSet(t, env, ch) => ReconcileSameSet(w, ViewIn(w, t), env, ch);
    case DeleteSet(t, apis, order) => DeletionKeepsSpecs(w, t, apis, order);
    case _ =>
  }

  /** A new set holds nothing. */
  lemma CreatedHoldsNothing(w: World, s: BaremetalSet, h: string, n: string)
    requires FreshUid(w, s.uid) && n in w.hosts
    ensures !HeldAs(w.hosts[n], s, h)
  {
    if HeldAs(w.hosts[n], s, h) {
      HeldIsOwned(w.hosts[n], s, h);
    }
  }

  lemma NewSetHoldsNothing(w: World, step: Step, w': World, u: string, h: string, n: string)
    requires Inv(w) && Next(w, step, w') && u !in w.sets
    ensures !HeldIn(w', u, h, n)
  {
    if u in w'.sets && n in w'.hosts {
      SetsComeByCreation(w, step, w', u);
      CreatedHoldsNothing(w, step.s, h, n);
    }
  }

  /** When it was selected for `h`, host `x` met the requests of `s`. */
  ghost predicate Met(s: BaremetalSet, x: Host, h: string) {
    && Eligible(s.spec.hardwareReqs, x) && Subset(s.spec.selector, x.labels)
    && h in s.spec.hosts && Subset(s.spec.hosts[h].selector, x.labels)
  }

  /** The step is a reconcile of `u` that found host `n` eligible for hostname `h`. */
  ghost predicate Selects(w: World, step: Step, u: string, h: string, n: string) {
    && step.ReconcileSet? && step.uid == u && u in w.sets && n in w.hosts
    && Met(w.sets[u], AfterDrop(w.sets[u], w.hosts[n]), h)
  }

  lemma ReconcileSelects(w: World, v: View, env: Env, ch: Choices, h: string, n: string)
    requires Reconciling(w, v, env, ch) && !HeldIn(w, v.bms.uid, h, n)
    requires HeldIn(Put(w, Reconciled(v, env, ch).view), v.bms.uid, h, n)
    ensures n in w.hosts && Met(v.bms, AfterDrop(v.bms, w.hosts[n]), h)
  {
    ReconcileKeepsHosts(w, v, env, ch);
    NewlyHeldWasEligible(w, v, env, ch, h, n);
  }

  /** The only way to come to be held: by a reconcile of the holder that found the host eligible. */
  lemma NewHolderSelects(w: World, step: Step, w': World, u: string, h: string, n: string)
    requires Inv(w) && Inv(w') && Next(w, step, w') && HeldIn(w', u, h, n) && !HeldIn(w, u, h, n)
    ensures Selects(w, step, u, h, n)
  {
    if u !in w.sets {
      NewSetHoldsNothing(w, step, w', u, h, n);
    } else if step.ReconcileSet? && step.uid == u {
      ReconcileSelects(w, ViewIn(w, u), step.env, step.ch, h, n);
    } else {
      BystanderHolds(w, step, w', u, h, n);
    }
  }

  // ---------------------------------------------------------------- every held host was selected

  /** Set `u` has held host `n` under `h` ever since step `j`. */
  ghost predicate HeldSince(ws: seq<World>, j: nat, i: nat, u: string, h: string, n: string) {
    j < i < |ws| && forall m | j < m <= i :: HeldIn(ws[m], u, h, n)
  }

  /** Step `j` is the reconcile of `u` that selected host `n` for `h`, which holds it up to state `i`. */
  ghost predicate SelectedAt(
    ws: seq<World>, steps: seq<Step>, j: nat, i: nat, u: string, h: string, n: string) {
    && j < |steps| && HeldSince(ws, j, i, u, h, n)
    && !HeldIn(ws[j], u, h, n) && Selects(ws[j], steps[j], u, h, n)
  }

  lemma SelectedNow(ws: seq<World>, steps: seq<Step>, i: nat, u: string, h: string, n: string)
    requires Run(ws, steps) && i < |steps| && HeldIn(ws[i + 1], u, h, n) && !HeldIn(ws[i], u, h, n)
    ensures SelectedAt(ws, steps, i, i + 1, u, h, n)
  {
    InvAlways(ws, steps, i);
    InvAlways(ws, steps, i + 1);
    assert Next(ws[i], steps[i], ws[i + 1]);
    NewHolderSelects(ws[i], steps[i], ws[i + 1], u, h, n);
  }

  lemma HeldOneMore(ws: seq<World>, steps: seq<Step>, j: nat, i: nat, u: string, h: string, n: string)
    requires SelectedAt(ws, steps, j, i, u, h, n) && i + 1 < |ws| && HeldIn(ws[i + 1], u, h, n)
    ensures SelectedAt(ws, steps, j, i + 1, u, h, n)
  {
  }

  /** Some earlier step selected the host for `h`, and it has been held since. */
  ghost predicate WasSelected(ws: seq<World>, steps: seq<Step>, i: nat, u: string, h: string, n: string) {
    exists j: nat :: SelectedAt(ws, steps, j, i, u, h, n)
  }

  lemma StillSelected(ws: seq<World>, steps: seq<Step>, i: nat, u: string, h: string, n: string)
    requires WasSelected(ws, steps, i, u, h, n) && i + 1 < |ws| && HeldIn(ws[i + 1], u, h, n)
    ensures WasSelected(ws, steps, i + 1, u, h, n)
  {
    var j: nat :| SelectedAt(ws, steps, j, i, u, h, n);
    HeldOneMore(ws, steps, j, i, u, h, n);
  }

  ghost predicate Explained(ws: seq<World>, steps: seq<Step>, i: nat, u: string, h: string, n: string)
    requires i < |ws|
  {
    HeldIn(ws[i], u, h, n) ==> WasSelected(ws, steps, i, u, h, n)
  }

  ghost predicate StaysExplained(ws: seq<World>, steps: seq<Step>, i: nat, u: string, h: string, n: string)
    requires i + 1 < |ws|
  {
    Explained(ws, steps, i, u, h, n) ==> Explained(ws, steps, i + 1, u, h, n)
  }

  lemma ExplainedStep(ws: seq<World>, steps: seq<Step>, i: nat, u: string, h: string, n: string)
    requires Run(ws, steps) && i < |steps|
    ensures StaysExplained(ws, steps, i, u, h, n)
  {
    if Explained(ws, steps, i, u, h, n) && HeldIn(ws[i + 1], u, h, n) {
      if HeldIn(ws[i], u, h, n) {
        StillSelected(ws, steps, i, u, h, n);
      } else {
        SelectedNow(ws, steps, i, u, h, n);
      }
    }
  }

  lemma ExplainedAtFirst(ws: seq<World>, steps: seq<Step>, u: string, h: string, n: string)
    requires ws != [] && ws[0].sets == map[]
    ensures Explained(ws, steps, 0, u, h, n)
  {
  }

  lemma {:induction false} ExplainedChains(
    ws: seq<World>, steps: seq<Step>, i: nat, u: string, h: string, n: string)
    requires i < |ws| && ws[0].sets == map[] && forall j | 0 <= j < i :: StaysExplained(ws, steps, j, u, h, n)
    ensures Explained(ws, steps, i, u, h, n)
    decreases i
  {
    if i == 0 {
      ExplainedAtFirst(ws, steps, u, h, n);
    } else {
      ExplainedChains(ws, steps, i - 1, u, h, n);
      assert StaysExplained(ws, steps, i - 1, u, h, n);
    }
  }

  /** In every state of every run each held host was selected by a reconcile of its set, and has been held since. */
  lemma EveryHeldHostWasSelected(ws: seq<World>, steps: seq<Step>, i: nat, u: string, h: string, n: string)
    requires Run(ws, steps) && i < |ws| && HeldIn(ws[i], u, h, n)
    ensures WasSelected(ws, steps, i, u, h, n)
  {
    forall j | 0 <= j < i ensures StaysExplained(ws, steps, j, u, h, n) {
      ExplainedStep(ws, steps, j, u, h, n);
    }
    ExplainedChains(ws, steps, i, u, h, n);
  }

  // ---------------------------------------------------------------- when the requirements are still the same

  /** The step changes the selector or hardware requests of a set whose status names an existing host. */
  ghost predicate Disruptive(w: World, step: Step) {
    && step.Update? && step.uid in w.sets
    && BasisOf(w.sets[step.uid].(spec := step.spec)) != BasisOf(w.sets[step.uid])
    && exists h :: HasHost(ViewIn(w, step.uid), h)
  }

  ghost predicate SameBasis(w: World, w': World, u: string) {
    u in w.sets && u in w'.sets && BasisOf(w.sets[u]) == BasisOf(w'.sets[u])
  }

  /** In state `i` every held host was selected under the requirements its set has in state `i`. */
  ghost predicate CurrentAt(ws: seq<World>, steps: seq<Step>, i: nat)
    requires i < |ws|
  {
    forall u, h, n, j: nat | SelectedAt(ws, steps, j, i, u, h, n) :: SameBasis(ws[j], ws[i], u)
  }

  lemma HoldingIsVisible(w: World, u: string, h: string)
    requires Inv(w) && u in w.sets
    ensures HasHost(ViewIn(w, u), h) ==> HeldIn(w, u, h, w.sets[u].status[h].bmhRef)
    ensures forall n | HeldIn(w, u, h, n) :: HasHost(ViewIn(w, u), h)
  {
    if HasHost(ViewIn(w, u), h) {
      StatusMatchesHosts(w, u, h, w.sets[u].status[h].bmhRef);
    }
    forall n | HeldIn(w, u, h, n) ensures HasHost(ViewIn(w, u), h) {
      StatusMatchesHosts(w, u, h, n);
    }
  }

  /** While its holder keeps a host, an undisruptive step keeps the holder's requirements. */
  lemma BasisKept(w: World, step: Step, w': World, u: string, h: string, n: string)
    requires Inv(w) && Next(w, step, w') && !Disruptive(w, step) && HeldIn(w, u, h, n) && u in w'.sets
    ensures SameBasis(w, w', u)
  {
    SpecChangesByUpdateOnly(w, step, w', u);
    HoldingIsVisible(w, u, h);
  }

  lemma BasisOfSelection(ws: seq<World>, steps: seq<Step>, i: nat, u: string, h: string, n: string)
    requires Run(ws, steps) && i < |steps| && SelectedAt(ws, steps, i, i + 1, u, h, n)
    ensures SameBasis(ws[i], ws[i + 1], u)
  {
    InvAlways(ws, steps, i);
    assert Next(ws[i], steps[i], ws[i + 1]) && HeldIn(ws[i + 1], u, h, n);
    SpecChangesByUpdateOnly(ws[i], steps[i], ws[i + 1], u);
  }

  lemma SelectedBefore(ws: seq<World>, steps: seq<Step>, j: nat, i: nat, u: string, h: string, n: string)
    requires SelectedAt(ws, steps, j, i + 1, u, h, n) && j < i
    ensures SelectedAt(ws, steps, j, i, u, h, n) && HeldIn(ws[i], u, h, n) && u in ws[i + 1].sets
  {
  }

  lemma BasisKeptSince(
    ws: seq<World>, steps: seq<Step>, j: nat, i: nat, u: string, h: string, n: string)
    requires Run(ws, steps) && i < |steps| && !Disruptive(ws[i], steps[i])
    requires SelectedAt(ws, steps, j, i, u, h, n) && HeldIn(ws[i], u, h, n) && u in ws[i + 1].sets
    requires SameBasis(ws[j], ws[i], u)
    ensures SameBasis(ws[j], ws[i + 1], u)
  {
    InvAlways(ws, steps, i);
    assert Next(ws[i], steps[i], ws[i + 1]);
    BasisKept(ws[i], steps[i], ws[i + 1], u, h, n);
  }

  lemma UndisruptedStaysCurrent(ws: seq<World>, steps: seq<Step>, i: nat)
    requires Run(ws, steps) && i < |steps| && CurrentAt(ws, steps, i) && !Disruptive(ws[i], steps[i])
    ensures CurrentAt(ws, steps, i + 1)
  {
    var k := i + 1;
    forall u, h, n, j: nat | SelectedAt(ws, steps, j, k, u, h, n) ensures SameBasis(ws[j], ws[k], u) {
      if j < i {
        SelectedBefore(ws, steps, j, i, u, h, n);
        BasisKeptSince(ws, steps, j, i, u, h, n);
      } else {
        BasisOfSelection(ws, steps, i, u, h, n);
      }
    }
  }

  lemma DisruptionShows(ws: seq<World>, steps: seq<Step>, i: nat)
    requires Run(ws, steps) && i < |steps| && CurrentAt(ws, steps, i) && Disruptive(ws[i], steps[i])
    ensures !CurrentAt(ws, steps, i + 1)
  {
    var u := steps[i].uid;
    var h :| HasHost(ViewIn(ws[i], u), h);
    var n := ws[i].sets[u].status[h].bmhRef;
    InvAlways(ws, steps, i);
    assert Next(ws[i], steps[i], ws[i + 1]);
    HoldingIsVisible(ws[i], u, h);
    UpdateHolds(ws[i], ws[i + 1], u, steps[i].spec, u, h, n);
    EveryHeldHostWasSelected(ws, steps, i, u, h, n);
    var j: nat :| SelectedAt(ws, steps, j, i, u, h, n);
    HeldOneMore(ws, steps, j, i, u, h, n);
    assert SameBasis(ws[j], ws[i], u) && !SameBasis(ws[j], ws[i + 1], u);
  }

  predicate Validated(step: Step) {
    step.Update? ==> !step.skipValidation
  }

  /** A disruptive update of a set that asks for no host at all before it, yet still has one. */
  ghost predicate DisruptsEmptied(w: World, step: Step) {
    Disruptive(w, step) && w.sets[step.uid].spec.hosts == map[]
  }

  /** The webhook lets a disruptive update through only if the set asked for no host before. */
  lemma DisruptiveOnlyWhenEmptied(w: World, step: Step, w': World)
    requires Next(w, step, w') && Validated(step)
    ensures Disruptive(w, step) <==> DisruptsEmptied(w, step)
  {
    assert Disruptive(w, step) ==> TemplateOk(step.spec, w.sets[step.uid].spec);
  }

  /** A step leaves every held host selected under its set's present requirements exactly when it is not disruptive. */
  lemma BasisStepExactly(ws: seq<World>, steps: seq<Step>, i: nat)
    requires Run(ws, steps) && i < |steps| && CurrentAt(ws, steps, i)
    ensures CurrentAt(ws, steps, i + 1) <==> !Disruptive(ws[i], steps[i])
    ensures Validated(steps[i]) ==> (CurrentAt(ws, steps, i + 1) <==> !DisruptsEmptied(ws[i], steps[i]))
  {
    if Disruptive(ws[i], steps[i]) {
      DisruptionShows(ws, steps, i);
    } else {
      UndisruptedStaysCurrent(ws, steps, i);
    }
    if Validated(steps[i]) {
      assert Next(ws[i], steps[i], ws[i + 1]);
      DisruptiveOnlyWhenEmptied(ws[i], steps[i], ws[i + 1]);
    }
  }

  ghost predicate Undisrupted(ws: seq<World>, steps: seq<Step>, i: nat)
    requires i <= |ws| && i <= |steps|
  {
    forall j | 0 <= j < i :: !Disruptive(ws[j], steps[j])
  }

  lemma {:induction false} Chain(p: nat -> bool, i: nat)
    requires p(0) && forall j: nat | j < i :: p(j) ==> p(j + 1)
    ensures p(i)
  {
    if i > 0 {
      Chain(p, i - 1);
    }
  }

  lemma CurrentAtFirst(ws: seq<World>, steps: seq<Step>)
    requires ws != []
    ensures CurrentAt(ws, steps, 0)
  {
  }

  lemma CurrentSoFar(ws: seq<World>, steps: seq<Step>, i: nat)
    requires Run(ws, steps) && i < |ws| && Undisrupted(ws, steps, i)
    ensures CurrentAt(ws, steps, i)
  {
    ghost var current: nat -> bool := (j: nat) => j < |ws| && CurrentAt(ws, steps, j);
    CurrentAtFirst(ws, steps);
    forall j: nat | j < i ensures current(j) ==> current(j + 1) {
      if current(j) {
        BasisStepExactly(ws, steps, j);
      }
    }
    Chain(current, i);
  }

  ghost predicate AlwaysCurrent(ws: seq<World>, steps: seq<Step>) {
    forall i | 0 <= i < |ws| :: CurrentAt(ws, steps, i)
  }

  /** Held hosts were selected under present requirements in every state exactly when no step is disruptive. */
  lemma BasisInEveryRunExactly(ws: seq<World>, steps: seq<Step>)
    requires Run(ws, steps)
    ensures AlwaysCurrent(ws, steps) <==> Undisrupted(ws, steps, |steps|)
  {
    if Undisrupted(ws, steps, |steps|) {
      forall i | 0 <= i < |ws| ensures CurrentAt(ws, steps, i) {
        CurrentSoFar(ws, steps, i);
      }
    }
    if AlwaysCurrent(ws, steps) {
      forall j | 0 <= j < |steps| ensures !Disruptive(ws[j], steps[j]) {
        assert CurrentAt(ws, steps, j) && CurrentAt(ws, steps, j + 1);
        BasisStepExactly(ws, steps, j);
      }
    }
  }

  ghost predicate AllValidated(steps: seq<Step>) {
    forall j | 0 <= j < |steps| :: Validated(steps[j])
  }

  ghost predicate SomeDisruptsEmptied(ws: seq<World>, steps: seq<Step>)
    requires |steps| <= |ws|
  {
    exists j :: 0 <= j < |steps| && DisruptsEmptied(ws[j], steps[j])
  }

  /** With every update validated: exactly when no update changes the requirements of an emptied set that has a host. */
  lemma BasisInValidatedRunExactly(ws: seq<World>, steps: seq<Step>)
    requires Run(ws, steps) && AllValidated(steps)
    ensures AlwaysCurrent(ws, steps) <==> !SomeDisruptsEmptied(ws, steps)
  {
    BasisInEveryRunExactly(ws, steps);
    forall j | 0 <= j < |steps| ensures Disruptive(ws[j], steps[j]) <==> DisruptsEmptied(ws[j], steps[j]) {
      assert Next(ws[j], steps[j], ws[j + 1]) && Validated(steps[j]);
      DisruptiveOnlyWhenEmptied(ws[j], steps[j], ws[j + 1]);
    }
  }

  /** A reconcile of `u` in step `j` found host `n` eligible under selector and hardware requests `b`. */
  ghost predicate SelectedUnder(ws: seq<World>, steps: seq<Step>, j: nat, u: string, n: string, b: Basis) {
    && j < |steps| && j < |ws| && steps[j].ReconcileSet? && steps[j].uid == u
    && u in ws[j].sets && n in ws[j].hosts
    && var x := AfterDrop(ws[j].sets[u], ws[j].hosts[n]);
       Eligible(b.hardwareReqs, x) && Subset(b.selector, x.labels)
  }

  /**
   In an undisrupted run every held host was found eligible, under the selector and
   hardware requests its set has now, by the reconcile since which it is held.
   */
  lemma SelectedUnderPresentRequirements(
    ws: seq<World>, steps: seq<Step>, i: nat, u: string, h: string, n: string)
    requires Run(ws, steps) && i < |ws| && Undisrupted(ws, steps, i) && HeldIn(ws[i], u, h, n)
    ensures exists j: nat :: HeldSince(ws, j, i, u, h, n) && SelectedUnder(ws, steps, j, u, n, BasisOf(ws[i].sets[u]))
  {
    CurrentSoFar(ws, steps, i);
    EveryHeldHostWasSelected(ws, steps, i, u, h, n);
    var j: nat :| SelectedAt(ws, steps, j, i, u, h, n);
    assert SameBasis(ws[j], ws[i], u);
    assert SelectedUnder(ws, steps, j, u, n, BasisOf(ws[i].sets[u]));
  }

  // ---------------------------------------------------------------- one update per finished reconcile

  /** The step creates `u`, or is a reconcile of `u` that finishes. */
  ghost predicate Refreshes(w: World, step: Step, u: string) {
    match step
    case Create(s, _) => s.uid == u
    case ReconcileSet(t, env, ch) =>
      && t == u && u in w.sets && Allowed(Entered(ViewIn(w, u), env), env, ch)
      && Reconciled(ViewIn(w, u), env, ch).outcome == Finished
    case _ => false
  }

  /** Set `u` was updated in step `l`, and has not been refreshed between then and state `i`. */
  ghost predicate UpdatedSince(ws: seq<World>, steps: seq<Step>, l: nat, i: nat, u: string) {
    && l < i <= |steps| && i <= |ws| && steps[l].Update? && steps[l].uid == u
    && forall m | l < m < i :: !Refreshes(ws[m], steps[m], u)
  }

  ghost predicate Tidy(ws: seq<World>, steps: seq<Step>, i: nat, u: string) {
    forall l: nat :: !UpdatedSince(ws, steps, l, i, u)
  }

  /** Every update is validated, and a finished reconcile lies between two updates of a set. */
  ghost predicate Disciplined(ws: seq<World>, steps: seq<Step>) {
    AllValidated(steps) && forall j | 0 <= j < |steps| && steps[j].Update? :: Tidy(ws, steps, j, steps[j].uid)
  }

  ghost predicate TidyHoldOnlyRequested(ws: seq<World>, steps: seq<Step>, i: nat)
    requires i < |ws|
  {
    forall u, h, n | Tidy(ws, steps, i, u) && HeldIn(ws[i], u, h, n) :: h in ws[i].sets[u].spec.hosts
  }

  /** What is tidy after a step was refreshed by it, or tidy before and not updated. */
  lemma TidyBefore(ws: seq<World>, steps: seq<Step>, i: nat, u: string)
    requires i < |steps| && |ws| == |steps| + 1 && Tidy(ws, steps, i + 1, u)
    ensures !(steps[i].Update? && steps[i].uid == u)
    ensures Refreshes(ws[i], steps[i], u) || Tidy(ws, steps, i, u)
  {
    assert !UpdatedSince(ws, steps, i, i + 1, u);
    if !Refreshes(ws[i], steps[i], u) {
      forall l: nat ensures !UpdatedSince(ws, steps, l, i, u) {
        assert !UpdatedSince(ws, steps, l, i + 1, u);
      }
    }
  }

  lemma FinishedIsTidy(w: World, step: Step, w': World, u: string, h: string, n: string)
    requires Inv(w) && Next(w, step, w') && HeldIn(w', u, h, n) && Refreshes(w, step, u) && step.ReconcileSet?
    ensures h in w'.sets[u].spec.hosts
  {
    FinishedHoldsOnlyRequested(w, ViewIn(w, u), step.env, step.ch, h, n);
    SpecChangesByUpdateOnly(w, step, w', u);
  }

  lemma StillHeldTidy(w: World, step: Step, w': World, u: string, h: string, n: string)
    requires Inv(w) && Inv(w') && Next(w, step, w') && HeldIn(w', u, h, n)
    requires !(step.Update? && step.uid == u)
    requires Refreshes(w, step, u) || (HeldIn(w, u, h, n) ==> h in w.sets[u].spec.hosts)
    ensures h in w'.sets[u].spec.hosts
  {
    if !HeldIn(w, u, h, n) {
      NewHolderSelects(w, step, w', u, h, n);
      SpecChangesByUpdateOnly(w, step, w', u);
    } else if Refreshes(w, step, u) && step.ReconcileSet? {
      FinishedIsTidy(w, step, w', u, h, n);
    } else {
      SpecChangesByUpdateOnly(w, step, w', u);
    }
  }

  lemma {:induction false} TidyInEveryRun(ws: seq<World>, steps: seq<Step>, i: nat)
    requires Run(ws, steps) && i < |ws|
    ensures TidyHoldOnlyRequested(ws, steps, i)
    decreases i
  {
    if i > 0 {
      TidyInEveryRun(ws, steps, i - 1);
      TidyStep(ws, steps, i - 1);
    }
  }

  lemma TidyStep(ws: seq<World>, steps: seq<Step>, i: nat)
    requires Run(ws, steps) && i < |steps| && TidyHoldOnlyRequested(ws, steps, i)
    ensures TidyHoldOnlyRequested(ws, steps, i + 1)
  {
    InvAlways(ws, steps, i);
    InvAlways(ws, steps, i + 1);
    assert Next(ws[i], steps[i], ws[i + 1]);
    var k := i + 1;
    forall u, h, n | Tidy(ws, steps, k, u) && HeldIn(ws[k], u, h, n) ensures h in ws[k].sets[u].spec.hosts {
      TidyBefore(ws, steps, i, u);
      StillHeldTidy(ws[i], steps[i], ws[i + 1], u, h, n);
    }
  }

  lemma TidyIsNotDisruptive(ws: seq<World>, steps: seq<Step>, i: nat)
    requires Run(ws, steps) && Disciplined(ws, steps) && i < |steps|
    ensures !Disruptive(ws[i], steps[i])
  {
    if Disruptive(ws[i], steps[i]) {
      var h :| HasHost(ViewIn(ws[i], steps[i].uid), h);
      InvAlways(ws, steps, i);
      TidyInEveryRun(ws, steps, i);
      HoldingIsVisible(ws[i], steps[i].uid, h);
      assert Next(ws[i], steps[i], ws[i + 1]) && Validated(steps[i]);
      DisruptiveOnlyWhenEmptied(ws[i], steps[i], ws[i + 1]);
    }
  }

  /** A caller who validates every update and waits for a finished reconcile before the next one disrupts nothing. */
  lemma DisciplinedRunsAreUndisrupted(ws: seq<World>, steps: seq<Step>)
    requires Run(ws, steps) && Disciplined(ws, steps)
    ensures Undisrupted(ws, steps, |steps|) && AlwaysCurrent(ws, steps)
  {
    forall j | 0 <= j < |steps| ensures !Disruptive(ws[j], steps[j]) {
      TidyIsNotDisruptive(ws, steps, j);
    }
    BasisInEveryRunExactly(ws, steps);
  }

  function Updated(w: World, u: string, spec: SetSpec): World
    requires u in w.sets
  {
    w.(sets := w.sets[u := w.sets[u].(spec := spec)])
  }

  /** Striking off every hostname is always accepted. */
  lemma EmptyingIsAccepted(w: World, u: string, spec: SetSpec)
    requires u in w.sets && InNamespace(w.sets[u].spec.passwordSecret, w.sets[u].namespace)
    requires spec == w.sets[u].spec.(hosts := map[])
    ensures Next(w, Update(u, spec, false), Updated(w, u, spec))
  {
  }

  /** So is asking an empty set for hostnames that still have their hosts, under any selector. */
  lemma RefillingIsAccepted(w: World, u: string, spec: SetSpec)
    requires u in w.sets && w.sets[u].spec.hosts == map[] && SecretNamespacesOk(w.sets[u].(spec := spec))
    requires forall h | h in spec.hosts :: HasHost(ViewIn(w, u), h)
    ensures Next(w, Update(u, spec, false), Updated(w, u, spec))
  {
    NothingNewFits(w.hosts, spec, SyncedStatus(w.hosts, w.sets[u].status));
  }

  /** Two accepted updates without that wait: strike all hostnames off, then ask for them under another selector. */
  lemma TwoUpdatesDisrupt(w: World, u: string, emptied: SetSpec, refilled: SetSpec)
    requires u in w.sets && SecretNamespacesOk(w.sets[u])
    requires w.sets[u].spec.hosts != map[] && forall h | h in w.sets[u].spec.hosts :: HasHost(ViewIn(w, u), h)
    requires emptied == w.sets[u].spec.(hosts := map[])
    requires refilled == w.sets[u].spec.(selector := refilled.selector) && refilled.selector != w.sets[u].spec.selector
    ensures
      var w' := Updated(w, u, emptied);
      && Next(w, Update(u, emptied, false), w') && !Disruptive(w, Update(u, emptied, false))
      && Next(w', Update(u, refilled, false), Updated(w', u, refilled)) && Disruptive(w', Update(u, refilled, false))
  {
    var w' := Updated(w, u, emptied);
    EmptyingIsAccepted(w, u, emptied);
    forall h | h in refilled.hosts ensures HasHost(ViewIn(w', u), h) {
      assert HasHost(ViewIn(w, u), h);
    }
    RefillingIsAccepted(w', u, refilled);
    var h :| h in w.sets[u].spec.hosts;
    assert HasHost(ViewIn(w', u), h);
  }

  lemma SameHoldingAnySpec(x: Host, s: BaremetalSet, t: BaremetalSet, h: string)
    requires s.uid == t.uid && s.namespace == t.namespace && s.name == t.name
    ensures HeldAs(x, s, h) <==> HeldAs(x, t, h)
  {
  }
}
