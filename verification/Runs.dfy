/**
 Runs of the whole system: sets are created, updated, reconciled and deleted in
 any interleaving, Metal3 and administrators change hosts, hosts appear and
 vanish. Ownership is exclusive and consistent in every state of every run.
 */
module Runs {
  import opened Types
  import opened Allocation
  import opened ScaleUp
  import opened Lifecycle
  import opened Reconcile
  import opened Ownership
  import opened Stages
  import opened Guarantees
  import opened Effects
  import opened Admission

  datatype Step =
    | Create(s: BaremetalSet, skipValidation: bool)
    | Update(uid: string, spec: SetSpec, skipValidation: bool)
    | ReconcileSet(uid: string, env: Env, ch: Choices)
    | DeleteSet(uid: string, apis: map<string, ReleaseApi>, order: seq<string>)
    | Edit(x: Host)
    | Appear(x: Host)
    | Vanish(name: string)

  function ViewIn(w: World, u: string): View
    requires u in w.sets
  {
    View(w.hosts, w.sets[u])
  }

  /** Host `n` is held by set `u` as hostname `h`. */
  ghost predicate HeldIn(w: World, u: string, h: string, n: string) {
    u in w.sets && n in w.hosts && HeldAs(w.hosts[n], w.sets[u], h)
  }

  /** A uid is fresh when no set has it and no host is still labelled with it. */
  ghost predicate FreshUid(w: World, u: string) {
    u !in w.sets && forall n | n in w.hosts && OwnerUid in w.hosts[n].labels :: w.hosts[n].labels[OwnerUid] != u
  }

  /** Others never touch the operator's labels, nor the provisioning fields of a labelled host. */
  ghost predicate OutsideEdit(x: Host, x': Host) {
    && x'.name == x.name
    && (forall k | OperatorKey(k) :: k in x.labels <==> k in x'.labels)
    && (forall k | OperatorKey(k) && k in x.labels && k in x'.labels :: x.labels[k] == x'.labels[k])
    && (!Clean(x) ==>
          && x'.consumerRef == x.consumerRef && x'.image == x.image
          && x'.userData == x.userData && x'.networkData == x.networkData)
  }

  /** No status entry of any set names the host. */
  ghost predicate Unreferenced(w: World, n: string) {
    forall u, h | u in w.sets && h in w.sets[u].status :: w.sets[u].status[h].bmhRef != n
  }

  /** What a step does, whether or not it breaks anything. */
  ghost predicate Attempt(w: World, step: Step, w': World) {
    match step
    case Create(s, skip) =>
      && FreshUid(w, s.uid) && s.status == map[]
      && (skip || CreateAccepted(w.hosts, s))
      && w' == w.(sets := w.sets[s.uid := s])
    case Update(u, spec, skip) =>
      && u in w.sets
      && (skip || UpdateAccepted(w.hosts, w.sets[u].(spec := spec), w.sets[u].spec))
      && w' == w.(sets := w.sets[u := w.sets[u].(spec := spec)])
    case ReconcileSet(u, env, ch) =>
      && u in w.sets && w.sets[u].uid == u
      && Allowed(Entered(ViewIn(w, u), env), env, ch)
      && w' == Put(w, Reconciled(ViewIn(w, u), env, ch).view)
    case DeleteSet(u, apis, order) =>
      && u in w.sets && Enumerates(order, w.sets[u].status.Keys)
      && var r := CleanUp(ViewIn(w, u), order, apis);
         w' == if DropsFinalizer(r) then World(r.view.hosts, w.sets - {u}) else Put(w, r.view)
    case Edit(x) =>
      x.name in w.hosts && OutsideEdit(w.hosts[x.name], x) && w' == w.(hosts := w.hosts[x.name := x])
    case Appear(x) =>
      x.name !in w.hosts && Clean(x) && w' == w.(hosts := w.hosts[x.name := x])
    case Vanish(n) =>
      w' == w.(hosts := w.hosts - {n})
  }

  /**
   The steps that break the invariant: a reconcile or a deletion that ends in a
   release which frees the host and then fails to delete its secrets, and a host
   that appears under a name some status still has.
   */
  ghost predicate Breaks(w: World, step: Step) {
    match step
    case ReconcileSet(u, env, ch) =>
      u in w.sets && Gates(w.sets[u].spec, env).stop.None? && !ReleasesSafe(Entered(ViewIn(w, u), env), env, ch)
    case DeleteSet(u, apis, order) => u in w.sets && EndsHalfway(ViewIn(w, u), order, apis)
    case Appear(x) => !Unreferenced(w, x.name)
    case _ => false
  }

  ghost predicate Next(w: World, step: Step, w': World) {
    Attempt(w, step, w') && !Breaks(w, step)
  }

  // ---------------------------------------------------------------- every step keeps the invariant

  lemma SpecDoesNotMatter(hosts: HostMap, s: BaremetalSet, spec: SetSpec)
    requires SetOk(hosts, s)
    ensures SetOk(hosts, s.(spec := spec))
  {
  }

  lemma CreateKeepsInv(w: World, s: BaremetalSet)
    requires Inv(w) && FreshUid(w, s.uid) && s.status == map[]
    ensures Inv(w.(sets := w.sets[s.uid := s]))
  {
    forall n | n in w.hosts ensures !Owned(s, w.hosts[n]) {
      OtherUidNotOwned(s, w.hosts[n]);
    }
    PutKeepsInv(w, View(w.hosts, s));
  }

  lemma UpdateKeepsInv(w: World, u: string, spec: SetSpec)
    requires Inv(w) && u in w.sets
    ensures Inv(w.(sets := w.sets[u := w.sets[u].(spec := spec)]))
  {
    SpecDoesNotMatter(w.hosts, w.sets[u], spec);
    PutKeepsInv(w, View(w.hosts, w.sets[u].(spec := spec)));
  }

  lemma ReconcileKeepsInv(w: World, v: View, env: Env, ch: Choices)
    requires Reconciling(w, v, env, ch)
    ensures Inv(Put(w, Reconciled(v, env, ch).view)) && Reconciled(v, env, ch).view.bms.uid == v.bms.uid
  {
    var e := Entered(v, env);
    ConditionsKeepInv(w, v, e.bms.conditions);
    if Gates(v.bms.spec, env).stop.None? {
      EnteringKeepsInv(w, v, env, ch);
      WorkKeepsInv(Put(w, e), e, env, ch);
      var r := Work(e, env, ch).view;
      PutTwice(w, e, r);
      ConditionsKeepInv(Put(w, r), r, Reconciled(v, env, ch).view.bms.conditions);
      PutTwice(w, r, Reconciled(v, env, ch).view);
    }
  }

  lemma EditKeepsHolding(x: Host, x': Host, s: BaremetalSet)
    requires OutsideEdit(x, x')
    ensures Owned(s, x) <==> Owned(s, x')
    ensures forall h :: HeldAs(x, s, h) ==> HeldAs(x', s, h)
    ensures OperatorKey(HostnameOf(s.name)) && (HostnameOf(s.name) in x.labels <==> HostnameOf(s.name) in x'.labels)
    ensures HostnameOf(s.name) in x.labels ==> x.labels[HostnameOf(s.name)] == x'.labels[HostnameOf(s.name)]
  {
    assert forall k | k in OwnerLabels(s) :: OperatorKey(k);
    forall h | HeldAs(x, s, h) ensures HeldAs(x', s, h) {
      HeldIsOwned(x, s, h);
      assert OperatorKey(OwnerUid) && !Clean(x);
      forall k | k in ClaimLabels(s, h) ensures k in x'.labels && x'.labels[k] == ClaimLabels(s, h)[k] {
        assert OperatorKey(k);
      }
      forall n | HostnameOf(n) in x'.labels ensures n == s.name {
        assert OperatorKey(HostnameOf(n));
      }
    }
  }

  lemma EditKeepsSetOk(hosts: HostMap, s: BaremetalSet, x': Host)
    requires SetOk(hosts, s) && x'.name in hosts && OutsideEdit(hosts[x'.name], x')
    ensures SetOk(hosts[x'.name := x'], s)
  {
    var hosts' := hosts[x'.name := x'];
    EditKeepsHolding(hosts[x'.name], x', s);
    forall h | h in s.status ensures EntryOk(hosts', s, h) {
      assert EntryOk(hosts, s, h);
    }
    forall n | n in hosts' && Owned(s, hosts'[n]) ensures OwnedOk(s, n, hosts'[n]) {
      assert Owned(s, hosts[n]) && OwnedOk(s, n, hosts[n]);
    }
  }

  lemma EditKeepsInv(w: World, x': Host)
    requires Inv(w) && x'.name in w.hosts && OutsideEdit(w.hosts[x'.name], x')
    ensures Inv(w.(hosts := w.hosts[x'.name := x']))
  {
    var x := w.hosts[x'.name];
    assert HostOk(x'.name, x);
    forall u | u in w.sets ensures SetOk(w.hosts[x'.name := x'], w.sets[u]) {
      EditKeepsSetOk(w.hosts, w.sets[u], x');
    }
    EditKeepsClean(x, x');
  }

  lemma EditKeepsClean(x: Host, x': Host)
    requires OutsideEdit(x, x')
    ensures Clean(x) ==> Clean(x')
  {
  }

  lemma AppearKeepsInv(w: World, x: Host)
    requires Inv(w) && x.name !in w.hosts && Clean(x) && Unreferenced(w, x.name)
    ensures Inv(w.(hosts := w.hosts[x.name := x]))
  {
    var hosts' := w.hosts[x.name := x];
    forall u | u in w.sets ensures SetOk(hosts', w.sets[u]) {
      var s := w.sets[u];
      OtherUidNotOwned(s, x);
      forall h | h in s.status ensures EntryOk(hosts', s, h) {
        assert EntryOk(w.hosts, s, h);
      }
      forall n | n in hosts' && Owned(s, hosts'[n]) ensures OwnedOk(s, n, hosts'[n]) {
        assert OwnedOk(s, n, w.hosts[n]);
      }
    }
  }

  lemma VanishKeepsInv(w: World, n: string)
    requires Inv(w)
    ensures Inv(w.(hosts := w.hosts - {n}))
  {
  }

  lemma DeleteKeepsInv(w: World, u: string, apis: map<string, ReleaseApi>, order: seq<string>)
    requires Inv(w) && u in w.sets && Enumerates(order, w.sets[u].status.Keys)
    requires !EndsHalfway(ViewIn(w, u), order, apis)
    ensures Inv(Put(w, CleanUp(ViewIn(w, u), order, apis).view))
    ensures Inv(World(CleanUp(ViewIn(w, u), order, apis).view.hosts, w.sets - {u}))
  {
    CleanUpKeepsInv(w, ViewIn(w, u), order, apis);
    RemovingSetKeepsInv(w, CleanUp(ViewIn(w, u), order, apis).view);
  }

  lemma NextKeepsInv(w: World, step: Step, w': World)
    requires Inv(w) && Next(w, step, w')
    ensures Inv(w')
  {
    match step
    case Create(s, _) => CreateKeepsInv(w, s);
    case Update(u, spec, _) => UpdateKeepsInv(w, u, spec);
    case ReconcileSet(u, env, ch) => ReconcileKeepsInv(w, ViewIn(w, u), env, ch);
    case DeleteSet(u, apis, order) => DeleteKeepsInv(w, u, apis, order);
    case Edit(x) => EditKeepsInv(w, x);
    case Appear(x) => AppearKeepsInv(w, x);
    case Vanish(n) => VanishKeepsInv(w, n);
  }

  // ---------------------------------------------------------------- runs

  /** A run: no sets at first, every host under its name, unclaimed hosts without operator labels. */
  ghost predicate Run(ws: seq<World>, steps: seq<Step>) {
    && |ws| == |steps| + 1
    && ws[0].sets == map[] && HostsOk(ws[0].hosts)
    && forall i | 0 <= i < |steps| :: Next(ws[i], steps[i], ws[i + 1])
  }

  lemma {:induction false} InvAlways(ws: seq<World>, steps: seq<Step>, i: nat)
    requires Run(ws, steps) && i < |ws|
    ensures Inv(ws[i])
    decreases i
  {
    if i > 0 {
      InvAlways(ws, steps, i - 1);
      assert Next(ws[i - 1], steps[i - 1], ws[i]);
      NextKeepsInv(ws[i - 1], steps[i - 1], ws[i]);
    }
  }

  /**
   A status entry names an existing host exactly when the host has that set's
   labels for that hostname; and then the host also has the set's ConsumerRef, a
   non-empty image and no other hostname label.
   */
  ghost predicate StatusIsTrue(w: World) {
    forall u, h, n | u in w.sets && n in w.hosts ::
      && (Names(w.sets[u], h, n) <==> Labelled(w.hosts[n], w.sets[u], h))
      && (Names(w.sets[u], h, n) ==> HeldAs(w.hosts[n], w.sets[u], h))
  }

  ghost predicate LabelledIn(w: World, u: string, h: string, n: string) {
    u in w.sets && n in w.hosts && Labelled(w.hosts[n], w.sets[u], h)
  }

  /** Every label map is that of one set and one hostname at most; this needs only that sets have different uids. */
  ghost predicate HeldAtMostOnce(w: World) {
    forall u, h, t, g, n | LabelledIn(w, u, h, n) && LabelledIn(w, t, g, n) :: u == t && h == g
  }

  /** No host name is in two status entries, whether or not the host still exists. */
  ghost predicate NamedAtMostOnce(w: World) {
    forall u, h, t, g |
      && u in w.sets && t in w.sets && h in w.sets[u].status && g in w.sets[t].status
      && w.sets[u].status[h].bmhRef == w.sets[t].status[g].bmhRef
      :: u == t && h == g
  }

  lemma InvMeansExclusiveOwnership(w: World)
    requires Inv(w)
    ensures StatusIsTrue(w) && HeldAtMostOnce(w) && NamedAtMostOnce(w)
  {
    forall u, h, n | u in w.sets && n in w.hosts
      ensures Names(w.sets[u], h, n) <==> Labelled(w.hosts[n], w.sets[u], h)
      ensures Names(w.sets[u], h, n) ==> HeldAs(w.hosts[n], w.sets[u], h)
    {
      StatusMatchesHosts(w, u, h, n);
    }
    forall u, h, t, g, n | LabelledIn(w, u, h, n) && LabelledIn(w, t, g, n) ensures u == t && h == g {
      HeldOnce(w, u, h, t, g, n);
    }
    forall u, h, t, g | u in w.sets && t in w.sets && h in w.sets[u].status && g in w.sets[t].status &&
                        w.sets[u].status[h].bmhRef == w.sets[t].status[g].bmhRef
      ensures u == t && h == g
    {
      assert u != t ==> DisjointRefs(w.sets[u].status, w.sets[t].status);
    }
  }

  /** In every state of every run the status is true and ownership is exclusive. */
  lemma OwnershipInEveryRun(ws: seq<World>, steps: seq<Step>, i: nat)
    requires Run(ws, steps) && i < |ws|
    ensures StatusIsTrue(ws[i]) && HeldAtMostOnce(ws[i]) && NamedAtMostOnce(ws[i])
  {
    InvAlways(ws, steps, i);
    InvMeansExclusiveOwnership(ws[i]);
  }

  // ---------------------------------------------------------------- the excluded steps, exactly

  lemma ConditionsDoNotRepair(v: View, c: Conditions)
    requires !SetOk(v.hosts, v.bms)
    ensures !SetOk(SetConditions(v, c).hosts, SetConditions(v, c).bms)
  {
    var s := SetConditions(v, c).bms;
    if SetOk(v.hosts, s) {
      forall h | h in v.bms.status ensures EntryOk(v.hosts, v.bms, h) {
        assert EntryOk(v.hosts, s, h);
      }
      forall n | n in v.hosts && Owned(v.bms, v.hosts[n]) ensures OwnedOk(v.bms, n, v.hosts[n]) {
        assert Owned(s, v.hosts[n]) && OwnedOk(s, n, v.hosts[n]);
      }
    }
  }

  /** A reconcile breaks the invariant exactly when its release stage ends half-way. */
  lemma ReconcileKeepsInvExactly(w: World, v: View, env: Env, ch: Choices)
    requires Inv(w) && Sees(w, v) && Allowed(Entered(v, env), env, ch)
    ensures Inv(Put(w, Reconciled(v, env, ch).view)) <==>
            (Gates(v.bms.spec, env).stop.None? ==> ReleasesSafe(Entered(v, env), env, ch))
  {
    if Reconciling(w, v, env, ch) {
      ReconcileKeepsInv(w, v, env, ch);
    } else {
      var e := Entered(v, env);
      ConditionsKeepInv(w, v, e.bms.conditions);
      WorkKeepsInvExactly(Put(w, e), e, env, ch);
      ConditionsDoNotRepair(Work(e, env, ch).view, Reconciled(v, env, ch).view.bms.conditions);
      BrokenSetBreaksInv(w, Reconciled(v, env, ch).view);
    }
  }

  /** A new clean host keeps the invariant exactly when no status entry still names a predecessor. */
  lemma AppearKeepsInvExactly(w: World, x: Host)
    requires Inv(w) && x.name !in w.hosts && Clean(x)
    ensures Inv(w.(hosts := w.hosts[x.name := x])) <==> Unreferenced(w, x.name)
  {
    if Unreferenced(w, x.name) {
      AppearKeepsInv(w, x);
    } else {
      var u, h :| u in w.sets && h in w.sets[u].status && w.sets[u].status[h].bmhRef == x.name;
      var w' := w.(hosts := w.hosts[x.name := x]);
      if HeldAs(x, w.sets[u], h) {
        HeldIsOwned(x, w.sets[u], h);
      }
      assert !EntryOk(w'.hosts, w'.sets[u], h);
    }
  }

  lemma DeletionBreaks(w: World, w': World, u: string, apis: map<string, ReleaseApi>, order: seq<string>)
    requires Inv(w) && Attempt(w, DeleteSet(u, apis, order), w') && EndsHalfway(ViewIn(w, u), order, apis)
    ensures !Inv(w')
  {
    CleanUpKeepsInvExactly(w, ViewIn(w, u), order, apis);
  }

  /** A step breaks the invariant exactly when it is one of the excluded ones. */
  lemma StepKeepsInvExactly(w: World, step: Step, w': World)
    requires Inv(w) && Attempt(w, step, w')
    ensures Inv(w') <==> !Breaks(w, step)
  {
    if !Breaks(w, step) {
      NextKeepsInv(w, step, w');
    } else {
      match step
      case ReconcileSet(u, env, ch) => ReconcileKeepsInvExactly(w, ViewIn(w, u), env, ch);
      case DeleteSet(u, apis, order) => DeletionBreaks(w, w', u, apis, order);
      case Appear(x) => AppearKeepsInvExactly(w, x);
    }
  }

  /** A run in which the excluded steps may happen as well. */
  ghost predicate Attempts(ws: seq<World>, steps: seq<Step>) {
    && |ws| == |steps| + 1
    && ws[0].sets == map[] && HostsOk(ws[0].hosts)
    && forall i | 0 <= i < |steps| :: Attempt(ws[i], steps[i], ws[i + 1])
  }

  ghost predicate NoneBreaks(ws: seq<World>, steps: seq<Step>)
    requires |steps| <= |ws|
  {
    forall i | 0 <= i < |steps| :: !Breaks(ws[i], steps[i])
  }

  lemma AttemptsAreRun(ws: seq<World>, steps: seq<Step>)
    requires Attempts(ws, steps) && NoneBreaks(ws, steps)
    ensures Run(ws, steps)
  {
    forall i | 0 <= i < |steps| ensures Next(ws[i], steps[i], ws[i + 1]) {
      assert Attempt(ws[i], steps[i], ws[i + 1]) && !Breaks(ws[i], steps[i]);
    }
  }

  /** The invariant holds in every state of a run exactly when no step of it is an excluded one. */
  lemma InvInEveryStateExactly(ws: seq<World>, steps: seq<Step>)
    requires Attempts(ws, steps)
    ensures (forall i | 0 <= i < |ws| :: Inv(ws[i])) <==> NoneBreaks(ws, steps)
  {
    if NoneBreaks(ws, steps) {
      AttemptsAreRun(ws, steps);
      forall i | 0 <= i < |ws| ensures Inv(ws[i]) {
        InvAlways(ws, steps, i);
      }
    }
    if forall i | 0 <= i < |ws| :: Inv(ws[i]) {
      forall i | 0 <= i < |steps| ensures !Breaks(ws[i], steps[i]) {
        assert Attempt(ws[i], steps[i], ws[i + 1]);
        StepKeepsInvExactly(ws[i], steps[i], ws[i + 1]);
      }
    }
  }

  // ---------------------------------------------------------------- provisioning happens once

  /** What does not change while a host stays held under one hostname. */
  ghost predicate KeepsProvisioningData(x: Host, x': Host) {
    && x'.consumerRef == x.consumerRef && x'.userData == x.userData && x'.networkData == x.networkData
    && (x.state == Provisioned ==> x'.image == x.image)
  }

  lemma EffectKeepsData(v: View, x: Host, x': Host, image: Image, s: BaremetalSet, h: string)
    requires HostEffect(v, x, x', image) && HeldAs(x, s, h) && HeldAs(x', s, h)
    requires s.uid == v.bms.uid ==> SameSet(s, v.bms)
    ensures KeepsProvisioningData(x, x')
  {
    HeldIsOwned(x, s, h);
    HeldIsOwned(x', s, h);
    if x' != x {
      if g :| ReleasedFrom(v, x, x', g) {
        UnclaimCleans(x, v.bms, g);
      } else if g :| Reprovisioned(v, x, x', g, image) {
        assert x.consumerRef.Some?;
      } else {
        var g :| ClaimedAnew(v, x, x', g, image);
        NotClaimedAnew(v, x, x', g, image, s, h);
      }
    }
  }

  /** A held host is not selected anew under the hostname it had. */
  lemma NotClaimedAnew(v: View, x: Host, x': Host, g: string, image: Image, s: BaremetalSet, h: string)
    requires HeldAs(x, s, h) && (s.uid == v.bms.uid ==> SameSet(s, v.bms))
    requires ClaimedAnew(v, x, x', g, image)
    ensures !HeldAs(x', s, h)
  {
  }

  lemma ReconcileKeepsData(w: World, v: View, env: Env, ch: Choices, u: string, h: string, n: string)
    requires Reconciling(w, v, env, ch) && HeldIn(w, u, h, n)
    requires HeldIn(Put(w, Reconciled(v, env, ch).view), u, h, n)
    ensures KeepsProvisioningData(w.hosts[n], Reconciled(v, env, ch).view.hosts[n])
  {
    ReconcileEffect(w, v, env, ch, n);
    EffectKeepsData(Entered(v, env), w.hosts[n], Reconciled(v, env, ch).view.hosts[n],
                    ImageFor(v.bms.spec, env.serverStatus), w.sets[u], h);
  }

  lemma DeleteKeepsData(
    w: World, v: View, apis: map<string, ReleaseApi>, order: seq<string>, s: BaremetalSet, h: string, n: string)
    requires Inv(w) && Sees(w, v) && Enumerates(order, v.bms.status.Keys) && !EndsHalfway(v, order, apis)
    requires
      var hosts' := CleanUp(v, order, apis).view.hosts;
      n in w.hosts && n in hosts' && HeldAs(hosts'[n], s, h)
    ensures CleanUp(v, order, apis).view.hosts[n] == w.hosts[n]
  {
    CleanUpIsWithout(v, order, apis);
    ReleasedHost(v, Leading(order, Good(v, apis)), n);
    HeldIsOwned(CleanUp(v, order, apis).view.hosts[n], s, h);
  }

  lemma EditKeepsData(w: World, x: Host, u: string, h: string, n: string)
    requires x.name in w.hosts && OutsideEdit(w.hosts[x.name], x) && HeldIn(w, u, h, n)
    ensures KeepsProvisioningData(w.hosts[n], w.hosts[x.name := x][n])
  {
    HeldIsOwned(w.hosts[n], w.sets[u], h);
    assert OperatorKey(OwnerUid) && !Clean(w.hosts[n]);
  }

  lemma OutsideKeepsData(w: World, step: Step, w': World, u: string, h: string, n: string)
    requires !step.ReconcileSet? && !step.DeleteSet?
    requires Next(w, step, w') && HeldIn(w, u, h, n) && HeldIn(w', u, h, n)
    ensures KeepsProvisioningData(w.hosts[n], w'.hosts[n])
  {
    if step.Edit? {
      EditKeepsData(w, step.x, u, h, n);
    }
  }

  lemma NextKeepsData(w: World, step: Step, w': World, u: string, h: string, n: string)
    requires Inv(w) && Next(w, step, w') && HeldIn(w, u, h, n) && HeldIn(w', u, h, n)
    ensures KeepsProvisioningData(w.hosts[n], w'.hosts[n])
  {
    if step.ReconcileSet? {
      ReconcileKeepsData(w, ViewIn(w, step.uid), step.env, step.ch, u, h, n);
    } else if step.DeleteSet? {
      DeleteKeepsData(w, ViewIn(w, step.uid), step.apis, step.order, w'.sets[u], h, n);
    } else {
      OutsideKeepsData(w, step, w', u, h, n);
    }
  }

  ghost predicate HeldThroughout(ws: seq<World>, i: nat, j: nat, u: string, h: string, n: string) {
    i <= j < |ws| && forall m | i <= m <= j :: HeldIn(ws[m], u, h, n)
  }

  lemma RunStepKeepsData(ws: seq<World>, steps: seq<Step>, m: nat, u: string, h: string, n: string)
    requires Run(ws, steps) && m + 1 < |ws| && HeldIn(ws[m], u, h, n) && HeldIn(ws[m + 1], u, h, n)
    ensures KeepsProvisioningData(ws[m].hosts[n], ws[m + 1].hosts[n])
  {
    InvAlways(ws, steps, m);
    assert Next(ws[m], steps[m], ws[m + 1]);
    NextKeepsData(ws[m], steps[m], ws[m + 1], u, h, n);
  }

  ghost predicate ProvisionedThroughout(ws: seq<World>, i: nat, j: nat, n: string)
    requires j <= |ws|
  {
    forall m | i <= m < j :: n in ws[m].hosts && ws[m].hosts[n].state == Provisioned
  }

  ghost predicate SameProvisioning(x: Host, x': Host, withImage: bool) {
    && x'.consumerRef == x.consumerRef && x'.userData == x.userData && x'.networkData == x.networkData
    && (withImage ==> x'.image == x.image)
  }

  ghost predicate StepKeepsData(ws: seq<World>, m: nat, n: string)
    requires m + 1 < |ws|
  {
    n in ws[m].hosts && n in ws[m + 1].hosts && KeepsProvisioningData(ws[m].hosts[n], ws[m + 1].hosts[n])
  }

  lemma {:induction false} DataChains(ws: seq<World>, i: nat, j: nat, n: string)
    requires i <= j < |ws| && n in ws[i].hosts && forall m | i <= m < j :: StepKeepsData(ws, m, n)
    ensures n in ws[j].hosts && SameProvisioning(ws[i].hosts[n], ws[j].hosts[n], ProvisionedThroughout(ws, i, j, n))
    decreases j - i
  {
    if i < j {
      DataChains(ws, i, j - 1, n);
      assert StepKeepsData(ws, j - 1, n);
    }
  }

  /**
   While a host stays held under one hostname its ConsumerRef, UserData and
   NetworkData stay what they were, and so does its image as long as it is
   reported provisioned; the image URL is never empty.
   */
  lemma ProvisionedOnceInEveryRun(
    ws: seq<World>, steps: seq<Step>, i: nat, j: nat, u: string, h: string, n: string)
    requires Run(ws, steps) && HeldThroughout(ws, i, j, u, h, n)
    ensures n in ws[i].hosts && n in ws[j].hosts
    ensures SameProvisioning(ws[i].hosts[n], ws[j].hosts[n], ProvisionedThroughout(ws, i, j, n))
    ensures ws[j].hosts[n].image.Some? && ws[j].hosts[n].image.value.url != ""
  {
    assert HeldIn(ws[i], u, h, n) && HeldIn(ws[j], u, h, n);
    forall m | i <= m < j ensures StepKeepsData(ws, m, n) {
      assert HeldIn(ws[m], u, h, n) && HeldIn(ws[m + 1], u, h, n);
      RunStepKeepsData(ws, steps, m, u, h, n);
    }
    DataChains(ws, i, j, n);
  }
}
