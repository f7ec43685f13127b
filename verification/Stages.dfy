/**
 The stages of a reconcile under the ownership invariant: what each stage computes
 from a consistent world, and that the whole reconcile keeps the world consistent
 wherever it stops.
 */
module Stages {
  import opened Types
  import opened Allocation
  import opened ScaleUp
  import opened Lifecycle
  import opened Reconcile
  import opened Ownership

  /** The world and the reconciled set's view of it are consistent. */
  ghost predicate ViewOk(v: View) {
    HostsOk(v.hosts) && SetOk(v.hosts, v.bms)
  }

  lemma InvGivesViewOk(w: World, v: View)
    requires Inv(w) && Sees(w, v)
    ensures ViewOk(v)
  {
  }

  // ---------------------------------------------------------------- sync

  lemma SyncKeepsInv(w: World, v: View)
    requires Inv(w) && Sees(w, v)
    ensures Inv(Put(w, Sync(v)))
    ensures forall h | h in Sync(v).bms.status :: HasHost(Sync(v), h)
  {
    var v' := Sync(v);
    assert ViewOk(v') by {
      forall h | h in v'.bms.status ensures EntryOk(v'.hosts, v'.bms, h) {
        assert EntryOk(v.hosts, v.bms, h);
      }
      forall n | n in v'.hosts && Owned(v'.bms, v'.hosts[n]) ensures OwnedOk(v'.bms, n, v'.hosts[n]) {
        assert Owned(v.bms, v.hosts[n]) && OwnedOk(v.bms, n, v.hosts[n]);
      }
    }
    forall t | t in w.sets && t != v.bms.uid ensures DisjointRefs(w.sets[t].status, v'.bms.status) {
      RefsStayDisjoint(w.sets[t].status, v.bms.status, v'.bms.status, "");
    }
    PutKeepsInv(w, v');
  }

  // ---------------------------------------------------------------- reading the owned hosts

  /** The hostname an owned host is labelled with. */
  function HostnameIn(x: Host, s: BaremetalSet): string {
    LabelText(x.labels, HostnameOf(s.name))
  }

  /** Some of the hosts of the cluster that `s` owns, each at most once. */
  ghost predicate SomeOwned(items: seq<Host>, hosts: HostMap, s: BaremetalSet) {
    && (forall x | x in items :: x.name in hosts && hosts[x.name] == x && Owned(s, x))
    && (forall i, j | 0 <= i < j < |items| :: items[i].name != items[j].name)
  }

  lemma SomeOwnedInit(items: seq<Host>, hosts: HostMap, s: BaremetalSet)
    requires items != [] && SomeOwned(items, hosts, s)
    ensures SomeOwned(items[..|items| - 1], hosts, s)
    ensures items == items[..|items| - 1] + [items[|items| - 1]]
    ensures forall x | x in items[..|items| - 1] :: x.name != items[|items| - 1].name
  {
  }

  lemma OwnedHostname(v: View, x: Host)
    requires ViewOk(v) && x.name in v.hosts && v.hosts[x.name] == x && Owned(v.bms, x)
    ensures
      var h := HostnameIn(x, v.bms);
      HasHost(v, h) && v.bms.status[h].bmhRef == x.name && HostnameOf(v.bms.name) in x.labels
  {
  }

  lemma {:induction false} ToReleaseMeaning(v: View, items: seq<Host>)
    requires ViewOk(v) && SomeOwned(items, v.hosts, v.bms)
    ensures forall h :: h in ToRelease(items, v.bms.name, v.bms.spec.hosts) <==>
                        h !in v.bms.spec.hosts && exists x :: x in items && HostnameIn(x, v.bms) == h
    ensures Distinct(ToRelease(items, v.bms.name, v.bms.spec.hosts))
    decreases |items|
  {
    if items != [] {
      var init, last := items[..|items| - 1], items[|items| - 1];
      SomeOwnedInit(items, v.hosts, v.bms);
      ToReleaseMeaning(v, init);
      var h := HostnameIn(last, v.bms);
      OwnedHostname(v, last);
      forall x | x in init ensures HostnameIn(x, v.bms) != h {
        OwnedHostname(v, x);
      }
    }
  }

  /** The names to release: the hostnames of the status that have a host and are not in the spec. */
  lemma ToReleaseIsDropped(v: View, owned: seq<Host>)
    requires ViewOk(v) && IsList(owned, v.hosts, OwnerLabels(v.bms))
    ensures Elements(ToRelease(owned, v.bms.name, v.bms.spec.hosts)) == Dropped(v)
    ensures Distinct(ToRelease(owned, v.bms.name, v.bms.spec.hosts))
  {
    var names := ToRelease(owned, v.bms.name, v.bms.spec.hosts);
    assert SomeOwned(owned, v.hosts, v.bms);
    ToReleaseMeaning(v, owned);
    forall h | h in names ensures h in Dropped(v) {
      var x :| x in owned && HostnameIn(x, v.bms) == h;
      OwnedHostname(v, x);
    }
    forall h | h in Dropped(v) ensures h in names {
      HostOfEntry(v, h);
      assert v.hosts[v.bms.status[h].bmhRef] in owned;
    }
  }

  ghost function Dropped(v: View): set<string> {
    set h | h in v.bms.status && v.bms.status[h].bmhRef in v.hosts && h !in v.bms.spec.hosts
  }

  lemma HostOfEntry(v: View, h: string)
    requires ViewOk(v) && HasHost(v, h)
    ensures
      var x := v.hosts[v.bms.status[h].bmhRef];
      x.name == v.bms.status[h].bmhRef && HeldAs(x, v.bms, h) && Owned(v.bms, x) && HostnameIn(x, v.bms) == h
      && x.consumerRef.Some?
  {
  }

  /** `e` maps exactly the hostnames of `items` to hosts of `items` labelled so. */
  ghost predicate ByHostname(e: map<string, Host>, items: seq<Host>, s: BaremetalSet) {
    && (forall h | h in e :: e[h] in items && HostnameIn(e[h], s) == h)
    && (forall x | x in items :: HostnameIn(x, s) in e)
  }

  lemma {:induction false} ExistingHostsMeaning(v: View, items: seq<Host>)
    requires ViewOk(v) && SomeOwned(items, v.hosts, v.bms)
    ensures ByHostname(ExistingHosts(items, v.bms.name), items, v.bms)
    decreases |items|
  {
    if items != [] {
      SomeOwnedInit(items, v.hosts, v.bms);
      ExistingHostsMeaning(v, items[..|items| - 1]);
      OwnedHostname(v, items[|items| - 1]);
    }
  }

  ghost function HostsByStatus(v: View): map<string, Host> {
    map h | h in v.bms.status && v.bms.status[h].bmhRef in v.hosts :: v.hosts[v.bms.status[h].bmhRef]
  }

  lemma HostsByStatusKeys(v: View)
    requires AllHaveHosts(v)
    ensures HostsByStatus(v).Keys == v.bms.status.Keys
  {
  }

  ghost predicate AllHaveHosts(v: View) {
    forall h | h in v.bms.status :: HasHost(v, h)
  }

  /** What the owned hosts say is what the status says. */
  lemma ExistingHostsIsStatus(v: View, kept: seq<Host>)
    requires ViewOk(v) && AllHaveHosts(v) && IsList(kept, v.hosts, OwnerLabels(v.bms))
    ensures ExistingHosts(kept, v.bms.name) == HostsByStatus(v)
  {
    assert SomeOwned(kept, v.hosts, v.bms);
    ExistingHostsMeaning(v, kept);
    ByHostnameIsByStatus(v, kept, ExistingHosts(kept, v.bms.name));
  }

  lemma ByHostnameIsByStatus(v: View, kept: seq<Host>, e: map<string, Host>)
    requires ViewOk(v) && IsList(kept, v.hosts, OwnerLabels(v.bms)) && ByHostname(e, kept, v.bms)
    ensures e == HostsByStatus(v)
  {
    MappedHostsAreNamed(v, kept, e);
    NamedHostsAreMapped(v, kept, e);
    SameMap(e, HostsByStatus(v));
  }

  lemma SameMap(a: map<string, Host>, b: map<string, Host>)
    requires forall h | h in a :: h in b && b[h] == a[h]
    requires forall h | h in b :: h in a
    ensures a == b
  {
    assert a.Keys == b.Keys;
  }

  lemma NamedHostsAreMapped(v: View, kept: seq<Host>, e: map<string, Host>)
    requires ViewOk(v) && IsList(kept, v.hosts, OwnerLabels(v.bms)) && ByHostname(e, kept, v.bms)
    ensures forall h | h in HostsByStatus(v) :: h in e
  {
    forall h | h in HostsByStatus(v) ensures h in e {
      NamedHostIsMapped(v, kept, e, h);
    }
  }

  lemma MappedHostsAreNamed(v: View, kept: seq<Host>, e: map<string, Host>)
    requires ViewOk(v) && IsList(kept, v.hosts, OwnerLabels(v.bms)) && ByHostname(e, kept, v.bms)
    ensures forall h | h in e :: h in HostsByStatus(v) && HostsByStatus(v)[h] == e[h]
  {
    forall h | h in e ensures h in HostsByStatus(v) && HostsByStatus(v)[h] == e[h] {
      MappedHostIsNamed(v, kept, e, h);
    }
  }

  lemma MappedHostIsNamed(v: View, kept: seq<Host>, e: map<string, Host>, h: string)
    requires ViewOk(v) && IsList(kept, v.hosts, OwnerLabels(v.bms)) && ByHostname(e, kept, v.bms) && h in e
    ensures h in HostsByStatus(v) && HostsByStatus(v)[h] == e[h]
  {
    ListedHostIsNamed(v, kept, e[h]);
  }

  lemma NamedHostIsMapped(v: View, kept: seq<Host>, e: map<string, Host>, h: string)
    requires ViewOk(v) && IsList(kept, v.hosts, OwnerLabels(v.bms)) && ByHostname(e, kept, v.bms)
    requires h in HostsByStatus(v)
    ensures h in e
  {
    HostOfEntryIsListed(v, kept, h);
  }

  lemma ListedHostIsNamed(v: View, kept: seq<Host>, x: Host)
    requires ViewOk(v) && IsList(kept, v.hosts, OwnerLabels(v.bms)) && x in kept
    ensures HostnameIn(x, v.bms) in HostsByStatus(v) && HostsByStatus(v)[HostnameIn(x, v.bms)] == x
  {
    OwnedHostname(v, x);
  }

  lemma HostOfEntryIsListed(v: View, kept: seq<Host>, h: string)
    requires ViewOk(v) && HasHost(v, h) && IsList(kept, v.hosts, OwnerLabels(v.bms))
    ensures
      var x := v.hosts[v.bms.status[h].bmhRef];
      x in kept && HostnameIn(x, v.bms) == h
  {
    HostOfEntry(v, h);
  }

  // ---------------------------------------------------------------- provisioning

  /** The hostnames in `done`, and no others, have been provisioned between `v` and `v'`. */
  ghost predicate Provided(v: View, v': View, targets: map<string, Host>, done: set<string>, image: Image)
    requires done <= targets.Keys
  {
    && SameSet(v'.bms, v.bms) && v'.bms.conditions == v.bms.conditions
    && v'.hosts.Keys == v.hosts.Keys
    && v'.bms.status.Keys == v.bms.status.Keys + done
    && (forall h | h in v.bms.status && h !in done :: v'.bms.status[h] == v.bms.status[h])
    && (forall h | h in done :: ProvidedOne(v, v', targets[h].name, h, image))
    && (forall n | n in v.hosts && !Targeted(targets, done, n) :: v'.hosts[n] == v.hosts[n])
  }

  ghost predicate ProvidedOne(v: View, v': View, n: string, h: string, image: Image) {
    && n in v.hosts && n in v'.hosts && h in v'.bms.status
    && v'.hosts[n] == Claim(v.bms, h, image, v.hosts[n])
    && v'.bms.status[h] == Entry(v.bms, h, n, v.hosts[n].state)
  }

  ghost predicate Targeted(targets: map<string, Host>, done: set<string>, n: string)
    requires done <= targets.Keys
  {
    exists h :: h in done && targets[h].name == n
  }

  /** Everything left to do may be done. */
  ghost predicate Pending(v: View, targets: map<string, Host>, order: seq<string>) {
    && Distinct(order) && Injective(targets)
    && (forall h | h in order :: h in targets && MayProvision(v, targets[h].name, h))
  }

  lemma ProvidedNone(v: View, targets: map<string, Host>, image: Image)
    ensures Provided(v, v, targets, {}, image)
  {
  }

  lemma PendingRest(v: View, targets: map<string, Host>, order: seq<string>, image: Image)
    requires order != [] && Pending(v, targets, order)
    ensures order[0] in targets && MayProvision(v, targets[order[0]].name, order[0])
    ensures Pending(Provision(v, targets[order[0]].name, order[0], image, true).view, targets, order[1..])
  {
    var h := order[0];
    assert order[0] in order;
    var v' := Provision(v, targets[h].name, h, image, true).view;
    forall g | g in order[1..] ensures g in targets && MayProvision(v', targets[g].name, g) {
      assert g in order && g != h && MayProvision(v, targets[g].name, g);
      assert targets[g].name != targets[h].name;
    }
  }

  /** Provisioning another hostname does not change what provisioning `g` does. */
  lemma ProvidedLater(v: View, v'': View, n: string, h: string, m: string, g: string, image: Image)
    requires n in v.hosts && m != n && g != h
    requires ProvidedOne(Provision(v, n, h, image, true).view, v'', m, g, image)
    ensures ProvidedOne(v, v'', m, g, image)
  {
  }

  lemma SameClaim(s: BaremetalSet, t: BaremetalSet, g: string, image: Image, x: Host)
    requires SameSet(s, t)
    ensures Claim(s, g, image, x) == Claim(t, g, image, x)
    ensures UserDataOf(s, g) == UserDataOf(t, g) && NetworkDataOf(s, g) == NetworkDataOf(t, g)
  {
  }

  lemma ProvidedFirst(v: View, v'': View, targets: map<string, Host>, h: string, done: set<string>, image: Image)
    requires h in targets && h !in done && done <= targets.Keys && Injective(targets) && targets[h].name in v.hosts
    requires Provided(Provision(v, targets[h].name, h, image, true).view, v'', targets, done, image)
    ensures ProvidedOne(v, v'', targets[h].name, h, image)
  {
  }

  lemma ProvidedOthers(v: View, v'': View, targets: map<string, Host>, h: string, done: set<string>, image: Image)
    requires h in targets && done <= targets.Keys && targets[h].name in v.hosts
    requires Provided(Provision(v, targets[h].name, h, image, true).view, v'', targets, done, image)
    ensures forall m | m in v.hosts && !Targeted(targets, {h} + done, m) :: v''.hosts[m] == v.hosts[m]
  {
    forall m | m in v.hosts && !Targeted(targets, {h} + done, m) ensures v''.hosts[m] == v.hosts[m] {
      assert h in {h} + done;
      assert !Targeted(targets, done, m);
    }
  }

  lemma ProvidedRest(v: View, v'': View, targets: map<string, Host>, h: string, done: set<string>, image: Image)
    requires h in targets && h !in done && done <= targets.Keys && Injective(targets) && targets[h].name in v.hosts
    requires Provided(Provision(v, targets[h].name, h, image, true).view, v'', targets, done, image)
    ensures forall g | g in done :: ProvidedOne(v, v'', targets[g].name, g, image)
  {
    var n := targets[h].name;
    forall g | g in done ensures ProvidedOne(v, v'', targets[g].name, g, image) {
      assert ProvidedOne(Provision(v, n, h, image, true).view, v'', targets[g].name, g, image);
      ProvidedLater(v, v'', n, h, targets[g].name, g, image);
    }
  }

  lemma ProvidedEntries(v: View, v'': View, targets: map<string, Host>, h: string, done: set<string>, image: Image)
    requires h in targets && done <= targets.Keys && targets[h].name in v.hosts
    requires Provided(Provision(v, targets[h].name, h, image, true).view, v'', targets, done, image)
    ensures SameSet(v''.bms, v.bms) && v''.bms.conditions == v.bms.conditions && v''.hosts.Keys == v.hosts.Keys
    ensures v''.bms.status.Keys == v.bms.status.Keys + ({h} + done)
    ensures forall g | g in v.bms.status && g !in {h} + done :: v''.bms.status[g] == v.bms.status[g]
  {
  }

  /** One provisioning followed by the rest. */
  lemma ProvidedStep(
    v: View, v'': View, targets: map<string, Host>, h: string, done: set<string>, image: Image)
    requires h in targets && h !in done && done <= targets.Keys && Injective(targets)
    requires targets[h].name in v.hosts
    requires Provided(Provision(v, targets[h].name, h, image, true).view, v'', targets, done, image)
    ensures Provided(v, v'', targets, {h} + done, image)
  {
    ProvidedFirst(v, v'', targets, h, done, image);
    ProvidedOthers(v, v'', targets, h, done, image);
    ProvidedRest(v, v'', targets, h, done, image);
    ProvidedEntries(v, v'', targets, h, done, image);
  }

  /** The hostnames provisioned before the first failure. */
  ghost function Served(order: seq<string>, failing: set<string>): set<string> {
    if order == [] || order[0] in failing then {} else {order[0]} + Served(order[1..], failing)
  }

  lemma {:induction false} ServedIsPart(order: seq<string>, failing: set<string>)
    ensures Served(order, failing) <= Elements(order)
    ensures (forall h | h in order :: h !in failing) ==> Served(order, failing) == Elements(order)
  {
    if order != [] {
      ServedIsPart(order[1..], failing);
      assert order == [order[0]] + order[1..];
    }
  }

  lemma ProvisionAllStep(v: View, targets: map<string, Host>, order: seq<string>, image: Image, failing: set<string>)
    requires order != [] && Pending(v, targets, order)
    ensures order[0] in failing ==> ProvisionAll(v, targets, order, image, failing) == Provisioning(v, false)
    ensures order[0] !in failing ==>
              && (forall g | g in order[1..] :: g in targets)
              && var v' := Provision(v, targets[order[0]].name, order[0], image, true).view;
                 ProvisionAll(v, targets, order, image, failing) ==
                 ProvisionAll(v', targets, order[1..], image, failing)
  {
  }

  /** The loop reports success exactly when no call fails. */
  lemma {:induction false} ProvisionAllOk(
    v: View, targets: map<string, Host>, order: seq<string>, image: Image, failing: set<string>)
    requires Pending(v, targets, order)
    ensures ProvisionAll(v, targets, order, image, failing).ok <==> forall h | h in order :: h !in failing
    decreases |order|
  {
    if order != [] {
      PendingRest(v, targets, order, image);
      ProvisionAllStep(v, targets, order, image, failing);
      assert order == [order[0]] + order[1..];
      if order[0] !in failing {
        var v' := Provision(v, targets[order[0]].name, order[0], image, true).view;
        ProvisionAllOk(v', targets, order[1..], image, failing);
      }
    }
  }

  lemma ServedAreTargets(v: View, targets: map<string, Host>, order: seq<string>, failing: set<string>)
    requires Pending(v, targets, order)
    ensures Served(order, failing) <= targets.Keys
    ensures order != [] ==> order[0] !in Served(order[1..], failing) && Served(order[1..], failing) <= targets.Keys
  {
    ServedIsPart(order, failing);
    if order != [] {
      ServedIsPart(order[1..], failing);
      assert forall h | h in order[1..] :: h in order;
    }
  }

  /** The provisioning loop provisions exactly the names before the first failure. */
  lemma {:induction false} ProvisionAllProvides(
    v: View, targets: map<string, Host>, order: seq<string>, image: Image, failing: set<string>)
    requires Pending(v, targets, order)
    ensures Served(order, failing) <= targets.Keys
    ensures Provided(v, ProvisionAll(v, targets, order, image, failing).view, targets, Served(order, failing), image)
    decreases |order|
  {
    ServedAreTargets(v, targets, order, failing);
    if order == [] || order[0] in failing {
      ProvidedNone(v, targets, image);
      if order != [] {
        ProvisionAllStep(v, targets, order, image, failing);
      }
    } else {
      PendingRest(v, targets, order, image);
      ProvisionAllStep(v, targets, order, image, failing);
      var h := order[0];
      var v' := Provision(v, targets[h].name, h, image, true).view;
      ProvisionAllProvides(v', targets, order[1..], image, failing);
      var v'' := ProvisionAll(v', targets, order[1..], image, failing).view;
      ProvidedStep(v, v'', targets, h, Served(order[1..], failing), image);
    }
  }

  /** However far the provisioning loop gets, the invariant holds afterwards. */
  lemma {:induction false} ProvisionAllKeepsInv(
    w: World, v: View, targets: map<string, Host>, order: seq<string>, image: Image, failing: set<string>)
    requires Inv(w) && Sees(w, v) && image.url != "" && Pending(v, targets, order)
    ensures Inv(Put(w, ProvisionAll(v, targets, order, image, failing).view))
    ensures SameSet(ProvisionAll(v, targets, order, image, failing).view.bms, v.bms)
    decreases |order|
  {
    PutSame(w, v);
    if order != [] {
      PendingRest(v, targets, order, image);
      ProvisionAllStep(v, targets, order, image, failing);
      var h := order[0];
      if h !in failing {
        var v' := Provision(v, targets[h].name, h, image, true).view;
        ProvisionKeepsInv(w, v, targets[h].name, h, image, true);
        ProvisionAllKeepsInv(Put(w, v'), v', targets, order[1..], image, failing);
        PutTwice(w, v', ProvisionAll(v', targets, order[1..], image, failing).view);
      }
    }
  }

  // ---------------------------------------------------------------- the whole reconcile

  lemma SynchronisedView(w: World, v: View)
    requires Inv(w) && Sees(w, v)
    ensures Inv(Put(w, Sync(v))) && Sees(Put(w, Sync(v)), Sync(v)) && ViewOk(Sync(v)) && AllHaveHosts(Sync(v))
  {
    SyncKeepsInv(w, v);
  }

  /** The view a successful release stage leaves: nothing but the dropped hostnames is gone. */
  ghost function Kept(v: View): View {
    Without(Sync(v), Dropped(Sync(v)))
  }

  lemma WithoutHasHosts(v: View, names: set<string>)
    requires AllHaveHosts(v)
    ensures AllHaveHosts(Without(v, names))
  {
  }

  /** The release stage, if reached, does not end in a release that fails half-way. */
  ghost predicate ReleasesSafe(v: View, env: Env, ch: Choices) {
    env.syncListed && env.ownedListed ==>
      !EndsHalfway(Sync(v), ToRelease(ch.owned, v.bms.name, v.bms.spec.hosts), env.releases)
  }

  lemma ReleaseStageIsWithout(s: View, owned: seq<Host>, apis: map<string, ReleaseApi>)
    requires ViewOk(s) && AllHaveHosts(s) && IsList(owned, s.hosts, OwnerLabels(s.bms))
    requires !EndsHalfway(s, ToRelease(owned, s.bms.name, s.bms.spec.hosts), apis)
    ensures
      var names := ToRelease(owned, s.bms.name, s.bms.spec.hosts);
      var r := ReleaseAll(s, names, apis);
      && r.view == Without(s, Leading(names, Good(s, apis)))
      && (r.result == ReleaseDone ==> r.view == Without(s, Dropped(s)))
      && (r.result == ReleaseDone <==> forall h | h in Dropped(s) :: ApiFor(apis, h) == AllWell)
      && Releasable(s, names, apis, Good(s, apis))
  {
    var names := ToRelease(owned, s.bms.name, s.bms.spec.hosts);
    ToReleaseIsDropped(s, owned);
    assert forall h | h in names :: h in Elements(names);
    GoodIsGood(s, names, apis);
    ReleaseAllIsWithout(s, names, apis, Good(s, apis));
    LeadingIsPart(names, Good(s, apis));
  }

  lemma ReleaseStageKeepsInv(w: World, v: View, env: Env, ch: Choices)
    requires Inv(w) && Sees(w, v) && env.syncListed && env.ownedListed && ReleasesSafe(v, env, ch)
    requires IsList(ch.owned, v.hosts, OwnerLabels(v.bms))
    ensures
      var r := AfterRelease(v, env, ch);
      && Inv(Put(w, r.view)) && SameSet(r.view.bms, v.bms)
      && AllHaveHosts(r.view)
      && (r.result == ReleaseDone ==> r.view == Kept(v))
  {
    var s := Sync(v);
    var names := ToRelease(ch.owned, v.bms.name, v.bms.spec.hosts);
    SynchronisedView(w, v);
    ReleaseStageIsWithout(s, ch.owned, env.releases);
    ReleaseAllKeepsInv(Put(w, s), s, names, env.releases, Good(s, env.releases));
    WithoutHasHosts(s, Leading(names, Good(s, env.releases)));
    PutTwice(w, s, AfterRelease(v, env, ch).view);
  }

  lemma SelectedMayBeProvisioned(v: View, ch: Choices, h: string)
    requires AllowedFrom(v, ch) && ch.selection.Some? && h in ch.selection.value
    ensures
      var x := ch.selection.value[h];
      && h in v.bms.spec.hosts && h !in v.bms.status
      && x.name in v.hosts && v.hosts[x.name] == x
      && Eligible(v.bms.spec.hardwareReqs, x) && Subset(v.bms.spec.selector, x.labels)
      && Subset(v.bms.spec.hosts[h].selector, x.labels)
  {
  }

  /** What is about to be provisioned: every requested hostname and every one in the status, each with its own host. */
  lemma TargetsMayBeProvisioned(v: View, ch: Choices)
    requires ViewOk(v) && AllHaveHosts(v) && AllowedFrom(v, ch) && ch.selection.Some?
    ensures
      var targets := Targets(v.bms.name, ch);
      && targets.Keys == v.bms.spec.hosts.Keys + v.bms.status.Keys && GoodTargets(v, targets)
      && forall h | h in targets :: TargetOk(v, ch, h, targets[h])
  {
    var targets := Targets(v.bms.name, ch);
    ExistingHostsIsStatus(v, ch.kept);
    assert ch.selection.value.Keys == NewComputes(v.bms.spec.hosts, v.bms.status).Keys;
    assert targets == MergeKeeping(ch.selection.value, HostsByStatus(v));
    HostsByStatusKeys(v);
    forall h | h in targets ensures TargetOk(v, ch, h, targets[h]) && MayProvision(v, targets[h].name, h) {
      TargetIsOk(v, ch, h);
    }
    TargetsAreInjective(v, ch, targets);
  }

  lemma TargetsAreInjective(v: View, ch: Choices, targets: map<string, Host>)
    requires SetOk(v.hosts, v.bms) && ch.selection.Some? && Injective(ch.selection.value)
    requires forall h | h in targets :: TargetOk(v, ch, h, targets[h])
    ensures Injective(targets)
  {
  }

  /** Each hostname with its current host, or else with a free one; no host twice. */
  ghost predicate GoodTargets(v: View, targets: map<string, Host>) {
    Injective(targets) && forall h | h in targets :: MayProvision(v, targets[h].name, h)
  }

  /** `x` is the current host of `h`, or the free host selected for `h`. */
  ghost predicate TargetOk(v: View, ch: Choices, h: string, x: Host)
    requires ch.selection.Some?
  {
    && x.name in v.hosts && v.hosts[x.name] == x
    && if h in ch.selection.value then x == ch.selection.value[h] && x.consumerRef.None? && h !in v.bms.status
       else h in v.bms.status && x.name == v.bms.status[h].bmhRef && x.consumerRef.Some?
  }

  lemma TargetIsOk(v: View, ch: Choices, h: string)
    requires ViewOk(v) && AllHaveHosts(v) && AllowedFrom(v, ch) && ch.selection.Some?
    requires h in MergeKeeping(ch.selection.value, HostsByStatus(v))
    ensures TargetOk(v, ch, h, MergeKeeping(ch.selection.value, HostsByStatus(v))[h])
  {
    if h in ch.selection.value {
      SelectedMayBeProvisioned(v, ch, h);
    } else {
      assert HasHost(v, h);
      HostOfEntry(v, h);
    }
  }

  lemma GatesGiveUrl(spec: SetSpec, env: Env)
    requires Gates(spec, env).stop.None?
    ensures ImageFor(spec, env.serverStatus).url != ""
  {
  }

  /** A reconcile keeps the invariant wherever it stops, except half-way through a release. */
  lemma WorkKeepsInv(w: World, v: View, env: Env, ch: Choices)
    requires Inv(w) && Sees(w, v) && ReleasesSafe(v, env, ch)
    requires Gates(v.bms.spec, env).stop.None? && Allowed(v, env, ch)
    ensures Inv(Put(w, Work(v, env, ch).view)) && SameSet(Work(v, env, ch).view.bms, v.bms)
  {
    PutSame(w, v);
    SynchronisedView(w, v);
    if env.syncListed && env.ownedListed {
      ReleaseStageKeepsInv(w, v, env, ch);
      var r := AfterRelease(v, env, ch);
      if r.result == ReleaseDone && env.poolListed && ch.selection.Some? {
        EnsureStageKeepsInv(Put(w, r.view), r.view, env, ch);
        PutTwice(w, r.view, Ensured(r.view, env, ch).view);
      }
    }
  }

  lemma HalfwayBreaksStage(v: View, env: Env, ch: Choices)
    requires ViewOk(Sync(v)) && IsList(ch.owned, v.hosts, OwnerLabels(v.bms)) && !ReleasesSafe(v, env, ch)
    ensures
      var r := AfterRelease(v, env, ch);
      r.result == ReleaseError && !SetOk(r.view.hosts, r.view.bms) && r.view.bms.uid == v.bms.uid
  {
    var s := Sync(v);
    var names := ToRelease(ch.owned, v.bms.name, v.bms.spec.hosts);
    ToReleaseIsDropped(s, ch.owned);
    assert forall h | h in names :: h in Elements(names);
    GoodIsGood(s, names, env.releases);
    HalfwayBreaksSet(s, names, env.releases, Good(s, env.releases));
  }

  /** That exception is exact: a reconcile breaks the invariant exactly when its release stage ends half-way. */
  lemma WorkKeepsInvExactly(w: World, v: View, env: Env, ch: Choices)
    requires Inv(w) && Sees(w, v) && Gates(v.bms.spec, env).stop.None? && Allowed(v, env, ch)
    ensures Inv(Put(w, Work(v, env, ch).view)) <==> ReleasesSafe(v, env, ch)
    ensures !ReleasesSafe(v, env, ch) ==> var r := Work(v, env, ch).view; !SetOk(r.hosts, r.bms)
  {
    if ReleasesSafe(v, env, ch) {
      WorkKeepsInv(w, v, env, ch);
    } else {
      SynchronisedView(w, v);
      HalfwayBreaksStage(v, env, ch);
      BrokenSetBreaksInv(w, Work(v, env, ch).view);
    }
  }

  ghost function Ensured(v: View, env: Env, ch: Choices): Provisioning
    requires ch.selection.Some? && forall h | h in ch.order :: h in Targets(v.bms.name, ch)
  {
    ProvisionAll(v, Targets(v.bms.name, ch), ch.order, ImageFor(v.bms.spec, env.serverStatus), env.failing)
  }

  lemma EnsureStageKeepsInv(w: World, v: View, env: Env, ch: Choices)
    requires Inv(w) && Sees(w, v) && AllHaveHosts(v) && Gates(v.bms.spec, env).stop.None?
    requires AllowedFrom(v, ch) && ch.selection.Some? && Enumerates(ch.order, Targets(v.bms.name, ch).Keys)
    ensures Inv(Put(w, Ensured(v, env, ch).view)) && SameSet(Ensured(v, env, ch).view.bms, v.bms)
  {
    InvGivesViewOk(w, v);
    TargetsMayBeProvisioned(v, ch);
    GatesGiveUrl(v.bms.spec, env);
    ProvisionAllKeepsInv(w, v, Targets(v.bms.name, ch), ch.order, ImageFor(v.bms.spec, env.serverStatus), env.failing);
  }
}
