/**
 Who owns which host. The invariant ties the status of every set to the labels,
 ConsumerRef and image of the hosts; every stage of a reconcile and of a deletion
 keeps it, including stages that fail half-way.
 */
module Ownership {
  import opened Types
  import opened Allocation
  import opened ScaleUp
  import opened Lifecycle
  import opened Reconcile

  datatype World = World(hosts: HostMap, sets: map<string, BaremetalSet>)

  predicate OperatorKey(k: LabelKey) {
    !k.Custom?
  }

  /** No label of the operator is on the host. */
  ghost predicate Clean(x: Host) {
    forall k | k in x.labels :: !OperatorKey(k)
  }

  /** The host carries the labels, ConsumerRef and image of hostname `h` of set `s`, and no other hostname label. */
  ghost predicate HeldAs(x: Host, s: BaremetalSet, h: string) {
    && Subset(ClaimLabels(s, h), x.labels)
    && (forall n :: HostnameOf(n) in x.labels ==> n == s.name)
    && x.consumerRef == Some(RefTo(s))
    && x.image.Some? && x.image.value.url != ""
  }

  ghost predicate HostOk(n: string, x: Host) {
    x.name == n && (x.consumerRef.None? ==> Clean(x))
  }

  ghost predicate DistinctRefs(status: StatusMap) {
    forall h, g | h in status && g in status && status[h].bmhRef == status[g].bmhRef :: h == g
  }

  ghost predicate DisjointRefs(a: StatusMap, b: StatusMap) {
    forall h, g | h in a && g in b :: a[h].bmhRef != b[g].bmhRef
  }

  ghost predicate EntryOk(hosts: HostMap, s: BaremetalSet, h: string)
    requires h in s.status
  {
    && s.status[h].hostname == h
    && (s.status[h].bmhRef in hosts ==> HeldAs(hosts[s.status[h].bmhRef], s, h))
  }

  /** An owned host has a hostname label, and the status entry of that hostname names the host. */
  ghost predicate OwnedOk(s: BaremetalSet, n: string, x: Host) {
    && HostnameOf(s.name) in x.labels
    && var h := x.labels[HostnameOf(s.name)];
       h in s.status && s.status[h].bmhRef == n
  }

  ghost predicate SetOk(hosts: HostMap, s: BaremetalSet) {
    && (forall h | h in s.status :: EntryOk(hosts, s, h))
    && (forall n | n in hosts && Owned(s, hosts[n]) :: OwnedOk(s, n, hosts[n]))
    && DistinctRefs(s.status)
  }

  ghost predicate HostsOk(hosts: HostMap) {
    forall n | n in hosts :: HostOk(n, hosts[n])
  }

  ghost predicate AllDisjoint(sets: map<string, BaremetalSet>) {
    forall u, t | u in sets && t in sets && u != t :: DisjointRefs(sets[u].status, sets[t].status)
  }

  ghost predicate Inv(w: World) {
    && HostsOk(w.hosts)
    && (forall u | u in w.sets :: w.sets[u].uid == u && SetOk(w.hosts, w.sets[u]))
    && AllDisjoint(w.sets)
  }

  /** The world after a step of set `v.bms.uid` that left the view `v`. */
  function Put(w: World, v: View): World {
    World(v.hosts, w.sets[v.bms.uid := v.bms])
  }

  ghost predicate Sees(w: World, v: View) {
    v.bms.uid in w.sets && w.sets[v.bms.uid] == v.bms && w.hosts == v.hosts
  }

  /** Same object, whatever its status and conditions. */
  ghost predicate SameSet(s: BaremetalSet, t: BaremetalSet) {
    s.uid == t.uid && s.namespace == t.namespace && s.name == t.name && s.spec == t.spec
  }

  // ---------------------------------------------------------------- what the invariant says

  /** The status of `s` names host `n` for hostname `h`. */
  ghost predicate Names(s: BaremetalSet, h: string, n: string) {
    h in s.status && s.status[h].bmhRef == n
  }

  /** The owner labels of `s` and the hostname label for `h` are on the host. */
  ghost predicate Labelled(x: Host, s: BaremetalSet, h: string) {
    Subset(ClaimLabels(s, h), x.labels)
  }

  lemma LabelledIsOwned(x: Host, s: BaremetalSet, h: string)
    requires Labelled(x, s, h)
    ensures Owned(s, x) && HostnameOf(s.name) in x.labels && x.labels[HostnameOf(s.name)] == h
    ensures OwnerUid in x.labels && x.labels[OwnerUid] == s.uid
  {
    forall k | k in OwnerLabels(s) ensures k in x.labels && x.labels[k] == OwnerLabels(s)[k] {
      assert ClaimLabels(s, h)[k] == OwnerLabels(s)[k];
    }
    assert HostnameOf(s.name) in ClaimLabels(s, h) && OwnerUid in ClaimLabels(s, h);
  }

  /**
   For an existing host: a status entry names it exactly when it has the set's
   labels for that hostname. It then also has the set's ConsumerRef, a non-empty
   image and no other hostname label.
   */
  lemma StatusMatchesHosts(w: World, u: string, h: string, n: string)
    requires Inv(w) && u in w.sets && n in w.hosts
    ensures Names(w.sets[u], h, n) <==> Labelled(w.hosts[n], w.sets[u], h)
    ensures Names(w.sets[u], h, n) <==> HeldAs(w.hosts[n], w.sets[u], h)
  {
    var s, x := w.sets[u], w.hosts[n];
    assert SetOk(w.hosts, s);
    if Labelled(x, s, h) {
      LabelledIsOwned(x, s, h);
      assert OwnedOk(s, n, x);
    }
    if Names(s, h, n) {
      assert EntryOk(w.hosts, s, h);
    }
  }

  lemma HeldIsOwned(x: Host, s: BaremetalSet, h: string)
    requires HeldAs(x, s, h)
    ensures Owned(s, x) && HostnameOf(s.name) in x.labels && x.labels[HostnameOf(s.name)] == h
    ensures OwnerUid in x.labels && x.labels[OwnerUid] == s.uid
  {
    LabelledIsOwned(x, s, h);
  }

  /** Different sets have different labels, so no label map is that of two sets or of two hostnames. */
  lemma HeldOnce(w: World, u: string, h: string, t: string, g: string, n: string)
    requires u in w.sets && t in w.sets && w.sets[u].uid == u && w.sets[t].uid == t && n in w.hosts
    requires Labelled(w.hosts[n], w.sets[u], h) && Labelled(w.hosts[n], w.sets[t], g)
    ensures u == t && h == g
  {
    LabelledIsOwned(w.hosts[n], w.sets[u], h);
    LabelledIsOwned(w.hosts[n], w.sets[t], g);
  }

  // ---------------------------------------------------------------- claiming one host

  lemma CleanMerge(x: Host, s: BaremetalSet, h: string)
    requires Clean(x)
    ensures Subset(ClaimLabels(s, h), MergeKeeping(x.labels, ClaimLabels(s, h)))
    ensures forall n :: HostnameOf(n) in MergeKeeping(x.labels, ClaimLabels(s, h)) ==> n == s.name
  {
  }

  /** Which side wins a label merge never matters: the keys are disjoint or the values agree. */
  lemma MergeEitherWay(x: Host, s: BaremetalSet, h: string)
    requires Clean(x) || HeldAs(x, s, h)
    ensures MergeKeeping(x.labels, ClaimLabels(s, h)) == x.labels + ClaimLabels(s, h)
  {
  }

  /** `n` may be provisioned for `h`: it is the host `h` has, or `h` has none and `n` is free. */
  ghost predicate MayProvision(v: View, n: string, h: string) {
    n in v.hosts &&
    if h in v.bms.status then v.bms.status[h].bmhRef == n else v.hosts[n].consumerRef.None?
  }

  lemma ClaimHolds(v: View, n: string, h: string, image: Image)
    requires HostsOk(v.hosts) && SetOk(v.hosts, v.bms) && MayProvision(v, n, h) && image.url != ""
    ensures HeldAs(Claim(v.bms, h, image, v.hosts[n]), v.bms, h)
  {
    var x := v.hosts[n];
    if h in v.bms.status {
      assert EntryOk(v.hosts, v.bms, h);
      MergeEitherWay(x, v.bms, h);
      assert MergeKeeping(x.labels, ClaimLabels(v.bms, h)) == x.labels;
    } else {
      assert HostOk(n, x);
      CleanMerge(x, v.bms, h);
    }
  }

  /** A free host is named by no status entry. */
  lemma FreeIsUnnamed(hosts: HostMap, s: BaremetalSet, n: string)
    requires SetOk(hosts, s) && n in hosts && hosts[n].consumerRef.None?
    ensures forall h | h in s.status :: s.status[h].bmhRef != n
    ensures !Owned(s, hosts[n])
  {
  }

  lemma ProvisionKeepsEntries(v: View, n: string, h: string, image: Image)
    requires HostsOk(v.hosts) && SetOk(v.hosts, v.bms) && MayProvision(v, n, h) && image.url != ""
    ensures
      var v' := Provision(v, n, h, image, true).view;
      DistinctRefs(v'.bms.status) && forall g | g in v'.bms.status :: EntryOk(v'.hosts, v'.bms, g)
  {
    var v' := Provision(v, n, h, image, true).view;
    ClaimHolds(v, n, h, image);
    if h !in v.bms.status {
      FreeIsUnnamed(v.hosts, v.bms, n);
    }
    forall g | g in v'.bms.status ensures EntryOk(v'.hosts, v'.bms, g) {
      if g in v.bms.status {
        assert EntryOk(v.hosts, v.bms, g);
      }
    }
  }

  lemma ProvisionKeepsSetOk(v: View, n: string, h: string, image: Image)
    requires HostsOk(v.hosts) && SetOk(v.hosts, v.bms) && MayProvision(v, n, h) && image.url != ""
    ensures
      var v' := Provision(v, n, h, image, true).view;
      SetOk(v'.hosts, v'.bms)
  {
    var v' := Provision(v, n, h, image, true).view;
    ProvisionKeepsEntries(v, n, h, image);
    ClaimHolds(v, n, h, image);
    HeldIsOwned(v'.hosts[n], v.bms, h);
    forall m | m in v'.hosts && Owned(v'.bms, v'.hosts[m]) ensures OwnedOk(v'.bms, m, v'.hosts[m]) {
      if m != n {
        assert Owned(v.bms, v.hosts[m]);
        assert OwnedOk(v.bms, m, v.hosts[m]);
      }
    }
  }

  /** A change to a host that is not another set's host, before or after, is nothing to that set. */
  lemma OtherSetKeepsOk(hosts: HostMap, t: BaremetalSet, n: string, x: Host)
    requires SetOk(hosts, t) && n in hosts && !Owned(t, hosts[n]) && !Owned(t, x)
    ensures SetOk(hosts[n := x], t)
  {
  }

  lemma OtherUidNotOwned(t: BaremetalSet, x: Host)
    requires OwnerUid in x.labels ==> x.labels[OwnerUid] != t.uid
    ensures !Owned(t, x)
  {
  }

  lemma ProvisionSparesOthers(v: View, n: string, h: string, image: Image, t: BaremetalSet)
    requires HostsOk(v.hosts) && SetOk(v.hosts, v.bms) && MayProvision(v, n, h) && image.url != ""
    requires SetOk(v.hosts, t) && t.uid != v.bms.uid && DisjointRefs(t.status, v.bms.status)
    ensures
      var v' := Provision(v, n, h, image, true).view;
      SetOk(v'.hosts, t) && DisjointRefs(t.status, v'.bms.status)
  {
    var v' := Provision(v, n, h, image, true).view;
    ClaimHolds(v, n, h, image);
    HeldIsOwned(v'.hosts[n], v.bms, h);
    OtherUidNotOwned(t, v'.hosts[n]);
    if h in v.bms.status {
      assert EntryOk(v.hosts, v.bms, h);
      HeldIsOwned(v.hosts[n], v.bms, h);
      OtherUidNotOwned(t, v.hosts[n]);
    } else {
      FreeIsUnnamed(v.hosts, t, n);
    }
    OtherSetKeepsOk(v.hosts, t, n, v'.hosts[n]);
    RefsStayDisjoint(t.status, v.bms.status, v'.bms.status, n);
  }

  lemma ProvisionKeepsInv(w: World, v: View, n: string, h: string, image: Image, apiOk: bool)
    requires Inv(w) && Sees(w, v) && image.url != ""
    requires MayProvision(v, n, h)
    ensures Inv(Put(w, Provision(v, n, h, image, apiOk).view))
    ensures SameSet(Provision(v, n, h, image, apiOk).view.bms, v.bms)
  {
    if apiOk {
      var v' := Provision(v, n, h, image, apiOk).view;
      assert HostsOk(v.hosts) && SetOk(v.hosts, v.bms);
      ProvisionKeepsSetOk(v, n, h, image);
      ClaimHolds(v, n, h, image);
      forall t | t in w.sets && t != v.bms.uid
        ensures SetOk(v'.hosts, w.sets[t]) && DisjointRefs(w.sets[t].status, v'.bms.status)
      {
        ProvisionSparesOthers(v, n, h, image, w.sets[t]);
      }
      PutKeepsInv(w, v');
    } else {
      PutSame(w, v);
    }
  }

  lemma RefsStayDisjoint(other: StatusMap, before: StatusMap, after: StatusMap, n: string)
    requires DisjointRefs(other, before)
    requires forall h | h in after :: (h in before && after[h].bmhRef == before[h].bmhRef) ||
                                      (after[h].bmhRef == n && forall g | g in other :: other[g].bmhRef != n)
    ensures DisjointRefs(other, after)
  {
  }

  lemma PutSame(w: World, v: View)
    requires Sees(w, v)
    ensures Put(w, v) == w
  {
  }

  /** The invariant of the new world, set by set. */
  lemma PutKeepsInv(w: World, v: View)
    requires Inv(w) && HostsOk(v.hosts) && SetOk(v.hosts, v.bms)
    requires forall t | t in w.sets && t != v.bms.uid ::
               SetOk(v.hosts, w.sets[t]) && DisjointRefs(w.sets[t].status, v.bms.status)
    ensures Inv(Put(w, v))
  {
    var w' := Put(w, v);
    forall u, t | u in w'.sets && t in w'.sets && u != t
      ensures DisjointRefs(w'.sets[u].status, w'.sets[t].status)
    {
      DisjointAfterPut(w.sets, v.bms, u, t);
    }
    forall u | u in w'.sets ensures w'.sets[u].uid == u && SetOk(w'.hosts, w'.sets[u]) {
    }
  }

  lemma DisjointAfterPut(sets: map<string, BaremetalSet>, s: BaremetalSet, u: string, t: string)
    requires AllDisjoint(sets) && forall t | t in sets && t != s.uid :: DisjointRefs(sets[t].status, s.status)
    requires u in sets[s.uid := s] && t in sets[s.uid := s] && u != t
    ensures DisjointRefs(sets[s.uid := s][u].status, sets[s.uid := s][t].status)
  {
    if u == s.uid {
      DisjointIsSymmetric(sets[t].status, s.status);
    }
  }

  lemma DisjointIsSymmetric(a: StatusMap, b: StatusMap)
    requires DisjointRefs(a, b)
    ensures DisjointRefs(b, a)
  {
  }

  // ---------------------------------------------------------------- releasing hosts

  /** A host after the hostnames in `names` of set `s` have been released. */
  function HostAfterRelease(s: BaremetalSet, names: set<string>, x: Host): Host {
    var h := LabelText(x.labels, HostnameOf(s.name));
    if Owned(s, x) && h in names then Unclaim(s, h, x) else x
  }

  /** The view with exactly the hostnames in `names` released. */
  function Without(v: View, names: set<string>): View {
    View(map n | n in v.hosts :: HostAfterRelease(v.bms, names, v.hosts[n]),
         v.bms.(status := v.bms.status - names))
  }

  lemma UnclaimCleans(x: Host, s: BaremetalSet, h: string)
    requires HeldAs(x, s, h)
    ensures Clean(Unclaim(s, h, x)) && forall t: BaremetalSet :: !Owned(t, Unclaim(s, h, x))
  {
    var x' := Unclaim(s, h, x);
    forall k | k in x'.labels ensures !OperatorKey(k) {
      assert k !in ClaimLabels(s, h);
    }
    forall t: BaremetalSet ensures !Owned(t, x') {
      OtherUidNotOwned(t, x');
    }
  }

  /** A host nothing has been written to. */
  ghost predicate Pristine(x: Host) {
    Clean(x) && x.consumerRef.None? && x.image.None? && x.userData.None? && x.networkData.None? && !x.online
  }

  /** Releasing undoes claiming: only the cleaning mode stays behind. */
  lemma ReleaseUndoesClaim(s: BaremetalSet, h: string, image: Image, x: Host)
    requires Pristine(x)
    ensures Unclaim(s, h, Claim(s, h, image, x)) == x.(cleaningMode := s.spec.cleaningMode)
  {
  }

  /**
   The secret names in the status are those of the spec; the host keeps the
   secrets of its first provisioning. They agree exactly when the host was free
   or still has the secrets the spec names now.
   */
  lemma ReportedSecretsMatchExactly(v: View, n: string, h: string, image: Image)
    requires n in v.hosts
    ensures
      var v' := Provision(v, n, h, image, true).view;
      var x, x', entry := v.hosts[n], v'.hosts[n], v'.bms.status[h];
      && entry.userDataSecret == UserDataOf(v.bms, h).name && entry.networkDataSecret == NetworkDataOf(v.bms, h).name
      && ((x'.userData == Some(UserDataOf(v.bms, h)) && x'.networkData == Some(NetworkDataOf(v.bms, h))) <==>
          (x.consumerRef.None? ||
           (x.userData == Some(UserDataOf(v.bms, h)) && x.networkData == Some(NetworkDataOf(v.bms, h)))))
  {
  }

  lemma ReleaseKeepsSetOk(v: View, h: string)
    requires HostsOk(v.hosts) && SetOk(v.hosts, v.bms) && h in v.bms.status && v.bms.status[h].bmhRef in v.hosts
    ensures
      var v' := Release(v, v.bms.status[h], AllWell).view;
      HostsOk(v'.hosts) && SetOk(v'.hosts, v'.bms)
  {
    var s := v.bms;
    var v' := Release(v, s.status[h], AllWell).view;
    var n := s.status[h].bmhRef;
    assert EntryOk(v.hosts, s, h);
    UnclaimCleans(v.hosts[n], s, h);
    forall g | g in v'.bms.status ensures EntryOk(v'.hosts, v'.bms, g) {
      assert EntryOk(v.hosts, s, g);
      assert s.status[g].bmhRef != n;
    }
    forall m | m in v'.hosts && Owned(v'.bms, v'.hosts[m]) ensures OwnedOk(v'.bms, m, v'.hosts[m]) {
      assert m != n;
      assert Owned(s, v.hosts[m]) && OwnedOk(s, m, v.hosts[m]);
    }
  }

  lemma ReleaseIsWithout(v: View, h: string)
    requires SetOk(v.hosts, v.bms) && h in v.bms.status && v.bms.status[h].bmhRef in v.hosts
    ensures Release(v, v.bms.status[h], AllWell) == Releasing(Without(v, {h}), ReleaseDone)
  {
    var s := v.bms;
    var n := s.status[h].bmhRef;
    var r := Release(v, s.status[h], AllWell);
    assert EntryOk(v.hosts, s, h);
    HeldIsOwned(v.hosts[n], s, h);
    forall m | m in v.hosts ensures r.view.hosts[m] == HostAfterRelease(s, {h}, v.hosts[m]) {
      if m != n && Owned(s, v.hosts[m]) {
        assert OwnedOk(s, m, v.hosts[m]);
      }
    }
    assert r.view.hosts == Without(v, {h}).hosts;
  }

  lemma ReleaseOneKeepsInv(w: World, v: View, h: string)
    requires Inv(w) && Sees(w, v) && h in v.bms.status && v.bms.status[h].bmhRef in v.hosts
    ensures Release(v, v.bms.status[h], AllWell) == Releasing(Without(v, {h}), ReleaseDone)
    ensures Inv(Put(w, Without(v, {h})))
  {
    ReleaseIsWithout(v, h);
    ReleaseKeepsSetOk(v, h);
    var v' := Without(v, {h});
    forall t | t in w.sets && t != v.bms.uid
      ensures SetOk(v'.hosts, w.sets[t]) && DisjointRefs(w.sets[t].status, v'.bms.status)
    {
      ReleaseSparesOthers(v, h, w.sets[t]);
    }
    PutKeepsInv(w, v');
  }

  lemma ReleaseSparesOthers(v: View, h: string, t: BaremetalSet)
    requires SetOk(v.hosts, v.bms) && HasHost(v, h)
    requires SetOk(v.hosts, t) && t.uid != v.bms.uid && DisjointRefs(t.status, v.bms.status)
    ensures
      var v' := Release(v, v.bms.status[h], AllWell).view;
      SetOk(v'.hosts, t) && DisjointRefs(t.status, v'.bms.status)
  {
    var n := v.bms.status[h].bmhRef;
    assert EntryOk(v.hosts, v.bms, h);
    HeldIsOwned(v.hosts[n], v.bms, h);
    UnclaimCleans(v.hosts[n], v.bms, h);
    OtherUidNotOwned(t, v.hosts[n]);
    OtherSetKeepsOk(v.hosts, t, n, Unclaim(v.bms, h, v.hosts[n]));
    RefsStayDisjoint(t.status, v.bms.status, Release(v, v.bms.status[h], AllWell).view.bms.status, n);
  }

  lemma HostReleasedTwice(v: View, h: string, names: set<string>, n: string)
    requires SetOk(v.hosts, v.bms) && n in v.hosts
    ensures
      var x := v.hosts[n];
      HostAfterRelease(v.bms, names, HostAfterRelease(v.bms, {h}, x)) == HostAfterRelease(v.bms, {h} + names, x)
  {
    var x := v.hosts[n];
    if Owned(v.bms, x) && LabelText(x.labels, HostnameOf(v.bms.name)) == h {
      assert OwnedOk(v.bms, n, x);
      assert EntryOk(v.hosts, v.bms, h);
      UnclaimCleans(x, v.bms, h);
    }
  }

  lemma SameRelease(s: BaremetalSet, t: BaremetalSet, names: set<string>, x: Host)
    requires SameSet(s, t)
    ensures HostAfterRelease(s, names, x) == HostAfterRelease(t, names, x)
  {
    SameOwnership(s, t, x);
  }

  /** Releasing one name and then others is releasing them together. */
  lemma WithoutTwice(v: View, h: string, names: set<string>)
    requires SetOk(v.hosts, v.bms)
    ensures Without(Without(v, {h}), names) == Without(v, {h} + names)
  {
    var one, all := Without(v, {h}), Without(v, {h} + names);
    forall n | n in v.hosts
      ensures HostAfterRelease(one.bms, names, one.hosts[n]) == all.hosts[n]
    {
      HostReleasedTwice(v, h, names, n);
      SameRelease(v.bms, one.bms, names, one.hosts[n]);
    }
    assert Without(one, names).hosts == all.hosts;
    assert v.bms.status - {h} - names == v.bms.status - ({h} + names);
  }

  lemma SameOwnership(s: BaremetalSet, t: BaremetalSet, x: Host)
    requires SameSet(s, t)
    ensures Owned(s, x) == Owned(t, x)
    ensures forall h :: Unclaim(s, h, x) == Unclaim(t, h, x)
  {
  }

  lemma WithoutNone(v: View)
    ensures Without(v, {}) == v
  {
  }

  ghost predicate HasHost(v: View, h: string) {
    h in v.bms.status && v.bms.status[h].bmhRef in v.hosts
  }

  lemma StillHasHost(v: View, h: string, g: string)
    requires g != h
    ensures HasHost(Without(v, {h}), g) <==> HasHost(v, g)
  {
  }

  /** The release of `h` would go through. */
  ghost predicate GoesThrough(v: View, apis: map<string, ReleaseApi>, h: string) {
    HasHost(v, h) && ApiFor(apis, h) == AllWell
  }

  /** The release of `h` would free the host and then fail to delete its secrets. */
  ghost predicate FailsHalfway(v: View, apis: map<string, ReleaseApi>, h: string) {
    HasHost(v, h) && ApiFor(apis, h) == SecretDeletionFails
  }

  /** The first release that does not go through, if any, fails half-way. */
  ghost predicate EndsHalfway(v: View, names: seq<string>, apis: map<string, ReleaseApi>) {
    names != [] &&
    if GoesThrough(v, apis, names[0]) then EndsHalfway(v, names[1..], apis) else FailsHalfway(v, apis, names[0])
  }

  /** The releases before the one at `j` go through, and that one fails half-way. */
  ghost predicate HalfwayAt(v: View, names: seq<string>, apis: map<string, ReleaseApi>, j: int) {
    0 <= j < |names| && FailsHalfway(v, apis, names[j]) && forall i | 0 <= i < j :: GoesThrough(v, apis, names[i])
  }

  lemma {:induction false} EndsHalfwayMeaning(v: View, names: seq<string>, apis: map<string, ReleaseApi>)
    ensures EndsHalfway(v, names, apis) <==> exists j :: HalfwayAt(v, names, apis, j)
  {
    if names != [] && GoesThrough(v, apis, names[0]) {
      var rest := names[1..];
      EndsHalfwayMeaning(v, rest, apis);
      assert forall i | 0 < i < |names| :: names[i] == rest[i - 1];
      if j :| HalfwayAt(v, rest, apis, j) {
        assert HalfwayAt(v, names, apis, j + 1);
      }
      if j :| HalfwayAt(v, names, apis, j) {
        assert j > 0;
        assert forall i | 0 <= i < j - 1 :: rest[i] == names[i + 1];
        assert HalfwayAt(v, rest, apis, j - 1);
      }
    } else if names != [] && FailsHalfway(v, apis, names[0]) {
      assert HalfwayAt(v, names, apis, 0);
    }
  }

  lemma {:induction false} SameHalfway(v: View, v': View, names: seq<string>, apis: map<string, ReleaseApi>)
    requires forall h | h in names :: HasHost(v, h) <==> HasHost(v', h)
    ensures EndsHalfway(v, names, apis) <==> EndsHalfway(v', names, apis)
  {
    if names != [] {
      assert names == [names[0]] + names[1..];
      SameHalfway(v, v', names[1..], apis);
    }
  }

  lemma HalfwayRest(v: View, names: seq<string>, apis: map<string, ReleaseApi>)
    requires names != [] && Distinct(names) && GoesThrough(v, apis, names[0])
    ensures EndsHalfway(v, names, apis) <==> EndsHalfway(Without(v, {names[0]}), names[1..], apis)
  {
    forall h | h in names[1..] ensures HasHost(v, h) <==> HasHost(Without(v, {names[0]}), h) {
      StillHasHost(v, names[0], h);
    }
    SameHalfway(v, Without(v, {names[0]}), names[1..], apis);
  }

  lemma {:induction false} NeverHalfway(v: View, names: seq<string>, apis: map<string, ReleaseApi>)
    requires forall h | h in names :: !FailsHalfway(v, apis, h)
    ensures !EndsHalfway(v, names, apis)
  {
    if names != [] {
      assert names == [names[0]] + names[1..];
      NeverHalfway(v, names[1..], apis);
    }
  }

  /** Distinct hostnames of the status; the releases of those in `good`, and only those, would go through. */
  ghost predicate Releasable(v: View, names: seq<string>, apis: map<string, ReleaseApi>, good: set<string>) {
    Distinct(names) && forall h | h in names :: h in v.bms.status && (h in good <==> GoesThrough(v, apis, h))
  }

  lemma ReleasableRest(v: View, names: seq<string>, apis: map<string, ReleaseApi>, good: set<string>)
    requires names != [] && Releasable(v, names, apis, good)
    ensures names[0] in v.bms.status && (names[0] in good <==> GoesThrough(v, apis, names[0]))
    ensures Releasable(Without(v, {names[0]}), names[1..], apis, good)
  {
  }

  lemma ReleaseKeepsOk(v: View, h: string)
    requires HostsOk(v.hosts) && SetOk(v.hosts, v.bms) && HasHost(v, h)
    ensures HostsOk(Without(v, {h}).hosts) && SetOk(Without(v, {h}).hosts, Without(v, {h}).bms)
  {
    ReleaseIsWithout(v, h);
    ReleaseKeepsSetOk(v, h);
  }

  /** The names before the first one that is not in `good`. */
  ghost function Leading(names: seq<string>, good: set<string>): set<string> {
    if names == [] || names[0] !in good then {} else {names[0]} + Leading(names[1..], good)
  }

  lemma {:induction false} LeadingIsPart(names: seq<string>, good: set<string>)
    ensures Leading(names, good) <= Elements(names) && Leading(names, good) <= good
    ensures Elements(names) <= good ==> Leading(names, good) == Elements(names)
  {
    if names != [] {
      LeadingIsPart(names[1..], good);
      assert names == [names[0]] + names[1..];
    }
  }

  lemma ReleaseAllStep(v: View, names: seq<string>, apis: map<string, ReleaseApi>)
    requires SetOk(v.hosts, v.bms) && names != [] && names[0] in v.bms.status
    ensures GoesThrough(v, apis, names[0]) ==>
              ReleaseAll(v, names, apis) == ReleaseAll(Without(v, {names[0]}), names[1..], apis)
    ensures !GoesThrough(v, apis, names[0]) ==>
              && ReleaseAll(v, names, apis) == Release(v, v.bms.status[names[0]], ApiFor(apis, names[0]))
              && ReleaseAll(v, names, apis).result != ReleaseDone
              && (!FailsHalfway(v, apis, names[0]) ==> ReleaseAll(v, names, apis).view == v)
  {
    if GoesThrough(v, apis, names[0]) {
      ReleaseIsWithout(v, names[0]);
    }
  }

  /** A release loop releases exactly the names before the first release that does not go through. */
  lemma {:induction false} ReleaseAllIsWithout(
    v: View, names: seq<string>, apis: map<string, ReleaseApi>, good: set<string>)
    requires HostsOk(v.hosts) && SetOk(v.hosts, v.bms) && Releasable(v, names, apis, good)
    requires !EndsHalfway(v, names, apis)
    ensures ReleaseAll(v, names, apis).view == Without(v, Leading(names, good))
    ensures ReleaseAll(v, names, apis).result == ReleaseDone <==> Elements(names) <= good
    decreases |names|
  {
    if names == [] {
      WithoutNone(v);
    } else {
      var h := names[0];
      ReleasableRest(v, names, apis, good);
      ReleaseAllStep(v, names, apis);
      assert names == [h] + names[1..];
      if h in good {
        ReleaseKeepsOk(v, h);
        HalfwayRest(v, names, apis);
        ReleaseAllIsWithout(Without(v, {h}), names[1..], apis, good);
        WithoutTwice(v, h, Leading(names[1..], good));
      } else {
        WithoutNone(v);
        assert h in Elements(names);
      }
    }
  }

  lemma PutTwice(w: World, v: View, v': View)
    requires v.bms.uid == v'.bms.uid
    ensures Put(Put(w, v), v') == Put(w, v')
  {
  }

  lemma FirstRelease(w: World, v: View, h: string, rest: set<string>)
    requires Inv(w) && Sees(w, v) && HasHost(v, h) && h !in rest && forall g | g in rest :: HasHost(v, g)
    ensures
      var v' := Without(v, {h});
      Inv(Put(w, v')) && Sees(Put(w, v'), v') && forall g | g in rest :: HasHost(v', g)
  {
    ReleaseOneKeepsInv(w, v, h);
    forall g | g in rest ensures HasHost(Without(v, {h}), g) {
      StillHasHost(v, h, g);
    }
  }

  lemma RestReleased(w: World, v: View, h: string, rest: set<string>)
    requires SetOk(v.hosts, v.bms)
    ensures Put(Put(w, Without(v, {h})), Without(Without(v, {h}), rest)) == Put(w, Without(v, {h} + rest))
  {
    WithoutTwice(v, h, rest);
    PutTwice(w, Without(v, {h}), Without(v, {h} + rest));
  }

  lemma {:induction false} WithoutKeepsInv(w: World, v: View, names: set<string>)
    requires Inv(w) && Sees(w, v) && forall h | h in names :: HasHost(v, h)
    ensures Inv(Put(w, Without(v, names)))
    decreases names, 0
  {
    if names == {} {
      WithoutNone(v);
      PutSame(w, v);
    } else {
      var h :| h in names;
      WithoutFirst(w, v, names, h, names - {h});
    }
  }

  lemma {:induction false} WithoutFirst(w: World, v: View, names: set<string>, h: string, rest: set<string>)
    requires Inv(w) && Sees(w, v) && HasHost(v, h) && h !in rest && forall g | g in rest :: HasHost(v, g)
    requires names == {h} + rest
    ensures Inv(Put(w, Without(v, names)))
    decreases rest, 1
  {
    var v' := Without(v, {h});
    FirstRelease(w, v, h, rest);
    WithoutKeepsInv(Put(w, v'), v', rest);
    RestReleased(w, v, h, rest);
  }

  /** However far a release loop gets, the invariant holds afterwards. */
  lemma ReleaseAllKeepsInv(w: World, v: View, names: seq<string>, apis: map<string, ReleaseApi>, good: set<string>)
    requires Inv(w) && Sees(w, v) && Releasable(v, names, apis, good) && !EndsHalfway(v, names, apis)
    ensures Inv(Put(w, ReleaseAll(v, names, apis).view))
  {
    ReleaseAllIsWithout(v, names, apis, good);
    LeadingIsPart(names, good);
    WithoutKeepsInv(w, v, Leading(names, good));
  }

  /** A release that fails half-way leaves an entry whose host no longer carries the claim. */
  lemma HalfwayLeavesStaleEntry(v: View, h: string)
    requires HostsOk(v.hosts) && SetOk(v.hosts, v.bms) && HasHost(v, h)
    ensures
      var v' := Release(v, v.bms.status[h], SecretDeletionFails).view;
      !SetOk(v'.hosts, v'.bms) && v'.bms == v.bms
  {
    var v' := Release(v, v.bms.status[h], SecretDeletionFails).view;
    assert EntryOk(v.hosts, v.bms, h);
    assert v'.hosts[v.bms.status[h].bmhRef].consumerRef.None?;
    assert !EntryOk(v'.hosts, v'.bms, h);
  }

  lemma {:induction false} HalfwayBreaksSet(
    v: View, names: seq<string>, apis: map<string, ReleaseApi>, good: set<string>)
    requires HostsOk(v.hosts) && SetOk(v.hosts, v.bms) && Releasable(v, names, apis, good)
    requires EndsHalfway(v, names, apis)
    ensures
      var r := ReleaseAll(v, names, apis);
      r.result == ReleaseError && !SetOk(r.view.hosts, r.view.bms) && r.view.bms.uid == v.bms.uid
    decreases |names|
  {
    var h := names[0];
    ReleasableRest(v, names, apis, good);
    ReleaseAllStep(v, names, apis);
    if GoesThrough(v, apis, h) {
      ReleaseKeepsOk(v, h);
      HalfwayRest(v, names, apis);
      HalfwayBreaksSet(Without(v, {h}), names[1..], apis, good);
    } else {
      HalfwayLeavesStaleEntry(v, h);
    }
  }

  lemma BrokenSetBreaksInv(w: World, v: View)
    requires !SetOk(v.hosts, v.bms)
    ensures !Inv(Put(w, v))
  {
    assert v.bms.uid in Put(w, v).sets;
  }

  /** One release breaks the invariant exactly when it frees the host and then fails to delete the secrets. */
  lemma ReleaseKeepsInvExactly(w: World, v: View, h: string, api: ReleaseApi)
    requires Inv(w) && Sees(w, v) && h in v.bms.status
    ensures Inv(Put(w, Release(v, v.bms.status[h], api).view)) <==> !(api == SecretDeletionFails && HasHost(v, h))
  {
    PutSame(w, v);
    if HasHost(v, h) {
      if api == AllWell {
        ReleaseOneKeepsInv(w, v, h);
      } else if api == SecretDeletionFails {
        HalfwayLeavesStaleEntry(v, h);
        BrokenSetBreaksInv(w, Release(v, v.bms.status[h], api).view);
      }
    }
  }

  /** A release loop keeps the invariant exactly when it does not end in a release that fails half-way. */
  lemma ReleaseAllKeepsInvExactly(
    w: World, v: View, names: seq<string>, apis: map<string, ReleaseApi>, good: set<string>)
    requires Inv(w) && Sees(w, v) && Releasable(v, names, apis, good)
    ensures Inv(Put(w, ReleaseAll(v, names, apis).view)) <==> !EndsHalfway(v, names, apis)
  {
    if EndsHalfway(v, names, apis) {
      HalfwayBreaksSet(v, names, apis, good);
      BrokenSetBreaksInv(w, ReleaseAll(v, names, apis).view);
    } else {
      ReleaseAllKeepsInv(w, v, names, apis, good);
    }
  }

  ghost function Good(v: View, apis: map<string, ReleaseApi>): set<string> {
    set h | h in v.bms.status && GoesThrough(v, apis, h)
  }

  lemma GoodIsGood(v: View, names: seq<string>, apis: map<string, ReleaseApi>)
    requires Distinct(names) && forall h | h in names :: h in v.bms.status
    ensures Releasable(v, names, apis, Good(v, apis))
  {
  }

  // ---------------------------------------------------------------- deleting a set

  /** Deleting from the status while ranging over it skips nothing. */
  lemma {:induction false} CleanUpIsReleaseAll(v: View, order: seq<string>, apis: map<string, ReleaseApi>)
    requires HostsOk(v.hosts) && SetOk(v.hosts, v.bms)
    requires Distinct(order) && forall h | h in order :: h in v.bms.status
    ensures CleanUp(v, order, apis) == ReleaseAll(v, order, apis)
    decreases |order|
  {
    if order != [] {
      var h := order[0];
      GoodIsGood(v, order, apis);
      ReleasableRest(v, order, apis, Good(v, apis));
      ReleaseAllStep(v, order, apis);
      if GoesThrough(v, apis, h) {
        ReleaseIsWithout(v, h);
        ReleaseKeepsOk(v, h);
        CleanUpIsReleaseAll(Without(v, {h}), order[1..], apis);
      }
    }
  }

  lemma {:induction false} LeadingMeaning(names: seq<string>, good: set<string>, j: nat)
    requires Distinct(names) && j < |names|
    ensures names[j] in Leading(names, good) <==> forall i | 0 <= i <= j :: names[i] in good
  {
    assert names[j] in Elements(names);
    if names[0] in good && j > 0 {
      LeadingMeaning(names[1..], good, j - 1);
      assert forall i | 0 < i <= j :: names[i] == names[1..][i - 1];
    }
    if j == 0 && names[0] !in good {
      assert Leading(names, good) == {};
    }
  }

  /** What a deletion does, by how far it gets. */
  lemma CleanUpIsWithout(v: View, order: seq<string>, apis: map<string, ReleaseApi>)
    requires HostsOk(v.hosts) && SetOk(v.hosts, v.bms) && Enumerates(order, v.bms.status.Keys)
    requires !EndsHalfway(v, order, apis)
    ensures CleanUp(v, order, apis).view == Without(v, Leading(order, Good(v, apis)))
    ensures CleanUp(v, order, apis).result == ReleaseDone <==> v.bms.status.Keys <= Good(v, apis)
    ensures v.bms.status.Keys <= Good(v, apis) ==> Leading(order, Good(v, apis)) == v.bms.status.Keys
  {
    GoodIsGood(v, order, apis);
    CleanUpIsReleaseAll(v, order, apis);
    ReleaseAllIsWithout(v, order, apis, Good(v, apis));
    LeadingIsPart(order, Good(v, apis));
    assert Elements(order) == v.bms.status.Keys;
  }

  lemma ReleasedHost(v: View, names: set<string>, n: string)
    requires HostsOk(v.hosts) && SetOk(v.hosts, v.bms) && n in v.hosts
    ensures !Owned(v.bms, v.hosts[n]) ==> Without(v, names).hosts[n] == v.hosts[n]
    ensures Owned(v.bms, v.hosts[n]) ==>
              && OwnedOk(v.bms, n, v.hosts[n])
              && var h := v.hosts[n].labels[HostnameOf(v.bms.name)];
                 if h in names then
                   Without(v, names).hosts[n] == Unclaim(v.bms, h, v.hosts[n]) && Clean(Without(v, names).hosts[n])
                 else Without(v, names).hosts[n] == v.hosts[n] && HeldAs(v.hosts[n], v.bms, h)
  {
  }

  /** If every entry has its host and no call fails, deletion releases all of them and empties the status. */
  lemma DeletionReleasesEverything(v: View, order: seq<string>, apis: map<string, ReleaseApi>)
    requires HostsOk(v.hosts) && SetOk(v.hosts, v.bms) && Enumerates(order, v.bms.status.Keys)
    requires forall h | h in v.bms.status :: GoesThrough(v, apis, h)
    ensures CleanUp(v, order, apis).result == ReleaseDone && CleanUp(v, order, apis).view.bms.status == map[]
    ensures CleanUp(v, order, apis).view.hosts.Keys == v.hosts.Keys
    ensures forall n | n in v.hosts ::
              var x, x' := v.hosts[n], CleanUp(v, order, apis).view.hosts[n];
              if Owned(v.bms, x) then Clean(x') && x' == Unclaim(v.bms, LabelText(x.labels, HostnameOf(v.bms.name)), x)
              else x' == x
  {
    NeverHalfway(v, order, apis);
    CleanUpIsWithout(v, order, apis);
    var all := v.bms.status.Keys;
    assert v.bms.status - all == map[];
    forall n | n in v.hosts
      ensures
        var x, x' := v.hosts[n], Without(v, all).hosts[n];
        if Owned(v.bms, x) then Clean(x') && x' == Unclaim(v.bms, LabelText(x.labels, HostnameOf(v.bms.name)), x)
        else x' == x
    {
      ReleasedHost(v, all, n);
    }
  }

  /** With no failing call the finalizer is dropped, whether or not a host was missing. */
  lemma MissingHostsDropFinalizer(v: View, order: seq<string>, apis: map<string, ReleaseApi>)
    requires HostsOk(v.hosts) && SetOk(v.hosts, v.bms) && Enumerates(order, v.bms.status.Keys)
    requires forall h | h in apis :: apis[h] == AllWell
    ensures DropsFinalizer(CleanUp(v, order, apis))
  {
    CleanUpIsReleaseAll(v, order, apis);
    NeverFails(v, order, apis);
  }

  /** In `v'` the host that the status of `s` names for `h` still carries the claim. */
  ghost predicate StillHeld(v': View, s: BaremetalSet, h: string) {
    h in s.status && s.status[h].bmhRef in v'.hosts && HeldAs(v'.hosts[s.status[h].bmhRef], s, h)
  }

  /**
   With no failing call, an existing host stays claimed exactly when an entry
   without a host is visited before its own.
   */
  lemma DeletionLeaksBehindMissingHost(v: View, order: seq<string>, apis: map<string, ReleaseApi>, j: nat)
    requires HostsOk(v.hosts) && SetOk(v.hosts, v.bms) && Enumerates(order, v.bms.status.Keys)
    requires forall h | h in apis :: apis[h] == AllWell
    requires j < |order| && HasHost(v, order[j])
    ensures StillHeld(CleanUp(v, order, apis).view, v.bms, order[j]) <==>
            exists i :: 0 <= i < j && order[i] in v.bms.status && v.bms.status[order[i]].bmhRef !in v.hosts
  {
    NeverHalfway(v, order, apis);
    CleanUpIsWithout(v, order, apis);
    GoodUpTo(v, order, apis, j);
    LeakedHost(v, Leading(order, Good(v, apis)), order[j]);
  }

  lemma GoodUpTo(v: View, order: seq<string>, apis: map<string, ReleaseApi>, j: nat)
    requires Enumerates(order, v.bms.status.Keys) && j < |order| && HasHost(v, order[j])
    requires forall h | h in apis :: apis[h] == AllWell
    ensures order[j] !in Leading(order, Good(v, apis)) <==>
            exists i :: 0 <= i < j && order[i] in v.bms.status && v.bms.status[order[i]].bmhRef !in v.hosts
  {
    LeadingMeaning(order, Good(v, apis), j);
    forall i | 0 <= i <= j
      ensures order[i] in v.bms.status && (order[i] in Good(v, apis) <==> v.bms.status[order[i]].bmhRef in v.hosts)
    {
      assert order[i] in order;
    }
  }

  lemma LeakedHost(v: View, names: set<string>, h: string)
    requires HostsOk(v.hosts) && SetOk(v.hosts, v.bms) && HasHost(v, h)
    ensures StillHeld(Without(v, names), v.bms, h) <==> h !in names
  {
  }

  /** In `v'` the host that the status of `s` names for `h` is free. */
  ghost predicate Freed(v': View, s: BaremetalSet, h: string) {
    h in s.status && s.status[h].bmhRef in v'.hosts &&
    v'.hosts[s.status[h].bmhRef].consumerRef.None? && Clean(v'.hosts[s.status[h].bmhRef])
  }

  lemma FreedHost(v: View, names: set<string>, h: string)
    requires HostsOk(v.hosts) && SetOk(v.hosts, v.bms) && HasHost(v, h)
    ensures Freed(Without(v, names), v.bms, h) <==> h in names
  {
    var n := v.bms.status[h].bmhRef;
    assert EntryOk(v.hosts, v.bms, h);
    HeldIsOwned(v.hosts[n], v.bms, h);
    ReleasedHost(v, names, n);
  }

  /** Visiting the entries in this order, deletion frees every existing host of the set. */
  ghost predicate FreesAll(v: View, order: seq<string>, apis: map<string, ReleaseApi>) {
    forall h | HasHost(v, h) :: Freed(CleanUp(v, order, apis).view, v.bms, h)
  }

  lemma FreedExactly(v: View, order: seq<string>, apis: map<string, ReleaseApi>, j: nat)
    requires HostsOk(v.hosts) && SetOk(v.hosts, v.bms) && Enumerates(order, v.bms.status.Keys)
    requires forall h | h in apis :: apis[h] == AllWell
    requires j < |order| && HasHost(v, order[j])
    ensures Freed(CleanUp(v, order, apis).view, v.bms, order[j]) <==>
            !exists i :: 0 <= i < j && order[i] in v.bms.status && v.bms.status[order[i]].bmhRef !in v.hosts
  {
    NeverHalfway(v, order, apis);
    CleanUpIsWithout(v, order, apis);
    GoodUpTo(v, order, apis, j);
    FreedHost(v, Leading(order, Good(v, apis)), order[j]);
  }

  lemma {:induction false} OrderExists(s: set<string>)
    ensures exists order :: Enumerates(order, s)
    decreases s
  {
    if s == {} {
      assert Enumerates([], s);
    } else {
      var x :| x in s;
      OrderExists(s - {x});
      var rest :| Enumerates(rest, s - {x});
      FirstInOrder(s, x, rest);
    }
  }

  lemma FirstInOrder(s: set<string>, x: string, rest: seq<string>)
    requires x in s && Enumerates(rest, s - {x})
    ensures Enumerates([x] + rest, s)
  {
    forall y ensures y in [x] + rest <==> y in s {
      assert y in [x] + rest <==> y == x || y in rest;
    }
  }

  /** A missing host visited first keeps every other host from being freed. */
  lemma MissingFirstLeaks(v: View, order: seq<string>, apis: map<string, ReleaseApi>, g: string, h: string)
    requires HostsOk(v.hosts) && SetOk(v.hosts, v.bms) && Enumerates(order, v.bms.status.Keys)
    requires forall h | h in apis :: apis[h] == AllWell
    requires HasHost(v, h) && g in v.bms.status && !HasHost(v, g) && order[0] == g
    ensures !FreesAll(v, order, apis)
  {
    assert h in order;
    var j :| 0 <= j < |order| && order[j] == h;
    FreedExactly(v, order, apis, j);
  }

  lemma SomeOrderLeaks(v: View, apis: map<string, ReleaseApi>, g: string, h: string)
    requires HostsOk(v.hosts) && SetOk(v.hosts, v.bms)
    requires forall h | h in apis :: apis[h] == AllWell
    requires HasHost(v, h) && g in v.bms.status && !HasHost(v, g)
    ensures exists order :: Enumerates(order, v.bms.status.Keys) && !FreesAll(v, order, apis)
  {
    OrderExists(v.bms.status.Keys - {g});
    var rest :| Enumerates(rest, v.bms.status.Keys - {g});
    FirstInOrder(v.bms.status.Keys, g, rest);
    MissingFirstLeaks(v, [g] + rest, apis, g, h);
  }

  lemma NoMissingHostNoLeak(v: View, order: seq<string>, apis: map<string, ReleaseApi>)
    requires HostsOk(v.hosts) && SetOk(v.hosts, v.bms) && Enumerates(order, v.bms.status.Keys)
    requires forall h | h in apis :: apis[h] == AllWell
    requires forall h | h in v.bms.status :: HasHost(v, h)
    ensures FreesAll(v, order, apis)
  {
    forall h | HasHost(v, h) ensures Freed(CleanUp(v, order, apis).view, v.bms, h) {
      assert h in order;
      var j :| 0 <= j < |order| && order[j] == h;
      FreedExactly(v, order, apis, j);
    }
  }

  ghost predicate EveryOrderFreesAll(v: View, apis: map<string, ReleaseApi>) {
    forall order | Enumerates(order, v.bms.status.Keys) :: FreesAll(v, order, apis)
  }

  ghost predicate AllOrNoneHasHost(v: View) {
    (forall h | h in v.bms.status :: HasHost(v, h)) || (forall h | h in v.bms.status :: !HasHost(v, h))
  }

  /**
   With no failing call, deletion frees every existing host whatever the order of
   the entries exactly when every entry has its host, or none has.
   */
  lemma DeletionFreesAllExactly(v: View, apis: map<string, ReleaseApi>)
    requires HostsOk(v.hosts) && SetOk(v.hosts, v.bms)
    requires forall h | h in apis :: apis[h] == AllWell
    ensures EveryOrderFreesAll(v, apis) <==> AllOrNoneHasHost(v)
  {
    if AllOrNoneHasHost(v) {
      forall order | Enumerates(order, v.bms.status.Keys) ensures FreesAll(v, order, apis) {
        if forall h | h in v.bms.status :: HasHost(v, h) {
          NoMissingHostNoLeak(v, order, apis);
        }
      }
    } else {
      var g, h :| g in v.bms.status && !HasHost(v, g) && h in v.bms.status && HasHost(v, h);
      SomeOrderLeaks(v, apis, g, h);
    }
  }

  lemma {:induction false} NeverFails(v: View, order: seq<string>, apis: map<string, ReleaseApi>)
    requires forall h | h in apis :: apis[h] == AllWell
    ensures ReleaseAll(v, order, apis).result != ReleaseError
    decreases |order|
  {
    if order != [] {
      var first := Release(v, EntryOf(v.bms.status, order[0]), ApiFor(apis, order[0]));
      NeverFails(first.view, order[1..], apis);
    }
  }

  /** A deletion keeps the invariant wherever it stops, except half-way through a release. */
  lemma CleanUpKeepsInv(w: World, v: View, order: seq<string>, apis: map<string, ReleaseApi>)
    requires Inv(w) && Sees(w, v) && Enumerates(order, v.bms.status.Keys) && !EndsHalfway(v, order, apis)
    ensures Inv(Put(w, CleanUp(v, order, apis).view))
    ensures CleanUp(v, order, apis).view.bms.uid == v.bms.uid
  {
    GoodIsGood(v, order, apis);
    CleanUpIsReleaseAll(v, order, apis);
    ReleaseAllKeepsInv(w, v, order, apis, Good(v, apis));
    CleanUpIsWithout(v, order, apis);
  }

  /** That exception is exact; a deletion that ends half-way keeps the finalizer. */
  lemma CleanUpKeepsInvExactly(w: World, v: View, order: seq<string>, apis: map<string, ReleaseApi>)
    requires Inv(w) && Sees(w, v) && Enumerates(order, v.bms.status.Keys)
    ensures Inv(Put(w, CleanUp(v, order, apis).view)) <==> !EndsHalfway(v, order, apis)
    ensures EndsHalfway(v, order, apis) ==> !DropsFinalizer(CleanUp(v, order, apis))
  {
    GoodIsGood(v, order, apis);
    CleanUpIsReleaseAll(v, order, apis);
    ReleaseAllKeepsInvExactly(w, v, order, apis, Good(v, apis));
    if EndsHalfway(v, order, apis) {
      HalfwayBreaksSet(v, order, apis, Good(v, apis));
    }
  }

  /** Dropping the set afterwards keeps the invariant. */
  lemma RemovingSetKeepsInv(w: World, v: View)
    requires Inv(Put(w, v))
    ensures Inv(World(v.hosts, w.sets - {v.bms.uid}))
  {
    var w', u := Put(w, v), v.bms.uid;
    forall t | t in w.sets - {u} ensures t in w'.sets && w'.sets[t] == (w.sets - {u})[t] {
    }
  }
}
