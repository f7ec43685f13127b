/**
 The scale-up check shared by the webhook and the controller: which computes are
 new, which hosts may be used, and whether the former fit into the latter.
 */
module ScaleUp {
  import opened Types
  import opened Allocation
  import opened Hardware

  /** The six filters a host passes before labels are looked at. */
  ghost predicate Eligible(reqs: HardwareReqs, x: Host) {
    && HardwareAccepted(reqs, x.hardware)
    && x.state == Available
    && (x.image.None? || x.image.value.url == "")
    && !x.externallyProvisioned
    && !x.customDeploy
    && x.consumerRef.None?
  }

  /** Requested computes without a status entry. */
  function NewComputes(requested: map<string, Compute>, status: StatusMap): map<string, Compute> {
    map h | h in requested && h !in status :: requested[h]
  }

  ghost function EligibleAmong(reqs: HardwareReqs, items: set<Host>): set<Host> {
    set x | x in items && Eligible(reqs, x)
  }

  /** The hosts of the cluster a set may pick from. */
  ghost function CandidatePool(hosts: HostMap, spec: SetSpec): set<Host> {
    set n | n in hosts && Subset(spec.selector, hosts[n].labels) && Eligible(spec.hardwareReqs, hosts[n]) :: hosts[n]
  }

  /** The new computes of `spec` fit into the hosts of the cluster. */
  ghost predicate CanScaleUp(hosts: HostMap, spec: SetSpec, status: StatusMap) {
    Feasible(NewComputes(spec.hosts, status), CandidatePool(hosts, spec))
  }

  datatype ScaleUpError = ScaleUpError(requested: nat, inUse: nat, available: nat, labelMismatch: bool)
  datatype ScaleUpResult = Selected(hosts: map<string, Host>) | NotEnough(error: ScaleUpError)

  method IsEligible(reqs: HardwareReqs, x: Host) returns (ok: bool)
    ensures ok <==> Eligible(reqs, x)
  {
    var mismatch := false;
    var hardwareOk := VerifyHardwareMatch(reqs, x.hardware);
    if !hardwareOk {
      mismatch := true;
    }
    if x.state != Available {
      mismatch := true;
    }
    if x.image.Some? && x.image.value.url != "" {
      mismatch := true;
    }
    if x.externallyProvisioned {
      mismatch := true;
    }
    if x.customDeploy {
      mismatch := true;
    }
    if x.consumerRef.Some? {
      mismatch := true;
    }
    return !mismatch;
  }

  ghost function CountEligible(reqs: HardwareReqs, items: seq<Host>): nat {
    if items == [] then 0
    else CountEligible(reqs, items[..|items| - 1]) + if Eligible(reqs, items[|items| - 1]) then 1 else 0
  }

  method FilterEligible(reqs: HardwareReqs, items: seq<Host>) returns (available: seq<Host>)
    ensures Elements(available) == EligibleAmong(reqs, Elements(items))
    ensures |available| == CountEligible(reqs, items)
  {
    available := [];
    for i := 0 to |items|
      invariant forall x :: x in available <==> x in items[..i] && Eligible(reqs, x)
      invariant |available| == CountEligible(reqs, items[..i])
    {
      assert items[..i + 1] == items[..i] + [items[i]];
      assert items[..i + 1][..i] == items[..i];
      var ok := IsEligible(reqs, items[i]);
      if ok {
        assert forall x :: x in available + [items[i]] <==> x in available || x == items[i];
        available := available + [items[i]];
      }
    }
    assert items[..|items|] == items;
  }

  /** The new computes among the hostnames visited so far. */
  ghost function NewAmong(requested: map<string, Compute>, status: StatusMap, visited: set<string>)
    : map<string, Compute>
  {
    map h | h in requested && h in visited && h !in status :: requested[h]
  }

  lemma VisitOneMore(requested: map<string, Compute>, status: StatusMap, visited: set<string>, h: string)
    requires h in requested
    ensures NewAmong(requested, status, visited + {h}) ==
            if h in status then NewAmong(requested, status, visited)
            else NewAmong(requested, status, visited)[h := requested[h]]
  {
  }

  method FindNewComputes(requested: map<string, Compute>, status: StatusMap) returns (missing: map<string, Compute>)
    ensures missing == NewComputes(requested, status)
  {
    missing := map[];
    var order := Range(requested.Keys);
    ghost var visited := {};
    for i := 0 to |order|
      invariant visited == Elements(order[..i])
      invariant missing == NewAmong(requested, status, visited)
    {
      var h := order[i];
      assert h in requested.Keys;
      VisitOneMore(requested, status, visited, h);
      if h !in status {
        missing := missing[h := requested[h]];
      }
      assert order[..i + 1] == order[..i] + [h];
      visited := visited + {h};
    }
    assert order[..|order|] == order;
    assert visited == requested.Keys;
  }

  /**
   The check errs exactly when the new computes cannot be matched; the early
   comparison of counts rejects nothing that could have been matched.
   */
  method VerifyBaremetalSetScaleUp(spec: SetSpec, status: StatusMap, all: seq<Host>, existing: seq<Host>)
    returns (r: ScaleUpResult)
    ensures r.Selected? <==>
            Feasible(NewComputes(spec.hosts, status), EligibleAmong(spec.hardwareReqs, Elements(all)))
    ensures r.Selected? ==>
              ValidAssignment(r.hosts, NewComputes(spec.hosts, status), EligibleAmong(spec.hardwareReqs, Elements(all)))
    ensures r.Selected? ==> forall h | h in r.hosts ::
              && r.hosts[h] in all && r.hosts[h].state == Available && r.hosts[h].consumerRef == None
              && !r.hosts[h].externallyProvisioned && !r.hosts[h].customDeploy
              && (r.hosts[h].image == None || r.hosts[h].image.value.url == "")
    ensures r.NotEnough? ==>
              var available, missing := CountEligible(spec.hardwareReqs, all), NewComputes(spec.hosts, status);
              r.error == ScaleUpError(|spec.hosts|, |existing|, available, available >= |missing|)
  {
    var missing := FindNewComputes(spec.hosts, status);
    if |missing| == 0 {
      assert missing.Keys == {};
      assert ValidAssignment(map[], missing, EligibleAmong(spec.hardwareReqs, Elements(all)));
      return Selected(map[]);
    }
    var available := FilterEligible(spec.hardwareReqs, all);
    if |available| >= |missing| {
      var found := FindValidAssignments(missing, available);
      if found.Some? {
        return Selected(found.value);
      }
      return NotEnough(ScaleUpError(|spec.hosts|, |existing|, |available|, true));
    }
    TooFewHosts(missing, available);
    return NotEnough(ScaleUpError(|spec.hosts|, |existing|, |available|, false));
  }

  lemma TooFewHosts(computes: map<string, Compute>, available: seq<Host>)
    requires |available| < |computes|
    ensures !Feasible(computes, Elements(available))
  {
    if Feasible(computes, Elements(available)) {
      var f: map<string, Host> :| ValidAssignment(f, computes, Elements(available));
      assert |f.Keys| == |computes.Keys|;
      Pigeonhole(f, available);
    }
  }

  /** Whatever order the API server lists hosts in, the check ranges over the same pool. */
  lemma ListGivesPool(items: seq<Host>, hosts: HostMap, spec: SetSpec)
    requires IsList(items, hosts, spec.selector)
    requires forall n | n in hosts :: hosts[n].name == n
    ensures EligibleAmong(spec.hardwareReqs, Elements(items)) == CandidatePool(hosts, spec)
  {
  }

  lemma NothingNewFits(hosts: HostMap, spec: SetSpec, status: StatusMap)
    requires spec.hosts.Keys <= status.Keys
    ensures CanScaleUp(hosts, spec, status)
  {
    assert NewComputes(spec.hosts, status) == map[];
    assert ValidAssignment(map[], map[], CandidatePool(hosts, spec));
  }

  // ---------------------------------------------------------------- monotonicity

  /** Every host of `hosts` is still in `hosts'`, changed at most by added labels. */
  ghost predicate OnlyGrown(hosts': HostMap, hosts: HostMap) {
    forall n | n in hosts ::
      && n in hosts'
      && Subset(hosts[n].labels, hosts'[n].labels)
      && hosts'[n].(labels := hosts[n].labels) == hosts[n]
  }

  /** `spec'` with `status'` asks for no more than `spec` with `status`. */
  ghost predicate AsksNoMore(spec': SetSpec, status': StatusMap, spec: SetSpec, status: StatusMap) {
    && Subset(spec'.selector, spec.selector)
    && RelaxedReqs(spec'.hardwareReqs, spec.hardwareReqs)
    && (forall h | h in spec'.hosts && h !in status' ::
          h in spec.hosts && h !in status && Subset(spec'.hosts[h].selector, spec.hosts[h].selector))
  }

  /**
   More hosts, more labels on hosts, smaller selectors, fewer new computes, lower
   CPU or memory requests: none of these turns a success into an error.
   */
  lemma ScaleUpIsMonotone(
    hosts': HostMap, spec': SetSpec, status': StatusMap, hosts: HostMap, spec: SetSpec, status: StatusMap)
    requires OnlyGrown(hosts', hosts) && AsksNoMore(spec', status', spec, status)
    requires CanScaleUp(hosts, spec, status)
    ensures CanScaleUp(hosts', spec', status')
  {
    forall x | x in CandidatePool(hosts, spec) ensures Covered(x, CandidatePool(hosts', spec')) {
      var n :| && n in hosts && hosts[n] == x
               && Subset(spec.selector, hosts[n].labels) && Eligible(spec.hardwareReqs, hosts[n]);
      StillInPool(hosts', spec', hosts, spec, n);
      assert StandsFor(hosts'[n], x);
    }
    FeasibleIsMonotone(NewComputes(spec'.hosts, status'), CandidatePool(hosts', spec'),
                       NewComputes(spec.hosts, status), CandidatePool(hosts, spec));
  }

  lemma StillInPool(hosts': HostMap, spec': SetSpec, hosts: HostMap, spec: SetSpec, n: string)
    requires OnlyGrown(hosts', hosts) && n in hosts
    requires Subset(spec'.selector, spec.selector) && RelaxedReqs(spec'.hardwareReqs, spec.hardwareReqs)
    requires Subset(spec.selector, hosts[n].labels) && Eligible(spec.hardwareReqs, hosts[n])
    ensures hosts'[n] in CandidatePool(hosts', spec')
  {
    RelaxingKeepsMatch(spec'.hardwareReqs, spec.hardwareReqs, hosts[n].hardware);
    var y := hosts'[n];
    assert y.(labels := hosts[n].labels) == hosts[n];
    assert Eligible(spec'.hardwareReqs, y);
    SubsetTransitive(spec'.selector, spec.selector, hosts[n].labels);
    SubsetTransitive(spec'.selector, hosts[n].labels, y.labels);
  }
}
