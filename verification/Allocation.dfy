/**
 The label matcher: computes on one side, hosts on the other, and a backtracking
 search for an assignment that gives every compute its own label-compatible host.
 */
module Allocation {
  import opened Types

  /** A length gate followed by a scan; agrees with the sub-map relation. */
  method IsMapSubset<K(==, !new), V(==)>(m: map<K, V>, sub: map<K, V>) returns (yes: bool)
    ensures yes <==> Subset(sub, m)
  {
    if |sub| > |m| {
      if Subset(sub, m) {
        SubsetIsNotLarger(sub, m);
      }
      return false;
    }
    var order := Range(sub.Keys);
    for i := 0 to |order|
      invariant forall j | 0 <= j < i :: order[j] in m && m[order[j]] == sub[order[j]]
    {
      var k := order[i];
      assert k in sub.Keys;
      if k !in m || m[k] != sub[k] {
        return false;
      }
    }
    return true;
  }

  lemma {:induction false} SubsetIsNotLarger<K, V>(sub: map<K, V>, m: map<K, V>)
    requires Subset(sub, m)
    ensures |sub| <= |m|
  {
    KeysCount(sub.Keys, m.Keys);
  }

  lemma {:induction false} KeysCount<T>(small: set<T>, large: set<T>)
    requires small <= large
    ensures |small| <= |large|
    decreases small
  {
    if small != {} {
      var x :| x in small;
      KeysCount(small - {x}, large - {x});
    }
  }

  // ---------------------------------------------------------------- what is asked for

  /**
   `f` gives every compute a host of the pool whose labels satisfy the compute's
   selector, and no two computes share a host name.
   */
  ghost predicate ValidAssignment(f: map<string, Host>, computes: map<string, Compute>, pool: set<Host>) {
    && f.Keys == computes.Keys
    && (forall c | c in f :: f[c] in pool && Subset(computes[c].selector, f[c].labels))
    && Injective(f)
  }

  ghost predicate Injective(f: map<string, Host>) {
    forall c, d | c in f && d in f && f[c].name == f[d].name :: c == d
  }

  /** Whether the computes can be matched at all; no order of any kind is involved. */
  ghost predicate Feasible(computes: map<string, Compute>, pool: set<Host>) {
    exists f :: ValidAssignment(f, computes, pool)
  }

  function Elements<T>(s: seq<T>): set<T> {
    set x | x in s
  }

  // ---------------------------------------------------------------- the search

  /** The hosts of `hosts` a selector admits, in list order. */
  function Compatible(selector: Labels, hosts: seq<Host>): seq<Host> {
    if hosts == [] then []
    else
      var init, last := hosts[..|hosts| - 1], hosts[|hosts| - 1];
      Compatible(selector, init) + if Subset(selector, last.labels) then [last] else []
  }

  lemma {:induction false} CompatibleMeaning(selector: Labels, hosts: seq<Host>, x: Host)
    ensures x in Compatible(selector, hosts) <==> x in hosts && Subset(selector, x.labels)
  {
    if hosts != [] {
      var init, last := hosts[..|hosts| - 1], hosts[|hosts| - 1];
      CompatibleMeaning(selector, init, x);
      assert hosts == init + [last];
    }
  }

  /** Reading a Go map of slices: a missing key reads as the empty slice. */
  function CandidatesOf(table: map<string, seq<Host>>, compute: string): seq<Host> {
    if compute in table then table[compute] else []
  }

  ghost predicate Distinct<T>(s: seq<T>) {
    forall i, j | 0 <= i < j < |s| :: s[i] != s[j]
  }

  /** The computes from position `index` on. */
  ghost function Remaining(order: seq<string>, index: nat): set<string>
    requires index <= |order|
  {
    set i | index <= i < |order| :: order[i]
  }

  lemma RemainingStep(order: seq<string>, index: nat)
    requires index < |order| && Distinct(order)
    ensures order[index] !in Remaining(order, index + 1)
    ensures Remaining(order, index) == {order[index]} + Remaining(order, index + 1)
  {
  }

  /** `f` assigns the computes from position `index` on, avoiding the names in `used`. */
  ghost predicate Completes(
    f: map<string, Host>, order: seq<string>, index: nat, table: map<string, seq<Host>>, used: set<string>)
    requires index <= |order|
  {
    && f.Keys == Remaining(order, index)
    && Admissible(f, table, used)
    && Injective(f)
  }

  ghost predicate Admissible(f: map<string, Host>, table: map<string, seq<Host>>, used: set<string>) {
    forall c | c in f :: f[c] in CandidatesOf(table, c) && f[c].name !in used
  }

  ghost function NamesOf(f: map<string, Host>): set<string> {
    set c | c in f :: f[c].name
  }

  /** Taking one compute out of an assignment. */
  lemma WithoutOne(f: map<string, Host>, c: string, table: map<string, seq<Host>>, used: set<string>)
    requires c in f && Admissible(f, table, used) && Injective(f)
    ensures Admissible(f - {c}, table, used + {f[c].name}) && Injective(f - {c})
  {
  }

  /** Adding one compute to an assignment. */
  lemma WithOne(g: map<string, Host>, c: string, host: Host, table: map<string, seq<Host>>, used: set<string>)
    requires c !in g && host in CandidatesOf(table, c) && host.name !in used
    requires Admissible(g, table, used + {host.name}) && Injective(g)
    ensures Admissible(g[c := host], table, used) && Injective(g[c := host])
    ensures NamesOf(g[c := host]) == {host.name} + NamesOf(g)
  {
  }

  lemma CompletesTail(
    f: map<string, Host>, order: seq<string>, index: nat, table: map<string, seq<Host>>, used: set<string>)
    requires index < |order| && Distinct(order)
    requires Completes(f, order, index, table, used)
    ensures order[index] in f
    ensures Completes(f - {order[index]}, order, index + 1, table, used + {f[order[index]].name})
  {
    RemainingStep(order, index);
    WithoutOne(f, order[index], table, used);
  }

  lemma CompletesCons(
    g: map<string, Host>, host: Host, order: seq<string>, index: nat, table: map<string, seq<Host>>, used: set<string>)
    requires index < |order| && Distinct(order)
    requires host in CandidatesOf(table, order[index]) && host.name !in used
    requires Completes(g, order, index + 1, table, used + {host.name})
    ensures Completes(g[order[index] := host], order, index, table, used)
    ensures NamesOf(g[order[index] := host]) == {host.name} + NamesOf(g)
  {
    RemainingStep(order, index);
    WithOne(g, order[index], host, table, used);
  }

  /** No way to complete the search gives the compute at `index` one of the hosts in `tried`. */
  ghost predicate Exhausted(
    tried: seq<Host>, order: seq<string>, index: nat, table: map<string, seq<Host>>, used: set<string>)
    requires index < |order|
  {
    forall f | Completes(f, order, index, table, used) :: order[index] in f && f[order[index]] !in tried
  }

  ghost predicate NoCompletion(order: seq<string>, index: nat, table: map<string, seq<Host>>, used: set<string>)
    requires index <= |order|
  {
    forall f :: !Completes(f, order, index, table, used)
  }

  lemma ExhaustedBy(
    tried: seq<Host>, host: Host, order: seq<string>, index: nat, table: map<string, seq<Host>>, used: set<string>)
    requires index < |order| && Distinct(order)
    requires Exhausted(tried, order, index, table, used)
    requires host.name in used || NoCompletion(order, index + 1, table, used + {host.name})
    ensures Exhausted(tried + [host], order, index, table, used)
  {
    RemainingStep(order, index);
    forall f | Completes(f, order, index, table, used)
      ensures order[index] in f && f[order[index]] !in tried + [host]
    {
      if f[order[index]] == host && host.name !in used {
        CompletesTail(f, order, index, table, used);
        assert false;
      }
    }
  }

  lemma NothingTried(order: seq<string>, index: nat, table: map<string, seq<Host>>, used: set<string>)
    requires index < |order| && Distinct(order)
    ensures Exhausted([], order, index, table, used)
  {
  }

  lemma AllTried(order: seq<string>, index: nat, table: map<string, seq<Host>>, used: set<string>)
    requires index < |order|
    requires Exhausted(CandidatesOf(table, order[index]), order, index, table, used)
    ensures NoCompletion(order, index, table, used)
  {
  }

  lemma MergeOne(base: map<string, Host>, more: map<string, Host>, c: string, host: Host)
    requires c !in more
    ensures base[c := host] + more == base + more[c := host]
  {
  }

  /** The closure `backtrack` with the two maps it shares across its recursion. */
  class Search {
    const order: seq<string>
    const table: map<string, seq<Host>>
    var assignment: map<string, Host>
    var taken: map<string, bool>

    constructor (order: seq<string>, table: map<string, seq<Host>>)
      ensures this.order == order && this.table == table
      ensures assignment == map[] && Marked() == {}
    {
      this.order := order;
      this.table := table;
      assignment := map[];
      taken := map[];
    }

    /** The host names marked true; keys marked false do not count. */
    ghost function Marked(): set<string>
      reads this
    {
      set n | n in taken && taken[n]
    }

    method Take(compute: string, bmh: Host)
      modifies this
      ensures assignment == old(assignment)[compute := bmh]
      ensures Marked() == old(Marked()) + {bmh.name}
    {
      assignment := assignment[compute := bmh];
      taken := taken[bmh.name := true];
    }

    method GiveBack(compute: string, bmh: Host)
      modifies this
      ensures assignment == old(assignment) - {compute}
      ensures Marked() == old(Marked()) - {bmh.name}
    {
      assignment := assignment - {compute};
      taken := taken[bmh.name := false];
    }

    /** Gives one host to the compute at `index`, searches on, and takes the host back if that fails. */
    method TryHost(index: nat, bmh: Host) returns (ok: bool, ghost found: map<string, Host>)
      requires index < |order| && Distinct(order)
      requires Remaining(order, index) !! assignment.Keys
      requires bmh in CandidatesOf(table, order[index]) && bmh.name !in Marked()
      modifies this
      ensures ok ==> Completes(found, order, index, table, old(Marked()))
      ensures ok ==> assignment == old(assignment) + found
      ensures ok ==> Marked() == old(Marked()) + NamesOf(found)
      ensures !ok ==> assignment == old(assignment) && Marked() == old(Marked())
      ensures !ok ==> NoCompletion(order, index + 1, table, old(Marked()) + {bmh.name})
      decreases |order| - index, 0
    {
      var compute := order[index];
      ghost var before, used := assignment, Marked();
      RemainingStep(order, index);
      Take(compute, bmh);
      ok, found := Backtrack(index + 1);
      if ok {
        CompletesCons(found, bmh, order, index, table, used);
        MergeOne(before, found, compute, bmh);
        found := found[compute := bmh];
      } else {
        GiveBack(compute, bmh);
        assert assignment == before && Marked() == used;
      }
    }

    /**
     On success the call has added an assignment of all remaining computes; on
     failure it has undone every change and no such assignment exists.
     */
    method Backtrack(index: nat) returns (ok: bool, ghost found: map<string, Host>)
      requires index <= |order| && Distinct(order)
      requires Remaining(order, index) !! assignment.Keys
      modifies this
      ensures ok ==> Completes(found, order, index, table, old(Marked()))
      ensures ok ==> assignment == old(assignment) + found
      ensures ok ==> Marked() == old(Marked()) + NamesOf(found)
      ensures !ok ==> assignment == old(assignment) && Marked() == old(Marked())
      ensures !ok ==> NoCompletion(order, index, table, old(Marked()))
      decreases |order| - index, 1
    {
      found := map[];
      if index == |order| {
        return true, map[];
      }
      var compute := order[index];
      RemainingStep(order, index);
      var bmhs := CandidatesOf(table, compute);
      ghost var before, used := assignment, Marked();
      NothingTried(order, index, table, used);
      for i := 0 to |bmhs|
        invariant assignment == before && Marked() == used
        invariant Exhausted(bmhs[..i], order, index, table, used)
      {
        var bmh := bmhs[i];
        assert bmhs[..i + 1] == bmhs[..i] + [bmh];
        if bmh.name !in taken || !taken[bmh.name] {
          ok, found := TryHost(index, bmh);
          if ok {
            return;
          }
        }
        ExhaustedBy(bmhs[..i], bmh, order, index, table, used);
      }
      assert bmhs[..|bmhs|] == bmhs;
      AllTried(order, index, table, used);
      ok := false;
    }
  }

  method FilterCompatible(selector: Labels, bmhs: seq<Host>) returns (fits: seq<Host>)
    ensures fits == Compatible(selector, bmhs)
  {
    fits := [];
    for k := 0 to |bmhs|
      invariant fits == Compatible(selector, bmhs[..k])
    {
      assert bmhs[..k + 1][..k] == bmhs[..k];
      var fit := IsMapSubset(bmhs[k].labels, selector);
      if fit {
        fits := fits + [bmhs[k]];
      }
    }
    assert bmhs[..|bmhs|] == bmhs;
  }

  /** `table` holds the compatible hosts of each compute; a compute with none may be absent. */
  ghost predicate IsTable(table: map<string, seq<Host>>, computes: map<string, Compute>, bmhs: seq<Host>) {
    forall c | c in computes :: CandidatesOf(table, c) == Compatible(computes[c].selector, bmhs)
  }

  method BuildTable(computes: map<string, Compute>, bmhs: seq<Host>) returns (table: map<string, seq<Host>>)
    ensures IsTable(table, computes, bmhs)
  {
    table := map[];
    var names := Range(computes.Keys);
    for i := 0 to |names|
      invariant table.Keys <= Elements(names[..i])
      invariant forall j | 0 <= j < i :: CandidatesOf(table, names[j]) == Compatible(computes[names[j]].selector, bmhs)
    {
      var c := names[i];
      assert c in computes.Keys;
      var fits := FilterCompatible(computes[c].selector, bmhs);
      if |fits| > 0 {
        table := table[c := fits];
      }
    }
  }

  method LeastFrom(names: array<string>, i: nat, weight: string -> nat) returns (least: nat)
    requires i < names.Length
    ensures i <= least < names.Length
    ensures forall b | i <= b < names.Length :: weight(names[least]) <= weight(names[b])
  {
    least := i;
    for j := i to names.Length
      invariant i <= least < names.Length
      invariant forall b | i <= b < j :: weight(names[least]) <= weight(names[b])
    {
      if weight(names[j]) < weight(names[least]) {
        least := j;
      }
    }
  }

  method Swap(names: array<string>, i: nat, j: nat)
    requires i < names.Length && j < names.Length
    modifies names
    ensures names[..] == old(names[..])[i := old(names[j])][j := old(names[i])]
    ensures multiset(names[..]) == old(multiset(names[..]))
  {
    names[i], names[j] := names[j], names[i];
  }

  /** In-place sort by a numeric key: the sort.Slice call on the compute names. */
  method SortByWeight(names: array<string>, weight: string -> nat)
    modifies names
    ensures multiset(names[..]) == old(multiset(names[..]))
    ensures forall i, j | 0 <= i < j < names.Length :: weight(names[i]) <= weight(names[j])
  {
    for i := 0 to names.Length
      invariant multiset(names[..]) == old(multiset(names[..]))
      invariant forall a, b | 0 <= a < i && a < b < names.Length :: weight(names[a]) <= weight(names[b])
    {
      var least := LeastFrom(names, i, weight);
      Swap(names, i, least);
    }
  }

  /** A permutation of an enumeration is an enumeration. */
  lemma PermutationEnumerates(p: seq<string>, q: seq<string>, s: set<string>)
    requires Enumerates(q, s) && multiset(p) == multiset(q)
    ensures Enumerates(p, s)
  {
    DistinctMultiset(q);
    forall x ensures x in p <==> x in s {
      assert x in p <==> x in multiset(p);
      assert x in q <==> x in multiset(q);
    }
    forall i, j | 0 <= i < j < |p| ensures p[i] != p[j] {
      assert p == p[..i] + [p[i]] + p[i + 1..j] + [p[j]] + p[j + 1..];
      assert multiset(p)[p[i]] <= 1;
    }
  }

  lemma {:induction false} DistinctMultiset(q: seq<string>)
    requires Distinct(q)
    ensures forall x :: multiset(q)[x] <= 1
  {
    if q != [] {
      var init, last := q[..|q| - 1], q[|q| - 1];
      DistinctMultiset(init);
      assert q == init + [last];
      assert last !in init;
    }
  }

  method OrderComputes(computes: map<string, Compute>, table: map<string, seq<Host>>) returns (order: seq<string>)
    ensures Enumerates(order, computes.Keys)
    ensures forall i, j | 0 <= i < j < |order| ::
              |CandidatesOf(table, order[i])| <= |CandidatesOf(table, order[j])|
  {
    var keys := Range(computes.Keys);
    var names := new string[|keys|](i requires 0 <= i < |keys| => keys[i]);
    assert names[..] == keys;
    SortByWeight(names, c => |CandidatesOf(table, c)|);
    PermutationEnumerates(names[..], keys, computes.Keys);
    order := names[..];
  }

  method RunSearch(order: seq<string>, table: map<string, seq<Host>>) returns (r: Option<map<string, Host>>)
    requires Distinct(order)
    ensures r.Some? ==> Completes(r.value, order, 0, table, {})
    ensures r.None? ==> NoCompletion(order, 0, table, {})
  {
    var search := new Search(order, table);
    var ok;
    ghost var found;
    ok, found := search.Backtrack(0);
    assert map[] + found == found;
    r := if ok then Some(search.assignment) else None;
  }

  /**
   The whole matcher: it fails exactly when no valid assignment exists, so its
   verdict depends neither on a map order, nor on the host order, nor on the sort.
   */
  method FindValidAssignments(computes: map<string, Compute>, bmhs: seq<Host>) returns (r: Option<map<string, Host>>)
    ensures r.Some? <==> Feasible(computes, Elements(bmhs))
    ensures r.Some? ==> ValidAssignment(r.value, computes, Elements(bmhs))
  {
    var table := BuildTable(computes, bmhs);
    var order := OrderComputes(computes, table);
    r := RunSearch(order, table);
    if r.Some? {
      SuccessMeaning(r.value, order, table, computes, bmhs);
    } else {
      FailureMeaning(order, table, computes, bmhs);
    }
  }

  /** What the search looks for is what is asked for. */
  lemma SearchMeaning(
    f: map<string, Host>, order: seq<string>, table: map<string, seq<Host>>,
    computes: map<string, Compute>, bmhs: seq<Host>)
    requires Enumerates(order, computes.Keys) && IsTable(table, computes, bmhs)
    ensures Completes(f, order, 0, table, {}) <==> ValidAssignment(f, computes, Elements(bmhs))
  {
    assert Remaining(order, 0) == computes.Keys;
    if f.Keys == computes.Keys {
      forall c | c in f
        ensures f[c] in CandidatesOf(table, c) <==> f[c] in Elements(bmhs) && Subset(computes[c].selector, f[c].labels)
      {
        assert CandidatesOf(table, c) == Compatible(computes[c].selector, bmhs);
        CompatibleMeaning(computes[c].selector, bmhs, f[c]);
      }
    }
  }

  lemma SuccessMeaning(
    f: map<string, Host>, order: seq<string>, table: map<string, seq<Host>>,
    computes: map<string, Compute>, bmhs: seq<Host>)
    requires Enumerates(order, computes.Keys) && IsTable(table, computes, bmhs)
    requires Completes(f, order, 0, table, {})
    ensures ValidAssignment(f, computes, Elements(bmhs)) && Feasible(computes, Elements(bmhs))
  {
    SearchMeaning(f, order, table, computes, bmhs);
  }

  lemma FailureMeaning(
    order: seq<string>, table: map<string, seq<Host>>, computes: map<string, Compute>, bmhs: seq<Host>)
    requires Enumerates(order, computes.Keys) && IsTable(table, computes, bmhs)
    requires NoCompletion(order, 0, table, {})
    ensures !Feasible(computes, Elements(bmhs))
  {
    forall f ensures !ValidAssignment(f, computes, Elements(bmhs)) {
      SearchMeaning(f, order, table, computes, bmhs);
    }
  }

  // ---------------------------------------------------------------- pigeonhole and monotonicity

  /** Distinct names cannot outnumber the list they are drawn from. */
  lemma {:induction false} Pigeonhole(f: map<string, Host>, hosts: seq<Host>)
    requires Injective(f) && forall c | c in f :: f[c] in hosts
    ensures |f| <= |hosts|
    decreases |hosts|
  {
    if hosts == [] {
      assert forall c :: c !in f;
      assert f.Keys == {};
    } else {
      var init, last := hosts[..|hosts| - 1], hosts[|hosts| - 1];
      assert hosts == init + [last];
      if c :| c in f && f[c].name == last.name {
        Pigeonhole(f - {c}, init);
        assert f.Keys == (f - {c}).Keys + {c};
      } else {
        Pigeonhole(f, init);
      }
    }
  }

  /**
   `computes'` over `pool'` asks no more than `computes` over `pool`: no new
   compute, no selector key added, every host still there under its name with at
   least its old labels.
   */
  ghost predicate NoHarder(
    computes': map<string, Compute>, pool': set<Host>, computes: map<string, Compute>, pool: set<Host>)
  {
    && (forall c | c in computes' :: c in computes && Subset(computes'[c].selector, computes[c].selector))
    && (forall x | x in pool :: Covered(x, pool'))
  }

  /** Some host of the pool has the name of `x` and at least its labels. */
  ghost predicate Covered(x: Host, pool: set<Host>) {
    exists y :: y in pool && StandsFor(y, x)
  }

  ghost predicate StandsFor(y: Host, x: Host) {
    y.name == x.name && Subset(x.labels, y.labels)
  }

  lemma FeasibleIsMonotone(
    computes': map<string, Compute>, pool': set<Host>, computes: map<string, Compute>, pool: set<Host>)
    requires NoHarder(computes', pool', computes, pool) && Feasible(computes, pool)
    ensures Feasible(computes', pool')
  {
    var f: map<string, Host> :| ValidAssignment(f, computes, pool);
    var g := Transfer(f, computes'.Keys, pool');
    forall c | c in computes' ensures g[c] in pool' && Subset(computes'[c].selector, g[c].labels) {
      ReplacementFits(f[c], pool', computes'[c].selector, computes[c].selector);
    }
    SameNames(f, g);
    assert ValidAssignment(g, computes', pool');
  }

  ghost function Transfer(f: map<string, Host>, keys: set<string>, pool: set<Host>): (g: map<string, Host>)
    requires keys <= f.Keys && forall c | c in keys :: Covered(f[c], pool)
    ensures g.Keys == keys && forall c | c in g :: g[c].name == f[c].name
  {
    map c | c in keys :: Replacement(f[c], pool)
  }

  lemma SameNames(f: map<string, Host>, g: map<string, Host>)
    requires Injective(f) && forall c | c in g :: c in f && g[c].name == f[c].name
    ensures Injective(g)
  {
  }

  lemma ReplacementFits(x: Host, pool': set<Host>, selector': Labels, selector: Labels)
    requires Covered(x, pool') && Subset(selector', selector) && Subset(selector, x.labels)
    ensures
      var y := Replacement(x, pool');
      y in pool' && y.name == x.name && Subset(selector', y.labels)
  {
  }

  ghost function Replacement(x: Host, pool: set<Host>): (y: Host)
    ensures Covered(x, pool) ==> y in pool && StandsFor(y, x)
  {
    if z: Host :| z in pool && StandsFor(z, x) then z else x
  }

  lemma SubsetTransitive(a: Labels, b: Labels, c: Labels)
    requires Subset(a, b) && Subset(b, c)
    ensures Subset(a, c)
  {
  }
}
