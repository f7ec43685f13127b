/**
 One reconcile of an OpenStackBaremetalSet: sync the status with the hosts that
 exist, release hosts no longer asked for, select hosts for new computes and
 provision them all; and the deletion of a set. The functions take every choice
 Go leaves open (list orders, map orders, which valid selection) as an argument;
 the methods make those choices and are proved against the functions.
 */
module Reconcile {
  import opened Types
  import opened Allocation
  import opened ScaleUp
  import opened Lifecycle

  // ---------------------------------------------------------------- the stages as functions

  /** Drop status entries whose host is gone. */
  function Sync(v: View): View {
    v.(bms := v.bms.(status := SyncedStatus(v.hosts, v.bms.status)))
  }

  function SyncedStatus(hosts: HostMap, status: StatusMap): StatusMap {
    map h | h in status && status[h].bmhRef in hosts :: status[h]
  }

  /** Reading a Go label map: a missing key reads as the empty string. */
  function LabelText(labels: Labels, k: LabelKey): string {
    if k in labels then labels[k] else ""
  }

  /** The hostnames, read off the owned hosts, that the spec no longer asks for. */
  function ToRelease(owned: seq<Host>, setName: string, requested: map<string, Compute>): seq<string> {
    if owned == [] then []
    else
      var h := LabelText(owned[|owned| - 1].labels, HostnameOf(setName));
      ToRelease(owned[..|owned| - 1], setName, requested) + if h in requested then [] else [h]
  }

  const NO_ENTRY := HostStatus("", "", "", OtherState(""), "", "")

  function EntryOf(status: StatusMap, h: string): HostStatus {
    if h in status then status[h] else NO_ENTRY
  }

  function ApiFor(apis: map<string, ReleaseApi>, h: string): ReleaseApi {
    if h in apis then apis[h] else AllWell
  }

  /** Releases in order; the first failure ends the stage. */
  function ReleaseAll(v: View, names: seq<string>, apis: map<string, ReleaseApi>): Releasing
    decreases |names|
  {
    if names == [] then Releasing(v, ReleaseDone)
    else
      var first := Release(v, EntryOf(v.bms.status, names[0]), ApiFor(apis, names[0]));
      if first.result != ReleaseDone then first else ReleaseAll(first.view, names[1..], apis)
  }

  /** Hostname to host, read off the owned hosts; a later host replaces an earlier one. */
  function ExistingHosts(owned: seq<Host>, setName: string): map<string, Host> {
    if owned == [] then map[]
    else
      var rest, x := ExistingHosts(owned[..|owned| - 1], setName), owned[|owned| - 1];
      if HostnameOf(setName) in x.labels then rest[x.labels[HostnameOf(setName)] := x] else rest
  }

  /** Provisions in order; the first failure ends the stage. */
  function ProvisionAll(
    v: View, targets: map<string, Host>, order: seq<string>, image: Image, failing: set<string>): Provisioning
    requires forall h | h in order :: h in targets
    decreases |order|
  {
    if order == [] then Provisioning(v, true)
    else
      var first := Provision(v, targets[order[0]].name, order[0], image, order[0] !in failing);
      if !first.ok then first else ProvisionAll(first.view, targets, order[1..], image, failing)
  }

  // ---------------------------------------------------------------- one reconcile as a function

  datatype Lookup = Found | NotFound | LookupError

  /** How everything outside the operator answers during one reconcile. */
  datatype Env = Env(
    sshSecret: Lookup,
    passwordSecret: Lookup,
    server: Lookup,
    serverStatus: ServerStatus,
    syncListed: bool,
    ownedListed: bool,
    poolListed: bool,
    releases: map<string, ReleaseApi>,
    failing: set<string>)

  /** The choices Go leaves open during one reconcile. */
  datatype Choices = Choices(
    owned: seq<Host>,
    pool: seq<Host>,
    kept: seq<Host>,
    selection: Option<map<string, Host>>,
    order: seq<string>)

  datatype Stage = InputStage | ServerStage | SyncStage | ReleaseStage | ListStage | SelectionStage | ProvisionStage
  datatype Outcome = Requeued | Failed(stage: Stage) | Finished

  datatype Gate = Gate(conditions: Conditions, stop: Option<Outcome>)

  /** The checks before any host is looked at, with the conditions they leave. */
  function Gates(spec: SetSpec, env: Env): Gate {
    var start := INITIAL_CONDITIONS;
    if env.sshSecret.NotFound? then Gate(start.(inputReady := False), Some(Requeued))
    else if env.sshSecret.LookupError? then Gate(start.(inputReady := False), Some(Failed(InputStage)))
    else if spec.passwordSecret.Some? && env.passwordSecret.NotFound? then
      Gate(start.(inputReady := False), Some(Requeued))
    else if spec.passwordSecret.Some? && env.passwordSecret.LookupError? then
      Gate(start.(inputReady := False), Some(Failed(InputStage)))
    else
      var input := start.(inputReady := True);
      if spec.deployment.SelfExtracting? then
        if env.server.NotFound? then Gate(input.(serverReady := False), Some(Requeued))
        else if env.server.LookupError? then Gate(input.(serverReady := False), Some(Failed(ServerStage)))
        else if env.serverStatus.localImageUrl == "" || env.serverStatus.checksumUrl == "" then
          Gate(input.(serverReady := False), Some(Requeued))
        else Gate(input.(serverReady := True), None)
      else if spec.containerImageUrl == "" then Gate(input.(inputReady := False), Some(Requeued))
      else Gate(input.(serverReady := True), None)
  }

  datatype Result = Result(view: View, outcome: Outcome)

  function AfterRelease(v: View, env: Env, ch: Choices): Releasing {
    ReleaseAll(Sync(v), ToRelease(ch.owned, v.bms.name, v.bms.spec.hosts), env.releases)
  }

  function Targets(setName: string, ch: Choices): map<string, Host>
    requires ch.selection.Some?
  {
    MergeKeeping(ch.selection.value, ExistingHosts(ch.kept, setName))
  }

  /** The host stages of a reconcile. */
  function Work(v: View, env: Env, ch: Choices): Result
    requires ch.selection.Some? ==> forall h | h in ch.order :: h in Targets(v.bms.name, ch)
  {
    if !env.syncListed then Result(v, Failed(SyncStage))
    else if !env.ownedListed then Result(Sync(v), Failed(ReleaseStage))
    else
      var r := AfterRelease(v, env, ch);
      if r.result != ReleaseDone then Result(r.view, Failed(ReleaseStage))
      else if !env.poolListed then Result(r.view, Failed(ListStage))
      else if ch.selection.None? then Result(r.view, Failed(SelectionStage))
      else
        var image := ImageFor(v.bms.spec, env.serverStatus);
        var p := ProvisionAll(r.view, Targets(v.bms.name, ch), ch.order, image, env.failing);
        Result(p.view, if p.ok then Finished else Failed(ProvisionStage))
  }

  /** Every status entry was last seen provisioned. */
  predicate AllProvisioned(status: StatusMap) {
    forall h | h in status :: status[h].state == Provisioned
  }

  function SetConditions(v: View, c: Conditions): View {
    v.(bms := v.bms.(conditions := c))
  }

  /** The conditions after the host stages. */
  function Conclude(c: Conditions, r: Result): Conditions {
    if r.outcome != Finished || !AllProvisioned(r.view.bms.status) then c.(hostsReady := False)
    else
      var c' := c.(hostsReady := True);
      if c'.inputReady == True && c'.serverReady == True then c'.(ready := True) else c'
  }

  /** The view with the conditions the gates leave. */
  function Entered(v: View, env: Env): View {
    SetConditions(v, Gates(v.bms.spec, env).conditions)
  }

  function Reconciled(v: View, env: Env, ch: Choices): Result
    requires ch.selection.Some? ==> forall h | h in ch.order :: h in Targets(v.bms.name, ch)
  {
    var g := Gates(v.bms.spec, env);
    if g.stop.Some? then Result(Entered(v, env), g.stop.value)
    else
      var r := Work(Entered(v, env), env, ch);
      Result(SetConditions(r.view, Conclude(g.conditions, r)), r.outcome)
  }

  /** The choices are ones the API server, the map orders and the matcher could make, as far as the run gets. */
  ghost predicate Allowed(v: View, env: Env, ch: Choices) {
    && (env.syncListed && env.ownedListed ==>
          && IsList(ch.owned, v.hosts, OwnerLabels(v.bms))
          && (AfterRelease(v, env, ch).result == ReleaseDone && env.poolListed ==>
                AllowedFrom(AfterRelease(v, env, ch).view, ch)))
    && (ch.selection.Some? ==> Enumerates(ch.order, Targets(v.bms.name, ch).Keys))
  }

  ghost predicate AllowedFrom(v: View, ch: Choices) {
    && IsList(ch.pool, v.hosts, v.bms.spec.selector)
    && IsList(ch.kept, v.hosts, OwnerLabels(v.bms))
    && SelectionAllowed(v, ch)
  }

  /** A selection is any valid assignment of the new computes; there is none only if none exists. */
  ghost predicate SelectionAllowed(v: View, ch: Choices) {
    var computes := NewComputes(v.bms.spec.hosts, v.bms.status);
    var pool := EligibleAmong(v.bms.spec.hardwareReqs, Elements(ch.pool));
    match ch.selection
    case Some(f) => ValidAssignment(f, computes, pool)
    case None => !Feasible(computes, pool)
  }

  // ---------------------------------------------------------------- deletion as a function

  /** Ranging over the status map while deleting from it: entries already deleted are not visited. */
  function CleanUp(v: View, order: seq<string>, apis: map<string, ReleaseApi>): Releasing
    decreases |order|
  {
    if order == [] then Releasing(v, ReleaseDone)
    else if order[0] !in v.bms.status then CleanUp(v, order[1..], apis)
    else
      var first := Release(v, v.bms.status[order[0]], ApiFor(apis, order[0]));
      if first.result != ReleaseDone then first else CleanUp(first.view, order[1..], apis)
  }

  /** Whether the finalizer is dropped: a missing host counts as success. */
  function DropsFinalizer(r: Releasing): bool {
    r.result != ReleaseError
  }
}
