/**
 The entities the operator works on: BareMetalHosts with their labels and
 hardware inventory, and OpenStackBaremetalSets with their spec and status.
 Every field that some modelled operation reads or writes is here.
 */
module Types {

  datatype Option<+T> = None | Some(value: T)

  /**
   A label key. The operator's own keys are the three owner keys and one
   hostname key per set name ("<set name>-osbms-hostname"); every other key is
   `Custom`. Selectors may mention any of them.
   */
  datatype LabelKey =
    | OwnerUid
    | OwnerNamespace
    | OwnerName
    | HostnameOf(setName: string)
    | Custom(key: string)

  type Labels = map<LabelKey, string>

  /** `sub` is a sub-map of `m`: the meaning of a label selector. */
  predicate Subset<K, V(==)>(sub: map<K, V>, m: map<K, V>) {
    forall k | k in sub :: k in m && m[k] == sub[k]
  }

  datatype ProvisioningState = Available | Provisioned | OtherState(text: string)

  datatype Image = Image(url: string, checksum: string, checksumType: string)
  datatype ObjectRef = ObjectRef(name: string, namespace: string)
  datatype SecretRef = SecretRef(name: string, namespace: string)

  datatype Disk = Disk(sizeBytes: int, rotational: bool)
  datatype HardwareDetails =
    HardwareDetails(arch: string, cpuCount: int, clockMegahertz: real, ramMebibytes: int, storage: seq<Disk>)

  /** A requested quantity; 0 means "not requested". */
  datatype Quantity = Quantity(value: int, exactMatch: bool)
  datatype SsdReq = SsdReq(ssd: bool, exactMatch: bool)
  datatype HardwareReqs =
    HardwareReqs(arch: string, cpuCount: Quantity, cpuMhz: Quantity, memGb: Quantity, diskGb: Quantity, ssd: SsdReq)

  const NO_REQS :=
    HardwareReqs("", Quantity(0, false), Quantity(0, false), Quantity(0, false), Quantity(0, false),
                 SsdReq(false, false))

  /** A BareMetalHost. */
  datatype Host = Host(
    name: string,
    labels: Labels,
    state: ProvisioningState,
    hardware: Option<HardwareDetails>,
    externallyProvisioned: bool,
    customDeploy: bool,
    consumerRef: Option<ObjectRef>,
    image: Option<Image>,
    online: bool,
    cleaningMode: string,
    userData: Option<SecretRef>,
    networkData: Option<SecretRef>)

  /** One requested compute: an entry of spec.baremetalHosts. */
  datatype Compute = Compute(
    selector: Labels,
    ctlPlaneIp: string,
    userData: Option<SecretRef>,
    networkData: Option<SecretRef>)

  datatype DeploymentType = SelfExtracting | PassThrough

  datatype SetSpec = SetSpec(
    hosts: map<string, Compute>,
    selector: Labels,
    hardwareReqs: HardwareReqs,
    deployment: DeploymentType,
    containerImageUrl: string,
    cleaningMode: string,
    bmhNamespace: string,
    passwordSecret: Option<SecretRef>)

  /** An entry of status.baremetalHosts. */
  datatype HostStatus = HostStatus(
    hostname: string,
    bmhRef: string,
    ctlPlaneIp: string,
    state: ProvisioningState,
    userDataSecret: string,
    networkDataSecret: string)

  type StatusMap = map<string, HostStatus>

  datatype Truth = Unknown | True | False
  datatype Conditions = Conditions(ready: Truth, inputReady: Truth, serverReady: Truth, hostsReady: Truth)

  const INITIAL_CONDITIONS := Conditions(Unknown, Unknown, Unknown, Unknown)

  /** An OpenStackBaremetalSet. */
  datatype BaremetalSet = BaremetalSet(
    uid: string,
    namespace: string,
    name: string,
    spec: SetSpec,
    status: StatusMap,
    conditions: Conditions)

  /** Hosts by name: the BareMetalHosts of the BMH namespace. */
  type HostMap = map<string, Host>

  function OwnerLabels(s: BaremetalSet): Labels {
    map[OwnerUid := s.uid, OwnerNamespace := s.namespace, OwnerName := s.name]
  }

  function ClaimLabels(s: BaremetalSet, hostname: string): Labels {
    OwnerLabels(s)[HostnameOf(s.name) := hostname]
  }

  predicate Owned(s: BaremetalSet, host: Host) {
    Subset(OwnerLabels(s), host.labels)
  }

  function RefTo(s: BaremetalSet): ObjectRef {
    ObjectRef(s.name, s.namespace)
  }

  /** `order` lists the elements of `s`, each once: one way of ranging over a Go map. */
  ghost predicate Enumerates<T(!new)>(order: seq<T>, s: set<T>) {
    && (forall x :: x in order <==> x in s)
    && (forall i, j | 0 <= i < j < |order| :: order[i] != order[j])
  }

  /** `items` is an answer of the API server to a list call with a label selector. */
  ghost predicate IsList(items: seq<Host>, hosts: HostMap, selector: Labels) {
    && (forall x :: x in items <==> x.name in hosts && hosts[x.name] == x && Subset(selector, x.labels))
    && (forall i, j | 0 <= i < j < |items| :: items[i].name != items[j].name)
  }

  /** The range clause over a map: an order the caller cannot choose. */
  method Range<T(==, !new)>(s: set<T>) returns (order: seq<T>)
    ensures Enumerates(order, s)
  {
    order := [];
    var todo := s;
    while todo != {}
      invariant todo <= s && Enumerates(order, s - todo)
      decreases todo
    {
      var x :| x in todo;
      assert forall y :: y in order + [x] <==> y in order || y == x;
      order := order + [x];
      todo := todo - {x};
    }
    assert s - todo == s;
  }
}
