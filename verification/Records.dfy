/** The custom resources, pods and hosts that MIC and NMI work on. */
module Records {

  datatype Option<+T> = None | Some(value: T)

  /** Status.Status of an AzureAssignedIdentity; NoState is the empty string. */
  datatype Status = NoState | Created | Assigned | Unassigned | Other(text: string)

  datatype IdentityType = UserAssignedMSI | ServicePrincipal | ServicePrincipalCertificate | OtherType(code: int)

  /** `namespaced` is the Behavior annotation read by IsNamespacedIdentity. */
  datatype AzureIdentity = AzureIdentity(
    namespace: string,
    name: string,
    resourceVersion: string,
    namespaced: bool,
    kind: IdentityType,
    resourceID: string,
    clientID: string)

  datatype Binding = Binding(
    namespace: string,
    name: string,
    resourceVersion: string,
    azureIdentity: string,
    selector: string)

  /** `labelNode` is the "nodename" label. */
  datatype AssignedID = AssignedID(
    namespace: string,
    name: string,
    resourceVersion: string,
    labelNode: string,
    identity: AzureIdentity,
    binding: Binding,
    pod: string,
    podNamespace: string,
    node: string,
    status: Status)
  {
    predicate IsMSI() {
      identity.kind == UserAssignedMSI
    }
  }

  /** `selectorLabel` is the aadpodidbinding label, empty when absent. */
  datatype Pod = Pod(namespace: string, name: string, node: string, selectorLabel: string)

  type AssignedMap = map<string, AssignedID>

  /** Records are stored under their own name. */
  predicate WellKeyed(m: AssignedMap) {
    forall k :: k in m ==> m[k].name == k
  }

  /** Iterating over a map: one more key leaves `todo`. */
  lemma TakeOne<V>(m: map<string, V>, todo: set<string>, k: string)
    requires k in m && k in todo
    ensures m - (todo - {k}) == (m - todo)[k := m[k]]
  {
    assert (m - (todo - {k})).Keys == (m - todo)[k := m[k]].Keys;
  }

  lemma TakeNone<V>(m: map<string, V>)
    ensures m - m.Keys == map[] && m - {} == m
  {
  }

  /** makeVMSSID: subscription, resource group and resource name of a scale set. */
  datatype ScaleSet = ScaleSet(subscription: string, group: string, name: string)

  /** What the node lister and the provider ID of a node say about it. */
  datatype NodeInfo = NotFound | Broken | Standalone | InScaleSet(id: ScaleSet)

  type NodeLookup = string -> NodeInfo

  /** The Azure resource that carries the identities of a node; Gone is a node that no longer exists. */
  datatype HostKey = Vm(name: string) | Vmss(name: string) | Gone(name: string)

  function HostOf(lookup: NodeLookup, node: string): HostKey {
    match lookup(node)
    case NotFound => Gone(node)
    case InScaleSet(v) => Vmss(v.name)
    case _ => Vm(node)
  }
}
