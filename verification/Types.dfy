/** The values the controller passes around: Kubernetes services as the informer caches them, the
    services exchanged between meshes, and the configuration of the local mesh and its peers. */
module Types {

  datatype Option<+T> = None | Some(value: T)

  datatype Result<+T, +E> = Success(value: T) | Failure(error: E)

  type int32 = x: int | -0x8000_0000 <= x < 0x8000_0000
  type uint32 = x: int | 0 <= x < 0x1_0000_0000

  /** Go's conversion `uint32(x)` of an int32: two's complement. */
  function ToUint32(x: int32): (r: uint32)
    ensures (r - x) % 0x1_0000_0000 == 0
  {
    if x < 0 then x + 0x1_0000_0000 else x
  }

  type Labels = map<string, string>

  /** A namespaced name. */
  datatype Key = Key(namespace: string, name: string)

  /** A port of a Kubernetes service; `targetPort` is the integer form, zero when a name is used. */
  datatype Port = Port(name: string, port: int32, targetPort: int32)

  datatype Service = Service(labels: Labels, ports: seq<Port>)

  /** The informer's cache of local services. */
  type Cache = map<Key, Service>

  /** A service as a lister returns it. */
  type Item = (Key, Service)

  /** A service lister over a cache. Listing by some selectors, or getting some keys, may fail. */
  datatype Lister = Lister(cache: Cache, listFails: set<Labels>, getFails: set<Key>)

  /** The messages of the federated discovery service. */
  datatype ServicePort = ServicePort(name: string, number: uint32, protocol: string, targetPort: uint32)

  datatype FederatedService = FederatedService(hostname: string, ports: seq<ServicePort>, labels: Labels)

  /** One discovery response: the whole state of the exporting mesh. */
  type Snapshot = seq<FederatedService>

  const OPENSHIFT_ROUTER := "openshift-router"
  const DEFAULT_GATEWAY_PORT: uint32 := 15443
  const DISCOVERY_PORT: uint32 := 15080

  datatype Remote = Remote(
    name: string,
    addresses: seq<string>,
    ingressType: string,
    port: Option<uint32>,
    network: string)
  {
    function ServiceName(): string {
      "federation-discovery-service-" + name
    }

    function ServiceFQDN(): string {
      ServiceName() + ".istio-system.svc.cluster.local"
    }

    function GetPort(): uint32 {
      if port.Some? then port.value else DEFAULT_GATEWAY_PORT
    }
  }

  datatype Local = Local(
    name: string,
    controlPlaneNamespace: string,
    ingressSelector: Labels,
    ingressPortName: string,
    ingressPortNumber: uint32,
    ingressType: string)

  /** `exportRules` holds the match-label selectors of each export rule. */
  datatype Federation = Federation(local: Local, remotes: seq<Remote>, exportRules: seq<seq<Labels>>)
  {
    /** Only the first rule is used. */
    function LabelSelectors(): seq<Labels> {
      if |exportRules| == 0 then [] else exportRules[0]
    }

    predicate AnyRouterRemote() {
      exists i | 0 <= i < |remotes| :: remotes[i].ingressType == OPENSHIFT_ROUTER
    }
  }
}
