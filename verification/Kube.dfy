/** The Kubernetes and Knative objects the translator reads, and the deployment's settings. */
module Kube {
  import opened Text

  /** A namespaced name (`types.NamespacedName`). */
  datatype Name = Name(namespace: string, name: string)

  /** A region: its own name, and the name of the node that is labelled for it. */
  datatype Region = Region(name: string, node: string)

  /** What the process is started with: regions, environment switches and feature flags. */
  datatype Settings = Settings(
    regions: seq<Region>,
    oneCert: bool,             // CERTS_SECRET_NAMESPACE and CERTS_SECRET_NAME are both set
    httpOptionDisabled: bool,  // KOURIER_HTTPOPTION_DISABLED is set
    systemInternalTLS: bool)   // system-internal-tls is enabled

  datatype Visibility = ExternalIP | ClusterLocal

  datatype Split = Split(service: Name, portNumber: int, portName: string, percent: int, appendHeaders: map<string, string>)

  /** One path entry. `headers` maps a header to the exact value asked for ("" asks for presence). */
  datatype HTTPPath = HTTPPath(
    path: string, headers: map<string, string>, splits: seq<Split>,
    appendHeaders: map<string, string>, rewriteHost: string)

  datatype Rule = Rule(hosts: seq<string>, visibility: Visibility, paths: seq<HTTPPath>)

  datatype IngressTLS = IngressTLS(hosts: seq<string>, secret: Name)

  datatype Ingress = Ingress(
    name: Name, tls: seq<IngressTLS>, rules: seq<Rule>,
    redirectHTTP: bool,   // HTTPOption is Redirected
    disableHTTP2: bool)   // the disable-http2 annotation is "true"

  /** A ready address; the API allows the node name to be missing. */
  datatype Address = Address(ip: string, node: Option<string>)

  type Endpoints = seq<seq<Address>>

  datatype ServicePort = ServicePort(name: string, port: int, targetPort: int)

  datatype Service = Service(externalName: bool, ports: seq<ServicePort>)

  datatype Secret = Secret(certificate: string, privateKey: string, ca: string, validPair: bool)

  datatype Lookup<+T> = Found(value: T) | NotFound | Unavailable

  /** What the getters and the tracker answer while one translation runs; the tracker refuses some references. */
  datatype World = World(
    services: map<Name, Lookup<Service>>,
    endpoints: map<Name, Lookup<Endpoints>>,
    secrets: map<Name, Lookup<Secret>>,
    routingSecret: Lookup<Secret>,
    untrackable: set<Name>)

  function Get<T>(objects: map<Name, Lookup<T>>, n: Name): Lookup<T> {
    if n in objects then objects[n] else NotFound
  }

  /** A DNS label sequence (section 2.1 of RFC 1123) contains none of these. */
  predicate Plain(s: string) {
    ':' !in s && '/' !in s && '_' !in s && '*' !in s
  }

  predicate PlainName(n: Name) {
    Plain(n.namespace) && Plain(n.name)
  }

  /** The names and hosts of an ingress that the API server has admitted. */
  predicate Admitted(ing: Ingress) {
    && PlainName(ing.name)
    && (forall r | 0 <= r < |ing.rules| :: AdmittedRule(ing.rules[r]))
  }

  predicate AdmittedRule(rule: Rule) {
    && (forall h | h in rule.hosts :: Plain(h))
    && (forall p | 0 <= p < |rule.paths| :: forall s | 0 <= s < |rule.paths[p].splits| ::
          PlainName(rule.paths[p].splits[s].service))
  }

  /** Non-empty list of regions, distinct and plain in both columns. */
  predicate ValidRegions(regions: seq<Region>) {
    && |regions| > 0
    && (forall i | 0 <= i < |regions| :: Plain(regions[i].name))
    && (forall i, j | 0 <= i < j < |regions| :: regions[i].name != regions[j].name)
    && (forall i, j | 0 <= i < j < |regions| :: regions[i].node != regions[j].node)
  }

  /** The regions this deployment ships with. */
  const SHIPPED_REGIONS: seq<Region> :=
    [Region("region1", "node1"), Region("region2", "node2"), Region("region3", "node3")]
}
