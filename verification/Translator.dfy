/** The compiler from an Ingress to Envoy configuration: what it produces, and the loops that produce it. */
module Translator {
  import opened Text
  import opened Kube
  import opened Envoy
  import opened EndpointBuckets

  /** `Skipped` is the nil translation, `Crashed` a Go panic. */
  datatype Outcome<+T> = Done(value: T) | Skipped | Failed | Crashed

  datatype Translated = Translated(
    name: Name,
    snis: seq<SNI>,
    clusters: seq<Cluster>,
    external: seq<seq<VirtualHost>>,
    externalTLS: seq<seq<VirtualHost>>,
    internal: seq<seq<VirtualHost>>)

  // ---- Names, ports and endpoints ----

  function ClusterName(service: Name, region: Region): string {
    service.namespace + "/" + service.name + "_" + region.name
  }

  function RuleName(n: Name, r: nat): string {
    "(" + n.namespace + "/" + n.name + ").Rules[" + Decimal(r) + "]"
  }

  function PathPrefix(path: HTTPPath): string {
    if path.path == "" then "/" else path.path
  }

  function PathName(n: Name, r: nat, path: HTTPPath): string {
    RuleName(n, r) + ".Paths[" + PathPrefix(path) + "]"
  }

  /** `domainsForRule`: every host, bare and with `:*` for authorities that carry a port. */
  function Domains(hosts: seq<string>): seq<string> {
    if hosts == [] then [] else Domains(hosts[..|hosts| - 1]) + [hosts[|hosts| - 1], hosts[|hosts| - 1] + ":*"]
  }

  datatype Ports = Ports(target: int, http2: bool, https: bool)

  /** What the loop over a service's ports leaves behind: the last match wins, 80 when there is none. */
  function PickPorts(ports: seq<ServicePort>, split: Split): Ports {
    if ports == [] then Ports(80, false, false)
    else
      var before, port := PickPorts(ports[..|ports| - 1], split), ports[|ports| - 1];
      Ports(if port.port == split.portNumber || port.name == split.portName then port.targetPort else before.target,
            before.http2 || port.name == "http2" || port.name == "h2c",
            before.https || (port.port == split.portNumber && port.name == "https"))
  }

  function ServiceOf(world: World, split: Split): Service {
    match Get(world.services, split.service)
    case Found(s) => s
    case _ => Service(false, [])
  }

  function EndpointsOf(world: World, service: Name): Endpoints {
    match Get(world.endpoints, service)
    case Found(e) => e
    case _ => []
  }

  /** A split together with the path entry it belongs to. */
  datatype Work = Work(path: HTTPPath, split: Split)

  function SplitPorts(ing: Ingress, world: World, w: Work): Ports {
    var p := PickPorts(ServiceOf(world, w.split).ports, w.split);
    p.(http2 := p.http2 && !ing.disableHTTP2)
  }

  predicate NeedsTLS(cfg: Settings, ing: Ingress, world: World, w: Work) {
    (cfg.systemInternalTLS || SplitPorts(ing, world, w).https) && w.path.rewriteHost == ""
  }

  function SplitTLS(cfg: Settings, ing: Ingress, world: World, w: Work): Option<UpstreamTLS> {
    if NeedsTLS(cfg, ing, world, w) && world.routingSecret.Found? then
      Some(UpstreamTLS(world.routingSecret.value.ca, w.split.service.namespace, SplitPorts(ing, world, w).http2))
    else None
  }

  /** The endpoints of `service` for one region, as seen in `world`. */
  function RegionEndpoints(world: World, service: Name, region: Region, targetPort: int): seq<LbEndpoint> {
    Bucket(Flatten(EndpointsOf(world, service)), region.node, ToUint32(targetPort))
  }

  // ---- Clusters and problems, split by split ----

  function SplitCluster(cfg: Settings, ing: Ingress, world: World, w: Work, region: Region): Cluster {
    var ports := SplitPorts(ing, world, w);
    Cluster(ClusterName(w.split.service, region),
            RegionEndpoints(world, w.split.service, region, ports.target),
            ports.http2, SplitTLS(cfg, ing, world, w))
  }

  function SplitClusters(cfg: Settings, ing: Ingress, world: World, w: Work): seq<Cluster> {
    seq(|cfg.regions|, i requires 0 <= i < |cfg.regions| => SplitCluster(cfg, ing, world, w, cfg.regions[i]))
  }

  /** How translating one split ends, in the order the code looks things up. */
  function SplitOutcome(cfg: Settings, ing: Ingress, world: World, w: Work): Outcome<seq<Cluster>> {
    if w.split.service in world.untrackable then Failed
    else
      match Get(world.services, w.split.service)
      case NotFound => Skipped
      case Unavailable => Failed
      case Found(service) =>
        if service.externalName then Crashed  // the endpoint is written into a nil slice
        else
          match Get(world.endpoints, w.split.service)
          case NotFound => Skipped
          case Unavailable => Failed
          case Found(eps) =>
            var buckets := BucketAll(cfg.regions, eps, SplitPorts(ing, world, w).target);
            if buckets.MissingNodeName? then Crashed
            else if NeedsTLS(cfg, ing, world, w) && !world.routingSecret.Found? then Failed
            else if buckets.NothingReady? && cfg.regions != [] then Crashed  // the nil slice is indexed
            else Done(SplitClusters(cfg, ing, world, w))
  }

  function PathWork(path: HTTPPath, splits: seq<Split>): seq<Work> {
    seq(|splits|, s requires 0 <= s < |splits| => Work(path, splits[s]))
  }

  function PathsWork(paths: seq<HTTPPath>): seq<Work> {
    if paths == [] then [] else PathsWork(paths[..|paths| - 1]) + PathWork(paths[|paths| - 1], paths[|paths| - 1].splits)
  }

  /** All splits of the rules, in the order they are translated. */
  function RulesWork(rules: seq<Rule>): seq<Work> {
    if rules == [] then [] else RulesWork(rules[..|rules| - 1]) + PathsWork(rules[|rules| - 1].paths)
  }

  /** All clusters of the work, or the first problem met. */
  function WorkOutcome(cfg: Settings, ing: Ingress, world: World, work: seq<Work>): Outcome<seq<Cluster>> {
    if work == [] then Done([])
    else
      match WorkOutcome(cfg, ing, world, work[..|work| - 1])
      case Done(clusters) =>
        (match SplitOutcome(cfg, ing, world, work[|work| - 1])
         case Done(more) => Done(clusters + more)
         case problem => problem)
      case problem => problem
  }

  // ---- Routes and virtual hosts ----

  function Matchers(headers: map<string, string>): map<string, Option<string>> {
    map h | h in headers :: if headers[h] != "" then Some(headers[h]) else None
  }

  function Weight(split: Split, region: Region): ClusterWeight {
    ClusterWeight(ClusterName(split.service, region), ToUint32(split.percent), split.appendHeaders)
  }

  function Weights(splits: seq<Split>, region: Region): seq<ClusterWeight> {
    seq(|splits|, s requires 0 <= s < |splits| => Weight(splits[s], region))
  }

  function HostRewrite(path: HTTPPath): Option<string> {
    if path.rewriteHost == "" then None else Some(path.rewriteHost)
  }

  /** `NewRoute` for one path entry towards one region's clusters. */
  function ForwardRoute(n: Name, r: nat, path: HTTPPath, region: Region): Route {
    Route(PathName(n, r, path), PathPrefix(path), Matchers(path.headers),
          Forward(Weights(path.splits, region), HostRewrite(path)), path.appendHeaders)
  }

  function RedirectRoute(n: Name, r: nat, path: HTTPPath): Route {
    Route(PathName(n, r, path), PathPrefix(path), Matchers(path.headers), RedirectToHTTPS, map[])
  }

  predicate Redirects(cfg: Settings, ing: Ingress, rule: Rule) {
    !cfg.httpOptionDisabled && ing.redirectHTTP && rule.visibility == ExternalIP
  }

  function PathRoute(cfg: Settings, ing: Ingress, r: nat, path: HTTPPath, i: nat): Route
    requires r < |ing.rules| && i < |cfg.regions|
  {
    if Redirects(cfg, ing, ing.rules[r]) then RedirectRoute(ing.name, r, path)
    else ForwardRoute(ing.name, r, path, cfg.regions[i])
  }

  /** Routes of rule `r` in region `i`; redirects exist in region 0 only. */
  function RuleRoutes(cfg: Settings, ing: Ingress, r: nat, paths: seq<HTTPPath>, i: nat): seq<Route>
    requires r < |ing.rules| && i < |cfg.regions|
  {
    if Redirects(cfg, ing, ing.rules[r]) && i > 0 then []
    else seq(|paths|, p requires 0 <= p < |paths| => PathRoute(cfg, ing, r, paths[p], i))
  }

  function RuleHost(cfg: Settings, ing: Ingress, r: nat, i: nat): VirtualHost
    requires r < |ing.rules| && i < |cfg.regions|
  {
    VirtualHost(RuleName(ing.name, r), Domains(ing.rules[r].hosts), RuleRoutes(cfg, ing, r, ing.rules[r].paths, i))
  }

  predicate UsesTLS(cfg: Settings, ing: Ingress) {
    |ing.tls| != 0 || cfg.oneCert
  }

  /** TLS routes always use region 0's clusters. */
  function TLSRoutes(cfg: Settings, ing: Ingress, r: nat, paths: seq<HTTPPath>): seq<Route>
    requires r < |ing.rules| && |cfg.regions| > 0
  {
    if UsesTLS(cfg, ing)
    then seq(|paths|, p requires 0 <= p < |paths| => ForwardRoute(ing.name, r, paths[p], cfg.regions[0]))
    else []
  }

  function TLSHost(cfg: Settings, ing: Ingress, r: nat): Option<VirtualHost>
    requires r < |ing.rules| && |cfg.regions| > 0
  {
    var routes := TLSRoutes(cfg, ing, r, ing.rules[r].paths);
    if routes == [] then None
    else Some(VirtualHost(RuleName(ing.name, r), Domains(ing.rules[r].hosts), routes))
  }

  /** The first `k` rules' hosts in region `i`: internal, external and external TLS. */
  function InternalHosts(cfg: Settings, ing: Ingress, k: nat, i: nat): seq<VirtualHost>
    requires k <= |ing.rules| && i < |cfg.regions|
  {
    seq(k, r requires 0 <= r < k => RuleHost(cfg, ing, r, i))
  }

  function ExternalHosts(cfg: Settings, ing: Ingress, k: nat, i: nat): seq<VirtualHost>
    requires k <= |ing.rules| && i < |cfg.regions|
  {
    if k == 0 then []
    else
      ExternalHosts(cfg, ing, k - 1, i)
      + (if ing.rules[k - 1].visibility == ExternalIP then [RuleHost(cfg, ing, k - 1, i)] else [])
  }

  function ExternalTLSHosts(cfg: Settings, ing: Ingress, k: nat): seq<VirtualHost>
    requires k <= |ing.rules| && |cfg.regions| > 0
  {
    if k == 0 then []
    else
      var host := TLSHost(cfg, ing, k - 1);
      ExternalTLSHosts(cfg, ing, k - 1)
      + (if ing.rules[k - 1].visibility == ExternalIP && host.Some? then [host.value] else [])
  }

  function PerRegion(cfg: Settings, hosts: nat --> seq<VirtualHost>): seq<seq<VirtualHost>>
    requires forall i | 0 <= i < |cfg.regions| :: hosts.requires(i)
  {
    seq(|cfg.regions|, i requires 0 <= i < |cfg.regions| => hosts(i))
  }

  // ---- Certificates ----

  function CertOutcome(world: World, tls: seq<IngressTLS>): Outcome<seq<SNI>> {
    if tls == [] then Done([])
    else
      var t := tls[|tls| - 1];
      match CertOutcome(world, tls[..|tls| - 1])
      case Done(snis) =>
        if t.secret in world.untrackable then Failed
        else
          (match Get(world.secrets, t.secret)
           case Found(s) => if s.validPair then Done(snis + [SNI(t.hosts, t.secret, s.certificate, s.privateKey)]) else Failed
           case _ => Failed)
      case problem => problem
  }

  // ---- The whole translation ----

  function Hosts(cfg: Settings, ing: Ingress, snis: seq<SNI>, clusters: seq<Cluster>): Translated
    requires |cfg.regions| > 0
  {
    var n := |ing.rules|;
    Translated(ing.name, snis, clusters,
               PerRegion(cfg, i requires 0 <= i < |cfg.regions| => ExternalHosts(cfg, ing, n, i)),
               PerRegion(cfg, i => ExternalTLSHosts(cfg, ing, n)),
               PerRegion(cfg, i requires 0 <= i < |cfg.regions| => InternalHosts(cfg, ing, n, i)))
  }

  function Translate(cfg: Settings, ing: Ingress, world: World): Outcome<Translated>
    requires |cfg.regions| > 0
  {
    match CertOutcome(world, ing.tls)
    case Skipped => Skipped
    case Failed => Failed
    case Crashed => Crashed
    case Done(snis) =>
      match WorkOutcome(cfg, ing, world, RulesWork(ing.rules))
      case Skipped => Skipped
      case Failed => Failed
      case Crashed => Crashed
      case Done(clusters) => Done(Hosts(cfg, ing, snis, clusters))
  }
}
