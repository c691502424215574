/** The parts of Envoy's configuration the control plane emits, and how Envoy answers a request from them. */
module Envoy {
  import opened Text
  import opened Kube

  datatype LbEndpoint = LbEndpoint(ip: string, port: nat)

  /** Upstream TLS settings: trusted CA, namespace in the accepted SAN, ALPN h2 or not. */
  datatype UpstreamTLS = UpstreamTLS(ca: string, namespace: string, h2: bool)

  datatype Cluster = Cluster(name: string, endpoints: seq<LbEndpoint>, http2: bool, tls: Option<UpstreamTLS>)

  datatype ClusterWeight = ClusterWeight(name: string, weight: nat, addHeaders: map<string, string>)

  datatype Action =
    | Forward(clusters: seq<ClusterWeight>, hostRewrite: Option<string>)
    | RedirectToHTTPS

  /** `matchers` keeps one matcher per header; `None` asks only for the header to be present. */
  datatype Route = Route(
    name: string, prefix: string, matchers: map<string, Option<string>>,
    action: Action, addHeaders: map<string, string>)

  datatype VirtualHost = VirtualHost(name: string, domains: seq<string>, routes: seq<Route>)

  datatype SNI = SNI(hosts: seq<string>, source: Name, certificate: string, privateKey: string)

  datatype Request = Request(authority: string, path: string, headers: map<string, string>)

  /** Envoy prefers an exact domain, then the longest `prefix*` domain; 0 means no match. */
  function DomainRank(domain: string, authority: string): nat {
    if domain != "" && domain[|domain| - 1] == '*' then
      var prefix := domain[..|domain| - 1];
      if prefix < authority then |domain| else 0
    else if domain == authority then |authority| + 1
    else 0
  }

  function HostRank(domains: seq<string>, authority: string): nat {
    if domains == [] then 0
    else
      var before, last := HostRank(domains[..|domains| - 1], authority), DomainRank(domains[|domains| - 1], authority);
      if last > before then last else before
  }

  /** The virtual host Envoy picks: highest rank, the earliest one among equals. */
  function BestHost(hosts: seq<VirtualHost>, authority: string): (best: Option<VirtualHost>)
    ensures best.Some? ==> best.value in hosts && HostRank(best.value.domains, authority) > 0
  {
    if hosts == [] then None
    else
      var best, last := BestHost(hosts[..|hosts| - 1], authority), hosts[|hosts| - 1];
      var rank := HostRank(last.domains, authority);
      if rank > (if best.Some? then HostRank(best.value.domains, authority) else 0) then Some(last) else best
  }

  predicate RouteMatches(route: Route, req: Request) {
    && route.prefix <= req.path
    && (forall h | h in route.matchers ::
          h in req.headers && (route.matchers[h].Some? ==> req.headers[h] == route.matchers[h].value))
  }

  /** Index of the first matching route at or after `from`. */
  function FirstRoute(routes: seq<Route>, req: Request, from: nat): Option<nat>
    requires from <= |routes|
    decreases |routes| - from
  {
    if from == |routes| then None
    else if RouteMatches(routes[from], req) then Some(from)
    else FirstRoute(routes, req, from + 1)
  }

  /** A service a request is forwarded to, with its weight and the headers added for it. */
  datatype Backend = Backend(service: Name, region: string, weight: nat, addHeaders: map<string, string>)

  /** What a request gets: nothing, a virtual host without a route, a redirect, or a weighted forward. */
  datatype Answer =
    | NoHost
    | NoRoute(host: string)
    | Redirected(host: string, entry: nat)
    | Forwarded(host: string, entry: nat, backends: seq<Option<Backend>>, hostRewrite: Option<string>, addHeaders: map<string, string>)

  /** Reads service and region back out of a cluster name. */
  function ParseClusterName(name: string): Option<(Name, string)> {
    var parts := Text.Split(name, '/');
    if |parts| != 2 then None
    else
      var tail := Text.Split(parts[1], '_');
      if |tail| != 2 then None else Some((Name(parts[0], tail[0]), tail[1]))
  }

  function ReadBackend(w: ClusterWeight): Option<Backend> {
    var parsed := ParseClusterName(w.name);
    if parsed.None? then None else Some(Backend(parsed.value.0, parsed.value.1, w.weight, w.addHeaders))
  }

  function HostAnswer(vh: VirtualHost, req: Request): Answer {
    var hit := FirstRoute(vh.routes, req, 0);
    if hit.None? || hit.value >= |vh.routes| then NoRoute(vh.name)
    else
      var route := vh.routes[hit.value];
      match route.action
      case RedirectToHTTPS => Redirected(vh.name, hit.value)
      case Forward(clusters, rewrite) =>
        Forwarded(vh.name, hit.value, seq(|clusters|, k requires 0 <= k < |clusters| => ReadBackend(clusters[k])),
                  rewrite, route.addHeaders)
  }

  /** Envoy's answer from one route configuration. */
  function ConfigAnswer(hosts: seq<VirtualHost>, req: Request): Answer {
    var best := BestHost(hosts, req.authority);
    if best.None? then NoHost else HostAnswer(best.value, req)
  }
}
