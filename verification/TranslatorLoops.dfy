/** The translator as the code runs it: nested loops that append, with early returns. */
module TranslatorLoops {
  import opened Text
  import opened Kube
  import opened Envoy
  import opened EndpointBuckets
  import opened Translator

  lemma WorkStep(cfg: Settings, ing: Ingress, world: World, work: seq<Work>, w: Work)
    requires WorkOutcome(cfg, ing, world, work).Done?
    ensures WorkOutcome(cfg, ing, world, work + [w]) ==
      match SplitOutcome(cfg, ing, world, w)
      case Done(more) => Done(WorkOutcome(cfg, ing, world, work).value + more)
      case problem => problem
  {
    assert (work + [w])[..|work|] == work;
  }

  /** The first problem decides: whatever work follows it, the outcome stays that problem. */
  lemma {:induction false} ProblemSticks(cfg: Settings, ing: Ingress, world: World, work: seq<Work>, all: seq<Work>)
    requires work <= all && !WorkOutcome(cfg, ing, world, work).Done?
    ensures WorkOutcome(cfg, ing, world, all) == WorkOutcome(cfg, ing, world, work)
  {
    if all != work {
      ProblemSticks(cfg, ing, world, work, all[..|all| - 1]);
    }
  }

  lemma PathWorkStep(done: seq<Work>, path: HTTPPath, splits: seq<Split>, s: nat)
    requires s < |splits|
    ensures done + PathWork(path, splits[..s]) + [Work(path, splits[s])] == done + PathWork(path, splits[..s + 1])
    ensures done + PathWork(path, splits[..s + 1]) <= done + PathWork(path, splits)
  {
    assert splits[..s + 1][..s] == splits[..s];
  }

  lemma PathsWorkStep(done: seq<Work>, paths: seq<HTTPPath>, p: nat)
    requires p < |paths|
    ensures done + PathsWork(paths[..p + 1]) == done + PathsWork(paths[..p]) + PathWork(paths[p], paths[p].splits)
    ensures done + PathsWork(paths[..p + 1]) <= done + PathsWork(paths)
  {
    assert paths[..p + 1][..p] == paths[..p];
    PathsWorkPrefix(paths, p + 1);
    Appended(done, PathsWork(paths[..p]), PathWork(paths[p], paths[p].splits), PathsWork(paths));
  }

  lemma Appended<T>(done: seq<T>, first: seq<T>, second: seq<T>, all: seq<T>)
    requires first + second <= all
    ensures done + (first + second) == done + first + second <= done + all
  {
  }

  method DomainsForRule(rule: Rule) returns (domains: seq<string>)
    ensures domains == Domains(rule.hosts)
  {
    domains := [];
    for h := 0 to |rule.hosts|
      invariant domains == Domains(rule.hosts[..h])
    {
      assert rule.hosts[..h + 1][..h] == rule.hosts[..h];
      domains := domains + [rule.hosts[h], rule.hosts[h] + ":*"];
    }
    assert rule.hosts[..|rule.hosts|] == rule.hosts;
  }

  /** `matchHeadersFromHTTPPath`; the header map is visited in arbitrary order. */
  method MatchHeadersFromHTTPPath(path: HTTPPath) returns (matchers: map<string, Option<string>>)
    ensures matchers == Matchers(path.headers)
  {
    matchers := map[];
    var todo := path.headers.Keys;
    while todo != {}
      invariant todo <= path.headers.Keys
      invariant matchers.Keys == path.headers.Keys - todo
      invariant forall h | h in matchers :: matchers[h] == Matchers(path.headers)[h]
    {
      var h :| h in todo;
      matchers := matchers[h := if path.headers[h] != "" then Some(path.headers[h]) else None];
      todo := todo - {h};
    }
  }

  method MatchPorts(ports: seq<ServicePort>, split: Split) returns (picked: Ports)
    ensures picked == PickPorts(ports, split)
  {
    var target, http2, https := 80, false, false;
    for k := 0 to |ports|
      invariant Ports(target, http2, https) == PickPorts(ports[..k], split)
    {
      assert ports[..k + 1][..k] == ports[..k];
      if ports[k].port == split.portNumber || ports[k].name == split.portName {
        target := ports[k].targetPort;
      }
      if ports[k].name == "http2" || ports[k].name == "h2c" {
        http2 := true;
      }
      if ports[k].port == split.portNumber && ports[k].name == "https" {
        https := true;
      }
    }
    assert ports[..|ports|] == ports;
    picked := Ports(target, http2, https);
  }

  /** One split: look everything up, then emit one cluster per region. */
  method TranslateSplit(cfg: Settings, ing: Ingress, world: World, w: Work) returns (out: Outcome<seq<Cluster>>)
    requires |cfg.regions| > 0
    ensures out == SplitOutcome(cfg, ing, world, w)
  {
    if w.split.service in world.untrackable {
      return Failed;
    }
    var service := Get(world.services, w.split.service);
    if service.NotFound? {
      return Skipped;
    }
    if service.Unavailable? {
      return Failed;
    }
    var ports := MatchPorts(service.value.ports, w.split);
    if ing.disableHTTP2 {
      ports := ports.(http2 := false);
    }
    if service.value.externalName {
      return Crashed;
    }
    var eps := Get(world.endpoints, w.split.service);
    if eps.NotFound? {
      return Skipped;
    }
    if eps.Unavailable? {
      return Failed;
    }
    var buckets := LbEndpointsForKubeEndpoints(cfg.regions, eps.value, ports.target);
    if buckets.MissingNodeName? {
      return Crashed;
    }
    var tls: Option<UpstreamTLS> := None;
    if (cfg.systemInternalTLS || ports.https) && w.path.rewriteHost == "" {
      if !world.routingSecret.Found? {
        return Failed;
      }
      tls := Some(UpstreamTLS(world.routingSecret.value.ca, w.split.service.namespace, ports.http2));
    }
    if buckets.NothingReady? {
      return Crashed;
    }
    assert ports == SplitPorts(ing, world, w) && tls == SplitTLS(cfg, ing, world, w);
    var clusters := [];
    for i := 0 to |cfg.regions|
      invariant clusters == SplitClusters(cfg, ing, world, w)[..i]
    {
      var cluster := Cluster(ClusterName(w.split.service, cfg.regions[i]), buckets.of[i], ports.http2, tls);
      assert cluster == SplitCluster(cfg, ing, world, w, cfg.regions[i]);
      clusters := clusters + [cluster];
    }
    assert clusters == SplitClusters(cfg, ing, world, w);
    out := Done(clusters);
  }

  /** Appends one split's weight to every region's list. */
  method AppendWeights(cfg: Settings, split: Split, ghost done: seq<Split>, weights: seq<seq<ClusterWeight>>)
    returns (grown: seq<seq<ClusterWeight>>)
    requires PerRegionWeights(cfg, done, weights)
    ensures PerRegionWeights(cfg, done + [split], grown)
  {
    grown := weights;
    for i := 0 to |cfg.regions|
      invariant |grown| == |cfg.regions|
      invariant forall k | 0 <= k < i :: grown[k] == Weights(done + [split], cfg.regions[k])
      invariant forall k | i <= k < |grown| :: grown[k] == weights[k]
    {
      grown := grown[i := grown[i] + [Weight(split, cfg.regions[i])]];
    }
  }

  predicate PerRegionWeights(cfg: Settings, splits: seq<Split>, weights: seq<seq<ClusterWeight>>) {
    |weights| == |cfg.regions| && forall i | 0 <= i < |weights| :: weights[i] == Weights(splits, cfg.regions[i])
  }

  /** The loop over one path's splits: clusters accumulate over the ingress, weights over the path. */
  method TranslateSplits(cfg: Settings, ing: Ingress, world: World, path: HTTPPath, ghost done: seq<Work>, clusters: seq<Cluster>)
    returns (out: Outcome<seq<Cluster>>, weights: seq<seq<ClusterWeight>>)
    requires |cfg.regions| > 0
    requires WorkOutcome(cfg, ing, world, done) == Done(clusters)
    ensures out == WorkOutcome(cfg, ing, world, done + PathWork(path, path.splits))
    ensures out.Done? ==> PerRegionWeights(cfg, path.splits, weights)
  {
    out, weights := Done(clusters), seq(|cfg.regions|, i => []);
    assert done + PathWork(path, path.splits[..0]) == done;
    for s := 0 to |path.splits|
      invariant out.Done? && out == WorkOutcome(cfg, ing, world, done + PathWork(path, path.splits[..s]))
      invariant PerRegionWeights(cfg, path.splits[..s], weights)
    {
      out, weights := TranslateNext(cfg, ing, world, path, done, s, out.value, weights);
      if !out.Done? {
        return;
      }
    }
    assert path.splits[..|path.splits|] == path.splits;
  }

  /** The body of that loop. */
  method TranslateNext(cfg: Settings, ing: Ingress, world: World, path: HTTPPath, ghost done: seq<Work>, s: nat,
                       clusters: seq<Cluster>, weights: seq<seq<ClusterWeight>>)
    returns (out: Outcome<seq<Cluster>>, grown: seq<seq<ClusterWeight>>)
    requires |cfg.regions| > 0 && s < |path.splits|
    requires WorkOutcome(cfg, ing, world, done + PathWork(path, path.splits[..s])) == Done(clusters)
    requires PerRegionWeights(cfg, path.splits[..s], weights)
    ensures out.Done? ==>
      && out == WorkOutcome(cfg, ing, world, done + PathWork(path, path.splits[..s + 1]))
      && PerRegionWeights(cfg, path.splits[..s + 1], grown)
    ensures !out.Done? ==> out == WorkOutcome(cfg, ing, world, done + PathWork(path, path.splits))
  {
    SplitStep(cfg, ing, world, done, path, s);
    var more := TranslateSplit(cfg, ing, world, Work(path, path.splits[s]));
    if !more.Done? {
      return more, [];
    }
    out := Done(clusters + more.value);
    grown := AppendWeights(cfg, path.splits[s], path.splits[..s], weights);
    assert path.splits[..s + 1] == path.splits[..s] + [path.splits[s]];
  }

  /** One more split: its clusters are appended, or its problem decides the whole path. */
  lemma SplitStep(cfg: Settings, ing: Ingress, world: World, done: seq<Work>, path: HTTPPath, s: nat)
    requires s < |path.splits| && WorkOutcome(cfg, ing, world, done + PathWork(path, path.splits[..s])).Done?
    ensures
      var so, one := WorkOutcome(cfg, ing, world, done + PathWork(path, path.splits[..s])), SplitOutcome(cfg, ing, world, Work(path, path.splits[s]));
      if one.Done? then WorkOutcome(cfg, ing, world, done + PathWork(path, path.splits[..s + 1])) == Done(so.value + one.value)
      else WorkOutcome(cfg, ing, world, done + PathWork(path, path.splits)) == one
  {
    var work, w := done + PathWork(path, path.splits[..s]), Work(path, path.splits[s]);
    WorkStep(cfg, ing, world, work, w);
    PathWorkStep(done, path, path.splits, s);
    if !SplitOutcome(cfg, ing, world, w).Done? {
      ProblemSticks(cfg, ing, world, work + [w], done + PathWork(path, path.splits));
    }
  }

  predicate PerRegionRoutes(cfg: Settings, ing: Ingress, r: nat, paths: seq<HTTPPath>, routes: seq<seq<Route>>)
    requires r < |ing.rules|
  {
    |routes| == |cfg.regions| && forall i | 0 <= i < |routes| :: routes[i] == RuleRoutes(cfg, ing, r, paths, i)
  }

  /** The route(s) of one path entry, appended per region. */
  method AppendRoutes(cfg: Settings, ing: Ingress, r: nat, path: HTTPPath, weights: seq<seq<ClusterWeight>>, routes: seq<seq<Route>>,
                      ghost done: seq<HTTPPath>) returns (grown: seq<seq<Route>>)
    requires |cfg.regions| > 0 && r < |ing.rules|
    requires PerRegionWeights(cfg, path.splits, weights) && PerRegionRoutes(cfg, ing, r, done, routes)
    ensures PerRegionRoutes(cfg, ing, r, done + [path], grown)
  {
    var matchers := MatchHeadersFromHTTPPath(path);
    var name, prefix := PathName(ing.name, r, path), PathPrefix(path);
    grown := routes;
    if !cfg.httpOptionDisabled && ing.redirectHTTP && ing.rules[r].visibility == ExternalIP {
      grown := grown[0 := grown[0] + [Route(name, prefix, matchers, RedirectToHTTPS, map[])]];
    } else {
      for i := 0 to |cfg.regions|
        invariant |grown| == |cfg.regions|
        invariant forall k | 0 <= k < i :: grown[k] == RuleRoutes(cfg, ing, r, done + [path], k)
        invariant forall k | i <= k < |grown| :: grown[k] == routes[k]
      {
        grown := grown[i := grown[i] + [Route(name, prefix, matchers, Forward(weights[i], HostRewrite(path)), path.appendHeaders)]];
      }
    }
  }

  /** The TLS route of one path entry, always towards region 0. */
  method AppendTLSRoute(cfg: Settings, ing: Ingress, r: nat, path: HTTPPath, weights: seq<seq<ClusterWeight>>, routes: seq<Route>,
                        ghost done: seq<HTTPPath>) returns (grown: seq<Route>)
    requires |cfg.regions| > 0 && r < |ing.rules|
    requires PerRegionWeights(cfg, path.splits, weights) && routes == TLSRoutes(cfg, ing, r, done)
    ensures grown == TLSRoutes(cfg, ing, r, done + [path])
  {
    grown := routes;
    if |ing.tls| != 0 || cfg.oneCert {
      var matchers := MatchHeadersFromHTTPPath(path);
      grown := grown + [Route(PathName(ing.name, r, path), PathPrefix(path), matchers,
                              Forward(weights[0], HostRewrite(path)), path.appendHeaders)];
    }
  }

  /** The loop over one rule's paths. */
  method TranslatePaths(cfg: Settings, ing: Ingress, world: World, r: nat, ghost done: seq<Work>, clusters: seq<Cluster>)
    returns (out: Outcome<seq<Cluster>>, routes: seq<seq<Route>>, tlsRoutes: seq<Route>)
    requires |cfg.regions| > 0 && r < |ing.rules|
    requires WorkOutcome(cfg, ing, world, done) == Done(clusters)
    ensures out == WorkOutcome(cfg, ing, world, done + PathsWork(ing.rules[r].paths))
    ensures out.Done? ==>
      && PerRegionRoutes(cfg, ing, r, ing.rules[r].paths, routes)
      && tlsRoutes == TLSRoutes(cfg, ing, r, ing.rules[r].paths)
  {
    var paths := ing.rules[r].paths;
    out, routes, tlsRoutes := Done(clusters), seq(|cfg.regions|, i => []), [];
    ghost var work := done;
    for p := 0 to |paths|
      invariant work == done + PathsWork(paths[..p])
      invariant out.Done? && out == WorkOutcome(cfg, ing, world, work)
      invariant PerRegionRoutes(cfg, ing, r, paths[..p], routes)
      invariant tlsRoutes == TLSRoutes(cfg, ing, r, paths[..p])
    {
      var path, weights := paths[p], [];
      assert paths[..p + 1] == paths[..p] + [path];
      PathsWorkStep(done, paths, p);
      out, weights := TranslateSplits(cfg, ing, world, path, work, out.value);
      work := work + PathWork(path, path.splits);
      if !out.Done? {
        ProblemSticks(cfg, ing, world, work, done + PathsWork(paths));
        return;
      }
      routes := AppendRoutes(cfg, ing, r, path, weights, routes, paths[..p]);
      tlsRoutes := AppendTLSRoute(cfg, ing, r, path, weights, tlsRoutes, paths[..p]);
    }
    assert paths[..|paths|] == paths;
  }

  /** One rule: its clusters, its virtual host in every region and its TLS host. */
  method TranslateRule(cfg: Settings, ing: Ingress, world: World, r: nat, ghost done: seq<Work>, clusters: seq<Cluster>)
    returns (out: Outcome<seq<Cluster>>, hosts: seq<VirtualHost>, tlsHost: Option<VirtualHost>)
    requires |cfg.regions| > 0 && r < |ing.rules|
    requires WorkOutcome(cfg, ing, world, done) == Done(clusters)
    ensures out == WorkOutcome(cfg, ing, world, done + PathsWork(ing.rules[r].paths))
    ensures out.Done? ==>
      && |hosts| == |cfg.regions| && (forall i | 0 <= i < |hosts| :: hosts[i] == RuleHost(cfg, ing, r, i))
      && tlsHost == TLSHost(cfg, ing, r)
  {
    var routes, tlsRoutes;
    hosts, tlsHost := [], None;
    out, routes, tlsRoutes := TranslatePaths(cfg, ing, world, r, done, clusters);
    if out.Done? {
      var domains := DomainsForRule(ing.rules[r]);
      for i := 0 to |cfg.regions|
        invariant |hosts| == i && forall k | 0 <= k < i :: hosts[k] == RuleHost(cfg, ing, r, k)
      {
        hosts := hosts + [VirtualHost(RuleName(ing.name, r), domains, routes[i])];
      }
      if |tlsRoutes| != 0 {
        tlsHost := Some(VirtualHost(RuleName(ing.name, r), domains, tlsRoutes));
      }
    }
  }

  lemma {:induction false} PathsWorkPrefix(paths: seq<HTTPPath>, p: nat)
    requires p <= |paths|
    ensures PathsWork(paths[..p]) <= PathsWork(paths)
    decreases |paths| - p
  {
    if p == |paths| {
      assert paths[..p] == paths;
    } else {
      PathsWorkPrefix(paths, p + 1);
      assert paths[..p + 1][..p] == paths[..p];
    }
  }

  lemma {:induction false} RulesWorkPrefix(rules: seq<Rule>, r: nat)
    requires r <= |rules|
    ensures RulesWork(rules[..r]) <= RulesWork(rules)
    decreases |rules| - r
  {
    if r == |rules| {
      assert rules[..r] == rules;
    } else {
      RulesWorkPrefix(rules, r + 1);
      assert rules[..r + 1][..r] == rules[..r];
    }
  }

  /** The loop over the TLS blocks; a missing or invalid secret is an error. */
  method TranslateCertificates(world: World, tls: seq<IngressTLS>) returns (out: Outcome<seq<SNI>>)
    ensures out == CertOutcome(world, tls)
  {
    out := Done([]);
    for k := 0 to |tls|
      invariant out.Done? && out == CertOutcome(world, tls[..k])
    {
      assert tls[..k + 1][..k] == tls[..k];
      var secret := Get(world.secrets, tls[k].secret);
      if tls[k].secret in world.untrackable || !secret.Found? || !secret.value.validPair {
        CertFailureSticks(world, tls, k + 1);
        return Failed;
      }
      out := Done(out.value + [SNI(tls[k].hosts, tls[k].secret, secret.value.certificate, secret.value.privateKey)]);
    }
    assert tls[..|tls|] == tls;
  }

  lemma {:induction false} CertFailureSticks(world: World, tls: seq<IngressTLS>, k: nat)
    requires k <= |tls| && CertOutcome(world, tls[..k]) == Failed
    ensures CertOutcome(world, tls) == Failed
    decreases |tls| - k
  {
    if k == |tls| {
      assert tls[..k] == tls;
    } else {
      assert tls[..k + 1][..k] == tls[..k];
      CertFailureSticks(world, tls, k + 1);
    }
  }

  predicate HostsOfRules(cfg: Settings, ing: Ingress, k: nat, internal: seq<seq<VirtualHost>>,
                         external: seq<seq<VirtualHost>>, externalTLS: seq<seq<VirtualHost>>)
    requires k <= |ing.rules| && |cfg.regions| > 0
  {
    && |internal| == |external| == |externalTLS| == |cfg.regions|
    && (forall i | 0 <= i < |cfg.regions| :: internal[i] == InternalHosts(cfg, ing, k, i))
    && (forall i | 0 <= i < |cfg.regions| :: external[i] == ExternalHosts(cfg, ing, k, i))
    && (forall i | 0 <= i < |cfg.regions| :: externalTLS[i] == ExternalTLSHosts(cfg, ing, k))
  }

  /** One more rule: its outcome continues the ingress's, or its problem decides the whole ingress. */
  lemma RuleStep(cfg: Settings, ing: Ingress, world: World, r: nat)
    requires r < |ing.rules|
    ensures RulesWork(ing.rules[..r]) + PathsWork(ing.rules[r].paths) == RulesWork(ing.rules[..r + 1])
    ensures var so := WorkOutcome(cfg, ing, world, RulesWork(ing.rules[..r + 1]));
      !so.Done? ==> WorkOutcome(cfg, ing, world, RulesWork(ing.rules)) == so
  {
    assert ing.rules[..r + 1][..r] == ing.rules[..r];
    RulesWorkPrefix(ing.rules, r + 1);
    if !WorkOutcome(cfg, ing, world, RulesWork(ing.rules[..r + 1])).Done? {
      ProblemSticks(cfg, ing, world, RulesWork(ing.rules[..r + 1]), RulesWork(ing.rules));
    }
  }

  /** The loop over the rules. */
  method TranslateRules(cfg: Settings, ing: Ingress, world: World)
    returns (out: Outcome<seq<Cluster>>, internal: seq<seq<VirtualHost>>, external: seq<seq<VirtualHost>>, externalTLS: seq<seq<VirtualHost>>)
    requires |cfg.regions| > 0
    ensures out == WorkOutcome(cfg, ing, world, RulesWork(ing.rules))
    ensures out.Done? ==> HostsOfRules(cfg, ing, |ing.rules|, internal, external, externalTLS)
  {
    out := Done([]);
    internal, external, externalTLS := seq(|cfg.regions|, i => []), seq(|cfg.regions|, i => []), seq(|cfg.regions|, i => []);
    for r := 0 to |ing.rules|
      invariant out.Done? && out == WorkOutcome(cfg, ing, world, RulesWork(ing.rules[..r]))
      invariant HostsOfRules(cfg, ing, r, internal, external, externalTLS)
    {
      RuleStep(cfg, ing, world, r);
      var hosts, tlsHost;
      out, hosts, tlsHost := TranslateRule(cfg, ing, world, r, RulesWork(ing.rules[..r]), out.value);
      if !out.Done? {
        return;
      }
      internal, external, externalTLS := AppendHosts(cfg, ing, r, hosts, tlsHost, internal, external, externalTLS);
    }
    assert ing.rules[..|ing.rules|] == ing.rules;
  }

  /** `translateIngress`. */
  method TranslateIngress(cfg: Settings, ing: Ingress, world: World) returns (out: Outcome<Translated>)
    requires |cfg.regions| > 0
    ensures out == Translate(cfg, ing, world)
  {
    var certs := TranslateCertificates(world, ing.tls);
    match certs {
      case Skipped => return Skipped;
      case Failed => return Failed;
      case Crashed => return Crashed;
      case Done(_) =>
    }
    var clusters, internal, external, externalTLS := TranslateRules(cfg, ing, world);
    match clusters {
      case Skipped => out := Skipped;
      case Failed => out := Failed;
      case Crashed => out := Crashed;
      case Done(cs) =>
        out := Done(Translated(ing.name, certs.value, cs, external, externalTLS, internal));
        assert out.value == Hosts(cfg, ing, certs.value, cs);
    }
  }

  /** The loop that files rule `r`'s hosts under every region. */
  method AppendHosts(cfg: Settings, ing: Ingress, r: nat, hosts: seq<VirtualHost>, tlsHost: Option<VirtualHost>,
                     internal0: seq<seq<VirtualHost>>, external0: seq<seq<VirtualHost>>, externalTLS0: seq<seq<VirtualHost>>)
    returns (internal: seq<seq<VirtualHost>>, external: seq<seq<VirtualHost>>, externalTLS: seq<seq<VirtualHost>>)
    requires |cfg.regions| > 0 && r < |ing.rules|
    requires |hosts| == |cfg.regions| && (forall i | 0 <= i < |hosts| :: hosts[i] == RuleHost(cfg, ing, r, i))
    requires tlsHost == TLSHost(cfg, ing, r)
    requires HostsOfRules(cfg, ing, r, internal0, external0, externalTLS0)
    ensures HostsOfRules(cfg, ing, r + 1, internal, external, externalTLS)
  {
    internal, external, externalTLS := internal0, external0, externalTLS0;
    for i := 0 to |hosts|
      invariant |internal| == |external| == |externalTLS| == |hosts|
      invariant forall k | 0 <= k < |hosts| :: internal[k] == InternalHosts(cfg, ing, if k < i then r + 1 else r, k)
      invariant forall k | 0 <= k < |hosts| :: external[k] == ExternalHosts(cfg, ing, if k < i then r + 1 else r, k)
      invariant forall k | 0 <= k < |hosts| :: externalTLS[k] == ExternalTLSHosts(cfg, ing, if k < i then r + 1 else r)
    {
      HostsStep(cfg, ing, r, i);
      internal := internal[i := internal[i] + [hosts[i]]];
      if ing.rules[r].visibility == ExternalIP {
        external := external[i := external[i] + [hosts[i]]];
        if tlsHost.Some? {
          externalTLS := externalTLS[i := externalTLS[i] + [tlsHost.value]];
        }
      }
    }
  }

  lemma HostsStep(cfg: Settings, ing: Ingress, r: nat, i: nat)
    requires r < |ing.rules| && i < |cfg.regions|
    ensures InternalHosts(cfg, ing, r + 1, i) == InternalHosts(cfg, ing, r, i) + [RuleHost(cfg, ing, r, i)]
    ensures ExternalHosts(cfg, ing, r + 1, i)
         == ExternalHosts(cfg, ing, r, i) + (if ing.rules[r].visibility == ExternalIP then [RuleHost(cfg, ing, r, i)] else [])
    ensures ExternalTLSHosts(cfg, ing, r + 1)
         == ExternalTLSHosts(cfg, ing, r)
            + (if ing.rules[r].visibility == ExternalIP && TLSHost(cfg, ing, r).Some? then [TLSHost(cfg, ing, r).value] else [])
  {
  }
}
