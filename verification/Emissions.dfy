/**
  What a translation emits, said in terms of the Ingress and of the objects it read, and of nothing the
  translator computes on the way.
 */
module Emissions {
  import opened Text
  import opened Kube
  import opened Envoy
  import opened EndpointBuckets
  import opened Translator
  import opened TranslatorLoops
  import opened TranslationFacts

  // ---- Endpoints ----

  /** `ip` is a ready address on `node`. */
  predicate ReadyOn(eps: Endpoints, node: string, ip: string) {
    exists s, a | 0 <= s < |eps| && 0 <= a < |eps[s]| :: eps[s][a] == Address(ip, Some(node))
  }

  lemma {:induction false} FlattenMembers(eps: Endpoints, x: Address)
    ensures x in Flatten(eps) <==> exists s, a | 0 <= s < |eps| && 0 <= a < |eps[s]| :: eps[s][a] == x
  {
    if eps != [] {
      var init := eps[..|eps| - 1];
      FlattenMembers(init, x);
      assert forall s | 0 <= s < |init| :: init[s] == eps[s];
    }
  }

  /** The buckets of an endpoints object, or the failure, from its subsets alone. */
  lemma BucketingMeans(regions: seq<Region>, eps: Endpoints, targetPort: int)
    requires regions != []
    ensures var out := BucketAll(regions, eps, targetPort);
      && (out.NothingReady? <==> forall s | 0 <= s < |eps| :: eps[s] == [])
      && (out.MissingNodeName? <==> exists s, a | 0 <= s < |eps| && 0 <= a < |eps[s]| :: eps[s][a].node == None)
      && (out.Buckets? ==> |out.of| == |regions|)
      && (out.Buckets? ==> forall i, e | 0 <= i < |regions| ::
            e in out.of[i] <==> e.port == ToUint32(targetPort) && ReadyOn(eps, regions[i].node, e.ip))
  {
    EmptyMeans(eps);
    PlacedMeans(eps);
    forall i, e | 0 <= i < |regions|
      ensures e in Bucket(Flatten(eps), regions[i].node, ToUint32(targetPort))
        <==> e.port == ToUint32(targetPort) && ReadyOn(eps, regions[i].node, e.ip)
    {
      BucketMembers(Flatten(eps), regions[i].node, ToUint32(targetPort), e);
      FlattenMembers(eps, Address(e.ip, Some(regions[i].node)));
    }
  }

  lemma EmptyMeans(eps: Endpoints)
    ensures Flatten(eps) == [] <==> forall s | 0 <= s < |eps| :: eps[s] == []
  {
    if Flatten(eps) == [] {
      forall s | 0 <= s < |eps| ensures eps[s] == [] {
        if eps[s] != [] {
          FlattenMembers(eps, eps[s][0]);
        }
      }
    } else {
      FlattenMembers(eps, Flatten(eps)[0]);
    }
  }

  lemma PlacedMeans(eps: Endpoints)
    ensures !Placed(Flatten(eps)) <==> exists s, a | 0 <= s < |eps| && 0 <= a < |eps[s]| :: eps[s][a].node == None
  {
    if k :| 0 <= k < |Flatten(eps)| && Flatten(eps)[k].node == None {
      FlattenMembers(eps, Flatten(eps)[k]);
    }
    if s, a :| 0 <= s < |eps| && 0 <= a < |eps[s]| && eps[s][a].node == None {
      FlattenMembers(eps, eps[s][a]);
      var k :| 0 <= k < |Flatten(eps)| && Flatten(eps)[k] == eps[s][a];
    }
  }

  /** The filter compares the ready IPs of all subsets. */
  lemma ReadyIPsMean(eps: Endpoints, ip: string)
    ensures ip in ReadyIPs(eps) <==> exists s, a | 0 <= s < |eps| && 0 <= a < |eps[s]| :: eps[s][a].ip == ip
  {
    if ip in ReadyIPs(eps) {
      var x :| x in Flatten(eps) && x.ip == ip;
      FlattenMembers(eps, x);
    }
    if s, a :| 0 <= s < |eps| && 0 <= a < |eps[s]| && eps[s][a].ip == ip {
      FlattenMembers(eps, eps[s][a]);
    }
  }

  // ---- Clusters ----

  /** `target` is the target port of the last service port that matches the split by number or name, 80 without one. */
  predicate IsTarget(ports: seq<ServicePort>, split: Split, target: int) {
    || (target == 80 && forall k | 0 <= k < |ports| :: !Matching(ports[k], split))
    || (exists k | 0 <= k < |ports| :: Matching(ports[k], split) && target == ports[k].targetPort
          && forall j | k < j < |ports| :: !Matching(ports[j], split))
  }

  predicate Matching(port: ServicePort, split: Split) {
    port.port == split.portNumber || port.name == split.portName
  }

  predicate SpeaksHTTP2(ports: seq<ServicePort>) {
    exists k | 0 <= k < |ports| :: ports[k].name == "http2" || ports[k].name == "h2c"
  }

  predicate SpeaksTLS(ports: seq<ServicePort>, split: Split) {
    exists k | 0 <= k < |ports| :: ports[k].name == "https" && ports[k].port == split.portNumber
  }

  /** The cluster that `split` of `path` should have in `region`, given the service's ports and endpoints. */
  ghost predicate AsAsked(cfg: Settings, ing: Ingress, world: World, path: HTTPPath, split: Split, region: Region, c: Cluster)
  {
    && split.service in world.services && world.services[split.service].Found?
    && split.service in world.endpoints && world.endpoints[split.service].Found?
    && var ports, eps := world.services[split.service].value.ports, world.endpoints[split.service].value;
    && c.name == split.service.namespace + "/" + split.service.name + "_" + region.name
    && (exists target :: IsTarget(ports, split, target) && PointsAt(c, eps, region.node, target))
    && (c.http2 <==> !ing.disableHTTP2 && SpeaksHTTP2(ports))
    && (c.tls.Some? <==> path.rewriteHost == "" && (cfg.systemInternalTLS || SpeaksTLS(ports, split)))
    && (c.tls.Some? ==> world.routingSecret.Found?)
    && (c.tls.Some? ==> c.tls.value == UpstreamTLS(world.routingSecret.value.ca, split.service.namespace, c.http2))
  }

  /** The cluster's endpoints are exactly the ready addresses on `node`, in their order, on port `target`. */
  ghost predicate PointsAt(c: Cluster, eps: Endpoints, node: string, target: int) {
    && c.endpoints == Bucket(Flatten(eps), node, ToUint32(target))
    && forall e :: e in c.endpoints <==> e.port == ToUint32(target) && ReadyOn(eps, node, e.ip)
  }

  lemma TargetIsPicked(ports: seq<ServicePort>, split: Split)
    ensures IsTarget(ports, split, PickPorts(ports, split).target)
    ensures PickPorts(ports, split).http2 <==> SpeaksHTTP2(ports)
    ensures PickPorts(ports, split).https <==> SpeaksTLS(ports, split)
  {
    LastMatchingPortWins(ports, split);
    assert forall k | 0 <= k < |ports| :: PortMatches(ports[k], split) == Matching(ports[k], split);
    if k :| 0 <= k < |ports| && LastMatch(ports, split, k) && PickPorts(ports, split).target == ports[k].targetPort {
      assert Matching(ports[k], split);
    }
  }

  lemma RegionEndpointsPoint(world: World, service: Name, region: Region, target: int, e: LbEndpoint)
    ensures e in RegionEndpoints(world, service, region, target)
       <==> e.port == ToUint32(target) && ReadyOn(EndpointsOf(world, service), region.node, e.ip)
  {
    BucketMembers(Flatten(EndpointsOf(world, service)), region.node, ToUint32(target), e);
    FlattenMembers(EndpointsOf(world, service), Address(e.ip, Some(region.node)));
  }

  /** A translated split's cluster is the one it should have. */
  lemma SplitClusterIsAsked(cfg: Settings, ing: Ingress, world: World, w: Work, region: Region)
    requires Usable(cfg, ing, world, w)
    ensures AsAsked(cfg, ing, world, w.path, w.split, region, SplitCluster(cfg, ing, world, w, region))
  {
    var c := SplitCluster(cfg, ing, world, w, region);
    var ports, eps := world.services[w.split.service].value.ports, world.endpoints[w.split.service].value;
    TargetIsPicked(ports, w.split);
    var target := PickPorts(ports, w.split).target;
    forall e ensures e in c.endpoints <==> e.port == ToUint32(target) && ReadyOn(eps, region.node, e.ip) {
      RegionEndpointsPoint(world, w.split.service, region, target, e);
    }
    assert c.endpoints == Bucket(Flatten(eps), region.node, ToUint32(target));
    assert IsTarget(ports, w.split, target) && PointsAt(c, eps, region.node, target);
  }

  lemma TranslatedWorkIsUsable(cfg: Settings, ing: Ingress, world: World, t: Translated, w: Work)
    requires IsTranslation(cfg, ing, world, t) && w in RulesWork(ing.rules)
    ensures Usable(cfg, ing, world, w)
  {
    WorkDoneIff(cfg, ing, world, RulesWork(ing.rules));
  }

  /** Every emitted cluster is what some split of the ingress should have in some region. */
  lemma ClusterIsAsked(cfg: Settings, ing: Ingress, world: World, t: Translated, c: Cluster) returns (r: nat, p: nat, s: nat, i: nat)
    requires IsTranslation(cfg, ing, world, t) && c in t.clusters
    ensures r < |ing.rules| && p < |ing.rules[r].paths| && s < |ing.rules[r].paths[p].splits| && i < |cfg.regions|
    ensures var path := ing.rules[r].paths[p]; AsAsked(cfg, ing, world, path, path.splits[s], cfg.regions[i], c)
  {
    WorkClusters(cfg, ing, world, RulesWork(ing.rules), c);
    var w :| w in RulesWork(ing.rules) && Emits(cfg, ing, world, w, c);
    i :| 0 <= i < |cfg.regions| && c == SplitCluster(cfg, ing, world, w, cfg.regions[i]);
    TranslatedWorkIsUsable(cfg, ing, world, t, w);
    SplitClusterIsAsked(cfg, ing, world, w, cfg.regions[i]);
    r, p, s := WorkComesFromSplit(ing, w);
  }

  /** Every split of the ingress has the cluster it should have, in every region. */
  lemma AskedClusterExists(cfg: Settings, ing: Ingress, world: World, t: Translated, r: nat, p: nat, s: nat, i: nat) returns (c: Cluster)
    requires IsTranslation(cfg, ing, world, t)
    requires r < |ing.rules| && p < |ing.rules[r].paths| && s < |ing.rules[r].paths[p].splits| && i < |cfg.regions|
    ensures c in t.clusters
    ensures var path := ing.rules[r].paths[p]; AsAsked(cfg, ing, world, path, path.splits[s], cfg.regions[i], c)
  {
    var path := ing.rules[r].paths[p];
    var w := Work(path, path.splits[s]);
    EverySplitIsWork(ing, r, p, s);
    TranslatedWorkIsUsable(cfg, ing, world, t, w);
    SplitClusterIsAsked(cfg, ing, world, w, cfg.regions[i]);
    c := SplitCluster(cfg, ing, world, w, cfg.regions[i]);
    WorkClusters(cfg, ing, world, RulesWork(ing.rules), c);
    assert Emits(cfg, ing, world, w, c);
  }

  // ---- Virtual hosts and routes ----

  /** What every route of a path entry says, whatever it does with a match. */
  predicate MatchesEntry(path: HTTPPath, route: Route) {
    && route.prefix == (if path.path == "" then "/" else path.path)
    && route.matchers.Keys == path.headers.Keys
    && (forall h | h in path.headers :: route.matchers[h] == if path.headers[h] == "" then None else Some(path.headers[h]))
  }

  /** The route forwards to the entry's services in `region`, in order and with their weights and headers. */
  predicate ForwardsEntry(path: HTTPPath, region: Region, route: Route) {
    && MatchesEntry(path, route)
    && route.addHeaders == path.appendHeaders
    && route.action.Forward?
    && route.action.hostRewrite == (if path.rewriteHost == "" then None else Some(path.rewriteHost))
    && |route.action.clusters| == |path.splits|
    && (forall s | 0 <= s < |path.splits| :: WeighsSplit(path.splits[s], region, route.action.clusters[s]))
  }

  predicate WeighsSplit(split: Split, region: Region, w: ClusterWeight) {
    && w.name == split.service.namespace + "/" + split.service.name + "_" + region.name
    && w.weight < 0x1_0000_0000 && (split.percent - w.weight) % 0x1_0000_0000 == 0
    && w.addHeaders == split.appendHeaders
  }

  /** The host's name spells the ingress and the rule's number, and its domains are the rule's hosts, bare and with ":*". */
  predicate HostOfRule(ing: Ingress, r: nat, vh: VirtualHost)
    requires r < |ing.rules|
  {
    && vh.name == "(" + ing.name.namespace + "/" + ing.name.name + ").Rules[" + Decimal(r) + "]"
    && |vh.domains| == 2 * |ing.rules[r].hosts|
    && (forall h | 0 <= h < |ing.rules[r].hosts| ::
          vh.domains[2 * h] == ing.rules[r].hosts[h] && vh.domains[2 * h + 1] == ing.rules[r].hosts[h] + ":*")
  }

  lemma {:induction false} DomainsInOrder(hosts: seq<string>)
    ensures |Domains(hosts)| == 2 * |hosts|
    ensures forall h | 0 <= h < |hosts| :: Domains(hosts)[2 * h] == hosts[h] && Domains(hosts)[2 * h + 1] == hosts[h] + ":*"
  {
    if hosts != [] {
      var init := hosts[..|hosts| - 1];
      DomainsInOrder(init);
      assert forall h | 0 <= h < |init| :: init[h] == hosts[h];
    }
  }

  lemma ForwardRouteIsAsked(n: Name, r: nat, path: HTTPPath, region: Region)
    ensures ForwardsEntry(path, region, ForwardRoute(n, r, path, region))
  {
    var route := ForwardRoute(n, r, path, region);
    forall s | 0 <= s < |path.splits| ensures WeighsSplit(path.splits[s], region, route.action.clusters[s]) {
    }
  }

  predicate RedirectsEntry(path: HTTPPath, route: Route) {
    MatchesEntry(path, route) && route.action == RedirectToHTTPS && route.addHeaders == map[]
  }

  predicate NamedAfter(vh: VirtualHost, route: Route) {
    route.name == vh.name + ".Paths[" + route.prefix + "]"
  }

  /** A rule asks for its plain requests to be redirected. */
  predicate WantsRedirect(cfg: Settings, ing: Ingress, r: nat)
    requires r < |ing.rules|
  {
    ing.redirectHTTP && ing.rules[r].visibility == ExternalIP && !cfg.httpOptionDisabled
  }

  /** The internal host of every rule in every region: its routes forward each path entry, or redirect it, in region 0 only. */
  lemma InternalHostIsAsked(cfg: Settings, ing: Ingress, world: World, t: Translated, i: nat, r: nat)
    requires IsTranslation(cfg, ing, world, t) && i < |cfg.regions| && r < |ing.rules|
    ensures |t.internal| == |cfg.regions| && |t.internal[i]| == |ing.rules| && HostOfRule(ing, r, t.internal[i][r])
    ensures var routes, paths := t.internal[i][r].routes, ing.rules[r].paths;
      && (forall p | 0 <= p < |routes| :: NamedAfter(t.internal[i][r], routes[p]))
      && if !WantsRedirect(cfg, ing, r) then
        |routes| == |paths| && forall p | 0 <= p < |paths| :: ForwardsEntry(paths[p], cfg.regions[i], routes[p])
      else if i == 0 then
        |routes| == |paths| && forall p | 0 <= p < |paths| :: RedirectsEntry(paths[p], routes[p])
      else routes == []
  {
    TranslationShape(cfg, ing, world, t);
    DomainsInOrder(ing.rules[r].hosts);
    var paths := ing.rules[r].paths;
    forall p | 0 <= p < |paths| ensures ForwardsEntry(paths[p], cfg.regions[i], ForwardRoute(ing.name, r, paths[p], cfg.regions[i])) {
      ForwardRouteIsAsked(ing.name, r, paths[p], cfg.regions[i]);
    }
  }

  /** The plain external hosts are the internal hosts of the ExternalIP rules, in rule order. */
  lemma {:induction false} ExternalHostsAt(cfg: Settings, ing: Ingress, k: nat, i: nat)
    requires k <= |ing.rules| && i < |cfg.regions|
    ensures |ExternalHosts(cfg, ing, k, i)| == |ExternalRules(ing.rules[..k])|
    ensures forall x | 0 <= x < |ExternalRules(ing.rules[..k])| ::
      ExternalRules(ing.rules[..k])[x] < k
      && ExternalHosts(cfg, ing, k, i)[x] == RuleHost(cfg, ing, ExternalRules(ing.rules[..k])[x], i)
  {
    if k > 0 {
      assert ing.rules[..k][..k - 1] == ing.rules[..k - 1];
      ExternalHostsAt(cfg, ing, k - 1, i);
    }
  }

  /** The positions of the ExternalIP rules, ascending. */
  function ExternalRules(rules: seq<Rule>): seq<nat> {
    if rules == [] then []
    else ExternalRules(rules[..|rules| - 1]) + (if rules[|rules| - 1].visibility == ExternalIP then [|rules| - 1] else [])
  }

  lemma {:induction false} ExternalRulesMembers(rules: seq<Rule>, r: nat)
    ensures r in ExternalRules(rules) <==> r < |rules| && rules[r].visibility == ExternalIP
  {
    if rules != [] {
      ExternalRulesMembers(rules[..|rules| - 1], r);
    }
  }

  /** The plain external hosts of a translation, and which rules they come from. */
  lemma ExternalHostsAreInternal(cfg: Settings, ing: Ingress, world: World, t: Translated, i: nat)
    requires IsTranslation(cfg, ing, world, t) && i < |cfg.regions|
    ensures |t.external| == |t.internal| == |cfg.regions| && |t.internal[i]| == |ing.rules|
    ensures var at := ExternalRules(ing.rules);
      && |t.external[i]| == |at|
      && (forall x | 0 <= x < |at| :: at[x] < |ing.rules| && t.external[i][x] == t.internal[i][at[x]])
      && (forall r | 0 <= r < |ing.rules| :: r in at <==> ing.rules[r].visibility == ExternalIP)
  {
    TranslationShape(cfg, ing, world, t);
    ExternalHostsAt(cfg, ing, |ing.rules|, i);
    assert ing.rules[..|ing.rules|] == ing.rules;
    forall r | 0 <= r < |ing.rules| ensures r in ExternalRules(ing.rules) <==> ing.rules[r].visibility == ExternalIP {
      ExternalRulesMembers(ing.rules, r);
    }
  }

  /** A TLS host of an ExternalIP rule: every path entry, towards region 0. */
  lemma TLSHostIsAsked(cfg: Settings, ing: Ingress, world: World, t: Translated, i: nat, vh: VirtualHost) returns (r: nat)
    requires IsTranslation(cfg, ing, world, t) && i < |cfg.regions| && vh in t.externalTLS[i]
    ensures r < |ing.rules| && ing.rules[r].visibility == ExternalIP && HostOfRule(ing, r, vh)
    ensures ing.tls != [] || cfg.oneCert
    ensures |vh.routes| == |ing.rules[r].paths|
    ensures forall p | 0 <= p < |vh.routes| :: ForwardsEntry(ing.rules[r].paths[p], cfg.regions[0], vh.routes[p])
  {
    TranslationShape(cfg, ing, world, t);
    ExternalTLSHostsAreExternal(cfg, ing, |ing.rules|, vh);
    r :| 0 <= r < |ing.rules| && ing.rules[r].visibility == ExternalIP && TLSHost(cfg, ing, r) == Some(vh);
    DomainsInOrder(ing.rules[r].hosts);
    forall p | 0 <= p < |ing.rules[r].paths|
      ensures ForwardsEntry(ing.rules[r].paths[p], cfg.regions[0], ForwardRoute(ing.name, r, ing.rules[r].paths[p], cfg.regions[0]))
    {
      ForwardRouteIsAsked(ing.name, r, ing.rules[r].paths[p], cfg.regions[0]);
    }
  }

  /** With TLS, every ExternalIP rule with paths has its TLS host, in every region. */
  lemma {:induction false} TLSHostExists(cfg: Settings, ing: Ingress, k: nat, r: nat)
    requires |cfg.regions| > 0 && r < k <= |ing.rules| && (ing.tls != [] || cfg.oneCert)
    requires ing.rules[r].visibility == ExternalIP && ing.rules[r].paths != []
    ensures exists vh | vh in ExternalTLSHosts(cfg, ing, k) :: TLSHost(cfg, ing, r) == Some(vh)
  {
    if r == k - 1 {
      assert TLSRoutes(cfg, ing, r, ing.rules[r].paths) != [];
      assert TLSHost(cfg, ing, r).value in ExternalTLSHosts(cfg, ing, k);
    } else {
      TLSHostExists(cfg, ing, k - 1, r);
    }
  }

  // ---- Certificates ----

  /** Every TLS block's SNI match has the block's hosts and the certificate and key of its secret. */
  lemma {:induction false} CertificatesAre(world: World, tls: seq<IngressTLS>, k: nat)
    requires CertOutcome(world, tls).Done? && k < |tls|
    ensures |CertOutcome(world, tls).value| == |tls| && tls[k].secret in world.secrets && world.secrets[tls[k].secret].Found?
    ensures var secret := world.secrets[tls[k].secret].value;
      CertOutcome(world, tls).value[k] == SNI(tls[k].hosts, tls[k].secret, secret.certificate, secret.privateKey)
  {
    CertsPerBlock(world, tls);
    CertsPerBlock(world, tls[..|tls| - 1]);
    if k < |tls| - 1 {
      CertificatesAre(world, tls[..|tls| - 1], k);
    }
  }

  // ---- Outcomes ----

  /** The service, or its endpoints, do not exist yet. */
  predicate Absent<T>(objects: map<Name, Lookup<T>>, n: Name) {
    n !in objects || objects[n].NotFound?
  }

  predicate Broken<T>(objects: map<Name, Lookup<T>>, n: Name) {
    n in objects && objects[n].Unavailable?
  }

  /** How translating one split ends: the nil translation, an error or a panic, each in exactly these cases. */
  lemma SplitOutcomeIff(cfg: Settings, ing: Ingress, world: World, w: Work)
    requires |cfg.regions| > 0
    ensures var n := w.split.service;
      var known := n !in world.untrackable && n in world.services && world.services[n].Found?;
      var plain := known && !world.services[n].value.externalName;
      var listed := plain && n in world.endpoints && world.endpoints[n].Found?;
      && (SplitOutcome(cfg, ing, world, w).Skipped? <==>
            n !in world.untrackable && (Absent(world.services, n) || (plain && Absent(world.endpoints, n))))
      && (SplitOutcome(cfg, ing, world, w).Failed? <==>
            || n in world.untrackable || Broken(world.services, n) || (plain && Broken(world.endpoints, n))
            || (listed && !MissesNode(world.endpoints[n].value) && LacksCA(cfg, world, w)))
      && (SplitOutcome(cfg, ing, world, w).Crashed? <==>
            || (known && world.services[n].value.externalName)
            || (listed && (MissesNode(world.endpoints[n].value)
                           || (!LacksCA(cfg, world, w) && forall s | 0 <= s < |world.endpoints[n].value| :: world.endpoints[n].value[s] == []))))
  {
    var n := w.split.service;
    if n in world.services && world.services[n].Found? {
      TargetIsPicked(world.services[n].value.ports, w.split);
      if n in world.endpoints && world.endpoints[n].Found? {
        BucketingMeans(cfg.regions, world.endpoints[n].value, SplitPorts(ing, world, w).target);
      }
    }
  }

  predicate MissesNode(eps: Endpoints) {
    exists s, a | 0 <= s < |eps| && 0 <= a < |eps[s]| :: eps[s][a].node == None
  }

  /** TLS towards the service is due, and the CA's secret cannot be read. */
  predicate LacksCA(cfg: Settings, world: World, w: Work) {
    && w.split.service in world.services && world.services[w.split.service].Found?
    && w.path.rewriteHost == ""
    && (cfg.systemInternalTLS || SpeaksTLS(world.services[w.split.service].value.ports, w.split))
    && !world.routingSecret.Found?
  }

  /** A translation without usable work ends as its first unusable split does. */
  lemma {:induction false} FirstProblemDecides(cfg: Settings, ing: Ingress, world: World, work: seq<Work>)
    requires |cfg.regions| > 0 && !WorkOutcome(cfg, ing, world, work).Done?
    ensures exists k | 0 <= k < |work| :: FirstProblem(cfg, ing, world, work, k) && SameKind(SplitOutcome(cfg, ing, world, work[k]), WorkOutcome(cfg, ing, world, work))
  {
    var init := work[..|work| - 1];
    if WorkOutcome(cfg, ing, world, init).Done? {
      WorkDoneIff(cfg, ing, world, init);
      SplitDoneIff(cfg, ing, world, work[|work| - 1]);
      assert forall j | 0 <= j < |init| :: init[j] == work[j] && init[j] in init;
      assert FirstProblem(cfg, ing, world, work, |work| - 1);
    } else {
      FirstProblemDecides(cfg, ing, world, init);
      var k :| 0 <= k < |init| && FirstProblem(cfg, ing, world, init, k) && SameKind(SplitOutcome(cfg, ing, world, init[k]), WorkOutcome(cfg, ing, world, init));
      assert forall j | 0 <= j < |init| :: init[j] == work[j];
      assert FirstProblem(cfg, ing, world, work, k);
    }
  }

  predicate FirstProblem(cfg: Settings, ing: Ingress, world: World, work: seq<Work>, k: nat)
    requires k < |work|
  {
    !Usable(cfg, ing, world, work[k]) && forall j | 0 <= j < k :: Usable(cfg, ing, world, work[j])
  }

  predicate SameKind<T, U>(a: Outcome<T>, b: Outcome<U>) {
    (a.Done? <==> b.Done?) && (a.Skipped? <==> b.Skipped?) && (a.Failed? <==> b.Failed?) && (a.Crashed? <==> b.Crashed?)
  }

  lemma {:induction false} CertsFail(world: World, tls: seq<IngressTLS>)
    ensures CertOutcome(world, tls).Done? || CertOutcome(world, tls).Failed?
  {
    if tls != [] {
      CertsFail(world, tls[..|tls| - 1]);
    }
  }

  // ---- The order of splits ----

  predicate IsSplit(rules: seq<Rule>, r: nat, p: nat, s: nat) {
    r < |rules| && p < |rules[r].paths| && s < |rules[r].paths[p].splits|
  }

  /** Splits are translated in the order of rules, then paths, then splits. */
  predicate Precedes(r: nat, p: nat, s: nat, r': nat, p': nat, s': nat) {
    r < r' || (r == r' && (p < p' || (p == p' && s < s')))
  }

  /** Where a split stands among all of them. */
  function Place(rules: seq<Rule>, r: nat, p: nat, s: nat): nat
    requires IsSplit(rules, r, p, s)
  {
    |RulesWork(rules[..r])| + |PathsWork(rules[r].paths[..p])| + s
  }

  lemma PathPlace(paths: seq<HTTPPath>, p: nat, s: nat)
    requires p < |paths| && s < |paths[p].splits|
    ensures |PathsWork(paths[..p])| + s < |PathsWork(paths[..p + 1])| <= |PathsWork(paths)|
    ensures PathsWork(paths)[|PathsWork(paths[..p])| + s] == Work(paths[p], paths[p].splits[s])
  {
    assert paths[..p + 1][..p] == paths[..p];
    PathsWorkPrefix(paths, p + 1);
    assert PathsWork(paths[..p + 1])[|PathsWork(paths[..p])| + s] == PathWork(paths[p], paths[p].splits)[s];
  }

  lemma SplitAtPlace(rules: seq<Rule>, r: nat, p: nat, s: nat)
    requires IsSplit(rules, r, p, s)
    ensures Place(rules, r, p, s) < |RulesWork(rules[..r + 1])| <= |RulesWork(rules)|
    ensures RulesWork(rules)[Place(rules, r, p, s)] == Work(rules[r].paths[p], rules[r].paths[p].splits[s])
  {
    PathPlace(rules[r].paths, p, s);
    assert rules[..r + 1][..r] == rules[..r];
    RulesWorkPrefix(rules, r + 1);
    assert RulesWork(rules[..r + 1])[Place(rules, r, p, s)] == PathsWork(rules[r].paths)[|PathsWork(rules[r].paths[..p])| + s];
  }

  lemma PlacesAscend(rules: seq<Rule>, r: nat, p: nat, s: nat, r': nat, p': nat, s': nat)
    requires IsSplit(rules, r, p, s) && IsSplit(rules, r', p', s') && Precedes(r, p, s, r', p', s')
    ensures Place(rules, r, p, s) < Place(rules, r', p', s')
  {
    if r < r' {
      SplitAtPlace(rules, r, p, s);
      RulesWorkPrefix(rules[..r'], r + 1);
      assert rules[..r'][..r + 1] == rules[..r + 1];
    } else if p < p' {
      PathPlace(rules[r].paths, p, s);
      PathsWorkPrefix(rules[r].paths[..p'], p + 1);
      assert rules[r].paths[..p'][..p + 1] == rules[r].paths[..p + 1];
    }
  }

  lemma {:induction false} PathSplitAt(paths: seq<HTTPPath>, k: nat) returns (p: nat, s: nat)
    requires k < |PathsWork(paths)|
    ensures p < |paths| && s < |paths[p].splits| && k == |PathsWork(paths[..p])| + s
  {
    var init := paths[..|paths| - 1];
    if k < |PathsWork(init)| {
      p, s := PathSplitAt(init, k);
      assert init[..p] == paths[..p];
    } else {
      p, s := |paths| - 1, k - |PathsWork(init)|;
    }
  }

  /** Every piece of work is some split's. */
  lemma {:induction false} SplitAt(rules: seq<Rule>, k: nat) returns (r: nat, p: nat, s: nat)
    requires k < |RulesWork(rules)|
    ensures IsSplit(rules, r, p, s) && k == Place(rules, r, p, s)
  {
    var init := rules[..|rules| - 1];
    if k < |RulesWork(init)| {
      r, p, s := SplitAt(init, k);
      assert init[..r] == rules[..r];
    } else {
      r := |rules| - 1;
      p, s := PathSplitAt(rules[r].paths, k - |RulesWork(init)|);
    }
  }

  predicate UsableSplit(cfg: Settings, ing: Ingress, world: World, r: nat, p: nat, s: nat)
    requires IsSplit(ing.rules, r, p, s)
  {
    Usable(cfg, ing, world, Work(ing.rules[r].paths[p], ing.rules[r].paths[p].splits[s]))
  }

  /** The first split, in the order of rules, paths and splits, that is not usable. */
  ghost predicate FirstUnusable(cfg: Settings, ing: Ingress, world: World, r: nat, p: nat, s: nat) {
    && IsSplit(ing.rules, r, p, s) && !UsableSplit(cfg, ing, world, r, p, s)
    && (forall r': nat, p': nat, s': nat | IsSplit(ing.rules, r', p', s') && Precedes(r', p', s', r, p, s) ::
          UsableSplit(cfg, ing, world, r', p', s'))
  }

  /** A translation with a bad certificate is an error; any other without result ends as its first unusable split does. */
  lemma TranslateOutcome(cfg: Settings, ing: Ingress, world: World) returns (r: nat, p: nat, s: nat)
    requires |cfg.regions| > 0 && !Translate(cfg, ing, world).Done?
    ensures (exists k | 0 <= k < |ing.tls| :: !ValidCertificate(world, ing.tls[k])) ==> Translate(cfg, ing, world).Failed?
    ensures (forall k | 0 <= k < |ing.tls| :: ValidCertificate(world, ing.tls[k])) ==>
      && FirstUnusable(cfg, ing, world, r, p, s)
      && SameKind(SplitOutcome(cfg, ing, world, Work(ing.rules[r].paths[p], ing.rules[r].paths[p].splits[s])), Translate(cfg, ing, world))
  {
    CertsDoneIff(world, ing.tls);
    CertsFail(world, ing.tls);
    r, p, s := 0, 0, 0;
    if CertOutcome(world, ing.tls).Done? {
      var work := RulesWork(ing.rules);
      FirstProblemDecides(cfg, ing, world, work);
      var k :| 0 <= k < |work| && FirstProblem(cfg, ing, world, work, k) && SameKind(SplitOutcome(cfg, ing, world, work[k]), WorkOutcome(cfg, ing, world, work));
      r, p, s := SplitAt(ing.rules, k);
      SplitAtPlace(ing.rules, r, p, s);
      EarlierAreUsable(cfg, ing, world, r, p, s, k);
    }
  }

  lemma EarlierAreUsable(cfg: Settings, ing: Ingress, world: World, r: nat, p: nat, s: nat, k: nat)
    requires IsSplit(ing.rules, r, p, s) && k == Place(ing.rules, r, p, s) && k < |RulesWork(ing.rules)|
    requires FirstProblem(cfg, ing, world, RulesWork(ing.rules), k)
    ensures FirstUnusable(cfg, ing, world, r, p, s)
  {
    SplitAtPlace(ing.rules, r, p, s);
    forall r': nat, p': nat, s': nat | IsSplit(ing.rules, r', p', s') && Precedes(r', p', s', r, p, s)
      ensures UsableSplit(cfg, ing, world, r', p', s')
    {
      SplitAtPlace(ing.rules, r', p', s');
      PlacesAscend(ing.rules, r', p', s', r, p, s);
    }
  }
}
