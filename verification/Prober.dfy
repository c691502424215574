/** The probe targets of an ingress, and whether the emitted configuration answers them. */
module Probing {
  import opened Text
  import opened Kube
  import opened Envoy
  import opened Translator
  import opened Routing
  import opened Caching
  import opened SourcePrefixes
  import opened Protocol
  import opened RunTheorems
  import opened Reconciling
  import opened EndpointBuckets
  import Guarantees
  import Registry

  datatype URL = URL(scheme: string, host: string, path: string)

  datatype ProbeTarget = ProbeTarget(podIPs: set<string>, podPort: string, urls: seq<URL>)

  function ProbePort(ing: Ingress, rule: Rule): nat {
    if rule.visibility != ExternalIP then HTTP_PORT_INTERNAL
    else if |ing.tls| != 0 then HTTPS_PORT_PROBE
    else HTTP_PORT_PROBE
  }

  function ProbeScheme(ing: Ingress, rule: Rule): string {
    if rule.visibility == ExternalIP && |ing.tls| != 0 then "https" else "http"
  }

  function URLs(hosts: seq<string>, scheme: string): seq<URL> {
    seq(|hosts|, k requires 0 <= k < |hosts| => URL(scheme, hosts[k], "/"))
  }

  function RuleTarget(ing: Ingress, rule: Rule, ips: set<string>): ProbeTarget {
    ProbeTarget(ips, Decimal(ProbePort(ing, rule)), URLs(rule.hosts, ProbeScheme(ing, rule)))
  }

  /** `domainsToURL`. */
  method DomainsToURL(domains: seq<string>, scheme: string) returns (urls: seq<URL>)
    ensures urls == URLs(domains, scheme)
  {
    urls := [];
    for k := 0 to |domains|
      invariant urls == URLs(domains, scheme)[..k]
    {
      urls := urls + [URL(scheme, domains[k], "/")];
    }
  }

  /** `ListProbeTargets`: `None` when the gateway endpoints cannot be read or none is ready. */
  method ListProbeTargets(ing: Ingress, found: Lookup<Endpoints>) returns (targets: Option<seq<ProbeTarget>>)
    ensures targets.None? <==> !found.Found? || Flatten(found.value) == []
    ensures targets.Some? ==>
      && |targets.value| == |ing.rules|
      && forall r | 0 <= r < |ing.rules| :: targets.value[r] == RuleTarget(ing, ing.rules[r], ReadyIPs(found.value))
  {
    if !found.Found? {
      return None;
    }
    var gateways := found.value;
    var ips: seq<string> := [];
    for s := 0 to |gateways|
      invariant |ips| == |Flatten(gateways[..s])|
      invariant forall k | 0 <= k < |ips| :: ips[k] == Flatten(gateways[..s])[k].ip
    {
      FlattenStep(gateways, s);
      ghost var done := Flatten(gateways[..s]);
      for a := 0 to |gateways[s]|
        invariant |ips| == |done| + a
        invariant forall k | 0 <= k < |ips| :: ips[k] == (done + gateways[s])[k].ip
      {
        ips := ips + [gateways[s][a].ip];
      }
    }
    assert gateways[..|gateways|] == gateways;
    if |ips| == 0 {
      return None;
    }
    var all := Flatten(gateways);
    forall ip ensures ip in ips <==> ip in ReadyIPs(gateways) {
      if ip in ReadyIPs(gateways) {
        var x :| x in all && x.ip == ip;
        var k :| 0 <= k < |all| && all[k] == x;
        assert ips[k] == ip;
      }
    }
    var pods := set ip | ip in ips;
    assert pods == ReadyIPs(gateways);
    var perRule := GetIngressUrls(ing, pods);
    targets := Some(perRule);
  }

  /** `getIngressUrls`: one target per rule. */
  method GetIngressUrls(ing: Ingress, ips: set<string>) returns (targets: seq<ProbeTarget>)
    ensures |targets| == |ing.rules| && forall r | 0 <= r < |targets| :: targets[r] == RuleTarget(ing, ing.rules[r], ips)
  {
    targets := [];
    for r := 0 to |ing.rules|
      invariant |targets| == r && forall k | 0 <= k < r :: targets[k] == RuleTarget(ing, ing.rules[k], ips)
    {
      var rule := ing.rules[r];
      var scheme, port := SchemeAndPort(ing, rule);
      var urls := DomainsToURL(rule.hosts, scheme);
      targets := targets + [ProbeTarget(ips, Decimal(port), urls)];
    }
  }

  /** The branches of `getIngressUrls` for one rule. */
  method SchemeAndPort(ing: Ingress, rule: Rule) returns (scheme: string, port: nat)
    ensures scheme == ProbeScheme(ing, rule) && port == ProbePort(ing, rule)
  {
    scheme, port := "http", HTTP_PORT_INTERNAL;
    if rule.visibility == ExternalIP {
      port := HTTP_PORT_PROBE;
      if |ing.tls| != 0 {
        scheme, port := "https", HTTPS_PORT_PROBE;
      }
    }
  }

  /** A rule's target, spelled out: the pods, the port as text, and one root URL per host in order. */
  lemma TargetSays(ing: Ingress, rule: Rule, ips: set<string>)
    ensures var target := RuleTarget(ing, rule, ips);
      && target.podIPs == ips
      && target.podPort == (if rule.visibility == ClusterLocal then "8081" else if ing.tls == [] then "8090" else "9443")
      && |target.urls| == |rule.hosts|
      && forall k | 0 <= k < |rule.hosts| ::
           target.urls[k] == URL(if rule.visibility == ExternalIP && ing.tls != [] then "https" else "http", rule.hosts[k], "/")
  {
    PortTexts();
  }

  lemma PortTexts()
    ensures Decimal(8081) == "8081" && Decimal(8090) == "8090" && Decimal(9443) == "9443"
  {
    assert Decimal(8) == "8" && Decimal(80) == "80" && Decimal(808) == "808" && Decimal(809) == "809";
    assert Decimal(9) == "9" && Decimal(94) == "94" && Decimal(944) == "944";
  }

  /** Some virtual host of the listener on `port`, in region `i`, lists `host`. */
  predicate Reaches(snapshot: Snapshot, port: nat, i: nat, host: string) {
    exists l | l in snapshot.listeners :: l.port == port && i < |l.configs| && exists vh | vh in l.configs[i] :: host in vh.domains
  }

  predicate Emitted(snapshot: Snapshot, port: nat) {
    exists l | l in snapshot.listeners :: l.port == port
  }

  /** Chain i of `l` pairs the ranges that `inv` gives region i with `configs[i]`. */
  predicate PairsByRegion(cfg: Settings, l: Listener, port: nat, configs: seq<seq<VirtualHost>>, inv: Inventory) {
    l.port == port && l.configs == configs && |configs| == |cfg.regions| && PrefixRanges(cfg.regions, inv) == Some(l.ranges)
  }

  /**
    A produced snapshot has exactly three listeners. Each has a filter chain per region, which pairs the
    ranges that its own reading of nodes and blocks gives the region with the region's configuration:
    external and probe with the external ones, internal with the internal ones.
   */
  lemma {:induction false} SnapshotListeners(cfg: Settings, run: seq<Label>, j: nat)
    requires ValidRegions(cfg.regions) && j < |Run(cfg, run).taken|
    ensures var snapshot, seen := Run(cfg, run).taken[j].snapshot, Run(cfg, run).taken[j].look.seen;
      && |snapshot.listeners| == 3
      && PairsByRegion(cfg, snapshot.listeners[0], 8080, snapshot.external, seen.external)
      && PairsByRegion(cfg, snapshot.listeners[1], 8081, snapshot.internal, seen.internal)
      && PairsByRegion(cfg, snapshot.listeners[2], 8090, snapshot.external, seen.probe)
  {
    var p := Guarantees.WhenTaken(cfg, run, j);
    Guarantees.EveryRunKeepsInv(cfg, run[..p]);
    assert !SnapshotCrashes(cfg, Run(cfg, run[..p]).cache.installed, Run(cfg, run[..p]).phase.look.seen);
  }

  predicate UniqueReadings(seen: Readings) {
    UniqueNames(seen.external.nodes) && UniqueNames(seen.internal.nodes) && UniqueNames(seen.probe.nodes)
  }

  lemma ChainsIff(cfg: Settings, l: Listener, port: nat, configs: seq<seq<VirtualHost>>, inv: Inventory)
    requires PairsByRegion(cfg, l, port, configs, inv) && UniqueNames(inv.nodes)
    ensures Unambiguous(l.ranges) <==> FairlyShared(cfg.regions, inv)
  {
    UnambiguousIff(cfg.regions, inv);
  }

  /** Envoy can tell a produced listener's chains apart exactly when its reading is fairly shared between the regions. */
  lemma {:induction false} SnapshotChainsIff(cfg: Settings, run: seq<Label>, j: nat)
    requires ValidRegions(cfg.regions) && j < |Run(cfg, run).taken| && UniqueReadings(Run(cfg, run).taken[j].look.seen)
    ensures var listeners, seen := Run(cfg, run).taken[j].snapshot.listeners, Run(cfg, run).taken[j].look.seen;
      && |listeners| == 3
      && (Unambiguous(listeners[0].ranges) <==> FairlyShared(cfg.regions, seen.external))
      && (Unambiguous(listeners[1].ranges) <==> FairlyShared(cfg.regions, seen.internal))
      && (Unambiguous(listeners[2].ranges) <==> FairlyShared(cfg.regions, seen.probe))
  {
    SnapshotListeners(cfg, run, j);
    var snapshot, seen := Run(cfg, run).taken[j].snapshot, Run(cfg, run).taken[j].look.seen;
    ChainsIff(cfg, snapshot.listeners[0], 8080, snapshot.external, seen.external);
    ChainsIff(cfg, snapshot.listeners[1], 8081, snapshot.internal, seen.internal);
    ChainsIff(cfg, snapshot.listeners[2], 8090, snapshot.external, seen.probe);
  }

  lemma ListingHasNoTLS(cfg: Settings, s: System, n: Name)
    requires Registry.Registered(cfg, s) && s.phase.Listing? && n in s.origins
    ensures s.origins[n].ing.tls == [] && !cfg.oneCert
  {
    assert !SnapshotCrashes(cfg, s.cache.installed, s.phase.look.seen);
    InstalledShape(cfg, s, n);
  }

  /** The snapshot's ingresses use no TLS: with TLS it would not have been produced. */
  lemma {:induction false} SnapshotHasNoTLS(cfg: Settings, run: seq<Label>, j: nat, n: Name)
    requires ValidRegions(cfg.regions) && j < |Run(cfg, run).taken| && n in SpecsAt(Run(cfg, run), j)
    ensures SpecsAt(Run(cfg, run), j)[n].tls == [] && !cfg.oneCert
  {
    var p := Guarantees.WhenTaken(cfg, run, j);
    SpecsAreOrigins(cfg, run, j, p);
    Guarantees.EveryRunKeepsInv(cfg, run[..p]);
    ListingHasNoTLS(cfg, Run(cfg, run[..p]), n);
  }

  /**
    Probes against any produced snapshot: a target's port always has a listener, and a probed host is
    a domain of that listener's configuration, in every region, exactly when its rule is cluster-local.
   */
  lemma {:induction false} ProbesReachIff(cfg: Settings, run: seq<Label>, j: nat, i: nat, n: Name, r: nat, host: string)
    requires ValidRegions(cfg.regions) && j < |Run(cfg, run).taken| && i < |cfg.regions|
    requires n in SpecsAt(Run(cfg, run), j) && r < |SpecsAt(Run(cfg, run), j)[n].rules|
    requires host in SpecsAt(Run(cfg, run), j)[n].rules[r].hosts
    ensures var snapshot := Run(cfg, run).taken[j].snapshot;
      var ing := SpecsAt(Run(cfg, run), j)[n];
      && Emitted(snapshot, ProbePort(ing, ing.rules[r]))
      && (Reaches(snapshot, ProbePort(ing, ing.rules[r]), i, host) <==> ing.rules[r].visibility == ClusterLocal)
  {
    var snapshot, specs := Run(cfg, run).taken[j].snapshot, SpecsAt(Run(cfg, run), j);
    SnapshotListeners(cfg, run, j);
    SnapshotHasNoTLS(cfg, run, j, n);
    ExternalConfigsAreEmpty(cfg, run, j, i);
    SnapshotIsAtomic(cfg, run, j, i);
    HostIsServed(cfg, specs, Run(cfg, run).taken[j].look.order, i, n, r, host);
    ProbeOutcome(cfg, snapshot, Run(cfg, run).taken[j].look.seen, i, specs[n], r, host);
  }

  predicate Served(hosts: seq<VirtualHost>, host: string) {
    exists vh | vh in hosts :: host in vh.domains
  }

  /** Every host of an installed ingress is a domain of every region's internal configuration. */
  lemma HostIsServed(cfg: Settings, specs: map<Name, Ingress>, order: seq<Name>, i: nat, n: Name, r: nat, host: string)
    requires n in order && n in specs && i < |cfg.regions| && r < |specs[n].rules| && host in specs[n].rules[r].hosts
    ensures Served(InternalConfig(cfg, specs, order, i), host)
  {
    var hosts, vh := HostsPerName(cfg, specs, i), RuleHost(cfg, specs[n], r, i);
    assert hosts[n][r] == vh;
    GatherContains(order, hosts, n, vh);
    DomainsOfHosts(specs[n].rules[r].hosts, host);
    assert vh in InternalConfig(cfg, specs, order, i) && host in vh.domains;
  }

  lemma ProbeOutcome(cfg: Settings, snapshot: Snapshot, seen: Readings, i: nat, ing: Ingress, r: nat, host: string)
    requires i < |cfg.regions| && r < |ing.rules| && ing.tls == [] && |snapshot.listeners| == 3
    requires PairsByRegion(cfg, snapshot.listeners[0], 8080, snapshot.external, seen.external)
    requires PairsByRegion(cfg, snapshot.listeners[1], 8081, snapshot.internal, seen.internal)
    requires PairsByRegion(cfg, snapshot.listeners[2], 8090, snapshot.external, seen.probe)
    requires snapshot.external[i] == [] && Served(snapshot.internal[i], host)
    ensures Emitted(snapshot, ProbePort(ing, ing.rules[r]))
    ensures Reaches(snapshot, ProbePort(ing, ing.rules[r]), i, host) <==> ing.rules[r].visibility == ClusterLocal
  {
    var ls := snapshot.listeners;
    assert ls[1] in ls && ls[2] in ls;
    if ing.rules[r].visibility == ClusterLocal {
      assert ls[1].port == HTTP_PORT_INTERNAL && Served(ls[1].configs[i], host);
    } else {
      assert forall l | l in ls && l.port == HTTP_PORT_PROBE :: l == ls[2];
    }
  }
}
