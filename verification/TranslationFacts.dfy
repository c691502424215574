/** What every successful translation guarantees to the cache: uniform domains, covered references, local clusters. */
module TranslationFacts {
  import opened Text
  import opened Kube
  import opened Envoy
  import opened EndpointBuckets
  import opened Translator
  import opened Routing
  import opened Caching

  // ---- Which splits are translated ----

  lemma {:induction false} PathsWorkMembers(paths: seq<HTTPPath>, w: Work)
    ensures w in PathsWork(paths) <==> exists p | 0 <= p < |paths| :: w in PathWork(paths[p], paths[p].splits)
  {
    if paths != [] {
      var init := paths[..|paths| - 1];
      PathsWorkMembers(init, w);
      assert forall p | 0 <= p < |init| :: init[p] == paths[p];
    }
  }

  lemma {:induction false} RulesWorkMembers(rules: seq<Rule>, w: Work)
    ensures w in RulesWork(rules) <==> exists r | 0 <= r < |rules| :: w in PathsWork(rules[r].paths)
  {
    if rules != [] {
      var init := rules[..|rules| - 1];
      RulesWorkMembers(init, w);
      assert forall r | 0 <= r < |init| :: init[r] == rules[r];
    }
  }

  /** Every split of the ingress is translated. */
  lemma EverySplitIsWork(ing: Ingress, r: nat, p: nat, s: nat)
    requires r < |ing.rules| && p < |ing.rules[r].paths| && s < |ing.rules[r].paths[p].splits|
    ensures var path := ing.rules[r].paths[p]; Work(path, path.splits[s]) in RulesWork(ing.rules)
  {
    var paths := ing.rules[r].paths;
    var w := Work(paths[p], paths[p].splits[s]);
    assert PathWork(paths[p], paths[p].splits)[s] == w;
    PathsWorkMembers(paths, w);
    RulesWorkMembers(ing.rules, w);
  }

  // ---- When a translation succeeds ----

  predicate PortMatches(port: ServicePort, split: Split) {
    port.port == split.portNumber || port.name == split.portName
  }

  /** The target port is the last matching one's (80 without a match); one port named http2 or h2c is enough for HTTP/2. */
  lemma {:induction false} LastMatchingPortWins(ports: seq<ServicePort>, split: Split)
    ensures var picked := PickPorts(ports, split);
      && ((picked.target == 80 && forall k | 0 <= k < |ports| :: !PortMatches(ports[k], split))
          || exists k :: 0 <= k < |ports| && LastMatch(ports, split, k) && picked.target == ports[k].targetPort)
      && (picked.http2 <==> exists k | 0 <= k < |ports| :: ports[k].name in {"http2", "h2c"})
      && (picked.https <==> exists k | 0 <= k < |ports| :: ports[k].name == "https" && ports[k].port == split.portNumber)
  {
    if ports != [] {
      var init, last := ports[..|ports| - 1], ports[|ports| - 1];
      LastMatchingPortWins(init, split);
      assert forall k | 0 <= k < |init| :: init[k] == ports[k];
      if PortMatches(last, split) {
        assert LastMatch(ports, split, |ports| - 1);
      } else if k :| 0 <= k < |init| && LastMatch(init, split, k) && PickPorts(init, split).target == init[k].targetPort {
        assert LastMatch(ports, split, k);
      }
    }
  }

  predicate LastMatch(ports: seq<ServicePort>, split: Split, k: nat)
    requires k < |ports|
  {
    PortMatches(ports[k], split) && forall j | k < j < |ports| :: !PortMatches(ports[j], split)
  }

  /** What a split needs: a trackable service with endpoints, some of them ready, all placed on nodes, and a CA where TLS is due. */
  predicate Usable(cfg: Settings, ing: Ingress, world: World, w: Work) {
    && w.split.service !in world.untrackable && Get(world.services, w.split.service).Found? && !ServiceOf(world, w.split).externalName
    && Get(world.endpoints, w.split.service).Found?
    && Flatten(EndpointsOf(world, w.split.service)) != [] && Placed(Flatten(EndpointsOf(world, w.split.service)))
    && (NeedsTLS(cfg, ing, world, w) ==> world.routingSecret.Found?)
  }

  lemma SplitDoneIff(cfg: Settings, ing: Ingress, world: World, w: Work)
    requires |cfg.regions| > 0
    ensures SplitOutcome(cfg, ing, world, w).Done? <==> Usable(cfg, ing, world, w)
  {
  }

  lemma {:induction false} WorkDoneIff(cfg: Settings, ing: Ingress, world: World, work: seq<Work>)
    requires |cfg.regions| > 0
    ensures WorkOutcome(cfg, ing, world, work).Done? <==> forall w | w in work :: Usable(cfg, ing, world, w)
  {
    if work != [] {
      var init, last := work[..|work| - 1], work[|work| - 1];
      assert work == init + [last];
      WorkDoneIff(cfg, ing, world, init);
      SplitDoneIff(cfg, ing, world, last);
    }
  }

  predicate ValidCertificate(world: World, tls: IngressTLS) {
    tls.secret !in world.untrackable && Get(world.secrets, tls.secret).Found? && Get(world.secrets, tls.secret).value.validPair
  }

  lemma {:induction false} CertsDoneIff(world: World, tls: seq<IngressTLS>)
    ensures CertOutcome(world, tls).Done? <==> forall k | 0 <= k < |tls| :: ValidCertificate(world, tls[k])
  {
    if tls != [] {
      var init := tls[..|tls| - 1];
      CertsDoneIff(world, init);
      assert forall k | 0 <= k < |init| :: init[k] == tls[k];
    }
  }

  predicate SplitsUsable(cfg: Settings, ing: Ingress, world: World, path: HTTPPath) {
    forall s | 0 <= s < |path.splits| :: Usable(cfg, ing, world, Work(path, path.splits[s]))
  }

  predicate PathsUsable(cfg: Settings, ing: Ingress, world: World, rule: Rule) {
    forall p | 0 <= p < |rule.paths| :: SplitsUsable(cfg, ing, world, rule.paths[p])
  }

  lemma WorkComesFromSplit(ing: Ingress, w: Work) returns (r: nat, p: nat, s: nat)
    requires w in RulesWork(ing.rules)
    ensures r < |ing.rules| && p < |ing.rules[r].paths| && s < |ing.rules[r].paths[p].splits|
    ensures var path := ing.rules[r].paths[p]; w == Work(path, path.splits[s])
  {
    RulesWorkMembers(ing.rules, w);
    r :| 0 <= r < |ing.rules| && w in PathsWork(ing.rules[r].paths);
    var paths := ing.rules[r].paths;
    PathsWorkMembers(paths, w);
    p :| 0 <= p < |paths| && w in PathWork(paths[p], paths[p].splits);
    s :| 0 <= s < |paths[p].splits| && PathWork(paths[p], paths[p].splits)[s] == w;
  }

  lemma WorkIsAdmitted(ing: Ingress, w: Work)
    requires Admitted(ing) && w in RulesWork(ing.rules)
    ensures PlainName(w.split.service)
  {
    var r, p, s := WorkComesFromSplit(ing, w);
    assert AdmittedRule(ing.rules[r]);
    assert PlainName(ing.rules[r].paths[p].splits[s].service);
  }

  lemma AllWorkUsableIff(cfg: Settings, ing: Ingress, world: World)
    ensures (forall w | w in RulesWork(ing.rules) :: Usable(cfg, ing, world, w)) <==>
      forall r | 0 <= r < |ing.rules| :: PathsUsable(cfg, ing, world, ing.rules[r])
  {
    if forall w | w in RulesWork(ing.rules) :: Usable(cfg, ing, world, w) {
      forall r, p, s | 0 <= r < |ing.rules| && 0 <= p < |ing.rules[r].paths| && 0 <= s < |ing.rules[r].paths[p].splits|
        ensures Usable(cfg, ing, world, Work(ing.rules[r].paths[p], ing.rules[r].paths[p].splits[s]))
      {
        EverySplitIsWork(ing, r, p, s);
      }
    }
    if forall r | 0 <= r < |ing.rules| :: PathsUsable(cfg, ing, world, ing.rules[r]) {
      forall w | w in RulesWork(ing.rules) ensures Usable(cfg, ing, world, w) {
        var r, p, s := WorkComesFromSplit(ing, w);
        assert PathsUsable(cfg, ing, world, ing.rules[r]) && SplitsUsable(cfg, ing, world, ing.rules[r].paths[p]);
      }
    }
  }

  /** An ingress is translated exactly when every certificate is valid and every split of every path is usable. */
  lemma TranslatesIff(cfg: Settings, ing: Ingress, world: World)
    requires |cfg.regions| > 0
    ensures Translate(cfg, ing, world).Done? <==>
      && (forall k | 0 <= k < |ing.tls| :: ValidCertificate(world, ing.tls[k]))
      && (forall r | 0 <= r < |ing.rules| :: PathsUsable(cfg, ing, world, ing.rules[r]))
  {
    CertsDoneIff(world, ing.tls);
    WorkDoneIff(cfg, ing, world, RulesWork(ing.rules));
    AllWorkUsableIff(cfg, ing, world);
  }

  // ---- Clusters ----

  predicate Emits(cfg: Settings, ing: Ingress, world: World, w: Work, c: Cluster) {
    exists i | 0 <= i < |cfg.regions| :: c == SplitCluster(cfg, ing, world, w, cfg.regions[i])
  }

  lemma SplitEmits(cfg: Settings, ing: Ingress, world: World, w: Work, c: Cluster)
    ensures c in SplitClusters(cfg, ing, world, w) <==> Emits(cfg, ing, world, w, c)
  {
    var more := SplitClusters(cfg, ing, world, w);
    if Emits(cfg, ing, world, w, c) {
      var i :| 0 <= i < |cfg.regions| && c == SplitCluster(cfg, ing, world, w, cfg.regions[i]);
      assert more[i] == c;
    }
  }

  /** The clusters are exactly one per translated split and region. */
  lemma {:induction false} WorkClusters(cfg: Settings, ing: Ingress, world: World, work: seq<Work>, c: Cluster)
    requires WorkOutcome(cfg, ing, world, work).Done?
    ensures c in WorkOutcome(cfg, ing, world, work).value <==> exists w | w in work :: Emits(cfg, ing, world, w, c)
  {
    if work != [] {
      var init, last := work[..|work| - 1], work[|work| - 1];
      assert work == init + [last];
      WorkClusters(cfg, ing, world, init, c);
      SplitEmits(cfg, ing, world, last, c);
      assert SplitOutcome(cfg, ing, world, last) == Done(SplitClusters(cfg, ing, world, last));
      if w :| w in work && Emits(cfg, ing, world, w, c) {
        assert w in init || w == last;
      }
    }
  }

  /** `c` carries region `i`'s suffix and only addresses that `world` had ready on region `i`'s node. */
  ghost predicate LocalTo(cfg: Settings, world: World, service: Name, i: nat, c: Cluster)
    requires i < |cfg.regions|
  {
    && PlainName(service)
    && c.name == ClusterName(service, cfg.regions[i])
    && (forall e | e in c.endpoints :: Address(e.ip, Some(cfg.regions[i].node)) in Flatten(EndpointsOf(world, service)))
  }

  ghost predicate Local(cfg: Settings, worlds: seq<World>, c: Cluster) {
    exists world, service, i: nat | world in worlds && i < |cfg.regions| :: LocalTo(cfg, world, service, i, c)
  }

  lemma SplitClusterIsLocal(cfg: Settings, ing: Ingress, world: World, w: Work, i: nat)
    requires i < |cfg.regions| && PlainName(w.split.service)
    ensures LocalTo(cfg, world, w.split.service, i, SplitCluster(cfg, ing, world, w, cfg.regions[i]))
  {
    var c := SplitCluster(cfg, ing, world, w, cfg.regions[i]);
    forall e | e in c.endpoints ensures Address(e.ip, Some(cfg.regions[i].node)) in Flatten(EndpointsOf(world, w.split.service)) {
      BucketMembers(Flatten(EndpointsOf(world, w.split.service)), cfg.regions[i].node,
                    ToUint32(SplitPorts(ing, world, w).target), e);
    }
  }

  lemma PlainClusterName(service: Name, region: Region)
    requires PlainName(service) && Plain(region.name)
    ensures ':' !in ClusterName(service, region)
  {
  }

  // ---- Translations ----

  ghost predicate IsTranslation(cfg: Settings, ing: Ingress, world: World, t: Translated) {
    && ValidRegions(cfg.regions) && Admitted(ing)
    && Translate(cfg, ing, world) == Done(t)
  }

  lemma ClustersAreLocal(cfg: Settings, ing: Ingress, world: World, t: Translated, c: Cluster)
    requires IsTranslation(cfg, ing, world, t) && c in t.clusters
    ensures Local(cfg, [world], c) && ':' !in c.name
  {
    WorkClusters(cfg, ing, world, RulesWork(ing.rules), c);
    var w :| w in RulesWork(ing.rules) && Emits(cfg, ing, world, w, c);
    var i :| 0 <= i < |cfg.regions| && c == SplitCluster(cfg, ing, world, w, cfg.regions[i]);
    WorkIsAdmitted(ing, w);
    SplitClusterIsLocal(cfg, ing, world, w, i);
    PlainClusterName(w.split.service, cfg.regions[i]);
    assert world in [world];
  }

  /** Every cluster a path entry's weights name in any region is among the translation's clusters. */
  lemma WeightsAreCovered(cfg: Settings, ing: Ingress, world: World, t: Translated, r: nat, p: nat, i: nat, w: ClusterWeight)
    requires IsTranslation(cfg, ing, world, t)
    requires r < |ing.rules| && p < |ing.rules[r].paths| && i < |cfg.regions|
    requires w in Weights(ing.rules[r].paths[p].splits, cfg.regions[i])
    ensures exists c | c in t.clusters :: c.name == w.name
  {
    var path := ing.rules[r].paths[p];
    var s :| 0 <= s < |path.splits| && Weights(path.splits, cfg.regions[i])[s] == w;
    EverySplitIsWork(ing, r, p, s);
    var work := Work(path, path.splits[s]);
    var c := SplitCluster(cfg, ing, world, work, cfg.regions[i]);
    WorkClusters(cfg, ing, world, RulesWork(ing.rules), c);
    assert Emits(cfg, ing, world, work, c);
    assert c in t.clusters && c.name == w.name;
  }

  lemma TranslationShape(cfg: Settings, ing: Ingress, world: World, t: Translated)
    requires IsTranslation(cfg, ing, world, t)
    ensures t.name == ing.name && Shaped(cfg, t)
    ensures forall i | 0 <= i < |cfg.regions| :: t.internal[i] == InternalHosts(cfg, ing, |ing.rules|, i)
    ensures forall i | 0 <= i < |cfg.regions| :: t.externalTLS[i] == ExternalTLSHosts(cfg, ing, |ing.rules|)
  {
  }

  /** The domains of an ingress: every host, bare and with a port wildcard. */
  function SpecDomains(ing: Ingress): set<string> {
    set r, d | 0 <= r < |ing.rules| && d in Domains(ing.rules[r].hosts) :: d
  }

  /** All regions list the same domains, namely the ingress's. */
  lemma TranslationIsUniform(cfg: Settings, ing: Ingress, world: World, t: Translated)
    requires IsTranslation(cfg, ing, world, t)
    ensures Uniform(t) && DomainsOf(t) == SpecDomains(ing)
  {
    TranslationShape(cfg, ing, world, t);
    forall i | 0 <= i < |cfg.regions| ensures HostDomains(t.internal[i]) == SpecDomains(ing) {
      var hosts := t.internal[i];
      assert forall r | 0 <= r < |hosts| :: hosts[r].domains == Domains(ing.rules[r].hosts);
    }
    UniformDomains(cfg, t);
  }

  lemma SharedDomainIsSharedHost(a: Ingress, b: Ingress)
    requires Admitted(a) && Admitted(b)
    ensures (exists d | d in SpecDomains(a) :: d in SpecDomains(b)) <==> ShareHost(a, b)
  {
    if d :| d in SpecDomains(a) && d in SpecDomains(b) {
      var r :| 0 <= r < |a.rules| && d in Domains(a.rules[r].hosts);
      var s :| 0 <= s < |b.rules| && d in Domains(b.rules[s].hosts);
      assert AdmittedRule(a.rules[r]) && AdmittedRule(b.rules[s]);
      assert Common(Domains(a.rules[r].hosts), Domains(b.rules[s].hosts));
      DomainsOverlapIffHostsDo(a.rules[r].hosts, b.rules[s].hosts);
    }
    if ShareHost(a, b) {
      var r, s :| 0 <= r < |a.rules| && 0 <= s < |b.rules| && Common(a.rules[r].hosts, b.rules[s].hosts);
      assert AdmittedRule(a.rules[r]) && AdmittedRule(b.rules[s]);
      DomainsOverlapIffHostsDo(a.rules[r].hosts, b.rules[s].hosts);
      var d :| d in Domains(a.rules[r].hosts) && d in Domains(b.rules[s].hosts);
      assert d in SpecDomains(a) && d in SpecDomains(b);
    }
  }

  /** Translations overlap exactly when the ingresses share a host. */
  lemma OverlapIsSharedHost(cfg: Settings, a: Ingress, wa: World, ta: Translated, b: Ingress, wb: World, tb: Translated)
    requires IsTranslation(cfg, a, wa, ta) && IsTranslation(cfg, b, wb, tb)
    ensures Overlap(ta, tb) <==> ShareHost(a, b)
  {
    TranslationIsUniform(cfg, a, wa, ta);
    TranslationIsUniform(cfg, b, wb, tb);
    SharedDomainIsSharedHost(a, b);
  }

  // ---- TLS ----

  lemma {:induction false} CertsPerBlock(world: World, tls: seq<IngressTLS>)
    requires CertOutcome(world, tls).Done?
    ensures |CertOutcome(world, tls).value| == |tls|
  {
    if tls != [] {
      CertsPerBlock(world, tls[..|tls| - 1]);
    }
  }

  lemma {:induction false} NoTLSNoHosts(cfg: Settings, ing: Ingress, k: nat)
    requires |cfg.regions| > 0 && !UsesTLS(cfg, ing) && k <= |ing.rules|
    ensures ExternalTLSHosts(cfg, ing, k) == []
  {
    if k > 0 {
      NoTLSNoHosts(cfg, ing, k - 1);
    }
  }

  /** A translation has SNI matches exactly when the ingress has TLS blocks. */
  lemma SNIsPerTLS(cfg: Settings, ing: Ingress, world: World, t: Translated)
    requires IsTranslation(cfg, ing, world, t)
    ensures |t.snis| == |ing.tls|
  {
    CertsPerBlock(world, ing.tls);
  }

  /** External hosts come from externally visible rules only. */
  lemma {:induction false} ExternalTLSHostsAreExternal(cfg: Settings, ing: Ingress, k: nat, vh: VirtualHost)
    requires |cfg.regions| > 0 && k <= |ing.rules| && vh in ExternalTLSHosts(cfg, ing, k)
    ensures exists r | 0 <= r < k :: ing.rules[r].visibility == ExternalIP && TLSHost(cfg, ing, r) == Some(vh)
  {
    if vh in ExternalTLSHosts(cfg, ing, k - 1) {
      ExternalTLSHostsAreExternal(cfg, ing, k - 1, vh);
    } else {
      assert ing.rules[k - 1].visibility == ExternalIP && TLSHost(cfg, ing, k - 1) == Some(vh);
    }
  }
}
