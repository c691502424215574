/** Cluster names leave out the port: when a split is served with the port, protocol and TLS it asks for. */
module SplitSettings {
  import opened Text
  import opened Kube
  import opened Envoy
  import opened EndpointBuckets
  import opened Translator
  import opened TranslationFacts
  import opened ClusterCaching
  import opened Protocol
  import opened Registry
  import opened StoreInvariants
  import opened Guarantees
  import opened RunTheorems

  // ---- The last cluster of a name wins ----

  /** Every cluster is kept under its key exactly when no two of the same name differ. */
  lemma AllKeptIff(owner: Name, clusters: seq<Cluster>)
    ensures (forall c | c in clusters :: Kept(owner, clusters, c))
       <==> (forall c, d | c in clusters && d in clusters && c.name == d.name :: c == d)
  {
    var p := Permanents(owner, clusters);
    PermanentsAre(owner, clusters);
    forall c | c in clusters ensures Key(c.name, owner) in p && p[Key(c.name, owner)].cluster in clusters
      && p[Key(c.name, owner)].cluster.name == c.name
    {
      assert Key(c.name, owner) in ClusterKeys(owner, clusters);
      SameOwnerKey(p[Key(c.name, owner)].cluster.name, c.name, owner);
    }
  }

  /** Setting `clusters` in order leaves `c` under its key. */
  predicate Kept(owner: Name, clusters: seq<Cluster>, c: Cluster) {
    Key(c.name, owner) in Permanents(owner, clusters) && Permanents(owner, clusters)[Key(c.name, owner)].cluster == c
  }

  // ---- Splits of one service ----

  /** In `region` the two splits ask for the same: protocol, TLS, and the port unless no address is ready there. */
  predicate AskAlike(cfg: Settings, ing: Ingress, world: World, v: Work, w: Work, region: Region) {
    && SplitPorts(ing, world, v).http2 == SplitPorts(ing, world, w).http2
    && SplitTLS(cfg, ing, world, v) == SplitTLS(cfg, ing, world, w)
    && (ToUint32(SplitPorts(ing, world, v).target) == ToUint32(SplitPorts(ing, world, w).target)
        || Positions(Flatten(EndpointsOf(world, w.split.service)), region.node) == [])
  }

  lemma BucketPort(addresses: seq<Address>, node: string, p: nat, q: nat)
    ensures Bucket(addresses, node, p) == Bucket(addresses, node, q) <==> p == q || Positions(addresses, node) == []
  {
    BucketLength(addresses, node, p);
    BucketLength(addresses, node, q);
    if Positions(addresses, node) != [] {
      BucketValueAt(addresses, node, p, 0);
      BucketValueAt(addresses, node, q, 0);
    }
  }

  lemma SameClusterIff(cfg: Settings, ing: Ingress, world: World, v: Work, w: Work, region: Region)
    requires v.split.service == w.split.service
    ensures SplitCluster(cfg, ing, world, v, region) == SplitCluster(cfg, ing, world, w, region) <==> AskAlike(cfg, ing, world, v, w, region)
  {
    BucketPort(Flatten(EndpointsOf(world, w.split.service)), region.node,
               ToUint32(SplitPorts(ing, world, v).target), ToUint32(SplitPorts(ing, world, w).target));
  }

  /** No two splits of one service ask for different settings in any region. */
  predicate NoClash(cfg: Settings, ing: Ingress, world: World) {
    forall v, w | v in RulesWork(ing.rules) && w in RulesWork(ing.rules) && v.split.service == w.split.service ::
      AlikeEverywhere(cfg, ing, world, v, w)
  }

  predicate AlikeEverywhere(cfg: Settings, ing: Ingress, world: World, v: Work, w: Work) {
    forall i | 0 <= i < |cfg.regions| :: AskAlike(cfg, ing, world, v, w, cfg.regions[i])
  }

  /** Two clusters of one name in a translation come from one service and one region. */
  lemma SameNameSameService(cfg: Settings, ing: Ingress, v: Work, i: nat, w: Work, k: nat)
    requires ValidRegions(cfg.regions) && Admitted(ing) && v in RulesWork(ing.rules) && w in RulesWork(ing.rules)
    requires i < |cfg.regions| && k < |cfg.regions|
    requires ClusterName(v.split.service, cfg.regions[i]) == ClusterName(w.split.service, cfg.regions[k])
    ensures v.split.service == w.split.service && i == k
  {
    WorkIsAdmitted(ing, v);
    WorkIsAdmitted(ing, w);
    LocalNameFixesRegion(cfg, v.split.service, i, w.split.service, k);
  }

  lemma EmittedBy(cfg: Settings, ing: Ingress, world: World, t: Translated, c: Cluster) returns (w: Work, i: nat)
    requires IsTranslation(cfg, ing, world, t) && c in t.clusters
    ensures w in RulesWork(ing.rules) && i < |cfg.regions| && c == SplitCluster(cfg, ing, world, w, cfg.regions[i])
  {
    WorkClusters(cfg, ing, world, RulesWork(ing.rules), c);
    w :| w in RulesWork(ing.rules) && Emits(cfg, ing, world, w, c);
    i :| 0 <= i < |cfg.regions| && c == SplitCluster(cfg, ing, world, w, cfg.regions[i]);
  }

  lemma Emitted(cfg: Settings, ing: Ingress, world: World, t: Translated, w: Work, i: nat)
    requires IsTranslation(cfg, ing, world, t) && w in RulesWork(ing.rules) && i < |cfg.regions|
    ensures SplitCluster(cfg, ing, world, w, cfg.regions[i]) in t.clusters
  {
    var c := SplitCluster(cfg, ing, world, w, cfg.regions[i]);
    WorkClusters(cfg, ing, world, RulesWork(ing.rules), c);
    assert Emits(cfg, ing, world, w, c);
  }

  /** A translation has no two different clusters of one name exactly when no splits clash. */
  lemma UnambiguousIff(cfg: Settings, ing: Ingress, world: World, t: Translated)
    requires IsTranslation(cfg, ing, world, t)
    ensures (forall c, d | c in t.clusters && d in t.clusters && c.name == d.name :: c == d) <==> NoClash(cfg, ing, world)
  {
    if forall c, d | c in t.clusters && d in t.clusters && c.name == d.name :: c == d {
      forall v, w, i | v in RulesWork(ing.rules) && w in RulesWork(ing.rules) && v.split.service == w.split.service && 0 <= i < |cfg.regions|
        ensures AskAlike(cfg, ing, world, v, w, cfg.regions[i])
      {
        Emitted(cfg, ing, world, t, v, i);
        Emitted(cfg, ing, world, t, w, i);
        SameClusterIff(cfg, ing, world, v, w, cfg.regions[i]);
      }
    }
    if NoClash(cfg, ing, world) {
      forall c, d | c in t.clusters && d in t.clusters && c.name == d.name ensures c == d {
        var v, i := EmittedBy(cfg, ing, world, t, c);
        var w, k := EmittedBy(cfg, ing, world, t, d);
        SameNameSameService(cfg, ing, v, i, w, k);
        assert AlikeEverywhere(cfg, ing, world, v, w);
        SameClusterIff(cfg, ing, world, v, w, cfg.regions[i]);
      }
    }
  }

  // ---- What a snapshot serves ----

  /** The snapshot lists, under the ingress's own key, exactly the cluster the split asks for in region `i`. */
  predicate ServedAsAsked(cfg: Settings, ing: Ingress, world: World, listed: map<string, Cluster>, w: Work, i: nat)
    requires i < |cfg.regions|
  {
    var c := SplitCluster(cfg, ing, world, w, cfg.regions[i]);
    Key(c.name, ing.name) in listed && listed[Key(c.name, ing.name)] == c
  }

  predicate AllServedAsAsked(cfg: Settings, ing: Ingress, world: World, listed: map<string, Cluster>) {
    forall w, i | w in RulesWork(ing.rules) && 0 <= i < |cfg.regions| :: ServedAsAsked(cfg, ing, world, listed, w, i)
  }

  lemma ListedIsKept(store: Store, now: nat, n: Name, clusters: seq<Cluster>, c: Cluster)
    requires Holds(store, n, clusters) && c in clusters
    ensures Kept(n, clusters, c) <==> Key(c.name, n) in Items(store, now) && Items(store, now)[Key(c.name, n)] == c
  {
    PermanentsAre(n, clusters);
    assert Key(c.name, n) in ClusterKeys(n, clusters);
  }

  lemma HeldAsAskedIff(cfg: Settings, ing: Ingress, world: World, t: Translated, store: Store, now: nat)
    requires IsTranslation(cfg, ing, world, t) && Holds(store, ing.name, t.clusters)
    ensures AllServedAsAsked(cfg, ing, world, Items(store, now)) <==> NoClash(cfg, ing, world)
  {
    UnambiguousIff(cfg, ing, world, t);
    AllKeptIff(ing.name, t.clusters);
    if AllServedAsAsked(cfg, ing, world, Items(store, now)) {
      forall c | c in t.clusters ensures Kept(ing.name, t.clusters, c) {
        var w, i := EmittedBy(cfg, ing, world, t, c);
        assert ServedAsAsked(cfg, ing, world, Items(store, now), w, i);
        ListedIsKept(store, now, ing.name, t.clusters, c);
      }
    }
    if NoClash(cfg, ing, world) {
      forall w, i | w in RulesWork(ing.rules) && 0 <= i < |cfg.regions| ensures ServedAsAsked(cfg, ing, world, Items(store, now), w, i) {
        var c := SplitCluster(cfg, ing, world, w, cfg.regions[i]);
        Emitted(cfg, ing, world, t, w, i);
        ListedIsKept(store, now, ing.name, t.clusters, c);
      }
    }
  }

  lemma TakenAsAskedIff(cfg: Settings, s: System, n: Name)
    requires Inv(cfg, s) && s.phase.Listing? && n in s.origins
    ensures AllServedAsAsked(cfg, s.origins[n].ing, s.origins[n].world, Items(s.cache.store, s.now))
       <==> NoClash(cfg, s.origins[n].ing, s.origins[n].world)
  {
    var t := s.cache.installed[n];
    assert Genuine(cfg, s.worlds, Change(s.origins[n], t));
    InstalledShape(cfg, s, n);
    assert Holds(s.cache.store, n, t.clusters);
    HeldAsAskedIff(cfg, s.origins[n].ing, s.origins[n].world, t, s.cache.store, s.now);
  }

  /**
    In every snapshot, the clusters listed for an installed ingress have, for every split and region, the
    endpoints, port, protocol and TLS the split asks for, if and only if no two of its splits of one
    service ask for different ones.
   */
  lemma {:induction false} SplitsServedAsAskedIff(cfg: Settings, run: seq<Label>, j: nat, n: Name)
    requires ValidRegions(cfg.regions) && j < |Run(cfg, run).taken| && n in Run(cfg, run).taken[j].origins
    ensures var taken := Run(cfg, run).taken[j];
      AllServedAsAsked(cfg, taken.origins[n].ing, taken.origins[n].world, taken.snapshot.clusters)
      <==> NoClash(cfg, taken.origins[n].ing, taken.origins[n].world)
  {
    var p := WhenTaken(cfg, run, j);
    EveryRunKeepsInv(cfg, run[..p]);
    TakenAsAskedIff(cfg, Run(cfg, run[..p]), n);
  }

  // ---- One name, whoever lists it ----

  /** The last split of a service decides what an ingress's clusters for it are. */
  function LastOf(work: seq<Work>, service: Name): (last: Option<Work>)
    ensures last.Some? ==> last.value in work && last.value.split.service == service
    ensures last.None? ==> forall w | w in work :: w.split.service != service
  {
    if work == [] then None
    else if work[|work| - 1].split.service == service then Some(work[|work| - 1])
    else LastOf(work[..|work| - 1], service)
  }

  lemma {:induction false} PermanentsConcat(owner: Name, a: seq<Cluster>, b: seq<Cluster>)
    ensures Permanents(owner, a + b) == Permanents(owner, a) + Permanents(owner, b)
  {
    if b == [] {
      assert a + b == a;
    } else {
      assert (a + b)[..|a + b| - 1] == a + b[..|b| - 1];
      PermanentsConcat(owner, a, b[..|b| - 1]);
    }
  }

  lemma SplitPermanents(cfg: Settings, ing: Ingress, world: World, w: Work, service: Name, i: nat, owner: Name)
    requires ValidRegions(cfg.regions) && i < |cfg.regions| && PlainName(service) && PlainName(w.split.service)
    ensures var p, k := Permanents(owner, SplitClusters(cfg, ing, world, w)), Key(ClusterName(service, cfg.regions[i]), owner);
      && (k in p <==> w.split.service == service)
      && (k in p ==> p[k].cluster == SplitCluster(cfg, ing, world, w, cfg.regions[i]))
  {
    var clusters := SplitClusters(cfg, ing, world, w);
    var p, k := Permanents(owner, clusters), Key(ClusterName(service, cfg.regions[i]), owner);
    PermanentsAre(owner, clusters);
    forall c | c in clusters && Key(c.name, owner) == k
      ensures w.split.service == service && c == SplitCluster(cfg, ing, world, w, cfg.regions[i])
    {
      var m :| 0 <= m < |clusters| && clusters[m] == c;
      SameOwnerKey(c.name, ClusterName(service, cfg.regions[i]), owner);
      LocalNameFixesRegion(cfg, w.split.service, m, service, i);
    }
    if w.split.service == service {
      assert clusters[i] in clusters && Key(clusters[i].name, owner) == k;
    }
  }

  lemma {:induction false} WorkPermanents(cfg: Settings, ing: Ingress, world: World, work: seq<Work>, service: Name, i: nat, owner: Name)
    requires ValidRegions(cfg.regions) && i < |cfg.regions| && PlainName(service) && forall w | w in work :: PlainName(w.split.service)
    requires WorkOutcome(cfg, ing, world, work).Done?
    ensures var p, k := Permanents(owner, WorkOutcome(cfg, ing, world, work).value), Key(ClusterName(service, cfg.regions[i]), owner);
      && (k in p <==> LastOf(work, service).Some?)
      && (k in p ==> p[k].cluster == SplitCluster(cfg, ing, world, LastOf(work, service).value, cfg.regions[i]))
  {
    if work != [] {
      var init, last := work[..|work| - 1], work[|work| - 1];
      assert work == init + [last] && last in work;
      WorkPermanents(cfg, ing, world, init, service, i, owner);
      SplitPermanents(cfg, ing, world, last, service, i, owner);
      assert SplitOutcome(cfg, ing, world, last) == Done(SplitClusters(cfg, ing, world, last));
      PermanentsConcat(owner, WorkOutcome(cfg, ing, world, init).value, SplitClusters(cfg, ing, world, last));
    }
  }

  /** Every listed cluster of the name is the one asked for, whichever of them Envoy keeps. */
  predicate OneOfName(listed: map<string, Cluster>, c: Cluster) {
    forall key | key in listed && listed[key].name == c.name :: listed[key] == c
  }

  /** If the ingress forwards to the service at all, its last split of it asks for exactly `c` in region `i`. */
  predicate LastAsksFor(cfg: Settings, source: Source, service: Name, i: nat, c: Cluster)
    requires i < |cfg.regions|
  {
    var last := LastOf(RulesWork(source.ing.rules), service);
    last.Some? ==> SplitCluster(cfg, source.ing, source.world, last.value, cfg.regions[i]) == c
  }

  predicate AllAskFor(cfg: Settings, origins: map<Name, Source>, service: Name, i: nat, c: Cluster)
    requires i < |cfg.regions|
  {
    forall m | m in origins :: LastAsksFor(cfg, origins[m], service, i, c)
  }

  /** Every entry of the name that is only waiting to expire is `c` as well. */
  predicate ExpiringAgree(store: Store, now: nat, c: Cluster) {
    forall key | key in store && Visible(store, now, key) && !Permanent(store, key) && store[key].cluster.name == c.name :: store[key].cluster == c
  }

  lemma InstalledEntry(cfg: Settings, s: System, m: Name, service: Name, i: nat)
    requires Registered(cfg, s) && m in s.origins && i < |cfg.regions| && PlainName(service)
    ensures m in s.cache.installed
    ensures var p, k := Permanents(m, s.cache.installed[m].clusters), Key(ClusterName(service, cfg.regions[i]), m);
      var last := LastOf(RulesWork(s.origins[m].ing.rules), service);
      && (k in p <==> last.Some?)
      && (k in p ==> p[k].cluster == SplitCluster(cfg, s.origins[m].ing, s.origins[m].world, last.value, cfg.regions[i]))
  {
    var ing, world, t := s.origins[m].ing, s.origins[m].world, s.cache.installed[m];
    assert Genuine(cfg, s.worlds, Change(s.origins[m], t));
    forall w | w in RulesWork(ing.rules) ensures PlainName(w.split.service) {
      WorkIsAdmitted(ing, w);
    }
    WorkPermanents(cfg, ing, world, RulesWork(ing.rules), service, i, m);
  }

  /** A permanent entry of the name is what its owner's last split of the service asks for. */
  lemma PermanentIsAsked(cfg: Settings, s: System, key: string, service: Name, i: nat)
    requires Inv(cfg, s) && s.phase.Listing? && Permanent(s.cache.store, key)
    requires i < |cfg.regions| && PlainName(service) && s.cache.store[key].cluster.name == ClusterName(service, cfg.regions[i])
    ensures Owner(key) in s.origins && LastOf(RulesWork(s.origins[Owner(key)].ing.rules), service).Some?
    ensures var source := s.origins[Owner(key)];
      s.cache.store[key].cluster
      == SplitCluster(cfg, source.ing, source.world, LastOf(RulesWork(source.ing.rules), service).value, cfg.regions[i])
  {
    var m := Owner(key);
    PermanentsAre(m, s.cache.installed[m].clusters);
    assert Holds(s.cache.store, m, s.cache.installed[m].clusters);
    InstalledEntry(cfg, s, m, service, i);
  }

  /** What an installed ingress's last split of the service asks for is listed. */
  lemma AskedIsListed(cfg: Settings, s: System, m: Name, service: Name, i: nat)
    requires Inv(cfg, s) && s.phase.Listing? && m in s.origins && i < |cfg.regions| && PlainName(service)
    requires LastOf(RulesWork(s.origins[m].ing.rules), service).Some?
    ensures var k := Key(ClusterName(service, cfg.regions[i]), m);
      k in Items(s.cache.store, s.now) && Items(s.cache.store, s.now)[k]
        == SplitCluster(cfg, s.origins[m].ing, s.origins[m].world, LastOf(RulesWork(s.origins[m].ing.rules), service).value, cfg.regions[i])
  {
    InstalledEntry(cfg, s, m, service, i);
    PermanentsAre(m, s.cache.installed[m].clusters);
    assert Holds(s.cache.store, m, s.cache.installed[m].clusters);
  }

  lemma ListedAgree(store: Store, now: nat, c: Cluster)
    requires OneOfName(Items(store, now), c)
    ensures ExpiringAgree(store, now, c)
  {
    forall key | key in store && Visible(store, now, key) && store[key].cluster.name == c.name ensures store[key].cluster == c {
      assert key in Items(store, now) && Items(store, now)[key] == store[key].cluster;
    }
  }

  lemma ListedAskFor(cfg: Settings, s: System, m: Name, service: Name, i: nat, c: Cluster)
    requires Inv(cfg, s) && s.phase.Listing? && m in s.origins
    requires i < |cfg.regions| && PlainName(service) && c.name == ClusterName(service, cfg.regions[i])
    requires OneOfName(Items(s.cache.store, s.now), c)
    ensures LastAsksFor(cfg, s.origins[m], service, i, c)
  {
    if LastOf(RulesWork(s.origins[m].ing.rules), service).Some? {
      AskedIsListed(cfg, s, m, service, i);
    }
  }

  lemma AgreedEntry(cfg: Settings, s: System, key: string, service: Name, i: nat, c: Cluster)
    requires Inv(cfg, s) && s.phase.Listing?
    requires i < |cfg.regions| && PlainName(service) && c.name == ClusterName(service, cfg.regions[i])
    requires AllAskFor(cfg, s.origins, service, i, c) && ExpiringAgree(s.cache.store, s.now, c)
    requires key in s.cache.store && Visible(s.cache.store, s.now, key) && s.cache.store[key].cluster.name == c.name
    ensures s.cache.store[key].cluster == c
  {
    if Permanent(s.cache.store, key) {
      PermanentIsAsked(cfg, s, key, service, i);
      assert LastAsksFor(cfg, s.origins[Owner(key)], service, i, c);
    }
  }

  /** Every readable entry of `c`'s name is `c`. */
  predicate ReadableAgree(store: Store, now: nat, c: Cluster) {
    forall key | key in store && Visible(store, now, key) && store[key].cluster.name == c.name :: store[key].cluster == c
  }

  lemma ReadableIsListed(store: Store, now: nat, c: Cluster)
    requires ReadableAgree(store, now, c)
    ensures OneOfName(Items(store, now), c)
  {
  }

  lemma OneOfNameIff(cfg: Settings, s: System, service: Name, i: nat, c: Cluster)
    requires Inv(cfg, s) && s.phase.Listing?
    requires i < |cfg.regions| && PlainName(service) && c.name == ClusterName(service, cfg.regions[i])
    ensures OneOfName(Items(s.cache.store, s.now), c)
       <==> AllAskFor(cfg, s.origins, service, i, c) && ExpiringAgree(s.cache.store, s.now, c)
  {
    if OneOfName(Items(s.cache.store, s.now), c) {
      ListedAgree(s.cache.store, s.now, c);
      forall m | m in s.origins ensures LastAsksFor(cfg, s.origins[m], service, i, c) {
        ListedAskFor(cfg, s, m, service, i, c);
      }
    } else if AllAskFor(cfg, s.origins, service, i, c) && ExpiringAgree(s.cache.store, s.now, c) {
      AgreedAreListed(cfg, s, service, i, c);
    }
  }

  lemma AgreedAreListed(cfg: Settings, s: System, service: Name, i: nat, c: Cluster)
    requires Inv(cfg, s) && s.phase.Listing?
    requires i < |cfg.regions| && PlainName(service) && c.name == ClusterName(service, cfg.regions[i])
    requires AllAskFor(cfg, s.origins, service, i, c) && ExpiringAgree(s.cache.store, s.now, c)
    ensures OneOfName(Items(s.cache.store, s.now), c)
  {
    forall key | key in s.cache.store && Visible(s.cache.store, s.now, key) && s.cache.store[key].cluster.name == c.name
      ensures s.cache.store[key].cluster == c
    {
      AgreedEntry(cfg, s, key, service, i, c);
    }
    ReadableIsListed(s.cache.store, s.now, c);
  }

  /**
    In every snapshot, a service's cluster in a region is `c` whichever listed cluster of that name Envoy
    keeps, if and only if the last split of the service in every installed ingress asks for `c`, and so did
    every entry of the name that is still waiting to expire.
   */
  lemma {:induction false} NameServedAsAskedIff(cfg: Settings, run: seq<Label>, j: nat, service: Name, i: nat, c: Cluster)
    requires ValidRegions(cfg.regions) && j < |Run(cfg, run).taken| && i < |cfg.regions|
    requires PlainName(service) && c.name == ClusterName(service, cfg.regions[i])
    ensures var taken := Run(cfg, run).taken[j];
      OneOfName(taken.snapshot.clusters, c)
      <==> AllAskFor(cfg, taken.origins, service, i, c) && ExpiringAgree(taken.cache.store, taken.at, c)
  {
    var p := WhenTaken(cfg, run, j);
    EveryRunKeepsInv(cfg, run[..p]);
    OneOfNameIff(cfg, Run(cfg, run[..p]), service, i, c);
  }
}
