/** The control plane's cache: installed ingresses, the index of domains in use and the cluster cache. */
module Caching {
  import opened Text
  import opened Kube
  import opened Envoy
  import opened Translator
  import opened Routing
  import opened ClusterCaching
  import opened SourcePrefixes

  datatype CacheState = CacheState(installed: map<Name, Translated>, domains: set<string>, store: Store)

  const EMPTY := CacheState(map[], {}, map[])

  // ---- Domains of a translation ----

  function HostDomains(hosts: seq<VirtualHost>): set<string> {
    set h, d | 0 <= h < |hosts| && d in hosts[h].domains :: d
  }

  /** The internal domains of a translation, over all regions. */
  function DomainsOf(t: Translated): set<string> {
    set i, d | 0 <= i < |t.internal| && d in HostDomains(t.internal[i]) :: d
  }

  /** Translations carry one host list per region. */
  predicate Shaped(cfg: Settings, t: Translated) {
    |t.internal| == |t.external| == |t.externalTLS| == |cfg.regions|
  }

  predicate ShapedState(cfg: Settings, c: CacheState) {
    forall n | n in c.installed :: Shaped(cfg, c.installed[n])
  }

  // ---- The operations as functions of the state ----

  /** Removing an ingress at `now`: its clusters start expiring and region 0's domains leave the index. */
  function Remove(cfg: Settings, c: CacheState, now: nat, n: Name): CacheState
    requires ShapedState(cfg, c) && |cfg.regions| > 0
  {
    if n in c.installed then
      var t := c.installed[n];
      CacheState(c.installed - {n}, c.domains - HostDomains(t.internal[0]), Drop(c.store, now, ClusterKeys(n, t.clusters)))
    else c
  }

  predicate Conflicts(c: CacheState, t: Translated) {
    exists d | d in DomainsOf(t) :: d in c.domains
  }

  /** Adding a translation, unless one of its domains is taken. */
  function Add(c: CacheState, t: Translated): CacheState {
    if Conflicts(c, t) then c
    else CacheState(c.installed[t.name := t], c.domains + DomainsOf(t), c.store + Permanents(t.name, t.clusters))
  }

  function Update(cfg: Settings, c: CacheState, now: nat, t: Translated): CacheState
    requires ShapedState(cfg, c) && |cfg.regions| > 0
  {
    Add(Remove(cfg, c, now, t.name), t)
  }

  predicate Rejected(cfg: Settings, c: CacheState, now: nat, t: Translated)
    requires ShapedState(cfg, c) && |cfg.regions| > 0
  {
    Conflicts(Remove(cfg, c, now, t.name), t)
  }

  // ---- Index agreement ----

  function AllDomains(installed: map<Name, Translated>): set<string> {
    set n, d | n in installed && d in DomainsOf(installed[n]) :: d
  }

  /** Every region of a translation lists the same domains. */
  predicate Uniform(t: Translated) {
    forall i | 0 <= i < |t.internal| :: HostDomains(t.internal[i]) == HostDomains(t.internal[0])
  }

  predicate Overlap(a: Translated, b: Translated) {
    exists d | d in DomainsOf(a) :: d in DomainsOf(b)
  }

  /** The index is exactly the installed ingresses' domains, and no domain belongs to two of them. */
  ghost predicate IndexAgrees(cfg: Settings, c: CacheState) {
    Indexed(cfg, c.installed, c.domains)
  }

  ghost predicate Indexed(cfg: Settings, installed: map<Name, Translated>, domains: set<string>) {
    && (forall n | n in installed :: Shaped(cfg, installed[n]) && installed[n].name == n && Uniform(installed[n]))
    && domains == AllDomains(installed)
    && (forall m, n | m in installed && n in installed && m != n :: !Overlap(installed[m], installed[n]))
  }

  lemma UniformDomains(cfg: Settings, t: Translated)
    requires Shaped(cfg, t) && |cfg.regions| > 0 && Uniform(t)
    ensures DomainsOf(t) == HostDomains(t.internal[0])
  {
  }

  /** Visiting region 0 alone is enough to clean the index. */
  lemma RemoveKeepsIndex(cfg: Settings, c: CacheState, now: nat, n: Name)
    requires IndexAgrees(cfg, c) && |cfg.regions| > 0
    ensures IndexAgrees(cfg, Remove(cfg, c, now, n))
  {
    if n in c.installed {
      var c' := Remove(cfg, c, now, n);
      UniformDomains(cfg, c.installed[n]);
      forall d ensures d in c'.domains <==> d in AllDomains(c'.installed) {
        if d in c'.domains {
          var m :| m in c.installed && d in DomainsOf(c.installed[m]);
          assert m in c'.installed && c'.installed[m] == c.installed[m];
        }
        if d in AllDomains(c'.installed) {
          var m :| m in c'.installed && d in DomainsOf(c'.installed[m]);
          assert c'.installed[m] == c.installed[m] && d in AllDomains(c.installed);
          assert d !in DomainsOf(c.installed[n]);
        }
      }
    }
  }

  /** A domain of `t` is taken exactly when some installed ingress holds it. */
  lemma ConflictHasHolder(cfg: Settings, c: CacheState, t: Translated)
    requires IndexAgrees(cfg, c)
    ensures Conflicts(c, t) <==> exists m | m in c.installed :: Overlap(c.installed[m], t)
  {
    if Conflicts(c, t) {
      var d :| d in DomainsOf(t) && d in c.domains;
      var m :| m in c.installed && d in DomainsOf(c.installed[m]);
      assert Overlap(c.installed[m], t);
    }
    if m :| m in c.installed && Overlap(c.installed[m], t) {
      var d :| d in DomainsOf(c.installed[m]) && d in DomainsOf(t);
      assert d in AllDomains(c.installed);
    }
  }

  /** The reported conflict is exactly a domain held by another installed ingress. */
  lemma ConflictIsExact(cfg: Settings, c: CacheState, now: nat, t: Translated)
    requires IndexAgrees(cfg, c) && |cfg.regions| > 0
    ensures Rejected(cfg, c, now, t) <==> exists m | m in c.installed :: m != t.name && Overlap(c.installed[m], t)
  {
    RemoveKeepsIndex(cfg, c, now, t.name);
    var c' := Remove(cfg, c, now, t.name);
    ConflictHasHolder(cfg, c', t);
    assert forall m | m in c.installed && m != t.name :: m in c'.installed && c'.installed[m] == c.installed[m];
  }

  lemma UpdateKeepsIndex(cfg: Settings, c: CacheState, now: nat, t: Translated)
    requires IndexAgrees(cfg, c) && |cfg.regions| > 0 && Shaped(cfg, t) && Uniform(t)
    ensures IndexAgrees(cfg, Update(cfg, c, now, t))
  {
    RemoveKeepsIndex(cfg, c, now, t.name);
    AddKeepsIndex(cfg, Remove(cfg, c, now, t.name), t);
  }

  lemma AddKeepsIndex(cfg: Settings, c: CacheState, t: Translated)
    requires IndexAgrees(cfg, c) && |cfg.regions| > 0 && Shaped(cfg, t) && Uniform(t) && t.name !in c.installed
    ensures IndexAgrees(cfg, Add(c, t))
  {
    if !Conflicts(c, t) {
      var c' := Add(c, t);
      forall d ensures d in c'.domains <==> d in AllDomains(c'.installed) {
        if d in c'.domains {
          if d in c.domains {
            var m :| m in c.installed && d in DomainsOf(c.installed[m]);
            assert c'.installed[m] == c.installed[m];
          } else {
            assert d in DomainsOf(c'.installed[t.name]);
          }
        }
      }
      ConflictHasHolder(cfg, c, t);
      forall m | m in c.installed ensures !Overlap(t, c.installed[m]) {
        assert !Overlap(c.installed[m], t);
      }
    }
  }

  /** A rejected update is a deletion: nothing of the new version, and nothing of the old one, stays. */
  lemma RejectedIsRemoved(cfg: Settings, c: CacheState, now: nat, t: Translated)
    requires ShapedState(cfg, c) && |cfg.regions| > 0
    ensures Rejected(cfg, c, now, t) ==> Update(cfg, c, now, t) == Remove(cfg, c, now, t.name)
    ensures !Rejected(cfg, c, now, t) ==> t.name in Update(cfg, c, now, t).installed && Update(cfg, c, now, t).installed[t.name] == t
    ensures forall m | m != t.name ::
      && (m in Update(cfg, c, now, t).installed <==> m in c.installed)
      && (m in c.installed ==> Update(cfg, c, now, t).installed[m] == c.installed[m])
  {
  }

  /** Once every holder of a contested domain is gone, the update is accepted. */
  lemma AcceptedAfterHoldersLeave(cfg: Settings, c: CacheState, now: nat, t: Translated)
    requires IndexAgrees(cfg, c) && |cfg.regions| > 0
    requires forall m | m in c.installed && m != t.name :: !Overlap(c.installed[m], t)
    ensures !Rejected(cfg, c, now, t)
  {
    ConflictIsExact(cfg, c, now, t);
  }

  predicate LeaksDomain(cfg: Settings, t: Translated) {
    && |cfg.regions| == 2 && Shaped(cfg, t) && ShapedState(cfg, Add(EMPTY, t))
    && var left := Remove(cfg, Add(EMPTY, t), 0, t.name); left.installed == map[] && left.domains != {}
  }

  /** Without region-uniform domains the index would leak: a domain of region 1 survives its ingress. */
  lemma UnevenRegionsLeakDomains()
    ensures exists cfg: Settings, t: Translated :: LeaksDomain(cfg, t)
  {
    var cfg := Settings([Region("r", "x"), Region("s", "y")], false, false, false);
    var h0, h1 := VirtualHost("v", ["a"], []), VirtualHost("v", ["b"], []);
    var t := Translated(Name("ns", "ing"), [], [], [[], []], [[], []], [[h0], [h1]]);
    assert "b" in t.internal[1][0].domains && "b" in HostDomains(t.internal[1]) && "b" in DomainsOf(t);
    assert t.internal[0] == [h0] && "b" !in h0.domains by { assert h0.domains[0] != "b"; }
    var c := Add(EMPTY, t);
    assert c.installed == map[t.name := t];
    var left := Remove(cfg, c, 0, t.name);
    assert left.installed == map[] && "b" in left.domains;
    assert LeaksDomain(cfg, t);
  }

  // ---- Snapshots ----

  const HTTP_PORT_EXTERNAL: nat := 8080
  const HTTP_PORT_INTERNAL: nat := 8081
  const HTTP_PORT_PROBE: nat := 8090
  const HTTPS_PORT_PROBE: nat := 9443

  /** The route configuration names are literal tables of this length. */
  const NAMED_CONFIGS: nat := 3

  /** A listener has one filter chain per region: the clients in `ranges[i]` are served from `configs[i]`. */
  datatype Listener = Listener(port: nat, configs: seq<seq<VirtualHost>>, ranges: seq<seq<CidrRange>>)

  /** What one snapshot meets by chance: the order of the installed map, and what its three listeners read from the cluster. */
  datatype Look = Look(order: seq<Name>, seen: Readings)

  datatype Readings = Readings(external: Inventory, internal: Inventory, probe: Inventory)

  datatype Snapshot = Snapshot(
    internal: seq<seq<VirtualHost>>,  // internal route configuration of each region
    external: seq<seq<VirtualHost>>,  // external route configuration of each region
    listeners: seq<Listener>,
    clusters: map<string, Cluster>)   // listed clusters under their cache keys

  function LocalHosts(c: CacheState, i: nat): map<Name, seq<VirtualHost>> {
    map n | n in c.installed :: if i < |c.installed[n].internal| then c.installed[n].internal[i] else []
  }

  function PlainHosts(c: CacheState, i: nat): map<Name, seq<VirtualHost>> {
    map n | n in c.installed :: if i < |c.installed[n].external| then c.installed[n].external[i] else []
  }

  function TLSHosts(c: CacheState, i: nat): map<Name, seq<VirtualHost>> {
    map n | n in c.installed :: if i < |c.installed[n].externalTLS| then c.installed[n].externalTLS[i] else []
  }

  /**
    The HTTPS branches index slices that were never allocated, the name tables have three entries, and
    each listener's prefix loop may panic.
   */
  predicate SnapshotCrashes(cfg: Settings, installed: map<Name, Translated>, seen: Readings) {
    || cfg.oneCert || (exists n | n in installed :: installed[n].snis != [])
    || |cfg.regions| > NAMED_CONFIGS || AnyUnreadable(cfg.regions, seen)
  }

  predicate AnyUnreadable(regions: seq<Region>, seen: Readings) {
    Unreadable(regions, seen.external) || Unreadable(regions, seen.internal) || Unreadable(regions, seen.probe)
  }

  function Chains(regions: seq<Region>, port: nat, configs: seq<seq<VirtualHost>>, inv: Inventory): Listener {
    Listener(port, configs, PrefixRanges(regions, inv).GetOr([]))
  }

  /** Routes gathered in `look`'s order from `c`, clusters listed from `store` at `now`. */
  function Assemble(cfg: Settings, c: CacheState, look: Look, store: Store, now: nat): Snapshot {
    var n := |cfg.regions|;
    var internal := seq(n, i requires 0 <= i < n => Gather(look.order, LocalHosts(c, i)) + [StatusHost()]);
    var external := seq(n, i requires 0 <= i < n => Gather(look.order, TLSHosts(c, i)));
    Snapshot(internal, external,
             [Chains(cfg.regions, HTTP_PORT_EXTERNAL, external, look.seen.external),
              Chains(cfg.regions, HTTP_PORT_INTERNAL, internal, look.seen.internal),
              Chains(cfg.regions, HTTP_PORT_PROBE, external, look.seen.probe)],
             Items(store, now))
  }

  // ---- Collecting hosts ----

  predicate AreLocal(cfg: Settings, c: CacheState, order: seq<Name>, lists: seq<seq<VirtualHost>>) {
    |lists| == |cfg.regions| && forall i | 0 <= i < |lists| :: lists[i] == Gather(order, LocalHosts(c, i))
  }

  predicate ArePlain(cfg: Settings, c: CacheState, order: seq<Name>, lists: seq<seq<VirtualHost>>) {
    |lists| == |cfg.regions| && forall i | 0 <= i < |lists| :: lists[i] == Gather(order, PlainHosts(c, i))
  }

  predicate AreTLS(cfg: Settings, c: CacheState, order: seq<Name>, lists: seq<seq<VirtualHost>>) {
    |lists| == |cfg.regions| && forall i | 0 <= i < |lists| :: lists[i] == Gather(order, TLSHosts(c, i))
  }

  lemma GatherStep(order: seq<Name>, n: Name, hosts: map<Name, seq<VirtualHost>>)
    requires n in hosts
    ensures Gather(order + [n], hosts) == Gather(order, hosts) + hosts[n]
  {
    assert (order + [n])[..|order|] == order;
  }

  lemma OneMoreIngress(cfg: Settings, c: CacheState, order: seq<Name>, n: Name, internal: seq<seq<VirtualHost>>,
                       plain: seq<seq<VirtualHost>>, external: seq<seq<VirtualHost>>)
    requires n in c.installed && Shaped(cfg, c.installed[n])
    requires AreLocal(cfg, c, order, internal) && ArePlain(cfg, c, order, plain) && AreTLS(cfg, c, order, external)
    ensures AreLocal(cfg, c, order + [n], AppendLists(internal, c.installed[n].internal))
    ensures ArePlain(cfg, c, order + [n], AppendLists(plain, c.installed[n].external))
    ensures AreTLS(cfg, c, order + [n], AppendLists(external, c.installed[n].externalTLS))
  {
    forall i | 0 <= i < |cfg.regions|
      ensures Gather(order + [n], LocalHosts(c, i)) == Gather(order, LocalHosts(c, i)) + c.installed[n].internal[i]
      ensures Gather(order + [n], PlainHosts(c, i)) == Gather(order, PlainHosts(c, i)) + c.installed[n].external[i]
      ensures Gather(order + [n], TLSHosts(c, i)) == Gather(order, TLSHosts(c, i)) + c.installed[n].externalTLS[i]
    {
      GatherStep(order, n, LocalHosts(c, i));
      GatherStep(order, n, PlainHosts(c, i));
      GatherStep(order, n, TLSHosts(c, i));
    }
  }

  // ---- The object ----

  const EXT_AUTHZ_OWNER := Name("_internal", "__extAuthZCluster")

  class Caches {
    var translatedIngresses: map<Name, Translated>
    var domainsInUse: set<string>
    const clusters: ClustersCache
    const cfg: Settings

    ghost function State(): CacheState
      reads this, clusters
    {
      CacheState(translatedIngresses, domainsInUse, clusters.items)
    }

    ghost predicate Valid()
      reads this, clusters
    {
      ShapedState(cfg, State()) && |cfg.regions| > 0
    }

    /** `NewCaches`; in ext-authz mode the authorisation cluster is stored for good. */
    constructor (cfg: Settings, extAuthz: Option<Cluster>)
      requires |cfg.regions| > 0
      ensures Valid() && this.cfg == cfg && fresh(clusters)
      ensures extAuthz == None ==> State() == EMPTY
      ensures extAuthz.Some? ==> State() == EMPTY.(store := map[Key(extAuthz.value.name, EXT_AUTHZ_OWNER) := Entry(extAuthz.value, None)])
    {
      this.cfg := cfg;
      translatedIngresses, domainsInUse := map[], {};
      clusters := new ClustersCache();
      new;
      if extAuthz.Some? {
        clusters.Set(extAuthz.value, EXT_AUTHZ_OWNER);
      }
    }

    /** `deleteTranslatedIngress`. */
    method DeleteTranslatedIngress(now: nat, n: Name)
      requires Valid()
      modifies this, clusters
      ensures State() == Remove(cfg, old(State()), now, n) && Valid()
    {
      if n in translatedIngresses {
        var t := translatedIngresses[n];
        ghost var store := clusters.items;
        for k := 0 to |t.clusters|
          invariant translatedIngresses == old(translatedIngresses) && domainsInUse == old(domainsInUse)
          invariant clusters.items == Drop(store, now, ClusterKeys(n, t.clusters[..k]))
        {
          DropOneMore(store, now, n, t.clusters, k);
          clusters.SetExpiration(now, t.clusters[k].name, n);
        }
        assert t.clusters[..|t.clusters|] == t.clusters;
        for h := 0 to |t.internal[0]|
          invariant translatedIngresses == old(translatedIngresses)
          invariant clusters.items == Drop(store, now, ClusterKeys(n, t.clusters))
          invariant domainsInUse == old(domainsInUse) - HostDomains(t.internal[0][..h])
        {
          HostDomainsStep(t.internal[0], h);
          domainsInUse := domainsInUse - (set d | d in t.internal[0][h].domains);
        }
        assert t.internal[0][..|t.internal[0]|] == t.internal[0];
        translatedIngresses := translatedIngresses - {n};
      }
    }

    /** `validateIngress`: looks for a taken domain, region by region. */
    method ValidateIngress(t: Translated) returns (conflict: bool)
      requires Shaped(cfg, t)
      ensures conflict <==> Conflicts(State(), t)
    {
      for i := 0 to |cfg.regions|
        invariant forall j, d | 0 <= j < i && d in HostDomains(t.internal[j]) :: d !in domainsInUse
      {
        for h := 0 to |t.internal[i]|
          invariant forall d | d in HostDomains(t.internal[i][..h]) :: d !in domainsInUse
        {
          HostDomainsStep(t.internal[i], h);
          if exists d | d in t.internal[i][h].domains :: d in domainsInUse {
            ghost var d :| d in t.internal[i][h].domains && d in domainsInUse;
            assert d in HostDomains(t.internal[i]) && d in DomainsOf(t);
            return true;
          }
        }
        assert t.internal[i][..|t.internal[i]|] == t.internal[i];
      }
      conflict := false;
    }

    /** The loops that enter a translation's domains into the index. */
    method InsertDomains(t: Translated)
      requires Shaped(cfg, t)
      modifies this`domainsInUse
      ensures domainsInUse == old(domainsInUse) + DomainsOf(t)
    {
      ghost var before := domainsInUse;
      for i := 0 to |cfg.regions|
        invariant domainsInUse == before + (set j, d | 0 <= j < i && d in HostDomains(t.internal[j]) :: d)
      {
        ghost var mid := domainsInUse;
        for h := 0 to |t.internal[i]|
          invariant domainsInUse == mid + HostDomains(t.internal[i][..h])
        {
          HostDomainsStep(t.internal[i], h);
          domainsInUse := domainsInUse + (set d | d in t.internal[i][h].domains);
        }
        assert t.internal[i][..|t.internal[i]|] == t.internal[i];
      }
    }

    /** `addTranslatedIngress`. */
    method AddTranslatedIngress(t: Translated) returns (conflict: bool)
      requires Valid() && Shaped(cfg, t)
      modifies this, clusters
      ensures State() == Add(old(State()), t) && Valid()
      ensures conflict <==> Conflicts(old(State()), t)
    {
      conflict := ValidateIngress(t);
      if conflict {
        return;
      }
      InsertDomains(t);
      translatedIngresses := translatedIngresses[t.name := t];
      SetClusters(t);
    }

    /** The loop that stores a translation's clusters for good. */
    method SetClusters(t: Translated)
      modifies clusters
      ensures clusters.items == old(clusters.items) + Permanents(t.name, t.clusters)
    {
      ghost var store := clusters.items;
      for k := 0 to |t.clusters|
        invariant clusters.items == store + Permanents(t.name, t.clusters[..k])
      {
        PermanentsStep(store, t.name, t.clusters, k);
        clusters.Set(t.clusters[k], t.name);
      }
      assert t.clusters[..|t.clusters|] == t.clusters;
    }

    /** `UpdateIngress`: delete, then validate and add. */
    method UpdateIngress(now: nat, t: Translated) returns (conflict: bool)
      requires Valid() && Shaped(cfg, t)
      modifies this, clusters
      ensures State() == Update(cfg, old(State()), now, t) && Valid()
      ensures conflict <==> Rejected(cfg, old(State()), now, t)
    {
      DeleteTranslatedIngress(now, t.name);
      conflict := AddTranslatedIngress(t);
    }

    /** `DeleteIngressInfo`. */
    method DeleteIngressInfo(now: nat, n: Name)
      requires Valid()
      modifies this, clusters
      ensures State() == Remove(cfg, old(State()), now, n) && Valid()
    {
      DeleteTranslatedIngress(now, n);
    }

    /** The loop over the installed ingresses: their hosts per region and their SNI matches. The plain hosts are never read. */
    method CollectHosts(order: seq<Name>)
      returns (internal: seq<seq<VirtualHost>>, plain: seq<seq<VirtualHost>>, external: seq<seq<VirtualHost>>, snis: seq<SNI>)
      requires Valid() && forall n | n in order :: n in translatedIngresses
      ensures |internal| == |plain| == |external| == |cfg.regions|
      ensures forall i | 0 <= i < |internal| :: internal[i] == Gather(order, LocalHosts(State(), i))
      ensures forall i | 0 <= i < |plain| :: plain[i] == Gather(order, PlainHosts(State(), i))
      ensures forall i | 0 <= i < |external| :: external[i] == Gather(order, TLSHosts(State(), i))
      ensures snis == [] <==> forall n | n in order :: translatedIngresses[n].snis == []
    {
      internal, plain, external := seq(|cfg.regions|, i => []), seq(|cfg.regions|, i => []), seq(|cfg.regions|, i => []);
      snis := [];
      ghost var c := State();
      for k := 0 to |order|
        invariant AreLocal(cfg, c, order[..k], internal) && ArePlain(cfg, c, order[..k], plain) && AreTLS(cfg, c, order[..k], external)
        invariant snis == [] <==> forall n | n in order[..k] :: translatedIngresses[n].snis == []
      {
        assert order[k] in order && order[..k + 1] == order[..k] + [order[k]];
        var t := translatedIngresses[order[k]];
        OneMoreIngress(cfg, c, order[..k], order[k], internal, plain, external);
        internal, plain, external := AppendLists(internal, t.internal), AppendLists(plain, t.external), AppendLists(external, t.externalTLS);
        snis := snis + t.snis;
      }
      assert order[..|order|] == order;
    }

    /** The listeners that are always built, each from its own reading of the cluster; `None` is a panic. */
    method BuildListeners(internal: seq<seq<VirtualHost>>, external: seq<seq<VirtualHost>>, seen: Readings)
      returns (out: Option<seq<Listener>>)
      ensures out.None? <==> |cfg.regions| > NAMED_CONFIGS || AnyUnreadable(cfg.regions, seen)
      ensures out.Some? ==> out.value == [
        Chains(cfg.regions, HTTP_PORT_EXTERNAL, external, seen.external),
        Chains(cfg.regions, HTTP_PORT_INTERNAL, internal, seen.internal),
        Chains(cfg.regions, HTTP_PORT_PROBE, external, seen.probe)]
    {
      if |cfg.regions| > NAMED_CONFIGS {
        return None;
      }
      var first := SourcePrefixRanges(cfg.regions, seen.external);
      if first.None? {
        return None;
      }
      var second := SourcePrefixRanges(cfg.regions, seen.internal);
      if second.None? {
        return None;
      }
      var listeners := [Listener(HTTP_PORT_EXTERNAL, external, first.value), Listener(HTTP_PORT_INTERNAL, internal, second.value)];
      var third := SourcePrefixRanges(cfg.regions, seen.probe);
      if third.None? {
        return None;
      }
      out := Some(listeners + [Listener(HTTP_PORT_PROBE, external, third.value)]);
    }

    /**
      `ToEnvoySnapshot`, ranging over the installed map in an arbitrary order and reading nodes and
      address blocks once per listener; `None` is a panic.
     */
    method ToEnvoySnapshot(now: nat, seen: Readings) returns (out: Option<Snapshot>, order: seq<Name>)
      requires Valid()
      ensures Distinct(order) && forall n :: n in order <==> n in translatedIngresses
      ensures out.None? <==> SnapshotCrashes(cfg, translatedIngresses, seen)
      ensures out.Some? ==> out.value == Assemble(cfg, State(), Look(order, seen), clusters.items, now)
    {
      order := RangeOver(translatedIngresses.Keys);
      var internal, _, external, snis := CollectHosts(order);
      internal := AppendLists(internal, seq(|internal|, i => [StatusHost()]));
      ghost var expected := Assemble(cfg, State(), Look(order, seen), clusters.items, now);
      assert internal == expected.internal && external == expected.external;
      var listeners := BuildListeners(internal, external, seen);
      if listeners.None? || snis != [] || cfg.oneCert {
        return None, order;
      }
      out := Some(Snapshot(internal, external, listeners.value, Items(clusters.items, now)));
    }
  }

  function AppendLists(a: seq<seq<VirtualHost>>, b: seq<seq<VirtualHost>>): seq<seq<VirtualHost>>
    requires |a| == |b|
  {
    seq(|a|, i requires 0 <= i < |a| => a[i] + b[i])
  }

  lemma PermanentsStep(base: Store, n: Name, clusters: seq<Cluster>, k: nat)
    requires k < |clusters|
    ensures (base + Permanents(n, clusters[..k]))[Key(clusters[k].name, n) := Entry(clusters[k], None)]
         == base + Permanents(n, clusters[..k + 1])
  {
    assert clusters[..k + 1][..k] == clusters[..k];
  }

  lemma HostDomainsStep(hosts: seq<VirtualHost>, h: nat)
    requires h < |hosts|
    ensures HostDomains(hosts[..h + 1]) == HostDomains(hosts[..h]) + (set d | d in hosts[h].domains)
  {
    assert hosts[..h + 1] == hosts[..h] + [hosts[h]];
  }

  lemma DropOneMore(store: Store, now: nat, n: Name, clusters: seq<Cluster>, k: nat)
    requires k < |clusters|
    ensures Drop(Drop(store, now, ClusterKeys(n, clusters[..k])), now, {Key(clusters[k].name, n)})
         == Drop(store, now, ClusterKeys(n, clusters[..k + 1]))
  {
    assert clusters[..k + 1] == clusters[..k] + [clusters[k]];
    assert ClusterKeys(n, clusters[..k + 1]) == ClusterKeys(n, clusters[..k]) + {Key(clusters[k].name, n)};
  }
}
