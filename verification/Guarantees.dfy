/** What holds over every run of the control plane, whatever the workers, the clock and the janitor do. */
module Guarantees {
  import opened Text
  import opened Kube
  import opened Envoy
  import opened Translator
  import opened TranslationFacts
  import opened Routing
  import opened ClusterCaching
  import opened Caching
  import opened Protocol
  import opened Registry
  import opened StoreInvariants

  ghost predicate Inv(cfg: Settings, s: System) {
    && Registered(cfg, s)
    && Committed(s)
    && Stocked(cfg, s)
    && Chronicled(s.cache.store, s.marks, s.now)
    && Retained(s.cache.store, s.cache.installed, s.phase)
    && Earned(s.cache.store, s.cache.installed, s.phase)
  }

  /** Every reachable state satisfies the invariants, also in the middle of an operation. */
  lemma {:induction false} EveryRunKeepsInv(cfg: Settings, run: seq<Label>)
    requires ValidRegions(cfg.regions)
    ensures Inv(cfg, Run(cfg, run))
  {
    if run == [] {
      RegisteredInitially(cfg);
    } else {
      var s, l := Run(cfg, run[..|run| - 1]), run[|run| - 1];
      EveryRunKeepsInv(cfg, run[..|run| - 1]);
      NextRegistered(cfg, s, l);
      NextCommitted(cfg, s, l);
      NextStocked(cfg, s, l);
      NextChronicled(cfg, s, l);
      NextRetained(cfg, s, l);
      NextEarned(cfg, s, l);
    }
  }

  // ---- Snapshots and the moments they are taken ----

  lemma {:induction false} PrefixRun(cfg: Settings, run: seq<Label>, p: nat)
    requires |cfg.regions| > 0 && p < |run|
    ensures Run(cfg, run[..p + 1]) == Next(cfg, Run(cfg, run[..p]), run[p])
  {
    assert run[..p + 1][..p] == run[..p];
  }

  function TakenFrom(cfg: Settings, s: System): Taken
    requires s.phase.Listing?
  {
    Taken(Assemble(cfg, s.cache, s.phase.look, s.cache.store, s.now), s.now, s.phase.look, s.cache, s.origins, |s.commits|)
  }

  ghost predicate TakenAt(cfg: Settings, run: seq<Label>, j: nat, p: nat)
    requires |cfg.regions| > 0
  {
    && p < |run| && run[p].Go?
    && var s := Run(cfg, run[..p]);
       s.phase.Listing? && |s.taken| == j && j < |Run(cfg, run).taken| && Run(cfg, run).taken[j] == TakenFrom(cfg, s)
  }

  /** A step adds at most one snapshot, the one its listing phase describes. */
  lemma NextTaken(cfg: Settings, s: System, l: Label)
    requires |cfg.regions| > 0
    ensures Next(cfg, s, l).taken == (if s.phase.Listing? && l.Go? then s.taken + [TakenFrom(cfg, s)] else s.taken)
  {
  }

  /** Every snapshot was assembled at one moment of the run, while the lock was held. */
  lemma {:induction false} WhenTaken(cfg: Settings, run: seq<Label>, j: nat) returns (p: nat)
    requires |cfg.regions| > 0 && j < |Run(cfg, run).taken|
    ensures TakenAt(cfg, run, j, p)
  {
    if run != [] {
      var n := |run| - 1;
      var before := Run(cfg, run[..n]);
      NextTaken(cfg, before, run[n]);
      if j < |before.taken| {
        p := WhenTaken(cfg, run[..n], j);
        assert run[..n][..p] == run[..p];
      } else {
        p := n;
      }
    }
  }

  /** The parts of the state that only grow. */
  predicate Grows(s: System, s': System) {
    s.worlds <= s'.worlds && s.commits <= s'.commits && s.taken <= s'.taken && s.now <= s'.now
  }

  lemma BeginGrows(cfg: Settings, s: System, op: Op)
    requires |cfg.regions| > 0
    ensures Grows(s, BeginOp(cfg, s, op))
  {
  }

  lemma GoGrows(cfg: Settings, s: System, look: Look)
    ensures Grows(s, GoOn(cfg, s, look))
  {
    match s.phase
    case Expiring(_, todo, _, _) =>
      if todo != [] {
        ExpireStepIsQuiet(s);
      }
    case _ =>
  }

  lemma NextGrows(cfg: Settings, s: System, l: Label)
    requires |cfg.regions| > 0
    ensures Grows(s, Next(cfg, s, l))
  {
    match l
    case Begin(op) => BeginGrows(cfg, s, op);
    case Go(look) => GoGrows(cfg, s, look);
    case _ =>
  }

  lemma GrowsTransitive(a: System, b: System, c: System)
    requires Grows(a, b) && Grows(b, c)
    ensures Grows(a, c)
  {
  }

  lemma {:induction false} HistoryGrows(cfg: Settings, run: seq<Label>, p: nat)
    requires |cfg.regions| > 0 && p <= |run|
    ensures Grows(Run(cfg, run[..p]), Run(cfg, run))
    decreases |run| - p
  {
    if p == |run| {
      assert run[..p] == run;
    } else {
      PrefixRun(cfg, run, p);
      HistoryGrows(cfg, run, p + 1);
      NextGrows(cfg, Run(cfg, run[..p]), run[p]);
      GrowsTransitive(Run(cfg, run[..p]), Run(cfg, run[..p + 1]), Run(cfg, run));
    }
  }

  // ---- References ----

  predicate RouteRefers(route: Route, name: string) {
    route.action.Forward? && exists w | w in route.action.clusters :: w.name == name
  }

  predicate HostRefers(vh: VirtualHost, name: string) {
    exists r | 0 <= r < |vh.routes| :: RouteRefers(vh.routes[r], name)
  }

  predicate ConfigsRefer(configs: seq<seq<VirtualHost>>, name: string) {
    exists i, h | 0 <= i < |configs| && 0 <= h < |configs[i]| :: HostRefers(configs[i][h], name)
  }

  /** Some route of some emitted route configuration forwards to the cluster `name`. */
  predicate RefersTo(snapshot: Snapshot, name: string) {
    ConfigsRefer(snapshot.internal, name) || ConfigsRefer(snapshot.external, name)
  }

  predicate Lists(snapshot: Snapshot, name: string) {
    exists key | key in snapshot.clusters :: snapshot.clusters[key].name == name
  }

  predicate Provides(t: Translated, name: string) {
    exists c | c in t.clusters :: c.name == name
  }

  lemma {:induction false} GatherMembers(order: seq<Name>, hosts: map<Name, seq<VirtualHost>>, vh: VirtualHost)
    requires vh in Gather(order, hosts)
    ensures exists n | n in order :: n in hosts && vh in hosts[n]
  {
    var init, n := order[..|order| - 1], order[|order| - 1];
    assert order == init + [n];
    if vh in Gather(init, hosts) {
      GatherMembers(init, hosts, vh);
    }
  }

  lemma RuleHostRefs(cfg: Settings, ing: Ingress, r: nat, i: nat, name: string) returns (p: nat, s: nat)
    requires r < |ing.rules| && i < |cfg.regions| && HostRefers(RuleHost(cfg, ing, r, i), name)
    ensures p < |ing.rules[r].paths| && s < |ing.rules[r].paths[p].splits|
    ensures name == ClusterName(ing.rules[r].paths[p].splits[s].service, cfg.regions[i])
    ensures Weight(ing.rules[r].paths[p].splits[s], cfg.regions[i]) in Weights(ing.rules[r].paths[p].splits, cfg.regions[i])
  {
    var vh := RuleHost(cfg, ing, r, i);
    p :| 0 <= p < |vh.routes| && RouteRefers(vh.routes[p], name);
    var weights := Weights(ing.rules[r].paths[p].splits, cfg.regions[i]);
    assert vh.routes[p].action.clusters == weights;
    s :| 0 <= s < |weights| && weights[s].name == name;
  }

  /** Internal routes of region `i` forward to region `i`'s clusters of the ingress's own services. */
  lemma InternalRefs(cfg: Settings, ing: Ingress, world: World, t: Translated, i: nat, vh: VirtualHost, name: string)
    requires IsTranslation(cfg, ing, world, t)
    requires i < |cfg.regions| && vh in InternalHosts(cfg, ing, |ing.rules|, i) && HostRefers(vh, name)
    ensures Provides(t, name)
    ensures exists service :: PlainName(service) && name == ClusterName(service, cfg.regions[i])
  {
    var r :| 0 <= r < |ing.rules| && InternalHosts(cfg, ing, |ing.rules|, i)[r] == vh;
    var p, s := RuleHostRefs(cfg, ing, r, i, name);
    WeightsAreCovered(cfg, ing, world, t, r, p, i, Weight(ing.rules[r].paths[p].splits[s], cfg.regions[i]));
    assert AdmittedRule(ing.rules[r]);
    assert PlainName(ing.rules[r].paths[p].splits[s].service);
  }

  lemma TLSHostRoutes(cfg: Settings, ing: Ingress, r: nat, vh: VirtualHost)
    requires |cfg.regions| > 0 && r < |ing.rules| && TLSHost(cfg, ing, r) == Some(vh)
    ensures |vh.routes| == |ing.rules[r].paths|
    ensures forall p | 0 <= p < |vh.routes| ::
      vh.routes[p].action == Forward(Weights(ing.rules[r].paths[p].splits, cfg.regions[0]), HostRewrite(ing.rules[r].paths[p]))
  {
  }

  lemma TLSHostRefs(cfg: Settings, ing: Ingress, r: nat, vh: VirtualHost, name: string) returns (p: nat, w: ClusterWeight)
    requires |cfg.regions| > 0 && r < |ing.rules| && TLSHost(cfg, ing, r) == Some(vh) && HostRefers(vh, name)
    ensures p < |ing.rules[r].paths| && w in Weights(ing.rules[r].paths[p].splits, cfg.regions[0]) && w.name == name
  {
    TLSHostRoutes(cfg, ing, r, vh);
    p :| 0 <= p < |vh.routes| && RouteRefers(vh.routes[p], name);
    w :| w in vh.routes[p].action.clusters && w.name == name;
  }

  lemma ExternalRefs(cfg: Settings, ing: Ingress, world: World, t: Translated, i: nat, vh: VirtualHost, name: string)
    requires IsTranslation(cfg, ing, world, t)
    requires vh in ExternalTLSHosts(cfg, ing, |ing.rules|) && HostRefers(vh, name)
    ensures Provides(t, name)
  {
    ExternalTLSHostsAreExternal(cfg, ing, |ing.rules|, vh);
    var r :| 0 <= r < |ing.rules| && TLSHost(cfg, ing, r) == Some(vh);
    var p, w := TLSHostRefs(cfg, ing, r, vh, name);
    WeightsAreCovered(cfg, ing, world, t, r, p, 0, w);
  }

  predicate Provided(installed: map<Name, Translated>, name: string) {
    exists n | n in installed :: Provides(installed[n], name)
  }

  lemma GatheredInternalRefs(cfg: Settings, s: System, order: seq<Name>, i: nat, vh: VirtualHost, name: string)
    requires Registered(cfg, s) && i < |cfg.regions|
    requires vh in Gather(order, LocalHosts(s.cache, i)) && HostRefers(vh, name)
    ensures Provided(s.cache.installed, name)
    ensures exists service :: PlainName(service) && name == ClusterName(service, cfg.regions[i])
  {
    var local := LocalHosts(s.cache, i);
    GatherMembers(order, local, vh);
    var n :| n in order && n in local && vh in local[n];
    var ch := Change(s.origins[n], s.cache.installed[n]);
    assert Genuine(cfg, s.worlds, ch);
    TranslationShape(cfg, ch.source.ing, ch.source.world, ch.t);
    InternalRefs(cfg, ch.source.ing, ch.source.world, ch.t, i, vh, name);
  }

  lemma GatheredExternalRefs(cfg: Settings, s: System, order: seq<Name>, i: nat, vh: VirtualHost, name: string)
    requires Registered(cfg, s) && i < |cfg.regions|
    requires vh in Gather(order, TLSHosts(s.cache, i)) && HostRefers(vh, name)
    ensures Provided(s.cache.installed, name)
  {
    var tls := TLSHosts(s.cache, i);
    GatherMembers(order, tls, vh);
    var n :| n in order && n in tls && vh in tls[n];
    var ch := Change(s.origins[n], s.cache.installed[n]);
    assert Genuine(cfg, s.worlds, ch);
    TranslationShape(cfg, ch.source.ing, ch.source.world, ch.t);
    ExternalRefs(cfg, ch.source.ing, ch.source.world, ch.t, i, vh, name);
  }

  lemma ListedInternalRefs(cfg: Settings, s: System, name: string)
    requires Registered(cfg, s) && s.phase.Listing? && ConfigsRefer(TakenFrom(cfg, s).snapshot.internal, name)
    ensures name == STATUS_CLUSTER || Provided(s.cache.installed, name)
  {
    var configs, order := TakenFrom(cfg, s).snapshot.internal, s.phase.look.order;
    var i, h :| 0 <= i < |configs| && 0 <= h < |configs[i]| && HostRefers(configs[i][h], name);
    assert configs[i] == Gather(order, LocalHosts(s.cache, i)) + [StatusHost()];
    if h < |Gather(order, LocalHosts(s.cache, i))| {
      GatheredInternalRefs(cfg, s, order, i, configs[i][h], name);
    } else {
      StatusHostRefers(configs[i][h], name);
    }
  }

  lemma StatusHostRefers(vh: VirtualHost, name: string)
    requires vh == StatusHost() && HostRefers(vh, name)
    ensures name == STATUS_CLUSTER
  {
  }

  lemma ListedExternalRefs(cfg: Settings, s: System, name: string)
    requires Registered(cfg, s) && s.phase.Listing? && ConfigsRefer(TakenFrom(cfg, s).snapshot.external, name)
    ensures Provided(s.cache.installed, name)
  {
    var configs, order := TakenFrom(cfg, s).snapshot.external, s.phase.look.order;
    var i, h :| 0 <= i < |configs| && 0 <= h < |configs[i]| && HostRefers(configs[i][h], name);
    assert configs[i] == Gather(order, TLSHosts(s.cache, i));
    GatheredExternalRefs(cfg, s, order, i, configs[i][h], name);
  }

  /** A name referred to by a snapshot is the bootstrap cluster or a cluster of an installed ingress. */
  lemma SnapshotRefs(cfg: Settings, s: System, name: string)
    requires Registered(cfg, s) && s.phase.Listing? && RefersTo(TakenFrom(cfg, s).snapshot, name)
    ensures name == STATUS_CLUSTER || Provided(s.cache.installed, name)
  {
    if ConfigsRefer(TakenFrom(cfg, s).snapshot.internal, name) {
      ListedInternalRefs(cfg, s, name);
    } else {
      ListedExternalRefs(cfg, s, name);
    }
  }

  // ---- Make before break ----

  /** `key` stays readable until the grace period counted from `t` is over. */
  ghost predicate Guarded(s: System, key: string, t: nat) {
    && t <= s.now
    && (s.now <= t + EXPIRATION ==>
          key in s.cache.store && (s.cache.store[key].deadline.Some? ==> t + EXPIRATION <= s.cache.store[key].deadline.value))
    && (s.phase.Expiring? && s.phase.todo != [] && s.phase.pending.Stamped? && key == Key(s.phase.todo[0].name, s.phase.name) ==>
          t <= s.phase.pending.at)
  }

  lemma GuardedExpireStep(s: System, key: string, t: nat)
    requires s.phase.Expiring? && s.phase.todo != [] && Guarded(s, key, t)
    ensures Guarded(ExpireStep(s), key, t)
  {
  }

  lemma GuardedSetStep(s: System, key: string, t: nat)
    requires s.phase.Setting? && Guarded(s, key, t)
    ensures Guarded(SetStep(s), key, t)
  {
  }

  lemma GuardedGo(cfg: Settings, s: System, look: Look, key: string, t: nat)
    requires Guarded(s, key, t)
    ensures Guarded(GoOn(cfg, s, look), key, t)
  {
    if s.phase.Expiring? && s.phase.todo != [] {
      GuardedExpireStep(s, key, t);
    } else if s.phase.Setting? {
      GuardedSetStep(s, key, t);
    } else {
      QuietStep(cfg, s, look);
    }
  }

  lemma GuardedStep(cfg: Settings, s: System, l: Label, key: string, t: nat)
    requires |cfg.regions| > 0 && Guarded(s, key, t)
    ensures Guarded(Next(cfg, s, l), key, t)
  {
    match l
    case Begin(op) =>
      if s.phase.Free? {
        BeginIsQuiet(cfg, s, op);
      }
    case Go(look) => GuardedGo(cfg, s, look, key, t);
    case _ =>
  }

  lemma {:induction false} GuardedOnwards(cfg: Settings, run: seq<Label>, p: nat, q: nat, key: string, t: nat)
    requires |cfg.regions| > 0 && p <= q <= |run| && Guarded(Run(cfg, run[..p]), key, t)
    ensures Guarded(Run(cfg, run[..q]), key, t)
    decreases q - p
  {
    if p < q {
      PrefixRun(cfg, run, p);
      GuardedStep(cfg, Run(cfg, run[..p]), run[p], key, t);
      GuardedOnwards(cfg, run, p + 1, q, key, t);
    }
  }

  /** While nobody is working on an ingress, all its clusters are in the store for good. */
  lemma InstalledIsPermanent(cfg: Settings, s: System, n: Name, name: string) returns (key: string)
    requires Stocked(cfg, s) && Retained(s.cache.store, s.cache.installed, s.phase) && !Busy(s.phase, n)
    requires n in s.cache.installed && Provides(s.cache.installed[n], name)
    ensures key == Key(name, n) && Permanent(s.cache.store, key) && s.cache.store[key].cluster.name == name
  {
    var clusters := s.cache.installed[n].clusters;
    var c :| c in clusters && c.name == name;
    key := Key(c.name, n);
    HeldIsPermanent(s.cache.store, n, clusters, c);
  }

  lemma HeldIsPermanent(store: Store, n: Name, clusters: seq<Cluster>, c: Cluster)
    requires Holds(store, n, clusters) && c in clusters
    ensures Permanent(store, Key(c.name, n)) && store[Key(c.name, n)].cluster.name == c.name
  {
    PermanentsAre(n, clusters);
    assert Key(c.name, n) in ClusterKeys(n, clusters);
    SameOwnerKey(store[Key(c.name, n)].cluster.name, c.name, n);
  }

  lemma {:induction false} TakenGrows(cfg: Settings, run: seq<Label>, p: nat, q: nat)
    requires |cfg.regions| > 0 && p <= q <= |run|
    ensures |Run(cfg, run[..p]).taken| <= |Run(cfg, run[..q]).taken|
  {
    assert run[..q][..p] == run[..p];
    HistoryGrows(cfg, run[..q], p);
  }

  lemma {:induction false} OneMoreTaken(cfg: Settings, run: seq<Label>, j: nat, q: nat)
    requires |cfg.regions| > 0 && TakenAt(cfg, run, j, q)
    ensures |Run(cfg, run[..q + 1]).taken| == j + 1
  {
    PrefixRun(cfg, run, q);
    NextTaken(cfg, Run(cfg, run[..q]), run[q]);
  }

  /** A moment at which at most `j` snapshots have been taken comes no later than the taking of number `j`. */
  lemma {:induction false} MomentBeforeTaking(cfg: Settings, run: seq<Label>, p: nat, j: nat, q: nat)
    requires |cfg.regions| > 0 && p <= |run| && |Run(cfg, run[..p]).taken| <= j && TakenAt(cfg, run, j, q)
    ensures p <= q
  {
    OneMoreTaken(cfg, run, j, q);
    if q < p {
      TakenGrows(cfg, run, q + 1, p);
    }
  }

  /** Snapshots are taken in order. */
  lemma TakenInOrder(cfg: Settings, run: seq<Label>, i: nat, j: nat, p: nat, q: nat)
    requires |cfg.regions| > 0 && i <= j && TakenAt(cfg, run, i, p) && TakenAt(cfg, run, j, q)
    ensures p <= q
  {
    MomentBeforeTaking(cfg, run, p, j, q);
  }

  lemma {:induction false} RunIsStocked(cfg: Settings, run: seq<Label>)
    requires ValidRegions(cfg.regions)
    ensures var s := Run(cfg, run); Registered(cfg, s) && Stocked(cfg, s) && Retained(s.cache.store, s.cache.installed, s.phase)
  {
    EveryRunKeepsInv(cfg, run);
  }

  /** What is permanent now stays readable for the grace period from now, if it is not about to be dropped. */
  lemma PermanentIsGuarded(cfg: Settings, s: System, n: Name, name: string)
    requires Registered(cfg, s) && Stocked(cfg, s) && Permanent(s.cache.store, Key(name, n)) && !Busy(s.phase, n)
    requires PlainName(n) && ':' !in name
    ensures Guarded(s, Key(name, n), s.now)
  {
    if s.phase.Expiring? && s.phase.todo != [] {
      TodoIsFit(cfg, s);
      KeyInjective(s.phase.todo[0].name, s.phase.name, name, n);
    }
  }

  lemma InstalledKeyParts(cfg: Settings, s: System, n: Name, name: string)
    requires Registered(cfg, s) && n in s.cache.installed && Provides(s.cache.installed[n], name)
    ensures PlainName(n) && ':' !in name
  {
    InstalledAreFit(cfg, s);
    var c :| c in s.cache.installed[n].clusters && c.name == name;
    assert Fit(cfg, s.worlds, c);
  }

  /**
    The grace period counts from the drop. Take any moment `p` at which an ingress is installed and nobody
    is working on it, however long ago any snapshot was taken or pushed: each of its clusters is listed in
    every snapshot taken within 15 seconds after `p`, whatever happens to the ingress in between.
   */
  lemma {:induction false} ListedAfterDrop(cfg: Settings, run: seq<Label>, p: nat, j: nat, n: Name, name: string)
    requires ValidRegions(cfg.regions) && p <= |run| && j < |Run(cfg, run).taken|
    requires !Busy(Run(cfg, run[..p]).phase, n) && n in Run(cfg, run[..p]).cache.installed
    requires Provides(Run(cfg, run[..p]).cache.installed[n], name)
    requires |Run(cfg, run[..p]).taken| <= j && Run(cfg, run).taken[j].at <= Run(cfg, run[..p]).now + 15_000_000_000
    ensures Lists(Run(cfg, run).taken[j].snapshot, name)
  {
    var q := WhenTaken(cfg, run, j);
    MomentBeforeTaking(cfg, run, p, j, q);
    var s, s' := Run(cfg, run[..p]), Run(cfg, run[..q]);
    RunIsStocked(cfg, run[..p]);
    RunIsStocked(cfg, run[..q]);
    var key := InstalledIsPermanent(cfg, s, n, name);
    InstalledKeyParts(cfg, s, n, name);
    PermanentIsGuarded(cfg, s, n, name);
    GuardedOnwards(cfg, run, p, q, key, s.now);
    StillListed(cfg, s, s', key);
  }

  /** A key guarded since `s` is listed at `s'`, under its cluster's name. */
  lemma StillListed(cfg: Settings, s: System, s': System, key: string)
    requires Stocked(cfg, s) && Stocked(cfg, s') && key in s.cache.store
    requires s'.phase.Listing? && Guarded(s', key, s.now) && s'.now <= s.now + EXPIRATION
    ensures Lists(TakenFrom(cfg, s').snapshot, s.cache.store[key].cluster.name)
  {
    NameUnderKey(cfg, s, s', key);
    assert key in TakenFrom(cfg, s').snapshot.clusters;
  }

  /**
    Make before break: two snapshots at most 15 seconds apart, in any run. Every cluster a route of the
    first one forwards to (other than the bootstrap cluster) is listed in the second one, through all
    updates, rejections, deletions and evictions in between.
   */
  lemma {:induction false} MakeBeforeBreak(cfg: Settings, run: seq<Label>, i: nat, j: nat, name: string)
    requires ValidRegions(cfg.regions)
    requires i <= j < |Run(cfg, run).taken|
    requires Run(cfg, run).taken[j].at <= Run(cfg, run).taken[i].at + 15_000_000_000
    requires RefersTo(Run(cfg, run).taken[i].snapshot, name) && name != "service_stats"
    ensures Lists(Run(cfg, run).taken[j].snapshot, name)
  {
    var p := WhenTaken(cfg, run, i);
    var s := Run(cfg, run[..p]);
    EveryRunKeepsInv(cfg, run[..p]);
    SnapshotRefs(cfg, s, name);
    var n :| n in s.cache.installed && Provides(s.cache.installed[n], name);
    ListedAfterDrop(cfg, run, p, j, n, name);
  }

  lemma NameUnderKey(cfg: Settings, s: System, s': System, key: string)
    requires Stocked(cfg, s) && Stocked(cfg, s') && key in s.cache.store && key in s'.cache.store
    ensures s.cache.store[key].cluster.name == s'.cache.store[key].cluster.name
  {
    assert WellKeyed(key, s.cache.store[key].cluster.name) && WellKeyed(key, s'.cache.store[key].cluster.name);
  }

  /** Referential integrity: every cluster a snapshot's routes forward to is listed in that snapshot. */
  lemma {:induction false} ReferentialIntegrity(cfg: Settings, run: seq<Label>, j: nat, name: string)
    requires ValidRegions(cfg.regions) && j < |Run(cfg, run).taken|
    requires RefersTo(Run(cfg, run).taken[j].snapshot, name)
    ensures name == "service_stats" || Lists(Run(cfg, run).taken[j].snapshot, name)
  {
    if name != STATUS_CLUSTER {
      MakeBeforeBreak(cfg, run, j, j, name);
    }
  }
}
