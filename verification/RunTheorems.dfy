/** The theorems about whole runs: atomicity, meaning, locality, history and ownership. */
module RunTheorems {
  import opened Text
  import opened Kube
  import opened Envoy
  import opened EndpointBuckets
  import opened Translator
  import opened TranslationFacts
  import opened Routing
  import opened ClusterCaching
  import opened Caching
  import opened SourcePrefixes
  import opened Protocol
  import opened Registry
  import opened StoreInvariants
  import opened Guarantees

  // ---- Atomicity ----

  /** The ingresses a snapshot shows: those installed after a whole number of operations. */
  function SpecsAt(s: System, j: nat): map<Name, Ingress>
    requires j < |s.taken|
  {
    if s.taken[j].commits <= |s.commits| then Atomic(s.commits[..s.taken[j].commits]) else map[]
  }

  /** The operations completed between two snapshots. */
  function CommitsBetween(s: System, i: nat, j: nat): seq<Commit>
    requires i < |s.taken| && j < |s.taken|
  {
    var a, b := s.taken[i].commits, s.taken[j].commits;
    if a <= b <= |s.commits| then s.commits[a..b] else []
  }

  lemma LocalHostsAreSpecs(cfg: Settings, s: System, i: nat)
    requires Registered(cfg, s) && i < |cfg.regions|
    ensures LocalHosts(s.cache, i) == HostsPerName(cfg, Specs(s.origins), i)
  {
    var local, specs := LocalHosts(s.cache, i), Specs(s.origins);
    forall n | n in s.origins ensures local[n] == InternalHosts(cfg, specs[n], |specs[n].rules|, i) {
      var ch := Change(s.origins[n], s.cache.installed[n]);
      assert Genuine(cfg, s.worlds, ch);
      TranslationShape(cfg, ch.source.ing, ch.source.world, ch.t);
    }
  }

  lemma CommitsAreSpecs(s: System)
    requires Committed(s) && s.phase.Listing?
    ensures Specs(s.origins) == Atomic(s.commits)
  {
  }

  lemma OrderEnumerates(cfg: Settings, s: System)
    requires Registered(cfg, s) && s.phase.Listing?
    ensures Enumerates(s.phase.look.order, Specs(s.origins)) && Distinct(s.phase.look.order)
  {
    assert (set n | n in s.phase.look.order) == s.origins.Keys == Specs(s.origins).Keys;
  }

  lemma ListingShowsSpecs(cfg: Settings, s: System, i: nat)
    requires Registered(cfg, s) && s.phase.Listing? && i < |cfg.regions|
    ensures |TakenFrom(cfg, s).snapshot.internal| == |cfg.regions|
    ensures TakenFrom(cfg, s).snapshot.internal[i] == InternalConfig(cfg, Specs(s.origins), s.phase.look.order, i)
  {
    LocalHostsAreSpecs(cfg, s, i);
  }

  /** The origins at the moment a snapshot was taken are the specification's ingresses after its commits. */
  lemma {:induction false} SpecsAreOrigins(cfg: Settings, run: seq<Label>, j: nat, p: nat)
    requires ValidRegions(cfg.regions) && TakenAt(cfg, run, j, p)
    ensures Run(cfg, run).taken[j].commits <= |Run(cfg, run).commits|
    ensures SpecsAt(Run(cfg, run), j) == Specs(Run(cfg, run[..p]).origins)
  {
    var s := Run(cfg, run[..p]);
    EveryRunKeepsInv(cfg, run[..p]);
    CommitsAreSpecs(s);
    HistoryGrows(cfg, run, p);
    assert Run(cfg, run).commits[..|s.commits|] == s.commits;
  }

  /**
    Atomic update: however steps, clock ticks and evictions interleave, every snapshot shows the
    specification's state after a whole number of operations, each decided by its own conflict rule.
   */
  lemma {:induction false} SnapshotIsAtomic(cfg: Settings, run: seq<Label>, j: nat, i: nat)
    requires ValidRegions(cfg.regions) && j < |Run(cfg, run).taken| && i < |cfg.regions|
    ensures var s := Run(cfg, run); var taken := s.taken[j];
      && Lawful(s.commits) && taken.commits <= |s.commits|
      && Consistent(SpecsAt(s, j)) && Enumerates(taken.look.order, SpecsAt(s, j)) && Distinct(taken.look.order)
      && |taken.snapshot.internal| == |cfg.regions|
      && taken.snapshot.internal[i] == InternalConfig(cfg, SpecsAt(s, j), taken.look.order, i)
  {
    var p := WhenTaken(cfg, run, j);
    SpecsAreOrigins(cfg, run, j, p);
    EveryRunKeepsInv(cfg, run[..p]);
    EveryRunKeepsInv(cfg, run);
    var s := Run(cfg, run[..p]);
    SpecsConsistent(cfg, s);
    OrderEnumerates(cfg, s);
    ListingShowsSpecs(cfg, s, i);
  }

  predicate NeverDropped(commits: seq<Commit>, n: Name) {
    forall k | 0 <= k < |commits| ::
      && (commits[k].Deleted? ==> commits[k].name != n)
      && (commits[k].Refused? ==> commits[k].ing.name != n)
  }

  lemma {:induction false} StaysInstalled(commits: seq<Commit>, more: seq<Commit>, n: Name)
    requires n in Atomic(commits) && NeverDropped(more, n)
    ensures n in Atomic(commits + more)
  {
    if more == [] {
      assert commits + more == commits;
    } else {
      var init := more[..|more| - 1];
      assert (commits + more)[..|commits + more| - 1] == commits + init;
      StaysInstalled(commits, init, n);
    }
  }

  lemma {:induction false} CommitsInOrder(cfg: Settings, run: seq<Label>, i: nat, j: nat)
    requires |cfg.regions| > 0 && i <= j < |Run(cfg, run).taken|
    ensures Run(cfg, run).taken[i].commits <= Run(cfg, run).taken[j].commits
  {
    var p := WhenTaken(cfg, run, i);
    var q := WhenTaken(cfg, run, j);
    TakenInOrder(cfg, run, i, j, p, q);
    assert run[..q][..p] == run[..p];
    HistoryGrows(cfg, run[..q], p);
  }

  lemma {:induction false} ShownIffInstalled(cfg: Settings, run: seq<Label>, j: nat, n: Name)
    requires ValidRegions(cfg.regions) && j < |Run(cfg, run).taken|
    ensures Run(cfg, run).taken[j].commits <= |Run(cfg, run).commits|
    ensures n in Run(cfg, run).taken[j].look.order <==> n in SpecsAt(Run(cfg, run), j)
  {
    SnapshotIsAtomic(cfg, run, j, 0);
  }

  /** An ingress that is only ever successfully updated is missing from no later snapshot. */
  lemma {:induction false} UpdatedIngressNeverMissing(cfg: Settings, run: seq<Label>, i: nat, j: nat, n: Name)
    requires ValidRegions(cfg.regions) && i <= j < |Run(cfg, run).taken|
    requires n in Run(cfg, run).taken[i].look.order
    requires NeverDropped(CommitsBetween(Run(cfg, run), i, j), n)
    ensures n in Run(cfg, run).taken[j].look.order
  {
    var s := Run(cfg, run);
    ShownIffInstalled(cfg, run, i, n);
    ShownIffInstalled(cfg, run, j, n);
    CommitsInOrder(cfg, run, i, j);
    var a, b := s.taken[i].commits, s.taken[j].commits;
    assert s.commits[..b] == s.commits[..a] + s.commits[a..b];
    StaysInstalled(s.commits[..a], s.commits[a..b], n);
  }

  // ---- Meaning ----

  /**
    Every snapshot answers every request as the installed ingresses ask, in every region. Envoy refuses a
    configuration that repeats a domain; `UniqueDomains.SnapshotDomainsDistinctIff` says when that happens.
   */
  lemma {:induction false} SnapshotMeansSpecs(cfg: Settings, run: seq<Label>, j: nat, i: nat, req: Request, n: Name)
    requires ValidRegions(cfg.regions) && j < |Run(cfg, run).taken| && i < |cfg.regions|
    requires n in SpecsAt(Run(cfg, run), j) && Serves(SpecsAt(Run(cfg, run), j)[n], req.authority)
    ensures var s := Run(cfg, run);
      var ing, config := SpecsAt(s, j)[n], s.taken[j].snapshot.internal;
      && i < |config|
      && (ConfigAnswer(config[i], req) == SpecAnswer(cfg, ing, cfg.regions[i], req)
          <==> !LostRedirect(cfg, ing, i, req.authority) || SpecAnswer(cfg, ing, cfg.regions[i], req).NoRoute?)
      && (LostRedirect(cfg, ing, i, req.authority) ==> ConfigAnswer(config[i], req).NoRoute?)
  {
    SnapshotIsAtomic(cfg, run, j, i);
    ConfigMeansSpecs(cfg, SpecsAt(Run(cfg, run), j), Run(cfg, run).taken[j].look.order, i, req, n);
  }

  /** In every snapshot, an authority that no installed ingress serves reaches the readiness host or nothing. */
  lemma {:induction false} SnapshotServesNothingElse(cfg: Settings, run: seq<Label>, j: nat, i: nat, req: Request)
    requires ValidRegions(cfg.regions) && j < |Run(cfg, run).taken| && i < |cfg.regions|
    requires forall n | n in SpecsAt(Run(cfg, run), j) :: !Serves(SpecsAt(Run(cfg, run), j)[n], req.authority)
    ensures var config := Run(cfg, run).taken[j].snapshot.internal;
      && i < |config|
      && ConfigAnswer(config[i], req) == UnservedAnswer(req)
  {
    SnapshotIsAtomic(cfg, run, j, i);
    ConfigServesNothingElse(cfg, SpecsAt(Run(cfg, run), j), Run(cfg, run).taken[j].look.order, i, req);
  }

  // ---- Locality ----

  lemma LocalNameFixesRegion(cfg: Settings, a: Name, i: nat, b: Name, k: nat)
    requires ValidRegions(cfg.regions) && i < |cfg.regions| && k < |cfg.regions| && PlainName(a) && PlainName(b)
    requires ClusterName(a, cfg.regions[i]) == ClusterName(b, cfg.regions[k])
    ensures a == b && i == k
  {
    ClusterNameRoundTrip(a, cfg.regions[i]);
    ClusterNameRoundTrip(b, cfg.regions[k]);
  }

  /** `ip` was a ready address of `service` on the node of region `i` when some translation read it. */
  ghost predicate WasReady(cfg: Settings, worlds: seq<World>, service: Name, i: nat, ip: string)
    requires i < |cfg.regions|
  {
    exists world | world in worlds :: Address(ip, Some(cfg.regions[i].node)) in Flatten(EndpointsOf(world, service))
  }

  /**
    End-to-end locality: in every snapshot, whatever listed cluster answers to a name that region `i`'s
    internal routes forward to, all its endpoints were ready addresses on region `i`'s node. This
    covers clusters that are expiring and clusters another ingress listed under the same name.
   */
  lemma {:induction false} RoutedEndpointsAreLocal(cfg: Settings, run: seq<Label>, j: nat, i: nat, vh: VirtualHost, name: string, key: string, e: LbEndpoint)
    requires ValidRegions(cfg.regions) && j < |Run(cfg, run).taken| && i < |Run(cfg, run).taken[j].snapshot.internal|
    requires vh in Run(cfg, run).taken[j].snapshot.internal[i] && vh != StatusHost() && HostRefers(vh, name)
    requires key in Run(cfg, run).taken[j].snapshot.clusters
    requires var c := Run(cfg, run).taken[j].snapshot.clusters[key]; c.name == name && e in c.endpoints
    ensures i < |cfg.regions|
    ensures exists service :: name == ClusterName(service, cfg.regions[i]) && WasReady(cfg, Run(cfg, run).worlds, service, i, e.ip)
  {
    var p := WhenTaken(cfg, run, j);
    var s := Run(cfg, run[..p]);
    EveryRunKeepsInv(cfg, run[..p]);
    HistoryGrows(cfg, run, p);
    GatheredInternalRefs(cfg, s, s.phase.look.order, i, vh, name);
    var service :| PlainName(service) && name == ClusterName(service, cfg.regions[i]);
    var c := s.cache.store[key].cluster;
    assert Fit(cfg, s.worlds, c);
    var w, svc, k: nat :| w in s.worlds && k < |cfg.regions| && LocalTo(cfg, w, svc, k, c);
    LocalNameFixesRegion(cfg, service, i, svc, k);
    assert w in Run(cfg, run).worlds;
  }

  // ---- The index ----

  /**
    Index agreement: at every moment of every run the domains in use are exactly the domains of the
    installed ingresses over all regions, and no two of them share one, although a deletion visits
    region 0 only.
   */
  lemma {:induction false} IndexAlwaysAgrees(cfg: Settings, run: seq<Label>)
    requires ValidRegions(cfg.regions)
    ensures IndexAgrees(cfg, Run(cfg, run).cache)
  {
    EveryRunKeepsInv(cfg, run);
  }

  // ---- The cluster cache and its history ----

  /** Whenever the lock is free, a key is permanent exactly when it belongs to an installed ingress's cluster. */
  lemma {:induction false} PermanentIffInstalled(cfg: Settings, run: seq<Label>, key: string)
    requires ValidRegions(cfg.regions) && Run(cfg, run).phase.Free?
    ensures var c := Run(cfg, run).cache;
      Permanent(c.store, key) <==> exists n | n in c.installed :: key in ClusterKeys(n, c.installed[n].clusters)
  {
    EveryRunKeepsInv(cfg, run);
    var c := Run(cfg, run).cache;
    if n :| n in c.installed && key in ClusterKeys(n, c.installed[n].clusters) {
      PermanentsAre(n, c.installed[n].clusters);
      assert Holds(c.store, n, c.installed[n].clusters);
    }
  }

  /**
    The cluster cache refines its history: at every moment of every run, even mid-operation, what a
    reader sees of a key is what the key's last event says, with the grace period counted from the
    drop. Eviction is unobservable.
   */
  lemma {:induction false} CacheIsItsHistory(cfg: Settings, run: seq<Label>, key: string)
    requires ValidRegions(cfg.regions)
    ensures var s := Run(cfg, run); var seen := Items(s.cache.store, s.now);
      View(s.marks, s.now, key) == if key in seen then Some(seen[key]) else None
  {
    EveryRunKeepsInv(cfg, run);
    var s := Run(cfg, run);
    ViewIsVisible(s.cache.store, s.marks, s.now, key);
  }

  /** Deleting an ingress that is not installed changes nothing in the cache: no deadline is extended. */
  lemma {:induction false} DeletingAbsentIsHarmless(cfg: Settings, run: seq<Label>, n: Name)
    requires ValidRegions(cfg.regions) && Run(cfg, run).phase.Free? && n !in Run(cfg, run).cache.installed
    ensures var s := Run(cfg, run); var s' := Run(cfg, run + [Begin(DeleteOp(n))]);
      s'.cache == s.cache && s'.phase.Free? && s'.marks == s.marks
  {
    RunOneMore(cfg, run, Begin(DeleteOp(n)));
  }

  /** A translation that ends in nothing or in an error leaves the whole system as it was. */
  lemma {:induction false} NilTranslationChangesNothing(cfg: Settings, run: seq<Label>, source: Source)
    requires |cfg.regions| > 0
    requires var outcome := Translate(cfg, source.ing, source.world); outcome.Skipped? || outcome.Failed?
    ensures Run(cfg, run + [Begin(UpdateOp(source))]) == Run(cfg, run)
  {
    RunOneMore(cfg, run, Begin(UpdateOp(source)));
  }

  /** A tick moves the clock and nothing else, unless the process is dead. */
  lemma {:induction false} TimePasses(cfg: Settings, run: seq<Label>, d: nat)
    requires |cfg.regions| > 0 && !Run(cfg, run).phase.Dead?
    ensures Run(cfg, run + [Tick(d)]) == Run(cfg, run).(now := Run(cfg, run).now + d)
  {
    RunOneMore(cfg, run, Tick(d));
  }

  /** A snapshot lists exactly the entries of the cache that have no deadline or whose deadline has not passed. */
  lemma {:induction false} SnapshotListsReadable(cfg: Settings, run: seq<Label>, j: nat, key: string)
    requires |cfg.regions| > 0 && j < |Run(cfg, run).taken|
    ensures var taken := Run(cfg, run).taken[j]; var store := taken.cache.store;
      && (key in taken.snapshot.clusters <==>
            key in store && (store[key].deadline == None || taken.at <= store[key].deadline.value))
      && (key in taken.snapshot.clusters ==> taken.snapshot.clusters[key] == store[key].cluster)
  {
    var p := WhenTaken(cfg, run, j);
    TakenLists(cfg, Run(cfg, run[..p]), key);
  }

  lemma TakenLists(cfg: Settings, s: System, key: string)
    requires s.phase.Listing?
    ensures var taken := TakenFrom(cfg, s);
      && taken.at == s.now && taken.cache == s.cache
      && (key in taken.snapshot.clusters <==>
            key in s.cache.store && (s.cache.store[key].deadline == None || s.now <= s.cache.store[key].deadline.value))
      && (key in taken.snapshot.clusters ==> taken.snapshot.clusters[key] == s.cache.store[key].cluster)
  {
  }

  predicate Differs(before: Store, after: Store, key: string) {
    (key in before) != (key in after) || (key in before && before[key] != after[key])
  }

  lemma {:induction false} RunOneMore(cfg: Settings, run: seq<Label>, l: Label)
    requires |cfg.regions| > 0
    ensures Run(cfg, run + [l]) == Next(cfg, Run(cfg, run), l)
  {
    assert (run + [l])[..|run|] == run;
  }

  /** The only key a step of the lock holder can write. */
  function Target(phase: Phase): Option<string> {
    match phase
    case Expiring(n, todo, _, _) => if todo != [] then Some(Key(todo[0].name, n)) else None
    case Setting(ch, k) => if k < |ch.t.clusters| then Some(Key(ch.t.clusters[k].name, ch.t.name)) else None
    case _ => None
  }

  lemma GoWritesTarget(cfg: Settings, s: System, look: Look, key: string)
    requires Differs(s.cache.store, GoOn(cfg, s, look).cache.store, key)
    ensures Target(s.phase) == Some(key)
  {
    if !s.phase.Setting? && !(s.phase.Expiring? && s.phase.todo != []) {
      QuietStep(cfg, s, look);
    }
  }

  lemma TargetIsOwn(cfg: Settings, s: System)
    requires Registered(cfg, s) && Target(s.phase).Some?
    ensures Busy(s.phase, Owner(Target(s.phase).value))
  {
    if s.phase.Expiring? {
      TodoIsFit(cfg, s);
      KeyIsWellKeyed(s.phase.todo[0].name, s.phase.name);
    } else {
      InstalledAreFit(cfg, s);
      var t := s.phase.change.t;
      assert t.clusters[s.phase.done] in s.cache.installed[t.name].clusters;
      KeyIsWellKeyed(t.clusters[s.phase.done].name, t.name);
    }
  }

  lemma NextWritesTarget(cfg: Settings, s: System, look: Look, key: string)
    requires |cfg.regions| > 0 && Differs(s.cache.store, Next(cfg, s, Go(look)).cache.store, key)
    ensures Target(s.phase) == Some(key)
  {
    assert !s.phase.Dead?;
    assert Next(cfg, s, Go(look)) == GoOn(cfg, s, look);
    GoWritesTarget(cfg, s, look, key);
  }

  lemma {:induction false} RunWritesTarget(cfg: Settings, run: seq<Label>, look: Look, key: string)
    requires |cfg.regions| > 0
    requires Differs(Run(cfg, run).cache.store, Run(cfg, run + [Go(look)]).cache.store, key)
    ensures Target(Run(cfg, run).phase) == Some(key)
  {
    RunOneMore(cfg, run, Go(look));
    NextWritesTarget(cfg, Run(cfg, run), look, key);
  }

  /** A step on behalf of one ingress never changes another ingress's entries. */
  lemma {:induction false} StepsTouchOwnKeys(cfg: Settings, run: seq<Label>, look: Look, key: string)
    requires ValidRegions(cfg.regions)
    requires Differs(Run(cfg, run).cache.store, Run(cfg, run + [Go(look)]).cache.store, key)
    ensures Busy(Run(cfg, run).phase, Owner(key))
  {
    RunWritesTarget(cfg, run, look, key);
    EveryRunKeepsInv(cfg, run);
    TargetIsOwn(cfg, Run(cfg, run));
  }

  lemma EvictedOwner(cfg: Settings, s: System, key: string)
    requires Stocked(cfg, s) && key in s.cache.store && !Visible(s.cache.store, s.now, key)
    ensures exists n :: key == Key(s.cache.store[key].cluster.name, n) && EvictKey(s, key).enqueued == s.enqueued + [Some(n)]
    ensures EvictKey(s, key).cache == s.cache.(store := s.cache.store - {key})
  {
    assert WellKeyed(key, s.cache.store[key].cluster.name);
    assert EvictKey(s, key).enqueued == s.enqueued + [Some(Owner(key))];
  }

  /** Every eviction enqueues exactly the ingress the evicted cluster belonged to. */
  lemma {:induction false} EvictionEnqueuesOwner(cfg: Settings, run: seq<Label>, key: string)
    requires ValidRegions(cfg.regions)
    requires var s := Run(cfg, run); !s.phase.Dead? && key in s.cache.store && !Visible(s.cache.store, s.now, key)
    ensures var s := Run(cfg, run); var s' := Run(cfg, run + [Evict(key)]);
      && s'.cache == s.cache.(store := s.cache.store - {key})
      && exists n :: key == Key(s.cache.store[key].cluster.name, n) && s'.enqueued == s.enqueued + [Some(n)]
  {
    EveryRunKeepsInv(cfg, run);
    RunOneMore(cfg, run, Evict(key));
    EvictedOwner(cfg, Run(cfg, run), key);
  }

  // ---- External configurations ----

  /** What an installed ingress's translation is. */
  lemma InstalledShape(cfg: Settings, s: System, n: Name)
    requires Registered(cfg, s) && n in s.cache.installed
    ensures n in s.origins
    ensures var ing, t := s.origins[n].ing, s.cache.installed[n];
      ing.name == n && Shaped(cfg, t) && |t.snis| == |ing.tls|
      && forall i | 0 <= i < |cfg.regions| :: t.externalTLS[i] == ExternalTLSHosts(cfg, ing, |ing.rules|)
  {
    var ch := Change(s.origins[n], s.cache.installed[n]);
    assert Genuine(cfg, s.worlds, ch);
    SNIsPerTLS(cfg, ch.source.ing, ch.source.world, ch.t);
    TranslationShape(cfg, ch.source.ing, ch.source.world, ch.t);
  }

  /** Some region's node has too few addresses in one of the listeners' readings, or one of its blocks has a bad CIDR. */
  predicate BadReading(regions: seq<Region>, seen: Readings) {
    BadInventory(regions, seen.external) || BadInventory(regions, seen.internal) || BadInventory(regions, seen.probe)
  }

  predicate AnyTLS(origins: map<Name, Source>) {
    exists n | n in origins :: origins[n].ing.tls != []
  }

  lemma CrashesIff(cfg: Settings, s: System, seen: Readings)
    requires Registered(cfg, s)
    ensures SnapshotCrashes(cfg, s.cache.installed, seen) <==>
      cfg.oneCert || AnyTLS(s.origins) || |cfg.regions| > NAMED_CONFIGS || BadReading(cfg.regions, seen)
  {
    forall n | n in s.origins ensures n in s.cache.installed && |s.cache.installed[n].snis| == |s.origins[n].ing.tls| {
      InstalledShape(cfg, s, n);
    }
    assert forall n | n in s.cache.installed :: n in s.origins;
    UnreadableIff(cfg.regions, seen.external);
    UnreadableIff(cfg.regions, seen.internal);
    UnreadableIff(cfg.regions, seen.probe);
  }

  lemma CollectDies(cfg: Settings, s: System, look: Look)
    requires |cfg.regions| > 0 && s.phase.Collecting? && Ranges(look.order, s.cache.installed)
    ensures Next(cfg, s, Go(look)).phase.Dead? <==> SnapshotCrashes(cfg, s.cache.installed, look.seen)
  {
  }

  /**
    Taking a snapshot panics exactly when a single certificate is configured, some installed ingress
    uses TLS, there are more regions than configuration names, or one of the three listeners reads a
    region node without enough addresses or a block with a bad CIDR.
   */
  lemma {:induction false} SnapshotPanicsIff(cfg: Settings, run: seq<Label>, look: Look)
    requires ValidRegions(cfg.regions) && Run(cfg, run).phase.Collecting? && Ranges(look.order, Run(cfg, run).cache.installed)
    ensures Next(cfg, Run(cfg, run), Go(look)).phase.Dead? <==>
      cfg.oneCert || AnyTLS(Run(cfg, run).origins) || |cfg.regions| > 3 || BadReading(cfg.regions, look.seen)
  {
    EveryRunKeepsInv(cfg, run);
    CollectDies(cfg, Run(cfg, run), look);
    CrashesIff(cfg, Run(cfg, run), look.seen);
  }

  lemma {:induction false} GatherNothing(order: seq<Name>, hosts: map<Name, seq<VirtualHost>>)
    requires forall n | n in hosts :: hosts[n] == []
    ensures Gather(order, hosts) == []
  {
    if order != [] {
      GatherNothing(order[..|order| - 1], hosts);
    }
  }

  lemma InstalledHasNoExternalHosts(cfg: Settings, s: System, i: nat, n: Name)
    requires Registered(cfg, s) && i < |cfg.regions| && n in s.cache.installed
    requires !cfg.oneCert && s.cache.installed[n].snis == []
    ensures Shaped(cfg, s.cache.installed[n]) && s.cache.installed[n].externalTLS[i] == []
  {
    InstalledShape(cfg, s, n);
    NoTLSNoHosts(cfg, s.origins[n].ing, |s.origins[n].ing.rules|);
  }

  lemma NobodyHasExternalHosts(cfg: Settings, s: System, order: seq<Name>, i: nat)
    requires Registered(cfg, s) && i < |cfg.regions| && !cfg.oneCert
    requires forall n | n in s.cache.installed :: s.cache.installed[n].snis == []
    ensures Gather(order, TLSHosts(s.cache, i)) == []
  {
    var tls := TLSHosts(s.cache, i);
    forall n | n in tls ensures tls[n] == [] {
      InstalledHasNoExternalHosts(cfg, s, i, n);
    }
    GatherNothing(order, tls);
  }

  lemma ListingHasNoExternalHosts(cfg: Settings, s: System, i: nat)
    requires Registered(cfg, s) && s.phase.Listing? && i < |cfg.regions|
    ensures Gather(s.phase.look.order, TLSHosts(s.cache, i)) == []
  {
    assert !SnapshotCrashes(cfg, s.cache.installed, s.phase.look.seen);
    NobodyHasExternalHosts(cfg, s, s.phase.look.order, i);
  }

  /** Every snapshot that is produced has empty external route configurations: nothing is served externally. */
  lemma {:induction false} ExternalConfigsAreEmpty(cfg: Settings, run: seq<Label>, j: nat, i: nat)
    requires ValidRegions(cfg.regions) && j < |Run(cfg, run).taken| && i < |cfg.regions|
    ensures var external := Run(cfg, run).taken[j].snapshot.external; |external| == |cfg.regions| && external[i] == []
  {
    var p := WhenTaken(cfg, run, j);
    EveryRunKeepsInv(cfg, run[..p]);
    ListingHasNoExternalHosts(cfg, Run(cfg, run[..p]), i);
  }

  /** `vh` is the virtual host of an externally visible rule of an ingress in `origins`. */
  ghost predicate FromExternalRule(origins: map<Name, Source>, vh: VirtualHost) {
    exists n, r: nat | n in origins && r < |origins[n].ing.rules| ::
      origins[n].ing.rules[r].visibility == ExternalIP && vh.name == RuleLabel(n, r)
  }

  lemma TLSHostIsNamed(cfg: Settings, ing: Ingress, vh: VirtualHost)
    requires |cfg.regions| > 0 && vh in ExternalTLSHosts(cfg, ing, |ing.rules|)
    ensures exists r: nat | r < |ing.rules| :: ing.rules[r].visibility == ExternalIP && vh.name == RuleLabel(ing.name, r)
  {
    ExternalTLSHostsAreExternal(cfg, ing, |ing.rules|, vh);
  }

  lemma GatheredHostsAreVisible(cfg: Settings, s: System, order: seq<Name>, i: nat, vh: VirtualHost)
    requires Registered(cfg, s) && i < |cfg.regions| && vh in Gather(order, TLSHosts(s.cache, i))
    ensures FromExternalRule(s.origins, vh)
  {
    var tls := TLSHosts(s.cache, i);
    GatherMembers(order, tls, vh);
    var n :| n in order && n in tls && vh in tls[n];
    InstalledShape(cfg, s, n);
    TLSHostIsNamed(cfg, s.origins[n].ing, vh);
  }

  /** What would be gathered for the external listeners, in any reachable state, comes from ExternalIP rules only. */
  lemma {:induction false} ExternalHostsAreVisible(cfg: Settings, run: seq<Label>, order: seq<Name>, i: nat, vh: VirtualHost)
    requires ValidRegions(cfg.regions) && i < |cfg.regions| && vh in Gather(order, TLSHosts(Run(cfg, run).cache, i))
    ensures FromExternalRule(Run(cfg, run).origins, vh)
  {
    EveryRunKeepsInv(cfg, run);
    GatheredHostsAreVisible(cfg, Run(cfg, run), order, i, vh);
  }
}
