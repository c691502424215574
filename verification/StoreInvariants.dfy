/** Invariants of the expiring store under interleaved clock ticks and evictions. */
module StoreInvariants {
  import opened Text
  import opened Kube
  import opened Envoy
  import opened Translator
  import opened TranslationFacts
  import opened ClusterCaching
  import opened Caching
  import opened Protocol
  import opened Registry

  // ---- Keys and locality ----

  /** `key` is the key of a cluster called `cluster`, owned by the ingress that the key spells out. */
  predicate WellKeyed(key: string, cluster: string) {
    var parts := ExplodeKey(key);
    parts.Some? && parts.value.0 == cluster && KeyParts(cluster, parts.value.1) && key == Key(cluster, parts.value.1)
  }

  function Owner(key: string): Name {
    var parts := ExplodeKey(key);
    if parts.Some? then parts.value.1 else Name("", "")
  }

  lemma KeyIsWellKeyed(cluster: string, n: Name)
    requires KeyParts(cluster, n)
    ensures WellKeyed(Key(cluster, n), cluster) && Owner(Key(cluster, n)) == n
  {
    KeyRoundTrip(cluster, n);
  }

  /** A cluster that may sit in the store: colon-free name, endpoints local to the region in its name. */
  ghost predicate Fit(cfg: Settings, worlds: seq<World>, c: Cluster) {
    ':' !in c.name && Local(cfg, worlds, c)
  }

  ghost predicate FitInstalled(cfg: Settings, worlds: seq<World>, installed: map<Name, Translated>) {
    forall n | n in installed :: PlainName(n) && forall c | c in installed[n].clusters :: Fit(cfg, worlds, c)
  }

  ghost predicate FitStore(cfg: Settings, worlds: seq<World>, store: Store) {
    forall k | k in store :: WellKeyed(k, store[k].cluster.name) && Fit(cfg, worlds, store[k].cluster)
  }

  ghost predicate FitPending(cfg: Settings, worlds: seq<World>, now: nat, phase: Phase) {
    phase.Expiring? && phase.pending != Nothing ==>
      && phase.todo != [] && phase.pending.cluster.name == phase.todo[0].name
      && Fit(cfg, worlds, phase.pending.cluster)
      && (phase.pending.Stamped? ==> phase.pending.at <= now)
  }

  ghost predicate Stocked(cfg: Settings, s: System) {
    FitStore(cfg, s.worlds, s.cache.store) && FitPending(cfg, s.worlds, s.now, s.phase)
  }

  lemma FitLater(cfg: Settings, worlds: seq<World>, world: World, c: Cluster)
    requires Fit(cfg, worlds, c)
    ensures Fit(cfg, worlds + [world], c)
  {
    var w, service, i: nat :| w in worlds && i < |cfg.regions| && LocalTo(cfg, w, service, i, c);
    assert w in worlds + [world];
  }

  lemma ClusterIsFit(cfg: Settings, worlds: seq<World>, ch: Change, c: Cluster)
    requires Genuine(cfg, worlds, ch) && c in ch.t.clusters
    ensures Fit(cfg, worlds, c)
  {
    ClustersAreLocal(cfg, ch.source.ing, ch.source.world, ch.t, c);
    var w, service, i: nat :| w in [ch.source.world] && i < |cfg.regions| && LocalTo(cfg, w, service, i, c);
    assert w == ch.source.world;
  }

  lemma InstalledAreFit(cfg: Settings, s: System)
    requires Registered(cfg, s)
    ensures FitInstalled(cfg, s.worlds, s.cache.installed)
  {
    forall n | n in s.cache.installed
      ensures PlainName(n) && forall c | c in s.cache.installed[n].clusters :: Fit(cfg, s.worlds, c)
    {
      var ch := Change(s.origins[n], s.cache.installed[n]);
      TranslationShape(cfg, ch.source.ing, ch.source.world, ch.t);
      forall c | c in ch.t.clusters ensures Fit(cfg, s.worlds, c) {
        ClusterIsFit(cfg, s.worlds, ch, c);
      }
    }
  }

  /** Writing a fit cluster under its own key keeps the store fit. */
  lemma PutStaysFit(cfg: Settings, worlds: seq<World>, store: Store, n: Name, entry: Entry)
    requires FitStore(cfg, worlds, store) && Fit(cfg, worlds, entry.cluster) && PlainName(n)
    ensures FitStore(cfg, worlds, store[Key(entry.cluster.name, n) := entry])
  {
    KeyIsWellKeyed(entry.cluster.name, n);
  }

  /** What is read under a cluster's key carries that cluster's name. */
  lemma ReadIsFit(cfg: Settings, worlds: seq<World>, store: Store, cluster: string, n: Name)
    requires FitStore(cfg, worlds, store) && KeyParts(cluster, n) && Key(cluster, n) in store
    ensures store[Key(cluster, n)].cluster.name == cluster && Fit(cfg, worlds, store[Key(cluster, n)].cluster)
  {
    KeyIsWellKeyed(cluster, n);
    assert WellKeyed(Key(cluster, n), store[Key(cluster, n)].cluster.name);
  }

  lemma ExpireStepStocked(cfg: Settings, s: System)
    requires s.phase.Expiring? && s.phase.todo != [] && KeyParts(s.phase.todo[0].name, s.phase.name) && PlainName(s.phase.name)
    requires Stocked(cfg, s)
    ensures Stocked(cfg, ExpireStep(s))
  {
    var c, n, p := s.phase.todo[0], s.phase.name, s.phase.pending;
    match p
    case Nothing =>
      if Visible(s.cache.store, s.now, Key(c.name, n)) {
        ReadIsFit(cfg, s.worlds, s.cache.store, c.name, n);
      }
    case Got(_) =>
    case Stamped(stale, at) => PutStaysFit(cfg, s.worlds, s.cache.store, n, Entry(stale, Some(at + EXPIRATION)));
  }

  lemma TodoIsFit(cfg: Settings, s: System)
    requires Registered(cfg, s) && s.phase.Expiring? && s.phase.todo != []
    ensures KeyParts(s.phase.todo[0].name, s.phase.name) && PlainName(s.phase.name)
  {
    InstalledAreFit(cfg, s);
    assert s.phase.todo[0] in s.cache.installed[s.phase.name].clusters;
  }

  lemma SetStepStocked(cfg: Settings, s: System)
    requires Registered(cfg, s) && Stocked(cfg, s) && s.phase.Setting?
    ensures Stocked(cfg, SetStep(s))
  {
    InstalledAreFit(cfg, s);
    var t, k := s.phase.change.t, s.phase.done;
    if k < |t.clusters| {
      assert t.clusters[k] in s.cache.installed[t.name].clusters;
      PutStaysFit(cfg, s.worlds, s.cache.store, t.name, Entry(t.clusters[k], None));
    }
  }

  lemma BeginIsQuiet(cfg: Settings, s: System, op: Op)
    requires |cfg.regions| > 0 && s.phase.Free?
    ensures var s' := BeginOp(cfg, s, op);
      && s'.cache == s.cache && s'.marks == s.marks && s'.now == s.now
      && (s'.worlds == s.worlds || (op.UpdateOp? && s'.worlds == s.worlds + [op.source.world]))
      && !s'.phase.Setting? && (s'.phase.Expiring? ==> s'.phase.pending == Nothing)
      && (s'.phase.Expiring? ==> s'.phase.name in s.cache.installed && s'.phase.todo == s.cache.installed[s'.phase.name].clusters)
  {
    match op
    case DeleteOp(n) => StartIsQuiet(s, n, None);
    case SnapshotOp =>
    case UpdateOp(source) =>
      match Translate(cfg, source.ing, source.world)
      case Done(t) => StartIsQuiet(s.(worlds := s.worlds + [source.world]), t.name, Some(Change(source, t)));
      case _ =>
  }

  lemma StartIsQuiet(s: System, n: Name, next: Option<Change>)
    requires s.phase.Free?
    ensures var s' := StartRemoval(s, n, next);
      && s'.cache == s.cache && s'.marks == s.marks && s'.now == s.now && s'.worlds == s.worlds
      && !s'.phase.Setting? && (s'.phase.Expiring? ==> s'.phase.pending == Nothing)
      && (s'.phase.Expiring? ==> s'.phase.name in s.cache.installed && s'.phase.todo == s.cache.installed[s'.phase.name].clusters)
  {
  }

  lemma FitStoreLater(cfg: Settings, worlds: seq<World>, world: World, store: Store)
    requires FitStore(cfg, worlds, store)
    ensures FitStore(cfg, worlds + [world], store)
  {
    forall k | k in store ensures Fit(cfg, worlds + [world], store[k].cluster) {
      FitLater(cfg, worlds, world, store[k].cluster);
    }
  }

  lemma BeginStocked(cfg: Settings, s: System, op: Op)
    requires Stocked(cfg, s) && s.phase.Free? && |cfg.regions| > 0
    ensures Stocked(cfg, BeginOp(cfg, s, op))
  {
    BeginIsQuiet(cfg, s, op);
    if op.UpdateOp? {
      FitStoreLater(cfg, s.worlds, op.source.world, s.cache.store);
    }
  }

  lemma GoStocked(cfg: Settings, s: System, look: Look)
    requires Registered(cfg, s) && Stocked(cfg, s)
    ensures Stocked(cfg, GoOn(cfg, s, look))
  {
    if s.phase.Expiring? && s.phase.todo != [] {
      TodoIsFit(cfg, s);
      ExpireStepStocked(cfg, s);
    } else if s.phase.Setting? {
      SetStepStocked(cfg, s);
    } else {
      QuietStep(cfg, s, look);
    }
  }

  lemma QuietStep(cfg: Settings, s: System, look: Look)
    requires !s.phase.Setting? && !(s.phase.Expiring? && s.phase.todo != [])
    ensures var s' := GoOn(cfg, s, look);
      && s'.worlds == s.worlds && s'.cache.store == s.cache.store && s'.marks == s.marks && s'.now == s.now
      && (s'.phase.Expiring? ==> s'.phase == s.phase)
  {
  }

  lemma EvictStocked(cfg: Settings, s: System, key: string)
    requires Stocked(cfg, s)
    ensures Stocked(cfg, EvictKey(s, key))
  {
  }

  lemma NextStocked(cfg: Settings, s: System, l: Label)
    requires Registered(cfg, s) && Stocked(cfg, s)
    ensures Stocked(cfg, Next(cfg, s, l))
  {
    match l
    case Begin(op) =>
      if s.phase.Free? {
        BeginStocked(cfg, s, op);
      }
    case Go(look) => GoStocked(cfg, s, look);
    case Evict(key) => EvictStocked(cfg, s, key);
    case Tick(_) =>
    case Push(_) =>
  }

  // ---- The store as a function of its history ----

  ghost predicate MarkFits(store: Store, now: nat, key: string, mark: Mark) {
    match mark
    case Live(c) => key in store && store[key] == Entry(c, None)
    case Dropped(c, at) => at <= now && if key in store then store[key] == Entry(c, Some(at + EXPIRATION)) else now > at + EXPIRATION
  }

  ghost predicate Chronicled(store: Store, marks: map<string, Mark>, now: nat) {
    store.Keys <= marks.Keys && forall k | k in marks :: MarkFits(store, now, k, marks[k])
  }

  lemma PutChronicled(store: Store, marks: map<string, Mark>, now: nat, key: string, entry: Entry, mark: Mark)
    requires Chronicled(store, marks, now) && MarkFits(store[key := entry], now, key, mark)
    ensures Chronicled(store[key := entry], marks[key := mark], now)
  {
  }

  lemma ExpireStepChronicled(s: System)
    requires s.phase.Expiring? && s.phase.todo != [] && Chronicled(s.cache.store, s.marks, s.now)
    requires s.phase.pending.Stamped? ==> s.phase.pending.at <= s.now
    ensures var s' := ExpireStep(s); Chronicled(s'.cache.store, s'.marks, s'.now)
  {
    var key, p := Key(s.phase.todo[0].name, s.phase.name), s.phase.pending;
    if p.Stamped? {
      PutChronicled(s.cache.store, s.marks, s.now, key, Entry(p.cluster, Some(p.at + EXPIRATION)), Dropped(p.cluster, p.at));
    }
  }

  lemma GoChronicled(cfg: Settings, s: System, look: Look)
    requires Chronicled(s.cache.store, s.marks, s.now)
    requires s.phase.Expiring? && s.phase.pending.Stamped? ==> s.phase.pending.at <= s.now
    ensures var s' := GoOn(cfg, s, look); Chronicled(s'.cache.store, s'.marks, s'.now)
  {
    if s.phase.Expiring? && s.phase.todo != [] {
      ExpireStepChronicled(s);
    } else if s.phase.Setting? && s.phase.done < |s.phase.change.t.clusters| {
      var c := s.phase.change.t.clusters[s.phase.done];
      PutChronicled(s.cache.store, s.marks, s.now, Key(c.name, s.phase.change.t.name), Entry(c, None), Live(c));
    } else if !s.phase.Setting? {
      QuietStep(cfg, s, look);
    }
  }

  lemma TickChronicled(store: Store, marks: map<string, Mark>, now: nat, later: nat)
    requires Chronicled(store, marks, now) && now <= later
    ensures Chronicled(store, marks, later)
  {
    forall k | k in marks ensures MarkFits(store, later, k, marks[k]) {
      assert MarkFits(store, now, k, marks[k]);
    }
  }

  lemma NextChronicled(cfg: Settings, s: System, l: Label)
    requires |cfg.regions| > 0 && Chronicled(s.cache.store, s.marks, s.now)
    requires s.phase.Expiring? && s.phase.pending.Stamped? ==> s.phase.pending.at <= s.now
    ensures var s' := Next(cfg, s, l); Chronicled(s'.cache.store, s'.marks, s'.now)
  {
    match l
    case Begin(op) =>
      if s.phase.Free? {
        BeginIsQuiet(cfg, s, op);
      }
    case Go(look) => GoChronicled(cfg, s, look);
    case Evict(key) => EvictChronicled(s.cache.store, s.marks, s.now, key);
    case Tick(d) => TickChronicled(s.cache.store, s.marks, s.now, s.now + d);
    case Push(_) =>
  }

  lemma EvictChronicled(store: Store, marks: map<string, Mark>, now: nat, key: string)
    requires Chronicled(store, marks, now)
    ensures !Visible(store, now, key) ==> Chronicled(store - {key}, marks, now)
  {
  }

  /** What a reader sees of a key is decided by the key's last event alone: evictions never show. */
  lemma ViewIsVisible(store: Store, marks: map<string, Mark>, now: nat, key: string)
    requires Chronicled(store, marks, now)
    ensures View(marks, now, key) == if key in Items(store, now) then Some(Items(store, now)[key]) else None
  {
    if key in marks {
      assert MarkFits(store, now, key, marks[key]);
    }
  }

  // ---- Permanent entries ----

  /** All clusters of `n` are in the store for good, the last of each name having won. */
  ghost predicate Holds(store: Store, n: Name, clusters: seq<Cluster>) {
    var p := Permanents(n, clusters);
    forall k | k in p :: k in store && store[k] == p[k]
  }

  predicate Busy(phase: Phase, n: Name) {
    (phase.Expiring? && phase.name == n) || (phase.Setting? && phase.change.t.name == n)
  }

  /** Ingresses nobody is working on hold their clusters; an ingress being added holds those already set. */
  ghost predicate Retained(store: Store, installed: map<Name, Translated>, phase: Phase) {
    && (forall n | n in installed && !Busy(phase, n) :: Holds(store, n, installed[n].clusters))
    && (phase.Setting? ==> phase.done <= |phase.change.t.clusters| && Holds(store, phase.change.t.name, phase.change.t.clusters[..phase.done]))
  }

  /** Only installed clusters are permanent, and those of an ingress being removed only until their turn. */
  ghost predicate Earned(store: Store, installed: map<Name, Translated>, phase: Phase) {
    forall k | Permanent(store, k) ::
      && Owner(k) in installed
      && k in ClusterKeys(Owner(k), installed[Owner(k)].clusters)
      && (phase.Expiring? && phase.name == Owner(k) ==> k in ClusterKeys(Owner(k), phase.todo))
  }

  /** Writing under one ingress's key leaves every other ingress's clusters alone. */
  lemma PutElsewhere(cfg: Settings, worlds: seq<World>, store: Store, installed: map<Name, Translated>,
                     m: Name, n: Name, cluster: string, entry: Entry)
    requires FitInstalled(cfg, worlds, installed) && m in installed && Holds(store, m, installed[m].clusters)
    requires KeyParts(cluster, n) && m != n
    ensures Holds(store[Key(cluster, n) := entry], m, installed[m].clusters)
  {
    PermanentsAre(m, installed[m].clusters);
    var p := Permanents(m, installed[m].clusters);
    forall k | k in p ensures k != Key(cluster, n) {
      assert Fit(cfg, worlds, p[k].cluster);
      KeyInjective(p[k].cluster.name, m, cluster, n);
    }
  }

  lemma PutRetained(cfg: Settings, worlds: seq<World>, store: Store, installed: map<Name, Translated>,
                    phase: Phase, n: Name, cluster: string, entry: Entry)
    requires FitInstalled(cfg, worlds, installed) && KeyParts(cluster, n) && Busy(phase, n)
    requires Retained(store, installed, phase)
    ensures forall m | m in installed && !Busy(phase, m) :: Holds(store[Key(cluster, n) := entry], m, installed[m].clusters)
  {
    forall m | m in installed && !Busy(phase, m) ensures Holds(store[Key(cluster, n) := entry], m, installed[m].clusters) {
      PutElsewhere(cfg, worlds, store, installed, m, n, cluster, entry);
    }
  }

  /** Steps that leave the store alone keep what is held, for the ingresses still installed and idle. */
  lemma ShiftRetained(store: Store, installed: map<Name, Translated>, phase: Phase, installed': map<Name, Translated>, phase': Phase)
    requires Retained(store, installed, phase)
    requires phase'.Setting? ==> phase'.done == 0
    requires forall n | n in installed' && !Busy(phase', n) ::
      n in installed && installed'[n] == installed[n] && Holds(store, n, installed[n].clusters)
    ensures Retained(store, installed', phase')
  {
    if phase'.Setting? {
      assert phase'.change.t.clusters[..0] == [];
    }
  }

  lemma ExpireStepRetained(cfg: Settings, s: System)
    requires FitInstalled(cfg, s.worlds, s.cache.installed) && PhaseFits(cfg, s.worlds, s.cache.installed, s.phase)
    requires s.phase.Expiring? && s.phase.todo != [] && Retained(s.cache.store, s.cache.installed, s.phase)
    ensures var s' := ExpireStep(s); Retained(s'.cache.store, s'.cache.installed, s'.phase)
  {
    var c, n, p := s.phase.todo[0], s.phase.name, s.phase.pending;
    assert c in s.cache.installed[n].clusters;
    if p.Stamped? {
      PutRetained(cfg, s.worlds, s.cache.store, s.cache.installed, s.phase, n, c.name, Entry(p.cluster, Some(p.at + EXPIRATION)));
    } else {
      ExpireStepFrame(s);
      ShiftRetained(s.cache.store, s.cache.installed, s.phase, s.cache.installed, ExpireStep(s).phase);
    }
  }

  lemma RemoveStepRetained(s: System)
    requires s.phase.Expiring? && s.phase.name in s.cache.installed && |s.cache.installed[s.phase.name].internal| > 0
    requires Retained(s.cache.store, s.cache.installed, s.phase)
    ensures var s' := RemoveStep(s); Retained(s'.cache.store, s'.cache.installed, s'.phase)
  {
    var s' := RemoveStep(s);
    ShiftRetained(s.cache.store, s.cache.installed, s.phase, s'.cache.installed, s'.phase);
  }

  lemma AddStepRetained(s: System)
    requires s.phase.Adding? && Retained(s.cache.store, s.cache.installed, s.phase)
    ensures var s' := AddStep(s); Retained(s'.cache.store, s'.cache.installed, s'.phase)
  {
    var s' := AddStep(s);
    ShiftRetained(s.cache.store, s.cache.installed, s.phase, s'.cache.installed, s'.phase);
  }

  lemma GoRetained(cfg: Settings, s: System, look: Look)
    requires FitInstalled(cfg, s.worlds, s.cache.installed) && PhaseFits(cfg, s.worlds, s.cache.installed, s.phase)
    requires Retained(s.cache.store, s.cache.installed, s.phase)
    ensures var s' := GoOn(cfg, s, look); Retained(s'.cache.store, s'.cache.installed, s'.phase)
  {
    match s.phase
    case Expiring(n, todo, _, _) =>
      if todo != [] {
        ExpireStepRetained(cfg, s);
      } else if n in s.cache.installed && |s.cache.installed[n].internal| > 0 {
        RemoveStepRetained(s);
      }
    case Setting(_, _) => SetStepRetained(cfg, s);
    case Adding(_) => AddStepRetained(s);
    case _ =>
      var s' := GoOn(cfg, s, look);
      QuietStep(cfg, s, look);
      OtherStepsFrame(cfg, s, look);
      ShiftRetained(s.cache.store, s.cache.installed, s.phase, s'.cache.installed, s'.phase);
  }

  lemma BeginRetained(cfg: Settings, s: System, op: Op)
    requires |cfg.regions| > 0 && s.phase.Free? && Retained(s.cache.store, s.cache.installed, s.phase)
    ensures var s' := BeginOp(cfg, s, op); Retained(s'.cache.store, s'.cache.installed, s'.phase)
  {
    ShiftRetained(s.cache.store, s.cache.installed, s.phase, s.cache.installed, BeginOp(cfg, s, op).phase);
  }

  lemma SetStepRetained(cfg: Settings, s: System)
    requires FitInstalled(cfg, s.worlds, s.cache.installed) && PhaseFits(cfg, s.worlds, s.cache.installed, s.phase) && s.phase.Setting?
    requires Retained(s.cache.store, s.cache.installed, s.phase)
    ensures var s' := SetStep(s); Retained(s'.cache.store, s'.cache.installed, s'.phase)
  {
    var t, k := s.phase.change.t, s.phase.done;
    if k < |t.clusters| {
      assert t.clusters[k] in s.cache.installed[t.name].clusters;
      PutRetained(cfg, s.worlds, s.cache.store, s.cache.installed, s.phase, t.name, t.clusters[k].name, Entry(t.clusters[k], None));
      assert t.clusters[..k + 1][..k] == t.clusters[..k];
    } else {
      assert t.clusters[..k] == t.clusters;
    }
  }

  lemma NextRetained(cfg: Settings, s: System, l: Label)
    requires Registered(cfg, s) && Retained(s.cache.store, s.cache.installed, s.phase)
    ensures var s' := Next(cfg, s, l); Retained(s'.cache.store, s'.cache.installed, s'.phase)
  {
    if l.Go? {
      InstalledAreFit(cfg, s);
      GoRetained(cfg, s, l.look);
    } else if l.Evict? {
      EvictRetained(s, l.key);
    } else if l.Begin? && s.phase.Free? {
      BeginRetained(cfg, s, l.op);
    }
  }

  lemma EvictRetained(s: System, key: string)
    requires Retained(s.cache.store, s.cache.installed, s.phase)
    ensures var s' := EvictKey(s, key); Retained(s'.cache.store, s'.cache.installed, s'.phase)
  {
    forall n, clusters | Holds(s.cache.store, n, clusters) ensures Holds(EvictKey(s, key).cache.store, n, clusters) {
      PermanentsAre(n, clusters);
    }
  }

  lemma FirstKey(n: Name, todo: seq<Cluster>)
    requires todo != []
    ensures ClusterKeys(n, todo) == {Key(todo[0].name, n)} + ClusterKeys(n, todo[1..])
  {
    assert todo == [todo[0]] + todo[1..];
  }

  /** Nothing becomes permanent, and the cluster just treated is permanent no longer. */
  lemma ExpireStepPermanents(s: System, k: string)
    requires s.phase.Expiring? && s.phase.todo != [] && Permanent(ExpireStep(s).cache.store, k)
    ensures Permanent(s.cache.store, k)
    ensures var s' := ExpireStep(s); s'.phase.todo != s.phase.todo ==> k != Key(s.phase.todo[0].name, s.phase.name)
  {
  }

  lemma ExpireStepEarned(s: System)
    requires s.phase.Expiring? && s.phase.todo != []
    requires Earned(s.cache.store, s.cache.installed, s.phase)
    ensures var s' := ExpireStep(s); Earned(s'.cache.store, s'.cache.installed, s'.phase)
  {
    var s' := ExpireStep(s);
    assert s'.cache.installed == s.cache.installed && s'.phase.Expiring? && s'.phase.name == s.phase.name;
    assert s'.phase.todo == s.phase.todo || s'.phase.todo == s.phase.todo[1..];
    FirstKey(s.phase.name, s.phase.todo);
    forall k | Permanent(s'.cache.store, k)
      ensures Permanent(s.cache.store, k)
      ensures s'.phase.todo != s.phase.todo ==> k != Key(s.phase.todo[0].name, s.phase.name)
    {
      ExpireStepPermanents(s, k);
    }
  }

  lemma SetStepEarned(cfg: Settings, s: System)
    requires FitInstalled(cfg, s.worlds, s.cache.installed) && PhaseFits(cfg, s.worlds, s.cache.installed, s.phase) && s.phase.Setting?
    requires Earned(s.cache.store, s.cache.installed, s.phase)
    ensures var s' := SetStep(s); Earned(s'.cache.store, s'.cache.installed, s'.phase)
  {
    var t, k, s' := s.phase.change.t, s.phase.done, SetStep(s);
    if k < |t.clusters| {
      var c := t.clusters[k];
      assert c in s.cache.installed[t.name].clusters;
      KeyIsWellKeyed(c.name, t.name);
      assert forall key | Permanent(s'.cache.store, key) :: Permanent(s.cache.store, key) || key == Key(c.name, t.name);
    }
  }

  lemma RemoveStepEarned(s: System)
    requires s.phase.Expiring? && s.phase.todo == []
    requires s.phase.name in s.cache.installed && |s.cache.installed[s.phase.name].internal| > 0
    requires Earned(s.cache.store, s.cache.installed, s.phase)
    ensures var s' := RemoveStep(s); Earned(s'.cache.store, s'.cache.installed, s'.phase)
  {
    forall k | Permanent(s.cache.store, k) ensures Owner(k) != s.phase.name {
      assert ClusterKeys(s.phase.name, []) == {};
    }
  }

  lemma GoEarned(cfg: Settings, s: System, look: Look)
    requires FitInstalled(cfg, s.worlds, s.cache.installed) && PhaseFits(cfg, s.worlds, s.cache.installed, s.phase)
    requires Earned(s.cache.store, s.cache.installed, s.phase)
    ensures var s' := GoOn(cfg, s, look); Earned(s'.cache.store, s'.cache.installed, s'.phase)
  {
    match s.phase
    case Expiring(n, todo, _, _) =>
      if todo != [] {
        ExpireStepEarned(s);
      } else if n in s.cache.installed && |s.cache.installed[n].internal| > 0 {
        RemoveStepEarned(s);
      }
    case Setting(_, _) => SetStepEarned(cfg, s);
    case Adding(_) => AddStepEarned(s);
    case _ =>
      QuietStep(cfg, s, look);
      OtherStepsFrame(cfg, s, look);
  }

  lemma AddStepEarned(s: System)
    requires s.phase.Adding? && Earned(s.cache.store, s.cache.installed, s.phase)
    requires s.phase.change.t.name !in s.cache.installed
    ensures var s' := AddStep(s); Earned(s'.cache.store, s'.cache.installed, s'.phase)
  {
    var s' := AddStep(s);
    assert s'.cache.store == s.cache.store && !s'.phase.Expiring?;
    assert forall n | n in s.cache.installed :: n in s'.cache.installed && s'.cache.installed[n] == s.cache.installed[n];
  }

  lemma NextEarned(cfg: Settings, s: System, l: Label)
    requires Registered(cfg, s) && Earned(s.cache.store, s.cache.installed, s.phase)
    ensures var s' := Next(cfg, s, l); Earned(s'.cache.store, s'.cache.installed, s'.phase)
  {
    match l
    case Go(look) =>
      InstalledAreFit(cfg, s);
      GoEarned(cfg, s, look);
    case Evict(key) => EvictEarned(s, key);
    case Begin(op) =>
      if s.phase.Free? {
        BeginIsQuiet(cfg, s, op);
      }
    case Tick(_) =>
    case Push(_) =>
  }

  lemma EvictEarned(s: System, key: string)
    requires Earned(s.cache.store, s.cache.installed, s.phase)
    ensures var s' := EvictKey(s, key); Earned(s'.cache.store, s'.cache.installed, s'.phase)
  {
    assert forall k | Permanent(EvictKey(s, key).cache.store, k) :: Permanent(s.cache.store, k);
  }
}
