/** Invariants of the lock-protected data: provenance, index agreement and agreement with the atomic specification. */
module Registry {
  import opened Text
  import opened Kube
  import opened Envoy
  import opened Translator
  import opened TranslationFacts
  import opened Routing
  import opened Caching
  import opened Protocol

  ghost predicate Genuine(cfg: Settings, worlds: seq<World>, ch: Change) {
    IsTranslation(cfg, ch.source.ing, ch.source.world, ch.t) && ch.source.world in worlds
  }

  /** Every installed translation is the translation of the ingress filed under its name. */
  ghost predicate Provenance(cfg: Settings, worlds: seq<World>, origins: map<Name, Source>, installed: map<Name, Translated>) {
    && origins.Keys == installed.Keys
    && (forall n | n in origins :: Genuine(cfg, worlds, Change(origins[n], installed[n])))
  }

  ghost predicate PhaseFits(cfg: Settings, worlds: seq<World>, installed: map<Name, Translated>, phase: Phase) {
    match phase
    case Expiring(n, todo, pending, next) =>
      && n in installed && Suffix(todo, installed[n].clusters)
      && (pending != Nothing ==> todo != [])
      && (next.Some? ==> Genuine(cfg, worlds, next.value) && next.value.t.name == n)
    case Adding(ch) => Genuine(cfg, worlds, ch) && ch.t.name !in installed
    case Setting(ch, k) => ch.t.name in installed && installed[ch.t.name] == ch.t && k <= |ch.t.clusters|
    case Listing(look) => Ranges(look.order, installed) && !SnapshotCrashes(cfg, installed, look.seen)
    case _ => true
  }

  ghost predicate Registered(cfg: Settings, s: System) {
    && ValidRegions(cfg.regions)
    && Provenance(cfg, s.worlds, s.origins, s.cache.installed)
    && Indexed(cfg, s.cache.installed, s.cache.domains)
    && PhaseFits(cfg, s.worlds, s.cache.installed, s.phase)
  }

  predicate Suffix(a: seq<Cluster>, b: seq<Cluster>) {
    |a| <= |b| && a == b[|b| - |a|..]
  }

  lemma RegisteredInitially(cfg: Settings)
    requires ValidRegions(cfg.regions)
    ensures Registered(cfg, INITIAL)
  {
  }

  lemma RemoveStepRegistered(cfg: Settings, s: System)
    requires Registered(cfg, s) && s.phase.Expiring? && s.phase.todo == []
    ensures s.phase.name in s.cache.installed && |s.cache.installed[s.phase.name].internal| > 0
    ensures Registered(cfg, RemoveStep(s))
  {
    var n := s.phase.name;
    RemoveKeepsIndex(cfg, s.cache, s.now, n);
    var s' := RemoveStep(s);
    assert s'.cache == Remove(cfg, s.cache, s.now, n).(store := s.cache.store);
    ProvenanceShrinks(cfg, s.worlds, s.origins, s.cache.installed, n);
  }

  lemma ProvenanceShrinks(cfg: Settings, worlds: seq<World>, origins: map<Name, Source>, installed: map<Name, Translated>, n: Name)
    requires Provenance(cfg, worlds, origins, installed)
    ensures Provenance(cfg, worlds, origins - {n}, installed - {n})
  {
  }

  lemma ProvenanceGrows(cfg: Settings, worlds: seq<World>, origins: map<Name, Source>, installed: map<Name, Translated>, ch: Change)
    requires Provenance(cfg, worlds, origins, installed) && Genuine(cfg, worlds, ch)
    ensures Provenance(cfg, worlds, origins[ch.t.name := ch.source], installed[ch.t.name := ch.t])
  {
  }

  lemma MoreWorlds(cfg: Settings, worlds: seq<World>, world: World, origins: map<Name, Source>, installed: map<Name, Translated>)
    requires Provenance(cfg, worlds, origins, installed)
    ensures Provenance(cfg, worlds + [world], origins, installed)
  {
    forall n | n in origins ensures Genuine(cfg, worlds + [world], Change(origins[n], installed[n])) {
      assert Genuine(cfg, worlds, Change(origins[n], installed[n]));
    }
  }

  lemma AddStepRegistered(cfg: Settings, s: System)
    requires Registered(cfg, s) && s.phase.Adding?
    ensures Registered(cfg, AddStep(s))
  {
    var Change(source, t) := s.phase.change;
    TranslationShape(cfg, source.ing, source.world, t);
    TranslationIsUniform(cfg, source.ing, source.world, t);
    AddKeepsIndex(cfg, s.cache, t);
    ProvenanceGrows(cfg, s.worlds, s.origins, s.cache.installed, s.phase.change);
  }

  lemma BeginRegistered(cfg: Settings, s: System, op: Op)
    requires Registered(cfg, s) && s.phase.Free?
    ensures Registered(cfg, BeginOp(cfg, s, op))
  {
    if op.UpdateOp? && Admitted(op.source.ing) && Translate(cfg, op.source.ing, op.source.world).Done? {
      var t := Translate(cfg, op.source.ing, op.source.world).value;
      MoreWorlds(cfg, s.worlds, op.source.world, s.origins, s.cache.installed);
      assert Genuine(cfg, s.worlds + [op.source.world], Change(op.source, t));
    }
  }

  /** Expiring one cluster moves on in the list or in the three steps, and touches no registry data. */
  lemma ExpireStepFrame(s: System)
    requires s.phase.Expiring? && s.phase.todo != []
    ensures var s' := ExpireStep(s);
      && s'.worlds == s.worlds && s'.origins == s.origins && s'.commits == s.commits
      && s'.cache.installed == s.cache.installed && s'.cache.domains == s.cache.domains
    ensures var p, p' := s.phase, ExpireStep(s).phase;
      && p'.Expiring? && p'.name == p.name && p'.next == p.next
      && (p'.todo == p.todo || (p'.todo == p.todo[1..] && p'.pending == Nothing))
  {
  }

  lemma ExpireStepFits(cfg: Settings, s: System)
    requires s.phase.Expiring? && s.phase.todo != [] && PhaseFits(cfg, s.worlds, s.cache.installed, s.phase)
    ensures var s' := ExpireStep(s); PhaseFits(cfg, s'.worlds, s'.cache.installed, s'.phase)
    ensures var s' := ExpireStep(s);
      s'.worlds == s.worlds && s'.origins == s.origins && s'.cache.installed == s.cache.installed && s'.cache.domains == s.cache.domains
  {
    ExpireStepFrame(s);
    SuffixTail(s.phase.todo, s.cache.installed[s.phase.name].clusters);
  }

  lemma SuffixTail(a: seq<Cluster>, b: seq<Cluster>)
    requires a != [] && Suffix(a, b)
    ensures Suffix(a[1..], b)
  {
  }

  lemma GoRegistered(cfg: Settings, s: System, look: Look)
    requires Registered(cfg, s)
    ensures Registered(cfg, GoOn(cfg, s, look))
  {
    match s.phase
    case Expiring(_, todo, _, _) =>
      if todo != [] {
        ExpireStepFits(cfg, s);
      } else {
        RemoveStepRegistered(cfg, s);
      }
    case Adding(_) => AddStepRegistered(cfg, s);
    case _ => OtherStepsFit(cfg, s, look);
  }

  lemma OtherStepsFrame(cfg: Settings, s: System, look: Look)
    requires !s.phase.Expiring? && !s.phase.Adding?
    ensures var s' := GoOn(cfg, s, look);
      && s'.worlds == s.worlds && s'.origins == s.origins && s'.commits == s.commits
      && s'.cache.installed == s.cache.installed && s'.cache.domains == s.cache.domains
    ensures var p, p' := s.phase, GoOn(cfg, s, look).phase;
      || p' == p || p'.Free? || p'.Dead?
      || (p.Setting? && p.done < |p.change.t.clusters| && p' == p.(done := p.done + 1))
      || (p' == Listing(look) && Ranges(look.order, s.cache.installed) && !SnapshotCrashes(cfg, s.cache.installed, look.seen))
  {
  }

  lemma OtherStepsFit(cfg: Settings, s: System, look: Look)
    requires !s.phase.Expiring? && !s.phase.Adding? && PhaseFits(cfg, s.worlds, s.cache.installed, s.phase)
    ensures var s' := GoOn(cfg, s, look); PhaseFits(cfg, s'.worlds, s'.cache.installed, s'.phase)
    ensures var s' := GoOn(cfg, s, look);
      s'.worlds == s.worlds && s'.origins == s.origins && s'.cache.installed == s.cache.installed && s'.cache.domains == s.cache.domains
  {
    OtherStepsFrame(cfg, s, look);
  }

  lemma NextRegistered(cfg: Settings, s: System, l: Label)
    requires Registered(cfg, s)
    ensures Registered(cfg, Next(cfg, s, l))
  {
    match l
    case Begin(op) =>
      if s.phase.Free? {
        BeginRegistered(cfg, s, op);
      }
    case Go(look) => GoRegistered(cfg, s, look);
    case _ =>
  }

  // ---- Agreement with the atomic specification ----

  function Specs(origins: map<Name, Source>): map<Name, Ingress> {
    map n | n in origins :: origins[n].ing
  }

  lemma SpecsConsistent(cfg: Settings, s: System)
    requires Registered(cfg, s)
    ensures Consistent(Specs(s.origins))
  {
    var specs := Specs(s.origins);
    forall n | n in specs ensures Admitted(specs[n]) && specs[n].name == n {
      var t := s.cache.installed[n];
      TranslationShape(cfg, s.origins[n].ing, s.origins[n].world, t);
    }
    forall m, n | m in specs && n in specs && m != n ensures !ShareHost(specs[m], specs[n]) {
      var a, b := s.origins[m], s.origins[n];
      OverlapIsSharedHost(cfg, a.ing, a.world, s.cache.installed[m], b.ing, b.world, s.cache.installed[n]);
    }
  }

  /** Between removing an old version and adding the new one, the map is one operation behind. */
  ghost predicate Committed(s: System) {
    CommitsFit(Specs(s.origins), s.commits, if s.phase.Adding? then Some(s.phase.change.t.name) else None)
  }

  ghost predicate CommitsFit(specs: map<Name, Ingress>, commits: seq<Commit>, pending: Option<Name>) {
    Lawful(commits) && specs == (if pending.Some? then Atomic(commits) - {pending.value} else Atomic(commits))
  }

  lemma OneMoreCommit(commits: seq<Commit>, c: Commit)
    requires Lawful(commits)
    requires c.Accepted? ==> !Contested(Atomic(commits), c.ing)
    requires c.Refused? ==> Contested(Atomic(commits), c.ing)
    ensures Lawful(commits + [c])
    ensures Atomic(commits + [c]) == AfterCommit(Atomic(commits), c)
  {
    var all := commits + [c];
    assert all[..|commits|] == commits;
    forall k | 0 <= k < |all| ensures LawfulAt(all, k) {
      if k < |commits| {
        assert all[..k] == commits[..k] && all[k] == commits[k];
        assert LawfulAt(commits, k);
      }
    }
  }

  /** The index answers "taken" exactly when the specification finds a shared host. */
  lemma ConflictIsContest(cfg: Settings, s: System)
    requires Registered(cfg, s) && Committed(s) && s.phase.Adding?
    ensures Conflicts(s.cache, s.phase.change.t) <==> Contested(Atomic(s.commits), s.phase.change.source.ing)
  {
    var Change(source, t) := s.phase.change;
    var specs, atomic := Specs(s.origins), Atomic(s.commits);
    TranslationShape(cfg, source.ing, source.world, t);
    ConflictHasHolder(cfg, s.cache, t);
    forall m | m in s.cache.installed
      ensures m != t.name && m in atomic && (Overlap(s.cache.installed[m], t) <==> ShareHost(atomic[m], source.ing))
    {
      assert m in specs && specs[m] == atomic[m];
      OverlapIsSharedHost(cfg, s.origins[m].ing, s.origins[m].world, s.cache.installed[m], source.ing, source.world, t);
    }
    if Contested(atomic, source.ing) {
      var m :| m in atomic && m != t.name && ShareHost(atomic[m], source.ing);
      assert m in specs;
    }
  }

  lemma SpecsPut(origins: map<Name, Source>, n: Name, source: Source)
    ensures Specs(origins[n := source]) == Specs(origins)[n := source.ing]
  {
  }

  lemma SpecsDrop(origins: map<Name, Source>, n: Name)
    ensures Specs(origins - {n}) == Specs(origins) - {n}
  {
  }

  lemma PutAfterDrop<K, V>(m: map<K, V>, k: K, v: V)
    ensures (m - {k})[k := v] == m[k := v]
  {
  }

  /** Recording the verdict of an update completes it. */
  lemma VerdictFits(specs: map<Name, Ingress>, commits: seq<Commit>, verdict: Commit)
    requires !verdict.Deleted? && CommitsFit(specs, commits, Some(verdict.ing.name))
    requires verdict.Accepted? <==> !Contested(Atomic(commits), verdict.ing)
    ensures CommitsFit(if verdict.Accepted? then specs[verdict.ing.name := verdict.ing] else specs, commits + [verdict], None)
  {
    OneMoreCommit(commits, verdict);
    PutAfterDrop(Atomic(commits), verdict.ing.name, verdict.ing);
  }

  lemma AddStepCommitted(cfg: Settings, s: System)
    requires Registered(cfg, s) && Committed(s) && s.phase.Adding?
    ensures Committed(AddStep(s))
  {
    var Change(source, t) := s.phase.change;
    assert source.ing.name == t.name by {
      TranslationShape(cfg, source.ing, source.world, t);
    }
    ConflictIsContest(cfg, s);
    SpecsPut(s.origins, t.name, source);
    if Conflicts(s.cache, t) {
      VerdictFits(Specs(s.origins), s.commits, Refused(source.ing));
    } else {
      VerdictFits(Specs(s.origins), s.commits, Accepted(source.ing));
    }
  }

  lemma DeletionFits(specs: map<Name, Ingress>, commits: seq<Commit>, n: Name)
    requires CommitsFit(specs, commits, None)
    ensures CommitsFit(specs - {n}, commits + [Deleted(n)], None)
    ensures CommitsFit(specs - {n}, commits, Some(n))
    ensures n !in specs ==> specs - {n} == specs
  {
    OneMoreCommit(commits, Deleted(n));
  }

  lemma RemoveStepCommitted(s: System)
    requires s.phase.Expiring? && s.phase.name in s.cache.installed && |s.cache.installed[s.phase.name].internal| > 0
    requires CommitsFit(Specs(s.origins), s.commits, None) && (s.phase.next.Some? ==> s.phase.next.value.t.name == s.phase.name)
    ensures Committed(RemoveStep(s))
  {
    SpecsDrop(s.origins, s.phase.name);
    DeletionFits(Specs(s.origins), s.commits, s.phase.name);
  }

  lemma StartRemovalCommitted(s: System, n: Name, next: Option<Change>)
    requires s.phase.Free? && CommitsFit(Specs(s.origins), s.commits, None)
    requires s.origins.Keys == s.cache.installed.Keys && (next.Some? ==> next.value.t.name == n)
    ensures Committed(StartRemoval(s, n, next))
  {
    DeletionFits(Specs(s.origins), s.commits, n);
  }

  lemma BeginCommitted(cfg: Settings, s: System, op: Op)
    requires |cfg.regions| > 0 && s.origins.Keys == s.cache.installed.Keys && Committed(s) && s.phase.Free?
    ensures Committed(BeginOp(cfg, s, op))
  {
    match op
    case DeleteOp(n) => StartRemovalCommitted(s, n, None);
    case SnapshotOp =>
    case UpdateOp(source) =>
      match Translate(cfg, source.ing, source.world)
      case Done(t) => StartRemovalCommitted(s.(worlds := s.worlds + [source.world]), t.name, Some(Change(source, t)));
      case _ =>
  }

  lemma GoCommitted(cfg: Settings, s: System, look: Look)
    requires Registered(cfg, s) && Committed(s)
    ensures Committed(GoOn(cfg, s, look))
  {
    match s.phase
    case Expiring(_, todo, _, _) =>
      if todo == [] {
        RemoveStepRegistered(cfg, s);
        RemoveStepCommitted(s);
      } else {
        ExpireStepIsQuiet(s);
      }
    case Adding(_) => AddStepCommitted(cfg, s);
    case _ => OtherStepsAreQuiet(cfg, s, look);
  }

  lemma ExpireStepIsQuiet(s: System)
    requires s.phase.Expiring? && s.phase.todo != []
    ensures var s' := ExpireStep(s); s'.origins == s.origins && s'.commits == s.commits && s'.phase.Expiring?
  {
  }

  lemma OtherStepsAreQuiet(cfg: Settings, s: System, look: Look)
    requires !s.phase.Expiring? && !s.phase.Adding?
    ensures var s' := GoOn(cfg, s, look); s'.origins == s.origins && s'.commits == s.commits && !s'.phase.Adding?
  {
  }

  lemma NextCommitted(cfg: Settings, s: System, l: Label)
    requires Registered(cfg, s) && Committed(s)
    ensures Committed(Next(cfg, s, l))
  {
    match l
    case Begin(op) =>
      if s.phase.Free? {
        BeginCommitted(cfg, s, op);
      }
    case Go(look) => GoCommitted(cfg, s, look);
    case _ =>
  }
}
