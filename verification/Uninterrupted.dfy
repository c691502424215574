/** The steps of the protocol, run without interruption, are the cache object's own operations. */
module Uninterrupted {
  import opened Text
  import opened Kube
  import opened Envoy
  import opened Translator
  import opened ClusterCaching
  import opened Caching
  import opened SourcePrefixes
  import opened Protocol
  import opened Registry

  /** Only a snapshot looks at anything. */
  const NO_LOOK := Look([], Readings(Inventory([], []), Inventory([], []), Inventory([], [])))

  function Stage(p: Phase): nat {
    if p.Expiring? then 3 else if p.Adding? then 2 else if p.Setting? then 1 else 0
  }

  function Left(p: Phase): nat {
    match p
    case Expiring(_, todo, pending, _) => 3 * |todo| + (match pending case Nothing => 2 case Got(_) => 1 case Stamped(_, _) => 0)
    case Setting(ch, k) => if k <= |ch.t.clusters| then |ch.t.clusters| - k else 0
    case _ => 0
  }

  predicate Stuck(s: System) {
    s.phase.Expiring? && s.phase.todo == []
    && !(s.phase.name in s.cache.installed && |s.cache.installed[s.phase.name].internal| > 0)
  }

  /** The lock holder runs to the end with no tick and no eviction in between. */
  function Finish(cfg: Settings, s: System): System
    decreases Stage(s.phase), Left(s.phase)
  {
    if Stage(s.phase) == 0 || Stuck(s) then s else Finish(cfg, GoOn(cfg, s, NO_LOOK))
  }

  /** What is visible survives the three steps of one `setExpiration` as one drop. */
  lemma VisibleStep(s: System)
    requires s.phase.Expiring? && s.phase.todo != [] && s.phase.pending == Nothing
    requires Visible(s.cache.store, s.now, Key(s.phase.todo[0].name, s.phase.name))
    ensures var s1 := ExpireStep(s); s1.phase.Expiring? && s1.phase.todo == s.phase.todo
    ensures var s2 := ExpireStep(ExpireStep(s)); s2.phase.Expiring? && s2.phase.todo == s.phase.todo
    ensures Advanced(s, ExpireStep(ExpireStep(ExpireStep(s))))
  {
    var key := Key(s.phase.todo[0].name, s.phase.name);
    var s3 := ExpireStep(ExpireStep(ExpireStep(s)));
    assert s3.cache.store == Drop(s.cache.store, s.now, {key});
  }

  /** What is not visible is not touched, and dropping it changes nothing. */
  lemma InvisibleStep(s: System)
    requires s.phase.Expiring? && s.phase.todo != [] && s.phase.pending == Nothing
    requires !Visible(s.cache.store, s.now, Key(s.phase.todo[0].name, s.phase.name))
    ensures Advanced(s, ExpireStep(s))
  {
    assert s.cache.store == Drop(s.cache.store, s.now, {Key(s.phase.todo[0].name, s.phase.name)});
  }

  lemma FinishStep(cfg: Settings, s: System)
    requires s.phase.Expiring? && s.phase.todo != []
    ensures Finish(cfg, s) == Finish(cfg, ExpireStep(s))
  {
  }

  lemma ExpireOne(cfg: Settings, s: System)
    requires s.phase.Expiring? && s.phase.todo != [] && s.phase.pending == Nothing
    ensures exists s' :: Finish(cfg, s) == Finish(cfg, s') && Advanced(s, s')
  {
    FinishStep(cfg, s);
    if Visible(s.cache.store, s.now, Key(s.phase.todo[0].name, s.phase.name)) {
      VisibleStep(s);
      FinishStep(cfg, ExpireStep(s));
      FinishStep(cfg, ExpireStep(ExpireStep(s)));
    } else {
      InvisibleStep(s);
    }
  }

  /** From `s` to `s'` exactly the next cluster was dropped. */
  ghost predicate Advanced(s: System, s': System)
    requires s.phase.Expiring? && s.phase.todo != []
  {
    && s'.phase == s.phase.(todo := s.phase.todo[1..], pending := Nothing) && s'.now == s.now
    && s'.cache == s.cache.(store := Drop(s.cache.store, s.now, {Key(s.phase.todo[0].name, s.phase.name)}))
  }

  /** `done` of the ingress's clusters have been dropped from `base`. */
  ghost predicate Dropping(s: System, base: Store, done: nat) {
    && s.phase.Expiring? && s.phase.pending == Nothing && s.phase.name in s.cache.installed
    && var all := s.cache.installed[s.phase.name].clusters;
       done <= |all| && s.phase.todo == all[done..] && s.cache.store == Drop(base, s.now, ClusterKeys(s.phase.name, all[..done]))
  }

  /** `s'` is `s` with all the ingress's clusters dropped from `base`. */
  ghost predicate AllDropped(s: System, s': System, base: Store)
    requires s.phase.Expiring? && s.phase.name in s.cache.installed
  {
    && s'.now == s.now && s'.phase == s.phase.(todo := [])
    && s'.cache == s.cache.(store := Drop(base, s.now, ClusterKeys(s.phase.name, s.cache.installed[s.phase.name].clusters)))
  }

  lemma {:induction false} FinishExpiring(cfg: Settings, s: System, base: Store, done: nat)
    requires Dropping(s, base, done)
    ensures exists s' :: Finish(cfg, s) == Finish(cfg, s') && AllDropped(s, s', base)
    decreases |s.phase.todo|
  {
    var n := s.phase.name;
    var all := s.cache.installed[n].clusters;
    if done == |all| {
      assert all[..done] == all && s.phase.todo == [];
      assert AllDropped(s, s, base);
    } else {
      ExpireOne(cfg, s);
      var s' :| Finish(cfg, s) == Finish(cfg, s') && Advanced(s, s');
      DropOneMore(base, s.now, n, all, done);
      FinishExpiring(cfg, s', base, done + 1);
    }
  }

  lemma {:induction false} FinishSetting(cfg: Settings, s: System, base: Store)
    requires s.phase.Setting? && s.phase.done <= |s.phase.change.t.clusters|
    requires s.cache.store == base + Permanents(s.phase.change.t.name, s.phase.change.t.clusters[..s.phase.done])
    ensures Finish(cfg, s).cache == s.cache.(store := base + Permanents(s.phase.change.t.name, s.phase.change.t.clusters))
    ensures Finish(cfg, s).phase.Free?
    decreases |s.phase.change.t.clusters| - s.phase.done
  {
    var t, k, s' := s.phase.change.t, s.phase.done, SetStep(s);
    assert Finish(cfg, s) == Finish(cfg, s');
    if k < |t.clusters| {
      PermanentsStep(base, t.name, t.clusters, k);
      FinishSetting(cfg, s', base);
    } else {
      assert t.clusters[..k] == t.clusters;
    }
  }

  lemma FinishAdding(cfg: Settings, s: System)
    requires s.phase.Adding?
    ensures Finish(cfg, s).cache == Add(s.cache, s.phase.change.t) && Finish(cfg, s).phase.Free?
  {
    var t := s.phase.change.t;
    var s' := AddStep(s);
    assert Finish(cfg, s) == Finish(cfg, s');
    if !Conflicts(s.cache, t) {
      assert t.clusters[..0] == [];
      assert s.cache.store + map[] == s.cache.store;
      FinishSetting(cfg, s', s.cache.store);
    }
  }

  lemma FinishRemoval(cfg: Settings, s: System, n: Name, next: Option<Change>)
    requires |cfg.regions| > 0 && ShapedState(cfg, s.cache) && s.phase.Free?
    requires next.Some? ==> next.value.t.name == n
    ensures var c := Remove(cfg, s.cache, s.now, n);
      Finish(cfg, StartRemoval(s, n, next)).cache == (if next.Some? then Add(c, next.value.t) else c)
    ensures Finish(cfg, StartRemoval(s, n, next)).phase.Free?
  {
    var s1 := StartRemoval(s, n, next);
    if n in s.cache.installed {
      var all := s.cache.installed[n].clusters;
      assert all[0..] == all && ClusterKeys(n, all[..0]) == {};
      assert Drop(s.cache.store, s.now, {}) == s.cache.store;
      FinishExpiring(cfg, s1, s.cache.store, 0);
      var s2 :| Finish(cfg, s1) == Finish(cfg, s2) && AllDropped(s1, s2, s.cache.store);
      var s3 := RemoveStep(s2);
      assert Finish(cfg, s2) == Finish(cfg, s3);
      assert s3.cache == Remove(cfg, s.cache, s.now, n);
      if next.Some? {
        FinishAdding(cfg, s3);
      }
    } else if next.Some? {
      FinishAdding(cfg, s1);
    }
  }

  /** An uninterrupted update is `Caches.UpdateIngress`, an uninterrupted deletion `Caches.DeleteIngressInfo`. */
  lemma UninterruptedIsObject(cfg: Settings, s: System, op: Op)
    requires Registered(cfg, s) && s.phase.Free?
    ensures op.DeleteOp? ==> Finish(cfg, BeginOp(cfg, s, op)).cache == Remove(cfg, s.cache, s.now, op.name)
    ensures op.UpdateOp? && Admitted(op.source.ing) && Translate(cfg, op.source.ing, op.source.world).Done? ==>
      Finish(cfg, BeginOp(cfg, s, op)).cache
      == Update(cfg, s.cache, s.now, Translate(cfg, op.source.ing, op.source.world).value)
  {
    if op.DeleteOp? {
      FinishRemoval(cfg, s, op.name, None);
    }
    if op.UpdateOp? && Admitted(op.source.ing) && Translate(cfg, op.source.ing, op.source.world).Done? {
      var t := Translate(cfg, op.source.ing, op.source.world).value;
      FinishRemoval(cfg, s.(worlds := s.worlds + [op.source.world]), t.name, Some(Change(op.source, t)));
    }
  }
}
