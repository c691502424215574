/** The reconciler: translate, update the cache, push a snapshot, report a status. */
module Reconciling {
  import opened Text
  import opened Kube
  import opened Envoy
  import opened Translator
  import opened TranslatorLoops
  import opened Caching
  import opened Routing
  import Guarantees

  /** How updating an ingress ends: nil, the conflict error, another error, or a panic. */
  datatype UpdateResult = Updated | DomainConflict | UpdateError | Panicked

  /** The mark a reconciliation leaves on the ingress's status. */
  datatype Condition = Unset | Conflicting | NotReconciled | Settled | LoadBalancerReady | LoadBalancerNotReady

  lemma TranslationIsShaped(cfg: Settings, ing: Ingress, world: World)
    requires |cfg.regions| > 0 && Translate(cfg, ing, world).Done?
    ensures Shaped(cfg, Translate(cfg, ing, world).value) && Translate(cfg, ing, world).value.name == ing.name
  {
  }

  /** The filter of `resyncConflicts`, on the reason of the ingress's load balancer condition. */
  predicate Resynced(reason: string) {
    reason == "" || reason == "DomainConflict"
  }

  class Reconciler {
    const caches: Caches
    var pushed: Option<Snapshot>
    var enqueued: seq<Name>

    constructor (caches: Caches)
      ensures this.caches == caches && pushed == None && enqueued == []
    {
      this.caches, pushed, enqueued := caches, None, [];
    }

    /**
      `UpdateInfoForIngress`: only a completed translation reaches the cache. `probed` is the ingress
      with its probe header, `None` when the header could not be added.
     */
    method UpdateInfoForIngress(now: nat, probed: Option<Ingress>, world: World) returns (result: UpdateResult)
      requires caches.Valid()
      modifies caches, caches.clusters
      ensures caches.Valid()
      ensures probed.None? || !Translate(caches.cfg, probed.value, world).Done? ==> caches.State() == old(caches.State())
      ensures probed.Some? && Translate(caches.cfg, probed.value, world).Done? ==>
        caches.State() == Update(caches.cfg, old(caches.State()), now, Translate(caches.cfg, probed.value, world).value)
      ensures probed.None? ==> result == UpdateError
      ensures probed.Some? ==>
        match Translate(caches.cfg, probed.value, world)
        case Skipped => result == Updated
        case Failed => result == UpdateError
        case Crashed => result == Panicked
        case Done(t) => result == if Rejected(caches.cfg, old(caches.State()), now, t) then DomainConflict else Updated
      ensures probed.Some? && Translate(caches.cfg, probed.value, world).Done? && IndexAgrees(caches.cfg, old(caches.State())) ==>
        (result == DomainConflict <==>
           HeldByAnother(old(caches.translatedIngresses), Translate(caches.cfg, probed.value, world).value))
    {
      if probed.None? {
        return UpdateError;
      }
      var translation := TranslateIngress(caches.cfg, probed.value, world);
      match translation
      case Failed => return UpdateError;
      case Crashed => return Panicked;
      case Skipped => return Updated;
      case Done(t) =>
        TranslationIsShaped(caches.cfg, probed.value, world);
        RejectedIffHeld(caches.cfg, caches.State(), now, t);
        var conflict := caches.UpdateIngress(now, t);
        result := if conflict then DomainConflict else Updated;
    }

    /** `updateEnvoyConfig`: one push of the current snapshot, which the xDS server may refuse; a panic pushes nothing. */
    method UpdateEnvoyConfig(now: nat, seen: Readings, refused: bool) returns (result: UpdateResult)
      requires caches.Valid()
      modifies this`pushed
      ensures result == Panicked <==> SnapshotCrashes(caches.cfg, caches.translatedIngresses, seen)
      ensures result == UpdateError <==> refused && !SnapshotCrashes(caches.cfg, caches.translatedIngresses, seen)
      ensures result != DomainConflict
      ensures result != Updated ==> pushed == old(pushed)
      ensures result == Updated ==> PushedFrom(pushed, caches.cfg, caches.State(), now, seen)
    {
      var snapshot, order := caches.ToEnvoySnapshot(now, seen);
      if snapshot.None? {
        return Panicked;
      }
      if refused {
        return UpdateError;
      }
      pushed, result := snapshot, Updated;
      assert (set n | n in order) == caches.translatedIngresses.Keys;
    }

    /** `updateIngress`: the push happens only after a cache update that returned no error. */
    method UpdateIngress(now: nat, later: nat, probed: Option<Ingress>, world: World, seen: Readings, refused: bool)
      returns (result: UpdateResult)
      requires caches.Valid()
      modifies this`pushed, caches, caches.clusters
      ensures caches.Valid()
      ensures probed.None? || !Translate(caches.cfg, probed.value, world).Done? ==> caches.State() == old(caches.State())
      ensures probed.Some? && Translate(caches.cfg, probed.value, world).Done? ==>
        caches.State() == Update(caches.cfg, old(caches.State()), now, Translate(caches.cfg, probed.value, world).value)
      ensures probed.None? ==> result == UpdateError
      ensures probed.Some? && Translate(caches.cfg, probed.value, world).Failed? ==> result == UpdateError
      ensures probed.Some? && Translate(caches.cfg, probed.value, world).Crashed? ==> result == Panicked
      ensures result == DomainConflict <==>
        && probed.Some? && Translate(caches.cfg, probed.value, world).Done?
        && Rejected(caches.cfg, old(caches.State()), now, Translate(caches.cfg, probed.value, world).value)
      ensures probed.Some? && !Translate(caches.cfg, probed.value, world).Failed? && !Translate(caches.cfg, probed.value, world).Crashed? ==>
        result == DomainConflict || (
        && (result == Panicked <==> SnapshotCrashes(caches.cfg, caches.translatedIngresses, seen))
        && (result == UpdateError <==> refused && !SnapshotCrashes(caches.cfg, caches.translatedIngresses, seen)))
      ensures result != Updated ==> pushed == old(pushed)
      ensures result == Updated ==> PushedFrom(pushed, caches.cfg, caches.State(), later, seen)
    {
      result := UpdateInfoForIngress(now, probed, world);
      if result == Updated {
        result := UpdateEnvoyConfig(later, seen, refused);
      }
    }

    /**
      `ReconcileKind`. `settled` says whether the ingress is ready and shows the expected load
      balancer, `probe` what the status prober answers (`None` for a probing error).
      A domain conflict is not an error: it leaves the conflict condition and pushes nothing.
     */
    method ReconcileKind(now: nat, later: nat, probed: Option<Ingress>, world: World, seen: Readings, refused: bool,
                         settled: bool, probe: Option<bool>)
      returns (result: UpdateResult, condition: Condition, failed: bool)
      requires caches.Valid()
      modifies this`pushed, caches, caches.clusters
      ensures caches.Valid()
      ensures probed.None? || !Translate(caches.cfg, probed.value, world).Done? ==> caches.State() == old(caches.State())
      ensures probed.Some? && Translate(caches.cfg, probed.value, world).Done? ==>
        caches.State() == Update(caches.cfg, old(caches.State()), now, Translate(caches.cfg, probed.value, world).value)
      ensures probed.None? ==> result == UpdateError
      ensures probed.Some? && Translate(caches.cfg, probed.value, world).Failed? ==> result == UpdateError
      ensures probed.Some? && Translate(caches.cfg, probed.value, world).Crashed? ==> result == Panicked
      ensures result == DomainConflict <==>
        && probed.Some? && Translate(caches.cfg, probed.value, world).Done?
        && Rejected(caches.cfg, old(caches.State()), now, Translate(caches.cfg, probed.value, world).value)
      ensures probed.Some? && !Translate(caches.cfg, probed.value, world).Failed? && !Translate(caches.cfg, probed.value, world).Crashed? ==>
        result == DomainConflict || (
        && (result == Panicked <==> SnapshotCrashes(caches.cfg, caches.translatedIngresses, seen))
        && (result == UpdateError <==> refused && !SnapshotCrashes(caches.cfg, caches.translatedIngresses, seen)))
      ensures condition == Conflicting <==> result == DomainConflict
      ensures condition == NotReconciled <==> result == UpdateError
      ensures result == Updated ==> PushedFrom(pushed, caches.cfg, caches.State(), later, seen)
      ensures result != Updated ==> pushed == old(pushed)
      ensures failed <==> (result != Updated && condition != Conflicting) || (result == Updated && !settled && probe == None)
      ensures condition == LoadBalancerReady <==> result == Updated && !settled && probe == Some(true)
      ensures condition == LoadBalancerNotReady <==> result == Updated && !settled && probe == Some(false)
    {
      result := UpdateIngress(now, later, probed, world, seen, refused);
      condition, failed := Unset, false;
      match result
      case DomainConflict => condition := Conflicting;
      case UpdateError => condition, failed := NotReconciled, true;
      case Panicked => failed := true;
      case Updated =>
        condition := Settled;
        if !settled {
          match probe
          case None => failed := true;
          case Some(ready) => condition := if ready then LoadBalancerReady else LoadBalancerNotReady;
        }
    }

    /** `resyncConflicts`: enqueues every ingress, among those known, that may be in a conflict. */
    method ResyncConflicts(reasons: map<Name, string>)
      modifies this`enqueued
      ensures exists woken: seq<Name> | Distinct(woken) && (forall n :: n in woken <==> n in reasons && reasons[n] in {"", "DomainConflict"}) ::
        enqueued == old(enqueued) + woken
    {
      var woken := RangeOver(set n | n in reasons && Resynced(reasons[n]));
      enqueued := enqueued + woken;
    }

    /** `ObserveDeletion`: remove, push, and wake the ingresses in conflict. */
    method ObserveDeletion(now: nat, later: nat, n: Name, seen: Readings, refused: bool, reasons: map<Name, string>)
      returns (result: UpdateResult)
      requires caches.Valid()
      modifies this`pushed, this`enqueued, caches, caches.clusters
      ensures caches.Valid()
      ensures caches.State() == Remove(caches.cfg, old(caches.State()), now, n)
      ensures result == Panicked <==> SnapshotCrashes(caches.cfg, caches.translatedIngresses, seen)
      ensures result == UpdateError <==> refused && !SnapshotCrashes(caches.cfg, caches.translatedIngresses, seen)
      ensures result != DomainConflict
      ensures result == Updated ==>
        && PushedFrom(pushed, caches.cfg, caches.State(), later, seen)
        && old(enqueued) <= enqueued
        && forall m | m in reasons && reasons[m] in {"", "DomainConflict"} :: m in enqueued
      ensures result != Updated ==> enqueued == old(enqueued) && pushed == old(pushed)
    {
      caches.DeleteIngressInfo(now, n);
      result := UpdateEnvoyConfig(later, seen, refused);
      if result == Updated {
        ResyncConflicts(reasons);
      }
    }
  }

  /** The pushed snapshot is an assembly of `c` in some order. */
  ghost predicate PushedFrom(pushed: Option<Snapshot>, cfg: Settings, c: CacheState, now: nat, seen: Readings) {
    exists order: seq<Name> | Distinct(order) && (set n | n in order) == c.installed.Keys ::
      pushed == Some(Assemble(cfg, c, Look(order, seen), c.store, now))
  }

  /** Another installed ingress holds one of the translation's domains. */
  predicate HeldByAnother(installed: map<Name, Translated>, t: Translated) {
    exists m | m in installed :: m != t.name && Overlap(installed[m], t)
  }

  lemma RejectedIffHeld(cfg: Settings, c: CacheState, now: nat, t: Translated)
    requires ShapedState(cfg, c) && |cfg.regions| > 0
    ensures IndexAgrees(cfg, c) ==> (Rejected(cfg, c, now, t) <==> HeldByAnother(c.installed, t))
  {
    if IndexAgrees(cfg, c) {
      ConflictIsExact(cfg, c, now, t);
    }
  }

  // ---- Unwedging a conflict ----

  /** A sequence of deletions. */
  function RemoveAll(cfg: Settings, c: CacheState, now: nat, names: seq<Name>): (c': CacheState)
    requires ShapedState(cfg, c) && |cfg.regions| > 0
    ensures ShapedState(cfg, c')
  {
    if names == [] then c else Remove(cfg, RemoveAll(cfg, c, now, names[..|names| - 1]), now, names[|names| - 1])
  }

  lemma {:induction false} RemoveAllEffect(cfg: Settings, c: CacheState, now: nat, names: seq<Name>)
    requires IndexAgrees(cfg, c) && |cfg.regions| > 0
    ensures var c' := RemoveAll(cfg, c, now, names);
      && IndexAgrees(cfg, c')
      && (forall m :: m in c'.installed <==> m in c.installed && m !in names)
      && (forall m | m in c'.installed :: c'.installed[m] == c.installed[m])
  {
    if names != [] {
      var init, last := names[..|names| - 1], names[|names| - 1];
      RemoveAllEffect(cfg, c, now, init);
      RemoveKeepsIndex(cfg, RemoveAll(cfg, c, now, init), now, last);
      assert names == init + [last];
    }
  }

  /** After any deletions, a resynced ingress is accepted exactly when every holder of its domains was deleted. */
  lemma AcceptedIffHoldersDeleted(cfg: Settings, c: CacheState, now: nat, deleted: seq<Name>, later: nat, t: Translated)
    requires IndexAgrees(cfg, c) && |cfg.regions| > 0
    ensures !Rejected(cfg, RemoveAll(cfg, c, now, deleted), later, t) <==>
      forall m | m in c.installed && m != t.name && Overlap(c.installed[m], t) :: m in deleted
  {
    RemoveAllEffect(cfg, c, now, deleted);
    var c' := RemoveAll(cfg, c, now, deleted);
    ConflictIsExact(cfg, c', later, t);
    if m :| m in c.installed && m != t.name && Overlap(c.installed[m], t) && m !in deleted {
      assert m in c'.installed && Overlap(c'.installed[m], t);
    }
  }

  /** A push shows every internal host of every installed ingress, in every region. */
  lemma PushShowsInstalled(cfg: Settings, c: CacheState, now: nat, look: Look, i: nat, n: Name)
    requires ShapedState(cfg, c) && i < |cfg.regions| && (set m | m in look.order) == c.installed.Keys && n in c.installed
    ensures forall vh | vh in c.installed[n].internal[i] :: vh in Assemble(cfg, c, look, c.store, now).internal[i]
  {
    assert n in look.order;
    forall vh | vh in c.installed[n].internal[i] ensures vh in Gather(look.order, LocalHosts(c, i)) {
      GatherContains(look.order, LocalHosts(c, i), n, vh);
    }
  }

  /** An installed ingress has the internal host `vh` in region `i`. */
  predicate OfInstalled(installed: map<Name, Translated>, i: nat, vh: VirtualHost) {
    exists n | n in installed :: i < |installed[n].internal| && vh in installed[n].internal[i]
  }

  /**
    What a push tells Envoy: exactly the clusters whose deadline, if any, has not passed, and for each
    region exactly the internal hosts of the installed ingresses, followed by the readiness host.
   */
  lemma PushMeans(pushed: Option<Snapshot>, cfg: Settings, c: CacheState, now: nat, seen: Readings)
    requires ShapedState(cfg, c) && PushedFrom(pushed, cfg, c, now, seen)
    ensures pushed.Some?
    ensures forall key :: key in pushed.value.clusters <==>
      key in c.store && (c.store[key].deadline == None || now <= c.store[key].deadline.value)
    ensures forall key | key in pushed.value.clusters :: pushed.value.clusters[key] == c.store[key].cluster
    ensures |pushed.value.internal| == |cfg.regions|
    ensures forall i | 0 <= i < |cfg.regions| :: var hosts := pushed.value.internal[i];
      && hosts != [] && hosts[|hosts| - 1].domains == ["internalkourier"]
      && forall vh :: vh in hosts[..|hosts| - 1] <==> OfInstalled(c.installed, i, vh)
  {
    var order: seq<Name> :| Distinct(order) && (set n | n in order) == c.installed.Keys
      && pushed == Some(Assemble(cfg, c, Look(order, seen), c.store, now));
    forall i | 0 <= i < |cfg.regions|
      ensures var hosts := pushed.value.internal[i];
        && hosts != [] && hosts[|hosts| - 1].domains == ["internalkourier"]
        && forall vh :: vh in hosts[..|hosts| - 1] <==> OfInstalled(c.installed, i, vh)
    {
      var gathered := Gather(order, LocalHosts(c, i));
      assert pushed.value.internal[i] == gathered + [StatusHost()];
      assert pushed.value.internal[i][..|gathered|] == gathered;
      forall vh ensures vh in gathered <==> OfInstalled(c.installed, i, vh) {
        GatheredIff(c, order, i, vh);
      }
    }
  }

  lemma GatheredIff(c: CacheState, order: seq<Name>, i: nat, vh: VirtualHost)
    requires (set n | n in order) == c.installed.Keys && forall n | n in c.installed :: i < |c.installed[n].internal|
    ensures vh in Gather(order, LocalHosts(c, i)) <==> OfInstalled(c.installed, i, vh)
  {
    var hosts := LocalHosts(c, i);
    if vh in Gather(order, hosts) {
      Guarantees.GatherMembers(order, hosts, vh);
    }
    forall n | n in c.installed && vh in c.installed[n].internal[i] ensures vh in Gather(order, hosts) {
      assert n in (set m | m in order);
      GatherContains(order, hosts, n, vh);
    }
  }

  lemma {:induction false} GatherContains(order: seq<Name>, hosts: map<Name, seq<VirtualHost>>, n: Name, vh: VirtualHost)
    requires n in order && n in hosts && vh in hosts[n]
    ensures vh in Gather(order, hosts)
  {
    var init, last := order[..|order| - 1], order[|order| - 1];
    assert order == init + [last];
    if n != last {
      GatherContains(init, hosts, n, vh);
    }
  }
}
