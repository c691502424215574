/** Snapshots are taken under the lock but pushed without it: what holds of the pushed sequence, and when. */
module Pushes {
  import opened Text
  import opened Kube
  import opened Translator
  import opened TranslationFacts
  import opened Routing
  import opened ClusterCaching
  import opened SourcePrefixes
  import opened Caching
  import opened Protocol
  import opened StoreInvariants
  import opened Guarantees
  import opened RunTheorems

  /** The workers push in the order in which they took their snapshots. */
  predicate InOrder(pushed: seq<nat>) {
    forall a, b | 0 <= a < b < |pushed| :: pushed[a] < pushed[b]
  }

  lemma PushedStep(cfg: Settings, s: System, l: Label)
    requires |cfg.regions| > 0
    ensures var s' := Next(cfg, s, l); s'.pushed == s.pushed || (l.Push? && l.j < |s.taken| && s'.pushed == s.pushed + [l.j])
  {
  }

  predicate AllTaken(pushed: seq<nat>, taken: nat) {
    forall x | x in pushed :: x < taken
  }

  lemma NextPushes(cfg: Settings, s: System, l: Label)
    requires |cfg.regions| > 0 && AllTaken(s.pushed, |s.taken|)
    ensures AllTaken(Next(cfg, s, l).pushed, |Next(cfg, s, l).taken|)
  {
    NextTaken(cfg, s, l);
    PushedStep(cfg, s, l);
    var s' := Next(cfg, s, l);
    assert |s.taken| <= |s'.taken|;
    forall x | x in s'.pushed ensures x < |s'.taken| {
      assert x in s.pushed || x < |s.taken|;
    }
  }

  /** Only snapshots that were taken are pushed. */
  lemma {:induction false} PushedWereTaken(cfg: Settings, run: seq<Label>)
    requires |cfg.regions| > 0
    ensures AllTaken(Run(cfg, run).pushed, |Run(cfg, run).taken|)
  {
    if run != [] {
      PushedWereTaken(cfg, run[..|run| - 1]);
      NextPushes(cfg, Run(cfg, run[..|run| - 1]), run[|run| - 1]);
    }
  }

  /**
    Pushed in order, snapshots make before they break: every cluster a route of an earlier push forwards
    to is listed in any later push taken at most 15 seconds after it.
   */
  lemma {:induction false} PushesMakeBeforeBreak(cfg: Settings, run: seq<Label>, a: nat, b: nat, name: string)
    requires ValidRegions(cfg.regions) && InOrder(Run(cfg, run).pushed) && a <= b < |Run(cfg, run).pushed|
    requires Run(cfg, run).pushed[b] < |Run(cfg, run).taken| && Run(cfg, run).pushed[a] < |Run(cfg, run).taken|
    requires Run(cfg, run).taken[Run(cfg, run).pushed[b]].at <= Run(cfg, run).taken[Run(cfg, run).pushed[a]].at + 15_000_000_000
    requires RefersTo(Run(cfg, run).taken[Run(cfg, run).pushed[a]].snapshot, name) && name != "service_stats"
    ensures Lists(Run(cfg, run).taken[Run(cfg, run).pushed[b]].snapshot, name)
  {
    MakeBeforeBreak(cfg, run, Run(cfg, run).pushed[a], Run(cfg, run).pushed[b], name);
  }

  /**
    And however old the earlier push is: a cluster of an ingress that is installed, with nobody working on
    it, at some moment before a push's snapshot was taken is listed in that push if it was taken within 15 seconds of the moment.
   */
  lemma {:induction false} PushesListAfterDrop(cfg: Settings, run: seq<Label>, p: nat, b: nat, n: Name, name: string)
    requires ValidRegions(cfg.regions) && p <= |run| && b < |Run(cfg, run).pushed|
    requires !Busy(Run(cfg, run[..p]).phase, n) && n in Run(cfg, run[..p]).cache.installed
    requires Provides(Run(cfg, run[..p]).cache.installed[n], name)
    requires |Run(cfg, run[..p]).taken| <= Run(cfg, run).pushed[b] < |Run(cfg, run).taken|
    requires Run(cfg, run).taken[Run(cfg, run).pushed[b]].at <= Run(cfg, run[..p]).now + 15_000_000_000
    ensures Lists(Run(cfg, run).taken[Run(cfg, run).pushed[b]].snapshot, name)
  {
    ListedAfterDrop(cfg, run, p, Run(cfg, run).pushed[b], n, name);
  }

  /** Pushed in order, Envoy never goes back: a later push shows every operation an earlier one showed. */
  lemma {:induction false} PushesNeverGoBack(cfg: Settings, run: seq<Label>, a: nat, b: nat)
    requires ValidRegions(cfg.regions) && InOrder(Run(cfg, run).pushed) && a <= b < |Run(cfg, run).pushed|
    requires Run(cfg, run).pushed[b] < |Run(cfg, run).taken| && Run(cfg, run).pushed[a] < |Run(cfg, run).taken|
    ensures Run(cfg, run).taken[Run(cfg, run).pushed[a]].commits <= Run(cfg, run).taken[Run(cfg, run).pushed[b]].commits
  {
    CommitsInOrder(cfg, run, Run(cfg, run).pushed[a], Run(cfg, run).pushed[b]);
  }

  // ---- Out of order ----

  /** The state after more labels. */
  function Onwards(cfg: Settings, s: System, labels: seq<Label>): System
    requires |cfg.regions| > 0
    decreases labels
  {
    if labels == [] then s else Onwards(cfg, Next(cfg, s, labels[0]), labels[1..])
  }

  lemma {:induction false} OnwardsConcat(cfg: Settings, s: System, a: seq<Label>, b: seq<Label>)
    requires |cfg.regions| > 0
    ensures Onwards(cfg, s, a + b) == Onwards(cfg, Onwards(cfg, s, a), b)
    decreases a
  {
    if a == [] {
      assert a + b == b;
    } else {
      assert (a + b)[1..] == a[1..] + b;
      OnwardsConcat(cfg, Next(cfg, s, a[0]), a[1..], b);
    }
  }

  lemma {:induction false} RunIsOnwards(cfg: Settings, run: seq<Label>)
    requires |cfg.regions| > 0
    ensures Run(cfg, run) == Onwards(cfg, INITIAL, run)
  {
    if run != [] {
      var init, l := run[..|run| - 1], run[|run| - 1];
      RunIsOnwards(cfg, init);
      OnwardsConcat(cfg, INITIAL, init, [l]);
      assert init + [l] == run;
      OneStep(cfg, Run(cfg, init), l);
    }
  }

  lemma OneStep(cfg: Settings, s: System, l: Label)
    requires |cfg.regions| > 0
    ensures Onwards(cfg, s, [l]) == Next(cfg, s, l)
  {
    assert [l][1..] == [];
  }

  lemma ThreeSteps(cfg: Settings, s: System, a: Label, b: Label, c: Label)
    requires |cfg.regions| > 0
    ensures Onwards(cfg, s, [a, b, c]) == Next(cfg, Next(cfg, Next(cfg, s, a), b), c)
  {
    OnwardsConcat(cfg, s, [a], [b] + [c]);
    OnwardsConcat(cfg, Next(cfg, s, a), [b], [c]);
    assert [a] + ([b] + [c]) == [a, b, c];
    OneStep(cfg, s, a);
    OneStep(cfg, Next(cfg, s, a), b);
    OneStep(cfg, Next(cfg, Next(cfg, s, a), b), c);
  }

  /** Nothing to read: no node carries a region's label and there are no blocks. */
  const NOTHING_SEEN := Readings(Inventory([], []), Inventory([], []), Inventory([], []))

  lemma NothingIsReadable(regions: seq<Region>)
    ensures !AnyUnreadable(regions, NOTHING_SEEN)
  {
    UnreadableIff(regions, Inventory([], []));
  }

  /** The snapshot a worker takes at `s`. */
  function TakenNow(cfg: Settings, s: System, order: seq<Name>): Taken {
    var look := Look(order, NOTHING_SEEN);
    Taken(Assemble(cfg, s.cache, look, s.cache.store, s.now), s.now, look, s.cache, s.origins, |s.commits|)
  }

  /** Taking a snapshot from a free lock. */
  lemma SnapshotSteps(cfg: Settings, s: System, order: seq<Name>)
    requires |cfg.regions| > 0 && s.phase.Free? && Ranges(order, s.cache.installed)
    requires !SnapshotCrashes(cfg, s.cache.installed, NOTHING_SEEN)
    ensures var go := Go(Look(order, NOTHING_SEEN));
      Onwards(cfg, s, [Begin(SnapshotOp), go, go]) == s.(taken := s.taken + [TakenNow(cfg, s, order)])
  {
    var go := Go(Look(order, NOTHING_SEEN));
    ThreeSteps(cfg, s, Begin(SnapshotOp), go, go);
  }

  /** `s'` is `s` with `k` more snapshots, all taken at `s`. */
  ghost predicate MoreTaken(cfg: Settings, s: System, order: seq<Name>, k: nat, s': System) {
    && s' == s.(taken := s'.taken) && |s'.taken| == |s.taken| + k && s.taken <= s'.taken
    && forall x | |s.taken| <= x < |s'.taken| :: s'.taken[x] == TakenNow(cfg, s, order)
  }

  lemma {:induction false} ManySnapshots(cfg: Settings, s: System, order: seq<Name>, k: nat) returns (labels: seq<Label>)
    requires |cfg.regions| > 0 && s.phase.Free? && Ranges(order, s.cache.installed)
    requires !SnapshotCrashes(cfg, s.cache.installed, NOTHING_SEEN)
    ensures MoreTaken(cfg, s, order, k, Onwards(cfg, s, labels))
    decreases k
  {
    labels := [];
    if k > 0 {
      var go := Go(Look(order, NOTHING_SEEN));
      var three := [Begin(SnapshotOp), go, go];
      SnapshotSteps(cfg, s, order);
      var s1 := Onwards(cfg, s, three);
      var more := ManySnapshots(cfg, s1, order, k - 1);
      OnwardsConcat(cfg, s, three, more);
      labels := three + more;
      assert TakenNow(cfg, s1, order) == TakenNow(cfg, s, order);
    }
  }

  /** The lock holder finishes setting clusters. */
  lemma {:induction false} SettingFinishes(cfg: Settings, s: System) returns (labels: seq<Label>)
    requires |cfg.regions| > 0 && s.phase.Setting? && s.phase.done <= |s.phase.change.t.clusters|
    ensures var s' := Onwards(cfg, s, labels);
      && s'.phase.Free? && s'.cache.installed == s.cache.installed
      && s'.taken == s.taken && s'.pushed == s.pushed && s'.now == s.now
    decreases |s.phase.change.t.clusters| - s.phase.done
  {
    var go := Go(Look([], NOTHING_SEEN));
    OneStep(cfg, s, go);
    if s.phase.done == |s.phase.change.t.clusters| {
      labels := [go];
    } else {
      var more := SettingFinishes(cfg, Next(cfg, s, go));
      labels := [go] + more;
      OnwardsConcat(cfg, s, [go], more);
    }
  }

  /** Installing the first ingress. */
  lemma InstallFirst(cfg: Settings, s: System, source: Source, t: Translated) returns (labels: seq<Label>)
    requires |cfg.regions| > 0 && s.phase.Free? && s.cache == EMPTY
    requires Admitted(source.ing) && Translate(cfg, source.ing, source.world) == Done(t)
    ensures var s' := Onwards(cfg, s, labels);
      && s'.phase.Free? && s'.cache.installed == map[t.name := t]
      && s'.taken == s.taken && s'.pushed == s.pushed && s'.now == s.now
  {
    var begin, go := Begin(UpdateOp(source)), Go(Look([], NOTHING_SEEN));
    var s1 := Next(cfg, s, begin);
    assert s1.phase == Adding(Change(source, t)) && s1.cache == EMPTY;
    var s2 := Next(cfg, s1, go);
    assert s2.phase == Setting(Change(source, t), 0) && s2.cache.installed == map[t.name := t];
    var more := SettingFinishes(cfg, s2);
    labels := [begin] + ([go] + more);
    OnwardsConcat(cfg, s, [begin], [go] + more);
    OnwardsConcat(cfg, s1, [go], more);
    OneStep(cfg, s, begin);
    OneStep(cfg, s1, go);
  }

  /** The pushes break: some cluster a pushed snapshot forwards to is missing from a later push taken within the grace period. */
  ghost predicate Breaks(s: System, name: string) {
    exists a, b | 0 <= a < b < |s.pushed| :: BreaksAt(s, a, b, name)
  }

  ghost predicate BreaksAt(s: System, a: nat, b: nat, name: string)
    requires a < |s.pushed| && b < |s.pushed|
  {
    && s.pushed[a] < |s.taken| && s.pushed[b] < |s.taken|
    && s.taken[s.pushed[b]].at <= s.taken[s.pushed[a]].at + 15_000_000_000
    && RefersTo(s.taken[s.pushed[a]].snapshot, name) && !Lists(s.taken[s.pushed[b]].snapshot, name)
  }

  /** A snapshot of one installed ingress refers to what the ingress's hosts refer to. */
  lemma OneIngressRefers(cfg: Settings, c: CacheState, t: Translated, look: Look, now: nat, name: string)
    requires c.installed == map[t.name := t] && look.order == [t.name] && |t.internal| == |cfg.regions|
    requires ConfigsRefer(t.internal, name)
    ensures RefersTo(Assemble(cfg, c, look, c.store, now), name)
  {
    var i, h :| 0 <= i < |t.internal| && 0 <= h < |t.internal[i]| && HostRefers(t.internal[i][h], name);
    var snapshot := Assemble(cfg, c, look, c.store, now);
    var local := LocalHosts(c, i);
    assert look.order[..0] == [] && Gather([], local) == [];
    assert Gather(look.order, local) == t.internal[i];
    assert snapshot.internal[i][h] == t.internal[i][h];
    assert ConfigsRefer(snapshot.internal, name);
  }

  lemma EmptyListsNothing(cfg: Settings, look: Look, name: string)
    ensures !Lists(Assemble(cfg, EMPTY, look, map[], 0), name)
  {
  }

  /** The first `early` snapshots list nothing, the rest refer to `name`; none is pushed and no time passes. */
  ghost predicate Prepared(s: System, early: nat, all: nat, name: string) {
    && !s.phase.Dead? && s.pushed == [] && |s.taken| == all
    && (forall x | 0 <= x < all :: s.taken[x].at == 0)
    && (forall x | 0 <= x < early && x < all :: !Lists(s.taken[x].snapshot, name))
    && (forall x | early <= x < all :: RefersTo(s.taken[x].snapshot, name))
  }

  /** Snapshots of nothing, then `source` installed, then further snapshots. */
  lemma Prepare(cfg: Settings, source: Source, t: Translated, name: string, early: nat, late: nat) returns (run: seq<Label>)
    requires ValidRegions(cfg.regions) && |cfg.regions| <= NAMED_CONFIGS && !cfg.oneCert
    requires Admitted(source.ing) && Translate(cfg, source.ing, source.world) == Done(t) && t.snis == []
    requires |t.internal| == |cfg.regions| && ConfigsRefer(t.internal, name)
    ensures Prepared(Onwards(cfg, INITIAL, run), early, early + late, name)
  {
    NothingIsReadable(cfg.regions);
    assert Ranges([], INITIAL.cache.installed) by {
      var none: seq<Name> := [];
      assert (set n | n in none) == {};
    }
    var first := ManySnapshots(cfg, INITIAL, [], early);
    EmptyListsNothing(cfg, Look([], NOTHING_SEEN), name);
    var s1 := Onwards(cfg, INITIAL, first);
    var install := InstallFirst(cfg, s1, source, t);
    var s2 := Onwards(cfg, s1, install);
    assert Ranges([t.name], s2.cache.installed) by {
      var one := [t.name];
      assert one[0] in one && (set n | n in one) == {t.name} == s2.cache.installed.Keys;
    }
    var second := ManySnapshots(cfg, s2, [t.name], late);
    OneIngressRefers(cfg, s2.cache, t, Look([t.name], NOTHING_SEEN), s2.now, name);
    OnwardsConcat(cfg, INITIAL, first, install + second);
    OnwardsConcat(cfg, s1, install, second);
    run := first + (install + second);
    PreparedByBoth(cfg, s1, s2, Onwards(cfg, s2, second), t, early, late, name);
  }

  lemma PreparedByBoth(cfg: Settings, s1: System, s2: System, s3: System, t: Translated, early: nat, late: nat, name: string)
    requires MoreTaken(cfg, INITIAL, [], early, s1) && MoreTaken(cfg, s2, [t.name], late, s3)
    requires s2.phase.Free? && s2.taken == s1.taken && s2.pushed == s1.pushed && s2.now == s1.now
    requires !Lists(TakenNow(cfg, INITIAL, []).snapshot, name) && RefersTo(TakenNow(cfg, s2, [t.name]).snapshot, name)
    ensures Prepared(s3, early, early + late, name)
  {
    forall x | 0 <= x < early + late
      ensures s3.taken[x] == if x < early then TakenNow(cfg, INITIAL, []) else TakenNow(cfg, s2, [t.name])
    {
      if x < early {
        assert s3.taken[x] == s2.taken[x];
      }
    }
  }

  /** Workers may push what was taken in any order. */
  lemma {:induction false} PushAll(cfg: Settings, s: System, order: seq<nat>) returns (labels: seq<Label>)
    requires |cfg.regions| > 0 && !s.phase.Dead? && Distinct(s.pushed + order) && forall x | x in order :: x < |s.taken|
    ensures Onwards(cfg, s, labels) == s.(pushed := s.pushed + order)
    decreases order
  {
    labels := [];
    if order == [] {
      assert s.pushed + order == s.pushed;
    } else {
      var j := order[0];
      DistinctParts(s.pushed, order);
      assert j in order;
      var s1 := Next(cfg, s, Push(j));
      assert s1 == s.(pushed := s.pushed + [j]);
      assert s1.pushed + order[1..] == s.pushed + order;
      assert forall x | x in order[1..] :: x in order;
      var more := PushAll(cfg, s1, order[1..]);
      OneStep(cfg, s, Push(j));
      OnwardsConcat(cfg, s, [Push(j)], more);
      labels := [Push(j)] + more;
    }
  }

  function Largest(order: seq<nat>): (m: nat)
    ensures forall x | x in order :: x < m
  {
    if order == [] then 0
    else
      var before, last := Largest(order[..|order| - 1]), order[|order| - 1];
      assert order == order[..|order| - 1] + [last];
      if last < before then before else last + 1
  }

  /** Any order with an inversion breaks in some run, whatever ingress forwards to `name`. */
  lemma InversionBreaks(cfg: Settings, source: Source, t: Translated, name: string, order: seq<nat>, a: nat, b: nat)
      returns (run: seq<Label>)
    requires ValidRegions(cfg.regions) && |cfg.regions| <= NAMED_CONFIGS && !cfg.oneCert
    requires IsTranslation(cfg, source.ing, source.world, t) && source.ing.tls == [] && ConfigsRefer(t.internal, name)
    requires Distinct(order) && a < b < |order| && order[b] < order[a]
    ensures Run(cfg, run).pushed == order && BreaksAt(Run(cfg, run), a, b, name)
  {
    assert t.snis == [] && |t.internal| == |cfg.regions| by {
      SNIsPerTLS(cfg, source.ing, source.world, t);
      TranslationShape(cfg, source.ing, source.world, t);
    }
    var early, all := order[b] + 1, Largest(order);
    assert order[a] in order && order[b] in order;
    var before := Prepare(cfg, source, t, name, early, all - early);
    var pushes := PushPrepared(cfg, Onwards(cfg, INITIAL, before), order);
    run := before + pushes;
    OnwardsConcat(cfg, INITIAL, before, pushes);
    RunIsOnwards(cfg, run);
    InversionAt(Onwards(cfg, INITIAL, before), order, a, b, name);
  }

  lemma PushPrepared(cfg: Settings, s: System, order: seq<nat>) returns (labels: seq<Label>)
    requires |cfg.regions| > 0 && !s.phase.Dead? && s.pushed == [] && Distinct(order) && Largest(order) <= |s.taken|
    ensures Onwards(cfg, s, labels) == s.(pushed := order)
  {
    assert s.pushed + order == order;
    labels := PushAll(cfg, s, order);
  }

  lemma InversionAt(s: System, order: seq<nat>, a: nat, b: nat, name: string)
    requires a < b < |order| && order[b] < order[a] < |s.taken| && Prepared(s, order[b] + 1, |s.taken|, name)
    ensures BreaksAt(s.(pushed := order), a, b, name)
  {
  }

  /** No run that pushes in this order breaks. */
  ghost predicate Safe(cfg: Settings, order: seq<nat>, name: string)
    requires |cfg.regions| > 0
  {
    forall run: seq<Label> | Run(cfg, run).pushed == order :: !Breaks(Run(cfg, run), name)
  }

  lemma {:induction false} InOrderRunKeeps(cfg: Settings, run: seq<Label>, name: string)
    requires ValidRegions(cfg.regions) && InOrder(Run(cfg, run).pushed) && name != "service_stats"
    ensures !Breaks(Run(cfg, run), name)
  {
    var s := Run(cfg, run);
    if a, b :| 0 <= a < b < |s.pushed| && BreaksAt(s, a, b, name) {
      PushesMakeBeforeBreak(cfg, run, a, b, name);
      assert false;
    }
  }

  /**
    Make before break for what Envoy receives: an order of pushes is safe in every run if and only if it is
    the order in which the snapshots were taken. `source` may be any ingress without TLS that forwards to `name`.
   */
  lemma SafeIffInOrder(cfg: Settings, source: Source, t: Translated, name: string, order: seq<nat>)
    requires ValidRegions(cfg.regions) && |cfg.regions| <= NAMED_CONFIGS && !cfg.oneCert
    requires IsTranslation(cfg, source.ing, source.world, t) && source.ing.tls == [] && ConfigsRefer(t.internal, name)
    requires Distinct(order) && name != "service_stats"
    ensures Safe(cfg, order, name) <==> InOrder(order)
  {
    if InOrder(order) {
      forall run: seq<Label> | Run(cfg, run).pushed == order ensures !Breaks(Run(cfg, run), name) {
        InOrderRunKeeps(cfg, run, name);
      }
    } else {
      var a, b :| 0 <= a < b < |order| && order[a] >= order[b];
      assert order[a] != order[b];
      var run := InversionBreaks(cfg, source, t, name, order, a, b);
      assert Breaks(Run(cfg, run), name);
    }
  }
}
