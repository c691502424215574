/** How long a dropped cluster can still be read, told by operations alone. */
module Fading {
  import opened Kube
  import opened ClusterCaching
  import opened Caching
  import opened Protocol
  import opened Registry
  import opened StoreInvariants
  import opened Guarantees
  import opened RunTheorems

  /** The label begins an operation on the ingress `n`. */
  predicate Starts(l: Label, n: Name) {
    l.Begin? && match l.op
                case UpdateOp(source) => source.ing.name == n
                case DeleteOp(m) => m == n
                case SnapshotOp => false
  }

  /** The lock holder is not, and will not be, working on `n`. */
  predicate Elsewhere(phase: Phase, n: Name) {
    match phase
    case Expiring(m, _, _, next) => m != n && (next.Some? ==> next.value.t.name != n)
    case Adding(ch) => ch.t.name != n
    case Setting(ch, _) => ch.t.name != n
    case _ => true
  }

  /** The entry of `key`, if any, is gone once the grace period counted from `t` is over. */
  predicate Fades(store: Store, key: string, t: nat) {
    key in store ==> store[key].deadline.Some? && store[key].deadline.value <= t + EXPIRATION
  }

  /** No deadline lies further ahead than the grace period. */
  lemma DeadlineIsNear(store: Store, marks: map<string, Mark>, now: nat, key: string)
    requires Chronicled(store, marks, now) && !Permanent(store, key)
    ensures Fades(store, key, now)
  {
    if key in store {
      assert MarkFits(store, now, key, marks[key]);
    }
  }

  lemma BeginElsewhere(cfg: Settings, s: System, op: Op, n: Name)
    requires |cfg.regions| > 0 && s.phase.Free? && !Starts(Begin(op), n)
    ensures Elsewhere(BeginOp(cfg, s, op).phase, n)
  {
  }

  lemma GoElsewhere(cfg: Settings, s: System, look: Look, n: Name)
    requires Elsewhere(s.phase, n)
    ensures Elsewhere(GoOn(cfg, s, look).phase, n)
  {
    match s.phase
    case Expiring(_, todo, _, _) =>
      if todo != [] {
        ExpireStepFrame(s);
      }
    case Adding(_) =>
    case _ => OtherStepsFrame(cfg, s, look);
  }

  lemma GoFades(cfg: Settings, s: System, look: Look, key: string, t: nat)
    requires Registered(cfg, s) && Elsewhere(s.phase, Owner(key)) && Fades(s.cache.store, key, t)
    ensures Fades(GoOn(cfg, s, look).cache.store, key, t)
  {
    if Differs(s.cache.store, GoOn(cfg, s, look).cache.store, key) {
      GoWritesTarget(cfg, s, look, key);
      TargetIsOwn(cfg, s);
    }
  }

  lemma NextFades(cfg: Settings, s: System, l: Label, key: string, t: nat)
    requires Registered(cfg, s) && !Starts(l, Owner(key))
    requires Elsewhere(s.phase, Owner(key)) && Fades(s.cache.store, key, t)
    ensures var s' := Next(cfg, s, l); Elsewhere(s'.phase, Owner(key)) && Fades(s'.cache.store, key, t)
  {
    match l
    case Begin(op) =>
      if s.phase.Free? {
        BeginElsewhere(cfg, s, op, Owner(key));
        BeginIsQuiet(cfg, s, op);
      }
    case Go(look) =>
      GoElsewhere(cfg, s, look, Owner(key));
      GoFades(cfg, s, look, key, t);
    case _ =>
  }

  lemma {:induction false} FadesOnwards(cfg: Settings, run: seq<Label>, p: nat, q: nat, key: string, t: nat)
    requires ValidRegions(cfg.regions) && p <= q <= |run|
    requires Elsewhere(Run(cfg, run[..p]).phase, Owner(key)) && Fades(Run(cfg, run[..p]).cache.store, key, t)
    requires forall k | p <= k < q :: !Starts(run[k], Owner(key))
    ensures Fades(Run(cfg, run[..q]).cache.store, key, t)
    decreases q - p
  {
    if p < q {
      PrefixRun(cfg, run, p);
      EveryRunKeepsInv(cfg, run[..p]);
      NextFades(cfg, Run(cfg, run[..p]), run[p], key, t);
      FadesOnwards(cfg, run, p + 1, q, key, t);
    }
  }

  /**
    An upper bound without any record of events: a key that is not permanent at a moment when the lock is
    free, and whose owner starts no operation afterwards, can no longer be read more than 15 seconds later.
   */
  lemma {:induction false} DroppedClusterFades(cfg: Settings, run: seq<Label>, p: nat, key: string)
    requires ValidRegions(cfg.regions) && p <= |run|
    requires Run(cfg, run[..p]).phase.Free? && !Permanent(Run(cfg, run[..p]).cache.store, key)
    requires forall k | p <= k < |run| :: !Starts(run[k], Owner(key))
    requires Run(cfg, run).now > Run(cfg, run[..p]).now + 15_000_000_000
    ensures key !in Items(Run(cfg, run).cache.store, Run(cfg, run).now)
  {
    var s := Run(cfg, run[..p]);
    EveryRunKeepsInv(cfg, run[..p]);
    DeadlineIsNear(s.cache.store, s.marks, s.now, key);
    FadesOnwards(cfg, run, p, |run|, key, s.now);
    assert run[..|run|] == run;
  }

  /** So an ingress that is not installed and not updated for more than 15 seconds has no cluster listed. */
  lemma {:induction false} AbsentIngressFades(cfg: Settings, run: seq<Label>, p: nat, n: Name, key: string)
    requires ValidRegions(cfg.regions) && p <= |run|
    requires Run(cfg, run[..p]).phase.Free? && n !in Run(cfg, run[..p]).cache.installed && Owner(key) == n
    requires forall k | p <= k < |run| :: !Starts(run[k], n)
    requires Run(cfg, run).now > Run(cfg, run[..p]).now + 15_000_000_000
    ensures key !in Items(Run(cfg, run).cache.store, Run(cfg, run).now)
  {
    EveryRunKeepsInv(cfg, run[..p]);
    DroppedClusterFades(cfg, run, p, key);
  }

  /** And no snapshot taken more than 15 seconds after such a moment lists it. */
  lemma {:induction false} FadedIsUnlisted(cfg: Settings, run: seq<Label>, p: nat, j: nat, key: string)
    requires ValidRegions(cfg.regions) && p <= |run| && j < |Run(cfg, run).taken| && |Run(cfg, run[..p]).taken| <= j
    requires Run(cfg, run[..p]).phase.Free? && !Permanent(Run(cfg, run[..p]).cache.store, key)
    requires forall k | p <= k < |run| :: !Starts(run[k], Owner(key))
    requires Run(cfg, run).taken[j].at > Run(cfg, run[..p]).now + 15_000_000_000
    ensures key !in Run(cfg, run).taken[j].snapshot.clusters
  {
    var q := WhenTaken(cfg, run, j);
    MomentBeforeTaking(cfg, run, p, j, q);
    assert run[..q][..p] == run[..p];
    DroppedClusterFades(cfg, run[..q], p, key);
  }
}
