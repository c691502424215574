/**
  The running control plane as a state machine.

  Workers take the cache lock one at a time, and each step of the lock holder is one access to the
  expiring store (or one block of work on lock-protected data). The clock may advance and the janitor
  may evict between any two steps, also in the middle of an update. A run is any sequence of labels;
  a label that is not enabled changes nothing, so every sequence is a run.
 */
module Protocol {
  import opened Text
  import opened Kube
  import opened Envoy
  import opened Translator
  import opened Routing
  import opened ClusterCaching
  import opened Caching

  /** An ingress together with the cluster objects its translation read. */
  datatype Source = Source(ing: Ingress, world: World)

  datatype Change = Change(source: Source, t: Translated)

  datatype Op =
    | UpdateOp(source: Source)
    | DeleteOp(name: Name)
    | SnapshotOp

  /** `setExpiration` in three steps: read the cluster, compute the deadline, store. */
  datatype Pending = Nothing | Got(cluster: Cluster) | Stamped(cluster: Cluster, at: nat)

  /** What the lock holder is doing; `Free` when nobody holds the lock, `Dead` after a panic. */
  datatype Phase =
    | Free
    | Expiring(name: Name, todo: seq<Cluster>, pending: Pending, next: Option<Change>)
    | Adding(change: Change)
    | Setting(change: Change, done: nat)
    | Collecting
    | Listing(look: Look)
    | Dead

  /** Completed cache operations, in lock order. */
  datatype Commit = Accepted(ing: Ingress) | Refused(ing: Ingress) | Deleted(name: Name)

  /** The last thing that happened to a cache key. */
  datatype Mark = Live(cluster: Cluster) | Dropped(cluster: Cluster, at: nat)

  /** A snapshot with the moment it was listed and the cache and history it was taken from. */
  datatype Taken = Taken(snapshot: Snapshot, at: nat, look: Look, cache: CacheState, origins: map<Name, Source>, commits: nat)

  /** The process state, followed by what the model remembers about the run. */
  datatype System = System(
    cache: CacheState,
    now: nat,
    phase: Phase,
    enqueued: seq<Option<Name>>,
    origins: map<Name, Source>,
    marks: map<string, Mark>,
    worlds: seq<World>,
    commits: seq<Commit>,
    taken: seq<Taken>,
    pushed: seq<nat>)

  datatype Label =
    | Tick(d: nat)
    | Evict(key: string)
    | Begin(op: Op)
    | Go(look: Look)
    | Push(j: nat)

  const INITIAL := System(EMPTY, 0, Free, [], map[], map[], [], [], [], [])

  /** `deleteTranslatedIngress` begins; nothing happens for an unknown ingress. */
  function StartRemoval(s: System, n: Name, next: Option<Change>): System {
    if n in s.cache.installed then s.(phase := Expiring(n, s.cache.installed[n].clusters, Nothing, next))
    else if next.Some? then s.(phase := Adding(next.value))
    else s.(commits := s.commits + [Deleted(n)])
  }

  function BeginOp(cfg: Settings, s: System, op: Op): System
    requires |cfg.regions| > 0
  {
    match op
    case DeleteOp(n) => StartRemoval(s, n, None)
    case SnapshotOp => s.(phase := Collecting)
    case UpdateOp(source) =>
      if !Admitted(source.ing) then s
      else
        match Translate(cfg, source.ing, source.world)
        case Done(t) => StartRemoval(s.(worlds := s.worlds + [source.world]), t.name, Some(Change(source, t)))
        case Crashed => s.(phase := Dead)
        case _ => s
  }

  /** Writes one entry into the store and remembers it. */
  function Put(s: System, key: string, entry: Entry, mark: Mark): System {
    s.(cache := s.cache.(store := s.cache.store[key := entry]), marks := s.marks[key := mark])
  }

  function ExpireStep(s: System): System
    requires s.phase.Expiring? && s.phase.todo != []
  {
    var p := s.phase;
    var key := Key(p.todo[0].name, p.name);
    match p.pending
    case Nothing =>
      if Visible(s.cache.store, s.now, key) then s.(phase := p.(pending := Got(s.cache.store[key].cluster)))
      else s.(phase := p.(todo := p.todo[1..]))
    case Got(c) => s.(phase := p.(pending := Stamped(c, s.now)))
    case Stamped(c, at) =>
      Put(s, key, Entry(c, Some(at + EXPIRATION)), Dropped(c, at)).(phase := p.(todo := p.todo[1..], pending := Nothing))
  }

  /** Domains of region 0 leave the index and the ingress leaves the map. */
  function RemoveStep(s: System): System
    requires s.phase.Expiring? && s.phase.name in s.cache.installed
    requires |s.cache.installed[s.phase.name].internal| > 0
  {
    var n := s.phase.name;
    var t := s.cache.installed[n];
    var gone := s.(cache := CacheState(s.cache.installed - {n}, s.cache.domains - HostDomains(t.internal[0]), s.cache.store),
                   origins := s.origins - {n});
    if s.phase.next.Some? then gone.(phase := Adding(s.phase.next.value))
    else gone.(phase := Free, commits := s.commits + [Deleted(n)])
  }

  function AddStep(s: System): System
    requires s.phase.Adding?
  {
    var Change(source, t) := s.phase.change;
    if Conflicts(s.cache, t) then s.(phase := Free, commits := s.commits + [Refused(source.ing)])
    else
      s.(cache := CacheState(s.cache.installed[t.name := t], s.cache.domains + DomainsOf(t), s.cache.store),
         origins := s.origins[t.name := source], commits := s.commits + [Accepted(source.ing)],
         phase := Setting(s.phase.change, 0))
  }

  function SetStep(s: System): System
    requires s.phase.Setting?
  {
    var t, k := s.phase.change.t, s.phase.done;
    if k >= |t.clusters| then s.(phase := Free)
    else
      Put(s, Key(t.clusters[k].name, t.name), Entry(t.clusters[k], None), Live(t.clusters[k]))
      .(phase := s.phase.(done := k + 1))
  }

  /** `order` lists the installed names, once each. */
  predicate Ranges(order: seq<Name>, installed: map<Name, Translated>) {
    Distinct(order) && (set n | n in order) == installed.Keys
  }

  function CollectStep(cfg: Settings, s: System, look: Look): System
    requires s.phase.Collecting?
  {
    if !Ranges(look.order, s.cache.installed) then s
    else if SnapshotCrashes(cfg, s.cache.installed, look.seen) then s.(phase := Dead)
    else s.(phase := Listing(look))
  }

  function ListStep(cfg: Settings, s: System): System
    requires s.phase.Listing?
  {
    var snapshot := Assemble(cfg, s.cache, s.phase.look, s.cache.store, s.now);
    s.(taken := s.taken + [Taken(snapshot, s.now, s.phase.look, s.cache, s.origins, |s.commits|)], phase := Free)
  }

  function GoOn(cfg: Settings, s: System, look: Look): System {
    match s.phase
    case Expiring(n, todo, _, _) =>
      if todo != [] then ExpireStep(s)
      else if n in s.cache.installed && |s.cache.installed[n].internal| > 0 then RemoveStep(s)
      else s
    case Adding(_) => AddStep(s)
    case Setting(_, _) => SetStep(s)
    case Collecting => CollectStep(cfg, s, look)
    case Listing(_) => ListStep(cfg, s)
    case _ => s
  }

  /** A worker hands the snapshot it has taken to Envoy, once, without holding the lock. */
  function PushStep(s: System, j: nat): System {
    if j < |s.taken| && j !in s.pushed then s.(pushed := s.pushed + [j]) else s
  }

  function OwnerOf(key: string): Option<Name> {
    var parts := ExplodeKey(key);
    if parts.None? then None else Some(parts.value.1)
  }

  function EvictKey(s: System, key: string): System {
    if key in s.cache.store && !Visible(s.cache.store, s.now, key)
    then s.(cache := s.cache.(store := s.cache.store - {key}), enqueued := s.enqueued + [OwnerOf(key)])
    else s
  }

  function Next(cfg: Settings, s: System, l: Label): System
    requires |cfg.regions| > 0
  {
    if s.phase.Dead? then s
    else
      match l
      case Tick(d) => s.(now := s.now + d)
      case Evict(key) => EvictKey(s, key)
      case Begin(op) => if s.phase.Free? then BeginOp(cfg, s, op) else s
      case Go(look) => GoOn(cfg, s, look)
      case Push(j) => PushStep(s, j)
  }

  /** The state after a run. */
  function Run(cfg: Settings, labels: seq<Label>): System
    requires |cfg.regions| > 0
  {
    if labels == [] then INITIAL else Next(cfg, Run(cfg, labels[..|labels| - 1]), labels[|labels| - 1])
  }

  // ---- The atomic specification ----

  /** The ingresses installed after the commits, each taken as one indivisible operation. */
  function Atomic(commits: seq<Commit>): map<Name, Ingress> {
    if commits == [] then map[]
    else
      AfterCommit(Atomic(commits[..|commits| - 1]), commits[|commits| - 1])
  }

  function AfterCommit(installed: map<Name, Ingress>, c: Commit): map<Name, Ingress> {
    match c
    case Accepted(ing) => installed[ing.name := ing]
    case Refused(ing) => installed - {ing.name}
    case Deleted(n) => installed - {n}
  }

  predicate Contested(installed: map<Name, Ingress>, ing: Ingress) {
    exists m | m in installed :: m != ing.name && ShareHost(installed[m], ing)
  }

  /** Every update was accepted or refused by the specification's own rule: a host shared with another ingress. */
  predicate Lawful(commits: seq<Commit>) {
    forall k | 0 <= k < |commits| :: LawfulAt(commits, k)
  }

  predicate LawfulAt(commits: seq<Commit>, k: nat)
    requires k < |commits|
  {
    && (commits[k].Accepted? ==> !Contested(Atomic(commits[..k]), commits[k].ing))
    && (commits[k].Refused? ==> Contested(Atomic(commits[..k]), commits[k].ing))
  }

  /** What a reader of the cluster cache should see of a key, from its last event alone. */
  function View(marks: map<string, Mark>, now: nat, key: string): Option<Cluster> {
    if key !in marks then None
    else
      match marks[key]
      case Live(c) => Some(c)
      case Dropped(c, at) => if now <= at + EXPIRATION then Some(c) else None
  }
}
