/** The cluster cache: an expiring store that keeps dropped clusters alive for a grace period. */
module ClusterCaching {
  import opened Text
  import opened Kube
  import opened Envoy

  /** `defaultExpiration`, in nanoseconds. */
  const EXPIRATION: nat := 15_000_000_000

  /** A go-cache item: no deadline means it never expires. */
  datatype Entry = Entry(cluster: Cluster, deadline: Option<nat>)

  type Store = map<string, Entry>

  // ---- Keys ----

  function Key(cluster: string, owner: Name): string {
    cluster + ":" + owner.name + ":" + owner.namespace
  }

  /** `explodeKey`; `None` where the Go code would index past the parts. */
  function ExplodeKey(key: string): Option<(string, Name)> {
    var parts := Text.Split(key, ':');
    if |parts| < 3 then None else Some((parts[0], Name(parts[2], parts[1])))
  }

  predicate KeyParts(cluster: string, owner: Name) {
    ':' !in cluster && ':' !in owner.name && ':' !in owner.namespace
  }

  lemma KeyRoundTrip(cluster: string, owner: Name)
    requires KeyParts(cluster, owner)
    ensures ExplodeKey(Key(cluster, owner)) == Some((cluster, owner))
  {
    var rest := owner.name + [':'] + owner.namespace;
    assert Key(cluster, owner) == cluster + [':'] + rest;
    SplitHead(cluster, ':', rest);
    SplitHead(owner.name, ':', owner.namespace);
    SplitWhole(owner.namespace, ':');
  }

  /** No two (cluster, ingress) pairs share a key, so ingresses never touch each other's clusters. */
  lemma KeyInjective(c1: string, n1: Name, c2: string, n2: Name)
    requires KeyParts(c1, n1) && KeyParts(c2, n2)
    ensures Key(c1, n1) == Key(c2, n2) <==> c1 == c2 && n1 == n2
  {
    KeyRoundTrip(c1, n1);
    KeyRoundTrip(c2, n2);
  }

  /** Under one ingress, keys differ exactly when cluster names do. */
  lemma SameOwnerKey(a: string, b: string, owner: Name)
    ensures Key(a, owner) == Key(b, owner) <==> a == b
  {
    var tail := ":" + owner.name + ":" + owner.namespace;
    assert Key(a, owner) == a + tail && Key(b, owner) == b + tail;
    if a + tail == b + tail {
      assert (a + tail)[..|a|] == a && (b + tail)[..|b|] == b;
    }
  }

  /** With a colon in a part, keys collide: the precondition above is needed. */
  lemma KeyCollision()
    ensures Key("a:b", Name("n", "c")) == Key("a", Name("c:n", "b")) == "a:b:c:n"
  {
  }

  // ---- Timed store ----

  /** An item can be read while it has no deadline or the deadline has not passed. */
  predicate Visible(store: Store, now: nat, key: string) {
    key in store && (store[key].deadline.Some? ==> now <= store[key].deadline.value)
  }

  predicate Permanent(store: Store, key: string) {
    key in store && store[key].deadline.None?
  }

  /** `Items`: what a reader sees. */
  function Items(store: Store, now: nat): map<string, Cluster> {
    map k | k in store && Visible(store, now, k) :: store[k].cluster
  }

  /** The clusters under `keys` dropped at `now`: each readable one starts its grace period. */
  function Drop(store: Store, now: nat, keys: set<string>): Store {
    map k | k in store ::
      if k in keys && Visible(store, now, k) then Entry(store[k].cluster, Some(now + EXPIRATION)) else store[k]
  }

  function ClusterKeys(owner: Name, clusters: seq<Cluster>): set<string> {
    set c | c in clusters :: Key(c.name, owner)
  }

  /** What setting `clusters` in order leaves under their keys: the last of a name wins, none expires. */
  function Permanents(owner: Name, clusters: seq<Cluster>): Store {
    if clusters == [] then map[]
    else
      var last := clusters[|clusters| - 1];
      Permanents(owner, clusters[..|clusters| - 1])[Key(last.name, owner) := Entry(last, None)]
  }

  lemma {:induction false} PermanentsAre(owner: Name, clusters: seq<Cluster>)
    ensures var p := Permanents(owner, clusters);
      && p.Keys == ClusterKeys(owner, clusters)
      && (forall k | k in p :: p[k].deadline.None? && p[k].cluster in clusters && Key(p[k].cluster.name, owner) == k)
  {
    if clusters != [] {
      var init, last := clusters[..|clusters| - 1], clusters[|clusters| - 1];
      PermanentsAre(owner, init);
      assert clusters == init + [last];
      assert ClusterKeys(owner, clusters) == ClusterKeys(owner, init) + {Key(last.name, owner)};
    }
  }

  /** `DeleteExpired`: what the janitor leaves. */
  function Sweep(store: Store, now: nat): Store {
    map k | k in store && Visible(store, now, k) :: store[k]
  }

  /** Sweeping is invisible: no reader, now or later, can tell whether it happened. */
  lemma SweepIsInvisible(store: Store, now: nat, later: nat)
    requires now <= later
    ensures Items(Sweep(store, now), later) == Items(store, later)
  {
  }

  class ClustersCache {
    var items: Store

    constructor ()
      ensures items == map[]
    {
      items := map[];
    }

    /** `set`. */
    method Set(cluster: Cluster, owner: Name)
      modifies this
      ensures items == old(items)[Key(cluster.name, owner) := Entry(cluster, None)]
    {
      items := items[Key(cluster.name, owner) := Entry(cluster, None)];
    }

    /** `setExpiration`: starts the grace period of a cluster that is still readable. */
    method SetExpiration(now: nat, clusterName: string, owner: Name)
      modifies this
      ensures items == Drop(old(items), now, {Key(clusterName, owner)})
    {
      var key := Key(clusterName, owner);
      if Visible(items, now, key) {
        items := items[key := Entry(items[key].cluster, Some(now + EXPIRATION))];
      }
    }

    /** `list`: the readable clusters, in arbitrary order. */
    method List(now: nat) returns (res: seq<Cluster>, keys: seq<string>)
      ensures |res| == |keys| == |Items(items, now)| && Distinct(keys)
      ensures forall k :: k in keys <==> k in Items(items, now)
      ensures forall j | 0 <= j < |res| :: keys[j] in Items(items, now) && res[j] == Items(items, now)[keys[j]]
    {
      var visible := Items(items, now);
      keys := RangeOver(visible.Keys);
      res := [];
      for j := 0 to |keys|
        invariant |res| == j
        invariant forall m | 0 <= m < j :: keys[m] in visible && res[m] == visible[keys[m]]
      {
        assert keys[j] in keys;
        res := res + [visible[keys[j]]];
      }
    }

    /** The janitor with the eviction callback: every swept key is reported to its owner. */
    method DeleteExpired(now: nat) returns (evicted: seq<Option<(string, Name)>>, ghost keys: seq<string>)
      modifies this
      ensures items == Sweep(old(items), now)
      ensures forall k :: k in items <==> k in old(items) && (old(items)[k].deadline == None || now <= old(items)[k].deadline.value)
      ensures forall k :: k in keys <==> k in old(items) && k !in items
      ensures |evicted| == |keys| && forall j | 0 <= j < |keys| :: evicted[j] == ExplodeKey(keys[j])
    {
      evicted, keys := [], [];
      var todo := set k | k in items && !Visible(items, now, k);
      ghost var all, store := todo, items;
      while todo != {}
        invariant todo <= all <= store.Keys
        invariant items == store - (all - todo)
        invariant forall k :: k in keys <==> k in all - todo
        invariant |evicted| == |keys| && forall j | 0 <= j < |keys| :: evicted[j] == ExplodeKey(keys[j])
      {
        var k :| k in todo;
        assert store - (all - (todo - {k})) == (store - (all - todo)) - {k};
        items, evicted, keys, todo := items - {k}, evicted + [ExplodeKey(k)], keys + [k], todo - {k};
      }
      assert all - todo == all;
    }
  }
}
