/** Sorting a service's ready addresses into per-region buckets, and the filter that skips endpoint updates. */
module EndpointBuckets {
  import opened Text
  import opened Kube
  import opened Envoy

  /** Outcome of bucketing: the nil slice for "nothing ready", a nil node name dereferenced, or the buckets. */
  datatype Bucketed = NothingReady | MissingNodeName | Buckets(of: seq<seq<LbEndpoint>>)

  function Flatten(eps: Endpoints): seq<Address> {
    if eps == [] then [] else Flatten(eps[..|eps| - 1]) + eps[|eps| - 1]
  }

  /** The ready addresses on `node`, in order, as endpoints on `port`. */
  function Bucket(addresses: seq<Address>, node: string, port: nat): seq<LbEndpoint> {
    if addresses == [] then []
    else
      var last := addresses[|addresses| - 1];
      Bucket(addresses[..|addresses| - 1], node, port)
      + (if last.node == Some(node) then [LbEndpoint(last.ip, port)] else [])
  }

  function BucketAll(regions: seq<Region>, eps: Endpoints, targetPort: int): Bucketed {
    var addresses := Flatten(eps);
    if addresses == [] then NothingReady
    else if regions != [] && !Placed(addresses) then MissingNodeName
    else Buckets(seq(|regions|, i requires 0 <= i < |regions| => Bucket(addresses, regions[i].node, ToUint32(targetPort))))
  }

  lemma {:induction false} FlattenStep(eps: Endpoints, k: nat)
    requires k < |eps|
    ensures Flatten(eps[..k + 1]) == Flatten(eps[..k]) + eps[k]
  {
    assert eps[..k + 1][..k] == eps[..k];
  }

  lemma {:induction false} FlattenPrefix(eps: Endpoints, k: nat)
    requires k <= |eps|
    ensures Flatten(eps[..k]) <= Flatten(eps)
    decreases |eps| - k
  {
    if k < |eps| {
      FlattenPrefix(eps, k + 1);
      FlattenStep(eps, k);
    } else {
      assert eps[..k] == eps;
    }
  }

  lemma BucketStep(addresses: seq<Address>, a: Address, node: string, port: nat)
    ensures Bucket(addresses + [a], node, port)
         == Bucket(addresses, node, port) + (if a.node == Some(node) then [LbEndpoint(a.ip, port)] else [])
  {
    assert (addresses + [a])[..|addresses|] == addresses;
  }

  method CountReady(eps: Endpoints) returns (count: nat)
    ensures count == |Flatten(eps)|
  {
    count := 0;
    for k := 0 to |eps|
      invariant count == |Flatten(eps[..k])|
    {
      FlattenStep(eps, k);
      count := count + |eps[k]|;
    }
    assert eps[..|eps|] == eps;
  }

  /** Every address carries a node name. */
  predicate Placed(addresses: seq<Address>) {
    forall k | 0 <= k < |addresses| :: addresses[k].node.Some?
  }

  /** The inner loop over one subset, after `done` has been collected into `collected`. */
  method CollectSubset(ghost done: seq<Address>, subset: seq<Address>, node: string, port: nat, collected: seq<LbEndpoint>)
    returns (crashed: bool, bucket: seq<LbEndpoint>)
    requires collected == Bucket(done, node, port)
    ensures crashed <==> !Placed(subset)
    ensures !crashed ==> bucket == Bucket(done + subset, node, port)
  {
    crashed, bucket := false, collected;
    ghost var seen := done;
    for a := 0 to |subset|
      invariant seen == done + subset[..a]
      invariant forall k | 0 <= k < a :: subset[k].node.Some?
      invariant bucket == Bucket(seen, node, port)
    {
      if subset[a].node.None? {
        return true, [];
      }
      BucketStep(seen, subset[a], node, port);
      OneFurther(done, subset, a);
      seen := seen + [subset[a]];
      if subset[a].node.value == node {
        bucket := bucket + [LbEndpoint(subset[a].ip, port)];
      }
    }
    assert subset[..|subset|] == subset;
  }

  lemma OneFurther<T>(done: seq<T>, more: seq<T>, k: nat)
    requires k < |more|
    ensures done + more[..k] + [more[k]] == done + more[..k + 1]
  {
  }

  /** One region's pass over subsets and addresses; `crashed` when a node name is missing. */
  method CollectBucket(eps: Endpoints, node: string, port: nat) returns (crashed: bool, bucket: seq<LbEndpoint>)
    ensures crashed <==> !Placed(Flatten(eps))
    ensures !crashed ==> bucket == Bucket(Flatten(eps), node, port)
  {
    crashed, bucket := false, [];
    for s := 0 to |eps|
      invariant Placed(Flatten(eps[..s]))
      invariant bucket == Bucket(Flatten(eps[..s]), node, port)
    {
      FlattenStep(eps, s);
      ghost var done := Flatten(eps[..s]);
      crashed, bucket := CollectSubset(done, eps[s], node, port, bucket);
      if crashed {
        FlattenPrefix(eps, s + 1);
        ghost var k :| 0 <= k < |eps[s]| && eps[s][k].node.None?;
        assert Flatten(eps)[|done| + k] == eps[s][k];
        return;
      }
    }
    assert eps[..|eps|] == eps;
  }

  /** `lbEndpointsForKubeEndpointsTest`. */
  method LbEndpointsForKubeEndpoints(regions: seq<Region>, eps: Endpoints, targetPort: int) returns (out: Bucketed)
    ensures out == BucketAll(regions, eps, targetPort)
  {
    var count := CountReady(eps);
    if count == 0 {
      return NothingReady;
    }
    var buckets: seq<seq<LbEndpoint>> := [];
    for i := 0 to |regions|
      invariant |buckets| == i
      invariant i > 0 ==> Placed(Flatten(eps))
      invariant forall k | 0 <= k < i :: buckets[k] == Bucket(Flatten(eps), regions[k].node, ToUint32(targetPort))
    {
      var crashed, bucket := CollectBucket(eps, regions[i].node, ToUint32(targetPort));
      if crashed {
        return MissingNodeName;
      }
      buckets := buckets + [bucket];
    }
    out := Buckets(buckets);
  }

  // ---- Partition ----

  /** Where in `addresses` the entries of one region's bucket come from. */
  function Positions(addresses: seq<Address>, node: string): seq<nat> {
    if addresses == [] then []
    else
      Positions(addresses[..|addresses| - 1], node)
      + (if addresses[|addresses| - 1].node == Some(node) then [|addresses| - 1] else [])
  }

  lemma {:induction false} PositionMembers(addresses: seq<Address>, node: string, p: nat)
    ensures p in Positions(addresses, node) <==> p < |addresses| && addresses[p].node == Some(node)
  {
    if addresses != [] {
      PositionMembers(addresses[..|addresses| - 1], node, p);
    }
  }

  lemma {:induction false} PositionsAscend(addresses: seq<Address>, node: string, j: nat, k: nat)
    requires j < k < |Positions(addresses, node)|
    ensures Positions(addresses, node)[j] < Positions(addresses, node)[k]
  {
    var init := addresses[..|addresses| - 1];
    var before := Positions(init, node);
    if k < |before| {
      PositionsAscend(init, node, j, k);
    } else {
      assert before[j] in before;
      PositionMembers(init, node, before[j]);
    }
  }

  lemma {:induction false} BucketLength(addresses: seq<Address>, node: string, port: nat)
    ensures |Positions(addresses, node)| == |Bucket(addresses, node, port)|
  {
    if addresses != [] {
      BucketLength(addresses[..|addresses| - 1], node, port);
    }
  }

  lemma {:induction false} BucketValueAt(addresses: seq<Address>, node: string, port: nat, k: nat)
    requires k < |Positions(addresses, node)|
    ensures var p := Positions(addresses, node)[k];
      p < |addresses| && k < |Bucket(addresses, node, port)| && Bucket(addresses, node, port)[k] == LbEndpoint(addresses[p].ip, port)
  {
    BucketLength(addresses, node, port);
    var init := addresses[..|addresses| - 1];
    BucketLength(init, node, port);
    if k < |Positions(init, node)| {
      BucketValueAt(init, node, port, k);
    }
  }

  /** A bucket is an order-preserving selection: exactly the positions on the node, each used once. */
  lemma {:induction false} BucketSelectsInOrder(addresses: seq<Address>, node: string, port: nat)
    ensures var at := Positions(addresses, node); var b := Bucket(addresses, node, port);
      && |at| == |b|
      && (forall k | 0 <= k < |at| :: at[k] < |addresses| && b[k] == LbEndpoint(addresses[at[k]].ip, port))
      && (forall j, k | 0 <= j < k < |at| :: at[j] < at[k])
      && (forall p | 0 <= p < |addresses| :: p in at <==> addresses[p].node == Some(node))
  {
    BucketLength(addresses, node, port);
    var at := Positions(addresses, node);
    forall k | 0 <= k < |at|
      ensures at[k] < |addresses| && Bucket(addresses, node, port)[k] == LbEndpoint(addresses[at[k]].ip, port)
    {
      BucketValueAt(addresses, node, port, k);
    }
    forall j, k | 0 <= j < k < |at| ensures at[j] < at[k] {
      PositionsAscend(addresses, node, j, k);
    }
    forall p | 0 <= p < |addresses| ensures p in at <==> addresses[p].node == Some(node) {
      PositionMembers(addresses, node, p);
    }
  }

  predicate Labelled(a: Address, regions: seq<Region>) {
    exists i | 0 <= i < |regions| :: a.node == Some(regions[i].node)
  }

  function Contribution(a: Address, counted: bool, port: nat): multiset<LbEndpoint> {
    if counted then multiset{LbEndpoint(a.ip, port)} else multiset{}
  }

  function OnLabelledNodes(addresses: seq<Address>, regions: seq<Region>, port: nat): multiset<LbEndpoint> {
    if addresses == [] then multiset{}
    else
      var last := addresses[|addresses| - 1];
      OnLabelledNodes(addresses[..|addresses| - 1], regions, port) + Contribution(last, Labelled(last, regions), port)
  }

  function AllBuckets(addresses: seq<Address>, regions: seq<Region>, port: nat): multiset<LbEndpoint> {
    if regions == [] then multiset{}
    else
      AllBuckets(addresses, regions[..|regions| - 1], port)
      + multiset(Bucket(addresses, regions[|regions| - 1].node, port))
  }

  predicate DistinctNodes(regions: seq<Region>) {
    forall i, j | 0 <= i < j < |regions| :: regions[i].node != regions[j].node
  }

  lemma LabelledStep(a: Address, regions: seq<Region>)
    requires regions != [] && DistinctNodes(regions)
    ensures var init, last := regions[..|regions| - 1], regions[|regions| - 1];
      && DistinctNodes(init)
      && (Labelled(a, regions) <==> Labelled(a, init) || a.node == Some(last.node))
      && !(Labelled(a, init) && a.node == Some(last.node))
  {
    var init, last := regions[..|regions| - 1], regions[|regions| - 1];
    if Labelled(a, init) {
      var i :| 0 <= i < |init| && a.node == Some(init[i].node);
      assert a.node == Some(regions[i].node);
    }
    if Labelled(a, regions) {
      var i :| 0 <= i < |regions| && a.node == Some(regions[i].node);
      assert i < |init| ==> init[i] == regions[i];
    }
  }

  lemma BucketContribution(addresses: seq<Address>, a: Address, node: string, port: nat)
    ensures multiset(Bucket(addresses + [a], node, port))
         == multiset(Bucket(addresses, node, port)) + Contribution(a, a.node == Some(node), port)
  {
    BucketStep(addresses, a, node, port);
  }

  /** An address counted by at most one of two parties is counted once by their sum. */
  lemma CountedOnce(a: Address, first: bool, second: bool, port: nat, x: multiset<LbEndpoint>, y: multiset<LbEndpoint>)
    requires !(first && second)
    ensures (x + Contribution(a, first, port)) + (y + Contribution(a, second, port)) == (x + y) + Contribution(a, first || second, port)
  {
  }

  lemma {:induction false} OneMoreAddress(addresses: seq<Address>, a: Address, regions: seq<Region>, port: nat)
    requires DistinctNodes(regions)
    ensures AllBuckets(addresses + [a], regions, port)
         == AllBuckets(addresses, regions, port) + Contribution(a, Labelled(a, regions), port)
  {
    if regions != [] {
      var init, last := regions[..|regions| - 1], regions[|regions| - 1];
      LabelledStep(a, regions);
      OneMoreAddress(addresses, a, init, port);
      BucketContribution(addresses, a, last.node, port);
      CountedOnce(a, Labelled(a, init), a.node == Some(last.node), port,
                  AllBuckets(addresses, init, port), multiset(Bucket(addresses, last.node, port)));
    }
  }

  /** Conservation: the buckets together hold every ready address on a labelled node, and nothing else. */
  lemma {:induction false} BucketsPartition(addresses: seq<Address>, regions: seq<Region>, port: nat)
    requires DistinctNodes(regions)
    ensures AllBuckets(addresses, regions, port) == OnLabelledNodes(addresses, regions, port)
  {
    if addresses == [] {
      NoAddresses(regions, port);
    } else {
      var init := addresses[..|addresses| - 1];
      BucketsPartition(init, regions, port);
      OneMoreAddress(init, addresses[|addresses| - 1], regions, port);
      assert init + [addresses[|addresses| - 1]] == addresses;
    }
  }

  lemma {:induction false} NoAddresses(regions: seq<Region>, port: nat)
    ensures AllBuckets([], regions, port) == multiset{}
  {
    if regions != [] {
      NoAddresses(regions[..|regions| - 1], port);
    }
  }

  /** No occurrence of an address lands in two buckets. */
  lemma {:induction false} BucketsDisjoint(addresses: seq<Address>, regions: seq<Region>, i: nat, j: nat, p: nat)
    requires DistinctNodes(regions) && i < |regions| && j < |regions| && p < |addresses|
    requires p in Positions(addresses, regions[i].node) && p in Positions(addresses, regions[j].node)
    ensures i == j
  {
    PositionMembers(addresses, regions[i].node, p);
    PositionMembers(addresses, regions[j].node, p);
  }

  // ---- Skipping endpoint updates ----

  lemma {:induction false} BucketMembers(addresses: seq<Address>, node: string, port: nat, e: LbEndpoint)
    ensures e in Bucket(addresses, node, port) <==> e.port == port && Address(e.ip, Some(node)) in addresses
  {
    if addresses != [] {
      var init, last := addresses[..|addresses| - 1], addresses[|addresses| - 1];
      BucketMembers(init, node, port, e);
      assert addresses == init + [last];
    }
  }

  /** `readyAddresses`: the set of ready IPs the update filter compares. */
  method ReadyAddresses(eps: Endpoints) returns (ready: set<string>)
    ensures ready == ReadyIPs(eps)
  {
    ready := {};
    for s := 0 to |eps|
      invariant ready == ReadyIPs(eps[..s])
    {
      FlattenStep(eps, s);
      ghost var done := Flatten(eps[..s]);
      for a := 0 to |eps[s]|
        invariant ready == set x | x in done + eps[s][..a] :: x.ip
      {
        ready := ready + {eps[s][a].ip};
        assert done + eps[s][..a + 1] == (done + eps[s][..a]) + [eps[s][a]];
      }
      assert eps[s][..|eps[s]|] == eps[s];
    }
    assert eps[..|eps|] == eps;
  }

  function ReadyIPs(eps: Endpoints): set<string> {
    set x | x in Flatten(eps) :: x.ip
  }

  /** Every ready address on a labelled node is on that node in both versions. */
  ghost predicate SamePlacement(regions: seq<Region>, before: Endpoints, after: Endpoints) {
    forall i, ip | 0 <= i < |regions| ::
      Address(ip, Some(regions[i].node)) in Flatten(before) <==> Address(ip, Some(regions[i].node)) in Flatten(after)
  }

  /** Two outcomes of bucketing agree: the same endpoint sets per region, or the same failure. */
  predicate SameOutcome(a: Bucketed, b: Bucketed) {
    if a.Buckets? && b.Buckets? then |a.of| == |b.of| && forall i | 0 <= i < |a.of| :: SameMembers(a.of[i], b.of[i])
    else a == b
  }

  predicate SameMembers(a: seq<LbEndpoint>, b: seq<LbEndpoint>) {
    (forall e | e in a :: e in b) && (forall e | e in b :: e in a)
  }

  /** Translating either version comes to the same, whatever the target port. */
  ghost predicate SameOutcomes(regions: seq<Region>, before: Endpoints, after: Endpoints) {
    forall targetPort: int :: SameOutcome(BucketAll(regions, before, targetPort), BucketAll(regions, after, targetPort))
  }

  lemma SameRegionMembers(regions: seq<Region>, before: Endpoints, after: Endpoints, i: nat, port: nat)
    requires i < |regions| && SamePlacement(regions, before, after)
    ensures SameMembers(Bucket(Flatten(before), regions[i].node, port), Bucket(Flatten(after), regions[i].node, port))
  {
    var a, b := Bucket(Flatten(before), regions[i].node, port), Bucket(Flatten(after), regions[i].node, port);
    forall e: LbEndpoint ensures e in a <==> e in b {
      BucketMembers(Flatten(before), regions[i].node, port, e);
      BucketMembers(Flatten(after), regions[i].node, port, e);
      assert Address(e.ip, Some(regions[i].node)) in Flatten(before) <==> Address(e.ip, Some(regions[i].node)) in Flatten(after);
    }
  }

  /** Where every address is placed, outcomes agree exactly when the buckets do. */
  lemma PlacedOutcomesIff(regions: seq<Region>, before: Endpoints, after: Endpoints)
    requires Flatten(before) != [] && Flatten(after) != [] && Placed(Flatten(before)) && Placed(Flatten(after))
    ensures SameOutcomes(regions, before, after) <==> SamePlacement(regions, before, after)
  {
    if SamePlacement(regions, before, after) {
      forall targetPort: int ensures SameOutcome(BucketAll(regions, before, targetPort), BucketAll(regions, after, targetPort)) {
        forall i | 0 <= i < |regions|
          ensures SameMembers(Bucket(Flatten(before), regions[i].node, ToUint32(targetPort)), Bucket(Flatten(after), regions[i].node, ToUint32(targetPort)))
        {
          SameRegionMembers(regions, before, after, i, ToUint32(targetPort));
        }
      }
    }
    if SameOutcomes(regions, before, after) {
      var x, y := BucketAll(regions, before, 0), BucketAll(regions, after, 0);
      assert SameOutcome(x, y);
      forall i, ip | 0 <= i < |regions|
        ensures Address(ip, Some(regions[i].node)) in Flatten(before) <==> Address(ip, Some(regions[i].node)) in Flatten(after)
      {
        assert SameMembers(x.of[i], y.of[i]);
        BucketMembers(Flatten(before), regions[i].node, 0, LbEndpoint(ip, 0));
        BucketMembers(Flatten(after), regions[i].node, 0, LbEndpoint(ip, 0));
      }
    }
  }

  lemma SameEmptiness(before: Endpoints, after: Endpoints)
    requires ReadyIPs(before) == ReadyIPs(after)
    ensures Flatten(before) == [] <==> Flatten(after) == []
  {
    if Flatten(before) != [] {
      assert Flatten(before)[0].ip in ReadyIPs(after);
    }
    if Flatten(after) != [] {
      assert Flatten(after)[0].ip in ReadyIPs(before);
    }
  }

  /**
    An ignored update would have come to the same, panics included, exactly when both or neither version
    lack a node name and, where neither does, no ready address of a labelled node came, went or moved.
   */
  lemma SkipIsSoundIff(regions: seq<Region>, before: Endpoints, after: Endpoints)
    requires regions != [] && ReadyIPs(before) == ReadyIPs(after)
    ensures SameOutcomes(regions, before, after) <==>
      && (Placed(Flatten(before)) <==> Placed(Flatten(after)))
      && (Placed(Flatten(before)) ==> SamePlacement(regions, before, after))
  {
    SameEmptiness(before, after);
    if Flatten(before) != [] {
      if Placed(Flatten(before)) && Placed(Flatten(after)) {
        PlacedOutcomesIff(regions, before, after);
      } else {
        assert SameOutcome(BucketAll(regions, before, 0), BucketAll(regions, after, 0)) <==>
          !Placed(Flatten(before)) && !Placed(Flatten(after));
      }
    }
  }

  /** A node name is a function of the IP, across both versions. */
  predicate NodeByIP(before: seq<Address>, after: seq<Address>) {
    forall a, b | a in before && b in after && a.ip == b.ip :: a.node == b.node
  }

  lemma SameNodesPlacement(before: Endpoints, after: Endpoints, a: Address)
    requires ReadyIPs(before) == ReadyIPs(after) && NodeByIP(Flatten(before), Flatten(after))
    ensures a in Flatten(before) <==> a in Flatten(after)
  {
    if a in Flatten(before) {
      assert a.ip in ReadyIPs(after);
      var b :| b in Flatten(after) && b.ip == a.ip;
    }
    if a in Flatten(after) {
      assert a.ip in ReadyIPs(before);
      var b :| b in Flatten(before) && b.ip == a.ip;
    }
  }

  /** When an IP never changes node, comparing ready IPs is enough: a skipped update loses nothing. */
  lemma SkippedUpdateIsHarmless(regions: seq<Region>, before: Endpoints, after: Endpoints)
    requires regions != [] && ReadyIPs(before) == ReadyIPs(after) && NodeByIP(Flatten(before), Flatten(after))
    ensures SameOutcomes(regions, before, after)
  {
    forall a ensures a in Flatten(before) <==> a in Flatten(after) {
      SameNodesPlacement(before, after, a);
    }
    SamePlaced(Flatten(before), Flatten(after));
    SkipIsSoundIff(regions, before, after);
  }

  lemma SamePlaced(a: seq<Address>, b: seq<Address>)
    requires forall x :: x in a <==> x in b
    ensures Placed(a) <==> Placed(b)
  {
    if Placed(a) {
      forall k | 0 <= k < |b| ensures b[k].node.Some? {
        assert b[k] in a;
      }
    }
    if Placed(b) {
      forall k | 0 <= k < |a| ensures a[k].node.Some? {
        assert a[k] in b;
      }
    }
  }

  lemma FlattenOne(a: Address)
    ensures Flatten([[a]]) == [a]
  {
    assert [[a]][..0] == [];
    assert [[a]][..1] == [[a]];
    FlattenStep([[a]], 0);
  }

  /** An IP that leaves a labelled node for another node, or loses its node name, is missed: the ready set stays as it was. */
  lemma MoveIsMissed(regions: seq<Region>, i: nat, ip: string, elsewhere: Option<string>)
    requires i < |regions| && elsewhere != Some(regions[i].node)
    ensures var before, after := [[Address(ip, Some(regions[i].node))]], [[Address(ip, elsewhere)]];
      ReadyIPs(before) == ReadyIPs(after) && !SameOutcomes(regions, before, after)
  {
    var here, there := Address(ip, Some(regions[i].node)), Address(ip, elsewhere);
    FlattenOne(here);
    FlattenOne(there);
    assert here in Flatten([[here]]) && here !in Flatten([[there]]);
    assert there in Flatten([[there]]);
    assert ReadyIPs([[here]]) == {ip} == ReadyIPs([[there]]);
    SkipIsSoundIff(regions, [[here]], [[there]]);
    assert Placed(Flatten([[here]]));
    if elsewhere.None? {
      assert !Placed(Flatten([[there]]));
    }
  }

  /** So the filter loses updates with the shipped regions: an IP that moves node is ignored. */
  lemma SkippedMoveIsLost()
    ensures exists before: Endpoints, after: Endpoints ::
      ReadyIPs(before) == ReadyIPs(after) && !SameOutcomes(SHIPPED_REGIONS, before, after)
  {
    assert SHIPPED_REGIONS[0].node == "node1";
    MoveIsMissed(SHIPPED_REGIONS, 0, "10.0.0.1", Some("node2"));
  }
}
