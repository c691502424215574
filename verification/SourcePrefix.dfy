/** The per-region source prefix ranges that decide which filter chain, and so which region, a client gets. */
module SourcePrefixes {
  import opened Text
  import opened Kube

  datatype Node = Node(name: string, addresses: seq<string>)

  datatype CidrRange = CidrRange(prefix: string, len: nat)

  /** An address block: its affinity, if any, and its CIDR as parsed (`None` when invalid). */
  datatype Block = Block(affinity: Option<string>, cidr: Option<CidrRange>)

  /** `strings.Contains`. */
  predicate Contains(s: string, sub: string) {
    exists k | 0 <= k <= |s| :: OccursAt(s, sub, k)
  }

  predicate OccursAt(s: string, sub: string, k: nat) {
    k + |sub| <= |s| && s[k..k + |sub|] == sub
  }

  predicate Affine(b: Block, node: string) {
    b.affinity.Some? && Contains(b.affinity.value, node)
  }

  /** How many nodes carry the name, and the addresses of the last one that does. */
  function Named(nodes: seq<Node>, name: string): (nat, seq<string>) {
    if nodes == [] then (0, [])
    else
      var (count, addresses) := Named(nodes[..|nodes| - 1], name);
      var last := nodes[|nodes| - 1];
      if last.name == name then (count + 1, last.addresses) else (count, addresses)
  }

  function HostRanges(addresses: seq<string>): seq<CidrRange> {
    seq(|addresses|, k requires 0 <= k < |addresses| => CidrRange(addresses[k], 32))
  }

  /** Ranges of the affine blocks, in list order; `None` when one of them has an invalid CIDR. */
  function BlockRanges(blocks: seq<Block>, node: string): Option<seq<CidrRange>> {
    if blocks == [] then Some([])
    else
      var before, last := BlockRanges(blocks[..|blocks| - 1], node), blocks[|blocks| - 1];
      if before.None? then None
      else if !Affine(last, node) then before
      else if last.cidr.None? then None
      else Some(before.value + [last.cidr.value])
  }

  /** One region's ranges; `None` is a panic on a missing node address or an invalid CIDR. */
  function RegionRanges(node: string, nodes: seq<Node>, blocks: seq<Block>): Option<seq<CidrRange>> {
    var (count, addresses) := Named(nodes, node);
    if count > |addresses| then None
    else
      var rest := BlockRanges(blocks, node);
      if rest.None? then None else Some(HostRanges(addresses[..count]) + rest.value)
  }

  /** The loop over the nodes, then the loop that appends one /32 per counted node. */
  method NodeRanges(nodes: seq<Node>, node: string, stale: seq<string>)
    returns (panicked: bool, ranges: seq<CidrRange>, nodeIP: seq<string>)
    ensures var (count, addresses) := Named(nodes, node);
      (panicked <==> count > |addresses|) && (!panicked ==> ranges == HostRanges(addresses[..count]))
  {
    var count: nat := 0;
    nodeIP, ranges, panicked := stale, [], false;
    for j := 0 to |nodes|
      invariant count == Named(nodes[..j], node).0
      invariant count > 0 ==> nodeIP == Named(nodes[..j], node).1
      invariant count == 0 ==> Named(nodes[..j], node).1 == []
    {
      assert nodes[..j + 1][..j] == nodes[..j];
      if nodes[j].name == node {
        count := count + 1;
        nodeIP := nodes[j].addresses;
      }
    }
    assert nodes[..|nodes|] == nodes;
    for k := 0 to count
      invariant k > 0 ==> k <= |nodeIP|
      invariant |ranges| == k && forall m | 0 <= m < k :: ranges[m] == CidrRange(nodeIP[m], 32)
    {
      if k >= |nodeIP| {
        return true, [], nodeIP;
      }
      ranges := ranges + [CidrRange(nodeIP[k], 32)];
    }
    if count == 0 {
      assert Named(nodes, node).1[..0] == [];
    }
  }

  /** The loop over the address blocks. */
  method AppendBlocks(blocks: seq<Block>, node: string) returns (ranges: Option<seq<CidrRange>>)
    ensures ranges == BlockRanges(blocks, node)
  {
    ranges := Some([]);
    for k := 0 to |blocks|
      invariant ranges.Some? && ranges == BlockRanges(blocks[..k], node)
    {
      assert blocks[..k + 1][..k] == blocks[..k];
      if Affine(blocks[k], node) {
        if blocks[k].cidr.None? {
          InvalidSticks(blocks, node, k + 1);
          return None;
        }
        ranges := Some(ranges.value + [blocks[k].cidr.value]);
      }
    }
    assert blocks[..|blocks|] == blocks;
  }

  lemma {:induction false} InvalidSticks(blocks: seq<Block>, node: string, k: nat)
    requires k <= |blocks| && BlockRanges(blocks[..k], node).None?
    ensures BlockRanges(blocks, node).None?
    decreases |blocks| - k
  {
    if k == |blocks| {
      assert blocks[..k] == blocks;
    } else {
      assert blocks[..k + 1][..k] == blocks[..k];
      InvalidSticks(blocks, node, k + 1);
    }
  }

  /** What one listener construction reads from the cluster: its nodes and its address blocks. */
  datatype Inventory = Inventory(nodes: seq<Node>, blocks: seq<Block>)

  predicate Unreadable(regions: seq<Region>, inv: Inventory) {
    exists i | 0 <= i < |regions| :: RegionRanges(regions[i].node, inv.nodes, inv.blocks).None?
  }

  /** The ranges of every region; `None` is a panic. */
  function PrefixRanges(regions: seq<Region>, inv: Inventory): Option<seq<seq<CidrRange>>> {
    if Unreadable(regions, inv) then None
    else Some(seq(|regions|, i requires 0 <= i < |regions| => RegionRanges(regions[i].node, inv.nodes, inv.blocks).value))
  }

  /** The prefix loop of `NewHTTPListenerDual`; `None` is a panic. */
  method SourcePrefixRanges(regions: seq<Region>, inv: Inventory) returns (out: Option<seq<seq<CidrRange>>>)
    ensures out == PrefixRanges(regions, inv)
  {
    var all: seq<seq<CidrRange>> := [];
    var nodeIP: seq<string> := [];
    for i := 0 to |regions|
      invariant |all| == i
      invariant forall k | 0 <= k < i :: Some(all[k]) == RegionRanges(regions[k].node, inv.nodes, inv.blocks)
    {
      var panicked, ranges;
      panicked, ranges, nodeIP := NodeRanges(inv.nodes, regions[i].node, nodeIP);
      var rest := AppendBlocks(inv.blocks, regions[i].node);
      if panicked || rest.None? {
        assert RegionRanges(regions[i].node, inv.nodes, inv.blocks).None?;
        assert Unreadable(regions, inv);
        return None;
      }
      all := all + [ranges + rest.value];
    }
    assert forall k | 0 <= k < |regions| :: RegionRanges(regions[k].node, inv.nodes, inv.blocks).Some?;
    assert all == PrefixRanges(regions, inv).value;
    out := Some(all);
  }

  // ---- What the ranges are ----

  predicate UniqueNames(nodes: seq<Node>) {
    forall i, j | 0 <= i < j < |nodes| :: nodes[i].name != nodes[j].name
  }

  /** With unique node names, a region's node contributes exactly its first address. */
  lemma {:induction false} NamedOnce(nodes: seq<Node>, name: string)
    requires UniqueNames(nodes)
    ensures (exists k :: 0 <= k < |nodes| && nodes[k].name == name && Named(nodes, name) == (1, nodes[k].addresses))
         || ((forall k | 0 <= k < |nodes| :: nodes[k].name != name) && Named(nodes, name) == (0, []))
  {
    if nodes != [] {
      var init := nodes[..|nodes| - 1];
      assert forall k | 0 <= k < |init| :: init[k] == nodes[k];
      NamedOnce(init, name);
    }
  }

  /** A region's ranges: its node's first address, if the node exists, then its blocks; no address or a bad CIDR is a panic. */
  lemma {:induction false} RegionRangesAre(node: string, nodes: seq<Node>, blocks: seq<Block>, k: nat)
    requires UniqueNames(nodes) && k < |nodes| && nodes[k].name == node
    ensures var rest, ranges, addresses := BlockRanges(blocks, node), RegionRanges(node, nodes, blocks), nodes[k].addresses;
      && (ranges.Some? <==> rest.Some? && addresses != [])
      && (ranges.Some? ==> ranges.value == [CidrRange(addresses[0], 32)] + rest.value)
  {
    NamedOnce(nodes, node);
    var j :| 0 <= j < |nodes| && nodes[j].name == node && Named(nodes, node) == (1, nodes[j].addresses);
    assert j == k;
    if nodes[k].addresses != [] {
      assert HostRanges(nodes[k].addresses[..1]) == [CidrRange(nodes[k].addresses[0], 32)];
    }
  }

  /** A region whose node is missing has its blocks only. */
  lemma {:induction false} MissingNodeGivesBlocks(node: string, nodes: seq<Node>, blocks: seq<Block>)
    requires UniqueNames(nodes) && forall k | 0 <= k < |nodes| :: nodes[k].name != node
    ensures RegionRanges(node, nodes, blocks) == BlockRanges(blocks, node)
  {
    NamedOnce(nodes, node);
    var rest := BlockRanges(blocks, node);
    assert Named(nodes, node) == (0, []);
    if rest.Some? {
      assert HostRanges(Named(nodes, node).1[..0]) + rest.value == rest.value;
    }
  }

  /** Positions of the affine blocks. */
  function AffineAt(blocks: seq<Block>, node: string): seq<nat> {
    if blocks == [] then []
    else AffineAt(blocks[..|blocks| - 1], node) + (if Affine(blocks[|blocks| - 1], node) then [|blocks| - 1] else [])
  }

  lemma {:induction false} AffineMembers(blocks: seq<Block>, node: string, b: nat)
    ensures b in AffineAt(blocks, node) <==> b < |blocks| && Affine(blocks[b], node)
  {
    if blocks != [] {
      AffineMembers(blocks[..|blocks| - 1], node, b);
    }
  }

  lemma {:induction false} AffineAscend(blocks: seq<Block>, node: string, j: nat, k: nat)
    requires j < k < |AffineAt(blocks, node)|
    ensures AffineAt(blocks, node)[j] < AffineAt(blocks, node)[k]
  {
    var init := blocks[..|blocks| - 1];
    var before := AffineAt(init, node);
    if k < |before| {
      AffineAscend(init, node, j, k);
    } else {
      assert before[j] in before;
      AffineMembers(init, node, before[j]);
    }
  }

  lemma {:induction false} RangePerBlock(blocks: seq<Block>, node: string)
    requires BlockRanges(blocks, node).Some?
    ensures |AffineAt(blocks, node)| == |BlockRanges(blocks, node).value|
  {
    if blocks != [] {
      RangePerBlock(blocks[..|blocks| - 1], node);
    }
  }

  lemma {:induction false} RangeAt(blocks: seq<Block>, node: string, k: nat)
    requires BlockRanges(blocks, node).Some? && k < |AffineAt(blocks, node)|
    ensures var b, ranges := AffineAt(blocks, node)[k], BlockRanges(blocks, node).value;
      b < |blocks| && k < |ranges| && blocks[b].cidr == Some(ranges[k])
  {
    RangePerBlock(blocks, node);
    var init := blocks[..|blocks| - 1];
    RangePerBlock(init, node);
    if k < |AffineAt(init, node)| {
      RangeAt(init, node, k);
    }
  }

  /** A region's block ranges are its affine blocks, each once and in list order. */
  lemma {:induction false} BlocksInOrder(blocks: seq<Block>, node: string)
    requires BlockRanges(blocks, node).Some?
    ensures var at, ranges := AffineAt(blocks, node), BlockRanges(blocks, node).value;
      && |at| == |ranges|
      && (forall k | 0 <= k < |at| :: at[k] < |blocks| && blocks[at[k]].cidr == Some(ranges[k]))
      && (forall j, k | 0 <= j < k < |at| :: at[j] < at[k])
      && (forall b | 0 <= b < |blocks| :: b in at <==> Affine(blocks[b], node))
  {
    RangePerBlock(blocks, node);
    var at, ranges := AffineAt(blocks, node), BlockRanges(blocks, node).value;
    forall k | 0 <= k < |at| ensures at[k] < |blocks| && blocks[at[k]].cidr == Some(ranges[k]) {
      RangeAt(blocks, node, k);
    }
    forall j, k | 0 <= j < k < |at| ensures at[j] < at[k] {
      AffineAscend(blocks, node, j, k);
    }
    forall b | 0 <= b < |blocks| ensures b in at <==> Affine(blocks[b], node) {
      AffineMembers(blocks, node, b);
    }
  }

  // ---- When the loop panics ----

  /** Some region's node occurs more often than it has addresses, or one of its blocks has an invalid CIDR. */
  predicate BadInventory(regions: seq<Region>, inv: Inventory) {
    exists i | 0 <= i < |regions| :: BadRegion(regions[i].node, inv)
  }

  predicate BadRegion(node: string, inv: Inventory) {
    || Named(inv.nodes, node).0 > |Named(inv.nodes, node).1|
    || exists b | 0 <= b < |inv.blocks| :: Affine(inv.blocks[b], node) && inv.blocks[b].cidr.None?
  }

  lemma {:induction false} BadBlockIff(blocks: seq<Block>, node: string)
    ensures BlockRanges(blocks, node).None? <==> exists b | 0 <= b < |blocks| :: Affine(blocks[b], node) && blocks[b].cidr.None?
  {
    if blocks != [] {
      var init := blocks[..|blocks| - 1];
      BadBlockIff(init, node);
      assert forall b | 0 <= b < |init| :: init[b] == blocks[b];
    }
  }

  /** The prefix loop panics exactly on such an inventory. */
  lemma UnreadableIff(regions: seq<Region>, inv: Inventory)
    ensures Unreadable(regions, inv) <==> BadInventory(regions, inv)
  {
    forall i | 0 <= i < |regions|
      ensures RegionRanges(regions[i].node, inv.nodes, inv.blocks).None? <==> BadRegion(regions[i].node, inv)
    {
      BadBlockIff(inv.blocks, regions[i].node);
    }
  }

  // ---- Whose blocks a region takes ----

  /** Calico's affinity of the blocks of one node. */
  function OwnAffinity(node: string): string {
    "host:" + node
  }

  lemma OwnIsAffine(b: Block, node: string)
    requires b.affinity == Some(OwnAffinity(node))
    ensures Affine(b, node)
  {
    assert OccursAt(OwnAffinity(node), node, 5);
  }

  /**
    A block of the node `owner` is taken by exactly the regions labelled `owner` if and only if no
    other region's label occurs in its affinity.
   */
  lemma BlockStaysHomeIff(regions: seq<Region>, blocks: seq<Block>, b: nat, owner: string)
    requires b < |blocks| && blocks[b].affinity == Some(OwnAffinity(owner))
    ensures (forall i | 0 <= i < |regions| :: b in AffineAt(blocks, regions[i].node) <==> regions[i].node == owner)
       <==> (forall i | 0 <= i < |regions| && Contains(OwnAffinity(owner), regions[i].node) :: regions[i].node == owner)
  {
    forall i | 0 <= i < |regions|
      ensures b in AffineAt(blocks, regions[i].node) <==> Contains(OwnAffinity(owner), regions[i].node)
      ensures regions[i].node == owner ==> Contains(OwnAffinity(owner), regions[i].node)
    {
      AffineMembers(blocks, regions[i].node, b);
      if regions[i].node == owner {
        OwnIsAffine(blocks[b], owner);
      }
    }
  }

  /** The ranges of the node's own blocks, in list order. */
  function OwnRanges(blocks: seq<Block>, node: string): seq<CidrRange> {
    if blocks == [] then []
    else
      var before, last := OwnRanges(blocks[..|blocks| - 1], node), blocks[|blocks| - 1];
      if last.affinity == Some(OwnAffinity(node)) && last.cidr.Some? then before + [last.cidr.value] else before
  }

  /** Every block whose affinity contains the label is the node's own. */
  predicate NoStrangers(blocks: seq<Block>, node: string) {
    forall b | 0 <= b < |blocks| && Affine(blocks[b], node) :: blocks[b].affinity == Some(OwnAffinity(node))
  }

  lemma NoStrangersStep(blocks: seq<Block>, node: string)
    requires blocks != []
    ensures var init, last := blocks[..|blocks| - 1], blocks[|blocks| - 1];
      NoStrangers(blocks, node) <==> NoStrangers(init, node) && (Affine(last, node) ==> last.affinity == Some(OwnAffinity(node)))
  {
    var init := blocks[..|blocks| - 1];
    assert forall b | 0 <= b < |init| :: init[b] == blocks[b];
  }

  /** A region takes at least its node's own blocks, and nothing else exactly when no stranger matches its label. */
  lemma {:induction false} OwnBlocksOnlyIff(blocks: seq<Block>, node: string)
    requires BlockRanges(blocks, node).Some?
    ensures |OwnRanges(blocks, node)| <= |BlockRanges(blocks, node).value|
    ensures BlockRanges(blocks, node).value == OwnRanges(blocks, node) <==> NoStrangers(blocks, node)
  {
    if blocks != [] {
      var init, last := blocks[..|blocks| - 1], blocks[|blocks| - 1];
      OwnBlocksOnlyIff(init, node);
      NoStrangersStep(blocks, node);
      if last.affinity == Some(OwnAffinity(node)) {
        OwnIsAffine(last, node);
        AppendedAlike(BlockRanges(init, node).value, OwnRanges(init, node), last.cidr.value);
      }
    }
  }

  lemma AppendedAlike<T>(a: seq<T>, b: seq<T>, x: T)
    ensures a + [x] == b + [x] <==> a == b
  {
    assert (a + [x])[..|a|] == a && (b + [x])[..|b|] == b;
  }

  /** The /32 ranges of the node's addresses. */
  function NodePart(node: string, nodes: seq<Node>): seq<CidrRange> {
    var (count, addresses) := Named(nodes, node);
    if count <= |addresses| then HostRanges(addresses[..count]) else []
  }

  lemma SamePrefix<T>(a: seq<T>, x: seq<T>, y: seq<T>)
    ensures a + x == a + y <==> x == y
  {
    assert (a + x)[|a|..] == x && (a + y)[|a|..] == y;
  }

  lemma RegionRangesOwnIff(node: string, nodes: seq<Node>, blocks: seq<Block>)
    requires RegionRanges(node, nodes, blocks).Some?
    ensures RegionRanges(node, nodes, blocks).value == NodePart(node, nodes) + OwnRanges(blocks, node) <==> NoStrangers(blocks, node)
  {
    OwnBlocksOnlyIff(blocks, node);
    SamePrefix(NodePart(node, nodes), BlockRanges(blocks, node).value, OwnRanges(blocks, node));
  }

  /**
    The emitted ranges assign every client to its own node's region, and only there, if and only if
    no region's label occurs in another node's affinity.
   */
  lemma EmittedRangesOwnIff(regions: seq<Region>, inv: Inventory)
    requires PrefixRanges(regions, inv).Some?
    ensures
      var out := PrefixRanges(regions, inv).value;
      && |out| == |regions|
      && ((forall i | 0 <= i < |regions| :: out[i] == NodePart(regions[i].node, inv.nodes) + OwnRanges(inv.blocks, regions[i].node))
          <==> (forall i | 0 <= i < |regions| :: NoStrangers(inv.blocks, regions[i].node)))
  {
    var out := PrefixRanges(regions, inv).value;
    forall i | 0 <= i < |regions|
      ensures out[i] == NodePart(regions[i].node, inv.nodes) + OwnRanges(inv.blocks, regions[i].node) <==> NoStrangers(inv.blocks, regions[i].node)
    {
      assert RegionRanges(regions[i].node, inv.nodes, inv.blocks).Some?;
      RegionRangesOwnIff(regions[i].node, inv.nodes, inv.blocks);
    }
  }

  // ---- When the chains of a listener can be told apart ----

  /** Envoy refuses two chains with one match: no range may be in two regions, and at most one region may match everything. */
  predicate Unambiguous(ranges: seq<seq<CidrRange>>) {
    && (forall i, j | 0 <= i < j < |ranges| :: Disjoint(ranges[i], ranges[j]))
    && (forall i, j | 0 <= i < j < |ranges| :: ranges[i] != [] || ranges[j] != [])
  }

  predicate Disjoint(a: seq<CidrRange>, b: seq<CidrRange>) {
    forall c | c in a :: c !in b
  }

  /** The region labelled `node` claims the range: its node's first address, or a block affine to the label. */
  predicate Claims(node: string, inv: Inventory, c: CidrRange) {
    || (exists n | n in inv.nodes :: n.name == node && n.addresses != [] && c == CidrRange(n.addresses[0], 32))
    || (exists b | 0 <= b < |inv.blocks| :: Affine(inv.blocks[b], node) && inv.blocks[b].cidr == Some(c))
  }

  /** Nothing in the cluster belongs to the label. */
  predicate Idle(node: string, inv: Inventory) {
    (forall n | n in inv.nodes :: n.name != node) && (forall b | 0 <= b < |inv.blocks| :: !Affine(inv.blocks[b], node))
  }

  lemma BlockRangeMembers(blocks: seq<Block>, node: string, c: CidrRange)
    requires BlockRanges(blocks, node).Some?
    ensures c in BlockRanges(blocks, node).value
       <==> exists b | 0 <= b < |blocks| :: Affine(blocks[b], node) && blocks[b].cidr == Some(c)
  {
    var at, ranges := AffineAt(blocks, node), BlockRanges(blocks, node).value;
    RangePerBlock(blocks, node);
    if c in ranges {
      var k :| 0 <= k < |ranges| && ranges[k] == c;
      RangeAt(blocks, node, k);
      assert at[k] in at;
      AffineMembers(blocks, node, at[k]);
    }
    if b :| 0 <= b < |blocks| && Affine(blocks[b], node) && blocks[b].cidr == Some(c) {
      AffineMembers(blocks, node, b);
      var k :| 0 <= k < |at| && at[k] == b;
      RangeAt(blocks, node, k);
    }
  }

  lemma NoBlockRanges(blocks: seq<Block>, node: string)
    requires BlockRanges(blocks, node).Some?
    ensures BlockRanges(blocks, node).value == [] <==> forall b | 0 <= b < |blocks| :: !Affine(blocks[b], node)
  {
    var at := AffineAt(blocks, node);
    RangePerBlock(blocks, node);
    if at == [] {
      forall b | 0 <= b < |blocks| ensures !Affine(blocks[b], node) {
        AffineMembers(blocks, node, b);
      }
    } else {
      assert at[0] in at;
      AffineMembers(blocks, node, at[0]);
    }
  }

  lemma RegionClaims(node: string, inv: Inventory, c: CidrRange)
    requires UniqueNames(inv.nodes) && RegionRanges(node, inv.nodes, inv.blocks).Some?
    ensures c in RegionRanges(node, inv.nodes, inv.blocks).value <==> Claims(node, inv, c)
    ensures RegionRanges(node, inv.nodes, inv.blocks).value == [] <==> Idle(node, inv)
  {
    BlockRangeMembers(inv.blocks, node, c);
    NoBlockRanges(inv.blocks, node);
    if k :| 0 <= k < |inv.nodes| && inv.nodes[k].name == node {
      RegionRangesAre(node, inv.nodes, inv.blocks, k);
      assert inv.nodes[k] in inv.nodes;
      assert forall n | n in inv.nodes && n.name == node :: n == inv.nodes[k];
    } else {
      MissingNodeGivesBlocks(node, inv.nodes, inv.blocks);
    }
  }

  /** No range is claimed by two regions, and at most one region has nothing at all. */
  ghost predicate FairlyShared(regions: seq<Region>, inv: Inventory) {
    && (forall i, j, c | 0 <= i < j < |regions| && Claims(regions[i].node, inv, c) :: !Claims(regions[j].node, inv, c))
    && (forall i, j | 0 <= i < j < |regions| :: !Idle(regions[i].node, inv) || !Idle(regions[j].node, inv))
  }

  /** A listener's chains can be told apart exactly when nodes and blocks are fairly shared between the regions. */
  lemma UnambiguousIff(regions: seq<Region>, inv: Inventory)
    requires UniqueNames(inv.nodes) && PrefixRanges(regions, inv).Some?
    ensures Unambiguous(PrefixRanges(regions, inv).value) <==> FairlyShared(regions, inv)
  {
    var ranges := PrefixRanges(regions, inv).value;
    forall i | 0 <= i < |regions| ensures RegionRanges(regions[i].node, inv.nodes, inv.blocks) == Some(ranges[i]) {
      assert RegionRanges(regions[i].node, inv.nodes, inv.blocks).Some?;
    }
    forall i, c | 0 <= i < |regions| ensures c in ranges[i] <==> Claims(regions[i].node, inv, c) {
      RegionClaims(regions[i].node, inv, c);
    }
    forall i | 0 <= i < |regions| ensures ranges[i] == [] <==> Idle(regions[i].node, inv) {
      RegionClaims(regions[i].node, inv, CidrRange("", 0));
    }
    if Unambiguous(ranges) {
      forall i, j, c | 0 <= i < j < |regions| && Claims(regions[i].node, inv, c) ensures !Claims(regions[j].node, inv, c) {
        assert Disjoint(ranges[i], ranges[j]) && c in ranges[i];
      }
    }
    if FairlyShared(regions, inv) {
      forall i, j | 0 <= i < j < |ranges| ensures Disjoint(ranges[i], ranges[j]) {
        assert forall c | c in ranges[i] :: Claims(regions[i].node, inv, c);
      }
    }
  }

  /** With the shipped regions and one node only, the other two regions' chains match the same clients: every one. */
  lemma LonelyNodeIsAmbiguous(address: string)
    ensures var inv := Inventory([Node("node1", [address])], []);
      PrefixRanges(SHIPPED_REGIONS, inv) == Some([[CidrRange(address, 32)], [], []]) && !Unambiguous(PrefixRanges(SHIPPED_REGIONS, inv).value)
  {
    var inv := Inventory([Node("node1", [address])], []);
    RegionRangesAre("node1", inv.nodes, inv.blocks, 0);
    MissingNodeGivesBlocks("node2", inv.nodes, inv.blocks);
    MissingNodeGivesBlocks("node3", inv.nodes, inv.blocks);
    assert BlockRanges(inv.blocks, "node1") == BlockRanges(inv.blocks, "node2") == BlockRanges(inv.blocks, "node3") == Some([]);
    assert [CidrRange(address, 32)] + [] == [CidrRange(address, 32)] && inv.nodes[0].addresses != [];
    assert RegionRanges("node1", inv.nodes, inv.blocks) == Some([CidrRange(address, 32)]);
    forall i | 0 <= i < |SHIPPED_REGIONS|
      ensures RegionRanges(SHIPPED_REGIONS[i].node, inv.nodes, inv.blocks) == Some(if i == 0 then [CidrRange(address, 32)] else [])
    {
      assert SHIPPED_REGIONS[i].node == if i == 0 then "node1" else if i == 1 then "node2" else "node3";
    }
    assert !Unreadable(SHIPPED_REGIONS, inv);
    var out := PrefixRanges(SHIPPED_REGIONS, inv).value;
    assert out[1] == [] && out[2] == [];
    assert out == [[CidrRange(address, 32)], [], []];
  }

  // ---- Affinity, spelled out ----

  /** A block is affine to a label exactly when its affinity reads `a` + label + `b` for some `a` and `b`. */
  lemma AffineIff(b: Block, node: string)
    ensures Affine(b, node) <==> b.affinity.Some? && exists x: string, y: string :: b.affinity.value == x + node + y
  {
    if Affine(b, node) {
      var s := b.affinity.value;
      var k :| 0 <= k <= |s| && OccursAt(s, node, k);
      assert s == s[..k] + node + s[k + |node|..];
    }
    if b.affinity.Some? {
      forall x: string, y: string | b.affinity.value == x + node + y ensures Contains(b.affinity.value, node) {
        assert OccursAt(b.affinity.value, node, |x|);
      }
    }
  }

  /** The range is a region's: its node's first address, or a block's whose affinity contains the label. */
  ghost predicate BelongsTo(node: string, inv: Inventory, c: CidrRange) {
    || (exists n | n in inv.nodes :: n.name == node && n.addresses != [] && c == CidrRange(n.addresses[0], 32))
    || (exists b | 0 <= b < |inv.blocks| :: inv.blocks[b].cidr == Some(c) && Spells(inv.blocks[b], node))
  }

  ghost predicate Spells(b: Block, node: string) {
    b.affinity.Some? && exists x: string, y: string :: b.affinity.value == x + node + y
  }

  /** What is emitted for a region is exactly what belongs to it. */
  lemma EmittedIffBelongs(regions: seq<Region>, inv: Inventory, i: nat, c: CidrRange)
    requires UniqueNames(inv.nodes) && PrefixRanges(regions, inv).Some? && i < |regions|
    ensures |PrefixRanges(regions, inv).value| == |regions|
    ensures c in PrefixRanges(regions, inv).value[i] <==> BelongsTo(regions[i].node, inv, c)
  {
    assert RegionRanges(regions[i].node, inv.nodes, inv.blocks).Some?;
    RegionClaims(regions[i].node, inv, c);
    forall b | 0 <= b < |inv.blocks| ensures Affine(inv.blocks[b], regions[i].node) <==> Spells(inv.blocks[b], regions[i].node) {
      AffineIff(inv.blocks[b], regions[i].node);
    }
  }

  lemma NotIn(s: string, sub: string)
    requires sub != "" && forall j | |sub| - 1 <= j < |s| :: s[j] != sub[|sub| - 1]
    ensures !Contains(s, sub)
  {
    forall k | 0 <= k <= |s| ensures !OccursAt(s, sub, k) {
      if k + |sub| <= |s| {
        assert s[k..k + |sub|][|sub| - 1] == s[k + |sub| - 1];
      }
    }
  }

  lemma NodeTwoIsItsOwn(b: Block)
    requires b.affinity == Some("host:node2")
    ensures !Affine(b, "node1") && Affine(b, "node2") && !Affine(b, "node3")
  {
    assert OccursAt("host:node2", "node2", 5);
    NotIn("host:node2", "node1");
    NotIn("host:node2", "node3");
  }

  /** Whatever the nodes, with the shipped regions a block of node2 goes to the second region and to no other. */
  lemma BlockOfNodeTwo(nodes: seq<Node>, cidr: CidrRange)
    requires UniqueNames(nodes)
    ensures var out := PrefixRanges(SHIPPED_REGIONS, Inventory(nodes, [Block(Some("host:node2"), Some(cidr))]));
      out.Some? ==> out.value == [NodePart("node1", nodes), NodePart("node2", nodes) + [cidr], NodePart("node3", nodes)]
  {
    var b := Block(Some("host:node2"), Some(cidr));
    var inv := Inventory(nodes, [b]);
    NodeTwoIsItsOwn(b);
    OneBlock(b, "node1");
    OneBlock(b, "node2");
    OneBlock(b, "node3");
    if PrefixRanges(SHIPPED_REGIONS, inv).Some? {
      var out := PrefixRanges(SHIPPED_REGIONS, inv).value;
      forall i | 0 <= i < 3 ensures out[i] == NodePart(SHIPPED_REGIONS[i].node, nodes) + (if i == 1 then [cidr] else []) {
        assert RegionRanges(SHIPPED_REGIONS[i].node, nodes, [b]).Some?;
        assert SHIPPED_REGIONS[i].node == if i == 0 then "node1" else if i == 1 then "node2" else "node3";
      }
      assert NodePart("node1", nodes) + [] == NodePart("node1", nodes) && NodePart("node3", nodes) + [] == NodePart("node3", nodes);
      assert |out| == 3 && out[0] == NodePart("node1", nodes) && out[1] == NodePart("node2", nodes) + [cidr] && out[2] == NodePart("node3", nodes);
    }
  }

  /** The part of a node that occurs once is its first address. */
  lemma NodePartIs(node: string, nodes: seq<Node>)
    requires UniqueNames(nodes)
    ensures forall k | 0 <= k < |nodes| && nodes[k].name == node && nodes[k].addresses != [] ::
      NodePart(node, nodes) == [CidrRange(nodes[k].addresses[0], 32)]
    ensures (forall k | 0 <= k < |nodes| :: nodes[k].name != node) ==> NodePart(node, nodes) == []
  {
    NamedOnce(nodes, node);
    forall k | 0 <= k < |nodes| && nodes[k].name == node && nodes[k].addresses != []
      ensures NodePart(node, nodes) == [CidrRange(nodes[k].addresses[0], 32)]
    {
      assert HostRanges(nodes[k].addresses[..1]) == [CidrRange(nodes[k].addresses[0], 32)];
    }
  }

  lemma PlainByChar(s: string)
    requires forall k | 0 <= k < |s| :: s[k] != ':' && s[k] != '/' && s[k] != '_' && s[k] != '*'
    ensures Plain(s)
  {
  }

  /** The theorems for valid regions apply to the shipped ones. */
  lemma ShippedRegionsAreValid()
    ensures ValidRegions(SHIPPED_REGIONS) && |SHIPPED_REGIONS| == 3
  {
    PlainByChar("region1");
    PlainByChar("region2");
    PlainByChar("region3");
    DifferAt("region1", "region2", 6);
    DifferAt("region1", "region3", 6);
    DifferAt("region2", "region3", 6);
    DifferAt("node1", "node2", 4);
    DifferAt("node1", "node3", 4);
    DifferAt("node2", "node3", 4);
  }

  lemma DifferAt(a: string, b: string, k: nat)
    requires k < |a| && k < |b| && a[k] != b[k]
    ensures a != b
  {
  }

  lemma OneBlock(b: Block, node: string)
    requires b.cidr.Some?
    ensures BlockRanges([b], node) == Some(if Affine(b, node) then [b.cidr.value] else [])
  {
    var blocks := [b];
    var none := blocks[..|blocks| - 1];
    assert none == [] && BlockRanges(none, node) == Some([]);
    assert [] + [b.cidr.value] == [b.cidr.value];
  }

  /** The match is by substring: with the shipped regions, a block of node10 is also given to node1's region. */
  lemma NodeNamesMatchBySubstring()
    ensures
      var block := CidrRange("10.244.10.0", 26);
      var inv := Inventory([Node("node1", ["10.0.0.1"]), Node("node10", ["10.0.0.10"])], [Block(Some(OwnAffinity("node10")), Some(block))]);
      PrefixRanges(SHIPPED_REGIONS, inv).Some? && PrefixRanges(SHIPPED_REGIONS, inv).value[0] == [CidrRange("10.0.0.1", 32), block]
  {
    var block := CidrRange("10.244.10.0", 26);
    var nodes, blocks := [Node("node1", ["10.0.0.1"]), Node("node10", ["10.0.0.10"])], [Block(Some(OwnAffinity("node10")), Some(block))];
    assert OccursAt(OwnAffinity("node10"), "node1", 5);
    RegionRangesAre("node1", nodes, blocks, 0);
    OneBlock(blocks[0], "node1");
    forall i | 0 <= i < |SHIPPED_REGIONS| ensures RegionRanges(SHIPPED_REGIONS[i].node, nodes, blocks).Some? {
      if i > 0 {
        MissingNodeGivesBlocks(SHIPPED_REGIONS[i].node, nodes, blocks);
      }
    }
    assert !Unreadable(SHIPPED_REGIONS, Inventory(nodes, blocks));
  }
}
