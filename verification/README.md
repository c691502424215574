# A verified model of the regional Kourier control plane

This project models, in Dafny, the control plane that turns Knative Ingress objects into Envoy
configuration per region, and proves what that configuration means and keeps over every run.

The pieces, bottom up:

- `Text`, `Kube`, `Envoy`: strings, the objects the control plane reads, and the Envoy configuration it
  writes together with Envoy's way of answering a request from it (best domain, first matching route).
- `EndpointBuckets`, `Translator`, `TranslatorLoops`, `TranslationFacts`, `Emissions`: the compiler. `Translator`
  says what a translation is, `TranslatorLoops` runs the nested loops against it, and `Emissions` says what is
  emitted in terms of the ingress and the objects read alone. Go panics are outcomes, not preconditions.
- `Routing`: a request semantics for Ingress specifications that mentions no Envoy notion, and the proof
  that the aggregated virtual hosts mean the same, in whatever order the installed map is ranged over.
- `ClusterCaching`, `Caching`: the expiring cluster cache and the `Caches` object, as classes.
- `Protocol`: the running system as a state machine. A run is any sequence of labels: begin an operation,
  let the lock holder take one step, advance the clock, evict a key. `setExpiration` is three steps (read,
  stamp, store), so ticks and evictions also fall inside an update. A translation depends on the objects it
  read and not on the cache, so it is joined to the moment its lock is taken, with arbitrary objects.
- `Registry`, `StoreInvariants`, `Guarantees`, `RunTheorems`, `Fading`, `Pushes`, `SplitSettings`,
  `UniqueDomains`, `Uninterrupted`: invariants of every step and the theorems about whole runs;
  uninterrupted steps are the class methods.
- `SniDedup`: in-place collapsing of shared heap objects. `Reconciling`, `Probing`, `SourcePrefixes`: the
  reconciler's steps, probe targets, and the per-region source prefixes of a listener.

Regions are a parameter: a non-empty list with distinct, plain names and distinct node labels
(`Kube.ValidRegions`). Admitted ingresses have names and hosts without `:`, `/`, `_` and `*`
(`Kube.Admitted`, host labels as in section 2.1 of RFC 1123). Ext-authz mode is off, and a rule
has an HTTP block: `InsertProbe` refuses any other before translation
(vendor/knative.dev/networking/pkg/ingress/ingress.go:52-54), which is `probed == None` in `Reconciling`.
Nothing else is assumed about inputs: missing objects, refused references and panics are outcomes.

Check everything with `dafny verify dfyconfig.toml`.

## Where the code differs from its intent

Each of these is a theorem about the code as it is, with the exact condition where there is one.

- The plain external route configurations are built from the TLS hosts, and with any TLS host the snapshot
  panics on slices that were never allocated. So every produced snapshot serves nothing externally
  (`ExternalConfigsAreEmpty`), and probes of ExternalIP rules reach no virtual host (`ProbesReachIff`).
  `SnapshotPanicsIff` lists the panics of a snapshot, including those of the listeners' prefix loops.
- A redirect exists in region 0 only. Elsewhere the rule's host has no routes (`SnapshotMeansSpecs` states
  exactly when the answer differs).
- The endpoints filter compares IPs only, so an IP that moves to another node is missed (`MoveIsMissed`;
  exactly when an ignored update is harmless, panics on a missing node name included: `SkipIsSoundIff`).
- SNI hosts of a deleted ingress can stay on a surviving match of the same secret (`FoldSurvivors` states
  exactly when). This is a fact about pkg/generator/sni.go: with pkg/generator/caches.go as it is, the first
  fold that sees a match ends in the panic above, so a second fold never comes.
- A rejected update removes the old version from the cache but pushes nothing
  (`RejectedIsRemoved`, `Reconciler.UpdateIngress`).
- Address blocks are matched to nodes by substring (`EmittedRangesOwnIff` states exactly when every region
  gets its own blocks; `NodeNamesMatchBySubstring` shows a block going astray).
- Nothing makes the chains of a listener different: a region without node and blocks matches every client,
  and Envoy refuses a listener with two such regions (`SnapshotChainsIff`, `LonelyNodeIsAmbiguous`).
- Splits of one service with different ports share a cluster name, inside one ingress
  (`SplitsServedAsAskedIff`) and across ingresses and expiring entries (`NameServedAsAskedIff`).
- One ingress may repeat a host in two rules, or use the readiness domain, and two ingresses may share a host
  up to case: nothing rejects it, and Envoy refuses the configuration. `SnapshotMeansSpecs` speaks of
  configurations Envoy accepts, which `SnapshotDomainsDistinctIff` characterises.
- Snapshots are pushed outside the lock, so a stale one can come last (`SafeIffInOrder`).
- Cleaning the index from region 0 alone is right only because the translator gives every region the same
  domains (`UnevenRegionsLeakDomains`, `TranslationIsUniform`).

## Model

| member | source | states |
|---|---|---|
| `Guarantees.ListedAfterDrop` | pkg/generator/cluster_cache.go:17-35 | Every cluster of an ingress that is installed, with nobody working on it, at any moment is listed in every snapshot taken within 15 seconds after that moment, however old the configuration Envoy still has and whatever happens to the ingress in between: the grace period counts from the drop. |
| `Guarantees.MakeBeforeBreak` | pkg/generator/cluster_cache.go:17-35 | Hence for any two snapshots of a run at most 15 seconds apart, every cluster a route of the first forwards to (except the bootstrap `service_stats`) is listed in the second, through all updates, rejections, deletions, clock ticks and evictions in between, also those in the middle of an update. |
| `Guarantees.ReferentialIntegrity` | pkg/generator/caches.go:137-194 | Every cluster named by any route of any emitted route configuration of any snapshot is listed in that snapshot or is `service_stats`. |
| `RunTheorems.SnapshotIsAtomic` | pkg/generator/caches.go:87-94 | However lock holders, clock and janitor interleave, every snapshot's internal configurations are those of the ingress map after a whole number of completed operations, where each update was accepted or refused by the specification's own rule (a host shared with another ingress). |
| `RunTheorems.UpdatedIngressNeverMissing` | pkg/generator/caches.go:137-168 | An ingress shown by one snapshot and neither deleted nor refused before a later one is shown by the later one. |
| `RunTheorems.SnapshotMeansSpecs` | pkg/generator/caches.go:153-168 | In every snapshot of every run, each region's internal configuration answers a request (virtual host, first matching route, ordered services with weights, rewrite, headers) as the installed ingress asks; the answer differs if and only if a redirect is asked for outside region 0 and some path matches, and then it is "no route". |
| `RunTheorems.SnapshotServesNothingElse` | pkg/generator/status_vhost.go:33-65 | In every snapshot, an authority no installed ingress serves gets the /ready route of `internalkourier`, under that domain only, or nothing. |
| `RunTheorems.RoutedEndpointsAreLocal` | pkg/generator/ingress_translator.go:251-287 | Whatever listed cluster answers to a name that region i's internal routes forward to, all its endpoints were ready addresses on region i's node when some translation read them; holds for expiring clusters and for clusters another ingress lists under the same name. |
| `SplitSettings.SplitsServedAsAskedIff` | pkg/generator/ingress_translator.go:152-260 | In every snapshot, the clusters listed under an installed ingress's keys have, for every split and region, the endpoints, port, protocol and TLS the split asks for, if and only if no two of its splits of one service ask for different ones. |
| `SplitSettings.NameServedAsAskedIff` | pkg/generator/ingress_translator.go:152-260 | In every snapshot, a service's cluster in a region is a given one, whichever listed cluster of that name Envoy keeps, if and only if the last split of the service in every installed ingress asks for it and every entry of the name still waiting to expire equals it. |
| `SplitSettings.WorkPermanents` | pkg/generator/ingress_translator.go:254-256 | Of an ingress's splits of one service, the last decides the cluster kept under the ingress's key in every region. |
| `SplitSettings.UnambiguousIff` | pkg/generator/ingress_translator.go:254-256 | A translation has no two different clusters of one name if and only if no two splits of one service differ, in some region, in protocol, TLS or (where an address is ready) port. |
| `SplitSettings.AllKeptIff` | pkg/generator/cluster_cache.go:67-70 | Setting clusters in order keeps each of them if and only if no two of the same name differ. |
| `UniqueDomains.SnapshotDomainsDistinctIff` | pkg/generator/caches.go:153-168 | In every snapshot and region, the internal configuration repeats no domain up to case, as Envoy demands, if and only if every installed ingress names each of its hosts once, none is the readiness domain, and no two ingresses share a host, all up to case. |
| `UniqueDomains.ConfigDomainsDistinctIff` | pkg/generator/ingress_translator.go:524-530 | For any admitted ingresses and gathering order, the same if and only if. |
| `EndpointBuckets.FlattenStep` | pkg/generator/ingress_translator.go:479-480 | Ready addresses are taken subset by subset, in order. |
| `Pushes.PushesMakeBeforeBreak` | pkg/reconciler/ingress/ingress.go:160-169 | When workers push in the order they took their snapshots, every cluster a pushed snapshot forwards to is listed in every later push taken within 15 seconds. |
| `Pushes.PushesListAfterDrop` | pkg/reconciler/ingress/ingress.go:160-169 | However old the previous push is: a push taken within 15 seconds after a moment at which an ingress was installed lists the ingress's clusters. |
| `Pushes.PushesNeverGoBack` | pkg/reconciler/ingress/ingress.go:160-169 | Pushed in that order, a later push shows every operation an earlier one showed. |
| `Pushes.SafeIffInOrder` | pkg/reconciler/ingress/ingress.go:160-169 | For any ingress without TLS that forwards to a cluster and any order of pushes: no run pushing in that order loses the cluster between two pushes taken within 15 seconds, if and only if the order is the order of taking. |
| `Pushes.InversionBreaks` | pkg/reconciler/ingress/ingress.go:160-169 | For any order of pushes with an inversion there is a run, in which no time passes, that pushes in it and leaves a forwarded cluster unlisted. |
| `Pushes.PushedWereTaken` | pkg/reconciler/ingress/ingress.go:163-168 | Only snapshots that were taken are pushed. |
| `RunTheorems.IndexAlwaysAgrees` | pkg/generator/caches.go:96-124 | At every moment of every run `domainsInUse` is exactly the union of the installed ingresses' internal domains over all regions, and no two ingresses share a domain. |
| `RunTheorems.PermanentIffInstalled` | pkg/generator/caches.go:107-124 | Whenever the lock is free, a cache key has no deadline if and only if it is the key of a cluster of an installed ingress. |
| `RunTheorems.CacheIsItsHistory` | pkg/generator/cluster_cache.go:67-86 | At every moment, what a reader sees of a key is decided by the key's last event: the cluster last set, or the cluster last dropped until 15 seconds after the drop; evictions never show. |
| `Fading.DroppedClusterFades` | pkg/generator/cluster_cache.go:72-77 | A key that is not permanent while the lock is free, and whose owner starts no operation afterwards, cannot be read more than 15 seconds later, whatever the other ingresses do. |
| `Fading.AbsentIngressFades` | pkg/generator/caches.go:196-206 | Fifteen seconds after a moment at which an ingress is not installed, and with no operation on it since, none of its clusters is listed. |
| `Fading.FadedIsUnlisted` | pkg/generator/cluster_cache.go:79-86 | Nor is it listed by any snapshot taken more than 15 seconds after such a moment. |
| `Fading.FadesOnwards` | pkg/generator/cluster_cache.go:72-77 | No step on behalf of other ingresses extends a key's deadline. |
| `RunTheorems.DeletingAbsentIsHarmless` | pkg/generator/caches.go:208-230 | Deleting an ingress that is not installed changes nothing in the cache, so it extends no deadline. |
| `RunTheorems.NilTranslationChangesNothing` | pkg/generator/generator.go:40-48 | Beginning an update whose translation ends in nothing or in an error leaves the whole system as it was. |
| `RunTheorems.SnapshotListsReadable` | pkg/generator/cluster_cache.go:79-86 | A snapshot lists exactly the cache entries without a deadline or whose deadline has not passed, with their clusters. |
| `RunTheorems.StepsTouchOwnKeys` | pkg/generator/cluster_cache.go:88-92 | A step that changes a cache entry works for the ingress spelled out in the entry's key. |
| `RunTheorems.EvictionEnqueuesOwner` | pkg/generator/caches.go:127-135 | Evicting an expired entry removes exactly it and enqueues exactly the ingress the evicted cluster belongs to. |
| `RunTheorems.SnapshotPanicsIff` | pkg/generator/caches.go:240-382 | Taking a snapshot panics if and only if the single certificate is configured, some installed ingress has a TLS block, there are more regions than configuration names, or one of the three listeners reads a region node with too few addresses or an affine block with an invalid CIDR. |
| `RunTheorems.ExternalConfigsAreEmpty` | pkg/generator/caches.go:258-265 | Every snapshot that is produced has empty external route configurations, because these are built from the TLS hosts. |
| `RunTheorems.ExternalHostsAreVisible` | pkg/generator/ingress_translator.go:326-334 | In every reachable state, every virtual host gathered for the external and probe listeners belongs to an ExternalIP rule of an installed ingress. |
| `Guarantees.EveryRunKeepsInv` | pkg/generator/caches.go:62-70 | Every reachable state, also mid-operation, satisfies the joint invariant: provenance, index, agreement with the atomic history, keyed and local store, store as function of its history, permanence. |
| `Guarantees.WhenTaken` | pkg/generator/caches.go:137-139 | Every snapshot was assembled from one state of the run in which its taker held the lock. |
| `Guarantees.SnapshotRefs` | pkg/generator/ingress_translator.go:251-293 | A name an assembled snapshot refers to is the bootstrap cluster or a cluster of an installed ingress. |
| `Guarantees.GuardedOnwards` | pkg/generator/cluster_cache.go:72-77 | A key readable at time t stays readable until t plus 15 seconds along every continuation of the run. |
| `Guarantees.InstalledIsPermanent` | pkg/generator/caches.go:119-121 | While nobody is working on an installed ingress, so at every lock release, each of its clusters is in the store under its own key, without a deadline. |
| `Registry.ConflictIsContest` | pkg/generator/caches.go:96-105 | Midway through an update, the domain index reports a conflict if and only if another ingress installed by the history shares a host with the new one. |
| `Registry.NextRegistered` | pkg/generator/caches.go:208-230 | Every step keeps provenance (each installed translation is its own ingress's translation), the index and what the lock holder relies on. |
| `Registry.NextCommitted` | pkg/generator/caches.go:87-94 | Every step keeps the installed map equal to the atomic outcome of the completed operations, one removal behind while an update is between delete and add. |
| `StoreInvariants.NextStocked` | pkg/generator/cluster_cache.go:67-77 | Every step keeps each stored cluster under a key spelling its name and owner, with endpoints local to the region in its name. |
| `StoreInvariants.NextChronicled` | pkg/generator/cluster_cache.go:67-77 | Every step keeps each store entry determined by the last event of its key, an absent one only after its grace period. |
| `StoreInvariants.NextRetained` | pkg/generator/caches.go:107-124 | Every step keeps all clusters of idle installed ingresses permanent, and those already set of an ingress being added. |
| `StoreInvariants.NextEarned` | pkg/generator/caches.go:214-218 | Every step keeps it true that only clusters of installed ingresses are permanent, those of an ingress being removed only until their turn. |
| `Uninterrupted.UninterruptedIsObject` | pkg/generator/caches.go:87-94 | Run without interruption, the fine-grained steps of an update or deletion give exactly the state the `Caches` methods give. |
| `Caching.Caches.constructor` | pkg/generator/caches.go:72-85 | A new cache is empty, but for the authorisation cluster, stored for good in ext-authz mode. |
| `Caching.Caches.DeleteTranslatedIngress` | pkg/generator/caches.go:208-230 | New state: the ingress is gone, region 0's domains left the index, each readable cluster of it expires 15 seconds from now; nothing changes for an unknown ingress. |
| `Caching.Caches.ValidateIngress` | pkg/generator/caches.go:96-105 | Reports a conflict if and only if some domain of some region is in use. |
| `Caching.Caches.InsertDomains` | pkg/generator/caches.go:111-115 | The index gains exactly the translation's domains over all regions. |
| `Caching.Caches.AddTranslatedIngress` | pkg/generator/caches.go:107-124 | A conflicting translation changes nothing; any other is installed with its domains and permanent clusters, the last cluster of a name winning. |
| `Caching.Caches.UpdateIngress` | pkg/generator/caches.go:87-94 | New state is removal followed by addition; the reported conflict is exactly rejection after removal. |
| `Caching.Caches.DeleteIngressInfo` | pkg/generator/caches.go:200-206 | New state is the removal of the ingress. |
| `Caching.Caches.CollectHosts` | pkg/generator/caches.go:153-163 | Every region's internal, plain and TLS host lists are the installed hosts concatenated in the order the map was ranged over; SNI matches are found if and only if some ingress has one. |
| `Caching.Caches.ToEnvoySnapshot` | pkg/generator/caches.go:137-194 | Panics exactly in the cases `SnapshotPanicsIff` characterises; otherwise the snapshot is the assembly of the current state in some enumeration of the installed map, with exactly the readable clusters and each listener's own prefix ranges. |
| `Caching.Caches.BuildListeners` | pkg/generator/caches.go:267-291 | Three listeners, each with the ranges its own reading of nodes and blocks gives; a panic if and only if one reading is bad or a configuration has no name. |
| `Caching.RemoveKeepsIndex` | pkg/generator/caches.go:219-228 | Cleaning region 0's domains alone keeps the index exact, given region-uniform domains and disjoint ingresses. |
| `Caching.UpdateKeepsIndex` | pkg/generator/caches.go:87-94 | An update, accepted or rejected, keeps the index exact and the ingresses disjoint. |
| `Caching.ConflictHasHolder` | pkg/generator/caches.go:96-105 | A domain is reported taken if and only if an installed ingress holds it. |
| `Caching.ConflictIsExact` | pkg/generator/caches.go:87-105 | An update is rejected if and only if a different installed ingress holds one of its domains. |
| `Caching.RejectedIsRemoved` | pkg/generator/caches.go:87-94 | A rejected update leaves exactly the state a deletion at that instant leaves; an accepted one installs the new version; other ingresses are untouched either way. |
| `Caching.AcceptedAfterHoldersLeave` | pkg/reconciler/ingress/controller.go:111-118 | Once no other installed ingress holds a contested domain, the update is accepted. |
| `Caching.UnevenRegionsLeakDomains` | pkg/generator/caches.go:219-226 | Without region-uniform domains the region-0 cleanup would leak: a concrete translation whose region-1 domain survives its deletion. |
| `ClusterCaching.KeyRoundTrip` | pkg/generator/cluster_cache.go:88-97 | For colon-free parts, `explodeKey` returns the parts `key` joined. |
| `ClusterCaching.KeyInjective` | pkg/generator/cluster_cache.go:88-92 | Two colon-free (cluster, ingress) pairs share a key if and only if they are equal. |
| `ClusterCaching.KeyCollision` | pkg/generator/cluster_cache.go:90-92 | Two different pairs with a colon in a part share a key. |
| `ClusterCaching.SweepIsInvisible` | vendor/github.com/patrickmn/go-cache/cache.go:931-948 | No reader, now or later, can tell whether the janitor has run. |
| `ClusterCaching.ClustersCache.Set` | pkg/generator/cluster_cache.go:67-70 | The cluster is stored under its key without a deadline, whatever was there. |
| `ClusterCaching.ClustersCache.SetExpiration` | pkg/generator/cluster_cache.go:72-77 | A readable entry keeps its cluster and expires 15 seconds from now; an absent or expired one is not revived. |
| `ClusterCaching.ClustersCache.List` | pkg/generator/cluster_cache.go:79-86 | Each readable entry exactly once, and no expired one. |
| `ClusterCaching.ClustersCache.DeleteExpired` | pkg/generator/caches.go:127-135 | Removes exactly the expired entries and reports the owner of each removed key. |
| `TranslatorLoops.TranslateIngress` | pkg/generator/ingress_translator.go:84-350 | The loops end as the translation function says: certificates, clusters and hosts per region, or the first problem met (skipped, failed, panic). |
| `TranslatorLoops.TranslateCertificates` | pkg/generator/ingress_translator.go:88-117 | One SNI match per TLS block in order, or an error at a missing or invalid secret. |
| `TranslatorLoops.TranslateRules` | pkg/generator/ingress_translator.go:132-336 | Clusters of all rules in order, and internal, external and TLS hosts per region. |
| `TranslatorLoops.TranslateRule` | pkg/generator/ingress_translator.go:297-320 | The rule's virtual host in every region and its TLS host when there is a TLS route. |
| `TranslatorLoops.AppendHosts` | pkg/generator/ingress_translator.go:326-334 | Internal lists gain the rule's host in every region; external lists only for ExternalIP rules, TLS lists only with a TLS host. |
| `TranslatorLoops.TranslatePaths` | pkg/generator/ingress_translator.go:139-295 | Routes of all paths per region, and TLS routes, or the first problem. |
| `TranslatorLoops.AppendRoutes` | pkg/generator/ingress_translator.go:268-287 | A redirect is appended in region 0 only; any other route in every region with that region's weights. |
| `TranslatorLoops.AppendTLSRoute` | pkg/generator/ingress_translator.go:290-293 | With TLS, one route towards region 0's clusters; otherwise none. |
| `TranslatorLoops.TranslateSplits` | pkg/generator/ingress_translator.go:151-261 | Clusters grow split by split, weights per region in split order, until the first problem. |
| `TranslatorLoops.TranslateSplit` | pkg/generator/ingress_translator.go:157-260 | How one split ends, in lookup order, and one cluster per region on success. |
| `TranslatorLoops.MatchPorts` | pkg/generator/ingress_translator.go:170-189 | The port loop leaves the ports `LastMatchingPortWins` characterises. |
| `TranslatorLoops.MatchHeadersFromHTTPPath` | pkg/generator/ingress_translator.go:492-512 | One matcher per header, exact for a non-empty value and presence otherwise, whatever the map order. |
| `TranslatorLoops.DomainsForRule` | pkg/generator/ingress_translator.go:524-530 | The domains `DomainsOfHosts` characterises, in host order. |
| `TranslatorLoops.ProblemSticks` | pkg/generator/ingress_translator.go:162-168 | The first problem decides the outcome, whatever splits follow. |
| `Emissions.ClusterIsAsked` | pkg/generator/ingress_translator.go:170-260 | Every emitted cluster is what some split should have in some region, over the service's ports and subsets alone: its name, the ready addresses on the region's node in order, the target port of the last matching service port (80 without one), HTTP/2 if and only if a port is named http2 or h2c and the annotation is off, and TLS if and only if it is due, with that CA and the service's namespace. |
| `Emissions.AskedClusterExists` | pkg/generator/ingress_translator.go:251-260 | Every split of every path has that cluster in every region. |
| `Emissions.InternalHostIsAsked` | pkg/generator/ingress_translator.go:133-334 | Every region's host of every rule: its name, its domains in order, and per path entry one route with the entry's path as prefix ("/" for an empty one), its headers, and either the redirect (region 0 only, no routes elsewhere) or the services in order with weights, rewrite and added headers. |
| `Emissions.ExternalHostsAreInternal` | pkg/generator/ingress_translator.go:326-334 | The plain external hosts are exactly the internal hosts of the ExternalIP rules, in rule order. |
| `Emissions.TLSHostIsAsked` | pkg/generator/ingress_translator.go:290-318 | Every TLS host is an ExternalIP rule's of an ingress with TLS, with one route per path entry towards region 0. |
| `Emissions.TLSHostExists` | pkg/generator/ingress_translator.go:328-333 | With TLS, every ExternalIP rule with paths has its TLS host. |
| `Emissions.CertificatesAre` | pkg/generator/ingress_translator.go:93-116 | Every SNI match has its block's hosts and secret, and the certificate and the key of that secret. |
| `Emissions.SplitOutcomeIff` | pkg/generator/ingress_translator.go:157-250 | A split ends in the nil translation, an error or a panic in exactly the listed cases of missing, broken or ExternalName services, endpoints, node names, ready addresses and CA. |
| `Emissions.TranslateOutcome` | pkg/generator/ingress_translator.go:88-220 | A translation without result is an error if some certificate is bad, and otherwise ends as its first unusable split, in the order of rules, paths and splits, does. |
| `Emissions.BucketingMeans` | pkg/generator/ingress_translator.go:463-490 | Over the subsets alone: nothing when all are empty, a panic when an address lacks its node name, otherwise for each region the addresses ready on its node with the target port. |
| `Emissions.ReadyIPsMean` | pkg/reconciler/ingress/controller.go:329-346 | The compared set holds exactly the IPs of all subsets' addresses. |
| `TranslationFacts.TranslatesIff` | pkg/generator/ingress_translator.go:157-260 | An ingress is translated if and only if every certificate is valid and every split has a non-ExternalName service, an endpoints object with a ready address and node names throughout, and a CA where TLS is due. |
| `TranslationFacts.LastMatchingPortWins` | pkg/generator/ingress_translator.go:170-189 | The target port is that of the last port matching by number or name, 80 without one; HTTP/2 if and only if some port is named http2 or h2c; HTTPS if and only if the asked number is a port named https. |
| `TranslationFacts.WorkClusters` | pkg/generator/ingress_translator.go:251-260 | A cluster is emitted if and only if it is the cluster of some translated split in some region. |
| `TranslationFacts.WeightsAreCovered` | pkg/generator/ingress_translator.go:254-257 | Every cluster a path's weights name, in any region, is among the translation's clusters. |
| `TranslationFacts.ClustersAreLocal` | pkg/generator/ingress_translator.go:254-254 | Every emitted cluster carries a region's suffix and only addresses ready on that region's node. |
| `TranslationFacts.TranslationIsUniform` | pkg/generator/ingress_translator.go:314-327 | All regions of a translation list the same domains, namely the ingress's hosts bare and with `:*`. |
| `TranslationFacts.OverlapIsSharedHost` | pkg/generator/caches.go:96-105 | Two translations overlap in domains if and only if their ingresses share a host. |
| `TranslationFacts.SNIsPerTLS` | pkg/generator/ingress_translator.go:88-117 | A translation has as many SNI matches as the ingress has TLS blocks. |
| `TranslationFacts.ExternalTLSHostsAreExternal` | pkg/generator/ingress_translator.go:328-333 | Every external TLS host is the TLS host of an ExternalIP rule. |
| `Routing.ConfigMeansSpecs` | pkg/generator/caches.go:258-264 | For any consistent set of ingresses and any gathering order, the region's configuration answers a served request as the ingress asks, except exactly for a redirect outside region 0. |
| `Routing.ConfigServesNothingElse` | pkg/generator/caches.go:165-168 | A request no ingress serves gets the readiness host's answer, spelled out, or no host. |
| `Routing.RuleLabelIsUnique` | pkg/generator/ingress_translator.go:133-133 | No two rules, of one ingress or of two, are named alike. |
| `Routing.RuleHostAnswer` | pkg/generator/ingress_translator.go:263-287 | One rule's virtual host answers as the rule's first matching path asks, with the services and weights read back from the cluster names. |
| `Routing.BestIsFirst` | pkg/generator/ingress_translator.go:514-530 | When all matching hosts rank alike, Envoy's best match is the first match, so gathering order decides nothing. |
| `Routing.RuleRank` | pkg/generator/ingress_translator.go:524-530 | Envoy ranks a rule's domains above zero if and only if one of its hosts is the authority's host, and then by the authority alone. |
| `Routing.AuthorityHasOneHost` | pkg/generator/ingress_translator.go:514-530 | Every authority `host[:port]` matches at most one plain host. |
| `Routing.AuthorityHasOneIngress` | pkg/generator/caches.go:96-115 | Every authority is served by at most one installed ingress, counting `host:*` as a prefix wildcard. |
| `Routing.DomainsOfHosts` | pkg/generator/ingress_translator.go:524-530 | A domain is emitted for a host list if and only if it is one of the hosts, bare or with `:*`. |
| `Routing.DomainsOverlapIffHostsDo` | pkg/generator/ingress_translator.go:514-530 | Two plain host lists share an emitted domain if and only if they share a host. |
| `Routing.ClusterNameRoundTrip` | pkg/generator/ingress_translator.go:154-154 | A region-suffixed cluster name determines its service and its region. |
| `Routing.FirstRule` | pkg/generator/ingress_translator.go:132-132 | The first rule with a host the authority names, or none. |
| `Routing.FirstPath` | pkg/generator/ingress_translator.go:139-144 | The first path entry whose prefix and headers match the request, or none. |
| `EndpointBuckets.LbEndpointsForKubeEndpoints` | pkg/generator/ingress_translator.go:463-490 | Nothing for no ready address, a panic for a missing node name, otherwise the buckets the lemmas below characterise. |
| `EndpointBuckets.CollectBucket` | pkg/generator/ingress_translator.go:479-485 | One region's pass collects that region's bucket, or panics if and only if some node name is missing. |
| `EndpointBuckets.CountReady` | pkg/generator/ingress_translator.go:466-469 | The number of ready addresses over all subsets. |
| `EndpointBuckets.BucketSelectsInOrder` | pkg/generator/ingress_translator.go:476-488 | A bucket is an order-preserving selection: exactly the positions on the node, ascending, each once, with its IP and the target port. |
| `EndpointBuckets.BucketsPartition` | pkg/generator/ingress_translator.go:476-488 | The multiset union of all buckets is exactly the ready addresses on labelled nodes. |
| `EndpointBuckets.BucketsDisjoint` | pkg/generator/ingress_translator.go:476-488 | No address occurrence lands in two buckets. |
| `EndpointBuckets.BucketMembers` | pkg/generator/ingress_translator.go:480-483 | An endpoint is in a bucket if and only if it has the port and its IP is ready on the node. |
| `EndpointBuckets.ReadyAddresses` | pkg/reconciler/ingress/controller.go:329-346 | The set of all ready IPs. |
| `EndpointBuckets.SkippedUpdateIsHarmless` | pkg/reconciler/ingress/controller.go:275-286 | When an IP never changes node, an ignored update would have come to the same in every region for every port: the same endpoint sets, or the same failure. |
| `EndpointBuckets.SkipIsSoundIff` | pkg/reconciler/ingress/controller.go:275-286 | An ignored update (equal ready IPs) would have come to the same for every target port, panics included, if and only if both or neither version lack a node name and, where neither does, the same IPs are ready on every labelled node. |
| `EndpointBuckets.MoveIsMissed` | pkg/reconciler/ingress/controller.go:281-283 | An IP that leaves a labelled node for another, or loses its node name, leaves the ready set unchanged, so its update is ignored although the outcome differs. |
| `EndpointBuckets.SkippedMoveIsLost` | pkg/region/main.go:3-21 | With the shipped regions there is an ignored update that changes the outcome. |
| `SniDedup.SniMatches.Consume` | pkg/generator/sni.go:39-56 | First match of a source becomes its entry; a later one appends its missing hosts to that first object in place, none when all are present; lookup sets stay equal to host lists and lists free of repetitions. |
| `SniDedup.ConsumeAll` | pkg/generator/caches.go:151-163 | Folding any matches, in any order and with any sharing, gives one entry per source: its first match, which then has the union of that source's hosts; no other match changes. |
| `SniDedup.FoldSurvivors` | pkg/generator/sni.go:39-56 | After a fold, folding any survivors lists exactly the survivors' own hosts for a source if and only if the source's first match is gone or the others had no further hosts; otherwise it lists all hosts of the first fold. |
| `SniDedup.FoldAgain` | pkg/generator/sni.go:50-55 | Folding the mutated objects again, in any other order, gives every source the same hosts and leaves the lists of the first fold's first matches as they were. |
| `SniDedup.List` | pkg/generator/sni.go:59-69 | One match per certificate source. |
| `SniDedup.MergeIsUnion` | pkg/generator/sni.go:50-55 | The host list after merging holds exactly both lists' hosts and extends the first. |
| `SniDedup.MergeAppendsMissing` | pkg/generator/sni.go:50-55 | Behind the kept hosts comes every missing host, once, in the order of first occurrence. |
| `SniDedup.MergeStaysDistinct` | pkg/generator/sni.go:50-55 | A host list without repetitions stays one. |
| `SniDedup.MergeOfPresent` | pkg/generator/sni.go:50-55 | Consuming hosts that are all present changes nothing. |
| `SniDedup.DeletedHostsLinger` | pkg/generator/sni.go:50-55 | Of two matches of one source, the surviving first one lists the deleted one's host, so it lists only its own if and only if the hosts agree. |
| `Reconciling.Reconciler.UpdateInfoForIngress` | pkg/generator/generator.go:33-50 | Unless the translation of the probed ingress is completed the cache is as before: a nil translation succeeds, an error or a missing probe header fails, a panic panics. A completed one updates the cache, with a conflict if and only if another installed ingress holds one of its domains. |
| `Reconciling.Reconciler.UpdateEnvoyConfig` | pkg/reconciler/ingress/ingress.go:160-169 | Pushes an assembly of the current state; it panics if and only if the snapshot does, fails if and only if the xDS server refuses, and pushes nothing then. |
| `Reconciling.Reconciler.UpdateIngress` | pkg/reconciler/ingress/ingress.go:147-158 | Pushes only after an update without error; a rejected update leaves the pushed snapshot as it was. |
| `Reconciling.Reconciler.ReconcileKind` | pkg/reconciler/ingress/ingress.go:60-94 | A conflict is no error, marks the ingress conflicting and pushes nothing; other errors fail it; readiness is marked exactly by the probe's answer after a push. |
| `Reconciling.Reconciler.ObserveDeletion` | pkg/reconciler/ingress/ingress.go:124-140 | The ingress is removed; then, unless the push panics or is refused, the new state is pushed and every known ingress that may be in conflict is enqueued. |
| `Reconciling.Reconciler.ResyncConflicts` | pkg/reconciler/ingress/controller.go:111-118 | Enqueues exactly the known ingresses whose load balancer reason is empty or the conflict, once each. |
| `Reconciling.AcceptedIffHoldersDeleted` | pkg/reconciler/ingress/ingress.go:124-140 | After any deletions, a resynced ingress is accepted if and only if every other holder of its domains was deleted. |
| `Reconciling.RemoveAllEffect` | pkg/generator/caches.go:200-206 | Deleting any list of ingresses removes exactly those and keeps the index exact. |
| `Reconciling.PushMeans` | pkg/reconciler/ingress/ingress.go:160-169 | A push lists exactly the clusters without a deadline or with one not yet passed, and per region exactly the internal hosts of the installed ingresses with the readiness host last. |
| `Reconciling.PushShowsInstalled` | pkg/reconciler/ingress/ingress.go:160-169 | A push shows every internal host of every installed ingress in every region. |
| `Probing.ProbesReachIff` | pkg/reconciler/ingress/lister.go:63-96 | Against any produced snapshot, a probe target's port has a listener, and a probed host is a domain behind it, in every region, if and only if its rule is cluster-local. |
| `Probing.ListProbeTargets` | pkg/reconciler/ingress/lister.go:45-61 | An error if and only if the gateway endpoints cannot be read or none is ready, otherwise one target per rule towards exactly the ready IPs. |
| `Probing.GetIngressUrls` | pkg/reconciler/ingress/lister.go:63-96 | One target per rule, the one `TargetSays` spells out. |
| `Probing.TargetSays` | pkg/reconciler/ingress/lister.go:66-93 | A rule's target has the pods, port 8081 for a cluster-local rule and 8090, or 9443 with TLS, for an external one, and one http (https with TLS) root URL per host in order. |
| `Probing.DomainsToURL` | pkg/reconciler/ingress/lister.go:98-109 | One root URL per domain in order. |
| `Probing.SnapshotHasNoTLS` | pkg/generator/caches.go:311-382 | The ingresses behind a produced snapshot have no TLS blocks. |
| `Probing.SnapshotListeners` | pkg/generator/caches.go:267-291 | A produced snapshot has exactly the external, internal and probe listeners; chain i of each pairs the ranges its own reading gives region i, which are well defined, with region i's configuration of its family. |
| `Probing.SnapshotChainsIff` | pkg/envoy/api/listener.go:205-210 | With unique node names, the chains of a produced listener have pairwise different matches, as Envoy demands (no range in two of them, at most one without ranges), if and only if in its reading no range is claimed by two regions' nodes or blocks and at most one region has neither. |
| `SourcePrefixes.UnambiguousIff` | pkg/envoy/api/listener.go:148-183 | The same if and only if for any regions and any reading of the cluster. |
| `SourcePrefixes.EmittedIffBelongs` | pkg/envoy/api/listener.go:155-180 | A range is emitted for a region if and only if it is its node's first address, or the CIDR of a block whose affinity reads a + label + b for some a and b. |
| `SourcePrefixes.AffineIff` | pkg/envoy/api/listener.go:169-169 | The code's substring test holds if and only if the affinity reads a + label + b for some a and b. |
| `SourcePrefixes.BlockOfNodeTwo` | pkg/envoy/api/listener.go:148-183 | With the shipped regions and any nodes, a block of host:node2 is emitted for the second region and for no other. |
| `SourcePrefixes.ShippedRegionsAreValid` | pkg/region/main.go:3-21 | The three shipped regions meet what the theorems ask of regions. |
| `SourcePrefixes.RegionClaims` | pkg/envoy/api/listener.go:155-180 | A region emits exactly what it claims, and nothing if and only if it has neither node nor affine block. |
| `SourcePrefixes.LonelyNodeIsAmbiguous` | pkg/envoy/api/listener.go:148-183 | With the shipped regions and one node, two chains are left without ranges. |
| `SourcePrefixes.SourcePrefixRanges` | pkg/envoy/api/listener.go:148-183 | Every region's ranges, or a panic if and only if a counted node lacks an address or an affine block's CIDR is invalid. |
| `SourcePrefixes.NodeRanges` | pkg/envoy/api/listener.go:155-167 | One /32 per node of the name, taken from the last such node's addresses, whatever an earlier region left behind. |
| `SourcePrefixes.AppendBlocks` | pkg/envoy/api/listener.go:168-180 | Ranges of the affine blocks, or a panic at an invalid CIDR. |
| `SourcePrefixes.NamedOnce` | pkg/envoy/api/listener.go:156-161 | With unique node names, a region's node is counted once, with its own addresses, or not at all. |
| `SourcePrefixes.RegionRangesAre` | pkg/envoy/api/listener.go:155-180 | With unique node names, a present region node contributes exactly its first address, before the blocks; the code panics if and only if it has none or an affine block is invalid. |
| `SourcePrefixes.MissingNodeGivesBlocks` | pkg/envoy/api/listener.go:155-180 | A region whose node is absent gets its blocks only. |
| `SourcePrefixes.BlocksInOrder` | pkg/envoy/api/listener.go:168-180 | A region's block ranges are exactly its affine blocks, each once, in list order. |
| `SourcePrefixes.UnreadableIff` | pkg/envoy/api/listener.go:155-180 | The prefix loop panics if and only if some region's node occurs more often than it has addresses, or a block affine to it has an invalid CIDR. |
| `SourcePrefixes.BlockStaysHomeIff` | pkg/envoy/api/listener.go:169-169 | A block of one node is taken by exactly the regions labelled with that node if and only if no other region's label occurs in its affinity. |
| `SourcePrefixes.OwnBlocksOnlyIff` | pkg/envoy/api/listener.go:168-180 | A region takes at least its own node's blocks, and nothing else if and only if every affinity containing its label is its node's own. |
| `SourcePrefixes.EmittedRangesOwnIff` | pkg/envoy/api/listener.go:148-183 | The emitted ranges of all regions are the node's address followed by its own blocks if and only if no region's label occurs in another node's affinity. |
| `SourcePrefixes.NodeNamesMatchBySubstring` | pkg/envoy/api/listener.go:169-180 | With the shipped regions, a valid block of node10 is emitted in the ranges of node1's region. |

## Left out

- TranslatorLoops.TranslateIngress: ext-authz mode is off, so its virtual hosts and the nil hosts it leaves beside region 0 are not modelled; certificate parsing is one flag of the secret.
- TranslatorLoops.TranslateRule: does not model the ext-authz branch (pkg/generator/ingress_translator.go:304-312).
- TranslatorLoops.TranslatePaths: does not model the route that ext-authz mode adds for ACME challenges (pkg/generator/ingress_translator.go:265-267).
- Caching.Caches.CollectHosts: keeps SNI matches as values and does not deduplicate them; that loop, on shared objects, is `SniDedup`.
- Caching.Caches.ToEnvoySnapshot: does not model the internal TLS listener of a configured cluster certificate (pkg/generator/caches.go:293-309), the tracing cluster, or failing API calls inside the listeners.
- Reconciling.Reconciler.ReconcileKind: takes as one flag whether the ingress is ready and shows the expected load balancer; the status fields behind it are not modelled.
- SplitSettings.SplitsServedAsAskedIff: speaks of the ingress's own entries; what Envoy keeps of equally named clusters is `NameServedAsAskedIff`.
- HTTPS listeners (pkg/generator/caches.go:311-382) appear only as the panic they end in.
- ExternalName services appear only as the panic they end in, so the external port is not kept.
- Header matchers and added headers are maps: the slice order that Go's map iteration gives them is not captured.
- Route configuration names: the model indexes configurations by region, and keeps of the name tables their length.
- What `InsertProbe` adds to an ingress before translation: the model starts from its result.
- `Caches` methods take one instant for a whole operation; time passing inside an operation is in `Protocol`.
- `ObserveKind`: the same update without a status.
- Envoy's lower-casing of authorities: request semantics compare hosts and authorities as they are, which is what Envoy does for lower-case ones. Suffix wildcards and the bare `*` domain: no admitted host produces them.
- Kubernetes and Calico API calls, informers, tracker, status prober, xDS server, config maps, certificate parsing and the unknown-cluster error handler: I/O and library plumbing that would add no hard property.
