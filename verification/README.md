# Thanos ruler and querier, metrics-server kubelet source and pod enricher, in Dafny

This project models the sequential logic of four Go files:

- The Thanos ruler, `cmd/thanos/rule.go`:
  - the list of query peers it asks, and the choice of the peer to ask;
  - the counter of duplicate query addresses;
  - `--label` parsing;
  - the Alertmanager address set and its `update`;
  - the conversion of rule alerts into notifications;
  - the decoding of scalar query results;
  - the collection of rule files from glob patterns.
- The Thanos querier, `cmd/thanos/query.go`:
  - the duplicate `--store` check;
  - the store-spec list built from gossip and DNS and deduplicated by address;
  - the metadata lookup of a gossip store.
- The metrics-server kubelet source, `metrics/sources/kubelet/kubelet.go`:
  - how a cAdvisor container record becomes a metric set keyed by node, pod, pod container or system container;
  - the choice of the newest custom-metric value;
  - building the scrape result map;
  - the choice of a node's host name and IP.
- The metrics-server pod-based enricher, `metrics/processors/pod_based_enricher.go`:
  - it adds pod UID, pod labels and the four request/limit gauges to pod and pod-container metric sets;
  - it creates stub sets for pods and containers the batch lacks.

Modules, one per file:

| file | module | what |
|---|---|---|
| wrappers.dfy | Wrappers | `Option`, `Result` |
| collections.dfy | Collections | `ToSet`, `NoDuplicates`, `RepeatCount` (how many positions repeat an earlier value), `SetToSeq` (Go map iteration: every key once, in an order the model leaves open) |
| text.dfy | Text | `IndexOf`, `SplitFirst` (`strings.SplitN(s, sep, 2)`), UTF-8 byte lengths, byte offsets and byte slices of strings, the `strings.Compare` order and a sort by it |
| cluster.dfy | Cluster | gossip peer state and metadata |
| flags.dfy | Flags | the duplicate address flag check |
| rule.dfy | Rule | the ruler |
| query.dfy | Query | the querier |
| core.dfy | Core | metrics-server metric sets, their label names and key formats, the `DataBatch` class |
| kubelet.dfy | Kubelet | the kubelet source |
| enricher.dfy | Enricher | the pod-based enricher |

Collaborators the source calls but does not define are function-valued parameters:

- `url.Parse`, `net.SplitHostPort`, the DNS resolver, `strconv.Unquote`;
- JSON decoding, `filepath.Glob`, `queryPrometheusInstant`, `rand.Perm` (a permutation passed in);
- the gossip peer states (a map), the DNS provider's addresses (a sequence);
- `isNode`, the `StandardMetrics` and `LabeledMetrics` tables, `net.ParseIP(..).To4()`;
- the pod lister, `util.LabelsToString`.

Times are integers; Go's zero `time.Time` is 0.

## Model

In the prose below, the bare file names stand for these paths:

- `rule.go` and `query.go` are under `WorkShop_2.10_Monitor/prometheus-operator/vendor/github.com/improbable-eng/thanos/cmd/thanos/`.
- `kubelet.go` is under `WorkShop_1.7_Resource_Management/metrics-server/metrics/sources/kubelet/`.
- `pod_based_enricher.go` is under `WorkShop_1.7_Resource_Management/metrics-server/metrics/processors/`.

| member | source | states |
|---|---|---|
| Flags.FindDuplicateFlag | WorkShop_2.10_Monitor/prometheus-operator/vendor/github.com/improbable-eng/thanos/cmd/thanos/rule.go:124-129 | the lookup loop finds a value iff some value repeats, and the one it finds is the first value that repeats an earlier one |
| Rule.CheckQueryFlags | WorkShop_2.10_Monitor/prometheus-operator/vendor/github.com/improbable-eng/thanos/cmd/thanos/rule.go:123-130 | start-up refuses `--query` values exactly when an address repeats, naming the first repeated address and the flag |
| Query.CheckStoreFlags | WorkShop_2.10_Monitor/prometheus-operator/vendor/github.com/improbable-eng/thanos/cmd/thanos/query.go:96-103 | start-up refuses `--store` values exactly when an address repeats, naming the first repeated address and the flag |
| Rule.RemoveDuplicateQueryAddrs | WorkShop_2.10_Monitor/prometheus-operator/vendor/github.com/improbable-eng/thanos/cmd/thanos/rule.go:821-836 | every input address exactly once (same set, no duplicates); the counter is bumped once per occurrence after the first, i.e. input length minus output length |
| Rule.ParseFlagLabels | WorkShop_2.10_Monitor/prometheus-operator/vendor/github.com/improbable-eng/thanos/cmd/thanos/rule.go:795-809 | succeeds iff every entry parses; then one label per entry in input order; otherwise the error of the first bad entry |
| Rule.EntryWithoutEqualsRefused | WorkShop_2.10_Monitor/prometheus-operator/vendor/github.com/improbable-eng/thanos/cmd/thanos/rule.go:798-801 | an entry without `=` is an "unrecognized label" error |
| Rule.EntryNameBeforeFirstEquals | WorkShop_2.10_Monitor/prometheus-operator/vendor/github.com/improbable-eng/thanos/cmd/thanos/rule.go:798-806 | the name is the text before the first `=`; the unquoted rest is the value, or the unquote error |
| Rule.SplitQType | WorkShop_2.10_Monitor/prometheus-operator/vendor/github.com/improbable-eng/thanos/cmd/thanos/rule.go:751-753 | an address splits at its first `+` into a lookup type (with no `+`) and a name; with no `+` there is no lookup type and the name is the whole address |
| Rule.LiteralAddressNotResolved | WorkShop_2.10_Monitor/prometheus-operator/vendor/github.com/improbable-eng/thanos/cmd/thanos/rule.go:774-776 | an address without `+` is not resolved: it yields exactly the parsed URL, or the parse error |
| Rule.LookupUsesDefaultPort | WorkShop_2.10_Monitor/prometheus-operator/vendor/github.com/improbable-eng/thanos/cmd/thanos/rule.go:740-773 | for `dns+` a host without a port is resolved with `:9093` appended; other lookup types resolve the host unchanged; the result is one URL per resolved host, or the resolve error |
| Rule.WithHostsAt | WorkShop_2.10_Monitor/prometheus-operator/vendor/github.com/improbable-eng/thanos/cmd/thanos/rule.go:778-785 | one URL per resolved host, in order, with the host replaced and scheme, path and user kept |
| Rule.ResolveAllAllOrNothing | WorkShop_2.10_Monitor/prometheus-operator/vendor/github.com/improbable-eng/thanos/cmd/thanos/rule.go:755-773 | an update succeeds iff every address resolves; otherwise it fails with the first failing address's error |
| Rule.ResolveAllInOrder | WorkShop_2.10_Monitor/prometheus-operator/vendor/github.com/improbable-eng/thanos/cmd/thanos/rule.go:743-786 | the URLs of a concatenation of address lists are the concatenation of their URLs: input order is kept |
| Rule.ResolvedUrlsKeepSchemePathUser | WorkShop_2.10_Monitor/prometheus-operator/vendor/github.com/improbable-eng/thanos/cmd/thanos/rule.go:778-785 | every URL of a successful update has the scheme, path and user of a configured address |
| Rule.AlertmanagerSet.Get | WorkShop_2.10_Monitor/prometheus-operator/vendor/github.com/improbable-eng/thanos/cmd/thanos/rule.go:734-738 | returns the current URLs |
| Rule.AlertmanagerSet.Update | WorkShop_2.10_Monitor/prometheus-operator/vendor/github.com/improbable-eng/thanos/cmd/thanos/rule.go:742-793 | on the first parse or resolve error it returns that error with `current` unchanged; otherwise `current` becomes all URLs in address order |
| Rule.ResolveAddress | WorkShop_2.10_Monitor/prometheus-operator/vendor/github.com/improbable-eng/thanos/cmd/thanos/rule.go:745-785 | the loop body of `update` for one address computes that address's URLs or error |
| Rule.Notify | WorkShop_2.10_Monitor/prometheus-operator/vendor/github.com/improbable-eng/thanos/cmd/thanos/rule.go:293-314 | one notification per non-pending alert, in order: same labels and annotations, start = fired-at, end set iff resolved-at is non-zero, generator URL = query URL + expression link |
| Rule.SendableIsNonPending | WorkShop_2.10_Monitor/prometheus-operator/vendor/github.com/improbable-eng/thanos/cmd/thanos/rule.go:295-299 | no pending alert is sent, and every non-pending one is |
| Rule.SendableInOrder | WorkShop_2.10_Monitor/prometheus-operator/vendor/github.com/improbable-eng/thanos/cmd/thanos/rule.go:295-310 | filtering commutes with concatenation, so the rule manager's order is kept |
| Rule.ConvertScalarJSONToVector | WorkShop_2.10_Monitor/prometheus-operator/vendor/github.com/improbable-eng/thanos/cmd/thanos/rule.go:611-635 | not an array, or not exactly two elements, is an error; succeeds iff time and value decode; then a single sample with no labels, the time of element 0 and the value of element 1 |
| Rule.GossipQueryAddrsAt | WorkShop_2.10_Monitor/prometheus-operator/vendor/github.com/improbable-eng/thanos/cmd/thanos/rule.go:264-266 | the gossip part of the list has one query address per peer id, in id order |
| Rule.QueryPeerAddrs | WorkShop_2.10_Monitor/prometheus-operator/vendor/github.com/improbable-eng/thanos/cmd/thanos/rule.go:253-269 | peer ids strictly ascending under `strings.Compare` and exactly the gossip peers; the list is their query addresses in that order, then the DNS addresses in given order |
| Rule.CollectQueryAddrs | WorkShop_2.10_Monitor/prometheus-operator/vendor/github.com/improbable-eng/thanos/cmd/thanos/rule.go:264-266 | the loop over the sorted ids yields one query address per peer id, in id order |
| Rule.QueryFn | WorkShop_2.10_Monitor/prometheus-operator/vendor/github.com/improbable-eng/thanos/cmd/thanos/rule.go:252-281 | as written: the list is assembled as above, but deduplication only moves the counter; at most one peer, the first of the permutation, is contacted, and its answer or error is returned as is; no peer gives "no query peer reachable" |
| Rule.QueryFnGivesUpAfterFirstPeer | WorkShop_2.10_Monitor/prometheus-operator/vendor/github.com/improbable-eng/thanos/cmd/thanos/rule.go:273-279 | with a peer that is down first and one that answers second, the query fails, although trying in order would succeed |
| Rule.QueriedAddrsKeepDuplicates | WorkShop_2.10_Monitor/prometheus-operator/vendor/github.com/improbable-eng/thanos/cmd/thanos/rule.go:269-271 | an address known both from gossip and from DNS stays twice in the list that is queried |
| Rule.DedupedQueryPeerAddrs | WorkShop_2.10_Monitor/prometheus-operator/vendor/github.com/improbable-eng/thanos/cmd/thanos/rule.go:253-271 | corrected: the queried list has no duplicates and holds exactly the gossip query addresses and the DNS addresses |
| Rule.AssembledAddrsSet | WorkShop_2.10_Monitor/prometheus-operator/vendor/github.com/improbable-eng/thanos/cmd/thanos/rule.go:255-269 | whatever the id order, the assembled list holds exactly the gossip query addresses and the DNS addresses |
| Rule.FirstSuccessFindsAnyAnswer | WorkShop_2.10_Monitor/prometheus-operator/vendor/github.com/improbable-eng/thanos/cmd/thanos/rule.go:250-251 | trying peers in order until one answers succeeds iff some peer answers; otherwise "no query peer reachable" |
| Rule.PermutationCovers | WorkShop_2.10_Monitor/prometheus-operator/vendor/github.com/improbable-eng/thanos/cmd/thanos/rule.go:273 | `rand.Perm(n)` visits every index below n |
| Rule.SomePeerAnswers | WorkShop_2.10_Monitor/prometheus-operator/vendor/github.com/improbable-eng/thanos/cmd/thanos/rule.go:273-279 | along a `rand.Perm` order some peer answers iff some address of the list answers |
| Rule.ContactedDistinct | WorkShop_2.10_Monitor/prometheus-operator/vendor/github.com/improbable-eng/thanos/cmd/thanos/rule.go:273-279 | following a permutation never contacts the same address twice when the list has no duplicates |
| Rule.QueryPeersInOrder | WorkShop_2.10_Monitor/prometheus-operator/vendor/github.com/improbable-eng/thanos/cmd/thanos/rule.go:250-280 | corrected: peers are contacted in permutation order until one answers; succeeds iff some peer answers; on failure every peer was tried; no peer is contacted twice when the list is duplicate-free |
| Rule.CollectRuleFiles | WorkShop_2.10_Monitor/prometheus-operator/vendor/github.com/improbable-eng/thanos/cmd/thanos/rule.go:443-451 | the matches of every pattern in order, skipping bad patterns |
| Rule.RuleFilesFromValidPatterns | WorkShop_2.10_Monitor/prometheus-operator/vendor/github.com/improbable-eng/thanos/cmd/thanos/rule.go:443-451 | a file is loaded iff some pattern that globs without error matches it |
| Query.RemoveDuplicateStoreSpecs | WorkShop_2.10_Monitor/prometheus-operator/vendor/github.com/improbable-eng/thanos/cmd/thanos/query.go:431-446 | one spec per distinct address (same address set, none repeated); each kept spec is the last one given for its address; the counter is bumped once per repeat, i.e. input length minus output length |
| Query.IndexByAddr | WorkShop_2.10_Monitor/prometheus-operator/vendor/github.com/improbable-eng/thanos/cmd/thanos/query.go:432-440 | the map from address holds exactly the given addresses, each with the last spec given for it; the counter is bumped once per address already in the map |
| Query.LastWithAddrIsLast | WorkShop_2.10_Monitor/prometheus-operator/vendor/github.com/improbable-eng/thanos/cmd/thanos/query.go:434-439 | the spec kept for an address is one with no later spec of the same address |
| Query.LastWithAddrInSuffix | WorkShop_2.10_Monitor/prometheus-operator/vendor/github.com/improbable-eng/thanos/cmd/thanos/query.go:434-439 | specs appended later win over earlier ones with the same address |
| Query.AssembleStoreSpecs | WorkShop_2.10_Monitor/prometheus-operator/vendor/github.com/improbable-eng/thanos/cmd/thanos/query.go:268-287 | no address twice; the addresses are exactly the non-empty gossip store addresses and the DNS addresses; gossip specs come from peers with non-empty addresses; every DNS address is served by its gRPC spec, since DNS specs come last and win; the duplicate counter is the number of specs assembled (one per peer with an address, one per DNS address) minus the number kept |
| Query.Metadata | WorkShop_2.10_Monitor/prometheus-operator/vendor/github.com/improbable-eng/thanos/cmd/thanos/query.go:460-466 | the peer's current labels and time range, or "no longer in gossip cluster" iff the peer is unknown |
| Query.MetadataIgnoresAddress | WorkShop_2.10_Monitor/prometheus-operator/vendor/github.com/improbable-eng/thanos/cmd/thanos/query.go:448-466 | metadata depends on the peer id only, not on the address the spec was built with |
| Kubelet.SystemContainerName | WorkShop_1.7_Resource_Management/metrics-server/metrics/sources/kubelet/kubelet.go:93-96 | exactly one leading `/` is removed; other names are kept |
| Kubelet.DecodeMetrics | WorkShop_1.7_Resource_Management/metrics-server/metrics/sources/kubelet/kubelet.go:119-226 | decoding one container (loops over standard, labeled and custom metrics) yields the specified key and metric set, nothing for no stats, or the panic of the cgroup-name slice, whose positions are UTF-8 byte offsets |
| Kubelet.ClassifyContainer | WorkShop_1.7_Resource_Management/metrics-server/metrics/sources/kubelet/kubelet.go:137-172 | the key and labels of the node, of a system container or of a Kubernetes container; the cgroup-name fallback finds the first `.` by byte offset, panics when it lies before byte 4, and otherwise takes the bytes from 4 up to it |
| Kubelet.CollectStandard | WorkShop_1.7_Resource_Management/metrics-server/metrics/sources/kubelet/kubelet.go:174-178 | the standard metrics the container has, a later table entry overwriting an earlier one of the same name |
| Kubelet.CollectLabeled | WorkShop_1.7_Resource_Management/metrics-server/metrics/sources/kubelet/kubelet.go:180-185 | the labeled metrics of all table entries the container has, in table order |
| Kubelet.AddCustomMetrics | WorkShop_1.7_Resource_Management/metrics-server/metrics/sources/kubelet/kubelet.go:187-223 | the standard values plus, under `custom/<name>`, each custom metric with values and a known kind and format |
| Kubelet.Newest | WorkShop_1.7_Resource_Management/metrics-server/metrics/sources/kubelet/kubelet.go:191-196 | the loop settles on the specified newest value |
| Kubelet.NewestIsFirstLatest | WorkShop_1.7_Resource_Management/metrics-server/metrics/sources/kubelet/kubelet.go:191-196 | the newest value has the latest timestamp and is the first value with it |
| Kubelet.CustomValue | WorkShop_1.7_Resource_Management/metrics-server/metrics/sources/kubelet/kubelet.go:190-220 | a custom metric is kept iff it has values and a known kind and format; then gauge/cumulative and int/float follow the spec, and the int or float of the newest value is taken |
| Kubelet.CustomValuesKeys | WorkShop_1.7_Resource_Management/metrics-server/metrics/sources/kubelet/kubelet.go:187-223 | custom metrics are stored under `custom/<name>`, only when kept; other keys are unchanged |
| Kubelet.CustomMetricsStored | WorkShop_1.7_Resource_Management/metrics-server/metrics/sources/kubelet/kubelet.go:174-223 | a decoded set holds the standard metrics plus, when custom metrics are declared, `custom/<name>` for each kept one; standard metrics with other names keep their values |
| Kubelet.NoStatsDecodesToNothing | WorkShop_1.7_Resource_Management/metrics-server/metrics/sources/kubelet/kubelet.go:120-122 | a container without samples decodes to nothing |
| Kubelet.DecodedKeepsSourceLabels | WorkShop_1.7_Resource_Management/metrics-server/metrics/sources/kubelet/kubelet.go:125-135 | every decoded set has the source's node name, host name and host id, and its creation and scrape times come from the container record |
| Kubelet.ClassifyKeepsSourceLabels | WorkShop_1.7_Resource_Management/metrics-server/metrics/sources/kubelet/kubelet.go:125-135 | classification keeps the node name, host name and host id of the source |
| Kubelet.SourceLabelsKept | WorkShop_1.7_Resource_Management/metrics-server/metrics/sources/kubelet/kubelet.go:125-135 | labels that keep the unclassified source labels carry the node name, host name and host id |
| Kubelet.ClassifyWritesOnly | WorkShop_1.7_Resource_Management/metrics-server/metrics/sources/kubelet/kubelet.go:91-117 | classification writes only type, container, image and pod labels over the source labels |
| Kubelet.NodeContainerKeyed | WorkShop_1.7_Resource_Management/metrics-server/metrics/sources/kubelet/kubelet.go:137-139 | the node container is keyed `node:<nodename>` and typed `node` |
| Kubelet.LegacyPodNameSplit | WorkShop_1.7_Resource_Management/metrics-server/metrics/sources/kubelet/kubelet.go:145-152 | with no namespace label, a pod name `<ns>/<pod>` is split at its first `/` |
| Kubelet.PodNameKeptOtherwise | WorkShop_1.7_Resource_Management/metrics-server/metrics/sources/kubelet/kubelet.go:141-146 | with a namespace label, or a pod name without `/`, namespace and pod name are the labels as given |
| Kubelet.CgroupContainerName | WorkShop_1.7_Resource_Management/metrics-server/metrics/sources/kubelet/kubelet.go:159-163 | the fallback fails (Go panics) exactly when the first `.` sits before byte 4, and yields nothing when the name has no `.` |
| Kubelet.ContainerNameFromCgroupName | WorkShop_1.7_Resource_Management/metrics-server/metrics/sources/kubelet/kubelet.go:153-164 | with no container label, `k8s_<name>.<rest>` gives the container name `<name>`, for any characters in `<name>` (the prefix is 4 bytes) |
| Kubelet.EarlyDotPanics | WorkShop_1.7_Resource_Management/metrics-server/metrics/sources/kubelet/kubelet.go:159-162 | with no container label, a first `.` before byte 4 makes decoding panic |
| Kubelet.MultiByteEarlyDot | WorkShop_1.7_Resource_Management/metrics-server/metrics/sources/kubelet/kubelet.go:159-168 | positions are bytes: `€a.b` has its `.` at byte 4, so the slice is empty and the container becomes the system container `node:<n>/container:€a.b` |
| Kubelet.MultiBytePrefix | WorkShop_1.7_Resource_Management/metrics-server/metrics/sources/kubelet/kubelet.go:159-163 | positions are bytes: `ü8s_x.y` gives the container name `_x`, the text after its first 4 bytes |
| Text.ByteIndexOfSplit | WorkShop_1.7_Resource_Management/metrics-server/metrics/sources/kubelet/kubelet.go:159 | `strings.Index` gives the byte length of the text before the first occurrence |
| Text.ByteSliceBetween | WorkShop_1.7_Resource_Management/metrics-server/metrics/sources/kubelet/kubelet.go:162 | slicing a string between two byte offsets that fall between characters gives exactly the characters in between |
| Kubelet.EarlyDotExample | WorkShop_1.7_Resource_Management/metrics-server/metrics/sources/kubelet/kubelet.go:159-162 | for example, the cgroup `/a.b` |
| Kubelet.SystemContainerKeyed | WorkShop_1.7_Resource_Management/metrics-server/metrics/sources/kubelet/kubelet.go:166-168 | missing container, namespace or pod name gives key `node:<nodename>/container:<name without leading />`, type `sys_container` and that container name |
| Kubelet.KubernetesContainerKeyed | WorkShop_1.7_Resource_Management/metrics-server/metrics/sources/kubelet/kubelet.go:102-117 | `POD` gives the pod key and type `pod`, without container labels; any other name gives the pod-container key, type `pod_container`, container name and image; pod id, pod name and namespace are always set |
| Kubelet.ScrapeMetrics | WorkShop_1.7_Resource_Management/metrics-server/metrics/sources/kubelet/kubelet.go:228-249 | a fresh batch stamped with the end time, holding the specified map, unless a decode panics |
| Kubelet.ScrapeFailsOnlyOnPanic | WorkShop_1.7_Resource_Management/metrics-server/metrics/sources/kubelet/kubelet.go:240-247 | the scrape fails exactly when decoding some container panics |
| Kubelet.ScrapeLastWins | WorkShop_1.7_Resource_Management/metrics-server/metrics/sources/kubelet/kubelet.go:240-247 | each key holds the metric set of the last container decoding to it |
| Kubelet.ScrapeKeysDecoded | WorkShop_1.7_Resource_Management/metrics-server/metrics/sources/kubelet/kubelet.go:240-247 | only non-empty keys of decoded containers appear; containers without samples add nothing |
| Kubelet.LastHostnameIsLast | WorkShop_1.7_Resource_Management/metrics-server/metrics/sources/kubelet/kubelet.go:300-304 | the host name is the last non-empty `Hostname` address, else the node name |
| Kubelet.LastInternalIPv4IsLast | WorkShop_1.7_Resource_Management/metrics-server/metrics/sources/kubelet/kubelet.go:305-309 | the IP is the last non-empty IPv4 `InternalIP` address, and is empty iff there is none |
| Kubelet.GetNodeHostnameAndIP | WorkShop_1.7_Resource_Management/metrics-server/metrics/sources/kubelet/kubelet.go:294-315 | a Ready condition that is not True gives "not ready"; otherwise (host name, IP) when an IP exists, else "no valid hostname and/or IP address" |
| Enricher.IntValue | WorkShop_1.7_Resource_Management/metrics-server/metrics/processors/pod_based_enricher.go:178-184 | an int64 gauge carrying exactly the given value |
| Enricher.UpdateContainerResourcesAndLimits | WorkShop_1.7_Resource_Management/metrics-server/metrics/processors/pod_based_enricher.go:152-176 | always sets all four of cpu/memory request/limit: cpu in millicores, memory in bytes, 0 when absent; other metrics and all other fields are unchanged |
| Enricher.ContainerStubIsStub | WorkShop_1.7_Resource_Management/metrics-server/metrics/processors/pod_based_enricher.go:130-145 | a container stub is typed `pod_container`, holds exactly the four request and limit gauges, and its namespace, pod and container labels name its key |
| Enricher.AddContainerStubsKeeps | WorkShop_1.7_Resource_Management/metrics-server/metrics/processors/pod_based_enricher.go:125-149 | stubs are only added: no key of `newMs` is removed or replaced |
| Enricher.AddContainerStubsCovers | WorkShop_1.7_Resource_Management/metrics-server/metrics/processors/pod_based_enricher.go:125-149 | afterwards every container of the pod has a set, in the batch or in `newMs` |
| Enricher.AddContainerStubsAdds | WorkShop_1.7_Resource_Management/metrics-server/metrics/processors/pod_based_enricher.go:126-146 | each new entry has a key absent from the batch, and is the stub of the first container with that key |
| Enricher.AddContainerStubsAreStubs | WorkShop_1.7_Resource_Management/metrics-server/metrics/processors/pod_based_enricher.go:126-146 | each new entry is outside the batch, is the stub of one of the given containers, and sits under the key its labels name |
| Enricher.AddContainerStubsFacts | WorkShop_1.7_Resource_Management/metrics-server/metrics/processors/pod_based_enricher.go:125-149 | the container stubs of a pod keep existing entries, stay outside the batch, are stubs under the keys their labels name, are keyed only by the pod's containers, and give every container of the pod a set |
| Enricher.AddPodInfo | WorkShop_1.7_Resource_Management/metrics-server/metrics/processors/pod_based_enricher.go:118-150 | the pod set gets pod UID and labels; `newMs` gets the specified container stubs |
| Enricher.FirstMatchingIsFirst | WorkShop_1.7_Resource_Management/metrics-server/metrics/processors/pod_based_enricher.go:79-87 | the container used is the first whose pod-container key is the entry's key; none iff no key matches |
| Enricher.AddContainerInfo | WorkShop_1.7_Resource_Management/metrics-server/metrics/processors/pod_based_enricher.go:78-116 | the container set is enriched as specified; a pod stub, enriched and with its container stubs, is added iff the pod key is in neither the batch nor `newMs` |
| Enricher.MatchContainer | WorkShop_1.7_Resource_Management/metrics-server/metrics/processors/pod_based_enricher.go:79-87 | the first container whose key is the entry's key gives its four gauges and, unless one is set, its image; with none the set is unchanged |
| Enricher.AddPodStub | WorkShop_1.7_Resource_Management/metrics-server/metrics/processors/pod_based_enricher.go:92-115 | a pod stub, enriched and with its container stubs, is added iff the pod key is in neither the batch nor `newMs` |
| Enricher.PodStubsFacts | WorkShop_1.7_Resource_Management/metrics-server/metrics/processors/pod_based_enricher.go:95-115 | afterwards the pod key is present; existing entries are kept; every new entry is a stub outside the batch under the key its labels name, and that key is the pod's or one of its containers' |
| Enricher.EnrichOne | WorkShop_1.7_Resource_Management/metrics-server/metrics/processors/pod_based_enricher.go:40-59 | one loop step of `Process` enriches the entry as specified, and `newMs` becomes exactly: the container stubs of a pod entry's pod, the pod stub and container stubs of a pod-container entry's pod, or unchanged |
| Enricher.EntryStubsFacts | WorkShop_1.7_Resource_Management/metrics-server/metrics/processors/pod_based_enricher.go:40-59 | one entry's stubs keep what was collected, stay outside the batch, are stubs under the keys their labels name, are keyed only by the entry's pod (for a container entry) or that pod's containers, and cover the entry's pod or containers |
| Enricher.Process | WorkShop_1.7_Resource_Management/metrics-server/metrics/processors/pod_based_enricher.go:37-65 | the timestamp is kept; no key is removed; every original entry becomes its specified enrichment; every new key holds a stub whose labels name that key, and is the pod of an original container entry or a container of the pod of an original entry; an enriched container's pod key and an enriched pod's container keys are all present |
| Enricher.EnrichEntries | WorkShop_1.7_Resource_Management/metrics-server/metrics/processors/pod_based_enricher.go:39-60 | the first loop enriches every entry as specified, keeps the keys and the timestamp, and collects stubs outside the batch, under the keys their labels name, for the pods of container entries and the containers of found pods only, covering each entry's pod or containers |
| Enricher.AddStubs | WorkShop_1.7_Resource_Management/metrics-server/metrics/processors/pod_based_enricher.go:61-63 | the second loop leaves the batch holding its entries together with every collected stub |
| Enricher.EnrichEntryLeavesOthers | WorkShop_1.7_Resource_Management/metrics-server/metrics/processors/pod_based_enricher.go:40-57 | entries not of type pod or pod_container, and entries whose pod lookup fails, are left unchanged |
| Enricher.EnrichPodEntry | WorkShop_1.7_Resource_Management/metrics-server/metrics/processors/pod_based_enricher.go:118-122 | a pod entry gains the pod UID and printed labels; its metrics and other labels are unchanged |
| Enricher.EnrichContainerEntry | WorkShop_1.7_Resource_Management/metrics-server/metrics/processors/pod_based_enricher.go:78-90 | a pod-container entry gains UID and labels; with a matching container it gains the four gauges of the first match, and the base image only if it had none |

## Left out

- Run-group wiring, context cancellation, channels, signal handling, HTTP and gRPC servers, TSDB, the shipper and the object store: their point is concurrency and I/O.
- The Alertmanager set's mutex: `update` replaces `current` in one assignment, which the model does too.
- `labelsTSDBToProm` (rule.go:811-819) copies name and value pairs between two label types the model does not distinguish.
- `gossipSpec.Addr` (query.go:455-457) is the `addr` field of `Query.StoreSpec`.
- Go's logging, Prometheus counters and the latency summary. The duplicate counters are returned as the number of increments.
- The order in which Go iterates maps is left open, so deduplicated lists are specified by their content and not their order.
- Floating point: sample values and custom float metrics are reals, without the float32 conversion at kubelet.go:214.
- `resource.Quantity` is reduced to the two readings the enricher takes, `Value()` and `MilliValue()`.
- The pod lister, DNS resolver, gossip peer, `isNode`, the metric tables and `util.LabelsToString` are parameters; their own code is not part of this model.
- Query peers: the querier's gossip peers are given already filtered to store-API peer types, and the ruler's to query peers.
- Go panics other than the one at kubelet.go:162 are not modelled, for example a write to a nil label map of a metric set.
- Enricher.Process: metric sets are values owned by their key, so aliasing between pointers of the batch and `newMs` is not modelled. The source never shares one set between two keys.
- Enricher.AddPodInfo: the key parameter, which the source does not use, is dropped.
- Kubelet.DecodeMetrics, Kubelet.ClassifyContainer, Kubelet.KubernetesIdentity: when byte 4 of a cgroup name falls inside a multi-byte character, Go's slice starts with stray continuation bytes, which a string of characters cannot hold; the model drops that partial character.
- Kubelet.ScrapeMetrics: a failed kubelet request is modelled as an empty container list, and the `keys` map it fills but never reads is left out.

## Findings

| source | as written | input that shows it | evidently intended | confidence | as-written member | corrected member |
|---|---|---|---|---|---|---|
| WorkShop_2.10_Monitor/prometheus-operator/vendor/github.com/improbable-eng/thanos/cmd/thanos/rule.go:273-279 | the loop over the permuted peers returns after the first one, with its error if it failed | peers `down:9090` (refuses) and `up:9090` (answers), permutation [0, 1]: the query fails | the comment at rule.go:250-251 says peers are tried in random order until one answers | not executed | Rule.QueryFnGivesUpAfterFirstPeer | Rule.QueryPeersInOrder |
| WorkShop_2.10_Monitor/prometheus-operator/vendor/github.com/improbable-eng/thanos/cmd/thanos/rule.go:271 | the deduplicated list is discarded; only the counter moves | gossip peer advertising `10.0.0.1:9090` and the same address from DNS: the list queried holds it twice | the deduplicated list is the one queried | not executed | Rule.QueriedAddrsKeepDuplicates | Rule.DedupedQueryPeerAddrs |
