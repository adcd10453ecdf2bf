/** The pod-based enricher of metrics-server (metrics/processors/pod_based_enricher.go):
    it adds the pod UID, the pod labels and the containers' resource requests and limits
    to the pod and pod-container metric sets of a batch, and creates stub metric sets
    for pods and containers the batch does not mention. */
module Enricher {
  import opened Wrappers
  import opened Collections
  import opened Core

  const ResourceCPU := "cpu"
  const ResourceMemory := "memory"

  /** A `resource.Quantity` through the two readings the enricher takes of it:
      `Value()` and `MilliValue()`. */
  datatype Quantity = Quantity(value: int, milliValue: int)

  datatype Container = Container(name: string, image: string, requests: map<string, Quantity>, limits: map<string, Quantity>)

  datatype Pod = Pod(namespace: string, name: string, uid: string, labels: map<string, string>, containers: seq<Container>)

  /** The pod lister (`None` for a lookup error or a nil pod, as `getPod` reports them)
      and `util.LabelsToString`. */
  datatype PodCache = PodCache(getPod: (string, string) -> Option<Pod>, labelsToString: map<string, string> -> string)

  // ---------------------------------------------------------------------------
  // Requests and limits
  // ---------------------------------------------------------------------------

  /** `intValue`: an int64 gauge carrying `value`. */
  function IntValue(value: int): (r: MetricValue)
    ensures r.intValue == value && r.metricType == MetricGauge && r.valueType == ValueInt64
  {
    MetricValue(value, 0.0, MetricGauge, ValueInt64)
  }

  /** The four metrics every enriched container set carries. */
  const ResourceMetrics: set<string> := {MetricCpuRequest, MetricMemoryRequest, MetricCpuLimit, MetricMemoryLimit}

  /** CPU of a resource list in millicores, 0 when not given. */
  function CpuMillis(resources: map<string, Quantity>): (r: int) {
    if ResourceCPU in resources then resources[ResourceCPU].milliValue else 0
  }

  /** Memory of a resource list in bytes, 0 when not given. */
  function MemoryBytes(resources: map<string, Quantity>): (r: int) {
    if ResourceMemory in resources then resources[ResourceMemory].value else 0
  }

  /** `updateContainerResourcesAndLimits`: write the four request and limit gauges. */
  function UpdateContainerResourcesAndLimits(ms: MetricSet, c: Container): (r: MetricSet)
    ensures r.metricValues.Keys == ms.metricValues.Keys + ResourceMetrics
    ensures r.metricValues[MetricCpuRequest] == IntValue(CpuMillis(c.requests))
    ensures r.metricValues[MetricMemoryRequest] == IntValue(MemoryBytes(c.requests))
    ensures r.metricValues[MetricCpuLimit] == IntValue(CpuMillis(c.limits))
    ensures r.metricValues[MetricMemoryLimit] == IntValue(MemoryBytes(c.limits))
    ensures forall n :: n in ms.metricValues && n !in ResourceMetrics ==> r.metricValues[n] == ms.metricValues[n]
    ensures r == ms.(metricValues := r.metricValues)
  {
    var requests, limits := c.requests, c.limits;
    var v1 := ms.metricValues[MetricCpuRequest :=
      if ResourceCPU in requests then IntValue(requests[ResourceCPU].milliValue) else IntValue(0)];
    var v2 := v1[MetricMemoryRequest :=
      if ResourceMemory in requests then IntValue(requests[ResourceMemory].value) else IntValue(0)];
    var v3 := v2[MetricCpuLimit :=
      if ResourceCPU in limits then IntValue(limits[ResourceCPU].milliValue) else IntValue(0)];
    var v4 := v3[MetricMemoryLimit :=
      if ResourceMemory in limits then IntValue(limits[ResourceMemory].value) else IntValue(0)];
    ms.(metricValues := v4)
  }

  // ---------------------------------------------------------------------------
  // Stubs
  // ---------------------------------------------------------------------------

  /** The pod UID and the printed pod labels written over `labels`. */
  function WithPodInfo(labels: map<string, string>, pod: Pod, cache: PodCache): (r: map<string, string>) {
    labels[LabelPodId := pod.uid][LabelLabels := cache.labelsToString(pod.labels)]
  }

  function ContainerKeyOf(pod: Pod, c: Container): (r: string) {
    PodContainerKey(pod.namespace, pod.name, c.name)
  }

  /** The metric set created for a container of `pod` the batch lacks; node labels are
      copied from the pod's metric set. */
  function ContainerStub(pod: Pod, c: Container, podLabels: map<string, string>, cache: PodCache): (r: MetricSet) {
    var labels := map[
      LabelMetricSetType := MetricSetTypePodContainer,
      LabelNamespaceName := pod.namespace,
      LabelPodName := pod.name,
      LabelContainerName := c.name,
      LabelContainerBaseImage := c.image,
      LabelPodId := pod.uid,
      LabelLabels := cache.labelsToString(pod.labels),
      LabelNodename := Lookup(podLabels, LabelNodename),
      LabelHostname := Lookup(podLabels, LabelHostname),
      LabelHostID := Lookup(podLabels, LabelHostID)];
    UpdateContainerResourcesAndLimits(MetricSet(0, 0, map[], labels, []), c)
  }

  /** The metric set created for a pod the batch lacks, before it is enriched; node
      labels are copied from the container's metric set. */
  function PodStub(namespace: string, podName: string, containerLabels: map<string, string>): (r: MetricSet) {
    var labels := map[
      LabelMetricSetType := MetricSetTypePod,
      LabelNamespaceName := namespace,
      LabelPodName := podName,
      LabelNodename := Lookup(containerLabels, LabelNodename),
      LabelHostname := Lookup(containerLabels, LabelHostname),
      LabelHostID := Lookup(containerLabels, LabelHostID)];
    MetricSet(0, 0, map[], labels, [])
  }

  /** What a stub looks like: a pod set with no values, or a pod-container set holding
      exactly the four request and limit gauges. */
  predicate IsStub(ms: MetricSet) {
    && ms.createTime == 0 && ms.scrapeTime == 0 && ms.labeledMetrics == []
    && ((Lookup(ms.labels, LabelMetricSetType) == MetricSetTypePod && ms.metricValues == map[])
        || (Lookup(ms.labels, LabelMetricSetType) == MetricSetTypePodContainer && ms.metricValues.Keys == ResourceMetrics))
  }

  /** The key a stub belongs under, read back from its labels: the pod key of a pod set,
      the pod-container key of a container set. */
  function StubKey(ms: MetricSet): (k: string) {
    var namespace := Lookup(ms.labels, LabelNamespaceName);
    var podName := Lookup(ms.labels, LabelPodName);
    if Lookup(ms.labels, LabelMetricSetType) == MetricSetTypePod then PodKey(namespace, podName)
    else PodContainerKey(namespace, podName, Lookup(ms.labels, LabelContainerName))
  }

  /** A stub stored under the key that its type, namespace, pod and container labels name. */
  predicate KeyedStub(k: string, ms: MetricSet) {
    IsStub(ms) && StubKey(ms) == k
  }

  /** `k` is the pod-container key of one of the containers `cs` of `pod`. */
  predicate IsContainerKey(pod: Pod, cs: seq<Container>, k: string) {
    exists c :: c in cs && ContainerKeyOf(pod, c) == k
  }

  /** The stub `addPodInfo` creates for a container of `pod` whose pod set has `podLabels`. */
  function StubMaker(pod: Pod, podLabels: map<string, string>, cache: PodCache): (r: Container -> MetricSet) {
    c => ContainerStub(pod, c, podLabels, cache)
  }

  /** `newMs` after the container loop of `addPodInfo` over `cs`, with `stub` making the
      metric set of a missing container. */
  function AddContainerStubs(pod: Pod, cs: seq<Container>, stub: Container -> MetricSet,
                             batchKeys: set<string>, newMs: map<string, MetricSet>): (r: map<string, MetricSet>)
  {
    if |cs| == 0 then newMs
    else
      var m := AddContainerStubs(pod, cs[..|cs| - 1], stub, batchKeys, newMs);
      var c := cs[|cs| - 1];
      var key := ContainerKeyOf(pod, c);
      if key in batchKeys || key in m then m else m[key := stub(c)]
  }

  /** A container stub is a stub of a pod container whose labels name its key. */
  lemma ContainerStubIsStub(pod: Pod, c: Container, podLabels: map<string, string>, cache: PodCache)
    ensures KeyedStub(ContainerKeyOf(pod, c), ContainerStub(pod, c, podLabels, cache))
    ensures Lookup(ContainerStub(pod, c, podLabels, cache).labels, LabelMetricSetType) == MetricSetTypePodContainer
  {
    var stub := ContainerStub(pod, c, podLabels, cache);
    assert LabelMetricSetType in stub.labels;
    assert Lookup(stub.labels, LabelNamespaceName) == pod.namespace;
    assert Lookup(stub.labels, LabelPodName) == pod.name;
    assert Lookup(stub.labels, LabelContainerName) == c.name;
  }

  /** Stubs are added and never replace an entry. */
  lemma {:induction false} AddContainerStubsKeeps(pod: Pod, cs: seq<Container>, stub: Container -> MetricSet,
                                                  batchKeys: set<string>, newMs: map<string, MetricSet>)
    ensures var r := AddContainerStubs(pod, cs, stub, batchKeys, newMs);
      newMs.Keys <= r.Keys && forall k :: k in newMs ==> r[k] == newMs[k]
  {
    if |cs| > 0 {
      AddContainerStubsKeeps(pod, cs[..|cs| - 1], stub, batchKeys, newMs);
    }
  }

  /** Afterwards every container of the pod has a metric set, in the batch or a stub. */
  lemma {:induction false} AddContainerStubsCovers(pod: Pod, cs: seq<Container>, stub: Container -> MetricSet,
                                                   batchKeys: set<string>, newMs: map<string, MetricSet>)
    ensures var r := AddContainerStubs(pod, cs, stub, batchKeys, newMs);
      forall i :: 0 <= i < |cs| ==> ContainerKeyOf(pod, cs[i]) in batchKeys || ContainerKeyOf(pod, cs[i]) in r
  {
    if |cs| > 0 {
      var p := cs[..|cs| - 1];
      AddContainerStubsCovers(pod, p, stub, batchKeys, newMs);
      var m := AddContainerStubs(pod, p, stub, batchKeys, newMs);
      var r := AddContainerStubs(pod, cs, stub, batchKeys, newMs);
      assert m.Keys <= r.Keys;
      forall i | 0 <= i < |cs| ensures ContainerKeyOf(pod, cs[i]) in batchKeys || ContainerKeyOf(pod, cs[i]) in r {
        if i < |p| {
          assert cs[i] == p[i];
        }
      }
    }
  }

  /** `cs[i]` is the first container of `cs` whose key is `k`. */
  predicate FirstWithKey(pod: Pod, cs: seq<Container>, i: int, k: string) {
    0 <= i < |cs| && ContainerKeyOf(pod, cs[i]) == k && forall j :: 0 <= j < i ==> ContainerKeyOf(pod, cs[j]) != k
  }

  lemma FirstWithKeyExtends(pod: Pod, cs: seq<Container>, n: nat, i: int, k: string)
    requires n <= |cs| && FirstWithKey(pod, cs[..n], i, k)
    ensures FirstWithKey(pod, cs, i, k) && cs[i] == cs[..n][i]
  {
    assert forall j :: 0 <= j <= i ==> cs[j] == cs[..n][j];
  }

  /** Each new entry is outside the batch and is the stub of the first container with
      its key. */
  lemma {:induction false} AddContainerStubsAdds(pod: Pod, cs: seq<Container>, stub: Container -> MetricSet,
                                                 batchKeys: set<string>, newMs: map<string, MetricSet>)
    ensures var r := AddContainerStubs(pod, cs, stub, batchKeys, newMs);
      forall k :: k in r && k !in newMs ==>
        k !in batchKeys && exists i :: FirstWithKey(pod, cs, i, k) && r[k] == stub(cs[i])
  {
    if |cs| > 0 {
      var n := |cs| - 1;
      var p := cs[..n];
      AddContainerStubsAdds(pod, p, stub, batchKeys, newMs);
      AddContainerStubsCovers(pod, p, stub, batchKeys, newMs);
      var m := AddContainerStubs(pod, p, stub, batchKeys, newMs);
      var r := AddContainerStubs(pod, cs, stub, batchKeys, newMs);
      forall k | k in r && k !in newMs
        ensures k !in batchKeys && exists i :: FirstWithKey(pod, cs, i, k) && r[k] == stub(cs[i])
      {
        if k in m {
          var i :| FirstWithKey(pod, p, i, k) && m[k] == stub(p[i]);
          FirstWithKeyExtends(pod, cs, n, i, k);
        } else {
          assert ContainerKeyOf(pod, cs[n]) == k;
          NewKeyIsFirst(pod, cs, p, k);
        }
      }
    }
  }

  /** The container loop of `addPodInfo` visiting one more container. */
  lemma AddContainerStubsSnoc(pod: Pod, cs: seq<Container>, c: Container, stub: Container -> MetricSet,
                              batchKeys: set<string>, newMs: map<string, MetricSet>)
    ensures var m := AddContainerStubs(pod, cs, stub, batchKeys, newMs);
      var key := ContainerKeyOf(pod, c);
      AddContainerStubs(pod, cs + [c], stub, batchKeys, newMs) ==
        if key in batchKeys || key in m then m else m[key := stub(c)]
  {
    assert (cs + [c])[..|cs|] == cs;
  }

  /** A key that no earlier container has makes the last container the first with it. */
  lemma NewKeyIsFirst(pod: Pod, cs: seq<Container>, p: seq<Container>, k: string)
    requires |cs| > 0 && p == cs[..|cs| - 1] && ContainerKeyOf(pod, cs[|cs| - 1]) == k
    requires forall j :: 0 <= j < |p| ==> ContainerKeyOf(pod, p[j]) != k
    ensures FirstWithKey(pod, cs, |cs| - 1, k)
  {
    forall j | 0 <= j < |p| ensures ContainerKeyOf(pod, cs[j]) != k {
      assert cs[j] == p[j];
    }
  }

  /** The entries added are stubs of containers of `cs`, under their own keys. */
  lemma AddContainerStubsAreStubs(pod: Pod, cs: seq<Container>, podLabels: map<string, string>,
                                  cache: PodCache, batchKeys: set<string>, newMs: map<string, MetricSet>)
    ensures var r := AddContainerStubs(pod, cs, StubMaker(pod, podLabels, cache), batchKeys, newMs);
      forall k :: k in r && k !in newMs ==> k !in batchKeys && KeyedStub(k, r[k]) && IsContainerKey(pod, cs, k)
  {
    var r := AddContainerStubs(pod, cs, StubMaker(pod, podLabels, cache), batchKeys, newMs);
    AddContainerStubsAdds(pod, cs, StubMaker(pod, podLabels, cache), batchKeys, newMs);
    forall k | k in r && k !in newMs
      ensures k !in batchKeys && KeyedStub(k, r[k]) && IsContainerKey(pod, cs, k)
    {
      var i :| FirstWithKey(pod, cs, i, k) && r[k] == StubMaker(pod, podLabels, cache)(cs[i]);
      ContainerStubIsStub(pod, cs[i], podLabels, cache);
      assert cs[i] in cs;
    }
  }

  // ---------------------------------------------------------------------------
  // addPodInfo
  // ---------------------------------------------------------------------------

  /** `addPodInfo` on the metric set of a pod: the set with pod UID and labels, and
      `newMs` with a stub for each container of the pod missing from both the batch
      (whose keys are `batchKeys`) and `newMs`. The unused key parameter is dropped. */
  method AddPodInfo(podMs: MetricSet, pod: Pod, batchKeys: set<string>, newMs: map<string, MetricSet>, cache: PodCache)
    returns (enriched: MetricSet, stubs: map<string, MetricSet>)
    ensures enriched == podMs.(labels := WithPodInfo(podMs.labels, pod, cache))
    ensures stubs == AddContainerStubs(pod, pod.containers, StubMaker(pod, enriched.labels, cache), batchKeys, newMs)
  {
    enriched := podMs.(labels := podMs.labels[LabelPodId := pod.uid]);
    enriched := enriched.(labels := enriched.labels[LabelLabels := cache.labelsToString(pod.labels)]);
    stubs := newMs;
    var cs := pod.containers;
    for i := 0 to |cs|
      invariant stubs == AddContainerStubs(pod, cs[..i], StubMaker(pod, enriched.labels, cache), batchKeys, newMs)
    {
      AddContainerStubsSnoc(pod, cs[..i], cs[i], StubMaker(pod, enriched.labels, cache), batchKeys, newMs);
      assert cs[..i + 1] == cs[..i] + [cs[i]];
      var container := cs[i];
      var containerKey := PodContainerKey(pod.namespace, pod.name, container.name);
      if containerKey !in batchKeys {
        if containerKey !in stubs {
          var containerMs := ContainerStub(pod, container, enriched.labels, cache);
          stubs := stubs[containerKey := containerMs];
        }
      }
    }
    assert cs[..|cs|] == cs;
  }

  // ---------------------------------------------------------------------------
  // addContainerInfo
  // ---------------------------------------------------------------------------

  /** The first container of `cs` whose pod-container key is `key`. */
  function FirstMatching(cs: seq<Container>, pod: Pod, key: string): (r: Option<Container>) {
    if |cs| == 0 then None
    else if key == ContainerKeyOf(pod, cs[0]) then Some(cs[0])
    else FirstMatching(cs[1..], pod, key)
  }

  lemma {:induction false} FirstMatchingIsFirst(cs: seq<Container>, pod: Pod, key: string)
    ensures FirstMatching(cs, pod, key).None? <==> forall i :: 0 <= i < |cs| ==> ContainerKeyOf(pod, cs[i]) != key
    ensures FirstMatching(cs, pod, key).Some? ==>
      exists i :: 0 <= i < |cs| && cs[i] == FirstMatching(cs, pod, key).value && ContainerKeyOf(pod, cs[i]) == key
                  && forall j :: 0 <= j < i ==> ContainerKeyOf(pod, cs[j]) != key
  {
    if |cs| > 0 && key != ContainerKeyOf(pod, cs[0]) {
      FirstMatchingIsFirst(cs[1..], pod, key);
      assert forall i :: 1 <= i < |cs| ==> cs[i] == cs[1..][i - 1];
      if FirstMatching(cs, pod, key).Some? {
        var i :| 0 <= i < |cs[1..]| && cs[1..][i] == FirstMatching(cs, pod, key).value
                 && ContainerKeyOf(pod, cs[1..][i]) == key
                 && forall j :: 0 <= j < i ==> ContainerKeyOf(pod, cs[1..][j]) != key;
        assert cs[i + 1] == cs[1..][i];
        forall j | 0 <= j < i + 1 ensures ContainerKeyOf(pod, cs[j]) != key {
          if j > 0 {
            assert cs[j] == cs[1..][j - 1];
          }
        }
      }
    }
  }

  /** The container set after the matching container's resources and image. */
  function WithMatchingContainer(ms: MetricSet, m: Option<Container>): (r: MetricSet) {
    match m
    case None => ms
    case Some(c) =>
      var u := UpdateContainerResourcesAndLimits(ms, c);
      if LabelContainerBaseImage in u.labels then u else u.(labels := u.labels[LabelContainerBaseImage := c.image])
  }

  /** What `addContainerInfo` makes of the metric set of container `key`. */
  function EnrichContainer(ms: MetricSet, pod: Pod, key: string, cache: PodCache): (r: MetricSet) {
    var matched := WithMatchingContainer(ms, FirstMatching(pod.containers, pod, key));
    matched.(labels := WithPodInfo(matched.labels, pod, cache))
  }

  /** What `addContainerInfo` adds to `newMs`: when the container's pod is in neither the
      batch nor `newMs`, a pod stub, enriched by `addPodInfo`, with its container stubs. */
  function PodStubs(containerLabels: map<string, string>, pod: Pod, batchKeys: set<string>,
                    newMs: map<string, MetricSet>, cache: PodCache): (r: map<string, MetricSet>)
  {
    var namespace := Lookup(containerLabels, LabelNamespaceName);
    var podName := Lookup(containerLabels, LabelPodName);
    var podKey := PodKey(namespace, podName);
    if podKey in batchKeys || podKey in newMs then newMs
    else
      var stub := PodStub(namespace, podName, containerLabels);
      var podMs := stub.(labels := WithPodInfo(stub.labels, pod, cache));
      AddContainerStubs(pod, pod.containers, StubMaker(pod, podMs.labels, cache), batchKeys, newMs[podKey := stub])[podKey := podMs]
  }

  /** `addContainerInfo` on the metric set of container `key`. */
  method AddContainerInfo(key: string, containerMs: MetricSet, pod: Pod, batchKeys: set<string>,
                          newMs: map<string, MetricSet>, cache: PodCache)
    returns (enriched: MetricSet, stubs: map<string, MetricSet>)
    ensures enriched == EnrichContainer(containerMs, pod, key, cache)
    ensures stubs == PodStubs(enriched.labels, pod, batchKeys, newMs, cache)
  {
    enriched := MatchContainer(key, containerMs, pod);
    enriched := enriched.(labels := enriched.labels[LabelPodId := pod.uid]);
    enriched := enriched.(labels := enriched.labels[LabelLabels := cache.labelsToString(pod.labels)]);
    stubs := AddPodStub(enriched.labels, pod, batchKeys, newMs, cache);
  }

  /** The container loop of `addContainerInfo`: the first container of the pod with
      the key `key` gives its resources and, unless one is set, its image. */
  method MatchContainer(key: string, containerMs: MetricSet, pod: Pod) returns (enriched: MetricSet)
    ensures enriched == WithMatchingContainer(containerMs, FirstMatching(pod.containers, pod, key))
  {
    enriched := containerMs;
    var cs := pod.containers;
    var i := 0;
    while i < |cs|
      invariant 0 <= i <= |cs|
      invariant FirstMatching(cs[i..], pod, key) == FirstMatching(cs, pod, key)
      invariant enriched == containerMs
    {
      var container := cs[i];
      if key == PodContainerKey(pod.namespace, pod.name, container.name) {
        enriched := UpdateContainerResourcesAndLimits(enriched, container);
        if LabelContainerBaseImage !in enriched.labels {
          enriched := enriched.(labels := enriched.labels[LabelContainerBaseImage := container.image]);
        }
        return;
      }
      assert cs[i..][1..] == cs[i + 1..];
      i := i + 1;
    }
  }

  /** The tail of `addContainerInfo`: a pod stub, enriched by `addPodInfo`, when the
      container's pod is in neither the batch nor `newMs`. */
  method AddPodStub(containerLabels: map<string, string>, pod: Pod, batchKeys: set<string>,
                    newMs: map<string, MetricSet>, cache: PodCache) returns (stubs: map<string, MetricSet>)
    ensures stubs == PodStubs(containerLabels, pod, batchKeys, newMs, cache)
  {
    var namespace := Lookup(containerLabels, LabelNamespaceName);
    var podName := Lookup(containerLabels, LabelPodName);
    var podKey := PodKey(namespace, podName);
    stubs := newMs;
    if podKey !in batchKeys {
      if podKey !in newMs {
        var podMs := MetricSet(0, 0, map[], map[
          LabelMetricSetType := MetricSetTypePod,
          LabelNamespaceName := namespace,
          LabelPodName := podName,
          LabelNodename := Lookup(containerLabels, LabelNodename),
          LabelHostname := Lookup(containerLabels, LabelHostname),
          LabelHostID := Lookup(containerLabels, LabelHostID)], []);
        stubs := newMs[podKey := podMs];
        var enrichedPod;
        enrichedPod, stubs := AddPodInfo(podMs, pod, batchKeys, stubs, cache);
        // the stub in newMs is the very metric set addPodInfo enriched
        stubs := stubs[podKey := enrichedPod];
      }
    }
  }

  /** The pod stub is added under the pod's key, with its container stubs; existing
      entries stay, no key of the batch is shadowed, and every new entry is the pod's
      stub or a stub of one of its containers, under its own key. */
  lemma {:induction false} PodStubsFacts(containerLabels: map<string, string>, pod: Pod, batchKeys: set<string>,
                      newMs: map<string, MetricSet>, cache: PodCache)
    requires newMs.Keys !! batchKeys && forall k :: k in newMs ==> KeyedStub(k, newMs[k])
    ensures var r := PodStubs(containerLabels, pod, batchKeys, newMs, cache);
      var podKey := PodKey(Lookup(containerLabels, LabelNamespaceName), Lookup(containerLabels, LabelPodName));
      && newMs.Keys <= r.Keys
      && (forall k :: k in newMs ==> r[k] == newMs[k])
      && r.Keys !! batchKeys
      && (forall k :: k in r ==> KeyedStub(k, r[k]))
      && (forall k :: k in r && k !in newMs ==> k == podKey || IsContainerKey(pod, pod.containers, k))
      && (podKey in batchKeys || podKey in r)
  {
    var namespace := Lookup(containerLabels, LabelNamespaceName);
    var podName := Lookup(containerLabels, LabelPodName);
    var podKey := PodKey(namespace, podName);
    if !(podKey in batchKeys || podKey in newMs) {
      var stub := PodStub(namespace, podName, containerLabels);
      var podMs := stub.(labels := WithPodInfo(stub.labels, pod, cache));
      PodStubKeyed(namespace, podName, containerLabels, pod, cache);
      var withPod := newMs[podKey := stub];
      AddContainerStubsFacts(pod, podMs.labels, batchKeys, withPod, cache);
      var r := AddContainerStubs(pod, pod.containers, StubMaker(pod, podMs.labels, cache), batchKeys, withPod);
      OverwritePodStub(newMs, withPod, r, podKey, podMs, pod, batchKeys);
    }
  }

  /** Storing the enriched pod stub over the container stubs keeps the facts above. */
  lemma OverwritePodStub(newMs: map<string, MetricSet>, withPod: map<string, MetricSet>, r: map<string, MetricSet>,
                         podKey: string, podMs: MetricSet, pod: Pod, batchKeys: set<string>)
    requires podKey !in batchKeys && podKey !in newMs && withPod.Keys == newMs.Keys + {podKey}
    requires forall k :: k in newMs ==> withPod[k] == newMs[k]
    requires KeyedStub(podKey, podMs)
    requires withPod.Keys <= r.Keys && (forall k :: k in withPod ==> r[k] == withPod[k])
    requires r.Keys !! batchKeys && (forall k :: k in r ==> KeyedStub(k, r[k]))
    requires forall k :: k in r && k !in withPod ==> IsContainerKey(pod, pod.containers, k)
    ensures var f := r[podKey := podMs];
      && newMs.Keys <= f.Keys
      && (forall k :: k in newMs ==> f[k] == newMs[k])
      && f.Keys !! batchKeys
      && (forall k :: k in f ==> KeyedStub(k, f[k]))
      && (forall k :: k in f && k !in newMs ==> k == podKey || IsContainerKey(pod, pod.containers, k))
      && podKey in f
  {
  }

  /** The pod stub, before and after `addPodInfo`, is a stub under the pod's key. */
  lemma PodStubKeyed(namespace: string, podName: string, containerLabels: map<string, string>, pod: Pod, cache: PodCache)
    ensures var stub := PodStub(namespace, podName, containerLabels);
      && KeyedStub(PodKey(namespace, podName), stub)
      && KeyedStub(PodKey(namespace, podName), stub.(labels := WithPodInfo(stub.labels, pod, cache)))
  {
    var stub := PodStub(namespace, podName, containerLabels);
    var podMs := stub.(labels := WithPodInfo(stub.labels, pod, cache));
    assert Lookup(stub.labels, LabelMetricSetType) == MetricSetTypePod;
    assert Lookup(podMs.labels, LabelMetricSetType) == MetricSetTypePod;
    assert Lookup(podMs.labels, LabelNamespaceName) == namespace;
    assert Lookup(podMs.labels, LabelPodName) == podName;
  }

  /** The container stubs of a pod keep the entries of `newMs`, stay out of the batch,
      are stubs of the pod's containers under their own keys, and give every container
      of the pod a metric set. */
  lemma AddContainerStubsFacts(pod: Pod, podLabels: map<string, string>, batchKeys: set<string>,
                               newMs: map<string, MetricSet>, cache: PodCache)
    requires newMs.Keys !! batchKeys && forall k :: k in newMs ==> KeyedStub(k, newMs[k])
    ensures var r := AddContainerStubs(pod, pod.containers, StubMaker(pod, podLabels, cache), batchKeys, newMs);
      && newMs.Keys <= r.Keys && (forall k :: k in newMs ==> r[k] == newMs[k])
      && r.Keys !! batchKeys && (forall k :: k in r ==> KeyedStub(k, r[k]))
      && (forall k :: k in r && k !in newMs ==> IsContainerKey(pod, pod.containers, k))
      && forall c :: c in pod.containers ==> ContainerKeyOf(pod, c) in batchKeys + r.Keys
  {
    var stub := StubMaker(pod, podLabels, cache);
    AddContainerStubsKeeps(pod, pod.containers, stub, batchKeys, newMs);
    AddContainerStubsCovers(pod, pod.containers, stub, batchKeys, newMs);
    AddContainerStubsAreStubs(pod, pod.containers, podLabels, cache, batchKeys, newMs);
    forall c | c in pod.containers
      ensures ContainerKeyOf(pod, c) in batchKeys + AddContainerStubs(pod, pod.containers, stub, batchKeys, newMs).Keys
    {
      var i :| 0 <= i < |pod.containers| && pod.containers[i] == c;
    }
  }

  // ---------------------------------------------------------------------------
  // Process
  // ---------------------------------------------------------------------------

  /** What `Process` makes of the entry under `key` of the original batch. */
  function EnrichEntry(key: string, ms: MetricSet, cache: PodCache): (r: MetricSet) {
    var kind := Lookup(ms.labels, LabelMetricSetType);
    if kind != MetricSetTypePod && kind != MetricSetTypePodContainer then ms
    else
      match cache.getPod(Lookup(ms.labels, LabelNamespaceName), Lookup(ms.labels, LabelPodName))
      case None => ms
      case Some(pod) =>
        if kind == MetricSetTypePod then ms.(labels := WithPodInfo(ms.labels, pod, cache))
        else EnrichContainer(ms, pod, key, cache)
  }

  /** The pod an entry of the batch is enriched from, if any. */
  function PodOf(ms: MetricSet, cache: PodCache): (r: Option<Pod>) {
    cache.getPod(Lookup(ms.labels, LabelNamespaceName), Lookup(ms.labels, LabelPodName))
  }

  /** What processing the entry `ms` under `key` adds to `newMs`: the container stubs
      of a pod entry's pod, the pod stub (with its container stubs) of a pod-container
      entry's pod, and nothing for other entries or when the pod is not found. */
  function EntryStubs(key: string, ms: MetricSet, batchKeys: set<string>, newMs: map<string, MetricSet>,
                      cache: PodCache): (r: map<string, MetricSet>)
  {
    var kind := Lookup(ms.labels, LabelMetricSetType);
    match PodOf(ms, cache)
    case None => newMs
    case Some(pod) =>
      var enriched := EnrichEntry(key, ms, cache);
      if kind == MetricSetTypePod then
        AddContainerStubs(pod, pod.containers, StubMaker(pod, enriched.labels, cache), batchKeys, newMs)
      else if kind == MetricSetTypePodContainer then PodStubs(enriched.labels, pod, batchKeys, newMs, cache)
      else newMs
  }

  /** `k` is a key processing the entry `ms` may add: the pod key of a pod-container
      entry, or the key of a container of the entry's pod. */
  predicate Spawns(ms: MetricSet, cache: PodCache, k: string) {
    var kind := Lookup(ms.labels, LabelMetricSetType);
    match PodOf(ms, cache)
    case None => false
    case Some(pod) =>
      || (kind == MetricSetTypePodContainer
          && k == PodKey(Lookup(ms.labels, LabelNamespaceName), Lookup(ms.labels, LabelPodName)))
      || ((kind == MetricSetTypePod || kind == MetricSetTypePodContainer) && IsContainerKey(pod, pod.containers, k))
  }

  /** Enriching a container entry leaves its namespace and pod labels alone. */
  lemma EnrichContainerKeepsPod(ms: MetricSet, pod: Pod, key: string, cache: PodCache)
    ensures var r := EnrichContainer(ms, pod, key, cache);
      && Lookup(r.labels, LabelNamespaceName) == Lookup(ms.labels, LabelNamespaceName)
      && Lookup(r.labels, LabelPodName) == Lookup(ms.labels, LabelPodName)
  {
    var m := WithMatchingContainer(ms, FirstMatching(pod.containers, pod, key));
    assert Lookup(m.labels, LabelNamespaceName) == Lookup(ms.labels, LabelNamespaceName);
    assert Lookup(m.labels, LabelPodName) == Lookup(ms.labels, LabelPodName);
  }

  /** One entry's stubs keep what was collected, stay out of the batch, are stubs under
      their own keys, name only the entry's pod or its containers, and cover the entry's
      pod or containers. */
  lemma EntryStubsFacts(key: string, ms: MetricSet, batchKeys: set<string>, newMs: map<string, MetricSet>,
                        cache: PodCache)
    requires newMs.Keys !! batchKeys && forall k :: k in newMs ==> KeyedStub(k, newMs[k])
    ensures var r := EntryStubs(key, ms, batchKeys, newMs, cache);
      && newMs.Keys <= r.Keys && (forall k :: k in newMs ==> r[k] == newMs[k])
      && r.Keys !! batchKeys && (forall k :: k in r ==> KeyedStub(k, r[k]))
      && (forall k :: k in r && k !in newMs ==> Spawns(ms, cache, k))
      && Covered(key, ms, cache, batchKeys, r.Keys)
  {
    var kind := Lookup(ms.labels, LabelMetricSetType);
    match PodOf(ms, cache)
    case None =>
    case Some(pod) =>
      var enriched := EnrichEntry(key, ms, cache);
      if kind == MetricSetTypePod {
        AddContainerStubsFacts(pod, enriched.labels, batchKeys, newMs, cache);
      } else if kind == MetricSetTypePodContainer {
        EnrichContainerKeepsPod(ms, pod, key, cache);
        PodStubsFacts(enriched.labels, pod, batchKeys, newMs, cache);
      }
  }

  /** The body of the loop of `Process` for the entry `ms` under `key`: the type switch,
      the pod lookup (on failure the entry is skipped) and the enrichment. */
  method EnrichOne(key: string, ms: MetricSet, batchKeys: set<string>, newMs: map<string, MetricSet>, cache: PodCache)
    returns (enriched: MetricSet, stubs: map<string, MetricSet>)
    ensures enriched == EnrichEntry(key, ms, cache)
    ensures stubs == EntryStubs(key, ms, batchKeys, newMs, cache)
  {
    enriched, stubs := ms, newMs;
    var kind := Lookup(ms.labels, LabelMetricSetType);
    if kind == MetricSetTypePod {
      var namespace := Lookup(ms.labels, LabelNamespaceName);
      var podName := Lookup(ms.labels, LabelPodName);
      var pod := cache.getPod(namespace, podName);
      if pod.None? {
        return;
      }
      enriched, stubs := AddPodInfo(ms, pod.value, batchKeys, newMs, cache);
    } else if kind == MetricSetTypePodContainer {
      var namespace := Lookup(ms.labels, LabelNamespaceName);
      var podName := Lookup(ms.labels, LabelPodName);
      var pod := cache.getPod(namespace, podName);
      if pod.None? {
        return;
      }
      enriched, stubs := AddContainerInfo(key, ms, pod.value, batchKeys, newMs, cache);
    }
  }

  /** `Process`: enrich pod and pod-container entries in place, then add the stubs
      collected in `newMs`. */
  method Process(batch: DataBatch, cache: PodCache)
    modifies batch
    ensures batch.timestamp == old(batch.timestamp)
    ensures old(batch.metricSets).Keys <= batch.metricSets.Keys
    ensures forall k :: k in old(batch.metricSets) ==>
      batch.metricSets[k] == EnrichEntry(k, old(batch.metricSets)[k], cache)
    ensures forall k :: k in batch.metricSets && k !in old(batch.metricSets) ==>
      KeyedStub(k, batch.metricSets[k]) && SpawnedBy(old(batch.metricSets), cache, k)
    ensures forall k :: k in old(batch.metricSets) ==> Covered(k, old(batch.metricSets)[k], cache, {}, batch.metricSets.Keys)
  {
    var newMs := EnrichEntries(batch, cache);
    AddStubs(batch, newMs);
  }

  /** The first loop of `Process`: every entry of the batch is enriched, the stubs are
      collected in `newMs`. */
  method EnrichEntries(batch: DataBatch, cache: PodCache) returns (newMs: map<string, MetricSet>)
    modifies batch
    ensures batch.timestamp == old(batch.timestamp)
    ensures batch.metricSets.Keys == old(batch.metricSets).Keys
    ensures forall k :: k in old(batch.metricSets) ==>
      batch.metricSets[k] == EnrichEntry(k, old(batch.metricSets)[k], cache)
    ensures newMs.Keys !! batch.metricSets.Keys
    ensures forall k :: k in newMs ==> KeyedStub(k, newMs[k]) && SpawnedBy(old(batch.metricSets), cache, k)
    ensures forall k :: k in old(batch.metricSets) ==>
      Covered(k, old(batch.metricSets)[k], cache, batch.metricSets.Keys, newMs.Keys)
  {
    ghost var original := batch.metricSets;
    var batchKeys := batch.metricSets.Keys;
    var keys := SetToSeq(batchKeys);
    newMs := map[];
    for i := 0 to |keys|
      invariant batch.timestamp == old(batch.timestamp)
      invariant batch.metricSets.Keys == batchKeys
      invariant forall k :: k in batchKeys ==>
        batch.metricSets[k] == if k in keys[..i] then EnrichEntry(k, original[k], cache) else original[k]
      invariant newMs.Keys !! batchKeys
      invariant forall k :: k in newMs ==> KeyedStub(k, newMs[k]) && SpawnedBy(original, cache, k)
      invariant forall k :: k in keys[..i] ==> k in original && Covered(k, original[k], cache, batchKeys, newMs.Keys)
    {
      var k := keys[i];
      assert k in ToSet(keys);
      assert k !in keys[..i] by {
        forall j | 0 <= j < i ensures keys[j] != k {}
      }
      assert keys[..i + 1] == keys[..i] + [k];
      ghost var before := newMs;
      var enriched;
      enriched, newMs := EnrichOne(k, batch.metricSets[k], batchKeys, newMs, cache);
      EntryStubsFacts(k, original[k], batchKeys, before, cache);
      batch.metricSets := batch.metricSets[k := enriched];
      CoveredGrows(keys[..i], original, cache, batchKeys, before.Keys, newMs.Keys);
      SpawnedGrows(original, cache, k, before, newMs);
    }
    assert keys[..|keys|] == keys;
    forall k | k in original ensures Covered(k, original[k], cache, batchKeys, newMs.Keys) {
      assert k in ToSet(keys);
    }
  }

  /** The second loop of `Process`: every collected stub is stored in the batch. */
  method AddStubs(batch: DataBatch, newMs: map<string, MetricSet>)
    modifies batch
    ensures batch.timestamp == old(batch.timestamp)
    ensures batch.metricSets == old(batch.metricSets) + newMs
  {
    var newKeys := SetToSeq(newMs.Keys);
    for j := 0 to |newKeys|
      invariant batch.timestamp == old(batch.timestamp)
      invariant batch.metricSets.Keys == old(batch.metricSets).Keys + ToSet(newKeys[..j])
      invariant forall k :: k in batch.metricSets ==>
        batch.metricSets[k] == if k in ToSet(newKeys[..j]) then newMs[k] else old(batch.metricSets)[k]
    {
      assert newKeys[j] in ToSet(newKeys);
      assert newKeys[..j + 1] == newKeys[..j] + [newKeys[j]];
      ToSetSnoc(newKeys[..j], newKeys[j]);
      batch.metricSets := batch.metricSets[newKeys[j] := newMs[newKeys[j]]];
    }
    assert newKeys[..|newKeys|] == newKeys;
  }

  /** After processing the entry `ms` under `key`, the pod of a container entry and the
      containers of a pod entry have metric sets (in the batch or among the stubs). */
  predicate Covered(key: string, ms: MetricSet, cache: PodCache, batchKeys: set<string>, stubKeys: set<string>) {
    var kind := Lookup(ms.labels, LabelMetricSetType);
    match PodOf(ms, cache)
    case None => true
    case Some(pod) =>
      && (kind == MetricSetTypePodContainer ==>
            PodKey(Lookup(ms.labels, LabelNamespaceName), Lookup(ms.labels, LabelPodName)) in batchKeys + stubKeys)
      && (kind == MetricSetTypePod ==>
            forall c :: c in pod.containers ==> ContainerKeyOf(pod, c) in batchKeys + stubKeys)
  }

  lemma CoveredGrows(done: seq<string>, original: map<string, MetricSet>, cache: PodCache, batchKeys: set<string>,
                     before: set<string>, after: set<string>)
    requires before <= after
    requires forall k :: k in done ==> k in original && Covered(k, original[k], cache, batchKeys, before)
    ensures forall k :: k in done ==> Covered(k, original[k], cache, batchKeys, after)
  {
  }

  /** Some entry of `entries` may add the key `k`. */
  predicate SpawnedBy(entries: map<string, MetricSet>, cache: PodCache, k: string) {
    exists k0 :: k0 in entries && Spawns(entries[k0], cache, k)
  }

  lemma SpawnedGrows(entries: map<string, MetricSet>, cache: PodCache, k0: string,
                     before: map<string, MetricSet>, after: map<string, MetricSet>)
    requires k0 in entries
    requires forall k :: k in before ==> SpawnedBy(entries, cache, k)
    requires forall k :: k in after && k !in before ==> Spawns(entries[k0], cache, k)
    ensures forall k :: k in after ==> SpawnedBy(entries, cache, k)
  {
  }

  /** Entries that are neither pods nor pod containers, and entries whose pod is not
      found, are left as they are. */
  lemma EnrichEntryLeavesOthers(key: string, ms: MetricSet, cache: PodCache)
    requires (Lookup(ms.labels, LabelMetricSetType) != MetricSetTypePod
              && Lookup(ms.labels, LabelMetricSetType) != MetricSetTypePodContainer)
             || PodOf(ms, cache).None?
    ensures EnrichEntry(key, ms, cache) == ms
  {
  }

  /** A pod entry only gains its UID and labels. */
  lemma EnrichPodEntry(key: string, ms: MetricSet, cache: PodCache)
    requires Lookup(ms.labels, LabelMetricSetType) == MetricSetTypePod && PodOf(ms, cache).Some?
    ensures var r := EnrichEntry(key, ms, cache);
      var pod := PodOf(ms, cache).value;
      && r.metricValues == ms.metricValues
      && r.labels[LabelPodId] == pod.uid
      && r.labels[LabelLabels] == cache.labelsToString(pod.labels)
      && forall l :: l in ms.labels && l != LabelPodId && l != LabelLabels ==> l in r.labels && r.labels[l] == ms.labels[l]
  {
  }

  /** A pod-container entry gains UID and labels and, when one of the pod's containers
      has its key, the four resource gauges of the first such container and that
      container's image unless an image label is already set. */
  lemma EnrichContainerEntry(key: string, ms: MetricSet, cache: PodCache)
    requires Lookup(ms.labels, LabelMetricSetType) == MetricSetTypePodContainer && PodOf(ms, cache).Some?
    ensures var r := EnrichEntry(key, ms, cache);
      var pod := PodOf(ms, cache).value;
      var m := FirstMatching(pod.containers, pod, key);
      && r.labels[LabelPodId] == pod.uid
      && r.labels[LabelLabels] == cache.labelsToString(pod.labels)
      && (m.None? ==> r.metricValues == ms.metricValues && r.labels == WithPodInfo(ms.labels, pod, cache))
      && (m.Some? ==>
            && r.metricValues.Keys == ms.metricValues.Keys + ResourceMetrics
            && r.metricValues[MetricCpuRequest] == IntValue(CpuMillis(m.value.requests))
            && r.metricValues[MetricMemoryRequest] == IntValue(MemoryBytes(m.value.requests))
            && r.metricValues[MetricCpuLimit] == IntValue(CpuMillis(m.value.limits))
            && r.metricValues[MetricMemoryLimit] == IntValue(MemoryBytes(m.value.limits))
            && r.labels[LabelContainerBaseImage] ==
                 if LabelContainerBaseImage in ms.labels then ms.labels[LabelContainerBaseImage] else m.value.image)
  {
  }
}
