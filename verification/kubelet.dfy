/** The kubelet metrics source of metrics-server (metrics/sources/kubelet/kubelet.go):
    it turns the cAdvisor container records a kubelet reports into metric sets keyed
    by node, pod, pod container or system container, and picks the address to scrape
    a node at. */
module Kubelet {
  import opened Wrappers
  import opened Collections
  import opened Text
  import opened Core

  const InfraContainerName := "POD"
  const KubernetesPodNameLabel := "io.kubernetes.pod.name"
  const KubernetesPodNamespaceLabel := "io.kubernetes.pod.namespace"
  const KubernetesPodUID := "io.kubernetes.pod.uid"
  const KubernetesContainerLabel := "io.kubernetes.container.name"

  // ---------------------------------------------------------------------------
  // cAdvisor records
  // ---------------------------------------------------------------------------

  /** cAdvisor's metric kinds; `OtherType` covers every kind metrics-server does not know. */
  datatype CustomType = Gauge | Cumulative | OtherType(name: string)
  /** cAdvisor's value formats; `OtherFormat` covers every other one. */
  datatype CustomFormat = IntType | FloatType | OtherFormat(name: string)

  datatype MetricSpec = MetricSpec(name: string, metricType: CustomType, format: CustomFormat)

  /** One reported value of a custom metric. */
  datatype MetricVal = MetricVal(timestamp: int, intValue: int, floatValue: real)

  datatype ContainerSpec = ContainerSpec(
    creationTime: int,
    labels: map<string, string>,
    image: string,
    hasCustomMetrics: bool,
    customMetrics: seq<MetricSpec>)

  datatype ContainerStats = ContainerStats(timestamp: int, customMetrics: map<string, seq<MetricVal>>)

  /** `cadvisor.ContainerInfo`: the cgroup name, the spec and the samples, oldest first. */
  datatype ContainerInfo = ContainerInfo(name: string, spec: ContainerSpec, stats: seq<ContainerStats>)

  /** An entry of `StandardMetrics`; an entry whose `HasValue` is nil is one whose
      `hasValue` answers false. */
  datatype StandardMetric = StandardMetric(
    name: string,
    hasValue: ContainerSpec -> bool,
    getValue: (ContainerSpec, ContainerStats) -> MetricValue)

  /** An entry of `LabeledMetrics`. */
  datatype LabeledMetricSource = LabeledMetricSource(
    hasLabeledMetric: ContainerSpec -> bool,
    getLabeledMetric: (ContainerSpec, ContainerStats) -> seq<LabeledMetric>)

  /** What decoding relies on but this model does not define: `isNode` and the two
      metric tables. */
  datatype Env = Env(isNode: ContainerInfo -> bool, standard: seq<StandardMetric>, labeled: seq<LabeledMetricSource>)

  /** The identity of the node a `kubeletMetricsSource` scrapes. */
  datatype Source = Source(nodename: string, hostname: string, hostId: string)

  // ---------------------------------------------------------------------------
  // Classification
  // ---------------------------------------------------------------------------

  /** The labels every metric set of a source starts with. */
  function SourceLabels(src: Source): (r: map<string, string>) {
    map[LabelNodename := src.nodename, LabelHostname := src.hostname, LabelHostID := src.hostId]
  }

  /** The name of a system container: the cgroup name without one leading `/`. */
  function SystemContainerName(name: string): (r: string)
    ensures |name| > 0 && name[0] == '/' ==> name == "/" + r
    ensures |name| == 0 || name[0] != '/' ==> r == name
  {
    if |name| > 0 && name[0] == '/' then name[1..] else name
  }

  /** `handleSystemContainer`: the key and labels of a container without Kubernetes
      metadata. */
  function HandleSystemContainer(src: Source, name: string, labels: map<string, string>): (r: (string, map<string, string>)) {
    var cName := SystemContainerName(name);
    (NodeContainerKey(src.nodename, cName),
     labels[LabelMetricSetType := MetricSetTypeSystemContainer][LabelContainerName := cName])
  }

  /** `handleKubernetesContainer`: the key and labels of a pod's infrastructure
      container (the pod itself) or of one of its containers. */
  function HandleKubernetesContainer(cName: string, ns: string, podName: string, spec: ContainerSpec,
                                     labels: map<string, string>): (r: (string, map<string, string>)) {
    var (key, typed) :=
      if cName == InfraContainerName then
        (PodKey(ns, podName), labels[LabelMetricSetType := MetricSetTypePod])
      else
        (PodContainerKey(ns, podName, cName),
         labels[LabelMetricSetType := MetricSetTypePodContainer][LabelContainerName := cName]
               [LabelContainerBaseImage := spec.image]);
    (key, typed[LabelPodId := Lookup(spec.labels, KubernetesPodUID)][LabelPodName := podName][LabelNamespaceName := ns])
  }

  /** Container, namespace and pod name as `decodeMetrics` derives them for a container
      that is not the node. */
  datatype Identity = Identity(cName: string, ns: string, podName: string)

  /** The identity of a container from its labels, with the two fallbacks for old
      Kubernetes versions; `None` when the cgroup-name fallback slices out of range,
      which panics in the source. */
  function KubernetesIdentity(c: ContainerInfo): (r: Option<Identity>) {
    var fromLabel := Lookup(c.spec.labels, KubernetesContainerLabel);
    var ns0 := Lookup(c.spec.labels, KubernetesPodNamespaceLabel);
    var pod0 := Lookup(c.spec.labels, KubernetesPodNameLabel);
    var split := SplitFirst(pod0, '/');
    var ns := if ns0 == "" && split.Some? then split.value.0 else ns0;
    var podName := if ns0 == "" && split.Some? then split.value.1 else pod0;
    if fromLabel != "" then Some(Identity(fromLabel, ns, podName))
    else
      match CgroupContainerName(c.name)
      case None => None
      case Some(cName) => Some(Identity(cName, ns, podName))
  }

  /** The cgroup-name fallback for a container without a container label: the bytes
      from 4 up to the byte offset of the first `.`; `""` when there is no `.`; `None`
      when the first `.` lies before byte 4, where the slice panics. */
  function CgroupContainerName(name: string): (r: Option<string>)
    ensures r.None? <==> 0 <= ByteIndexOf(name, '.') < 4
    ensures r == Some("") <== '.' !in name
  {
    var pos := ByteIndexOf(name, '.');
    if pos < 0 then Some("")
    else if pos < 4 then None
    else Some(ByteSlice(name, 4, pos))
  }

  /** The key and labels of a container, or `None` for the panic above. */
  function Classify(src: Source, c: ContainerInfo, env: Env): (r: Option<(string, map<string, string>)>) {
    var base := SourceLabels(src);
    if env.isNode(c) then Some((NodeKey(src.nodename), base[LabelMetricSetType := MetricSetTypeNode]))
    else
      match KubernetesIdentity(c)
      case None => None
      case Some(id) =>
        if id.cName == "" || id.ns == "" || id.podName == "" then Some(HandleSystemContainer(src, c.name, base))
        else Some(HandleKubernetesContainer(id.cName, id.ns, id.podName, c.spec, base))
  }

  // ---------------------------------------------------------------------------
  // Metric values
  // ---------------------------------------------------------------------------

  /** The standard metrics a container has, a later table entry of the same name
      overwriting an earlier one. */
  function StandardValues(table: seq<StandardMetric>, spec: ContainerSpec, stats: ContainerStats): (r: map<string, MetricValue>) {
    if |table| == 0 then map[]
    else
      var m := StandardValues(table[..|table| - 1], spec, stats);
      var metric := table[|table| - 1];
      if metric.hasValue(spec) then m[metric.name := metric.getValue(spec, stats)] else m
  }

  /** The labeled metrics of a container, table entry by table entry. */
  function LabeledValues(table: seq<LabeledMetricSource>, spec: ContainerSpec, stats: ContainerStats): (r: seq<LabeledMetric>) {
    if |table| == 0 then []
    else
      var metric := table[|table| - 1];
      LabeledValues(table[..|table| - 1], spec, stats)
        + (if metric.hasLabeledMetric(spec) then metric.getLabeledMetric(spec, stats) else [])
  }

  /** The value the loop over `cmValue` settles on. */
  function NewestOf(vals: seq<MetricVal>): (r: MetricVal)
    requires |vals| >= 1
  {
    if |vals| == 1 then vals[0]
    else
      var newest := NewestOf(vals[..|vals| - 1]);
      if newest.timestamp < vals[|vals| - 1].timestamp then vals[|vals| - 1] else newest
  }

  /** The newest value has the latest timestamp, and of several with that timestamp it
      is the first. */
  lemma {:induction false} NewestIsFirstLatest(vals: seq<MetricVal>)
    requires |vals| >= 1
    ensures exists i :: 0 <= i < |vals| && vals[i] == NewestOf(vals)
                        && forall j :: 0 <= j < i ==> vals[j].timestamp < vals[i].timestamp
    ensures forall j :: 0 <= j < |vals| ==> vals[j].timestamp <= NewestOf(vals).timestamp
  {
    if |vals| == 1 {
      assert vals[0] == NewestOf(vals);
    } else {
      var p := vals[..|vals| - 1];
      NewestIsFirstLatest(p);
      var i :| 0 <= i < |p| && p[i] == NewestOf(p) && forall j :: 0 <= j < i ==> p[j].timestamp < p[i].timestamp;
      assert vals[i] == p[i];
      assert forall j :: 0 <= j < |p| ==> vals[j] == p[j];
      var last := |vals| - 1;
      if NewestOf(p).timestamp < vals[last].timestamp {
        assert NewestOf(vals) == vals[last];
        assert forall j :: 0 <= j < last ==> vals[j].timestamp < vals[last].timestamp;
      } else {
        assert NewestOf(vals) == vals[i];
        assert forall j :: 0 <= j < |vals| ==> vals[j].timestamp <= vals[i].timestamp;
      }
    }
  }

  /** The value stored for one custom metric spec, or `None` when it is skipped: no
      reported values, or a kind or format metrics-server does not know. */
  function CustomValue(spec: MetricSpec, stats: ContainerStats): (r: Option<MetricValue>)
    ensures r.Some? <==>
      spec.name in stats.customMetrics && |stats.customMetrics[spec.name]| >= 1
      && (spec.metricType.Gauge? || spec.metricType.Cumulative?)
      && (spec.format.IntType? || spec.format.FloatType?)
    ensures r.Some? ==>
      var newest := NewestOf(stats.customMetrics[spec.name]);
      && (r.value.metricType == MetricGauge <==> spec.metricType.Gauge?)
      && (r.value.valueType == ValueInt64 <==> spec.format.IntType?)
      && (spec.format.IntType? ==> r.value.intValue == newest.intValue && r.value.floatValue == 0.0)
      && (spec.format.FloatType? ==> r.value.floatValue == newest.floatValue && r.value.intValue == 0)
      && r.value.metricType != MetricDelta
  {
    if spec.name in stats.customMetrics && |stats.customMetrics[spec.name]| >= 1 then
      var newest := NewestOf(stats.customMetrics[spec.name]);
      match (spec.metricType, spec.format)
      case (Gauge, IntType) => Some(MetricValue(newest.intValue, 0.0, MetricGauge, ValueInt64))
      case (Gauge, FloatType) => Some(MetricValue(0, newest.floatValue, MetricGauge, ValueFloat))
      case (Cumulative, IntType) => Some(MetricValue(newest.intValue, 0.0, MetricCumulative, ValueInt64))
      case (Cumulative, FloatType) => Some(MetricValue(0, newest.floatValue, MetricCumulative, ValueFloat))
      case _ => None
    else None
  }

  /** `values` after the loop over the custom metric specs. */
  function CustomValues(specs: seq<MetricSpec>, stats: ContainerStats, values: map<string, MetricValue>)
    : (r: map<string, MetricValue>)
  {
    if |specs| == 0 then values
    else
      var m := CustomValues(specs[..|specs| - 1], stats, values);
      var spec := specs[|specs| - 1];
      match CustomValue(spec, stats)
      case None => m
      case Some(mv) => m[CustomMetricPrefix + spec.name := mv]
  }

  /** Custom metrics are stored under `custom/<name>` and only when not skipped;
      nothing else is added or removed. */
  lemma {:induction false} CustomValuesKeys(specs: seq<MetricSpec>, stats: ContainerStats,
                                            values: map<string, MetricValue>, k: string)
    ensures k in CustomValues(specs, stats, values) <==>
      k in values || exists i :: 0 <= i < |specs| && k == CustomMetricPrefix + specs[i].name
                                                   && CustomValue(specs[i], stats).Some?
    ensures k in values && (forall i :: 0 <= i < |specs| ==> k != CustomMetricPrefix + specs[i].name) ==>
      CustomValues(specs, stats, values)[k] == values[k]
  {
    if |specs| > 0 {
      var p := specs[..|specs| - 1];
      CustomValuesKeys(p, stats, values, k);
      assert forall i :: 0 <= i < |p| ==> p[i] == specs[i];
    }
  }

  /** All metric values of a decoded container. */
  function MetricValuesOf(c: ContainerInfo, env: Env): (r: map<string, MetricValue>)
    requires |c.stats| > 0
  {
    var standard := StandardValues(env.standard, c.spec, c.stats[0]);
    if c.spec.hasCustomMetrics then CustomValues(c.spec.customMetrics, c.stats[0], standard) else standard
  }

  // ---------------------------------------------------------------------------
  // decodeMetrics
  // ---------------------------------------------------------------------------

  /** What decoding one container gives: nothing for a container without samples
      (`("", nil)`), a key and a metric set, or the slice panic. */
  datatype Decoded = NoStats | Panicked | Decoded(key: string, ms: MetricSet)

  function DecodeSpec(src: Source, c: ContainerInfo, env: Env): (r: Decoded) {
    if |c.stats| == 0 then NoStats
    else
      match Classify(src, c, env)
      case None => Panicked
      case Some((key, labels)) =>
        Decoded(key, MetricSet(c.spec.creationTime, c.stats[0].timestamp, MetricValuesOf(c, env), labels,
                               LabeledValues(env.labeled, c.spec, c.stats[0])))
  }

  /** The loop over the reported values of one custom metric. */
  method Newest(cmValue: seq<MetricVal>) returns (newest: MetricVal)
    requires |cmValue| >= 1
    ensures newest == NewestOf(cmValue)
  {
    newest := cmValue[0];
    for i := 0 to |cmValue|
      invariant i == 0 ==> newest == cmValue[0]
      invariant i > 0 ==> newest == NewestOf(cmValue[..i])
    {
      assert cmValue[..i + 1][..i] == cmValue[..i];
      if newest.timestamp < cmValue[i].timestamp {
        newest := cmValue[i];
      }
    }
    assert cmValue[..|cmValue|] == cmValue;
  }

  /** `decodeMetrics`: classify the container, then collect its standard, labeled and
      custom metric values from its first sample. */
  method DecodeMetrics(src: Source, c: ContainerInfo, env: Env) returns (r: Decoded)
    ensures r == DecodeSpec(src, c, env)
  {
    if |c.stats| == 0 {
      return NoStats;
    }
    var classified := ClassifyContainer(src, c, env);
    if classified.None? {
      return Panicked;
    }
    var (key, labels) := classified.value;
    var stats := c.stats[0];
    var values := CollectStandard(env.standard, c.spec, stats);
    var labeled := CollectLabeled(env.labeled, c.spec, stats);
    if c.spec.hasCustomMetrics {
      values := AddCustomMetrics(c.spec.customMetrics, stats, values);
    }
    r := Decoded(key, MetricSet(c.spec.creationTime, stats.timestamp, values, labels, labeled));
  }

  /** The first part of `decodeMetrics`: the key and labels of the container, as the node,
      a system container or a Kubernetes container; `None` where slicing the cgroup
      name panics. */
  method ClassifyContainer(src: Source, c: ContainerInfo, env: Env) returns (r: Option<(string, map<string, string>)>)
    ensures r == Classify(src, c, env)
  {
    var labels := SourceLabels(src);
    if env.isNode(c) {
      return Some((NodeKey(src.nodename), labels[LabelMetricSetType := MetricSetTypeNode]));
    }
    var cName := Lookup(c.spec.labels, KubernetesContainerLabel);
    var ns := Lookup(c.spec.labels, KubernetesPodNamespaceLabel);
    var podName := Lookup(c.spec.labels, KubernetesPodNameLabel);
    if ns == "" && '/' in podName {
      var tokens := SplitFirst(podName, '/');
      ns, podName := tokens.value.0, tokens.value.1;
    }
    if cName == "" {
      var pos := ByteIndexOf(c.name, '.');
      if pos >= 0 {
        if pos < 4 {
          return None;
        }
        cName := ByteSlice(c.name, 4, pos);
      }
      assert CgroupContainerName(c.name) == Some(cName);
    }
    assert KubernetesIdentity(c) == Some(Identity(cName, ns, podName));
    if cName == "" || ns == "" || podName == "" {
      r := Some(HandleSystemContainer(src, c.name, labels));
    } else {
      r := Some(HandleKubernetesContainer(cName, ns, podName, c.spec, labels));
    }
  }

  /** The loop of `decodeMetrics` over the standard metrics. */
  method CollectStandard(table: seq<StandardMetric>, spec: ContainerSpec, stats: ContainerStats)
    returns (values: map<string, MetricValue>)
    ensures values == StandardValues(table, spec, stats)
  {
    values := map[];
    for i := 0 to |table|
      invariant values == StandardValues(table[..i], spec, stats)
    {
      assert table[..i + 1][..i] == table[..i];
      var metric := table[i];
      if metric.hasValue(spec) {
        values := values[metric.name := metric.getValue(spec, stats)];
      }
    }
    assert table[..|table|] == table;
  }

  /** The loop of `decodeMetrics` over the labeled metrics. */
  method CollectLabeled(table: seq<LabeledMetricSource>, spec: ContainerSpec, stats: ContainerStats)
    returns (labeled: seq<LabeledMetric>)
    ensures labeled == LabeledValues(table, spec, stats)
  {
    labeled := [];
    for i := 0 to |table|
      invariant labeled == LabeledValues(table[..i], spec, stats)
    {
      assert table[..i + 1][..i] == table[..i];
      var metric := table[i];
      if metric.hasLabeledMetric(spec) {
        labeled := labeled + metric.getLabeledMetric(spec, stats);
      }
    }
    assert table[..|table|] == table;
  }

  /** The loop of `decodeMetrics` over the declared custom metrics. */
  method AddCustomMetrics(specs: seq<MetricSpec>, stats: ContainerStats, standard: map<string, MetricValue>)
    returns (values: map<string, MetricValue>)
    ensures values == CustomValues(specs, stats, standard)
  {
    values := standard;
    for i := 0 to |specs|
      invariant values == CustomValues(specs[..i], stats, standard)
    {
      assert specs[..i + 1][..i] == specs[..i];
      var spec := specs[i];
      if spec.name in stats.customMetrics && |stats.customMetrics[spec.name]| >= 1 {
        var newest := Newest(stats.customMetrics[spec.name]);
        var mv := MetricValue(0, 0.0, MetricCumulative, ValueInt64);
        match spec.metricType {
          case Gauge => mv := mv.(metricType := MetricGauge);
          case Cumulative => mv := mv.(metricType := MetricCumulative);
          case OtherType(_) => continue;
        }
        match spec.format {
          case IntType => mv := mv.(valueType := ValueInt64, intValue := newest.intValue);
          case FloatType => mv := mv.(valueType := ValueFloat, floatValue := newest.floatValue);
          case OtherFormat(_) => continue;
        }
        values := values[CustomMetricPrefix + spec.name := mv];
      }
    }
    assert specs[..|specs|] == specs;
  }

  // ---------------------------------------------------------------------------
  // Properties of decoding
  // ---------------------------------------------------------------------------

  /** A container without samples decodes to nothing. */
  lemma NoStatsDecodesToNothing(src: Source, c: ContainerInfo, env: Env)
    requires |c.stats| == 0
    ensures DecodeSpec(src, c, env) == NoStats
  {
  }

  /** Every decoded metric set carries the node name, host name and host id of its
      source, and its creation and scrape times come from the container record. */
  lemma DecodedKeepsSourceLabels(src: Source, c: ContainerInfo, env: Env)
    requires DecodeSpec(src, c, env).Decoded?
    ensures var ms := DecodeSpec(src, c, env).ms;
      && Lookup(ms.labels, LabelNodename) == src.nodename
      && Lookup(ms.labels, LabelHostname) == src.hostname
      && Lookup(ms.labels, LabelHostID) == src.hostId
      && ms.createTime == c.spec.creationTime && ms.scrapeTime == c.stats[0].timestamp
  {
    var d := DecodeSpec(src, c, env);
    assert Classify(src, c, env).Some? && d.ms.labels == Classify(src, c, env).value.1;
    ClassifyKeepsSourceLabels(src, c, env);
  }

  lemma ClassifyKeepsSourceLabels(src: Source, c: ContainerInfo, env: Env)
    requires Classify(src, c, env).Some?
    ensures var labels := Classify(src, c, env).value.1;
      && Lookup(labels, LabelNodename) == src.nodename
      && Lookup(labels, LabelHostname) == src.hostname
      && Lookup(labels, LabelHostID) == src.hostId
  {
    ClassifyWritesOnly(src, c, env);
    SourceLabelsKept(src, Classify(src, c, env).value.1);
  }

  /** Labels that keep every source label outside `ClassifiedLabels` keep the node name,
      host name and host id of the source. */
  lemma SourceLabelsKept(src: Source, labels: map<string, string>)
    requires forall k :: k in SourceLabels(src) && k !in ClassifiedLabels ==> k in labels && labels[k] == SourceLabels(src)[k]
    ensures Lookup(labels, LabelNodename) == src.nodename
    ensures Lookup(labels, LabelHostname) == src.hostname
    ensures Lookup(labels, LabelHostID) == src.hostId
  {
    assert LabelNodename !in ClassifiedLabels && LabelHostname !in ClassifiedLabels && LabelHostID !in ClassifiedLabels;
    assert SourceLabels(src)[LabelNodename] == src.nodename;
    assert SourceLabels(src)[LabelHostname] == src.hostname;
    assert SourceLabels(src)[LabelHostID] == src.hostId;
  }

  /** The labels classification may write. */
  const ClassifiedLabels: set<string> :=
    {LabelMetricSetType, LabelContainerName, LabelContainerBaseImage, LabelPodId, LabelPodName, LabelNamespaceName}

  /** Classification only writes the type, container, image and pod labels over the
      source labels. */
  lemma ClassifyWritesOnly(src: Source, c: ContainerInfo, env: Env)
    requires Classify(src, c, env).Some?
    ensures forall k :: k in SourceLabels(src) && k !in ClassifiedLabels ==>
      k in Classify(src, c, env).value.1 && Classify(src, c, env).value.1[k] == SourceLabels(src)[k]
  {
  }

  /** The node's own container is keyed `node:<nodename>` and typed `node`. */
  lemma NodeContainerKeyed(src: Source, c: ContainerInfo, env: Env)
    requires |c.stats| > 0 && env.isNode(c)
    ensures DecodeSpec(src, c, env).Decoded?
    ensures DecodeSpec(src, c, env).key == "node:" + src.nodename
    ensures Lookup(DecodeSpec(src, c, env).ms.labels, LabelMetricSetType) == "node"
  {
  }

  /** Kubernetes 1.0: with no namespace label, a pod name `<ns>/<pod>` is split at its
      first `/`. */
  lemma LegacyPodNameSplit(c: ContainerInfo, ns: string, pod: string)
    requires Lookup(c.spec.labels, KubernetesPodNamespaceLabel) == ""
    requires Lookup(c.spec.labels, KubernetesPodNameLabel) == ns + "/" + pod
    requires '/' !in ns
    ensures KubernetesIdentity(c).Some? ==>
      KubernetesIdentity(c).value.ns == ns && KubernetesIdentity(c).value.podName == pod
  {
    SplitFirstUnique(ns, '/', pod);
  }

  /** With a namespace label, or a pod name without `/`, the labels are used as they are. */
  lemma PodNameKeptOtherwise(c: ContainerInfo)
    requires Lookup(c.spec.labels, KubernetesPodNamespaceLabel) != ""
             || '/' !in Lookup(c.spec.labels, KubernetesPodNameLabel)
    ensures KubernetesIdentity(c).Some? ==>
      KubernetesIdentity(c).value.ns == Lookup(c.spec.labels, KubernetesPodNamespaceLabel)
      && KubernetesIdentity(c).value.podName == Lookup(c.spec.labels, KubernetesPodNameLabel)
  {
  }

  /** Without a container label, a cgroup name `k8s_<name>.<rest>` gives the container
      name `<name>`, whatever characters `<name>` holds. */
  lemma ContainerNameFromCgroupName(c: ContainerInfo, name: string, rest: string)
    requires Lookup(c.spec.labels, KubernetesContainerLabel) == ""
    requires c.name == "k8s_" + name + "." + rest && '.' !in name
    ensures KubernetesIdentity(c).Some? && KubernetesIdentity(c).value.cName == name
  {
    AsciiByteLength("k8s_");
    CgroupNameAfter("k8s_", name, rest);
  }

  /** The slice of `<p><name>.<rest>` is `<name>` when `<p>` is 4 bytes long and
      neither holds a `.`. */
  lemma CgroupNameAfter(p: string, name: string, rest: string)
    requires ByteLength(p) == 4 && '.' !in p + name
    ensures CgroupContainerName(p + name + "." + rest) == Some(name)
  {
    var s := p + name + "." + rest;
    assert s == (p + name) + ['.'] + rest;
    ByteIndexOfSplit(p + name, '.', rest);
    ByteLengthAppend(p, name);
    assert ByteIndexOf(s, '.') == 4 + ByteLength(name);
    assert s == p + name + ("." + rest);
    ByteSliceBetween(p, name, "." + rest);
  }

  /** The cgroup-name fallback slices from byte 4 whatever the name starts with, so a
      name whose first `.` comes before byte 4 makes decoding panic. */
  lemma EarlyDotPanics(src: Source, c: ContainerInfo, env: Env)
    requires |c.stats| > 0 && !env.isNode(c)
    requires Lookup(c.spec.labels, KubernetesContainerLabel) == ""
    requires 0 <= ByteIndexOf(c.name, '.') < 4
    ensures DecodeSpec(src, c, env) == Panicked
  {
  }

  /** For example the cgroup `/a.b`. */
  lemma EarlyDotExample(src: Source, spec: ContainerSpec, stats: ContainerStats, env: Env)
    requires KubernetesContainerLabel !in spec.labels
    requires !env.isNode(ContainerInfo("/a.b", spec, [stats]))
    ensures DecodeSpec(src, ContainerInfo("/a.b", spec, [stats]), env) == Panicked
  {
    AsciiByteLength("/a");
    assert "/a.b" == "/a" + ['.'] + "b";
    ByteIndexOfSplit("/a", '.', "b");
  }

  /** Positions are bytes: in `€a.b` the `.` is at byte 4 (the euro sign takes three), so
      the slice is empty and the container is a system container, without a panic. */
  lemma MultiByteEarlyDot(src: Source, spec: ContainerSpec, stats: ContainerStats, env: Env)
    requires KubernetesContainerLabel !in spec.labels
    requires !env.isNode(ContainerInfo("\U{20AC}a.b", spec, [stats]))
    ensures DecodeSpec(src, ContainerInfo("\U{20AC}a.b", spec, [stats]), env).Decoded?
    ensures DecodeSpec(src, ContainerInfo("\U{20AC}a.b", spec, [stats]), env).key ==
      "node:" + src.nodename + "/container:\U{20AC}a.b"
  {
    var c := ContainerInfo("\U{20AC}a.b", spec, [stats]);
    EuroNameSlicesEmpty();
    assert KubernetesIdentity(c).value.cName == "";
    SystemContainerKeyed(src, c, env);
    assert c.name[0] != '/';
  }

  lemma EuroNameSlicesEmpty()
    ensures CgroupContainerName("\U{20AC}a.b") == Some("")
  {
    var p := "\U{20AC}a";
    assert ByteLength(p) == 4 by {
      assert p[1..] == "a" && "a"[1..] == "";
    }
    assert "\U{20AC}a.b" == p + "" + "." + "b";
    CgroupNameAfter(p, "", "b");
  }

  /** In `ü8s_x.y` the first four bytes are `ü8s`, so the container name is `_x`. */
  lemma MultiBytePrefix()
    ensures CgroupContainerName("\U{FC}8s_x.y") == Some("_x")
  {
    var p := "\U{FC}8s";
    assert ByteLength(p) == 4 by {
      assert p[1..] == "8s" && "8s"[1..] == "s" && "s"[1..] == "";
    }
    assert "\U{FC}8s_x.y" == p + "_x" + "." + "y";
    CgroupNameAfter(p, "_x", "y");
  }

  /** A container missing its container name, namespace or pod name is a system
      container, keyed under the node by its cgroup name without the leading `/`. */
  lemma SystemContainerKeyed(src: Source, c: ContainerInfo, env: Env)
    requires |c.stats| > 0 && !env.isNode(c) && KubernetesIdentity(c).Some?
    requires var id := KubernetesIdentity(c).value; id.cName == "" || id.ns == "" || id.podName == ""
    ensures DecodeSpec(src, c, env).Decoded?
    ensures DecodeSpec(src, c, env).key == "node:" + src.nodename + "/container:" + SystemContainerName(c.name)
    ensures Lookup(DecodeSpec(src, c, env).ms.labels, LabelMetricSetType) == "sys_container"
    ensures Lookup(DecodeSpec(src, c, env).ms.labels, LabelContainerName) == SystemContainerName(c.name)
  {
  }

  /** A container with complete Kubernetes metadata: the infrastructure container
      `POD` stands for the pod, any other for a container of it; pod id, pod name and
      namespace are recorded either way. */
  lemma KubernetesContainerKeyed(src: Source, c: ContainerInfo, env: Env)
    requires |c.stats| > 0 && !env.isNode(c) && KubernetesIdentity(c).Some?
    requires var id := KubernetesIdentity(c).value; id.cName != "" && id.ns != "" && id.podName != ""
    ensures var id := KubernetesIdentity(c).value;
      var d := DecodeSpec(src, c, env);
      && d.Decoded?
      && (id.cName == "POD" ==>
            d.key == "namespace:" + id.ns + "/pod:" + id.podName
            && Lookup(d.ms.labels, LabelMetricSetType) == "pod"
            && LabelContainerName !in d.ms.labels && LabelContainerBaseImage !in d.ms.labels)
      && (id.cName != "POD" ==>
            d.key == "namespace:" + id.ns + "/pod:" + id.podName + "/container:" + id.cName
            && Lookup(d.ms.labels, LabelMetricSetType) == "pod_container"
            && Lookup(d.ms.labels, LabelContainerName) == id.cName
            && Lookup(d.ms.labels, LabelContainerBaseImage) == c.spec.image)
      && Lookup(d.ms.labels, LabelPodId) == Lookup(c.spec.labels, KubernetesPodUID)
      && Lookup(d.ms.labels, LabelPodName) == id.podName
      && Lookup(d.ms.labels, LabelNamespaceName) == id.ns
  {
  }

  /** Custom metric values are kept only when the container declares custom metrics,
      under `custom/<name>`, and a standard metric with another name is unaffected. */
  lemma CustomMetricsStored(src: Source, c: ContainerInfo, env: Env, k: string)
    requires DecodeSpec(src, c, env).Decoded?
    ensures var values := DecodeSpec(src, c, env).ms.metricValues;
      var standard := StandardValues(env.standard, c.spec, c.stats[0]);
      && (k in values <==>
            k in standard || (c.spec.hasCustomMetrics &&
              exists i :: 0 <= i < |c.spec.customMetrics| && k == CustomMetricPrefix + c.spec.customMetrics[i].name
                          && CustomValue(c.spec.customMetrics[i], c.stats[0]).Some?))
      && ((k in standard && forall i :: 0 <= i < |c.spec.customMetrics| ==> k != CustomMetricPrefix + c.spec.customMetrics[i].name)
          ==> values[k] == standard[k])
  {
    CustomValuesKeys(c.spec.customMetrics, c.stats[0], StandardValues(env.standard, c.spec, c.stats[0]), k);
  }

  // ---------------------------------------------------------------------------
  // ScrapeMetrics
  // ---------------------------------------------------------------------------

  /** `decodeMetrics` as the scrape loop applies it to each container. */
  function Decoder(src: Source, env: Env): (r: ContainerInfo -> Decoded) {
    c => DecodeSpec(src, c, env)
  }

  /** The metric-set map built from the containers in order with `decode`, or `None`
      when decoding one of them panics. */
  function ScrapeSpec(cs: seq<ContainerInfo>, decode: ContainerInfo -> Decoded): (r: Option<map<string, MetricSet>>) {
    if |cs| == 0 then Some(map[])
    else
      match ScrapeSpec(cs[..|cs| - 1], decode)
      case None => None
      case Some(m) =>
        match decode(cs[|cs| - 1])
        case NoStats => Some(m)
        case Panicked => None
        case Decoded(key, ms) => if key == "" then Some(m) else Some(m[key := ms])
  }

  /** `ScrapeMetrics` over the containers the kubelet returned (none when the request
      failed); `null` stands for the panic of a decode. */
  method ScrapeMetrics(src: Source, containers: seq<ContainerInfo>, env: Env, end: int) returns (result: DataBatch?)
    ensures result == null <==> ScrapeSpec(containers, Decoder(src, env)).None?
    ensures result != null ==>
      fresh(result) && result.timestamp == end && result.metricSets == ScrapeSpec(containers, Decoder(src, env)).value
  {
    var metricSets: map<string, MetricSet> := map[];
    for i := 0 to |containers|
      invariant ScrapeSpec(containers[..i], Decoder(src, env)) == Some(metricSets)
    {
      assert containers[..i + 1][..i] == containers[..i];
      var d := DecodeMetrics(src, containers[i], env);
      assert d == Decoder(src, env)(containers[i]);
      if d.Panicked? {
        ScrapePanicSticks(containers, Decoder(src, env), i + 1);
        return null;
      }
      if d.NoStats? || d.key == "" {
        continue;
      }
      metricSets := metricSets[d.key := d.ms];
    }
    assert containers[..|containers|] == containers;
    result := new DataBatch(end, metricSets);
  }

  lemma {:induction false} ScrapePanicSticks(cs: seq<ContainerInfo>, decode: ContainerInfo -> Decoded, n: nat)
    requires n <= |cs| && ScrapeSpec(cs[..n], decode).None?
    ensures ScrapeSpec(cs, decode).None?
  {
    if n < |cs| {
      assert cs[..|cs| - 1][..n] == cs[..n];
      ScrapePanicSticks(cs[..|cs| - 1], decode, n);
    } else {
      assert cs[..n] == cs;
    }
  }

  /** The scrape fails exactly when decoding some container panics. */
  lemma {:induction false} ScrapeFailsOnlyOnPanic(cs: seq<ContainerInfo>, decode: ContainerInfo -> Decoded)
    ensures ScrapeSpec(cs, decode).None? <==> exists i :: 0 <= i < |cs| && decode(cs[i]).Panicked?
  {
    if |cs| > 0 {
      var p := cs[..|cs| - 1];
      ScrapeFailsOnlyOnPanic(p, decode);
      assert forall i :: 0 <= i < |p| ==> p[i] == cs[i];
    }
  }

  /** Each key holds the metric set of the last container decoding to it. */
  lemma {:induction false} ScrapeLastWins(cs: seq<ContainerInfo>, decode: ContainerInfo -> Decoded, i: nat)
    requires ScrapeSpec(cs, decode).Some?
    requires i < |cs| && decode(cs[i]).Decoded? && decode(cs[i]).key != ""
    requires forall j :: i < j < |cs| ==> !(decode(cs[j]).Decoded? && decode(cs[j]).key == decode(cs[i]).key)
    ensures decode(cs[i]).key in ScrapeSpec(cs, decode).value
    ensures ScrapeSpec(cs, decode).value[decode(cs[i]).key] == decode(cs[i]).ms
  {
    var p := cs[..|cs| - 1];
    if i < |cs| - 1 {
      assert p[i] == cs[i];
      assert forall j :: i < j < |p| ==> p[j] == cs[j];
      ScrapeLastWins(p, decode, i);
    }
  }

  /** Only keys of decoded containers appear; containers without samples add nothing. */
  lemma {:induction false} ScrapeKeysDecoded(cs: seq<ContainerInfo>, decode: ContainerInfo -> Decoded, k: string)
    requires ScrapeSpec(cs, decode).Some? && k in ScrapeSpec(cs, decode).value
    ensures k != ""
    ensures exists i :: 0 <= i < |cs| && decode(cs[i]).Decoded? && decode(cs[i]).key == k
  {
    var p := cs[..|cs| - 1];
    if ScrapeSpec(p, decode).Some? && k in ScrapeSpec(p, decode).value {
      ScrapeKeysDecoded(p, decode, k);
      var i :| 0 <= i < |p| && decode(p[i]).Decoded? && decode(p[i]).key == k;
      assert p[i] == cs[i];
    }
  }

  // ---------------------------------------------------------------------------
  // getNodeHostnameAndIP
  // ---------------------------------------------------------------------------

  datatype NodeCondition = NodeCondition(condType: string, status: string)
  datatype NodeAddress = NodeAddress(addrType: string, address: string)
  datatype Node = Node(name: string, conditions: seq<NodeCondition>, addresses: seq<NodeAddress>)

  const NodeReady := "Ready"
  const ConditionTrue := "True"
  const NodeHostName := "Hostname"
  const NodeInternalIP := "InternalIP"

  datatype NodeError =
    | NodeNotReady(node: string)                       // "Node %v is not ready"
    | NoValidAddress(node: string, hostname: string)   // "Node %v has no valid hostname and/or IP address"

  predicate NotReady(c: NodeCondition) {
    c.condType == NodeReady && c.status != ConditionTrue
  }

  predicate IsHostnameAddr(a: NodeAddress) {
    a.addrType == NodeHostName && a.address != ""
  }

  /** `isIPv4` is `net.ParseIP(address).To4() != nil`. */
  predicate IsInternalIPv4(a: NodeAddress, isIPv4: string -> bool) {
    a.addrType == NodeInternalIP && a.address != "" && isIPv4(a.address)
  }

  /** The last non-empty host name address, or `default`. */
  function LastHostname(addrs: seq<NodeAddress>, default: string): (r: string) {
    if |addrs| == 0 then default
    else if IsHostnameAddr(addrs[|addrs| - 1]) then addrs[|addrs| - 1].address
    else LastHostname(addrs[..|addrs| - 1], default)
  }

  /** The last internal IPv4 address, or "". */
  function LastInternalIPv4(addrs: seq<NodeAddress>, isIPv4: string -> bool): (r: string) {
    if |addrs| == 0 then ""
    else if IsInternalIPv4(addrs[|addrs| - 1], isIPv4) then addrs[|addrs| - 1].address
    else LastInternalIPv4(addrs[..|addrs| - 1], isIPv4)
  }

  lemma {:induction false} LastHostnameIsLast(addrs: seq<NodeAddress>, default: string)
    ensures (forall i :: 0 <= i < |addrs| ==> !IsHostnameAddr(addrs[i])) ==> LastHostname(addrs, default) == default
    ensures (exists i :: 0 <= i < |addrs| && IsHostnameAddr(addrs[i])) ==>
      exists i :: 0 <= i < |addrs| && IsHostnameAddr(addrs[i]) && LastHostname(addrs, default) == addrs[i].address
                  && forall j :: i < j < |addrs| ==> !IsHostnameAddr(addrs[j])
  {
    if |addrs| > 0 && !IsHostnameAddr(addrs[|addrs| - 1]) {
      var p := addrs[..|addrs| - 1];
      LastHostnameIsLast(p, default);
      assert forall i :: 0 <= i < |p| ==> p[i] == addrs[i];
    }
  }

  lemma LastInternalIPv4IsLast(addrs: seq<NodeAddress>, isIPv4: string -> bool)
    ensures LastInternalIPv4(addrs, isIPv4) == "" <==> forall i :: 0 <= i < |addrs| ==> !IsInternalIPv4(addrs[i], isIPv4)
    ensures LastInternalIPv4(addrs, isIPv4) != "" ==>
      exists i :: 0 <= i < |addrs| && IsInternalIPv4(addrs[i], isIPv4) && LastInternalIPv4(addrs, isIPv4) == addrs[i].address
                  && forall j :: i < j < |addrs| ==> !IsInternalIPv4(addrs[j], isIPv4)
  {
    LastInternalIPv4Found(addrs, isIPv4);
    if exists i :: 0 <= i < |addrs| && IsInternalIPv4(addrs[i], isIPv4) {
      var i :| 0 <= i < |addrs| && IsInternalIPv4(addrs[i], isIPv4) && LastInternalIPv4(addrs, isIPv4) == addrs[i].address
               && forall j :: i < j < |addrs| ==> !IsInternalIPv4(addrs[j], isIPv4);
      assert LastInternalIPv4(addrs, isIPv4) != "";
    }
  }

  lemma {:induction false} LastInternalIPv4Found(addrs: seq<NodeAddress>, isIPv4: string -> bool)
    ensures (forall i :: 0 <= i < |addrs| ==> !IsInternalIPv4(addrs[i], isIPv4)) ==> LastInternalIPv4(addrs, isIPv4) == ""
    ensures (exists i :: 0 <= i < |addrs| && IsInternalIPv4(addrs[i], isIPv4)) ==>
      exists i :: 0 <= i < |addrs| && IsInternalIPv4(addrs[i], isIPv4) && LastInternalIPv4(addrs, isIPv4) == addrs[i].address
                  && forall j :: i < j < |addrs| ==> !IsInternalIPv4(addrs[j], isIPv4)
  {
    if |addrs| > 0 && !IsInternalIPv4(addrs[|addrs| - 1], isIPv4) {
      var p := addrs[..|addrs| - 1];
      LastInternalIPv4Found(p, isIPv4);
      assert forall i :: 0 <= i < |p| ==> p[i] == addrs[i];
    }
  }

  /** `getNodeHostnameAndIP`: refuse a node whose Ready condition is not True; otherwise
      the last non-empty host name (else the node name) and the last internal IPv4
      address, which must exist. */
  method GetNodeHostnameAndIP(node: Node, isIPv4: string -> bool) returns (r: Result<(string, string), NodeError>)
    ensures (exists i :: 0 <= i < |node.conditions| && NotReady(node.conditions[i])) ==> r == Err(NodeNotReady(node.name))
    ensures (forall i :: 0 <= i < |node.conditions| ==> !NotReady(node.conditions[i])) ==>
      var hostname := LastHostname(node.addresses, node.name);
      var ip := LastInternalIPv4(node.addresses, isIPv4);
      r == if ip != "" then Ok((hostname, ip)) else Err(NoValidAddress(node.name, hostname))
  {
    for i := 0 to |node.conditions|
      invariant forall k :: 0 <= k < i ==> !NotReady(node.conditions[k])
    {
      var c := node.conditions[i];
      if c.condType == NodeReady && c.status != ConditionTrue {
        return Err(NodeNotReady(node.name));
      }
    }
    var hostname, ip := node.name, "";
    var addrs := node.addresses;
    for i := 0 to |addrs|
      invariant hostname == LastHostname(addrs[..i], node.name)
      invariant ip == LastInternalIPv4(addrs[..i], isIPv4)
    {
      assert addrs[..i + 1][..i] == addrs[..i];
      var addr := addrs[i];
      if addr.addrType == NodeHostName && addr.address != "" {
        hostname := addr.address;
      }
      if addr.addrType == NodeInternalIP && addr.address != "" {
        if isIPv4(addr.address) {
          ip := addr.address;
        }
      }
    }
    assert addrs[..|addrs|] == addrs;
    if ip != "" {
      return Ok((hostname, ip));
    }
    return Err(NoValidAddress(node.name, hostname));
  }
}
