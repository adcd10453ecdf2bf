/** The data model of metrics-server's `metrics/core` package as the kubelet source and
    the pod-based enricher use it: metric sets keyed by a string naming the node, pod
    or container they describe, gathered into a batch. The package itself is not part
    of this model; its label names, type names and key formats are the ones its tests
    spell out. */
module Core {

  // Label keys of a metric set.
  const LabelMetricSetType := "type"
  const LabelContainerName := "container_name"
  const LabelContainerBaseImage := "container_base_image"
  const LabelNodename := "nodename"
  const LabelHostname := "hostname"
  const LabelHostID := "host_id"
  const LabelPodId := "pod_id"
  const LabelPodName := "pod_name"
  const LabelNamespaceName := "namespace_name"
  const LabelLabels := "labels"

  // Values of the `type` label.
  const MetricSetTypeNode := "node"
  const MetricSetTypePod := "pod"
  const MetricSetTypePodContainer := "pod_container"
  const MetricSetTypeSystemContainer := "sys_container"

  /** Custom metrics reported by a container are stored under this prefix. */
  const CustomMetricPrefix := "custom/"

  // Names of the request and limit metrics the enricher fills in.
  const MetricCpuRequest := "cpu/request"
  const MetricMemoryRequest := "memory/request"
  const MetricCpuLimit := "cpu/limit"
  const MetricMemoryLimit := "memory/limit"

  datatype MetricType = MetricCumulative | MetricGauge | MetricDelta

  datatype ValueType = ValueInt64 | ValueFloat

  /** One metric value; `floatValue` stands for the float32 of the source, unrounded. */
  datatype MetricValue = MetricValue(intValue: int, floatValue: real, metricType: MetricType, valueType: ValueType)

  datatype LabeledMetric = LabeledMetric(name: string, labels: map<string, string>, value: MetricValue)

  /** The metrics of one node, pod or container at one scrape. */
  datatype MetricSet = MetricSet(
    createTime: int,
    scrapeTime: int,
    metricValues: map<string, MetricValue>,
    labels: map<string, string>,
    labeledMetrics: seq<LabeledMetric>)

  /** Go's `m[k]` on a map of strings: the empty string when `k` is absent. */
  function Lookup(m: map<string, string>, k: string): (r: string) {
    if k in m then m[k] else ""
  }

  function NodeKey(node: string): (r: string) {
    "node:" + node
  }

  function NodeContainerKey(node: string, container: string): (r: string) {
    NodeKey(node) + "/container:" + container
  }

  function PodKey(namespace: string, pod: string): (r: string) {
    "namespace:" + namespace + "/pod:" + pod
  }

  function PodContainerKey(namespace: string, pod: string, container: string): (r: string) {
    PodKey(namespace, pod) + "/container:" + container
  }

  /** The metric sets of one scrape, keyed as above. The enricher rewrites the map of
      the batch it is given. */
  class DataBatch {
    var timestamp: int
    var metricSets: map<string, MetricSet>

    constructor (timestamp: int, metricSets: map<string, MetricSet>)
      ensures this.timestamp == timestamp && this.metricSets == metricSets
    {
      this.timestamp := timestamp;
      this.metricSets := metricSets;
    }
  }
}
