/** The fields of a Knative networking `v1alpha1.Ingress` that route.go reads. */
module Networking {
  import opened Wrappers
  import opened GoMaps

  /** `networking.IngressLabelKey`, the label naming the owning ingress. */
  const IngressLabelKey := "networking.internal.knative.dev/ingress"

  datatype IngressVisibility = ExternalIP | ClusterLocal

  /** A whole number of seconds a `time.Duration` (an int64 count of nanoseconds)
      can hold. */
  type WholeSeconds = n: nat | n <= MaxWholeSeconds

  const MaxWholeSeconds: nat := 9223372036

  /** One HTTP path; its deprecated timeout in whole seconds, when set. */
  datatype HTTPIngressPath = HTTPIngressPath(deprecatedTimeout: Option<WholeSeconds>)

  datatype HTTPIngressRuleValue = HTTPIngressRuleValue(paths: seq<HTTPIngressPath>)

  /** A rule: its hosts, its visibility and its optional (`nil`-able) HTTP block. */
  datatype IngressRule = IngressRule(
    hosts: seq<string>,
    visibility: IngressVisibility,
    http: Option<HTTPIngressRuleValue>)

  datatype LoadBalancerIngressStatus = LoadBalancerIngressStatus(domainInternal: string)

  datatype LoadBalancerStatus = LoadBalancerStatus(ingress: seq<LoadBalancerIngressStatus>)

  /** The ingress. Its annotations are a Go map held by reference (`null` for a nil
      map); labels are only read, so they are a value. `publicLoadBalancer` is
      `Status.PublicLoadBalancer`, `None` when that pointer is nil. */
  datatype Ingress = Ingress(
    name: string,
    uid: string,
    labels: map<string, string>,
    annotations: StringMap?,
    rules: seq<IngressRule>,
    publicLoadBalancer: Option<LoadBalancerStatus>)
}
