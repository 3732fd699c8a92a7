/** The fields of an OpenShift `route/v1.Route` that route.go sets. */
module RouteV1 {
  import opened GoMaps

  datatype TLSTerminationType = TLSTerminationEdge | TLSTerminationPassthrough | TLSTerminationReencrypt

  datatype InsecureEdgeTerminationPolicyType =
    | InsecureEdgeTerminationPolicyNone
    | InsecureEdgeTerminationPolicyAllow
    | InsecureEdgeTerminationPolicyRedirect

  datatype WildcardPolicyType = WildcardPolicyNone | WildcardPolicySubdomain

  datatype TLSConfig = TLSConfig(
    termination: TLSTerminationType,
    insecureEdgeTerminationPolicy: InsecureEdgeTerminationPolicyType)

  datatype RouteTargetReference = RouteTargetReference(kind: string, name: string, weight: int)

  /** A route. `annotations` is the Go map the route was built with, by reference;
      `targetPort` is the named port of `Spec.Port.TargetPort`. */
  datatype Route = Route(
    name: string,
    namespace: string,
    labels: map<string, string>,
    annotations: StringMap,
    host: string,
    targetPort: string,
    to: RouteTargetReference,
    tls: TLSConfig,
    wildcardPolicy: WildcardPolicyType)
}
