/** Kubernetes services, as far as the service controller looks at them. */
module Services {
  import opened Wrappers
  import opened PublicIPAddresses

  const IGNORE_ANNOTATION := "azure.remedy.gardener.cloud/ignore"

  /** A pointer to a time. Pointers are compared by address, and an address determines the time. */
  datatype TimePointer = TimePointer(address: nat, time: int)

  datatype Key = Key(namespace: string, name: string)

  /** `ingress` are the IPs of the load-balancer ingresses, empty for those that have a host name. */
  datatype Service = Service(
    annotations: map<string, string>,
    ingress: seq<string>,
    deletionTimestamp: Option<TimePointer>,
    finalizer: bool,
    otherFinalizers: bool)

  function LoadBalancerIPs(svc: Service): set<string> {
    set ip | ip in svc.ingress && ip != ""
  }

  predicate ShouldIgnore(svc: Service) {
    Get(svc.annotations, IGNORE_ANNOTATION) == "true"
  }

  predicate ShouldFinalize(svc: Service) {
    LoadBalancerIPs(svc) != {} && !ShouldIgnore(svc)
  }

  method GetServiceLoadBalancerIPs(svc: Service) returns (ips: set<string>)
    ensures ips == LoadBalancerIPs(svc)
  {
    ips := {};
    for i := 0 to |svc.ingress|
      invariant ips == set ip | ip in svc.ingress[..i] && ip != ""
    {
      if svc.ingress[i] != "" {
        ips := ips + {svc.ingress[i]};
      }
    }
  }

  // ----- What users see -----

  /** The load balancer of the service has this IP. */
  predicate HasIP(svc: Service, ip: string) {
    ip != "" && ip in svc.ingress
  }

  /** The user has set the ignore annotation to true. */
  predicate Ignored(svc: Service) {
    var key := "azure.remedy.gardener.cloud/ignore";
    key in svc.annotations && svc.annotations[key] == "true"
  }
}
