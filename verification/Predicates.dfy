/** The event predicates of the service controller and of the node controller. */
module Predicates {
  import opened Wrappers
  import opened Services
  import opened EventFilters

  // ----- Services -----

  datatype ServiceProjection = ServiceProjection(
    deletionTimestamp: Option<TimePointer>,
    shouldIgnore: bool,
    ips: set<string>)

  function ProjectService(svc: Service): ServiceProjection {
    ServiceProjection(svc.deletionTimestamp, ShouldIgnore(svc), LoadBalancerIPs(svc))
  }

  /** What matters of a service: its IPs, and if it has any also its deletion and its ignore annotation. */
  predicate SameService(p: ServiceProjection, q: ServiceProjection) {
    && p.ips == q.ips
    && (p.ips != {} ==> p.deletionTimestamp == q.deletionTimestamp && p.shouldIgnore == q.shouldIgnore)
  }

  function SameServices(): (ServiceProjection, ServiceProjection) -> bool {
    (p: ServiceProjection, q: ServiceProjection) => SameService(p, q)
  }

  /** Cache entries are kept under the name of a service, without its namespace. */
  function ServiceCacheKey(): Key -> string {
    (k: Key) => k.name
  }

  /** Objects are None in an event that has none, or one of another type. */
  class ServicePredicate {
    var serviceCache: map<string, ServiceProjection>

    constructor ()
      ensures serviceCache == map[]
    {
      serviceCache := map[];
    }

    method Create(key: Key, service: Option<Service>) returns (result: bool)
      modifies this
      ensures result == service.Some?
      ensures serviceCache == if service.None? then old(serviceCache) else
        CacheAfter(ServiceCacheKey(), SameServices(), old(serviceCache), EventFilters.Create(key, ProjectService(service.value)))
    {
      if service.None? {
        return false;
      }
      var ips := GetServiceLoadBalancerIPs(service.value);
      serviceCache := serviceCache[key.name := ServiceProjection(service.value.deletionTimestamp, ShouldIgnore(service.value), ips)];
      result := true;
    }

    method Update(key: Key, oldService: Option<Service>, newService: Option<Service>) returns (result: bool)
      modifies this
      ensures oldService.Some? && newService.Some? ==>
        var p, q := ProjectService(oldService.value), ProjectService(newService.value);
        && result == Passes(SameServices(), Lookup(old(serviceCache), key.name), p, q)
        && serviceCache == CacheAfter(ServiceCacheKey(), SameServices(), old(serviceCache), EventFilters.Update(key, p, q))
      ensures oldService.None? || newService.None? ==> !result && serviceCache == old(serviceCache)
    {
      if oldService.None? || newService.None? {
        return false;
      }
      result := Relevant(key, oldService.value, newService.value);
      if result {
        var ips := GetServiceLoadBalancerIPs(newService.value);
        serviceCache := serviceCache[key.name := ServiceProjection(newService.value.deletionTimestamp, ShouldIgnore(newService.value), ips)];
      }
    }

    /** The comparisons of Update, before the cache is written. */
    method Relevant(key: Key, oldService: Service, newService: Service) returns (result: bool)
      ensures result == Passes(SameServices(), Lookup(serviceCache, key.name), ProjectService(oldService), ProjectService(newService))
    {
      if key.name !in serviceCache {
        return true;
      }
      var cached := serviceCache[key.name];
      var oldIPs := GetServiceLoadBalancerIPs(oldService);
      var newIPs := GetServiceLoadBalancerIPs(newService);
      if newIPs != {} && (newService.deletionTimestamp != oldService.deletionTimestamp
                          || newService.deletionTimestamp != cached.deletionTimestamp) {
        return true;
      }
      if newIPs != {} && (ShouldIgnore(newService) != ShouldIgnore(oldService)
                          || ShouldIgnore(newService) != cached.shouldIgnore) {
        return true;
      }
      if newIPs != oldIPs || newIPs != cached.ips {
        return true;
      }
      result := false;
    }

    method Delete(key: Key, service: Option<Service>) returns (result: bool)
      modifies this
      ensures result == service.Some?
      ensures serviceCache == if service.None? then old(serviceCache) else
        CacheAfter(ServiceCacheKey(), SameServices(), old(serviceCache), EventFilters.Delete(key))
    {
      if service.None? {
        return false;
      }
      serviceCache := serviceCache - {key.name};
      result := true;
    }
  }

  /** Whatever the namespaces and the expiry: if the old object of every update is the last seen one, the
      last delivered state of every service has the IPs of the last seen one, and if there are any also
      its deletion time and its ignore annotation. */
  lemma NoServiceChangeLost(events: seq<Event<Key, ServiceProjection>>, cache: map<string, ServiceProjection>, k: Key)
    requires OldAlwaysLastSeen(ServiceCacheKey(), SameServices(), State(cache, map[], map[]), events)
    requires k in Run(ServiceCacheKey(), SameServices(), State(cache, map[], map[]), events).seen
    ensures var s := Run(ServiceCacheKey(), SameServices(), State(cache, map[], map[]), events);
      && k in s.delivered
      && s.delivered[k].ips == s.seen[k].ips
      && (s.seen[k].ips != {} ==>
        && s.delivered[k].shouldIgnore == s.seen[k].shouldIgnore
        && s.delivered[k].deletionTimestamp == s.seen[k].deletionTimestamp)
  {
  }

  /** The same for any old objects, if no two services in the events share a name. */
  lemma NoServiceChangeLostWithOwnNames(events: seq<Event<Key, ServiceProjection>>, k: Key)
    requires OwnKeys(ServiceCacheKey(), events)
    requires k in Run(ServiceCacheKey(), SameServices(), State(map[], map[], map[]), events).seen
    ensures var s := Run(ServiceCacheKey(), SameServices(), State(map[], map[], map[]), events);
      && k in s.delivered
      && s.delivered[k].ips == s.seen[k].ips
      && (s.seen[k].ips != {} ==>
        && s.delivered[k].shouldIgnore == s.seen[k].shouldIgnore
        && s.delivered[k].deletionTimestamp == s.seen[k].deletionTimestamp)
  {
    var s: State<Key, ServiceProjection> := State(map[], map[], map[]);
    NothingLostWithOwnKeys(ServiceCacheKey(), SameServices(), events);
    assert SameServices()(Run(ServiceCacheKey(), SameServices(), s, events).delivered[k],
                          Run(ServiceCacheKey(), SameServices(), s, events).seen[k]);
  }

  /** Without true old objects the names alone are not enough: two services of one name in different
      namespaces, the second with the IPs that the first is about to get. */
  lemma ServiceChangeLostWithSharedName(first: string, second: string, name: string, before: Service, after: Service)
    requires first != second && LoadBalancerIPs(before) != LoadBalancerIPs(after)
    ensures var k := Key(first, name);
      var events := Hidden(k, Key(second, name), ProjectService(before), ProjectService(after));
      var s := Run(ServiceCacheKey(), SameServices(), State(map[], map[], map[]), events);
      && k in s.delivered && k in s.seen
      && s.delivered[k].ips == LoadBalancerIPs(before)
      && s.seen[k].ips == LoadBalancerIPs(after)
  {
    HiddenIsLost(ServiceCacheKey(), SameServices(), Key(first, name), Key(second, name), ProjectService(before), ProjectService(after));
  }

  /** So with any old objects changes of services can be lost, but none of nodes. */
  lemma NamesAreNotEnough()
    ensures !(forall events: seq<Event<Key, ServiceProjection>> ::
      UpToDate(SameServices(), Run(ServiceCacheKey(), SameServices(), State(map[], map[], map[]), events)))
    ensures forall events: seq<Event<string, NodeProjection>> ::
      UpToDate(SameNodes(), Run(NodeCacheKey(), SameNodes(), State(map[], map[], map[]), events))
  {
    var none, some := ServiceProjection(None, false, {}), ServiceProjection(None, false, {""});
    assert "" in some.ips && !SameServices()(none, some);
    NothingLostIff<Key, ServiceProjection>(ServiceCacheKey(), SameServices(), none, some);
    assert ServiceCacheKey()(Key("a", "")) == ServiceCacheKey()(Key("b", ""));
    NothingLostIff<string, NodeProjection>(NodeCacheKey(), SameNodes(), NodeProjection(None, false), NodeProjection(None, true));
  }

  // ----- Nodes -----

  const UNREACHABLE_TAINT := "node.kubernetes.io/unreachable"

  /** `conditions` are pairs of type and status, `taints` the keys of the taints. */
  datatype Node = Node(
    name: string,
    conditions: seq<(string, string)>,
    taints: seq<string>,
    deletionTimestamp: Option<TimePointer>)

  datatype NodeProjection = NodeProjection(deletionTimestamp: Option<TimePointer>, notReadyOrUnreachable: bool)

  /** The first Ready condition decides. */
  predicate Ready(conditions: seq<(string, string)>) {
    conditions != []
    && if conditions[0].0 == "Ready" then conditions[0].1 == "True" else Ready(conditions[1..])
  }

  function ProjectNode(node: Node): NodeProjection {
    NodeProjection(node.deletionTimestamp, !Ready(node.conditions) || UNREACHABLE_TAINT in node.taints)
  }

  function SameNodes(): (NodeProjection, NodeProjection) -> bool {
    (p: NodeProjection, q: NodeProjection) => p == q
  }

  function NodeCacheKey(): string -> string {
    (name: string) => name
  }

  class NodePredicate {
    var nodeCache: map<string, NodeProjection>

    constructor ()
      ensures nodeCache == map[]
    {
      nodeCache := map[];
    }

    method Create(node: Option<Node>) returns (result: bool)
      modifies this
      ensures result == node.Some?
      ensures nodeCache == if node.None? then old(nodeCache) else
        CacheAfter(NodeCacheKey(), SameNodes(), old(nodeCache), EventFilters.Create(node.value.name, ProjectNode(node.value)))
    {
      if node.None? {
        return false;
      }
      nodeCache := nodeCache[node.value.name := ProjectNode(node.value)];
      result := true;
    }

    method Update(oldNode: Option<Node>, newNode: Option<Node>) returns (result: bool)
      modifies this
      ensures oldNode.Some? && newNode.Some? ==>
        var p, q := ProjectNode(oldNode.value), ProjectNode(newNode.value);
        && result == Passes(SameNodes(), Lookup(old(nodeCache), newNode.value.name), p, q)
        && nodeCache == CacheAfter(NodeCacheKey(), SameNodes(), old(nodeCache), EventFilters.Update(newNode.value.name, p, q))
      ensures oldNode.None? || newNode.None? ==> !result && nodeCache == old(nodeCache)
    {
      if oldNode.None? || newNode.None? {
        return false;
      }
      var was, now := ProjectNode(oldNode.value), ProjectNode(newNode.value);
      if newNode.value.name !in nodeCache {
        result := true;
      } else {
        var cached := nodeCache[newNode.value.name];
        if now.deletionTimestamp != was.deletionTimestamp || now.deletionTimestamp != cached.deletionTimestamp {
          result := true;
        } else {
          result := now.notReadyOrUnreachable != was.notReadyOrUnreachable
            || now.notReadyOrUnreachable != cached.notReadyOrUnreachable;
        }
      }
      if result {
        nodeCache := nodeCache[newNode.value.name := now];
      }
    }

    method Delete(node: Option<Node>) returns (result: bool)
      modifies this
      ensures result == node.Some?
      ensures nodeCache == if node.None? then old(nodeCache) else
        CacheAfter(NodeCacheKey(), SameNodes(), old(nodeCache), EventFilters.Delete(node.value.name))
    {
      if node.None? {
        return false;
      }
      nodeCache := nodeCache - {node.value.name};
      result := true;
    }
  }

  /** Nodes have no namespace, so no change of a node is lost, whatever the old objects and the expiry. */
  lemma NoNodeChangeLost(events: seq<Event<string, NodeProjection>>, name: string)
    requires name in Run(NodeCacheKey(), SameNodes(), State(map[], map[], map[]), events).seen
    ensures var s := Run(NodeCacheKey(), SameNodes(), State(map[], map[], map[]), events);
      name in s.delivered && s.delivered[name] == s.seen[name]
  {
    var s: State<string, NodeProjection> := State(map[], map[], map[]);
    NothingLostWithOwnKeys(NodeCacheKey(), SameNodes(), events);
    assert SameNodes()(Run(NodeCacheKey(), SameNodes(), s, events).delivered[name],
                       Run(NodeCacheKey(), SameNodes(), s, events).seen[name]);
  }

  // ----- Changes in plain terms -----

  /** Two services agree if they have the same IPs, and if they have any also the same deletion timestamp
      and the same ignore annotation. */
  ghost predicate ServicesAgree(p: Service, q: Service) {
    && (forall ip :: HasIP(p, ip) <==> HasIP(q, ip))
    && ((exists ip :: HasIP(p, ip)) ==> p.deletionTimestamp == q.deletionTimestamp && (Ignored(p) <==> Ignored(q)))
  }

  lemma SameServiceIff(p: Service, q: Service)
    ensures SameServices()(ProjectService(p), ProjectService(q)) <==> ServicesAgree(p, q)
  {
    HasIPIff(p);
    HasIPIff(q);
    if exists ip :: HasIP(p, ip) {
      var ip :| HasIP(p, ip);
      assert ip in LoadBalancerIPs(p);
    }
    if LoadBalancerIPs(p) != {} {
      var ip :| ip in LoadBalancerIPs(p);
      assert HasIP(p, ip);
    }
  }

  lemma HasIPIff(svc: Service)
    ensures forall ip :: ip in LoadBalancerIPs(svc) <==> HasIP(svc, ip)
  {
  }

  /** An update of a service passes exactly if no service is cached under its name, or it does not agree with
      the old one or with the cached one. */
  lemma ServicePassesIff(cached: Option<Service>, before: Service, after: Service)
    ensures Passes(SameServices(), if cached.Some? then Some(ProjectService(cached.value)) else None,
                   ProjectService(before), ProjectService(after))
      <==> cached.None? || !ServicesAgree(after, before) || !ServicesAgree(after, cached.value)
  {
    SameServiceIff(after, before);
    if cached.Some? {
      SameServiceIff(after, cached.value);
    }
  }

  /** The first condition of type Ready has the status True. */
  ghost predicate IsReady(node: Node) {
    exists i :: 0 <= i < |node.conditions| && FirstReady(node.conditions, i) && node.conditions[i].1 == "True"
  }

  predicate FirstReady(conditions: seq<(string, string)>, i: nat)
    requires i < |conditions|
  {
    conditions[i].0 == "Ready" && forall j :: 0 <= j < i ==> conditions[j].0 != "Ready"
  }

  lemma {:induction false} ReadyIff(node: Node)
    ensures Ready(node.conditions) <==> IsReady(node)
    decreases |node.conditions|
  {
    var cs := node.conditions;
    if cs != [] && cs[0].0 != "Ready" {
      var rest := node.(conditions := cs[1..]);
      ReadyIff(rest);
      if IsReady(rest) {
        var i :| 0 <= i < |rest.conditions| && FirstReady(rest.conditions, i) && rest.conditions[i].1 == "True";
        assert FirstReady(cs, i + 1);
      }
      if IsReady(node) {
        var i :| 0 <= i < |cs| && FirstReady(cs, i) && cs[i].1 == "True";
        assert FirstReady(rest.conditions, i - 1);
      }
    } else if cs != [] {
      assert FirstReady(cs, 0);
    }
  }

  /** Two nodes agree if they have the same deletion timestamp, and both are ready and reachable or neither is. */
  ghost predicate NodesAgree(p: Node, q: Node) {
    var unreachable := "node.kubernetes.io/unreachable";
    && p.deletionTimestamp == q.deletionTimestamp
    && (IsReady(p) && unreachable !in p.taints <==> IsReady(q) && unreachable !in q.taints)
  }

  lemma SameNodeIff(p: Node, q: Node)
    ensures SameNodes()(ProjectNode(p), ProjectNode(q)) <==> NodesAgree(p, q)
  {
    ReadyIff(p);
    ReadyIff(q);
  }

  /** An update of a node passes exactly if the node is not cached, or does not agree with the old one or with
      the cached one. */
  lemma NodePassesIff(cached: Option<Node>, before: Node, after: Node)
    ensures Passes(SameNodes(), if cached.Some? then Some(ProjectNode(cached.value)) else None,
                   ProjectNode(before), ProjectNode(after))
      <==> cached.None? || !NodesAgree(after, before) || !NodesAgree(after, cached.value)
  {
    SameNodeIff(after, before);
    if cached.Some? {
      SameNodeIff(after, cached.value);
    }
  }

  ghost function AgreeingServices(): (Service, Service) -> bool {
    (p: Service, q: Service) => ServicesAgree(p, q)
  }

  ghost function AgreeingNodes(): (Node, Node) -> bool {
    (p: Node, q: Node) => NodesAgree(p, q)
  }

  /** The predicate of services, which caches projections, delivers what a filter of whole services would;
      and if each update's old service is the one last seen, the last delivered one agrees with that. */
  lemma ServicesFiltered(events: seq<Event<Key, Service>>, cache: map<string, Service>)
    ensures var start: State<Key, Service> := State(cache, map[], map[]);
      var s := Run(ServiceCacheKey(), AgreeingServices(), start, events);
      && Run(ServiceCacheKey(), SameServices(), ProjectedState(ProjectService, start), AllProjected(ProjectService, events))
         == ProjectedState(ProjectService, s)
      && (OldAlwaysLastSeen(ServiceCacheKey(), AgreeingServices(), start, events) ==>
            forall k :: k in s.seen ==> k in s.delivered && ServicesAgree(s.delivered[k], s.seen[k]))
  {
    var start: State<Key, Service> := State(cache, map[], map[]);
    forall p, q
      ensures AgreeingServices()(p, q) <==> SameServices()(ProjectService(p), ProjectService(q))
    {
      SameServiceIff(p, q);
    }
    RunProjected(ServiceCacheKey(), ProjectService, AgreeingServices(), SameServices(), start, events);
    if OldAlwaysLastSeen(ServiceCacheKey(), AgreeingServices(), start, events) {
      NothingLostWithTrueOld(ServiceCacheKey(), AgreeingServices(), start, events);
      var s := Run(ServiceCacheKey(), AgreeingServices(), start, events);
      forall k | k in s.seen
        ensures k in s.delivered && ServicesAgree(s.delivered[k], s.seen[k])
      {
        assert AgreeingServices()(s.delivered[k], s.seen[k]);
      }
    }
  }

  /** The predicate of nodes delivers what a filter of whole nodes would, and the last delivered node agrees
      with the last seen one, whatever the old objects and the expiry. */
  lemma NodesFiltered(events: seq<Event<string, Node>>)
    ensures var start: State<string, Node> := State(map[], map[], map[]);
      var s := Run(NodeCacheKey(), AgreeingNodes(), start, events);
      && Run(NodeCacheKey(), SameNodes(), ProjectedState(ProjectNode, start), AllProjected(ProjectNode, events))
         == ProjectedState(ProjectNode, s)
      && (forall name :: name in s.seen ==> name in s.delivered && NodesAgree(s.delivered[name], s.seen[name]))
  {
    var start: State<string, Node> := State(map[], map[], map[]);
    forall p, q
      ensures AgreeingNodes()(p, q) <==> SameNodes()(ProjectNode(p), ProjectNode(q))
    {
      SameNodeIff(p, q);
    }
    RunProjected(NodeCacheKey(), ProjectNode, AgreeingNodes(), SameNodes(), start, events);
    NothingLostWithOwnKeys(NodeCacheKey(), AgreeingNodes(), events);
    var s := Run(NodeCacheKey(), AgreeingNodes(), start, events);
    forall name | name in s.seen
      ensures name in s.delivered && NodesAgree(s.delivered[name], s.seen[name])
    {
      assert AgreeingNodes()(s.delivered[name], s.seen[name]);
    }
  }
}
