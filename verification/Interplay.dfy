/**
 The service controller and the publicipaddress controller meet in the PublicIPAddress objects: the one
 creates and deletes them, the other cleans the addresses of deleted ones.
 */
module Interplay {
  import opened Wrappers
  import opened PublicIPAddresses
  import opened Services
  import opened Reconcilers
  import opened AzureUtils
  import S = ServiceActuators
  import P = PublicIPActuators
  import opened PublicIPProtocol

  /** The object of the world is the one that a service update leaves behind for an IP. */
  ghost predicate LeftBehind(c: S.Children, k: Key, svc: Service, now: int, ip: string, w: P.World) {
    && w.present
    && S.ChildName(k, ip) in S.CreateOrUpdated(c, k, svc, now)
    && w.resource == S.CreateOrUpdated(c, k, svc, now)[S.ChildName(k, ip)]
  }

  /** The object is under deletion, with a finalizer, exactly if it was before the update; it has the IP,
      and do-not-clean is off. */
  lemma LeftBehindMark(c: S.Children, k: Key, svc: Service, now: int, ip: string, w: P.World)
    requires !ShouldIgnore(svc) && ip in LoadBalancerIPs(svc) && LeftBehind(c, k, svc, now, ip, w)
    ensures var name := S.ChildName(k, ip);
      && w.resource.ipAddress == ip && !Protected(w.resource.annotations)
      && (w.resource.deletionTimestamp.Some? <==> name in c && c[name].deletionTimestamp.Some?)
      && (name in c ==> w.resource.deletionTimestamp == c[name].deletionTimestamp && w.resource.finalizer == c[name].finalizer)
  {
    S.MarkOfCurrentStays(c, k, svc, now, ip);
  }

  /** An address with an IP that a service lists can be cleaned although the service has just been updated:
      the next reconcile of the object makes destructive calls exactly if the object had been under deletion
      before that update, for longer than the grace period now, and nobody has set do-not-clean since; the
      update has even removed it. All the calls are for an address with this IP. */
  lemma CurrentIPCleanedIff(c: S.Children, k: Key, svc: Service, now: int, ip: string,
                            config: P.Config, w: P.World, env: P.Environment, api: Answers)
    returns (a: AzureAddress)
    requires !ShouldIgnore(svc) && ip in LoadBalancerIPs(svc) && LeftBehind(c, k, svc, now, ip, w)
    ensures var name, after := S.ChildName(k, ip), Next(config, w, Reconcile(env, api));
      && (after.calls != w.calls <==>
            && name in c && c[name].deletionTimestamp.Some? && c[name].finalizer
            && env.now > c[name].deletionTimestamp.value + config.deletionGracePeriod
            && !api.get.Rejected? && !env.firstWrite.WriteFailed? && !Protected(env.firstWrite.annotations)
            && P.FindAddress(w.resource, env).Success? && P.FindAddress(w.resource, env).value.Some?)
      && (after.calls != w.calls ==>
            a.ipAddress == Some(ip) && after.calls == w.calls + CleaningCalls(a, env))
    ensures !Protected(w.resource.annotations)
  {
    LeftBehindMark(c, k, svc, now, ip, w);
    CallsMadeIff(config, w, Reconcile(env, api));
    a := NextCallsJustified(config, w, Reconcile(env, api));
  }

  /** An object that was not under deletion before the update is safe until someone requests its deletion:
      no run without such a request makes a destructive call. */
  lemma CurrentIPSafe(c: S.Children, k: Key, svc: Service, now: int, ip: string,
                      config: P.Config, w: P.World, events: seq<Event>)
    requires !ShouldIgnore(svc) && ip in LoadBalancerIPs(svc) && LeftBehind(c, k, svc, now, ip, w)
    requires S.ChildName(k, ip) in c ==> c[S.ChildName(k, ip)].deletionTimestamp.None?
    requires forall i :: 0 <= i < |events| ==> !events[i].RequestDeletion?
    ensures Run(config, w, events).calls == w.calls
  {
    LeftBehindMark(c, k, svc, now, ip, w);
    CallsGrow(config, w, events, 0);
    if |Run(config, w, events).calls| > |w.calls| {
      var d, i := EveryCallFollowsRequest(config, w, events, |w.calls|);
      assert false;
    }
  }
}
