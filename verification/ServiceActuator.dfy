/**
 The actuator of services: it keeps one PublicIPAddress object per load-balancer IP of a service, and
 requests the deletion of the objects that the service does not need any more.
 `Client` is the API server as the actuator sees it; any of its calls may fail.
 */
module ServiceActuators {
  import opened Wrappers
  import opened PublicIPAddresses
  import opened Labels
  import opened Services

  /** The PublicIPAddress objects of the control namespace, by name. */
  type Children = map<string, PublicIPAddress>

  function ChildName(k: Key, ip: string): string {
    PublicIPAddressName(k.namespace, k.name, ip)
  }

  function ChildLabels(k: Key): map<string, string> {
    map[SERVICE_LABEL := LabelValue(k.namespace, k.name)]
  }

  /** The object carries the label of the service. */
  predicate BelongsTo(p: PublicIPAddress, k: Key) {
    SERVICE_LABEL in p.labels && p.labels[SERVICE_LABEL] == LabelValue(k.namespace, k.name)
  }

  // ----- The effect of single API calls -----

  function UpsertedChild(c: Children, name: string, k: Key, ip: string): PublicIPAddress {
    if name in c then
      c[name].(labels := ChildLabels(k), annotations := c[name].annotations - {DO_NOT_CLEAN_ANNOTATION}, ipAddress := ip)
    else
      PublicIPAddress(ChildLabels(k), map[], ip, None, false, EMPTY_STATUS)
  }

  function Upserted(c: Children, k: Key, ip: string): Children {
    c[ChildName(k, ip) := UpsertedChild(c, ChildName(k, ip), k, ip)]
  }

  function AnnotatedChild(p: PublicIPAddress): PublicIPAddress {
    p.(annotations := p.annotations[DO_NOT_CLEAN_ANNOTATION := "true"])
  }

  function Annotated(c: Children, name: string): Children
    requires name in c
  {
    c[name := AnnotatedChild(c[name])]
  }

  function MarkedChild(p: PublicIPAddress, now: int): PublicIPAddress {
    if p.deletionTimestamp.Some? then p else p.(deletionTimestamp := Some(now))
  }

  /** Deleting marks an object that has a finalizer, and removes one that has none. */
  function Deleted(c: Children, name: string, now: int): Children {
    if name !in c then c
    else if c[name].finalizer then c[name := MarkedChild(c[name], now)]
    else c - {name}
  }

  function Labelled(c: Children, k: Key): set<string> {
    set name | name in c && BelongsTo(c[name], k)
  }

  // ----- The effect of whole operations, object by object -----

  function ChildNames(k: Key, ips: set<string>): set<string> {
    set ip | ip in ips :: ChildName(k, ip)
  }

  /** The IP that a generated name ends with. */
  function IPOf(k: Key, name: string): string {
    var n := |ChildName(k, "")|;
    if n <= |name| then name[n..] else ""
  }

  function UpsertedAll(c: Children, k: Key, ips: set<string>): Children {
    map name | name in c.Keys + ChildNames(k, ips) ::
      if name in ChildNames(k, ips) then UpsertedChild(c, name, k, IPOf(k, name)) else c[name]
  }

  function RetiredChild(p: PublicIPAddress, annotate: bool, now: int): PublicIPAddress {
    MarkedChild(if annotate then AnnotatedChild(p) else p, now)
  }

  /** All the named objects deleted, after being annotated if asked for. */
  function RetiredAll(c: Children, names: set<string>, annotate: bool, now: int): Children {
    map name | name in c && (name in names ==> c[name].finalizer) ::
      if name in names then RetiredChild(c[name], annotate, now) else c[name]
  }

  /** The service does not need the object any more. */
  predicate Stale(p: PublicIPAddress, svc: Service) {
    p.ipAddress !in LoadBalancerIPs(svc) || ShouldIgnore(svc)
  }

  function StaleNames(c: Children, k: Key, svc: Service): set<string> {
    set name | name in c && BelongsTo(c[name], k) && Stale(c[name], svc)
  }

  function CreateOrUpdated(c: Children, k: Key, svc: Service, now: int): Children {
    var c' := if ShouldIgnore(svc) then c else UpsertedAll(c, k, LoadBalancerIPs(svc));
    RetiredAll(c', StaleNames(c', k, svc), ShouldIgnore(svc), now)
  }

  /** The objects of the service by name for its IPs, and by label for all others. */
  function DeletedNames(c: Children, k: Key, svc: Service): set<string> {
    ChildNames(k, LoadBalancerIPs(svc))
    + set name | name in c && BelongsTo(c[name], k) && c[name].ipAddress !in LoadBalancerIPs(svc)
  }

  // ----- Client and actuator -----

  /** One call that may change objects: the object whose deletion it requests, if it does, and the objects
      before and after it. A failing call is one as well. */
  datatype Call = Call(deletes: Option<string>, before: Children, after: Children)

  /** The API server. `budget` calls succeed, the next one fails. `trace` has all calls that may change
      objects, in order. */
  class Client {
    var children: Children
    var budget: nat
    ghost var trace: seq<Call>

    constructor (children: Children, budget: nat)
      ensures this.children == children && this.budget == budget && trace == []
    {
      this.children, this.budget, trace := children, budget, [];
    }

    method CreateOrUpdate(k: Key, ip: string) returns (ok: bool)
      modifies this
      ensures children == if ok then Upserted(old(children), k, ip) else old(children)
      ensures trace == old(trace) + [Call(None, old(children), children)]
    {
      ghost var before := children;
      ok := budget > 0;
      if ok {
        budget := budget - 1;
        var name := ChildName(k, ip);
        children := children[name := UpsertedChild(children, name, k, ip)];
      }
      trace := trace + [Call(None, before, children)];
    }

    method List(k: Key) returns (ok: bool, items: seq<string>)
      modifies this
      ensures children == old(children) && trace == old(trace)
      ensures ok ==> forall name :: name in items <==> name in Labelled(children, k)
      ensures ok ==> forall i, j :: 0 <= i < j < |items| ==> items[i] != items[j]
    {
      ok, items := budget > 0, [];
      if ok {
        budget := budget - 1;
        var todo := Labelled(children, k);
        while todo != {}
          invariant children == old(children) && trace == old(trace)
          invariant todo <= Labelled(children, k)
          invariant forall name :: name in items <==> name in Labelled(children, k) - todo
          invariant forall i, j :: 0 <= i < j < |items| ==> items[i] != items[j]
          decreases todo
        {
          var name :| name in todo;
          items := items + [name];
          todo := todo - {name};
        }
      }
    }

    /** An update of an object that is not there any more fails. */
    method Annotate(name: string) returns (ok: bool)
      modifies this
      ensures ok ==> name in old(children) && children == Annotated(old(children), name)
      ensures !ok ==> children == old(children)
      ensures trace == old(trace) + [Call(None, old(children), children)]
    {
      ghost var before := children;
      ok := budget > 0 && name in children;
      if ok {
        budget := budget - 1;
        children := children[name := AnnotatedChild(children[name])];
      }
      trace := trace + [Call(None, before, children)];
    }

    /** Deleting an object that is not there is no failure. */
    method Delete(name: string, now: int) returns (ok: bool)
      modifies this
      ensures children == if ok then Deleted(old(children), name, now) else old(children)
      ensures trace == old(trace) + [Call(Some(name), old(children), children)]
    {
      ghost var before := children;
      ok := budget > 0;
      if ok {
        budget := budget - 1;
        children := Deleted(children, name, now);
      }
      trace := trace + [Call(Some(name), before, children)];
    }
  }

  /** The object is gone, or carries do-not-clean. */
  predicate Spared(c: Children, name: string) {
    name in c ==> Protected(c[name].annotations)
  }

  /** Whenever the deletion of an object was requested, the object carried do-not-clean by then, and it has
      carried it ever since: before the request, and after that call and all later ones. */
  ghost predicate DeletionsSpared(trace: seq<Call>) {
    forall i, j :: 0 <= i <= j < |trace| && trace[i].deletes.Some? ==>
      Spared(trace[i].before, trace[i].deletes.value) && Spared(trace[j].after, trace[i].deletes.value)
  }

  /** The calls follow on each other, and lead from the first objects to the last ones. */
  ghost predicate Connected(c: Children, trace: seq<Call>, c': Children) {
    && (trace == [] ==> c == c')
    && (trace != [] ==> trace[0].before == c && trace[|trace| - 1].after == c')
    && forall i :: 0 <= i < |trace| - 1 ==> trace[i].after == trace[i + 1].before
  }

  /** One more call, which spares the object that it deletes and leaves every spared object spared. */
  lemma OneMoreSpared(c: Children, trace: seq<Call>, call: Call)
    requires Connected(c, trace, call.before) && DeletionsSpared(trace)
    requires call.deletes.Some? ==> Spared(call.before, call.deletes.value)
    requires forall name :: Spared(call.before, name) ==> Spared(call.after, name)
    ensures DeletionsSpared(trace + [call])
  {
    var n := |trace|;
    forall i, j | 0 <= i <= j <= n && (trace + [call])[i].deletes.Some?
      ensures Spared((trace + [call])[i].before, (trace + [call])[i].deletes.value)
      ensures Spared((trace + [call])[j].after, (trace + [call])[i].deletes.value)
    {
      if i < n && j == n {
        assert Spared(trace[n - 1].after, trace[i].deletes.value);
      }
    }
  }

  lemma OneMoreConnected(c: Children, trace: seq<Call>, call: Call)
    requires Connected(c, trace, call.before)
    ensures Connected(c, trace + [call], call.after)
  {
  }

  lemma ConnectedConcat(c: Children, first: seq<Call>, c': Children, second: seq<Call>, c'': Children)
    requires Connected(c, first, c') && Connected(c', second, c'')
    ensures Connected(c, first + second, c'')
  {
  }

  class ServiceActuator {
    const client: Client
    const syncPeriod: int

    constructor (client: Client, syncPeriod: int)
      ensures this.client == client && this.syncPeriod == syncPeriod
    {
      this.client, this.syncPeriod := client, syncPeriod;
    }

    /** Without a failing call the objects end up as `CreateOrUpdated` says. On the ignored path, whatever
        call fails, an object carries do-not-clean from before its deletion is requested. */
    method CreateOrUpdate(k: Key, svc: Service, now: int) returns (ok: bool, requeueAfter: int)
      modifies client
      ensures ok ==> client.children == CreateOrUpdated(old(client.children), k, svc, now) && requeueAfter == syncPeriod
      ensures old(client.trace) <= client.trace
      ensures Connected(old(client.children), client.trace[|old(client.trace)|..], client.children)
      ensures ShouldIgnore(svc) ==> DeletionsSpared(client.trace[|old(client.trace)|..])
    {
      var ips := GetServiceLoadBalancerIPs(svc);
      var shouldIgnore := ShouldIgnore(svc);
      requeueAfter := 0;
      if !shouldIgnore {
        ok := UpsertChildren(k, ips);
        if !ok {
          return;
        }
      }
      var items;
      ok, items := client.List(k);
      if !ok {
        return;
      }
      ghost var c, trace := client.children, client.trace;
      ok := Sweep(k, svc, ips, items, now);
      ConnectedConcat(old(client.children), trace[|old(client.trace)|..], c, client.trace[|trace|..], client.children);
      assert client.trace[|old(client.trace)|..] == trace[|old(client.trace)|..] + client.trace[|trace|..];
      assert ShouldIgnore(svc) ==> client.trace[|old(client.trace)|..] == client.trace[|trace|..];
      requeueAfter := syncPeriod;
    }

    method UpsertChildren(k: Key, ips: set<string>) returns (ok: bool)
      modifies client
      ensures ok ==> client.children == UpsertedAll(old(client.children), k, ips)
      ensures old(client.trace) <= client.trace
      ensures Connected(old(client.children), client.trace[|old(client.trace)|..], client.children)
    {
      var todo := ips;
      ghost var start := |client.trace|;
      UpsertedNone(client.children, k);
      while todo != {}
        invariant todo <= ips
        invariant client.children == UpsertedAll(old(client.children), k, ips - todo)
        invariant old(client.trace) <= client.trace
        invariant Connected(old(client.children), client.trace[start..], client.children)
        decreases todo
      {
        var ip :| ip in todo;
        ghost var trace, c := client.trace, client.children;
        ok := client.CreateOrUpdate(k, ip);
        OneMoreConnected(old(client.children), trace[start..], Call(None, c, client.children));
        assert client.trace[start..] == trace[start..] + [Call(None, c, client.children)];
        if !ok {
          return;
        }
        UpsertedOneMore(old(client.children), k, ips - todo, ip);
        assert ips - todo + {ip} == ips - (todo - {ip});
        todo := todo - {ip};
      }
      assert ips - todo == ips;
      ok := true;
    }

    /** The loop over the listed objects. */
    method Sweep(k: Key, svc: Service, ips: set<string>, items: seq<string>, now: int) returns (ok: bool)
      requires ips == LoadBalancerIPs(svc)
      requires forall name :: name in items <==> name in Labelled(client.children, k)
      requires forall i, j :: 0 <= i < j < |items| ==> items[i] != items[j]
      modifies client
      ensures var stale := StaleNames(old(client.children), k, svc);
        ok ==> client.children == RetiredAll(old(client.children), stale, ShouldIgnore(svc), now)
      ensures old(client.trace) <= client.trace
      ensures Connected(old(client.children), client.trace[|old(client.trace)|..], client.children)
      ensures ShouldIgnore(svc) ==> DeletionsSpared(client.trace[|old(client.trace)|..])
    {
      var listed := client.children;
      ghost var c, stale, start := listed, StaleNames(listed, k, svc), |client.trace|;
      ghost var done: set<string> := {};
      RetiredNone(c, ShouldIgnore(svc), now);
      for i := 0 to |items|
        invariant done == set name | name in items[..i] && name in stale
        invariant client.children == RetiredAll(c, done, ShouldIgnore(svc), now)
        invariant old(client.trace) <= client.trace
        invariant Connected(c, client.trace[start..], client.children)
        invariant ShouldIgnore(svc) ==> DeletionsSpared(client.trace[start..])
      {
        var name := items[i];
        assert name in items && name in c && name !in done;
        if listed[name].ipAddress !in ips || ShouldIgnore(svc) {
          ok := RetireOne(c, done, start, name, ShouldIgnore(svc), now);
          if !ok {
            return;
          }
          done := done + {name};
        }
      }
      assert items[..|items|] == items;
      assert done == stale;
      ok := true;
    }

    /** Annotate the object if asked for, then delete it. `start` is the length of the trace at the start of
        the loop. */
    method RetireOne(ghost c: Children, ghost done: set<string>, ghost start: nat, name: string, annotate: bool, now: int)
      returns (ok: bool)
      requires name in c && name !in done && start <= |client.trace|
      requires client.children == RetiredAll(c, done, annotate, now)
      requires Connected(c, client.trace[start..], client.children)
      requires annotate ==> DeletionsSpared(client.trace[start..])
      modifies client
      ensures ok ==> client.children == RetiredAll(c, done + {name}, annotate, now)
      ensures old(client.trace) <= client.trace
      ensures Connected(c, client.trace[start..], client.children)
      ensures annotate ==> DeletionsSpared(client.trace[start..])
    {
      if annotate {
        ok := AnnotateOne(c, start, name);
        if !ok {
          return;
        }
      }
      RetiredOneMore(c, done, name, annotate, now);
      ok := DeleteOne(c, start, name, annotate, now);
    }

    method AnnotateOne(ghost c: Children, ghost start: nat, name: string) returns (ok: bool)
      requires start <= |client.trace|
      requires Connected(c, client.trace[start..], client.children) && DeletionsSpared(client.trace[start..])
      modifies client
      ensures ok ==> name in old(client.children) && client.children == Annotated(old(client.children), name)
      ensures old(client.trace) <= client.trace
      ensures Connected(c, client.trace[start..], client.children) && DeletionsSpared(client.trace[start..])
    {
      ghost var trace, before := client.trace, client.children;
      ok := client.Annotate(name);
      ghost var call := Call(None, before, client.children);
      assert client.trace[start..] == trace[start..] + [call];
      OneMoreConnected(c, trace[start..], call);
      OneMoreSpared(c, trace[start..], call);
    }

    method DeleteOne(ghost c: Children, ghost start: nat, name: string, ghost annotated: bool, now: int) returns (ok: bool)
      requires start <= |client.trace|
      requires Connected(c, client.trace[start..], client.children)
      requires annotated ==> DeletionsSpared(client.trace[start..]) && Spared(client.children, name)
      modifies client
      ensures client.children == if ok then Deleted(old(client.children), name, now) else old(client.children)
      ensures old(client.trace) <= client.trace
      ensures Connected(c, client.trace[start..], client.children)
      ensures annotated ==> DeletionsSpared(client.trace[start..])
    {
      ghost var trace, before := client.trace, client.children;
      ok := client.Delete(name, now);
      ghost var call := Call(Some(name), before, client.children);
      assert client.trace[start..] == trace[start..] + [call];
      OneMoreConnected(c, trace[start..], call);
      if annotated {
        OneMoreSpared(c, trace[start..], call);
      }
    }

    method Delete(k: Key, svc: Service, now: int) returns (ok: bool)
      modifies client
      ensures ok ==> client.children == RetiredAll(old(client.children), DeletedNames(old(client.children), k, svc), false, now)
    {
      var ips := GetServiceLoadBalancerIPs(svc);
      ghost var c := client.children;
      var todo := ips;
      RetiredNone(c, false, now);
      while todo != {}
        invariant todo <= ips
        invariant client.children == RetiredAll(c, ChildNames(k, ips - todo), false, now)
        decreases todo
      {
        var ip :| ip in todo;
        DeletedOneMore(c, ChildNames(k, ips - todo), ChildName(k, ip), now);
        ok := client.Delete(ChildName(k, ip), now);
        if !ok {
          return;
        }
        assert ChildNames(k, ips - (todo - {ip})) == ChildNames(k, ips - todo) + {ChildName(k, ip)};
        todo := todo - {ip};
      }
      assert ips - todo == ips;
      var items;
      ok, items := client.List(k);
      if !ok {
        return;
      }
      ok := DeleteListed(k, svc, ips, items, now, c);
    }

    /** The loop over the listed objects of a service under deletion. */
    method DeleteListed(k: Key, svc: Service, ips: set<string>, items: seq<string>, now: int, ghost c: Children)
      returns (ok: bool)
      requires ips == LoadBalancerIPs(svc)
      requires client.children == RetiredAll(c, ChildNames(k, ips), false, now)
      requires forall name :: name in items <==> name in Labelled(client.children, k)
      requires forall i, j :: 0 <= i < j < |items| ==> items[i] != items[j]
      modifies client
      ensures ok ==> client.children == RetiredAll(c, DeletedNames(c, k, svc), false, now)
    {
      var listed := client.children;
      ghost var named := ChildNames(k, ips);
      ghost var done: set<string> := {};
      assert named + done == named;
      for i := 0 to |items|
        invariant done == set name | name in items[..i] && name in listed && listed[name].ipAddress !in ips
        invariant client.children == RetiredAll(c, named + done, false, now)
      {
        var name := items[i];
        assert name in items && name !in done;
        if listed[name].ipAddress !in ips {
          DeletedOneMore(c, named + done, name, now);
          ok := client.Delete(name, now);
          if !ok {
            return;
          }
          assert named + (done + {name}) == named + done + {name};
          done := done + {name};
        }
      }
      assert items[..|items|] == items;
      SameRetired(c, named + done, DeletedNames(c, k, svc), now);
      ok := true;
    }
  }

  // ----- Operations one object at a time -----

  lemma UpsertedNone(c: Children, k: Key)
    ensures UpsertedAll(c, k, {}) == c
  {
  }

  lemma UpsertedOneMore(c: Children, k: Key, ips: set<string>, ip: string)
    requires ip !in ips
    ensures UpsertedAll(c, k, ips + {ip}) == Upserted(UpsertedAll(c, k, ips), k, ip)
  {
    var name := ChildName(k, ip);
    assert name == ChildName(k, "") + ip;
    assert IPOf(k, name) == ip;
    assert ChildNames(k, ips + {ip}) == ChildNames(k, ips) + {name};
    forall other | other in ips
      ensures ChildName(k, other) != name
    {
      if ChildName(k, other) == name {
        NameInjectiveInIP(k.namespace, k.name, ip, other);
      }
    }
  }

  lemma RetiredNone(c: Children, annotate: bool, now: int)
    ensures RetiredAll(c, {}, annotate, now) == c
  {
  }

  lemma RetiredOneMore(c: Children, names: set<string>, name: string, annotate: bool, now: int)
    requires name in c && name !in names
    ensures var c' := RetiredAll(c, names, annotate, now);
      && name in c'
      && RetiredAll(c, names + {name}, annotate, now) == Deleted(if annotate then Annotated(c', name) else c', name, now)
  {
  }

  lemma DeletedOneMore(c: Children, names: set<string>, name: string, now: int)
    ensures RetiredAll(c, names + {name}, false, now) == Deleted(RetiredAll(c, names, false, now), name, now)
  {
  }

  lemma SameRetired(c: Children, names: set<string>, names': set<string>, now: int)
    requires forall name :: name in c && (name in names ==> c[name].finalizer) ==> (name in names <==> name in names')
    requires forall name :: name in c && name in names && !c[name].finalizer ==> name in names'
    ensures RetiredAll(c, names, false, now) == RetiredAll(c, names', false, now)
  {
  }

  // ----- What a successful update establishes -----

  /** Every IP of the service has its own object, labelled for the service and free to be cleaned. */
  ghost predicate Covered(c: Children, k: Key, svc: Service) {
    forall ip :: ip in LoadBalancerIPs(svc) ==>
      && ChildName(k, ip) in c
      && c[ChildName(k, ip)].labels == ChildLabels(k)
      && c[ChildName(k, ip)].ipAddress == ip
      && DO_NOT_CLEAN_ANNOTATION !in c[ChildName(k, ip)].annotations
  }

  lemma IPOfName(k: Key, ip: string)
    ensures IPOf(k, ChildName(k, ip)) == ip
  {
  }

  /** A successful update of a service that is not ignored covers its IPs, and marks or removes every
      other object of the service; of an ignored service it marks or removes all of them. */
  lemma UpdateConverges(c: Children, k: Key, svc: Service, now: int)
    ensures var c' := CreateOrUpdated(c, k, svc, now);
      && (!ShouldIgnore(svc) ==> Covered(c', k, svc))
      && (forall name :: name in c' && BelongsTo(c'[name], k) && Stale(c'[name], svc) ==>
            c'[name].deletionTimestamp.Some? && (ShouldIgnore(svc) ==> Protected(c'[name].annotations)))
  {
  }

  /** An update neither requests nor revokes the deletion of the object for a current IP: it is under
      deletion afterwards exactly if it was before. Its finalizer and its status stay as well. */
  lemma MarkOfCurrentStays(c: Children, k: Key, svc: Service, now: int, ip: string)
    requires !ShouldIgnore(svc) && ip in LoadBalancerIPs(svc)
    ensures var name, c' := ChildName(k, ip), CreateOrUpdated(c, k, svc, now);
      && name in c'
      && var was := if name in c then c[name] else UpsertedChild(c, name, k, ip);
      && c'[name] == was.(labels := c'[name].labels, annotations := c'[name].annotations, ipAddress := ip)
      && (c'[name].deletionTimestamp.Some? <==> name in c && c[name].deletionTimestamp.Some?)
      && !Protected(c'[name].annotations)
  {
    UpdateConverges(c, k, svc, now);
    IPOfName(k, ip);
  }

  /** The objects of other services, and those of no service, stay exactly as they are, unless one of
      them has a name that is generated for an IP of this service. */
  lemma OthersUntouchedIff(c: Children, k: Key, svc: Service, now: int, name: string)
    requires name in c && !BelongsTo(c[name], k)
    ensures name in CreateOrUpdated(c, k, svc, now) && CreateOrUpdated(c, k, svc, now)[name] == c[name] <==>
      ShouldIgnore(svc) || name !in ChildNames(k, LoadBalancerIPs(svc))
  {
  }

  /** A second update, at whatever time, leaves everything as it is. */
  lemma UpdateIdempotent(c: Children, k: Key, svc: Service, now: int, later: int)
    ensures CreateOrUpdated(CreateOrUpdated(c, k, svc, now), k, svc, later) == CreateOrUpdated(c, k, svc, now)
  {
    var c' := CreateOrUpdated(c, k, svc, now);
    UpdateConverges(c, k, svc, now);
    if !ShouldIgnore(svc) {
      CoveredUnchanged(c', k, svc);
    }
    RetiredUnchanged(c', k, svc, later);
  }

  lemma CoveredUnchanged(c: Children, k: Key, svc: Service)
    requires Covered(c, k, svc)
    ensures UpsertedAll(c, k, LoadBalancerIPs(svc)) == c
  {
    forall ip | ip in LoadBalancerIPs(svc)
      ensures UpsertedChild(c, ChildName(k, ip), k, ip) == c[ChildName(k, ip)]
    {
      var p := c[ChildName(k, ip)];
      assert p.annotations - {DO_NOT_CLEAN_ANNOTATION} == p.annotations;
    }
    forall ip | ip in LoadBalancerIPs(svc) {
      IPOfName(k, ip);
    }
  }

  lemma RetiredUnchanged(c: Children, k: Key, svc: Service, later: int)
    requires forall name :: name in StaleNames(c, k, svc) ==>
      c[name].deletionTimestamp.Some? && c[name].finalizer
      && (ShouldIgnore(svc) ==> Protected(c[name].annotations))
    ensures RetiredAll(c, StaleNames(c, k, svc), ShouldIgnore(svc), later) == c
  {
    forall name | name in StaleNames(c, k, svc)
      ensures RetiredChild(c[name], ShouldIgnore(svc), later) == c[name]
    {
      if ShouldIgnore(svc) {
        var p := c[name];
        assert p.annotations[DO_NOT_CLEAN_ANNOTATION := "true"] == p.annotations;
      }
    }
  }

  /** A successful deletion marks or removes every object of the service exactly if each of its unmarked
      objects for one of its IPs has a name that is generated for one of its IPs. */
  lemma DeleteReachesAllIff(c: Children, k: Key, svc: Service, now: int)
    ensures var ips, c' := LoadBalancerIPs(svc), RetiredAll(c, DeletedNames(c, k, svc), false, now);
      (forall name :: name in c' && BelongsTo(c'[name], k) ==> c'[name].deletionTimestamp.Some?) <==>
      (forall name :: name in c && BelongsTo(c[name], k) && c[name].deletionTimestamp.None? && c[name].ipAddress in ips ==>
        name in ChildNames(k, ips))
  {
    var ips, c' := LoadBalancerIPs(svc), RetiredAll(c, DeletedNames(c, k, svc), false, now);
    forall name | name in c && BelongsTo(c[name], k) && c[name].deletionTimestamp.None?
      ensures name !in DeletedNames(c, k, svc) <==> c[name].ipAddress in ips && name !in ChildNames(k, ips)
      ensures name !in DeletedNames(c, k, svc) ==> name in c' && c'[name] == c[name]
    {
    }
  }

  // ----- Updates and deletions in plain terms -----

  /** The object is labelled for the service. */
  predicate IsFor(p: PublicIPAddress, k: Key) {
    var key := "azure.remedy.gardener.cloud/service";
    key in p.labels && p.labels[key] == if k.name != "" then k.namespace + "." + k.name else ""
  }

  function NameFor(k: Key, ip: string): string {
    k.namespace + "-" + k.name + "-" + ip
  }

  /** The deletion of an object has been requested: it is gone if nothing holds it, and otherwise marked,
      now or earlier, and protected if asked for; nothing else about it has changed. */
  ghost predicate Requested(p: PublicIPAddress, c': Children, name: string, protect: bool, now: int) {
    var key := "azure.remedy.gardener.cloud/do-not-clean";
    if !p.finalizer then name !in c'
    else
      && name in c'
      && c'[name] == p.(
           deletionTimestamp := if p.deletionTimestamp.Some? then p.deletionTimestamp else Some(now),
           annotations := if protect then p.annotations[key := "true"] else p.annotations)
  }

  /** After an update the object for a current IP of a service that is not ignored has the label of the
      service and the IP, and not the annotation do-not-clean; if it was there before it is otherwise the
      same, with the same mark, and else it is new and unmarked. */
  lemma UpdateOfCurrent(c: Children, k: Key, svc: Service, now: int, ip: string)
    requires !Ignored(svc) && HasIP(svc, ip)
    ensures var name, c' := NameFor(k, ip), CreateOrUpdated(c, k, svc, now);
      && name in c'
      && IsFor(c'[name], k) && |c'[name].labels| == 1 && c'[name].ipAddress == ip
      && var key := "azure.remedy.gardener.cloud/do-not-clean";
      if name in c then
        c'[name] == c[name].(labels := c'[name].labels, ipAddress := ip, annotations := c[name].annotations - {key})
      else
        && c'[name].annotations == map[] && c'[name].deletionTimestamp.None? && !c'[name].finalizer
        && !c'[name].status.found && c'[name].status.id.None? && c'[name].status.name.None?
        && c'[name].status.provisioningState.None? && c'[name].status.failedOperations == []
  {
    IPOfName(k, ip);
    assert NameFor(k, ip) == ChildName(k, ip);
    assert LabelValue(k.namespace, k.name) == if k.name != "" then k.namespace + "." + k.name else "";
  }

  /** Of all other objects, an update requests the deletion of exactly those that are labelled for the
      service, and whose IP it does not have any more, or which it has if it is ignored; then they are
      protected first. Everything else stays as it is, and nothing else appears. */
  lemma UpdateOfOther(c: Children, k: Key, svc: Service, now: int, name: string)
    requires !Ignored(svc) ==> forall ip :: HasIP(svc, ip) ==> name != NameFor(k, ip)
    ensures var c' := CreateOrUpdated(c, k, svc, now);
      if name !in c then name !in c'
      else if IsFor(c[name], k) && (Ignored(svc) || !HasIP(svc, c[name].ipAddress)) then
        Requested(c[name], c', name, Ignored(svc), now)
      else name in c' && c'[name] == c[name]
  {
    NotAChild(k, svc, name);
    BelongsIff(c, k, name);
  }

  lemma NotAChild(k: Key, svc: Service, name: string)
    ensures name in ChildNames(k, LoadBalancerIPs(svc)) <==> exists ip :: HasIP(svc, ip) && name == NameFor(k, ip)
  {
    forall ip
      ensures ChildName(k, ip) == NameFor(k, ip)
      ensures ip in LoadBalancerIPs(svc) <==> HasIP(svc, ip)
    {
    }
    if ip :| HasIP(svc, ip) && name == NameFor(k, ip) {
      assert ip in LoadBalancerIPs(svc) && ChildName(k, ip) == name;
    }
  }

  lemma BelongsIff(c: Children, k: Key, name: string)
    ensures name in c ==> (BelongsTo(c[name], k) <==> IsFor(c[name], k))
  {
    assert LabelValue(k.namespace, k.name) == if k.name != "" then k.namespace + "." + k.name else "";
  }

  /** A deletion requests the deletion of exactly the objects with the names for the service's IPs, and of
      those that are labelled for it and have another IP; everything else stays as it is. */
  lemma DeletionMeans(c: Children, k: Key, svc: Service, now: int, name: string)
    ensures var c' := RetiredAll(c, DeletedNames(c, k, svc), false, now);
      if name !in c then name !in c'
      else if (exists ip :: HasIP(svc, ip) && name == NameFor(k, ip)) || (IsFor(c[name], k) && !HasIP(svc, c[name].ipAddress)) then
        Requested(c[name], c', name, false, now)
      else name in c' && c'[name] == c[name]
  {
    NotAChild(k, svc, name);
    BelongsIff(c, k, name);
  }
}
