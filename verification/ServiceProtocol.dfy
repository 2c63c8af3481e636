/**
 The finalizer protocol of services: reconciles of any number of services run one API call at a time,
 interleaved with each other, with users changing services and PublicIPAddress objects, and with calls
 that fail and abort a reconcile. Reconciles of one service are serialised, and each works on the copy
 of the service that it read.
 */
module ServiceProtocol {
  import opened Wrappers
  import opened PublicIPAddresses
  import opened Labels
  import opened Services
  import opened ServiceActuators

  /** Where a reconcile is. `svc` is its copy of the service, `keep` says that the service is to be
      finalized, `release` that the finalizer goes at the end. */
  datatype Phase =
    | Finalizing
    | Upserting(svc: Service, keep: bool, todo: set<string>)
    | Sweeping(svc: Service, keep: bool, items: seq<string>, listed: Children, annotated: bool)
    | DeletingByName(svc: Service, release: bool, todo: set<string>)
    | DeletingListed(svc: Service, release: bool, items: seq<string>, listed: Children)
    | Releasing

  datatype System = System(services: map<Key, Service>, children: Children, workers: map<Key, Phase>)

  const NO_SERVICE := Service(map[], [], None, false, false)

  datatype Action =
    // users and other controllers
    | CreateService(k: Key, svc: Service)
    | UpdateService(k: Key, annotations: map<string, string>, ingress: seq<string>, otherFinalizers: bool)
    | DeleteService(k: Key, at: TimePointer)
    | CreateChild(name: string, child: PublicIPAddress)
    | EditChild(name: string, annotations: map<string, string>, finalizer: bool, status: Status)
    | DeleteChild(name: string, now: int)
    // the service controller
    | Begin(k: Key)
    | Continue(k: Key, ip: string, items: seq<string>, now: int)
    | Abort(k: Key)

  /** A service under deletion goes with its last finalizer. */
  function Settle(services: map<Key, Service>, k: Key, svc: Service): map<Key, Service> {
    if svc.deletionTimestamp.Some? && !svc.finalizer && !svc.otherFinalizers then services - {k} else services[k := svc]
  }

  function SettleChild(c: Children, name: string, p: PublicIPAddress): Children {
    if p.deletionTimestamp.Some? && !p.finalizer then c - {name} else c[name := p]
  }

  /** What the reconciler does first, by the state of the object that it reads. */
  function Started(s: System, k: Key): System {
    if k !in s.services then
      s.(workers := s.workers[k := DeletingByName(NO_SERVICE, false, {})])
    else
      var svc := s.services[k];
      if svc.deletionTimestamp.Some? then
        if svc.finalizer then s.(workers := s.workers[k := DeletingByName(svc, true, LoadBalancerIPs(svc))]) else s
      else if ShouldFinalize(svc) then s.(workers := s.workers[k := Finalizing])
      else if svc.finalizer then s.(workers := s.workers[k := Upserting(svc, false, {})])
      else s
  }

  function Idle(s: System, k: Key): System {
    s.(workers := s.workers - {k})
  }

  function At(s: System, k: Key, phase: Phase): System {
    s.(workers := s.workers[k := phase])
  }

  /** The names are those of the objects labelled for the service, in some order. */
  predicate IsListing(s: System, k: Key, items: seq<string>) {
    && (set name | name in items) == Labelled(s.children, k)
    && Distinct(items)
  }

  predicate Distinct(items: seq<string>) {
    forall i, j :: 0 <= i < j < |items| ==> items[i] != items[j]
  }

  /** Add the finalizer; the object that the patch returns is the one worked on. */
  function Finalized(s: System, k: Key): System {
    if k !in s.services then Idle(s, k)
    else
      var svc := s.services[k].(finalizer := true);
      At(s.(services := s.services[k := svc]), k,
         Upserting(svc, true, if ShouldIgnore(svc) then {} else LoadBalancerIPs(svc)))
  }

  /** Create or update the object of one more IP, or list the objects. */
  function UpsertedNext(s: System, k: Key, ip: string, items: seq<string>): System
    requires k in s.workers && s.workers[k].Upserting?
  {
    var Upserting(svc, keep, todo) := s.workers[k];
    if todo != {} then
      if ip !in todo then s
      else At(s.(children := Upserted(s.children, k, ip)), k, Upserting(svc, keep, todo - {ip}))
    else if !IsListing(s, k, items) then s
    else At(s, k, Sweeping(svc, keep, items, s.children, false))
  }

  /** Annotate or delete the next listed object, or skip it. */
  function SweptNext(s: System, k: Key, now: int): System
    requires k in s.workers && s.workers[k].Sweeping?
  {
    var Sweeping(svc, keep, left, listed, annotated) := s.workers[k];
    if left == [] then if keep then Idle(s, k) else At(s, k, Releasing)
    else if left[0] !in listed || !Stale(listed[left[0]], svc) then
      At(s, k, Sweeping(svc, keep, left[1..], listed, false))
    else if ShouldIgnore(svc) && !annotated then
      // the update fails unless the object is still the listed one
      if left[0] in s.children && s.children[left[0]] == listed[left[0]]
      then At(s.(children := Annotated(s.children, left[0])), k, Sweeping(svc, keep, left, listed, true))
      else Idle(s, k)
    else
      At(s.(children := Deleted(s.children, left[0], now)), k, Sweeping(svc, keep, left[1..], listed, false))
  }

  /** Delete the object of one more IP, or list the objects. */
  function DeletedByName(s: System, k: Key, ip: string, items: seq<string>, now: int): System
    requires k in s.workers && s.workers[k].DeletingByName?
  {
    var DeletingByName(svc, release, todo) := s.workers[k];
    if todo != {} then
      if ip !in todo then s
      else At(s.(children := Deleted(s.children, ChildName(k, ip), now)), k, DeletingByName(svc, release, todo - {ip}))
    else if !IsListing(s, k, items) then s
    else At(s, k, DeletingListed(svc, release, items, s.children))
  }

  /** Delete the next listed object, or skip it. */
  function DeletedNext(s: System, k: Key, now: int): System
    requires k in s.workers && s.workers[k].DeletingListed?
  {
    var DeletingListed(svc, release, left, listed) := s.workers[k];
    if left == [] then if release then At(s, k, Releasing) else Idle(s, k)
    else if left[0] in listed && listed[left[0]].ipAddress !in LoadBalancerIPs(svc) then
      At(s.(children := Deleted(s.children, left[0], now)), k, DeletingListed(svc, release, left[1..], listed))
    else At(s, k, DeletingListed(svc, release, left[1..], listed))
  }

  function Released(s: System, k: Key): System {
    if k !in s.services then Idle(s, k)
    else Idle(s.(services := Settle(s.services, k, s.services[k].(finalizer := false))), k)
  }

  /** The next API call of a reconcile. `ip` and `items` resolve the order of the loops. */
  function Continued(s: System, k: Key, ip: string, items: seq<string>, now: int): System
    requires k in s.workers
  {
    match s.workers[k]
    case Finalizing => Finalized(s, k)
    case Upserting(_, _, _) => UpsertedNext(s, k, ip, items)
    case Sweeping(_, _, _, _, _) => SweptNext(s, k, now)
    case DeletingByName(_, _, _) => DeletedByName(s, k, ip, items, now)
    case DeletingListed(_, _, _, _) => DeletedNext(s, k, now)
    case Releasing => Released(s, k)
  }

  /** Names that Kubernetes accepts: a namespace has no dot, and a name is not empty. */
  predicate Valid(k: Key) {
    SEPARATOR !in k.namespace && k.name != ""
  }

  /** One step. An action that is not possible in the state leaves it as it is. Users neither touch the
      controller's finalizer nor the labels and IPs of its objects, and do not label objects themselves. */
  function Next(s: System, a: Action): System {
    match a
    case CreateService(k, svc) =>
      if k in s.services || svc.finalizer || svc.deletionTimestamp.Some? then s
      else s.(services := s.services[k := svc])
    case UpdateService(k, annotations, ingress, otherFinalizers) =>
      if k !in s.services then s
      else
        var svc := s.services[k].(annotations := annotations, ingress := ingress, otherFinalizers := otherFinalizers);
        s.(services := Settle(s.services, k, svc))
    case DeleteService(k, at) =>
      if k !in s.services || s.services[k].deletionTimestamp.Some? then s
      else s.(services := Settle(s.services, k, s.services[k].(deletionTimestamp := Some(at))))
    case CreateChild(name, child) =>
      if name in s.children || SERVICE_LABEL in child.labels then s
      else s.(children := s.children[name := child])
    case EditChild(name, annotations, finalizer, status) =>
      if name !in s.children then s
      else
        var p := s.children[name].(annotations := annotations, finalizer := finalizer, status := status);
        s.(children := SettleChild(s.children, name, p))
    case DeleteChild(name, now) =>
      s.(children := Deleted(s.children, name, now))
    case Begin(k) =>
      if k in s.workers || !Valid(k) then s else Started(s, k)
    case Continue(k, ip, items, now) =>
      if k !in s.workers || !Valid(k) then s else Continued(s, k, ip, items, now)
    case Abort(k) =>
      Idle(s, k)
  }

  function Run(s: System, actions: seq<Action>): System {
    if actions == [] then s else Next(Run(s, actions[..|actions| - 1]), actions[|actions| - 1])
  }

  // ----- The invariant -----

  /** An object of the service that is not marked for deletion. */
  predicate Live(c: Children, k: Key, name: string) {
    name in c && BelongsTo(c[name], k) && c[name].deletionTimestamp.None?
  }

  predicate Guarded(s: System, k: Key) {
    k in s.services && s.services[k].finalizer
  }

  ghost predicate NoneLive(c: Children, k: Key) {
    forall name :: !Live(c, k, name)
  }

  /** Objects that are not marked exist only while the service exists and carries the finalizer, and
      they have the names generated for their IPs. */
  ghost predicate Owned(s: System, k: Key) {
    forall name :: Live(s.children, k, name) ==> Guarded(s, k) && name == ChildName(k, s.children[name].ipAddress)
  }

  /** What a reconcile in progress has achieved so far. */
  ghost predicate PhaseInvariant(s: System, k: Key, phase: Phase) {
    match phase
    case Finalizing => true
    case Upserting(svc, keep, todo) =>
      Guarded(s, k) && (!keep ==> todo == {} && !ShouldFinalize(svc))
    case Sweeping(svc, keep, items, listed, _) =>
      && Guarded(s, k)
      && (!keep ==> !ShouldFinalize(svc))
      && (!keep ==> forall name :: Live(s.children, k, name) ==> name in items && name in listed)
    case DeletingByName(svc, release, todo) =>
      && (release ==> Guarded(s, k))
      && forall name :: Live(s.children, k, name) ==>
           s.children[name].ipAddress in LoadBalancerIPs(svc) ==> s.children[name].ipAddress in todo
    case DeletingListed(svc, release, items, listed) =>
      && (release ==> Guarded(s, k))
      && forall name :: Live(s.children, k, name) ==>
           && name in items && name in listed
           && listed[name].ipAddress == s.children[name].ipAddress
           && s.children[name].ipAddress !in LoadBalancerIPs(svc)
    case Releasing => Guarded(s, k) && NoneLive(s.children, k)
  }

  ghost predicate KeyInvariant(s: System, k: Key) {
    Owned(s, k) && (k in s.workers ==> PhaseInvariant(s, k, s.workers[k]))
  }

  ghost predicate Invariant(s: System) {
    forall k :: Valid(k) ==> KeyInvariant(s, k)
  }

  // ----- Steps that cannot disturb a service -----

  /** Every unmarked object of the service was one before, with the same IP. */
  ghost predicate NoNewLive(c: Children, c': Children, k: Key) {
    forall name :: Live(c', k, name) ==> Live(c, k, name) && c'[name].ipAddress == c[name].ipAddress
  }

  lemma Undisturbed(s: System, s': System, k: Key)
    requires KeyInvariant(s, k)
    requires NoNewLive(s.children, s'.children, k)
    requires Guarded(s, k) ==> Guarded(s', k)
    requires k in s'.workers ==> k in s.workers && s'.workers[k] == s.workers[k]
    ensures KeyInvariant(s', k)
  {
  }

  lemma UpsertOfOther(c: Children, k: Key, ip: string, other: Key)
    requires Valid(k) && Valid(other) && other != k
    ensures NoNewLive(c, Upserted(c, k, ip), other)
  {
    if LabelValue(k.namespace, k.name) == LabelValue(other.namespace, other.name) {
      LabelValueInjective(k.namespace, k.name, other.namespace, other.name);
    }
  }

  /** Users renew no objects, and take no finalizer away. */
  lemma UserActionHarmless(s: System, a: Action, k: Key)
    requires !a.Begin? && !a.Continue?
    ensures NoNewLive(s.children, Next(s, a).children, k)
    ensures Guarded(s, k) ==> Guarded(Next(s, a), k)
    ensures k in Next(s, a).workers ==> k in s.workers && Next(s, a).workers[k] == s.workers[k]
  {
    if a.DeleteChild? {
      DeletedNoNewLive(s.children, a.name, a.now, k);
    } else if a.EditChild? && a.name in s.children {
      var p := s.children[a.name].(annotations := a.annotations, finalizer := a.finalizer, status := a.status);
      assert NoNewLive(s.children, SettleChild(s.children, a.name, p), k);
    }
  }

  /** The steps of users keep the invariant. */
  lemma UserStep(s: System, a: Action, k: Key)
    requires KeyInvariant(s, k) && Valid(k)
    requires !a.Begin? && !a.Continue?
    ensures KeyInvariant(Next(s, a), k)
  {
    UserActionHarmless(s, a, k);
    Undisturbed(s, Next(s, a), k);
  }

  lemma BeginStep(s: System, a: Action, k: Key)
    requires KeyInvariant(s, k) && Valid(k) && a.Begin?
    ensures KeyInvariant(Next(s, a), k)
  {
    if a.k != k || a.k in s.workers {
      Undisturbed(s, Next(s, a), k);
    } else {
      StartKeepsInvariant(s, k);
    }
  }

  lemma StartKeepsInvariant(s: System, k: Key)
    requires KeyInvariant(s, k) && Valid(k) && k !in s.workers
    ensures KeyInvariant(Started(s, k), k)
  {
  }

  lemma DeletedNoNewLive(c: Children, name: string, now: int, k: Key)
    ensures NoNewLive(c, Deleted(c, name, now), k)
    ensures !Live(Deleted(c, name, now), k, name)
  {
  }

  /** Services and reconciles of other keys are not affected, nor are objects of other services renewed. */
  ghost predicate Local(s: System, s': System, k: Key) {
    && NoNewLive(s.children, s'.children, k)
    && (k in s.services <==> k in s'.services)
    && (k in s.services ==> s'.services[k] == s.services[k])
    && (k in s.workers <==> k in s'.workers)
    && (k in s.workers ==> s'.workers[k] == s.workers[k])
  }

  lemma DeletionIsLocal(s: System, name: string, now: int, w: Key, phase: Phase, k: Key)
    requires w != k
    ensures Local(s, At(s.(children := Deleted(s.children, name, now)), w, phase), k)
  {
  }

  lemma SweepingIsLocal(s: System, w: Key, now: int, k: Key)
    requires w != k && w in s.workers && s.workers[w].Sweeping?
    ensures Local(s, SweptNext(s, w, now), k)
  {
    var Sweeping(svc, keep, left, listed, _) := s.workers[w];
    if left != [] {
      DeletionIsLocal(s, left[0], now, w, Sweeping(svc, keep, left[1..], listed, false), k);
    }
  }

  lemma DeletingIsLocal(s: System, w: Key, ip: string, items: seq<string>, now: int, k: Key)
    requires w != k && w in s.workers
    ensures s.workers[w].DeletingByName? ==> Local(s, DeletedByName(s, w, ip, items, now), k)
    ensures s.workers[w].DeletingListed? ==> Local(s, DeletedNext(s, w, now), k)
  {
    match s.workers[w]
    case DeletingByName(svc, release, todo) =>
      DeletionIsLocal(s, ChildName(w, ip), now, w, DeletingByName(svc, release, todo - {ip}), k);
    case DeletingListed(svc, release, left, listed) =>
      if left != [] {
        DeletionIsLocal(s, left[0], now, w, DeletingListed(svc, release, left[1..], listed), k);
      }
    case _ =>
  }

  lemma UpsertingIsLocal(s: System, w: Key, ip: string, items: seq<string>, k: Key)
    requires Valid(k) && Valid(w) && w != k && w in s.workers && s.workers[w].Upserting?
    ensures Local(s, UpsertedNext(s, w, ip, items), k)
  {
    UpsertOfOther(s.children, w, ip, k);
  }

  lemma WorkerIsLocal(s: System, w: Key, ip: string, items: seq<string>, now: int, k: Key)
    requires Valid(k) && Valid(w) && w != k && w in s.workers
    ensures Local(s, Continued(s, w, ip, items, now), k)
  {
    match s.workers[w]
    case Finalizing =>
    case Upserting(_, _, _) => UpsertingIsLocal(s, w, ip, items, k);
    case Sweeping(_, _, _, _, _) => SweepingIsLocal(s, w, now, k);
    case DeletingByName(_, _, _) => DeletingIsLocal(s, w, ip, items, now, k);
    case DeletingListed(_, _, _, _) => DeletingIsLocal(s, w, ip, items, now, k);
    case Releasing =>
  }

  /** A reconcile of another service keeps the invariant of this one. */
  lemma OtherWorkerStep(s: System, w: Key, ip: string, items: seq<string>, now: int, k: Key)
    requires KeyInvariant(s, k) && Valid(k) && Valid(w) && w != k && w in s.workers
    ensures KeyInvariant(Continued(s, w, ip, items, now), k)
  {
    WorkerIsLocal(s, w, ip, items, now, k);
    Undisturbed(s, Continued(s, w, ip, items, now), k);
  }

  lemma FinalizingStep(s: System, k: Key)
    requires KeyInvariant(s, k) && Valid(k) && k in s.workers && s.workers[k].Finalizing?
    ensures KeyInvariant(Finalized(s, k), k)
  {
  }

  lemma ListingComplete(s: System, k: Key, items: seq<string>)
    requires IsListing(s, k, items)
    ensures forall name :: Live(s.children, k, name) ==> name in items && name in s.children
  {
    forall name | Live(s.children, k, name)
      ensures name in items
    {
      assert name in Labelled(s.children, k);
    }
  }

  lemma UpsertingStep(s: System, k: Key, ip: string, items: seq<string>)
    requires KeyInvariant(s, k) && Valid(k) && k in s.workers && s.workers[k].Upserting?
    ensures KeyInvariant(UpsertedNext(s, k, ip, items), k)
  {
    if IsListing(s, k, items) {
      ListingComplete(s, k, items);
    }
  }

  lemma SweepingStep(s: System, k: Key, now: int)
    requires KeyInvariant(s, k) && Valid(k) && k in s.workers && s.workers[k].Sweeping?
    ensures KeyInvariant(SweptNext(s, k, now), k)
  {
    var Sweeping(svc, keep, left, listed, annotated) := s.workers[k];
    if left != [] {
      var c', rest := Deleted(s.children, left[0], now), left[1..];
      DeletedNoNewLive(s.children, left[0], now, k);
      assert forall name :: name in left ==> name == left[0] || name in rest;
      SweptOnly(s, k, c', Sweeping(svc, keep, rest, listed, false));
      if left[0] in s.children {
        SweptOnly(s, k, Annotated(s.children, left[0]), Sweeping(svc, keep, left, listed, true));
      }
    }
  }

  /** The invariant of a sweep that has moved on to the phase `next` and the objects `c`. */
  lemma SweptOnly(s: System, k: Key, c: Children, next: Phase)
    requires KeyInvariant(s, k) && k in s.workers && s.workers[k].Sweeping? && next.Sweeping?
    requires next.svc == s.workers[k].svc && next.keep == s.workers[k].keep && next.listed == s.workers[k].listed
    requires NoNewLive(s.children, c, k)
    requires forall name :: Live(c, k, name) && name in s.workers[k].items ==> name in next.items
    ensures KeyInvariant(At(s.(children := c), k, next), k)
  {
  }

  lemma DeletingByNameStep(s: System, k: Key, ip: string, items: seq<string>, now: int)
    requires KeyInvariant(s, k) && Valid(k) && k in s.workers && s.workers[k].DeletingByName?
    ensures KeyInvariant(DeletedByName(s, k, ip, items, now), k)
  {
    if s.workers[k].todo == {} {
      if IsListing(s, k, items) {
        ListingComplete(s, k, items);
      }
    } else {
      DeletedNoNewLive(s.children, ChildName(k, ip), now, k);
    }
  }

  lemma DeletingListedStep(s: System, k: Key, now: int)
    requires KeyInvariant(s, k) && Valid(k) && k in s.workers && s.workers[k].DeletingListed?
    ensures KeyInvariant(DeletedNext(s, k, now), k)
  {
    var left := s.workers[k].items;
    if left != [] {
      DeletedNoNewLive(s.children, left[0], now, k);
      assert forall name :: name in left ==> name == left[0] || name in left[1..];
    }
  }

  lemma ReleasingStep(s: System, k: Key)
    requires KeyInvariant(s, k) && k in s.workers && s.workers[k].Releasing?
    ensures KeyInvariant(Released(s, k), k)
  {
  }

  /** A reconcile keeps the invariant of its own service. */
  lemma OwnWorkerStep(s: System, k: Key, ip: string, items: seq<string>, now: int)
    requires KeyInvariant(s, k) && Valid(k) && k in s.workers
    ensures KeyInvariant(Continued(s, k, ip, items, now), k)
  {
    match s.workers[k]
    case Finalizing => FinalizingStep(s, k);
    case Upserting(_, _, _) => UpsertingStep(s, k, ip, items);
    case Sweeping(_, _, _, _, _) => SweepingStep(s, k, now);
    case DeletingByName(_, _, _) => DeletingByNameStep(s, k, ip, items, now);
    case DeletingListed(_, _, _, _) => DeletingListedStep(s, k, now);
    case Releasing => ReleasingStep(s, k);
  }

  lemma NextKeepsInvariant(s: System, a: Action)
    requires Invariant(s)
    ensures Invariant(Next(s, a))
  {
    forall k | Valid(k)
      ensures KeyInvariant(Next(s, a), k)
    {
      if a.Begin? {
        BeginStep(s, a, k);
      } else if !a.Continue? {
        UserStep(s, a, k);
      } else if a.k in s.workers && Valid(a.k) {
        if a.k == k {
          OwnWorkerStep(s, k, a.ip, a.items, a.now);
        } else {
          OtherWorkerStep(s, a.k, a.ip, a.items, a.now, k);
        }
      }
    }
  }

  /** In every reachable state, however calls interleave and fail: an object labelled for a service and
      not marked for deletion implies that the service exists and carries the finalizer. */
  lemma {:induction false} RunKeepsInvariant(s: System, actions: seq<Action>)
    requires Invariant(s)
    ensures Invariant(Run(s, actions))
  {
    if actions != [] {
      RunKeepsInvariant(s, actions[..|actions| - 1]);
      NextKeepsInvariant(Run(s, actions[..|actions| - 1]), actions[|actions| - 1]);
    }
  }

  /** The invariant holds before the controller has started. */
  lemma InitialInvariant(s: System)
    requires s.workers == map[]
    requires forall name :: name in s.children ==> SERVICE_LABEL !in s.children[name].labels
    ensures Invariant(s)
  {
  }

  /** The finalizer precedes the objects: when an unmarked object of a service appears, the service
      already carries the finalizer, and its own reconcile is the one that creates the object. */
  lemma FinalizerFirst(s: System, a: Action, k: Key, name: string)
    requires Invariant(s) && Valid(k)
    requires !Live(s.children, k, name) && Live(Next(s, a).children, k, name)
    ensures Guarded(s, k)
    ensures a.Continue? && a.k == k && k in s.workers && s.workers[k].Upserting?
  {
    assert KeyInvariant(s, k);
    if a.Continue? && a.k in s.workers && Valid(a.k) && a.k != k {
      WorkerIsLocal(s, a.k, a.ip, a.items, a.now, k);
    }
  }

  /** The finalizer outlives the objects: when a service loses its finalizer, or is gone, then by the end
      of its own reconcile, and none of its objects is left unmarked. */
  lemma FinalizerLast(s: System, a: Action, k: Key)
    requires Invariant(s) && Valid(k)
    requires Guarded(s, k) && !Guarded(Next(s, a), k)
    ensures a.Continue? && a.k == k && k in s.workers && s.workers[k].Releasing?
    ensures NoneLive(Next(s, a).children, k)
  {
  }
}
