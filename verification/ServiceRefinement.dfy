/**
 The interleaved protocol refines the generic reconciler with the service actuator: a reconcile that runs
 call by call, in whatever order it visits IPs and objects, and that nothing disturbs, leaves services
 and objects exactly as one call of the reconciler does.
 */
module ServiceRefinement {
  import opened Wrappers
  import opened Services
  import opened ServiceActuators
  import opened ServiceProtocol
  import Reconcilers

  // ----- The reconciler of one service, in one piece -----

  function ServiceView(k: Key): Reconcilers.View<System> {
    Reconcilers.View(
      (s: System) => k in s.services,
      (s: System) => k in s.services && s.services[k].deletionTimestamp.Some?,
      (s: System) => k in s.services && s.services[k].finalizer,
      (s: System, b: bool) =>
        if k in s.services then s.(services := Settle(s.services, k, s.services[k].(finalizer := b))) else s)
  }

  /** The object that the reconciler passes on; without one it has only the name. */
  function ServiceOf(s: System, k: Key): Service {
    if k in s.services then s.services[k] else NO_SERVICE
  }

  function ActuatorOf(k: Key, now: int, syncPeriod: int): Reconcilers.Actuator<System> {
    Reconcilers.Actuator(
      (s: System) => ShouldFinalize(ServiceOf(s, k)),
      (s: System) => (s.(children := CreateOrUpdated(s.children, k, ServiceOf(s, k), now)), Reconcilers.Done(syncPeriod)),
      (s: System) => (s.(children := AllDeleted(s.children, k, ServiceOf(s, k), now)), Reconcilers.Done(0)))
  }

  function AllDeleted(c: Children, k: Key, svc: Service, now: int): Children {
    RetiredAll(c, DeletedNames(c, k, svc), false, now)
  }

  /** One reconcile whose API calls all succeed. */
  function ReconciledService(s: System, k: Key, now: int, syncPeriod: int): System {
    Reconcilers.Reconciled(ServiceView(k), ActuatorOf(k, now, syncPeriod), true, s,
      Reconcilers.Answers(Reconcilers.Accepted, Reconcilers.Accepted, Reconcilers.Accepted)).0
  }

  lemma ServiceViewLawful(k: Key)
    ensures Reconcilers.Lawful(ServiceView(k))
  {
  }

  /** The controller: the generic reconciler with this actuator, which also deletes the objects of a
      service that is gone, whatever the API server answers to the reconciler's own requests. */
  method Control(s: System, k: Key, now: int, syncPeriod: int, api: Reconcilers.Answers)
    returns (s': System, result: Reconcilers.ReconcileResult, ghost steps: seq<Reconcilers.Step<System>>)
    ensures (s', result) == Reconcilers.Reconciled(ServiceView(k), ActuatorOf(k, now, syncPeriod), true, s, api)
    ensures Reconcilers.Leads(ServiceView(k), ActuatorOf(k, now, syncPeriod), s, steps, s')
    ensures Reconcilers.Disciplined(ServiceView(k), ActuatorOf(k, now, syncPeriod), steps)
  {
    ServiceViewLawful(k);
    var reconciler := new Reconcilers.Reconciler(ServiceView(k), true, s);
    result := reconciler.Reconcile(ActuatorOf(k, now, syncPeriod), api);
    s', steps := reconciler.state, reconciler.steps;
  }

  // ----- An update on its way -----

  function UpsertIPs(svc: Service): set<string> {
    if ShouldIgnore(svc) then {} else LoadBalancerIPs(svc)
  }

  /** The objects when the upserts are done. */
  function AllUpserted(c: Children, k: Key, svc: Service): Children {
    if ShouldIgnore(svc) then c else UpsertedAll(c, k, LoadBalancerIPs(svc))
  }

  function StaleIn(listed: Children, svc: Service, items: seq<string>): set<string> {
    set name | name in items && name in listed && Stale(listed[name], svc)
  }

  /** How far an undisturbed reconcile has come that started from the objects `c`. */
  ghost predicate OnTheWay(c: Children, k: Key, svc: Service, now: int, s: System) {
    if k !in s.workers || s.workers[k].Releasing? then s.children == CreateOrUpdated(c, k, svc, now)
    else
      match s.workers[k]
      case Upserting(svc', _, todo) =>
        svc' == svc && todo <= UpsertIPs(svc) && s.children == UpsertedAll(c, k, UpsertIPs(svc) - todo)
      case Sweeping(svc', _, left, listed, annotated) =>
        && svc' == svc && listed == AllUpserted(c, k, svc) && Distinct(left)
        && StaleIn(listed, svc, left) <= StaleNames(listed, k, svc)
        && var done := StaleNames(listed, k, svc) - StaleIn(listed, svc, left);
        && var retired := RetiredAll(listed, done, ShouldIgnore(svc), now);
        && (annotated ==> left != [] && left[0] in StaleIn(listed, svc, left) && ShouldIgnore(svc) && left[0] in retired)
        && s.children == if annotated then Annotated(retired, left[0]) else retired
      case _ => false
  }

  lemma UpsertingOnTheWay(c: Children, k: Key, svc: Service, now: int, s: System, ip: string, items: seq<string>)
    requires OnTheWay(c, k, svc, now, s) && k in s.workers && s.workers[k].Upserting?
    ensures OnTheWay(c, k, svc, now, UpsertedNext(s, k, ip, items))
  {
    var Upserting(_, keep, todo) := s.workers[k];
    var ips := UpsertIPs(svc);
    if todo != {} {
      if ip in todo {
        UpsertedOneMore(c, k, ips - todo, ip);
        assert ips - todo + {ip} == ips - (todo - {ip});
      }
    } else if IsListing(s, k, items) {
      assert ips - todo == ips;
      UpsertedNone(c, k);
      var listed := s.children;
      assert listed == AllUpserted(c, k, svc);
      assert StaleIn(listed, svc, items) == StaleNames(listed, k, svc) by {
        forall name | name in listed
          ensures name in items <==> BelongsTo(listed[name], k)
        {
          assert name in Labelled(listed, k) <==> name in (set n | n in items);
        }
      }
      assert StaleNames(listed, k, svc) - StaleIn(listed, svc, items) == {};
      RetiredNone(listed, ShouldIgnore(svc), now);
    }
  }

  lemma SweepingOnTheWay(c: Children, k: Key, svc: Service, now: int, s: System)
    requires OnTheWay(c, k, svc, now, s) && k in s.workers && s.workers[k].Sweeping?
    ensures OnTheWay(c, k, svc, now, SweptNext(s, k, now))
  {
    var Sweeping(_, keep, left, listed, annotated) := s.workers[k];
    var stale := StaleNames(listed, k, svc);
    var done := stale - StaleIn(listed, svc, left);
    if left == [] {
      assert done == stale;
    } else {
      var name, rest := left[0], left[1..];
      assert name !in rest by {
        assert forall j :: 0 <= j < |rest| ==> rest[j] == left[j + 1];
      }
      assert forall n :: n in left <==> n == name || n in rest;
      if name !in listed || !Stale(listed[name], svc) {
        assert StaleIn(listed, svc, rest) == StaleIn(listed, svc, left);
      } else {
        assert name in StaleIn(listed, svc, left);
        RetiredOneMore(listed, done, name, ShouldIgnore(svc), now);
        assert stale - StaleIn(listed, svc, rest) == done + {name};
      }
    }
  }


  // ----- A deletion on its way -----

  /** The listed objects of a deletion that have none of the service's IPs. */
  function OthersIn(listed: Children, svc: Service, items: set<string>): set<string> {
    set name | name in items && name in listed && listed[name].ipAddress !in LoadBalancerIPs(svc)
  }

  ghost predicate DeletionOnTheWay(c: Children, k: Key, svc: Service, now: int, s: System) {
    if k !in s.workers || s.workers[k].Releasing? then s.children == AllDeleted(c, k, svc, now)
    else
      var named := ChildNames(k, LoadBalancerIPs(svc));
      match s.workers[k]
      case DeletingByName(svc', _, todo) =>
        && svc' == svc && todo <= LoadBalancerIPs(svc)
        && s.children == RetiredAll(c, ChildNames(k, LoadBalancerIPs(svc) - todo), false, now)
      case DeletingListed(svc', _, left, listed) =>
        && svc' == svc && listed == RetiredAll(c, named, false, now) && Distinct(left)
        && (forall name :: name in left ==> name in Labelled(listed, k))
        && var todo := OthersIn(listed, svc, set name | name in left);
        && s.children == RetiredAll(c, named + (OthersIn(listed, svc, Labelled(listed, k)) - todo), false, now)
      case _ => false
  }

  lemma DeletingByNameOnTheWay(c: Children, k: Key, svc: Service, now: int, s: System, ip: string, items: seq<string>)
    requires DeletionOnTheWay(c, k, svc, now, s) && k in s.workers && s.workers[k].DeletingByName?
    ensures DeletionOnTheWay(c, k, svc, now, DeletedByName(s, k, ip, items, now))
  {
    var DeletingByName(_, release, todo) := s.workers[k];
    var ips := LoadBalancerIPs(svc);
    if todo != {} {
      if ip in todo {
        DeletedOneMore(c, ChildNames(k, ips - todo), ChildName(k, ip), now);
        assert ChildNames(k, ips - (todo - {ip})) == ChildNames(k, ips - todo) + {ChildName(k, ip)};
      }
    } else if IsListing(s, k, items) {
      assert ips - todo == ips;
      forall name | name in items
        ensures name in Labelled(s.children, k)
      {
        assert name in (set n | n in items);
      }
      var others := OthersIn(s.children, svc, Labelled(s.children, k));
      assert ChildNames(k, ips) + (others - others) == ChildNames(k, ips);
    }
  }

  lemma DeletingListedOnTheWay(c: Children, k: Key, svc: Service, now: int, s: System)
    requires DeletionOnTheWay(c, k, svc, now, s) && k in s.workers && s.workers[k].DeletingListed?
    ensures DeletionOnTheWay(c, k, svc, now, DeletedNext(s, k, now))
  {
    var DeletingListed(_, release, left, listed) := s.workers[k];
    var named, all := ChildNames(k, LoadBalancerIPs(svc)), OthersIn(listed, svc, Labelled(listed, k));
    var todo := OthersIn(listed, svc, set name | name in left);
    if left == [] {
      assert named + (all - todo) == named + all;
      SameRetired(c, named + all, DeletedNames(c, k, svc), now);
    } else {
      var name, rest := left[0], left[1..];
      assert name !in rest by {
        assert forall j :: 0 <= j < |rest| ==> rest[j] == left[j + 1];
      }
      assert forall n :: n in left <==> n == name || n in rest;
      assert name in left;
      var todo' := OthersIn(listed, svc, set n | n in rest);
      if listed[name].ipAddress !in LoadBalancerIPs(svc) {
        DeletedOneMore(c, named + (all - todo), name, now);
        assert named + (all - todo') == named + (all - todo) + {name};
      } else {
        assert todo' == todo;
      }
    }
  }

  // ----- A whole reconcile -----

  /** How far an undisturbed reconcile that began in `s0` has come in `s`. */
  ghost predicate OnCourse(s0: System, k: Key, now: int, syncPeriod: int, s: System) {
    var svc := ServiceOf(s0, k);
    if k !in s.workers then
      var goal := ReconciledService(s0, k, now, syncPeriod);
      s.services == goal.services && s.children == goal.children
    else
      match s.workers[k]
      case Finalizing =>
        s.services == s0.services && s.children == s0.children && Begins(s0, k) && ShouldFinalize(svc)
      case Upserting(_, keep, _) => UpdateOnCourse(s0, k, now, s, keep)
      case Sweeping(_, keep, _, _, _) => UpdateOnCourse(s0, k, now, s, keep)
      case DeletingByName(_, release, _) => DeletionOnCourse(s0, k, now, s, release)
      case DeletingListed(_, release, _, _) => DeletionOnCourse(s0, k, now, s, release)
      case Releasing =>
        && s.services == s0.services && k in s0.services
        && if svc.deletionTimestamp.Some? then svc.finalizer && s.children == AllDeleted(s0.children, k, svc, now)
           else svc.finalizer && !ShouldFinalize(svc) && s.children == CreateOrUpdated(s0.children, k, svc, now)
  }

  predicate Begins(s0: System, k: Key) {
    k in s0.services && s0.services[k].deletionTimestamp.None?
  }

  ghost predicate UpdateOnCourse(s0: System, k: Key, now: int, s: System, keep: bool) {
    && Begins(s0, k) && keep == ShouldFinalize(s0.services[k])
    && var svc := if keep then s0.services[k].(finalizer := true) else s0.services[k];
    && svc.finalizer && s.services == s0.services[k := svc]
    && OnTheWay(s0.children, k, svc, now, s)
  }

  ghost predicate DeletionOnCourse(s0: System, k: Key, now: int, s: System, release: bool) {
    && s.services == s0.services
    && release == (k in s0.services)
    && (release ==> s0.services[k].deletionTimestamp.Some? && s0.services[k].finalizer)
    && DeletionOnTheWay(s0.children, k, ServiceOf(s0, k), now, s)
  }

  lemma BeginOnCourse(s0: System, k: Key, now: int, syncPeriod: int)
    requires k !in s0.workers
    ensures OnCourse(s0, k, now, syncPeriod, Started(s0, k))
  {
  }

  lemma FinalizingOnCourse(s0: System, k: Key, now: int, syncPeriod: int, s: System)
    requires OnCourse(s0, k, now, syncPeriod, s) && k in s.workers && s.workers[k].Finalizing?
    ensures OnCourse(s0, k, now, syncPeriod, Finalized(s, k))
  {
  }

  /** The finalizer plays no part in what an update does. */
  lemma FinalizerIrrelevant(c: Children, k: Key, svc: Service, now: int)
    ensures CreateOrUpdated(c, k, svc.(finalizer := true), now) == CreateOrUpdated(c, k, svc, now)
  {
  }

  lemma UpdatingOnCourse(s0: System, k: Key, now: int, syncPeriod: int, s: System, ip: string, items: seq<string>)
    requires OnCourse(s0, k, now, syncPeriod, s) && k in s.workers
    requires s.workers[k].Upserting? || s.workers[k].Sweeping?
    ensures OnCourse(s0, k, now, syncPeriod, Continued(s, k, ip, items, now))
  {
    var keep := s.workers[k].keep;
    var svc := if keep then s0.services[k].(finalizer := true) else s0.services[k];
    if s.workers[k].Upserting? {
      UpsertingOnTheWay(s0.children, k, svc, now, s, ip, items);
    } else {
      SweepingOnTheWay(s0.children, k, svc, now, s);
      FinalizerIrrelevant(s0.children, k, s0.services[k], now);
      if s.workers[k].items == [] {
        assert s0.services[k := s0.services[k]] == s0.services;
      } else {
        SweepStays(s0.children, k, svc, now, s);
      }
    }
  }

  /** Undisturbed, a sweep is not aborted: the object that it is about to annotate is the listed one. */
  lemma SweepStays(c: Children, k: Key, svc: Service, now: int, s: System)
    requires OnTheWay(c, k, svc, now, s) && k in s.workers && s.workers[k].Sweeping? && s.workers[k].items != []
    ensures k in SweptNext(s, k, now).workers && SweptNext(s, k, now).workers[k].Sweeping?
    ensures SweptNext(s, k, now).workers[k].keep == s.workers[k].keep && SweptNext(s, k, now).services == s.services
  {
  }

  lemma DeletingOnCourse(s0: System, k: Key, now: int, syncPeriod: int, s: System, ip: string, items: seq<string>)
    requires OnCourse(s0, k, now, syncPeriod, s) && k in s.workers
    requires s.workers[k].DeletingByName? || s.workers[k].DeletingListed?
    ensures OnCourse(s0, k, now, syncPeriod, Continued(s, k, ip, items, now))
  {
    if s.workers[k].DeletingByName? {
      DeletingByNameOnTheWay(s0.children, k, ServiceOf(s0, k), now, s, ip, items);
    } else {
      DeletingListedOnTheWay(s0.children, k, ServiceOf(s0, k), now, s);
    }
  }

  lemma ReleasingOnCourse(s0: System, k: Key, now: int, syncPeriod: int, s: System)
    requires OnCourse(s0, k, now, syncPeriod, s) && k in s.workers && s.workers[k].Releasing?
    ensures OnCourse(s0, k, now, syncPeriod, Released(s, k))
  {
  }

  /** Only the reconcile of one service acts, all at the same time, from its beginning to its end. */
  predicate OnlyReconciles(s: System, k: Key, now: int, actions: seq<Action>) {
    if actions == [] then false
    else if |actions| == 1 then actions[0] == Begin(k)
    else
      var before, last := actions[..|actions| - 1], actions[|actions| - 1];
      OnlyReconciles(s, k, now, before) && k in Run(s, before).workers && last.Continue? && last.k == k && last.now == now
  }

  lemma {:induction false} ReconcileOnCourse(s: System, k: Key, now: int, syncPeriod: int, actions: seq<Action>)
    requires Valid(k) && k !in s.workers && OnlyReconciles(s, k, now, actions)
    ensures OnCourse(s, k, now, syncPeriod, Run(s, actions))
  {
    var before, last := actions[..|actions| - 1], actions[|actions| - 1];
    if |actions| == 1 {
      BeginOnCourse(s, k, now, syncPeriod);
      assert Run(s, before) == s;
    } else {
      ReconcileOnCourse(s, k, now, syncPeriod, before);
      ContinueOnCourse(s, k, now, syncPeriod, Run(s, before), last);
    }
  }

  lemma ContinueOnCourse(s0: System, k: Key, now: int, syncPeriod: int, s: System, a: Action)
    requires Valid(k) && OnCourse(s0, k, now, syncPeriod, s) && k in s.workers
    requires a.Continue? && a.k == k && a.now == now
    ensures OnCourse(s0, k, now, syncPeriod, Next(s, a))
  {
    match s.workers[k]
    case Finalizing => FinalizingOnCourse(s0, k, now, syncPeriod, s);
    case Upserting(_, _, _) => UpdatingOnCourse(s0, k, now, syncPeriod, s, a.ip, a.items);
    case Sweeping(_, _, _, _, _) => UpdatingOnCourse(s0, k, now, syncPeriod, s, a.ip, a.items);
    case DeletingByName(_, _, _) => DeletingOnCourse(s0, k, now, syncPeriod, s, a.ip, a.items);
    case DeletingListed(_, _, _, _) => DeletingOnCourse(s0, k, now, syncPeriod, s, a.ip, a.items);
    case Releasing => ReleasingOnCourse(s0, k, now, syncPeriod, s);
  }

  /** An undisturbed reconcile that has ended left services and objects exactly as the reconciler does in
      one piece, whatever the state of the service when it began. */
  lemma ProtocolRefinesReconciler(s: System, k: Key, now: int, syncPeriod: int, actions: seq<Action>)
    requires Valid(k) && k !in s.workers && OnlyReconciles(s, k, now, actions)
    requires k !in Run(s, actions).workers
    ensures Run(s, actions).services == ReconciledService(s, k, now, syncPeriod).services
    ensures Run(s, actions).children == ReconciledService(s, k, now, syncPeriod).children
  {
    ReconcileOnCourse(s, k, now, syncPeriod, actions);
  }

  // ----- A reconcile in plain terms -----

  lemma NeededIff(svc: Service)
    ensures ShouldFinalize(svc) <==> !Ignored(svc) && exists ip :: HasIP(svc, ip)
  {
    if ip :| HasIP(svc, ip) {
      assert ip in LoadBalancerIPs(svc);
    } else if LoadBalancerIPs(svc) != {} {
      var ip :| ip in LoadBalancerIPs(svc);
      assert HasIP(svc, ip);
    }
  }

  lemma DeletedService(s: System, k: Key, now: int, syncPeriod: int)
    requires k in s.services && s.services[k].deletionTimestamp.Some?
    ensures var svc := s.services[k];
      ReconciledService(s, k, now, syncPeriod) ==
        if svc.finalizer then
          s.(children := AllDeleted(s.children, k, svc, now), services := Settle(s.services, k, svc.(finalizer := false)))
        else s
  {
  }

  lemma NeededService(s: System, k: Key, now: int, syncPeriod: int)
    requires k in s.services && s.services[k].deletionTimestamp.None? && ShouldFinalize(s.services[k])
    ensures var svc := s.services[k].(finalizer := true);
      ReconciledService(s, k, now, syncPeriod) ==
        s.(services := s.services[k := svc], children := CreateOrUpdated(s.children, k, svc, now))
  {
  }

  lemma UnneededService(s: System, k: Key, now: int, syncPeriod: int)
    requires k in s.services && s.services[k].deletionTimestamp.None? && !ShouldFinalize(s.services[k])
    ensures var svc := s.services[k];
      ReconciledService(s, k, now, syncPeriod) ==
        if svc.finalizer then
          s.(services := s.services[k := svc.(finalizer := false)], children := CreateOrUpdated(s.children, k, svc, now))
        else s
  {
  }

  /** A reconcile whose API calls all succeed leaves a service that exists with the finalizer exactly if it is
      not under deletion, has an IP, and is not ignored; one that is under deletion goes with its last
      finalizer. Nothing else of the service changes, nor any other service. */
  lemma ServiceAfterReconcile(s: System, k: Key, now: int, syncPeriod: int)
    requires k in s.services
    ensures var svc, services' := s.services[k], ReconciledService(s, k, now, syncPeriod).services;
      var needed := svc.deletionTimestamp.None? && !Ignored(svc) && exists ip :: HasIP(svc, ip);
      && (services' - {k} == s.services - {k})
      && (if svc.deletionTimestamp.Some? && svc.finalizer && !svc.otherFinalizers then k !in services'
          else k in services' && services'[k] == svc.(finalizer := needed))
  {
    var svc := s.services[k];
    NeededIff(svc);
    if svc.deletionTimestamp.Some? {
      DeletedService(s, k, now, syncPeriod);
    } else if ShouldFinalize(svc) {
      NeededService(s, k, now, syncPeriod);
    } else {
      UnneededService(s, k, now, syncPeriod);
    }
  }

  /** It treats the objects as an update does if the service has its finalizer or needs it, as a deletion
      does if the service is under deletion with its finalizer or is gone, and not at all otherwise. */
  lemma ObjectsAfterReconcile(s: System, k: Key, now: int, syncPeriod: int)
    requires k in s.services
    ensures var svc, c' := s.services[k], ReconciledService(s, k, now, syncPeriod).children;
      var needed := !Ignored(svc) && exists ip :: HasIP(svc, ip);
      if !svc.finalizer && (svc.deletionTimestamp.Some? || !needed) then c' == s.children
      else if svc.deletionTimestamp.Some? then c' == AllDeleted(s.children, k, svc, now)
      else c' == CreateOrUpdated(s.children, k, svc.(finalizer := svc.finalizer || needed), now)
  {
    var svc := s.services[k];
    NeededIff(svc);
    if svc.deletionTimestamp.Some? {
      DeletedService(s, k, now, syncPeriod);
    } else if ShouldFinalize(svc) {
      NeededService(s, k, now, syncPeriod);
    } else {
      UnneededService(s, k, now, syncPeriod);
      assert svc.(finalizer := svc.finalizer) == svc;
    }
  }

  /** When a service is gone, every object that is labelled for it is marked or gone after the reconcile. */
  lemma GoneServiceCleaned(s: System, k: Key, now: int, syncPeriod: int, name: string)
    requires k !in s.services && name in s.children && IsFor(s.children[name], k)
    ensures Requested(s.children[name], ReconciledService(s, k, now, syncPeriod).children, name, false, now)
  {
    DeletionMeans(s.children, k, NO_SERVICE, now, name);
  }
}
