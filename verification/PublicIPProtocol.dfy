/**
 Runs of the PublicIPAddress controller: reconciles, whatever Azure and the API server answer,
 interleaved with users editing the object and requesting its deletion.
 */
module PublicIPProtocol {
  import opened Wrappers
  import opened FailedOperations
  import opened Backoff
  import opened Labels
  import opened LoadBalancers
  import opened AzureUtils
  import opened PublicIPAddresses
  import opened Reconcilers
  import opened PublicIPActuators

  function ObjectView(): View<World> {
    View(
      (w: World) => w.present,
      (w: World) => w.resource.deletionTimestamp.Some?,
      (w: World) => w.resource.finalizer,
      (w: World, b: bool) => SetFinalizer(w, b))
  }

  /** Removing the last finalizer of an object under deletion removes the object. */
  function SetFinalizer(w: World, b: bool): World {
    w.(resource := w.resource.(finalizer := b),
       present := w.present && (b || w.resource.deletionTimestamp.None?))
  }

  function ActuatorOf(config: Config, env: Environment): Actuator<World> {
    Actuator(
      (w: World) => true,
      (w: World) => CreateOrUpdateStep(config, w, env),
      (w: World) => DeleteStep(config, w, env))
  }

  function ReconcilePublicIP(config: Config, w: World, env: Environment, api: Answers): (World, ReconcileResult) {
    Reconciled(ObjectView(), ActuatorOf(config, env), false, w, api)
  }

  /** The controller: the generic reconciler with this actuator, which leaves vanished objects alone. Its
      view of the objects is lawful, so that it keeps the discipline of finalizers. */
  method Control(config: Config, w: World, env: Environment, api: Answers)
    returns (w': World, result: ReconcileResult, ghost steps: seq<Step<World>>)
    ensures (w', result) == ReconcilePublicIP(config, w, env, api)
    ensures Leads(ObjectView(), ActuatorOf(config, env), w, steps, w')
    ensures Disciplined(ObjectView(), ActuatorOf(config, env), steps)
  {
    ViewLawful();
    var reconciler := new Reconciler(ObjectView(), false, w);
    result := reconciler.Reconcile(ActuatorOf(config, env), api);
    w', steps := reconciler.state, reconciler.steps;
  }

  datatype Event =
    | Reconcile(env: Environment, api: Answers)
    | Edit(labels: map<string, string>, annotations: map<string, string>, ipAddress: string)
    | RequestDeletion(at: int)

  function Next(config: Config, w: World, e: Event): World {
    match e
    case Reconcile(env, api) => ReconcilePublicIP(config, w, env, api).0
    case Edit(labels, annotations, ipAddress) =>
      w.(resource := w.resource.(labels := labels, annotations := annotations, ipAddress := ipAddress))
    case RequestDeletion(at) =>
      if w.resource.deletionTimestamp.Some? then w
      else if !w.resource.finalizer then w.(present := false)
      else w.(resource := w.resource.(deletionTimestamp := Some(at)))
  }

  function Run(config: Config, w: World, events: seq<Event>): World {
    if events == [] then w else Next(config, Run(config, w, events[..|events| - 1]), events[|events| - 1])
  }

  /** What a reconcile can do: nothing, an update of an undeleted object, or a deletion that keeps or
      releases the finalizer. */
  lemma ReconcileCases(config: Config, w: World, env: Environment, api: Answers)
    ensures var w' := ReconcilePublicIP(config, w, env, api).0;
      var deleted := DeleteStep(config, w, env).0;
      || w' == w
      || (w' == CreateOrUpdateStep(config, SetFinalizer(w, true), env).0
          && w.present && w.resource.deletionTimestamp.None?)
      || ((w' == deleted || w' == SetFinalizer(deleted, false))
          && w.present && w.resource.finalizer && w.resource.deletionTimestamp.Some?)
  {
  }

  // ----- Counters -----

  ghost predicate CountersAccurate(w: World) {
    Accurate(w.resource.status.failedOperations, w.history)
  }

  /** In every run the stored counters say exactly what the recorded outcomes say: for each operation
      the failures since its last success, across updates and deletions, and its last failure. */
  lemma {:induction false} RunKeepsCounters(config: Config, w: World, events: seq<Event>)
    requires CountersAccurate(w)
    ensures CountersAccurate(Run(config, w, events))
  {
    if events != [] {
      RunKeepsCounters(config, w, events[..|events| - 1]);
      NextKeepsCounters(config, Run(config, w, events[..|events| - 1]), events[|events| - 1]);
    }
  }

  lemma NextKeepsCounters(config: Config, w: World, e: Event)
    requires CountersAccurate(w)
    ensures CountersAccurate(Next(config, w, e))
  {
    if e.Reconcile? {
      CreateOrUpdateKeepsCounters(config, SetFinalizer(w, true), e.env);
      DeleteKeepsCounters(config, w, e.env);
      ReconcileCases(config, w, e.env, e.api);
    }
  }

  lemma StoredKeepsCounters(w: World, a: Option<AzureAddress>, o: OperationOutcome, write: StatusWrite)
    requires !write.WriteFailed? && CountersAccurate(w)
    ensures CountersAccurate(Stored(w, a, o, write))
  {
    RecordKeepsAccurate(w.resource.status.failedOperations, w.history, o);
  }

  lemma AttemptFailedKeepsCounters(config: Config, w: World, typ: OperationType, a: Option<AzureAddress>,
                                   error: string, now: int, write: StatusWrite, max: int)
    requires CountersAccurate(w)
    ensures CountersAccurate(AttemptFailed(config, w, typ, a, error, now, write, max).0)
  {
    if !write.WriteFailed? {
      StoredKeepsCounters(w, a, Failed(typ, error, now), write);
    }
  }

  lemma CreateOrUpdateKeepsCounters(config: Config, w: World, env: Environment)
    requires CountersAccurate(w)
    ensures CountersAccurate(CreateOrUpdateStep(config, w, env).0)
  {
    match FindAddress(w.resource, env)
    case Failure(error) =>
      AttemptFailedKeepsCounters(config, w, GetPublicIPAddress, None, error, env.now, env.firstWrite, config.maxGetAttempts);
    case Success(a) =>
      if !env.firstWrite.WriteFailed? {
        StoredKeepsCounters(w, a, Succeeded(GetPublicIPAddress), env.firstWrite);
      }
  }

  lemma CleanKeepsCounters(config: Config, w: World, a: AzureAddress, env: Environment)
    requires CountersAccurate(w)
    ensures CountersAccurate(CleanStep(config, w, a, env).0)
  {
    var (w', error) := CleanAddress(w, a, env);
    if error.Some? {
      AttemptFailedKeepsCounters(config, w', CleanPublicIPAddress, Some(a), error.value, env.now, env.secondWrite, config.maxCleanAttempts);
    } else if !env.secondWrite.WriteFailed? {
      StoredKeepsCounters(w'.(cleaned := w'.cleaned + 1), None, Succeeded(CleanPublicIPAddress), env.secondWrite);
    }
  }

  /** What a deletion can do after a successful lookup. */
  lemma DeleteCases(config: Config, w: World, env: Environment)
    requires FindAddress(w.resource, env).Success? && !env.firstWrite.WriteFailed?
    ensures var a := FindAddress(w.resource, env).value;
      var w' := Stored(w, a, Succeeded(GetPublicIPAddress), env.firstWrite);
      if a.Some? && !Protected(env.firstWrite.annotations) && !WithinGracePeriod(config, w.resource, env.now)
      then DeleteStep(config, w, env) == CleanStep(config, w', a.value, env)
      else DeleteStep(config, w, env).0 == w'
  {
  }

  lemma DeleteKeepsCounters(config: Config, w: World, env: Environment)
    requires CountersAccurate(w)
    ensures CountersAccurate(DeleteStep(config, w, env).0)
  {
    match FindAddress(w.resource, env)
    case Failure(error) =>
      AttemptFailedKeepsCounters(config, w, GetPublicIPAddress, None, error, env.now, env.firstWrite, config.maxGetAttempts);
    case Success(a) =>
      if !env.firstWrite.WriteFailed? {
        DeleteCases(config, w, env);
        StoredKeepsCounters(w, a, Succeeded(GetPublicIPAddress), env.firstWrite);
        if a.Some? {
          CleanKeepsCounters(config, Stored(w, a, Succeeded(GetPublicIPAddress), env.firstWrite), a.value, env);
        }
      }
  }

  // ----- When the finalizer goes -----

  /** Azure confirms the update of the balancer, and confirms the deletion or has no such address. */
  predicate CleaningSucceeds(env: Environment) {
    env.removal.Updated? && (env.deletion.DeleteCompleted? || env.deletion.NotFound?)
  }

  /** The reasons for which a deletion ends. */
  predicate MayFinish(config: Config, o: PublicIPAddress, env: Environment) {
    var ops := o.status.failedOperations;
    var a := FindAddress(o, env);
    && !env.firstWrite.WriteFailed?
    && if a.Failure? then Attempts(ops, GetPublicIPAddress) + 1 >= config.maxGetAttempts
       else
         || a.value.None?
         || Protected(env.firstWrite.annotations)
         || (!WithinGracePeriod(config, o, env.now)
             && !env.secondWrite.WriteFailed?
             && (CleaningSucceeds(env) || Attempts(ops, CleanPublicIPAddress) + 1 >= config.maxCleanAttempts))
  }

  lemma ViewLawful()
    ensures Lawful(ObjectView())
  {
  }

  /** The object vanishes during a status write: in the first one, or in the one after cleaning. */
  predicate Vanishes(config: Config, w: World, env: Environment) {
    var a := FindAddress(w.resource, env);
    || env.firstWrite.Vanished?
    || (a.Success? && a.value.Some? && DueForCleaning(config, w, env) && env.secondWrite.Vanished?)
  }

  /** The finalizer of an object is released in a reconcile exactly if it is under deletion and the
      address was not found, or do-not-clean was set, or cleaning succeeded after the grace period, or
      the get or the clean counter reached its maximum; or if the object vanishes under the actuator. */
  lemma FinalizerReleasedIff(config: Config, w: World, env: Environment, api: Answers)
    requires w.present && w.resource.finalizer
    ensures var deleting := w.resource.deletionTimestamp.Some?;
      !Held(ObjectView(), ReconcilePublicIP(config, w, env, api).0) <==>
        && !api.get.Rejected?
        && (|| ((deleting || api.addFinalizer.Accepted?) && Vanishes(config, w, env))
            || (deleting && MayFinish(config, w.resource, env) && api.removeFinalizer.Accepted?))
  {
    ViewLawful();
    ReleasedIff(ObjectView(), ActuatorOf(config, env), false, w, api);
    LosesIff(config, w, env, api);
    DeleteFinishesIff(config, w, env);
  }

  lemma LosesIff(config: Config, w: World, env: Environment, api: Answers)
    requires w.present && w.resource.finalizer
    ensures Loses(ObjectView(), ActuatorOf(config, env), w, api) <==>
      (w.resource.deletionTimestamp.Some? || api.addFinalizer.Accepted?) && Vanishes(config, w, env)
  {
    DeleteVanishes(config, w, env);
    assert SetFinalizer(w, true) == w;
  }

  lemma DeleteVanishes(config: Config, w: World, env: Environment)
    requires w.present && w.resource.finalizer
    ensures w.resource.deletionTimestamp.Some? ==> (DeleteStep(config, w, env).0.present <==> !Vanishes(config, w, env))
  {
    var a := FindAddress(w.resource, env);
    if a.Success? && !env.firstWrite.WriteFailed? {
      DeleteCases(config, w, env);
    }
  }

  lemma DeleteFinishesIff(config: Config, w: World, env: Environment)
    ensures DeleteStep(config, w, env).1.Done? <==> MayFinish(config, w.resource, env)
  {
    match FindAddress(w.resource, env)
    case Failure(error) =>
      FailedAttemptFinishesIff(config, w, GetPublicIPAddress, None, error, env.now, env.firstWrite, config.maxGetAttempts);
    case Success(a) =>
      if !env.firstWrite.WriteFailed? {
        FoundFinishesIff(config, w, a, env);
      }
  }

  lemma FoundFinishesIff(config: Config, w: World, a: Option<AzureAddress>, env: Environment)
    requires FindAddress(w.resource, env) == Success(a) && !env.firstWrite.WriteFailed?
    ensures DeleteStep(config, w, env).1.Done? <==> MayFinish(config, w.resource, env)
  {
    var ops, stored := w.resource.status.failedOperations, Stored(w, a, Succeeded(GetPublicIPAddress), env.firstWrite);
    DeletionEnds(config, w, a, env);
    if a.Some? {
      OtherAttempts(ops, Succeeded(GetPublicIPAddress), CleanPublicIPAddress);
      CleanFinishesIff(config, stored, a.value, env);
    }
  }

  lemma DeletionEnds(config: Config, w: World, a: Option<AzureAddress>, env: Environment)
    requires FindAddress(w.resource, env) == Success(a) && !env.firstWrite.WriteFailed?
    ensures var stored := Stored(w, a, Succeeded(GetPublicIPAddress), env.firstWrite);
      DeleteStep(config, w, env).1.Done? <==>
        || a.None? || Protected(env.firstWrite.annotations)
        || (!WithinGracePeriod(config, w.resource, env.now) && CleanStep(config, stored, a.value, env).1.Done?)
  {
  }

  lemma CleanFinishesIff(config: Config, w: World, a: AzureAddress, env: Environment)
    ensures CleanStep(config, w, a, env).1.Done? <==>
      && !env.secondWrite.WriteFailed?
      && (CleaningSucceeds(env)
          || Attempts(w.resource.status.failedOperations, CleanPublicIPAddress) + 1 >= config.maxCleanAttempts)
  {
    var w', error := CleanStepIs(config, w, a, env);
    if !CleaningSucceeds(env) {
      FailedAttemptFinishesIff(config, w', CleanPublicIPAddress, Some(a), error, env.now, env.secondWrite,
                               config.maxCleanAttempts);
    }
  }

  /** Cleaning counts a failure, or a success, after the calls to Azure. */
  lemma CleanStepIs(config: Config, w: World, a: AzureAddress, env: Environment) returns (w': World, error: string)
    ensures w' == CleanAddress(w, a, env).0 && w'.resource == w.resource
    ensures CleanStep(config, w, a, env) ==
      if CleaningSucceeds(env) then CleanSucceeded(w', env.secondWrite)
      else AttemptFailed(config, w', CleanPublicIPAddress, Some(a), error, env.now, env.secondWrite, config.maxCleanAttempts)
    ensures !CleaningSucceeds(env) ==> CleanAddress(w, a, env).1 == Some(error)
    ensures w'.history == w.history
  {
    CleaningError(w, a, env);
    w' := CleanAddress(w, a, env).0;
    error := if CleaningSucceeds(env) then "" else CleanAddress(w, a, env).1.value;
  }

  lemma FailedAttemptFinishesIff(config: Config, w: World, typ: OperationType, a: Option<AzureAddress>, error: string,
                                 now: int, write: StatusWrite, max: int)
    ensures AttemptFailed(config, w, typ, a, error, now, write, max).1.Done? <==>
      !write.WriteFailed? && Attempts(w.resource.status.failedOperations, typ) + 1 >= max
  {
    FailureCounted(w, typ, error, now);
  }

  lemma FailureCounted(w: World, typ: OperationType, error: string, now: int)
    ensures Attempts(Record(w.resource.status.failedOperations, Failed(typ, error, now)), typ)
      == Attempts(w.resource.status.failedOperations, typ) + 1
  {
    OtherAttempts(w.resource.status.failedOperations, Failed(typ, error, now), typ);
  }

  // ----- When Azure is told to delete -----

  /** The object was due for cleaning in this reconcile: under deletion for longer than the grace
      period, and not annotated do-not-clean when its status was written. */
  predicate DueForCleaning(config: Config, w: World, env: Environment) {
    && w.present && w.resource.finalizer
    && w.resource.deletionTimestamp.Some?
    && env.now > w.resource.deletionTimestamp.value + config.deletionGracePeriod
    && !env.firstWrite.WriteFailed?
    && !Protected(env.firstWrite.annotations)
  }

  /** Azure answered a lookup of this reconcile with this address: by name, or on a page of the list that
      was read before any request failed. */
  ghost predicate Observed(env: Environment, a: AzureAddress) {
    || env.byName == Success(Some(a))
    || exists k :: 0 <= k < |env.listing.pages| && OnPage(env.listing, k, a)
  }

  predicate OnPage(listing: Listing, k: nat, a: AzureAddress)
    requires k < |listing.pages|
  {
    (listing.failure.Some? ==> k < listing.failure.value.0) && a in listing.pages[k]
  }

  /** The object is labelled for the service of this namespace and name. */
  predicate LabelledFor(o: PublicIPAddress, namespace: string, name: string) {
    var key := "azure.remedy.gardener.cloud/service";
    && key in o.labels && o.labels[key] == namespace + "." + name
    && '.' !in namespace && '.' !in name && namespace + name != ""
  }

  /** The address is tagged for the service that the object is labelled for, if it is for any. */
  ghost predicate TaggedFor(o: PublicIPAddress, a: AzureAddress) {
    forall namespace, name :: LabelledFor(o, namespace, name) ==>
      "service" in a.tags && a.tags["service"] == namespace + "/" + name
  }

  /** The address is known by the name in the status, or is tagged for the object's service; any address
      will do for an object without a service. */
  ghost predicate Claimed(o: PublicIPAddress, env: Environment, a: AzureAddress) {
    || (o.status.name.Some? && env.byName == Success(Some(a)))
    || TaggedFor(o, a)
  }

  lemma LabelledServiceName(o: PublicIPAddress, namespace: string, name: string)
    requires LabelledFor(o, namespace, name)
    ensures ServiceName(o) == namespace + "/" + name != "/"
  {
    SplitAt(namespace, name, SEPARATOR);
    SplitWithout(name, SEPARATOR);
    assert namespace + [SEPARATOR] + name == namespace + "." + name;
    assert FromLabelValue(namespace + "." + name) == NamespacedName(namespace, name);
  }

  lemma UnlabelledServiceName(o: PublicIPAddress)
    requires ServiceName(o) != "/"
    ensures exists namespace, name :: LabelledFor(o, namespace, name)
  {
    var value := Get(o.labels, SERVICE_LABEL);
    var parts := Split(value, SEPARATOR);
    TwoParts(value, SEPARATOR);
    assert parts[0] + "." + parts[1] == value;
    assert LabelledFor(o, parts[0], parts[1]);
  }

  lemma BelongsIff(o: PublicIPAddress, a: AzureAddress)
    ensures PublicIPActuators.BelongsTo(a, ServiceName(o)) <==> TaggedFor(o, a)
  {
    forall namespace, name | LabelledFor(o, namespace, name)
      ensures ServiceName(o) == namespace + "/" + name != "/"
    {
      LabelledServiceName(o, namespace, name);
    }
    if ServiceName(o) != "/" {
      UnlabelledServiceName(o);
      var namespace, name :| LabelledFor(o, namespace, name);
      assert PublicIPActuators.BelongsTo(a, ServiceName(o)) <==>
        "service" in a.tags && a.tags["service"] == namespace + "/" + name;
    }
  }

  /** The lookup, for every object and all answers: the address with the name in the status, if it has the
      IP; otherwise the first listed address with the IP, if it is tagged for the object's service. */
  lemma FindAddressMeans(o: PublicIPAddress, env: Environment)
    ensures var found, listed := FindAddress(o, env), AddressByIP(env.listing, o.ipAddress);
      var named := o.status.name.Some?;
      if named && env.byName.Failure? then
        found == Failure("could not get Azure public IP address by name" + ": " + env.byName.error)
      else if named && env.byName.value.Some? && env.byName.value.value.ipAddress == Some(o.ipAddress) then found == env.byName
      else
        && (listed.Failure? ==> found == Failure("could not get Azure public IP address by IP" + ": " + listed.error))
        && (listed.Success? ==> found.Success?)
        && (found.Success? ==>
              found.value == if listed.value.Some? && TaggedFor(o, listed.value.value) then listed.value else None)
  {
    ByIPMeans(o, env);
  }

  lemma ByIPMeans(o: PublicIPAddress, env: Environment)
    ensures var found, listed := FindByIP(o, env), AddressByIP(env.listing, o.ipAddress);
      && (listed.Failure? ==> found == Failure("could not get Azure public IP address by IP" + ": " + listed.error))
      && (listed.Success? ==> found.Success?)
      && (found.Success? ==>
            found.value == if listed.value.Some? && TaggedFor(o, listed.value.value) then listed.value else None)
  {
    var listed := AddressByIP(env.listing, o.ipAddress);
    if listed.Success? && listed.value.Some? {
      BelongsIff(o, listed.value.value);
    }
  }

  /** The destructive calls that clean an address: its removal from the load balancer, and directly after
      it, if Azure confirmed that, its deletion. */
  function CleaningCalls(a: AzureAddress, env: Environment): seq<AzureCall> {
    [RemoveFromLoadBalancer([a.id])] + if env.removal.Updated? then [DeleteAddress(a.name)] else []
  }

  /** These are the calls of a reconcile that cleans this one address, which was observed in it, has the
      IP of the object, is claimed by it, and is due. */
  ghost predicate Cleans(config: Config, w: World, env: Environment, a: AzureAddress, calls: seq<AzureCall>) {
    && DueForCleaning(config, w, env)
    && Observed(env, a) && Claimed(w.resource, env, a) && a.ipAddress == Some(w.resource.ipAddress)
    && calls == CleaningCalls(a, env)
  }

  /** An address that is found was observed, has the IP of the object, and is claimed by it. */
  lemma FoundAddress(o: PublicIPAddress, env: Environment)
    ensures FindAddress(o, env).Success? && FindAddress(o, env).value.Some? ==>
      var a := FindAddress(o, env).value.value;
      Observed(env, a) && a.ipAddress == Some(o.ipAddress) && Claimed(o, env, a)
  {
    FindAddressMeans(o, env);
    var k, i := SearchFindsFirst(env.listing, o.ipAddress);
    var listed := AddressByIP(env.listing, o.ipAddress);
    if listed.Success? && listed.value.Some? {
      assert OnPage(env.listing, k, listed.value.value);
    }
  }

  /** If no address is found, then none has the name in the status and the IP of the object, and no listed
      address has the IP, or the first one that has it is not tagged for the object's service. */
  lemma NotFoundMeans(o: PublicIPAddress, env: Environment) returns (k: nat, i: nat)
    requires FindAddress(o, env) == Success(None)
    ensures o.status.name.Some? ==>
      env.byName.Success? && (env.byName.value.Some? ==> env.byName.value.value.ipAddress != Some(o.ipAddress))
    ensures
      || (forall k', i' :: !Matches(env.listing, o.ipAddress, k', i'))
      || (&& Matches(env.listing, o.ipAddress, k, i) && !TaggedFor(o, env.listing.pages[k][i])
          && forall k', i' :: Matches(env.listing, o.ipAddress, k', i') ==> k < k' || (k == k' && i <= i'))
  {
    FindAddressMeans(o, env);
    k, i := SearchFindsFirst(env.listing, o.ipAddress);
  }

  /** A step makes destructive calls exactly if it is a reconcile that reads the object, finds an address,
      and has it due for cleaning. */
  lemma CallsMadeIff(config: Config, w: World, e: Event)
    ensures Next(config, w, e).calls != w.calls <==>
      && e.Reconcile? && !e.api.get.Rejected?
      && DueForCleaning(config, w, e.env)
      && FindAddress(w.resource, e.env).Success? && FindAddress(w.resource, e.env).value.Some?
  {
    if e.Reconcile? && w.present && w.resource.finalizer && w.resource.deletionTimestamp.Some? {
      DeleteCalls(config, w, e.env);
    }
  }

  /** All destructive calls of a step belong to one address, which it cleans; the deletion follows the
      confirmed removal of the same address. */
  lemma NextCallsJustified(config: Config, w: World, e: Event) returns (a: AzureAddress)
    ensures w.calls <= Next(config, w, e).calls
    ensures Next(config, w, e).calls != w.calls ==>
      e.Reconcile? && Cleans(config, w, e.env, a, Next(config, w, e).calls[|w.calls|..])
  {
    if Next(config, w, e).calls != w.calls {
      CallsMadeIff(config, w, e);
      a := FindAddress(w.resource, e.env).value.value;
      FoundAddress(w.resource, e.env);
      DeleteCalls(config, w, e.env);
      ReconcileCases(config, w, e.env, e.api);
    } else {
      a := AzureAddress("", "", None, map[], None);
    }
  }

  lemma CleanCalls(config: Config, w: World, a: AzureAddress, env: Environment)
    ensures CleanStep(config, w, a, env).0.calls == w.calls + CleaningCalls(a, env)
  {
  }

  lemma DeleteCalls(config: Config, w: World, env: Environment)
    requires w.present && w.resource.finalizer && w.resource.deletionTimestamp.Some?
    ensures var a := FindAddress(w.resource, env);
      DeleteStep(config, w, env).0.calls == w.calls +
        if a.Success? && a.value.Some? && DueForCleaning(config, w, env) then CleaningCalls(a.value.value, env) else []
  {
    var a := FindAddress(w.resource, env);
    if a.Success? && !env.firstWrite.WriteFailed? {
      DeleteCases(config, w, env);
      if a.value.Some? {
        CleanCalls(config, Stored(w, a.value, Succeeded(GetPublicIPAddress), env.firstWrite), a.value.value, env);
      }
    }
  }

  lemma NextCallsGrow(config: Config, w: World, e: Event)
    ensures w.calls <= Next(config, w, e).calls
  {
    var a := NextCallsJustified(config, w, e);
  }

  lemma PrefixTransitive(a: seq<AzureCall>, b: seq<AzureCall>, c: seq<AzureCall>)
    requires a <= b <= c
    ensures a <= c
  {
  }

  /** The calls of a run only grow. */
  lemma {:induction false} CallsGrow(config: Config, w: World, events: seq<Event>, i: nat)
    requires i <= |events|
    ensures Run(config, w, events[..i]).calls <= Run(config, w, events).calls
  {
    if i == |events| {
      assert events[..i] == events;
    } else {
      var before, last := events[..|events| - 1], events[|events| - 1];
      CallsGrow(config, w, before, i);
      assert before[..i] == events[..i];
      var w' := Run(config, w, before);
      NextCallsGrow(config, w', last);
      PrefixTransitive(Run(config, w, events[..i]).calls, w'.calls, Next(config, w', last).calls);
    }
  }

  /** In a run the call j is one of those of the i-th event, a reconcile that cleans this one address. */
  ghost predicate JustifiedBy(config: Config, w: World, events: seq<Event>, j: nat, i: nat, a: AzureAddress) {
    && i < |events| && events[i].Reconcile?
    && var before, after := Run(config, w, events[..i]), Run(config, w, events[..i + 1]);
    && before.calls <= after.calls <= Run(config, w, events).calls
    && |before.calls| <= j < |after.calls|
    && Cleans(config, before, events[i].env, a, after.calls[|before.calls|..])
  }

  lemma JustifiedLonger(config: Config, w: World, events: seq<Event>, j: nat, i: nat, a: AzureAddress)
    requires events != [] && JustifiedBy(config, w, events[..|events| - 1], j, i, a)
    ensures JustifiedBy(config, w, events, j, i, a)
  {
    var n := |events| - 1;
    assert events[..n][..i] == events[..i] && events[..n][..i + 1] == events[..i + 1];
    CallsGrow(config, w, events, i + 1);
  }

  lemma JustifiedLast(config: Config, w: World, events: seq<Event>, j: nat, a: AzureAddress)
    requires events != [] && |Run(config, w, events[..|events| - 1]).calls| <= j < |Run(config, w, events).calls|
    requires var before, e := Run(config, w, events[..|events| - 1]), events[|events| - 1];
      && e.Reconcile? && before.calls <= Run(config, w, events).calls
      && Cleans(config, before, e.env, a, Run(config, w, events).calls[|before.calls|..])
    ensures JustifiedBy(config, w, events, j, |events| - 1, a)
  {
    assert events[..|events|] == events;
  }

  /** Over every run, every destructive call belongs to the calls of one reconcile, all of which clean one
      address that is due. */
  lemma {:induction false} EveryCallJustified(config: Config, w: World, events: seq<Event>, j: nat)
    returns (i: nat, a: AzureAddress)
    requires |w.calls| <= j < |Run(config, w, events).calls|
    ensures JustifiedBy(config, w, events, j, i, a)
  {
    var n := |events| - 1;
    var before := Run(config, w, events[..n]);
    a := NextCallsJustified(config, before, events[n]);
    if j < |before.calls| {
      i, a := EveryCallJustified(config, w, events[..n], j);
      JustifiedLonger(config, w, events, j, i, a);
    } else {
      i := n;
      JustifiedLast(config, w, events, j, a);
    }
  }

  /** In the log of every run, a deletion comes directly after the removal of the same address. */
  lemma DeletionFollowsRemoval(config: Config, w: World, events: seq<Event>, j: nat) returns (i: nat, a: AzureAddress)
    requires |w.calls| <= j < |Run(config, w, events).calls| && Run(config, w, events).calls[j].DeleteAddress?
    ensures |w.calls| < j
    ensures Run(config, w, events).calls[j] == DeleteAddress(a.name)
    ensures Run(config, w, events).calls[j - 1] == RemoveFromLoadBalancer([a.id])
    ensures i < |events| && events[i].Reconcile? && Observed(events[i].env, a) && events[i].env.removal.Updated?
  {
    i, a := EveryCallJustified(config, w, events, j);
    CallsGrow(config, w, events[..i], 0);
    var before, after := Run(config, w, events[..i]).calls, Run(config, w, events[..i + 1]).calls;
    assert after[|before|..] == CleaningCalls(a, events[i].env);
    assert after[j] == after[|before|..][j - |before|];
    assert after[j - 1] == after[|before|..][j - 1 - |before|];
  }

  /** A deletion time is the one at the start of a run, or was set by a request in it. */
  lemma {:induction false} MarkedByRequest(config: Config, w: World, events: seq<Event>) returns (d: nat)
    requires w.resource.deletionTimestamp.None? && Run(config, w, events).resource.deletionTimestamp.Some?
    ensures d < |events| && events[d] == RequestDeletion(Run(config, w, events).resource.deletionTimestamp.value)
  {
    var n := |events| - 1;
    var before := Run(config, w, events[..n]);
    NextKeepsMark(config, before, events[n]);
    if before.resource.deletionTimestamp.Some? {
      d := MarkedByRequest(config, w, events[..n]);
    } else {
      d := n;
    }
  }

  /** Only a request sets the deletion time, and nothing changes it. */
  lemma NextKeepsMark(config: Config, w: World, e: Event)
    ensures e.RequestDeletion? && w.resource.deletionTimestamp.None? && Next(config, w, e).resource.deletionTimestamp.Some? ==>
      Next(config, w, e).resource.deletionTimestamp == Some(e.at)
    ensures !e.RequestDeletion? || w.resource.deletionTimestamp.Some? ==>
      Next(config, w, e).resource.deletionTimestamp == w.resource.deletionTimestamp
  {
    if e.Reconcile? {
      ReconcileCases(config, w, e.env, e.api);
    }
  }

  /** Over every run of an object that is not under deletion at first, every destructive call comes after a
      request to delete the object, later than the grace period. */
  lemma EveryCallFollowsRequest(config: Config, w: World, events: seq<Event>, j: nat) returns (d: nat, i: nat)
    requires w.resource.deletionTimestamp.None?
    requires |w.calls| <= j < |Run(config, w, events).calls|
    ensures d < i < |events| && events[d].RequestDeletion? && events[i].Reconcile?
    ensures |Run(config, w, events[..i]).calls| <= j < |Run(config, w, events[..i + 1]).calls|
    ensures events[i].env.now > events[d].at + config.deletionGracePeriod
  {
    var a;
    i, a := EveryCallJustified(config, w, events, j);
    d := MarkedByRequest(config, w, events[..i]);
  }

  /** When an address is reported clean, it is the one observed for the object, Azure does not have it
      any more, and no frontend uses it. */
  lemma CleanedIsGone(config: Config, w: World, env: Environment, api: Answers) returns (a: AzureAddress)
    requires ReconcilePublicIP(config, w, env, api).0.cleaned != w.cleaned
    ensures ReconcilePublicIP(config, w, env, api).0.cleaned == w.cleaned + 1
    ensures Observed(env, a) && a.ipAddress == Some(w.resource.ipAddress)
    ensures var cloud := ReconcilePublicIP(config, w, env, api).0.cloud;
      && cloud.addresses == w.cloud.addresses - {a.name}
      && cloud.balancer == Remove(w.cloud.balancer, [a.id])
      && Unused(cloud, a.id)
  {
    ReconcileCases(config, w, env, api);
    a := DeleteCleaned(config, w, env);
    Detached(w.cloud, a.id);
  }

  lemma CleanCleaned(config: Config, w: World, a: AzureAddress, env: Environment)
    ensures CleanStep(config, w, a, env).0.cleaned == w.cleaned
      || (CleanStep(config, w, a, env).0.cleaned == w.cleaned + 1
          && CleanStep(config, w, a, env).0.cloud == Cloud(w.cloud.addresses - {a.name}, Remove(w.cloud.balancer, [a.id])))
  {
  }

  lemma DeleteCleaned(config: Config, w: World, env: Environment) returns (a: AzureAddress)
    requires DeleteStep(config, w, env).0.cleaned != w.cleaned
    ensures DeleteStep(config, w, env).0.cleaned == w.cleaned + 1
    ensures Observed(env, a) && a.ipAddress == Some(w.resource.ipAddress)
    ensures DeleteStep(config, w, env).0.cloud ==
      Cloud(w.cloud.addresses - {a.name}, Remove(w.cloud.balancer, [a.id]))
  {
    FoundAddress(w.resource, env);
    DeleteCases(config, w, env);
    a := FindAddress(w.resource, env).value.value;
    CleanCleaned(config, Stored(w, Some(a), Succeeded(GetPublicIPAddress), env.firstWrite), a, env);
  }

  ghost predicate Unused(cloud: Cloud, id: string) {
    cloud.balancer.frontends.Some? ==>
      forall fc :: fc in cloud.balancer.frontends.value && fc.id.Some? ==> fc.publicIP != Some(id)
  }

  lemma Detached(cloud: Cloud, id: string)
    ensures Unused(cloud.(balancer := Remove(cloud.balancer, [id])), id)
  {
  }

  function GetAttempt(o: PublicIPAddress, env: Environment): OperationOutcome {
    match FindAddress(o, env)
    case Failure(error) => Failed(GetPublicIPAddress, error, env.now)
    case Success(_) => Succeeded(GetPublicIPAddress)
  }

  function CleanAttempt(env: Environment): OperationOutcome {
    if CleaningSucceeds(env) then Succeeded(CleanPublicIPAddress)
    else
      Failed(CleanPublicIPAddress,
             if !env.removal.Updated?
             then Wrap("could not remove Azure public IP address from the load balancer", BalancerError(env.removal).value)
             else Wrap("could not delete Azure public IP address", DeleteError(env.deletion).value),
             env.now)
  }

  predicate WritesSucceed(env: Environment) {
    !env.firstWrite.WriteFailed? && !env.secondWrite.WriteFailed?
  }

  /** The reconcile reads an object that is there, and which has the finalizer or gets it now. */
  predicate ReachesActuator(w: World, api: Answers) {
    && !api.get.Rejected? && w.present
    && if w.resource.deletionTimestamp.Some? then w.resource.finalizer else api.addFinalizer.Accepted?
  }

  /** The operations that a reconcile attempts, with their outcomes. */
  function Attempted(config: Config, w: World, env: Environment, api: Answers): seq<OperationOutcome> {
    var a := FindAddress(w.resource, env);
    if !ReachesActuator(w, api) then []
    else
      [GetAttempt(w.resource, env)]
      + if a.Success? && a.value.Some? && DueForCleaning(config, w, env) then [CleanAttempt(env)] else []
  }

  /** If the status writes succeed, every attempted operation is recorded with its outcome: the lookup in
      every reconcile that reaches the actuator, and the cleaning whenever it is due. */
  lemma EveryAttemptRecorded(config: Config, w: World, env: Environment, api: Answers)
    requires WritesSucceed(env)
    ensures ReconcilePublicIP(config, w, env, api).0.history == w.history + Attempted(config, w, env, api)
  {
    if ReachesActuator(w, api) {
      ReconcileReaches(config, w, env, api);
      if w.resource.deletionTimestamp.Some? {
        DeletionRecorded(config, w, env);
      } else {
        UpdateRecorded(config, SetFinalizer(w, true), env);
      }
    }
  }

  lemma ReconcileReaches(config: Config, w: World, env: Environment, api: Answers)
    requires ReachesActuator(w, api)
    ensures var w', deleted := ReconcilePublicIP(config, w, env, api).0, DeleteStep(config, w, env).0;
      if w.resource.deletionTimestamp.Some? then w' == deleted || w' == SetFinalizer(deleted, false)
      else w' == CreateOrUpdateStep(config, SetFinalizer(w, true), env).0
  {
    ReconcileCases(config, w, env, api);
  }

  lemma UpdateRecorded(config: Config, w: World, env: Environment)
    requires WritesSucceed(env)
    ensures CreateOrUpdateStep(config, w, env).0.history == w.history + [GetAttempt(w.resource, env)]
  {
  }

  lemma CleaningRecorded(config: Config, w: World, a: AzureAddress, env: Environment)
    requires !env.secondWrite.WriteFailed?
    ensures CleanStep(config, w, a, env).0.history == w.history + [CleanAttempt(env)]
  {
    var cleaned, error := CleanStepIs(config, w, a, env);
    CleaningMessage(w, a, env);
  }

  lemma CleaningMessage(w: World, a: AzureAddress, env: Environment)
    ensures CleanAddress(w, a, env).1 == if CleaningSucceeds(env) then None else Some(CleanAttempt(env).message)
  {
  }

  lemma DeletionRecorded(config: Config, w: World, env: Environment)
    requires w.present && w.resource.finalizer && w.resource.deletionTimestamp.Some?
    requires WritesSucceed(env)
    ensures var a := FindAddress(w.resource, env);
      DeleteStep(config, w, env).0.history == w.history + [GetAttempt(w.resource, env)]
        + if a.Success? && a.value.Some? && DueForCleaning(config, w, env)
          then [CleanAttempt(env)] else []
  {
    var a := FindAddress(w.resource, env);
    if a.Success? {
      DeleteCases(config, w, env);
      if a.value.Some? {
        CleaningRecorded(config, Stored(w, a.value, Succeeded(GetPublicIPAddress), env.firstWrite), a.value.value, env);
      }
    }
  }

  /** All operations that a run attempts, with their outcomes, in order. */
  function AttemptedIn(config: Config, w: World, events: seq<Event>): seq<OperationOutcome> {
    if events == [] then []
    else
      var before, last := events[..|events| - 1], events[|events| - 1];
      AttemptedIn(config, w, before) + AttemptedBy(config, Run(config, w, before), last)
  }

  function AttemptedBy(config: Config, w: World, e: Event): seq<OperationOutcome> {
    if e.Reconcile? then Attempted(config, w, e.env, e.api) else []
  }

  lemma NextRecorded(config: Config, w: World, e: Event)
    requires e.Reconcile? ==> WritesSucceed(e.env)
    ensures Next(config, w, e).history == w.history + AttemptedBy(config, w, e)
  {
    if e.Reconcile? {
      EveryAttemptRecorded(config, w, e.env, e.api);
    }
  }

  /** If all status writes of a run succeed, the stored list says exactly what the attempts of the run
      say: for each operation its consecutive failures up to the last attempt, and the last failure. */
  lemma {:induction false} AttemptsCounted(config: Config, w: World, events: seq<Event>)
    requires w.history == [] && w.resource.status.failedOperations == []
    requires forall i :: 0 <= i < |events| && events[i].Reconcile? ==> WritesSucceed(events[i].env)
    ensures Accurate(Run(config, w, events).resource.status.failedOperations, AttemptedIn(config, w, events))
  {
    RunKeepsCounters(config, w, events);
    AllRecorded(config, w, events);
    assert w.history + AttemptedIn(config, w, events) == AttemptedIn(config, w, events);
  }

  lemma RecordedAfter(w: World, w': World, w'': World, first: seq<OperationOutcome>, second: seq<OperationOutcome>)
    requires w'.history == w.history + first && w''.history == w'.history + second
    ensures w''.history == w.history + (first + second)
  {
  }

  lemma {:induction false} AllRecorded(config: Config, w: World, events: seq<Event>)
    requires forall i :: 0 <= i < |events| && events[i].Reconcile? ==> WritesSucceed(events[i].env)
    ensures Run(config, w, events).history == w.history + AttemptedIn(config, w, events)
  {
    if events != [] {
      var before, last := events[..|events| - 1], events[|events| - 1];
      AllRecorded(config, w, before);
      var w' := Run(config, w, before);
      NextRecorded(config, w', last);
      RecordedAfter(w, w', Next(config, w', last), AttemptedIn(config, w, before), AttemptedBy(config, w', last));
    }
  }

  // ----- What is stored and answered -----

  /** The status says that the address exists and what it is, or that there is none. */
  ghost predicate Describes(status: Status, a: Option<AzureAddress>) {
    && (status.found <==> a.Some?)
    && (a.Some? ==>
      && status.id == Some(a.value.id) && status.name == Some(a.value.name)
      && status.provisioningState == a.value.provisioningState)
    && (a.None? ==> status.id.None? && status.name.None? && status.provisioningState.None?)
  }

  function Found(o: PublicIPAddress, env: Environment): Option<AzureAddress> {
    if FindAddress(o, env).Success? then FindAddress(o, env).value else None
  }

  /** An update with a successful write: the status describes the address that was found, or none if there
      is none or the lookup failed; the next reconcile comes early iff the address is missing or in
      transition. */
  lemma UpdateDescribesAddress(config: Config, w: World, env: Environment, api: Answers)
    requires ReachesActuator(w, api) && w.resource.deletionTimestamp.None?
    requires !env.firstWrite.WriteFailed?
    ensures var (w', result) := ReconcilePublicIP(config, w, env, api);
      var a := Found(w.resource, env);
      var settled := a.Some? && (a.value.provisioningState == Some("Succeeded") || a.value.provisioningState == Some("Failed"));
      && Describes(w'.resource.status, a)
      && w'.cloud == w.cloud && w'.calls == w.calls && w'.cleaned == w.cleaned
      && (FindAddress(w.resource, env).Success? ==>
            result == ReconcileResult(false, if settled then config.syncPeriod else config.requeueInterval, false))
  {
    ReconcileReaches(config, w, env, api);
    UpdateDescribes(config, SetFinalizer(w, true), env);
    UpdatePassed(config, w, env, api);
  }

  lemma UpdateDescribes(config: Config, w: World, env: Environment)
    requires !env.firstWrite.WriteFailed?
    ensures var (w', outcome) := CreateOrUpdateStep(config, w, env);
      var a := Found(w.resource, env);
      var settled := a.Some? && (a.value.provisioningState == Some("Succeeded") || a.value.provisioningState == Some("Failed"));
      && Describes(w'.resource.status, a)
      && (FindAddress(w.resource, env).Success? ==>
            outcome == Done(if settled then config.syncPeriod else config.requeueInterval))
  {
  }

  lemma UpdatePassed(config: Config, w: World, env: Environment, api: Answers)
    requires ReachesActuator(w, api) && w.resource.deletionTimestamp.None?
    ensures var outcome := CreateOrUpdateStep(config, SetFinalizer(w, true), env).1;
      outcome.Done? ==> ReconcilePublicIP(config, w, env, api).1 == ReconcileResult(false, outcome.requeueAfter, false)
  {
  }

  /** The address is found in a reconcile of a deletion, and it is cleaned in it. */
  ghost predicate Cleaning(config: Config, w: World, env: Environment) {
    Found(w.resource, env).Some? && DueForCleaning(config, w, env)
  }

  /** A deletion with successful writes: the status describes the address that was found, and none once it is
      cleaned. */
  lemma DeletionDescribesAddress(config: Config, w: World, env: Environment, api: Answers)
    requires ReachesActuator(w, api) && w.resource.deletionTimestamp.Some? && WritesSucceed(env)
    ensures var w', a := ReconcilePublicIP(config, w, env, api).0, Found(w.resource, env);
      Describes(w'.resource.status, if Cleaning(config, w, env) && CleaningSucceeds(env) then None else a)
  {
    ReconcileReaches(config, w, env, api);
    if FindAddress(w.resource, env).Success? {
      DeleteCases(config, w, env);
      if Found(w.resource, env).Some? {
        var a := Found(w.resource, env);
        CleaningDescribesAddress(config, Stored(w, a, Succeeded(GetPublicIPAddress), env.firstWrite), a.value, env);
      }
    }
  }

  lemma CleaningDescribesAddress(config: Config, w: World, a: AzureAddress, env: Environment)
    requires !env.secondWrite.WriteFailed?
    ensures Describes(CleanStep(config, w, a, env).0.resource.status, if CleaningSucceeds(env) then None else Some(a))
  {
    var w', error := CleanStepIs(config, w, a, env);
  }

  /** An address that is found is waited for within the grace period, unless do-not-clean is set: nothing
      happens but the status write, and the next reconcile comes after the requeue interval. */
  lemma GracePeriodWaits(config: Config, w: World, env: Environment, api: Answers)
    requires ReachesActuator(w, api) && w.resource.deletionTimestamp.Some? && !env.firstWrite.WriteFailed?
    requires Found(w.resource, env).Some? && !Protected(env.firstWrite.annotations)
    requires env.now <= w.resource.deletionTimestamp.value + config.deletionGracePeriod
    ensures var (w', result) := ReconcilePublicIP(config, w, env, api);
      && result == ReconcileResult(true, config.requeueInterval, false)
      && w'.cloud == w.cloud && w'.calls == w.calls && w'.cleaned == w.cleaned
      && w'.resource.finalizer && Describes(w'.resource.status, Found(w.resource, env))
  {
  }

  /** The cloud after cleaning an address, for every answer of Azure. */
  ghost function CleanedCloud(cloud: Cloud, a: AzureAddress, env: Environment): Cloud {
    var detached := env.removal.Updated? || (env.removal.WaitFailed? && env.removal.applied);
    var gone := env.deletion.DeleteCompleted? || env.deletion.NotFound? || (env.deletion.DeleteWaitFailed? && env.deletion.applied);
    Cloud(
      if env.removal.Updated? && gone then cloud.addresses - {a.name} else cloud.addresses,
      if detached then Remove(cloud.balancer, [a.id]) else cloud.balancer)
  }

  ghost function CleanedCount(env: Environment): nat {
    if CleaningSucceeds(env) then 1 else 0
  }

  /** What a step changes in Azure, and in the counter of cleaned addresses. */
  lemma CloudAfter(config: Config, w: World, e: Event)
    ensures var w' := Next(config, w, e);
      if e.Reconcile? && !e.api.get.Rejected? && Cleaning(config, w, e.env) then
        && w'.cloud == CleanedCloud(w.cloud, Found(w.resource, e.env).value, e.env)
        && w'.cleaned == w.cleaned + CleanedCount(e.env)
      else w'.cloud == w.cloud && w'.cleaned == w.cleaned
  {
    if e.Reconcile? {
      ReconcileCases(config, w, e.env, e.api);
      if ReachesActuator(w, e.api) && w.resource.deletionTimestamp.Some? {
        ReconcileReaches(config, w, e.env, e.api);
        DeletionCloud(config, w, e.env);
      } else if ReachesActuator(w, e.api) {
        ReconcileReaches(config, w, e.env, e.api);
      } else {
        NotReached(config, w, e.env, e.api);
      }
    }
  }

  /** A reconcile that does not reach the actuator changes nothing. */
  lemma NotReached(config: Config, w: World, env: Environment, api: Answers)
    requires !ReachesActuator(w, api)
    ensures ReconcilePublicIP(config, w, env, api).0 == w
  {
  }

  lemma AddressCleaned(w: World, a: AzureAddress, env: Environment)
    ensures var (w', error) := CleanAddress(w, a, env);
      w'.cloud == CleanedCloud(w.cloud, a, env) && w'.cleaned == w.cleaned
  {
    RemovalMeans(w.cloud, [a.id], env.removal);
    if env.removal.Updated? {
      var detached := RemovedFromBalancer(w.cloud, [a.id], env.removal);
      assert CleanAddress(w, a, env).0.cloud == AzureUtils.Deleted(detached, a.name, env.deletion);
    } else {
      assert CleanAddress(w, a, env).0.cloud == RemovedFromBalancer(w.cloud, [a.id], env.removal);
    }
  }

  lemma CleaningError(w: World, a: AzureAddress, env: Environment)
    ensures CleanAddress(w, a, env).1.None? <==> CleaningSucceeds(env)
    ensures CleanAddress(w, a, env).0.resource == w.resource
  {
  }

  lemma CleaningCloud(config: Config, w: World, a: AzureAddress, env: Environment)
    ensures var w' := CleanStep(config, w, a, env).0;
      w'.cloud == CleanedCloud(w.cloud, a, env) && w'.cleaned == w.cleaned + CleanedCount(env)
  {
    AddressCleaned(w, a, env);
    CleaningError(w, a, env);
  }

  lemma DeletionCloud(config: Config, w: World, env: Environment)
    requires w.present && w.resource.finalizer && w.resource.deletionTimestamp.Some?
    ensures var w', a := DeleteStep(config, w, env).0, Found(w.resource, env);
      if Cleaning(config, w, env) then w'.cloud == CleanedCloud(w.cloud, a.value, env) && w'.cleaned == w.cleaned + CleanedCount(env)
      else w'.cloud == w.cloud && w'.cleaned == w.cleaned
  {
    if FindAddress(w.resource, env).Success? && !env.firstWrite.WriteFailed? {
      var a := Found(w.resource, env);
      DeleteCases(config, w, env);
      if a.Some? {
        CleaningCloud(config, Stored(w, a, Succeeded(GetPublicIPAddress), env.firstWrite), a.value, env);
      }
    }
  }

  /** A deletion that ends is not retried: it comes back after the sync period if it has given up looking the
      address up or cleaning it, and not at all otherwise. */
  lemma EndAnswered(config: Config, w: World, env: Environment, api: Answers)
    requires ReachesActuator(w, api) && w.resource.deletionTimestamp.Some? && !api.removeFinalizer.Rejected?
    requires MayFinish(config, w.resource, env)
    ensures var gaveUp := FindAddress(w.resource, env).Failure? || (Cleaning(config, w, env) && !CleaningSucceeds(env));
      ReconcilePublicIP(config, w, env, api).1 == ReconcileResult(false, if gaveUp then config.syncPeriod else 0, false)
  {
    DeleteFinishesIff(config, w, env);
    var a := FindAddress(w.resource, env);
    if a.Success? && Cleaning(config, w, env) {
      DeleteCases(config, w, env);
      CleaningEnds(config, Stored(w, a.value, Succeeded(GetPublicIPAddress), env.firstWrite), a.value.value, env);
    } else {
      LookupEnds(config, w, env);
    }
    DonePassed(config, w, env, api);
  }

  lemma CleaningEnds(config: Config, w: World, a: AzureAddress, env: Environment)
    requires CleanStep(config, w, a, env).1.Done?
    ensures CleanStep(config, w, a, env).1 == Done(if CleaningSucceeds(env) then 0 else config.syncPeriod)
  {
    var w', error := CleanStepIs(config, w, a, env);
  }

  lemma LookupEnds(config: Config, w: World, env: Environment)
    requires DeleteStep(config, w, env).1.Done? && !Cleaning(config, w, env)
    requires w.present && w.resource.finalizer && w.resource.deletionTimestamp.Some?
    ensures DeleteStep(config, w, env).1 == Done(if FindAddress(w.resource, env).Failure? then config.syncPeriod else 0)
  {
  }

  lemma DonePassed(config: Config, w: World, env: Environment, api: Answers)
    requires ReachesActuator(w, api) && w.resource.deletionTimestamp.Some? && !api.removeFinalizer.Rejected?
    requires DeleteStep(config, w, env).1.Done?
    ensures ReconcilePublicIP(config, w, env, api).1 == ReconcileResult(false, DeleteStep(config, w, env).1.requeueAfter, false)
  {
  }

  /** A status write that fails makes the reconcile fail. The first one leaves everything but a finalizer
      as it was; the second one leaves the status that the first one wrote. */
  lemma FailingWrites(config: Config, w: World, env: Environment, api: Answers)
    requires ReachesActuator(w, api)
    ensures var (w', result) := ReconcilePublicIP(config, w, env, api);
      && (env.firstWrite.WriteFailed? ==>
            result == ReconcileResult(false, 0, true) && w' == w.(resource := w.resource.(finalizer := true)))
      && (Cleaning(config, w, env) && env.secondWrite.WriteFailed? ==>
            result == ReconcileResult(false, 0, true) && Describes(w'.resource.status, Found(w.resource, env)))
  {
    if Cleaning(config, w, env) && env.secondWrite.WriteFailed? {
      var a := Found(w.resource, env);
      DeleteCases(config, w, env);
      SecondWriteFails(config, Stored(w, a, Succeeded(GetPublicIPAddress), env.firstWrite), a.value, env);
    }
  }

  lemma SecondWriteFails(config: Config, w: World, a: AzureAddress, env: Environment)
    requires env.secondWrite.WriteFailed?
    ensures CleanStep(config, w, a, env).1.Error? && CleanStep(config, w, a, env).0.resource == w.resource
  {
  }

  // ----- How long a deletion can take -----

  function AtLeast(low: int, x: int): int {
    if x < low then low else x
  }

  /** An upper bound on the reconciles that a deletion still needs, from its counters. */
  function Remaining(config: Config, ops: seq<FailedOperation>): int {
    AtLeast(0, config.maxCleanAttempts - 1 - Attempts(ops, CleanPublicIPAddress)) * AtLeast(1, config.maxGetAttempts)
    + AtLeast(1, config.maxGetAttempts - Attempts(ops, GetPublicIPAddress))
  }

  ghost predicate WellFormed(ops: seq<FailedOperation>) {
    Unique(ops) && forall i :: 0 <= i < |ops| ==> ops[i].attempts >= 1
  }

  lemma RecordKeepsWellFormed(ops: seq<FailedOperation>, o: OperationOutcome)
    requires WellFormed(ops)
    ensures WellFormed(Record(ops, o))
  {
    RecordKeepsUnique(ops, o);
    forall j | 0 <= j < |Record(ops, o)|
      ensures Record(ops, o)[j].attempts >= 1
    {
      EntryFrom(ops, o, j);
    }
  }

  /** A deletion in which only Azure may still misbehave: the grace period is over, the API server accepts
      every request, and an address found by name has an IP. */
  predicate Smooth(config: Config, deletedAt: int, e: Event) {
    e.Reconcile? ==>
      && e.env.now > deletedAt + config.deletionGracePeriod
      && WritesSucceed(e.env) && NamedAddressHasIP(e.env)
      && e.api == Answers(Accepted, Accepted, Accepted)
  }

  ghost predicate UnderDeletion(w: World, deletedAt: int) {
    && w.present && w.resource.finalizer
    && w.resource.deletionTimestamp == Some(deletedAt)
    && WellFormed(w.resource.status.failedOperations)
  }

  /** Whatever Azure answers, every reconcile of a deletion ends it or decreases the bound. */
  lemma ReconcileProgresses(config: Config, w: World, deletedAt: int, e: Event)
    requires UnderDeletion(w, deletedAt) && e.Reconcile? && Smooth(config, deletedAt, e)
    ensures var w' := Next(config, w, e);
      || !w'.present
      || (UnderDeletion(w', deletedAt)
          && 1 <= Remaining(config, w'.resource.status.failedOperations)
             < Remaining(config, w.resource.status.failedOperations))
  {
    if DeleteStep(config, w, e.env).1.Done? {
      assert !Next(config, w, e).present;
    } else {
      UnfinishedStays(config, w, e);
      DeleteProgresses(config, w, deletedAt, e.env);
    }
  }

  ghost predicate Progress(config: Config, ops: seq<FailedOperation>, ops': seq<FailedOperation>) {
    WellFormed(ops') && 1 <= Remaining(config, ops') < Remaining(config, ops)
  }

  lemma DeleteProgresses(config: Config, w: World, deletedAt: int, env: Environment)
    requires UnderDeletion(w, deletedAt)
    requires !WithinGracePeriod(config, w.resource, env.now) && WritesSucceed(env)
    requires !DeleteStep(config, w, env).1.Done?
    ensures DeleteStep(config, w, env).0.present ==> UnderDeletion(DeleteStep(config, w, env).0, deletedAt)
    ensures Progress(config, w.resource.status.failedOperations,
                     DeleteStep(config, w, env).0.resource.status.failedOperations)
  {
    var ops := w.resource.status.failedOperations;
    match FindAddress(w.resource, env)
    case Failure(error) =>
      GetFailureProgress(config, ops, Failed(GetPublicIPAddress, error, env.now));
    case Success(a) =>
      DeleteCases(config, w, env);
      CleanProgresses(config, w, Stored(w, a, Succeeded(GetPublicIPAddress), env.firstWrite), a.value, env);
  }

  lemma CleanProgresses(config: Config, w: World, w': World, a: AzureAddress, env: Environment)
    requires WellFormed(w.resource.status.failedOperations) && !env.secondWrite.WriteFailed?
    requires w'.resource.status.failedOperations
      == Record(w.resource.status.failedOperations, Succeeded(GetPublicIPAddress))
    requires !CleanStep(config, w', a, env).1.Done?
    ensures Progress(config, w.resource.status.failedOperations,
                     CleanStep(config, w', a, env).0.resource.status.failedOperations)
  {
    CleanFinishesIff(config, w', a, env);
    var o := FailedCleaningRecorded(config, w', a, env);
    OtherAttempts(w'.resource.status.failedOperations, o, CleanPublicIPAddress);
    CleanFailureProgress(config, w.resource.status.failedOperations, o);
  }

  lemma FailedCleaningRecorded(config: Config, w: World, a: AzureAddress, env: Environment) returns (o: OperationOutcome)
    requires !env.secondWrite.WriteFailed? && !CleaningSucceeds(env)
    ensures o.Failed? && o.typ == CleanPublicIPAddress
    ensures CleanStep(config, w, a, env).0.resource.status.failedOperations == Record(w.resource.status.failedOperations, o)
  {
    o := Failed(CleanPublicIPAddress, CleanAddress(w, a, env).1.value, env.now);
  }

  lemma GetFailureProgress(config: Config, ops: seq<FailedOperation>, o: OperationOutcome)
    requires WellFormed(ops) && o.Failed? && o.typ == GetPublicIPAddress
    ensures WellFormed(Record(ops, o))
    ensures 1 <= Remaining(config, Record(ops, o))
    ensures Attempts(Record(ops, o), o.typ) < config.maxGetAttempts ==>
      Remaining(config, Record(ops, o)) == Remaining(config, ops) - 1
  {
    RecordKeepsWellFormed(ops, o);
    OtherAttempts(ops, o, GetPublicIPAddress);
    OtherAttempts(ops, o, CleanPublicIPAddress);
    ProductNonNegative(AtLeast(0, config.maxCleanAttempts - 1 - Attempts(ops, CleanPublicIPAddress)),
                       AtLeast(1, config.maxGetAttempts));
  }

  lemma ProductNonNegative(x: int, y: int)
    requires x >= 0 && y >= 0
    ensures x * y >= 0
  {
  }

  lemma CleanFailureProgress(config: Config, ops: seq<FailedOperation>, o: OperationOutcome)
    requires WellFormed(ops) && o.Failed? && o.typ == CleanPublicIPAddress
    ensures var ops' := Record(Record(ops, Succeeded(GetPublicIPAddress)), o);
      && WellFormed(ops')
      && 1 <= Remaining(config, ops')
      && (Attempts(ops', o.typ) < config.maxCleanAttempts ==>
        Remaining(config, ops') == Remaining(config, ops) - AtLeast(1, config.maxGetAttempts - Attempts(ops, GetPublicIPAddress)))
  {
    var reset := Record(ops, Succeeded(GetPublicIPAddress));
    var ops' := Record(reset, o);
    RecordKeepsWellFormed(ops, Succeeded(GetPublicIPAddress));
    RecordKeepsWellFormed(reset, o);
    OtherAttempts(ops, Succeeded(GetPublicIPAddress), GetPublicIPAddress);
    OtherAttempts(ops, Succeeded(GetPublicIPAddress), CleanPublicIPAddress);
    OtherAttempts(reset, o, GetPublicIPAddress);
    OtherAttempts(reset, o, CleanPublicIPAddress);
    var m, g := AtLeast(0, config.maxCleanAttempts - 1 - Attempts(ops, CleanPublicIPAddress)), AtLeast(1, config.maxGetAttempts);
    ProductNonNegative(AtLeast(0, m - 1), g);
    assert (m - 1) * g == m * g - g;
  }

  function Reconciles(events: seq<Event>): nat {
    if events == [] then 0
    else Reconciles(events[..|events| - 1]) + if events[|events| - 1].Reconcile? then 1 else 0
  }

  ghost predicate AllSmooth(config: Config, deletedAt: int, events: seq<Event>) {
    forall i :: 0 <= i < |events| ==> Smooth(config, deletedAt, events[i])
  }

  /** A deletion ends: at the latest when the bound of its counters is used up, whatever Azure answers
      and whatever users edit in between. */
  lemma {:induction false} DeletionTerminates(config: Config, w: World, deletedAt: int, events: seq<Event>)
    requires UnderDeletion(w, deletedAt) && AllSmooth(config, deletedAt, events)
    ensures var w' := Run(config, w, events);
      || !w'.present
      || (UnderDeletion(w', deletedAt)
          && 1 <= Remaining(config, w'.resource.status.failedOperations)
             <= Remaining(config, w.resource.status.failedOperations) - Reconciles(events))
  {
    if events == [] {
      RemainingPositive(config, w.resource.status.failedOperations);
    } else {
      var before, last := events[..|events| - 1], events[|events| - 1];
      DeletionTerminates(config, w, deletedAt, before);
      var w' := Run(config, w, before);
      if !w'.present {
        GoneStaysGone(config, w', last);
      } else if last.Reconcile? {
        ReconcileProgresses(config, w', deletedAt, last);
      }
    }
  }

  lemma RemainingPositive(config: Config, ops: seq<FailedOperation>)
    ensures Remaining(config, ops) >= 1
  {
    ProductNonNegative(AtLeast(0, config.maxCleanAttempts - 1 - Attempts(ops, CleanPublicIPAddress)),
                       AtLeast(1, config.maxGetAttempts));
  }

  lemma GoneStaysGone(config: Config, w: World, e: Event)
    requires !w.present
    ensures !Next(config, w, e).present
  {
  }

  /** From empty counters, MaxCleanAttempts x MaxGetAttempts reconciles are enough. */
  lemma DeletionBound(config: Config, w: World, deletedAt: int, events: seq<Event>)
    requires UnderDeletion(w, deletedAt) && w.resource.status.failedOperations == []
    requires config.maxGetAttempts >= 1 && config.maxCleanAttempts >= 1
    requires AllSmooth(config, deletedAt, events)
    requires Reconciles(events) >= config.maxCleanAttempts * config.maxGetAttempts
    ensures !Run(config, w, events).present
  {
    RemainingFromEmpty(config);
    DeletionTerminates(config, w, deletedAt, events);
  }

  lemma RemainingFromEmpty(config: Config)
    ensures Remaining(config, []) == AtLeast(1, config.maxCleanAttempts) * AtLeast(1, config.maxGetAttempts)
  {
    var g := AtLeast(1, config.maxGetAttempts);
    assert (config.maxCleanAttempts - 1) * g == config.maxCleanAttempts * g - g;
  }

  // ----- The bound is reached -----

  function NothingListed(): Listing {
    Listing([], Some((0, "unavailable")))
  }

  function AddressOf(o: PublicIPAddress): AzureAddress {
    AzureAddress("id", "name", Some(o.ipAddress), map[SERVICE_TAG := ServiceName(o)], None)
  }

  /** The reconcile that helps a deletion least: the lookup fails while it may fail, then cleaning does. */
  function WorstEvent(config: Config, w: World, now: int): Event {
    var a := AddressOf(w.resource);
    var get := Attempts(w.resource.status.failedOperations, GetPublicIPAddress) + 1 < config.maxGetAttempts;
    Reconcile(
      Environment(now, if get then Failure("unavailable") else Success(Some(a)),
                  if get then NothingListed() else Listing([[a]], None),
                  GetRejected("unavailable"), DeleteCompleted, Written(map[]), Written(map[])),
      Answers(Accepted, Accepted, Accepted))
  }

  lemma WorstEventStep(config: Config, w: World, deletedAt: int, now: int)
    requires UnderDeletion(w, deletedAt) && now > deletedAt + config.deletionGracePeriod
    requires Remaining(config, w.resource.status.failedOperations) > 1
    ensures var w' := Next(config, w, WorstEvent(config, w, now));
      && UnderDeletion(w', deletedAt)
      && Remaining(config, w'.resource.status.failedOperations)
         == Remaining(config, w.resource.status.failedOperations) - 1
  {
    var e := WorstEvent(config, w, now);
    if Attempts(w.resource.status.failedOperations, GetPublicIPAddress) + 1 < config.maxGetAttempts {
      WorstGetStep(config, w, e.env);
    } else {
      WorstCleanStep(config, w, e.env);
    }
    UnfinishedStays(config, w, e);
    StaysPresent(config, w, e.env);
  }

  lemma StaysPresent(config: Config, w: World, env: Environment)
    requires w.present && w.resource.finalizer && w.resource.deletionTimestamp.Some?
    requires env.firstWrite.Written? && env.secondWrite.Written?
    ensures DeleteStep(config, w, env).0.present
  {
    DeleteVanishes(config, w, env);
  }

  /** An unfinished deletion leaves the object as the actuator does. */
  lemma UnfinishedStays(config: Config, w: World, e: Event)
    requires e.Reconcile? && !e.api.get.Rejected?
    requires w.present && w.resource.finalizer && w.resource.deletionTimestamp.Some?
    requires !DeleteStep(config, w, e.env).1.Done?
    ensures Next(config, w, e) == DeleteStep(config, w, e.env).0
  {
  }

  lemma WorstGetStep(config: Config, w: World, env: Environment)
    requires WellFormed(w.resource.status.failedOperations)
    requires Attempts(w.resource.status.failedOperations, GetPublicIPAddress) + 1 < config.maxGetAttempts
    requires env == WorstEvent(config, w, env.now).env
    ensures var (w', outcome) := DeleteStep(config, w, env);
      && !outcome.Done?
      && WellFormed(w'.resource.status.failedOperations)
      && Remaining(config, w'.resource.status.failedOperations)
         == Remaining(config, w.resource.status.failedOperations) - 1
  {
    var message := FindAddress(w.resource, env).error;
    GetFailureProgress(config, w.resource.status.failedOperations, Failed(GetPublicIPAddress, message, env.now));
    FailureCounted(w, GetPublicIPAddress, message, env.now);
  }

  lemma WorstCleanStep(config: Config, w: World, env: Environment)
    requires WellFormed(w.resource.status.failedOperations)
    requires Attempts(w.resource.status.failedOperations, GetPublicIPAddress) + 1 >= config.maxGetAttempts
    requires Remaining(config, w.resource.status.failedOperations) > 1
    requires env == WorstEvent(config, w, env.now).env
    requires !WithinGracePeriod(config, w.resource, env.now)
    ensures var (w', outcome) := DeleteStep(config, w, env);
      && !outcome.Done?
      && WellFormed(w'.resource.status.failedOperations)
      && Remaining(config, w'.resource.status.failedOperations)
         == Remaining(config, w.resource.status.failedOperations) - 1
  {
    var a, ops := AddressOf(w.resource), w.resource.status.failedOperations;
    WorstAddressFound(w, env);
    RoomForCleanFailure(config, ops);
    var w' := Stored(w, Some(a), Succeeded(GetPublicIPAddress), env.firstWrite);
    var (cleaned, error) := CleanAddress(w', a, env);
    CleanFailureProgress(config, ops, Failed(CleanPublicIPAddress, error.value, env.now));
    OtherAttempts(ops, Succeeded(GetPublicIPAddress), CleanPublicIPAddress);
    FailureCounted(w', CleanPublicIPAddress, error.value, env.now);
    assert DeleteStep(config, w, env) == CleanStep(config, w', a, env);
  }

  lemma WorstAddressFound(w: World, env: Environment)
    requires env.byName == Success(Some(AddressOf(w.resource)))
    requires env.listing == Listing([[AddressOf(w.resource)]], None)
    ensures FindAddress(w.resource, env) == Success(Some(AddressOf(w.resource)))
  {
    var a := AddressOf(w.resource);
    assert [[a]][..1] == [[a]] && [[a]][..0] == [];
    assert Flatten([[a]]) == [a];
  }

  lemma RoomForCleanFailure(config: Config, ops: seq<FailedOperation>)
    requires Remaining(config, ops) > 1
    requires Attempts(ops, GetPublicIPAddress) + 1 >= config.maxGetAttempts
    ensures Attempts(ops, CleanPublicIPAddress) + 1 < config.maxCleanAttempts
  {
  }

  /** The bound cannot be lowered: Azure can make a deletion use all of its reconciles but the last
      without ending. */
  lemma {:induction false} BoundIsTight(config: Config, w: World, deletedAt: int, now: int, n: nat)
    returns (events: seq<Event>)
    requires UnderDeletion(w, deletedAt) && now > deletedAt + config.deletionGracePeriod
    requires n < Remaining(config, w.resource.status.failedOperations)
    ensures |events| == Reconciles(events) == n && AllSmooth(config, deletedAt, events)
    ensures var w' := Run(config, w, events);
      && UnderDeletion(w', deletedAt)
      && Remaining(config, w'.resource.status.failedOperations)
         == Remaining(config, w.resource.status.failedOperations) - n
  {
    if n == 0 {
      events := [];
    } else {
      var before := BoundIsTight(config, w, deletedAt, now, n - 1);
      var w' := Run(config, w, before);
      WorstEventStep(config, w', deletedAt, now);
      WorstEventSmooth(config, w', deletedAt, now);
      OneMoreEvent(config, w, deletedAt, before, WorstEvent(config, w', now));
      events := before + [WorstEvent(config, w', now)];
    }
  }

  lemma WorstEventSmooth(config: Config, w: World, deletedAt: int, now: int)
    requires now > deletedAt + config.deletionGracePeriod
    ensures WorstEvent(config, w, now).Reconcile? && Smooth(config, deletedAt, WorstEvent(config, w, now))
  {
  }

  lemma OneMoreEvent(config: Config, w: World, deletedAt: int, before: seq<Event>, e: Event)
    requires AllSmooth(config, deletedAt, before) && e.Reconcile? && Smooth(config, deletedAt, e)
    ensures Run(config, w, before + [e]) == Next(config, Run(config, w, before), e)
    ensures Reconciles(before + [e]) == Reconciles(before) + 1
    ensures AllSmooth(config, deletedAt, before + [e])
  {
    assert (before + [e])[..|before|] == before;
  }

  // ----- Backoff over consecutive failures -----

  /** The reconcile attempts the operation, the operation fails, and the API server accepts everything. */
  predicate Fails(config: Config, w: World, e: Event, typ: OperationType) {
    && e.Reconcile?
    && e.env.firstWrite.Written? && e.env.secondWrite.Written?
    && e.api == Answers(Accepted, Accepted, Accepted)
    && var a := FindAddress(w.resource, e.env);
      if typ == GetPublicIPAddress then a.Failure?
      else
        && a.Success? && a.value.Some?
        && w.resource.deletionTimestamp.Some? && !WithinGracePeriod(config, w.resource, e.env.now)
        && !Protected(e.env.firstWrite.annotations)
        && !CleaningSucceeds(e.env)
  }

  function MaxAttempts(config: Config, typ: OperationType): int {
    if typ == GetPublicIPAddress then config.maxGetAttempts else config.maxCleanAttempts
  }

  predicate AllFail(config: Config, w: World, events: seq<Event>, typ: OperationType) {
    events == []
    || (AllFail(config, w, events[..|events| - 1], typ)
        && Fails(config, Run(config, w, events[..|events| - 1]), events[|events| - 1], typ))
  }

  /** What the reconciles of a run answer to the controller runtime, in order. */
  function Results(config: Config, w: World, events: seq<Event>): seq<ReconcileResult> {
    if events == [] then []
    else
      var before, last := events[..|events| - 1], events[|events| - 1];
      Results(config, w, before) +
      if last.Reconcile? then [ReconcilePublicIP(config, Run(config, w, before), last.env, last.api).1] else []
  }

  /** One more failure: counted, and below the maximum answered with the delay of its number. */
  ghost predicate BacksOff(config: Config, w: World, e: Event, typ: OperationType)
    requires e.Reconcile?
  {
    var (w', result) := ReconcilePublicIP(config, w, e.env, e.api);
    var attempts := Attempts(w.resource.status.failedOperations, typ) + 1;
    && Attempts(w'.resource.status.failedOperations, typ) == attempts
    && result == ReconcileResult(true, Delay(config.requeueInterval, attempts), false)
    && SameObject(w, w') && w'.present
  }

  lemma GetFailureBacksOff(config: Config, w: World, e: Event)
    requires w.present && w.resource.finalizer && Fails(config, w, e, GetPublicIPAddress)
    requires Attempts(w.resource.status.failedOperations, GetPublicIPAddress) + 1 < config.maxGetAttempts
    ensures BacksOff(config, w, e, GetPublicIPAddress)
  {
    var error := FindAddress(w.resource, e.env).error;
    FailedAttemptBacksOff(config, w, GetPublicIPAddress, None, error, e.env.now, e.env.firstWrite, config.maxGetAttempts);
    RequeuePassedOn(config, w, e);
  }

  /** A retry asked for by the actuator reaches the controller runtime with its delay unchanged. */
  lemma RequeuePassedOn(config: Config, w: World, e: Event)
    requires e.Reconcile? && e.api == Answers(Accepted, Accepted, Accepted) && w.present && w.resource.finalizer
    ensures var step := if w.resource.deletionTimestamp.Some? then DeleteStep(config, w, e.env)
                        else CreateOrUpdateStep(config, w, e.env);
      step.1.RequeueAfterError? ==>
        ReconcilePublicIP(config, w, e.env, e.api) == (step.0, ReconcileResult(true, step.1.after, false))
  {
  }

  lemma CleanFailureBacksOff(config: Config, w: World, e: Event)
    requires w.present && w.resource.finalizer && Fails(config, w, e, CleanPublicIPAddress)
    requires Attempts(w.resource.status.failedOperations, CleanPublicIPAddress) + 1 < config.maxCleanAttempts
    ensures BacksOff(config, w, e, CleanPublicIPAddress)
  {
    var a := FindAddress(w.resource, e.env).value;
    OtherAttempts(w.resource.status.failedOperations, Succeeded(GetPublicIPAddress), CleanPublicIPAddress);
    CleanFails(config, Stored(w, a, Succeeded(GetPublicIPAddress), e.env.firstWrite), a.value, e.env);
    DeleteCases(config, w, e.env);
    RequeuePassedOn(config, w, e);
  }

  lemma CleanFails(config: Config, w: World, a: AzureAddress, env: Environment)
    requires env.secondWrite.Written? && !CleaningSucceeds(env)
    requires Attempts(w.resource.status.failedOperations, CleanPublicIPAddress) + 1 < config.maxCleanAttempts
    ensures var (w', outcome) := CleanStep(config, w, a, env);
      var attempts := Attempts(w.resource.status.failedOperations, CleanPublicIPAddress) + 1;
      && Attempts(w'.resource.status.failedOperations, CleanPublicIPAddress) == attempts
      && outcome.RequeueAfterError? && outcome.after == Delay(config.requeueInterval, attempts)
  {
    var (cleaned, error) := CleanAddress(w, a, env);
    assert CleanStep(config, w, a, env) == AttemptFailed(config, cleaned, CleanPublicIPAddress, Some(a), error.value,
                                                         env.now, env.secondWrite, config.maxCleanAttempts);
    FailedAttemptBacksOff(config, cleaned, CleanPublicIPAddress, Some(a), error.value, env.now, env.secondWrite,
                          config.maxCleanAttempts);
  }

  lemma FailedAttemptBacksOff(config: Config, w: World, typ: OperationType, a: Option<AzureAddress>, error: string,
                              now: int, write: StatusWrite, max: int)
    requires !write.WriteFailed? && Attempts(w.resource.status.failedOperations, typ) + 1 < max
    ensures var (w', outcome) := AttemptFailed(config, w, typ, a, error, now, write, max);
      var attempts := Attempts(w.resource.status.failedOperations, typ) + 1;
      && Attempts(w'.resource.status.failedOperations, typ) == attempts
      && outcome == RequeueAfterError(error, Delay(config.requeueInterval, attempts))
  {
    FailureCounted(w, typ, error, now);
  }

  /** Requeues with the first n of the given delays. */
  function Requeues(delays: seq<int>, n: nat): seq<ReconcileResult>
    requires n <= |delays|
  {
    seq(n, i requires 0 <= i < n => ReconcileResult(true, delays[i], false))
  }

  /** Consecutive failures are counted, and the object stays as it is otherwise. */
  lemma {:induction false} FailuresCounted(config: Config, w: World, events: seq<Event>, typ: OperationType)
    requires typ == GetPublicIPAddress || typ == CleanPublicIPAddress
    requires w.present && w.resource.finalizer && Attempts(w.resource.status.failedOperations, typ) == 0
    requires AllFail(config, w, events, typ) && |events| < MaxAttempts(config, typ)
    ensures Attempts(Run(config, w, events).resource.status.failedOperations, typ) == |events|
    ensures SameObject(w, Run(config, w, events)) && Run(config, w, events).present
  {
    if events != [] {
      var before, last := events[..|events| - 1], events[|events| - 1];
      FailuresCounted(config, w, before, typ);
      OneMoreFailure(config, Run(config, w, before), last, typ);
    }
  }

  /** Consecutive failures from an empty counter are answered with the delays of the backoff in order. */
  lemma {:induction false} BackoffSchedule(config: Config, w: World, events: seq<Event>, typ: OperationType)
    requires typ == GetPublicIPAddress || typ == CleanPublicIPAddress
    requires w.present && w.resource.finalizer && Attempts(w.resource.status.failedOperations, typ) == 0
    requires AllFail(config, w, events, typ) && |events| < MaxAttempts(config, typ)
    ensures Results(config, w, events) == Requeues(Delays(config.requeueInterval, MaxAttempts(config, typ)), |events|)
  {
    if events != [] {
      var before, last := events[..|events| - 1], events[|events| - 1];
      BackoffSchedule(config, w, before, typ);
      LastFailureAnswered(config, w, events, typ);
      RequeuesGrow(config, typ, Results(config, w, before), |before|);
    }
  }

  lemma LastFailureAnswered(config: Config, w: World, events: seq<Event>, typ: OperationType)
    requires events != [] && (typ == GetPublicIPAddress || typ == CleanPublicIPAddress)
    requires w.present && w.resource.finalizer && Attempts(w.resource.status.failedOperations, typ) == 0
    requires AllFail(config, w, events, typ) && |events| < MaxAttempts(config, typ)
    ensures Results(config, w, events) == Results(config, w, events[..|events| - 1])
      + [ReconcileResult(true, Delay(config.requeueInterval, |events|), false)]
  {
    var before, last := events[..|events| - 1], events[|events| - 1];
    FailuresCounted(config, w, before, typ);
    OneMoreFailure(config, Run(config, w, before), last, typ);
    LastResult(config, w, events);
  }

  lemma RequeuesGrow(config: Config, typ: OperationType, results: seq<ReconcileResult>, n: nat)
    requires n + 1 < MaxAttempts(config, typ)
    requires results == Requeues(Delays(config.requeueInterval, MaxAttempts(config, typ)), n)
    ensures results + [ReconcileResult(true, Delay(config.requeueInterval, n + 1), false)]
      == Requeues(Delays(config.requeueInterval, MaxAttempts(config, typ)), n + 1)
  {
    OneMoreRequeue(Delays(config.requeueInterval, MaxAttempts(config, typ)), n);
  }

  lemma LastResult(config: Config, w: World, events: seq<Event>)
    requires events != [] && events[|events| - 1].Reconcile?
    ensures var before, last := events[..|events| - 1], events[|events| - 1];
      Results(config, w, events) == Results(config, w, before)
        + [ReconcilePublicIP(config, Run(config, w, before), last.env, last.api).1]
  {
  }

  lemma OneMoreRequeue(delays: seq<int>, n: nat)
    requires n < |delays|
    ensures Requeues(delays, n + 1) == Requeues(delays, n) + [ReconcileResult(true, delays[n], false)]
  {
  }

  lemma OneMoreFailure(config: Config, w: World, e: Event, typ: OperationType)
    requires typ == GetPublicIPAddress || typ == CleanPublicIPAddress
    requires w.present && w.resource.finalizer && Fails(config, w, e, typ)
    requires Attempts(w.resource.status.failedOperations, typ) + 1 < MaxAttempts(config, typ)
    ensures BacksOff(config, w, e, typ)
  {
    if typ == GetPublicIPAddress {
      GetFailureBacksOff(config, w, e);
    } else {
      CleanFailureBacksOff(config, w, e);
    }
  }

  /** From the maximum on, a failing lookup is only retried after the sync period. */
  lemma FailureAtMaximum(config: Config, w: World, e: Event)
    requires w.present && Fails(config, w, e, GetPublicIPAddress) && w.resource.finalizer
    requires Attempts(w.resource.status.failedOperations, GetPublicIPAddress) + 1 >= config.maxGetAttempts
    ensures ReconcilePublicIP(config, w, e.env, e.api).1 == ReconcileResult(false, config.syncPeriod, false)
  {
    var error := FindAddress(w.resource, e.env).error;
    FailureCounted(w, GetPublicIPAddress, error, e.env.now);
    assert GetFailed(config, w, e.env, error).1 == Done(config.syncPeriod);
    DonePassedOn(config, w, e);
  }

  /** A delay after success reaches the controller runtime unchanged as well. */
  lemma DonePassedOn(config: Config, w: World, e: Event)
    requires e.Reconcile? && e.api == Answers(Accepted, Accepted, Accepted) && w.present && w.resource.finalizer
    ensures var step := if w.resource.deletionTimestamp.Some? then DeleteStep(config, w, e.env)
                        else CreateOrUpdateStep(config, w, e.env);
      step.1.Done? ==> ReconcilePublicIP(config, w, e.env, e.api).1 == ReconcileResult(false, step.1.requeueAfter, false)
  {
  }
}
