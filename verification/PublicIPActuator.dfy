/**
 The actuator of PublicIPAddress objects: it looks the address up in Azure, keeps the status and the
 failed-operation counters, and on deletion waits out the grace period, cleans the address, and gives
 up after the maximum number of attempts. What Azure and the API server answer is the `Environment`.
 */
module PublicIPActuators {
  import opened Wrappers
  import opened FailedOperations
  import opened Labels
  import opened AzureUtils
  import opened PublicIPAddresses
  import opened Reconcilers

  const SERVICE_TAG := "service"

  datatype Config = Config(
    requeueInterval: int,
    syncPeriod: int,
    deletionGracePeriod: int,
    maxGetAttempts: int,
    maxCleanAttempts: int)

  /** A status write fails, or replaces the status, or finds that the object has vanished, which is no
      failure. In the last two cases it hands back the annotations that the object had when it was read. */
  datatype StatusWrite =
    | WriteFailed(error: string)
    | Written(annotations: map<string, string>)
    | Vanished(annotations: map<string, string>)

  datatype Environment = Environment(
    now: int,
    byName: Result<Option<AzureAddress>, string>,
    listing: Listing,
    removal: BalancerAnswer,
    deletion: DeleteAnswer,
    firstWrite: StatusWrite,
    secondWrite: StatusWrite)

  /** An address found by name has an IP; the code dereferences it. */
  predicate NamedAddressHasIP(env: Environment) {
    env.byName.Success? && env.byName.value.Some? ==> env.byName.value.value.ipAddress.Some?
  }

  /** The destructive Azure calls. */
  datatype AzureCall = RemoveFromLoadBalancer(ids: seq<string>) | DeleteAddress(name: string)

  /** The stored object, as last seen once it is not present any more, the Azure cloud, the counter of cleaned addresses, the destructive calls made
      so far, and the operation outcomes that made it into the status. */
  datatype World = World(
    present: bool,
    resource: PublicIPAddress,
    cloud: Cloud,
    cleaned: nat,
    calls: seq<AzureCall>,
    history: seq<OperationOutcome>)

  function ServiceName(o: PublicIPAddress): string {
    FromLabelValue(Get(o.labels, SERVICE_LABEL)).String()
  }

  predicate BelongsTo(a: AzureAddress, service: string) {
    service == "/" || (SERVICE_TAG in a.tags && a.tags[SERVICE_TAG] == service)
  }

  function FindByIP(o: PublicIPAddress, env: Environment): Result<Option<AzureAddress>, string> {
    match AddressByIP(env.listing, o.ipAddress)
    case Failure(e) => Failure(Wrap("could not get Azure public IP address by IP", e))
    case Success(a) => Success(if a.Some? && BelongsTo(a.value, ServiceName(o)) then a else None)
  }

  /** The Azure address of an object, if there is one. */
  function FindAddress(o: PublicIPAddress, env: Environment): Result<Option<AzureAddress>, string> {
    if o.status.name.None? then FindByIP(o, env)
    else
      match env.byName
      case Failure(e) => Failure(Wrap("could not get Azure public IP address by name", e))
      case Success(a) => if a.Some? && HasIP(a.value, o.ipAddress) then Success(a) else FindByIP(o, env)
  }

  function StatusOf(a: Option<AzureAddress>, ops: seq<FailedOperation>): Status {
    if a.None? then EMPTY_STATUS.(failedOperations := ops)
    else Status(true, Some(a.value.id), Some(a.value.name), a.value.provisioningState, ops)
  }

  /** The world after a status write without an error that records one operation outcome. */
  function Stored(w: World, a: Option<AzureAddress>, o: OperationOutcome, write: StatusWrite): World
    requires !write.WriteFailed?
  {
    var ops := Record(w.resource.status.failedOperations, o);
    w.(resource := w.resource.(status := StatusOf(a, ops), annotations := write.annotations),
       present := w.present && write.Written?,
       history := w.history + [o])
  }

  /** Everything of the object but its status and its annotations is as before, unless it vanished. */
  predicate SameObject(w: World, w': World) {
    && (w'.present ==> w.present)
    && w'.resource == w.resource.(status := w'.resource.status, annotations := w'.resource.annotations)
  }

  /** Azure is left alone. */
  predicate SameCloud(w: World, w': World) {
    w'.cloud == w.cloud && w'.calls == w.calls && w'.cleaned == w.cleaned
  }

  function WriteError(write: StatusWrite): Outcome
    requires write.WriteFailed?
  {
    Error(Wrap("could not update publicipaddress status", write.error))
  }

  /** A failed attempt is counted in the status; the address `a` is what is known of it. */
  function AttemptFailed(config: Config, w: World, typ: OperationType, a: Option<AzureAddress>, error: string,
                         now: int, write: StatusWrite, max: int): (r: (World, Outcome))
    ensures SameObject(w, r.0) && SameCloud(w, r.0)
    ensures w.present ==> (r.0.present <==> !write.Vanished?)
  {
    if write.WriteFailed? then (w, WriteError(write))
    else
      var w' := Stored(w, a, Failed(typ, error, now), write);
      (w', AfterFailure(config.requeueInterval, config.syncPeriod, Attempts(w'.resource.status.failedOperations, typ), max, error))
  }

  function GetFailed(config: Config, w: World, env: Environment, error: string): (r: (World, Outcome))
    ensures SameObject(w, r.0) && SameCloud(w, r.0)
    ensures w.present ==> (r.0.present <==> !env.firstWrite.Vanished?)
  {
    AttemptFailed(config, w, GetPublicIPAddress, None, error, env.now, env.firstWrite, config.maxGetAttempts)
  }

  predicate Settled(state: Option<string>) {
    state == Some("Succeeded") || state == Some("Failed")
  }

  function CreateOrUpdateStep(config: Config, w: World, env: Environment): (r: (World, Outcome))
    ensures SameObject(w, r.0) && SameCloud(w, r.0)
    ensures w.present ==> (r.0.present <==> !env.firstWrite.Vanished?)
  {
    match FindAddress(w.resource, env)
    case Failure(error) => GetFailed(config, w, env, error)
    case Success(a) =>
      if env.firstWrite.WriteFailed? then (w, WriteError(env.firstWrite))
      else
        (Stored(w, a, Succeeded(GetPublicIPAddress), env.firstWrite),
         Done(if a.None? || !Settled(a.value.provisioningState) then config.requeueInterval else config.syncPeriod))
  }

  /** Detach the address from the load balancer, then delete it. */
  function CleanAddress(w: World, a: AzureAddress, env: Environment): (r: (World, Option<string>))
    ensures env.removal.Updated? ==>
      r.0.calls == w.calls + [RemoveFromLoadBalancer([a.id]), DeleteAddress(a.name)]
    ensures !env.removal.Updated? ==> r.0.calls == w.calls + [RemoveFromLoadBalancer([a.id])] && r.1.Some?
  {
    var detached := w.(calls := w.calls + [RemoveFromLoadBalancer([a.id])],
                       cloud := RemovedFromBalancer(w.cloud, [a.id], env.removal));
    if BalancerError(env.removal).Some? then
      (detached, Some(Wrap("could not remove Azure public IP address from the load balancer", BalancerError(env.removal).value)))
    else
      var gone := detached.(calls := detached.calls + [DeleteAddress(a.name)],
                            cloud := AzureUtils.Deleted(detached.cloud, a.name, env.deletion));
      (gone, if DeleteError(env.deletion).Some?
             then Some(Wrap("could not delete Azure public IP address", DeleteError(env.deletion).value)) else None)
  }

  function CleanSucceeded(w: World, write: StatusWrite): (r: (World, Outcome))
    ensures SameObject(w, r.0) && r.0.cloud == w.cloud && r.0.calls == w.calls
    ensures w.present ==> (r.0.present <==> !write.Vanished?)
    ensures r.0.cleaned == w.cleaned + 1
  {
    var counted := w.(cleaned := w.cleaned + 1);
    if write.WriteFailed? then (counted, WriteError(write))
    else (Stored(counted, None, Succeeded(CleanPublicIPAddress), write), Done(0))
  }

  function CleanStep(config: Config, w: World, a: AzureAddress, env: Environment): (r: (World, Outcome))
    ensures SameObject(w, r.0)
    ensures w.present ==> (r.0.present <==> !env.secondWrite.Vanished?)
  {
    var (w', error) := CleanAddress(w, a, env);
    if error.Some? then
      AttemptFailed(config, w', CleanPublicIPAddress, Some(a), error.value, env.now, env.secondWrite, config.maxCleanAttempts)
    else
      CleanSucceeded(w', env.secondWrite)
  }

  predicate WithinGracePeriod(config: Config, o: PublicIPAddress, now: int) {
    o.deletionTimestamp.Some? && now <= o.deletionTimestamp.value + config.deletionGracePeriod
  }

  function DeleteStep(config: Config, w: World, env: Environment): (r: (World, Outcome))
    ensures SameObject(w, r.0)
  {
    match FindAddress(w.resource, env)
    case Failure(error) => GetFailed(config, w, env, error)
    case Success(a) =>
      if env.firstWrite.WriteFailed? then (w, WriteError(env.firstWrite))
      else
        var w' := Stored(w, a, Succeeded(GetPublicIPAddress), env.firstWrite);
        if a.None? || ShouldNotClean(w'.resource.annotations) then (w', Done(0))
        else if WithinGracePeriod(config, w'.resource, env.now) then
          (w', RequeueAfterError("public IP address still exists", config.requeueInterval))
        else CleanStep(config, w', a.value, env)
  }

  class PublicIPActuator {
    const config: Config
    const utils: PublicIPAddressUtils
    var resource: PublicIPAddress
    var cleanedIPs: nat
    ghost var present: bool
    ghost var calls: seq<AzureCall>
    ghost var history: seq<OperationOutcome>

    constructor (config: Config, utils: PublicIPAddressUtils, resource: PublicIPAddress)
      ensures this.config == config && this.utils == utils
      ensures State() == World(true, resource, utils.cloud, 0, [], [])
    {
      this.config, this.utils, this.resource := config, utils, resource;
      cleanedIPs, present, calls, history := 0, true, [], [];
    }

    ghost function State(): World
      reads this, utils
    {
      World(present, resource, utils.cloud, cleanedIPs, calls, history)
    }

    method CreateOrUpdate(env: Environment) returns (outcome: Outcome)
      requires NamedAddressHasIP(env)
      modifies this, utils
      ensures (State(), outcome) == CreateOrUpdateStep(config, old(State()), env)
    {
      var failedOperations := new FailedOperationList(resource.status.failedOperations);
      var azure := GetAzurePublicIPAddress(env);
      if azure.Failure? {
        outcome := HandleFailure(failedOperations, GetPublicIPAddress, None, azure.error, env.now,
                                 env.firstWrite, config.maxGetAttempts);
        return;
      }
      failedOperations.Delete(GetPublicIPAddress);
      var error := UpdateStatus(azure.value, failedOperations.ops, env.firstWrite, Succeeded(GetPublicIPAddress));
      if error.Some? {
        return Error(error.value);
      }
      var requeueAfter := config.syncPeriod;
      if azure.value.None? || !Settled(azure.value.value.provisioningState) {
        requeueAfter := config.requeueInterval;
      }
      outcome := Done(requeueAfter);
    }

    method Delete(env: Environment) returns (outcome: Outcome)
      requires NamedAddressHasIP(env)
      modifies this, utils
      ensures (State(), outcome) == DeleteStep(config, old(State()), env)
    {
      var failedOperations := new FailedOperationList(resource.status.failedOperations);
      var azure := GetAzurePublicIPAddress(env);
      if azure.Failure? {
        outcome := HandleFailure(failedOperations, GetPublicIPAddress, None, azure.error, env.now,
                                 env.firstWrite, config.maxGetAttempts);
        return;
      }
      failedOperations.Delete(GetPublicIPAddress);
      var error := UpdateStatus(azure.value, failedOperations.ops, env.firstWrite, Succeeded(GetPublicIPAddress));
      if error.Some? {
        return Error(error.value);
      }
      if azure.value.Some? && !ShouldNotClean(resource.annotations) {
        if WithinGracePeriod(config, resource, env.now) {
          return RequeueAfterError("public IP address still exists", config.requeueInterval);
        }
        outcome := Clean(azure.value.value, failedOperations, env);
        return;
      }
      outcome := Done(0);
    }

    /** Count a failed attempt, and decide between a retry and giving up. */
    method HandleFailure(failedOperations: FailedOperationList, typ: OperationType, azure: Option<AzureAddress>,
                         message: string, now: int, write: StatusWrite, max: int)
      returns (outcome: Outcome)
      requires failedOperations.ops == resource.status.failedOperations
      modifies this, failedOperations
      ensures (State(), outcome) == AttemptFailed(config, old(State()), typ, azure, message, now, write, max)
    {
      var op := failedOperations.AddOrUpdate(typ, message, now);
      var error := UpdateStatus(azure, failedOperations.ops, write, Failed(typ, message, now));
      if error.Some? {
        return Error(error.value);
      }
      outcome := AfterFailure(config.requeueInterval, config.syncPeriod, Attempts(failedOperations.ops, typ), max, message);
    }

    /** The part of Delete from cleaning on. */
    method Clean(azure: AzureAddress, failedOperations: FailedOperationList, env: Environment)
      returns (outcome: Outcome)
      requires failedOperations.ops == resource.status.failedOperations
      requires resource.status.id == Some(azure.id) && resource.status.name == Some(azure.name)
      modifies this, utils, failedOperations
      ensures (State(), outcome) == CleanStep(config, old(State()), azure, env)
    {
      var cleaning := CleanAzurePublicIPAddress(env, azure);
      if cleaning.Some? {
        outcome := HandleFailure(failedOperations, CleanPublicIPAddress, Some(azure), cleaning.value, env.now,
                                 env.secondWrite, config.maxCleanAttempts);
        return;
      }
      outcome := HandleSuccess(failedOperations, env.secondWrite);
    }

    /** Forget earlier cleaning failures, and count the cleaned address. */
    method HandleSuccess(failedOperations: FailedOperationList, write: StatusWrite) returns (outcome: Outcome)
      requires failedOperations.ops == resource.status.failedOperations
      modifies this, failedOperations
      ensures (State(), outcome) == CleanSucceeded(old(State()), write)
    {
      failedOperations.Delete(CleanPublicIPAddress);
      cleanedIPs := cleanedIPs + 1;
      var error := UpdateStatus(None, failedOperations.ops, write, Succeeded(CleanPublicIPAddress));
      if error.Some? {
        return Error(error.value);
      }
      outcome := Done(0);
    }

    method GetAzurePublicIPAddress(env: Environment) returns (r: Result<Option<AzureAddress>, string>)
      requires NamedAddressHasIP(env)
      modifies utils`readRequests
      ensures r == FindAddress(resource, env)
    {
      if resource.status.name.Some? {
        if env.byName.Failure? {
          return Failure(Wrap("could not get Azure public IP address by name", env.byName.error));
        }
        var named := env.byName.value;
        if named.Some? && named.value.ipAddress.value == resource.ipAddress {
          return Success(named);
        }
      }
      r := SearchByIP(env);
    }

    /** The part of the lookup that searches by IP and checks the service tag. */
    method SearchByIP(env: Environment) returns (r: Result<Option<AzureAddress>, string>)
      modifies utils`readRequests
      ensures r == FindByIP(resource, env)
    {
      var found := utils.GetByIP(resource.ipAddress, env.listing);
      if found.Failure? {
        return Failure(Wrap("could not get Azure public IP address by IP", found.error));
      }
      if found.value.Some? && BelongsTo(found.value.value, ServiceName(resource)) {
        return Success(found.value);
      }
      r := Success(None);
    }

    method CleanAzurePublicIPAddress(env: Environment, ghost azure: AzureAddress) returns (error: Option<string>)
      requires resource.status.id == Some(azure.id) && resource.status.name == Some(azure.name)
      modifies this`calls, utils
      ensures (State(), error) == CleanAddress(old(State()), azure, env)
    {
      var removal := utils.RemoveFromLoadBalancer([resource.status.id.value], env.removal);
      calls := calls + [RemoveFromLoadBalancer([resource.status.id.value])];
      if removal.Some? {
        return Some(Wrap("could not remove Azure public IP address from the load balancer", removal.value));
      }
      var deletion := utils.Delete(resource.status.name.value, env.deletion);
      calls := calls + [DeleteAddress(resource.status.name.value)];
      if deletion.Some? {
        return Some(Wrap("could not delete Azure public IP address", deletion.value));
      }
      error := None;
    }

    method UpdateStatus(azure: Option<AzureAddress>, ops: seq<FailedOperation>, write: StatusWrite,
                        ghost outcome: OperationOutcome)
      returns (error: Option<string>)
      requires ops == Record(resource.status.failedOperations, outcome)
      modifies this`resource, this`present, this`history
      ensures write.WriteFailed? ==> error.Some? && State() == old(State()) && Error(error.value) == WriteError(write)
      ensures !write.WriteFailed? ==> error.None? && State() == Stored(old(State()), azure, outcome, write)
    {
      if write.WriteFailed? {
        return Some(Wrap("could not update publicipaddress status", write.error));
      }
      resource := resource.(status := StatusOf(azure, ops), annotations := write.annotations);
      present, history := present && write.Written?, history + [outcome];
      error := None;
    }
  }
}
