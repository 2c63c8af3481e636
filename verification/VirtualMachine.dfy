/**
 The actuator of VirtualMachine objects: it looks the VM up in Azure, reapplies a failed VM, and keeps
 the status, the failed-operation counters, the gauge of VM states and the counter of reapplied VMs.
 */
module VirtualMachines {
  import opened Wrappers
  import opened FailedOperations
  import opened Backoff
  import opened AzureUtils
  import opened PublicIPAddresses
  import opened Reconcilers

  datatype VMState = OK | FailedWillReapply | StateFailed

  datatype AzureVM = AzureVM(id: Option<string>, name: Option<string>, provisioningState: Option<string>)

  datatype VirtualMachine = VirtualMachine(name: string, providerID: string, status: Status)

  datatype Config = Config(requeueInterval: int, syncPeriod: int, maxGetAttempts: int, maxReapplyAttempts: int)

  /** Azure's and the API server's answers to one reconcile; a failing status write has an error. */
  datatype Environment = Environment(
    now: int,
    get: Result<Option<AzureVM>, string>,
    reapply: Option<string>,
    getAgain: Result<Option<AzureVM>, string>,
    firstWrite: Option<string>,
    secondWrite: Option<string>)

  /** The stored object, the metrics, and the operation outcomes that made it into the status. */
  datatype World = World(
    vm: VirtualMachine,
    gauge: map<string, VMState>,
    reapplied: nat,
    history: seq<OperationOutcome>)

  // ----- The name of the VM -----

  /** The position of the last slash, or -1. */
  function LastSlash(s: string): (i: int)
    ensures -1 <= i < |s|
    ensures i >= 0 ==> s[i] == '/'
    ensures forall j :: i < j < |s| ==> s[j] != '/'
  {
    if s == [] then -1
    else if s[|s| - 1] == '/' then |s| - 1
    else LastSlash(s[..|s| - 1])
  }

  method LastIndex(s: string) returns (i: int)
    ensures i == LastSlash(s)
  {
    i := |s| - 1;
    while i >= 0 && s[i] != '/'
      invariant -1 <= i < |s|
      invariant forall j :: i < j < |s| ==> s[j] != '/'
    {
      i := i - 1;
    }
  }

  function BaseName(vm: VirtualMachine): string {
    var i := LastSlash(vm.providerID);
    if i > 0 then vm.providerID[i + 1..] else vm.name
  }

  function VirtualMachineName(vm: VirtualMachine): string {
    if vm.status.name.Some? then vm.status.name.value else BaseName(vm)
  }

  // ----- One reconcile -----

  predicate InFailedState(a: AzureVM) {
    a.provisioningState == Some("Failed")
  }

  predicate Settled(a: AzureVM) {
    a.provisioningState == Some("Succeeded") || InFailedState(a)
  }

  function StatusOf(a: Option<AzureVM>, ops: seq<FailedOperation>): Status {
    if a.None? then EMPTY_STATUS.(failedOperations := ops)
    else Status(true, a.value.id, a.value.name, a.value.provisioningState, ops)
  }

  function Stored(w: World, a: Option<AzureVM>, o: OperationOutcome): World {
    w.(vm := w.vm.(status := StatusOf(a, Record(w.vm.status.failedOperations, o))), history := w.history + [o])
  }

  function WriteError(e: string): Outcome {
    Error(Wrap("could not update virtualmachine status", e))
  }

  function AttemptFailed(config: Config, w: World, typ: OperationType, a: Option<AzureVM>, error: string,
                         now: int, write: Option<string>, max: int): (World, Outcome)
  {
    if write.Some? then (w, WriteError(write.value))
    else
      var w' := Stored(w, a, Failed(typ, error, now));
      (w', AfterFailure(config.requeueInterval, config.syncPeriod, Attempts(w'.vm.status.failedOperations, typ), max, error))
  }

  function Gauged(gauge: map<string, VMState>, name: string, a: Option<AzureVM>): map<string, VMState> {
    if a.None? then gauge - {name} else gauge[name := if InFailedState(a.value) then StateFailed else OK]
  }

  function GetVM(env: Environment): Result<Option<AzureVM>, string> {
    if env.get.Failure? then Failure(Wrap("could not get Azure virtual machine", env.get.error)) else env.get
  }

  /** Reapplying ends with the VM as it is found afterwards. */
  function ReapplyVM(env: Environment): Result<Option<AzureVM>, string> {
    if env.reapply.Some? then Failure(Wrap("could not reapply Azure virtual machine", env.reapply.value))
    else if env.getAgain.Failure? then Failure(Wrap("could not get Azure virtual machine", env.getAgain.error))
    else env.getAgain
  }

  function ReapplyStep(config: Config, w: World, name: string, a: AzureVM, env: Environment): (World, Outcome) {
    var trying := w.(gauge := w.gauge[name := FailedWillReapply]);
    match ReapplyVM(env)
    case Failure(error) =>
      var (w', outcome) := AttemptFailed(config, trying, ReapplyVirtualMachine, Some(a), error, env.now,
                                         env.secondWrite, config.maxReapplyAttempts);
      (if outcome.Done? then w'.(gauge := w'.gauge[name := StateFailed]) else w', outcome)
    case Success(again) =>
      var w' := trying.(reapplied := w.reapplied + 1, gauge := Gauged(trying.gauge, name, again));
      if env.secondWrite.Some? then (w', WriteError(env.secondWrite.value))
      else (Stored(w', again, Succeeded(ReapplyVirtualMachine)), Done(config.syncPeriod))
  }

  function CreateOrUpdateStep(config: Config, w: World, env: Environment): (World, Outcome) {
    var name := VirtualMachineName(w.vm);
    match GetVM(env)
    case Failure(error) =>
      AttemptFailed(config, w, GetVirtualMachine, None, error, env.now, env.firstWrite, config.maxGetAttempts)
    case Success(a) =>
      if env.firstWrite.Some? then (w, WriteError(env.firstWrite.value))
      else
        var w' := Stored(w, a, Succeeded(GetVirtualMachine));
        if a.Some? && InFailedState(a.value) then ReapplyStep(config, w', name, a.value, env)
        else
          (w'.(gauge := Gauged(w'.gauge, name, a)),
           Done(if a.None? || !Settled(a.value) then config.requeueInterval else config.syncPeriod))
  }

  function DeleteStep(config: Config, w: World, env: Environment): (World, Outcome) {
    match GetVM(env)
    case Failure(error) =>
      AttemptFailed(config, w, GetVirtualMachine, None, error, env.now, env.firstWrite, config.maxGetAttempts)
    case Success(a) =>
      var w' := w.(gauge := Gauged(w.gauge, VirtualMachineName(w.vm), a));
      if env.firstWrite.Some? then (w', WriteError(env.firstWrite.value))
      else (Stored(w', a, Succeeded(GetVirtualMachine)), Done(0))
  }

  class VMActuator {
    const config: Config
    var vm: VirtualMachine
    var gauge: map<string, VMState>
    var reappliedVMs: nat
    ghost var history: seq<OperationOutcome>

    constructor (config: Config, vm: VirtualMachine, gauge: map<string, VMState>)
      ensures this.config == config && State() == World(vm, gauge, 0, [])
    {
      this.config, this.vm, this.gauge := config, vm, gauge;
      reappliedVMs, history := 0, [];
    }

    ghost function State(): World
      reads this
    {
      World(vm, gauge, reappliedVMs, history)
    }

    method GetVirtualMachineName() returns (name: string)
      ensures name == VirtualMachineName(vm)
    {
      if vm.status.name.Some? {
        return vm.status.name.value;
      }
      var i := LastIndex(vm.providerID);
      if i > 0 {
        return vm.providerID[i + 1..];
      }
      name := vm.name;
    }

    method CreateOrUpdate(env: Environment) returns (outcome: Outcome)
      modifies this
      ensures (State(), outcome) == CreateOrUpdateStep(config, old(State()), env)
    {
      var vmName := GetVirtualMachineName();
      var failedOperations := new FailedOperationList(vm.status.failedOperations);
      if env.get.Failure? {
        outcome := HandleFailure(failedOperations, GetVirtualMachine, None,
                                 Wrap("could not get Azure virtual machine", env.get.error), env.now,
                                 env.firstWrite, config.maxGetAttempts);
        return;
      }
      var azureVM := env.get.value;
      failedOperations.Delete(GetVirtualMachine);
      var error := UpdateStatus(azureVM, failedOperations.ops, env.firstWrite, Succeeded(GetVirtualMachine));
      if error.Some? {
        return WriteError(error.value);
      }
      if azureVM.Some? && InFailedState(azureVM.value) {
        outcome := Reapply(vmName, azureVM.value, failedOperations, env);
        return;
      } else if azureVM.Some? && !InFailedState(azureVM.value) {
        gauge := gauge[vmName := OK];
      } else if azureVM.None? {
        gauge := gauge - {vmName};
      }
      var requeueAfter := config.syncPeriod;
      if azureVM.None? || !Settled(azureVM.value) {
        requeueAfter := config.requeueInterval;
      }
      outcome := Done(requeueAfter);
    }

    /** The part of CreateOrUpdate for a VM in the Failed state. */
    method Reapply(vmName: string, azureVM: AzureVM, failedOperations: FailedOperationList, env: Environment)
      returns (outcome: Outcome)
      requires failedOperations.ops == vm.status.failedOperations
      modifies this, failedOperations
      ensures (State(), outcome) == ReapplyStep(config, old(State()), vmName, azureVM, env)
    {
      gauge := gauge[vmName := FailedWillReapply];
      var reapplied := ReapplyVM(env);
      if reapplied.Failure? {
        outcome := HandleFailure(failedOperations, ReapplyVirtualMachine, Some(azureVM), reapplied.error, env.now,
                                 env.secondWrite, config.maxReapplyAttempts);
        if outcome.Done? {
          gauge := gauge[vmName := StateFailed];
        }
        return;
      }
      failedOperations.Delete(ReapplyVirtualMachine);
      reappliedVMs := reappliedVMs + 1;
      SetVMStatesGauge(reapplied.value, vmName);
      var error := UpdateStatus(reapplied.value, failedOperations.ops, env.secondWrite, Succeeded(ReapplyVirtualMachine));
      if error.Some? {
        return WriteError(error.value);
      }
      outcome := Done(config.syncPeriod);
    }

    method Delete(env: Environment) returns (outcome: Outcome)
      modifies this
      ensures (State(), outcome) == DeleteStep(config, old(State()), env)
    {
      var vmName := GetVirtualMachineName();
      var failedOperations := new FailedOperationList(vm.status.failedOperations);
      if env.get.Failure? {
        outcome := HandleFailure(failedOperations, GetVirtualMachine, None,
                                 Wrap("could not get Azure virtual machine", env.get.error), env.now,
                                 env.firstWrite, config.maxGetAttempts);
        return;
      }
      failedOperations.Delete(GetVirtualMachine);
      SetVMStatesGauge(env.get.value, vmName);
      var error := UpdateStatus(env.get.value, failedOperations.ops, env.firstWrite, Succeeded(GetVirtualMachine));
      if error.Some? {
        return WriteError(error.value);
      }
      outcome := Done(0);
    }

    /** Count a failed attempt, and decide between a retry and giving up. */
    method HandleFailure(failedOperations: FailedOperationList, typ: OperationType, azureVM: Option<AzureVM>,
                         message: string, now: int, write: Option<string>, max: int)
      returns (outcome: Outcome)
      requires failedOperations.ops == vm.status.failedOperations
      modifies this, failedOperations
      ensures (State(), outcome) == AttemptFailed(config, old(State()), typ, azureVM, message, now, write, max)
    {
      var op := failedOperations.AddOrUpdate(typ, message, now);
      var error := UpdateStatus(azureVM, failedOperations.ops, write, Failed(typ, message, now));
      if error.Some? {
        return WriteError(error.value);
      }
      outcome := AfterFailure(config.requeueInterval, config.syncPeriod, Attempts(failedOperations.ops, typ), max, message);
    }

    method UpdateStatus(azureVM: Option<AzureVM>, ops: seq<FailedOperation>, write: Option<string>,
                        ghost outcome: OperationOutcome)
      returns (error: Option<string>)
      requires ops == Record(vm.status.failedOperations, outcome)
      modifies this`vm, this`history
      ensures error == write
      ensures State() == if write.Some? then old(State()) else Stored(old(State()), azureVM, outcome)
    {
      if write.None? {
        vm := vm.(status := StatusOf(azureVM, ops));
        history := history + [outcome];
      }
      error := write;
    }

    method SetVMStatesGauge(azureVM: Option<AzureVM>, name: string)
      modifies this`gauge
      ensures gauge == Gauged(old(gauge), name, azureVM)
    {
      if azureVM.Some? && InFailedState(azureVM.value) {
        gauge := gauge[name := StateFailed];
      } else if azureVM.Some? && !InFailedState(azureVM.value) {
        gauge := gauge[name := OK];
      } else {
        gauge := gauge - {name};
      }
    }
  }

  // ----- Runs -----

  datatype Event = Update(env: Environment) | Deletion(env: Environment)

  function Next(config: Config, w: World, e: Event): World {
    match e
    case Update(env) => CreateOrUpdateStep(config, w, env).0
    case Deletion(env) => DeleteStep(config, w, env).0
  }

  function Run(config: Config, w: World, events: seq<Event>): World {
    if events == [] then w else Next(config, Run(config, w, events[..|events| - 1]), events[|events| - 1])
  }

  ghost predicate CountersAccurate(w: World) {
    Accurate(w.vm.status.failedOperations, w.history)
  }

  lemma StoredKeepsCounters(w: World, a: Option<AzureVM>, o: OperationOutcome)
    requires CountersAccurate(w)
    ensures CountersAccurate(Stored(w, a, o))
  {
    RecordKeepsAccurate(w.vm.status.failedOperations, w.history, o);
  }

  lemma AttemptFailedKeepsCounters(config: Config, w: World, typ: OperationType, a: Option<AzureVM>, error: string,
                                   now: int, write: Option<string>, max: int)
    requires CountersAccurate(w)
    ensures CountersAccurate(AttemptFailed(config, w, typ, a, error, now, write, max).0)
  {
    StoredKeepsCounters(w, a, Failed(typ, error, now));
  }

  lemma ReapplyKeepsCounters(config: Config, w: World, name: string, a: AzureVM, env: Environment)
    requires CountersAccurate(w)
    ensures CountersAccurate(ReapplyStep(config, w, name, a, env).0)
  {
    var trying := w.(gauge := w.gauge[name := FailedWillReapply]);
    match ReapplyVM(env)
    case Failure(error) =>
      AttemptFailedKeepsCounters(config, trying, ReapplyVirtualMachine, Some(a), error, env.now, env.secondWrite, config.maxReapplyAttempts);
    case Success(again) =>
      StoredKeepsCounters(trying.(reapplied := w.reapplied + 1, gauge := Gauged(trying.gauge, name, again)), again, Succeeded(ReapplyVirtualMachine));
  }

  lemma NextKeepsCounters(config: Config, w: World, e: Event)
    requires CountersAccurate(w)
    ensures CountersAccurate(Next(config, w, e))
  {
    match GetVM(e.env)
    case Failure(error) =>
      AttemptFailedKeepsCounters(config, w, GetVirtualMachine, None, error, e.env.now, e.env.firstWrite, config.maxGetAttempts);
    case Success(a) =>
      var gauged := w.(gauge := Gauged(w.gauge, VirtualMachineName(w.vm), a));
      StoredKeepsCounters(gauged, a, Succeeded(GetVirtualMachine));
      StoredKeepsCounters(w, a, Succeeded(GetVirtualMachine));
      if a.Some? {
        ReapplyKeepsCounters(config, Stored(w, a, Succeeded(GetVirtualMachine)), VirtualMachineName(w.vm), a.value, e.env);
      }
  }

  /** In every run the stored counters say exactly what the recorded outcomes say. */
  lemma {:induction false} RunKeepsCounters(config: Config, w: World, events: seq<Event>)
    requires CountersAccurate(w)
    ensures CountersAccurate(Run(config, w, events))
  {
    if events != [] {
      RunKeepsCounters(config, w, events[..|events| - 1]);
      NextKeepsCounters(config, Run(config, w, events[..|events| - 1]), events[|events| - 1]);
    }
  }

  /** If the status writes succeed, every attempted operation is recorded with its outcome. */
  lemma EveryAttemptRecorded(config: Config, w: World, e: Event)
    requires e.env.firstWrite.None? && e.env.secondWrite.None?
    ensures Next(config, w, e).history == w.history + Attempted(e)
  {
    var env := e.env;
    if e.Update? && Reapplying(env) {
      ReapplyStepTaken(config, w, env);
      ReapplyRecorded(config, Stored(w, env.get.value, Succeeded(GetVirtualMachine)), VirtualMachineName(w.vm),
                      env.get.value.value, env);
    } else {
      GetRecorded(config, w, e);
    }
  }

  lemma GetRecorded(config: Config, w: World, e: Event)
    requires e.env.firstWrite.None? && !(e.Update? && Reapplying(e.env))
    ensures Next(config, w, e).history == w.history + [GetAttempt(e.env)]
  {
  }

  lemma ReapplyRecorded(config: Config, w: World, name: string, a: AzureVM, env: Environment)
    requires env.secondWrite.None?
    ensures ReapplyStep(config, w, name, a, env).0.history == w.history + [ReapplyAttempt(env)]
  {
  }

  /** The operations that an event attempts, with their outcomes. */
  function Attempted(e: Event): seq<OperationOutcome> {
    [GetAttempt(e.env)] + if e.Update? && Reapplying(e.env) then [ReapplyAttempt(e.env)] else []
  }

  function AttemptedIn(events: seq<Event>): seq<OperationOutcome> {
    if events == [] then [] else AttemptedIn(events[..|events| - 1]) + Attempted(events[|events| - 1])
  }

  /** If all status writes of a run succeed, the stored list says exactly what the attempts of the run
      say: for each operation its consecutive failures up to the last attempt, and the last failure. */
  lemma AttemptsCounted(config: Config, w: World, events: seq<Event>)
    requires w.history == [] && w.vm.status.failedOperations == []
    requires forall i :: 0 <= i < |events| ==> events[i].env.firstWrite.None? && events[i].env.secondWrite.None?
    ensures Accurate(Run(config, w, events).vm.status.failedOperations, AttemptedIn(events))
  {
    RunKeepsCounters(config, w, events);
    AllRecorded(config, w, events);
    assert w.history + AttemptedIn(events) == AttemptedIn(events);
  }

  lemma {:induction false} AllRecorded(config: Config, w: World, events: seq<Event>)
    requires forall i :: 0 <= i < |events| ==> events[i].env.firstWrite.None? && events[i].env.secondWrite.None?
    ensures Run(config, w, events).history == w.history + AttemptedIn(events)
  {
    if events != [] {
      var before, last := events[..|events| - 1], events[|events| - 1];
      AllRecorded(config, w, before);
      var w' := Run(config, w, before);
      EveryAttemptRecorded(config, w', last);
      RecordedAfter(w, w', Next(config, w', last), AttemptedIn(before), Attempted(last));
    }
  }

  lemma RecordedAfter(w: World, w': World, w'': World, first: seq<OperationOutcome>, second: seq<OperationOutcome>)
    requires w'.history == w.history + first && w''.history == w'.history + second
    ensures w''.history == w.history + (first + second)
  {
  }

  function GetAttempt(env: Environment): OperationOutcome {
    if env.get.Success? then Succeeded(GetVirtualMachine)
    else Failed(GetVirtualMachine, "could not get Azure virtual machine" + ": " + env.get.error, env.now)
  }

  function ReapplyAttempt(env: Environment): OperationOutcome {
    if ReapplySucceeds(env) then Succeeded(ReapplyVirtualMachine)
    else
      Failed(ReapplyVirtualMachine,
             if env.reapply.Some? then "could not reapply Azure virtual machine" + ": " + env.reapply.value
             else "could not get Azure virtual machine" + ": " + env.getAgain.error,
             env.now)
  }

  // ----- Backoff over consecutive failures -----

  /** The update attempts the operation, the operation fails, and the status writes succeed. */
  predicate Fails(e: Event, typ: OperationType) {
    && e.Update? && e.env.firstWrite.None? && e.env.secondWrite.None?
    && if typ == GetVirtualMachine then e.env.get.Failure? else Reapplying(e.env) && !ReapplySucceeds(e.env)
  }

  function MaxAttempts(config: Config, typ: OperationType): int {
    if typ == GetVirtualMachine then config.maxGetAttempts else config.maxReapplyAttempts
  }

  /** The n-th consecutive failure of an operation from an empty counter is answered with the n-th delay
      of the backoff below the maximum, and with the sync period from the maximum on. */
  lemma {:induction false} BackoffSchedule(config: Config, w: World, events: seq<Event>, typ: OperationType)
    requires typ == GetVirtualMachine || typ == ReapplyVirtualMachine
    requires Attempts(w.vm.status.failedOperations, typ) == 0
    requires forall i :: 0 <= i < |events| ==> Fails(events[i], typ)
    ensures Attempts(Run(config, w, events).vm.status.failedOperations, typ) == |events|
    ensures events != [] ==>
      var n, max := |events|, MaxAttempts(config, typ);
      var answer := CreateOrUpdateStep(config, Run(config, w, events[..n - 1]), events[n - 1].env).1;
      if n < max then answer.RequeueAfterError? && answer.after == Delays(config.requeueInterval, max)[n - 1]
      else answer == Done(config.syncPeriod)
  {
    if events != [] {
      var before, last := events[..|events| - 1], events[|events| - 1];
      BackoffSchedule(config, w, before, typ);
      FailureAnswered(config, Run(config, w, before), last.env, typ);
    }
  }

  lemma FailureAnswered(config: Config, w: World, env: Environment, typ: OperationType)
    requires typ == GetVirtualMachine || typ == ReapplyVirtualMachine
    requires Fails(Update(env), typ)
    ensures var (w', answer) := CreateOrUpdateStep(config, w, env);
      var attempts := Attempts(w.vm.status.failedOperations, typ) + 1;
      && Attempts(w'.vm.status.failedOperations, typ) == attempts
      && if attempts < MaxAttempts(config, typ)
         then answer.RequeueAfterError? && answer.after == Delay(config.requeueInterval, attempts)
         else answer == Done(config.syncPeriod)
  {
    var ops := w.vm.status.failedOperations;
    if typ == GetVirtualMachine {
      OtherAttempts(ops, Failed(typ, GetVM(env).error, env.now), typ);
    } else {
      OtherAttempts(ops, Succeeded(GetVirtualMachine), typ);
      OtherAttempts(Record(ops, Succeeded(GetVirtualMachine)), Failed(typ, ReapplyVM(env).error, env.now), typ);
    }
  }

  // ----- Gauge and status -----

  /** The VM as last observed in an update. */
  function LastObserved(env: Environment): Option<AzureVM>
    requires env.get.Success?
  {
    if Reapplying(env) && ReapplySucceeds(env) then env.getAgain.value else env.get.value
  }

  /** The update finds the VM in the state Failed. */
  predicate Reapplying(env: Environment) {
    env.get.Success? && InState(env.get.value, "Failed")
  }

  /** Azure accepts the reapply, and answers the get after it. */
  predicate ReapplySucceeds(env: Environment) {
    env.reapply.None? && env.getAgain.Success?
  }

  /** The status says that the VM exists and what it is, or that there is none. */
  ghost predicate Describes(status: Status, seen: Option<AzureVM>) {
    && (status.found <==> seen.Some?)
    && (seen.Some? ==>
      && status.id == seen.value.id && status.name == seen.value.name
      && status.provisioningState == seen.value.provisioningState)
    && (seen.None? ==> status.id.None? && status.name.None? && status.provisioningState.None?)
  }

  predicate InState(a: Option<AzureVM>, state: string) {
    a.Some? && a.value.provisioningState == Some(state)
  }

  /** Status and gauge describe the VM as last observed, and the gauge of no other VM has changed. */
  ghost predicate Described(config: Config, w: World, w': World, env: Environment)
    requires env.get.Success?
  {
    var name, seen := VirtualMachineName(w.vm), LastObserved(env);
    var failures := Attempts(w.vm.status.failedOperations, ReapplyVirtualMachine) + 1;
    var reapplyFailed := Reapplying(env) && !ReapplySucceeds(env);
    && Describes(w'.vm.status, seen)
    && (name !in w'.gauge <==> seen.None?)
    && (name in w'.gauge ==>
      && (w'.gauge[name] == OK <==> !InState(seen, "Failed"))
      && (w'.gauge[name] == FailedWillReapply <==> reapplyFailed && failures < config.maxReapplyAttempts)
      && (w'.gauge[name] == StateFailed <==>
          if reapplyFailed then failures >= config.maxReapplyAttempts else InState(seen, "Failed")))
    && w'.gauge - {name} == w.gauge - {name}
  }

  /** After an update whose get and status writes succeed: the gauge is absent iff the VM is missing, OK
      iff it is not Failed, will-reapply iff reapplying failed below the maximum, and failed iff it
      failed from the maximum on or the VM is still Failed afterwards. */
  lemma GaugeDescribesVM(config: Config, w: World, env: Environment)
    requires env.get.Success? && env.firstWrite.None? && env.secondWrite.None?
    ensures Described(config, w, CreateOrUpdateStep(config, w, env).0, env)
  {
    if Reapplying(env) {
      if !ReapplySucceeds(env) {
        FailedReapplyDescribed(config, w, env);
      } else {
        ReapplyDescribed(config, w, env);
      }
    } else {
      assert CreateOrUpdateStep(config, w, env).0.gauge == Gauged(w.gauge, VirtualMachineName(w.vm), env.get.value);
    }
  }

  /** Unless reapplying fails, the next update comes early iff the VM was missing or in transition. */
  lemma UpdateDelay(config: Config, w: World, env: Environment)
    requires env.get.Success? && env.firstWrite.None? && env.secondWrite.None?
    requires Reapplying(env) ==> ReapplySucceeds(env)
    ensures var state := if env.get.value.Some? then env.get.value.value.provisioningState else None;
      CreateOrUpdateStep(config, w, env).1 ==
        Done(if state == Some("Succeeded") || state == Some("Failed") then config.syncPeriod else config.requeueInterval)
  {
  }

  /** A deletion whose get succeeds leaves the gauge of the VM absent iff the VM is missing, OK iff it is
      not Failed, and failed iff it is, even if the status cannot be written; the status describes the
      VM iff it can. */
  lemma DeletionDescribesVM(config: Config, w: World, env: Environment)
    requires env.get.Success?
    ensures var w', name, seen := DeleteStep(config, w, env).0, VirtualMachineName(w.vm), env.get.value;
      && (name !in w'.gauge <==> seen.None?)
      && (name in w'.gauge ==> w'.gauge[name] == if InState(seen, "Failed") then StateFailed else OK)
      && w'.gauge - {name} == w.gauge - {name}
      && (if env.firstWrite.None? then Describes(w'.vm.status, seen) && DeleteStep(config, w, env).1 == Done(0)
          else w'.vm == w.vm && DeleteStep(config, w, env).1.Error?)
  {
  }

  lemma FailedReapplyDescribed(config: Config, w: World, env: Environment)
    requires Reapplying(env) && env.firstWrite.None? && env.secondWrite.None? && !ReapplySucceeds(env)
    ensures Described(config, w, CreateOrUpdateStep(config, w, env).0, env)
  {
    var ops, a := w.vm.status.failedOperations, env.get.value;
    var stored := Stored(w, a, Succeeded(GetVirtualMachine));
    OtherAttempts(ops, Succeeded(GetVirtualMachine), ReapplyVirtualMachine);
    ReapplyStepTaken(config, w, env);
    FailedReapplyState(config, stored, VirtualMachineName(w.vm), a.value, env);
    DescribedByState(config, w, ReapplyStep(config, stored, VirtualMachineName(w.vm), a.value, env).0, env);
  }

  lemma DescribedByState(config: Config, w: World, w': World, env: Environment)
    requires Reapplying(env) && !ReapplySucceeds(env) && Describes(w'.vm.status, env.get.value)
    requires var retry := Attempts(w.vm.status.failedOperations, ReapplyVirtualMachine) + 1 < config.maxReapplyAttempts;
      w'.gauge == w.gauge[VirtualMachineName(w.vm) := if retry then FailedWillReapply else StateFailed]
    ensures Described(config, w, w', env)
  {
  }

  lemma ReapplyStepTaken(config: Config, w: World, env: Environment)
    requires Reapplying(env) && env.firstWrite.None?
    ensures CreateOrUpdateStep(config, w, env) ==
      ReapplyStep(config, Stored(w, env.get.value, Succeeded(GetVirtualMachine)), VirtualMachineName(w.vm),
                  env.get.value.value, env)
  {
  }

  lemma FailedReapplyState(config: Config, w: World, name: string, a: AzureVM, env: Environment)
    requires env.secondWrite.None? && !ReapplySucceeds(env)
    ensures var w' := ReapplyStep(config, w, name, a, env).0;
      var retry := Attempts(w.vm.status.failedOperations, ReapplyVirtualMachine) + 1 < config.maxReapplyAttempts;
      && Describes(w'.vm.status, Some(a))
      && w'.gauge == w.gauge[name := if retry then FailedWillReapply else StateFailed]
  {
    OtherAttempts(w.vm.status.failedOperations, Failed(ReapplyVirtualMachine, ReapplyVM(env).error, env.now), ReapplyVirtualMachine);
    var gauge := w.gauge[name := FailedWillReapply];
    assert gauge[name := StateFailed] == w.gauge[name := StateFailed];
  }

  lemma ReapplyDescribed(config: Config, w: World, env: Environment)
    requires Reapplying(env) && env.firstWrite.None? && env.secondWrite.None? && ReapplySucceeds(env)
    ensures Described(config, w, CreateOrUpdateStep(config, w, env).0, env)
  {
  }

  /** A reapply that is followed by a successful get, in an update that gets as far as reapplying. */
  predicate ReappliesVM(e: Event) {
    && e.Update? && Reapplying(e.env) && e.env.firstWrite.None?
    && ReapplySucceeds(e.env)
  }

  function SuccessfulReapplies(events: seq<Event>): nat {
    if events == [] then 0
    else SuccessfulReapplies(events[..|events| - 1]) + if ReappliesVM(events[|events| - 1]) then 1 else 0
  }

  lemma NextReapplied(config: Config, w: World, e: Event)
    ensures Next(config, w, e).reapplied == w.reapplied + if ReappliesVM(e) then 1 else 0
  {
  }

  /** The counter of reapplied VMs counts exactly these. */
  lemma {:induction false} ReappliedCounts(config: Config, w: World, events: seq<Event>)
    ensures Run(config, w, events).reapplied == w.reapplied + SuccessfulReapplies(events)
  {
    if events != [] {
      ReappliedCounts(config, w, events[..|events| - 1]);
      NextReapplied(config, Run(config, w, events[..|events| - 1]), events[|events| - 1]);
    }
  }

  // ----- The name stays the same -----

  /** Azure returns a VM under the name that was asked for, if it returns a name at all. */
  predicate Echoes(answer: Result<Option<AzureVM>, string>, name: string) {
    answer.Success? && answer.value.Some? && answer.value.value.name.Some? ==> answer.value.value.name.value == name
  }

  predicate AllEcho(events: seq<Event>, name: string) {
    forall i :: 0 <= i < |events| ==> Echoes(events[i].env.get, name) && Echoes(events[i].env.getAgain, name)
  }

  /** The name used is the same at every reconcile of a run, although the status has it only at times. */
  lemma {:induction false} NameIsStable(config: Config, w: World, events: seq<Event>, name: string)
    requires Named(w.vm, name)
    requires AllEcho(events, name)
    ensures Named(Run(config, w, events).vm, name)
  {
    if events != [] {
      NameIsStable(config, w, events[..|events| - 1], name);
      NextKeepsName(config, Run(config, w, events[..|events| - 1]), events[|events| - 1], name);
    }
  }

  predicate Named(vm: VirtualMachine, name: string) {
    VirtualMachineName(vm) == BaseName(vm) == name
  }

  lemma StoredKeepsName(w: World, a: Option<AzureVM>, o: OperationOutcome, name: string)
    requires Named(w.vm, name) && Echoes(Success(a), name)
    ensures Named(Stored(w, a, o).vm, name)
  {
  }

  lemma AttemptFailedKeepsName(config: Config, w: World, typ: OperationType, a: Option<AzureVM>, error: string,
                               now: int, write: Option<string>, max: int, name: string)
    requires Named(w.vm, name) && Echoes(Success(a), name)
    ensures Named(AttemptFailed(config, w, typ, a, error, now, write, max).0.vm, name)
  {
  }

  lemma ReapplyKeepsName(config: Config, w: World, a: AzureVM, env: Environment, name: string)
    requires Named(w.vm, name) && Echoes(Success(Some(a)), name) && Echoes(env.getAgain, name)
    ensures Named(ReapplyStep(config, w, name, a, env).0.vm, name)
  {
    var trying := w.(gauge := w.gauge[name := FailedWillReapply]);
    match ReapplyVM(env)
    case Failure(error) =>
      AttemptFailedKeepsName(config, trying, ReapplyVirtualMachine, Some(a), error, env.now, env.secondWrite, config.maxReapplyAttempts, name);
    case Success(again) =>
      StoredKeepsName(trying.(reapplied := w.reapplied + 1, gauge := Gauged(trying.gauge, name, again)), again, Succeeded(ReapplyVirtualMachine), name);
  }

  lemma NextKeepsName(config: Config, w: World, e: Event, name: string)
    requires Named(w.vm, name) && Echoes(e.env.get, name) && Echoes(e.env.getAgain, name)
    ensures Named(Next(config, w, e).vm, name)
  {
    match GetVM(e.env)
    case Failure(error) =>
      AttemptFailedKeepsName(config, w, GetVirtualMachine, None, error, e.env.now, e.env.firstWrite, config.maxGetAttempts, name);
    case Success(a) =>
      var o := Succeeded(GetVirtualMachine);
      StoredKeepsName(w, a, o, name);
      StoredKeepsName(w.(gauge := Gauged(w.gauge, name, a)), a, o, name);
      if a.Some? {
        ReapplyKeepsName(config, Stored(w, a, o), a.value, e.env, name);
      }
  }

  /** For a provider ID of a non-empty prefix, a slash, and a part without slashes, the name is that part. */
  lemma NameFromProviderID(vm: VirtualMachine, prefix: string, n: string)
    requires vm.providerID == prefix + "/" + n && prefix != "" && '/' !in n
    ensures BaseName(vm) == n
    ensures vm.status.name.None? ==> VirtualMachineName(vm) == n
  {
    var i := LastSlash(vm.providerID);
    assert vm.providerID[|prefix|] == '/';
    assert forall j :: |prefix| < j < |vm.providerID| ==> vm.providerID[j] == n[j - |prefix| - 1] && vm.providerID[j] in n;
    assert i == |prefix|;
    assert vm.providerID[i + 1..] == n;
  }

  /** Otherwise, that is without a slash after the first character, the name is the object's. */
  lemma NameFromObject(vm: VirtualMachine)
    ensures (forall i :: 0 < i < |vm.providerID| ==> vm.providerID[i] != '/') ==>
      BaseName(vm) == vm.name && (vm.status.name.None? ==> VirtualMachineName(vm) == vm.name)
  {
  }

  /** The name in the status, which is the one that Azure gave, comes first. */
  lemma NameFromStatus(vm: VirtualMachine)
    ensures vm.status.name.Some? ==> VirtualMachineName(vm) == vm.status.name.value
  {
  }

  /** A failing get, in an update or a deletion, wipes the status and leaves the gauge as it is. */
  lemma FailedGetDescribed(config: Config, w: World, e: Event)
    requires e.env.get.Failure?
    ensures Next(config, w, e).gauge == w.gauge && Next(config, w, e).reapplied == w.reapplied
    ensures if e.env.firstWrite.None? then Describes(Next(config, w, e).vm.status, None) else Next(config, w, e) == w
  {
  }

  /** A status write that fails makes the update fail. The first one leaves everything as it was; the second
      one leaves the status of the first get, and the gauge as the reapply has left it. */
  lemma FailingWrites(config: Config, w: World, env: Environment)
    ensures var (w', outcome) := CreateOrUpdateStep(config, w, env);
      && (env.firstWrite.Some? ==> outcome.Error? && w' == w)
      && (env.firstWrite.None? && env.secondWrite.Some? && Reapplying(env) ==>
            && outcome.Error? && Describes(w'.vm.status, env.get.value)
            && if ReapplySucceeds(env) then w'.gauge == Gauged(w.gauge, VirtualMachineName(w.vm), env.getAgain.value)
               else w'.gauge == w.gauge[VirtualMachineName(w.vm) := FailedWillReapply])
  {
    if env.firstWrite.None? && env.secondWrite.Some? && Reapplying(env) {
      ReapplyStepTaken(config, w, env);
      SecondWriteFails(config, Stored(w, env.get.value, Succeeded(GetVirtualMachine)), VirtualMachineName(w.vm),
                       env.get.value.value, env);
    }
  }

  lemma SecondWriteFails(config: Config, w: World, name: string, a: AzureVM, env: Environment)
    requires env.secondWrite.Some?
    ensures var (w', outcome) := ReapplyStep(config, w, name, a, env);
      && outcome.Error? && w'.vm == w.vm
      && if ReapplySucceeds(env) then w'.gauge == Gauged(w.gauge, name, env.getAgain.value)
         else w'.gauge == w.gauge[name := FailedWillReapply]
  {
    var gauge := w.gauge[name := FailedWillReapply];
    if ReapplySucceeds(env) {
      var again := env.getAgain.value;
      assert Gauged(gauge, name, again) == Gauged(w.gauge, name, again);
    }
  }
}
