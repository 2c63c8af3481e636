/**
 The generic reconciler: it decides when an object's finalizer is added and removed, calls the
 actuator in between, and turns the actuator's answer into a requeue delay.
 The objects of a controller, and everything its actuator changes, are a value of type S.
 */
module Reconcilers {
  import opened Wrappers
  import opened Backoff

  /** What an actuator returns: success with a delay (0 for none), a failure that asks to be retried
      after a delay, or any other failure. */
  datatype Outcome =
    | Done(requeueAfter: int)
    | RequeueAfterError(cause: string, after: int)
    | Error(message: string)

  /** An actuator's answer to a failed attempt: below the maximum a retry with backoff, then success. */
  function AfterFailure(requeueInterval: int, syncPeriod: int, attempts: int, max: int, cause: string): Outcome {
    if attempts < max then RequeueAfterError(cause, Delay(requeueInterval, attempts)) else Done(syncPeriod)
  }

  datatype ReconcileResult = ReconcileResult(requeue: bool, requeueAfter: int, failed: bool)

  const NO_REQUEUE := ReconcileResult(false, 0, false)
  const FAILED := ReconcileResult(false, 0, true)

  /** How the reconciler sees the object of the request inside S. */
  datatype View<!S> = View(
    present: S -> bool,
    deleting: S -> bool,
    finalized: S -> bool,
    setFinalizer: (S, bool) -> S)

  datatype Actuator<!S> = Actuator(
    shouldFinalize: S -> bool,
    createOrUpdate: S -> (S, Outcome),
    delete: S -> (S, Outcome))

  datatype Answer = Accepted | NotFound | Rejected

  /** What the API server answers to the reconciler's own requests. */
  datatype Answers = Answers(get: Answer, addFinalizer: Answer, removeFinalizer: Answer)

  /** A RequeueAfterError becomes a requeue with its delay, any other error a failure. */
  function ReconcileErr(outcome: Outcome): ReconcileResult
    requires !outcome.Done?
  {
    match outcome
    case RequeueAfterError(_, after) => ReconcileResult(true, after, false)
    case Error(_) => FAILED
  }

  function Finished(requeueAfter: int): ReconcileResult {
    if requeueAfter != 0 then ReconcileResult(false, requeueAfter, false) else NO_REQUEUE
  }

  function Removed<S>(v: View<S>, s: S, answer: Answer): S {
    if answer.Accepted? then v.setFinalizer(s, false) else s
  }

  function CreateOrUpdated<S>(v: View<S>, a: Actuator<S>, s: S, api: Answers): (S, ReconcileResult) {
    var should := a.shouldFinalize(s);
    if should && api.addFinalizer.NotFound? then (s, NO_REQUEUE)
    else if should && api.addFinalizer.Rejected? then (s, FAILED)
    else if !should && !v.finalized(s) then (s, NO_REQUEUE)
    else
      var (s', outcome) := a.createOrUpdate(if should then v.setFinalizer(s, true) else s);
      if !outcome.Done? then (s', ReconcileErr(outcome))
      else if should then (s', Finished(outcome.requeueAfter))
      else (Removed(v, s', api.removeFinalizer), if api.removeFinalizer.Rejected? then FAILED else NO_REQUEUE)
  }

  function Deleted<S>(v: View<S>, a: Actuator<S>, s: S, api: Answers): (S, ReconcileResult) {
    if !v.finalized(s) then (s, NO_REQUEUE)
    else
      var (s', outcome) := a.delete(s);
      if !outcome.Done? then (s', ReconcileErr(outcome))
      else (Removed(v, s', api.removeFinalizer),
            if api.removeFinalizer.Rejected? then FAILED else Finished(outcome.requeueAfter))
  }

  function EnsuredDeleted<S>(a: Actuator<S>, s: S): (S, ReconcileResult) {
    var (s', outcome) := a.delete(s);
    (s', if outcome.Done? then NO_REQUEUE else ReconcileErr(outcome))
  }

  function Reconciled<S>(v: View<S>, a: Actuator<S>, ensureDeleted: bool, s: S, api: Answers): (S, ReconcileResult) {
    if api.get.Rejected? then (s, FAILED)
    else if !v.present(s) then if ensureDeleted then EnsuredDeleted(a, s) else (s, NO_REQUEUE)
    else if v.deleting(s) then Deleted(v, a, s, api)
    else CreateOrUpdated(v, a, s, api)
  }

  // ----- What a reconcile does, step by step -----

  ghost predicate Held<S(!new)>(v: View<S>, s: S) {
    v.present(s) && v.finalized(s)
  }

  /** Setting the finalizer sets it, and removing it removes it or, at the end of a deletion, the object. */
  ghost predicate Lawful<S(!new)>(v: View<S>) {
    && (forall s :: v.present(s) ==> Held(v, v.setFinalizer(s, true)))
    && (forall s :: !Held(v, v.setFinalizer(s, false)))
  }

  /** What a reconcile changes, and the state it does it in. */
  datatype Step<!S> =
    | FinalizerAdded(on: S)
    | FinalizerRemoved(on: S)
    | UpdateCalled(on: S)
    | DeleteCalled(on: S)
  {
    ghost function After(v: View<S>, a: Actuator<S>): S {
      match this
      case FinalizerAdded(s) => v.setFinalizer(s, true)
      case FinalizerRemoved(s) => v.setFinalizer(s, false)
      case UpdateCalled(s) => a.createOrUpdate(s).0
      case DeleteCalled(s) => a.delete(s).0
    }

    /** The actuator was called, and finished without an error. */
    ghost predicate Finishes(a: Actuator<S>) {
      || (UpdateCalled? && a.createOrUpdate(on).1.Done?)
      || (DeleteCalled? && a.delete(on).1.Done?)
    }
  }

  /** The steps lead from one state to the other. */
  ghost predicate Leads<S(!new)>(v: View<S>, a: Actuator<S>, s: S, steps: seq<Step<S>>, s': S) {
    if steps == [] then s' == s
    else steps[0].on == s && Leads(v, a, steps[0].After(v, a), steps[1..], s')
  }

  /** The discipline of finalizers: an object is held whenever the actuator updates or deletes it, a
      finalizer is only added before the actuator is called, and only removed directly after it has
      finished; the actuator is called at most once. Only what is gone is deleted without being held. */
  ghost predicate Disciplined<S(!new)>(v: View<S>, a: Actuator<S>, steps: seq<Step<S>>) {
    && (forall i :: 0 <= i < |steps| && steps[i].UpdateCalled? ==> Held(v, steps[i].on))
    && (forall i :: 0 <= i < |steps| && steps[i].DeleteCalled? && v.present(steps[i].on) ==>
          Held(v, steps[i].on) && v.deleting(steps[i].on))
    && (forall i :: 0 <= i < |steps| && steps[i].FinalizerAdded? ==> i == 0)
    && (forall i :: 0 <= i < |steps| && steps[i].FinalizerRemoved? ==> 0 < i && steps[i - 1].Finishes(a))
    && (forall i, j :: 0 <= i < j < |steps| && (steps[i].UpdateCalled? || steps[i].DeleteCalled?) ==> steps[j].FinalizerRemoved?)
  }

  /** The steps around an update: the finalizer may be added before it, and removed after it. */
  ghost function UpdateSteps<S>(v: View<S>, a: Actuator<S>, s: S, added: bool, removed: bool): seq<Step<S>> {
    var held := if added then v.setFinalizer(s, true) else s;
    (if added then [FinalizerAdded(s)] else [])
    + [UpdateCalled(held)]
    + if removed then [FinalizerRemoved(a.createOrUpdate(held).0)] else []
  }

  lemma UpdateStepsLead<S(!new)>(v: View<S>, a: Actuator<S>, s: S, added: bool, removed: bool)
    ensures var s' := a.createOrUpdate(if added then v.setFinalizer(s, true) else s).0;
      Leads(v, a, s, UpdateSteps(v, a, s, added, removed), if removed then v.setFinalizer(s', false) else s')
  {
    var steps := UpdateSteps(v, a, s, added, removed);
    if added {
      assert steps[1..] == UpdateSteps(v, a, v.setFinalizer(s, true), false, removed);
      UpdateStepsLead(v, a, v.setFinalizer(s, true), false, removed);
    } else {
      LeadsByOneOrTwo(v, a, UpdateCalled(s), removed);
    }
  }

  lemma LeadsByOneOrTwo<S(!new)>(v: View<S>, a: Actuator<S>, x: Step<S>, removed: bool)
    ensures var s' := x.After(v, a);
      Leads(v, a, x.on, [x] + if removed then [FinalizerRemoved(s')] else [], if removed then v.setFinalizer(s', false) else s')
  {
    var last := FinalizerRemoved(x.After(v, a));
    assert [x][1..] == [] && [last][1..] == [] && ([x] + [last])[1..] == [last];
  }

  lemma UpdateStepsDisciplined<S(!new)>(v: View<S>, a: Actuator<S>, s: S, added: bool, removed: bool)
    requires Lawful(v) && v.present(s) && (added || v.finalized(s))
    requires removed ==> a.createOrUpdate(if added then v.setFinalizer(s, true) else s).1.Done?
    ensures Disciplined(v, a, UpdateSteps(v, a, s, added, removed))
  {
  }

  /** The reconciler of one controller, working on the controller's stored state. `steps` are the changes
      made so far. */
  class Reconciler<S(!new)> {
    const view: View<S>
    const shouldEnsureDeleted: bool
    var state: S
    ghost var steps: seq<Step<S>>

    constructor (view: View<S>, shouldEnsureDeleted: bool, state: S)
      ensures this.view == view && this.shouldEnsureDeleted == shouldEnsureDeleted
      ensures this.state == state && steps == []
    {
      this.view, this.shouldEnsureDeleted, this.state, steps := view, shouldEnsureDeleted, state, [];
    }

    /** The changes of one call lead from the old state to the new one and keep the discipline. */
    twostate predicate Acted(actuator: Actuator<S>)
      reads this
    {
      && old(steps) <= steps
      && Leads(view, actuator, old(state), steps[|old(steps)|..], state)
      && (Lawful(view) ==> Disciplined(view, actuator, steps[|old(steps)|..]))
    }

    method Reconcile(actuator: Actuator<S>, api: Answers) returns (result: ReconcileResult)
      modifies this
      ensures (state, result) == Reconciled(view, actuator, shouldEnsureDeleted, old(state), api)
      ensures Acted(actuator)
    {
      if api.get.Rejected? {
        return FAILED;
      }
      if !view.present(state) {
        if shouldEnsureDeleted {
          result := EnsureDeleted(actuator);
          return;
        }
        return NO_REQUEUE;
      }
      if view.deleting(state) {
        result := Delete(actuator, api);
      } else {
        result := CreateOrUpdate(actuator, api);
      }
    }

    /** An update and the steps around it keep what `Acted` says. */
    lemma UpdateActed(actuator: Actuator<S>, s: S, added: bool, removed: bool)
      requires removed ==> actuator.createOrUpdate(if added then view.setFinalizer(s, true) else s).1.Done?
      requires added || view.finalized(s)
      ensures var taken := UpdateSteps(view, actuator, s, added, removed);
        var s' := actuator.createOrUpdate(if added then view.setFinalizer(s, true) else s).0;
        && Leads(view, actuator, s, taken, if removed then view.setFinalizer(s', false) else s')
        && (Lawful(view) && view.present(s) ==> Disciplined(view, actuator, taken))
        && (forall i :: 0 <= i < |taken| ==> !taken[i].DeleteCalled?)
    {
      UpdateStepsLead(view, actuator, s, added, removed);
      if Lawful(view) && view.present(s) {
        UpdateStepsDisciplined(view, actuator, s, added, removed);
      }
    }

    method CreateOrUpdate(actuator: Actuator<S>, api: Answers) returns (result: ReconcileResult)
      modifies this
      ensures (state, result) == CreateOrUpdated(view, actuator, old(state), api)
      ensures old(view.present(state)) ==> Acted(actuator)
      ensures forall i :: |old(steps)| <= i < |steps| ==> !steps[i].DeleteCalled?
    {
      var shouldFinalize := actuator.shouldFinalize(state);
      if shouldFinalize {
        if api.addFinalizer.NotFound? {
          return NO_REQUEUE;
        } else if api.addFinalizer.Rejected? {
          return FAILED;
        }
        steps := steps + [FinalizerAdded(state)];
        state := view.setFinalizer(state, true);
      } else {
        if !view.finalized(state) {
          return NO_REQUEUE;
        }
      }
      var (state', outcome) := actuator.createOrUpdate(state);
      steps := steps + [UpdateCalled(state)];
      state := state';
      ghost var removed := outcome.Done? && !shouldFinalize && api.removeFinalizer.Accepted?;
      UpdateActed(actuator, old(state), shouldFinalize, removed);
      ghost var taken := UpdateSteps(view, actuator, old(state), shouldFinalize, removed);
      if !outcome.Done? {
        assert steps[|old(steps)|..] == taken;
        return ReconcileErr(outcome);
      }
      if !shouldFinalize {
        result := RemoveFinalizer(NO_REQUEUE, api);
        assert steps[|old(steps)|..] == taken;
        return;
      }
      assert steps[|old(steps)|..] == taken;
      result := Finished(outcome.requeueAfter);
    }

    method Delete(actuator: Actuator<S>, api: Answers) returns (result: ReconcileResult)
      modifies this
      ensures (state, result) == Deleted(view, actuator, old(state), api)
      ensures old(view.deleting(state)) ==> Acted(actuator)
      ensures forall i :: |old(steps)| <= i < |steps| ==> steps[i].DeleteCalled? || steps[i].FinalizerRemoved?
    {
      if !view.finalized(state) {
        return NO_REQUEUE;
      }
      var (state', outcome) := actuator.delete(state);
      steps := steps + [DeleteCalled(state)];
      state := state';
      if !outcome.Done? {
        return ReconcileErr(outcome);
      }
      result := RemoveFinalizer(Finished(outcome.requeueAfter), api);
    }

    method RemoveFinalizer(onSuccess: ReconcileResult, api: Answers) returns (result: ReconcileResult)
      modifies this
      ensures state == Removed(view, old(state), api.removeFinalizer)
      ensures steps == old(steps) + if api.removeFinalizer.Accepted? then [FinalizerRemoved(old(state))] else []
      ensures result == if api.removeFinalizer.Rejected? then FAILED else onSuccess
    {
      if api.removeFinalizer.Accepted? {
        steps := steps + [FinalizerRemoved(state)];
        state := view.setFinalizer(state, false);
      }
      result := if api.removeFinalizer.Rejected? then FAILED else onSuccess;
    }

    /** Only the actuator is called, the finalizer is not touched, and a success is not requeued even if
        the actuator asks for a delay. */
    method EnsureDeleted(actuator: Actuator<S>) returns (result: ReconcileResult)
      modifies this
      ensures steps == old(steps) + [DeleteCalled(old(state))]
      ensures !old(view.present(state)) ==> Acted(actuator)
      ensures result == ReconcileResult(false, 0, false) <==> steps[|steps| - 1].Finishes(actuator)
      ensures (state, result) == EnsuredDeleted(actuator, old(state))
    {
      var (state', outcome) := actuator.delete(state);
      steps := steps + [DeleteCalled(state)];
      state := state';
      result := if outcome.Done? then NO_REQUEUE else ReconcileErr(outcome);
    }
  }

  // ----- When a finalizer is released -----

  /** The actuator is called, and when it is through the object is not held any more: it has vanished. */
  ghost predicate Loses<S(!new)>(v: View<S>, a: Actuator<S>, s: S, api: Answers) {
    if v.deleting(s) then !Held(v, a.delete(s).0)
    else if a.shouldFinalize(s) then api.addFinalizer.Accepted? && !Held(v, a.createOrUpdate(v.setFinalizer(s, true)).0)
    else !Held(v, a.createOrUpdate(s).0)
  }

  /** A reconcile releases the finalizer of an object exactly if the actuator finished its work, the
      deletion of a deleted object or the last update of an object that needs no finalizer any more, or
      if the object vanished meanwhile. */
  lemma ReleasedIff<S(!new)>(v: View<S>, a: Actuator<S>, ensureDeleted: bool, s: S, api: Answers)
    requires Lawful(v) && Held(v, s)
    ensures !Held(v, Reconciled(v, a, ensureDeleted, s, api).0) <==>
      && !api.get.Rejected?
      && (|| Loses(v, a, s, api)
          || (&& api.removeFinalizer.Accepted?
              && if v.deleting(s) then a.delete(s).1.Done? else !a.shouldFinalize(s) && a.createOrUpdate(s).1.Done?))
  {
  }

  /** A reconcile adds a finalizer exactly to a present, undeleted object that needs one, and it stays
      unless the object vanishes meanwhile; if none is added, the actuator is not called and nothing
      changes. */
  lemma AcquiredIff<S(!new)>(v: View<S>, a: Actuator<S>, ensureDeleted: bool, s: S, api: Answers)
    requires Lawful(v)
    requires v.present(s) && !v.finalized(s)
    ensures var added := !api.get.Rejected? && !v.deleting(s) && a.shouldFinalize(s) && api.addFinalizer.Accepted?;
      && (Held(v, Reconciled(v, a, ensureDeleted, s, api).0) <==> added && !Loses(v, a, s, api))
      && (!added ==> Reconciled(v, a, ensureDeleted, s, api).0 == s)
  {
  }

  // ----- What the controller runtime is answered -----

  /** The actuator's answer in a reconcile, if it is called. */
  ghost function Answered<S>(v: View<S>, a: Actuator<S>, ensureDeleted: bool, s: S, api: Answers): Option<Outcome> {
    if api.get.Rejected? then None
    else if !v.present(s) then if ensureDeleted then Some(a.delete(s).1) else None
    else if v.deleting(s) then if v.finalized(s) then Some(a.delete(s).1) else None
    else if a.shouldFinalize(s) then
      if api.addFinalizer.Accepted? then Some(a.createOrUpdate(v.setFinalizer(s, true)).1) else None
    else if v.finalized(s) then Some(a.createOrUpdate(s).1)
    else None
  }

  /** A reconcile fails exactly if the object cannot be read, a needed finalizer cannot be added, the
      actuator fails without asking for a retry, or the finalizer cannot be removed after its success; an
      object that vanished is no failure. It is a retry exactly if the actuator asks for one, with the
      actuator's delay. The delay of a success is passed on unless the object is gone or needs no finalizer
      any more. */
  lemma ResultMeans<S(!new)>(v: View<S>, a: Actuator<S>, ensureDeleted: bool, s: S, api: Answers)
    ensures var result, answer := Reconciled(v, a, ensureDeleted, s, api).1, Answered(v, a, ensureDeleted, s, api);
      var needed, deleting := a.shouldFinalize(s), v.deleting(s);
      && (result.failed <==>
            || api.get.Rejected?
            || (v.present(s) && !deleting && needed && api.addFinalizer.Rejected?)
            || (answer.Some? && answer.value.Error?)
            || (answer.Some? && answer.value.Done? && v.present(s) && (deleting || !needed) && api.removeFinalizer.Rejected?))
      && (result.requeue <==> answer.Some? && answer.value.RequeueAfterError?)
      && (result.requeue ==> result.requeueAfter == answer.value.after)
      && var passedOn := !result.failed && answer.Some? && v.present(s) && (deleting || needed);
      (!result.requeue ==> result.requeueAfter == if passedOn then answer.value.requeueAfter else 0)
  {
  }
}
