/**
 Bookkeeping of failed Azure operations: the list that every status carries from one reconcile
 to the next. `FailedOperationList` is the slice the actuators mutate; `Record` is its meaning,
 and `Accurate` ties a list to the whole history of outcomes that led to it.
 */
module FailedOperations {
  import opened Wrappers

  datatype OperationType =
    | GetPublicIPAddress
    | CleanPublicIPAddress
    | GetVirtualMachine
    | ReapplyVirtualMachine

  datatype FailedOperation =
    FailedOperation(typ: OperationType, attempts: int, message: string, timestamp: int)

  /** How one attempt of an operation ended. */
  datatype OperationOutcome =
    | Succeeded(typ: OperationType)
    | Failed(typ: OperationType, message: string, timestamp: int)

  /** The position of the first entry of the given type, or the length of the list. */
  function IndexOf(ops: seq<FailedOperation>, typ: OperationType): (i: nat)
    ensures i <= |ops|
    ensures i < |ops| ==> ops[i].typ == typ
    ensures forall j :: 0 <= j < i ==> ops[j].typ != typ
  {
    if ops == [] then 0
    else if ops[0].typ == typ then 0
    else 1 + IndexOf(ops[1..], typ)
  }

  function Attempts(ops: seq<FailedOperation>, typ: OperationType): int {
    var i := IndexOf(ops, typ);
    if i < |ops| then ops[i].attempts else 0
  }

  function AddOrUpdated(ops: seq<FailedOperation>, typ: OperationType, message: string, timestamp: int)
    : seq<FailedOperation>
  {
    var i := IndexOf(ops, typ);
    var op := FailedOperation(typ, Attempts(ops, typ) + 1, message, timestamp);
    if i < |ops| then ops[i := op] else ops + [op]
  }

  function Deleted(ops: seq<FailedOperation>, typ: OperationType): seq<FailedOperation> {
    var i := IndexOf(ops, typ);
    if i < |ops| then ops[..i] + ops[i + 1..] else ops
  }

  /** The list after one more outcome: a failure is counted, a success forgets the operation. */
  function Record(ops: seq<FailedOperation>, o: OperationOutcome): seq<FailedOperation> {
    match o
    case Succeeded(typ) => Deleted(ops, typ)
    case Failed(typ, message, timestamp) => AddOrUpdated(ops, typ, message, timestamp)
  }

  /** The slice of failed operations that a reconcile works on. */
  class FailedOperationList {
    var ops: seq<FailedOperation>

    constructor (initial: seq<FailedOperation>)
      ensures ops == initial
    {
      ops := initial;
    }

    method AddOrUpdate(typ: OperationType, message: string, timestamp: int) returns (op: FailedOperation)
      modifies this
      ensures ops == Record(old(ops), Failed(typ, message, timestamp))
      ensures op in ops && op.typ == typ && op.attempts == Attempts(old(ops), typ) + 1
    {
      var i := 0;
      while i < |ops|
        invariant 0 <= i <= |ops|
        invariant ops == old(ops)
        invariant forall j :: 0 <= j < i ==> ops[j].typ != typ
      {
        if ops[i].typ == typ {
          FirstIndex(ops, typ, i);
          op := FailedOperation(typ, ops[i].attempts + 1, message, timestamp);
          ops := ops[i := op];
          assert op == ops[i];
          return;
        }
        i := i + 1;
      }
      op := FailedOperation(typ, 1, message, timestamp);
      ops := ops + [op];
      assert op == ops[|ops| - 1];
    }

    method Delete(typ: OperationType)
      modifies this
      ensures ops == Record(old(ops), Succeeded(typ))
    {
      for i := 0 to |ops|
        invariant ops == old(ops)
        invariant forall j :: 0 <= j < i ==> ops[j].typ != typ
      {
        if ops[i].typ == typ {
          FirstIndex(ops, typ, i);
          ops := ops[..i] + ops[i + 1..];
          return;
        }
      }
    }
  }

  lemma FirstIndex(ops: seq<FailedOperation>, typ: OperationType, i: nat)
    requires i < |ops| && ops[i].typ == typ
    requires forall j :: 0 <= j < i ==> ops[j].typ != typ
    ensures IndexOf(ops, typ) == i
  {
  }

  // ----- What the list means -----

  /** Failures of an operation since it last succeeded, read off the full history of outcomes. */
  function FailuresSinceSuccess(history: seq<OperationOutcome>, typ: OperationType): nat {
    if history == [] then 0
    else
      var last, before := history[|history| - 1], history[..|history| - 1];
      if last.typ != typ then FailuresSinceSuccess(before, typ)
      else if last.Succeeded? then 0
      else 1 + FailuresSinceSuccess(before, typ)
  }

  /** The most recent outcome of an operation. */
  function LastOutcome(history: seq<OperationOutcome>, typ: OperationType): Option<OperationOutcome> {
    if history == [] then None
    else if history[|history| - 1].typ == typ then Some(history[|history| - 1])
    else LastOutcome(history[..|history| - 1], typ)
  }

  ghost predicate Unique(ops: seq<FailedOperation>) {
    forall i, j :: 0 <= i < j < |ops| ==> ops[i].typ != ops[j].typ
  }

  /** The list says exactly what the history says: one entry for every operation whose last outcome
      is a failure, with the number of failures since its last success and the last failure's
      message and time; no other entry. */
  ghost predicate Accurate(ops: seq<FailedOperation>, history: seq<OperationOutcome>) {
    && Unique(ops)
    && (forall i :: 0 <= i < |ops| ==> EntryAccurate(ops[i], history))
    && (forall typ :: Attempts(ops, typ) == FailuresSinceSuccess(history, typ))
  }

  ghost predicate EntryAccurate(op: FailedOperation, history: seq<OperationOutcome>) {
    && op.attempts >= 1
    && op.attempts == FailuresSinceSuccess(history, op.typ)
    && LastOutcome(history, op.typ) == Some(Failed(op.typ, op.message, op.timestamp))
  }

  /** One more outcome, of whatever operation, keeps the list accurate. */
  lemma RecordKeepsAccurate(ops: seq<FailedOperation>, history: seq<OperationOutcome>, o: OperationOutcome)
    requires Accurate(ops, history)
    ensures Accurate(Record(ops, o), history + [o])
  {
    RecordKeepsUnique(ops, o);
    forall j | 0 <= j < |Record(ops, o)|
      ensures EntryAccurate(Record(ops, o)[j], history + [o])
    {
      EntryStaysAccurate(ops, history, o, j);
    }
    forall typ
      ensures Attempts(Record(ops, o), typ) == FailuresSinceSuccess(history + [o], typ)
    {
      OtherAttempts(ops, o, typ);
      assert (history + [o])[..|history|] == history;
    }
  }

  /** The list without its i-th entry. */
  function Cut(ops: seq<FailedOperation>, i: nat): (cut: seq<FailedOperation>)
    requires i < |ops|
    ensures |cut| == |ops| - 1
    ensures forall j :: 0 <= j < i ==> cut[j] == ops[j]
    ensures forall j :: i <= j < |cut| ==> cut[j] == ops[j + 1]
  {
    ops[..i] + ops[i + 1..]
  }

  lemma RecordKeepsUnique(ops: seq<FailedOperation>, o: OperationOutcome)
    requires Unique(ops)
    ensures Unique(Record(ops, o))
  {
    var i := IndexOf(ops, o.typ);
    if o.Failed? {
      AddedKeepsUnique(ops, o, i);
    } else if i < |ops| {
      CutKeepsUnique(ops, i);
      assert Record(ops, o) == Cut(ops, i);
    }
  }

  lemma CutKeepsUnique(ops: seq<FailedOperation>, i: nat)
    requires Unique(ops) && i < |ops|
    ensures Unique(Cut(ops, i))
  {
    var cut := Cut(ops, i);
    forall j, k | 0 <= j < k < |cut|
      ensures cut[j].typ != cut[k].typ
    {
      assert cut[j] == ops[if j < i then j else j + 1] && cut[k] == ops[if k < i then k else k + 1];
    }
  }

  lemma AddedKeepsUnique(ops: seq<FailedOperation>, o: OperationOutcome, i: nat)
    requires Unique(ops) && o.Failed? && i == IndexOf(ops, o.typ)
    ensures Unique(Record(ops, o))
  {
    var ops' := Record(ops, o);
    assert forall j :: 0 <= j < |ops| ==> ops'[j].typ == ops[j].typ;
    assert i == |ops| ==> forall j :: 0 <= j < |ops| ==> ops'[j].typ != ops'[|ops|].typ;
  }

  /** An entry of the new list was there before, or is the one of a failure. */
  lemma EntryFrom(ops: seq<FailedOperation>, o: OperationOutcome, j: nat)
    requires Unique(ops) && j < |Record(ops, o)|
    ensures var op := Record(ops, o)[j];
      if op.typ != o.typ then op in ops
      else o.Failed? && op == FailedOperation(o.typ, Attempts(ops, o.typ) + 1, o.message, o.timestamp)
  {
    if o.Failed? {
      AddedEntryFrom(ops, o, j);
    } else {
      KeptEntryFrom(ops, o, j);
    }
  }

  lemma AddedEntryFrom(ops: seq<FailedOperation>, o: OperationOutcome, j: nat)
    requires Unique(ops) && o.Failed? && j < |Record(ops, o)|
    ensures var op := Record(ops, o)[j];
      if op.typ != o.typ then op in ops
      else op == FailedOperation(o.typ, Attempts(ops, o.typ) + 1, o.message, o.timestamp)
  {
    var i := IndexOf(ops, o.typ);
    if j != i {
      assert Record(ops, o)[j] == ops[j];
    }
  }

  lemma KeptEntryFrom(ops: seq<FailedOperation>, o: OperationOutcome, j: nat)
    requires Unique(ops) && o.Succeeded? && j < |Record(ops, o)|
    ensures Record(ops, o)[j].typ != o.typ && Record(ops, o)[j] in ops
  {
    var i := IndexOf(ops, o.typ);
    if i < |ops| {
      assert Record(ops, o) == Cut(ops, i);
      assert Cut(ops, i)[j] == ops[if j < i then j else j + 1];
    } else {
      assert Record(ops, o)[j] == ops[j];
    }
  }

  lemma EntryStaysAccurate(ops: seq<FailedOperation>, history: seq<OperationOutcome>, o: OperationOutcome, j: nat)
    requires Accurate(ops, history) && j < |Record(ops, o)|
    ensures EntryAccurate(Record(ops, o)[j], history + [o])
  {
    EntryFrom(ops, o, j);
    assert (history + [o])[..|history|] == history;
    var op := Record(ops, o)[j];
    if op.typ != o.typ {
      assert EntryAccurate(op, history);
    }
  }

  /** Recording an outcome leaves the attempts of every other operation unchanged. */
  lemma {:induction false} OtherAttempts(ops: seq<FailedOperation>, o: OperationOutcome, typ: OperationType)
    requires typ == o.typ && o.Succeeded? ==> Unique(ops)
    ensures typ != o.typ ==> Attempts(Record(ops, o), typ) == Attempts(ops, typ)
    ensures typ == o.typ ==>
      Attempts(Record(ops, o), typ) == if o.Succeeded? then 0 else Attempts(ops, typ) + 1
  {
    if o.Succeeded? {
      DeletedAttempts(ops, o.typ, typ);
    } else {
      AddedAttempts(ops, o, typ);
    }
  }

  lemma {:induction false} DeletedAttempts(ops: seq<FailedOperation>, gone: OperationType, typ: OperationType)
    requires typ == gone ==> Unique(ops)
    ensures Attempts(Deleted(ops, gone), typ) == if typ == gone then 0 else Attempts(ops, typ)
  {
    var k, i := IndexOf(ops, gone), IndexOf(ops, typ);
    if k < |ops| {
      assert Deleted(ops, gone) == Cut(ops, k);
      if typ == gone || i == |ops| {
        NoIndex(Cut(ops, k), typ);
      } else {
        CutIndex(ops, k, typ, i);
      }
    }
  }

  lemma NoIndex(ops: seq<FailedOperation>, typ: OperationType)
    requires forall j :: 0 <= j < |ops| ==> ops[j].typ != typ
    ensures IndexOf(ops, typ) == |ops|
  {
  }

  /** Cutting another entry out moves the first entry of a type by at most one position. */
  lemma CutIndex(ops: seq<FailedOperation>, k: nat, typ: OperationType, i: nat)
    requires k < |ops| && i < |ops| && i != k && ops[i].typ == typ
    requires forall j :: 0 <= j < i ==> ops[j].typ != typ
    ensures IndexOf(Cut(ops, k), typ) == if i < k then i else i - 1
  {
    FirstIndex(Cut(ops, k), typ, if i < k then i else i - 1);
  }

  lemma {:induction false} AddedAttempts(ops: seq<FailedOperation>, o: OperationOutcome, typ: OperationType)
    requires o.Failed?
    ensures Attempts(Record(ops, o), typ) == Attempts(ops, typ) + if typ == o.typ then 1 else 0
  {
    var ops' := Record(ops, o);
    var k, i := IndexOf(ops, o.typ), IndexOf(ops, typ);
    if k == |ops| {
      RecordAppends(ops, o);
    } else {
      RecordInPlace(ops, o, k);
    }
    assert forall j :: 0 <= j < |ops| && j != k ==> ops'[j] == ops[j];
    if typ == o.typ {
      FirstIndex(ops', typ, k);
    } else if i < |ops| {
      FirstIndex(ops', typ, i);
    }
  }

  /** A whole run of outcomes recorded one after the other. */
  function RecordAll(ops: seq<FailedOperation>, outcomes: seq<OperationOutcome>): seq<FailedOperation> {
    if outcomes == [] then ops
    else Record(RecordAll(ops, outcomes[..|outcomes| - 1]), outcomes[|outcomes| - 1])
  }

  lemma {:induction false} RecordAllKeepsAccurate(
    ops: seq<FailedOperation>, history: seq<OperationOutcome>, outcomes: seq<OperationOutcome>)
    requires Accurate(ops, history)
    ensures Accurate(RecordAll(ops, outcomes), history + outcomes)
  {
    if outcomes == [] {
      assert history + outcomes == history;
    } else {
      var before, last := outcomes[..|outcomes| - 1], outcomes[|outcomes| - 1];
      RecordAllKeepsAccurate(ops, history, before);
      RecordKeepsAccurate(RecordAll(ops, before), history + before, last);
      assert history + before + [last] == history + outcomes;
    }
  }

  // ----- The list in plain terms -----

  /** A success removes the entry of its operation and leaves all others in their order; a failure changes
      that entry in its place. `i` is where the entry is. */
  lemma RecordInPlace(ops: seq<FailedOperation>, o: OperationOutcome, i: nat)
    requires i < |ops| && ops[i].typ == o.typ && forall j :: 0 <= j < i ==> ops[j].typ != o.typ
    ensures Record(ops, o) ==
      if o.Succeeded? then ops[..i] + ops[i + 1..]
      else ops[i := FailedOperation(o.typ, ops[i].attempts + 1, o.message, o.timestamp)]
  {
    FirstIndex(ops, o.typ, i);
  }

  /** Without an entry, a success leaves the list as it is, and a failure appends one with one attempt. */
  lemma RecordAppends(ops: seq<FailedOperation>, o: OperationOutcome)
    requires forall i :: 0 <= i < |ops| ==> ops[i].typ != o.typ
    ensures Record(ops, o) ==
      if o.Succeeded? then ops else ops + [FailedOperation(o.typ, 1, o.message, o.timestamp)]
  {
    assert IndexOf(ops, o.typ) == |ops|;
  }
}
