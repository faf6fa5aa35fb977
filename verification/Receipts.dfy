/**
 work/receipts.go: the operation_receipts table, its replay policy, and what a prepare and a
 finalize do when each runs alone. A row's id is its place in the table, and the SHA-256 of the
 arguments is taken to be injective, so the row keeps the canonical arguments themselves.
 */
module Receipts {
  import opened Text

  datatype Delivery = Prepared | Confirmed | Unknown

  datatype Progress = Pending | Returned | Failed | Uncertain

  datatype Outcome = Outcome(delivery: Delivery, progress: Progress, ref: Option<nat>)

  const UNFINISHED := Outcome(Prepared, Pending, None)

  datatype Receipt = Receipt(
    operation: string, tool: string, arguments: string, mutation: bool,
    task: Option<nat>, step: Option<nat>, outcome: Outcome, finished: bool)

  /** The rows a receipt may refer to. Tasks and steps are never deleted; a step keeps its task. */
  datatype Owners = Owners(tasks: nat, steps: seq<nat>)

  datatype Code =
    | OperationIdRequired | InvalidInput | IdempotencyConflict | NotFound | ConstraintFailed
    | ReceiptFinalized | ResultTooLarge

  // ---------- Replay policy ----------

  datatype Policy = SafeToRepeat | DoNotReplay | VerifyBeforeAnyRetry | RetryOnlyByExplicitDecision

  function ReplayPolicy(r: Receipt): Policy {
    if !r.mutation then SafeToRepeat
    else if r.outcome.delivery == Confirmed && r.outcome.progress == Returned then DoNotReplay
    else if r.outcome.delivery == Unknown || r.outcome.delivery == Prepared then VerifyBeforeAnyRetry
    else if r.outcome.progress == Failed then RetryOnlyByExplicitDecision
    else VerifyBeforeAnyRetry
  }

  // ---------- Lookups ----------

  function FindOperation(table: seq<Receipt>, operation: string): (id: Option<nat>)
    ensures id.Some? ==> id.value < |table| && table[id.value].operation == operation
    ensures id.None? ==> forall k :: 0 <= k < |table| ==> table[k].operation != operation
  {
    if table == [] then None
    else
      var n := |table| - 1;
      if table[n].operation == operation then Some(n) else FindOperation(table[..n], operation)
  }

  ghost predicate UniqueOperations(table: seq<Receipt>) {
    forall i, j :: 0 <= i < j < |table| ==> table[i].operation != table[j].operation
  }

  /** What a caller asks a receipt for. An absent operation id is replaced by a generated one. */
  datatype Request = Request(
    operation: string, generated: string, task: Option<nat>, step: Option<nat>,
    tool: string, arguments: string, mutation: bool)
  {
    function Operation(): string {
      if TrimSpace(operation) == "" then generated else TrimSpace(operation)
    }

    /** The checks made before the database is touched. */
    function Fault(): Option<Code> {
      if TrimSpace(operation) == "" && mutation then Some(OperationIdRequired)
      else if |Operation()| > 160 || TrimSpace(tool) == "" || |tool| > 256 then Some(InvalidInput)
      else None
    }

    /** The task the receipt belongs to: the one named, or the step's. */
    function Owner(owners: Owners): (r: Resolved)
      ensures r.Owned? && r.task.Some? ==> r.task.value < owners.tasks
    {
      var named: Resolved :=
        if step.None? then Owned(task)
        else if step.value >= |owners.steps| then Unowned(NotFound)
        else if task.None? || task.value == owners.steps[step.value] then Owned(Some(owners.steps[step.value]))
        else Unowned(InvalidInput);
      if named.Owned? && named.task.Some? && named.task.value >= owners.tasks then Unowned(NotFound) else named
    }

    function Row(owner: Option<nat>): Receipt {
      Receipt(Operation(), tool, arguments, mutation, owner, step, UNFINISHED, false)
    }

    predicate Matches(r: Receipt) {
      r.tool == tool && r.arguments == arguments
    }
  }

  datatype Resolved = Owned(task: Option<nat>) | Unowned(code: Code)

  // ---------- One operation at a time ----------

  datatype Verdict = Fresh(id: nat) | Existing(id: nat) | Rejected(code: Code)

  function Prepare(table: seq<Receipt>, owners: Owners, q: Request): (seq<Receipt>, Verdict) {
    if q.Fault().Some? then (table, Rejected(q.Fault().value))
    else
      match FindOperation(table, q.Operation())
      case Some(id) => (table, if q.Matches(table[id]) then Existing(id) else Rejected(IdempotencyConflict))
      case None =>
        match q.Owner(owners)
        case Unowned(code) => (table, Rejected(code))
        case Owned(task) => (table + [q.Row(task)], Fresh(|table|))
  }

  function Finalize(table: seq<Receipt>, id: nat, outcome: Outcome): (seq<Receipt>, Verdict) {
    if id >= |table| then (table, Rejected(NotFound))
    else if table[id].finished then
      (table, if table[id].outcome == outcome then Existing(id) else Rejected(ReceiptFinalized))
    else (table[id := table[id].(outcome := outcome, finished := true)], Fresh(id))
  }

  datatype Op = PrepareOp(owners: Owners, request: Request) | FinalizeOp(id: nat, outcome: Outcome)

  function Apply(table: seq<Receipt>, op: Op): (seq<Receipt>, Verdict) {
    match op
    case PrepareOp(owners, request) => Prepare(table, owners, request)
    case FinalizeOp(id, outcome) => Finalize(table, id, outcome)
  }

  function After(table: seq<Receipt>, ops: seq<Op>): seq<Receipt>
    decreases |ops|
  {
    if ops == [] then table else After(Apply(table, ops[0]).0, ops[1..])
  }

  /** The part of a row that no operation may change. */
  predicate SameBinding(a: Receipt, b: Receipt) {
    a == b.(outcome := a.outcome, finished := a.finished)
  }

  /** What every operation, and so every history, leaves as it was. */
  ghost predicate Preserves(before: seq<Receipt>, after: seq<Receipt>) {
    && UniqueOperations(after)
    && |before| <= |after|
    && forall id :: 0 <= id < |before| ==>
         SameBinding(before[id], after[id]) && (before[id].finished ==> after[id] == before[id])
  }

  lemma ApplyPreserves(table: seq<Receipt>, op: Op)
    requires UniqueOperations(table)
    ensures Preserves(table, Apply(table, op).0)
  {
    hide TrimSpace;
    if op.PrepareOp? {
      hide FindOperation;
      var after := Apply(table, op).0;
      assert after == table || (after[..|table|] == table && FindOperation(table, op.request.Operation()).None?);
    }
  }

  /**
   A receipt is a write-once cell: over any history its binding never changes, and once finished
   the row never changes; operation ids stay unique.
   */
  lemma {:induction false} ReceiptsAreWriteOnce(table: seq<Receipt>, ops: seq<Op>)
    requires UniqueOperations(table)
    ensures Preserves(table, After(table, ops))
    decreases |ops|
  {
    if ops != [] {
      hide Apply;
      ApplyPreserves(table, ops[0]);
      ReceiptsAreWriteOnce(Apply(table, ops[0]).0, ops[1..]);
    }
  }

  /** After the first finalize, in any history: equal repeats are answered, others refused, all without effect. */
  lemma LaterFinalizesAreAnswered(table: seq<Receipt>, id: nat, first: Outcome, ops: seq<Op>, outcome: Outcome)
    requires UniqueOperations(table)
    requires Finalize(table, id, first).1.Fresh?
    ensures var after := After(Finalize(table, id, first).0, ops);
            Finalize(after, id, outcome) ==
            (after, if outcome == first then Existing(id) else Rejected(ReceiptFinalized))
  {
    ApplyPreserves(table, FinalizeOp(id, first));
    ReceiptsAreWriteOnce(Finalize(table, id, first).0, ops);
  }

  lemma PrepareFindsRow(table: seq<Receipt>, id: nat, owners: Owners, q: Request)
    requires UniqueOperations(table) && id < |table| && table[id].operation == q.Operation()
    requires q.Fault().None?
    ensures Prepare(table, owners, q) ==
            (table, if q.Matches(table[id]) then Existing(id) else Rejected(IdempotencyConflict))
  {
    hide FindOperation;
    var found := FindOperation(table, q.Operation());
    assert found.Some? && !(found.value < id) && !(id < found.value);
  }

  /** Preparing an operation id again, in any later history, never makes a second receipt for it. */
  lemma LaterPreparesFindTheFirst(table: seq<Receipt>, owners: Owners, q: Request, ops: seq<Op>, later: Owners,
                                  again: Request)
    requires UniqueOperations(table)
    requires Prepare(table, owners, q).1.Fresh?
    requires again.Fault().None? && again.Operation() == q.Operation()
    ensures var after := After(Prepare(table, owners, q).0, ops);
            Prepare(after, later, again) ==
            (after, if again.tool == q.tool && again.arguments == q.arguments then Existing(|table|)
                    else Rejected(IdempotencyConflict))
  {
    hide TrimSpace, FindOperation, After;
    ApplyPreserves(table, PrepareOp(owners, q));
    var first := Prepare(table, owners, q).0;
    var row := q.Row(q.Owner(owners).task);
    assert first == table + [row];
    hide Prepare;
    ReceiptsAreWriteOnce(first, ops);
    var after := After(first, ops);
    assert first[|table|] == row;
    assert SameBinding(row, after[|table|]);
    PrepareFindsRow(after, |table|, later, again);
  }

  // ---------- What a prepare records, and what it refuses ----------

  /** The operation id a request is recorded under: its own, trimmed, or when that is blank a generated one. */
  function IdOf(q: Request): string {
    var own := TrimSpace(q.operation);
    if own == "" then q.generated else own
  }

  /** The task a request is recorded under: its step's, or without a step its own. */
  function TaskOf(q: Request, owners: Owners): Option<nat>
    requires q.step.Some? ==> q.step.value < |owners.steps|
  {
    if q.step.Some? then Some(owners.steps[q.step.value]) else q.task
  }

  /** The row says what the request said, with that operation id and that task, and that nothing happened yet. */
  predicate Records(row: Receipt, q: Request, owners: Owners) {
    && (q.step.Some? ==> q.step.value < |owners.steps|)
    && row.operation == IdOf(q) && row.tool == q.tool && row.arguments == q.arguments && row.mutation == q.mutation
    && row.step == q.step && row.task == TaskOf(q, owners)
    && row.outcome.delivery.Prepared? && row.outcome.progress.Pending? && row.outcome.ref.None? && !row.finished
  }

  lemma OwnedMeansTaskOf(q: Request, owners: Owners)
    requires q.Owner(owners).Owned?
    ensures q.step.Some? ==> q.step.value < |owners.steps|
    ensures q.Owner(owners).task == TaskOf(q, owners)
    ensures q.step.Some? && q.task.Some? ==> q.task == TaskOf(q, owners)
    ensures TaskOf(q, owners).Some? ==> TaskOf(q, owners).value < owners.tasks
  {}

  /** A fresh prepare adds one row, which records the request. */
  lemma FreshPrepareRecords(table: seq<Receipt>, owners: Owners, q: Request)
    requires Prepare(table, owners, q).1.Fresh?
    ensures var (after, verdict) := Prepare(table, owners, q);
            && verdict.id == |table| && |after| == |table| + 1 && after[..|table|] == table
            && Records(after[|table|], q, owners)
  {
    OwnedMeansTaskOf(q, owners);
    hide TrimSpace, FindOperation, Request.Owner, Request.Fault;
    assert q.Operation() == IdOf(q);
  }

  /** The request is malformed in itself. */
  predicate BadForm(q: Request) {
    |IdOf(q)| > 160 || TrimSpace(q.tool) == "" || |q.tool| > 256
  }

  /** The step or the task a request names, or the task of its step, does not exist. */
  predicate OwnerMissing(q: Request, owners: Owners) {
    if q.step.Some? && q.step.value >= |owners.steps| then true
    else TaskOf(q, owners).Some? && TaskOf(q, owners).value >= owners.tasks
  }

  /** The task a request names is not its step's. */
  predicate OwnerMismatch(q: Request, owners: Owners) {
    && q.step.Some? && q.task.Some? && q.step.value < |owners.steps| && q.task.value != owners.steps[q.step.value]
  }

  lemma OwnerFailsExactly(q: Request, owners: Owners)
    ensures q.Owner(owners).Unowned? <==> OwnerMismatch(q, owners) || OwnerMissing(q, owners)
    ensures q.Owner(owners).Unowned? ==>
              q.Owner(owners).code == if OwnerMismatch(q, owners) then InvalidInput else NotFound
  {}

  /** Whatever a prepare answers, the first of these that applies is why. */
  lemma PrepareAnswersExactly(table: seq<Receipt>, owners: Owners, q: Request)
    requires UniqueOperations(table)
    ensures var (after, verdict) := Prepare(table, owners, q);
            if TrimSpace(q.operation) == ""
              && q.mutation then (after, verdict) == (table, Rejected(OperationIdRequired))
            else if BadForm(q) then (after, verdict) == (table, Rejected(InvalidInput))
            else if exists k :: 0 <= k < |table| && table[k].operation == IdOf(q) then
              forall k: nat :: k < |table| && table[k].operation == IdOf(q) ==>
                (after, verdict) ==
                (table, if table[k].tool == q.tool && table[k].arguments == q.arguments then Existing(k)
                        else Rejected(IdempotencyConflict))
            else if OwnerMismatch(q, owners) then (after, verdict) == (table, Rejected(InvalidInput))
            else if OwnerMissing(q, owners) then (after, verdict) == (table, Rejected(NotFound))
            else verdict == Fresh(|table|)
  {
    OwnerFailsExactly(q, owners);
    assert q.Operation() == IdOf(q) by { hide TrimSpace; }
    var found := FindOperation(table, q.Operation());
    hide TrimSpace, FindOperation, Request.Owner, OwnerMismatch, OwnerMissing, Request.Operation, IdOf;
  }

  /** The policy in full: what a reader of a receipt is told about repeating it. */
  lemma PolicyExactly(r: Receipt)
    ensures ReplayPolicy(r) == SafeToRepeat <==> !r.mutation
    ensures ReplayPolicy(r) == DoNotReplay <==>
            r.mutation && r.outcome.delivery.Confirmed? && r.outcome.progress.Returned?
    ensures ReplayPolicy(r) == RetryOnlyByExplicitDecision <==>
            r.mutation && r.outcome.delivery.Confirmed? && r.outcome.progress.Failed?
  {}
}
