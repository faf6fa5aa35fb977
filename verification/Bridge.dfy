/**
 accelerator/runtime.go and work/receipts.go as sequential code over mutable tables. Each method
 is proved against the function of the tables it computes, and a whole call against the step
 machine: run without interruption, the code is one schedule of the protocol.
 */
module Bridge {
  import opened Text
  import opened Json
  import opened Redaction
  import opened Receipts
  import opened Checkpoints
  import opened Protocol
  import opened ProtocolSafety
  import opened Calls
  import S = Shaping
  import W = Work

  // ---------- Uninterrupted stretches of the machine ----------

  /** The job of an execution that prepares a receipt, whether or not it then makes the call itself. */
  predicate Asks(job: Job) {
    job.Call? || job.PrepareOnly?
  }

  function InsertedBy(job: Job, task: Option<nat>, id: nat): Exec
    requires Asks(job)
  {
    var x := Exec(job, job.request.mutation, task, Some(id), Connect, true);
    x.At(AfterInsert(x))
  }

  /** A fresh operation: lookup finds nothing, the owner is resolved, the row is inserted. */
  lemma CompleteOfFreshPrepare(db: Db, job: Job, a: Answer)
    requires Asks(job) && job.request.Fault().None? && FindOperation(db.receipts, job.request.Operation()).None?
    ensures var x := Started(job);
            var owner := job.request.Owner(db.owners);
            if owner.Unowned? then Complete(db, x, a).0 == db && Complete(db, x, a).1.pc == Done(Failure(owner.code))
            else
              Complete(db, x, a) ==
              Complete(db.(receipts := db.receipts + [job.request.Row(owner.task)]),
                       InsertedBy(job, owner.task, |db.receipts|), a)
  {
    hide TrimSpace, FindOperation, Request.Operation, Request.Row, Request.Fault, Request.Owner;
    var q, x := job.request, Started(job);
    var looked := x.At(Resolve);
    assert Complete(db, x, a) == Complete(db, looked, a);
    if q.Owner(db.owners).Unowned? {
      assert Complete(db, looked, a) == Complete(db, looked.At(Done(Failure(q.Owner(db.owners).code))), a);
    } else {
      var owned := looked.(task := q.Owner(db.owners).task, pc := Insert);
      assert Complete(db, looked, a) == Complete(db, owned, a);
      assert Statement(db, owned, a).exec == InsertedBy(job, owned.task, |db.receipts|);
    }
  }

  /** Lookup, resolve and insert together are Prepare. */
  lemma CompleteOfPrepare(db: Db, job: Job, a: Answer, receipts: seq<Receipt>, verdict: Verdict)
    requires Asks(job) && (receipts, verdict) == Prepare(db.receipts, db.owners, job.request)
    ensures ExecInBounds(db, Started(job))
    ensures var x := Started(job);
            if verdict.Rejected? then
              Complete(db, x, a).0 == db && Complete(db, x, a).1.pc == Done(Failure(verdict.code))
            else if verdict.Existing? then
              Complete(db, x, a).0 == db && Complete(db, x, a).1.pc == Done(Deduplicated(verdict.id))
            else
              && verdict.id < |receipts|
              && var y := InsertedBy(job, receipts[verdict.id].task, verdict.id);
                 && ExecInBounds(db.(receipts := receipts), y)
                 && Complete(db, x, a) == Complete(db.(receipts := receipts), y, a)
  {
    hide TrimSpace, FindOperation, Request.Operation, Request.Owner;
    if job.request.Fault().None? && FindOperation(db.receipts, job.request.Operation()).None? {
      CompleteOfFreshPrepare(db, job, a);
      hide Complete, Request.Fault;
    }
  }

  /** One writer alone extends the chain, if the steps fit. */
  lemma CompleteOfNote(db: Db, x: Exec, point: Point, a: Answer)
    requires ExecInBounds(db, x) && x.pc == ReadSteps(point) && x.task.Some? && x.task.value < db.owners.tasks
    requires Chained(db.checkpoints) && db.Fits(x.task.value)
    ensures var task := x.task.value;
            var row := Successor(db.checkpoints, task, Latest(db.checkpoints, task),
                                 Note(PointEvent(point), x.receipt));
            && Chained(db.checkpoints + [row])
            && Complete(db, x, a) == Complete(db.(checkpoints := db.checkpoints + [row]), x.At(AfterNote(x, point)), a)
  {
    var task := x.task.value;
    FreshInsertExtendsChain(db.checkpoints, task, Note(PointEvent(point), x.receipt));
    hide Latest, Duplicate, Chained, Db.Fits;
    var stepped := x.At(ReadChain(point));
    var read := x.At(ExtendChain(point, Latest(db.checkpoints, task)));
    assert Complete(db, x, a) == Complete(db, stepped, a);
    assert Complete(db, stepped, a) == Complete(db, read, a);
    assert !Duplicate(db.checkpoints,
                      Successor(db.checkpoints, task, read.pc.latest, Note(PointEvent(point), x.receipt)));
  }

  /** A checkpoint whose steps do not fit is not written. */
  lemma CompleteOfRefusedNote(db: Db, x: Exec, point: Point, a: Answer)
    requires ExecInBounds(db, x) && x.pc == ReadSteps(point) && x.task.Some? && x.task.value < db.owners.tasks
    requires !db.Fits(x.task.value)
    ensures Complete(db, x, a) == Complete(db, x.At(NoteFailed(x, point, InvalidInput)), a)
  {
    hide Db.Fits;
  }

  /** Look and write together are Finalize of an open receipt. */
  lemma CompleteOfFinish(db: Db, x: Exec, ending: Ending, a: Answer)
    requires ExecInBounds(db, x) && x.pc == ReadReceipt(ending) && x.receipt.Some?
    requires !db.receipts[x.receipt.value].finished
    ensures var id := x.receipt.value;
            Complete(db, x, a) ==
            Complete(db.(receipts := Finalize(db.receipts, id, OutcomeOf(ending)).0), x.At(AfterFinish(x, ending)), a)
  {
    var reading := x.At(WriteReceipt(ending));
    assert Complete(db, x, a) == Complete(db, reading, a);
  }

  /** A finalizer that has found its receipt. */
  function Loaded(db: Db, id: nat, outcome: Outcome): Exec
    requires id < |db.receipts|
  {
    var row := db.receipts[id];
    Exec(FinalizeOnly(id, outcome), row.mutation, row.task, Some(id), ReadReceipt(External(outcome)), true)
  }

  lemma CompleteOfLoad(db: Db, id: nat, outcome: Outcome, a: Answer)
    ensures var x := Started(FinalizeOnly(id, outcome));
            && ExecInBounds(db, x)
            && if id < |db.receipts| then
                 ExecInBounds(db, Loaded(db, id, outcome))
                   && Complete(db, x, a) == Complete(db, Loaded(db, id, outcome), a)
               else Complete(db, x, a).0 == db && Complete(db, x, a).1.pc == Done(Failure(NotFound))
  {
    var x := Started(FinalizeOnly(id, outcome));
    if id >= |db.receipts| {
      assert Complete(db, x, a) == Complete(db, x.At(Done(Failure(NotFound))), a);
    }
  }

  /** Look and write together are Finalize, of an open receipt or of one that is finished. */
  lemma CompleteOfExternal(db: Db, x: Exec, a: Answer)
    requires ExecInBounds(db, x) && x.job.FinalizeOnly? && x.receipt == Some(x.job.receipt)
    requires x.pc == ReadReceipt(External(x.job.outcome))
    ensures var id := x.receipt.value;
            var (after, verdict) := Finalize(db.receipts, id, x.job.outcome);
            if verdict.Rejected? then
              Complete(db, x, a).0 == db && Complete(db, x, a).1.pc == Done(Failure(verdict.code))
            else
              var told := x.At(AfterFinish(x, External(x.job.outcome)));
              Complete(db, x, a) == Complete(db.(receipts := after), told, a)
  {
    var ending := External(x.job.outcome);
    if !db.receipts[x.receipt.value].finished {
      CompleteOfFinish(db, x, ending, a);
    } else if db.receipts[x.receipt.value].outcome == x.job.outcome {
      assert Complete(db, x, a) == Complete(db, x.At(AfterFinish(x, ending)), a);
    } else {
      assert Complete(db, x, a) == Complete(db, x.At(Done(Failure(ReceiptFinalized))), a);
    }
  }

  /** After an outcome that shows no reply, a checkpoint that cannot be written is passed over. */
  lemma CompleteOfIgnoredNote(db: Db, x: Exec, ending: Ending, a: Answer)
    requires ExecInBounds(db, x) && x.pc == ReadSteps(Afterwards(ending)) && x.task.Some? && x.receipt.Some?
    requires !ending.ReplyShown? && (x.task.value >= db.owners.tasks || !db.Fits(x.task.value))
    ensures Complete(db, x, a) == Complete(db, x.At(Done(Answered(x.receipt.value, ending))), a)
  {
    hide Db.Fits;
  }

  lemma CompleteOfStep(db: Db, x: Exec, a: Answer)
    requires ExecInBounds(db, x) && !x.pc.Done?
    ensures ExecInBounds(Stored(db, Statement(db, x, a).write), Statement(db, x, a).exec)
    ensures var eff := Statement(db, x, a);
            Complete(db, x, a) == Complete(Stored(db, eff.write), eff.exec, a)
  {
    StatementStaysInBounds(db, x, a);
    hide Statement;
  }

  /** Running alone is one schedule: the machine leads from the execution's start to its completion. */
  lemma {:induction false} CompletionIsASchedule(s: State, t: State, e: nat, a: Answer)
    requires InBounds(s) && InBounds(t) && Leads(s, t) && e < |t.execs| && t.execs[e].alive
    ensures exists u: State ::
              Leads(s, u) && e < |u.execs| && (u.db, u.execs[e]) == Complete(t.db, t.execs[e], a)
    decreases Rank(t.execs[e].pc)
  {
    var x := t.execs[e];
    if x.pc.Done? {
      assert Leads(s, t) && (t.db, t.execs[e]) == Complete(t.db, t.execs[e], a);
    } else {
      StatementsRunOut(t.db, x, a);
      CompleteOfStep(t.db, x, a);
      AliveThroughout(t.db, x, a);
      LeadsOn(s, t, Step(e, a));
      var u := Next(t, Step(e, a));
      assert u.db == Stored(t.db, Statement(t.db, x, a).write) && u.execs[e] == Statement(t.db, x, a).exec;
      hide Next, Statement, Complete, Leads, InBounds;
      CompletionIsASchedule(s, u, e, a);
    }
  }

  lemma AliveThroughout(db: Db, x: Exec, a: Answer)
    requires ExecInBounds(db, x)
    ensures Statement(db, x, a).exec.alive == x.alive
  {
    hide TrimSpace, FindOperation, Latest, Duplicate, Db.Fits;
  }

  // ---------- How a call ends ----------

  function ShapingOf(shaped: S.Outcome): Shaping {
    match shaped
    case Shaped(value, truncated, _) => if truncated then Cut(value) else Whole(value)
    case Fault(_) => Unshapable
    case Panic => Panics
  }

  /** A reply as it is stored: redacted by Shape, redacted again by the store, and encoded. */
  function Encoded(env: S.Env, value: Json): string {
    env.encode(env.redactor.Redact(env.redactor.Redact(value)))
  }

  /** What a call gets from its upstream, with what Shape makes of the reply under the call's options. */
  function AnswerOf(env: S.Env, upstream: Upstream, o: S.Options): Answer {
    match upstream
    case Answers(value) => Answer(upstream, ShapingOf(S.ShapeOf(env, value, o)), Encoded(env, value))
    case _ => Answer(upstream, Unshapable, "")
  }

  /** A reply came back and shaping it panics. */
  predicate Aborts(a: Answer) {
    a.upstream.Answers? && a.shaping.Panics?
  }

  /** The reply is to be stored, because it is asked for or because it is cut. */
  predicate Keeps(store: bool, a: Answer) {
    a.upstream.Answers? && (a.shaping.Cut? || (a.shaping.Whole? && store))
  }

  /** A reply came back and is to be stored, and the store does not take it. */
  predicate StoreRefuses(store: bool, a: Answer) {
    Keeps(store, a) && !a.Storable()
  }

  /** The ending of a call that is let through, unless its shaping panics or the store refuses its reply. */
  function EndingOf(store: bool, a: Answer, ref: nat): (ending: Option<Ending>)
    ensures ending.None? <==> Aborts(a) || StoreRefuses(store, a)
    ensures ending.Some? ==> !ending.value.External?
  {
    if a.upstream.NotConnected? then Some(NeverSent)
    else if !a.upstream.Answers? then Some(NoReply)
    else
      match a.shaping
      case Unshapable => Some(ReplyNotShaped)
      case Panics => None
      case Whole(shown) =>
        if !store then Some(ReplyShown(shown, false, None))
        else if a.Storable() then Some(ReplyShown(shown, false, Some(ref)))
        else None
      case Cut(preview) => if a.Storable() then Some(ReplyShown(preview, true, Some(ref))) else None
  }

  /** What a call without an ending comes to. */
  function StopOf(id: nat, a: Answer): Reply {
    if Aborts(a) then Panicked(id) else Failure(ResultTooLarge)
  }

  function BlobsAfter(blobs: seq<Blob>, task: Option<nat>, id: nat, store: bool, a: Answer): seq<Blob> {
    if Keeps(store, a) && a.Storable() then blobs + [Blob(task, id, a.content)] else blobs
  }

  /** From the connect step on: the ending, and the stored reply. */
  lemma CompleteOfDelivery(db: Db, x: Exec, store: bool, a: Answer)
    requires x.job.Call? && x.job.store == store && x.pc == Connect && x.receipt.Some?
             && x.receipt.value < |db.receipts|
    ensures var ending := EndingOf(store, a, |db.blobs|);
            Complete(db, x, a) ==
            Complete(db.(blobs := BlobsAfter(db.blobs, x.task, x.receipt.value, store, a)),
                     x.At(if ending.Some? then ReadReceipt(ending.value) else Done(StopOf(x.receipt.value, a))), a)
  {
    hide LookupStatement, InsertStatement, ReadReceiptStatement, Latest, Duplicate, Db.Fits, TrimSpace, Complete;
    CompleteOfStep(db, x, a);
    if !a.upstream.NotConnected? {
      CompleteOfStep(db, x.At(Await), a);
      if Keeps(store, a) {
        var value := if a.shaping.Whole? then a.shaping.shown else a.shaping.preview;
        CompleteOfStep(db, x.At(Store(value, a.shaping.Cut?)), a);
      }
    }
  }

  /** An upstream that does not reply is the answer as it is. */
  lemma AnswerWithoutReply(env: S.Env, upstream: Upstream, o: S.Options)
    ensures AnswerOf(env, upstream, o).upstream == upstream
  {
    hide S.ShapeOf, Encoded;
  }

  /** What Shape hands on for storing is the redacted reply, whatever it shows. */
  lemma AnswerWithReply(env: S.Env, value: Json, o: S.Options, shaped: S.Outcome)
    requires shaped == S.ShapeOf(env, value, o)
    ensures AnswerOf(env, Answers(value), o).shaping == ShapingOf(shaped)
    ensures shaped.Shaped? ==>
              AnswerOf(env, Answers(value), o).content == env.encode(env.redactor.Redact(shaped.original))
  {}

  // ---------- The code ----------

  class Runtime {
    var owners: Owners
    var receipts: seq<Receipt>
    var statuses: seq<W.StepStatus>
    var checkpoints: seq<Checkpoint<Note>>
    var blobs: seq<Blob>

    function Tables(): Db
      reads this
    {
      Db(owners, statuses, receipts, checkpoints, blobs)
    }

    /** Work.ReceiptPrepare. */
    method ReceiptPrepare(q: Request) returns (r: Verdict)
      modifies this`receipts
      ensures (receipts, r) == Prepare(old(receipts), owners, q)
    {
      hide TrimSpace, FindOperation;
      var operation := q.Operation();
      if q.Fault().Some? {
        return Rejected(q.Fault().value);
      }
      var existing := FindOperation(receipts, operation);
      if existing.Some? {
        if !q.Matches(receipts[existing.value]) {
          return Rejected(IdempotencyConflict);
        }
        return Existing(existing.value);
      }
      var task := q.task;
      if q.step.Some? {
        if q.step.value >= |owners.steps| {
          return Rejected(NotFound);
        }
        var stepTask := owners.steps[q.step.value];
        if task.None? {
          task := Some(stepTask);
        } else if task.value != stepTask {
          return Rejected(InvalidInput);
        }
      }
      if task.Some? && task.value >= owners.tasks {
        return Rejected(NotFound);
      }
      r := Fresh(|receipts|);
      receipts := receipts + [q.Row(task)];
    }

    /** Work.ReceiptFinalize. */
    method ReceiptFinalize(id: nat, outcome: Outcome) returns (r: Verdict)
      modifies this`receipts
      ensures (receipts, r) == Finalize(old(receipts), id, outcome)
    {
      if id >= |receipts| {
        return Rejected(NotFound);
      }
      var existing := receipts[id];
      if existing.finished {
        if existing.outcome == outcome {
          return Existing(id);
        }
        return Rejected(ReceiptFinalized);
      }
      receipts := receipts[id := existing.(outcome := outcome, finished := true)];
      return Fresh(id);
    }

    /** Work.CheckpointCreateEvent: alone, it is refused for a missing task or steps that do not fit. */
    method CheckpointCreateEvent(task: nat, event: EventType, receipt: nat) returns (fault: Option<Code>)
      requires Chained(checkpoints)
      modifies this`checkpoints
      ensures Chained(checkpoints)
      ensures fault == if task >= owners.tasks then Some(NotFound)
                       else if !Tables().Fits(task) then Some(InvalidInput) else None
      ensures checkpoints == old(checkpoints) +
                             if fault.Some? then []
                             else [Successor(old(checkpoints), task, Latest(old(checkpoints), task),
                                             Note(event, Some(receipt)))]
    {
      hide W.Fits;
      if task >= owners.tasks {
        return Some(NotFound);
      }
      var latest := Latest(checkpoints, task);
      var sequence, parent := 1, None;
      if latest.Some? {
        sequence, parent := checkpoints[latest.value].sequence + 1, latest;
      }
      if !W.Fits(owners.steps, statuses, task) {
        return Some(InvalidInput);
      }
      var row := Checkpoint(task, sequence, parent, Note(event, Some(receipt)));
      FreshInsertExtendsChain(checkpoints, task, Note(event, Some(receipt)));
      hide Chained, Latest, Duplicate;
      checkpoints := checkpoints + [row];
      return None;
    }

    /** Work.ResultStore. A result given without a task gets its receipt's; what is stored holds no secret. */
    method ResultStore(env: S.Env, task: Option<nat>, receipt: nat, value: Json)
      returns (ref: Option<nat>, fault: Option<Code>)
      modifies this`blobs
      ensures env.redactor.Clean(env.redactor.Redact(value))
      ensures var content := env.encode(env.redactor.Redact(value));
              fault == if |content| > MAX_STORED_RESULT then Some(ResultTooLarge)
                       else if task.Some? && task.value >= owners.tasks then Some(NotFound)
                       else if receipt >= |receipts| then Some(NotFound) else None
      ensures ref == if fault.None? then Some(|old(blobs)|) else None
      ensures fault.Some? ==> blobs == old(blobs)
      ensures fault.None? ==>
                && blobs == old(blobs) + [Blob(if task.Some? then task else receipts[receipt].task, receipt,
                                               env.encode(env.redactor.Redact(value)))]
                && (task.None? || task == receipts[receipt].task ==> ProperBlob(Tables(), blobs[|blobs| - 1]))
    {
      RedactLeavesNoSecret(env.redactor, value);
      hide Redactor.Redact, Redactor.Clean;
      var content := env.encode(env.redactor.Redact(value));
      if |content| > MAX_STORED_RESULT {
        return None, Some(ResultTooLarge);
      }
      if task.Some? && task.value >= owners.tasks {
        return None, Some(NotFound);
      }
      if receipt >= |receipts| {
        return None, Some(NotFound);
      }
      var owner := task;
      if owner.None? {
        owner := receipts[receipt].task;
      }
      ref, fault := Some(|blobs|), None;
      blobs := blobs + [Blob(owner, receipt, content)];
    }

    /** The upstream call and the shaping of its reply: how the call ends, or why it stops short. */
    method Deliver(env: S.Env, id: nat, task: Option<nat>, store: bool, o: S.Options, upstream: Upstream)
      returns (ending: Option<Ending>, stop: Reply)
      requires id < |receipts| && receipts[id].task == task && (task.Some? ==> task.value < owners.tasks)
      modifies this`blobs
      ensures var a := AnswerOf(env, upstream, o);
              && ending == EndingOf(store, a, |old(blobs)|) && stop == StopOf(id, a)
              && blobs == BlobsAfter(old(blobs), task, id, store, a)
    {
      AnswerWithoutReply(env, upstream, o);
      hide AnswerOf, Redactor.Redact, S.ShapeOf;
      stop := Failure(ResultTooLarge);
      if upstream.NotConnected? {
        return Some(NeverSent), stop;
      }
      if !upstream.Answers? {
        return Some(NoReply), stop;
      }
      var shaped := S.Shape(env, upstream.value, o);
      AnswerWithReply(env, upstream.value, o, shaped);
      if shaped.Panic? {
        return None, Panicked(id);
      }
      if shaped.Fault? {
        return Some(ReplyNotShaped), stop;
      }
      if !shaped.truncated && !store {
        return Some(ReplyShown(shaped.value, false, None)), stop;
      }
      var ref, fault := ResultStore(env, task, id, shaped.original);
      if fault.Some? {
        return None, stop;
      }
      return Some(ReplyShown(shaped.value, shaped.truncated, ref)), stop;
    }

    /** executeResolved: the code is the machine's execution, run from start to end. */
    method ExecuteResolved(env: S.Env, q: Request, store: bool, o: S.Options, upstream: Upstream) returns (reply: Reply)
      requires Chained(checkpoints)
      modifies this`receipts, this`checkpoints, this`blobs
      ensures Chained(checkpoints)
      ensures var (db, x) := Complete(old(Tables()), Started(Call(q, store)), AnswerOf(env, upstream, o));
              Tables() == db && x.pc == Done(reply)
    {
      ghost var a, after := AnswerOf(env, upstream, o), Prepare(receipts, owners, q);
      CompleteOfPrepare(Tables(), Call(q, store), a, after.0, after.1);
      FreshRow(receipts, owners, q);
      hide AnswerOf, Complete, Prepare, Chained, Started, InsertedBy, ExecInBounds;
      ghost var db := Tables();
      var prepared := ReceiptPrepare(q);
      assert after == (receipts, prepared);
      if prepared.Rejected? {
        return Failure(prepared.code);
      }
      if prepared.Existing? {
        return Deduplicated(prepared.id);
      }
      var id := prepared.id;
      var task := receipts[id].task;
      ghost var x := InsertedBy(Call(q, store), task, id);
      InsertedIsReady(Call(q, store), task, id);
      assert Tables() == db.(receipts := receipts);
      reply := Proceed(env, id, task, q.mutation && task.Some?, store, o, upstream, x);
    }

    /** What follows the prepare of a fresh receipt: checkpoint, call, shaping, finalize, checkpoint. */
    method Proceed(env: S.Env, id: nat, task: Option<nat>, noting: bool, store: bool, o: S.Options, upstream: Upstream,
                   ghost inserted: Exec)
      returns (reply: Reply)
      requires Chained(checkpoints) && id < |receipts| && !receipts[id].finished
      requires receipts[id].task == task && (task.Some? ==> task.value < owners.tasks)
      requires inserted.job.Call? && inserted.job.store == store && inserted.receipt == Some(id)
               && inserted.task == task
      requires inserted.pc == AfterInsert(inserted) && inserted.Noting() == noting
      modifies this`receipts, this`checkpoints, this`blobs
      ensures Chained(checkpoints)
      ensures var (db, x) := Complete(old(Tables()), inserted, AnswerOf(env, upstream, o));
              Tables() == db && x.pc == Done(reply)
    {
      hide AnswerOf, Complete, Chained, Latest, Statement, W.Fits, BlobsAfter, StopOf;
      ghost var a := AnswerOf(env, upstream, o);
      ghost var x := inserted;
      if noting {
        var refused := NoteBefore(task.value, id, a, x);
        if refused.Some? {
          CompleteOfDone(Tables(), x.At(Done(Failure(refused.value))), a);
          return Failure(refused.value);
        }
        x := x.At(Connect);
      }
      CompleteOfDelivery(Tables(), x, store, a);
      ghost var sent := Tables();
      var delivered, stop := Deliver(env, id, task, store, o, upstream);
      assert Tables() == sent.(blobs := BlobsAfter(sent.blobs, task, id, store, a));
      if delivered.None? {
        CompleteOfDone(Tables(), x.At(Done(stop)), a);
        return stop;
      }
      var ending := delivered.value;
      x := x.At(ReadReceipt(ending));
      CompleteOfFinish(Tables(), x, ending, a);
      var finalized := ReceiptFinalize(id, OutcomeOf(ending));
      x := x.At(AfterFinish(x, ending));
      if noting && !ending.ReplyNotShaped? {
        CompleteOfNote(Tables(), x, Afterwards(ending), a);
        var refused := CheckpointCreateEvent(task.value, EventOf(ending), id);
        assert refused.None?;
        x := x.At(Done(Answered(id, ending)));
      }
      CompleteOfDone(Tables(), x, a);
      return Answered(id, ending);
    }

    /** receiptPrepare: a receipt, and its mutation.before checkpoint, for a call made from outside. */
    method PrepareExternal(q: Request, ghost a: Answer) returns (reply: Reply)
      requires Chained(checkpoints)
      modifies this`receipts, this`checkpoints
      ensures Chained(checkpoints)
      ensures var (db, x) := Complete(old(Tables()), Started(PrepareOnly(q)), a);
              Tables() == db && x.pc == Done(reply)
    {
      ghost var after := Prepare(receipts, owners, q);
      CompleteOfPrepare(Tables(), PrepareOnly(q), a, after.0, after.1);
      FreshRow(receipts, owners, q);
      hide Complete, Prepare, Chained, Started, InsertedBy, ExecInBounds;
      ghost var db := Tables();
      var prepared := ReceiptPrepare(q);
      assert after == (receipts, prepared);
      if prepared.Rejected? {
        return Failure(prepared.code);
      }
      if prepared.Existing? {
        return Deduplicated(prepared.id);
      }
      var id := prepared.id;
      var task := receipts[id].task;
      ghost var x := InsertedBy(PrepareOnly(q), task, id);
      InsertedIsReady(PrepareOnly(q), task, id);
      assert Tables() == db.(receipts := receipts);
      if q.mutation && task.Some? {
        var refused := NoteBefore(task.value, id, a, x);
        if refused.Some? {
          CompleteOfDone(Tables(), x.At(Done(Failure(refused.value))), a);
          return Failure(refused.value);
        }
        x := x.At(Done(Ready(id)));
      }
      CompleteOfDone(Tables(), x, a);
      return Ready(id);
    }

    /** receiptFinalize: an outcome reported from outside, and its checkpoint, if it can be written. */
    method FinalizeExternal(id: nat, outcome: Outcome, ghost a: Answer) returns (reply: Reply)
      requires Chained(checkpoints)
      modifies this`receipts, this`checkpoints
      ensures Chained(checkpoints)
      ensures var (db, x) := Complete(old(Tables()), Started(FinalizeOnly(id, outcome)), a);
              Tables() == db && x.pc == Done(reply)
    {
      hide Complete, Chained, W.Fits, Latest, Statement;
      ghost var db, ending := Tables(), External(outcome);
      CompleteOfLoad(db, id, outcome, a);
      if id >= |receipts| {
        return Failure(NotFound);
      }
      var before := receipts[id];
      ghost var x := Loaded(db, id, outcome);
      CompleteOfExternal(db, x, a);
      var finalized := ReceiptFinalize(id, outcome);
      if finalized.Rejected? {
        return Failure(finalized.code);
      }
      assert Tables() == db.(receipts := receipts);
      x := x.At(AfterFinish(x, ending));
      assert Complete(db, Started(FinalizeOnly(id, outcome)), a) == Complete(Tables(), x, a);
      if before.mutation && before.task.Some? {
        assert x.pc == ReadSteps(Afterwards(ending));
        var event := if outcome.delivery.Unknown? then EventType.DeliveryUnknown else MutationAfter;
        if before.task.value >= owners.tasks || !Tables().Fits(before.task.value) {
          CompleteOfIgnoredNote(Tables(), x, ending, a);
        } else {
          CompleteOfNote(Tables(), x, Afterwards(ending), a);
        }
        ghost var finished := Tables();
        var refused := CheckpointCreateEvent(before.task.value, event, id);
        assert refused.Some? ==> Tables() == finished;
        x := x.At(Done(Answered(id, ending)));
        assert Complete(db, Started(FinalizeOnly(id, outcome)), a) == Complete(Tables(), x, a);
      }
      CompleteOfDone(Tables(), x, a);
      return Answered(id, External(outcome));
    }

    /** The mutation.before checkpoint, without which nothing is sent. */
    method NoteBefore(task: nat, id: nat, ghost a: Answer, ghost x: Exec) returns (refused: Option<Code>)
      requires Chained(checkpoints) && task < owners.tasks
      requires x.pc == ReadSteps(Before) && x.task == Some(task) && x.receipt == Some(id) && Asks(x.job)
      requires ExecInBounds(Tables(), x)
      modifies this`checkpoints
      ensures Chained(checkpoints) && (refused.None? <==> Tables().Fits(task))
      ensures Complete(old(Tables()), x, a) ==
              Complete(Tables(), x.At(if refused.Some? then Done(Failure(refused.value))
                                      else if x.job.Call? then Connect else Done(Ready(id))), a)
    {
      hide Complete, Statement, W.Fits, Latest, Chained;
      if Tables().Fits(task) {
        CompleteOfNote(Tables(), x, Before, a);
      } else {
        CompleteOfRefusedNote(Tables(), x, Before, a);
      }
      ghost var db := Tables();
      refused := CheckpointCreateEvent(task, MutationBefore, id);
      assert refused.Some? ==> Tables() == db;
    }
  }

  lemma InsertedIsReady(job: Job, task: Option<nat>, id: nat)
    requires Asks(job)
    ensures var x := InsertedBy(job, task, id);
            && x.job == job && x.receipt == Some(id) && x.task == task
            && x.pc == AfterInsert(x) && x.Noting() == (job.request.mutation && task.Some?)
  {}

  lemma CompleteOfDone(db: Db, x: Exec, a: Answer)
    requires ExecInBounds(db, x) && x.pc.Done?
    ensures Complete(db, x, a) == (db, x)
  {}

  /** A fresh receipt is open and belongs to a known task, if to any. */
  lemma FreshRow(table: seq<Receipt>, owners: Owners, q: Request)
    ensures var (after, verdict) := Prepare(table, owners, q);
            if !verdict.Fresh? then after == table
            else
              && verdict.id == |table| && |after| == |table| + 1
              && !after[verdict.id].finished
              && (after[verdict.id].task.Some? ==> after[verdict.id].task.value < owners.tasks)
  {
    hide TrimSpace, FindOperation, Request.Owner, Request.Fault, Request.Operation;
    var owner := q.Owner(owners);
    assert owner.Owned? && owner.task.Some? ==> owner.task.value < owners.tasks;
  }
}
