/**
 The no-replay protocol as a step machine: accelerator/runtime.go (executeResolved,
 receiptPrepare, receiptFinalize) over the tables of work/receipts.go and work/checkpoints.go.

 Any number of executions run at once. One action lets one execution issue one database
 statement or take one step of an upstream call; a crash ends every execution and leaves the
 tables. Lookups of rows that are never deleted are merged with the statement that follows.
 */
module Protocol {
  import opened Text
  import opened Json
  import opened Receipts
  import opened Checkpoints
  import W = Work

  const MAX_STORED_RESULT := 1_000_000

  // ---------- Jobs and their program points ----------

  datatype EventType = MutationBefore | MutationAfter | FailedBeforeDelivery | DeliveryUnknown | OtherEvent

  /** What a protocol checkpoint records besides its place in the chain. */
  datatype Note = Note(event: EventType, receipt: Option<nat>)

  /** How a call ended before it was finalized; External is an outcome reported from outside. */
  datatype Ending =
    | NeverSent
    | NoReply
    | ReplyNotShaped
    | ReplyShown(value: Json, truncated: bool, ref: Option<nat>)
    | External(reported: Outcome)

  function OutcomeOf(ending: Ending): Outcome {
    match ending
    case NeverSent => Outcome(Prepared, Failed, None)
    case NoReply => Outcome(Unknown, Uncertain, None)
    case ReplyNotShaped => Outcome(Confirmed, Returned, None)
    case ReplyShown(_, _, ref) => Outcome(Confirmed, Returned, ref)
    case External(reported) => reported
  }

  function EventOf(ending: Ending): EventType {
    match ending
    case NeverSent => FailedBeforeDelivery
    case NoReply => EventType.DeliveryUnknown
    case External(reported) => if reported.delivery == Unknown then EventType.DeliveryUnknown else MutationAfter
    case _ => MutationAfter
  }

  /** Why an execution writes a checkpoint. */
  datatype Point = Before | Afterwards(ending: Ending) | Plain

  datatype Job =
    | Call(request: Request, store: bool) // mcp.call, or one slot of mcp.batch
    | PrepareOnly(request: Request) // receipt.prepare
    | FinalizeOnly(receipt: nat, outcome: Outcome) // receipt.finalize
    | Record(task: nat) // any other checkpoint writer

  datatype Reply =
    | Failure(code: Code)
    | Deduplicated(receipt: nat)
    | Ready(receipt: nat)
    | Answered(receipt: nat, ending: Ending)
    | Panicked(receipt: nat) // no reply: shaping panicked, and nothing on the way recovers
    | Recorded

  datatype Pc =
    | Lookup | Resolve | Insert
    | ReadSteps(point: Point) | ReadChain(point: Point) | ExtendChain(point: Point, latest: Option<nat>)
    | Connect | Await | Store(value: Json, truncated: bool)
    | Load | ReadReceipt(ending: Ending) | WriteReceipt(ending: Ending)
    | Done(reply: Reply)

  datatype Exec = Exec(job: Job, mutation: bool, task: Option<nat>, receipt: Option<nat>, pc: Pc, alive: bool) {
    /** Checkpoints are written only around mutations that belong to a task. */
    predicate Noting() {
      mutation && task.Some?
    }

    function At(pc': Pc): Exec {
      this.(pc := pc')
    }
  }

  // ---------- Shared state ----------

  /** A stored result, with the encoding of its content. */
  datatype Blob = Blob(task: Option<nat>, receipt: nat, content: string)

  /** `statuses` are the steps' statuses; a checkpoint records them and is refused when they do not fit. */
  datatype Db = Db(
    owners: Owners, statuses: seq<W.StepStatus>, receipts: seq<Receipt>, checkpoints: seq<Checkpoint<Note>>,
    blobs: seq<Blob>)
  {
    /** The step columns of a checkpoint of the task are within their bound. */
    predicate Fits(task: nat) {
      W.Fits(owners.steps, statuses, task)
    }
  }

  datatype Kind = Inserted | Noted(event: EventType) | Sent | Replied | Lost | Unreached | Finished(outcome: Outcome)

  /** One entry of the history: what an execution did, and for which receipt. */
  datatype Event = Event(exec: nat, receipt: nat, kind: Kind)

  /** `authors` remembers which execution inserted each receipt. */
  datatype State = State(db: Db, execs: seq<Exec>, log: seq<Event>, authors: seq<nat>)

  /** What the world answers when asked: the upstream, what the options make of its reply, and that reply encoded. */
  datatype Upstream = NotConnected | Silent | Answers(value: Json)

  datatype Shaping = Unshapable | Panics | Whole(shown: Json) | Cut(preview: Json)

  datatype Answer = Answer(upstream: Upstream, shaping: Shaping, content: string) {
    /** The result store takes the reply. */
    predicate Storable() {
      |content| <= MAX_STORED_RESULT
    }
  }

  // ---------- One statement ----------

  datatype Write =
    | Nothing
    | AddReceipt(row: Receipt)
    | SetOutcome(receipt: nat, outcome: Outcome)
    | AddCheckpoint(link: Checkpoint<Note>)
    | AddBlob(blob: Blob)

  datatype Effect = Effect(exec: Exec, write: Write, kind: Option<Kind>)

  function Quietly(x: Exec): Effect {
    Effect(x, Nothing, None)
  }

  function Fail(x: Exec, code: Code): Effect {
    Quietly(x.At(Done(Failure(code))))
  }

  /** Where an execution goes once its receipt row is in the table. */
  function AfterInsert(x: Exec): Pc
    requires x.receipt.Some?
  {
    if x.Noting() then ReadSteps(Before)
    else if x.job.PrepareOnly? then Done(Ready(x.receipt.value))
    else Connect
  }

  function AfterNote(x: Exec, point: Point): Pc {
    match point
    case Before => if x.job.PrepareOnly? && x.receipt.Some? then Done(Ready(x.receipt.value)) else Connect
    case Afterwards(ending) => if x.receipt.Some? then Done(Answered(x.receipt.value, ending)) else Done(Recorded)
    case Plain => Done(Recorded)
  }

  /** A checkpoint that cannot be written is fatal before the call and after a shown reply only. */
  function NoteFailed(x: Exec, point: Point, code: Code): Pc {
    if point.Afterwards? && !point.ending.ReplyShown? then AfterNote(x, point) else Done(Failure(code))
  }

  function AfterFinish(x: Exec, ending: Ending): Pc {
    if x.Noting() && !ending.ReplyNotShaped? then ReadSteps(Afterwards(ending)) else AfterNote(x, Afterwards(ending))
  }

  function PointEvent(point: Point): EventType {
    match point
    case Before => MutationBefore
    case Afterwards(ending) => EventOf(ending)
    case Plain => OtherEvent
  }

  /** The next thing an execution does, given the tables as they are now. */
  function Statement(db: Db, x: Exec, a: Answer): Effect
    requires x.receipt.Some? ==> x.receipt.value < |db.receipts|
    requires x.pc.ExtendChain? && x.pc.latest.Some? ==> x.pc.latest.value < |db.checkpoints|
  {
    match x.pc
    case Lookup => LookupStatement(db, x)
    case Resolve =>
      if !x.job.Call? && !x.job.PrepareOnly? then Fail(x, InvalidInput)
      else
        (match x.job.request.Owner(db.owners)
         case Unowned(code) => Fail(x, code)
         case Owned(task) => Quietly(x.(task := task, pc := Insert)))
    case Insert => InsertStatement(db, x)
    case ReadSteps(point) =>
      if x.task.None? || x.task.value >= db.owners.tasks then Quietly(x.At(NoteFailed(x, point, NotFound)))
      else if !db.Fits(x.task.value) then Quietly(x.At(NoteFailed(x, point, InvalidInput)))
      else Quietly(x.At(ReadChain(point)))
    case ReadChain(point) =>
      if x.task.None? then Fail(x, NotFound)
      else Quietly(x.At(ExtendChain(point, Latest(db.checkpoints, x.task.value))))
    case ExtendChain(point, latest) =>
      if x.task.None? then Fail(x, NotFound)
      else
        var row := Successor(db.checkpoints, x.task.value, latest, Note(PointEvent(point), x.receipt));
        if Duplicate(db.checkpoints, row) then Quietly(x.At(NoteFailed(x, point, ConstraintFailed)))
        else Effect(x.At(AfterNote(x, point)), AddCheckpoint(row), Some(Noted(PointEvent(point))))
    case Connect =>
      if a.upstream.NotConnected? then Effect(x.At(ReadReceipt(NeverSent)), Nothing, Some(Unreached))
      else Effect(x.At(Await), Nothing, Some(Sent))
    case Await => AwaitStep(x, a)
    case Store(value, truncated) =>
      if a.Storable() && x.receipt.Some? then
        Effect(x.At(ReadReceipt(ReplyShown(value, truncated, Some(|db.blobs|)))),
               AddBlob(Blob(x.task, x.receipt.value, a.content)), None)
      else Fail(x, ResultTooLarge)
    case Load =>
      if !x.job.FinalizeOnly? || x.job.receipt >= |db.receipts| then Fail(x, NotFound)
      else
        var row := db.receipts[x.job.receipt];
        Quietly(Exec(x.job, row.mutation, row.task, Some(x.job.receipt), ReadReceipt(External(x.job.outcome)), x.alive))
    case ReadReceipt(ending) => ReadReceiptStatement(db, x, ending)
    case WriteReceipt(ending) =>
      if x.receipt.None? then Fail(x, NotFound)
      else
        Effect(x.At(AfterFinish(x, ending)), SetOutcome(x.receipt.value, OutcomeOf(ending)),
               Some(Finished(OutcomeOf(ending))))
    case Done(_) => Quietly(x)
  }

  function LookupStatement(db: Db, x: Exec): Effect {
    if !x.job.Call? && !x.job.PrepareOnly? then Fail(x, InvalidInput)
    else
      match FindOperation(db.receipts, x.job.request.Operation())
      case Some(id) =>
        if x.job.request.Matches(db.receipts[id]) then Quietly(x.At(Done(Deduplicated(id))))
        else Fail(x, IdempotencyConflict)
      case None => Quietly(x.At(Resolve))
  }

  /** UNIQUE(operation_id) decides between executions that looked the same id up in vain. */
  function InsertStatement(db: Db, x: Exec): Effect {
    if !x.job.Call? && !x.job.PrepareOnly? then Fail(x, InvalidInput)
    else if FindOperation(db.receipts, x.job.request.Operation()).Some? then Fail(x, ConstraintFailed)
    else
      var y := x.(receipt := Some(|db.receipts|));
      Effect(y.At(AfterInsert(y)), AddReceipt(x.job.request.Row(x.task)), Some(Inserted))
  }

  function AwaitStep(x: Exec, a: Answer): Effect {
    if !a.upstream.Answers? then Effect(x.At(ReadReceipt(NoReply)), Nothing, Some(Lost))
    else
      var next :=
        match a.shaping
        case Unshapable => ReadReceipt(ReplyNotShaped)
        case Panics => if x.receipt.Some? then Done(Panicked(x.receipt.value)) else Done(Failure(NotFound))
        case Whole(shown) =>
          if x.job.Call? && x.job.store then Store(shown, false) else ReadReceipt(ReplyShown(shown, false, None))
        case Cut(preview) => Store(preview, true);
      Effect(x.At(next), Nothing, Some(Replied))
  }

  /** ReceiptFinalize looks before it writes, in two statements and no transaction. */
  function ReadReceiptStatement(db: Db, x: Exec, ending: Ending): Effect
    requires x.receipt.Some? ==> x.receipt.value < |db.receipts|
  {
    if x.receipt.None? then Fail(x, NotFound)
    else
      var row := db.receipts[x.receipt.value];
      if !row.finished then Quietly(x.At(WriteReceipt(ending)))
      else if row.outcome == OutcomeOf(ending) then
        Effect(x.At(AfterFinish(x, ending)), Nothing, Some(Finished(OutcomeOf(ending))))
      else if ending.ReplyNotShaped? then Quietly(x.At(Done(Answered(x.receipt.value, ending))))
      else Fail(x, ReceiptFinalized)
  }

  // ---------- One action of the whole system ----------

  function Stored(db: Db, w: Write): Db {
    match w
    case Nothing => db
    case AddReceipt(row) => db.(receipts := db.receipts + [row])
    case SetOutcome(id, outcome) =>
      if id < |db.receipts|
      then db.(receipts := db.receipts[id := db.receipts[id].(outcome := outcome, finished := true)])
      else db
    case AddCheckpoint(link) => db.(checkpoints := db.checkpoints + [link])
    case AddBlob(blob) => db.(blobs := db.blobs + [blob])
  }

  function Commit(s: State, e: nat, eff: Effect): State
    requires e < |s.execs|
  {
    State(
      Stored(s.db, eff.write),
      s.execs[e := eff.exec],
      if eff.kind.Some? && eff.exec.receipt.Some?
      then s.log + [Event(e, eff.exec.receipt.value, eff.kind.value)] else s.log,
      if eff.write.AddReceipt? then s.authors + [e] else s.authors)
  }

  datatype Action =
    | Start(job: Job) | Step(exec: nat, answer: Answer) | Crash
    | NewTask | NewStep(task: nat) | SetStatus(step: nat, status: W.StepStatus)

  function Started(job: Job): Exec {
    match job
    case Call(request, _) => Begin(job, request)
    case PrepareOnly(request) => Begin(job, request)
    case FinalizeOnly(_, _) => Exec(job, false, None, None, Load, true)
    case Record(task) => Exec(job, false, Some(task), None, ReadSteps(Plain), true)
  }

  function Begin(job: Job, q: Request): Exec {
    Exec(job, q.mutation, None, None, if q.Fault().Some? then Done(Failure(q.Fault().value)) else Lookup, true)
  }

  /** References an execution holds point into the tables; true of every reachable state. */
  predicate InBounds(s: State) {
    forall e :: 0 <= e < |s.execs| ==> ExecInBounds(s.db, s.execs[e])
  }

  predicate ExecInBounds(db: Db, x: Exec) {
    && (x.receipt.Some? ==> x.receipt.value < |db.receipts|)
    && (x.pc.ExtendChain? && x.pc.latest.Some? ==> x.pc.latest.value < |db.checkpoints|)
  }

  function Next(s: State, act: Action): State
    requires InBounds(s)
  {
    match act
    case Start(job) => s.(execs := s.execs + [Started(job)])
    case Step(e, a) =>
      if e < |s.execs| && s.execs[e].alive then Commit(s, e, Statement(s.db, s.execs[e], a)) else s
    case Crash => s.(execs := seq(|s.execs|, e requires 0 <= e < |s.execs| => s.execs[e].(alive := false)))
    case NewTask => s.(db := s.db.(owners := s.db.owners.(tasks := s.db.owners.tasks + 1)))
    case NewStep(task) =>
      if task < s.db.owners.tasks
      then s.(db := s.db.(owners := s.db.owners.(steps := s.db.owners.steps + [task]),
                          statuses := s.db.statuses + [W.StepStatus.Todo])) else s
    case SetStatus(step, status) =>
      if step < |s.db.statuses| then s.(db := s.db.(statuses := s.db.statuses[step := status])) else s
  }

  lemma NextStaysInBounds(s: State, act: Action)
    requires InBounds(s)
    ensures InBounds(Next(s, act))
  {
    hide TrimSpace, Latest, FindOperation;
    if act.Step? && act.exec < |s.execs| && s.execs[act.exec].alive {
      StatementStaysInBounds(s.db, s.execs[act.exec], act.answer);
    }
  }

  lemma StatementStaysInBounds(db: Db, x: Exec, a: Answer)
    requires ExecInBounds(db, x)
    ensures var eff := Statement(db, x, a);
            && ExecInBounds(Stored(db, eff.write), eff.exec)
            && |db.receipts| <= |Stored(db, eff.write).receipts|
            && |db.checkpoints| <= |Stored(db, eff.write).checkpoints|
  {
    hide TrimSpace, FindOperation, Latest, Duplicate, Db.Fits, Request.Owner, Request.Row, Request.Operation,
         Request.Matches;
  }

  /** The state after a run of actions. */
  function Run(s: State, actions: seq<Action>): (r: State)
    requires InBounds(s)
    ensures InBounds(r)
    decreases |actions|
  {
    if actions == [] then s
    else
      var n := |actions| - 1;
      var before := Run(s, actions[..n]);
      NextStaysInBounds(before, actions[n]);
      Next(before, actions[n])
  }

  const EMPTY := State(Db(Owners(0, []), [], [], [], []), [], [], [])

  /** The state after a history, from empty tables. */
  function Reached(actions: seq<Action>): (s: State)
    ensures InBounds(s)
  {
    Run(EMPTY, actions)
  }

  lemma RunByOneMore(s: State, actions: seq<Action>, act: Action)
    requires InBounds(s)
    ensures Run(s, actions + [act]) == Next(Run(s, actions), act)
  {
    hide Next;
    assert (actions + [act])[..|actions|] == actions;
  }

  /** A run is its first part and then the rest. */
  lemma {:induction false} RunInTwo(s: State, actions: seq<Action>, k: nat)
    requires InBounds(s) && k <= |actions|
    ensures Run(s, actions) == Run(Run(s, actions[..k]), actions[k..])
    decreases |actions|
  {
    hide Next;
    var n := |actions| - 1;
    if k == |actions| {
      assert actions[..k] == actions && actions[k..] == [];
    } else {
      RunInTwo(s, actions[..n], k);
      assert actions[..n][..k] == actions[..k];
      assert actions[k..][..n - k] == actions[..n][k..] && actions[k..][n - k] == actions[n];
    }
  }

  /** Some run of actions leads from one state to the other. */
  ghost predicate Leads(s: State, t: State)
    requires InBounds(s)
  {
    exists run :: Run(s, run) == t
  }

  lemma LeadsOn(s: State, t: State, act: Action)
    requires InBounds(s) && InBounds(t) && Leads(s, t)
    ensures InBounds(Next(t, act)) && Leads(s, Next(t, act))
  {
    var run :| Run(s, run) == t;
    NextStaysInBounds(t, act);
    RunByOneMore(s, run, act);
    hide Run, Next;
    assert Run(s, run + [act]) == Next(t, act);
  }
}
