/** One execution from start to finish: that it ends, what it does alone, and what it answers. */
module Calls {
  import opened Text
  import opened Json
  import opened Receipts
  import opened Checkpoints
  import opened Protocol
  import opened ProtocolInvariants

  // ---------- Every execution ends ----------

  /** How many statements an execution has left at most. */
  function Rank(pc: Pc): nat {
    match pc
    case Lookup => 14
    case Resolve => 13
    case Insert => 12
    case ReadSteps(Before) => 11
    case ReadChain(Before) => 10
    case ExtendChain(Before, _) => 9
    case Connect => 8
    case Await => 7
    case Store(_, _) => 6
    case Load => 6
    case ReadReceipt(_) => 5
    case WriteReceipt(_) => 4
    case ReadSteps(_) => 3
    case ReadChain(_) => 2
    case ExtendChain(_, _) => 1
    case Done(_) => 0
  }

  /** Each statement of each execution brings it nearer to its end. */
  lemma StatementsRunOut(db: Db, x: Exec, a: Answer)
    requires ExecInBounds(db, x) && !x.pc.Done?
    ensures Rank(Statement(db, x, a).exec.pc) < Rank(x.pc)
  {
    hide TrimSpace, FindOperation, Latest, Duplicate, Db.Fits, Request.Owner, Request.Row, Request.Operation,
         Request.Matches;
  }

  /** The tables and the execution after it has run to its end without interruption. */
  function Complete(db: Db, x: Exec, a: Answer): (Db, Exec)
    requires ExecInBounds(db, x)
    decreases Rank(x.pc)
  {
    if x.pc.Done? then (db, x)
    else
      StatementsRunOut(db, x, a);
      StatementStaysInBounds(db, x, a);
      var eff := Statement(db, x, a);
      Complete(Stored(db, eff.write), eff.exec, a)
  }

  // ---------- What a call answers when no one interferes ----------

  /** A reply without the row numbers that depend on the schedule. */
  datatype View =
    | Failing(code: Code)
    | Ended(ending: Ending)
    | Aborting // the process goes down
    | NoAnswer

  function Anonymous(ending: Ending): Ending {
    match ending
    case ReplyShown(value, truncated, Some(_)) => ReplyShown(value, truncated, Some(0))
    case _ => ending
  }

  function ViewOf(reply: Reply): View {
    match reply
    case Failure(code) => Failing(code)
    case Answered(_, ending) => Ended(Anonymous(ending))
    case Panicked(_) => Aborting
    case _ => NoAnswer
  }

  function Kept(value: Json, truncated: bool, a: Answer): View {
    if a.Storable() then Ended(ReplyShown(value, truncated, Some(0))) else Failing(ResultTooLarge)
  }

  function OnceSent(store: bool, a: Answer): View {
    if !a.upstream.Answers? then Ended(NoReply)
    else
      match a.shaping
      case Unshapable => Ended(ReplyNotShaped)
      case Panics => Aborting
      case Whole(shown) => if store then Kept(shown, false, a) else Ended(ReplyShown(shown, false, None))
      case Cut(preview) => Kept(preview, true, a)
  }

  function Delivered(store: bool, a: Answer): View {
    if a.upstream.NotConnected? then Ended(NeverSent) else OnceSent(store, a)
  }

  function AfterLookup(owners: Owners, q: Request, store: bool, a: Answer): View {
    if q.Owner(owners).Unowned? then Failing(q.Owner(owners).code) else Delivered(store, a)
  }

  /** The answer a read-only call gets for a request nobody made before: a function of what was asked. */
  function Expected(owners: Owners, q: Request, store: bool, a: Answer): View {
    if q.Fault().Some? then Failing(q.Fault().value) else AfterLookup(owners, q, store, a)
  }

  /** The same prediction from the middle of a read-only call. */
  function Predicted(owners: Owners, x: Exec, a: Answer): View {
    if !x.job.Call? then NoAnswer
    else
      match x.pc
      case Lookup => AfterLookup(owners, x.job.request, x.job.store, a)
      case Resolve => AfterLookup(owners, x.job.request, x.job.store, a)
      case Insert => Delivered(x.job.store, a)
      case Connect => Delivered(x.job.store, a)
      case Await => OnceSent(x.job.store, a)
      case Store(value, truncated) => Kept(value, truncated, a)
      case ReadReceipt(ending) => Ended(Anonymous(ending))
      case WriteReceipt(ending) => Ended(Anonymous(ending))
      case Done(reply) => ViewOf(reply)
      case _ => NoAnswer
  }

  /** No receipt for the operation but the execution's own, and that one still open. */
  ghost predicate Undisturbed(db: Db, x: Exec)
    requires x.job.Call?
  {
    && (Early(x.pc) ==> FindOperation(db.receipts, x.job.request.Operation()).None?)
    && (x.pc.ReadReceipt? && x.receipt.Some? ==>
          x.receipt.value < |db.receipts| && !db.receipts[x.receipt.value].finished)
  }

  /** A step of an undisturbed read-only call does not change what it is going to answer. */
  lemma PredictionStands(db: Db, x: Exec, a: Answer)
    requires ExecInBounds(db, x) && WellFormed(x) && x.job.Call? && !x.mutation
    requires Undisturbed(db, x)
    ensures var y := Statement(db, x, a).exec;
            Predicted(db.owners, y, a) == Predicted(db.owners, x, a)
  {
    hide TrimSpace, FindOperation, Latest, Duplicate, Db.Fits, Request.Owner, Request.Row, Request.Operation,
         Request.Matches;
  }
}
