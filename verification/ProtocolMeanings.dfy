/**
 What the rows and replies of the protocol mean, over every interleaving: the events of checkpoints, what
 receipts record, where result references lead, and what a caller may conclude from a reply.
 */
module ProtocolMeanings {
  import opened Text
  import opened Receipts
  import opened Checkpoints
  import opened Protocol
  import opened ProtocolInvariants
  import opened ProtocolFates
  import opened ProtocolSafety

  // ---------- What an outcome checkpoint says ----------

  /** The event of an outcome checkpoint, told by what had happened to the call. */
  predicate EventTells(k: EventType, sent: bool, replied: bool) {
    && (k.FailedBeforeDelivery? <==> !k.MutationBefore? && !sent)
    && (k.DeliveryUnknown? <==> !k.MutationBefore? && sent && !replied)
    && (k.MutationAfter? <==> !k.MutationBefore? && replied)
    && (replied ==> sent)
  }

  /** In a whole or partial script, a checkpoint that is not the first one comes last and tells the ending. */
  lemma NotedHistory(kinds: seq<Kind>, noting: bool, ending: Ending, k: EventType)
    requires !ending.External? && kinds <= Script(noting, ending) && Noted(k) in kinds && !k.MutationBefore?
    ensures EventTells(k, Sent in kinds, Replied in kinds)
  {
    var p :| 0 <= p < |kinds| && kinds[p] == Noted(k);
    var before := Opening(noting) + Delivering(ending);
    assert Script(noting, ending)[p] == Noted(k);
    assert p == |Script(noting, ending)| - 1;
    assert kinds == Script(noting, ending);
    assert forall x :: x in before ==> x in kinds;
    assert forall x :: x in kinds ==> x in before || x in Closing(noting, ending);
    assert ending.NeverSent? ==> Sent !in before;
  }

  /**
   Every checkpoint a call writes tells the truth: failed before delivery exactly when nothing was sent,
   delivery unknown exactly when it was sent and no reply came, after exactly when a reply came.
   */
  lemma EventsTellWhatHappened(actions: seq<Action>, i: nat)
    requires var s := Reached(actions); i < |s.log| && s.log[i].kind.Noted?
    requires var s := Reached(actions); s.log[i].exec < |s.execs| && s.execs[s.log[i].exec].job.Call?
    ensures var s := Reached(actions);
            var e, k := s.log[i].exec, s.log[i].kind.event;
            && (k.FailedBeforeDelivery? <==> !k.MutationBefore? && !Happened(s.log, e, Sent))
            && (k.DeliveryUnknown? <==>
                !k.MutationBefore? && Happened(s.log, e, Sent) && !Happened(s.log, e, Replied))
            && (k.MutationAfter? <==> !k.MutationBefore? && Happened(s.log, e, Replied))
  {
    ReachableStatesKeepInv(actions);
    var s := Reached(actions);
    var e, k := s.log[i].exec, s.log[i].kind.event;
    var kinds := Kinds(s.log, e);
    assert Sound(s.execs[e], kinds);
    RunningCallFollows(s.execs[e], kinds);
    KindAt(s.log, i);
    HappenedIffInKinds(s.log, e, Sent);
    HappenedIffInKinds(s.log, e, Replied);
    hide Kinds, Script, Sound, Inv, Happened, Reached;
    if !k.MutationBefore? {
      var ending: Ending :| !ending.External? && kinds <= Script(s.execs[e].Noting(), ending);
      NotedHistory(kinds, s.execs[e].Noting(), ending, k);
    }
  }

  /** The event fits the job of the execution that noted it. */
  predicate EventFits(job: Job, k: EventType) {
    match job
    case Call(_, _) => true
    case PrepareOnly(_) => k.MutationBefore?
    case FinalizeOnly(_, outcome) => if outcome.delivery.Unknown? then k.DeliveryUnknown? else k.MutationAfter?
    case Record(_) => k.OtherEvent?
  }

  lemma StatementNotesFittingEvent(db: Db, x: Exec, a: Answer)
    requires ExecInBounds(db, x) && WellFormed(x)
    ensures var eff := Statement(db, x, a); eff.kind.Some? && eff.kind.value.Noted? ==>
            EventFits(x.job, eff.kind.value.event)
  {
    StatementExtendsReading(db, x, a);
    if x.pc.ExtendChain? {
      hide TrimSpace, FindOperation, Latest, Duplicate, Db.Fits, Successor;
    } else {
      hide Statement, WellFormed;
    }
  }

  // ---------- What an execution knows ----------

  /** Later tables: rows stay bound, results and steps stay where they are, tasks only come. */
  ghost predicate Extends(db: Db, db': Db) {
    && db.owners.tasks <= db'.owners.tasks && db.owners.steps <= db'.owners.steps && db.blobs <= db'.blobs
    && |db.receipts| <= |db'.receipts|
    && forall id :: 0 <= id < |db.receipts| ==> SameBinding(db.receipts[id], db'.receipts[id])
  }

  lemma NextExtends(s: State, act: Action)
    requires InBounds(s)
    ensures Extends(s.db, Next(s, act).db)
  {
    hide Statement, Started, InBounds;
  }

  /** A request that has been resolved is held with its step's task, or without a step with its own. */
  ghost predicate KnowsOwner(db: Db, x: Exec) {
    Preparing(x) && (x.pc.Insert? || x.receipt.Some?) ==>
      && (x.job.request.step.Some? ==> x.job.request.step.value < |db.owners.steps|)
      && x.task == TaskOf(x.job.request, db.owners)
  }

  /** A finalizer knows whether its receipt is a mutation, and of which task. */
  ghost predicate KnowsReceipt(db: Db, x: Exec) {
    x.job.FinalizeOnly? && x.receipt.Some? ==>
      && x.receipt.value < |db.receipts|
      && x.mutation == db.receipts[x.receipt.value].mutation && x.task == db.receipts[x.receipt.value].task
  }

  /** The result a shown reply refers to is the call's own; there is one if it is asked for or the reply is cut. */
  ghost predicate RefersToOwn(db: Db, x: Exec, ending: Ending) {
    ending.ReplyShown? && x.job.Call? ==>
      && (ending.ref.Some? <==> ending.truncated || x.job.store)
      && (ending.ref.Some? ==>
            && x.receipt.Some? && ending.ref.value < |db.blobs|
            && db.blobs[ending.ref.value].receipt == x.receipt.value)
  }

  /** The ending an execution is finalizing with, noting or answering. */
  function EndingAt(pc: Pc): Option<Ending> {
    match pc
    case ReadReceipt(ending) => Some(ending)
    case WriteReceipt(ending) => Some(ending)
    case ReadSteps(Afterwards(ending)) => Some(ending)
    case ReadChain(Afterwards(ending)) => Some(ending)
    case ExtendChain(Afterwards(ending), _) => Some(ending)
    case Done(Answered(_, ending)) => Some(ending)
    case _ => None
  }

  ghost predicate KnowsResult(db: Db, x: Exec) {
    && (x.pc.Store? && x.job.Call? ==> x.pc.truncated || x.job.store)
    && (EndingAt(x.pc).Some? ==> RefersToOwn(db, x, EndingAt(x.pc).value))
  }

  /** A call answered from an existing receipt was answered from one for the same operation, tool and arguments. */
  ghost predicate KnowsFirst(db: Db, x: Exec) {
    Preparing(x) && x.pc.Done? && x.pc.reply.Deduplicated? ==>
      && x.pc.reply.receipt < |db.receipts|
      && var row := db.receipts[x.pc.reply.receipt];
         row.operation == x.job.request.Operation() && row.tool == x.job.request.tool
         && row.arguments == x.job.request.arguments
  }

  ghost predicate Knows(db: Db, x: Exec) {
    KnowsOwner(db, x) && KnowsReceipt(db, x) && KnowsResult(db, x) && KnowsFirst(db, x)
  }

  lemma KnowledgeStays(db: Db, db': Db, x: Exec)
    requires Knows(db, x) && Extends(db, db')
    ensures Knows(db', x)
  {
    hide TrimSpace, Request.Operation, EndingAt;
    if x.receipt.Some? && x.receipt.value < |db.receipts| {
      assert SameBinding(db.receipts[x.receipt.value], db'.receipts[x.receipt.value]);
    }
    if Preparing(x) && x.pc.Done? && x.pc.reply.Deduplicated? {
      assert SameBinding(db.receipts[x.pc.reply.receipt], db'.receipts[x.pc.reply.receipt]);
    }
  }

  lemma ResolveKnowsOwner(db: Db, x: Exec, a: Answer)
    requires ExecInBounds(db, x) && x.receipt.None? && Preparing(x) && x.pc.Resolve?
    ensures KnowsOwner(db, Statement(db, x, a).exec)
  {
    var q := x.job.request;
    if q.Owner(db.owners).Owned? {
      OwnedMeansTaskOf(q, db.owners);
      assert Statement(db, x, a).exec == x.(task := q.Owner(db.owners).task, pc := Insert) by { hide Request.Owner; }
    } else {
      assert Statement(db, x, a).exec == x.At(Done(Failure(q.Owner(db.owners).code))) by { hide Request.Owner; }
    }
    hide Statement, Request.Owner, TaskOf;
  }

  lemma LookupKnowsNothing(db: Db, x: Exec, a: Answer)
    requires ExecInBounds(db, x) && x.receipt.None? && (x.pc.Lookup? || x.pc.Done?)
    ensures var y := Statement(db, x, a).exec; y.receipt.None? && !y.pc.Insert?
  {
    hide TrimSpace, FindOperation, Request.Operation, Request.Matches;
  }

  lemma InsertKnowsOwner(db: Db, x: Exec, a: Answer)
    requires ExecInBounds(db, x) && x.pc.Insert?
    ensures var y := Statement(db, x, a).exec; y.job == x.job && y.task == x.task
  {
    hide TrimSpace, FindOperation, Request.Operation, Request.Row;
  }

  lemma EarlyStatementKnowsOwner(db: Db, x: Exec, a: Answer)
    requires ExecInBounds(db, x) && KnowsOwner(db, x) && Preparing(x) && x.receipt.None? && (Early(x.pc) || x.pc.Done?)
    ensures KnowsOwner(db, Statement(db, x, a).exec)
  {
    hide Statement, TaskOf;
    if x.pc.Resolve? {
      ResolveKnowsOwner(db, x, a);
    } else if x.pc.Insert? {
      InsertKnowsOwner(db, x, a);
    } else {
      LookupKnowsNothing(db, x, a);
    }
  }

  lemma StatementKeepsOwners(db: Db, x: Exec, a: Answer)
    requires ExecInBounds(db, x)
    ensures Stored(db, Statement(db, x, a).write).owners == db.owners
  {
    hide Statement;
  }

  lemma StatementKnowsOwner(db: Db, x: Exec, a: Answer)
    requires ExecInBounds(db, x) && WellFormed(x) && KnowsOwner(db, x)
    ensures var eff := Statement(db, x, a); KnowsOwner(Stored(db, eff.write), eff.exec)
  {
    StatementKeepsIdentity(db, x, a);
    StatementKeepsOwners(db, x, a);
    assert Preparing(x) && x.receipt.None? ==> Early(x.pc) || x.pc.Done?;
    hide Statement, Stored, WellFormed, TaskOf, FindOperation, Request.Row;
    if Preparing(x) && x.receipt.None? {
      EarlyStatementKnowsOwner(db, x, a);
    }
  }

  lemma StatementKnowsReceipt(db: Db, x: Exec, a: Answer)
    requires ExecInBounds(db, x) && WellFormed(x) && KnowsReceipt(db, x)
    ensures var eff := Statement(db, x, a); KnowsReceipt(Stored(db, eff.write), eff.exec)
  {
    StatementKeepsIdentity(db, x, a);
    hide TrimSpace, FindOperation, Latest, Duplicate, Db.Fits, Request.Owner, Request.Row, Request.Operation,
         Request.Matches;
  }

  lemma DeliveringKnowsResult(db: Db, x: Exec, a: Answer)
    requires ExecInBounds(db, x) && WellFormed(x) && KnowsResult(db, x) && (x.pc.Connect? || x.pc.Await? || x.pc.Store?)
    ensures var eff := Statement(db, x, a); KnowsResult(Stored(db, eff.write), eff.exec)
  {
    hide LookupStatement, InsertStatement, ReadReceiptStatement, Latest, Duplicate, Successor, Db.Fits;
  }

  lemma NotingKnowsResult(db: Db, x: Exec, a: Answer)
    requires ExecInBounds(db, x) && WellFormed(x) && KnowsResult(db, x) && AtNote(x.pc)
    ensures var eff := Statement(db, x, a); KnowsResult(Stored(db, eff.write), eff.exec)
  {
    hide LookupStatement, InsertStatement, ReadReceiptStatement, AwaitStep, Latest, Duplicate, Successor, Db.Fits;
  }

  lemma OtherKnowsResult(db: Db, x: Exec, a: Answer)
    requires ExecInBounds(db, x) && WellFormed(x) && KnowsResult(db, x)
    requires !AtNote(x.pc) && !x.pc.Connect? && !x.pc.Await? && !x.pc.Store?
    ensures var eff := Statement(db, x, a); KnowsResult(Stored(db, eff.write), eff.exec)
  {
    hide AwaitStep, Latest, Duplicate, Successor, Db.Fits, TrimSpace, FindOperation, Request.Owner, Request.Row,
         Request.Operation, Request.Matches;
  }

  lemma StatementKnowsResult(db: Db, x: Exec, a: Answer)
    requires ExecInBounds(db, x) && WellFormed(x) && KnowsResult(db, x)
    ensures var eff := Statement(db, x, a); KnowsResult(Stored(db, eff.write), eff.exec)
  {
    hide *;
    if AtNote(x.pc) {
      NotingKnowsResult(db, x, a);
    } else if x.pc.Connect? || x.pc.Await? || x.pc.Store? {
      DeliveringKnowsResult(db, x, a);
    } else {
      OtherKnowsResult(db, x, a);
    }
  }

  lemma StatementKnowsFirst(db: Db, x: Exec, a: Answer)
    requires ExecInBounds(db, x) && WellFormed(x) && KnowsFirst(db, x)
    ensures var eff := Statement(db, x, a); KnowsFirst(Stored(db, eff.write), eff.exec)
  {
    hide TrimSpace, FindOperation, Latest, Duplicate, Db.Fits, Request.Owner, Request.Row, Request.Operation, Successor;
  }

  // ---------- What a reply accounts for ----------

  /** An error of writing a checkpoint. */
  predicate IsOfNote(code: Code) {
    code.InvalidInput? || code.ConstraintFailed? || code.NotFound?
  }

  /** The history behind the failure of a call. */
  ghost predicate FailureAccounted(x: Exec, code: Code, kinds: seq<Kind>) {
    var opening := Opening(x.Noting());
    if x.receipt.None? then kinds == []
    else
      || (kinds == [Inserted] && x.Noting() && IsOfNote(code))
      || (code.ResultTooLarge? && kinds == opening + [Sent, Replied])
      || (code.ReceiptFinalized? && exists ending: Ending ::
            !ending.External? && !ending.ReplyNotShaped? && kinds == opening + Delivering(ending))
      || (x.Noting() && IsOfNote(code) && exists outcome: Outcome ::
            outcome.delivery.Confirmed? && outcome.progress.Returned?
            && kinds == opening + [Sent, Replied, Finished(outcome)])
  }

  /** The history behind the reply of a call. */
  ghost predicate Accounted(x: Exec, reply: Reply, kinds: seq<Kind>) {
    var opening := Opening(x.Noting());
    match reply
    case Failure(code) => FailureAccounted(x, code, kinds)
    case Deduplicated(_) => x.receipt.None? && kinds == []
    case Panicked(id) => x.receipt == Some(id) && kinds == opening + [Sent, Replied]
    case Answered(id, ending) =>
      && x.receipt == Some(id) && !ending.External? && opening + Delivering(ending) <= kinds
      && kinds <= Script(x.Noting(), ending)
      && (ending.ReplyShown? ==> kinds == Script(x.Noting(), ending))
      && (!ending.ReplyNotShaped? ==> opening + Delivering(ending) + [Finished(OutcomeOf(ending))] <= kinds)
    case _ => false
  }

  lemma EarlyStatementAccounts(db: Db, x: Exec, a: Answer)
    requires ExecInBounds(db, x) && x.job.Call? && WellFormed(x) && Early(x.pc)
    ensures var eff := Statement(db, x, a);
            eff.exec.pc.Done? ==> Accounted(eff.exec, eff.exec.pc.reply, SoFar(x) + Appended(eff))
  {
    hide TrimSpace, FindOperation, Request.Owner, Request.Row, Request.Operation, Request.Matches;
  }

  lemma NotingAccounts(db: Db, x: Exec, a: Answer)
    requires ExecInBounds(db, x) && x.job.Call? && WellFormed(x) && AtNote(x.pc)
    ensures var eff := Statement(db, x, a);
            eff.exec.pc.Done? ==> Accounted(eff.exec, eff.exec.pc.reply, SoFar(x) + Appended(eff))
  {
    hide Latest, Duplicate, Successor, Db.Fits, LookupStatement, InsertStatement, ReadReceiptStatement, AwaitStep;
    var kinds := SoFar(x);
    assert kinds + [] == kinds;
    if x.pc.point.Afterwards? {
      var ending := x.pc.point.ending;
      assert kinds + [Noted(EventOf(ending))] == Script(true, ending);
      assert ending.ReplyShown? ==> kinds == Opening(true) + [Sent, Replied, Finished(OutcomeOf(ending))];
    }
  }

  lemma DeliveringAccounts(db: Db, x: Exec, a: Answer)
    requires ExecInBounds(db, x) && x.job.Call? && WellFormed(x) && (x.pc.Connect? || x.pc.Await? || x.pc.Store?)
    ensures var eff := Statement(db, x, a);
            eff.exec.pc.Done? ==> Accounted(eff.exec, eff.exec.pc.reply, SoFar(x) + Appended(eff))
  {
    hide Latest, Duplicate, Successor, Db.Fits, LookupStatement, InsertStatement, ReadReceiptStatement;
    var opening := Opening(x.Noting());
    assert opening + [Sent] + [Replied] == opening + [Sent, Replied];
    assert SoFar(x) + [] == SoFar(x);
  }

  lemma FinalizingAccounts(db: Db, x: Exec, a: Answer)
    requires ExecInBounds(db, x) && x.job.Call? && WellFormed(x) && (x.pc.ReadReceipt? || x.pc.WriteReceipt?)
    ensures var eff := Statement(db, x, a);
            eff.exec.pc.Done? ==> Accounted(eff.exec, eff.exec.pc.reply, SoFar(x) + Appended(eff))
  {
    hide Latest, Duplicate, Successor, Db.Fits, LookupStatement, InsertStatement, AwaitStep;
    var opening, ending := Opening(x.Noting()), x.pc.ending;
    assert SoFar(x) + [] == SoFar(x);
    assert SoFar(x) == opening + Delivering(ending);
    assert SoFar(x) + [Finished(OutcomeOf(ending))] <= Script(x.Noting(), ending);
    assert !x.Noting() || ending.ReplyNotShaped? ==>
           SoFar(x) + [Finished(OutcomeOf(ending))] == Script(x.Noting(), ending);
  }

  lemma StatementAccounts(db: Db, x: Exec, a: Answer)
    requires ExecInBounds(db, x) && x.job.Call? && WellFormed(x) && !x.pc.Done?
    ensures var eff := Statement(db, x, a);
            eff.exec.pc.Done? ==> Accounted(eff.exec, eff.exec.pc.reply, SoFar(x) + Appended(eff))
  {
    assert !x.pc.Load?;
    hide *;
    if Early(x.pc) {
      EarlyStatementAccounts(db, x, a);
    } else if AtNote(x.pc) {
      NotingAccounts(db, x, a);
    } else if x.pc.ReadReceipt? || x.pc.WriteReceipt? {
      FinalizingAccounts(db, x, a);
    } else {
      ProgramPoints(x.pc);
      DeliveringAccounts(db, x, a);
    }
  }

  lemma ProgramPoints(pc: Pc)
    ensures Early(pc) || AtNote(pc) || pc.ReadReceipt? || pc.WriteReceipt? || pc.Connect? || pc.Await? || pc.Store?
            || pc.Load? || pc.Done?
  {}

  // ---------- Over whole runs ----------

  ghost predicate ExecMeant(s: State, e: nat)
    requires e < |s.execs|
  {
    var x := s.execs[e];
    && Knows(s.db, x)
    && (x.job.Call? && x.pc.Done? ==> Accounted(x, x.pc.reply, Kinds(s.log, e)))
  }

  ghost predicate EntryMeant(s: State, ev: Event) {
    && ev.exec < |s.execs|
    && (ev.kind.Noted? ==> EventFits(s.execs[ev.exec].job, ev.kind.event))
    && (ev.kind.Finished? && s.execs[ev.exec].job.Call? && ev.kind.outcome.ref.Some? ==>
          && ev.kind.outcome.ref.value < |s.db.blobs|
          && s.db.blobs[ev.kind.outcome.ref.value].receipt == ev.receipt)
  }

  ghost predicate Meant(s: State) {
    && (forall e :: 0 <= e < |s.execs| ==> ExecMeant(s, e))
    && forall i :: 0 <= i < |s.log| ==> EntryMeant(s, s.log[i])
  }

  lemma StatementFinishesWithOwn(db: Db, x: Exec, a: Answer)
    requires ExecInBounds(db, x) && x.job.Call? && WellFormed(x) && KnowsResult(db, x)
    ensures var eff := Statement(db, x, a);
            eff.kind.Some? && eff.kind.value.Finished? && eff.kind.value.outcome.ref.Some? ==>
              && x.receipt.Some? && eff.kind.value.outcome.ref.value < |db.blobs|
              && db.blobs[eff.kind.value.outcome.ref.value].receipt == x.receipt.value
  {
    hide TrimSpace, FindOperation, Latest, Duplicate, Db.Fits, Request.Owner, Request.Row, Request.Operation,
         Request.Matches, Successor, NoteFailed;
  }

  lemma StatementKnows(db: Db, x: Exec, a: Answer)
    requires ExecInBounds(db, x) && WellFormed(x) && Knows(db, x)
    ensures var eff := Statement(db, x, a); Knows(Stored(db, eff.write), eff.exec)
  {
    hide Statement, Stored, WellFormed, KnowsOwner, KnowsReceipt, KnowsResult, KnowsFirst;
    StatementKnowsOwner(db, x, a);
    StatementKnowsReceipt(db, x, a);
    StatementKnowsResult(db, x, a);
    StatementKnowsFirst(db, x, a);
  }

  /** An execution that others leave alone keeps its meaning. */
  lemma OthersKeepExecMeant(s: State, act: Action, e: nat)
    requires InBounds(s) && e < |s.execs| && !(act.Step? && act.exec == e) && ExecMeant(s, e)
    ensures var s' := Next(s, act); e < |s'.execs| && ExecMeant(s', e)
  {
    OthersLeaveExec(s, act, e);
    NextExtends(s, act);
    hide Next, InBounds, Kinds, Knows, Extends, Accounted;
    var s' := Next(s, act);
    KnowledgeStays(s.db, s'.db, s.execs[e]);
    LifeMakesNoDifference(s'.db, s.execs[e], s'.execs[e].alive);
    if s.execs[e].job.Call? && s.execs[e].pc.Done? {
      AccountIgnoresCrashes(s.execs[e], s'.execs[e].alive, Kinds(s.log, e));
    }
  }

  lemma LifeMakesNoDifference(db: Db, x: Exec, alive: bool)
    requires Knows(db, x)
    ensures Knows(db, x.(alive := alive))
  {
    hide Request.Operation, TaskOf;
  }

  lemma AccountIgnoresCrashes(x: Exec, alive: bool, kinds: seq<Kind>)
    requires x.pc.Done? && Accounted(x, x.pc.reply, kinds)
    ensures Accounted(x.(alive := alive), x.pc.reply, kinds)
  {
    hide Script, Opening, Delivering;
  }

  /** The step of an execution keeps its own meaning. */
  lemma OwnStepKeepsExecMeant(s: State, e: nat, a: Answer)
    requires Inv(s) && e < |s.execs| && s.execs[e].alive && ExecMeant(s, e)
    ensures var s' := Next(s, Step(e, a)); e < |s'.execs| && ExecMeant(s', e)
  {
    var x, kinds := s.execs[e], Kinds(s.log, e);
    assert Sound(x, kinds) && ExecInBounds(s.db, x);
    var eff := Statement(s.db, x, a);
    assert Next(s, Step(e, a)) == Commit(s, e, eff);
    assert Commit(s, e, eff).execs[e] == eff.exec && |Commit(s, e, eff).execs| == |s.execs|
           && Commit(s, e, eff).db == Stored(s.db, eff.write) by { hide Statement, Stored; }
    StatementKnows(s.db, x, a);
    CommitHistory(s, e, eff, e);
    StatementKeepsIdentity(s.db, x, a);
    CallsLogWhatTheyDo(s.db, x, a);
    assert x.job.Call? && !x.pc.Done? ==> kinds == SoFar(x);
    assert x.pc.Done? ==> eff == Quietly(x);
    assert kinds + [] == kinds;
    hide Next, Commit, Statement, Stored, Inv, Sound, Knows, Accounted, Kinds, SoFar, FindOperation;
    if x.job.Call? && !x.pc.Done? {
      StatementAccounts(s.db, x, a);
    }
  }

  lemma NewcomerMeant(s: State, act: Action, e: nat)
    requires Inv(s) && |s.execs| <= e < |Next(s, act).execs|
    ensures ExecMeant(Next(s, act), e)
  {
    if act.Step? {
      hide Statement;
      assert false;
    } else {
      AdministrativeExecs(s, act);
      NoHistoryYet(s, e, |s.log|);
      assert s.log[..|s.log|] == s.log;
      StartKnows(Next(s, act).db, act.job);
      hide Next, Inv, Started, Kinds, Knows;
    }
  }

  lemma StartKnows(db: Db, job: Job)
    ensures var x := Started(job);
            && Knows(db, x) && (x.job.Call? && x.pc.Done? ==> Accounted(x, x.pc.reply, []))
  {
    hide TrimSpace, Request.Fault, Request.Operation;
  }

  lemma NextKeepsExecsMeant(s: State, act: Action)
    requires Inv(s) && Meant(s)
    ensures forall e :: 0 <= e < |Next(s, act).execs| ==> ExecMeant(Next(s, act), e)
  {
    assert InBounds(s);
    forall e | 0 <= e < |Next(s, act).execs| ensures ExecMeant(Next(s, act), e) {
      if e >= |s.execs| {
        NewcomerMeant(s, act, e);
      } else if act.Step? && act.exec == e {
        if s.execs[e].alive {
          OwnStepKeepsExecMeant(s, e, act.answer);
        } else {
          hide Statement, ExecMeant;
        }
      } else {
        OthersKeepExecMeant(s, act, e);
      }
      hide Next, Inv, ExecMeant, EntryMeant, InBounds;
    }
  }

  /** What is in the log keeps its meaning. */
  lemma EntryStaysMeant(s: State, act: Action, i: nat)
    requires Inv(s) && i < |s.log| && EntryMeant(s, s.log[i])
    ensures EntryMeant(Next(s, act), s.log[i])
  {
    NextExtends(s, act);
    ReceiptIsKept(s, act, s.log[i].exec);
    hide Next, Inv;
  }

  /** What is added to it means what it should. */
  lemma NewEntryMeant(s: State, act: Action, i: nat)
    requires Inv(s) && Meant(s) && |s.log| <= i < |Next(s, act).log|
    ensures EntryMeant(Next(s, act), Next(s, act).log[i])
  {
    if !act.Step? {
      AdministrativeExecs(s, act);
      assert false;
    } else {
      var e := act.exec;
      assert e < |s.execs| && s.execs[e].alive by { hide Statement; }
      var x, eff := s.execs[e], Statement(s.db, s.execs[e], act.answer);
      assert Sound(x, Kinds(s.log, e)) && ExecInBounds(s.db, x) && ExecMeant(s, e);
      assert Next(s, act) == Commit(s, e, eff);
      StatementNotesFittingEvent(s.db, x, act.answer);
      StatementKeepsIdentity(s.db, x, act.answer);
      if x.job.Call? {
        StatementFinishesWithOwn(s.db, x, act.answer);
      }
      hide Next, Statement, Inv, Sound, Meant, EventFits, FindOperation;
      NewEntryOf(s, e, eff);
    }
  }

  lemma NewEntryOf(s: State, e: nat, eff: Effect)
    requires e < |s.execs| && |s.log| < |Commit(s, e, eff).log|
    ensures var s' := Commit(s, e, eff);
            && |s'.log| == |s.log| + 1 && eff.kind.Some? && eff.exec.receipt.Some?
            && s'.log[|s.log|] == Event(e, eff.exec.receipt.value, eff.kind.value)
            && |s'.execs| == |s.execs| && s'.execs[e] == eff.exec && s.db.blobs <= s'.db.blobs
  {}

  lemma NextKeepsMeant(s: State, act: Action)
    requires Inv(s) && Meant(s)
    ensures Meant(Next(s, act))
  {
    NextKeepsExecsMeant(s, act);
    NextGrows(s, act);
    hide ExecMeant, EntryMeant, Inv, Next;
    var s' := Next(s, act);
    forall i | 0 <= i < |s'.log| ensures EntryMeant(s', s'.log[i]) {
      if i < |s.log| {
        EntryStaysMeant(s, act, i);
      } else {
        NewEntryMeant(s, act, i);
      }
    }
  }

  lemma {:induction false} ReachableStatesAreMeant(actions: seq<Action>)
    ensures Meant(Reached(actions))
    decreases |actions|
  {
    if actions != [] {
      var n := |actions| - 1;
      ReachableStatesAreMeant(actions[..n]);
      ReachableStatesKeepInv(actions[..n]);
      hide Next, Inv, Meant;
      NextKeepsMeant(Reached(actions[..n]), actions[n]);
    }
  }

  // ---------- What a reader may conclude ----------

  /** A checkpoint of `receipt.finalize` says delivery unknown exactly when that was reported, and after otherwise. */
  lemma FinalizersNoteWhatIsReported(actions: seq<Action>, i: nat)
    requires var s := Reached(actions); i < |s.log| && s.log[i].kind.Noted?
    requires var s := Reached(actions); s.log[i].exec < |s.execs| && s.execs[s.log[i].exec].job.FinalizeOnly?
    ensures var s := Reached(actions);
            var reported := s.execs[s.log[i].exec].job.outcome.delivery;
            s.log[i].kind.event == if reported.Unknown? then EventType.DeliveryUnknown else MutationAfter
  {
    ReachableStatesAreMeant(actions);
    assert EntryMeant(Reached(actions), Reached(actions).log[i]);
  }

  /**
   Every receipt says what the request of its author said: the operation id, the tool, the arguments,
   whether it is a mutation, the step; and its task is its step's, or without a step the one named.
   */
  lemma ReceiptsRecordTheirRequests(actions: seq<Action>, id: nat)
    requires id < |Reached(actions).db.receipts|
    ensures var s := Reached(actions);
            && id < |s.authors| && s.authors[id] < |s.execs| && Preparing(s.execs[s.authors[id]])
            && var q, row := s.execs[s.authors[id]].job.request, s.db.receipts[id];
               && row.operation == IdOf(q) && row.tool == q.tool && row.arguments == q.arguments
               && row.mutation == q.mutation && row.step == q.step
               && (row.step.Some? ==>
                     row.step.value < |s.db.owners.steps| && row.task == Some(s.db.owners.steps[row.step.value]))
               && (row.step.None? ==> row.task == q.task)
  {
    ReachableStatesAreMeant(actions);
    ReachableStatesKeepInv(actions);
    var s := Reached(actions);
    assert AuthorOf(s, id) && ExecMeant(s, s.authors[id]);
    hide Inv, Meant, TrimSpace, KnowsReceipt, KnowsResult, KnowsFirst, Accounted, Kinds, Reached;
  }

  /** The result a finished receipt refers to was stored for that receipt. */
  lemma ResultReferencesLeadHome(actions: seq<Action>, id: nat)
    requires var s := Reached(actions); id < |s.authors| && id < |s.db.receipts| && OnlyCallFinishes(s, id)
    requires Reached(actions).db.receipts[id].finished && Reached(actions).db.receipts[id].outcome.ref.Some?
    ensures var s := Reached(actions);
            var k := s.db.receipts[id].outcome.ref.value;
            k < |s.db.blobs| && s.db.blobs[k].receipt == id
  {
    ReachableStatesKeepInv(actions);
    ReachableStatesAreMeant(actions);
    var s := Reached(actions);
    assert SettledAt(s, id);
    LastFinishedIsLogged(s.log, id);
    var i :| 0 <= i < |s.log| && s.log[i].receipt == id && s.log[i].kind == Finished(s.db.receipts[id].outcome);
    assert EntryMeant(s, s.log[i]);
    hide Inv, Meant, Reached, LastFinished, ExecMeant;
  }

  /** What a literal reading of an ending says about delivery and progress. */
  predicate Reports(ending: Ending, outcome: Outcome) {
    match ending
    case NeverSent => outcome.delivery.Prepared? && outcome.progress.Failed? && outcome.ref.None?
    case NoReply => outcome.delivery.Unknown? && outcome.progress.Uncertain? && outcome.ref.None?
    case ReplyNotShaped => outcome.delivery.Confirmed? && outcome.progress.Returned? && outcome.ref.None?
    case ReplyShown(_, _, ref) => outcome.delivery.Confirmed? && outcome.progress.Returned? && outcome.ref == ref
    case External(reported) => outcome == reported
  }

  lemma OutcomesReport(ending: Ending)
    ensures Reports(ending, OutcomeOf(ending))
  {}

  lemma OnlyThatReports(ending: Ending, outcome: Outcome)
    requires Reports(ending, outcome)
    ensures outcome == OutcomeOf(ending)
  {}

  /**
   A call that finds its receipt finished writes nothing more to it. It ends with an error exactly when another
   outcome is there, unless its reply could not be shaped: that is told all the same.
   */
  lemma LateFinalizeIsTold(db: Db, x: Exec, a: Answer, ending: Ending)
    requires ExecInBounds(db, x) && x.pc == ReadReceipt(ending) && x.receipt.Some?
    requires db.receipts[x.receipt.value].finished
    ensures var eff, row := Statement(db, x, a), db.receipts[x.receipt.value];
            && Stored(db, eff.write) == db
            && (eff.exec.pc == Done(Failure(ReceiptFinalized)) <==>
                !Reports(ending, row.outcome) && !ending.ReplyNotShaped?)
            && (ending.ReplyNotShaped? ==> eff.exec.pc == Done(Answered(x.receipt.value, ending)))
  {
    OutcomesReport(ending);
    if Reports(ending, db.receipts[x.receipt.value].outcome) {
      OnlyThatReports(ending, db.receipts[x.receipt.value].outcome);
    }
    hide Reports, OutcomeOf, TrimSpace, FindOperation, Latest, Duplicate, Db.Fits;
  }

  /** The history of an answered call, in plain terms. */
  lemma AnsweredHistory(x: Exec, id: nat, ending: Ending, kinds: seq<Kind>)
    requires Accounted(x, Answered(id, ending), kinds)
    ensures Sent in kinds <==> !ending.NeverSent?
    ensures Replied in kinds <==> ending.ReplyNotShaped? || ending.ReplyShown?
    ensures ending.NoReply? ==> Sent in kinds && Replied !in kinds
    ensures !ending.ReplyNotShaped? ==> Finished(OutcomeOf(ending)) in kinds
    ensures ending.ReplyShown? && x.Noting() ==> Noted(MutationAfter) in kinds
    ensures !ending.External?
  {
    var opening, noting := Opening(x.Noting()) + Delivering(ending), x.Noting();
    assert forall k :: k in opening ==> k in kinds;
    assert forall k :: k in kinds ==> k in Script(noting, ending);
    if !ending.ReplyNotShaped? {
      assert (opening + [Finished(OutcomeOf(ending))])[|opening|] == Finished(OutcomeOf(ending));
      assert kinds[|opening|] == Finished(OutcomeOf(ending));
    }
    if ending.ReplyShown? && noting {
      assert kinds[|kinds| - 1] == Noted(EventOf(ending));
    }
  }

  lemma AnsweredIsMeant(s: State, e: nat, id: nat, ending: Ending)
    requires Meant(s) && e < |s.execs| && s.execs[e].job.Call? && s.execs[e].pc == Done(Answered(id, ending))
    ensures Accounted(s.execs[e], Answered(id, ending), Kinds(s.log, e)) && s.execs[e].receipt == Some(id)
    ensures ending.ReplyShown? ==>
              && (ending.ref.Some? <==> ending.truncated || s.execs[e].job.store)
              && (ending.ref.Some? ==>
                    ending.ref.value < |s.db.blobs| && s.db.blobs[ending.ref.value].receipt == id)
  {
    assert ExecMeant(s, e);
    hide Kinds, Script, Opening, Delivering, OutcomeOf, KnowsOwner, KnowsReceipt, KnowsFirst, EntryMeant;
  }

  /**
   What a caller is told of a call is what happened to it: not sent, no reply, a reply that could not be
   shaped, or a reply. With a reply to show, the receipt was finished as returned, the checkpoint after the
   call is written if one is due, and the result was stored, and is referred to, if it was to be.
   */
  lemma AnswersAreTruthful(actions: seq<Action>, e: nat, id: nat, ending: Ending)
    requires var s := Reached(actions);
             e < |s.execs| && s.execs[e].job.Call? && s.execs[e].pc == Done(Answered(id, ending))
    ensures var s := Reached(actions);
            var x, log := s.execs[e], s.log;
            && x.receipt == Some(id)
            && (ending.NeverSent? <==> !Happened(log, e, Sent))
            && (ending.NoReply? <==> Happened(log, e, Sent) && !Happened(log, e, Replied))
            && (ending.ReplyNotShaped? || ending.ReplyShown? <==> Happened(log, e, Replied))
            && (!ending.ReplyNotShaped? ==>
                  exists outcome :: Reports(ending, outcome) && Happened(log, e, Finished(outcome)))
            && (ending.ReplyShown? && x.Noting() ==> Happened(log, e, Noted(MutationAfter)))
            && (ending.ReplyShown? ==> (ending.ref.Some? <==> ending.truncated || x.job.store))
            && (ending.ReplyShown? && ending.ref.Some? ==>
                  ending.ref.value < |s.db.blobs| && s.db.blobs[ending.ref.value].receipt == id)
  {
    hide *;
    ReachableStatesAreMeant(actions);
    var s := Reached(actions);
    var x, kinds := s.execs[e], Kinds(s.log, e);
    AnsweredIsMeant(s, e, id, ending);
    AnsweredHistory(x, id, ending, kinds);
    OutcomesReport(ending);
    HappenedIffInKinds(s.log, e, Sent);
    HappenedIffInKinds(s.log, e, Replied);
    HappenedIffInKinds(s.log, e, Noted(MutationAfter));
    HappenedIffInKinds(s.log, e, Finished(OutcomeOf(ending)));
  }

  /**
   An error is told only before anything was sent, or after a reply came back, or because someone else had
   finalized the receipt: a checkpoint that fails after an unsent or unanswered call is passed over. An error
   that is not a checkpoint's is of a reply too large to store.
   */
  lemma ErrorsAreTruthful(actions: seq<Action>, e: nat, code: Code)
    requires var s := Reached(actions);
             e < |s.execs| && s.execs[e].job.Call? && s.execs[e].pc == Done(Failure(code))
    ensures var s := Reached(actions);
            var x, log := s.execs[e], s.log;
            && (code != ReceiptFinalized ==>
                  !Happened(log, e, Lost) && !Happened(log, e, Unreached)
                  && (Happened(log, e, Sent) <==> Happened(log, e, Replied)))
            && (x.receipt.Some? && !IsOfNote(code) && code != ReceiptFinalized ==>
                  code == ResultTooLarge && Happened(log, e, Replied))
            && (x.receipt.None? ==> forall i :: 0 <= i < |log| ==> log[i].exec != e)
  {
    ReachableStatesAreMeant(actions);
    var s := Reached(actions);
    assert ExecMeant(s, e);
    var x, kinds := s.execs[e], Kinds(s.log, e);
    assert FailureAccounted(x, code, kinds);
    HappenedIffInKinds(s.log, e, Sent);
    HappenedIffInKinds(s.log, e, Replied);
    HappenedIffInKinds(s.log, e, Lost);
    HappenedIffInKinds(s.log, e, Unreached);
    hide Kinds, Happened, Reached, Meant, ExecMeant;
    FailureHistory(x, code, kinds);
    forall i | 0 <= i < |s.log| && x.receipt.None? ensures s.log[i].exec != e {
      if s.log[i].exec == e {
        KindAt(s.log, i);
      }
    }
  }

  lemma FailureHistory(x: Exec, code: Code, kinds: seq<Kind>)
    requires FailureAccounted(x, code, kinds)
    ensures code != ReceiptFinalized ==>
              Lost !in kinds && Unreached !in kinds && (Sent in kinds <==> Replied in kinds)
    ensures x.receipt.Some? && !IsOfNote(code) && code != ReceiptFinalized ==>
              code == ResultTooLarge && Replied in kinds
  {
    var opening := Opening(x.Noting());
    assert (opening + [Sent, Replied])[|opening|] == Sent && (opening + [Sent, Replied])[|opening| + 1] == Replied;
    forall outcome: Outcome
      ensures Sent in opening + [Sent, Replied, Finished(outcome)]
              && Replied in opening + [Sent, Replied, Finished(outcome)]
    {
      var all := opening + [Sent, Replied, Finished(outcome)];
      assert all[|opening|] == Sent && all[|opening| + 1] == Replied;
    }
  }

  /** A call answered "deduplicated" is answered from a receipt for the same operation, tool and arguments. */
  lemma DeduplicationIsOfTheSame(actions: seq<Action>, e: nat, id: nat)
    requires var s := Reached(actions);
             e < |s.execs| && Preparing(s.execs[e]) && s.execs[e].pc == Done(Deduplicated(id))
    ensures var s := Reached(actions);
            && id < |s.db.receipts|
            && var q, row := s.execs[e].job.request, s.db.receipts[id];
               row.operation == IdOf(q) && row.tool == q.tool && row.arguments == q.arguments
  {
    ReachableStatesAreMeant(actions);
    assert ExecMeant(Reached(actions), e);
    hide TrimSpace, Reached, Meant, Accounted, KnowsOwner, KnowsReceipt, KnowsResult, Kinds;
  }
}
