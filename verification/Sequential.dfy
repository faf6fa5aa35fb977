/**
 accelerator/runtime.go, mcpBatch in sequential mode, and what it has to do with parallel mode:
 a parallel batch that ends without a fatal error answers, slot by slot, as the loop does.
 */
module Sequential {
  import opened Text
  import opened Json
  import opened Receipts
  import opened Checkpoints
  import opened Protocol
  import opened ProtocolInvariants
  import opened Calls
  import opened Bridge
  import opened Batch
  import opened BatchAnswers
  import opened Redaction
  import O = Outcomes
  import S = Shaping

  /** The ok flag of one result. */
  predicate Ok(reply: Reply) {
    match reply
    case Deduplicated(_) => true
    case Answered(_, ending) => ending.ReplyShown?
    case _ => false
  }

  /**
   A fresh call by itself is ok exactly when a reply came back that Shape could shape and that, if it was to be
   stored, was not too large. A call answered from the receipt of an earlier one is ok.
   */
  lemma LoneCallIsOkExactly(db: Db, q: Request, store: bool, env: S.Env, upstream: Upstream, o: S.Options)
    requires O.IsFresh(db, q) && Chained(db.checkpoints) && O.LetThrough(db, q)
    ensures var reply := Complete(db, Started(Call(q, store)), AnswerOf(env, upstream, o)).1.pc;
            && reply.Done?
            && (Ok(reply.reply) <==>
                && upstream.Answers? && S.ShapeOf(env, upstream.value, o).Shaped?
                && !O.TooLargeToStore(env, upstream, store, o))
    ensures forall id :: Ok(Deduplicated(id))
  {
    var a := AnswerOf(env, upstream, o);
    O.FreshCallLeaves(db, q, store, a);
    OkEnding(env, upstream, store, o, |db.blobs|);
    hide O.IsFresh, Chained, O.LetThrough, Complete, AnswerOf, O.After, Started, EndingOf, S.ShapeOf, O.TooLargeToStore;
  }

  /** A call has something to show exactly then. */
  lemma OkEnding(env: S.Env, upstream: Upstream, store: bool, o: S.Options, ref: nat)
    ensures var ending := EndingOf(store, AnswerOf(env, upstream, o), ref);
            ending.Some? && ending.value.ReplyShown? <==>
            && upstream.Answers? && S.ShapeOf(env, upstream.value, o).Shaped?
            && !O.TooLargeToStore(env, upstream, store, o)
  {
    hide S.ShapeOf, Redactor.Redact, AnswerOf, EndingOf, StopOf, Keeps, Answer.Storable;
    if !upstream.Answers? {
      O.EndingOfUnanswered(env, upstream, store, o, ref);
    } else if S.ShapeOf(env, upstream.value, o).Shaped? {
      O.EndingOfShaped(env, upstream.value, store, o, ref, ref);
      O.OriginalIsRedacted(env, upstream.value, o);
    } else {
      O.EndingOfUnshaped(env, upstream.value, store, o, ref, ref);
    }
  }

  /** What ends the loop without results: an error, or a panic, which takes the process down. */
  datatype Halt = Stopped(code: Code) | Down

  /** The loop as a function of the tables: the tables after it, its results, and what stopped it. */
  datatype Transcript = Transcript(db: Db, results: seq<Reply>, fatal: Option<Halt>)

  function Halted(t: Transcript, stopOnError: bool): bool {
    t.fatal.Some? || (stopOnError && t.results != [] && !Ok(t.results[|t.results| - 1]))
  }

  function Continued(t: Transcript, slot: Slot, a: Answer): Transcript {
    var (db, x) := Complete(t.db, Started(Call(slot.request, slot.store)), a);
    match x.pc
    case Done(Failure(code)) => Transcript(db, t.results, Some(Stopped(code)))
    case Done(Panicked(_)) => Transcript(db, t.results, Some(Down))
    case Done(reply) => Transcript(db, t.results + [reply], None)
    case _ => t
  }

  function InSequence(db: Db, slots: seq<Slot>, stopOnError: bool, world: Slot -> Answer): Transcript {
    if slots == [] then Transcript(db, [], None)
    else
      var n := |slots| - 1;
      var t := InSequence(db, slots[..n], stopOnError, world);
      if Halted(t, stopOnError) then t else Continued(t, slots[n], world(slots[n]))
  }

  /** What each slot gets from its upstream, with what Shape makes of it under the slot's options. */
  function WorldOf(env: S.Env, replies: Slot -> Upstream): Slot -> Answer {
    (slot: Slot) => AnswerOf(env, replies(slot), slot.shape)
  }

  /** The sequential branch of mcpBatch. */
  method RunSequential(r: Runtime, env: S.Env, slots: seq<Slot>, stopOnError: bool, replies: Slot -> Upstream)
    returns (results: seq<Reply>, fatal: Option<Halt>)
    requires Chained(r.checkpoints)
    modifies r
    ensures Chained(r.checkpoints)
    ensures Transcript(r.Tables(), results, fatal) ==
            InSequence(old(r.Tables()), slots, stopOnError, WorldOf(env, replies))
  {
    hide Complete, Chained, Started, AnswerOf;
    ghost var start, world := r.Tables(), WorldOf(env, replies);
    results := [];
    for i := 0 to |slots|
      invariant Chained(r.checkpoints)
      invariant Transcript(r.Tables(), results, None) == InSequence(start, slots[..i], stopOnError, world)
      invariant !Halted(InSequence(start, slots[..i], stopOnError, world), stopOnError)
    {
      assert slots[..i + 1][..i] == slots[..i];
      var slot := slots[i];
      var result := r.ExecuteResolved(env, slot.request, slot.store, slot.shape, replies(slot));
      if result.Failure? {
        HaltedStays(start, slots, stopOnError, world, i + 1);
        return results, Some(Stopped(result.code));
      }
      if result.Panicked? {
        HaltedStays(start, slots, stopOnError, world, i + 1);
        return results, Some(Down);
      }
      results := results + [result];
      if stopOnError && !Ok(result) {
        HaltedStays(start, slots, stopOnError, world, i + 1);
        return results, None;
      }
    }
    assert slots[..|slots|] == slots;
    return results, None;
  }

  lemma {:induction false} HaltedStays(db: Db, slots: seq<Slot>, stopOnError: bool, world: Slot -> Answer, i: nat)
    requires i <= |slots| && Halted(InSequence(db, slots[..i], stopOnError, world), stopOnError)
    ensures InSequence(db, slots, stopOnError, world) == InSequence(db, slots[..i], stopOnError, world)
    decreases |slots|
  {
    hide Continued, Halted;
    if i == |slots| {
      assert slots[..i] == slots;
    } else {
      assert slots[..|slots| - 1][..i] == slots[..i];
      HaltedStays(db, slots[..|slots| - 1], stopOnError, world, i);
    }
  }

  lemma ContinuedExtends(t: Transcript, slot: Slot, a: Answer)
    ensures t.results <= Continued(t, slot, a).results && |Continued(t, slot, a).results| <= |t.results| + 1
  {
    hide Complete, Started;
  }

  /** t is u, or u cut short right after its first result that is not ok. */
  ghost predicate CutShort(t: Transcript, u: Transcript) {
    && t.results <= u.results
    && (forall i :: 0 <= i < |t.results| - 1 ==> Ok(t.results[i]))
    && (t == u || (t.fatal.None? && t.results != [] && !Ok(t.results[|t.results| - 1])))
  }

  lemma CutShortStays(t: Transcript, u: Transcript, slot: Slot, a: Answer)
    requires CutShort(t, u)
    ensures CutShort(if Halted(t, true) then t else Continued(t, slot, a),
                     if Halted(u, false) then u else Continued(u, slot, a))
  {
    ContinuedExtends(t, slot, a);
    ContinuedExtends(u, slot, a);
    hide Continued, Ok;
  }

  /**
   stop_on_error cuts the run short right after its first result that is not ok, and changes
   nothing before that.
   */
  lemma {:induction false} StopOnErrorCutsShort(db: Db, slots: seq<Slot>, world: Slot -> Answer)
    ensures CutShort(InSequence(db, slots, true, world), InSequence(db, slots, false, world))
    decreases |slots|
  {
    if slots != [] {
      hide Continued, CutShort, Halted;
      var n := |slots| - 1;
      StopOnErrorCutsShort(db, slots[..n], world);
      CutShortStays(InSequence(db, slots[..n], true, world), InSequence(db, slots[..n], false, world), slots[n],
                    world(slots[n]));
    } else {
      hide Continued;
    }
  }

  // ---------- A read-only call on its own ----------

  /** Only receipts of one operation are added, and owners stay. */
  ghost predicate Elsewhere(before: Db, after: Db, operation: string) {
    && after.owners == before.owners
    && forall k :: 0 <= k < |after.receipts| && after.receipts[k].operation != operation ==>
         k < |before.receipts| && before.receipts[k].operation == after.receipts[k].operation
  }

  /** A read-only call nobody disturbs. */
  ghost predicate Alone(db: Db, x: Exec) {
    && ExecInBounds(db, x) && WellFormed(x) && x.job.Call? && !x.mutation
    && (Early(x.pc) ==> FindOperation(db.receipts, x.job.request.Operation()).None?)
    && (x.receipt.Some? && !x.pc.Done? ==> !db.receipts[x.receipt.value].finished)
  }

  lemma StatementStaysWellFormed(db: Db, x: Exec, a: Answer)
    requires ExecInBounds(db, x) && WellFormed(x) && x.job.Call? && !x.pc.Done?
    ensures WellFormed(Statement(db, x, a).exec)
  {
    StatementIsSound(db, x, a, SoFar(x));
    hide Statement, SoFar, WellFormed, Conforms;
  }

  lemma StatementStaysAlone(db: Db, x: Exec, a: Answer)
    requires Alone(db, x) && !x.pc.Done?
    ensures var eff := Statement(db, x, a); Alone(Stored(db, eff.write), eff.exec)
  {
    StatementStaysWellFormed(db, x, a);
    StatementStaysInBounds(db, x, a);
    StatementKeepsIdentity(db, x, a);
    StatementTellsOutcome(db, x, a);
    StatementIsOwnEffect(db, x, a);
    hide Statement, WellFormed, TrimSpace, FindOperation, Request.Owner, Request.Operation, Request.Row;
    var eff := Statement(db, x, a);
    assert Early(eff.exec.pc) ==> Stored(db, eff.write) == db;
  }

  lemma EffectStaysElsewhere(db: Db, x: Exec, eff: Effect)
    requires KeepsIdentity(db, x, eff) && x.job.Call?
    ensures Elsewhere(db, Stored(db, eff.write), x.job.request.Operation())
  {
    hide FindOperation, Request.Operation, TrimSpace;
  }

  lemma StatementStaysElsewhere(db: Db, x: Exec, a: Answer)
    requires Alone(db, x)
    ensures Elsewhere(db, Stored(db, Statement(db, x, a).write), x.job.request.Operation())
  {
    assert ExecInBounds(db, x) && WellFormed(x) && x.job.Call?;
    hide *;
    StatementKeepsIdentity(db, x, a);
    EffectStaysElsewhere(db, x, Statement(db, x, a));
  }

  /** Run to its end, such a call answers what was predicted and touches no other operation. */
  lemma {:induction false} AloneAnswersAsPredicted(db: Db, x: Exec, a: Answer)
    requires Alone(db, x)
    ensures var (after, y) := Complete(db, x, a);
            && y.pc.Done? && ViewOf(y.pc.reply) == Predicted(db.owners, x, a)
            && Elsewhere(db, after, x.job.request.Operation())
    decreases Rank(x.pc)
  {
    if x.pc.Done? {
      CompleteOfDone(db, x, a);
    } else {
      CompleteOfStep(db, x, a);
      StatementsRunOut(db, x, a);
      StatementStaysAlone(db, x, a);
      StatementStaysElsewhere(db, x, a);
      PredictionStands(db, x, a);
      AlwaysTheSameJob(db, x, a);
      hide Complete, Statement, Alone, Predicted, Request.Operation;
      var eff := Statement(db, x, a);
      AloneAnswersAsPredicted(Stored(db, eff.write), eff.exec, a);
    }
  }

  lemma AlwaysTheSameJob(db: Db, x: Exec, a: Answer)
    requires ExecInBounds(db, x) && WellFormed(x)
    ensures Statement(db, x, a).exec.job == x.job
  {
    StatementKeepsIdentity(db, x, a);
    hide Statement, FindOperation;
  }

  /** A fresh read-only request, executed alone, gets exactly the expected answer. */
  lemma FreshCallAnswers(db: Db, q: Request, store: bool, a: Answer)
    requires !q.mutation && FindOperation(db.receipts, q.Operation()).None?
    ensures ExecInBounds(db, Started(Call(q, store)))
    ensures var (after, y) := Complete(db, Started(Call(q, store)), a);
            && y.pc.Done? && ViewOf(y.pc.reply) == Expected(db.owners, q, store, a)
            && Elsewhere(db, after, q.Operation())
  {
    hide Complete, TrimSpace, Request.Operation, Request.Owner, FindOperation;
    AloneAnswersAsPredicted(db, Started(Call(q, store)), a);
  }

  // ---------- Sequential answers ----------

  /** None of the slots from i on has a receipt yet. */
  ghost predicate Ahead(p: Plan, db: Db, i: nat) {
    forall j :: i <= j < |p.slots| ==> FindOperation(db.receipts, p.Operation(j)).None?
  }

  lemma StaysAhead(p: Plan, db: Db, after: Db, i: nat)
    requires p.Valid() && i < |p.slots| && Ahead(p, db, i) && Elsewhere(db, after, p.Operation(i))
    ensures Ahead(p, after, i + 1)
  {
    hide FindOperation, Plan.Operation;
    forall j | i + 1 <= j < |p.slots| ensures FindOperation(after.receipts, p.Operation(j)).None? {
      assert FindOperation(db.receipts, p.Operation(j)).None?;
      assert p.Operation(i) != p.Operation(j);
    }
  }

  /** The first n results of the loop, if nothing fatal was due among them. */
  ghost predicate AnswersSoFar(p: Plan, t: Transcript, n: nat)
    requires n <= |p.slots|
  {
    && t.fatal.None? && |t.results| == n && t.db.owners == p.owners && Ahead(p, t.db, n)
    && forall i :: 0 <= i < n ==> ViewOf(t.results[i]) == p.Outcome(i)
  }

  /** The answer ends a batch. */
  predicate Halting(v: View) {
    v.Failing? || v.Aborting?
  }

  function HaltOf(v: View): Halt
    requires Halting(v)
  {
    if v.Failing? then Stopped(v.code) else Down
  }

  lemma OneMoreAnswer(p: Plan, t: Transcript, n: nat)
    requires p.Valid() && n < |p.slots| && AnswersSoFar(p, t, n)
    ensures var t' := Continued(t, p.slots[n], p.world(p.slots[n]));
            if Halting(p.Outcome(n)) then t'.fatal == Some(HaltOf(p.Outcome(n))) else AnswersSoFar(p, t', n + 1)
  {
    hide Complete, Expected, FindOperation, Started, Request.Operation;
    var q := p.slots[n];
    assert FindOperation(t.db.receipts, p.Operation(n)).None? && !q.request.mutation;
    FreshCallAnswers(t.db, q.request, q.store, p.world(q));
    AnswersAreViews(q, t.db.owners, p.world(q));
    var (after, y) := Complete(t.db, Started(Call(q.request, q.store)), p.world(q));
    StaysAhead(p, t.db, after, n);
    assert ViewOf(y.pc.reply) == p.Outcome(n) && !p.Outcome(n).NoAnswer?;
    hide Plan.Outcome, Ahead, Plan.Operation, Plan.Valid, Elsewhere;
  }

  lemma AnswersAreViews(slot: Slot, owners: Owners, a: Answer)
    ensures !Expected(owners, slot.request, slot.store, a).NoAnswer?
  {
    hide TrimSpace, Request.Owner, Request.Fault;
  }

  /** The loop over the first n slots answered each as expected, unless something fatal was due among them. */
  ghost predicate AnsweredUpTo(p: Plan, t: Transcript, n: nat)
    requires n <= |p.slots|
  {
    if forall i :: 0 <= i < n ==> !Halting(p.Outcome(i)) then AnswersSoFar(p, t, n) else t.fatal.Some?
  }

  lemma OneMoreAnswered(p: Plan, t: Transcript, t': Transcript, n: nat)
    requires n < |p.slots| && AnsweredUpTo(p, t, n)
    requires t' == if t.fatal.Some? then t else Continued(t, p.slots[n], p.world(p.slots[n]))
    requires AnswersSoFar(p, t, n) ==>
               if Halting(p.Outcome(n)) then t'.fatal.Some? else AnswersSoFar(p, t', n + 1)
    ensures AnsweredUpTo(p, t', n + 1)
  {
    if AnswersSoFar(p, t, n) {
      AnsweringIsNotFatal(p, t, n);
    }
    hide AnswersSoFar, Plan.Outcome, Continued, Halting;
  }

  lemma NothingAnswered(p: Plan, db: Db)
    requires db.owners == p.owners && Ahead(p, db, 0)
    ensures AnsweredUpTo(p, InSequence(db, p.slots[..0], false, p.world), 0)
  {
    hide Continued, Plan.Outcome, Ahead;
  }

  /** The sequential loop over a read-only batch answers each slot as expected, up to the first fatal error. */
  lemma {:induction false} SequentialBatchAnswers(p: Plan, db: Db, n: nat)
    requires p.Valid() && db.owners == p.owners && Ahead(p, db, 0) && n <= |p.slots|
    ensures AnsweredUpTo(p, InSequence(db, p.slots[..n], false, p.world), n)
  {
    hide *;
    if n == 0 {
      NothingAnswered(p, db);
    } else {
      SequentialBatchAnswers(p, db, n - 1);
      OneMoreSlot(db, p.slots, n - 1, p.world);
      var t := InSequence(db, p.slots[..n - 1], false, p.world);
      if AnswersSoFar(p, t, n - 1) {
        AnsweringIsNotFatal(p, t, n - 1);
        OneMoreAnswer(p, t, n - 1);
      }
      OneMoreAnswered(p, t, InSequence(db, p.slots[..n], false, p.world), n - 1);
    }
  }

  lemma OneMoreSlot(db: Db, slots: seq<Slot>, n: nat, world: Slot -> Answer)
    requires n < |slots|
    ensures var t := InSequence(db, slots[..n], false, world);
            InSequence(db, slots[..n + 1], false, world) ==
            if t.fatal.Some? then t else Continued(t, slots[n], world(slots[n]))
  {
    hide Continued;
    assert slots[..n + 1][..n] == slots[..n];
  }

  lemma AnsweringIsNotFatal(p: Plan, t: Transcript, n: nat)
    requires n <= |p.slots| && AnswersSoFar(p, t, n)
    ensures t.fatal.None?
  {}

  // ---------- Parallel refines sequential ----------

  predicate OkView(v: View) {
    v.Ended? && v.ending.ReplyShown?
  }

  lemma OkIsInTheView(reply: Reply)
    requires !ViewOf(reply).NoAnswer?
    ensures Ok(reply) == OkView(ViewOf(reply))
  {}

  /**
   Whatever the schedule: if a parallel batch ends without a fatal error, then the sequential loop
   from the same tables has none either, and slot by slot both give the same answer and ok flag.
   */
  lemma ParallelRefinesSequential(p: Plan, sys: State, acts: seq<BatchAction>)
    requires MayBegin(p, sys) && Considerate(p, acts)
    requires InBounds(sys)
    requires var b := Reach(p, sys, acts);
             b.fatal.None? && forall i :: 0 <= i < |b.workers| ==> b.workers[i].Exited?
    ensures var b := Reach(p, sys, acts);
            var t := InSequence(sys.db, p.slots, false, p.world);
            && t.fatal.None? && |t.results| == |b.results| == |p.slots|
            && forall i :: 0 <= i < |p.slots| ==>
                 && b.results[i].Some?
                 && ViewOf(b.results[i].value) == ViewOf(t.results[i])
                 && Ok(b.results[i].value) == Ok(t.results[i])
  {
    ReadyToBegin(p, sys);
    hide *;
    ParallelBatchAnswers(p, sys, acts);
    CollectedAnswers(p, sys, acts);
    NoFailuresMeans(Reach(p, sys, acts));
    RefinementFromAnswers(p, sys.db, Reach(p, sys, acts).results);
  }

  lemma ReadyToBegin(p: Plan, sys: State)
    requires MayBegin(p, sys)
    ensures p.Valid() && sys.db.owners == p.owners
    ensures forall i :: 0 <= i < |p.slots| ==> FindOperation(sys.db.receipts, p.Operation(i)).None?
  {
    hide FindOperation, Plan.Operation, Inv, Stranger, Plan.Valid;
    forall i | 0 <= i < |p.slots| ensures FindOperation(sys.db.receipts, p.Operation(i)).None? {
      assert Unused(sys, p.Operation(i));
    }
  }

  lemma NoFailuresMeans(b: BatchState)
    requires NoFailures(b)
    ensures forall i :: 0 <= i < |b.results| && b.results[i].Some? ==>
              !b.results[i].value.Failure? && !b.results[i].value.Panicked?
  {}

  lemma RefinementFromAnswers(p: Plan, db: Db, results: seq<Option<Reply>>)
    requires p.Valid() && db.owners == p.owners && |results| == |p.slots|
    requires forall i :: 0 <= i < |p.slots| ==> FindOperation(db.receipts, p.Operation(i)).None?
    requires forall i :: 0 <= i < |p.slots| ==>
               && results[i].Some? && !results[i].value.Failure? && !results[i].value.Panicked?
               && ViewOf(results[i].value) == p.Outcome(i)
    ensures var t := InSequence(db, p.slots, false, p.world);
            && t.fatal.None? && |t.results| == |p.slots|
            && forall i :: 0 <= i < |p.slots| ==>
                 && ViewOf(results[i].value) == ViewOf(t.results[i])
                 && Ok(results[i].value) == Ok(t.results[i])
  {
    var n := |p.slots|;
    assert p.slots[..n] == p.slots;
    assert Ahead(p, db, 0);
    forall i | 0 <= i < n ensures !Halting(p.Outcome(i)) && !p.Outcome(i).NoAnswer? {
      AnswersAreViews(p.slots[i], p.owners, p.world(p.slots[i]));
      hide Expected;
    }
    SequentialBatchAnswers(p, db, n);
    hide InSequence, Plan.Outcome, FindOperation, Ahead, Plan.Operation, Plan.Valid;
    var t := InSequence(db, p.slots, false, p.world);
    forall i | 0 <= i < n
      ensures ViewOf(results[i].value) == ViewOf(t.results[i]) && Ok(results[i].value) == Ok(t.results[i])
    {
      OkIsInTheView(results[i].value);
      OkIsInTheView(t.results[i]);
    }
  }

  /** Neither failures nor panics are stored in a slot. */
  ghost predicate NoFailures(b: BatchState) {
    forall i :: 0 <= i < |b.results| && b.results[i].Some? ==>
      !b.results[i].value.Failure? && !b.results[i].value.Panicked?
  }

  lemma {:induction false} ResultsAreNoFailures(p: Plan, b: BatchState, acts: seq<BatchAction>)
    requires InBounds(b.sys) && NoFailures(b)
    ensures NoFailures(Scheduled(p, b, acts))
    decreases |acts|
  {
    if acts != [] {
      var n := |acts| - 1;
      ResultsAreNoFailures(p, b, acts[..n]);
      hide InBounds, Next;
    }
  }

  lemma CollectedAnswers(p: Plan, sys: State, acts: seq<BatchAction>)
    requires InBounds(sys)
    ensures NoFailures(Reach(p, sys, acts))
  {
    hide InBounds;
    ResultsAreNoFailures(p, Begun(p, sys), acts);
  }
}
