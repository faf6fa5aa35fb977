/**
 accelerator/runtime.go, mcpBatch in parallel mode: what a batch answers whose operation ids are new
 and its own. Whatever the schedule, each slot gets the answer its request gets by itself.
 */
module BatchAnswers {
  import opened Text
  import opened Receipts
  import opened Checkpoints
  import opened Protocol
  import opened ProtocolInvariants
  import opened Calls
  import opened Batch
  import W = Work

  // ---------- The environment ----------

  /** The owner of every slot is there already. */
  predicate OwnersKnown(p: Plan) {
    forall i :: 0 <= i < |p.slots| ==> p.slots[i].request.Owner(p.owners).Owned?
  }

  /**
   Others neither use the batch's operation ids nor finalize its receipts; and they create tasks and
   steps only if no slot of the batch is waiting for one to exist.
   */
  predicate Harmless(p: Plan, act: Action) {
    match act
    case Start(Record(_)) => true
    case Start(Call(q, _)) => forall i :: 0 <= i < |p.slots| ==> p.Operation(i) != q.Operation()
    case Start(PrepareOnly(q)) => forall i :: 0 <= i < |p.slots| ==> p.Operation(i) != q.Operation()
    case Start(FinalizeOnly(id, _)) => id < p.base
    case Step(_, _) => true
    case SetStatus(_, _) => true
    case NewTask => OwnersKnown(p)
    case NewStep(_) => OwnersKnown(p)
    case Crash => false
  }

  /** Everything others do in the schedule is harmless. */
  predicate Considerate(p: Plan, acts: seq<BatchAction>) {
    forall k :: 0 <= k < |acts| && acts[k].Other? ==> Harmless(p, acts[k].act)
  }

  // ---------- What holds of one slot ----------

  ghost predicate Unused(sys: State, operation: string) {
    forall id :: 0 <= id < |sys.db.receipts| ==> sys.db.receipts[id].operation != operation
  }

  /** The execution of slot i, which no other execution can disturb. */
  ghost predicate RunsAlone(p: Plan, sys: State, i: nat, e: nat)
    requires i < |p.slots|
  {
    e < |sys.execs| &&
    var x := sys.execs[e];
    && x.alive && x.job == OwnCall(p, i)
    && Predicted(p.owners, x, p.world(p.slots[i])) == p.Outcome(i)
    && (Early(x.pc) ==> Unused(sys, p.Operation(i)))
    && (x.receipt.Some? ==> p.base <= x.receipt.value < |sys.db.receipts|)
    && (x.receipt.Some? && !x.pc.Done? ==> !sys.db.receipts[x.receipt.value].finished)
  }

  ghost predicate SlotOk(p: Plan, sys: State, fatal: Option<Fatal>, i: nat, w: Worker, r: Option<Reply>)
    requires i < |p.slots|
  {
    match w
    case Waiting => r.None? && Unused(sys, p.Operation(i))
    case Running(e) => r.None? && RunsAlone(p, sys, i, e)
    case _ => (r.Some? ==> ViewOf(r.value) == p.Outcome(i)) && (fatal.None? ==> r.Some?)
  }

  /** Executions that can still step: they own a slot, or have other operation ids and older receipts. */
  ghost predicate Stranger(p: Plan, x: Exec, i: nat)
    requires i < |p.slots|
  {
    && (x.alive && !x.pc.Done? && Preparing(x) ==> x.job.request.Operation() != p.Operation(i))
    && (x.job.FinalizeOnly? && x.alive ==> x.job.receipt < p.base)
  }

  ghost predicate KnowsItsPlace(p: Plan, b: BatchState, f: nat)
    requires f < |b.sys.execs| && |b.workers| == |p.slots|
  {
    forall i :: 0 <= i < |p.slots| ==> b.workers[i] == Running(f) || Stranger(p, b.sys.execs[f], i)
  }

  ghost predicate Places(p: Plan, b: BatchState)
    requires |b.workers| == |p.slots|
  {
    forall f :: 0 <= f < |b.sys.execs| ==> KnowsItsPlace(p, b, f)
  }

  ghost predicate Slots(p: Plan, b: BatchState)
    requires |b.workers| == |p.slots| == |b.results|
  {
    forall i :: 0 <= i < |p.slots| ==> SlotOk(p, b.sys, b.fatal, i, b.workers[i], b.results[i])
  }

  /** Every slot's call would still be made with the owner it has in the plan. */
  predicate SameOwners(p: Plan, owners: Owners) {
    forall i :: 0 <= i < |p.slots| ==> p.slots[i].request.Owner(owners) == p.slots[i].request.Owner(p.owners)
  }

  ghost predicate BatchInv(p: Plan, b: BatchState) {
    && FanInv(p, b) && p.Valid() && Inv(b.sys) && SameOwners(p, b.sys.db.owners) && p.base <= |b.sys.db.receipts|
    && Places(p, b) && Slots(p, b)
  }

  // ---------- Steps of the system underneath ----------

  lemma UnusedStays(s: State, f: nat, eff: Effect, operation: string)
    requires f < |s.execs| && KeepsIdentity(s.db, s.execs[f], eff) && Unused(s, operation)
    requires eff.write.AddReceipt? ==> s.execs[f].job.request.Operation() != operation
    ensures Unused(Commit(s, f, eff), operation)
  {
    hide TrimSpace, FindOperation;
    var s' := Commit(s, f, eff);
    forall id | 0 <= id < |s'.db.receipts| ensures s'.db.receipts[id].operation != operation {
      assert id < |s.db.receipts| ==> s'.db.receipts[id].operation == s.db.receipts[id].operation;
    }
  }

  /** Only its author, or a finalizer aimed at it, writes the outcome of a receipt. */
  lemma OpenReceiptStays(p: Plan, s: State, f: nat, eff: Effect, e: nat, id: nat)
    requires Authored(s) && f < |s.execs| && e < |s.execs| && e != f
    requires Preparing(s.execs[e]) && s.execs[e].receipt == Some(id) && p.base <= id < |s.db.receipts|
    requires WellFormed(s.execs[f]) && ExecInBounds(s.db, s.execs[f]) && TellsOutcome(s.db, s.execs[f], eff)
    requires s.execs[f].job.FinalizeOnly? ==> s.execs[f].job.receipt < p.base
    requires !s.db.receipts[id].finished
    ensures var s' := Commit(s, f, eff);
            id < |s'.db.receipts| && !s'.db.receipts[id].finished
  {
    hide AuthorOf, UniqueOperations;
  }

  /** What another execution commits leaves a running slot's facts alone. */
  lemma ForeignCommitKeepsRun(p: Plan, s: State, f: nat, eff: Effect, i: nat, e: nat)
    requires Authored(s) && f < |s.execs| && s.execs[f].alive && i < |p.slots| && e != f
    requires ExecInBounds(s.db, s.execs[f]) && WellFormed(s.execs[f])
    requires KeepsIdentity(s.db, s.execs[f], eff) && TellsOutcome(s.db, s.execs[f], eff)
    requires eff.write.AddReceipt? ==> s.execs[f].job.request.Operation() != p.Operation(i)
    requires Stranger(p, s.execs[f], i) && RunsAlone(p, s, i, e)
    ensures RunsAlone(p, Commit(s, f, eff), i, e)
  {
    var own := s.execs[e];
    assert Preparing(own) by { hide Predicted, Unused, Plan.Outcome, Plan.Operation; }
    if Early(own.pc) { UnusedStays(s, f, eff, p.Operation(i)); }
    CommitLeavesOthers(s, f, eff, e);
    hide Authored, WellFormed, Predicted, Unused, Plan.Outcome, Plan.Operation, Commit, KeepsIdentity, TellsOutcome,
         ExecInBounds;
    if own.receipt.Some? && !own.pc.Done? { OpenReceiptStays(p, s, f, eff, e, own.receipt.value); }
  }

  lemma CommitLeavesOthers(s: State, f: nat, eff: Effect, e: nat)
    requires f < |s.execs| && e < |s.execs| && e != f
    ensures var s' := Commit(s, f, eff);
            && |s'.execs| == |s.execs| && s'.execs[e] == s.execs[e] && |s.db.receipts| <= |s'.db.receipts|
  {}

  /** An execution that inserts a receipt is no stranger to its own operation only. */
  lemma InsertIsForeign(p: Plan, db: Db, x: Exec, eff: Effect, i: nat)
    requires i < |p.slots| && x.alive && KeepsIdentity(db, x, eff) && Stranger(p, x, i)
    ensures eff.write.AddReceipt? ==> x.job.request.Operation() != p.Operation(i)
  {
    hide Plan.Operation, Request.Operation, Request.Row, FindOperation;
  }

  /** A step of an execution that has nothing to do with slot i leaves the slot's facts alone. */
  lemma ForeignStepKeepsSlot(p: Plan, s: State, f: nat, a: Answer, fatal: Option<Fatal>, i: nat, w: Worker,
                             r: Option<Reply>)
    requires Inv(s) && f < |s.execs| && s.execs[f].alive && i < |p.slots| && p.base <= |s.db.receipts|
    requires w != Running(f) && Stranger(p, s.execs[f], i)
    requires SlotOk(p, s, fatal, i, w, r)
    ensures SlotOk(p, Next(s, Step(f, a)), fatal, i, w, r)
  {
    var x, eff := s.execs[f], Statement(s.db, s.execs[f], a);
    assert Sound(x, Kinds(s.log, f)) && ExecInBounds(s.db, x) && Authored(s) && InBounds(s);
    StatementKeepsIdentity(s.db, x, a);
    StatementTellsOutcome(s.db, x, a);
    assert Next(s, Step(f, a)) == Commit(s, f, eff) && WellFormed(x);
    hide Statement, Next, Inv, Sound, WellFormed, Stranger, KeepsIdentity, TellsOutcome, Authored, InBounds, RunsAlone,
         Commit, Unused, ExecInBounds, Kinds;
    InsertIsForeign(p, s.db, x, eff, i);
    match w
    case Waiting => UnusedStays(s, f, eff, p.Operation(i));
    case Running(e) => ForeignCommitKeepsRun(p, s, f, eff, i, e);
    case _ =>
  }

  /** What a statement of a read-only call does to its own slot's facts. */
  ghost predicate OwnEffect(db: Db, x: Exec, eff: Effect) {
    var y := eff.exec;
    && (x.pc.Done? ==> y.pc.Done?)
    && (Early(y.pc) ==> Early(x.pc) && eff.write.Nothing?)
    && (eff.write.SetOutcome? ==> y.pc.Done?)
    && (eff.write.AddReceipt? ==> !eff.write.row.finished)
  }

  lemma StatementIsOwnEffect(db: Db, x: Exec, a: Answer)
    requires ExecInBounds(db, x) && WellFormed(x) && x.job.Call? && !x.mutation
    ensures OwnEffect(db, x, Statement(db, x, a))
  {
    hide TrimSpace, FindOperation, Latest, Duplicate, Db.Fits;
  }

  lemma OwnCommitKeepsSlot(p: Plan, s: State, i: nat, e: nat, eff: Effect)
    requires i < |p.slots| && p.base <= |s.db.receipts| && RunsAlone(p, s, i, e)
    requires ExecInBounds(s.db, s.execs[e]) && KeepsIdentity(s.db, s.execs[e], eff)
    requires TellsOutcome(s.db, s.execs[e], eff) && OwnEffect(s.db, s.execs[e], eff)
    requires Predicted(p.owners, eff.exec, p.world(p.slots[i])) == Predicted(p.owners, s.execs[e], p.world(p.slots[i]))
    ensures RunsAlone(p, Commit(s, e, eff), i, e)
  {
    hide Predicted, Plan.Outcome, Plan.Operation, TrimSpace, FindOperation, Request.Row, Request.Operation;
    var s' := Commit(s, e, eff);
  }

  lemma OwnPredictionStands(p: Plan, s: State, i: nat, e: nat)
    requires p.Valid() && Inv(s) && i < |p.slots| && SameOwners(p, s.db.owners) && RunsAlone(p, s, i, e)
    ensures ExecInBounds(s.db, s.execs[e])
    ensures var a := p.world(p.slots[i]);
            && Predicted(p.owners, Statement(s.db, s.execs[e], a).exec, a) == Predicted(p.owners, s.execs[e], a)
            && OwnEffect(s.db, s.execs[e], Statement(s.db, s.execs[e], a))
  {
    var a, x := p.world(p.slots[i]), s.execs[e];
    assert Sound(x, Kinds(s.log, e)) && ExecInBounds(s.db, x);
    assert WellFormed(x) && !x.mutation;
    assert x.job.request.Owner(s.db.owners) == x.job.request.Owner(p.owners);
    StatementKeepsIdentity(s.db, x, a);
    hide Statement, Inv, Sound, WellFormed, Predicted, Plan.Outcome, TrimSpace, FindOperation, OwnEffect, SameOwners,
         Request.Owner, Request.Row, Request.Operation;
    StatementIsOwnEffect(s.db, x, a);
    PredictionStands(s.db, x, a);
    SamePrediction(s.db.owners, p.owners, x, a);
    SamePrediction(s.db.owners, p.owners, Statement(s.db, x, a).exec, a);
  }

  /** A prediction depends on the tables of owners only through the owner of the call. */
  lemma SamePrediction(owners: Owners, owners': Owners, x: Exec, a: Answer)
    requires x.job.Call? && x.job.request.Owner(owners) == x.job.request.Owner(owners')
    ensures Predicted(owners, x, a) == Predicted(owners', x, a)
  {
    hide Request.Owner;
  }

  lemma OwnStepKeepsSlot(p: Plan, s: State, i: nat, e: nat)
    requires p.Valid() && Inv(s) && i < |p.slots| && SameOwners(p, s.db.owners) && p.base <= |s.db.receipts|
    requires RunsAlone(p, s, i, e)
    ensures RunsAlone(p, Next(s, Step(e, p.world(p.slots[i]))), i, e)
  {
    var a, x := p.world(p.slots[i]), s.execs[e];
    OwnPredictionStands(p, s, i, e);
    assert Sound(x, Kinds(s.log, e));
    StatementKeepsIdentity(s.db, x, a);
    StatementTellsOutcome(s.db, x, a);
    assert Next(s, Step(e, a)) == Commit(s, e, Statement(s.db, x, a));
    hide *;
    OwnCommitKeepsSlot(p, s, i, e, Statement(s.db, x, a));
  }

  lemma StepKeepsPlaces(p: Plan, b: BatchState, f: nat, a: Answer)
    requires Inv(b.sys) && f < |b.sys.execs| && |b.workers| == |p.slots|
    requires Places(p, b)
    ensures Places(p, b.(sys := Next(b.sys, Step(f, a))))
  {
    var x := b.sys.execs[f];
    assert Sound(x, Kinds(b.sys.log, f)) && ExecInBounds(b.sys.db, x);
    StatementKeepsIdentity(b.sys.db, x, a);
    assert x.pc.Done? ==> Statement(b.sys.db, x, a).exec == x;
    hide Statement, Inv, Sound, WellFormed, TrimSpace, Plan.Operation;
    var b' := b.(sys := Next(b.sys, Step(f, a)));
    forall g | 0 <= g < |b'.sys.execs| ensures KnowsItsPlace(p, b', g) {
      assert KnowsItsPlace(p, b, g);
      assert g != f ==> b'.sys.execs[g] == b.sys.execs[g];
    }
  }

  // ---------- Steps of the batch ----------

  lemma PlaceOf(p: Plan, b: BatchState, f: nat, i: nat)
    requires BatchInv(p, b) && f < |b.sys.execs| && i < |p.slots| && b.workers[i] != Running(f)
    ensures Stranger(p, b.sys.execs[f], i)
  {
    assert KnowsItsPlace(p, b, f);
  }

  lemma SlotStep(p: Plan, b: BatchState, f: nat, a: Answer, i: nat)
    requires BatchInv(p, b) && f < |b.sys.execs| && b.sys.execs[f].alive && i < |p.slots|
    requires b.workers[i] == Running(f) ==> a == p.world(p.slots[i])
    ensures SlotOk(p, Next(b.sys, Step(f, a)), b.fatal, i, b.workers[i], b.results[i])
  {
    assert SlotOk(p, b.sys, b.fatal, i, b.workers[i], b.results[i]);
    hide Inv, Next, RunsAlone, Stranger, KnowsItsPlace, Unused;
    if b.workers[i] == Running(f) {
      OwnStepKeepsSlot(p, b.sys, i, f);
    } else {
      PlaceOf(p, b, f, i);
      ForeignStepKeepsSlot(p, b.sys, f, a, b.fatal, i, b.workers[i], b.results[i]);
    }
  }

  lemma StepKeepsTables(s: State, f: nat, a: Answer)
    requires InBounds(s) && f < |s.execs|
    ensures var s' := Next(s, Step(f, a));
            s'.db.owners == s.db.owners && |s'.db.receipts| >= |s.db.receipts|
  {
    StatementStaysInBounds(s.db, s.execs[f], a);
    hide Statement;
  }

  /** The conjuncts of the invariant, one by one. */
  lemma PartsOfBatchInv(p: Plan, b: BatchState)
    requires BatchInv(p, b)
    ensures FanInv(p, b) && p.Valid() && Inv(b.sys) && InBounds(b.sys)
    ensures SameOwners(p, b.sys.db.owners) && p.base <= |b.sys.db.receipts|
    ensures |b.workers| == |p.slots| == |b.results| && Places(p, b) && Slots(p, b)
  {
    hide Places, Slots, Holding, InBounds, Plan.Valid, AllSound, Authored, Settled, Logged, Chained, Readings, Apart,
         WorkerOk, SameOwners;
  }

  lemma BatchInvFromParts(p: Plan, b: BatchState)
    requires FanInv(p, b) && p.Valid() && Inv(b.sys) && SameOwners(p, b.sys.db.owners) && p.base <= |b.sys.db.receipts|
    requires |b.workers| == |p.slots| == |b.results| && Places(p, b) && Slots(p, b)
    ensures BatchInv(p, b)
  {
    hide Places, Slots, Holding, Inv, Plan.Valid, FanInv, SameOwners;
  }

  /** The system underneath moves by a step of f; every slot keeps its facts. */
  lemma SystemStepKeepsSlots(p: Plan, b: BatchState, f: nat, a: Answer)
    requires BatchInv(p, b) && f < |b.sys.execs| && b.sys.execs[f].alive
    requires forall i :: 0 <= i < |p.slots| && b.workers[i] == Running(f) ==> a == p.world(p.slots[i])
    ensures InBounds(b.sys) && |b.workers| == |p.slots| == |b.results|
    ensures Slots(p, b.(sys := Next(b.sys, Step(f, a))))
  {
    PartsOfBatchInv(p, b);
    hide BatchInv, FanInv, Inv, InBounds, SlotOk, Next, Plan.Valid, Places;
    forall i | 0 <= i < |p.slots|
      ensures SlotOk(p, Next(b.sys, Step(f, a)), b.fatal, i, b.workers[i], b.results[i])
    {
      SlotStep(p, b, f, a, i);
    }
  }

  lemma SystemStepKeepsBatchInv(p: Plan, b: BatchState, f: nat, a: Answer)
    requires BatchInv(p, b) && f < |b.sys.execs| && b.sys.execs[f].alive
    requires forall i :: 0 <= i < |p.slots| && b.workers[i] == Running(f) ==> a == p.world(p.slots[i])
    ensures InBounds(b.sys) && BatchInv(p, b.(sys := Next(b.sys, Step(f, a))))
  {
    PartsOfBatchInv(p, b);
    hide *;
    StepKeepsInv(b.sys, f, a);
    StepKeepsPlaces(p, b, f, a);
    StepKeepsTables(b.sys, f, a);
    SystemStepKeepsSlots(p, b, f, a);
    SystemMoveKeepsFan(p, b, Step(f, a));
    BatchInvFromParts(p, b.(sys := Next(b.sys, Step(f, a))));
  }

  lemma StartIsStranger(p: Plan, job: Job, i: nat)
    requires i < |p.slots| && (job.FinalizeOnly? ==> job.receipt < p.base)
    requires job.Call? || job.PrepareOnly? ==> job.request.Operation() != p.Operation(i)
    ensures Stranger(p, Started(job), i)
  {
    hide TrimSpace, Request.Fault, Request.Operation;
  }

  /** Starting an execution moves none of the others and touches no table. */
  lemma StartKeepsSlot(p: Plan, s: State, job: Job, fatal: Option<Fatal>, i: nat, w: Worker, r: Option<Reply>)
    requires InBounds(s) && i < |p.slots| && SlotOk(p, s, fatal, i, w, r)
    ensures SlotOk(p, Next(s, Start(job)), fatal, i, w, r)
  {
    hide Predicted, Started, Plan.Operation, Plan.Outcome;
  }

  lemma AcquiredSlot(p: Plan, b: BatchState, i: nat)
    requires InBounds(b.sys) && i < |p.slots| && p.Valid()
    requires Unused(b.sys, p.Operation(i))
    ensures SlotOk(p, Next(b.sys, Start(OwnCall(p, i))), b.fatal, i, Running(|b.sys.execs|), None)
  {
    hide TrimSpace, InBounds, Request.Owner, Request.Operation, Unused;
    StartTouchesNoTable(b.sys, OwnCall(p, i));
    SameReceiptsUnused(b.sys, Next(b.sys, Start(OwnCall(p, i))), p.Operation(i));
  }

  lemma SameReceiptsUnused(s: State, s': State, operation: string)
    requires s'.db == s.db && Unused(s, operation)
    ensures Unused(s', operation)
  {}


  lemma AcquireKeepsSlots(p: Plan, b: BatchState, i: nat)
    requires p.Valid() && InBounds(b.sys)
    requires |b.workers| == |p.slots| == |b.results| && Slots(p, b) && Enabled(p, b, Acquire(i))
    ensures Slots(p, Do(p, b, Acquire(i)))
  {
    assert SlotOk(p, b.sys, b.fatal, i, b.workers[i], b.results[i]);
    assert Unused(b.sys, p.Operation(i)) && b.results[i] == None;
    AcquiredSlot(p, b, i);
    hide SlotOk, Next, InBounds, Unused, Plan.Valid, Plan.Operation;
    var b' := Do(p, b, Acquire(i));
    forall j | 0 <= j < |p.slots| ensures SlotOk(p, b'.sys, b'.fatal, j, b'.workers[j], b'.results[j]) {
      if j != i {
        assert SlotOk(p, b.sys, b.fatal, j, b.workers[j], b.results[j]);
        StartKeepsSlot(p, b.sys, OwnCall(p, i), b.fatal, j, b.workers[j], b.results[j]);
      }
    }
  }

  lemma AcquireKeepsPlaces(p: Plan, b: BatchState, i: nat)
    requires InBounds(b.sys) && |b.workers| == |p.slots| && Places(p, b) && Enabled(p, b, Acquire(i))
    requires forall j :: 0 <= j < |p.slots| && j != i ==> Stranger(p, Started(OwnCall(p, i)), j)
    ensures Places(p, Do(p, b, Acquire(i)))
  {
    hide Stranger, Started, Plan.Operation;
    var n, b' := |b.sys.execs|, Do(p, b, Acquire(i));
    forall f | 0 <= f < |b'.sys.execs| ensures KnowsItsPlace(p, b', f) {
      assert f < n ==> KnowsItsPlace(p, b, f);
    }
  }

  lemma OwnCallIsStranger(p: Plan, i: nat, j: nat)
    requires i < |p.slots| && j < |p.slots| && p.Operation(i) != p.Operation(j)
    ensures Stranger(p, Started(OwnCall(p, i)), j)
  {
    StartIsStranger(p, OwnCall(p, i), j);
  }

  lemma AcquireKeepsBatchInv(p: Plan, b: BatchState, i: nat)
    requires BatchInv(p, b) && Enabled(p, b, Acquire(i))
    ensures InBounds(b.sys) && BatchInv(p, Do(p, b, Acquire(i)))
  {
    PartsOfBatchInv(p, b);
    AcquireEffect(p, b, i);
    OwnCallIsStrangerElsewhere(p, i);
    hide *;
    AdministrativeActionKeepsInv(b.sys, Start(OwnCall(p, i)));
    AcquireKeepsSlots(p, b, i);
    AcquireKeepsPlaces(p, b, i);
    AcquireKeepsFan(p, b, i);
    BatchInvFromParts(p, Do(p, b, Acquire(i)));
  }

  lemma OwnCallIsStrangerElsewhere(p: Plan, i: nat)
    requires p.Valid() && i < |p.slots|
    ensures forall j :: 0 <= j < |p.slots| && j != i ==> Stranger(p, Started(OwnCall(p, i)), j)
  {
    hide Stranger, Started, Plan.Operation;
    forall j | 0 <= j < |p.slots| && j != i ensures Stranger(p, Started(OwnCall(p, i)), j) {
      assert p.Operation(i) != p.Operation(j);
      OwnCallIsStranger(p, i, j);
    }
  }

  lemma AcquireEffect(p: Plan, b: BatchState, i: nat)
    requires InBounds(b.sys) && |b.workers| == |p.slots| && Enabled(p, b, Acquire(i))
    ensures var b' := Do(p, b, Acquire(i));
            && b'.sys == Next(b.sys, Start(OwnCall(p, i))) && b'.sys.db == b.sys.db && b'.results == b.results
            && |b'.workers| == |b.workers| && i < |p.slots|
  {
    StartTouchesNoTable(b.sys, OwnCall(p, i));
    hide Next, InBounds, Started;
  }

  lemma OtherStartKeepsPlaces(p: Plan, b: BatchState, job: Job)
    requires InBounds(b.sys) && |b.workers| == |p.slots| && Places(p, b)
    requires forall j :: 0 <= j < |p.slots| ==> Stranger(p, Started(job), j)
    ensures Places(p, b.(sys := Next(b.sys, Start(job))))
  {
    hide Stranger, Started;
    var b' := b.(sys := Next(b.sys, Start(job)));
    forall f | 0 <= f < |b'.sys.execs| ensures KnowsItsPlace(p, b', f) {
      assert f < |b.sys.execs| ==> KnowsItsPlace(p, b, f);
    }
  }

  lemma OtherStartKeepsSlots(p: Plan, b: BatchState, job: Job)
    requires InBounds(b.sys) && |b.workers| == |p.slots| == |b.results| && Slots(p, b)
    ensures Slots(p, b.(sys := Next(b.sys, Start(job))))
  {
    hide SlotOk, Started, Next;
    forall j | 0 <= j < |p.slots| ensures SlotOk(p, Next(b.sys, Start(job)), b.fatal, j, b.workers[j], b.results[j]) {
      StartKeepsSlot(p, b.sys, job, b.fatal, j, b.workers[j], b.results[j]);
    }
  }

  lemma StartTouchesNoTable(s: State, job: Job)
    requires InBounds(s)
    ensures Next(s, Start(job)).db == s.db
  {}


  lemma OtherStartsAreStrangers(p: Plan, job: Job)
    requires Harmless(p, Start(job))
    ensures forall j :: 0 <= j < |p.slots| ==> Stranger(p, Started(job), j)
  {
    hide Started, Stranger, Plan.Operation, Request.Operation;
    forall j | 0 <= j < |p.slots| ensures Stranger(p, Started(job), j) {
      StartIsStranger(p, job, j);
    }
  }

  lemma OtherStartKeepsBatchInv(p: Plan, b: BatchState, job: Job)
    requires BatchInv(p, b) && Harmless(p, Start(job))
    ensures InBounds(b.sys) && BatchInv(p, b.(sys := Next(b.sys, Start(job))))
  {
    PartsOfBatchInv(p, b);
    OtherStartsAreStrangers(p, job);
    StartTouchesNoTable(b.sys, job);
    hide *;
    AdministrativeActionKeepsInv(b.sys, Start(job));
    OtherStartKeepsPlaces(p, b, job);
    OtherStartKeepsSlots(p, b, job);
    NotACrash(job);
    SystemMoveKeepsFan(p, b, Start(job));
    BatchInvFromParts(p, b.(sys := Next(b.sys, Start(job))));
  }

  lemma NotACrash(job: Job)
    ensures !Start(job).Crash? && !Start(job).Step?
  {}

  /** A change of a step's status touches neither executions nor receipts nor owners. */
  lemma StatusMoves(s: State, step: nat, status: W.StepStatus)
    requires InBounds(s)
    ensures var s' := Next(s, SetStatus(step, status));
            s' == s.(db := s.db.(statuses := s'.db.statuses))
  {
    hide InBounds;
  }

  lemma TablesKeepSlots(p: Plan, b: BatchState, s': State)
    requires |b.workers| == |p.slots| == |b.results| && Slots(p, b) && Places(p, b)
    requires s'.execs == b.sys.execs && s'.db.receipts == b.sys.db.receipts
    ensures Slots(p, b.(sys := s')) && Places(p, b.(sys := s'))
  {
    hide Predicted, Plan.Operation, Plan.Outcome, Stranger;
    var b' := b.(sys := s');
    forall i | 0 <= i < |p.slots| ensures SlotOk(p, s', b.fatal, i, b.workers[i], b.results[i]) {
      assert SlotOk(p, b.sys, b.fatal, i, b.workers[i], b.results[i]);
    }
    forall f | 0 <= f < |s'.execs| ensures KnowsItsPlace(p, b', f) {
      assert KnowsItsPlace(p, b, f);
    }
  }

  lemma StatusKeepsBatchInv(p: Plan, b: BatchState, step: nat, status: W.StepStatus)
    requires BatchInv(p, b)
    ensures InBounds(b.sys) && BatchInv(p, b.(sys := Next(b.sys, SetStatus(step, status))))
  {
    PartsOfBatchInv(p, b);
    StatusMoves(b.sys, step, status);
    var act := SetStatus(step, status);
    assert !act.Step? && !act.Crash?;
    hide *;
    AdministrativeActionKeepsInv(b.sys, act);
    TablesKeepSlots(p, b, Next(b.sys, act));
    SystemMoveKeepsFan(p, b, act);
    BatchInvFromParts(p, b.(sys := Next(b.sys, act)));
  }

  /** An owner that is there stays when tasks and steps are added. */
  lemma OwnerStays(q: Request, owners: Owners, owners': Owners)
    requires q.Owner(owners).Owned? && owners.tasks <= owners'.tasks && owners.steps <= owners'.steps
    ensures q.Owner(owners') == q.Owner(owners)
  {}

  /** A new task or step touches neither executions nor receipts, and only adds to the owners. */
  lemma NewOwnerMoves(s: State, act: Action)
    requires InBounds(s) && (act.NewTask? || act.NewStep?)
    ensures var s' := Next(s, act);
            && s'.execs == s.execs && s'.db.receipts == s.db.receipts
            && s.db.owners.tasks <= s'.db.owners.tasks && s.db.owners.steps <= s'.db.owners.steps
  {
    hide InBounds;
  }

  lemma OwnersStay(p: Plan, owners: Owners, owners': Owners)
    requires OwnersKnown(p) && SameOwners(p, owners)
    requires owners.tasks <= owners'.tasks && owners.steps <= owners'.steps
    ensures SameOwners(p, owners')
  {
    hide Request.Owner;
    forall i | 0 <= i < |p.slots| ensures p.slots[i].request.Owner(owners') == p.slots[i].request.Owner(p.owners) {
      OwnerStays(p.slots[i].request, owners, owners');
    }
  }

  lemma NewOwnerKeepsBatchInv(p: Plan, b: BatchState, act: Action)
    requires BatchInv(p, b) && OwnersKnown(p) && (act.NewTask? || act.NewStep?)
    ensures InBounds(b.sys) && BatchInv(p, b.(sys := Next(b.sys, act)))
  {
    PartsOfBatchInv(p, b);
    NewOwnerMoves(b.sys, act);
    hide *;
    OwnersStay(p, b.sys.db.owners, Next(b.sys, act).db.owners);
    AdministrativeActionKeepsInv(b.sys, act);
    TablesKeepSlots(p, b, Next(b.sys, act));
    SystemMoveKeepsFan(p, b, act);
    BatchInvFromParts(p, b.(sys := Next(b.sys, act)));
  }

  lemma WorkerMoveKeepsPlaces(p: Plan, b: BatchState, act: BatchAction)
    requires InBounds(b.sys) && |b.workers| == |p.slots| && Places(p, b) && Enabled(p, b, act) && MovesWorker(act)
    requires b.workers[act.i].Running? ==> b.sys.execs[b.workers[act.i].exec].job.Call?
    ensures Places(p, Do(p, b, act))
  {
    hide Stranger;
    var i, b' := act.i, Do(p, b, act);
    forall f | 0 <= f < |b'.sys.execs| ensures KnowsItsPlace(p, b', f) {
      assert KnowsItsPlace(p, b, f);
      if b.workers[i] == Running(f) {
        DoneIsStranger(p, b, i, f);
      }
    }
  }

  /** A fatal error recorded elsewhere asks less of a finished slot. */
  lemma SlotSurvivesFatal(p: Plan, sys: State, before: Option<Fatal>, after: Option<Fatal>, j: nat, w: Worker,
                          r: Option<Reply>)
    requires j < |p.slots| && SlotOk(p, sys, before, j, w, r) && (after == before || after.Some?)
    ensures SlotOk(p, sys, after, j, w, r)
  {
    hide RunsAlone, Unused, Plan.Outcome, Plan.Operation;
  }

  lemma MovedSlot(p: Plan, b: BatchState, act: BatchAction, b': BatchState)
    requires InBounds(b.sys) && Enabled(p, b, act) && MovesWorker(act) && b' == Do(p, b, act)
    requires act.i < |p.slots| == |b.results| == |b.workers| == |b'.results| == |b'.workers|
    requires SlotOk(p, b.sys, b.fatal, act.i, b.workers[act.i], b.results[act.i])
    ensures SlotOk(p, b.sys, b'.fatal, act.i, b'.workers[act.i], b'.results[act.i])
  {
    hide Unused, Plan.Outcome, Plan.Operation, InBounds;
  }

  /** The other slots keep their workers and results; a fatal error is recorded at most. */
  lemma MoveElsewhere(p: Plan, b: BatchState, act: BatchAction)
    requires InBounds(b.sys) && Enabled(p, b, act) && MovesWorker(act) && |b.results| == |b.workers|
    ensures var b' := Do(p, b, act);
            && b'.sys == b.sys && (b'.fatal == b.fatal || b'.fatal.Some?)
            && act.i < |b.workers| == |b'.workers| == |b'.results|
            && forall j :: 0 <= j < |b.workers| && j != act.i ==>
                 b'.workers[j] == b.workers[j] && b'.results[j] == b.results[j]
  {
    hide InBounds;
  }

  lemma WorkerMoveKeepsSlots(p: Plan, b: BatchState, act: BatchAction)
    requires InBounds(b.sys) && |b.workers| == |p.slots| == |b.results| && Slots(p, b)
    requires Enabled(p, b, act) && MovesWorker(act)
    ensures Slots(p, Do(p, b, act))
  {
    MoveElsewhere(p, b, act);
    var b' := Do(p, b, act);
    hide SlotOk, Do, Enabled, MovesWorker, InBounds;
    assert SlotOk(p, b.sys, b.fatal, act.i, b.workers[act.i], b.results[act.i]);
    MovedSlot(p, b, act, b');
    forall j | 0 <= j < |p.slots| ensures SlotOk(p, b'.sys, b'.fatal, j, b'.workers[j], b'.results[j]) {
      if j != act.i {
        SlotSurvivesFatal(p, b.sys, b.fatal, b'.fatal, j, b.workers[j], b.results[j]);
      }
    }
  }

  /** Moves of one worker that leave the system alone. */
  lemma WorkerMoveKeepsBatchInv(p: Plan, b: BatchState, act: BatchAction)
    requires BatchInv(p, b) && Enabled(p, b, act) && MovesWorker(act)
    ensures InBounds(b.sys) && BatchInv(p, Do(p, b, act))
  {
    PartsOfBatchInv(p, b);
    MoveEffect(p, b, act);
    hide *;
    if b.workers[act.i].Running? {
      RunningIsACall(p, b, act.i);
    }
    WorkerMoveKeepsSlots(p, b, act);
    WorkerMoveKeepsPlaces(p, b, act);
    MoveKeepsFan(p, b, act);
    BatchInvFromParts(p, Do(p, b, act));
  }

  lemma RunningIsACall(p: Plan, b: BatchState, i: nat)
    requires FanInv(p, b) && i < |b.workers| && b.workers[i].Running?
    ensures b.workers[i].exec < |b.sys.execs| && b.sys.execs[b.workers[i].exec].job.Call?
  {
    assert WorkerOk(p, b, i);
    hide InBounds, Holding, Apart;
  }

  lemma DoneIsStranger(p: Plan, b: BatchState, i: nat, f: nat)
    requires i < |p.slots| && f < |b.sys.execs| && b.sys.execs[f].job.Call? && b.sys.execs[f].pc.Done?
    ensures Stranger(p, b.sys.execs[f], i)
  {}


  lemma WorkKeepsBatchInv(p: Plan, b: BatchState, i: nat)
    requires BatchInv(p, b) && Enabled(p, b, Work(i))
    ensures InBounds(b.sys) && BatchInv(p, Do(p, b, Work(i)))
  {
    PartsOfBatchInv(p, b);
    hide BatchInv, Inv, InBounds, Places, Slots, Plan.Valid, Holding, Next;
    assert WorkerOk(p, b, i);
    SystemStepKeepsBatchInv(p, b, b.workers[i].exec, p.world(p.slots[i]));
  }

  /** A step of an execution that no worker runs. */
  lemma OtherStepKeepsBatchInv(p: Plan, b: BatchState, f: nat, a: Answer)
    requires BatchInv(p, b) && Running(f) !in b.workers
    ensures InBounds(b.sys) && BatchInv(p, b.(sys := Next(b.sys, Step(f, a))))
  {
    PartsOfBatchInv(p, b);
    hide *;
    if f < |b.sys.execs| && b.sys.execs[f].alive {
      SystemStepKeepsBatchInv(p, b, f, a);
    } else {
      IdleStep(b.sys, f, a);
    }
  }

  /** Every harmless step of others keeps each slot's answer on course. */
  lemma OtherKeepsBatchInv(p: Plan, b: BatchState, act: Action)
    requires BatchInv(p, b) && Enabled(p, b, Other(act)) && Harmless(p, act)
    ensures InBounds(b.sys) && BatchInv(p, b.(sys := Next(b.sys, act)))
  {
    assert act.Step? ==> Running(act.exec) !in b.workers;
    assert !act.Crash? && (act.NewTask? || act.NewStep? ==> OwnersKnown(p)) by { hide OwnersKnown; }
    hide *;
    match act
    case Start(job) => OtherStartKeepsBatchInv(p, b, job);
    case SetStatus(step, status) => StatusKeepsBatchInv(p, b, step, status);
    case Step(f, a) => OtherStepKeepsBatchInv(p, b, f, a);
    case _ => NewOwnerKeepsBatchInv(p, b, act);
  }

  /** Every step of a worker, and every harmless step of others, keeps each slot's answer on course. */
  lemma ActionKeepsBatchInv(p: Plan, b: BatchState, act: BatchAction)
    requires BatchInv(p, b) && Enabled(p, b, act) && (act.Other? ==> Harmless(p, act.act))
    ensures InBounds(b.sys) && BatchInv(p, Do(p, b, act))
  {
    assert InBounds(b.sys) by { PartsOfBatchInv(p, b); }
    hide BatchInv, Enabled, Harmless, Next, InBounds;
    match act
    case Acquire(i) => AcquireKeepsBatchInv(p, b, i);
    case Work(i) => WorkKeepsBatchInv(p, b, i);
    case Other(a) => OtherKeepsBatchInv(p, b, a);
    case _ => WorkerMoveKeepsBatchInv(p, b, act);
  }

  lemma IdleStep(s: State, f: nat, a: Answer)
    requires InBounds(s) && !(f < |s.execs| && s.execs[f].alive)
    ensures Next(s, Step(f, a)) == s
  {}

  // ---------- Whole schedules ----------

  /** The batch may begin: its operation ids are new and nothing still running can touch them. */
  ghost predicate MayBegin(p: Plan, sys: State) {
    && p.Valid() && Inv(sys) && sys.db.owners == p.owners && |sys.db.receipts| == p.base
    && (forall i :: 0 <= i < |p.slots| ==> Unused(sys, p.Operation(i)))
    && forall f, i :: 0 <= f < |sys.execs| && 0 <= i < |p.slots| ==> Stranger(p, sys.execs[f], i)
  }

  lemma BeginningKeepsBatchInv(p: Plan, sys: State)
    requires MayBegin(p, sys)
    ensures InBounds(sys) && BatchInv(p, Begun(p, sys))
  {
    var b := Begun(p, sys);
    assert InBounds(sys);
    BeginningKeepsFanInv(p, sys);
    hide Inv, InBounds, FanInv, Stranger, Unused, Plan.Valid;
    forall f | 0 <= f < |sys.execs| ensures KnowsItsPlace(p, b, f) {}
    forall i | 0 <= i < |p.slots| ensures SlotOk(p, sys, b.fatal, i, b.workers[i], b.results[i]) {}
  }

  lemma {:induction false} ScheduleKeepsBatchInv(p: Plan, b: BatchState, acts: seq<BatchAction>)
    requires InBounds(b.sys) && BatchInv(p, b) && Considerate(p, acts)
    ensures BatchInv(p, Scheduled(p, b, acts))
    decreases |acts|
  {
    if acts != [] {
      var n := |acts| - 1;
      ScheduleKeepsBatchInv(p, b, acts[..n]);
      var c := Scheduled(p, b, acts[..n]);
      hide BatchInv, Do, Enabled, InBounds, Harmless;
      if Enabled(p, c, acts[n]) {
        ActionKeepsBatchInv(p, c, acts[n]);
      }
    }
  }

  // ---------- What the caller gets ----------

  /**
   Parallel refines sequential: once every worker has exited every permit is back, and without a
   fatal error each slot holds the answer its own request gets, whatever the schedule was.
   */
  lemma ParallelBatchAnswers(p: Plan, sys: State, acts: seq<BatchAction>)
    requires MayBegin(p, sys) && Considerate(p, acts)
    requires InBounds(sys)
    requires var b := Reach(p, sys, acts); forall i :: 0 <= i < |b.workers| ==> b.workers[i].Exited?
    ensures var b := Reach(p, sys, acts);
            && b.sem == 0 && |b.results| == |p.slots|
            && (b.fatal.None? ==>
                  forall i :: 0 <= i < |p.slots| ==> b.results[i].Some? && ViewOf(b.results[i].value) == p.Outcome(i))
  {
    PermitsComeBack(p, sys, acts);
    BeginningKeepsBatchInv(p, sys);
    ScheduleKeepsBatchInv(p, Begun(p, sys), acts);
    var b := Reach(p, sys, acts);
    PartsOfBatchInv(p, b);
    hide BatchInv, FanInv, Inv, InBounds, Places, Scheduled, Begun, MayBegin, Stranger, Plan.Outcome, Plan.Valid,
         Considerate;
    forall i | 0 <= i < |p.slots| && b.fatal.None?
      ensures b.results[i].Some? && ViewOf(b.results[i].value) == p.Outcome(i)
    {
      assert SlotOk(p, b.sys, b.fatal, i, b.workers[i], b.results[i]);
    }
  }
}
