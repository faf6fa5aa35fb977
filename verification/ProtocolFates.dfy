/**
 What becomes of a call among others: in every state that any interleaving reaches, exactly when its
 receipt is unfinished and exactly when no checkpoint tells its outcome.
 */
module ProtocolFates {
  import opened Text
  import opened Receipts
  import opened Checkpoints
  import opened Protocol
  import opened ProtocolInvariants
  import opened ProtocolSafety

  // ---------- What can befall a call at one statement ----------

  /** The steps of the task do not fit the checkpoint that is due. */
  predicate TooManySteps(db: Db, x: Exec) {
    x.pc.ReadSteps? && x.task.Some? && !db.Fits(x.task.value)
  }

  /** Another writer has extended the task's chain since the call read its end. */
  predicate Overtaken(db: Db, x: Exec) {
    x.pc.ExtendChain? && x.task.Some? && x.pc.latest != Latest(db.checkpoints, x.task.value)
  }

  predicate ReplyFails(x: Exec, a: Answer) {
    x.pc.Await? && a.upstream.Answers? && a.shaping.Unshapable?
  }

  predicate ReplyPanics(x: Exec, a: Answer) {
    x.pc.Await? && a.upstream.Answers? && a.shaping.Panics?
  }

  predicate ReplyTooLarge(x: Exec, a: Answer) {
    x.pc.Store? && !a.Storable()
  }

  /** Someone else has finished the call's receipt with another outcome. */
  predicate FinishedElsewhere(db: Db, x: Exec) {
    && x.pc.ReadReceipt? && x.receipt.Some? && x.receipt.value < |db.receipts|
    && db.receipts[x.receipt.value].finished && db.receipts[x.receipt.value].outcome != OutcomeOf(x.pc.ending)
  }

  datatype Mishap =
    | StoppedShort // the call ends and never comes to finalizing
    | OutcomeDropped // the call will write no outcome checkpoint

  predicate Befalls(m: Mishap, db: Db, x: Exec, a: Answer) {
    match m
    case StoppedShort =>
      || ((TooManySteps(db, x) || Overtaken(db, x)) && x.pc.point.Before?)
      || ReplyPanics(x, a) || ReplyTooLarge(x, a)
    case OutcomeDropped =>
      || TooManySteps(db, x) || Overtaken(db, x)
      || ReplyFails(x, a) || ReplyPanics(x, a) || ReplyTooLarge(x, a)
      || FinishedElsewhere(db, x)
  }

  /** It befalls execution e in this action. */
  predicate BefallsIn(m: Mishap, s: State, act: Action, e: nat) {
    && act.Step? && act.exec == e && e < |s.execs| && s.execs[e].alive
    && Befalls(m, s.db, s.execs[e], act.answer)
  }

  /** It befell execution e in the course of the run. */
  ghost predicate Befell(m: Mishap, actions: seq<Action>, e: nat) {
    exists k :: 0 <= k < |actions| && BefellAt(m, actions, k, e)
  }

  ghost predicate BefellAt(m: Mishap, actions: seq<Action>, k: nat, e: nat)
    requires k < |actions|
  {
    BefallsIn(m, Reached(actions[..k]), actions[k], e)
  }

  lemma BefellByOneMore(m: Mishap, actions: seq<Action>, act: Action, e: nat)
    ensures Befell(m, actions + [act], e) <==> Befell(m, actions, e) || BefallsIn(m, Reached(actions), act, e)
  {
    hide Reached, BefallsIn;
    var n, more := |actions|, actions + [act];
    assert more[..n] == actions && more[n] == act;
    forall k | 0 <= k < n ensures BefellAt(m, more, k, e) <==> BefellAt(m, actions, k, e) {
      assert more[..k] == actions[..k];
    }
    if Befell(m, actions, e) {
      var k :| 0 <= k < n && BefellAt(m, actions, k, e);
      assert BefellAt(m, more, k, e);
    }
    assert BefellAt(m, more, n, e) <==> BefallsIn(m, Reached(actions), act, e);
  }

  // ---------- What one statement does to a call's fate ----------

  /** The reply could not be shaped: the call will finalize, and note nothing. */
  predicate Doomed(pc: Pc) {
    (pc.ReadReceipt? || pc.WriteReceipt?) && pc.ending.ReplyNotShaped?
  }

  /** Still on the way to finalizing. */
  predicate Underway(pc: Pc) {
    !pc.Done? && !(AtNote(pc) && pc.point.Afterwards?)
  }

  predicate IsFinished(db: Db, id: nat) {
    id < |db.receipts| && db.receipts[id].finished
  }

  predicate TellsOfOutcome(kind: Kind) {
    kind.Noted? && !kind.event.MutationBefore?
  }

  /** Where the statement leaves the call, given what befalls it there. */
  ghost predicate Leaves(db: Db, x: Exec, a: Answer, eff: Effect) {
    var y, stops, drops := eff.exec, Befalls(StoppedShort, db, x, a), Befalls(OutcomeDropped, db, x, a);
    && (stops ==> drops && y.pc.Done? && (eff.kind.Some? ==> !eff.kind.value.Finished?))
    && (!y.pc.Done? ==> (Doomed(y.pc) <==> Doomed(x.pc) || drops))
    && (y.pc.Done? && y.receipt.Some? && y.Noting() ==>
          ((eff.kind.Some? && TellsOfOutcome(eff.kind.value)) <==> !Doomed(x.pc) && !drops))
    && (y.receipt.Some? && !Underway(y.pc) && !stops ==> IsFinished(Stored(db, eff.write), y.receipt.value))
  }

  /** What is known of a running call and the tables. */
  ghost predicate Proceeding(db: Db, x: Exec) {
    && ExecInBounds(db, x) && x.job.Call? && WellFormed(x) && !x.pc.Done?
    && (x.task.Some? ==> x.task.value < db.owners.tasks)
    && (x.receipt.Some? && !Underway(x.pc) ==> IsFinished(db, x.receipt.value))
    && Chained(db.checkpoints)
    && (x.pc.ExtendChain? && x.pc.latest.Some? && x.task.Some? ==>
          db.checkpoints[x.pc.latest.value].task == x.task.value)
  }

  lemma EarlyStatementLeaves(db: Db, x: Exec, a: Answer)
    requires Proceeding(db, x) && Early(x.pc)
    ensures Leaves(db, x, a, Statement(db, x, a))
  {
    hide TrimSpace, FindOperation, Chained, Db.Fits, Latest, Request.Owner, Request.Row, Request.Operation,
         Request.Matches;
  }

  lemma ReadingLeaves(db: Db, x: Exec, a: Answer)
    requires Proceeding(db, x) && (x.pc.ReadSteps? || x.pc.ReadChain?)
    ensures Leaves(db, x, a, Statement(db, x, a))
  {
    hide Chained, Db.Fits, Latest;
  }

  /** The checkpoint is written exactly when no other writer has overtaken the call. */
  lemma NoteIsWrittenExactly(db: Db, x: Exec, a: Answer)
    requires Proceeding(db, x) && x.pc.ExtendChain?
    ensures var eff := Statement(db, x, a);
            if Overtaken(db, x) then eff == Quietly(x.At(NoteFailed(x, x.pc.point, ConstraintFailed)))
            else
              && eff.write.AddCheckpoint? && eff.kind == Some(Noted(PointEvent(x.pc.point)))
              && eff.exec == x.At(AfterNote(x, x.pc.point))
  {
    InsertNeedsFreshReading(db.checkpoints, x.task.value, x.pc.latest, Note(PointEvent(x.pc.point), x.receipt));
    hide Chained, Latest, Duplicate, Successor, NoteFailed, AfterNote, PointEvent;
  }

  lemma ExtendingLeaves(db: Db, x: Exec, a: Answer)
    requires Proceeding(db, x) && x.pc.ExtendChain?
    ensures Leaves(db, x, a, Statement(db, x, a))
  {
    NoteIsWrittenExactly(db, x, a);
    hide Chained, Latest, Db.Fits, Statement;
  }

  lemma DeliveringLeaves(db: Db, x: Exec, a: Answer)
    requires Proceeding(db, x) && (x.pc.Connect? || x.pc.Await? || x.pc.Store?)
    ensures Leaves(db, x, a, Statement(db, x, a))
  {
    hide Chained, Latest, Db.Fits;
  }

  lemma FinalizingLeaves(db: Db, x: Exec, a: Answer)
    requires Proceeding(db, x) && (x.pc.ReadReceipt? || x.pc.WriteReceipt?)
    ensures Leaves(db, x, a, Statement(db, x, a))
  {
    hide Chained, Latest, Db.Fits;
  }

  lemma StatementLeaves(db: Db, x: Exec, a: Answer)
    requires Proceeding(db, x)
    ensures Leaves(db, x, a, Statement(db, x, a))
  {
    assert WellFormed(x) && x.job.Call? && !x.pc.Done? && !x.pc.Load?;
    hide Proceeding, Leaves, Statement, WellFormed;
    if Early(x.pc) {
      EarlyStatementLeaves(db, x, a);
    } else if x.pc.ReadSteps? || x.pc.ReadChain? {
      ReadingLeaves(db, x, a);
    } else if x.pc.ExtendChain? {
      ExtendingLeaves(db, x, a);
    } else if x.pc.ReadReceipt? || x.pc.WriteReceipt? {
      FinalizingLeaves(db, x, a);
    } else {
      DeliveringLeaves(db, x, a);
    }
  }

  // ---------- The fate of a call in a state ----------

  predicate OutcomeIn(kinds: seq<Kind>) {
    exists i :: 0 <= i < |kinds| && TellsOfOutcome(kinds[i])
  }

  /** What is known of execution e once it is known what has befallen it. */
  ghost predicate Fate(s: State, e: nat, dropped: bool, stopped: bool)
    requires e < |s.execs|
  {
    var x, kinds := s.execs[e], Kinds(s.log, e);
    && (stopped ==> dropped && x.pc.Done? && HasNotFinished(kinds))
    && (!x.pc.Done? ==> (dropped <==> Doomed(x.pc)))
    && (x.pc.Done? && x.receipt.Some? && x.Noting() ==> (OutcomeIn(kinds) <==> !dropped))
    && (x.receipt.Some? && !Underway(x.pc) && !stopped ==> IsFinished(s.db, x.receipt.value))
  }

  /** A running call has noted no outcome, and until it has finalized it has not finished its receipt. */
  lemma RunningHistory(x: Exec)
    requires x.job.Call? && WellFormed(x) && !x.pc.Done?
    ensures !OutcomeIn(SoFar(x)) && (Underway(x.pc) ==> HasNotFinished(SoFar(x)))
  {}

  lemma OutcomeInMore(kinds: seq<Kind>, more: seq<Kind>)
    ensures OutcomeIn(kinds + more) <==> OutcomeIn(kinds) || OutcomeIn(more)
  {
    forall i | 0 <= i < |more| ensures (kinds + more)[|kinds| + i] == more[i] {}
    if OutcomeIn(kinds) {
      var i :| 0 <= i < |kinds| && TellsOfOutcome(kinds[i]);
      assert TellsOfOutcome((kinds + more)[i]);
    }
    if OutcomeIn(more) {
      var i :| 0 <= i < |more| && TellsOfOutcome(more[i]);
      assert TellsOfOutcome((kinds + more)[|kinds| + i]);
    }
  }

  lemma CommitMovesFate(s: State, e: nat, eff: Effect, a: Answer, dropped: bool, stopped: bool)
    requires e < |s.execs| && !s.execs[e].pc.Done? && Fate(s, e, dropped, stopped)
    requires Proceeding(s.db, s.execs[e]) && Leaves(s.db, s.execs[e], a, eff) && Kinds(s.log, e) == SoFar(s.execs[e])
    requires eff.kind.Some? ==> eff.exec.receipt.Some?
    ensures Fate(Commit(s, e, eff), e,
                 dropped || Befalls(OutcomeDropped, s.db, s.execs[e], a),
                 stopped || Befalls(StoppedShort, s.db, s.execs[e], a))
  {
    var x, kinds := s.execs[e], Kinds(s.log, e);
    RunningHistory(x);
    CommitHistory(s, e, eff, e);
    OutcomeInMore(kinds, Appended(eff));
    assert OutcomeIn(Appended(eff)) <==> eff.kind.Some? && TellsOfOutcome(eff.kind.value) by {
      if eff.kind.Some? && TellsOfOutcome(eff.kind.value) { assert TellsOfOutcome(Appended(eff)[0]); }
    }
    assert kinds + [] == kinds;
    var s' := Commit(s, e, eff);
    assert s'.execs[e] == eff.exec && s'.db == Stored(s.db, eff.write);
    assert Befalls(StoppedShort, s.db, x, a) ==> Underway(x.pc);
    hide Commit, Kinds, SoFar, Proceeding, Befalls, Stored, OutcomeIn, Underway, Doomed, IsFinished;
  }

  /** Every task an execution works on exists. */
  ghost predicate KnownTasks(s: State) {
    forall e :: 0 <= e < |s.execs| && s.execs[e].job.Call? && s.execs[e].task.Some? ==>
      s.execs[e].task.value < s.db.owners.tasks
  }

  lemma StatementKnowsTask(db: Db, x: Exec, a: Answer)
    requires ExecInBounds(db, x) && x.job.Call? && (x.task.Some? ==> x.task.value < db.owners.tasks)
    requires WellFormed(x)
    ensures var eff := Statement(db, x, a);
            && (eff.exec.task.Some? ==> eff.exec.task.value < db.owners.tasks)
            && Stored(db, eff.write).owners == db.owners
  {
    hide TrimSpace, FindOperation, Latest, Duplicate, Db.Fits, Request.Owner, Request.Row, Request.Operation,
         Request.Matches;
  }

  lemma OwnersAfter(s: State, act: Action)
    requires InBounds(s)
    ensures s.db.owners.tasks <= Next(s, act).db.owners.tasks
  {
    hide Statement, Started, InBounds;
  }

  lemma NextKnowsTasks(s: State, act: Action)
    requires Inv(s) && KnownTasks(s)
    ensures KnownTasks(Next(s, act))
  {
    OwnersAfter(s, act);
    var s' := Next(s, act);
    forall e | 0 <= e < |s'.execs| && s'.execs[e].job.Call? && s'.execs[e].task.Some?
      ensures s'.execs[e].task.value < s'.db.owners.tasks
    {
      if e < |s.execs| {
        ReceiptIsKept(s, act, e);
        if act.Step? && act.exec == e && s.execs[e].alive {
          assert Sound(s.execs[e], Kinds(s.log, e)) && ExecInBounds(s.db, s.execs[e]);
          StatementKnowsTask(s.db, s.execs[e], act.answer);
        }
      }
      hide Inv, Statement, Sound, TrimSpace, Request.Fault;
    }
  }

  lemma {:induction false} TasksAreKnown(actions: seq<Action>)
    ensures KnownTasks(Reached(actions))
    decreases |actions|
  {
    if actions != [] {
      var n := |actions| - 1;
      TasksAreKnown(actions[..n]);
      ReachableStatesKeepInv(actions[..n]);
      hide Next, Inv, KnownTasks;
      NextKnowsTasks(Reached(actions[..n]), actions[n]);
    }
  }

  // ---------- One action ----------

  lemma RunningCallProceeds(s: State, e: nat, dropped: bool, stopped: bool)
    requires Inv(s) && KnownTasks(s) && e < |s.execs| && s.execs[e].job.Call? && !s.execs[e].pc.Done?
    requires Fate(s, e, dropped, stopped)
    ensures Proceeding(s.db, s.execs[e]) && Kinds(s.log, e) == SoFar(s.execs[e])
  {
    assert Sound(s.execs[e], Kinds(s.log, e)) && ExecInBounds(s.db, s.execs[e]);
    hide Chained, AllSound, Authored, Settled, Logged, Kinds, SoFar, WellFormed, IsFinished, OutcomeIn;
  }

  lemma StepMovesFate(s: State, e: nat, a: Answer, dropped: bool, stopped: bool)
    requires Inv(s) && KnownTasks(s) && e < |s.execs| && s.execs[e].job.Call? && s.execs[e].alive
    requires Fate(s, e, dropped, stopped)
    ensures var s' := Next(s, Step(e, a));
            && e < |s'.execs|
            && Fate(s', e, dropped || BefallsIn(OutcomeDropped, s, Step(e, a), e),
                    stopped || BefallsIn(StoppedShort, s, Step(e, a), e))
  {
    var x := s.execs[e];
    assert ExecInBounds(s.db, x) && Sound(x, Kinds(s.log, e));
    if x.pc.Done? {
      assert Next(s, Step(e, a)) == Commit(s, e, Quietly(x));
      assert Commit(s, e, Quietly(x)) == s;
    } else {
      RunningCallProceeds(s, e, dropped, stopped);
      StatementLeaves(s.db, x, a);
      CallsLogWhatTheyDo(s.db, x, a);
      StatementKeepsIdentity(s.db, x, a);
      assert Next(s, Step(e, a)) == Commit(s, e, Statement(s.db, x, a));
      hide Statement, Inv, Sound, Proceeding, Leaves, Fate, Kinds, SoFar, Commit, Befalls, KnownTasks, FindOperation;
      CommitMovesFate(s, e, Statement(s.db, x, a), a, dropped, stopped);
      assert |Commit(s, e, Statement(s.db, x, a)).execs| == |s.execs|
      by { CommitKeepsCount(s, e, Statement(s.db, x, a)); }
    }
  }

  lemma CommitKeepsCount(s: State, e: nat, eff: Effect)
    requires e < |s.execs|
    ensures |Commit(s, e, eff).execs| == |s.execs|
  {}

  /** An action of others, or of the environment, leaves the execution and its history as they were. */
  lemma OthersLeaveExec(s: State, act: Action, e: nat)
    requires InBounds(s) && e < |s.execs| && !(act.Step? && act.exec == e)
    ensures var s' := Next(s, act);
            && e < |s'.execs| && s'.execs[e] == s.execs[e].(alive := s'.execs[e].alive)
            && Kinds(s'.log, e) == Kinds(s.log, e)
  {
    if act.Step? && act.exec < |s.execs| && s.execs[act.exec].alive {
      assert ExecInBounds(s.db, s.execs[act.exec]);
      CommitHistory(s, act.exec, Statement(s.db, s.execs[act.exec], act.answer), e);
      hide Statement, Kinds;
    } else if !act.Step? {
      AdministrativeExecs(s, act);
      hide Next, Kinds;
    }
  }

  /** What is finished stays finished. */
  lemma FinishedStays(s: State, act: Action, id: nat)
    requires InBounds(s) && IsFinished(s.db, id)
    ensures IsFinished(Next(s, act).db, id)
  {
    hide Statement, Started, InBounds;
  }

  lemma OthersLeaveFate(s: State, act: Action, e: nat, dropped: bool, stopped: bool)
    requires InBounds(s) && e < |s.execs| && !(act.Step? && act.exec == e) && Fate(s, e, dropped, stopped)
    ensures var s' := Next(s, act); e < |s'.execs| && Fate(s', e, dropped, stopped)
  {
    OthersLeaveExec(s, act, e);
    var x := s.execs[e];
    if x.receipt.Some? && IsFinished(s.db, x.receipt.value) {
      FinishedStays(s, act, x.receipt.value);
    }
    hide Next, InBounds, Kinds, IsFinished, OutcomeIn, HasNotFinished;
  }

  lemma NextMovesFate(s: State, act: Action, e: nat, dropped: bool, stopped: bool)
    requires Inv(s) && KnownTasks(s) && e < |s.execs| && s.execs[e].job.Call? && Fate(s, e, dropped, stopped)
    ensures var s' := Next(s, act);
            && e < |s'.execs|
            && Fate(s', e, dropped || BefallsIn(OutcomeDropped, s, act, e),
                    stopped || BefallsIn(StoppedShort, s, act, e))
  {
    assert InBounds(s);
    if act.Step? && act.exec == e {
      hide Inv, InBounds, Fate, KnownTasks, Befalls;
      if s.execs[e].alive {
        StepMovesFate(s, e, act.answer, dropped, stopped);
      } else {
        hide Statement;
      }
    } else {
      hide *;
      OthersLeaveFate(s, act, e, dropped, stopped);
      NotItsStep(s, act, e);
    }
  }

  lemma NotItsStep(s: State, act: Action, e: nat)
    requires !(act.Step? && act.exec == e)
    ensures forall m :: !BefallsIn(m, s, act, e)
  {}

  // ---------- Whole runs ----------

  /** A call that has just started has no history, and nothing has befallen it. */
  lemma NewcomersFate(s: State, act: Action, e: nat)
    requires Inv(s) && |s.execs| <= e < |Next(s, act).execs|
    ensures Fate(Next(s, act), e, false, false)
  {
    NoHistoryYet(s, e, |s.log|);
    assert s.log[..|s.log|] == s.log;
    if act.Step? {
      hide Statement;
      assert false;
    } else {
      AdministrativeExecs(s, act);
      NewcomerIsEarly(act.job);
      hide Next, Inv, Started, Kinds;
    }
  }

  lemma NewcomerIsEarly(job: Job)
    ensures var x := Started(job); x.receipt.None? && !Doomed(x.pc)
  {
    hide TrimSpace, Request.Fault;
  }

  lemma NotYetBefallen(m: Mishap, actions: seq<Action>, e: nat)
    requires e >= |Reached(actions).execs|
    ensures !Befell(m, actions, e)
  {
    forall k | 0 <= k < |actions| ensures !BefellAt(m, actions, k, e) {
      ReachableStatesKeepInv(actions[..k]);
      RunInTwo(EMPTY, actions, k);
      hide Inv, Run, InBounds;
      if e < |Reached(actions[..k]).execs| {
        ReceiptsAreKept(Reached(actions[..k]), actions[k..], e);
      }
    }
  }

  ghost predicate FateAfter(actions: seq<Action>, e: nat)
    requires e < |Reached(actions).execs|
  {
    Fate(Reached(actions), e, Befell(OutcomeDropped, actions, e), Befell(StoppedShort, actions, e))
  }

  lemma FateByOneMore(actions: seq<Action>, act: Action, e: nat)
    requires e < |Reached(actions + [act]).execs| && Reached(actions + [act]).execs[e].job.Call?
    requires e < |Reached(actions).execs| ==> Reached(actions).execs[e].job.Call? && FateAfter(actions, e)
    ensures FateAfter(actions + [act], e)
  {
    hide *;
    var s := Reached(actions);
    ReachedByOneMore(actions, act);
    ReachableStatesKeepInv(actions);
    TasksAreKnown(actions);
    BefellByOneMore(OutcomeDropped, actions, act, e);
    BefellByOneMore(StoppedShort, actions, act, e);
    if e < |s.execs| {
      assert Fate(s, e, Befell(OutcomeDropped, actions, e), Befell(StoppedShort, actions, e))
      by { FateUnfolds(actions, e); }
      NextMovesFate(s, act, e, Befell(OutcomeDropped, actions, e), Befell(StoppedShort, actions, e));
    } else {
      NewcomersFate(s, act, e);
      NotYetBefallen(OutcomeDropped, actions, e);
      NotYetBefallen(StoppedShort, actions, e);
      NotYetHere(s, act, e);
    }
    FateUnfolds(actions + [act], e);
  }

  lemma FateUnfolds(actions: seq<Action>, e: nat)
    requires e < |Reached(actions).execs|
    ensures FateAfter(actions, e) <==>
            Fate(Reached(actions), e, Befell(OutcomeDropped, actions, e), Befell(StoppedShort, actions, e))
  {}

  lemma NotYetHere(s: State, act: Action, e: nat)
    requires e >= |s.execs|
    ensures forall m :: !BefallsIn(m, s, act, e)
  {}

  /** In every reachable state, what has befallen a call decides where it is and what it has left. */
  lemma {:induction false} FateOfACall(actions: seq<Action>, e: nat)
    requires e < |Reached(actions).execs| && Reached(actions).execs[e].job.Call?
    ensures FateAfter(actions, e)
    decreases |actions|
  {
    hide *;
    if actions == [] {
      NobodyAtFirst();
    } else {
      var n := |actions| - 1;
      assert actions[..n] + [actions[n]] == actions;
      if e < |Reached(actions[..n]).execs| {
        ReachableStatesKeepInv(actions[..n]);
        ReachedByOneMore(actions[..n], actions[n]);
        ReceiptIsKept(Reached(actions[..n]), actions[n], e);
        FateOfACall(actions[..n], e);
      }
      FateByOneMore(actions[..n], actions[n], e);
    }
  }

  lemma NobodyAtFirst()
    ensures Reached([]).execs == []
  {}

  lemma ReachedByOneMore(actions: seq<Action>, act: Action)
    ensures Reached(actions + [act]) == Next(Reached(actions), act)
  {
    hide Next;
    RunByOneMore(EMPTY, actions, act);
  }

  // ---------- The receipt ----------

  /** Someone besides execution e has finalized the receipt, or found it finalized as they would have. */
  predicate FinishedByAnother(log: seq<Event>, id: nat, e: nat) {
    exists i :: 0 <= i < |log| && log[i].receipt == id && log[i].kind.Finished? && log[i].exec != e
  }

  lemma {:induction false} LoggedMeansLastFinished(log: seq<Event>, id: nat, i: nat)
    requires i < |log| && log[i].receipt == id && log[i].kind.Finished?
    ensures LastFinished(log, id).Some?
  {
    var n := |log| - 1;
    if i < n {
      LoggedMeansLastFinished(log[..n], id, i);
    }
  }

  lemma FinishedMeansLogged(s: State, id: nat, e: nat)
    requires Inv(s) && id < |s.db.receipts|
    ensures FinishedByAnother(s.log, id, e) ==> s.db.receipts[id].finished
    ensures s.db.receipts[id].finished && HasNotFinished(Kinds(s.log, e)) ==> FinishedByAnother(s.log, id, e)
  {
    assert SettledAt(s, id);
    if FinishedByAnother(s.log, id, e) {
      var i :| 0 <= i < |s.log| && s.log[i].receipt == id && s.log[i].kind.Finished? && s.log[i].exec != e;
      LoggedMeansLastFinished(s.log, id, i);
    }
    if s.db.receipts[id].finished && HasNotFinished(Kinds(s.log, e)) {
      LastFinishedIsLogged(s.log, id);
      hide Inv, LastFinished, Kinds;
      var i :| 0 <= i < |s.log| && s.log[i].receipt == id && s.log[i].kind == Finished(LastFinished(s.log, id).value);
      if s.log[i].exec == e {
        KindAt(s.log, i);
      }
    }
  }

  lemma UnderwayHasNotFinished(s: State, e: nat)
    requires Inv(s) && e < |s.execs| && s.execs[e].job.Call? && Underway(s.execs[e].pc)
    ensures HasNotFinished(Kinds(s.log, e))
  {
    assert Sound(s.execs[e], Kinds(s.log, e));
    RunningHistory(s.execs[e]);
    hide Inv, Kinds, SoFar, WellFormed;
  }

  /**
   In every reachable state, the receipt of a call is unfinished if and only if the call is still on
   its way to finalizing (a crash may have ended it there) or was stopped short, and no one else has
   finalized it.
   */
  lemma ReceiptIsUnfinishedExactly(actions: seq<Action>, e: nat)
    requires var s := Reached(actions); e < |s.execs| && s.execs[e].job.Call? && s.execs[e].receipt.Some?
    ensures var s := Reached(actions);
            var x, id := s.execs[e], s.execs[e].receipt.value;
            && id < |s.db.receipts|
            && (!s.db.receipts[id].finished <==>
                (Underway(x.pc) || Befell(StoppedShort, actions, e)) && !FinishedByAnother(s.log, id, e))
  {
    ReachableStatesKeepInv(actions);
    FateOfACall(actions, e);
    var s := Reached(actions);
    assert ExecInBounds(s.db, s.execs[e]);
    hide Reached, Befell, Inv, Underway, FinishedByAnother, Kinds;
    FinishedMeansLogged(s, s.execs[e].receipt.value, e);
    if Underway(s.execs[e].pc) {
      UnderwayHasNotFinished(s, e);
    }
    hide HasNotFinished, OutcomeIn;
  }

  lemma BefellStays(m: Mishap, actions: seq<Action>, more: seq<Action>, e: nat)
    requires Befell(m, actions, e)
    ensures Befell(m, actions + more, e)
  {
    hide Reached, BefallsIn;
    var k :| 0 <= k < |actions| && BefellAt(m, actions, k, e);
    assert (actions + more)[..k] == actions[..k] && (actions + more)[k] == actions[k];
    assert BefellAt(m, actions + more, k, e);
  }

  /**
   A call stopped short never finishes its receipt, however the run goes on: the receipt is finished if
   and only if someone else has finalized it.
   */
  lemma StoppedForGood(actions: seq<Action>, more: seq<Action>, e: nat)
    requires var s := Reached(actions); e < |s.execs| && s.execs[e].job.Call? && s.execs[e].receipt.Some?
    requires Befell(StoppedShort, actions, e)
    ensures var id, t := Reached(actions).execs[e].receipt.value, Reached(actions + more);
            id < |t.db.receipts| && (t.db.receipts[id].finished <==> FinishedByAnother(t.log, id, e))
  {
    BefellStays(StoppedShort, actions, more, e);
    ReachableStatesKeepInv(actions);
    RunInTwo(EMPTY, actions + more, |actions|);
    assert (actions + more)[..|actions|] == actions && (actions + more)[|actions|..] == more;
    assert Reached(actions + more) == Run(Reached(actions), more);
    hide Befell, Run, Inv, Underway, FinishedByAnother, Reached;
    ReceiptsAreKept(Reached(actions), more, e);
    ReceiptIsUnfinishedExactly(actions + more, e);
  }

  // ---------- The outcome checkpoint ----------

  /** A checkpoint tells how the call of this receipt ended. */
  predicate OutcomeOnRecord(table: seq<Checkpoint<Note>>, id: nat) {
    exists c :: 0 <= c < |table| && table[c].payload.receipt == Some(id) && !table[c].payload.event.MutationBefore?
  }

  /** Someone besides execution e has noted an outcome of the receipt. */
  predicate NotedByAnother(log: seq<Event>, id: nat, e: nat) {
    exists i :: 0 <= i < |log| && log[i].receipt == id && TellsOfOutcome(log[i].kind) && log[i].exec != e
  }

  /** Every checkpoint that names a receipt was written by an execution that holds it. */
  ghost predicate NotesLogged(s: State) {
    forall c :: 0 <= c < |s.db.checkpoints| && s.db.checkpoints[c].payload.receipt.Some? ==>
      NoteLogged(s.log, s.db.checkpoints[c].payload)
  }

  predicate NoteLogged(log: seq<Event>, note: Note)
    requires note.receipt.Some?
  {
    exists i :: 0 <= i < |log| && log[i].receipt == note.receipt.value && log[i].kind == Noted(note.event)
  }

  lemma NoteStaysLogged(log: seq<Event>, log': seq<Event>, note: Note)
    requires note.receipt.Some? && NoteLogged(log, note) && log <= log'
    ensures NoteLogged(log', note)
  {
    var i :| 0 <= i < |log| && log[i].receipt == note.receipt.value && log[i].kind == Noted(note.event);
    assert log'[i] == log[i];
  }

  lemma CommitKeepsNotesLogged(s: State, e: nat, eff: Effect)
    requires NotesLogged(s) && e < |s.execs| && ExecInBounds(s.db, s.execs[e]) && ExtendsReading(s.db, s.execs[e], eff)
    ensures NotesLogged(Commit(s, e, eff))
  {
    hide Latest, Duplicate;
    var s' := Commit(s, e, eff);
    assert s.log <= s'.log && s.db.checkpoints <= s'.db.checkpoints;
    forall c | 0 <= c < |s'.db.checkpoints| && s'.db.checkpoints[c].payload.receipt.Some?
      ensures NoteLogged(s'.log, s'.db.checkpoints[c].payload)
    {
      if c < |s.db.checkpoints| {
        NoteStaysLogged(s.log, s'.log, s.db.checkpoints[c].payload);
      } else {
        assert s'.log[|s.log|].kind == Noted(s'.db.checkpoints[c].payload.event);
      }
    }
  }

  lemma NextKeepsNotesLogged(s: State, act: Action)
    requires Inv(s) && NotesLogged(s)
    ensures NotesLogged(Next(s, act))
  {
    if act.Step? && act.exec < |s.execs| && s.execs[act.exec].alive {
      var x := s.execs[act.exec];
      assert Sound(x, Kinds(s.log, act.exec)) && ExecInBounds(s.db, x);
      StatementExtendsReading(s.db, x, act.answer);
      hide Statement, Inv, Sound, Commit, ExtendsReading, NotesLogged;
      CommitKeepsNotesLogged(s, act.exec, Statement(s.db, x, act.answer));
    } else {
      hide Inv, Started, NoteLogged;
    }
  }

  lemma {:induction false} NotesAreLogged(actions: seq<Action>)
    ensures NotesLogged(Reached(actions))
    decreases |actions|
  {
    if actions != [] {
      var n := |actions| - 1;
      NotesAreLogged(actions[..n]);
      ReachableStatesKeepInv(actions[..n]);
      hide Next, Inv, NotesLogged;
      NextKeepsNotesLogged(Reached(actions[..n]), actions[n]);
    }
  }

  /** Rows and log agree on who noted an outcome. */
  lemma OnRecordMeansLogged(s: State, e: nat, id: nat)
    requires Inv(s) && NotesLogged(s) && e < |s.execs| && s.execs[e].receipt == Some(id)
    ensures OutcomeOnRecord(s.db.checkpoints, id) <==> OutcomeIn(Kinds(s.log, e)) || NotedByAnother(s.log, id, e)
  {
    if OutcomeOnRecord(s.db.checkpoints, id) {
      RecordIsLogged(s, e, id);
    }
    if OutcomeIn(Kinds(s.log, e)) {
      var j :| 0 <= j < |Kinds(s.log, e)| && TellsOfOutcome(Kinds(s.log, e)[j]);
      KindIsLogged(s.log, e, Kinds(s.log, e)[j]);
      hide Inv, Kinds;
      var i :| 0 <= i < |s.log| && s.log[i].exec == e && s.log[i].kind == Kinds(s.log, e)[j];
      LogIsOnRecord(s, i, id);
    }
    if NotedByAnother(s.log, id, e) {
      hide Inv, Kinds;
      var i :| 0 <= i < |s.log| && s.log[i].receipt == id && TellsOfOutcome(s.log[i].kind) && s.log[i].exec != e;
      LogIsOnRecord(s, i, id);
    }
  }

  lemma RecordIsLogged(s: State, e: nat, id: nat)
    requires NotesLogged(s) && OutcomeOnRecord(s.db.checkpoints, id)
    ensures OutcomeIn(Kinds(s.log, e)) || NotedByAnother(s.log, id, e)
  {
    hide Kinds;
    var table := s.db.checkpoints;
    var c :| 0 <= c < |table| && table[c].payload.receipt == Some(id) && !table[c].payload.event.MutationBefore?;
    assert NoteLogged(s.log, table[c].payload);
    var i :| 0 <= i < |s.log| && s.log[i].receipt == id && s.log[i].kind == Noted(table[c].payload.event);
    if s.log[i].exec == e {
      KindAt(s.log, i);
    }
  }

  lemma LogIsOnRecord(s: State, i: nat, id: nat)
    requires Inv(s) && i < |s.log| && TellsOfOutcome(s.log[i].kind)
    requires s.log[i].receipt == id || (s.log[i].exec < |s.execs| && s.execs[s.log[i].exec].receipt == Some(id))
    ensures OutcomeOnRecord(s.db.checkpoints, id)
  {
    assert LoggedAt(s, s.log[i]);
    hide Inv;
    var c :| 0 <= c < |s.db.checkpoints|
             && s.db.checkpoints[c].payload == Note(s.log[i].kind.event, Some(s.log[i].receipt));
  }

  /**
   In every reachable state, no checkpoint tells the outcome of a mutation that belongs to a task if
   and only if the call has not ended (a crash may have ended it) or its outcome was dropped on the
   way, and no one else has noted one.
   */
  lemma OutcomeIsOffRecordExactly(actions: seq<Action>, e: nat)
    requires var s := Reached(actions);
             e < |s.execs| && s.execs[e].job.Call? && s.execs[e].receipt.Some? && s.execs[e].Noting()
    ensures var s := Reached(actions);
            var x, id := s.execs[e], s.execs[e].receipt.value;
            !OutcomeOnRecord(s.db.checkpoints, id) <==>
            (!x.pc.Done? || Befell(OutcomeDropped, actions, e)) && !NotedByAnother(s.log, id, e)
  {
    ReachableStatesKeepInv(actions);
    NotesAreLogged(actions);
    FateOfACall(actions, e);
    var s := Reached(actions);
    var x := s.execs[e];
    OnRecordMeansLogged(s, e, x.receipt.value);
    if !x.pc.Done? {
      assert Sound(x, Kinds(s.log, e));
      RunningHistory(x);
    }
    hide Reached, Befell, Inv, NotedByAnother, OutcomeOnRecord, Kinds, SoFar, OutcomeIn, WellFormed, HasNotFinished;
  }
}
