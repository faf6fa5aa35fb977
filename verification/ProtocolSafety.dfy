/** What the no-replay protocol guarantees in every reachable state, crashes included. */
module ProtocolSafety {
  import opened Text
  import opened Receipts
  import opened Checkpoints
  import opened Protocol
  import opened ProtocolInvariants

  // ---------- Positions in a history ----------

  /** An event is found in its execution's own history, at the place given by what came before it. */
  lemma {:induction false} KindAt(log: seq<Event>, i: nat)
    requires i < |log|
    ensures var e := log[i].exec;
            var p := |Kinds(log[..i], e)|;
            p < |Kinds(log, e)| && Kinds(log, e)[p] == log[i].kind
    ensures forall e :: Kinds(log[..i], e) <= Kinds(log, e)
  {
    var n := |log| - 1;
    if i < n {
      KindAt(log[..n], i);
      assert log[..n][..i] == log[..i];
    }
  }

  lemma KindsInOrder(log: seq<Event>, i: nat, j: nat)
    requires i < j < |log| && log[i].exec == log[j].exec
    ensures |Kinds(log[..i], log[i].exec)| < |Kinds(log[..j], log[i].exec)|
  {
    KindAt(log[..j], i);
    assert log[..j][..i] == log[..i];
  }

  /** A kind of event in an execution's history is an entry of the log. */
  lemma {:induction false} KindIsLogged(log: seq<Event>, e: nat, k: Kind)
    requires k in Kinds(log, e)
    ensures exists i :: 0 <= i < |log| && log[i].exec == e && log[i].kind == k
  {
    var n := |log| - 1;
    if k in Kinds(log[..n], e) {
      KindIsLogged(log[..n], e, k);
      var i :| 0 <= i < n && log[..n][i].exec == e && log[..n][i].kind == k;
      assert log[i].kind == k;
    }
  }

  // ---------- Write-ahead order ----------

  lemma RunningCallFollows(x: Exec, kinds: seq<Kind>)
    requires x.job.Call? && Sound(x, kinds)
    ensures Follows(kinds, x.Noting())
  {
    if !x.pc.Done? {
      var ending :=
        match x.pc
        case ReadReceipt(ending) => ending
        case WriteReceipt(ending) => ending
        case ReadSteps(Afterwards(ending)) => ending
        case ReadChain(Afterwards(ending)) => ending
        case ExtendChain(Afterwards(ending), _) => ending
        case Await => NoReply
        case Store(_, _) => ReplyNotShaped
        case _ => NeverSent;
      hide Follows;
      assert kinds <= Script(x.Noting(), ending);
      FollowsFrom(kinds, x.Noting(), ending);
    }
  }

  /**
   At every moment the history of a call is a prefix of one script: receipt, `mutation.before`
   checkpoint, delivery, finalize, outcome checkpoint. Nothing later exists without what is earlier.
   */
  lemma WriteAheadOrder(actions: seq<Action>, e: nat)
    requires var s := Reached(actions); e < |s.execs| && s.execs[e].job.Call?
    ensures var s := Reached(actions);
            exists ending: Ending :: !ending.External? && Kinds(s.log, e) <= Script(s.execs[e].Noting(), ending)
  {
    ReachableStatesKeepInv(actions);
    var s := Reached(actions);
    assert Sound(s.execs[e], Kinds(s.log, e));
    RunningCallFollows(s.execs[e], Kinds(s.log, e));
  }

  /** Every checkpoint in the history is a row of the receipt's task that names the receipt. */
  lemma CheckpointsNameTheirReceipt(actions: seq<Action>, i: nat)
    requires var s := Reached(actions); i < |s.log| && s.log[i].kind.Noted?
    ensures var s := Reached(actions);
            var ev := s.log[i];
            && ev.exec < |s.execs|
            && exists c :: 0 <= c < |s.db.checkpoints|
                           && s.execs[ev.exec].task == Some(s.db.checkpoints[c].task)
                           && s.db.checkpoints[c].payload == Note(ev.kind.event, Some(ev.receipt))
  {
    ReachableStatesKeepInv(actions);
    assert LoggedAt(Reached(actions), Reached(actions).log[i]);
  }

  // ---------- At most once ----------

  lemma ScriptSendsOnce(noting: bool, ending: Ending, p: nat)
    requires p < |Script(noting, ending)| && Script(noting, ending)[p] == Sent
    ensures p == |Opening(noting)|
  {}

  /** Only a call that inserted its own receipt ever sends. */
  lemma SenderIsAuthor(s: State, i: nat)
    requires Inv(s) && i < |s.log| && s.log[i].kind == Sent
    ensures var ev := s.log[i];
            && ev.exec < |s.execs| && s.execs[ev.exec].job.Call?
            && ev.receipt < |s.authors| && s.authors[ev.receipt] == ev.exec
  {
    hide Conforms, Settled, Chained, Readings;
    assert LoggedAt(s, s.log[i]);
    var e := s.log[i].exec;
    assert Sound(s.execs[e], Kinds(s.log, e));
    KindAt(s.log, i);
  }

  lemma SendsOnce(s: State, i: nat, j: nat)
    requires Inv(s) && i < j < |s.log| && s.log[i].kind == Sent && s.log[j].kind == Sent
    ensures s.log[i].exec != s.log[j].exec
  {
    SenderIsAuthor(s, i);
    var e := s.log[i].exec;
    if s.log[j].exec == e {
      var kinds := Kinds(s.log, e);
      assert Sound(s.execs[e], kinds);
      RunningCallFollows(s.execs[e], kinds);
      KindAt(s.log, i);
      KindAt(s.log, j);
      KindsInOrder(s.log, i, j);
      var noting := s.execs[e].Noting();
      hide Script, Kinds, Sound, Inv;
      var ending: Ending :| !ending.External? && kinds <= Script(noting, ending);
      ScriptSendsOnce(noting, ending, |Kinds(s.log[..i], e)|);
      ScriptSendsOnce(noting, ending, |Kinds(s.log[..j], e)|);
    }
  }

  /** The upstream is called at most once per operation id, whatever runs, stops or crashes. */
  lemma AtMostOneSendPerOperation(actions: seq<Action>, i: nat, j: nat)
    requires var s := Reached(actions);
             i < j < |s.log| && s.log[i].kind == Sent && s.log[j].kind == Sent
    ensures var s := Reached(actions);
            && s.log[i].receipt < |s.db.receipts| && s.log[j].receipt < |s.db.receipts|
            && s.db.receipts[s.log[i].receipt].operation != s.db.receipts[s.log[j].receipt].operation
  {
    ReachableStatesKeepInv(actions);
    var s := Reached(actions);
    hide *;
    SenderIsAuthor(s, i);
    SenderIsAuthor(s, j);
    SendsOnce(s, i, j);
    OperationsDiffer(s, s.log[i].receipt, s.log[j].receipt);
  }

  lemma OperationsDiffer(s: State, i: nat, j: nat)
    requires Inv(s) && i < |s.authors| && j < |s.authors| && i != j
    ensures i < |s.db.receipts| && j < |s.db.receipts|
    ensures s.db.receipts[i].operation != s.db.receipts[j].operation
  {
    hide AllSound, Settled, Logged, Chained, Readings, InBounds, AuthorOf;
  }

  // ---------- Calls without a receipt ----------

  /** An early statement writes only when it inserts a receipt. */
  lemma EarlyStatementWithoutReceipt(db: Db, x: Exec, a: Answer)
    requires ExecInBounds(db, x) && (Early(x.pc) || x.pc.Done?)
    ensures var eff := Statement(db, x, a); eff.exec.receipt.None? ==> eff.write.Nothing? && eff.kind.None?
  {
    hide TrimSpace, FindOperation, Request.Owner, Request.Row, Request.Operation, Request.Matches;
  }

  /** A statement after which a call or a prepare still holds no receipt changes nothing. */
  lemma StatementWithoutReceipt(db: Db, x: Exec, a: Answer)
    requires ExecInBounds(db, x) && WellFormed(x) && Preparing(x)
    ensures var eff := Statement(db, x, a); eff.exec.receipt.None? ==> eff.write.Nothing? && eff.kind.None?
  {
    StatementKeepsIdentity(db, x, a);
    hide Statement, FindOperation, Request.Row;
    if x.receipt.None? {
      EarlyStatementWithoutReceipt(db, x, a);
    }
  }

  /** An execution keeps its job and, once it holds one, its receipt. */
  lemma ReceiptIsKept(s: State, act: Action, e: nat)
    requires Inv(s) && e < |s.execs|
    ensures var s' := Next(s, act);
            && e < |s'.execs| && s'.execs[e].job == s.execs[e].job
            && (s.execs[e].receipt.Some? ==> s'.execs[e].receipt == s.execs[e].receipt)
  {
    if act.Step? && act.exec == e && s.execs[e].alive {
      assert Sound(s.execs[e], Kinds(s.log, e)) && ExecInBounds(s.db, s.execs[e]);
      StatementKeepsIdentity(s.db, s.execs[e], act.answer);
    }
    hide Statement, Inv, Sound, Started, FindOperation, Request.Row;
  }

  lemma {:induction false} ReceiptsAreKept(s: State, more: seq<Action>, e: nat)
    requires Inv(s) && e < |s.execs|
    ensures var t := Run(s, more);
            && e < |t.execs| && t.execs[e].job == s.execs[e].job
            && (s.execs[e].receipt.Some? ==> t.execs[e].receipt == s.execs[e].receipt)
    decreases |more|
  {
    if more != [] {
      var n := |more| - 1;
      ReceiptsAreKept(s, more[..n], e);
      RunKeepsInv(s, more[..n]);
      ReceiptIsKept(Run(s, more[..n]), more[n], e);
      hide Inv, Next;
    }
  }

  lemma StepWithoutReceipt(s: State, e: nat, a: Answer)
    requires Inv(s) && e < |s.execs| && s.execs[e].alive && Preparing(s.execs[e])
    requires var s' := Next(s, Step(e, a)); e < |s'.execs| && s'.execs[e].receipt.None?
    ensures Next(s, Step(e, a)).db == s.db
  {
    assert Sound(s.execs[e], Kinds(s.log, e)) && ExecInBounds(s.db, s.execs[e]);
    StatementWithoutReceipt(s.db, s.execs[e], a);
    hide Statement, Inv, Sound;
  }

  /** The k-th action of the run leaves every table as it was. */
  ghost predicate ChangesNoTable(actions: seq<Action>, k: nat)
    requires k < |actions|
  {
    Next(Reached(actions[..k]), actions[k]).db == Reached(actions[..k]).db
  }

  /** A run is its first k actions, the next one, and the rest. */
  lemma ReachedInThree(actions: seq<Action>, k: nat)
    requires k < |actions|
    ensures InBounds(Next(Reached(actions[..k]), actions[k]))
    ensures Reached(actions) == Run(Next(Reached(actions[..k]), actions[k]), actions[k + 1..])
  {
    hide Next;
    NextStaysInBounds(Reached(actions[..k]), actions[k]);
    assert actions[..k] + [actions[k]] == actions[..k + 1];
    RunByOneMore(EMPTY, actions[..k], actions[k]);
    RunInTwo(EMPTY, actions, k + 1);
    hide Run;
  }

  lemma PreparingIsOfTheJob(x: Exec, y: Exec)
    requires x.job == y.job
    ensures Preparing(x) == Preparing(y)
  {}

  lemma IdleStepChangesNothing(s: State, act: Action)
    requires InBounds(s) && act.Step? && !(act.exec < |s.execs| && s.execs[act.exec].alive)
    ensures Next(s, act) == s
  {}

  lemma StepOfCallWithoutReceipt(actions: seq<Action>, e: nat, k: nat)
    requires var s := Reached(actions); e < |s.execs| && Preparing(s.execs[e]) && s.execs[e].receipt.None?
    requires k < |actions| && actions[k].Step? && actions[k].exec == e
    ensures Next(Reached(actions[..k]), actions[k]).db == Reached(actions[..k]).db
  {
    hide *;
    var before := Reached(actions[..k]);
    var after := Next(before, actions[k]);
    ReachedInThree(actions, k);
    ReachableStatesKeepInv(actions[..k]);
    if e < |before.execs| && before.execs[e].alive {
      NextKeepsInv(before, actions[k]);
      ReceiptIsKept(before, actions[k], e);
      ReceiptsAreKept(after, actions[k + 1..], e);
      PreparingIsOfTheJob(before.execs[e], Reached(actions).execs[e]);
      StepWithoutReceipt(before, e, actions[k].answer);
    } else {
      IdleStepChangesNothing(before, actions[k]);
    }
  }

  /**
   A call or prepare that holds no receipt, because it was refused or answered from an existing one,
   has left no trace: no step of it changed any table, and nothing of it is in the history.
   */
  lemma DeduplicatedCallsDoNothing(actions: seq<Action>, e: nat)
    requires var s := Reached(actions); e < |s.execs| && Preparing(s.execs[e]) && s.execs[e].receipt.None?
    ensures forall k :: 0 <= k < |actions| && actions[k].Step? && actions[k].exec == e ==> ChangesNoTable(actions, k)
    ensures Kinds(Reached(actions).log, e) == []
  {
    ReachableStatesKeepInv(actions);
    var s := Reached(actions);
    var kinds := Kinds(s.log, e);
    if kinds != [] {
      KindIsLogged(s.log, e, kinds[0]);
    }
    hide Reached, Inv, ChangesNoTable;
    forall k | 0 <= k < |actions| && actions[k].Step? && actions[k].exec == e ensures ChangesNoTable(actions, k) {
      StepOfCallWithoutReceipt(actions, e, k);
    }
  }

  // ---------- Truthful delivery state ----------

  predicate Happened(log: seq<Event>, e: nat, k: Kind) {
    exists i :: 0 <= i < |log| && log[i].exec == e && log[i].kind == k
  }

  /** No one but its own call has finalized the receipt. */
  ghost predicate OnlyCallFinishes(s: State, id: nat)
    requires id < |s.authors|
  {
    && s.authors[id] < |s.execs| && s.execs[s.authors[id]].job.Call?
    && forall i :: 0 <= i < |s.log| && s.log[i].receipt == id && s.log[i].kind.Finished? ==>
         s.log[i].exec == s.authors[id]
  }

  lemma {:induction false} LastFinishedIsLogged(log: seq<Event>, id: nat)
    requires LastFinished(log, id).Some?
    ensures exists i :: 0 <= i < |log| && log[i].receipt == id
                        && log[i].kind == Finished(LastFinished(log, id).value)
  {
    var n := |log| - 1;
    if log[n].receipt == id && log[n].kind.Finished? {
    } else {
      LastFinishedIsLogged(log[..n], id);
      var i :| 0 <= i < n && log[..n][i].receipt == id
               && log[..n][i].kind == Finished(LastFinished(log[..n], id).value);
      assert log[i].kind == log[..n][i].kind;
    }
  }

  /** What a history that contains a finalize has already been through. */
  lemma FinishedHistory(kinds: seq<Kind>, noting: bool, ending: Ending, outcome: Outcome)
    requires !ending.External? && kinds <= Script(noting, ending) && Finished(outcome) in kinds
    ensures outcome == OutcomeOf(ending)
    ensures Sent in kinds <==> !ending.NeverSent?
    ensures Replied in kinds <==> ending.ReplyNotShaped? || ending.ReplyShown?
  {
    var opening := Opening(noting) + Delivering(ending);
    var p :| 0 <= p < |kinds| && kinds[p] == Finished(outcome);
    assert Script(noting, ending)[p] == Finished(outcome);
    assert p == |opening|;
    assert kinds[..p] == opening;
    assert forall k :: k in kinds ==> k in Script(noting, ending);
    assert forall k :: k in opening ==> k in kinds;
  }

  lemma HappenedIffInKinds(log: seq<Event>, e: nat, k: Kind)
    ensures Happened(log, e, k) <==> k in Kinds(log, e)
  {
    if Happened(log, e, k) {
      var i :| 0 <= i < |log| && log[i].exec == e && log[i].kind == k;
      KindAt(log, i);
    }
    if k in Kinds(log, e) {
      KindIsLogged(log, e, k);
    }
  }

  /**
   A finished receipt tells the truth about delivery: confirmed exactly when a reply came back,
   unknown exactly when the request went out and none did, prepared exactly when it never went out.
   */
  lemma DeliveryStateIsTruthful(actions: seq<Action>, id: nat)
    requires var s := Reached(actions); id < |s.authors| && id < |s.db.receipts| && OnlyCallFinishes(s, id)
    requires Reached(actions).db.receipts[id].finished
    ensures var s := Reached(actions);
            var sent := Happened(s.log, s.authors[id], Sent);
            var replied := Happened(s.log, s.authors[id], Replied);
            match s.db.receipts[id].outcome.delivery
            case Confirmed => replied && sent && s.db.receipts[id].outcome.progress == Returned
            case Unknown => sent && !replied && s.db.receipts[id].outcome.progress == Uncertain
            case Prepared => !sent && s.db.receipts[id].outcome.progress == Progress.Failed
  {
    ReachableStatesKeepInv(actions);
    var s := Reached(actions);
    var e := s.authors[id];
    var kinds := Kinds(s.log, e);
    assert SettledAt(s, id);
    LastFinishedIsLogged(s.log, id);
    var outcome := s.db.receipts[id].outcome;
    var i :| 0 <= i < |s.log| && s.log[i].receipt == id && s.log[i].kind == Finished(outcome);
    KindAt(s.log, i);
    assert Sound(s.execs[e], kinds);
    RunningCallFollows(s.execs[e], kinds);
    HappenedIffInKinds(s.log, e, Sent);
    HappenedIffInKinds(s.log, e, Replied);
    hide Kinds, Script, Sound, Inv, Happened;
    var ending: Ending :| !ending.External? && kinds <= Script(s.execs[e].Noting(), ending);
    FinishedHistory(kinds, s.execs[e].Noting(), ending, outcome);
  }

  /**
   A mutation that was sent is never reported as safe to repeat or to retry on request: until a
   reply is recorded the policy says verify, and it says do not replay only once a reply came back.
   */
  lemma SentMutationsAreNeverSafeToRepeat(actions: seq<Action>, id: nat)
    requires var s := Reached(actions); id < |s.authors| && id < |s.db.receipts| && OnlyCallFinishes(s, id)
    requires var s := Reached(actions); s.db.receipts[id].mutation && Happened(s.log, s.authors[id], Sent)
    ensures var s := Reached(actions);
            ReplayPolicy(s.db.receipts[id]) ==
            if s.db.receipts[id].finished && Happened(s.log, s.authors[id], Replied)
            then DoNotReplay else VerifyBeforeAnyRetry
  {
    ReachableStatesKeepInv(actions);
    var s := Reached(actions);
    assert SettledAt(s, id);
    if s.db.receipts[id].finished {
      DeliveryStateIsTruthful(actions, id);
    }
  }

  // ---------- Stored results ----------

  /** The result belongs to a receipt, and to that receipt's task, and is within the bound. */
  ghost predicate ProperBlob(db: Db, blob: Blob) {
    && |blob.content| <= MAX_STORED_RESULT && blob.receipt < |db.receipts|
    && blob.task == db.receipts[blob.receipt].task
  }

  ghost predicate ProperBlobs(db: Db) {
    forall k :: 0 <= k < |db.blobs| ==> ProperBlob(db, db.blobs[k])
  }

  lemma StatementStoresBounded(db: Db, x: Exec, a: Answer)
    requires ExecInBounds(db, x) && WellFormed(x)
    ensures var w := Statement(db, x, a).write;
            w.AddBlob? ==>
              && x.job.Call? && x.receipt == Some(w.blob.receipt) && w.blob.task == x.task
              && |w.blob.content| <= MAX_STORED_RESULT
  {
    hide TrimSpace, FindOperation, Latest, Duplicate, Db.Fits, Request.Owner, Request.Row, Request.Operation,
         Request.Matches;
  }

  /** Growing tables keep their results proper when the one added is. */
  lemma BlobsStayProper(db: Db, db': Db, added: seq<Blob>)
    requires ProperBlobs(db) && |db.receipts| <= |db'.receipts| && db'.blobs == db.blobs + added
    requires forall id :: 0 <= id < |db.receipts| ==> SameBinding(db.receipts[id], db'.receipts[id])
    requires forall k :: 0 <= k < |added| ==> ProperBlob(db, added[k])
    ensures ProperBlobs(db')
  {
    forall k | 0 <= k < |db'.blobs| ensures ProperBlob(db', db'.blobs[k]) {
      var blob := db'.blobs[k];
      assert k < |db.blobs| ==> blob == db.blobs[k];
      assert ProperBlob(db, blob);
      assert SameBinding(db.receipts[blob.receipt], db'.receipts[blob.receipt]);
    }
  }

  lemma AddedBlobIsProper(s: State, e: nat, a: Answer)
    requires Inv(s) && e < |s.execs| && ExecInBounds(s.db, s.execs[e])
    ensures var w := Statement(s.db, s.execs[e], a).write;
            w.AddBlob? ==> ProperBlob(s.db, w.blob)
  {
    var x := s.execs[e];
    assert Sound(x, Kinds(s.log, e));
    StatementStoresBounded(s.db, x, a);
    hide Statement;
    var w := Statement(s.db, x, a).write;
    if w.AddBlob? {
      assert AuthorOf(s, w.blob.receipt);
      hide AllSound, Settled, Logged, Chained, Readings, InBounds, Sound, UniqueOperations;
    }
  }

  /** Which results an action adds. */
  lemma BlobsOfNext(s: State, act: Action)
    requires InBounds(s)
    ensures var before, after := s.db.blobs, Next(s, act).db.blobs;
            if act.Step? && act.exec < |s.execs| && s.execs[act.exec].alive then
              && ExecInBounds(s.db, s.execs[act.exec])
              && var w := Statement(s.db, s.execs[act.exec], act.answer).write;
                 after == before + if w.AddBlob? then [w.blob] else []
            else after == before
  {
    hide Statement, Started;
  }

  lemma NextKeepsBlobs(s: State, act: Action)
    requires Inv(s) && ProperBlobs(s.db)
    ensures ProperBlobs(Next(s, act).db)
  {
    NextGrows(s, act);
    BlobsOfNext(s, act);
    hide Next, Statement, Inv, ProperBlobs, ProperBlob, InBounds;
    if act.Step? && act.exec < |s.execs| && s.execs[act.exec].alive {
      AddedBlobIsProper(s, act.exec, act.answer);
      var w := Statement(s.db, s.execs[act.exec], act.answer).write;
      BlobsStayProper(s.db, Next(s, act).db, if w.AddBlob? then [w.blob] else []);
    } else {
      BlobsStayProper(s.db, Next(s, act).db, []);
    }
  }

  /** In every reachable state every stored result is bounded and belongs to its receipt's task. */
  lemma {:induction false} StoredResultsAreProper(actions: seq<Action>)
    ensures ProperBlobs(Reached(actions).db)
    decreases |actions|
  {
    if actions != [] {
      var n := |actions| - 1;
      StoredResultsAreProper(actions[..n]);
      ReachableStatesKeepInv(actions[..n]);
      NextKeepsBlobs(Reached(actions[..n]), actions[n]);
      hide Next, Inv, ProperBlobs;
    }
  }

  // ---------- The checkpoint chain ----------

  /** However writers interleave, every task's checkpoints are one chain numbered 1..n. */
  lemma CheckpointsFormChains(actions: seq<Action>, task: nat)
    ensures Numbered(Reached(actions).db.checkpoints, task)
  {
    ReachableStatesKeepInv(actions);
    ChainIsNumbered(Reached(actions).db.checkpoints, task);
  }

  /** What no later history takes back. */
  ghost predicate GrowsInto(s: State, s': State) {
    && s.db.checkpoints <= s'.db.checkpoints && s.log <= s'.log
    && |s.db.receipts| <= |s'.db.receipts|
    && forall id :: 0 <= id < |s.db.receipts| ==> SameBinding(s.db.receipts[id], s'.db.receipts[id])
  }

  lemma NextGrows(s: State, act: Action)
    requires Inv(s)
    ensures GrowsInto(s, Next(s, act))
  {
    hide TrimSpace, Request.Fault, Chained;
    if act.Step? && act.exec < |s.execs| {
      hide Statement;
    }
  }

  lemma GrowsIntoIsTransitive(a: State, b: State, c: State)
    requires GrowsInto(a, b) && GrowsInto(b, c)
    ensures GrowsInto(a, c)
  {
    forall id | 0 <= id < |a.db.receipts| ensures SameBinding(a.db.receipts[id], c.db.receipts[id]) {
      assert SameBinding(b.db.receipts[id], c.db.receipts[id]);
    }
  }

  /** No later history changes a checkpoint, what a receipt is bound to, or the past. */
  lemma {:induction false} HistoryOnlyGrows(s: State, more: seq<Action>)
    requires Inv(s)
    ensures GrowsInto(s, Run(s, more))
    decreases |more|
  {
    if more != [] {
      var n := |more| - 1;
      HistoryOnlyGrows(s, more[..n]);
      RunKeepsInv(s, more[..n]);
      hide Next, Inv, GrowsInto;
      NextGrows(Run(s, more[..n]), more[n]);
      GrowsIntoIsTransitive(s, Run(s, more[..n]), Run(s, more));
    }
  }

  // ---------- Finalizing is check-then-update ----------

  /** A finished receipt can change only under an execution that had read it unfinished. */
  lemma FinishedReceiptChangesOnlyByRace(s: State, act: Action, id: nat)
    requires Inv(s) && id < |s.db.receipts| && s.db.receipts[id].finished
    ensures Next(s, act).db.receipts[id] != s.db.receipts[id] <==>
            && act.Step? && act.exec < |s.execs| && s.execs[act.exec].alive
            && s.execs[act.exec].pc.WriteReceipt? && s.execs[act.exec].receipt == Some(id)
            && OutcomeOf(s.execs[act.exec].pc.ending) != s.db.receipts[id].outcome
  {
    hide TrimSpace, Request.Fault, Chained, FindOperation, Latest, Duplicate, Request.Owner, Request.Row;
  }

  lemma WritingCallHasNotFinished(s: State, e: nat, i: nat)
    requires Inv(s) && e < |s.execs| && s.execs[e].job.Call? && s.execs[e].pc.WriteReceipt?
    requires i < |s.log| && s.log[i].exec == e
    ensures !s.log[i].kind.Finished?
  {
    hide Settled, Authored, Logged, Readings, Chained;
    KindAt(s.log, i);
    assert Sound(s.execs[e], Kinds(s.log, e));
    assert s.log[i].kind in SoFar(s.execs[e]);
  }

  lemma FinishedReceiptIsLogged(s: State, id: nat)
    requires Inv(s) && id < |s.db.receipts| && s.db.receipts[id].finished
    ensures exists i :: 0 <= i < |s.log| && s.log[i].receipt == id && s.log[i].kind.Finished?
  {
    assert SettledAt(s, id);
    LastFinishedIsLogged(s.log, id);
  }

  /** A call about to write a receipt that is finished already was overtaken by someone else's finalize. */
  lemma WriterWasOvertaken(s: State, e: nat, id: nat)
    requires Inv(s) && id < |s.db.receipts| && s.db.receipts[id].finished
    requires e < |s.execs| && s.execs[e].job.Call? && s.execs[e].pc.WriteReceipt? && s.execs[e].receipt == Some(id)
    ensures exists i :: 0 <= i < |s.log| && s.log[i].receipt == id && s.log[i].kind.Finished? && s.log[i].exec != e
  {
    FinishedReceiptIsLogged(s, id);
    hide *;
    var i :| 0 <= i < |s.log| && s.log[i].receipt == id && s.log[i].kind.Finished?;
    if s.log[i].exec == e {
      WritingCallHasNotFinished(s, e, i);
    }
  }

  /**
   A receipt is written once unless someone besides its own call finalizes it: overwriting takes a
   second finalizer, either the one that writes now or one that wrote before.
   */
  lemma OverwritingTakesASecondFinalizer(s: State, act: Action, id: nat)
    requires Inv(s) && id < |s.db.receipts| && s.db.receipts[id].finished
    requires Next(s, act).db.receipts[id] != s.db.receipts[id]
    ensures act.Step? && act.exec < |s.execs|
    ensures !s.execs[act.exec].job.Call?
            || exists i :: 0 <= i < |s.log| && s.log[i].receipt == id && s.log[i].kind.Finished?
                 && s.log[i].exec != act.exec
  {
    FinishedReceiptChangesOnlyByRace(s, act, id);
    hide *;
    if s.execs[act.exec].job.Call? {
      WriterWasOvertaken(s, act.exec, id);
    }
  }

  /** A finalizer that read the receipt unfinished has yet to write, and brings another outcome. */
  ghost predicate PendingWrite(s: State, id: nat)
    requires id < |s.db.receipts|
  {
    exists e :: 0 <= e < |s.execs| && PendingAt(s, e, id)
  }

  predicate PendingAt(s: State, e: nat, id: nat)
    requires e < |s.execs| && id < |s.db.receipts|
  {
    && s.execs[e].alive && s.execs[e].pc.WriteReceipt? && s.execs[e].receipt == Some(id)
    && OutcomeOf(s.execs[e].pc.ending) != s.db.receipts[id].outcome
  }

  /** What a statement against a finished receipt leaves: no write is pending that was not before. */
  lemma StatementLeavesNoWrite(db: Db, x: Exec, a: Answer, id: nat)
    requires ExecInBounds(db, x) && id < |db.receipts| && db.receipts[id].finished
    ensures var y := Statement(db, x, a).exec;
            y.pc.WriteReceipt? && y.receipt == Some(id) ==> y == x
  {
    hide TrimSpace, FindOperation, Latest, Duplicate, Db.Fits, Request.Owner, Request.Row, Request.Operation,
         Request.Matches;
  }

  lemma NoPendingWriteStays(s: State, act: Action, id: nat)
    requires Inv(s) && id < |s.db.receipts| && s.db.receipts[id].finished && !PendingWrite(s, id)
    ensures var s' := Next(s, act);
            id < |s'.db.receipts| && s'.db.receipts[id] == s.db.receipts[id] && !PendingWrite(s', id)
  {
    FinishedReceiptChangesOnlyByRace(s, act, id);
    NextGrows(s, act);
    var s' := Next(s, act);
    assert s'.db.receipts[id] == s.db.receipts[id] by {
      if act.Step? && act.exec < |s.execs| { assert !PendingAt(s, act.exec, id); }
      hide Next, Inv, GrowsInto;
    }
    if act.Step? && act.exec < |s.execs| && s.execs[act.exec].alive {
      assert ExecInBounds(s.db, s.execs[act.exec]);
      StatementLeavesNoWrite(s.db, s.execs[act.exec], act.answer, id);
    }
    forall e | 0 <= e < |s'.execs| ensures !PendingAt(s', e, id) {
      assert e < |s.execs| ==> !PendingAt(s, e, id);
      hide Inv, Statement, GrowsInto, TrimSpace, Request.Fault;
    }
  }

  lemma {:induction false} FinishedReceiptStays(s: State, more: seq<Action>, id: nat)
    requires Inv(s) && id < |s.db.receipts| && s.db.receipts[id].finished && !PendingWrite(s, id)
    ensures var t := Run(s, more);
            id < |t.db.receipts| && t.db.receipts[id] == s.db.receipts[id] && !PendingWrite(t, id)
    decreases |more|
  {
    if more != [] {
      var n := |more| - 1;
      FinishedReceiptStays(s, more[..n], id);
      RunKeepsInv(s, more[..n]);
      hide Next, Inv, PendingWrite;
      NoPendingWriteStays(Run(s, more[..n]), more[n], id);
    }
  }

  lemma PendingWriteChanges(s: State, e: nat, id: nat, a: Answer)
    requires Inv(s) && id < |s.db.receipts| && s.db.receipts[id].finished && e < |s.execs| && PendingAt(s, e, id)
    ensures var t := Run(s, [Step(e, a)]);
            id < |t.db.receipts| && t.db.receipts[id] != s.db.receipts[id]
  {
    FinishedReceiptChangesOnlyByRace(s, Step(e, a), id);
    NextGrows(s, Step(e, a));
    RunByOneMore(s, [], Step(e, a));
    assert [] + [Step(e, a)] == [Step(e, a)];
    assert Run(s, []) == s;
    hide Next, Inv, Run;
  }

  /** In this state, and in everything it can lead to, the row of the receipt is the same. */
  ghost predicate FixedForEver(s: State, id: nat)
    requires InBounds(s) && id < |s.db.receipts|
  {
    forall more :: id < |Run(s, more).db.receipts| && Run(s, more).db.receipts[id] == s.db.receipts[id]
  }

  /**
   Write-once over runs of single statements: a finished receipt never changes again, whatever
   runs, if and only if no finalizer that had read it unfinished still has to write another outcome.
   */
  lemma FinishedForGoodExactly(s: State, id: nat)
    requires Inv(s) && id < |s.db.receipts| && s.db.receipts[id].finished
    ensures FixedForEver(s, id) <==> !PendingWrite(s, id)
  {
    if PendingWrite(s, id) {
      var e :| 0 <= e < |s.execs| && PendingAt(s, e, id);
      PendingWriteChanges(s, e, id, Answer(NotConnected, Unshapable, ""));
    } else {
      hide Run, Inv, PendingWrite;
      forall more ensures id < |Run(s, more).db.receipts| && Run(s, more).db.receipts[id] == s.db.receipts[id] {
        FinishedReceiptStays(s, more, id);
      }
    }
  }

  // ---------- One finalizer ----------

  /** The execution finalizes this receipt, or has, or will. */
  predicate Finalizer(x: Exec, id: nat) {
    (x.job.Call? && x.receipt == Some(id)) || (x.job.FinalizeOnly? && x.job.receipt == id)
  }

  lemma FinalizerStays(s: State, act: Action, e: nat, id: nat)
    requires Inv(s) && e < |s.execs| && Finalizer(s.execs[e], id)
    ensures var s' := Next(s, act); e < |s'.execs| && Finalizer(s'.execs[e], id)
  {
    if act.Step? && act.exec == e && s.execs[e].alive {
      assert Sound(s.execs[e], Kinds(s.log, e)) && ExecInBounds(s.db, s.execs[e]);
      StatementKeepsIdentity(s.db, s.execs[e], act.answer);
    }
    hide Statement, Inv, Sound, Started, FindOperation, Request.Row;
  }

  lemma {:induction false} FinalizersRemain(s: State, more: seq<Action>, e: nat, id: nat)
    requires Inv(s) && e < |s.execs| && Finalizer(s.execs[e], id)
    ensures var t := Run(s, more); e < |t.execs| && Finalizer(t.execs[e], id)
    decreases |more|
  {
    if more != [] {
      var n := |more| - 1;
      FinalizersRemain(s, more[..n], e, id);
      RunKeepsInv(s, more[..n]);
      FinalizerStays(Run(s, more[..n]), more[n], e, id);
      hide Inv, Next, Finalizer;
    }
  }

  /** Whoever wrote an outcome into the history finalizes the receipt. */
  lemma FinishedByFinalizer(s: State, i: nat)
    requires Inv(s) && i < |s.log| && s.log[i].kind.Finished?
    ensures var ev := s.log[i];
            ev.exec < |s.execs| && Finalizer(s.execs[ev.exec], ev.receipt) && !AboutToWrite(s.execs[ev.exec])
  {
    assert LoggedAt(s, s.log[i]);
    var e := s.log[i].exec;
    var kinds := Kinds(s.log, e);
    assert Sound(s.execs[e], kinds);
    KindAt(s.log, i);
    if s.execs[e].job.Call? && s.execs[e].pc.WriteReceipt? {
      WritingCallHasNotFinished(s, e, i);
    }
    hide Inv, Kinds, Conforms;
  }

  predicate AboutToWrite(x: Exec) {
    x.pc.WriteReceipt?
  }

  lemma WriterIsFinalizer(s: State, e: nat, id: nat)
    requires Inv(s) && e < |s.execs| && id < |s.db.receipts| && PendingAt(s, e, id)
    ensures Finalizer(s.execs[e], id) && AboutToWrite(s.execs[e])
  {
    assert Sound(s.execs[e], Kinds(s.log, e));
  }

  /** No two executions of the state finalize the receipt. */
  predicate OneFinalizer(t: State, id: nat) {
    forall e, f :: 0 <= e < f < |t.execs| ==> !Finalizer(t.execs[e], id) || !Finalizer(t.execs[f], id)
  }

  /** If the only finalizer of the run has written, no one has yet to write. */
  lemma OnlyFinalizerHasWritten(s: State, more: seq<Action>, f: nat, e: nat, id: nat)
    requires Inv(s) && id < |s.db.receipts| && OneFinalizer(Run(s, more), id)
    requires f < |s.execs| && Finalizer(s.execs[f], id) && !AboutToWrite(s.execs[f]) && e < |s.execs|
    ensures !PendingAt(s, e, id)
  {
    hide Run, Inv, Finalizer;
    if e != f && PendingAt(s, e, id) {
      WriterIsFinalizer(s, e, id);
      FinalizersRemain(s, more, e, id);
      FinalizersRemain(s, more, f, id);
    }
  }

  /**
   With a single finalizer a receipt is a write-once cell: if no two executions of the whole run
   finalize it, then once finished it stays as it is, whatever else interleaves.
   */
  lemma OneFinalizerWritesOnce(s: State, more: seq<Action>, id: nat)
    requires Inv(s) && id < |s.db.receipts| && s.db.receipts[id].finished && OneFinalizer(Run(s, more), id)
    ensures var t := Run(s, more); id < |t.db.receipts| && t.db.receipts[id] == s.db.receipts[id]
  {
    hide *;
    FinishedReceiptIsLogged(s, id);
    var i :| 0 <= i < |s.log| && s.log[i].receipt == id && s.log[i].kind.Finished?;
    FinishedByFinalizer(s, i);
    forall e | 0 <= e < |s.execs| ensures !PendingAt(s, e, id) {
      OnlyFinalizerHasWritten(s, more, s.log[i].exec, e, id);
    }
    NoneIsPending(s, id);
    FinishedReceiptStays(s, more, id);
  }

  lemma NoneIsPending(s: State, id: nat)
    requires id < |s.db.receipts| && forall e :: 0 <= e < |s.execs| ==> !PendingAt(s, e, id)
    ensures !PendingWrite(s, id)
  {
    hide PendingAt;
  }

  /** A finalizer that finds the receipt unfinished is two steps later about to write. */
  lemma FinalizerReads(s: State, e: nat, a: Answer, id: nat, outcome: Outcome)
    requires InBounds(s) && e < |s.execs| && s.execs[e] == Started(FinalizeOnly(id, outcome))
    requires id < |s.db.receipts| && !s.db.receipts[id].finished
    ensures var row := s.db.receipts[id];
            var first := Next(s, Step(e, a));
            InBounds(first) &&
            Next(first, Step(e, a)) ==
            s.(execs := s.execs[e := Exec(FinalizeOnly(id, outcome), row.mutation, row.task, Some(id),
                                          WriteReceipt(External(outcome)), true)])
  {
    NextStaysInBounds(s, Step(e, a));
    var row := s.db.receipts[id];
    var y := Exec(FinalizeOnly(id, outcome), row.mutation, row.task, Some(id), ReadReceipt(External(outcome)), true);
    assert Next(s, Step(e, a)) == s.(execs := s.execs[e := y]);
  }

  lemma FinalizerWrites(s: State, e: nat, a: Answer, id: nat, outcome: Outcome)
    requires InBounds(s) && e < |s.execs| && s.execs[e].alive
    requires s.execs[e].pc == WriteReceipt(External(outcome)) && s.execs[e].receipt == Some(id) && id < |s.db.receipts|
    ensures var s' := Next(s, Step(e, a));
            && s'.db.receipts == s.db.receipts[id := s.db.receipts[id].(outcome := outcome, finished := true)]
            && |s'.execs| == |s.execs|
            && forall f :: 0 <= f < |s.execs| && f != e ==> s'.execs[f] == s.execs[f]
  {}

  lemma FinalizersStart(s: State, id: nat, first: Outcome, second: Outcome)
    requires InBounds(s)
    ensures var e, f := |s.execs|, |s.execs| + 1;
            var one := Next(s, Start(FinalizeOnly(id, first)));
            && InBounds(one)
            && var two := Next(one, Start(FinalizeOnly(id, second)));
               && InBounds(two) && two.db == s.db && |two.execs| == f + 1
               && two.execs[e] == Started(FinalizeOnly(id, first))
               && two.execs[f] == Started(FinalizeOnly(id, second))
  {}

  lemma RacingFinalizers(s2: State, e: nat, f: nat, id: nat, first: Outcome, second: Outcome, a: Answer)
    requires InBounds(s2) && e < |s2.execs| && f < |s2.execs| && e != f
    requires id < |s2.db.receipts| && !s2.db.receipts[id].finished
    requires s2.execs[e] == Started(FinalizeOnly(id, first)) && s2.execs[f] == Started(FinalizeOnly(id, second))
    ensures var s3 := Next(s2, Step(e, a));
            InBounds(s3) && var s4 := Next(s3, Step(e, a));
            InBounds(s4) && var s5 := Next(s4, Step(f, a));
            InBounds(s5) && var s6 := Next(s5, Step(f, a));
            InBounds(s6) && var s7 := Next(s6, Step(e, a));
            InBounds(s7) && WonBy(s7, id, first) && WonBy(Next(s7, Step(f, a)), id, second)
  {
    hide Next;
    FinalizerReads(s2, e, a, id, first);
    var s3 := Next(s2, Step(e, a));
    NextStaysInBounds(s3, Step(e, a));
    var s4 := Next(s3, Step(e, a));
    assert s4.execs[f] == s2.execs[f] && s4.db == s2.db;
    FinalizerReads(s4, f, a, id, second);
    var s5 := Next(s4, Step(f, a));
    NextStaysInBounds(s5, Step(f, a));
    var s6 := Next(s5, Step(f, a));
    FinalizerWrites(s6, e, a, id, first);
    var s7 := Next(s6, Step(e, a));
    NextStaysInBounds(s6, Step(e, a));
    FinalizerWrites(s7, f, a, id, second);
  }

  predicate WonBy(s: State, id: nat, outcome: Outcome) {
    id < |s.db.receipts| && s.db.receipts[id].finished && s.db.receipts[id].outcome == outcome
  }

  /**
   So the write-once law holds of finalizes that run alone and not of the statements: from every
   state in which a receipt is unfinished, two racing finalizers can finish it one way and then another.
   */
  lemma FinishedReceiptsCanBeOverwritten(s: State, id: nat, first: Outcome, second: Outcome, a: Answer)
    requires InBounds(s) && id < |s.db.receipts| && !s.db.receipts[id].finished
    ensures exists won, act ::
              && Leads(s, won) && WonBy(won, id, first)
              && InBounds(won) && WonBy(Next(won, act), id, second)
  {
    var e, f := |s.execs|, |s.execs| + 1;
    FinalizersStart(s, id, first, second);
    assert Leads(s, s) by { assert Run(s, []) == s; }
    hide Next, InBounds, WonBy, Leads, Run, Started;
    var s1 := Next(s, Start(FinalizeOnly(id, first)));
    LeadsOn(s, s, Start(FinalizeOnly(id, first)));
    var s2 := Next(s1, Start(FinalizeOnly(id, second)));
    LeadsOn(s, s1, Start(FinalizeOnly(id, second)));
    RacingFinalizers(s2, e, f, id, first, second, a);
    var s3 := Next(s2, Step(e, a));
    LeadsOn(s, s2, Step(e, a));
    var s4 := Next(s3, Step(e, a));
    LeadsOn(s, s3, Step(e, a));
    var s5 := Next(s4, Step(f, a));
    LeadsOn(s, s4, Step(f, a));
    var s6 := Next(s5, Step(f, a));
    LeadsOn(s, s5, Step(f, a));
    var s7 := Next(s6, Step(e, a));
    LeadsOn(s, s6, Step(e, a));
    assert WonBy(s7, id, first) && WonBy(Next(s7, Step(f, a)), id, second);
  }
}
