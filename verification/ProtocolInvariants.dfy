/** What every step of the protocol keeps. */
module ProtocolInvariants {
  import opened Text
  import opened Receipts
  import opened Checkpoints
  import opened Protocol

  // ---------- The script of a call ----------

  /** What an execution has done, in order. */
  function Kinds(log: seq<Event>, e: nat): seq<Kind> {
    if log == [] then []
    else
      var n := |log| - 1;
      Kinds(log[..n], e) + if log[n].exec == e then [log[n].kind] else []
  }

  function Opening(noting: bool): seq<Kind> {
    [Inserted] + if noting then [Noted(MutationBefore)] else []
  }

  function Delivering(ending: Ending): seq<Kind> {
    match ending
    case NeverSent => [Unreached]
    case NoReply => [Sent, Lost]
    case _ => [Sent, Replied]
  }

  function Closing(noting: bool, ending: Ending): seq<Kind> {
    [Finished(OutcomeOf(ending))] + if noting && !ending.ReplyNotShaped? then [Noted(EventOf(ending))] else []
  }

  /** The whole life of a call: receipt, checkpoint, delivery, finalize, checkpoint. */
  function Script(noting: bool, ending: Ending): seq<Kind> {
    Opening(noting) + Delivering(ending) + Closing(noting, ending)
  }

  /** How far along its script a running call is. */
  function SoFar(x: Exec): seq<Kind> {
    match x.pc
    case ReadSteps(Before) => [Inserted]
    case ReadChain(Before) => [Inserted]
    case ExtendChain(Before, _) => [Inserted]
    case ReadSteps(Afterwards(ending)) => Opening(true) + Delivering(ending) + [Finished(OutcomeOf(ending))]
    case ReadChain(Afterwards(ending)) => Opening(true) + Delivering(ending) + [Finished(OutcomeOf(ending))]
    case ExtendChain(Afterwards(ending), _) => Opening(true) + Delivering(ending) + [Finished(OutcomeOf(ending))]
    case Connect => Opening(x.Noting())
    case Await => Opening(x.Noting()) + [Sent]
    case Store(_, _) => Opening(x.Noting()) + [Sent, Replied]
    case ReadReceipt(ending) => Opening(x.Noting()) + Delivering(ending)
    case WriteReceipt(ending) => Opening(x.Noting()) + Delivering(ending)
    case _ => []
  }

  ghost predicate Follows(kinds: seq<Kind>, noting: bool) {
    exists ending: Ending :: !ending.External? && kinds <= Script(noting, ending)
  }

  ghost predicate Conforms(kinds: seq<Kind>, x: Exec) {
    if x.pc.Done? then Follows(kinds, x.Noting()) else kinds == SoFar(x)
  }

  // ---------- One execution ----------

  predicate Preparing(x: Exec) {
    x.job.Call? || x.job.PrepareOnly?
  }

  predicate Early(pc: Pc) {
    pc.Lookup? || pc.Resolve? || pc.Insert?
  }

  /** On the way to a checkpoint. */
  predicate AtNote(pc: Pc) {
    pc.ReadSteps? || pc.ReadChain? || pc.ExtendChain?
  }

  /** Program points fit the job, and a receipt is held exactly from the insert on. */
  predicate WellFormed(x: Exec) {
    match x.job
    case Call(q, _) =>
      && x.mutation == q.mutation
      && (Early(x.pc) ==> x.receipt.None?)
      && (!Early(x.pc) && !x.pc.Done? ==> x.receipt.Some?)
      && (match x.pc
          case ReadSteps(point) => x.Noting() && OwnPoint(point)
          case ReadChain(point) => x.Noting() && OwnPoint(point)
          case ExtendChain(point, _) => x.Noting() && OwnPoint(point)
          case ReadReceipt(ending) => !ending.External?
          case WriteReceipt(ending) => !ending.External?
          case Load => false
          case _ => true)
    case PrepareOnly(q) =>
      && x.mutation == q.mutation
      && (Early(x.pc) ==> x.receipt.None?)
      && (Early(x.pc) || x.pc.Done? || (x.receipt.Some? && AtNote(x.pc) && x.pc.point.Before?))
    case FinalizeOnly(id, outcome) =>
      (x.receipt.Some? ==> x.receipt.value == id) &&
      (match x.pc
       case Load => x.receipt.None?
       case ReadReceipt(ending) => ending == External(outcome)
       case WriteReceipt(ending) => ending == External(outcome)
       case ReadSteps(point) => point == Afterwards(External(outcome))
       case ReadChain(point) => point == Afterwards(External(outcome))
       case ExtendChain(point, _) => point == Afterwards(External(outcome))
       case Done(_) => true
       case _ => false)
    case Record(_) =>
      x.receipt.None? && (x.pc.Done? || (AtNote(x.pc) && x.pc.point.Plain?))
  }

  predicate OwnPoint(point: Point) {
    point.Before? || (point.Afterwards? && !point.ending.External? && !point.ending.ReplyNotShaped?)
  }

  function Appended(eff: Effect): seq<Kind> {
    if eff.kind.Some? then [eff.kind.value] else []
  }

  /** Still before the write of an outcome, or never to come to one. */
  predicate Settling(x: Exec) {
    x.pc.Load? || x.pc.ReadReceipt? || x.pc.WriteReceipt? || Preparing(x)
  }

  predicate HasNotFinished(kinds: seq<Kind>) {
    forall i :: 0 <= i < |kinds| ==> !kinds[i].Finished?
  }

  /** What is true of one execution and its history. */
  ghost predicate Sound(x: Exec, kinds: seq<Kind>) {
    && WellFormed(x)
    && if x.job.Call? then Conforms(kinds, x) else Sent !in kinds && (Settling(x) ==> HasNotFinished(kinds))
  }

  lemma FollowsFrom(kinds: seq<Kind>, noting: bool, ending: Ending)
    requires !ending.External? && kinds <= Script(noting, ending)
    ensures Follows(kinds, noting)
  {}

  lemma EarlyStatementIsSound(db: Db, x: Exec, a: Answer, kinds: seq<Kind>)
    requires ExecInBounds(db, x) && Sound(x, kinds) && Early(x.pc)
    ensures var eff := Statement(db, x, a); Sound(eff.exec, kinds + Appended(eff))
  {
    hide TrimSpace, FindOperation, Follows, Request.Owner, Request.Row, Request.Operation, Request.Matches;
    var y := Statement(db, x, a).exec;
    if x.job.Call? {
      assert kinds == [] && kinds + [] == [] && kinds + [Inserted] == [Inserted];
      assert Opening(false) == [Inserted];
      FollowsFrom([], y.Noting(), NeverSent);
    }
  }

  /** A failed checkpoint leaves a history that some script continues. */
  lemma UnfinishedNoteFollows(point: Point)
    requires OwnPoint(point)
    ensures Follows(SoFar(Exec(Record(0), true, Some(0), None, ReadChain(point), true)), true)
  {
    var ending := if point.Afterwards? then point.ending else NeverSent;
    FollowsFrom(SoFar(Exec(Record(0), true, Some(0), None, ReadChain(point), true)), true, ending);
  }

  lemma NoteReadIsSound(db: Db, x: Exec, a: Answer, kinds: seq<Kind>)
    requires ExecInBounds(db, x) && Sound(x, kinds) && (x.pc.ReadSteps? || x.pc.ReadChain?)
    ensures var eff := Statement(db, x, a); Sound(eff.exec, kinds + Appended(eff))
  {
    hide Latest, Follows, Db.Fits;
    assert kinds + [] == kinds;
    if x.job.Call? {
      UnfinishedNoteFollows(x.pc.point);
    }
  }

  lemma ExtendChainIsSound(db: Db, x: Exec, a: Answer, kinds: seq<Kind>)
    requires ExecInBounds(db, x) && Sound(x, kinds) && x.pc.ExtendChain?
    ensures var eff := Statement(db, x, a); Sound(eff.exec, kinds + Appended(eff))
  {
    hide Duplicate, Follows, Db.Fits;
    assert kinds + [] == kinds;
    if x.job.Call? {
      UnfinishedNoteFollows(x.pc.point);
      if x.pc.point.Before? {
        assert [Inserted] + [Noted(MutationBefore)] == Opening(true);
      } else {
        var ending := x.pc.point.ending;
        assert kinds + [Noted(EventOf(ending))] == Script(true, ending);
        FollowsFrom(kinds + [Noted(EventOf(ending))], true, ending);
      }
    }
  }

  lemma ConnectIsSound(db: Db, x: Exec, a: Answer, kinds: seq<Kind>)
    requires ExecInBounds(db, x) && Sound(x, kinds) && x.pc.Connect?
    ensures var eff := Statement(db, x, a); Sound(eff.exec, kinds + Appended(eff))
  {
    hide Follows;
  }

  /** A call that stops right after its reply. */
  lemma RepliedFollows(noting: bool)
    ensures Follows(Opening(noting) + [Sent, Replied], noting)
  {
    FollowsFrom(Opening(noting) + [Sent, Replied], noting, ReplyNotShaped);
  }

  lemma AwaitIsSound(db: Db, x: Exec, a: Answer, kinds: seq<Kind>)
    requires ExecInBounds(db, x) && Sound(x, kinds) && x.pc.Await?
    ensures var eff := Statement(db, x, a); Sound(eff.exec, kinds + Appended(eff))
  {
    hide Follows;
    if x.job.Call? {
      var opening := Opening(x.Noting());
      assert opening + [Sent] + [Lost] == opening + [Sent, Lost];
      assert opening + [Sent] + [Replied] == opening + [Sent, Replied];
      if a.upstream.Answers? && a.shaping.Panics? {
        RepliedFollows(x.Noting());
      }
    }
  }

  lemma StoreIsSound(db: Db, x: Exec, a: Answer, kinds: seq<Kind>)
    requires ExecInBounds(db, x) && Sound(x, kinds) && x.pc.Store?
    ensures var eff := Statement(db, x, a); Sound(eff.exec, kinds + Appended(eff))
  {
    hide Follows;
    assert kinds + [] == kinds;
    if x.job.Call? && Statement(db, x, a).exec.pc.Done? {
      FollowsFrom(kinds, x.Noting(), ReplyNotShaped);
    }
  }

  lemma ReceiptStatementIsSound(db: Db, x: Exec, a: Answer, kinds: seq<Kind>)
    requires ExecInBounds(db, x) && Sound(x, kinds) && (x.pc.Load? || x.pc.ReadReceipt? || x.pc.WriteReceipt?)
    ensures var eff := Statement(db, x, a); Sound(eff.exec, kinds + Appended(eff))
  {
    hide Follows;
    var eff := Statement(db, x, a);
    assert kinds + [] == kinds;
    if x.job.Call? {
      var ending := x.pc.ending;
      assert eff.exec.pc.Done? ==> kinds + Appended(eff) <= Script(x.Noting(), ending);
      if eff.exec.pc.Done? {
        FollowsFrom(kinds + Appended(eff), x.Noting(), ending);
      }
    }
  }

  /** Each statement keeps its execution well formed and one step further along its script. */
  lemma StatementIsSound(db: Db, x: Exec, a: Answer, kinds: seq<Kind>)
    requires ExecInBounds(db, x) && Sound(x, kinds)
    ensures var eff := Statement(db, x, a); Sound(eff.exec, kinds + Appended(eff))
  {
    if Early(x.pc) {
      EarlyStatementIsSound(db, x, a, kinds);
    } else if x.pc.ReadSteps? || x.pc.ReadChain? {
      NoteReadIsSound(db, x, a, kinds);
    } else if x.pc.ExtendChain? {
      ExtendChainIsSound(db, x, a, kinds);
    } else if x.pc.Connect? {
      ConnectIsSound(db, x, a, kinds);
    } else if x.pc.Await? {
      AwaitIsSound(db, x, a, kinds);
    } else if x.pc.Store? {
      StoreIsSound(db, x, a, kinds);
    } else if x.pc.Done? {
      assert kinds + [] == kinds;
    } else {
      ReceiptStatementIsSound(db, x, a, kinds);
    }
  }

  // ---------- What one statement can do to the tables ----------

  /** An execution keeps its job, and its receipt once it has one; only an insert gives it one. */
  ghost predicate KeepsIdentity(db: Db, x: Exec, eff: Effect) {
    var y := eff.exec;
    && y.job == x.job && y.alive == x.alive
    && (x.receipt.Some? ==> y.receipt == x.receipt && y.mutation == x.mutation && y.task == x.task)
    && (!eff.write.AddReceipt? && Preparing(x) ==> y.receipt == x.receipt)
    && (eff.write.AddReceipt? ==>
          && Preparing(x) && x.pc.Insert? && x.receipt.None? && y.receipt == Some(|db.receipts|)
          && y.task == x.task && y.mutation == x.mutation && eff.kind == Some(Inserted)
          && eff.write.row == x.job.request.Row(x.task)
          && FindOperation(db.receipts, x.job.request.Operation()).None?)
  }

  /** An outcome is written, or found already written, exactly when it enters the history. */
  ghost predicate TellsOutcome(db: Db, x: Exec, eff: Effect)
    requires ExecInBounds(db, x)
  {
    && (eff.write.SetOutcome? ==>
          x.receipt == Some(eff.write.receipt) && eff.kind == Some(Finished(eff.write.outcome)))
    && (eff.kind.Some? && eff.kind.value.Finished? && !eff.write.SetOutcome? ==>
          && eff.write.Nothing? && x.receipt.Some?
          && db.receipts[x.receipt.value].finished
          && db.receipts[x.receipt.value].outcome == eff.kind.value.outcome)
  }

  /** A checkpoint is the successor of an earlier reading, admitted by the constraint. */
  ghost predicate ExtendsReading(db: Db, x: Exec, eff: Effect)
    requires ExecInBounds(db, x)
  {
    var y := eff.exec;
    && (eff.write.AddCheckpoint? <==> eff.kind.Some? && eff.kind.value.Noted?)
    && (eff.write.AddCheckpoint? ==>
          && x.task.Some? && x.pc.ExtendChain? && y.receipt == x.receipt && y.task == x.task
          && !Duplicate(db.checkpoints, eff.write.link)
          && eff.write.link == Successor(db.checkpoints, x.task.value, x.pc.latest,
                                         Note(eff.kind.value.event, x.receipt)))
    && (y.pc.ExtendChain? ==> y.task.Some? && y.pc.latest == Latest(db.checkpoints, y.task.value))
  }

  lemma StatementKeepsIdentity(db: Db, x: Exec, a: Answer)
    requires ExecInBounds(db, x) && WellFormed(x)
    ensures KeepsIdentity(db, x, Statement(db, x, a))
  {
    hide TrimSpace, FindOperation, Latest, Duplicate, Db.Fits, Request.Owner, Request.Row, Request.Operation,
         Request.Matches;
  }

  lemma StatementTellsOutcome(db: Db, x: Exec, a: Answer)
    requires ExecInBounds(db, x) && WellFormed(x)
    ensures TellsOutcome(db, x, Statement(db, x, a))
  {
    hide TrimSpace, FindOperation, Latest, Duplicate, Db.Fits, Request.Owner, Request.Row, Request.Operation,
         Request.Matches;
  }

  lemma NoteExtendsReading(db: Db, x: Exec, a: Answer)
    requires ExecInBounds(db, x) && WellFormed(x) && AtNote(x.pc)
    ensures ExtendsReading(db, x, Statement(db, x, a))
  {
    hide TrimSpace, FindOperation, Latest, Duplicate, Db.Fits, Request.Owner, Request.Row, Request.Operation,
         Request.Matches, LookupStatement, InsertStatement, ReadReceiptStatement, AwaitStep;
  }

  lemma OtherStatementAddsNoNote(db: Db, x: Exec, a: Answer)
    requires ExecInBounds(db, x) && WellFormed(x) && !AtNote(x.pc)
    ensures ExtendsReading(db, x, Statement(db, x, a))
  {
    hide TrimSpace, FindOperation, Latest, Duplicate, Db.Fits, Request.Owner, Request.Row, Request.Operation,
         Request.Matches, Successor, WellFormed;
  }

  lemma StatementExtendsReading(db: Db, x: Exec, a: Answer)
    requires ExecInBounds(db, x) && WellFormed(x)
    ensures ExtendsReading(db, x, Statement(db, x, a))
  {
    hide *;
    if AtNote(x.pc) {
      NoteExtendsReading(db, x, a);
    } else {
      OtherStatementAddsNoNote(db, x, a);
    }
  }

  // ---------- The whole system ----------

  ghost predicate AllSound(s: State) {
    forall e :: 0 <= e < |s.execs| ==> Sound(s.execs[e], Kinds(s.log, e))
  }

  ghost predicate AuthorOf(s: State, id: nat)
    requires id < |s.authors| == |s.db.receipts|
  {
    var e, row := s.authors[id], s.db.receipts[id];
    e < |s.execs| &&
    var x := s.execs[e];
    && Preparing(x) && x.receipt == Some(id)
    && row.(outcome := UNFINISHED, finished := false) == x.job.request.Row(x.task)
  }

  /** Receipts and the executions that inserted them are in one to one correspondence. */
  ghost predicate Authored(s: State) {
    && |s.authors| == |s.db.receipts|
    && UniqueOperations(s.db.receipts)
    && (forall id :: 0 <= id < |s.authors| ==> AuthorOf(s, id))
    && forall e :: 0 <= e < |s.execs| && Preparing(s.execs[e]) && s.execs[e].receipt.Some? ==>
         s.execs[e].receipt.value < |s.authors| && s.authors[s.execs[e].receipt.value] == e
  }

  /** The outcome a receipt was last finalized with. */
  function LastFinished(log: seq<Event>, id: nat): Option<Outcome> {
    if log == [] then None
    else
      var n := |log| - 1;
      if log[n].receipt == id && log[n].kind.Finished? then Some(log[n].kind.outcome) else LastFinished(log[..n], id)
  }

  ghost predicate SettledAt(s: State, id: nat)
    requires id < |s.db.receipts|
  {
    var row := s.db.receipts[id];
    match LastFinished(s.log, id)
    case None => !row.finished && row.outcome == UNFINISHED
    case Some(outcome) => row.finished && row.outcome == outcome
  }

  /** Every row says what the history says. */
  ghost predicate Settled(s: State) {
    forall id :: 0 <= id < |s.db.receipts| ==> SettledAt(s, id)
  }

  /** A checkpoint of the receipt's task that names the event and the receipt. */
  ghost predicate NotedIn(db: Db, ev: Event, task: Option<nat>) {
    exists c ::
      0 <= c < |db.checkpoints| && task == Some(db.checkpoints[c].task)
      && ev.kind.Noted? && db.checkpoints[c].payload == Note(ev.kind.event, Some(ev.receipt))
  }

  ghost predicate LoggedAt(s: State, ev: Event) {
    && ev.exec < |s.execs| && ev.receipt < |s.db.receipts|
    && s.execs[ev.exec].receipt == Some(ev.receipt)
    && (ev.kind.Noted? ==> NotedIn(s.db, ev, s.execs[ev.exec].task))
  }

  ghost predicate Logged(s: State) {
    forall i :: 0 <= i < |s.log| ==> LoggedAt(s, s.log[i])
  }

  /** A reading of the chain, however old, was a checkpoint of the task it was made for. */
  ghost predicate Readings(s: State) {
    forall e :: 0 <= e < |s.execs| && s.execs[e].pc.ExtendChain? ==>
      var x := s.execs[e];
      && x.task.Some?
      && (x.pc.latest.Some? ==>
            && x.pc.latest.value < |s.db.checkpoints|
            && s.db.checkpoints[x.pc.latest.value].task == x.task.value)
  }

  ghost predicate Inv(s: State) {
    && InBounds(s) && AllSound(s) && Authored(s) && Settled(s) && Logged(s)
    && Chained(s.db.checkpoints) && Readings(s)
  }

  // ---------- One lemma for each part ----------

  lemma CommitKeepsSound(s: State, e: nat, eff: Effect)
    requires AllSound(s) && e < |s.execs|
    requires Sound(eff.exec, Kinds(s.log, e) + Appended(eff))
    requires eff.kind.Some? && eff.exec.receipt.None? ==> !eff.exec.job.Call?
    ensures AllSound(Commit(s, e, eff))
  {
    hide WellFormed, Conforms;
    var s' := Commit(s, e, eff);
    forall f | 0 <= f < |s'.execs| ensures Sound(s'.execs[f], Kinds(s'.log, f)) {
      CommitHistory(s, e, eff, f);
      if f == e {
        var kinds := Kinds(s.log, e);
        assert forall i :: 0 <= i < |kinds| ==> (kinds + Appended(eff))[i] == kinds[i];
        assert eff.exec.job.Call? || Sound(eff.exec, Kinds(s.log, e));
        assert Kinds(s.log, e) + [] == Kinds(s.log, e);
      } else {
        assert Sound(s.execs[f], Kinds(s.log, f));
      }
    }
  }

  lemma CommitHistory(s: State, e: nat, eff: Effect, f: nat)
    requires e < |s.execs|
    ensures Kinds(Commit(s, e, eff).log, f) ==
            if f == e && eff.exec.receipt.Some? then Kinds(s.log, f) + Appended(eff) else Kinds(s.log, f)
  {
    var log := Commit(s, e, eff).log;
    if |log| > |s.log| {
      assert log[..|s.log|] == s.log;
    }
  }

  lemma CommitKeepsAuthored(s: State, e: nat, eff: Effect)
    requires Authored(s) && e < |s.execs|
    requires ExecInBounds(s.db, s.execs[e]) && KeepsIdentity(s.db, s.execs[e], eff)
             && TellsOutcome(s.db, s.execs[e], eff)
    ensures Authored(Commit(s, e, eff))
  {
    hide TrimSpace, FindOperation;
    var s' := Commit(s, e, eff);
    forall id | 0 <= id < |s'.authors| ensures AuthorOf(s', id) {
      if id < |s.authors| {
        assert AuthorOf(s, id);
        assert SameBinding(s'.db.receipts[id], s.db.receipts[id]);
      }
    }
    CommitKeepsOperations(s, e, eff);
  }

  lemma CommitKeepsOperations(s: State, e: nat, eff: Effect)
    requires UniqueOperations(s.db.receipts) && e < |s.execs|
    requires KeepsIdentity(s.db, s.execs[e], eff)
    ensures UniqueOperations(Commit(s, e, eff).db.receipts)
  {
    hide TrimSpace, FindOperation;
    var before, after := s.db.receipts, Commit(s, e, eff).db.receipts;
    assert forall i :: 0 <= i < |before| ==> after[i].operation == before[i].operation;
    if eff.write.AddReceipt? {
      assert after[|before|].operation == s.execs[e].job.request.Operation();
    }
  }

  lemma CommitKeepsSettled(s: State, e: nat, eff: Effect)
    requires Settled(s) && Logged(s) && e < |s.execs|
    requires ExecInBounds(s.db, s.execs[e]) && KeepsIdentity(s.db, s.execs[e], eff)
             && TellsOutcome(s.db, s.execs[e], eff)
    ensures Settled(Commit(s, e, eff))
  {
    hide TrimSpace, FindOperation;
    var s' := Commit(s, e, eff);
    forall id | 0 <= id < |s'.db.receipts| ensures SettledAt(s', id) {
      assert s'.log != s.log ==> s'.log[..|s.log|] == s.log;
      if id < |s.db.receipts| {
        assert SettledAt(s, id);
      } else {
        NothingFinishedYet(s, id, |s.log|);
        assert s.log[..|s.log|] == s.log;
      }
    }
  }

  /** No history mentions a receipt that is not in the table. */
  lemma {:induction false} NothingFinishedYet(s: State, id: nat, n: nat)
    requires Logged(s) && id >= |s.db.receipts| && n <= |s.log|
    ensures LastFinished(s.log[..n], id).None?
  {
    if n > 0 {
      assert LoggedAt(s, s.log[n - 1]);
      NothingFinishedYet(s, id, n - 1);
      assert s.log[..n][..n - 1] == s.log[..n - 1];
    }
  }

  lemma CommitKeepsLogged(s: State, e: nat, eff: Effect)
    requires Logged(s) && e < |s.execs|
    requires ExecInBounds(s.db, s.execs[e]) && ExecInBounds(Stored(s.db, eff.write), eff.exec)
    requires KeepsIdentity(s.db, s.execs[e], eff) && ExtendsReading(s.db, s.execs[e], eff)
    ensures Logged(Commit(s, e, eff))
  {
    hide TrimSpace, FindOperation, Latest, Duplicate, Db.Fits;
    var s' := Commit(s, e, eff);
    forall i | 0 <= i < |s'.log| ensures LoggedAt(s', s'.log[i]) {
      var ev := s'.log[i];
      if i < |s.log| {
        assert LoggedAt(s, s.log[i]);
        if ev.kind.Noted? {
          NotedStays(s.db, eff.write, ev, s.execs[ev.exec].task);
        }
      } else if ev.kind.Noted? {
        assert s'.db.checkpoints[|s.db.checkpoints|] == eff.write.link;
      }
    }
  }

  lemma NotedStays(db: Db, w: Write, ev: Event, task: Option<nat>)
    requires NotedIn(db, ev, task)
    ensures NotedIn(Stored(db, w), ev, task)
  {
    var c :| 0 <= c < |db.checkpoints| && task == Some(db.checkpoints[c].task)
             && ev.kind.Noted? && db.checkpoints[c].payload == Note(ev.kind.event, Some(ev.receipt));
    assert Stored(db, w).checkpoints[c] == db.checkpoints[c];
  }

  lemma CommitKeepsChain(s: State, e: nat, eff: Effect)
    requires Chained(s.db.checkpoints) && Readings(s) && e < |s.execs|
    requires ExecInBounds(s.db, s.execs[e]) && ExtendsReading(s.db, s.execs[e], eff)
    ensures Chained(Commit(s, e, eff).db.checkpoints) && Readings(Commit(s, e, eff))
  {
    hide Chained, Duplicate, Latest;
    var x := s.execs[e];
    if eff.write.AddCheckpoint? {
      InsertNeedsFreshReading(s.db.checkpoints, x.task.value, x.pc.latest, Note(eff.kind.value.event, x.receipt));
    }
    assert forall c :: 0 <= c < |s.db.checkpoints| ==> Stored(s.db, eff.write).checkpoints[c] == s.db.checkpoints[c];
  }

  // ---------- Every reachable state ----------

  /** Everything the table lemmas need to know about a statement. */
  ghost predicate Proper(db: Db, x: Exec, eff: Effect, kinds: seq<Kind>)
    requires ExecInBounds(db, x)
  {
    && ExecInBounds(Stored(db, eff.write), eff.exec)
    && Sound(eff.exec, kinds + Appended(eff))
    && (eff.kind.Some? && eff.exec.receipt.None? ==> !eff.exec.job.Call?)
    && KeepsIdentity(db, x, eff) && TellsOutcome(db, x, eff) && ExtendsReading(db, x, eff)
  }

  lemma StatementIsProper(db: Db, x: Exec, a: Answer, kinds: seq<Kind>)
    requires ExecInBounds(db, x) && Sound(x, kinds)
    ensures Proper(db, x, Statement(db, x, a), kinds)
  {
    StatementStaysInBounds(db, x, a);
    StatementIsSound(db, x, a, kinds);
    StatementKeepsIdentity(db, x, a);
    StatementTellsOutcome(db, x, a);
    StatementExtendsReading(db, x, a);
    CallsLogWhatTheyDo(db, x, a);
    hide Statement, Conforms, KeepsIdentity, TellsOutcome, ExtendsReading;
  }

  lemma CallsLogWhatTheyDo(db: Db, x: Exec, a: Answer)
    requires ExecInBounds(db, x) && WellFormed(x)
    ensures var eff := Statement(db, x, a);
            eff.kind.Some? && eff.exec.receipt.None? ==> !eff.exec.job.Call?
  {
    hide TrimSpace, FindOperation, Latest, Duplicate, Db.Fits, Request.Owner, Request.Row, Request.Operation;
  }

  lemma CommitKeepsInv(s: State, e: nat, eff: Effect)
    requires Inv(s) && e < |s.execs| && Proper(s.db, s.execs[e], eff, Kinds(s.log, e))
    requires InBounds(Commit(s, e, eff))
    ensures Inv(Commit(s, e, eff))
  {
    assert ExecInBounds(s.db, s.execs[e]);
    hide Commit, Kinds, Chained, Sound, KeepsIdentity, TellsOutcome, ExtendsReading;
    hide AllSound, Authored, Settled, Logged, Readings, InBounds, ExecInBounds, Stored;
    CommitKeepsSound(s, e, eff);
    CommitKeepsAuthored(s, e, eff);
    CommitKeepsSettled(s, e, eff);
    CommitKeepsLogged(s, e, eff);
    CommitKeepsChain(s, e, eff);
  }

  lemma StepKeepsInv(s: State, e: nat, a: Answer)
    requires Inv(s) && e < |s.execs| && s.execs[e].alive
    ensures Inv(Next(s, Step(e, a)))
  {
    assert Sound(s.execs[e], Kinds(s.log, e));
    NextStaysInBounds(s, Step(e, a));
    StatementIsProper(s.db, s.execs[e], a, Kinds(s.log, e));
    hide Statement, Commit, Inv, InBounds, Proper, Sound, Kinds;
    CommitKeepsInv(s, e, Statement(s.db, s.execs[e], a));
  }

  lemma NextKeepsInv(s: State, act: Action)
    requires Inv(s)
    ensures Inv(Next(s, act))
  {
    match act
    case Step(e, a) => if e < |s.execs| && s.execs[e].alive { StepKeepsInv(s, e, a); }
    case _ => AdministrativeActionKeepsInv(s, act);
  }

  lemma StartIsSound(job: Job)
    ensures Sound(Started(job), [])
  {
    hide TrimSpace, Request.Fault, Follows;
    FollowsFrom([], Started(job).Noting(), NeverSent);
  }

  lemma SoundIgnoresCrashes(x: Exec, alive: bool, kinds: seq<Kind>)
    requires Sound(x, kinds)
    ensures Sound(x.(alive := alive), kinds)
  {
    hide Follows;
  }

  /** An action of the environment starts an execution or stops some. */
  lemma AdministrativeExecs(s: State, act: Action)
    requires InBounds(s) && !act.Step?
    ensures var s' := Next(s, act);
            && s'.log == s.log
            && (forall f :: 0 <= f < |s.execs| ==>
                  f < |s'.execs| && s'.execs[f] == s.execs[f].(alive := s'.execs[f].alive))
            && (forall f :: |s.execs| <= f < |s'.execs| ==> act.Start? && s'.execs[f] == Started(act.job))
  {
    hide Started, InBounds;
  }

  lemma AdministrativeActionKeepsSound(s: State, act: Action)
    requires InBounds(s) && AllSound(s) && Logged(s) && !act.Step?
    ensures AllSound(Next(s, act))
  {
    AdministrativeExecs(s, act);
    hide Next, Sound, Started, InBounds, Logged, Kinds;
    var s' := Next(s, act);
    forall e | 0 <= e < |s'.execs| ensures Sound(s'.execs[e], Kinds(s'.log, e)) {
      if e < |s.execs| {
        SoundIgnoresCrashes(s.execs[e], s'.execs[e].alive, Kinds(s.log, e));
      } else {
        NoHistoryYet(s, e, |s.log|);
        assert s.log[..|s.log|] == s.log;
        StartIsSound(act.job);
      }
    }
  }

  /** Starting an execution, a crash, and new tasks and steps. */
  lemma AdministrativeActionKeepsInv(s: State, act: Action)
    requires Inv(s) && !act.Step?
    ensures Inv(Next(s, act))
  {
    NextStaysInBounds(s, act);
    AdministrativeActionKeepsSound(s, act);
    AdministrativeActionKeepsLogged(s, act);
    AdministrativeActionKeepsAuthored(s, act);
    hide TrimSpace, AllSound, Logged, Chained, Request.Fault, LastFinished, Authored;
    var s' := Next(s, act);
    forall id | 0 <= id < |s.db.receipts| ensures SettledAt(s', id) { assert SettledAt(s, id); }
  }

  lemma AdministrativeActionKeepsAuthored(s: State, act: Action)
    requires InBounds(s) && Authored(s) && !act.Step?
    ensures Authored(Next(s, act))
  {
    hide TrimSpace, Request.Row, Request.Fault;
    var s' := Next(s, act);
    forall id | 0 <= id < |s.authors| ensures AuthorOf(s', id) { assert AuthorOf(s, id); }
  }

  lemma AdministrativeActionKeepsLogged(s: State, act: Action)
    requires InBounds(s) && Logged(s) && !act.Step?
    ensures Logged(Next(s, act))
  {
    hide TrimSpace, Request.Fault;
    var s' := Next(s, act);
    forall i | 0 <= i < |s.log| ensures LoggedAt(s', s.log[i]) {
      assert LoggedAt(s, s.log[i]);
      if s.log[i].kind.Noted? {
        NotedStays(s.db, Nothing, s.log[i], s.execs[s.log[i].exec].task);
      }
    }
  }

  lemma {:induction false} NoHistoryYet(s: State, e: nat, n: nat)
    requires Logged(s) && e >= |s.execs| && n <= |s.log|
    ensures Kinds(s.log[..n], e) == []
  {
    if n > 0 {
      assert LoggedAt(s, s.log[n - 1]);
      NoHistoryYet(s, e, n - 1);
      assert s.log[..n][..n - 1] == s.log[..n - 1];
    }
  }

  lemma {:induction false} RunKeepsInv(s: State, actions: seq<Action>)
    requires Inv(s)
    ensures Inv(Run(s, actions))
    decreases |actions|
  {
    if actions != [] {
      hide Next, Inv;
      var n := |actions| - 1;
      RunKeepsInv(s, actions[..n]);
      NextKeepsInv(Run(s, actions[..n]), actions[n]);
    }
  }

  lemma ReachableStatesKeepInv(actions: seq<Action>)
    ensures Inv(Reached(actions))
  {
    RunKeepsInv(EMPTY, actions);
  }
}
