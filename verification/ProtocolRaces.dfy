/** Two checkpoint writers of one task: runs in which a mutation loses the race and stays unfinished. */
module ProtocolRaces {
  import opened Text
  import opened Receipts
  import opened Checkpoints
  import opened Protocol
  import opened ProtocolInvariants
  import opened ProtocolFates
  import opened Outcomes

  // ---------- Runs step by step ----------

  /** The state with execution e at another point. */
  function With(s: State, e: nat, x: Exec): State
    requires e < |s.execs|
  {
    s.(execs := s.execs[e := x])
  }

  /** A statement that writes nothing moves one execution. */
  lemma QuietStep(o: State, s: State, e: nat, a: Answer, y: Exec)
    requires InBounds(o) && InBounds(s) && Leads(o, s) && e < |s.execs| && s.execs[e].alive
    requires ExecInBounds(s.db, s.execs[e]) && Statement(s.db, s.execs[e], a) == Quietly(y)
    ensures InBounds(With(s, e, y)) && Leads(o, With(s, e, y))
  {
    LeadsOn(o, s, Step(e, a));
    assert Next(s, Step(e, a)) == With(s, e, y) by { hide Statement, InBounds; }
    hide *;
  }

  lemma StartStep(o: State, s: State, job: Job)
    requires InBounds(o) && InBounds(s) && Leads(o, s)
    ensures var t := s.(execs := s.execs + [Started(job)]); InBounds(t) && Leads(o, t)
  {
    LeadsOn(o, s, Start(job));
    hide InBounds, Started, Run, Leads;
  }

  // ---------- One mutation up to its reading of the chain ----------

  /** A mutation of the task whose operation id is new and whose checkpoint fits. */
  predicate Contender(db: Db, q: Request, task: nat) {
    IsFresh(db, q) && q.mutation && OwnerOf(db, q) == Some(task) && db.Fits(task)
  }

  /** A call that has read the end of the chain and is about to write its first checkpoint. */
  function Reader(db: Db, q: Request, store: bool, task: nat, id: nat): Exec {
    Exec(Call(q, store), true, Some(task), Some(id), ExtendChain(Before, Latest(db.checkpoints, task)), true)
  }

  /** The state after a fresh call has inserted its receipt and read the end of the chain. */
  function Reading(s: State, e: nat, q: Request, store: bool, task: nat): State
    requires e < |s.execs|
  {
    State(s.db.(receipts := s.db.receipts + [q.Row(Some(task))]),
          s.execs[e := Reader(s.db, q, store, task, |s.db.receipts|)],
          s.log + [Event(e, |s.db.receipts|, Inserted)], s.authors + [e])
  }

  lemma ContenderStarts(db: Db, q: Request, store: bool, task: nat)
    requires Contender(db, q, task)
    ensures Started(Call(q, store)) == Exec(Call(q, store), true, None, None, Lookup, true)
    ensures FindOperation(db.receipts, q.Operation()).None? && q.Owner(db.owners) == Owned(Some(task))
  {
    hide TrimSpace, Request.Operation, Request.Fault, FindOperation, Request.Owner;
  }

  lemma CallResolves(o: State, s: State, e: nat, q: Request, store: bool, task: nat, a: Answer)
    requires InBounds(o) && InBounds(s) && Leads(o, s) && e < |s.execs| && s.execs[e] == Started(Call(q, store))
    requires Contender(s.db, q, task)
    ensures var t := With(s, e, Exec(Call(q, store), true, Some(task), None, Insert, true)); InBounds(t) && Leads(o, t)
  {
    ContenderStarts(s.db, q, store, task);
    hide InBounds, Leads, Run, TrimSpace, FindOperation, Request.Operation, Request.Owner, Request.Fault, Started,
         Contender;
    var x := Exec(Call(q, store), true, None, None, Lookup, true);
    assert Statement(s.db, x, a) == Quietly(x.At(Resolve));
    QuietStep(o, s, e, a, x.At(Resolve));
    var t := With(s, e, x.At(Resolve));
    var y := x.(task := Some(task), pc := Insert);
    assert Statement(t.db, t.execs[e], a) == Quietly(y);
    hide Statement;
    QuietStep(o, t, e, a, y);
    assert With(t, e, y) == With(s, e, y);
  }

  /** The state after a fresh call has inserted its receipt, about to check whether its checkpoint fits. */
  function Inserting(s: State, e: nat, q: Request, store: bool, task: nat): State
    requires e < |s.execs|
  {
    State(s.db.(receipts := s.db.receipts + [q.Row(Some(task))]),
          s.execs[e := Exec(Call(q, store), true, Some(task), Some(|s.db.receipts|), ReadSteps(Before), true)],
          s.log + [Event(e, |s.db.receipts|, Inserted)], s.authors + [e])
  }

  lemma CallInserts(o: State, s: State, e: nat, q: Request, store: bool, task: nat, a: Answer)
    requires InBounds(o) && InBounds(s) && Leads(o, s) && e < |s.execs|
    requires s.execs[e] == Exec(Call(q, store), true, Some(task), None, Insert, true)
    requires FindOperation(s.db.receipts, q.Operation()).None?
    ensures InBounds(Inserting(s, e, q, store, task)) && Leads(o, Inserting(s, e, q, store, task))
  {
    LeadsOn(o, s, Step(e, a));
    hide InBounds, Leads, Run, TrimSpace, FindOperation, Request.Operation, Request.Row;
  }

  /** From the check of the steps to the reading of the chain. */
  lemma WriterReads(o: State, s: State, e: nat, point: Point, task: nat, a: Answer)
    requires InBounds(o) && InBounds(s) && Leads(o, s) && e < |s.execs| && s.execs[e].alive
    requires s.execs[e].pc == ReadSteps(point) && s.execs[e].task == Some(task)
    requires task < s.db.owners.tasks && s.db.Fits(task)
    ensures var t := With(s, e, s.execs[e].At(ExtendChain(point, Latest(s.db.checkpoints, task))));
            InBounds(t) && Leads(o, t)
  {
    assert ExecInBounds(s.db, s.execs[e]);
    hide InBounds, Leads, Run, Db.Fits, Latest;
    var y, z := s.execs[e].At(ReadChain(point)), s.execs[e].At(ExtendChain(point, Latest(s.db.checkpoints, task)));
    assert Statement(s.db, s.execs[e], a) == Quietly(y);
    QuietStep(o, s, e, a, y);
    var t := With(s, e, y);
    assert ExecInBounds(t.db, t.execs[e]) && Statement(t.db, t.execs[e], a) == Quietly(z);
    hide Statement;
    QuietStep(o, t, e, a, z);
    assert With(t, e, z) == With(s, e, z);
  }

  lemma CallReads(o: State, s: State, e: nat, q: Request, store: bool, task: nat, a: Answer)
    requires InBounds(o) && InBounds(s) && Leads(o, s) && e < |s.execs| && s.execs[e] == Started(Call(q, store))
    requires Contender(s.db, q, task)
    ensures InBounds(Reading(s, e, q, store, task)) && Leads(o, Reading(s, e, q, store, task))
  {
    CallResolves(o, s, e, q, store, task, a);
    OwnerIsATask(s.db, q);
    assert FindOperation(s.db.receipts, q.Operation()).None? && s.db.Fits(task) && task < s.db.owners.tasks;
    var s1 := With(s, e, Exec(Call(q, store), true, Some(task), None, Insert, true));
    var s2 := Inserting(s1, e, q, store, task);
    SameFit(s.db, s2.db, task);
    InsertedReader(s, e, q, store, task);
    hide *;
    CallInserts(o, s1, e, q, store, task, a);
    WriterReads(o, s2, e, Before, task, a);
  }

  lemma InsertedReader(s: State, e: nat, q: Request, store: bool, task: nat)
    requires e < |s.execs|
    ensures var s1 := With(s, e, Exec(Call(q, store), true, Some(task), None, Insert, true));
            var s2 := Inserting(s1, e, q, store, task);
            && s2.db.owners == s.db.owners && s2.db.statuses == s.db.statuses && s1.db == s.db
            && e < |s1.execs| && s1.execs[e] == Exec(Call(q, store), true, Some(task), None, Insert, true)
            && e < |s2.execs| && s2.execs[e].alive && s2.execs[e].pc == ReadSteps(Before)
            && s2.execs[e].task == Some(task)
            && With(s2, e, s2.execs[e].At(ExtendChain(Before, Latest(s2.db.checkpoints, task)))) ==
               Reading(s, e, q, store, task)
  {
    hide Request.Row, Latest;
    var s1 := With(s, e, Exec(Call(q, store), true, Some(task), None, Insert, true));
    var s2 := Inserting(s1, e, q, store, task);
    assert With(s2, e, s2.execs[e].At(ExtendChain(Before, Latest(s2.db.checkpoints, task)))).execs ==
           Reading(s, e, q, store, task).execs;
  }

  /** Receipts have no part in whether a checkpoint fits. */
  lemma SameFit(db: Db, db': Db, task: nat)
    requires db'.owners == db.owners && db'.statuses == db.statuses
    ensures db'.Fits(task) == db.Fits(task)
  {}

  // ---------- Overtaking ----------

  /** A checkpoint writer that has read the end of the chain and is now the first to extend it. */
  lemma WriterExtends(o: State, s: State, e: nat, point: Point, task: nat, a: Answer)
    requires InBounds(o) && InBounds(s) && Leads(o, s) && e < |s.execs| && s.execs[e].alive
    requires s.execs[e].pc == ExtendChain(point, Latest(s.db.checkpoints, task)) && s.execs[e].task == Some(task)
    requires Chained(s.db.checkpoints)
    ensures var x := s.execs[e];
            var note := Note(PointEvent(point), x.receipt);
            var t := State(s.db.(checkpoints := s.db.checkpoints +
                                   [Successor(s.db.checkpoints, task, Latest(s.db.checkpoints, task), note)]),
                           s.execs[e := x.At(AfterNote(x, point))],
                           if x.receipt.Some? then s.log + [Event(e, x.receipt.value, Noted(PointEvent(point)))]
                             else s.log,
                           s.authors);
            InBounds(t) && Leads(o, t)
  {
    assert ExecInBounds(s.db, s.execs[e]);
    FreshInsertExtendsChain(s.db.checkpoints, task, Note(PointEvent(point), s.execs[e].receipt));
    LeadsOn(o, s, Step(e, a));
    hide InBounds, Leads, Run, Latest, Chained, AfterNote, Duplicate, Successor, PointEvent;
  }

  /** After the insert the inserted row is the latest, and what was the latest is stale. */
  lemma StaleAfterInsert(table: seq<Checkpoint<Note>>, task: nat, note: Note)
    requires Chained(table)
    ensures var latest := Latest(table, task);
            var after := table + [Successor(table, task, latest, note)];
            && Chained(after) && latest != Latest(after, task)
            && (latest.Some? ==> latest.value < |after| && after[latest.value].task == task)
  {
    FreshInsertExtendsChain(table, task, note);
    var row := Successor(table, task, Latest(table, task), note);
    assert (table + [row])[..|table|] == table;
  }

  /** No reading of the table before the insert, of any age, is the latest after it. */
  lemma LatestIs(table: seq<Checkpoint<Note>>, row: Checkpoint<Note>, task: nat, latest: Option<nat>)
    requires row == Successor(table, task, Latest(table, task), row.payload)
    requires latest.Some? ==> latest.value < |table|
    ensures Latest(table + [row], task) != latest
  {
    assert (table + [row])[..|table|] == table;
  }

  /** A writer that another has overtaken writes nothing. */
  lemma WriterFails(o: State, s: State, e: nat, point: Point, latest: Option<nat>, task: nat, a: Answer)
    requires InBounds(o) && InBounds(s) && Leads(o, s) && e < |s.execs| && s.execs[e].alive
    requires s.execs[e].pc == ExtendChain(point, latest) && s.execs[e].task == Some(task) && Chained(s.db.checkpoints)
    requires latest.Some? ==> latest.value < |s.db.checkpoints| && s.db.checkpoints[latest.value].task == task
    requires latest != Latest(s.db.checkpoints, task)
    ensures var x := s.execs[e];
            var t := With(s, e, x.At(NoteFailed(x, point, ConstraintFailed)));
            InBounds(t) && Leads(o, t)
  {
    var x := s.execs[e];
    assert ExecInBounds(s.db, x);
    StaleInsertIsRefused(s.db.checkpoints, task, latest, Note(PointEvent(point), x.receipt));
    hide InBounds, Leads, Run, Latest, Chained, NoteFailed, Duplicate, Successor, PointEvent;
    assert Statement(s.db, x, a) == Quietly(x.At(NoteFailed(x, point, ConstraintFailed)));
    hide Statement;
    QuietStep(o, s, e, a, x.At(NoteFailed(x, point, ConstraintFailed)));
  }

  /** Another writer's checkpoint of the task comes first. */
  lemma AnotherWriterExtends(o: State, s: State, task: nat, a: Answer)
    requires Inv(o) && Inv(s) && Leads(o, s) && task < s.db.owners.tasks && s.db.Fits(task)
    ensures var row := Successor(s.db.checkpoints, task, Latest(s.db.checkpoints, task), Note(OtherEvent, None));
            var done := Exec(Record(task), false, Some(task), None, Done(Recorded), true);
            var t := State(s.db.(checkpoints := s.db.checkpoints + [row]), s.execs + [done], s.log, s.authors);
            InBounds(t) && Leads(o, t)
  {
    assert InBounds(o) && InBounds(s) && Chained(s.db.checkpoints);
    hide Inv, InBounds, Leads, Run, Latest, Chained, Db.Fits, Successor;
    var f := |s.execs|;
    StartStep(o, s, Record(task));
    var s1 := s.(execs := s.execs + [Started(Record(task))]);
    WriterReads(o, s1, f, Plain, task, a);
    var reading := s1.execs[f].At(ExtendChain(Plain, Latest(s.db.checkpoints, task)));
    var s2 := With(s1, f, reading);
    WriterExtends(o, s2, f, Plain, task, a);
    var done := reading.At(Done(Recorded));
    assert s2.execs[f := done] == s.execs + [done];
  }

  /**
   No reader is safe: from every state in which a writer is about to extend the chain, a run of one other
   checkpoint writer of the task leads to the first one's failure, with nothing added but the writer's row.
   */
  lemma AnyReaderCanBeOvertaken(s: State, e: nat, point: Point, latest: Option<nat>, task: nat, a: Answer)
    requires Inv(s) && e < |s.execs| && s.execs[e].alive
    requires s.execs[e].pc == ExtendChain(point, latest) && s.execs[e].task == Some(task)
    requires task < s.db.owners.tasks && s.db.Fits(task)
    ensures exists t: State ::
              && Leads(s, t) && |t.execs| > e && t.log == s.log
              && t.execs[e] == s.execs[e].At(NoteFailed(s.execs[e], point, ConstraintFailed))
              && |t.db.checkpoints| == |s.db.checkpoints| + 1
              && t.db == s.db.(checkpoints := t.db.checkpoints)
              && t.db.checkpoints[|s.db.checkpoints|].payload == Note(OtherEvent, None)
  {
    assert Leads(s, s) by { assert Run(s, []) == s; }
    AnotherWriterExtends(s, s, task, a);
    assert InBounds(s) && Chained(s.db.checkpoints);
    StaleAfterInsert(s.db.checkpoints, task, Note(OtherEvent, None));
    var row := Successor(s.db.checkpoints, task, Latest(s.db.checkpoints, task), Note(OtherEvent, None));
    var done := Exec(Record(task), false, Some(task), None, Done(Recorded), true);
    var u := State(s.db.(checkpoints := s.db.checkpoints + [row]), s.execs + [done], s.log, s.authors);
    assert latest.Some? ==> latest.value < |s.db.checkpoints| && s.db.checkpoints[latest.value].task == task;
    assert row.payload == Note(OtherEvent, None);
    LatestIs(s.db.checkpoints, row, task, latest);
    hide Inv, InBounds, Leads, Run, Latest, Chained, Db.Fits, Successor, NoteFailed;
    WriterFails(s, u, e, point, latest, task, a);
    var t := With(u, e, u.execs[e].At(NoteFailed(u.execs[e], point, ConstraintFailed)));
    assert Leads(s, t) && t.execs[e] == s.execs[e].At(NoteFailed(s.execs[e], point, ConstraintFailed));
  }

  // ---------- Two mutations of one task ----------

  /** The tables with both receipts. */
  function WithRows(db: Db, q: Request, r: Request, task: nat): Db {
    db.(receipts := db.receipts + [q.Row(Some(task)), r.Row(Some(task))])
  }

  /** Two calls that have read the same end of the chain. */
  function TwoReaders(db: Db, q: Request, r: Request, store: bool, task: nat): seq<Exec> {
    [Reader(db, q, store, task, |db.receipts|), Reader(db, r, store, task, |db.receipts| + 1)]
  }

  /** Two receipts inserted by executions e and e + 1. */
  function TwoInserts(e: nat, id: nat): seq<Event> {
    [Event(e, id, Inserted), Event(e + 1, id + 1, Inserted)]
  }

  /** Both calls have inserted their receipts and read the same end of the chain. */
  function BothReading(s: State, q: Request, r: Request, store: bool, task: nat): State {
    State(WithRows(s.db, q, r, task), s.execs + TwoReaders(s.db, q, r, store, task),
          s.log + TwoInserts(|s.execs|, |s.db.receipts|), s.authors + [|s.execs|, |s.execs| + 1])
  }

  lemma OneAfterTheOther(s: State, q: Request, r: Request, store: bool, task: nat)
    ensures var e, two := |s.execs|, s.(execs := s.execs + [Started(Call(q, store)), Started(Call(r, store))]);
            Reading(Reading(two, e, q, store, task), e + 1, r, store, task) == BothReading(s, q, r, store, task)
  {
    hide Started, Latest, Request.Row;
    var e, two := |s.execs|, s.(execs := s.execs + [Started(Call(q, store)), Started(Call(r, store))]);
    var t, u := Reading(Reading(two, e, q, store, task), e + 1, r, store, task), BothReading(s, q, r, store, task);
    assert t.db.receipts == u.db.receipts;
    assert t.execs == u.execs;
    assert t.log == u.log && t.authors == u.authors;
  }

  /** One new receipt does not stand in the way of another operation. */
  lemma StillContends(db: Db, q: Request, r: Request, task: nat)
    requires Contender(db, r, task) && q.Operation() != r.Operation()
    ensures Contender(db.(receipts := db.receipts + [q.Row(Some(task))]), r, task)
  {
    var row := q.Row(Some(task));
    var db' := db.(receipts := db.receipts + [row]);
    assert db'.receipts[..|db.receipts|] == db.receipts;
    SameFit(db, db', task);
    hide TrimSpace, Request.Operation, Request.Owner, Request.Fault, Db.Fits;
    assert row.operation == q.Operation();
  }

  lemma BothStart(s: State, one: Job, other: Job)
    requires InBounds(s)
    ensures var t := s.(execs := s.execs + [Started(one), Started(other)]); InBounds(t) && Leads(s, t)
  {
    assert Leads(s, s) by { assert Run(s, []) == s; }
    hide InBounds, Leads, Run, Started;
    StartStep(s, s, one);
    var s1 := s.(execs := s.execs + [Started(one)]);
    StartStep(s, s1, other);
    assert s1.execs + [Started(other)] == s.execs + [Started(one), Started(other)];
  }

  lemma BothRead(s: State, q: Request, r: Request, store: bool, task: nat, a: Answer)
    requires InBounds(s) && Contender(s.db, q, task) && Contender(s.db, r, task) && q.Operation() != r.Operation()
    ensures var t := BothReading(s, q, r, store, task); InBounds(t) && Leads(s, t)
  {
    StillContends(s.db, q, r, task);
    OneAfterTheOther(s, q, r, store, task);
    hide InBounds, Leads, Run, Contender, Started, Request.Row, Request.Operation, Latest, BothReading, Reader;
    var e := |s.execs|;
    BothStart(s, Call(q, store), Call(r, store));
    var two := s.(execs := s.execs + [Started(Call(q, store)), Started(Call(r, store))]);
    CallReads(s, two, e, q, store, task, a);
    var t := Reading(two, e, q, store, task);
    assert t.execs[e + 1] == Started(Call(r, store));
    CallReads(s, t, e + 1, r, store, task, a);
  }

  /** The second call writes its checkpoint and goes on to send. */
  function SecondNoted(s: State, q: Request, r: Request, store: bool, task: nat): State {
    var e, id, t := |s.execs|, |s.db.receipts|, BothReading(s, q, r, store, task);
    var row := Successor(s.db.checkpoints, task, Latest(s.db.checkpoints, task), Note(MutationBefore, Some(id + 1)));
    State(t.db.(checkpoints := s.db.checkpoints + [row]),
          s.execs + [Reader(s.db, q, store, task, id), Reader(s.db, r, store, task, id + 1).At(Connect)],
          t.log + [Event(e + 1, id + 1, Noted(MutationBefore))], t.authors)
  }

  /** The first call, overtaken, fails. */
  function AfterRace(s: State, q: Request, r: Request, store: bool, task: nat): State {
    SecondNoted(s, q, r, store, task).(
      execs := s.execs + [Reader(s.db, q, store, task, |s.db.receipts|).At(Done(Failure(ConstraintFailed))),
                          Reader(s.db, r, store, task, |s.db.receipts| + 1).At(Connect)])
  }

  lemma SecondNotes(s: State, q: Request, r: Request, store: bool, task: nat, a: Answer)
    requires InBounds(s) && Chained(s.db.checkpoints)
    requires var t := BothReading(s, q, r, store, task); InBounds(t) && Leads(s, t)
    ensures var t := SecondNoted(s, q, r, store, task); InBounds(t) && Leads(s, t)
  {
    hide InBounds, Leads, Run, Request.Row, Latest, Chained, Successor;
    var e, id, t := |s.execs|, |s.db.receipts|, BothReading(s, q, r, store, task);
    WriterExtends(s, t, e + 1, Before, task, a);
    assert t.execs[e + 1 := Reader(s.db, r, store, task, id + 1).At(Connect)] ==
           SecondNoted(s, q, r, store, task).execs;
  }

  lemma FirstIsStale(s: State, q: Request, r: Request, store: bool, task: nat)
    ensures var e, t, table := |s.execs|, SecondNoted(s, q, r, store, task), s.db.checkpoints;
            var row := Successor(table, task, Latest(table, task), Note(MutationBefore, Some(|s.db.receipts| + 1)));
            && e < |t.execs| && t.execs[e].alive && t.execs[e].task == Some(task)
            && t.execs[e].pc == ExtendChain(Before, Latest(table, task)) && t.db.checkpoints == table + [row]
            && With(t, e, t.execs[e].At(NoteFailed(t.execs[e], Before, ConstraintFailed))) ==
                 AfterRace(s, q, r, store, task)
  {
    hide Request.Row, Latest, Successor, BothReading;
    var e, t := |s.execs|, SecondNoted(s, q, r, store, task);
    assert t.execs[e := t.execs[e].At(Done(Failure(ConstraintFailed)))] == AfterRace(s, q, r, store, task).execs;
  }

  lemma FirstFails(s: State, q: Request, r: Request, store: bool, task: nat, a: Answer)
    requires InBounds(s) && Chained(s.db.checkpoints)
    requires var t := SecondNoted(s, q, r, store, task); InBounds(t) && Leads(s, t)
    ensures var t := AfterRace(s, q, r, store, task); InBounds(t) && Leads(s, t)
  {
    hide *;
    StaleAfterInsert(s.db.checkpoints, task, Note(MutationBefore, Some(|s.db.receipts| + 1)));
    FirstIsStale(s, q, r, store, task);
    WriterFails(s, SecondNoted(s, q, r, store, task), |s.execs|, Before, Latest(s.db.checkpoints, task), task, a);
  }

  /** The first call has failed without sending anything, and its receipt is unfinished. */
  ghost predicate Lost(t: State, e: nat, q: Request, id: nat) {
    && e < |t.execs| && id < |t.db.receipts|
    && t.execs[e].job.Call? && t.execs[e].job.request == q && t.execs[e].receipt == Some(id)
    && t.execs[e].pc == Done(Failure(ConstraintFailed)) && Kinds(t.log, e) == [Inserted]
    && t.db.receipts[id].operation == q.Operation() && !t.db.receipts[id].finished
  }

  /** A retry of the same request has been answered from that receipt. */
  predicate RetryAnswered(t: State, g: nat, q: Request, id: nat) {
    && g < |t.execs| && t.execs[g].job.Call? && t.execs[g].job.request == q && t.execs[g].pc == Done(Deduplicated(id))
  }

  /** Among the receipts after the race the request's own is found. */
  lemma FirstReceiptIsFound(db: Db, q: Request, r: Request, task: nat)
    requires FindOperation(db.receipts, q.Operation()).None? && q.Operation() != r.Operation()
    ensures var id, receipts := |db.receipts|, WithRows(db, q, r, task).receipts;
            id < |receipts| && FindOperation(receipts, q.Operation()) == Some(id) && q.Matches(receipts[id])
  {
    hide Request.Operation;
    var id, receipts := |db.receipts|, WithRows(db, q, r, task).receipts;
    assert receipts[id].operation == q.Operation() && receipts[id + 1].operation == r.Operation()
           && q.Matches(receipts[id]);
    assert receipts[..id + 1][..id] == db.receipts && receipts[..id + 1][id] == receipts[id];
  }

  /** The request is looked up and its first receipt is found. */
  lemma RetryFindsReceipt(s: State, q: Request, r: Request, store: bool, task: nat, a: Answer)
    requires Contender(s.db, q, task) && q.Operation() != r.Operation()
    ensures var id, t := |s.db.receipts|, AfterRace(s, q, r, store, task);
            var x := Started(Call(q, store));
            && ExecInBounds(t.db, x) && x.alive
            && Statement(t.db, x, a) == Quietly(x.At(Done(Deduplicated(id))))
  {
    ContenderStarts(s.db, q, store, task);
    FirstReceiptIsFound(s.db, q, r, task);
    assert AfterRace(s, q, r, store, task).db.receipts == WithRows(s.db, q, r, task).receipts by {
      hide Latest, Successor, Reader, WithRows;
    }
    hide Started, FindOperation, Contender, Request.Operation, Request.Row, Request.Matches, AfterRace, WithRows;
  }

  lemma RetryIsAnswered(s: State, q: Request, r: Request, store: bool, task: nat, a: Answer)
    requires InBounds(s) && Contender(s.db, q, task) && q.Operation() != r.Operation()
    requires var t := AfterRace(s, q, r, store, task); InBounds(t) && Leads(s, t)
    ensures var t := AfterRace(s, q, r, store, task);
            var x := Started(Call(q, store)).At(Done(Deduplicated(|s.db.receipts|)));
            var u := t.(execs := t.execs + [x]);
            InBounds(u) && Leads(s, u)
  {
    RetryFindsReceipt(s, q, r, store, task, a);
    hide InBounds, Leads, Run, Started, AfterRace, Contender, Request.Operation, Statement, ExecInBounds;
    var t, x := AfterRace(s, q, r, store, task), Started(Call(q, store));
    var y := x.At(Done(Deduplicated(|s.db.receipts|)));
    StartStep(s, t, Call(q, store));
    var u := t.(execs := t.execs + [x]);
    QuietStep(s, u, |t.execs|, a, y);
    assert With(u, |t.execs|, y) == t.(execs := t.execs + [y]);
  }

  lemma KindsOfOneMore(log: seq<Event>, ev: Event, e: nat)
    ensures Kinds(log + [ev], e) == Kinds(log, e) + if ev.exec == e then [ev.kind] else []
  {
    assert (log + [ev])[..|log|] == log;
  }

  /** Only the first of three new events is the newcomer's. */
  lemma KindsOfThreeMore(log: seq<Event>, e: nat, one: Event, two: Event, three: Event)
    requires Kinds(log, e) == [] && one.exec == e && two.exec != e && three.exec != e
    ensures Kinds(log + [one, two, three], e) == [one.kind]
  {
    hide Kinds;
    KindsOfOneMore(log, one, e);
    KindsOfOneMore(log + [one], two, e);
    KindsOfOneMore(log + [one] + [two], three, e);
    assert log + [one] + [two] + [three] == log + [one, two, three];
  }

  /** The history after the race. */
  lemma RaceHistory(s: State, q: Request, r: Request, store: bool, task: nat)
    ensures var e, id := |s.execs|, |s.db.receipts|;
            AfterRace(s, q, r, store, task).log ==
            s.log + [Event(e, id, Inserted), Event(e + 1, id + 1, Inserted),
                     Event(e + 1, id + 1, Noted(MutationBefore))]
  {
    hide Latest, Successor, WithRows, Reader;
  }

  /** What it says of the first call. */
  lemma FirstHistory(s: State, q: Request, r: Request, store: bool, task: nat)
    requires Logged(s)
    ensures Kinds(AfterRace(s, q, r, store, task).log, |s.execs|) == [Inserted]
  {
    hide *;
    var e, id := |s.execs|, |s.db.receipts|;
    RaceHistory(s, q, r, store, task);
    NoHistoryYet(s, e, |s.log|);
    assert s.log[..|s.log|] == s.log;
    KindsOfThreeMore(s.log, e, Event(e, id, Inserted), Event(e + 1, id + 1, Inserted),
                     Event(e + 1, id + 1, Noted(MutationBefore)));
  }

  lemma FirstHasLost(s: State, q: Request, r: Request, store: bool, task: nat)
    requires Logged(s)
    ensures Lost(AfterRace(s, q, r, store, task), |s.execs|, q, |s.db.receipts|)
  {
    FirstHistory(s, q, r, store, task);
    hide Latest, Successor, Kinds, Request.Operation, Logged;
  }

  /**
   Two mutations of one task can race: from every state in which both are new and fit, a run leads to
   one of them failing before it is sent, its receipt unfinished, and a retry of it answered from that
   receipt, although nothing was sent.
   */
  lemma MutationsCanRace(s: State, q: Request, r: Request, store: bool, task: nat, a: Answer)
    requires Inv(s) && Contender(s.db, q, task) && Contender(s.db, r, task) && q.Operation() != r.Operation()
    ensures exists t: State, e: nat, g: nat, id: nat :: Leads(s, t) && Lost(t, e, q, id) && RetryAnswered(t, g, q, id)
  {
    var e, id, t := |s.execs|, |s.db.receipts|, AfterRace(s, q, r, store, task);
    var y := Started(Call(q, store)).At(Done(Deduplicated(id)));
    var u := t.(execs := t.execs + [y]);
    assert InBounds(s) && Chained(s.db.checkpoints) && Logged(s);
    StartedIsCall(q, store);
    hide InBounds, Leads, Run, Inv, AfterRace, Contender, Request.Operation, Started, Chained, SecondNoted, BothReading,
         Logged;
    BothRead(s, q, r, store, task, a);
    SecondNotes(s, q, r, store, task, a);
    FirstFails(s, q, r, store, task, a);
    RetryIsAnswered(s, q, r, store, task, a);
    FirstHasLost(s, q, r, store, task);
    assert Lost(u, e, q, id) && RetryAnswered(u, |t.execs|, q, id);
  }

  lemma StartedIsCall(q: Request, store: bool)
    ensures Started(Call(q, store)).job == Call(q, store)
  {
    hide TrimSpace, Request.Fault;
  }

  /** One task and nothing else. */
  lemma OneTask(n: nat)
    requires n == 0
    ensures Inv(Reached([NewTask])) && Reached([NewTask]).db == Crowded(n)
  {
    ReachableStatesKeepInv([NewTask]);
    hide Inv;
    assert [NewTask][..0] == [];
    var db := Crowded(n);
    assert db.owners.steps == [] && db.statuses == [];
  }

  lemma NewChangeContends(n: nat, operation: string, tool: string)
    requires n == 0 && Trimmed(operation) && 0 < |operation| <= 160 && Trimmed(tool) && 0 < |tool| <= 256
    ensures Contender(Crowded(n), Change(operation, tool), 0) && Change(operation, tool).Operation() == operation
  {
    ChangeIsFresh(Crowded(n), operation, tool);
    CrowdedFits(n);
    TrimSpaceKeepsTrimmed(operation);
    hide TrimSpace, Trimmed, IsFresh, OwnerOf, Crowded, Db.Fits;
  }

  /** And it happens from empty tables: one task, two mutations with any two operation ids, and a retry. */
  lemma RaceFromNothing(first: string, second: string, tool: string, store: bool, a: Answer)
    requires Trimmed(first) && 0 < |first| <= 160 && Trimmed(second) && 0 < |second| <= 160 && first != second
    requires Trimmed(tool) && 0 < |tool| <= 256
    ensures exists actions: seq<Action>, e: nat, g: nat, id: nat ::
              && Lost(Reached(actions), e, Change(first, tool), id)
              && RetryAnswered(Reached(actions), g, Change(first, tool), id)
  {
    var n, s, q, r := 0, Reached([NewTask]), Change(first, tool), Change(second, tool);
    hide *;
    OneTask(n);
    NewChangeContends(n, first, tool);
    NewChangeContends(n, second, tool);
    MutationsCanRace(s, q, r, store, 0, a);
    var t: State, e: nat, g: nat, id: nat :| Leads(s, t) && Lost(t, e, q, id) && RetryAnswered(t, g, q, id);
    ReachedThrough([NewTask], t);
    var actions :| Reached(actions) == t;
    assert Lost(Reached(actions), e, q, id) && RetryAnswered(Reached(actions), g, q, id);
  }

  lemma ReachedThrough(actions: seq<Action>, t: State)
    requires Leads(Reached(actions), t)
    ensures exists run :: Reached(run) == t
  {
    var more :| Run(Reached(actions), more) == t;
    RunInTwo(EMPTY, actions + more, |actions|);
    assert (actions + more)[..|actions|] == actions && (actions + more)[|actions|..] == more;
    hide Run;
    assert Reached(actions + more) == t;
  }
}
