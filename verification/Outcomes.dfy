/**
 What a fresh call leaves behind when it runs to its end by itself: exactly when its receipt stays
 unfinished and when its outcome checkpoint is missing.
 */
module Outcomes {
  import opened Text
  import opened Json
  import opened Redaction
  import opened Receipts
  import opened Checkpoints
  import opened Protocol
  import opened Calls
  import opened Bridge
  import S = Shaping
  import W = Work
  import WorkLimits

  /** The call is for an operation id that has no receipt, and gets one. */
  predicate IsFresh(db: Db, q: Request) {
    q.Fault().None? && FindOperation(db.receipts, q.Operation()).None? && q.Owner(db.owners).Owned?
  }

  function OwnerOf(db: Db, q: Request): Option<nat>
    requires IsFresh(db, q)
  {
    q.Owner(db.owners).task
  }

  /** The call is a mutation that belongs to a task. */
  predicate IsNoted(db: Db, q: Request)
    requires IsFresh(db, q)
  {
    q.mutation && OwnerOf(db, q).Some?
  }

  /** The mutation.before checkpoint, if one is due, can be written; without it nothing is sent. */
  predicate LetThrough(db: Db, q: Request)
    requires IsFresh(db, q)
  {
    IsNoted(db, q) ==> db.Fits(OwnerOf(db, q).value)
  }

  function Row(db: Db, q: Request, outcome: Option<Outcome>): Receipt
    requires IsFresh(db, q)
  {
    var row := q.Row(OwnerOf(db, q));
    if outcome.Some? then row.(outcome := outcome.value, finished := true) else row
  }

  function Appended(table: seq<Checkpoint<Note>>, task: nat, event: EventType, id: nat): seq<Checkpoint<Note>> {
    table + [Successor(table, task, Latest(table, task), Note(event, Some(id)))]
  }

  /** The checkpoints after the call: none, the one before it, or that and the outcome. */
  function NotesAfter(db: Db, q: Request, ending: Option<Ending>): seq<Checkpoint<Note>>
    requires IsFresh(db, q)
  {
    if !IsNoted(db, q) || !LetThrough(db, q) then db.checkpoints
    else
      var id, task := |db.receipts|, OwnerOf(db, q).value;
      var noted := Appended(db.checkpoints, task, MutationBefore, id);
      if ending.Some? && !ending.value.ReplyNotShaped? then Appended(noted, task, EventOf(ending.value), id) else noted
  }

  /** The tables after a fresh call. */
  function After(db: Db, q: Request, store: bool, a: Answer): Db
    requires IsFresh(db, q)
  {
    if !LetThrough(db, q) then db.(receipts := db.receipts + [Row(db, q, None)])
    else
      var ending := EndingOf(store, a, |db.blobs|);
      db.(receipts := db.receipts + [Row(db, q, if ending.Some? then Some(OutcomeOf(ending.value)) else None)],
          checkpoints := NotesAfter(db, q, ending),
          blobs := BlobsAfter(db.blobs, OwnerOf(db, q), |db.receipts|, store, a))
  }

  /** What the caller is told. */
  function Told(db: Db, q: Request, store: bool, a: Answer): Reply
    requires IsFresh(db, q)
  {
    if !LetThrough(db, q) then Failure(InvalidInput)
    else
      var ending := EndingOf(store, a, |db.blobs|);
      if ending.Some? then Answered(|db.receipts|, ending.value) else StopOf(|db.receipts|, a)
  }

  lemma OwnerIsATask(db: Db, q: Request)
    requires IsFresh(db, q)
    ensures OwnerOf(db, q).Some? ==> OwnerOf(db, q).value < db.owners.tasks
  {
    hide Request.Owner, Request.Fault, FindOperation;
  }

  /** From the end of delivery: finalize, then the outcome checkpoint. */
  lemma CompleteOfClosing(db: Db, x: Exec, ending: Ending, a: Answer)
    requires ExecInBounds(db, x) && x.pc == ReadReceipt(ending) && x.job.Call? && !ending.External?
    requires x.receipt.Some? && !db.receipts[x.receipt.value].finished && Chained(db.checkpoints)
    requires x.Noting() ==> x.task.value < db.owners.tasks && db.Fits(x.task.value)
    ensures var id := x.receipt.value;
            var finished := db.(receipts := Finalize(db.receipts, id, OutcomeOf(ending)).0);
            var (after, y) := Complete(db, x, a);
            && y.pc == Done(Answered(id, ending))
            && after == if x.Noting() && !ending.ReplyNotShaped?
                        then finished.(checkpoints := Appended(db.checkpoints, x.task.value, EventOf(ending), id))
                        else finished
  {
    CompleteOfFinish(db, x, ending, a);
    var finished := db.(receipts := Finalize(db.receipts, x.receipt.value, OutcomeOf(ending)).0);
    var y := x.At(AfterFinish(x, ending));
    hide Chained, Latest, W.Fits, Complete;
    if x.Noting() && !ending.ReplyNotShaped? {
      CompleteOfNote(finished, y, Afterwards(ending), a);
      y := y.At(AfterNote(y, Afterwards(ending)));
      CompleteOfDone(finished.(checkpoints := Appended(db.checkpoints, x.task.value, EventOf(ending), x.receipt.value)),
                     y, a);
    } else {
      CompleteOfDone(finished, y, a);
    }
  }

  /** From the connect step on. */
  lemma CompleteOfSending(db: Db, x: Exec, store: bool, a: Answer)
    requires ExecInBounds(db, x) && x.pc == Connect && x.job.Call? && x.job.store == store
    requires x.receipt.Some? && !db.receipts[x.receipt.value].finished && Chained(db.checkpoints)
    requires x.Noting() ==> x.task.value < db.owners.tasks && db.Fits(x.task.value)
    ensures var id, ending := x.receipt.value, EndingOf(store, a, |db.blobs|);
            var stored := db.(blobs := BlobsAfter(db.blobs, x.task, id, store, a));
            var (after, y) := Complete(db, x, a);
            if ending.None? then after == stored && y.pc == Done(StopOf(id, a))
            else
              && y.pc == Done(Answered(id, ending.value))
              && after == stored.(receipts := Finalize(db.receipts, id, OutcomeOf(ending.value)).0,
                                  checkpoints := if x.Noting() && !ending.value.ReplyNotShaped?
                                                 then Appended(db.checkpoints, x.task.value, EventOf(ending.value), id)
                                                 else db.checkpoints)
  {
    CompleteOfDelivery(db, x, store, a);
    var ending := EndingOf(store, a, |db.blobs|);
    var stored := db.(blobs := BlobsAfter(db.blobs, x.task, x.receipt.value, store, a));
    hide Chained, Latest, W.Fits, Complete, EndingOf, BlobsAfter, Finalize, Appended, StopOf;
    if ending.None? {
      CompleteOfDone(stored, x.At(Done(StopOf(x.receipt.value, a))), a);
    } else {
      CompleteOfClosing(stored, x.At(ReadReceipt(ending.value)), ending.value, a);
    }
  }

  lemma InsertedFresh(db: Db, q: Request, store: bool, a: Answer)
    requires IsFresh(db, q)
    ensures var inserted := db.(receipts := db.receipts + [q.Row(OwnerOf(db, q))]);
            var x := InsertedBy(Call(q, store), OwnerOf(db, q), |db.receipts|);
            && ExecInBounds(inserted, x) && !inserted.receipts[|db.receipts|].finished
            && Complete(db, Started(Call(q, store)), a) == Complete(inserted, x, a)
  {
    CompleteOfFreshPrepare(db, Call(q, store), a);
    hide Complete, TrimSpace, FindOperation, Request.Operation, Request.Fault, Request.Owner;
  }

  /** A fresh call that is not let through. */
  lemma RefusedCallLeaves(db: Db, q: Request, store: bool, a: Answer)
    requires IsFresh(db, q) && Chained(db.checkpoints) && !LetThrough(db, q)
    ensures var (after, y) := Complete(db, Started(Call(q, store)), a);
            after == db.(receipts := db.receipts + [q.Row(OwnerOf(db, q))]) && y.pc == Done(Failure(InvalidInput))
  {
    InsertedFresh(db, q, store, a);
    OwnerIsATask(db, q);
    hide IsFresh, Complete, Chained, Latest, W.Fits, Request.Row, Started;
    var inserted := db.(receipts := db.receipts + [q.Row(OwnerOf(db, q))]);
    var x := InsertedBy(Call(q, store), OwnerOf(db, q), |db.receipts|);
    hide OwnerOf;
    CompleteOfRefusedNote(inserted, x, Before, a);
    CompleteOfDone(inserted, x.At(Done(Failure(InvalidInput))), a);
  }

  /** A fresh call that is let through is, after its checkpoint, a call about to connect. */
  lemma SentCallStarts(db: Db, q: Request, store: bool, a: Answer)
    requires IsFresh(db, q) && Chained(db.checkpoints) && LetThrough(db, q)
    ensures var id, task := |db.receipts|, OwnerOf(db, q);
            var ready := db.(receipts := db.receipts + [q.Row(task)], checkpoints := NotesAfter(db, q, None));
            var x := InsertedBy(Call(q, store), task, id).At(Connect);
            && ExecInBounds(ready, x) && !ready.receipts[id].finished && Chained(ready.checkpoints)
            && Complete(db, Started(Call(q, store)), a) == Complete(ready, x, a)
  {
    InsertedFresh(db, q, store, a);
    OwnerIsATask(db, q);
    hide IsFresh, Complete, Chained, Latest, W.Fits, Request.Row, Started;
    var inserted := db.(receipts := db.receipts + [q.Row(OwnerOf(db, q))]);
    var x := InsertedBy(Call(q, store), OwnerOf(db, q), |db.receipts|);
    hide OwnerOf;
    if IsNoted(db, q) {
      CompleteOfNote(inserted, x, Before, a);
    }
  }

  /** The tables at the moment the call is sent. */
  function AtSending(db: Db, q: Request): Db
    requires IsFresh(db, q)
  {
    db.(receipts := db.receipts + [q.Row(OwnerOf(db, q))], checkpoints := NotesAfter(db, q, None))
  }

  /** From there to the end. */
  lemma AfterSending(db: Db, q: Request, store: bool, a: Answer)
    requires IsFresh(db, q) && LetThrough(db, q)
    ensures var id, ending, sent := |db.receipts|, EndingOf(store, a, |db.blobs|), AtSending(db, q);
            var stored := sent.(blobs := BlobsAfter(db.blobs, OwnerOf(db, q), id, store, a));
            After(db, q, store, a) ==
            if ending.None? then stored
            else stored.(receipts := Finalize(sent.receipts, id, OutcomeOf(ending.value)).0,
                         checkpoints := if IsNoted(db, q) && !ending.value.ReplyNotShaped?
                                        then Appended(sent.checkpoints, OwnerOf(db, q).value, EventOf(ending.value), id)
                                        else sent.checkpoints)
  {
    hide IsFresh, OwnerOf, EndingOf, BlobsAfter, Appended, LetThrough, OutcomeOf, EventOf, Request.Row;
    var id, ending, row := |db.receipts|, EndingOf(store, a, |db.blobs|), q.Row(OwnerOf(db, q));
    assert !row.finished by { NewRowIsOpen(q, OwnerOf(db, q)); }
    if ending.Some? {
      var finished := row.(outcome := OutcomeOf(ending.value), finished := true);
      assert (db.receipts + [row])[id := finished] == db.receipts + [finished];
    }
  }

  lemma NewRowIsOpen(q: Request, owner: Option<nat>)
    ensures !q.Row(owner).finished
  {}

  /** The whole effect of a fresh call that runs to its end: every table, and the reply. */
  lemma FreshCallLeaves(db: Db, q: Request, store: bool, a: Answer)
    requires IsFresh(db, q) && Chained(db.checkpoints)
    ensures var (after, y) := Complete(db, Started(Call(q, store)), a);
            after == After(db, q, store, a) && y.pc == Done(Told(db, q, store, a))
  {
    if !LetThrough(db, q) {
      RefusedCallLeaves(db, q, store, a);
      hide IsFresh, Complete, Chained, OwnerOf, Started;
    } else {
      OwnerIsATask(db, q);
      SentCallStarts(db, q, store, a);
      AfterSending(db, q, store, a);
      hide IsFresh, Complete, Chained, W.Fits, EndingOf, BlobsAfter, Request.Row, Started, OwnerOf, After, NotesAfter,
           Appended, Finalize, OutcomeOf, EventOf, StopOf;
      CompleteOfSending(AtSending(db, q), InsertedBy(Call(q, store), OwnerOf(db, q), |db.receipts|).At(Connect), store,
                        a);
    }
  }

  // ---------- What stops a call short ----------

  /** A reply came back, and under these options Shape panics on it. */
  predicate ShapingPanics(env: S.Env, upstream: Upstream, o: S.Options) {
    upstream.Answers? && S.ShapeOf(env, upstream.value, o).Panic?
  }

  /** A reply came back, and under these options Shape refuses it. */
  predicate ShapingFails(env: S.Env, upstream: Upstream, o: S.Options) {
    upstream.Answers? && S.ShapeOf(env, upstream.value, o).Fault?
  }

  /** A reply came back that is to be stored, because it is asked for or because it is cut, and is too large. */
  predicate TooLargeToStore(env: S.Env, upstream: Upstream, store: bool, o: S.Options) {
    && upstream.Answers? && S.ShapeOf(env, upstream.value, o).Shaped?
    && (S.ShapeOf(env, upstream.value, o).truncated || store)
    && |Encoded(env, upstream.value)| > MAX_STORED_RESULT
  }

  lemma WhatTheAnswerMeans(env: S.Env, upstream: Upstream, store: bool, o: S.Options)
    ensures var a := AnswerOf(env, upstream, o);
            && a.upstream == upstream
            && (Aborts(a) <==> ShapingPanics(env, upstream, o))
            && (a.upstream.Answers? && a.shaping.Unshapable? <==> ShapingFails(env, upstream, o))
            && (StoreRefuses(store, a) <==> TooLargeToStore(env, upstream, store, o))
  {
    hide S.ShapeOf, Encoded;
  }

  /**
   The receipt of a fresh call that runs by itself stays unfinished if and only if the call was not
   let through, shaping its reply panicked, or the reply was to be stored and was too large.
   */
  lemma ReceiptStaysUnfinishedExactly(db: Db, q: Request, store: bool, env: S.Env, upstream: Upstream, o: S.Options)
    requires IsFresh(db, q) && Chained(db.checkpoints)
    ensures var after := Complete(db, Started(Call(q, store)), AnswerOf(env, upstream, o)).0;
            && |after.receipts| == |db.receipts| + 1
            && (!after.receipts[|db.receipts|].finished <==>
                || !LetThrough(db, q) || ShapingPanics(env, upstream, o) || TooLargeToStore(env, upstream, store, o))
  {
    var a := AnswerOf(env, upstream, o);
    FreshCallLeaves(db, q, store, a);
    WhatTheAnswerMeans(env, upstream, store, o);
    hide IsFresh, Complete, Chained, NotesAfter, LetThrough, StoreRefuses, EndingOf, OutcomeOf, Request.Operation,
         AnswerOf, ShapingPanics, TooLargeToStore, Aborts;
  }

  /** The outcome of this receipt is on a checkpoint the call added. */
  predicate OutcomeNoted(before: Db, after: Db, id: nat) {
    exists k :: |before.checkpoints| <= k < |after.checkpoints|
                && after.checkpoints[k].payload.receipt == Some(id)
                && !after.checkpoints[k].payload.event.MutationBefore?
  }

  /** The checkpoints a call that is let through adds: the one before, and one more when there is an outcome to note. */
  lemma NotesAdded(db: Db, q: Request, ending: Option<Ending>)
    requires IsFresh(db, q) && IsNoted(db, q) && LetThrough(db, q)
    ensures var n, after := |db.checkpoints|, NotesAfter(db, q, ending);
            var told := ending.Some? && !ending.value.ReplyNotShaped?;
            && |after| == n + (if told then 2 else 1)
            && after[n].payload == Note(MutationBefore, Some(|db.receipts|))
            && (told ==> after[n + 1].payload == Note(EventOf(ending.value), Some(|db.receipts|))
                         && !EventOf(ending.value).MutationBefore?)
  {
    hide IsFresh, LetThrough, Latest, OwnerOf;
  }

  lemma UnshapedEnding(store: bool, a: Answer, ref: nat)
    ensures var ending := EndingOf(store, a, ref);
            ending.Some? && !ending.value.ReplyNotShaped? <==>
            !Aborts(a) && !StoreRefuses(store, a) && !(a.upstream.Answers? && a.shaping.Unshapable?)
  {}

  /** The checkpoints added tell whether the outcome is noted. */
  lemma NotedMeansTold(db: Db, after: Db, q: Request, ending: Option<Ending>)
    requires IsFresh(db, q) && IsNoted(db, q) && after.checkpoints == NotesAfter(db, q, ending)
    ensures OutcomeNoted(db, after, |db.receipts|) <==>
            LetThrough(db, q) && ending.Some? && !ending.value.ReplyNotShaped?
  {
    hide IsFresh, LetThrough, Latest, OwnerOf, IsNoted, EventOf;
    if LetThrough(db, q) {
      NotesAdded(db, q, ending);
      hide NotesAfter;
    }
  }

  lemma NotesAreAdded(db: Db, q: Request, store: bool, a: Answer)
    requires IsFresh(db, q)
    ensures After(db, q, store, a).checkpoints == NotesAfter(db, q, EndingOf(store, a, |db.blobs|))
  {
    hide IsFresh, BlobsAfter, EndingOf, OutcomeOf, Row, Latest;
  }

  lemma RowIsAdded(db: Db, q: Request, store: bool, a: Answer)
    requires IsFresh(db, q) && LetThrough(db, q)
    ensures var ending := EndingOf(store, a, |db.blobs|);
            After(db, q, store, a).receipts ==
            db.receipts + [Row(db, q, if ending.Some? then Some(OutcomeOf(ending.value)) else None)]
  {
    hide IsFresh, BlobsAfter, EndingOf, OutcomeOf, Row, NotesAfter;
  }

  /**
   A fresh mutation that belongs to a task and runs by itself has no outcome checkpoint if and only if
   it was not let through, or shaping its reply panicked or failed, or the reply was too large to store.
   */
  lemma OutcomeCheckpointMissingExactly(db: Db, q: Request, store: bool, env: S.Env, upstream: Upstream, o: S.Options)
    requires IsFresh(db, q) && IsNoted(db, q) && Chained(db.checkpoints)
    ensures var after := Complete(db, Started(Call(q, store)), AnswerOf(env, upstream, o)).0;
            !OutcomeNoted(db, after, |db.receipts|) <==>
            || !LetThrough(db, q) || ShapingPanics(env, upstream, o) || ShapingFails(env, upstream, o)
            || TooLargeToStore(env, upstream, store, o)
  {
    var a := AnswerOf(env, upstream, o);
    FreshCallLeaves(db, q, store, a);
    WhatTheAnswerMeans(env, upstream, store, o);
    UnshapedEnding(store, a, |db.blobs|);
    NotesAreAdded(db, q, store, a);
    hide *;
    NotedMeansTold(db, Complete(db, Started(Call(q, store)), a).0, q, EndingOf(store, a, |db.blobs|));
  }

  // ---------- One request by itself, told in full ----------

  /** The last checkpoint is the task's next one, and says this of this receipt. */
  ghost predicate Tells(table: seq<Checkpoint<Note>>, k: nat, task: nat, event: EventType, id: nat) {
    k < |table| && table[k].task == task && table[k].payload == Note(event, Some(id))
  }

  /** One row is added, which records the request and has this outcome or is open. */
  ghost predicate LeavesReceipt(db: Db, after: Db, q: Request, outcome: Option<Outcome>) {
    var id := |db.receipts|;
    && |after.receipts| == id + 1 && after.receipts[..id] == db.receipts
    && if outcome.None? then Records(after.receipts[id], q, db.owners)
       else
         && after.receipts[id].finished && after.receipts[id].outcome == outcome.value
         && Records(after.receipts[id].(outcome := UNFINISHED, finished := false), q, db.owners)
  }

  /** For a mutation of this task a checkpoint before the call is added, and one of this event after it, if any. */
  ghost predicate LeavesNotes(db: Db, after: Db, q: Request, task: Option<nat>, event: Option<EventType>) {
    var id, n := |db.receipts|, |db.checkpoints|;
    && |after.checkpoints| >= n && after.checkpoints[..n] == db.checkpoints
    && if q.mutation && task.Some? then
         && |after.checkpoints| == n + (if event.Some? then 2 else 1)
         && Tells(after.checkpoints, n, task.value, MutationBefore, id)
         && (event.Some? ==> Tells(after.checkpoints, n + 1, task.value, event.value, id))
       else |after.checkpoints| == n
  }

  /** This content is stored for the receipt and its task, if any; there are no more tasks or steps than before. */
  ghost predicate LeavesBlob(db: Db, after: Db, task: Option<nat>, stored: Option<string>) {
    && after.owners == db.owners && after.statuses == db.statuses
    && after.blobs == db.blobs + if stored.Some? then [Blob(task, |db.receipts|, stored.value)] else []
  }

  /** What a fresh request leaves. */
  ghost predicate Leaves(db: Db, after: Db, q: Request, event: Option<EventType>, outcome: Option<Outcome>,
                         stored: Option<string>)
  {
    && LeavesReceipt(db, after, q, outcome) && |after.receipts| > |db.receipts|
    && LeavesNotes(db, after, q, after.receipts[|db.receipts|].task, event)
    && LeavesBlob(db, after, after.receipts[|db.receipts|].task, stored)
  }

  lemma NewRowRecords(q: Request, owners: Owners)
    requires q.Owner(owners).Owned?
    ensures Records(q.Row(q.Owner(owners).task), q, owners)
  {
    OwnedMeansTaskOf(q, owners);
    assert q.Operation() == IdOf(q) by { hide TrimSpace; }
    hide TrimSpace, Request.Owner, Request.Operation, IdOf;
  }

  lemma RowRecords(db: Db, q: Request, outcome: Option<Outcome>)
    requires IsFresh(db, q)
    ensures var row := Row(db, q, outcome);
            && Records(row.(outcome := UNFINISHED, finished := false), q, db.owners) && row.task == OwnerOf(db, q)
            && (outcome.None? ==> row == row.(outcome := UNFINISHED, finished := false))
            && (outcome.Some? ==> row.finished && row.outcome == outcome.value)
  {
    NewRowRecords(q, db.owners);
    hide TrimSpace, FindOperation, Request.Owner, Request.Fault, Request.Operation, Records;
  }

  lemma NotesTell(db: Db, q: Request, ending: Option<Ending>)
    requires IsFresh(db, q) && LetThrough(db, q)
    ensures var n, after := |db.checkpoints|, NotesAfter(db, q, ending);
            var told := ending.Some? && !ending.value.ReplyNotShaped?;
            && |after| >= n && after[..n] == db.checkpoints
            && if q.mutation && OwnerOf(db, q).Some? then
                 && |after| == n + (if told then 2 else 1)
                 && Tells(after, n, OwnerOf(db, q).value, MutationBefore, |db.receipts|)
                 && (told ==> Tells(after, n + 1, OwnerOf(db, q).value, EventOf(ending.value), |db.receipts|))
               else |after| == n
  {
    hide IsFresh, Latest, OwnerOf, EventOf, W.Fits;
  }

  lemma ReceiptIsLeft(db: Db, q: Request, store: bool, a: Answer, outcome: Option<Outcome>)
    requires IsFresh(db, q) && LetThrough(db, q)
    requires var ending := EndingOf(store, a, |db.blobs|);
             outcome == if ending.Some? then Some(OutcomeOf(ending.value)) else None
    ensures var after := After(db, q, store, a);
            && LeavesReceipt(db, after, q, outcome)
            && |after.receipts| > |db.receipts| && after.receipts[|db.receipts|].task == OwnerOf(db, q)
  {
    RowIsAdded(db, q, store, a);
    RowRecords(db, q, outcome);
    hide IsFresh, OwnerOf, Row, EndingOf, OutcomeOf, Records, LetThrough, After;
  }

  lemma NotesAreLeft(db: Db, q: Request, store: bool, a: Answer, event: Option<EventType>)
    requires IsFresh(db, q) && LetThrough(db, q)
    requires var ending := EndingOf(store, a, |db.blobs|);
             event == if ending.Some? && !ending.value.ReplyNotShaped? then Some(EventOf(ending.value)) else None
    ensures LeavesNotes(db, After(db, q, store, a), q, OwnerOf(db, q), event)
  {
    NotesAreAdded(db, q, store, a);
    NotesTell(db, q, EndingOf(store, a, |db.blobs|));
    hide IsFresh, OwnerOf, NotesAfter, EndingOf, EventOf, LetThrough, Tells, After;
  }

  lemma BlobIsLeft(db: Db, q: Request, store: bool, a: Answer)
    requires IsFresh(db, q) && LetThrough(db, q)
    ensures LeavesBlob(db, After(db, q, store, a), OwnerOf(db, q),
                       if Keeps(store, a) && a.Storable() then Some(a.content) else None)
  {
    hide IsFresh, LetThrough, NotesAfter, Row, EndingOf, OutcomeOf, Keeps, OwnerOf;
    assert db.blobs + [] == db.blobs;
  }

  /** The closed form of a fresh call, read as what it leaves. */
  lemma AfterLeaves(db: Db, q: Request, store: bool, a: Answer)
    requires IsFresh(db, q) && LetThrough(db, q)
    ensures var ending := EndingOf(store, a, |db.blobs|);
            Leaves(db, After(db, q, store, a), q,
                   if ending.Some? && !ending.value.ReplyNotShaped? then Some(EventOf(ending.value)) else None,
                   if ending.Some? then Some(OutcomeOf(ending.value)) else None,
                   if Keeps(store, a) && a.Storable() then Some(a.content) else None)
  {
    var ending := EndingOf(store, a, |db.blobs|);
    var event := if ending.Some? && !ending.value.ReplyNotShaped? then Some(EventOf(ending.value)) else None;
    ReceiptIsLeft(db, q, store, a, if ending.Some? then Some(OutcomeOf(ending.value)) else None);
    NotesAreLeft(db, q, store, a, event);
    BlobIsLeft(db, q, store, a);
    hide IsFresh, OwnerOf, EndingOf, OutcomeOf, EventOf, LetThrough, Keeps, After, LeavesReceipt, LeavesNotes,
         LeavesBlob;
  }

  /** What becomes of a shaped reply. */
  ghost predicate ReplyIsTold(db: Db, after: Db, q: Request, store: bool, env: S.Env, value: Json, truncated: bool,
                              original: Json, reply: Reply)
  {
    var content, kept := env.encode(env.redactor.Redact(original)), truncated || store;
    if kept && |content| > 1_000_000 then
      reply == Failure(ResultTooLarge) && Leaves(db, after, q, None, None, None)
    else
      var ref := if kept then Some(|db.blobs|) else None;
      && reply == Answered(|db.receipts|, ReplyShown(value, truncated, ref))
      && Leaves(db, after, q, Some(MutationAfter), Some(Outcome(Confirmed, Returned, ref)),
                if kept then Some(content) else None)
  }

  /** What becomes of an answer of the upstream. */
  ghost predicate AnswerIsTold(db: Db, after: Db, q: Request, store: bool, env: S.Env, upstream: Upstream,
                               o: S.Options, reply: Reply)
  {
    var id := |db.receipts|;
    match upstream
    case NotConnected =>
      && reply == Answered(id, NeverSent)
      && Leaves(db, after, q, Some(FailedBeforeDelivery), Some(Outcome(Prepared, Progress.Failed, None)), None)
    case Silent =>
      && reply == Answered(id, NoReply)
      && Leaves(db, after, q, Some(EventType.DeliveryUnknown), Some(Outcome(Unknown, Uncertain, None)), None)
    case Answers(value) =>
      match S.ShapeOf(env, value, o)
      case Panic => reply == Panicked(id) && Leaves(db, after, q, None, None, None)
      case Fault(_) =>
        && reply == Answered(id, ReplyNotShaped)
        && Leaves(db, after, q, None, Some(Outcome(Confirmed, Returned, None)), None)
      case Shaped(shown, truncated, original) =>
        ReplyIsTold(db, after, q, store, env, shown, truncated, original, reply)
  }

  /** The original of a shaped reply is the redacted reply. */
  lemma OriginalIsRedacted(env: S.Env, value: Json, o: S.Options)
    ensures S.ShapeOf(env, value, o).Shaped? ==> S.ShapeOf(env, value, o).original == env.redactor.Redact(value)
  {}

  /** How a call ends, told by what its upstream answers and what Shape makes of that. */
  lemma EndingOfUnanswered(env: S.Env, upstream: Upstream, store: bool, o: S.Options, ref: nat)
    requires !upstream.Answers?
    ensures var a := AnswerOf(env, upstream, o);
            && EndingOf(store, a, ref) == Some(if upstream.NotConnected? then NeverSent else NoReply)
            && !Keeps(store, a)
  {}

  lemma EndingOfUnshaped(env: S.Env, value: Json, store: bool, o: S.Options, ref: nat, id: nat)
    requires !S.ShapeOf(env, value, o).Shaped?
    ensures var a := AnswerOf(env, Answers(value), o);
            && EndingOf(store, a, ref) == (if S.ShapeOf(env, value, o).Panic? then None else Some(ReplyNotShaped))
            && (S.ShapeOf(env, value, o).Panic? ==> StopOf(id, a) == Panicked(id))
            && !Keeps(store, a)
  {
    hide S.ShapeOf, Encoded;
  }

  lemma EndingOfShaped(env: S.Env, value: Json, store: bool, o: S.Options, ref: nat, id: nat)
    requires S.ShapeOf(env, value, o).Shaped?
    ensures var a, shaped := AnswerOf(env, Answers(value), o), S.ShapeOf(env, value, o);
            var kept := shaped.truncated || store;
            && a.content == env.encode(env.redactor.Redact(shaped.original)) && (Keeps(store, a) <==> kept)
            && if kept && |a.content| > 1_000_000 then
                 EndingOf(store, a, ref).None? && StopOf(id, a) == Failure(ResultTooLarge) && !a.Storable()
               else
                 && EndingOf(store, a, ref) ==
                    Some(ReplyShown(shaped.value, shaped.truncated, if kept then Some(ref) else None))
                 && (kept ==> a.Storable())
  {
    OriginalIsRedacted(env, value, o);
    hide S.ShapeOf, Redactor.Redact;
  }

  lemma TermsOfAnswer(db: Db, after: Db, q: Request, store: bool, env: S.Env, upstream: Upstream, o: S.Options,
                      reply: Reply)
    requires var a := AnswerOf(env, upstream, o);
             var ending := EndingOf(store, a, |db.blobs|);
             && reply == (if ending.Some? then Answered(|db.receipts|, ending.value) else StopOf(|db.receipts|, a))
             && Leaves(db, after, q,
                       if ending.Some? && !ending.value.ReplyNotShaped? then Some(EventOf(ending.value)) else None,
                       if ending.Some? then Some(OutcomeOf(ending.value)) else None,
                       if Keeps(store, a) && a.Storable() then Some(a.content) else None)
    ensures AnswerIsTold(db, after, q, store, env, upstream, o, reply)
  {
    hide Leaves, S.ShapeOf, Redactor.Redact, AnswerOf, EndingOf, StopOf, Keeps, Answer.Storable;
    if !upstream.Answers? {
      EndingOfUnanswered(env, upstream, store, o, |db.blobs|);
    } else if S.ShapeOf(env, upstream.value, o).Shaped? {
      EndingOfShaped(env, upstream.value, store, o, |db.blobs|, |db.receipts|);
    } else {
      EndingOfUnshaped(env, upstream.value, store, o, |db.blobs|, |db.receipts|);
    }
  }

  /**
   A fresh call that is let through and runs by itself, told by what its upstream answers and what Shape makes
   of that: what the caller is told, how the receipt ends, what is stored and what the checkpoints say.
   */
  lemma LoneCallExactly(db: Db, q: Request, store: bool, env: S.Env, upstream: Upstream, o: S.Options)
    requires IsFresh(db, q) && Chained(db.checkpoints) && LetThrough(db, q)
    ensures var (after, y) := Complete(db, Started(Call(q, store)), AnswerOf(env, upstream, o));
            y.pc.Done? && AnswerIsTold(db, after, q, store, env, upstream, o, y.pc.reply)
  {
    var a := AnswerOf(env, upstream, o);
    FreshCallLeaves(db, q, store, a);
    AfterLeaves(db, q, store, a);
    hide IsFresh, Chained, Complete, After, EndingOf, StopOf, Leaves, EventOf, OutcomeOf, Keeps, AnswerIsTold, AnswerOf,
         LetThrough, Started;
    TermsOfAnswer(db, Complete(db, Started(Call(q, store)), a).0, q, store, env, upstream, o, Told(db, q, store, a));
  }

  /** A fresh preparation from outside, from the insertion of its row on. */
  lemma InsertedPrepareLeaves(inserted: Db, q: Request, task: Option<nat>, id: nat, a: Answer)
    requires id < |inserted.receipts| && Chained(inserted.checkpoints)
    requires task.Some? ==> task.value < inserted.owners.tasks
    ensures ExecInBounds(inserted, InsertedBy(PrepareOnly(q), task, id))
    ensures var (after, y) := Complete(inserted, InsertedBy(PrepareOnly(q), task, id), a);
            var n := |inserted.checkpoints|;
            if q.mutation && task.Some? then
              if inserted.Fits(task.value) then
                && y.pc == Done(Ready(id)) && |after.checkpoints| == n + 1
                && after == inserted.(checkpoints := after.checkpoints)
                && after.checkpoints[..n] == inserted.checkpoints
                && Tells(after.checkpoints, n, task.value, MutationBefore, id)
              else after == inserted && y.pc == Done(Failure(InvalidInput))
            else after == inserted && y.pc == Done(Ready(id))
  {
    hide Complete, Chained, Latest, Db.Fits;
    var x := InsertedBy(PrepareOnly(q), task, id);
    if !(q.mutation && task.Some?) {
      CompleteOfDone(inserted, x, a);
    } else if inserted.Fits(task.value) {
      CompleteOfNote(inserted, x, Before, a);
      var row := Successor(inserted.checkpoints, task.value, Latest(inserted.checkpoints, task.value),
                           Note(MutationBefore, x.receipt));
      CompleteOfDone(inserted.(checkpoints := inserted.checkpoints + [row]), x.At(Done(Ready(id))), a);
    } else {
      CompleteOfRefusedNote(inserted, x, Before, a);
      CompleteOfDone(inserted, x.At(Done(Failure(InvalidInput))), a);
    }
  }

  /**
   A receipt prepared from outside is answered as the table says; a fresh one is recorded, and a mutation of
   a task is ready only with its checkpoint before the call, without which its open receipt is all it leaves.
   */
  lemma LonePrepareExactly(db: Db, q: Request, a: Answer)
    requires Chained(db.checkpoints)
    ensures var (after, y) := Complete(db, Started(PrepareOnly(q)), a);
            var verdict := Prepare(db.receipts, db.owners, q).1;
            if verdict.Rejected? then after == db && y.pc == Done(Failure(verdict.code))
            else if verdict.Existing? then after == db && y.pc == Done(Deduplicated(verdict.id))
            else
              var id, n := |db.receipts|, |db.checkpoints|;
              && |after.receipts| == id + 1 && after.receipts[..id] == db.receipts
              && Records(after.receipts[id], q, db.owners)
              && after == db.(receipts := after.receipts, checkpoints := after.checkpoints)
              && var task := after.receipts[id].task;
                 if q.mutation && task.Some? then
                   if db.Fits(task.value) then
                     && y.pc == Done(Ready(id)) && |after.checkpoints| == n + 1
                     && after.checkpoints[..n] == db.checkpoints
                     && Tells(after.checkpoints, n, task.value, MutationBefore, id)
                   else after.checkpoints == db.checkpoints && y.pc == Done(Failure(InvalidInput))
                 else after.checkpoints == db.checkpoints && y.pc == Done(Ready(id))
  {
    var (receipts, verdict) := Prepare(db.receipts, db.owners, q);
    CompleteOfPrepare(db, PrepareOnly(q), a, receipts, verdict);
    FreshRow(db.receipts, db.owners, q);
    hide Complete, Prepare, Chained, W.Fits, Started, Records, InsertedBy, ExecInBounds, Tells;
    if verdict.Fresh? {
      FreshPrepareRecords(db.receipts, db.owners, q);
      InsertedPrepareLeaves(db.(receipts := receipts), q, receipts[verdict.id].task, verdict.id, a);
    }
  }

  /**
   An outcome reported from outside is refused for a missing receipt or one finished otherwise; else the
   receipt has it, and a mutation of a task gets one more checkpoint, if that can be written.
   */
  lemma LoneFinalizeExactly(db: Db, id: nat, outcome: Outcome, a: Answer)
    requires Chained(db.checkpoints)
    ensures var (after, y) := Complete(db, Started(FinalizeOnly(id, outcome)), a);
            if id >= |db.receipts| then after == db && y.pc == Done(Failure(NotFound))
            else if db.receipts[id].finished && db.receipts[id].outcome != outcome then
              after == db && y.pc == Done(Failure(ReceiptFinalized))
            else
              var row, n := db.receipts[id], |db.checkpoints|;
              && y.pc == Done(Answered(id, External(outcome)))
              && after.receipts == db.receipts[id := row.(outcome := outcome, finished := true)]
              && after == db.(receipts := after.receipts, checkpoints := after.checkpoints)
              && if row.mutation && row.task.Some? && row.task.value < db.owners.tasks && db.Fits(row.task.value) then
                   && |after.checkpoints| == n + 1 && after.checkpoints[..n] == db.checkpoints
                   && Tells(after.checkpoints, n, row.task.value,
                            if outcome.delivery == Unknown then EventType.DeliveryUnknown else MutationAfter, id)
                 else after.checkpoints == db.checkpoints
  {
    CompleteOfLoad(db, id, outcome, a);
    hide Complete, Chained, Latest, W.Fits, Started;
    if id < |db.receipts| {
      var x, ending, row := Loaded(db, id, outcome), External(outcome), db.receipts[id];
      CompleteOfExternal(db, x, a);
      var after := db.(receipts := db.receipts[id := row.(outcome := outcome, finished := true)]);
      if !(row.finished && row.outcome != outcome) {
        assert Finalize(db.receipts, id, outcome).0 == after.receipts;
        var y := x.At(AfterFinish(x, ending));
        if x.Noting() {
          if row.task.value < db.owners.tasks && db.Fits(row.task.value) {
            CompleteOfNote(after, y, Afterwards(ending), a);
            var link := Successor(after.checkpoints, row.task.value, Latest(after.checkpoints, row.task.value),
                                  Note(EventOf(ending), x.receipt));
            CompleteOfDone(after.(checkpoints := after.checkpoints + [link]), y.At(Done(Answered(id, ending))), a);
          } else {
            CompleteOfIgnoredNote(after, y, ending, a);
            CompleteOfDone(after, y.At(Done(Answered(id, ending))), a);
          }
        } else {
          CompleteOfDone(after, y, a);
        }
      }
    }
  }

  // ---------- Calls in which it happens ----------

  /** A reply that is too large comes back, the caller gets an error, and the receipt stays open. */
  lemma RepliedAndUnfinished(db: Db, q: Request, store: bool, env: S.Env, upstream: Upstream, o: S.Options)
    requires IsFresh(db, q) && IsNoted(db, q) && LetThrough(db, q) && Chained(db.checkpoints)
    requires TooLargeToStore(env, upstream, store, o)
    ensures var (after, y) := Complete(db, Started(Call(q, store)), AnswerOf(env, upstream, o));
            && y.pc == Done(Failure(ResultTooLarge)) && |after.receipts| == |db.receipts| + 1
            && !after.receipts[|db.receipts|].finished
            && ReplayPolicy(after.receipts[|db.receipts|]) == VerifyBeforeAnyRetry
            && |after.checkpoints| == |db.checkpoints| + 1
  {
    WhatTheAnswerMeans(env, upstream, store, o);
    FreshCallLeaves(db, q, store, AnswerOf(env, upstream, o));
    hide IsFresh, Complete, Chained, LetThrough, Latest, Started, BlobsAfter, OwnerOf, Request.Operation, AnswerOf,
         TooLargeToStore, ShapingPanics;
  }

  /**
   A reply on which shaping panics: 1024 items or more, from offset 1024 with a limit that overflows.
   No one is told anything, and the receipt stays open.
   */
  lemma PanickedAndUnfinished(db: Db, q: Request, store: bool, env: S.Env, result: Json, maxChars: Int)
    requires IsFresh(db, q) && IsNoted(db, q) && LetThrough(db, q) && Chained(db.checkpoints)
    requires S.Lists(result, "structured_content", "items", 1024)
    requires !env.redactor.secret("structured_content") && !env.redactor.secret("items")
    ensures var o := S.Options("$.structured_content.items", [], 1024, S.LARGE_LIMIT, maxChars);
            var (after, y) := Complete(db, Started(Call(q, store)), AnswerOf(env, Answers(result), o));
            && y.pc == Done(Panicked(|db.receipts|)) && |after.receipts| == |db.receipts| + 1
            && !after.receipts[|db.receipts|].finished
            && ReplayPolicy(after.receipts[|db.receipts|]) == VerifyBeforeAnyRetry
            && |after.checkpoints| == |db.checkpoints| + 1
  {
    var o := S.Options("$.structured_content.items", [], 1024, S.LARGE_LIMIT, maxChars);
    hide *;
    S.LargeLimitPanics(env, result, maxChars);
    PanickingAnswer(env, result, o);
    PanickingCallLeaves(db, q, store, AnswerOf(env, Answers(result), o));
  }

  lemma PanickingAnswer(env: S.Env, result: Json, o: S.Options)
    requires S.ShapeOf(env, result, o).Panic?
    ensures Aborts(AnswerOf(env, Answers(result), o))
  {
    hide S.ShapeOf, Encoded;
  }

  lemma PanickingCallLeaves(db: Db, q: Request, store: bool, a: Answer)
    requires IsFresh(db, q) && IsNoted(db, q) && LetThrough(db, q) && Chained(db.checkpoints) && Aborts(a)
    ensures var (after, y) := Complete(db, Started(Call(q, store)), a);
            && y.pc == Done(Panicked(|db.receipts|)) && |after.receipts| == |db.receipts| + 1
            && !after.receipts[|db.receipts|].finished
            && ReplayPolicy(after.receipts[|db.receipts|]) == VerifyBeforeAnyRetry
            && |after.checkpoints| == |db.checkpoints| + 1
  {
    FreshCallLeaves(db, q, store, a);
    hide IsFresh, Complete, Chained, LetThrough, Latest, Started, BlobsAfter, OwnerOf, Request.Operation;
  }

  lemma RowTells(db: Db, q: Request, outcome: Outcome)
    requires IsFresh(db, q)
    ensures Row(db, q, Some(outcome)).finished && Row(db, q, Some(outcome)).outcome == outcome
  {
    hide IsFresh, OwnerOf, Request.Operation;
  }

  lemma UnshapedIsNotShown(store: bool, a: Answer, ref: nat)
    requires a.upstream.Answers? && a.shaping.Unshapable?
    ensures EndingOf(store, a, ref) == Some(ReplyNotShaped)
  {}

  /** The tables after a call whose reply cannot be shaped. */
  lemma UnshapedAfter(db: Db, q: Request, store: bool, a: Answer)
    requires IsFresh(db, q) && IsNoted(db, q) && LetThrough(db, q) && a.upstream.Answers? && a.shaping.Unshapable?
    ensures var after := After(db, q, store, a);
            && |after.receipts| == |db.receipts| + 1 && after.receipts[|db.receipts|].finished
            && after.receipts[|db.receipts|].outcome.delivery == Confirmed
            && |after.checkpoints| == |db.checkpoints| + 1
            && after.checkpoints[|db.checkpoints|].payload == Note(MutationBefore, Some(|db.receipts|))
  {
    assert OutcomeOf(ReplyNotShaped).delivery == Confirmed;
    hide *;
    UnshapedIsNotShown(store, a, |db.blobs|);
    NotesAdded(db, q, Some(ReplyNotShaped));
    NotesAreAdded(db, q, store, a);
    RowIsAdded(db, q, store, a);
    RowTells(db, q, OutcomeOf(ReplyNotShaped));
  }

  /** A reply that cannot be shaped: the receipt is confirmed, and no outcome checkpoint follows. */
  lemma ConfirmedAndUnnoted(db: Db, q: Request, store: bool, env: S.Env, upstream: Upstream, o: S.Options)
    requires IsFresh(db, q) && IsNoted(db, q) && LetThrough(db, q) && Chained(db.checkpoints)
    requires ShapingFails(env, upstream, o)
    ensures var after := Complete(db, Started(Call(q, store)), AnswerOf(env, upstream, o)).0;
            && |after.receipts| == |db.receipts| + 1 && after.receipts[|db.receipts|].finished
            && after.receipts[|db.receipts|].outcome.delivery == Confirmed
            && |after.checkpoints| == |db.checkpoints| + 1
            && after.checkpoints[|db.checkpoints|].payload == Note(MutationBefore, Some(|db.receipts|))
  {
    hide *;
    WhatTheAnswerMeans(env, upstream, store, o);
    FreshCallLeaves(db, q, store, AnswerOf(env, upstream, o));
    UnshapedAfter(db, q, store, AnswerOf(env, upstream, o));
  }

  /** A call whose checkpoint does not fit is not sent: its receipt is all it leaves. */
  lemma RefusedBeforeSending(db: Db, q: Request, store: bool, a: Answer)
    requires IsFresh(db, q) && !LetThrough(db, q) && Chained(db.checkpoints)
    ensures var (after, y) := Complete(db, Started(Call(q, store)), a);
            && y.pc == Done(Failure(InvalidInput)) && |after.receipts| == |db.receipts| + 1
            && !after.receipts[|db.receipts|].finished
            && after == db.(receipts := after.receipts)
  {
    FreshCallLeaves(db, q, store, a);
    hide IsFresh, Complete, Chained, LetThrough, Started, OwnerOf, Request.Operation;
  }

  /** The only task, with n steps to do. */
  function Crowded(n: nat): Db {
    Db(Owners(1, seq(n, i => 0)), seq(n, i => W.StepStatus.Todo), [], [], [])
  }

  /** A mutation on that task. */
  function Change(operation: string, tool: string): Request {
    Request(operation, "", Some(0), None, tool, "{}", true)
  }

  lemma CrowdedFits(n: nat)
    ensures Crowded(n).Fits(0) <==> n <= 740
  {
    WorkLimits.TallyOfTodo(Crowded(n).owners.steps, Crowded(n).statuses);
    TallyOfOthers(Crowded(n).owners.steps, Crowded(n).statuses);
    hide W.Tally;
  }

  lemma {:induction false} TallyOfOthers(tasks: seq<nat>, statuses: seq<W.StepStatus>)
    requires forall i :: 0 <= i < |statuses| ==> statuses[i].Todo?
    ensures W.Tally(tasks, statuses, 0, W.Settled) == W.Tally(tasks, statuses, 0, W.Stopped) == 0
  {
    if statuses != [] {
      TallyOfOthers(tasks, statuses[..|statuses| - 1]);
    }
  }

  lemma ChangeIsFresh(db: Db, operation: string, tool: string)
    requires Trimmed(operation) && 0 < |operation| <= 160 && Trimmed(tool) && 0 < |tool| <= 256
    requires db.receipts == [] && db.owners.tasks == 1
    ensures var q := Change(operation, tool); IsFresh(db, q) && OwnerOf(db, q) == Some(0)
  {
    hide TrimSpace, Trimmed, IsSpace, FindOperation, Request.Row;
    TrimSpaceKeepsTrimmed(operation);
    TrimSpaceKeepsTrimmed(tool);
    var q := Change(operation, tool);
    assert q.Operation() == operation && q.Fault().None? && q.Owner(db.owners) == Owned(Some(0));
    NothingIsFound(operation);
  }

  lemma NothingIsFound(operation: string)
    ensures FindOperation([], operation).None?
  {}

  /**
   These calls exist: a mutation on a task with n steps to do is let through, and so in reach of the
   first two lemmas, when n is at most 740, and refused for want of a checkpoint from 741 on.
   */
  lemma SuchCallsExist(n: nat, operation: string, tool: string)
    requires Trimmed(operation) && 0 < |operation| <= 160 && Trimmed(tool) && 0 < |tool| <= 256
    ensures var db, q := Crowded(n), Change(operation, tool);
            IsFresh(db, q) && IsNoted(db, q) && Chained(db.checkpoints) && (LetThrough(db, q) <==> n <= 740)
  {
    ChangeIsFresh(Crowded(n), operation, tool);
    CrowdedFits(n);
    assert Chained(Crowded(n).checkpoints);
    hide IsFresh, OwnerOf, Db.Fits, Crowded, Chained, Trimmed;
  }
}
