/**
 The checkpoints table of work/checkpoints.go and work/db.go. A row's id is its place in the
 table. A writer reads the latest checkpoint of the task in one statement and inserts the next
 one in another; UNIQUE(task_id, sequence) is all that stands between two writers.
 */
module Checkpoints {
  import opened Text

  datatype Checkpoint<P> = Checkpoint(task: nat, sequence: nat, parent: Option<nat>, payload: P)

  /** SELECT ... WHERE task_id = ? ORDER BY sequence DESC LIMIT 1. */
  function Latest<P>(table: seq<Checkpoint<P>>, task: nat): (id: Option<nat>)
    ensures id.Some? ==> id.value < |table| && table[id.value].task == task
    ensures id.None? ==> forall k :: 0 <= k < |table| ==> table[k].task != task
  {
    if table == [] then None
    else
      var n := |table| - 1;
      var before := Latest(table[..n], task);
      if table[n].task == task && (before.None? || table[n].sequence > table[before.value].sequence)
      then Some(n) else before
  }

  /** The row a writer that read `latest` will try to insert. */
  function Successor<P>(table: seq<Checkpoint<P>>, task: nat, latest: Option<nat>, payload: P): Checkpoint<P>
    requires latest.Some? ==> latest.value < |table|
  {
    Checkpoint(task, if latest.None? then 1 else table[latest.value].sequence + 1, latest, payload)
  }

  /** UNIQUE(task_id, sequence). */
  predicate Duplicate<P>(table: seq<Checkpoint<P>>, row: Checkpoint<P>) {
    exists k :: 0 <= k < |table| && table[k].task == row.task && table[k].sequence == row.sequence
  }

  /** INSERT, which the constraint may refuse. */
  function TryInsert<P>(table: seq<Checkpoint<P>>, row: Checkpoint<P>): Option<seq<Checkpoint<P>>> {
    if Duplicate(table, row) then None else Some(table + [row])
  }

  // ---------- The chain ----------

  /** Every row was appended right after the row that was then its task's latest. */
  ghost predicate Chained<P>(table: seq<Checkpoint<P>>) {
    table == [] ||
    (var n := |table| - 1;
     Chained(table[..n])
     && table[n] == Successor(table[..n], table[n].task, Latest(table[..n], table[n].task), table[n].payload))
  }

  /** The ids of a task's checkpoints, oldest first. */
  function Chain<P>(table: seq<Checkpoint<P>>, task: nat): (ids: seq<nat>)
    ensures forall k :: 0 <= k < |ids| ==> ids[k] < |table| && table[ids[k]].task == task
  {
    if table == [] then []
    else
      var n := |table| - 1;
      Chain(table[..n], task) + if table[n].task == task then [n] else []
  }

  /** The k-th of these checkpoints carries the number k + 1 and names the one before it as its parent. */
  ghost predicate Linked<P>(table: seq<Checkpoint<P>>, ids: seq<nat>, k: nat)
    requires k < |ids| && forall j :: 0 <= j < |ids| ==> ids[j] < |table|
  {
    && table[ids[k]].sequence == k + 1
    && table[ids[k]].parent == if k == 0 then None else Some(ids[k - 1])
  }

  /** Every link of the chain holds and its end is what a writer reads as the latest. */
  ghost predicate ChainLinked<P>(table: seq<Checkpoint<P>>, task: nat) {
    var ids := Chain(table, task);
    && (forall k :: 0 <= k < |ids| ==> Linked(table, ids, k))
    && Latest(table, task) == if ids == [] then None else Some(ids[|ids| - 1])
  }

  /** A task's checkpoints are numbered 1..n and each names the one before it as its parent. */
  ghost predicate Numbered<P>(table: seq<Checkpoint<P>>, task: nat) {
    && ChainLinked(table, task)
    && (forall i :: 0 <= i < |table| && table[i].task == task ==> i in Chain(table, task))
  }

  lemma {:induction false} ChainIsComplete<P>(table: seq<Checkpoint<P>>, task: nat, i: nat)
    requires i < |table| && table[i].task == task
    ensures i in Chain(table, task)
  {
    var n := |table| - 1;
    if i < n {
      ChainIsComplete(table[..n], task, i);
    } else {
      assert Chain(table, task)[|Chain(table[..n], task)|] == i;
    }
  }

  lemma ChainGrows<P>(table: seq<Checkpoint<P>>, task: nat)
    requires table != []
    ensures var n := |table| - 1;
            Chain(table, task) == Chain(table[..n], task) + if table[n].task == task then [n] else []
  {}

  /** A link of the chain stays one when a row is added. */
  lemma LinkStays<P>(table: seq<Checkpoint<P>>, earlier: seq<nat>, ids: seq<nat>, k: nat)
    requires table != [] && k < |earlier| && earlier <= ids
    requires forall j :: 0 <= j < |earlier| ==> earlier[j] < |table| - 1
    requires forall j :: 0 <= j < |ids| ==> ids[j] < |table|
    requires Linked(table[..|table| - 1], earlier, k)
    ensures Linked(table, ids, k)
  {}

  /** The successor of the latest row is the next link. */
  lemma SuccessorIsLinked<P>(table: seq<Checkpoint<P>>, task: nat)
    requires table != [] && table[|table| - 1].task == task
    requires ChainLinked(table[..|table| - 1], task)
    requires var n := |table| - 1;
             table[n] == Successor(table[..n], task, Latest(table[..n], task), table[n].payload)
    ensures var earlier := Chain(table[..|table| - 1], task);
            && table[|table| - 1].sequence == |earlier| + 1
            && Latest(table, task) == Some(|table| - 1)
            && table[|table| - 1].parent == if earlier == [] then None else Some(earlier[|earlier| - 1])
  {
    var n := |table| - 1;
    var before, earlier := table[..n], Chain(table[..n], task);
    hide Chain;
    if earlier != [] {
      assert Linked(before, earlier, |earlier| - 1);
    }
  }

  lemma ChainLinkedStep<P>(table: seq<Checkpoint<P>>, task: nat)
    requires table != []
    requires ChainLinked(table[..|table| - 1], task)
    requires var n := |table| - 1;
             table[n] == Successor(table[..n], table[n].task, Latest(table[..n], table[n].task), table[n].payload)
    ensures ChainLinked(table, task)
  {
    ChainGrows(table, task);
    var n := |table| - 1;
    var before := table[..n];
    var earlier, ids := Chain(before, task), Chain(table, task);
    if table[n].task == task {
      SuccessorIsLinked(table, task);
    } else {
      assert Latest(table, task) == Latest(before, task);
    }
    hide Chain, Latest, Successor;
    forall k | 0 <= k < |ids| ensures Linked(table, ids, k) {
      if k < |earlier| {
        LinkStays(table, earlier, ids, k);
      }
    }
  }

  lemma {:induction false} ChainIsLinked<P>(table: seq<Checkpoint<P>>, task: nat)
    requires Chained(table)
    ensures ChainLinked(table, task)
  {
    if table != [] {
      ChainIsLinked(table[..|table| - 1], task);
      ChainLinkedStep(table, task);
    }
  }

  lemma ChainIsNumbered<P>(table: seq<Checkpoint<P>>, task: nat)
    requires Chained(table)
    ensures Numbered(table, task)
  {
    ChainIsLinked(table, task);
    forall i | 0 <= i < |table| && table[i].task == task ensures i in Chain(table, task) {
      ChainIsComplete(table, task, i);
    }
  }

  /** A reading that another writer has overtaken is refused by the constraint. */
  lemma StaleInsertIsRefused<P>(table: seq<Checkpoint<P>>, task: nat, latest: Option<nat>, payload: P)
    requires Chained(table)
    requires latest.Some? ==> latest.value < |table| && table[latest.value].task == task
    requires latest != Latest(table, task)
    ensures TryInsert(table, Successor(table, task, latest, payload)).None?
  {
    ChainIsNumbered(table, task);
    hide Chained, Chain, Latest;
    var ids := Chain(table, task);
    var next := if latest.None? then 0 else table[latest.value].sequence;
    if latest.Some? {
      var j :| 0 <= j < |ids| && ids[j] == latest.value;
      assert Linked(table, ids, j);
      assert next < |ids|;
    }
    assert Linked(table, ids, next);
  }

  /** A current reading is accepted and the chain grows by its successor. */
  lemma FreshInsertExtendsChain<P>(table: seq<Checkpoint<P>>, task: nat, payload: P)
    requires Chained(table)
    ensures var row := Successor(table, task, Latest(table, task), payload);
            TryInsert(table, row) == Some(table + [row]) && Chained(table + [row])
  {
    ChainIsNumbered(table, task);
    var row := Successor(table, task, Latest(table, task), payload);
    assert (table + [row])[..|table|] == table;
    assert !Duplicate(table, row) by {
      hide Chained, Chain, Latest;
      var ids := Chain(table, task);
      assert ids != [] ==> Linked(table, ids, |ids| - 1);
      forall k | 0 <= k < |table| && table[k].task == task ensures table[k].sequence != row.sequence {
        var j :| 0 <= j < |ids| && ids[j] == k;
        assert Linked(table, ids, j);
      }
    }
  }

  /** An insert from a reading of any age is accepted exactly when the reading is still current. */
  lemma InsertNeedsFreshReading<P>(table: seq<Checkpoint<P>>, task: nat, latest: Option<nat>, payload: P)
    requires Chained(table)
    requires latest.Some? ==> latest.value < |table| && table[latest.value].task == task
    ensures var result := TryInsert(table, Successor(table, task, latest, payload));
            (result.Some? <==> latest == Latest(table, task)) && (result.Some? ==> Chained(result.value))
  {
    if latest == Latest(table, task) {
      FreshInsertExtendsChain(table, task, payload);
    } else {
      StaleInsertIsRefused(table, task, latest, payload);
    }
  }
}
