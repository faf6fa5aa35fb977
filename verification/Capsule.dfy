/** work/resume_capsule.go: what a new conversation is told about a task. */
module Capsule {
  import opened Text
  import opened Query
  import opened Work
  import opened WorkRuns
  import WorkLimits
  import Checkpoints
  import R = Receipts

  const MAX_PENDING := 12
  const MAX_UNCERTAIN := 8
  const MAX_DO_NOT_REPLAY := 12
  const MAX_RECEIPTS := 20
  const MAX_ARTIFACTS := 20

  /** An operation receipt and its started_at. */
  datatype Row = Row(receipt: R.Receipt, started: nat)

  /** Rows are given by their place in their table. */
  datatype Capsule = Capsule(
    totalSteps: nat, byStatus: map<StepStatus, nat>, current: Option<nat>, pending: seq<nat>,
    lastSuccess: Option<nat>, lastFailure: Option<nat>, uncertain: seq<nat>, doNotReplay: seq<nat>,
    latestCheckpoint: Option<nat>, audit: Option<nat>, artifacts: seq<nat>, nextAction: Option<string>)

  // ---------- Queries ----------

  function OfTask(rows: seq<Row>, t: nat): nat -> bool {
    (i: nat) => i < |rows| && rows[i].receipt.task == Some(t)
  }

  /** ORDER BY started_at DESC, rowid DESC. */
  function Newer(rows: seq<Row>): (nat, nat) -> bool {
    (i: nat, j: nat) =>
      i < |rows| && j < |rows| && (rows[i].started > rows[j].started || (rows[i].started == rows[j].started && i > j))
  }

  function Newest(rows: seq<Row>, t: nat): seq<nat> {
    Take(OrderBy(|rows|, OfTask(rows, t), Newer(rows)), MAX_RECEIPTS)
  }

  /** The artifacts of the task. */
  function OfOwner(rows: seq<Artifact>, t: nat): nat -> bool {
    (i: nat) => i < |rows| && rows[i].task == Some(t)
  }

  /** ORDER BY updated_at DESC, here with the later row first where the order is left open. */
  function Fresher(rows: seq<Artifact>): (nat, nat) -> bool {
    (i: nat, j: nat) =>
      i < |rows| && j < |rows| && (rows[i].updated > rows[j].updated || (rows[i].updated == rows[j].updated && i > j))
  }

  /** The task's artifacts, latest update first, in any order among equals, and only the latest when there are many. */
  ghost predicate ArtifactsListed(rows: seq<Artifact>, t: nat, ids: seq<nat>) {
    && |ids| <= 20
    && (forall a :: 0 <= a < |ids| ==> ids[a] < |rows| && rows[ids[a]].task == Some(t))
    && (forall a, b :: 0 <= a < b < |ids| ==> ids[a] != ids[b] && rows[ids[a]].updated >= rows[ids[b]].updated)
    && forall k: nat :: k < |rows| && rows[k].task == Some(t) && k !in ids ==>
         |ids| == 20 && forall i :: 0 <= i < |ids| ==> rows[ids[i]].updated >= rows[k].updated
  }

  lemma FresherOrders(rows: seq<Artifact>, t: nat)
    ensures Orders(|rows|, OfOwner(rows, t), Fresher(rows))
  {}

  /** A sorted selection of the task's artifacts, limited, is listed as it should be. */
  lemma ListedFrom(rows: seq<Artifact>, t: nat, all: seq<nat>)
    requires InOrder(all, Fresher(rows))
    requires forall k: nat :: k in all <==> k < |rows| && rows[k].task == Some(t)
    ensures ArtifactsListed(rows, t, Take(all, MAX_ARTIFACTS))
  {
    TakeKeepsTheFirst(all, MAX_ARTIFACTS, Fresher(rows));
    var ids := Take(all, MAX_ARTIFACTS);
    hide Take;
    assert forall i :: 0 <= i < |ids| ==> ids[i] in ids;
    assert forall i, j :: 0 <= i < j < |ids| ==> Fresher(rows)(ids[i], ids[j]);
    forall k: nat | k < |rows| && rows[k].task == Some(t) && k !in ids
      ensures |ids| == MAX_ARTIFACTS && forall i :: 0 <= i < |ids| ==> rows[ids[i]].updated >= rows[k].updated
    {
      assert forall i :: 0 <= i < |ids| ==> Fresher(rows)(ids[i], k);
    }
  }

  lemma FreshestAreListed(rows: seq<Artifact>, t: nat)
    ensures ArtifactsListed(rows, t, Take(OrderBy(|rows|, OfOwner(rows, t), Fresher(rows)), MAX_ARTIFACTS))
  {
    FresherOrders(rows, t);
    OrderBySelects(|rows|, OfOwner(rows, t), Fresher(rows));
    OrderBySorts(|rows|, OfOwner(rows, t), Fresher(rows));
    hide OrderBy, Orders, Take, InOrder, ArtifactsListed, Fresher;
    ListedFrom(rows, t, OrderBy(|rows|, OfOwner(rows, t), Fresher(rows)));
  }

  // ---------- What the pass over the rows collects ----------

  predicate Unsettled(status: StepStatus) {
    !status.Done? && !status.Skipped?
  }

  predicate Open(status: StepStatus) {
    status.Todo? || status.Doing? || status.Blocked?
  }

  function First(ids: seq<nat>): Option<nat> {
    if ids == [] then None else Some(ids[0])
  }

  /** The step named by the task; without one, the first open step. */
  function CurrentStep(steps: seq<Step>, order: seq<nat>, named: Option<nat>): Option<nat> {
    if named.Some? && named.value in order then named else First(Having(steps, order, Open))
  }

  /** What the latest checkpoint says to do next; without that, to continue with the current step. */
  function NextAction(s: State, latest: Option<nat>, current: Option<nat>): Option<string> {
    if latest.Some? && latest.value < |s.checkpoints| && s.checkpoints[latest.value].payload.next != ""
    then Some(s.checkpoints[latest.value].payload.next)
    else if current.Some? && current.value < |s.steps| then Some("Continue step: " + s.steps[current.value].title)
    else None
  }

  function CountOf(steps: seq<Step>, order: seq<nat>, status: StepStatus): nat {
    if order == [] then 0
    else
      var n := |order| - 1;
      CountOf(steps, order[..n], status) + if order[n] < |steps| && steps[order[n]].status == status then 1 else 0
  }

  predicate Delivered(r: R.Receipt) {
    r.outcome.delivery.Confirmed? && r.outcome.progress.Returned?
  }

  predicate Failed(r: R.Receipt) {
    r.outcome.progress.Failed?
  }

  predicate Doubtful(r: R.Receipt) {
    r.outcome.delivery.Unknown? || r.outcome.delivery.Prepared?
  }

  predicate Unrepeatable(r: R.Receipt) {
    r.mutation && !R.ReplayPolicy(r).SafeToRepeat?
  }

  function Such(rows: seq<Row>, kind: R.Receipt -> bool): nat -> bool {
    (i: nat) => i < |rows| && kind(rows[i].receipt)
  }

  function Picked(rows: seq<Row>, ids: seq<nat>, kind: R.Receipt -> bool): seq<nat> {
    Select(ids, Such(rows, kind))
  }

  // ---------- The code ----------

  /** One pass over the steps in order of position. */
  method ScanSteps(steps: seq<Step>, order: seq<nat>, named: Option<nat>)
    returns (current: Option<nat>, pending: seq<nat>, byStatus: map<StepStatus, nat>)
    requires forall i :: 0 <= i < |order| ==> order[i] < |steps|
    ensures current == CurrentStep(steps, order, named)
    ensures pending == Having(steps, order, Unsettled)
    ensures forall st :: (if st in byStatus then byStatus[st] else 0) == CountOf(steps, order, st)
  {
    current, pending, byStatus := None, [], map[];
    for i := 0 to |order|
      invariant current == CurrentStep(steps, order[..i], named)
      invariant pending == Having(steps, order[..i], Unsettled)
      invariant forall st :: (if st in byStatus then byStatus[st] else 0) == CountOf(steps, order[..i], st)
    {
      var id := order[i];
      var state := steps[id].status;
      CurrentOneMore(steps, order, i, named);
      HavingOneMore(steps, order, i, Unsettled);
      CountOneMore(steps, order, i);
      hide CurrentStep, Having, CountOf;
      byStatus := byStatus[state := (if state in byStatus then byStatus[state] else 0) + 1];
      if named.Some? && id == named.value {
        current := Some(id);
      }
      if !state.Done? && !state.Skipped? {
        pending := pending + [id];
        if current.None? && (state.Doing? || state.Blocked? || state.Todo?) {
          current := Some(id);
        }
      }
    }
    assert order[..|order|] == order;
  }

  lemma HavingOneMore(steps: seq<Step>, order: seq<nat>, i: nat, kind: StepStatus -> bool)
    requires i < |order| && order[i] < |steps|
    ensures Having(steps, order[..i + 1], kind) ==
            Having(steps, order[..i], kind) + if kind(steps[order[i]].status) then [order[i]] else []
  {
    SelectOneMore(order, i, OfKind(steps, kind));
    hide Select;
  }

  lemma CurrentOneMore(steps: seq<Step>, order: seq<nat>, i: nat, named: Option<nat>)
    requires i < |order| && order[i] < |steps|
    ensures var before := CurrentStep(steps, order[..i], named);
            CurrentStep(steps, order[..i + 1], named) ==
            if named == Some(order[i]) then named
            else if before.Some? then before
            else if Open(steps[order[i]].status) then Some(order[i]) else None
  {
    HavingOneMore(steps, order, i, Open);
    hide Having, Open;
    assert order[..i + 1] == order[..i] + [order[i]];
  }

  lemma CountOneMore(steps: seq<Step>, order: seq<nat>, i: nat)
    requires i < |order| && order[i] < |steps|
    ensures forall st :: CountOf(steps, order[..i + 1], st) ==
                         CountOf(steps, order[..i], st) + if steps[order[i]].status == st then 1 else 0
  {
    assert order[..i + 1][..i] == order[..i];
  }

  /** One pass over the receipts, newest first. */
  method ScanReceipts(rows: seq<Row>, ids: seq<nat>)
    returns (lastSuccess: Option<nat>, lastFailure: Option<nat>, uncertain: seq<nat>, doNotReplay: seq<nat>)
    requires forall i :: 0 <= i < |ids| ==> ids[i] < |rows|
    ensures lastSuccess == First(Picked(rows, ids, Delivered))
    ensures lastFailure == First(Picked(rows, ids, Failed))
    ensures uncertain == Picked(rows, ids, Doubtful)
    ensures doNotReplay == Picked(rows, ids, Unrepeatable)
  {
    lastSuccess, lastFailure, uncertain, doNotReplay := None, None, [], [];
    for i := 0 to |ids|
      invariant lastSuccess == First(Picked(rows, ids[..i], Delivered))
      invariant lastFailure == First(Picked(rows, ids[..i], Failed))
      invariant uncertain == Picked(rows, ids[..i], Doubtful)
      invariant doNotReplay == Picked(rows, ids[..i], Unrepeatable)
    {
      var id := ids[i];
      var receipt := rows[id].receipt;
      PickedOneMore(rows, ids, i, Delivered);
      PickedOneMore(rows, ids, i, Failed);
      PickedOneMore(rows, ids, i, Doubtful);
      PickedOneMore(rows, ids, i, Unrepeatable);
      hide Picked;
      var policy := R.ReplayPolicy(receipt);
      hide R.ReplayPolicy;
      if lastSuccess.None? && receipt.outcome.delivery.Confirmed? && receipt.outcome.progress.Returned? {
        lastSuccess := Some(id);
      }
      if lastFailure.None? && receipt.outcome.progress.Failed? {
        lastFailure := Some(id);
      }
      if receipt.outcome.delivery.Unknown? || receipt.outcome.delivery.Prepared? {
        uncertain := uncertain + [id];
      }
      if receipt.mutation && !policy.SafeToRepeat? {
        doNotReplay := doNotReplay + [id];
      }
    }
    assert ids[..|ids|] == ids;
  }

  lemma PickedOneMore(rows: seq<Row>, ids: seq<nat>, i: nat, kind: R.Receipt -> bool)
    requires i < |ids| && ids[i] < |rows|
    ensures Picked(rows, ids[..i + 1], kind) ==
            Picked(rows, ids[..i], kind) + if kind(rows[ids[i]].receipt) then [ids[i]] else []
  {
    SelectOneMore(ids, i, Such(rows, kind));
    hide Select;
  }

  /** What the capsule of task t must say. */
  ghost predicate Describes(c: Capsule, s: State, rows: seq<Row>, t: nat)
    requires t < |s.tasks|
  {
    var order, newest := StepOrder(s.steps, t), Newest(rows, t);
    && c.totalSteps == |order|
    && (forall st :: (if st in c.byStatus then c.byStatus[st] else 0) == CountOf(s.steps, order, st))
    && c.current == CurrentStep(s.steps, order, s.tasks[t].current)
    && c.pending == Take(Having(s.steps, order, Unsettled), MAX_PENDING)
    && c.lastSuccess == First(Picked(rows, newest, Delivered))
    && c.lastFailure == First(Picked(rows, newest, Failed))
    && c.uncertain == Take(Picked(rows, newest, Doubtful), MAX_UNCERTAIN)
    && c.doNotReplay == Take(Picked(rows, newest, Unrepeatable), MAX_DO_NOT_REPLAY)
    && c.latestCheckpoint == Checkpoints.Latest(s.checkpoints, t)
    && c.audit == LatestAudit(s.audits, t)
    && ArtifactsListed(s.artifacts, t, c.artifacts)
    && c.nextAction == NextAction(s, c.latestCheckpoint, c.current)
  }

  lemma QueriesAreInRange(steps: seq<Step>, rows: seq<Row>, t: nat)
    ensures var order := StepOrder(steps, t); forall i :: 0 <= i < |order| ==> order[i] < |steps|
    ensures var ids := Newest(rows, t); forall i :: 0 <= i < |ids| ==> ids[i] < |rows|
  {
    OrderBySelects(|steps|, Belongs(steps, t), ByPosition(steps));
    OrderBySelects(|rows|, OfTask(rows, t), Newer(rows));
    hide OrderBy;
    var order, all := StepOrder(steps, t), OrderBy(|rows|, OfTask(rows, t), Newer(rows));
    assert forall i :: 0 <= i < |order| ==> order[i] in order;
    assert forall i :: 0 <= i < |all| ==> all[i] in all;
  }

  lemma CurrentIsAStep(steps: seq<Step>, order: seq<nat>, named: Option<nat>)
    requires forall i :: 0 <= i < |order| ==> order[i] < |steps|
    ensures var current := CurrentStep(steps, order, named); current.Some? ==> current.value < |steps|
  {
    SelectSelects(order, OfKind(steps, Open));
    var open := Having(steps, order, Open);
    assert open != [] ==> open[0] in open;
    hide Having, Select;
  }

  method ChooseNextAction(s: State, latest: Option<nat>, current: Option<nat>) returns (next: Option<string>)
    requires (latest.Some? ==> latest.value < |s.checkpoints|) && (current.Some? ==> current.value < |s.steps|)
    ensures next == NextAction(s, latest, current)
  {
    next := None;
    if latest.Some? && s.checkpoints[latest.value].payload.next != "" {
      next := Some(s.checkpoints[latest.value].payload.next);
    }
    if next.None? && current.Some? {
      next := Some("Continue step: " + s.steps[current.value].title);
    }
  }

  method FreshArtifacts(rows: seq<Artifact>, t: nat) returns (ids: seq<nat>)
    ensures ArtifactsListed(rows, t, ids)
  {
    FreshestAreListed(rows, t);
    ids := Take(OrderBy(|rows|, OfOwner(rows, t), Fresher(rows)), MAX_ARTIFACTS);
  }

  method ResumeCapsule(s: State, rows: seq<Row>, t: nat) returns (c: Option<Capsule>)
    ensures c.Some? <==> t < |s.tasks|
    ensures c.Some? ==> Describes(c.value, s, rows, t)
  {
    if t >= |s.tasks| {
      return None;
    }
    QueriesAreInRange(s.steps, rows, t);
    var order := StepOrder(s.steps, t);
    var receipts := Newest(rows, t);
    hide OrderBy, Newest, StepOrder, Picked, Having, CurrentStep, CountOf, LatestAudit, Checkpoints.Latest,
         ArtifactsListed, NextAction, Take;
    var current, pending, byStatus := ScanSteps(s.steps, order, s.tasks[t].current);
    pending := Cut(pending, MAX_PENDING);
    var lastSuccess, lastFailure, uncertain, doNotReplay := ScanReceipts(rows, receipts);
    uncertain := Cut(uncertain, MAX_UNCERTAIN);
    doNotReplay := Cut(doNotReplay, MAX_DO_NOT_REPLAY);
    var latest := Checkpoints.Latest(s.checkpoints, t);
    CurrentIsAStep(s.steps, order, s.tasks[t].current);
    var nextAction := ChooseNextAction(s, latest, current);
    var artifacts := FreshArtifacts(s.artifacts, t);
    return Some(Capsule(|order|, byStatus, current, pending, lastSuccess, lastFailure, uncertain, doNotReplay,
                        latest, LatestAudit(s.audits, t), artifacts, nextAction));
  }

  /** Only the first n. */
  method Cut(ids: seq<nat>, n: nat) returns (kept: seq<nat>)
    ensures kept == Take(ids, n)
  {
    kept := ids;
    if |kept| > n {
      kept := kept[..n];
    }
  }

  // ---------- What the capsule's lists mean ----------

  predicate OwnStep(s: State, t: nat, k: nat) {
    k < |s.steps| && s.steps[k].task == t
  }

  /** What can still be worked on. */
  const OPEN: set<StepStatus> := {StepStatus.Todo, StepStatus.Doing, StepStatus.Blocked}

  lemma OpenMeansOpen(status: StepStatus)
    ensures Open(status) <==> status in OPEN
  {}

  /** The first open step of the task has the least position. */
  lemma FirstOpenStep(s: State, t: nat)
    requires DistinctPositions(s.steps)
    ensures var first := First(Having(s.steps, StepOrder(s.steps, t), Open));
            if first.None? then forall k: nat :: OwnStep(s, t, k) ==> s.steps[k].status !in OPEN
            else
              && OwnStep(s, t, first.value) && s.steps[first.value].status in OPEN
              && forall k: nat :: OwnStep(s, t, k) && s.steps[k].status in OPEN ==>
                   s.steps[first.value].position <= s.steps[k].position
  {
    StepsOfKind(s.steps, t, Open);
    forall status ensures Open(status) <==> status in OPEN {
      OpenMeansOpen(status);
    }
    var open := Having(s.steps, StepOrder(s.steps, t), Open);
    hide Having, StepOrder, DistinctPositions, Open;
    if open != [] {
      assert open[0] in open;
      forall k: nat | OwnStep(s, t, k) && s.steps[k].status in OPEN
        ensures s.steps[open[0]].position <= s.steps[k].position
      {
        assert k in open;
        var i :| 0 <= i < |open| && open[i] == k;
        assert i > 0 ==> ByPosition(s.steps)(open[0], open[i]);
      }
    }
  }

  /**
   In every reachable state: the step a task names, or else its first open one, or none if none is
   open. The step named may be finished; the one found is open.
   */
  lemma CapsuleShowsTheCurrentStep(ops: seq<Op>, n: nat, rows: seq<Row>, t: nat, c: Capsule)
    requires n <= |ops| && t < |At(ops, n).tasks| && Describes(c, At(ops, n), rows, t)
    ensures var s := At(ops, n);
            var named := s.tasks[t].current;
            if named.Some? then c.current == named && OwnStep(s, t, named.value)
            else if c.current.None? then forall k: nat :: OwnStep(s, t, k) ==> s.steps[k].status !in OPEN
            else
              && OwnStep(s, t, c.current.value) && s.steps[c.current.value].status in OPEN
              && forall k: nat :: OwnStep(s, t, k) && s.steps[k].status in OPEN ==>
                   s.steps[c.current.value].position <= s.steps[k].position
  {
    ReachableTablesAreOrderly(ops, n);
    var s := At(ops, n);
    hide At, Consistent, Having, StepOrder, Newest, Picked, CountOf, Take, LatestAudit, Checkpoints.Latest, Open,
         DistinctPositions, NamesOwnStep;
    FirstOpenStep(s, t);
    if s.tasks[t].current.Some? {
      NamedStepIsListed(s, t);
    }
    hide Orderly;
  }

  lemma NamedStepIsListed(s: State, t: nat)
    requires Orderly(s) && t < |s.tasks| && s.tasks[t].current.Some?
    ensures OwnStep(s, t, s.tasks[t].current.value) && s.tasks[t].current.value in StepOrder(s.steps, t)
  {
    assert NamesOwnStep(s, t);
    OrderBySelects(|s.steps|, Belongs(s.steps, t), ByPosition(s.steps));
  }

  lemma NewerOrders(rows: seq<Row>, t: nat)
    ensures Orders(|rows|, OfTask(rows, t), Newer(rows))
  {}

  /** Receipt i was started after receipt j, or at the same time and is further down the table. */
  predicate StartedLater(rows: seq<Row>, i: nat, j: nat) {
    && i < |rows| && j < |rows|
    && (rows[i].started > rows[j].started || (rows[i].started == rows[j].started && i > j))
  }

  /** A listed selection of receipts: newest first, nothing left out that is newer than what is listed. */
  ghost predicate Lists(rows: seq<Row>, ids: seq<nat>, max: nat, among: nat -> bool) {
    && |ids| <= max && (forall i, j :: 0 <= i < j < |ids| ==> StartedLater(rows, ids[i], ids[j]))
    && (forall k :: k in ids ==> k < |rows| && among(k))
    && forall k: nat :: k < |rows| && among(k) && k !in ids ==>
         |ids| == max && forall i :: 0 <= i < max ==> StartedLater(rows, ids[i], k)
  }

  lemma NewerMeansStartedLater(rows: seq<Row>)
    ensures forall i: nat, j: nat :: Newer(rows)(i, j) <==> StartedLater(rows, i, j)
  {}

  /** The receipts looked at are the task's newest: all of them, or twenty that are newer than all the rest. */
  lemma NewestAreTheNewest(rows: seq<Row>, t: nat)
    ensures Lists(rows, Newest(rows, t), 20, OfTask(rows, t)) && InOrder(Newest(rows, t), Newer(rows))
    ensures forall k: nat :: OfTask(rows, t)(k) <==> k < |rows| && rows[k].receipt.task == Some(t)
  {
    NewerOrders(rows, t);
    var all := OrderBy(|rows|, OfTask(rows, t), Newer(rows));
    OrderBySelects(|rows|, OfTask(rows, t), Newer(rows));
    OrderBySorts(|rows|, OfTask(rows, t), Newer(rows));
    assert forall k: nat :: OfTask(rows, t)(k) <==> k < |rows| && rows[k].receipt.task == Some(t);
    hide OrderBy, Orders, OfTask;
    ListsFrom(rows, all, Newest(rows, t), MAX_RECEIPTS, OfTask(rows, t));
    TakeKeepsTheFirst(all, MAX_RECEIPTS, Newer(rows));
    hide Take, InOrder, Newer, Lists;
  }

  function MutationAmong(rows: seq<Row>, ids: seq<nat>): nat -> bool {
    (k: nat) => k in ids && k < |rows| && rows[k].receipt.mutation
  }

  /** No mutation is ever reported as safe to repeat, so being a mutation is what counts. */
  lemma MutationsArePicked(rows: seq<Row>, ids: seq<nat>)
    ensures forall k: nat :: k in Picked(rows, ids, Unrepeatable) <==> MutationAmong(rows, ids)(k)
  {
    SelectSelects(ids, Such(rows, Unrepeatable));
    hide Select;
    forall k: nat ensures k in Picked(rows, ids, Unrepeatable) <==> MutationAmong(rows, ids)(k) {
      assert Such(rows, Unrepeatable)(k) == (k < |rows| && Unrepeatable(rows[k].receipt));
    }
  }

  /**
   do_not_replay is exactly the newest mutations among the task's newest receipts: newest first,
   nothing but mutations, and all of them unless twelve newer ones are listed.
   */
  lemma DoNotReplayListsTheNewestMutations(s: State, rows: seq<Row>, t: nat, c: Capsule)
    requires t < |s.tasks| && Describes(c, s, rows, t)
    ensures Lists(rows, c.doNotReplay, 12, MutationAmong(rows, Newest(rows, t)))
  {
    var newest := Newest(rows, t);
    var all := Picked(rows, newest, Unrepeatable);
    assert InOrder(newest, Newer(rows)) by { NewestAreTheNewest(rows, t); }
    assert InOrder(all, Newer(rows)) by { SelectKeepsOrder(newest, Such(rows, Unrepeatable), Newer(rows)); }
    MutationsArePicked(rows, newest);
    assert forall k: nat :: MutationAmong(rows, newest)(k) ==> k < |rows|;
    assert c.doNotReplay == Take(all, MAX_DO_NOT_REPLAY);
    hide *;
    ListsFrom(rows, all, c.doNotReplay, MAX_DO_NOT_REPLAY, MutationAmong(rows, newest));
  }

  lemma ListsFrom(rows: seq<Row>, all: seq<nat>, ids: seq<nat>, max: nat, among: nat -> bool)
    requires ids == Take(all, max) && InOrder(all, Newer(rows))
    requires forall k: nat :: k in all <==> among(k)
    requires forall k: nat :: among(k) ==> k < |rows|
    ensures Lists(rows, ids, max, among)
  {
    TakeKeepsTheFirst(all, max, Newer(rows));
    NewerMeansStartedLater(rows);
    assert forall i :: 0 <= i < |ids| ==> ids[i] in ids;
    hide Take, Newer, StartedLater;
  }

  // ---------- Uncertain receipts, last success and last failure ----------

  function UncertainAmong(rows: seq<Row>, ids: seq<nat>): nat -> bool {
    (k: nat) => k in ids && k < |rows|
                && (rows[k].receipt.outcome.delivery.Unknown? || rows[k].receipt.outcome.delivery.Prepared?)
  }

  function SuccessAmong(rows: seq<Row>, ids: seq<nat>): nat -> bool {
    (k: nat) => k in ids && k < |rows|
                && rows[k].receipt.outcome.delivery.Confirmed? && rows[k].receipt.outcome.progress.Returned?
  }

  function FailureAmong(rows: seq<Row>, ids: seq<nat>): nat -> bool {
    (k: nat) => k in ids && k < |rows| && rows[k].receipt.outcome.progress.Failed?
  }

  /** The newest of these receipts, or none when there are none. */
  ghost predicate IsNewest(rows: seq<Row>, id: Option<nat>, among: nat -> bool) {
    if id.None? then forall k: nat :: !among(k)
    else among(id.value) && forall k: nat :: among(k) && k != id.value ==> StartedLater(rows, id.value, k)
  }

  lemma PickedAre(rows: seq<Row>, ids: seq<nat>, kind: R.Receipt -> bool)
    requires InOrder(ids, Newer(rows))
    ensures forall k: nat :: k in Picked(rows, ids, kind) <==> k in ids && k < |rows| && kind(rows[k].receipt)
    ensures InOrder(Picked(rows, ids, kind), Newer(rows))
  {
    SelectSelects(ids, Such(rows, kind));
    SelectKeepsOrder(ids, Such(rows, kind), Newer(rows));
    hide Select, Newer;
  }

  lemma FirstIsNewest(rows: seq<Row>, ids: seq<nat>, among: nat -> bool)
    requires InOrder(ids, Newer(rows)) && forall k: nat :: k in ids <==> among(k)
    ensures IsNewest(rows, First(ids), among)
  {
    NewerMeansStartedLater(rows);
    hide Newer, StartedLater;
    if ids != [] {
      assert ids[0] in ids;
      forall k: nat | among(k) && k != ids[0] ensures StartedLater(rows, ids[0], k) {
        assert k in ids;
        var i :| 0 <= i < |ids| && ids[i] == k;
        assert Newer(rows)(ids[0], ids[i]);
      }
    }
  }

  /** Among the task's newest receipts: the uncertain ones, newest first, and the newest success and failure. */
  lemma CapsuleShowsTheNewestOutcomes(s: State, rows: seq<Row>, t: nat, c: Capsule)
    requires t < |s.tasks| && Describes(c, s, rows, t)
    ensures Lists(rows, c.uncertain, 8, UncertainAmong(rows, Newest(rows, t)))
    ensures IsNewest(rows, c.lastSuccess, SuccessAmong(rows, Newest(rows, t)))
    ensures IsNewest(rows, c.lastFailure, FailureAmong(rows, Newest(rows, t)))
  {
    var newest := Newest(rows, t);
    assert InOrder(newest, Newer(rows)) by { NewestAreTheNewest(rows, t); }
    PickedAre(rows, newest, Doubtful);
    PickedAre(rows, newest, Delivered);
    PickedAre(rows, newest, Failed);
    var doubtful, delivered, failed :=
      Picked(rows, newest, Doubtful), Picked(rows, newest, Delivered), Picked(rows, newest, Failed);
    assert c.uncertain == Take(doubtful, MAX_UNCERTAIN) && c.lastSuccess == First(delivered)
           && c.lastFailure == First(failed);
    hide Describes, Newest, Picked, First, Take, InOrder, Lists, IsNewest;
    ListsFrom(rows, doubtful, c.uncertain, MAX_UNCERTAIN, UncertainAmong(rows, newest));
    FirstIsNewest(rows, delivered, SuccessAmong(rows, newest));
    FirstIsNewest(rows, failed, FailureAmong(rows, newest));
  }

  // ---------- Steps, counts, audit, checkpoint ----------

  /** A step of the task that is neither done nor skipped. */
  predicate Left(s: State, t: nat, k: nat) {
    OwnStep(s, t, k) && s.steps[k].status !in {StepStatus.Done, StepStatus.Skipped}
  }

  predicate Precedes(steps: seq<Step>, i: nat, j: nat) {
    i < |steps| && j < |steps| && steps[i].position < steps[j].position
  }

  /** The first of the task's steps that are left, in order of position. */
  ghost predicate FirstLeft(s: State, t: nat, ids: seq<nat>, max: nat) {
    && |ids| <= max && (forall k :: k in ids ==> Left(s, t, k))
    && (forall i, j :: 0 <= i < j < |ids| ==> Precedes(s.steps, ids[i], ids[j]))
    && forall k: nat :: Left(s, t, k) && k !in ids ==>
         |ids| == max && forall i :: 0 <= i < |ids| ==> Precedes(s.steps, ids[i], k)
  }

  lemma FirstLeftFrom(s: State, t: nat, all: seq<nat>, max: nat)
    requires InOrder(all, ByPosition(s.steps)) && forall k: nat :: k in all <==> Left(s, t, k)
    ensures FirstLeft(s, t, Take(all, max), max)
  {
    TakeKeepsTheFirst(all, max, ByPosition(s.steps));
    assert forall i: nat, j: nat :: ByPosition(s.steps)(i, j) <==> Precedes(s.steps, i, j);
    hide Take, Left, Precedes, ByPosition;
  }

  lemma PendingIsFirstLeft(s: State, t: nat)
    requires DistinctPositions(s.steps)
    ensures FirstLeft(s, t, Take(Having(s.steps, StepOrder(s.steps, t), Unsettled), MAX_PENDING), 12)
  {
    StepsOfKind(s.steps, t, Unsettled);
    var all := Having(s.steps, StepOrder(s.steps, t), Unsettled);
    assert forall k: nat :: k in all <==> Left(s, t, k);
    hide Take, Having, StepOrder, DistinctPositions, InOrder, FirstLeft, ByPosition;
    FirstLeftFrom(s, t, all, MAX_PENDING);
  }

  ghost function OwnSteps(s: State, t: nat): set<nat> {
    set k: nat | 0 <= k < |s.steps| && s.steps[k].task == t
  }

  ghost function OwnStepsAt(s: State, t: nat, status: StepStatus): set<nat> {
    set k: nat | 0 <= k < |s.steps| && s.steps[k].task == t && s.steps[k].status == status
  }

  ghost predicate NoRepetition(ids: seq<nat>) {
    forall i, j :: 0 <= i < j < |ids| ==> ids[i] != ids[j]
  }

  ghost function AmongAt(steps: seq<Step>, ids: seq<nat>, status: StepStatus): set<nat> {
    set k | k in ids && k < |steps| && steps[k].status == status
  }

  lemma AmongOneMore(steps: seq<Step>, ids: seq<nat>, id: nat, status: StepStatus)
    requires id !in ids
    ensures |AmongAt(steps, ids + [id], status)| ==
            |AmongAt(steps, ids, status)| + if id < |steps| && steps[id].status == status then 1 else 0
  {
    var before, after := AmongAt(steps, ids, status), AmongAt(steps, ids + [id], status);
    assert after == if id < |steps| && steps[id].status == status then before + {id} else before;
  }

  lemma {:induction false} CountIsCardinality(steps: seq<Step>, ids: seq<nat>, status: StepStatus)
    requires NoRepetition(ids)
    ensures CountOf(steps, ids, status) == |AmongAt(steps, ids, status)|
  {
    if ids == [] {
      assert AmongAt(steps, ids, status) == {};
    } else {
      var n := |ids| - 1;
      CountIsCardinality(steps, ids[..n], status);
      assert ids[n] !in ids[..n] && ids == ids[..n] + [ids[n]];
      hide AmongAt;
      AmongOneMore(steps, ids[..n], ids[n], status);
    }
  }

  ghost function Members(ids: seq<nat>): set<nat> {
    set k | k in ids
  }

  lemma {:induction false} LengthIsCardinality(ids: seq<nat>)
    requires NoRepetition(ids)
    ensures |ids| == |Members(ids)|
  {
    if ids != [] {
      var n := |ids| - 1;
      LengthIsCardinality(ids[..n]);
      assert ids[n] !in ids[..n] && ids == ids[..n] + [ids[n]];
      assert Members(ids) == Members(ids[..n]) + {ids[n]};
    }
  }

  lemma OrderHoldsOwnSteps(s: State, t: nat)
    requires DistinctPositions(s.steps)
    ensures var order := StepOrder(s.steps, t);
            && NoRepetition(order) && |order| == |OwnSteps(s, t)|
            && forall status :: CountOf(s.steps, order, status) == |OwnStepsAt(s, t, status)|
  {
    var order := StepOrder(s.steps, t);
    PositionsOrder(s.steps, t);
    OrderBySelects(|s.steps|, Belongs(s.steps, t), ByPosition(s.steps));
    OrderBySorts(|s.steps|, Belongs(s.steps, t), ByPosition(s.steps));
    assert forall k: nat :: k in order <==> OwnStep(s, t, k);
    assert forall i, j :: 0 <= i < j < |order| ==> ByPosition(s.steps)(order[i], order[j]);
    hide StepOrder, DistinctPositions, Orders, CountOf;
    assert NoRepetition(order);
    LengthIsCardinality(order);
    assert Members(order) == OwnSteps(s, t);
    forall status ensures CountOf(s.steps, order, status) == |OwnStepsAt(s, t, status)| {
      CountIsCardinality(s.steps, order, status);
      assert AmongAt(s.steps, order, status) == OwnStepsAt(s, t, status);
    }
  }

  /** The task's checkpoint with the highest number. */
  ghost predicate IsLastCheckpoint(s: State, t: nat, k: nat) {
    && k < |s.checkpoints| && s.checkpoints[k].task == t
    && forall j :: 0 <= j < |s.checkpoints| && s.checkpoints[j].task == t ==>
         s.checkpoints[j].sequence <= s.checkpoints[k].sequence
  }

  lemma {:induction false} LatestIsLast(table: seq<Checkpoints.Checkpoint<Snapshot>>, t: nat)
    ensures var latest := Checkpoints.Latest(table, t);
            latest.Some? ==> forall j :: 0 <= j < |table| && table[j].task == t ==>
              table[j].sequence <= table[latest.value].sequence
  {
    if table != [] {
      var n := |table| - 1;
      LatestIsLast(table[..n], t);
      assert forall j :: 0 <= j < n ==> table[..n][j] == table[j];
    }
  }

  /**
   In every reachable state the capsule of a task counts its steps, all and by status, shows the first
   ones left, its latest audit, its last checkpoint and, as what to do next, what that checkpoint says or
   else to continue with the step shown as current.
   */
  lemma CapsuleTellsTheState(ops: seq<Op>, n: nat, rows: seq<Row>, t: nat, c: Capsule)
    requires n <= |ops| && t < |At(ops, n).tasks| && Describes(c, At(ops, n), rows, t)
    ensures var s := At(ops, n);
            && c.totalSteps == |OwnSteps(s, t)|
            && (forall st :: (if st in c.byStatus then c.byStatus[st] else 0) == |OwnStepsAt(s, t, st)|)
            && FirstLeft(s, t, c.pending, 12)
            && (forall a: nat :: c.audit == Some(a) <==> IsLatestAudit(s.audits, t, a))
            && (if c.latestCheckpoint.Some? then IsLastCheckpoint(s, t, c.latestCheckpoint.value)
                else forall j :: 0 <= j < |s.checkpoints| ==> s.checkpoints[j].task != t)
            && var said := if c.latestCheckpoint.Some? then s.checkpoints[c.latestCheckpoint.value].payload.next
            else "";
               if said != "" then c.nextAction == Some(said)
               else if c.current.Some? then
                 c.current.value < |s.steps|
                 && c.nextAction == Some("Continue step: " + s.steps[c.current.value].title)
               else c.nextAction.None?
  {
    ReachableTablesAreOrderly(ops, n);
    var s := At(ops, n);
    assert DistinctPositions(s.steps) by { hide At; }
    hide At, Orderly, Consistent, DistinctPositions, Having, StepOrder, Take, Newest, Picked, CountOf, First,
         CurrentStep;
    OrderHoldsOwnSteps(s, t);
    PendingIsFirstLeft(s, t);
    LatestAuditIsTheLatest(s.audits, t);
    LatestIsLast(s.checkpoints, t);
    QueriesAreInRange(s.steps, rows, t);
    CurrentIsAStep(s.steps, StepOrder(s.steps, t), s.tasks[t].current);
    hide FirstLeft, OwnSteps, OwnStepsAt, IsLatestAudit, LatestAudit, ArtifactsListed, Checkpoints.Latest;
  }

  // ---------- A finished step in the capsule ----------

  const START_CHANGE := StepChanges(None, None, Some(Some(StepStatus.Doing)), None, None, false)

  lemma StepIsStarted(n: nat)
    requires n >= 2
    ensures Consistent(WorkLimits.WithSteps(n))
    ensures var s, s' := WorkLimits.WithSteps(n), UpdateStep(WorkLimits.WithSteps(n), 0, START_CHANGE).0;
            && |s'.tasks| == 1 && s'.tasks[0].current == Some(0)
            && s'.steps == s.steps[0 := s.steps[0].(status := StepStatus.Doing)]
  {
    var s := WorkLimits.WithSteps(n);
    assert PositionFree(s.steps, 0, 1, 0);
    hide PositionFree;
  }

  lemma StepIsFinished(s: State)
    requires Consistent(s) && |s.steps| >= 2 && |s.tasks| == 1 && s.tasks[0].current == Some(0)
    requires s.steps[0].status.Doing? && s.steps[0].task == 0 && PositionFree(s.steps, 0, s.steps[0].position, 0)
    ensures var s' := UpdateStep(s, 0, WorkLimits.DONE_CHANGE).0;
            && |s'.tasks| == 1 && s'.tasks[0].current == Some(0)
            && s'.steps == s.steps[0 := s'.steps[0]] && s'.steps[0].status.Done?
  {
    hide Checkpoints.Chained, PositionFree, NoteCheckpoint;
    NoteCheckpointAppends(Touched(s.(steps := s.steps[0 := ChangedStep(s.steps[0], WorkLimits.DONE_CHANGE)]), 0), 0, [],
                          "",
                          None, "step.complete");
  }

  /** After starting and finishing the first of several steps the capsule still shows it, though others are open. */
  lemma FinishedStepIsShown(ops: seq<Op>, n: nat, rows: seq<Row>, c: Capsule)
    requires n >= 2 && WorkLimits.AddsSteps(ops, n) && |ops| == n + 3
    requires ops[n + 1] == StepUpdate(0, START_CHANGE) && ops[n + 2] == StepUpdate(0, WorkLimits.DONE_CHANGE)
    requires |At(ops, n + 3).tasks| > 0 ==> Describes(c, At(ops, n + 3), rows, 0)
    ensures var s := At(ops, n + 3);
            && |s.steps| == n && s.steps[0].status.Done? && s.steps[1].status.Todo?
            && c.current == Some(0)
  {
    hide At, Consistent, Describes, UpdateStep, CurrentStep;
    WorkLimits.AfterAddingSteps(ops, n);
    WorkLimits.AtOneMore(ops, n + 1);
    WorkLimits.AtOneMore(ops, n + 2);
    StepIsStarted(n);
    var s := At(ops, n + 2);
    assert PositionFree(s.steps, 0, s.steps[0].position, 0);
    StepIsFinished(s);
    CapsuleShowsTheCurrentStep(ops, n + 3, rows, 0, c);
  }
}
