/**
 Operations of the Work Runtime that are refused and yet change the tables: exactly when that
 happens, and histories in which it does.
 */
module WorkLimits {
  import opened Text
  import opened Json
  import opened Checkpoints
  import opened Query
  import opened Work
  import opened WorkRuns

  // ---------- When a checkpoint fits ----------

  function TasksOf(steps: seq<Step>): (tasks: seq<nat>)
    ensures |tasks| == |steps| && forall i :: 0 <= i < |steps| ==> tasks[i] == steps[i].task
  {
    seq(|steps|, i requires 0 <= i < |steps| => steps[i].task)
  }

  function StatusesOf(steps: seq<Step>): (statuses: seq<StepStatus>)
    ensures |statuses| == |steps| && forall i :: 0 <= i < |steps| ==> statuses[i] == steps[i].status
  {
    seq(|steps|, i requires 0 <= i < |steps| => steps[i].status)
  }

  /** The lists of a checkpoint of the task are within their bound. */
  predicate StepsFit(steps: seq<Step>, t: nat) {
    Fits(TasksOf(steps), StatusesOf(steps), t)
  }

  lemma {:induction false} PlaceCounts(ids: seq<nat>, id: nat, before: (nat, nat) -> bool, keep: nat -> bool)
    ensures |Select(Place(ids, id, before), keep)| == |Select(ids, keep)| + if keep(id) then 1 else 0
  {
    if ids == [] {
      assert [id][..0] == [];
    } else {
      var n := |ids| - 1;
      if before(id, ids[n]) {
        PlaceCounts(ids[..n], id, before, keep);
        var placed := Place(ids[..n], id, before);
        assert (placed + [ids[n]])[..|placed|] == placed;
      } else {
        assert (ids + [id])[..|ids|] == ids;
      }
    }
  }

  lemma {:induction false} OrderedCounts(steps: seq<Step>, t: nat, kind: StepStatus -> bool, n: nat)
    requires n <= |steps|
    ensures |Select(OrderBy(n, Belongs(steps, t), ByPosition(steps)), OfKind(steps, kind))| ==
            Tally(TasksOf(steps), StatusesOf(steps)[..n], t, kind)
  {
    if n > 0 {
      OrderedCounts(steps, t, kind, n - 1);
      PlaceCounts(OrderBy(n - 1, Belongs(steps, t), ByPosition(steps)), n - 1, ByPosition(steps), OfKind(steps, kind));
      assert StatusesOf(steps)[..n][..n - 1] == StatusesOf(steps)[..n - 1];
      assert Belongs(steps, t)(n - 1) == (steps[n - 1].task == t);
      assert OfKind(steps, kind)(n - 1) == kind(steps[n - 1].status);
      hide Select, Place, ByPosition, OfKind, Belongs;
    }
  }

  lemma HavingIsTallied(steps: seq<Step>, t: nat, kind: StepStatus -> bool)
    ensures |Having(steps, StepOrder(steps, t), kind)| == Tally(TasksOf(steps), StatusesOf(steps), t, kind)
  {
    OrderedCounts(steps, t, kind, |steps|);
    hide Tally, OrderBy, Select;
    assert StatusesOf(steps)[..|steps|] == StatusesOf(steps);
  }

  /** A checkpoint is stored exactly when its remarks are within the bound and its task's steps fit. */
  lemma StorableMeansFits(s: State, t: nat, remarks: seq<string>, next: string, audit: Option<nat>, event: string)
    requires t < |s.tasks|
    ensures Storable(SnapshotOf(s, t, remarks, next, audit, event)) <==>
            StepsFit(s.steps, t) && forall i :: 0 <= i < |remarks| ==> |remarks[i]| <= MAX_FIELD
  {
    HavingIsTallied(s.steps, t, Settled);
    HavingIsTallied(s.steps, t, Work.Ahead);
    HavingIsTallied(s.steps, t, Stopped);
    hide Tally, Having, StepOrder;
  }

  // ---------- Refused and yet changed ----------

  /** The audit is given a verdict, and this is news. */
  ghost predicate EvaluationTells(s: State, a: nat)
    requires Consistent(s) && a < |s.audits|
  {
    var audit := s.audits[a];
    var checks := JudgedChecks(s.checks, a);
    var mark := Verdict(checks, a, audit.revision != s.tasks[audit.task].revision);
    mark != Uncertain && !(checks == s.checks && audit.mark == mark && audit.completed)
  }

  /** The step is completed, legally. */
  ghost predicate Completes(s: State, k: nat, c: StepChanges) {
    && k < |s.steps| && c != NO_STEP_CHANGES && !c.other && c.status != Some(None)
    && var step := ChangedStep(s.steps[k], c);
       PositionFree(s.steps, step.task, step.position, k) && step.status.Done?
  }

  /** The refused operations that leave something behind. */
  ghost predicate LeavesTraces(s: State, op: Op)
    requires Consistent(s)
  {
    match op
    case AuditCreate(t, checks, _) => t < |s.tasks| && exists i :: 0 <= i < |checks| && !Acceptable(checks[i])
    case StepUpdate(k, c) =>
      Completes(s, k, c) && !StepsFit(s.steps[k := ChangedStep(s.steps[k], c)], s.steps[k].task)
    case ArtifactMove(k, archive, _) =>
      && k < |s.artifacts| && s.artifacts[k].status.Draft? && !archive
      && s.artifacts[k].task.Some? && !StepsFit(s.steps, s.artifacts[k].task.value)
    case AuditEvaluate(a) => a < |s.audits| && EvaluationTells(s, a) && !StepsFit(s.steps, s.audits[a].task)
    case _ => false
  }

  lemma StepUpdateLeaves(s: State, k: nat, c: StepChanges)
    requires Consistent(s)
    ensures var (s', r) := UpdateStep(s, k, c); r.Refused? && s' != s <==> LeavesTraces(s, StepUpdate(k, c))
  {
    hide Chained, PositionFree, ChangedStep, Storable, SnapshotOf, StepsFit, Latest;
    if k < |s.steps| && c != NO_STEP_CHANGES && !c.other && c.status != Some(None) {
      var step := ChangedStep(s.steps[k], c);
      StepKeepsTask(s.steps[k], c);
      var touched := Touched(s.(steps := s.steps[k := step]), step.task);
      StorableMeansFits(touched, step.task, [], "", None, "step.complete");
      assert touched.tasks[step.task].revision != s.tasks[step.task].revision;
    }
  }

  lemma ArtifactMoveLeaves(s: State, k: nat, archive: bool, now: nat)
    requires Consistent(s)
    ensures var (s', r) := MoveArtifact(s, k, archive, now); r.Refused? && s' != s <==>
            LeavesTraces(s, ArtifactMove(k, archive, now))
  {
    hide Chained, Storable, SnapshotOf, StepsFit, Latest;
    if k < |s.artifacts| && s.artifacts[k].task.Some? {
      var row := s.artifacts[k];
      var moved := s.(artifacts := s.artifacts[k := row.(status := if archive then Archived
                                                         else Final, updated := now)]);
      var t := row.task.value;
      StorableMeansFits(Touched(moved, t), t, [], "", None, "artifact.finalized");
      assert Touched(moved, t).tasks[t].revision != s.tasks[t].revision;
    }
  }

  lemma EvaluationLeaves(s: State, a: nat)
    requires Consistent(s)
    ensures var (s', r) := EvaluateAudit(s, a); r.Refused? && s' != s <==> LeavesTraces(s, AuditEvaluate(a))
  {
    hide Chained, Storable, SnapshotOf, StepsFit, Latest, Verdict, JudgedChecks;
    if a < |s.audits| {
      var audit := s.audits[a];
      var checks := JudgedChecks(s.checks, a);
      var mark := Verdict(checks, a, audit.revision != s.tasks[audit.task].revision);
      var after := s.(checks := checks, audits := s.audits[a := audit.(mark := mark, completed := mark != Uncertain)]);
      StorableMeansFits(after, audit.task, [], "", Some(a), "audit.complete");
      assert after == s <==> checks == s.checks && after.audits == s.audits;
      assert after.audits == s.audits <==> after.audits[a] == audit;
    }
  }

  lemma AuditCreateLeaves(s: State, t: nat, checks: seq<NewCheck>, now: nat)
    requires Consistent(s)
    ensures var (s', r) := CreateAudit(s, t, checks, now); r.Refused? && s' != s <==>
            LeavesTraces(s, AuditCreate(t, checks, now))
  {
    hide Chained, Acceptable, AcceptedChecks;
    if t < |s.tasks| {
      RefusedAuditsStay(s, t, checks, now);
    }
  }

  /**
   A refused operation changes nothing, except exactly these: an audit with an unacceptable check,
   and a completed step, a finalized artifact or a new verdict whose checkpoint does not fit.
   */
  lemma RefusalsThatStay(s: State, op: Op)
    requires Consistent(s)
    ensures var (s', r) := Apply(s, op); r.Refused? && s' != s <==> LeavesTraces(s, op)
  {
    match op
    case StepUpdate(k, c) => StepUpdateLeaves(s, k, c);
    case ArtifactMove(k, archive, now) => ArtifactMoveLeaves(s, k, archive, now);
    case AuditEvaluate(a) => EvaluationLeaves(s, a);
    case AuditCreate(t, checks, now) => AuditCreateLeaves(s, t, checks, now);
    case _ =>
      hide Chained, TrimSpace, PositionFree, LastPosition, Storable, SnapshotOf, GateOpen, Known, ChangedFields,
           MayMove, UpdateStep, EvaluateAudit, MoveArtifact, CreateAudit;
  }

  // ---------- A history in which it happens ----------

  const PLAIN := Fields(None, "t", "", "normal", false, "{}")

  const DONE_CHANGE := StepChanges(None, None, Some(Some(StepStatus.Done)), None, None, false)

  function TodoSteps(n: nat): (steps: seq<Step>)
    ensures |steps| == n
  {
    seq(n, i requires 0 <= i < n => Step(0, i + 1, "s", "", StepStatus.Todo, None, false))
  }

  /** A task with n steps. */
  ghost predicate AddsSteps(ops: seq<Op>, n: nat) {
    && n < |ops| && ops[0] == TaskCreate(PLAIN)
    && forall i :: 1 <= i <= n ==> ops[i] == StepAdd(0, "s", "", None)
  }

  lemma {:induction false} LastTodoPosition(n: nat)
    ensures LastPosition(TodoSteps(n), 0) == n
  {
    if n > 0 {
      LastTodoPosition(n - 1);
      assert TodoSteps(n)[..n - 1] == TodoSteps(n - 1);
    }
  }

  function WithSteps(n: nat): State {
    State(0, [Task(PLAIN, TaskStatus.Pending, None, n + 1, false)], TodoSteps(n), [], [], [], [])
  }

  lemma TaskIsCreated()
    ensures CreateTask(NOTHING, PLAIN).0 == WithSteps(0)
  {
    TrimSpaceKeepsTrimmed("t");
    hide TrimSpace;
  }

  lemma StepIsAdded(n: nat)
    ensures AddStep(WithSteps(n), 0, "s", "", None).0 == WithSteps(n + 1)
  {
    TrimSpaceKeepsTrimmed("s");
    LastTodoPosition(n);
    hide TrimSpace, LastPosition;
    assert PositionFree(TodoSteps(n), 0, n + 1, n);
    assert TodoSteps(n + 1) == TodoSteps(n) + [Step(0, n + 1, "s", "", StepStatus.Todo, None, false)];
  }

  lemma {:induction false} AfterAddingSteps(ops: seq<Op>, n: nat)
    requires AddsSteps(ops, n)
    ensures At(ops, n + 1) == WithSteps(n)
  {
    hide At, CreateTask, AddStep, Consistent;
    AtOneMore(ops, n);
    if n == 0 {
      AtStart(ops);
      TaskIsCreated();
    } else {
      AfterAddingSteps(ops, n - 1);
      StepIsAdded(n - 1);
    }
    hide WithSteps;
  }

  lemma AtStart(ops: seq<Op>)
    ensures At(ops, 0) == NOTHING
  {}

  lemma {:induction false} TallyOfTodo(tasks: seq<nat>, statuses: seq<StepStatus>)
    requires |tasks| >= |statuses|
    requires forall i :: 0 <= i < |statuses| ==> tasks[i] == 0 && statuses[i].Todo?
    ensures Tally(tasks, statuses, 0, Work.Ahead) == |statuses|
  {
    if statuses != [] {
      TallyOfTodo(tasks, statuses[..|statuses| - 1]);
    }
  }

  lemma LastStepCompleted(n: nat)
    requires n >= 742
    ensures Consistent(WithSteps(n))
    ensures var (s, reply) := UpdateStep(WithSteps(n), n - 1, DONE_CHANGE);
            reply == Refused(InvalidWorkInput) && |s.steps| == n && s.steps[n - 1].status.Done? && s.checkpoints == []
  {
    var s := WithSteps(n);
    var step := ChangedStep(s.steps[n - 1], DONE_CHANGE);
    var after := s.steps[n - 1 := step];
    var statuses := StatusesOf(after);
    TallyOfTodo(TasksOf(after), statuses[..n - 1]);
    assert Tally(TasksOf(after), statuses, 0, Work.Ahead) == n - 1;
    assert !StepsFit(after, 0);
    assert PositionFree(s.steps, 0, step.position, n - 1);
    var touched := Touched(s.(steps := after), 0);
    StorableMeansFits(touched, 0, [], "", None, "step.complete");
    hide StepsFit, Storable, SnapshotOf, Tally, PositionFree;
  }

  /** Completing the last of 742 steps or more is refused, for too many others wait; the step is done all the same. */
  lemma CompletedStepStaysWithoutItsCheckpoint(ops: seq<Op>, n: nat)
    requires n >= 742 && AddsSteps(ops, n) && |ops| == n + 2 && ops[n + 1] == StepUpdate(n - 1, DONE_CHANGE)
    ensures Apply(At(ops, n + 1), ops[n + 1]).1 == Refused(InvalidWorkInput)
    ensures var s := At(ops, n + 2); |s.steps| == n && s.steps[n - 1].status.Done? && s.checkpoints == []
  {
    hide At, UpdateStep, WithSteps;
    AfterAddingSteps(ops, n);
    AtOneMore(ops, n + 1);
    LastStepCompleted(n);
  }

  // ---------- A passing audit with a failing check ----------

  const TRUE_VALUE := Encoded(Bool(true), 4)

  const FALSE_VALUE := Encoded(Bool(false), 5)

  /** Create a task and an audit with one check, record what is expected, evaluate, record something else. */
  function RecordingAfterPass(): seq<Op> {
    [TaskCreate(PLAIN), AuditCreate(0, [NewCheck("c", TRUE_VALUE, false)], 0),
     AuditRecord(0, 0, TRUE_VALUE, Some(VerifiedStructured)), AuditEvaluate(0),
     AuditRecord(0, 0, FALSE_VALUE, Some(VerifiedStructured))]
  }

  function OneAudit(c: Check): State {
    WithSteps(0).(audits := [Audit(0, Uncertain, 1, 0, false)], checks := [c])
  }

  const ASKED := Check(0, "c", Bool(true), Null, None, false, Uncertain)

  lemma AuditIsCreated()
    ensures CreateAudit(WithSteps(0), 0, [NewCheck("c", TRUE_VALUE, false)], 0).0 == OneAudit(ASKED)
  {
    TrimSpaceKeepsTrimmed("c");
    hide TrimSpace;
    var checks := [NewCheck("c", TRUE_VALUE, false)];
    assert checks[..0] == [] && checks[..1] == checks;
    assert AcceptedChecks(checks) == 1 && CheckRows(0, checks) == [ASKED];
  }

  /** Its audit reads PASS and its only check is UNCERTAIN. */
  lemma PassWithUncertainCheck(n: nat)
    requires n == |RecordingAfterPass()|
    ensures var s := At(RecordingAfterPass(), n);
            |s.audits| == 1 && s.audits[0].mark == Pass && |s.checks| == 1 && s.checks[0].mark == Uncertain
  {
    var ops := RecordingAfterPass();
    hide At, CreateTask, CreateAudit, EvaluateAudit, WithSteps, Consistent;
    AtStart(ops);
    AtOneMore(ops, n - 5);
    TaskIsCreated();
    AtOneMore(ops, n - 4);
    AuditIsCreated();
    AtOneMore(ops, n - 3);
    var shown := ASKED.(actual := Bool(true), evidence := Some(VerifiedStructured));
    assert At(ops, n - 2).checks == [shown];
    AtOneMore(ops, n - 2);
    assert At(ops, n - 2) == OneAudit(shown);
    FirstRevision();
    EvaluationOfOneCheck(At(ops, n - 2));
    AtOneMore(ops, n - 1);
  }

  lemma FirstRevision()
    ensures |WithSteps(0).tasks| == 1 && WithSteps(0).tasks[0].revision == 1
  {}

  lemma AtOneMore(ops: seq<Op>, n: nat)
    requires n < |ops|
    ensures At(ops, n + 1) == Apply(At(ops, n), ops[n]).0
  {
    hide Apply;
  }

  lemma EvaluationOfOneCheck(s: State)
    requires Consistent(s) && |s.checks| == 1 && |s.audits| == 1 && s.checks[0].audit == 0
    requires s.audits[0].revision == s.tasks[s.audits[0].task].revision
    requires Judged(s.checks[0]) == Pass
    ensures var s' := Apply(s, AuditEvaluate(0)).0;
            |s'.audits| == 1 && s'.audits[0].mark == Pass && s'.checks == [s.checks[0].(mark := Pass)]
  {
    EvaluationGivesVerdict(s, 0, 0);
    EvaluateAuditAdvances(s, 0);
    EvaluationLeavesRest(s, 0);
    var judged := JudgedChecks(s.checks, 0);
    assert judged == [s.checks[0].(mark := Pass)];
    assert judged[0].audit == 0 && judged[0].mark == Pass;
    assert AnyMarked(judged, 0, Pass) && !AnyMarked(judged, 0, Fail) && !AnyMarked(judged, 0, Uncertain);
    hide EvaluateAudit, Judged;
  }
}
