/** What every Work operation keeps, and so every run of them. */
module WorkRuns {
  import opened Text
  import opened Json
  import opened Checkpoints
  import opened Query
  import opened Work

  // ---------- The work an audit is about ----------

  /** The task's editable fields, its steps and its artifacts are the same. */
  ghost predicate SameWork(s: State, s': State, t: nat)
    requires t < |s.tasks| && t < |s'.tasks|
  {
    && s'.tasks[t].fields == s.tasks[t].fields && s'.tasks[t].current == s.tasks[t].current
    && SameSteps(s.steps, s'.steps, t) && SameArtifacts(s.artifacts, s'.artifacts, t)
  }

  ghost predicate SameSteps(before: seq<Step>, after: seq<Step>, t: nat) {
    && (forall k :: 0 <= k < |before| && before[k].task == t ==> k < |after| && after[k] == before[k])
    && (forall k :: 0 <= k < |after| && after[k].task == t ==> k < |before| && after[k] == before[k])
  }

  ghost predicate SameArtifacts(before: seq<Artifact>, after: seq<Artifact>, t: nat) {
    && (forall k :: 0 <= k < |before| && before[k].task == Some(t) ==> k < |after| && after[k] == before[k])
    && (forall k :: 0 <= k < |after| && after[k].task == Some(t) ==> k < |before| && after[k] == before[k])
  }

  predicate Terminal(status: TaskStatus) {
    status.Done? || status.Failed? || status.Cancelled?
  }

  /** A later form of a task: never an older revision, and at the same revision the same work. */
  ghost predicate Later(s: State, s': State, t: nat)
    requires t < |s.tasks|
  {
    && t < |s'.tasks|
    && s.tasks[t].revision <= s'.tasks[t].revision
    && (s.tasks[t].revision == s'.tasks[t].revision ==> SameWork(s, s', t))
    && (Terminal(s.tasks[t].status) ==> s'.tasks[t].status == s.tasks[t].status)
  }

  predicate SameAudit(a: Audit, b: Audit) {
    a.task == b.task && a.revision == b.revision && a.created == b.created
  }

  /** What one operation, and so any run, leaves behind it. */
  ghost predicate Advances(s: State, s': State) {
    && |s.tasks| <= |s'.tasks| && |s.audits| <= |s'.audits|
    && (forall t :: 0 <= t < |s.tasks| ==> Later(s, s', t))
    && (forall a :: 0 <= a < |s.audits| ==> SameAudit(s.audits[a], s'.audits[a]))
    && s.checkpoints <= s'.checkpoints
  }

  lemma AdvancesIsReflexive(s: State)
    ensures Advances(s, s)
  {
    forall t | 0 <= t < |s.tasks| ensures Later(s, s, t) {}
  }

  lemma AdvancesIsTransitive(a: State, b: State, c: State)
    requires Advances(a, b) && Advances(b, c)
    ensures Advances(a, c)
  {
    forall t | 0 <= t < |a.tasks| ensures Later(a, c, t) {
      assert Later(a, b, t) && Later(b, c, t);
    }
    forall i | 0 <= i < |a.audits| ensures SameAudit(a.audits[i], c.audits[i]) {
      assert SameAudit(a.audits[i], b.audits[i]) && SameAudit(b.audits[i], c.audits[i]);
    }
  }

  // ---------- Each operation ----------

  /** A checkpoint that is written is the next of its chain; nothing else changes. */
  lemma NoteCheckpointAppends(s: State, t: nat, remarks: seq<string>, next: string, audit: Option<nat>, event: string)
    requires Chained(s.checkpoints)
    ensures var s' := NoteCheckpoint(s, t, remarks, next, audit, event).0;
            s' == s.(checkpoints := s'.checkpoints) && s.checkpoints <= s'.checkpoints && Chained(s'.checkpoints)
  {
    if t < |s.tasks| {
      FreshInsertExtendsChain(s.checkpoints, t, SnapshotOf(s, t, remarks, next, audit, event));
    }
    hide Chained, Latest, Storable, SnapshotOf;
  }

  /**
   All that step.update can do: replace the step, raise the revision, maybe set the current step,
   maybe add a checkpoint.
   */
  lemma UpdateStepEffect(s: State, k: nat, c: StepChanges)
    requires Consistent(s)
    ensures var s' := UpdateStep(s, k, c).0;
            s' == s || StepReplaced(s, s', k)
  {
    hide Chained, PositionFree, NoteCheckpoint, ChangedStep;
    if k < |s.steps| && !c.other && c.status != Some(None) {
      var step := ChangedStep(s.steps[k], c);
      StepKeepsTask(s.steps[k], c);
      NoteCheckpointAppends(Touched(s.(steps := s.steps[k := step]), step.task), step.task, [], "", None,
                            "step.complete");
    }
  }

  lemma StepKeepsTask(step: Step, c: StepChanges)
    requires c.status.Some? ==> c.status.value.Some?
    ensures ChangedStep(step, c).task == step.task
  {}

  ghost predicate StepReplaced(s: State, s': State, k: nat) {
    && k < |s.steps| == |s'.steps| && s'.steps == s.steps[k := s'.steps[k]]
    && var step := s'.steps[k];
       var t := step.task;
       && t == s.steps[k].task && t < |s.tasks| == |s'.tasks|
       && PositionFree(s.steps, t, step.position, k)
       && s'.tasks == s.tasks[t := s.tasks[t].(revision := s.tasks[t].revision + 1,
                                               current := if step.status.Doing? then Some(k) else s.tasks[t].current)]
       && s' == s.(tasks := s'.tasks, steps := s'.steps, checkpoints := s'.checkpoints)
       && s.checkpoints <= s'.checkpoints && Chained(s'.checkpoints)
  }

  lemma StepReplacedAdvances(s: State, s': State, k: nat)
    requires Consistent(s) && StepReplaced(s, s', k)
    ensures Consistent(s') && Advances(s, s')
  {
    hide Chained, PositionFree;
  }

  lemma UpdateStepAdvances(s: State, k: nat, c: StepChanges)
    requires Consistent(s)
    ensures Consistent(UpdateStep(s, k, c).0) && Advances(s, UpdateStep(s, k, c).0)
  {
    hide *;
    UpdateStepEffect(s, k, c);
    if UpdateStep(s, k, c).0 == s {
      AdvancesIsReflexive(s);
    } else {
      StepReplacedAdvances(s, UpdateStep(s, k, c).0, k);
    }
  }

  lemma EvaluateAuditAdvances(s: State, a: nat)
    requires Consistent(s)
    ensures Consistent(EvaluateAudit(s, a).0) && Advances(s, EvaluateAudit(s, a).0)
  {
    hide Chained, NoteCheckpoint, Verdict;
    if a < |s.audits| {
      var audit := s.audits[a];
      var checks := JudgedChecks(s.checks, a);
      var mark := Verdict(checks, a, audit.revision != s.tasks[audit.task].revision);
      var after := s.(checks := checks, audits := s.audits[a := audit.(mark := mark, completed := mark != Uncertain)]);
      NoteCheckpointAppends(after, audit.task, [], "", Some(a), "audit.complete");
    }
  }

  lemma MoveArtifactAdvances(s: State, k: nat, archive: bool, now: nat)
    requires Consistent(s)
    ensures Consistent(MoveArtifact(s, k, archive, now).0) && Advances(s, MoveArtifact(s, k, archive, now).0)
  {
    hide Chained, NoteCheckpoint;
    if k < |s.artifacts| && s.artifacts[k].task.Some? {
      var row := s.artifacts[k];
      var moved := s.(artifacts := s.artifacts[k := row.(status := if archive then Archived
                                                         else Final, updated := now)]);
      NoteCheckpointAppends(Touched(moved, row.task.value), row.task.value, [], "", None, "artifact.finalized");
    }
  }

  lemma ProjectCreateAdvances(s: State)
    requires Consistent(s)
    ensures Consistent(Apply(s, ProjectCreate).0) && Advances(s, Apply(s, ProjectCreate).0)
  {
    hide Chained;
  }

  lemma CreateTaskAdvances(s: State, fields: Fields)
    requires Consistent(s)
    ensures Consistent(CreateTask(s, fields).0) && Advances(s, CreateTask(s, fields).0)
  {
    hide Chained, TrimSpace;
  }

  lemma UpdateTaskAdvances(s: State, t: nat, c: TaskChanges)
    requires Consistent(s)
    ensures Consistent(UpdateTask(s, t, c).0) && Advances(s, UpdateTask(s, t, c).0)
  {
    hide Chained, ChangedFields, Known;
  }

  lemma MoveTaskAdvances(s: State, t: nat, target: Option<TaskStatus>)
    requires Consistent(s)
    ensures Consistent(MoveTask(s, t, target).0) && Advances(s, MoveTask(s, t, target).0)
  {
    if t < |s.tasks| && target.Some? {
      TerminalCannotMove(s.tasks[t].status, target.value);
    }
    hide Chained, GateOpen, MayMove, Terminal;
  }

  lemma TerminalCannotMove(from: TaskStatus, to: TaskStatus)
    ensures Terminal(from) ==> !MayMove(from, to)
  {}

  lemma AddStepAdvances(s: State, t: nat, title: string, description: string, position: Option<int>)
    requires Consistent(s)
    ensures var s' := AddStep(s, t, title, description, position).0; Consistent(s') && Advances(s, s')
  {
    hide Chained, TrimSpace, PositionFree, LastPosition;
  }

  lemma CreateAuditAdvances(s: State, t: nat, checks: seq<NewCheck>, now: nat)
    requires Consistent(s)
    ensures Consistent(CreateAudit(s, t, checks, now).0) && Advances(s, CreateAudit(s, t, checks, now).0)
  {
    hide Chained, TrimSpace, AcceptedChecks;
  }

  lemma RecordCheckAdvances(s: State, a: nat, k: nat, actual: Encoded, evidence: Option<Evidence>)
    requires Consistent(s)
    ensures Consistent(RecordCheck(s, a, k, actual, evidence).0)
            && Advances(s, RecordCheck(s, a, k, actual, evidence).0)
  {
    hide Chained;
  }

  lemma RegisterArtifactAdvances(s: State, op: Op)
    requires Consistent(s) && op.ArtifactRegister?
    ensures Consistent(Apply(s, op).0) && Advances(s, Apply(s, op).0)
  {
    hide Chained, TrimSpace, Known, CreateTask, UpdateTask, MoveTask, AddStep, UpdateStep, NoteCheckpoint,
         CreateAudit, RecordCheck, EvaluateAudit, MoveArtifact;
    assert Apply(s, op) ==
           RegisterArtifact(s, op.name, op.path, op.kind, op.owner, op.project, op.choice, op.reference, op.metadata,
                            op.now);
  }

  /** Every operation keeps the tables consistent, and every edit raises the revision of its task. */
  lemma ApplyAdvances(s: State, op: Op)
    requires Consistent(s)
    ensures Consistent(Apply(s, op).0) && Advances(s, Apply(s, op).0)
  {
    hide Advances, Consistent;
    match op
    case StepAdd(t, title, description, position) => AddStepAdvances(s, t, title, description, position);
    case StepUpdate(k, c) => UpdateStepAdvances(s, k, c);
    case CheckpointCreate(t, remarks, next, about, event) =>
      CheckpointCreateAdvances(s, t, remarks, next, about, event);
    case AuditCreate(t, checks, now) => CreateAuditAdvances(s, t, checks, now);
    case AuditRecord(a, k, actual, evidence) => RecordCheckAdvances(s, a, k, actual, evidence);
    case AuditEvaluate(a) => EvaluateAuditAdvances(s, a);
    case ArtifactRegister(_, _, _, _, _, _, _, _, _) => RegisterArtifactAdvances(s, op);
    case ArtifactMove(k, archive, now) => MoveArtifactAdvances(s, k, archive, now);
    case TaskCreate(fields) => CreateTaskAdvances(s, fields);
    case TaskUpdate(t, c) => UpdateTaskAdvances(s, t, c);
    case TaskTransition(t, target) => MoveTaskAdvances(s, t, target);
    case ProjectCreate => ProjectCreateAdvances(s);
  }

  lemma CheckpointCreateAdvances(s: State, t: nat, remarks: seq<string>, next: string, about: Option<nat>,
                                 event: string)
    requires Consistent(s)
    ensures var s' := NoteCheckpoint(s, t, remarks, next, about, event).0; Consistent(s') && Advances(s, s')
  {
    NoteCheckpointAppends(s, t, remarks, next, about, event);
    hide NoteCheckpoint, Chained;
  }

  // ---------- Runs ----------

  /** The tables after the first n operations of a history that starts with empty tables. */
  function At(ops: seq<Op>, n: nat): (s: State)
    requires n <= |ops|
    ensures Consistent(s)
  {
    if n == 0 then NOTHING
    else
      ApplyAdvances(At(ops, n - 1), ops[n - 1]);
      Apply(At(ops, n - 1), ops[n - 1]).0
  }

  predicate Succeeds(ops: seq<Op>, n: nat)
    requires n < |ops|
  {
    !Apply(At(ops, n), ops[n]).1.Refused?
  }

  lemma OneOperationAdvances(ops: seq<Op>, n: nat)
    requires n < |ops|
    ensures Advances(At(ops, n), At(ops, n + 1))
  {
    ApplyAdvances(At(ops, n), ops[n]);
    hide Apply, Advances, Consistent;
  }

  lemma {:induction false} HistoryAdvances(ops: seq<Op>, i: nat, j: nat)
    requires i <= j <= |ops|
    ensures Advances(At(ops, i), At(ops, j))
    decreases j
  {
    hide *;
    if i < j {
      HistoryAdvances(ops, i, j - 1);
      OneOperationAdvances(ops, j - 1);
      AdvancesIsTransitive(At(ops, i), At(ops, j - 1), At(ops, j));
    } else {
      AdvancesIsReflexive(At(ops, i));
    }
  }

  /** Revisions never go back, and two moments with the same revision of a task have the same work. */
  lemma RevisionFreezesWork(ops: seq<Op>, i: nat, j: nat, t: nat)
    requires i <= j <= |ops| && t < |At(ops, i).tasks|
    ensures t < |At(ops, j).tasks|
    ensures At(ops, i).tasks[t].revision <= At(ops, j).tasks[t].revision
    ensures At(ops, i).tasks[t].revision == At(ops, j).tasks[t].revision ==> SameWork(At(ops, i), At(ops, j), t)
  {
    HistoryAdvances(ops, i, j);
    hide At, SameWork;
    assert Later(At(ops, i), At(ops, j), t);
  }

  /** A finished, failed or cancelled task never changes its status again. */
  lemma TerminalStatesAreFinal(ops: seq<Op>, i: nat, j: nat, t: nat)
    requires i <= j <= |ops| && t < |At(ops, i).tasks| && Terminal(At(ops, i).tasks[t].status)
    ensures t < |At(ops, j).tasks| && At(ops, j).tasks[t].status == At(ops, i).tasks[t].status
  {
    HistoryAdvances(ops, i, j);
    hide At, SameWork;
    assert Later(At(ops, i), At(ops, j), t);
  }

  /** At every moment the checkpoints of every task form one chain numbered 1..n, and none ever changes. */
  lemma WorkCheckpointsFormChains(ops: seq<Op>, i: nat, j: nat, t: nat)
    requires i <= j <= |ops|
    ensures Numbered(At(ops, j).checkpoints, t) && At(ops, i).checkpoints <= At(ops, j).checkpoints
  {
    ChainIsNumbered(At(ops, j).checkpoints, t);
    HistoryAdvances(ops, i, j);
    hide At, Numbered, Later, Chained;
  }

  // ---------- Where audits come from ----------

  /** Operation c created audit a for the revision its task then had. */
  ghost predicate CreatesAudit(ops: seq<Op>, c: nat, a: nat)
    requires c < |ops|
  {
    var s := At(ops, c);
    && ops[c].AuditCreate? && ops[c].task < |s.tasks| && a == |s.audits|
    && |At(ops, c + 1).audits| == a + 1
    && At(ops, c + 1).audits[a].task == ops[c].task
    && At(ops, c + 1).audits[a].revision == s.tasks[ops[c].task].revision
  }

  lemma NewAuditsAreCreated(s: State, op: Op, a: nat)
    requires Consistent(s)
    requires var s' := Apply(s, op).0; |s.audits| <= a < |s'.audits|
    ensures op.AuditCreate? && op.task < |s.tasks| && a == |s.audits|
    ensures Apply(s, op).0.audits[a] == Audit(op.task, Uncertain, s.tasks[op.task].revision, op.now, false)
  {
    hide Chained, Latest, TrimSpace, AcceptedChecks, Verdict, Storable, SnapshotOf, PositionFree, Known, GateOpen,
         ChangedFields;
  }

  lemma {:induction false} AuditWasCreated(ops: seq<Op>, n: nat, a: nat)
    requires n <= |ops| && a < |At(ops, n).audits|
    ensures exists c :: 0 <= c < n && CreatesAudit(ops, c, a)
  {
    hide Apply, Consistent;
    if n > 0 {
      if a < |At(ops, n - 1).audits| {
        AuditWasCreated(ops, n - 1, a);
      } else {
        var s := At(ops, n - 1);
        NewAuditsAreCreated(s, ops[n - 1], a);
        assert At(ops, n) == Apply(s, ops[n - 1]).0;
        HistoryAdvances(ops, n - 1, n);
        OneAuditAtATime(s, ops[n - 1], a);
        assert CreatesAudit(ops, n - 1, a);
      }
    }
  }

  lemma OneAuditAtATime(s: State, op: Op, a: nat)
    requires Consistent(s) && a == |s.audits| && a < |Apply(s, op).0.audits|
    ensures |Apply(s, op).0.audits| == a + 1
  {
    if |Apply(s, op).0.audits| > a + 1 {
      NewAuditsAreCreated(s, op, a + 1);
    }
  }

  // ---------- Where verdicts come from ----------

  /** There is evidence, of an admitted kind, and it is what was expected. */
  predicate Proven(c: Check) {
    && !c.actual.Null? && c.actual == c.expected
    && (c.evidence == Some(Manual) ==> c.manualAllowed)
  }

  /** The audit has checks, and each of them is marked PASS on evidence that proves it. */
  ghost predicate AllProven(s: State, a: nat) {
    && (exists k :: 0 <= k < |s.checks| && s.checks[k].audit == a)
    && (forall k :: 0 <= k < |s.checks| && s.checks[k].audit == a ==> s.checks[k].mark == Pass && Proven(s.checks[k]))
  }

  lemma PassVerdictMeansProven(checks: seq<Check>, a: nat, stale: bool)
    requires Verdict(JudgedChecks(checks, a), a, stale) == Pass
    ensures !stale
    ensures var judged := JudgedChecks(checks, a);
            && (exists k :: 0 <= k < |judged| && judged[k].audit == a)
            && forall k :: 0 <= k < |judged| && judged[k].audit == a ==> judged[k].mark == Pass && Proven(judged[k])
  {
    var judged := JudgedChecks(checks, a);
    forall k | 0 <= k < |judged| && judged[k].audit == a ensures judged[k].mark == Pass && Proven(judged[k]) {
      assert judged[k].mark != Uncertain && judged[k].mark != Fail;
    }
  }

  /** Only its own evaluation gives an audit a verdict, and only proven checks give it PASS. */
  lemma VerdictsComeFromEvaluation(s: State, op: Op, a: nat)
    requires Consistent(s) && a < |s.audits|
    ensures var s' := Apply(s, op).0;
            && a < |s'.audits|
            && (s'.audits[a] != s.audits[a] ==> op == AuditEvaluate(a))
            && (op == AuditEvaluate(a) && s'.audits[a].mark == Pass ==>
                  AllProven(s', a) && s.audits[a].revision == s.tasks[s.audits[a].task].revision)
  {
    hide Chained, TrimSpace, AcceptedChecks, Verdict, NoteCheckpoint, PositionFree, Known, GateOpen, ChangedFields,
         LastPosition, JudgedChecks, AllProven;
    match op
    case AuditEvaluate(b) => EvaluationGivesVerdict(s, b, a);
    case StepUpdate(k, c) => UpdateStepLeavesAudits(s, k, c);
    case ArtifactMove(k, archive, now) => MoveArtifactLeavesAudits(s, k, archive, now);
    case CheckpointCreate(t, remarks, next, about, event) => NoteCheckpointAppends(s, t, remarks, next, about, event);
    case _ =>
  }

  lemma UpdateStepLeavesAudits(s: State, k: nat, c: StepChanges)
    requires Consistent(s)
    ensures var s' := UpdateStep(s, k, c).0; s'.audits == s.audits && s'.checks == s.checks
  {
    UpdateStepEffect(s, k, c);
    hide Chained, UpdateStep, PositionFree;
  }

  lemma MoveArtifactLeavesAudits(s: State, k: nat, archive: bool, now: nat)
    requires Consistent(s)
    ensures var s' := MoveArtifact(s, k, archive, now).0; s'.audits == s.audits && s'.checks == s.checks
  {
    hide Chained, NoteCheckpoint;
    if k < |s.artifacts| && s.artifacts[k].task.Some? {
      var row := s.artifacts[k];
      var moved := s.(artifacts := s.artifacts[k := row.(status := if archive then Archived
                                                         else Final, updated := now)]);
      NoteCheckpointAppends(Touched(moved, row.task.value), row.task.value, [], "", None, "artifact.finalized");
    }
  }

  lemma EvaluationGivesVerdict(s: State, b: nat, a: nat)
    requires Consistent(s) && a < |s.audits|
    ensures var s' := EvaluateAudit(s, b).0;
            && a < |s'.audits|
            && (b != a ==> s'.audits[a] == s.audits[a])
            && (b == a ==> s'.audits[a].mark == Verdict(JudgedChecks(s.checks, a), a,
                                                        s.audits[a].revision != s.tasks[s.audits[a].task].revision))
            && (b == a ==> s'.checks == JudgedChecks(s.checks, a))
            && (b == a && s'.audits[a].mark == Pass ==>
                  AllProven(s', a) && s.audits[a].revision == s.tasks[s.audits[a].task].revision)
  {
    hide Chained, NoteCheckpoint, Verdict, JudgedChecks;
    if b < |s.audits| {
      var audit := s.audits[b];
      var checks := JudgedChecks(s.checks, b);
      var mark := Verdict(checks, b, audit.revision != s.tasks[audit.task].revision);
      var after := s.(checks := checks, audits := s.audits[b := audit.(mark := mark, completed := mark != Uncertain)]);
      NoteCheckpointAppends(after, audit.task, [], "", Some(b), "audit.complete");
      if mark == Pass {
        PassVerdictMeansProven(s.checks, b, audit.revision != s.tasks[audit.task].revision);
      }
    }
  }

  /** Operation e is the last evaluation of audit a before n, and gave it PASS on proven checks. */
  ghost predicate LastPassed(ops: seq<Op>, e: nat, n: nat, a: nat)
    requires e < n <= |ops|
  {
    && ops[e] == AuditEvaluate(a) && a < |At(ops, e).audits| && a < |At(ops, e + 1).audits|
    && At(ops, e + 1).audits[a].mark == Pass && AllProven(At(ops, e + 1), a)
    && forall k :: e < k < n ==> ops[k] != AuditEvaluate(a)
  }

  /** An audit that reads PASS was given it by its last evaluation. */
  lemma {:induction false} PassWasEvaluated(ops: seq<Op>, n: nat, a: nat)
    requires n <= |ops| && a < |At(ops, n).audits| && At(ops, n).audits[a].mark == Pass
    ensures exists e :: 0 <= e < n && LastPassed(ops, e, n, a)
  {
    hide Apply, Consistent, AllProven;
    if n > 0 {
      var s, op := At(ops, n - 1), ops[n - 1];
      if a < |s.audits| {
        VerdictsComeFromEvaluation(s, op, a);
        if op == AuditEvaluate(a) {
          assert LastPassed(ops, n - 1, n, a);
        } else {
          PassWasEvaluated(ops, n - 1, a);
          var e :| 0 <= e < n - 1 && LastPassed(ops, e, n - 1, a);
          assert LastPassed(ops, e, n, a);
        }
      } else {
        NewAuditsAreCreated(s, op, a);
      }
    }
  }

  // ---------- The latest audit ----------

  /** Audit k is not later than audit a: created before, or at the same time and not after it in the table. */
  predicate NotLater(audits: seq<Audit>, k: nat, a: nat)
    requires k < |audits| && a < |audits|
  {
    audits[k].created < audits[a].created || (audits[k].created == audits[a].created && k <= a)
  }

  /** Audit a is the task's, and none of the task's audits is later. */
  ghost predicate IsLatestAudit(audits: seq<Audit>, t: nat, a: nat) {
    && a < |audits| && audits[a].task == t
    && forall k :: 0 <= k < |audits| && audits[k].task == t ==> NotLater(audits, k, a)
  }

  /** The query finds the latest audit of the task, and nothing exactly when the task has none. */
  lemma {:induction false} LatestAuditIsTheLatest(audits: seq<Audit>, t: nat)
    ensures forall a: nat :: LatestAudit(audits, t) == Some(a) <==> IsLatestAudit(audits, t, a)
    ensures LatestAudit(audits, t).None? <==> forall k :: 0 <= k < |audits| ==> audits[k].task != t
  {
    if audits != [] {
      var n := |audits| - 1;
      var before := audits[..n];
      LatestAuditIsTheLatest(before, t);
      forall a: nat ensures LatestAudit(audits, t) == Some(a) <==> IsLatestAudit(audits, t, a) {
        LatestAuditOneMore(audits, t, a);
      }
    }
  }

  lemma LatestAuditOneMore(audits: seq<Audit>, t: nat, a: nat)
    requires audits != []
    requires forall b: nat :: LatestAudit(audits[..|audits| - 1], t) == Some(b) <==>
                              IsLatestAudit(audits[..|audits| - 1], t, b)
    requires LatestAudit(audits[..|audits| - 1], t).None? <==> forall k :: 0 <= k < |audits| - 1 ==> audits[k].task != t
    ensures LatestAudit(audits, t) == Some(a) <==> IsLatestAudit(audits, t, a)
  {
    var n := |audits| - 1;
    var before, latest, found := audits[..n], LatestAudit(audits[..n], t), LatestAudit(audits, t);
    assert forall k :: 0 <= k < n ==> before[k] == audits[k];
    assert found == if audits[n].task == t && (latest.None? || audits[n].created >= audits[latest.value].created)
                    then Some(n) else latest;
    hide LatestAudit;
    if latest.Some? {
      assert IsLatestAudit(before, t, latest.value);
    }
    if found.Some? {
      forall k | 0 <= k < |audits| && audits[k].task == t ensures NotLater(audits, k, found.value) {
        if k < n {
          assert NotLater(before, k, latest.value);
        }
      }
      assert IsLatestAudit(audits, t, found.value);
    }
    if IsLatestAudit(audits, t, a) {
      assert found.Some?;
      assert NotLater(audits, a, found.value) && NotLater(audits, found.value, a);
    }
  }

  // ---------- The audit gate ----------

  /** Operation n completes task t, and an audit is required for that. */
  ghost predicate CompletesAudited(ops: seq<Op>, n: nat, t: nat)
    requires n < |ops|
  {
    && ops[n] == TaskTransition(t, Some(TaskStatus.Done)) && Succeeds(ops, n)
    && t < |At(ops, n).tasks| && At(ops, n).tasks[t].fields.auditRequired
  }

  lemma GateWasOpen(ops: seq<Op>, n: nat, t: nat)
    requires n < |ops| && CompletesAudited(ops, n, t)
    ensures exists a: nat :: GateAudit(At(ops, n), t, a)
  {
    LatestAuditIsTheLatest(At(ops, n).audits, t);
    hide At, LatestAudit, IsLatestAudit;
    var latest := LatestAudit(At(ops, n).audits, t);
    assert latest.Some? ==> latest == Some(latest.value);
    assert GateAudit(At(ops, n), t, latest.value);
  }

  /** The latest audit of the task reads PASS and was created for the revision the task has now. */
  ghost predicate GateAudit(s: State, t: nat, a: nat) {
    && t < |s.tasks| && IsLatestAudit(s.audits, t, a)
    && s.audits[a].mark == Pass && s.audits[a].revision == s.tasks[t].revision
  }

  /** Completing a task is let through exactly from auditing, and with such an audit if one is required. */
  lemma CompletionExactly(s: State, t: nat)
    requires Consistent(s) && t < |s.tasks|
    ensures !Apply(s, TaskTransition(t, Some(TaskStatus.Done))).1.Refused? <==>
            s.tasks[t].status.Auditing? && (s.tasks[t].fields.auditRequired ==> exists a: nat :: GateAudit(s, t, a))
    ensures s.tasks[t].status.Auditing? && Apply(s, TaskTransition(t, Some(TaskStatus.Done))).1.Refused? ==>
              Apply(s, TaskTransition(t, Some(TaskStatus.Done))).1.error == AuditGateBlocked
  {
    LatestAuditIsTheLatest(s.audits, t);
    hide Consistent, LatestAudit, IsLatestAudit;
    var latest := LatestAudit(s.audits, t);
    if exists a: nat :: GateAudit(s, t, a) {
      var a: nat :| GateAudit(s, t, a);
      assert latest == Some(a);
    }
    if latest.Some? && s.audits[latest.value].mark == Pass && s.audits[latest.value].revision == s.tasks[t].revision {
      assert latest == Some(latest.value);
      assert GateAudit(s, t, latest.value);
    }
  }

  /**
   The audit gate: when an audited task is completed, the deciding audit is the latest one of the task,
   was created for exactly the work the task has now, and its last evaluation passed every one of its
   checks, of which there is at least one.
   */
  lemma AuditGate(ops: seq<Op>, n: nat, t: nat)
    requires n < |ops| && CompletesAudited(ops, n, t)
    ensures exists a, c, e ::
              && 0 <= c < e < n && IsLatestAudit(At(ops, n).audits, t, a)
              && CreatesAudit(ops, c, a) && ops[c].task == t
              && LastPassed(ops, e, n, a)
              && t < |At(ops, c).tasks| && SameWork(At(ops, c), At(ops, n), t)
  {
    GateWasOpen(ops, n, t);
    var a: nat :| GateAudit(At(ops, n), t, a);
    assert a < |At(ops, n).audits| && At(ops, n).audits[a].mark == Pass && At(ops, n).audits[a].task == t
           && t < |At(ops, n).tasks| && At(ops, n).audits[a].revision == At(ops, n).tasks[t].revision
           && IsLatestAudit(At(ops, n).audits, t, a) by { hide At; }
    hide *;
    PassWasEvaluated(ops, n, a);
    var e :| 0 <= e < n && LastPassed(ops, e, n, a);
    AuditWasCreated(ops, n, a);
    var c :| 0 <= c < n && CreatesAudit(ops, c, a);
    DecidingAudit(ops, c, e, n, a);
  }

  /** The audit that decides was created, then passed, for the work the task has now. */
  lemma DecidingAudit(ops: seq<Op>, c: nat, e: nat, n: nat, a: nat)
    requires c < n < |ops| && e < n && CreatesAudit(ops, c, a) && LastPassed(ops, e, n, a)
    requires a < |At(ops, n).audits|
    requires At(ops, n).audits[a].task < |At(ops, n).tasks|
    requires At(ops, n).audits[a].revision == At(ops, n).tasks[At(ops, n).audits[a].task].revision
    ensures c < e && ops[c].AuditCreate? && ops[c].task == At(ops, n).audits[a].task
    ensures ops[c].task < |At(ops, c).tasks| && ops[c].task < |At(ops, n).tasks|
            && SameWork(At(ops, c), At(ops, n), ops[c].task)
  {
    hide At, SameWork, AllProven;
    CreatedBeforeUse(ops, c, e, n, a);
    RevisionFreezesWork(ops, c, n, ops[c].task);
  }

  lemma CreatedBeforeUse(ops: seq<Op>, c: nat, e: nat, n: nat, a: nat)
    requires c < n <= |ops| && e < n && CreatesAudit(ops, c, a) && a < |At(ops, e).audits| && a < |At(ops, n).audits|
    ensures c < e && SameAudit(At(ops, c + 1).audits[a], At(ops, n).audits[a])
  {
    hide At, Later, SameAudit;
    if e <= c {
      HistoryAdvances(ops, e, c);
    }
    HistoryAdvances(ops, c + 1, n);
  }

  // ---------- Staleness ----------

  /** What the tables say about their rows besides the foreign keys. */
  ghost predicate Orderly(s: State) {
    && (forall a :: 0 <= a < |s.audits| ==>
          s.audits[a].task < |s.tasks| && s.audits[a].revision <= s.tasks[s.audits[a].task].revision)
    && (forall t :: 0 <= t < |s.tasks| ==> s.tasks[t].completed == s.tasks[t].status.Done?)
    && (forall t :: 0 <= t < |s.tasks| && s.tasks[t].current.Some? ==> NamesOwnStep(s, t))
    && DistinctPositions(s.steps)
  }

  predicate NamesOwnStep(s: State, t: nat)
    requires t < |s.tasks| && s.tasks[t].current.Some?
  {
    s.tasks[t].current.value < |s.steps| && s.steps[s.tasks[t].current.value].task == t
  }

  ghost predicate DistinctPositions(steps: seq<Step>) {
    && (forall i :: 0 <= i < |steps| ==> steps[i].position >= 1)
    && forall i, j :: 0 <= i < |steps| && 0 <= j < |steps| && i != j && steps[i].task == steps[j].task ==>
         steps[i].position != steps[j].position
  }

  lemma StepReplacedKeepsOrderly(s: State, s': State, k: nat)
    requires Orderly(s) && StepReplaced(s, s', k)
    ensures Orderly(s')
  {
    hide Chained;
  }

  lemma UpdateStepKeepsOrderly(s: State, k: nat, c: StepChanges)
    requires Consistent(s) && Orderly(s)
    ensures Orderly(UpdateStep(s, k, c).0)
  {
    hide *;
    UpdateStepEffect(s, k, c);
    if UpdateStep(s, k, c).0 != s {
      StepReplacedKeepsOrderly(s, UpdateStep(s, k, c).0, k);
    }
  }

  lemma TaskOperationsKeepOrderly(s: State, op: Op)
    requires Consistent(s) && Orderly(s)
             && (op.ProjectCreate? || op.TaskCreate? || op.TaskUpdate? || op.TaskTransition?)
    ensures Orderly(Apply(s, op).0)
  {
    hide Chained, TrimSpace, Known, GateOpen, ChangedFields, DistinctPositions, MayMove, NoteCheckpoint,
         UpdateStep, AddStep, CreateAudit, RecordCheck, EvaluateAudit, RegisterArtifact, MoveArtifact;
  }

  lemma OtherOperationsKeepOrderly(s: State, op: Op)
    requires Consistent(s) && Orderly(s) && !op.StepUpdate? && !op.StepAdd?
    ensures Orderly(Apply(s, op).0)
  {
    hide Chained, TrimSpace, AcceptedChecks, Verdict, NoteCheckpoint, Known, GateOpen, ChangedFields, DistinctPositions,
         JudgedChecks, CheckRows, CreateTask, UpdateTask, MoveTask, UpdateStep, AddStep, EvaluateAudit, MoveArtifact,
         MayMove;
    match op
    case AuditEvaluate(a) => EvaluationLeavesRest(s, a);
    case ArtifactMove(k, archive, now) => MoveArtifactLeavesRest(s, k, archive, now);
    case CheckpointCreate(t, remarks, next, about, event) => NoteCheckpointAppends(s, t, remarks, next, about, event);
    case AuditCreate(_, _, _) =>
    case AuditRecord(_, _, _, _) =>
    case ArtifactRegister(_, _, _, _, _, _, _, _, _) =>
    case _ => TaskOperationsKeepOrderly(s, op);
  }

  lemma EvaluationLeavesRest(s: State, b: nat)
    requires Consistent(s)
    ensures var s' := EvaluateAudit(s, b).0;
            && s'.tasks == s.tasks && s'.steps == s.steps && |s'.audits| == |s.audits|
            && forall a :: 0 <= a < |s.audits| ==> SameAudit(s.audits[a], s'.audits[a])
  {
    EvaluateAuditAdvances(s, b);
    hide Chained, NoteCheckpoint, Verdict, JudgedChecks;
    if b < |s.audits| {
      var audit := s.audits[b];
      var checks := JudgedChecks(s.checks, b);
      var mark := Verdict(checks, b, audit.revision != s.tasks[audit.task].revision);
      var after := s.(checks := checks, audits := s.audits[b := audit.(mark := mark, completed := mark != Uncertain)]);
      NoteCheckpointAppends(after, audit.task, [], "", Some(b), "audit.complete");
    }
  }

  lemma MoveArtifactLeavesRest(s: State, k: nat, archive: bool, now: nat)
    requires Consistent(s)
    ensures var s' := MoveArtifact(s, k, archive, now).0;
            && s'.audits == s.audits && s'.steps == s.steps && |s'.tasks| == |s.tasks|
            && forall t :: 0 <= t < |s.tasks| ==>
                 s'.tasks[t] == s.tasks[t].(revision := s'.tasks[t].revision)
                   && s'.tasks[t].revision >= s.tasks[t].revision
  {
    hide Chained, NoteCheckpoint;
    if k < |s.artifacts| && s.artifacts[k].task.Some? {
      var row := s.artifacts[k];
      var moved := s.(artifacts := s.artifacts[k := row.(status := if archive then Archived
                                                         else Final, updated := now)]);
      NoteCheckpointAppends(Touched(moved, row.task.value), row.task.value, [], "", None, "artifact.finalized");
    }
  }

  lemma AddStepKeepsOrderly(s: State, t: nat, title: string, description: string, position: Option<int>)
    requires Consistent(s) && Orderly(s)
    ensures Orderly(AddStep(s, t, title, description, position).0)
  {
    hide Chained, TrimSpace, LastPosition;
  }

  lemma ApplyKeepsOrderly(s: State, op: Op)
    requires Consistent(s) && Orderly(s)
    ensures Orderly(Apply(s, op).0)
  {
    hide Orderly, Consistent;
    match op
    case StepAdd(t, title, description, position) => AddStepKeepsOrderly(s, t, title, description, position);
    case StepUpdate(k, c) => UpdateStepKeepsOrderly(s, k, c);
    case _ => OtherOperationsKeepOrderly(s, op);
  }

  /**
   In every reachable state a task is completed exactly when it is done, the current step is one
   of the task's own, positions are distinct, and no audit is ahead of its task.
   */
  lemma {:induction false} ReachableTablesAreOrderly(ops: seq<Op>, n: nat)
    requires n <= |ops|
    ensures Orderly(At(ops, n))
  {
    if n == 0 {
      NothingIsOrderly();
      hide Apply, Orderly, Consistent;
    } else {
      hide Apply, Orderly, Consistent;
      ReachableTablesAreOrderly(ops, n - 1);
      ApplyKeepsOrderly(At(ops, n - 1), ops[n - 1]);
    }
  }

  lemma NothingIsOrderly()
    ensures Orderly(NOTHING)
  {}

  ghost predicate StaleAt(s: State, a: nat) {
    a < |s.audits| && s.audits[a].task < |s.tasks| && s.audits[a].revision < s.tasks[s.audits[a].task].revision
  }

  lemma StaleStays(ops: seq<Op>, i: nat, j: nat, a: nat)
    requires i <= j <= |ops| && StaleAt(At(ops, i), a)
    ensures StaleAt(At(ops, j), a)
  {
    HistoryAdvances(ops, i, j);
    hide At, SameWork;
    assert Later(At(ops, i), At(ops, j), At(ops, i).audits[a].task);
    assert SameAudit(At(ops, i).audits[a], At(ops, j).audits[a]);
  }

  /** An audit whose task has moved on is stale, and the other way round: there is no third case. */
  lemma StaleMeansChanged(ops: seq<Op>, n: nat, a: nat)
    requires n <= |ops| && a < |At(ops, n).audits|
    ensures var s := At(ops, n);
            && s.audits[a].task < |s.tasks|
            && (StaleAt(s, a) <==> s.audits[a].revision != s.tasks[s.audits[a].task].revision)
  {
    ReachableTablesAreOrderly(ops, n);
    hide At, NamesOwnStep, DistinctPositions;
  }

  lemma StaleEvaluation(s: State, a: nat)
    requires Consistent(s) && StaleAt(s, a)
    ensures a < |Apply(s, AuditEvaluate(a)).0.audits| && Apply(s, AuditEvaluate(a)).0.audits[a].mark == Uncertain
  {
    EvaluationGivesVerdict(s, a, a);
    hide EvaluateAudit, Chained, Consistent, JudgedChecks, AllProven;
  }

  lemma StaleGate(s: State, t: nat, a: nat)
    requires Consistent(s) && StaleAt(s, a) && t < |s.tasks|
    requires IsLatestAudit(s.audits, t, a) && s.tasks[t].fields.auditRequired
    ensures Apply(s, TaskTransition(t, Some(TaskStatus.Done))).1.Refused?
  {
    LatestAuditIsTheLatest(s.audits, t);
    hide LatestAudit, IsLatestAudit, Chained;
  }

  /**
   Staleness is permanent: in every continuation the audit evaluates only to UNCERTAIN, and while no
   audit of its task is later it never lets the task be completed.
   */
  lemma StalenessIsPermanent(ops: seq<Op>, i: nat, j: nat, a: nat)
    requires i <= j < |ops| && StaleAt(At(ops, i), a)
    ensures StaleAt(At(ops, j), a)
    ensures ops[j] == AuditEvaluate(a) ==>
              a < |At(ops, j + 1).audits| && At(ops, j + 1).audits[a].mark == Uncertain
    ensures var s := At(ops, j);
            var t := s.audits[a].task;
            IsLatestAudit(s.audits, t, a) && s.tasks[t].fields.auditRequired ==>
              Apply(s, TaskTransition(t, Some(TaskStatus.Done))).1.Refused?
  {
    StaleStays(ops, i, j, a);
    StaleEvaluation(At(ops, j), a);
    assert At(ops, j + 1) == Apply(At(ops, j), ops[j]).0;
    hide Apply, At, IsLatestAudit;
    var s := At(ops, j);
    if IsLatestAudit(s.audits, s.audits[a].task, a) && s.tasks[s.audits[a].task].fields.auditRequired {
      StaleGate(s, s.audits[a].task, a);
    }
  }

  // ---------- Audits whose creation failed ----------

  lemma {:induction false} AcceptedChecksStopAtTheFirstBad(checks: seq<NewCheck>)
    ensures var n := AcceptedChecks(checks);
            && (forall i :: 0 <= i < n ==> Acceptable(checks[i]))
            && (n < |checks| ==> !Acceptable(checks[n]))
  {
    hide Acceptable;
    if checks != [] {
      AcceptedChecksStopAtTheFirstBad(checks[..|checks| - 1]);
    }
  }

  /**
   audit.create is not undone when it fails: it is refused exactly when some check is unacceptable,
   and then the audit stays, with the checks in front of the first unacceptable one.
   */
  lemma RefusedAuditsStay(s: State, t: nat, checks: seq<NewCheck>, now: nat)
    requires t < |s.tasks|
    ensures var (s', reply) := CreateAudit(s, t, checks, now);
            && |s'.audits| == |s.audits| + 1 && s'.audits[|s.audits|].task == t && s.checks <= s'.checks
            && (reply.Refused? <==> exists i :: 0 <= i < |checks| && !Acceptable(checks[i]))
            && (forall i :: 0 <= i < |s'.checks| - |s.checks| ==>
                  && i < |checks| && Acceptable(checks[i])
                  && s'.checks[|s.checks| + i] == CheckRow(|s.audits|, checks[i]))
            && (|s'.checks| - |s.checks| < |checks| ==> !Acceptable(checks[|s'.checks| - |s.checks|]))
  {
    AcceptedChecksStopAtTheFirstBad(checks);
    hide AcceptedChecks, Acceptable, CheckRow;
  }

  // ---------- PASS and its checks ----------

  /** Operation k records evidence for a check of audit a. */
  ghost predicate RecordsFor(ops: seq<Op>, k: nat, a: nat)
    requires k < |ops|
  {
    ops[k].AuditRecord? && ops[k].audit == a && Succeeds(ops, k)
  }

  ghost predicate ChecksPass(s: State, a: nat) {
    forall k :: 0 <= k < |s.checks| && s.checks[k].audit == a ==> s.checks[k].mark == Pass
  }

  /** The checks of audit a are the same rows. */
  ghost predicate ChecksLeft(before: seq<Check>, after: seq<Check>, a: nat) {
    && (forall k :: 0 <= k < |before| && before[k].audit == a ==> k < |after| && after[k] == before[k])
    && (forall k :: 0 <= k < |after| && after[k].audit == a ==> k < |before| && after[k] == before[k])
  }

  lemma ChecksLeftPassAlike(s: State, s': State, a: nat)
    requires ChecksLeft(s.checks, s'.checks, a)
    ensures ChecksPass(s', a) == ChecksPass(s, a)
  {}

  /** Apart from its evaluation, only recorded evidence touches the checks of an audit. */
  lemma OthersLeaveChecks(s: State, op: Op, a: nat)
    requires Consistent(s) && a < |s.audits| && op != AuditEvaluate(a)
    requires !(op.AuditRecord? && op.audit == a && !Apply(s, op).1.Refused?)
    ensures ChecksLeft(s.checks, Apply(s, op).0.checks, a)
  {
    hide Chained, TrimSpace, AcceptedChecks, Verdict, NoteCheckpoint, PositionFree, Known, GateOpen, ChangedFields,
         LastPosition;
    match op
    case AuditEvaluate(b) => if b < |s.audits| { EvaluationGivesVerdict(s, b, b); }
    case StepUpdate(k, c) => UpdateStepLeavesAudits(s, k, c);
    case ArtifactMove(k, archive, now) => MoveArtifactLeavesAudits(s, k, archive, now);
    case CheckpointCreate(t, remarks, next, about, event) => NoteCheckpointAppends(s, t, remarks, next, about, event);
    case _ =>
  }

  lemma RecordingUnsets(s: State, op: Op)
    requires Consistent(s) && op.AuditRecord? && !Apply(s, op).1.Refused?
    ensures !ChecksPass(Apply(s, op).0, op.audit)
  {
    hide Chained;
    var s' := Apply(s, op).0;
    assert s'.checks[op.check].mark == Uncertain && s'.checks[op.check].audit == op.audit;
  }

  /**
   An audit that reads PASS need not have only passing checks: they all still pass exactly when
   nothing was recorded for it since its last evaluation.
   */
  lemma {:induction false} PassOutlivesItsEvidence(ops: seq<Op>, e: nat, n: nat, a: nat)
    requires e < n <= |ops| && LastPassed(ops, e, n, a)
    ensures ChecksPass(At(ops, n), a) <==> forall k :: e < k < n ==> !RecordsFor(ops, k, a)
    ensures a < |At(ops, n).audits| && At(ops, n).audits[a].mark == Pass
    decreases n
  {
    if n > e + 1 {
      hide Apply, Consistent, ChecksPass, AllProven;
      assert LastPassed(ops, e, n - 1, a);
      PassOutlivesItsEvidence(ops, e, n - 1, a);
      var s, op := At(ops, n - 1), ops[n - 1];
      if RecordsFor(ops, n - 1, a) {
        RecordingUnsets(s, op);
      } else {
        OthersLeaveChecks(s, op, a);
        ChecksLeftPassAlike(s, Apply(s, op).0, a);
      }
      VerdictsComeFromEvaluation(s, op, a);
      hide ChecksLeft;
    } else {
      hide Apply, Consistent, At;
    }
  }

  // ---------- What a checkpoint remembers ----------

  lemma PositionsOrder(steps: seq<Step>, t: nat)
    requires DistinctPositions(steps)
    ensures Orders(|steps|, Belongs(steps, t), ByPosition(steps))
  {}

  /** The task's steps of one kind, in order of position. */
  lemma StepsOfKind(steps: seq<Step>, t: nat, kind: StepStatus -> bool)
    requires DistinctPositions(steps)
    ensures var ids := Having(steps, StepOrder(steps, t), kind);
            && (forall k: nat :: k in ids <==> k < |steps| && steps[k].task == t && kind(steps[k].status))
            && InOrder(ids, ByPosition(steps))
  {
    var order := StepOrder(steps, t);
    PositionsOrder(steps, t);
    hide DistinctPositions, Orders;
    OrderBySelects(|steps|, Belongs(steps, t), ByPosition(steps));
    OrderBySorts(|steps|, Belongs(steps, t), ByPosition(steps));
    SelectSelects(order, OfKind(steps, kind));
    SelectKeepsOrder(order, OfKind(steps, kind), ByPosition(steps));
    hide InOrder, OrderBy, Select, ByPosition;
  }

  /** A step of the task is in the one list its status asks for; failed steps are in none. */
  ghost predicate FiledByStatus(s: State, t: nat, snap: Snapshot, k: nat) {
    var own := k < |s.steps| && s.steps[k].task == t;
    && (k in snap.completed <==> own && (s.steps[k].status.Done? || s.steps[k].status.Skipped?))
    && (k in snap.pending <==> own && (s.steps[k].status.Todo? || s.steps[k].status.Doing?))
    && (k in snap.blocked <==> own && s.steps[k].status.Blocked?)
  }

  /** A checkpoint's lists partition the task's steps by status, each in order of position. */
  lemma CheckpointFilesSteps(ops: seq<Op>, n: nat, t: nat, remarks: seq<string>, next: string, audit: Option<nat>,
                             event: string)
    requires n <= |ops| && t < |At(ops, n).tasks|
    ensures var s := At(ops, n);
            var snap := SnapshotOf(s, t, remarks, next, audit, event);
            && (forall k: nat :: FiledByStatus(s, t, snap, k))
            && InOrder(snap.completed, ByPosition(s.steps)) && InOrder(snap.pending, ByPosition(s.steps))
            && InOrder(snap.blocked, ByPosition(s.steps))
  {
    ReachableTablesAreOrderly(ops, n);
    var s := At(ops, n);
    assert DistinctPositions(s.steps) by { hide At; }
    hide At, Consistent, Orderly, DistinctPositions, InOrder, Having, StepOrder, ByPosition;
    StepsOfKind(s.steps, t, Settled);
    StepsOfKind(s.steps, t, Work.Ahead);
    StepsOfKind(s.steps, t, Stopped);
  }
}
