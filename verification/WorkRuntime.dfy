/**
 work/tasks.go, work/audits.go, work/checkpoints.go and work/artifacts.go as code over mutable
 tables. A query is a function of the tables; every loop the code runs over the rows is a loop
 here. Each method is proved to do what its operation does in Work.Apply.
 */
module WorkRuntime {
  import opened Text
  import opened Json
  import opened Checkpoints
  import opened Query
  import opened Work
  import opened WorkRuns

  class Runtime {
    var projects: nat
    var tasks: seq<Task>
    var steps: seq<Step>
    var audits: seq<Audit>
    var checks: seq<Check>
    var artifacts: seq<Artifact>
    var checkpoints: seq<Checkpoint<Snapshot>>

    constructor ()
      ensures Tables() == NOTHING
    {
      projects := 0;
      tasks, steps, audits, checks, artifacts, checkpoints := [], [], [], [], [], [];
    }

    function Tables(): State
      reads this
    {
      State(projects, tasks, steps, audits, checks, artifacts, checkpoints)
    }

    // ---------- Any operation ----------

    /** The dispatcher: every operation on the mutable tables is the operation of the run theorems. */
    method Dispatch(op: Op) returns (r: Reply)
      requires Consistent(Tables())
      modifies this
      ensures (Tables(), r) == Apply(old(Tables()), op) && Consistent(Tables())
    {
      ApplyAdvances(Tables(), op);
      hide Consistent, Apply, Advances;
      if IsTaskOp(op) {
        r := DispatchTask(op);
      } else if op.AuditCreate? || op.AuditRecord? || op.AuditEvaluate? {
        r := DispatchAudit(op);
      } else {
        r := DispatchOther(op);
      }
    }

    static predicate IsTaskOp(op: Op) {
      op.TaskCreate? || op.TaskUpdate? || op.TaskTransition? || op.StepAdd? || op.StepUpdate?
    }

    method DispatchTask(op: Op) returns (r: Reply)
      requires Consistent(Tables()) && IsTaskOp(op)
      modifies this
      ensures (Tables(), r) == Apply(old(Tables()), op)
    {
      hide Consistent, CreateTask, UpdateTask, MoveTask, AddStep, UpdateStep, NoteCheckpoint, CreateAudit, RecordCheck,
           EvaluateAudit, RegisterArtifact, MoveArtifact;
      match op
      case TaskCreate(fields) => r := TaskCreate(fields);
      case TaskUpdate(t, changes) => r := TaskUpdate(t, changes);
      case TaskTransition(t, target) => r := TaskTransition(t, target);
      case StepAdd(t, title, description, position) => r := TaskStepAdd(t, title, description, position);
      case StepUpdate(k, changes) => r := TaskStepUpdate(k, changes);
    }

    method DispatchAudit(op: Op) returns (r: Reply)
      requires Consistent(Tables()) && (op.AuditCreate? || op.AuditRecord? || op.AuditEvaluate?)
      modifies this
      ensures (Tables(), r) == Apply(old(Tables()), op)
    {
      hide Consistent, CreateTask, UpdateTask, MoveTask, AddStep, UpdateStep, NoteCheckpoint, CreateAudit, RecordCheck,
           EvaluateAudit, RegisterArtifact, MoveArtifact;
      match op
      case AuditCreate(t, newChecks, now) => r := AuditCreate(t, newChecks, now);
      case AuditRecord(a, k, actual, evidence) => r := AuditRecord(a, k, actual, evidence);
      case AuditEvaluate(a) => r := AuditEvaluate(a);
    }

    method DispatchOther(op: Op) returns (r: Reply)
      requires Consistent(Tables()) && !IsTaskOp(op) && !op.AuditCreate? && !op.AuditRecord? && !op.AuditEvaluate?
      modifies this
      ensures (Tables(), r) == Apply(old(Tables()), op)
    {
      hide Consistent, CreateTask, UpdateTask, MoveTask, AddStep, UpdateStep, NoteCheckpoint, CreateAudit, RecordCheck,
           EvaluateAudit, RegisterArtifact, MoveArtifact;
      match op
      case ProjectCreate => r := ProjectCreate();
      case CheckpointCreate(t, remarks, next, about, event) =>
        ConsistentMeans(Tables());
        r := CheckpointCreateDB(t, remarks, next, about, event);
      case ArtifactRegister(name, path, kind, owner, project, choice, reference, metadata, now) =>
        r := ArtifactRegister(name, path, kind, owner, project, choice, reference, metadata, now);
      case ArtifactMove(k, archive, now) => r := ArtifactState(k, archive, now);
    }

    /** A whole history, from empty tables: every theorem about At speaks of this object. */
    method Replay(ops: seq<Op>)
      requires Tables() == NOTHING
      modifies this
      ensures Tables() == At(ops, |ops|)
    {
      hide Apply, Consistent;
      assert Tables() == At(ops, 0);
      for i := 0 to |ops|
        invariant Tables() == At(ops, i)
      {
        var reply := Dispatch(ops[i]);
      }
    }

    /** Only the number of projects matters here. */
    method ProjectCreate() returns (r: Reply)
      modifies this`projects
      ensures Tables() == old(Tables()).(projects := old(projects) + 1) && r == Created(old(projects))
    {
      r := Created(projects);
      projects := projects + 1;
    }

    // ---------- Tasks ----------

    method TouchTaskRevision(t: nat) returns (ok: bool)
      modifies this`tasks
      ensures ok <==> t < |old(tasks)|
      ensures Tables() == if ok then Touched(old(Tables()), t) else old(Tables())
    {
      ok := t < |tasks|;
      if ok {
        tasks := tasks[t := tasks[t].(revision := tasks[t].revision + 1)];
      }
    }

    method TaskCreate(fields: Fields) returns (r: Reply)
      modifies this`tasks
      ensures (Tables(), r) == CreateTask(old(Tables()), fields)
    {
      hide TrimSpace;
      if TrimSpace(fields.title) == "" {
        return Refused(InvalidWorkInput);
      }
      var priority := fields.priority;
      if priority == "" {
        priority := "normal";
      }
      if |fields.metadata| > MAX_FIELD {
        return Refused(InvalidWorkInput);
      }
      if fields.project.Some? && fields.project.value >= projects {
        return Refused(WorkNotFound);
      }
      r := Created(|tasks|);
      var row := fields.(title := TrimSpace(fields.title), priority := priority);
      tasks := tasks + [Task(row, TaskStatus.Pending, None, 1, false)];
    }

    method TaskUpdate(t: nat, changes: TaskChanges) returns (r: Reply)
      modifies this`tasks
      ensures (Tables(), r) == UpdateTask(old(Tables()), t, changes)
    {
      if changes == NO_TASK_CHANGES {
        return if t < |tasks| then Accepted else Refused(WorkNotFound);
      }
      if changes.other || (changes.metadata.Some? && |changes.metadata.value| > MAX_FIELD) {
        return Refused(InvalidWorkInput);
      }
      if t >= |tasks| {
        return Refused(WorkNotFound);
      }
      if changes.project.Some? && changes.project.value.Some? && changes.project.value.value >= projects {
        return Refused(ConstraintViolated);
      }
      var task := tasks[t];
      task := task.(fields := ChangedFields(task.fields, changes), revision := task.revision + 1);
      tasks := tasks[t := task];
      return Accepted;
    }

    method TaskTransition(t: nat, target: Option<TaskStatus>) returns (r: Reply)
      modifies this`tasks
      ensures (Tables(), r) == MoveTask(old(Tables()), t, target)
    {
      if target.None? {
        return Refused(InvalidWorkInput);
      }
      if t >= |tasks| {
        return Refused(WorkNotFound);
      }
      var task := tasks[t];
      if !MayMove(task.status, target.value) {
        return Refused(InvalidTaskTransition);
      }
      if target.value.Done? && task.fields.auditRequired {
        var latest := LatestAudit(audits, t);
        if latest.None? || audits[latest.value].mark != Pass || audits[latest.value].revision != task.revision {
          return Refused(AuditGateBlocked);
        }
      }
      tasks := tasks[t := task.(status := target.value, completed := target.value.Done?)];
      return Accepted;
    }

    // ---------- Steps ----------

    method TaskStepAdd(t: nat, title: string, description: string, position: Option<int>) returns (r: Reply)
      modifies this`tasks, this`steps
      ensures (Tables(), r) == AddStep(old(Tables()), t, title, description, position)
    {
      hide TrimSpace, LastPosition, PositionFree;
      if TrimSpace(title) == "" {
        return Refused(InvalidWorkInput);
      }
      if t >= |tasks| {
        return Refused(WorkNotFound);
      }
      var place := if position.None? then LastPosition(steps, t) + 1 else position.value;
      if !PositionFree(steps, t, place, |steps|) {
        return Refused(InvalidWorkInput);
      }
      r := Created(|steps|);
      steps := steps + [Step(t, place, TrimSpace(title), description, StepStatus.Todo, None, false)];
      var ok := TouchTaskRevision(t);
      assert ok;
    }

    method TaskStepUpdate(k: nat, changes: StepChanges) returns (r: Reply)
      requires Consistent(Tables())
      modifies this`tasks, this`steps, this`checkpoints
      ensures (Tables(), r) == UpdateStep(old(Tables()), k, changes)
    {
      hide PositionFree, NoteCheckpoint, Chained, ChangedStep;
      if k >= |steps| {
        return Refused(WorkNotFound);
      }
      if changes == NO_STEP_CHANGES {
        return Accepted;
      }
      if changes.other || changes.status == Some(None) {
        return Refused(InvalidWorkInput);
      }
      var step := ChangedStep(steps[k], changes);
      StepKeepsTask(steps[k], changes);
      if !PositionFree(steps, step.task, step.position, k) {
        return Refused(InvalidWorkInput);
      }
      steps := steps[k := step];
      var ok := TouchTaskRevision(step.task);
      assert ok;
      if step.status.Doing? {
        tasks := tasks[step.task := tasks[step.task].(current := Some(k))];
      }
      if step.status.Done? {
        var noted := CheckpointCreateDB(step.task, [], "", None, "step.complete");
        if noted.Refused? {
          return noted;
        }
      }
      return Accepted;
    }

    // ---------- Checkpoints ----------

    /** One pass over the steps in order files each under its status. */
    method FileSteps(order: seq<nat>) returns (completed: seq<nat>, pending: seq<nat>, blocked: seq<nat>)
      requires forall i :: 0 <= i < |order| ==> order[i] < |steps|
      ensures completed == Having(steps, order, Settled)
      ensures pending == Having(steps, order, Work.Ahead)
      ensures blocked == Having(steps, order, Stopped)
    {
      completed, pending, blocked := [], [], [];
      for i := 0 to |order|
        invariant completed == Having(steps, order[..i], Settled)
        invariant pending == Having(steps, order[..i], Work.Ahead)
        invariant blocked == Having(steps, order[..i], Stopped)
      {
        var id := order[i];
        SelectOneMore(order, i, OfKind(steps, Settled));
        SelectOneMore(order, i, OfKind(steps, Work.Ahead));
        SelectOneMore(order, i, OfKind(steps, Stopped));
        assert OfKind(steps, Settled)(id) == Settled(steps[id].status);
        assert OfKind(steps, Work.Ahead)(id) == Work.Ahead(steps[id].status);
        assert OfKind(steps, Stopped)(id) == Stopped(steps[id].status);
        hide Select;
        match steps[id].status
        case Done => completed := completed + [id];
        case Skipped => completed := completed + [id];
        case Todo => pending := pending + [id];
        case Doing => pending := pending + [id];
        case Blocked => blocked := blocked + [id];
        case Failed =>
      }
      assert order[..|order|] == order;
    }

    method CheckpointCreateDB(t: nat, remarks: seq<string>, next: string, audit: Option<nat>,
                              event: string) returns (r: Reply)
      requires Chained(checkpoints)
      modifies this`checkpoints
      ensures (Tables(), r) == NoteCheckpoint(old(Tables()), t, remarks, next, audit, event)
      ensures Chained(checkpoints)
    {
      NoteCheckpointAppends(Tables(), t, remarks, next, audit, event);
      hide Chained, OrderBy, Having;
      if t >= |tasks| {
        return Refused(WorkNotFound);
      }
      var task := tasks[t];
      var order := StepOrder(steps, t);
      OrderBySelects(|steps|, Belongs(steps, t), ByPosition(steps));
      assert forall i :: 0 <= i < |order| ==> order[i] in order;
      var completed, pending, blocked := FileSteps(order);
      var latest := Latest(checkpoints, t);
      hide Latest;
      var sequence, parent := 1, None;
      if latest.Some? {
        sequence, parent := checkpoints[latest.value].sequence + 1, latest;
      }
      var snap := Snapshot(task.current, task.status, task.revision, completed, pending, blocked, remarks, next, audit,
                           event);
      if !Storable(snap) {
        return Refused(InvalidWorkInput);
      }
      r := Created(|checkpoints|);
      checkpoints := checkpoints + [Checkpoint(t, sequence, parent, snap)];
    }

    // ---------- Audits ----------

    method AuditCreate(t: nat, newChecks: seq<NewCheck>, now: nat) returns (r: Reply)
      modifies this`audits, this`checks
      ensures (Tables(), r) == CreateAudit(old(Tables()), t, newChecks, now)
    {
      hide TrimSpace;
      if t >= |tasks| {
        return Refused(WorkNotFound);
      }
      var a := |audits|;
      audits := audits + [Audit(t, Uncertain, tasks[t].revision, now, false)];
      ghost var before := checks;
      for i := 0 to |newChecks|
        invariant AcceptedChecks(newChecks[..i]) == i
        invariant checks == before + CheckRows(a, newChecks[..i])
        invariant tasks == old(tasks) && steps == old(steps) && artifacts == old(artifacts)
        invariant projects == old(projects) && checkpoints == old(checkpoints)
        invariant audits == old(audits) + [Audit(t, Uncertain, tasks[t].revision, now, false)]
      {
        assert newChecks[..i + 1][..i] == newChecks[..i];
        var item := newChecks[i];
        var name := TrimSpace(item.name);
        if name == "" || item.expected.length > MAX_FIELD {
          AcceptedNoFurther(newChecks, i);
          return Refused(InvalidWorkInput);
        }
        checks := checks + [Check(a, name, item.expected.value, Null, None, item.manualAllowed, Uncertain)];
      }
      assert newChecks[..|newChecks|] == newChecks;
      return Created(a);
    }

    method AuditRecord(audit: nat, k: nat, actual: Encoded, evidence: Option<Evidence>) returns (r: Reply)
      modifies this`checks
      ensures (Tables(), r) == RecordCheck(old(Tables()), audit, k, actual, evidence)
    {
      if evidence.None? {
        return Refused(InvalidWorkInput);
      }
      if k >= |checks| || checks[k].audit != audit {
        return Refused(WorkNotFound);
      }
      if actual.length > MAX_FIELD {
        return Refused(InvalidWorkInput);
      }
      checks := checks[k := checks[k].(actual := actual.value, evidence := evidence, mark := Uncertain)];
      return Accepted;
    }

    /** The first loop of AuditEvaluate: judge each check of the audit and collect the marks. */
    method JudgeChecks(a: nat) returns (marks: seq<Mark>)
      modifies this`checks
      ensures checks == JudgedChecks(old(checks), a)
      ensures forall m :: m in marks <==> AnyMarked(checks, a, m)
    {
      ghost var before := checks;
      ghost var judged := JudgedChecks(before, a);
      marks := [];
      for i := 0 to |checks|
        invariant |checks| == |before|
        invariant forall k :: 0 <= k < i ==> checks[k] == judged[k]
        invariant forall k :: i <= k < |before| ==> checks[k] == before[k]
        invariant marks == MarksOf(judged[..i], a)
      {
        assert judged[..i + 1][..i] == judged[..i];
        var check := checks[i];
        if check.audit == a {
          var mark := Uncertain;
          if !check.actual.Null? {
            if check.evidence == Some(Manual) && !check.manualAllowed {
              mark := Uncertain;
            } else if check.actual == check.expected {
              mark := Pass;
            } else {
              mark := Fail;
            }
          }
          checks := checks[i := check.(mark := mark)];
          marks := marks + [mark];
        }
      }
      assert judged[..|judged|] == judged;
      MarksAreMarked(judged, a);
    }

    /** The second loop of AuditEvaluate: any FAIL decides, else any UNCERTAIN. */
    method Overall(marks: seq<Mark>, stale: bool) returns (overall: Mark)
      ensures overall == if stale || marks == [] then Uncertain
                         else if Fail in marks then Fail
                         else if Uncertain in marks then Uncertain
                         else Pass
    {
      overall := Uncertain;
      if !stale && |marks| > 0 {
        overall := Pass;
        for i := 0 to |marks|
          invariant Fail !in marks[..i]
          invariant overall == if Uncertain in marks[..i] then Uncertain else Pass
        {
          if marks[i] == Fail {
            overall := Fail;
            break;
          }
          if marks[i] == Uncertain {
            overall := Uncertain;
          }
        }
      }
    }

    method AuditEvaluate(a: nat) returns (r: Reply)
      requires Consistent(Tables())
      modifies this`audits, this`checks, this`checkpoints
      ensures (Tables(), r) == EvaluateAudit(old(Tables()), a)
    {
      hide NoteCheckpoint, Chained, JudgedChecks, Consistent;
      assert Chained(checkpoints) && (a < |audits| ==> audits[a].task < |tasks|) by {
        ConsistentMeans(Tables());
      }
      if a >= |audits| {
        return Refused(WorkNotFound);
      }
      var audit := audits[a];
      var marks := JudgeChecks(a);
      var stale := audit.revision != tasks[audit.task].revision;
      var overall := Overall(marks, stale);
      MarksGiveVerdict(checks, a, marks, stale);
      hide Verdict, AnyMarked;
      var completed := overall == Pass || overall == Fail;
      audits := audits[a := audit.(mark := overall, completed := completed)];
      if completed {
        var noted := CheckpointCreateDB(audit.task, [], "", Some(a), "audit.complete");
        if noted.Refused? {
          return noted;
        }
      }
      return Accepted;
    }

    // ---------- Artifacts ----------

    method ArtifactRegister(name: string, path: string, kind: string, owner: Option<nat>, project: Option<nat>,
                            choice: VerificationChoice, reference: string, metadata: string, now: nat)
      returns (r: Reply)
      modifies this`tasks, this`artifacts
      ensures (Tables(), r) ==
              RegisterArtifact(old(Tables()), name, path, kind, owner, project, choice, reference, metadata, now)
    {
      hide TrimSpace;
      if TrimSpace(name) == "" || TrimSpace(path) == "" || choice.UnknownVerification? {
        return Refused(InvalidWorkInput);
      }
      var verification := if choice.Unstated? then Declared else choice.status;
      if (verification == Verified && reference == "") || |metadata| > MAX_FIELD {
        return Refused(InvalidWorkInput);
      }
      var place := project;
      if owner.Some? {
        if owner.value >= |tasks| {
          return Refused(WorkNotFound);
        }
        if project.None? {
          place := tasks[owner.value].fields.project;
        }
      }
      if place.Some? && place.value >= projects {
        return Refused(WorkNotFound);
      }
      r := Created(|artifacts|);
      var stored := if kind == "" then "other" else kind;
      artifacts := artifacts + [Artifact(owner, place, TrimSpace(name), stored, path, Draft, verification, reference,
                                         now)];
      if owner.Some? {
        var ok := TouchTaskRevision(owner.value);
        assert ok;
      }
    }

    method ArtifactState(k: nat, archive: bool, now: nat) returns (r: Reply)
      requires Consistent(Tables())
      modifies this`tasks, this`artifacts, this`checkpoints
      ensures (Tables(), r) == MoveArtifact(old(Tables()), k, archive, now)
    {
      hide NoteCheckpoint, Chained;
      if k >= |artifacts| {
        return Refused(WorkNotFound);
      }
      var row := artifacts[k];
      var legal := row.status.Draft? || (row.status.Final? && archive);
      if !legal {
        return Refused(InvalidArtifactTransition);
      }
      artifacts := artifacts[k := row.(status := if archive then Archived else Final, updated := now)];
      if row.task.Some? {
        var ok := TouchTaskRevision(row.task.value);
        assert ok;
        if !archive {
          var noted := CheckpointCreateDB(row.task.value, [], "", None, "artifact.finalized");
          if noted.Refused? {
            return noted;
          }
        }
      }
      return Accepted;
    }
  }

  /** The marks of an audit's checks, in order. */
  function MarksOf(checks: seq<Check>, a: nat): seq<Mark> {
    if checks == [] then []
    else
      var n := |checks| - 1;
      MarksOf(checks[..n], a) + if checks[n].audit == a then [checks[n].mark] else []
  }

  lemma {:induction false} MarksAreMarked(checks: seq<Check>, a: nat)
    ensures forall m :: m in MarksOf(checks, a) <==> AnyMarked(checks, a, m)
  {
    if checks != [] {
      var n := |checks| - 1;
      MarksAreMarked(checks[..n], a);
      forall m ensures m in MarksOf(checks, a) <==> AnyMarked(checks, a, m) {
        assert AnyMarked(checks[..n], a, m) ==>
               exists k :: 0 <= k < n && checks[..n][k] == checks[k] && checks[k].audit == a && checks[k].mark == m;
        assert AnyMarked(checks, a, m) && !(checks[n].audit == a && checks[n].mark == m) ==>
               AnyMarked(checks[..n], a, m);
      }
    }
  }

  lemma ConsistentMeans(s: State)
    requires Consistent(s)
    ensures Chained(s.checkpoints)
    ensures forall a :: 0 <= a < |s.audits| ==> s.audits[a].task < |s.tasks|
  {}

  lemma {:induction false} AcceptedNoFurther(checks: seq<NewCheck>, i: nat)
    requires i < |checks| && AcceptedChecks(checks[..i]) == i && !Acceptable(checks[i])
    ensures AcceptedChecks(checks) == i
    decreases |checks|
  {
    hide Acceptable;
    var n := |checks| - 1;
    assert checks[..n][..i] == checks[..i];
    if i < n {
      AcceptedNoFurther(checks[..n], i);
    }
  }

  /** The marks collected from the checks of an audit decide its verdict. */
  lemma MarksGiveVerdict(checks: seq<Check>, a: nat, marks: seq<Mark>, stale: bool)
    requires forall m :: m in marks <==> AnyMarked(checks, a, m)
    ensures Verdict(checks, a, stale) ==
            if stale || marks == [] then Uncertain
            else if Fail in marks then Fail
            else if Uncertain in marks then Uncertain
            else Pass
  {
    hide AnyMarked;
    if marks != [] {
      assert marks[0] in marks;
      assert marks[0] == Pass || marks[0] == Fail || marks[0] == Uncertain;
    }
  }
}
