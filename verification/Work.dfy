/**
 The Work Runtime tables and what each Work operation does to them, as functions on values:
 work/tasks.go, work/audits.go, work/checkpoints.go, work/artifacts.go, work/db.go.
 A row's id is its place in its table. JSON columns hold the encoded text where only its length
 matters, and the value where it is compared.
 */
module Work {
  import opened Text
  import opened Json
  import opened Checkpoints
  import opened Query

  const MAX_FIELD := 20_000

  // ---------- Tables ----------

  datatype TaskStatus = Pending | Running | Blocked | Auditing | Done | Failed | Cancelled

  datatype StepStatus = Todo | Doing | Blocked | Done | Failed | Skipped

  datatype Mark = Pass | Fail | Uncertain

  datatype Evidence = VerifiedStructured | Manual | ExternalReference

  datatype ArtifactStatus = Draft | Final | Archived

  datatype Verification = Declared | Verified | Stale

  /** The columns task.update may set. */
  datatype Fields = Fields(
    project: Option<nat>, title: string, description: string, priority: string, auditRequired: bool, metadata: string)

  datatype Task = Task(fields: Fields, status: TaskStatus, current: Option<nat>, revision: nat, completed: bool)

  datatype Step = Step(
    task: nat, position: int, title: string, description: string, status: StepStatus, blocker: Option<string>,
    completed: bool)

  /** `revision` is the task revision the audit was created for; `created` is its timestamp. */
  datatype Audit = Audit(task: nat, mark: Mark, revision: nat, created: nat, completed: bool)

  /** No evidence, whether NULL or a recorded null, is Null. */
  datatype Check = Check(
    audit: nat, name: string, expected: Json, actual: Json, evidence: Option<Evidence>, manualAllowed: bool, mark: Mark)

  datatype Artifact = Artifact(
    task: Option<nat>, project: Option<nat>, name: string, kind: string, path: string, status: ArtifactStatus,
    verification: Verification, evidence: string, updated: nat)

  /** What a checkpoint of the Work Runtime remembers; a next action that is not given is empty. */
  datatype Snapshot = Snapshot(
    current: Option<nat>, status: TaskStatus, revision: nat,
    completed: seq<nat>, pending: seq<nat>, blocked: seq<nat>,
    remarks: seq<string>, next: string, audit: Option<nat>, event: string)

  datatype State = State(
    projects: nat, tasks: seq<Task>, steps: seq<Step>, audits: seq<Audit>, checks: seq<Check>,
    artifacts: seq<Artifact>, checkpoints: seq<Checkpoint<Snapshot>>)

  const NOTHING := State(0, [], [], [], [], [], [])

  /** The foreign keys of work/db.go, and the checkpoint chain. */
  ghost predicate Consistent(s: State) {
    && (forall i :: 0 <= i < |s.steps| ==> s.steps[i].task < |s.tasks|)
    && (forall i :: 0 <= i < |s.audits| ==> s.audits[i].task < |s.tasks|)
    && (forall i :: 0 <= i < |s.checks| ==> s.checks[i].audit < |s.audits|)
    && (forall i :: 0 <= i < |s.artifacts| && s.artifacts[i].task.Some? ==> s.artifacts[i].task.value < |s.tasks|)
    && Chained(s.checkpoints)
  }

  // ---------- Operations ----------

  /** A JSON value and the length of its encoding. */
  datatype Encoded = Encoded(value: Json, length: nat)

  datatype NewCheck = NewCheck(name: string, expected: Encoded, manualAllowed: bool)

  /** `other` says that a key outside the allowed ones is present. */
  datatype TaskChanges = TaskChanges(
    project: Option<Option<nat>>, title: Option<string>, description: Option<string>, priority: Option<string>,
    auditRequired: Option<bool>, metadata: Option<string>, other: bool)

  /** An unknown status is Some(None). */
  datatype StepChanges = StepChanges(
    title: Option<string>, description: Option<string>, status: Option<Option<StepStatus>>,
    blocker: Option<Option<string>>, position: Option<int>, other: bool)

  datatype VerificationChoice = Unstated | Stated(status: Verification) | UnknownVerification

  datatype Op =
    | ProjectCreate
    | TaskCreate(fields: Fields)
    | TaskUpdate(task: nat, taskChanges: TaskChanges)
    | TaskTransition(task: nat, target: Option<TaskStatus>)
    | StepAdd(task: nat, title: string, description: string, position: Option<int>)
    | StepUpdate(step: nat, stepChanges: StepChanges)
    | CheckpointCreate(task: nat, remarks: seq<string>, next: string, about: Option<nat>, event: string)
    | AuditCreate(task: nat, checks: seq<NewCheck>, now: nat)
    | AuditRecord(audit: nat, check: nat, actual: Encoded, evidence: Option<Evidence>)
    | AuditEvaluate(audit: nat)
    | ArtifactRegister(name: string, path: string, kind: string, owner: Option<nat>, project: Option<nat>,
                       choice: VerificationChoice, reference: string, metadata: string, now: nat)
    | ArtifactMove(artifact: nat, archive: bool, now: nat)

  datatype Error =
    | InvalidWorkInput | WorkNotFound | InvalidTaskTransition | AuditGateBlocked | InvalidArtifactTransition
    | ConstraintViolated

  datatype Reply = Accepted | Created(id: nat) | Refused(error: Error)

  function Touched(s: State, t: nat): State
    requires t < |s.tasks|
  {
    s.(tasks := s.tasks[t := s.tasks[t].(revision := s.tasks[t].revision + 1)])
  }

  // ---------- Tasks ----------

  predicate Known(s: State, project: Option<nat>) {
    project.Some? ==> project.value < s.projects
  }

  function CreateTask(s: State, f: Fields): (State, Reply) {
    if TrimSpace(f.title) == "" || |f.metadata| > MAX_FIELD then (s, Refused(InvalidWorkInput))
    else if !Known(s, f.project) then (s, Refused(WorkNotFound))
    else
      var stored := f.(title := TrimSpace(f.title), priority := if f.priority == "" then "normal" else f.priority);
      (s.(tasks := s.tasks + [Task(stored, TaskStatus.Pending, None, 1, false)]), Created(|s.tasks|))
  }

  function Or<T>(change: Option<T>, kept: T): T {
    if change.Some? then change.value else kept
  }

  function ChangedFields(f: Fields, c: TaskChanges): Fields {
    Fields(Or(c.project, f.project), Or(c.title, f.title), Or(c.description, f.description),
           Or(c.priority, f.priority), Or(c.auditRequired, f.auditRequired), Or(c.metadata, f.metadata))
  }

  const NO_TASK_CHANGES := TaskChanges(None, None, None, None, None, None, false)

  function UpdateTask(s: State, t: nat, c: TaskChanges): (State, Reply) {
    if c == NO_TASK_CHANGES then (s, if t < |s.tasks| then Accepted else Refused(WorkNotFound))
    else if c.other || (c.metadata.Some? && |c.metadata.value| > MAX_FIELD) then (s, Refused(InvalidWorkInput))
    else if t >= |s.tasks| then (s, Refused(WorkNotFound))
    else if c.project.Some? && !Known(s, c.project.value) then (s, Refused(ConstraintViolated))
    else
      var task := s.tasks[t];
      (s.(tasks := s.tasks[t := task.(fields := ChangedFields(task.fields, c), revision := task.revision + 1)]),
       Accepted)
  }

  predicate MayMove(from: TaskStatus, to: TaskStatus) {
    match from
    case Pending => to.Running? || to.Cancelled?
    case Running => to.Blocked? || to.Auditing? || to.Failed? || to.Cancelled?
    case Blocked => to.Running? || to.Cancelled?
    case Auditing => to.Done? || to.Running? || to.Blocked?
    case _ => false
  }

  /** ORDER BY created_at DESC, rowid DESC LIMIT 1. */
  function LatestAudit(audits: seq<Audit>, t: nat): (id: Option<nat>)
    ensures id.Some? ==> id.value < |audits| && audits[id.value].task == t
  {
    if audits == [] then None
    else
      var n := |audits| - 1;
      var before := LatestAudit(audits[..n], t);
      if audits[n].task == t && (before.None? || audits[n].created >= audits[before.value].created)
      then Some(n) else before
  }

  predicate GateOpen(s: State, t: nat)
    requires t < |s.tasks|
  {
    var latest := LatestAudit(s.audits, t);
    s.tasks[t].fields.auditRequired ==>
      && latest.Some?
      && s.audits[latest.value].mark == Pass
      && s.audits[latest.value].revision == s.tasks[t].revision
  }

  function MoveTask(s: State, t: nat, target: Option<TaskStatus>): (State, Reply) {
    if target.None? then (s, Refused(InvalidWorkInput))
    else if t >= |s.tasks| then (s, Refused(WorkNotFound))
    else if !MayMove(s.tasks[t].status, target.value) then (s, Refused(InvalidTaskTransition))
    else if target.value.Done? && !GateOpen(s, t) then (s, Refused(AuditGateBlocked))
    else
      (s.(tasks := s.tasks[t := s.tasks[t].(status := target.value, completed := target.value.Done?)]), Accepted)
  }

  // ---------- Steps ----------

  function Belongs(steps: seq<Step>, t: nat): nat -> bool {
    (i: nat) => i < |steps| && steps[i].task == t
  }

  function ByPosition(steps: seq<Step>): (nat, nat) -> bool {
    (i: nat, j: nat) => i < |steps| && j < |steps| && steps[i].position < steps[j].position
  }

  /** SELECT ... FROM task_steps WHERE task_id = ? ORDER BY position. */
  function StepOrder(steps: seq<Step>, t: nat): seq<nat> {
    OrderBy(|steps|, Belongs(steps, t), ByPosition(steps))
  }

  /** COALESCE(MAX(position), 0). */
  function LastPosition(steps: seq<Step>, t: nat): int {
    if steps == [] then 0
    else
      var n := |steps| - 1;
      var before := LastPosition(steps[..n], t);
      if steps[n].task == t && steps[n].position > before then steps[n].position else before
  }

  /** CHECK(position >= 1) and UNIQUE(task_id, position), for a row that replaces `self` or is new. */
  predicate PositionFree(steps: seq<Step>, t: nat, position: int, self: nat) {
    && position >= 1
    && forall k :: 0 <= k < |steps| && k != self && steps[k].task == t ==> steps[k].position != position
  }

  function AddStep(s: State, t: nat, title: string, description: string, position: Option<int>): (State, Reply) {
    if TrimSpace(title) == "" then (s, Refused(InvalidWorkInput))
    else if t >= |s.tasks| then (s, Refused(WorkNotFound))
    else
      var place := if position.None? then LastPosition(s.steps, t) + 1 else position.value;
      if !PositionFree(s.steps, t, place, |s.steps|) then (s, Refused(InvalidWorkInput))
      else
        var step := Step(t, place, TrimSpace(title), description, StepStatus.Todo, None, false);
        (Touched(s.(steps := s.steps + [step]), t), Created(|s.steps|))
  }

  const NO_STEP_CHANGES := StepChanges(None, None, None, None, None, false)

  function ChangedStep(step: Step, c: StepChanges): Step
    requires c.status.Some? ==> c.status.value.Some?
  {
    var status := if c.status.Some? then c.status.value.value else step.status;
    Step(step.task, Or(c.position, step.position), Or(c.title, step.title), Or(c.description, step.description),
         status, Or(c.blocker, step.blocker), status.Done? || status.Failed? || status.Skipped?)
  }

  function UpdateStep(s: State, k: nat, c: StepChanges): (State, Reply)
    requires Consistent(s)
  {
    if k >= |s.steps| then (s, Refused(WorkNotFound))
    else if c == NO_STEP_CHANGES then (s, Accepted)
    else if c.other || c.status == Some(None) then (s, Refused(InvalidWorkInput))
    else
      var step := ChangedStep(s.steps[k], c);
      if !PositionFree(s.steps, step.task, step.position, k) then (s, Refused(InvalidWorkInput))
      else
        var touched := Touched(s.(steps := s.steps[k := step]), step.task);
        if step.status.Doing? then
          (touched.(tasks := touched.tasks[step.task := touched.tasks[step.task].(current := Some(k))]), Accepted)
        else if step.status.Done? then
          var (noted, reply) := NoteCheckpoint(touched, step.task, [], "", None, "step.complete");
          (noted, if reply.Created? then Accepted else reply)
        else (touched, Accepted)
  }

  // ---------- Checkpoints ----------

  predicate Settled(status: StepStatus) {
    status.Done? || status.Skipped?
  }

  predicate Ahead(status: StepStatus) {
    status.Todo? || status.Doing?
  }

  predicate Stopped(status: StepStatus) {
    status.Blocked?
  }

  function OfKind(steps: seq<Step>, kind: StepStatus -> bool): nat -> bool {
    (i: nat) => i < |steps| && kind(steps[i].status)
  }

  /** The ids among `ids` whose step has a status of the given kind, in the same order. */
  function Having(steps: seq<Step>, ids: seq<nat>, kind: StepStatus -> bool): seq<nat> {
    Select(ids, OfKind(steps, kind))
  }

  /** The length of the JSON array of n step ids, each "stp_" and 20 hexadecimal digits. */
  function IdListLength(n: nat): nat {
    if n == 0 then 2 else 27 * n + 1
  }

  /** How many steps of the task have a status of the given kind; step i belongs to tasks[i]. */
  function Tally(tasks: seq<nat>, statuses: seq<StepStatus>, t: nat, kind: StepStatus -> bool): nat {
    if statuses == [] then 0
    else
      var n := |statuses| - 1;
      Tally(tasks, statuses[..n], t, kind) + if n < |tasks| && tasks[n] == t && kind(statuses[n]) then 1 else 0
  }

  /** The three step columns of a checkpoint of the task are within their bound. */
  predicate Fits(tasks: seq<nat>, statuses: seq<StepStatus>, t: nat) {
    && IdListLength(Tally(tasks, statuses, t, Settled)) <= MAX_FIELD
    && IdListLength(Tally(tasks, statuses, t, Ahead)) <= MAX_FIELD
    && IdListLength(Tally(tasks, statuses, t, Stopped)) <= MAX_FIELD
  }

  function SnapshotOf(s: State, t: nat, remarks: seq<string>, next: string, audit: Option<nat>, event: string): Snapshot
    requires t < |s.tasks|
  {
    var task, order := s.tasks[t], StepOrder(s.steps, t);
    Snapshot(task.current, task.status, task.revision,
             Having(s.steps, order, Settled), Having(s.steps, order, Ahead), Having(s.steps, order, Stopped),
             remarks, next, audit, event)
  }

  /** Every JSON column fits. */
  predicate Storable(snap: Snapshot) {
    && IdListLength(|snap.completed|) <= MAX_FIELD
    && IdListLength(|snap.pending|) <= MAX_FIELD
    && IdListLength(|snap.blocked|) <= MAX_FIELD
    && forall i :: 0 <= i < |snap.remarks| ==> |snap.remarks[i]| <= MAX_FIELD
  }

  function NoteCheckpoint(s: State, t: nat, remarks: seq<string>, next: string, audit: Option<nat>,
                          event: string): (State, Reply) {
    if t >= |s.tasks| then (s, Refused(WorkNotFound))
    else
      var snap := SnapshotOf(s, t, remarks, next, audit, event);
      if !Storable(snap) then (s, Refused(InvalidWorkInput))
      else
        var row := Successor(s.checkpoints, t, Latest(s.checkpoints, t), snap);
        (s.(checkpoints := s.checkpoints + [row]), Created(|s.checkpoints|))
  }

  // ---------- Audits ----------

  predicate Acceptable(c: NewCheck) {
    TrimSpace(c.name) != "" && c.expected.length <= MAX_FIELD
  }

  /** How many of the checks are stored before one is refused. */
  function AcceptedChecks(checks: seq<NewCheck>): (n: nat)
    ensures n <= |checks|
  {
    if checks == [] then 0
    else
      var n := AcceptedChecks(checks[..|checks| - 1]);
      if n == |checks| - 1 && Acceptable(checks[n]) then n + 1 else n
  }

  function CheckRow(audit: nat, c: NewCheck): Check {
    Check(audit, TrimSpace(c.name), c.expected.value, Null, None, c.manualAllowed, Uncertain)
  }

  function CheckRows(audit: nat, checks: seq<NewCheck>): seq<Check> {
    seq(|checks|, i requires 0 <= i < |checks| => CheckRow(audit, checks[i]))
  }

  /** A refused check leaves the audit and the checks before it in place. */
  function CreateAudit(s: State, t: nat, checks: seq<NewCheck>, now: nat): (State, Reply) {
    if t >= |s.tasks| then (s, Refused(WorkNotFound))
    else
      var n := AcceptedChecks(checks);
      (s.(audits := s.audits + [Audit(t, Uncertain, s.tasks[t].revision, now, false)],
          checks := s.checks + CheckRows(|s.audits|, checks[..n])),
       if n == |checks| then Created(|s.audits|) else Refused(InvalidWorkInput))
  }

  function RecordCheck(s: State, audit: nat, k: nat, actual: Encoded, evidence: Option<Evidence>): (State, Reply) {
    if evidence.None? then (s, Refused(InvalidWorkInput))
    else if k >= |s.checks| || s.checks[k].audit != audit then (s, Refused(WorkNotFound))
    else if actual.length > MAX_FIELD then (s, Refused(InvalidWorkInput))
    else
      (s.(checks := s.checks[k := s.checks[k].(actual := actual.value, evidence := evidence, mark := Uncertain)]),
       Accepted)
  }

  function Judged(c: Check): Mark {
    if c.actual.Null? || (c.evidence == Some(Manual) && !c.manualAllowed) then Uncertain
    else if c.actual == c.expected then Pass
    else Fail
  }

  function JudgedChecks(checks: seq<Check>, audit: nat): seq<Check> {
    seq(|checks|, i requires 0 <= i < |checks| =>
      if checks[i].audit == audit then checks[i].(mark := Judged(checks[i])) else checks[i])
  }

  predicate AnyMarked(checks: seq<Check>, audit: nat, mark: Mark) {
    exists i :: 0 <= i < |checks| && checks[i].audit == audit && checks[i].mark == mark
  }

  /** The verdict on an audit whose checks have just been judged. */
  function Verdict(checks: seq<Check>, audit: nat, stale: bool): Mark {
    if stale then Uncertain
    else if AnyMarked(checks, audit, Fail) then Fail
    else if AnyMarked(checks, audit, Uncertain) then Uncertain
    else if AnyMarked(checks, audit, Pass) then Pass
    else Uncertain
  }

  function EvaluateAudit(s: State, a: nat): (State, Reply)
    requires Consistent(s)
  {
    if a >= |s.audits| then (s, Refused(WorkNotFound))
    else
      var audit := s.audits[a];
      var checks := JudgedChecks(s.checks, a);
      var mark := Verdict(checks, a, audit.revision != s.tasks[audit.task].revision);
      var after := s.(checks := checks, audits := s.audits[a := audit.(mark := mark, completed := mark != Uncertain)]);
      if mark == Uncertain then (after, Accepted)
      else
        var (noted, reply) := NoteCheckpoint(after, audit.task, [], "", Some(a), "audit.complete");
        (noted, if reply.Created? then Accepted else reply)
  }

  // ---------- Artifacts ----------

  function RegisterArtifact(s: State, name: string, path: string, kind: string, owner: Option<nat>,
                            project: Option<nat>, choice: VerificationChoice, reference: string, metadata: string,
                            now: nat)
    : (State, Reply)
  {
    if TrimSpace(name) == "" || TrimSpace(path) == "" || choice.UnknownVerification?
       || (choice == Stated(Verified) && reference == "") || |metadata| > MAX_FIELD
    then (s, Refused(InvalidWorkInput))
    else if owner.Some? && owner.value >= |s.tasks| then (s, Refused(WorkNotFound))
    else
      var place := if project.None? && owner.Some? then s.tasks[owner.value].fields.project else project;
      if !Known(s, place) then (s, Refused(WorkNotFound))
      else
        var row := Artifact(owner, place, TrimSpace(name), if kind == "" then "other" else kind, path, Draft,
                            if choice.Unstated? then Declared else choice.status, reference, now);
        var added := s.(artifacts := s.artifacts + [row]);
        (if owner.Some? then Touched(added, owner.value) else added, Created(|s.artifacts|))
  }

  function MoveArtifact(s: State, k: nat, archive: bool, now: nat): (State, Reply)
    requires Consistent(s)
  {
    if k >= |s.artifacts| then (s, Refused(WorkNotFound))
    else
      var row := s.artifacts[k];
      if !(row.status.Draft? || (row.status.Final? && archive)) then (s, Refused(InvalidArtifactTransition))
      else
        var moved := s.(artifacts := s.artifacts[k := row.(status := if archive then Archived
                                                           else Final, updated := now)]);
        if row.task.None? then (moved, Accepted)
        else if archive then (Touched(moved, row.task.value), Accepted)
        else
          var (noted, reply) := NoteCheckpoint(Touched(moved, row.task.value), row.task.value, [], "", None,
                                               "artifact.finalized");
          (noted, if reply.Created? then Accepted else reply)
  }

  // ---------- One operation ----------

  function Apply(s: State, op: Op): (State, Reply)
    requires Consistent(s)
  {
    match op
    case ProjectCreate => (s.(projects := s.projects + 1), Created(s.projects))
    case TaskCreate(fields) => CreateTask(s, fields)
    case TaskUpdate(task, changes) => UpdateTask(s, task, changes)
    case TaskTransition(task, target) => MoveTask(s, task, target)
    case StepAdd(task, title, description, position) => AddStep(s, task, title, description, position)
    case StepUpdate(step, changes) => UpdateStep(s, step, changes)
    case CheckpointCreate(task, remarks, next, about, event) => NoteCheckpoint(s, task, remarks, next, about, event)
    case AuditCreate(task, checks, now) => CreateAudit(s, task, checks, now)
    case AuditRecord(audit, check, actual, evidence) => RecordCheck(s, audit, check, actual, evidence)
    case AuditEvaluate(audit) => EvaluateAudit(s, audit)
    case ArtifactRegister(name, path, kind, owner, project, choice, reference, metadata, now) =>
      RegisterArtifact(s, name, path, kind, owner, project, choice, reference, metadata, now)
    case ArtifactMove(artifact, archive, now) => MoveArtifact(s, artifact, archive, now)
  }
}
