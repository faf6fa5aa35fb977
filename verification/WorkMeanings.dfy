/**
 What each Work operation does, told by the rows before and after: the columns it sets, the rows it leaves,
 and when it refuses.
 */
module WorkMeanings {
  import opened Text
  import opened Json
  import opened Checkpoints
  import opened Query
  import opened Work
  import opened WorkRuns
  import opened WorkLimits

  // ---------- Frames ----------

  /** At most row t of the tasks differs. */
  predicate OnlyTask(s: State, s': State, t: nat) {
    && |s'.tasks| == |s.tasks| && t < |s.tasks|
    && (forall k :: 0 <= k < |s.tasks| && k != t ==> s'.tasks[k] == s.tasks[k])
  }

  /** Steps, audits, checks, artifacts, projects and checkpoints are as they were. */
  predicate OtherTablesSame(s: State, s': State) {
    s' == s.(tasks := s'.tasks)
  }

  // ---------- Tasks ----------

  /** A created task is pending, at revision 1, without a current step, under the trimmed title. */
  lemma CreatedTask(s: State, f: Fields)
    requires Consistent(s)
    ensures var (s', reply) := Apply(s, TaskCreate(f));
            if TrimSpace(f.title) == "" || |f.metadata| > 20_000 then s' == s && reply == Refused(InvalidWorkInput)
            else if f.project.Some? && f.project.value >= s.projects then s' == s && reply == Refused(WorkNotFound)
            else
              && reply == Created(|s.tasks|) && OtherTablesSame(s, s')
              && |s'.tasks| == |s.tasks| + 1 && s'.tasks[..|s.tasks|] == s.tasks
              && var row := s'.tasks[|s.tasks|];
                 && row.status.Pending? && row.current.None? && row.revision == 1 && !row.completed
                 && row.fields.title == TrimSpace(f.title) && row.fields.description == f.description
                 && row.fields.priority == (if f.priority == "" then "normal" else f.priority)
                 && row.fields.project == f.project && row.fields.auditRequired == f.auditRequired
                 && row.fields.metadata == f.metadata
  {
    hide TrimSpace;
  }

  /** The change sets this column, or leaves it. */
  predicate Sets<T(==)>(change: Option<T>, before: T, after: T) {
    after == if change.Some? then change.value else before
  }

  /** An update sets the columns given and no other, and raises the revision by one. */
  lemma UpdatedTask(s: State, t: nat, c: TaskChanges)
    requires Consistent(s)
    ensures var (s', reply) := Apply(s, TaskUpdate(t, c));
            match reply
            case Refused(error) => s' == s
            case Created(_) => false
            case Accepted =>
              t < |s.tasks| &&
              if s' == s then
                c.title.None? && c.description.None? && c.priority.None? && c.project.None? && c.auditRequired.None?
                && c.metadata.None?
              else
                && OtherTablesSame(s, s') && OnlyTask(s, s', t)
                && var before, after := s.tasks[t], s'.tasks[t];
                   && Sets(c.title, before.fields.title, after.fields.title)
                   && Sets(c.description, before.fields.description, after.fields.description)
                   && Sets(c.priority, before.fields.priority, after.fields.priority)
                   && Sets(c.project, before.fields.project, after.fields.project)
                   && Sets(c.auditRequired, before.fields.auditRequired, after.fields.auditRequired)
                   && Sets(c.metadata, before.fields.metadata, after.fields.metadata)
                   && after.revision == before.revision + 1 && after.status == before.status
                   && after.current == before.current && after.completed == before.completed
  {}

  /** An update is refused exactly for these reasons. */
  lemma UpdateRefusedExactly(s: State, t: nat, c: TaskChanges)
    requires Consistent(s)
    ensures var reply := Apply(s, TaskUpdate(t, c)).1;
            var badInput := c.other || (c.metadata.Some? && |c.metadata.value| > 20_000);
            && (reply == Refused(InvalidWorkInput) <==> badInput)
            && (reply == Refused(WorkNotFound) <==> !badInput && t >= |s.tasks|)
            && (reply == Refused(ConstraintViolated) <==>
                !badInput && t < |s.tasks|
                && c.project.Some? && c.project.value.Some? && c.project.value.value >= s.projects)
            && (reply == Refused(WorkNotFound) || reply == Refused(InvalidWorkInput)
                || reply == Refused(ConstraintViolated) || reply == Accepted)
  {}

  /** The moves there are between statuses. */
  const MOVES: set<(TaskStatus, TaskStatus)> := {
    (TaskStatus.Pending, TaskStatus.Running), (TaskStatus.Pending, TaskStatus.Cancelled),
    (TaskStatus.Running, TaskStatus.Blocked), (TaskStatus.Running, TaskStatus.Auditing),
    (TaskStatus.Running, TaskStatus.Failed), (TaskStatus.Running, TaskStatus.Cancelled),
    (TaskStatus.Blocked, TaskStatus.Running), (TaskStatus.Blocked, TaskStatus.Cancelled),
    (TaskStatus.Auditing, TaskStatus.Done), (TaskStatus.Auditing, TaskStatus.Running),
    (TaskStatus.Auditing, TaskStatus.Blocked)}

  lemma MovesAreThese(from: TaskStatus, to: TaskStatus)
    ensures MayMove(from, to) <==> (from, to) in MOVES
  {}

  /** A move changes the status and whether the task is completed, and neither revision nor anything else. */
  lemma MovedTask(s: State, t: nat, to: TaskStatus)
    requires Consistent(s) && t < |s.tasks|
    ensures var (s', reply) := Apply(s, TaskTransition(t, Some(to)));
            && (!reply.Refused? <==>
                (s.tasks[t].status, to) in MOVES
                && (to.Done? && s.tasks[t].fields.auditRequired ==> exists a: nat :: GateAudit(s, t, a)))
            && (reply.Refused? ==> s' == s)
            && (!reply.Refused? ==>
                  && OtherTablesSame(s, s') && OnlyTask(s, s', t)
                  && s'.tasks[t] == s.tasks[t].(status := to, completed := to == TaskStatus.Done))
  {
    MovesAreThese(s.tasks[t].status, to);
    CompletionExactly(s, t);
    assert Apply(s, TaskTransition(t, Some(TaskStatus.Done))) == MoveTask(s, t, Some(TaskStatus.Done));
    hide Consistent, MayMove, GateOpen, Apply, GateAudit;
  }

  // ---------- Checkpoints ----------

  /** The quoted ids with commas between them. */
  function Listed(ids: seq<string>): string {
    if ids == [] then ""
    else if |ids| == 1 then "\"" + ids[0] + "\""
    else Listed(ids[..|ids| - 1]) + ",\"" + ids[|ids| - 1] + "\""
  }

  /** The bound on a step column is one on the length of its JSON text; an id has 24 characters. */
  lemma {:induction false} IdListText(ids: seq<string>)
    requires forall i :: 0 <= i < |ids| ==> |ids[i]| == 24
    ensures |"[" + Listed(ids) + "]"| == IdListLength(|ids|)
  {
    if |ids| > 1 {
      IdListText(ids[..|ids| - 1]);
    }
  }

  /** The task's steps that have one of these statuses. */
  ghost function StepsAt(steps: seq<Step>, t: nat, statuses: set<StepStatus>): set<nat> {
    set k: nat | 0 <= k < |steps| && steps[k].task == t && steps[k].status in statuses
  }

  ghost function TalliedSteps(tasks: seq<nat>, statuses: seq<StepStatus>, t: nat, kind: StepStatus -> bool): set<nat> {
    set k: nat | 0 <= k < |statuses| && k < |tasks| && tasks[k] == t && kind(statuses[k])
  }

  lemma {:induction false} TallyIsCardinality(tasks: seq<nat>, statuses: seq<StepStatus>, t: nat,
                                              kind: StepStatus -> bool)
    ensures Tally(tasks, statuses, t, kind) == |TalliedSteps(tasks, statuses, t, kind)|
  {
    if statuses == [] {
      assert TalliedSteps(tasks, statuses, t, kind) == {};
    } else {
      var n: nat := |statuses| - 1;
      TallyIsCardinality(tasks, statuses[..n], t, kind);
      var earlier := TalliedSteps(tasks, statuses[..n], t, kind);
      assert TalliedSteps(tasks, statuses, t, kind) ==
             if n < |tasks| && tasks[n] == t && kind(statuses[n]) then earlier + {n} else earlier;
    }
  }

  /** The steps of task t that have one of these statuses; step k belongs to tasks[k]. */
  ghost function RowsAt(tasks: seq<nat>, statuses: seq<StepStatus>, t: nat, among: set<StepStatus>): set<nat> {
    set k: nat | 0 <= k < |statuses| && k < |tasks| && tasks[k] == t && statuses[k] in among
  }

  lemma TallyOfRows(tasks: seq<nat>, statuses: seq<StepStatus>, t: nat, kind: StepStatus -> bool,
                    among: set<StepStatus>)
    requires forall s :: kind(s) <==> s in among
    ensures Tally(tasks, statuses, t, kind) == |RowsAt(tasks, statuses, t, among)|
  {
    TallyIsCardinality(tasks, statuses, t, kind);
    assert TalliedSteps(tasks, statuses, t, kind) == RowsAt(tasks, statuses, t, among);
  }

  /** The three lists fit exactly when each holds at most 740 steps. */
  lemma FitsExactly(tasks: seq<nat>, statuses: seq<StepStatus>, t: nat)
    ensures Fits(tasks, statuses, t) <==>
            && |RowsAt(tasks, statuses, t, {StepStatus.Done, StepStatus.Skipped})| <= 740
            && |RowsAt(tasks, statuses, t, {StepStatus.Todo, StepStatus.Doing})| <= 740
            && |RowsAt(tasks, statuses, t, {StepStatus.Blocked})| <= 740
  {
    TallyOfRows(tasks, statuses, t, Settled, {StepStatus.Done, StepStatus.Skipped});
    TallyOfRows(tasks, statuses, t, Work.Ahead, {StepStatus.Todo, StepStatus.Doing});
    TallyOfRows(tasks, statuses, t, Stopped, {StepStatus.Blocked});
    hide Tally, RowsAt;
  }

  /** The lists of a checkpoint of the task fit exactly when each holds at most 740 of its steps. */
  lemma StepsFitExactly(steps: seq<Step>, t: nat)
    ensures StepsFit(steps, t) <==>
            && |StepsAt(steps, t, {StepStatus.Done, StepStatus.Skipped})| <= 740
            && |StepsAt(steps, t, {StepStatus.Todo, StepStatus.Doing})| <= 740
            && |StepsAt(steps, t, {StepStatus.Blocked})| <= 740
  {
    FitsExactly(TasksOf(steps), StatusesOf(steps), t);
    forall among: set<StepStatus>
      ensures RowsAt(TasksOf(steps), StatusesOf(steps), t, among) == StepsAt(steps, t, among)
    {}
    hide Fits;
  }

  /** The last checkpoint shows the task as it is, follows the task's latest one, and is the only new row. */
  ghost predicate Noted(s: State, s': State, t: nat, event: string, about: Option<nat>) {
    && t < |s'.tasks| && |s'.checkpoints| == |s.checkpoints| + 1 && s.checkpoints == s'.checkpoints[..|s.checkpoints|]
    && var row := s'.checkpoints[|s.checkpoints|];
       && row.task == t && row.payload.event == event && row.payload.audit == about
       && row.payload.current == s'.tasks[t].current && row.payload.status == s'.tasks[t].status
       && row.payload.revision == s'.tasks[t].revision
       && (forall k: nat :: FiledByStatus(s', t, row.payload, k))
  }

  /** The lists of a checkpoint file the task's steps by status, whatever the positions are. */
  lemma StepsAreFiled(s: State, t: nat, remarks: seq<string>, next: string, audit: Option<nat>, event: string)
    requires t < |s.tasks|
    ensures var snap := SnapshotOf(s, t, remarks, next, audit, event);
            forall k: nat :: FiledByStatus(s, t, snap, k)
  {
    var order := StepOrder(s.steps, t);
    OrderBySelects(|s.steps|, Belongs(s.steps, t), ByPosition(s.steps));
    SelectSelects(order, OfKind(s.steps, Settled));
    SelectSelects(order, OfKind(s.steps, Work.Ahead));
    SelectSelects(order, OfKind(s.steps, Stopped));
    hide OrderBy, Select;
  }

  lemma FiledAlike(s: State, s': State, t: nat, snap: Snapshot)
    ensures s.steps == s'.steps ==> forall k: nat :: FiledByStatus(s, t, snap, k) <==> FiledByStatus(s', t, snap, k)
  {}

  /** A checkpoint is written exactly for a task whose lists and remarks fit, and holds what was given. */
  ghost predicate CheckpointIsWritten(s: State, s': State, reply: Reply, t: nat, remarks: seq<string>, next: string,
                                      audit: Option<nat>, event: string) {
    var fits := StepsFit(s.steps, t) && forall i :: 0 <= i < |remarks| ==> |remarks[i]| <= 20_000;
    if t >= |s.tasks| then s' == s && reply == Refused(WorkNotFound)
    else if !fits then s' == s && reply == Refused(InvalidWorkInput)
    else
      && reply == Created(|s.checkpoints|) && s' == s.(checkpoints := s'.checkpoints)
      && Noted(s, s', t, event, audit)
      && s'.checkpoints[|s.checkpoints|].payload.remarks == remarks
      && s'.checkpoints[|s.checkpoints|].payload.next == next
  }

  lemma CreatedCheckpoint(s: State, t: nat, remarks: seq<string>, next: string, audit: Option<nat>, event: string)
    requires Consistent(s)
    ensures var (s', reply) := Apply(s, CheckpointCreate(t, remarks, next, audit, event));
            CheckpointIsWritten(s, s', reply, t, remarks, next, audit, event)
  {
    NotedCheckpoint(s, t, remarks, next, audit, event);
    hide CheckpointIsWritten, NoteCheckpoint, Consistent;
  }

  lemma NotedCheckpoint(s: State, t: nat, remarks: seq<string>, next: string, audit: Option<nat>, event: string)
    ensures var (s', reply) := NoteCheckpoint(s, t, remarks, next, audit, event);
            CheckpointIsWritten(s, s', reply, t, remarks, next, audit, event)
  {
    if t < |s.tasks| {
      StorableMeansFits(s, t, remarks, next, audit, event);
      StepsAreFiled(s, t, remarks, next, audit, event);
      FiledAlike(s, NoteCheckpoint(s, t, remarks, next, audit, event).0, t,
                 SnapshotOf(s, t, remarks, next, audit, event));
      hide Storable, Having, StepOrder, StepsFit, Latest, FiledByStatus;
    }
  }

  // ---------- Steps ----------

  /** The place for a next step is 1, or one after a step of the task that no other is behind. */
  lemma {:induction false} LastPositionIsTheLast(steps: seq<Step>, t: nat)
    ensures var last := LastPosition(steps, t);
            && last >= 0 && (forall k :: 0 <= k < |steps| && steps[k].task == t ==> steps[k].position <= last)
            && (last > 0 ==> exists k :: 0 <= k < |steps| && steps[k].task == t && steps[k].position == last)
  {
    if steps != [] {
      var n := |steps| - 1;
      LastPositionIsTheLast(steps[..n], t);
      var last := LastPosition(steps[..n], t);
      if last > 0 {
        var k :| 0 <= k < n && steps[..n][k].task == t && steps[..n][k].position == last;
        assert steps[k].task == t && steps[k].position == last;
      }
      forall k | 0 <= k < n && steps[k].task == t ensures steps[k].position <= last {
        assert steps[..n][k] == steps[k];
      }
    }
  }

  ghost predicate Taken(steps: seq<Step>, t: nat, position: int) {
    exists k :: 0 <= k < |steps| && steps[k].task == t && steps[k].position == position
  }

  /** Right behind every step of the task, without a gap. */
  ghost predicate NextPlace(steps: seq<Step>, t: nat, place: int) {
    && place >= 1 && (place == 1 || Taken(steps, t, place - 1))
    && forall k :: 0 <= k < |steps| && steps[k].task == t ==> steps[k].position < place
  }

  /** A step is added at the free place asked for, or behind the others, and the revision goes up by one. */
  lemma AddedStep(s: State, t: nat, title: string, description: string, position: Option<int>)
    requires Consistent(s)
    ensures var (s', reply) := Apply(s, StepAdd(t, title, description, position));
            if TrimSpace(title) == "" then s' == s && reply == Refused(InvalidWorkInput)
            else if t >= |s.tasks| then s' == s && reply == Refused(WorkNotFound)
            else if position.Some? && (position.value < 1 || Taken(s.steps, t, position.value)) then
              s' == s && reply == Refused(InvalidWorkInput)
            else
              && reply == Created(|s.steps|)
              && |s'.steps| == |s.steps| + 1 && s'.steps[..|s.steps|] == s.steps
              && OnlyTask(s, s', t) && s'.tasks[t] == s.tasks[t].(revision := s.tasks[t].revision + 1)
              && s' == s.(tasks := s'.tasks, steps := s'.steps)
              && var row := s'.steps[|s.steps|];
                 && row == Step(t, row.position, TrimSpace(title), description, StepStatus.Todo, None, false)
                 && (position.Some? ==> row.position == position.value)
                 && (position.None? ==> NextPlace(s.steps, t, row.position))
  {
    LastPositionIsTheLast(s.steps, t);
    hide TrimSpace, LastPosition;
  }

  /** An update names a step, asks for something, and for nothing that is not allowed. */
  ghost predicate StepUpdateStands(s: State, k: nat, c: StepChanges) {
    && k < |s.steps| && c != NO_STEP_CHANGES && !c.other && c.status != Some(None)
    && var place := if c.position.Some? then c.position.value else s.steps[k].position;
       place >= 1
       && forall j :: 0 <= j < |s.steps| && j != k && s.steps[j].task == s.steps[k].task ==>
            s.steps[j].position != place
  }

  /** An update that does not stand changes nothing; asking for nothing is accepted. */
  lemma StepUpdateWithoutEffect(s: State, k: nat, c: StepChanges)
    requires Consistent(s) && !StepUpdateStands(s, k, c)
    ensures var (s', reply) := Apply(s, StepUpdate(k, c));
            && s' == s
            && reply == if k >= |s.steps| then Refused(WorkNotFound)
                        else if c == NO_STEP_CHANGES then Accepted
                        else Refused(InvalidWorkInput)
  {
    hide Chained, NoteCheckpoint;
  }

  /** What an update makes of the step's row. */
  ghost predicate StepChanged(before: Step, after: Step, c: StepChanges) {
    && after.task == before.task && Sets(c.position, before.position, after.position)
    && Sets(c.title, before.title, after.title) && Sets(c.description, before.description, after.description)
    && Sets(c.blocker, before.blocker, after.blocker) && Sets(c.status, Some(before.status), Some(after.status))
    && (after.completed <==> after.status in {StepStatus.Done, StepStatus.Failed, StepStatus.Skipped})
  }

  lemma ChangedStepRow(before: Step, c: StepChanges)
    requires c.status.Some? ==> c.status.value.Some?
    ensures StepChanged(before, ChangedStep(before, c), c)
    ensures var after := ChangedStep(before, c);
            after.task == before.task
              && (after.position == if c.position.Some? then c.position.value else before.position)
  {}

  lemma StandingStepUpdate(s: State, k: nat, c: StepChanges, step: Step, touched: State, event: string)
    requires Consistent(s) && StepUpdateStands(s, k, c) && event == "step.complete"
    requires step == ChangedStep(s.steps[k], c) && step.task < |s.tasks|
    requires touched == Touched(s.(steps := s.steps[k := step]), step.task)
    ensures Apply(s, StepUpdate(k, c)) ==
            if step.status.Doing? then
              (touched.(tasks := touched.tasks[step.task := touched.tasks[step.task].(current := Some(k))]), Accepted)
            else if step.status.Done? then
              var (noted, reply) := NoteCheckpoint(touched, step.task, [], "", None, event);
              (noted, if reply.Created? then Accepted else reply)
            else (touched, Accepted)
  {
    StepKeepsTask(s.steps[k], c);
    hide Chained, NoteCheckpoint, Touched;
  }

  /**
   An update that stands changes its step and its task's revision and current step. A step that is done
   gets a checkpoint of the task as it then is, unless the checkpoint does not fit.
   */
  lemma UpdatedStep(s: State, k: nat, c: StepChanges)
    requires Consistent(s) && StepUpdateStands(s, k, c)
    ensures var (s', reply) := Apply(s, StepUpdate(k, c));
            var t := s.steps[k].task;
            && |s'.steps| == |s.steps| && s'.steps == s.steps[k := s'.steps[k]]
            && StepChanged(s.steps[k], s'.steps[k], c)
            && t < |s.tasks| && OnlyTask(s, s', t)
            && s'.tasks[t] == s.tasks[t].(revision := s.tasks[t].revision + 1, current := s'.tasks[t].current)
            && s'.tasks[t].current == (if s'.steps[k].status.Doing? then Some(k) else s.tasks[t].current)
            && s' == s.(tasks := s'.tasks, steps := s'.steps, checkpoints := s'.checkpoints)
            && if !s'.steps[k].status.Done? then s'.checkpoints == s.checkpoints && reply == Accepted
               else if StepsFit(s'.steps, t) then Noted(s, s', t, "step.complete", None) && reply == Accepted
               else s'.checkpoints == s.checkpoints && reply == Refused(InvalidWorkInput)
  {
    var step := ChangedStep(s.steps[k], c);
    var touched := Touched(s.(steps := s.steps[k := step]), step.task);
    var event := "step.complete";
    StandingStepUpdate(s, k, c, step, touched, event);
    ChangedStepRow(s.steps[k], c);
    hide Apply, PositionFree, Chained, NoteCheckpoint, StepsFit, FiledByStatus, ChangedStep, StepChanged, Consistent,
         StepUpdateStands;
    if step.status.Done? {
      NotedCheckpoint(touched, step.task, [], "", None, event);
    }
  }

  // ---------- Audits ----------

  /** A check that audit.create does not take. */
  predicate Untaken(c: NewCheck) {
    TrimSpace(c.name) == "" || c.expected.length > 20_000
  }

  /** A new check of the audit, as asked for. */
  predicate AskedFor(row: Check, a: nat, c: NewCheck) {
    && row.audit == a && row.name == TrimSpace(c.name) && row.expected == c.expected.value
    && row.actual == Null && row.evidence.None? && row.manualAllowed == c.manualAllowed && row.mark == Uncertain
  }

  lemma UntakenMeansUnacceptable(c: NewCheck)
    ensures Untaken(c) <==> !Acceptable(c)
  {
    hide TrimSpace;
  }

  lemma RowsAreAskedFor(a: nat, c: NewCheck)
    ensures AskedFor(CheckRow(a, c), a, c)
  {
    hide TrimSpace;
  }

  lemma AuditAndChecksAdded(s: State, t: nat, checks: seq<NewCheck>, now: nat)
    requires t < |s.tasks|
    ensures var s' := CreateAudit(s, t, checks, now).0;
            && s'.audits == s.audits + [Audit(t, Uncertain, s.tasks[t].revision, now, false)]
            && s' == s.(audits := s'.audits, checks := s'.checks) && |s'.checks| == |s.checks| + AcceptedChecks(checks)
            && s'.checks[..|s.checks|] == s.checks
            && forall i :: 0 <= i < AcceptedChecks(checks) ==>
                 s'.checks[|s.checks| + i] == CheckRow(|s.audits|, checks[i])
    ensures CreateAudit(s, t, checks, now).1 ==
            if AcceptedChecks(checks) == |checks| then Created(|s.audits|) else Refused(InvalidWorkInput)
  {
    hide AcceptedChecks, CheckRow;
  }

  /** The audit is added, for the revision its task has, with the checks in front of the first one not taken. */
  ghost predicate AuditIsAdded(s: State, s': State, reply: Reply, t: nat, checks: seq<NewCheck>, now: nat)
    requires t < |s.tasks|
  {
    var n := |s'.checks| - |s.checks|;
    && s' == s.(audits := s'.audits, checks := s'.checks)
    && s'.audits == s.audits + [Audit(t, Uncertain, s.tasks[t].revision, now, false)]
    && 0 <= n <= |checks| && s'.checks[..|s.checks|] == s.checks
    && (forall i :: 0 <= i < n ==>
          AskedFor(s'.checks[|s.checks| + i], |s.audits|, checks[i]) && !Untaken(checks[i]))
    && if n < |checks| then Untaken(checks[n]) && reply == Refused(InvalidWorkInput)
       else reply == Created(|s.audits|)
  }

  lemma ChecksAreAskedFor(s: State, t: nat, checks: seq<NewCheck>, now: nat)
    requires t < |s.tasks|
    ensures var (s', reply) := CreateAudit(s, t, checks, now); AuditIsAdded(s, s', reply, t, checks, now)
  {
    AuditAndChecksAdded(s, t, checks, now);
    AcceptedChecksStopAtTheFirstBad(checks);
    hide CreateAudit, AcceptedChecks, Acceptable, Untaken, AskedFor, CheckRow;
    var s', n := CreateAudit(s, t, checks, now).0, AcceptedChecks(checks);
    forall i | 0 <= i < n
      ensures AskedFor(s'.checks[|s.checks| + i], |s.audits|, checks[i]) && !Untaken(checks[i])
    {
      UntakenMeansUnacceptable(checks[i]);
      RowsAreAskedFor(|s.audits|, checks[i]);
    }
    if n < |checks| {
      UntakenMeansUnacceptable(checks[n]);
    }
  }

  /** An audit is created UNCERTAIN, for an existing task, and stays even when a check is not taken. */
  lemma CreatedAudit(s: State, t: nat, checks: seq<NewCheck>, now: nat)
    requires Consistent(s)
    ensures var (s', reply) := Apply(s, AuditCreate(t, checks, now));
            if t >= |s.tasks| then s' == s && reply == Refused(WorkNotFound)
            else AuditIsAdded(s, s', reply, t, checks, now)
  {
    assert Apply(s, AuditCreate(t, checks, now)) == CreateAudit(s, t, checks, now) by { hide CreateAudit; }
    hide Apply, Consistent, AuditIsAdded;
    if t < |s.tasks| {
      ChecksAreAskedFor(s, t, checks, now);
      hide CreateAudit;
    }
  }

  /** Recording replaces the evidence of that one check, whose mark is then open. */
  lemma RecordedEvidence(s: State, a: nat, k: nat, actual: Encoded, evidence: Option<Evidence>)
    requires Consistent(s)
    ensures var (s', reply) := Apply(s, AuditRecord(a, k, actual, evidence));
            if evidence.None? then s' == s && reply == Refused(InvalidWorkInput)
            else if k >= |s.checks| || s.checks[k].audit != a then s' == s && reply == Refused(WorkNotFound)
            else if actual.length > 20_000 then s' == s && reply == Refused(InvalidWorkInput)
            else
              && reply == Accepted && |s'.checks| == |s.checks| && s' == s.(checks := s'.checks)
              && (forall j :: 0 <= j < |s.checks| && j != k ==> s'.checks[j] == s.checks[j])
              && var before, after := s.checks[k], s'.checks[k];
                 && after.audit == a && after.name == before.name && after.expected == before.expected
                 && after.manualAllowed == before.manualAllowed && after.mark == Uncertain
                 && after.actual == actual.value && after.evidence == evidence
  {}

  /** There is evidence, of an admitted kind, and it is not what was expected. */
  predicate Refuted(c: Check) {
    && !c.actual.Null? && c.actual != c.expected
    && (c.evidence == Some(Manual) ==> c.manualAllowed)
  }

  /** The check is marked by its evidence. */
  predicate MarkedByEvidence(before: Check, after: Check) {
    && after == before.(mark := after.mark)
    && (after.mark == Pass <==> Proven(before)) && (after.mark == Fail <==> Refuted(before))
  }

  /** Evaluation marks the audit's checks by their evidence and leaves the others. */
  lemma ChecksAreJudged(checks: seq<Check>, a: nat)
    ensures var judged := JudgedChecks(checks, a);
            && |judged| == |checks|
            && forall k :: 0 <= k < |checks| ==>
                 if checks[k].audit == a then MarkedByEvidence(checks[k], judged[k]) else judged[k] == checks[k]
  {}

  /** Some check of the audit is refuted; every one is proven, and there is one. */
  ghost predicate SomeRefuted(checks: seq<Check>, a: nat) {
    exists k :: 0 <= k < |checks| && checks[k].audit == a && Refuted(checks[k])
  }

  ghost predicate EveryProven(checks: seq<Check>, a: nat) {
    && (exists k :: 0 <= k < |checks| && checks[k].audit == a)
    && forall k :: 0 <= k < |checks| && checks[k].audit == a ==> Proven(checks[k])
  }

  lemma VerdictExactly(checks: seq<Check>, a: nat, stale: bool)
    ensures var verdict := Verdict(JudgedChecks(checks, a), a, stale);
            && (verdict == Fail <==> !stale && SomeRefuted(checks, a))
            && (verdict == Pass <==> !stale && EveryProven(checks, a))
  {
    var judged := JudgedChecks(checks, a);
    ChecksAreJudged(checks, a);
    hide JudgedChecks, Proven, Refuted;
    if SomeRefuted(checks, a) {
      var k :| 0 <= k < |checks| && checks[k].audit == a && Refuted(checks[k]);
      assert judged[k].audit == a && judged[k].mark == Fail;
    }
    if AnyMarked(judged, a, Fail) {
      var k :| 0 <= k < |judged| && judged[k].audit == a && judged[k].mark == Fail;
      assert checks[k].audit == a && Refuted(checks[k]);
    }
    if EveryProven(checks, a) {
      var k :| 0 <= k < |checks| && checks[k].audit == a;
      assert judged[k].audit == a && judged[k].mark == Pass;
    }
  }

  /**
   An evaluated audit fails exactly when its task has not moved on and admitted evidence differs from
   what was expected; it passes exactly when its task has not moved on and every check is proven, of which
   there is one. A verdict completes the audit and gets a checkpoint, unless that does not fit.
   */
  lemma EvaluatedAudit(s: State, a: nat)
    requires Consistent(s) && a < |s.audits|
    ensures var (s', reply) := Apply(s, AuditEvaluate(a));
            var t := s.audits[a].task;
            t < |s.tasks| &&
            var stale := s.tasks[t].revision != s.audits[a].revision;
            && |s'.audits| == |s.audits| && s'.audits == s.audits[a := s'.audits[a]]
            && var mark := s'.audits[a].mark;
               && s'.audits[a] == s.audits[a].(mark := mark, completed := mark != Uncertain)
               && (mark == Fail <==> !stale && SomeRefuted(s.checks, a))
               && (mark == Pass <==> !stale && EveryProven(s.checks, a))
               && s' == s.(audits := s'.audits, checks := s'.checks, checkpoints := s'.checkpoints)
               && |s'.checks| == |s.checks|
               && (forall k :: 0 <= k < |s.checks| ==>
                     if s.checks[k].audit == a then MarkedByEvidence(s.checks[k], s'.checks[k])
                     else s'.checks[k] == s.checks[k])
               && if mark == Uncertain then s'.checkpoints == s.checkpoints && reply == Accepted
                  else if StepsFit(s.steps, t) then Noted(s, s', t, "audit.complete", Some(a)) && reply == Accepted
                  else s'.checkpoints == s.checkpoints && reply == Refused(InvalidWorkInput)
  {
    var audit := s.audits[a];
    var checks := JudgedChecks(s.checks, a);
    var stale := audit.revision != s.tasks[audit.task].revision;
    VerdictExactly(s.checks, a, stale);
    ChecksAreJudged(s.checks, a);
    var mark := Verdict(checks, a, stale);
    var after := s.(checks := checks, audits := s.audits[a := audit.(mark := mark, completed := mark != Uncertain)]);
    var event := "audit.complete";
    NotedCheckpoint(after, audit.task, [], "", Some(a), event);
    hide Chained, NoteCheckpoint, StepsFit, FiledByStatus, JudgedChecks, Verdict, Proven, Refuted, SomeRefuted,
         EveryProven, MarkedByEvidence;
  }

  lemma MissingAudit(s: State, a: nat)
    requires Consistent(s) && a >= |s.audits|
    ensures Apply(s, AuditEvaluate(a)) == (s, Refused(WorkNotFound))
  {
    hide Consistent;
  }

  // ---------- Artifacts ----------

  /** The project asked for, or else the one of the task. */
  ghost predicate PlacedIn(s: State, owner: Option<nat>, asked: Option<nat>, place: Option<nat>) {
    && (asked.Some? ==> place == asked)
    && (asked.None? && owner.Some? && owner.value < |s.tasks| ==> place == s.tasks[owner.value].fields.project)
    && (asked.None? && owner.None? ==> place.None?)
  }

  /**
   An artifact is registered as a draft of the task named and the project named, or else of the task's
   project. One that is said to be verified needs a reference.
   */
  lemma RegisteredArtifact(s: State, name: string, path: string, kind: string, owner: Option<nat>,
                           project: Option<nat>, choice: VerificationChoice, reference: string, metadata: string,
                           now: nat, place: Option<nat>)
    requires PlacedIn(s, owner, project, place)
    requires Consistent(s)
    ensures var op := ArtifactRegister(name, path, kind, owner, project, choice, reference, metadata, now);
            var (s', reply) := Apply(s, op);
            if TrimSpace(name) == "" || TrimSpace(path) == "" || choice.UnknownVerification?
               || (choice.Stated? && choice.status.Verified? && reference == "") || |metadata| > 20_000
            then s' == s && reply == Refused(InvalidWorkInput)
            else if (owner.Some? && owner.value >= |s.tasks|) || (place.Some? && place.value >= s.projects)
            then s' == s && reply == Refused(WorkNotFound)
            else
              && reply == Created(|s.artifacts|)
              && |s'.artifacts| == |s.artifacts| + 1 && s'.artifacts[..|s.artifacts|] == s.artifacts
              && s' == s.(artifacts := s'.artifacts, tasks := s'.tasks)
              && (owner.None? ==> s'.tasks == s.tasks)
              && (owner.Some? ==>
                    && OnlyTask(s, s', owner.value)
                    && s'.tasks[owner.value] == s.tasks[owner.value].(revision := s.tasks[owner.value].revision + 1))
              && var row := s'.artifacts[|s.artifacts|];
                 && row.task == owner && row.project == place && row.name == TrimSpace(name) && row.path == path
                 && (row.kind == if kind == "" then "other" else kind)
                 && row.status == ArtifactStatus.Draft && row.evidence == reference && row.updated == now
                 && (row.verification == if choice.Stated? then choice.status else Verification.Declared)
  {
    hide TrimSpace;
  }

  /** A draft can be finalized or archived, a final artifact can be archived, and nothing else. */
  lemma MovedArtifact(s: State, k: nat, archive: bool, now: nat)
    requires Consistent(s)
    ensures var (s', reply) := Apply(s, ArtifactMove(k, archive, now));
            var target := if archive then ArtifactStatus.Archived else ArtifactStatus.Final;
            if k >= |s.artifacts| then s' == s && reply == Refused(WorkNotFound)
            else if (s.artifacts[k].status, target) !in
                    {(ArtifactStatus.Draft, ArtifactStatus.Final), (ArtifactStatus.Draft, ArtifactStatus.Archived),
                     (ArtifactStatus.Final, ArtifactStatus.Archived)}
            then s' == s && reply == Refused(InvalidArtifactTransition)
            else
              && s'.artifacts == s.artifacts[k := s.artifacts[k].(status := target, updated := now)]
              && s' == s.(artifacts := s'.artifacts, tasks := s'.tasks, checkpoints := s'.checkpoints)
              && if s.artifacts[k].task.None? then s' == s.(artifacts := s'.artifacts) && reply == Accepted
                 else
                   var t := s.artifacts[k].task.value;
                   && OnlyTask(s, s', t) && s'.tasks[t] == s.tasks[t].(revision := s.tasks[t].revision + 1)
                   && if archive then s'.checkpoints == s.checkpoints && reply == Accepted
                      else if StepsFit(s.steps, t)
                      then Noted(s, s', t, "artifact.finalized", None) && reply == Accepted
                      else s'.checkpoints == s.checkpoints && reply == Refused(InvalidWorkInput)
  {
    hide Chained, NoteCheckpoint, StepsFit, FiledByStatus;
    if k < |s.artifacts| && s.artifacts[k].task.Some? {
      var row := s.artifacts[k];
      var moved := s.(artifacts := s.artifacts[k := row.(status := if archive then Archived
                                                         else Final, updated := now)]);
      var event := "artifact.finalized";
      NotedCheckpoint(Touched(moved, row.task.value), row.task.value, [], "", None, event);
    }
  }

  // ---------- Completed ----------

  ghost predicate CompletedExactly(s: State) {
    && (forall k :: 0 <= k < |s.steps| ==> (s.steps[k].completed <==>
          s.steps[k].status in {StepStatus.Done, StepStatus.Failed, StepStatus.Skipped}))
    && (forall a :: 0 <= a < |s.audits| ==> (s.audits[a].completed <==> s.audits[a].mark in {Pass, Fail}))
  }

  lemma ApplyKeepsCompleted(s: State, op: Op)
    requires Consistent(s) && CompletedExactly(s)
    ensures CompletedExactly(Apply(s, op).0)
  {
    hide Chained, NoteCheckpoint, StepsFit, FiledByStatus, TrimSpace, AcceptedChecks, LastPosition, PositionFree,
         Known, ChangedFields, GateOpen, MayMove, UpdateStep, EvaluateAudit, MoveArtifact, AddStep, CreateAudit,
         Noted, SomeRefuted, EveryProven, MarkedByEvidence, StepUpdateStands, Consistent;
    match op
    case StepAdd(t, title, description, position) => AddedStep(s, t, title, description, position);
    case StepUpdate(k, c) =>
      if StepUpdateStands(s, k, c) {
        UpdatedStep(s, k, c);
      } else {
        StepUpdateWithoutEffect(s, k, c);
      }
    case CheckpointCreate(t, remarks, next, about, event) => CreatedCheckpoint(s, t, remarks, next, about, event);
    case AuditCreate(t, checks, now) => CreatedAudit(s, t, checks, now);
    case AuditEvaluate(a) =>
      if a < |s.audits| {
        EvaluatedAudit(s, a);
      } else {
        MissingAudit(s, a);
      }
    case ArtifactMove(k, archive, now) => MovedArtifact(s, k, archive, now);
    case _ =>
  }

  /** In every reachable state the steps done, failed or skipped and the audits with a verdict are completed. */
  lemma {:induction false} CompletedInEveryState(ops: seq<Op>, n: nat)
    requires n <= |ops|
    ensures CompletedExactly(At(ops, n))
  {
    hide Apply, CompletedExactly, Consistent;
    if n == 0 {
      AtStart(ops);
      NothingIsCompleted();
      hide NOTHING;
    } else {
      CompletedInEveryState(ops, n - 1);
      ApplyKeepsCompleted(At(ops, n - 1), ops[n - 1]);
    }
  }

  lemma NothingIsCompleted()
    ensures CompletedExactly(NOTHING)
  {}
}
