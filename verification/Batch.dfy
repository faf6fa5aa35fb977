/**
 accelerator/runtime.go, mcpBatch in parallel mode: one worker per slot, a counting semaphore, and
 the step machine underneath. The rest of the bridge may do anything between any two steps of the
 batch; operation ids may repeat or be in use. A crash ends the batch, so there is none here.
 */
module Batch {
  import opened Text
  import opened Receipts
  import opened Checkpoints
  import opened Protocol
  import opened Calls
  import S = Shaping

  const MAX_BATCH_CALLS := 8
  const MAX_PARALLEL := 4

  datatype Slot = Slot(request: Request, store: bool, shape: S.Options)

  /**
   A batch. `world` is what the tools, the shaping and the store answer each slot; `owners` and
   `base` are the tasks and steps and the number of receipts its answers are compared against.
   */
  datatype Plan = Plan(slots: seq<Slot>, concurrency: nat, world: Slot -> Answer, owners: Owners, base: nat) {

    /** What admission guarantees: the sizes, and that every tool is read-only. */
    ghost predicate Admitted() {
      && 1 <= |slots| <= MAX_BATCH_CALLS && 1 <= concurrency <= MAX_PARALLEL
      && (forall i :: 0 <= i < |slots| ==> !slots[i].request.mutation)
    }

    /** What the answers need besides: no two slots share an operation id. */
    ghost predicate Valid() {
      && Admitted()
      && (forall i, j :: 0 <= i < j < |slots| ==> Operation(i) != Operation(j))
    }

    function Operation(i: nat): string
      requires i < |slots|
    {
      slots[i].request.Operation()
    }

    /** What slot i answers when the batch runs one call after another. */
    function Outcome(i: nat): View
      requires i < |slots|
    {
      Expected(owners, slots[i].request, slots[i].store, world(slots[i]))
    }
  }

  datatype Worker = Waiting | Running(exec: nat) | Releasing | Exited

  /** `Aborted` is the panic of a worker: the process goes down with whatever the others have done by then. */
  datatype Fatal = Cancelled | FailedWith(code: Code) | Aborted

  datatype BatchState = BatchState(
    sys: State, workers: seq<Worker>, sem: nat, results: seq<Option<Reply>>, fatal: Option<Fatal>)

  // ---------- Steps ----------

  datatype BatchAction =
    | Acquire(i: nat) // take a permit and start executeResolved
    | Cancel(i: nat) // the context ends while waiting for a permit
    | Work(i: nat) // one statement of the slot's execution
    | Collect(i: nat) // store the result in the slot, or record the fatal error or the panic
    | Release(i: nat) // give the permit back and finish
    | Other(act: Action) // anything else in the bridge takes a step

  predicate Active(w: Worker) {
    w.Running? || w.Releasing?
  }

  function OwnCall(p: Plan, i: nat): Job
    requires i < |p.slots|
  {
    Call(p.slots[i].request, p.slots[i].store)
  }

  predicate Enabled(p: Plan, b: BatchState, act: BatchAction) {
    match act
    case Acquire(i) => i < |b.workers| && i < |p.slots| && b.workers[i].Waiting? && b.sem < p.concurrency
    case Cancel(i) => i < |b.workers| && b.workers[i].Waiting?
    case Work(i) =>
      && i < |b.workers| && i < |p.slots| && b.workers[i].Running?
      && b.workers[i].exec < |b.sys.execs| && !b.sys.execs[b.workers[i].exec].pc.Done?
    case Collect(i) =>
      && i < |b.workers| && i < |b.results| && b.workers[i].Running?
      && b.workers[i].exec < |b.sys.execs| && b.sys.execs[b.workers[i].exec].pc.Done?
    case Release(i) => i < |b.workers| && b.workers[i].Releasing? && b.sem > 0
    case Other(a) => !a.Crash? && (a.Step? ==> Running(a.exec) !in b.workers)
  }

  function Do(p: Plan, b: BatchState, act: BatchAction): BatchState
    requires InBounds(b.sys) && Enabled(p, b, act)
  {
    match act
    case Acquire(i) =>
      b.(sys := Next(b.sys, Start(OwnCall(p, i))), workers := b.workers[i := Running(|b.sys.execs|)], sem := b.sem + 1)
    case Cancel(i) =>
      b.(workers := b.workers[i := Exited], fatal := if b.fatal.None? then Some(Cancelled) else b.fatal)
    case Work(i) => b.(sys := Next(b.sys, Step(b.workers[i].exec, p.world(p.slots[i]))))
    case Collect(i) =>
      (match b.sys.execs[b.workers[i].exec].pc.reply
       case Failure(code) =>
         b.(workers := b.workers[i := Releasing], fatal := if b.fatal.None? then Some(FailedWith(code)) else b.fatal)
       case Panicked(_) =>
         b.(workers := b.workers[i := Releasing], fatal := if b.fatal.None? then Some(Aborted) else b.fatal)
       case reply => b.(workers := b.workers[i := Releasing], results := b.results[i := Some(reply)]))
    case Release(i) => b.(workers := b.workers[i := Exited], sem := b.sem - 1)
    case Other(a) => b.(sys := Next(b.sys, a))
  }

  function Begun(p: Plan, sys: State): BatchState {
    BatchState(sys, seq(|p.slots|, i => Waiting), 0, seq(|p.slots|, i => None), None)
  }

  // ---------- Whole schedules ----------

  lemma DoStaysInBounds(p: Plan, b: BatchState, act: BatchAction)
    requires InBounds(b.sys) && Enabled(p, b, act)
    ensures InBounds(Do(p, b, act).sys)
  {
    match act
    case Acquire(i) => NextStaysInBounds(b.sys, Start(OwnCall(p, i)));
    case Work(i) => NextStaysInBounds(b.sys, Step(b.workers[i].exec, p.world(p.slots[i])));
    case Other(a) => NextStaysInBounds(b.sys, a);
    case _ =>
  }

  /** The batch after a schedule; an action that is not possible when it comes up is skipped. */
  function Scheduled(p: Plan, b: BatchState, acts: seq<BatchAction>): (r: BatchState)
    requires InBounds(b.sys)
    ensures InBounds(r.sys)
    decreases |acts|
  {
    if acts == [] then b
    else
      var n := |acts| - 1;
      var c := Scheduled(p, b, acts[..n]);
      if Enabled(p, c, acts[n]) then
        DoStaysInBounds(p, c, acts[n]);
        Do(p, c, acts[n])
      else c
  }

  // ---------- What holds of every worker ----------

  function Holding(workers: seq<Worker>): nat {
    if workers == [] then 0
    else Holding(workers[..|workers| - 1]) + if Active(workers[|workers| - 1]) then 1 else 0
  }

  /** The execution of slot i is alive and the slot's own call. */
  predicate Owns(p: Plan, sys: State, i: nat, e: nat)
    requires i < |p.slots|
  {
    && e < |sys.execs| && sys.execs[e].alive && sys.execs[e].job == OwnCall(p, i)
    && sys.execs[e].mutation == p.slots[i].request.mutation
  }

  /** A slot is empty until its worker collects; then it holds a result unless something fatal is recorded. */
  predicate WorkerOk(p: Plan, b: BatchState, i: nat)
    requires i < |p.slots| == |b.workers| == |b.results|
  {
    match b.workers[i]
    case Waiting => b.results[i].None?
    case Running(e) => b.results[i].None? && Owns(p, b.sys, i, e)
    case _ => b.fatal.None? ==> b.results[i].Some?
  }

  /** No two workers run the same execution. */
  predicate Apart(workers: seq<Worker>) {
    forall i, j :: 0 <= i < |workers| && 0 <= j < |workers| && i != j && workers[i].Running? ==>
      workers[i] != workers[j]
  }

  predicate FanInv(p: Plan, b: BatchState) {
    && InBounds(b.sys) && |b.workers| == |p.slots| == |b.results|
    && b.sem == Holding(b.workers) <= p.concurrency
    && Apart(b.workers)
    && forall i :: 0 <= i < |p.slots| ==> WorkerOk(p, b, i)
  }

  lemma {:induction false} HoldingUpdate(workers: seq<Worker>, i: nat, w: Worker)
    requires i < |workers|
    ensures Holding(workers[i := w]) ==
            Holding(workers) + (if Active(w) then 1 else 0) - (if Active(workers[i]) then 1 else 0)
  {
    var n := |workers| - 1;
    if i < n {
      HoldingUpdate(workers[..n], i, w);
      assert workers[i := w][..n] == workers[..n][i := w];
    } else {
      assert workers[i := w][..n] == workers[..n];
    }
  }

  lemma {:induction false} NobodyHolds(workers: seq<Worker>)
    requires forall i :: 0 <= i < |workers| ==> !Active(workers[i])
    ensures Holding(workers) == 0
  {
    if workers != [] {
      NobodyHolds(workers[..|workers| - 1]);
    }
  }

  lemma {:induction false} SomeoneHolds(workers: seq<Worker>)
    requires Holding(workers) > 0
    ensures exists i :: 0 <= i < |workers| && Active(workers[i])
  {
    var n := |workers| - 1;
    if !Active(workers[n]) {
      SomeoneHolds(workers[..n]);
      var i :| 0 <= i < n && Active(workers[..n][i]);
      assert Active(workers[i]);
    }
  }

  lemma CallsStayThemselves(db: Db, x: Exec, a: Answer)
    requires ExecInBounds(db, x) && x.job.Call?
    ensures var y := Statement(db, x, a).exec; y.job == x.job && y.alive == x.alive && y.mutation == x.mutation
  {
    hide TrimSpace, FindOperation, Latest, Duplicate, Db.Fits, Request.Owner, Request.Row, Request.Operation,
         Request.Matches;
  }

  /** What any action but a crash does to the executions there are: one may take a step. */
  lemma ExecsAfter(s: State, act: Action, e: nat)
    requires InBounds(s) && !act.Crash? && e < |s.execs|
    ensures var s' := Next(s, act);
            && e < |s'.execs|
            && (!(act.Step? && act.exec == e) ==> s'.execs[e] == s.execs[e])
            && (s.execs[e].job.Call? ==>
                  s'.execs[e].job == s.execs[e].job && s'.execs[e].alive == s.execs[e].alive
                  && s'.execs[e].mutation == s.execs[e].mutation)
  {
    if act.Step? && act.exec == e && s.execs[e].job.Call? {
      assert ExecInBounds(s.db, s.execs[e]);
      CallsStayThemselves(s.db, s.execs[e], act.answer);
    }
    hide Statement, Started, InBounds;
  }

  lemma StartAppends(s: State, job: Job)
    requires InBounds(s)
    ensures Next(s, Start(job)) == s.(execs := s.execs + [Started(job)])
  {
    hide InBounds, Started;
  }

  /** A call starts out as itself. */
  lemma StartedCall(q: Request, store: bool)
    ensures var x := Started(Call(q, store)); x.job == Call(q, store) && x.alive && x.mutation == q.mutation
  {
    hide TrimSpace, Request.Fault;
  }

  /** The system moves underneath; the batch's own part stays. */
  lemma SystemMoveKeepsFan(p: Plan, b: BatchState, act: Action)
    requires FanInv(p, b) && !act.Crash?
    ensures InBounds(Next(b.sys, act)) && FanInv(p, b.(sys := Next(b.sys, act)))
  {
    NextStaysInBounds(b.sys, act);
    hide Next, InBounds, Holding, Apart;
    var b' := b.(sys := Next(b.sys, act));
    forall i | 0 <= i < |p.slots| ensures WorkerOk(p, b', i) {
      assert WorkerOk(p, b, i);
      if b.workers[i].Running? {
        ExecsAfter(b.sys, act, b.workers[i].exec);
      }
    }
  }

  /** A new execution is nobody else's. */
  lemma NewcomerIsApart(workers: seq<Worker>, i: nat, e: nat)
    requires Apart(workers) && i < |workers|
    requires forall j :: 0 <= j < |workers| && workers[j].Running? ==> workers[j].exec < e
    ensures Apart(workers[i := Running(e)])
  {}

  lemma WorkersAreBehind(p: Plan, b: BatchState)
    requires FanInv(p, b)
    ensures forall j :: 0 <= j < |b.workers| && b.workers[j].Running? ==> b.workers[j].exec < |b.sys.execs|
  {
    hide InBounds, Holding, Apart;
    forall j | 0 <= j < |b.workers| && b.workers[j].Running? ensures b.workers[j].exec < |b.sys.execs| {
      assert WorkerOk(p, b, j);
    }
  }

  lemma AcquiredWorkers(p: Plan, b: BatchState, i: nat)
    requires FanInv(p, b) && Enabled(p, b, Acquire(i))
    ensures var b' := Do(p, b, Acquire(i));
            && |b'.workers| == |p.slots| == |b'.results|
            && forall j :: 0 <= j < |p.slots| ==> WorkerOk(p, b', j)
  {
    SystemMoveKeepsFan(p, b, Start(OwnCall(p, i)));
    StartAppends(b.sys, OwnCall(p, i));
    StartedCall(p.slots[i].request, p.slots[i].store);
    hide Next, InBounds, Holding, Started, Apart;
    var c, b' := b.(sys := Next(b.sys, Start(OwnCall(p, i)))), Do(p, b, Acquire(i));
    forall j | 0 <= j < |p.slots| ensures WorkerOk(p, b', j) {
      assert WorkerOk(p, b, j) && WorkerOk(p, c, j);
    }
  }

  lemma AcquireKeepsFan(p: Plan, b: BatchState, i: nat)
    requires FanInv(p, b) && Enabled(p, b, Acquire(i))
    ensures FanInv(p, Do(p, b, Acquire(i)))
  {
    SystemMoveKeepsFan(p, b, Start(OwnCall(p, i)));
    AcquiredWorkers(p, b, i);
    WorkersAreBehind(p, b);
    NewcomerIsApart(b.workers, i, |b.sys.execs|);
    HoldingUpdate(b.workers, i, Running(|b.sys.execs|));
    hide Next, InBounds, Holding, Started, WorkerOk, Apart;
  }

  predicate MovesWorker(act: BatchAction) {
    act.Cancel? || act.Collect? || act.Release?
  }

  lemma MoveKeepsFan(p: Plan, b: BatchState, act: BatchAction)
    requires FanInv(p, b) && Enabled(p, b, act) && MovesWorker(act)
    ensures FanInv(p, Do(p, b, act))
  {
    MoveEffect(p, b, act);
    HoldingUpdate(b.workers, act.i, Do(p, b, act).workers[act.i]);
    hide InBounds, Holding, Owns;
    var b' := Do(p, b, act);
    forall j | 0 <= j < |p.slots| ensures WorkerOk(p, b', j) {
      assert WorkerOk(p, b, j);
    }
  }

  lemma MoveEffect(p: Plan, b: BatchState, act: BatchAction)
    requires InBounds(b.sys) && |b.workers| == |b.results| && Enabled(p, b, act) && MovesWorker(act)
    ensures var b' := Do(p, b, act);
            && act.i < |b.workers| == |b'.workers| && |b'.results| == |b.results|
            && b'.sys == b.sys && b'.workers == b.workers[act.i := b'.workers[act.i]] && !b'.workers[act.i].Running?
            && b'.sem ==
               b.sem + (if Active(b'.workers[act.i]) then 1 else 0) - (if Active(b.workers[act.i]) then 1 else 0)
  {
    hide InBounds;
  }

  /** Every step keeps the permits right, the workers on their own calls, and the slots in order. */
  lemma ActionKeepsFanInv(p: Plan, b: BatchState, act: BatchAction)
    requires FanInv(p, b) && Enabled(p, b, act)
    ensures FanInv(p, Do(p, b, act))
  {
    match act
    case Acquire(i) => AcquireKeepsFan(p, b, i);
    case Work(i) => SystemMoveKeepsFan(p, b, Step(b.workers[i].exec, p.world(p.slots[i])));
    case Other(a) => SystemMoveKeepsFan(p, b, a);
    case _ => MoveKeepsFan(p, b, act);
  }

  lemma {:induction false} ScheduleKeepsFanInv(p: Plan, b: BatchState, acts: seq<BatchAction>)
    requires InBounds(b.sys) && FanInv(p, b)
    ensures FanInv(p, Scheduled(p, b, acts))
    decreases |acts|
  {
    if acts != [] {
      var n := |acts| - 1;
      ScheduleKeepsFanInv(p, b, acts[..n]);
      var c := Scheduled(p, b, acts[..n]);
      hide FanInv, Do, Enabled, InBounds;
      if Enabled(p, c, acts[n]) {
        ActionKeepsFanInv(p, c, acts[n]);
      }
    }
  }

  lemma BeginningKeepsFanInv(p: Plan, sys: State)
    requires InBounds(sys)
    ensures FanInv(p, Begun(p, sys))
  {
    NobodyHolds(Begun(p, sys).workers);
    hide InBounds, Holding;
  }

  /** The batch at any point of any schedule. */
  function Reach(p: Plan, sys: State, acts: seq<BatchAction>): (b: BatchState)
    requires InBounds(sys)
    ensures InBounds(b.sys)
  {
    Scheduled(p, Begun(p, sys), acts)
  }

  lemma ReachedFan(p: Plan, sys: State, acts: seq<BatchAction>)
    requires InBounds(sys)
    ensures FanInv(p, Reach(p, sys, acts))
  {
    BeginningKeepsFanInv(p, sys);
    ScheduleKeepsFanInv(p, Begun(p, sys), acts);
  }

  // ---------- Bounded fan-out ----------

  /** At no point of any schedule do more executions run than the semaphore has permits. */
  lemma FanOutIsBounded(p: Plan, sys: State, acts: seq<BatchAction>)
    requires InBounds(sys) && p.Admitted()
    ensures var b := Reach(p, sys, acts); Holding(b.workers) == b.sem <= p.concurrency <= 4
  {
    ReachedFan(p, sys, acts);
    hide Reach, Holding, InBounds;
  }

  /** Every execution the batch runs is its own slot's call, of a read-only tool. */
  lemma BatchCallsAreReadOnly(p: Plan, sys: State, acts: seq<BatchAction>, i: nat)
    requires InBounds(sys) && p.Admitted() && i < |p.slots|
    requires var b := Reach(p, sys, acts); i < |b.workers| && b.workers[i].Running?
    ensures var b := Reach(p, sys, acts);
            var e := b.workers[i].exec;
            e < |b.sys.execs| && b.sys.execs[e].job == OwnCall(p, i) && !b.sys.execs[e].mutation
  {
    ReachedFan(p, sys, acts);
    hide Reach, Holding, InBounds;
    assert WorkerOk(p, Reach(p, sys, acts), i);
  }

  /** A slot is written only when its own worker collects, and only once. */
  lemma SlotIsWrittenOnce(p: Plan, sys: State, acts: seq<BatchAction>, act: BatchAction, j: nat)
    requires InBounds(sys) && j < |p.slots| && Enabled(p, Reach(p, sys, acts), act)
    ensures var b := Reach(p, sys, acts);
            var b' := Do(p, b, act);
            && j < |b.results| == |b'.results|
            && (b'.results[j] != b.results[j] ==> act == Collect(j) && b.results[j].None?)
  {
    ReachedFan(p, sys, acts);
    hide Reach, Holding, InBounds, Next;
    assert WorkerOk(p, Reach(p, sys, acts), j);
  }

  /** Once every worker has exited all permits are back, and without a fatal error every slot is filled. */
  lemma PermitsComeBack(p: Plan, sys: State, acts: seq<BatchAction>)
    requires InBounds(sys)
    requires var b := Reach(p, sys, acts); forall i :: 0 <= i < |b.workers| ==> b.workers[i].Exited?
    ensures var b := Reach(p, sys, acts);
            && b.sem == 0 && |b.results| == |p.slots|
            && (b.fatal.None? ==> forall i :: 0 <= i < |p.slots| ==> b.results[i].Some?)
  {
    ReachedFan(p, sys, acts);
    var b := Reach(p, sys, acts);
    NobodyHolds(b.workers);
    hide Reach, Holding, InBounds;
    forall i | 0 <= i < |p.slots| && b.fatal.None? ensures b.results[i].Some? {
      assert WorkerOk(p, b, i);
    }
  }

  // ---------- What is recorded ----------

  /** The action collects this reply of slot i's execution. */
  predicate Collects(p: Plan, b: BatchState, act: BatchAction, i: nat, reply: Reply) {
    && act == Collect(i) && i < |b.workers| && i < |b.results| && b.workers[i].Running?
    && b.workers[i].exec < |b.sys.execs| && b.sys.execs[b.workers[i].exec].pc == Done(reply)
  }

  /** The action is the end of the context for a waiting worker, or collects an error or a panic. */
  ghost predicate Troubles(p: Plan, b: BatchState, act: BatchAction, f: Fatal) {
    match f
    case Cancelled => act.Cancel? && act.i < |b.workers| && b.workers[act.i].Waiting?
    case FailedWith(code) => act.Collect? && Collects(p, b, act, act.i, Failure(code))
    case Aborted => act.Collect? && exists id :: Collects(p, b, act, act.i, Panicked(id))
  }

  lemma DoRecordsTrouble(p: Plan, b: BatchState, act: BatchAction)
    requires InBounds(b.sys)
    ensures forall f :: Troubles(p, b, act, f) ==>
              Enabled(p, b, act) && Do(p, b, act).fatal == if b.fatal.Some? then b.fatal else Some(f)
    ensures Enabled(p, b, act) && (forall f :: !Troubles(p, b, act, f)) ==> Do(p, b, act).fatal == b.fatal
  {
    hide InBounds, Next;
    if Enabled(p, b, act) {
      match act
      case Cancel(i) => assert Troubles(p, b, act, Cancelled);
      case Collect(i) =>
        var reply := b.sys.execs[b.workers[i].exec].pc.reply;
        assert Collects(p, b, act, i, reply);
        if reply.Failure? {
          assert Troubles(p, b, act, FailedWith(reply.code));
        } else if reply.Panicked? {
          assert Collects(p, b, act, i, Panicked(reply.receipt));
          assert Troubles(p, b, act, Aborted);
        }
      case _ =>
    }
  }

  ghost predicate TroubleAt(p: Plan, sys: State, acts: seq<BatchAction>, k: nat, f: Fatal)
    requires InBounds(sys)
  {
    k < |acts| && Troubles(p, Reach(p, sys, acts[..k]), acts[k], f)
  }

  /** Action n is the first that has something fatal to report. */
  ghost predicate FirstTrouble(p: Plan, sys: State, acts: seq<BatchAction>, n: nat, f: Fatal)
    requires InBounds(sys)
  {
    TroubleAt(p, sys, acts, n, f) && forall k: nat, g :: k < n ==> !TroubleAt(p, sys, acts, k, g)
  }

  lemma TroubleStays(p: Plan, sys: State, acts: seq<BatchAction>, k: nat, f: Fatal)
    requires InBounds(sys) && k < |acts| - 1
    ensures TroubleAt(p, sys, acts[..|acts| - 1], k, f) <==> TroubleAt(p, sys, acts, k, f)
  {
    hide Reach, Troubles, InBounds;
    assert acts[..|acts| - 1][..k] == acts[..k];
  }

  lemma ReachOneMore(p: Plan, sys: State, acts: seq<BatchAction>)
    requires InBounds(sys) && acts != []
    ensures var b, act := Reach(p, sys, acts[..|acts| - 1]), acts[|acts| - 1];
            Reach(p, sys, acts) == if Enabled(p, b, act) then Do(p, b, act) else b
  {
    hide InBounds, Do, Enabled, Begun;
  }

  ghost predicate FatalIsFirst(p: Plan, sys: State, acts: seq<BatchAction>)
    requires InBounds(sys)
  {
    && (Reach(p, sys, acts).fatal.None? ==> forall k: nat, g :: !TroubleAt(p, sys, acts, k, g))
    && (Reach(p, sys, acts).fatal.Some? ==>
          exists n: nat :: FirstTrouble(p, sys, acts, n, Reach(p, sys, acts).fatal.value))
  }

  lemma FatalOneMore(p: Plan, sys: State, acts: seq<BatchAction>)
    requires InBounds(sys) && acts != [] && FatalIsFirst(p, sys, acts[..|acts| - 1])
    ensures FatalIsFirst(p, sys, acts)
  {
    var n := |acts| - 1;
    var b, act := Reach(p, sys, acts[..n]), acts[n];
    ReachOneMore(p, sys, acts);
    DoRecordsTrouble(p, b, act);
    assert forall f :: TroubleAt(p, sys, acts, n, f) <==> Troubles(p, b, act, f);
    hide Reach, InBounds, Do, Enabled, Troubles, TroubleAt, FirstTrouble;
    forall k: nat, g | k < n ensures TroubleAt(p, sys, acts[..n], k, g) <==> TroubleAt(p, sys, acts, k, g) {
      TroubleStays(p, sys, acts, k, g);
    }
    if b.fatal.Some? {
      var m: nat :| FirstTrouble(p, sys, acts[..n], m, b.fatal.value);
      EarlierTrouble(p, sys, acts, m, b.fatal.value);
    } else if exists f :: Troubles(p, b, act, f) {
      var f :| Troubles(p, b, act, f);
      NewTrouble(p, sys, acts, f);
    } else {
      forall k: nat, g ensures !TroubleAt(p, sys, acts, k, g) {
        BeyondTheEnd(p, sys, acts, k, g);
      }
    }
  }

  lemma BeyondTheEnd(p: Plan, sys: State, acts: seq<BatchAction>, k: nat, f: Fatal)
    requires InBounds(sys)
    ensures TroubleAt(p, sys, acts, k, f) ==> k < |acts|
  {
    hide Reach, Troubles;
  }

  lemma EarlierTrouble(p: Plan, sys: State, acts: seq<BatchAction>, m: nat, f: Fatal)
    requires InBounds(sys) && acts != [] && FirstTrouble(p, sys, acts[..|acts| - 1], m, f)
    ensures FirstTrouble(p, sys, acts, m, f)
  {
    BeyondTheEnd(p, sys, acts[..|acts| - 1], m, f);
    TroubleOfFirst(p, sys, acts[..|acts| - 1], m, f);
    TroubleStays(p, sys, acts, m, f);
    hide TroubleAt, InBounds;
    forall k: nat, g | k < m ensures !TroubleAt(p, sys, acts, k, g) {
      TroubleStays(p, sys, acts, k, g);
    }
  }

  lemma NewTrouble(p: Plan, sys: State, acts: seq<BatchAction>, f: Fatal)
    requires InBounds(sys) && acts != [] && TroubleAt(p, sys, acts, |acts| - 1, f)
    requires forall k: nat, g :: k < |acts| - 1 ==> !TroubleAt(p, sys, acts, k, g)
    ensures FirstTrouble(p, sys, acts, |acts| - 1, f)
  {
    hide TroubleAt;
  }

  lemma {:induction false} FatalFromTheFirst(p: Plan, sys: State, acts: seq<BatchAction>)
    requires InBounds(sys)
    ensures FatalIsFirst(p, sys, acts)
  {
    if acts == [] {
      hide Troubles, InBounds;
    } else {
      hide InBounds, FatalIsFirst;
      FatalFromTheFirst(p, sys, acts[..|acts| - 1]);
      FatalOneMore(p, sys, acts);
    }
  }

  lemma OneTrouble(p: Plan, b: BatchState, act: BatchAction, f: Fatal, g: Fatal)
    requires Troubles(p, b, act, f) && Troubles(p, b, act, g)
    ensures f == g
  {}

  lemma OneTroubleAt(p: Plan, sys: State, acts: seq<BatchAction>, n: nat, f: Fatal, g: Fatal)
    requires InBounds(sys) && TroubleAt(p, sys, acts, n, f) && TroubleAt(p, sys, acts, n, g)
    ensures f == g
  {
    hide Reach;
    OneTrouble(p, Reach(p, sys, acts[..n]), acts[n], f, g);
  }

  lemma OneFirstTrouble(p: Plan, sys: State, acts: seq<BatchAction>, n: nat, f: Fatal, m: nat, g: Fatal)
    requires InBounds(sys) && FirstTrouble(p, sys, acts, n, f) && FirstTrouble(p, sys, acts, m, g)
    ensures f == g
  {
    hide Reach, Troubles, TroubleAt;
    TroubleOfFirst(p, sys, acts, n, f);
    TroubleOfFirst(p, sys, acts, m, g);
    if n == m {
      OneTroubleAt(p, sys, acts, n, f, g);
    }
  }

  /**
   What a batch fails with is what the first worker that was cancelled, failed or panicked had to report, and
   it fails exactly when there is one.
   */
  lemma FatalIsTheFirst(p: Plan, sys: State, acts: seq<BatchAction>, f: Fatal)
    requires InBounds(sys)
    ensures Reach(p, sys, acts).fatal == Some(f) <==> exists n: nat :: FirstTrouble(p, sys, acts, n, f)
  {
    FatalFromTheFirst(p, sys, acts);
    hide Reach, InBounds, TroubleAt;
    if n: nat :| FirstTrouble(p, sys, acts, n, f) {
      assert TroubleAt(p, sys, acts, n, f) by { TroubleOfFirst(p, sys, acts, n, f); }
      assert Reach(p, sys, acts).fatal.Some?;
      var m: nat :| FirstTrouble(p, sys, acts, m, Reach(p, sys, acts).fatal.value);
      OneFirstTrouble(p, sys, acts, n, f, m, Reach(p, sys, acts).fatal.value);
    }
  }

  lemma TroubleOfFirst(p: Plan, sys: State, acts: seq<BatchAction>, n: nat, f: Fatal)
    requires InBounds(sys) && FirstTrouble(p, sys, acts, n, f)
    ensures TroubleAt(p, sys, acts, n, f)
  {
    hide TroubleAt;
  }

  ghost predicate CollectedAt(p: Plan, sys: State, acts: seq<BatchAction>, n: nat, i: nat, reply: Reply)
    requires InBounds(sys)
  {
    n < |acts| && Collects(p, Reach(p, sys, acts[..n]), acts[n], i, reply)
  }

  lemma DoFillsSlots(p: Plan, b: BatchState, act: BatchAction, i: nat)
    requires InBounds(b.sys) && Enabled(p, b, act) && i < |b.results|
    ensures var b' := Do(p, b, act);
            && |b'.results| == |b.results|
            && (b'.results[i] == b.results[i]
                || (b'.results[i].Some? && Collects(p, b, act, i, b'.results[i].value)
                    && !b'.results[i].value.Failure? && !b'.results[i].value.Panicked?))
  {
    hide InBounds, Next;
  }

  /** Whatever the batch, what is in a slot is the reply of the slot's own execution, and no error and no panic. */
  lemma {:induction false} SlotHoldsItsReply(p: Plan, sys: State, acts: seq<BatchAction>, i: nat)
    requires InBounds(sys)
    requires var b := Reach(p, sys, acts); i < |b.results| && b.results[i].Some?
    ensures var reply := Reach(p, sys, acts).results[i].value;
            && !reply.Failure? && !reply.Panicked?
            && exists n: nat :: CollectedAt(p, sys, acts, n, i, reply)
    decreases |acts|
  {
    if acts != [] {
      var n := |acts| - 1;
      var b, act := Reach(p, sys, acts[..n]), acts[n];
      var reply := Reach(p, sys, acts).results[i].value;
      ReachOneMore(p, sys, acts);
      hide InBounds, Reach, Do, Enabled, Collects;
      if Enabled(p, b, act) && i < |b.results| {
        DoFillsSlots(p, b, act, i);
      }
      SlotsStay(p, b, act);
      if b.results[i] == Some(reply) {
        SlotHoldsItsReply(p, sys, acts[..n], i);
        var m: nat :| CollectedAt(p, sys, acts[..n], m, i, reply);
        assert acts[..n][..m] == acts[..m];
        assert CollectedAt(p, sys, acts, m, i, reply);
      } else {
        assert CollectedAt(p, sys, acts, n, i, reply);
      }
    } else {
      hide InBounds;
    }
  }

  lemma SlotsStay(p: Plan, b: BatchState, act: BatchAction)
    requires InBounds(b.sys)
    ensures Enabled(p, b, act) ==> |Do(p, b, act).results| == |b.results|
  {
    hide InBounds, Next;
  }

  // ---------- Progress ----------

  lemma HolderCanMove(p: Plan, b: BatchState, i: nat)
    requires FanInv(p, b) && i < |p.slots| && Active(b.workers[i])
    ensures CanMove(p, b)
  {
    assert WorkerOk(p, b, i);
    hide InBounds, Holding, Apart;
    if b.workers[i].Releasing? {
      HoldingUpdate(b.workers, i, Exited);
      assert Enabled(p, b, Release(i));
    } else if b.sys.execs[b.workers[i].exec].pc.Done? {
      assert Enabled(p, b, Collect(i));
    } else {
      assert Enabled(p, b, Work(i));
    }
  }

  /** The batch itself has a possible step that is no cancellation. */
  ghost predicate CanMove(p: Plan, b: BatchState) {
    exists act :: Enabled(p, b, act) && !act.Other? && !act.Cancel?
  }

  lemma WaiterCanMove(p: Plan, b: BatchState, i: nat)
    requires i < |b.workers| == |p.slots| && b.workers[i].Waiting? && b.sem < p.concurrency
    ensures CanMove(p, b)
  {
    assert Enabled(p, b, Acquire(i));
    hide Enabled;
  }

  lemma SomeoneCanMove(p: Plan, b: BatchState, i: nat)
    requires FanInv(p, b) && p.concurrency >= 1 && i < |p.slots| && !b.workers[i].Exited?
    ensures CanMove(p, b)
  {
    assert |b.workers| == |p.slots| && b.sem == Holding(b.workers) <= p.concurrency;
    hide FanInv, CanMove, Holding;
    if Active(b.workers[i]) {
      HolderCanMove(p, b, i);
    } else if b.sem < p.concurrency {
      WaiterCanMove(p, b, i);
    } else {
      SomeoneHolds(b.workers);
      var j :| 0 <= j < |b.workers| && Active(b.workers[j]);
      HolderCanMove(p, b, j);
    }
  }

  /** No deadlock: at any point of any schedule, until every worker has exited, the batch itself can move. */
  lemma BatchNeverDeadlocks(p: Plan, sys: State, acts: seq<BatchAction>, i: nat)
    requires InBounds(sys) && p.Admitted() && i < |p.slots|
    requires var b := Reach(p, sys, acts); i < |b.workers| && !b.workers[i].Exited?
    ensures exists act :: Enabled(p, Reach(p, sys, acts), act) && !act.Other? && !act.Cancel?
  {
    ReachedFan(p, sys, acts);
    hide Reach, FanInv, InBounds;
    SomeoneCanMove(p, Reach(p, sys, acts), i);
  }

  /** An upper bound on the steps a worker has left. */
  function Weight(b: BatchState, i: nat): nat
    requires i < |b.workers|
  {
    match b.workers[i]
    case Waiting => 17
    case Running(e) => 2 + if e < |b.sys.execs| then Rank(b.sys.execs[e].pc) else 0
    case Releasing => 1
    case Exited => 0
  }

  function Remaining(b: BatchState, n: nat): nat
    requires n <= |b.workers|
  {
    if n == 0 then 0 else Remaining(b, n - 1) + Weight(b, n - 1)
  }

  /** The step of worker i makes its own share smaller and nobody else's larger. */
  ghost predicate Drops(b: BatchState, b': BatchState, i: nat) {
    && |b'.workers| == |b.workers| && i < |b.workers| && Weight(b', i) < Weight(b, i)
    && forall j :: 0 <= j < |b.workers| && j != i ==> Weight(b', j) <= Weight(b, j)
  }

  lemma {:induction false} RemainingDrops(b: BatchState, b': BatchState, i: nat, n: nat)
    requires Drops(b, b', i) && n <= |b.workers|
    ensures Remaining(b', n) <= Remaining(b, n)
    ensures i < n ==> Remaining(b', n) < Remaining(b, n)
  {
    if n > 0 {
      RemainingDrops(b, b', i, n - 1);
    }
  }

  lemma {:induction false} SameRemaining(b: BatchState, b': BatchState, n: nat)
    requires n <= |b.workers| == |b'.workers|
    requires forall j :: 0 <= j < |b.workers| ==> Weight(b', j) == Weight(b, j)
    ensures Remaining(b', n) == Remaining(b, n)
  {
    hide Weight;
    if n > 0 {
      SameRemaining(b, b', n - 1);
    }
  }

  lemma StartRank(job: Job)
    ensures Rank(Started(job).pc) <= 14
  {
    hide TrimSpace, Request.Fault;
  }

  /** Workers whose execution is untouched have the same share left. */
  lemma SameWeight(b: BatchState, b': BatchState, j: nat)
    requires j < |b.workers| && j < |b'.workers| && b'.workers[j] == b.workers[j]
    requires b.workers[j].Running? ==>
               b.workers[j].exec < |b.sys.execs| && b.workers[j].exec < |b'.sys.execs|
               && b'.sys.execs[b.workers[j].exec] == b.sys.execs[b.workers[j].exec]
    ensures Weight(b', j) == Weight(b, j)
  {
    hide Rank;
  }

  lemma AcquireDrops(p: Plan, b: BatchState, i: nat)
    requires FanInv(p, b) && Enabled(p, b, Acquire(i))
    ensures Drops(b, Do(p, b, Acquire(i)), i)
  {
    StartRank(OwnCall(p, i));
    StartAppends(b.sys, OwnCall(p, i));
    hide Next, InBounds, Holding, Started, Rank, Apart;
    var b' := Do(p, b, Acquire(i));
    forall j | 0 <= j < |b.workers| && j != i ensures Weight(b', j) <= Weight(b, j) {
      assert WorkerOk(p, b, j);
      SameWeight(b, b', j);
    }
  }

  lemma WorkDrops(p: Plan, b: BatchState, i: nat)
    requires FanInv(p, b) && Enabled(p, b, Work(i))
    ensures Drops(b, Do(p, b, Work(i)), i)
  {
    var e, a := b.workers[i].exec, p.world(p.slots[i]);
    assert WorkerOk(p, b, i);
    StepRanks(b.sys, e, a);
    hide Next, InBounds, Holding, Rank;
    var b' := Do(p, b, Work(i));
    forall j | 0 <= j < |b.workers| && j != i ensures Weight(b', j) <= Weight(b, j) {
      assert WorkerOk(p, b, j);
      if b.workers[j].Running? {
        ExecsAfter(b.sys, Step(e, a), b.workers[j].exec);
      }
      SameWeight(b, b', j);
    }
  }

  lemma StepRanks(s: State, e: nat, a: Answer)
    requires InBounds(s) && e < |s.execs| && s.execs[e].alive && !s.execs[e].pc.Done?
    ensures e < |Next(s, Step(e, a)).execs| && Rank(Next(s, Step(e, a)).execs[e].pc) < Rank(s.execs[e].pc)
  {
    assert ExecInBounds(s.db, s.execs[e]);
    StatementsRunOut(s.db, s.execs[e], a);
    hide Statement, Rank, InBounds;
  }

  lemma MoveDrops(p: Plan, b: BatchState, act: BatchAction)
    requires InBounds(b.sys) && Enabled(p, b, act) && MovesWorker(act)
    ensures Drops(b, Do(p, b, act), act.i)
  {
    hide Rank, InBounds;
  }

  /** Each step of the batch itself uses up one of finitely many. */
  lemma BatchStepsRunOut(p: Plan, b: BatchState, act: BatchAction)
    requires FanInv(p, b) && Enabled(p, b, act) && !act.Other?
    ensures var b' := Do(p, b, act);
            |b'.workers| == |b.workers| && Remaining(b', |b.workers|) < Remaining(b, |b.workers|)
  {
    assert InBounds(b.sys);
    hide FanInv, InBounds;
    if act.Work? {
      WorkDrops(p, b, act.i);
    } else if act.Acquire? {
      AcquireDrops(p, b, act.i);
    } else {
      MoveDrops(p, b, act);
    }
    hide *;
    RemainingDrops(b, Do(p, b, act), act.i, |b.workers|);
  }

  /** The rest of the bridge never sets the batch back. */
  lemma OthersLeaveRemaining(p: Plan, b: BatchState, act: Action)
    requires FanInv(p, b) && Enabled(p, b, Other(act))
    ensures var b' := Do(p, b, Other(act));
            |b'.workers| == |b.workers| && Remaining(b', |b.workers|) == Remaining(b, |b.workers|)
  {
    var b' := Do(p, b, Other(act));
    hide Next, InBounds, Holding, Apart, Weight, Remaining;
    forall j | 0 <= j < |b.workers| ensures Weight(b', j) == Weight(b, j) {
      assert WorkerOk(p, b, j);
      if b.workers[j].Running? {
        ExecsAfter(b.sys, act, b.workers[j].exec);
        assert b.workers[j] == Running(b.workers[j].exec);
      }
      SameWeight(b, b', j);
    }
    SameRemaining(b, b', |b.workers|);
  }

  /** How many steps of a schedule are the batch's own. */
  function OwnSteps(p: Plan, b: BatchState, acts: seq<BatchAction>): nat
    requires InBounds(b.sys)
    decreases |acts|
  {
    if acts == [] then 0
    else
      var n := |acts| - 1;
      OwnSteps(p, b, acts[..n]) + if Enabled(p, Scheduled(p, b, acts[..n]), acts[n]) && !acts[n].Other? then 1 else 0
  }

  lemma {:induction false} OwnStepsAreBounded(p: Plan, b: BatchState, acts: seq<BatchAction>)
    requires InBounds(b.sys) && FanInv(p, b)
    ensures var c := Scheduled(p, b, acts);
            |c.workers| == |b.workers| && OwnSteps(p, b, acts) + Remaining(c, |c.workers|) <= Remaining(b, |b.workers|)
    decreases |acts|
  {
    if acts != [] {
      var n := |acts| - 1;
      OwnStepsAreBounded(p, b, acts[..n]);
      ScheduleKeepsFanInv(p, b, acts[..n]);
      var c := Scheduled(p, b, acts[..n]);
      hide FanInv, Do, Enabled, InBounds, Remaining;
      if Enabled(p, c, acts[n]) {
        if acts[n].Other? {
          OthersLeaveRemaining(p, c, acts[n].act);
        } else {
          BatchStepsRunOut(p, c, acts[n]);
        }
      }
    }
  }

  lemma {:induction false} RemainingAtStart(b: BatchState, n: nat)
    requires n <= |b.workers| && forall j :: 0 <= j < |b.workers| ==> b.workers[j].Waiting?
    ensures Remaining(b, n) == 17 * n
  {
    if n > 0 {
      RemainingAtStart(b, n - 1);
    }
  }

  /** No schedule, however long and whatever else runs, has more than 17 steps of the batch per slot. */
  lemma ScheduleIsBounded(p: Plan, sys: State, acts: seq<BatchAction>)
    requires InBounds(sys)
    ensures OwnSteps(p, Begun(p, sys), acts) <= 17 * |p.slots|
  {
    BeginningKeepsFanInv(p, sys);
    OwnStepsAreBounded(p, Begun(p, sys), acts);
    RemainingAtStart(Begun(p, sys), |p.slots|);
    hide FanInv, Scheduled, OwnSteps, Remaining, InBounds;
  }
}
