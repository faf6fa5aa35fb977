/** accelerator/runtime.go, mcpBatch: which batches are let in, and what they are turned into. */
module Admission {
  import opened Text
  import opened Receipts
  import opened Protocol
  import opened Batch
  import C = Catalog
  import R = Resolution
  import S = Shaping

  /** One item of `calls`, as read by callSpecFromMap. */
  datatype CallSpec = CallSpec(
    tool: string, arguments: string, task: Option<nat>, step: Option<nat>,
    operation: string, generated: string, store: bool, shape: S.Options)

  datatype Mode = Unset | Parallel | Sequence | OtherMode

  /** `routes` are the routes of the gateway and what they list. */
  datatype BatchCall = BatchCall(
    mode: Mode, stopOnError: bool, calls: seq<CallSpec>, task: Option<nat>, step: Option<nat>,
    concurrency: Option<int>, routes: seq<C.Route>)

  datatype Refusal = InvalidBatch | ResolutionFailed(error: C.Error) | McpDenied | ParallelMutationDenied

  datatype Entry = Refused(refusal: Refusal) | Admitted(parallel: bool, slots: seq<Slot>, permits: nat)

  predicate IsParallel(c: BatchCall) {
    c.mode.Unset? || c.mode.Parallel?
  }

  function Names(c: BatchCall): (names: seq<string>)
    ensures |names| == |c.calls| && forall i :: 0 <= i < |names| ==> names[i] == c.calls[i].tool
  {
    seq(|c.calls|, i requires 0 <= i < |c.calls| => c.calls[i].tool)
  }

  /** The catalog entries of the tools, by wanted name. */
  function Tools(c: BatchCall): C.Result<map<string, C.Entry>> {
    R.Resolve(c.routes, Names(c))
  }

  predicate Available(c: BatchCall, spec: CallSpec) {
    Tools(c).Ok? && spec.tool in Tools(c).value
  }

  /** The request of one call: the batch's task and step stand in for those the call leaves out. */
  function SlotOf(c: BatchCall, spec: CallSpec): Slot
    requires Available(c, spec)
  {
    var task := if spec.task.None? then c.task else spec.task;
    var step := if spec.step.None? then c.step else spec.step;
    Slot(Request(spec.operation, spec.generated, task, step, spec.tool, spec.arguments,
                 !Tools(c).value[spec.tool].readOnly), spec.store, spec.shape)
  }

  /** What is wrong with the form of a batch, before any tool is looked up. */
  predicate Malformed(c: BatchCall) {
    || c.mode.OtherMode? || (IsParallel(c) && c.stopOnError)
    || |c.calls| == 0 || |c.calls| > MAX_BATCH_CALLS
    || exists i :: 0 <= i < |c.calls| && c.calls[i].tool == ""
  }

  /** The tool may run in this batch. */
  predicate Permitted(c: BatchCall, spec: CallSpec) {
    Available(c, spec) && (IsParallel(c) ==> Tools(c).value[spec.tool].readOnly)
  }

  function Permits(c: BatchCall): int {
    if c.concurrency.None? then MAX_PARALLEL else c.concurrency.value
  }

  /** Spec i is the first that may not run. */
  predicate FirstUnfit(c: BatchCall, i: nat) {
    i < |c.calls| && !Permitted(c, c.calls[i]) && forall j :: 0 <= j < i ==> Permitted(c, c.calls[j])
  }

  /** ResolveTools on the names of the batch. */
  method Resolve(c: BatchCall) returns (tools: C.Result<map<string, C.Entry>>)
    ensures tools == Tools(c)
  {
    hide R.Resolve;
    tools := R.ResolveTools(c.routes, Names(c));
  }

  /** The loop over the calls: their slots, or the refusal of the first unfit one. */
  method CheckTools(c: BatchCall, tools: map<string, C.Entry>) returns (slots: seq<Slot>, refusal: Option<Refusal>)
    requires Tools(c) == C.Ok(tools)
    ensures refusal.None? ==>
              && |slots| == |c.calls|
              && forall i :: 0 <= i < |c.calls| ==> Permitted(c, c.calls[i]) && slots[i] == SlotOf(c, c.calls[i])
    ensures refusal.Some? ==>
              exists i: nat :: FirstUnfit(c, i)
                && refusal.value == if Available(c, c.calls[i]) then ParallelMutationDenied else McpDenied
  {
    hide Tools;
    slots := [];
    for i := 0 to |c.calls|
      invariant |slots| == i
      invariant forall j :: 0 <= j < i ==> Permitted(c, c.calls[j]) && slots[j] == SlotOf(c, c.calls[j])
    {
      var spec := c.calls[i];
      if spec.tool !in tools {
        assert FirstUnfit(c, i);
        return [], Some(McpDenied);
      }
      if (c.mode.Unset? || c.mode.Parallel?) && !tools[spec.tool].readOnly {
        assert FirstUnfit(c, i);
        return [], Some(ParallelMutationDenied);
      }
      var task := if spec.task.None? then c.task else spec.task;
      var step := if spec.step.None? then c.step else spec.step;
      slots := slots + [Slot(Request(spec.operation, spec.generated, task, step, spec.tool, spec.arguments,
                                     !tools[spec.tool].readOnly), spec.store, spec.shape)];
    }
    return slots, None;
  }

  lemma FirstUnfitIsUnique(c: BatchCall, i: nat, j: nat)
    requires FirstUnfit(c, i) && FirstUnfit(c, j)
    ensures i == j
  {
    hide Permitted;
  }

  /** The checks of mcpBatch in order; exactly one of the clauses below applies to each call. */
  method Admit(c: BatchCall) returns (r: Entry)
    ensures Malformed(c) ==> r == Refused(InvalidBatch)
    ensures !Malformed(c) && Tools(c).Err? ==> r == Refused(ResolutionFailed(Tools(c).error))
    ensures !Malformed(c) && Tools(c).Ok? ==>
              forall i: nat :: FirstUnfit(c, i) ==>
                r == Refused(if Available(c, c.calls[i]) then ParallelMutationDenied else McpDenied)
    ensures !Malformed(c) && Tools(c).Ok? && (forall i :: 0 <= i < |c.calls| ==> Permitted(c, c.calls[i])) ==>
              if IsParallel(c) && !(1 <= Permits(c) <= MAX_PARALLEL) then r == Refused(InvalidBatch)
              else
                && r.Admitted? && r.parallel == IsParallel(c) && |r.slots| == |c.calls|
                && (forall i :: 0 <= i < |c.calls| ==> r.slots[i] == SlotOf(c, c.calls[i]))
                && (r.parallel ==> r.permits == Permits(c))
  {
    hide Tools, Permitted, Available, SlotOf;
    var parallel := c.mode.Unset? || c.mode.Parallel?;
    if c.mode.OtherMode? || (parallel && c.stopOnError) || |c.calls| == 0 || |c.calls| > MAX_BATCH_CALLS {
      return Refused(InvalidBatch);
    }
    for i := 0 to |c.calls|
      invariant forall j :: 0 <= j < i ==> c.calls[j].tool != ""
    {
      if c.calls[i].tool == "" {
        return Refused(InvalidBatch);
      }
    }
    assert !Malformed(c);
    hide Malformed;
    var resolved := Resolve(c);
    if resolved.Err? {
      return Refused(ResolutionFailed(resolved.error));
    }
    var slots, refusal := CheckTools(c, resolved.value);
    if refusal.Some? {
      forall i: nat, j: nat | FirstUnfit(c, i) && FirstUnfit(c, j) ensures i == j {
        FirstUnfitIsUnique(c, i, j);
      }
      return Refused(refusal.value);
    }
    if !parallel {
      return Admitted(false, slots, 0);
    }
    var concurrency := if c.concurrency.None? then MAX_PARALLEL else c.concurrency.value;
    if concurrency < 1 || concurrency > MAX_PARALLEL {
      return Refused(InvalidBatch);
    }
    return Admitted(true, slots, concurrency);
  }

  /** A batch is let in exactly when its form, its tools and, in parallel, its width are right. */
  predicate Admissible(c: BatchCall) {
    && !Malformed(c) && Tools(c).Ok?
    && (forall i :: 0 <= i < |c.calls| ==> Permitted(c, c.calls[i]))
    && (IsParallel(c) ==> 1 <= Permits(c) <= MAX_PARALLEL)
  }

  /** The first unfit call exists whenever some call is unfit, so Admit's clauses leave no gap. */
  lemma {:induction false} SomeUnfitMeansFirstUnfit(c: BatchCall, n: nat)
    requires n <= |c.calls| && exists i :: 0 <= i < n && !Permitted(c, c.calls[i])
    ensures exists i :: FirstUnfit(c, i)
  {
    hide Permitted;
    if exists i :: 0 <= i < n - 1 && !Permitted(c, c.calls[i]) {
      SomeUnfitMeansFirstUnfit(c, n - 1);
    } else {
      assert FirstUnfit(c, n - 1);
    }
  }

  // ---------- What admission means ----------

  /** The batch is to run in parallel: nothing is said, or that. */
  predicate InParallel(c: BatchCall) {
    c.mode in {Unset, Parallel}
  }

  /** The width asked for, or else 4. */
  predicate WidthIs(c: BatchCall, width: int) {
    if c.concurrency.Some? then width == c.concurrency.value else width == 4
  }

  /** Every tool is listed, and if the batch is to run in parallel, listed as read-only. */
  ghost predicate ToolsFit(c: BatchCall) {
    && Tools(c).Ok?
    && forall i :: 0 <= i < |c.calls| ==>
         c.calls[i].tool in Tools(c).value && (InParallel(c) ==> Tools(c).value[c.calls[i].tool].readOnly)
  }

  /**
   A batch is let in exactly when it has 1 to 8 calls that all name a tool, its tools fit, and, to run in
   parallel, it does not ask to stop on errors and its width is 1 to 4.
   */
  lemma AdmissibleExactly(c: BatchCall, width: int)
    requires WidthIs(c, width)
    ensures Admissible(c) <==>
            && !c.mode.OtherMode? && 1 <= |c.calls| <= 8 && (forall i :: 0 <= i < |c.calls| ==> |c.calls[i].tool| > 0)
            && (InParallel(c) ==> !c.stopOnError && 1 <= width <= 4)
            && ToolsFit(c)
  {
    hide Tools, R.Resolve;
  }

  /**
   The request of a call is its own: its operation id, tool and arguments, and its task and step where it
   names them; only where it does not the batch's stand in. It is a mutation unless the tool is read-only.
   */
  lemma SlotsAreAsAsked(c: BatchCall, spec: CallSpec)
    requires Available(c, spec)
    ensures var slot, q := SlotOf(c, spec), SlotOf(c, spec).request;
            && q.operation == spec.operation && q.generated == spec.generated
            && q.tool == spec.tool && q.arguments == spec.arguments
            && (spec.task.Some? ==> q.task == spec.task) && (spec.task.None? ==> q.task == c.task)
            && (spec.step.Some? ==> q.step == spec.step) && (spec.step.None? ==> q.step == c.step)
            && (q.mutation <==> !Tools(c).value[spec.tool].readOnly)
            && slot.store == spec.store && slot.shape == spec.shape
  {
    hide Tools;
  }

  /** The plan runs the batch as it was admitted. */
  ghost predicate PlanOf(c: BatchCall, p: Plan) {
    && Admissible(c) && IsParallel(c) && |p.slots| == |c.calls| && p.concurrency == Permits(c)
    && forall i :: 0 <= i < |c.calls| ==> p.slots[i] == SlotOf(c, c.calls[i])
  }

  /**
   An admitted parallel batch has the sizes and the read-only tools that bounded fan-out needs, and
   what the answers need besides exactly when its operation ids differ.
   */
  lemma AdmittedBatchIsAPlan(c: BatchCall, p: Plan)
    requires PlanOf(c, p)
    ensures p.Admitted()
    ensures p.Valid() <==> forall i, j :: 0 <= i < j < |p.slots| ==> p.Operation(i) != p.Operation(j)
  {
    hide TrimSpace, R.Resolve;
    forall i | 0 <= i < |p.slots| ensures !p.slots[i].request.mutation {
      assert Permitted(c, c.calls[i]);
    }
  }

  // ---------- From the catalog to the calls ----------

  /** A route with this transport lists the tool. */
  ghost predicate ListedAt(routes: seq<C.Route>, owner: nat, tool: C.Tool) {
    exists r :: 0 <= r < |routes| && routes[r].id == owner && C.Lists(routes[r], tool)
  }

  lemma ResolvedEntriesAreListed(routes: seq<C.Route>, names: seq<string>, name: string)
    requires R.Resolve(routes, names).Ok? && name in R.Resolve(routes, names).value
    ensures var e := R.Resolve(routes, names).value[name];
            e.name == name && ListedAt(routes, e.owner, C.Tool(e.upstream, e.readOnly))
  {
    var e := R.Resolve(routes, names).value[name];
    assert C.CatalogOf(routes).Ok? && e in C.CatalogOf(routes).value.entries && e.name == name by {
      hide C.CatalogOf, R.Wanted, R.ValidName;
    }
    R.EntriesAreNamed(routes, e);
    hide R.Resolve, C.CatalogOf, C.Candidates, C.Lists, C.CanonicalName, C.RouteSlug;
    var cand: C.Candidate :| C.ListedBy(routes, cand) && e == C.EntryOf(C.Candidates(routes), cand);
    var r :| 0 <= r < |routes| && routes[r].id == cand.id && routes[r].endpoint == cand.endpoint
             && C.Lists(routes[r], cand.tool);
    assert cand.tool == C.Tool(e.upstream, e.readOnly);
  }

  /**
   End to end: at any point of any schedule, every execution a parallel batch runs is the call of a
   tool of the catalog that some route lists, and lists as read-only.
   */
  lemma ParallelCallsAreListedReadOnly(c: BatchCall, p: Plan, sys: State, acts: seq<BatchAction>, i: nat)
    requires PlanOf(c, p) && InBounds(sys) && i < |p.slots|
    requires var b := Reach(p, sys, acts); i < |b.workers| && b.workers[i].Running?
    ensures var b := Reach(p, sys, acts);
            var e := b.workers[i].exec;
            && e < |b.sys.execs| && b.sys.execs[e].job == OwnCall(p, i) && !b.sys.execs[e].mutation
            && var tool := p.slots[i].request.tool;
               && Tools(c).Ok? && tool in Tools(c).value
               && var entry := Tools(c).value[tool];
                  entry.name == tool && ListedAt(c.routes, entry.owner, C.Tool(entry.upstream, true))
  {
    AdmittedBatchIsAPlan(c, p);
    BatchCallsAreReadOnly(p, sys, acts, i);
    assert Permitted(c, c.calls[i]);
    hide R.Resolve, Reach, InBounds, ListedAt, Admissible;
    ResolvedEntriesAreListed(c.routes, Names(c), c.calls[i].tool);
  }
}
