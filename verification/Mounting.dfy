/**
 server/adapters.go and server/app.go: adapters are registered one by one into the operation and
 definition tables, and the tools of the enabled modules are exposed.
 */
module Mounting {
  import opened Text
  import opened Registry

  /** A tool definition; `definition` stands for all of it but its name. */
  datatype Tool = Tool(name: string, definition: nat)

  /** An operation is a handle; a binding may be nil. */
  datatype Adapter = Adapter(
    id: string, kind: string, version: string, dependencies: seq<string>,
    tools: seq<Tool>, operations: map<string, Option<nat>>)

  /** A tool as the server offers it. */
  datatype Exposed = Exposed(tool: Tool, operation: nat)

  function ToolNames(tools: seq<Tool>): (names: seq<string>)
    ensures |names| == |tools| && forall i :: 0 <= i < |tools| ==> names[i] == tools[i].name
  {
    seq(|tools|, i requires 0 <= i < |tools| => tools[i].name)
  }

  function ModuleOf(a: Adapter): Module {
    Module(a.id, a.dependencies, ToolNames(a.tools))
  }

  /** A tool of the adapter that the loop over its tools accepts. */
  predicate Bindable(a: Adapter, i: nat)
    requires i < |a.tools|
  {
    var name := a.tools[i].name;
    && name != "" && (forall j :: 0 <= j < i ==> a.tools[j].name != name)
    && name in a.operations && a.operations[name].Some?
  }

  predicate Proper(a: Adapter) {
    && a.id != "" && a.kind != "" && a.version != "" && a.tools != []
    && (forall i :: 0 <= i < |a.tools| ==> Bindable(a, i))
    && forall name :: name in a.operations ==> name in ToolNames(a.tools)
  }

  function AdapterFault(modules: seq<Module>, a: Option<Adapter>): Option<Fault> {
    if a.None? || !Proper(a.value) then Some(AdapterInvalid) else RegisterFault(modules, ModuleOf(a.value))
  }

  /** The modules registered from a list of adapters, up to the first fault. */
  function Registered(adapters: seq<Option<Adapter>>): (seq<Module>, Option<Fault>) {
    if adapters == [] then ([], None)
    else
      var n := |adapters| - 1;
      var (modules, fault) := Registered(adapters[..n]);
      if fault.Some? then (modules, fault)
      else if AdapterFault(modules, adapters[n]).Some? then (modules, AdapterFault(modules, adapters[n]))
      else (modules + [ModuleOf(adapters[n].value)], None)
  }

  // ---------- When registration succeeds ----------

  ghost predicate Registrable(adapters: seq<Option<Adapter>>) {
    && (forall k :: 0 <= k < |adapters| ==> adapters[k].Some? && Proper(adapters[k].value))
    && forall i, j :: 0 <= i < j < |adapters| && adapters[i].Some? && adapters[j].Some? ==>
         !Collides(ModuleOf(adapters[i].value), ModuleOf(adapters[j].value))
  }

  lemma ProperModule(a: Adapter)
    requires Proper(a)
    ensures var m := ModuleOf(a); m.id != "" && m.tools != [] && ToolFault(m.tools).None?
  {
    var names := ToolNames(a.tools);
    NoToolFaultMeansProper(names);
    hide ToolFault;
    forall i, j | 0 <= i < j < |names| ensures names[i] != names[j] {
      assert Bindable(a, j);
    }
    forall i | 0 <= i < |names| ensures names[i] != "" {
      assert Bindable(a, i);
    }
  }

  lemma RegistrableOneMore(adapters: seq<Option<Adapter>>, modules: seq<Module>)
    requires adapters != [] && Registrable(adapters[..|adapters| - 1]) && |modules| == |adapters| - 1
    requires forall k :: 0 <= k < |modules| ==> modules[k] == ModuleOf(adapters[k].value)
    ensures Registrable(adapters) <==> AdapterFault(modules, adapters[|adapters| - 1]).None?
  {
    var n := |adapters| - 1;
    var last := adapters[n];
    if last.Some? && Proper(last.value) {
      ProperModule(last.value);
    }
    hide Collides, Proper, ModuleOf, ToolFault;
    assert forall k :: 0 <= k < n ==> adapters[..n][k] == adapters[k];
    if last.Some? && CollidesWithAny(modules, ModuleOf(last.value)) {
      var k :| 0 <= k < n && Collides(modules[k], ModuleOf(last.value));
      assert Collides(ModuleOf(adapters[k].value), ModuleOf(adapters[n].value));
    }
    if AdapterFault(modules, last).None? {
      assert forall k :: 0 <= k < n ==> !Collides(modules[k], ModuleOf(last.value));
    }
  }

  /**
   Registration succeeds exactly when every adapter is proper and no two share an id or a tool
   name; the modules are then the adapters', in order.
   */
  lemma {:induction false} RegisteredExactly(adapters: seq<Option<Adapter>>)
    ensures Registered(adapters).1.None? <==> Registrable(adapters)
    ensures Registrable(adapters) ==>
              && |Registered(adapters).0| == |adapters|
              && forall k :: 0 <= k < |adapters| ==> Registered(adapters).0[k] == ModuleOf(adapters[k].value)
  {
    if adapters != [] {
      var n := |adapters| - 1;
      RegisteredExactly(adapters[..n]);
      hide Proper, Collides, ModuleOf, AdapterFault;
      assert forall k :: 0 <= k < n ==> adapters[..n][k] == adapters[k];
      if Registrable(adapters[..n]) {
        RegistrableOneMore(adapters, Registered(adapters[..n]).0);
      }
    }
  }

  lemma {:induction false} RegisteredIsDisjoint(adapters: seq<Option<Adapter>>)
    ensures Disjoint(Registered(adapters).0)
  {
    if adapters != [] {
      var n := |adapters| - 1;
      RegisteredIsDisjoint(adapters[..n]);
      var (modules, fault) := Registered(adapters[..n]);
      if fault.None? && AdapterFault(modules, adapters[n]).None? {
        RegisterKeepsDisjoint(modules, ModuleOf(adapters[n].value));
      }
      hide Disjoint, Proper, ModuleOf, AdapterFault;
    }
  }

  // ---------- The tables ----------

  /** Every tool of the adapter is bound to the adapter's own definition and operation. */
  ghost predicate Binds(operations: map<string, nat>, definitions: map<string, Tool>, a: Adapter) {
    forall i :: 0 <= i < |a.tools| ==>
      var name := a.tools[i].name;
      && name in operations && name in definitions && definitions[name] == a.tools[i]
      && name in a.operations && a.operations[name] == Some(operations[name])
  }

  /** The two tables differ at most at the given names. */
  ghost predicate AgreeOutside<V>(before: map<string, V>, after: map<string, V>, names: seq<string>) {
    forall name :: name !in names ==>
      (name in after <==> name in before) && (name in before && name in after ==> after[name] == before[name])
  }

  class Capabilities {
    const registry: Registry
    var operations: map<string, nat>
    var definitions: map<string, Tool>
    var adapters: seq<Adapter>
    var actualTools: seq<string>

    constructor (selected: seq<string>)
      ensures fresh(registry) && registry.modules == [] && registry.selected == selected
      ensures operations == map[] && definitions == map[] && adapters == [] && actualTools == []
    {
      registry := new Registry(selected);
      operations, definitions, adapters, actualTools := map[], map[], [], [];
    }

    /** The loop over an adapter's tools; it writes the tables before anything else is checked. */
    method BindTools(a: Adapter) returns (ok: bool)
      modifies this`operations, this`definitions
      ensures ok <==> forall i :: 0 <= i < |a.tools| ==> Bindable(a, i)
      ensures ok ==> Binds(operations, definitions, a)
      ensures AgreeOutside(old(operations), operations, ToolNames(a.tools))
      ensures AgreeOutside(old(definitions), definitions, ToolNames(a.tools))
    {
      var seen: set<string> := {};
      ghost var names := ToolNames(a.tools);
      for i := 0 to |a.tools|
        invariant forall j :: 0 <= j < i ==> Bindable(a, j)
        invariant forall name :: name in seen <==> exists j :: 0 <= j < i && a.tools[j].name == name
        invariant Binds(operations, definitions, a.(tools := a.tools[..i]))
        invariant AgreeOutside(old(operations), operations, names)
        invariant AgreeOutside(old(definitions), definitions, names)
      {
        var tool := a.tools[i];
        if tool.name == "" || tool.name in seen {
          assert !Bindable(a, i);
          return false;
        }
        if tool.name !in a.operations || a.operations[tool.name].None? {
          assert !Bindable(a, i);
          return false;
        }
        seen := seen + {tool.name};
        assert names[i] == tool.name;
        operations := operations[tool.name := a.operations[tool.name].value];
        definitions := definitions[tool.name := tool];
      }
      assert a.tools[..|a.tools|] == a.tools;
      return true;
    }

    method RegisterAdapter(adapter: Option<Adapter>) returns (fault: Option<Fault>)
      modifies this`operations, this`definitions, registry`modules
      ensures fault == AdapterFault(old(registry.modules), adapter)
      ensures registry.modules ==
              if fault.None? then old(registry.modules) + [ModuleOf(adapter.value)] else old(registry.modules)
      ensures fault.None? ==>
                && adapter.Some? && Binds(operations, definitions, adapter.value)
                && AgreeOutside(old(operations), operations, ToolNames(adapter.value.tools))
                && AgreeOutside(old(definitions), definitions, ToolNames(adapter.value.tools))
    {
      hide RegisterFault, Binds, AgreeOutside;
      if adapter.None? {
        return Some(AdapterInvalid);
      }
      var a := adapter.value;
      if a.id == "" || a.kind == "" || a.version == "" || |a.tools| == 0 {
        return Some(AdapterInvalid);
      }
      var ok := BindTools(a);
      if !ok {
        return Some(AdapterInvalid);
      }
      var names := ToolNames(a.tools);
      if exists name :: name in a.operations && name !in names {
        return Some(AdapterInvalid);
      }
      fault := registry.Register(Module(a.id, a.dependencies, names));
    }

    method RegisterAdapters(all: seq<Option<Adapter>>) returns (fault: Option<Fault>)
      requires registry.modules == [] && adapters == []
      modifies this`operations, this`definitions, this`adapters, registry`modules
      ensures (registry.modules, fault) == Registered(all)
      ensures fault.None? ==> Bound(all, operations, definitions)
    {
      hide AdapterFault, ModuleOf, Bound, AgreeOutside;
      NothingBound(operations, definitions);
      for k := 0 to |all|
        invariant (registry.modules, None) == Registered(all[..k])
        invariant Bound(all[..k], operations, definitions)
      {
        assert all[..k + 1][..k] == all[..k];
        ghost var ops, defs := operations, definitions;
        fault := RegisterAdapter(all[k]);
        if fault.Some? {
          FaultStays(all, k + 1);
          return;
        }
        OneMoreBound(all[..k + 1], ops, defs, operations, definitions);
        adapters := adapters + [all[k].value];
      }
      assert all[..|all|] == all;
      return None;
    }

    /** The mounting loops of BuildWithAdapters. */
    method Expose(enabled: seq<Module>) returns (exposed: seq<Exposed>, ok: bool)
      requires actualTools == []
      requires forall i :: 0 <= i < |enabled| ==> Served(enabled[i], operations, definitions)
      modifies this`actualTools
      ensures ok && actualTools == AllTools(enabled) && |exposed| == |actualTools|
      ensures forall i :: 0 <= i < |exposed| ==>
                actualTools[i] in definitions && actualTools[i] in operations
                && exposed[i] == Exposed(definitions[actualTools[i]], operations[actualTools[i]])
    {
      exposed := [];
      for i := 0 to |enabled|
        invariant actualTools == AllTools(enabled[..i]) && |exposed| == |actualTools|
        invariant forall x :: 0 <= x < |exposed| ==>
                    actualTools[x] in definitions && actualTools[x] in operations
                    && exposed[x] == Exposed(definitions[actualTools[x]], operations[actualTools[x]])
      {
        assert enabled[..i + 1][..i] == enabled[..i];
        var tools := enabled[i].tools;
        assert Served(enabled[i], operations, definitions);
        for j := 0 to |tools|
          invariant actualTools == AllTools(enabled[..i]) + tools[..j] && |exposed| == |actualTools|
          invariant forall x :: 0 <= x < |exposed| ==>
                      actualTools[x] in definitions && actualTools[x] in operations
                      && exposed[x] == Exposed(definitions[actualTools[x]], operations[actualTools[x]])
        {
          var name := tools[j];
          if name !in definitions || name !in operations {
            return exposed, false;
          }
          exposed := exposed + [Exposed(definitions[name], operations[name])];
          actualTools := actualTools + [name];
        }
      }
      assert enabled[..|enabled|] == enabled;
      return exposed, true;
    }

    /**
     BuildWithAdapters up to serving. It fails for a registration fault or an invalid selection and
     for nothing else; what it exposes is exactly the tools of the enabled modules, none twice,
     each with the definition and the operation of its own, enabled, adapter.
     */
    method Build(all: seq<Option<Adapter>>) returns (exposed: seq<Exposed>, fault: Option<Fault>)
      requires registry.modules == [] && adapters == [] && actualTools == []
      modifies this, registry`modules
      ensures fault.None? <==> Registrable(all) && SelectionValid(Registered(all).0, registry.selected)
      ensures Registered(all).1.Some? ==> fault == Registered(all).1
      ensures fault != Some(SurfaceMismatch)
      ensures fault.None? ==>
                && actualTools == AllTools(Enabled(Registered(all).0, registry.selected, |Registered(all).0|))
                && DistinctNames(actualTools) && |exposed| == |actualTools|
                && forall i :: 0 <= i < |exposed| ==>
                     exposed[i].tool.name == actualTools[i]
                     && OwnBinding(all, Registered(all).0, registry.selected, exposed[i])
    {
      exposed := [];
      RegisteredExactly(all);
      NoMismatchIn(all);
      hide Registrable, SelectionValid, Registered, Bound, Served, OwnBinding, Disjoint, DistinctNames, AllTools,
           Enabled;
      fault := RegisterAdapters(all);
      if fault.Some? {
        return;
      }
      fault := registry.ValidateSelection();
      if fault.Some? {
        ProblemsAreNotMismatches(registry.modules, registry.selected);
        return;
      }
      var enabled := registry.EnabledModules();
      EnabledAreServed(all, registry.modules, registry.selected, operations, definitions);
      var ok: bool;
      exposed, ok := Expose(enabled);
      if !ok {
        fault := Some(SurfaceMismatch);
        return;
      }
      var missing, orphan, consistent := registry.SurfaceAudit(actualTools);
      if !consistent {
        fault := Some(SurfaceMismatch);
        return;
      }
      ExposureIsOwn(all, registry.modules, registry.selected, operations, definitions, actualTools, exposed);
    }
  }

  /** Every adapter is there and bound. */
  ghost predicate Bound(all: seq<Option<Adapter>>, operations: map<string, nat>, definitions: map<string, Tool>) {
    forall k :: 0 <= k < |all| ==> all[k].Some? && Binds(operations, definitions, all[k].value)
  }

  lemma NothingBound(operations: map<string, nat>, definitions: map<string, Tool>)
    ensures Bound([], operations, definitions)
  {}

  lemma {:induction false} FaultStays(all: seq<Option<Adapter>>, i: nat)
    requires i <= |all| && Registered(all[..i]).1.Some?
    ensures Registered(all) == Registered(all[..i])
    decreases |all|
  {
    hide AdapterFault;
    if i == |all| {
      assert all[..i] == all;
    } else {
      assert all[..|all| - 1][..i] == all[..i];
      FaultStays(all[..|all| - 1], i);
    }
  }

  /** Registering one more adapter overwrites no binding of the ones before it: their tools have other names. */
  lemma BindingStays(ops: map<string, nat>, defs: map<string, Tool>, ops': map<string, nat>, defs': map<string, Tool>,
                     a: Adapter, b: Adapter)
    requires Binds(ops, defs, a) && !Collides(ModuleOf(a), ModuleOf(b))
    requires AgreeOutside(ops, ops', ToolNames(b.tools)) && AgreeOutside(defs, defs', ToolNames(b.tools))
    ensures Binds(ops', defs', a)
  {
    var names, others := ToolNames(a.tools), ToolNames(b.tools);
    assert forall j :: 0 <= j < |others| ==> others[j] !in names;
    forall i | 0 <= i < |a.tools| ensures names[i] !in others {}
  }

  lemma OneMoreBound(all: seq<Option<Adapter>>, ops: map<string, nat>, defs: map<string, Tool>,
                     ops': map<string, nat>, defs': map<string, Tool>)
    requires all != [] && Registered(all).1.None? && all[|all| - 1].Some?
    requires Bound(all[..|all| - 1], ops, defs) && Binds(ops', defs', all[|all| - 1].value)
    requires AgreeOutside(ops, ops', ToolNames(all[|all| - 1].value.tools))
    requires AgreeOutside(defs, defs', ToolNames(all[|all| - 1].value.tools))
    ensures Bound(all, ops', defs')
  {
    RegisteredExactly(all);
    var n := |all| - 1;
    hide Registered, Proper, Binds, AgreeOutside, Collides, ModuleOf;
    forall k | 0 <= k < n ensures all[k].Some? && Binds(ops', defs', all[k].value) {
      assert all[..n][k] == all[k];
      BindingStays(ops, defs, ops', defs', all[k].value, all[n].value);
    }
  }

  // ---------- What is exposed ----------

  /** Every tool of the module is in both tables. */
  ghost predicate Served(m: Module, operations: map<string, nat>, definitions: map<string, Tool>) {
    forall i :: 0 <= i < |m.tools| ==> m.tools[i] in operations && m.tools[i] in definitions
  }

  ghost predicate Offers(a: Adapter, e: Exposed) {
    && e.tool in a.tools
    && e.tool.name in a.operations && a.operations[e.tool.name] == Some(e.operation)
  }

  /** An enabled adapter of the list offers the tool with this definition and operation. */
  ghost predicate OwnBinding(all: seq<Option<Adapter>>, modules: seq<Module>, selected: seq<string>, e: Exposed) {
    exists k :: 0 <= k < |all| && all[k].Some? && IsEnabled(modules, selected, all[k].value.id)
      && Offers(all[k].value, e)
  }

  lemma ModuleIsServed(a: Adapter, operations: map<string, nat>, definitions: map<string, Tool>)
    requires Binds(operations, definitions, a)
    ensures Served(ModuleOf(a), operations, definitions)
    ensures forall name :: name in ModuleOf(a).tools ==>
              && name in operations && name in definitions && definitions[name].name == name
              && Offers(a, Exposed(definitions[name], operations[name]))
  {
    forall name | name in ModuleOf(a).tools
      ensures name in operations && name in definitions && definitions[name].name == name
              && Offers(a, Exposed(definitions[name], operations[name]))
    {
      var i :| 0 <= i < |a.tools| && ToolNames(a.tools)[i] == name;
      assert a.tools[i].name == name;
    }
  }

  /** Each enabled module is that of an adapter. */
  lemma EnabledHasAdapter(all: seq<Option<Adapter>>, selected: seq<string>, m: Module)
    requires Registered(all).1.None? && m in Enabled(Registered(all).0, selected, |Registered(all).0|)
    ensures exists k :: 0 <= k < |all| && all[k].Some? && m == ModuleOf(all[k].value)
                        && IsEnabled(Registered(all).0, selected, all[k].value.id)
  {
    RegisteredExactly(all);
    var modules := Registered(all).0;
    EnabledAreModules(modules, selected, |modules|);
    hide Registered, Enabled, IsEnabled, Proper, Collides;
    var k :| 0 <= k < |modules| && modules[k] == m;
    assert modules[k] == ModuleOf(all[k].value);
  }

  lemma EnabledAreServed(all: seq<Option<Adapter>>, modules: seq<Module>, selected: seq<string>,
                         operations: map<string, nat>, definitions: map<string, Tool>)
    requires (modules, None) == Registered(all) && Bound(all, operations, definitions)
    ensures forall m :: m in Enabled(modules, selected, |modules|) ==> Served(m, operations, definitions)
  {
    hide Registered, Enabled, IsEnabled, Served, Binds, ModuleOf;
    forall m | m in Enabled(modules, selected, |modules|) ensures Served(m, operations, definitions) {
      EnabledHasAdapter(all, selected, m);
      var k :| 0 <= k < |all| && all[k].Some? && m == ModuleOf(all[k].value)
               && IsEnabled(modules, selected, all[k].value.id);
      ModuleIsServed(all[k].value, operations, definitions);
    }
  }

  lemma ExposureIsOwn(all: seq<Option<Adapter>>, modules: seq<Module>, selected: seq<string>,
                      operations: map<string, nat>, definitions: map<string, Tool>, tools: seq<string>,
                      exposed: seq<Exposed>)
    requires (modules, None) == Registered(all) && Bound(all, operations, definitions)
    requires tools == AllTools(Enabled(modules, selected, |modules|)) && |exposed| == |tools|
    requires forall i :: 0 <= i < |exposed| ==>
               tools[i] in definitions && tools[i] in operations
               && exposed[i] == Exposed(definitions[tools[i]], operations[tools[i]])
    ensures DistinctNames(tools)
    ensures forall i :: 0 <= i < |exposed| ==>
              exposed[i].tool.name == tools[i] && OwnBinding(all, modules, selected, exposed[i])
  {
    RegisteredIsDisjoint(all);
    EnabledAreDisjoint(modules, selected, |modules|);
    var enabled := Enabled(modules, selected, |modules|);
    AllToolsAreDistinct(enabled);
    hide Registered, Enabled, IsEnabled, Offers, Binds, ModuleOf, AllTools, DistinctNames, Disjoint;
    forall i | 0 <= i < |exposed|
      ensures exposed[i].tool.name == tools[i] && OwnBinding(all, modules, selected, exposed[i])
    {
      AllToolsHas(enabled, tools[i]);
      var x :| 0 <= x < |enabled| && tools[i] in enabled[x].tools;
      EnabledHasAdapter(all, selected, enabled[x]);
      var k :| 0 <= k < |all| && all[k].Some? && enabled[x] == ModuleOf(all[k].value)
               && IsEnabled(modules, selected, all[k].value.id);
      ModuleIsServed(all[k].value, operations, definitions);
    }
  }

  // ---------- No surface mismatch ----------

  lemma {:induction false} NoMismatchInTools(tools: seq<string>)
    ensures ToolFault(tools) != Some(SurfaceMismatch)
  {
    if tools != [] {
      NoMismatchInTools(tools[..|tools| - 1]);
    }
  }

  lemma {:induction false} NoMismatchIn(all: seq<Option<Adapter>>)
    ensures Registered(all).1 != Some(SurfaceMismatch)
  {
    if all != [] {
      var n := |all| - 1;
      NoMismatchIn(all[..n]);
      if all[n].Some? {
        NoMismatchInTools(ModuleOf(all[n].value).tools);
      }
      hide Proper, ModuleOf, ToolFault, CollidesWithAny;
    }
  }

  lemma ProblemsAreNotMismatches(modules: seq<Module>, selected: seq<string>)
    ensures forall i, j :: 0 <= i < |modules| && 0 <= j < |modules[i].dependencies| ==>
              ProblemAt(modules, selected, i, j) != Some(SurfaceMismatch)
  {
    hide IsEnabled, Known;
  }

  // ---------- Mounting, told by the adapters alone ----------

  /** Identified, with tools under distinct names, and with one operation for each of them and no other. */
  ghost predicate WellFormed(a: Adapter) {
    && a.id != "" && a.kind != "" && a.version != "" && a.tools != []
    && (forall i :: 0 <= i < |a.tools| ==> a.tools[i].name != "")
    && (forall i, j :: 0 <= i < j < |a.tools| ==> a.tools[i].name != a.tools[j].name)
    && (forall name :: name in a.operations ==>
          a.operations[name].Some? && exists i :: 0 <= i < |a.tools| && a.tools[i].name == name)
    && forall i :: 0 <= i < |a.tools| ==> a.tools[i].name in a.operations
  }

  lemma ProperMeansWellFormed(a: Adapter)
    ensures Proper(a) <==> WellFormed(a)
  {
    if Proper(a) {
      forall i, j | 0 <= i < j < |a.tools| ensures a.tools[i].name != a.tools[j].name {
        assert Bindable(a, j);
      }
      forall name | name in a.operations
        ensures a.operations[name].Some? && exists i :: 0 <= i < |a.tools| && a.tools[i].name == name
      {
        var i :| 0 <= i < |a.tools| && ToolNames(a.tools)[i] == name;
        assert Bindable(a, i) && a.tools[i].name == name;
      }
      forall i | 0 <= i < |a.tools| ensures a.tools[i].name != "" && a.tools[i].name in a.operations {
        assert Bindable(a, i);
      }
    }
    if WellFormed(a) {
      forall i | 0 <= i < |a.tools| ensures Bindable(a, i) {
        assert forall j :: 0 <= j < i ==> a.tools[j].name != a.tools[i].name;
      }
      forall name | name in a.operations ensures name in ToolNames(a.tools) {
        var i :| 0 <= i < |a.tools| && a.tools[i].name == name;
        assert ToolNames(a.tools)[i] == name;
      }
    }
  }

  /** The adapters have the same id or a tool name in common. */
  ghost predicate Share(a: Adapter, b: Adapter) {
    a.id == b.id || exists i, j :: 0 <= i < |a.tools| && 0 <= j < |b.tools| && a.tools[i].name == b.tools[j].name
  }

  lemma CollidesMeansShare(a: Adapter, b: Adapter)
    ensures Collides(ModuleOf(a), ModuleOf(b)) <==> Share(a, b)
  {
    var names, others := ToolNames(a.tools), ToolNames(b.tools);
    if Collides(ModuleOf(a), ModuleOf(b)) && a.id != b.id {
      var j :| 0 <= j < |others| && others[j] in names;
      var i :| 0 <= i < |names| && names[i] == others[j];
      assert a.tools[i].name == b.tools[j].name;
    }
    if Share(a, b) && a.id != b.id {
      var i, j :| 0 <= i < |a.tools| && 0 <= j < |b.tools| && a.tools[i].name == b.tools[j].name;
      assert others[j] == names[i] && others[j] in names;
    }
  }

  /** Every adapter is there and well formed, and no two share an id or a tool name. */
  ghost predicate Compatible(all: seq<Option<Adapter>>) {
    && (forall k :: 0 <= k < |all| ==> all[k].Some? && WellFormed(all[k].value))
    && forall i, j :: 0 <= i < j < |all| && all[i].Some? && all[j].Some? ==> !Share(all[i].value, all[j].value)
  }

  lemma RegistrableMeansCompatible(all: seq<Option<Adapter>>)
    ensures Registrable(all) <==> Compatible(all)
  {
    hide Proper, WellFormed, Collides, ModuleOf, Share;
    forall k | 0 <= k < |all| && all[k].Some? ensures Proper(all[k].value) <==> WellFormed(all[k].value) {
      ProperMeansWellFormed(all[k].value);
    }
    forall i, j | 0 <= i < j < |all| && all[i].Some? && all[j].Some?
      ensures Collides(ModuleOf(all[i].value), ModuleOf(all[j].value)) <==> Share(all[i].value, all[j].value)
    {
      CollidesMeansShare(all[i].value, all[j].value);
    }
  }

  /** Some adapter has this id. */
  ghost predicate Provided(all: seq<Option<Adapter>>, id: string) {
    exists k :: 0 <= k < |all| && all[k].Some? && all[k].value.id == id
  }

  /** Nothing is selected, or the adapter is. */
  predicate Chosen(a: Adapter, selected: seq<string>) {
    selected == [] || a.id in selected
  }

  /** All that is selected is provided, and so is every dependency; chosen adapters depend on chosen ones only. */
  ghost predicate Closed(all: seq<Option<Adapter>>, selected: seq<string>) {
    && (forall id :: id in selected ==> Provided(all, id))
    && forall k, d :: 0 <= k < |all| && all[k].Some? && d in all[k].value.dependencies ==>
         Provided(all, d) && (selected != [] && all[k].value.id in selected ==> d in selected)
  }

  /** The modules registered are the adapters', one by one. */
  ghost predicate ModulesOf(all: seq<Option<Adapter>>, modules: seq<Module>) {
    |modules| == |all| && forall k :: 0 <= k < |all| ==> all[k].Some? && modules[k] == ModuleOf(all[k].value)
  }

  lemma ProvidedMeansRegistered(all: seq<Option<Adapter>>, modules: seq<Module>, id: string)
    requires ModulesOf(all, modules)
    ensures Provided(all, id) <==> IsRegistered(modules, id)
  {
    if Provided(all, id) {
      var k :| 0 <= k < |all| && all[k].Some? && all[k].value.id == id;
      assert modules[k].id == id;
    }
  }

  lemma ClosedMeansValid(all: seq<Option<Adapter>>, modules: seq<Module>, selected: seq<string>)
    requires ModulesOf(all, modules)
    ensures SelectionValid(modules, selected) <==> Closed(all, selected)
  {
    SelectionValidExactly(modules, selected);
    hide SelectionValid, Provided, IsRegistered, ToolNames;
    forall id ensures Provided(all, id) <==> IsRegistered(modules, id) {
      ProvidedMeansRegistered(all, modules, id);
    }
    forall k, d | 0 <= k < |all| && d in all[k].value.dependencies
      ensures DependencyServed(modules, selected, k, d) <==>
              Provided(all, d) && (selected != [] && all[k].value.id in selected ==> d in selected)
    {}
    hide DependencyServed;
    if Closed(all, selected) {
      forall i, d | 0 <= i < |modules| && d in modules[i].dependencies
        ensures DependencyServed(modules, selected, i, d)
      {
        assert d in all[i].value.dependencies;
      }
    }
    if SelectionValid(modules, selected) {
      forall k, d | 0 <= k < |all| && all[k].Some? && d in all[k].value.dependencies
        ensures Provided(all, d) && (selected != [] && all[k].value.id in selected ==> d in selected)
      {
        assert d in modules[k].dependencies;
      }
    }
  }

  /**
   The server can be built exactly when the adapters are well formed and share nothing, what is selected is
   provided, every dependency is provided, and what is chosen depends on what is chosen.
   */
  lemma MountableExactly(all: seq<Option<Adapter>>, selected: seq<string>)
    ensures Registrable(all) && SelectionValid(Registered(all).0, selected) <==>
            Compatible(all) && Closed(all, selected)
  {
    RegisteredExactly(all);
    RegistrableMeansCompatible(all);
    hide Registered, Registrable, Compatible, SelectionValid, Closed, ModuleOf;
    if Registrable(all) {
      assert ModulesOf(all, Registered(all).0) by { AllThere(all); }
      hide ModulesOf;
      ClosedMeansValid(all, Registered(all).0, selected);
    }
  }

  lemma AllThere(all: seq<Option<Adapter>>)
    requires Registrable(all)
    ensures forall k :: 0 <= k < |all| ==> all[k].Some?
  {
    hide Proper, Collides, ModuleOf;
  }

  /** What is exposed are the tools of the chosen adapters and no others. */
  lemma ExposedExactly(all: seq<Option<Adapter>>, selected: seq<string>, name: string)
    requires Registrable(all)
    ensures name in AllTools(Enabled(Registered(all).0, selected, |Registered(all).0|)) <==>
            exists k, i :: 0 <= k < |all| && all[k].Some? && Chosen(all[k].value, selected)
                           && 0 <= i < |all[k].value.tools| && all[k].value.tools[i].name == name
  {
    RegisteredExactly(all);
    AllThere(all);
    var modules := Registered(all).0;
    hide Registered, Registrable, AllTools, Enabled;
    ExpectedExactly(modules, selected, name);
    if k :| 0 <= k < |modules| && On(modules, selected, k) && name in modules[k].tools {
      assert modules[k] == ModuleOf(all[k].value);
      var i :| 0 <= i < |modules[k].tools| && modules[k].tools[i] == name;
      assert all[k].value.tools[i].name == name && Chosen(all[k].value, selected);
    }
    if k, i :| 0 <= k < |all| && all[k].Some? && Chosen(all[k].value, selected)
               && 0 <= i < |all[k].value.tools| && all[k].value.tools[i].name == name
    {
      assert modules[k] == ModuleOf(all[k].value);
      assert modules[k].tools[i] == name && On(modules, selected, k);
    }
  }

  /** An adapter that is missing or not well formed is invalid; any other fault is one of the registry. */
  lemma AdapterFaultExactly(modules: seq<Module>, a: Option<Adapter>)
    ensures AdapterFault(modules, a) == Some(AdapterInvalid) <==> a.None? || !WellFormed(a.value)
    ensures AdapterFault(modules, a).Some? && AdapterFault(modules, a) != Some(AdapterInvalid) ==>
              AdapterFault(modules, a) == Some(RegistryCollision)
  {
    if a.Some? {
      ProperMeansWellFormed(a.value);
      if Proper(a.value) {
        ProperModule(a.value);
        AcceptedExactly(modules, ModuleOf(a.value));
      }
      hide Proper, WellFormed, ToolFault, FirstBadTool;
    }
  }

  /** Adapter n is the first with a fault, and this is its fault. */
  ghost predicate FirstFault(all: seq<Option<Adapter>>, n: nat, fault: Fault) {
    n < |all| && Compatible(all[..n]) && AdapterFault(Registered(all[..n]).0, all[n]) == Some(fault)
  }

  /** The fault reported is that of the first adapter that has one. */
  lemma {:induction false} FirstFaultIsReported(all: seq<Option<Adapter>>)
    requires Registered(all).1.Some?
    ensures exists n: nat :: FirstFault(all, n, Registered(all).1.value)
  {
    hide AdapterFault, Compatible, ModuleOf;
    var n := |all| - 1;
    if Registered(all[..n]).1.Some? {
      FirstFaultIsReported(all[..n]);
      var k: nat :| FirstFault(all[..n], k, Registered(all[..n]).1.value);
      assert all[..n][..k] == all[..k];
      assert FirstFault(all, k, Registered(all).1.value);
    } else {
      RegisteredExactly(all[..n]);
      RegistrableMeansCompatible(all[..n]);
      assert FirstFault(all, n, Registered(all).1.value);
    }
  }
}
