/** capabilities/registry.go: the modules of the bridge, their tools, and which of them are enabled. */
module Registry {
  import opened Text

  datatype Module = Module(id: string, dependencies: seq<string>, tools: seq<string>)

  datatype Fault =
    | AdapterInvalid | RegistryInvalid | RegistryCollision | UnknownModule | DependencyMissing | SurfaceMismatch

  // ---------- Registration ----------

  /** What is wrong with a list of tool names: the first that is empty or a repetition. */
  function ToolFault(tools: seq<string>): Option<Fault> {
    if tools == [] then None
    else
      var n := |tools| - 1;
      if ToolFault(tools[..n]).Some? then ToolFault(tools[..n])
      else if tools[n] == "" then Some(RegistryInvalid)
      else if tools[n] in tools[..n] then Some(RegistryCollision)
      else None
  }

  predicate Collides(a: Module, b: Module) {
    a.id == b.id || exists i :: 0 <= i < |b.tools| && b.tools[i] in a.tools
  }

  predicate CollidesWithAny(modules: seq<Module>, m: Module) {
    exists k :: 0 <= k < |modules| && Collides(modules[k], m)
  }

  function RegisterFault(modules: seq<Module>, m: Module): Option<Fault> {
    if m.id == "" || m.tools == [] then Some(RegistryInvalid)
    else if ToolFault(m.tools).Some? then ToolFault(m.tools)
    else if CollidesWithAny(modules, m) then Some(RegistryCollision)
    else None
  }

  lemma {:induction false} ToolFaultStays(tools: seq<string>, i: nat)
    requires i <= |tools| && ToolFault(tools[..i]).Some?
    ensures ToolFault(tools) == ToolFault(tools[..i])
    decreases |tools|
  {
    if i == |tools| {
      assert tools[..i] == tools;
    } else {
      assert tools[..|tools| - 1][..i] == tools[..i];
      ToolFaultStays(tools[..|tools| - 1], i);
    }
  }

  lemma ToolFaultOneMore(tools: seq<string>, i: nat)
    requires i < |tools| && ToolFault(tools[..i]).None?
    ensures ToolFault(tools[..i + 1]) ==
            if tools[i] == "" then Some(RegistryInvalid)
            else if tools[i] in tools[..i] then Some(RegistryCollision)
            else None
  {
    assert tools[..i + 1][..i] == tools[..i];
  }

  ghost predicate DistinctNames(tools: seq<string>) {
    forall i, j :: 0 <= i < j < |tools| ==> tools[i] != tools[j]
  }

  lemma {:induction false} NoToolFaultMeansProper(tools: seq<string>)
    ensures ToolFault(tools).None? <==> "" !in tools && DistinctNames(tools)
  {
    if tools != [] {
      var n := |tools| - 1;
      NoToolFaultMeansProper(tools[..n]);
      assert tools == tools[..n] + [tools[n]];
    }
  }

  // ---------- Selection ----------

  predicate Known(modules: seq<Module>, id: string) {
    exists k :: 0 <= k < |modules| && modules[k].id == id
  }

  predicate IsEnabled(modules: seq<Module>, selected: seq<string>, id: string) {
    if selected == [] then Known(modules, id) else id in selected
  }

  function Enabled(modules: seq<Module>, selected: seq<string>, n: nat): seq<Module>
    requires n <= |modules|
  {
    if n == 0 then []
    else
      Enabled(modules, selected, n - 1) +
      if IsEnabled(modules, selected, modules[n - 1].id) then [modules[n - 1]] else []
  }

  /** What is wrong with dependency j of module i. */
  function ProblemAt(modules: seq<Module>, selected: seq<string>, i: nat, j: nat): Option<Fault>
    requires i < |modules| && j < |modules[i].dependencies|
  {
    var m := modules[i];
    if !Known(modules, m.dependencies[j]) then Some(RegistryInvalid)
    else if IsEnabled(modules, selected, m.id) && !IsEnabled(modules, selected, m.dependencies[j])
    then Some(DependencyMissing)
    else None
  }

  /** No module before i has a problem, nor any dependency of module i before j. */
  ghost predicate ClearBefore(modules: seq<Module>, selected: seq<string>, i: nat, j: nat)
    requires i <= |modules|
  {
    && (forall a, b :: 0 <= a < i && 0 <= b < |modules[a].dependencies| ==> ProblemAt(modules, selected, a, b).None?)
    && (i < |modules| ==> forall b :: 0 <= b < j && b < |modules[i].dependencies| ==>
        ProblemAt(modules, selected, i, b).None?)
  }

  ghost predicate SelectionValid(modules: seq<Module>, selected: seq<string>) {
    (forall k :: 0 <= k < |selected| ==> Known(modules, selected[k])) && ClearBefore(modules, selected, |modules|, 0)
  }

  /** Each of these modules is a dependency of the one before it. */
  ghost predicate DependencyPath(modules: seq<Module>, path: seq<string>) {
    forall k :: 0 < k < |path| ==> DependsOn(modules, path[k - 1], path[k])
  }

  predicate DependsOn(modules: seq<Module>, id: string, dependency: string) {
    exists i :: 0 <= i < |modules| && modules[i].id == id && dependency in modules[i].dependencies
  }

  /** In a valid selection, whatever an enabled module depends on, however indirectly, is registered and enabled. */
  lemma {:induction false} EnabledIsClosed(modules: seq<Module>, selected: seq<string>, path: seq<string>)
    requires SelectionValid(modules, selected) && DependencyPath(modules, path)
    requires path != [] && IsEnabled(modules, selected, path[0])
    ensures IsEnabled(modules, selected, path[|path| - 1])
    ensures |path| > 1 ==> Known(modules, path[|path| - 1])
    decreases |path|
  {
    hide Known, IsEnabled, SelectionValid, DependsOn;
    if |path| > 1 {
      var n := |path| - 1;
      EnabledIsClosed(modules, selected, path[..n]);
      assert DependsOn(modules, path[n - 1], path[n]);
      DependencyIsEnabled(modules, selected, path[n - 1], path[n]);
    }
  }

  lemma DependencyIsEnabled(modules: seq<Module>, selected: seq<string>, user: string, id: string)
    requires SelectionValid(modules, selected) && DependsOn(modules, user, id) && IsEnabled(modules, selected, user)
    ensures Known(modules, id) && IsEnabled(modules, selected, id)
  {
    hide Known, IsEnabled;
    var i :| 0 <= i < |modules| && modules[i].id == user && id in modules[i].dependencies;
    var j :| 0 <= j < |modules[i].dependencies| && modules[i].dependencies[j] == id;
    assert ProblemAt(modules, selected, i, j).None?;
  }

  // ---------- Tools ----------

  function AllTools(modules: seq<Module>): seq<string> {
    if modules == [] then [] else AllTools(modules[..|modules| - 1]) + modules[|modules| - 1].tools
  }

  /** The registry's own invariant: proper tool names, and no two modules share an id or a tool. */
  ghost predicate Disjoint(modules: seq<Module>) {
    && (forall k :: 0 <= k < |modules| ==>
        modules[k].id != "" && modules[k].tools != [] && ToolFault(modules[k].tools).None?)
    && forall i, j :: 0 <= i < j < |modules| ==> !Collides(modules[i], modules[j])
  }

  lemma RegisterKeepsDisjoint(modules: seq<Module>, m: Module)
    requires Disjoint(modules)
    ensures Disjoint(modules + [m]) <==> RegisterFault(modules, m).None?
  {
    hide Collides, ToolFault;
    var more := modules + [m];
    assert forall k :: 0 <= k < |modules| ==> more[k] == modules[k];
    assert more[|modules|] == m;
    if CollidesWithAny(modules, m) {
      var k :| 0 <= k < |modules| && Collides(modules[k], m);
      assert Collides(more[k], more[|modules|]);
    }
  }

  lemma {:induction false} AllToolsHas(modules: seq<Module>, tool: string)
    ensures tool in AllTools(modules) <==> exists k :: 0 <= k < |modules| && tool in modules[k].tools
  {
    if modules != [] {
      var n := |modules| - 1;
      AllToolsHas(modules[..n], tool);
      if tool in AllTools(modules[..n]) {
        var k :| 0 <= k < n && tool in modules[..n][k].tools;
        assert tool in modules[k].tools;
      }
      if exists k :: 0 <= k < |modules| && tool in modules[k].tools && k < n {
        var k :| 0 <= k < n && tool in modules[k].tools;
        assert tool in modules[..n][k].tools;
      }
    }
  }

  /** No tool is exposed twice. */
  lemma {:induction false} AllToolsAreDistinct(modules: seq<Module>)
    requires Disjoint(modules)
    ensures DistinctNames(AllTools(modules))
  {
    if modules != [] {
      var n := |modules| - 1;
      assert Disjoint(modules[..n]);
      AllToolsAreDistinct(modules[..n]);
      NoToolFaultMeansProper(modules[n].tools);
      hide Disjoint, ToolFault;
      var earlier, last := AllTools(modules[..n]), modules[n].tools;
      forall i | 0 <= i < |last| ensures last[i] !in earlier {
        AllToolsHas(modules[..n], last[i]);
        forall k | 0 <= k < n ensures last[i] !in modules[k].tools {
          NotShared(modules, k, i);
        }
      }
    }
  }

  lemma NotShared(modules: seq<Module>, k: nat, i: nat)
    requires Disjoint(modules) && k < |modules| - 1 && i < |modules[|modules| - 1].tools|
    ensures modules[|modules| - 1].tools[i] !in modules[k].tools
  {
    assert !Collides(modules[k], modules[|modules| - 1]);
  }

  lemma {:induction false} EnabledAreModules(modules: seq<Module>, selected: seq<string>, n: nat)
    requires n <= |modules|
    ensures forall m :: m in Enabled(modules, selected, n) <==>
                        IsEnabled(modules, selected, m.id) && exists k :: 0 <= k < n && modules[k] == m
  {
    hide IsEnabled;
    if n > 0 {
      EnabledAreModules(modules, selected, n - 1);
    }
  }

  lemma {:induction false} EnabledAreDisjoint(modules: seq<Module>, selected: seq<string>, n: nat)
    requires Disjoint(modules) && n <= |modules|
    ensures Disjoint(Enabled(modules, selected, n))
  {
    if n > 0 {
      EnabledAreDisjoint(modules, selected, n - 1);
      EnabledAreModules(modules, selected, n - 1);
      var earlier, m := Enabled(modules, selected, n - 1), modules[n - 1];
      hide Enabled, IsEnabled, ToolFault, Collides;
      forall k | 0 <= k < |earlier| ensures !Collides(earlier[k], m) {
        assert earlier[k] in earlier;
        var j :| 0 <= j < n - 1 && modules[j] == earlier[k];
      }
      RegisterKeepsDisjoint(earlier, m);
    }
  }

  // ---------- What registration, selection and enabling mean ----------

  /** Tool i is the first that is empty or a repetition. */
  ghost predicate FirstBadTool(tools: seq<string>, i: nat) {
    && i < |tools| && (tools[i] == "" || tools[i] in tools[..i])
    && "" !in tools[..i] && DistinctNames(tools[..i])
  }

  lemma {:induction false} BadToolFound(tools: seq<string>)
    requires ToolFault(tools).Some?
    ensures exists i: nat :: FirstBadTool(tools, i)
                             && ToolFault(tools).value == if tools[i] == "" then RegistryInvalid else RegistryCollision
  {
    var n := |tools| - 1;
    if ToolFault(tools[..n]).Some? {
      BadToolFound(tools[..n]);
      var i: nat :| FirstBadTool(tools[..n], i) && ToolFault(tools[..n]).value ==
                    if tools[..n][i] == "" then RegistryInvalid else RegistryCollision;
      assert tools[..n][..i] == tools[..i];
      assert FirstBadTool(tools, i);
    } else {
      NoToolFaultMeansProper(tools[..n]);
      assert FirstBadTool(tools, n);
    }
  }

  /** A list of tools is refused for its first bad one: as invalid if that is empty, as a collision if it repeats. */
  lemma FirstBadToolDecides(tools: seq<string>)
    ensures ToolFault(tools).Some? <==> exists i: nat :: FirstBadTool(tools, i)
    ensures forall i: nat :: FirstBadTool(tools, i) ==>
              ToolFault(tools) == Some(if tools[i] == "" then RegistryInvalid else RegistryCollision)
  {
    NoToolFaultMeansProper(tools);
    if ToolFault(tools).Some? {
      BadToolFound(tools);
    }
    hide ToolFault;
    forall i: nat | FirstBadTool(tools, i)
      ensures ToolFault(tools) == Some(if tools[i] == "" then RegistryInvalid else RegistryCollision)
    {
      if ToolFault(tools).None? {
        assert false;
      } else {
        var j: nat :| FirstBadTool(tools, j) && ToolFault(tools).value ==
                      if tools[j] == "" then RegistryInvalid else RegistryCollision;
        OneBadTool(tools, i, j);
      }
    }
  }

  lemma NotBadBefore(tools: seq<string>, i: nat, j: nat)
    requires i < j && FirstBadTool(tools, j)
    ensures !FirstBadTool(tools, i)
  {
    var before := tools[..j];
    assert before[i] == tools[i] && before[..i] == tools[..i];
    assert forall k :: 0 <= k < i ==> before[k] == tools[k] && before[k] != before[i];
  }

  lemma OneBadTool(tools: seq<string>, i: nat, j: nat)
    requires FirstBadTool(tools, i) && FirstBadTool(tools, j)
    ensures i == j
  {
    if i < j {
      NotBadBefore(tools, i, j);
    } else if j < i {
      NotBadBefore(tools, j, i);
    }
  }

  /** A module is accepted exactly when it is proper and shares neither its id nor a tool with one before it. */
  lemma AcceptedExactly(modules: seq<Module>, m: Module)
    ensures RegisterFault(modules, m).None? <==>
            && m.id != "" && m.tools != [] && "" !in m.tools && DistinctNames(m.tools)
            && forall k :: 0 <= k < |modules| ==>
                 modules[k].id != m.id && forall tool :: tool in m.tools ==> tool !in modules[k].tools
    ensures RegisterFault(modules, m) == Some(RegistryInvalid) <==>
            m.id == "" || m.tools == [] || exists i: nat :: FirstBadTool(m.tools, i) && m.tools[i] == ""
    ensures RegisterFault(modules, m).Some? ==>
              RegisterFault(modules, m).value == RegistryInvalid || RegisterFault(modules, m).value == RegistryCollision
  {
    NoToolFaultMeansProper(m.tools);
    FirstBadToolDecides(m.tools);
    hide ToolFault, FirstBadTool, DistinctNames;
    if m.id != "" && m.tools != [] && ToolFault(m.tools).None? && !CollidesWithAny(modules, m) {
      forall k | 0 <= k < |modules|
        ensures modules[k].id != m.id && forall tool :: tool in m.tools ==> tool !in modules[k].tools
      {
        assert !Collides(modules[k], m);
      }
    }
  }

  /** Module k is on: nothing is selected, or it is. */
  predicate On(modules: seq<Module>, selected: seq<string>, k: nat)
    requires k < |modules|
  {
    selected == [] || modules[k].id in selected
  }

  lemma EnabledMeansOn(modules: seq<Module>, selected: seq<string>, k: nat)
    requires k < |modules|
    ensures IsEnabled(modules, selected, modules[k].id) <==> On(modules, selected, k)
  {}

  /** The places are those of the modules that are on, in order. */
  ghost predicate PlacesOn(modules: seq<Module>, selected: seq<string>, n: nat, places: seq<nat>)
    requires n <= |modules|
  {
    && (forall k: nat :: k in places <==> k < n && On(modules, selected, k))
    && (forall i, j :: 0 <= i < j < |places| ==> places[i] < places[j])
  }

  /** These modules are the ones at the places. */
  ghost predicate AreAt(modules: seq<Module>, places: seq<nat>, some: seq<Module>) {
    |some| == |places| && forall i :: 0 <= i < |places| ==> places[i] < |modules| && some[i] == modules[places[i]]
  }

  ghost function Places(modules: seq<Module>, selected: seq<string>, n: nat): seq<nat>
    requires n <= |modules|
  {
    if n == 0 then []
    else
      var rest := Places(modules, selected, n - 1);
      if On(modules, selected, n - 1) then rest + [n - 1] else rest
  }

  lemma {:induction false} PlacesAreOn(modules: seq<Module>, selected: seq<string>, n: nat)
    requires n <= |modules|
    ensures PlacesOn(modules, selected, n, Places(modules, selected, n))
  {
    hide On;
    if n > 0 {
      PlacesAreOn(modules, selected, n - 1);
      hide PlacesOn;
      OneMorePlace(modules, selected, n, Places(modules, selected, n - 1), Places(modules, selected, n));
    }
  }

  lemma {:induction false} EnabledAreAtPlaces(modules: seq<Module>, selected: seq<string>, n: nat)
    requires n <= |modules|
    ensures AreAt(modules, Places(modules, selected, n), Enabled(modules, selected, n))
  {
    if n > 0 {
      EnabledMeansOn(modules, selected, n - 1);
      EnabledAreAtPlaces(modules, selected, n - 1);
      hide IsEnabled, On;
    }
  }

  /** The enabled modules are the registered ones that are on, in the order they were registered in. */
  lemma EnabledInOrder(modules: seq<Module>, selected: seq<string>)
    ensures exists places: seq<nat> ::
              && PlacesOn(modules, selected, |modules|, places)
              && AreAt(modules, places, Enabled(modules, selected, |modules|))
  {
    PlacesAreOn(modules, selected, |modules|);
    EnabledAreAtPlaces(modules, selected, |modules|);
    hide PlacesOn, AreAt, Enabled, Places;
  }

  lemma OneMorePlace(modules: seq<Module>, selected: seq<string>, n: nat, places: seq<nat>, more: seq<nat>)
    requires 0 < n <= |modules| && PlacesOn(modules, selected, n - 1, places)
    requires more == if On(modules, selected, n - 1) then places + [n - 1] else places
    ensures PlacesOn(modules, selected, n, more)
  {
    hide On;
    forall i | 0 <= i < |places| ensures places[i] < n - 1 {
      assert places[i] in places;
    }
    if On(modules, selected, n - 1) {
      assert more[|places|] == n - 1;
      forall k | k in places ensures k in more {
        var i :| 0 <= i < |places| && places[i] == k;
        assert more[i] == k;
      }
    }
  }

  /** Without selectors every registered module is enabled. */
  lemma {:induction false} NothingSelectedEnablesAll(modules: seq<Module>, n: nat)
    requires n <= |modules|
    ensures Enabled(modules, [], n) == modules[..n]
  {
    if n > 0 {
      NothingSelectedEnablesAll(modules, n - 1);
      EnabledMeansOn(modules, [], n - 1);
    }
  }

  /** The tools of modules are listed module by module. */
  lemma {:induction false} ToolsOfMore(a: seq<Module>, b: seq<Module>)
    ensures AllTools(a + b) == AllTools(a) + AllTools(b)
    ensures forall m :: AllTools([m]) == m.tools
  {
    forall m ensures AllTools([m]) == m.tools {
      assert [m][..0] == [];
    }
    if b == [] {
      assert a + b == a;
    } else {
      ToolsOfMore(a, b[..|b| - 1]);
      assert (a + b)[..|a + b| - 1] == a + b[..|b| - 1];
    }
  }

  /** A tool is to be exposed exactly when a registered module that is on declares it. */
  lemma ExpectedExactly(modules: seq<Module>, selected: seq<string>, tool: string)
    ensures tool in AllTools(Enabled(modules, selected, |modules|)) <==>
            exists k :: 0 <= k < |modules| && On(modules, selected, k) && tool in modules[k].tools
  {
    var enabled := Enabled(modules, selected, |modules|);
    AllToolsHas(enabled, tool);
    EnabledAreModules(modules, selected, |modules|);
    hide Enabled, IsEnabled, AllTools, On;
    forall k | 0 <= k < |modules| ensures IsEnabled(modules, selected, modules[k].id) <==> On(modules, selected, k) {
      EnabledMeansOn(modules, selected, k);
    }
    if exists k :: 0 <= k < |enabled| && tool in enabled[k].tools {
      var k :| 0 <= k < |enabled| && tool in enabled[k].tools;
      assert enabled[k] in enabled;
    }
  }

  predicate IsRegistered(modules: seq<Module>, id: string) {
    exists k :: 0 <= k < |modules| && modules[k].id == id
  }

  /** The dependency is there, and if the module is on, so is its dependency. */
  predicate DependencyServed(modules: seq<Module>, selected: seq<string>, k: nat, dependency: string)
    requires k < |modules|
  {
    && IsRegistered(modules, dependency)
    && (On(modules, selected, k) && selected != [] ==> dependency in selected)
  }

  /** A dependency is faulty when it is not registered, or when it is off and its module on. */
  lemma ProblemExactly(modules: seq<Module>, selected: seq<string>, i: nat, j: nat)
    requires i < |modules| && j < |modules[i].dependencies|
    ensures var d := modules[i].dependencies[j];
            ProblemAt(modules, selected, i, j) ==
            if DependencyServed(modules, selected, i, d) then None
            else Some(if IsRegistered(modules, d) then DependencyMissing else RegistryInvalid)
  {
    EnabledMeansOn(modules, selected, i);
    assert Known(modules, modules[i].dependencies[j]) == IsRegistered(modules, modules[i].dependencies[j]);
    hide Known, IsRegistered;
  }

  /** A selection is valid exactly when all it names is registered and every dependency is served. */
  lemma SelectionValidExactly(modules: seq<Module>, selected: seq<string>)
    ensures SelectionValid(modules, selected) <==>
            && (forall k :: 0 <= k < |selected| ==> IsRegistered(modules, selected[k]))
            && forall i, d :: 0 <= i < |modules| && d in modules[i].dependencies ==>
                 DependencyServed(modules, selected, i, d)
  {
    assert forall k :: 0 <= k < |selected| ==> Known(modules, selected[k]) == IsRegistered(modules, selected[k]);
    hide Known, IsRegistered, On;
    forall i, j | 0 <= i < |modules| && 0 <= j < |modules[i].dependencies|
      ensures ProblemAt(modules, selected, i, j).None? <==>
              DependencyServed(modules, selected, i, modules[i].dependencies[j])
    {
      ProblemExactly(modules, selected, i, j);
    }
    hide ProblemAt, DependencyServed;
  }

  // ---------- The code ----------

  class Registry {
    var modules: seq<Module>
    const selected: seq<string>

    constructor (selected: seq<string>)
      ensures modules == [] && this.selected == selected
    {
      modules := [];
      this.selected := selected;
    }

    method Register(m: Module) returns (fault: Option<Fault>)
      modifies this`modules
      ensures fault == RegisterFault(old(modules), m)
      ensures modules == if fault.None? then old(modules) + [m] else old(modules)
    {
      if m.id == "" || |m.tools| == 0 {
        return Some(RegistryInvalid);
      }
      var local: set<string> := {};
      for i := 0 to |m.tools|
        invariant modules == old(modules)
        invariant ToolFault(m.tools[..i]).None?
        invariant forall tool :: tool in local <==> tool in m.tools[..i]
      {
        var tool := m.tools[i];
        ToolFaultOneMore(m.tools, i);
        if ToolFault(m.tools[..i + 1]).Some? {
          ToolFaultStays(m.tools, i + 1);
        }
        if tool == "" {
          return Some(RegistryInvalid);
        }
        if tool in local {
          return Some(RegistryCollision);
        }
        local := local + {tool};
      }
      assert m.tools[..|m.tools|] == m.tools;
      var collision := FindCollision(m);
      if collision {
        return Some(RegistryCollision);
      }
      modules := modules + [m];
      return None;
    }

    /** The second loop of Register. */
    method FindCollision(m: Module) returns (found: bool)
      ensures found <==> CollidesWithAny(modules, m)
    {
      for k := 0 to |modules|
        invariant forall j :: 0 <= j < k ==> !Collides(modules[j], m)
      {
        if modules[k].id == m.id {
          assert Collides(modules[k], m);
          return true;
        }
        for i := 0 to |m.tools|
          invariant forall j :: 0 <= j < i ==> m.tools[j] !in modules[k].tools
        {
          if m.tools[i] in modules[k].tools {
            assert Collides(modules[k], m);
            return true;
          }
        }
      }
      return false;
    }

    /** None for a valid selection; otherwise what the first offending selector or dependency is guilty of. */
    method ValidateSelection() returns (fault: Option<Fault>)
      ensures fault.None? <==> SelectionValid(modules, selected)
      ensures fault == Some(UnknownModule) <==> exists k :: 0 <= k < |selected| && !Known(modules, selected[k])
      ensures fault.Some? && fault != Some(UnknownModule) ==>
                exists i, j :: 0 <= i < |modules| && 0 <= j < |modules[i].dependencies|
                               && fault == ProblemAt(modules, selected, i, j) && ClearBefore(modules, selected, i, j)
    {
      for k := 0 to |selected|
        invariant forall l :: 0 <= l < k ==> Known(modules, selected[l])
      {
        if !Known(modules, selected[k]) {
          return Some(UnknownModule);
        }
      }
      hide Known;
      for i := 0 to |modules|
        invariant ClearBefore(modules, selected, i, 0)
      {
        var m := modules[i];
        for j := 0 to |m.dependencies|
          invariant ClearBefore(modules, selected, i, j)
        {
          var dependency := m.dependencies[j];
          if !Known(modules, dependency) {
            assert ProblemAt(modules, selected, i, j) == Some(RegistryInvalid);
            return Some(RegistryInvalid);
          }
          var enabled := ModuleIsEnabled(m.id);
          var served := ModuleIsEnabled(dependency);
          if enabled && !served {
            assert ProblemAt(modules, selected, i, j) == Some(DependencyMissing);
            return Some(DependencyMissing);
          }
        }
      }
      return None;
    }

    /** IsEnabled: every registered module without selectors, else those selected. */
    method ModuleIsEnabled(id: string) returns (enabled: bool)
      ensures enabled == IsEnabled(modules, selected, id)
    {
      if |selected| == 0 {
        for k := 0 to |modules|
          invariant forall j :: 0 <= j < k ==> modules[j].id != id
        {
          if modules[k].id == id {
            return true;
          }
        }
        return false;
      }
      for k := 0 to |selected|
        invariant id !in selected[..k]
      {
        if selected[k] == id {
          return true;
        }
      }
      return false;
    }

    method EnabledModules() returns (out: seq<Module>)
      ensures out == Enabled(modules, selected, |modules|)
    {
      out := [];
      for i := 0 to |modules|
        invariant out == Enabled(modules, selected, i)
      {
        var enabled := ModuleIsEnabled(modules[i].id);
        if enabled {
          out := out + [modules[i]];
        }
      }
    }

    method ExpectedTools() returns (out: seq<string>)
      ensures out == AllTools(Enabled(modules, selected, |modules|))
    {
      var enabled := EnabledModules();
      out := [];
      for i := 0 to |enabled|
        invariant out == AllTools(enabled[..i])
      {
        assert enabled[..i + 1][..i] == enabled[..i];
        out := out + enabled[i].tools;
      }
      assert enabled[..|enabled|] == enabled;
    }

    /** Which expected tools are not there, and which tools are there unexpectedly. */
    method SurfaceAudit(actual: seq<string>) returns (missing: set<string>, orphan: set<string>, consistent: bool)
      ensures var expected := AllTools(Enabled(modules, selected, |modules|));
              && (forall tool :: tool in missing <==> tool in expected && tool !in actual)
              && (forall tool :: tool in orphan <==> tool in actual && tool !in expected)
              && (consistent <==> forall tool :: tool in expected <==> tool in actual)
    {
      var expected := ExpectedTools();
      missing := set tool | tool in expected && tool !in actual;
      orphan := set tool | tool in actual && tool !in expected;
      consistent := |missing| == 0 && |orphan| == 0;
      if consistent {
        assert missing == {} && orphan == {};
      } else if |missing| != 0 {
        var tool :| tool in missing;
      } else {
        var tool :| tool in orphan;
      }
    }
  }
}
