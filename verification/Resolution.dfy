/** shared_mcp/runtime.go: ResolveTools, CallTool and CallResolved over a catalog. */
module Resolution {
  import opened Text
  import opened Catalog

  const MAX_NAME := 256

  predicate ValidName(name: string) {
    TrimSpace(name) != "" && |TrimSpace(name)| <= MAX_NAME
  }

  function Wanted(names: seq<string>): set<string> {
    set i | 0 <= i < |names| :: TrimSpace(names[i])
  }

  predicate Offered(entries: seq<Entry>, name: string) {
    exists i :: 0 <= i < |entries| && entries[i].name == name
  }

  /** The entry with a canonical name; names are distinct. */
  function Lookup(entries: seq<Entry>, name: string): (e: Entry)
    requires Offered(entries, name)
    ensures e in entries && e.name == name
  {
    var n := |entries| - 1;
    if entries[n].name == name then entries[n] else Lookup(entries[..n], name)
  }

  function Found(entries: seq<Entry>, wanted: set<string>): map<string, Entry> {
    map w | w in wanted && Offered(entries, w) :: Lookup(entries, w)
  }

  function Resolve(routes: seq<Route>, names: seq<string>): Result<map<string, Entry>> {
    if CatalogOf(routes).Err? then Err(CatalogOf(routes).error)
    else if exists i :: 0 <= i < |names| && !ValidName(names[i]) then Err(InvalidTool)
    else
      var c := CatalogOf(routes).value;
      if c.failed != [] && exists w :: w in Wanted(names) && !Offered(c.entries, w) then Err(McpUnavailable)
      else Ok(Found(c.entries, Wanted(names)))
  }

  // ---------- The code ----------

  /** The wanted names that the first n entries offer. */
  ghost predicate Resolves(resolved: map<string, Entry>, entries: seq<Entry>, wanted: set<string>) {
    && (forall w :: w in resolved <==> w in wanted && Offered(entries, w))
    && forall w :: w in resolved ==> resolved[w] == Lookup(entries, w)
  }

  lemma OfferedOneMore(entries: seq<Entry>, n: nat, w: string)
    requires n < |entries|
    ensures Offered(entries[..n + 1], w) <==> Offered(entries[..n], w) || entries[n].name == w
    ensures Offered(entries[..n + 1], w) ==>
              Lookup(entries[..n + 1], w) == if entries[n].name == w then entries[n] else Lookup(entries[..n], w)
  {
    assert entries[..n + 1][..n] == entries[..n];
    if Offered(entries[..n], w) {
      var i :| 0 <= i < n && entries[..n][i].name == w;
      assert entries[..n + 1][i].name == w;
    }
    if entries[n].name == w {
      assert entries[..n + 1][n].name == w;
    }
    if Offered(entries[..n + 1], w) && entries[n].name != w {
      var i :| 0 <= i < n + 1 && entries[..n + 1][i].name == w;
      assert entries[..n][i].name == w;
    }
  }

  /** The loop over the catalog. */
  method Pick(entries: seq<Entry>, wanted: set<string>) returns (resolved: map<string, Entry>)
    ensures Resolves(resolved, entries, wanted)
  {
    resolved := map[];
    for i := 0 to |entries|
      invariant Resolves(resolved, entries[..i], wanted)
    {
      forall w ensures Offered(entries[..i + 1], w) <==> Offered(entries[..i], w) || entries[i].name == w
      {
        OfferedOneMore(entries, i, w);
      }
      forall w | Offered(entries[..i + 1], w)
        ensures Lookup(entries[..i + 1], w) == if entries[i].name == w then entries[i] else Lookup(entries[..i], w)
      {
        OfferedOneMore(entries, i, w);
      }
      hide Offered, Lookup;
      if entries[i].name in wanted {
        resolved := resolved[entries[i].name := entries[i]];
      }
    }
    assert entries[..|entries|] == entries;
  }

  method ResolveTools(routes: seq<Route>, names: seq<string>) returns (r: Result<map<string, Entry>>)
    ensures r == Resolve(routes, names)
  {
    hide CatalogOf, TrimSpace, Lookup, Offered;
    var catalog := BuildCatalog(routes);
    if catalog.Err? {
      return Err(catalog.error);
    }
    var wanted: set<string> := {};
    for i := 0 to |names|
      invariant forall k :: 0 <= k < i ==> ValidName(names[k])
      invariant wanted == Wanted(names[..i])
    {
      var name := TrimSpace(names[i]);
      if name == "" || |name| > MAX_NAME {
        return Err(InvalidTool);
      }
      WantedOneMore(names, i);
      hide Wanted, ValidName;
      wanted := wanted + {name};
    }
    assert names[..|names|] == names;
    var resolved := Pick(catalog.value.entries, wanted);
    ResolvedAll(resolved, catalog.value.entries, wanted);
    if |resolved| != |wanted| && |catalog.value.failed| > 0 {
      return Err(McpUnavailable);
    }
    hide Wanted, ValidName;
    assert resolved == Found(catalog.value.entries, wanted);
    return Ok(resolved);
  }

  lemma WantedOneMore(names: seq<string>, i: nat)
    requires i < |names|
    ensures Wanted(names[..i + 1]) == Wanted(names[..i]) + {TrimSpace(names[i])}
  {
    hide TrimSpace;
    var more := names[..i + 1];
    assert forall k :: 0 <= k < i ==> more[k] == names[..i][k];
    assert TrimSpace(more[i]) in Wanted(more);
    forall k | 0 <= k < i ensures TrimSpace(names[..i][k]) in Wanted(more) {
      assert TrimSpace(more[k]) in Wanted(more);
    }
  }

  /** Comparing sizes tells whether every wanted name was found. */
  lemma ResolvedAll(resolved: map<string, Entry>, entries: seq<Entry>, wanted: set<string>)
    requires Resolves(resolved, entries, wanted)
    ensures |resolved| != |wanted| <==> exists w :: w in wanted && !Offered(entries, w)
  {
    hide Offered, Lookup;
    assert resolved.Keys <= wanted;
    SameSizeSubset(resolved.Keys, wanted);
    assert |resolved| == |resolved.Keys|;
    if resolved.Keys != wanted {
      var w :| w in wanted && w !in resolved.Keys;
      assert !Offered(entries, w);
    }
  }

  lemma {:induction false} SameSizeSubset(a: set<string>, b: set<string>)
    requires a <= b
    ensures |a| == |b| <==> a == b
  {
    if a != b {
      var x :| x in b && x !in a;
      assert a <= b - {x};
      SubsetIsSmaller(a, b - {x});
    }
  }

  lemma {:induction false} SubsetIsSmaller(a: set<string>, b: set<string>)
    requires a <= b
    ensures |a| <= |b|
  {
    if a != {} {
      var x :| x in a;
      SubsetIsSmaller(a - {x}, b - {x});
    }
  }

  // ---------- Calling a tool by name ----------

  /** Which entry a call by name goes to. */
  function CallTarget(routes: seq<Route>, name: string): Result<Entry> {
    var resolved := Resolve(routes, [name]);
    if resolved.Err? then Err(resolved.error)
    else if name !in resolved.value then Err(McpDenied)
    else Ok(resolved.value[name])
  }

  /** A request as it leaves the bridge: to which transport, and for which tool there. */
  datatype Request = Request(owner: nat, tool: string)

  /** CallTool, and CallResolved of what it resolved. */
  method CallTool(routes: seq<Route>, name: string) returns (r: Result<Request>)
    ensures r == match CallTarget(routes, name)
                 case Err(error) => Err(error)
                 case Ok(entry) => Ok(Request(entry.owner, if entry.upstream == "" then entry.name else entry.upstream))
  {
    hide Resolve;
    var resolved := ResolveTools(routes, [name]);
    if resolved.Err? {
      return Err(resolved.error);
    }
    if name !in resolved.value {
      return Err(McpDenied);
    }
    var selected := resolved.value[name];
    var upstream := selected.upstream;
    if upstream == "" {
      upstream := selected.name;
    }
    return Ok(Request(selected.owner, upstream));
  }

  // ---------- Denied, unavailable, reached ----------

  lemma ResolveOne(routes: seq<Route>, name: string)
    requires CatalogOf(routes).Ok? && ValidName(name)
    ensures var c, wanted := CatalogOf(routes).value, TrimSpace(name);
            Resolve(routes, [name]) ==
            if Offered(c.entries, wanted) then Ok(map[wanted := Lookup(c.entries, wanted)])
            else if c.failed != [] then Err(McpUnavailable)
            else Ok(map[])
  {
    hide CatalogOf, Lookup, Offered, TrimSpace, Found;
    FoundOne(CatalogOf(routes).value.entries, TrimSpace(name));
    WantedOne(name);
    hide Wanted, ValidName;
    assert forall i :: 0 <= i < |[name]| ==> [name][i] == name;
  }

  lemma WantedOne(name: string)
    ensures Wanted([name]) == {TrimSpace(name)}
  {
    hide TrimSpace;
    assert [name][0] == name;
    assert TrimSpace([name][0]) in Wanted([name]);
  }

  lemma FoundOne(entries: seq<Entry>, name: string)
    ensures Found(entries, {name}) == if Offered(entries, name) then map[name := Lookup(entries, name)] else map[]
  {
    hide Offered, Lookup;
  }

  lemma ProperNamesAreValid(name: string)
    requires Trimmed(name) && 0 < |name| <= MAX_NAME
    ensures TrimSpace(name) == name && ValidName(name)
  {
    hide TrimSpace, Trimmed;
    TrimSpaceKeepsTrimmed(name);
  }

  /** What a call by an unpadded name comes to. */
  lemma CallOfProperName(routes: seq<Route>, name: string)
    requires CatalogOf(routes).Ok? && Trimmed(name) && 0 < |name| <= MAX_NAME
    ensures var c := CatalogOf(routes).value;
            CallTarget(routes, name) ==
            if Offered(c.entries, name) then Ok(Lookup(c.entries, name))
            else if c.failed != [] then Err(McpUnavailable)
            else Err(McpDenied)
  {
    hide Resolve, CatalogOf, TrimSpace, Offered, Lookup, ValidName;
    ProperNamesAreValid(name);
    ResolveOne(routes, name);
  }

  lemma CallWithoutCatalog(routes: seq<Route>, name: string)
    requires CatalogOf(routes).Err?
    ensures CallTarget(routes, name) == Err(CatalogOf(routes).error)
  {
    hide CatalogOf, Wanted, ValidName, Offered, Lookup;
  }

  /**
   For a name that is not padded with white space: denied means that every route answered and none
   listed it; unavailable means that a route that might have listed it did not answer.
   */
  lemma DeniedOrUnavailable(routes: seq<Route>, name: string)
    requires Trimmed(name) && 0 < |name| <= MAX_NAME
    ensures var catalog := CatalogOf(routes);
            && (CallTarget(routes, name) == Err(McpDenied) <==>
                  catalog.Ok? && catalog.value.failed == [] && !Offered(catalog.value.entries, name))
            && (CallTarget(routes, name) == Err(McpUnavailable) <==>
                  AllUnreachable(routes)
                    || (catalog.Ok? && catalog.value.failed != [] && !Offered(catalog.value.entries, name)))
            && (CallTarget(routes, name).Ok? <==> catalog.Ok? && Offered(catalog.value.entries, name))
  {
    hide CatalogOf, Offered, Lookup, CanonicalName, Candidates, AllUnreachable, CallTarget;
    CatalogFailsExactly(routes);
    if CatalogOf(routes).Ok? {
      CallOfProperName(routes, name);
    } else {
      CallWithoutCatalog(routes, name);
    }
  }

  /** A padded name is never resolved, though its trimmed form may be in the catalog: then it is denied. */
  lemma PaddedNamesAreDenied(routes: seq<Route>, name: string)
    requires CatalogOf(routes).Ok? && ValidName(name) && TrimSpace(name) != name
    ensures CallTarget(routes, name) ==
            if CatalogOf(routes).value.failed != [] && !Offered(CatalogOf(routes).value.entries, TrimSpace(name))
            then Err(McpUnavailable) else Err(McpDenied)
  {
    ResolveOne(routes, name);
    hide Resolve, CatalogOf, TrimSpace, Offered, Lookup;
  }

  /** One route that lists one tool. */
  function OneTool(name: string): seq<Route> {
    [Route(0, "http://gateway/mcp/main", Listed([Some(Tool(name, true))]))]
  }

  lemma CatalogOfOneTool(name: string)
    requires name != ""
    ensures CatalogOf(OneTool(name)).Ok? && CatalogOf(OneTool(name)).value.failed == []
    ensures Offered(CatalogOf(OneTool(name)).value.entries, name)
  {
    hide RouteSlug;
    var routes := OneTool(name);
    var route := routes[0];
    var c := Candidate(Tool(name, true), 0, route.endpoint);
    assert NamedTools(route.listing.tools[..0], 0, route.endpoint) == [] by { assert route.listing.tools[..0] == []; }
    assert CandidatesOf(route) == [c];
    assert routes[..0] == [];
    assert Candidates(routes[..0]) == [] && Failures(routes[..0]) == [];
    assert Candidates(routes) == [c] && Failures(routes) == [];
    assert [c][..0] == [] && Count([c], name) == 1;
    assert Entries([c], 1)[0].name == name;
    assert !AllUnreachable(routes) by { assert !routes[0].listing.Unreachable?; }
  }

  lemma TrimOfPadded(name: string)
    requires Trimmed(name) && name != ""
    ensures TrimSpace(" " + name) == name && !Trimmed(" " + name)
  {
    assert (" " + name)[1..] == name;
    assert TrimLeft(name) == name && TrimRight(name) == name;
  }

  /** A tool that is there is reached by its name and denied by its name with a blank in front. */
  lemma PaddingDenies(name: string)
    requires Trimmed(name) && 0 < |name| <= MAX_NAME
    ensures CallTarget(OneTool(name), name).Ok? && CallTarget(OneTool(name), " " + name) == Err(McpDenied)
  {
    CatalogOfOneTool(name);
    TrimOfPadded(name);
    assert ValidName(" " + name) by { hide TrimSpace, CatalogOf; }
    hide CatalogOf, OneTool, TrimSpace, Offered, Lookup, CallTarget, ValidName, Trimmed;
    DeniedOrUnavailable(OneTool(name), name);
    PaddedNamesAreDenied(OneTool(name), " " + name);
  }

  // ---------- Owner dispatch ----------

  lemma EntriesAreNamed(routes: seq<Route>, e: Entry)
    requires CatalogOf(routes).Ok? && e in CatalogOf(routes).value.entries
    ensures exists c: Candidate :: ListedBy(routes, c) && e == EntryOf(Candidates(routes), c)
  {
    CatalogIsABijection(routes);
    var entries, cands := CatalogOf(routes).value.entries, Candidates(routes);
    hide CatalogOf, Candidates, ListedBy, EntryOf;
    var i :| 0 <= i < |entries| && entries[i] == e;
    assert ListedBy(routes, cands[i]);
  }

  lemma TargetIsAnEntry(routes: seq<Route>, name: string)
    requires CallTarget(routes, name).Ok?
    ensures var e := CallTarget(routes, name).value;
            CatalogOf(routes).Ok? && e in CatalogOf(routes).value.entries && e.name == name
  {
    hide CatalogOf, TrimSpace, ValidName, Wanted, Lookup, Offered;
  }

  /** A call that is let through goes to a route that listed the tool, under the name it has there. */
  lemma CallsReachTheLister(routes: seq<Route>, name: string)
    requires CallTarget(routes, name).Ok?
    ensures var e := CallTarget(routes, name).value;
            && e.name == name && e.upstream != ""
            && exists i :: 0 <= i < |routes| && routes[i].id == e.owner
                 && Lists(routes[i], Tool(e.upstream, e.readOnly))
  {
    TargetIsAnEntry(routes, name);
    var e := CallTarget(routes, name).value;
    EntriesAreNamed(routes, e);
    hide CallTarget, CatalogOf, Candidates, Lists, CanonicalName, RouteSlug;
    var c: Candidate :| ListedBy(routes, c) && e == EntryOf(Candidates(routes), c);
    var i :| 0 <= i < |routes| && routes[i].id == c.id && routes[i].endpoint == c.endpoint && Lists(routes[i], c.tool);
    assert c.tool == Tool(e.upstream, e.readOnly);
    assert c.tool.name != "" by { ListedToolsHaveNames(routes[i], c.tool); }
  }

  lemma ListedToolsHaveNames(r: Route, tool: Tool)
    requires Lists(r, tool)
    ensures tool.name != ""
  {}

  /**
   And every tool a route listed can be called by its canonical name, which reaches that route,
   exactly when that name is not padded and not too long.
   */
  lemma EveryListedToolIsCallable(routes: seq<Route>, c: Candidate)
    requires CatalogOf(routes).Ok? && ListedBy(routes, c)
    ensures var name := CanonicalName(Candidates(routes), c);
            CallTarget(routes, name) == Ok(EntryOf(Candidates(routes), c)) <==> Trimmed(name) && |name| <= MAX_NAME
  {
    CatalogIsABijection(routes);
    var entries, e := CatalogOf(routes).value.entries, EntryOf(Candidates(routes), c);
    var name := CanonicalName(Candidates(routes), c);
    assert e.name == name && e in entries;
    assert name != "" by {
      hide CatalogOf, Candidates, RouteSlug;
      var i :| 0 <= i < |routes| && routes[i].id == c.id && routes[i].endpoint == c.endpoint
               && Lists(routes[i], c.tool);
    }
    hide CatalogOf, Candidates, CanonicalName, EntryOf, ListedBy, CallTarget;
    if Trimmed(name) && |name| <= MAX_NAME {
      TheOneEntry(entries, e);
      CallOfProperName(routes, name);
    } else {
      CallOfBadName(routes, name);
    }
  }

  lemma TheOneEntry(entries: seq<Entry>, e: Entry)
    requires DistinctNames(entries) && e in entries
    ensures Offered(entries, e.name) && Lookup(entries, e.name) == e
  {
    var i :| 0 <= i < |entries| && entries[i] == e;
    var f := Lookup(entries, e.name);
    var j :| 0 <= j < |entries| && entries[j] == f;
  }

  lemma CallOfInvalidName(routes: seq<Route>, name: string)
    requires CatalogOf(routes).Err? || !ValidName(name)
    ensures CallTarget(routes, name).Err?
  {
    hide CatalogOf, ValidName, Wanted, Offered, Lookup;
    assert [name][0] == name;
  }

  lemma CallOfBadName(routes: seq<Route>, name: string)
    requires !(Trimmed(name) && |name| <= MAX_NAME)
    ensures CallTarget(routes, name).Err?
  {
    if CatalogOf(routes).Ok? && ValidName(name) {
      assert TrimSpace(name) != name by {
        if Trimmed(name) {
          TrimSpaceKeepsTrimmed(name);
        }
        hide CatalogOf;
      }
      hide CatalogOf, CallTarget, TrimSpace, ValidName, Offered;
      PaddedNamesAreDenied(routes, name);
    } else {
      CallOfInvalidName(routes, name);
    }
  }

  // ---------- Resolution of several names ----------

  /** Some route lists a tool with this canonical name. */
  ghost predicate Callable(routes: seq<Route>, name: string) {
    exists c :: ListedBy(routes, c) && CanonicalName(Candidates(routes), c) == name
  }

  lemma OfferedMeansCallable(routes: seq<Route>, name: string)
    requires CatalogOf(routes).Ok?
    ensures Offered(CatalogOf(routes).value.entries, name) <==> Callable(routes, name)
  {
    CatalogIsABijection(routes);
    var entries, cands := CatalogOf(routes).value.entries, Candidates(routes);
    hide CatalogOf, Candidates, ListedBy, CanonicalName, DistinctNames;
    if Offered(entries, name) {
      var i :| 0 <= i < |entries| && entries[i].name == name;
      assert entries[i] == EntryOf(cands, cands[i]) && ListedBy(routes, cands[i]);
    }
    if Callable(routes, name) {
      var c :| ListedBy(routes, c) && CanonicalName(cands, c) == name;
      assert OneEntry(entries, EntryOf(cands, c));
    }
  }

  /** A name that is blank or, without the white space around it, too long. */
  predicate BadName(name: string) {
    TrimSpace(name) == "" || |TrimSpace(name)| > 256
  }

  lemma BadMeansInvalid(name: string)
    ensures BadName(name) <==> !ValidName(name)
  {
    hide TrimSpace;
  }

  /** Some route was not reached. */
  predicate SomeUnreachable(routes: seq<Route>) {
    exists i :: 0 <= i < |routes| && routes[i].listing.Unreachable?
  }

  /** Some wanted name is the canonical name of nothing that is listed. */
  ghost predicate SomeMissing(routes: seq<Route>, names: seq<string>) {
    exists i :: 0 <= i < |names| && !Callable(routes, TrimSpace(names[i]))
  }

  /** The tools found are those that are wanted and listed, each as it is listed. */
  ghost predicate FoundAsListed(routes: seq<Route>, names: seq<string>, found: map<string, Entry>) {
    && (forall i :: 0 <= i < |names| ==>
          (TrimSpace(names[i]) in found <==> Callable(routes, TrimSpace(names[i]))))
    && (forall w :: w in found ==> exists i :: 0 <= i < |names| && TrimSpace(names[i]) == w)
    && forall w :: w in found ==>
         exists c :: ListedBy(routes, c) && CanonicalName(Candidates(routes), c) == w
                     && found[w] == EntryOf(Candidates(routes), c)
  }

  /**
   Resolution fails with the catalog, or for a bad name, or because a wanted tool is not listed while a route
   could not be reached; otherwise it finds every wanted tool that is listed, and only those.
   */
  lemma ResolvedExactly(routes: seq<Route>, names: seq<string>)
    ensures var r := Resolve(routes, names);
            if CatalogOf(routes).Err? then r == Err(CatalogOf(routes).error)
            else if exists i :: 0 <= i < |names| && BadName(names[i]) then r == Err(InvalidTool)
            else if SomeUnreachable(routes) && SomeMissing(routes, names) then r == Err(McpUnavailable)
            else r.Ok? && FoundAsListed(routes, names, r.value)
  {
    hide BadName, ValidName, TrimSpace;
    forall i | 0 <= i < |names| ensures BadName(names[i]) <==> !ValidName(names[i]) {
      BadMeansInvalid(names[i]);
    }
    if CatalogOf(routes).Ok? {
      FailedMeansUnreachable(routes);
      MissingMeansNotOffered(routes, names);
      FoundMeansListed(routes, names);
    }
    hide CatalogOf, SomeUnreachable, SomeMissing, FoundAsListed, Wanted, Found, Offered;
  }

  lemma FailedMeansUnreachable(routes: seq<Route>)
    requires CatalogOf(routes).Ok?
    ensures CatalogOf(routes).value.failed != [] <==> SomeUnreachable(routes)
  {
    FailuresExactly(routes);
    hide Candidates, DistinctNames, Entries, AllUnreachable, Failures;
    var failed := CatalogOf(routes).value.failed;
    assert failed == Failures(routes);
    if failed != [] {
      assert failed[0] in failed;
    }
    if i :| 0 <= i < |routes| && routes[i].listing.Unreachable? {
      assert routes[i].endpoint in failed;
    }
  }

  lemma MissingMeansNotOffered(routes: seq<Route>, names: seq<string>)
    requires CatalogOf(routes).Ok?
    ensures SomeMissing(routes, names) <==>
            exists w :: w in Wanted(names) && !Offered(CatalogOf(routes).value.entries, w)
  {
    hide CatalogOf, Callable, Offered, TrimSpace;
    forall w ensures Offered(CatalogOf(routes).value.entries, w) <==> Callable(routes, w) {
      OfferedMeansCallable(routes, w);
    }
    if SomeMissing(routes, names) {
      var i :| 0 <= i < |names| && !Callable(routes, TrimSpace(names[i]));
      assert TrimSpace(names[i]) in Wanted(names);
    }
  }

  lemma EntryIsNamed(cands: seq<Candidate>, c: Candidate)
    ensures EntryOf(cands, c).name == CanonicalName(cands, c)
  {
    hide RouteSlug, CanonicalName;
  }

  lemma FoundMeansListed(routes: seq<Route>, names: seq<string>)
    requires CatalogOf(routes).Ok?
    ensures FoundAsListed(routes, names, Found(CatalogOf(routes).value.entries, Wanted(names)))
  {
    var found := Found(CatalogOf(routes).value.entries, Wanted(names));
    FoundMeansCallable(routes, names);
    hide CatalogOf, Callable, TrimSpace, Candidates, ListedBy, CanonicalName, EntryOf, Found, Wanted;
    forall w | w in found
      ensures exists c :: ListedBy(routes, c) && CanonicalName(Candidates(routes), c) == w
                          && found[w] == EntryOf(Candidates(routes), c)
    {
      FoundIsAnEntry(routes, names, w);
      EntriesAreNamed(routes, found[w]);
      var c: Candidate :| ListedBy(routes, c) && found[w] == EntryOf(Candidates(routes), c);
      EntryIsNamed(Candidates(routes), c);
    }
  }

  lemma FoundIsAnEntry(routes: seq<Route>, names: seq<string>, w: string)
    requires CatalogOf(routes).Ok? && w in Found(CatalogOf(routes).value.entries, Wanted(names))
    ensures var entries := CatalogOf(routes).value.entries;
            var e := Found(entries, Wanted(names))[w];
            e in entries && e.name == w
  {
    hide CatalogOf, Lookup, Offered, Wanted;
  }

  lemma FoundMeansCallable(routes: seq<Route>, names: seq<string>)
    requires CatalogOf(routes).Ok?
    ensures var found := Found(CatalogOf(routes).value.entries, Wanted(names));
            && (forall i :: 0 <= i < |names| ==>
                  (TrimSpace(names[i]) in found <==> Callable(routes, TrimSpace(names[i]))))
            && forall w :: w in found ==> exists i :: 0 <= i < |names| && TrimSpace(names[i]) == w
  {
    hide CatalogOf, Callable, Offered, TrimSpace, Lookup;
    forall i | 0 <= i < |names|
      ensures Offered(CatalogOf(routes).value.entries, TrimSpace(names[i])) <==> Callable(routes, TrimSpace(names[i]))
    {
      OfferedMeansCallable(routes, TrimSpace(names[i]));
    }
  }
}
