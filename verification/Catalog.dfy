/**
 shared_mcp/runtime.go: the catalog of tools behind the shared gateway, their canonical names,
 resolution of a name and dispatch of a call to the route that listed the tool.
 */
module Catalog {
  import opened Text

  datatype Tool = Tool(name: string, readOnly: bool)

  /** What a route answered when asked for its tools; an item may be missing. */
  datatype Listing = Unreachable | Listed(tools: seq<Option<Tool>>)

  /** `id` is the identity of the route's transport. */
  datatype Route = Route(id: nat, endpoint: string, listing: Listing)

  datatype Candidate = Candidate(tool: Tool, id: nat, endpoint: string)

  datatype Entry = Entry(name: string, upstream: string, route: string, owner: nat, readOnly: bool)

  datatype Error = McpUnavailable | CatalogCollision | InvalidTool | McpDenied

  datatype Result<T> = Ok(value: T) | Err(error: Error)

  datatype Catalogue = Catalogue(entries: seq<Entry>, failed: seq<string>)

  // ---------- routeSlug ----------

  predicate MarkerAt(s: string, i: nat) {
    i + 5 <= |s| && s[i..i + 5] == "/mcp/"
  }

  /** strings.LastIndex(endpoint, "/mcp/"), searching at or before position n. */
  function LastMarker(s: string, n: nat): (r: Option<nat>)
    ensures r.Some? ==> r.value <= n && MarkerAt(s, r.value)
    ensures forall i :: (if r.Some? then r.value else -1) < i <= n ==> !MarkerAt(s, i)
  {
    if MarkerAt(s, n) then Some(n) else if n == 0 then None else LastMarker(s, n - 1)
  }

  /** strings.Trim(s, "/"). */
  function TrimSlashes(s: string): (r: string)
    ensures |r| <= |s|
  {
    if s == "" then ""
    else if s[0] == '/' then TrimSlashes(s[1..])
    else if s[|s| - 1] == '/' then TrimSlashes(s[..|s| - 1])
    else s
  }

  function RouteSlug(endpoint: string): (slug: string)
    ensures slug != "" && '/' !in slug
  {
    var i := LastMarker(endpoint, |endpoint|);
    if i.None? then "route"
    else
      var slug := TrimSlashes(endpoint[i.value + 5..]);
      if slug == "" || '/' in slug then "route" else slug
  }

  /** An endpoint that ends in "/mcp/" and one segment has that segment as its slug. */
  lemma SlugIsTheLastSegment(prefix: string, slug: string)
    requires slug != "" && '/' !in slug
    ensures RouteSlug(prefix + "/mcp/" + slug) == slug
  {
    var endpoint, at := prefix + "/mcp/" + slug, |prefix|;
    assert endpoint[at..at + 5] == "/mcp/" && endpoint[at + 5..] == slug;
    assert forall i :: at + 5 <= i < |endpoint| ==> endpoint[i] == slug[i - at - 5] && endpoint[i] in slug;
    forall i | at < i <= |endpoint| ensures !MarkerAt(endpoint, i) {
      if i + 5 <= |endpoint| {
        assert endpoint[i..i + 5][4] == endpoint[i + 4] && "/mcp/"[4] == '/';
      }
    }
    LastMarkerIs(endpoint, |endpoint|, at);
  }

  lemma {:induction false} LastMarkerIs(s: string, n: nat, at: nat)
    requires at <= n && MarkerAt(s, at) && forall i :: at < i <= n ==> !MarkerAt(s, i)
    ensures LastMarker(s, n) == Some(at)
  {
    hide MarkerAt;
    if at < n {
      LastMarkerIs(s, n - 1, at);
    }
  }

  predicate Slashes(s: string) {
    forall i :: 0 <= i < |s| ==> s[i] == '/'
  }

  /** Trimming takes off slashes on both sides, as many as there are. */
  lemma {:induction false} TrimSlashesExactly(s: string, left: string, core: string, right: string)
    requires s == left + core + right && Slashes(left) && Slashes(right)
    requires core != "" ==> core[0] != '/' && core[|core| - 1] != '/'
    requires core == "" ==> right == ""
    ensures TrimSlashes(s) == core
    decreases |s|
  {
    if left != "" {
      assert s[1..] == left[1..] + core + right;
      TrimSlashesExactly(s[1..], left[1..], core, right);
    } else if right != "" {
      assert s[..|s| - 1] == left + core + right[..|right| - 1];
      assert s[0] == core[0] && s[|s| - 1] == right[|right| - 1];
      TrimSlashesExactly(s[..|s| - 1], left, core, right[..|right| - 1]);
    } else {
      assert s == core;
    }
  }

  lemma {:induction false} TrimSlashesParts(s: string) returns (left: string, right: string)
    ensures s == left + TrimSlashes(s) + right && Slashes(left) && Slashes(right)
    ensures TrimSlashes(s) == "" ==> right == ""
    ensures TrimSlashes(s) != "" ==> TrimSlashes(s)[0] != '/' && TrimSlashes(s)[|TrimSlashes(s)| - 1] != '/'
  {
    left, right := "", "";
    if s != "" && s[0] == '/' {
      left, right := TrimSlashesParts(s[1..]);
      left := "/" + left;
    } else if s != "" && s[|s| - 1] == '/' {
      left, right := TrimSlashesParts(s[..|s| - 1]);
      right := right + "/";
    }
  }

  /** The endpoint has a last marker, and behind it the word between slashes. */
  ghost predicate SegmentBehindMarker(endpoint: string, word: string, at: nat, left: string, right: string) {
    && MarkerAt(endpoint, at) && (forall i :: at < i <= |endpoint| ==> !MarkerAt(endpoint, i))
    && endpoint[at + 5..] == left + word + right && Slashes(left) && Slashes(right)
    && word != "" && '/' !in word
  }

  /** The slug is the one segment behind the last marker, whatever slashes are around it, and "route" without one. */
  lemma SlugExactly(endpoint: string)
    ensures forall word, at, left, right :: SegmentBehindMarker(endpoint, word, at, left, right) ==>
              RouteSlug(endpoint) == word
    ensures RouteSlug(endpoint) != "route" ==>
              exists at, left, right :: SegmentBehindMarker(endpoint, RouteSlug(endpoint), at, left, right)
  {
    forall word, at, left, right | SegmentBehindMarker(endpoint, word, at, left, right)
      ensures RouteSlug(endpoint) == word
    {
      LastMarkerIs(endpoint, |endpoint|, at);
      assert word[0] in word && word[|word| - 1] in word;
      TrimSlashesExactly(endpoint[at + 5..], left, word, right);
    }
    if RouteSlug(endpoint) != "route" {
      var at := LastMarker(endpoint, |endpoint|).value;
      var left, right := TrimSlashesParts(endpoint[at + 5..]);
      assert SegmentBehindMarker(endpoint, RouteSlug(endpoint), at, left, right);
    }
  }

  // ---------- The catalog as a function of the routes ----------

  function NamedTools(tools: seq<Option<Tool>>, id: nat, endpoint: string): seq<Candidate> {
    if tools == [] then []
    else
      var n := |tools| - 1;
      NamedTools(tools[..n], id, endpoint) +
      if tools[n].None? || tools[n].value.name == "" then [] else [Candidate(tools[n].value, id, endpoint)]
  }

  function CandidatesOf(r: Route): seq<Candidate> {
    if r.listing.Unreachable? then [] else NamedTools(r.listing.tools, r.id, r.endpoint)
  }

  function Candidates(routes: seq<Route>): seq<Candidate> {
    if routes == [] then []
    else Candidates(routes[..|routes| - 1]) + CandidatesOf(routes[|routes| - 1])
  }

  function Failures(routes: seq<Route>): seq<string> {
    if routes == [] then []
    else
      var n := |routes| - 1;
      Failures(routes[..n]) + if routes[n].listing.Unreachable? then [routes[n].endpoint] else []
  }

  /** How many candidates carry an upstream name. */
  function Count(cands: seq<Candidate>, name: string): nat {
    if cands == [] then 0
    else
      var n := |cands| - 1;
      Count(cands[..n], name) + if cands[n].tool.name == name then 1 else 0
  }

  function CanonicalName(cands: seq<Candidate>, c: Candidate): string {
    if Count(cands, c.tool.name) > 1 then RouteSlug(c.endpoint) + "__" + c.tool.name else c.tool.name
  }

  function EntryOf(cands: seq<Candidate>, c: Candidate): Entry {
    Entry(CanonicalName(cands, c), c.tool.name, RouteSlug(c.endpoint), c.id, c.tool.readOnly)
  }

  function Entries(cands: seq<Candidate>, n: nat): seq<Entry>
    requires n <= |cands|
  {
    seq(n, i requires 0 <= i < n => EntryOf(cands, cands[i]))
  }

  predicate DistinctNames(entries: seq<Entry>) {
    forall i, j :: 0 <= i < j < |entries| ==> entries[i].name != entries[j].name
  }

  predicate AllUnreachable(routes: seq<Route>) {
    forall i :: 0 <= i < |routes| ==> routes[i].listing.Unreachable?
  }

  function CatalogOf(routes: seq<Route>): Result<Catalogue> {
    var cands := Candidates(routes);
    if AllUnreachable(routes) then Err(McpUnavailable)
    else if !DistinctNames(Entries(cands, |cands|)) then Err(CatalogCollision)
    else Ok(Catalogue(Entries(cands, |cands|), Failures(routes)))
  }

  // ---------- The code ----------

  /** counts holds how often each upstream name occurs. */
  ghost predicate Tallies(counts: map<string, nat>, cands: seq<Candidate>) {
    forall name :: (if name in counts then counts[name] else 0) == Count(cands, name)
  }

  lemma TallyOneMore(counts: map<string, nat>, cands: seq<Candidate>, c: Candidate)
    requires Tallies(counts, cands)
    ensures var name := c.tool.name;
            Tallies(counts[name := (if name in counts then counts[name] else 0) + 1], cands + [c])
  {
    assert (cands + [c])[..|cands|] == cands;
  }

  /** The tools of one route that answered. */
  method CollectTools(route: Route, before: seq<Candidate>, countsBefore: map<string, nat>)
    returns (cands: seq<Candidate>, counts: map<string, nat>)
    requires route.listing.Listed? && Tallies(countsBefore, before)
    ensures cands == before + CandidatesOf(route) && Tallies(counts, cands)
  {
    hide Tallies;
    cands, counts := before, countsBefore;
    var tools := route.listing.tools;
    for j := 0 to |tools|
      invariant cands == before + NamedTools(tools[..j], route.id, route.endpoint)
      invariant Tallies(counts, cands)
    {
      assert tools[..j + 1][..j] == tools[..j];
      if tools[j].Some? && tools[j].value.name != "" {
        var c := Candidate(tools[j].value, route.id, route.endpoint);
        TallyOneMore(counts, cands, c);
        cands := cands + [c];
        counts := counts[c.tool.name := (if c.tool.name in counts then counts[c.tool.name] else 0) + 1];
      }
    }
    assert tools[..|tools|] == tools;
  }

  /** First pass: collect the named tools and count their upstream names. */
  method Collect(routes: seq<Route>)
    returns (cands: seq<Candidate>, counts: map<string, nat>, failed: seq<string>, succeeded: nat)
    ensures cands == Candidates(routes) && failed == Failures(routes) && Tallies(counts, cands)
    ensures succeeded == 0 <==> AllUnreachable(routes)
  {
    cands, counts, failed, succeeded := [], map[], [], 0;
    assert Tallies(counts, cands);
    for i := 0 to |routes|
      invariant cands == Candidates(routes[..i]) && failed == Failures(routes[..i]) && Tallies(counts, cands)
      invariant succeeded == 0 <==> AllUnreachable(routes[..i])
    {
      var route := routes[i];
      assert routes[..i + 1][..i] == routes[..i];
      assert AllUnreachable(routes[..i + 1]) <==> AllUnreachable(routes[..i]) && route.listing.Unreachable?;
      hide AllUnreachable, Tallies, NamedTools;
      if route.listing.Unreachable? {
        failed := failed + [route.endpoint];
      } else {
        succeeded := succeeded + 1;
        cands, counts := CollectTools(route, cands, counts);
      }
    }
    assert routes[..|routes|] == routes;
  }

  ghost function NamesOf(entries: seq<Entry>): set<string> {
    set k | 0 <= k < |entries| :: entries[k].name
  }

  lemma NamesOneMore(entries: seq<Entry>, e: Entry)
    requires DistinctNames(entries) && e.name !in NamesOf(entries)
    ensures DistinctNames(entries + [e]) && NamesOf(entries + [e]) == NamesOf(entries) + {e.name}
  {
    var more := entries + [e];
    assert forall k :: 0 <= k < |entries| ==> more[k] == entries[k] && entries[k].name in NamesOf(entries);
    assert more[|entries|] == e && more[|entries|].name in NamesOf(more);
    forall k | 0 <= k < |entries| ensures entries[k].name in NamesOf(more) {
      assert more[k].name in NamesOf(more);
    }
  }

  lemma CollisionFound(cands: seq<Candidate>, i: nat)
    requires i < |cands| && EntryOf(cands, cands[i]).name in NamesOf(Entries(cands, i))
    ensures !DistinctNames(Entries(cands, |cands|))
  {
    hide EntryOf;
    var k :| 0 <= k < i && Entries(cands, i)[k].name == EntryOf(cands, cands[i]).name;
    assert Entries(cands, |cands|)[k].name == Entries(cands, |cands|)[i].name;
  }

  /** Second pass: name the tools canonically, unless two names collide. */
  method NameTools(cands: seq<Candidate>, counts: map<string, nat>) returns (named: Option<seq<Entry>>)
    requires Tallies(counts, cands)
    ensures var entries := Entries(cands, |cands|);
            named == if DistinctNames(entries) then Some(entries) else None
  {
    hide RouteSlug, NamesOf, DistinctNames, EntryOf, Tallies;
    var entries: seq<Entry> := [];
    var seen: set<string> := {};
    NoNames();
    for i := 0 to |cands|
      invariant entries == Entries(cands, i)
      invariant seen == NamesOf(entries) && DistinctNames(entries)
    {
      var upstream := cands[i].tool.name;
      var canonical := upstream;
      var slug := RouteSlug(cands[i].endpoint);
      if upstream in counts && counts[upstream] > 1 {
        canonical := slug + "__" + upstream;
      }
      NamedAsCounted(counts, cands, cands[i]);
      if canonical in seen {
        CollisionFound(cands, i);
        return None;
      }
      var entry := Entry(canonical, upstream, slug, cands[i].id, cands[i].tool.readOnly);
      NamesOneMore(entries, entry);
      seen := seen + {canonical};
      entries := entries + [entry];
    }
    return Some(entries);
  }

  method BuildCatalog(routes: seq<Route>) returns (r: Result<Catalogue>)
    ensures r == CatalogOf(routes)
  {
    hide Candidates, Failures, Entries, Tallies, DistinctNames, AllUnreachable;
    var cands, counts, failed, succeeded := Collect(routes);
    if succeeded == 0 {
      return Err(McpUnavailable);
    }
    var entries := NameTools(cands, counts);
    if entries.None? {
      return Err(CatalogCollision);
    }
    return Ok(Catalogue(entries.value, failed));
  }

  lemma NamedAsCounted(counts: map<string, nat>, cands: seq<Candidate>, c: Candidate)
    requires Tallies(counts, cands)
    ensures var name, slug := c.tool.name, RouteSlug(c.endpoint);
            EntryOf(cands, c) ==
            Entry(if name in counts && counts[name] > 1 then slug + "__" + name else name,
                  name, slug, c.id, c.tool.readOnly)
  {
    hide RouteSlug;
  }

  lemma NoNames()
    ensures DistinctNames([]) && NamesOf([]) == {}
  {}

  // ---------- One entry per listed tool ----------

  /** The route lists the tool. */
  predicate Lists(r: Route, tool: Tool) {
    tool.name != "" && r.listing.Listed? && Some(tool) in r.listing.tools
  }

  lemma {:induction false} NamedToolsAreListed(tools: seq<Option<Tool>>, id: nat, endpoint: string)
    ensures forall c :: c in NamedTools(tools, id, endpoint) <==>
                        c.id == id && c.endpoint == endpoint && c.tool.name != "" && Some(c.tool) in tools
  {
    if tools != [] {
      NamedToolsAreListed(tools[..|tools| - 1], id, endpoint);
      assert tools == tools[..|tools| - 1] + [tools[|tools| - 1]];
    }
  }

  predicate ListedBy(routes: seq<Route>, c: Candidate) {
    exists i :: 0 <= i < |routes| && routes[i].id == c.id && routes[i].endpoint == c.endpoint
      && Lists(routes[i], c.tool)
  }

  lemma {:induction false} CandidatesAreListed(routes: seq<Route>)
    ensures forall c :: c in Candidates(routes) <==> ListedBy(routes, c)
  {
    if routes != [] {
      var n := |routes| - 1;
      CandidatesAreListed(routes[..n]);
      if routes[n].listing.Listed? {
        NamedToolsAreListed(routes[n].listing.tools, routes[n].id, routes[n].endpoint);
      }
      hide NamedTools;
      forall c ensures c in Candidates(routes) <==> ListedBy(routes, c) {
        assert c in CandidatesOf(routes[n]) <==>
               routes[n].id == c.id && routes[n].endpoint == c.endpoint && Lists(routes[n], c.tool);
        hide Lists;
        if ListedBy(routes[..n], c) {
          var i :| 0 <= i < n && routes[..n][i].id == c.id && routes[..n][i].endpoint == c.endpoint
                   && Lists(routes[..n][i], c.tool);
          assert routes[i].id == c.id && Lists(routes[i], c.tool);
        }
        if ListedBy(routes, c) && c !in CandidatesOf(routes[n]) {
          var i :| 0 <= i < |routes| && routes[i].id == c.id && routes[i].endpoint == c.endpoint
                   && Lists(routes[i], c.tool);
          assert i < n && routes[..n][i] == routes[i];
        }
      }
    }
  }

  /**
   In a catalog canonical names are pairwise distinct, and its entries are exactly the named tools
   of the routes that answered: each belongs to such a tool and each such tool has exactly one.
   */
  lemma CatalogIsABijection(routes: seq<Route>)
    requires CatalogOf(routes).Ok?
    ensures var entries, cands := CatalogOf(routes).value.entries, Candidates(routes);
            && DistinctNames(entries) && |entries| == |cands|
            && (forall i :: 0 <= i < |entries| ==> entries[i] == EntryOf(cands, cands[i]) && ListedBy(routes, cands[i]))
            && forall c :: ListedBy(routes, c) ==> OneEntry(entries, EntryOf(cands, c))
  {
    CandidatesAreListed(routes);
    var entries, cands := CatalogOf(routes).value.entries, Candidates(routes);
    hide Candidates, ListedBy, Failures, EntryOf;
    forall c | ListedBy(routes, c) ensures OneEntry(entries, EntryOf(cands, c)) {
      var i :| 0 <= i < |cands| && cands[i] == c;
      assert entries[i] == EntryOf(cands, c);
    }
  }

  ghost predicate OneEntry(entries: seq<Entry>, e: Entry) {
    && e in entries
    && forall i, j :: 0 <= i < |entries| && 0 <= j < |entries| && entries[i] == e && entries[j] == e ==> i == j
  }

  /** A catalog is built exactly when some route answers and no two listed tools get the same canonical name. */
  lemma CatalogFailsExactly(routes: seq<Route>)
    ensures CatalogOf(routes) == Err(McpUnavailable) <==> AllUnreachable(routes)
    ensures CatalogOf(routes) == Err(CatalogCollision) <==>
            var cands := Candidates(routes);
            exists i, j :: 0 <= i < j < |cands| && CanonicalName(cands, cands[i]) == CanonicalName(cands, cands[j])
    ensures CatalogOf(routes).Err? ==>
            CatalogOf(routes).error.McpUnavailable? || CatalogOf(routes).error.CatalogCollision?
  {
    var cands := Candidates(routes);
    var entries := Entries(cands, |cands|);
    hide Candidates, CanonicalName;
    assert forall i :: 0 <= i < |cands| ==> entries[i].name == CanonicalName(cands, cands[i]);
    if exists i, j :: 0 <= i < j < |cands| && CanonicalName(cands, cands[i]) == CanonicalName(cands, cands[j]) {
      var i, j :| 0 <= i < j < |cands| && CanonicalName(cands, cands[i]) == CanonicalName(cands, cands[j]);
      assert entries[i].name == entries[j].name;
      assert exists k :: 0 <= k < |routes| && routes[k].listing.Listed? by {
        if AllUnreachable(routes) { NoCandidates(routes); }
      }
    }
  }

  lemma {:induction false} NoCandidates(routes: seq<Route>)
    requires AllUnreachable(routes)
    ensures Candidates(routes) == []
  {
    if routes != [] {
      NoCandidates(routes[..|routes| - 1]);
    }
  }

  // ---------- What is listed, in order ----------

  /** Item j of route r is a named tool, and the route answered. */
  predicate ListsAt(routes: seq<Route>, r: nat, j: nat) {
    && r < |routes| && routes[r].listing.Listed? && j < |routes[r].listing.tools|
    && routes[r].listing.tools[j].Some? && routes[r].listing.tools[j].value.name != ""
  }

  /** A place is a route and an item of its answer; earlier routes come first. */
  datatype Place = Place(route: nat, item: nat) {
    predicate Before(p: Place) {
      route < p.route || (route == p.route && item < p.item)
    }
  }

  ghost function ItemPlaces(routes: seq<Route>, r: nat, n: nat): seq<Place> {
    if n == 0 then []
    else ItemPlaces(routes, r, n - 1) + if ListsAt(routes, r, n - 1) then [Place(r, n - 1)] else []
  }

  /** How many items the route answered with. */
  function Items(r: Route): nat {
    if r.listing.Listed? then |r.listing.tools| else 0
  }

  ghost function Places(routes: seq<Route>, n: nat): seq<Place>
    requires n <= |routes|
  {
    if n == 0 then [] else Places(routes, n - 1) + ItemPlaces(routes, n - 1, Items(routes[n - 1]))
  }

  ghost predicate Ascending(places: seq<Place>) {
    forall i, j :: 0 <= i < j < |places| ==> places[i].Before(places[j])
  }

  lemma {:induction false} ItemPlacesAre(routes: seq<Route>, r: nat, n: nat)
    ensures forall p :: p in ItemPlaces(routes, r, n) <==> p.route == r && p.item < n && ListsAt(routes, r, p.item)
    ensures Ascending(ItemPlaces(routes, r, n))
  {
    hide ListsAt;
    if n > 0 {
      ItemPlacesAre(routes, r, n - 1);
      var earlier := ItemPlaces(routes, r, n - 1);
      forall i | 0 <= i < |earlier| ensures earlier[i].Before(Place(r, n - 1)) {
        assert earlier[i] in earlier;
      }
    }
  }

  lemma {:induction false} PlacesAre(routes: seq<Route>, n: nat)
    requires n <= |routes|
    ensures forall p :: p in Places(routes, n) <==> p.route < n && ListsAt(routes, p.route, p.item)
    ensures Ascending(Places(routes, n))
  {
    if n > 0 {
      PlacesAre(routes, n - 1);
      ItemPlacesAre(routes, n - 1, Items(routes[n - 1]));
      var earlier, here := Places(routes, n - 1), ItemPlaces(routes, n - 1, Items(routes[n - 1]));
      var r: nat := n - 1;
      assert forall j: nat :: ListsAt(routes, r, j) ==> j < Items(routes[r]);
      hide ItemPlaces, ListsAt;
      forall i, j | 0 <= i < |earlier| && 0 <= j < |here| ensures earlier[i].Before(here[j]) {
        assert earlier[i] in earlier && here[j] in here;
      }
    }
  }

  /** The candidates are what is at these places. */
  ghost predicate FoundAt(routes: seq<Route>, places: seq<Place>, cands: seq<Candidate>) {
    && |cands| == |places|
    && forall i :: 0 <= i < |places| ==>
         var r, j := places[i].route, places[i].item;
         && ListsAt(routes, r, j)
         && cands[i] == Candidate(routes[r].listing.tools[j].value, routes[r].id, routes[r].endpoint)
  }

  lemma {:induction false} NamedToolsAreAt(routes: seq<Route>, r: nat, n: nat)
    requires r < |routes| && n <= Items(routes[r])
    ensures routes[r].listing.Listed? ==>
              FoundAt(routes, ItemPlaces(routes, r, n),
                      NamedTools(routes[r].listing.tools[..n], routes[r].id, routes[r].endpoint))
    ensures routes[r].listing.Unreachable? ==> FoundAt(routes, ItemPlaces(routes, r, n), [])
  {
    if routes[r].listing.Listed? && n > 0 {
      NamedToolsAreAt(routes, r, n - 1);
      assert routes[r].listing.tools[..n][..n - 1] == routes[r].listing.tools[..n - 1];
    }
  }

  lemma FoundInBoth(routes: seq<Route>, a: seq<Place>, ca: seq<Candidate>, b: seq<Place>, cb: seq<Candidate>)
    requires FoundAt(routes, a, ca) && FoundAt(routes, b, cb)
    ensures FoundAt(routes, a + b, ca + cb)
  {
    hide ListsAt;
  }

  lemma {:induction false} CandidatesAreAt(routes: seq<Route>, n: nat)
    requires n <= |routes|
    ensures FoundAt(routes, Places(routes, n), Candidates(routes[..n]))
  {
    if n > 0 {
      CandidatesAreAt(routes, n - 1);
      assert routes[..n][..n - 1] == routes[..n - 1];
      var r := routes[n - 1];
      NamedToolsAreAt(routes, n - 1, Items(r));
      if r.listing.Listed? {
        assert r.listing.tools[..Items(r)] == r.listing.tools;
      }
      hide NamedTools, ListsAt, FoundAt;
      FoundInBoth(routes, Places(routes, n - 1), Candidates(routes[..n - 1]),
                  ItemPlaces(routes, n - 1, Items(r)), CandidatesOf(r));
    }
  }

  /** Every item that is a named tool of a route that answered is a candidate once, in order. */
  lemma CandidatesInOrder(routes: seq<Route>)
    ensures exists places ::
              && (forall p: Place :: p in places <==> ListsAt(routes, p.route, p.item))
              && Ascending(places) && FoundAt(routes, places, Candidates(routes))
  {
    PlacesAre(routes, |routes|);
    CandidatesAreAt(routes, |routes|);
    assert routes[..|routes|] == routes;
    assert forall r: nat, j: nat :: ListsAt(routes, r, j) ==> r < |routes|;
    hide Places, Candidates, Ascending, FoundAt, ListsAt;
  }

  lemma {:induction false} CountOfSome(cands: seq<Candidate>, name: string)
    ensures Count(cands, name) >= 1 <==> exists i :: 0 <= i < |cands| && cands[i].tool.name == name
  {
    if cands != [] {
      var n := |cands| - 1;
      CountOfSome(cands[..n], name);
      assert forall i :: 0 <= i < n ==> cands[..n][i] == cands[i];
    }
  }

  ghost predicate Twice(cands: seq<Candidate>, i: nat, j: nat, name: string) {
    i < j < |cands| && cands[i].tool.name == name && cands[j].tool.name == name
  }

  lemma {:induction false} CountOfTwo(cands: seq<Candidate>, name: string)
    ensures Count(cands, name) >= 2 <==> exists i: nat, j: nat :: Twice(cands, i, j, name)
  {
    if cands != [] {
      var n := |cands| - 1;
      CountOfTwo(cands[..n], name);
      CountOfSome(cands[..n], name);
      if i: nat, j: nat :| Twice(cands[..n], i, j, name) {
        assert Twice(cands, i, j, name);
      }
      if i: nat, j: nat :| Twice(cands, i, j, name) {
        assert j < n ==> Twice(cands[..n], i, j, name);
        assert j == n ==> cands[..n][i].tool.name == name;
      }
      if cands[n].tool.name == name && Count(cands[..n], name) >= 1 {
        var i :| 0 <= i < n && cands[..n][i].tool.name == name;
        assert Twice(cands, i, n, name);
      }
    }
  }

  /** No other candidate has the same upstream name. */
  ghost predicate OnlyOne(cands: seq<Candidate>, i: nat)
    requires i < |cands|
  {
    forall j :: 0 <= j < |cands| && j != i ==> cands[j].tool.name != cands[i].tool.name
  }

  /**
   In a catalog a tool keeps its upstream name exactly when no other listed tool has it, and otherwise the
   slug of its route and two underscores go before it; the rest of its entry is what its route listed.
   */
  lemma EntriesExactly(routes: seq<Route>, i: nat)
    requires CatalogOf(routes).Ok? && i < |Candidates(routes)|
    ensures var entries, cands := CatalogOf(routes).value.entries, Candidates(routes);
            |entries| == |cands| &&
            var e, c := entries[i], cands[i];
            && e.upstream == c.tool.name && e.readOnly == c.tool.readOnly && e.owner == c.id
            && e.route == RouteSlug(c.endpoint)
            && e.name == if OnlyOne(cands, i) then c.tool.name else RouteSlug(c.endpoint) + "__" + c.tool.name
  {
    var cands := Candidates(routes);
    CountOfTwo(cands, cands[i].tool.name);
    hide Candidates, RouteSlug, Count, Failures, DistinctNames;
    if !OnlyOne(cands, i) {
      var j :| 0 <= j < |cands| && j != i && cands[j].tool.name == cands[i].tool.name;
      assert Twice(cands, if i < j then i else j, if i < j then j else i, cands[i].tool.name);
    }
  }

  /** The failed routes are those that were not reached. */
  lemma {:induction false} FailuresExactly(routes: seq<Route>)
    ensures forall endpoint :: endpoint in Failures(routes) <==>
              exists i :: 0 <= i < |routes| && routes[i].listing.Unreachable? && routes[i].endpoint == endpoint
  {
    if routes != [] {
      var n := |routes| - 1;
      FailuresExactly(routes[..n]);
      forall endpoint ensures endpoint in Failures(routes) <==>
        exists i :: 0 <= i < |routes| && routes[i].listing.Unreachable? && routes[i].endpoint == endpoint
      {
        if i :| 0 <= i < |routes| && routes[i].listing.Unreachable? && routes[i].endpoint == endpoint {
          if i < n {
            assert routes[..n][i] == routes[i];
          }
        }
        if endpoint in Failures(routes[..n]) {
          var i :| 0 <= i < n && routes[..n][i].listing.Unreachable? && routes[..n][i].endpoint == endpoint;
          assert routes[i].endpoint == endpoint;
        }
      }
    }
  }

  // ---------- The order of the routes ----------

  /** h of a concatenation is the sum of its parts. */
  ghost predicate Adds<T(!new), U>(h: seq<T> -> multiset<U>) {
    forall a, b :: h(a + b) == h(a) + h(b)
  }

  lemma AddsAt<T(!new), U>(h: seq<T> -> multiset<U>, a: seq<T>, b: seq<T>)
    requires Adds(h)
    ensures h(a + b) == h(a) + h(b)
  {}

  lemma Removed<T>(s: seq<T>, j: nat)
    requires j < |s|
    ensures multiset(s[..j] + s[j + 1..]) == multiset(s) - multiset{s[j]}
  {
    assert s == s[..j] + [s[j]] + s[j + 1..];
  }

  /** Taking one element out takes its summand out. */
  lemma AddsAround<T(!new), U>(h: seq<T> -> multiset<U>, s: seq<T>, j: nat)
    requires Adds(h) && j < |s|
    ensures h(s) == h(s[..j] + s[j + 1..]) + h([s[j]])
    ensures multiset(s[..j] + s[j + 1..]) == multiset(s) - multiset{s[j]}
  {
    Removed(s, j);
    AddsAt(h, s[..j], [s[j]] + s[j + 1..]);
    AddsAt(h, [s[j]], s[j + 1..]);
    AddsAt(h, s[..j], s[j + 1..]);
    hide Adds;
    assert s == s[..j] + ([s[j]] + s[j + 1..]);
  }

  /** A sum over the elements does not depend on their order. */
  lemma {:induction false} SumsIgnoreOrder<T(!new), U>(h: seq<T> -> multiset<U>, a: seq<T>, b: seq<T>)
    requires Adds(h) && multiset(a) == multiset(b)
    ensures h(a) == h(b)
    decreases |a|
  {
    hide Adds;
    if a == [] {
      assert |b| == |multiset(b)| == 0;
    } else {
      assert a[0] in multiset(b);
      var j :| 0 <= j < |b| && b[j] == a[0];
      AddsAround(h, a, 0);
      AddsAround(h, b, j);
      SumsIgnoreOrder(h, a[..0] + a[1..], b[..j] + b[j + 1..]);
    }
  }

  lemma {:induction false} CandidatesOfConcat(a: seq<Route>, b: seq<Route>)
    ensures Candidates(a + b) == Candidates(a) + Candidates(b)
    decreases |b|
  {
    hide CandidatesOf;
    if b == [] {
      assert a + b == a;
    } else {
      var n := |b| - 1;
      CandidatesOfConcat(a, b[..n]);
      assert (a + b)[..|a + b| - 1] == a + b[..n] && (a + b)[|a + b| - 1] == b[n];
      Reassociate(Candidates(a), Candidates(b[..n]), CandidatesOf(b[n]));
    }
  }

  lemma {:induction false} FailuresOfConcat(a: seq<Route>, b: seq<Route>)
    ensures Failures(a + b) == Failures(a) + Failures(b)
    decreases |b|
  {
    if b == [] {
      assert a + b == a;
    } else {
      var n := |b| - 1;
      FailuresOfConcat(a, b[..n]);
      assert (a + b)[..|a + b| - 1] == a + b[..n] && (a + b)[|a + b| - 1] == b[n];
      Reassociate(Failures(a), Failures(b[..n]), if b[n].listing.Unreachable? then [b[n].endpoint] else []);
    }
  }

  lemma Reassociate<T>(a: seq<T>, b: seq<T>, c: seq<T>)
    ensures (a + b) + c == a + (b + c)
  {}

  /** The same routes in another order list the same candidates and failures. */
  lemma PermutedRoutes(a: seq<Route>, b: seq<Route>)
    requires multiset(a) == multiset(b)
    ensures multiset(Candidates(a)) == multiset(Candidates(b)) && multiset(Failures(a)) == multiset(Failures(b))
  {
    hide Candidates, Failures;
    var cands := (rs: seq<Route>) => multiset(Candidates(rs));
    assert Adds(cands) by {
      forall x, y ensures cands(x + y) == cands(x) + cands(y) {
        CandidatesOfConcat(x, y);
      }
    }
    SumsIgnoreOrder(cands, a, b);
    var fails := (rs: seq<Route>) => multiset(Failures(rs));
    assert Adds(fails) by {
      forall x, y ensures fails(x + y) == fails(x) + fails(y) {
        FailuresOfConcat(x, y);
      }
    }
    SumsIgnoreOrder(fails, a, b);
  }

  // ---------- The order of the candidates ----------

  lemma {:induction false} CountIsMultiplicity(cands: seq<Candidate>, name: string)
    ensures Count(cands, name) == multiset(UpstreamNames(cands))[name]
  {
    if cands != [] {
      var n := |cands| - 1;
      CountIsMultiplicity(cands[..n], name);
      assert UpstreamNames(cands) == UpstreamNames(cands[..n]) + [cands[n].tool.name];
    }
  }

  function UpstreamNames(cands: seq<Candidate>): seq<string> {
    seq(|cands|, i requires 0 <= i < |cands| => cands[i].tool.name)
  }

  lemma PermutedCounts(a: seq<Candidate>, b: seq<Candidate>, name: string)
    requires multiset(a) == multiset(b)
    ensures Count(a, name) == Count(b, name)
  {
    hide Count;
    CountIsMultiplicity(a, name);
    CountIsMultiplicity(b, name);
    var names := (cs: seq<Candidate>) => multiset(UpstreamNames(cs));
    assert Adds(names) by {
      forall x, y ensures names(x + y) == names(x) + names(y) {
        assert UpstreamNames(x + y) == UpstreamNames(x) + UpstreamNames(y);
      }
    }
    hide UpstreamNames;
    SumsIgnoreOrder(names, a, b);
  }

  /** The entries of some of the candidates. */
  function EntriesAmong(cands: seq<Candidate>, some: seq<Candidate>): seq<Entry> {
    seq(|some|, i requires 0 <= i < |some| => EntryOf(cands, some[i]))
  }

  lemma PermutedEntries(a: seq<Candidate>, b: seq<Candidate>)
    requires multiset(a) == multiset(b)
    ensures multiset(Entries(a, |a|)) == multiset(Entries(b, |b|))
  {
    forall c ensures EntryOf(a, c) == EntryOf(b, c) {
      PermutedCounts(a, b, c.tool.name);
      hide Count;
    }
    hide EntryOf;
    var entries := (cs: seq<Candidate>) => multiset(EntriesAmong(a, cs));
    assert Adds(entries) by {
      forall x, y ensures entries(x + y) == entries(x) + entries(y) {
        assert EntriesAmong(a, x + y) == EntriesAmong(a, x) + EntriesAmong(a, y);
      }
    }
    SumsIgnoreOrder(entries, a, b);
    assert Entries(a, |a|) == EntriesAmong(a, a) && Entries(b, |b|) == EntriesAmong(a, b);
  }

  lemma RepetitionShowsInMultiset(a: seq<Entry>, b: seq<Entry>, i: nat, j: nat)
    requires multiset(a) == multiset(b) && i < j < |a| && a[i].name == a[j].name
    ensures !DistinctNames(b)
  {
    if a[i] == a[j] {
      Removed(a, j);
      assert a[i] in (a[..j] + a[j + 1..]) by { assert (a[..j] + a[j + 1..])[i] == a[i]; }
      assert multiset(b)[a[i]] >= 2;
      TwiceMeansTwoPlaces(b, a[i]);
    } else {
      assert a[i] in multiset(b) && a[j] in multiset(b);
      var k :| 0 <= k < |b| && b[k] == a[i];
      var l :| 0 <= l < |b| && b[l] == a[j];
    }
  }

  lemma TwiceMeansTwoPlaces(b: seq<Entry>, e: Entry)
    requires multiset(b)[e] >= 2
    ensures exists k, l :: 0 <= k < l < |b| && b[k] == e && b[l] == e
  {
    assert e in multiset(b);
    var k :| 0 <= k < |b| && b[k] == e;
    Removed(b, k);
    var rest := b[..k] + b[k + 1..];
    assert e in multiset(rest);
    var m :| 0 <= m < |rest| && rest[m] == e;
    var l := if m < k then m else m + 1;
    assert b[l] == e && l != k;
  }

  /** Whether the catalog is built, and with which entries, does not depend on the order of the routes. */
  lemma RouteOrderDoesNotMatter(a: seq<Route>, b: seq<Route>)
    requires multiset(a) == multiset(b)
    ensures match CatalogOf(a)
            case Err(error) => CatalogOf(b) == Err(error)
            case Ok(c) =>
              && CatalogOf(b).Ok?
              && multiset(c.entries) == multiset(CatalogOf(b).value.entries)
              && multiset(c.failed) == multiset(CatalogOf(b).value.failed)
  {
    PermutedRoutes(a, b);
    PermutedEntries(Candidates(a), Candidates(b));
    if AllUnreachable(a) {
      SameMembers(a, b);
    }
    if AllUnreachable(b) {
      SameMembers(b, a);
    }
    hide Candidates, Failures, Entries, AllUnreachable;
    var ea, eb := Entries(Candidates(a), |Candidates(a)|), Entries(Candidates(b), |Candidates(b)|);
    if !DistinctNames(ea) {
      var i, j :| 0 <= i < j < |ea| && ea[i].name == ea[j].name;
      RepetitionShowsInMultiset(ea, eb, i, j);
    }
    if !DistinctNames(eb) {
      var i, j :| 0 <= i < j < |eb| && eb[i].name == eb[j].name;
      RepetitionShowsInMultiset(eb, ea, i, j);
    }
  }

  lemma SameMembers(a: seq<Route>, b: seq<Route>)
    requires multiset(a) == multiset(b) && AllUnreachable(a)
    ensures AllUnreachable(b)
  {
    forall i | 0 <= i < |b| ensures b[i].listing.Unreachable? {
      assert b[i] in multiset(a);
      var j :| 0 <= j < |a| && a[j] == b[i];
    }
  }
}
