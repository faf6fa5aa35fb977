/**
 accelerator/shaping.go, Shape: redact, select, project, page, then bound what is shown.
 The JSON encoder is a parameter; every JSON value encodes.
 */
module Shaping {
  import opened Text
  import opened Json
  import opened Redaction
  import opened Paths

  const DEFAULT_PREVIEW_CHARS := 12_000
  const MIN_PREVIEW_CHARS := 256
  const MAX_PREVIEW_CHARS := 120_000

  datatype Env = Env(redactor: Redactor, encode: Json -> string)

  datatype Options = Options(jsonPath: string, fields: seq<string>, offset: Int, limit: Int, maxChars: Int)

  datatype Outcome =
    | Shaped(value: Json, truncated: bool, original: Json)
    | Fault(error: PathError)
    | Panic // a slice expression with a negative bound

  // ---------- What each stage means ----------

  function Narrow(v: Json, path: string): Selection {
    if TrimSpace(path) == "" || TrimSpace(path) == "$" then Found(v) else Select(v, path)
  }

  /** The names asked for: trimmed, the blank ones skipped. */
  function Wanted(fields: seq<string>): (names: set<string>)
    ensures "" !in names
  {
    if fields == [] then {}
    else
      var name := TrimSpace(fields[|fields| - 1]);
      Wanted(fields[..|fields| - 1]) + if name == "" then {} else {name}
  }

  function Project(v: Json, fields: seq<string>): Selection {
    if fields == [] then Found(v)
    else if !v.Obj? then Missed(InvalidShape)
    else Found(Obj(map name | name in Wanted(fields) && name in v.fields :: v.fields[name]))
  }

  datatype Page = Shown(value: Json) | Refused | OutOfBounds

  function Cut(v: Json, offset: Int, limit: Int): Page {
    if v.Arr? then
      if offset < 0 then Refused
      else
        var start := if offset > |v.items| then |v.items| else offset;
        var end := if limit > 0 && WrapAdd(start, limit) < |v.items| then WrapAdd(start, limit) else |v.items|;
        if start <= end then Shown(Arr(v.items[start..end])) else OutOfBounds
    else if offset != 0 || limit > 0 then Refused
    else Shown(v)
  }

  function Preview(env: Env, v: Json, maxChars: int, original: Json): Outcome {
    var max := if maxChars <= 0 then DEFAULT_PREVIEW_CHARS else maxChars;
    if max < MIN_PREVIEW_CHARS || max > MAX_PREVIEW_CHARS then Fault(InvalidShape)
    else
      var encoded := env.encode(v);
      if |encoded| <= max then Shaped(v, false, original)
      else Shaped(Obj(map["preview_json" := Str(encoded[..max]), "truncated" := Bool(true),
                          "max_chars" := Num(max as real)]), true, original)
  }

  /** What Preview is given, or the fault that stops the earlier stages. */
  function Chosen(env: Env, value: Json, o: Options): Page {
    match Narrow(env.redactor.Redact(value), o.jsonPath)
    case Missed(_) => Refused
    case Found(v) =>
      match Project(v, o.fields)
      case Missed(_) => Refused
      case Found(w) => Cut(w, o.offset, o.limit)
  }

  function ShapeOf(env: Env, value: Json, o: Options): Outcome {
    var original := env.redactor.Redact(value);
    match Narrow(original, o.jsonPath)
    case Missed(e) => Fault(e)
    case Found(v) =>
      match Project(v, o.fields)
      case Missed(e) => Fault(e)
      case Found(w) =>
        match Cut(w, o.offset, o.limit)
        case Refused => Fault(InvalidShape)
        case OutOfBounds => Panic
        case Shown(page) => Preview(env, page, o.maxChars, original)
  }

  // ---------- The code, stage by stage ----------

  method SelectFields(fields: map<string, Json>, names: seq<string>) returns (selected: map<string, Json>)
    requires names != []
    ensures Found(Obj(selected)) == Project(Obj(fields), names)
  {
    hide TrimSpace;
    selected := map[];
    for i := 0 to |names|
      invariant selected == map name | name in Wanted(names[..i]) && name in fields :: fields[name]
    {
      assert names[..i + 1][..i] == names[..i];
      var field := TrimSpace(names[i]);
      if field != "" && field in fields {
        selected := selected[field := fields[field]];
      }
    }
    assert names[..|names|] == names;
  }

  method Shape(env: Env, value: Json, o: Options) returns (r: Outcome)
    ensures r == ShapeOf(env, value, o)
  {
    hide TrimSpace, Select, Preview;
    var original := env.redactor.Redact(value);
    var current := original;
    if TrimSpace(o.jsonPath) != "" && TrimSpace(o.jsonPath) != "$" {
      var selection := SelectPath(current, o.jsonPath);
      if selection.Missed? {
        return Fault(selection.error);
      }
      current := selection.value;
    }
    if o.fields != [] {
      if !current.Obj? {
        return Fault(InvalidShape);
      }
      var selected := SelectFields(current.fields, o.fields);
      current := Obj(selected);
    }
    if current.Arr? {
      var offset := o.offset;
      if offset < 0 {
        return Fault(InvalidShape);
      }
      if offset > |current.items| {
        offset := |current.items|;
      }
      var end: int := |current.items|;
      if o.limit > 0 && WrapAdd(offset, o.limit) < end {
        end := WrapAdd(offset, o.limit);
      }
      if end < offset {
        return Panic;
      }
      current := Arr(current.items[offset..end]);
    } else if o.offset != 0 || o.limit > 0 {
      return Fault(InvalidShape);
    }
    return Preview(env, current, o.maxChars, original);
  }

  // ---------- What a caller is shown ----------

  /** A name is asked for if some field, trimmed, is it. */
  lemma {:induction false} WantedMeans(fields: seq<string>, name: string)
    ensures name in Wanted(fields) <==> name != "" && exists k :: 0 <= k < |fields| && TrimSpace(fields[k]) == name
  {
    hide TrimSpace;
    if fields != [] {
      var n := |fields| - 1;
      WantedMeans(fields[..n], name);
      if exists k :: 0 <= k < |fields| && TrimSpace(fields[k]) == name {
        var k :| 0 <= k < |fields| && TrimSpace(fields[k]) == name;
        assert k < n ==> TrimSpace(fields[..n][k]) == name;
      }
      if exists k :: 0 <= k < n && TrimSpace(fields[..n][k]) == name {
        var k :| 0 <= k < n && TrimSpace(fields[..n][k]) == name;
        assert TrimSpace(fields[k]) == name;
      }
    }
  }

  /** The projection has exactly the fields asked for that are there, with their values; it takes an object. */
  lemma ProjectionKeepsWhatIsAsked(v: Json, fields: seq<string>)
    requires fields != []
    ensures !v.Obj? ==> Project(v, fields) == Missed(InvalidShape)
    ensures v.Obj? ==>
              var p := Project(v, fields);
              && p.Found? && p.value.Obj?
              && forall name ::
                   && (name in p.value.fields <==>
                       name in v.fields && name != "" && exists k :: 0 <= k < |fields| && TrimSpace(fields[k]) == name)
                   && (name in p.value.fields ==> p.value.fields[name] == v.fields[name])
  {
    forall name
      ensures name in Wanted(fields) <==> name != "" && exists k :: 0 <= k < |fields| && TrimSpace(fields[k]) == name
    {
      WantedMeans(fields, name);
    }
    hide TrimSpace, Wanted;
  }

  /** The items from the offset on, as many as the limit admits; a limit of 0 or less admits all. */
  predicate IsPage(items: seq<Json>, offset: nat, limit: int, page: seq<Json>) {
    var start := if offset > |items| then |items| else offset;
    && |page| == (if 0 < limit < |items| - start then limit else |items| - start)
    && forall i :: 0 <= i < |page| ==> page[i] == items[start + i]
  }

  /** What the path selects from the redacted value, projected on the fields. */
  predicate Asked(env: Env, value: Json, o: Options, w: Json) {
    var narrowed := Narrow(env.redactor.Redact(value), o.jsonPath);
    narrowed.Found? && Project(narrowed.value, o.fields) == Found(w)
  }

  /** The bound on what is shown, unless it is out of range. */
  function Bound(o: Options): int {
    if o.maxChars <= 0 then 12_000 else o.maxChars
  }

  predicate BoundInRange(o: Options) {
    256 <= Bound(o) <= 120_000
  }

  /** Shown whole if its encoding is within the bound; otherwise exactly the first characters of the encoding. */
  predicate Shows(env: Env, o: Options, w: Json, r: Outcome)
    requires BoundInRange(o)
  {
    && r.Shaped?
    && var encoded := env.encode(w);
       if |encoded| <= Bound(o) then !r.truncated && r.value == w
       else
         r.truncated && r.value == Obj(map["preview_json" := Str(encoded[..Bound(o)]), "truncated" := Bool(true),
                                           "max_chars" := Num(Bound(o) as real)])
  }

  lemma PreviewShows(env: Env, o: Options, w: Json, original: Json)
    requires BoundInRange(o)
    ensures Shows(env, o, w, Preview(env, w, o.maxChars, original))
    ensures Preview(env, w, o.maxChars, original).original == original
  {}

  lemma CutShowsAPage(items: seq<Json>, offset: Int, limit: Int)
    requires offset >= 0 && (limit <= 0 || limit <= MAX_INT - if offset > |items| then |items| else offset)
    ensures var c := Cut(Arr(items), offset, limit);
            c.Shown? && c.value.Arr? && IsPage(items, offset, limit, c.value.items)
  {}

  lemma ShapeOfAsked(env: Env, value: Json, o: Options, w: Json)
    requires Asked(env, value, o, w)
    ensures var original := env.redactor.Redact(value);
            ShapeOf(env, value, o) ==
            match Cut(w, o.offset, o.limit)
            case Refused => Fault(InvalidShape)
            case OutOfBounds => Panic
            case Shown(page) => Preview(env, page, o.maxChars, original)
  {
    hide Narrow, Project, Cut, Preview;
  }

  /**
   Of a list, Shape shows the page that begins at the offset: item by item what was selected, whole or
   as the first characters of its encoding; and hands on the redacted value.
   */
  lemma ShapeShowsThePage(env: Env, value: Json, o: Options, w: Json)
    requires Asked(env, value, o, w) && w.Arr? && BoundInRange(o) && o.offset >= 0
    requires o.limit <= 0 || o.limit <= MAX_INT - if o.offset > |w.items| then |w.items| else o.offset
    ensures exists page ::
              && IsPage(w.items, o.offset, o.limit, page)
              && Shows(env, o, Arr(page), ShapeOf(env, value, o))
    ensures ShapeOf(env, value, o).original == env.redactor.Redact(value)
  {
    ShapeOfAsked(env, value, o, w);
    CutShowsAPage(w.items, o.offset, o.limit);
    var page := Cut(w, o.offset, o.limit).value.items;
    PreviewShows(env, o, Arr(page), env.redactor.Redact(value));
    hide Asked, Cut, Preview, IsPage, Shows, ShapeOf, BoundInRange;
    assert IsPage(w.items, o.offset, o.limit, page) && Shows(env, o, Arr(page), ShapeOf(env, value, o));
  }

  /** Anything else it shows as it was selected. */
  lemma ShapeShowsTheRest(env: Env, value: Json, o: Options, w: Json)
    requires Asked(env, value, o, w) && !w.Arr? && BoundInRange(o) && o.offset == 0 && o.limit <= 0
    ensures Shows(env, o, w, ShapeOf(env, value, o))
    ensures ShapeOf(env, value, o).original == env.redactor.Redact(value)
  {
    ShapeOfAsked(env, value, o, w);
    PreviewShows(env, o, w, env.redactor.Redact(value));
    hide Asked, Preview, Shows, ShapeOf, BoundInRange;
  }

  /** A path that is blank or `$` selects everything. */
  lemma BlankPathSelectsAll(v: Json, path: string)
    ensures Narrow(v, path) == if TrimSpace(path) == "" || TrimSpace(path) == "$" then Found(v) else Select(v, path)
  {
    hide TrimSpace, Select;
  }

  /** Shape refuses exactly these: a path or a projection that fails, a senseless page, a bound out of range. */
  lemma ShapeRefusesExactly(env: Env, value: Json, o: Options)
    ensures var narrowed := Narrow(env.redactor.Redact(value), o.jsonPath);
            var r := ShapeOf(env, value, o);
            && (narrowed.Missed? ==> r == Fault(narrowed.error))
            && (narrowed.Found? && o.fields != [] && !narrowed.value.Obj? ==> r == Fault(InvalidShape))
            && (forall w :: Asked(env, value, o, w) && !r.Panic? ==>
                  (r == Fault(InvalidShape) <==>
                   || !BoundInRange(o) || (w.Arr? && o.offset < 0)
                   || (!w.Arr? && (o.offset != 0 || o.limit > 0))))
  {
    var narrowed := Narrow(env.redactor.Redact(value), o.jsonPath);
    hide Narrow;
    forall w | Asked(env, value, o, w) && !ShapeOf(env, value, o).Panic?
      ensures ShapeOf(env, value, o) == Fault(InvalidShape) <==>
              || !BoundInRange(o) || (w.Arr? && o.offset < 0)
              || (!w.Arr? && (o.offset != 0 || o.limit > 0))
    {
      ShapeOfAsked(env, value, o, w);
      hide Asked, ShapeOf;
    }
  }

  /** Two pages, the second of which begins where the first one ends, are one page. */
  lemma PagesJoin(items: seq<Json>, offset: nat, limit: nat, more: nat, first: seq<Json>, second: seq<Json>)
    requires limit > 0 && more > 0 && offset + limit <= |items|
    requires IsPage(items, offset, limit, first) && IsPage(items, offset + limit, more, second)
    ensures IsPage(items, offset, limit + more, first + second)
  {}

  function Flat(pages: seq<seq<Json>>): seq<Json> {
    if pages == [] then [] else Flat(pages[..|pages| - 1]) + pages[|pages| - 1]
  }

  /** The pages of one size, one after another, hold the list up to where they end. */
  lemma {:induction false} PagesReach(items: seq<Json>, limit: nat, pages: seq<seq<Json>>)
    requires limit > 0 && forall k :: 0 <= k < |pages| ==> IsPage(items, k * limit, limit, pages[k])
    ensures var end := |pages| * limit;
            Flat(pages) == if end > |items| then items else items[..end]
  {
    if pages == [] {
      assert items[..0] == [];
    } else {
      var n := |pages| - 1;
      assert IsPage(items, n * limit, limit, pages[n]);
      assert forall k :: 0 <= k < n ==> IsPage(items, k * limit, limit, pages[..n][k]);
      assert |pages| * limit == n * limit + limit;
      hide IsPage;
      PagesReach(items, limit, pages[..n]);
      PageContinues(items, n * limit, limit, pages[n]);
    }
  }

  /** A page continues what the pages before it hold. */
  lemma PageContinues(items: seq<Json>, offset: nat, limit: nat, page: seq<Json>)
    requires limit > 0 && IsPage(items, offset, limit, page)
    ensures var before := if offset > |items| then items else items[..offset];
            before + page == if offset + limit > |items| then items else items[..offset + limit]
  {}

  /** Asking for page after page until they reach the end gives the list, nothing twice and nothing left out. */
  lemma AllPagesAreTheList(items: seq<Json>, limit: nat, pages: seq<seq<Json>>)
    requires limit > 0 && forall k :: 0 <= k < |pages| ==> IsPage(items, k * limit, limit, pages[k])
    requires |pages| * limit >= |items|
    ensures Flat(pages) == items
  {
    PagesReach(items, limit, pages);
    hide Flat, IsPage;
  }

  // ---------- What a caller may rely on ----------

  /** Two results that differ only in credentials are shown identically, whatever was asked for. */
  lemma ShapeRevealsNoSecret(env: Env, v: Json, w: Json, o: Options)
    requires env.redactor.Agree(v, w)
    ensures ShapeOf(env, v, o) == ShapeOf(env, w, o)
  {
    RedactForgetsExactly(env.redactor, v, w);
  }

  /** The text is shown: a proper prefix, between the two bounds. */
  predicate ShowsPrefix(v: Json, text: string) {
    && v.Obj? && "preview_json" in v.fields && v.fields["preview_json"].Str?
    && v.fields["preview_json"].text < text
    && MIN_PREVIEW_CHARS <= |v.fields["preview_json"].text| <= MAX_PREVIEW_CHARS
  }

  /** What is shown, and what is stored, holds no credential; a preview encodes such a value. */
  lemma ShapeIsClean(env: Env, value: Json, o: Options)
    requires ShapeOf(env, value, o).Shaped?
    ensures var r, chosen := ShapeOf(env, value, o), Chosen(env, value, o);
            && env.redactor.Clean(r.original) && chosen.Shown? && env.redactor.Clean(chosen.value)
            && if r.truncated then ShowsPrefix(r.value, env.encode(chosen.value))
               else r.value == chosen.value && |env.encode(r.value)| <= MAX_PREVIEW_CHARS
  {
    var r := env.redactor;
    var original := r.Redact(value);
    RedactLeavesNoSecret(r, value);
    hide TrimSpace, Scan;
    assert r.Clean(Narrow(original, o.jsonPath).value) by {
      var text := TrimSpace(o.jsonPath);
      if text != "" && text != "$" {
        ScanKeepsClean(r, text, 1, original);
      }
    }
  }

  /**
   Shape cannot panic unless a positive limit overflows Go's int once the offset, cut to the
   length of the list, is added to it; and then it always does.
   */
  lemma ShapePanicsExactly(env: Env, value: Json, o: Options)
    ensures ShapeOf(env, value, o).Panic? <==>
            var narrowed := Narrow(env.redactor.Redact(value), o.jsonPath);
            && narrowed.Found? && Project(narrowed.value, o.fields).Found?
            && var list := Project(narrowed.value, o.fields).value;
               && list.Arr? && o.offset >= 0
               && o.limit > MAX_INT - (if o.offset > |list.items| then |list.items| else o.offset)
  {
    hide Narrow, Project;
  }

  /** 2^63 - 1024, which a JSON number can name exactly. */
  const LARGE_LIMIT: Int := 0x7FFF_FFFF_FFFF_FC00

  lemma CutOverflows(items: seq<Json>)
    requires |items| >= 1024
    ensures Cut(Arr(items), 1024, LARGE_LIMIT) == OutOfBounds
  {
    assert WrapAdd(1024, LARGE_LIMIT) < 0;
    hide WrapAdd;
  }

  /** A field of a field. */
  function Nested(outer: string, inner: string): string {
    "$." + outer + "." + inner
  }

  /** A name that can stand in a path, at its end too. */
  predicate Plain(name: string) {
    name != [] && '.' !in name && '[' !in name && !IsSpace(name[|name| - 1])
  }

  lemma NestedIsRendered(outer: string, inner: string)
    ensures Render([Field(outer), Field(inner)]) == Nested(outer, inner)
  {
    var steps := [Field(outer), Field(inner)];
    assert steps[1..] == [Field(inner)] && [Field(inner)][1..] == [];
    assert WrittenAll([Field(inner)]) == "." + inner + "";
    assert Render(steps) == "$" + ("." + outer + ("." + inner + ""));
  }

  lemma NestedIsRenderable(outer: string, inner: string)
    requires Plain(outer) && Plain(inner)
    ensures Renderable([Field(outer), Field(inner)])
  {
    hide IsSpace;
  }

  lemma NestedNavigates(v: Json, outer: string, inner: string)
    requires Plain(outer) && Plain(inner)
    ensures Select(v, Nested(outer, inner)) == Navigate(v, [Field(outer), Field(inner)])
    ensures Trimmed(Nested(outer, inner))
  {
    NestedIsRendered(outer, inner);
    NestedIsRenderable(outer, inner);
    hide *;
    RenderIsTrimmed([Field(outer), Field(inner)]);
    RenderedPathNavigates(v, [Field(outer), Field(inner)]);
  }

  /** The value has such a field of a field, a list of at least n items. */
  predicate Lists(v: Json, outer: string, inner: string, n: nat) {
    && v.Obj? && outer in v.fields
    && var content := v.fields[outer];
       content.Obj? && inner in content.fields && content.fields[inner].Arr? && |content.fields[inner].items| >= n
  }

  /** Redaction keeps the list if neither name on the way to it is secret. */
  lemma RedactKeepsList(r: Redactor, v: Json, outer: string, inner: string, n: nat)
    requires Lists(v, outer, inner, n) && !r.secret(outer) && !r.secret(inner)
    ensures Lists(r.Redact(v), outer, inner, n)
  {
    RedactKeepsShape(r, v);
    hide Redactor.Redact;
    var w := r.Redact(v);
    assert r.SameShape(v.fields[outer], w.fields[outer]);
    assert r.SameShape(v.fields[outer].fields[inner], w.fields[outer].fields[inner]);
  }

  lemma NavigateTwice(v: Json, outer: string, inner: string)
    requires v.Obj? && outer in v.fields && v.fields[outer].Obj? && inner in v.fields[outer].fields
    ensures Navigate(v, [Field(outer), Field(inner)]) == Found(v.fields[outer].fields[inner])
  {
    var w := v.fields[outer];
    NavigateOn(v, [Field(outer), Field(inner)], w);
    NavigateOn(w, [Field(inner)], w.fields[inner]);
    assert [Field(outer), Field(inner)][1..] == [Field(inner)] && [Field(inner)][1..] == [];
  }

  lemma NavigateOn(v: Json, steps: seq<Step>, w: Json)
    requires steps != [] && Enter(v, steps[0]) == Found(w)
    ensures Navigate(v, steps) == Navigate(w, steps[1..])
  {}

  lemma NarrowIsSelect(v: Json, path: string)
    requires Trimmed(path) && |path| > 1
    ensures Narrow(v, path) == Select(v, path)
  {
    assert path != "" && path != "$";
    TrimSpaceKeepsTrimmed(path);
    hide TrimSpace, Select, Trimmed, IsSpace, Scan;
  }

  lemma ListIsSelected(v: Json, outer: string, inner: string, n: nat)
    requires Plain(outer) && Plain(inner) && Lists(v, outer, inner, n)
    ensures Narrow(v, Nested(outer, inner)) == Found(v.fields[outer].fields[inner])
  {
    assert |Nested(outer, inner)| > 1;
    NavigateTwice(v, outer, inner);
    hide *;
    NestedNavigates(v, outer, inner);
    NarrowIsSelect(v, Nested(outer, inner));
  }

  lemma PanicsByCut(env: Env, v: Json, o: Options, list: Json)
    requires Narrow(env.redactor.Redact(v), o.jsonPath) == Found(list) && o.fields == []
    requires Cut(list, o.offset, o.limit) == OutOfBounds
    ensures ShapeOf(env, v, o) == Panic
  {
    hide Narrow, Cut, Preview;
  }

  lemma LongListPanics(env: Env, v: Json, outer: string, inner: string, maxChars: Int)
    requires Plain(outer) && Plain(inner) && Lists(v, outer, inner, 1024)
    requires !env.redactor.secret(outer) && !env.redactor.secret(inner)
    ensures ShapeOf(env, v, Options(Nested(outer, inner), [], 1024, LARGE_LIMIT, maxChars)) == Panic
  {
    RedactKeepsList(env.redactor, v, outer, inner, 1024);
    var redacted := env.redactor.Redact(v);
    var list := redacted.fields[outer].fields[inner];
    CutOverflows(list.items);
    hide *;
    ListIsSelected(redacted, outer, inner, 1024);
    PanicsByCut(env, v, Options(Nested(outer, inner), [], 1024, LARGE_LIMIT, maxChars), list);
  }

  lemma StructuredNamesArePlain(outer: string, inner: string)
    requires outer == "structured_content" && inner == "items"
    ensures Plain(outer) && Plain(inner) && Nested(outer, inner) == "$.structured_content.items"
  {}

  /**
   For instance a tool result, as the bridge normalizes it, that lists 1024 items or more in its
   structured content, asked for from offset 1024 with this limit.
   */
  lemma LargeLimitPanics(env: Env, result: Json, maxChars: Int)
    requires Lists(result, "structured_content", "items", 1024)
    requires !env.redactor.secret("structured_content") && !env.redactor.secret("items")
    ensures ShapeOf(env, result, Options("$.structured_content.items", [], 1024, LARGE_LIMIT, maxChars)) == Panic
  {
    var outer, inner := "structured_content", "items";
    StructuredNamesArePlain(outer, inner);
    hide *;
    LongListPanics(env, result, outer, inner, maxChars);
  }
}
