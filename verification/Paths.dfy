/**
 accelerator/shaping.go, selectPath: a small path language read and evaluated in one left to
 right scan. It resembles the child segment and the index selector of RFC 9535 (sections
 2.5.1 and 2.3.3) but is its own language, and the model follows the code.
 */
module Paths {
  import opened Text
  import opened Json
  import opened Redaction

  datatype PathError = InvalidShape | ShapeNotFound

  datatype Selection = Found(value: Json) | Missed(error: PathError)

  // ---------- What a path means ----------

  datatype Step = Field(name: string) | Index(index: nat)

  /** One move down a value. An index that does not fit Go's int is refused as malformed. */
  function Enter(v: Json, step: Step): Selection {
    match step
    case Field(name) =>
      if v.Obj? && name in v.fields then Found(v.fields[name]) else Missed(ShapeNotFound)
    case Index(n) =>
      if n > MAX_INT then Missed(InvalidShape)
      else if v.Arr? && n < |v.items| then Found(v.items[n])
      else Missed(ShapeNotFound)
  }

  /** Direct navigation: the reference the scanner is compared with. */
  function Navigate(v: Json, steps: seq<Step>): Selection {
    if steps == [] then Found(v)
    else
      match Enter(v, steps[0])
      case Missed(e) => Missed(e)
      case Found(w) => Navigate(w, steps[1..])
  }

  /** What a step selects: the field of that name, or the item at that place counted from 0. */
  ghost predicate Selects(v: Json, step: Step, w: Json) {
    match step
    case Field(name) => v.Obj? && name in v.fields && w == v.fields[name]
    case Index(n) => n <= MAX_INT && v.Arr? && n < |v.items| && w == v.items[n]
  }

  /** The values on the way: the steps lead from each to the next. */
  ghost predicate Trail(steps: seq<Step>, vs: seq<Json>) {
    |vs| == |steps| + 1 && forall k :: 0 <= k < |steps| ==> Selects(vs[k], steps[k], vs[k + 1])
  }

  /** The steps up to the j-th lead from v to the last of vs, and the j-th selects nothing there. */
  ghost predicate Ends(v: Json, steps: seq<Step>, j: nat, vs: seq<Json>) {
    && j < |steps| && Trail(steps[..j], vs) && vs[0] == v
    && forall w :: !Selects(vs[j], steps[j], w)
  }

  lemma TrailFrom(v: Json, w: Json, steps: seq<Step>, vs: seq<Json>)
    requires steps != [] && Selects(v, steps[0], w) && Trail(steps[1..], vs) && vs[0] == w
    ensures Trail(steps, [v] + vs)
  {
    var more := [v] + vs;
    forall k | 0 <= k < |steps| ensures Selects(more[k], steps[k], more[k + 1]) {
      if k > 0 {
        assert Selects(vs[k - 1], steps[1..][k - 1], vs[k]);
      }
    }
  }

  lemma EnterSelects(v: Json, step: Step, w: Json)
    ensures Enter(v, step) == Found(w) <==> Selects(v, step, w)
  {}

  lemma TrailAfter(steps: seq<Step>, vs: seq<Json>)
    requires steps != [] && Trail(steps, vs)
    ensures Trail(steps[1..], vs[1..]) && Selects(vs[0], steps[0], vs[1])
  {
    forall k | 0 <= k < |steps| - 1 ensures Selects(vs[1..][k], steps[1..][k], vs[1..][k + 1]) {
      assert Selects(vs[k + 1], steps[k + 1], vs[k + 2]);
    }
  }

  /** Navigation finds a value exactly when the steps lead there, one selection after another. */
  lemma {:induction false} NavigationFollowsATrail(v: Json, steps: seq<Step>, w: Json)
    ensures Navigate(v, steps) == Found(w) <==> exists vs :: Trail(steps, vs) && vs[0] == v && vs[|steps|] == w
    decreases |steps|
  {
    hide Enter, Selects;
    if steps == [] {
      assert Navigate(v, steps) == Found(v);
      assert Trail(steps, [v]);
    } else {
      var entered := Enter(v, steps[0]);
      if entered.Found? {
        EnterSelects(v, steps[0], entered.value);
        NavigationFollowsATrail(entered.value, steps[1..], w);
      }
      if Navigate(v, steps) == Found(w) {
        var vs :| Trail(steps[1..], vs) && vs[0] == entered.value && vs[|steps| - 1] == w;
        TrailFrom(v, entered.value, steps, vs);
        assert ([v] + vs)[0] == v && ([v] + vs)[|steps|] == w;
      }
      if exists vs :: Trail(steps, vs) && vs[0] == v && vs[|steps|] == w {
        var vs :| Trail(steps, vs) && vs[0] == v && vs[|steps|] == w;
        TrailAfter(steps, vs);
        EnterSelects(v, steps[0], vs[1]);
        assert vs[1..][0] == vs[1] && vs[1..][|steps| - 1] == w;
      }
    }
  }

  lemma EnterFails(v: Json, step: Step)
    ensures Enter(v, step).Missed? <==> forall w :: !Selects(v, step, w)
    ensures Enter(v, step).Missed? ==>
              Enter(v, step).error == if step.Index? && step.index > MAX_INT then InvalidShape else ShapeNotFound
  {
    if Enter(v, step).Found? {
      assert Selects(v, step, Enter(v, step).value);
    }
  }

  /** And it fails exactly at the first step that selects nothing, with an error that depends on that step alone. */
  lemma {:induction false} NavigationFailsAtAStep(v: Json, steps: seq<Step>)
    ensures Navigate(v, steps).Missed? ==>
              exists j: nat, vs ::
                && Ends(v, steps, j, vs)
                && Navigate(v, steps).error ==
                   if steps[j].Index? && steps[j].index > MAX_INT then InvalidShape else ShapeNotFound
    decreases |steps|
  {
    if Navigate(v, steps).Missed? {
      var entered := Enter(v, steps[0]);
      EnterFails(v, steps[0]);
      hide Enter, Selects;
      if entered.Missed? {
        assert Trail(steps[..0], [v]);
        assert Ends(v, steps, 0, [v]);
      } else {
        EnterSelects(v, steps[0], entered.value);
        NavigationFailsAtAStep(entered.value, steps[1..]);
        var j: nat, vs :|
          && Ends(entered.value, steps[1..], j, vs)
          && Navigate(entered.value, steps[1..]).error ==
             if steps[1..][j].Index? && steps[1..][j].index > MAX_INT then InvalidShape else ShapeNotFound;
        assert steps[..j + 1][1..] == steps[1..][..j];
        TrailFrom(v, entered.value, steps[..j + 1], vs);
        assert steps[1..][j] == steps[j + 1] && ([v] + vs)[j + 1] == vs[j];
        assert Ends(v, steps, j + 1, [v] + vs);
      }
    }
  }

  // ---------- What the code scans ----------

  /** The end of the field name that starts at i. */
  function FieldEnd(path: string, i: nat): (stop: nat)
    requires i <= |path|
    ensures i <= stop <= |path|
    ensures forall k :: i <= k < stop ==> path[k] != '.' && path[k] != '['
    ensures stop < |path| ==> path[stop] == '.' || path[stop] == '['
    decreases |path| - i
  {
    if i < |path| && path[i] != '.' && path[i] != '[' then FieldEnd(path, i + 1) else i
  }

  datatype Token = Stop(step: Step, next: nat) | Malformed

  /** The step written at position i and the position after it. */
  function Next(path: string, i: nat): (t: Token)
    requires i < |path|
    ensures t.Stop? ==> i < t.next <= |path|
  {
    if path[i] == '.' then
      var stop := FieldEnd(path, i + 1);
      if stop == i + 1 then Malformed else Stop(Field(path[i + 1..stop]), stop)
    else if path[i] == '[' then
      match IndexFrom(path, ']', i)
      case None => Malformed
      case Some(close) =>
        match Atoi(path[i + 1..close])
        case None => Malformed
        case Some(n) => if n < 0 then Malformed else Stop(Index(n), close + 1)
    else Malformed
  }

  /** The scan from position i with `v` selected so far; the first fault met decides the error. */
  function Scan(path: string, i: nat, v: Json): Selection
    requires i <= |path|
    decreases |path| - i
  {
    if i == |path| then Found(v)
    else
      match Next(path, i)
      case Malformed => Missed(InvalidShape)
      case Stop(step, next) =>
        match Enter(v, step)
        case Missed(e) => Missed(e)
        case Found(w) => Scan(path, next, w)
  }

  function Select(v: Json, path: string): Selection {
    var text := TrimSpace(path);
    if text == [] || text[0] != '$' then Missed(InvalidShape) else Scan(text, 1, v)
  }

  /** selectPath: the loop moves `current` and `i` one written step at a time. */
  method SelectPath(value: Json, rawPath: string) returns (r: Selection)
    ensures r == Select(value, rawPath)
  {
    var path := TrimSpace(rawPath);
    if path == [] || path[0] != '$' {
      return Missed(InvalidShape);
    }
    hide Next, Enter, TrimSpace;
    var current, i := value, 1;
    while i < |path|
      invariant 1 <= i <= |path|
      invariant Scan(path, i, current) == Scan(path, 1, value)
    {
      var token := Next(path, i);
      if token.Malformed? {
        return Missed(InvalidShape);
      }
      var entered := Enter(current, token.step);
      if entered.Missed? {
        return entered;
      }
      current, i := entered.value, token.next;
    }
    return Found(current);
  }

  // ---------- Every text: either a list of steps or an error ----------

  /** The steps a path text denotes from position i on, if it is well formed. */
  function StepsOf(path: string, i: nat): Option<seq<Step>>
    requires i <= |path|
    decreases |path| - i
  {
    if i == |path| then Some([])
    else
      match Next(path, i)
      case Malformed => None
      case Stop(step, next) =>
        match StepsOf(path, next)
        case None => None
        case Some(rest) => Some([step] + rest)
  }

  /** Well-formed text selects by direct navigation; malformed text selects nothing from any value. */
  lemma {:induction false} ScanIsNavigation(path: string, i: nat, v: Json)
    requires i <= |path|
    ensures StepsOf(path, i).Some? ==> Scan(path, i, v) == Navigate(v, StepsOf(path, i).value)
    ensures StepsOf(path, i).None? ==> Scan(path, i, v).Missed?
    decreases |path| - i
  {
    if i < |path| && Next(path, i).Stop? {
      var Stop(step, next) := Next(path, i);
      match Enter(v, step)
      case Missed(_) =>
        if StepsOf(path, i).Some? { assert StepsOf(path, i).value[0] == step; }
      case Found(w) =>
        ScanIsNavigation(path, next, w);
        if StepsOf(path, i).Some? {
          assert StepsOf(path, i).value[1..] == StepsOf(path, next).value;
        }
    }
  }

  // ---------- Writing steps down and reading them back ----------

  /** A name the syntax can carry: not empty and free of the characters that end a field. */
  predicate Nameable(step: Step) {
    step.Field? ==> step.name != [] && '.' !in step.name && '[' !in step.name
  }

  function Written(step: Step): (s: string)
    ensures s != [] && (s[0] == '.' || s[0] == '[')
  {
    match step
    case Field(name) => "." + name
    case Index(n) => "[" + Decimal(n) + "]"
  }

  function WrittenAll(steps: seq<Step>): string {
    if steps == [] then "" else Written(steps[0]) + WrittenAll(steps[1..])
  }

  function Render(steps: seq<Step>): string {
    "$" + WrittenAll(steps)
  }

  /** Steps that survive writing: the last name must not end in white space, which is trimmed. */
  predicate Renderable(steps: seq<Step>) {
    && (forall i :: 0 <= i < |steps| ==> Nameable(steps[i]))
    && (steps != [] && steps[|steps| - 1].Field? && steps[|steps| - 1].name != [] ==>
          var name := steps[|steps| - 1].name; !IsSpace(name[|name| - 1]))
  }

  lemma {:induction false} WrittenAllEnd(steps: seq<Step>)
    requires steps != []
    ensures var text, last := WrittenAll(steps), Written(steps[|steps| - 1]);
            text != [] && text[|text| - 1] == last[|last| - 1]
  {
    hide Written, Decimal;
    if |steps| > 1 {
      WrittenAllEnd(steps[1..]);
    }
  }

  lemma RenderIsTrimmed(steps: seq<Step>)
    requires Renderable(steps)
    ensures Trimmed(Render(steps))
  {
    if steps != [] {
      assert !IsSpace('$') && !IsSpace(']');
      hide WrittenAll, Decimal, IsSpace;
      WrittenAllEnd(steps);
      var last, text := steps[|steps| - 1], Render(steps);
      assert text[|text| - 1] == Written(last)[|Written(last)| - 1];
      assert Nameable(last);
    }
  }

  lemma {:induction false} FieldEndFinds(path: string, i: nat, stop: nat)
    requires i <= stop <= |path|
    requires forall k :: i <= k < stop ==> path[k] != '.' && path[k] != '['
    requires stop < |path| ==> path[stop] == '.' || path[stop] == '['
    ensures FieldEnd(path, i) == stop
    decreases stop - i
  {
    if i < stop {
      FieldEndFinds(path, i + 1, stop);
    }
  }

  lemma {:induction false} IndexFromFinds(s: string, c: char, i: nat, at: nat)
    requires i <= at < |s| && s[at] == c && forall k :: i <= k < at ==> s[k] != c
    ensures IndexFrom(s, c, i) == Some(at)
    decreases at - i
  {
    if i < at {
      IndexFromFinds(s, c, i + 1, at);
    }
  }

  predicate StartsStep(tail: string) {
    tail != [] ==> tail[0] == '.' || tail[0] == '['
  }

  lemma NextOfField(before: string, name: string, after: string)
    requires Nameable(Field(name)) && StartsStep(after)
    ensures Next(before + Written(Field(name)) + after, |before|) == Stop(Field(name), |before| + 1 + |name|)
  {
    hide Atoi, IndexFrom;
    var path := before + "." + name + after;
    assert path == before + Written(Field(name)) + after;
    var i, stop := |before|, |before| + 1 + |name|;
    assert path[i] == '.' && path[i + 1..stop] == name;
    assert forall k :: i + 1 <= k < stop ==> path[k] == name[k - i - 1];
    assert stop < |path| ==> path[stop] == after[0];
    FieldEndFinds(path, i + 1, stop);
  }

  lemma NextOfIndex(before: string, n: nat, after: string)
    ensures Next(before + Written(Index(n)) + after, |before|) ==
            if n > MAX_INT then Malformed else Stop(Index(n), |before| + |Written(Index(n))|)
  {
    hide Atoi, Decimal;
    var digits := Decimal(n);
    var path := before + "[" + digits + "]" + after;
    assert path == before + Written(Index(n)) + after;
    var i, close := |before|, |before| + 1 + |digits|;
    assert path[i] == '[' && path[close] == ']' && path[i + 1..close] == digits;
    assert forall k :: i + 1 <= k < close ==> path[k] == digits[k - i - 1];
    IndexFromFinds(path, ']', i, close);
    AtoiOfDecimal(n);
  }

  /** Reading a written step back where nothing, or something that starts a step, follows. */
  lemma NextOfWritten(before: string, step: Step, after: string)
    requires Nameable(step) && StartsStep(after)
    ensures Next(before + Written(step) + after, |before|) ==
            if step.Index? && step.index > MAX_INT then Malformed
            else Stop(step, |before| + |Written(step)|)
  {
    match step
    case Field(name) => NextOfField(before, name, after);
    case Index(n) => NextOfIndex(before, n, after);
  }

  /** What follows a written step begins a step, or is nothing. */
  lemma WrittenStarts(steps: seq<Step>)
    ensures StartsStep(WrittenAll(steps))
  {
    hide Written;
  }

  lemma ScanOneStep(path: string, i: nat, v: Json, token: Token)
    requires i < |path| && token == Next(path, i)
    ensures Scan(path, i, v) ==
            if token.Malformed? then Missed(InvalidShape)
            else if Enter(v, token.step).Missed? then Enter(v, token.step)
            else Scan(path, token.next, Enter(v, token.step).value)
  {
    hide Next, Enter;
  }

  lemma NavigateOneStep(v: Json, steps: seq<Step>)
    requires steps != []
    ensures Navigate(v, steps) ==
            if Enter(v, steps[0]).Missed? then Enter(v, steps[0]) else Navigate(Enter(v, steps[0]).value, steps[1..])
  {
    hide Enter;
  }

  lemma WrittenInThree(before: string, steps: seq<Step>)
    requires steps != []
    ensures before + WrittenAll(steps) == before + Written(steps[0]) + WrittenAll(steps[1..])
    ensures |before| < |before + WrittenAll(steps)|
  {
    hide Written;
  }

  lemma ScanAtEnd(path: string, v: Json)
    ensures Scan(path, |path|, v) == Found(v) && Navigate(v, []) == Found(v)
  {
    hide Next, Enter;
  }

  lemma NothingWritten(before: string, steps: seq<Step>)
    requires steps == []
    ensures before + WrittenAll(steps) == before
  {}

  lemma {:induction false} ScanOfWritten(before: string, steps: seq<Step>, v: Json)
    requires forall i :: 0 <= i < |steps| ==> Nameable(steps[i])
    ensures Scan(before + WrittenAll(steps), |before|, v) == Navigate(v, steps)
    decreases |steps|
  {
    hide *;
    if steps == [] {
      ScanAtEnd(before, v);
      NothingWritten(before, steps);
    } else {
      var step, rest, path := steps[0], steps[1..], before + WrittenAll(steps);
      WrittenInThree(before, steps);
      WrittenStarts(rest);
      NextOfWritten(before, step, WrittenAll(rest));
      ScanOneStep(path, |before|, v, Next(path, |before|));
      NavigateOneStep(v, steps);
      LargeIndexIsRefused(v, step);
      if Enter(v, step).Found? {
        ScanOfWritten(before + Written(step), rest, Enter(v, step).value);
      }
    }
  }

  lemma LargeIndexIsRefused(v: Json, step: Step)
    ensures step.Index? && step.index > MAX_INT ==> Enter(v, step) == Missed(InvalidShape)
  {}

  /** The path language is complete: a written path selects exactly what navigation reaches. */
  lemma RenderedPathNavigates(v: Json, steps: seq<Step>)
    requires Renderable(steps)
    ensures Select(v, Render(steps)) == Navigate(v, steps)
  {
    RenderIsTrimmed(steps);
    ScanOfWritten("$", steps, v);
  }

  /** And it is sound: whatever any text selects, some list of steps reaches in the same way. */
  lemma SelectedPathIsNavigable(v: Json, path: string)
    ensures Select(v, path).Found? ==>
              exists steps :: Select(v, path) == Navigate(v, steps)
                              && forall w :: Select(w, path) == Navigate(w, steps)
  {
    if Select(v, path).Found? {
      var text := TrimSpace(path);
      ScanIsNavigation(text, 1, v);
      var steps := StepsOf(text, 1).value;
      forall w ensures Select(w, path) == Navigate(w, steps) {
        ScanIsNavigation(text, 1, w);
      }
    }
  }

  /** The steps a text denotes from position i on, up to the first that cannot be read. */
  function ReadableSteps(path: string, i: nat): seq<Step>
    requires i <= |path|
    decreases |path| - i
  {
    if i == |path| || Next(path, i).Malformed? then []
      else [Next(path, i).step] + ReadableSteps(path, Next(path, i).next)
  }

  /** Malformed text: navigation by the steps before the fault, and then the fault. */
  lemma {:induction false} MalformedScanFails(path: string, i: nat, v: Json)
    requires i <= |path| && StepsOf(path, i).None?
    ensures var reached := Navigate(v, ReadableSteps(path, i));
            Scan(path, i, v) == if reached.Missed? then reached else Missed(InvalidShape)
    decreases |path| - i
  {
    if i < |path| && Next(path, i).Stop? {
      var Stop(step, next) := Next(path, i);
      hide Next, Enter;
      assert ReadableSteps(path, i)[1..] == ReadableSteps(path, next);
      if Enter(v, step).Found? {
        MalformedScanFails(path, next, Enter(v, step).value);
      }
    } else {
      assert ReadableSteps(path, i) == [];
    }
  }

  /**
   Every text: one that does not start with `$` selects nothing from any value; any other is a list of
   steps to navigate by, and after them, if the text is malformed there, the error of that.
   */
  lemma EveryTextNavigates(path: string, v: Json)
    ensures var text := TrimSpace(path);
            if text == "" || text[0] != '$' then Select(v, path) == Missed(InvalidShape)
            else
              var reached := Navigate(v, ReadableSteps(text, 1));
              Select(v, path) == if reached.Found? && StepsOf(text, 1).None? then Missed(InvalidShape) else reached
  {
    var text := TrimSpace(path);
    if text != "" && text[0] == '$' {
      if StepsOf(text, 1).None? {
        MalformedScanFails(text, 1, v);
      } else {
        ScanIsNavigation(text, 1, v);
        AllStepsAreReadable(text, 1);
      }
    }
    hide TrimSpace, Next, Scan, Navigate, ReadableSteps, StepsOf;
  }

  lemma {:induction false} AllStepsAreReadable(path: string, i: nat)
    requires i <= |path| && StepsOf(path, i).Some?
    ensures ReadableSteps(path, i) == StepsOf(path, i).value
    decreases |path| - i
  {
    if i < |path| {
      AllStepsAreReadable(path, Next(path, i).next);
    }
    hide Next;
  }

  // ---------- Selecting in two stages ----------

  function Then(s: Selection, path: string): Selection {
    match s
    case Missed(e) => Missed(e)
    case Found(w) => Select(w, path)
  }

  /** What follows position |before| alone decides the scan from there. */
  lemma {:induction false} ScanIgnoresPast(before: string, other: string, tail: string, i: nat, v: Json)
    requires i <= |tail|
    ensures Scan(before + tail, |before| + i, v) == Scan(other + tail, |other| + i, v)
    decreases |tail| - i
  {
    hide Next;
    if i < |tail| {
      NextIgnoresPast(before, tail, i);
      NextIgnoresPast(other, tail, i);
      match Next(tail, i)
      case Malformed =>
      case Stop(step, next) =>
        if Enter(v, step).Found? {
          ScanIgnoresPast(before, other, tail, next, Enter(v, step).value);
        }
    }
  }

  lemma NextFieldIgnoresPast(before: string, tail: string, i: nat)
    requires i < |tail| && tail[i] == '.'
    ensures Next(before + tail, |before| + i) ==
            match Next(tail, i) case Malformed => Malformed case Stop(s, n) => Stop(s, |before| + n)
  {
    hide Atoi, IndexFrom;
    var path, b := before + tail, |before|;
    assert forall k :: b <= k < |path| ==> path[k] == tail[k - b];
    var stop := FieldEnd(tail, i + 1);
    FieldEndFinds(path, b + i + 1, b + stop);
    assert path[b + i + 1..b + stop] == tail[i + 1..stop];
    hide FieldEnd;
  }

  lemma NextIndexIgnoresPast(before: string, tail: string, i: nat)
    requires i < |tail| && tail[i] == '['
    ensures Next(before + tail, |before| + i) ==
            match Next(tail, i) case Malformed => Malformed case Stop(s, n) => Stop(s, |before| + n)
  {
    hide Atoi, FieldEnd;
    var path, b := before + tail, |before|;
    assert forall k :: b <= k < |path| ==> path[k] == tail[k - b];
    var found := IndexFrom(tail, ']', i);
    if found.None? {
      assert forall k :: b + i <= k < |path| ==> path[k] != ']';
    } else {
      var close := found.value;
      IndexFromFinds(path, ']', b + i, b + close);
      assert path[b + i + 1..b + close] == tail[i + 1..close];
    }
    hide IndexFrom;
  }

  lemma NextIgnoresPast(before: string, tail: string, i: nat)
    requires i < |tail|
    ensures Next(before + tail, |before| + i) ==
            match Next(tail, i) case Malformed => Malformed case Stop(s, n) => Stop(s, |before| + n)
  {
    assert (before + tail)[|before| + i] == tail[i];
    if tail[i] == '.' {
      NextFieldIgnoresPast(before, tail, i);
      hide Next;
    } else if tail[i] == '[' {
      NextIndexIgnoresPast(before, tail, i);
      hide Next;
    }
    hide FieldEnd, IndexFrom, Atoi;
  }

  /** A step that ends inside `head` is read alike with anything step-like appended. */
  lemma NextIgnoresFuture(head: string, tail: string, i: nat)
    requires i < |head|
    requires StartsStep(tail)
    ensures Next(head + tail, i) == Next(head, i)
  {
    hide Atoi;
    var path := head + tail;
    assert forall k :: 0 <= k < |head| ==> path[k] == head[k];
    if head[i] == '.' {
      NextFieldIgnoresFuture(head, tail, i);
    } else if head[i] == '[' {
      NextIndexIgnoresFuture(head, tail, i);
    }
  }

  lemma NextFieldIgnoresFuture(head: string, tail: string, i: nat)
    requires i < |head| && head[i] == '.' && StartsStep(tail)
    ensures Next(head + tail, i) == Next(head, i)
  {
    hide Atoi, IndexFrom;
    var path := head + tail;
    assert forall k :: 0 <= k < |head| ==> path[k] == head[k];
    var stop := FieldEnd(head, i + 1);
    assert stop < |path| ==> path[stop] == if stop < |head| then head[stop] else tail[0];
    FieldEndFinds(path, i + 1, stop);
    assert path[i + 1..stop] == head[i + 1..stop];
  }

  lemma NextIndexIgnoresFuture(head: string, tail: string, i: nat)
    requires i < |head| && head[i] == '[' && StartsStep(tail)
    ensures Next(head + tail, i) == Next(head, i)
  {
    hide Atoi, FieldEnd;
    var path := head + tail;
    assert forall k :: 0 <= k < |head| ==> path[k] == head[k];
    match IndexFrom(head, ']', i)
    case Some(close) =>
      IndexFromFinds(path, ']', i, close);
      assert path[i + 1..close] == head[i + 1..close];
    case None =>
      match IndexFrom(path, ']', i)
      case None =>
      case Some(close) =>
        // The bracket closes in the tail, so the index text runs over a '.' or a '['.
        var text := path[i + 1..close];
        var at := |head| - i - 1;
        assert text != [] ==> at < |text| && text[at] == tail[0];
        if text != [] {
          NotANumber(text, at);
        }
  }

  lemma NotANumber(text: string, at: nat)
    requires at < |text| && (text[at] == '.' || text[at] == '[')
    ensures Atoi(text).None?
  {
    if at > 0 {
      assert text[1..][at - 1] == text[at];
    }
  }

  lemma {:induction false} ScanSplits(head: string, tail: string, i: nat, v: Json)
    requires i <= |head|
    requires StartsStep(tail)
    ensures Scan(head + tail, i, v) ==
            match Scan(head, i, v) case Missed(e) => Missed(e) case Found(w) => Scan(head + tail, |head|, w)
    decreases |head| - i
  {
    if i < |head| {
      NextIgnoresFuture(head, tail, i);
      match Next(head, i)
      case Malformed =>
      case Stop(step, next) =>
        if Enter(v, step).Found? {
          ScanSplits(head, tail, next, Enter(v, step).value);
        }
    }
  }

  /** Selecting by a joined path is selecting twice, for every pair of texts and every error. */
  lemma SelectJoined(v: Json, head: string, tail: string)
    requires Trimmed(head) && Trimmed(tail)
    requires StartsStep(tail)
    ensures Select(v, head + tail) == Then(Select(v, head), "$" + tail)
  {
    hide Next, Scan, TrimSpace;
    TrimSpaceKeepsTrimmed(head);
    TrimSpaceKeepsTrimmed(head + tail);
    TrimSpaceKeepsTrimmed("$" + tail);
    if head != [] && head[0] == '$' {
      ScanSplits(head, tail, 1, v);
      if Scan(head, 1, v).Found? {
        ScanIgnoresPast(head, "$", tail, 0, Scan(head, 1, v).value);
      }
    } else {
      assert (head + tail) != [] ==> (head + tail)[0] != '$';
    }
  }

  // ---------- Redaction ----------

  function RedactSelection(r: Redactor, s: Selection): Selection {
    match s
    case Missed(e) => Missed(e)
    case Found(v) => Found(r.Redact(v))
  }

  /** No field the path names, as far as it is well formed, is a secret key. */
  predicate AvoidsSecrets(r: Redactor, path: string, i: nat)
    requires i <= |path|
    decreases |path| - i
  {
    i == |path| ||
    match Next(path, i)
    case Malformed => true
    case Stop(step, next) => (step.Field? ==> !r.secret(step.name)) && AvoidsSecrets(r, path, next)
  }

  lemma {:induction false} ScanOfRedacted(r: Redactor, path: string, i: nat, v: Json)
    requires i <= |path| && AvoidsSecrets(r, path, i)
    ensures Scan(path, i, r.Redact(v)) == RedactSelection(r, Scan(path, i, v))
    decreases |path| - i
  {
    if i < |path| && Next(path, i).Stop? {
      var Stop(step, next) := Next(path, i);
      assert Enter(r.Redact(v), step) == RedactSelection(r, Enter(v, step));
      if Enter(v, step).Found? {
        ScanOfRedacted(r, path, next, Enter(v, step).value);
      }
    }
  }

  /** Redacting first or selecting first is the same, down to which paths fail and how. */
  lemma RedactionCommutesWithSelection(r: Redactor, v: Json, path: string)
    requires TrimSpace(path) != [] ==> AvoidsSecrets(r, TrimSpace(path), 1)
    ensures Select(r.Redact(v), path) == RedactSelection(r, Select(v, path))
  {
    var text := TrimSpace(path);
    if text != [] && text[0] == '$' {
      ScanOfRedacted(r, text, 1, v);
    }
  }

  /** A path through a secret key reaches the marker and nothing below it. */
  lemma {:induction false} SecretStopsNavigation(r: Redactor, v: Json, before: seq<Step>, key: string, after: seq<Step>)
    requires forall i :: 0 <= i < |before| && before[i].Field? ==> !r.secret(before[i].name)
    requires r.secret(key)
    requires Navigate(v, before + [Field(key)]).Found?
    ensures Navigate(r.Redact(v), before + [Field(key)] + after) ==
            if after == [] then Found(MARKER)
            else if after[0].Index? && after[0].index > MAX_INT then Missed(InvalidShape)
            else Missed(ShapeNotFound)
    decreases |before|
  {
    var steps := before + [Field(key)] + after;
    if before == [] {
      assert steps[0] == Field(key) && steps[1..] == after;
      assert (before + [Field(key)])[0] == Field(key);
      assert Enter(r.Redact(v), Field(key)) == Found(MARKER);
    } else {
      assert (before + [Field(key)])[1..] == before[1..] + [Field(key)];
      assert steps[1..] == before[1..] + [Field(key)] + after;
      assert Enter(r.Redact(v), before[0]) == RedactSelection(r, Enter(v, before[0]));
      SecretStopsNavigation(r, Enter(v, before[0]).value, before[1..], key, after);
    }
  }

  lemma {:induction false} ScanKeepsClean(r: Redactor, path: string, i: nat, v: Json)
    requires i <= |path| && r.Clean(v)
    ensures Scan(path, i, v).Found? ==> r.Clean(Scan(path, i, v).value)
    decreases |path| - i
  {
    if i < |path| && Next(path, i).Stop? {
      var Stop(step, next) := Next(path, i);
      if Enter(v, step).Found? {
        ScanKeepsClean(r, path, next, Enter(v, step).value);
      }
    }
  }
}
