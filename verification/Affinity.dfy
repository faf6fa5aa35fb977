/**
 work/affinity.go: which task a conversation belongs to, by its first message. SHA-256 is taken to
 be injective, so the table is keyed by the normalized text itself. `lower` is unicode.ToLower.
 */
module Affinity {
  import opened Text

  const MAX_MESSAGE := 8_000

  // ---------- strings.Fields, strings.Join, strings.ToLower ----------

  predicate InWord(s: string) {
    s != "" && !IsSpace(s[|s| - 1])
  }

  /** strings.Fields: the words between runs of white space. */
  function Fields(s: string): (words: seq<string>)
    ensures InWord(s) ==> words != []
  {
    if s == "" then []
    else
      var n := |s| - 1;
      var words := Fields(s[..n]);
      if IsSpace(s[n]) then words
      else if InWord(s[..n]) then words[|words| - 1 := words[|words| - 1] + [s[n]]]
      else words + [[s[n]]]
  }

  /** strings.Join(words, " "). */
  function Join(words: seq<string>): string {
    if words == [] then ""
    else if |words| == 1 then words[0]
    else Join(words[..|words| - 1]) + " " + words[|words| - 1]
  }

  function Lower(lower: char -> char, s: string): string {
    seq(|s|, i requires 0 <= i < |s| => lower(s[i]))
  }

  function LowerAll(lower: char -> char, words: seq<string>): seq<string> {
    seq(|words|, i requires 0 <= i < |words| => Lower(lower, words[i]))
  }

  /** Lower-casing neither makes nor removes white space, and leaves the blank alone. */
  ghost predicate KeepsSpace(lower: char -> char) {
    lower(' ') == ' ' && forall c: char :: IsSpace(lower(c)) == IsSpace(c)
  }

  predicate IsWord(w: string) {
    w != "" && forall i :: 0 <= i < |w| ==> !IsSpace(w[i])
  }

  ghost predicate AreWords(words: seq<string>) {
    forall i :: 0 <= i < |words| ==> IsWord(words[i])
  }

  // ---------- Normalization ----------

  function Normalized(lower: char -> char, message: string): string {
    Lower(lower, Join(Fields(TrimSpace(message))))
  }

  /** What identifies a conversation: its lower-cased words. */
  function Words(lower: char -> char, message: string): seq<string> {
    LowerAll(lower, Fields(message))
  }

  /** ConversationFingerprint accepts the message. */
  predicate Acceptable(lower: char -> char, message: string) {
    Normalized(lower, message) != "" && |Normalized(lower, message)| <= MAX_MESSAGE
  }

  lemma {:induction false} FieldsAreWords(s: string)
    ensures AreWords(Fields(s))
  {
    hide IsSpace;
    if s != "" {
      FieldsAreWords(s[..|s| - 1]);
    }
  }

  lemma FieldsOneMore(s: string, c: char)
    ensures Fields(s + [c]) ==
            if IsSpace(c) then Fields(s)
            else if InWord(s) then Fields(s)[|Fields(s)| - 1 := Fields(s)[|Fields(s)| - 1] + [c]]
            else Fields(s) + [[c]]
  {
    hide IsSpace;
    assert (s + [c])[..|s|] == s;
  }

  lemma {:induction false} FieldsIgnoreLeadingSpace(c: char, s: string)
    requires IsSpace(c)
    ensures Fields([c] + s) == Fields(s)
    ensures InWord([c] + s) == InWord(s)
    decreases |s|
  {
    hide IsSpace;
    if s == "" {
      assert [c] + s == "" + [c];
      FieldsOneMore("", c);
    } else {
      var n := |s| - 1;
      FieldsIgnoreLeadingSpace(c, s[..n]);
      assert [c] + s == ([c] + s[..n]) + [s[n]] && s == s[..n] + [s[n]];
      FieldsOneMore([c] + s[..n], s[n]);
      FieldsOneMore(s[..n], s[n]);
    }
  }

  lemma {:induction false} FieldsOfTrimLeft(s: string)
    ensures Fields(TrimLeft(s)) == Fields(s)
  {
    hide IsSpace, Fields;
    if s != "" && IsSpace(s[0]) {
      FieldsOfTrimLeft(s[1..]);
      assert s == [s[0]] + s[1..];
      FieldsIgnoreLeadingSpace(s[0], s[1..]);
    }
  }

  lemma {:induction false} FieldsOfTrimRight(s: string)
    ensures Fields(TrimRight(s)) == Fields(s)
  {
    hide IsSpace;
    if s != "" && IsSpace(s[|s| - 1]) {
      FieldsOfTrimRight(s[..|s| - 1]);
    }
  }

  lemma BlankEndsWord(s: string)
    ensures Fields(s + " ") == Fields(s) && !InWord(s + " ")
  {
    FieldsOneMore(s, ' ');
    hide Fields;
  }

  lemma WordHasNoSpace(w: string, i: nat)
    requires IsWord(w) && i < |w|
    ensures !IsSpace(w[i])
  {
    hide IsSpace;
  }

  lemma ExtendLast(words: seq<string>, w: string, c: char)
    ensures (words + [w])[|words| := w + [c]] == words + [w + [c]]
  {}

  /** After something that does not end in a word, a word is a word of its own. */
  lemma {:induction false} FieldsOfAppendedWord(before: string, w: string, n: nat)
    requires IsWord(w) && 0 < n <= |w| && !InWord(before)
    ensures InWord(before + w[..n]) && Fields(before + w[..n]) == Fields(before) + [w[..n]]
  {
    var shorter, c := before + w[..n - 1], w[n - 1];
    WordHasNoSpace(w, n - 1);
    assert before + w[..n] == shorter + [c] && w[..n] == w[..n - 1] + [c];
    FieldsOneMore(shorter, c);
    hide IsSpace, Fields;
    if n == 1 {
      assert shorter == before;
    } else {
      FieldsOfAppendedWord(before, w, n - 1);
      ExtendLast(Fields(before), w[..n - 1], c);
    }
  }

  /** Splitting undoes joining. */
  lemma {:induction false} FieldsOfJoin(words: seq<string>)
    requires AreWords(words)
    ensures Fields(Join(words)) == words
  {
    if words == [] {
      hide IsSpace;
    } else {
      var n := |words| - 1;
      var w := words[n];
      assert IsWord(w) && words == words[..n] + [w] by { hide IsSpace; }
      assert n > 0 ==> AreWords(words[..n]) by { hide IsWord; }
      hide IsSpace, IsWord, Fields, InWord, AreWords;
      if n == 0 {
        FieldsOfFirstWord(w);
      } else {
        FieldsOfJoin(words[..n]);
        FieldsOfNextWord(Join(words[..n]), w);
      }
    }
  }

  lemma FieldsOfFirstWord(w: string)
    requires IsWord(w)
    ensures Fields(w) == [w]
  {
    hide IsSpace;
    assert w[..|w|] == w && "" + w == w;
    FieldsOfAppendedWord("", w, |w|);
  }

  lemma FieldsOfNextWord(before: string, w: string)
    requires IsWord(w)
    ensures Fields(before + " " + w) == Fields(before) + [w]
  {
    assert |w| > 0 && w[..|w|] == w;
    hide IsSpace, Fields, InWord, IsWord;
    BlankEndsWord(before);
    FieldsOfAppendedWord(before + " ", w, |w|);
  }

  lemma LowerOfConcat(lower: char -> char, a: string, b: string)
    ensures Lower(lower, a + b) == Lower(lower, a) + Lower(lower, b)
  {}

  lemma {:induction false} LowerOfJoin(lower: char -> char, words: seq<string>)
    requires KeepsSpace(lower)
    ensures Lower(lower, Join(words)) == Join(LowerAll(lower, words))
  {
    hide IsSpace;
    var n := |words| - 1;
    if n > 0 {
      LowerOfJoin(lower, words[..n]);
      LowerOfConcat(lower, Join(words[..n]) + " ", words[n]);
      LowerOfConcat(lower, Join(words[..n]), " ");
      assert Lower(lower, " ") == " ";
      assert LowerAll(lower, words)[..n] == LowerAll(lower, words[..n]);
    }
  }

  lemma LowerKeepsWords(lower: char -> char, words: seq<string>)
    requires KeepsSpace(lower) && AreWords(words)
    ensures AreWords(LowerAll(lower, words))
  {
    hide IsSpace;
    forall i | 0 <= i < |words| ensures IsWord(LowerAll(lower, words)[i]) {
      assert IsWord(words[i]);
    }
  }

  lemma NormalizedIsJoinedWords(lower: char -> char, message: string)
    requires KeepsSpace(lower)
    ensures AreWords(Words(lower, message)) && Normalized(lower, message) == Join(Words(lower, message))
  {
    hide KeepsSpace, AreWords;
    FieldsOfTrimLeft(message);
    FieldsOfTrimRight(TrimLeft(message));
    FieldsAreWords(message);
    hide Fields, TrimLeft, TrimRight, Join;
    LowerOfJoin(lower, Fields(message));
    LowerKeepsWords(lower, Fields(message));
  }

  /** Two messages have the same fingerprint exactly when they have the same lower-cased words. */
  lemma SameFingerprintMeansSameWords(lower: char -> char, a: string, b: string)
    requires KeepsSpace(lower)
    ensures Normalized(lower, a) == Normalized(lower, b) <==> Words(lower, a) == Words(lower, b)
  {
    hide KeepsSpace, AreWords, Normalized, Words, Join, Fields;
    NormalizedIsJoinedWords(lower, a);
    NormalizedIsJoinedWords(lower, b);
    FieldsOfJoin(Words(lower, a));
    FieldsOfJoin(Words(lower, b));
  }

  /** White space separates: a text with white space in it has the words before it and those after it. */
  lemma {:induction false} FieldsInTwo(a: string, c: char, b: string)
    requires IsSpace(c)
    ensures Fields(a + [c] + b) == Fields(a) + Fields(b)
    ensures InWord(a + [c] + b) == InWord(b)
    decreases |b|
  {
    hide IsSpace;
    if b == "" {
      assert a + [c] + b == a + [c];
      FieldsOneMore(a, c);
    } else {
      var n := |b| - 1;
      FieldsInTwo(a, c, b[..n]);
      var shorter := a + [c] + b[..n];
      assert a + [c] + b == shorter + [b[n]] && b == b[..n] + [b[n]];
      FieldsOneMore(shorter, b[n]);
      FieldsOneMore(b[..n], b[n]);
      assert InWord(shorter + [b[n]]) == !IsSpace(b[n]) == InWord(b);
      hide Fields, InWord;
      if InWord(b[..n]) {
        InLast(Fields(a), Fields(b[..n]), b[n]);
      }
    }
  }

  lemma InLast(a: seq<string>, b: seq<string>, c: char)
    requires b != []
    ensures (a + b)[|a + b| - 1 := (a + b)[|a + b| - 1] + [c]] == a + b[|b| - 1 := b[|b| - 1] + [c]]
  {}

  /** A text without white space is one word, or none when it is empty. */
  lemma FieldsOfUnbroken(w: string)
    requires forall i :: 0 <= i < |w| ==> !IsSpace(w[i])
    ensures Fields(w) == if w == "" then [] else [w]
  {
    if w != "" {
      FieldsOfFirstWord(w);
    }
    hide IsSpace;
  }

  /** The texts are the same but for upper and lower case. */
  predicate SameButCase(lower: char -> char, a: string, b: string) {
    |a| == |b| && forall i :: 0 <= i < |a| ==> lower(a[i]) == lower(b[i])
  }

  /** Two messages have the same fingerprint exactly when they have the same words but for case, one by one. */
  lemma FingerprintIgnoresCaseAndSpace(lower: char -> char, a: string, b: string)
    requires KeepsSpace(lower)
    ensures Normalized(lower, a) == Normalized(lower, b) <==>
            && |Fields(a)| == |Fields(b)|
            && forall i :: 0 <= i < |Fields(a)| ==> SameButCase(lower, Fields(a)[i], Fields(b)[i])
  {
    SameFingerprintMeansSameWords(lower, a, b);
    hide KeepsSpace, Normalized, Fields;
    var wa, wb := Words(lower, a), Words(lower, b);
    if wa == wb {
      forall i | 0 <= i < |Fields(a)| ensures SameButCase(lower, Fields(a)[i], Fields(b)[i]) {
        assert |wa| == |wb| && wa[i] == wb[i];
        LoweredAlike(lower, Fields(a)[i], Fields(b)[i]);
      }
    }
    if |Fields(a)| == |Fields(b)| && forall i :: 0 <= i < |Fields(a)| ==>
      SameButCase(lower, Fields(a)[i], Fields(b)[i]) {
      forall i | 0 <= i < |wa| ensures wa[i] == wb[i] {
        LoweredAlike(lower, Fields(a)[i], Fields(b)[i]);
      }
    }
  }

  lemma LoweredAlike(lower: char -> char, a: string, b: string)
    ensures Lower(lower, a) == Lower(lower, b) <==> SameButCase(lower, a, b)
  {
    if Lower(lower, a) == Lower(lower, b) {
      forall i | 0 <= i < |a| ensures lower(a[i]) == lower(b[i]) {
        assert Lower(lower, a)[i] == Lower(lower, b)[i];
      }
    }
  }

  // ---------- Histories ----------

  datatype Fault = InvalidWorkInput | WorkNotFound

  datatype Answer = Bound(task: nat) | Unmatched | Removed(any: bool) | Refused(fault: Fault)

  datatype Op = NewTask | Bind(message: string, task: nat) | Unbind(message: string)

  /** The conversation_affinity table, and how many tasks there are. */
  datatype Table = Table(tasks: nat, bindings: map<string, nat>)

  function BindIn(lower: char -> char, t: Table, message: string, task: nat): (Table, Answer) {
    if !Acceptable(lower, message) then (t, Refused(InvalidWorkInput))
    else if task >= t.tasks then (t, Refused(WorkNotFound))
    else (t.(bindings := t.bindings[Normalized(lower, message) := task]), Bound(task))
  }

  function UnbindIn(lower: char -> char, t: Table, message: string): (Table, Answer) {
    if !Acceptable(lower, message) then (t, Refused(InvalidWorkInput))
    else
      var key := Normalized(lower, message);
      (t.(bindings := t.bindings - {key}), Removed(key in t.bindings))
  }

  /** The lookup joins the task, which is always there. */
  function ResolveIn(lower: char -> char, t: Table, message: string): Answer {
    if !Acceptable(lower, message) then Refused(InvalidWorkInput)
    else
      var key := Normalized(lower, message);
      if key in t.bindings && t.bindings[key] < t.tasks then Bound(t.bindings[key]) else Unmatched
  }

  function After(lower: char -> char, ops: seq<Op>): (t: Table)
    ensures forall key :: key in t.bindings ==> t.bindings[key] < t.tasks
  {
    hide Normalized, Acceptable;
    if ops == [] then Table(0, map[])
    else
      var n := |ops| - 1;
      var t := After(lower, ops[..n]);
      match ops[n]
      case NewTask => t.(tasks := t.tasks + 1)
      case Bind(message, task) => BindIn(lower, t, message, task).0
      case Unbind(message) => UnbindIn(lower, t, message).0
  }

  /** Operation n takes effect on conversations with these words. */
  predicate Touches(lower: char -> char, ops: seq<Op>, n: nat, words: seq<string>)
    requires n < |ops|
  {
    match ops[n]
    case NewTask => false
    case Bind(message, task) =>
      Acceptable(lower, message) && Words(lower, message) == words && task < After(lower, ops[..n]).tasks
    case Unbind(message) => Acceptable(lower, message) && Words(lower, message) == words
  }

  /** The task of the latest bind of a conversation with these words, unless it was unbound since. */
  function LatestBinding(lower: char -> char, ops: seq<Op>, words: seq<string>): Option<nat> {
    if ops == [] then None
    else
      var n := |ops| - 1;
      if !Touches(lower, ops, n, words) then LatestBinding(lower, ops[..n], words)
      else if ops[n].Bind? then Some(ops[n].task) else None
  }

  lemma {:induction false} BindingIsTheLatest(lower: char -> char, ops: seq<Op>, message: string)
    requires KeepsSpace(lower)
    ensures var t, key := After(lower, ops), Normalized(lower, message);
            LatestBinding(lower, ops, Words(lower, message)) ==
            if key in t.bindings then Some(t.bindings[key]) else None
    decreases |ops|
  {
    hide KeepsSpace, Normalized, Words;
    if ops != [] {
      var n := |ops| - 1;
      BindingIsTheLatest(lower, ops[..n], message);
      if !ops[n].NewTask? {
        SameFingerprintMeansSameWords(lower, ops[n].message, message);
      }
    }
  }

  /**
   Affinity is a map over word sequences: after any history, a message that can be resolved gets
   the task of the latest bind, with no unbind since, among the messages with the same lower-cased
   words, whatever happened to other conversations.
   */
  lemma ResolveFindsTheLatestBind(lower: char -> char, ops: seq<Op>, message: string)
    requires KeepsSpace(lower) && Acceptable(lower, message)
    ensures ResolveIn(lower, After(lower, ops), message) ==
            match LatestBinding(lower, ops, Words(lower, message))
            case Some(task) => Bound(task)
            case None => Unmatched
  {
    BindingIsTheLatest(lower, ops, message);
    hide KeepsSpace, Normalized, Words, LatestBinding, Acceptable;
  }

  /** The length of the words with one blank between each two. */
  function JoinedLength(words: seq<string>): nat {
    if words == [] then 0
    else if |words| == 1 then |words[0]|
    else JoinedLength(words[..|words| - 1]) + 1 + |words[|words| - 1]|
  }

  lemma {:induction false} JoinHasLength(words: seq<string>)
    ensures |Join(words)| == JoinedLength(words)
  {
    if |words| > 1 {
      JoinHasLength(words[..|words| - 1]);
    }
  }

  /**
   What bind and unbind answer: the first reason that applies, or else the task bound, or whether there was
   a binding to remove.
   */
  lemma BindAndUnbindAnswer(lower: char -> char, ops: seq<Op>, message: string, task: nat)
    requires KeepsSpace(lower)
    ensures var t := After(lower, ops);
            && BindIn(lower, t, message, task).1 ==
               (if !Acceptable(lower, message) then Refused(InvalidWorkInput)
                else if task >= t.tasks then Refused(WorkNotFound)
                else Bound(task))
            && UnbindIn(lower, t, message).1 ==
               (if !Acceptable(lower, message) then Refused(InvalidWorkInput)
                else Removed(LatestBinding(lower, ops, Words(lower, message)).Some?))
  {
    BindingIsTheLatest(lower, ops, message);
    hide KeepsSpace, Normalized, Words, LatestBinding, Acceptable, After;
  }

  /** A message is refused exactly when it has no words or its words, joined, are too long. */
  lemma AcceptableMeansWords(lower: char -> char, message: string)
    requires KeepsSpace(lower)
    ensures Acceptable(lower, message) <==>
            Fields(message) != [] && JoinedLength(Fields(message)) <= 8_000
  {
    hide IsSpace;
    JoinHasLength(Fields(message));
    NormalizedIsJoinedWords(lower, message);
    FieldsAreWords(message);
    LowerOfJoin(lower, Fields(message));
    hide Fields, TrimSpace;
    var words := Fields(message);
    if words != [] {
      assert IsWord(words[|words| - 1]);
    }
  }

  // ---------- The code ----------

  class Runtime {
    const lower: char -> char
    var tasks: nat
    var bindings: map<string, nat>

    constructor (lower: char -> char)
      ensures this.lower == lower && Rows() == Table(0, map[])
    {
      this.lower := lower;
      tasks, bindings := 0, map[];
    }

    function Rows(): Table
      reads this
    {
      Table(tasks, bindings)
    }

    method ConversationFingerprint(message: string) returns (key: Option<string>)
      ensures key == if Acceptable(lower, message) then Some(Normalized(lower, message)) else None
    {
      var normalized := Lower(lower, Join(Fields(TrimSpace(message))));
      if normalized == "" || |normalized| > MAX_MESSAGE {
        return None;
      }
      return Some(normalized);
    }

    method AffinityBind(message: string, task: nat) returns (r: Answer)
      modifies this`bindings
      ensures (Rows(), r) == BindIn(lower, old(Rows()), message, task)
    {
      hide Normalized, Acceptable;
      var key := ConversationFingerprint(message);
      if key.None? {
        return Refused(InvalidWorkInput);
      }
      if task >= tasks {
        return Refused(WorkNotFound);
      }
      bindings := bindings[key.value := task];
      return Bound(task);
    }

    method AffinityResolve(message: string) returns (r: Answer)
      ensures r == ResolveIn(lower, Rows(), message)
    {
      hide Normalized, Acceptable;
      var key := ConversationFingerprint(message);
      if key.None? {
        return Refused(InvalidWorkInput);
      }
      if key.value in bindings && bindings[key.value] < tasks {
        return Bound(bindings[key.value]);
      }
      return Unmatched;
    }

    method AffinityUnbind(message: string) returns (r: Answer)
      modifies this`bindings
      ensures (Rows(), r) == UnbindIn(lower, old(Rows()), message)
    {
      hide Normalized, Acceptable;
      var key := ConversationFingerprint(message);
      if key.None? {
        return Refused(InvalidWorkInput);
      }
      r := Removed(key.value in bindings);
      bindings := bindings - {key.value};
    }
  }
}
