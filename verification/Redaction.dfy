/**
 core/redaction.go: removing credentials from a result before it is shown or stored.
 The two regular expressions are parameters: `text` rewrites a string and `secret` says
 whether an object key names a credential. Nothing is assumed about either.
 */
module Redaction {
  import opened Json

  datatype Redactor = Redactor(text: string -> string, secret: string -> bool) {

    /** RedactValue. */
    function Redact(v: Json): Json {
      match v
      case Str(s) => Str(text(s))
      case Arr(items) => Arr(seq(|items|, i requires 0 <= i < |items| => Redact(items[i])))
      case Obj(fields) => Obj(map k | k in fields :: if secret(k) then MARKER else Redact(fields[k]))
      case _ => v
    }

    /** At no depth does a secret key hold anything but the marker, and every other text is rewritten text. */
    ghost predicate Clean(v: Json) {
      match v
      case Str(s) => v == Str("[REDACTED]") || Rewritten(s)
      case Arr(items) => forall i :: 0 <= i < |items| ==> Clean(items[i])
      case Obj(fields) =>
        forall k :: k in fields ==> if secret(k) then fields[k] == Str("[REDACTED]") else Clean(fields[k])
      case _ => true
    }

    /** The text is what `text` makes of some text. */
    ghost predicate Rewritten(s: string) {
      exists t :: text(t) == s
    }

    /** The two values have the same shape: equal key sets and list lengths outside secrets. */
    ghost predicate SameShape(v: Json, w: Json) {
      match v
      case Str(_) => w.Str?
      case Arr(items) =>
        w.Arr? && |w.items| == |items| && forall i :: 0 <= i < |items| ==> SameShape(items[i], w.items[i])
      case Obj(fields) =>
        && w.Obj? && w.fields.Keys == fields.Keys
        && forall k :: k in fields && !secret(k) ==> SameShape(fields[k], w.fields[k])
      case _ => v == w
    }

    /** The two values differ only under secret keys and inside what `text` rewrites. */
    ghost predicate Agree(v: Json, w: Json) {
      match v
      case Str(s) => w.Str? && text(s) == text(w.text)
      case Arr(items) =>
        w.Arr? && |w.items| == |items| && forall i :: 0 <= i < |items| ==> Agree(items[i], w.items[i])
      case Obj(fields) =>
        && w.Obj? && w.fields.Keys == fields.Keys
        && forall k :: k in fields && !secret(k) ==> Agree(fields[k], w.fields[k])
      case _ => v == w
    }
  }

  const MARKER: Json := Str("[REDACTED]")

  lemma {:induction false} RedactLeavesNoSecret(r: Redactor, v: Json)
    ensures r.Clean(r.Redact(v))
  {
    match v
    case Arr(items) =>
      forall i | 0 <= i < |items| ensures r.Clean(r.Redact(v).items[i]) { RedactLeavesNoSecret(r, items[i]); }
    case Obj(fields) =>
      forall k | k in fields && !r.secret(k) ensures r.Clean(r.Redact(v).fields[k]) {
        RedactLeavesNoSecret(r, fields[k]);
      }
    case _ =>
  }

  lemma {:induction false} RedactKeepsShape(r: Redactor, v: Json)
    ensures r.SameShape(v, r.Redact(v))
  {
    match v
    case Arr(items) =>
      forall i | 0 <= i < |items| ensures r.SameShape(items[i], r.Redact(v).items[i]) {
        RedactKeepsShape(r, items[i]);
      }
    case Obj(fields) =>
      forall k | k in fields && !r.secret(k) ensures r.SameShape(fields[k], r.Redact(v).fields[k]) {
        RedactKeepsShape(r, fields[k]);
      }
    case _ =>
  }

  /** Redaction forgets exactly what Agree ignores, and nothing else. */
  lemma {:induction false} RedactForgetsExactly(r: Redactor, v: Json, w: Json)
    ensures r.Redact(v) == r.Redact(w) <==> r.Agree(v, w)
  {
    match v
    case Arr(items) =>
      if w.Arr? && |w.items| == |items| {
        forall i | 0 <= i < |items|
          ensures r.Redact(items[i]) == r.Redact(w.items[i]) <==> r.Agree(items[i], w.items[i])
        {
          RedactForgetsExactly(r, items[i], w.items[i]);
        }
        if r.Redact(v) == r.Redact(w) {
          forall i | 0 <= i < |items| ensures r.Agree(items[i], w.items[i]) {
            assert r.Redact(v).items[i] == r.Redact(w).items[i];
          }
        }
      } else {
        assert w.Arr? ==> |r.Redact(w).items| == |w.items|;
        assert |r.Redact(v).items| == |items|;
      }
    case Obj(fields) =>
      if w.Obj? && w.fields.Keys == fields.Keys {
        forall k | k in fields && !r.secret(k)
          ensures r.Redact(fields[k]) == r.Redact(w.fields[k]) <==> r.Agree(fields[k], w.fields[k])
        {
          RedactForgetsExactly(r, fields[k], w.fields[k]);
        }
        if r.Redact(v) == r.Redact(w) {
          forall k | k in fields && !r.secret(k) ensures r.Agree(fields[k], w.fields[k]) {
            assert r.Redact(v).fields[k] == r.Redact(w).fields[k];
          }
        }
      } else {
        assert w.Obj? ==> r.Redact(w).fields.Keys == w.fields.Keys;
        assert r.Redact(v).fields.Keys == fields.Keys;
      }
    case _ =>
  }

  /** A result is redacted again when it is stored: harmless if rewriting text twice is. */
  lemma {:induction false} RedactTwice(r: Redactor, v: Json)
    requires forall s :: r.text(r.text(s)) == r.text(s)
    ensures r.Redact(r.Redact(v)) == r.Redact(v)
  {
    match v
    case Arr(items) =>
      forall i | 0 <= i < |items| ensures r.Redact(r.Redact(items[i])) == r.Redact(items[i]) {
        RedactTwice(r, items[i]);
      }
      assert r.Redact(r.Redact(v)).items == r.Redact(v).items;
    case Obj(fields) =>
      forall k | k in fields && !r.secret(k) ensures r.Redact(r.Redact(fields[k])) == r.Redact(fields[k]) {
        RedactTwice(r, fields[k]);
      }
      assert r.Redact(r.Redact(v)).fields == r.Redact(v).fields;
    case _ =>
  }

  ghost predicate TextTwice(r: Redactor) {
    forall s :: r.text(r.text(s)) == r.text(s)
  }

  ghost predicate ValueTwice(r: Redactor) {
    forall v :: r.Redact(r.Redact(v)) == r.Redact(v)
  }

  /** And only if: redacting any value twice is redacting it once exactly when that holds of every text. */
  lemma RedactTwiceExactly(r: Redactor)
    ensures ValueTwice(r) <==> TextTwice(r)
  {
    if TextTwice(r) {
      forall v ensures r.Redact(r.Redact(v)) == r.Redact(v) {
        RedactTwice(r, v);
      }
    }
    if ValueTwice(r) {
      forall s ensures r.text(r.text(s)) == r.text(s) {
        assert r.Redact(r.Redact(Str(s))) == r.Redact(Str(s));
      }
    }
  }
}
