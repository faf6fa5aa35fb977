/**
 The parts of Go's strings, unicode and strconv packages that the bridge's text handling
 rests on. Strings are sequences of characters; every delimiter the bridge looks for is
 ASCII, so scanning characters and scanning UTF-8 bytes find the same positions.
 */
module Text {

  datatype Option<+T> = None | Some(value: T)

  const MAX_INT: int := 0x7FFF_FFFF_FFFF_FFFF
  const MIN_INT: int := -0x8000_0000_0000_0000

  predicate InInt(n: int) {
    MIN_INT <= n <= MAX_INT
  }

  /** Go's int. */
  type Int = n: int | MIN_INT <= n <= MAX_INT

  /** Go's int addition: the sum wraps around at 64 bits. */
  function WrapAdd(a: Int, b: Int): (r: Int)
    ensures InInt(a + b) ==> r == a + b
  {
    var sum := a + b;
    if sum > MAX_INT then sum - 0x1_0000_0000_0000_0000
    else if sum < MIN_INT then sum + 0x1_0000_0000_0000_0000
    else sum
  }

  /** unicode.IsSpace. */
  predicate IsSpace(c: char) {
    || c == ' ' || '\t' <= c <= '\r'
    || c == '\U{0085}' || c == '\U{00A0}' || c == '\U{1680}'
    || '\U{2000}' <= c <= '\U{200A}'
    || c == '\U{2028}' || c == '\U{2029}' || c == '\U{202F}' || c == '\U{205F}' || c == '\U{3000}'
  }

  /** The characters of Unicode's White_Space property. */
  const WHITE_SPACE: set<char> := {
    '\t', '\n', '\U{000B}', '\U{000C}', '\r', ' ', '\U{0085}', '\U{00A0}', '\U{1680}', '\U{2000}', '\U{2001}',
    '\U{2002}', '\U{2003}', '\U{2004}', '\U{2005}', '\U{2006}', '\U{2007}', '\U{2008}', '\U{2009}', '\U{200A}',
    '\U{2028}', '\U{2029}', '\U{202F}', '\U{205F}', '\U{3000}'}

  lemma SpacesAreThese(c: char)
    ensures IsSpace(c) <==> c in WHITE_SPACE
  {
    var n := c as int;
    assert 9 <= n <= 13 ==> n == 9 || n == 10 || n == 11 || n == 12 || n == 13;
  }

  function TrimLeft(s: string): (r: string)
    ensures r != [] ==> !IsSpace(r[0])
    ensures |r| <= |s| && r == s[|s| - |r|..]
  {
    if s != [] && IsSpace(s[0]) then TrimLeft(s[1..]) else s
  }

  function TrimRight(s: string): (r: string)
    ensures r != [] ==> !IsSpace(r[|r| - 1])
    ensures r <= s
  {
    if s != [] && IsSpace(s[|s| - 1]) then TrimRight(s[..|s| - 1]) else s
  }

  /** strings.TrimSpace. */
  function TrimSpace(s: string): (r: string)
    ensures r != [] ==> !IsSpace(r[0]) && !IsSpace(r[|r| - 1])
  {
    TrimRight(TrimLeft(s))
  }

  predicate Trimmed(s: string) {
    s != [] ==> !IsSpace(s[0]) && !IsSpace(s[|s| - 1])
  }

  lemma TrimSpaceKeepsTrimmed(s: string)
    requires Trimmed(s)
    ensures TrimSpace(s) == s
  {}

  lemma {:induction false} TrimLeftDropsSpace(s: string)
    ensures forall k :: 0 <= k < |s| - |TrimLeft(s)| ==> IsSpace(s[k])
  {
    hide IsSpace;
    if s != [] && IsSpace(s[0]) {
      TrimLeftDropsSpace(s[1..]);
      assert forall k :: 0 < k < |s| ==> s[k] == s[1..][k - 1];
    }
  }

  lemma {:induction false} TrimRightDropsSpace(s: string)
    ensures forall k :: |TrimRight(s)| <= k < |s| ==> IsSpace(s[k])
  {
    hide IsSpace;
    if s != [] && IsSpace(s[|s| - 1]) {
      TrimRightDropsSpace(s[..|s| - 1]);
    }
  }

  /** Trimming takes white space off both ends, and nothing else. */
  lemma TrimSpaceDropsSpace(s: string)
    ensures exists i: nat, j: nat :: i <= j <= |s| && TrimSpace(s) == s[i..j] && BlankOutside(s, i, j)
  {
    hide *;
    var left := TrimLeft(s);
    TrimInTwo(s);
    TrimLeftDropsSpace(s);
    TrimRightDropsSpace(left);
    EndsOff(s, |s| - |left|, left, TrimSpace(s));
  }

  ghost predicate BlankOutside(s: string, i: nat, j: nat) {
    forall k :: 0 <= k < |s| && (k < i || j <= k) ==> IsSpace(s[k])
  }

  lemma TrimInTwo(s: string)
    ensures TrimSpace(s) == TrimRight(TrimLeft(s)) && TrimSpace(s) <= TrimLeft(s)
    ensures |TrimLeft(s)| <= |s| && TrimLeft(s) == s[|s| - |TrimLeft(s)|..]
  {
    hide IsSpace, TrimLeft, TrimRight;
  }

  lemma EndsOff(s: string, i: nat, left: string, trimmed: string)
    requires i <= |s| && left == s[i..] && trimmed <= left
    requires forall k :: 0 <= k < i ==> IsSpace(s[k])
    requires forall k :: |trimmed| <= k < |left| ==> IsSpace(left[k])
    ensures trimmed == s[i..i + |trimmed|] && BlankOutside(s, i, i + |trimmed|)
  {
    hide IsSpace;
    assert forall k :: i <= k < |s| ==> s[k] == left[k - i];
  }

  predicate IsDigit(c: char) {
    '0' <= c <= '9'
  }

  predicate AllDigits(s: string) {
    forall i :: 0 <= i < |s| ==> IsDigit(s[i])
  }

  function DecimalValue(s: string): nat
    requires AllDigits(s)
  {
    if s == [] then 0 else DecimalValue(s[..|s| - 1]) * 10 + (s[|s| - 1] - '0') as nat
  }

  /** strconv.Atoi: an optional sign, then one or more decimal digits, within 64 bits. */
  function Atoi(s: string): (r: Option<int>)
    ensures r.Some? ==> InInt(r.value)
  {
    var digits := if s != [] && (s[0] == '+' || s[0] == '-') then s[1..] else s;
    if digits == [] || !AllDigits(digits) then None
    else
      var magnitude: int := DecimalValue(digits);
      var n := if s[0] == '-' then -magnitude else magnitude;
      if InInt(n) then Some(n) else None
  }

  /** The decimal numeral of a natural number. */
  function Decimal(n: nat): (s: string)
    ensures s != [] && AllDigits(s)
  {
    var last := ['0' + (n % 10) as char];
    if n < 10 then last else Decimal(n / 10) + last
  }

  lemma {:induction false} DecimalValueOfDecimal(n: nat)
    ensures DecimalValue(Decimal(n)) == n
  {
    var s := Decimal(n);
    if n >= 10 {
      DecimalValueOfDecimal(n / 10);
      assert s[..|s| - 1] == Decimal(n / 10);
    }
  }

  /** Atoi reads a numeral back, and rejects exactly the numbers beyond 64 bits. */
  lemma AtoiOfDecimal(n: nat)
    ensures Atoi(Decimal(n)) == if n <= MAX_INT then Some(n) else None
  {
    DecimalValueOfDecimal(n);
    assert IsDigit(Decimal(n)[0]);
  }

  lemma {:induction false} LeadingZeroAddsNothing(s: string)
    requires AllDigits(s)
    ensures AllDigits("0" + s) && DecimalValue("0" + s) == DecimalValue(s)
  {
    if s != "" {
      LeadingZeroAddsNothing(s[..|s| - 1]);
      assert ("0" + s)[..|s|] == "0" + s[..|s| - 1];
    } else {
      assert "0" + s == "0" && "0"[..0] == "";
    }
  }

  /** A sign is read as such, and a number that does not fit is refused. */
  lemma AtoiOfSigned(n: nat)
    ensures var m := -(n as int); Atoi("-" + Decimal(n)) == if m >= MIN_INT then Some(m) else None
    ensures Atoi("+" + Decimal(n)) == if n <= MAX_INT then Some(n) else None
  {
    DecimalValueOfDecimal(n);
    assert ("-" + Decimal(n))[1..] == Decimal(n) && ("+" + Decimal(n))[1..] == Decimal(n);
    hide DecimalValue, Decimal;
  }

  /** Anything but a sign and one or more digits is refused. */
  lemma AtoiTakesDigitsOnly(s: string)
    ensures Atoi(s).Some? ==>
              var digits := if s != [] && (s[0] == '+' || s[0] == '-') then s[1..] else s;
              digits != [] && AllDigits(digits)
  {}

  /** The first position of c at or after from, as strings.IndexByte on a suffix. */
  function IndexFrom(s: string, c: char, from: nat): (r: Option<nat>)
    requires from <= |s|
    ensures r.Some? ==> from <= r.value < |s| && s[r.value] == c
    ensures forall k :: from <= k < (if r.Some? then r.value else |s|) ==> s[k] != c
    decreases |s| - from
  {
    if from == |s| then None
    else if s[from] == c then Some(from)
    else IndexFrom(s, c, from + 1)
  }
}
