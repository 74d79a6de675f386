/** The few pieces of Python's text behaviour the core relies on: `str()` of
    integers and of simple values, `str.strip`, `' '.join`, and the way the
    REST framework's `CharField` cleans submitted text. */
module PyText {
  import opened Wrappers

  function DigitChar(d: nat): (c: char)
    requires d < 10
    ensures '0' <= c <= '9'
  {
    (48 + d) as char
  }

  /** `str(n)` for a non-negative integer. */
  function NatToDecimal(n: nat): (s: string)
    ensures 1 <= |s|
    ensures forall i :: 0 <= i < |s| ==> '0' <= s[i] <= '9'
    decreases n
  {
    if n < 10 then [DigitChar(n)] else NatToDecimal(n / 10) + [DigitChar(n % 10)]
  }

  /** `int(s)` for a string of decimal digits. */
  function DecimalValue(s: string): int {
    if |s| == 0 then 0 else DecimalValue(s[..|s| - 1]) * 10 + (s[|s| - 1] as int - 48)
  }

  /** Reading back the digits `str(n)` prints gives `n`. */
  lemma {:induction false} DecimalRoundTrip(n: nat)
    ensures DecimalValue(NatToDecimal(n)) == n
    decreases n
  {
    if n >= 10 {
      var s := NatToDecimal(n);
      assert s[..|s| - 1] == NatToDecimal(n / 10);
      DecimalRoundTrip(n / 10);
    }
  }

  predicate AllDigits(s: string) {
    forall i :: 0 <= i < |s| ==> '0' <= s[i] <= '9'
  }

  /** A string of digits reads as a non-negative number. */
  lemma {:induction false} DigitsValueNonNegative(s: string)
    requires AllDigits(s)
    ensures DecimalValue(s) >= 0
  {
    if |s| > 0 {
      DigitsValueNonNegative(s[..|s| - 1]);
    }
  }

  function Pow10(k: nat): nat {
    if k == 0 then 1 else 10 * Pow10(k - 1)
  }

  /** A number with exactly k digits prints as k characters. */
  lemma {:induction false} DecimalLength(n: nat, k: nat)
    requires 1 <= k && Pow10(k - 1) <= n < Pow10(k)
    ensures |NatToDecimal(n)| == k
    decreases k
  {
    if k > 1 {
      assert Pow10(k - 1) == 10 * Pow10(k - 2);
      assert Pow10(k) == 10 * Pow10(k - 1);
      assert Pow10(k - 2) <= n / 10 < Pow10(k - 1);
      DecimalLength(n / 10, k - 1);
    }
  }

  /** `str(i)` for any integer. */
  function IntToDecimal(i: int): string {
    if i < 0 then "-" + NatToDecimal(-i) else NatToDecimal(i)
  }

  /** A Python value as it can reach the registration view from a request body. */
  datatype PyValue =
    | PyStr(s: string)
    | PyInt(i: int)
    | PyBool(b: bool)
    | PyNone
    | PyList(items: seq<PyValue>)

  /** `repr(v)`. Strings are quoted with single quotes; the quote choice and
      escaping Python applies to strings containing quotes or backslashes are
      not modelled. */
  function Repr(v: PyValue): string
    decreases v, 1
  {
    match v
    case PyStr(s) => "'" + s + "'"
    case PyInt(i) => IntToDecimal(i)
    case PyBool(b) => if b then "True" else "False"
    case PyNone => "None"
    case PyList(items) => "[" + ReprJoin(items) + "]"
  }

  /** `', '.join(repr(x) for x in items)`. */
  function ReprJoin(items: seq<PyValue>): string
    decreases items, 0
  {
    if |items| == 0 then ""
    else if |items| == 1 then Repr(items[0])
    else Repr(items[0]) + ", " + ReprJoin(items[1..])
  }

  /** `str(v)`: a string is itself, anything else prints as its repr. */
  function Str(v: PyValue): string {
    if v.PyStr? then v.s else Repr(v)
  }

  /** How many leading characters of `s` belong to `cs`. */
  function LeadingIn(s: string, cs: set<char>): (k: nat)
    ensures k <= |s|
    ensures forall i :: 0 <= i < k ==> s[i] in cs
    ensures k < |s| ==> s[k] !in cs
  {
    if |s| > 0 && s[0] in cs then 1 + LeadingIn(s[1..], cs) else 0
  }

  /** How many trailing characters of `s` belong to `cs`. */
  function TrailingIn(s: string, cs: set<char>): (k: nat)
    ensures k <= |s|
    ensures forall i :: |s| - k <= i < |s| ==> s[i] in cs
    ensures k < |s| ==> s[|s| - 1 - k] !in cs
  {
    if |s| > 0 && s[|s| - 1] in cs then 1 + TrailingIn(s[..|s| - 1], cs) else 0
  }

  /** `s.lstrip(cs)`. */
  function StripLeft(s: string, cs: set<char>): string {
    s[LeadingIn(s, cs)..]
  }

  /** `s.rstrip(cs)`. */
  function StripRight(s: string, cs: set<char>): string {
    s[..|s| - TrailingIn(s, cs)]
  }

  /** `s.strip(cs)`. */
  function Strip(s: string, cs: set<char>): string {
    StripRight(StripLeft(s, cs), cs)
  }

  /** The characters `str.strip()` removes when called without arguments
      (the ASCII ones; other Unicode white space is not modelled). */
  const Whitespace: set<char> := {' ', '\t', '\n', '\r', 11 as char, 12 as char}

  /** What is left after stripping neither starts nor ends with a stripped
      character. */
  lemma StripEnds(s: string, cs: set<char>)
    ensures var t := Strip(s, cs);
            |t| > 0 ==> t[0] !in cs && t[|t| - 1] !in cs
  {
    var k := LeadingIn(s, cs);
    var l := StripLeft(s, cs);
    var m := TrailingIn(l, cs);
    if |Strip(s, cs)| > 0 {
      assert l == s[k..] && l[0] == s[k];
      assert Strip(s, cs) == l[..|l| - m];
    }
  }

  /** A `CharField` with the framework's defaults (white space trimmed,
      blank refused): the value kept is the stripped text; a text that is
      empty once stripped, or that holds a NUL character, is refused (None,
      answered with 400). */
  function CleanCharField(raw: string): (r: Option<string>)
    ensures r.None? <==> Strip(raw, Whitespace) == "" || '\0' in Strip(raw, Whitespace)
    ensures r.Some? ==> r.value == Strip(raw, Whitespace) && '\0' !in r.value
    // what is kept is never blank and carries no surrounding white space
    ensures r.Some? ==> |r.value| > 0 && r.value[0] !in Whitespace && r.value[|r.value| - 1] !in Whitespace
  {
    var t := Strip(raw, Whitespace);
    StripEnds(raw, Whitespace);
    if t == "" || '\0' in t then None else Some(t)
  }

  /** `sub in s` for two strings: `sub` occurs somewhere in `s`. */
  predicate Contains(s: string, sub: string)
    decreases |s|
  {
    sub <= s || (|s| > 0 && Contains(s[1..], sub))
  }

  /** `sep.join(parts)`. */
  function Join(sep: string, parts: seq<string>): string {
    if |parts| == 0 then ""
    else if |parts| == 1 then parts[0]
    else parts[0] + sep + Join(sep, parts[1..])
  }

  /** Joining non-empty parts starts with the first part's first character
      and ends with the last part's last one. */
  lemma {:induction false} JoinEnds(sep: string, parts: seq<string>)
    requires |parts| >= 1 && forall i :: 0 <= i < |parts| ==> |parts[i]| > 0
    ensures |Join(sep, parts)| > 0
    ensures Join(sep, parts)[0] == parts[0][0]
    ensures var j := Join(sep, parts);
            var l := parts[|parts| - 1];
            j[|j| - 1] == l[|l| - 1]
  {
    if |parts| > 1 {
      JoinEnds(sep, parts[1..]);
    }
  }

  /** Text that neither starts nor ends with a stripped character is left
      as it is. */
  lemma StripUntouched(s: string, cs: set<char>)
    requires |s| > 0 && s[0] !in cs && s[|s| - 1] !in cs
    ensures Strip(s, cs) == s
  {
    assert LeadingIn(s, cs) == 0;
    assert StripLeft(s, cs) == s;
    assert TrailingIn(s, cs) == 0;
  }
}
