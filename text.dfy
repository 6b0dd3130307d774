/**
 * The JavaScript string built-ins the chat component relies on, written out over
 * `seq<char>`: the white-space set shared by `\s` and `String.prototype.trim`,
 * `trim` itself, `s.split(sep)[1]`, `parseInt` on a decimal prefix, and the decimal
 * rendering of a non-negative integer in a template literal.
 */
module Text {
  import opened Wrappers

  /** ECMAScript LineTerminator: the characters `.` does not match. */
  predicate IsLineTerminator(c: char) {
    c == '\n' || c == '\r' || c == '\U{2028}' || c == '\U{2029}'
  }

  /** ECMAScript WhiteSpace or LineTerminator: what `\s` matches and what `trim` removes. */
  predicate IsWhitespace(c: char) {
    || IsLineTerminator(c)
    || c == '\t' || c == '\U{000B}' || c == '\U{000C}' || c == ' '
    || c == '\U{00A0}' || c == '\U{1680}' || ('\U{2000}' <= c <= '\U{200A}')
    || c == '\U{202F}' || c == '\U{205F}' || c == '\U{3000}' || c == '\U{FEFF}'
  }

  predicate AllWhitespace(s: string, i: nat, j: nat)
    requires i <= j <= |s|
  {
    forall k :: i <= k < j ==> IsWhitespace(s[k])
  }

  predicate NoLineTerminator(s: string, i: nat, j: nat)
    requires i <= j <= |s|
  {
    forall k :: i <= k < j ==> !IsLineTerminator(s[k])
  }

  /** The first position at or after `i` that does not hold white space. */
  function SkipWhitespace(s: string, i: nat): (j: nat)
    requires i <= |s|
    ensures i <= j <= |s|
    ensures AllWhitespace(s, i, j)
    ensures j == |s| || !IsWhitespace(s[j])
    decreases |s| - i
  {
    if i == |s| || !IsWhitespace(s[i]) then i else SkipWhitespace(s, i + 1)
  }

  /** The first position at or after `i` that holds a line terminator, or `|s|`. */
  function LineEnd(s: string, i: nat): (j: nat)
    requires i <= |s|
    ensures i <= j <= |s|
    ensures NoLineTerminator(s, i, j)
    ensures j == |s| || IsLineTerminator(s[j])
    decreases |s| - i
  {
    if i == |s| || IsLineTerminator(s[i]) then i else LineEnd(s, i + 1)
  }

  /** The end of `s[..j]` once its trailing white space is dropped. */
  function TrimmedEnd(s: string, j: nat): (k: nat)
    requires j <= |s|
    ensures k <= j
    ensures AllWhitespace(s, k, j)
    ensures k == 0 || !IsWhitespace(s[k - 1])
  {
    if j == 0 || !IsWhitespace(s[j - 1]) then j else TrimmedEnd(s, j - 1)
  }

  /** `String.prototype.trim`: `s` without its leading and trailing white space. */
  function Trim(s: string): (r: string)
    ensures r == [] <==> AllWhitespace(s, 0, |s|)
    ensures r != [] ==> !IsWhitespace(r[0]) && !IsWhitespace(r[|r| - 1])
    ensures exists a, b :: 0 <= a <= b <= |s| && r == s[a..b] && AllWhitespace(s, 0, a) && AllWhitespace(s, b, |s|)
  {
    var a := SkipWhitespace(s, 0);
    var b := TrimmedEnd(s, |s|);
    if b <= a then
      assert AllWhitespace(s, 0, |s|) by {
        forall k | 0 <= k < |s| ensures IsWhitespace(s[k]) {
          if k >= a { assert k >= b; }
        }
      }
      assert s[0..0] == [];
      []
    else
      s[a..b]
  }

  /** Trimming is idempotent: the text the matcher sees is already in trimmed form. */
  lemma TrimIdempotent(s: string)
    ensures Trim(Trim(s)) == Trim(s)
  {
    var r := Trim(s);
    if r != [] {
      assert SkipWhitespace(r, 0) == 0;
      assert TrimmedEnd(r, |r|) == |r|;
      assert r[0..|r|] == r;
    }
  }

  /** The first position at or after `from` holding `c`, or `|s|`. */
  function IndexOf(s: string, c: char, from: nat): (i: nat)
    requires from <= |s|
    ensures from <= i <= |s|
    ensures i < |s| ==> s[i] == c
    ensures forall k :: from <= k < i ==> s[k] != c
    decreases |s| - from
  {
    if from == |s| || s[from] == c then from else IndexOf(s, c, from + 1)
  }

  /**
   * `s.split(sep)[1]`: the field between the first and the second `sep` (or the
   * end), `undefined` (None) when `s` holds no `sep` at all.
   */
  function SecondField(s: string, sep: char): (r: Option<string>)
    ensures r.None? <==> sep !in s
    ensures r.Some? ==> sep !in r.value && |r.value| < |s|
  {
    var i := IndexOf(s, sep, 0);
    if i == |s| then None
    else
      var j := IndexOf(s, sep, i + 1);
      Some(s[i + 1..j])
  }

  /** `split(sep)[1]` recovers the field that follows the first separator. */
  lemma SecondFieldOf(a: string, sep: char, b: string, rest: string)
    requires sep !in a && sep !in b
    requires rest == [] || rest[0] == sep
    ensures SecondField(a + [sep] + b + rest, sep) == Some(b)
  {
    var s := a + [sep] + b + rest;
    assert forall k :: 0 <= k < |a| ==> s[k] == a[k];
    assert s[|a|] == sep;
    assert IndexOf(s, sep, 0) == |a|;
    assert forall k :: |a| + 1 <= k < |a| + 1 + |b| ==> s[k] == b[k - |a| - 1];
    assert rest != [] ==> s[|a| + 1 + |b|] == rest[0];
    assert IndexOf(s, sep, |a| + 1) == |a| + 1 + |b|;
    assert s[|a| + 1..|a| + 1 + |b|] == b;
  }

  predicate IsDigit(c: char) {
    '0' <= c <= '9'
  }

  function DigitValue(c: char): nat
    requires IsDigit(c)
  {
    c as int - '0' as int
  }

  function DigitChar(d: nat): (c: char)
    requires d < 10
    ensures IsDigit(c) && DigitValue(c) == d
  {
    ('0' as int + d) as char
  }

  predicate AllDigits(s: string) {
    forall k :: 0 <= k < |s| ==> IsDigit(s[k])
  }

  /** The value of a run of decimal digits, most significant first. */
  function DigitsValue(s: string): nat
    requires AllDigits(s)
  {
    if s == [] then 0 else DigitsValue(s[..|s| - 1]) * 10 + DigitValue(s[|s| - 1])
  }

  /** A non-negative integer in decimal, as a template literal `${n}` renders it. */
  function NatToString(n: nat): (s: string)
    ensures s != [] && AllDigits(s)
    ensures |s| > 1 ==> s[0] != '0'
  {
    if n < 10 then [DigitChar(n)] else NatToString(n / 10) + [DigitChar(n % 10)]
  }

  /** Reading back the decimal rendering gives the number. */
  lemma {:induction false} NatToStringRoundTrip(n: nat)
    ensures DigitsValue(NatToString(n)) == n
  {
    if n >= 10 {
      NatToStringRoundTrip(n / 10);
      var s := NatToString(n);
      assert s[..|s| - 1] == NatToString(n / 10);
    }
  }

  /** The end of the run of decimal digits that starts at `i`. */
  function DigitRunEnd(s: string, i: nat): (j: nat)
    requires i <= |s|
    ensures i <= j <= |s|
    ensures forall k :: i <= k < j ==> IsDigit(s[k])
    ensures j == |s| || !IsDigit(s[j])
    decreases |s| - i
  {
    if i == |s| || !IsDigit(s[i]) then i else DigitRunEnd(s, i + 1)
  }

  /** `parseInt(s)` on a string that starts with decimal digits; NaN (None) when it does not. */
  function ParseIntPrefix(s: string): (r: Option<nat>)
    ensures r.None? <==> (s == [] || !IsDigit(s[0]))
  {
    var e := DigitRunEnd(s, 0);
    if e == 0 then None else Some(DigitsValue(s[..e]))
  }

  /** `parseInt` reads back a decimal rendering up to the first non-digit. */
  lemma ParseNatToString(n: nat, rest: string)
    requires rest == [] || !IsDigit(rest[0])
    ensures ParseIntPrefix(NatToString(n) + rest) == Some(n)
  {
    var d := NatToString(n);
    var s := d + rest;
    assert forall k :: 0 <= k < |d| ==> s[k] == d[k];
    assert rest != [] ==> s[|d|] == rest[0];
    DigitRunEndAt(s, 0, |d|);
    assert s[..|d|] == d;
    NatToStringRoundTrip(n);
  }

  /** A digit run from `i` up to a non-digit (or the end) at `e` ends at `e`. */
  lemma {:induction false} DigitRunEndAt(s: string, i: nat, e: nat)
    requires i <= e <= |s| && forall k :: i <= k < e ==> IsDigit(s[k])
    requires e == |s| || !IsDigit(s[e])
    ensures DigitRunEnd(s, i) == e
    decreases e - i
  {
    if i < e {
      DigitRunEndAt(s, i + 1, e);
    }
  }

  /** Different clock values render differently. */
  lemma NatToStringInjective(m: nat, n: nat)
    requires NatToString(m) == NatToString(n)
    ensures m == n
  {
    NatToStringRoundTrip(m);
    NatToStringRoundTrip(n);
  }
}
