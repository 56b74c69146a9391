/** String operations of the JavaScript runtime that the browser client relies on:
    `trim`, `startsWith`, `includes`, `split(" ")` / `join(" ")`, the decimal rendering
    of a status code, and the test behind `isNaN` for strings (ECMAScript StringToNumber). */
module JsString {

  /** The WhiteSpace and LineTerminator code points of ECMAScript, which is the set
      `String.prototype.trim` strips and StringToNumber ignores around a literal. */
  const WhiteSpace: set<char> :=
    {'\t', '\n', '\U{000B}', '\U{000C}', '\r', ' ', '\U{00A0}', '\U{1680}',
     '\U{2000}', '\U{2001}', '\U{2002}', '\U{2003}', '\U{2004}', '\U{2005}',
     '\U{2006}', '\U{2007}', '\U{2008}', '\U{2009}', '\U{200A}', '\U{2028}',
     '\U{2029}', '\U{202F}', '\U{205F}', '\U{3000}', '\U{FEFF}'}

  predicate IsWhite(c: char) {
    c in WhiteSpace
  }

  /** Leading white space removed. */
  function TrimStart(s: string): (r: string)
    ensures |r| <= |s|
    ensures r != [] ==> !IsWhite(r[0])
  {
    if s != [] && IsWhite(s[0]) then TrimStart(s[1..]) else s
  }

  /** Trailing white space removed. */
  function TrimEnd(s: string): (r: string)
    ensures |r| <= |s|
    ensures r != [] ==> !IsWhite(r[|r| - 1])
  {
    if s != [] && IsWhite(s[|s| - 1]) then TrimEnd(s[..|s| - 1]) else s
  }

  /** `s.trim()`: empty, or starting and ending with a character that is not white space. */
  function Trim(s: string): (r: string)
    ensures |r| <= |s|
    ensures r != [] ==> !IsWhite(r[0]) && !IsWhite(r[|r| - 1])
  {
    var a := TrimStart(s);
    TrimEndPrefix(a);
    TrimEnd(a)
  }

  /** TrimStart keeps a suffix and removes only white space. */
  lemma {:induction false} TrimStartSuffix(s: string)
    ensures TrimStart(s) == s[|s| - |TrimStart(s)|..]
    ensures forall i | 0 <= i < |s| - |TrimStart(s)| :: IsWhite(s[i])
  {
    if s != [] && IsWhite(s[0]) {
      TrimStartSuffix(s[1..]);
    }
  }

  /** TrimEnd keeps a prefix and removes only white space. */
  lemma {:induction false} TrimEndPrefix(s: string)
    ensures TrimEnd(s) == s[..|TrimEnd(s)|]
    ensures forall i | |TrimEnd(s)| <= i < |s| :: IsWhite(s[i])
  {
    if s != [] && IsWhite(s[|s| - 1]) {
      TrimEndPrefix(s[..|s| - 1]);
    }
  }

  /** Trimming gives "" exactly for strings made only of white space. */
  lemma TrimEmptyIffWhite(s: string)
    ensures Trim(s) == [] <==> forall i | 0 <= i < |s| :: IsWhite(s[i])
  {
    var a := TrimStart(s);
    TrimStartSuffix(s);
    TrimEndPrefix(a);
    if Trim(s) == [] {
      // a non-empty `a` would start with a character that TrimEnd keeps
      assert a == [];
    } else {
      assert !IsWhite(Trim(s)[0]);
      assert Trim(s)[0] == s[|s| - |a|];
    }
  }

  /** `s.startsWith(p)`. */
  predicate StartsWith(s: string, p: string) {
    |p| <= |s| && s[..|p|] == p
  }

  /** `s.includes(p)`: `p` occurs somewhere in `s`. */
  predicate Contains(s: string, p: string)
    decreases |s|
  {
    StartsWith(s, p) || (s != [] && Contains(s[1..], p))
  }

  /** An occurrence of `p` at offset `k` makes `s` contain `p`. */
  lemma {:induction false} ContainsAt(s: string, p: string, k: nat)
    requires k + |p| <= |s| && s[k..k + |p|] == p
    ensures Contains(s, p)
    decreases k
  {
    if k == 0 {
      assert s[..|p|] == s[k..k + |p|];
    } else {
      assert s[1..][k - 1..k - 1 + |p|] == s[k..k + |p|];
      ContainsAt(s[1..], p, k - 1);
    }
  }

  /** Containment is transitive: whatever contains `q` contains every substring `p`
      found in `q` at offset `k`. */
  lemma {:induction false} ContainsTransitive(s: string, q: string, p: string, k: nat)
    requires Contains(s, q)
    requires k + |p| <= |q| && q[k..k + |p|] == p
    ensures Contains(s, p)
    decreases |s|
  {
    if StartsWith(s, q) {
      assert s[k..k + |p|] == q[k..k + |p|];
      ContainsAt(s, p, k);
    } else {
      ContainsTransitive(s[1..], q, p, k);
    }
  }

  /** Index of the first `c` in `s`, or `|s|` when there is none. */
  function IndexOfChar(s: string, c: char): (i: nat)
    ensures i <= |s|
    ensures i < |s| ==> s[i] == c
    ensures forall j | 0 <= j < i :: s[j] != c
  {
    if s == [] then 0
    else if s[0] == c then 0
    else 1 + IndexOfChar(s[1..], c)
  }

  /** `s.split(sep)` for a one-character separator: the pieces between separators,
      always at least one. */
  function Split(s: string, sep: char): (parts: seq<string>)
    ensures |parts| >= 1
    ensures forall k, j | 0 <= k < |parts| && 0 <= j < |parts[k]| :: parts[k][j] != sep
    decreases |s|
  {
    var i := IndexOfChar(s, sep);
    if i == |s| then [s]
    else [s[..i]] + Split(s[i + 1..], sep)
  }

  /** `parts.join(sep)`. */
  function Join(parts: seq<string>, sep: char): string
    decreases |parts|
  {
    if |parts| == 0 then ""
    else if |parts| == 1 then parts[0]
    else parts[0] + [sep] + Join(parts[1..], sep)
  }

  /** Splitting on a character and joining with the same character gives the input back. */
  lemma {:induction false} JoinSplit(s: string, sep: char)
    ensures Join(Split(s, sep), sep) == s
    decreases |s|
  {
    var i := IndexOfChar(s, sep);
    if i < |s| {
      var rest := s[i + 1..];
      var parts := Split(s, sep);
      JoinSplit(rest, sep);
      assert parts[1..] == Split(rest, sep);
      calc {
        Join(parts, sep);
        parts[0] + [sep] + Join(parts[1..], sep);
        s[..i] + [sep] + rest;
        { assert s == s[..i] + [sep] + rest; }
        s;
      }
    }
  }

  /** Joining one more part adds the separator and the part. */
  lemma {:induction false} JoinSnoc(parts: seq<string>, w: string, sep: char)
    requires |parts| >= 1
    ensures Join(parts + [w], sep) == Join(parts, sep) + [sep] + w
    decreases |parts|
  {
    if |parts| > 1 {
      assert (parts + [w])[1..] == parts[1..] + [w];
      JoinSnoc(parts[1..], w, sep);
    }
  }

  predicate IsDecimalDigit(c: char) { '0' <= c <= '9' }

  /** Decimal rendering of a natural number, as in a template string `${n}`. */
  function NatToString(n: nat): (r: string)
    ensures r != [] && forall i | 0 <= i < |r| :: IsDecimalDigit(r[i])
  {
    var d := ['0', '1', '2', '3', '4', '5', '6', '7', '8', '9'][n % 10];
    if n < 10 then [d] else NatToString(n / 10) + [d]
  }

  /** Decimal rendering of an integer, with a leading '-' for negatives. */
  function IntToString(n: int): string {
    if n < 0 then "-" + NatToString(-n) else NatToString(n)
  }

  // ----- ECMAScript StringToNumber: does Number(s) give a number rather than NaN? -----

  /** Length of the longest prefix of `s` made of characters satisfying `digit`. */
  function LeadingRun(s: string, digit: char -> bool): (n: nat)
    ensures n <= |s|
    ensures forall i | 0 <= i < n :: digit(s[i])
    ensures n < |s| ==> !digit(s[n])
  {
    if s != [] && digit(s[0]) then 1 + LeadingRun(s[1..], digit) else 0
  }

  predicate AllOf(s: string, digit: char -> bool) {
    s != [] && LeadingRun(s, digit) == |s|
  }

  /** ExponentPart: `e` or `E`, an optional sign, then decimal digits. */
  predicate IsExponentPart(s: string) {
    |s| >= 2 && (s[0] == 'e' || s[0] == 'E') &&
    (AllOf(s[1..], IsDecimalDigit) ||
     (s[1] in {'+', '-'} && AllOf(s[2..], IsDecimalDigit)))
  }

  predicate IsOptionalExponent(s: string) {
    s == [] || IsExponentPart(s)
  }

  /** StrUnsignedDecimalLiteral: `Infinity`, `d.`, `d.d`, `.d`, `d`, each with an
      optional exponent. */
  predicate IsUnsignedDecimal(s: string) {
    if s == "Infinity" then true
    else
      var d := LeadingRun(s, IsDecimalDigit);
      var rest := s[d..];
      if rest != [] && rest[0] == '.' then
        var frac := rest[1..];
        var f := LeadingRun(frac, IsDecimalDigit);
        (d > 0 || f > 0) && IsOptionalExponent(frac[f..])
      else
        d > 0 && IsOptionalExponent(rest)
  }

  predicate IsHexDigit(c: char) { IsDecimalDigit(c) || 'a' <= c <= 'f' || 'A' <= c <= 'F' }
  predicate IsOctalDigit(c: char) { '0' <= c <= '7' }
  predicate IsBinaryDigit(c: char) { c == '0' || c == '1' }

  /** NonDecimalIntegerLiteral without separators: `0x…`, `0o…`, `0b…` (no sign allowed). */
  predicate IsNonDecimalInteger(s: string) {
    |s| >= 3 && s[0] == '0' &&
    ((s[1] in {'x', 'X'} && AllOf(s[2..], IsHexDigit)) ||
     (s[1] in {'o', 'O'} && AllOf(s[2..], IsOctalDigit)) ||
     (s[1] in {'b', 'B'} && AllOf(s[2..], IsBinaryDigit)))
  }

  /** `!isNaN(Number(s))`: after trimming, the string is empty (which converts to 0) or a
      StrNumericLiteral. */
  predicate IsNumericString(s: string) {
    var t := Trim(s);
    t == [] ||
    IsNonDecimalInteger(t) ||
    IsUnsignedDecimal(t) ||
    (t[0] in {'+', '-'} && IsUnsignedDecimal(t[1..]))
  }
}
