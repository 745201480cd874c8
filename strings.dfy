/// The java.lang.String and commons-lang StringUtils operations the endpoint relies on.
module Strings {

  predicate IsDigit(c: char) { '0' <= c <= '9' }

  /** Character.isWhitespace: the controls U+0009 to U+000D and U+001C to U+001F, and the
      space, line and paragraph separators other than the no-break spaces (U+00A0, U+2007
      and U+202F). */
  predicate IsWhitespace(c: char)
  {
    ('\U{0009}' <= c <= '\U{000D}') || ('\U{001C}' <= c <= '\U{0020}')
    || c == '\U{1680}' || ('\U{2000}' <= c <= '\U{2006}') || ('\U{2008}' <= c <= '\U{200A}')
    || c == '\U{2028}' || c == '\U{2029}' || c == '\U{205F}' || c == '\U{3000}'
  }

  /** StringUtils.isBlank on a non-null string: empty or whitespace only. */
  predicate IsBlank(s: string)
  {
    forall i :: 0 <= i < |s| ==> IsWhitespace(s[i])
  }

  predicate AllDigits(s: string)
  {
    forall i :: 0 <= i < |s| ==> IsDigit(s[i])
  }

  /** The value of a string of decimal digits, most significant first. */
  function DigitsValue(s: string): (n: nat)
    requires AllDigits(s)
  {
    if s == [] then 0 else 10 * DigitsValue(s[..|s| - 1]) + (s[|s| - 1] - '0') as nat
  }

  function Pow10(n: nat): (p: nat)
    ensures p >= 1
  {
    if n == 0 then 1 else 10 * Pow10(n - 1)
  }

  lemma {:induction false} DigitsValueBound(s: string)
    requires AllDigits(s)
    ensures DigitsValue(s) < Pow10(|s|)
  {
    if s != [] {
      DigitsValueBound(s[..|s| - 1]);
    }
  }

  /** String.startsWith. */
  predicate StartsWith(s: string, prefix: string)
  {
    |prefix| <= |s| && s[..|prefix|] == prefix
  }

  predicate OccursAt(s: string, pat: string, i: int)
  {
    0 <= i && i + |pat| <= |s| && s[i..i + |pat|] == pat
  }

  /** String.indexOf(pat, from): the first occurrence at or after from, or -1. */
  function IndexFrom(s: string, pat: string, from: nat): (r: int)
    requires from <= |s| + 1
    decreases |s| + 1 - from
    ensures r == -1 || (from <= r && OccursAt(s, pat, r))
    ensures r == -1 ==> forall i :: from <= i <= |s| ==> !OccursAt(s, pat, i)
    ensures r != -1 ==> forall i :: from <= i < r ==> !OccursAt(s, pat, i)
  {
    if from + |pat| > |s| then -1
    else if s[from..from + |pat|] == pat then from
    else IndexFrom(s, pat, from + 1)
  }

  /** String.indexOf(pat). */
  function IndexOf(s: string, pat: string): (r: int)
    ensures r == -1 <==> forall i :: 0 <= i <= |s| ==> !OccursAt(s, pat, i)
    ensures r != -1 ==> OccursAt(s, pat, r) && forall i :: 0 <= i < r ==> !OccursAt(s, pat, i)
  {
    IndexFrom(s, pat, 0)
  }

  /** The characters String.trim removes: every code point up to and including space. */
  predicate Trimmable(c: char) { c <= ' ' }

  function TrimStart(s: string): (r: string)
    ensures |r| <= |s| && r == s[|s| - |r|..]
    ensures r == [] || !Trimmable(r[0])
    ensures forall i :: 0 <= i < |s| - |r| ==> Trimmable(s[i])
  {
    if s != [] && Trimmable(s[0]) then TrimStart(s[1..]) else s
  }

  function TrimEnd(s: string): (r: string)
    ensures |r| <= |s| && r == s[..|r|]
    ensures r == [] || !Trimmable(r[|r| - 1])
    ensures forall i :: |r| <= i < |s| ==> Trimmable(s[i])
  {
    if s != [] && Trimmable(s[|s| - 1]) then TrimEnd(s[..|s| - 1]) else s
  }

  /** String.trim: drop leading and trailing characters up to space. */
  function Trim(s: string): string
  {
    TrimEnd(TrimStart(s))
  }

  /** The trimmed string is a slice of the input with nothing trimmable at either end,
      and everything cut off either end was trimmable. */
  lemma TrimIsSlice(s: string)
    ensures exists a, b :: (0 <= a <= b <= |s| && Trim(s) == s[a..b]
                            && (forall i :: 0 <= i < a ==> Trimmable(s[i]))
                            && (forall i :: b <= i < |s| ==> Trimmable(s[i])))
    ensures Trim(s) == [] || (!Trimmable(Trim(s)[0]) && !Trimmable(Trim(s)[|Trim(s)| - 1]))
  {
    var t := TrimStart(s);
    var e := TrimEnd(t);
    var a, b := SliceOfSlice(s, t, e);
  }

  /** A trimmable-free slice of a trimmable-free suffix is a slice of the whole. */
  lemma SliceOfSlice(s: string, t: string, e: string) returns (a: nat, b: nat)
    requires |t| <= |s| && t == s[|s| - |t|..] && (t == [] || !Trimmable(t[0]))
    requires forall i :: 0 <= i < |s| - |t| ==> Trimmable(s[i])
    requires |e| <= |t| && e == t[..|e|] && (e == [] || !Trimmable(e[|e| - 1]))
    requires forall i :: |e| <= i < |t| ==> Trimmable(t[i])
    ensures 0 <= a <= b <= |s| && e == s[a..b]
    ensures (forall i :: 0 <= i < a ==> Trimmable(s[i])) && (forall i :: b <= i < |s| ==> Trimmable(s[i]))
    ensures e == [] || (!Trimmable(e[0]) && !Trimmable(e[|e| - 1]))
  {
    a := |s| - |t|;
    b := a + |e|;
    assert e == s[a..b];
    forall i | b <= i < |s|
      ensures Trimmable(s[i])
    {
      assert s[i] == t[i - a];
    }
    if e != [] {
      assert e[0] == t[0];
    }
  }

  lemma TrimIdempotent(s: string)
    ensures Trim(Trim(s)) == Trim(s)
  {
    TrimIsSlice(s);
    var t := Trim(s);
    if t != [] {
      assert TrimStart(t) == t;
      assert TrimEnd(t) == t;
    }
  }

  function ToUpperAscii(c: char): char
  {
    if 'a' <= c <= 'z' then (c as int - 32) as char else c
  }

  function ToLowerAscii(c: char): char
  {
    if 'A' <= c <= 'Z' then (c as int + 32) as char else c
  }

  /** Character.toUpperCase and Character.toLowerCase. Their tables are Unicode data, so the
      model takes them as a parameter. */
  datatype CaseMap = CaseMap(upper: char -> char, lower: char -> char)

  /** The per-character test of String.equalsIgnoreCase (String.regionMatches ignoring case):
      the characters are equal, equal in upper case, or equal once upper-cased and then
      lower-cased. */
  predicate SameIgnoringCase(cases: CaseMap, c: char, d: char)
  {
    c == d || cases.upper(c) == cases.upper(d) || cases.lower(cases.upper(c)) == cases.lower(cases.upper(d))
  }

  /** String.equalsIgnoreCase on non-null strings. */
  predicate EqualsIgnoreCase(cases: CaseMap, a: string, b: string)
  {
    |a| == |b| && forall i :: 0 <= i < |a| ==> SameIgnoringCase(cases, a[i], b[i])
  }

  /** What Java's case tables do on and into the ASCII range: ASCII letters map to each other;
      outside ASCII only the dotless i (U+0131) and the long s (U+017F) upper-case into it, and
      only the dotted capital I (U+0130) and the Kelvin sign (U+212A) lower-case into it once
      upper-cased. */
  predicate JavaCasesOnAscii(cases: CaseMap)
  {
    (forall c: char :: c <= '\U{007F}' ==> cases.upper(c) == ToUpperAscii(c))
    && (forall c: char :: c <= '\U{007F}' ==> cases.lower(c) == ToLowerAscii(c))
    && cases.upper('\U{0131}') == 'I' && cases.upper('\U{017F}') == 'S'
    && cases.upper('\U{0130}') == '\U{0130}' && cases.lower('\U{0130}') == 'i'
    && cases.upper('\U{212A}') == '\U{212A}' && cases.lower('\U{212A}') == 'k'
    && (forall c: char :: c > '\U{007F}' && cases.upper(c) <= '\U{007F}' ==>
          c == '\U{0131}' || c == '\U{017F}')
    && (forall c: char :: c > '\U{007F}' && cases.lower(cases.upper(c)) <= '\U{007F}' ==>
          c == '\U{0131}' || c == '\U{017F}' || c == '\U{0130}' || c == '\U{212A}')
  }

  /** The ASCII character a character matches ignoring case, in lower case: the four
      non-ASCII characters that Java folds onto i, s and k are folded with them. */
  function FoldAscii(c: char): char
  {
    if c == '\U{0131}' || c == '\U{0130}' then 'i'
    else if c == '\U{017F}' then 's'
    else if c == '\U{212A}' then 'k'
    else ToLowerAscii(c)
  }

  function Folded(t: string): (r: string)
    ensures |r| == |t|
  {
    seq(|t|, i requires 0 <= i < |t| => FoldAscii(t[i]))
  }

  predicate IsAscii(s: string)
  {
    forall i :: 0 <= i < |s| ==> s[i] <= '\U{007F}'
  }

  /** Against an ASCII string, equalsIgnoreCase with Java's tables is equality once folded. */
  lemma EqualsAsciiIgnoringCase(cases: CaseMap, t: string, lit: string)
    requires JavaCasesOnAscii(cases) && IsAscii(lit)
    ensures EqualsIgnoreCase(cases, t, lit) <==> Folded(t) == Folded(lit)
    ensures EqualsIgnoreCase(cases, lit, t) <==> Folded(t) == Folded(lit)
  {
    if |t| == |lit| {
      forall i | 0 <= i < |t|
        ensures SameIgnoringCase(cases, t[i], lit[i]) <==> FoldAscii(t[i]) == FoldAscii(lit[i])
        ensures SameIgnoringCase(cases, lit[i], t[i]) <==> FoldAscii(t[i]) == FoldAscii(lit[i])
      {
        SameAsAscii(cases, t[i], lit[i]);
      }
      if Folded(t) == Folded(lit) {
        forall i | 0 <= i < |t|
          ensures FoldAscii(t[i]) == FoldAscii(lit[i])
        {
          assert Folded(t)[i] == Folded(lit)[i];
        }
      }
    }
  }

  lemma SameAsAscii(cases: CaseMap, c: char, x: char)
    requires JavaCasesOnAscii(cases) && x <= '\U{007F}'
    ensures SameIgnoringCase(cases, c, x) <==> FoldAscii(c) == FoldAscii(x)
    ensures SameIgnoringCase(cases, x, c) <==> FoldAscii(c) == FoldAscii(x)
  {
    var ux := cases.upper(x);
    assert ux == ToUpperAscii(x);
    assert cases.lower(ux) == ToLowerAscii(ux);
    if c <= '\U{007F}' {
      var uc := cases.upper(c);
      assert uc == ToUpperAscii(c);
      assert cases.lower(uc) == ToLowerAscii(uc);
    } else if cases.upper(c) <= '\U{007F}' {
      assert c == '\U{0131}' || c == '\U{017F}';
    }
  }
}
