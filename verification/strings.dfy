/** Text helpers with Python's semantics: `str.split` on one character,
    `sep.join`, `str.strip()` emptiness, code-point string comparison,
    slicing a prefix and rendering integers in decimal. */
module Strings {

  /** Python's `str.isspace()` characters (ASCII and the common Unicode spaces). */
  predicate IsWhitespace(c: char) {
    c == ' ' || c == '\t' || c == '\n' || c == '\r' || c == '\U{B}' || c == '\U{C}'
    || ('\U{1C}' <= c <= '\U{1F}') || c == '\U{85}' || c == '\U{A0}' || c == '\U{1680}'
    || ('\U{2000}' <= c <= '\U{200A}') || c == '\U{2028}' || c == '\U{2029}'
    || c == '\U{202F}' || c == '\U{205F}' || c == '\U{3000}'
  }

  /** `not s.strip()`: the string is empty once surrounding whitespace is removed. */
  predicate IsBlank(s: string) {
    forall i :: 0 <= i < |s| ==> IsWhitespace(s[i])
  }

  /** Number of occurrences of `c` in `s`. */
  function Count(s: string, c: char): nat {
    if s == [] then 0 else (if s[0] == c then 1 else 0) + Count(s[1..], c)
  }

  lemma CountZero(s: string, c: char)
    ensures Count(s, c) == 0 <==> c !in s
  {
    if s != [] {
      CountZero(s[1..], c);
      assert s == [s[0]] + s[1..];
    }
  }

  /** `sep.join(parts)`. */
  function Join(parts: seq<string>, sep: string): string {
    if |parts| == 0 then ""
    else if |parts| == 1 then parts[0]
    else parts[0] + sep + Join(parts[1..], sep)
  }

  /** A join starts with its first part. */
  lemma JoinFirst(parts: seq<string>, sep: string)
    requires |parts| >= 1
    ensures StartsWith(Join(parts, sep), parts[0])
  {
    var j := Join(parts, sep);
    if |parts| > 1 {
      assert j == parts[0] + (sep + Join(parts[1..], sep));
    }
    assert j[..|parts[0]|] == parts[0];
  }

  /** A character in neither the parts nor the separator is not in the join. */
  lemma {:induction false} JoinAvoids(parts: seq<string>, sep: string, x: char)
    requires x !in sep && forall i :: 0 <= i < |parts| ==> x !in parts[i]
    ensures x !in Join(parts, sep)
  {
    if |parts| > 1 {
      JoinAvoids(parts[1..], sep, x);
    }
  }

  /** `s.split(c)`: the pieces between occurrences of `c`; an empty string
      gives one empty piece. */
  function Split(s: string, c: char): (r: seq<string>)
    ensures |r| == Count(s, c) + 1
    ensures forall i :: 0 <= i < |r| ==> c !in r[i]
    ensures Join(r, [c]) == s
  {
    if s == [] then [""]
    else
      var rest := Split(s[1..], c);
      if s[0] == c then
        [""] + rest
      else
        assert s == [s[0]] + s[1..];
        [[s[0]] + rest[0]] + rest[1..]
  }

  /** A string with no separator in it splits into itself alone. */
  lemma {:induction false} SplitNoSeparator(a: string, c: char)
    requires c !in a
    ensures Split(a, c) == [a]
  {
    if a != [] {
      SplitNoSeparator(a[1..], c);
    }
  }

  /** Splitting stops at the first separator. */
  lemma {:induction false} SplitFirst(a: string, c: char, b: string)
    requires c !in a
    ensures Split(a + [c] + b, c) == [a] + Split(b, c)
  {
    if a == [] {
      assert a + [c] + b == [c] + b;
      assert ([c] + b)[1..] == b;
    } else {
      var t := a[1..] + [c] + b;
      SplitFirst(a[1..], c, b);
      assert a + [c] + b == [a[0]] + t;
      SplitCons(a[0], t, c);
      assert a == [a[0]] + a[1..];
    }
  }

  lemma SplitCons(x: char, t: string, c: char)
    requires x != c
    ensures Split([x] + t, c) == [[x] + Split(t, c)[0]] + Split(t, c)[1..]
  {
    assert ([x] + t)[1..] == t;
  }

  /** Splitting two texts joined by the separator splits each in turn. */
  lemma SplitAppend(a: string, c: char, b: string)
    ensures Split(a + [c] + b, c) == Split(a, c) + Split(b, c)
  {
    var pa, pb := Split(a, c), Split(b, c);
    JoinAppend(pa, pb, [c]);
    SplitJoin(pa + pb, c);
  }

  lemma {:induction false} JoinAppend(p: seq<string>, q: seq<string>, sep: string)
    requires |p| >= 1 && |q| >= 1
    ensures Join(p + q, sep) == Join(p, sep) + sep + Join(q, sep)
  {
    assert (p + q)[0] == p[0];
    if |p| == 1 {
      assert (p + q)[1..] == q;
    } else {
      assert (p + q)[1..] == p[1..] + q;
      JoinAppend(p[1..], q, sep);
    }
  }

  /** Round trip: splitting a join recovers the parts when no part holds
      the separator. */
  lemma {:induction false} SplitJoin(parts: seq<string>, c: char)
    requires |parts| >= 1
    requires forall i :: 0 <= i < |parts| ==> c !in parts[i]
    ensures Split(Join(parts, [c]), c) == parts
  {
    if |parts| == 1 {
      SplitNoSeparator(parts[0], c);
    } else {
      SplitJoin(parts[1..], c);
      SplitFirst(parts[0], c, Join(parts[1..], [c]));
      assert parts == [parts[0]] + parts[1..];
    }
  }

  /** Python's `<=` on `str`: code-point lexicographic order, a proper
      prefix sorting first. */
  predicate LexLe(a: string, b: string) {
    if a == [] then true
    else if b == [] then false
    else if a[0] != b[0] then a[0] < b[0]
    else LexLe(a[1..], b[1..])
  }

  lemma {:induction false} LexLeTotal(a: string, b: string)
    ensures LexLe(a, b) || LexLe(b, a)
  {
    if a != [] && b != [] && a[0] == b[0] {
      LexLeTotal(a[1..], b[1..]);
    }
  }

  lemma {:induction false} LexLeTransitive(a: string, b: string, c: string)
    requires LexLe(a, b) && LexLe(b, c)
    ensures LexLe(a, c)
  {
    if a != [] && b != [] && c != [] && a[0] == b[0] && b[0] == c[0] {
      LexLeTransitive(a[1..], b[1..], c[1..]);
    }
  }

  lemma {:induction false} LexLeAntisymmetric(a: string, b: string)
    requires LexLe(a, b) && LexLe(b, a)
    ensures a == b
  {
    if a != [] && b != [] {
      LexLeAntisymmetric(a[1..], b[1..]);
      assert a == [a[0]] + a[1..];
      assert b == [b[0]] + b[1..];
    }
  }

  predicate StartsWith(s: string, p: string) {
    |p| <= |s| && s[..|p|] == p
  }

  lemma StartsWithExtend(s: string, t: string, p: string)
    requires StartsWith(s, p)
    ensures StartsWith(s + t, p)
  {
    assert (s + t)[..|p|] == s[..|p|];
  }

  lemma StartsWithSelf(s: string)
    ensures StartsWith(s, s)
  {
    assert s[..|s|] == s;
  }

  /** A line that differs from `p` at some position of `p` does not
      start with it. */
  lemma DiffersAt(s: string, p: string, i: nat)
    requires i < |p| && i < |s| && s[i] != p[i]
    ensures !StartsWith(s, p)
  {
    if |p| <= |s| {
      assert s[..|p|][i] == s[i];
    }
  }

  /** The lines that start with `p`, in order. */
  function LinesStartingWith(lines: seq<string>, p: string): (r: seq<string>)
    ensures forall i :: 0 <= i < |r| ==> StartsWith(r[i], p)
    ensures |r| <= |lines|
  {
    if lines == [] then []
    else (if StartsWith(lines[0], p) then [lines[0]] else []) + LinesStartingWith(lines[1..], p)
  }

  lemma LinesStartingWithCons(x: string, rest: seq<string>, p: string)
    ensures LinesStartingWith([x] + rest, p)
         == (if StartsWith(x, p) then [x] else []) + LinesStartingWith(rest, p)
  {
    assert ([x] + rest)[1..] == rest;
  }

  lemma {:induction false} LinesStartingWithAppend(a: seq<string>, b: seq<string>, p: string)
    ensures LinesStartingWith(a + b, p) == LinesStartingWith(a, p) + LinesStartingWith(b, p)
  {
    if a == [] {
      assert a + b == b;
    } else {
      LinesStartingWithAppend(a[1..], b, p);
      assert a + b == [a[0]] + (a[1..] + b);
      assert a == [a[0]] + a[1..];
      LinesStartingWithCons(a[0], a[1..] + b, p);
      LinesStartingWithCons(a[0], a[1..], p);
      var head := if StartsWith(a[0], p) then [a[0]] else [];
      assert head + (LinesStartingWith(a[1..], p) + LinesStartingWith(b, p))
          == (head + LinesStartingWith(a[1..], p)) + LinesStartingWith(b, p);
    }
  }

  lemma {:induction false} NoneStartWith(lines: seq<string>, p: string)
    requires forall i :: 0 <= i < |lines| ==> !StartsWith(lines[i], p)
    ensures LinesStartingWith(lines, p) == []
  {
    if lines != [] {
      NoneStartWith(lines[1..], p);
    }
  }

  /** No line holds a newline of its own. */
  predicate SingleLines(lines: seq<string>) {
    forall i :: 0 <= i < |lines| ==> '\n' !in lines[i]
  }

  lemma SingleLinesAppend(a: seq<string>, b: seq<string>)
    requires SingleLines(a) && SingleLines(b)
    ensures SingleLines(a + b)
  {
    forall i | 0 <= i < |a + b|
      ensures '\n' !in (a + b)[i]
    {
      if i >= |a| {
        assert (a + b)[i] == b[i - |a|];
      }
    }
  }

  /** `s[:n]`: at most the first `n` characters. */
  function Prefix(s: string, n: nat): (r: string)
    ensures |r| == if |s| < n then |s| else n
    ensures r <= s
  {
    if |s| <= n then s else s[..n]
  }

  predicate IsDigit(c: char) {
    '0' as int <= c as int <= '9' as int
  }

  function DigitChar(d: nat): (c: char)
    requires d < 10
    ensures IsDigit(c)
  {
    ('0' as int + d) as char
  }

  /** The value of a decimal digit. */
  function DigitValue(c: char): (d: nat)
    requires IsDigit(c)
    ensures d < 10 && DigitChar(d) == c
  {
    c as int - '0' as int
  }

  /** Reads back a string of decimal digits. */
  function DigitsValue(s: string): nat
    requires forall i :: 0 <= i < |s| ==> IsDigit(s[i])
  {
    if s == [] then 0
    else
      assert IsDigit(s[|s| - 1]);
      DigitsValue(s[..|s| - 1]) * 10 + DigitValue(s[|s| - 1])
  }

  /** `str(n)` for a non-negative integer. */
  function NatToString(n: nat): (r: string)
    ensures |r| >= 1
    ensures forall i :: 0 <= i < |r| ==> IsDigit(r[i])
    ensures |r| > 1 ==> r[0] != '0'
  {
    if n < 10 then [DigitChar(n)] else NatToString(n / 10) + [DigitChar(n % 10)]
  }

  /** Round trip: the decimal rendering reads back as the number. */
  lemma {:induction false} NatToStringValue(n: nat)
    ensures DigitsValue(NatToString(n)) == n
  {
    if n >= 10 {
      NatToStringValue(n / 10);
      var s := NatToString(n);
      assert s[..|s| - 1] == NatToString(n / 10);
    }
  }
}
