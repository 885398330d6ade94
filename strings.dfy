/** String primitives the engine relies on: JavaScript's `indexOf`, `Array.join`,
    a one-character global `replace`, `Number.toString`, ASCII case conversion and the
    regular-expression class `\s`. Strings are sequences of code points. */
module Strings {

  datatype Option<+T> = None | Some(value: T)

  /** `pat` occurs in `s` starting at index `i`. */
  predicate OccursAt(s: string, pat: string, i: nat) {
    i + |pat| <= |s| && s[i..i + |pat|] == pat
  }

  /** An occurrence lies inside the string. */
  lemma OccursAtBound(s: string, pat: string, i: nat)
    requires OccursAt(s, pat, i)
    ensures i + |pat| <= |s|
  {
  }

  /** `pat` occurs somewhere in `s`. */
  ghost predicate Occurs(s: string, pat: string) {
    exists i: nat :: OccursAt(s, pat, i)
  }

  /** `i` is the first index at or after `from` at which `pat` occurs in `s`. */
  predicate FirstFrom(s: string, pat: string, from: nat, i: nat) {
    from <= i && OccursAt(s, pat, i) &&
    forall j: nat :: from <= j < i ==> !OccursAt(s, pat, j)
  }

  /** There is only one first occurrence. */
  lemma FirstFromUnique(s: string, pat: string, from: nat, i: nat, j: nat)
    requires FirstFrom(s, pat, from, i) && FirstFrom(s, pat, from, j)
    ensures i == j
  {
  }

  /** `s.indexOf(pat, from)`, with `None` for JavaScript's -1. */
  function IndexOfFrom(s: string, pat: string, from: nat): (r: Option<nat>)
    ensures r.Some? ==> FirstFrom(s, pat, from, r.value)
    ensures r.None? ==> forall j: nat :: from <= j ==> !OccursAt(s, pat, j)
    decreases |s| - from
  {
    if from + |pat| > |s| then None
    else if s[from..from + |pat|] == pat then Some(from)
    else IndexOfFrom(s, pat, from + 1)
  }

  /** `s.indexOf(pat)`. */
  function IndexOf(s: string, pat: string): (r: Option<nat>)
    ensures r.Some? <==> Occurs(s, pat)
    ensures r.Some? ==> FirstFrom(s, pat, 0, r.value)
  {
    var r := IndexOfFrom(s, pat, 0);
    assert r.Some? ==> OccursAt(s, pat, r.value);
    r
  }

  /** An occurrence inside either half of a concatenation is an occurrence in the whole. */
  lemma OccursInConcat(a: string, b: string, pat: string, i: nat)
    ensures OccursAt(a, pat, i) ==> OccursAt(a + b, pat, i)
    ensures OccursAt(b, pat, i) ==> OccursAt(a + b, pat, |a| + i)
  {
    if OccursAt(a, pat, i) {
      assert (a + b)[i..i + |pat|] == a[i..i + |pat|];
    }
    if OccursAt(b, pat, i) {
      assert (a + b)[|a| + i..|a| + i + |pat|] == b[i..i + |pat|];
    }
  }

  /** An occurrence in `b` is an occurrence in `a + b`, shifted by `|a|`. */
  lemma OccursAfter(a: string, b: string, pat: string, i: nat)
    requires OccursAt(b, pat, i)
    ensures OccursAt(a + b, pat, |a| + i)
  {
    assert (a + b)[|a| + i..|a| + i + |pat|] == b[i..i + |pat|];
  }

  /** An occurrence in `a` is an occurrence in `a + b`. */
  lemma OccursBefore(a: string, b: string, pat: string, i: nat)
    requires OccursAt(a, pat, i)
    ensures OccursAt(a + b, pat, i)
  {
    assert (a + b)[i..i + |pat|] == a[i..i + |pat|];
  }

  /** An occurrence in a slice of `s` is an occurrence in `s`, shifted by the slice's start. */
  lemma OccursInSlice(s: string, lo: nat, hi: nat, pat: string, i: nat)
    requires lo <= hi <= |s| && OccursAt(s[lo..hi], pat, i)
    ensures OccursAt(s, pat, lo + i)
  {
    var t := s[lo..hi];
    forall k | 0 <= k < |pat|
      ensures s[lo + i + k] == pat[k]
    {
      assert t[i..i + |pat|][k] == t[i + k];
    }
    assert s[lo + i..lo + i + |pat|] == pat;
  }

  lemma OccursSelf(x: string)
    ensures OccursAt(x, x, 0)
  {
    assert x[0..|x|] == x;
  }

  /** The three parts of `a + b + c` can be sliced back out. */
  lemma Slices3(a: string, b: string, c: string)
    ensures var s := a + b + c;
            s[..|a|] == a && s[|a|..|s| - |c|] == b && s[|s| - |c|..] == c &&
            OccursAt(s, a, 0) && OccursAt(s, b, |a|)
  {
    var s := a + b + c;
    assert s[..|a|] == a;
    assert s[|a|..|s| - |c|] == b;
    assert s[|s| - |c|..] == c;
    assert s[|a|..|a| + |b|] == b;
  }

  /** An occurrence that ends within a common prefix is seen by both strings. */
  lemma OccursAtPrefix(s: string, t: string, k: nat, pat: string, i: nat)
    requires k <= |s| && k <= |t| && s[..k] == t[..k]
    requires i + |pat| <= k
    ensures OccursAt(s, pat, i) <==> OccursAt(t, pat, i)
  {
    assert s[i..i + |pat|] == s[..k][i..i + |pat|];
    assert t[i..i + |pat|] == t[..k][i..i + |pat|];
  }

  /** `parts.join(sep)`. */
  function Join(parts: seq<string>, sep: string): string {
    if |parts| == 0 then ""
    else if |parts| == 1 then parts[0]
    else parts[0] + sep + Join(parts[1..], sep)
  }

  /** Every part appears in the joined string, in order: the join of `ps + [p]` is the join of `ps`,
      then the separator, then `p`. */
  lemma {:induction false} JoinSnoc(ps: seq<string>, p: string, sep: string)
    requires |ps| > 0
    ensures Join(ps + [p], sep) == Join(ps, sep) + sep + p
  {
    if |ps| == 1 {
      assert ps + [p] == [ps[0], p];
    } else {
      assert (ps + [p])[1..] == ps[1..] + [p];
      JoinSnoc(ps[1..], p, sep);
    }
  }

  /** Where part `i` starts in `Join(parts, sep)`. */
  function JoinOffset(parts: seq<string>, sep: string, i: nat): nat
    requires i < |parts|
  {
    if i == 0 then 0 else |parts[0]| + |sep| + JoinOffset(parts[1..], sep, i - 1)
  }

  /** Every part of a join stands at its offset, and the offsets grow with the index: the parts
      appear in order. */
  lemma {:induction false} JoinParts(parts: seq<string>, sep: string, i: nat)
    requires i < |parts|
    ensures OccursAt(Join(parts, sep), parts[i], JoinOffset(parts, sep, i))
    ensures i + 1 < |parts| ==> JoinOffset(parts, sep, i) + |parts[i]| + |sep| == JoinOffset(parts, sep, i + 1)
  {
    if |parts| == 1 {
      OccursSelf(parts[0]);
    } else if i == 0 {
      OccursSelf(parts[0]);
      OccursBefore(parts[0], sep, parts[0], 0);
      OccursBefore(parts[0] + sep, Join(parts[1..], sep), parts[0], 0);
    } else {
      JoinParts(parts[1..], sep, i - 1);
      OccursAfter(parts[0] + sep, Join(parts[1..], sep), parts[i], JoinOffset(parts[1..], sep, i - 1));
    }
  }

  /** `s.replace(/c/g, rep)` for a single-character pattern whose replacement holds no `$`. */
  function ReplaceChar(s: string, c: char, rep: string): string {
    if |s| == 0 then ""
    else (if s[0] == c then rep else [s[0]]) + ReplaceChar(s[1..], c, rep)
  }

  /** A global replacement works piece by piece. */
  lemma {:induction false} ReplaceCharConcat(a: string, b: string, c: char, rep: string)
    ensures ReplaceChar(a + b, c, rep) == ReplaceChar(a, c, rep) + ReplaceChar(b, c, rep)
  {
    if |a| > 0 {
      assert (a + b)[1..] == a[1..] + b;
      ReplaceCharConcat(a[1..], b, c, rep);
    } else {
      assert a + b == b;
    }
  }

  /** On a single character, a global replacement replaces it or keeps it. */
  lemma ReplaceCharSingle(c: char, x: char, rep: string)
    ensures ReplaceChar([c], x, rep) == if c == x then rep else [c]
  {
    assert [c][1..] == [];
  }

  /** A replacement leaves a string without the replaced character alone. */
  lemma {:induction false} ReplaceCharAbsent(s: string, c: char, rep: string)
    requires forall i :: 0 <= i < |s| ==> s[i] != c
    ensures ReplaceChar(s, c, rep) == s
  {
    if |s| > 0 {
      ReplaceCharAbsent(s[1..], c, rep);
    }
  }

  predicate IsDigit(c: char) { '0' <= c <= '9' }

  function DigitChar(d: nat): (c: char)
    requires d < 10
    ensures IsDigit(c)
  {
    "0123456789"[d]
  }

  function DigitValue(c: char): nat
    requires IsDigit(c)
  {
    c as int - '0' as int
  }

  /** `n.toString()` for a non-negative integer. */
  function NatToString(n: nat): (r: string)
    ensures |r| >= 1 && forall i :: 0 <= i < |r| ==> IsDigit(r[i])
    ensures n >= 10 ==> r[0] != '0'
  {
    if n < 10 then [DigitChar(n)] else NatToString(n / 10) + [DigitChar(n % 10)]
  }

  /** The value a string of decimal digits denotes. */
  function DecimalValue(s: string): nat
    requires forall i :: 0 <= i < |s| ==> IsDigit(s[i])
  {
    if |s| == 0 then 0 else 10 * DecimalValue(s[..|s| - 1]) + DigitValue(s[|s| - 1])
  }

  /** The decimal rendering can be read back: it denotes the number it was made from. */
  lemma {:induction false} NatToStringValue(n: nat)
    ensures DecimalValue(NatToString(n)) == n
  {
    var r := NatToString(n);
    if n >= 10 {
      assert r[..|r| - 1] == NatToString(n / 10);
      NatToStringValue(n / 10);
    }
  }

  /** Different numbers render differently. */
  lemma NatToStringInjective(m: nat, n: nat)
    requires NatToString(m) == NatToString(n)
    ensures m == n
  {
    NatToStringValue(m);
    NatToStringValue(n);
  }

  /** `n.toString()` for any integer: a minus sign, then the digits of the magnitude. */
  function IntToString(n: int): (r: string)
    ensures n >= 0 ==> r == NatToString(n)
    ensures n < 0 ==> r == "-" + NatToString(-n)
  {
    if n < 0 then "-" + NatToString(-n) else NatToString(n)
  }

  predicate IsAsciiLower(c: char) { 'a' <= c <= 'z' }
  predicate IsAsciiUpper(c: char) { 'A' <= c <= 'Z' }

  function UpperChar(c: char): char {
    if IsAsciiLower(c) then (c as int - 32) as char else c
  }

  function LowerChar(c: char): char {
    if IsAsciiUpper(c) then (c as int + 32) as char else c
  }

  /** `s.toUpperCase()` restricted to the ASCII letters. */
  function Upper(s: string): (r: string)
    ensures |r| == |s|
    ensures forall i :: 0 <= i < |s| ==> r[i] == UpperChar(s[i]) && !IsAsciiLower(r[i])
  {
    seq(|s|, i requires 0 <= i < |s| => UpperChar(s[i]))
  }

  /** `s.toLowerCase()` restricted to the ASCII letters. */
  function Lower(s: string): (r: string)
    ensures |r| == |s|
    ensures forall i :: 0 <= i < |s| ==> r[i] == LowerChar(s[i]) && !IsAsciiUpper(r[i])
  {
    seq(|s|, i requires 0 <= i < |s| => LowerChar(s[i]))
  }

  /** Upper-casing forgets a prior lower-casing, and the reverse. */
  lemma CaseRoundTrips(s: string)
    ensures Upper(Lower(s)) == Upper(s)
    ensures Lower(Upper(s)) == Lower(s)
    ensures Lower(Lower(s)) == Lower(s)
  {
  }

  /** The JavaScript regular-expression class `\s`: WhiteSpace and LineTerminator code points. */
  predicate IsSpace(c: char) {
    c == '\t' || c == '\n' || c == '\U{B}' || c == '\U{C}' || c == '\r' || c == ' ' ||
    c == '\U{A0}' || c == '\U{1680}' || ('\U{2000}' <= c <= '\U{200A}') ||
    c == '\U{2028}' || c == '\U{2029}' || c == '\U{202F}' || c == '\U{205F}' ||
    c == '\U{3000}' || c == '\U{FEFF}'
  }

  /** Every character of `s[i..i + n]` is whitespace. */
  predicate SpacesAt(s: string, i: nat, n: nat) {
    i + n <= |s| && forall k :: i <= k < i + n ==> IsSpace(s[k])
  }

  /** The length of the longest whitespace run that starts at `i`. */
  function SpaceRun(s: string, i: nat): (n: nat)
    requires i <= |s|
    ensures SpacesAt(s, i, n)
    ensures i + n == |s| || !IsSpace(s[i + n])
    decreases |s| - i
  {
    if i < |s| && IsSpace(s[i]) then 1 + SpaceRun(s, i + 1) else 0
  }

  /** Whitespace in `x` is whitespace in `a + x`, shifted by `|a|`. */
  lemma SpacesAfter(a: string, x: string, i: nat, n: nat)
    requires SpacesAt(x, i, n)
    ensures SpacesAt(a + x, |a| + i, n)
  {
    var s := a + x;
    forall k | |a| + i <= k < |a| + i + n
      ensures IsSpace(s[k])
    {
      assert s[k] == x[k - |a|];
    }
  }

  /** Whitespace in `x` is whitespace in `x + b`. */
  lemma SpacesBefore(x: string, b: string, i: nat, n: nat)
    requires SpacesAt(x, i, n)
    ensures SpacesAt(x + b, i, n)
  {
    var s := x + b;
    forall k | i <= k < i + n
      ensures IsSpace(s[k])
    {
      assert s[k] == x[k];
    }
  }
}
