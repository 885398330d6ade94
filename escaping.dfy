/** The body escaping of `createPostCard`: four global replacements applied in order,
    `&` first, then `<`, `>` and the newline. Both engine scripts use the same chain. */
module Escaping {
  import opened Strings

  const Amp: string := "&amp;"
  const Lt: string := "&lt;"
  const Gt: string := "&gt;"
  const Br: string := "<br>"

  /** The replace chain exactly as the scripts apply it. */
  function Escape(content: string): string {
    ReplaceChar(ReplaceChar(ReplaceChar(ReplaceChar(content, '&', Amp), '<', Lt), '>', Gt), '\n', Br)
  }

  /** What the chain turns one character into. */
  function EscapeChar(c: char): string {
    if c == '&' then Amp
    else if c == '<' then Lt
    else if c == '>' then Gt
    else if c == '\n' then Br
    else [c]
  }

  /** The escaping as a single left-to-right pass, one character at a time. */
  function EscapeEach(s: string): string {
    if |s| == 0 then "" else EscapeChar(s[0]) + EscapeEach(s[1..])
  }

  /** On one character the chain yields that character's escape. */
  lemma EscapeSingle(c: char)
    ensures Escape([c]) == EscapeChar(c)
  {
    ReplaceCharSingle(c, '&', Amp);
    if c == '&' {
      EscapeAmpSingle();
    } else {
      EscapeAfterAmp(c);
    }
  }

  lemma EscapeAmpSingle()
    ensures ReplaceChar(ReplaceChar(ReplaceChar(Amp, '<', Lt), '>', Gt), '\n', Br) == Amp
  {
    TailChainKeeps(Amp);
  }

  /** Text without `<`, `>` or a newline passes the last three steps unchanged. */
  lemma TailChainKeeps(s: string)
    requires forall i :: 0 <= i < |s| ==> s[i] != '<' && s[i] != '>' && s[i] != '\n'
    ensures ReplaceChar(ReplaceChar(ReplaceChar(s, '<', Lt), '>', Gt), '\n', Br) == s
  {
    ReplaceCharAbsent(s, '<', Lt);
    ReplaceCharAbsent(s, '>', Gt);
    ReplaceCharAbsent(s, '\n', Br);
  }

  lemma EscapeAfterAmp(c: char)
    requires c != '&'
    ensures ReplaceChar(ReplaceChar(ReplaceChar([c], '<', Lt), '>', Gt), '\n', Br) == EscapeChar(c)
  {
    ReplaceCharSingle(c, '<', Lt);
    if c == '<' {
      ReplaceCharAbsent(Lt, '>', Gt);
      ReplaceCharAbsent(Lt, '\n', Br);
    } else {
      EscapeAfterLt(c);
    }
  }

  lemma EscapeAfterLt(c: char)
    requires c != '&' && c != '<'
    ensures ReplaceChar(ReplaceChar([c], '>', Gt), '\n', Br) == EscapeChar(c)
  {
    ReplaceCharSingle(c, '>', Gt);
    if c == '>' {
      ReplaceCharAbsent(Gt, '\n', Br);
    } else {
      ReplaceCharSingle(c, '\n', Br);
    }
  }

  /** Escaping works piece by piece. */
  lemma EscapeConcat(a: string, b: string)
    ensures Escape(a + b) == Escape(a) + Escape(b)
  {
    var a1, b1 := ReplaceChar(a, '&', Amp), ReplaceChar(b, '&', Amp);
    var a2, b2 := ReplaceChar(a1, '<', Lt), ReplaceChar(b1, '<', Lt);
    var a3, b3 := ReplaceChar(a2, '>', Gt), ReplaceChar(b2, '>', Gt);
    ReplaceCharConcat(a, b, '&', Amp);
    ReplaceCharConcat(a1, b1, '<', Lt);
    ReplaceCharConcat(a2, b2, '>', Gt);
    ReplaceCharConcat(a3, b3, '\n', Br);
  }

  /** The ordered chain agrees with the single pass: since `&` goes first, the `&` that the
      later steps introduce are never escaped twice. */
  lemma {:induction false} EscapeIsPerChar(s: string)
    ensures Escape(s) == EscapeEach(s)
  {
    if |s| > 0 {
      assert s == [s[0]] + s[1..];
      EscapeConcat([s[0]], s[1..]);
      EscapeSingle(s[0]);
      EscapeIsPerChar(s[1..]);
    }
  }

  predicate Special(c: char) { c == '&' || c == '<' || c == '>' || c == '\n' }

  /** Text without special characters passes through unchanged; with `EscapeConcat` this says
      that every other character keeps its place and order. */
  lemma {:induction false} EscapePlain(s: string)
    requires forall i :: 0 <= i < |s| ==> !Special(s[i])
    ensures Escape(s) == s
  {
    if |s| > 0 {
      assert s == [s[0]] + s[1..];
      EscapeConcat([s[0]], s[1..]);
      EscapeSingle(s[0]);
      EscapePlain(s[1..]);
    }
  }

  /** The safety of escaped markup: no raw newline; every `<` and every `>` belongs to a `<br>`;
      every `&` begins one of the three entities. */
  predicate SafeMarkup(t: string) {
    (forall i :: 0 <= i < |t| ==> t[i] != '\n') &&
    (forall i :: 0 <= i < |t| && t[i] == '<' ==> OccursAt(t, Br, i)) &&
    (forall i :: 0 <= i < |t| && t[i] == '>' ==> 3 <= i && OccursAt(t, Br, i - 3)) &&
    (forall i :: 0 <= i < |t| && t[i] == '&' ==>
       OccursAt(t, Amp, i) || OccursAt(t, Lt, i) || OccursAt(t, Gt, i))
  }

  /** A position of `a` keeps its safety in `a + b`. */
  lemma SafeAtLeft(a: string, b: string, i: nat)
    requires SafeMarkup(a) && i < |a|
    ensures var t := a + b;
            t[i] != '\n' &&
            (t[i] == '<' ==> OccursAt(t, Br, i)) &&
            (t[i] == '>' ==> 3 <= i && OccursAt(t, Br, i - 3)) &&
            (t[i] == '&' ==> OccursAt(t, Amp, i) || OccursAt(t, Lt, i) || OccursAt(t, Gt, i))
  {
    OccursInConcat(a, b, Br, i);
    OccursInConcat(a, b, Amp, i);
    OccursInConcat(a, b, Lt, i);
    OccursInConcat(a, b, Gt, i);
    if a[i] == '>' {
      OccursInConcat(a, b, Br, i - 3);
    }
  }

  /** A position of `b` keeps its safety in `a + b`, shifted by `|a|`. */
  lemma SafeAtRight(a: string, b: string, k: nat)
    requires SafeMarkup(b) && k < |b|
    ensures var t := a + b;
            var i := |a| + k;
            t[i] != '\n' &&
            (t[i] == '<' ==> OccursAt(t, Br, i)) &&
            (t[i] == '>' ==> 3 <= i && OccursAt(t, Br, i - 3)) &&
            (t[i] == '&' ==> OccursAt(t, Amp, i) || OccursAt(t, Lt, i) || OccursAt(t, Gt, i))
  {
    assert (a + b)[|a| + k] == b[k];
    OccursInConcat(a, b, Br, k);
    OccursInConcat(a, b, Amp, k);
    OccursInConcat(a, b, Lt, k);
    OccursInConcat(a, b, Gt, k);
    if b[k] == '>' {
      OccursInConcat(a, b, Br, k - 3);
    }
  }

  /** Safe pieces concatenate to a safe whole. */
  lemma SafeConcat(a: string, b: string)
    requires SafeMarkup(a) && SafeMarkup(b)
    ensures SafeMarkup(a + b)
  {
    var t := a + b;
    forall i | 0 <= i < |t|
      ensures t[i] != '\n'
      ensures t[i] == '<' ==> OccursAt(t, Br, i)
      ensures t[i] == '>' ==> 3 <= i && OccursAt(t, Br, i - 3)
      ensures t[i] == '&' ==> OccursAt(t, Amp, i) || OccursAt(t, Lt, i) || OccursAt(t, Gt, i)
    {
      if i < |a| {
        SafeAtLeft(a, b, i);
      } else {
        SafeAtRight(a, b, i - |a|);
      }
    }
  }

  lemma EntitySafe(e: string)
    requires e == Amp || e == Lt || e == Gt
    ensures SafeMarkup(e)
  {
    OccursSelf(e);
  }

  lemma BreakSafe()
    ensures SafeMarkup(Br)
  {
    OccursSelf(Br);
  }

  lemma PlainSafe(c: char)
    requires !Special(c)
    ensures SafeMarkup([c])
  {
  }

  /** Each character escapes to safe markup. */
  lemma EscapeCharSafe(c: char)
    ensures SafeMarkup(EscapeChar(c))
  {
    if c == '&' || c == '<' || c == '>' {
      EntitySafe(EscapeChar(c));
    } else if c == '\n' {
      BreakSafe();
    } else {
      PlainSafe(c);
    }
  }

  /** Whatever the body, its escaped form is safe markup. */
  lemma EscapeSafe(s: string)
    ensures SafeMarkup(Escape(s))
  {
    EscapeIsPerChar(s);
    EscapeEachSafe(s);
  }

  /** The single pass yields safe markup, one escaped character after another. */
  lemma {:induction false} EscapeEachSafe(s: string)
    ensures SafeMarkup(EscapeEach(s))
  {
    if |s| == 0 {
    } else {
      EscapeCharSafe(s[0]);
      EscapeEachSafe(s[1..]);
      SafeConcat(EscapeChar(s[0]), EscapeEach(s[1..]));
    }
  }

  /** Reads escaped markup back: `<br>` becomes a newline, and the entities `&lt;`, `&gt;`
      and `&amp;` become the characters they stand for; everything else is copied. */
  function Unescape(t: string): string
    decreases |t|
  {
    if |t| == 0 then ""
    else if OccursAt(t, Br, 0) then "\n" + Unescape(t[4..])
    else if OccursAt(t, Lt, 0) then "<" + Unescape(t[4..])
    else if OccursAt(t, Gt, 0) then ">" + Unescape(t[4..])
    else if OccursAt(t, Amp, 0) then "&" + Unescape(t[5..])
    else [t[0]] + Unescape(t[1..])
  }

  lemma UnescapeStep(c: char, rest: string)
    ensures Unescape(EscapeChar(c) + rest) == [c] + Unescape(rest)
  {
    var t := EscapeChar(c) + rest;
    var e := EscapeChar(c);
    assert t[..|e|] == e;
    if c == '&' {
      assert t[0] == '&' && t[1] == 'a';
      assert !OccursAt(t, Br, 0) && !OccursAt(t, Lt, 0) && !OccursAt(t, Gt, 0);
      assert OccursAt(t, Amp, 0);
      assert t[5..] == rest;
    } else if c == '<' {
      assert !OccursAt(t, Br, 0) && OccursAt(t, Lt, 0);
      assert t[4..] == rest;
    } else if c == '>' {
      assert !OccursAt(t, Br, 0) && !OccursAt(t, Lt, 0) && OccursAt(t, Gt, 0);
      assert t[4..] == rest;
    } else if c == '\n' {
      assert OccursAt(t, Br, 0);
      assert t[4..] == rest;
    } else {
      assert t[0] == c && t[1..] == rest;
      assert !OccursAt(t, Br, 0) && !OccursAt(t, Lt, 0) && !OccursAt(t, Gt, 0) && !OccursAt(t, Amp, 0);
    }
  }

  /** Decoding recovers the original body exactly. */
  lemma {:induction false} UnescapeEscape(s: string)
    ensures Unescape(Escape(s)) == s
  {
    EscapeIsPerChar(s);
    if |s| > 0 {
      EscapeIsPerChar(s[1..]);
      UnescapeStep(s[0], EscapeEach(s[1..]));
      UnescapeEscape(s[1..]);
      assert s == [s[0]] + s[1..];
    }
  }

  /** Escaping is injective: distinct bodies never escape to the same markup. */
  lemma EscapeInjective(s: string, t: string)
    requires Escape(s) == Escape(t)
    ensures s == t
  {
    UnescapeEscape(s);
    UnescapeEscape(t);
  }
}
