/** The replacement-pattern expansion that `String.prototype.replace` applies to a replacement
    string (GetSubstitution, section 22.1.3.19.1 of ECMA-262), for a regular expression without
    capture groups: `$$` is a dollar sign, `$&` the matched text, `` $` `` the text before the
    match and `$'` the text after it; every other `$` stands for itself. */
module Substitution {
  import opened Strings

  /** The expansion of `tpl` for a match with the given surroundings. */
  function Substitute(tpl: string, before: string, matched: string, after: string): string
    decreases |tpl|
  {
    if |tpl| == 0 then ""
    else if tpl[0] == '$' && |tpl| >= 2 && tpl[1] == '$' then "$" + Substitute(tpl[2..], before, matched, after)
    else if tpl[0] == '$' && |tpl| >= 2 && tpl[1] == '&' then matched + Substitute(tpl[2..], before, matched, after)
    else if tpl[0] == '$' && |tpl| >= 2 && tpl[1] == '`' then before + Substitute(tpl[2..], before, matched, after)
    else if tpl[0] == '$' && |tpl| >= 2 && tpl[1] == '\'' then after + Substitute(tpl[2..], before, matched, after)
    else [tpl[0]] + Substitute(tpl[1..], before, matched, after)
  }

  /** `s` holds no dollar sign, so the expansion has nothing to act on. */
  predicate NoDollar(s: string) {
    forall i :: 0 <= i < |s| ==> s[i] != '$'
  }

  lemma NoDollarConcat(a: string, b: string)
    requires NoDollar(a) && NoDollar(b)
    ensures NoDollar(a + b)
  {
    var s := a + b;
    forall i | 0 <= i < |s|
      ensures s[i] != '$'
    {
      if i < |a| {
        assert s[i] == a[i];
      } else {
        assert s[i] == b[i - |a|];
      }
    }
  }

  /** A decimal number holds no dollar sign. */
  lemma NatToStringNoDollar(n: nat)
    ensures NoDollar(NatToString(n))
  {
  }

  /** A character other than `$` is copied. */
  lemma SubstituteStep(tpl: string, before: string, matched: string, after: string)
    requires |tpl| > 0 && tpl[0] != '$'
    ensures Substitute(tpl, before, matched, after) == [tpl[0]] + Substitute(tpl[1..], before, matched, after)
  {
  }

  /** Text without a dollar sign passes through the expansion unchanged, in front of whatever
      follows it. */
  lemma {:induction false} SubstitutePlainPrefix(x: string, y: string, before: string, matched: string, after: string)
    requires NoDollar(x)
    ensures Substitute(x + y, before, matched, after) == x + Substitute(y, before, matched, after)
  {
    if |x| > 0 {
      var t := x + y;
      assert t[0] == x[0] && t[1..] == x[1..] + y;
      SubstituteStep(t, before, matched, after);
      SubstitutePlainPrefix(x[1..], y, before, matched, after);
      assert x == [x[0]] + x[1..];
    } else {
      assert x + y == y;
    }
  }

  /** A replacement without a dollar sign is inserted as it is. */
  lemma SubstitutePlain(tpl: string, before: string, matched: string, after: string)
    requires NoDollar(tpl)
    ensures Substitute(tpl, before, matched, after) == tpl
  {
    SubstitutePlainPrefix(tpl, "", before, matched, after);
    assert tpl + "" == tpl;
  }

  /** `$&` inserts the matched text where it stands. */
  lemma SubstituteMatched(x: string, y: string, before: string, matched: string, after: string)
    requires NoDollar(x) && NoDollar(y)
    ensures Substitute(x + "$&" + y, before, matched, after) == x + matched + y
  {
    assert x + "$&" + y == x + ("$&" + y);
    SubstitutePlainPrefix(x, "$&" + y, before, matched, after);
    assert ("$&" + y)[2..] == y;
    SubstitutePlain(y, before, matched, after);
  }
}
