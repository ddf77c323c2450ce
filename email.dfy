/** The client's email test, `^\w+([.-]?\w+)*@\w+([.-]?\w+)*(\.\w{2,3})+$`
    with `\w` = [A-Za-z0-9_]. The regular expression's own meaning is stated as
    ghost predicates over ways of cutting the string; the recogniser that the
    form runs checks a fixed shape instead, and the two are proved equal. */
module Email {
  import Strings

  /** `\w` */
  predicate IsWordChar(c: char)
  {
    'a' <= c <= 'z' || 'A' <= c <= 'Z' || '0' <= c <= '9' || c == '_'
  }

  /** `[.-]` */
  predicate IsSeparator(c: char)
  {
    c == '.' || c == '-'
  }

  /** `\w+` */
  predicate IsWordRun(s: string)
  {
    |s| > 0 && forall i | 0 <= i < |s| :: IsWordChar(s[i])
  }

  // ---------------------------------------------------------------------
  // What the regular expression matches

  /** `[.-]?\w+` */
  ghost predicate IsPiece(s: string)
  {
    IsWordRun(s) || (|s| > 1 && IsSeparator(s[0]) && IsWordRun(s[1..]))
  }

  /** `\w+([.-]?\w+)*`: a word run, or a shorter chain followed by one more piece. */
  ghost predicate IsChain(s: string)
    decreases |s|
  {
    IsWordRun(s) || exists k | 0 < k < |s| :: IsChain(s[..k]) && IsPiece(s[k..])
  }

  /** `\.\w{2,3}` */
  ghost predicate IsTld(s: string)
  {
    3 <= |s| <= 4 && s[0] == '.' && IsWordRun(s[1..])
  }

  /** `(\.\w{2,3})+` */
  ghost predicate IsTldRun(s: string)
    decreases |s|
  {
    IsTld(s) || exists k | 0 < k < |s| :: IsTldRun(s[..k]) && IsTld(s[k..])
  }

  /** `\w+([.-]?\w+)*(\.\w{2,3})+` */
  ghost predicate IsDomain(s: string)
  {
    exists k | 0 < k < |s| :: IsChain(s[..k]) && IsTldRun(s[k..])
  }

  /** The whole pattern, anchored at both ends. */
  ghost predicate MatchesEmailRegex(s: string)
  {
    exists i | 0 <= i < |s| :: s[i] == '@' && IsChain(s[..i]) && IsDomain(s[i + 1..])
  }

  // ---------------------------------------------------------------------
  // The recogniser

  /** Position `i` holds a word character, or a separator right after one. */
  predicate DottedAt(s: string, i: int)
    requires 0 <= i < |s|
  {
    IsWordChar(s[i]) || (IsSeparator(s[i]) && i > 0 && IsWordChar(s[i - 1]))
  }

  /** Word characters and lone separators, beginning and ending with a word character. */
  predicate IsDotted(s: string)
  {
    && |s| > 0
    && IsWordChar(s[0])
    && IsWordChar(s[|s| - 1])
    && forall i | 0 <= i < |s| :: DottedAt(s, i)
  }

  /** `s` ends in '.' and `m` word characters, after a dotted prefix. */
  predicate EndsInTld(s: string, m: nat)
  {
    |s| >= m + 2 && s[|s| - m - 1] == '.' && IsWordRun(s[|s| - m..]) && IsDotted(s[..|s| - m - 1])
  }

  /** `emailRegex.test(s)`: a dotted local part, one '@', and a dotted domain
      whose last label has two or three word characters. */
  predicate AcceptsEmail(s: string)
  {
    var at := Strings.IndexOf(s, '@');
    at < |s| && IsDotted(s[..at]) && (EndsInTld(s[at + 1..], 2) || EndsInTld(s[at + 1..], 3))
  }

  // ---------------------------------------------------------------------
  // The recogniser accepts exactly what the regular expression matches

  /** A dotted string followed by a piece is dotted. */
  lemma DottedThenPiece(p: string, q: string)
    requires IsDotted(p) && IsPiece(q)
    ensures IsDotted(p + q)
  {
    var s := p + q;
    forall i | 0 <= i < |s|
      ensures DottedAt(s, i)
    {
      if i < |p| {
        assert DottedAt(p, i);
        assert s[i] == p[i];
        if i > 0 {
          assert s[i - 1] == p[i - 1];
        }
      } else if i == |p| {
        assert s[i] == q[0];
        assert s[i - 1] == p[|p| - 1];
      } else {
        assert s[i] == q[i - |p|];
        if !IsWordRun(q) {
          assert q[1..][i - |p| - 1] == q[i - |p|];
        }
      }
    }
    assert s[|s| - 1] == q[|q| - 1];
    if !IsWordRun(q) {
      assert q[1..][|q| - 2] == q[|q| - 1];
    }
  }

  /** Every chain is dotted. */
  lemma {:induction false} ChainIsDotted(s: string)
    requires IsChain(s)
    ensures IsDotted(s)
    decreases |s|
  {
    if !IsWordRun(s) {
      var k :| 0 < k < |s| && IsChain(s[..k]) && IsPiece(s[k..]);
      var a, b := s[..k], s[k..];
      assert a + b == s;
      ChainIsDotted(a);
      DottedThenPiece(a, b);
    }
  }

  /** Every dotted string is a chain: peel off the last piece. */
  lemma {:induction false} DottedIsChain(s: string)
    requires IsDotted(s)
    ensures IsChain(s)
    decreases |s|
  {
    if !IsWordRun(s) {
      var n := |s|;
      assert n >= 2;
      assert DottedAt(s, n - 2);
      var k := if IsWordChar(s[n - 2]) then n - 1 else n - 2;
      assert DottedAt(s, k - 1);
      assert IsWordChar(s[k - 1]);
      DottedPrefix(s, k);
      DottedIsChain(s[..k]);
      assert IsWordRun(s[n - 1..]);
      assert s[k..][1..] == s[n - 1..] || s[k..] == s[n - 1..];
      assert IsPiece(s[k..]);
    }
  }

  /** A prefix of a dotted string that ends in a word character is dotted. */
  lemma DottedPrefix(s: string, k: nat)
    requires IsDotted(s) && 0 < k <= |s| && IsWordChar(s[k - 1])
    ensures IsDotted(s[..k])
  {
    forall i | 0 <= i < k
      ensures DottedAt(s[..k], i)
    {
      assert DottedAt(s, i);
    }
  }

  /** A dotted string followed by a run of top-level labels is dotted. */
  lemma {:induction false} DottedThenTldRun(p: string, t: string)
    requires IsDotted(p) && IsTldRun(t)
    ensures IsDotted(p + t)
    decreases |t|
  {
    if IsTld(t) {
      DottedThenTld(p, t);
    } else {
      var k :| 0 < k < |t| && IsTldRun(t[..k]) && IsTld(t[k..]);
      var a, b := t[..k], t[k..];
      assert (p + a) + b == p + t;
      DottedThenTldRun(p, a);
      DottedThenTld(p + a, b);
    }
  }

  /** A dotted string followed by one top-level label is dotted. */
  lemma DottedThenTld(p: string, t: string)
    requires IsDotted(p) && IsTld(t)
    ensures IsDotted(p + t)
  {
    assert IsPiece(t);
    DottedThenPiece(p, t);
  }

  /** A dotted string followed by one top-level label has the domain shape. */
  lemma DottedThenTldShape(p: string, t: string)
    requires IsDotted(p) && IsTld(t)
    ensures EndsInTld(p + t, 2) || EndsInTld(p + t, 3)
  {
    var s := p + t;
    var m := |t| - 1;
    assert s[..|s| - m - 1] == p;
    assert s[|s| - m..] == t[1..];
    assert EndsInTld(s, m);
  }

  /** A dotted string followed by a run of top-level labels has the domain shape. */
  lemma {:induction false} DottedThenTldRunShape(p: string, t: string)
    requires IsDotted(p) && IsTldRun(t)
    ensures EndsInTld(p + t, 2) || EndsInTld(p + t, 3)
  {
    if IsTld(t) {
      DottedThenTldShape(p, t);
    } else {
      var k :| 0 < k < |t| && IsTldRun(t[..k]) && IsTld(t[k..]);
      var p', t' := p + t[..k], t[k..];
      assert p' + t' == p + t;
      DottedThenTldRun(p, t[..k]);
      DottedThenTldShape(p', t');
    }
  }

  /** A domain the pattern matches has the domain shape. */
  lemma DomainHasShape(s: string)
    requires IsDomain(s)
    ensures EndsInTld(s, 2) || EndsInTld(s, 3)
  {
    var k :| 0 < k < |s| && IsChain(s[..k]) && IsTldRun(s[k..]);
    ChainIsDotted(s[..k]);
    DottedThenTldRunShape(s[..k], s[k..]);
    assert s[..k] + s[k..] == s;
  }

  /** A string of the domain shape is a domain the pattern matches. */
  lemma ShapeIsDomain(s: string, m: nat)
    requires EndsInTld(s, m) && 2 <= m <= 3
    ensures IsDomain(s)
  {
    var k := |s| - m - 1;
    DottedIsChain(s[..k]);
    assert s[k..][1..] == s[|s| - m..];
    assert IsTld(s[k..]);
    assert IsChain(s[..k]) && IsTldRun(s[k..]);
  }

  /** An '@' right after a dotted prefix is the first '@'. */
  lemma AtAfterDotted(s: string, i: nat)
    requires i < |s| && s[i] == '@' && IsDotted(s[..i])
    ensures Strings.IndexOf(s, '@') == i
  {
    forall j | 0 <= j < i
      ensures s[j] != '@'
    {
      assert DottedAt(s[..i], j);
      assert s[..i][j] == s[j];
    }
  }

  /** Whatever the pattern matches, the recogniser accepts. */
  lemma RegexImpliesAccepted(s: string)
    requires MatchesEmailRegex(s)
    ensures AcceptsEmail(s)
  {
    var i :| 0 <= i < |s| && s[i] == '@' && IsChain(s[..i]) && IsDomain(s[i + 1..]);
    ChainIsDotted(s[..i]);
    AtAfterDotted(s, i);
    DomainHasShape(s[i + 1..]);
  }

  /** Whatever the recogniser accepts, the pattern matches. */
  lemma AcceptedImpliesRegex(s: string)
    requires AcceptsEmail(s)
    ensures MatchesEmailRegex(s)
  {
    var at := Strings.IndexOf(s, '@');
    DottedIsChain(s[..at]);
    ShapeIsDomain(s[at + 1..], if EndsInTld(s[at + 1..], 2) then 2 else 3);
    assert s[at] == '@' && IsChain(s[..at]) && IsDomain(s[at + 1..]);
  }

  /** The recogniser accepts exactly the strings the pattern matches. */
  lemma AcceptsEmailIffRegex(s: string)
    ensures AcceptsEmail(s) <==> MatchesEmailRegex(s)
  {
    if MatchesEmailRegex(s) {
      RegexImpliesAccepted(s);
    }
    if AcceptsEmail(s) {
      AcceptedImpliesRegex(s);
    }
  }
}
