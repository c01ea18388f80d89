/** Python's `str.strip()` with no argument: removes leading and trailing
    whitespace, where whitespace is what `str.isspace()` accepts. */
module Text {

  /** The code points for which Python's `str.isspace()` holds. */
  const Spaces: set<char> := {'\t', '\n', '\U{B}', '\U{C}', '\r', '\U{1C}', '\U{1D}', '\U{1E}', '\U{1F}', ' ', '\U{85}', '\U{A0}', '\U{1680}', '\U{2000}', '\U{2001}', '\U{2002}', '\U{2003}', '\U{2004}', '\U{2005}', '\U{2006}', '\U{2007}', '\U{2008}', '\U{2009}', '\U{200A}', '\U{2028}', '\U{2029}', '\U{202F}', '\U{205F}', '\U{3000}'}
  predicate IsSpace(c: char) {
    c in Spaces
  }

  /** True when every character of `s` is whitespace. */
  predicate AllSpace(s: string) {
    forall i :: 0 <= i < |s| ==> IsSpace(s[i])
  }

  /** `s` with its leading whitespace removed. */
  function TrimStart(s: string): string {
    if s != [] && IsSpace(s[0]) then TrimStart(s[1..]) else s
  }

  /** `s` with its trailing whitespace removed. */
  function TrimEnd(s: string): string {
    if s != [] && IsSpace(s[|s| - 1]) then TrimEnd(s[..|s| - 1]) else s
  }

  /** Python's `s.strip()`. Its properties are stated by StripSpec and
      StripSurrounded rather than as postconditions, so that proofs about
      the converter do not unfold them. */
  function Strip(s: string): string {
    TrimEnd(TrimStart(s))
  }

  /** TrimStart yields a suffix of `s` that does not start with whitespace,
      and what it drops is all whitespace. */
  lemma {:induction false} TrimStartSpec(s: string)
    ensures var r := TrimStart(s);
      && |r| <= |s| && r == s[|s| - |r|..]
      && AllSpace(s[..|s| - |r|])
      && (r != [] ==> !IsSpace(r[0]))
  {
    if s != [] && IsSpace(s[0]) {
      TrimStartSpec(s[1..]);
      var r := TrimStart(s[1..]);
      assert s[..|s| - |r|] == [s[0]] + s[1..][..|s| - 1 - |r|];
    }
  }

  /** TrimEnd yields a prefix of `s` that does not end with whitespace, and
      what it drops is all whitespace. */
  lemma {:induction false} TrimEndSpec(s: string)
    ensures var r := TrimEnd(s);
      && |r| <= |s| && r == s[..|r|]
      && AllSpace(s[|r|..])
      && (r != [] ==> !IsSpace(r[|r| - 1]))
  {
    if s != [] && IsSpace(s[|s| - 1]) {
      TrimEndSpec(s[..|s| - 1]);
      var r := TrimEnd(s[..|s| - 1]);
      assert s[|r|..] == s[..|s| - 1][|r|..] + [s[|s| - 1]];
    }
  }

  /** The stripped text is empty exactly when `s` is all whitespace, and
      otherwise neither starts nor ends with whitespace. */
  lemma StripSpec(s: string)
    ensures |Strip(s)| <= |s|
    ensures Strip(s) == [] <==> AllSpace(s)
    ensures Strip(s) != [] ==> !IsSpace(Strip(s)[0]) && !IsSpace(Strip(s)[|Strip(s)| - 1])
  {
    var t := TrimStart(s);
    var r := TrimEnd(t);
    TrimStartSpec(s);
    TrimEndSpec(t);
    assert s == s[..|s| - |t|] + t;
    if r == [] {
      assert t == t[|r|..];
      assert t == [];
      forall i | 0 <= i < |s| ensures IsSpace(s[i]) {
        assert s[i] == s[..|s| - |t|][i];
      }
    }
    if r != [] {
      assert r[0] == t[0];
    }
  }

  /** Removing leading whitespace in front of a text that does not start
      with whitespace yields that text. */
  lemma {:induction false} TrimStartSpaces(p: string, m: string)
    requires AllSpace(p)
    requires m != [] ==> !IsSpace(m[0])
    ensures TrimStart(p + m) == m
    decreases |p|
  {
    if p == [] {
      assert p + m == m;
      if m != [] {
        assert !IsSpace((p + m)[0]);
      }
    } else {
      assert (p + m)[0] == p[0];
      assert (p + m)[1..] == p[1..] + m;
      TrimStartSpaces(p[1..], m);
    }
  }

  /** Removing trailing whitespace behind a text that does not end with
      whitespace yields that text. */
  lemma {:induction false} TrimEndSpaces(m: string, q: string)
    requires AllSpace(q)
    requires m != [] ==> !IsSpace(m[|m| - 1])
    ensures TrimEnd(m + q) == m
    decreases |q|
  {
    if q == [] {
      assert m + q == m;
    } else {
      var n := |m + q|;
      assert (m + q)[n - 1] == q[|q| - 1];
      assert (m + q)[..n - 1] == m + q[..|q| - 1];
      TrimEndSpaces(m, q[..|q| - 1]);
    }
  }

  /** Strip is determined by its characterisation: whatever whitespace
      surrounds a text that neither starts nor ends with whitespace is
      removed, and nothing else is. */
  lemma StripSurrounded(p: string, m: string, q: string)
    requires AllSpace(p) && AllSpace(q)
    requires m != [] ==> !IsSpace(m[0]) && !IsSpace(m[|m| - 1])
    ensures Strip(p + m + q) == m
  {
    assert p + m + q == p + (m + q);
    if m == [] {
      StripSpec(p + q);
      assert p + m + q == p + q;
      assert AllSpace(p + q) by {
        forall i | 0 <= i < |p + q| ensures IsSpace((p + q)[i]) {
          if i < |p| { assert (p + q)[i] == p[i]; } else { assert (p + q)[i] == q[i - |p|]; }
        }
      }
    } else {
      assert (m + q)[0] == m[0];
      TrimStartSpaces(p, m + q);
      TrimEndSpaces(m, q);
    }
  }
}
