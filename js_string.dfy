/**
 * `String.prototype.trim` of JavaScript, which every rule of the nickname
 * classifier applies before it looks at the string. A Dafny `char` is one
 * Unicode scalar value; every white-space character `trim` removes is a single
 * UTF-16 code unit, so it is one `char` here as well.
 */
module JsString {

  /** WhiteSpace and LineTerminator code points, the set that `trim` removes. */
  predicate IsWhiteSpace(c: char)
  {
    || c == '\t' || c == '\n' || c == '\U{000B}' || c == '\U{000C}' || c == '\r'
    || c == ' ' || c == '\U{00A0}' || c == '\U{1680}'
    || ('\U{2000}' <= c <= '\U{200A}')
    || c == '\U{2028}' || c == '\U{2029}' || c == '\U{202F}' || c == '\U{205F}'
    || c == '\U{3000}' || c == '\U{FEFF}'
  }

  predicate AllWhiteSpace(s: string)
  {
    forall k :: 0 <= k < |s| ==> IsWhiteSpace(s[k])
  }

  /** Drops the leading white space. */
  function TrimStart(s: string): string
  {
    if |s| > 0 && IsWhiteSpace(s[0]) then TrimStart(s[1..]) else s
  }

  /** Drops the trailing white space. */
  function TrimEnd(s: string): string
  {
    if |s| > 0 && IsWhiteSpace(s[|s| - 1]) then TrimEnd(s[..|s| - 1]) else s
  }

  /** What `TrimStart` keeps is a suffix of `s` that does not start with white
      space, and what it drops is all white space. */
  lemma {:induction false} TrimStartFacts(s: string)
    ensures |TrimStart(s)| <= |s| && TrimStart(s) == s[|s| - |TrimStart(s)|..]
    ensures TrimStart(s) == [] || !IsWhiteSpace(TrimStart(s)[0])
    ensures AllWhiteSpace(s[..|s| - |TrimStart(s)|])
    decreases |s|
  {
    if |s| > 0 && IsWhiteSpace(s[0]) {
      var r := TrimStart(s[1..]);
      TrimStartFacts(s[1..]);
      assert s[1..][|s| - 1 - |r|..] == s[|s| - |r|..];
      forall k | 0 <= k < |s| - |r|
        ensures IsWhiteSpace(s[k])
      {
        if k > 0 {
          assert s[k] == s[1..][..|s| - 1 - |r|][k - 1];
        }
      }
    }
  }

  /** What `TrimEnd` keeps is a prefix of `s` that does not end with white
      space, and what it drops is all white space. */
  lemma {:induction false} TrimEndFacts(s: string)
    ensures |TrimEnd(s)| <= |s| && TrimEnd(s) == s[..|TrimEnd(s)|]
    ensures TrimEnd(s) == [] || !IsWhiteSpace(TrimEnd(s)[|TrimEnd(s)| - 1])
    ensures AllWhiteSpace(s[|TrimEnd(s)|..])
    decreases |s|
  {
    if |s| > 0 && IsWhiteSpace(s[|s| - 1]) {
      var init := s[..|s| - 1];
      var r := TrimEnd(init);
      TrimEndFacts(init);
      assert init[..|r|] == s[..|r|];
      forall k | |r| <= k < |s|
        ensures IsWhiteSpace(s[k])
      {
        if k < |s| - 1 {
          assert s[k] == init[|r|..][k - |r|];
        }
      }
    }
  }

  /** `s.trim()`: neither end of the result is white space, and the result is
      empty exactly when `s` is nothing but white space. */
  function Trim(s: string): (r: string)
    ensures |r| <= |s|
    ensures r == [] || (!IsWhiteSpace(r[0]) && !IsWhiteSpace(r[|r| - 1]))
    ensures r == [] <==> AllWhiteSpace(s)
  {
    TrimStartFacts(s);
    var t := TrimStart(s);
    TrimEndFacts(t);
    var r := TrimEnd(t);
    assert r != [] ==> r[0] == t[0];
    assert r == [] ==> t == [];
    assert r == [] ==> AllWhiteSpace(s) by {
      if r == [] {
        assert s[..|s|] == s;
      }
    }
    r
  }

  /** A string that neither starts nor ends with white space is its own trim. */
  lemma TrimKeepsTrimmed(s: string)
    requires s == [] || (!IsWhiteSpace(s[0]) && !IsWhiteSpace(s[|s| - 1]))
    ensures Trim(s) == s
  {
    assert TrimStart(s) == s;
  }

  /** Padding a trimmed string with white space on either side is undone by
      `trim`: exactly the padding goes. */
  lemma TrimRemovesPadding(a: string, t: string, b: string)
    requires AllWhiteSpace(a) && AllWhiteSpace(b)
    requires t != [] && !IsWhiteSpace(t[0]) && !IsWhiteSpace(t[|t| - 1])
    ensures Trim(a + t + b) == t
  {
    assert a + t + b == a + (t + b);
    TrimStartSkips(a, t + b);
    assert TrimStart(t + b) == t + b;
    TrimEndSkips(t, b);
    assert TrimEnd(t) == t;
  }

  /** Leading white space makes no difference to what `TrimStart` keeps. */
  lemma {:induction false} TrimStartSkips(a: string, x: string)
    requires AllWhiteSpace(a)
    ensures TrimStart(a + x) == TrimStart(x)
    decreases |a|
  {
    if a == [] {
      assert a + x == x;
    } else {
      assert (a + x)[0] == a[0];
      assert (a + x)[1..] == a[1..] + x;
      TrimStartSkips(a[1..], x);
    }
  }

  /** Trailing white space makes no difference to what `TrimEnd` keeps. */
  lemma {:induction false} TrimEndSkips(x: string, b: string)
    requires AllWhiteSpace(b)
    ensures TrimEnd(x + b) == TrimEnd(x)
    decreases |b|
  {
    if b == [] {
      assert x + b == x;
    } else {
      assert (x + b)[|x + b| - 1] == b[|b| - 1];
      assert (x + b)[..|x + b| - 1] == x + b[..|b| - 1];
      TrimEndSkips(x, b[..|b| - 1]);
    }
  }

  /** Trimming twice is trimming once. */
  lemma TrimIdempotent(s: string)
    ensures Trim(Trim(s)) == Trim(s)
  {
    TrimKeepsTrimmed(Trim(s));
  }
}
