/**
 * Python's `str.strip()` with no argument, which the reconciler applies to
 * both the rendered and the persisted configuration before comparing them,
 * and the newline translation of a text-mode file read.
 */
module Text {

  /**
   * Python's `str.isspace` for one character: the characters of bidirectional
   * class WS, B or S, and those of general category Zs.
   */
  predicate IsSpace(c: char)
  {
    || c == ' ' || c == '\t' || c == '\n' || c == '\r'
    || c == '\U{B}' || c == '\U{C}'
    || ('\U{1C}' <= c <= '\U{1F}')
    || c == '\U{85}' || c == '\U{A0}' || c == '\U{1680}'
    || ('\U{2000}' <= c <= '\U{200A}')
    || c == '\U{2028}' || c == '\U{2029}' || c == '\U{202F}' || c == '\U{205F}'
    || c == '\U{3000}'
  }

  predicate AllSpace(s: string)
  {
    forall i :: 0 <= i < |s| ==> IsSpace(s[i])
  }

  /** Neither end of `s` is whitespace: what `strip()` leaves. */
  predicate Stripped(s: string)
  {
    s == [] || (!IsSpace(s[0]) && !IsSpace(s[|s| - 1]))
  }

  /** `str.lstrip()`: the longest suffix of `s` that does not start with whitespace. */
  function StripLeading(s: string): (r: string)
    ensures r == [] || !IsSpace(r[0])
  {
    if s != [] && IsSpace(s[0]) then StripLeading(s[1..]) else s
  }

  /** `str.rstrip()`: the longest prefix of `s` that does not end with whitespace. */
  function StripTrailing(s: string): (r: string)
    ensures |r| <= |s| && r == s[..|r|]
    ensures r == [] || !IsSpace(r[|r| - 1])
  {
    if s != [] && IsSpace(s[|s| - 1]) then StripTrailing(s[..|s| - 1]) else s
  }

  /**
   * `str.strip()`: `s` with its leading and trailing whitespace removed; the
   * result is a slice of `s` with nothing but whitespace around it.
   */
  function Strip(s: string): (r: string)
    ensures Stripped(r)
  {
    StripTrailing(StripLeading(s))
  }

  /** `lstrip()` removes whitespace only: it returns a suffix after an all-whitespace prefix. */
  lemma {:induction false} StripLeadingSuffix(s: string)
    ensures |StripLeading(s)| <= |s|
    ensures StripLeading(s) == s[|s| - |StripLeading(s)|..]
    ensures AllSpace(s[..|s| - |StripLeading(s)|])
    decreases |s|
  {
    if s != [] && IsSpace(s[0]) {
      StripLeadingSuffix(s[1..]);
      var k := |s| - |StripLeading(s)|;
      assert s[..k] == [s[0]] + s[1..][..k - 1];
    }
  }

  /** `rstrip()` removes whitespace only: it returns a prefix before an all-whitespace suffix. */
  lemma {:induction false} StripTrailingPrefix(s: string)
    ensures AllSpace(s[|StripTrailing(s)|..])
    decreases |s|
  {
    if s != [] && IsSpace(s[|s| - 1]) {
      var init := s[..|s| - 1];
      StripTrailingPrefix(init);
      var k := |StripTrailing(s)|;
      assert s[k..] == init[k..] + [s[|s| - 1]];
    }
  }

  /** What `strip()` returns is a slice of its input with only whitespace around it. */
  lemma StripSlice(s: string) returns (i: nat)
    ensures i + |Strip(s)| <= |s| && Strip(s) == s[i..i + |Strip(s)|]
    ensures AllSpace(s[..i]) && AllSpace(s[i + |Strip(s)|..])
  {
    var l := StripLeading(s);
    var r := StripTrailing(l);
    StripLeadingSuffix(s);
    StripTrailingPrefix(l);
    i := |s| - |l|;
    assert s[i + |r|..] == l[|r|..];
  }

  /** Leading whitespace is skipped up to the first other character. */
  lemma {:induction false} StripLeadingSkips(a: string, u: string)
    requires AllSpace(a)
    requires u == [] || !IsSpace(u[0])
    ensures StripLeading(a + u) == u
    decreases |a|
  {
    if a != [] {
      assert (a + u)[1..] == a[1..] + u;
      StripLeadingSkips(a[1..], u);
    }
  }

  /** Trailing whitespace is dropped back to the last other character. */
  lemma {:induction false} StripTrailingSkips(u: string, b: string)
    requires AllSpace(b)
    requires u == [] || !IsSpace(u[|u| - 1])
    ensures StripTrailing(u + b) == u
    decreases |b|
  {
    if b != [] {
      assert (u + b)[..|u + b| - 1] == u + b[..|b| - 1];
      StripTrailingSkips(u, b[..|b| - 1]);
    }
  }

  /**
   * `strip()` is characterised by its result: whatever whitespace surrounds a
   * stripped text, stripping gives back exactly that text.
   */
  lemma StripUnique(a: string, t: string, b: string)
    requires AllSpace(a) && AllSpace(b) && Stripped(t)
    ensures Strip(a + t + b) == t
  {
    if t == [] {
      assert a + t + b == (a + b) + [];
      assert AllSpace(a + b);
      StripLeadingSkips(a + b, []);
    } else {
      assert a + t + b == a + (t + b);
      StripLeadingSkips(a, t + b);
      StripTrailingSkips(t, b);
    }
  }

  /** A stripped text is its own `strip()`. */
  lemma StripStripped(t: string)
    requires Stripped(t)
    ensures Strip(t) == t
  {
    assert [] + t + [] == t;
    StripUnique([], t, []);
  }

  /** Stripping twice is stripping once. */
  lemma StripIdempotent(s: string)
    ensures Strip(Strip(s)) == Strip(s)
  {
    StripStripped(Strip(s));
  }

  /**
   * What a text-mode read (`Path.read_text`, universal newlines) returns for
   * the characters on disk: "\r\n" and a lone "\r" each become "\n".
   */
  function UniversalNewlines(s: string): (r: string)
    ensures '\r' !in r
    ensures '\r' !in s ==> r == s
    decreases |s|
  {
    if s == [] then []
    else if s[0] == '\r' then ['\n'] + UniversalNewlines(if |s| > 1 && s[1] == '\n' then s[2..] else s[1..])
    else [s[0]] + UniversalNewlines(s[1..])
  }

  /** `strip()` only removes characters, so it adds no carriage return. */
  lemma StripKeepsNoCarriageReturn(s: string)
    requires '\r' !in s
    ensures '\r' !in Strip(s)
  {
    var i := StripSlice(s);
  }
}
