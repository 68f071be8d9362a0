/** The JavaScript string operations the client relies on: `trim`, `startsWith`
    and `substring`, on strings of Unicode characters. */
module Text {

  /** The characters `String.prototype.trim` removes: the ECMAScript WhiteSpace
      code points (tab, vertical tab, form feed, space, no-break space, the byte
      order mark and the Unicode space separators) and the LineTerminator code
      points (line feed, carriage return, line and paragraph separators). The
      lemmas of this module hold for any choice of these characters; the
      client's lemmas use only that `@` and `i` are not among them. */
  predicate IsWhitespace(c: char)
  {
    c == '\t' || c == '\n' || c == '\U{000B}' || c == '\U{000C}' || c == '\r' || c == ' '
    || c == '\U{00A0}' || c == '\U{1680}' || ('\U{2000}' <= c <= '\U{200A}')
    || c == '\U{2028}' || c == '\U{2029}' || c == '\U{202F}' || c == '\U{205F}'
    || c == '\U{3000}' || c == '\U{FEFF}'
  }

  predicate AllWhitespace(s: string)
  {
    forall i :: 0 <= i < |s| ==> IsWhitespace(s[i])
  }

  /** Neither end of `s` is whitespace: what `trim` leaves. */
  predicate Trimmed(s: string)
  {
    s == [] || (!IsWhitespace(s[0]) && !IsWhitespace(s[|s| - 1]))
  }

  /** `s` with its leading whitespace removed. */
  function TrimStart(s: string): (r: string)
    ensures |r| <= |s| && r == s[|s| - |r|..]
    ensures AllWhitespace(s[..|s| - |r|])
    ensures r == [] || !IsWhitespace(r[0])
    decreases |s|
  {
    if |s| > 0 && IsWhitespace(s[0]) then
      var r := TrimStart(s[1..]);
      assert s[1..][|s| - 1 - |r|..] == s[|s| - |r|..];
      assert s[..|s| - |r|] == [s[0]] + s[1..][..|s| - 1 - |r|];
      r
    else s
  }

  /** `s` with its trailing whitespace removed. */
  function TrimEnd(s: string): (r: string)
    ensures |r| <= |s| && r == s[..|r|]
    ensures AllWhitespace(s[|r|..])
    ensures r == [] || !IsWhitespace(r[|r| - 1])
    decreases |s|
  {
    if |s| > 0 && IsWhitespace(s[|s| - 1]) then
      var r := TrimEnd(s[..|s| - 1]);
      assert s[..|s| - 1][..|r|] == s[..|r|];
      assert s[|r|..] == s[..|s| - 1][|r|..] + [s[|s| - 1]];
      r
    else s
  }

  /** `s.trim()`. */
  function Trim(s: string): (r: string)
    ensures Trimmed(r)
    ensures r == [] <==> AllWhitespace(s)
  {
    TrimEnd(TrimStart(s))
  }

  /** `s.startsWith(p)`. */
  predicate StartsWith(s: string, p: string)
  {
    |p| <= |s| && s[..|p|] == p
  }

  /** `startsWith` holds exactly of the strings that are the prefix followed
      by something: every `p + t` starts with `p`, and a string that starts
      with `p` is `p` followed by the rest. */
  lemma StartsWithConcat(s: string, p: string, t: string)
    ensures StartsWith(p + t, p)
    ensures StartsWith(s, p) ==> s == p + s[|p|..]
  {
    assert (p + t)[..|p|] == p;
    if StartsWith(s, p) {
      assert s == s[..|p|] + s[|p|..];
    }
  }

  /** `s.substring(n)` for a non-negative start: a start past the end is
      clamped to the length, giving the empty string. */
  function Substring(s: string, n: nat): (r: string)
    ensures n <= |s| ==> s == s[..n] + r
    ensures n >= |s| ==> r == []
  {
    if n <= |s| then s[n..] else []
  }

  lemma {:induction false} TrimStartOfWhitespacePrefix(w: string, x: string)
    requires AllWhitespace(w)
    ensures TrimStart(w + x) == TrimStart(x)
    decreases |w|
  {
    if w != [] {
      assert (w + x)[1..] == w[1..] + x;
      TrimStartOfWhitespacePrefix(w[1..], x);
    } else {
      assert w + x == x;
    }
  }

  lemma {:induction false} TrimEndOfWhitespaceSuffix(x: string, w: string)
    requires AllWhitespace(w)
    ensures TrimEnd(x + w) == TrimEnd(x)
    decreases |w|
  {
    if w != [] {
      assert (x + w)[..|x + w| - 1] == x + w[..|w| - 1];
      TrimEndOfWhitespaceSuffix(x, w[..|w| - 1]);
    } else {
      assert x + w == x;
    }
  }

  /** Trailing whitespace removal does not reach past a non-whitespace character. */
  lemma {:induction false} TrimEndKeepsPrefix(p: string, x: string)
    requires p != [] && !IsWhitespace(p[|p| - 1])
    ensures TrimEnd(p + x) == p + TrimEnd(x)
    decreases |x|
  {
    if x != [] && IsWhitespace(x[|x| - 1]) {
      assert (p + x)[..|p + x| - 1] == p + x[..|x| - 1];
      TrimEndKeepsPrefix(p, x[..|x| - 1]);
    } else if x == [] {
      assert p + x == p;
    }
  }

  /** The trimmed string is determined by the decomposition
      whitespace + core + whitespace whenever the core has no whitespace at
      either end: `trim` is exactly "strip both whitespace margins". */
  lemma {:induction false} TrimOfPadded(lead: string, core: string, trail: string)
    requires AllWhitespace(lead) && AllWhitespace(trail) && Trimmed(core)
    ensures Trim(lead + core + trail) == core
  {
    var x := core + trail;
    assert lead + core + trail == lead + x;
    TrimStartOfWhitespacePrefix(lead, x);
    if core == [] {
      assert x == trail + [];
      TrimStartOfWhitespacePrefix(trail, []);
    } else {
      assert x[0] == core[0];
      assert TrimStart(x) == x;
      TrimEndOfWhitespaceSuffix(core, trail);
      assert TrimEnd(core) == core;
    }
  }

  /** Trimming twice is trimming once. */
  lemma TrimIdempotent(s: string)
    ensures Trim(Trim(s)) == Trim(s)
  {
    var t := Trim(s);
    if t != [] {
      assert TrimStart(t) == t;
      assert TrimEnd(t) == t;
    }
  }

  /** Leading-whitespace removal from a string with some non-whitespace
      character never reaches what follows it. */
  lemma {:induction false} TrimStartOfAppend(x: string, w: string)
    requires !AllWhitespace(x)
    ensures TrimStart(x + w) == TrimStart(x) + w
    decreases |x|
  {
    assert x != [];
    assert (x + w)[0] == x[0];
    if IsWhitespace(x[0]) {
      assert !AllWhitespace(x[1..]) by {
        var i :| 0 <= i < |x| && !IsWhitespace(x[i]);
        assert x[1..][i - 1] == x[i];
      }
      assert (x + w)[1..] == x[1..] + w;
      TrimStartOfAppend(x[1..], w);
    }
  }

  /** Trailing whitespace never changes the trimmed result. */
  lemma TrimIgnoresTrailingWhitespace(x: string, w: string)
    requires AllWhitespace(w)
    ensures Trim(x + w) == Trim(x)
  {
    if AllWhitespace(x) {
      assert AllWhitespace(x + w) by {
        forall i | 0 <= i < |x + w|
          ensures IsWhitespace((x + w)[i])
        {
          if i >= |x| {
            assert (x + w)[i] == w[i - |x|];
          }
        }
      }
    } else {
      TrimStartOfAppend(x, w);
      TrimEndOfWhitespaceSuffix(TrimStart(x), w);
    }
  }

  /** A string that starts with a non-whitespace character, padded on both
      sides, trims to itself less its trailing whitespace. */
  lemma TrimOfPaddedStart(lead: string, x: string, trail: string)
    requires AllWhitespace(lead) && AllWhitespace(trail)
    requires x != [] && !IsWhitespace(x[0])
    ensures Trim(lead + x + trail) == TrimEnd(x)
  {
    TrimIgnoresTrailingWhitespace(lead + x, trail);
    TrimStartOfWhitespacePrefix(lead, x);
    assert TrimStart(x) == x;
  }

  /** Removing trailing whitespace first does not change the trimmed result. */
  lemma TrimAfterTrimEnd(s: string)
    ensures Trim(TrimEnd(s)) == Trim(s)
  {
    var t := TrimEnd(s);
    var w := s[|t|..];
    assert s == t + w by {
      assert t == s[..|t|];
    }
    TrimIgnoresTrailingWhitespace(t, w);
  }
}
