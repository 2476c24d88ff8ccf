/** The handful of Python string operations the backend applies to model output:
    `in` (substring test), `str.replace`, `str.strip()` and `str.upper()`. */
module PyStr {

  /** Python's `str.isspace()` for one character: the ASCII controls TAB to CR, the
      separators U+001C to U+001F, SPACE, NEL, NO-BREAK SPACE and the Unicode spaces. */
  predicate IsSpace(c: char) {
    var n := c as int;
    (9 <= n <= 13) || (28 <= n <= 32) || n == 0x85 || n == 0xA0 || n == 0x1680
    || (0x2000 <= n <= 0x200A) || n == 0x2028 || n == 0x2029 || n == 0x202F
    || n == 0x205F || n == 0x3000
  }

  predicate AllSpace(s: string) {
    forall i :: 0 <= i < |s| ==> IsSpace(s[i])
  }

  predicate StartsWith(s: string, prefix: string) {
    |prefix| <= |s| && s[..|prefix|] == prefix
  }

  /** Python's `sub in s`: some position of `s` starts an occurrence of `sub`. */
  predicate Contains(s: string, sub: string)
    decreases |s|
  {
    StartsWith(s, sub) || (s != [] && Contains(s[1..], sub))
  }

  /** `sub` occurs in `s` starting at index `i`. */
  predicate OccursAt(s: string, i: int, sub: string) {
    0 <= i <= |s| - |sub| && s[i..i + |sub|] == sub
  }

  /** `Contains` agrees with the index-based definition of an occurrence. */
  lemma {:induction false} ContainsIff(s: string, sub: string)
    ensures Contains(s, sub) <==> exists i :: OccursAt(s, i, sub)
    decreases |s|
  {
    if StartsWith(s, sub) {
      assert OccursAt(s, 0, sub);
    } else if s == [] {
    } else {
      ContainsIff(s[1..], sub);
      if Contains(s[1..], sub) {
        var j :| OccursAt(s[1..], j, sub);
        assert s[j + 1..j + 1 + |sub|] == s[1..][j..j + |sub|];
        assert OccursAt(s, j + 1, sub);
      }
      if i :| OccursAt(s, i, sub) {
        assert i != 0;
        assert s[1..][i - 1..i - 1 + |sub|] == s[i..i + |sub|];
        assert OccursAt(s[1..], i - 1, sub);
      }
    }
  }

  /** An occurrence inside a slice of `s` is an occurrence in `s`. */
  lemma ContainsInSlice(s: string, lo: int, hi: int, sub: string)
    requires 0 <= lo <= hi <= |s|
    requires Contains(s[lo..hi], sub)
    ensures Contains(s, sub)
  {
    ContainsIff(s[lo..hi], sub);
    var i :| OccursAt(s[lo..hi], i, sub);
    forall j | 0 <= j < |sub| ensures s[lo + i..lo + i + |sub|][j] == sub[j] {
      assert s[lo..hi][i..i + |sub|][j] == sub[j];
    }
    assert OccursAt(s, lo + i, sub);
    ContainsIff(s, sub);
  }

  /** Wherever a pattern occurs, so does each of its prefixes. */
  lemma ContainsPrefix(s: string, sub: string, pre: string)
    requires StartsWith(sub, pre)
    requires Contains(s, sub)
    ensures Contains(s, pre)
  {
    ContainsIff(s, sub);
    var i :| OccursAt(s, i, sub);
    forall j | 0 <= j < |pre| ensures s[i..i + |pre|][j] == pre[j] {
      assert s[i..i + |sub|][j] == sub[j];
      assert sub[..|pre|][j] == sub[j];
    }
    assert OccursAt(s, i, pre);
    ContainsIff(s, pre);
  }

  /** Python's `s.replace(pat, rep)` for a non-empty `pat`: occurrences are replaced left to
      right, and an occurrence that was replaced is not searched again. */
  function Replace(s: string, pat: string, rep: string): (r: string)
    requires pat != []
    ensures rep == [] ==> |r| <= |s|
    decreases |s|
  {
    if StartsWith(s, pat) then rep + Replace(s[|pat|..], pat, rep)
    else if s == [] then []
    else [s[0]] + Replace(s[1..], pat, rep)
  }

  /** Text in which the pattern does not occur comes back unchanged. */
  lemma {:induction false} ReplaceAbsent(s: string, pat: string, rep: string)
    requires pat != [] && !Contains(s, pat)
    ensures Replace(s, pat, rep) == s
    decreases |s|
  {
    if s != [] {
      ReplaceAbsent(s[1..], pat, rep);
    }
  }

  /** Removing every "```" leaves no run of three backticks: a backtick that is kept is never
      the start of a run of three, so it is followed by at most one more kept backtick. */
  lemma {:induction false} RemovingFencesLeavesNone(s: string)
    ensures !Contains(Replace(s, "```", ""), "```")
    decreases |s|
  {
    var r := Replace(s, "```", "");
    if StartsWith(s, "```") {
      RemovingFencesLeavesNone(s[3..]);
      assert r == Replace(s[3..], "```", "");
    } else if s == [] {
    } else {
      var tail := Replace(s[1..], "```", "");
      RemovingFencesLeavesNone(s[1..]);
      assert r == [s[0]] + tail && r[1..] == tail;
      if s[0] == '`' && |s| >= 2 && s[1] == '`' {
        // here s[2] is missing or not a backtick, so the kept text goes on with a non-backtick
        assert !StartsWith(s[1..], "```");
        assert tail == [s[1]] + Replace(s[2..], "```", "");
        assert |s| == 2 || s[2] != '`';
        if |s| > 2 {
          assert !StartsWith(s[2..], "```");
          assert Replace(s[2..], "```", "")[0] == s[2];
        }
        assert !StartsWith(r, "```");
      } else if s[0] == '`' && |s| >= 2 {
        assert !StartsWith(s[1..], "```");
        assert tail[0] == s[1];
        assert !StartsWith(r, "```");
      }
    }
  }

  /** Python's `str.lstrip()`. */
  function StripStart(s: string): string
    decreases |s|
  {
    if s != [] && IsSpace(s[0]) then StripStart(s[1..]) else s
  }

  /** `StripStart` removes exactly the leading whitespace: what is left is a suffix of `s`
      that does not start with whitespace, and what went was all whitespace. */
  lemma {:induction false} StripStartShape(s: string)
    ensures var r := StripStart(s);
      |r| <= |s| && r == s[|s| - |r|..] && AllSpace(s[..|s| - |r|]) && (r == [] || !IsSpace(r[0]))
    decreases |s|
  {
    if s != [] && IsSpace(s[0]) {
      StripStartShape(s[1..]);
      var r := StripStart(s);
      assert s[1..][..|s| - 1 - |r|] == s[1..|s| - |r|];
    }
  }

  /** Python's `str.rstrip()`. */
  function StripEnd(s: string): string
    decreases |s|
  {
    if s != [] && IsSpace(s[|s| - 1]) then StripEnd(s[..|s| - 1]) else s
  }

  /** `StripEnd` removes exactly the trailing whitespace: what is left is a prefix of `s`
      that does not end with whitespace, and what went was all whitespace. */
  lemma {:induction false} StripEndShape(s: string)
    ensures var r := StripEnd(s);
      |r| <= |s| && r == s[..|r|] && AllSpace(s[|r|..]) && (r == [] || !IsSpace(r[|r| - 1]))
    decreases |s|
  {
    if s != [] && IsSpace(s[|s| - 1]) {
      StripEndShape(s[..|s| - 1]);
      var r := StripEnd(s);
      assert s[..|s| - 1][..|r|] == s[..|r|];
      assert s[..|s| - 1][|r|..] == s[|r|..|s| - 1];
    }
  }

  /** `r` is the slice of `s` that starts at `lo`, and everything around it is whitespace. */
  predicate StrippedAt(s: string, lo: int, r: string) {
    0 <= lo <= |s| - |r| && r == s[lo..lo + |r|] && AllSpace(s[..lo]) && AllSpace(s[lo + |r|..])
  }

  /** Python's `str.strip()` with no argument: a slice of `s` that neither starts nor ends
      with whitespace and is surrounded by whitespace only; empty exactly when `s` is all
      whitespace. */
  function Strip(s: string): (r: string)
    ensures exists lo :: StrippedAt(s, lo, r)
    ensures r == [] || (!IsSpace(r[0]) && !IsSpace(r[|r| - 1]))
    ensures r == [] <==> AllSpace(s)
  {
    var t := StripStart(s);
    var r := StripEnd(t);
    StripStartShape(s);
    StripEndShape(t);
    var lo := |s| - |t|;
    assert s[lo..lo + |r|] == t[..|r|];
    assert s[lo + |r|..] == t[|r|..];
    assert StrippedAt(s, lo, r);
    assert r == [] ==> AllSpace(s) by {
      if r == [] {
        assert t == [] && s[..lo] == s;
      }
    }
    assert r != [] ==> !IsSpace(s[lo]) by {
      if r != [] {
        assert s[lo] == r[0];
      }
    }
    r
  }

  /** Text that neither starts nor ends with whitespace is left alone by `Strip`. */
  lemma StripTrimmed(s: string)
    requires s == [] || (!IsSpace(s[0]) && !IsSpace(s[|s| - 1]))
    ensures Strip(s) == s
  {
  }

  lemma StripIdempotent(s: string)
    ensures Strip(Strip(s)) == Strip(s)
  {
    StripTrimmed(Strip(s));
  }

  /** Stripping keeps a slice of the text, so it cannot create an occurrence. */
  lemma StripKeepsAbsence(s: string, sub: string)
    requires !Contains(s, sub)
    ensures !Contains(Strip(s), sub)
  {
    var r := Strip(s);
    var lo :| StrippedAt(s, lo, r);
    if Contains(r, sub) {
      ContainsInSlice(s, lo, lo + |r|, sub);
    }
  }

  /** Python's `str.upper()` on one character, for the ASCII letters. */
  function UpperChar(c: char): char {
    if 'a' <= c <= 'z' then (c as int - 32) as char else c
  }

  /** Python's `str.upper()`, with the ASCII case mapping: no lower-case letter is left, each
      lower-case letter becomes its capital, and every other character stays as it was. */
  function Upper(s: string): (r: string)
    ensures |r| == |s|
    ensures forall i :: 0 <= i < |r| ==> !('a' <= r[i] <= 'z')
    ensures forall i :: 0 <= i < |s| && 'a' <= s[i] <= 'z' ==> r[i] as int == s[i] as int - 32 && 'A' <= r[i] <= 'Z'
    ensures forall i :: 0 <= i < |s| && !('a' <= s[i] <= 'z') ==> r[i] == s[i]
  {
    seq(|s|, i requires 0 <= i < |s| => UpperChar(s[i]))
  }

  /** Upper-casing text that is already upper case changes nothing. */
  lemma UpperIdempotent(s: string)
    ensures Upper(Upper(s)) == Upper(s)
  {
  }

  /** `c` is the capital ASCII letter `u` in either case. */
  predicate SameLetterIgnoringCase(c: char, u: char) {
    c == u || c as int == u as int + 32
  }

  predicate IsCapitals(w: string) {
    forall k :: 0 <= k < |w| ==> 'A' <= w[k] <= 'Z'
  }

  /** `s` holds, starting at `i`, the capital word `w` written in any mix of cases. */
  predicate MatchesIgnoringCaseAt(s: string, i: int, w: string) {
    0 <= i <= |s| - |w| && forall k :: 0 <= k < |w| ==> SameLetterIgnoringCase(s[i + k], w[k])
  }

  lemma UpperCharIsCapital(c: char, u: char)
    requires 'A' <= u <= 'Z'
    ensures UpperChar(c) == u <==> SameLetterIgnoringCase(c, u)
  {
  }

  /** For a word of capitals, `w in s.upper()` holds exactly when `s` holds `w` in any case. */
  lemma {:induction false} ContainsUpperIff(s: string, w: string)
    requires IsCapitals(w)
    ensures Contains(Upper(s), w) <==> exists i :: MatchesIgnoringCaseAt(s, i, w)
  {
    var u := Upper(s);
    ContainsIff(u, w);
    forall i | 0 <= i <= |s| - |w|
      ensures OccursAt(u, i, w) <==> MatchesIgnoringCaseAt(s, i, w)
    {
      forall k | 0 <= k < |w|
        ensures u[i + k] == w[k] <==> SameLetterIgnoringCase(s[i + k], w[k])
      {
        UpperCharIsCapital(s[i + k], w[k]);
      }
      if u[i..i + |w|] == w {
        forall k | 0 <= k < |w| ensures u[i + k] == w[k] {
          assert u[i..i + |w|][k] == u[i + k];
        }
      }
      if MatchesIgnoringCaseAt(s, i, w) {
        assert forall k :: 0 <= k < |w| ==> u[i..i + |w|][k] == w[k];
      }
    }
  }
}
