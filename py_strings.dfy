/**
 * The Python string and POSIX path operations the script uses:
 * `str.endswith`, `str.replace` (replace every occurrence),
 * `os.path.join` with two arguments and `os.path.basename`.
 */
module PyStrings {

  /** `s.endswith(suffix)`. */
  predicate EndsWith(s: string, suffix: string)
  {
    |suffix| <= |s| && s[|s| - |suffix|..] == suffix
  }

  /** `pat` occurs in `s` starting at index `i`. */
  ghost predicate OccursAt(s: string, pat: string, i: nat)
  {
    i + |pat| <= |s| && s[i..i + |pat|] == pat
  }

  /**
   * `s.replace(pat, rep)`: scans left to right; at each position where `pat`
   * matches, emits `rep` and continues after the match, so the rewritten
   * occurrences never overlap. An empty `pat` inserts `rep` before every
   * character and at the end, as Python does.
   */
  function ReplaceAll(s: string, pat: string, rep: string): string
    decreases |s|
  {
    if pat == [] then rep + (if s == [] then [] else [s[0]] + ReplaceAll(s[1..], pat, rep))
    else if |s| < |pat| then s
    else if s[..|pat|] == pat then rep + ReplaceAll(s[|pat|..], pat, rep)
    else [s[0]] + ReplaceAll(s[1..], pat, rep)
  }

  /** `os.path.join(a, b)` on POSIX. */
  function Join(a: string, b: string): (r: string)
    ensures EndsWith(r, b)
  {
    if |b| > 0 && b[0] == '/' then b
    else if a == [] || a[|a| - 1] == '/' then a + b
    else a + "/" + b
  }

  /** `os.path.basename(p)` on POSIX: the longest suffix of `p` without a slash. */
  function Basename(p: string): (r: string)
    ensures EndsWith(p, r) && '/' !in r
    ensures |r| == |p| || p[|p| - |r| - 1] == '/'
  {
    if p == [] || p[|p| - 1] == '/' then []
    else Basename(p[..|p| - 1]) + [p[|p| - 1]]
  }

  /** The `k`-th character of a suffix sits `|suffix| - k` places from the end. */
  lemma EndsWithAt(s: string, suffix: string, k: nat)
    ensures EndsWith(s, suffix) && k < |suffix| ==> s[|s| - |suffix| + k] == suffix[k]
  {
    if EndsWith(s, suffix) && k < |suffix| {
      assert s[|s| - |suffix|..][k] == s[|s| - |suffix| + k];
    }
  }

  /** Replacing a whole string that is the pattern yields the replacement. */
  lemma ReplaceAllWhole(pat: string, rep: string)
    requires pat != []
    ensures ReplaceAll(pat, pat, rep) == rep
  {
    assert pat[..|pat|] == pat;
    assert pat[|pat|..] == [];
    assert ReplaceAll([], pat, rep) == [];
  }

  /** A string shorter than a non-empty pattern is left as it is. */
  lemma ReplaceAllShort(s: string, pat: string, rep: string)
    requires pat != [] && |s| < |pat|
    ensures ReplaceAll(s, pat, rep) == s
  {
  }

  lemma EndsWithTrans(s: string, t: string, u: string)
    requires EndsWith(s, t) && EndsWith(t, u)
    ensures EndsWith(s, u)
  {
    assert s[|s| - |u|..] == s[|s| - |t|..][|t| - |u|..];
  }

  /** A string with no occurrence of a non-empty pattern is left as it is. */
  lemma {:induction false} ReplaceAllUnchanged(s: string, pat: string, rep: string)
    requires pat != []
    requires forall i: nat :: !OccursAt(s, pat, i)
    ensures ReplaceAll(s, pat, rep) == s
    decreases |s|
  {
    if |s| >= |pat| {
      assert !OccursAt(s, pat, 0);
      forall j: nat ensures !OccursAt(s[1..], pat, j) {
        if j + |pat| <= |s[1..]| {
          assert s[1..][j..j + |pat|] == s[j + 1..j + 1 + |pat|];
          assert !OccursAt(s, pat, j + 1);
        }
      }
      ReplaceAllUnchanged(s[1..], pat, rep);
      assert s == [s[0]] + s[1..];
    }
  }

  /** A pattern containing a character that `s` lacks does not occur in `s`. */
  lemma AbsentByChar(s: string, pat: string, k: nat)
    requires k < |pat| && pat[k] !in s
    ensures forall i: nat :: !OccursAt(s, pat, i)
  {
    forall i: nat ensures !OccursAt(s, pat, i) {
      if i + |pat| <= |s| {
        assert s[i..i + |pat|][k] == s[i + k];
        assert s[i + k] in s;
      }
    }
  }

  /**
   * No occurrence of `pat` in `a + b` starts inside `a` and ends inside `b`
   * when the first character of `b` never appears in `pat` after its first
   * position.
   */
  lemma NoStraddle(a: string, b: string, pat: string)
    requires pat != [] && b != [] && b[0] !in pat[1..]
    ensures NoStraddling(a, b, pat)
  {
    forall i: nat | |a| - |pat| < i < |a| ensures !OccursAt(a + b, pat, i) {
      if i + |pat| <= |a + b| {
        var d := |a| - i;
        assert (a + b)[i..i + |pat|][d] == (a + b)[|a|] == b[0];
        assert pat[1..][d - 1] == pat[d];
        assert pat[d] in pat[1..];
      }
    }
  }

  /** No occurrence of `pat` in `a + b` starts inside `a` and ends inside `b`. */
  ghost predicate NoStraddling(a: string, b: string, pat: string)
  {
    forall i: nat :: |a| - |pat| < i < |a| ==> !OccursAt(a + b, pat, i)
  }

  /** Dropping a prefix of `a` keeps the boundary with `b` free of straddling occurrences. */
  lemma StraddleShift(a: string, b: string, pat: string, k: nat)
    requires k <= |a| && NoStraddling(a, b, pat)
    ensures NoStraddling(a[k..], b, pat)
  {
    var a' := a[k..];
    forall j: nat | |a'| - |pat| < j < |a'| ensures !OccursAt(a' + b, pat, j) {
      if j + |pat| <= |a' + b| {
        assert (a' + b)[j..j + |pat|] == (a + b)[j + k..j + k + |pat|];
        assert !OccursAt(a + b, pat, j + k);
      }
    }
  }

  /**
   * Replacing in a concatenation replaces in each part separately when no
   * occurrence of the pattern straddles the boundary: the left-to-right scan
   * then reaches the boundary exactly.
   */
  lemma {:induction false} ReplaceAllConcat(a: string, b: string, pat: string, rep: string)
    requires pat != []
    requires NoStraddling(a, b, pat)
    ensures ReplaceAll(a + b, pat, rep) == ReplaceAll(a, pat, rep) + ReplaceAll(b, pat, rep)
    decreases |a|
  {
    if a == [] {
      assert a + b == b;
    } else if |a + b| < |pat| {
      assert ReplaceAll(a, pat, rep) == a;
      assert ReplaceAll(b, pat, rep) == b;
    } else if (a + b)[..|pat|] == pat {
      ReplaceAllConcatMatch(a, b, pat, rep);
    } else {
      ReplaceAllConcatSkip(a, b, pat, rep);
    }
  }

  /** The scan matches at the start of `a`: it emits `rep` and skips the match, still inside `a`. */
  lemma {:induction false} ReplaceAllConcatMatch(a: string, b: string, pat: string, rep: string)
    requires pat != [] && a != [] && |pat| <= |a + b|
    requires NoStraddling(a, b, pat)
    requires (a + b)[..|pat|] == pat
    ensures ReplaceAll(a + b, pat, rep) == ReplaceAll(a, pat, rep) + ReplaceAll(b, pat, rep)
    decreases |a|, 0
  {
    assert OccursAt(a + b, pat, 0);
    assert |pat| <= |a|;
    assert a[..|pat|] == (a + b)[..|pat|];
    var a' := a[|pat|..];
    assert (a + b)[|pat|..] == a' + b;
    StraddleShift(a, b, pat, |pat|);
    ReplaceAllConcat(a', b, pat, rep);
  }

  /** The scan does not match at the start of `a`: it copies one character. */
  lemma {:induction false} ReplaceAllConcatSkip(a: string, b: string, pat: string, rep: string)
    requires pat != [] && a != [] && |pat| <= |a + b|
    requires NoStraddling(a, b, pat)
    requires (a + b)[..|pat|] != pat
    ensures ReplaceAll(a + b, pat, rep) == ReplaceAll(a, pat, rep) + ReplaceAll(b, pat, rep)
    decreases |a|, 0
  {
    var a' := a[1..];
    assert (a + b)[1..] == a' + b;
    assert (a + b)[0] == a[0];
    assert ReplaceAll(a + b, pat, rep) == [a[0]] + ReplaceAll(a' + b, pat, rep);
    StraddleShift(a, b, pat, 1);
    ReplaceAllConcat(a', b, pat, rep);
    if |a| < |pat| {
      ReplaceAllSkipShort(a, pat, rep);
    } else {
      ReplaceAllSkipLong(a, b, pat, rep);
    }
  }

  /** A left part shorter than the pattern is copied whole, its first character and then the rest. */
  lemma ReplaceAllSkipShort(a: string, pat: string, rep: string)
    requires pat != [] && a != [] && |a| < |pat|
    ensures ReplaceAll(a, pat, rep) == [a[0]] + ReplaceAll(a[1..], pat, rep)
  {
    ReplaceAllShort(a, pat, rep);
    ReplaceAllShort(a[1..], pat, rep);
    assert a == [a[0]] + a[1..];
  }

  /** No match at the start of `a` within `a + b` is no match at the start of `a` alone. */
  lemma ReplaceAllSkipLong(a: string, b: string, pat: string, rep: string)
    requires pat != [] && |pat| <= |a|
    requires (a + b)[..|pat|] != pat
    ensures ReplaceAll(a, pat, rep) == [a[0]] + ReplaceAll(a[1..], pat, rep)
  {
    assert a[..|pat|] == (a + b)[..|pat|];
  }

  /** Replacing never introduces a character found neither in `s` nor in `rep`. */
  lemma {:induction false} ReplaceAllChars(s: string, pat: string, rep: string, c: char)
    requires c !in s && c !in rep
    ensures c !in ReplaceAll(s, pat, rep)
    decreases |s|
  {
    if s != [] {
      assert forall x :: x in s[1..] ==> x in s;
      ReplaceAllChars(s[1..], pat, rep, c);
      if pat != [] && |s| >= |pat| && s[..|pat|] == pat {
        assert forall x :: x in s[|pat|..] ==> x in s;
        ReplaceAllChars(s[|pat|..], pat, rep, c);
      }
    }
  }

  /** The basename of a path ending in a slash-free component after a separator is that component. */
  lemma {:induction false} BasenameAfterSeparator(x: string, b: string)
    requires x == [] || x[|x| - 1] == '/'
    requires '/' !in b
    ensures Basename(x + b) == b
    decreases |b|
  {
    if b == [] {
      assert x + b == x;
    } else {
      var init, last := b[..|b| - 1], b[|b| - 1];
      assert b == init + [last];
      assert last != '/' && '/' !in init;
      var p := x + b;
      assert p == (x + init) + [last];
      assert p[|p| - 1] == last;
      assert p[..|p| - 1] == x + init;
      BasenameAfterSeparator(x, init);
    }
  }

  /** `os.path.basename(os.path.join(a, b)) == b` for a slash-free `b`. */
  lemma BasenameJoin(a: string, b: string)
    requires '/' !in b
    ensures Basename(Join(a, b)) == b
  {
    assert |b| > 0 ==> b[0] in b;
    if a == [] || a[|a| - 1] == '/' {
      BasenameAfterSeparator(a, b);
    } else {
      assert a + "/" + b == (a + "/") + b;
      BasenameAfterSeparator(a + "/", b);
    }
  }
}
