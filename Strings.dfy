/** The three Python string operations the invoice generator relies on:
    `suffix` test (`str.endswith`), membership (`pat in s`) and
    `str.replace` with no count argument. */
module Strings {

  /** `s.endswith(suffix)`. */
  predicate EndsWith(s: string, suffix: string) {
    |suffix| <= |s| && s[|s| - |suffix|..] == suffix
  }

  /** `pat` occurs in `s` starting at index `i`. */
  ghost predicate OccursAt(s: string, pat: string, i: int) {
    0 <= i && i + |pat| <= |s| && s[i..i + |pat|] == pat
  }

  /** `pat in s`, scanning `s` from the left. */
  predicate Contains(s: string, pat: string)
    decreases |s|
  {
    |pat| <= |s| && (s[..|pat|] == pat || Contains(s[1..], pat))
  }

  /** Dropping the first character shifts every occurrence one place left. */
  lemma OccursAtTail(s: string, pat: string, j: int)
    requires |s| > 0 && 0 <= j
    ensures OccursAt(s[1..], pat, j) <==> OccursAt(s, pat, j + 1)
  {
    if j + 1 + |pat| <= |s| {
      assert s[1..][j..j + |pat|] == s[j + 1..j + 1 + |pat|];
    }
  }

  /** The scanning definition agrees with "there is an index where `pat` occurs". */
  lemma {:induction false} ContainsIffOccurs(s: string, pat: string)
    ensures Contains(s, pat) <==> exists i :: OccursAt(s, pat, i)
    decreases |s|
  {
    if |pat| <= |s| && s[..|pat|] != pat {
      ContainsIffOccurs(s[1..], pat);
      if exists i :: OccursAt(s, pat, i) {
        var i :| OccursAt(s, pat, i);
        OccursAtTail(s, pat, i - 1);
      }
      if Contains(s[1..], pat) {
        var i :| OccursAt(s[1..], pat, i);
        OccursAtTail(s, pat, i);
      }
    } else if |pat| <= |s| {
      assert OccursAt(s, pat, 0);
    }
  }

  /** `s.replace(pat, v)`: every non-overlapping occurrence of `pat`,
      found from the left, is replaced by `v`.  Tokens are never empty, so
      Python's special case for an empty pattern does not arise. */
  function ReplaceAll(s: string, pat: string, v: string): (r: string)
    requires |pat| > 0
    ensures !Contains(s, pat) ==> r == s
    ensures v == pat ==> r == s
    decreases |s|
  {
    if |s| < |pat| then s
    else if s[..|pat|] == pat then v + ReplaceAll(s[|pat|..], pat, v)
    else [s[0]] + ReplaceAll(s[1..], pat, v)
  }

  /** A first character that does not start `pat` is copied unchanged. */
  lemma ReplaceAllSkip(s: string, pat: string, v: string)
    requires 0 < |pat| <= |s| && s[..|pat|] != pat
    ensures ReplaceAll(s, pat, v) == [s[0]] + ReplaceAll(s[1..], pat, v)
  {
  }

  /** An occurrence at the front is replaced and replacement resumes
      after it. */
  lemma ReplaceAllHit(s: string, pat: string, v: string)
    requires 0 < |pat| <= |s| && s[..|pat|] == pat
    ensures ReplaceAll(s, pat, v) == v + ReplaceAll(s[|pat|..], pat, v)
  {
  }

  /** A prefix in which no occurrence starts is copied unchanged. */
  lemma {:induction false} ReplaceAllKeepsPrefix(s: string, pat: string, v: string, k: int)
    requires |pat| > 0 && 0 <= k && k + |pat| <= |s|
    requires forall j :: 0 <= j < k ==> !OccursAt(s, pat, j)
    ensures ReplaceAll(s, pat, v) == s[..k] + ReplaceAll(s[k..], pat, v)
    decreases k
  {
    if k == 0 {
      assert s[..0] + s[0..] == s;
    } else {
      ReplaceAllKeepsPrefix(s, pat, v, k - 1);
      var t := s[k - 1..];
      assert !OccursAt(s, pat, k - 1);
      SliceStep(s, k, |pat|);
      ReplaceAllSkip(t, pat, v);
      AppendAssoc(s[..k - 1], [t[0]], ReplaceAll(s[k..], pat, v));
    }
  }

  /** Leftmost first: the text before the first occurrence is kept as it is,
      that occurrence becomes `v`, and replacement resumes after it.  With
      the absent case in `ReplaceAll`'s contract this determines the result. */
  lemma ReplaceAllAtFirstOccurrence(s: string, pat: string, v: string, i: int)
    requires |pat| > 0
    requires OccursAt(s, pat, i)
    requires forall j :: 0 <= j < i ==> !OccursAt(s, pat, j)
    ensures ReplaceAll(s, pat, v) == s[..i] + v + ReplaceAll(s[i + |pat|..], pat, v)
  {
    var t, rest := s[i..], s[i + |pat|..];
    ReplaceAllKeepsPrefix(s, pat, v, i);
    DropThenSplit(s, i, |pat|);
    ReplaceAllHit(t, pat, v);
    AppendAssoc(s[..i], v, ReplaceAll(rest, pat, v));
  }

  lemma SliceStep<T>(s: seq<T>, k: int, n: int)
    requires 0 < k && 0 < n && k - 1 + n <= |s|
    ensures s[k - 1..][..n] == s[k - 1..k - 1 + n] && s[k - 1..][1..] == s[k..]
    ensures s[..k - 1] + [s[k - 1..][0]] == s[..k]
  {
  }

  lemma DropThenSplit<T>(s: seq<T>, i: int, n: int)
    requires 0 <= i && 0 <= n && i + n <= |s|
    ensures s[i..][..n] == s[i..i + n] && s[i..][n..] == s[i + n..]
  {
  }

  lemma AppendAssoc<T>(a: seq<T>, b: seq<T>, c: seq<T>)
    ensures a + (b + c) == a + b + c
  {
  }

  lemma OccursContains(s: string, pat: string, i: int)
    requires OccursAt(s, pat, i)
    ensures Contains(s, pat)
  {
    ContainsIffOccurs(s, pat);
  }

  /** A text starts with itself. */
  lemma ContainsPrefix(p: string, x: string)
    ensures Contains(p + x, p)
  {
    assert (p + x)[..|p|] == p;
  }

  /** Text put in front keeps every occurrence of `pat`. */
  lemma ContainsAfter(w: string, x: string, pat: string)
    requires Contains(x, pat)
    ensures Contains(w + x, pat)
  {
    ContainsIffOccurs(x, pat);
    var j :| OccursAt(x, pat, j);
    assert (w + x)[|w| + j..|w| + j + |pat|] == x[j..j + |pat|];
    OccursContains(w + x, pat, |w| + j);
  }

  lemma ContainsInside(a: string, p: string, b: string)
    ensures Contains(a + p + b, p)
  {
    ContainsPrefix(p, b);
    ContainsAfter(a, p + b, p);
    AppendAssoc(a, p, b);
  }

  /** An occurrence of `q` that no occurrence of `pat` overlaps survives
      `s.replace(pat, v)`. */
  lemma {:induction false} ReplaceAllKeepsOccurrence(s: string, pat: string, v: string, q: string, j: int)
    requires |pat| > 0 && OccursAt(s, q, j)
    requires forall p :: 0 <= p < j + |q| && j < p + |pat| ==> !OccursAt(s, pat, p)
    ensures Contains(ReplaceAll(s, pat, v), q)
    decreases |s|
  {
    if j == 0 {
      if |q| + |pat| <= |s| {
        ReplaceAllKeepsPrefix(s, pat, v, |q|);
        assert s[..|q|] == q;
        ContainsPrefix(q, ReplaceAll(s[|q|..], pat, v));
      } else {
        forall p | 0 <= p
          ensures !OccursAt(s, pat, p)
        {
        }
        ContainsIffOccurs(s, pat);
        OccursContains(s, q, 0);
      }
    } else if |s| < |pat| {
      OccursContains(s, q, j);
    } else if s[..|pat|] == pat {
      assert OccursAt(s, pat, 0);
      var t := s[|pat|..];
      assert t[j - |pat|..j - |pat| + |q|] == s[j..j + |q|];
      forall p | 0 <= p < j - |pat| + |q| && j - |pat| < p + |pat|
        ensures !OccursAt(t, pat, p)
      {
        assert !OccursAt(s, pat, p + |pat|);
        assert p + |pat| + |pat| <= |s| ==> t[p..p + |pat|] == s[p + |pat|..p + |pat| + |pat|];
      }
      ReplaceAllKeepsOccurrence(t, pat, v, q, j - |pat|);
      ContainsAfter(v, ReplaceAll(t, pat, v), q);
    } else {
      var t := s[1..];
      OccursAtTail(s, q, j - 1);
      forall p | 0 <= p < j - 1 + |q| && j - 1 < p + |pat|
        ensures !OccursAt(t, pat, p)
      {
        OccursAtTail(s, pat, p);
      }
      ReplaceAllKeepsOccurrence(t, pat, v, q, j - 1);
      ContainsAfter([s[0]], ReplaceAll(t, pat, v), q);
    }
  }
}
