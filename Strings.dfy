/** Java's `String.contains` and `String.replace(CharSequence, CharSequence)` on `seq<char>`. */
module Strings {

  /** `pat` occurs in `s` starting at index `i`. */
  predicate OccursAt(s: string, pat: string, i: int) {
    0 <= i && i + |pat| <= |s| && s[i..i + |pat|] == pat
  }

  /** `s.contains(pat)`. */
  predicate Contains(s: string, pat: string) {
    exists i :: 0 <= i <= |s| - |pat| && OccursAt(s, pat, i)
  }

  /**
   * `s.replace(pat, rep)`: scans left to right and replaces every occurrence of
   * `pat` that does not overlap an occurrence already replaced.
   */
  function ReplaceAll(s: string, pat: string, rep: string): string
    requires |pat| > 0
    decreases |s|
  {
    if |s| < |pat| then s
    else if s[..|pat|] == pat then rep + ReplaceAll(s[|pat|..], pat, rep)
    else [s[0]] + ReplaceAll(s[1..], pat, rep)
  }

  /** One step of the scan when the pattern starts the text. */
  lemma ReplaceAllOnMatch(s: string, pat: string, rep: string)
    requires |pat| > 0 && OccursAt(s, pat, 0)
    ensures ReplaceAll(s, pat, rep) == rep + ReplaceAll(s[|pat|..], pat, rep)
  {
  }

  /** One step of the scan when the pattern does not start the text. */
  lemma ReplaceAllOnMiss(s: string, pat: string, rep: string)
    requires |pat| > 0 && |s| > 0 && !OccursAt(s, pat, 0)
    ensures ReplaceAll(s, pat, rep) == [s[0]] + ReplaceAll(s[1..], pat, rep)
  {
    if |s| < |pat| {
      assert ReplaceAll(s[1..], pat, rep) == s[1..];
      assert s == [s[0]] + s[1..];
    }
  }

  lemma OccursAtDrop(s: string, pat: string, k: nat, i: int)
    requires k <= |s| && 0 <= i
    ensures OccursAt(s[k..], pat, i) <==> OccursAt(s, pat, i + k)
  {
    if i + |pat| <= |s| - k {
      assert s[k..][i..i + |pat|] == s[i + k..i + k + |pat|];
    }
  }

  lemma OccursAtTake(s: string, pat: string, k: nat, i: int)
    requires k <= |s| && 0 <= i && i + |pat| <= k
    ensures OccursAt(s[..k], pat, i) <==> OccursAt(s, pat, i)
  {
    assert s[..k][i..i + |pat|] == s[i..i + |pat|];
  }

  /** Text in which the pattern does not occur is returned unchanged. */
  lemma {:induction false} ReplaceAllAbsent(s: string, pat: string, rep: string)
    requires |pat| > 0 && !Contains(s, pat)
    ensures ReplaceAll(s, pat, rep) == s
    decreases |s|
  {
    if |s| > 0 {
      assert !OccursAt(s, pat, 0);
      ReplaceAllOnMiss(s, pat, rep);
      forall i | 0 <= i <= |s| - 1 - |pat| ensures !OccursAt(s[1..], pat, i) {
        OccursAtDrop(s, pat, 1, i);
      }
      ReplaceAllAbsent(s[1..], pat, rep);
      assert s == [s[0]] + s[1..];
    }
  }

  /**
   * The leftmost occurrence is replaced and the text before it is kept:
   * if `pat` first occurs in `a + pat + b` at index `|a|`, the result is
   * `a + rep` followed by the replacement of the rest.
   */
  lemma {:induction false} ReplaceAllLeftmost(a: string, pat: string, b: string, rep: string)
    requires |pat| > 0
    requires forall i :: 0 <= i < |a| ==> !OccursAt(a + pat + b, pat, i)
    ensures ReplaceAll(a + pat + b, pat, rep) == a + rep + ReplaceAll(b, pat, rep)
    decreases |a|
  {
    var s := a + pat + b;
    if a == [] {
      assert s == pat + b && s[..|pat|] == pat && s[|pat|..] == b;
      ReplaceAllOnMatch(s, pat, rep);
    } else {
      var t := a[1..] + pat + b;
      assert s[1..] == t;
      ReplaceAllOnMiss(s, pat, rep);
      forall i | 0 <= i < |a| - 1 ensures !OccursAt(t, pat, i) {
        OccursAtDrop(s, pat, 1, i);
      }
      ReplaceAllLeftmost(a[1..], pat, b, rep);
      assert s[0] == a[0];
      assert a == [a[0]] + a[1..];
    }
  }

  /**
   * When no occurrence of `pat` straddles index `k`, replacing in the whole text
   * is replacing in the two halves separately.
   */
  lemma {:induction false} ReplaceAllSplit(s: string, pat: string, rep: string, k: nat)
    requires |pat| > 0 && k <= |s|
    requires forall i :: 0 <= i < k < i + |pat| ==> !OccursAt(s, pat, i)
    ensures ReplaceAll(s, pat, rep) == ReplaceAll(s[..k], pat, rep) + ReplaceAll(s[k..], pat, rep)
    decreases k
  {
    if k == 0 {
      assert s[..0] == [] && s[0..] == s;
    } else if OccursAt(s, pat, 0) {
      SplitAfterMatch(s, pat, rep, k);
    } else {
      SplitAfterMiss(s, pat, rep, k);
    }
  }

  lemma {:induction false} SplitAfterMatch(s: string, pat: string, rep: string, k: nat)
    requires |pat| > 0 && 0 < k <= |s| && OccursAt(s, pat, 0)
    requires forall i :: 0 <= i < k < i + |pat| ==> !OccursAt(s, pat, i)
    ensures ReplaceAll(s, pat, rep) == ReplaceAll(s[..k], pat, rep) + ReplaceAll(s[k..], pat, rep)
    decreases k, 0
  {
    assert |pat| <= k;
    var t, u := s[|pat|..], s[..k];
    var m := k - |pat|;
    assert t[m..] == s[k..];
    assert u[|pat|..] == t[..m];
    forall i | 0 <= i < m < i + |pat| ensures !OccursAt(t, pat, i) {
      OccursAtDrop(s, pat, |pat|, i);
    }
    OccursAtTake(s, pat, k, 0);
    var a, b := ReplaceAll(t[..m], pat, rep), ReplaceAll(s[k..], pat, rep);
    calc {
      ReplaceAll(s, pat, rep);
      { ReplaceAllOnMatch(s, pat, rep); }
      rep + ReplaceAll(t, pat, rep);
      { ReplaceAllSplit(t, pat, rep, m); }
      rep + (a + b);
      { AppendAssoc(rep, a, b); }
      (rep + a) + b;
      { ReplaceAllOnMatch(u, pat, rep); }
      ReplaceAll(u, pat, rep) + b;
    }
  }

  lemma {:induction false} SplitAfterMiss(s: string, pat: string, rep: string, k: nat)
    requires |pat| > 0 && 0 < k <= |s| && !OccursAt(s, pat, 0)
    requires forall i :: 0 <= i < k < i + |pat| ==> !OccursAt(s, pat, i)
    ensures ReplaceAll(s, pat, rep) == ReplaceAll(s[..k], pat, rep) + ReplaceAll(s[k..], pat, rep)
    decreases k, 0
  {
    var t, u := s[1..], s[..k];
    assert t[..k - 1] == u[1..];
    assert t[k - 1..] == s[k..];
    forall i | 0 <= i < k - 1 < i + |pat| ensures !OccursAt(t, pat, i) {
      OccursAtDrop(s, pat, 1, i);
    }
    if |pat| <= k {
      OccursAtTake(s, pat, k, 0);
    }
    var a, b := ReplaceAll(u[1..], pat, rep), ReplaceAll(s[k..], pat, rep);
    calc {
      ReplaceAll(s, pat, rep);
      { ReplaceAllOnMiss(s, pat, rep); }
      [s[0]] + ReplaceAll(t, pat, rep);
      { ReplaceAllSplit(t, pat, rep, k - 1); }
      [s[0]] + (a + b);
      { AppendAssoc([s[0]], a, b); }
      ([u[0]] + a) + b;
      { ReplaceAllOnMiss(u, pat, rep); }
      ReplaceAll(u, pat, rep) + b;
    }
  }

  lemma AppendAssoc(a: string, b: string, c: string)
    ensures a + (b + c) == (a + b) + c
  {
  }

  /**
   * A piece `q` of the text that no occurrence of `pat` overlaps is carried over
   * to the result intact.
   */
  lemma ReplaceAllKeeps(x: string, q: string, y: string, pat: string, rep: string)
    requires |pat| > 0 && |q| > 0
    requires forall i :: OccursAt(x + q + y, pat, i) ==> i + |pat| <= |x| || |x| + |q| <= i
    ensures ReplaceAll(x + q + y, pat, rep) == ReplaceAll(x, pat, rep) + q + ReplaceAll(y, pat, rep)
  {
    var s := x + q + y;
    var t := q + y;
    assert s[..|x|] == x && s[|x|..] == t;
    assert t[..|q|] == q && t[|q|..] == y;
    KeepsPieces(x, q, y, pat);
    var a, b := ReplaceAll(x, pat, rep), ReplaceAll(y, pat, rep);
    calc {
      ReplaceAll(s, pat, rep);
      { ReplaceAllSplit(s, pat, rep, |x|); }
      a + ReplaceAll(t, pat, rep);
      { ReplaceAllSplit(t, pat, rep, |q|); }
      a + (ReplaceAll(q, pat, rep) + b);
      { ReplaceAllAbsent(q, pat, rep); }
      a + (q + b);
      { AppendAssoc(a, q, b); }
      a + q + b;
    }
  }

  /** What `ReplaceAllKeeps` needs to cut the text around `q`. */
  lemma KeepsPieces(x: string, q: string, y: string, pat: string)
    requires |pat| > 0
    requires forall i :: OccursAt(x + q + y, pat, i) ==> i + |pat| <= |x| || |x| + |q| <= i
    ensures forall i :: 0 <= i < |x| < i + |pat| ==> !OccursAt(x + q + y, pat, i)
    ensures forall i :: 0 <= i < |q| < i + |pat| ==> !OccursAt(q + y, pat, i)
    ensures !Contains(q, pat)
  {
    var s := x + q + y;
    var t := q + y;
    assert s[|x|..] == t;
    forall i | 0 <= i < |q| < i + |pat| ensures !OccursAt(t, pat, i) {
      OccursAtDrop(s, pat, |x|, i);
    }
    assert t[..|q|] == q;
    forall i | 0 <= i <= |q| - |pat| ensures !OccursAt(q, pat, i) {
      OccursAtTake(t, pat, |q|, i);
      OccursAtDrop(s, pat, |x|, i);
    }
  }
}
