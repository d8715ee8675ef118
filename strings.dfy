/**
  `str_replace` with one search string, as PHP implements it: the subject is
  scanned from left to right, every occurrence of the search string that does
  not overlap an earlier one is replaced, and the text a replacement
  produces is not scanned again. An empty search string leaves the subject
  unchanged.
 */
module Strings {

  /** `n` occurs in `s` starting at position `i`. */
  predicate OccursAt(s: string, n: string, i: int) {
    0 <= i && i + |n| <= |s| && s[i..i + |n|] == n
  }

  /** `str_contains($s, $n)`. */
  predicate Contains(s: string, n: string) {
    exists i :: 0 <= i <= |s| && OccursAt(s, n, i)
  }

  /** `str_replace($n, $r, $s)`. */
  function ReplaceAll(s: string, n: string, r: string): string
    decreases |s|
  {
    if n == [] || |s| < |n| then s
    else if s[..|n|] == n then r + ReplaceAll(s[|n|..], n, r)
    else [s[0]] + ReplaceAll(s[1..], n, r)
  }

  /** How many replacements `str_replace($n, $r, $s)` makes (its `$count`). */
  function Occurrences(s: string, n: string): nat
    decreases |s|
  {
    if n == [] || |s| < |n| then 0
    else if s[..|n|] == n then 1 + Occurrences(s[|n|..], n)
    else Occurrences(s[1..], n)
  }

  lemma SliceOfSlice(s: string, i: int, j: int, lo: int, hi: int)
    requires 0 <= i <= j <= |s| && 0 <= lo <= hi <= j - i
    ensures s[i..j][lo..hi] == s[i + lo..i + hi]
  {
    assert forall k :: 0 <= k < hi - lo ==> s[i..j][lo..hi][k] == s[i + lo..i + hi][k];
  }

  lemma OccursShift(s: string, n: string, i: int)
    requires |s| > 0 && OccursAt(s[1..], n, i)
    ensures OccursAt(s, n, i + 1)
  {
    assert s[i + 1..i + 1 + |n|] == s[1..][i..i + |n|];
  }

  /** A two-character string occurs nowhere if no two adjacent characters
      spell it. */
  lemma NotContainsPair(s: string, n: string)
    requires |n| == 2
    requires forall i :: 0 <= i < |s| - 1 ==> s[i] != n[0] || s[i + 1] != n[1]
    ensures !Contains(s, n)
  {
    forall i | 0 <= i <= |s| ensures !OccursAt(s, n, i) {
      if i + 2 <= |s| {
        assert s[i..i + 2][0] == s[i] && s[i..i + 2][1] == s[i + 1];
      }
    }
  }

  /** A search string that does not occur leaves the subject unchanged. */
  lemma {:induction false} ReplaceAbsent(s: string, n: string, r: string)
    requires !Contains(s, n)
    ensures ReplaceAll(s, n, r) == s
    decreases |s|
  {
    if n == [] || |s| < |n| {
    } else {
      assert !OccursAt(s, n, 0);
      forall i | OccursAt(s[1..], n, i) ensures false {
        OccursShift(s, n, i);
      }
      ReplaceAbsent(s[1..], n, r);
    }
  }


  /** Every replacement changes the length by `|r| - |n|`. */
  lemma {:induction false} ReplaceLength(s: string, n: string, r: string)
    ensures |ReplaceAll(s, n, r)| == |s| + Occurrences(s, n) * (|r| - |n|)
    decreases |s|
  {
    if n == [] || |s| < |n| {
    } else if s[..|n|] == n {
      ReplaceLength(s[|n|..], n, r);
      MulSucc(Occurrences(s[|n|..], n), |r| - |n|);
    } else {
      ReplaceLength(s[1..], n, r);
    }
  }

  lemma MulSucc(c: int, d: int)
    ensures (1 + c) * d == d + c * d
  {
  }

  /** The scan finds an occurrence whenever there is one. */
  lemma {:induction false} ContainsReplaced(s: string, n: string, i: int)
    requires n != [] && OccursAt(s, n, i)
    ensures Occurrences(s, n) >= 1
    decreases |s|
  {
    if s[..|n|] != n {
      assert i != 0;
      assert s[1..][i - 1..i - 1 + |n|] == s[i..i + |n|];
      ContainsReplaced(s[1..], n, i - 1);
    }
  }

  /** When a replacement is made, the replacement text is in the result. */
  lemma {:induction false} ReplacementPresent(s: string, n: string, r: string)
    requires n != [] && Occurrences(s, n) >= 1
    ensures Contains(ReplaceAll(s, n, r), r)
    decreases |s|
  {
    var out := ReplaceAll(s, n, r);
    if s[..|n|] == n {
      assert OccursAt(out, r, 0);
    } else {
      ReplacementPresent(s[1..], n, r);
      var rest := ReplaceAll(s[1..], n, r);
      var j :| OccursAt(rest, r, j);
      assert out == [s[0]] + rest;
      assert out[1..] == rest;
      OccursShift(out, r, j);
    }
  }



  /** No occurrence of `n` in `a + t` starts inside `a` and ends inside `t`. */
  ghost predicate NoStraddle(a: string, t: string, n: string) {
    forall i :: 0 <= i < |a| < i + |n| ==> !OccursAt(a + t, n, i)
  }

  /** A two-character string cannot straddle a seam followed by a character
      other than its second one. */
  lemma NoStraddlePair(a: string, t: string, n: string)
    requires |n| == 2 && |t| > 0 && t[0] != n[1]
    ensures NoStraddle(a, t, n)
  {
    forall i | 0 <= i < |a| < i + |n| ensures !OccursAt(a + t, n, i) {
      if i + 2 <= |a + t| {
        assert (a + t)[i..i + 2][1] == (a + t)[i + 1] == t[0];
      }
    }
  }

  /** Replacing in a concatenation replaces in both parts, when no
      occurrence of the search string straddles the seam. */
  lemma {:induction false} ReplaceSplit(a: string, t: string, n: string, r: string)
    requires n != []
    requires NoStraddle(a, t, n)
    ensures ReplaceAll(a + t, n, r) == ReplaceAll(a, n, r) + ReplaceAll(t, n, r)
    decreases |a|, 1
  {
    var s := a + t;
    if a == [] {
      assert s == t;
    } else if |s| < |n| {
      assert ReplaceAll(a, n, r) == a;
    } else if s[..|n|] == n {
      ReplaceSplitMatch(a, t, n, r);
    } else {
      ReplaceSplitMiss(a, t, n, r);
    }
  }

  lemma {:induction false} ReplaceSplitMatch(a: string, t: string, n: string, r: string)
    requires n != [] && a != [] && NoStraddle(a, t, n)
    requires |a + t| >= |n| && (a + t)[..|n|] == n
    ensures ReplaceAll(a + t, n, r) == ReplaceAll(a, n, r) + ReplaceAll(t, n, r)
    decreases |a|, 0
  {
    SplitAfterMatch(a, t, n);
    ReplaceSplit(a[|n|..], t, n, r);
    ReplaceJoinHead(a, t, n, r, |n|, r);
  }

  lemma {:induction false} ReplaceSplitMiss(a: string, t: string, n: string, r: string)
    requires n != [] && a != [] && NoStraddle(a, t, n)
    requires |a + t| >= |n| && (a + t)[..|n|] != n
    ensures ReplaceAll(a + t, n, r) == ReplaceAll(a, n, r) + ReplaceAll(t, n, r)
    decreases |a|, 0
  {
    SplitAfterMiss(a, t, n);
    ReplaceSplit(a[1..], t, n, r);
    if |a| >= |n| {
      assert a[..|n|] == (a + t)[..|n|];
    }
    ReplaceJoinHead(a, t, n, r, 1, [a[0]]);
  }

  /** The step shared by both cases of the split: the output of `a + t` and
      of `a` both start with `h` and continue from position `k`, and the
      rest splits by the inductive step. */
  lemma ReplaceJoinHead(a: string, t: string, n: string, r: string, k: nat, h: string)
    requires 0 < k <= |a|
    requires ReplaceAll(a + t, n, r) == h + ReplaceAll((a + t)[k..], n, r)
    requires ReplaceAll(a, n, r) == h + ReplaceAll(a[k..], n, r)
    requires ReplaceAll(a[k..] + t, n, r) == ReplaceAll(a[k..], n, r) + ReplaceAll(t, n, r)
    ensures ReplaceAll(a + t, n, r) == ReplaceAll(a, n, r) + ReplaceAll(t, n, r)
  {
    DropConcat(a, t, k);
    Regroup(h, ReplaceAll(a[k..], n, r), ReplaceAll(t, n, r));
  }

  lemma DropConcat(a: string, t: string, k: nat)
    requires k <= |a|
    ensures (a + t)[k..] == a[k..] + t
  {
  }

  lemma Regroup(h: string, p: string, q: string)
    ensures h + (p + q) == (h + p) + q
  {
  }

  lemma SplitAfterMatch(a: string, t: string, n: string)
    requires n != [] && a != [] && |a + t| >= |n| && (a + t)[..|n|] == n
    requires NoStraddle(a, t, n)
    ensures |n| <= |a| && a[..|n|] == n
    ensures NoStraddle(a[|n|..], t, n)
  {
    var s := a + t;
    assert OccursAt(s, n, 0);
    assert |n| <= |a|;
    assert a[..|n|] == s[..|n|];
    var b := a[|n|..];
    assert b + t == s[|n|..];
    forall i | 0 <= i < |b| < i + |n| ensures !OccursAt(b + t, n, i) {
      if OccursAt(b + t, n, i) {
        SliceOfSlice(s, |n|, |s|, i, i + |n|);
        assert OccursAt(s, n, i + |n|);
      }
    }
  }

  lemma SplitAfterMiss(a: string, t: string, n: string)
    requires n != [] && a != []
    requires NoStraddle(a, t, n)
    ensures NoStraddle(a[1..], t, n)
  {
    var s := a + t;
    assert s[1..] == a[1..] + t;
    forall i | 0 <= i < |a[1..]| < i + |n| ensures !OccursAt(a[1..] + t, n, i) {
      if OccursAt(a[1..] + t, n, i) {
        OccursShift(s, n, i);
      }
    }
  }

  /** One occurrence between two texts that do not hold the search string,
      with none across the first seam, is the only replacement made. */
  lemma ReplaceOnce(a: string, n: string, b: string, r: string)
    requires n != [] && !Contains(a, n) && !Contains(b, n) && NoStraddle(a, n + b, n)
    ensures ReplaceAll(a + (n + b), n, r) == a + (r + b)
  {
    ReplaceSplit(a, n + b, n, r);
    ReplaceAbsent(a, n, r);
    assert (n + b)[..|n|] == n && (n + b)[|n|..] == b;
    ReplaceAbsent(b, n, r);
  }
}
