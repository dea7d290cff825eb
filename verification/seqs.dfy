/** Order-preserving selection over sequences: the operation behind every boolean mask
    applied to the company table. */
module Seqs {

  /** `a` can be obtained from `b` by deleting elements, keeping the order of the rest. */
  ghost predicate IsSubsequence<T>(a: seq<T>, b: seq<T>)
    decreases |b|
  {
    if |b| == 0 then |a| == 0
    else (|a| > 0 && a[0] == b[0] && IsSubsequence(a[1..], b[1..])) || IsSubsequence(a, b[1..])
  }

  lemma {:induction false} SubsequenceReflexive<T>(a: seq<T>)
    ensures IsSubsequence(a, a)
    decreases |a|
  {
    if |a| > 0 {
      SubsequenceReflexive(a[1..]);
    }
  }

  lemma {:induction false} SubsequenceTransitive<T>(a: seq<T>, b: seq<T>, c: seq<T>)
    requires IsSubsequence(a, b) && IsSubsequence(b, c)
    ensures IsSubsequence(a, c)
    decreases |c|
  {
    if |c| == 0 {
    } else if |b| > 0 && b[0] == c[0] && IsSubsequence(b[1..], c[1..]) {
      if |a| > 0 && a[0] == b[0] && IsSubsequence(a[1..], b[1..]) {
        SubsequenceTransitive(a[1..], b[1..], c[1..]);
      } else {
        SubsequenceTransitive(a, b[1..], c[1..]);
      }
    } else {
      SubsequenceTransitive(a, b, c[1..]);
    }
  }

  /** Keeping or dropping the head of `s` in front of a subsequence of its tail. */
  lemma StepSubsequence<T>(s: seq<T>, keep: bool, rest: seq<T>)
    requires |s| > 0 && IsSubsequence(rest, s[1..])
    ensures IsSubsequence(if keep then [s[0]] + rest else rest, s)
  {
    if keep {
      assert ([s[0]] + rest)[1..] == rest;
    }
  }

  lemma StepMembers<T(!new)>(s: seq<T>, p: T -> bool, rest: seq<T>)
    requires |s| > 0
    requires forall x :: x in rest <==> x in s[1..] && p(x)
    ensures forall x :: x in (if p(s[0]) then [s[0]] + rest else rest) <==> x in s && p(x)
  {
    assert s == [s[0]] + s[1..];
  }

  lemma StepCounts<T(!new)>(s: seq<T>, p: T -> bool, rest: seq<T>)
    requires |s| > 0
    requires forall x :: multiset(rest)[x] == if p(x) then multiset(s[1..])[x] else 0
    ensures forall x ::
      multiset(if p(s[0]) then [s[0]] + rest else rest)[x] == (if p(x) then multiset(s)[x] else 0)
  {
    assert s == [s[0]] + s[1..];
    assert multiset(s) == multiset{s[0]} + multiset(s[1..]);
  }

  lemma StepKeepsAll<T(!new)>(s: seq<T>, p: T -> bool, rest: seq<T>)
    requires |s| > 0
    requires (forall i :: 0 <= i < |s[1..]| ==> p(s[1..][i])) ==> rest == s[1..]
    ensures (forall i :: 0 <= i < |s| ==> p(s[i])) ==> (if p(s[0]) then [s[0]] + rest else rest) == s
  {
    if forall i :: 0 <= i < |s| ==> p(s[i]) {
      assert forall i :: 0 <= i < |s[1..]| ==> p(s[1..][i]) by {
        forall i | 0 <= i < |s[1..]| ensures p(s[1..][i]) {
          assert s[1..][i] == s[i + 1];
        }
      }
      assert p(s[0]);
      assert s == [s[0]] + s[1..];
    }
  }

  /** The elements of `s` satisfying `p`, in their original order (a boolean mask). */
  function Filter<T(==,!new)>(s: seq<T>, p: T -> bool): (r: seq<T>)
    ensures IsSubsequence(r, s)
    ensures forall x :: x in r <==> x in s && p(x)
    ensures forall x :: multiset(r)[x] == if p(x) then multiset(s)[x] else 0
    ensures (forall i :: 0 <= i < |s| ==> p(s[i])) ==> r == s
    decreases |s|
  {
    if |s| == 0 then []
    else
      var rest := Filter(s[1..], p);
      StepSubsequence(s, p(s[0]), rest);
      StepMembers(s, p, rest);
      StepCounts(s, p, rest);
      StepKeepsAll(s, p, rest);
      if p(s[0]) then [s[0]] + rest else rest
  }

  /** Filtering depends only on the values of the predicate. */
  lemma {:induction false} FilterExtensional<T(!new)>(s: seq<T>, p: T -> bool, q: T -> bool)
    requires forall x :: p(x) == q(x)
    ensures Filter(s, p) == Filter(s, q)
    decreases |s|
  {
    if |s| > 0 {
      FilterExtensional(s[1..], p, q);
    }
  }

  /** Two masks applied one after the other select what their conjunction selects. */
  lemma {:induction false} FilterFusion<T(!new)>(s: seq<T>, p: T -> bool, q: T -> bool, both: T -> bool)
    requires forall x :: both(x) == (p(x) && q(x))
    ensures Filter(Filter(s, p), q) == Filter(s, both)
    decreases |s|
  {
    if |s| > 0 {
      FilterFusion(s[1..], p, q, both);
      if p(s[0]) {
        assert Filter(s, p) == [s[0]] + Filter(s[1..], p);
        assert Filter(s, p)[1..] == Filter(s[1..], p);
      }
    }
  }

  /** A weaker mask keeps everything a stronger one keeps, in the same order. */
  lemma {:induction false} FilterMonotone<T(!new)>(s: seq<T>, p: T -> bool, q: T -> bool)
    requires forall x :: p(x) ==> q(x)
    ensures IsSubsequence(Filter(s, p), Filter(s, q))
    decreases |s|
  {
    if |s| > 0 {
      FilterMonotone(s[1..], p, q);
      var fp, fq := Filter(s, p), Filter(s, q);
      if p(s[0]) {
        assert fp == [s[0]] + Filter(s[1..], p) && fq == [s[0]] + Filter(s[1..], q);
        assert fp[1..] == Filter(s[1..], p) && fq[1..] == Filter(s[1..], q);
      } else if q(s[0]) {
        assert fq == [s[0]] + Filter(s[1..], q);
        assert fq[1..] == Filter(s[1..], q);
      }
    }
  }
}
