/** String operations the filter engine relies on: ASCII case folding, substring search,
    Python's ordering of `str` values, and the `sorted(set(...))` idiom. */
module Text {

  predicate IsUpper(c: char)
  {
    'A' <= c <= 'Z'
  }

  /** ASCII lower-casing of one character; every other character is left alone. */
  function LowerChar(c: char): char
  {
    if IsUpper(c) then (c as int + 32) as char else c
  }

  /** ASCII lower-casing of a string: no upper-case letter is left, every other character is
      kept in place, and each upper-case letter becomes its lower-case partner. */
  function Lower(s: string): (r: string)
    ensures |r| == |s|
    ensures forall i :: 0 <= i < |r| ==> !IsUpper(r[i])
    ensures forall i :: 0 <= i < |s| && !IsUpper(s[i]) ==> r[i] == s[i]
    ensures forall i :: 0 <= i < |s| && IsUpper(s[i]) ==> r[i] as int == s[i] as int + 32
  {
    seq(|s|, i requires 0 <= i < |s| => LowerChar(s[i]))
  }

  /** Two characters that differ at most in ASCII case. */
  ghost predicate SameIgnoringCase(c: char, d: char)
  {
    || c == d
    || (IsUpper(c) && d as int == c as int + 32)
    || (IsUpper(d) && c as int == d as int + 32)
  }

  /** Folding identifies exactly the strings that agree position by position up to ASCII case. */
  lemma LowerEqualIff(a: string, b: string)
    ensures Lower(a) == Lower(b) <==>
      |a| == |b| && forall i :: 0 <= i < |a| ==> SameIgnoringCase(a[i], b[i])
  {
    if Lower(a) == Lower(b) {
      forall i | 0 <= i < |a|
        ensures SameIgnoringCase(a[i], b[i])
      {
        assert Lower(a)[i] == Lower(b)[i];
      }
    }
    if |a| == |b| && forall i :: 0 <= i < |a| ==> SameIgnoringCase(a[i], b[i]) {
      forall i | 0 <= i < |a|
        ensures Lower(a)[i] == Lower(b)[i]
      {
        assert SameIgnoringCase(a[i], b[i]);
      }
    }
  }

  lemma LowerIdempotent(s: string)
    ensures Lower(Lower(s)) == Lower(s)
  {
    forall i | 0 <= i < |s|
      ensures Lower(Lower(s))[i] == Lower(s)[i]
    {
      assert LowerChar(LowerChar(s[i])) == LowerChar(s[i]);
    }
  }

  /** `needle` occurs in `hay` starting at position `i`. */
  ghost predicate OccursAt(hay: string, needle: string, i: int)
  {
    0 <= i && i + |needle| <= |hay| && hay[i..i + |needle|] == needle
  }

  lemma OccursAtShift(hay: string, needle: string, i: int)
    requires |hay| > 0 && 0 <= i
    ensures OccursAt(hay[1..], needle, i) <==> OccursAt(hay, needle, i + 1)
  {
    if 0 <= i && i + 1 + |needle| <= |hay| {
      assert hay[1..][i..i + |needle|] == hay[i + 1..i + 1 + |needle|];
    }
  }

  /** Plain substring containment (`needle in hay`). */
  function Contains(hay: string, needle: string): (b: bool)
    ensures b <==> exists i :: OccursAt(hay, needle, i)
    decreases |hay|
  {
    if |needle| > |hay| then false
    else if hay[..|needle|] == needle then
      assert OccursAt(hay, needle, 0);
      true
    else
      var b := Contains(hay[1..], needle);
      assert b ==> exists i :: OccursAt(hay, needle, i) by {
        if b {
          var i :| OccursAt(hay[1..], needle, i);
          OccursAtShift(hay, needle, i);
        }
      }
      assert (exists i :: OccursAt(hay, needle, i)) ==> b by {
        if exists i :: OccursAt(hay, needle, i) {
          var i :| OccursAt(hay, needle, i);
          assert i != 0;
          OccursAtShift(hay, needle, i - 1);
        }
      }
      b
  }

  /** A needle whose first character never appears in `hay` is not contained in it. */
  lemma FirstCharAbsent(hay: string, needle: string)
    requires |needle| > 0 && needle[0] !in hay
    ensures !Contains(hay, needle)
  {
  }

  /** Case-insensitive containment, as `str.contains(query, case=False)` on plain text. */
  predicate ContainsIgnoringCase(hay: string, needle: string)
  {
    Contains(Lower(hay), Lower(needle))
  }

  /** Python's `<` on `str`: lexicographic by code point, a proper prefix sorting first. */
  predicate Less(a: string, b: string)
    decreases |a|
  {
    if |a| == 0 then |b| > 0
    else if |b| == 0 then false
    else if a[0] != b[0] then a[0] < b[0]
    else Less(a[1..], b[1..])
  }

  lemma {:induction false} LessIrreflexive(a: string)
    ensures !Less(a, a)
    decreases |a|
  {
    if |a| > 0 {
      LessIrreflexive(a[1..]);
    }
  }

  lemma {:induction false} LessTransitive(a: string, b: string, c: string)
    requires Less(a, b) && Less(b, c)
    ensures Less(a, c)
    decreases |a|
  {
    if |a| > 0 && |b| > 0 && |c| > 0 && a[0] == b[0] && b[0] == c[0] {
      LessTransitive(a[1..], b[1..], c[1..]);
    }
  }

  lemma {:induction false} LessTotal(a: string, b: string)
    requires a != b
    ensures Less(a, b) || Less(b, a)
    decreases |a|
  {
    if |a| > 0 && |b| > 0 && a[0] == b[0] {
      assert a == [a[0]] + a[1..] && b == [b[0]] + b[1..];
      LessTotal(a[1..], b[1..]);
    }
  }

  lemma LessAsymmetric(a: string, b: string)
    requires Less(a, b)
    ensures !Less(b, a)
  {
    if Less(b, a) {
      LessTransitive(a, b, a);
      LessIrreflexive(a);
    }
  }

  /** Sorted in ascending order with no value repeated. */
  predicate StrictlyAscending(s: seq<string>)
  {
    forall i, j :: 0 <= i < j < |s| ==> Less(s[i], s[j])
  }

  lemma AscendingCons(x: string, s: seq<string>)
    requires StrictlyAscending(s)
    requires forall y :: y in s ==> Less(x, y)
    ensures StrictlyAscending([x] + s)
  {
    var r := [x] + s;
    forall i, j | 0 <= i < j < |r|
      ensures Less(r[i], r[j])
    {
      if i == 0 {
        assert r[j] in s;
      } else {
        assert r[i] == s[i - 1] && r[j] == s[j - 1];
      }
    }
  }

  lemma AscendingHeadLeast(s: seq<string>, y: string)
    requires StrictlyAscending(s) && |s| > 0
    requires y in s[1..]
    ensures Less(s[0], y)
  {
    var k :| 0 <= k < |s[1..]| && s[1..][k] == y;
    assert s[k + 1] == y;
  }

  /** Adds `x` to an ascending list of distinct strings, keeping it ascending and distinct. */
  function Insert(x: string, s: seq<string>): (r: seq<string>)
    requires StrictlyAscending(s)
    ensures StrictlyAscending(r)
    ensures forall y :: y in r <==> y == x || y in s
    decreases |s|
  {
    if |s| == 0 then [x]
    else if x == s[0] then s
    else if Less(x, s[0]) then
      assert forall y :: y in s ==> Less(x, y) by {
        forall y | y in s
          ensures Less(x, y)
        {
          if y != s[0] {
            assert s == [s[0]] + s[1..];
            AscendingHeadLeast(s, y);
            LessTransitive(x, s[0], y);
          }
        }
      }
      AscendingCons(x, s);
      [x] + s
    else
      LessTotal(x, s[0]);
      var rest := Insert(x, s[1..]);
      assert forall y :: y in rest ==> Less(s[0], y) by {
        forall y | y in rest
          ensures Less(s[0], y)
        {
          if y != x {
            AscendingHeadLeast(s, y);
          }
        }
      }
      AscendingCons(s[0], rest);
      assert s == [s[0]] + s[1..];
      [s[0]] + rest
  }

  /** `sorted(set(xs))`: the distinct values of `xs` in ascending order. */
  function SortedDistinct(xs: seq<string>): (r: seq<string>)
    ensures StrictlyAscending(r)
    ensures forall y :: y in r <==> y in xs
    decreases |xs|
  {
    if |xs| == 0 then []
    else
      assert xs == [xs[0]] + xs[1..];
      Insert(xs[0], SortedDistinct(xs[1..]))
  }

  /** An ascending list of distinct strings is determined by the values it holds. */
  lemma {:induction false} AscendingUnique(a: seq<string>, b: seq<string>)
    requires StrictlyAscending(a) && StrictlyAscending(b)
    requires forall y :: y in a <==> y in b
    ensures a == b
    decreases |a|
  {
    assert |b| > 0 ==> b[0] in a;
    if |a| > 0 {
      assert a[0] in a;
      assert |b| > 0;
      assert b[0] in b;
      if a[0] != b[0] {
        assert a[0] in b[1..] by {
          assert b == [b[0]] + b[1..];
        }
        assert b[0] in a[1..] by {
          assert a == [a[0]] + a[1..];
        }
        AscendingHeadLeast(b, a[0]);
        AscendingHeadLeast(a, b[0]);
        LessAsymmetric(a[0], b[0]);
        assert false;
      }
      assert forall y :: y in a[1..] <==> y in b[1..] by {
        forall y
          ensures y in a[1..] <==> y in b[1..]
        {
          assert a == [a[0]] + a[1..] && b == [b[0]] + b[1..];
          if y in a[1..] {
            AscendingHeadLeast(a, y);
            LessIrreflexive(y);
            assert y != b[0];
            assert y in b;
          }
          if y in b[1..] {
            AscendingHeadLeast(b, y);
            LessIrreflexive(y);
            assert y != a[0];
            assert y in a;
          }
        }
      }
      AscendingUnique(a[1..], b[1..]);
      assert a == [a[0]] + a[1..] && b == [b[0]] + b[1..];
    }
  }
}
