/**
 * The `ImportOrder` sort of the packages to analyse: standard-library paths
 * (first `/`-segment without a `.`) before third-party paths, each group in
 * plain string order.
 */
module ImportOrder {
  import opened Syntax

  /**
   * Go's string `<`: lexicographic order of the bytes. Dafny's `<` on
   * sequences is the proper-prefix order, so the comparison is spelled out.
   * Comparing characters (Unicode scalar values) orders strings exactly as
   * comparing their UTF-8 bytes does.
   */
  predicate LexLess(l: string, r: string): (b: bool)
    decreases |l|
    ensures b ==> l != r
    ensures l < r ==> b
  {
    if r == [] then false
    else if l == [] then true
    else if l[0] != r[0] then l[0] < r[0]
    else LexLess(l[1..], r[1..])
  }

  /** `strings.Split(p, "/")[0]`: the part of `p` before its first `/`, or all of `p`. */
  function FirstSegment(p: string): (seg: string)
    ensures seg <= p
    ensures '/' !in seg
    ensures |seg| < |p| ==> p[|seg|] == '/'
  {
    if p == [] || p[0] == '/' then [] else [p[0]] + FirstSegment(p[1..])
  }

  /** A standard-library path: its first segment contains no `.`. */
  predicate IsStandard(p: string): (b: bool)
    ensures !b ==> '.' in p && '/' != p[0]
  {
    '.' !in FirstSegment(p)
  }

  /** Standard exactly when no `.` comes before the first `/`. */
  lemma IsStandardIff(p: string)
    ensures IsStandard(p) <==> forall k :: 0 <= k < |p| && '/' !in p[..k] ==> p[k] != '.'
  {
    FirstSegmentChars(p);
  }

  /** The characters of the first segment are those before the first `/`. */
  lemma FirstSegmentChars(p: string)
    ensures forall k :: 0 <= k < |p| && '/' !in p[..k] ==> p[k] == '/' || (k < |FirstSegment(p)| && FirstSegment(p)[k] == p[k])
    ensures forall k :: 0 <= k < |FirstSegment(p)| ==> '/' !in p[..k] && FirstSegment(p)[k] == p[k]
  {
    var seg := FirstSegment(p);
    forall k | 0 <= k < |p| && '/' !in p[..k]
      ensures p[k] == '/' || (k < |seg| && seg[k] == p[k])
    {
      if k < |seg| {
        assert p[..|seg|] == seg;
      }
    }
    forall k | 0 <= k < |seg|
      ensures '/' !in p[..k] && seg[k] == p[k]
    {
      assert p[..k] == seg[..k];
    }
  }

  /** `ImportOrder.Less(i, j)` on the two packages' paths `l` and `r`. */
  predicate Less(l: string, r: string): (b: bool)
    ensures IsStandard(l) != IsStandard(r) ==> (b <==> IsStandard(l))
  {
    if IsStandard(l) then
      if IsStandard(r) then LexLess(l, r) else true
    else
      if IsStandard(r) then false else LexLess(l, r)
  }

  /** Sorted by `Less`: no later package is `Less` than an earlier one. */
  ghost predicate SortedByPath(s: seq<Package>)
  {
    forall i, j :: 0 <= i < j < |s| ==> !Less(s[j].pkgPath, s[i].pkgPath)
  }

  // ---------------------------------------------------------------------------
  // Properties of the string order

  lemma {:induction false} LexLessIrreflexive(s: string)
    ensures !LexLess(s, s)
    decreases |s|
  {
    if s != [] {
      LexLessIrreflexive(s[1..]);
    }
  }

  lemma {:induction false} LexLessTransitive(a: string, b: string, c: string)
    requires LexLess(a, b) && LexLess(b, c)
    ensures LexLess(a, c)
    decreases |a|
  {
    if a != [] && a[0] == b[0] && b[0] == c[0] {
      LexLessTransitive(a[1..], b[1..], c[1..]);
    }
  }

  lemma {:induction false} LexLessConnected(a: string, b: string)
    requires a != b
    ensures LexLess(a, b) || LexLess(b, a)
    decreases |a|
  {
    if a != [] && b != [] && a[0] == b[0] {
      assert a[1..] != b[1..] by {
        assert a == [a[0]] + a[1..] && b == [b[0]] + b[1..];
      }
      LexLessConnected(a[1..], b[1..]);
    }
  }

  /** Strings that agree on their first `k` characters and differ at `k` are ordered by that character. */
  lemma {:induction false} LexLessAt(l: string, r: string, k: nat)
    requires k < |l| && k < |r| && l[..k] == r[..k] && l[k] < r[k]
    ensures LexLess(l, r)
    decreases k
  {
    if k > 0 {
      assert l[0] == l[..k][0] && r[0] == r[..k][0];
      assert l[1..][..k - 1] == l[..k][1..] && r[1..][..k - 1] == r[..k][1..];
      LexLessAt(l[1..], r[1..], k - 1);
    }
  }

  // ---------------------------------------------------------------------------
  // Properties of ImportOrder.Less

  lemma LessIrreflexive(p: string)
    ensures !Less(p, p)
  {
    LexLessIrreflexive(p);
  }

  lemma LessTransitive(a: string, b: string, c: string)
    requires Less(a, b) && Less(b, c)
    ensures Less(a, c)
  {
    if IsStandard(a) == IsStandard(b) && IsStandard(b) == IsStandard(c) {
      LexLessTransitive(a, b, c);
    }
  }

  /** Distinct paths are always ordered one way or the other. */
  lemma LessConnected(a: string, b: string)
    requires a != b
    ensures Less(a, b) || Less(b, a)
  {
    LexLessConnected(a, b);
  }

  lemma LessAsymmetric(a: string, b: string)
    requires Less(a, b)
    ensures !Less(b, a)
  {
    if Less(b, a) {
      LessTransitive(a, b, a);
      LessIrreflexive(a);
    }
  }

  /** "Not less" is transitive too, which is what sorting relies on. */
  lemma NotLessTransitive(a: string, b: string, c: string)
    requires !Less(a, b) && !Less(b, c)
    ensures !Less(a, c)
  {
    if Less(a, c) {
      if a == b || b == c {
      } else {
        LessConnected(a, b);
        LessConnected(b, c);
        LessTransitive(c, b, a);
        LessAsymmetric(a, c);
      }
    }
  }

  /** A standard-library path precedes every third-party path. */
  lemma StandardFirst(std: string, third: string)
    requires IsStandard(std) && !IsStandard(third)
    ensures Less(std, third) && !Less(third, std)
  {
  }

  /** A path without any `.` is a standard-library path. */
  lemma NoDotIsStandard(p: string)
    requires '.' !in p
    ensures IsStandard(p)
  {
    var seg := FirstSegment(p);
    assert forall i :: 0 <= i < |seg| ==> seg[i] == p[i];
  }

  /** A path with a `.` before its first `/` is a third-party path. */
  lemma {:induction false} DotInFirstSegment(p: string, k: nat)
    requires k < |p| && p[k] == '.' && '/' !in p[..k]
    ensures !IsStandard(p)
    decreases k
  {
    if k > 0 {
      assert p[1..][..k - 1] == p[..k][1..];
      DotInFirstSegment(p[1..], k - 1);
      assert FirstSegment(p) == [p[0]] + FirstSegment(p[1..]);
    }
  }

  /** Within one group the order is plain string order. */
  lemma WithinGroupIsStringOrder(a: string, b: string)
    requires IsStandard(a) == IsStandard(b)
    ensures Less(a, b) == LexLess(a, b)
  {
  }

  // ---------------------------------------------------------------------------
  // The sort

  /** `ImportOrder.Swap(i, j)`. */
  method Swap(a: array<Package>, i: int, j: int)
    requires 0 <= i < a.Length && 0 <= j < a.Length
    modifies a
    ensures a[..] == old(a[..])[i := old(a[j])][j := old(a[i])]
    ensures multiset(a[..]) == multiset(old(a[..]))
  {
    a[i], a[j] := a[j], a[i];
  }

  /**
   * Sorts the packages in place by `Less`, using only `Less` and `Swap` as
   * `sort.Sort` does (an insertion sort; its stability is not claimed).
   */
  method Sort(a: array<Package>)
    modifies a
    ensures SortedByPath(a[..])
    ensures multiset(a[..]) == multiset(old(a[..]))
  {
    var i := 0;
    while i < a.Length
      invariant 0 <= i <= a.Length
      invariant SortedByPath(a[..i])
      invariant multiset(a[..]) == multiset(old(a[..]))
    {
      Insert(a, i);
      i := i + 1;
    }
    assert a[..a.Length] == a[..];
  }

  /** Moves `a[i]` left past every element it is `Less` than, so that `a[..i+1]` is sorted. */
  method Insert(a: array<Package>, i: nat)
    requires i < a.Length && SortedByPath(a[..i])
    modifies a
    ensures SortedByPath(a[..i + 1])
    ensures multiset(a[..]) == multiset(old(a[..]))
    ensures a[i + 1..] == old(a[i + 1..])
    ensures multiset(a[..i + 1]) == multiset(old(a[..i + 1]))
  {
    var j := i;
    SortedExceptFrom(a[..], i);
    while j > 0 && Less(a[j].pkgPath, a[j - 1].pkgPath)
      invariant 0 <= j <= i
      invariant SortedExcept(a[..], i, j) && NoneLessAfter(a[..], j, i)
      invariant multiset(a[..]) == multiset(old(a[..]))
      invariant a[i + 1..] == old(a[i + 1..])
    {
      SwapStep(a[..], j, i);
      Swap(a, j - 1, j);
      j := j - 1;
    }
    InsertDone(a[..], j, i);
    SameSuffixSamePrefix(a[..], old(a[..]), i + 1);
  }

  /** Two sequences with the same elements and the same suffix from `k` on have the same elements before `k`. */
  lemma SameSuffixSamePrefix<T>(s: seq<T>, t: seq<T>, k: nat)
    requires k <= |s| == |t| && multiset(s) == multiset(t) && s[k..] == t[k..]
    ensures multiset(s[..k]) == multiset(t[..k])
  {
    assert s == s[..k] + s[k..] && t == t[..k] + t[k..];
    assert multiset(s[..k]) == multiset(s) - multiset(s[k..]);
    assert multiset(t[..k]) == multiset(t) - multiset(t[k..]);
  }

  /** `s[..hi+1]` is sorted but for the element at `j`. */
  ghost predicate SortedExcept(s: seq<Package>, hi: nat, j: nat)
    requires hi < |s|
  {
    forall k, l :: 0 <= k < l <= hi && k != j && l != j ==> !Less(s[l].pkgPath, s[k].pkgPath)
  }

  /** Nothing in `s[j+1..hi+1]` is `Less` than `s[j]`. */
  ghost predicate NoneLessAfter(s: seq<Package>, j: nat, hi: nat)
    requires j <= hi < |s|
  {
    forall l :: j < l <= hi ==> !Less(s[l].pkgPath, s[j].pkgPath)
  }

  lemma SortedExceptFrom(s: seq<Package>, i: nat)
    requires i < |s| && SortedByPath(s[..i])
    ensures SortedExcept(s, i, i) && NoneLessAfter(s, i, i)
  {
    forall k, l | 0 <= k < l <= i && k != i && l != i
      ensures !Less(s[l].pkgPath, s[k].pkgPath)
    {
      assert s[..i][k] == s[k] && s[..i][l] == s[l];
    }
  }

  lemma SwapStep(s: seq<Package>, j: nat, hi: nat)
    requires 0 < j <= hi < |s|
    requires SortedExcept(s, hi, j) && NoneLessAfter(s, j, hi)
    requires Less(s[j].pkgPath, s[j - 1].pkgPath)
    ensures SortedExcept(s[j - 1 := s[j]][j := s[j - 1]], hi, j - 1)
    ensures NoneLessAfter(s[j - 1 := s[j]][j := s[j - 1]], j - 1, hi)
  {
    LessAsymmetric(s[j].pkgPath, s[j - 1].pkgPath);
  }

  lemma InsertDone(s: seq<Package>, j: nat, hi: nat)
    requires j <= hi < |s|
    requires SortedExcept(s, hi, j) && NoneLessAfter(s, j, hi)
    requires j == 0 || !Less(s[j].pkgPath, s[j - 1].pkgPath)
    ensures SortedByPath(s[..hi + 1])
  {
    forall k | 0 <= k < j
      ensures !Less(s[j].pkgPath, s[k].pkgPath)
    {
      if k < j - 1 {
        NotLessTransitive(s[j].pkgPath, s[j - 1].pkgPath, s[k].pkgPath);
      }
    }
    var t := s[..hi + 1];
    forall k, l | 0 <= k < l < |t|
      ensures !Less(t[l].pkgPath, t[k].pkgPath)
    {
      assert t[k] == s[k] && t[l] == s[l];
    }
  }

  /**
   * A sorted order is unique when the paths are distinct: any two sortings
   * of the same packages agree.
   */
  lemma {:induction false} SortedUnique(p: seq<Package>, q: seq<Package>)
    requires SortedByPath(p) && SortedByPath(q)
    requires multiset(p) == multiset(q)
    requires forall i, j :: 0 <= i < j < |p| ==> p[i].pkgPath != p[j].pkgPath
    ensures p == q
    decreases |p|
  {
    assert |q| == |p| by {
      assert |multiset(q)| == |multiset(p)|;
    }
    if p != [] {
      SameFirst(p, q);
      SameTail(p, q);
      SortedTail(p);
      SortedTail(q);
      assert forall i, j :: 0 <= i < j < |p[1..]| ==> p[1..][i].pkgPath != p[1..][j].pkgPath by {
        assert forall i :: 0 <= i < |p[1..]| ==> p[1..][i] == p[i + 1];
      }
      SortedUnique(p[1..], q[1..]);
      assert p == [p[0]] + p[1..] && q == [q[0]] + q[1..];
    }
  }

  lemma SameTail<T>(p: seq<T>, q: seq<T>)
    requires p != [] && q != [] && p[0] == q[0] && multiset(p) == multiset(q)
    ensures multiset(p[1..]) == multiset(q[1..])
  {
    assert p == [p[0]] + p[1..] && q == [q[0]] + q[1..];
    assert multiset(p) == multiset{p[0]} + multiset(p[1..]);
    assert multiset(q) == multiset{p[0]} + multiset(q[1..]);
    assert multiset(p[1..]) == multiset(p) - multiset{p[0]};
    assert multiset(q[1..]) == multiset(q) - multiset{p[0]};
  }

  lemma SortedTail(p: seq<Package>)
    requires p != [] && SortedByPath(p)
    ensures SortedByPath(p[1..])
  {
    forall i, j | 0 <= i < j < |p[1..]|
      ensures !Less(p[1..][j].pkgPath, p[1..][i].pkgPath)
    {
      assert p[1..][i] == p[i + 1] && p[1..][j] == p[j + 1];
    }
  }

  lemma SameFirst(p: seq<Package>, q: seq<Package>)
    requires p != [] && q != []
    requires SortedByPath(p) && SortedByPath(q)
    requires multiset(p) == multiset(q)
    requires forall i, j :: 0 <= i < j < |p| ==> p[i].pkgPath != p[j].pkgPath
    ensures p[0] == q[0]
  {
    assert q[0] in multiset(p);
    var k :| 0 <= k < |p| && p[k] == q[0];
    assert p[0] in multiset(q);
    var m :| 0 <= m < |q| && q[m] == p[0];
    if k != 0 {
      assert !Less(p[k].pkgPath, p[0].pkgPath);
      if m != 0 {
        assert !Less(q[m].pkgPath, q[0].pkgPath);
      }
      LessConnected(p[0].pkgPath, p[k].pkgPath);
    }
  }
}
