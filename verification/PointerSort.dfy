/** Sorting the list of live entries by address, and searching it. */
module PointerSort {

  ghost predicate Sorted(s: seq<int>) {
    forall i, j :: 0 <= i < j < |s| ==> s[i] <= s[j]
  }

  ghost predicate StrictlySorted(s: seq<int>) {
    forall i, j :: 0 <= i < j < |s| ==> s[i] < s[j]
  }

  /** `t` is `s` with the elements from `lo` to `hi` permuted. */
  ghost predicate Permuted(s: seq<int>, t: seq<int>, lo: int, hi: int)
    requires 0 <= lo <= hi <= |s|
  {
    && |t| == |s| && t[..lo] == s[..lo] && t[hi..] == s[hi..]
    && multiset(t[lo..hi]) == multiset(s[lo..hi])
  }

  lemma SliceMultiset(s: seq<int>, lo: int, mid: int, hi: int)
    requires 0 <= lo <= mid <= hi <= |s|
    ensures multiset(s[lo..hi]) == multiset(s[lo..mid]) + multiset(s[mid..hi])
  {
    assert s[lo..hi] == s[lo..mid] + s[mid..hi];
  }

  lemma SwapPermutes(s: seq<int>, i: int, j: int, lo: int, hi: int)
    requires 0 <= lo <= i < hi <= |s| && lo <= j < hi
    ensures Permuted(s, s[i := s[j]][j := s[i]], lo, hi)
  {
    var t := s[i := s[j]][j := s[i]];
    var u, v := s[lo..hi], t[lo..hi];
    assert v == u[i - lo := u[j - lo]][j - lo := u[i - lo]];
    assert multiset(v) == multiset(u);
  }

  lemma PermutedTrans(s: seq<int>, t: seq<int>, u: seq<int>, lo: int, hi: int)
    requires 0 <= lo <= hi <= |s| && Permuted(s, t, lo, hi) && Permuted(t, u, lo, hi)
    ensures Permuted(s, u, lo, hi)
  {
  }

  /** A permutation of a part permutes the whole. */
  lemma PermutedWiden(s: seq<int>, t: seq<int>, lo: int, hi: int, lo': int, hi': int)
    requires 0 <= lo' <= lo <= hi <= hi' <= |s| && Permuted(s, t, lo, hi)
    ensures Permuted(s, t, lo', hi')
  {
    assert t[..lo'] == t[..lo][..lo'] == s[..lo][..lo'] == s[..lo'];
    assert t[hi'..] == t[hi..][hi' - hi..] == s[hi..][hi' - hi..] == s[hi'..];
    assert t[lo'..lo] == t[..lo][lo'..] == s[..lo][lo'..] == s[lo'..lo];
    assert t[hi..hi'] == t[hi..][..hi' - hi] == s[hi..][..hi' - hi] == s[hi..hi'];
    SliceMultiset(s, lo', lo, hi'); SliceMultiset(s, lo, hi, hi');
    SliceMultiset(t, lo', lo, hi'); SliceMultiset(t, lo, hi, hi');
  }

  /** A bound on a range survives permuting it. */
  lemma PermutedBounds(s: seq<int>, t: seq<int>, lo: int, hi: int, pivot: int)
    requires 0 <= lo <= hi <= |s| && Permuted(s, t, lo, hi)
    ensures (forall k :: lo <= k < hi ==> s[k] <= pivot) ==> (forall k :: lo <= k < hi ==> t[k] <= pivot)
    ensures (forall k :: lo <= k < hi ==> pivot <= s[k]) ==> (forall k :: lo <= k < hi ==> pivot <= t[k])
    ensures forall k :: 0 <= k < lo || hi <= k < |s| ==> t[k] == s[k]
  {
    forall k | lo <= k < hi ensures exists j :: lo <= j < hi && s[j] == t[k] {
      assert t[lo..hi][k - lo] in multiset(t[lo..hi]);
      assert t[k] in s[lo..hi];
      var j :| 0 <= j < hi - lo && s[lo..hi][j] == t[k];
      assert s[lo + j] == t[k];
    }
    forall k | 0 <= k < lo ensures t[k] == s[k] { assert t[..lo][k] == s[..lo][k]; }
    forall k | hi <= k < |s| ensures t[k] == s[k] { assert t[hi..][k - hi] == s[hi..][k - hi]; }
  }

  /** Advance over elements below the pivot; `stop` is a position that ends the scan. */
  method ScanUp(a: array<int>, left: nat, p: int, ghost stop: int) returns (l: nat)
    requires left <= stop < a.Length && p <= a[stop]
    ensures left <= l <= stop && p <= a[l] && forall k :: left <= k < l ==> a[k] <= p
  {
    l := left;
    while a[l] < p
      invariant left <= l <= stop && forall k :: left <= k < l ==> a[k] <= p
      decreases stop - l
    {
      l := l + 1;
    }
  }

  method ScanDown(a: array<int>, right: nat, p: int, ghost stop: int) returns (r: nat)
    requires 0 <= stop <= right < a.Length && a[stop] <= p
    ensures stop <= r <= right && a[r] <= p && forall k :: r < k <= right ==> p <= a[k]
  {
    r := right;
    while a[r] > p
      invariant stop <= r <= right && forall k :: r < k <= right ==> p <= a[k]
      decreases r - stop
    {
      r := r - 1;
    }
  }

  method Swap(a: array<int>, i: nat, j: nat, ghost lo: int, ghost hi: int)
    requires 0 <= lo <= i < hi <= a.Length && lo <= j < hi
    modifies a
    ensures a[i] == old(a[j]) && a[j] == old(a[i])
    ensures forall k :: 0 <= k < a.Length && k != i && k != j ==> a[k] == old(a[k])
    ensures Permuted(old(a[..]), a[..], lo, hi)
  {
    ghost var s := a[..];
    SwapPermutes(s, i, j, lo, hi);
    a[i], a[j] := a[j], a[i];
    assert a[..] == s[i := s[j]][j := s[i]];
  }

  /** One partition round: everything before `left` is at most the pivot, everything after `right` at least. */
  method Partition(a: array<int>, lo: nat, hi: nat) returns (left: nat, right: int, ghost pivot: int)
    requires lo + 1 < hi <= a.Length
    modifies a
    ensures Permuted(old(a[..]), a[..], lo, hi)
    ensures lo < left <= hi && lo - 1 <= right < hi - 1 && right < left
    ensures forall k :: lo <= k <= right ==> a[k] <= pivot
    ensures forall k :: right < k < left ==> a[k] == pivot
    ensures forall k :: left <= k < hi ==> pivot <= a[k]
  {
    hide Permuted;
    ghost var s0 := a[..];
    PermutedSame(s0, lo, hi);
    var mid := lo + (hi - lo) / 2;
    var p := a[mid];
    pivot := p;
    left, right := lo, hi - 1;
    ghost var stopL, stopR := mid, mid;
    while left <= right
      invariant lo <= left <= hi && lo - 1 <= right < hi
      invariant forall k :: lo <= k < left ==> a[k] <= p
      invariant forall k :: right < k < hi ==> p <= a[k]
      invariant left <= right ==> left <= stopL < hi && p <= a[stopL] && lo <= stopR <= right && a[stopR] <= p
      invariant if left == lo then right == hi - 1 else right < hi - 1
      invariant Permuted(s0, a[..], lo, hi)
      decreases right - left
    {
      left := ScanUp(a, left, p, stopL);
      right := ScanDown(a, right, p, stopR);
      if left <= right {
        ghost var s := a[..];
        Swap(a, left, right, lo, hi);
        PermutedTrans(s0, s, a[..], lo, hi);
        stopL, stopR := right, left;
        left := left + 1;
        right := right - 1;
      }
    }
  }

  lemma JoinSorted(s: seq<int>, lo: int, right: int, left: int, hi: int, pivot: int)
    requires 0 <= lo <= right + 1 <= left <= hi <= |s|
    requires Sorted(s[lo..right + 1]) && Sorted(s[left..hi])
    requires forall k :: lo <= k <= right ==> s[k] <= pivot
    requires forall k :: right < k < left ==> s[k] == pivot
    requires forall k :: left <= k < hi ==> pivot <= s[k]
    ensures Sorted(s[lo..hi])
  {
    forall i, j | lo <= i < j < hi ensures s[i] <= s[j] {
      if j <= right {
        assert s[lo..right + 1][i - lo] <= s[lo..right + 1][j - lo];
      } else if left <= i {
        assert s[left..hi][i - left] <= s[left..hi][j - left];
      }
    }
  }

  lemma SliceUnchanged(s: seq<int>, t: seq<int>, lo: int, hi: int, p: int, q: int)
    requires 0 <= lo <= hi <= |s| && Permuted(s, t, lo, hi)
    requires 0 <= p <= q <= lo || hi <= p <= q <= |s|
    ensures t[p..q] == s[p..q]
  {
    PermutedBounds(s, t, lo, hi, 0);
  }

  /** The in-place quicksort of `quicksort_pointers`. */
  method Quicksort(a: array<int>, lo: nat, hi: nat)
    requires lo <= hi <= a.Length
    modifies a
    ensures Permuted(old(a[..]), a[..], lo, hi) && Sorted(a[lo..hi])
    decreases hi - lo
  {
    hide Permuted, Sorted;
    ghost var s0 := a[..];
    if hi - lo <= 1 {
      PermutedSame(s0, lo, hi);
      SortedShort(a[lo..hi]);
      return;
    }
    var left, right;
    ghost var pivot;
    left, right, pivot := Partition(a, lo, hi);
    ghost var s1 := a[..];
    Quicksort(a, lo, right + 1);
    ghost var s2 := a[..];
    assert s2[lo..right + 1] == a[lo..right + 1];
    Quicksort(a, left, hi);
    assert a[..][left..hi] == a[left..hi];
    SortedBothSides(s0, s1, s2, a[..], lo, right, left, hi, pivot);
    assert a[lo..hi] == a[..][lo..hi];
  }

  /** Partitioning and then sorting both sides sorts the whole. */
  lemma SortedBothSides(s0: seq<int>, s1: seq<int>, s2: seq<int>, s3: seq<int>, lo: int, right: int, left: int, hi: int, pivot: int)
    requires 0 <= lo <= right + 1 <= left <= hi <= |s0| == |s1| == |s2| == |s3|
    requires Permuted(s0, s1, lo, hi) && Permuted(s1, s2, lo, right + 1) && Permuted(s2, s3, left, hi)
    requires Sorted(s2[lo..right + 1]) && Sorted(s3[left..hi])
    requires forall k :: lo <= k <= right ==> s1[k] <= pivot
    requires forall k :: right < k < left ==> s1[k] == pivot
    requires forall k :: left <= k < hi ==> pivot <= s1[k]
    ensures Permuted(s0, s3, lo, hi) && Sorted(s3[lo..hi])
  {
    hide Permuted, Sorted;
    PermutedBounds(s1, s2, lo, right + 1, pivot);
    PermutedWiden(s1, s2, lo, right + 1, lo, hi);
    PermutedTrans(s0, s1, s2, lo, hi);
    PermutedBounds(s2, s3, left, hi, pivot);
    SliceUnchanged(s2, s3, left, hi, lo, right + 1);
    PermutedWiden(s2, s3, left, hi, lo, hi);
    PermutedTrans(s0, s2, s3, lo, hi);
    JoinSorted(s3, lo, right, left, hi, pivot);
  }

  lemma SortedShort(s: seq<int>)
    requires |s| <= 1
    ensures Sorted(s)
  {
  }

  lemma PermutedSame(s: seq<int>, lo: int, hi: int)
    requires 0 <= lo <= hi <= |s|
    ensures Permuted(s, s, lo, hi)
  {
  }

  /** Sorting a duplicate-free list gives the strictly increasing list of the same elements. */
  lemma SortedDistinct(s: seq<int>, t: seq<int>)
    requires (forall i, j :: 0 <= i < j < |s| ==> s[i] != s[j]) && Permuted(s, t, 0, |s|) && Sorted(t)
    ensures StrictlySorted(t) && |t| == |s| && (set x | x in t) == (set x | x in s)
  {
    assert t[0..|s|] == t && s[0..|s|] == s;
    assert multiset(t) == multiset(s);
    forall x ensures x in t <==> x in s { assert x in multiset(t) <==> x in multiset(s); }
    forall i, j | 0 <= i < j < |t| ensures t[i] != t[j] {
      if t[i] == t[j] {
        CountTwice(t, i, j);
        CountOnce(s, t[i]);
      }
    }
  }

  lemma CountTwice(t: seq<int>, i: int, j: int)
    requires 0 <= i < j < |t| && t[i] == t[j]
    ensures multiset(t)[t[i]] >= 2
  {
    assert t == t[..j] + t[j..];
    assert t[..j][i] in multiset(t[..j]) && t[j..][0] in multiset(t[j..]);
    assert multiset(t) == multiset(t[..j]) + multiset(t[j..]);
  }

  lemma {:induction false} CountOnce(s: seq<int>, x: int)
    requires forall i, j :: 0 <= i < j < |s| ==> s[i] != s[j]
    ensures multiset(s)[x] <= 1
  {
    if |s| > 0 {
      CountOnce(s[1..], x);
      assert s == [s[0]] + s[1..];
      assert s[0] == x ==> x !in s[1..];
    }
  }

  /** Binary search: the index of `key`, or -1 when it is absent. */
  method BinarySearch(key: int, ptrs: seq<int>) returns (found: int)
    requires StrictlySorted(ptrs)
    ensures key in ptrs ==> 0 <= found < |ptrs| && ptrs[found] == key
    ensures key !in ptrs ==> found == -1
  {
    var low, high := 0, |ptrs| - 1;
    while low <= high
      invariant 0 <= low <= high + 1 <= |ptrs|
      invariant forall k :: 0 <= k < low ==> ptrs[k] != key
      invariant forall k :: high < k < |ptrs| ==> ptrs[k] != key
      decreases high - low
    {
      var mid := (low + high) / 2;
      if ptrs[mid] == key {
        return mid;
      }
      if ptrs[mid] < key {
        low := mid + 1;
      } else {
        high := mid - 1;
      }
    }
    found := -1;
  }
}
