/** The statistics array's in-place quicksort. Its partition loop stops as soon as
    the two indices meet, so both recursive calls may include the cell they met on. */
module QuickSort {
  ghost predicate Sorted(s: seq<int>) {
    forall i, j :: 0 <= i < j < |s| ==> s[i] <= s[j]
  }

  /** `t` rearranges the cells `lo..hi` of `s` and nothing else. */
  ghost predicate Rearranges(s: seq<int>, t: seq<int>, lo: int, hi: int)
    requires 0 <= lo <= hi <= |s|
  {
    && |t| == |s|
    && multiset(t[lo..hi]) == multiset(s[lo..hi])
    && t[..lo] == s[..lo] && t[hi..] == s[hi..]
  }

  /** Rearranging a part rearranges the whole. */
  lemma RearrangesMore(s: seq<int>, t: seq<int>, lo: int, l: int, h: int, hi: int)
    requires 0 <= lo <= l <= h <= hi <= |s| && Rearranges(s, t, l, h)
    ensures Rearranges(s, t, lo, hi)
  {
    assert s[lo..hi] == s[lo..l] + s[l..h] + s[h..hi];
    assert t[lo..hi] == t[lo..l] + t[l..h] + t[h..hi];
    assert t[lo..l] == t[..l][lo..] == s[..l][lo..] == s[lo..l];
    assert t[h..hi] == t[h..][..hi - h] == s[h..][..hi - h] == s[h..hi];
    assert t[..lo] == t[..l][..lo] == s[..l][..lo] == s[..lo];
    assert t[hi..] == t[h..][hi - h..] == s[h..][hi - h..] == s[hi..];
  }

  lemma SwapRearranges(s: seq<int>, lo: int, i: int, j: int, hi: int)
    requires 0 <= lo <= i <= j < hi <= |s|
    ensures Rearranges(s, s[i := s[j]][j := s[i]], lo, hi)
  {
    var t := s[i := s[j]][j := s[i]];
    SwapEnds(s, i, j);
    RearrangesMore(s, t, lo, i, j + 1, hi);
  }

  lemma SwapEnds(s: seq<int>, i: int, j: int)
    requires 0 <= i <= j < |s|
    ensures Rearranges(s, s[i := s[j]][j := s[i]], i, j + 1)
  {
    var t := s[i := s[j]][j := s[i]];
    if i < j {
      var mid := s[i + 1..j];
      assert s[i..j + 1] == [s[i]] + mid + [s[j]];
      assert t[i..j + 1] == [s[j]] + mid + [s[i]];
    } else {
      assert t == s;
    }
  }

  /** Cell `k` of a rearranged range held some cell of that range before. */
  lemma CameFrom(s: seq<int>, t: seq<int>, lo: int, hi: int, k: int) returns (j: int)
    requires 0 <= lo <= k < hi <= |s| && Rearranges(s, t, lo, hi)
    ensures lo <= j < hi && s[j] == t[k]
  {
    assert t[lo..hi][k - lo] == t[k];
    assert t[k] in multiset(t[lo..hi]);
    assert t[k] in s[lo..hi];
    var i :| 0 <= i < |s[lo..hi]| && s[lo..hi][i] == t[k];
    j := lo + i;
  }

  /** If only the last element may exceed `p`, then after sorting only the last may. */
  lemma SharedCell(s: seq<int>, t: seq<int>, p: int)
    requires |s| > 0 && multiset(s) == multiset(t) && Sorted(t)
    requires forall i :: 0 <= i < |s| - 1 ==> s[i] <= p
    ensures |t| == |s| && forall i :: 0 <= i < |t| - 1 ==> t[i] <= p
  {
    assert |t| == |multiset(t)| == |s|;
    var n := |s| - 1;
    var c := s[n];
    assert s == s[..n] + [c];
    assert t == t[..n] + [t[n]];
    assert c > p ==> multiset(s[..n])[c] == 0;
    forall i | 0 <= i < n ensures t[i] <= p {
      var x, y := t[i], t[n];
      assert x in multiset(s) && y in multiset(s) && x in multiset(t[..n]);
      assert x > p ==> x == c && y == c;
    }
  }

  /** Where the two indices of a partition may end up. */
  predicate Crossed(lo: int, hi: int, low: int, high: int) {
    lo < low && high < hi && lo - 1 <= high && low <= hi + 1 && high <= low <= high + 2
  }

  ghost predicate Split(s: seq<int>, lo: int, hi: int, low: int, high: int, p: int)
    requires 0 <= lo && hi < |s|
  {
    && (forall i :: lo <= i < low && i <= hi ==> s[i] <= p)
    && (forall i :: high < i <= hi && lo <= i ==> s[i] >= p)
  }

  /** Before the first swap the pivot is in the middle; later there is something
      on either side. These cells stop the scans. */
  ghost predicate Guarded(s: seq<int>, lo: int, hi: int, low: int, high: int, p: int)
    requires 0 <= lo <= hi < |s|
  {
    || (low == lo && high == hi && s[(lo + hi) / 2] == p)
    || (lo < low && high < hi)
  }

  /** The two inner loops. */
  method Scan(a: array<int>, lo: int, hi: int, from: int, to: int, pivot: int) returns (low: int, high: int)
    requires 0 <= lo < hi < a.Length && lo <= from < to <= hi
    requires Split(a[..], lo, hi, from, to, pivot) && Guarded(a[..], lo, hi, from, to, pivot)
    ensures from <= low && high <= to && low <= high + 1 && Split(a[..], lo, hi, low, high, pivot)
    ensures low <= high ==> a[low] >= pivot && a[high] <= pivot
    ensures low > high ==> lo < from && to < hi
  {
    low, high := from, to;
    ghost var first := !(lo < from && to < hi);
    ghost var top := if first then (lo + hi) / 2 else to + 1;
    while a[low] < pivot
      invariant from <= low <= top
      invariant forall i :: lo <= i < low ==> a[i] <= pivot
      decreases top - low
    {
      low := low + 1;
    }
    ghost var bottom := if first then (lo + hi) / 2 else low - 1;
    while a[high] > pivot
      invariant bottom <= high <= to
      invariant forall i :: high < i <= hi ==> a[i] >= pivot
      decreases high - bottom
    {
      high := high - 1;
    }
  }

  /** The partition loop. */
  method Partition(a: array<int>, lo: int, hi: int) returns (low: int, high: int, ghost p: int)
    requires 0 <= lo <= hi < a.Length
    modifies a
    ensures lo < hi ==> Crossed(lo, hi, low, high) && Split(a[..], lo, hi, low, high, p)
    ensures lo == hi ==> low == high == lo
    ensures Rearranges(old(a[..]), a[..], lo, hi + 1)
  {
    low, high := lo, hi;
    var pivot := a[(low + high) / 2];
    p := pivot;
    while low < high
      invariant lo <= low && high <= hi && low <= high + 2 && (lo == hi ==> low == high == lo)
      invariant Guarded(a[..], lo, hi, low, high, pivot)
      invariant Split(a[..], lo, hi, low, high, pivot)
      invariant Rearranges(old(a[..]), a[..], lo, hi + 1)
      decreases high - low
    {
      low, high := Scan(a, lo, hi, low, high, pivot);
      if low <= high {
        SwapCells(a, lo, hi, low, high);
        low := low + 1;
        high := high - 1;
      }
    }
  }

  method SwapCells(a: array<int>, ghost lo: int, ghost hi: int, low: int, high: int)
    requires 0 <= lo <= low <= high <= hi < a.Length
    modifies a
    ensures a[..] == old(a[..][low := a[high]][high := a[low]])
    ensures Rearranges(old(a[..]), a[..], lo, hi + 1)
  {
    SwapRearranges(a[..], lo, low, high, hi + 1);
    var tmp := a[low];
    a[low] := a[high];
    a[high] := tmp;
  }

  /** The range is sorted below `low`, and no cell below exceeds one from `low` on. */
  ghost predicate LowerDone(s: seq<int>, lo: int, low: int, hi: int)
    requires 0 <= lo <= low <= hi + 1 <= |s|
  {
    && Sorted(s[lo..low])
    && (forall i, j :: lo <= i < low <= j <= hi ==> s[i] <= s[j])
  }

  /** After the first recursive call, also when the two ranges share a cell. */
  lemma AfterLower(s: seq<int>, t: seq<int>, lo: int, hi: int, low: int, high: int, p: int)
    requires 0 <= lo < hi < |s| && Crossed(lo, hi, low, high) && Split(s, lo, hi, low, high, p)
    requires if lo < high then Rearranges(s, t, lo, high + 1) && Sorted(t[lo..high + 1]) else t == s
    ensures LowerDone(t, lo, low, hi)
  {
    if lo < high {
      LowerBound(s, t, lo, hi, low, high, p);
      assert t[high + 1..] == s[high + 1..];
      forall j | high < j <= hi ensures t[j] == s[j] {
        assert t[j] == t[high + 1..][j - high - 1];
        assert s[j] == s[high + 1..][j - high - 1];
      }
      forall i, j | lo <= i < j <= high ensures t[i] <= t[j] {
        assert t[i] == t[lo..high + 1][i - lo] && t[j] == t[lo..high + 1][j - lo];
      }
    }
  }

  lemma LowerBound(s: seq<int>, t: seq<int>, lo: int, hi: int, low: int, high: int, p: int)
    requires 0 <= lo < high < hi < |s| && Crossed(lo, hi, low, high) && Split(s, lo, hi, low, high, p)
    requires Rearranges(s, t, lo, high + 1) && Sorted(t[lo..high + 1])
    ensures forall i :: lo <= i <= high && i < low ==> t[i] <= p
  {
    var s1, t1 := s[lo..high + 1], t[lo..high + 1];
    SharedCell(s1, t1, p);
    forall i | lo <= i <= high && i < low ensures t[i] <= p {
      if i < high {
        assert t[i] == t1[i - lo];
      } else {
        var j := CameFrom(s, t, lo, high + 1, i);
      }
    }
  }

  /** After the second call everything is in order. */
  lemma AfterUpper(s: seq<int>, t: seq<int>, lo: int, low: int, hi: int)
    requires 0 <= lo < low <= hi + 1 && hi < |s| && LowerDone(s, lo, low, hi)
    requires if low < hi then Rearranges(s, t, low, hi + 1) && Sorted(t[low..hi + 1]) else t == s
    ensures Sorted(t[lo..hi + 1])
  {
    forall i | lo <= i < low ensures t[i] == s[i] {
      assert t[..low][i] == s[..low][i];
    }
    forall i, j | lo <= i < j <= hi ensures t[i] <= t[j] {
      if j < low {
        assert s[lo..low][i - lo] <= s[lo..low][j - lo];
      } else if i < low {
        if low < hi {
          var k := CameFrom(s, t, low, hi + 1, j);
        }
      } else {
        assert low < hi && t[low..hi + 1][i - low] <= t[low..hi + 1][j - low];
      }
    }
  }

  /** What a call on `lo..hi` does, nothing if the guard fails. */
  ghost predicate Sorts(s: seq<int>, t: seq<int>, lo: int, hi: int, guard: bool)
    requires guard ==> 0 <= lo <= hi < |s|
  {
    if guard then Rearranges(s, t, lo, hi + 1) && Sorted(t[lo..hi + 1]) else t == s
  }

  lemma Combine(s: seq<int>, s0: seq<int>, s1: seq<int>, s2: seq<int>, lo: int, hi: int, low: int, high: int, p: int)
    requires 0 <= lo < hi < |s| && Rearranges(s, s0, lo, hi + 1)
    requires Crossed(lo, hi, low, high) && Split(s0, lo, hi, low, high, p)
    requires Sorts(s0, s1, lo, high, lo < high) && |s1| == |s| && Sorts(s1, s2, low, hi, low < hi)
    ensures Sorts(s, s2, lo, hi, true)
  {
    AfterLower(s0, s1, lo, hi, low, high, p);
    AfterUpper(s1, s2, lo, low, hi);
    if lo < high {
      RearrangesMore(s0, s1, lo, lo, high + 1, hi + 1);
    }
    if low < hi {
      RearrangesMore(s1, s2, lo, low, hi + 1, hi + 1);
    }
  }

  /** `quicksort` on the cells `lo..hi`, both included: it stays in bounds, terminates
      and leaves a sorted rearrangement. */
  method Quicksort(a: array<int>, lo: int, hi: int)
    requires 0 <= lo <= hi < a.Length
    modifies a
    ensures Sorts(old(a[..]), a[..], lo, hi, true)
    decreases hi - lo
  {
    var low, high, p := Partition(a, lo, hi);
    ghost var s0 := a[..];
    if lo < high {
      Quicksort(a, lo, high);
    }
    ghost var s1 := a[..];
    if low < hi {
      Quicksort(a, low, hi);
    }
    if lo < hi {
      Combine(old(a[..]), s0, s1, a[..], lo, hi, low, high, p);
    }
  }
}
