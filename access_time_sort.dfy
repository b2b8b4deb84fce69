/**
 * `quicksort` and `partition`: an in-place sort of a `FileStatus[]` by access
 * time. `partition` keeps the first element as pivot and fills the hole it
 * leaves alternately from the right and from the left.
 */
module AccessTimeSort {
  import opened Entries

  /** The entries at positions `lo` to `hi` (both included) are in non-decreasing access-time order. */
  ghost predicate SortedBetween(s: seq<Entry>, lo: int, hi: int)
  {
    forall i, j :: lo <= i < j <= hi && 0 <= i && j < |s| ==> s[i].accessTime <= s[j].accessTime
  }

  /** The positions outside `lo` to `hi` (both included) hold the same entries in `s` and `t`. */
  ghost predicate SameOutside(s: seq<Entry>, t: seq<Entry>, lo: int, hi: int)
  {
    |s| == |t| && forall k :: 0 <= k < |s| && !(lo <= k <= hi) ==> s[k] == t[k]
  }

  /** Every entry at positions `lo` to `hi - 1` was accessed no later than `key`. */
  ghost predicate NoLaterThan(s: seq<Entry>, lo: int, hi: int, key: int)
  {
    forall k :: lo <= k < hi && 0 <= k < |s| ==> s[k].accessTime <= key
  }

  /** Every entry at positions `lo` to `hi - 1` was accessed no earlier than `key`. */
  ghost predicate NoEarlierThan(s: seq<Entry>, lo: int, hi: int, key: int)
  {
    forall k :: lo <= k < hi && 0 <= k < |s| ==> s[k].accessTime >= key
  }

  lemma MultisetSplit(s: seq<Entry>, lo: int, hi: int)
    requires 0 <= lo <= hi <= |s|
    ensures multiset(s[lo..hi]) == multiset(s) - multiset(s[..lo]) - multiset(s[hi..])
  {
    assert s == s[..lo] + s[lo..hi] + s[hi..];
    assert multiset(s) == multiset(s[..lo]) + multiset(s[lo..hi]) + multiset(s[hi..]);
  }

  /**
   * Two arrays with the same elements overall that agree outside `lo` to
   * `hi - 1` hold the same elements inside that range.
   */
  lemma SlicePermutation(s: seq<Entry>, t: seq<Entry>, lo: int, hi: int)
    requires 0 <= lo <= hi <= |s| == |t|
    requires multiset(s) == multiset(t)
    requires SameOutside(s, t, lo, hi - 1)
    ensures multiset(s[lo..hi]) == multiset(t[lo..hi])
  {
    assert s[..lo] == t[..lo];
    assert s[hi..] == t[hi..];
    MultisetSplit(s, lo, hi);
    MultisetSplit(t, lo, hi);
  }

  /** Filling the hole at `hole` from `src` moves the hole to `src` without changing the elements. */
  lemma MoveIntoHole(s: seq<Entry>, hole: int, src: int, pivot: Entry)
    requires 0 <= hole < |s| && 0 <= src < |s| && hole != src
    ensures multiset(s[hole := s[src]][src := pivot]) == multiset(s[hole := pivot])
  {
    var t := s[hole := s[src]];
    var u := s[hole := pivot];
    assert t[src := pivot] == u[hole := u[src]][src := u[hole]];
    assert t[src := pivot] == u[hole := s[src]][src := pivot];
    forall x
      ensures multiset(t[src := pivot])[x] == multiset(u)[x]
    {
    }
  }

  /** An entry accessed no later than the pivot written at the end of the low part extends it. */
  lemma WriteBelow(s: seq<Entry>, hole: int, x: Entry, lo0: int, lo1: int, hi1: int, key: int)
    requires 0 <= hole < lo1 && hole < |s| && x.accessTime <= key
    requires NoLaterThan(s, lo0, hole, key) && NoEarlierThan(s, lo1, hi1, key)
    ensures NoLaterThan(s[hole := x], lo0, hole + 1, key) && NoEarlierThan(s[hole := x], lo1, hi1, key)
  {
  }

  /** An entry accessed no earlier than the pivot written just below the high part extends it. */
  lemma WriteAbove(s: seq<Entry>, hole: int, x: Entry, lo0: int, hi0: int, hi1: int, key: int)
    requires hi0 <= hole < |s| && 0 <= hole && x.accessTime >= key
    requires NoLaterThan(s, lo0, hi0, key) && NoEarlierThan(s, hole + 1, hi1, key)
    ensures NoLaterThan(s[hole := x], lo0, hi0, key) && NoEarlierThan(s[hole := x], hole, hi1, key)
  {
  }

  /**
   * The first half of a round of `partition`: move `right` down past entries
   * accessed no earlier than the pivot, then fill the hole at `left` from there.
   * The hole ends where `right` stops.
   */
  method FillFromRight(content: array<Entry>, left: int, right: int, pivot: Entry, ghost lo0: int, ghost hi0: int)
    returns (l: int, r: int)
    requires lo0 <= left < right <= hi0 < content.Length && 0 <= lo0
    requires NoLaterThan(content[..], lo0, left, pivot.accessTime)
    requires NoEarlierThan(content[..], right + 1, hi0 + 1, pivot.accessTime)
    modifies content
    ensures left <= l <= r <= right && r - l < right - left
    ensures multiset(content[..][r := pivot]) == multiset(old(content[..])[left := pivot])
    ensures NoLaterThan(content[..], lo0, l, pivot.accessTime)
    ensures NoEarlierThan(content[..], r + 1, hi0 + 1, pivot.accessTime)
    ensures content[..] == old(content[..])[left := content[left]]
  {
    ghost var s0 := content[..];
    l, r := left, right;
    while l < r && content[r].accessTime >= pivot.accessTime
      invariant l <= r <= right
      invariant NoEarlierThan(s0, r + 1, hi0 + 1, pivot.accessTime)
    {
      r := r - 1;
    }
    if l < r {
      MoveIntoHole(s0, l, r, pivot);
      WriteBelow(s0, l, s0[r], lo0, r + 1, hi0 + 1, pivot.accessTime);
      content[l] := content[r];
      assert content[..] == s0[l := s0[r]];
      l := l + 1;
    } else {
      assert content[..] == s0[left := s0[left]];
    }
  }
  /**
   * The second half of a round: move `left` up past entries accessed no later
   * than the pivot, then fill the hole at `right` from there. The hole ends
   * where `left` stops.
   */
  method FillFromLeft(content: array<Entry>, left: int, right: int, pivot: Entry, ghost lo0: int, ghost hi0: int)
    returns (l: int, r: int)
    requires lo0 <= left <= right <= hi0 < content.Length && 0 <= lo0
    requires NoLaterThan(content[..], lo0, left, pivot.accessTime)
    requires NoEarlierThan(content[..], right + 1, hi0 + 1, pivot.accessTime)
    modifies content
    ensures left <= l <= r <= right
    ensures multiset(content[..][l := pivot]) == multiset(old(content[..])[right := pivot])
    ensures NoLaterThan(content[..], lo0, l, pivot.accessTime)
    ensures NoEarlierThan(content[..], r + 1, hi0 + 1, pivot.accessTime)
    ensures content[..] == old(content[..])[right := content[right]]
  {
    ghost var s0 := content[..];
    l, r := left, right;
    while l < r && content[l].accessTime <= pivot.accessTime
      invariant left <= l <= r
      invariant NoLaterThan(s0, lo0, l, pivot.accessTime)
    {
      l := l + 1;
    }
    if l < r {
      MoveIntoHole(s0, r, l, pivot);
      WriteAbove(s0, r, s0[l], lo0, l, hi0 + 1, pivot.accessTime);
      content[r] := content[l];
      assert content[..] == s0[r := s0[l]];
      r := r - 1;
    } else {
      assert content[..] == s0[right := s0[right]];
    }
  }

  /**
   * `partition(content, left, right)`: the old `content[left]` ends at the
   * returned position, nothing later in the range is accessed earlier than it
   * and nothing before it later; only the range is rearranged.
   */
  method Partition(content: array<Entry>, left: int, right: int) returns (p: int)
    requires 0 <= left < content.Length && right < content.Length
    modifies content
    ensures left <= right ==> left <= p <= right
    ensures left > right ==> p == left
    ensures content[p] == old(content[left])
    ensures NoLaterThan(content[..], left, p, content[p].accessTime)
    ensures NoEarlierThan(content[..], p + 1, right + 1, content[p].accessTime)
    ensures multiset(content[..]) == old(multiset(content[..]))
    ensures SameOutside(content[..], old(content[..]), left, right)
  {
    var pivot := content[left];
    var lo, hi := left, right;
    while lo < hi
      invariant left <= lo && hi <= right && (lo <= hi || (lo == left && hi == right))
      invariant multiset(content[..][lo := pivot]) == old(multiset(content[..]))
      invariant NoLaterThan(content[..], left, lo, pivot.accessTime)
      invariant NoEarlierThan(content[..], hi + 1, right + 1, pivot.accessTime)
      invariant SameOutside(content[..], old(content[..]), left, right)
      decreases hi - lo
    {
      lo, hi := FillFromRight(content, lo, hi, pivot, left, right);
      lo, hi := FillFromLeft(content, lo, hi, pivot, left, right);
    }
    ghost var s := content[..];
    content[lo] := pivot;
    assert content[..] == s[lo := pivot];
    PlacePivot(s, old(content[..]), lo, left, right, pivot);
    p := lo;
  }

  /** Writing the pivot into the last hole leaves the bounds on both sides and the outside intact. */
  lemma PlacePivot(s: seq<Entry>, s0: seq<Entry>, lo: int, left: int, right: int, pivot: Entry)
    requires 0 <= left <= lo < |s| && right < |s|
    requires NoLaterThan(s, left, lo, pivot.accessTime) && NoEarlierThan(s, lo + 1, right + 1, pivot.accessTime)
    requires SameOutside(s, s0, left, right) && (lo <= right || lo == left) && s0[left] == pivot
    ensures NoLaterThan(s[lo := pivot], left, lo, pivot.accessTime)
    ensures NoEarlierThan(s[lo := pivot], lo + 1, right + 1, pivot.accessTime)
    ensures SameOutside(s[lo := pivot], s0, left, right)
  {
  }

  /** Two sorted ranges on either side of a pivot that separates them make one sorted range. */
  lemma JoinAroundPivot(s: seq<Entry>, left: int, p: int, right: int)
    requires 0 <= left <= p <= right < |s|
    requires SortedBetween(s, left, p - 1) && SortedBetween(s, p + 1, right)
    requires NoLaterThan(s, left, p, s[p].accessTime) && NoEarlierThan(s, p + 1, right + 1, s[p].accessTime)
    ensures SortedBetween(s, left, right)
  {
  }

  /** A bound on the access times of a range survives any rearrangement of that range. */
  lemma BoundSurvives(s: seq<Entry>, t: seq<Entry>, lo: int, hi: int, pivot: int, below: bool)
    requires 0 <= lo <= hi <= |s| == |t|
    requires multiset(s[lo..hi]) == multiset(t[lo..hi])
    requires if below then NoLaterThan(t, lo, hi, pivot) else NoEarlierThan(t, lo, hi, pivot)
    ensures if below then NoLaterThan(s, lo, hi, pivot) else NoEarlierThan(s, lo, hi, pivot)
  {
    forall k | lo <= k < hi
      ensures if below then s[k].accessTime <= pivot else s[k].accessTime >= pivot
    {
      assert s[k] == s[lo..hi][k - lo];
      assert s[k] in multiset(t[lo..hi]);
      var j :| 0 <= j < hi - lo && t[lo..hi][j] == s[k];
      assert t[lo + j] == s[k];
    }
  }

  /**
   * The recursive case of `quicksort` on sequences: a partition around `dp`
   * followed by sorting each side in place sorts the whole range.
   */
  lemma QuicksortStep(start: seq<Entry>, parted: seq<Entry>, sortedLeft: seq<Entry>, sorted: seq<Entry>,
                      left: int, dp: int, right: int)
    requires 0 <= left <= dp <= right < |start|
    requires multiset(parted) == multiset(start) && SameOutside(parted, start, left, right)
    requires NoLaterThan(parted, left, dp, parted[dp].accessTime)
    requires NoEarlierThan(parted, dp + 1, right + 1, parted[dp].accessTime)
    requires multiset(sortedLeft) == multiset(parted) && SameOutside(sortedLeft, parted, left, dp - 1)
    requires SortedBetween(sortedLeft, left, dp - 1)
    requires multiset(sorted) == multiset(sortedLeft) && SameOutside(sorted, sortedLeft, dp + 1, right)
    requires SortedBetween(sorted, dp + 1, right)
    ensures SortedBetween(sorted, left, right)
    ensures multiset(sorted) == multiset(start) && SameOutside(sorted, start, left, right)
  {
    var pivot := parted[dp].accessTime;
    SlicePermutation(sortedLeft, parted, left, dp);
    BoundSurvives(sortedLeft, parted, left, dp, pivot, true);
    SlicePermutation(sorted, sortedLeft, dp + 1, right + 1);
    BoundSurvives(sorted, sortedLeft, dp + 1, right + 1, pivot, false);
    assert sorted[dp] == parted[dp];
    assert forall k :: left <= k < dp ==> sorted[k] == sortedLeft[k];
    JoinAroundPivot(sorted, left, dp, right);
  }

  /**
   * `quicksort(n, left, right)`: sorts `n[left..right]` (both ends included)
   * by access time in place, rearranging nothing else, and returns `n`.
   */
  method Quicksort(n: array<Entry>, left: int, right: int) returns (r: array<Entry>)
    requires left < right ==> 0 <= left && right < n.Length
    modifies n
    ensures r == n
    ensures SortedBetween(n[..], left, right)
    ensures multiset(n[..]) == old(multiset(n[..]))
    ensures SameOutside(n[..], old(n[..]), left, right)
    decreases right - left
  {
    if left < right {
      ghost var start := n[..];
      var dp := Partition(n, left, right);
      ghost var parted := n[..];
      var _ := Quicksort(n, left, dp - 1);
      ghost var sortedLeft := n[..];
      var _ := Quicksort(n, dp + 1, right);
      QuicksortStep(start, parted, sortedLeft, n[..], left, dp, right);
    }
    r := n;
  }
}
