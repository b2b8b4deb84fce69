/**
 * Order-preserving filtering of a listing: what both content filters do when
 * they walk a `FileStatus[]` and add the accepted entries to a fresh list.
 */
module Selection {

  /** The elements of `s` that `keep` accepts, in their original order. */
  function Select<T>(s: seq<T>, keep: T -> bool): (r: seq<T>)
    ensures |r| <= |s|
  {
    if s == [] then []
    else
      var init := Select(s[..|s| - 1], keep);
      assert s == s[..|s| - 1] + [s[|s| - 1]];
      if keep(s[|s| - 1]) then init + [s[|s| - 1]] else init
  }

  /** Filtering distributes over concatenation: kept elements keep their relative order. */
  lemma {:induction false} SelectAppend<T>(a: seq<T>, b: seq<T>, keep: T -> bool)
    ensures Select(a + b, keep) == Select(a, keep) + Select(b, keep)
    decreases |b|
  {
    if b == [] {
      assert a + b == a;
    } else {
      var b' := b[..|b| - 1];
      assert (a + b)[..|a + b| - 1] == a + b';
      assert (a + b)[|a + b| - 1] == b[|b| - 1];
      SelectAppend(a, b', keep);
    }
  }

  /** A listing every element of which is accepted comes back unchanged. */
  lemma {:induction false} SelectAll<T>(s: seq<T>, keep: T -> bool)
    requires forall k :: 0 <= k < |s| ==> keep(s[k])
    ensures Select(s, keep) == s
    decreases |s|
  {
    if s != [] {
      SelectAll(s[..|s| - 1], keep);
    }
  }

  /**
   * The filter drops exactly the rejected elements and never duplicates one:
   * what it keeps and what the opposite test keeps make up `s` again.
   */
  lemma {:induction false} SelectCount<T>(s: seq<T>, keep: T -> bool)
    ensures multiset(Select(s, keep)) <= multiset(s)
    ensures multiset(Select(s, keep)) + multiset(Select(s, x => !keep(x))) == multiset(s)
    ensures |Select(s, keep)| + |Select(s, x => !keep(x))| == |s|
    decreases |s|
  {
    if s != [] {
      SelectCount(s[..|s| - 1], keep);
      assert s == s[..|s| - 1] + [s[|s| - 1]];
    }
  }

  /** Taking one more element of `s` appends it to the filtered list exactly when it is kept. */
  lemma SelectSnoc<T>(s: seq<T>, i: int, keep: T -> bool)
    requires 0 <= i < |s|
    ensures Select(s[..i + 1], keep) == Select(s[..i], keep) + (if keep(s[i]) then [s[i]] else [])
  {
    assert s[..i + 1][..i] == s[..i];
  }

  /** A value is in the filtered list exactly when it is in `s` and passes the test. */
  lemma {:induction false} SelectMembers<T>(s: seq<T>, keep: T -> bool)
    ensures forall x :: x in Select(s, keep) <==> x in s && keep(x)
    decreases |s|
  {
    if s != [] {
      var init := s[..|s| - 1];
      SelectMembers(init, keep);
      assert s == init + [s[|s| - 1]];
    }
  }

  /** The index form of `SelectMembers`: every kept element comes from `s` and passes; an element of `s` is kept iff it passes. */
  lemma SelectIndexed<T>(s: seq<T>, keep: T -> bool)
    ensures forall k :: 0 <= k < |Select(s, keep)| ==> Select(s, keep)[k] in s && keep(Select(s, keep)[k])
    ensures forall k :: 0 <= k < |s| ==> (s[k] in Select(s, keep) <==> keep(s[k]))
  {
    SelectMembers(s, keep);
  }
}
