/**
 * Allocation of persistent line identifiers: `get_next_line_index` hands out
 * the smallest non-negative integer that is not in use.
 */
module LineRegistry {

  /** `max(line_set)`. */
  method MaxOf(s: set<nat>) returns (m: nat)
    requires s != {}
    ensures m in s && forall k :: k in s ==> k <= m
  {
    m :| m in s;
    var rest := s - {m};
    while rest != {}
      invariant rest <= s && m in s
      invariant forall k :: k in s - rest ==> k <= m
      decreases rest
    {
      var k :| k in rest;
      if k > m {
        m := k;
      }
      assert s - (rest - {k}) == (s - rest) + {k};
      rest := rest - {k};
    }
    assert s - rest == s;
  }

  /** Pigeonhole, one way: a set holding all of 0 .. n-1 has at least n members. */
  lemma {:induction false} DenseBelowBoundsSize(s: set<nat>, n: nat)
    requires forall j :: 0 <= j < n ==> j in s
    ensures n <= |s|
  {
    if n > 0 {
      DenseBelowBoundsSize(s - {n - 1}, n - 1);
    }
  }

  /** Pigeonhole, other way: a set of naturals all below n has at most n members. */
  lemma {:induction false} BelowBoundLimitsSize(s: set<nat>, n: nat)
    requires forall k :: k in s ==> k < n
    ensures |s| <= n
  {
    if n == 0 {
      assert s == {};
    } else {
      BelowBoundLimitsSize(s - {n - 1}, n - 1);
    }
  }

  /** A set of n naturals all below n is exactly 0 .. n-1. */
  lemma {:induction false} FullRange(s: set<nat>, n: nat)
    requires forall k :: k in s ==> k < n
    requires n <= |s|
    ensures forall j :: 0 <= j < n ==> j in s
  {
    if n > 0 {
      if n - 1 !in s {
        BelowBoundLimitsSize(s, n - 1);
      } else {
        FullRange(s - {n - 1}, n - 1);
      }
    }
  }

  /** `get_next_line_index`: when the maximum exceeds the size minus one there
      is a gap below the maximum and the scan returns the first one; otherwise
      the set is exactly 0 .. |set|-1 and the next identifier is |set|. The
      scan always finds a gap, so the source's fall-through (returning
      nothing) cannot happen. */
  method NextLineIndex(lineSet: set<nat>) returns (id: nat)
    ensures id !in lineSet
    ensures forall j :: 0 <= j < id ==> j in lineSet
    ensures (forall k :: k in lineSet ==> k < |lineSet|) ==> id == |lineSet|
  {
    var maxIndex: int := -1;
    if |lineSet| != 0 {
      maxIndex := MaxOf(lineSet);
    }
    if maxIndex > |lineSet| - 1 {
      var i := 0;
      while i < maxIndex
        invariant 0 <= i <= maxIndex
        invariant forall j :: 0 <= j < i ==> j in lineSet
      {
        if i !in lineSet {
          return i;
        }
        i := i + 1;
      }
      DenseBelowBoundsSize(lineSet, maxIndex + 1);
      assert false;
    } else {
      FullRange(lineSet, |lineSet|);
      id := |lineSet|;
    }
  }
}
