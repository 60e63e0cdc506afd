/**
 * Forward propagation: when frame i is entered from frame i-1, each record of
 * frame i-1 is copied into frame i unless frame i holds a record for the same
 * line that is at least as recent.
 */
module Propagation {

  import opened LineRecords

  /** One frame's dictionary from line identifier to record. */
  type Frame = map<nat, LineRecord>

  ghost predicate WellFormedFrame(m: Frame) {
    forall k :: k in m ==> WellFormed(m[k])
  }

  ghost predicate WellFormedFrames(s: seq<Frame>) {
    forall j :: 0 <= j < |s| ==> WellFormedFrame(s[j])
  }

  /** Whether frame i-1's record for `k` replaces what frame i has: always when
      frame i has none, otherwise when its last stamp is strictly greater. */
  predicate Overrides(prev: Frame, cur: Frame, k: nat) {
    k in prev && (k !in cur || LastChange(prev[k]) > LastChange(cur[k]))
  }

  /** Frame i's dictionary after `_progress_to_next_image`. */
  function Propagated(prev: Frame, cur: Frame): (r: Frame)
    ensures r.Keys == prev.Keys + cur.Keys
  {
    map k | k in prev.Keys + cur.Keys :: if Overrides(prev, cur, k) then CarryOver(prev[k]) else cur[k]
  }

  /** The copy rule, entry by entry: an identifier only in frame i keeps its
      record; one only in frame i-1 gets a carry-over copy; a shared one is
      overwritten exactly when frame i-1's last stamp is strictly greater. */
  lemma PropagatedRule(prev: Frame, cur: Frame, k: nat)
    requires k in prev || k in cur
    ensures k in cur && k !in prev ==> Propagated(prev, cur)[k] == cur[k]
    ensures k in prev && k !in cur ==> Propagated(prev, cur)[k] == CarryOver(prev[k])
    ensures k in prev && k in cur ==>
      Propagated(prev, cur)[k] == if LastChange(prev[k]) > LastChange(cur[k]) then CarryOver(prev[k]) else cur[k]
  {
  }

  /** Copies carried forward keep the shape of their sources. */
  lemma PropagatedWellFormed(prev: Frame, cur: Frame)
    requires WellFormedFrame(prev) && WellFormedFrame(cur)
    ensures WellFormedFrame(Propagated(prev, cur))
  {
  }

  /** Propagating twice into the same frame is the same as propagating once. */
  lemma PropagatedIdempotent(prev: Frame, cur: Frame)
    ensures Propagated(prev, Propagated(prev, cur)) == Propagated(prev, cur)
  {
    var once := Propagated(prev, cur);
    var twice := Propagated(prev, once);
    forall k | k in twice
      ensures twice[k] == once[k]
    {
      if k in prev && Overrides(prev, once, k) {
        // once[k] is a carry-over of prev[k] or a record no more recent than it
        if Overrides(prev, cur, k) {
          assert once[k] == CarryOver(prev[k]);
        }
      }
    }
  }

  /** A downstream edit that is at least as recent as the upstream one is never
      overwritten. */
  lemma PropagatedKeepsNewer(prev: Frame, cur: Frame, k: nat)
    requires k in cur
    requires k !in prev || LastChange(cur[k]) >= LastChange(prev[k])
    ensures Propagated(prev, cur)[k] == cur[k]
  {
  }

  /** `_progress_to_next_image(i, line_objs)`: rewrites frame i in place,
      one identifier of frame i-1 at a time. */
  method ProgressToNextImage(i: nat, lineObjs: array<Frame>)
    requires 1 <= i < lineObjs.Length
    modifies lineObjs
    ensures lineObjs[..] == old(lineObjs[..])[i := Propagated(old(lineObjs[i - 1]), old(lineObjs[i]))]
  {
    var prev := lineObjs[i - 1];
    ghost var cur := lineObjs[i];
    var todo := prev.Keys;
    while todo != {}
      invariant todo <= prev.Keys
      invariant forall j :: 0 <= j < lineObjs.Length && j != i ==> lineObjs[j] == old(lineObjs[j])
      invariant lineObjs[i].Keys == cur.Keys + (prev.Keys - todo)
      invariant forall k :: k in lineObjs[i] ==>
        lineObjs[i][k] == if k !in todo && Overrides(prev, cur, k) then CarryOver(prev[k]) else cur[k]
      decreases todo
    {
      var k :| k in todo;
      if k in lineObjs[i] {
        if LastChange(prev[k]) > LastChange(lineObjs[i][k]) {
          lineObjs[i] := lineObjs[i][k := CarryOver(prev[k])];
        }
      } else {
        lineObjs[i] := lineObjs[i][k := CarryOver(prev[k])];
      }
      todo := todo - {k};
    }
    assert lineObjs[i] == Propagated(prev, cur);
  }

  /** One forward step: frame i rebuilt from frame i-1. */
  function Step(s: seq<Frame>, i: nat): (r: seq<Frame>)
    requires 1 <= i < |s|
    ensures |r| == |s|
    ensures forall j :: 0 <= j < |s| && j != i ==> r[j] == s[j]
    ensures r[i].Keys == s[i - 1].Keys + s[i].Keys
  {
    s[i := Propagated(s[i - 1], s[i])]
  }

  /** Propagation into frames lo, lo+1, ..., hi in ascending order, each from
      the result of the one before (nothing when hi < lo). */
  function Advance(s: seq<Frame>, lo: nat, hi: int): (r: seq<Frame>)
    requires 1 <= lo && hi < |s|
    ensures |r| == |s|
    ensures forall j :: 0 <= j < |s| && (j < lo || hi < j) ==> r[j] == s[j]
    decreases hi - lo
  {
    if hi < lo then s else Step(Advance(s, lo, hi - 1), hi)
  }

  /** The loop of `ProgressThrough`: frames lo..hi become `Advance` of the
      original frames. */
  method AdvanceInPlace(lineObjs: array<Frame>, lo: nat, hi: int)
    requires 1 <= lo <= hi + 1 && hi < lineObjs.Length
    modifies lineObjs
    ensures lineObjs[..] == Advance(old(lineObjs[..]), lo, hi)
  {
    ghost var s0 := lineObjs[..];
    var i := lo;
    while i <= hi
      invariant lo <= i <= hi + 1
      invariant lineObjs[..] == Advance(s0, lo, i - 1)
    {
      ghost var prev := lineObjs[..];
      ProgressToNextImage(i, lineObjs);
      assert lineObjs[..] == Step(prev, i);
      i := i + 1;
    }
  }

  /** The frame loop of the jump from frame `from` to frame `target`: one
      `_progress_to_next_image` call per frame from+1 .. target, in
      ascending order, and none when `target` lies before `from`. */
  method ProgressFrom(lineObjs: array<Frame>, from: nat, target: nat)
    requires from < lineObjs.Length && target < lineObjs.Length
    modifies lineObjs
    ensures target < from ==> lineObjs[..] == old(lineObjs[..])
    ensures target >= from ==> lineObjs[..] == Advance(old(lineObjs[..]), from + 1, target)
    ensures WellFormedFrames(old(lineObjs[..])) ==> WellFormedFrames(lineObjs[..])
    ensures forall k: nat :: Occurs(lineObjs[..], k) <==> Occurs(old(lineObjs[..]), k)
  {
    if target >= from {
      ProgressThrough(lineObjs, from + 1, target);
    }
  }

  /** Propagation into frames lo..hi in place, one `_progress_to_next_image`
      call per frame, in ascending order. */
  method ProgressThrough(lineObjs: array<Frame>, lo: nat, hi: int)
    requires 1 <= lo <= hi + 1 && hi < lineObjs.Length
    modifies lineObjs
    ensures lineObjs[..] == Advance(old(lineObjs[..]), lo, hi)
    ensures WellFormedFrames(old(lineObjs[..])) ==> WellFormedFrames(lineObjs[..])
    ensures forall k: nat :: Occurs(lineObjs[..], k) <==> Occurs(old(lineObjs[..]), k)
  {
    AdvanceInPlace(lineObjs, lo, hi);
    AdvancedFrames(old(lineObjs[..]), lineObjs[..], lo, hi);
  }

  /** What `Advance` keeps, stated about a sequence known to equal its
      result. */
  lemma AdvancedFrames(s: seq<Frame>, t: seq<Frame>, lo: nat, hi: int)
    requires 1 <= lo && hi < |s| && t == Advance(s, lo, hi)
    ensures WellFormedFrames(s) ==> WellFormedFrames(t)
    ensures forall k: nat :: Occurs(t, k) <==> Occurs(s, k)
  {
    if WellFormedFrames(s) {
      AdvanceWellFormed(s, lo, hi);
    }
    AdvanceKeepsIds(s, lo, hi);
  }

  /** A forward step keeps every frame well formed. */
  lemma StepWellFormed(s: seq<Frame>, i: nat)
    requires 1 <= i < |s| && WellFormedFrames(s)
    ensures WellFormedFrames(Step(s, i))
  {
    PropagatedWellFormed(s[i - 1], s[i]);
  }

  /** Advancing over any range keeps every frame well formed. */
  lemma {:induction false} AdvanceWellFormed(s: seq<Frame>, lo: nat, hi: int)
    requires 1 <= lo && hi < |s| && WellFormedFrames(s)
    ensures WellFormedFrames(Advance(s, lo, hi))
    decreases hi - lo
  {
    if hi >= lo {
      AdvanceWellFormed(s, lo, hi - 1);
      StepWellFormed(Advance(s, lo, hi - 1), hi);
    }
  }

  /** Stepping into the same frame twice is stepping once. */
  lemma StepIdempotent(s: seq<Frame>, i: nat)
    requires 1 <= i < |s|
    ensures Step(Step(s, i), i) == Step(s, i)
  {
    PropagatedIdempotent(s[i - 1], s[i]);
  }

  /** A line present in frame lo-1 is present in every frame lo .. hi afterwards. */
  lemma {:induction false} AdvanceCarriesLines(s: seq<Frame>, lo: nat, hi: int, k: nat, j: nat)
    requires 1 <= lo && hi < |s|
    requires lo - 1 <= j <= hi && k in s[lo - 1]
    ensures k in Advance(s, lo, hi)[j]
    decreases hi - lo
  {
    if j != lo - 1 {
      var a := Advance(s, lo, hi - 1);
      var r := Advance(s, lo, hi);
      assert r == a[hi := Propagated(a[hi - 1], a[hi])];
      if j < hi {
        AdvanceCarriesLines(s, lo, hi - 1, k, j);
        assert r[j] == a[j];
      } else {
        AdvanceCarriesLines(s, lo, hi - 1, k, j - 1);
        assert k in a[hi - 1];
        assert k in r[hi];
      }
    }
  }

  /** Line `k` has a record in some frame. */
  ghost predicate Occurs(s: seq<Frame>, k: nat) {
    exists j :: 0 <= j < |s| && k in s[j]
  }

  /** A forward step adds no identifier and loses none. */
  lemma StepKeepsIds(s: seq<Frame>, i: nat)
    requires 1 <= i < |s|
    ensures forall k: nat :: Occurs(Step(s, i), k) <==> Occurs(s, k)
  {
    var r := Step(s, i);
    forall k | Occurs(r, k)
      ensures Occurs(s, k)
    {
      var j :| 0 <= j < |r| && k in r[j];
      if j == i && k !in s[i] {
        assert k in s[i - 1];
      }
    }
    forall k | Occurs(s, k)
      ensures Occurs(r, k)
    {
      var j :| 0 <= j < |s| && k in s[j];
      assert k in r[j];
    }
  }

  /** Advancing over any range adds no identifier and loses none. */
  lemma {:induction false} AdvanceKeepsIds(s: seq<Frame>, lo: nat, hi: int)
    requires 1 <= lo && hi < |s|
    ensures forall k: nat :: Occurs(Advance(s, lo, hi), k) <==> Occurs(s, k)
    decreases hi - lo
  {
    if hi >= lo {
      AdvanceKeepsIds(s, lo, hi - 1);
      StepKeepsIds(Advance(s, lo, hi - 1), hi);
    }
  }

  /** Adding or replacing line `k0`'s record in one frame makes `k0` occur and
      changes nothing else about which lines occur. */
  lemma OccursAfterPut(s: seq<Frame>, t: seq<Frame>, i: nat, k0: nat)
    requires i < |s| && |t| == |s|
    requires forall j :: 0 <= j < |s| && j != i ==> t[j] == s[j]
    requires t[i].Keys == s[i].Keys + {k0}
    ensures forall k: nat :: Occurs(t, k) <==> Occurs(s, k) || k == k0
  {
    assert k0 in t[i];
    forall k | Occurs(s, k)
      ensures Occurs(t, k)
    {
      var j :| 0 <= j < |s| && k in s[j];
      assert k in t[j];
    }
    forall k | Occurs(t, k) && k != k0
      ensures Occurs(s, k)
    {
      var j :| 0 <= j < |t| && k in t[j];
      assert k in s[j];
    }
  }

  /** Removing `k0` from every frame makes exactly `k0` stop occurring. */
  lemma OccursAfterRemoval(s: seq<Frame>, t: seq<Frame>, k0: nat)
    requires |t| == |s|
    requires forall j :: 0 <= j < |s| ==> t[j] == s[j] - {k0}
    ensures forall k: nat :: Occurs(t, k) <==> Occurs(s, k) && k != k0
  {
    forall k | Occurs(s, k) && k != k0
      ensures Occurs(t, k)
    {
      var j :| 0 <= j < |s| && k in s[j];
      assert k in t[j];
    }
  }
}
