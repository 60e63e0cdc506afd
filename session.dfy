/**
 * The annotation session of `image_plotting`: the frame dictionaries, the
 * identifier set, the shift table and the selection flags, with one method
 * per user event (keys `n`, `b`, `m`, the arrows, `i`, `d`, `u`, `s`, a pick
 * of a drawn line, a right click and the frame-number text box).
 *
 * Exceptions the source raises from an event handler are returned as
 * `Raised`; the state is then as the handler left it at that point.
 */
module Session {

  import opened Options
  import opened LineRecords
  import opened ShiftTable
  import opened LineRegistry
  import opened Propagation
  import opened Persistence
  import opened CompanionPath

  /** What the user is told when an event is refused or needs confirmation. */
  datatype Message =
    | EndOfStack                 // `n` at the last frame
    | NoPreviousImage            // `b` at frame 0
    | ReturnToShiftFrame         // `m` away from the frame where shift editing began
    | NoLineSelected             // `i`, `d` or `u` with no active line
    | CompleteInActivationFrame  // right click on a pending line in another frame
    | LengthMustIncrease         // relocation rejected by the length ratchet
    | ConfirmDelete              // first `d`
    | ConfirmUndo                // first `u`
    | DeleteInstead              // second `u` on a line with a single change stamp
    | BackupMisaligned           // second `u` when the backup belongs to another line

  /** How an event handler ends: normally, with a message, or by raising. */
  datatype Outcome = Done | Prompt(msg: Message) | Raised

  /** The frames with line `k`'s record in frame `i` set to `r`. */
  function Put(s: seq<Frame>, i: nat, k: nat, r: LineRecord): (t: seq<Frame>)
    requires i < |s|
    ensures |t| == |s|
  {
    var m: Frame := s[i][k := r];
    s[i := m]
  }

  lemma PutKeepsWellFormed(s: seq<Frame>, i: nat, k: nat, r: LineRecord)
    requires i < |s| && WellFormedFrames(s) && WellFormed(r)
    ensures WellFormedFrames(Put(s, i, k, r))
  {
  }

  lemma RemovalKeepsWellFormed(s: seq<Frame>, t: seq<Frame>, k: nat)
    requires |t| == |s| && WellFormedFrames(s)
    requires forall j :: 0 <= j < |s| ==> t[j] == s[j] - {k}
    ensures WellFormedFrames(t)
  {
  }

  /** `line_objs[i][k] = r`. */
  method PutRecord(lineObjs: array<Frame>, i: nat, k: nat, r: LineRecord)
    requires i < lineObjs.Length
    modifies lineObjs
    ensures lineObjs[..] == Put(old(lineObjs[..]), i, k, r)
    ensures WellFormedFrames(old(lineObjs[..])) && WellFormed(r) ==> WellFormedFrames(lineObjs[..])
    ensures forall k': nat :: Occurs(lineObjs[..], k') <==> Occurs(old(lineObjs[..]), k') || k' == k
  {
    lineObjs[i] := lineObjs[i][k := r];
    assert lineObjs[..] == Put(old(lineObjs[..]), i, k, r);
    if WellFormedFrames(old(lineObjs[..])) && WellFormed(r) {
      PutKeepsWellFormed(old(lineObjs[..]), i, k, r);
    }
    OccursAfterPut(old(lineObjs[..]), lineObjs[..], i, k);
  }

  /** The identifier set rebuilt from the frames, as the setup does when it
      is given frames but no set. */
  method CollectLineSet(frames: seq<Frame>) returns (lineSet: set<nat>)
    ensures forall k: nat :: k in lineSet <==> Occurs(frames, k)
  {
    lineSet := {};
    var i := 0;
    while i < |frames|
      invariant 0 <= i <= |frames|
      invariant forall k: nat :: k in lineSet <==> Occurs(frames[..i], k)
    {
      var todo := frames[i].Keys;
      ghost var before := lineSet;
      while todo != {}
        invariant todo <= frames[i].Keys
        invariant lineSet == before + (frames[i].Keys - todo)
        decreases todo
      {
        var k :| k in todo;
        lineSet := lineSet + {k};
        todo := todo - {k};
      }
      forall k: nat
        ensures k in lineSet <==> Occurs(frames[..i + 1], k)
      {
        if k in frames[i] {
          assert frames[..i + 1][i] == frames[i];
        }
        if Occurs(frames[..i + 1], k) {
          var j :| 0 <= j < i + 1 && k in frames[..i + 1][j];
          if j < i {
            assert frames[..i][j] == frames[..i + 1][j];
          }
        }
        if Occurs(frames[..i], k) {
          var j :| 0 <= j < i && k in frames[..i][j];
          assert frames[..i + 1][j] == frames[..i][j];
        }
      }
      i := i + 1;
    }
    assert frames[..i] == frames;
  }

  /** Index `i` into a list of length `n` read the Python way (a negative
      index counts from the end). */
  function PyIndex(i: int, n: nat): (j: nat)
    requires -(n as int) <= i < n
    ensures j < n && j == i % n
  {
    if i < 0 then n + i else i
  }

  /** How many frames `lo .. hi-1` (Python-indexed) hold a record for line `k`. */
  function Hits(s: seq<Frame>, k: nat, lo: int, hi: int): (h: nat)
    requires -|s| <= lo && hi <= |s|
    ensures h <= (if hi < lo then 0 else hi - lo)
    decreases hi - lo
  {
    if hi <= lo then 0 else Hits(s, k, lo, hi - 1) + (if k in s[PyIndex(hi - 1, |s|)] then 1 else 0)
  }

  /** Counting over a longer range never counts fewer frames. */
  lemma {:induction false} HitsMonotone(s: seq<Frame>, k: nat, lo: int, hi: int, hi': int)
    requires -|s| <= lo && hi <= hi' <= |s|
    ensures Hits(s, k, lo, hi) <= Hits(s, k, lo, hi')
    decreases hi' - hi
  {
    if hi < hi' {
      HitsMonotone(s, k, lo, hi, hi' - 1);
    }
  }

  /** The restore loop of `_undo_last_line_change` over frames `start`
      (Python-indexed) .. N-1, with `b` the backup of line `idx` and `cur` the
      current frame. Each frame holding line `idx` triggers a test of the
      second-to-last stamp of the record in frame `cur` (not in the frame
      visited) against the backup's last stamp, and a match overwrites that
      record with the backup. Returns whether the test raised. */
  method RestoreFromBackup(lineObjs: array<Frame>, cur: nat, idx: nat, b: LineRecord, start: int)
    returns (raised: bool)
    requires cur < lineObjs.Length && idx in lineObjs[cur] && |lineObjs[cur][idx].changed| >= 2
    requires -lineObjs.Length <= start
    modifies lineObjs
    ensures var c := old(lineObjs[cur][idx].changed);
      var matches := c[|c| - 2] == b.changed[|b.changed| - 1];
      var hits := Hits(old(lineObjs[..]), idx, start, lineObjs.Length);
      && (raised <==> hits >= 2 && matches && |b.changed| < 2)
      && lineObjs[..] == if hits >= 1 && matches then Put(old(lineObjs[..]), cur, idx, b) else old(lineObjs[..])
  {
    ghost var s := lineObjs[..];
    var c0 := lineObjs[cur][idx];
    ghost var matches := c0.changed[|c0.changed| - 2] == b.changed[|b.changed| - 1];
    ghost var restored := Put(s, cur, idx, b);
    ghost var hits := 0;
    ghost var n := lineObjs.Length;
    var i := start;
    while i < lineObjs.Length
      invariant start <= i && (start <= n ==> i <= n)
      invariant hits == Hits(s, idx, start, if i <= n then i else n)
      invariant lineObjs[..] == if hits >= 1 && matches then restored else s
      invariant hits >= 2 && matches ==> |b.changed| >= 2
      decreases n - i
    {
      assert forall j :: 0 <= j < n ==> lineObjs[j].Keys == s[j].Keys;
      if idx in lineObjs[PyIndex(i, lineObjs.Length)] {
        var changed := lineObjs[cur][idx].changed;
        assert changed == if hits >= 1 && matches then b.changed else c0.changed;
        if |changed| < 2 {
          HitsMonotone(s, idx, start, i + 1, n);
          return true;
        }
        if changed[|changed| - 2] == b.changed[|b.changed| - 1] {
          ghost var before := lineObjs[..];
          lineObjs[cur] := lineObjs[cur][idx := b];
          assert lineObjs[..] == Put(before, cur, idx, b);
          if hits >= 1 && matches {
            ghost var same: Frame := restored[cur][idx := b];
            assert same == restored[cur];
          }
          assert lineObjs[..] == restored;
        }
        hits := hits + 1;
      }
      i := i + 1;
    }
    raised := false;
  }

  /** An `image_plotting` session with the series, shift and line features
      installed. `lineObjs` has one dictionary per image. */
  class ImagePlotting {
    var imageCounter: nat
    const lineObjs: array<Frame>
    var lineSet: set<nat>
    var lineIndex: nat
    var lineActive: bool
    var lineActivatedAt: nat
    var lineDelete: bool
    var lineUndo: bool
    var backup: Option<LineRecord>
    var backupIndex: Option<nat>
    var shifts: Shifts
    var shiftActive: bool
    var shiftActivatedAt: nat

    /** What every event handler keeps: the counter names a frame, key 0 of
        the shift table is never dropped, the frame being shift-edited has an
        entry, every record has one or two endpoints, and a backup is present
        exactly when its line is recorded. */
    ghost predicate Valid()
      reads this, lineObjs
    {
      && lineObjs.Length >= 1
      && imageCounter < lineObjs.Length
      && 0 in shifts
      && (shiftActive ==> shiftActivatedAt in shifts)
      && WellFormedFrames(lineObjs[..])
      && (backup.Some? <==> backupIndex.Some?)
      && (backup.Some? ==> WellFormed(backup.value))
    }

    /** The identifier set is exactly the set of lines recorded in some frame. */
    ghost predicate Registered()
      reads this, lineObjs
    {
      forall k: nat :: k in lineSet <==> Occurs(lineObjs[..], k)
    }

    twostate predicate ShiftStateUnchanged()
      reads this
    {
      shifts == old(shifts) && shiftActive == old(shiftActive) && shiftActivatedAt == old(shiftActivatedAt)
    }

    twostate predicate SelectionUnchanged()
      reads this
    {
      && lineIndex == old(lineIndex) && lineActive == old(lineActive)
      && lineActivatedAt == old(lineActivatedAt) && lineDelete == old(lineDelete) && lineUndo == old(lineUndo)
    }

    twostate predicate LinesUnchanged()
      reads this, lineObjs
    {
      lineObjs[..] == old(lineObjs[..]) && lineSet == old(lineSet)
      && backup == old(backup) && backupIndex == old(backupIndex)
    }

    /** `image_plotting(images, image_counter)` followed by `addfunc_shifts`
        and `addfunc_line_features`: absent shifts start as `{0: [0, 0]}`,
        absent frames as empty dictionaries, and an absent set as the
        identifiers found in the frames (empty when the frames are absent). */
    constructor(numImages: nat, counter: nat, initShifts: Option<Shifts>,
                initLineObjs: Option<seq<Frame>>, initLineSet: Option<set<nat>>)
      requires counter < numImages
      requires initShifts.Some? ==> 0 in initShifts.value
      requires initLineObjs.Some? ==> |initLineObjs.value| == numImages && WellFormedFrames(initLineObjs.value)
      ensures Valid() && fresh(lineObjs)
      ensures imageCounter == counter
      ensures shifts == if initShifts.Some? then initShifts.value else map[0 := Offset(0, 0)]
      ensures !shiftActive
      ensures lineObjs[..] == if initLineObjs.Some? then initLineObjs.value else seq(numImages, _ => map[])
      ensures initLineSet.Some? ==> lineSet == initLineSet.value
      ensures initLineSet.None? ==> Registered()
      ensures lineIndex == 0 && !lineActive && lineActivatedAt == 0 && !lineDelete && !lineUndo
      ensures backup.None? && backupIndex.None?
    {
      imageCounter := counter;
      shifts := if initShifts.Some? then initShifts.value else map[0 := Offset(0, 0)];
      shiftActive := false;
      shiftActivatedAt := 0;
      var frames := if initLineObjs.Some? then initLineObjs.value else seq(numImages, _ => map[]);
      lineObjs := new Frame[numImages](i requires 0 <= i < numImages => frames[i]);
      var ids: set<nat> := {};
      if initLineSet.Some? {
        ids := initLineSet.value;
      } else if initLineObjs.Some? {
        ids := CollectLineSet(frames);
      }
      lineSet := ids;
      lineIndex := 0;
      lineActive := false;
      lineActivatedAt := 0;
      lineDelete := false;
      lineUndo := false;
      backup := None;
      backupIndex := None;
      new;
      assert lineObjs[..] == frames;
    }

    // ------------------------------------------------------------ navigation

    /** `n`: at the last frame only a message; otherwise the next frame
        becomes current and inherits from the one before. */
    method NextImage() returns (o: Outcome)
      requires Valid()
      modifies this, lineObjs
      ensures Valid() && ShiftStateUnchanged() && SelectionUnchanged()
      ensures old(Registered()) ==> Registered()
      ensures lineSet == old(lineSet) && backup == old(backup) && backupIndex == old(backupIndex)
      ensures old(imageCounter) == lineObjs.Length - 1 ==>
        o == Prompt(EndOfStack) && imageCounter == old(imageCounter) && lineObjs[..] == old(lineObjs[..])
      ensures old(imageCounter) < lineObjs.Length - 1 ==>
        o == Done && imageCounter == old(imageCounter) + 1 && lineObjs[..] == Step(old(lineObjs[..]), imageCounter)
    {
      if imageCounter == lineObjs.Length - 1 {
        return Prompt(EndOfStack);
      }
      ghost var before := lineObjs[..];
      imageCounter := imageCounter + 1;
      ProgressToNextImage(imageCounter, lineObjs);
      assert lineObjs[..] == Step(before, imageCounter);
      StepWellFormed(before, imageCounter);
      StepKeepsIds(before, imageCounter);
      o := Done;
    }

    /** `b`: at frame 0 only a message; otherwise the previous frame becomes
        current, and nothing is propagated. */
    method BeforeImage() returns (o: Outcome)
      requires Valid()
      modifies this
      ensures Valid() && ShiftStateUnchanged() && SelectionUnchanged() && LinesUnchanged()
      ensures old(imageCounter) == 0 ==> o == Prompt(NoPreviousImage) && imageCounter == 0
      ensures old(imageCounter) > 0 ==> o == Done && imageCounter == old(imageCounter) - 1
    {
      if imageCounter == 0 {
        return Prompt(NoPreviousImage);
      }
      imageCounter := imageCounter - 1;
      o := Done;
    }

    /** The frame-number text box: going forward propagates into every frame
        passed, in ascending order; going back propagates nothing. */
    method TextInput(target: nat)
      requires Valid() && target < lineObjs.Length
      modifies this, lineObjs
      ensures Valid() && ShiftStateUnchanged() && SelectionUnchanged()
      ensures old(Registered()) ==> Registered()
      ensures lineSet == old(lineSet) && backup == old(backup) && backupIndex == old(backupIndex)
      ensures imageCounter == target
      ensures target < old(imageCounter) ==> lineObjs[..] == old(lineObjs[..])
      ensures target >= old(imageCounter) ==> lineObjs[..] == Advance(old(lineObjs[..]), old(imageCounter) + 1, target)
    {
      ProgressFrom(lineObjs, imageCounter, target);
      imageCounter := target;
    }

    // ------------------------------------------------------------ shift editing

    /** `m`: enter shift editing at the current frame, or leave it there;
        pressed in another frame it only reminds where editing began. */
    method ManualShift() returns (o: Outcome)
      requires Valid()
      modifies this
      ensures Valid() && SelectionUnchanged() && LinesUnchanged() && imageCounter == old(imageCounter)
      ensures !old(shiftActive) ==>
        o == Done && shiftActive && shiftActivatedAt == imageCounter
        && shifts == EnterShiftEdit(old(shifts), imageCounter)
      ensures old(shiftActive) && old(shiftActivatedAt) == imageCounter ==>
        o == Done && !shiftActive && shiftActivatedAt == old(shiftActivatedAt)
        && shifts == LeaveShiftEdit(old(shifts), imageCounter)
      ensures old(shiftActive) && old(shiftActivatedAt) != imageCounter ==>
        o == Prompt(ReturnToShiftFrame) && ShiftStateUnchanged()
    {
      if !shiftActive {
        shiftActive := true;
        shiftActivatedAt := imageCounter;
        shifts := EnterShiftEdit(shifts, imageCounter);
        o := Done;
      } else if shiftActivatedAt == imageCounter {
        shiftActive := false;
        shifts := LeaveShiftEdit(shifts, imageCounter);
        o := Done;
      } else {
        o := Prompt(ReturnToShiftFrame);
      }
    }

    /** An arrow key: while shift editing, nudge the entry of the current
        frame; raises when that frame has no entry. */
    method MoveShift(a: Arrow) returns (o: Outcome)
      requires Valid()
      modifies this
      ensures Valid() && SelectionUnchanged() && LinesUnchanged() && imageCounter == old(imageCounter)
      ensures shiftActive == old(shiftActive) && shiftActivatedAt == old(shiftActivatedAt)
      ensures !shiftActive ==> o == Done && shifts == old(shifts)
      ensures shiftActive && imageCounter !in old(shifts) ==> o == Raised && shifts == old(shifts)
      ensures shiftActive && imageCounter in old(shifts) ==>
        o == Done && shifts == old(shifts)[imageCounter := Nudge(old(shifts)[imageCounter], a)]
    {
      if !shiftActive {
        return Done;
      }
      if imageCounter !in shifts {
        return Raised;
      }
      shifts := shifts[imageCounter := Nudge(shifts[imageCounter], a)];
      o := Done;
    }

    // ------------------------------------------------------------ line editing

    /** A left-click pick of drawn line `id`: it becomes the active line,
        activated in the current frame. The pending delete and undo flags are
        left as they are. */
    method PickLine(id: nat)
      requires Valid()
      modifies this
      ensures Valid() && ShiftStateUnchanged() && LinesUnchanged() && imageCounter == old(imageCounter)
      ensures lineIndex == id && lineActive && lineActivatedAt == imageCounter
      ensures lineDelete == old(lineDelete) && lineUndo == old(lineUndo)
    {
      lineIndex := id;
      lineActive := true;
      lineActivatedAt := imageCounter;
    }

    /** Start a new line at shift-corrected point (`x`, `y`): the smallest free
        identifier gets a one-point record in the current frame. */
    method FirstPointOfLine(x: int, y: int)
      requires Valid()
      modifies this, lineObjs
      ensures Valid() && ShiftStateUnchanged() && imageCounter == old(imageCounter)
      ensures old(Registered()) ==> Registered()
      ensures lineIndex !in old(lineSet) && forall j :: 0 <= j < lineIndex ==> j in old(lineSet)
      ensures lineSet == old(lineSet) + {lineIndex}
      ensures lineObjs[..] == Put(old(lineObjs[..]), imageCounter, lineIndex, NewRecord(x, y, imageCounter))
      ensures lineActive == old(lineActive) && lineActivatedAt == old(lineActivatedAt)
      ensures lineDelete == old(lineDelete) && lineUndo == old(lineUndo)
      ensures backup == old(backup) && backupIndex == old(backupIndex)
    {
      lineIndex := NextLineIndex(lineSet);
      PutRecord(lineObjs, imageCounter, lineIndex, NewRecord(x, y, imageCounter));
      lineSet := lineSet + {lineIndex};
    }

    /** The state after a new line with first point (`x`, `y`) was started:
        it takes the smallest identifier not in use, is active since the
        current frame and has a one-point record there; the backup is kept. */
    twostate predicate LineStarted(x: int, y: int)
      requires imageCounter == old(imageCounter) && imageCounter < lineObjs.Length
      reads this, lineObjs
    {
      && lineActive && lineActivatedAt == imageCounter
      && lineIndex !in old(lineSet) && (forall j :: 0 <= j < lineIndex ==> j in old(lineSet))
      && lineSet == old(lineSet) + {lineIndex}
      && lineObjs[..] == Put(old(lineObjs[..]), imageCounter, lineIndex, NewRecord(x, y, imageCounter))
      && backup == old(backup) && backupIndex == old(backupIndex)
    }

    /** The state after a click at (`p`, `q`) on the active line, giving
        outcome `o`: with no record in the current frame the click raises;
        a pending line is completed in its activation frame and otherwise
        only prompts; a complete line is backed up and has its nearer
        endpoint moved unless that would shorten it. */
    twostate predicate SecondClickDone(p: int, q: int, o: Outcome)
      requires imageCounter == old(imageCounter) && imageCounter < lineObjs.Length
      requires WellFormedFrame(old(lineObjs[imageCounter]))
      reads this, lineObjs
    {
      && lineIndex == old(lineIndex) && lineActivatedAt == old(lineActivatedAt) && lineSet == old(lineSet)
      && (lineIndex !in old(lineObjs[imageCounter]) ==> o == Raised && lineActive && LinesUnchanged())
      && (lineIndex in old(lineObjs[imageCounter]) && |old(lineObjs[imageCounter])[lineIndex].x| == 1 ==>
            && backup == old(backup) && backupIndex == old(backupIndex)
            && (imageCounter == lineActivatedAt ==>
                  o == Done && !lineActive
                  && lineObjs[..] == Put(old(lineObjs[..]), imageCounter, lineIndex, AddSecondPoint(old(lineObjs[imageCounter])[lineIndex], p, q)))
            && (imageCounter != lineActivatedAt ==>
                  o == Prompt(CompleteInActivationFrame) && lineActive && lineObjs[..] == old(lineObjs[..])))
      && (lineIndex in old(lineObjs[imageCounter]) && |old(lineObjs[imageCounter])[lineIndex].x| != 1 ==>
            var obj := old(lineObjs[imageCounter])[lineIndex];
            && backup == Some(obj) && backupIndex == Some(lineIndex)
            && match ChangeSecondPoint(obj, p, q)
               case None => o == Prompt(LengthMustIncrease) && lineActive && lineObjs[..] == old(lineObjs[..])
               case Some(c) =>
                 && o == Done && !lineActive
                 && lineObjs[..] == Put(old(lineObjs[..]), imageCounter, lineIndex, c.(changed := c.changed + [imageCounter])))
    }

    /** Activate a new line in the current frame, whose first point is
        (`x`, `y`). */
    method StartLine(x: int, y: int)
      requires Valid()
      modifies this, lineObjs
      ensures Valid() && ShiftStateUnchanged() && imageCounter == old(imageCounter)
      ensures old(Registered()) ==> Registered()
      ensures lineDelete == old(lineDelete) && lineUndo == old(lineUndo)
      ensures LineStarted(x, y)
    {
      lineActive := true;
      lineActivatedAt := imageCounter;
      FirstPointOfLine(x, y);
    }

    /** Store record `r` for the active line in the current frame, where the
        line already has a record. */
    method PutActive(r: LineRecord)
      requires Valid() && WellFormed(r) && lineIndex in lineObjs[imageCounter]
      modifies lineObjs
      ensures Valid()
      ensures old(Registered()) ==> Registered()
      ensures lineObjs[..] == Put(old(lineObjs[..]), imageCounter, lineIndex, r)
    {
      PutRecord(lineObjs, imageCounter, lineIndex, r);
      assert Put(old(lineObjs[..]), imageCounter, lineIndex, r)[imageCounter].Keys == old(lineObjs[imageCounter]).Keys;
    }

    /** The second click of a pending line (one endpoint so far): completed
        in its activation frame, otherwise only a reminder. */
    method CompleteLine(p: int, q: int) returns (o: Outcome)
      requires Valid() && lineActive && lineIndex in lineObjs[imageCounter]
      requires |lineObjs[imageCounter][lineIndex].x| == 1
      modifies this, lineObjs
      ensures Valid() && ShiftStateUnchanged() && imageCounter == old(imageCounter)
      ensures old(Registered()) ==> Registered()
      ensures lineIndex == old(lineIndex) && lineActivatedAt == old(lineActivatedAt)
      ensures lineDelete == old(lineDelete) && lineUndo == old(lineUndo)
      ensures lineSet == old(lineSet) && backup == old(backup) && backupIndex == old(backupIndex)
      ensures imageCounter == lineActivatedAt ==>
        o == Done && !lineActive
        && lineObjs[..] == Put(old(lineObjs[..]), imageCounter, lineIndex, AddSecondPoint(old(lineObjs[imageCounter])[lineIndex], p, q))
      ensures imageCounter != lineActivatedAt ==>
        o == Prompt(CompleteInActivationFrame) && lineActive && lineObjs[..] == old(lineObjs[..])
    {
      if imageCounter != lineActivatedAt {
        return Prompt(CompleteInActivationFrame);
      }
      var obj := lineObjs[imageCounter][lineIndex];
      assert WellFormed(obj);
      PutActive(AddSecondPoint(obj, p, q));
      lineActive := false;
      o := Done;
    }

    /** A click on a complete line: back it up, then move its nearer endpoint
        to (`p`, `q`) unless that would shorten it, and stamp the current
        frame on its history. */
    method RelocateEndpoint(p: int, q: int) returns (o: Outcome)
      requires Valid() && lineActive && lineIndex in lineObjs[imageCounter]
      requires |lineObjs[imageCounter][lineIndex].x| != 1
      modifies this, lineObjs
      ensures Valid() && ShiftStateUnchanged() && imageCounter == old(imageCounter)
      ensures old(Registered()) ==> Registered()
      ensures lineIndex == old(lineIndex) && lineActivatedAt == old(lineActivatedAt)
      ensures lineDelete == old(lineDelete) && lineUndo == old(lineUndo) && lineSet == old(lineSet)
      ensures var obj := old(lineObjs[imageCounter])[lineIndex];
        && backup == Some(obj) && backupIndex == Some(lineIndex)
        && match ChangeSecondPoint(obj, p, q)
           case None => o == Prompt(LengthMustIncrease) && lineActive && lineObjs[..] == old(lineObjs[..])
           case Some(c) =>
             && o == Done && !lineActive
             && lineObjs[..] == Put(old(lineObjs[..]), imageCounter, lineIndex, c.(changed := c.changed + [imageCounter]))
    {
      var obj := lineObjs[imageCounter][lineIndex];
      assert WellFormed(obj);
      backup := Some(obj);
      backupIndex := Some(lineIndex);
      var moved := ChangeSecondPoint(obj, p, q);
      if moved.None? {
        return Prompt(LengthMustIncrease);
      }
      PutActive(moved.value.(changed := moved.value.changed + [imageCounter]));
      lineActive := false;
      o := Done;
    }

    /** A right click at (`px`, `py`), in screen coordinates of the current
        frame, shifted by the current frame's offset. With no active line it
        starts a new one; otherwise a pending line is completed and a
        complete one has an endpoint moved. */
    method RightClick(px: int, py: int) returns (o: Outcome)
      requires Valid()
      modifies this, lineObjs
      ensures Valid() && ShiftStateUnchanged() && imageCounter == old(imageCounter)
      ensures old(Registered()) ==> Registered()
      ensures lineDelete == old(lineDelete) && lineUndo == old(lineUndo)
      ensures var sh := GetShift(imageCounter, shifts).value;
        !old(lineActive) ==> o == Done && LineStarted(px + sh.dx, py + sh.dy)
      ensures var sh := GetShift(imageCounter, shifts).value;
        old(lineActive) ==> SecondClickDone(px + sh.dx, py + sh.dy, o)
    {
      var sh := GetShift(imageCounter, shifts).value;
      if !lineActive {
        StartLine(px + sh.dx, py + sh.dy);
        return Done;
      }
      o := SecondClick(px + sh.dx, py + sh.dy);
    }

    /** A right click at (`p`, `q`), in image coordinates, with a line
        active: raises when the current frame has no record of it, completes
        a pending line, and moves an endpoint of a complete one. */
    method SecondClick(p: int, q: int) returns (o: Outcome)
      requires Valid() && lineActive
      modifies this, lineObjs
      ensures Valid() && ShiftStateUnchanged() && imageCounter == old(imageCounter)
      ensures old(Registered()) ==> Registered()
      ensures lineDelete == old(lineDelete) && lineUndo == old(lineUndo)
      ensures SecondClickDone(p, q, o)
    {
      if lineIndex !in lineObjs[imageCounter] {
        return Raised;
      }
      if |lineObjs[imageCounter][lineIndex].x| == 1 {
        o := CompleteLine(p, q);
      } else {
        o := RelocateEndpoint(p, q);
      }
    }

    /** Delete line `idx` from every frame dictionary. */
    method ReleaseLine(idx: nat)
      requires Valid()
      modifies lineObjs
      ensures Valid()
      ensures |lineObjs[..]| == |old(lineObjs[..])|
      ensures forall j :: 0 <= j < lineObjs.Length ==> lineObjs[j] == old(lineObjs[j]) - {idx}
      ensures forall k: nat :: Occurs(lineObjs[..], k) <==> Occurs(old(lineObjs[..]), k) && k != idx
    {
      var i := 0;
      while i < lineObjs.Length
        invariant 0 <= i <= lineObjs.Length
        invariant forall j :: 0 <= j < i ==> lineObjs[j] == old(lineObjs[j]) - {idx}
        invariant forall j :: i <= j < lineObjs.Length ==> lineObjs[j] == old(lineObjs[j])
      {
        if idx in lineObjs[i] {
          lineObjs[i] := lineObjs[i] - {idx};
        } else {
          assert lineObjs[i] - {idx} == lineObjs[i];
        }
        i := i + 1;
      }
      RemovalKeepsWellFormed(old(lineObjs[..]), lineObjs[..], idx);
      OccursAfterRemoval(old(lineObjs[..]), lineObjs[..], idx);
    }

    /** `i`: deselect the active line and cancel a pending delete or undo; a
        line that still has only its first point is deleted everywhere. */
    method InactivateLines() returns (o: Outcome)
      requires Valid()
      modifies this, lineObjs
      ensures Valid() && ShiftStateUnchanged() && imageCounter == old(imageCounter)
      ensures old(Registered()) ==> Registered()
      ensures lineIndex == old(lineIndex) && lineActivatedAt == old(lineActivatedAt)
      ensures backup == old(backup) && backupIndex == old(backupIndex)
      ensures !old(lineActive) ==> o == Prompt(NoLineSelected) && SelectionUnchanged() && LinesUnchanged()
      ensures old(lineActive) ==> !lineActive && !lineDelete && !lineUndo
      ensures old(lineActive) && lineIndex !in old(lineObjs[imageCounter]) ==> o == Raised && LinesUnchanged()
      ensures old(lineActive) && lineIndex in old(lineObjs[imageCounter]) && |old(lineObjs[imageCounter])[lineIndex].x| != 1 ==>
        o == Done && LinesUnchanged()
      ensures old(lineActive) && lineIndex in old(lineObjs[imageCounter]) && |old(lineObjs[imageCounter])[lineIndex].x| == 1 ==>
        if lineIndex !in old(lineSet) then o == Raised && LinesUnchanged()
        else o == Done && lineSet == old(lineSet) - {lineIndex}
             && forall j :: 0 <= j < lineObjs.Length ==> lineObjs[j] == old(lineObjs[j]) - {lineIndex}
    {
      if !lineActive {
        return Prompt(NoLineSelected);
      }
      lineActive := false;
      lineDelete := false;
      lineUndo := false;
      if lineIndex !in lineObjs[imageCounter] {
        return Raised;
      }
      var obj := lineObjs[imageCounter][lineIndex];
      if |obj.x| == 1 {
        if lineIndex !in lineSet {
          return Raised;
        }
        lineSet := lineSet - {lineIndex};
        ReleaseLine(lineIndex);
      }
      o := Done;
    }

    /** `d`: the first press asks for confirmation, the second deletes the
        active line from the set and from every frame. */
    method DeleteLines() returns (o: Outcome)
      requires Valid()
      modifies this, lineObjs
      ensures Valid() && ShiftStateUnchanged() && imageCounter == old(imageCounter)
      ensures old(Registered()) ==> Registered()
      ensures lineIndex == old(lineIndex) && lineActivatedAt == old(lineActivatedAt) && lineUndo == old(lineUndo)
      ensures backup == old(backup) && backupIndex == old(backupIndex)
      ensures !old(lineActive) ==> o == Prompt(NoLineSelected) && SelectionUnchanged() && LinesUnchanged()
      ensures old(lineActive) && !old(lineDelete) ==>
        o == Prompt(ConfirmDelete) && lineDelete && lineActive && LinesUnchanged()
      ensures old(lineActive) && old(lineDelete) && lineIndex !in old(lineSet) ==>
        o == Raised && SelectionUnchanged() && LinesUnchanged()
      ensures old(lineActive) && old(lineDelete) && lineIndex in old(lineSet) ==>
        && o == Done && !lineDelete && !lineActive
        && lineSet == old(lineSet) - {lineIndex}
        && forall j :: 0 <= j < lineObjs.Length ==> lineObjs[j] == old(lineObjs[j]) - {lineIndex}
    {
      if !lineActive {
        return Prompt(NoLineSelected);
      }
      if !lineDelete {
        lineDelete := true;
        return Prompt(ConfirmDelete);
      }
      if lineIndex !in lineSet {
        return Raised;
      }
      lineSet := lineSet - {lineIndex};
      ReleaseLine(lineIndex);
      lineDelete := false;
      lineActive := false;
      o := Done;
    }

    /** The restore loop of an undo, for an active line whose current record
        has at least three change stamps and whose backup is present. */
    method RestoreActive() returns (o: Outcome)
      requires Valid() && lineIndex in lineObjs[imageCounter] && backupIndex == Some(lineIndex)
      requires |lineObjs[imageCounter][lineIndex].changed| > 2
      modifies lineObjs
      ensures Valid()
      ensures old(Registered()) ==> Registered()
      ensures var c := old(lineObjs[imageCounter])[lineIndex].changed;
        var b := backup.value;
        var matches := c[|c| - 2] == b.changed[|b.changed| - 1];
        var hits := Hits(old(lineObjs[..]), lineIndex, c[2], lineObjs.Length);
        && (o == Raised <==> hits >= 2 && matches && |b.changed| < 2)
        && (o != Raised ==> o == Done)
        && lineObjs[..] == if hits >= 1 && matches
                           then Put(old(lineObjs[..]), imageCounter, lineIndex, b)
                           else old(lineObjs[..])
    {
      var obj := lineObjs[imageCounter][lineIndex];
      ghost var s := lineObjs[..];
      var raised := RestoreFromBackup(lineObjs, imageCounter, lineIndex, backup.value, obj.changed[2]);
      o := if raised then Raised else Done;
      if Hits(s, lineIndex, obj.changed[2], lineObjs.Length) >= 1 && obj.changed[|obj.changed| - 2] == backup.value.changed[|backup.value.changed| - 1] {
        PutKeepsWellFormed(s, imageCounter, lineIndex, backup.value);
        OccursAfterPut(s, lineObjs[..], imageCounter, lineIndex);
      }
    }

    /** `u`: the first press asks for confirmation. The second deselects the
        line and, when its current record has at least three change stamps
        and the backup belongs to it, runs the restore loop over frames
        `changed[2]` .. N-1. That loop only ever rewrites the active line's
        record in the CURRENT frame: at the first frame holding the line it
        is replaced by the backup when its second-to-last stamp equals the
        backup's last one, and every later such frame re-reads the
        second-to-last stamp of what is now there. */
    method UndoLastLineChange() returns (o: Outcome)
      requires Valid()
      modifies this, lineObjs
      ensures Valid() && ShiftStateUnchanged() && imageCounter == old(imageCounter)
      ensures old(Registered()) ==> Registered()
      ensures lineIndex == old(lineIndex) && lineActivatedAt == old(lineActivatedAt) && lineDelete == old(lineDelete)
      ensures lineSet == old(lineSet) && backup == old(backup) && backupIndex == old(backupIndex)
      ensures !old(lineActive) ==> o == Prompt(NoLineSelected) && SelectionUnchanged() && LinesUnchanged()
      ensures old(lineActive) && !old(lineUndo) ==> o == Prompt(ConfirmUndo) && lineUndo && lineActive && LinesUnchanged()
      ensures old(lineActive) && old(lineUndo) ==> !lineUndo && !lineActive
      ensures old(lineActive) && old(lineUndo) && lineIndex !in old(lineObjs[imageCounter]) ==>
        o == Raised && LinesUnchanged()
      ensures old(lineActive) && old(lineUndo) && lineIndex in old(lineObjs[imageCounter]) ==>
        var c := old(lineObjs[imageCounter])[lineIndex].changed;
        && (|c| < 2 ==> o == Prompt(DeleteInstead) && LinesUnchanged())
        && (|c| >= 2 && backupIndex.None? ==> o == Raised && LinesUnchanged())
        && (|c| >= 2 && backupIndex.Some? && backupIndex.value != lineIndex ==>
              o == Prompt(BackupMisaligned) && LinesUnchanged())
        && (|c| == 2 && backupIndex == Some(lineIndex) ==> o == Raised && LinesUnchanged())
      ensures old(lineActive) && old(lineUndo) && lineIndex in old(lineObjs[imageCounter])
              && |old(lineObjs[imageCounter])[lineIndex].changed| > 2 && backupIndex == Some(lineIndex) ==>
        var c := old(lineObjs[imageCounter])[lineIndex].changed;
        var b := backup.value;
        var matches := c[|c| - 2] == b.changed[|b.changed| - 1];
        var hits := Hits(old(lineObjs[..]), lineIndex, c[2], lineObjs.Length);
        && (o == Raised <==> hits >= 2 && matches && |b.changed| < 2)
        && (o != Raised ==> o == Done)
        && lineObjs[..] == if hits >= 1 && matches
                           then Put(old(lineObjs[..]), imageCounter, lineIndex, b)
                           else old(lineObjs[..])
    {
      if !lineActive {
        return Prompt(NoLineSelected);
      }
      if !lineUndo {
        lineUndo := true;
        return Prompt(ConfirmUndo);
      }
      lineUndo := false;
      lineActive := false;
      if lineIndex !in lineObjs[imageCounter] {
        return Raised;
      }
      var obj := lineObjs[imageCounter][lineIndex];
      if |obj.changed| < 2 {
        return Prompt(DeleteInstead);
      }
      if backupIndex.None? {
        return Raised;
      }
      if backupIndex.value != lineIndex {
        return Prompt(BackupMisaligned);
      }
      if |obj.changed| == 2 {
        return Raised;
      }
      o := RestoreActive();
    }

    // ------------------------------------------------------------ saving

    /** `s`: the saved documents for all frames, the shift table and the
        identifier set, and where the set document goes. */
    method SaveLinesAndShifts(filepath: string) returns (doc: Json, setPath: string, setDoc: Json)
      requires Valid()
      ensures doc == DocumentJson(lineObjs[..], shifts)
      ensures setPath == SetPath(filepath)
      ensures ListsSet(setDoc, lineSet)
    {
      doc, setPath, setDoc := SaveAsJson(filepath, lineObjs[..], shifts, lineSet);
    }
  }
}
