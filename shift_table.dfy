/**
 * The drift-shift table: a sparse map from frame index to a 2D offset, read
 * as a step function (the entry with the greatest key not above the frame is
 * in force), and the two-phase edit toggle that adds and removes entries.
 */
module ShiftTable {

  import opened Options

  datatype Offset = Offset(dx: int, dy: int)

  type Shifts = map<nat, Offset>

  /** The arrow keys of the shift editor. */
  datatype Arrow = Up | Down | Left | Right

  /** The key `get_shift` settles on: scanning the keys from the largest down,
      the first one not above `f`. */
  function GreatestKeyAtMost(f: int, keys: set<nat>): (r: Option<nat>)
    decreases f
    ensures r.Some? ==> r.value in keys && r.value <= f
    ensures r.Some? ==> forall k :: k in keys && k <= f ==> k <= r.value
    ensures r.None? ==> forall k :: k in keys ==> f < k
  {
    if f < 0 then None
    else if f as nat in keys then Some(f as nat)
    else GreatestKeyAtMost(f - 1, keys)
  }

  /** `get_shift`: the offset stored at the greatest key not above `f`, or
      nothing when every key is above `f`. */
  function GetShift(f: int, shifts: Shifts): (r: Option<Offset>)
    ensures r.None? <==> forall k :: k in shifts ==> f < k
    ensures 0 in shifts && f >= 0 ==> r.Some?
    ensures f in shifts ==> r == Some(shifts[f])
  {
    match GreatestKeyAtMost(f, shifts.Keys)
    case None => None
    case Some(k) => Some(shifts[k])
  }

  /** Entering edit mode at frame `f`: when `f` has no entry, a copy of the
      offset in force at `f` is stored under `f`. */
  function EnterShiftEdit(shifts: Shifts, f: nat): (r: Shifts)
    requires 0 in shifts
    ensures r.Keys == shifts.Keys + {f}
    ensures forall k :: k in shifts ==> r[k] == shifts[k]
  {
    if f in shifts then shifts else shifts[f := GetShift(f, shifts).value]
  }

  /** Leaving edit mode at frame `f`: for `f > 0`, the entry at `f` is dropped
      when it equals the offset in force at `f - 1`. */
  function LeaveShiftEdit(shifts: Shifts, f: nat): (r: Shifts)
    requires 0 in shifts && f in shifts
    ensures 0 in r && r.Keys <= shifts.Keys && shifts.Keys - r.Keys <= {f}
    ensures forall k :: k in r ==> r[k] == shifts[k]
    ensures f !in r <==> f > 0 && GetShift(f - 1, shifts) == Some(shifts[f])
  {
    if f > 0 && GetShift(f - 1, shifts) == Some(shifts[f]) then shifts - {f} else shifts
  }

  /** One arrow press: up/down move the y offset by +1/-1, left/right move the
      x offset by +1/-1. */
  function Nudge(o: Offset, a: Arrow): (r: Offset)
    ensures a.Up? || a.Down? ==> r.dx == o.dx && r.dy == o.dy + (if a.Up? then 1 else -1)
    ensures a.Left? || a.Right? ==> r.dy == o.dy && r.dx == o.dx + (if a.Left? then 1 else -1)
  {
    match a
    case Up => o.(dy := o.dy + 1)
    case Down => o.(dy := o.dy - 1)
    case Left => o.(dx := o.dx + 1)
    case Right => o.(dx := o.dx - 1)
  }

  /** The greatest key not above `f` is unique: any key with that property is
      the one the lookup finds. */
  lemma GreatestKeyIs(f: int, keys: set<nat>, k: nat)
    requires k in keys && k <= f
    requires forall k' :: k' in keys && k' <= f ==> k' <= k
    ensures GreatestKeyAtMost(f, keys) == Some(k)
  {
  }

  /** The lookup returns the offset stored at the greatest key not above
      `f`: whichever key that is gives the result, and a successful lookup
      comes from such a key. */
  lemma GetShiftIsGreatestKey(f: int, shifts: Shifts)
    ensures forall k :: k in shifts && k <= f && (forall k' :: k' in shifts && k' <= f ==> k' <= k) ==>
      GetShift(f, shifts) == Some(shifts[k])
    ensures GetShift(f, shifts).Some? ==>
      exists k :: k in shifts && k <= f && (forall k' :: k' in shifts && k' <= f ==> k' <= k) &&
        GetShift(f, shifts) == Some(shifts[k])
  {
  }

  /** Entering edit mode changes no lookup: the new entry repeats the offset
      already in force at its frame. */
  lemma EnterShiftEditKeepsLookup(shifts: Shifts, f: nat, g: int)
    requires 0 in shifts
    ensures GetShift(g, EnterShiftEdit(shifts, f)) == GetShift(g, shifts)
  {
    if f !in shifts {
      var r := EnterShiftEdit(shifts, f);
      var kf := GreatestKeyAtMost(f, shifts.Keys).value;
      if g < f {
        match GreatestKeyAtMost(g, shifts.Keys)
        case None =>
        case Some(k) => GreatestKeyIs(g, r.Keys, k);
      } else {
        var k := GreatestKeyAtMost(g, shifts.Keys).value;
        if k > f {
          GreatestKeyIs(g, r.Keys, k);
        } else {
          assert k == kf by { GreatestKeyIs(f, shifts.Keys, k); }
          GreatestKeyIs(g, r.Keys, f);
        }
      }
    }
  }

  /** Leaving edit mode changes no lookup: an entry is only dropped when the
      offset in force just before it is the same. */
  lemma LeaveShiftEditKeepsLookup(shifts: Shifts, f: nat, g: int)
    requires 0 in shifts && f in shifts
    ensures GetShift(g, LeaveShiftEdit(shifts, f)) == GetShift(g, shifts)
  {
    var r := LeaveShiftEdit(shifts, f);
    if f !in r && g >= f {
      var k := GreatestKeyAtMost(g, shifts.Keys).value;
      if k > f {
        GreatestKeyIs(g, r.Keys, k);
      } else {
        assert k == f;
        var kp := GreatestKeyAtMost(f - 1, shifts.Keys).value;
        GreatestKeyIs(g, r.Keys, kp);
      }
    } else if f !in r {
      match GreatestKeyAtMost(g, shifts.Keys)
      case None =>
      case Some(k) => GreatestKeyIs(g, r.Keys, k);
    }
  }

  /** Entering and then leaving edit mode at the same frame, with no arrow
      press in between, leaves every lookup as it was. */
  lemma ShiftEditRoundTrip(shifts: Shifts, f: nat, g: int)
    requires 0 in shifts
    ensures GetShift(g, LeaveShiftEdit(EnterShiftEdit(shifts, f), f)) == GetShift(g, shifts)
  {
    LeaveShiftEditKeepsLookup(EnterShiftEdit(shifts, f), f, g);
    EnterShiftEditKeepsLookup(shifts, f, g);
  }

  /** Editing the entry at frame `f` leaves the lookups of all earlier frames
      alone, and is what frame `f` itself reads from then on. */
  lemma EditEntryScope(shifts: Shifts, f: nat, v: Offset, g: int)
    requires f in shifts
    ensures g < f ==> GetShift(g, shifts[f := v]) == GetShift(g, shifts)
    ensures GetShift(f, shifts[f := v]) == Some(v)
  {
    if g < f {
      match GreatestKeyAtMost(g, shifts.Keys)
      case None =>
      case Some(k) => GreatestKeyIs(g, shifts[f := v].Keys, k);
    }
  }
}
