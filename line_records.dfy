/**
 * One line's record in one frame: the source's `line_object` together with
 * the static helpers that complete and relocate it.
 *
 * Endpoints are stored shift-corrected (drift-free reference coordinates) as
 * integers, and `length` holds the SQUARED Euclidean length of the segment;
 * since the square root is monotone, every comparison the source makes on
 * lengths is the same comparison on squares.
 */
module LineRecords {

  import opened Options

  /** `x`, `y`: endpoint coordinates (one or two entries); `changed`: the frames
      at which this record was created or edited, the last entry possibly the
      carry-over sentinel. */
  datatype LineRecord = LineRecord(x: seq<int>, y: seq<int>, length: int, changed: History)

  /** A change history is never empty: a record is created with one stamp and
      stamps are only ever appended or overwritten in place. */
  type History = s: seq<int> | |s| >= 1 witness [0]

  /** Marks the final `changed` entry of a one-point record copied forward. */
  const Sentinel: int := -1

  /** The shape every record of the session has: one or two endpoints, and
      a history of frame indices or the sentinel. */
  predicate WellFormed(r: LineRecord) {
    && |r.x| == |r.y|
    && 1 <= |r.x| <= 2
    && forall j :: 0 <= j < |r.changed| ==> r.changed[j] >= Sentinel
  }

  /** `changed[-1]`: the recency stamp compared by propagation. */
  function LastChange(r: LineRecord): int {
    r.changed[|r.changed| - 1]
  }

  function SqDist(x0: int, y0: int, x1: int, y1: int): (d: int)
    ensures d >= 0
  {
    assert (x1 - x0) * (x1 - x0) >= 0 && (y1 - y0) * (y1 - y0) >= 0 by {
      SquareNonNegative(x1 - x0);
      SquareNonNegative(y1 - y0);
    }
    (x1 - x0) * (x1 - x0) + (y1 - y0) * (y1 - y0)
  }

  lemma SquareNonNegative(a: int)
    ensures a * a >= 0
  {
    if a < 0 {
      assert a * a == (-a) * (-a);
    }
  }

  /** A pending record has length 0; a complete one stores the squared
      distance between its endpoints. */
  predicate LengthConsistent(r: LineRecord)
    requires |r.x| == |r.y| && 1 <= |r.x| <= 2
  {
    if |r.x| == 1 then r.length == 0
    else r.length == SqDist(r.x[0], r.y[0], r.x[1], r.y[1])
  }

  /** `line_object(x, y, image_counter)`: a pending line with its first point,
      created at `frame`. */
  function NewRecord(px: int, py: int, frame: nat): (r: LineRecord)
    ensures WellFormed(r) && LengthConsistent(r)
    ensures |r.x| == 1 && r.x[0] == px && r.y[0] == py
    ensures r.changed == [frame]
  {
    LineRecord([px], [py], 0, [frame])
  }

  /** `_add_second_point_of_line`: append the second endpoint and compute the
      length; the history is not extended. */
  function AddSecondPoint(r: LineRecord, px: int, py: int): (c: LineRecord)
    requires |r.x| == 1 && |r.y| == 1
    ensures |c.x| == 2 && |c.y| == 2
    ensures c.x[0] == r.x[0] && c.y[0] == r.y[0] && c.x[1] == px && c.y[1] == py
    ensures LengthConsistent(c) && c.length >= 0
    ensures c.changed == r.changed
    ensures WellFormed(r) ==> WellFormed(c)
  {
    var x := r.x + [px];
    var y := r.y + [py];
    r.(x := x, y := y, length := SqDist(x[0], y[0], x[1], y[1]))
  }

  /** Which endpoint a relocation click moves: index 1 exactly when the click is
      strictly farther from endpoint 0 than from endpoint 1. */
  function NearerEndpoint(r: LineRecord, px: int, py: int): (e: nat)
    requires |r.x| == 2 && |r.y| == 2
    ensures e < 2
    ensures SqDist(px, py, r.x[e], r.y[e]) <= SqDist(px, py, r.x[1 - e], r.y[1 - e])
    ensures e == 1 <==> SqDist(px, py, r.x[0], r.y[0]) > SqDist(px, py, r.x[1], r.y[1])
  {
    if SqDist(px, py, r.x[0], r.y[0]) > SqDist(px, py, r.x[1], r.y[1]) then 1 else 0
  }

  /** `_change_second_point_of_line`: move the nearer endpoint to the click;
      `None` when the new length would be below the stored one (the endpoints
      are then restored, i.e. the record is left as it was). */
  function ChangeSecondPoint(r: LineRecord, px: int, py: int): (o: Option<LineRecord>)
    requires |r.x| == 2 && |r.y| == 2
    ensures var e := NearerEndpoint(r, px, py);
      var moved := SqDist(if e == 0 then px else r.x[0], if e == 0 then py else r.y[0],
                          if e == 1 then px else r.x[1], if e == 1 then py else r.y[1]);
      && (o.None? <==> moved < r.length)
      && (o.Some? ==>
            && |o.value.x| == 2 && |o.value.y| == 2
            && o.value.x[e] == px && o.value.y[e] == py
            && o.value.x[1 - e] == r.x[1 - e] && o.value.y[1 - e] == r.y[1 - e]
            && o.value.length == moved)
    ensures o.Some? ==> o.value.length >= r.length
    ensures o.Some? ==> o.value.changed == r.changed && LengthConsistent(o.value)
    ensures o.Some? && WellFormed(r) ==> WellFormed(o.value)
  {
    var e := NearerEndpoint(r, px, py);
    var x := r.x[e := px];
    var y := r.y[e := py];
    var dl := SqDist(x[0], y[0], x[1], y[1]);
    if dl < r.length then None else Some(r.(x := x, y := y, length := dl))
  }

  /** The copy propagation puts into the next frame: identical to the source,
      except that a one-point record gets the sentinel as its last stamp. */
  function CarryOver(r: LineRecord): (c: LineRecord)
    ensures c.x == r.x && c.y == r.y && c.length == r.length
    ensures |c.changed| == |r.changed|
    ensures c.changed[..|c.changed| - 1] == r.changed[..|r.changed| - 1]
    ensures LastChange(c) == if |r.x| == 1 then Sentinel else LastChange(r)
    ensures |r.x| != 1 ==> c == r
    ensures WellFormed(r) ==> WellFormed(c)
  {
    if |r.x| == 1 then r.(changed := r.changed[..|r.changed| - 1] + [Sentinel]) else r
  }
}
