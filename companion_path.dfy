/**
 * The file name of the identifier-set document saved next to the main one:
 * `filepath[:-filepath[::-1].find('.') - 1] + '_set.json'`.
 */
module CompanionPath {

  import opened Options

  const SetSuffix: string := "_set.json"

  function Reverse(s: string): (r: string)
    ensures |r| == |s| && forall i :: 0 <= i < |s| ==> r[i] == s[|s| - 1 - i]
  {
    if |s| == 0 then [] else [s[|s| - 1]] + Reverse(s[..|s| - 1])
  }

  /** `str.find(c)`: the first index holding `c`, or -1. */
  function Find(s: string, c: char): (i: int)
    ensures -1 <= i < |s|
    ensures i == -1 <==> c !in s
    ensures i >= 0 ==> s[i] == c && forall j :: 0 <= j < i ==> s[j] != c
  {
    if |s| == 0 then -1
    else if s[0] == c then 0
    else
      var j := Find(s[1..], c);
      assert c in s[1..] <==> c in s by { assert s == [s[0]] + s[1..]; }
      if j == -1 then -1 else j + 1
  }

  /** `s[:stop]` with Python's reading of a negative or too-large stop. */
  function PyPrefix(s: string, stop: int): (r: string)
    ensures |r| <= |s| && r == s[..|r|]
    ensures stop >= |s| ==> r == s
    ensures stop <= -|s| ==> r == ""
    ensures 0 <= stop <= |s| ==> |r| == stop
    ensures -|s| <= stop < 0 ==> |r| == |s| + stop
  {
    if stop < 0 then s[..if |s| + stop < 0 then 0 else |s| + stop]
    else s[..if stop > |s| then |s| else stop]
  }

  /** The position of the last `.`, scanning from the end: an independent
      statement of what the reversed search finds. */
  function LastDot(s: string): (r: Option<nat>)
    ensures r.None? <==> '.' !in s
    ensures r.Some? ==> r.value < |s| && s[r.value] == '.' && forall j :: r.value < j < |s| ==> s[j] != '.'
  {
    if |s| == 0 then None
    else if s[|s| - 1] == '.' then Some(|s| - 1)
    else
      assert s == s[..|s| - 1] + [s[|s| - 1]];
      LastDot(s[..|s| - 1])
  }

  /** With no dot, the reversed search finds nothing. */
  lemma ReversedFindNoDot(s: string)
    requires '.' !in s
    ensures Find(Reverse(s), '.') == -1
  {
    var rev := Reverse(s);
    forall i | 0 <= i < |rev|
      ensures rev[i] != '.'
    {
      assert rev[i] == s[|s| - 1 - i];
    }
  }

  /** Searching the reversed path finds the last dot, counted from the end. */
  lemma ReversedFindLastDot(s: string, p: nat)
    requires p < |s| && s[p] == '.' && forall j :: p < j < |s| ==> s[j] != '.'
    ensures Find(Reverse(s), '.') == |s| - 1 - p
  {
    var rev := Reverse(s);
    var f := Find(rev, '.');
    var i := |s| - 1 - p;
    assert rev[i] == '.';
    forall j | 0 <= j < i
      ensures rev[j] != '.'
    {
      assert rev[j] == s[|s| - 1 - j];
    }
  }

  /** The reversed search finds the last dot, counted from the end, or -1. */
  lemma ReversedFindIsLastDot(s: string)
    ensures Find(Reverse(s), '.') == if LastDot(s).None? then -1 else |s| - 1 - LastDot(s).value
  {
    if LastDot(s).None? {
      ReversedFindNoDot(s);
    } else {
      ReversedFindLastDot(s, LastDot(s).value);
    }
  }

  /** The companion path as the source derives it. It is everything before
      the last `.` of the WHOLE path (a dot in a directory name counts when the
      file name has none) followed by `_set.json`; with no dot at all it is
      `_set.json` alone. */
  function SetPath(filepath: string): (r: string)
    ensures r == (match LastDot(filepath)
                  case None => ""
                  case Some(p) => filepath[..p]) + SetSuffix
  {
    var strIndex := Find(Reverse(filepath), '.');
    ReversedFindIsLastDot(filepath);
    PyPrefix(filepath, -strIndex - 1) + SetSuffix
  }
}
