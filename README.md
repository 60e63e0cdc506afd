# Line annotation sessions of `image_plotting`, modelled in Dafny

This project models the GUI-independent core of `image_plotting` in
`microscopy_data_analysis/visualisation.py`. That class is an interactive
viewer for a stack of microscopy frames. The user draws straight line
segments on the frames, corrects for stage drift with a per-frame shift
table, and saves the annotations as JSON.

The model covers:

- **Line records** (`LineRecords`). A `line_object` holds one or two
  endpoints, a length and a change history. The model covers creating a
  record and completing it with a second point. It also covers relocating
  the nearer endpoint under the *length ratchet*: a move that would shorten
  the line is refused.
- **Shift table** (`ShiftTable`). `get_shift` reads a sparse map from frame
  to offset as a step function. The `m` toggle adds an entry on entry to
  editing and drops a redundant one on exit. The arrow keys nudge the
  current frame's entry.
- **Identifier allocation** (`LineRegistry`). `get_next_line_index` returns
  the smallest unused identifier.
- **Forward propagation** (`Propagation`). `_progress_to_next_image` copies
  each record of frame i-1 into frame i unless frame i holds a record for the
  same line that is at least as recent. A one-point copy has its last stamp
  replaced by the sentinel -1. Propagation is modelled as an in-place loop
  over an array of frame dictionaries, and is proved equal to a
  value-level function, `Propagated`.
- **The session** (`Session.ImagePlotting`). This is a class with one method
  per event:
  - `n`, `b` and the frame-number text box;
  - `m` and the arrow keys;
  - picking a line and right clicks;
  - `i`, two-press `d` and two-press `u` (undo);
  - `s` (save).

  Each method states the whole new state, the message shown and whether the
  source raises on the modelled state (raises from the plotting artists are
  left out, see below). `Valid()` and "the identifier set is exactly the set of
  lines present in some frame" (`Registered()`) are kept by every event.
- **Persistence** (`Persistence`, `DecimalKeys`, `CompanionPath`).
  - `save_as_json` and `read_in_json` are modelled over a small JSON value
    type. Integer dictionary keys are written as decimal strings.
  - The identifier set goes to a companion document. Its path is computed
    from the last `.` of the file path.
  - Saving then reading gives back the frames, the shift table and the
    identifier set.

Coordinates are integers. `length` holds the SQUARED Euclidean length. The
square root is monotone, so every comparison the source makes between
lengths is the same comparison between squares. A Python exception raised by
an event handler is the outcome `Raised`. The state is then as the handler
left it at the point of the exception.

The undo handler is modelled as written. Its restore loop visits frames
`changed[2]` .. N-1. For each visited frame holding the line, it compares and
overwrites the record in the CURRENT frame, not in the visited frame. So:

- at most the current frame's record changes, and it becomes the backup;
- a record with exactly two stamps makes the handler raise (`changed[2]` is
  out of range);
- the handler also raises when a one-stamp backup is compared a second time.

## Model

| member | source | states |
|---|---|---|
| LineRecords.NewRecord | microscopy_data_analysis/visualisation.py:135-141 | a new record is a pending line: one endpoint at the click, length 0, history holding only the creating frame |
| LineRecords.SqDist | microscopy_data_analysis/visualisation.py:611-613 | the squared distance between two points is never negative |
| LineRecords.AddSecondPoint | microscopy_data_analysis/visualisation.py:607-614 | completing keeps the first endpoint, appends the click as the second, stores the squared distance between them as the length, leaves the history alone and keeps the record well formed |
| LineRecords.NearerEndpoint | microscopy_data_analysis/visualisation.py:621-628 | the endpoint chosen for a relocation is one the click is no farther from than the other (endpoint 1 exactly when endpoint 0 is strictly farther) |
| LineRecords.ChangeSecondPoint | microscopy_data_analysis/visualisation.py:616-640 | the move is refused exactly when the new length would be below the stored one; otherwise only the nearer endpoint moves to the click, the new length is the new squared distance, which is never smaller than before, and the history is unchanged |
| LineRecords.CarryOver | microscopy_data_analysis/visualisation.py:151-159 | the copy put into the next frame keeps the endpoints, the length and all stamps but the last; the last becomes the sentinel -1 exactly for one-point records, and two-point records are copied unchanged |
| ShiftTable.GreatestKeyAtMost | microscopy_data_analysis/visualisation.py:332-335 | the key found is in the table, not above the frame, and at least as large as every such key; none is found only when every key is above the frame |
| ShiftTable.GetShift | microscopy_data_analysis/visualisation.py:330-335 | the lookup fails exactly when every key is above the frame, always succeeds when key 0 is present, and returns a frame's own entry when it has one |
| ShiftTable.GetShiftIsGreatestKey | microscopy_data_analysis/visualisation.py:330-335 | the lookup returns the offset stored at the greatest key not above the frame, and a successful lookup always comes from such a key |
| ShiftTable.GreatestKeyIs | microscopy_data_analysis/visualisation.py:332-335 | any key that is the greatest not above the frame is the one the lookup finds |
| ShiftTable.EnterShiftEdit | microscopy_data_analysis/visualisation.py:291-297 | entering edit mode adds the current frame as a key and changes no existing entry |
| ShiftTable.LeaveShiftEdit | microscopy_data_analysis/visualisation.py:300-309 | leaving edit mode keeps key 0 and every other entry, and drops the current frame's entry exactly when the frame is not 0 and its offset equals the one in force at the frame before |
| ShiftTable.Nudge | microscopy_data_analysis/visualisation.py:314-328 | up/down change only the y offset by +1/-1, left/right only the x offset by +1/-1 |
| ShiftTable.EnterShiftEditKeepsLookup | microscopy_data_analysis/visualisation.py:296-297 | entering edit mode changes the offset in force at no frame |
| ShiftTable.LeaveShiftEditKeepsLookup | microscopy_data_analysis/visualisation.py:305-309 | leaving edit mode changes the offset in force at no frame |
| ShiftTable.ShiftEditRoundTrip | microscopy_data_analysis/visualisation.py:288-309 | pressing `m` twice at the same frame with no arrow press between leaves every lookup as it was |
| ShiftTable.EditEntryScope | microscopy_data_analysis/visualisation.py:314-335 | editing a frame's entry leaves all earlier frames' offsets alone and is what that frame reads from then on |
| LineRegistry.MaxOf | microscopy_data_analysis/visualisation.py:584-587 | the value returned is a member of the set and no member exceeds it |
| LineRegistry.NextLineIndex | microscopy_data_analysis/visualisation.py:582-594 | the identifier returned is unused and every smaller one is used (the smallest free identifier); for a set that is exactly 0 .. n-1 it is n |
| Propagation.Propagated | microscopy_data_analysis/visualisation.py:144-159 | after propagation frame i holds exactly the lines of frame i-1 and frame i |
| Propagation.Step | microscopy_data_analysis/visualisation.py:240-241 | the frames after moving forward into frame i: only frame i changes, and it then holds the lines of frames i-1 and i |
| Propagation.Advance | microscopy_data_analysis/visualisation.py:888-889 | the frames after entering frames lo .. hi in ascending order, each from the result of the one before: no frame outside lo .. hi changes |
| Propagation.PropagatedRule | microscopy_data_analysis/visualisation.py:145-159 | a line only in frame i keeps its record, a line only in frame i-1 gets a carry-over copy, and a shared line is overwritten exactly when frame i-1's last stamp is strictly greater |
| Propagation.PropagatedWellFormed | microscopy_data_analysis/visualisation.py:151-159 | propagation keeps every record well formed |
| Propagation.PropagatedIdempotent | microscopy_data_analysis/visualisation.py:144-159 | propagating twice from the same frame gives the same result as propagating once |
| Propagation.PropagatedKeepsNewer | microscopy_data_analysis/visualisation.py:146-151 | a record in frame i at least as recent as frame i-1's, or absent from frame i-1, is never overwritten |
| Propagation.ProgressToNextImage | microscopy_data_analysis/visualisation.py:144-159 | the in-place loop rewrites frame i to the propagated dictionary and leaves every other frame unchanged |
| Propagation.AdvanceInPlace | microscopy_data_analysis/visualisation.py:888-889 | calling the progression for frames lo .. hi in ascending order leaves the frames equal to the chained propagation through those frames |
| Propagation.ProgressThrough | microscopy_data_analysis/visualisation.py:888-889 | the same loop, which also keeps every record well formed and the set of line identifiers present in the frames unchanged |
| Propagation.ProgressFrom | microscopy_data_analysis/visualisation.py:885-889 | a jump from frame `from` back to an earlier target changes no frame; a jump forward propagates through every frame after `from` up to the target; both keep records well formed and identifiers unchanged |
| Propagation.StepWellFormed | microscopy_data_analysis/visualisation.py:240-241 | one forward step keeps all frames well formed |
| Propagation.AdvanceWellFormed | microscopy_data_analysis/visualisation.py:888-889 | a chain of forward steps keeps all frames well formed |
| Propagation.StepIdempotent | microscopy_data_analysis/visualisation.py:225-241 | entering the same frame forward twice with no edit between has the effect of entering it once |
| Propagation.AdvanceCarriesLines | microscopy_data_analysis/visualisation.py:888-889 | a jump forward makes every line of the starting frame present in every frame passed |
| Propagation.StepKeepsIds | microscopy_data_analysis/visualisation.py:144-159 | a forward step changes which lines occur in some frame in no way |
| Propagation.AdvanceKeepsIds | microscopy_data_analysis/visualisation.py:888-889 | a jump forward changes which lines occur in some frame in no way |
| Propagation.OccursAfterPut | microscopy_data_analysis/visualisation.py:601-604 | storing a record for a line in one frame adds exactly that line to those occurring somewhere |
| Propagation.OccursAfterRemoval | microscopy_data_analysis/visualisation.py:686-689 | deleting a line from every frame removes exactly that line from those occurring somewhere |
| DecimalKeys.Decimal | microscopy_data_analysis/visualisation.py:956-957 | an integer key is written as a canonical digit string denoting that number |
| DecimalKeys.ParseDecimal | microscopy_data_analysis/visualisation.py:1007-1008 | a key string is read back exactly when it is canonical decimal |
| DecimalKeys.CanonicalIsDecimal | microscopy_data_analysis/visualisation.py:1007-1008 | every canonical digit string is the written form of the number it denotes |
| DecimalKeys.DecimalRoundTrip | microscopy_data_analysis/visualisation.py:1006-1008 | reading a written key gives the key back, and a string reads as n exactly when it is n's written form |
| DecimalKeys.ParseInjective | microscopy_data_analysis/visualisation.py:1006-1018 | two different key strings never read back as the same key |
| CompanionPath.Reverse | microscopy_data_analysis/visualisation.py:959 | the reversed path has the characters in the opposite order |
| CompanionPath.Find | microscopy_data_analysis/visualisation.py:959 | the search returns -1 exactly when the character is absent, and otherwise its first position |
| CompanionPath.PyPrefix | microscopy_data_analysis/visualisation.py:960 | Python's `s[:stop]` is a prefix of `s`: all of it for a stop at or past the end, empty for a stop at or before minus the length, `stop` characters for a stop in range and `len(s) + stop` for a negative one |
| CompanionPath.LastDot | microscopy_data_analysis/visualisation.py:959-960 | there is no last dot exactly when the path has none; otherwise the position holds a dot and no later one does |
| CompanionPath.ReversedFindIsLastDot | microscopy_data_analysis/visualisation.py:959-960 | searching the reversed path for `.` finds the last dot counted from the end, or -1 when there is none |
| CompanionPath.SetPath | microscopy_data_analysis/visualisation.py:959-961 | the companion path is everything before the last dot of the whole path followed by `_set.json`, or `_set.json` alone when the path has no dot |
| Persistence.RecordJson | microscopy_data_analysis/visualisation.py:950-954 | a record is written as an object with exactly the fields `x`, `y`, `length` and `changed`, the lists reading back as the record's lists and `length` holding its length |
| Persistence.IntsJson | microscopy_data_analysis/visualisation.py:951-954 | a list of integers is written as an array of the same numbers in order |
| Persistence.ReadInts | microscopy_data_analysis/visualisation.py:1014-1017 | an array is read as integers exactly when every item is a number, giving those numbers in order |
| Persistence.IntsRoundTrip | microscopy_data_analysis/visualisation.py:1014-1017 | reading a written integer list gives it back |
| Persistence.ReadRecord | microscopy_data_analysis/visualisation.py:1013-1017 | a record is read only from an object with the four fields, and carries exactly the values stored there |
| Persistence.RecordRoundTrip | microscopy_data_analysis/visualisation.py:1013-1018 | reading a written record gives it back |
| Persistence.OffsetJson | microscopy_data_analysis/visualisation.py:957 | a shift value is written as the two-number list `[dx, dy]` |
| Persistence.ReadOffset | microscopy_data_analysis/visualisation.py:1007-1008 | an offset is read exactly from a two-number array, which is its written form |
| Persistence.OffsetRoundTrip | microscopy_data_analysis/visualisation.py:1007-1008 | reading a written offset gives it back |
| Persistence.KeyedFields | microscopy_data_analysis/visualisation.py:948-957 | a dictionary with integer keys is written with one field per key, named by the key's decimal form and holding the written value |
| Persistence.ReadEntries | microscopy_data_analysis/visualisation.py:1007-1018 | the dictionary read has exactly the parsed keys, each mapped to the value read from its field |
| Persistence.ReadKeyed | microscopy_data_analysis/visualisation.py:1006-1008 | a keyed object is read exactly when every field name is a key and every field value reads |
| Persistence.KeyedRoundTrip | microscopy_data_analysis/visualisation.py:1006-1018 | for any value codec that round-trips, reading a written integer-keyed dictionary gives it back |
| Persistence.ReadFrame | microscopy_data_analysis/visualisation.py:1010-1018 | a frame dictionary reads exactly when every field name is a decimal identifier and every value a record, and each line read is the record under its own decimal key |
| Persistence.ReadShifts | microscopy_data_analysis/visualisation.py:1006-1008 | a shift table reads exactly when every field name is a decimal frame index and every value a two-number list, and each entry read is the value under its own decimal key |
| Persistence.FrameRoundTrip | microscopy_data_analysis/visualisation.py:1010-1018 | reading a written frame dictionary gives it back |
| Persistence.ShiftsRoundTrip | microscopy_data_analysis/visualisation.py:1006-1008 | reading a written shift table gives it back |
| Persistence.DocumentJson | microscopy_data_analysis/visualisation.py:956-957 | the saved document is a pair whose first part has one entry per frame, each reading back as that frame, and whose second part reads back as the shift table |
| Persistence.ReadSet | microscopy_data_analysis/visualisation.py:1000-1002 | the set document reads exactly when it is an array of non-negative numbers |
| Persistence.ReadSetListsSet | microscopy_data_analysis/visualisation.py:963-964 | the set document reads as a given set exactly when it lists that set's members and nothing else, in any order |
| Persistence.ReadDocument | microscopy_data_analysis/visualisation.py:991-1021 | a successful read has one frame per saved frame, each read from its own entry, the shift table read from the second entry and the set from the companion document |
| Persistence.SaveReadRoundTrip | microscopy_data_analysis/visualisation.py:945-1021 | reading what was saved gives back the frames, the shift table and the identifier set |
| Persistence.SaveFrame | microscopy_data_analysis/visualisation.py:949-954 | the loop over one frame's lines builds that frame's written form |
| Persistence.SaveKeyed | microscopy_data_analysis/visualisation.py:949-954 | the loop over one dictionary's keys builds exactly the written object of that dictionary: one field per key, named by its decimal form, holding the written value |
| Persistence.SaveSet | microscopy_data_analysis/visualisation.py:964 | the set document is a JSON array of non-negative numbers that lists every member of the identifier set and nothing else, which by `ReadSetListsSet` reads back as that set |
| Persistence.SaveAsJson | microscopy_data_analysis/visualisation.py:945-966 | saving produces the written document of frames and shifts, the companion path of the file path, and a set document listing the identifier set |
| Persistence.ReadDict | microscopy_data_analysis/visualisation.py:1006-1008 | the loop over an object's fields reads the integer-keyed dictionary, failing exactly when the functional reading fails |
| Persistence.ReadFrames | microscopy_data_analysis/visualisation.py:1010-1018 | the loop over the saved frames fails exactly when some frame fails to read, and otherwise gives each frame as read |
| Persistence.ReadInJson | microscopy_data_analysis/visualisation.py:991-1021 | reading uses the companion path of the file path and returns what the document and the set document read as |
| Session.PutRecord | microscopy_data_analysis/visualisation.py:601 | assigning one record changes only that entry of that frame, keeps the frames well formed and adds exactly that line to those occurring somewhere |
| Session.CollectLineSet | microscopy_data_analysis/visualisation.py:429-433 | the set rebuilt from the frames holds exactly the lines occurring in some frame |
| Session.PyIndex | microscopy_data_analysis/visualisation.py:669-670 | a list index from minus the length up to the length denotes the position congruent to it modulo the length (a negative index counts from the end) |
| Session.Hits | microscopy_data_analysis/visualisation.py:669-670 | counts the frames from `lo` (Python-indexed) up to `hi` that hold the line, that is, the iterations of the restore loop that test the stamps; the count is at most the number of frames visited |
| Session.RestoreFromBackup | microscopy_data_analysis/visualisation.py:669-673 | the restore loop raises exactly when at least two visited frames hold the line, the stamps match and the backup has a single stamp; it replaces the current frame's record by the backup exactly when some visited frame holds the line and the stamps match, and otherwise changes nothing |
| Session.ImagePlotting.constructor | microscopy_data_analysis/visualisation.py:396-442 | setup installs the given or default shift table `{0: [0, 0]}`, the given or empty frames and the given set, or one collected from the frames; no line or shift editing is active, and the frame array is newly allocated |
| Session.ImagePlotting.NextImage | microscopy_data_analysis/visualisation.py:225-241 | at the last frame only a message; otherwise the counter advances and the new frame is propagated into, selection and shifts untouched |
| Session.ImagePlotting.BeforeImage | microscopy_data_analysis/visualisation.py:243-255 | at frame 0 only a message; otherwise the counter goes back one and no frame changes |
| Session.ImagePlotting.TextInput | microscopy_data_analysis/visualisation.py:883-891 | jumping back changes no frame; jumping forward propagates through every frame passed in ascending order; the counter becomes the target |
| Session.ImagePlotting.ManualShift | microscopy_data_analysis/visualisation.py:288-311 | `m` enters editing with the current frame's entry added, leaves editing at the activation frame dropping a redundant entry, and elsewhere only reminds where editing began |
| Session.ImagePlotting.MoveShift | microscopy_data_analysis/visualisation.py:314-328 | an arrow press while editing nudges the current frame's entry, raises when that frame has none, and does nothing when not editing |
| Session.ImagePlotting.PickLine | microscopy_data_analysis/visualisation.py:500-505 | a pick makes the line active, activated in the current frame, leaving the delete and undo flags as they were |
| Session.ImagePlotting.FirstPointOfLine | microscopy_data_analysis/visualisation.py:596-605 | a new line takes the smallest free identifier, gets a one-point record in the current frame and joins the identifier set |
| Session.ImagePlotting.PutActive | microscopy_data_analysis/visualisation.py:601 | replacing the active line's record in the current frame keeps the session valid and the identifier set registered |
| Session.ImagePlotting.CompleteLine | microscopy_data_analysis/visualisation.py:553-561 | a pending line is completed, and deselected, only in its activation frame; elsewhere a reminder and nothing changes |
| Session.ImagePlotting.RelocateEndpoint | microscopy_data_analysis/visualisation.py:563-570 | the record is backed up; a relocation refused by the ratchet leaves the line active and unchanged, an accepted one stores the moved record with the current frame appended to its history and deselects |
| Session.ImagePlotting.StartLine | microscopy_data_analysis/visualisation.py:545-548 | a first click activates a new line in the current frame: it takes the smallest free identifier and a one-point record there, and the backup is kept |
| Session.ImagePlotting.SecondClick | microscopy_data_analysis/visualisation.py:550-575 | with a line active, a missing record raises and changes nothing; a pending line is completed and a complete one relocated, as above |
| Session.ImagePlotting.RightClick | microscopy_data_analysis/visualisation.py:542-580 | with no active line a new line starts at the shift-corrected click; otherwise a missing record raises, a pending line is completed and a complete one relocated, as above |
| Session.ImagePlotting.ReleaseLine | microscopy_data_analysis/visualisation.py:527-529 | the line is deleted from every frame dictionary and from nothing else |
| Session.ImagePlotting.InactivateLines | microscopy_data_analysis/visualisation.py:515-537 | `i` deselects and cancels pending delete and undo; a line with only its first point is removed from the set and every frame, raising when its record or its set entry is missing |
| Session.ImagePlotting.DeleteLines | microscopy_data_analysis/visualisation.py:679-696 | the first `d` only asks for confirmation; the second removes the line from the set and from every frame and deselects it, raising when it is not in the set |
| Session.ImagePlotting.RestoreActive | microscopy_data_analysis/visualisation.py:668-673 | the undo's restore loop, with the effect stated for `RestoreFromBackup`, keeps the session valid and registered |
| Session.ImagePlotting.UndoLastLineChange | microscopy_data_analysis/visualisation.py:644-673 | the first `u` only asks for confirmation; the second deselects and then distinguishes a one-stamp history (message), a missing backup (raises), a backup of another line (message), a two-stamp history (raises) and otherwise the restore loop's effect |
| Session.ImagePlotting.SaveLinesAndShifts | microscopy_data_analysis/visualisation.py:921-942 | `s` saves exactly the document `save_as_json` writes for the session's frames, shift table and identifier set, at the same paths |

`Persistence.KeyedJson`, `Persistence.FrameJson` and `Persistence.ShiftsJson` are abbreviations: `KeyedJson` is the object of `KeyedFields` over all keys, and `FrameJson` and `ShiftsJson` are `KeyedJson` with `RecordJson` and `OffsetJson` as the value writers (microscopy_data_analysis/visualisation.py:948-957).

## Left out

- Plotting, figures, artists, the line and image overlays, titles and all `print` output are not modelled. Messages are reduced to the `Message` values. Raises that come only from the artists are therefore not reported. In particular, `_inactivate_lines` raises KeyError on `self.artists[self.line_index]` (microscopy_data_analysis/visualisation.py:531) for a one-point line whose artist is absent, and Session.ImagePlotting.InactivateLines reports Done there.
- The keyboard dispatch table is not modelled. Each handler is a method called directly.
- The endpoint-detail marking (`_pick_lines_specialised`, `_mark_exit`, `_mark_redirection`, `_mark_double`), `vis_*` helpers and `read_in_json_old` are not modelled. `image_analysis/deprecated.py` is not part of this model.
- Opening, writing and reading files are not modelled. `save_as_json` returns the documents and the companion path, and `read_in_json` takes the parsed documents as parameters.
- Lengths are not floating point. `length` is the squared integer length, so a saved document holds squares where the source writes square roots. Click coordinates are integers.
- DecimalKeys.ParseDecimal: accepts canonical decimal strings only. Python's `int()` also accepts signs, whitespace and leading zeros, which `json.dump` never writes.
- Persistence.ReadSet: rejects a set document holding a negative number or any item that is not a number, where `set(...)` accepts any hashable items. Persistence.ReadEntries rejects negative keys. Identifiers and frame indices are non-negative numbers in every document the session writes.
- Persistence.ReadOffset: reads a shift entry only from a list of exactly two numbers, where `read_in_json` stores whatever value it finds. Every document the session writes holds `[dx, dy]` lists there.
- Persistence.ReadRecord: rejects an empty `changed` list. The source would load it and raise at the first later `changed[-1]`. The reader also requires numeric lists for `x`, `y` and `changed`. Like the source, it does not check the one-or-two-endpoint shape the session maintains.
- Session.ImagePlotting.TextInput: requires `0 <= target < N`. For `target >= N` the source first propagates up to frame N-1. It then raises IndexError in `_progress_to_next_image` on `line_objs[N]` when frame N-1 holds a line, or when `target > N`. Only when `target == N` and frame N-1 is empty does it set the counter to N, and then it raises in the image lookup. A negative target from -N to -1 is accepted through Python's negative indexing and leaves a negative counter. A target below -N also sets the counter (microscopy_data_analysis/visualisation.py:891) and then raises IndexError in the image lookup (microscopy_data_analysis/visualisation.py:892). These outcomes leave the session outside the states modelled.
- Session.ImagePlotting.constructor: requires `counter < numImages`, where the source accepts any `image_counter` and fails only later, in `show()`. It also requires a given shift table to contain key 0, and requires given frames to number one per image and be well formed. It stores a copy of the given frames, where the source keeps the caller's list itself (aliasing is not modelled).
- Session.ImagePlotting.NextImage: always propagates. The source skips propagation when line features were never installed, and this model always installs them.
- Time stamps (`times`) and the image data are not modelled. Only the number of frames matters.

## Behaviour of the source worth knowing

- microscopy_data_analysis/visualisation.py:500-505 and microscopy_data_analysis/visualisation.py:542-580: a pick and a right click leave the pending delete and undo flags set. `i` clears both (microscopy_data_analysis/visualisation.py:520-521). The second `d` clears only the delete flag (microscopy_data_analysis/visualisation.py:693), and the second `u` clears only the undo flag (microscopy_data_analysis/visualisation.py:654).
- microscopy_data_analysis/visualisation.py:959-961: the companion path is derived from the last `.` of the whole path, which can lie in a directory name.
- microscopy_data_analysis/visualisation.py:669: an undo right after a single relocation raises, because `changed[2]` does not exist when the history has two stamps.
- microscopy_data_analysis/visualisation.py:673: the undo loop only ever rewrites the current frame's record, whatever frame it visits.
