/**
 * The saved form of a session: `[line_objs, shifts]` in one JSON document and
 * the identifier set as a JSON list in the companion file. Dictionaries with
 * integer keys are written with decimal-string keys and read back with
 * `int(...)`.
 */
module Persistence {

  import opened Options
  import opened DecimalKeys
  import opened LineRecords
  import opened ShiftTable
  import opened Propagation
  import opened CompanionPath

  /** The JSON values the saved documents are made of. */
  datatype Json = Num(n: int) | Arr(items: seq<Json>) | Obj(fields: map<string, Json>)

  /** What `read_in_json` returns: the frames, the shift table and the set. */
  datatype SessionData = SessionData(lineObjs: seq<Frame>, shifts: Shifts, lineSet: set<nat>)

  // ---------------------------------------------------------------- lists of ints

  function IntsJson(v: seq<int>): (j: Json)
    ensures j.Arr? && |j.items| == |v|
    ensures forall i :: 0 <= i < |v| ==> j.items[i] == Num(v[i])
  {
    Arr(seq(|v|, i requires 0 <= i < |v| => Num(v[i])))
  }

  function ReadInts(j: Json): (r: Option<seq<int>>)
    ensures r.Some? <==> j.Arr? && forall i :: 0 <= i < |j.items| ==> j.items[i].Num?
    ensures r.Some? ==> |r.value| == |j.items| && forall i :: 0 <= i < |j.items| ==> j.items[i] == Num(r.value[i])
  {
    if j.Arr? && forall i :: 0 <= i < |j.items| ==> j.items[i].Num? then
      Some(seq(|j.items|, i requires 0 <= i < |j.items| => j.items[i].n))
    else None
  }

  lemma IntsRoundTrip(v: seq<int>)
    ensures ReadInts(IntsJson(v)) == Some(v)
  {
    assert ReadInts(IntsJson(v)).value == v;
  }

  // ---------------------------------------------------------------- records

  /** The dictionary `{'x': .., 'y': .., 'length': .., 'changed': ..}`. */
  function RecordJson(r: LineRecord): (j: Json)
    ensures j.Obj? && j.fields.Keys == {"x", "y", "length", "changed"}
    ensures j.fields["length"] == Num(r.length)
    ensures ReadInts(j.fields["x"]) == Some(r.x) && ReadInts(j.fields["y"]) == Some(r.y)
    ensures ReadInts(j.fields["changed"]) == Some(r.changed)
  {
    IntsRoundTrip(r.x);
    IntsRoundTrip(r.y);
    IntsRoundTrip(r.changed);
    Obj(map["x" := IntsJson(r.x), "y" := IntsJson(r.y), "length" := Num(r.length), "changed" := IntsJson(r.changed)])
  }

  /** A record read field by field; the four fields must be present and hold
      numbers or lists of numbers, and the history must not be empty. */
  function ReadRecord(j: Json): (r: Option<LineRecord>)
    ensures r.Some? ==> j.Obj? && "x" in j.fields && "y" in j.fields && "length" in j.fields && "changed" in j.fields
    ensures r.Some? ==> j.fields["length"] == Num(r.value.length)
    ensures r.Some? ==> ReadInts(j.fields["x"]) == Some(r.value.x) && ReadInts(j.fields["y"]) == Some(r.value.y)
    ensures r.Some? ==> ReadInts(j.fields["changed"]) == Some(r.value.changed)
  {
    if !j.Obj? || "x" !in j.fields || "y" !in j.fields || "length" !in j.fields || "changed" !in j.fields then None
    else
      var x, y, c := ReadInts(j.fields["x"]), ReadInts(j.fields["y"]), ReadInts(j.fields["changed"]);
      if x.None? || y.None? || c.None? || |c.value| == 0 || !j.fields["length"].Num? then None
      else Some(LineRecord(x.value, y.value, j.fields["length"].n, c.value))
  }

  lemma RecordRoundTrip(r: LineRecord)
    ensures ReadRecord(RecordJson(r)) == Some(r)
  {
    IntsRoundTrip(r.x);
    IntsRoundTrip(r.y);
    IntsRoundTrip(r.changed);
  }

  // ---------------------------------------------------------------- offsets

  /** A shift value, the list `[dx, dy]`. */
  function OffsetJson(o: Offset): (j: Json)
    ensures ReadInts(j) == Some([o.dx, o.dy])
  {
    assert ReadInts(Arr([Num(o.dx), Num(o.dy)])).value == [o.dx, o.dy];
    Arr([Num(o.dx), Num(o.dy)])
  }

  function ReadOffset(j: Json): (r: Option<Offset>)
    ensures r.Some? <==> j.Arr? && |j.items| == 2 && j.items[0].Num? && j.items[1].Num?
    ensures r.Some? ==> j == OffsetJson(r.value)
  {
    if j.Arr? && |j.items| == 2 && j.items[0].Num? && j.items[1].Num? then
      Some(Offset(j.items[0].n, j.items[1].n))
    else None
  }

  lemma OffsetRoundTrip(o: Offset)
    ensures ReadOffset(OffsetJson(o)) == Some(o)
  {
  }

  // ---------------------------------------------------------------- int-keyed dictionaries

  /** The entries of `m` with keys in `ks`, as an object with decimal keys. */
  function KeyedFields<T>(m: map<nat, T>, write: T -> Json, ks: set<nat>): (f: map<string, Json>)
    ensures f.Keys == set k | k in ks && k in m :: Decimal(k)
    ensures forall k :: k in ks && k in m ==> f[Decimal(k)] == write(m[k])
  {
    map k | k in ks && k in m :: Decimal(k) := write(m[k])
  }

  /** `json.dump` of a dictionary with int keys. */
  function KeyedJson<T>(m: map<nat, T>, write: T -> Json): Json {
    Obj(KeyedFields(m, write, m.Keys))
  }

  /** Whether every entry under `ks` reads back: the key is a decimal and
      the value has the expected shape. */
  predicate EntriesRead<T>(fields: map<string, Json>, read: Json -> Option<T>, ks: set<string>) {
    forall s :: s in ks ==> s in fields && ParseDecimal(s).Some? && read(fields[s]).Some?
  }

  /** The entries of `fields` under the keys `ks`, with `int(key)` keys. */
  function ReadEntries<T>(fields: map<string, Json>, read: Json -> Option<T>, ks: set<string>): (m: map<nat, T>)
    requires EntriesRead(fields, read, ks)
    ensures m.Keys == set s | s in ks :: ParseDecimal(s).value
    ensures forall s :: s in ks ==> m[ParseDecimal(s).value] == read(fields[s]).value
  {
    ParseInjective();
    map s | s in ks :: ParseDecimal(s).value := read(fields[s]).value
  }

  /** `{int(i): value for i in obj}`, or nothing when the document is not an
      object of readable entries. */
  function ReadKeyed<T>(j: Json, read: Json -> Option<T>): (r: Option<map<nat, T>>)
    ensures r.Some? <==> j.Obj? && EntriesRead(j.fields, read, j.fields.Keys)
    ensures r.Some? ==> forall k :: k in r.value ==> Decimal(k) in j.fields && read(j.fields[Decimal(k)]) == Some(r.value[k])
  {
    if j.Obj? && EntriesRead(j.fields, read, j.fields.Keys) then
      ReadEntriesByKey(j.fields, read, j.fields.Keys);
      Some(ReadEntries(j.fields, read, j.fields.Keys))
    else None
  }

  /** Each entry read is found under its own decimal key. */
  lemma ReadEntriesByKey<T>(fields: map<string, Json>, read: Json -> Option<T>, ks: set<string>)
    requires EntriesRead(fields, read, ks)
    ensures var m := ReadEntries(fields, read, ks);
      forall k :: k in m ==> Decimal(k) in ks && read(fields[Decimal(k)]) == Some(m[k])
  {
    var m := ReadEntries(fields, read, ks);
    forall k | k in m
      ensures Decimal(k) in ks && read(fields[Decimal(k)]) == Some(m[k])
    {
      var s :| s in ks && ParseDecimal(s).value == k;
      DecimalRoundTrip(k, s);
    }
  }

  /** Every entry of a written dictionary reads back. */
  lemma KeyedFieldsRead<T>(m: map<nat, T>, write: T -> Json, read: Json -> Option<T>)
    requires forall k :: k in m ==> read(write(m[k])) == Some(m[k])
    ensures EntriesRead(KeyedFields(m, write, m.Keys), read, KeyedFields(m, write, m.Keys).Keys)
  {
    var f := KeyedFields(m, write, m.Keys);
    forall s | s in f
      ensures ParseDecimal(s).Some? && read(f[s]).Some?
    {
      var k :| k in m && s == Decimal(k);
      DecimalRoundTrip(k, s);
    }
  }

  /** Each key of a written dictionary reads back with its value. */
  lemma KeyedEntryBack<T>(m: map<nat, T>, write: T -> Json, read: Json -> Option<T>, k: nat)
    requires forall k :: k in m ==> read(write(m[k])) == Some(m[k])
    requires EntriesRead(KeyedFields(m, write, m.Keys), read, KeyedFields(m, write, m.Keys).Keys)
    requires k in m
    ensures var r := ReadEntries(KeyedFields(m, write, m.Keys), read, KeyedFields(m, write, m.Keys).Keys);
      k in r && r[k] == m[k]
  {
    var f := KeyedFields(m, write, m.Keys);
    DecimalRoundTrip(k, Decimal(k));
    assert Decimal(k) in f;
  }

  /** Every key read from a written dictionary was one of its keys. */
  lemma KeyedKeyBack<T>(m: map<nat, T>, write: T -> Json, read: Json -> Option<T>, k: nat)
    requires forall k :: k in m ==> read(write(m[k])) == Some(m[k])
    requires EntriesRead(KeyedFields(m, write, m.Keys), read, KeyedFields(m, write, m.Keys).Keys)
    requires k in ReadEntries(KeyedFields(m, write, m.Keys), read, KeyedFields(m, write, m.Keys).Keys)
    ensures k in m
  {
    var f := KeyedFields(m, write, m.Keys);
    var s :| s in f && k == ParseDecimal(s).value;
    var k' :| k' in m && s == Decimal(k');
    DecimalRoundTrip(k', s);
  }

  /** The entries read from a written dictionary are the dictionary. */
  lemma KeyedEntriesBack<T>(m: map<nat, T>, write: T -> Json, read: Json -> Option<T>)
    requires forall k :: k in m ==> read(write(m[k])) == Some(m[k])
    requires EntriesRead(KeyedFields(m, write, m.Keys), read, KeyedFields(m, write, m.Keys).Keys)
    ensures ReadEntries(KeyedFields(m, write, m.Keys), read, KeyedFields(m, write, m.Keys).Keys) == m
  {
    var r := ReadEntries(KeyedFields(m, write, m.Keys), read, KeyedFields(m, write, m.Keys).Keys);
    KeyedEntriesCover(m, write, read);
    KeyedEntriesWithin(m, write, read);
    SameEntries(m, r);
  }

  /** Two int-keyed dictionaries with the same entries are equal. */
  lemma SameEntries<T>(a: map<nat, T>, b: map<nat, T>)
    requires forall k :: k in a ==> k in b && b[k] == a[k]
    requires forall k :: k in b ==> k in a
    ensures a == b
  {
  }

  /** Every entry of a written dictionary is read back with its value. */
  lemma KeyedEntriesCover<T>(m: map<nat, T>, write: T -> Json, read: Json -> Option<T>)
    requires forall k :: k in m ==> read(write(m[k])) == Some(m[k])
    requires EntriesRead(KeyedFields(m, write, m.Keys), read, KeyedFields(m, write, m.Keys).Keys)
    ensures var r := ReadEntries(KeyedFields(m, write, m.Keys), read, KeyedFields(m, write, m.Keys).Keys);
      forall k :: k in m ==> k in r && r[k] == m[k]
  {
    forall k | k in m
      ensures var r := ReadEntries(KeyedFields(m, write, m.Keys), read, KeyedFields(m, write, m.Keys).Keys);
        k in r && r[k] == m[k]
    {
      KeyedEntryBack(m, write, read, k);
    }
  }

  /** Nothing but the entries of a written dictionary is read back. */
  lemma KeyedEntriesWithin<T>(m: map<nat, T>, write: T -> Json, read: Json -> Option<T>)
    requires forall k :: k in m ==> read(write(m[k])) == Some(m[k])
    requires EntriesRead(KeyedFields(m, write, m.Keys), read, KeyedFields(m, write, m.Keys).Keys)
    ensures var r := ReadEntries(KeyedFields(m, write, m.Keys), read, KeyedFields(m, write, m.Keys).Keys);
      forall k :: k in r ==> k in m
  {
    forall k | k in ReadEntries(KeyedFields(m, write, m.Keys), read, KeyedFields(m, write, m.Keys).Keys)
      ensures k in m
    {
      KeyedKeyBack(m, write, read, k);
    }
  }

  /** Writing an int-keyed dictionary and reading it back gives the same
      dictionary, whenever each value reads back as itself. */
  lemma KeyedRoundTrip<T>(m: map<nat, T>, write: T -> Json, read: Json -> Option<T>)
    requires forall k :: k in m ==> read(write(m[k])) == Some(m[k])
    ensures ReadKeyed(KeyedJson(m, write), read) == Some(m)
  {
    var f := KeyedFields(m, write, m.Keys);
    KeyedFieldsRead(m, write, read);
    assert f.Keys == set k | k in m :: Decimal(k);
    assert EntriesRead(f, read, f.Keys);
    KeyedEntriesBack(m, write, read);
  }

  // ---------------------------------------------------------------- frames and shifts

  function FrameJson(m: Frame): Json {
    KeyedJson(m, RecordJson)
  }

  /** A frame dictionary read back: every field name must be a decimal
      identifier and every value a record. */
  function ReadFrame(j: Json): (r: Option<Frame>)
    ensures r.Some? <==> j.Obj? && forall s :: s in j.fields ==> ParseDecimal(s).Some? && ReadRecord(j.fields[s]).Some?
    ensures r.Some? ==> forall k :: k in r.value ==> Decimal(k) in j.fields && ReadRecord(j.fields[Decimal(k)]) == Some(r.value[k])
  {
    ReadKeyed(j, ReadRecord)
  }

  function ShiftsJson(shifts: Shifts): Json {
    KeyedJson(shifts, OffsetJson)
  }

  /** A shift table read back: every field name must be a decimal frame
      index and every value a pair of numbers. */
  function ReadShifts(j: Json): (r: Option<Shifts>)
    ensures r.Some? <==> j.Obj? && forall s :: s in j.fields ==> ParseDecimal(s).Some? && ReadOffset(j.fields[s]).Some?
    ensures r.Some? ==> forall k :: k in r.value ==> Decimal(k) in j.fields && ReadOffset(j.fields[Decimal(k)]) == Some(r.value[k])
  {
    ReadKeyed(j, ReadOffset)
  }

  lemma FrameRoundTrip(m: Frame)
    ensures ReadFrame(FrameJson(m)) == Some(m)
  {
    forall k | k in m
      ensures ReadRecord(RecordJson(m[k])) == Some(m[k])
    {
      RecordRoundTrip(m[k]);
    }
    KeyedRoundTrip(m, RecordJson, ReadRecord);
  }

  lemma ShiftsRoundTrip(shifts: Shifts)
    ensures ReadShifts(ShiftsJson(shifts)) == Some(shifts)
  {
    KeyedRoundTrip(shifts, OffsetJson, ReadOffset);
  }

  // ---------------------------------------------------------------- the documents

  /** `[save_line_objs, shifts]`. */
  function DocumentJson(lineObjs: seq<Frame>, shifts: Shifts): (j: Json)
    ensures j.Arr? && |j.items| == 2 && j.items[0].Arr? && |j.items[0].items| == |lineObjs|
    ensures forall i :: 0 <= i < |lineObjs| ==> ReadFrame(j.items[0].items[i]) == Some(lineObjs[i])
    ensures ReadShifts(j.items[1]) == Some(shifts)
  {
    var frames := seq(|lineObjs|, i requires 0 <= i < |lineObjs| => FrameJson(lineObjs[i]));
    assert forall i :: 0 <= i < |lineObjs| ==> ReadFrame(frames[i]) == Some(lineObjs[i]) by {
      forall i | 0 <= i < |lineObjs|
        ensures ReadFrame(frames[i]) == Some(lineObjs[i])
      {
        FrameRoundTrip(lineObjs[i]);
      }
    }
    ShiftsRoundTrip(shifts);
    Arr([Arr(frames), ShiftsJson(shifts)])
  }

  /** The companion document lists exactly the identifiers of `lineSet`, in
      some order. */
  predicate ListsSet(setDoc: Json, lineSet: set<nat>) {
    && setDoc.Arr?
    && (forall i :: 0 <= i < |setDoc.items| ==> setDoc.items[i].Num? && setDoc.items[i].n >= 0)
    && (forall i :: 0 <= i < |setDoc.items| ==> setDoc.items[i].n in lineSet)
    && (forall k :: k in lineSet ==> exists i :: 0 <= i < |setDoc.items| && setDoc.items[i] == Num(k))
  }

  /** `set(json.load(...))`, keeping only lists of non-negative numbers. */
  function ReadSet(setDoc: Json): (r: Option<set<nat>>)
    ensures r.Some? <==> setDoc.Arr? && forall i :: 0 <= i < |setDoc.items| ==> setDoc.items[i].Num? && setDoc.items[i].n >= 0
  {
    if setDoc.Arr? && forall i :: 0 <= i < |setDoc.items| ==> setDoc.items[i].Num? && setDoc.items[i].n >= 0 then
      Some(set i | 0 <= i < |setDoc.items| :: setDoc.items[i].n as nat)
    else None
  }

  /** Reading the set back gives exactly the set the document lists. */
  lemma ReadSetListsSet(setDoc: Json, lineSet: set<nat>)
    ensures ReadSet(setDoc) == Some(lineSet) <==> ListsSet(setDoc, lineSet)
  {
    if ListsSet(setDoc, lineSet) {
      var r := ReadSet(setDoc).value;
      forall k | k in lineSet
        ensures k in r
      {
        var i :| 0 <= i < |setDoc.items| && setDoc.items[i] == Num(k);
        assert setDoc.items[i].n as nat in r;
      }
      forall k | k in r
        ensures k in lineSet
      {
        var i :| 0 <= i < |setDoc.items| && k == setDoc.items[i].n as nat;
      }
      assert r == lineSet;
    }
    if ReadSet(setDoc) == Some(lineSet) {
      forall i | 0 <= i < |setDoc.items|
        ensures setDoc.items[i].n in lineSet
      {
        assert setDoc.items[i].n as nat in ReadSet(setDoc).value;
      }
      forall k | k in lineSet
        ensures exists i :: 0 <= i < |setDoc.items| && setDoc.items[i] == Num(k)
      {
        var i :| 0 <= i < |setDoc.items| && k == setDoc.items[i].n as nat;
        assert setDoc.items[i] == Num(k);
      }
      assert ListsSet(setDoc, lineSet);
    }
  }

  /** `read_in_json`: the frames in list order, the shift table and the set,
      or nothing when either document does not have the saved shape. */
  function ReadDocument(doc: Json, setDoc: Json): (r: Option<SessionData>)
    ensures r.Some? ==> ReadSet(setDoc) == Some(r.value.lineSet)
    ensures r.Some? ==> doc.Arr? && |doc.items| == 2 && doc.items[0].Arr?
    ensures r.Some? ==> |r.value.lineObjs| == |doc.items[0].items|
    ensures r.Some? ==> forall i :: 0 <= i < |r.value.lineObjs| ==> ReadFrame(doc.items[0].items[i]) == Some(r.value.lineObjs[i])
    ensures r.Some? ==> ReadShifts(doc.items[1]) == Some(r.value.shifts)
  {
    if !doc.Arr? || |doc.items| != 2 || !doc.items[0].Arr? then None
    else
      var frames := doc.items[0].items;
      var shifts := ReadShifts(doc.items[1]);
      var lineSet := ReadSet(setDoc);
      if shifts.None? || lineSet.None? || exists i :: 0 <= i < |frames| && ReadFrame(frames[i]).None? then None
      else Some(SessionData(seq(|frames|, i requires 0 <= i < |frames| => ReadFrame(frames[i]).value), shifts.value, lineSet.value))
  }

  /** Saving a session and reading both documents back gives the same frames,
      the same shift table and the same identifier set. */
  lemma SaveReadRoundTrip(lineObjs: seq<Frame>, shifts: Shifts, lineSet: set<nat>, setDoc: Json)
    requires ListsSet(setDoc, lineSet)
    ensures ReadDocument(DocumentJson(lineObjs, shifts), setDoc) == Some(SessionData(lineObjs, shifts, lineSet))
  {
    var doc := DocumentJson(lineObjs, shifts);
    forall i | 0 <= i < |lineObjs|
      ensures ReadFrame(doc.items[0].items[i]) == Some(lineObjs[i])
    {
      FrameRoundTrip(lineObjs[i]);
    }
    ShiftsRoundTrip(shifts);
    ReadSetListsSet(setDoc, lineSet);
    assert ReadDocument(doc, setDoc).value.lineObjs == lineObjs;
  }

  // ---------------------------------------------------------------- save and read, step by step

  /** An entry of the larger partial written dictionary is in the smaller
      one updated with the new key, with the same value. */
  lemma KeyedFieldsAddEntry<T>(m: map<nat, T>, write: T -> Json, ks: set<nat>, k: nat, s: string)
    requires k in m && s in KeyedFields(m, write, ks + {k})
    ensures var b := KeyedFields(m, write, ks)[Decimal(k) := write(m[k])];
      s in b && KeyedFields(m, write, ks + {k})[s] == b[s]
  {
    var k' :| k' in ks + {k} && k' in m && s == Decimal(k');
    if k' != k {
      assert DigitsValue(Decimal(k')) != DigitsValue(Decimal(k));
      assert s in KeyedFields(m, write, ks);
    }
  }

  /** Adding one more key to a partial written dictionary. */
  lemma KeyedFieldsAdd<T>(m: map<nat, T>, write: T -> Json, ks: set<nat>, k: nat)
    requires k in m
    ensures KeyedFields(m, write, ks + {k}) == KeyedFields(m, write, ks)[Decimal(k) := write(m[k])]
  {
    var a := KeyedFields(m, write, ks + {k});
    var b := KeyedFields(m, write, ks)[Decimal(k) := write(m[k])];
    forall s | s in a
      ensures s in b && a[s] == b[s]
    {
      KeyedFieldsAddEntry(m, write, ks, k, s);
    }
    forall s | s in b
      ensures s in a
    {
      KeyedFieldsGrow(m, write, ks, k, s);
    }
  }

  /** An entry of a partial written dictionary stays in a larger one. */
  lemma KeyedFieldsGrow<T>(m: map<nat, T>, write: T -> Json, ks: set<nat>, k: nat, s: string)
    requires k in m && (s in KeyedFields(m, write, ks) || s == Decimal(k))
    ensures s in KeyedFields(m, write, ks + {k})
  {
    if s != Decimal(k) {
      var k' :| k' in ks && k' in m && s == Decimal(k');
      assert k' in ks + {k};
    }
  }

  /** Adding one more key to a partial read dictionary. */
  lemma ReadEntriesAdd<T>(fields: map<string, Json>, read: Json -> Option<T>, ks: set<string>, s: string)
    requires EntriesRead(fields, read, ks + {s})
    ensures EntriesRead(fields, read, ks)
    ensures ReadEntries(fields, read, ks + {s}) == ReadEntries(fields, read, ks)[ParseDecimal(s).value := read(fields[s]).value]
  {
    var a := ReadEntries(fields, read, ks + {s});
    var c := ReadEntries(fields, read, ks);
    var b := c[ParseDecimal(s).value := read(fields[s]).value];
    forall k | k in a
      ensures k in b && a[k] == b[k]
    {
      var s' :| s' in ks + {s} && k == ParseDecimal(s').value;
      if s' != s {
        CanonicalIsDecimal(s);
        CanonicalIsDecimal(s');
        assert s' in ks;
      }
    }
    forall k | k in b
      ensures k in a
    {
      if k != ParseDecimal(s).value {
        var s' :| s' in ks && k == ParseDecimal(s').value;
        assert s' in ks + {s};
      }
    }
  }

  /** One frame's dictionary written entry by entry, as the save loop does. */
  method SaveFrame(m: Frame) returns (j: Json)
    ensures j == FrameJson(m)
  {
    j := SaveKeyed(m, RecordJson);
  }

  /** An int-keyed dictionary written entry by entry, with `write` for the
      values. */
  method SaveKeyed<T>(m: map<nat, T>, write: T -> Json) returns (j: Json)
    ensures j == KeyedJson(m, write)
  {
    var fields: map<string, Json> := map[];
    var todo := m.Keys;
    while todo != {}
      invariant todo <= m.Keys
      invariant fields == KeyedFields(m, write, m.Keys - todo)
      decreases todo
    {
      var k :| k in todo;
      KeyedFieldsAdd(m, write, m.Keys - todo, k);
      assert (m.Keys - todo) + {k} == m.Keys - (todo - {k});
      fields := fields[Decimal(k) := write(m[k])];
      todo := todo - {k};
    }
    assert m.Keys - todo == m.Keys;
    j := Obj(fields);
  }

  /** `save_as_json(filepath, line_objs, shifts, line_set)`: the main
      document, the companion path and the companion document. */
  method SaveAsJson(filepath: string, lineObjs: seq<Frame>, shifts: Shifts, lineSet: set<nat>)
    returns (doc: Json, setPath: string, setDoc: Json)
    ensures doc == DocumentJson(lineObjs, shifts)
    ensures setPath == SetPath(filepath)
    ensures ListsSet(setDoc, lineSet)
  {
    var saved: seq<Json> := [];
    var i := 0;
    while i < |lineObjs|
      invariant 0 <= i <= |lineObjs| && |saved| == i
      invariant forall t :: 0 <= t < i ==> saved[t] == FrameJson(lineObjs[t])
    {
      var j := SaveFrame(lineObjs[i]);
      saved := saved + [j];
      i := i + 1;
    }
    assert saved == seq(|lineObjs|, i requires 0 <= i < |lineObjs| => FrameJson(lineObjs[i]));
    doc := Arr([Arr(saved), ShiftsJson(shifts)]);
    setPath := SetPath(filepath);
    setDoc := SaveSet(lineSet);
  }

  /** `list(line_set)` for the companion document, in the set's iteration
      order. */
  method SaveSet(lineSet: set<nat>) returns (setDoc: Json)
    ensures ListsSet(setDoc, lineSet)
  {
    var items: seq<Json> := [];
    var rest := lineSet;
    while rest != {}
      invariant rest <= lineSet
      invariant forall t :: 0 <= t < |items| ==> items[t].Num? && items[t].n >= 0 && items[t].n in lineSet
      invariant forall k :: k in lineSet && k !in rest ==> exists t :: 0 <= t < |items| && items[t] == Num(k)
      decreases rest
    {
      var k :| k in rest;
      assert (items + [Num(k)])[|items|] == Num(k);
      assert forall t :: 0 <= t < |items| ==> (items + [Num(k)])[t] == items[t];
      items := items + [Num(k)];
      rest := rest - {k};
    }
    setDoc := Arr(items);
  }

  /** `{int(i): value for i in obj}` entry by entry, as the read loops do. */
  method ReadDict<T>(j: Json, read: Json -> Option<T>) returns (r: Option<map<nat, T>>)
    ensures r == ReadKeyed(j, read)
  {
    if !j.Obj? {
      return None;
    }
    var m: map<nat, T> := map[];
    var todo := j.fields.Keys;
    while todo != {}
      invariant todo <= j.fields.Keys
      invariant EntriesRead(j.fields, read, j.fields.Keys - todo)
      invariant m == ReadEntries(j.fields, read, j.fields.Keys - todo)
      decreases todo
    {
      var s :| s in todo;
      var key := ParseDecimal(s);
      var value := read(j.fields[s]);
      if key.None? || value.None? {
        return None;
      }
      assert (j.fields.Keys - todo) + {s} == j.fields.Keys - (todo - {s});
      ReadEntriesAdd(j.fields, read, j.fields.Keys - todo, s);
      m := m[key.value := value.value];
      todo := todo - {s};
    }
    assert j.fields.Keys - todo == j.fields.Keys;
    r := Some(m);
  }

  /** The frame loop of `read_in_json`: every frame dictionary in list order. */
  method ReadFrames(frames: seq<Json>) returns (r: Option<seq<Frame>>)
    ensures r.None? <==> exists i :: 0 <= i < |frames| && ReadFrame(frames[i]).None?
    ensures r.Some? ==> r.value == seq(|frames|, i requires 0 <= i < |frames| => ReadFrame(frames[i]).value)
  {
    var lineObjs: seq<Frame> := [];
    var i := 0;
    while i < |frames|
      invariant 0 <= i <= |frames| && |lineObjs| == i
      invariant forall t :: 0 <= t < i ==> ReadFrame(frames[t]) == Some(lineObjs[t])
    {
      var frame := ReadDict(frames[i], ReadRecord);
      assert frame == ReadFrame(frames[i]);
      if frame.None? {
        return None;
      }
      lineObjs := lineObjs + [frame.value];
      i := i + 1;
    }
    assert lineObjs == seq(|frames|, i requires 0 <= i < |frames| => ReadFrame(frames[i]).value);
    return Some(lineObjs);
  }

  /** `read_in_json(filepath)`, given the contents of the main document and
      of its companion: the companion path, and the frames, shifts and set. */
  method ReadInJson(filepath: string, doc: Json, setDoc: Json) returns (setPath: string, r: Option<SessionData>)
    ensures setPath == SetPath(filepath)
    ensures r == ReadDocument(doc, setDoc)
  {
    setPath := SetPath(filepath);
    if !doc.Arr? || |doc.items| != 2 || !doc.items[0].Arr? {
      return setPath, None;
    }
    var lineSet := ReadSet(setDoc);
    if lineSet.None? {
      return setPath, None;
    }
    var shifts := ReadDict(doc.items[1], ReadOffset);
    if shifts.None? {
      return setPath, None;
    }
    var lineObjs := ReadFrames(doc.items[0].items);
    if lineObjs.None? {
      return setPath, None;
    }
    r := Some(SessionData(lineObjs.value, shifts.value, lineSet.value));
  }
}
