/**
 * What the extractor of module/extractor.go guarantees about the map it
 * fills: how keys are formed, what one visit changes, that recorded fields
 * are never lost, and which fields are recorded at all.
 */
module ExtractorProperties {
  import opened Wrappers
  import opened Features
  import opened Extractor

  // -----------------------------------------------------------------------
  // Keys
  // -----------------------------------------------------------------------

  /**
   * A message called "ListEntity" is filed under "<parent>_ListEntity", so
   * list entities of different parents get different entries; every other
   * message is filed under its own name.
   */
  lemma ListEntityKeys(p: string, q: string, name: string)
    ensures MessageKey(ListEntityName, p) == p + "_ListEntity"
    ensures MessageKey(ListEntityName, p) == MessageKey(ListEntityName, q) <==> p == q
    ensures name != ListEntityName ==> MessageKey(name, p) == name
  {
    var suffix := "_ListEntity";
    if p + suffix == q + suffix {
      assert |p| == |q|;
      assert p == (p + suffix)[..|p|];
      assert q == (q + suffix)[..|q|];
    }
  }

  // -----------------------------------------------------------------------
  // One message visit
  // -----------------------------------------------------------------------

  /**
   * VisitMessage fails exactly when an annotation does not decode, and then
   * leaves the map alone. Otherwise it makes sure the message's key has an
   * entry, touches no other key, keeps the entry's recorded fields, stores
   * an annotation only when it is present (an absent one never erases what
   * an earlier message with the same key stored), and descends exactly when
   * the entry then carries a model or parser annotation.
   */
  lemma VisitMessageEffect(fs: FeatureMap, m: Message, parentName: string)
    ensures var (v, fs1) := VisitMessageOf(fs, m, parentName);
      v.Err? <==> (m.modelFeature.Malformed? || m.parser.Malformed?)
    ensures var (v, fs1) := VisitMessageOf(fs, m, parentName);
      v.Err? ==> fs1 == fs
    ensures var (v, fs1) := VisitMessageOf(fs, m, parentName);
      var key := MessageKey(m.name, parentName);
      v.Ok? ==>
        && fs1.Keys == fs.Keys + {key}
        && (forall k :: k in fs && k != key ==> fs1[k] == fs[k])
        && fs1[key].fieldsList == (if key in fs then fs[key].fieldsList else [])
        && (m.modelFeature.Absent? ==> fs1[key].features == (if key in fs then fs[key].features else None))
        && (m.modelFeature.Present? ==> fs1[key].features == Some(m.modelFeature.value))
        && (m.parser.Absent? ==> fs1[key].parser == (if key in fs then fs[key].parser else None))
        && (m.parser.Present? ==> fs1[key].parser == Some(m.parser.value))
        && (v.value <==> fs1[key].features.Some? || fs1[key].parser.Some?)
  {
  }

  /**
   * The verdict looks at the entry, not at the message: a message without
   * annotations is still descended into when an earlier message with the
   * same key left an annotation in the entry.
   */
  lemma EarlierAnnotationsStillDescend(fs: FeatureMap, m: Message, parentName: string)
    requires m.modelFeature.Absent? && m.parser.Absent?
    requires var key := MessageKey(m.name, parentName);
      key in fs && (fs[key].features.Some? || fs[key].parser.Some?)
    ensures VisitMessageOf(fs, m, parentName).0 == Ok(true)
  {
  }

  /** A message whose entry ends up without annotations is not descended into. */
  lemma UnannotatedMessageSkipsChildren(fs: FeatureMap, m: Message, parentName: string)
    requires !m.modelFeature.Malformed? && !m.parser.Malformed?
    requires m.modelFeature.Absent? && m.parser.Absent?
    requires var key := MessageKey(m.name, parentName);
      key !in fs || (fs[key].features.None? && fs[key].parser.None?)
    ensures WalkMessageOf(fs, m, parentName) ==
      Ok(fs[MessageKey(m.name, parentName) := if MessageKey(m.name, parentName) in fs
                                              then fs[MessageKey(m.name, parentName)]
                                              else EmptyCollection])
  {
    var key := MessageKey(m.name, parentName);
    var c := if key in fs then fs[key] else EmptyCollection;
    assert Annotate(c, m.modelFeature, m.parser) == c;
  }

  // -----------------------------------------------------------------------
  // One field visit
  // -----------------------------------------------------------------------

  /**
   * A field annotation that does not decode fails the visit before anything
   * is appended.
   */
  lemma MalformedFieldFailsFirst(fs: FeatureMap, f: Field, goName: string)
    requires f.option.Malformed?
    ensures VisitFieldOf(fs, f, goName) == (Err(ExtensionError), fs)
  {
  }

  /** A field without an annotation changes nothing. */
  lemma UnannotatedFieldIgnored(fs: FeatureMap, f: Field, goName: string)
    requires f.option.Absent?
    ensures VisitFieldOf(fs, f, goName) == (Ok(true), fs)
  {
  }

  /**
   * An annotated field appends its records to the entry of its message's Go
   * name and changes nothing else; when that entry is missing the visit
   * fails (Go dereferences a nil collection).
   */
  lemma AnnotatedFieldEffect(fs: FeatureMap, f: Field, goName: string)
    requires f.option.Present?
    ensures goName !in fs ==> VisitFieldOf(fs, f, goName) == (Err(NilEntry(goName)), fs)
    ensures goName in fs ==>
      var (v, fs1) := VisitFieldOf(fs, f, goName);
      && v == Ok(true)
      && fs1.Keys == fs.Keys
      && (forall k :: k in fs && k != goName ==> fs1[k] == fs[k])
      && fs1[goName].features == fs[goName].features
      && fs1[goName].parser == fs[goName].parser
      && fs1[goName].fieldsList == fs[goName].fieldsList + RecordedAsWritten(f, f.option.value)
  {
  }

  /** How many records carry a flag. */
  function CountMerged(es: seq<FieldData>): nat
  {
    if es == [] then 0 else (if es[0].merged then 1 else 0) + CountMerged(es[1..])
  }

  function CountPicked(es: seq<FieldData>): nat
  {
    if es == [] then 0 else (if es[0].picked then 1 else 0) + CountPicked(es[1..])
  }

  /**
   * Every annotated field is recorded, whatever its flags: once for merged,
   * once for picked, once when neither is set. Each record copies the
   * field's name, descriptor type, repetition and source; a record made for
   * a merged or picked flag carries the embedded message's name as its Go
   * type (empty when the field embeds none), the record of a field with
   * neither flag carries none; as written, no record is marked Merged or
   * Picked.
   */
  lemma RecordedShape(f: Field, o: FieldOption)
    ensures var es := RecordedAsWritten(f, o);
      |es| == (if o.merged then 1 else 0) + (if o.picked then 1 else 0) + (if !o.merged && !o.picked then 1 else 0)
    ensures 1 <= |RecordedAsWritten(f, o)| <= 2
    ensures var es := RecordedAsWritten(f, o);
      forall i :: 0 <= i < |es| ==>
        && es[i].name == f.name && es[i].protoType == f.protoType
        && es[i].repeated == f.repeated && es[i].source == o.source
        && es[i].goType == (if (o.merged || o.picked) && f.embed.Some? then f.embed.value else "")
        && !es[i].merged && !es[i].picked
  {
  }

  /**
   * The intended records mark exactly one record Merged when the field is
   * merged (none otherwise), exactly one Picked when it is picked, and no
   * record both.
   */
  lemma IntendedMarks(f: Field, o: FieldOption)
    ensures CountMerged(Recorded(f, o)) == (if o.merged then 1 else 0)
    ensures CountPicked(Recorded(f, o)) == (if o.picked then 1 else 0)
    ensures forall i :: 0 <= i < |Recorded(f, o)| ==> !(Recorded(f, o)[i].merged && Recorded(f, o)[i].picked)
  {
    var a := if o.merged then [Entry(f, o, true, true, false)] else [];
    var b := if o.picked then [Entry(f, o, true, false, true)] else [];
    var c := if !o.picked && !o.merged then [Entry(f, o, false, false, false)] else [];
    CountAppend(a, b);
    CountAppend(a + b, c);
  }

  lemma {:induction false} CountAppend(a: seq<FieldData>, b: seq<FieldData>)
    ensures CountMerged(a + b) == CountMerged(a) + CountMerged(b)
    ensures CountPicked(a + b) == CountPicked(a) + CountPicked(b)
  {
    if a == [] {
      assert a + b == b;
    } else {
      assert (a + b)[1..] == a[1..] + b;
      CountAppend(a[1..], b);
    }
  }

  /** The records with their Merged and Picked marks cleared. */
  function Unmarked(es: seq<FieldData>): (r: seq<FieldData>)
    ensures |r| == |es|
    ensures forall i :: 0 <= i < |r| ==> !r[i].merged && !r[i].picked
    ensures forall i :: 0 <= i < |r| ==> r[i] == es[i].(merged := false, picked := false)
  {
    seq(|es|, i requires 0 <= i < |es| => es[i].(merged := false, picked := false))
  }

  /**
   * As written, VisitField records the same fields as intended but marks
   * none of them: every record has Merged and Picked false.
   */
  lemma AsWrittenDropsMarks(f: Field, o: FieldOption)
    ensures RecordedAsWritten(f, o) == Unmarked(Recorded(f, o))
    ensures CountMerged(RecordedAsWritten(f, o)) == 0 && CountPicked(RecordedAsWritten(f, o)) == 0
  {
    var es := RecordedAsWritten(f, o);
    assert |es| == |Recorded(f, o)|;
    NoMarksNoCount(es);
  }

  lemma {:induction false} NoMarksNoCount(es: seq<FieldData>)
    requires forall i :: 0 <= i < |es| ==> !es[i].merged && !es[i].picked
    ensures CountMerged(es) == 0 && CountPicked(es) == 0
  {
    if es != [] {
      NoMarksNoCount(es[1..]);
    }
  }

  // -----------------------------------------------------------------------
  // The walk never loses what it recorded
  // -----------------------------------------------------------------------

  /** Every entry of fs is still in fs1, with its records as a prefix. */
  predicate Extends(fs: FeatureMap, fs1: FeatureMap)
  {
    forall k :: k in fs ==> k in fs1 && fs[k].fieldsList <= fs1[k].fieldsList
  }

  lemma ExtendsTransitive(a: FeatureMap, b: FeatureMap, c: FeatureMap)
    requires Extends(a, b) && Extends(b, c)
    ensures Extends(a, c)
  {
    forall k | k in a
      ensures k in c && a[k].fieldsList <= c[k].fieldsList
    {
      var x, y, z := a[k].fieldsList, b[k].fieldsList, c[k].fieldsList;
      assert x <= y && y <= z;
      assert z[..|x|] == y[..|x|];
    }
  }

  lemma VisitMessageExtends(fs: FeatureMap, m: Message, parentName: string)
    ensures Extends(fs, VisitMessageOf(fs, m, parentName).1)
  {
  }

  lemma VisitFieldExtends(fs: FeatureMap, f: Field, goName: string)
    ensures Extends(fs, VisitFieldOf(fs, f, goName).1)
  {
  }

  lemma {:induction false} WalkFieldsExtends(fs: FeatureMap, fields: seq<Field>, goName: string)
    ensures WalkFieldsOf(fs, fields, goName).Ok? ==> Extends(fs, WalkFieldsOf(fs, fields, goName).value)
  {
    if fields != [] {
      var init := fields[..|fields| - 1];
      WalkFieldsExtends(fs, init, goName);
      var r := WalkFieldsOf(fs, init, goName);
      if r.Ok? {
        VisitFieldExtends(r.value, fields[|fields| - 1], goName);
        if WalkFieldsOf(fs, fields, goName).Ok? {
          ExtendsTransitive(fs, r.value, WalkFieldsOf(fs, fields, goName).value);
        }
      }
    }
  }

  /**
   * A walk over a message, its nested messages and its fields only adds
   * entries and appends records: nothing recorded earlier is lost.
   */
  lemma {:induction false} WalkMessageExtends(fs: FeatureMap, m: Message, parentName: string)
    ensures WalkMessageOf(fs, m, parentName).Ok? ==> Extends(fs, WalkMessageOf(fs, m, parentName).value)
    decreases m, |m.messages| + 1
  {
    var (v, fs1) := VisitMessageOf(fs, m, parentName);
    VisitMessageExtends(fs, m, parentName);
    if v.Ok? && v.value {
      WalkNestedExtends(fs1, m, 0);
      var r := WalkNestedOf(fs1, m, 0);
      if r.Ok? {
        ExtendsTransitive(fs, fs1, r.value);
        WalkFieldsExtends(r.value, m.fields, m.goName);
        if WalkMessageOf(fs, m, parentName).Ok? {
          ExtendsTransitive(fs, r.value, WalkMessageOf(fs, m, parentName).value);
        }
      }
    }
  }

  lemma {:induction false} WalkNestedExtends(fs: FeatureMap, m: Message, i: nat)
    ensures WalkNestedOf(fs, m, i).Ok? ==> Extends(fs, WalkNestedOf(fs, m, i).value)
    decreases m, |m.messages| - i
  {
    if i < |m.messages| {
      WalkMessageExtends(fs, m.messages[i], m.name);
      var r := WalkMessageOf(fs, m.messages[i], m.name);
      if r.Ok? {
        WalkNestedExtends(r.value, m, i + 1);
        if WalkNestedOf(fs, m, i).Ok? {
          ExtendsTransitive(fs, r.value, WalkNestedOf(fs, m, i).value);
        }
      }
    }
  }

  // -----------------------------------------------------------------------
  // Which fields are recorded
  // -----------------------------------------------------------------------

  /** Fields without annotations never enter the map. */
  lemma {:induction false} UnannotatedFieldsIgnored(fs: FeatureMap, fields: seq<Field>, goName: string)
    requires forall i :: 0 <= i < |fields| ==> fields[i].option.Absent?
    ensures WalkFieldsOf(fs, fields, goName) == Ok(fs)
  {
    if fields != [] {
      UnannotatedFieldsIgnored(fs, fields[..|fields| - 1], goName);
    }
  }

  /** The records the walk appends for a message's annotated fields, in declaration order. */
  function RecordsAsWrittenOf(fields: seq<Field>): seq<FieldData>
  {
    if fields == [] then []
    else
      var last := fields[|fields| - 1];
      RecordsAsWrittenOf(fields[..|fields| - 1])
      + (if last.option.Present? then RecordedAsWritten(last, last.option.value) else [])
  }

  /** The same records as intended, with their Merged and Picked marks. */
  function RecordsOf(fields: seq<Field>): seq<FieldData>
  {
    if fields == [] then []
    else
      var last := fields[|fields| - 1];
      RecordsOf(fields[..|fields| - 1]) + (if last.option.Present? then Recorded(last, last.option.value) else [])
  }

  /**
   * When the entry of goName exists and every annotation decodes, walking
   * the fields appends exactly the records of the annotated fields, in
   * declaration order, and changes nothing else.
   */
  lemma {:induction false} WalkFieldsRecords(fs: FeatureMap, fields: seq<Field>, goName: string)
    requires goName in fs
    requires forall i :: 0 <= i < |fields| ==> !fields[i].option.Malformed?
    ensures WalkFieldsOf(fs, fields, goName).Ok?
    ensures var fs1 := WalkFieldsOf(fs, fields, goName).value;
      && fs1.Keys == fs.Keys
      && (forall k :: k in fs && k != goName ==> fs1[k] == fs[k])
      && fs1[goName] == fs[goName].(fieldsList := fs[goName].fieldsList + RecordsAsWrittenOf(fields))
  {
    if fields == [] {
      assert fs[goName].fieldsList + [] == fs[goName].fieldsList;
    } else {
      var init := fields[..|fields| - 1];
      var last := fields[|fields| - 1];
      WalkFieldsRecords(fs, init, goName);
      var fs1 := WalkFieldsOf(fs, init, goName).value;
      if last.option.Present? {
        assert fs[goName].fieldsList + RecordsAsWrittenOf(init) + RecordedAsWritten(last, last.option.value)
            == fs[goName].fieldsList + RecordsAsWrittenOf(fields);
      } else {
        assert RecordsAsWrittenOf(fields) == RecordsAsWrittenOf(init) + [];
        assert RecordsAsWrittenOf(init) + [] == RecordsAsWrittenOf(init);
      }
    }
  }

  // -----------------------------------------------------------------------
  // As written, nothing is ever marked
  // -----------------------------------------------------------------------

  /** No record of es is marked Merged or Picked. */
  predicate NoneMarked(es: seq<FieldData>)
  {
    forall i :: 0 <= i < |es| ==> !es[i].merged && !es[i].picked
  }

  /** No record of any entry of fs is marked Merged or Picked. */
  predicate MapNoneMarked(fs: FeatureMap)
  {
    forall k :: k in fs ==> NoneMarked(fs[k].fieldsList)
  }

  lemma VisitMessageKeepsUnmarked(fs: FeatureMap, m: Message, parentName: string)
    requires MapNoneMarked(fs)
    ensures MapNoneMarked(VisitMessageOf(fs, m, parentName).1)
  {
  }

  lemma VisitFieldKeepsUnmarked(fs: FeatureMap, f: Field, goName: string)
    requires MapNoneMarked(fs)
    ensures MapNoneMarked(VisitFieldOf(fs, f, goName).1)
  {
    if f.option.Present? && goName in fs {
      var fs1 := VisitFieldOf(fs, f, goName).1;
      AsWrittenDropsMarks(f, f.option.value);
      assert NoneMarked(fs1[goName].fieldsList);
    }
  }

  lemma {:induction false} WalkFieldsKeepsUnmarked(fs: FeatureMap, fields: seq<Field>, goName: string)
    requires MapNoneMarked(fs)
    ensures WalkFieldsOf(fs, fields, goName).Ok? ==> MapNoneMarked(WalkFieldsOf(fs, fields, goName).value)
  {
    if fields != [] {
      WalkFieldsKeepsUnmarked(fs, fields[..|fields| - 1], goName);
      var r := WalkFieldsOf(fs, fields[..|fields| - 1], goName);
      if r.Ok? {
        VisitFieldKeepsUnmarked(r.value, fields[|fields| - 1], goName);
      }
    }
  }

  lemma {:induction false} WalkMessageKeepsUnmarked(fs: FeatureMap, m: Message, parentName: string)
    requires MapNoneMarked(fs)
    ensures WalkMessageOf(fs, m, parentName).Ok? ==> MapNoneMarked(WalkMessageOf(fs, m, parentName).value)
    decreases m, |m.messages| + 1
  {
    var (v, fs1) := VisitMessageOf(fs, m, parentName);
    VisitMessageKeepsUnmarked(fs, m, parentName);
    if v.Ok? && v.value {
      WalkNestedKeepsUnmarked(fs1, m, 0);
      var r := WalkNestedOf(fs1, m, 0);
      if r.Ok? {
        WalkFieldsKeepsUnmarked(r.value, m.fields, m.goName);
      }
    }
  }

  lemma {:induction false} WalkNestedKeepsUnmarked(fs: FeatureMap, m: Message, i: nat)
    requires MapNoneMarked(fs)
    ensures WalkNestedOf(fs, m, i).Ok? ==> MapNoneMarked(WalkNestedOf(fs, m, i).value)
    decreases m, |m.messages| - i
  {
    if i < |m.messages| {
      WalkMessageKeepsUnmarked(fs, m.messages[i], m.name);
      var r := WalkMessageOf(fs, m.messages[i], m.name);
      if r.Ok? {
        WalkNestedKeepsUnmarked(r.value, m, i + 1);
      }
    }
  }

  lemma {:induction false} WalkTopKeepsUnmarked(fs: FeatureMap, f: File, i: nat)
    requires MapNoneMarked(fs)
    ensures WalkTopOf(fs, f, i).Ok? ==> MapNoneMarked(WalkTopOf(fs, f, i).value)
    decreases |f.messages| - i
  {
    if i < |f.messages| {
      WalkMessageKeepsUnmarked(fs, f.messages[i], f.name);
      var r := WalkMessageOf(fs, f.messages[i], f.name);
      if r.Ok? {
        WalkTopKeepsUnmarked(r.value, f, i + 1);
      }
    }
  }

  /**
   * As the extractor is written, no record in the map of a successful
   * extraction is marked Merged or Picked, whatever the annotations say.
   */
  lemma ExtractedNoneMarked(f: File)
    requires ExtractFileOf(f).Ok?
    ensures MapNoneMarked(ExtractFileOf(f).value)
  {
    WalkTopKeepsUnmarked(map[], f, 0);
  }

  // -----------------------------------------------------------------------
  // A worked file
  // -----------------------------------------------------------------------

  const Annotated := Field("name", "TYPE_STRING", false, None, Present(FieldOption(true, false, "body")))

  /**
   * Fields are filed under the Go name of their message, messages under
   * their proto name: a nested message "Inner" of "Outer" (Go name
   * "Outer_Inner") with a model annotation gets the entry "Inner", and an
   * annotated field of it then finds no entry "Outer_Inner".
   */
  lemma NestedMessageFieldFindsNoEntry()
    ensures var inner := Message("Inner", "Outer_Inner", Present(ModelFeature("k")), Absent, [], [Annotated]);
      var outer := Message("Outer", "Outer", Present(ModelFeature("k")), Absent, [inner], []);
      ExtractFileOf(File("a.proto", Absent, [outer], [])) == Err(NilEntry("Outer_Inner"))
  {
    var inner := Message("Inner", "Outer_Inner", Present(ModelFeature("k")), Absent, [], [Annotated]);
    var outer := Message("Outer", "Outer", Present(ModelFeature("k")), Absent, [inner], []);
    var f := File("a.proto", Absent, [outer], []);
    assert "Outer" != ListEntityName by { assert "Outer"[0] != ListEntityName[0]; }
    assert "Inner" != ListEntityName by { assert "Inner"[0] != ListEntityName[0]; }
    assert "Outer_Inner" != "Inner" by { assert |"Outer_Inner"| != |"Inner"|; }
    assert "Outer_Inner" != "Outer" by { assert |"Outer_Inner"| != |"Outer"|; }
    var fs1 := map["Outer" := Collection(Some(ModelFeature("k")), None, [])];
    assert VisitMessageOf(map[], outer, "a.proto") == (Ok(true), fs1);
    var fs2 := fs1["Inner" := Collection(Some(ModelFeature("k")), None, [])];
    assert VisitMessageOf(fs1, inner, "Outer") == (Ok(true), fs2);
    assert WalkNestedOf(fs2, inner, 0) == Ok(fs2);
    assert "Outer_Inner" !in fs2;
    assert [Annotated][..0] == [];
    assert WalkFieldsOf(fs2, [Annotated], "Outer_Inner") == Err(NilEntry("Outer_Inner"));
    assert WalkMessageOf(fs1, inner, "Outer") == Err(NilEntry("Outer_Inner"));
    assert WalkNestedOf(fs1, outer, 0) == Err(NilEntry("Outer_Inner"));
    assert WalkTopOf(map[], f, 0) == Err(NilEntry("Outer_Inner"));
  }
}
