/**
 * The annotation extractor of module/extractor.go. A dataExtractor walks one
 * proto file as protoc-gen-star does (a file, then its messages, each message
 * before its nested messages and then its fields, then the services and
 * their methods) and fills a map from model name to ModelFeatureCollection.
 *
 * Each visitor either fails, descends into the children of the node, or
 * returns a nil visitor, after which the children are skipped.
 */
module Extractor {
  import opened Wrappers
  import opened Features

  datatype ExtractError =
    | ExtensionError         // an annotation payload that does not decode
    | NilEntry(key: string)  // an annotated field of a message that has no entry

  /** What a visitor returns: Ok(true) to descend, Ok(false) for a nil visitor. */
  type Visit = Result<bool, ExtractError>

  const ListEntityName := "ListEntity"

  // -----------------------------------------------------------------------
  // One visit at a time
  // -----------------------------------------------------------------------

  /** The map key of a message: "ListEntity" is qualified by its parent's name. */
  function MessageKey(name: string, parentName: string): string
  {
    if name == ListEntityName then parentName + "_" + name else name
  }

  /** The collection after the message's annotations are stored into it. */
  function Annotate(c: Collection, mf: Ext<ModelFeature>, po: Ext<ParserOption>): Collection
  {
    Collection(
      if mf.Present? then Some(mf.value) else c.features,
      if po.Present? then Some(po.value) else c.parser,
      c.fieldsList)
  }

  /** VisitFile: only checks that the service annotation decodes. */
  function VisitFileOf(f: File): Visit
  {
    if f.serviceOption.Malformed? then Err(ExtensionError) else Ok(true)
  }

  /** VisitMethod: only checks that the method annotation decodes. */
  function VisitMethodOf(md: Method): Visit
  {
    if md.option.Malformed? then Err(ExtensionError) else Ok(true)
  }

  /** VisitMessage: the verdict and the map after the visit. */
  function VisitMessageOf(fs: FeatureMap, m: Message, parentName: string): (Visit, FeatureMap)
  {
    if m.modelFeature.Malformed? || m.parser.Malformed? then (Err(ExtensionError), fs)
    else
      var key := MessageKey(m.name, parentName);
      var c := Annotate(if key in fs then fs[key] else EmptyCollection, m.modelFeature, m.parser);
      (Ok(c.features.Some? || c.parser.Some?), fs[key := c])
  }

  /**
   * The record of a field: name, descriptor type, repetition and source are
   * copied; the Go type is the embedded message's name when withType holds
   * and the field embeds one.
   */
  function Entry(f: Field, o: FieldOption, withType: bool, merged: bool, picked: bool): FieldData
  {
    FieldData(f.name, f.protoType, if withType && f.embed.Some? then f.embed.value else "",
              f.repeated, o.source, merged, picked)
  }

  /**
   * The records VisitField appends for an annotated field, as the code is
   * written: one per merged and one per picked flag, or one without a Go
   * type when neither is set; Merged and Picked are left false in all three.
   */
  function RecordedAsWritten(f: Field, o: FieldOption): seq<FieldData>
  {
    (if o.merged then [Entry(f, o, true, false, false)] else [])
    + (if o.picked then [Entry(f, o, true, false, false)] else [])
    + (if !o.picked && !o.merged then [Entry(f, o, false, false, false)] else [])
  }

  /**
   * The records as evidently intended: the merged record is marked Merged
   * and the picked record Picked, which is what MergeFrom and PickFrom
   * filter on. The walk below appends RecordedAsWritten, as the code does;
   * this definition is the corrected one the properties compare it with.
   */
  function Recorded(f: Field, o: FieldOption): seq<FieldData>
  {
    (if o.merged then [Entry(f, o, true, true, false)] else [])
    + (if o.picked then [Entry(f, o, true, false, true)] else [])
    + (if !o.picked && !o.merged then [Entry(f, o, false, false, false)] else [])
  }

  /**
   * VisitField: goName is the Go name of the message that declares the field.
   * An annotated field whose message has no entry dereferences a nil
   * collection, modelled as NilEntry.
   */
  function VisitFieldOf(fs: FeatureMap, f: Field, goName: string): (Visit, FeatureMap)
  {
    match f.option
    case Malformed => (Err(ExtensionError), fs)
    case Absent => (Ok(true), fs)
    case Present(o) =>
      if goName !in fs then (Err(NilEntry(goName)), fs)
      else (Ok(true), fs[goName := fs[goName].(fieldsList := fs[goName].fieldsList + RecordedAsWritten(f, o))])
  }

  // -----------------------------------------------------------------------
  // The walk
  // -----------------------------------------------------------------------

  /** pgs.Walk from a message whose parent is called parentName. */
  function WalkMessageOf(fs: FeatureMap, m: Message, parentName: string): Result<FeatureMap, ExtractError>
    decreases m, |m.messages| + 1
  {
    var (v, fs1) := VisitMessageOf(fs, m, parentName);
    match v
    case Err(e) => Err(e)
    case Ok(descend) =>
      if !descend then Ok(fs1)
      else
        match WalkNestedOf(fs1, m, 0)
        case Err(e) => Err(e)
        case Ok(fs2) => WalkFieldsOf(fs2, m.fields, m.goName)
  }

  /** The walks of the nested messages of m, from the i-th on. */
  function WalkNestedOf(fs: FeatureMap, m: Message, i: nat): Result<FeatureMap, ExtractError>
    decreases m, |m.messages| - i
  {
    if i >= |m.messages| then Ok(fs)
    else
      match WalkMessageOf(fs, m.messages[i], m.name)
      case Err(e) => Err(e)
      case Ok(fs1) => WalkNestedOf(fs1, m, i + 1)
  }

  /** The visits of the fields, in declaration order. */
  function WalkFieldsOf(fs: FeatureMap, fields: seq<Field>, goName: string): Result<FeatureMap, ExtractError>
  {
    if fields == [] then Ok(fs)
    else
      match WalkFieldsOf(fs, fields[..|fields| - 1], goName)
      case Err(e) => Err(e)
      case Ok(fs1) =>
        var (v, fs2) := VisitFieldOf(fs1, fields[|fields| - 1], goName);
        if v.Err? then Err(v.error) else Ok(fs2)
  }

  /** The walks of the top-level messages of a file, from the i-th on. */
  function WalkTopOf(fs: FeatureMap, f: File, i: nat): Result<FeatureMap, ExtractError>
    decreases |f.messages| - i
  {
    if i >= |f.messages| then Ok(fs)
    else
      match WalkMessageOf(fs, f.messages[i], f.name)
      case Err(e) => Err(e)
      case Ok(fs1) => WalkTopOf(fs1, f, i + 1)
  }

  /** Whether some method of some service has an annotation that does not decode. */
  predicate MethodOptionMalformed(f: File)
  {
    exists s, j :: 0 <= s < |f.services| && 0 <= j < |f.services[s].methods|
      && f.services[s].methods[j].option.Malformed?
  }

  /** ExtractFeatures: the walk of a file from a fresh map. */
  function ExtractFileOf(f: File): Result<FeatureMap, ExtractError>
  {
    if VisitFileOf(f).Err? then Err(ExtensionError)
    else
      match WalkTopOf(map[], f, 0)
      case Err(e) => Err(e)
      case Ok(fs) => if MethodOptionMalformed(f) then Err(ExtensionError) else Ok(fs)
  }

  /** Once a field visit fails, the walk of the fields fails with that error. */
  lemma {:induction false} FieldsErrorPersists(fs: FeatureMap, fields: seq<Field>, goName: string, j: nat, e: ExtractError)
    requires j <= |fields|
    requires WalkFieldsOf(fs, fields[..j], goName) == Err(e)
    ensures WalkFieldsOf(fs, fields, goName) == Err(e)
    decreases |fields| - j
  {
    if j < |fields| {
      assert fields[..j + 1][..j] == fields[..j];
      FieldsErrorPersists(fs, fields, goName, j + 1, e);
    } else {
      assert fields[..j] == fields;
    }
  }

  // -----------------------------------------------------------------------
  // dataExtractor
  // -----------------------------------------------------------------------

  class DataExtractor {
    var features: FeatureMap

    constructor()
      ensures features == map[]
    {
      features := map[];
    }

    method VisitFile(f: File) returns (r: Visit)
      ensures r == VisitFileOf(f)
    {
      if f.serviceOption.Malformed? {
        return Err(ExtensionError);
      }
      return Ok(true);
    }

    method VisitMethod(md: Method) returns (r: Visit)
      ensures r == VisitMethodOf(md)
    {
      if md.option.Malformed? {
        return Err(ExtensionError);
      }
      return Ok(true);
    }

    method VisitMessage(m: Message, parentName: string) returns (r: Visit)
      modifies this
      ensures (r, features) == VisitMessageOf(old(features), m, parentName)
    {
      if m.modelFeature.Malformed? {
        return Err(ExtensionError);
      }
      if m.parser.Malformed? {
        return Err(ExtensionError);
      }
      var msgName := m.name;
      if msgName == ListEntityName {
        msgName := parentName + "_" + m.name;
      }
      if msgName !in features {
        features := features[msgName := EmptyCollection];
      }
      if m.modelFeature.Present? {
        features := features[msgName := features[msgName].(features := Some(m.modelFeature.value))];
      }
      if m.parser.Present? {
        features := features[msgName := features[msgName].(parser := Some(m.parser.value))];
      }
      assert msgName == MessageKey(m.name, parentName);
      assert features == old(features)[msgName := Annotate(
        if msgName in old(features) then old(features)[msgName] else EmptyCollection, m.modelFeature, m.parser)];
      if features[msgName].features.None? && features[msgName].parser.None? {
        return Ok(false);
      }
      return Ok(true);
    }

    /** Appends one record to the entry of key. */
    method Append(key: string, model: FieldData)
      requires key in features
      modifies this
      ensures features == old(features)[key := old(features)[key].(fieldsList := old(features)[key].fieldsList + [model])]
    {
      features := features[key := features[key].(fieldsList := features[key].fieldsList + [model])];
    }

    /**
     * VisitField. As the code is written, none of the records it appends
     * is marked Merged or Picked (RecordedAsWritten).
     */
    method VisitField(f: Field, goName: string) returns (r: Visit)
      modifies this
      ensures (r, features) == VisitFieldOf(old(features), f, goName)
    {
      if f.option.Malformed? {
        return Err(ExtensionError);
      }
      if f.option.Absent? {
        return Ok(true);
      }
      var tval := f.option.value;
      var msgName := goName;
      if msgName !in features {
        return Err(NilEntry(msgName));
      }
      ghost var before := features[msgName].fieldsList;
      if tval.merged {
        var model := FieldData(f.name, f.protoType, "", f.repeated, tval.source, false, false);
        if f.embed.Some? {
          model := model.(goType := f.embed.value);
        }
        Append(msgName, model);
      }
      if tval.picked {
        var model := FieldData(f.name, f.protoType, "", f.repeated, tval.source, false, false);
        if f.embed.Some? {
          model := model.(goType := f.embed.value);
        }
        Append(msgName, model);
      }
      if !tval.picked && !tval.merged {
        var model := FieldData(f.name, f.protoType, "", f.repeated, tval.source, false, false);
        Append(msgName, model);
      }
      assert features[msgName].fieldsList == before + RecordedAsWritten(f, tval);
      assert features == old(features)[msgName := old(features)[msgName].(fieldsList := before + RecordedAsWritten(f, tval))];
      r := Ok(true);
    }

    /** pgs.Walk over a message, its nested messages and its fields. */
    method WalkMessage(m: Message, parentName: string) returns (err: Option<ExtractError>)
      modifies this
      ensures match WalkMessageOf(old(features), m, parentName)
        case Ok(fs) => err.None? && features == fs
        case Err(e) => err == Some(e)
      decreases m
    {
      var v := VisitMessage(m, parentName);
      if v.Err? {
        return Some(v.error);
      }
      if !v.value {
        return None;
      }
      ghost var afterVisit := features;
      var i := 0;
      while i < |m.messages|
        invariant 0 <= i <= |m.messages|
        invariant WalkNestedOf(afterVisit, m, 0) == WalkNestedOf(features, m, i)
      {
        var e := WalkMessage(m.messages[i], m.name);
        if e.Some? {
          return e;
        }
        i := i + 1;
      }
      ghost var afterNested := features;
      var j := 0;
      while j < |m.fields|
        invariant 0 <= j <= |m.fields|
        invariant WalkFieldsOf(afterNested, m.fields[..j], m.goName) == Ok(features)
      {
        var r := VisitField(m.fields[j], m.goName);
        assert m.fields[..j + 1][..j] == m.fields[..j];
        if r.Err? {
          FieldsErrorPersists(afterNested, m.fields, m.goName, j + 1, r.error);
          assert m.fields[..|m.fields|] == m.fields;
          return Some(r.error);
        }
        j := j + 1;
      }
      assert m.fields[..|m.fields|] == m.fields;
      return None;
    }

    /** ExtractFeatures: a fresh map, then pgs.Walk over the file. */
    method ExtractFeatures(f: File) returns (r: Result<FeatureMap, ExtractError>)
      modifies this
      ensures r == ExtractFileOf(f)
      ensures r.Ok? ==> features == r.value
    {
      features := map[];
      var v := VisitFile(f);
      if v.Err? {
        return Err(ExtensionError);
      }
      var i := 0;
      while i < |f.messages|
        invariant 0 <= i <= |f.messages|
        invariant WalkTopOf(map[], f, 0) == WalkTopOf(features, f, i)
      {
        var e := WalkMessage(f.messages[i], f.name);
        if e.Some? {
          return Err(e.value);
        }
        i := i + 1;
      }
      ghost var walked := features;
      var s := 0;
      while s < |f.services|
        invariant 0 <= s <= |f.services|
        invariant features == walked
        invariant forall s', j :: 0 <= s' < s && 0 <= j < |f.services[s'].methods| ==>
          !f.services[s'].methods[j].option.Malformed?
      {
        var j := 0;
        while j < |f.services[s].methods|
          invariant 0 <= j <= |f.services[s].methods|
          invariant features == walked
          invariant forall j' :: 0 <= j' < j ==> !f.services[s].methods[j'].option.Malformed?
        {
          var mv := VisitMethod(f.services[s].methods[j]);
          if mv.Err? {
            return Err(ExtensionError);
          }
          j := j + 1;
        }
        s := s + 1;
      }
      assert !MethodOptionMalformed(f);
      assert WalkTopOf(features, f, i) == Ok(features);
      return Ok(features);
    }
  }
}
