/**
 * What the helpers Execute writes amount to: which fields each helper
 * reads and assigns, which helpers a model gets, and that the models of a
 * file are written once each, in ascending order of their names.
 */
module HelperProperties {
  import opened Wrappers
  import opened GoStrings
  import opened Features
  import opened Extractor
  import opened ExtractorProperties
  import opened StringOrder
  import opened Helper
  import CaseConversion

  // -----------------------------------------------------------------------
  // Loops over the records
  // -----------------------------------------------------------------------

  lemma {:induction false} CollectAppend<T>(a: seq<FieldData>, b: seq<FieldData>, g: FieldData -> Option<T>)
    ensures Collect(a + b, g) == Collect(a, g) + Collect(b, g)
    decreases |b|
  {
    if b == [] {
      assert a + b == a;
    } else {
      var init := b[..|b| - 1];
      assert (a + b)[..|a + b| - 1] == a + init;
      CollectAppend(a, init, g);
    }
  }

  /** A loop writes a piece exactly when some record gives it. */
  lemma {:induction false} CollectMembers<T>(es: seq<FieldData>, g: FieldData -> Option<T>)
    ensures forall x :: x in Collect(es, g) <==> exists i :: 0 <= i < |es| && g(es[i]) == Some(x)
    ensures |Collect(es, g)| <= |es|
  {
    if es != [] {
      var init := es[..|es| - 1];
      CollectMembers(init, g);
      forall x
        ensures x in Collect(es, g) <==> exists i :: 0 <= i < |es| && g(es[i]) == Some(x)
      {
        if x in Collect(init, g) {
          var i :| 0 <= i < |init| && g(init[i]) == Some(x);
          assert g(es[i]) == Some(x);
        }
        if exists i :: 0 <= i < |es| && g(es[i]) == Some(x) {
          var i :| 0 <= i < |es| && g(es[i]) == Some(x);
          if i < |init| {
            assert g(init[i]) == Some(x);
          }
        }
      }
    }
  }

  /** A loop that selects no record writes nothing. */
  lemma {:induction false} CollectNothing<T>(es: seq<FieldData>, g: FieldData -> Option<T>)
    requires forall i :: 0 <= i < |es| ==> g(es[i]).None?
    ensures Collect(es, g) == []
  {
    if es != [] {
      var init := es[..|es| - 1];
      assert forall i :: 0 <= i < |init| ==> init[i] == es[i];
      CollectNothing(init, g);
    }
  }

  // -----------------------------------------------------------------------
  // GetFilter
  // -----------------------------------------------------------------------

  /**
   * GetFilter never filters on skip or limit; a uint32 field is matched when
   * positive and a string field as a regular expression when non-empty,
   * each under its proto name and through its Pascal-cased Go field, and no
   * field of any other type takes part.
   */
  lemma FilterClauses(es: seq<FieldData>)
    ensures forall c :: c in Collect(es, FilterClauseOf) ==>
      && c.key != "skip" && c.key != "limit"
      && c.field == CaseConversion.PascalOf(c.key)
      && exists i :: 0 <= i < |es| && es[i].name == c.key
           && es[i].protoType == (if c.PositiveUint? then "TYPE_UINT32" else "TYPE_STRING")
    ensures forall i :: 0 <= i < |es| && es[i].name != "skip" && es[i].name != "limit" ==>
      && (es[i].protoType == "TYPE_UINT32" ==>
            PositiveUint(es[i].name, CaseConversion.PascalOf(es[i].name)) in Collect(es, FilterClauseOf))
      && (es[i].protoType == "TYPE_STRING" ==>
            RegexMatch(es[i].name, CaseConversion.PascalOf(es[i].name)) in Collect(es, FilterClauseOf))
  {
    CollectMembers(es, FilterClauseOf);
    forall c | c in Collect(es, FilterClauseOf)
      ensures && c.key != "skip" && c.key != "limit"
        && c.field == CaseConversion.PascalOf(c.key)
        && exists i :: 0 <= i < |es| && es[i].name == c.key
             && es[i].protoType == (if c.PositiveUint? then "TYPE_UINT32" else "TYPE_STRING")
    {
      var i :| 0 <= i < |es| && FilterClauseOf(es[i]) == Some(c);
      ClauseOfField(es[i], c);
    }
  }

  lemma ClauseOfField(f: FieldData, c: FilterClause)
    requires FilterClauseOf(f) == Some(c)
    ensures c.key == f.name && c.key != "skip" && c.key != "limit"
    ensures c.field == CaseConversion.PascalOf(c.key)
    ensures f.protoType == (if c.PositiveUint? then "TYPE_UINT32" else "TYPE_STRING")
  {
  }

  // -----------------------------------------------------------------------
  // MergeFrom and PickFrom
  // -----------------------------------------------------------------------

  /** The Go names of the annotated fields marked merged, in declaration order. */
  function MergedNames(fields: seq<Field>): seq<string>
  {
    if fields == [] then []
    else
      var last := fields[|fields| - 1];
      MergedNames(fields[..|fields| - 1])
      + (if last.option.Present? && last.option.value.merged then [last.name] else [])
  }

  /** The names of the annotated fields marked picked, in declaration order. */
  function PickedNames(fields: seq<Field>): seq<string>
  {
    if fields == [] then []
    else
      var last := fields[|fields| - 1];
      PickedNames(fields[..|fields| - 1])
      + (if last.option.Present? && last.option.value.picked then [last.name] else [])
  }

  /** One copy per name. */
  function AssignsFor(names: seq<string>): (r: seq<Assign>)
    ensures |r| == |names|
    ensures forall i :: 0 <= i < |names| ==> r[i] == AssignOf(names[i])
  {
    if names == [] then [] else AssignsFor(names[..|names| - 1]) + [AssignOf(names[|names| - 1])]
  }

  lemma {:induction false} AssignsForAppend(a: seq<string>, b: seq<string>)
    ensures AssignsFor(a + b) == AssignsFor(a) + AssignsFor(b)
  {
  }

  /** A merged field yields exactly one copy in MergeFrom; any other field none. */
  lemma MergeOfRecorded(f: Field, o: FieldOption)
    ensures Collect(Recorded(f, o), MergeCopy) == if o.merged then [AssignOf(f.name)] else []
  {
    var m := if o.merged then [Entry(f, o, true, true, false)] else [];
    var p := if o.picked then [Entry(f, o, true, false, true)] else [];
    var n := if !o.picked && !o.merged then [Entry(f, o, false, false, false)] else [];
    CollectAppend(m, p, MergeCopy);
    CollectAppend(m + p, n, MergeCopy);
  }

  /** A picked field yields exactly one copy in PickFrom; any other field none. */
  lemma PickOfRecorded(f: Field, o: FieldOption)
    ensures Collect(Recorded(f, o), PickCopy) == if o.picked then [AssignOf(f.name)] else []
  {
    var m := if o.merged then [Entry(f, o, true, true, false)] else [];
    var p := if o.picked then [Entry(f, o, true, false, true)] else [];
    var n := if !o.picked && !o.merged then [Entry(f, o, false, false, false)] else [];
    CollectAppend(m, p, PickCopy);
    CollectAppend(m + p, n, PickCopy);
  }

  /**
   * Over the records the walk of a message appends, MergeFrom copies exactly
   * the fields annotated as merged, each once, in declaration order.
   */
  lemma {:induction false} MergeFromCopiesMergedFields(fields: seq<Field>)
    ensures Collect(RecordsOf(fields), MergeCopy) == AssignsFor(MergedNames(fields))
  {
    if fields != [] {
      var init := fields[..|fields| - 1];
      var last := fields[|fields| - 1];
      MergeFromCopiesMergedFields(init);
      var tail := if last.option.Present? then Recorded(last, last.option.value) else [];
      CollectAppend(RecordsOf(init), tail, MergeCopy);
      var named := if last.option.Present? && last.option.value.merged then [last.name] else [];
      AssignsForAppend(MergedNames(init), named);
      if last.option.Present? {
        MergeOfRecorded(last, last.option.value);
      }
    }
  }

  /** PickFrom copies exactly the fields annotated as picked, each once, in declaration order. */
  lemma {:induction false} PickFromCopiesPickedFields(fields: seq<Field>)
    ensures Collect(RecordsOf(fields), PickCopy) == AssignsFor(PickedNames(fields))
  {
    if fields != [] {
      var init := fields[..|fields| - 1];
      var last := fields[|fields| - 1];
      PickFromCopiesPickedFields(init);
      var tail := if last.option.Present? then Recorded(last, last.option.value) else [];
      CollectAppend(RecordsOf(init), tail, PickCopy);
      var named := if last.option.Present? && last.option.value.picked then [last.name] else [];
      AssignsForAppend(PickedNames(init), named);
      if last.option.Present? {
        PickOfRecorded(last, last.option.value);
      }
    }
  }

  lemma {:induction false} AsWrittenUnmarked(fields: seq<Field>)
    ensures forall i :: 0 <= i < |RecordsAsWrittenOf(fields)| ==>
      !RecordsAsWrittenOf(fields)[i].merged && !RecordsAsWrittenOf(fields)[i].picked
  {
    if fields != [] {
      var last := fields[|fields| - 1];
      AsWrittenUnmarked(fields[..|fields| - 1]);
      if last.option.Present? {
        AsWrittenDropsMarks(last, last.option.value);
      }
    }
  }

  /**
   * As VisitField is written, MergeFrom and PickFrom copy nothing at all,
   * even when a field is annotated merged or picked, while the intended
   * records give such a field its copy.
   */
  lemma AsWrittenCopiesNothing(fields: seq<Field>)
    ensures Collect(RecordsAsWrittenOf(fields), MergeCopy) == []
    ensures Collect(RecordsAsWrittenOf(fields), PickCopy) == []
    ensures MergedNames(fields) != [] ==> Collect(RecordsOf(fields), MergeCopy) != []
    ensures PickedNames(fields) != [] ==> Collect(RecordsOf(fields), PickCopy) != []
  {
    var es := RecordsAsWrittenOf(fields);
    AsWrittenUnmarked(fields);
    assert forall i :: 0 <= i < |es| ==> MergeCopy(es[i]).None? && PickCopy(es[i]).None?;
    CollectNothing(es, MergeCopy);
    CollectNothing(es, PickCopy);
    MergeFromCopiesMergedFields(fields);
    PickFromCopiesPickedFields(fields);
  }

  /**
   * A helper that copies no field: MergeFrom with no assignments, PickFrom
   * that copies nothing from request or into any item; every other helper.
   */
  predicate CopiesNothing(a: Artifact)
  {
    && (a.MergeFrom? ==> a.assigns == [])
    && (a.PickFrom? && a.body.CopyFields? ==> a.body.assigns == [])
    && (a.PickFrom? && a.body.BuildItems? ==> a.body.itemAssigns == [])
  }

  /** No helper of arts copies a field. */
  predicate NoneCopies(arts: seq<Artifact>)
  {
    forall i :: 0 <= i < |arts| ==> CopiesNothing(arts[i])
  }

  lemma NoneCopiesAppend(a: seq<Artifact>, b: seq<Artifact>)
    requires NoneCopies(a) && NoneCopies(b)
    ensures NoneCopies(a + b)
  {
    assert forall i :: |a| <= i < |a + b| ==> (a + b)[i] == b[i - |a|];
  }

  /** Over records none of which is marked, the parser helpers copy nothing. */
  lemma ParserPartCopiesNothing(model: string, c: Collection, p: ParserOption, fs: FeatureMap)
    requires NoneMarked(c.fieldsList) && MapNoneMarked(fs)
    ensures NoneCopies(ParserPartOf(model, c, p, fs))
  {
    CollectNothing(c.fieldsList, MergeCopy);
    CollectNothing(c.fieldsList, PickCopy);
    var key := ListEntityKey(model);
    if key in fs {
      CollectNothing(fs[key].fieldsList, PickCopy);
    }
    var a := if p.swag then [SwaggerWrapper(model, CaseConversion.CamelOf(model) + "Wrapper", model + "Wrapper")] else [];
    var b := if p.paging && HasSuffix(model, "Request")
       then [GetFilter(model, Collect(c.fieldsList, FilterClauseOf)),
             GetOptions(model, if p.list then Some(DefaultListOptions) else None)]
       else [];
    var m := if p.merge || p.mergeFrom != ""
       then [MergeFrom(p.mergeFrom, "MergeFrom" + model, model, Collect(c.fieldsList, MergeCopy))]
       else [];
    var k := if p.pick then [PickFrom(model, "PickFrom" + p.pickWith, PickSourceOf(p), PickBodyOf(model, c.fieldsList, p, fs))] else [];
    var d := if p.fiber then [BindFromFiber(model, HasBodyField(c.fieldsList), Collect(c.fieldsList, BindStepOf))] else [];
    NoneCopiesAppend(a, b);
    NoneCopiesAppend(a + b, m);
    NoneCopiesAppend(a + b + m, k);
    NoneCopiesAppend(a + b + m + k, d);
  }

  /** Over records none of which is marked, a model's helpers copy nothing. */
  lemma ModelCopiesNothing(model: string, c: Collection, fs: FeatureMap)
    requires NoneMarked(c.fieldsList) && MapNoneMarked(fs)
    ensures NoneCopies(PlanModelOf(model, c, fs))
  {
    var e := if c.features.Some?
      then [EncryptFields(model, c.features.value.keeperKey), DecryptFields(model, c.features.value.keeperKey)]
      else [];
    var p := if c.parser.Some? then ParserPartOf(model, c, c.parser.value, fs) else [];
    if c.parser.Some? {
      ParserPartCopiesNothing(model, c, c.parser.value, fs);
    }
    NoneCopiesAppend(e, p);
    NoneCopiesAppend(e + p, [MustMarshalBinary(model), UnmarshalBinary(model)]);
  }

  /**
   * When no record of fs is marked, as after any extraction the code
   * performs, every MergeFrom and PickFrom planned for the models keys
   * copies nothing.
   */
  lemma {:induction false} PlanCopiesNothing(fs: FeatureMap, keys: seq<string>)
    requires MapNoneMarked(fs)
    requires forall k :: k in keys ==> k in fs
    ensures NoneCopies(PlanOf(fs, keys))
  {
    if keys != [] {
      var init := keys[..|keys| - 1];
      var last := keys[|keys| - 1];
      assert forall k :: k in init ==> k in keys;
      PlanCopiesNothing(fs, init);
      ModelCopiesNothing(last, fs[last], fs);
      NoneCopiesAppend(PlanOf(fs, init), PlanModelOf(last, fs[last], fs));
    }
  }

  /**
   * PickFrom on a list reads the entry the extractor gives the model's
   * nested ListEntity message, and only the picked records of that entry.
   */
  lemma PickFromListEntity(model: string, es: seq<FieldData>, p: ParserOption, fs: FeatureMap)
    requires p.list
    ensures var body := PickBodyOf(model, es, p, fs);
      && body.BuildItems?
      && body.itemType == MessageKey(ListEntityName, model)
      && body.setPagination == p.paging
      && (MessageKey(ListEntityName, model) !in fs ==> body.itemAssigns == [])
      && (MessageKey(ListEntityName, model) in fs ==>
            var items := fs[MessageKey(ListEntityName, model)].fieldsList;
            forall x :: x in body.itemAssigns <==>
              exists i :: 0 <= i < |items| && items[i].picked && x == AssignOf(items[i].name))
  {
    ListEntityKeys(model, model, ListEntityName);
    var key := ListEntityKey(model);
    if key in fs {
      CollectMembers(fs[key].fieldsList, PickCopy);
    }
  }

  // -----------------------------------------------------------------------
  // BindFromFiber
  // -----------------------------------------------------------------------

  /**
   * BindFromFiber fills only path and context fields: a path field from the
   * integer route parameter of its name, a context field from the local
   * value of its name, asserted to the Go type ProtoTypesMap gives its
   * descriptor type.
   */
  lemma BindStepsSound(es: seq<FieldData>)
    ensures forall s :: s in Collect(es, BindStepOf) ==>
      && s.field == CaseConversion.PascalOf(s.name)
      && exists i :: 0 <= i < |es| && es[i].name == s.name
           && es[i].source == (if s.PathParam? then "path" else "context")
           && (s.ContextLocal? ==> s.goType == GoType(es[i].protoType))
  {
    CollectMembers(es, BindStepOf);
    forall s | s in Collect(es, BindStepOf)
      ensures && s.field == CaseConversion.PascalOf(s.name)
        && exists i :: 0 <= i < |es| && es[i].name == s.name
             && es[i].source == (if s.PathParam? then "path" else "context")
             && (s.ContextLocal? ==> s.goType == GoType(es[i].protoType))
    {
      var i :| 0 <= i < |es| && BindStepOf(es[i]) == Some(s);
      StepOfField(es[i], s);
    }
  }

  lemma StepOfField(f: FieldData, s: BindStep)
    requires BindStepOf(f) == Some(s)
    ensures s.name == f.name && s.field == CaseConversion.PascalOf(s.name)
    ensures f.source == (if s.PathParam? then "path" else "context")
    ensures s.ContextLocal? ==> s.goType == GoType(f.protoType)
  {
  }

  /** Every path field and every context field is filled. */
  lemma BindStepsComplete(es: seq<FieldData>)
    ensures forall i :: 0 <= i < |es| && es[i].source == "path" ==>
      PathParam(es[i].name, CaseConversion.PascalOf(es[i].name)) in Collect(es, BindStepOf)
    ensures forall i :: 0 <= i < |es| && es[i].source == "context" ==>
      ContextLocal(es[i].name, CaseConversion.PascalOf(es[i].name), GoType(es[i].protoType)) in Collect(es, BindStepOf)
  {
    CollectMembers(es, BindStepOf);
    assert forall i :: 0 <= i < |es| && BindStepOf(es[i]).Some? ==> BindStepOf(es[i]).value in Collect(es, BindStepOf);
  }

  /**
   * A context field is asserted to a Go type from ProtoTypesMap when its
   * descriptor type is listed there, and to the empty type name otherwise.
   */
  lemma ContextFieldTypes(es: seq<FieldData>)
    ensures forall s :: s in Collect(es, BindStepOf) && s.ContextLocal? ==>
      (s.goType != "" <==> exists i :: 0 <= i < |es| && es[i].name == s.name && es[i].source == "context"
                                       && es[i].protoType in ProtoTypesMap && s.goType == ProtoTypesMap[es[i].protoType])
  {
    CollectMembers(es, BindStepOf);
    forall s | s in Collect(es, BindStepOf) && s.ContextLocal?
      ensures s.goType != "" <==> exists i :: 0 <= i < |es| && es[i].name == s.name && es[i].source == "context"
                                       && es[i].protoType in ProtoTypesMap && s.goType == ProtoTypesMap[es[i].protoType]
    {
      var i :| 0 <= i < |es| && BindStepOf(es[i]) == Some(s);
      GoTypeKnownIffListed(es[i].protoType);
      forall k | 0 <= k < |es| && es[k].protoType in ProtoTypesMap
        ensures ProtoTypesMap[es[k].protoType] != ""
      {
        GoTypeKnownIffListed(es[k].protoType);
      }
    }
  }

  // -----------------------------------------------------------------------
  // The helpers of one model
  // -----------------------------------------------------------------------

  /** The type a helper belongs to: its receiver, or the payload of MergeFrom. */
  function Subject(a: Artifact): string
  {
    match a
    case EncryptFields(model, _) => model
    case DecryptFields(model, _) => model
    case SwaggerWrapper(model, _, _) => model
    case GetFilter(model, _) => model
    case GetOptions(model, _) => model
    case MergeFrom(_, _, payload, _) => payload
    case PickFrom(model, _, _, _) => model
    case BindFromFiber(model, _, _) => model
    case MustMarshalBinary(model) => model
    case UnmarshalBinary(model) => model
  }

  /**
   * The parser options decide the request helpers one by one: a swagger
   * wrapper for swag, GetFilter and GetOptions for a paged model whose name
   * ends in "Request" (with the list options exactly for a list), MergeFrom
   * on the mergeFrom type for merge or a mergeFrom type, PickFrom for pick
   * and BindFromFiber for fiber; all of them belong to the model and none
   * is a keeper helper or a marshaller.
   */
  lemma ParserPartShape(model: string, c: Collection, p: ParserOption, fs: FeatureMap)
    ensures (exists a :: a in ParserPartOf(model, c, p, fs) && a.SwaggerWrapper?) <==> p.swag
    ensures (exists a :: a in ParserPartOf(model, c, p, fs) && a.GetFilter?) <==> p.paging && HasSuffix(model, "Request")
    ensures (exists a :: a in ParserPartOf(model, c, p, fs) && a.GetOptions?) <==> p.paging && HasSuffix(model, "Request")
    ensures forall a :: a in ParserPartOf(model, c, p, fs) && a.GetOptions? ==> (a.list.Some? <==> p.list)
    ensures (exists a :: a in ParserPartOf(model, c, p, fs) && a.MergeFrom?) <==> p.merge || p.mergeFrom != ""
    ensures forall a :: a in ParserPartOf(model, c, p, fs) && a.MergeFrom? ==>
      a.receiver == p.mergeFrom && a.name == "MergeFrom" + model
    ensures (exists a :: a in ParserPartOf(model, c, p, fs) && a.PickFrom?) <==> p.pick
    ensures (exists a :: a in ParserPartOf(model, c, p, fs) && a.BindFromFiber?) <==> p.fiber
  {
    var arts := ParserPartOf(model, c, p, fs);
    var swag := if p.swag then [SwaggerWrapper(model, CaseConversion.CamelOf(model) + "Wrapper", model + "Wrapper")] else [];
    var paging := if p.paging && HasSuffix(model, "Request")
       then [GetFilter(model, Collect(c.fieldsList, FilterClauseOf)),
             GetOptions(model, if p.list then Some(DefaultListOptions) else None)]
       else [];
    var merge := if p.merge || p.mergeFrom != ""
       then [MergeFrom(p.mergeFrom, "MergeFrom" + model, model, Collect(c.fieldsList, MergeCopy))]
       else [];
    var pick := if p.pick then [PickFrom(model, "PickFrom" + p.pickWith, PickSourceOf(p), PickBodyOf(model, c.fieldsList, p, fs))] else [];
    var fiber := if p.fiber then [BindFromFiber(model, HasBodyField(c.fieldsList), Collect(c.fieldsList, BindStepOf))] else [];
    assert arts == swag + paging + merge + pick + fiber;
    forall a | a in arts
      ensures a.SwaggerWrapper? ==> p.swag
      ensures a.GetFilter? || a.GetOptions? ==> p.paging && HasSuffix(model, "Request")
      ensures a.GetOptions? ==> (a.list.Some? <==> p.list)
      ensures a.MergeFrom? ==> (p.merge || p.mergeFrom != "") && a.receiver == p.mergeFrom && a.name == "MergeFrom" + model
      ensures a.PickFrom? ==> p.pick
      ensures a.BindFromFiber? ==> p.fiber
    {
      assert a in swag || a in paging || a in merge || a in pick || a in fiber;
    }
    assert p.swag ==> swag[0] in arts;
    assert paging != [] ==> paging[0] in arts && paging[1] in arts;
    assert merge != [] ==> merge[0] in arts;
    assert pick != [] ==> pick[0] in arts;
    assert fiber != [] ==> fiber[0] in arts;
  }

  /** Every request helper belongs to the model and none is a keeper helper or a marshaller. */
  lemma ParserPartBelongs(model: string, c: Collection, p: ParserOption, fs: FeatureMap)
    ensures forall a :: a in ParserPartOf(model, c, p, fs) ==>
      && Subject(a) == model
      && !a.EncryptFields? && !a.DecryptFields? && !a.MustMarshalBinary? && !a.UnmarshalBinary?
  {
    var arts := ParserPartOf(model, c, p, fs);
    var swag := if p.swag then [SwaggerWrapper(model, CaseConversion.CamelOf(model) + "Wrapper", model + "Wrapper")] else [];
    var paging := if p.paging && HasSuffix(model, "Request")
       then [GetFilter(model, Collect(c.fieldsList, FilterClauseOf)),
             GetOptions(model, if p.list then Some(DefaultListOptions) else None)]
       else [];
    var merge := if p.merge || p.mergeFrom != ""
       then [MergeFrom(p.mergeFrom, "MergeFrom" + model, model, Collect(c.fieldsList, MergeCopy))]
       else [];
    var pick := if p.pick then [PickFrom(model, "PickFrom" + p.pickWith, PickSourceOf(p), PickBodyOf(model, c.fieldsList, p, fs))] else [];
    var fiber := if p.fiber then [BindFromFiber(model, HasBodyField(c.fieldsList), Collect(c.fieldsList, BindStepOf))] else [];
    assert arts == swag + paging + merge + pick + fiber;
    forall a | a in arts
      ensures Subject(a) == model
      ensures !a.EncryptFields? && !a.DecryptFields? && !a.MustMarshalBinary? && !a.UnmarshalBinary?
    {
      assert a in swag || a in paging || a in merge || a in pick || a in fiber;
    }
  }

  /**
   * A model gets EncryptFields and DecryptFields with its keeper key exactly
   * when it carries the model annotation, request helpers only with parser
   * options, and always ends with MustMarshalBinary and UnmarshalBinary;
   * every helper belongs to the model.
   */
  lemma PlanModelShape(model: string, c: Collection, fs: FeatureMap)
    ensures |PlanModelOf(model, c, fs)| >= 2
    ensures var arts := PlanModelOf(model, c, fs);
      arts[|arts| - 2] == MustMarshalBinary(model) && arts[|arts| - 1] == UnmarshalBinary(model)
    ensures forall a :: a in PlanModelOf(model, c, fs) ==> Subject(a) == model
    ensures (exists a :: a in PlanModelOf(model, c, fs) && a.EncryptFields?) <==> c.features.Some?
    ensures (exists a :: a in PlanModelOf(model, c, fs) && a.DecryptFields?) <==> c.features.Some?
    ensures forall a :: a in PlanModelOf(model, c, fs) && (a.EncryptFields? || a.DecryptFields?) ==>
      c.features.Some? && a.keeperKey == c.features.value.keeperKey
    ensures c.parser.None? ==> forall a :: a in PlanModelOf(model, c, fs) ==>
      a.EncryptFields? || a.DecryptFields? || a.MustMarshalBinary? || a.UnmarshalBinary?
  {
    var arts := PlanModelOf(model, c, fs);
    var keeper := if c.features.Some?
      then [EncryptFields(model, c.features.value.keeperKey), DecryptFields(model, c.features.value.keeperKey)]
      else [];
    var parser := if c.parser.Some? then ParserPartOf(model, c, c.parser.value, fs) else [];
    var tail := [MustMarshalBinary(model), UnmarshalBinary(model)];
    if c.parser.Some? {
      ParserPartBelongs(model, c, c.parser.value, fs);
    }
    assert arts == keeper + parser + tail;
    forall a | a in arts
      ensures Subject(a) == model
      ensures a.EncryptFields? || a.DecryptFields? ==> c.features.Some? && a.keeperKey == c.features.value.keeperKey
      ensures c.parser.None? ==> a.EncryptFields? || a.DecryptFields? || a.MustMarshalBinary? || a.UnmarshalBinary?
    {
      assert a in keeper || a in parser || a in tail;
    }
    assert c.features.Some? ==> keeper[0] in arts && keeper[1] in arts;
    assert arts[|arts| - 2] == tail[0] && arts[|arts| - 1] == tail[1];
  }

  // -----------------------------------------------------------------------
  // The models of a file
  // -----------------------------------------------------------------------

  /** The models that get a MustMarshalBinary, in the order they are written. */
  function Marshalled(arts: seq<Artifact>): seq<string>
  {
    if arts == [] then []
    else (if arts[0].MustMarshalBinary? then [arts[0].model] else []) + Marshalled(arts[1..])
  }

  lemma {:induction false} MarshalledAppend(a: seq<Artifact>, b: seq<Artifact>)
    ensures Marshalled(a + b) == Marshalled(a) + Marshalled(b)
  {
    if a == [] {
      assert a + b == b;
    } else {
      assert (a + b)[1..] == a[1..] + b;
      MarshalledAppend(a[1..], b);
    }
  }

  lemma {:induction false} NoneMarshalled(a: seq<Artifact>)
    requires forall x :: x in a ==> !x.MustMarshalBinary?
    ensures Marshalled(a) == []
  {
    if a != [] {
      assert a[0] in a;
      assert forall x :: x in a[1..] ==> x in a;
      NoneMarshalled(a[1..]);
    }
  }

  /** Each model gets exactly one MustMarshalBinary. */
  lemma MarshalledOnce(model: string, c: Collection, fs: FeatureMap)
    ensures Marshalled(PlanModelOf(model, c, fs)) == [model]
  {
    var keeper := if c.features.Some?
      then [EncryptFields(model, c.features.value.keeperKey), DecryptFields(model, c.features.value.keeperKey)]
      else [];
    var parser := if c.parser.Some? then ParserPartOf(model, c, c.parser.value, fs) else [];
    var tail := [MustMarshalBinary(model), UnmarshalBinary(model)];
    assert PlanModelOf(model, c, fs) == keeper + parser + tail;
    assert Marshalled(keeper) == [] by {
      assert forall x :: x in keeper ==> !x.MustMarshalBinary?;
      NoneMarshalled(keeper);
    }
    assert Marshalled(parser) == [] by {
      if c.parser.Some? {
        ParserPartBelongs(model, c, c.parser.value, fs);
      }
      NoneMarshalled(parser);
    }
    assert Marshalled(tail) == [model] by {
      var u := [UnmarshalBinary(model)];
      assert u[1..] == [];
      assert Marshalled(u) == [] + Marshalled(u[1..]);
      assert tail[1..] == u;
    }
    MarshalledAppend(keeper, parser);
    MarshalledAppend(keeper + parser, tail);
  }

  /** The helpers of the models keys are written model after model, in that order. */
  lemma {:induction false} PlanMarshalsKeys(fs: FeatureMap, keys: seq<string>)
    requires forall k :: k in keys ==> k in fs
    ensures Marshalled(PlanOf(fs, keys)) == keys
  {
    if keys != [] {
      var init := keys[..|keys| - 1];
      var last := keys[|keys| - 1];
      PlanMarshalsKeys(fs, init);
      MarshalledAppend(PlanOf(fs, init), PlanModelOf(last, fs[last], fs));
      MarshalledOnce(last, fs[last], fs);
      assert init + [last] == keys;
    }
  }

  /**
   * Every model of the map gets its helpers exactly once, in ascending
   * order of the model names, whatever order the map was iterated in.
   */
  lemma FileModelsInOrder(fs: FeatureMap)
    ensures var keys := SortedKeys(fs.Keys);
      && Marshalled(PlanOf(fs, keys)) == keys
      && StrictlySorted(keys)
      && (forall k :: k in keys <==> k in fs)
      && |keys| == |fs|
  {
    var keys := SortedKeys(fs.Keys);
    PlanMarshalsKeys(fs, keys);
    assert StrictlySorted(keys);
    assert Distinct(keys) by {
      forall i, j | 0 <= i < j < |keys|
        ensures keys[i] != keys[j]
      {
        LessIrreflexive(keys[i]);
      }
    }
    assert |keys| == |fs.Keys| by {
      DistinctCardinality(keys, fs.Keys);
    }
  }

  /** A list without repeats has as many elements as the set of its elements. */
  lemma {:induction false} DistinctCardinality(s: seq<string>, ks: set<string>)
    requires Distinct(s)
    requires forall x :: x in s <==> x in ks
    ensures |s| == |ks|
    decreases |s|
  {
    if s != [] {
      var t := s[1..];
      assert Distinct(t) by {
        forall i, j | 0 <= i < j < |t|
          ensures t[i] != t[j]
        {
          assert t[i] == s[i + 1] && t[j] == s[j + 1];
        }
      }
      assert s[0] !in t by {
        forall i | 0 <= i < |t|
          ensures t[i] != s[0]
        {
          assert t[i] == s[i + 1];
        }
      }
      forall x
        ensures x in t <==> x in ks - {s[0]}
      {
        assert x in s <==> x == s[0] || x in t;
      }
      DistinctCardinality(t, ks - {s[0]});
    } else {
      assert forall x :: x !in ks;
      assert ks == {};
    }
  }

  /** Any strictly ascending list of the names is the one the planner uses. */
  lemma SortedKeysUnique(ks: set<string>, s: seq<string>)
    requires StrictlySorted(s)
    requires forall x :: x in s <==> x in ks
    ensures s == SortedKeys(ks)
  {
    StrictlySortedUnique(s, SortedKeys(ks));
  }
}
