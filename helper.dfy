/**
 * The planner of module/helper.go: for every model of a file, in ascending
 * order of the model names, the helper functions Execute writes with the
 * jennifer code builder. The model records WHICH helpers are written and
 * what each one is made of (which fields it reads, which fields it
 * assigns, which checks it makes), not the Go text.
 */
module Helper {
  import opened Wrappers
  import opened GoStrings
  import opened Features
  import opened Extractor
  import opened StringOrder
  import CaseConversion

  // -----------------------------------------------------------------------
  // The helpers
  // -----------------------------------------------------------------------

  /** One entry of the query GetFilter builds, keyed by the field's proto name. */
  datatype FilterClause =
    /** if x.<field> > 0 { query[key] = x.<field> } */
    | PositiveUint(key: string, field: string)
    /** if len(x.<field>) > 0 { query[key] = primitive.Regex{Pattern: x.<field>, Options: ""} } */
    | RegexMatch(key: string, field: string)

  /** The options GetOptions sets for a list: the default limit, then skip and sort. */
  datatype ListOptions = ListOptions(defaultLimit: int, sortKey: string, sortOrder: int)

  /** limit 20 unless x.Limit > 0, skip x.Skip, sort {"_id": 1}. */
  const DefaultListOptions := ListOptions(20, "_id", 1)

  /** x.<field> = <source>.<getter>: one field copied by MergeFrom or PickFrom. */
  datatype Assign = Assign(field: string, getter: string)

  /** The parameters of PickFrom. */
  datatype PickSource =
    /** (request *<typeName>) */
    | OneSource(typeName: string)
    /** (request []*<typeName>), followed by (pagination *common.Pagination) when paged */
    | ManySources(typeName: string, withPagination: bool)

  /** The body of PickFrom, after the nil check on request. */
  datatype PickBody =
    /** the picked fields copied from request */
    | CopyFields(assigns: seq<Assign>)
    /** one new <itemType> per element of request with itemAssigns copied into it,
        the list stored in x.Items, and x.Pagination set when setPagination */
    | BuildItems(itemType: string, itemAssigns: seq<Assign>, setPagination: bool)

  /** One field BindFromFiber fills after the query and body parsers. */
  datatype BindStep =
    /** <name>, err := ctx.ParamsInt("<name>"), returning err; x.<field> = uint32(<name>) */
    | PathParam(name: string, field: string)
    /** if ctx.Locals("<name>") != nil { x.<field> = ctx.Locals("<name>").(<goType>) } */
    | ContextLocal(name: string, field: string, goType: string)

  /** One helper function or type in the generated file. */
  datatype Artifact =
    | EncryptFields(model: string, keeperKey: string)
    | DecryptFields(model: string, keeperKey: string)
    /** the "swagger:parameters <parameters>" comment and type <typeName> struct { Body <model> } */
    | SwaggerWrapper(model: string, parameters: string, typeName: string)
    | GetFilter(model: string, clauses: seq<FilterClause>)
    /** options.FindOptions, with the list options when the model is a list */
    | GetOptions(model: string, list: Option<ListOptions>)
    /** func (x *<receiver>) <name>(request *<payload>) */
    | MergeFrom(receiver: string, name: string, payload: string, assigns: seq<Assign>)
    | PickFrom(model: string, name: string, source: PickSource, body: PickBody)
    /** QueryParser, then BodyParser when parseBody, then the steps, then nil */
    | BindFromFiber(model: string, parseBody: bool, steps: seq<BindStep>)
    | MustMarshalBinary(model: string)
    | UnmarshalBinary(model: string)

  // -----------------------------------------------------------------------
  // Loops over the recorded fields
  // -----------------------------------------------------------------------

  /**
   * What a loop over fieldsList writes: for each record in order, the piece
   * g gives for it, if any.
   */
  function Collect<T>(es: seq<FieldData>, g: FieldData -> Option<T>): seq<T>
  {
    if es == [] then []
    else
      var last := g(es[|es| - 1]);
      Collect(es[..|es| - 1], g) + (if last.Some? then [last.value] else [])
  }

  /** Collect over one more record. */
  lemma CollectSnoc<T>(es: seq<FieldData>, i: nat, g: FieldData -> Option<T>)
    requires i < |es|
    ensures Collect(es[..i + 1], g) == Collect(es[..i], g) + (if g(es[i]).Some? then [g(es[i]).value] else [])
  {
    assert es[..i + 1][..i] == es[..i];
  }

  /** x.<Pascal(name)> = src.Get<Pascal(name)>(). */
  function AssignOf(name: string): Assign
  {
    var p := CaseConversion.PascalOf(name);
    Assign(p, "Get" + p + "()")
  }

  /** MergeFrom copies the records marked Merged. */
  function MergeCopy(f: FieldData): Option<Assign>
  {
    if f.merged then Some(AssignOf(f.name)) else None
  }

  /** PickFrom copies the records marked Picked. */
  function PickCopy(f: FieldData): Option<Assign>
  {
    if f.picked then Some(AssignOf(f.name)) else None
  }

  /** GetFilter skips skip and limit and filters on uint32 and string fields only. */
  function FilterClauseOf(f: FieldData): Option<FilterClause>
  {
    if f.name == "skip" || f.name == "limit" then None
    else if f.protoType == "TYPE_UINT32" then Some(PositiveUint(f.name, CaseConversion.PascalOf(f.name)))
    else if f.protoType == "TYPE_STRING" then Some(RegexMatch(f.name, CaseConversion.PascalOf(f.name)))
    else None
  }

  /** BindFromFiber fills the fields whose source is "path" or "context". */
  function BindStepOf(f: FieldData): Option<BindStep>
  {
    if f.source == "path" then Some(PathParam(f.name, CaseConversion.PascalOf(f.name)))
    else if f.source == "context" then Some(ContextLocal(f.name, CaseConversion.PascalOf(f.name), GoType(f.protoType)))
    else None
  }

  /** Whether some record has source "body", so the request body must be parsed. */
  predicate HasBodyField(es: seq<FieldData>)
  {
    exists i :: 0 <= i < |es| && es[i].source == "body"
  }

  // -----------------------------------------------------------------------
  // What Execute writes for one model
  // -----------------------------------------------------------------------

  /** The key under which the extractor files the nested ListEntity message of a model. */
  function ListEntityKey(model: string): string
  {
    model + "_ListEntity"
  }

  function PickSourceOf(p: ParserOption): PickSource
  {
    if p.list then ManySources(p.pickWith, p.paging) else OneSource(p.pickWith)
  }

  /**
   * A list copies, into each item, the picked fields of the model's
   * ListEntity entry (none when there is no such entry); otherwise the
   * picked fields of the model itself.
   */
  function PickBodyOf(model: string, es: seq<FieldData>, p: ParserOption, fs: FeatureMap): PickBody
  {
    if p.list then
      var key := ListEntityKey(model);
      BuildItems(key, if key in fs then Collect(fs[key].fieldsList, PickCopy) else [], p.paging)
    else CopyFields(Collect(es, PickCopy))
  }

  /** The helpers a model with parser options p gets. */
  function ParserPartOf(model: string, c: Collection, p: ParserOption, fs: FeatureMap): seq<Artifact>
  {
    (if p.swag then [SwaggerWrapper(model, CaseConversion.CamelOf(model) + "Wrapper", model + "Wrapper")] else [])
    + (if p.paging && HasSuffix(model, "Request")
       then [GetFilter(model, Collect(c.fieldsList, FilterClauseOf)),
             GetOptions(model, if p.list then Some(DefaultListOptions) else None)]
       else [])
    + (if p.merge || p.mergeFrom != ""
       then [MergeFrom(p.mergeFrom, "MergeFrom" + model, model, Collect(c.fieldsList, MergeCopy))]
       else [])
    + (if p.pick then [PickFrom(model, "PickFrom" + p.pickWith, PickSourceOf(p), PickBodyOf(model, c.fieldsList, p, fs))] else [])
    + (if p.fiber then [BindFromFiber(model, HasBodyField(c.fieldsList), Collect(c.fieldsList, BindStepOf))] else [])
  }

  /** Everything written for the model filed under `model` with collection c. */
  function PlanModelOf(model: string, c: Collection, fs: FeatureMap): seq<Artifact>
  {
    (if c.features.Some?
     then [EncryptFields(model, c.features.value.keeperKey), DecryptFields(model, c.features.value.keeperKey)]
     else [])
    + (if c.parser.Some? then ParserPartOf(model, c, c.parser.value, fs) else [])
    + [MustMarshalBinary(model), UnmarshalBinary(model)]
  }

  /** Everything written for the models keys of fs, one after the other. */
  function PlanOf(fs: FeatureMap, keys: seq<string>): seq<Artifact>
    requires forall k :: k in keys ==> k in fs
  {
    if keys == [] then []
    else
      var last := keys[|keys| - 1];
      PlanOf(fs, keys[..|keys| - 1]) + PlanModelOf(last, fs[last], fs)
  }

  // -----------------------------------------------------------------------
  // The order of the models
  // -----------------------------------------------------------------------

  /** Every non-empty set of strings has a least element. */
  lemma {:induction false} LeastExists(ks: set<string>)
    requires ks != {}
    ensures exists m :: m in ks && forall y :: y in ks ==> LessEq(m, y)
    decreases ks
  {
    var x :| x in ks;
    var others := ks - {x};
    if others == {} {
      LessIrreflexive(x);
      forall y | y in ks
        ensures y == x
      {
        assert y != x ==> y in others;
      }
      assert x in ks && forall y :: y in ks ==> LessEq(x, y);
    } else {
      LeastExists(others);
      var m :| m in others && forall y :: y in others ==> LessEq(m, y);
      LessTotal(m, x);
      if Less(x, m) {
        LessAsymmetric(x, m);
        forall y | y in ks
          ensures LessEq(x, y)
        {
          if y == x {
            LessIrreflexive(x);
          } else {
            assert y in others;
            LessEqTransitive(x, m, y);
          }
        }
        assert x in ks && forall y :: y in ks ==> LessEq(x, y);
      } else {
        LessIrreflexive(m);
        assert LessEq(m, x);
        forall y | y in ks
          ensures LessEq(m, y)
        {
          if y != x {
            assert y in others;
          }
        }
        assert m in ks && forall y :: y in ks ==> LessEq(m, y);
      }
    }
  }

  /** The names of ks in ascending order: what sort.Strings makes of them. */
  ghost function SortedKeys(ks: set<string>): (r: seq<string>)
    ensures StrictlySorted(r)
    ensures forall x :: x in r <==> x in ks
    decreases ks
  {
    if ks == {} then []
    else
      LeastExists(ks);
      var m :| m in ks && forall y :: y in ks ==> LessEq(m, y);
      var rest := SortedKeys(ks - {m});
      assert forall y :: y in rest ==> Less(m, y) by {
        forall y | y in rest
          ensures Less(m, y)
        {
          LessTotal(m, y);
        }
      }
      [m] + rest
  }

  // -----------------------------------------------------------------------
  // The planner as written in Execute
  // -----------------------------------------------------------------------

  /** The body of GetFilter: the loop over fieldsList. */
  method BuildGetFilter(model: string, es: seq<FieldData>) returns (a: Artifact)
    ensures a == GetFilter(model, Collect(es, FilterClauseOf))
  {
    var clauses: seq<FilterClause> := [];
    var i := 0;
    while i < |es|
      invariant 0 <= i <= |es|
      invariant clauses == Collect(es[..i], FilterClauseOf)
    {
      var field := es[i];
      CollectSnoc(es, i, FilterClauseOf);
      if field.name == "skip" || field.name == "limit" {
        i := i + 1;
        continue;
      }
      if field.protoType == "TYPE_UINT32" {
        var p := CaseConversion.Pascal(field.name);
        clauses := clauses + [PositiveUint(field.name, p)];
      } else if field.protoType == "TYPE_STRING" {
        var p := CaseConversion.Pascal(field.name);
        clauses := clauses + [RegexMatch(field.name, p)];
      }
      i := i + 1;
    }
    assert es[..|es|] == es;
    a := GetFilter(model, clauses);
  }

  /** The assignments of a loop that copies the records g selects. */
  method CopyMarked(es: seq<FieldData>, merged: bool) returns (assigns: seq<Assign>)
    ensures assigns == Collect(es, if merged then MergeCopy else PickCopy)
  {
    ghost var g := if merged then MergeCopy else PickCopy;
    assigns := [];
    var i := 0;
    while i < |es|
      invariant 0 <= i <= |es|
      invariant assigns == Collect(es[..i], g)
    {
      var field := es[i];
      CollectSnoc(es, i, g);
      if (merged && !field.merged) || (!merged && !field.picked) {
        i := i + 1;
        continue;
      }
      var p := CaseConversion.Pascal(field.name);
      assigns := assigns + [Assign(p, "Get" + p + "()")];
      i := i + 1;
    }
    assert es[..|es|] == es;
  }

  /** MergeFrom<model> on the type named by mergeFrom. */
  method BuildMergeFrom(model: string, mergeFrom: string, es: seq<FieldData>) returns (a: Artifact)
    ensures a == MergeFrom(mergeFrom, "MergeFrom" + model, model, Collect(es, MergeCopy))
  {
    var assigns := CopyMarked(es, true);
    a := MergeFrom(mergeFrom, "MergeFrom" + model, model, assigns);
  }

  /** PickFrom<PickWith>. */
  method BuildPickFrom(model: string, p: ParserOption, es: seq<FieldData>, fs: FeatureMap) returns (a: Artifact)
    ensures a == PickFrom(model, "PickFrom" + p.pickWith, PickSourceOf(p), PickBodyOf(model, es, p, fs))
  {
    var source := if p.list then ManySources(p.pickWith, p.paging) else OneSource(p.pickWith);
    var body: PickBody;
    if p.list {
      var key := model + "_ListEntity";
      var itemAssigns: seq<Assign> := [];
      if key in fs {
        itemAssigns := CopyMarked(fs[key].fieldsList, false);
      }
      body := BuildItems(key, itemAssigns, p.paging);
    } else {
      var assigns := CopyMarked(es, false);
      body := CopyFields(assigns);
    }
    a := PickFrom(model, "PickFrom" + p.pickWith, source, body);
  }

  /** BindFromFiber: the scan for body fields, then the loop over path and context fields. */
  method BuildBindFromFiber(model: string, es: seq<FieldData>) returns (a: Artifact)
    ensures a == BindFromFiber(model, HasBodyField(es), Collect(es, BindStepOf))
  {
    var hasBodyFields := false;
    var i := 0;
    while i < |es|
      invariant 0 <= i <= |es|
      invariant hasBodyFields <==> exists k :: 0 <= k < i && es[k].source == "body"
    {
      if es[i].source == "body" {
        hasBodyFields := true;
      }
      i := i + 1;
    }
    var steps: seq<BindStep> := [];
    i := 0;
    while i < |es|
      invariant 0 <= i <= |es|
      invariant steps == Collect(es[..i], BindStepOf)
    {
      var field := es[i];
      CollectSnoc(es, i, BindStepOf);
      if field.source == "path" {
        var p := CaseConversion.Pascal(field.name);
        steps := steps + [PathParam(field.name, p)];
      }
      if field.source == "context" {
        var p := CaseConversion.Pascal(field.name);
        steps := steps + [ContextLocal(field.name, p, GoType(field.protoType))];
      }
      i := i + 1;
    }
    assert es[..|es|] == es;
    a := BindFromFiber(model, hasBodyFields, steps);
  }

  /** The helpers written for one model, in the order Execute writes them. */
  method PlanModel(model: string, fs: FeatureMap) returns (arts: seq<Artifact>)
    requires model in fs
    ensures arts == PlanModelOf(model, fs[model], fs)
  {
    var feature := fs[model];
    var keeper: seq<Artifact> := [];
    if feature.features.Some? {
      var key := feature.features.value.keeperKey;
      keeper := [EncryptFields(model, key), DecryptFields(model, key)];
    }
    var parser: seq<Artifact> := [];
    if feature.parser.Some? {
      var p := feature.parser.value;
      var swag: seq<Artifact> := [];
      if p.swag {
        var camel := CaseConversion.Camel(model);
        swag := [SwaggerWrapper(model, camel + "Wrapper", model + "Wrapper")];
      }
      var paging: seq<Artifact> := [];
      if p.paging && HasSuffix(model, "Request") {
        var filter := BuildGetFilter(model, feature.fieldsList);
        paging := [filter, GetOptions(model, if p.list then Some(DefaultListOptions) else None)];
      }
      var merge: seq<Artifact> := [];
      if p.merge || p.mergeFrom != "" {
        var mf := BuildMergeFrom(model, p.mergeFrom, feature.fieldsList);
        merge := [mf];
      }
      var pick: seq<Artifact> := [];
      if p.pick {
        var pf := BuildPickFrom(model, p, feature.fieldsList, fs);
        pick := [pf];
      }
      var fiber: seq<Artifact> := [];
      if p.fiber {
        var bf := BuildBindFromFiber(model, feature.fieldsList);
        fiber := [bf];
      }
      parser := swag + paging + merge + pick + fiber;
    }
    arts := keeper + parser + [MustMarshalBinary(model), UnmarshalBinary(model)];
  }

  /**
   * The keys of the map collected in map order (any order: the element is
   * picked without saying which) and then sorted with sort.Strings.
   */
  method CollectKeys(fs: FeatureMap) returns (keys: seq<string>)
    ensures keys == SortedKeys(fs.Keys)
  {
    var a := new string[|fs.Keys|];
    var rest := fs.Keys;
    var n := 0;
    while rest != {}
      invariant 0 <= n <= a.Length
      invariant n + |rest| == a.Length
      invariant rest <= fs.Keys
      invariant forall x :: x in a[..n] <==> x in fs.Keys && x !in rest
      invariant Distinct(a[..n])
      decreases |rest|
    {
      var k :| k in rest;
      ghost var prefix := a[..n];
      a[n] := k;
      assert a[..n + 1] == prefix + [k];
      rest := rest - {k};
      n := n + 1;
    }
    assert a[..] == a[..n];
    ghost var collected := a[..];
    SortStrings(a);
    keys := a[..];
    assert forall x :: x in keys <==> x in collected by {
      forall x
        ensures x in keys <==> x in collected
      {
        assert x in keys <==> x in multiset(keys);
        assert x in collected <==> x in multiset(collected);
      }
    }
    PermutationKeepsDistinct(keys, collected);
    SortedDistinctIsStrict(keys);
    StrictlySortedUnique(keys, SortedKeys(fs.Keys));
  }

  /** The models of a file in ascending order and everything written for them. */
  method PlanFile(fs: FeatureMap) returns (keys: seq<string>, arts: seq<Artifact>)
    ensures keys == SortedKeys(fs.Keys)
    ensures arts == PlanOf(fs, keys)
  {
    keys := CollectKeys(fs);
    arts := [];
    var i := 0;
    while i < |keys|
      invariant 0 <= i <= |keys|
      invariant arts == PlanOf(fs, keys[..i])
    {
      var modelArts := PlanModel(keys[i], fs);
      assert keys[..i + 1][..i] == keys[..i];
      arts := arts + modelArts;
      i := i + 1;
    }
    assert keys[..|keys|] == keys;
  }
}
