/**
 * Execute of module/helper.go: for each target file, extract the features,
 * work out where the helpers file goes, plan the helpers of its models in
 * ascending order and save the file. The plugin stops at the first error:
 * a failed walk (CheckErr), a generated path outside the module (Exit(1))
 * or a failed save (Execute returns nil); files saved before stay saved.
 */
module Execution {
  import opened Wrappers
  import opened GoStrings
  import opened Features
  import opened Extractor
  import opened StringOrder
  import opened Helper
  import ExtractorProperties
  import HelperProperties

  /**
   * A target file: its descriptor and the path the Go context gives it, with
   * the extension replaced by ".helpers.go".
   */
  datatype Target = Target(file: File, helpersName: string)

  /** A saved file: where it went, which models it covers, which helpers it holds. */
  datatype Output = Output(filename: string, models: seq<string>, artifacts: seq<Artifact>)

  datatype ExecError =
    | ExtractFailed(error: ExtractError)
    | PrefixMismatch(filename: string, modulePath: string)
    | SaveFailed(filename: string)

  // -----------------------------------------------------------------------
  // The output path
  // -----------------------------------------------------------------------

  /** strings.ReplaceAll(s, string(sep), "/"). */
  function Slashed(s: string, sep: char): (r: string)
    ensures |r| == |s|
    ensures forall i :: 0 <= i < |s| ==> r[i] == (if s[i] == sep then '/' else s[i])
  {
    if s == [] then [] else Slashed(s[..|s| - 1], sep) + [if s[|s| - 1] == sep then '/' else s[|s| - 1]]
  }

  /** The helpers file's path, joined under outdir when one is given. */
  function JoinedName(helpersName: string, outdir: string, join: (string, string) -> string): string
  {
    if outdir != "" then join(outdir, helpersName) else helpersName
  }

  /**
   * Where the helpers file is saved: the joined path as it is without a
   * module; with a module, the path with '/' separators and the module
   * prefix removed, or an error when the path is not under the module.
   */
  function HelpersFilename(helpersName: string, outdir: string, modulePath: string, sep: char,
                           join: (string, string) -> string): Result<string, ExecError>
  {
    var joined := JoinedName(helpersName, outdir, join);
    if modulePath == "" then Ok(joined)
    else
      var slashed := Slashed(joined, sep);
      var trim := modulePath + "/";
      if !HasPrefix(slashed, trim) then Err(PrefixMismatch(slashed, modulePath))
      else Ok(slashed[|trim|..])
  }

  /**
   * With a module the file is saved exactly when its path lies under
   * "<module>/", at the path relative to it, written with '/' only; putting
   * the prefix back gives the full path. Without a module the joined path
   * is used as it is.
   */
  lemma HelpersFilenameUnderModule(helpersName: string, outdir: string, modulePath: string, sep: char,
                                   join: (string, string) -> string)
    ensures var r := HelpersFilename(helpersName, outdir, modulePath, sep, join);
      modulePath == "" ==> r == Ok(JoinedName(helpersName, outdir, join))
    ensures var r := HelpersFilename(helpersName, outdir, modulePath, sep, join);
      var slashed := Slashed(JoinedName(helpersName, outdir, join), sep);
      modulePath != "" ==>
        && (r.Ok? <==> HasPrefix(slashed, modulePath + "/"))
        && (r.Ok? ==> modulePath + "/" + r.value == slashed)
        && (r.Ok? && sep != '/' ==> sep !in r.value)
        && (r.Err? ==> r.error == PrefixMismatch(slashed, modulePath))
  {
    var slashed := Slashed(JoinedName(helpersName, outdir, join), sep);
    var trim := modulePath + "/";
    if modulePath != "" && HasPrefix(slashed, trim) {
      var rest := slashed[|trim|..];
      assert trim + rest == slashed;
      assert forall i :: 0 <= i < |rest| ==> rest[i] == slashed[|trim| + i];
    }
  }

  // -----------------------------------------------------------------------
  // Execute
  // -----------------------------------------------------------------------

  /** What Execute makes of one target. */
  ghost function TargetOutput(t: Target, modulePath: string, outdir: string, sep: char,
                              join: (string, string) -> string): Result<Output, ExecError>
  {
    match ExtractFileOf(t.file)
    case Err(e) => Err(ExtractFailed(e))
    case Ok(fs) =>
      match HelpersFilename(t.helpersName, outdir, modulePath, sep, join)
      case Err(e) => Err(e)
      case Ok(name) =>
        var keys := SortedKeys(fs.Keys);
        Ok(Output(name, keys, PlanOf(fs, keys)))
  }

  /**
   * What happens to one target: the output saved for it, or the error that
   * stops the run there (a failed extraction or path, or a failed save;
   * saves tells which paths the file system accepts).
   */
  ghost function Outcome(t: Target, modulePath: string, outdir: string, sep: char,
                         join: (string, string) -> string, saves: string -> bool): Result<Output, ExecError>
  {
    match TargetOutput(t, modulePath, outdir, sep, join)
    case Err(e) => Err(e)
    case Ok(o) => if saves(o.filename) then Ok(o) else Err(SaveFailed(o.filename))
  }

  ghost function Outcomes(targets: seq<Target>, modulePath: string, outdir: string, sep: char,
                          join: (string, string) -> string, saves: string -> bool): (r: seq<Result<Output, ExecError>>)
    ensures |r| == |targets|
    ensures forall i :: 0 <= i < |targets| ==> r[i] == Outcome(targets[i], modulePath, outdir, sep, join, saves)
  {
    seq(|targets|, i requires 0 <= i < |targets| => Outcome(targets[i], modulePath, outdir, sep, join, saves))
  }

  /**
   * A run over targets with these outcomes: the outputs saved, in order, up
   * to the first failure, and that failure, if any.
   */
  function RunUntilFailure(os: seq<Result<Output, ExecError>>): (seq<Output>, Option<ExecError>)
  {
    if os == [] then ([], None)
    else
      match os[0]
      case Err(e) => ([], Some(e))
      case Ok(o) =>
        var rest := RunUntilFailure(os[1..]);
        ([o] + rest.0, rest.1)
  }

  /** The run from target i on: stop at a failure, or save and go on. */
  lemma RunFrom(os: seq<Result<Output, ExecError>>, i: nat)
    requires i < |os|
    ensures os[i].Err? ==> RunUntilFailure(os[i..]) == ([], Some(os[i].error))
    ensures os[i].Ok? ==> RunUntilFailure(os[i..]) == ([os[i].value] + RunUntilFailure(os[i + 1..]).0, RunUntilFailure(os[i + 1..]).1)
  {
    assert os[i..][1..] == os[i + 1..];
  }

  /**
   * The body of the loop of Execute for one target: extract its features,
   * place its helpers file, plan the helpers and save the file.
   */
  method ExecuteTarget(extractor: DataExtractor, t: Target, modulePath: string, outdir: string, sep: char,
                       join: (string, string) -> string, saves: string -> bool)
    returns (out: Output, err: Option<ExecError>)
    modifies extractor
    ensures err.None? ==> Outcome(t, modulePath, outdir, sep, join, saves) == Ok(out)
    ensures err.Some? ==> Outcome(t, modulePath, outdir, sep, join, saves) == Err(err.value)
  {
    out := Output("", [], []);
    var extracted := extractor.ExtractFeatures(t.file);
    if extracted.Err? {
      return out, Some(ExtractFailed(extracted.error));
    }
    var helpersFilename := t.helpersName;
    if outdir != "" {
      helpersFilename := join(outdir, t.helpersName);
    }
    if modulePath != "" {
      helpersFilename := Slashed(helpersFilename, sep);
      var trim := modulePath + "/";
      if !HasPrefix(helpersFilename, trim) {
        return out, Some(PrefixMismatch(helpersFilename, modulePath));
      }
      helpersFilename := helpersFilename[|trim|..];
    }
    assert HelpersFilename(t.helpersName, outdir, modulePath, sep, join) == Ok(helpersFilename);
    var keys, arts := PlanFile(extractor.features);
    out := Output(helpersFilename, keys, arts);
    if !saves(helpersFilename) {
      return out, Some(SaveFailed(helpersFilename));
    }
    return out, None;
  }

  /** Execute, over the targets in the order the map hands them out. */
  method Execute(targets: seq<Target>, modulePath: string, outdir: string, sep: char,
                 join: (string, string) -> string, saves: string -> bool)
    returns (written: seq<Output>, err: Option<ExecError>)
    ensures (written, err) == RunUntilFailure(Outcomes(targets, modulePath, outdir, sep, join, saves))
  {
    ghost var os := Outcomes(targets, modulePath, outdir, sep, join, saves);
    var extractor := new DataExtractor();
    written := [];
    var i := 0;
    assert os[0..] == os;
    assert [] + RunUntilFailure(os).0 == RunUntilFailure(os).0;
    while i < |targets|
      invariant 0 <= i <= |targets|
      invariant RunUntilFailure(os) == (written + RunUntilFailure(os[i..]).0, RunUntilFailure(os[i..]).1)
    {
      var out, e := ExecuteTarget(extractor, targets[i], modulePath, outdir, sep, join, saves);
      RunFrom(os, i);
      if e.Some? {
        assert written + [] == written;
        return written, e;
      }
      ghost var rest := RunUntilFailure(os[i + 1..]);
      assert written + ([out] + rest.0) == (written + [out]) + rest.0;
      written := written + [out];
      i := i + 1;
    }
    assert os[i..] == [];
    assert written + [] == written;
    return written, None;
  }

  // -----------------------------------------------------------------------
  // Properties
  // -----------------------------------------------------------------------

  /**
   * The run saves the targets in order, each with its own output, until the
   * first target that fails; it reports an error exactly when it stops
   * before the last target, and the error is that target's.
   */
  lemma {:induction false} RunStopsAtFirstFailure(os: seq<Result<Output, ExecError>>)
    ensures |RunUntilFailure(os).0| <= |os|
    ensures var written := RunUntilFailure(os).0;
      forall k :: 0 <= k < |written| ==> os[k] == Ok(written[k])
    ensures var (written, err) := RunUntilFailure(os);
      err.None? <==> |written| == |os|
    ensures var (written, err) := RunUntilFailure(os);
      err.Some? ==> os[|written|] == Err(err.value)
  {
    if os != [] && os[0].Ok? {
      RunStopsAtFirstFailure(os[1..]);
      var rest := RunUntilFailure(os[1..]);
      var written := RunUntilFailure(os).0;
      assert written == [os[0].value] + rest.0;
      forall k | 0 <= k < |written|
        ensures os[k] == Ok(written[k])
      {
        if k > 0 {
          assert written[k] == rest.0[k - 1];
        }
      }
    }
  }

  /**
   * Every saved file covers every model its target defines, once each and in
   * ascending order of the names, and holds exactly the helpers planned for
   * them.
   */
  lemma SavedFilesCoverModels(t: Target, modulePath: string, outdir: string, sep: char, join: (string, string) -> string)
    requires TargetOutput(t, modulePath, outdir, sep, join).Ok?
    ensures var o := TargetOutput(t, modulePath, outdir, sep, join).value;
      var fs := ExtractFileOf(t.file).value;
      && StrictlySorted(o.models)
      && (forall k :: k in o.models <==> k in fs)
      && HelperProperties.Marshalled(o.artifacts) == o.models
      && o.artifacts == PlanOf(fs, o.models)
  {
    HelperProperties.FileModelsInOrder(ExtractFileOf(t.file).value);
  }

  /**
   * As the extractor is written, no saved file copies any field: every
   * MergeFrom and PickFrom Execute writes has an empty body of assignments,
   * whatever the merged and picked annotations of the target's fields.
   */
  lemma SavedFilesCopyNothing(t: Target, modulePath: string, outdir: string, sep: char, join: (string, string) -> string)
    requires TargetOutput(t, modulePath, outdir, sep, join).Ok?
    ensures var o := TargetOutput(t, modulePath, outdir, sep, join).value;
      HelperProperties.NoneCopies(o.artifacts)
  {
    var fs := ExtractFileOf(t.file).value;
    ExtractorProperties.ExtractedNoneMarked(t.file);
    HelperProperties.FileModelsInOrder(fs);
    HelperProperties.PlanCopiesNothing(fs, SortedKeys(fs.Keys));
  }
}
