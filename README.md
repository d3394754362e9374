# protoc-gen-go-helper: a verified model of the helper generator

protoc-gen-go-helper is a protoc plugin. For every message of a proto file it
writes Go helper functions, and the annotations on the message and its fields
decide which helpers it writes. This project models the plugin's core in
Dafny and proves properties of that model:

- **The identifier case converter** (`module/utils.go`). This is the
  five-state `processor` automaton behind `Camel`, `Pascal` and `Snake`. It is
  modelled twice. `CaseConversion.Step`/`Scan`/`Trace` give the transitions as
  pure functions that produce write events. `CaseConversion.Processor` is the
  imperative class with `state`, `bufferedRune` and the output buffer, and its
  `Convert` loop is proved to write exactly `Render(tr, Trace(...))`. The
  transitions never look at the translator, so properties about what is
  written (every letter and digit once, separators, Pascal against Camel)
  are proved once, on the event trace.
- **`ModulePath` and `GetErrWithLinesNumber`** (`module/utils.go`). Each is a
  loop (`GoMod.ModulePath`, `ErrLines.GetErrWithLinesNumber`) proved equal to
  a recursive definition, which the lemmas then describe.
- **The feature extractor** (`module/extractor.go`). `Extractor.DataExtractor`
  holds the `features` map. Its visitor methods update the map in place,
  each proved equal to a pure function (`VisitMessageOf`, `VisitFieldOf`,
  `WalkMessageOf`, `ExtractFileOf`).
- **The generation planner inside `Execute`** (`module/helper.go`). The
  helpers are abstract artifact records (`Helper.Artifact`): a tag plus the
  resolved parameters, such as filter clauses, copied fields, bind steps and
  receiver types. The map keys are collected and sorted in place
  (`Helper.CollectKeys`, `StringOrder.SortStrings`). Each model is then
  planned by `Helper.PlanModel`, and the target files are driven by
  `Execution.Execute`.

Foreign inputs are plain values. A message is a `Features.Message` with its
proto name, Go name, annotations, nested messages and fields. Reading an
extension gives `Absent`, `Present(v)` or `Malformed`. The Go name
(`pgsgo.Context.Name`) is a given field of the message. `OutputPath` is the
`helpersName` of a target. `filepath.Join`, `strconv.Unquote` and
`file.Save` are function parameters.

Behaviour of the code that a reader might not expect, modelled as written:

- The first error ends the run. A malformed annotation stops the walk of the
  file (`CheckErr`), and a path outside the module stops the plugin
  (`Exit(1)`). No error list is collected.
- A message whose entry has no annotations stays in the map, and its fields
  and nested messages are not visited. It still gets `MustMarshalBinary`
  and `UnmarshalBinary`.
- A message is filed under its proto name, but `VisitField` looks its fields
  up under the message's Go name. For a nested message other than
  `ListEntity`, or any message whose Go name differs from its proto name, an
  annotated field therefore hits a missing entry. Go panics on the nil
  pointer, and the model returns `NilEntry`
  (`ExtractorProperties.NestedMessageFieldFindsNoEntry`).
- `Pascal` is not idempotent: `Pascal("A_B") == "AB"` but
  `Pascal("AB") == "Ab"` (`CaseConversion.PascalNotIdempotent`).
- Path-bound fields are always converted with `uint32`, whatever the field's
  type.
- A field that is both merged and picked is recorded twice.
- `VisitField` never sets `Merged` or `Picked` on the records it appends.
  `MergeFrom` and `PickFrom` copy only marked records, so every one of them
  is written with no assignment (see Findings). The extractor is modelled
  with the records as written (`RecordedAsWritten`). The intended records
  (`Recorded`) are defined beside them, and what `MergeFrom` and `PickFrom`
  would then copy is proved about those.

## Model

| member | source | states |
|---|---|---|
| `Features.GoTypeKnownIffListed` | module/utils.go:18-28 | `ProtoTypesMap[t]` is non-empty exactly for the nine listed descriptor types; every other type looks up as "" |
| `CaseConversion.Processor.constructor` | module/utils.go:99-105 | a new processor is in the initial state with an empty buffer and nothing buffered, so the look-behind invariant holds |
| `CaseConversion.Processor.WriteRune` | module/utils.go:118-120 | appends exactly one rune to the buffer |
| `CaseConversion.Processor.FlushRuneBuffer` | module/utils.go:107-111 | writes the buffered rune untranslated if there is one, and otherwise nothing |
| `CaseConversion.Processor.PutCharInRuneBuffer` | module/utils.go:112-117 | writes the previously buffered rune as an in-word letter, if any, and buffers the new rune |
| `CaseConversion.Processor.FirstLetter` | module/utils.go:121-128 | writes the rune through FirstLetter; the next state expects a small letter after a capital, and is in-word otherwise |
| `CaseConversion.Processor.FoundNewWord` | module/utils.go:129-140 | writes the separator (if one is set) and then the rune through FirstLetterOfWord, with the same state choice |
| `CaseConversion.Processor.CharInWord` | module/utils.go:142-145 | writes the rune through LetterInWord |
| `CaseConversion.Processor.StepRune` | module/utils.go:153-205 | one loop iteration: the new state and look-behind are those of `Step`, and the buffer grows by the rendering of `Step`'s events |
| `CaseConversion.Processor.Convert` | module/utils.go:151-210 | the loop plus the end flush write exactly the rendered trace of the input and return the buffer; the look-behind invariant is preserved |
| `CaseConversion.NewLowerProcessor` | module/utils.go:216-223 | a fresh processor whose translator lowercases everything and uses the given separator |
| `CaseConversion.Camel` | module/utils.go:225-231 | returns the camel rendering of the trace |
| `CaseConversion.Pascal` | module/utils.go:233-239 | returns the Pascal rendering of the trace |
| `CaseConversion.Snake` | module/utils.go:241-243 | returns the lower rendering of the trace with '_' as separator |
| `CaseConversion.ScanKeepsBufferInv` | module/utils.go:112-117 | a rune is buffered exactly in state IN_CONSECUTIVE_CAPITALS, and that rune is an upper-case letter or a digit; every transition keeps this |
| `CaseConversion.WordsWrittenOnce` | module/utils.go:151-210 | every letter and digit of the input is written exactly once, in input order, and nothing else is; only the first is written through FirstLetter, and the raw flush never writes anything |
| `CaseConversion.ConvertWithoutSeparator` | module/utils.go:151-210 | without a separator the output has one rune per letter or digit, so input without any gives ""; the first goes through FirstLetter and each later one through LetterInWord or FirstLetterOfWord |
| `CaseConversion.PascalCamelDifferOnlyAtFirst` | module/utils.go:225-239 | Pascal and Camel outputs have equal length and agree at every index except 0, where they differ only in case; with a leading letter Pascal starts upper-case and Camel lower-case |
| `CaseConversion.SnakeSeparators` | module/utils.go:129-140 | Snake output never starts or ends with '_' and never holds "__"; removing the underscores leaves one rune per letter or digit |
| `CaseConversion.TraceHttpServer` | module/utils.go:162-189 | in "HTTPServer" the capitals H, T, T, P are written as one word, and only the last capital S starts the next word |
| `CaseConversion.PascalHttpServer` | module/utils.go:233-239 | `Pascal("HTTPServer") == "HttpServer"` |
| `CaseConversion.CamelHttpServer` | module/utils.go:225-231 | `Camel("HTTPServer") == "httpServer"` |
| `CaseConversion.SnakeHttpServer` | module/utils.go:241-243 | `Snake("HTTPServer") == "http_server"` |
| `CaseConversion.PascalNotIdempotent` | module/utils.go:233-239 | Pascal applied twice can differ from Pascal applied once ("A_B" gives "AB", then "Ab") |
| `GoMod.ModulePath` | module/utils.go:43-75 | the line loop returns exactly `ModulePathOf`, the first line's verdict that is not a skip |
| `GoMod.ReadLine` | module/utils.go:45-49 | the line is the text up to the first newline and the rest follows it, as `SplitLine` |
| `GoMod.ReadDirective` | module/utils.go:50-56 | cutting at "//", trimming and testing for "module" give exactly the line's verdict `ClassifyLine` |
| `GoMod.ReadArgument` | module/utils.go:57-72 | what follows "module" gives Skip unless it starts with white space and holds a path; a quoted path is unquoted, and a failed unquote is Malformed, as `ClassifyArgument` |
| `GoMod.EmptyModIsEmpty` | module/utils.go:74 | an empty text gives "" |
| `GoMod.FirstDirectiveDecides` | module/utils.go:44-73 | a skipped first line hands the decision to the rest of the text; a found path is the answer whatever follows; a failed unquote gives "" and stops the scan |
| `GoMod.LastLineDecides` | module/utils.go:44-49 | a last line without a newline is classified like any other line |
| `GoMod.KeywordMustBeFollowedBySpace` | module/utils.go:57-62 | "modulex ..." and a bare "module" are skipped |
| `GoMod.OtherLinesSkipped` | module/utils.go:50-56 | a line that does not start with "module", once cut at "//" and trimmed, is skipped |
| `GoMod.DirectiveGivesPath` | module/utils.go:57-72 | "module", white space and an unquoted path give exactly that path |
| `GoMod.QuotedDirective` | module/utils.go:64-70 | a path starting with '"' or '`' is returned unquoted; a failed unquote makes the line Malformed |
| `GoMod.FoundPathShape` | module/utils.go:50-72 | when the argument after "module" starts with white space and trims to a non-empty unquoted path, the line gives that path, which is trimmed and holds no "//" and no newline |
| `ErrLines.GetErrWithLinesNumber` | module/utils.go:245-265 | nil gives nil; otherwise the scanner loop writes exactly `FormatErr`: lines numbered from 0, every line ended by "\n", one extra "\n" |
| `ErrLines.ItoaRoundTrip` | module/utils.go:256 | the decimal line number reads back as the number itself |
| `ErrLines.FormattedLines` | module/utils.go:254-264 | read back line by line, the result is the error's lines, the first unprefixed and line k (k >= 1) behind "k. ", then one empty line |
| `ErrLines.FormattedLineCount` | module/utils.go:254-264 | for every error text, carriage returns included, the result has exactly one line more than the error |
| `ErrLines.FormatEndsWithBlankLine` | module/utils.go:264 | the result is non-empty and ends in "\n" |
| `Extractor.DataExtractor.constructor` | module/extractor.go:23-27 | a new extractor holds an empty feature map |
| `Extractor.DataExtractor.VisitFile` | module/extractor.go:29-40 | fails exactly when the service annotation does not decode |
| `Extractor.DataExtractor.VisitMethod` | module/extractor.go:82-90 | fails exactly when the method annotation does not decode |
| `Extractor.DataExtractor.VisitMessage` | module/extractor.go:42-80 | updates the map in place exactly as `VisitMessageOf` |
| `Extractor.DataExtractor.Append` | module/extractor.go:115 | appends one record to the key's list and changes nothing else |
| `Extractor.DataExtractor.VisitField` | module/extractor.go:92-143 | updates the map in place exactly as `VisitFieldOf`; as written, no record it appends is marked Merged or Picked |
| `Extractor.DataExtractor.WalkMessage` | module/extractor.go:75-79 | the visit of a message, then its nested messages, then its fields, as `WalkMessageOf`; a nil visitor skips the children and the first error stops the walk |
| `Extractor.DataExtractor.ExtractFeatures` | module/extractor.go:145-150 | starts from an empty map and returns what `ExtractFileOf` gives, the map on success |
| `ExtractorProperties.ListEntityKeys` | module/extractor.go:56-62 | "ListEntity" is keyed "<parent>_ListEntity", distinct for distinct parents; every other message is keyed by its own name |
| `ExtractorProperties.VisitMessageEffect` | module/extractor.go:42-80 | fails, leaving the map unchanged, exactly when an annotation is malformed; otherwise creates the key only if absent, keeps its fields, lets a present annotation overwrite and an absent one keep the old value, touches no other key, and descends iff the entry has an annotation |
| `ExtractorProperties.EarlierAnnotationsStillDescend` | module/extractor.go:64-79 | an un-annotated message is still descended into when an earlier message with the same key left an annotation |
| `ExtractorProperties.UnannotatedMessageSkipsChildren` | module/extractor.go:75-77 | an entry left without annotations stays in the map, and the walk visits none of the message's children |
| `ExtractorProperties.MalformedFieldFailsFirst` | module/extractor.go:94-97 | a malformed field annotation fails before anything is appended |
| `ExtractorProperties.UnannotatedFieldIgnored` | module/extractor.go:101 | a field without the annotation appends nothing |
| `ExtractorProperties.AnnotatedFieldEffect` | module/extractor.go:99-139 | an annotated field appends its records as written (`RecordedAsWritten`) to the entry of its message's Go name and changes nothing else; with no such entry the visit fails |
| `ExtractorProperties.RecordedShape` | module/extractor.go:101-139 | one record for merged, one for picked, one when neither is set; each copies name, type, repetition and source; a record made for a merged or picked flag carries the embedded message's name as its Go type, the record of a field with neither flag none; no record is marked Merged or Picked |
| `ExtractorProperties.IntendedMarks` | module/extractor.go:102-130 | the intended records mark exactly one record Merged for a merged field and exactly one Picked for a picked field, none otherwise, and no record both |
| `ExtractorProperties.AsWrittenDropsMarks` | module/extractor.go:102-139 | as written, the records are the intended ones with Merged and Picked cleared, so none is marked |
| `ExtractorProperties.WalkMessageExtends` | module/extractor.go:64-115 | a successful walk keeps every key and only appends to each key's field records; nothing recorded earlier is lost |
| `ExtractorProperties.UnannotatedFieldsIgnored` | module/extractor.go:101-142 | a message whose fields carry no annotation leaves the map as it was |
| `ExtractorProperties.WalkFieldsRecords` | module/extractor.go:99-139 | walking the fields appends exactly the as-written records of the annotated ones (`RecordsAsWrittenOf`), in declaration order, to that one entry, and changes nothing else |
| `ExtractorProperties.VisitMessageKeepsUnmarked` | module/extractor.go:42-80 | visiting a message marks no record |
| `ExtractorProperties.VisitFieldKeepsUnmarked` | module/extractor.go:99-139 | visiting a field appends only unmarked records |
| `ExtractorProperties.WalkFieldsKeepsUnmarked` | module/extractor.go:75-79 | walking the fields of a message leaves every record of the map unmarked |
| `ExtractorProperties.WalkMessageKeepsUnmarked` | module/extractor.go:75-79 | walking a message, its nested messages and its fields leaves every record unmarked |
| `ExtractorProperties.WalkNestedKeepsUnmarked` | module/extractor.go:75-79 | walking the nested messages leaves every record unmarked |
| `ExtractorProperties.WalkTopKeepsUnmarked` | module/extractor.go:145-150 | walking the top-level messages of a file leaves every record unmarked |
| `ExtractorProperties.ExtractedNoneMarked` | module/extractor.go:99-150 | after any successful extraction, no record in the map is marked Merged or Picked, whatever the annotations say |
| `ExtractorProperties.NestedMessageFieldFindsNoEntry` | module/extractor.go:99-115 | a nested "Inner" is keyed "Inner", but its annotated field looks up "Outer_Inner" and finds no entry |
| `StringOrder.LessTotal` | module/helper.go:80 | Go's string order is total |
| `StringOrder.StrictlySortedUnique` | module/helper.go:76-80 | two strictly ascending lists with the same elements are equal |
| `StringOrder.SortStrings` | module/helper.go:80 | the in-place sort leaves the array sorted and a permutation of the input |
| `Helper.SortedKeys` | module/helper.go:76-80 | the key order the planner uses: strictly ascending, holding exactly the given keys |
| `Helper.CollectKeys` | module/helper.go:76-80 | the keys are collected in any map order and then sorted, giving exactly the ascending list of the map's keys |
| `Helper.BuildGetFilter` | module/helper.go:130-154 | the GetFilter loop yields the filter clauses of the fields in order |
| `Helper.BuildMergeFrom` | module/helper.go:170-185 | MergeFrom<model> on the mergeFrom type, taking the model, with one assignment per Merged record |
| `Helper.BuildPickFrom` | module/helper.go:186-229 | PickFrom<PickWith>: a list of sources (plus pagination when paged) with items built from `<model>_ListEntity`, or one source with the Picked records copied |
| `Helper.BuildBindFromFiber` | module/helper.go:230-273 | BindFromFiber parses the body iff some record has source "body", then takes the path and context steps in field order |
| `Helper.PlanModel` | module/helper.go:84-293 | the helpers of one model, in the order Execute writes them |
| `Helper.PlanFile` | module/helper.go:76-294 | the models in ascending key order, and the concatenation of their helpers |
| `HelperProperties.FilterClauses` | module/helper.go:132-151 | skip and limit never filter; every uint32 field gives a positive-guarded equality and every string field a non-empty-guarded regex, under its proto name and Pascal Go field; no other field takes part |
| `HelperProperties.MergeFromCopiesMergedFields` | module/helper.go:170-185 | over the intended records (`RecordsOf`), MergeFrom would assign exactly the merged fields, once each, in declaration order |
| `HelperProperties.PickFromCopiesPickedFields` | module/helper.go:220-226 | over the intended records (`RecordsOf`), PickFrom without list would assign exactly the picked fields, once each, in declaration order |
| `HelperProperties.AsWrittenCopiesNothing` | module/helper.go:178-181 | over the records as written, MergeFrom and PickFrom assign nothing, even when fields are annotated merged or picked, while over the intended records they do |
| `HelperProperties.ParserPartCopiesNothing` | module/helper.go:170-226 | when no record is marked, the MergeFrom and PickFrom of a model, list or not, assign nothing |
| `HelperProperties.ModelCopiesNothing` | module/helper.go:87-293 | when no record is marked, no helper planned for a model copies a field |
| `HelperProperties.PlanCopiesNothing` | module/helper.go:83-294 | when no record is marked, no helper planned for any of the models copies a field |
| `HelperProperties.PickFromListEntity` | module/helper.go:199-219 | with list, items are `<model>_ListEntity` (the extractor's key for the nested list entity), built from that entry's picked records or from none if it is missing; Pagination is set iff paging |
| `HelperProperties.BindStepsSound` | module/helper.go:256-270 | every bind step comes from a path field (ParamsInt, then uint32) or a context field (Locals, asserted to `ProtoTypesMap[type]`) of the same name |
| `HelperProperties.BindStepsComplete` | module/helper.go:256-270 | every path field and every context field gets its step |
| `HelperProperties.ContextFieldTypes` | module/helper.go:265-268 | a context field is asserted to a non-empty Go type exactly when its descriptor type is listed in ProtoTypesMap |
| `HelperProperties.ParserPartShape` | module/helper.go:120-229 | SwaggerWrapper iff swag; GetFilter and GetOptions iff paging and the name ends in "Request", with list options iff list; MergeFrom iff merge or mergeFrom, on the mergeFrom type; PickFrom iff pick; BindFromFiber iff fiber |
| `HelperProperties.PlanModelShape` | module/helper.go:87-293 | Encrypt/DecryptFields with the keeper key iff features is set; with no parser options only those and the marshal pair; every model ends with MustMarshalBinary and UnmarshalBinary |
| `HelperProperties.MarshalledOnce` | module/helper.go:278-284 | each model gets exactly one MustMarshalBinary |
| `HelperProperties.PlanMarshalsKeys` | module/helper.go:83-294 | over a list of keys, MustMarshalBinary is written once per key, in the list's order |
| `HelperProperties.FileModelsInOrder` | module/helper.go:76-84 | every key of the map, annotated or not, is planned exactly once, in strictly ascending order |
| `HelperProperties.SortedKeysUnique` | module/helper.go:76-80 | any strictly ascending list of the keys is the order the planner uses |
| `Execution.HelpersFilenameUnderModule` | module/helper.go:40-55 | with a module, the file is placed iff its '/'-separated path starts with "<module>/", and the prefix is trimmed; otherwise the error; without a module the joined path is used as is |
| `Execution.ExecuteTarget` | module/helper.go:38-301 | one target gives its own outcome: extraction error, prefix error, failed save, or the saved output |
| `Execution.Execute` | module/helper.go:33-304 | the run over the targets is `RunUntilFailure` of their outcomes |
| `Execution.RunStopsAtFirstFailure` | module/helper.go:38-302 | outputs are saved in target order up to the first failure; an error is reported iff the run stops early, and it is that target's error |
| `Execution.SavedFilesCoverModels` | module/helper.go:76-294 | a saved file lists every model of its target once, in ascending order, and holds exactly the helpers planned for them |
| `Execution.SavedFilesCopyNothing` | module/helper.go:38-301 | as the extractor is written, every MergeFrom and PickFrom in a saved file has no assignment, whatever the target's merged and picked annotations |

## Left out

- main.go: it reads the PWD environment variable and go.mod, and registers the plugin. This is I/O and wiring only.
- _main_test.go: Go tooling ignores it, and it exercises only the regexp library.
- module/generator.go: it holds type declarations only. `ModelFeatureCollection` is `Features.Collection`. Its `fields` member is never used and is not modelled, and neither is the unused `Activity` type.
- The Go text of the helpers: jennifer code building, the `ImportName` calls (module/helper.go:57-74) and the runtime behaviour of the generated code (mongo options, fiber context, keeper encryption, deepcopy, json). Each helper is an abstract `Helper.Artifact`.
- `m.Debug` logging (module/helper.go:51, 150, 231, 299) is left out. `m.Exit(1)` and `CheckErr` are modelled only as errors that stop the run.
- `file.Save` is the parameter `saves`, which tells whether a save succeeds. On a failed save Go logs the error and returns no artifacts. The model stops with `SaveFailed`.
- protoc-gen-star is not part of this model: `pgs.Walk`, `Extension` decoding, `Context.Name` and `OutputPath`. The walk order assumed is the file, then its messages (each message, then its nested messages, then its fields), then the services' methods.
- The map of targets is given as a sequence. Go's iteration order over it is not modelled.
- Unicode classes and case mapping are restricted to ASCII. A rune outside ASCII is neither a letter nor a number, so the converter skips it.
- `strconv.Unquote` and `filepath.Join` are function parameters and are not interpreted.
- Byte-level scanning in `ModulePath` and `GetErrWithLinesNumber` is modelled over runes. All their delimiters are ASCII.
- `bufio.Scanner`'s 64 KiB token limit in `GetErrWithLinesNumber` is not modelled; every line is taken whole.

## Findings

| source | as written | input that shows it | evidently intended | confidence | as-written member | corrected member |
|---|---|---|---|---|---|---|
| module/extractor.go:102-116 | the record appended for a merged field leaves `Merged` false, and MergeFrom (module/helper.go:178-181) copies only records with `Merged` set | a model with parser option `merge: true` and a field annotated `merged: true`: MergeFrom<model> is written with no assignment | the merged record has `Merged` set, so MergeFrom copies exactly the merged fields | not executed; high | `Execution.SavedFilesCopyNothing` | `HelperProperties.MergeFromCopiesMergedFields` |
| module/extractor.go:117-130 | the record appended for a picked field leaves `Picked` false, and PickFrom (module/helper.go:207, 222) copies only records with `Picked` set | a model with parser option `pick: true` and a field annotated `picked: true`: PickFrom<PickWith> is written with no assignment | the picked record has `Picked` set, so PickFrom copies exactly the picked fields | not executed; high | `HelperProperties.PlanCopiesNothing` | `HelperProperties.PickFromCopiesPickedFields` |
