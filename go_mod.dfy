/**
 * ModulePath of module/utils.go: a line scanner that pulls the module path
 * out of the text of a go.mod file. The text is modelled as a sequence of
 * runes; "\n", "//", "module" and the quote characters are all ASCII, so
 * scanning bytes and scanning runes find the same lines.
 *
 * strconv.Unquote is a parameter: it maps a quoted string to Some(value),
 * or to None when the quoting is malformed.
 */
module GoMod {
  import opened Wrappers
  import opened GoStrings

  /** Whether "//" starts at index i of s. */
  predicate SlashSlashAt(s: string, i: int)
  {
    0 <= i && i + 1 < |s| && s[i] == '/' && s[i + 1] == '/'
  }

  /** The index of the first "//" in s, as bytes.Index. */
  function IndexOfSlashSlash(s: string): (r: Option<nat>)
    ensures r.Some? ==> SlashSlashAt(s, r.value) && forall j :: 0 <= j < r.value ==> !SlashSlashAt(s, j)
    ensures r.None? ==> forall j :: 0 <= j < |s| ==> !SlashSlashAt(s, j)
    decreases |s|
  {
    if |s| < 2 then None
    else if s[0] == '/' && s[1] == '/' then Some(0)
    else match IndexOfSlashSlash(s[1..])
      case None =>
        assert forall j :: 1 <= j < |s| ==> (SlashSlashAt(s, j) <==> SlashSlashAt(s[1..], j - 1));
        None
      case Some(i) =>
        assert forall j :: 1 <= j < |s| ==> (SlashSlashAt(s, j) <==> SlashSlashAt(s[1..], j - 1));
        Some(i + 1)
  }

  const ModuleKeyword := "module"

  /** What one line of go.mod says about the module path. */
  datatype LineVerdict =
    | Skip                 // not a module directive: go on with the next line
    | Found(path: string)  // the module path
    | Malformed            // a quoted path that does not unquote: give up

  /** The line cut at its first "//". */
  function CutComment(line: string): (r: string)
    ensures |r| <= |line| && r == line[..|r|]
    ensures forall j :: 0 <= j < |r| ==> !SlashSlashAt(r, j)
  {
    match IndexOfSlashSlash(line)
    case None => line
    case Some(i) =>
      assert forall j :: 0 <= j < i ==> (SlashSlashAt(line[..i], j) ==> SlashSlashAt(line, j));
      line[..i]
  }

  /** The body of the loop of ModulePath, for one line. */
  function ClassifyLine(line: string, unquote: string -> Option<string>): LineVerdict
  {
    ClassifyDirective(TrimSpace(CutComment(line)), unquote)
  }

  /** A trimmed line without its comment: does it start with "module"? */
  function ClassifyDirective(trimmed: string, unquote: string -> Option<string>): LineVerdict
  {
    if !HasPrefix(trimmed, ModuleKeyword) then Skip
    else ClassifyArgument(trimmed[|ModuleKeyword|..], unquote)
  }

  /** What follows "module": white space, then a path or a quoted path. */
  function ClassifyArgument(rest: string, unquote: string -> Option<string>): LineVerdict
  {
    var path := TrimSpace(rest);
    if |path| == |rest| || |path| == 0 then Skip
    else if path[0] == '"' || path[0] == '`' then
      match unquote(path)
      case None => Malformed
      case Some(p) => Found(p)
    else Found(path)
  }

  /** The first line of mod, and what follows its newline. */
  function SplitLine(mod: string): (r: (string, string))
    requires mod != []
    ensures |r.1| < |mod|
    ensures '\n' !in r.0
    ensures r.1 == [] ==> r.0 == mod || r.0 + "\n" == mod
    ensures r.1 != [] ==> r.0 + "\n" + r.1 == mod
  {
    match IndexOf(mod, '\n')
    case None => (mod, [])
    case Some(i) =>
      assert mod[..i] + "\n" + mod[i + 1..] == mod;
      (mod[..i], mod[i + 1..])
  }

  /** The module path named in mod, or "" when there is none. */
  function ModulePathOf(mod: string, unquote: string -> Option<string>): string
    decreases |mod|
  {
    if mod == [] then ""
    else
      var (line, rest) := SplitLine(mod);
      match ClassifyLine(line, unquote)
      case Skip => ModulePathOf(rest, unquote)
      case Found(p) => p
      case Malformed => ""
  }

  /** ModulePath: scans the lines of mod in order. */
  method ModulePath(mod: string, unquote: string -> Option<string>) returns (p: string)
    ensures p == ModulePathOf(mod, unquote)
  {
    var rem := mod;
    while |rem| > 0
      invariant ModulePathOf(rem, unquote) == ModulePathOf(mod, unquote)
      decreases |rem|
    {
      ModulePathStep(rem, unquote);
      var line, next := ReadLine(rem);
      var verdict := ReadDirective(line, unquote);
      match verdict
      case Skip =>
        rem := next;
      case Found(path) =>
        return path;
      case Malformed =>
        return "";
    }
    return "";
  }

  /** The head of the loop: the line up to its newline, and the text after it. */
  method ReadLine(rem: string) returns (line: string, next: string)
    requires rem != []
    ensures (line, next) == SplitLine(rem)
  {
    line := rem;
    next := [];
    var nl := IndexOf(line, '\n');
    if nl.Some? {
      line, next := line[..nl.value], line[nl.value + 1..];
    }
  }

  /**
   * The rest of the loop body: cut the comment, trim, and look for
   * "module"; ReadArgument reads what follows it.
   */
  method ReadDirective(line: string, unquote: string -> Option<string>) returns (verdict: LineVerdict)
    ensures verdict == ClassifyLine(line, unquote)
  {
    var text := line;
    var slashes := IndexOfSlashSlash(text);
    if slashes.Some? {
      text := text[..slashes.value];
    }
    assert text == CutComment(line);
    text := TrimSpace(text);
    if !HasPrefix(text, ModuleKeyword) {
      return Skip;
    }
    verdict := ReadArgument(text[|ModuleKeyword|..], unquote);
  }

  /** What follows "module": it must start with white space and hold a path. */
  method ReadArgument(rest: string, unquote: string -> Option<string>) returns (verdict: LineVerdict)
    ensures verdict == ClassifyArgument(rest, unquote)
  {
    var n := |rest|;
    var text := TrimSpace(rest);
    if |text| == n || |text| == 0 {
      return Skip;
    }
    if text[0] == '"' || text[0] == '`' {
      var unquoted := unquote(text);
      if unquoted.None? {
        return Malformed;
      }
      return Found(unquoted.value);
    }
    return Found(text);
  }

  /** One line of the scan: its verdict decides, or the scan goes on. */
  lemma ModulePathStep(mod: string, unquote: string -> Option<string>)
    requires mod != []
    ensures ModulePathOf(mod, unquote) ==
      match ClassifyLine(SplitLine(mod).0, unquote)
      case Skip => ModulePathOf(SplitLine(mod).1, unquote)
      case Found(p) => p
      case Malformed => ""
  {
  }

  // -----------------------------------------------------------------------
  // Properties
  // -----------------------------------------------------------------------

  /** A go.mod text without any module directive names no module. */
  lemma EmptyModIsEmpty(unquote: string -> Option<string>)
    ensures ModulePathOf("", unquote) == ""
  {
  }

  /**
   * The scan stops at the first line that is not skipped: a line that is
   * skipped passes the decision to the rest of the text, a found path is
   * the answer whatever follows, and a malformed quoted path gives "".
   */
  lemma FirstDirectiveDecides(line: string, rest: string, unquote: string -> Option<string>)
    requires '\n' !in line
    ensures ModulePathOf(line + "\n" + rest, unquote) ==
      match ClassifyLine(line, unquote)
      case Skip => ModulePathOf(rest, unquote)
      case Found(p) => p
      case Malformed => ""
  {
    var mod := line + "\n" + rest;
    assert mod[..|line|] == line;
    IndexOfFirst(mod, '\n', |line|);
    assert mod[|line| + 1..] == rest;
  }

  /** The last line of the text need not end in a newline. */
  lemma LastLineDecides(line: string, unquote: string -> Option<string>)
    requires line != [] && '\n' !in line
    ensures ModulePathOf(line, unquote) ==
      match ClassifyLine(line, unquote)
      case Skip => ""
      case Found(p) => p
      case Malformed => ""
  {
  }

  /**
   * A word glued to "module" ("modulex ...") is not a module directive, and
   * neither is a bare "module".
   */
  lemma KeywordMustBeFollowedBySpace(line: string, unquote: string -> Option<string>)
    requires var trimmed := TrimSpace(CutComment(line));
      HasPrefix(trimmed, ModuleKeyword)
      && (|trimmed| == |ModuleKeyword| || !IsSpace(trimmed[|ModuleKeyword|]))
    ensures ClassifyLine(line, unquote) == Skip
  {
    var trimmed := TrimSpace(CutComment(line));
    var rest := trimmed[|ModuleKeyword|..];
    if rest != [] {
      assert rest[0] == trimmed[|ModuleKeyword|];
      assert TrimLeft(rest) == rest;
    }
  }

  /** Lines that do not start with "module" after trimming are skipped. */
  lemma OtherLinesSkipped(line: string, unquote: string -> Option<string>)
    requires !HasPrefix(TrimSpace(CutComment(line)), ModuleKeyword)
    ensures ClassifyLine(line, unquote) == Skip
  {
  }

  /** What "module", white space and a path trim down to. */
  lemma DirectiveParts(ws: string, path: string, unquote: string -> Option<string>)
    requires ws != [] && forall i :: 0 <= i < |ws| ==> IsSpace(ws[i])
    requires Trimmed(path)
    requires forall j :: 0 <= j < |path| ==> !SlashSlashAt(path, j)
    ensures ClassifyLine(ModuleKeyword + ws + path, unquote) == ClassifyArgument(ws + path, unquote)
    ensures TrimSpace(ws + path) == path
  {
    var line := ModuleKeyword + ws + path;
    NoSlashSlash(ws, path);
    assert CutComment(line) == line;
    assert line[0] == 'm' && line[|line| - 1] == path[|path| - 1];
    TrimmedIsFixed(line);
    assert line[..|ModuleKeyword|] == ModuleKeyword;
    assert line[|ModuleKeyword|..] == ws + path;
    TrimLeftOfSpaces(ws, path);
    assert TrimRight(path) == path;
  }

  lemma NoSlashSlash(ws: string, path: string)
    requires ws != [] && forall i :: 0 <= i < |ws| ==> IsSpace(ws[i])
    requires forall j :: 0 <= j < |path| ==> !SlashSlashAt(path, j)
    ensures forall j :: 0 <= j < |ModuleKeyword + ws + path| ==> !SlashSlashAt(ModuleKeyword + ws + path, j)
  {
    var head := ModuleKeyword + ws;
    var line := head + path;
    assert forall i :: 0 <= i < |head| ==> head[i] != '/';
    forall j | 0 <= j < |line|
      ensures !SlashSlashAt(line, j)
    {
      if j >= |head| {
        assert SlashSlashAt(line, j) ==> SlashSlashAt(path, j - |head|);
      } else {
        assert line[j] == head[j];
      }
    }
  }

  /**
   * The directive "module", white space, an unquoted path: the line gives
   * back exactly that path.
   */
  lemma DirectiveGivesPath(ws: string, path: string, unquote: string -> Option<string>)
    requires ws != [] && forall i :: 0 <= i < |ws| ==> IsSpace(ws[i])
    requires Trimmed(path) && path[0] != '"' && path[0] != '`'
    requires forall j :: 0 <= j < |path| ==> !SlashSlashAt(path, j)
    ensures ClassifyLine(ModuleKeyword + ws + path, unquote) == Found(path)
  {
    DirectiveParts(ws, path, unquote);
    var rest := ws + path;
    assert ClassifyLine(ModuleKeyword + ws + path, unquote) == ClassifyArgument(rest, unquote);
    assert TrimSpace(rest) == path;
    assert |path| < |rest|;
    assert ClassifyArgument(rest, unquote) == Found(path);
  }

  /**
   * A quoted path is passed to Unquote: its value is the module path, and
   * a failure gives "" and ends the scan.
   */
  lemma QuotedDirective(ws: string, quoted: string, unquote: string -> Option<string>)
    requires ws != [] && forall i :: 0 <= i < |ws| ==> IsSpace(ws[i])
    requires Trimmed(quoted) && (quoted[0] == '"' || quoted[0] == '`')
    requires forall j :: 0 <= j < |quoted| ==> !SlashSlashAt(quoted, j)
    ensures ClassifyLine(ModuleKeyword + ws + quoted, unquote) ==
      match unquote(quoted)
      case None => Malformed
      case Some(p) => Found(p)
  {
    DirectiveParts(ws, quoted, unquote);
  }

  /** Neither a newline nor "//" anywhere in s. */
  predicate Clean(s: string)
  {
    '\n' !in s && forall j :: 0 <= j < |s| ==> !SlashSlashAt(s, j)
  }

  lemma CleanSlice(s: string, a: nat, b: nat)
    requires a <= b <= |s| && Clean(s)
    ensures Clean(s[a..b])
  {
    var t := s[a..b];
    forall j | 0 <= j < |t|
      ensures t[j] != '\n' && !SlashSlashAt(t, j)
    {
      assert t[j] == s[a + j];
      assert SlashSlashAt(t, j) ==> SlashSlashAt(s, a + j);
    }
  }

  /** The text after "module" on a line, when the line starts with it. */
  function ArgumentOf(line: string): (r: Option<string>)
    ensures r.Some? <==> HasPrefix(TrimSpace(CutComment(line)), ModuleKeyword)
  {
    var trimmed := TrimSpace(CutComment(line));
    if HasPrefix(trimmed, ModuleKeyword) then Some(trimmed[|ModuleKeyword|..]) else None
  }

  lemma ClassifyByArgument(line: string, unquote: string -> Option<string>)
    ensures ClassifyLine(line, unquote) ==
      match ArgumentOf(line)
      case None => Skip
      case Some(rest) => ClassifyArgument(rest, unquote)
  {
  }

  /**
   * An unquoted path found after "module" is non-empty, has no white space
   * at either end, and holds no "//" and no newline.
   */
  lemma FoundPathShape(line: string, rest: string, unquote: string -> Option<string>)
    requires '\n' !in line
    requires ArgumentOf(line) == Some(rest)
    requires var path := TrimSpace(rest);
      path != [] && |path| < |rest| && path[0] != '"' && path[0] != '`'
    ensures ClassifyLine(line, unquote) == Found(TrimSpace(rest))
    ensures Trimmed(TrimSpace(rest))
    ensures Clean(TrimSpace(rest))
  {
    ClassifyByArgument(line, unquote);
    ArgumentGivesPath(rest, unquote);
    ArgumentClean(line);
    TrimSpaceClean(rest);
  }

  lemma ArgumentGivesPath(rest: string, unquote: string -> Option<string>)
    requires var path := TrimSpace(rest);
      path != [] && |path| < |rest| && path[0] != '"' && path[0] != '`'
    ensures ClassifyArgument(rest, unquote) == Found(TrimSpace(rest))
  {
  }

  lemma ArgumentClean(line: string)
    requires '\n' !in line
    requires ArgumentOf(line).Some?
    ensures Clean(ArgumentOf(line).value)
  {
    var cut := CutComment(line);
    CutCommentClean(line);
    var trimmed := TrimSpace(cut);
    TrimSpaceClean(cut);
    CleanSlice(trimmed, |ModuleKeyword|, |trimmed|);
    assert trimmed[|ModuleKeyword|..|trimmed|] == ArgumentOf(line).value;
  }

  lemma CutCommentClean(line: string)
    requires '\n' !in line
    ensures Clean(CutComment(line))
  {
    var cut := CutComment(line);
    assert forall x :: x in cut ==> x in line;
  }

  lemma TrimSpaceClean(s: string)
    requires Clean(s)
    ensures Clean(TrimSpace(s))
  {
    var left := TrimLeft(s);
    CleanSlice(s, |s| - |left|, |s|);
    assert s[|s| - |left|..|s|] == left;
    CleanSlice(left, 0, |TrimRight(left)|);
  }
}
