/**
 * GetErrWithLinesNumber of module/utils.go: it reads the text of an error
 * line by line with bufio.Scanner (split function ScanLines), numbers every
 * line after the first as "1. ", "2. ", ..., ends each line with "\n" and
 * adds one more "\n" at the end. A nil error stays nil, modelled as None.
 */
module ErrLines {
  import opened Wrappers
  import opened GoStrings

  // -----------------------------------------------------------------------
  // strconv.Itoa on non-negative numbers
  // -----------------------------------------------------------------------

  predicate IsDigit(c: char)
  {
    '0' <= c <= '9'
  }

  predicate AllDigits(s: string)
  {
    forall i :: 0 <= i < |s| ==> IsDigit(s[i])
  }

  function Digit(d: nat): (c: char)
    requires d < 10
    ensures IsDigit(c) && c as int - '0' as int == d
  {
    ('0' as int + d) as char
  }

  /** The decimal representation of n, without leading zeros. */
  function Itoa(n: nat): (r: string)
    ensures r != [] && AllDigits(r)
    ensures r[0] == '0' <==> n == 0
    decreases n
  {
    if n < 10 then [Digit(n)] else Itoa(n / 10) + [Digit(n % 10)]
  }

  /** The number a string of digits denotes (strconv.Atoi on digits). */
  function DecimalValue(s: string): nat
    requires AllDigits(s)
  {
    if s == [] then 0
    else DecimalValue(s[..|s| - 1]) * 10 + (s[|s| - 1] as int - '0' as int)
  }

  /** Itoa loses nothing: reading the digits back gives the number. */
  lemma {:induction false} ItoaRoundTrip(n: nat)
    ensures DecimalValue(Itoa(n)) == n
    decreases n
  {
    if n >= 10 {
      var s := Itoa(n / 10);
      assert (s + [Digit(n % 10)])[..|s|] == s;
      ItoaRoundTrip(n / 10);
    }
  }

  /** Distinct line numbers are written differently. */
  lemma ItoaInjective(m: nat, n: nat)
    requires Itoa(m) == Itoa(n)
    ensures m == n
  {
    ItoaRoundTrip(m);
    ItoaRoundTrip(n);
  }

  // -----------------------------------------------------------------------
  // bufio.Scanner with bufio.ScanLines
  // -----------------------------------------------------------------------

  /** bufio.dropCR: one carriage return at the end of a line is dropped. */
  function DropCR(s: string): string
  {
    if s != [] && s[|s| - 1] == '\r' then s[..|s| - 1] else s
  }

  /** One call of ScanLines: the next token, and the input after it. */
  function NextLine(s: string): (r: (string, string))
    requires s != []
    ensures |r.1| < |s|
    ensures '\n' !in r.0
  {
    match IndexOf(s, '\n')
    case None => (DropCR(s), [])
    case Some(i) => (DropCR(s[..i]), s[i + 1..])
  }

  /** The tokens a Scanner hands out for s, up to the end of the input. */
  function Lines(s: string): (r: seq<string>)
    ensures forall i :: 0 <= i < |r| ==> '\n' !in r[i]
    decreases |s|
  {
    if s == [] then [] else [NextLine(s).0] + Lines(NextLine(s).1)
  }

  lemma LinesStep(s: string)
    requires s != []
    ensures Lines(s) == [NextLine(s).0] + Lines(NextLine(s).1)
  {
  }

  /**
   * Concatenation is associative. Dafny knows this; the lemma is kept so the
   * proofs below regroup a concatenation in one step instead of searching
   * for it, which stays within the resource limit on every solver seed.
   */
  lemma ConcatAssoc<T>(a: seq<T>, b: seq<T>, c: seq<T>)
    ensures (a + b) + c == a + (b + c)
  {
  }

  /** A line that ScanLines gives back unchanged when "\n" follows it. */
  predicate PlainLine(t: string)
  {
    '\n' !in t && (t == [] || t[|t| - 1] != '\r')
  }

  /** Each line followed by "\n". */
  function Terminated(ls: seq<string>): string
  {
    if ls == [] then "" else ls[0] + "\n" + Terminated(ls[1..])
  }

  /** A line without "\n" followed by "\n" is one token, with a final "\r" dropped. */
  lemma LinesCons(t: string, rest: string)
    requires '\n' !in t
    ensures Lines(t + "\n" + rest) == [DropCR(t)] + Lines(rest)
  {
    var s := t + "\n" + rest;
    assert s[..|t|] == t;
    IndexOfFirst(s, '\n', |t|);
    assert s[|t| + 1..] == rest;
  }

  /** Splitting lines undoes terminating them. */
  lemma {:induction false} LinesOfTerminated(ls: seq<string>, rest: string)
    requires forall i :: 0 <= i < |ls| ==> PlainLine(ls[i])
    ensures Lines(Terminated(ls) + rest) == ls + Lines(rest)
  {
    if ls != [] {
      var head := ls[0] + "\n";
      var tail := Terminated(ls[1..]) + rest;
      assert Terminated(ls) == head + Terminated(ls[1..]);
      ConcatAssoc(head, Terminated(ls[1..]), rest);
      assert PlainLine(ls[0]);
      LinesCons(ls[0], tail);
      assert DropCR(ls[0]) == ls[0];
      LinesOfTerminated(ls[1..], rest);
      assert ls == [ls[0]] + ls[1..];
      ConcatAssoc([ls[0]], ls[1..], Lines(rest));
    } else {
      assert Terminated(ls) + rest == rest;
    }
  }

  /** Whatever carriage returns they end in, terminated lines read back as as many tokens. */
  lemma {:induction false} LineCountOfTerminated(ls: seq<string>, rest: string)
    requires forall i :: 0 <= i < |ls| ==> '\n' !in ls[i]
    ensures |Lines(Terminated(ls) + rest)| == |ls| + |Lines(rest)|
  {
    if ls != [] {
      var head := ls[0] + "\n";
      var tail := Terminated(ls[1..]) + rest;
      assert Terminated(ls) == head + Terminated(ls[1..]);
      ConcatAssoc(head, Terminated(ls[1..]), rest);
      LinesCons(ls[0], tail);
      LineCountOfTerminated(ls[1..], rest);
    } else {
      assert Terminated(ls) + rest == rest;
    }
  }

  // -----------------------------------------------------------------------
  // The numbering
  // -----------------------------------------------------------------------

  /** "k. " for k > 0; the first line has no number. */
  function LinePrefix(k: nat): (r: string)
    ensures k == 0 ==> r == []
    ensures k > 0 ==> r == Itoa(k) + ". "
  {
    if k > 0 then Itoa(k) + ". " else ""
  }

  /** The lines ls, numbered from k. */
  function PrefixedFrom(ls: seq<string>, k: nat): (r: seq<string>)
    ensures |r| == |ls|
    ensures forall i :: 0 <= i < |ls| ==> r[i] == LinePrefix(k + i) + ls[i]
  {
    seq(|ls|, i requires 0 <= i < |ls| => LinePrefix(k + i) + ls[i])
  }

  /** Numbering one more line extends the numbered lines by it. */
  lemma PrefixedSnoc(ls: seq<string>, t: string, k: nat)
    ensures PrefixedFrom(ls + [t], k) == PrefixedFrom(ls, k) + [LinePrefix(k + |ls|) + t]
  {
    var l := PrefixedFrom(ls + [t], k);
    var r := PrefixedFrom(ls, k) + [LinePrefix(k + |ls|) + t];
    forall i | 0 <= i < |l|
      ensures l[i] == r[i]
    {
      assert (ls + [t])[i] == if i < |ls| then ls[i] else t;
    }
  }

  /** Terminating one more line appends it and its newline. */
  lemma {:induction false} TerminatedSnoc(ls: seq<string>, t: string)
    ensures Terminated(ls + [t]) == Terminated(ls) + t + "\n"
  {
    if ls == [] {
      assert ls + [t] == [t];
      assert Terminated([t]) == t + "\n" + "";
    } else {
      var head := ls[0] + "\n";
      assert (ls + [t])[0] == ls[0];
      assert (ls + [t])[1..] == ls[1..] + [t];
      TerminatedSnoc(ls[1..], t);
      assert Terminated(ls + [t]) == head + (Terminated(ls[1..]) + t + "\n");
    }
  }

  /** The text GetErrWithLinesNumber gives for an error, None for nil. */
  function FormatErr(err: Option<string>): (r: Option<string>)
    ensures r.None? <==> err.None?
  {
    match err
    case None => None
    case Some(msg) => Some(Terminated(PrefixedFrom(Lines(msg), 0)) + "\n")
  }

  /** GetErrWithLinesNumber. */
  method GetErrWithLinesNumber(err: Option<string>) returns (r: Option<string>)
    ensures r == FormatErr(err)
  {
    if err.None? {
      return None;
    }
    var sb := "";
    var rem := err.value;
    var num: nat := 0;
    ghost var done: seq<string> := [];
    while |rem| > 0
      invariant Lines(err.value) == done + Lines(rem)
      invariant num == |done|
      invariant sb == Terminated(PrefixedFrom(done, 0))
      decreases |rem|
    {
      var (text, next) := NextLine(rem);
      ghost var before := sb;
      if num > 0 {
        sb := sb + Itoa(num);
        sb := sb + ". ";
      }
      assert sb == before + LinePrefix(num);
      sb := sb + text;
      sb := sb + "\n";
      assert sb == before + (LinePrefix(num) + text) + "\n";
      PrefixedSnoc(done, text, 0);
      TerminatedSnoc(PrefixedFrom(done, 0), LinePrefix(num) + text);
      LinesStep(rem);
      ConcatAssoc(done, [text], Lines(next));
      done := done + [text];
      num := num + 1;
      rem := next;
    }
    assert done == Lines(err.value);
    return Some(sb + "\n");
  }

  // -----------------------------------------------------------------------
  // Properties
  // -----------------------------------------------------------------------

  /** No line of msg keeps a carriage return at its end. */
  predicate NoTrailingCR(msg: string)
  {
    forall i :: 0 <= i < |Lines(msg)| ==> PlainLine(Lines(msg)[i])
  }

  /**
   * Reading the result back line by line gives the lines of the error, the
   * first as it was and line k (k > 0) behind "k. ", then one empty line.
   */
  lemma FormattedLines(msg: string)
    requires NoTrailingCR(msg)
    ensures var out := FormatErr(Some(msg)).value;
      Lines(out) == PrefixedFrom(Lines(msg), 0) + [""]
  {
    var ls := Lines(msg);
    var ps := PrefixedFrom(ls, 0);
    forall i | 0 <= i < |ps|
      ensures PlainLine(ps[i])
    {
      PrefixedPlain(i, ls[i]);
    }
    LinesOfTerminated(ps, "\n");
    assert Lines("\n") == [""] by {
      LinesCons("", "");
      assert "" + "\n" + "" == "\n";
    }
  }

  lemma PrefixedPlain(k: nat, t: string)
    requires PlainLine(t)
    ensures PlainLine(LinePrefix(k) + t)
  {
    PrefixNoNewline(k, t);
    var p := LinePrefix(k);
    if k > 0 {
      assert p[|p| - 1] == ' ';
      assert forall i :: 0 <= i < |p| ==> p[i] != '\n';
    }
    var s := p + t;
    if s != [] {
      assert s[|s| - 1] == if t == [] then p[|p| - 1] else t[|t| - 1];
    }
    assert forall i :: 0 <= i < |s| ==> s[i] == if i < |p| then p[i] else t[i - |p|];
  }

  /** A number in front of a line brings in no "\n". */
  lemma PrefixNoNewline(k: nat, t: string)
    requires '\n' !in t
    ensures '\n' !in LinePrefix(k) + t
  {
    var p := LinePrefix(k);
    if k > 0 {
      assert forall i :: 0 <= i < |p| ==> p[i] != '\n';
    }
    var s := p + t;
    assert forall i :: 0 <= i < |s| ==> s[i] == if i < |p| then p[i] else t[i - |p|];
  }

  /** The result has exactly one more line than the error, for every error text. */
  lemma FormattedLineCount(msg: string)
    ensures |Lines(FormatErr(Some(msg)).value)| == |Lines(msg)| + 1
  {
    var ls := Lines(msg);
    var ps := PrefixedFrom(ls, 0);
    forall i | 0 <= i < |ps|
      ensures '\n' !in ps[i]
    {
      PrefixNoNewline(i, ls[i]);
    }
    LineCountOfTerminated(ps, "\n");
    assert Lines("\n") == [""] by {
      LinesCons("", "");
      assert "" + "\n" + "" == "\n";
    }
  }

  /** The result always ends in an empty line. */
  lemma FormatEndsWithBlankLine(msg: string)
    ensures var out := FormatErr(Some(msg)).value;
      |out| >= 1 && out[|out| - 1] == '\n'
  {
  }
}
