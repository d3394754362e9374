/**
 * The identifier case converter of module/utils.go: a five-state automaton
 * that makes one left-to-right pass over the runes of an identifier.
 *
 * The model separates what the automaton decides from what it writes. The
 * pure function Scan runs the transitions and produces a sequence of Emit
 * events (which rune is written, and in which role); Render applies a
 * CaseTranslator to those events. The class Processor is the imperative
 * form of the Go processor, and its Convert method is proved to write
 * exactly Render(tr, Trace(...)).
 *
 * Character classes are those of ASCII: a rune outside ASCII is neither a
 * letter nor a number here.
 */
module CaseConversion {

  // ---------------------------------------------------------------------
  // Character classes and case mappings (ASCII)
  // ---------------------------------------------------------------------

  predicate IsUpper(c: char) { 'A' <= c <= 'Z' }
  predicate IsLower(c: char) { 'a' <= c <= 'z' }
  predicate IsNumber(c: char) { '0' <= c <= '9' }
  predicate IsLetter(c: char) { IsUpper(c) || IsLower(c) }

  /** A rune that belongs to a word: a letter or a number. */
  predicate IsWord(c: char) { IsLetter(c) || IsNumber(c) }

  function ToUpper(c: char): (r: char)
    ensures IsLower(c) ==> IsUpper(r) && r as int == c as int - 32
    ensures !IsLower(c) ==> r == c
  {
    if IsLower(c) then (c as int - 32) as char else c
  }

  function ToLower(c: char): (r: char)
    ensures IsUpper(c) ==> IsLower(r) && r as int == c as int + 32
    ensures !IsUpper(c) ==> r == c
  {
    if IsUpper(c) then (c as int + 32) as char else c
  }

  /** The two rune mappings a translator can use. */
  datatype CaseMap = Lower | Upper

  function Apply(m: CaseMap, c: char): (r: char)
    ensures IsWord(r) <==> IsWord(c)
    ensures m == Upper && IsLetter(c) ==> IsUpper(r)
    ensures m == Lower && IsLetter(c) ==> IsLower(r)
  {
    match m
    case Lower => ToLower(c)
    case Upper => ToUpper(c)
  }

  /** The zero rune: "no separator" and "nothing buffered" in the source. */
  const NUL: char := 0 as char

  /**
   * What to write for the first letter of the identifier, for the other
   * letters of a word, for the first letter of every later word, and the
   * separator written before a later word (NUL for none).
   */
  datatype CaseTranslator = CaseTranslator(
    firstLetter: CaseMap,
    letterInWord: CaseMap,
    firstLetterOfWord: CaseMap,
    separator: char)

  const CamelTranslator := CaseTranslator(Lower, Lower, Upper, NUL)
  const PascalTranslator := CaseTranslator(Upper, Lower, Upper, NUL)

  function LowerTranslator(separator: char): CaseTranslator
  {
    CaseTranslator(Lower, Lower, Lower, separator)
  }

  // ---------------------------------------------------------------------
  // The automaton
  // ---------------------------------------------------------------------

  datatype State =
    | Initial
    | ExpectFollowingSmallLetter
    | InConsecutiveCapitals
    | InWord
    | SeekForNextWord

  /** The automaton's state: the state proper and the one-rune look-behind. */
  datatype Config = Config(state: State, buffered: char)

  const Init := Config(Initial, NUL)

  /**
   * One write of the automaton, before translation: the first letter of
   * the identifier, a letter inside a word, the first letter of a later
   * word (preceded by the separator), or a rune written untranslated
   * (flushRuneBuffer).
   */
  datatype Emit = First(c: char) | InWordLetter(c: char) | NewWord(c: char) | Raw(c: char)

  datatype ScanResult = ScanResult(cfg: Config, emits: seq<Emit>)

  /** The state after a word starts with rune r (firstLetter, foundNewWord). */
  function AfterWordStart(r: char): State
  {
    if IsUpper(r) then ExpectFollowingSmallLetter else InWord
  }

  /** What charInWord writes for a buffered rune, if there is one. */
  function Pending(b: char): seq<Emit>
  {
    if b != NUL then [InWordLetter(b)] else []
  }

  /** What flushRuneBuffer writes. */
  function Flushed(b: char): seq<Emit>
  {
    if b != NUL then [Raw(b)] else []
  }

  /** One iteration of the loop in convert, for rune r. */
  function Step(cfg: Config, r: char): ScanResult
  {
    match cfg.state
    case Initial =>
      if IsWord(r) then ScanResult(Config(AfterWordStart(r), cfg.buffered), [First(r)])
      else ScanResult(cfg, [])
    case ExpectFollowingSmallLetter =>
      if IsWord(r) then
        if IsUpper(r) then ScanResult(Config(InConsecutiveCapitals, r), Pending(cfg.buffered))
        else ScanResult(Config(InWord, cfg.buffered), Flushed(cfg.buffered) + [InWordLetter(r)])
      else ScanResult(Config(SeekForNextWord, NUL), Pending(cfg.buffered))
    case InConsecutiveCapitals =>
      if IsWord(r) then
        if IsUpper(r) || IsNumber(r) then ScanResult(Config(InConsecutiveCapitals, r), Pending(cfg.buffered))
        else ScanResult(Config(InWord, NUL), [NewWord(cfg.buffered), InWordLetter(r)])
      else ScanResult(Config(SeekForNextWord, NUL), Pending(cfg.buffered))
    case InWord =>
      if IsWord(r) then
        if IsUpper(r) then ScanResult(Config(AfterWordStart(r), cfg.buffered), [NewWord(r)])
        else ScanResult(cfg, [InWordLetter(r)])
      else ScanResult(Config(SeekForNextWord, cfg.buffered), [])
    case SeekForNextWord =>
      if IsWord(r) then ScanResult(Config(AfterWordStart(r), cfg.buffered), [NewWord(r)])
      else ScanResult(cfg, [])
  }

  /** The loop of convert over all of s, from configuration c0. */
  function Scan(c0: Config, s: string): ScanResult
    decreases |s|
  {
    if s == [] then ScanResult(c0, [])
    else
      var prev := Scan(c0, s[..|s| - 1]);
      var next := Step(prev.cfg, s[|s| - 1]);
      ScanResult(next.cfg, prev.emits + next.emits)
  }

  /** Everything convert writes: the loop, then the end-of-input flush. */
  function Trace(c0: Config, s: string): seq<Emit>
  {
    var sc := Scan(c0, s);
    sc.emits + Pending(sc.cfg.buffered)
  }

  // ---------------------------------------------------------------------
  // Rendering through a translator
  // ---------------------------------------------------------------------

  function Piece(tr: CaseTranslator, e: Emit): string
  {
    match e
    case First(c) => [Apply(tr.firstLetter, c)]
    case InWordLetter(c) => [Apply(tr.letterInWord, c)]
    case NewWord(c) =>
      (if tr.separator != NUL then [tr.separator] else []) + [Apply(tr.firstLetterOfWord, c)]
    case Raw(c) => [c]
  }

  function Render(tr: CaseTranslator, es: seq<Emit>): string
    decreases |es|
  {
    if es == [] then [] else Piece(tr, es[0]) + Render(tr, es[1..])
  }

  /** The string convert returns on a fresh processor. */
  function ConvertOf(tr: CaseTranslator, s: string): string
  {
    Render(tr, Trace(Init, s))
  }

  function CamelOf(s: string): string { ConvertOf(CamelTranslator, s) }
  function PascalOf(s: string): string { ConvertOf(PascalTranslator, s) }
  function SnakeOf(s: string): string { ConvertOf(LowerTranslator('_'), s) }

  /**
   * Concatenation is associative. Dafny knows this; the lemma is kept so the
   * proof of Convert regroups its buffer in one step instead of searching
   * for it, which stays within the resource limit on every solver seed.
   */
  lemma AppendAssoc(a: string, b: string, c: string)
    ensures a + b + c == a + (b + c)
  {
  }

  /** Scanning one more rune is one more Step. */
  lemma ScanSnoc(c0: Config, s: string, i: nat)
    requires i < |s|
    ensures Scan(c0, s[..i + 1]).cfg == Step(Scan(c0, s[..i]).cfg, s[i]).cfg
    ensures Scan(c0, s[..i + 1]).emits == Scan(c0, s[..i]).emits + Step(Scan(c0, s[..i]).cfg, s[i]).emits
  {
    assert s[..i + 1][..i] == s[..i];
  }

  lemma {:induction false} RenderAppend(tr: CaseTranslator, a: seq<Emit>, b: seq<Emit>)
    ensures Render(tr, a + b) == Render(tr, a) + Render(tr, b)
    decreases |a|
  {
    if a == [] {
      assert a + b == b;
    } else {
      assert (a + b)[1..] == a[1..] + b;
      RenderAppend(tr, a[1..], b);
    }
  }

  // ---------------------------------------------------------------------
  // Properties of the automaton
  // ---------------------------------------------------------------------

  /**
   * The look-behind rune is set exactly in state InConsecutiveCapitals,
   * and then it is an upper-case letter or a digit.
   */
  predicate BufferInv(c: Config)
  {
    && (c.buffered != NUL <==> c.state == InConsecutiveCapitals)
    && (c.state == InConsecutiveCapitals ==> IsUpper(c.buffered) || IsNumber(c.buffered))
  }

  lemma {:induction false} ScanKeepsBufferInv(c0: Config, s: string)
    requires BufferInv(c0)
    ensures BufferInv(Scan(c0, s).cfg)
    decreases |s|
  {
    if s != [] {
      ScanKeepsBufferInv(c0, s[..|s| - 1]);
    }
  }

  /** The word runes of s (letters and digits), in order. */
  function WordRunes(s: string): (w: string)
    ensures forall i :: 0 <= i < |w| ==> IsWord(w[i])
    decreases |s|
  {
    if s == [] then []
    else WordRunes(s[..|s| - 1]) + (if IsWord(s[|s| - 1]) then [s[|s| - 1]] else [])
  }

  /** The runes the events write, before translation. */
  function Runes(es: seq<Emit>): (w: string)
    ensures |w| == |es| && forall i :: 0 <= i < |es| ==> w[i] == es[i].c
  {
    seq(|es|, i requires 0 <= i < |es| => es[i].c)
  }

  /** The first event, and only the first, is First; no rune is written raw. */
  ghost predicate WellFormedTrace(es: seq<Emit>)
  {
    forall i :: 0 <= i < |es| ==> !es[i].Raw? && (es[i].First? <==> i == 0)
  }

  /** What holds after scanning s from the initial configuration. */
  ghost predicate Reached(s: string, sc: ScanResult)
  {
    && BufferInv(sc.cfg)
    && (sc.cfg.state == Initial <==> WordRunes(s) == [])
    && (sc.cfg.state != Initial ==> |sc.emits| > 0)
    && Runes(sc.emits) + Runes(Pending(sc.cfg.buffered)) == WordRunes(s)
    && WellFormedTrace(sc.emits)
  }

  /** Runes distributes over concatenation. */
  lemma RunesAppend(a: seq<Emit>, b: seq<Emit>)
    ensures Runes(a + b) == Runes(a) + Runes(b)
  {
  }

  /** One Step keeps Reached, the rune being appended to the input. */
  lemma ReachedStep(s: string, prev: ScanResult, r: char)
    requires Reached(s, prev)
    ensures var next := Step(prev.cfg, r);
      Reached(s + [r], ScanResult(next.cfg, prev.emits + next.emits))
  {
    var next := Step(prev.cfg, r);
    assert (s + [r])[..|s|] == s;
    assert WordRunes(s + [r]) == WordRunes(s) + (if IsWord(r) then [r] else []);
    RunesAppend(prev.emits, next.emits);
    if prev.cfg.state == Initial {
      assert Runes(prev.emits) == [];
    }
    var all := prev.emits + next.emits;
    assert WellFormedTrace(all) by {
      forall i | 0 <= i < |all| ensures !all[i].Raw? && (all[i].First? <==> i == 0) {
        if i >= |prev.emits| {
          assert all[i] == next.emits[i - |prev.emits|];
        }
      }
    }
  }

  lemma {:induction false} ScanReached(s: string)
    ensures Reached(s, Scan(Init, s))
    decreases |s|
  {
    if s != [] {
      var t := s[..|s| - 1];
      ScanReached(t);
      ReachedStep(t, Scan(Init, t), s[|s| - 1]);
      assert t + [s[|s| - 1]] == s;
    }
  }

  /**
   * Every letter and digit of s is written exactly once, in input order, and
   * nothing else is written: the first through First, every later one as a
   * letter inside a word or as the first letter of a later word.
   */
  lemma WordsWrittenOnce(s: string)
    ensures Runes(Trace(Init, s)) == WordRunes(s)
    ensures WellFormedTrace(Trace(Init, s))
  {
    ScanReached(s);
    var sc := Scan(Init, s);
    assert Runes(sc.emits + Pending(sc.cfg.buffered)) == Runes(sc.emits) + Runes(Pending(sc.cfg.buffered));
  }

  /**
   * Without a separator, or without later words, every event writes
   * exactly one rune.
   */
  lemma {:induction false} RenderWithoutSeparator(tr: CaseTranslator, es: seq<Emit>)
    requires tr.separator == NUL || forall i :: 0 <= i < |es| ==> !es[i].NewWord?
    ensures |Render(tr, es)| == |es|
    ensures forall i :: 0 <= i < |es| ==> Render(tr, es)[i] == Piece(tr, es[i])[0]
    decreases |es|
  {
    if es != [] {
      RenderWithoutSeparator(tr, es[1..]);
      var out := Render(tr, es);
      forall i | 0 <= i < |es|
        ensures out[i] == Piece(tr, es[i])[0]
      {
        if i > 0 {
          assert out[i] == Render(tr, es[1..])[i - 1];
          assert es[1..][i - 1] == es[i];
        }
      }
    }
  }

  /**
   * Converting without a separator writes one rune per word rune of s: the
   * first through firstLetter, each later one through letterInWord or
   * firstLetterOfWord. In particular the result is empty exactly when s has
   * no letters or digits.
   */
  lemma ConvertWithoutSeparator(tr: CaseTranslator, s: string)
    requires tr.separator == NUL
    ensures |ConvertOf(tr, s)| == |WordRunes(s)|
    ensures |WordRunes(s)| > 0 ==> ConvertOf(tr, s)[0] == Apply(tr.firstLetter, WordRunes(s)[0])
    ensures forall i :: 0 < i < |WordRunes(s)| ==>
              ConvertOf(tr, s)[i] == Apply(tr.letterInWord, WordRunes(s)[i])
              || ConvertOf(tr, s)[i] == Apply(tr.firstLetterOfWord, WordRunes(s)[i])
  {
    var es := Trace(Init, s);
    WordsWrittenOnce(s);
    RenderWithoutSeparator(tr, es);
  }

  /**
   * Pascal and Camel forms have the same length and agree everywhere except
   * at index 0, where they differ only in case.
   */
  lemma PascalCamelDifferOnlyAtFirst(s: string)
    ensures |PascalOf(s)| == |CamelOf(s)| == |WordRunes(s)|
    ensures forall i :: 0 < i < |PascalOf(s)| ==> PascalOf(s)[i] == CamelOf(s)[i]
    ensures |PascalOf(s)| > 0 ==>
              PascalOf(s)[0] == ToUpper(CamelOf(s)[0]) && CamelOf(s)[0] == ToLower(PascalOf(s)[0])
    ensures |WordRunes(s)| > 0 && IsLetter(WordRunes(s)[0]) ==>
              IsUpper(PascalOf(s)[0]) && IsLower(CamelOf(s)[0])
  {
    var es := Trace(Init, s);
    WordsWrittenOnce(s);
    RenderWithoutSeparator(PascalTranslator, es);
    RenderWithoutSeparator(CamelTranslator, es);
    forall i | 0 < i < |es|
      ensures PascalOf(s)[i] == CamelOf(s)[i]
    {
      assert !es[i].First?;
    }
  }

  /** Removes every occurrence of sep. */
  function Without(out: string, sep: char): (r: string)
    ensures forall i :: 0 <= i < |r| ==> r[i] != sep
    decreases |out|
  {
    if out == [] then []
    else (if out[0] == sep then [] else [out[0]]) + Without(out[1..], sep)
  }

  lemma {:induction false} WithoutAppend(a: string, b: string, sep: char)
    ensures Without(a + b, sep) == Without(a, sep) + Without(b, sep)
    decreases |a|
  {
    if a == [] {
      assert a + b == b;
    } else {
      assert (a + b)[0] == a[0];
      assert (a + b)[1..] == a[1..] + b;
      WithoutAppend(a[1..], b, sep);
    }
  }

  /** Every separator in out has a word rune right after it. */
  ghost predicate SeparatorFollowed(out: string, sep: char)
  {
    forall i :: 0 <= i < |out| && out[i] == sep ==> i + 1 < |out| && IsWord(out[i + 1])
  }

  /** Every separator in out after index 0 has a word rune right before it. */
  ghost predicate SeparatorPreceded(out: string, sep: char)
  {
    forall i :: 0 < i < |out| && out[i] == sep ==> IsWord(out[i - 1])
  }

  /**
   * With a separator that is not a word rune, every separator written is
   * followed by a word rune and preceded by one unless it is first; a trace
   * that does not start with a later word does not start with the separator.
   */
  lemma {:induction false} RenderSeparators(tr: CaseTranslator, es: seq<Emit>)
    requires !IsWord(tr.separator)
    requires forall i :: 0 <= i < |es| ==> IsWord(es[i].c)
    ensures SeparatorFollowed(Render(tr, es), tr.separator)
    ensures SeparatorPreceded(Render(tr, es), tr.separator)
    ensures |es| > 0 && !es[0].NewWord? ==> |Render(tr, es)| > 0 && IsWord(Render(tr, es)[0])
    decreases |es|
  {
    if es != [] {
      var sep := tr.separator;
      var p := Piece(tr, es[0]);
      var rest := Render(tr, es[1..]);
      RenderSeparators(tr, es[1..]);
      assert SeparatorFollowed(rest, sep) && SeparatorPreceded(rest, sep);
      var out := Render(tr, es);
      assert out == p + rest;
      PieceShape(tr, es[0]);
      forall i | 0 <= i < |out| && out[i] == sep
        ensures i + 1 < |out| && IsWord(out[i + 1])
      {
        if i >= |p| {
          var j := i - |p|;
          assert rest[j] == out[i] == sep;
          assert j + 1 < |rest|;
          assert out[i + 1] == rest[j + 1];
        } else {
          assert out[i] == p[i];
          assert i == 0 && |p| == 2;
          assert out[1] == p[1];
        }
      }
      assert forall i :: 0 < i < |p| ==> out[i] == p[i] && p[i] != sep;
      forall i | 0 < i < |out| && out[i] == sep
        ensures IsWord(out[i - 1])
      {
        if i > |p| {
          var j := i - |p|;
          assert rest[j] == out[i] == sep;
          assert out[i - 1] == rest[j - 1];
        } else if i == |p| {
          assert out[i - 1] == p[|p| - 1];
        }
      }
    }
  }

  /** A piece is one word rune, or the separator and then one word rune. */
  lemma PieceShape(tr: CaseTranslator, e: Emit)
    requires !IsWord(tr.separator) && IsWord(e.c)
    ensures var p := Piece(tr, e);
      || (|p| == 1 && IsWord(p[0]) && (e.NewWord? ==> tr.separator == NUL))
      || (|p| == 2 && e.NewWord? && p[0] == tr.separator && IsWord(p[1]))
  {
  }

  /** Removing the separators leaves one translated rune per event. */
  lemma {:induction false} RenderWithoutSeparators(tr: CaseTranslator, es: seq<Emit>)
    requires !IsWord(tr.separator)
    requires forall i :: 0 <= i < |es| ==> IsWord(es[i].c)
    ensures |Without(Render(tr, es), tr.separator)| == |es|
    decreases |es|
  {
    if es != [] {
      var sep := tr.separator;
      var p := Piece(tr, es[0]);
      RenderWithoutSeparators(tr, es[1..]);
      WithoutAppend(p, Render(tr, es[1..]), sep);
      assert |Without(p, sep)| == 1 by {
        if |p| == 2 {
          assert p[1..][1..] == [];
        }
      }
    }
  }

  /**
   * Snake form never starts or ends with '_' and never holds "__"; removing
   * the underscores leaves exactly one rune per letter or digit of s.
   */
  lemma SnakeSeparators(s: string)
    ensures var out := SnakeOf(s);
      && (forall i :: 0 <= i < |out| && out[i] == '_' ==> 0 < i < |out| - 1 && out[i - 1] != '_' && out[i + 1] != '_')
      && |Without(out, '_')| == |WordRunes(s)|
  {
    TraceRunesAreWords(s);
    RenderSeparators(LowerTranslator('_'), Trace(Init, s));
    RenderWithoutSeparators(LowerTranslator('_'), Trace(Init, s));
    WordsWrittenOnce(s);
  }

  lemma TraceRunesAreWords(s: string)
    ensures forall i :: 0 <= i < |Trace(Init, s)| ==> IsWord(Trace(Init, s)[i].c)
  {
    var es := Trace(Init, s);
    WordsWrittenOnce(s);
    forall i | 0 <= i < |es| ensures IsWord(es[i].c) {
      assert Runes(es)[i] == es[i].c;
    }
  }

  // ---------------------------------------------------------------------
  // Worked examples
  // ---------------------------------------------------------------------

  /** The events the automaton writes for "HTTPServer". */
  lemma TraceHttpServer()
    ensures Trace(Init, "HTTPServer") == [First('H'), InWordLetter('T'), InWordLetter('T'), InWordLetter('P'), NewWord('S'), InWordLetter('e'), InWordLetter('r'), InWordLetter('v'), InWordLetter('e'), InWordLetter('r')]
  {
    assert "H"[..0] == [];
    assert Scan(Init, "H") == ScanResult(Config(ExpectFollowingSmallLetter, NUL), [First('H')]);
    assert "HT"[..1] == "H";
    assert Scan(Init, "HT") == ScanResult(Config(InConsecutiveCapitals, 'T'), [First('H')]);
    assert "HTT"[..2] == "HT";
    assert Scan(Init, "HTT") == ScanResult(Config(InConsecutiveCapitals, 'T'), [First('H'), InWordLetter('T')]);
    assert "HTTP"[..3] == "HTT";
    assert Scan(Init, "HTTP") == ScanResult(Config(InConsecutiveCapitals, 'P'), [First('H'), InWordLetter('T'), InWordLetter('T')]);
    assert "HTTPS"[..4] == "HTTP";
    assert Scan(Init, "HTTPS") == ScanResult(Config(InConsecutiveCapitals, 'S'), [First('H'), InWordLetter('T'), InWordLetter('T'), InWordLetter('P')]);
    assert "HTTPSe"[..5] == "HTTPS";
    assert Scan(Init, "HTTPSe") == ScanResult(Config(InWord, NUL), [First('H'), InWordLetter('T'), InWordLetter('T'), InWordLetter('P'), NewWord('S'), InWordLetter('e')]);
    assert "HTTPSer"[..6] == "HTTPSe";
    assert Scan(Init, "HTTPSer") == ScanResult(Config(InWord, NUL), [First('H'), InWordLetter('T'), InWordLetter('T'), InWordLetter('P'), NewWord('S'), InWordLetter('e'), InWordLetter('r')]);
    assert "HTTPServ"[..7] == "HTTPSer";
    assert Scan(Init, "HTTPServ") == ScanResult(Config(InWord, NUL), [First('H'), InWordLetter('T'), InWordLetter('T'), InWordLetter('P'), NewWord('S'), InWordLetter('e'), InWordLetter('r'), InWordLetter('v')]);
    assert "HTTPServe"[..8] == "HTTPServ";
    assert Scan(Init, "HTTPServe") == ScanResult(Config(InWord, NUL), [First('H'), InWordLetter('T'), InWordLetter('T'), InWordLetter('P'), NewWord('S'), InWordLetter('e'), InWordLetter('r'), InWordLetter('v'), InWordLetter('e')]);
    assert "HTTPServer"[..9] == "HTTPServe";
    assert Scan(Init, "HTTPServer") == ScanResult(Config(InWord, NUL), [First('H'), InWordLetter('T'), InWordLetter('T'), InWordLetter('P'), NewWord('S'), InWordLetter('e'), InWordLetter('r'), InWordLetter('v'), InWordLetter('e'), InWordLetter('r')]);
  }

  /** What any translator makes of "HTTPServer", in three pieces: the acronym, the new word's first letter, the rest. */
  lemma HttpServerPieces(tr: CaseTranslator, s: string)
    requires Trace(Init, s) == [First('H'), InWordLetter('T'), InWordLetter('T'), InWordLetter('P'), NewWord('S'), InWordLetter('e'), InWordLetter('r'), InWordLetter('v'), InWordLetter('e'), InWordLetter('r')]
    ensures ConvertOf(tr, s) ==
      Render(tr, [First('H'), InWordLetter('T'), InWordLetter('T'), InWordLetter('P')]) + Render(tr, [NewWord('S')]) + Render(tr, [InWordLetter('e'), InWordLetter('r'), InWordLetter('v'), InWordLetter('e'), InWordLetter('r')])
  {
    var e0 := [First('H'), InWordLetter('T'), InWordLetter('T'), InWordLetter('P')];
    var e1 := [NewWord('S')];
    var e2 := [InWordLetter('e'), InWordLetter('r'), InWordLetter('v'), InWordLetter('e'), InWordLetter('r')];
    assert Trace(Init, s) == e0 + e1 + e2;
    RenderAppend(tr, e0, e1);
    RenderAppend(tr, e0 + e1, e2);
  }

  lemma PascalHttpServerPieces()
    ensures Render(PascalTranslator, [First('H'), InWordLetter('T'), InWordLetter('T'), InWordLetter('P')]) == "Http"
    ensures Render(PascalTranslator, [NewWord('S')]) == "S"
    ensures Render(PascalTranslator, [InWordLetter('e'), InWordLetter('r'), InWordLetter('v'), InWordLetter('e'), InWordLetter('r')]) == "erver"
  {
    var e0 := [First('H'), InWordLetter('T'), InWordLetter('T'), InWordLetter('P')];
    var e2 := [InWordLetter('e'), InWordLetter('r'), InWordLetter('v'), InWordLetter('e'), InWordLetter('r')];
    assert Render(PascalTranslator, e0) == "Http" by {
      RenderWithoutSeparator(PascalTranslator, e0);
      assert Render(PascalTranslator, e0)[0] == 'H';
      assert Render(PascalTranslator, e0)[1] == 't';
      assert Render(PascalTranslator, e0)[2] == 't';
      assert Render(PascalTranslator, e0)[3] == 'p';
    }
    assert Render(PascalTranslator, [NewWord('S')]) == Piece(PascalTranslator, NewWord('S')) + Render(PascalTranslator, []);
    assert Render(PascalTranslator, e2) == "erver" by {
      RenderWithoutSeparator(PascalTranslator, e2);
      assert Render(PascalTranslator, e2)[0] == 'e';
      assert Render(PascalTranslator, e2)[1] == 'r';
      assert Render(PascalTranslator, e2)[2] == 'v';
      assert Render(PascalTranslator, e2)[3] == 'e';
      assert Render(PascalTranslator, e2)[4] == 'r';
    }
  }

  /** Acronym run, Pascal form: only the last capital of "HTTP" + "Server" starts the next word. */
  lemma PascalHttpServer()
    ensures PascalOf("HTTPServer") == "HttpServer"
  {
    TraceHttpServer();
    HttpServerPieces(PascalTranslator, "HTTPServer");
    PascalHttpServerPieces();
    assert "Http" + "S" + "erver" == "HttpServer";
  }

  lemma CamelHttpServerPieces()
    ensures Render(CamelTranslator, [First('H'), InWordLetter('T'), InWordLetter('T'), InWordLetter('P')]) == "http"
    ensures Render(CamelTranslator, [NewWord('S')]) == "S"
    ensures Render(CamelTranslator, [InWordLetter('e'), InWordLetter('r'), InWordLetter('v'), InWordLetter('e'), InWordLetter('r')]) == "erver"
  {
    var e0 := [First('H'), InWordLetter('T'), InWordLetter('T'), InWordLetter('P')];
    var e2 := [InWordLetter('e'), InWordLetter('r'), InWordLetter('v'), InWordLetter('e'), InWordLetter('r')];
    assert Render(CamelTranslator, e0) == "http" by {
      RenderWithoutSeparator(CamelTranslator, e0);
      assert Render(CamelTranslator, e0)[0] == 'h';
      assert Render(CamelTranslator, e0)[1] == 't';
      assert Render(CamelTranslator, e0)[2] == 't';
      assert Render(CamelTranslator, e0)[3] == 'p';
    }
    assert Render(CamelTranslator, [NewWord('S')]) == Piece(CamelTranslator, NewWord('S')) + Render(CamelTranslator, []);
    assert Render(CamelTranslator, e2) == "erver" by {
      RenderWithoutSeparator(CamelTranslator, e2);
      assert Render(CamelTranslator, e2)[0] == 'e';
      assert Render(CamelTranslator, e2)[1] == 'r';
      assert Render(CamelTranslator, e2)[2] == 'v';
      assert Render(CamelTranslator, e2)[3] == 'e';
      assert Render(CamelTranslator, e2)[4] == 'r';
    }
  }

  /** Acronym run, Camel form. */
  lemma CamelHttpServer()
    ensures CamelOf("HTTPServer") == "httpServer"
  {
    TraceHttpServer();
    HttpServerPieces(CamelTranslator, "HTTPServer");
    CamelHttpServerPieces();
    assert "http" + "S" + "erver" == "httpServer";
  }

  lemma SnakeHttpServerPieces()
    ensures Render(LowerTranslator('_'), [First('H'), InWordLetter('T'), InWordLetter('T'), InWordLetter('P')]) == "http"
    ensures Render(LowerTranslator('_'), [NewWord('S')]) == "_s"
    ensures Render(LowerTranslator('_'), [InWordLetter('e'), InWordLetter('r'), InWordLetter('v'), InWordLetter('e'), InWordLetter('r')]) == "erver"
  {
    var e0 := [First('H'), InWordLetter('T'), InWordLetter('T'), InWordLetter('P')];
    var e2 := [InWordLetter('e'), InWordLetter('r'), InWordLetter('v'), InWordLetter('e'), InWordLetter('r')];
    assert Render(LowerTranslator('_'), e0) == "http" by {
      RenderWithoutSeparator(LowerTranslator('_'), e0);
      assert Render(LowerTranslator('_'), e0)[0] == 'h';
      assert Render(LowerTranslator('_'), e0)[1] == 't';
      assert Render(LowerTranslator('_'), e0)[2] == 't';
      assert Render(LowerTranslator('_'), e0)[3] == 'p';
    }
    assert Render(LowerTranslator('_'), [NewWord('S')]) == Piece(LowerTranslator('_'), NewWord('S')) + Render(LowerTranslator('_'), []);
    assert Render(LowerTranslator('_'), e2) == "erver" by {
      RenderWithoutSeparator(LowerTranslator('_'), e2);
      assert Render(LowerTranslator('_'), e2)[0] == 'e';
      assert Render(LowerTranslator('_'), e2)[1] == 'r';
      assert Render(LowerTranslator('_'), e2)[2] == 'v';
      assert Render(LowerTranslator('_'), e2)[3] == 'e';
      assert Render(LowerTranslator('_'), e2)[4] == 'r';
    }
  }

  /** Acronym run, Snake form. */
  lemma SnakeHttpServer()
    ensures SnakeOf("HTTPServer") == "http_server"
  {
    TraceHttpServer();
    HttpServerPieces(LowerTranslator('_'), "HTTPServer");
    SnakeHttpServerPieces();
    assert "http" + "_s" + "erver" == "http_server";
  }

  /** The events the automaton writes for "A_B". */
  lemma TraceAUnderscoreB()
    ensures Trace(Init, "A_B") == [First('A'), NewWord('B')]
  {
    assert "A"[..0] == [];
    assert Scan(Init, "A") == ScanResult(Config(ExpectFollowingSmallLetter, NUL), [First('A')]);
    assert "A_"[..1] == "A";
    assert Scan(Init, "A_") == ScanResult(Config(SeekForNextWord, NUL), [First('A')]);
    assert "A_B"[..2] == "A_";
    assert Scan(Init, "A_B") == ScanResult(Config(ExpectFollowingSmallLetter, NUL), [First('A'), NewWord('B')]);
  }

  /** Two one-letter words: the Pascal form is "AB". */
  lemma PascalOfAUnderscoreB()
    ensures PascalOf("A_B") == "AB"
  {
    TraceAUnderscoreB();
    var e0 := [First('A')];
    var e1 := [NewWord('B')];
    assert Render(PascalTranslator, [First('A'), NewWord('B')]) == "AB" by {
      assert [First('A'), NewWord('B')] == e0 + e1;
      assert Render(PascalTranslator, e0) == "A" by {
        RenderWithoutSeparator(PascalTranslator, e0);
        assert Render(PascalTranslator, e0)[0] == 'A';
      }
      assert Render(PascalTranslator, e1) == "B" by {
        assert Render(PascalTranslator, e1) == Piece(PascalTranslator, NewWord('B')) + Render(PascalTranslator, []);
      }
      RenderAppend(PascalTranslator, e0, e1);
      assert "A" + "B" == "AB";
    }
  }

  /** The events the automaton writes for "AB". */
  lemma TraceAB()
    ensures Trace(Init, "AB") == [First('A'), InWordLetter('B')]
  {
    assert "A"[..0] == [];
    assert Scan(Init, "A") == ScanResult(Config(ExpectFollowingSmallLetter, NUL), [First('A')]);
    assert "AB"[..1] == "A";
    assert Scan(Init, "AB") == ScanResult(Config(InConsecutiveCapitals, 'B'), [First('A')]);
  }

  /** Two capitals read as one acronym word: the Pascal form is "Ab". */
  lemma PascalOfAB()
    ensures PascalOf("AB") == "Ab"
  {
    TraceAB();
    var e0 := [First('A'), InWordLetter('B')];
    assert Render(PascalTranslator, [First('A'), InWordLetter('B')]) == "Ab" by {
      assert [First('A'), InWordLetter('B')] == e0;
      assert Render(PascalTranslator, e0) == "Ab" by {
        RenderWithoutSeparator(PascalTranslator, e0);
        assert Render(PascalTranslator, e0)[0] == 'A';
        assert Render(PascalTranslator, e0)[1] == 'b';
      }
      assert "Ab" == "Ab";
    }
  }


  /**
   * Converting to Pascal form is not idempotent: "A_B" becomes "AB", which
   * the automaton then reads as one two-letter acronym.
   */
  lemma PascalNotIdempotent()
    ensures PascalOf(PascalOf("A_B")) != PascalOf("A_B")
  {
    PascalOfAUnderscoreB();
    PascalOfAB();
  }

  // ---------------------------------------------------------------------
  // The processor class
  // ---------------------------------------------------------------------

  /** The Go processor: state, look-behind rune, output buffer, translator. */
  class Processor {
    var state: State
    var buffer: string
    const tr: CaseTranslator
    var bufferedRune: char

    function Cfg(): Config
      reads this
    {
      Config(state, bufferedRune)
    }

    /** The look-behind invariant of the automaton, on this processor. */
    predicate Valid()
      reads this
    {
      BufferInv(Cfg())
    }

    /** NewProcessor. */
    constructor (t: CaseTranslator)
      ensures state == Initial && buffer == [] && tr == t && bufferedRune == NUL
      ensures Valid()
    {
      state := Initial;
      buffer := [];
      tr := t;
      bufferedRune := NUL;
    }

    method WriteRune(r: char)
      modifies this`buffer
      ensures buffer == old(buffer) + [r]
    {
      buffer := buffer + [r];
    }

    method FlushRuneBuffer()
      modifies this`buffer
      ensures buffer == old(buffer) + Render(tr, Flushed(bufferedRune))
    {
      if bufferedRune != NUL {
        WriteRune(bufferedRune);
      }
    }

    method PutCharInRuneBuffer(r: char)
      modifies this`buffer, this`bufferedRune
      ensures buffer == old(buffer) + Render(tr, Pending(old(bufferedRune)))
      ensures bufferedRune == r
    {
      if bufferedRune != NUL {
        CharInWord(bufferedRune);
      }
      bufferedRune := r;
    }

    method FirstLetter(r: char)
      modifies this`buffer, this`state
      ensures buffer == old(buffer) + Render(tr, [First(r)])
      ensures state == AfterWordStart(r)
    {
      WriteRune(Apply(tr.firstLetter, r));
      if IsUpper(r) {
        state := ExpectFollowingSmallLetter;
      } else {
        state := InWord;
      }
    }

    method FoundNewWord(r: char)
      modifies this`buffer, this`state
      ensures buffer == old(buffer) + Render(tr, [NewWord(r)])
      ensures state == AfterWordStart(r)
    {
      if tr.separator != NUL {
        WriteRune(tr.separator);
      }
      WriteRune(Apply(tr.firstLetterOfWord, r));
      if IsUpper(r) {
        state := ExpectFollowingSmallLetter;
      } else {
        state := InWord;
      }
    }

    method CharInWord(r: char)
      modifies this`buffer
      ensures buffer == old(buffer) + Render(tr, [InWordLetter(r)])
    {
      WriteRune(Apply(tr.letterInWord, r));
    }

    /** One iteration of the loop of convert. */
    method StepRune(r: char)
      modifies this`buffer, this`state, this`bufferedRune
      ensures Cfg() == Step(old(Cfg()), r).cfg
      ensures buffer == old(buffer) + Render(tr, Step(old(Cfg()), r).emits)
    {
      var isNumber := IsNumber(r);
      var isWord := IsLetter(r) || isNumber;
      match state {
        case Initial =>
          if isWord {
            FirstLetter(r);
          }
        case ExpectFollowingSmallLetter =>
          if isWord {
            if IsUpper(r) {
              PutCharInRuneBuffer(r);
              state := InConsecutiveCapitals;
            } else {
              FlushRuneBuffer();
              CharInWord(r);
              state := InWord;
              RenderAppend(tr, Flushed(bufferedRune), [InWordLetter(r)]);
            }
          } else {
            PutCharInRuneBuffer(NUL);
            state := SeekForNextWord;
          }
        case InConsecutiveCapitals =>
          if isWord {
            if IsUpper(r) || isNumber {
              PutCharInRuneBuffer(r);
            } else {
              FoundNewWord(bufferedRune);
              bufferedRune := NUL;
              CharInWord(r);
              state := InWord;
              RenderAppend(tr, [NewWord(old(bufferedRune))], [InWordLetter(r)]);
            }
          } else {
            PutCharInRuneBuffer(NUL);
            state := SeekForNextWord;
          }
        case InWord =>
          if isWord {
            if IsUpper(r) {
              FoundNewWord(r);
            } else {
              CharInWord(r);
            }
          } else {
            state := SeekForNextWord;
          }
        case SeekForNextWord =>
          if isWord {
            FoundNewWord(r);
          }
      }
    }

    /**
     * convert: one pass over s, then the end-of-input flush. The runes
     * written are those of Trace(old configuration, s); the configuration
     * afterwards is that of Scan (the flush does not clear bufferedRune).
     */
    method Convert(s: string) returns (r: string)
      modifies this`buffer, this`state, this`bufferedRune
      ensures Cfg() == Scan(old(Cfg()), s).cfg
      ensures buffer == old(buffer) + Render(tr, Trace(old(Cfg()), s))
      ensures r == buffer
      ensures old(Valid()) ==> Valid()
    {
      if Valid() {
        ScanKeepsBufferInv(Cfg(), s);
      }
      ghost var c0 := Cfg();
      ghost var b0 := buffer;
      for i := 0 to |s|
        invariant Cfg() == Scan(c0, s[..i]).cfg
        invariant buffer == b0 + Render(tr, Scan(c0, s[..i]).emits)
      {
        ghost var before := Scan(c0, s[..i]);
        ghost var next := Step(before.cfg, s[i]);
        StepRune(s[i]);
        ScanSnoc(c0, s, i);
        RenderAppend(tr, before.emits, next.emits);
        AppendAssoc(b0, Render(tr, before.emits), Render(tr, next.emits));
      }
      assert s[..|s|] == s;
      ghost var sc := Scan(c0, s);
      ghost var body := buffer;
      if bufferedRune != NUL {
        CharInWord(bufferedRune);
      }
      assert buffer == body + Render(tr, Pending(sc.cfg.buffered));
      RenderAppend(tr, sc.emits, Pending(sc.cfg.buffered));
      AppendAssoc(b0, Render(tr, sc.emits), Render(tr, Pending(sc.cfg.buffered)));
      r := buffer;
    }
  }

  method NewLowerProcessor(separator: char) returns (p: Processor)
    ensures fresh(p)
    ensures p.tr == LowerTranslator(separator) && p.Cfg() == Init && p.buffer == []
  {
    p := new Processor(LowerTranslator(separator));
  }

  method Camel(s: string) returns (r: string)
    ensures r == CamelOf(s)
  {
    var p := new Processor(CamelTranslator);
    r := p.Convert(s);
  }

  method Pascal(s: string) returns (r: string)
    ensures r == PascalOf(s)
  {
    var p := new Processor(PascalTranslator);
    r := p.Convert(s);
  }

  method Snake(s: string) returns (r: string)
    ensures r == SnakeOf(s)
  {
    var p := NewLowerProcessor('_');
    r := p.Convert(s);
  }
}
