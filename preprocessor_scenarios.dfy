/** The preprocessor on concrete inputs: the three places where it misbehaves as
    written, each next to the corrected behaviour, and its deliberate quirks. */
module PreprocessorScenarios {
  import opened Results
  import opened Lex
  import opened Preprocessor

  /** A state whose only frame is what remains of script from position k. */
  function At(script: seq<LexToken>, k: nat, ifdefs: seq<bool>, bol: bool, budget: nat): PState
    requires k <= |script|
  {
    PState([script[k..]], map[], ifdefs, bol, budget)
  }

  lemma ReadAt(script: seq<LexToken>, k: nat, ifdefs: seq<bool>, bol: bool, budget: nat)
    requires k < |script| && budget > 0 && script[k].tok != EOF
    ensures Read(At(script, k, ifdefs, bol, budget))
      == Ok((script[k], At(script, k + 1, ifdefs, bol, budget - 1)))
  {
    var frames := [script[k..]];
    assert frames[..1] == frames;
    assert script[k..] != [] && script[k..][0] == script[k];
    assert script[k..][1..] == script[k + 1..];
    assert Remaining(frames, 1) == 1;
    assert frames[0 := script[k + 1..]] == [script[k + 1..]];
  }

  /** Once every token is read, each further read gives EOF and changes nothing else. */
  lemma ReadEnd(st: PState)
    requires st.frames == [[]] && st.budget > 0
    ensures Read(st) == Ok((EndToken, st.(budget := st.budget - 1)))
  {
    assert st.frames[..1] == st.frames;
  }

  function Tok(t: Token, text: string): LexToken { LexToken(t, text) }

  function Word(text: string): LexToken { LexToken(Ident, text) }

  const Sharp: LexToken := LexToken(Punct('#'), "#")
  const NL: LexToken := LexToken(Newline, "\n")

  /** A step that delivers nothing leaves Next to continue from the state after it. */
  lemma Skip(v: Version, files: map<string, seq<Lexeme>>, st: PState, st': PState)
    requires NextStep(v, files, st) == Ok((None, st'))
    ensures NextToken(v, files, st) == NextToken(v, files, st')
  {
  }

  /** A step that delivers a token ends Next. */
  lemma Deliver(v: Version, files: map<string, seq<Lexeme>>, st: PState, x: LexToken, st': PState)
    requires NextStep(v, files, st) == Ok((Some(x), st'))
    ensures NextToken(v, files, st) == Ok((x, st'))
  {
  }

  // Steps of Input.Next on a script, with no macros defined.

  lemma DirectiveIfdef(v: Version, files: map<string, seq<Lexeme>>, st: PState)
    ensures Directive(v, files, "ifdef", st) == Preprocessor.Ifdef(true, st)
  {
    assert "ifdef" != "define" && "ifdef" != "else" && "ifdef" != "endif";
  }

  lemma DirectiveEndif(v: Version, files: map<string, seq<Lexeme>>, st: PState)
    ensures Directive(v, files, "endif", st) == Endif(st)
  {
    assert "endif" != "define" && "endif" != "else";
  }

  /** A directive at the start of a line that is interpreted ends the step with the
      directive's state, at the start of a line. */
  lemma DirectiveStep(v: Version, files: map<string, seq<Lexeme>>, word: string,
                      st: PState, st1: PState, st2: PState, st3: PState)
    requires Read(st) == Ok((Sharp, st1)) && st.bol
    requires Read(st1) == Ok((Word(word), st2))
    requires Including(v, st2.ifdefs) || PassesWhileSuppressed(v, word)
    requires Directive(v, files, word, st2) == Ok(st3)
    ensures NextStep(v, files, st) == Ok((None, st3.(bol := true)))
  {
  }

  /** "#ifdef name" with name undefined pushes false. */
  lemma IfdefUndefined(name: string, st: PState, st1: PState, st2: PState)
    requires Read(st) == Ok((Word(name), st1)) && Read(st1) == Ok((NL, st2))
    requires name !in st.macros
    ensures Preprocessor.Ifdef(true, st) == Ok(st2.(ifdefs := st2.ifdefs + [false]))
  {
  }

  /** "#endif" pops the innermost conditional. */
  lemma EndifPops(st: PState, st1: PState)
    requires Read(st) == Ok((NL, st1)) && st1.ifdefs != []
    ensures Endif(st) == Ok(st1.(ifdefs := st1.ifdefs[..|st1.ifdefs| - 1]))
  {
  }

  /** "#ifdef name" and its newline push false (name is undefined) when the directive is
      interpreted: always while enabled, and also while disabled once corrected. */
  lemma IfdefLine(v: Version, files: map<string, seq<Lexeme>>, script: seq<LexToken>, k: nat,
                  name: string, ifdefs: seq<bool>, budget: nat, st: PState, st': PState)
    requires k + 4 <= |script| && budget >= 4
    requires script[k..k + 4] == [Sharp, Word("ifdef"), Word(name), NL]
    requires Including(v, ifdefs) || v == Corrected
    requires st == At(script, k, ifdefs, true, budget)
    requires st' == At(script, k + 4, ifdefs + [false], true, budget - 4)
    ensures NextStep(v, files, st) == Ok((None, st'))
  {
    assert script[k] == Sharp && script[k + 1] == Word("ifdef");
    assert script[k + 2] == Word(name) && script[k + 3] == NL;
    assert PassesWhileSuppressed(Corrected, "ifdef");
    IfdefArgument(v, files, script, k + 2, name, ifdefs, budget - 2);
    DirectiveLine(v, files, script, k, "ifdef", ifdefs, budget, At(script, k + 4, ifdefs + [false], true, budget - 4));
  }

  /** `#` and a directive word at the start of a line, when the directive is
      interpreted and succeeds, end the step with its state at the start of a line. */
  lemma DirectiveLine(v: Version, files: map<string, seq<Lexeme>>, script: seq<LexToken>, k: nat,
                      word: string, ifdefs: seq<bool>, budget: nat, st3: PState)
    requires k + 2 <= |script| && budget >= 2
    requires script[k] == Sharp && script[k + 1] == Word(word)
    requires Including(v, ifdefs) || PassesWhileSuppressed(v, word)
    requires Directive(v, files, word, At(script, k + 2, ifdefs, true, budget - 2)) == Ok(st3)
    ensures NextStep(v, files, At(script, k, ifdefs, true, budget)) == Ok((None, st3.(bol := true)))
  {
    ReadAt(script, k, ifdefs, true, budget);
    ReadAt(script, k + 1, ifdefs, true, budget - 1);
    DirectiveStep(v, files, word, At(script, k, ifdefs, true, budget), At(script, k + 1, ifdefs, true, budget - 1),
                  At(script, k + 2, ifdefs, true, budget - 2), st3);
  }

  /** The name and newline after "#ifdef", the name undefined. */
  lemma IfdefArgument(v: Version, files: map<string, seq<Lexeme>>, script: seq<LexToken>, k: nat,
                      name: string, ifdefs: seq<bool>, budget: nat)
    requires k + 2 <= |script| && budget >= 2
    requires script[k] == Word(name) && script[k + 1] == NL
    ensures Directive(v, files, "ifdef", At(script, k, ifdefs, true, budget))
      == Ok(At(script, k + 2, ifdefs + [false], true, budget - 2))
  {
    var s2 := At(script, k, ifdefs, true, budget);
    var s3 := At(script, k + 1, ifdefs, true, budget - 1);
    var s4 := At(script, k + 2, ifdefs, true, budget - 2);
    ReadAt(script, k, ifdefs, true, budget);
    ReadAt(script, k + 1, ifdefs, true, budget - 1);
    IfdefUndefined(name, s2, s3, s4);
    DirectiveIfdef(v, files, s2);
  }

  /** "#endif" and its newline pop the conditional stack. */
  lemma EndifLine(v: Version, files: map<string, seq<Lexeme>>, script: seq<LexToken>, k: nat,
                  ifdefs: seq<bool>, budget: nat, st: PState, st': PState)
    requires k + 3 <= |script| && budget >= 3 && ifdefs != []
    requires script[k..k + 3] == [Sharp, Word("endif"), NL]
    requires st == At(script, k, ifdefs, true, budget)
    requires st' == At(script, k + 3, ifdefs[..|ifdefs| - 1], true, budget - 3)
    ensures NextStep(v, files, st) == Ok((None, st'))
  {
    assert script[k] == Sharp && script[k + 1] == Word("endif") && script[k + 2] == NL;
    var s1 := At(script, k + 1, ifdefs, true, budget - 1);
    var s2 := At(script, k + 2, ifdefs, true, budget - 2);
    var s3 := At(script, k + 3, ifdefs, true, budget - 3);
    assert PassesWhileSuppressed(v, "endif");
    ReadAt(script, k, ifdefs, true, budget);
    ReadAt(script, k + 1, ifdefs, true, budget - 1);
    ReadAt(script, k + 2, ifdefs, true, budget - 2);
    EndifPops(s2, s3);
    DirectiveEndif(v, files, s2);
    DirectiveStep(v, files, "endif", st, s1, s2, st'.(bol := s3.bol));
  }

  /** As written, "#ifdef" while disabled is skipped: the word is consumed and the rest
      of the line is read as ordinary (suppressed) input. */
  lemma SkippedIfdef(files: map<string, seq<Lexeme>>, script: seq<LexToken>, k: nat,
                     ifdefs: seq<bool>, budget: nat, st: PState, st': PState)
    requires k + 2 <= |script| && budget >= 2
    requires script[k] == Sharp && script[k + 1] == Word("ifdef")
    requires !Including(AsWritten, ifdefs)
    requires st == At(script, k, ifdefs, true, budget)
    requires st' == At(script, k + 2, ifdefs, false, budget - 2)
    ensures NextStep(AsWritten, files, st) == Ok((None, st'))
  {
    ReadAt(script, k, ifdefs, true, budget);
    ReadAt(script, k + 1, ifdefs, true, budget - 1);
  }

  /** An identifier that names no macro, or a newline, is suppressed while disabled. */
  lemma PlainSkipped(v: Version, files: map<string, seq<Lexeme>>, script: seq<LexToken>, k: nat,
                     ifdefs: seq<bool>, bol: bool, budget: nat, st: PState, st': PState)
    requires k < |script| && budget >= 1
    requires script[k].tok == Ident || script[k] == NL
    requires !Including(v, ifdefs)
    requires st == At(script, k, ifdefs, bol, budget)
    requires st' == At(script, k + 1, ifdefs, script[k] == NL, budget - 1)
    ensures NextStep(v, files, st) == Ok((None, st'))
  {
    ReadAt(script, k, ifdefs, bol, budget);
  }

  /** An identifier that names no macro, or a newline, is delivered while enabled. */
  lemma PlainDelivered(v: Version, files: map<string, seq<Lexeme>>, script: seq<LexToken>, k: nat,
                       ifdefs: seq<bool>, bol: bool, budget: nat, st: PState, st': PState)
    requires k < |script| && budget >= 1
    requires script[k].tok == Ident || script[k] == NL
    requires Including(v, ifdefs)
    requires st == At(script, k, ifdefs, bol, budget)
    requires st' == At(script, k + 1, ifdefs, script[k] == NL, budget - 1)
    ensures NextStep(v, files, st) == Ok((Some(script[k]), st'))
  {
    ReadAt(script, k, ifdefs, bol, budget);
  }

  // Finding: a nested conditional inside a disabled region.

  /** The lines "#ifdef X" / "#ifdef Y" / "#endif" / "A" / "#endif" at the head of a
      script, with neither X nor Y defined. */
  predicate NestedScript(script: seq<LexToken>) {
    && |script| >= 16
    && script[0..4] == [Sharp, Word("ifdef"), Word("X"), NL]
    && script[4..8] == [Sharp, Word("ifdef"), Word("Y"), NL]
    && script[8..11] == [Sharp, Word("endif"), NL]
    && script[11..13] == [Word("A"), NL]
    && script[13..16] == [Sharp, Word("endif"), NL]
  }

  /** As written, a disabled "#ifdef name" line leaves the conditional stack alone. */
  lemma SkippedIfdefLine(files: map<string, seq<Lexeme>>, script: seq<LexToken>, k: nat,
                         name: string, ifdefs: seq<bool>, budget: nat, st: PState, st': PState)
    requires k + 4 <= |script| && budget >= 4
    requires script[k..k + 4] == [Sharp, Word("ifdef"), Word(name), NL]
    requires !Including(AsWritten, ifdefs)
    requires st == At(script, k, ifdefs, true, budget)
    requires st' == At(script, k + 4, ifdefs, true, budget - 4)
    ensures NextToken(AsWritten, files, st) == NextToken(AsWritten, files, st')
  {
    assert script[k] == Sharp && script[k + 1] == Word("ifdef");
    assert script[k + 2] == Word(name) && script[k + 3] == NL;
    var s2 := At(script, k + 2, ifdefs, false, budget - 2);
    var s3 := At(script, k + 3, ifdefs, false, budget - 3);
    SkippedIfdef(files, script, k, ifdefs, budget, st, s2);
    PlainSkipped(AsWritten, files, script, k + 2, ifdefs, false, budget - 2, s2, s3);
    PlainSkipped(AsWritten, files, script, k + 3, ifdefs, false, budget - 3, s3, st');
    Skip(AsWritten, files, st, s2);
    Skip(AsWritten, files, s2, s3);
    Skip(AsWritten, files, s3, st');
  }

  /** As written, the first two lines leave only the outer conditional open. */
  lemma NestedHeadAsWritten(files: map<string, seq<Lexeme>>, script: seq<LexToken>, b: nat)
    requires NestedScript(script) && b >= 8
    ensures NextToken(AsWritten, files, At(script, 0, [], true, b))
      == NextToken(AsWritten, files, At(script, 8, [false], true, b - 8))
  {
    var s0 := At(script, 0, [], true, b);
    var s4 := At(script, 4, [false], true, b - 4);
    var s8 := At(script, 8, [false], true, b - 8);
    assert [] + [false] == [false];
    assert !Including(AsWritten, [false]);
    IfdefLine(AsWritten, files, script, 0, "X", [], b, s0, s4);
    Skip(AsWritten, files, s0, s4);
    SkippedIfdefLine(files, script, 4, "Y", [false], b - 4, s4, s8);
  }

  /** As written the inner #ifdef pushes nothing, so the inner #endif closes the outer
      conditional and A, which lies inside the undefined X, is delivered. */
  lemma NestedIfdefAsWritten(files: map<string, seq<Lexeme>>, script: seq<LexToken>, b: nat)
    requires NestedScript(script) && b >= 12
    ensures NextToken(AsWritten, files, At(script, 0, [], true, b))
      == Ok((Word("A"), At(script, 12, [], false, b - 12)))
  {
    var s8 := At(script, 8, [false], true, b - 8);
    var s11 := At(script, 11, [], true, b - 11);
    var s12 := At(script, 12, [], false, b - 12);
    assert [false][..0] == [];
    assert script[11] == script[11..13][0];
    EndifLine(AsWritten, files, script, 8, [false], b - 8, s8, s11);
    PlainDelivered(AsWritten, files, script, 11, [], true, b - 11, s11, s12);
    Skip(AsWritten, files, s8, s11);
    Deliver(AsWritten, files, s11, script[11], s12);
    NestedHeadAsWritten(files, script, b);
  }

  /** Corrected, the first three lines open and close the inner conditional. */
  lemma NestedHeadCorrected(files: map<string, seq<Lexeme>>, script: seq<LexToken>, b: nat)
    requires NestedScript(script) && b >= 11
    ensures NextToken(Corrected, files, At(script, 0, [], true, b))
      == NextToken(Corrected, files, At(script, 11, [false], true, b - 11))
  {
    var s0 := At(script, 0, [], true, b);
    var s4 := At(script, 4, [false], true, b - 4);
    var s8 := At(script, 8, [false, false], true, b - 8);
    var s11 := At(script, 11, [false], true, b - 11);
    assert [] + [false] == [false];
    assert [false] + [false] == [false, false];
    assert [false, false][..1] == [false];
    IfdefLine(Corrected, files, script, 0, "X", [], b, s0, s4);
    IfdefLine(Corrected, files, script, 4, "Y", [false], b - 4, s4, s8);
    EndifLine(Corrected, files, script, 8, [false, false], b - 8, s8, s11);
    Skip(Corrected, files, s0, s4);
    Skip(Corrected, files, s4, s8);
    Skip(Corrected, files, s8, s11);
  }

  /** Corrected, lines "A" and "#endif" inside the still disabled outer conditional are
      suppressed and close it. */
  lemma NestedTailCorrected(files: map<string, seq<Lexeme>>, script: seq<LexToken>, b: nat)
    requires NestedScript(script) && b >= 16
    ensures NextToken(Corrected, files, At(script, 11, [false], true, b - 11))
      == NextToken(Corrected, files, At(script, 16, [], true, b - 16))
  {
    var s11 := At(script, 11, [false], true, b - 11);
    var s12 := At(script, 12, [false], false, b - 12);
    var s13 := At(script, 13, [false], true, b - 13);
    var s16 := At(script, 16, [], true, b - 16);
    assert !Including(Corrected, [false]) by {
      assert [false][0] == false;
    }
    assert [false][..0] == [];
    assert script[11] == script[11..13][0] && script[12] == script[11..13][1];
    PlainSkipped(Corrected, files, script, 11, [false], true, b - 11, s11, s12);
    PlainSkipped(Corrected, files, script, 12, [false], false, b - 12, s12, s13);
    EndifLine(Corrected, files, script, 13, [false], b - 13, s13, s16);
    Skip(Corrected, files, s11, s12);
    Skip(Corrected, files, s12, s13);
    Skip(Corrected, files, s13, s16);
  }

  /** Corrected, the inner conditional is pushed and popped in turn, A is suppressed and,
      when nothing follows, the next token is the end of input. */
  lemma NestedIfdefCorrected(files: map<string, seq<Lexeme>>, script: seq<LexToken>, b: nat)
    requires NestedScript(script) && |script| == 16 && b >= 17
    ensures NextToken(Corrected, files, At(script, 0, [], true, b))
      == Ok((EndToken, PState([[]], map[], [], false, b - 17)))
  {
    var s0 := At(script, 0, [], true, b);
    var s11 := At(script, 11, [false], true, b - 11);
    var s16 := At(script, 16, [], true, b - 16);
    var end := PState([[]], map[], [], false, b - 17);
    assert script[16..] == [];
    assert s16.(budget := s16.budget - 1, bol := false) == end;
    SuppressedEndCorrected(files, s16);
    NestedTailCorrected(files, script, b);
    NestedHeadCorrected(files, script, b);
  }

  // Finding: end of input inside a disabled region.

  /** As written, once the input is exhausted inside a disabled region Next reads EOF
      again and again and never returns, whatever the budget. */
  lemma {:induction false} SuppressedEndAsWritten(files: map<string, seq<Lexeme>>, st: PState)
    requires st.frames == [[]] && !Including(AsWritten, st.ifdefs)
    ensures NextToken(AsWritten, files, st).Fail?
    decreases st.budget
  {
    if st.budget > 0 {
      ReadEnd(st);
      var st1 := st.(budget := st.budget - 1, bol := false);
      assert NextStep(AsWritten, files, st) == Ok((None, st1));
      SuppressedEndAsWritten(files, st1);
    }
  }

  /** Corrected, EOF is delivered even inside a disabled region. */
  lemma SuppressedEndCorrected(files: map<string, seq<Lexeme>>, st: PState)
    requires st.frames == [[]] && st.budget > 0
    ensures NextToken(Corrected, files, st) == Ok((EndToken, st.(budget := st.budget - 1, bol := false)))
  {
    ReadEnd(st);
  }

  /** "#ifdef X" as the last line, X undefined: as written Next never returns. */
  lemma UnterminatedIfdefAsWritten(files: map<string, seq<Lexeme>>, script: seq<LexToken>, budget: nat)
    requires |script| == 4 && script[0..4] == [Sharp, Word("ifdef"), Word("X"), NL] && budget >= 5
    ensures NextToken(AsWritten, files, At(script, 0, [], true, budget)).Fail?
  {
    assert script[4..] == [];
    var st := At(script, 4, [false], true, budget - 4);
    assert [] + [false] == [false];
    IfdefLine(AsWritten, files, script, 0, "X", [], budget, At(script, 0, [], true, budget), st);
    Skip(AsWritten, files, At(script, 0, [], true, budget), st);
    SuppressedEndAsWritten(files, st);
  }

  /** "#ifdef X" as the last line, X undefined: corrected, Next returns EOF. */
  lemma UnterminatedIfdefCorrected(files: map<string, seq<Lexeme>>, script: seq<LexToken>, budget: nat)
    requires |script| == 4 && script[0..4] == [Sharp, Word("ifdef"), Word("X"), NL] && budget >= 5
    ensures NextToken(Corrected, files, At(script, 0, [], true, budget))
      == Ok((EndToken, PState([[]], map[], [false], false, budget - 5)))
  {
    assert script[4..] == [];
    var st := At(script, 4, [false], true, budget - 4);
    assert st.(budget := st.budget - 1, bol := false) == PState([[]], map[], [false], false, budget - 5);
    assert [] + [false] == [false];
    IfdefLine(Corrected, files, script, 0, "X", [], budget, At(script, 0, [], true, budget), st);
    Skip(Corrected, files, At(script, 0, [], true, budget), st);
    SuppressedEndCorrected(files, st);
  }

  // Finding: a definition that runs into the end of input.

  /** As written the body of a definition ends only at a newline: at the end of input
      the loop reads EOF forever, whatever the budget. */
  lemma {:induction false} BodyAtEndAsWritten(name: string, tokens: seq<LexToken>, st: PState)
    requires st.frames == [[]]
    ensures Body(AsWritten, name, EndToken, tokens, st).Fail?
    decreases st.budget
  {
    if st.budget > 0 {
      ReadEnd(st);
      BodyAtEndAsWritten(name, tokens + [EndToken], st.(budget := st.budget - 1));
    }
  }

  /** "#define X y" as the last line, after '#define X': as written no budget suffices;
      corrected, X is defined as y. */
  lemma DefinitionAtEnd(script: seq<LexToken>, budget: nat)
    requires script == [Word("y")] && budget >= 2
    ensures Definition(AsWritten, "X", At(script, 0, [], true, budget)).Fail?
    ensures Definition(Corrected, "X", At(script, 0, [], true, budget))
      == Ok((([], [Word("y")]), PState([[]], map[], [], true, budget - 2)))
  {
    var s1 := At(script, 1, [], true, budget - 1);
    var s2 := PState([[]], map[], [], true, budget - 2);
    assert script[1..] == [];
    assert s1.(budget := budget - 2) == s2;
    assert [] + [Word("y")] == [Word("y")];
    ReadAt(script, 0, [], true, budget);
    ReadEnd(s1);
    BodyAtEndAsWritten("X", [Word("y")], s2);
    assert Body(AsWritten, "X", Word("y"), [], s1) == Body(AsWritten, "X", EndToken, [Word("y")], s2);
    assert Body(Corrected, "X", Word("y"), [], s1) == Ok(([Word("y")], s2));
  }

  // The relation between the two versions of the enabling test.

  /** Corrected is stricter: whatever it enables, the source enables; the two agree on a
      stack of at most one conditional. */
  lemma IncludingVersions(ifdefs: seq<bool>)
    ensures Including(Corrected, ifdefs) ==> Including(AsWritten, ifdefs)
    ensures |ifdefs| <= 1 ==> (Including(Corrected, ifdefs) <==> Including(AsWritten, ifdefs))
    ensures Including(AsWritten, ifdefs) <==> (ifdefs == [] || ifdefs[|ifdefs| - 1])
  {
    if ifdefs != [] && Including(Corrected, ifdefs) {
      assert ifdefs[|ifdefs| - 1];
    }
  }

  // Quirks of macro definition and invocation, as written.

  const Comma: LexToken := LexToken(Punct(','), ",")
  const LParen: LexToken := LexToken(Punct('('), "(")
  const RParen: LexToken := LexToken(Punct(')'), ")")

  /** An actual that is empty leaves the formal's own name in the body. */
  lemma EmptyActualKeepsFormal()
    ensures Substitute([Word("a"), Comma, Word("b")], map["a" := [], "b" := [Word("x")]])
      == [Word("a"), Comma, Word("x")]
  {
    var actuals := map["a" := [], "b" := [Word("x")]];
    SubstituteAppend([Word("a")], [Comma, Word("b")], actuals);
    SubstituteAppend([Comma], [Word("b")], actuals);
    assert [Word("a"), Comma, Word("b")] == [Word("a")] + ([Comma] + [Word("b")]);
  }

  /** Only identifiers that name a formal with a non-empty actual change: a body without
      any is left as it is. */
  lemma {:induction false} SubstituteIdentity(body: seq<LexToken>, actuals: map<string, seq<LexToken>>)
    requires forall k | 0 <= k < |body| ::
      !(body[k].tok == Ident && body[k].text in actuals && actuals[body[k].text] != [])
    ensures Substitute(body, actuals) == body
    decreases |body|
  {
    if body != [] {
      assert !(body[0].tok == Ident && body[0].text in actuals && actuals[body[0].text] != []);
      SubstituteIdentity(body[1..], actuals);
    }
  }

  /** Every identifier naming a formal with a non-empty actual is replaced by exactly
      that actual, in place. */
  lemma {:induction false} SubstituteSplices(a: seq<LexToken>, t: LexToken, b: seq<LexToken>,
                                             actuals: map<string, seq<LexToken>>)
    requires t.tok == Ident && t.text in actuals && actuals[t.text] != []
    ensures Substitute(a + [t] + b, actuals)
      == Substitute(a, actuals) + actuals[t.text] + Substitute(b, actuals)
  {
    SubstituteAppend(a + [t], b, actuals);
    SubstituteAppend(a, [t], actuals);
  }

  /** "#define F(a, a) x": a repeated formal is an error. */
  lemma DuplicateFormal(script: seq<LexToken>, budget: nat)
    requires script == [Word("a"), Comma, Word("a"), RParen] && budget >= 3
    ensures Formals("F", true, [], At(script, 0, [], true, budget))
      == Fail("duplicate argument " + "a" + " in definition for macro: " + "F")
  {
    var s0 := At(script, 0, [], true, budget);
    var s1 := At(script, 1, [], true, budget - 1);
    var s2 := At(script, 2, [], true, budget - 2);
    var s3 := At(script, 3, [], true, budget - 3);
    assert [] + ["a"] == ["a"];
    assert Lookup(["a"], "a") == 0;
    ReadAt(script, 0, [], true, budget);
    ReadAt(script, 1, [], true, budget - 1);
    ReadAt(script, 2, [], true, budget - 2);
    assert Formals("F", true, ["a"], s2) == Fail("duplicate argument " + "a" + " in definition for macro: " + "F");
    assert Formals("F", false, ["a"], s1) == Formals("F", true, ["a"], s2);
  }

  /** "#define F() x": an empty list of formals gives a macro without formals, which
      then takes no argument list: the invocation reads nothing after F. */
  lemma EmptyFormals(script: seq<LexToken>, budget: nat, st: PState)
    requires script == [RParen, Word("x"), NL] && budget >= 3
    ensures Formals("F", true, [], At(script, 0, [], true, budget))
      == Ok(([], Word("x"), At(script, 2, [], true, budget - 2)))
    ensures Preprocessor.ArgsFor(Macro("F", [], [Word("x")]), st) == Ok((map[], st))
  {
    ReadAt(script, 0, [], true, budget);
    ReadAt(script, 1, [], true, budget - 1);
  }

  // Steps of the argument-list reader.

  lemma CollectPlain(m: Macro, n: nat, tokens: seq<LexToken>, a: map<string, seq<LexToken>>,
                     st: PState, x: LexToken, st1: PState)
    requires n <= |m.args| && Read(st) == Ok((x, st1)) && Plain(x.tok)
    ensures CollectArgs(m, n, tokens, a, st) == CollectArgs(m, n, tokens + [x], a, st1)
  {
  }

  lemma CollectComma(m: Macro, n: nat, tokens: seq<LexToken>, a: map<string, seq<LexToken>>,
                     st: PState, st1: PState)
    requires n < |m.args| && Read(st) == Ok((Comma, st1))
    ensures CollectArgs(m, n, tokens, a, st) == CollectArgs(m, n + 1, [], a[m.args[n] := tokens], st1)
  {
  }

  lemma CollectClose(m: Macro, n: nat, tokens: seq<LexToken>, a: map<string, seq<LexToken>>,
                     st: PState, st1: PState)
    requires n + 1 == |m.args| && Read(st) == Ok((RParen, st1))
    ensures CollectArgs(m, n, tokens, a, st) == Ok((a[m.args[n] := tokens], st1))
  {
  }

  lemma CollectTooMany(m: Macro, tokens: seq<LexToken>, a: map<string, seq<LexToken>>,
                       st: PState, x: LexToken, st1: PState)
    requires Read(st) == Ok((x, st1)) && (x == Comma || x == RParen)
    ensures CollectArgs(m, |m.args|, tokens, a, st) == Fail("too many arguments for macro: " + m.name)
  {
  }

  /** "F(x,)" for a macro with formals p and q: the trailing empty actual is accepted
      and q receives no tokens. */
  lemma TrailingComma(m: Macro, script: seq<LexToken>, budget: nat)
    requires m.args == ["p", "q"]
    requires |script| == 3 && script[0..3] == [Word("x"), Comma, RParen] && budget >= 3
    ensures CollectArgs(m, 0, [], map[], At(script, 0, [], true, budget))
      == Ok((map["p" := [Word("x")], "q" := []], At(script, 3, [], true, budget - 3)))
  {
    var s0 := At(script, 0, [], true, budget);
    var s1 := At(script, 1, [], true, budget - 1);
    var s2 := At(script, 2, [], true, budget - 2);
    var s3 := At(script, 3, [], true, budget - 3);
    assert script[0] == Word("x") && script[1] == Comma && script[2] == RParen;
    assert [] + [Word("x")] == [Word("x")];
    ReadAt(script, 0, [], true, budget);
    ReadAt(script, 1, [], true, budget - 1);
    ReadAt(script, 2, [], true, budget - 2);
    CollectPlain(m, 0, [], map[], s0, Word("x"), s1);
    CollectComma(m, 0, [Word("x")], map[], s1, s2);
    CollectClose(m, 1, [], map["p" := [Word("x")]], s2, s3);
  }

  /** For a macro with one formal, once an actual is collected the comma after it asks for
      a second actual, and the one that follows ends the list with too many arguments. */
  lemma CommaAfterOnlyActual(m: Macro, tokens: seq<LexToken>, script: seq<LexToken>, k: nat, budget: nat)
    requires |m.args| == 1
    requires k + 3 <= |script| && budget >= 3
    requires script[k..k + 3] == [Comma, Word("b"), RParen]
    ensures CollectArgs(m, 0, tokens, map[], At(script, k, [], true, budget))
      == Fail("too many arguments for macro: " + m.name)
  {
    var a := map[m.args[0] := tokens];
    var s0 := At(script, k, [], true, budget);
    var s1 := At(script, k + 1, [], true, budget - 1);
    var s2 := At(script, k + 2, [], true, budget - 2);
    var s3 := At(script, k + 3, [], true, budget - 3);
    assert script[k] == Comma && script[k + 1] == Word("b") && script[k + 2] == RParen;
    assert [] + [Word("b")] == [Word("b")];
    ReadAt(script, k, [], true, budget);
    ReadAt(script, k + 1, [], true, budget - 1);
    ReadAt(script, k + 2, [], true, budget - 2);
    CollectComma(m, 0, tokens, map[], s0, s1);
    CollectPlain(m, 1, [], a, s1, Word("b"), s2);
    CollectTooMany(m, [Word("b")], a, s2, RParen, s3);
  }

  /** An argument list that fails fails the invocation with the same message. */
  lemma ArgsForFails(m: Macro, st: PState, st1: PState)
    requires m.args != [] && Read(st) == Ok((LParen, st1))
    requires CollectArgs(m, 0, [], map[], st1).Fail?
    ensures Preprocessor.ArgsFor(m, st) == Fail(CollectArgs(m, 0, [], map[], st1).msg)
  {
  }

  /** "F((a,b))" for a macro with one formal: parentheses do not nest, so the comma
      inside them ends the first actual and the invocation has too many arguments. */
  lemma ParenthesesDoNotNest(m: Macro, script: seq<LexToken>, budget: nat)
    requires |m.args| == 1
    requires |script| == 7 && budget >= 6
    requires script[..3] == [LParen, LParen, Word("a")]
    requires script[3..] == [Comma, Word("b"), RParen, RParen]
    ensures Preprocessor.ArgsFor(m, At(script, 0, [], true, budget))
      == Fail("too many arguments for macro: " + m.name)
  {
    var s1 := At(script, 1, [], true, budget - 1);
    var s2 := At(script, 2, [], true, budget - 2);
    var s3 := At(script, 3, [], true, budget - 3);
    assert [] + [LParen] == [LParen];
    assert [LParen] + [Word("a")] == [LParen, Word("a")];
    assert script[3..6] == script[3..][..3];
    assert script[0] == LParen && script[1] == LParen && script[2] == Word("a");
    CommaAfterOnlyActual(m, [LParen, Word("a")], script, 3, budget - 3);
    ReadAt(script, 1, [], true, budget - 1);
    ReadAt(script, 2, [], true, budget - 2);
    CollectPlain(m, 0, [], map[], s1, LParen, s2);
    CollectPlain(m, 0, [LParen], map[], s2, Word("a"), s3);
    ReadAt(script, 0, [], true, budget);
    ArgsForFails(m, At(script, 0, [], true, budget), s1);
  }
}
