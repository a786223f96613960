/** The statement level of the parser: one statement at a time (a label, or a word and
    its comma-separated operands) read from the token stream, dispatched to the
    pseudo-op and instruction builders, and the run over the whole input that ends by
    resolving the jumps to labels. */
module Statements {
  import opened Results
  import opened Lex
  import opened Link
  import opened Address
  import Arch
  import opened Messages
  import opened Operands
  import opened Assemble

  /** A token as the preprocessor hands it over: kind, text and the line it is on. */
  datatype Item = Item(tok: Token, text: string, line: int)

  /** The token stream of one run: the items, then end of input, on line endLine, for
      every further read. */
  datatype Feed = Feed(items: seq<Item>, endLine: int)

  const Newline: Token := Punct('\n')
  const Semicolon: Token := Punct(';')
  const Comma: Token := Punct(',')
  const Colon: Token := Punct(':')

  /** The item at pos and the position after it; end of input once the items are used
      up. */
  function Read(f: Feed, pos: nat): (r: (Item, nat))
    requires pos <= |f.items|
    ensures pos < |f.items| ==> r == (f.items[pos], pos + 1)
    ensures pos == |f.items| ==> r == (Item(EOF, "", f.endLine), pos)
  {
    if pos < |f.items| then (f.items[pos], pos + 1) else (Item(EOF, "", f.endLine), pos)
  }

  /** The position of the first token from pos on that is not a newline. */
  function SkipNewlines(f: Feed, pos: nat): (r: nat)
    requires pos <= |f.items|
    ensures pos <= r <= |f.items|
    ensures forall i :: pos <= i < r ==> f.items[i].tok == Newline
    ensures r < |f.items| ==> f.items[r].tok != Newline
    decreases |f.items| - pos
  {
    if pos < |f.items| && f.items[pos].tok == Newline then SkipNewlines(f, pos + 1) else pos
  }

  /** How reading a statement's operands ends: the word was a label, the input ended
      inside the statement, or the statement is complete with these operands. */
  datatype Gathered = LabelDef | CutShort | Done(operands: seq<seq<LexToken>>)

  /** The operands after the statement's word, read up to the newline or semicolon:
      `operands` are those complete so far and `items` the tokens of the current one.
      A colon straight after the word makes it a label; an empty operand after an
      earlier one is reported, a leading empty one is dropped silently. */
  function Gather(f: Feed, pos: nat, e: Errs, first: bool, operands: seq<seq<LexToken>>, items: seq<LexToken>): (r: (Gathered, Errs, nat))
    requires pos <= |f.items|
    ensures pos <= r.2 <= |f.items| && Extends(e, r.1)
    ensures r.0.LabelDef? ==> first && r.1 == e
    decreases |f.items| - pos
  {
    var (it, next) := Read(f, pos);
    if first && it.tok == Colon then (LabelDef, e, next)
    else if it.tok == EOF then (CutShort, Report(e, UnexpectedEOF), next)
    else if it.tok in {Newline, Semicolon, Comma} then
      var e := if items == [] && operands != [] then Report(e, MissingOperand) else e;
      var operands := if items != [] then operands + [items] else operands;
      if it.tok == Comma then Gather(f, next, e, false, operands, [])
      else (Done(operands), e, next)
    else Gather(f, next, e, false, operands, items + [LexToken(it.tok, it.text)])
  }

  /** One statement: skip blank lines, take the line number of the first token, and
      read a label or a word with its operands. The answer is whether to go on: false
      at the end of input, after a first token that is not an identifier, and when the
      input ends inside the statement. */
  function Line(a: Arch.Arch, f: Feed, s: State, pos: nat): (r: (bool, State, nat))
    requires pos <= |f.items|
    ensures pos <= r.2 <= |f.items| && (r.0 ==> pos < r.2)
    ensures Linked(s) ==> Linked(r.1)
  {
    var at := SkipNewlines(f, pos);
    var (it, next) := Read(f, at);
    var s := s.(errs := s.errs.(lineNum := it.line));
    if it.tok == EOF then (false, s, next)
    else if it.tok != Ident then (false, Errorf(s, ExpectedIdentifier(it.text)), next)
    else Statement(a, f, s, it.text, next)
  }

  /** The rest of a statement after its word: a label, or the word's operands and what
      the word makes of them. */
  function Statement(a: Arch.Arch, f: Feed, s: State, word: string, pos: nat): (r: (bool, State, nat))
    requires pos <= |f.items|
    ensures pos <= r.2 <= |f.items|
    ensures Linked(s) ==> Linked(r.1)
  {
    var (g, e, next) := Gather(f, pos, s.errs, true, [], []);
    var s := s.(errs := e);
    match g
    case LabelDef => (true, s.(pending := s.pending + [word]), next)
    case CutShort => (false, s, next)
    case Done(operands) => (true, Dispatch(a, s, word, operands), next)
  }

  /** A word is a pseudo-op, an instruction, or unrecognized. */
  function Dispatch(a: Arch.Arch, s: State, word: string, operands: seq<seq<LexToken>>): (r: State)
    ensures Extends(s.errs, r.errs)
    ensures Linked(s) ==> Linked(r)
  {
    var op := Arch.Lookup(a.pseudos, word);
    if op != 0 then Pseudo(a, s, op, word, operands)
    else
      var op := Arch.Lookup(a.instructions, word);
      if op != 0 then InstructionLine(a, s, op, word, operands)
      else Errorf(s, UnrecognizedInstruction(word))
  }

  /** The pseudo-op with code op. */
  function Pseudo(a: Arch.Arch, s: State, op: int, word: string, operands: seq<seq<LexToken>>): (r: State)
    ensures Extends(s.errs, r.errs)
    ensures Linked(s) ==> Linked(r)
  {
    if op == Arch.Lookup(a.pseudos, "TEXT") then Text(a, s, op, operands)
    else if op == Arch.Lookup(a.pseudos, "DATA") then Data(a, s, op, operands)
    else if op == Arch.Lookup(a.pseudos, "GLOBL") then Globl(a, s, op, operands)
    else if op == Arch.Lookup(a.pseudos, "PCDATA") then PCData(a, s, op, operands)
    else if op == Arch.Lookup(a.pseudos, "FUNCDATA") then FuncData(a, s, op, operands)
    else Errorf(s, Unimplemented(word))
  }

  /** The operands parsed one after another, each with the errors of those before. */
  function Addresses(a: Arch.Arch, e: Errs, operands: seq<seq<LexToken>>): (r: (seq<Addr>, Errs))
    ensures |r.0| == |operands| && Extends(e, r.1)
  {
    if operands == [] then ([], e)
    else
      var n := |operands| - 1;
      var (addrs, e1) := Addresses(a, e, operands[..n]);
      var (x, e2) := ParseAddr(a, e1, operands[n]);
      (addrs + [x], e2)
  }

  /** An instruction: its operands parsed, then a jump (a word starting with J, or CALL)
      or any other instruction. */
  function InstructionLine(a: Arch.Arch, s: State, op: int, word: string, operands: seq<seq<LexToken>>): (r: State)
    ensures Extends(s.errs, r.errs)
    ensures Linked(s) ==> Linked(r)
  {
    var (addrs, e) := Addresses(a, s.errs, operands);
    var s := s.(errs := e);
    if word == [] then s.(errs := Fault(e, IndexOutOfRange))
    else if word[0] == 'J' || word == "CALL" then Jump(a, s, op, addrs)
    else Instruction(a, s, op, addrs)
  }

  /** Statements from pos on, until one says to stop or the run has stopped. */
  function ParseFrom(a: Arch.Arch, f: Feed, s: State, pos: nat): (r: State)
    requires pos <= |f.items|
    ensures Linked(s) ==> Linked(r)
    decreases |f.items| - pos
  {
    if s.errs.halt.Some? then s
    else
      var (more, s, next) := Line(a, f, s, pos);
      if more then ParseFrom(a, f, s, next) else s
  }

  /** The parser's state before the first statement. */
  const Start: State := State(Errs(0, 0, 0, [], None), 0, [], map[], [], [])

  /** How a run ends: the process stopped (too many errors, or a runtime fault), the
      input was rejected with its reports, or the program was assembled. */
  datatype Run =
    | Died(why: Stop, diags: seq<Diag>)
    | Rejected(diags: seq<Diag>)
    | Assembled(progs: seq<Prog>, diags: seq<Diag>)

  /** The whole input: every statement, then the end of the run. */
  function Parse(a: Arch.Arch, f: Feed): (r: Run)
    ensures r == Finish(ParseFrom(a, f, Start, 0))
  {
    assert Linked(Start);
    Finish(ParseFrom(a, f, Start, 0))
  }

  /** The end of a run: unless it stopped, and only when no error was reported, the
      jumps to labels are resolved and the program is returned. */
  function Finish(s: State): (r: Run)
    requires Linked(s)
    ensures r.Died? <==> s.errs.halt.Some?
    ensures r.Rejected? <==> s.errs.halt.None? && s.errs.errorCount > 0
    ensures r.Assembled? ==> |r.progs| == |s.progs|
  {
    if s.errs.halt.Some? then Died(s.errs.halt.value, s.errs.diags)
    else if s.errs.errorCount > 0 then Rejected(s.errs.diags)
    else
      var s := PatchFrom(s, 0);
      Assembled(s.progs, s.errs.diags)
  }

  /** Is every waiting jump's label bound? */
  ghost predicate AllBound(s: State) {
    forall j :: 0 <= j < |s.toPatch| ==> s.toPatch[j].name in s.labels
  }

  /** Parse with an undefined label failing the run. */
  function ParseChecked(a: Arch.Arch, f: Feed): (r: Run)
    ensures r == FinishChecked(ParseFrom(a, f, Start, 0))
  {
    assert Linked(Start);
    FinishChecked(ParseFrom(a, f, Start, 0))
  }

  /** Finish, except that resolving the jumps also tells whether every label was found,
      and the run is rejected when one was not. */
  function FinishChecked(s: State): (r: Run)
    requires Linked(s)
  {
    if s.errs.halt.Some? then Died(s.errs.halt.value, s.errs.diags)
    else if s.errs.errorCount > 0 then Rejected(s.errs.diags)
    else
      var s' := PatchFrom(s, 0);
      if exists j :: 0 <= j < |s.toPatch| && s.toPatch[j].name !in s.labels then Rejected(s'.errs.diags)
      else Assembled(s'.progs, s'.errs.diags)
  }

  // Reading statements.

  /** A token that may appear inside an operand: not a separator and not end of input. */
  predicate Plain(t: LexToken) {
    t.tok !in {EOF, Newline, Semicolon, Comma}
  }

  /** Operands written out with commas between them. */
  function Joined(operands: seq<seq<LexToken>>): seq<LexToken> {
    if |operands| <= 1 then (if operands == [] then [] else operands[0])
    else operands[0] + [LexToken(Comma, ",")] + Joined(operands[1..])
  }

  /** The items from pos on begin with the tokens ts (kind and text). */
  ghost predicate Holds(f: Feed, pos: nat, ts: seq<LexToken>) {
    pos + |ts| <= |f.items|
    && forall i :: 0 <= i < |ts| ==> f.items[pos + i].tok == ts[i].tok && f.items[pos + i].text == ts[i].text
  }

  /** Operands that can be written out and read back: each has a token, and none holds
      a separator. */
  ghost predicate Writable(operands: seq<seq<LexToken>>) {
    forall k :: 0 <= k < |operands| ==> operands[k] != [] && forall i :: 0 <= i < |operands[k]| ==> Plain(operands[k][i])
  }

  /** The colon check applies to the first token only: any other first token reads as
      it would later. */
  lemma GatherFirstToken(f: Feed, pos: nat, e: Errs, operands: seq<seq<LexToken>>, items: seq<LexToken>)
    requires pos <= |f.items| && Read(f, pos).0.tok != Colon
    ensures Gather(f, pos, e, true, operands, items) == Gather(f, pos, e, false, operands, items)
  {
  }

  /** The tokens of an operand are collected in order, with no report. */
  lemma {:induction false} GatherPlain(f: Feed, pos: nat, e: Errs, operands: seq<seq<LexToken>>, items: seq<LexToken>, op: seq<LexToken>)
    requires Holds(f, pos, op) && forall i :: 0 <= i < |op| ==> Plain(op[i])
    ensures Gather(f, pos, e, false, operands, items) == Gather(f, pos + |op|, e, false, operands, items + op)
    decreases |op|
  {
    if op == [] {
      assert items + op == items;
    } else {
      assert f.items[pos].tok == op[0].tok && f.items[pos].text == op[0].text;
      assert LexToken(f.items[pos].tok, f.items[pos].text) == op[0];
      assert Holds(f, pos + 1, op[1..]);
      GatherPlain(f, pos + 1, e, operands, items + [op[0]], op[1..]);
      assert items + [op[0]] + op[1..] == items + op;
    }
  }

  /** An operand followed by a separator: a newline completes the statement, a comma
      starts the next operand. */
  lemma GatherOperand(f: Feed, pos: nat, e: Errs, done: seq<seq<LexToken>>, op: seq<LexToken>, sep: LexToken)
    requires op != [] && forall i :: 0 <= i < |op| ==> Plain(op[i])
    requires sep.tok in {Newline, Comma}
    requires Holds(f, pos, op + [sep])
    ensures Gather(f, pos, e, false, done, []) ==
      if sep.tok == Newline then (Done(done + [op]), e, pos + |op| + 1)
      else Gather(f, pos + |op| + 1, e, false, done + [op], [])
  {
    HoldsSplit(f, pos, op, [sep]);
    GatherPlain(f, pos, e, done, [], op);
    assert [] + op == op;
    HoldsAt(f, pos + |op|, [sep], 0);
  }

  /** The operands after the first are writable too. */
  lemma WritableRest(operands: seq<seq<LexToken>>)
    requires operands != [] && Writable(operands)
    ensures Writable(operands[1..])
  {
    var rest := operands[1..];
    forall k | 0 <= k < |rest|
      ensures rest[k] != [] && forall i :: 0 <= i < |rest[k]| ==> Plain(rest[k][i])
    {
      assert rest[k] == operands[k + 1];
    }
  }

  /** Operands written out with commas and ended by a newline are read back as the same
      operands, with no report. */
  lemma {:induction false} GatherJoined(f: Feed, pos: nat, e: Errs, done: seq<seq<LexToken>>, operands: seq<seq<LexToken>>)
    requires operands != [] && Writable(operands)
    requires Holds(f, pos, Joined(operands) + [LexToken(Newline, "\n")])
    ensures Gather(f, pos, e, false, done, []) == (Done(done + operands), e, pos + |Joined(operands)| + 1)
    decreases |operands|
  {
    var op := operands[0];
    var ts := Joined(operands) + [LexToken(Newline, "\n")];
    if |operands| == 1 {
      assert operands == [op] && ts == op + [LexToken(Newline, "\n")];
      GatherOperand(f, pos, e, done, op, LexToken(Newline, "\n"));
    } else {
      var rest := operands[1..];
      var us := Joined(rest) + [LexToken(Newline, "\n")];
      assert ts == op + [LexToken(Comma, ",")] + us;
      HoldsSplit(f, pos, op + [LexToken(Comma, ",")], us);
      GatherOperand(f, pos, e, done, op, LexToken(Comma, ","));
      WritableRest(operands);
      GatherJoined(f, pos + |op| + 1, e, done + [op], rest);
      assert done + [op] + rest == done + operands;
    }
  }

  /** Reading tokens that are there in two parts: the first part, then the second right
      after it. */
  lemma HoldsSplit(f: Feed, pos: nat, xs: seq<LexToken>, ys: seq<LexToken>)
    requires Holds(f, pos, xs + ys)
    ensures Holds(f, pos, xs) && Holds(f, pos + |xs|, ys)
  {
    var ts := xs + ys;
    forall i | 0 <= i < |xs|
      ensures f.items[pos + i].tok == xs[i].tok && f.items[pos + i].text == xs[i].text
    {
      assert ts[i] == xs[i];
    }
    forall i | 0 <= i < |ys|
      ensures f.items[pos + |xs| + i].tok == ys[i].tok && f.items[pos + |xs| + i].text == ys[i].text
    {
      assert ts[|xs| + i] == ys[i];
    }
  }

  /** The item at pos + i is the i-th of the tokens that are there. */
  lemma HoldsAt(f: Feed, pos: nat, ts: seq<LexToken>, i: nat)
    requires Holds(f, pos, ts) && i < |ts|
    ensures f.items[pos + i].tok == ts[i].tok && f.items[pos + i].text == ts[i].text
  {
  }

  /** A comma before any operand is passed over. */
  lemma GatherSkipsComma(f: Feed, pos: nat, e: Errs)
    requires pos < |f.items| && f.items[pos].tok == Comma
    ensures Gather(f, pos, e, false, [], []) == Gather(f, pos + 1, e, false, [], [])
  {
  }

  /** A newline ends the statement and its last operand. */
  lemma GatherEnds(f: Feed, pos: nat, e: Errs, operands: seq<seq<LexToken>>, items: seq<LexToken>)
    requires pos < |f.items| && f.items[pos].tok == Newline && items != []
    ensures Gather(f, pos, e, false, operands, items) == (Done(operands + [items]), e, pos + 1)
  {
  }

  /** A comma with nothing after it before the newline is reported as a missing
      operand; the operand before it is kept. */
  lemma GatherTrailingComma(f: Feed, pos: nat, e: Errs, op: seq<LexToken>)
    requires op != [] && forall i :: 0 <= i < |op| ==> Plain(op[i])
    requires Holds(f, pos, op + [LexToken(Comma, ","), LexToken(Newline, "\n")])
    ensures Gather(f, pos, e, false, [], []) == (Done([op]), Report(e, MissingOperand), pos + |op| + 2)
  {
    var comma, newline := LexToken(Comma, ","), LexToken(Newline, "\n");
    assert op + [comma, newline] == (op + [comma]) + [newline];
    HoldsSplit(f, pos, op + [comma], [newline]);
    GatherOperand(f, pos, e, [], op, comma);
    HoldsAt(f, pos + |op| + 1, [newline], 0);
    assert [] + [op] == [op];
    assert Gather(f, pos + |op| + 1, e, false, [op], []) == (Done([op]), Report(e, MissingOperand), pos + |op| + 2);
  }


  /** A comma before the first operand is passed over with no report: only a comma
      after an operand calls for another. */
  lemma GatherLeadingComma(f: Feed, pos: nat, e: Errs, op: seq<LexToken>)
    requires op != [] && forall i :: 0 <= i < |op| ==> Plain(op[i])
    requires Holds(f, pos, [LexToken(Comma, ",")] + op + [LexToken(Newline, "\n")])
    ensures Gather(f, pos, e, false, [], []) == (Done([op]), e, pos + |op| + 2)
  {
    assert [LexToken(Comma, ",")] + op + [LexToken(Newline, "\n")] == [LexToken(Comma, ",")] + (op + [LexToken(Newline, "\n")]);
    HoldsSplit(f, pos, [LexToken(Comma, ",")], op + [LexToken(Newline, "\n")]);
    HoldsAt(f, pos, [LexToken(Comma, ",")], 0);
    GatherSkipsComma(f, pos, e);
    GatherOperand(f, pos + 1, e, [], op, LexToken(Newline, "\n"));
    assert [] + [op] == [op];
  }

  /** The operands of a statement, written out with commas and ended by a newline, are
      read back as they are, with no report, whether or not the first one may still be
      a label's colon. */
  lemma GatherStatement(f: Feed, pos: nat, e: Errs, operands: seq<seq<LexToken>>)
    requires Writable(operands) && (operands != [] ==> operands[0][0].tok != Colon)
    requires Holds(f, pos, Joined(operands) + [LexToken(Newline, "\n")])
    ensures Gather(f, pos, e, true, [], []) == (Done(operands), e, pos + |Joined(operands)| + 1)
  {
    if operands == [] {
      assert Joined(operands) + [LexToken(Newline, "\n")] == [LexToken(Newline, "\n")];
      HoldsAt(f, pos, [LexToken(Newline, "\n")], 0);
    } else {
      var op := operands[0];
      if |operands| == 1 {
        assert Joined(operands) == op;
      } else {
        assert Joined(operands) == op + ([LexToken(Comma, ",")] + Joined(operands[1..]));
      }
      assert (Joined(operands) + [LexToken(Newline, "\n")])[0] == op[0];
      HoldsAt(f, pos, Joined(operands) + [LexToken(Newline, "\n")], 0);
      GatherFirstToken(f, pos, e, [], []);
      GatherJoined(f, pos, e, [], operands);
      assert [] + operands == operands;
    }
  }

  /** A statement whose word's operands were read completely is dispatched on the
      word's line, and reading goes on after it. */
  lemma LineDispatched(a: Arch.Arch, f: Feed, s: State, pos: nat, operands: seq<seq<LexToken>>, next: nat)
    requires pos < |f.items| && f.items[pos].tok == Ident
    requires var e := s.errs.(lineNum := f.items[pos].line);
      Gather(f, pos + 1, e, true, [], []) == (Done(operands), e, next)
    ensures Line(a, f, s, pos) ==
      (true, Dispatch(a, s.(errs := s.errs.(lineNum := f.items[pos].line)), f.items[pos].text, operands), next)
  {
    assert SkipNewlines(f, pos) == pos;
  }

  /** A statement line: a word, operands written out with commas, and a newline. It is
      read back as that word with those operands, with no report of its own, and
      dispatched on the word's line; reading resumes after the newline. */
  lemma LineStatement(a: Arch.Arch, f: Feed, s: State, pos: nat, operands: seq<seq<LexToken>>)
    requires pos < |f.items| && f.items[pos].tok == Ident
    requires Writable(operands) && (operands != [] ==> operands[0][0].tok != Colon)
    requires Holds(f, pos + 1, Joined(operands) + [LexToken(Newline, "\n")])
    ensures Line(a, f, s, pos) ==
      (true, Dispatch(a, s.(errs := s.errs.(lineNum := f.items[pos].line)), f.items[pos].text, operands),
       pos + |Joined(operands)| + 2)
  {
    GatherStatement(f, pos + 1, s.errs.(lineNum := f.items[pos].line), operands);
    LineDispatched(a, f, s, pos, operands, pos + |Joined(operands)| + 2);
  }

  /** A word followed by a colon defines a label: it waits for the next instruction, and
      reading resumes after the colon. */
  lemma LineLabel(a: Arch.Arch, f: Feed, s: State, pos: nat)
    requires pos + 1 < |f.items| && f.items[pos].tok == Ident && f.items[pos + 1].tok == Colon
    ensures Line(a, f, s, pos) ==
      (true, s.(errs := s.errs.(lineNum := f.items[pos].line), pending := s.pending + [f.items[pos].text]), pos + 2)
  {
    assert SkipNewlines(f, pos) == pos;
  }

  /** Nothing but newlines left: the run ends, with the line number of the end of
      input. */
  lemma LineAtEnd(a: Arch.Arch, f: Feed, s: State, pos: nat)
    requires pos <= |f.items| && forall i :: pos <= i < |f.items| ==> f.items[i].tok == Newline
    ensures Line(a, f, s, pos) == (false, s.(errs := s.errs.(lineNum := f.endLine)), |f.items|)
  {
    assert SkipNewlines(f, pos) == |f.items|;
  }

  /** A statement that does not start with a word is reported, and the run ends there. */
  lemma LineNotIdentifier(a: Arch.Arch, f: Feed, s: State, pos: nat)
    requires pos < |f.items| && f.items[pos].tok !in {Ident, Newline, EOF}
    ensures Line(a, f, s, pos) ==
      (false, Errorf(s.(errs := s.errs.(lineNum := f.items[pos].line)), ExpectedIdentifier(f.items[pos].text)), pos + 1)
  {
    assert SkipNewlines(f, pos) == pos;
  }

  /** Input that ends inside a statement is reported as an unexpected end, and the run
      ends there. */
  lemma LineCutShort(a: Arch.Arch, f: Feed, s: State, pos: nat, op: seq<LexToken>)
    requires pos < |f.items| && f.items[pos].tok == Ident
    requires forall i :: 0 <= i < |op| ==> Plain(op[i])
    requires Holds(f, pos + 1, op) && pos + 1 + |op| == |f.items| && (op != [] ==> op[0].tok != Colon)
    ensures var e := s.errs.(lineNum := f.items[pos].line);
      Line(a, f, s, pos) == (false, s.(errs := Report(e, UnexpectedEOF)), |f.items|)
  {
    var e := s.errs.(lineNum := f.items[pos].line);
    assert SkipNewlines(f, pos) == pos;
    GatherFirstToken(f, pos + 1, e, [], []);
    GatherPlain(f, pos + 1, e, [], [], op);
  }

  // Dispatching.

  /** A word that is neither a pseudo-op nor an instruction is reported, and nothing is
      linked. */
  lemma DispatchUnknown(a: Arch.Arch, s: State, word: string, operands: seq<seq<LexToken>>)
    requires word !in a.pseudos && word !in a.instructions
    ensures Dispatch(a, s, word, operands) == s.(errs := Report(s.errs, UnrecognizedInstruction(word)))
  {
  }

  /** A pseudo-op wins over an instruction of the same name. */
  lemma DispatchPseudoFirst(a: Arch.Arch, s: State, word: string, operands: seq<seq<LexToken>>)
    requires word in a.pseudos && a.pseudos[word] != 0
    ensures Dispatch(a, s, word, operands) == Pseudo(a, s, a.pseudos[word], word, operands)
  {
  }

  /** The operands are parsed in order, each on the errors left by those before it. */
  lemma {:induction false} AddressesInOrder(a: Arch.Arch, e: Errs, operands: seq<seq<LexToken>>, more: seq<LexToken>)
    ensures var (xs, e1) := Addresses(a, e, operands);
      var (x, e2) := ParseAddr(a, e1, more);
      Addresses(a, e, operands + [more]) == (xs + [x], e2)
  {
    assert (operands + [more])[..|operands|] == operands;
  }

  /** An instruction word that starts with J (or is CALL) is assembled as a jump to its
      parsed operands; any other as a plain instruction. */
  lemma DispatchInstruction(a: Arch.Arch, s: State, word: string, operands: seq<seq<LexToken>>)
    requires Arch.Lookup(a.pseudos, word) == 0 && Arch.Lookup(a.instructions, word) != 0 && word != []
    ensures var op := Arch.Lookup(a.instructions, word);
      var (addrs, e) := Addresses(a, s.errs, operands);
      Dispatch(a, s, word, operands) ==
        if word[0] == 'J' || word == "CALL" then Jump(a, s.(errs := e), op, addrs) else Instruction(a, s.(errs := e), op, addrs)
  {
    var op := Arch.Lookup(a.instructions, word);
    var (addrs, e) := Addresses(a, s.errs, operands);
    assert Dispatch(a, s, word, operands) == InstructionLine(a, s, op, word, operands);
    assert InstructionLine(a, s, op, word, operands) ==
      if word[0] == 'J' || word == "CALL" then Jump(a, s.(errs := e), op, addrs) else Instruction(a, s.(errs := e), op, addrs);
  }

  /** A bare name that is not a register parses, without a report, to that symbol. */
  lemma LoneSymbol(a: Arch.Arch, e: Errs, name: string)
    requires name != "" && name !in a.registers
    ensures ParseAddr(a, e, [LexToken(Ident, name)]) == (EmptyAddr.(symbol := name), e)
  {
    var input := [LexToken(Ident, name)];
    var c1 := Cur(input, 1, e);
    assert StaticMark(EmptyAddr, c1) == (EmptyAddr, c1);
    assert SymbolOperand(a.registers, EmptyAddr, Cur(input, 0, e)) == (EmptyAddr.(symbol := name), c1);
    OperandBodyIdent(a.registers, EmptyAddr, Cur(input, 0, e));
    OperandWhole(a.registers, EmptyAddr, Cur(input, 0, e), EmptyAddr.(symbol := name), c1);
  }

  // Resolving labels at the end of the run.

  /** A jump `word target` alone on line `line`, the input ending on line endLine. */
  function JumpFeed(word: string, target: string, line: int, endLine: int): Feed {
    Feed([Item(Ident, word, line), Item(Ident, target, line), Item(Newline, "\n", line)], endLine)
  }

  /** What a jump word has to be: an instruction, not a pseudo-op, starting with J. */
  predicate JumpWord(a: Arch.Arch, word: string) {
    Arch.Lookup(a.pseudos, word) == 0 && Arch.Lookup(a.instructions, word) != 0 && word != [] && word[0] == 'J'
  }

  /** The state a run over JumpFeed is in at the end of input, for the instruction code
      op and the target's empty address noAddr: one counted instruction, with an empty
      destination, waiting for its label. */
  function UnboundState(op: int, noAddr: LAddr, target: string, line: int, endLine: int): State {
    State(Errs(endLine, 0, 0, [], None), 1, [], map[], [Patch(0, target)], [Prog(op, line, noAddr, ZeroAddr, 1)])
  }

  /** The target operand is the bare symbol, with no report. */
  lemma UnboundJumpAddresses(a: Arch.Arch, e: Errs, target: string)
    requires target != "" && target !in a.registers
    ensures Addresses(a, e, [[LexToken(Ident, target)]]) == ([EmptyAddr.(symbol := target)], e)
  {
    var operand := [LexToken(Ident, target)];
    var x := EmptyAddr.(symbol := target);
    LoneSymbol(a, e, target);
    AddressesInOrder(a, e, [], operand);
    assert [] + [operand] == [operand] && [] + [x] == [x];
    assert Addresses(a, e, []) == ([], e);
  }

  /** Linking the jump as the first instruction of the run: pc 1, no label waiting. */
  lemma UnboundJumpLink(a: Arch.Arch, op: int, target: string, line: int)
    ensures LinkProg(State(Errs(line, 0, 0, [], None), 0, [], map[], [Patch(0, target)], []),
                     Prog(op, line, a.noAddr, ZeroAddr, 0), true) ==
      State(Errs(line, 0, 0, [], None), 1, [], map[], [Patch(0, target)], [Prog(op, line, a.noAddr, ZeroAddr, 1)])
  {
    assert BindLabels(Errs(line, 0, 0, [], None), map[], [], 0) == (Errs(line, 0, 0, [], None), map[]);
    assert Int64(1) == 1;
  }

  /** The jump itself, on the first line of a run. */
  lemma UnboundJumpJump(a: Arch.Arch, op: int, target: string, line: int)
    requires target != ""
    ensures Jump(a, Start.(errs := Start.errs.(lineNum := line)), op, [EmptyAddr.(symbol := target)]) ==
      State(Errs(line, 0, 0, [], None), 1, [], map[], [Patch(0, target)], [Prog(op, line, a.noAddr, ZeroAddr, 1)])
  {
    JumpToUnboundLabel(a, Start.(errs := Start.errs.(lineNum := line)), op, EmptyAddr.(symbol := target));
    UnboundJumpLink(a, op, target, line);
  }

  /** The statement dispatched: a jump to a name that is not yet a label, linked with an
      empty destination and queued for patching. */
  lemma UnboundJumpDispatch(a: Arch.Arch, word: string, target: string, line: int)
    requires JumpWord(a, word) && target != "" && target !in a.registers
    ensures Dispatch(a, Start.(errs := Start.errs.(lineNum := line)), word, [[LexToken(Ident, target)]]) ==
      State(Errs(line, 0, 0, [], None), 1, [], map[], [Patch(0, target)],
            [Prog(Arch.Lookup(a.instructions, word), line, a.noAddr, ZeroAddr, 1)])
  {
    var e1 := Start.errs.(lineNum := line);
    UnboundJumpAddresses(a, e1, target);
    DispatchInstruction(a, Start.(errs := e1), word, [[LexToken(Ident, target)]]);
    UnboundJumpJump(a, Arch.Lookup(a.instructions, word), target, line);
  }

  /** The one statement of JumpFeed. */
  lemma UnboundJumpFirstLine(a: Arch.Arch, word: string, target: string, line: int, endLine: int)
    requires JumpWord(a, word) && target != "" && target !in a.registers
    ensures Line(a, JumpFeed(word, target, line, endLine), Start, 0) ==
      (true, State(Errs(line, 0, 0, [], None), 1, [], map[], [Patch(0, target)],
                   [Prog(Arch.Lookup(a.instructions, word), line, a.noAddr, ZeroAddr, 1)]), 3)
  {
    var f := JumpFeed(word, target, line, endLine);
    var operands := [[LexToken(Ident, target)]];
    JumpFeedOperands(word, target, line, endLine);
    LineStatement(a, f, Start, 0, operands);
    assert f.items[0].line == line && f.items[0].text == word;
    UnboundJumpDispatch(a, word, target, line);
  }

  /** After its word, JumpFeed holds the one operand `target`, then the newline. */
  lemma JumpFeedOperands(word: string, target: string, line: int, endLine: int)
    ensures var operands := [[LexToken(Ident, target)]];
      Writable(operands) && operands[0][0].tok != Colon && |Joined(operands)| == 1
      && Holds(JumpFeed(word, target, line, endLine), 1, Joined(operands) + [LexToken(Newline, "\n")])
  {
    var f := JumpFeed(word, target, line, endLine);
    var ts := Joined([[LexToken(Ident, target)]]) + [LexToken(Newline, "\n")];
    assert ts == [LexToken(Ident, target), LexToken(Newline, "\n")];
    assert f.items[1].tok == ts[0].tok && f.items[1].text == ts[0].text;
    assert f.items[2].tok == ts[1].tok && f.items[2].text == ts[1].text;
  }

  /** The run over JumpFeed, up to the end of input. */
  lemma UnboundJumpRun(a: Arch.Arch, word: string, target: string, line: int, endLine: int)
    requires JumpWord(a, word) && target != "" && target !in a.registers
    ensures ParseFrom(a, JumpFeed(word, target, line, endLine), Start, 0) ==
      UnboundState(Arch.Lookup(a.instructions, word), a.noAddr, target, line, endLine)
  {
    var f := JumpFeed(word, target, line, endLine);
    var s1 := State(Errs(line, 0, 0, [], None), 1, [], map[], [Patch(0, target)],
                    [Prog(Arch.Lookup(a.instructions, word), line, a.noAddr, ZeroAddr, 1)]);
    UnboundJumpFirstLine(a, word, target, line, endLine);
    LineAtEnd(a, f, s1, 3);
    assert ParseFrom(a, f, Start, 0) == ParseFrom(a, f, s1, 3);
  }

  /** As written, a jump to a label defined nowhere is reported at the end, yet the
      run still hands back the program, the jump left with an empty destination. */
  lemma FinishAcceptsUndefinedLabel(op: int, noAddr: LAddr, target: string, line: int, endLine: int)
    requires endLine != 0
    ensures Finish(UnboundState(op, noAddr, target, line, endLine)) ==
      Assembled([Prog(op, line, noAddr, ZeroAddr, 1)], [Diag(endLine, UndefinedLabel(target))])
  {
    var s := UnboundState(op, noAddr, target, line, endLine);
    PatchFromReports(s, 0);
    assert PatchFrom(s, 0) == PatchFrom(Errorf(s, UndefinedLabel(target)), 1);
  }

  /** The same, from the input: Parse of `JMP nowhere` assembles it. */
  lemma ParseAcceptsUndefinedLabel(a: Arch.Arch, word: string, target: string, line: int, endLine: int)
    requires JumpWord(a, word) && target != "" && target !in a.registers && endLine != 0
    ensures Parse(a, JumpFeed(word, target, line, endLine)) ==
      Assembled([Prog(Arch.Lookup(a.instructions, word), line, a.noAddr, ZeroAddr, 1)], [Diag(endLine, UndefinedLabel(target))])
  {
    UnboundJumpRun(a, word, target, line, endLine);
    FinishAcceptsUndefinedLabel(Arch.Lookup(a.instructions, word), a.noAddr, target, line, endLine);
  }

  /** With the check, the same state is rejected with the same report. */
  lemma FinishCheckedRejectsUndefinedLabel(op: int, noAddr: LAddr, target: string, line: int, endLine: int)
    requires endLine != 0
    ensures FinishChecked(UnboundState(op, noAddr, target, line, endLine)) == Rejected([Diag(endLine, UndefinedLabel(target))])
  {
    var s := UnboundState(op, noAddr, target, line, endLine);
    PatchFromReports(s, 0);
    assert s.toPatch[0].name !in s.labels;
  }

  /** ParseChecked rejects the same input. */
  lemma ParseCheckedRejectsUndefinedLabel(a: Arch.Arch, word: string, target: string, line: int, endLine: int)
    requires JumpWord(a, word) && target != "" && target !in a.registers && endLine != 0
    ensures ParseChecked(a, JumpFeed(word, target, line, endLine)) == Rejected([Diag(endLine, UndefinedLabel(target))])
  {
    UnboundJumpRun(a, word, target, line, endLine);
    FinishCheckedRejectsUndefinedLabel(Arch.Lookup(a.instructions, word), a.noAddr, target, line, endLine);
  }

  /** The checked end assembles a program only when every waiting jump found its label,
      and then each of them branches to its label's instruction. */
  lemma FinishCheckedResolves(s: State)
    requires Linked(s)
    ensures var r := FinishChecked(s);
      r.Assembled? ==>
        && AllBound(s) && |r.progs| == |s.progs|
        && forall j :: 0 <= j < |s.toPatch| ==>
             r.progs[s.toPatch[j].prog] == s.progs[s.toPatch[j].prog].(to := BranchAddr(s.labels[s.toPatch[j].name]))
  {
    if FinishChecked(s).Assembled? {
      forall j | 0 <= j < |s.toPatch|
        ensures PatchFrom(s, 0).progs[s.toPatch[j].prog] == s.progs[s.toPatch[j].prog].(to := BranchAddr(s.labels[s.toPatch[j].name]))
      {
        PatchFromResolves(s, 0, j);
      }
    }
  }

  /** When every label is found the check changes nothing, and resolving reports
      nothing. */
  lemma FinishCheckedAgrees(s: State)
    requires Linked(s) && AllBound(s)
    ensures FinishChecked(s) == Finish(s)
    ensures Finish(s).Assembled? ==> Finish(s).diags == s.errs.diags
  {
    PatchFromReports(s, 0);
  }
}
