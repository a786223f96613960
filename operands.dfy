/** The operand grammar, as functions of the parser's cursor: the error policy (one
    report per source line, a fatal stop after more than ten), the cursor primitives, the
    integer expression evaluator in wrapping 64-bit unsigned arithmetic, and the
    recursive-descent operand parser. The parser class runs these step by step; here
    they are the specification it is proved against. */
module Operands {
  import opened Results
  import opened Lex
  import opened Link
  import opened Address
  import Arch
  import opened Uint64
  import opened Numerals
  import opened Messages

  /** One reported error: the source line it is charged to and its message. */
  datatype Diag = Diag(line: int, msg: Msg)

  /** The parser's error bookkeeping. `lineNum` is the line of the statement being
      parsed, `errorLine` the line of the last report; `diags` are the reports made so
      far, `halt` the reason the run stopped (too many errors, or a runtime fault). */
  datatype Errs = Errs(lineNum: int, errorLine: int, errorCount: int, diags: seq<Diag>, halt: Option<Stop>)

  /** Report an error: dropped when this line already has one or the run has stopped;
      otherwise recorded and counted, and the run stops once more than ten are counted. */
  function Report(e: Errs, msg: Msg): (r: Errs)
    ensures r.lineNum == e.lineNum
    ensures e.halt.Some? ==> r == e
    ensures Flagged(r)
  {
    if e.halt.Some? || e.lineNum == e.errorLine then e
    else
      var count := e.errorCount + 1;
      e.(errorLine := e.lineNum, errorCount := count,
         diags := e.diags + [Diag(e.lineNum, msg)],
         halt := if count > 10 then Some(TooManyErrors) else None)
  }

  /** Does the line being parsed already have its error, or has the run stopped? */
  predicate Flagged(e: Errs) {
    e.halt.Some? || e.errorLine == e.lineNum
  }

  /** A runtime fault (division by zero, indexing past the operands): the run stops. */
  function Fault(e: Errs, why: Stop): (r: Errs)
    ensures r.halt.Some? && r.lineNum == e.lineNum && r.diags == e.diags
    ensures e.halt.None? ==> r.halt == Some(why)
  {
    if e.halt.Some? then e else e.(halt := Some(why))
  }

  /** The bookkeeping invariant: the count is the number of reports, at most eleven and
      more than ten only once stopped; reports on consecutive lines never share a line,
      and the last one is on `errorLine`. */
  ghost predicate ErrsOk(e: Errs) {
    && e.errorCount == |e.diags| <= 11
    && (e.errorCount > 10 ==> e.halt.Some?)
    && (e.diags != [] ==> e.diags[|e.diags| - 1].line == e.errorLine)
    && (forall i :: 0 < i < |e.diags| ==> e.diags[i - 1].line != e.diags[i].line)
  }

  /** Reporting keeps the invariant. */
  lemma ReportOk(e: Errs, msg: Msg)
    requires ErrsOk(e)
    ensures ErrsOk(Report(e, msg))
  {
  }

  /** At most one report per line: once a line has a report, further reports on it
      change nothing. */
  lemma OnePerLine(e: Errs, first: Msg, second: Msg)
    ensures Report(Report(e, first), second) == Report(e, first)
  {
  }

  /** A report on a fresh line of a running parse is recorded with its line. */
  lemma ReportRecorded(e: Errs, msg: Msg)
    requires e.halt.None? && e.lineNum != e.errorLine
    ensures Report(e, msg).diags == e.diags + [Diag(e.lineNum, msg)]
    ensures Report(e, msg).errorLine == e.lineNum
  {
  }

  /** The eleventh report stops the run; the tenth does not. */
  lemma EleventhReportStops(e: Errs, msg: Msg)
    requires e.halt.None? && e.lineNum != e.errorLine
    ensures Report(e, msg).halt.Some? <==> e.errorCount >= 10
  {
  }

  /** Errors are only ever added: the later bookkeeping extends the earlier one, a
      stopped run stays stopped, and a line that has its report keeps it. */
  ghost predicate Extends(e: Errs, e': Errs) {
    && e'.lineNum == e.lineNum
    && |e.diags| <= |e'.diags|
    && e.diags <= e'.diags
    && (e.halt.Some? ==> e'.halt == e.halt)
    && (e.lineNum == e.errorLine ==> e'.errorLine == e.lineNum)
  }

  /** The cursor over one operand's tokens, with the error bookkeeping. */
  datatype Cur = Cur(input: seq<LexToken>, pos: nat, errs: Errs)

  /** What a parsing step keeps: the same tokens, a position that only moves forward
      and stays within the tokens, and bookkeeping that only grows. */
  ghost predicate Step(c: Cur, c': Cur) {
    && c'.input == c.input
    && c.pos <= c'.pos
    && (c.pos <= |c.input| ==> c'.pos <= |c'.input|)
    && Extends(c.errs, c'.errs)
  }

  function Err(c: Cur, msg: Msg): (r: Cur)
    ensures Step(c, r) && r.pos == c.pos && r.errs == Report(c.errs, msg)
  {
    c.(errs := Report(c.errs, msg))
  }

  /** The token returned once the operand is used up. */
  const End: LexToken := LexToken(EOF, "end")

  /** The next token, consumed; the end token, without moving, when none is left. */
  function Next(c: Cur): (r: (LexToken, Cur))
    ensures Step(c, r.1) && r.1.errs == c.errs
    ensures c.pos < |c.input| ==> r == (c.input[c.pos], c.(pos := c.pos + 1))
    ensures c.pos >= |c.input| ==> r == (End, c)
  {
    if c.pos < |c.input| then (c.input[c.pos], c.(pos := c.pos + 1)) else (End, c)
  }

  /** The kind of the next token, EOF when none is left. */
  function Peek(c: Cur): Token {
    if c.pos < |c.input| then c.input[c.pos].tok else EOF
  }

  /** Check that the next token has the expected kind without consuming it; otherwise
      consume it and report. */
  function Expect(c: Cur, t: Token): (r: Cur)
    ensures Step(c, r)
    ensures Peek(c) == t ==> r == c
    ensures Peek(c) != t && c.pos < |c.input| ==> r.pos == c.pos + 1
    ensures Peek(c) != t ==> Flagged(r.errs)
  {
    if Peek(c) == t then c
    else
      var (tok, c1) := Next(c);
      Err(c1, ExpectedToken(t, tok.text))
  }

  /** Expect a token of the given kind, then consume it. */
  function Get(c: Cur, t: Token): (r: (LexToken, Cur))
    ensures Step(c, r.1)
  {
    var c1 := Expect(c, t);
    Next(c1)
  }

  /** Does any remaining token have the given kind? */
  predicate Have(c: Cur, t: Token) {
    exists i :: c.pos <= i < |c.input| && c.input[i].tok == t
  }

  /** The scale factors `(R*s)` accepts, as written. */
  predicate ScaleText(s: string) {
    |s| == 1 && s[0] in {'1', '2', '4', '8'}
  }

  /** The scale factor written after `*` in `(R*s)`: exactly 1, 2, 4 or 8; anything else
      is reported and gives 0. */
  function Scale(e: Errs, s: string): (r: (int, Errs))
    ensures ScaleText(s) ==> r.1 == e && r.0 in {1, 2, 4, 8} && Decimal(r.0) == s
    ensures !ScaleText(s) ==> r == (0, Report(e, BadScale(s)))
  {
    if ScaleText(s) then (s[0] as int - '0' as int, e)
    else (0, Report(e, BadScale(s)))
  }

  /** An unsigned integer literal, as strconv.ParseUint reads it with base 0 and 64 bits:
      its value, or an error. A value too large for 64 bits gives the largest one and a
      range error; text that is not a numeral gives 0 and a syntax error. */
  function Atoi(e: Errs, s: string): (r: (U64, Errs))
    ensures NumeralValue(s).None? ==> r == (0, Report(e, BadNumber(s, false)))
    ensures NumeralValue(s).Some? && NumeralValue(s).value < TwoTo64 ==> r == (NumeralValue(s).value, e)
    ensures NumeralValue(s).Some? && NumeralValue(s).value >= TwoTo64 ==>
      r == (MaxU64, Report(e, BadNumber(s, true)))
  {
    match NumeralValue(s)
    case None => (0, Report(e, BadNumber(s, false)))
    case Some(v) =>
      if v >= TwoTo64 then (MaxU64, Report(e, BadNumber(s, true)))
      else (v, e)
  }

  /** A 64-bit value printed in decimal reads back as itself, with no error. */
  lemma AtoiDecimal(e: Errs, n: nat)
    requires n < TwoTo64
    ensures Atoi(e, Decimal(n)) == (n, e)
  {
    DecimalRoundTrip(n);
  }

  /** A numeral with a hexadecimal prefix reads its remaining digits in base 16. */
  lemma AtoiHexadecimal(e: Errs, s: string)
    requires |s| > 2 && s[0] == '0' && (s[1] == 'x' || s[1] == 'X')
    requires DigitsIn(s[2..], 16) && ValueIn(s[2..], 16) < TwoTo64
    ensures Atoi(e, s) == (ValueIn(s[2..], 16), e)
  {
    HexadecimalPrefix(s);
  }

  /** Eight and nine are not octal digits: "09" is a syntax error, not nine. */
  lemma AtoiRejectsOctalNine(e: Errs)
    ensures Atoi(e, "09") == (0, Report(e, BadNumber("09", false)))
  {
    OctalRejectsNine();
  }

  /** A double-quoted string literal's contents, or an error and the empty string. */
  function Atos(e: Errs, s: string): (r: (string, Errs))
    ensures |s| >= 2 && s[0] == '"' && s[|s| - 1] == '"' && '\\' !in s ==> r == (s[1..|s| - 1], e)
    ensures !(|s| >= 2 && s[0] == '"' && s[|s| - 1] == '"' && '\\' !in s) ==> r == ("", Report(e, BadQuote))
  {
    if |s| >= 2 && s[0] == '"' && s[|s| - 1] == '"' && '\\' !in s then (s[1..|s| - 1], e)
    else ("", Report(e, BadQuote))
  }

  function Rest(c: Cur): int {
    |c.input| - c.pos
  }

  /** The operators of a term, of an expression, and those that divide. */
  predicate MulOp(t: Token) {
    t == Punct('*') || t == Punct('/') || t == Punct('%') || t == LSH || t == RSH || t == Punct('&')
  }

  predicate AddOp(t: Token) {
    t == Punct('+') || t == Punct('-') || t == Punct('|') || t == Punct('^')
  }

  predicate DivOp(t: Token) {
    t == Punct('/') || t == Punct('%')
  }

  /** expr: terms joined by `+ - | ^`, evaluated left to right. */
  function Expr(c: Cur): (r: (U64, Cur))
    ensures Step(c, r.1)
    decreases Rest(c), 2
  {
    var (v, c1) := Term(c);
    ExprLoop(v, c1)
  }

  function ExprLoop(v: U64, c: Cur): (r: (U64, Cur))
    ensures Step(c, r.1)
    decreases Rest(c), 0
  {
    var op := Peek(c);
    if !AddOp(op) then (v, c)
    else
      var (_, c1) := Next(c);
      var (x, c2) := Term(c1);
      var (v', c3) := Accumulate(op, v, x, c2);
      ExprLoop(v', c3)
  }

  /** One additive step, wrapping; an addition that wraps is reported. */
  function Accumulate(op: Token, v: U64, x: U64, c: Cur): (r: (U64, Cur))
    ensures Step(c, r.1) && r.1.pos == c.pos
    ensures r.0 == Additive(op, v, x)
  {
    (Additive(op, v, x), if op == Punct('+') && AddOverflows(x, v) then Err(c, Overflow(v, x)) else c)
  }

  /** One additive step, wrapping. */
  function Additive(op: Token, v: U64, x: U64): U64 {
    match op
    case Punct('+') => Add(v, x)
    case Punct('-') => Sub(v, x)
    case Punct('|') => BitOr(v, x)
    case _ => BitXor(v, x)
  }

  /** term: a literal followed by `* / % << >> &` and a term (so these operators group
      to the right), or a parenthesised expression, or a unary operator and a term. */
  function Term(c: Cur): (r: (U64, Cur))
    ensures Step(c, r.1)
    decreases Rest(c), 1
  {
    var (tok, c1) := Next(c);
    match tok.tok
    case Punct('(') => Parenthesized(c1)
    case Punct('+') => Term(c1)
    case Punct('-') => var (v, c2) := Term(c1); (Neg(v), c2)
    case Punct('~') => var (v, c2) := Term(c1); (Not(v), c2)
    case Int => IntTerm(tok.text, c1)
    case _ => (0, Err(c1, UnexpectedInExpr(tok.text)))
  }

  /** A parenthesized expression after its `(`; a missing `)` is reported. */
  function Parenthesized(c: Cur): (r: (U64, Cur))
    ensures Step(c, r.1)
    decreases Rest(c), 3
  {
    var (v, c1) := Expr(c);
    var (close, c2) := Next(c1);
    (v, if close.tok != Punct(')') then Err(c2, MissingParen) else c2)
  }

  /** A term that starts with the integer literal just read. */
  function IntTerm(text: string, c: Cur): (r: (U64, Cur))
    ensures Step(c, r.1)
    decreases Rest(c), 1
  {
    var (v, e) := Atoi(c.errs, text);
    TermLoop(v, c.(errs := e))
  }

  function TermLoop(v: U64, c: Cur): (r: (U64, Cur))
    ensures Step(c, r.1)
    decreases Rest(c), 0
  {
    var op := Peek(c);
    if !MulOp(op) then (v, c)
    else
      var (_, c1) := Next(c);
      var (x, c2) := Term(c1);
      var (v', c3) := Apply(op, v, x, c2);
      var r := TermLoop(v', c3);
      r
  }

  /** One multiplicative step on a non-zero right operand (or any right operand, for
      the operators other than division and remainder). A shift by 64 or more gives 0,
      as Go's shifts do. */
  function Combine(op: Token, v: U64, x: U64): U64
    requires DivOp(op) ==> x != 0
  {
    match op
    case Punct('*') => Mul(v, x)
    case Punct('/') => Div(v, x)
    case Punct('%') => Mod(v, x)
    case LSH => Shl(v, x)
    case RSH => Shr(v, x)
    case _ => BitAnd(v, x)
  }

  /** One multiplicative step; division or remainder by zero is a runtime fault. */
  function Apply(op: Token, v: U64, x: U64, c: Cur): (r: (U64, Cur))
    ensures Step(c, r.1) && r.1.pos == c.pos
  {
    if DivOp(op) && x == 0 then (0, FaultAt(c, DivideByZero))
    else (Combine(op, v, x), c)
  }

  function FaultAt(c: Cur, why: Stop): (r: Cur)
    ensures Step(c, r) && r.pos == c.pos && r.errs.halt.Some?
  {
    c.(errs := Fault(c.errs, why))
  }

  /** floatExpr: a float literal, possibly signed or parenthesised. The value itself is
      not modelled, only the tokens it consumes and its syntax errors; a literal out of
      the float64 range, which atof reports, is taken without a report. */
  function FloatExpr(c: Cur): (r: Cur)
    ensures Step(c, r)
    decreases Rest(c)
  {
    var (tok, c1) := Next(c);
    match tok.tok
    case Punct('(') =>
      var c2 := FloatExpr(c1);
      var (close, c3) := Next(c2);
      if close.tok != Punct(')') then Err(c3, MissingParen) else c3
    case Punct('+') => FloatExpr(c1)
    case Punct('-') => FloatExpr(c1)
    case Float => c1
    case _ => Err(c1, UnexpectedInFloat(tok.text))
  }

  /** The numeric part of an operand: a float expression when a float literal lies
      ahead, otherwise an integer expression whose value becomes the int64 offset. */
  function Literal(a: Addr, c: Cur): (r: (Addr, Cur))
    ensures Step(c, r.1)
    ensures Have(c, Token.Float) ==> r == (a.(hasFloat := true), FloatExpr(c))
    ensures !Have(c, Token.Float) ==> r == (a.(hasOffset := true, offset := Int64(Expr(c).0 as int)), Expr(c).1)
  {
    if Have(c, Token.Float) then (a.(hasFloat := true), FloatExpr(c))
    else
      var (v, c1) := Expr(c);
      (a.(hasOffset := true, offset := Int64(v as int)), c1)
  }

  /** `(R)` or `(R*s)`, the opening parenthesis being next: the register becomes the
      operand's register, or with a scale its index. Reports a name that is not a
      register (twice, as a non-identifier and as unknown: only the first is kept), and a
      second base register. The flag says whether the group was scaled. */
  function ParenRegister(regs: map<string, int>, a: Addr, c: Cur): (r: (bool, Addr, Cur))
    ensures Step(c, r.2)
    ensures r.1.isIndirect
    ensures !r.0 ==> r.1 == a.(isIndirect := true, hasRegister := true, register := r.1.register)
    ensures r.0 ==> r.1 == a.(isIndirect := true, scale := r.1.scale, index := r.1.index)
  {
    var (reg, c1) := RegisterName(regs, c);
    var scaled := Peek(c1) == Punct('*');
    var (a1, c2) := if scaled then ScaledIndex(a, reg, c1) else BaseRegister(a, reg, c1);
    (scaled, a1, Close(c2))
  }

  /** Skip the opening parenthesis and read a register name; 0 for an unknown one. */
  function RegisterName(regs: map<string, int>, c: Cur): (r: (int, Cur))
    ensures Step(c, r.1)
  {
    var (_, c1) := Next(c);
    var (tok, c2) := Next(c1);
    var c3 := if tok.tok != Ident then Err(c2, RegisterNotIdent(tok.text)) else c2;
    var c4 := if tok.text !in regs then Err(c3, RegisterUnknown(tok.text)) else c3;
    (Arch.Lookup(regs, tok.text), c4)
  }

  /** `*s` after the register: the register becomes the index, s the scale. */
  function ScaledIndex(a: Addr, reg: int, c: Cur): (r: (Addr, Cur))
    ensures Step(c, r.1)
    ensures r.0 == a.(isIndirect := true, scale := r.0.scale, index := reg)
  {
    var (_, c1) := Next(c);
    var (num, c2) := Get(c1, Int);
    var (sc, e) := Scale(c2.errs, num.text);
    (a.(isIndirect := true, scale := sc, index := reg), c2.(errs := e))
  }

  /** A plain base register; a second one is reported. */
  function BaseRegister(a: Addr, reg: int, c: Cur): (r: (Addr, Cur))
    ensures Step(c, r.1)
    ensures r.0 == a.(isIndirect := true, hasRegister := true, register := reg)
    ensures r.1 == if a.hasRegister then Err(c, MultipleIndirections) else c
  {
    (a.(isIndirect := true, hasRegister := true, register := reg),
     if a.hasRegister then Err(c, MultipleIndirections) else c)
  }

  /** The closing parenthesis of a register group. */
  function Close(c: Cur): (r: Cur)
    ensures Step(c, r)
  {
    Next(Expect(c, Punct(')'))).1
  }

  /** `(R)` or `(R)(R*s)`: a second group is read only when the first was not scaled. */
  function AddressMode(regs: map<string, int>, a: Addr, c: Cur): (r: (Addr, Cur))
    ensures Step(c, r.1)
  {
    var (scaled, a1, c1) := ParenRegister(regs, a, c);
    if !scaled && Peek(c1) == Punct('(') then
      var (_, a2, c2) := ParenRegister(regs, a1, c1);
      (a2, c2)
    else (a1, c1)
  }

  /** A whole operand, into the operand parsed so far; afterwards nothing may be left.
      An empty operand is reported and nothing more is checked. */
  function Operand(regs: map<string, int>, a: Addr, c: Cur): (r: (Addr, Cur))
    ensures Step(c, r.1)
    decreases Rest(c), 2
  {
    if |c.input| == 0 then (a, Err(c, EmptyOperand))
    else
      var (a1, c1) := OperandBody(regs, a, c);
      (a1, Expect(c1, EOF))
  }

  /** The tokens a number can start with. */
  predicate StartsNumber(t: Token) {
    t == Int || t == Token.Float || t == Punct('+') || t == Punct('-') || t == Punct('~') || t == Punct('(')
  }

  /** The operand, by its first token. */
  /** The register after `*`; anything else is reported. */
  function IndirectRegister(regs: map<string, int>, a: Addr, c: Cur): (r: (Addr, Cur))
    ensures Step(c, r.1)
    ensures r.0.hasRegister
    ensures r.1.errs == c.errs <==> Next(c).0.text in regs || Flagged(c.errs)
  {
    var (tok, c1) := Next(c);
    (a.(hasRegister := true, register := Arch.Lookup(regs, tok.text)),
     if tok.text !in regs then Err(c1, IndirectNotRegister(tok.text)) else c1)
  }

  /** An operand starting with `(`: an address mode when a register name follows,
      otherwise a parenthesized number. */
  function ParenOperand(regs: map<string, int>, a: Addr, c: Cur): (r: (Addr, Cur))
    ensures Step(c, r.1)
  {
    if Peek(c.(pos := c.pos + 1)) == Ident then AddressMode(regs, a, c) else ValueOperand(regs, a, c)
  }

  function OperandBody(regs: map<string, int>, a: Addr, c: Cur): (r: (Addr, Cur))
    ensures Step(c, r.1)
    decreases Rest(c), 1
  {
    var t := Peek(c);
    if t == Ident then
      SymbolOperand(regs, a, c)
    else if t == Punct('$') then
      var (_, c1) := Next(c);
      Immediate(regs, a, c1)
    else if t == Punct('*') then
      var (_, c1) := Next(c);
      IndirectRegister(regs, a, c1)
    else if t == Punct('(') then
      ParenOperand(regs, a, c)
    else if StartsNumber(t) then
      ValueOperand(regs, a, c)
    else
      var (tok, c1) := Next(c);
      (a, Err(c1, UnexpectedInOperand(tok.text)))
  }

  /** After `$`: an address `$sym(SB)` (parsed as a whole operand of its own), a string,
      or a numeric constant. */
  function Immediate(regs: map<string, int>, a: Addr, c: Cur): (r: (Addr, Cur))
    ensures Step(c, r.1)
    decreases Rest(c), 3
  {
    var t := Peek(c);
    if t == Ident then Operand(regs, a.(isImmediateAddress := true), c)
    else if t == Token.String then
      var (tok, c1) := Next(c);
      var (s, e) := Atos(c1.errs, tok.text);
      (a.(isImmediateConstant := true, hasString := true, str := s), c1.(errs := e))
    else if StartsNumber(t) then
      Literal(a.(isImmediateConstant := true), c)
    else
      var (tok, c1) := Next(c);
      (a, Err(c1, IllegalImmediate(tok.text)))
  }

  /** A number, possibly followed by an address mode: `8`, `8(R1)`, `8(R1)(R2*4)`. */
  function ValueOperand(regs: map<string, int>, a: Addr, c: Cur): (r: (Addr, Cur))
    ensures Step(c, r.1)
  {
    var (a1, c1) := Literal(a, c);
    if Peek(c1) != EOF then AddressMode(regs, a1, Expect(c1, Punct('('))) else (a1, c1)
  }

  /** A register, a register pair `DX:AX`, or a symbol reference
      `sym<>+4(SB)(R*scale)` whose base must be SB, FP or SP. */
  function SymbolOperand(regs: map<string, int>, a: Addr, c: Cur): (r: (Addr, Cur))
    ensures Step(c, r.1)
  {
    var (tok, c1) := Next(c);
    if tok.text in regs then RegisterOperand(regs, a.(hasRegister := true, register := regs[tok.text]), c1)
    else
      var (a1, c2) := StaticMark(a, c1);
      var (a2, c3) :=
        if Peek(c2) in {Punct('+'), Punct('-')} then
          var (v, cz) := Expr(c2);
          (a1.(hasOffset := true, offset := Int64(v as int)), cz)
        else (a1, c2);
      SymbolBase(regs, a2.(symbol := tok.text), c3)
  }

  /** A register, possibly the first of a pair. */
  function RegisterOperand(regs: map<string, int>, a: Addr, c: Cur): (r: (Addr, Cur))
    ensures Step(c, r.1)
    ensures Peek(c) != Punct(':') ==> r == (a, c)
  {
    if Peek(c) == Punct(':') then
      var (_, c1) := Next(c);
      var (second, c2) := Get(c1, Ident);
      (a.(hasRegister2 := true, register2 := Arch.Lookup(regs, second.text)), c2)
    else (a, c)
  }

  /** The `<>` that makes a symbol static. */
  function StaticMark(a: Addr, c: Cur): (r: (Addr, Cur))
    ensures Step(c, r.1)
    ensures Peek(c) != Punct('<') ==> r == (a, c)
    ensures Peek(c) == Punct('<') ==> r.0 == a.(isStatic := true)
  {
    if Peek(c) == Punct('<') then
      var (_, c1) := Next(c);
      var (_, c2) := Get(c1, Punct('>'));
      (a.(isStatic := true), c2)
    else (a, c)
  }

  /** The base `(SB)`, `(FP)` or `(SP)` of a symbol reference, and any index after it. */
  function SymbolBase(regs: map<string, int>, a: Addr, c: Cur): (r: (Addr, Cur))
    ensures Step(c, r.1)
    ensures Peek(c) == EOF ==> r == (a, c)
  {
    if Peek(c) == EOF then (a, c)
    else
      var (_, a1, c1) := ParenRegister(regs, a, Expect(c, Punct('(')));
      PseudoBase(regs, a.symbol, a1, c1)
  }

  /** After the base register of `symbol`: it must be a pseudo-register, and an index
      may follow. */
  function PseudoBase(regs: map<string, int>, symbol: string, a: Addr, c: Cur): (r: (Addr, Cur))
    ensures Step(c, r.1)
  {
    var c1 := if a.register != RSB && a.register != RFP && a.register != RSP
      then Err(c, NeedPseudoBase(symbol)) else c;
    if Peek(c1) != EOF then AddressMode(regs, a, Expect(c1, Punct('('))) else (a, c1)
  }

  /** The operand parsed from a token list, starting from the empty operand. */
  function ParseOperand(regs: map<string, int>, e: Errs, operand: seq<LexToken>): (r: (Addr, Errs))
    ensures Extends(e, r.1)
  {
    var (a, c) := Operand(regs, EmptyAddr, Cur(operand, 0, e));
    (a, c.errs)
  }

  /** No token of the operand is an end-of-input token (the statement splitter stops
      at the end of input, so operands never hold one). */
  predicate NoEnd(input: seq<LexToken>) {
    forall i :: 0 <= i < |input| ==> input[i].tok != EOF
  }

  /** An operand is used up completely, or else its line has an error or the run has
      stopped: the trailing `expect(EOF)` leaves no other outcome. */
  lemma OperandConsumed(regs: map<string, int>, e: Errs, input: seq<LexToken>)
    requires NoEnd(input)
    ensures var (_, c) := Operand(regs, EmptyAddr, Cur(input, 0, e));
      c.pos == |input| || Flagged(c.errs)
  {
    var c0 := Cur(input, 0, e);
    if |input| > 0 {
      var (_, c1) := OperandBody(regs, EmptyAddr, c0);
      if Peek(c1) == EOF {
        assert c1.pos >= |input|;
      }
    }
  }

  /** An integer literal starts a term; the term continues with the operators after it. */
  lemma TermLiteral(c: Cur, v: U64)
    requires Peek(c) == Int && Atoi(c.errs, c.input[c.pos].text) == (v, c.errs)
    ensures Term(c) == TermLoop(v, Next(c).1)
  {
  }

  /** A term ends before any token that is not one of its operators. */
  lemma TermLoopEnd(v: U64, c: Cur)
    requires !MulOp(Peek(c))
    ensures TermLoop(v, c) == (v, c)
  {
  }

  /** One step of a term: the operator, the term to its right, and the rest. */
  lemma TermLoopStep(v: U64, c: Cur)
    requires MulOp(Peek(c))
    ensures var (x, c2) := Term(Next(c).1);
      var (v', c3) := Apply(Peek(c), v, x, c2);
      TermLoop(v, c) == TermLoop(v', c3)
  {
  }

  /** One step of a term whose right operand is known and not a zero divisor. */
  lemma TermLoopKnownStep(v: U64, c: Cur, x: U64, c2: Cur)
    requires MulOp(Peek(c)) && Term(Next(c).1) == (x, c2)
    requires DivOp(Peek(c)) ==> x != 0
    ensures TermLoop(v, c) == TermLoop(Combine(Peek(c), v, x), c2)
  {
    TermLoopStep(v, c);
  }

  /** The last three tokens `y op z`, op multiplicative, make a term worth y op z. */
  lemma TermBinary(input: seq<LexToken>, k: nat, e: Errs, vy: U64, vz: U64)
    requires k + 3 == |input|
    requires input[k].tok == Int && input[k + 2].tok == Int
    requires MulOp(input[k + 1].tok)
    requires DivOp(input[k + 1].tok) ==> vz != 0
    requires Atoi(e, input[k].text) == (vy, e) && Atoi(e, input[k + 2].text) == (vz, e)
    ensures Term(Cur(input, k, e)) == (Combine(input[k + 1].tok, vy, vz), Cur(input, k + 3, e))
  {
    var c3 := Cur(input, k + 3, e);
    TermSingle(Cur(input, k + 2, e), vz);
    TermLoopStep(vy, Cur(input, k + 1, e));
    TermLoopEnd(Combine(input[k + 1].tok, vy, vz), c3);
    TermLiteral(Cur(input, k, e), vy);
  }

  /** `x / y / z` is x / (y / z): the right operand of an operator after a literal is a
      whole term, so division groups to the right. */
  lemma TermGroupsRightIn(input: seq<LexToken>, e: Errs, vx: U64, vy: U64, vz: U64)
    requires |input| == 5
    requires input[0].tok == Int && input[2].tok == Int && input[4].tok == Int
    requires input[1].tok == Punct('/') && input[3].tok == Punct('/')
    requires vz != 0 && vy / vz != 0
    requires Atoi(e, input[0].text) == (vx, e) && Atoi(e, input[2].text) == (vy, e) && Atoi(e, input[4].text) == (vz, e)
    ensures Term(Cur(input, 0, e)) == (vx / (vy / vz), Cur(input, 5, e))
  {
    TermBinary(input, 2, e, vy, vz);
    TermAfterLiteral(input, e, vx, vy / vz);
  }

  /** A literal, `/` and a term reaching the end of the input. */
  lemma TermAfterLiteral(input: seq<LexToken>, e: Errs, vx: U64, w: U64)
    requires |input| >= 3 && input[0].tok == Int && input[1].tok == Punct('/')
    requires Atoi(e, input[0].text) == (vx, e)
    requires Term(Cur(input, 2, e)) == (w, Cur(input, |input|, e)) && w != 0
    ensures Term(Cur(input, 0, e)) == (vx / w, Cur(input, |input|, e))
  {
    var c1, cn := Cur(input, 1, e), Cur(input, |input|, e);
    TermLiteral(Cur(input, 0, e), vx);
    TermLoopKnownStep(vx, c1, w, cn);
    TermLoopEnd(vx / w, cn);
  }

  /** So `8/2/2` is 8/(2/2) = 8, not (8/2)/2 = 2. */
  lemma TermGroupsRight(e: Errs)
    ensures var slash := LexToken(Punct('/'), "/");
      var input := [LexToken(Int, "8"), slash, LexToken(Int, "2"), slash, LexToken(Int, "2")];
      Term(Cur(input, 0, e)) == (8, Cur(input, 5, e))
  {
    var slash := LexToken(Punct('/'), "/");
    var input := [LexToken(Int, "8"), slash, LexToken(Int, "2"), slash, LexToken(Int, "2")];
    assert Decimal(2) == "2" && Decimal(8) == "8";
    AtoiDecimal(e, 2);
    AtoiDecimal(e, 8);
    TermGroupsRightIn(input, e, 8, 2, 2);
  }

  /** A literal with no multiplicative operator after it is a term of its own value. */
  lemma TermSingle(c: Cur, v: U64)
    requires Peek(c) == Int && Atoi(c.errs, c.input[c.pos].text) == (v, c.errs)
    requires !MulOp(Peek(Next(c).1))
    ensures Term(c) == (v, Next(c).1)
  {
    TermLiteral(c, v);
    TermLoopEnd(v, Next(c).1);
  }

  /** An expression ends before any token that is not one of its operators. */
  lemma ExprLoopEnd(v: U64, c: Cur)
    requires !AddOp(Peek(c))
    ensures ExprLoop(v, c) == (v, c)
  {
  }

  /** One step of an expression: the operator, the term to its right (an overflowing
      sum reported), and the rest. */
  lemma ExprLoopStep(v: U64, c: Cur)
    requires AddOp(Peek(c))
    ensures var (x, c2) := Term(Next(c).1);
      var (v', c3) := Accumulate(Peek(c), v, x, c2);
      ExprLoop(v, c) == ExprLoop(v', c3)
  {
  }

  /** `+ - | ^` group to the left: x - y - z is (x - y) - z, with wrap-around. */
  lemma ExprGroupsLeft(input: seq<LexToken>, e: Errs, vx: U64, vy: U64, vz: U64)
    requires |input| == 5
    requires input[0].tok == Int && input[1].tok == Punct('-') && input[2].tok == Int
    requires input[3].tok == Punct('-') && input[4].tok == Int
    requires Atoi(e, input[0].text) == (vx, e) && Atoi(e, input[2].text) == (vy, e) && Atoi(e, input[4].text) == (vz, e)
    ensures Expr(Cur(input, 0, e)) == (Sub(Sub(vx, vy), vz), Cur(input, 5, e))
  {
    ExprFirstSub(input, e, vx, vy);
    ExprLastSub(input, e, Sub(vx, vy), vz);
  }

  /** The last `- z` of such an expression, ending it. */
  lemma ExprLastSub(input: seq<LexToken>, e: Errs, v: U64, vz: U64)
    requires |input| == 5 && input[3].tok == Punct('-') && input[4].tok == Int
    requires Atoi(e, input[4].text) == (vz, e)
    ensures ExprLoop(v, Cur(input, 3, e)) == (Sub(v, vz), Cur(input, 5, e))
  {
    var c3, c4, c5 := Cur(input, 3, e), Cur(input, 4, e), Cur(input, 5, e);
    assert Next(c3).1 == c4 && Next(c4).1 == c5;
    TermSingle(c4, vz);
    ExprSubStep(v, c3, vz, c5);
    ExprLoopEnd(Sub(v, vz), c5);
  }

  /** The first `x - y` of such an expression, up to the operator after it. */
  lemma ExprFirstSub(input: seq<LexToken>, e: Errs, vx: U64, vy: U64)
    requires |input| >= 4
    requires input[0].tok == Int && input[1].tok == Punct('-') && input[2].tok == Int && input[3].tok == Punct('-')
    requires Atoi(e, input[0].text) == (vx, e) && Atoi(e, input[2].text) == (vy, e)
    ensures Expr(Cur(input, 0, e)) == ExprLoop(Sub(vx, vy), Cur(input, 3, e))
  {
    var c0, c1, c2, c3 := Cur(input, 0, e), Cur(input, 1, e), Cur(input, 2, e), Cur(input, 3, e);
    assert Next(c0).1 == c1 && Next(c1).1 == c2 && Next(c2).1 == c3;
    TermSingle(c0, vx);
    ExprOfTerm(c0, vx, c1);
    TermSingle(c2, vy);
    ExprSubStep(vx, c1, vy, c3);
  }

  /** A `-` step of an expression whose right term is known. */
  lemma ExprSubStep(v: U64, c: Cur, x: U64, c2: Cur)
    requires Peek(c) == Punct('-') && Term(Next(c).1) == (x, c2)
    ensures ExprLoop(v, c) == ExprLoop(Sub(v, x), c2)
  {
  }

  /** An expression is its first term and the operators after it. */
  lemma ExprOfTerm(c: Cur, v: U64, c1: Cur)
    requires Term(c) == (v, c1)
    ensures Expr(c) == ExprLoop(v, c1)
  {
  }

  /** A parenthesised term is complete at its closing parenthesis: in `(x)*y` the term is
      x, and the `*` is left unread. */
  lemma ParenthesisedTermStops(input: seq<LexToken>, e: Errs, vx: U64)
    requires |input| == 5
    requires input[0].tok == Punct('(') && input[1].tok == Int && input[2].tok == Punct(')')
    requires input[3].tok == Punct('*') && input[4].tok == Int
    requires Atoi(e, input[1].text) == (vx, e)
    ensures Term(Cur(input, 0, e)) == (vx, Cur(input, 3, e))
    ensures Expr(Cur(input, 0, e)) == (vx, Cur(input, 3, e))
  {
    var c1, c2 := Cur(input, 1, e), Cur(input, 2, e);
    TermSingle(c1, vx);
    ExprLoopEnd(vx, c2);
    assert Expr(c1) == (vx, c2);
    ExprLoopEnd(vx, Cur(input, 3, e));
  }

  /** A unary operator applies to the whole term after it: `~x*y` is ~(x*y). */
  lemma UnaryTakesWholeTerm(input: seq<LexToken>, e: Errs, vx: U64, vy: U64)
    requires |input| == 4
    requires input[0].tok == Punct('~') && input[1].tok == Int
    requires input[2].tok == Punct('*') && input[3].tok == Int
    requires Atoi(e, input[1].text) == (vx, e) && Atoi(e, input[3].text) == (vy, e)
    ensures Term(Cur(input, 0, e)) == (Not(Mul(vx, vy)), Cur(input, 4, e))
  {
    TermBinary(input, 1, e, vx, vy);
  }

  /** Dividing by a zero literal stops the run. */
  lemma DivisionByZeroStops(input: seq<LexToken>, e: Errs, vx: U64)
    requires |input| == 3
    requires input[0].tok == Int && input[1].tok == Punct('/') && input[2].tok == Int
    requires Atoi(e, input[0].text) == (vx, e) && Atoi(e, input[2].text) == (0, e)
    ensures Term(Cur(input, 0, e)).1.errs.halt.Some?
  {
    TermSingle(Cur(input, 2, e), 0);
    TermLoopStep(vx, Cur(input, 1, e));
    TermLiteral(Cur(input, 0, e), vx);
  }

  /** An overflowing sum step: the sum wraps and the overflow is reported. */
  lemma ExprLoopOverflow(v: U64, c: Cur)
    requires Peek(c) == Punct('+')
    requires AddOverflows(Term(Next(c).1).0, v)
    ensures var (x, c2) := Term(Next(c).1);
      ExprLoop(v, c) == ExprLoop(Add(v, x), Err(c2, Overflow(v, x)))
  {
  }

  /** A sum that wraps around is reported, with both operands in decimal, and the
      wrapped value is kept. */
  lemma OverflowReported(input: seq<LexToken>, e: Errs, vx: U64, vy: U64)
    requires |input| == 3
    requires input[0].tok == Int && input[1].tok == Punct('+') && input[2].tok == Int
    requires Atoi(e, input[0].text) == (vx, e) && Atoi(e, input[2].text) == (vy, e)
    requires AddOverflows(vy, vx)
    ensures Expr(Cur(input, 0, e)) ==
      (Add(vx, vy), Cur(input, 3, Report(e, Overflow(vx, vy))))
  {
    var c3 := Cur(input, 3, e);
    TermSingle(Cur(input, 2, e), vy);
    TermSingle(Cur(input, 0, e), vx);
    ExprLoopOverflow(vx, Cur(input, 1, e));
    ExprLoopEnd(Add(vx, vy), Err(c3, Overflow(vx, vy)));
  }

  /** `(R)` with R a register, as the only base so far: the register becomes the base
      and the group is not scaled. */
  lemma ParenBase(regs: map<string, int>, a: Addr, input: seq<LexToken>, k: nat, e: Errs)
    requires k + 3 <= |input| && !a.hasRegister
    requires input[k + 1].tok == Ident && input[k + 1].text in regs && input[k + 2].tok == Punct(')')
    ensures ParenRegister(regs, a, Cur(input, k, e)) ==
      (false, a.(isIndirect := true, hasRegister := true, register := regs[input[k + 1].text]), Cur(input, k + 3, e))
  {
    assert RegisterName(regs, Cur(input, k, e)) == (regs[input[k + 1].text], Cur(input, k + 2, e));
  }

  /** `(R*s)` with R a register and s one of 1, 2, 4, 8: R becomes the index and s the
      scale, and the group is scaled. */
  lemma ParenScaled(regs: map<string, int>, a: Addr, input: seq<LexToken>, k: nat, e: Errs)
    requires k + 5 <= |input|
    requires input[k + 1].tok == Ident && input[k + 1].text in regs && input[k + 2].tok == Punct('*')
    requires input[k + 3].tok == Int && ScaleText(input[k + 3].text) && input[k + 4].tok == Punct(')')
    ensures ParenRegister(regs, a, Cur(input, k, e)) ==
      (true, a.(isIndirect := true, scale := Scale(e, input[k + 3].text).0, index := regs[input[k + 1].text]),
       Cur(input, k + 5, e))
  {
    assert RegisterName(regs, Cur(input, k, e)) == (regs[input[k + 1].text], Cur(input, k + 2, e));
    assert ScaledIndex(a, regs[input[k + 1].text], Cur(input, k + 2, e)).1 == Cur(input, k + 4, e);
  }

  /** An operand whose body ends at the end of its tokens is that body. */
  lemma OperandWhole(regs: map<string, int>, a: Addr, c: Cur, r: Addr, c2: Cur)
    requires |c.input| > 0 && OperandBody(regs, a, c) == (r, c2) && Peek(c2) == EOF
    ensures Operand(regs, a, c) == (r, c2)
  {
  }

  /** An operand starting with a name is a register or a symbol reference. */
  lemma OperandBodyIdent(regs: map<string, int>, a: Addr, c: Cur)
    requires Peek(c) == Ident
    ensures OperandBody(regs, a, c) == SymbolOperand(regs, a, c)
  {
  }

  /** An operand starting with `$` is an immediate. */
  lemma OperandBodyDollar(regs: map<string, int>, a: Addr, c: Cur)
    requires Peek(c) == Punct('$')
    ensures OperandBody(regs, a, c) == Immediate(regs, a, Next(c).1)
  {
  }

  /** A `$` followed by the start of a number is an immediate constant. */
  lemma ImmediateNumber(regs: map<string, int>, a: Addr, c: Cur)
    requires StartsNumber(Peek(c))
    ensures Immediate(regs, a, c) == Literal(a.(isImmediateConstant := true), c)
  {
  }

  /** A lone register name is a register operand. */
  lemma RegisterShape(regs: map<string, int>, e: Errs, input: seq<LexToken>)
    requires |input| == 1 && input[0].tok == Ident && input[0].text in regs
    ensures var (a, e') := ParseOperand(regs, e, input);
      e' == e && a == EmptyAddr.(hasRegister := true, register := regs[input[0].text]) && Is(a, {Register})
  {
    var r := (EmptyAddr.(hasRegister := true, register := regs[input[0].text]), Cur(input, 1, e));
    assert SymbolOperand(regs, EmptyAddr, Cur(input, 0, e)) == r;
    OperandBodyIdent(regs, EmptyAddr, Cur(input, 0, e));
    OperandWhole(regs, EmptyAddr, Cur(input, 0, e), r.0, r.1);
  }

  /** `R1:R2` is a register pair; the second name is looked up without a check. */
  lemma RegisterPairShape(regs: map<string, int>, e: Errs, input: seq<LexToken>)
    requires |input| == 3 && input[0].tok == Ident && input[0].text in regs
    requires input[1].tok == Punct(':') && input[2].tok == Ident
    ensures var (a, e') := ParseOperand(regs, e, input);
      && e' == e
      && a == EmptyAddr.(hasRegister := true, register := regs[input[0].text],
                         hasRegister2 := true, register2 := Arch.Lookup(regs, input[2].text))
      && Is(a, {Register, Register2})
  {
    var a1 := EmptyAddr.(hasRegister := true, register := regs[input[0].text]);
    var r := (a1.(hasRegister2 := true, register2 := Arch.Lookup(regs, input[2].text)), Cur(input, 3, e));
    assert RegisterOperand(regs, a1, Cur(input, 1, e)) == r;
    assert SymbolOperand(regs, EmptyAddr, Cur(input, 0, e)) == r;
    OperandBodyIdent(regs, EmptyAddr, Cur(input, 0, e));
    OperandWhole(regs, EmptyAddr, Cur(input, 0, e), r.0, r.1);
  }

  /** `$n` is an immediate constant whose offset is n as an int64. */
  lemma ImmediateShape(regs: map<string, int>, e: Errs, input: seq<LexToken>, v: U64)
    requires |input| == 2 && input[0].tok == Punct('$') && input[1].tok == Int
    requires Atoi(e, input[1].text) == (v, e)
    ensures var (a, e') := ParseOperand(regs, e, input);
      e' == e && a == EmptyAddr.(isImmediateConstant := true, hasOffset := true, offset := Int64(v))
      && Is(a, {ImmediateConstant, Offset})
  {
    var c1, c2 := Cur(input, 1, e), Cur(input, 2, e);
    TermSingle(c1, v);
    ExprLoopEnd(v, c2);
    assert !Have(c1, Token.Float);
    var r := (EmptyAddr.(isImmediateConstant := true, hasOffset := true, offset := Int64(v)), c2);
    assert Literal(EmptyAddr.(isImmediateConstant := true), c1) == r;
    ImmediateNumber(regs, EmptyAddr, c1);
    OperandBodyDollar(regs, EmptyAddr, Cur(input, 0, e));
    OperandWhole(regs, EmptyAddr, Cur(input, 0, e), r.0, r.1);
  }

  /** `(B)` after a symbol, with B one of SB, FP and SP, ending the operand. */
  lemma SymbolBaseAt(regs: map<string, int>, a: Addr, input: seq<LexToken>, k: nat, e: Errs)
    requires |input| == k + 3
    requires input[k].tok == Punct('(') && input[k + 1].tok == Ident && input[k + 2].tok == Punct(')')
    requires input[k + 1].text in regs && regs[input[k + 1].text] in {RSB, RFP, RSP}
    requires !a.hasRegister
    ensures SymbolBase(regs, a, Cur(input, k, e)) ==
      (a.(isIndirect := true, hasRegister := true, register := regs[input[k + 1].text]), Cur(input, k + 3, e))
  {
    ParenBase(regs, a, input, k, e);
  }

  /** `sym(B)` with B one of SB, FP and SP (starting at position k): a symbol, indirect
      through B. */
  lemma SymbolShapeAt(regs: map<string, int>, a: Addr, input: seq<LexToken>, k: nat, e: Errs)
    requires |input| == k + 4 && input[k].tok == Ident && input[k].text !in regs
    requires input[k + 1].tok == Punct('(') && input[k + 2].tok == Ident && input[k + 3].tok == Punct(')')
    requires input[k + 2].text in regs && regs[input[k + 2].text] in {RSB, RFP, RSP}
    requires !a.hasRegister
    ensures Operand(regs, a, Cur(input, k, e)) ==
      (a.(symbol := input[k].text, isIndirect := true, hasRegister := true, register := regs[input[k + 2].text]),
       Cur(input, k + 4, e))
  {
    var r := a.(symbol := input[k].text, isIndirect := true, hasRegister := true, register := regs[input[k + 2].text]);
    SymbolOperandAt(regs, a, input, k, e);
    OperandBodyIdent(regs, a, Cur(input, k, e));
    OperandWhole(regs, a, Cur(input, k, e), r, Cur(input, k + 4, e));
  }

  /** The symbol reference `sym(B)` itself, before the end of the operand is checked. */
  lemma SymbolOperandAt(regs: map<string, int>, a: Addr, input: seq<LexToken>, k: nat, e: Errs)
    requires |input| == k + 4 && input[k].tok == Ident && input[k].text !in regs
    requires input[k + 1].tok == Punct('(') && input[k + 2].tok == Ident && input[k + 3].tok == Punct(')')
    requires input[k + 2].text in regs && regs[input[k + 2].text] in {RSB, RFP, RSP}
    requires !a.hasRegister
    ensures SymbolOperand(regs, a, Cur(input, k, e)) ==
      (a.(symbol := input[k].text, isIndirect := true, hasRegister := true, register := regs[input[k + 2].text]),
       Cur(input, k + 4, e))
  {
    var a1 := a.(symbol := input[k].text);
    var c1 := Cur(input, k + 1, e);
    SymbolBaseAt(regs, a1, input, k + 1, e);
    assert StaticMark(a, c1) == (a, c1);
  }

  /** `(R)` ending the operand, R a register and no base register yet: the address mode
      is indirect through R and reads no second group. */
  lemma AddressModeBase(regs: map<string, int>, a: Addr, input: seq<LexToken>, k: nat, e: Errs)
    requires |input| == k + 3 && !a.hasRegister
    requires input[k + 1].tok == Ident && input[k + 1].text in regs && input[k + 2].tok == Punct(')')
    ensures AddressMode(regs, a, Cur(input, k, e)) ==
      (a.(isIndirect := true, hasRegister := true, register := regs[input[k + 1].text]), Cur(input, k + 3, e))
  {
    ParenBase(regs, a, input, k, e);
  }

  /** `(R)(I*s)` ending the operand: after an unscaled first group the second is read, so
      R is the base, I the index and s the scale. */
  lemma AddressModeBaseIndex(regs: map<string, int>, a: Addr, input: seq<LexToken>, k: nat, e: Errs)
    requires |input| == k + 8 && !a.hasRegister
    requires input[k + 1].tok == Ident && input[k + 1].text in regs && input[k + 2].tok == Punct(')')
    requires input[k + 3].tok == Punct('(')
    requires input[k + 4].tok == Ident && input[k + 4].text in regs && input[k + 5].tok == Punct('*')
    requires input[k + 6].tok == Int && ScaleText(input[k + 6].text) && input[k + 7].tok == Punct(')')
    ensures AddressMode(regs, a, Cur(input, k, e)) ==
      (a.(isIndirect := true, hasRegister := true, register := regs[input[k + 1].text],
          scale := Scale(e, input[k + 6].text).0, index := regs[input[k + 4].text]),
       Cur(input, k + 8, e))
  {
    var a1 := a.(isIndirect := true, hasRegister := true, register := regs[input[k + 1].text]);
    ParenBase(regs, a, input, k, e);
    ParenScaled(regs, a1, input, k + 3, e);
  }

  /** `(I*s)` followed by another group: a scaled first group ends the address mode, and
      the `(` after it is left unread. */
  lemma AddressModeScaledStops(regs: map<string, int>, a: Addr, input: seq<LexToken>, k: nat, e: Errs)
    requires k + 6 <= |input|
    requires input[k + 1].tok == Ident && input[k + 1].text in regs && input[k + 2].tok == Punct('*')
    requires input[k + 3].tok == Int && ScaleText(input[k + 3].text) && input[k + 4].tok == Punct(')')
    requires input[k + 5].tok == Punct('(')
    ensures AddressMode(regs, a, Cur(input, k, e)) ==
      (a.(isIndirect := true, scale := Scale(e, input[k + 3].text).0, index := regs[input[k + 1].text]),
       Cur(input, k + 5, e))
  {
    ParenScaled(regs, a, input, k, e);
  }

  /** An operand whose body reads all its tokens without a report parses to that body. */
  lemma ParsedWhole(regs: map<string, int>, e: Errs, input: seq<LexToken>, r: Addr)
    requires |input| > 0 && OperandBody(regs, EmptyAddr, Cur(input, 0, e)) == (r, Cur(input, |input|, e))
    ensures ParseOperand(regs, e, input) == (r, e)
  {
    OperandWhole(regs, EmptyAddr, Cur(input, 0, e), r, Cur(input, |input|, e));
  }

  /** An operand starting with `(` is read by ParenOperand. */
  lemma OperandBodyParen(regs: map<string, int>, a: Addr, c: Cur)
    requires Peek(c) == Punct('(')
    ensures OperandBody(regs, a, c) == ParenOperand(regs, a, c)
  {
  }

  /** An operand starting with an integer is a value operand. */
  lemma OperandBodyInt(regs: map<string, int>, a: Addr, c: Cur)
    requires Peek(c) == Int
    ensures OperandBody(regs, a, c) == ValueOperand(regs, a, c)
  {
    var t := Peek(c);
    assert t != Ident && t != Punct('$') && t != Punct('*') && t != Punct('(') && StartsNumber(t);
  }

  /** The operand `(R)`: indirect through the register R, with no report. */
  lemma ParenOperandBase(regs: map<string, int>, e: Errs, input: seq<LexToken>)
    requires |input| == 3 && input[0].tok == Punct('(')
    requires input[1].tok == Ident && input[1].text in regs && input[2].tok == Punct(')')
    ensures ParseOperand(regs, e, input) ==
      (EmptyAddr.(isIndirect := true, hasRegister := true, register := regs[input[1].text]), e)
  {
    AddressModeBase(regs, EmptyAddr, input, 0, e);
    OperandBodyParen(regs, EmptyAddr, Cur(input, 0, e));
    ParsedWhole(regs, e, input,
      EmptyAddr.(isIndirect := true, hasRegister := true, register := regs[input[1].text]));
  }

  /** The operand `(R)(I*s)`: indirect through the base R with index I and scale s, with
      no report. */
  lemma ParenOperandIndexed(regs: map<string, int>, e: Errs, input: seq<LexToken>)
    requires |input| == 8 && input[0].tok == Punct('(')
    requires input[1].tok == Ident && input[1].text in regs && input[2].tok == Punct(')')
    requires input[3].tok == Punct('(')
    requires input[4].tok == Ident && input[4].text in regs && input[5].tok == Punct('*')
    requires input[6].tok == Int && ScaleText(input[6].text) && input[7].tok == Punct(')')
    ensures ParseOperand(regs, e, input) ==
      (EmptyAddr.(isIndirect := true, hasRegister := true, register := regs[input[1].text],
                  scale := Scale(e, input[6].text).0, index := regs[input[4].text]), e)
  {
    AddressModeBaseIndex(regs, EmptyAddr, input, 0, e);
    OperandBodyParen(regs, EmptyAddr, Cur(input, 0, e));
    ParsedWhole(regs, e, input,
      EmptyAddr.(isIndirect := true, hasRegister := true, register := regs[input[1].text],
                 scale := Scale(e, input[6].text).0, index := regs[input[4].text]));
  }

  /** The operand `$"s"`: an immediate string constant holding the literal's contents,
      with no report when the literal has no escape. */
  lemma ImmediateString(regs: map<string, int>, e: Errs, input: seq<LexToken>)
    requires |input| == 2 && input[0].tok == Punct('$') && input[1].tok == Token.String
    requires Atos(e, input[1].text).1 == e
    ensures ParseOperand(regs, e, input) ==
      (EmptyAddr.(isImmediateConstant := true, hasString := true, str := Atos(e, input[1].text).0), e)
  {
    var r := EmptyAddr.(isImmediateConstant := true, hasString := true, str := Atos(e, input[1].text).0);
    assert Immediate(regs, EmptyAddr, Cur(input, 1, e)) == (r, Cur(input, 2, e));
    OperandBodyDollar(regs, EmptyAddr, Cur(input, 0, e));
    ParsedWhole(regs, e, input, r);
  }

  /** The operand `$sym(B)`, B one of SB, FP and SP: the address of the symbol, as an
      immediate address indirect through B, with no report. */
  lemma ImmediateAddress(regs: map<string, int>, e: Errs, input: seq<LexToken>)
    requires |input| == 5 && input[0].tok == Punct('$')
    requires input[1].tok == Ident && input[1].text !in regs
    requires input[2].tok == Punct('(') && input[3].tok == Ident && input[4].tok == Punct(')')
    requires input[3].text in regs && regs[input[3].text] in {RSB, RFP, RSP}
    ensures ParseOperand(regs, e, input) ==
      (EmptyAddr.(isImmediateAddress := true, symbol := input[1].text, isIndirect := true,
                  hasRegister := true, register := regs[input[3].text]), e)
  {
    var a := EmptyAddr.(isImmediateAddress := true);
    var r := a.(symbol := input[1].text, isIndirect := true, hasRegister := true, register := regs[input[3].text]);
    SymbolShapeAt(regs, a, input, 1, e);
    assert Immediate(regs, EmptyAddr, Cur(input, 1, e)) == (r, Cur(input, 5, e));
    OperandBodyDollar(regs, EmptyAddr, Cur(input, 0, e));
    ParsedWhole(regs, e, input, r);
  }

  /** The operand `$name`, name no register: the address of the symbol, with no base
      and no report. */
  lemma ImmediateSymbol(regs: map<string, int>, e: Errs, input: seq<LexToken>)
    requires |input| == 2 && input[0].tok == Punct('$')
    requires input[1].tok == Ident && input[1].text !in regs
    ensures ParseOperand(regs, e, input) ==
      (EmptyAddr.(isImmediateAddress := true, symbol := input[1].text), e)
  {
    var a := EmptyAddr.(isImmediateAddress := true);
    var r := a.(symbol := input[1].text);
    var c := Cur(input, 1, e);
    assert SymbolOperand(regs, a, c) == (r, Cur(input, 2, e));
    OperandBodyIdent(regs, a, c);
    OperandWhole(regs, a, c, r, Cur(input, 2, e));
    assert Immediate(regs, EmptyAddr, c) == (r, Cur(input, 2, e));
    OperandBodyDollar(regs, EmptyAddr, Cur(input, 0, e));
    ParsedWhole(regs, e, input, r);
  }

  /** A literal n followed by `(`: the integer expression is n alone. */
  lemma LiteralBeforeParen(a: Addr, input: seq<LexToken>, e: Errs, v: U64)
    requires |input| >= 2 && input[0].tok == Int && input[1].tok == Punct('(')
    requires forall i | 0 <= i < |input| :: input[i].tok != Token.Float
    requires Atoi(e, input[0].text) == (v, e)
    ensures Literal(a, Cur(input, 0, e)) == (a.(hasOffset := true, offset := Int64(v)), Cur(input, 1, e))
  {
    var c := Cur(input, 0, e);
    TermSingle(c, v);
    ExprOfTerm(c, v, Cur(input, 1, e));
    ExprLoopEnd(v, Cur(input, 1, e));
    assert !Have(c, Token.Float);
  }

  /** A literal n followed by an address mode: the offset is n and the address mode
      follows. */
  lemma ValueOperandAt(regs: map<string, int>, input: seq<LexToken>, e: Errs, v: U64)
    requires |input| >= 2 && input[0].tok == Int && input[1].tok == Punct('(')
    requires forall i | 0 <= i < |input| :: input[i].tok != Token.Float
    requires Atoi(e, input[0].text) == (v, e)
    ensures ValueOperand(regs, EmptyAddr, Cur(input, 0, e))
      == AddressMode(regs, EmptyAddr.(hasOffset := true, offset := Int64(v)), Cur(input, 1, e))
  {
    LiteralBeforeParen(EmptyAddr, input, e, v);
  }

  /** The operand `n(R)`: offset n (as an int64) from the register R, with no report. */
  lemma ValueOperandBase(regs: map<string, int>, e: Errs, input: seq<LexToken>, v: U64)
    requires |input| == 4 && input[0].tok == Int && input[1].tok == Punct('(')
    requires input[2].tok == Ident && input[2].text in regs && input[3].tok == Punct(')')
    requires Atoi(e, input[0].text) == (v, e)
    ensures ParseOperand(regs, e, input) ==
      (EmptyAddr.(hasOffset := true, offset := Int64(v), isIndirect := true, hasRegister := true,
                  register := regs[input[2].text]), e)
  {
    var a1 := EmptyAddr.(hasOffset := true, offset := Int64(v));
    ValueOperandAt(regs, input, e, v);
    AddressModeBase(regs, a1, input, 1, e);
    OperandBodyInt(regs, EmptyAddr, Cur(input, 0, e));
    ParsedWhole(regs, e, input, a1.(isIndirect := true, hasRegister := true, register := regs[input[2].text]));
  }

  /** The operand `n(R)(I*s)`: offset n from the base R, with index I and scale s, and no
      report. */
  lemma ValueOperandIndexed(regs: map<string, int>, e: Errs, input: seq<LexToken>, v: U64)
    requires |input| == 9 && input[0].tok == Int && input[1].tok == Punct('(')
    requires input[2].tok == Ident && input[2].text in regs && input[3].tok == Punct(')')
    requires input[4].tok == Punct('(')
    requires input[5].tok == Ident && input[5].text in regs && input[6].tok == Punct('*')
    requires input[7].tok == Int && ScaleText(input[7].text) && input[8].tok == Punct(')')
    requires Atoi(e, input[0].text) == (v, e)
    ensures ParseOperand(regs, e, input) ==
      (EmptyAddr.(hasOffset := true, offset := Int64(v), isIndirect := true, hasRegister := true,
                  register := regs[input[2].text], scale := Scale(e, input[7].text).0,
                  index := regs[input[5].text]), e)
  {
    var a1 := EmptyAddr.(hasOffset := true, offset := Int64(v));
    ValueOperandAt(regs, input, e, v);
    AddressModeBaseIndex(regs, a1, input, 1, e);
    OperandBodyInt(regs, EmptyAddr, Cur(input, 0, e));
    ParsedWhole(regs, e, input,
      a1.(isIndirect := true, hasRegister := true, register := regs[input[2].text],
          scale := Scale(e, input[7].text).0, index := regs[input[5].text]));
  }

  /** `+n` or `-n` after a symbol: the offset expression is n, or its wrapping negation. */
  lemma SignedOffset(input: seq<LexToken>, e: Errs, v: U64, minus: bool)
    requires |input| >= 4 && input[1].tok == Punct(if minus then '-' else '+')
    requires input[2].tok == Int && input[3].tok == Punct('(')
    requires Atoi(e, input[2].text) == (v, e)
    ensures Expr(Cur(input, 1, e)) == (if minus then Neg(v) else v, Cur(input, 3, e))
  {
    var w := if minus then Neg(v) else v;
    TermSingle(Cur(input, 2, e), v);
    assert Term(Cur(input, 1, e)) == (w, Cur(input, 3, e));
    ExprOfTerm(Cur(input, 1, e), w, Cur(input, 3, e));
    ExprLoopEnd(w, Cur(input, 3, e));
  }

  /** The symbol reference `sym+n(B)` or `sym-n(B)` itself. */
  lemma SymbolOffsetAt(regs: map<string, int>, e: Errs, input: seq<LexToken>, v: U64, minus: bool)
    requires |input| == 6 && input[0].tok == Ident && input[0].text !in regs
    requires input[1].tok == Punct(if minus then '-' else '+') && input[2].tok == Int
    requires input[3].tok == Punct('(') && input[4].tok == Ident && input[5].tok == Punct(')')
    requires input[4].text in regs && regs[input[4].text] in {RSB, RFP, RSP}
    requires Atoi(e, input[2].text) == (v, e)
    ensures SymbolOperand(regs, EmptyAddr, Cur(input, 0, e)) ==
      (EmptyAddr.(symbol := input[0].text, hasOffset := true, offset := Int64(if minus then Neg(v) else v),
                  isIndirect := true, hasRegister := true, register := regs[input[4].text]),
       Cur(input, 6, e))
  {
    var c1 := Cur(input, 1, e);
    var a2 := EmptyAddr.(hasOffset := true, offset := Int64(if minus then Neg(v) else v));
    SignedOffset(input, e, v, minus);
    assert StaticMark(EmptyAddr, c1) == (EmptyAddr, c1);
    SymbolBaseAt(regs, a2.(symbol := input[0].text), input, 3, e);
  }

  /** The wrapping negation of a positive n below 2^63, as an int64, is -n. */
  lemma NegOffset(v: U64)
    requires 0 < v < TwoTo63
    ensures Int64(Neg(v)) == -(v as int)
  {
    assert Neg(v) == TwoTo64 - v;
  }

  /** The operand `sym+n(B)` or `sym-n(B)`, B one of SB, FP and SP: the symbol with the
      offset n or -n, indirect through B, and no report. */
  lemma SymbolOffsetShape(regs: map<string, int>, e: Errs, input: seq<LexToken>, v: U64, minus: bool)
    requires |input| == 6 && input[0].tok == Ident && input[0].text !in regs
    requires input[1].tok == Punct(if minus then '-' else '+') && input[2].tok == Int
    requires input[3].tok == Punct('(') && input[4].tok == Ident && input[5].tok == Punct(')')
    requires input[4].text in regs && regs[input[4].text] in {RSB, RFP, RSP}
    requires Atoi(e, input[2].text) == (v, e)
    ensures var (a, e') := ParseOperand(regs, e, input);
      && e' == e
      && a == EmptyAddr.(symbol := input[0].text, hasOffset := true,
                         offset := Int64(if minus then Neg(v) else v),
                         isIndirect := true, hasRegister := true, register := regs[input[4].text])
      && (v < TwoTo63 ==> a.offset == if minus then -(v as int) else v as int)
  {
    SymbolOffsetAt(regs, e, input, v, minus);
    OperandBodyIdent(regs, EmptyAddr, Cur(input, 0, e));
    ParsedWhole(regs, e, input,
      EmptyAddr.(symbol := input[0].text, hasOffset := true, offset := Int64(if minus then Neg(v) else v),
                 isIndirect := true, hasRegister := true, register := regs[input[4].text]));
    if minus && 0 < v < TwoTo63 {
      NegOffset(v);
    }
  }
}
