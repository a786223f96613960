/** The Parser object: the assembler front end as the source runs it, one field update
    at a time. Each method does what the routine of the same name in parse.go or
    asm.go does, and is proved to leave the object in the state the corresponding
    function of Operands, Statements or Assemble computes. The properties proved about
    those functions therefore hold of the object. */
module Parsing {
  import opened Results
  import opened Lex
  import opened Link
  import opened Address
  import Arch
  import opened Uint64
  import opened Numerals
  import opened Messages
  import opened Operands
  import opened Assemble
  import opened Statements

  class Parser {
    /** The target's tables, and the token stream the preprocessor delivers. */
    const arch: Arch.Arch
    const feed: Feed
    /** How far the token stream has been read. */
    var feedPos: nat

    /** The error bookkeeping: the current statement's line, the line of the last
        report, the count and the reports themselves; halt records that the process
        has stopped. */
    var lineNum: int
    var errorLine: int
    var errorCount: int
    var diags: seq<Diag>
    var halt: Option<Stop>

    /** The operand being parsed and the cursor into it. */
    var input: seq<LexToken>
    var inputPos: nat

    /** The program so far: the virtual pc, labels waiting for an instruction, labels
        bound, jumps waiting for a label, and the instructions in link order. */
    var pc: int
    var pendingLabels: seq<string>
    var labels: map<string, nat>
    var toPatch: seq<Patch>
    var progs: seq<Prog>

    ghost predicate Valid()
      reads this
    {
      inputPos <= |input| && feedPos <= |feed.items|
    }

    function Errors(): Errs
      reads this
    {
      Errs(lineNum, errorLine, errorCount, diags, halt)
    }

    function Cursor(): Cur
      reads this
    {
      Cur(input, inputPos, Errors())
    }

    function Abs(): State
      reads this
    {
      State(Errors(), pc, pendingLabels, labels, toPatch, progs)
    }

    /** A parser for a target and a token stream, before the first statement. */
    constructor(arch: Arch.Arch, feed: Feed)
      ensures this.arch == arch && this.feed == feed
      ensures Valid() && feedPos == 0 && input == [] && Abs() == Start
    {
      this.arch := arch;
      this.feed := feed;
      feedPos := 0;
      lineNum, errorLine, errorCount, diags, halt := 0, 0, 0, [], None;
      input, inputPos := [], 0;
      pc, pendingLabels, labels, toPatch, progs := 0, [], map[], [], [];
    }

    // Errors.

    method Errorf(msg: Msg)
      modifies this`errorLine, this`errorCount, this`diags, this`halt
      ensures Errors() == Report(old(Errors()), msg)
    {
      if halt.Some? || lineNum == errorLine {
        return;
      }
      errorLine := lineNum;
      diags := diags + [Diag(lineNum, msg)];
      errorCount := errorCount + 1;
      if errorCount > 10 {
        halt := Some(TooManyErrors);
      }
    }

    /** A runtime fault: the process stops. */
    method Stop(why: Stop)
      modifies this`halt
      ensures Errors() == Fault(old(Errors()), why)
    {
      if halt.None? {
        halt := Some(why);
      }
    }

    // The cursor.

    method More() returns (b: bool)
      ensures b <==> inputPos < |input|
    {
      b := inputPos < |input|;
    }

    method Next() returns (tok: LexToken)
      modifies this`inputPos
      ensures (tok, Cursor()) == Operands.Next(old(Cursor()))
      ensures old(inputPos) < |input| ==> inputPos == old(inputPos) + 1
    {
      var more := More();
      if !more {
        return End;
      }
      tok := input[inputPos];
      inputPos := inputPos + 1;
    }

    /** Step back over the token just read. */
    method Back()
      requires inputPos > 0
      modifies this`inputPos
      ensures inputPos == old(inputPos) - 1
    {
      inputPos := inputPos - 1;
    }

    method Peek() returns (t: Token)
      ensures t == Operands.Peek(Cursor())
    {
      var more := More();
      if more {
        return input[inputPos].tok;
      }
      return EOF;
    }

    method Expect(expected: Token)
      modifies this`inputPos, this`errorLine, this`errorCount, this`diags, this`halt
      ensures Cursor() == Operands.Expect(old(Cursor()), expected)
    {
      var t := Peek();
      if t != expected {
        var tok := Next();
        Errorf(ExpectedToken(expected, tok.text));
      }
    }

    method Get(expected: Token) returns (tok: LexToken)
      modifies this`inputPos, this`errorLine, this`errorCount, this`diags, this`halt
      ensures (tok, Cursor()) == Operands.Get(old(Cursor()), expected)
    {
      Expect(expected);
      tok := Next();
    }

    /** Whether any token from the cursor on has the given kind. */
    method Have(token: Token) returns (b: bool)
      ensures b == Operands.Have(Cursor(), token)
    {
      var i := inputPos;
      while i < |input|
        invariant inputPos <= i
        invariant forall k :: inputPos <= k < i && k < |input| ==> input[k].tok != token
        decreases |input| - i
      {
        if input[i].tok == token {
          return true;
        }
        i := i + 1;
      }
      return false;
    }

    // Literals.

    method Atoi(str: string) returns (value: U64)
      modifies this`errorLine, this`errorCount, this`diags, this`halt
      ensures (value, Errors()) == Operands.Atoi(old(Errors()), str)
    {
      match NumeralValue(str)
      case None =>
        Errorf(BadNumber(str, false));
        value := 0;
      case Some(v) =>
        if v >= TwoTo64 {
          Errorf(BadNumber(str, true));
          value := MaxU64;
        } else {
          value := v;
        }
    }

    method Atos(str: string) returns (value: string)
      modifies this`errorLine, this`errorCount, this`diags, this`halt
      ensures (value, Errors()) == Operands.Atos(old(Errors()), str)
    {
      if |str| >= 2 && str[0] == '"' && str[|str| - 1] == '"' && '\\' !in str {
        value := str[1..|str| - 1];
      } else {
        Errorf(BadQuote);
        value := "";
      }
    }

    method Scale(s: string) returns (scale: int)
      modifies this`errorLine, this`errorCount, this`diags, this`halt
      ensures (scale, Errors()) == Operands.Scale(old(Errors()), s)
    {
      if s in {"1", "2", "4", "8"} {
        return s[0] as int - '0' as int;
      }
      Errorf(BadScale(s));
      return 0;
    }

    // Expressions.

    method Expr() returns (value: U64)
      requires Valid()
      modifies this`inputPos, this`errorLine, this`errorCount, this`diags, this`halt
      ensures Valid()
      ensures old(inputPos) <= inputPos
      ensures (value, Cursor()) == Operands.Expr(old(Cursor()))
      decreases |input| - inputPos, 2
    {
      value := Term();
      var op := Peek();
      while AddOp(op)
        invariant Valid() && old(inputPos) <= inputPos
        invariant op == Operands.Peek(Cursor())
        invariant ExprLoop(value, Cursor()) == Operands.Expr(old(Cursor()))
        decreases |input| - inputPos
      {
        value := ExprStep(op, value);
        op := Peek();
      }
    }

    /** One turn of expr's loop: the operator, the next term, and the sum. */
    method ExprStep(op: Token, v: U64) returns (value: U64)
      requires Valid() && AddOp(op) && op == Operands.Peek(Cursor())
      modifies this`inputPos, this`errorLine, this`errorCount, this`diags, this`halt
      ensures Valid() && old(inputPos) < inputPos
      ensures ExprLoop(value, Cursor()) == ExprLoop(v, old(Cursor()))
      decreases |input| - inputPos, 1
    {
      ghost var c := Cursor();
      var _ := Next();
      assert inputPos == c.pos + 1;
      var x := Term();
      value := Accumulate(op, v, x);
      ExprLoopStep(v, c);
    }

    /** One step of expr's loop: the operator applied, wrapping. */
    static method Sums(op: Token, value: U64, x: U64) returns (r: U64)
      requires AddOp(op)
      ensures r == Additive(op, value, x)
    {
      if op == Punct('+') {
        r := Add(value, x);
      } else if op == Punct('-') {
        r := Sub(value, x);
      } else if op == Punct('|') {
        r := BitOr(value, x);
      } else {
        r := BitXor(value, x);
      }
    }

    /** One step of expr's loop; an addition that wraps is reported. */
    method Accumulate(op: Token, value: U64, x: U64) returns (r: U64)
      requires AddOp(op)
      modifies this`errorLine, this`errorCount, this`diags, this`halt
      ensures (r, Cursor()) == Operands.Accumulate(op, value, x, old(Cursor()))
    {
      if op == Punct('+') && AddOverflows(x, value) {
        Errorf(Overflow(value, x));
      }
      r := Sums(op, value, x);
    }

    /** One step of term's loop on a right operand that is not a zero divisor. */
    static method Multiplicative(op: Token, value: U64, x: U64) returns (r: U64)
      requires MulOp(op) && (DivOp(op) ==> x != 0)
      ensures r == Combine(op, value, x)
    {
      match op
      case Punct('*') => r := Mul(value, x);
      case Punct('/') => r := Div(value, x);
      case Punct('%') => r := Mod(value, x);
      case LSH => r := Shl(value, x);
      case RSH => r := Shr(value, x);
      case _ => r := BitAnd(value, x);
    }

    method Parenthesized() returns (value: U64)
      requires Valid()
      modifies this`inputPos, this`errorLine, this`errorCount, this`diags, this`halt
      ensures Valid() && old(inputPos) <= inputPos
      ensures (value, Cursor()) == Operands.Parenthesized(old(Cursor()))
      decreases |input| - inputPos, 3
    {
      value := Expr();
      var close := Next();
      if close.tok != Punct(')') {
        Errorf(MissingParen);
      }
    }

    method Term() returns (value: U64)
      requires Valid()
      modifies this`inputPos, this`errorLine, this`errorCount, this`diags, this`halt
      ensures Valid()
      ensures old(inputPos) <= inputPos
      ensures (value, Cursor()) == Operands.Term(old(Cursor()))
      decreases |input| - inputPos, 1
    {
      var tok := Next();
      match tok.tok
      case Punct('(') =>
        value := Parenthesized();
      case Punct('+') =>
        value := Term();
      case Punct('-') =>
        value := Term();
        value := Neg(value);
      case Punct('~') =>
        value := Term();
        value := Not(value);
      case Int =>
        value := IntTerm(tok.text);
      case _ =>
        Errorf(UnexpectedInExpr(tok.text));
        value := 0;
    }

    /** The rest of a term that starts with an integer literal: the literal's value,
        then `* / % << >> &` each with a whole term on its right. */
    method IntTerm(text: string) returns (value: U64)
      requires Valid() && inputPos > 0
      modifies this`inputPos, this`errorLine, this`errorCount, this`diags, this`halt
      ensures Valid()
      ensures old(inputPos) <= inputPos
      ensures (value, Cursor()) == Operands.IntTerm(text, old(Cursor()))
      decreases |input| - inputPos + 1, 0
    {
      value := Atoi(text);
      var op := Peek();
      while MulOp(op)
        invariant Valid() && old(inputPos) <= inputPos
        invariant op == Operands.Peek(Cursor())
        invariant TermLoop(value, Cursor()) == Operands.IntTerm(text, old(Cursor()))
        decreases |input| - inputPos
      {
        ghost var c, v := Cursor(), value;
        var _ := Next();
        assert inputPos == c.pos + 1;
        var x := Term();
        ghost var c2 := Cursor();
        if DivOp(op) && x == 0 {
          Stop(DivideByZero);
          value := 0;
        } else {
          value := Multiplicative(op, value, x);
        }
        assert (value, Cursor()) == Apply(op, v, x, c2);
        TermLoopStep(v, c);
        op := Peek();
      }
    }

    /** A float expression: only the tokens it reads and the errors it reports. */
    method FloatExpr()
      requires Valid()
      modifies this`inputPos, this`errorLine, this`errorCount, this`diags, this`halt
      ensures Valid()
      ensures old(inputPos) <= inputPos
      ensures Cursor() == Operands.FloatExpr(old(Cursor()))
      decreases |input| - inputPos
    {
      var tok := Next();
      match tok.tok
      case Punct('(') =>
        FloatExpr();
        var close := Next();
        if close.tok != Punct(')') {
          Errorf(MissingParen);
        }
      case Punct('+') =>
        FloatExpr();
      case Punct('-') =>
        FloatExpr();
      case Float =>
      case _ =>
        Errorf(UnexpectedInFloat(tok.text));
    }

    // Operands.

    /** `(R)` or `(R*s)`, the opening parenthesis being next; whether it was scaled. */
    method ParenRegister(a: Addr) returns (scaled: bool, r: Addr)
      requires Valid()
      modifies this`inputPos, this`errorLine, this`errorCount, this`diags, this`halt
      ensures Valid() && old(inputPos) <= inputPos
      ensures (scaled, r, Cursor()) == Operands.ParenRegister(arch.registers, a, old(Cursor()))
    {
      var reg := RegisterName();
      var t := Peek();
      scaled := t == Punct('*');
      if scaled {
        r := ScaledIndex(a, reg);
      } else {
        r := BaseRegister(a, reg);
      }
      Close();
    }

    /** Past the opening parenthesis, the register's name and number. */
    method RegisterName() returns (reg: int)
      requires Valid()
      modifies this`inputPos, this`errorLine, this`errorCount, this`diags, this`halt
      ensures Valid() && old(inputPos) <= inputPos
      ensures (reg, Cursor()) == Operands.RegisterName(arch.registers, old(Cursor()))
    {
      var _ := Next();
      var tok := Next();
      if tok.tok != Ident {
        Errorf(RegisterNotIdent(tok.text));
      }
      if tok.text !in arch.registers {
        Errorf(RegisterUnknown(tok.text));
      }
      reg := Arch.Lookup(arch.registers, tok.text);
    }

    /** `*s`: the register is the index, s the scale. */
    method ScaledIndex(a: Addr, reg: int) returns (r: Addr)
      requires Valid()
      modifies this`inputPos, this`errorLine, this`errorCount, this`diags, this`halt
      ensures Valid() && old(inputPos) <= inputPos
      ensures (r, Cursor()) == Operands.ScaledIndex(a, reg, old(Cursor()))
    {
      var _ := Next();
      var num := Get(Int);
      var sc := Scale(num.text);
      r := a.(isIndirect := true, scale := sc, index := reg);
    }

    /** The register is the base; a second base is reported. */
    method BaseRegister(a: Addr, reg: int) returns (r: Addr)
      modifies this`errorLine, this`errorCount, this`diags, this`halt
      ensures (r, Cursor()) == Operands.BaseRegister(a, reg, old(Cursor()))
    {
      if a.hasRegister {
        Errorf(MultipleIndirections);
      }
      r := a.(isIndirect := true, hasRegister := true, register := reg);
    }

    method Close()
      requires Valid()
      modifies this`inputPos, this`errorLine, this`errorCount, this`diags, this`halt
      ensures Valid() && old(inputPos) <= inputPos
      ensures Cursor() == Operands.Close(old(Cursor()))
    {
      Expect(Punct(')'));
      var _ := Next();
    }

    /** `(R)` or `(R)(R*s)`: a second group only after an unscaled first. */
    method AddressMode(a: Addr) returns (r: Addr)
      requires Valid()
      modifies this`inputPos, this`errorLine, this`errorCount, this`diags, this`halt
      ensures Valid() && old(inputPos) <= inputPos
      ensures (r, Cursor()) == Operands.AddressMode(arch.registers, a, old(Cursor()))
    {
      var scaled;
      scaled, r := ParenRegister(a);
      var t := Peek();
      if !scaled && t == Punct('(') {
        scaled, r := ParenRegister(r);
      }
    }

    /** A whole operand; afterwards nothing may be left. */
    method Operand(a: Addr) returns (r: Addr)
      requires Valid()
      modifies this`inputPos, this`errorLine, this`errorCount, this`diags, this`halt
      ensures Valid() && old(inputPos) <= inputPos
      ensures (r, Cursor()) == Operands.Operand(arch.registers, a, old(Cursor()))
      decreases |input| - inputPos, 2
    {
      if |input| == 0 {
        Errorf(EmptyOperand);
        return a;
      }
      r := OperandBody(a);
      Expect(EOF);
    }

    /** The operand, by its first token. */
    method OperandBody(a: Addr) returns (r: Addr)
      requires Valid()
      modifies this`inputPos, this`errorLine, this`errorCount, this`diags, this`halt
      ensures Valid() && old(inputPos) <= inputPos
      ensures (r, Cursor()) == Operands.OperandBody(arch.registers, a, old(Cursor()))
      decreases |input| - inputPos, 1
    {
      var t := Peek();
      if t == Punct('$') {
        var _ := Next();
        r := Immediate(a);
      } else if t == Punct('*') {
        var _ := Next();
        r := IndirectRegister(a);
      } else if t == Punct('(') {
        r := ParenOperand(a);
      } else if t == Punct('+') || t == Punct('-') || t == Punct('~') || t == Int || t == Token.Float {
        r := ValueOperand(a);
      } else if t == Ident {
        r := SymbolOperand(a);
      } else {
        var tok := Next();
        Errorf(UnexpectedInOperand(tok.text));
        r := a;
      }
    }

    /** The register after `*`. */
    method IndirectRegister(a: Addr) returns (r: Addr)
      requires Valid()
      modifies this`inputPos, this`errorLine, this`errorCount, this`diags, this`halt
      ensures Valid() && old(inputPos) <= inputPos
      ensures (r, Cursor()) == Operands.IndirectRegister(arch.registers, a, old(Cursor()))
    {
      var tok := Next();
      if tok.text !in arch.registers {
        Errorf(IndirectNotRegister(tok.text));
      }
      r := a.(hasRegister := true, register := Arch.Lookup(arch.registers, tok.text));
    }

    /** An operand starting with `(`: look past it for a register name. */
    method ParenOperand(a: Addr) returns (r: Addr)
      requires Valid() && inputPos < |input| && input[inputPos].tok == Punct('(')
      modifies this`inputPos, this`errorLine, this`errorCount, this`diags, this`halt
      ensures Valid() && old(inputPos) <= inputPos
      ensures (r, Cursor()) == Operands.ParenOperand(arch.registers, a, old(Cursor()))
    {
      ghost var c := Cursor();
      var _ := Next();
      var t := Peek();
      Back();
      assert Cursor() == c && t == Operands.Peek(c.(pos := c.pos + 1));
      if t == Ident {
        r := AddressMode(a);
      } else {
        r := ValueOperand(a);
      }
    }

    /** After `$`: an address, a string or a numeric constant. */
    method Immediate(a: Addr) returns (r: Addr)
      requires Valid()
      modifies this`inputPos, this`errorLine, this`errorCount, this`diags, this`halt
      ensures Valid() && old(inputPos) <= inputPos
      ensures (r, Cursor()) == Operands.Immediate(arch.registers, a, old(Cursor()))
      decreases |input| - inputPos, 3
    {
      var t := Peek();
      if t == Ident {
        r := Operand(a.(isImmediateAddress := true));
      } else if t == Token.String {
        var tok := Next();
        var str := Atos(tok.text);
        r := a.(isImmediateConstant := true, hasString := true, str := str);
      } else if StartsNumber(t) {
        r := Literal(a.(isImmediateConstant := true));
      } else {
        var tok := Next();
        Errorf(IllegalImmediate(tok.text));
        r := a;
      }
    }

    /** A float expression when a float literal lies ahead, else an integer one. */
    method Literal(a: Addr) returns (r: Addr)
      requires Valid()
      modifies this`inputPos, this`errorLine, this`errorCount, this`diags, this`halt
      ensures Valid() && old(inputPos) <= inputPos
      ensures (r, Cursor()) == Operands.Literal(a, old(Cursor()))
    {
      var float := Have(Token.Float);
      if float {
        FloatExpr();
        r := a.(hasFloat := true);
      } else {
        var v := Expr();
        r := a.(hasOffset := true, offset := Int64(v as int));
      }
    }

    /** A number, possibly followed by an address mode. */
    method ValueOperand(a: Addr) returns (r: Addr)
      requires Valid()
      modifies this`inputPos, this`errorLine, this`errorCount, this`diags, this`halt
      ensures Valid() && old(inputPos) <= inputPos
      ensures (r, Cursor()) == Operands.ValueOperand(arch.registers, a, old(Cursor()))
    {
      r := Literal(a);
      var t := Peek();
      if t != EOF {
        Expect(Punct('('));
        r := AddressMode(r);
      }
    }

    /** A register, a register pair, or a symbol reference. */
    method SymbolOperand(a: Addr) returns (r: Addr)
      requires Valid()
      modifies this`inputPos, this`errorLine, this`errorCount, this`diags, this`halt
      ensures Valid() && old(inputPos) <= inputPos
      ensures (r, Cursor()) == Operands.SymbolOperand(arch.registers, a, old(Cursor()))
    {
      var tok := Next();
      if tok.text in arch.registers {
        r := RegisterOperand(a.(hasRegister := true, register := arch.registers[tok.text]));
        return;
      }
      r := StaticMark(a);
      var t := Peek();
      if t == Punct('+') || t == Punct('-') {
        var v := Expr();
        r := r.(hasOffset := true, offset := Int64(v as int));
      }
      r := SymbolBase(r.(symbol := tok.text));
    }

    /** A register, possibly the first of a pair `DX:AX`. */
    method RegisterOperand(a: Addr) returns (r: Addr)
      requires Valid()
      modifies this`inputPos, this`errorLine, this`errorCount, this`diags, this`halt
      ensures Valid() && old(inputPos) <= inputPos
      ensures (r, Cursor()) == Operands.RegisterOperand(arch.registers, a, old(Cursor()))
    {
      var t := Peek();
      if t == Punct(':') {
        var _ := Next();
        var second := Get(Ident);
        return a.(hasRegister2 := true, register2 := Arch.Lookup(arch.registers, second.text));
      }
      return a;
    }

    /** The `<>` of a static symbol. */
    method StaticMark(a: Addr) returns (r: Addr)
      requires Valid()
      modifies this`inputPos, this`errorLine, this`errorCount, this`diags, this`halt
      ensures Valid() && old(inputPos) <= inputPos
      ensures (r, Cursor()) == Operands.StaticMark(a, old(Cursor()))
    {
      var t := Peek();
      if t == Punct('<') {
        var _ := Next();
        var _ := Get(Punct('>'));
        return a.(isStatic := true);
      }
      return a;
    }

    /** The base `(SB)`, `(FP)` or `(SP)` of a symbol reference, and any index. */
    method SymbolBase(a: Addr) returns (r: Addr)
      requires Valid()
      modifies this`inputPos, this`errorLine, this`errorCount, this`diags, this`halt
      ensures Valid() && old(inputPos) <= inputPos
      ensures (r, Cursor()) == Operands.SymbolBase(arch.registers, a, old(Cursor()))
    {
      var t := Peek();
      if t == EOF {
        return a;
      }
      Expect(Punct('('));
      var _, r1 := ParenRegister(a);
      r := PseudoBase(a.symbol, r1);
    }

    /** The base register of `symbol` must be a pseudo-register; an index may follow. */
    method PseudoBase(symbol: string, a: Addr) returns (r: Addr)
      requires Valid()
      modifies this`inputPos, this`errorLine, this`errorCount, this`diags, this`halt
      ensures Valid() && old(inputPos) <= inputPos
      ensures (r, Cursor()) == Operands.PseudoBase(arch.registers, symbol, a, old(Cursor()))
    {
      if a.register != RSB && a.register != RFP && a.register != RSP {
        Errorf(NeedPseudoBase(symbol));
      }
      r := a;
      var t := Peek();
      if t != EOF {
        Expect(Punct('('));
        r := AddressMode(r);
      }
    }

    /** Parse one operand's tokens into an operand. */
    method Address(operand: seq<LexToken>) returns (r: Addr)
      requires Valid()
      modifies this`input, this`inputPos, this`errorLine, this`errorCount, this`diags, this`halt
      ensures Valid() && input == operand
      ensures (r, Errors()) == ParseAddr(arch, old(Errors()), operand)
    {
      input, inputPos := operand, 0;
      r := Operand(EmptyAddr);
      assert Errors() == Cursor().errs;
    }

    // Output addresses.

    /** The output address of a parsed operand, each of its errors reported in turn. */
    method ConvertAddr(x: Addr) returns (to: LAddr)
      modifies this`errorLine, this`errorCount, this`diags, this`halt
      ensures (to, Errors()) == Convert(old(Errors()), x)
    {
      var c := AddrToAddr(x);
      for i := 0 to |c.errors|
        invariant ReportAll(Errors(), c.errors[i..]) == ReportAll(old(Errors()), c.errors)
      {
        Errorf(c.errors[i]);
        assert c.errors[i..][1..] == c.errors[i + 1..];
      }
      to := c.value;
    }

    // Linking.

    /** Append an instruction to the program; with doLabel, advance the pc and bind the
        pending labels to the instruction. */
    method Link(prog: Prog, doLabel: bool)
      modifies this`errorLine, this`errorCount, this`diags, this`halt, this`pc, this`pendingLabels, this`labels, this`progs
      ensures Abs() == LinkProg(old(Abs()), prog, doLabel)
    {
      var at := |progs|;
      if doLabel {
        pc := pc + 1;
        for i := 0 to |pendingLabels|
          invariant pendingLabels == old(pendingLabels) && pc == old(pc) + 1 && progs == old(progs)
          invariant BindLabels(Errors(), labels, pendingLabels[i..], at) == BindLabels(old(Errors()), old(labels), pendingLabels, at)
        {
          var name := pendingLabels[i];
          if name in labels {
            Errorf(LabelRedefined(name));
          }
          labels := labels[name := at];
          assert pendingLabels[i..][1..] == pendingLabels[i + 1..];
        }
        pendingLabels := [];
      }
      progs := progs + [prog.(pc := Int64(pc))];
    }

    /** Point the jump at position jmp to the instruction at position target. */
    method Branch(jmp: nat, target: nat)
      requires jmp < |progs|
      modifies this`progs
      ensures Abs() == BranchJump(old(Abs()), jmp, target)
    {
      progs := progs[jmp := progs[jmp].(to := BranchAddr(target))];
    }

    /** Resolve every waiting jump to its label, reporting the labels never bound. */
    method Patch()
      requires Linked(Abs())
      modifies this`errorLine, this`errorCount, this`diags, this`halt, this`progs
      ensures Abs() == PatchFrom(old(Abs()), 0)
    {
      for i := 0 to |toPatch|
        invariant Linked(Abs())
        invariant PatchFrom(Abs(), i) == PatchFrom(old(Abs()), 0)
      {
        ghost var s := Abs();
        var patch := toPatch[i];
        if patch.name in labels {
          Branch(patch.prog, labels[patch.name]);
        } else {
          Errorf(UndefinedLabel(patch.name));
        }
        PatchFromStep(s, i);
      }
    }

    // Instructions.

    /** A jump or call, linked with its destination. */
    method AsmJump(op: int, addrs: seq<Addr>)
      requires Linked(Abs())
      modifies this`errorLine, this`errorCount, this`diags, this`halt, this`pc, this`pendingLabels, this`labels, this`toPatch, this`progs
      ensures Abs() == Jump(arch, old(Abs()), op, addrs)
    {
      var target: Addr;
      if |addrs| == 1 {
        target := addrs[0];
      } else if |addrs| == 2 {
        if !Is(addrs[0], {}) {
          Errorf(JumpFirstNotEmpty);
        }
        target := addrs[1];
      } else {
        Errorf(JumpOperands);
        Stop(NilDereference);
        return;
      }
      var prog := Prog(op, lineNum, arch.noAddr, ZeroAddr, 0);
      var to := Destination(target);
      Link(prog.(to := to), true);
    }

    /** The destination of a jump to t from the instruction about to be linked; a label
        not bound yet queues the jump for patching. */
    method Destination(t: Addr) returns (to: LAddr)
      modifies this`errorLine, this`errorCount, this`diags, this`halt, this`toPatch
      ensures (to, Abs()) == JumpDestination(old(Abs()), t)
    {
      if Is(t, {Register}) {
        to := ConvertAddr(t);
      } else if Is(t, {Symbol}) {
        if t.symbol in labels {
          to := BranchAddr(labels[t.symbol]);
        } else {
          toPatch := toPatch + [Assemble.Patch(|progs|, t.symbol)];
          to := ZeroAddr;
        }
      } else if Is(t, {Register, Indirect}) || Is(t, {Register, Indirect, Offset}) {
        if t.register == RPC {
          to := Typed(AddrType.Branch, Int64(pc + 1 + t.offset));
        } else {
          to := ConvertAddr(t);
        }
      } else if Is(t, {Symbol, Indirect, Register}) {
        if t.register != RSB {
          Errorf(JumpNotSB);
        }
        to := NoAddr.(typ := AddrType.Branch, sym := Some(t.symbol), offset := t.offset);
      } else {
        Errorf(CannotAssembleJump);
        to := ZeroAddr;
      }
    }

    /** Any other instruction, linked with the addresses its operand count calls for. */
    method AsmInstruction(op: int, addrs: seq<Addr>)
      requires Linked(Abs())
      modifies this`errorLine, this`errorCount, this`diags, this`halt, this`pc, this`pendingLabels, this`labels, this`progs
      ensures Abs() == Assemble.Instruction(arch, old(Abs()), op, addrs)
    {
      var from, to := OperandSlots(op, addrs);
      Link(Prog(op, lineNum, from, to, 0), true);
    }

    /** The addresses of a three-operand instruction. */
    method ThreeSlots(x: Addr, y: Addr, z: Addr) returns (from: LAddr, to: LAddr)
      modifies this`errorLine, this`errorCount, this`diags, this`halt
      ensures (from, to, Errors()) == Assemble.ThreeSlots(old(Errors()), x, y, z)
    {
      from := ConvertAddr(x);
      to := ConvertAddr(y);
      if Is(z, {Offset}) {
        to := to.(offset := z.offset);
      } else if Is(z, {Register}) {
        to := ConvertAddr(z);
        from := ConvertAddr(y);
        if !x.isImmediateConstant {
          Errorf(ExpectedImmediateFirst);
        }
        to := to.(offset := x.offset);
      } else {
        Errorf(ExpectedThirdOperand);
      }
    }

    /** The source and destination addresses of an instruction. */
    method OperandSlots(op: int, addrs: seq<Addr>) returns (from: LAddr, to: LAddr)
      modifies this`errorLine, this`errorCount, this`diags, this`halt
      ensures (from, to, Errors()) == Slots(arch, old(Errors()), op, addrs)
    {
      if |addrs| == 0 {
        from, to := arch.noAddr, arch.noAddr;
      } else if |addrs| == 1 {
        var x := ConvertAddr(addrs[0]);
        if Arch.IsUnaryDestination(arch, op) {
          from, to := arch.noAddr, x;
        } else {
          from, to := x, arch.noAddr;
        }
      } else if |addrs| == 2 {
        from := ConvertAddr(addrs[0]);
        to := ConvertAddr(addrs[1]);
        if Has(addrs[1], {Register2}) {
          if from.index != NoType {
            Errorf(PairNeedsRegister);
          }
          from := from.(index := Reg(addrs[1].register2));
        }
      } else if |addrs| == 3 {
        from, to := ThreeSlots(addrs[0], addrs[1], addrs[2]);
      } else {
        from, to := ZeroAddr, ZeroAddr;
        Errorf(OperandCount(|addrs|));
      }
    }

    // Statements.

    /** The next token of the stream; end of input once it is used up. */
    method LexNext() returns (it: Item)
      requires feedPos <= |feed.items|
      modifies this`feedPos
      ensures (it, feedPos) == Read(feed, old(feedPos))
    {
      if feedPos == |feed.items| {
        return Item(EOF, "", feed.endLine);
      }
      it := feed.items[feedPos];
      feedPos := feedPos + 1;
    }

    /** Read past blank lines to a statement's first token, taking its line number as the
        current line. */
    method FirstToken() returns (it: Item)
      requires feedPos <= |feed.items|
      modifies this`feedPos, this`lineNum
      ensures feedPos <= |feed.items| && lineNum == it.line
      ensures (it, feedPos) == Read(feed, SkipNewlines(feed, old(feedPos)))
    {
      ghost var at := feedPos;
      it := LexNext();
      lineNum := it.line;
      while it.tok == Newline
        invariant at <= |feed.items| && (it, feedPos) == Read(feed, at)
        invariant SkipNewlines(feed, at) == SkipNewlines(feed, old(feedPos))
        invariant lineNum == it.line
        decreases |feed.items| - at
      {
        at := feedPos;
        it := LexNext();
        lineNum := it.line;
      }
    }

    /** The operands after a statement's word, comma-separated and ended by a newline or
        a semicolon; a colon straight after the word makes it a label. */
    method GatherOperands() returns (g: Gathered)
      requires feedPos <= |feed.items|
      modifies this`feedPos, this`errorLine, this`errorCount, this`diags, this`halt
      ensures feedPos <= |feed.items|
      ensures (g, Errors(), feedPos) == Gather(feed, old(feedPos), old(Errors()), true, [], [])
    {
      var operands: seq<seq<LexToken>> := [];
      var first := true;
      var tok := Ident;
      while tok != Newline && tok != Semicolon
        invariant feedPos <= |feed.items|
        invariant tok != Newline && tok != Semicolon ==>
          Gather(feed, feedPos, Errors(), first, operands, []) == Gather(feed, old(feedPos), old(Errors()), true, [], [])
        invariant tok == Newline || tok == Semicolon ==>
          (Done(operands), Errors(), feedPos) == Gather(feed, old(feedPos), old(Errors()), true, [], [])
        decreases |feed.items| - feedPos, if tok == Newline || tok == Semicolon then 0 else 1
      {
        ghost var start := feedPos;
        var items: seq<LexToken> := [];
        while true
          invariant start <= feedPos <= |feed.items|
          invariant Gather(feed, feedPos, Errors(), first, operands, items) == Gather(feed, old(feedPos), old(Errors()), true, [], [])
          decreases |feed.items| - feedPos
        {
          var it := LexNext();
          tok := it.tok;
          if first {
            if tok == Colon {
              return LabelDef;
            }
            first := false;
          }
          if tok == EOF {
            Errorf(UnexpectedEOF);
            return CutShort;
          }
          if tok == Newline || tok == Semicolon || tok == Comma {
            break;
          }
          items := items + [LexToken(tok, it.text)];
        }
        if |items| > 0 {
          operands := operands + [items];
        } else if |operands| > 0 {
          Errorf(MissingOperand);
        }
      }
      return Done(operands);
    }

    /** One statement; the answer is whether to go on. */
    method Line() returns (more: bool)
      requires Valid() && Linked(Abs())
      modifies this
      ensures Valid()
      ensures (more, Abs(), feedPos) == Statements.Line(arch, feed, old(Abs()), old(feedPos))
    {
      var it := FirstToken();
      if it.tok == EOF {
        return false;
      }
      if it.tok != Ident {
        Errorf(ExpectedIdentifier(it.text));
        return false;
      }
      more := Statement(it.text);
    }

    /** The rest of a statement after its word. */
    method Statement(word: string) returns (more: bool)
      requires Valid() && Linked(Abs())
      modifies this
      ensures Valid()
      ensures (more, Abs(), feedPos) == Statements.Statement(arch, feed, old(Abs()), word, old(feedPos))
    {
      var g := GatherOperands();
      match g
      case LabelDef =>
        pendingLabels := pendingLabels + [word];
        more := true;
      case CutShort =>
        more := false;
      case Done(operands) =>
        Dispatch(word, operands);
        more := true;
    }

    /** A pseudo-op, an instruction, or an unrecognized word. */
    method Dispatch(word: string, operands: seq<seq<LexToken>>)
      requires Valid() && Linked(Abs())
      modifies this`input, this`inputPos, this`errorLine, this`errorCount, this`diags, this`halt, this`pc, this`pendingLabels, this`labels, this`toPatch, this`progs
      ensures Valid()
      ensures Abs() == Statements.Dispatch(arch, old(Abs()), word, operands)
    {
      var op := Arch.Lookup(arch.pseudos, word);
      if op != 0 {
        Pseudo(op, word, operands);
        return;
      }
      op := Arch.Lookup(arch.instructions, word);
      if op != 0 {
        Instruction(op, word, operands);
        return;
      }
      Errorf(UnrecognizedInstruction(word));
    }

    /** The pseudo-op with code op, built by the function of the same name. */
    method Pseudo(op: int, word: string, operands: seq<seq<LexToken>>)
      modifies this`errorLine, this`errorCount, this`diags, this`halt, this`pc, this`pendingLabels, this`labels, this`toPatch, this`progs
      ensures Abs() == Statements.Pseudo(arch, old(Abs()), op, word, operands)
    {
      var s: State;
      if op == Arch.Lookup(arch.pseudos, "TEXT") {
        s := Text(arch, Abs(), op, operands);
      } else if op == Arch.Lookup(arch.pseudos, "DATA") {
        s := Data(arch, Abs(), op, operands);
      } else if op == Arch.Lookup(arch.pseudos, "GLOBL") {
        s := Globl(arch, Abs(), op, operands);
      } else if op == Arch.Lookup(arch.pseudos, "PCDATA") {
        s := PCData(arch, Abs(), op, operands);
      } else if op == Arch.Lookup(arch.pseudos, "FUNCDATA") {
        s := FuncData(arch, Abs(), op, operands);
      } else {
        Errorf(Unimplemented(word));
        return;
      }
      Install(s);
    }

    /** Take on the state a pseudo-op builder computed. */
    method Install(s: State)
      requires s.errs.lineNum == lineNum
      modifies this`errorLine, this`errorCount, this`diags, this`halt, this`pc, this`pendingLabels, this`labels, this`toPatch, this`progs
      ensures Abs() == s
    {
      errorLine, errorCount, diags, halt := s.errs.errorLine, s.errs.errorCount, s.errs.diags, s.errs.halt;
      pc, pendingLabels, labels, toPatch, progs := s.pc, s.pending, s.labels, s.toPatch, s.progs;
    }

    /** An instruction: each operand parsed in turn, then a jump or any other
        instruction. */
    method Instruction(op: int, word: string, operands: seq<seq<LexToken>>)
      requires Valid() && Linked(Abs())
      modifies this`input, this`inputPos, this`errorLine, this`errorCount, this`diags, this`halt, this`pc, this`pendingLabels, this`labels, this`toPatch, this`progs
      ensures Valid()
      ensures Abs() == InstructionLine(arch, old(Abs()), op, word, operands)
    {
      var addrs := ParseOperands(operands);
      if |word| == 0 {
        Stop(IndexOutOfRange);
        return;
      }
      if word[0] == 'J' || word == "CALL" {
        AsmJump(op, addrs);
      } else {
        AsmInstruction(op, addrs);
      }
    }

    /** Each operand parsed in turn. */
    method ParseOperands(operands: seq<seq<LexToken>>) returns (addrs: seq<Addr>)
      requires Valid()
      modifies this`input, this`inputPos, this`errorLine, this`errorCount, this`diags, this`halt
      ensures Valid()
      ensures (addrs, Errors()) == Addresses(arch, old(Errors()), operands)
    {
      addrs := [];
      for i := 0 to |operands|
        invariant Valid()
        invariant (addrs, Errors()) == Addresses(arch, old(Errors()), operands[..i])
      {
        var x := Address(operands[i]);
        addrs := addrs + [x];
        assert operands[..i + 1][..i] == operands[..i];
      }
      assert operands[..|operands|] == operands;
    }

    /** Whether every waiting jump's label is bound. */
    method AllLabelsBound() returns (b: bool)
      ensures b <==> AllBound(Abs())
    {
      for i := 0 to |toPatch|
        invariant forall j :: 0 <= j < i ==> toPatch[j].name in labels
      {
        if toPatch[i].name !in labels {
          return false;
        }
      }
      return true;
    }

    /** Every statement, then the end of the run: the reports when there are any,
        otherwise the program with its jumps resolved, and a rejection when a jump's
        label was never bound (the corrected end, Statements.FinishChecked). */
    method Parse() returns (r: Run)
      requires Valid() && Linked(Abs())
      modifies this
      ensures r == FinishChecked(ParseFrom(arch, feed, old(Abs()), old(feedPos)))
      ensures old(Abs()) == Start && old(feedPos) == 0 ==> r == Statements.ParseChecked(arch, feed)
    {
      while halt.None?
        invariant Valid() && Linked(Abs())
        invariant ParseFrom(arch, feed, Abs(), feedPos) == ParseFrom(arch, feed, old(Abs()), old(feedPos))
        decreases |feed.items| - feedPos
      {
        var more := Line();
        if !more {
          break;
        }
      }
      if halt.Some? {
        return Died(halt.value, diags);
      }
      if errorCount > 0 {
        return Rejected(diags);
      }
      var bound := AllLabelsBound();
      Patch();
      if !bound {
        return Rejected(diags);
      }
      return Assembled(progs, diags);
    }
  }
}
