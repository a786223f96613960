/** The instruction builders: how a statement's operands become an instruction, how an
    instruction is linked into the program (advancing the pc and binding pending
    labels), and how forward jumps are patched once every label is known. These are
    functions of the assembler's state; the parser class performs them step by step and
    is proved against them. */
module Assemble {
  import opened Results
  import opened Lex
  import opened Link
  import opened Address
  import Arch
  import opened Uint64
  import opened Numerals
  import opened Messages
  import opened Operands

  /** A jump waiting for its label: the jump's position in the program, and the label. */
  datatype Patch = Patch(prog: nat, name: string)

  /** The assembler's state: the error bookkeeping, the virtual pc (the number of
      instructions that count, DATA and GLOBL excepted), the labels waiting for the next
      instruction, the labels bound so far (each to the position of its instruction),
      the jumps waiting for a label, and the program so far, in link order. */
  datatype State = State(
    errs: Errs,
    pc: int,
    pending: seq<string>,
    labels: map<string, nat>,
    toPatch: seq<Patch>,
    progs: seq<Prog>)

  /** Every bound label and every waiting jump refers to an instruction of the program,
      and the waiting jumps are in program order, so no two are the same instruction. */
  ghost predicate Linked(s: State) {
    && (forall l :: l in s.labels ==> s.labels[l] < |s.progs|)
    && (forall i :: 0 <= i < |s.toPatch| ==> s.toPatch[i].prog < |s.progs|)
    && (forall i, j :: 0 <= i < j < |s.toPatch| ==> s.toPatch[i].prog < s.toPatch[j].prog)
  }

  /** Linked, except that the last waiting jump may be the instruction about to be
      linked. */
  ghost predicate LinkedNext(s: State) {
    && (forall l :: l in s.labels ==> s.labels[l] < |s.progs|)
    && (forall i :: 0 <= i < |s.toPatch| ==> s.toPatch[i].prog <= |s.progs|)
    && (forall i, j :: 0 <= i < j < |s.toPatch| ==> s.toPatch[i].prog < s.toPatch[j].prog)
  }

  /** The zero value of an output address, as a composite literal leaves it: type and
      index codes 0 (the code of register 0), everything else empty. */
  const ZeroAddr: LAddr := LAddr(Reg(0), Reg(0), None, 0, 0, "", None)

  /** A branch to the instruction at position target. */
  function BranchAddr(target: nat): (r: LAddr)
    ensures r.typ == Branch && r.index == NoType && r.branch == Some(target) && r.sym == None
  {
    NoAddr.(typ := Branch, branch := Some(target))
  }

  /** Report an error on the current line. */
  function Errorf(s: State, msg: Msg): (r: State)
    ensures r == s.(errs := Report(s.errs, msg))
    ensures Extends(s.errs, r.errs)
  {
    s.(errs := Report(s.errs, msg))
  }

  /** A runtime fault of the source: the run stops. */
  function Halt(s: State, why: Stop): (r: State)
    ensures r.errs.halt.Some? && r == s.(errs := r.errs) && Extends(s.errs, r.errs)
  {
    s.(errs := Fault(s.errs, why))
  }

  /** Report each message in turn. */
  function ReportAll(e: Errs, msgs: seq<Msg>): (r: Errs)
    ensures r.lineNum == e.lineNum
    ensures msgs == [] ==> r == e
    ensures msgs != [] ==> Flagged(r)
    ensures Flagged(e) ==> r == e
    ensures Extends(e, r)
    decreases |msgs|
  {
    if msgs == [] then e else ReportAll(Report(e, msgs[0]), msgs[1..])
  }

  /** Parse one operand with the target's registers. */
  function ParseAddr(a: Arch.Arch, e: Errs, operand: seq<LexToken>): (r: (Addr, Errs))
    ensures Extends(e, r.1)
  {
    ParseOperand(a.registers, e, operand)
  }

  /** The output address of a parsed operand, with its errors reported. */
  function Convert(e: Errs, x: Addr): (r: (LAddr, Errs))
    ensures r.0 == AddrToAddr(x).value && Extends(e, r.1)
    ensures AddrToAddr(x).errors == [] ==> r.1 == e
  {
    var c := AddrToAddr(x);
    (c.value, ReportAll(e, c.errors))
  }

  /** The symbol type of a parsed operand, with its error reported. */
  function SymType(e: Errs, x: Addr): (r: (AddrType, Errs))
    ensures r.0 == SymbolType(x).value && Extends(e, r.1)
  {
    var c := SymbolType(x);
    (c.value, ReportAll(e, c.errors))
  }

  /** Bind each pending label, in order, to the instruction at position at; a label that
      is already bound is reported as multiply defined and rebound. */
  function BindLabels(e: Errs, labels: map<string, nat>, pending: seq<string>, at: nat): (r: (Errs, map<string, nat>))
    ensures Extends(e, r.0)
    ensures forall l :: l in r.1 ==> (l in pending && r.1[l] == at) || (l in labels && r.1[l] == labels[l])
    decreases |pending|
  {
    if pending == [] then (e, labels)
    else
      var e1 := if pending[0] in labels then Report(e, LabelRedefined(pending[0])) else e;
      BindLabels(e1, labels[pending[0] := at], pending[1..], at)
  }

  /** Append an instruction to the program. With doLabel the pc advances first and the
      pending labels are bound to it; the instruction records the pc either way. */
  function LinkProg(s: State, prog: Prog, doLabel: bool): (r: State)
    ensures r.progs == s.progs + [prog.(pc := Int64(r.pc))]
    ensures r.pc == if doLabel then s.pc + 1 else s.pc
    ensures r.toPatch == s.toPatch && Extends(s.errs, r.errs)
    ensures !doLabel ==> r == s.(progs := r.progs)
    ensures LinkedNext(s) ==> Linked(r)
  {
    if doLabel then
      var pc := s.pc + 1;
      var (e, labels) := BindLabels(s.errs, s.labels, s.pending, |s.progs|);
      s.(errs := e, pc := pc, pending := [], labels := labels, progs := s.progs + [prog.(pc := Int64(pc))])
    else s.(progs := s.progs + [prog.(pc := Int64(s.pc))])
  }

  /** Does the parsed operand name a symbol relative to SB and nothing else? */
  predicate SBSymbol(x: Addr) {
    Is(x, {Symbol, Register, Indirect}) && x.register == RSB
  }

  /** TEXT's frame word: the locals size in the high 32 bits or-ed with the argument
      size, wrapping as an int64 does. */
  function Pack(locals: int, args: int): int {
    Int64(BitOr(Shl(locals % TwoTo64, 32), args % TwoTo64))
  }

  /** With sizes that fit, the frame word is locals * 2^32 + args. */
  lemma PackSizes(locals: int, args: int)
    requires 0 <= locals < 0x8000_0000 && 0 <= args < 0x1_0000_0000
    ensures Pack(locals, args) == locals * 0x1_0000_0000 + args
  {
    var high := locals * 0x1_0000_0000;
    ShiftHigh(locals);
    OrHigh(locals, args);
    assert BitOr(Shl(locals % TwoTo64, 32), args % TwoTo64) == high + args;
  }

  /** Shifting the locals size into the high half multiplies it by 2^32. */
  lemma ShiftHigh(locals: int)
    requires 0 <= locals < 0x8000_0000
    ensures Shl(locals % TwoTo64, 32) == locals * 0x1_0000_0000
  {
    Pow2Of32();
  }

  /** The two halves of the frame word share no bit, so or-ing them adds them. */
  lemma OrHigh(locals: int, args: int)
    requires 0 <= locals < 0x8000_0000 && 0 <= args < 0x1_0000_0000
    ensures BitOr(locals * 0x1_0000_0000, args % TwoTo64) == locals * 0x1_0000_0000 + args
  {
    Pow2Of32();
    Pow2Of64();
    var high := locals * 0x1_0000_0000;
    assert locals * Pow2(32) == high && high < Pow2(64) && args % TwoTo64 == args;
    OrDisjoint(locals, args, 32, 64);
    assert BitOr(high, args) == Bitwise(Or, high, args, 64);
  }

  /** The locals size written as `-b` at the end of TEXT's third operand: its value as
      an int64, and the operand without it. Absent, it is 0. */
  function Locals(e: Errs, op: seq<LexToken>): (r: (int, seq<LexToken>, Errs))
    ensures Extends(e, r.2)
    ensures !(|op| >= 2 && op[|op| - 2].tok == Punct('-') && op[|op| - 1].tok == Int) ==> r == (0, op, e)
    ensures |op| >= 2 && op[|op| - 2].tok == Punct('-') && op[|op| - 1].tok == Int ==> r.1 == op[..|op| - 2]
  {
    var n := |op|;
    if n >= 2 && op[n - 2].tok == Punct('-') && op[n - 1].tok == Int then
      var (v, c) := Expr(Cur(op[n - 1..], 0, e));
      (Int64(v), op[..n - 2], c.errs)
    else (0, op, e)
  }

  /** The argument size: 0 for a lone `$` (as in `$-8`), otherwise an immediate constant. */
  function Args(a: Arch.Arch, e: Errs, op: seq<LexToken>, name: string): (r: (int, Errs))
    ensures Extends(e, r.1)
  {
    if |op| == 1 && op[0].tok == Punct('$') then (0, e)
    else
      var (x, e1) := ParseAddr(a, e, op);
      (x.offset, if !Is(x, {ImmediateConstant, Offset}) then Report(e1, TextFrame(name)) else e1)
  }

  /** The symbol operand of a pseudo-op, which must be an offset from SB. */
  function SBName(a: Arch.Arch, e: Errs, operand: seq<LexToken>, directive: string): (r: (Addr, Errs))
    ensures Extends(e, r.1)
    ensures r.0 == ParseAddr(a, e, operand).0
    ensures SBSymbol(r.0) ==> r.1 == ParseAddr(a, e, operand).1
  {
    var (nameAddr, e) := ParseAddr(a, e, operand);
    (nameAddr, if !SBSymbol(nameAddr) then Report(e, NotSBOffset(directive, nameAddr.symbol)) else e)
  }

  /** TEXT sym(SB), flag, $args-locals: a function's entry. */
  function Text(a: Arch.Arch, s: State, op: int, operands: seq<seq<LexToken>>): (r: State)
    ensures Extends(s.errs, r.errs)
    ensures Linked(s) ==> Linked(r)
  {
    TextChecked(a, s, if |operands| != 3 then Report(s.errs, TextOperands) else s.errs, op, operands)
  }

  /** TEXT after its operand count has been checked, with the errors e so far. */
  function TextChecked(a: Arch.Arch, s: State, e: Errs, op: int, operands: seq<seq<LexToken>>): (r: State)
    ensures Extends(e, r.errs)
    ensures Linked(s) ==> Linked(r)
  {
    if |operands| < 1 then s.(errs := Fault(e, IndexOutOfRange))
    else
      var (nameAddr, e) := SBName(a, e, operands[0], "TEXT");
      TextFlagged(a, s, e, op, operands, nameAddr)
  }

  /** TEXT's flag operand, once the symbol operand is parsed. */
  function TextFlagged(a: Arch.Arch, s: State, e: Errs, op: int, operands: seq<seq<LexToken>>, nameAddr: Addr): (r: State)
    ensures Extends(e, r.errs)
    ensures Linked(s) ==> Linked(r)
  {
    if |operands| < 2 then s.(errs := Fault(e, IndexOutOfRange))
    else
      var (flagAddr, e) := TextFlagOperand(a, e, operands[1], nameAddr);
      if |operands| < 3 then s.(errs := Fault(e, IndexOutOfRange))
      else
        var (prog, e) := TextProg(a, e, op, operands[2], nameAddr, flagAddr);
        LinkProg(s.(errs := e), prog, true)
  }

  /** TEXT's flag operand, which must be an integer. */
  function TextFlagOperand(a: Arch.Arch, e: Errs, operand: seq<LexToken>, nameAddr: Addr): (r: (Addr, Errs))
    ensures Extends(e, r.1)
    ensures r.0 == ParseAddr(a, e, operand).0
  {
    var (flagAddr, e) := ParseAddr(a, e, operand);
    (flagAddr, if !Is(flagAddr, {Offset}) then Report(e, TextFlag(ReplaceFirstDot(nameAddr.symbol))) else e)
  }

  /** The TEXT instruction itself, before it is linked: the symbol with its flag as
      From, the frame word as To. */
  function TextProg(a: Arch.Arch, e: Errs, op: int, frameOperand: seq<LexToken>, nameAddr: Addr, flagAddr: Addr): (r: (Prog, Errs))
    ensures Extends(e, r.1)
    ensures r.0.op == op && r.0.from.sym == Some(ReplaceFirstDot(nameAddr.symbol))
  {
    var name := ReplaceFirstDot(nameAddr.symbol);
    var (word, e) := Frame(a, e, frameOperand, name);
    var (typ, e) := SymType(e, nameAddr);
    var from := NoAddr.(typ := typ, sym := Some(name), scale := Int8(flagAddr.offset));
    (Prog(op, e.lineNum, from, Typed(Const, word), 0), e)
  }

  /** TEXT's frame word, from its frame operand `$args-locals`. */
  function Frame(a: Arch.Arch, e: Errs, frameOperand: seq<LexToken>, name: string): (r: (int, Errs))
    ensures Extends(e, r.1)
  {
    var (locals, frame, e) := Locals(e, frameOperand);
    var (args, e) := Args(a, e, frame, name);
    (Pack(locals, args), e)
  }

  /** DATA sym+off(SB)/size, value: initialised data; not counted by the pc. */
  function Data(a: Arch.Arch, s: State, op: int, operands: seq<seq<LexToken>>): (r: State)
    ensures Extends(s.errs, r.errs)
    ensures Linked(s) ==> Linked(r)
  {
    DataChecked(a, s, if |operands| != 2 then Report(s.errs, DataOperands) else s.errs, op, operands)
  }

  /** DATA after its operand count has been checked, with the errors e so far. */
  function DataChecked(a: Arch.Arch, s: State, e: Errs, op: int, operands: seq<seq<LexToken>>): (r: State)
    ensures Extends(e, r.errs)
    ensures r == s.(errs := r.errs, progs := r.progs)
    ensures Linked(s) ==> Linked(r)
  {
    if |operands| < 1 then s.(errs := Fault(e, IndexOutOfRange))
    else
      var o := operands[0];
      var n := |o|;
      var e := if n < 3 || o[n - 2].tok != Punct('/') || o[n - 1].tok != Int then Report(e, DataSize) else e;
      if n < 1 then s.(errs := Fault(e, IndexOutOfRange))
      else
        var (scale, e) := Operands.Scale(e, o[n - 1].text);
        if n < 2 then s.(errs := Fault(e, IndexOutOfRange))
        else DataSymbol(a, s, e, op, operands, scale)
  }

  /** DATA's symbol, before the `/size`, and its value, once the scale is known. */
  function DataSymbol(a: Arch.Arch, s: State, e: Errs, op: int, operands: seq<seq<LexToken>>, scale: int): (r: State)
    requires |operands| >= 1 && |operands[0]| >= 2
    ensures Extends(e, r.errs)
    ensures r == s.(errs := r.errs, progs := r.progs)
    ensures |operands| >= 2 ==>
      |r.progs| == |s.progs| + 1 && r.progs[..|s.progs|] == s.progs
      && r.progs[|s.progs|].op == op && r.progs[|s.progs|].pc == Int64(s.pc) && r.progs[|s.progs|].from.scale == scale
    ensures Linked(s) ==> Linked(r)
  {
    var o := operands[0];
    var (nameAddr, e) := ParseAddr(a, e, o[..|o| - 2]);
    var ok := Is(nameAddr, {Symbol, Register, Indirect}) || Is(nameAddr, {Symbol, Register, Indirect, Offset});
    var e := if !ok || nameAddr.register != RSB then Report(e, NotSBOffset("DATA", nameAddr.symbol)) else e;
    if |operands| < 2 then s.(errs := Fault(e, IndexOutOfRange))
    else DataValueOperand(a, s, e, op, operands[1], nameAddr, scale)
  }

  /** DATA's value, linked with the symbol it initialises. */
  function DataValueOperand(a: Arch.Arch, s: State, e: Errs, op: int, operand: seq<LexToken>, nameAddr: Addr, scale: int): (r: State)
    ensures Extends(e, r.errs)
    ensures r == s.(errs := r.errs, progs := r.progs)
    ensures |r.progs| == |s.progs| + 1 && r.progs[..|s.progs|] == s.progs
    ensures r.progs[|s.progs|].op == op && r.progs[|s.progs|].pc == Int64(s.pc) && r.progs[|s.progs|].from.scale == scale
    ensures Linked(s) ==> Linked(r)
  {
    var (valueAddr, e) := ParseAddr(a, e, operand);
    var e := if !valueAddr.isImmediateConstant && !valueAddr.isImmediateAddress then Report(e, DataValue) else e;
    var (typ, e) := SymType(e, nameAddr);
    var (to, e) := Convert(e, valueAddr);
    var from := NoAddr.(typ := typ, sym := Some(ReplaceFirstDot(nameAddr.symbol)), offset := nameAddr.offset, scale := scale);
    LinkProg(s.(errs := e), Prog(op, e.lineNum, from, to, 0), false)
  }

  /** GLOBL sym(SB), [scale,] $size: a global symbol; not counted by the pc. */
  function Globl(a: Arch.Arch, s: State, op: int, operands: seq<seq<LexToken>>): (r: State)
    ensures Extends(s.errs, r.errs)
    ensures Linked(s) ==> Linked(r)
  {
    GloblChecked(a, s, if |operands| != 2 && |operands| != 3 then Report(s.errs, GloblOperands) else s.errs, op, operands)
  }

  /** GLOBL after its operand count has been checked, with the errors e so far. */
  function GloblChecked(a: Arch.Arch, s: State, e: Errs, op: int, operands: seq<seq<LexToken>>): (r: State)
    ensures Extends(e, r.errs)
    ensures r == s.(errs := r.errs, progs := r.progs)
    ensures Linked(s) ==> Linked(r)
  {
    if |operands| < 1 then s.(errs := Fault(e, IndexOutOfRange))
    else
      var (nameAddr, e) := SBName(a, e, operands[0], "GLOBL");
      if |operands| < 2 then s.(errs := Fault(e, IndexOutOfRange))
      else
        var (scale, size, e) := GloblSizes(a, e, operands);
        var (typ, e) := SymType(e, nameAddr);
        var from := NoAddr.(typ := typ, sym := Some(ReplaceFirstDot(nameAddr.symbol)), offset := nameAddr.offset, scale := scale);
        LinkProg(s.(errs := e), Prog(op, e.lineNum, from, Typed(Const, size), 0), false)
  }

  /** GLOBL's scale (the middle of three operands, 0 when there are two) and size. */
  function GloblSizes(a: Arch.Arch, e: Errs, operands: seq<seq<LexToken>>): (r: (int, int, Errs))
    requires |operands| >= 2
    ensures Extends(e, r.2)
    ensures |operands| != 3 ==> r.0 == 0
  {
    var (scale, op, e) :=
      if |operands| == 3 then
        var (x, e1) := ParseAddr(a, e, operands[1]);
        (Int8(x.offset), operands[2], if !Is(x, {Offset}) then Report(e1, GloblScale) else e1)
      else (0, operands[1], e);
    var (sizeAddr, e) := ParseAddr(a, e, op);
    (scale, sizeAddr.offset, if !Is(sizeAddr, {ImmediateConstant, Offset}) then Report(e, GloblSize) else e)
  }

  /** PCDATA $index, $value. */
  function PCData(a: Arch.Arch, s: State, op: int, operands: seq<seq<LexToken>>): (r: State)
    ensures Extends(s.errs, r.errs)
    ensures Linked(s) ==> Linked(r)
  {
    PCDataChecked(a, s, if |operands| != 2 then Report(s.errs, PCDataOperands) else s.errs, op, operands)
  }

  /** PCDATA after its operand count has been checked, with the errors e so far. */
  function PCDataChecked(a: Arch.Arch, s: State, e: Errs, op: int, operands: seq<seq<LexToken>>): (r: State)
    ensures Extends(e, r.errs)
    ensures Linked(s) ==> Linked(r)
  {
    if |operands| < 1 then s.(errs := Fault(e, IndexOutOfRange))
    else
      var (x0, e) := ParseAddr(a, e, operands[0]);
      var e := if !Is(x0, {ImmediateConstant, Offset}) then Report(e, PCDataValue) else e;
      if |operands| < 2 then s.(errs := Fault(e, IndexOutOfRange))
      else PCDataValueOperand(a, s, e, op, operands[1], x0)
  }

  /** PCDATA's value operand, once the index is parsed. */
  function PCDataValueOperand(a: Arch.Arch, s: State, e: Errs, op: int, operand: seq<LexToken>, x0: Addr): (r: State)
    ensures Extends(e, r.errs)
    ensures Linked(s) ==> Linked(r)
  {
    var (x1, e) := ParseAddr(a, e, operand);
    var e := if !Is(x1, {ImmediateConstant, Offset}) then Report(e, PCDataValue) else e;
    LinkProg(s.(errs := e), Prog(op, e.lineNum, Typed(Const, x0.offset), Typed(Const, x1.offset), 0), true)
  }

  /** FUNCDATA $index, sym(SB). */
  function FuncData(a: Arch.Arch, s: State, op: int, operands: seq<seq<LexToken>>): (r: State)
    ensures Extends(s.errs, r.errs)
    ensures Linked(s) ==> Linked(r)
  {
    FuncDataChecked(a, s, if |operands| != 2 then Report(s.errs, FuncDataOperands) else s.errs, op, operands)
  }

  /** FUNCDATA after its operand count has been checked, with the errors e so far. */
  function FuncDataChecked(a: Arch.Arch, s: State, e: Errs, op: int, operands: seq<seq<LexToken>>): (r: State)
    ensures Extends(e, r.errs)
    ensures Linked(s) ==> Linked(r)
  {
    if |operands| < 1 then s.(errs := Fault(e, IndexOutOfRange))
    else
      var (valueAddr, e) := ParseAddr(a, e, operands[0]);
      var e := if !Is(valueAddr, {ImmediateConstant, Offset}) then Report(e, FuncDataValue) else e;
      if |operands| < 2 then s.(errs := Fault(e, IndexOutOfRange))
      else FuncDataSymbolOperand(a, s, e, op, operands[1], valueAddr)
  }

  /** FUNCDATA's symbol operand, once the index is parsed. */
  function FuncDataSymbolOperand(a: Arch.Arch, s: State, e: Errs, op: int, operand: seq<LexToken>, valueAddr: Addr): (r: State)
    ensures Extends(e, r.errs)
    ensures Linked(s) ==> Linked(r)
  {
    var (nameAddr, e) := SBName(a, e, operand, "FUNCDATA");
    var (typ, e) := SymType(e, nameAddr);
    var to := NoAddr.(typ := typ, sym := Some(ReplaceFirstDot(nameAddr.symbol)));
    LinkProg(s.(errs := e), Prog(op, e.lineNum, Typed(Const, valueAddr.offset), to, 0), true)
  }

  /** The jump's target operand: the only one, or the second of two (the first must be
      empty); None, after a report, for any other count. */
  function JumpTarget(e: Errs, addrs: seq<Addr>): (r: (Option<Addr>, Errs))
    ensures Extends(e, r.1)
    ensures r.0.Some? <==> |addrs| in {1, 2}
    ensures r.0.Some? ==> r.0.value == addrs[|addrs| - 1]
  {
    if |addrs| == 1 then (Some(addrs[0]), e)
    else if |addrs| == 2 then (Some(addrs[1]), if !Is(addrs[0], {}) then Report(e, JumpFirstNotEmpty) else e)
    else (None, Report(e, JumpOperands))
  }

  /** A jump or call to a register, to a label, to `n(PC)`, to an address in a register,
      or to a symbol relative to SB. A label not yet bound queues the jump for patching. */
  function Jump(a: Arch.Arch, s: State, op: int, addrs: seq<Addr>): (r: State)
    ensures Extends(s.errs, r.errs)
    ensures Linked(s) ==> Linked(r)
  {
    var (target, e) := JumpTarget(s.errs, addrs);
    if target.None? then s.(errs := Fault(e, NilDereference))
    else
      var prog := Prog(op, e.lineNum, a.noAddr, ZeroAddr, 0);
      var (to, s) := JumpDestination(s.(errs := e), target.value);
      LinkProg(s, prog.(to := to), true)
  }

  /** The destination of a jump to target t, from an instruction about to be linked. */
  function JumpDestination(s: State, t: Addr): (r: (LAddr, State))
    ensures r.1 == s.(errs := r.1.errs, toPatch := r.1.toPatch) && Extends(s.errs, r.1.errs)
    ensures r.1.toPatch == s.toPatch || r.1.toPatch == s.toPatch + [Patch(|s.progs|, t.symbol)]
    ensures Linked(s) ==> LinkedNext(r.1)
  {
    if Is(t, {Register}) then
      var (to, e) := Convert(s.errs, t);
      (to, s.(errs := e))
    else if Is(t, {Symbol}) then
      if t.symbol in s.labels then (BranchAddr(s.labels[t.symbol]), s)
      else (ZeroAddr, s.(toPatch := s.toPatch + [Patch(|s.progs|, t.symbol)]))
    else if Is(t, {Register, Indirect}) || Is(t, {Register, Indirect, Offset}) then
      if t.register == RPC then (Typed(Branch, Int64(s.pc + 1 + t.offset)), s)
      else
        var (to, e) := Convert(s.errs, t);
        (to, s.(errs := e))
    else if Is(t, {Symbol, Indirect, Register}) then
      var s := if t.register != RSB then Errorf(s, JumpNotSB) else s;
      (NoAddr.(typ := Branch, sym := Some(t.symbol), offset := t.offset), s)
    else (ZeroAddr, Errorf(s, CannotAssembleJump))
  }

  /** Any other instruction, by its number of operands. */
  function Instruction(a: Arch.Arch, s: State, op: int, addrs: seq<Addr>): (r: State)
    ensures |r.progs| == |s.progs| + 1 && r.progs[..|s.progs|] == s.progs && r.pc == s.pc + 1
    ensures r.toPatch == s.toPatch && Extends(s.errs, r.errs)
    ensures Linked(s) ==> Linked(r)
  {
    var (from, to, e) := Slots(a, s.errs, op, addrs);
    LinkProg(s.(errs := e), Prog(op, e.lineNum, from, to, 0), true)
  }

  /** The instruction's source and destination addresses. */
  function Slots(a: Arch.Arch, e: Errs, op: int, addrs: seq<Addr>): (r: (LAddr, LAddr, Errs))
    ensures Extends(e, r.2)
  {
    if |addrs| == 0 then (a.noAddr, a.noAddr, e)
    else if |addrs| == 1 then
      var (x, e1) := Convert(e, addrs[0]);
      if Arch.IsUnaryDestination(a, op) then (a.noAddr, x, e1) else (x, a.noAddr, e1)
    else if |addrs| == 2 then
      var (from, e1) := Convert(e, addrs[0]);
      var (to, e2) := Convert(e1, addrs[1]);
      if Has(addrs[1], {Register2}) then
        var e3 := if from.index != NoType then Report(e2, PairNeedsRegister) else e2;
        (from.(index := Reg(addrs[1].register2)), to, e3)
      else (from, to, e2)
    else if |addrs| == 3 then ThreeSlots(e, addrs[0], addrs[1], addrs[2])
    else (ZeroAddr, ZeroAddr, Report(e, OperandCount(|addrs|)))
  }

  /** Three operands (CMPSD and the like): the third is an 8-bit immediate kept in the
      destination's offset, or a register, in which case the operands are reordered and
      the first must be the immediate. */
  function ThreeSlots(e: Errs, x: Addr, y: Addr, z: Addr): (r: (LAddr, LAddr, Errs))
    ensures Extends(e, r.2)
  {
    var (from, e1) := Convert(e, x);
    var (to, e2) := Convert(e1, y);
    if Is(z, {Offset}) then (from, to.(offset := z.offset), e2)
    else if Is(z, {Register}) then
      var (to', e3) := Convert(e2, z);
      var (from', e4) := Convert(e3, y);
      var e5 := if !x.isImmediateConstant then Report(e4, ExpectedImmediateFirst) else e4;
      (from', to'.(offset := x.offset), e5)
    else (from, to, Report(e2, ExpectedThirdOperand))
  }

  /** Point the jump at position jmp to the instruction at position target. */
  function BranchJump(s: State, jmp: nat, target: nat): (r: State)
    requires jmp < |s.progs|
    ensures |r.progs| == |s.progs| && r.progs[jmp] == s.progs[jmp].(to := BranchAddr(target))
    ensures forall i :: 0 <= i < |s.progs| && i != jmp ==> r.progs[i] == s.progs[i]
    ensures r == s.(progs := r.progs)
  {
    s.(progs := s.progs[jmp := s.progs[jmp].(to := BranchAddr(target))])
  }

  /** Resolve the waiting jumps from the i-th on: each to its label's instruction, or an
      "undefined label" report when the label was never bound. */
  function PatchFrom(s: State, i: nat): (r: State)
    requires Linked(s)
    ensures Linked(r) && |r.progs| == |s.progs| && r.toPatch == s.toPatch && r.labels == s.labels
    ensures r.pc == s.pc && r.pending == s.pending && Extends(s.errs, r.errs)
    decreases |s.toPatch| - i
  {
    if i >= |s.toPatch| then s
    else
      var p := s.toPatch[i];
      var s1 := if p.name in s.labels then BranchJump(s, p.prog, s.labels[p.name]) else Errorf(s, UndefinedLabel(p.name));
      PatchFrom(s1, i + 1)
  }

  /** One step of PatchFrom: the i-th jump resolved, and the rest after it. */
  lemma PatchFromStep(s: State, i: nat)
    requires Linked(s) && i < |s.toPatch|
    ensures var p := s.toPatch[i];
      var s1 := if p.name in s.labels then BranchJump(s, p.prog, s.labels[p.name]) else Errorf(s, UndefinedLabel(p.name));
      Linked(s1) && PatchFrom(s, i) == PatchFrom(s1, i + 1)
  {
  }

  // Labels and linking.

  /** Does the i-th pending label rebind a name: one already bound, or one pending
      earlier in the same list? */
  ghost predicate Rebinds(labels: map<string, nat>, pending: seq<string>, i: int)
    requires 0 <= i < |pending|
  {
    pending[i] in labels || pending[i] in pending[..i]
  }

  /** Binding the pending labels binds each of them to the instruction and leaves every
      other name as it was. */
  lemma {:induction false} BindLabelsMap(e: Errs, labels: map<string, nat>, pending: seq<string>, at: nat, l: string)
    ensures var m := BindLabels(e, labels, pending, at).1;
      && (l in m <==> l in labels || l in pending)
      && (l in m ==> m[l] == if l in pending then at else labels[l])
    decreases |pending|
  {
    if pending != [] {
      var e1 := if pending[0] in labels then Report(e, LabelRedefined(pending[0])) else e;
      BindLabelsMap(e1, labels[pending[0] := at], pending[1..], at, l);
      assert pending == [pending[0]] + pending[1..];
    }
  }

  /** Once the line has its report, binding labels reports nothing more. */
  lemma {:induction false} BindLabelsFlagged(e: Errs, labels: map<string, nat>, pending: seq<string>, at: nat)
    requires Flagged(e)
    ensures BindLabels(e, labels, pending, at).0 == e
    decreases |pending|
  {
    if pending != [] {
      BindLabelsFlagged(e, labels[pending[0] := at], pending[1..], at);
    }
  }

  /** After the first label is bound, the rest rebind exactly when they did before. */
  lemma RebindsShift(labels: map<string, nat>, pending: seq<string>, at: nat, j: nat)
    requires j + 1 < |pending|
    ensures Rebinds(labels[pending[0] := at], pending[1..], j) <==> Rebinds(labels, pending, j + 1)
  {
    assert pending[..j + 1] == [pending[0]] + pending[1..][..j];
  }

  /** Labels that rebind nothing are bound without a report. */
  lemma {:induction false} BindLabelsQuiet(e: Errs, labels: map<string, nat>, pending: seq<string>, at: nat)
    requires forall i :: 0 <= i < |pending| ==> !Rebinds(labels, pending, i)
    ensures BindLabels(e, labels, pending, at).0 == e
    decreases |pending|
  {
    if pending != [] {
      assert !Rebinds(labels, pending, 0);
      var labels', rest := labels[pending[0] := at], pending[1..];
      forall j | 0 <= j < |rest|
        ensures !Rebinds(labels', rest, j)
      {
        RebindsShift(labels, pending, at, j);
      }
      BindLabelsQuiet(e, labels', rest, at);
    }
  }

  /** The first label that rebinds a name is reported as multiply defined, and is the
      line's only report from binding. */
  lemma {:induction false} BindLabelsReportsFirst(e: Errs, labels: map<string, nat>, pending: seq<string>, at: nat, i: nat)
    requires i < |pending| && Rebinds(labels, pending, i)
    requires forall j :: 0 <= j < i ==> !Rebinds(labels, pending, j)
    ensures BindLabels(e, labels, pending, at).0 == Report(e, LabelRedefined(pending[i]))
    decreases i
  {
    if i == 0 {
      assert pending[0] in labels;
      BindLabelsFlagged(Report(e, LabelRedefined(pending[0])), labels[pending[0] := at], pending[1..], at);
    } else {
      assert !Rebinds(labels, pending, 0);
      var labels', rest := labels[pending[0] := at], pending[1..];
      forall j | 0 <= j < i - 1
        ensures !Rebinds(labels', rest, j)
      {
        RebindsShift(labels, pending, at, j);
      }
      RebindsShift(labels, pending, at, i - 1);
      BindLabelsReportsFirst(e, labels', rest, at, i - 1);
    }
  }

  /** Linking an instruction that counts binds every pending label to it, clears the
      pending list, and leaves every other label where it was. */
  lemma LinkBindsPending(s: State, prog: Prog, l: string)
    ensures var r := LinkProg(s, prog, true);
      && r.pending == []
      && (l in r.labels <==> l in s.labels || l in s.pending)
      && (l in s.pending ==> r.labels[l] == |s.progs|)
      && (l !in s.pending && l in s.labels ==> r.labels[l] == s.labels[l])
  {
    BindLabelsMap(s.errs, s.labels, s.pending, |s.progs|, l);
  }

  // The pseudo-ops.

  /** The first report made after e (on e's line) is msg. */
  ghost predicate ReportedFirst(e: Errs, e': Errs, msg: Msg) {
    |e'.diags| > |e.diags| && e'.diags[|e.diags|] == Diag(e.lineNum, msg)
  }

  /** A pseudo-op with the wrong number of operands has that as its line's report, whatever
      else goes wrong after it. */
  lemma PseudoCountReported(a: Arch.Arch, s: State, op: int, operands: seq<seq<LexToken>>)
    requires !Flagged(s.errs)
    ensures |operands| != 3 ==> ReportedFirst(s.errs, Text(a, s, op, operands).errs, TextOperands)
    ensures |operands| != 2 ==> ReportedFirst(s.errs, Data(a, s, op, operands).errs, DataOperands)
    ensures |operands| != 2 && |operands| != 3 ==> ReportedFirst(s.errs, Globl(a, s, op, operands).errs, GloblOperands)
    ensures |operands| != 2 ==> ReportedFirst(s.errs, PCData(a, s, op, operands).errs, PCDataOperands)
    ensures |operands| != 2 ==> ReportedFirst(s.errs, FuncData(a, s, op, operands).errs, FuncDataOperands)
  {
  }

  const Dollar: LexToken := LexToken(Punct('$'), "$")
  const Minus: LexToken := LexToken(Punct('-'), "-")

  /** An integer literal token written in decimal. */
  function IntLit(n: nat): LexToken {
    LexToken(Int, Decimal(n))
  }

  /** `sym(B)`: a symbol relative to the base register named B. */
  function SymbolAt(sym: string, base: string): seq<LexToken> {
    [LexToken(Ident, sym), LexToken(Punct('('), "("), LexToken(Ident, base), LexToken(Punct(')'), ")")]
  }

  /** TEXT's frame operand in one of its three forms: `$args-locals`, `$args` (no locals)
      and `$-locals` (no arguments). */
  predicate FrameOperand(frame: seq<LexToken>, args: nat, locals: nat) {
    || frame == [Dollar, IntLit(args), Minus, IntLit(locals)]
    || (locals == 0 && frame == [Dollar, IntLit(args)])
    || (args == 0 && frame == [Dollar, Minus, IntLit(locals)])
  }

  /** A lone decimal literal is an expression of its own value. */
  lemma LiteralExpr(e: Errs, n: nat)
    requires n < TwoTo64
    ensures Expr(Cur([IntLit(n)], 0, e)) == (n, Cur([IntLit(n)], 1, e))
  {
    AtoiDecimal(e, n);
    TermSingle(Cur([IntLit(n)], 0, e), n);
    ExprLoopEnd(n, Cur([IntLit(n)], 1, e));
  }

  /** `$n` parses, without a report, to the immediate constant n. */
  lemma ImmediateOperand(a: Arch.Arch, e: Errs, n: nat)
    requires n < TwoTo63
    ensures ParseAddr(a, e, [Dollar, IntLit(n)]) ==
      (EmptyAddr.(isImmediateConstant := true, hasOffset := true, offset := n), e)
  {
    AtoiDecimal(e, n);
    ImmediateShape(a.registers, e, [Dollar, IntLit(n)], n);
  }

  /** The frame operand's two sizes, read without a report. */
  lemma FrameSizes(a: Arch.Arch, e: Errs, frame: seq<LexToken>, name: string, args: nat, locals: nat)
    requires FrameOperand(frame, args, locals) && args < TwoTo63 && locals < TwoTo63
    ensures var (l, rest, e1) := Locals(e, frame);
      l == locals && e1 == e && Args(a, e, rest, name) == (args, e)
  {
    if frame == [Dollar, IntLit(args), Minus, IntLit(locals)] {
      LiteralExpr(e, locals);
      assert frame[3..] == [IntLit(locals)] && frame[..2] == [Dollar, IntLit(args)];
      ImmediateOperand(a, e, args);
    } else if locals == 0 && frame == [Dollar, IntLit(args)] {
      ImmediateOperand(a, e, args);
    } else {
      LiteralExpr(e, locals);
      assert frame[2..] == [IntLit(locals)] && frame[..1] == [Dollar];
    }
  }

  /** The frame operand packs the locals size into the high half of the entry's frame
      word and the argument size into the low half. */
  lemma TextProgFrame(a: Arch.Arch, e: Errs, op: int, frame: seq<LexToken>, nameAddr: Addr, flagAddr: Addr,
                      args: nat, locals: nat)
    requires FrameOperand(frame, args, locals) && args < 0x1_0000_0000 && locals < 0x8000_0000
    ensures TextProg(a, e, op, frame, nameAddr, flagAddr).0.to == Typed(Const, locals * 0x1_0000_0000 + args)
  {
    PackSizes(locals, args);
    FrameSizes(a, e, frame, ReplaceFirstDot(nameAddr.symbol), args, locals);
  }

  /** TEXT sym(SB), flag, $args-locals links one instruction that counts: the function's
      entry, named after the symbol with its first middle dot made a period, whose frame
      word is locals * 2^32 + args. */
  lemma TextFrameWord(a: Arch.Arch, s: State, op: int, operands: seq<seq<LexToken>>, args: nat, locals: nat)
    requires |operands| == 3 && FrameOperand(operands[2], args, locals)
    requires args < 0x1_0000_0000 && locals < 0x8000_0000
    ensures var r := Text(a, s, op, operands);
      && |r.progs| == |s.progs| + 1 && r.progs[..|s.progs|] == s.progs && r.pc == s.pc + 1
      && r.progs[|s.progs|].op == op && r.progs[|s.progs|].pc == Int64(s.pc + 1)
      && r.progs[|s.progs|].to == Typed(Const, locals * 0x1_0000_0000 + args)
      && r.progs[|s.progs|].from.sym == Some(ReplaceFirstDot(ParseAddr(a, s.errs, operands[0]).0.symbol))
  {
    var (nameAddr, e2) := SBName(a, s.errs, operands[0], "TEXT");
    assert Text(a, s, op, operands) == TextFlagged(a, s, e2, op, operands, nameAddr);
    var (flagAddr, e4) := TextFlagOperand(a, e2, operands[1], nameAddr);
    var (prog, e5) := TextProg(a, e4, op, operands[2], nameAddr, flagAddr);
    assert TextFlagged(a, s, e2, op, operands, nameAddr) == LinkProg(s.(errs := e5), prog, true);
    TextProgFrame(a, e4, op, operands[2], nameAddr, flagAddr, args, locals);
  }

  /** DATA sym(SB)/w, value links one instruction that does not count: the pc and the
      labels stay, and the width w becomes the scale (1, 2, 4 or 8; anything else is 0). */
  lemma DataWidth(a: Arch.Arch, s: State, op: int, operands: seq<seq<LexToken>>)
    requires |operands| == 2 && |operands[0]| >= 2
    ensures var r := Data(a, s, op, operands);
      var w := operands[0][|operands[0]| - 1].text;
      var p := r.progs[|s.progs|];
      && |r.progs| == |s.progs| + 1 && r.progs[..|s.progs|] == s.progs
      && r == s.(errs := r.errs, progs := r.progs)
      && p.op == op && p.pc == Int64(s.pc)
      && (ScaleText(w) ==> Decimal(p.from.scale) == w)
      && (!ScaleText(w) ==> p.from.scale == 0)
  {
  }

  /** A DATA symbol without a trailing `/w` is reported; so is a width other than 1, 2, 4
      and 8. */
  lemma DataWidthReported(a: Arch.Arch, s: State, op: int, operands: seq<seq<LexToken>>)
    requires |operands| == 2 && !Flagged(s.errs)
    ensures var o := operands[0]; var n := |o|;
      n < 3 || o[n - 2].tok != Punct('/') || o[n - 1].tok != Int ==>
        ReportedFirst(s.errs, Data(a, s, op, operands).errs, DataSize)
    ensures var o := operands[0]; var n := |o|;
      n >= 3 && o[n - 2].tok == Punct('/') && o[n - 1].tok == Int && !ScaleText(o[n - 1].text) ==>
        ReportedFirst(s.errs, Data(a, s, op, operands).errs, BadScale(o[n - 1].text))
  {
  }

  /** GLOBL sym(SB), $size links one instruction that does not count, with the size as a
      constant and scale 0. */
  lemma GloblSized(a: Arch.Arch, s: State, op: int, operands: seq<seq<LexToken>>, size: nat)
    requires |operands| == 2 && operands[1] == [Dollar, IntLit(size)] && size < TwoTo63
    ensures var r := Globl(a, s, op, operands);
      var p := r.progs[|s.progs|];
      && |r.progs| == |s.progs| + 1 && r.progs[..|s.progs|] == s.progs
      && r == s.(errs := r.errs, progs := r.progs)
      && p.op == op && p.pc == Int64(s.pc) && p.to == Typed(Const, size) && p.from.scale == 0
      && p.from.sym == Some(ReplaceFirstDot(ParseAddr(a, s.errs, operands[0]).0.symbol))
  {
    var (nameAddr, e2) := SBName(a, s.errs, operands[0], "GLOBL");
    ImmediateOperand(a, e2, size);
  }

  /** PCDATA $index, $value links one counted instruction carrying the two constants,
      with no report. */
  lemma PCDataConstants(a: Arch.Arch, s: State, op: int, index: nat, value: nat)
    requires index < TwoTo63 && value < TwoTo63
    ensures PCData(a, s, op, [[Dollar, IntLit(index)], [Dollar, IntLit(value)]]) ==
      LinkProg(s, Prog(op, s.errs.lineNum, Typed(Const, index), Typed(Const, value), 0), true)
  {
    ImmediateOperand(a, s.errs, index);
    ImmediateOperand(a, s.errs, value);
  }

  /** `sym(SB)` parses, without a report, to the symbol addressed through SB. */
  lemma SBOperand(a: Arch.Arch, e: Errs, sym: string)
    requires sym != "" && sym !in a.registers
    requires "SB" in a.registers && a.registers["SB"] == RSB
    ensures ParseAddr(a, e, SymbolAt(sym, "SB")) ==
      (EmptyAddr.(symbol := sym, isIndirect := true, hasRegister := true, register := RSB), e)
  {
    SymbolShapeAt(a.registers, EmptyAddr, SymbolAt(sym, "SB"), 0, e);
  }

  /** FUNCDATA whose two operands parse without a report to a constant and an SB symbol
      links the constant and the symbol, typed as the symbol's base says. */
  lemma FuncDataParsed(a: Arch.Arch, s: State, op: int, operands: seq<seq<LexToken>>, v: Addr, x: Addr)
    requires |operands| == 2
    requires ParseAddr(a, s.errs, operands[0]) == (v, s.errs) && Is(v, {ImmediateConstant, Offset})
    requires ParseAddr(a, s.errs, operands[1]) == (x, s.errs) && SBSymbol(x)
    ensures FuncData(a, s, op, operands) ==
      LinkProg(s, Prog(op, s.errs.lineNum, Typed(Const, v.offset),
                       NoAddr.(typ := SymbolType(x).value, sym := Some(ReplaceFirstDot(x.symbol))), 0), true)
  {
    assert SymType(s.errs, x) == (SymbolType(x).value, s.errs);
  }

  /** FUNCDATA $index, sym(SB) links one counted instruction: the constant, and the
      symbol as an external reference with its first middle dot made a period. */
  lemma FuncDataSymbol(a: Arch.Arch, s: State, op: int, index: nat, sym: string)
    requires index < TwoTo63 && sym != "" && sym !in a.registers
    requires "SB" in a.registers && a.registers["SB"] == RSB
    ensures FuncData(a, s, op, [[Dollar, IntLit(index)], SymbolAt(sym, "SB")]) ==
      LinkProg(s, Prog(op, s.errs.lineNum, Typed(Const, index),
                       NoAddr.(typ := Extern, sym := Some(ReplaceFirstDot(sym))), 0), true)
  {
    ImmediateOperand(a, s.errs, index);
    SBOperand(a, s.errs, sym);
    var v := EmptyAddr.(isImmediateConstant := true, hasOffset := true, offset := index);
    var x := EmptyAddr.(symbol := sym, isIndirect := true, hasRegister := true, register := RSB);
    FuncDataParsed(a, s, op, [[Dollar, IntLit(index)], SymbolAt(sym, "SB")], v, x);
  }

  // Jumps.

  /** A jump to a label already bound branches straight to the label's instruction. */
  lemma JumpToBoundLabel(a: Arch.Arch, s: State, op: int, t: Addr)
    requires Is(t, {Symbol}) && t.symbol in s.labels
    ensures Jump(a, s, op, [t]) ==
      LinkProg(s, Prog(op, s.errs.lineNum, a.noAddr, BranchAddr(s.labels[t.symbol]), 0), true)
  {
  }

  /** A jump to a label not bound yet is linked with an empty destination and queued,
      under its own position, for patching. */
  lemma JumpToUnboundLabel(a: Arch.Arch, s: State, op: int, t: Addr)
    requires Is(t, {Symbol}) && t.symbol !in s.labels
    ensures Jump(a, s, op, [t]) ==
      LinkProg(s.(toPatch := s.toPatch + [Patch(|s.progs|, t.symbol)]),
               Prog(op, s.errs.lineNum, a.noAddr, ZeroAddr, 0), true)
  {
  }

  /** `n(PC)` branches n instructions from the jump: its offset is the jump's own pc
      plus n. */
  lemma JumpRelative(a: Arch.Arch, s: State, op: int, t: Addr)
    requires Is(t, {Register, Indirect}) || Is(t, {Register, Indirect, Offset})
    requires t.register == RPC
    ensures var r := Jump(a, s, op, [t]);
      && r == LinkProg(s, Prog(op, s.errs.lineNum, a.noAddr, Typed(Branch, Int64(s.pc + 1 + t.offset)), 0), true)
      && r.progs[|s.progs|].to.offset == Int64(r.pc + t.offset)
  {
  }

  /** A jump to a register, or through one, goes to that operand's output address. */
  lemma JumpToRegister(a: Arch.Arch, s: State, op: int, t: Addr)
    requires Is(t, {Register}) || ((Is(t, {Register, Indirect}) || Is(t, {Register, Indirect, Offset})) && t.register != RPC)
    ensures Jump(a, s, op, [t]) ==
      LinkProg(s.(errs := ReportAll(s.errs, AddrToAddr(t).errors)),
               Prog(op, s.errs.lineNum, a.noAddr, AddrToAddr(t).value, 0), true)
  {
  }

  /** A jump to `sym(SB)` branches to the symbol; any base but SB is reported. */
  lemma JumpToSymbol(a: Arch.Arch, s: State, op: int, t: Addr)
    requires Is(t, {Symbol, Indirect, Register})
    ensures Jump(a, s, op, [t]) ==
      LinkProg(if t.register != RSB then Errorf(s, JumpNotSB) else s,
               Prog(op, s.errs.lineNum, a.noAddr, NoAddr.(typ := Branch, sym := Some(t.symbol), offset := t.offset), 0), true)
  {
  }

  /** A jump with two operands is the jump to the second, after checking that the first
      is empty. */
  lemma JumpTwoAddresses(a: Arch.Arch, s: State, op: int, first: Addr, t: Addr)
    ensures Jump(a, s, op, [first, t]) ==
      Jump(a, if !Is(first, {}) then Errorf(s, JumpFirstNotEmpty) else s, op, [t])
  {
  }

  /** A jump with no operand or more than two is reported, and the run stops on the
      missing target; nothing is linked. */
  lemma JumpCountStops(a: Arch.Arch, s: State, op: int, addrs: seq<Addr>)
    requires |addrs| != 1 && |addrs| != 2
    ensures var r := Jump(a, s, op, addrs);
      r == s.(errs := r.errs) && r.errs == Fault(Report(s.errs, JumpOperands), NilDereference)
  {
  }

  // Other instructions.

  /** With no operand both addresses are the target's empty address; with one, it is
      the destination when the opcode is a unary destination and the source otherwise. */
  lemma InstructionUnary(a: Arch.Arch, s: State, op: int, addrs: seq<Addr>)
    requires |addrs| <= 1 && (|addrs| == 1 ==> AddrToAddr(addrs[0]).errors == [])
    ensures var p := Instruction(a, s, op, addrs).progs[|s.progs|];
      && (|addrs| == 0 ==> p.from == a.noAddr && p.to == a.noAddr)
      && (|addrs| == 1 && Arch.IsUnaryDestination(a, op) ==> p.from == a.noAddr && p.to == AddrToAddr(addrs[0]).value)
      && (|addrs| == 1 && !Arch.IsUnaryDestination(a, op) ==> p.from == AddrToAddr(addrs[0]).value && p.to == a.noAddr)
  {
  }

  /** Two operands are source and destination; a register pair on the right puts its
      second register in the source's index, which must have been empty. */
  lemma InstructionBinary(a: Arch.Arch, s: State, op: int, x: Addr, y: Addr)
    requires AddrToAddr(x).errors == [] && AddrToAddr(y).errors == []
    ensures var r := Instruction(a, s, op, [x, y]);
      var p := r.progs[|s.progs|];
      var from := AddrToAddr(x).value;
      && p.to == AddrToAddr(y).value
      && (!Has(y, {Register2}) ==> p.from == from)
      && (Has(y, {Register2}) ==> p.from == from.(index := Reg(y.register2)))
      && (Has(y, {Register2}) && from.index != NoType && !Flagged(s.errs) ==>
            ReportedFirst(s.errs, r.errs, PairNeedsRegister))
  {
  }

  /** Three operands: an offset third operand becomes the destination's offset; a
      register third operand moves the operands along (the second is the source, the
      third the destination, and the first, which must be an immediate, its offset);
      anything else is reported. */
  lemma InstructionTernary(a: Arch.Arch, s: State, op: int, x: Addr, y: Addr, z: Addr)
    requires AddrToAddr(x).errors == [] && AddrToAddr(y).errors == [] && AddrToAddr(z).errors == []
    ensures var r := Instruction(a, s, op, [x, y, z]);
      var p := r.progs[|s.progs|];
      && (Is(z, {Offset}) ==> p.from == AddrToAddr(x).value && p.to == AddrToAddr(y).value.(offset := z.offset))
      && (Is(z, {Register}) ==> p.from == AddrToAddr(y).value && p.to == AddrToAddr(z).value.(offset := x.offset))
      && (Is(z, {Register}) && !x.isImmediateConstant && !Flagged(s.errs) ==>
            ReportedFirst(s.errs, r.errs, ExpectedImmediateFirst))
      && (!Is(z, {Offset}) && !Is(z, {Register}) && !Flagged(s.errs) ==>
            ReportedFirst(s.errs, r.errs, ExpectedThirdOperand))
  {
  }

  /** More than three operands are reported and give empty (zero) addresses. */
  lemma InstructionTooMany(a: Arch.Arch, s: State, op: int, addrs: seq<Addr>)
    requires |addrs| > 3
    ensures Instruction(a, s, op, addrs) ==
      LinkProg(Errorf(s, OperandCount(|addrs|)), Prog(op, s.errs.lineNum, ZeroAddr, ZeroAddr, 0), true)
  {
  }

  // Patching.

  /** Patching from i on leaves alone every instruction no later waiting jump names. */
  lemma {:induction false} PatchFromKeeps(s: State, i: nat, k: nat)
    requires Linked(s) && k < |s.progs|
    requires forall j :: i <= j < |s.toPatch| ==> s.toPatch[j].prog != k
    ensures PatchFrom(s, i).progs[k] == s.progs[k]
    decreases |s.toPatch| - i
  {
    if i < |s.toPatch| {
      var p := s.toPatch[i];
      var s1 := if p.name in s.labels then BranchJump(s, p.prog, s.labels[p.name]) else Errorf(s, UndefinedLabel(p.name));
      PatchFromKeeps(s1, i + 1, k);
    }
  }

  /** Every waiting jump from i on whose label is bound ends up branching to the label's
      instruction. */
  lemma {:induction false} PatchFromResolves(s: State, i: nat, j: nat)
    requires Linked(s) && i <= j < |s.toPatch| && s.toPatch[j].name in s.labels
    ensures var p := s.toPatch[j];
      PatchFrom(s, i).progs[p.prog] == s.progs[p.prog].(to := BranchAddr(s.labels[p.name]))
    decreases |s.toPatch| - i
  {
    var p := s.toPatch[i];
    if i == j {
      PatchFromResolvesFirst(s, i);
    } else if p.name in s.labels {
      PatchFromResolves(BranchJump(s, p.prog, s.labels[p.name]), i + 1, j);
    } else {
      PatchFromResolves(Errorf(s, UndefinedLabel(p.name)), i + 1, j);
    }
  }

  /** The i-th waiting jump, when its label is bound, is resolved by patching from i. */
  lemma PatchFromResolvesFirst(s: State, i: nat)
    requires Linked(s) && i < |s.toPatch| && s.toPatch[i].name in s.labels
    ensures var p := s.toPatch[i];
      PatchFrom(s, i).progs[p.prog] == s.progs[p.prog].(to := BranchAddr(s.labels[p.name]))
  {
    var p := s.toPatch[i];
    var s1 := BranchJump(s, p.prog, s.labels[p.name]);
    assert PatchFrom(s, i) == PatchFrom(s1, i + 1);
    assert forall k :: i + 1 <= k < |s1.toPatch| ==> s1.toPatch[k].prog != p.prog;
    PatchFromKeeps(s1, i + 1, p.prog);
  }

  /** Once the line has its report, patching reports nothing more. */
  lemma {:induction false} PatchFromFlagged(s: State, i: nat)
    requires Linked(s) && Flagged(s.errs)
    ensures PatchFrom(s, i).errs == s.errs
    decreases |s.toPatch| - i
  {
    if i < |s.toPatch| {
      var p := s.toPatch[i];
      var s1 := if p.name in s.labels then BranchJump(s, p.prog, s.labels[p.name]) else Errorf(s, UndefinedLabel(p.name));
      PatchFromFlagged(s1, i + 1);
    }
  }

  /** Patching reports nothing when every waiting label is bound, and otherwise reports
      the first waiting label that is not; all the reports fall on one line, so that is
      the only one. */
  lemma {:induction false} PatchFromReports(s: State, i: nat)
    requires Linked(s)
    ensures (forall j :: i <= j < |s.toPatch| ==> s.toPatch[j].name in s.labels) ==> PatchFrom(s, i).errs == s.errs
    ensures forall j :: (i <= j < |s.toPatch| && s.toPatch[j].name !in s.labels
      && forall k :: i <= k < j ==> s.toPatch[k].name in s.labels) ==>
        PatchFrom(s, i).errs == Report(s.errs, UndefinedLabel(s.toPatch[j].name))
    decreases |s.toPatch| - i
  {
    if i < |s.toPatch| {
      var p := s.toPatch[i];
      if p.name in s.labels {
        PatchFromReports(BranchJump(s, p.prog, s.labels[p.name]), i + 1);
      } else {
        PatchFromFlagged(Errorf(s, UndefinedLabel(p.name)), i + 1);
      }
    }
  }
}
