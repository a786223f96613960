/** The parsed operand (`Addr`) and its translation into an output address: the
    component masks, the `has` and `is` shape tests, the choice of symbol type from the
    base pseudo-register, and the field-by-field construction of the output address. */
module Address {
  import opened Results
  import opened Link
  import opened Messages

  /** Pseudo-register numbers: negative, so they never collide with a machine register. */
  const RFP: int := -1
  const RSB: int := -2
  const RSP: int := -3
  const RPC: int := -4

  /** A parsed operand. `register` and `index` hold register numbers (or pseudo-register
      numbers), `offset` an int64 and `scale` an int8. The floating-point value itself is
      not modelled, only whether there is one. */
  datatype Addr = Addr(
    isStatic: bool,             // symbol<>
    isImmediateConstant: bool,  // $3
    isImmediateAddress: bool,   // $sym(SB)
    isIndirect: bool,           // (R1)
    hasRegister: bool,
    hasRegister2: bool,
    hasFloat: bool,
    hasOffset: bool,
    hasString: bool,
    symbol: string,
    register: int,
    register2: int,
    offset: int,
    str: string,
    index: int,
    scale: int)

  /** The zero operand every parse starts from. */
  const EmptyAddr: Addr :=
    Addr(false, false, false, false, false, false, false, false, false, "", 0, 0, 0, "", 0, 0)

  /** The components an operand may carry; a mask is a set of them (one bit each in the
      source's integer masks). Being static has no component: the shape tests ignore it. */
  datatype Component =
    | ImmediateConstant | ImmediateAddress | Indirect | Symbol | Register | Register2
    | Offset | Float | String | Index | Scale

  type Mask = set<Component>

  /** The components `has` looks at: all but the two immediate ones and indirection. */
  const ValueBits: Mask := {Symbol, Register, Register2, Offset, Float, String, Index, Scale}

  /** Does the operand carry the component? A symbol when the name is non-empty, an
      index and a scale only when they are non-zero, the flag itself for the rest. */
  predicate Carries(a: Addr, c: Component) {
    match c
    case ImmediateConstant => a.isImmediateConstant
    case ImmediateAddress => a.isImmediateAddress
    case Indirect => a.isIndirect
    case Symbol => a.symbol != ""
    case Register => a.hasRegister
    case Register2 => a.hasRegister2
    case Offset => a.hasOffset
    case Float => a.hasFloat
    case String => a.hasString
    case Index => a.index != 0
    case Scale => a.scale != 0
  }

  /** The components an operand carries. */
  function Shape(a: Addr): Mask {
    set c: Component | Carries(a, c)
  }

  /** Does the operand carry any of the masked components? The immediate and indirect
      components of the mask are not consulted. */
  predicate Has(a: Addr, mask: Mask)
    ensures Has(a, mask) <==> exists c :: c in mask && c in ValueBits && Carries(a, c)
  {
    (Symbol in mask && a.symbol != "")
    || (Register in mask && a.hasRegister)
    || (Register2 in mask && a.hasRegister2)
    || (Offset in mask && a.hasOffset)
    || (Float in mask && a.hasFloat)
    || (String in mask && a.hasString)
    || (Index in mask && a.index != 0)
    || (Scale in mask && a.scale != 0)
  }

  /** A mask that agrees with the operand on each component is its shape. */
  lemma ExactShape(a: Addr, mask: Mask)
    requires (ImmediateConstant in mask) == a.isImmediateConstant
    requires (ImmediateAddress in mask) == a.isImmediateAddress
    requires (Indirect in mask) == a.isIndirect
    requires (Symbol in mask) == (a.symbol != "")
    requires (Register in mask) == a.hasRegister
    requires (Register2 in mask) == a.hasRegister2
    requires (Offset in mask) == a.hasOffset
    requires (Float in mask) == a.hasFloat
    requires (String in mask) == a.hasString
    requires (Index in mask) == (a.index != 0)
    requires (Scale in mask) == (a.scale != 0)
    ensures Shape(a) == mask
  {
    forall c ensures (c in mask) == Carries(a, c) {
      match c
      case ImmediateConstant =>
      case ImmediateAddress =>
      case Indirect =>
      case Symbol =>
      case Register =>
      case Register2 =>
      case Offset =>
      case Float =>
      case String =>
      case Index =>
      case Scale =>
    }
  }

  /** Does the operand carry exactly the masked components, no more and no fewer? */
  predicate Is(a: Addr, mask: Mask)
    ensures Is(a, mask) <==> Shape(a) == mask
  {
    var r := (ImmediateConstant !in mask) == !a.isImmediateConstant
      && (ImmediateAddress !in mask) == !a.isImmediateAddress
      && (Indirect !in mask) == !a.isIndirect
      && (Symbol !in mask) == (a.symbol == "")
      && (Register !in mask) == !a.hasRegister
      && (Register2 !in mask) == !a.hasRegister2
      && (Offset !in mask) == !a.hasOffset
      && (Float !in mask) == !a.hasFloat
      && (String !in mask) == !a.hasString
      && (Index !in mask) == (a.index == 0)
      && (Scale !in mask) == (a.scale == 0);
    if r then ExactShape(a, mask); true else false
  }

  /** An operand of an exact shape carries at least one of a set of components exactly
      when the shape and the set share a value bit. */
  lemma IsThenHas(a: Addr, shape: Mask, mask: Mask)
    requires Is(a, shape)
    ensures Has(a, mask) <==> shape * mask * ValueBits != {}
  {
    if Has(a, mask) {
      var c :| c in mask && c in ValueBits && Carries(a, c);
      assert c in shape * mask * ValueBits;
    }
    if shape * mask * ValueBits != {} {
      var c :| c in shape * mask * ValueBits;
      assert c in Shape(a);
    }
  }

  /** Being static changes neither test. */
  lemma StaticIgnored(a: Addr, mask: Mask)
    ensures Has(a.(isStatic := !a.isStatic), mask) == Has(a, mask)
    ensures Is(a.(isStatic := !a.isStatic), mask) == Is(a, mask)
  {
  }

  /** A value together with the error messages raised while computing it, in order. */
  datatype Checked<T> = Checked(value: T, errors: seq<Msg>)

  /** The symbol type for an operand `sym(R)`: parameter for FP, automatic for SP, and for
      SB an address when the operand is immediate, static when declared `<>`, external
      otherwise. Any other base is an error, and the type code is then 0 (the code of
      register 0). */
  function SymbolType(a: Addr): (r: Checked<AddrType>)
    ensures r.errors == [] <==> a.register in {RFP, RSP, RSB}
    ensures a.register == RFP ==> r.value == Param
    ensures a.register == RSP ==> r.value == Auto
    ensures a.register == RSB ==> r.value == (if a.isImmediateAddress then AddrOf
                                              else if a.isStatic then Static else Extern)
    ensures r.errors != [] ==> r == Checked(Reg(0), [InvalidSymbolRegister(a.symbol)])
  {
    if a.register == RFP then Checked(Param, [])
    else if a.register == RSP then Checked(Auto, [])
    else if a.register == RSB then
      if a.isImmediateAddress then Checked(AddrOf, [])
      else if a.isStatic then Checked(Static, [])
      else Checked(Extern, [])
    else Checked(Reg(0), [InvalidSymbolRegister(a.symbol)])
  }

  /** The output address for a parsed operand, built one component at a time in the
      order the assembler does: symbol or register, then index, scale, offset, float,
      string, and finally the index-without-register fix-up. The errors are those of
      the symbol's base: one that is not FP, SP or SB, or an immediate address not
      relative to SB. */
  function AddrToAddr(a: Addr): (r: Checked<LAddr>)
    ensures r.errors != [] <==>
      a.symbol != "" && (a.register !in {RFP, RSP, RSB} || (a.isImmediateAddress && a.register != RSB))
    ensures r.value.sym == (if a.symbol != "" then Some(a.symbol) else None)
    ensures a.index != 0 ==> r.value.index == Reg(a.index)
    ensures r.value.scale == a.scale
    ensures r.value.offset == (if a.hasOffset then a.offset else 0)
    ensures r.value.sval == (if a.hasString then a.str else "")
  {
    var base := BaseOf(a);
    Checked(TypeStep(a, OffsetStep(a, IndexStep(a, base.value))), base.errors)
  }

  /** The index and scale components. */
  function IndexStep(a: Addr, out: LAddr): (r: LAddr)
    ensures r.(index := out.index, scale := out.scale) == out
    ensures a.index != 0 ==> r.index == Reg(a.index)
    ensures r.scale == (if a.scale != 0 then a.scale else out.scale)
  {
    var out := if Has(a, {Index}) then out.(index := Reg(a.index)) else out;
    if Has(a, {Scale}) then out.(scale := a.scale) else out
  }

  /** The offset component: an offset alone is an indirection through no register, an
      immediate constant without a symbol or register is a constant, and otherwise the
      offset only displaces what is already there. */
  function OffsetStep(a: Addr, out: LAddr): (r: LAddr)
    ensures r.(offset := out.offset, typ := out.typ) == out
    ensures r.offset == (if a.hasOffset then a.offset else out.offset)
  {
    if !Has(a, {Offset}) then out
    else if Is(a, {Offset}) then out.(offset := a.offset, typ := Indir(NoType))
    else if a.isImmediateConstant && out.typ == NoType then out.(offset := a.offset, typ := Const)
    else out.(offset := a.offset)
  }

  /** The float and string components, and the fix-up that makes an index without a
      register an indirection. */
  function TypeStep(a: Addr, out: LAddr): (r: LAddr)
    ensures r.(typ := out.typ, sval := out.sval) == out
    ensures r.sval == (if a.hasString then a.str else out.sval)
  {
    var out := if Has(a, {Float}) then out.(typ := FConst) else out;
    var out := if Has(a, {String}) then out.(sval := a.str, typ := SConst) else out;
    if a.isIndirect && !Has(a, {Register}) && Has(a, {Index}) then out.(typ := Indir(NoType)) else out
  }

  /** The symbol or register part of the output address. */
  function BaseOf(a: Addr): (r: Checked<LAddr>)
    ensures r.errors != [] <==>
      a.symbol != "" && (a.register !in {RFP, RSP, RSB} || (a.isImmediateAddress && a.register != RSB))
    ensures r.value.sym == (if a.symbol != "" then Some(a.symbol) else None)
    ensures r.value.scale == 0 && r.value.offset == 0 && r.value.sval == ""
  {
    if Has(a, {Symbol}) then
      var t := SymbolType(a);
      var out := NoAddr.(typ := t.value, sym := Some(a.symbol));
      if !a.isImmediateAddress then Checked(out, t.errors)
      else if a.register == RSB then
        Checked(out.(index := if a.isStatic then Static else Extern), t.errors)
      else
        Checked(out, t.errors + [ImmediateNotSB(a.symbol)])
    else if Has(a, {Register}) then
      var t := if a.register == RSP then SP else Reg(a.register);
      Checked(NoAddr.(typ := if a.isIndirect then Indir(t) else t), [])
    else Checked(NoAddr, [])
  }

  /** The four ways to name a symbol relative to SB, and the type and index each is
      encoded as: `$a(SB)` is (address, external), `$a<>(SB)` is (address, static),
      `a(SB)` is (external, none) and `a<>(SB)` is (static, none). */
  lemma SymbolEncoding(a: Addr)
    requires a.symbol != "" && a.hasRegister && a.register == RSB && a.isIndirect
    requires Is(a, {Symbol, Register, Indirect}) || Is(a, {ImmediateAddress, Symbol, Register, Indirect})
    ensures AddrToAddr(a).errors == []
    ensures AddrToAddr(a).value.sym == Some(a.symbol)
    ensures AddrToAddr(a).value.typ == (if a.isImmediateAddress then AddrOf
                                        else if a.isStatic then Static else Extern)
    ensures AddrToAddr(a).value.index == (if !a.isImmediateAddress then NoType
                                          else if a.isStatic then Static else Extern)
  {
  }

  /** A plain register `R` becomes the register's own type code; `(R)` its indirection;
      the stack pointer pseudo-register becomes SP. */
  lemma RegisterEncoding(a: Addr)
    requires Is(a, {Register}) || Is(a, {Register, Indirect})
    ensures AddrToAddr(a) == Checked(NoAddr.(typ := var t := if a.register == RSP then SP else Reg(a.register);
                                                   if a.isIndirect then Indir(t) else t), [])
  {
  }

  /** An immediate integer `$n` becomes a constant with offset n; a bare integer `n`
      (a memory operand with no base) becomes an indirection through nothing. */
  lemma ConstantEncoding(a: Addr)
    requires Is(a, {ImmediateConstant, Offset}) || Is(a, {Offset})
    ensures AddrToAddr(a) == Checked(NoAddr.(typ := if a.isImmediateConstant then Const else Indir(NoType),
                                             offset := a.offset), [])
  {
  }

  /** A symbol whose base is not a pseudo-register is reported, and so is an immediate
      address whose base is not SB; when both apply the first report comes first. */
  lemma BadSymbolBase(a: Addr)
    requires a.symbol != "" && a.register !in {RFP, RSP, RSB}
    ensures AddrToAddr(a).errors == [InvalidSymbolRegister(a.symbol)]
      + (if a.isImmediateAddress then [ImmediateNotSB(a.symbol)] else [])
  {
  }
}
