/** The output side of the assembler: the architecture-neutral address and instruction
    records that the object writer consumes. Operand type codes are symbolic (the numeric
    D_ constants of each target are not part of this model); symbols are identified by
    their names; the linked list of instructions is the sequence of its elements in link
    order, and a branch target is the position of the target instruction in that
    sequence. */
module Link {
  import opened Results

  /** An operand type code. `Reg(r)` is the code of the register numbered r (register
      codes are the register numbers themselves); `Indir(t)` is t plus the indirection
      offset; `NoType` is the "none" code. */
  datatype AddrType =
    | NoType | Const | Const2 | FConst | SConst | Branch | Extern | Static | Auto | Param | AddrOf | SP
    | Reg(r: int)
    | Indir(base: AddrType)

  /** An output address. `sym` is the referenced symbol, `branch` the position of the
      instruction a resolved branch jumps to. The floating-point value is not modelled. */
  datatype LAddr = LAddr(
    typ: AddrType,
    index: AddrType,
    sym: Option<string>,
    offset: int,
    scale: int,
    sval: string,
    branch: Option<nat>)

  /** The empty address: type and index are "none", everything else zero. */
  const NoAddr: LAddr := LAddr(NoType, NoType, None, 0, 0, "", None)

  /** A typed address with only a type and an offset, as the builders write them. */
  function Typed(t: AddrType, offset: int): (r: LAddr)
    ensures r.typ == t && r.index == NoType && r.offset == offset
    ensures r.(typ := NoType, offset := 0) == NoAddr
  {
    NoAddr.(typ := t, offset := offset)
  }

  /** One instruction: opcode, source line, the two operands and its virtual pc. */
  datatype Prog = Prog(op: int, lineno: int, from: LAddr, to: LAddr, pc: int)

  const TwoTo8: int := 0x100
  const TwoTo63: int := 0x8000_0000_0000_0000
  const TwoTo64: int := 0x1_0000_0000_0000_0000

  /** Go's conversion of an integer to int64: two's complement wrap-around. */
  function Int64(x: int): (r: int)
    ensures -TwoTo63 <= r < TwoTo63
    ensures (r - x) % TwoTo64 == 0
    ensures -TwoTo63 <= x < TwoTo63 ==> r == x
  {
    var m := x % TwoTo64;
    if m >= TwoTo63 then m - TwoTo64 else m
  }

  /** Go's conversion of an integer to int8. */
  function Int8(x: int): (r: int)
    ensures -128 <= r < 128
    ensures (r - x) % TwoTo8 == 0
    ensures -128 <= x < 128 ==> r == x
  {
    var m := x % TwoTo8;
    if m >= 128 then m - TwoTo8 else m
  }

  /** The position of the first middle dot (U+00B7) in s, or |s| when there is none. */
  function FirstDot(s: string): (k: nat)
    ensures k <= |s|
    ensures k < |s| ==> s[k] == '·'
    ensures forall j :: 0 <= j < k ==> s[j] != '·'
  {
    if s == [] || s[0] == '·' then 0 else 1 + FirstDot(s[1..])
  }

  /** The name with its first middle dot replaced by a period, and only the first: the
      package separator of the symbol's qualified name. Every other character, later
      middle dots included, is kept. */
  function ReplaceFirstDot(s: string): (r: string)
    ensures |r| == |s|
    ensures forall i :: 0 <= i < |s| ==> r[i] == (if i == FirstDot(s) then '.' else s[i])
  {
    if s == [] then []
    else if s[0] == '·' then "." + s[1..]
    else [s[0]] + ReplaceFirstDot(s[1..])
  }
}
