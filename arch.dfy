/** The per-target tables the parser consults: register names, instruction mnemonics
    (with their historical aliases), pseudo-ops, and the one-operand instructions whose
    operand is a destination. The target's own name lists (register names and opcode
    names, each indexed by number) come from the object library and are parameters here;
    an opcode constant such as "the JHI opcode" is the position of its name in the
    opcode-name list. */
module Arch {
  import opened Results
  import opened Link
  import Address

  /** One target's name lists from the object library: register names and opcode names,
      the number of each being its position in the list. */
  datatype NameTables = NameTables(regstr: seq<string>, anames: seq<string>)

  /** The name lists of both supported targets. */
  datatype Targets = Targets(x86: NameTables, amd64: NameTables)

  /** A selected architecture. `linkArch` names the object library's architecture
      descriptor; `dConst2` is that target's second-constant operand type; `sp` the type
      code of the hardware stack pointer. Maps answer 0 (or false) for absent keys, as
      `Lookup` and `IsUnaryDestination` do. */
  datatype Arch = Arch(
    linkArch: string,
    dConst2: AddrType,
    sp: AddrType,
    noAddr: LAddr,
    instructions: map<string, int>,
    registers: map<string, int>,
    pseudos: map<string, int>,
    unaryDestination: map<int, bool>)

  /** A table lookup that answers 0 for an absent key, as a Go map does. */
  function Lookup(m: map<string, int>, k: string): (r: int)
    ensures k !in m ==> r == 0
    ensures k in m ==> r == m[k]
  {
    if k in m then m[k] else 0
  }

  /** Is op's single operand its destination? False for an absent key. */
  predicate IsUnaryDestination(a: Arch, op: int) {
    op in a.unaryDestination && a.unaryDestination[op]
  }

  /** The opcode constant named n: the first position of n in the opcode names, -1 if
      the target has no such opcode. */
  function Opcode(names: seq<string>, n: string): (r: int)
    ensures -1 <= r < |names|
    ensures r >= 0 ==> names[r] == n && forall j :: 0 <= j < r ==> names[j] != n
    ensures r == -1 <==> n !in names
  {
    if names == [] then -1
    else if names[0] == n then 0
    else var r := Opcode(names[1..], n); if r == -1 then -1 else r + 1
  }

  /** The map obtained by assigning `names[i] := i` for i in increasing order. */
  function Indexed(names: seq<string>): map<string, int>
  {
    if names == [] then map[]
    else Indexed(names[..|names| - 1])[names[|names| - 1] := |names| - 1]
  }

  /** Each name maps to its last position; nothing else is a key. */
  lemma {:induction false} IndexedLast(names: seq<string>, k: string)
    ensures k in Indexed(names) <==> k in names
    ensures k in names ==>
      0 <= Indexed(names)[k] < |names| && names[Indexed(names)[k]] == k
      && forall j :: Indexed(names)[k] < j < |names| ==> names[j] != k
  {
    if names != [] {
      var init := names[..|names| - 1];
      IndexedLast(init, k);
      if k != names[|names| - 1] && k in names {
        var i :| 0 <= i < |names| && names[i] == k;
        assert init[i] == k;
      }
    }
  }

  /** The map obtained from m by the assignments `entries[i].0 := entries[i].1` in order. */
  function Assign<V>(m: map<string, V>, entries: seq<(string, V)>): map<string, V>
  {
    if entries == [] then m
    else Assign(m, entries[..|entries| - 1])[entries[|entries| - 1].0 := entries[|entries| - 1].1]
  }

  /** Later assignments win: a key assigned at position i and never again afterwards has
      the value assigned there, whatever m held. Keys never assigned keep m's entry. */
  lemma {:induction false} AssignLast<V>(m: map<string, V>, entries: seq<(string, V)>, i: int)
    requires 0 <= i < |entries|
    requires forall j :: i < j < |entries| ==> entries[j].0 != entries[i].0
    ensures entries[i].0 in Assign(m, entries) && Assign(m, entries)[entries[i].0] == entries[i].1
  {
    if i < |entries| - 1 {
      AssignLast(m, entries[..|entries| - 1], i);
    }
  }

  /** A key assigned nowhere keeps its entry in m (or its absence). */
  lemma {:induction false} AssignUntouched<V>(m: map<string, V>, entries: seq<(string, V)>, k: string)
    requires forall j :: 0 <= j < |entries| ==> entries[j].0 != k
    ensures k in Assign(m, entries) <==> k in m
    ensures k in m ==> Assign(m, entries)[k] == m[k]
  {
    if entries != [] {
      AssignUntouched(m, entries[..|entries| - 1], k);
    }
  }

  /** Builds `Indexed(names)` with the source's loop. */
  method IndexMap(names: seq<string>) returns (m: map<string, int>)
    ensures m == Indexed(names)
  {
    m := map[];
    for i := 0 to |names|
      invariant m == Indexed(names[..i])
    {
      assert names[..i + 1][..i] == names[..i];
      m := m[names[i] := i];
    }
    assert names[..|names|] == names;
  }

  /** Applies the assignments in order, as the source's sequence of map stores does. */
  method AssignAll<V>(m: map<string, V>, entries: seq<(string, V)>) returns (r: map<string, V>)
    ensures r == Assign(m, entries)
  {
    r := m;
    for i := 0 to |entries|
      invariant r == Assign(m, entries[..i])
    {
      assert entries[..i + 1][..i] == entries[..i];
      r := r[entries[i].0 := entries[i].1];
    }
    assert entries[..|entries|] == entries;
  }

  /** The map that marks exactly the listed opcodes. */
  function Marked(ops: seq<int>): map<int, bool> {
    map op | op in ops :: true
  }

  /** Marks each listed opcode as a unary destination, one store at a time. */
  method MarkAll(ops: seq<int>) returns (r: map<int, bool>)
    ensures r == Marked(ops)
  {
    r := map[];
    for i := 0 to |ops|
      invariant r == Marked(ops[..i])
    {
      assert ops[..i + 1] == ops[..i] + [ops[i]];
      r := r[ops[i] := true];
      assert r == Marked(ops[..i + 1]);
    }
    assert ops[..|ops|] == ops;
  }

  /** The four pseudo-registers, assigned after the hardware register names. */
  const PseudoRegisters: seq<(string, int)> :=
    [("SB", Address.RSB), ("FP", Address.RFP), ("SP", Address.RSP), ("PC", Address.RPC)]

  /** The 386 mnemonic aliases, as (alias, canonical opcode name), in the source's order. */
  const Aliases386: seq<(string, string)> :=
    [("JA", "JHI"), ("JAE", "JCC"), ("JB", "JCS"), ("JBE", "JLS"),
     ("JC", "JCS"), ("JE", "JEQ"), ("JG", "JGT"), ("JHS", "JCC")]
    + [("JL", "JLT"), ("JLO", "JCS"), ("JNA", "JLS"), ("JNAE", "JCS"),
       ("JNB", "JCC"), ("JNBE", "JHI"), ("JNC", "JCC"), ("JNG", "JLE")]
    + [("JNGE", "JLT"), ("JNL", "JGE"), ("JNLE", "JGT"), ("JNO", "JOC"),
       ("JNP", "JPC"), ("JNS", "JPL"), ("JNZ", "JNE"), ("JO", "JOS")]
    + [("JP", "JPS"), ("JPE", "JPS"), ("JPO", "JPC"), ("JS", "JMI"), ("JZ", "JEQ"),
       ("MASKMOVDQU", "MASKMOVOU"), ("MOVOA", "MOVO"), ("MOVNTDQ", "MOVNTO")]

  /** The amd64 mnemonic aliases, as (alias, canonical opcode name), in the source's order. */
  const AliasesAmd64: seq<(string, string)> :=
    [("JB", "JCS"), ("JC", "JCS"), ("JNAE", "JCS"), ("JLO", "JCS"),
     ("JAE", "JCC"), ("JNB", "JCC"), ("JNC", "JCC"), ("JHS", "JCC")]
    + [("JE", "JEQ"), ("JZ", "JEQ"), ("JNZ", "JNE"), ("JBE", "JLS"),
       ("JNA", "JLS"), ("JA", "JHI"), ("JNBE", "JHI"), ("JS", "JMI")]
    + [("JNS", "JPL"), ("JP", "JPS"), ("JPE", "JPS"), ("JNP", "JPC"),
       ("JPO", "JPC"), ("JL", "JLT"), ("JNGE", "JLT"), ("JNL", "JGE")]
    + [("JNG", "JLE"), ("JG", "JGT"), ("JNLE", "JGT"),
       ("MASKMOVDQU", "MASKMOVOU"), ("MOVD", "MOVQ"), ("MOVDQ2Q", "MOVQ")]

  /** The pseudo-ops, each mapped to its own opcode. */
  const PseudoNames: seq<string> := ["DATA", "FUNCDATA", "GLOBL", "PCDATA", "TEXT"]

  /** The conditional set instructions, unary destinations on both targets. */
  const SetOps: seq<string> :=
    ["SETCC", "SETCS", "SETEQ", "SETGE", "SETGT", "SETHI", "SETLE", "SETLS",
     "SETLT", "SETMI", "SETNE", "SETOC", "SETOS", "SETPC", "SETPL", "SETPS"]

  /** The floating-point state stores, unary destinations on both targets. */
  const FloatOps: seq<string> := ["FFREE", "FLDENV", "FSAVE", "FSTCW", "FSTENV", "FSTSW"]

  /** The 386 one-operand instructions whose operand is the destination. */
  const Unary386: seq<string> :=
    ["BSWAPL", "CMPXCHG8B", "DECB", "DECL", "DECW", "INCB", "INCL", "INCW"]
    + ["NEGB", "NEGL", "NEGW", "NOTB", "NOTL", "NOTW", "POPL", "POPW"]
    + SetOps + FloatOps

  /** The amd64 one-operand instructions whose operand is the destination. */
  const UnaryAmd64: seq<string> :=
    ["BSWAPL", "BSWAPQ", "CMPXCHG8B", "DECB", "DECL", "DECQ", "DECW",
     "INCB", "INCL", "INCQ", "INCW"]
    + ["NEGB", "NEGL", "NEGQ", "NEGW", "NOTB", "NOTL", "NOTQ", "NOTW",
       "POPL", "POPQ", "POPW"]
    + SetOps + FloatOps + ["FXSAVE", "FXSAVE64", "STMXCSR"]

  /** (name, opcode of target) for each pair (name, target name). */
  function Resolve(anames: seq<string>, pairs: seq<(string, string)>): (r: seq<(string, int)>)
    ensures |r| == |pairs|
    ensures forall i :: 0 <= i < |pairs| ==> r[i] == (pairs[i].0, Opcode(anames, pairs[i].1))
  {
    if pairs == [] then [] else [(pairs[0].0, Opcode(anames, pairs[0].1))] + Resolve(anames, pairs[1..])
  }

  /** (name, its own opcode) for each name. */
  function SelfCodes(anames: seq<string>, names: seq<string>): (r: seq<(string, int)>)
    ensures |r| == |names|
    ensures forall i :: 0 <= i < |names| ==> r[i] == (names[i], Opcode(anames, names[i]))
  {
    if names == [] then [] else [(names[0], Opcode(anames, names[0]))] + SelfCodes(anames, names[1..])
  }

  /** The opcodes of the named instructions. */
  function Codes(anames: seq<string>, names: seq<string>): (r: seq<int>)
    ensures |r| == |names|
    ensures forall i :: 0 <= i < |names| ==> r[i] == Opcode(anames, names[i])
  {
    if names == [] then [] else [Opcode(anames, names[0])] + Codes(anames, names[1..])
  }

  /** The table a target's name lists and alias and unary lists determine. */
  function Table(linkArch: string, dConst2: AddrType, t: NameTables,
                 aliases: seq<(string, string)>, unary: seq<string>): Arch
  {
    Arch(linkArch, dConst2, SP, NoAddr,
         Assign(Indexed(t.anames), Resolve(t.anames, aliases)),
         Assign(Indexed(t.regstr), PseudoRegisters),
         Assign(map[], SelfCodes(t.anames, PseudoNames)),
         Marked(Codes(t.anames, unary)))
  }

  /** The architecture selected by an identifier: the 386 tables for "386", the amd64
      tables for "amd64", and a fatal error for anything else. */
  function Selected(id: string, targets: Targets): Result<Arch> {
    if id == "386" then Ok(Table("386", Const2, targets.x86, Aliases386, Unary386))
    else if id == "amd64" then Ok(Table("amd64", NoType, targets.amd64, AliasesAmd64, UnaryAmd64))
    else Fail("unrecognized architecture " + id)
  }

  /** Builds one target's tables as the source does: canonical register names, then the
      pseudo-registers; canonical opcode names, then the aliases; then the pseudo-ops and
      the unary-destination marks. */
  method BuildTable(linkArch: string, dConst2: AddrType, t: NameTables,
                    aliases: seq<(string, string)>, unary: seq<string>) returns (a: Arch)
    ensures a == Table(linkArch, dConst2, t, aliases, unary)
  {
    var registers := IndexMap(t.regstr);
    registers := AssignAll(registers, PseudoRegisters);
    var instructions := IndexMap(t.anames);
    instructions := AssignAll(instructions, Resolve(t.anames, aliases));
    var pseudos := AssignAll(map[], SelfCodes(t.anames, PseudoNames));
    var unaryDestination := MarkAll(Codes(t.anames, unary));
    a := Arch(linkArch, dConst2, SP, NoAddr, instructions, registers, pseudos, unaryDestination);
  }

  /** The 386 tables. */
  method Arch386(targets: Targets) returns (a: Arch)
    ensures Selected("386", targets) == Ok(a)
  {
    a := BuildTable("386", Const2, targets.x86, Aliases386, Unary386);
  }

  /** The amd64 tables. */
  method ArchAmd64(targets: Targets) returns (a: Arch)
    ensures Selected("amd64", targets) == Ok(a)
  {
    a := BuildTable("amd64", NoType, targets.amd64, AliasesAmd64, UnaryAmd64);
  }

  /** Selects the architecture named by id. */
  method SetArch(id: string, targets: Targets) returns (r: Result<Arch>)
    ensures r == Selected(id, targets)
  {
    if id == "386" {
      var a := Arch386(targets);
      r := Ok(a);
    } else if id == "amd64" {
      var a := ArchAmd64(targets);
      r := Ok(a);
    } else {
      r := Fail("unrecognized architecture " + id);
    }
  }

  /** The stores `names[i] := i`, in order of i. */
  function Numbered(names: seq<string>): (r: seq<(string, int)>)
    ensures |r| == |names|
    ensures forall i :: 0 <= i < |names| ==> r[i] == (names[i], i)
  {
    if names == [] then []
    else Numbered(names[..|names| - 1]) + [(names[|names| - 1], |names| - 1)]
  }

  /** Storing every name at its position over any map: a listed name ends at its last
      position, any other key keeps its entry or absence. */
  lemma {:induction false} AssignNumbered(m: map<string, int>, names: seq<string>, k: string)
    ensures k in names ==> k in Assign(m, Numbered(names)) && LastAt(names, k, Assign(m, Numbered(names))[k])
    ensures k !in names ==> (k in Assign(m, Numbered(names)) <==> k in m)
    ensures k !in names && k in m ==> Assign(m, Numbered(names))[k] == m[k]
  {
    if names != [] {
      var init := names[..|names| - 1];
      assert Numbered(names)[..|names| - 1] == Numbered(init);
      AssignNumbered(m, init, k);
      if k != names[|names| - 1] {
        assert k in names ==> k in init by {
          if k in names {
            var i :| 0 <= i < |names| && names[i] == k;
            assert init[i] == k;
          }
        }
      }
    }
  }

  /** v is the last position of k in names. */
  predicate LastAt(names: seq<string>, k: string, v: int) {
    0 <= v < |names| && names[v] == k && forall j :: v < j < |names| ==> names[j] != k
  }

  /** The tables the init function of asm/parse.go builds from the amd64 name lists, the
      ones the parser consults: the same as arch.go's amd64 tables, except that the
      mnemonic aliases are stored before the opcode names rather than after them. */
  function ParserTables(t: NameTables): Arch {
    Arch("amd64", NoType, SP, NoAddr,
         Assign(Assign(map[], Resolve(t.anames, AliasesAmd64)), Numbered(t.anames)),
         Assign(Indexed(t.regstr), PseudoRegisters),
         Assign(map[], SelfCodes(t.anames, PseudoNames)),
         Marked(Codes(t.anames, UnaryAmd64)))
  }

  /** Builds the parser's tables as that init function does: register names, then the
      pseudo-registers; the aliases, then every opcode name at its position; then the
      pseudo-ops and the unary-destination marks. */
  method InitTables(t: NameTables) returns (a: Arch)
    ensures a == ParserTables(t)
  {
    var registers := IndexMap(t.regstr);
    registers := AssignAll(registers, PseudoRegisters);
    var aliases := AssignAll(map[], Resolve(t.anames, AliasesAmd64));
    var instructions := aliases;
    for i := 0 to |t.anames|
      invariant instructions == Assign(aliases, Numbered(t.anames[..i]))
    {
      assert t.anames[..i + 1][..i] == t.anames[..i];
      assert Numbered(t.anames[..i + 1]) == Numbered(t.anames[..i]) + [(t.anames[i], i)];
      instructions := instructions[t.anames[i] := i];
    }
    assert t.anames[..|t.anames|] == t.anames;
    var pseudos := AssignAll(map[], SelfCodes(t.anames, PseudoNames));
    var unaryDestination := MarkAll(Codes(t.anames, UnaryAmd64));
    a := Arch("amd64", NoType, SP, NoAddr, instructions, registers, pseudos, unaryDestination);
  }

  /** In the parser's tables an opcode name always maps to its own (last) position, even
      when it is also an alias; an alias that is no opcode name maps to its canonical
      opcode. */
  lemma ParserOpcodeWins(t: NameTables, k: string, i: int)
    requires 0 <= i < |AliasesAmd64|
    requires forall j :: i < j < |AliasesAmd64| ==> AliasesAmd64[j].0 != AliasesAmd64[i].0
    ensures var ins := ParserTables(t).instructions;
      && (k in t.anames ==> k in ins && LastAt(t.anames, k, ins[k]))
      && (AliasesAmd64[i].0 !in t.anames ==>
            AliasesAmd64[i].0 in ins && ins[AliasesAmd64[i].0] == Opcode(t.anames, AliasesAmd64[i].1))
  {
    var pairs := Resolve(t.anames, AliasesAmd64);
    var m := Assign(map[], pairs);
    AssignNumbered(m, t.anames, k);
    AssignNumbered(m, t.anames, AliasesAmd64[i].0);
    AssignLast(map[], pairs, i);
  }

  /** The parser's tables are arch.go's amd64 tables exactly when no amd64 alias is also
      an opcode name; otherwise only the instruction map differs, and only on such names. */
  lemma ParserTablesAgree(targets: Targets)
    ensures var p := ParserTables(targets.amd64);
      var a := Selected("amd64", targets).value;
      && p.registers == a.registers && p.pseudos == a.pseudos
      && p.unaryDestination == a.unaryDestination
      && (forall k | k !in targets.amd64.anames || k !in AliasNames ::
            (k in p.instructions <==> k in a.instructions)
            && (k in p.instructions ==> p.instructions[k] == a.instructions[k]))
      && ((forall k | k in AliasNames :: k !in targets.amd64.anames) ==> p == a)
  {
    var t := targets.amd64;
    forall k | k !in t.anames || k !in AliasNames
      ensures InstructionAgrees(t, k)
    {
      InstructionsAgree(t, k);
    }
    if forall k | k in AliasNames :: k !in t.anames {
      SameInstructions(t);
    }
  }

  /** The two instruction maps agree on the key k. */
  predicate InstructionAgrees(t: NameTables, k: string) {
    var p := ParserTables(t).instructions;
    var a := Table("amd64", NoType, t, AliasesAmd64, UnaryAmd64).instructions;
    (k in p <==> k in a) && (k in p ==> p[k] == a[k])
  }

  /** With no alias among the opcode names, the instruction maps are equal. */
  lemma SameInstructions(t: NameTables)
    requires forall k | k in AliasNames :: k !in t.anames
    ensures ParserTables(t).instructions == Table("amd64", NoType, t, AliasesAmd64, UnaryAmd64).instructions
  {
    var p := ParserTables(t).instructions;
    var a := Table("amd64", NoType, t, AliasesAmd64, UnaryAmd64).instructions;
    forall k | k in p || k in a
      ensures InstructionAgrees(t, k)
    {
      InstructionsAgree(t, k);
    }
    assert p.Keys == a.Keys;
  }

  /** The names the amd64 aliases define. */
  const AliasNames: set<string> := set i | 0 <= i < |AliasesAmd64| :: AliasesAmd64[i].0

  /** One key of the two instruction maps. */
  lemma InstructionsAgree(t: NameTables, k: string)
    requires k !in t.anames || k !in AliasNames
    ensures InstructionAgrees(t, k)
  {
    var pairs := Resolve(t.anames, AliasesAmd64);
    AssignNumbered(Assign(map[], pairs), t.anames, k);
    if k in AliasNames {
      var i :| 0 <= i < |AliasesAmd64| && AliasesAmd64[i].0 == k;
      AssignAssigned(map[], Indexed(t.anames), pairs, k, i);
    } else {
      AssignUntouched(map[], pairs, k);
      AssignUntouched(Indexed(t.anames), pairs, k);
      IndexedLast(t.anames, k);
    }
  }

  /** A key that the entries assign has the same final value over any starting map. */
  lemma {:induction false} AssignAssigned<V>(m1: map<string, V>, m2: map<string, V>,
                                             entries: seq<(string, V)>, k: string, i: int)
    requires 0 <= i < |entries| && entries[i].0 == k
    ensures k in Assign(m1, entries) && k in Assign(m2, entries)
    ensures Assign(m1, entries)[k] == Assign(m2, entries)[k]
  {
    if entries[|entries| - 1].0 != k {
      AssignAssigned(m1, m2, entries[..|entries| - 1], k, i);
    }
  }

  /** The register map: SB, FP, SP and PC are the pseudo-registers, whatever the target
      calls its hardware registers; every other name is a register exactly when the target
      lists it, and maps to the last position where it is listed. */
  lemma RegisterMap(linkArch: string, dConst2: AddrType, t: NameTables,
                    aliases: seq<(string, string)>, unary: seq<string>, k: string)
    ensures var regs := Table(linkArch, dConst2, t, aliases, unary).registers;
      && (k == "SB" ==> k in regs && regs[k] == Address.RSB)
      && (k == "FP" ==> k in regs && regs[k] == Address.RFP)
      && (k == "SP" ==> k in regs && regs[k] == Address.RSP)
      && (k == "PC" ==> k in regs && regs[k] == Address.RPC)
      && (k !in {"SB", "FP", "SP", "PC"} ==>
            (k in regs <==> k in t.regstr)
            && (k in regs ==>
                  0 <= regs[k] < |t.regstr| && t.regstr[regs[k]] == k
                  && forall j :: regs[k] < j < |t.regstr| ==> t.regstr[j] != k))
  {
    var base := Indexed(t.regstr);
    if k in {"SB", "FP", "SP", "PC"} {
      var i := if k == "SB" then 0 else if k == "FP" then 1 else if k == "SP" then 2 else 3;
      AssignLast(base, PseudoRegisters, i);
    } else {
      AssignUntouched(base, PseudoRegisters, k);
      IndexedLast(t.regstr, k);
    }
  }

  /** The pseudo-registers are negative and distinct, so they never collide with a
      hardware register number or with each other. */
  lemma PseudoRegistersDistinct()
    ensures forall i, j :: 0 <= i < j < |PseudoRegisters| ==> PseudoRegisters[i].1 != PseudoRegisters[j].1
    ensures forall i :: 0 <= i < |PseudoRegisters| ==> PseudoRegisters[i].1 < 0
  {
  }

  /** Aliases win: an alias not reassigned later in the alias list maps to its canonical
      opcode, even when the target also has an opcode of that name. */
  lemma AliasWins(linkArch: string, dConst2: AddrType, t: NameTables,
                  aliases: seq<(string, string)>, unary: seq<string>, i: int)
    requires 0 <= i < |aliases|
    requires forall j :: i < j < |aliases| ==> aliases[j].0 != aliases[i].0
    ensures var ins := Table(linkArch, dConst2, t, aliases, unary).instructions;
      aliases[i].0 in ins && ins[aliases[i].0] == Opcode(t.anames, aliases[i].1)
  {
    AssignLast(Indexed(t.anames), Resolve(t.anames, aliases), i);
  }

  /** A mnemonic that is not an alias is known exactly when the target has an opcode of
      that name, and then maps to the last position of that name. */
  lemma CanonicalMnemonic(linkArch: string, dConst2: AddrType, t: NameTables,
                          aliases: seq<(string, string)>, unary: seq<string>, k: string)
    requires forall i :: 0 <= i < |aliases| ==> aliases[i].0 != k
    ensures var ins := Table(linkArch, dConst2, t, aliases, unary).instructions;
      && (k in ins <==> k in t.anames)
      && (k in ins ==>
            0 <= ins[k] < |t.anames| && t.anames[ins[k]] == k
            && forall j :: ins[k] < j < |t.anames| ==> t.anames[j] != k)
  {
    AssignUntouched(Indexed(t.anames), Resolve(t.anames, aliases), k);
    IndexedLast(t.anames, k);
  }

  /** The pseudo-op map holds exactly DATA, FUNCDATA, GLOBL, PCDATA and TEXT, each with
      its own opcode. */
  lemma PseudoOps(linkArch: string, dConst2: AddrType, t: NameTables,
                  aliases: seq<(string, string)>, unary: seq<string>, k: string)
    ensures var ps := Table(linkArch, dConst2, t, aliases, unary).pseudos;
      (k in ps <==> k in {"DATA", "FUNCDATA", "GLOBL", "PCDATA", "TEXT"})
      && (k in ps ==> ps[k] == Opcode(t.anames, k))
  {
    var codes := SelfCodes(t.anames, PseudoNames);
    if k in PseudoNames {
      var i :| 0 <= i < 5 && PseudoNames[i] == k;
      AssignLast(map[], codes, i);
    } else {
      AssignUntouched(map[], codes, k);
    }
  }

  /** An opcode is a unary destination exactly when it is the opcode of a listed name. */
  lemma UnaryDestinations(linkArch: string, dConst2: AddrType, t: NameTables,
                          aliases: seq<(string, string)>, unary: seq<string>, op: int)
    ensures IsUnaryDestination(Table(linkArch, dConst2, t, aliases, unary), op)
      <==> exists i :: 0 <= i < |unary| && Opcode(t.anames, unary[i]) == op
  {
    var codes := Codes(t.anames, unary);
    assert Table(linkArch, dConst2, t, aliases, unary).unaryDestination == Marked(codes);
    if op in codes {
      var i :| 0 <= i < |codes| && codes[i] == op;
      assert Opcode(t.anames, unary[i]) == op;
    }
  }

  /** The names the amd64 list adds: the quad-word forms and three state-save ops. */
  const UnaryAmd64Only: set<string> :=
    {"BSWAPQ", "DECQ", "INCQ", "NEGQ", "NOTQ", "POPQ", "FXSAVE", "FXSAVE64", "STMXCSR"}

  /** The amd64 unary-destination list is the 386 list plus the quad-word forms of its
      byte/word/long instructions, FXSAVE, FXSAVE64 and STMXCSR. */
  lemma UnaryAmd64Extends(n: string)
    ensures n in UnaryAmd64 <==> n in Unary386 || n in UnaryAmd64Only
  {
  }

  /** Neither JO nor JNO is an amd64 alias. */
  lemma NoOverflowAliasOnAmd64(k: string)
    requires k == "JO" || k == "JNO"
    ensures forall i :: 0 <= i < |AliasesAmd64| ==> AliasesAmd64[i].0 != k
  {
  }

  /** JO is an alias on 386, for JOS. */
  lemma OverflowJumpAlias386(targets: Targets)
    ensures var x86 := Table("386", Const2, targets.x86, Aliases386, Unary386).instructions;
      "JO" in x86 && x86["JO"] == Opcode(targets.x86.anames, "JOS")
  {
    assert Aliases386[23] == ("JO", "JOS");
    AliasWins("386", Const2, targets.x86, Aliases386, Unary386, 23);
  }

  /** JNO is an alias on 386, for JOC. */
  lemma NoOverflowJumpAlias386(targets: Targets)
    ensures var x86 := Table("386", Const2, targets.x86, Aliases386, Unary386).instructions;
      "JNO" in x86 && x86["JNO"] == Opcode(targets.x86.anames, "JOC")
  {
    assert Aliases386[19] == ("JNO", "JOC");
    AliasWins("386", Const2, targets.x86, Aliases386, Unary386, 19);
  }

  /** On amd64, JO and JNO are looked up among the opcode names like any other mnemonic. */
  lemma OverflowJumpsAmd64(targets: Targets)
    ensures var amd := Table("amd64", NoType, targets.amd64, AliasesAmd64, UnaryAmd64).instructions;
      ("JO" in amd <==> "JO" in targets.amd64.anames) && ("JNO" in amd <==> "JNO" in targets.amd64.anames)
  {
    NoOverflowAliasOnAmd64("JO");
    NoOverflowAliasOnAmd64("JNO");
    CanonicalMnemonic("amd64", NoType, targets.amd64, AliasesAmd64, UnaryAmd64, "JO");
    CanonicalMnemonic("amd64", NoType, targets.amd64, AliasesAmd64, UnaryAmd64, "JNO");
  }

  /** MOVD means MOVQ on amd64. */
  lemma MovdAliasAmd64(targets: Targets)
    ensures var amd := Table("amd64", NoType, targets.amd64, AliasesAmd64, UnaryAmd64).instructions;
      "MOVD" in amd && amd["MOVD"] == Opcode(targets.amd64.anames, "MOVQ")
  {
    assert AliasesAmd64[28] == ("MOVD", "MOVQ");
    AliasWins("amd64", NoType, targets.amd64, AliasesAmd64, UnaryAmd64, 28);
  }

  /** MOVDQ2Q means MOVQ on amd64. */
  lemma Movdq2qAliasAmd64(targets: Targets)
    ensures var amd := Table("amd64", NoType, targets.amd64, AliasesAmd64, UnaryAmd64).instructions;
      "MOVDQ2Q" in amd && amd["MOVDQ2Q"] == Opcode(targets.amd64.anames, "MOVQ")
  {
    assert AliasesAmd64[29] == ("MOVDQ2Q", "MOVQ");
    AliasWins("amd64", NoType, targets.amd64, AliasesAmd64, UnaryAmd64, 29);
  }

  /** On 386, MOVD is not an alias: it is known only as an opcode name of its own. */
  lemma MovdCanonical386(targets: Targets)
    ensures var x86 := Table("386", Const2, targets.x86, Aliases386, Unary386).instructions;
      "MOVD" in x86 <==> "MOVD" in targets.x86.anames
  {
    CanonicalMnemonic("386", Const2, targets.x86, Aliases386, Unary386, "MOVD");
  }

  /** Only "386" and "amd64" select a table; both tables use the empty address (type and
      index "none") for a missing operand and differ in the second-constant type. */
  lemma Selection(id: string, targets: Targets)
    ensures Selected(id, targets).Ok? <==> id == "386" || id == "amd64"
    ensures Selected(id, targets).Ok? ==>
      && Selected(id, targets).value.noAddr.typ == NoType
      && Selected(id, targets).value.noAddr.index == NoType
      && Selected(id, targets).value.linkArch == id
    ensures Selected(id, targets).Fail? ==> Selected(id, targets).msg == "unrecognized architecture " + id
    ensures id == "amd64" ==> Selected(id, targets).value.dConst2 == NoType
    ensures id == "386" ==> Selected(id, targets).value.dConst2 == Const2
  {
  }
}
