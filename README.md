# A Dafny model of the Go assembler front end and the slice filters

This project models the front end of an assembler written in Go for the 386 and amd64
targets (package `asm`), together with the small slice-filtering package `filter`.
The assembler reads a source file as a stream of tokens, runs it through a C-like
preprocessor (`#define`, `#undef`, `#ifdef`/`#ifndef`/`#else`/`#endif`, `#include`,
`#line` and macro invocation), splits the stream into statements (`label:` or
`WORD op, op, ...`), parses each operand into an address record, evaluates integer
expressions in wrapping 64-bit unsigned arithmetic, and builds one instruction per
statement. The instructions are linked into a program. Labels are bound as the
instructions that follow them are linked, and forward jumps are patched at the end
of the run.

The modules follow the Go files:

- `Lex` (lex.dfy) models the tokenizer of `asm/lex.go`: it drops comments while
  counting their newlines, fuses `->`, `@>`, `<<` and `>>`, and covers the `Slice`
  replay source and the `Stack` of token sources. Tokenizer, Slice and Stack are
  classes whose methods are proved against specification functions.
- `Preprocessor` (preprocessor.dfy) states the `Input` state machine of `asm/lex.go`
  as functions over an abstract state: the frames, the macros, the conditional
  stack, the line-start flag, and a read budget. `Input` (input.dfy) is the class
  whose methods carry the same names as the Go methods. Each of them is proved equal
  to its function. `PreprocessorScenarios` runs concrete inputs through these
  functions.
- `Operands` (operands.dfy) gives the error policy of `errorf`, the operand cursor,
  `expr`/`term` and the recursive-descent operand parser of `asm/parse.go`, as
  functions of a cursor.
- `Address` (address.dfy) covers `has`, `is`, `symbolType` and `addrToAddr` of
  `asm/asm.go`.
- `Assemble` (assemble.dfy) covers `link`, the five pseudo-op builders, the jump and
  instruction builders, and `patch`/`branch` of `asm/asm.go`, as functions of the
  assembler state.
- `Statements` (statements.dfy) covers `Parse`, `line`, `instruction` and `pseudo`
  of `asm/parse.go`.
- `Parsing.Parser` (parser.dfy) is the parser class. Its fields are those of the Go
  `Parser`, and each method is proved equal to the function it implements.
- `Arch` (arch.dfy) holds the tables of `asm/arch.go`, built by the same sequence of
  map insertions, and `setArch`.
- `Filter` (filter.dfy) covers `filter/apply.go` on arrays with a function parameter.
- `Link`, `Uint64`, `Numerals`, `Messages` and `Results` (link.dfy, uint64.dfy,
  numerals.dfy, messages.dfy, results.dfy) are supporting modules. They hold the
  liblink interface (output addresses, instructions, the int64 and int8
  conversions), wrapping 64-bit arithmetic, `strconv.ParseUint` with base 0, the
  error messages, and the Result/Option wrappers.

The tokens that `text/scanner` produces are an input sequence of (kind, text)
lexemes, and the file system is a map from file names to such sequences.
A `log.Fatal` or `os.Exit` in the preprocessor becomes a `Fail` result. In the parser,
reports are recorded as (line, message) pairs, and a stop (more than ten errors, or
a Go runtime panic such as a division by zero) becomes a halted state.

The tables of registers and mnemonics that the parser consults are the ones the
`init` function of `asm/parse.go` (lines 32-134) builds from the amd64 name lists:
`Arch.ParserTables`, built step by step by `Arch.InitTables`. That function stores
the mnemonic aliases before the opcode names, so an opcode name wins over an alias of
the same spelling. `asm/arch.go` builds per-target tables (`Arch.Selected`) that store
the aliases after the opcode names. Its `setArch` is not called anywhere in this
snapshot, but it is modelled too, and `Arch.ParserTablesAgree` proves that its amd64
tables equal the parser's unless an alias is also an opcode name. The parser's
members (`Statements`, `Operands`, `Assemble`, `Parsing.Parser`) take the tables as
an `Arch` parameter, so either table can be passed to them.

## Model

| member | source | states |
|---|---|---|
| Link.Int64 | asm/parse.go:382 | the conversion to int64 yields a value in the signed 64-bit range that agrees with its argument modulo 2^64, and is the argument itself when that is in range |
| Link.Int8 | asm/asm.go:259 | the conversion to int8 yields a value in [-128, 128) that agrees with its argument modulo 256, and is the argument itself when that is in range |
| Link.FirstDot | asm/asm.go:252 | the position found holds a middle dot and no earlier position does; it is the length when the name has no middle dot |
| Link.ReplaceFirstDot | asm/asm.go:252 | the result has the name's length, a period at the first middle dot and every other character unchanged, later middle dots included |
| Numerals.DigitOf | asm/parse.go:568 | a digit's value is at most 36; 36 marks a character that is no digit in any base |
| Numerals.Numeral | asm/parse.go:568 | a recognised numeral has a non-empty run of digits and a base of 8, 10 or 16, chosen from its prefix as base 0 of ParseUint does |
| Numerals.HexadecimalPrefix | asm/parse.go:568 | a numeral starting with 0x denotes its remaining digits read in base 16 |
| Numerals.OctalRejectsNine | asm/parse.go:568 | "09" is rejected: a leading 0 selects octal, where 9 is no digit |
| Numerals.DecimalDigits | asm/parse.go:473 | the decimal rendering of n is a non-empty digit run with value n and no leading zero unless n is 0 |
| Numerals.DecimalRoundTrip | asm/parse.go:568 | reading back the decimal rendering of any n gives n |
| Uint64.Add | asm/parse.go:475 | the wrapped sum is the true sum, less 2^64 when it overflows |
| Uint64.OverflowIsWrap | asm/parse.go:472-475 | an unsigned sum overflows exactly when the wrapped sum is smaller than either operand |
| Uint64.Sub | asm/parse.go:478 | the wrapped difference is the true difference, plus 2^64 when it goes below zero, and adding the subtrahend back gives the minuend |
| Uint64.Mul | asm/parse.go:534 | the wrapped product agrees with the true product modulo 2^64 and is the true product when that fits |
| Uint64.Div | asm/parse.go:537 | unsigned division by a non-zero divisor gives the floor quotient: quotient times divisor is at most the dividend, and one more divisor exceeds it |
| Uint64.Mod | asm/parse.go:540 | the remainder is below the divisor and is the dividend less quotient times divisor |
| Uint64.Neg | asm/parse.go:525 | the unsigned negation added to the value wraps to zero; for a non-zero value it is 2^64 minus the value |
| Uint64.Not | asm/parse.go:527 | the complement flips each of the 64 binary digits |
| Uint64.Shl | asm/parse.go:547 | a left shift by 64 or more gives 0; a shorter one agrees with value * 2^n modulo 2^64 |
| Uint64.Shr | asm/parse.go:554 | a right shift by 64 or more gives 0; a shorter one is the floor of value / 2^n |
| Uint64.Halve | asm/parse.go:554 | halving n times is dividing by 2^n, rounding down |
| Uint64.BitwiseBits | asm/parse.go:481-484 | digit i of a digit-by-digit combination is the operator applied to digit i of each operand |
| Uint64.Apply64 | asm/parse.go:481-484 | a 64-bit bitwise operation combines the operands digit by digit in each of the 64 places |
| Uint64.BitAnd | asm/parse.go:557 | a digit of `&` is set exactly when it is set in both operands |
| Uint64.BitOr | asm/parse.go:481 | a digit of `\|` is set exactly when it is set in either operand |
| Uint64.BitXor | asm/parse.go:484 | a digit of `^` is set exactly when it is set in one operand but not the other |
| Uint64.OrDisjoint | asm/asm.go:299 | or-ing a multiple of 2^k with a value below 2^k adds them |
| Address.Has | asm/asm.go:50-78 | an operand has a mask exactly when it carries one of the masked components other than the two immediate ones and indirection |
| Address.ExactShape | asm/asm.go:82-118 | a mask that agrees with the operand on every component, both immediates and indirection included, is the operand's shape |
| Address.Is | asm/asm.go:80-118 | an operand is a mask exactly when the mask is the set of components it carries, no more and no fewer |
| Address.IsThenHas | asm/asm.go:52-118 | for an operand of known exact shape, has(mask) holds exactly when the shape and the mask share a component that has consults |
| Address.StaticIgnored | asm/asm.go:36 | flipping the static flag changes neither has nor is |
| Address.SymbolType | asm/asm.go:120-139 | FP gives parameter, SP automatic, and SB gives address, static or external by the immediate and static flags, all without error; any other base reports the symbol and gives type 0 |
| Address.SymbolEncoding | asm/asm.go:150-172 | the four SB forms $a(SB), $a<>(SB), a(SB) and a<>(SB) encode as (address, external), (address, static), (external, none) and (static, none), naming the symbol, with no error |
| Address.RegisterEncoding | asm/asm.go:173-186 | R becomes the register's own type, (R) its indirection, and the SP pseudo-register the SP type, with no error |
| Address.ConstantEncoding | asm/asm.go:193-201 | $n becomes a constant with offset n and a bare n an indirection through no register with offset n |
| Address.BadSymbolBase | asm/asm.go:137 | a symbol on a base that is not FP, SP or SB is reported, and an immediate one also as not (SB), in that order |
| Address.AddrToAddr | asm/asm.go:148-216 | the output address names the operand's symbol (and none without one), carries its index register, scale, offset and string, and has an error exactly when a symbol's base is not FP, SP or SB or an immediate address is not relative to SB |
| Address.BaseOf | asm/asm.go:150-186 | the symbol or register part names the operand's symbol and reports exactly the base errors of AddrToAddr, with no scale, offset or string yet |
| Address.IndexStep | asm/asm.go:187-192 | the index register and the scale are copied from the operand; nothing else changes |
| Address.OffsetStep | asm/asm.go:193-201 | the offset is copied from the operand when it has one; only the offset and the type change |
| Address.TypeStep | asm/asm.go:202-214 | the string is copied from the operand when it has one; only the string and the type change |
| Arch.Lookup | asm/parse.go:249 | a table lookup answers the stored value for a present key and 0 for an absent one, as a Go map does |
| Arch.Opcode | asm/arch.go:59-61 | the opcode constant of a name is the first position of that name in the target's opcode names, and -1 exactly when the target has no such name |
| Arch.IndexedLast | asm/arch.go:49-51 | a map filled by index from a name list holds exactly the listed names, each at the last position where it is listed |
| Arch.AssignLast | asm/arch.go:62-94 | in a run of map stores, a key stored at one position and never later holds the value stored there, whatever the map held before |
| Arch.AssignUntouched | asm/arch.go:53-56 | a key no store names keeps its earlier entry or absence |
| Arch.IndexMap | asm/arch.go:163-168 | the indexing loop builds the name-to-position map |
| Arch.AssignAll | asm/arch.go:170-173 | the run of stores builds the map that applying them in order gives |
| Arch.MarkAll | asm/arch.go:218-266 | the marking stores give the map that marks exactly the listed opcodes |
| Arch.BuildTable | asm/arch.go:157-279 | building a target's tables step by step gives its specification: registers then pseudo-registers, opcode names then aliases, pseudo-ops, unary-destination marks |
| Arch.Arch386 | asm/arch.go:40-155 | the 386 tables are the ones the identifier "386" selects |
| Arch.ArchAmd64 | asm/arch.go:157-279 | the amd64 tables are the ones the identifier "amd64" selects |
| Arch.SetArch | asm/arch.go:28-38 | selecting an architecture gives the tables the identifier selects, or the fatal "unrecognized architecture" failure |
| Arch.RegisterMap | asm/arch.go:163-173 | SB, FP, SP and PC map to their pseudo-register numbers; any other name is a register exactly when the target lists it, at its last listed position |
| Arch.PseudoRegistersDistinct | asm/parse.go:25-30 | the four pseudo-register numbers are negative and pairwise distinct |
| Arch.AliasWins | asm/arch.go:62-94 | an alias not stored again later maps to its canonical opcode, even when the target also has an opcode of that name |
| Arch.CanonicalMnemonic | asm/arch.go:175-178 | a mnemonic that is no alias is known exactly when the target has an opcode of that name, and maps to its last position |
| Arch.PseudoOps | asm/arch.go:211-216 | the pseudo-op map holds exactly DATA, FUNCDATA, GLOBL, PCDATA and TEXT, each with its own opcode |
| Arch.UnaryDestinations | asm/arch.go:218-266 | an opcode is a unary destination exactly when it is the opcode of a listed name |
| Arch.UnaryAmd64Extends | asm/arch.go:218-266 | the amd64 unary-destination list is the 386 list plus the quad-word forms, FXSAVE, FXSAVE64 and STMXCSR |
| Arch.NoOverflowAliasOnAmd64 | asm/arch.go:180-209 | neither JO nor JNO is an amd64 alias |
| Arch.OverflowJumpAlias386 | asm/arch.go:86 | on 386, JO maps to the JOS opcode |
| Arch.NoOverflowJumpAlias386 | asm/arch.go:82 | on 386, JNO maps to the JOC opcode |
| Arch.OverflowJumpsAmd64 | asm/arch.go:175-209 | on amd64, JO and JNO are known only if the target has opcodes of those names |
| Arch.MovdAliasAmd64 | asm/arch.go:208 | on amd64, MOVD maps to the MOVQ opcode |
| Arch.Movdq2qAliasAmd64 | asm/arch.go:209 | on amd64, MOVDQ2Q maps to the MOVQ opcode |
| Arch.MovdCanonical386 | asm/arch.go:58-94 | on 386, MOVD is no alias: it is known only if the target has an opcode of that name |
| Arch.Selection | asm/arch.go:28-38 | exactly "386" and "amd64" select tables, each with the empty address for a missing operand and its own second-constant type; anything else fails with "unrecognized architecture" and the identifier |
| Arch.AssignNumbered | asm/parse.go:76-78 | storing every opcode name at its position leaves each listed name at its last position, and every other key as it was |
| Arch.InitTables | asm/parse.go:32-134 | the parser's init builds registers then pseudo-registers, aliases then opcode names, pseudo-ops and unary-destination marks: exactly `Arch.ParserTables` |
| Arch.ParserOpcodeWins | asm/parse.go:44-78 | in the parser's tables an opcode name maps to its last position even when it is also an alias; an alias that is no opcode name (and is not stored again later) maps to its canonical opcode |
| Arch.ParserTablesAgree | asm/parse.go:32-134 | the parser's tables and arch.go's amd64 tables have the same registers, pseudo-ops and unary destinations, agree on every mnemonic that is not both an alias and an opcode name, and are equal when no alias is an opcode name |
| Lex.CodeInjective | asm/lex.go:26-33 | no two tokens share a rune value: the composite operators collide neither with each other, with a scanner class nor with a character |
| Lex.IsIdentRune | asm/lex.go:156-171 | given letter and digit classes that contain the ASCII ones and do not overlap, a letter, underscore, middle dot or division slash may appear anywhere in an identifier, a digit anywhere but first, and nothing else may |
| Lex.SkipComments | asm/lex.go:202-210 | the tokenizer's comment skipping stops at the first lexeme that is not a comment, passing only comments |
| Lex.NextScan | asm/lex.go:200-241 | one scan never yields a comment, moves forward, and yields EOF exactly when only comments remain |
| Lex.TokenStreamClean | asm/lex.go:200-241 | the tokens a tokenizer delivers before its end contain no comment and no EOF |
| Lex.ScanNewlinesAreRaw | asm/lex.go:207-214 | one call of Next advances the line number by exactly the newlines of the lexemes it consumes, those inside comments included |
| Lex.LineAdvanceCountsEveryNewline | asm/lex.go:200-241 | reading a whole input advances the line number by every newline token and every newline inside a comment; a fused operator never swallows one |
| Lex.FusesComposites | asm/lex.go:215-238 | '-' '>', '@' '>', '<' '<' and '>' '>' written together become one composite token whose text is the two characters |
| Lex.SpaceSeparates | asm/lex.go:215-220 | white space between '-' and '>' keeps them two tokens |
| Lex.Tokenizer.constructor | asm/lex.go:134-154 | a new tokenizer starts at the beginning of its input, on line 1, with the given file name |
| Lex.Tokenizer.SetPos | asm/lex.go:195-198 | the line and file name become the given ones |
| Lex.Tokenizer.SkipCommentLexemes | asm/lex.go:202-210 | the skipping loop reaches the first non-comment and adds the newlines of the skipped comments to the line |
| Lex.Tokenizer.Next | asm/lex.go:200-241 | Next returns the specified scan: token, text and position, and a line advanced by the newlines consumed |
| Lex.Slice.constructor | asm/lex.go:290-297 | a new slice holds the tokens, file name and line, positioned before the first token |
| Lex.Slice.Next | asm/lex.go:299-305 | Next yields the captured tokens in order with their texts, then EOF on every later call |
| Lex.Slice.SetPos | asm/lex.go:319-324 | the line and file name become the given ones |
| Lex.SetReaderPos | asm/lex.go:278-280 | moving a frame's reported position leaves what it will deliver unchanged |
| Lex.ReadFrame | asm/lex.go:255 | reading a frame takes its first pending token with its text, or gives EOF once none is left |
| Lex.TopRead | asm/lex.go:255 | reading the top frame keeps the number of frames |
| Lex.Remaining | asm/lex.go:256-262 | popping exhausted frames leaves at least the bottom frame and never adds one |
| Lex.RemainingPrefix | asm/lex.go:256-262 | how many frames remain depends only on the frames below |
| Lex.AdvancePop | asm/lex.go:256-262 | popping an exhausted top frame does not change what Next yields |
| Lex.AdvanceTop | asm/lex.go:255 | Next reads the top frame when it is not exhausted or is the only frame |
| Lex.Advance | asm/lex.go:254-264 | Next keeps at least one frame and never adds frames |
| Lex.AdvanceReadsStream | asm/lex.go:243-264 | reading the stack one token at a time reads the frames' tokens top frame first, in order, then EOF |
| Lex.FileClean | asm/lex.go:200-241 | a tokenizer never holds an EOF token before its end |
| Lex.Stack.constructor | asm/lex.go:245-247 | a new stack has no frames |
| Lex.Stack.Push | asm/lex.go:249-252 | Push adds the frame on top and its tokens as the last frame, the rest unchanged |
| Lex.Stack.SetPos | asm/lex.go:278-280 | SetPos moves the top frame's line and file name and changes no frame's tokens |
| Lex.Stack.Pop | asm/lex.go:260 | Pop drops exactly the top frame |
| Lex.Stack.ReadTop | asm/lex.go:255 | reading the top frame yields its first token and text and consumes it |
| Lex.Stack.PopRead | asm/lex.go:258-262 | after an exhausted top frame is dropped, the token read is the first token of the frame below, and the stack is exactly that frame's remainder over the rest |
| Lex.Stack.Next | asm/lex.go:254-264 | Next yields the specified token, popping exhausted frames while more than one remains, never the bottom one, and leaves the specified frames |
| Link.Typed | asm/asm.go:296-300 | a typed address carries exactly its type and offset, with no index, and is the empty address otherwise |
| Arch.Resolve | asm/arch.go:62-94 | each alias is paired, in order, with the opcode of the instruction it stands for |
| Arch.SelfCodes | asm/arch.go:58-61 | each opcode name is paired, in order, with its own opcode |
| Arch.Codes | asm/arch.go:103-142 | each listed instruction's opcode, in order |
| Lex.RawNewlinesAppend | asm/lex.go:200-241 | the line breaks of two runs of lexemes add up |
| Lex.CommentNewlinesAreRaw | asm/lex.go:202-210 | in a run of comments, the newlines inside them are all its line breaks |
| Lex.CommentNewlinesAppend | asm/lex.go:202-210 | the newlines inside comments of two runs of lexemes add up |
| Preprocessor.Read | asm/lex.go:254-268 | one read succeeds exactly while the read budget lasts and changes only the frames, spending one unit |
| Preprocessor.MacroName | asm/lex.go:459-468 | the name after a directive only reads from the stack and succeeds only on an identifier |
| Preprocessor.ExpectNewline | asm/lex.go:383-388 | the check only reads from the stack and succeeds only on a newline |
| Preprocessor.Lookup | asm/lex.go:547-554 | the index found holds the name and no earlier index does; it is -1 exactly when the name is absent |
| Preprocessor.Formals | asm/lex.go:498-527 | the formals only read from the stack, extend the list read so far, and stay distinct: a repeated formal is an error |
| Preprocessor.Body | asm/lex.go:528-544 | the body only reads from the stack and extends the tokens gathered so far |
| Preprocessor.BodyTokens | asm/lex.go:529-543 | a body holds no newline, escaped ones being dropped, and, corrected, no end of input |
| Preprocessor.Definition | asm/lex.go:489-545 | a definition only reads from the stack; its formals are distinct and its body holds no newline (and, corrected, no end of input); a newline or end of input right after the name is an error |
| Preprocessor.DefineMacro | asm/lex.go:477-487 | defining succeeds exactly for a name not yet defined, adds exactly that macro with its formals and body, and keeps every other macro and the rest of the state |
| Preprocessor.Define | asm/lex.go:470-475 | #define succeeds only for the name it reads when that name is not yet a macro; it then adds exactly that macro with the formals and body read after the name, leaves the stack as the definition left it, and keeps the conditional stack; a name already defined is an error |
| Preprocessor.Undef | asm/lex.go:697-709 | #undef removes exactly the name it reads, which must be a defined macro followed by a newline, leaves the stack after that newline and keeps the conditional stack; an unknown name is an error |
| Preprocessor.Ifdef | asm/lex.go:612-620 | #ifdef and #ifndef succeed exactly when a name and a newline follow; they then push whether that name is defined (or not) and leave the stack after the newline, keeping the macros |
| Preprocessor.Else | asm/lex.go:622-629 | #else flips exactly the innermost conditional, and fails with none open |
| Preprocessor.Endif | asm/lex.go:631-638 | #endif pops exactly the innermost conditional, and fails with none open |
| Preprocessor.PushFrame | asm/lex.go:711-716 | a push succeeds exactly when at most 100 frames are stacked, and then adds exactly the new frame on top |
| Preprocessor.Unquote | asm/lex.go:647 | a successful unquote returns the text between the enclosing double quotes |
| Preprocessor.Include | asm/lex.go:640-671 | #include succeeds only for a quoted name that the file map holds, followed by a newline; the named file's tokens then become a new top frame above the stack left after the newline, and a name the map lacks is an error |
| Preprocessor.Atoi | asm/lex.go:680 | a line number is read exactly when its text is a non-empty run of decimal digits whose value fits in an int64, and the value read is the value of those digits |
| Preprocessor.DecimalAgrees | asm/lex.go:680 | the digits a line number is read with are exactly the base-10 digits of a numeral, and they are worth the same |
| Preprocessor.AtoiRoundTrip | asm/lex.go:680 | a natural up to the int64 maximum, printed in decimal, reads back as itself |
| Preprocessor.LineDirective | asm/lex.go:673-695 | #line reads an integer token whose digits give the line number, then a string token whose unquoted contents give the file name, and leaves the stack after those two tokens |
| Preprocessor.Directive | asm/lex.go:436-456 | each directive consumes input and keeps the number of frames within the stack's bound |
| Preprocessor.Hash | asm/lex.go:419-457 | a directive skipped while the input is disabled only reads from the stack; every directive consumes input |
| Preprocessor.Names | asm/lex.go:594-597 | the set of names holds exactly the names of the list |
| Preprocessor.CollectArgs | asm/lex.go:585-609 | collecting actuals only reads from the stack and consumes input |
| Preprocessor.CollectArgsKeys | asm/lex.go:593-605 | every remaining formal receives an actual |
| Preprocessor.CollectArgsPlain | asm/lex.go:588-608 | no collected actual holds an end of input, a newline, a comma or ')' |
| Preprocessor.ArgsFor | asm/lex.go:576-610 | a macro without formals reads nothing; otherwise every formal, and nothing else, receives one actual free of end of input, newlines, commas and ')' |
| Preprocessor.Substitute | asm/lex.go:561-572 | every token of an expansion comes from the body or from an actual |
| Preprocessor.SubstituteAppend | asm/lex.go:561-572 | substitution works token by token: it distributes over concatenation |
| Preprocessor.InvokeMacro | asm/lex.go:556-574 | an invocation pushes the macro body with the actuals read substituted for the formals on top of the stack left after the arguments, succeeds whenever the arguments are read and the stack is within its bound, and keeps the macros, the conditional stack and the line-start flag |
| Preprocessor.NextStep | asm/lex.go:390-414 | a delivered token is never '#', never the name of a macro, sets the line-start flag exactly when it is a newline, and is delivered only while the input is enabled (corrected: or at the end of input) |
| Preprocessor.NextToken | asm/lex.go:390-417 | the token returned is never '#' nor a macro name, the line-start flag records whether it is a newline, and it comes from enabled input (corrected: or is the end of input) |
| PreprocessorScenarios.ReadAt | asm/lex.go:299-305 | reading a script frame yields its next token and advances by one |
| PreprocessorScenarios.ReadEnd | asm/lex.go:256 | once the last frame is exhausted each read gives EOF and changes nothing but the budget |
| PreprocessorScenarios.Skip | asm/lex.go:391-414 | a step that delivers nothing leaves Next to continue from the state after it |
| PreprocessorScenarios.Deliver | asm/lex.go:408-412 | a step that delivers a token ends Next with that token |
| PreprocessorScenarios.DirectiveIfdef | asm/lex.go:443-444 | the word "ifdef" selects #ifdef |
| PreprocessorScenarios.DirectiveEndif | asm/lex.go:441-442 | the word "endif" selects #endif |
| PreprocessorScenarios.DirectiveStep | asm/lex.go:394-398 | a directive at the start of a line that is carried out ends the step with the directive's state, at the start of a line |
| PreprocessorScenarios.IfdefUndefined | asm/lex.go:613-620 | "#ifdef name" with name undefined pushes false |
| PreprocessorScenarios.EndifPops | asm/lex.go:632-638 | "#endif" pops the innermost conditional |
| PreprocessorScenarios.IfdefLine | asm/lex.go:420-444 | an "#ifdef name" line with name undefined pushes false when carried out: always while enabled, and also while disabled once corrected |
| PreprocessorScenarios.EndifLine | asm/lex.go:420-442 | an "#endif" line pops the conditional stack |
| PreprocessorScenarios.SkippedIfdef | asm/lex.go:426-434 | as written, "#ifdef" while disabled is skipped: the word is consumed and the rest of the line is read as suppressed input |
| PreprocessorScenarios.PlainSkipped | asm/lex.go:408-412 | an identifier that names no macro, or a newline, is suppressed while disabled |
| PreprocessorScenarios.PlainDelivered | asm/lex.go:408-412 | an identifier that names no macro, or a newline, is delivered while enabled |
| PreprocessorScenarios.SkippedIfdefLine | asm/lex.go:426-434 | as written, a disabled "#ifdef name" line leaves the conditional stack alone |
| PreprocessorScenarios.NestedHeadAsWritten | asm/lex.go:426-434 | as written, "#ifdef X" then "#ifdef Y" with neither defined leaves only the outer conditional open |
| PreprocessorScenarios.NestedIfdefAsWritten | asm/lex.go:378-381 | as written, the inner #endif closes the outer conditional, so a line inside the undefined X is delivered |
| PreprocessorScenarios.NestedHeadCorrected | asm/lex.go:426-434 | corrected, the nested #ifdef and #endif open and close the inner conditional |
| PreprocessorScenarios.NestedTailCorrected | asm/lex.go:378-381 | corrected, the lines that follow inside the still disabled outer conditional are suppressed and its #endif closes it |
| PreprocessorScenarios.NestedIfdefCorrected | asm/lex.go:378-381 | corrected, the line inside the undefined X is suppressed and Next returns the end of input |
| PreprocessorScenarios.SuppressedEndAsWritten | asm/lex.go:408-412 | as written, when the input ends inside a disabled region Next reads EOF again and again and never returns, whatever the budget |
| PreprocessorScenarios.SuppressedEndCorrected | asm/lex.go:408-412 | corrected, EOF is delivered even inside a disabled region |
| PreprocessorScenarios.UnterminatedIfdefAsWritten | asm/lex.go:390-417 | as written, a file whose last line is "#ifdef X", X undefined, makes Next loop forever |
| PreprocessorScenarios.UnterminatedIfdefCorrected | asm/lex.go:390-417 | corrected, the same file makes Next return EOF with the conditional still open |
| PreprocessorScenarios.BodyAtEndAsWritten | asm/lex.go:530-543 | as written, a macro body ends only at a newline: at the end of input the loop reads EOF forever, whatever the budget |
| PreprocessorScenarios.DefinitionAtEnd | asm/lex.go:492-545 | "#define X y" as the last line: as written no budget suffices; corrected, X is defined as y |
| PreprocessorScenarios.IncludingVersions | asm/lex.go:378-381 | the corrected enabling test is stricter than the source's and agrees with it on at most one open conditional |
| PreprocessorScenarios.EmptyActualKeepsFormal | asm/lex.go:566-570 | an empty actual leaves the formal's own name in the expansion |
| PreprocessorScenarios.SubstituteIdentity | asm/lex.go:561-572 | a body with no identifier naming a formal with a non-empty actual is expanded unchanged |
| PreprocessorScenarios.SubstituteSplices | asm/lex.go:566-571 | each identifier naming a formal with a non-empty actual is replaced in place by exactly that actual |
| PreprocessorScenarios.DuplicateFormal | asm/lex.go:518-520 | "#define F(a, a) x" fails with the duplicate-argument message |
| PreprocessorScenarios.EmptyFormals | asm/lex.go:498-507 | "#define F() x" gives a macro without formals, whose invocation then reads no argument list |
| PreprocessorScenarios.CollectPlain | asm/lex.go:606-607 | an ordinary token joins the current actual |
| PreprocessorScenarios.CollectComma | asm/lex.go:593-599 | a comma assigns the current actual to the next formal and starts a new one |
| PreprocessorScenarios.CollectClose | asm/lex.go:600-605 | ')' after the last formal's actual ends the list |
| PreprocessorScenarios.CollectTooMany | asm/lex.go:594-596 | a comma or ')' once every formal has its actual fails with "too many arguments" |
| PreprocessorScenarios.TrailingComma | asm/lex.go:593-605 | "F(x,)" for formals p and q is accepted: q receives no tokens |
| PreprocessorScenarios.CommaAfterOnlyActual | asm/lex.go:593-605 | for a one-formal macro, "a, b)" fails with "too many arguments" |
| PreprocessorScenarios.ArgsForFails | asm/lex.go:577-610 | a failing argument list fails the invocation with the same message |
| PreprocessorScenarios.ParenthesesDoNotNest | asm/lex.go:588-609 | "F((a,b))" for a one-formal macro fails with "too many arguments": parentheses do not nest |
| Input.Input.constructor | asm/lex.go:337-344 | a new input holds exactly the main file's tokens as its only frame, the given macros, no open conditional, and is at the start of a line |
| Input.Input.ReadToken | asm/lex.go:254-268 | reading a token from the stack of frames agrees with Preprocessor.Read |
| Input.Input.MacroName | asm/lex.go:459-468 | agrees with Preprocessor.MacroName: the name is an identifier |
| Input.Input.ExpectNewline | asm/lex.go:383-388 | agrees with Preprocessor.ExpectNewline |
| Input.Input.ReadFormals | asm/lex.go:498-527 | the loop over the formals agrees with Preprocessor.Formals, so the formals are distinct |
| Input.Input.ReadBody | asm/lex.go:528-544 | the loop over the body agrees with Preprocessor.Body (corrected version), so the body holds no newline nor end of input |
| Input.Input.MacroDefinition | asm/lex.go:489-545 | agrees with Preprocessor.Definition |
| Input.Input.DefineMacro | asm/lex.go:477-487 | agrees with Preprocessor.DefineMacro: only a new name is added, and nothing else changes |
| Input.Input.Define | asm/lex.go:470-475 | agrees with Preprocessor.Define: exactly the name read is added, with the formals and body read |
| Input.Input.Undef | asm/lex.go:697-709 | agrees with Preprocessor.Undef: exactly the named macro is removed, and a newline must follow the name |
| Input.Input.Ifdef | asm/lex.go:612-620 | agrees with Preprocessor.Ifdef: the conditional pushed records whether the name read is defined |
| Input.Input.Else | asm/lex.go:622-629 | agrees with Preprocessor.Else: the innermost conditional is flipped |
| Input.Input.Endif | asm/lex.go:631-638 | agrees with Preprocessor.Endif: the innermost conditional is popped |
| Input.Input.Push | asm/lex.go:711-716 | agrees with Preprocessor.PushFrame: more than 100 stacked frames is an error |
| Input.Input.Include | asm/lex.go:640-671 | agrees with Preprocessor.Include: the named file's tokens become the top frame, and a file the map lacks is an error |
| Input.Input.LineDirective | asm/lex.go:673-695 | agrees with Preprocessor.LineDirective: the integer and string tokens read give the line number and file name, and the top frame then reports them |
| Input.Input.Directive | asm/lex.go:436-456 | agrees with Preprocessor.Directive |
| Input.Input.Hash | asm/lex.go:419-457 | agrees with Preprocessor.Hash |
| Input.Input.ArgsFor | asm/lex.go:576-610 | agrees with Preprocessor.ArgsFor: one actual per formal |
| Input.Input.CollectActuals | asm/lex.go:585-609 | the collecting loop agrees with Preprocessor.CollectArgs |
| Input.Input.InvokeMacro | asm/lex.go:556-574 | agrees with Preprocessor.InvokeMacro: the body with the actuals substituted is replayed on top of the stack |
| Input.Input.Step | asm/lex.go:391-414 | one turn of the loop agrees with Preprocessor.NextStep |
| Input.Input.Next | asm/lex.go:390-417 | agrees with Preprocessor.NextToken: the token returned is never '#' nor a macro name and comes from enabled input |
| Input.SubstituteBody | asm/lex.go:561-572 | the substitution loop computes Preprocessor.Substitute |
| Input.Tokenize | asm/lex.go:108-120 | the loop collects exactly the scanner's tokens up to EOF |
| Input.IndexOf | asm/lex.go:351 | the index is -1 exactly when the character is absent, and otherwise locates its first occurrence |
| Input.SplitDefine | asm/lex.go:349-354 | a flag splits at its first '=' when that is not the first character, so name, '=' and value rebuild the flag; otherwise the value is "1" |
| Input.Predefined | asm/lex.go:346-366 | the predefined macros only add to those given |
| Input.PredefinedMacros | asm/lex.go:346-366 | every predefined macro is stored under its own name with no formals, and the macros defined are exactly the flags' names |
| Input.Predefine | asm/lex.go:347-366 | the loop over the flags computes Input.Predefined |
| Input.NewLexer | asm/lex.go:61-70 | a lexer is made exactly when the flags are valid and the file exists; it then holds the predefined macros and the file as its only frame |
| Filter.Kept | filter/apply.go:135-150 | the kept elements are no more than the input's, and f gives `truth` on each |
| Filter.KeptAppend | filter/apply.go:137-142 | filtering distributes over concatenation, so it keeps the input's order |
| Filter.KeptMembership | filter/apply.go:139-141 | an element is kept exactly when it occurs in the input and f gives `truth` on it |
| Filter.ChooseDropPartition | filter/apply.go:27-44 | Choose and Drop together hold every input element exactly as often as the input does |
| Filter.Apply | filter/apply.go:13-19 | the result is a new slice of the input's length holding f of each element in its place |
| Filter.ApplyInPlace | filter/apply.go:21-25 | every element is overwritten by f of its old value |
| Filter.Which | filter/apply.go:135-142 | the indices collected are strictly increasing, in range, are exactly those where f gives `truth`, and pick out the kept elements in order |
| Filter.IncreasingAtLeastIndex | filter/apply.go:147-149 | the k-th kept index is at least k, so compacting in place never reads an overwritten slot |
| Filter.ChooseOrDrop | filter/apply.go:143-150 | the copying path returns a new slice of exactly the kept elements, in order |
| Filter.ChooseOrDropInPlace | filter/apply.go:99-106 | in place, the new length's prefix holds exactly the kept elements in order and the rest of the backing array is untouched |
| Filter.ChooseOrDropStringsInPlace | filter/apply.go:110-121 | the []string fast path in place appends into the same backing array: the prefix holds exactly the kept elements and the rest is untouched |
| Filter.ChooseOrDropStrings | filter/apply.go:110-121 | the []string fast path when copying returns exactly the kept elements in order |
| Filter.Choose | filter/apply.go:27-34 | a new slice of exactly the elements satisfying f, in order |
| Filter.Drop | filter/apply.go:36-44 | a new slice of exactly the elements not satisfying f, in order |
| Filter.ChooseInPlace | filter/apply.go:46-52 | the slice is shortened to exactly the elements satisfying f, in order |
| Filter.DropInPlace | filter/apply.go:54-60 | the slice is shortened to exactly the elements not satisfying f, in order |
| Operands.Report | asm/parse.go:168-182 | a report keeps the line being parsed, changes nothing once the run has stopped, and leaves the line flagged as having its error |
| Operands.Fault | asm/parse.go:535-540 | a runtime fault stops the run, keeps the reports, and records its reason unless the run had already stopped |
| Operands.ReportOk | asm/parse.go:168-182 | reporting keeps the bookkeeping invariant: the count equals the reports, at most eleven, more than ten only once stopped, and no two consecutive reports share a line |
| Operands.OnePerLine | asm/parse.go:169-172 | a second report on the same line changes nothing |
| Operands.ReportRecorded | asm/parse.go:173-178 | a report on a fresh line of a running parse is appended with that line, which becomes the error line |
| Operands.EleventhReportStops | asm/parse.go:178-181 | a counted report stops the run exactly when it is the eleventh |
| Operands.Err | asm/parse.go:168-182 | reporting at the cursor keeps its position and only adds to the bookkeeping |
| Operands.Next | asm/parse.go:593-600 | the next token is consumed and returned; at the end the end token is returned and nothing moves |
| Operands.Expect | asm/parse.go:623-628 | the cursor is unchanged when the expected token is next; otherwise that token is consumed and the line flagged |
| Operands.Get | asm/parse.go:617-621 | checking and taking a token only moves the cursor forward and adds to the bookkeeping |
| Operands.Scale | asm/parse.go:340-348 | the scale is one of 1, 2, 4, 8 and is exactly the digit written; any other text is reported and gives 0 |
| Operands.Atoi | asm/parse.go:567-573 | a numeral in base 0 gives its value when it fits in 64 bits, the largest value and a range error when it does not, and 0 and a syntax error when it is no numeral |
| Operands.AtoiDecimal | asm/parse.go:567-573 | every 64-bit value printed in decimal reads back as itself without error |
| Operands.AtoiHexadecimal | asm/parse.go:568 | a numeral with the 0x prefix is read in base 16 |
| Operands.AtoiRejectsOctalNine | asm/parse.go:568 | "09" is a syntax error, since a leading 0 means octal |
| Operands.Atos | asm/parse.go:583-589 | a double-quoted literal without escapes gives its contents; anything else gives "" and a report |
| Operands.Expr | asm/parse.go:464-489 | an expression only moves the cursor forward and adds to the bookkeeping |
| Operands.ExprLoop | asm/parse.go:467-488 | the loop over `+ - \| ^` only moves the cursor forward and adds to the bookkeeping |
| Operands.Accumulate | asm/parse.go:469-484 | each additive step computes the wrapping sum, difference, or, or exclusive or, and reports a wrapping sum |
| Operands.Term | asm/parse.go:512-565 | a term only moves the cursor forward and adds to the bookkeeping |
| Operands.Parenthesized | asm/parse.go:516-521 | a parenthesised expression only moves the cursor forward and adds to the bookkeeping |
| Operands.IntTerm | asm/parse.go:528-561 | a term that starts with a literal only moves the cursor forward and adds to the bookkeeping |
| Operands.TermLoop | asm/parse.go:530-561 | the loop over `* / % << >> &` only moves the cursor forward and adds to the bookkeeping |
| Operands.Apply | asm/parse.go:532-557 | one multiplicative step keeps the cursor's position and only adds to the bookkeeping |
| Operands.FaultAt | asm/parse.go:537-540 | a division by zero stops the run at the cursor's position |
| Operands.FloatExpr | asm/parse.go:491-510 | a float expression only moves the cursor forward and adds to the bookkeeping |
| Operands.Literal | asm/parse.go:405-412 | with a float literal ahead the operand gets a float; otherwise its offset is the expression's value as an int64 |
| Operands.ParenRegister | asm/parse.go:308-338 | a register group makes the operand indirect; unscaled, it sets only the base register, scaled only the index and the scale |
| Operands.RegisterName | asm/parse.go:311-319 | reading the register name only moves the cursor forward and adds to the bookkeeping |
| Operands.ScaledIndex | asm/parse.go:321-327 | a scaled group sets exactly the index and the scale |
| Operands.BaseRegister | asm/parse.go:328-334 | an unscaled group sets exactly the base register, and a second base is reported |
| Operands.Close | asm/parse.go:335-336 | the closing parenthesis only moves the cursor forward and adds to the bookkeeping |
| Operands.AddressMode | asm/parse.go:350-356 | only the cursor and the bookkeeping are constrained here; the forms are stated by AddressModeBase, AddressModeBaseIndex and AddressModeScaledStops |
| Operands.Operand | asm/parse.go:358-462 | an operand only moves the cursor forward and adds to the bookkeeping |
| Operands.IndirectRegister | asm/parse.go:387-395 | `*R` sets a register, and adds a report exactly when R is no register name and the line has no error yet |
| Operands.ParenOperand | asm/parse.go:396-404 | only the cursor and the bookkeeping are constrained here; the forms are stated by ParenOperandBase and ParenOperandIndexed |
| Operands.OperandBody | asm/parse.go:364-459 | the operand's body only moves the cursor forward and adds to the bookkeeping |
| Operands.Immediate | asm/parse.go:365-386 | only the cursor and the bookkeeping are constrained here; the forms are stated by ImmediateShape, ImmediateSymbol, ImmediateAddress and ImmediateString |
| Operands.ValueOperand | asm/parse.go:405-416 | only the cursor and the bookkeeping are constrained here; the forms are stated by ValueOperandAt, ValueOperandBase and ValueOperandIndexed |
| Operands.SymbolOperand | asm/parse.go:417-456 | only the cursor and the bookkeeping are constrained here; the forms are stated by SymbolOperandAt, SymbolOffsetAt and SymbolOffsetShape |
| Operands.RegisterOperand | asm/parse.go:420-431 | a register not followed by ':' is the whole operand |
| Operands.StaticMark | asm/parse.go:432-437 | `<>` marks the symbol static; without '<' nothing changes |
| Operands.SymbolBase | asm/parse.go:443-456 | at the end of the operand a symbol needs no base |
| Operands.PseudoBase | asm/parse.go:448-456 | checking the base and reading an index only moves the cursor forward and adds to the bookkeeping |
| Operands.ParseOperand | asm/parse.go:298-306 | parsing an operand only adds to the error bookkeeping |
| Operands.OperandConsumed | asm/parse.go:460 | a parsed operand is used up completely, or else its line has an error or the run has stopped |
| Operands.TermLiteral | asm/parse.go:528-529 | a term that starts with a literal continues with the operators after it |
| Operands.TermLoopEnd | asm/parse.go:558-559 | a term ends before any token that is not one of its operators |
| Operands.TermLoopStep | asm/parse.go:531-557 | one step of a term applies the operator to the term on its right |
| Operands.TermLoopKnownStep | asm/parse.go:531-557 | a step whose right operand is known, and not a zero divisor, combines the two values |
| Operands.TermBinary | asm/parse.go:528-561 | `y op z` with op multiplicative is worth y op z in wrapping arithmetic |
| Operands.TermGroupsRightIn | asm/parse.go:535-537 | `x / y / z` is x / (y / z): the right operand of an operator after a literal is a whole term |
| Operands.TermAfterLiteral | asm/parse.go:535-537 | a literal, `/` and a term that reaches the end is the literal divided by the term |
| Operands.TermGroupsRight | asm/parse.go:535-537 | `8/2/2` is 8, not 2 |
| Operands.TermSingle | asm/parse.go:528-559 | a literal with no multiplicative operator after it is a term of its own value |
| Operands.ExprLoopEnd | asm/parse.go:485-486 | an expression ends before any token that is not one of its operators |
| Operands.ExprLoopStep | asm/parse.go:468-484 | one step of an expression applies the operator to the term on its right |
| Operands.ExprGroupsLeft | asm/parse.go:476-478 | `x - y - z` is (x - y) - z with wrap-around: additive operators group to the left |
| Operands.ExprLastSub | asm/parse.go:476-478 | the last `- z` of an expression subtracts z and ends it |
| Operands.ExprFirstSub | asm/parse.go:466-478 | the first `x - y` of an expression gives x - y before the next operator |
| Operands.ExprSubStep | asm/parse.go:476-478 | a `-` step whose right term is known subtracts it with wrap-around |
| Operands.ExprOfTerm | asm/parse.go:466-467 | an expression is its first term followed by its operators |
| Operands.ParenthesisedTermStops | asm/parse.go:516-521 | in `(x)*y` the term is x and the `*` is left unread |
| Operands.UnaryTakesWholeTerm | asm/parse.go:526-527 | `~x*y` is ~(x*y): a unary operator applies to the whole term after it |
| Operands.DivisionByZeroStops | asm/parse.go:535-537 | dividing by a zero literal stops the run |
| Operands.ExprLoopOverflow | asm/parse.go:469-475 | a sum step that wraps keeps the wrapped value and reports the overflow |
| Operands.OverflowReported | asm/parse.go:469-475 | `x + y` that wraps is reported with both operands, and the wrapped value is kept |
| Operands.ParenBase | asm/parse.go:328-337 | `(R)` as the only base sets R as the base register, unscaled |
| Operands.ParenScaled | asm/parse.go:321-327 | `(R*s)` with s in 1, 2, 4, 8 sets R as the index and s as the scale |
| Operands.OperandWhole | asm/parse.go:460 | an operand whose body uses up its tokens is that body, with no report |
| Operands.OperandBodyIdent | asm/parse.go:417 | an operand starting with a name is a register or a symbol reference |
| Operands.OperandBodyDollar | asm/parse.go:365-366 | an operand starting with `$` is an immediate |
| Operands.ImmediateNumber | asm/parse.go:375-383 | `$` followed by the start of a number is an immediate constant |
| Operands.RegisterShape | asm/parse.go:420-431 | a lone register name parses, without report, to exactly a register operand |
| Operands.RegisterPairShape | asm/parse.go:423-429 | `R1:R2` parses, without report, to a register pair; the second name is looked up without a check |
| Operands.ImmediateShape | asm/parse.go:375-383 | `$n` parses, without report, to an immediate constant whose offset is n as an int64 |
| Operands.SymbolBaseAt | asm/parse.go:446-451 | `(B)` after a symbol, B one of SB, FP and SP, makes it indirect through B |
| Operands.SymbolShapeAt | asm/parse.go:417-456 | `sym(B)` with B one of SB, FP and SP parses, without report, to the symbol indirect through B |
| Operands.SymbolOperandAt | asm/parse.go:417-456 | the symbol reference `sym(B)` sets exactly the symbol and the base B |
| Operands.AddressModeBase | asm/parse.go:350-356 | `(R)` ending the operand is indirect through R, and no second group is read |
| Operands.AddressModeBaseIndex | asm/parse.go:350-356 | `(R)(I*s)`: after the unscaled group `(R)` the second group is read, giving base R, index I and scale s |
| Operands.AddressModeScaledStops | asm/parse.go:350-356 | after a scaled first group `(I*s)` the address mode ends, and a `(` after it is left unread |
| Operands.ParsedWhole | asm/parse.go:358-462 | an operand whose body reads all of its tokens without a report parses to that body's address |
| Operands.OperandBodyParen | asm/parse.go:396-404 | an operand starting with `(` is read as ParenOperand reads it |
| Operands.OperandBodyInt | asm/parse.go:405-416 | an operand starting with an integer is a value operand |
| Operands.ParenOperandBase | asm/parse.go:396-401 | the operand `(R)` is indirect through the register R, with no report |
| Operands.ParenOperandIndexed | asm/parse.go:396-401 | the operand `(R)(I*s)` is indirect through base R with index I and scale s, with no report |
| Operands.ImmediateSymbol | asm/parse.go:368-370 | the operand `$name` is the immediate address of the symbol, with no base and no report |
| Operands.ImmediateAddress | asm/parse.go:368-370 | the operand `$sym(B)`, B one of SB, FP and SP, is the immediate address of the symbol, indirect through B, with no report |
| Operands.ImmediateString | asm/parse.go:371-374 | the operand `$"s"` is an immediate string constant holding the literal's contents, with no report when the literal has no escape |
| Operands.LiteralBeforeParen | asm/parse.go:405-412 | a literal n followed by `(` is an offset of n alone |
| Operands.ValueOperandAt | asm/parse.go:405-416 | a literal n followed by `(` gives offset n, and the address mode follows |
| Operands.ValueOperandBase | asm/parse.go:405-416 | the operand `n(R)` is offset n from the register R, with no report |
| Operands.ValueOperandIndexed | asm/parse.go:405-416 | the operand `n(R)(I*s)` is offset n from base R with index I and scale s, with no report |
| Operands.SignedOffset | asm/parse.go:438-441 | `+n` or `-n` after a symbol is the offset n or its wrapping negation |
| Operands.SymbolOffsetAt | asm/parse.go:417-456 | the symbol reference `sym+n(B)` or `sym-n(B)` sets the symbol, the offset and the base B |
| Operands.NegOffset | asm/parse.go:438-441 | the wrapping negation of a positive n below 2^63, as an int64, is -n |
| Operands.SymbolOffsetShape | asm/parse.go:417-456 | the operand `sym+n(B)` or `sym-n(B)`, B one of SB, FP and SP, names the symbol with offset +n or -n (for n below 2^63) indirect through B, with no report |
| Assemble.BranchAddr | asm/asm.go:559-565 | a branch address has the branch type, no index, no symbol, and names the target instruction |
| Assemble.Errorf | asm/parse.go:168-182 | reporting changes only the error bookkeeping, and only adds to it |
| Assemble.Halt | asm/asm.go:490-508 | a runtime fault stops the run and changes nothing else |
| Assemble.ReportAll | asm/asm.go:148-216 | reporting a list of messages keeps the line, changes nothing for an empty list or a flagged line, and otherwise leaves the line flagged |
| Assemble.ParseAddr | asm/parse.go:298-306 | parsing an operand with the target's registers only adds to the bookkeeping |
| Assemble.Convert | asm/asm.go:148-216 | the output address is the conversion's value, and its errors, if any, are reported |
| Assemble.SymType | asm/asm.go:120-139 | the symbol type is the classification's value, and a bad base is reported |
| Assemble.BindLabels | asm/asm.go:227-232 | every name bound afterwards is a pending label bound to the instruction or a label bound before |
| Assemble.LinkProg | asm/asm.go:218-237 | linking appends the instruction with the pc recorded, advances the pc by one exactly when the instruction counts, and keeps every label and waiting jump pointing into the program |
| Assemble.PackSizes | asm/asm.go:299 | with sizes that fit, `(locals << 32) \| args` is locals * 2^32 + args |
| Assemble.ShiftHigh | asm/asm.go:299 | shifting the locals size left by 32 multiplies it by 2^32 |
| Assemble.OrHigh | asm/asm.go:299 | the two halves of the frame word share no bit, so or-ing them adds them |
| Assemble.Locals | asm/asm.go:266-273 | a trailing `- n` is cut off the frame operand and read as the locals size; without it the size is 0 and the operand whole |
| Assemble.Args | asm/asm.go:274-284 | reading the argument size only adds to the bookkeeping |
| Assemble.SBName | asm/asm.go:248-251 | the symbol operand is the parsed operand, and an SB symbol adds no report |
| Assemble.Text | asm/asm.go:241-303 | TEXT only adds to the bookkeeping and keeps labels and waiting jumps pointing into the program |
| Assemble.TextChecked | asm/asm.go:246-302 | the same, once the operand count is checked |
| Assemble.TextFlagged | asm/asm.go:254-302 | the same, once the symbol is parsed |
| Assemble.TextFlagOperand | asm/asm.go:254-258 | the flag is the parsed operand |
| Assemble.TextProg | asm/asm.go:286-301 | the entry instruction has the opcode given and the symbol with its first middle dot made a period |
| Assemble.Frame | asm/asm.go:261-284 | reading the frame operand only adds to the bookkeeping |
| Assemble.Data | asm/asm.go:307-347 | DATA only adds to the bookkeeping and keeps labels and waiting jumps pointing into the program |
| Assemble.DataChecked | asm/asm.go:312-346 | DATA changes only the bookkeeping and the program: the pc, the labels and the waiting jumps stay |
| Assemble.DataSymbol | asm/asm.go:318-346 | the same, once the width is known |
| Assemble.DataValueOperand | asm/asm.go:327-346 | DATA appends one instruction, with the opcode, the current pc and the width as scale, to the program kept before it |
| Assemble.Globl | asm/asm.go:352-402 | GLOBL only adds to the bookkeeping and keeps labels and waiting jumps pointing into the program |
| Assemble.GloblChecked | asm/asm.go:357-401 | GLOBL changes only the bookkeeping and the program: the pc, the labels and the waiting jumps stay |
| Assemble.GloblSizes | asm/asm.go:364-381 | the scale is 0 unless there are three operands |
| Assemble.PCData | asm/asm.go:406-442 | PCDATA only adds to the bookkeeping and keeps labels and waiting jumps pointing into the program |
| Assemble.PCDataChecked | asm/asm.go:411-441 | the same, once the operand count is checked |
| Assemble.PCDataValueOperand | asm/asm.go:418-441 | the same, once the index is parsed |
| Assemble.FuncData | asm/asm.go:446-483 | FUNCDATA only adds to the bookkeeping and keeps labels and waiting jumps pointing into the program |
| Assemble.FuncDataChecked | asm/asm.go:451-482 | the same, once the operand count is checked |
| Assemble.FuncDataSymbolOperand | asm/asm.go:458-482 | the same, once the index is parsed |
| Assemble.JumpTarget | asm/asm.go:490-501 | a target exists exactly for one or two operands, and it is the last of them |
| Assemble.Jump | asm/asm.go:489-546 | a jump only adds to the bookkeeping and keeps labels and waiting jumps pointing into the program |
| Assemble.JumpDestination | asm/asm.go:508-544 | the destination changes only the bookkeeping and the waiting jumps, and queues at most this jump |
| Assemble.Instruction | asm/asm.go:569-621 | an instruction appends exactly one counted instruction to the program kept before it, and queues no jump |
| Assemble.Slots | asm/asm.go:575-619 | computing the two addresses only adds to the bookkeeping |
| Assemble.ThreeSlots | asm/asm.go:599-616 | the three-operand case only adds to the bookkeeping |
| Assemble.BranchJump | asm/asm.go:559-565 | branching sets only the jump's destination, to the target instruction, and leaves every other instruction |
| Assemble.PatchFrom | asm/asm.go:548-557 | patching keeps the program's length, the labels, the pc and the waiting jumps, and only adds to the bookkeeping |
| Assemble.PatchFromStep | asm/asm.go:549-555 | one step resolves the next waiting jump to its label's instruction, or reports the label undefined |
| Assemble.BindLabelsMap | asm/asm.go:227-232 | binding puts each pending label at the instruction and leaves every other name as it was |
| Assemble.BindLabelsFlagged | asm/asm.go:228-229 | once the line has its report, binding reports nothing more |
| Assemble.RebindsShift | asm/asm.go:227-232 | after the first label is bound, the rest rebind exactly when they did before |
| Assemble.BindLabelsQuiet | asm/asm.go:227-232 | labels that rebind nothing are bound without a report |
| Assemble.BindLabelsReportsFirst | asm/asm.go:228-229 | the first label that rebinds a name, bound before or earlier on the same line, is reported as multiply defined, and is the only report |
| Assemble.LinkBindsPending | asm/asm.go:225-234 | linking a counted instruction binds every pending label to it, clears the pending list, and leaves every other label where it was |
| Assemble.PseudoCountReported | asm/asm.go:242-244 | TEXT, DATA, GLOBL, PCDATA and FUNCDATA with the wrong number of operands have that as their line's report (also lines 308-310, 353-355, 407-409, 447-449) |
| Assemble.LiteralExpr | asm/parse.go:465-489 | a lone decimal literal is an expression of its own value |
| Assemble.ImmediateOperand | asm/parse.go:375-383 | `$n` parses, without a report, to the immediate constant n |
| Assemble.FrameSizes | asm/asm.go:261-284 | `$args-locals`, `$args` and `$-locals` give the two sizes, with no report |
| Assemble.TextProgFrame | asm/asm.go:296-300 | the frame word is locals * 2^32 + args |
| Assemble.TextFrameWord | asm/asm.go:241-303 | TEXT links one counted instruction, the function's entry named after its symbol with the first middle dot made a period, whose frame word is locals * 2^32 + args |
| Assemble.DataWidth | asm/asm.go:312-346 | DATA links one uncounted instruction: the pc and labels stay, and the width becomes the scale, 0 when it is not 1, 2, 4 or 8 |
| Assemble.DataWidthReported | asm/asm.go:315-318 | a DATA symbol without a trailing `/w` is reported; so is a width other than 1, 2, 4 and 8 |
| Assemble.GloblSized | asm/asm.go:352-402 | GLOBL sym(SB), $size links one uncounted instruction with the size as a constant and scale 0 |
| Assemble.PCDataConstants | asm/asm.go:406-442 | PCDATA $index, $value links one counted instruction carrying the two constants, with no report |
| Assemble.SBOperand | asm/parse.go:417-456 | `sym(SB)` parses, without a report, to the symbol addressed through SB |
| Assemble.FuncDataParsed | asm/asm.go:446-483 | FUNCDATA links the constant and the symbol, typed as the symbol's base says |
| Assemble.FuncDataSymbol | asm/asm.go:446-483 | FUNCDATA $index, sym(SB) links the constant and the symbol as an external reference with its first middle dot made a period |
| Assemble.JumpToBoundLabel | asm/asm.go:512-519 | a jump to a bound label branches straight to the label's instruction |
| Assemble.JumpToUnboundLabel | asm/asm.go:512-516 | a jump to a label not yet bound is linked and queued, under its own position, for patching |
| Assemble.JumpRelative | asm/asm.go:520-527 | `n(PC)` branches to the jump's own pc plus n |
| Assemble.JumpToRegister | asm/asm.go:509-511 | a jump to or through a register other than PC goes to that operand's output address (also lines 528-530) |
| Assemble.JumpToSymbol | asm/asm.go:531-541 | a jump to `sym(SB)` branches to the symbol; any base but SB is reported |
| Assemble.JumpTwoAddresses | asm/asm.go:496-500 | a two-operand jump is the jump to the second, after checking that the first is empty |
| Assemble.JumpCountStops | asm/asm.go:491-509 | a jump with no operand or more than two is reported and the run stops on the missing target; nothing is linked |
| Assemble.InstructionUnary | asm/asm.go:576-586 | with no operand both addresses are empty; one operand is the destination for a unary-destination opcode and the source otherwise |
| Assemble.InstructionBinary | asm/asm.go:587-598 | two operands are source and destination; a register pair on the right puts its second register in the source's index, which must have been empty |
| Assemble.InstructionTernary | asm/asm.go:599-616 | an offset third operand becomes the destination's offset; a register third operand shifts the operands along with the first, which must be an immediate, as offset; anything else is reported |
| Assemble.InstructionTooMany | asm/asm.go:617-618 | more than three operands are reported and give zero addresses |
| Assemble.PatchFromKeeps | asm/asm.go:548-557 | patching leaves alone every instruction no waiting jump names |
| Assemble.PatchFromResolves | asm/asm.go:549-555 | every waiting jump whose label is bound ends up branching to the label's instruction |
| Assemble.PatchFromResolvesFirst | asm/asm.go:550-554 | the next waiting jump, when its label is bound, branches to the label's instruction |
| Assemble.PatchFromFlagged | asm/asm.go:551-552 | once the line has its report, patching reports nothing more |
| Assemble.PatchFromReports | asm/asm.go:548-557 | patching reports nothing when every waiting label is bound, and otherwise exactly the first unbound one |
| Statements.Read | asm/parse.go:199 | the next item is read and consumed; once the items are used up, end of input is returned on the last line |
| Statements.SkipNewlines | asm/parse.go:196-211 | the position reached is the first one from pos on that does not hold a newline |
| Statements.Gather | asm/parse.go:218-248 | gathering the operands only moves forward and adds to the bookkeeping; a label is found only at the first token, with no report |
| Statements.Line | asm/parse.go:195-261 | a statement only moves forward, and by at least one token when the run goes on; labels and waiting jumps keep pointing into the program |
| Statements.Statement | asm/parse.go:217-260 | the rest of a statement only moves forward and keeps labels and waiting jumps pointing into the program |
| Statements.Dispatch | asm/parse.go:249-260 | dispatching a word only adds to the bookkeeping and keeps labels and waiting jumps pointing into the program |
| Statements.Pseudo | asm/parse.go:276-291 | a pseudo-op only adds to the bookkeeping and keeps labels and waiting jumps pointing into the program |
| Statements.Addresses | asm/parse.go:264-267 | there is one parsed operand per operand, and only reports are added |
| Statements.InstructionLine | asm/parse.go:263-274 | an instruction only adds to the bookkeeping and keeps labels and waiting jumps pointing into the program |
| Statements.ParseFrom | asm/parse.go:185-186 | the statements read keep labels and waiting jumps pointing into the program |
| Statements.Parse | asm/parse.go:184-192 | a run reads every statement, then ends as Statements.Finish says |
| Statements.Finish | asm/parse.go:187-191 | a run dies exactly when it was stopped, is rejected exactly when an error was reported before the end, and otherwise returns the whole program with its jumps patched |
| Statements.ParseChecked | asm/parse.go:184-192 | the corrected run: reading as Parse does, ending as FinishChecked says |
| Statements.GatherFirstToken | asm/parse.go:226-232 | the colon check applies to the first token only: any other first token reads as it would later |
| Statements.GatherPlain | asm/parse.go:224-241 | the tokens of an operand are collected in order, with no report |
| Statements.GatherOperand | asm/parse.go:237-247 | a newline after an operand completes the statement; a comma starts the next operand |
| Statements.WritableRest | asm/parse.go:221-248 | the operands after the first can be written out too |
| Statements.GatherJoined | asm/parse.go:221-248 | operands written out with commas and ended by a newline read back as the same operands, with no report |
| Statements.HoldsSplit | asm/parse.go:224-241 | tokens present in two parts are the first part followed by the second |
| Statements.HoldsAt | asm/parse.go:225 | the item at pos + i is the i-th of the tokens present |
| Statements.GatherSkipsComma | asm/parse.go:242-247 | a comma before any operand is passed over |
| Statements.GatherEnds | asm/parse.go:237-243 | a newline ends the statement and its last operand |
| Statements.GatherTrailingComma | asm/parse.go:244-246 | a comma with nothing after it before the newline is reported as a missing operand; the operand before it is kept |
| Statements.GatherLeadingComma | asm/parse.go:242-247 | a comma before the first operand is passed over with no report |
| Statements.GatherStatement | asm/parse.go:218-248 | a statement's operands, written out with commas and ended by a newline, read back as they are, with no report |
| Statements.LineDispatched | asm/parse.go:249-260 | a statement whose operands were read completely is dispatched on the word's line, and reading goes on after it |
| Statements.LineStatement | asm/parse.go:195-261 | a word, operands written with commas, and a newline are dispatched as that word with those operands on the word's line; reading resumes after the newline |
| Statements.LineLabel | asm/parse.go:226-229 | a word followed by a colon waits, as a label, for the next instruction; reading resumes after the colon |
| Statements.LineAtEnd | asm/parse.go:198-209 | with only newlines left, the run ends on the line of the end of input |
| Statements.LineNotIdentifier | asm/parse.go:213-216 | a statement that does not start with a word is reported, and the run ends there |
| Statements.LineCutShort | asm/parse.go:233-236 | input that ends inside a statement is reported as an unexpected end, and the run ends there |
| Statements.DispatchUnknown | asm/parse.go:259-260 | a word that is neither a pseudo-op nor an instruction is reported, and nothing is linked |
| Statements.DispatchPseudoFirst | asm/parse.go:249-253 | a pseudo-op wins over an instruction of the same name |
| Statements.AddressesInOrder | asm/parse.go:264-267 | the operands are parsed in order, each on the errors left by those before it |
| Statements.DispatchInstruction | asm/parse.go:263-274 | a word starting with J, or CALL, is assembled as a jump to its parsed operands; any other instruction as a plain instruction |
| Statements.LoneSymbol | asm/parse.go:417-445 | a bare name that is not a register parses, without a report, to that symbol |
| Statements.UnboundJumpAddresses | asm/parse.go:264-267 | `JMP nowhere` has one operand, the bare symbol, and no report |
| Statements.UnboundJumpLink | asm/asm.go:218-237 | linking the jump as the run's first instruction gives it pc 1 |
| Statements.UnboundJumpJump | asm/asm.go:512-516 | the jump to a name that is no label is linked with an empty destination and queued |
| Statements.UnboundJumpDispatch | asm/parse.go:263-274 | the statement `JMP nowhere` is dispatched as that queued jump |
| Statements.UnboundJumpFirstLine | asm/parse.go:195-261 | the one statement of the input `JMP nowhere` is read and dispatched |
| Statements.JumpFeedOperands | asm/parse.go:218-248 | after its word, the input holds the one operand and the newline |
| Statements.UnboundJumpRun | asm/parse.go:185-186 | the whole run over `JMP nowhere` leaves exactly that queued jump |
| Statements.FinishAcceptsUndefinedLabel | asm/parse.go:187-191 | as written, a jump to a label defined nowhere is reported at the end, yet the run still returns the program with the jump's destination empty |
| Statements.ParseAcceptsUndefinedLabel | asm/parse.go:184-192 | as written, Parse of `JMP nowhere` assembles it and reports the undefined label |
| Statements.FinishCheckedRejectsUndefinedLabel | asm/parse.go:187-191 | corrected, the same state is rejected with the same report |
| Statements.ParseCheckedRejectsUndefinedLabel | asm/parse.go:184-192 | corrected, the input `JMP nowhere` is rejected |
| Statements.FinishCheckedResolves | asm/asm.go:548-557 | corrected, a program is returned only when every waiting jump found its label, and each then branches to its label's instruction |
| Statements.FinishCheckedAgrees | asm/parse.go:187-191 | when every label is found, the corrected end agrees with the source's and patching adds no report |
| Parsing.Parser.constructor | asm/parse.go:159-166 | a new parser holds the target and the token stream, no operand, and the empty assembler state |
| Parsing.Parser.Errorf | asm/parse.go:168-182 | reporting agrees with Operands.Report: one report per line, and the run stops after more than ten |
| Parsing.Parser.Stop | asm/parse.go:535-540 | a runtime fault stops the run, as Operands.Fault says |
| Parsing.Parser.More | asm/parse.go:613-615 | tokens remain exactly when the position is before the operand's end |
| Parsing.Parser.Next | asm/parse.go:593-600 | agrees with Operands.Next, and advances by one while tokens remain |
| Parsing.Parser.Back | asm/parse.go:602-604 | steps the position back by one |
| Parsing.Parser.Peek | asm/parse.go:606-611 | agrees with Operands.Peek |
| Parsing.Parser.Expect | asm/parse.go:623-628 | agrees with Operands.Expect |
| Parsing.Parser.Get | asm/parse.go:617-621 | agrees with Operands.Get |
| Parsing.Parser.Have | asm/parse.go:630-638 | the search loop answers whether any remaining token has the kind, as Operands.Have says |
| Parsing.Parser.Atoi | asm/parse.go:567-573 | agrees with Operands.Atoi |
| Parsing.Parser.Atos | asm/parse.go:583-589 | agrees with Operands.Atos |
| Parsing.Parser.Scale | asm/parse.go:340-348 | agrees with Operands.Scale: 1, 2, 4 or 8, anything else reported |
| Parsing.Parser.Expr | asm/parse.go:464-489 | the loop over `+ - \| ^` agrees with Operands.Expr |
| Parsing.Parser.ExprStep | asm/parse.go:469-484 | one turn of the loop reads the operator and a term and leaves the loop's final value and position unchanged |
| Parsing.Parser.Sums | asm/parse.go:469-484 | one additive step is the wrapping sum, difference, or, or exclusive or |
| Parsing.Parser.Accumulate | asm/parse.go:469-475 | agrees with Operands.Accumulate: a wrapping sum is reported |
| Parsing.Parser.Multiplicative | asm/parse.go:532-557 | one multiplicative step is the wrapping product, quotient, remainder, shift or and |
| Parsing.Parser.Parenthesized | asm/parse.go:516-521 | agrees with Operands.Parenthesized |
| Parsing.Parser.Term | asm/parse.go:512-565 | agrees with Operands.Term |
| Parsing.Parser.IntTerm | asm/parse.go:528-561 | the loop over `* / % << >> &` agrees with Operands.IntTerm |
| Parsing.Parser.FloatExpr | asm/parse.go:491-510 | agrees with Operands.FloatExpr |
| Parsing.Parser.ParenRegister | asm/parse.go:308-338 | agrees with Operands.ParenRegister |
| Parsing.Parser.RegisterName | asm/parse.go:311-319 | agrees with Operands.RegisterName |
| Parsing.Parser.ScaledIndex | asm/parse.go:321-327 | agrees with Operands.ScaledIndex |
| Parsing.Parser.BaseRegister | asm/parse.go:328-334 | agrees with Operands.BaseRegister |
| Parsing.Parser.Close | asm/parse.go:335-336 | agrees with Operands.Close |
| Parsing.Parser.AddressMode | asm/parse.go:350-356 | agrees with Operands.AddressMode |
| Parsing.Parser.Operand | asm/parse.go:358-462 | agrees with Operands.Operand |
| Parsing.Parser.OperandBody | asm/parse.go:364-459 | agrees with Operands.OperandBody |
| Parsing.Parser.IndirectRegister | asm/parse.go:387-395 | agrees with Operands.IndirectRegister |
| Parsing.Parser.ParenOperand | asm/parse.go:396-404 | agrees with Operands.ParenOperand |
| Parsing.Parser.Immediate | asm/parse.go:365-386 | agrees with Operands.Immediate |
| Parsing.Parser.Literal | asm/parse.go:405-412 | agrees with Operands.Literal |
| Parsing.Parser.ValueOperand | asm/parse.go:405-416 | agrees with Operands.ValueOperand |
| Parsing.Parser.SymbolOperand | asm/parse.go:417-456 | agrees with Operands.SymbolOperand |
| Parsing.Parser.RegisterOperand | asm/parse.go:420-431 | agrees with Operands.RegisterOperand |
| Parsing.Parser.StaticMark | asm/parse.go:432-437 | agrees with Operands.StaticMark |
| Parsing.Parser.SymbolBase | asm/parse.go:443-456 | agrees with Operands.SymbolBase |
| Parsing.Parser.PseudoBase | asm/parse.go:448-456 | agrees with Operands.PseudoBase |
| Parsing.Parser.Address | asm/parse.go:298-306 | the operand's tokens become the input, and the result agrees with Assemble.ParseAddr |
| Parsing.Parser.ConvertAddr | asm/asm.go:148-216 | agrees with Assemble.Convert |
| Parsing.Parser.Link | asm/asm.go:218-237 | agrees with Assemble.LinkProg |
| Parsing.Parser.Branch | asm/asm.go:559-565 | agrees with Assemble.BranchJump |
| Parsing.Parser.Patch | asm/asm.go:548-557 | the loop over the waiting jumps agrees with Assemble.PatchFrom |
| Parsing.Parser.AsmJump | asm/asm.go:489-546 | agrees with Assemble.Jump |
| Parsing.Parser.Destination | asm/asm.go:508-544 | agrees with Assemble.JumpDestination |
| Parsing.Parser.AsmInstruction | asm/asm.go:569-621 | agrees with Assemble.Instruction |
| Parsing.Parser.ThreeSlots | asm/asm.go:599-616 | agrees with Assemble.ThreeSlots |
| Parsing.Parser.Install | asm/parse.go:137-157 | the parser's fields then hold exactly the given state |
| Parsing.Parser.OperandSlots | asm/asm.go:575-619 | agrees with Assemble.Slots |
| Parsing.Parser.LexNext | asm/parse.go:199 | agrees with Statements.Read |
| Parsing.Parser.FirstToken | asm/parse.go:196-211 | the loop skips blank lines, as Statements.SkipNewlines says, and takes the first token's line as the current line |
| Parsing.Parser.GatherOperands | asm/parse.go:218-248 | the operand loops agree with Statements.Gather |
| Parsing.Parser.Line | asm/parse.go:195-261 | agrees with Statements.Line |
| Parsing.Parser.Statement | asm/parse.go:217-260 | agrees with Statements.Statement |
| Parsing.Parser.Dispatch | asm/parse.go:249-260 | agrees with Statements.Dispatch |
| Parsing.Parser.Pseudo | asm/parse.go:276-291 | agrees with Statements.Pseudo |
| Parsing.Parser.Instruction | asm/parse.go:263-274 | agrees with Statements.InstructionLine |
| Parsing.Parser.ParseOperands | asm/parse.go:264-267 | the loop agrees with Statements.Addresses |
| Parsing.Parser.AllLabelsBound | asm/asm.go:549-552 | the search answers whether every waiting jump's label is bound |
| Parsing.Parser.Parse | asm/parse.go:184-192 | the loop over statements and the corrected end of the run agree with Statements.ParseChecked: a jump to a label never bound rejects the run |

## Left out

- `asm/main.go`, flag parsing, output files and the writing of object files are process plumbing outside the front end.
- The `text/scanner` package is not part of this model. Its output is an input sequence of (kind, text) lexemes, with a flag for white space before each lexeme so that composite tokens are fused only when written together. `unicode.IsLetter` and `unicode.IsDigit` are parameters of `Lex.IsIdentRune`.
- Opening files, the search of the include directories (the source directory, then the -I flags) and the substitution of GOOS and GOARCH in include names are left out. The file system is a map from names to lexemes, and a name is looked up as written.
- `println`, the standard-error output and the "file:line:" prefix of every message are left out. A parser report keeps its line number and its message as a datatype, and a preprocessor error keeps its text.
- `histline`, `Linklinehist` and the `linkCtxt` global are left out. liblink is not part of this model: `Linklookup` is modelled as the symbol's name, the numeric `D_*` codes as symbolic address types, and the linked list of `Prog`s as a sequence in which a branch target is a position.
- Floating point is left out. `floatExpr` consumes the same tokens and reports the same syntax errors, but the value (`Addr.float`, `atof`) is not kept, only the `hasFloat` flag.
- Operands.FloatExpr: a float literal is accepted without a report, whereas `atof` (asm/parse.go:575-579) reports the error `strconv.ParseFloat` returns for a literal out of the float64 range, such as `$1e400`; deciding that needs floating point.
- Parsing.Parser.FloatExpr: agrees with `Operands.FloatExpr`, so it omits the same out-of-range report.
- Operands.AddressMode: its own contract states only that the cursor moves forward and the bookkeeping grows; the forms `(R)`, `(R)(I*s)` and the stop after a scaled group are stated by the lemmas AddressModeBase, AddressModeBaseIndex and AddressModeScaledStops, not for every input.
- Operands.ParenOperand: its own contract is the same frame; `(R)` and `(R)(I*s)` are stated by ParenOperandBase and ParenOperandIndexed.
- Operands.Immediate: its own contract is the same frame; `$n`, `$name`, `$sym(B)` and `$"s"` are stated by ImmediateShape, ImmediateSymbol, ImmediateAddress and ImmediateString.
- Operands.ValueOperand: its own contract is the same frame; `n(R)` and `n(R)(I*s)` are stated by ValueOperandAt, ValueOperandBase and ValueOperandIndexed.
- Operands.SymbolOperand: its own contract is the same frame; `sym(B)` and `sym±n(B)` are stated by SymbolOperandAt, SymbolOffsetAt and SymbolOffsetShape.
- Parsing.Parser.AddressMode, Parsing.Parser.ParenOperand, Parsing.Parser.Immediate, Parsing.Parser.ValueOperand, Parsing.Parser.SymbolOperand: each is proved equal to the Operands function of the same name, so they carry exactly that function's forms and no more.
- `Token.String` (asm/lex.go:35-56) only names tokens inside messages, and messages here are a datatype, so it is not modelled.
- Go runtime panics become a stop of the run: a division or remainder by zero in `term`, indexing past the operands in the pseudo-op builders after a report, and the nil target of a jump with the wrong operand count. In `filter/apply.go` the reflection panics (not a slice, not a function, wrong parameter or result type, an in-place argument that is not the address of a slice) cannot occur, because the Dafny signatures are typed and generic.
- The call to `addOverflows` (asm/parse.go:472) is modelled as "the exact sum is at least 2^64". Its source is not part of this model.
- Preprocessor.NextToken: every read from the stack spends one unit of a `budget`, and an exhausted budget is a failure. A source loop that never ends shows up as a failure for every budget, and a terminating run needs a budget at least as large as its number of reads.
- Preprocessor.Unquote: escape sequences inside the quoted file name of `#include` and `#line` are not decoded. The text between the quotes is taken as is.
- Operands.Atos: a string literal holding a backslash is reported as an error. `strconv.Unquote`'s escape decoding and its raw and character literals are not modelled.
- Operands.Atoi: `strconv.ParseUint` with base 0 is modelled for its decimal, octal and hexadecimal forms. Underscores and the 0b and 0o prefixes are not accepted.
- Parsing.Parser.Pseudo: the five pseudo-op builders run as the `Assemble` functions, and the parser then installs the state they compute. Their individual field updates are not written out step by step, but the jump and instruction builders, `link`, `patch` and `branch` are.
- Parsing.Parser.Parse: this is the corrected end of a run (see Findings). The source's end of a run, which returns the program even after an undefined label, is `Statements.Parse`.
- Input.Input.ReadBody and Input.Input.Next: the class runs the corrected preprocessor (see Findings). The source's behaviour is stated by the `AsWritten` version of the same functions.
- Lex.Slice.Text: reading the text after EOF is a Go index-out-of-range panic. Its precondition excludes that call.

## Findings

| source | as written | input that shows it | evidently intended | confidence | as-written member | corrected member |
|---|---|---|---|---|---|---|
| asm/parse.go:187-191 | `Parse` looks at the error count before `patch`, so the "undefined label" that `patch` reports still ends with the program and `true` | a file holding the one statement `JMP nowhere`, with `nowhere` defined nowhere | a run with an undefined label fails | high; not executed | Statements.ParseAcceptsUndefinedLabel | Statements.ParseCheckedRejectsUndefinedLabel |
| asm/lex.go:530-543 | the body loop of `macroDefinition` ends only at a newline; at the end of input the stack keeps returning EOF and the loop never ends | a file whose last line is `#define X y`, with no newline after it | the end of input also ends the body | medium; not executed | PreprocessorScenarios.BodyAtEndAsWritten | PreprocessorScenarios.DefinitionAtEnd |
| asm/lex.go:408-412 | inside a disabled conditional `Next` drops every token, EOF included, and reads again, so it never returns | a file whose last line is `#ifdef X`, with X undefined | EOF is returned, and the open conditional is left for the caller | medium; not executed | PreprocessorScenarios.UnterminatedIfdefAsWritten | PreprocessorScenarios.UnterminatedIfdefCorrected |
| asm/lex.go:426-434 | inside a disabled conditional `#ifdef` is skipped without pushing, so the inner `#endif` pops the outer conditional and the rest of the outer block is delivered | the lines `#ifdef X`, `#ifdef Y`, `#endif`, `A`, `#endif`, with X and Y undefined: `A` is delivered | a nested conditional inside a disabled one is disabled too, and its `#endif` closes only itself | high; not executed | PreprocessorScenarios.NestedIfdefAsWritten | PreprocessorScenarios.NestedIfdefCorrected |
