/** The assembler's error messages, one constructor per message of the source, and the
    text each is printed as. Keeping the message structured lets the model and its
    proofs speak about which error was reported; `Render` gives the exact wording. */
module Messages {
  import opened Lex
  import opened Numerals

  datatype Msg =
    // the operand parser
    | EmptyOperand
    | ExpectedToken(want: Token, found: string)
    | RegisterNotIdent(found: string)
    | RegisterUnknown(found: string)
    | IndirectNotRegister(found: string)
    | MultipleIndirections
    | BadScale(found: string)
    | IllegalImmediate(found: string)
    | UnexpectedInOperand(found: string)
    | NeedPseudoBase(symbol: string)
    | MissingParen
    | UnexpectedInExpr(found: string)
    | UnexpectedInFloat(found: string)
    | Overflow(value: nat, addend: nat)
    | BadNumber(text: string, outOfRange: bool)
    | BadQuote
    // statements
    | ExpectedIdentifier(found: string)
    | UnexpectedEOF
    | MissingOperand
    | UnrecognizedInstruction(word: string)
    | Unimplemented(word: string)
    // building instructions
    | InvalidSymbolRegister(symbol: string)
    | ImmediateNotSB(symbol: string)
    | LabelRedefined(name: string)
    | TextOperands
    | NotSBOffset(directive: string, symbol: string)
    | TextFlag(name: string)
    | TextFrame(name: string)
    | DataOperands
    | DataSize
    | DataValue
    | GloblOperands
    | GloblScale
    | GloblSize
    | PCDataOperands
    | PCDataValue
    | FuncDataOperands
    | FuncDataValue
    | JumpOperands
    | JumpFirstNotEmpty
    | JumpNotSB
    | CannotAssembleJump
    | UndefinedLabel(name: string)
    | PairNeedsRegister
    | ExpectedImmediateFirst
    | ExpectedThirdOperand
    | OperandCount(n: nat)

  /** Why a run stops before the end of its input: more than ten errors, or a runtime
      fault of the source (division by zero, an index past the end of a slice, a method
      called through a nil pointer). */
  datatype Stop = TooManyErrors | DivideByZero | IndexOutOfRange | NilDereference

  /** The name of a token kind, as the messages print it. */
  function TokenName(t: Token): string {
    match t
    case EOF => "EOF"
    case Ident => "identifier"
    case Int => "integer constant"
    case Float => "float constant"
    case Char => "rune constant"
    case String => "string constant"
    case RawString => "raw string constant"
    case Comment => "comment"
    case Punct(ch) => "'" + [ch] + "'"
    case _ => "'�'"
  }

  /** The text of a message. */
  function Render(m: Msg): string {
    match m
    case EmptyOperand => "empty operand: cannot happen"
    case ExpectedToken(want, found) => "expected " + TokenName(want) + ", found " + found
    case RegisterNotIdent(found) => "expected register, got " + found
    case RegisterUnknown(found) => "expected register, found " + found
    case IndirectNotRegister(found) => "expected register; got " + found
    case MultipleIndirections => "multiple indirections"
    case BadScale(found) => "bad scale: " + found
    case IllegalImmediate(found) => "illegal " + found + " in immediate operand"
    case UnexpectedInOperand(found) => "unexpected " + found + " in operand"
    case NeedPseudoBase(symbol) => "expected SB, FP, or SP offset for " + symbol
    case MissingParen => "missing closing paren"
    case UnexpectedInExpr(found) => "unexpected " + found + " evaluating expression"
    case UnexpectedInFloat(found) => "unexpected " + found + " evaluating float expression"
    case Overflow(value, addend) => "overflow in " + Decimal(value) + "+" + Decimal(addend)
    case BadNumber(text, outOfRange) =>
      "strconv.ParseUint: parsing " + Quote(text) + ": " + (if outOfRange then "value out of range" else "invalid syntax")
    case BadQuote => "invalid syntax"
    case ExpectedIdentifier(found) => "expected identifier, found " + Quote(found)
    case UnexpectedEOF => "unexpected EOF"
    case MissingOperand => "missing operand"
    case UnrecognizedInstruction(word) => "unrecognized instruction " + word
    case Unimplemented(word) => "unimplemented: " + word
    case InvalidSymbolRegister(symbol) => "invalid register for symbol " + symbol
    case ImmediateNotSB(symbol) => "can't handle immediate address of " + symbol + " not (SB)\n"
    case LabelRedefined(name) => "label " + Quote(name) + " multiply defined"
    case TextOperands => "expect three operands for TEXT"
    case NotSBOffset(directive, symbol) => directive + " symbol " + Quote(symbol) + " must be an offset from SB"
    case TextFlag(name) => "TEXT flag for " + name + " must be an integer"
    case TextFrame(name) => "TEXT frame size for " + name + " must be an immediate constant"
    case DataOperands => "expect two operands for DATA"
    case DataSize => "expect /size for DATA argument"
    case DataValue => "DATA value must be an immediate constant or address"
    case GloblOperands => "expect two or three operands for GLOBL"
    case GloblScale => "GLOBL scale must be a constant"
    case GloblSize => "GLOBL size must be an immediate constant"
    case PCDataOperands => "expect two operands for PCDATA"
    case PCDataValue => "PCDATA value must be an immediate constant"
    case FuncDataOperands => "expect two operands for FUNCDATA"
    case FuncDataValue => "FUNCDATA value must be an immediate constant"
    case JumpOperands => "jump must have one or two addresses"
    case JumpFirstNotEmpty => "two-address jump must have empty first address"
    case JumpNotSB => "jmp to symbol must be SB-relative"
    case CannotAssembleJump => "cannot assemble jump"
    case UndefinedLabel(name) => "undefined label " + name
    case PairNeedsRegister => "register pair operand on RHS must have register on LHS"
    case ExpectedImmediateFirst => "expected $value for 1st operand"
    case ExpectedThirdOperand => "expected offset or register for 3rd operand"
    case OperandCount(n) => "can't handle instruction with " + Decimal(n) + " operands"
  }
}
