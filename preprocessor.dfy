/** The preprocessor: the main input of the assembler. It reads tokens from a stack of
    token sources and interprets #define, #undef, #ifdef, #ifndef, #else, #endif,
    #include and #line, and expands macro invocations by pushing their substituted
    bodies onto the stack.

    The behaviour is given first as pure functions over an abstract state (the tokens
    each frame of the stack still holds, the macro table, the conditional stack, the
    beginning-of-line flag and a budget of reads); the Input class below implements it
    and each of its methods is proved to do exactly what the matching function says. */
module Preprocessor {
  import opened Results
  import opened Lex
  import Numerals

  /** A macro: its formal parameters and its body. The empty list of formals stands for
      the source's nil list: the macro then takes no argument list at all. */
  datatype Macro = Macro(name: string, args: seq<string>, tokens: seq<LexToken>)

  const Newline: Token := Punct('\n')

  /** Three places where the source as written misbehaves (see the findings); the
      Input class runs the corrected behaviour. */
  datatype Version = AsWritten | Corrected

  /** The abstract preprocessor state: the pending tokens of each frame of the input
      stack (bottom first), the macro table, the conditional stack, whether the next
      token starts a line, and how many more tokens may be read. */
  datatype PState = PState(
    frames: seq<seq<LexToken>>,
    macros: map<string, Macro>,
    ifdefs: seq<bool>,
    bol: bool,
    budget: nat)

  /** What the Input maintains: between 1 and 101 frames. */
  predicate Sane(st: PState) {
    1 <= |st.frames| <= 101
  }

  /** st2 follows st1 by reading from the stack only. */
  predicate ReadOnly(st1: PState, st2: PState) {
    && st2.macros == st1.macros && st2.ifdefs == st1.ifdefs && st2.bol == st1.bol
    && st2.budget <= st1.budget
    && (Sane(st1) ==> Sane(st2))
  }

  /** Is the input enabled? As written only the innermost conditional counts; corrected,
      every enclosing one must hold. */
  predicate Including(v: Version, ifdefs: seq<bool>) {
    match v
    case AsWritten => |ifdefs| == 0 || ifdefs[|ifdefs| - 1]
    case Corrected => forall k | 0 <= k < |ifdefs| :: ifdefs[k]
  }

  /** The directives still interpreted while the input is disabled. */
  predicate PassesWhileSuppressed(v: Version, word: string) {
    match v
    case AsWritten => word in {"else", "endif", "line"}
    case Corrected => word in {"else", "endif", "line", "ifdef", "ifndef"}
  }

  /** A method's result together with the state it leaves, in the shape of the functions
      below. */
  function Pack<T>(r: Result<T>, st: PState): Result<(T, PState)> {
    if r.Ok? then Ok((r.value, st)) else Fail(r.msg)
  }

  function PackState(r: Result<()>, st: PState): Result<PState> {
    if r.Ok? then Ok(st) else Fail(r.msg)
  }

  /** One token from the stack (the stack's Next and then its Text). */
  function Read(st: PState): (r: Result<(LexToken, PState)>)
    ensures r.Ok? <==> st.budget > 0
    ensures r.Ok? ==> ReadOnly(st, r.value.1) && r.value.1.budget == st.budget - 1
  {
    if st.budget == 0 then Fail("input budget exhausted")
    else
      var (x, f) := Advance(st.frames);
      Ok((x, st.(frames := f, budget := st.budget - 1)))
  }

  /** The identifier after a directive word. */
  function MacroName(st: PState): (r: Result<(string, PState)>)
    ensures r.Ok? ==> ReadOnly(st, r.value.1) && r.value.1.budget < st.budget
  {
    var p :- Read(st);
    if p.0.tok != Ident then Fail("expected identifier after # directive")
    else Ok((p.0.text, p.1))
  }

  function ExpectNewline(directive: string, st: PState): (r: Result<PState>)
    ensures r.Ok? ==> ReadOnly(st, r.value) && r.value.budget < st.budget
  {
    var p :- Read(st);
    if p.0.tok != Newline then Fail("expected newline after " + directive)
    else Ok(p.1)
  }

  /** The index of arg in args, or -1. */
  function Lookup(args: seq<string>, arg: string): (i: int)
    ensures -1 <= i < |args|
    ensures i == -1 <==> arg !in args
    ensures i >= 0 ==> args[i] == arg && forall k | 0 <= k < i :: args[k] != arg
  {
    if args == [] then -1
    else if args[0] == arg then 0
    else
      var i := Lookup(args[1..], arg);
      if i == -1 then -1 else i + 1
  }

  predicate Distinct(args: seq<string>) {
    forall i, j | 0 <= i < j < |args| :: args[i] != args[j]
  }

  /** The list of formals after '(' (acceptArg: a name may come next), then the first
      token of the body. */
  function Formals(name: string, acceptArg: bool, args: seq<string>, st: PState)
    : (r: Result<(seq<string>, LexToken, PState)>)
    ensures r.Ok? ==> ReadOnly(st, r.value.2) && r.value.2.budget < st.budget
    ensures r.Ok? ==> args <= r.value.0
    ensures r.Ok? && Distinct(args) ==> Distinct(r.value.0)
    decreases st.budget
  {
    var p :- Read(st);
    var (x, st1) := p;
    match x.tok
    case Punct(')') =>
      var q :- Read(st1);
      Ok((args, q.0, q.1))
    case Punct(',') =>
      if acceptArg then Fail("bad syntax in definition for macro: " + name)
      else Formals(name, true, args, st1)
    case Ident =>
      if !acceptArg then Fail("bad syntax in definition for macro: " + name)
      else if Lookup(args, x.text) >= 0 then
        Fail("duplicate argument " + x.text + " in definition for macro: " + name)
      else Formals(name, false, args + [x.text], st1)
    case _ => Fail("bad definition for macro: " + name)
  }

  predicate NoNewline(tokens: seq<LexToken>) {
    forall t | t in tokens :: t.tok != Newline
  }

  /** The body of a definition up to the end of the line, starting with the already read
      token tok: backslash-newline is dropped, backslash-backslash gives one backslash,
      any other escape is an error. As written only a newline ends the body; corrected,
      so does the end of input. */
  function Body(v: Version, name: string, tok: LexToken, tokens: seq<LexToken>, st: PState)
    : (r: Result<(seq<LexToken>, PState)>)
    ensures r.Ok? ==> ReadOnly(st, r.value.1)
    ensures r.Ok? ==> tokens <= r.value.0
    decreases st.budget
  {
    if tok.tok == Newline || (v == Corrected && tok.tok == EOF) then Ok((tokens, st))
    else if tok.tok == Punct('\\') then
      var p :- Read(st);
      if p.0.tok != Newline && p.0.tok != Punct('\\') then
        Fail("can only escape \\ or \\n in definition for macro: " + name)
      else if p.0.tok == Newline then
        var q :- Read(p.1);
        Body(v, name, q.0, tokens, q.1)
      else
        var q :- Read(p.1);
        Body(v, name, q.0, tokens + [p.0], q.1)
    else
      var q :- Read(st);
      Body(v, name, q.0, tokens + [tok], q.1)
  }

  /** A body holds no newline (escaped ones are dropped) and, corrected, no end of input. */
  lemma {:induction false} BodyTokens(v: Version, name: string, tok: LexToken, tokens: seq<LexToken>,
                                      st: PState)
    requires Body(v, name, tok, tokens, st).Ok?
    ensures NoNewline(tokens) ==> NoNewline(Body(v, name, tok, tokens, st).value.0)
    ensures v == Corrected && Clean(tokens) ==> Clean(Body(v, name, tok, tokens, st).value.0)
    decreases st.budget
  {
    if tok.tok == Newline || (v == Corrected && tok.tok == EOF) {
    } else if tok.tok == Punct('\\') {
      var p := Read(st).value;
      var q := Read(p.1).value;
      if p.0.tok == Newline {
        BodyTokens(v, name, q.0, tokens, q.1);
      } else {
        BodyTokens(v, name, q.0, tokens + [p.0], q.1);
      }
    } else {
      var q := Read(st).value;
      BodyTokens(v, name, q.0, tokens + [tok], q.1);
    }
  }

  /** macroDefinition: the formals (if the name is followed by '(') and the body. */
  function Definition(v: Version, name: string, st: PState)
    : (r: Result<((seq<string>, seq<LexToken>), PState)>)
    ensures r.Ok? ==> ReadOnly(st, r.value.1) && r.value.1.budget < st.budget
    ensures r.Ok? ==> Distinct(r.value.0.0)
    ensures r.Ok? && v == Corrected ==> Clean(r.value.0.1)
    ensures r.Ok? ==> NoNewline(r.value.0.1)
  {
    var p :- Read(st);
    if p.0.tok == Newline || p.0.tok == EOF then Fail("no definition for macro: " + name)
    else if p.0.tok == Punct('(') then
      var f :- Formals(name, true, [], p.1);
      var b :- Body(v, name, f.1, [], f.2);
      BodyTokens(v, name, f.1, [], f.2);
      Ok(((f.0, b.0), b.1))
    else
      var b :- Body(v, name, p.0, [], p.1);
      BodyTokens(v, name, p.0, [], p.1);
      Ok((([], b.0), b.1))
  }

  /** defineMacro: a new name is added with its definition; a known name is an error. */
  function DefineMacro(name: string, args: seq<string>, tokens: seq<LexToken>, st: PState)
    : (r: Result<PState>)
    ensures r.Ok? <==> name !in st.macros
    ensures r.Ok? ==>
      && r.value.macros.Keys == st.macros.Keys + {name}
      && r.value.macros[name] == Macro(name, args, tokens)
      && (forall n | n in st.macros :: r.value.macros[n] == st.macros[n])
      && r.value.frames == st.frames && r.value.ifdefs == st.ifdefs && r.value.budget == st.budget
  {
    if name in st.macros then Fail("redefinition of macro: " + name)
    else Ok(st.(macros := st.macros[name := Macro(name, args, tokens)]))
  }

  /** #define: the name read is bound to the formals and body that follow it; a name
      already defined is an error. */
  function Define(v: Version, st: PState): (r: Result<PState>)
    ensures r.Ok? ==> r.value.budget < st.budget && r.value.ifdefs == st.ifdefs
    ensures r.Ok? ==>
      && MacroName(st).Ok?
      && var (name, st1) := MacroName(st).value;
      && Definition(v, name, st1).Ok?
      && var ((args, body), st2) := Definition(v, name, st1).value;
      && name !in st.macros
      && r.value.macros == st.macros[name := Macro(name, args, body)]
      && r.value.frames == st2.frames
    ensures MacroName(st).Ok? && MacroName(st).value.0 in st.macros ==> r.Fail?
    ensures r.Ok? && Sane(st) ==> Sane(r.value)
  {
    var n :- MacroName(st);
    var d :- Definition(v, n.0, n.1);
    DefineMacro(n.0, d.0.0, d.0.1, d.1)
  }

  /** #undef: exactly the named macro is removed; an unknown name, or anything but a
      newline after it, is an error. */
  function Undef(st: PState): (r: Result<PState>)
    ensures r.Ok? ==> r.value.budget < st.budget && r.value.ifdefs == st.ifdefs
    ensures r.Ok? ==>
      && MacroName(st).Ok?
      && var (name, st1) := MacroName(st).value;
      && name in st.macros && r.value.macros == st.macros - {name}
      && Read(st1).Ok? && Read(st1).value.0.tok == Newline
      && r.value.frames == Read(st1).value.1.frames
    ensures MacroName(st).Ok? && MacroName(st).value.0 !in st.macros ==> r.Fail?
    ensures r.Ok? && Sane(st) ==> Sane(r.value)
  {
    var n :- MacroName(st);
    if n.0 !in n.1.macros then Fail("#undef for undefined macro: " + n.0)
    else
      var p :- Read(n.1);
      if p.0.tok != Newline then Fail("syntax error in #undef for macro: " + n.0)
      else Ok(p.1.(macros := p.1.macros - {n.0}))
  }

  /** #ifdef (truth) and #ifndef (!truth) push whether the name is (not) defined. */
  function Ifdef(truth: bool, st: PState): (r: Result<PState>)
    ensures r.Ok? ==> r.value.budget < st.budget && r.value.macros == st.macros
    ensures r.Ok? <==>
      MacroName(st).Ok? && ExpectNewline("#if[n]def", MacroName(st).value.1).Ok?
    ensures r.Ok? ==>
      && r.value.ifdefs == st.ifdefs + [(MacroName(st).value.0 in st.macros) == truth]
      && r.value.frames == ExpectNewline("#if[n]def", MacroName(st).value.1).value.frames
    ensures r.Ok? && Sane(st) ==> Sane(r.value)
  {
    var n :- MacroName(st);
    var st2 :- ExpectNewline("#if[n]def", n.1);
    Ok(st2.(ifdefs := st2.ifdefs + [if n.0 in st2.macros then truth else !truth]))
  }

  /** #else flips the innermost conditional; an error with none open. */
  function Else(st: PState): (r: Result<PState>)
    ensures r.Ok? ==> r.value.budget < st.budget && r.value.macros == st.macros
    ensures st.ifdefs == [] ==> r.Fail?
    ensures r.Ok? ==>
      && |st.ifdefs| > 0 && |r.value.ifdefs| == |st.ifdefs|
      && r.value.ifdefs[..|st.ifdefs| - 1] == st.ifdefs[..|st.ifdefs| - 1]
      && r.value.ifdefs[|st.ifdefs| - 1] == !st.ifdefs[|st.ifdefs| - 1]
    ensures r.Ok? && Sane(st) ==> Sane(r.value)
  {
    var st1 :- ExpectNewline("#else", st);
    if st1.ifdefs == [] then Fail("unmatched #else")
    else
      var n := |st1.ifdefs|;
      Ok(st1.(ifdefs := st1.ifdefs[n - 1 := !st1.ifdefs[n - 1]]))
  }

  /** #endif closes the innermost conditional; an error with none open. */
  function Endif(st: PState): (r: Result<PState>)
    ensures r.Ok? ==> r.value.budget < st.budget && r.value.macros == st.macros
    ensures st.ifdefs == [] ==> r.Fail?
    ensures r.Ok? ==> |st.ifdefs| > 0 && r.value.ifdefs == st.ifdefs[..|st.ifdefs| - 1]
    ensures r.Ok? && Sane(st) ==> Sane(r.value)
  {
    var st1 :- ExpectNewline("#endif", st);
    if st1.ifdefs == [] then Fail("unmatched #endif")
    else Ok(st1.(ifdefs := st1.ifdefs[..|st1.ifdefs| - 1]))
  }

  /** The recursion guard: a push onto more than 100 frames is an error. */
  function PushFrame(frame: seq<LexToken>, st: PState): (r: Result<PState>)
    ensures r.Ok? <==> |st.frames| <= 100
    ensures r.Ok? ==> r.value == st.(frames := st.frames + [frame])
    ensures r.Ok? && Sane(st) ==> Sane(r.value)
  {
    if |st.frames| > 100 then Fail("input recursion")
    else Ok(st.(frames := st.frames + [frame]))
  }

  /** The contents of a double-quoted literal (escape sequences are not interpreted). */
  function Unquote(text: string): (r: Result<string>)
    ensures r.Ok? ==> text == ['"'] + r.value + ['"']
  {
    if |text| >= 2 && text[0] == '"' && text[|text| - 1] == '"' then Ok(text[1..|text| - 1])
    else Fail("invalid syntax")
  }

  /** #include "name": the named file's tokens become a new frame. The file system is
      the map files from names to the scanner's output. */
  ghost function Include(files: map<string, seq<Lexeme>>, st: PState): (r: Result<PState>)
    ensures r.Ok? ==>
      && r.value.budget < st.budget && r.value.macros == st.macros
      && r.value.ifdefs == st.ifdefs && |r.value.frames| <= |st.frames| + 1
    ensures r.Ok? ==>
      && Read(st).Ok?
      && var (x, st1) := Read(st).value;
      && x.tok == String && Unquote(x.text).Ok?
      && var name := Unquote(x.text).value;
      && name in files && ExpectNewline("#include", st1).Ok?
      && r.value.frames
         == ExpectNewline("#include", st1).value.frames + [TokenStream(files[name], 0)]
    ensures
      && Read(st).Ok? && Read(st).value.0.tok == String && Unquote(Read(st).value.0.text).Ok?
      && Unquote(Read(st).value.0.text).value !in files
      ==> r.Fail?
    ensures r.Ok? && Sane(st) ==> Sane(r.value)
  {
    var p :- Read(st);
    if p.0.tok != String then Fail("expected string after #include")
    else
      var name :- (match Unquote(p.0.text)
                   case Ok(n) => Ok(n)
                   case Fail(m) => Fail("unquoting include file name: " + m));
      var st2 :- ExpectNewline("#include", p.1);
      if name !in files then Fail("#include: " + name)
      else
        PushFrame(TokenStream(files[name], 0), st2)
  }

  /** The largest value strconv.Atoi accepts on a 64-bit host. */
  const MaxInt64: int := 0x7fff_ffff_ffff_ffff

  /** strconv.Atoi on the text of an integer token: the decimal value of its digits,
      which must be in the int range. */
  function Atoi(text: string): (r: Result<int>)
    ensures r.Ok? ==> IsDecimal(text) && 0 <= r.value <= MaxInt64
    ensures r.Ok? ==> Numerals.DigitsIn(text, 10) && r.value == Numerals.ValueIn(text, 10)
    ensures |text| > 0 && Numerals.DigitsIn(text, 10) && Numerals.ValueIn(text, 10) <= MaxInt64 ==> r.Ok?
  {
    DecimalAgrees(text);
    if !IsDecimal(text) || DecimalValue(text) > MaxInt64 then Fail("invalid syntax")
    else Ok(DecimalValue(text))
  }

  /** The digits an integer token is read with are the base-10 digits of a numeral, and
      they are worth the same. */
  lemma {:induction false} DecimalAgrees(s: string)
    ensures (forall k | 0 <= k < |s| :: IsDigit(s[k])) <==> Numerals.DigitsIn(s, 10)
    ensures Numerals.DigitsIn(s, 10) ==> DecimalValue(s) == Numerals.ValueIn(s, 10)
    decreases |s|
  {
    if s != [] {
      var init := s[..|s| - 1];
      DecimalAgrees(init);
      assert forall k | 0 <= k < |init| :: init[k] == s[k];
    }
  }

  /** A #line number printed in decimal reads back as itself. */
  lemma AtoiRoundTrip(n: nat)
    requires n <= MaxInt64
    ensures Atoi(Numerals.Decimal(n)) == Ok(n)
  {
    Numerals.DecimalDigits(n);
    DecimalAgrees(Numerals.Decimal(n));
  }

  /** #line 337 "file": the new line number and file name. No newline is demanded after
      them: the rest of the line is read as ordinary input. */
  function LineDirective(st: PState): (r: Result<(int, string, PState)>)
    ensures r.Ok? ==> ReadOnly(st, r.value.2) && r.value.2.budget < st.budget
    ensures r.Ok? ==> 0 <= r.value.0 <= MaxInt64
    ensures r.Ok? ==>
      && Read(st).Ok?
      && var (x, st1) := Read(st).value;
      && x.tok == Int && Atoi(x.text) == Ok(r.value.0)
      && Read(st1).Ok?
      && var (y, st2) := Read(st1).value;
      && y.tok == String && Unquote(y.text) == Ok(r.value.1)
      && r.value.2 == st2
  {
    var p :- Read(st);
    if p.0.tok != Int then Fail("expected line number after #line")
    else
      var line :- (match Atoi(p.0.text)
                   case Ok(n) => Ok(n)
                   case Fail(m) => Fail("error parsing #line (cannot happen): " + m));
      var q :- Read(p.1);
      if q.0.tok != String then Fail("expected file name in #line")
      else
        var file :- (match Unquote(q.0.text)
                     case Ok(f) => Ok(f)
                     case Fail(m) => Fail("unquoting #line file name: " + m));
        Ok((line, file, q.1))
  }

  /** The directive named word, after '#word' has been read. */
  ghost function Directive(v: Version, files: map<string, seq<Lexeme>>, word: string, st: PState)
    : (r: Result<PState>)
    ensures r.Ok? ==> r.value.budget < st.budget
    ensures r.Ok? && Sane(st) ==> Sane(r.value)
  {
    if word == "define" then Define(v, st)
    else if word == "else" then Else(st)
    else if word == "endif" then Endif(st)
    else if word == "ifdef" then Ifdef(true, st)
    else if word == "ifndef" then Ifdef(false, st)
    else if word == "include" then Include(files, st)
    else if word == "line" then var l :- LineDirective(st); Ok(l.2)
    else if word == "undef" then Undef(st)
    else Fail("unexpected identifier after '#': " + word)
  }

  /** hash: the directive after '#'. Returns whether the directive completed (false when
      the input is disabled and the directive is skipped). */
  ghost function Hash(v: Version, files: map<string, seq<Lexeme>>, st: PState)
    : (r: Result<(bool, PState)>)
    ensures r.Ok? ==> r.value.1.budget < st.budget
    ensures r.Ok? && Sane(st) ==> Sane(r.value.1)
    ensures r.Ok? && !r.value.0 ==> ReadOnly(st, r.value.1)
  {
    var p :- Read(st);
    if p.0.tok != Ident then Fail("expected identifier after '#'")
    else
      var (word, st1) := (p.0.text, p.1);
      if !Including(v, st1.ifdefs) && !PassesWhileSuppressed(v, word) then Ok((false, st1))
      else
        var st2 :- Directive(v, files, word, st1);
        Ok((true, st2))
  }

  /** No end of input, newline, comma or closing parenthesis: what an actual may hold. */
  predicate PlainArg(tokens: seq<LexToken>) {
    forall t | t in tokens :: Plain(t.tok)
  }

  predicate Plain(tok: Token) {
    tok != EOF && tok != Newline && tok != Punct(',') && tok != Punct(')')
  }

  /** The names in a list. */
  function Names(args: seq<string>): (r: set<string>)
    ensures forall n :: n in r <==> n in args
  {
    if args == [] then {} else {args[0]} + Names(args[1..])
  }

  /** The actuals after '(' : tokens up to ',' or ')' form one actual each (parentheses do
      not nest), assigned to the formals in order. argNum actuals are already assigned and
      tokens is the current one. */
  function CollectArgs(m: Macro, argNum: nat, tokens: seq<LexToken>,
                       actuals: map<string, seq<LexToken>>, st: PState)
    : (r: Result<(map<string, seq<LexToken>>, PState)>)
    requires argNum <= |m.args|
    ensures r.Ok? ==> ReadOnly(st, r.value.1) && r.value.1.budget < st.budget
    decreases st.budget
  {
    var p :- Read(st);
    var (x, st1) := p;
    if x.tok == EOF || x.tok == Newline then
      Fail("unterminated arg list invoking macro: " + m.name)
    else if x.tok == Punct(',') || x.tok == Punct(')') then
      if argNum >= |m.args| then Fail("too many arguments for macro: " + m.name)
      else
        var actuals' := actuals[m.args[argNum] := tokens];
        if x.tok == Punct(')') then
          if argNum + 1 != |m.args| then Fail("too few arguments for macro: " + m.name)
          else Ok((actuals', st1))
        else CollectArgs(m, argNum + 1, [], actuals', st1)
    else CollectArgs(m, argNum, tokens + [x], actuals, st1)
  }

  predicate AllPlain(actuals: map<string, seq<LexToken>>) {
    forall n | n in actuals :: PlainArg(actuals[n])
  }

  /** Every remaining formal receives an actual. */
  lemma {:induction false} CollectArgsKeys(m: Macro, argNum: nat, tokens: seq<LexToken>,
                                           actuals: map<string, seq<LexToken>>, st: PState)
    requires argNum <= |m.args| && CollectArgs(m, argNum, tokens, actuals, st).Ok?
    ensures CollectArgs(m, argNum, tokens, actuals, st).value.0.Keys
      == actuals.Keys + Names(m.args[argNum..])
    decreases st.budget
  {
    var (x, st1) := Read(st).value;
    if x.tok == Punct(',') || x.tok == Punct(')') {
      assert m.args[argNum..] == [m.args[argNum]] + m.args[argNum + 1..];
      if x.tok == Punct(',') {
        CollectArgsKeys(m, argNum + 1, [], actuals[m.args[argNum] := tokens], st1);
      }
    } else {
      CollectArgsKeys(m, argNum, tokens + [x], actuals, st1);
    }
  }

  /** Every collected actual is free of end of input, newlines, commas and ')'. */
  lemma {:induction false} CollectArgsPlain(m: Macro, argNum: nat, tokens: seq<LexToken>,
                                            actuals: map<string, seq<LexToken>>, st: PState)
    requires argNum <= |m.args| && CollectArgs(m, argNum, tokens, actuals, st).Ok?
    requires PlainArg(tokens) && AllPlain(actuals)
    ensures AllPlain(CollectArgs(m, argNum, tokens, actuals, st).value.0)
    decreases st.budget
  {
    var (x, st1) := Read(st).value;
    if x.tok == Punct(',') {
      CollectArgsPlain(m, argNum + 1, [], actuals[m.args[argNum] := tokens], st1);
    } else if x.tok != Punct(')') {
      assert PlainArg(tokens + [x]);
      CollectArgsPlain(m, argNum, tokens + [x], actuals, st1);
    }
  }

  /** argsFor: a macro without formals reads nothing; otherwise '(' must follow and every
      formal receives exactly one actual. */
  function ArgsFor(m: Macro, st: PState): (r: Result<(map<string, seq<LexToken>>, PState)>)
    ensures r.Ok? ==> ReadOnly(st, r.value.1)
    ensures r.Ok? ==> r.value.0.Keys == Names(m.args)
    ensures r.Ok? ==> AllPlain(r.value.0)
    ensures m.args == [] ==> r == Ok((map[], st))
  {
    if m.args == [] then Ok((map[], st))
    else
      var p :- Read(st);
      if p.0.tok != Punct('(') then Fail("missing arguments for invocation of macro: " + m.name)
      else
        var a :- CollectArgs(m, 0, [], map[], p.1);
        CollectArgsKeys(m, 0, [], map[], p.1);
        CollectArgsPlain(m, 0, [], map[], p.1);
        Ok(a)
  }

  /** What one token of a body becomes: an identifier naming a formal with a non-empty
      actual is replaced by that actual, every other token stays. */
  function Replacement(t: LexToken, actuals: map<string, seq<LexToken>>): seq<LexToken> {
    if t.tok == Ident && t.text in actuals && actuals[t.text] != [] then actuals[t.text] else [t]
  }

  /** The body with the actuals substituted for the formals. */
  function Substitute(body: seq<LexToken>, actuals: map<string, seq<LexToken>>): (r: seq<LexToken>)
    ensures forall k | 0 <= k < |r| ::
      r[k] in body || exists n | n in actuals :: r[k] in actuals[n]
    decreases |body|
  {
    if body == [] then []
    else Replacement(body[0], actuals) + Substitute(body[1..], actuals)
  }

  /** Substitution works token by token. */
  lemma {:induction false} SubstituteAppend(a: seq<LexToken>, b: seq<LexToken>,
                                            actuals: map<string, seq<LexToken>>)
    ensures Substitute(a + b, actuals) == Substitute(a, actuals) + Substitute(b, actuals)
    decreases |a|
  {
    if a == [] {
      assert a + b == b;
    } else {
      assert (a + b)[1..] == a[1..] + b;
      SubstituteAppend(a[1..], b, actuals);
    }
  }

  /** invokeMacro: the actuals are read and the substituted body is pushed as a frame. */
  function InvokeMacro(m: Macro, st: PState): (r: Result<PState>)
    ensures r.Ok? ==>
      && r.value.budget <= st.budget && r.value.macros == st.macros
      && r.value.ifdefs == st.ifdefs && r.value.bol == st.bol
    ensures r.Ok? ==>
      && ArgsFor(m, st).Ok?
      && var (actuals, st1) := ArgsFor(m, st).value;
      && r.value.frames == st1.frames + [Substitute(m.tokens, actuals)]
    ensures ArgsFor(m, st).Ok? && |ArgsFor(m, st).value.1.frames| <= 100 ==> r.Ok?
    ensures r.Ok? && Sane(st) ==> Sane(r.value)
  {
    var a :- ArgsFor(m, st);
    PushFrame(Substitute(m.tokens, a.0), a.1)
  }

  /** One turn of the loop in Input.Next: a directive or a macro invocation is carried
      out (None), or a token is delivered (Some) when the input is enabled. As written,
      end of input inside a disabled region is not delivered; corrected, it is. */
  ghost function NextStep(v: Version, files: map<string, seq<Lexeme>>, st: PState)
    : (r: Result<(Option<LexToken>, PState)>)
    ensures r.Ok? ==> r.value.1.budget < st.budget
    ensures r.Ok? && Sane(st) ==> Sane(r.value.1)
    ensures r.Ok? && r.value.0.Some? ==>
      var x := r.value.0.value;
      && x.tok != Punct('#')
      && r.value.1.bol == (x.tok == Newline)
      && (x.tok == Ident ==> x.text !in r.value.1.macros)
      && (Including(v, r.value.1.ifdefs) || (v == Corrected && x.tok == EOF))
  {
    var p :- Read(st);
    var (x, st1) := p;
    if x.tok == Punct('#') then
      if !st1.bol then Fail("'#' must be first item on line")
      else
        var h :- Hash(v, files, st1);
        Ok((None, h.1.(bol := h.0)))
    else if x.tok == Ident && x.text in st1.macros then
      var st2 :- InvokeMacro(st1.macros[x.text], st1);
      Ok((None, st2))
    else
      var st2 := st1.(bol := x.tok == Newline);
      if Including(v, st2.ifdefs) || (v == Corrected && x.tok == EOF) then Ok((Some(x), st2))
      else Ok((None, st2))
  }

  /** Input.Next: the next token after directives and macro expansion, with the state
      after it. */
  ghost function NextToken(v: Version, files: map<string, seq<Lexeme>>, st: PState)
    : (r: Result<(LexToken, PState)>)
    ensures r.Ok? ==> r.value.1.budget < st.budget
    ensures r.Ok? ==> r.value.0.tok != Punct('#')
    ensures r.Ok? ==> r.value.1.bol == (r.value.0.tok == Newline)
    ensures r.Ok? && r.value.0.tok == Ident ==> r.value.0.text !in r.value.1.macros
    ensures r.Ok? && v == Corrected ==> Including(v, r.value.1.ifdefs) || r.value.0.tok == EOF
    ensures r.Ok? && v == AsWritten ==> Including(v, r.value.1.ifdefs)
    ensures r.Ok? && Sane(st) ==> Sane(r.value.1)
    decreases st.budget
  {
    var s :- NextStep(v, files, st);
    if s.0.Some? then Ok((s.0.value, s.1))
    else NextToken(v, files, s.1)
  }
}
