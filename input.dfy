/** The Input object: the preprocessor proper. Each method reads from the input stack and
    updates the macro table, the conditional stack and the beginning-of-line flag, and is
    proved to do exactly what the function of the same name in Preprocessor says (for
    the corrected version of the three misbehaviours recorded there). An error of the
    source (a message and os.Exit) is a Fail result here; after one the object is not used
    again. */
module Input {
  import opened Results
  import opened Lex
  import opened Preprocessor

  class Input {
    const stack: Stack
    /** The file system: file name to the scanner's output. */
    const files: map<string, seq<Lexeme>>
    var beginningOfLine: bool
    var ifdefStack: seq<bool>
    var macros: map<string, Macro>
    /** How many more tokens may be read from the stack. */
    var budget: nat
    ghost var Repr: set<object>

    ghost predicate Valid()
      reads this, Repr
    {
      && this in Repr && stack in Repr && stack.Repr <= Repr
      && this !in stack.Repr && stack.Valid()
      && 1 <= |stack.tr| <= 101 && stack.tr[0].File?
      && (forall n | n in files :: WellFormed(files[n]))
    }

    /** The state the Preprocessor functions talk about. */
    ghost function Abs(): PState
      reads this, Repr
      requires Valid()
    {
      PState(stack.Frames(), macros, ifdefStack, beginningOfLine, budget)
    }

    /** NewInput and the push of the main file's tokenizer in NewLexer. */
    constructor (name: string, files: map<string, seq<Lexeme>>, macros: map<string, Macro>,
                 budget: nat)
      requires name in files && forall n | n in files :: WellFormed(files[n])
      ensures Valid() && fresh(Repr - {this})
      ensures this.files == files
      ensures Abs() == PState([TokenStream(files[name], 0)], macros, [], true, budget)
    {
      var s := new Stack();
      var t := new Tokenizer(name, files[name]);
      s.Push(File(t));
      stack := s;
      this.files := files;
      beginningOfLine := true;
      ifdefStack := [];
      this.macros := macros;
      this.budget := budget;
      Repr := {this, s} + s.Repr;
    }

    /** The text of the most recent token. */
    function Text(): string
      reads this, Repr
      requires Valid() && stack.TextDefined()
    {
      stack.Text()
    }

    predicate Including()
      reads this
    {
      Preprocessor.Including(Corrected, ifdefStack)
    }

    /** in.Stack.Next() followed by in.Text(). */
    method ReadToken() returns (r: Result<LexToken>)
      requires Valid()
      modifies Repr
      ensures Valid() && Repr == old(Repr)
      ensures Pack(r, Abs()) == Read(old(Abs()))
    {
      if budget == 0 {
        return Fail("input budget exhausted");
      }
      budget := budget - 1;
      var t := stack.Next();
      var text := stack.Text();
      r := Ok(LexToken(t, text));
    }

    method MacroName() returns (r: Result<string>)
      requires Valid()
      modifies Repr
      ensures Valid() && Repr == old(Repr)
      ensures Pack(r, Abs()) == Preprocessor.MacroName(old(Abs()))
    {
      var p := ReadToken();
      if p.Fail? {
        return Fail(p.msg);
      }
      if p.value.tok != Ident {
        return Fail("expected identifier after # directive");
      }
      r := Ok(p.value.text);
    }

    method ExpectNewline(directive: string) returns (r: Result<()>)
      requires Valid()
      modifies Repr
      ensures Valid() && Repr == old(Repr)
      ensures PackState(r, Abs()) == Preprocessor.ExpectNewline(directive, old(Abs()))
    {
      var p := ReadToken();
      if p.Fail? {
        return Fail(p.msg);
      }
      if p.value.tok != Newline {
        return Fail("expected newline after " + directive);
      }
      r := Ok(());
    }

    /** The loop over the formals of macroDefinition, after '(': the formals and the first
        token of the body. */
    method ReadFormals(name: string) returns (r: Result<(seq<string>, LexToken)>)
      requires Valid()
      modifies Repr
      ensures Valid() && Repr == old(Repr)
      ensures (if r.Ok? then Ok((r.value.0, r.value.1, Abs())) else Fail(r.msg))
        == Formals(name, true, [], old(Abs()))
    {
      var args: seq<string> := [];
      var acceptArg := true;
      ghost var goal := Formals(name, true, [], Abs());
      while true
        invariant Valid() && Repr == old(Repr)
        invariant Formals(name, acceptArg, args, Abs()) == goal
        decreases budget
      {
        var q := ReadToken();
        if q.Fail? {
          return Fail(q.msg);
        }
        var x := q.value;
        match x.tok {
          case Punct(')') =>
            var b := ReadToken();
            if b.Fail? {
              return Fail(b.msg);
            }
            return Ok((args, b.value));
          case Punct(',') =>
            if acceptArg {
              return Fail("bad syntax in definition for macro: " + name);
            }
            acceptArg := true;
          case Ident =>
            if !acceptArg {
              return Fail("bad syntax in definition for macro: " + name);
            }
            if Lookup(args, x.text) >= 0 {
              return Fail("duplicate argument " + x.text + " in definition for macro: " + name);
            }
            args := args + [x.text];
            acceptArg := false;
          case _ =>
            return Fail("bad definition for macro: " + name);
        }
      }
    }

    /** The loop over the body of macroDefinition, from its first token tok up to the
        newline (corrected: or the end of input). */
    method ReadBody(name: string, tok: LexToken) returns (r: Result<seq<LexToken>>)
      requires Valid()
      modifies Repr
      ensures Valid() && Repr == old(Repr)
      ensures Pack(r, Abs()) == Body(Corrected, name, tok, [], old(Abs()))
    {
      var tokens: seq<LexToken> := [];
      var tok := tok;
      ghost var goal := Body(Corrected, name, tok, [], Abs());
      while !(tok.tok == Newline || tok.tok == EOF)
        invariant Valid() && Repr == old(Repr)
        invariant Body(Corrected, name, tok, tokens, Abs()) == goal
        decreases budget
      {
        if tok.tok == Punct('\\') {
          var q := ReadToken();
          if q.Fail? {
            return Fail(q.msg);
          }
          if q.value.tok != Newline && q.value.tok != Punct('\\') {
            return Fail("can only escape \\ or \\n in definition for macro: " + name);
          }
          if q.value.tok == Newline {
            // A backslash-newline is discarded.
            var b := ReadToken();
            if b.Fail? {
              return Fail(b.msg);
            }
            tok := b.value;
            continue;
          }
          tok := q.value;
        }
        tokens := tokens + [tok];
        var b := ReadToken();
        if b.Fail? {
          return Fail(b.msg);
        }
        tok := b.value;
      }
      r := Ok(tokens);
    }

    /** macroDefinition: the formals, if the name is followed by '(', then the body. */
    method MacroDefinition(name: string) returns (r: Result<(seq<string>, seq<LexToken>)>)
      requires Valid()
      modifies Repr
      ensures Valid() && Repr == old(Repr)
      ensures Pack(r, Abs()) == Definition(Corrected, name, old(Abs()))
    {
      var p := ReadToken();
      if p.Fail? {
        return Fail(p.msg);
      }
      var tok := p.value;
      if tok.tok == Newline || tok.tok == EOF {
        return Fail("no definition for macro: " + name);
      }
      var args: seq<string> := [];
      if tok.tok == Punct('(') {
        var f := ReadFormals(name);
        if f.Fail? {
          return Fail(f.msg);
        }
        args, tok := f.value.0, f.value.1;
      }
      var b := ReadBody(name, tok);
      if b.Fail? {
        return Fail(b.msg);
      }
      r := Ok((args, b.value));
    }

    method DefineMacro(name: string, args: seq<string>, tokens: seq<LexToken>) returns (r: Result<()>)
      requires Valid()
      modifies this`macros
      ensures Valid()
      ensures PackState(r, Abs()) == Preprocessor.DefineMacro(name, args, tokens, old(Abs()))
    {
      if name in macros {
        return Fail("redefinition of macro: " + name);
      }
      macros := macros[name := Macro(name, args, tokens)];
      r := Ok(());
    }

    method Define() returns (r: Result<()>)
      requires Valid()
      modifies Repr
      ensures Valid() && Repr == old(Repr)
      ensures PackState(r, Abs()) == Preprocessor.Define(Corrected, old(Abs()))
    {
      var n := MacroName();
      if n.Fail? {
        return Fail(n.msg);
      }
      var d := MacroDefinition(n.value);
      if d.Fail? {
        return Fail(d.msg);
      }
      r := DefineMacro(n.value, d.value.0, d.value.1);
    }

    method Undef() returns (r: Result<()>)
      requires Valid()
      modifies Repr
      ensures Valid() && Repr == old(Repr)
      ensures PackState(r, Abs()) == Preprocessor.Undef(old(Abs()))
    {
      var n := MacroName();
      if n.Fail? {
        return Fail(n.msg);
      }
      if n.value !in macros {
        return Fail("#undef for undefined macro: " + n.value);
      }
      // Newline must be next.
      var p := ReadToken();
      if p.Fail? {
        return Fail(p.msg);
      }
      if p.value.tok != Newline {
        return Fail("syntax error in #undef for macro: " + n.value);
      }
      macros := macros - {n.value};
      r := Ok(());
    }

    method Ifdef(truth: bool) returns (r: Result<()>)
      requires Valid()
      modifies Repr
      ensures Valid() && Repr == old(Repr)
      ensures PackState(r, Abs()) == Preprocessor.Ifdef(truth, old(Abs()))
    {
      var n := MacroName();
      if n.Fail? {
        return Fail(n.msg);
      }
      var e := ExpectNewline("#if[n]def");
      if e.Fail? {
        return Fail(e.msg);
      }
      var t := truth;
      if n.value !in macros {
        t := !truth;
      }
      ifdefStack := ifdefStack + [t];
      r := Ok(());
    }

    method Else() returns (r: Result<()>)
      requires Valid()
      modifies Repr
      ensures Valid() && Repr == old(Repr)
      ensures PackState(r, Abs()) == Preprocessor.Else(old(Abs()))
    {
      var e := ExpectNewline("#else");
      if e.Fail? {
        return Fail(e.msg);
      }
      if ifdefStack == [] {
        return Fail("unmatched #else");
      }
      var n := |ifdefStack|;
      ifdefStack := ifdefStack[n - 1 := !ifdefStack[n - 1]];
      r := Ok(());
    }

    method Endif() returns (r: Result<()>)
      requires Valid()
      modifies Repr
      ensures Valid() && Repr == old(Repr)
      ensures PackState(r, Abs()) == Preprocessor.Endif(old(Abs()))
    {
      var e := ExpectNewline("#endif");
      if e.Fail? {
        return Fail(e.msg);
      }
      ghost var st1 := Abs();
      assert Preprocessor.ExpectNewline("#endif", old(Abs())) == Ok(st1);
      if ifdefStack == [] {
        return Fail("unmatched #endif");
      }
      ifdefStack := ifdefStack[..|ifdefStack| - 1];
      assert Abs() == st1.(ifdefs := st1.ifdefs[..|st1.ifdefs| - 1]);
      r := Ok(());
    }

    /** Input.Push: the recursion guard, then the stack's push. */
    method Push(reader: Reader) returns (r: Result<()>)
      requires Valid() && ReaderValid(reader) && reader.Obj() !in Repr
      modifies this`Repr, stack
      ensures Valid() && Repr <= old(Repr) + {reader.Obj()}
      ensures PackState(r, Abs()) == PushFrame(PendingOf(reader), old(Abs()))
    {
      if |stack.tr| > 100 {
        return Fail("input recursion");
      }
      stack.Push(reader);
      Repr := Repr + {reader.Obj()};
      r := Ok(());
    }

    method Include() returns (r: Result<()>)
      requires Valid()
      modifies Repr
      ensures Valid() && fresh(Repr - old(Repr))
      ensures PackState(r, Abs()) == Preprocessor.Include(files, old(Abs()))
    {
      var p := ReadToken();
      if p.Fail? {
        return Fail(p.msg);
      }
      if p.value.tok != String {
        return Fail("expected string after #include");
      }
      var name := Unquote(p.value.text);
      if name.Fail? {
        return Fail("unquoting include file name: " + name.msg);
      }
      var e := ExpectNewline("#include");
      if e.Fail? {
        return Fail(e.msg);
      }
      if name.value !in files {
        return Fail("#include: " + name.value);
      }
      var t := new Tokenizer(name.value, files[name.value]);
      r := Push(File(t));
    }

    /** #line: the top frame reports the new position; what it delivers is unchanged. */
    method LineDirective() returns (r: Result<()>)
      requires Valid()
      modifies Repr
      ensures Valid() && Repr == old(Repr)
      ensures var spec := Preprocessor.LineDirective(old(Abs()));
        && r.Ok? == spec.Ok?
        && (r.Fail? ==> r.msg == spec.msg)
        && (r.Ok? ==> Abs() == spec.value.2
                      && stack.Line() == spec.value.0 && stack.FileName() == spec.value.1)
    {
      var p := ReadToken();
      if p.Fail? {
        return Fail(p.msg);
      }
      if p.value.tok != Int {
        return Fail("expected line number after #line");
      }
      var line := Atoi(p.value.text);
      if line.Fail? {
        return Fail("error parsing #line (cannot happen): " + line.msg);
      }
      var q := ReadToken();
      if q.Fail? {
        return Fail(q.msg);
      }
      if q.value.tok != String {
        return Fail("expected file name in #line");
      }
      var file := Unquote(q.value.text);
      if file.Fail? {
        return Fail("unquoting #line file name: " + file.msg);
      }
      stack.SetPos(line.value, file.value);
      r := Ok(());
    }

    /** The directive named word, after '#word' has been read. */
    method Directive(word: string) returns (r: Result<()>)
      requires Valid()
      modifies Repr
      ensures Valid() && fresh(Repr - old(Repr))
      ensures PackState(r, Abs()) == Preprocessor.Directive(Corrected, files, word, old(Abs()))
    {
      if word == "define" {
        r := Define();
      } else if word == "else" {
        r := Else();
      } else if word == "endif" {
        r := Endif();
      } else if word == "ifdef" {
        r := Ifdef(true);
      } else if word == "ifndef" {
        r := Ifdef(false);
      } else if word == "include" {
        r := Include();
      } else if word == "line" {
        r := LineDirective();
      } else if word == "undef" {
        r := Undef();
      } else {
        r := Fail("unexpected identifier after '#': " + word);
      }
    }

    /** hash: the directive after '#'; true iff it was carried out. */
    method Hash() returns (r: Result<bool>)
      requires Valid()
      modifies Repr
      ensures Valid() && fresh(Repr - old(Repr))
      ensures Pack(r, Abs()) == Preprocessor.Hash(Corrected, files, old(Abs()))
    {
      var p := ReadToken();
      if p.Fail? {
        return Fail(p.msg);
      }
      if p.value.tok != Ident {
        return Fail("expected identifier after '#'");
      }
      var word := p.value.text;
      if !Including() && !PassesWhileSuppressed(Corrected, word) {
        return Ok(false);
      }
      var e := Directive(word);
      if e.Fail? {
        return Fail(e.msg);
      }
      r := Ok(true);
    }

    /** argsFor: the loop collecting one actual per formal. */
    method ArgsFor(m: Macro) returns (r: Result<map<string, seq<LexToken>>>)
      requires Valid()
      modifies Repr
      ensures Valid() && Repr == old(Repr)
      ensures Pack(r, Abs()) == Preprocessor.ArgsFor(m, old(Abs()))
    {
      if m.args == [] {
        return Ok(map[]);
      }
      var p := ReadToken();
      if p.Fail? {
        return Fail(p.msg);
      }
      if p.value.tok != Punct('(') {
        return Fail("missing arguments for invocation of macro: " + m.name);
      }
      r := CollectActuals(m);
    }

    /** The loop of argsFor, after the opening parenthesis. */
    method CollectActuals(m: Macro) returns (r: Result<map<string, seq<LexToken>>>)
      requires Valid()
      modifies Repr
      ensures Valid() && Repr == old(Repr)
      ensures Pack(r, Abs()) == CollectArgs(m, 0, [], map[], old(Abs()))
    {
      var tokens: seq<LexToken> := [];
      var actuals: map<string, seq<LexToken>> := map[];
      var argNum := 0;
      ghost var goal := CollectArgs(m, 0, [], map[], Abs());
      while true
        invariant Valid() && Repr == old(Repr)
        invariant argNum <= |m.args|
        invariant CollectArgs(m, argNum, tokens, actuals, Abs()) == goal
        decreases budget
      {
        var q := ReadToken();
        if q.Fail? {
          return Fail(q.msg);
        }
        var x := q.value;
        if x.tok == EOF || x.tok == Newline {
          return Fail("unterminated arg list invoking macro: " + m.name);
        }
        if x.tok == Punct(',') || x.tok == Punct(')') {
          if argNum >= |m.args| {
            return Fail("too many arguments for macro: " + m.name);
          }
          actuals := actuals[m.args[argNum] := tokens];
          tokens := [];
          argNum := argNum + 1;
          if x.tok == Punct(')') {
            if argNum != |m.args| {
              return Fail("too few arguments for macro: " + m.name);
            }
            return Ok(actuals);
          }
        } else {
          tokens := tokens + [x];
        }
      }
    }

    /** invokeMacro: substitute the actuals into the body and push the result as a replay
        frame at the current position. */
    method InvokeMacro(m: Macro) returns (r: Result<()>)
      requires Valid()
      modifies Repr
      ensures Valid() && fresh(Repr - old(Repr))
      ensures PackState(r, Abs()) == Preprocessor.InvokeMacro(m, old(Abs()))
    {
      var a := ArgsFor(m);
      if a.Fail? {
        return Fail(a.msg);
      }
      var tokens := SubstituteBody(m.tokens, a.value);
      var s := new Slice(stack.FileName(), stack.Line(), tokens);
      r := Push(Replay(s));
    }

    /** One turn of the loop of Next. */
    method Step() returns (r: Result<Option<LexToken>>)
      requires Valid()
      modifies Repr
      ensures Valid() && fresh(Repr - old(Repr))
      ensures Pack(r, Abs()) == NextStep(Corrected, files, old(Abs()))
    {
      ghost var st0 := Abs();
      var p := ReadToken();
      if p.Fail? {
        return Fail(p.msg);
      }
      var x := p.value;
      assert Read(st0) == Ok((x, Abs()));
      if x.tok == Punct('#') {
        r := HashStep();
      } else if x.tok == Ident && x.text in macros {
        var e := InvokeMacro(macros[x.text]);
        if e.Fail? {
          return Fail(e.msg);
        }
        r := Ok(None);
      } else {
        beginningOfLine := x.tok == Newline;
        if Including() || x.tok == EOF {
          r := Ok(Some(x));
        } else {
          r := Ok(None);
        }
      }
    }

    /** The rest of Step once `#` has been read. */
    method HashStep() returns (r: Result<Option<LexToken>>)
      requires Valid()
      modifies Repr
      ensures Valid() && fresh(Repr - old(Repr))
      ensures !old(beginningOfLine) ==> r == Fail("'#' must be first item on line")
      ensures old(beginningOfLine) ==>
        Pack(r, Abs()) ==
          (var h := Preprocessor.Hash(Corrected, files, old(Abs()));
           if h.Fail? then Fail(h.msg) else Ok((None, h.value.1.(bol := h.value.0))))
    {
      if !beginningOfLine {
        return Fail("'#' must be first item on line");
      }
      var h := Hash();
      if h.Fail? {
        return Fail(h.msg);
      }
      beginningOfLine := h.value;
      r := Ok(None);
    }

    /** Next: the next token after directives and macro expansion. */
    method Next() returns (r: Result<LexToken>)
      requires Valid()
      modifies Repr
      ensures Valid() && fresh(Repr - old(Repr))
      ensures Pack(r, Abs()) == NextToken(Corrected, files, old(Abs()))
    {
      ghost var goal := NextToken(Corrected, files, Abs());
      while true
        invariant Valid() && fresh(Repr - old(Repr))
        invariant NextToken(Corrected, files, Abs()) == goal
        decreases budget
      {
        var s := Step();
        if s.Fail? {
          return Fail(s.msg);
        }
        if s.value.Some? {
          return Ok(s.value.value);
        }
      }
    }
  }

  /** The substitution loop of invokeMacro. */
  method SubstituteBody(body: seq<LexToken>, actuals: map<string, seq<LexToken>>)
    returns (tokens: seq<LexToken>)
    ensures tokens == Substitute(body, actuals)
  {
    tokens := [];
    var i := 0;
    while i < |body|
      invariant 0 <= i <= |body|
      invariant tokens == Substitute(body[..i], actuals)
    {
      SubstituteAppend(body[..i], [body[i]], actuals);
      assert body[..i + 1] == body[..i] + [body[i]];
      var tok := body[i];
      i := i + 1;
      if tok.tok != Ident {
        tokens := tokens + [tok];
        continue;
      }
      if tok.text !in actuals || actuals[tok.text] == [] {
        tokens := tokens + [tok];
        continue;
      }
      tokens := tokens + actuals[tok.text];
    }
    assert body[..i] == body;
  }

  /** tokenize: every token of a string (given as the scanner's output for it). */
  method Tokenize(raw: seq<Lexeme>) returns (tokens: seq<LexToken>)
    requires WellFormed(raw)
    ensures tokens == TokenStream(raw, 0)
  {
    var t := new Tokenizer("command line", raw);
    tokens := [];
    while true
      invariant t.Valid() && t.raw == raw
      invariant tokens + TokenStream(raw, t.pos) == TokenStream(raw, 0)
      decreases |raw| - t.pos
    {
      ghost var before := TokenStream(raw, t.pos);
      var tok := t.Next();
      if tok == EOF {
        assert before == [];
        assert tokens == tokens + before;
        break;
      }
      assert before == [LexToken(tok, t.Text())] + TokenStream(raw, t.pos);
      tokens := tokens + [LexToken(tok, t.Text())];
    }
  }

  /** The index of the first c in s, or -1 (strings.IndexRune). */
  function IndexOf(s: string, c: char): (i: int)
    ensures -1 <= i < |s|
    ensures i == -1 <==> c !in s
    ensures i >= 0 ==> s[i] == c && c !in s[..i]
  {
    if s == [] then -1
    else if s[0] == c then 0
    else
      var i := IndexOf(s[1..], c);
      assert s[1..][..if i < 0 then 0 else i] == s[1..1 + if i < 0 then 0 else i];
      if i == -1 then -1 else i + 1
  }

  /** A -D flag "name=value" or "name": the name and the value, "1" by default. Only an
      '=' after at least one character splits. */
  function SplitDefine(d: string): (r: (string, string))
    ensures r == (d, "1") || (r.0 + "=" + r.1 == d && r.0 != [] && '=' !in r.0)
    ensures '=' !in d ==> r == (d, "1")
    ensures d != [] && d[0] == '=' ==> r == (d, "1")
  {
    var i := IndexOf(d, '=');
    if i > 0 then
      assert d == d[..i] + "=" + d[i + 1..];
      (d[..i], d[i + 1..])
    else (d, "1")
  }

  /** predefine: each -D flag in turn defines a macro without arguments whose body is
      the tokens of its value; a name that is not exactly one identifier is a usage
      error. scan gives the scanner's output for a string. */
  ghost function Predefined(defines: seq<string>, scan: string -> seq<Lexeme>,
                            macros: map<string, Macro>): (r: Result<map<string, Macro>>)
    requires forall s :: WellFormed(scan(s))
    ensures r.Ok? ==> macros.Keys <= r.value.Keys
    decreases |defines|
  {
    if defines == [] then Ok(macros)
    else
      var (name, value) := SplitDefine(defines[0]);
      var t := TokenStream(scan(name), 0);
      if |t| != 1 || t[0].tok != Ident then Fail("usage")
      else Predefined(defines[1..], scan, macros[name := Macro(name, [], TokenStream(scan(value), 0))])
  }

  /** Every predefined macro is stored under its own name, takes no argument list, and
      its name scans as one identifier; the flags define exactly their names. */
  lemma {:induction false} PredefinedMacros(defines: seq<string>, scan: string -> seq<Lexeme>,
                                            macros: map<string, Macro>)
    requires forall s :: WellFormed(scan(s))
    requires forall n | n in macros :: macros[n].name == n && macros[n].args == []
    requires Predefined(defines, scan, macros).Ok?
    ensures var m := Predefined(defines, scan, macros).value;
      && (forall n | n in m :: m[n].name == n && m[n].args == [])
      && (forall n | n in m && n !in macros ::
            exists k | 0 <= k < |defines| :: SplitDefine(defines[k]).0 == n)
      && (forall k | 0 <= k < |defines| :: SplitDefine(defines[k]).0 in m)
    decreases |defines|
  {
    if defines != [] {
      var (name, value) := SplitDefine(defines[0]);
      var macros' := macros[name := Macro(name, [], TokenStream(scan(value), 0))];
      PredefinedMacros(defines[1..], scan, macros');
      var m := Predefined(defines, scan, macros).value;
      forall n | n in m && n !in macros
        ensures exists k | 0 <= k < |defines| :: SplitDefine(defines[k]).0 == n
      {
        if n != name {
          var k :| 0 <= k < |defines[1..]| && SplitDefine(defines[1..][k]).0 == n;
          assert SplitDefine(defines[k + 1]).0 == n;
        } else {
          assert SplitDefine(defines[0]).0 == n;
        }
      }
      forall k | 0 <= k < |defines| ensures SplitDefine(defines[k]).0 in m {
        if k > 0 {
          assert defines[k] == defines[1..][k - 1];
        }
      }
    }
  }

  /** predefine: the loop over the -D flags. */
  method Predefine(defines: seq<string>, scan: string -> seq<Lexeme>)
    returns (r: Result<map<string, Macro>>)
    requires forall s :: WellFormed(scan(s))
    ensures r == Predefined(defines, scan, map[])
  {
    var macros: map<string, Macro> := map[];
    var i := 0;
    while i < |defines|
      invariant 0 <= i <= |defines|
      invariant Predefined(defines[i..], scan, macros) == Predefined(defines, scan, map[])
    {
      var (name, value) := SplitDefine(defines[i]);
      var tokens := Tokenize(scan(name));
      if |tokens| != 1 || tokens[0].tok != Ident {
        return Fail("usage");
      }
      var body := Tokenize(scan(value));
      assert defines[i..][1..] == defines[i + 1..];
      macros := macros[name := Macro(name, [], body)];
      i := i + 1;
    }
    r := Ok(macros);
  }

  /** NewLexer: the predefined macros, then the named file as the only frame. The file
      system is the map files; a missing file is fatal. */
  method NewLexer(name: string, files: map<string, seq<Lexeme>>, defines: seq<string>,
                  scan: string -> seq<Lexeme>, budget: nat)
    returns (r: Result<Input>)
    requires forall n | n in files :: WellFormed(files[n])
    requires forall s :: WellFormed(scan(s))
    ensures r.Ok? <==> Predefined(defines, scan, map[]).Ok? && name in files
    ensures r.Ok? ==>
      && r.value.Valid() && fresh(r.value.Repr) && r.value.files == files
      && r.value.Abs() == PState([TokenStream(files[name], 0)],
                                 Predefined(defines, scan, map[]).value, [], true, budget)
  {
    var macros := Predefine(defines, scan);
    if macros.Fail? {
      return Fail(macros.msg);
    }
    if name !in files {
      return Fail("asm: open " + name);
    }
    var input := new Input(name, files, macros.value, budget);
    r := Ok(input);
  }
}
