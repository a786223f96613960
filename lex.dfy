/** The token layer of the assembler: tokens, the tokenizer that post-processes the
    output of the underlying text scanner, the replay of captured tokens (Slice) and
    the stack of token sources that resumes the next source down when the top one is
    exhausted. The text scanner itself is not modelled: its output is an abstract
    sequence of lexemes (token kind, literal text, whether white space preceded it). */
module Lex {
  import opened Results

  /** A token: one of the classes the text scanner reports, one of the four composite
      operators the assembler adds, or a single character. */
  datatype Token =
    | EOF | Ident | Int | Float | Char | String | RawString | Comment
    | LSH  // <<
    | RSH  // >>
    | ARR  // ->
    | ROT  // @>
    | Punct(c: char)

  /** The rune value the source gives each token: the scanner's negative class codes,
      -1000 and below for the composite operators, the character itself otherwise. */
  function Code(t: Token): int {
    match t
    case EOF => -1
    case Ident => -2
    case Int => -3
    case Float => -4
    case Char => -5
    case String => -6
    case RawString => -7
    case Comment => -8
    case LSH => -1000
    case RSH => -1001
    case ARR => -1002
    case ROT => -1003
    case Punct(c) => c as int
  }

  /** No two tokens share a code: the composite operators collide neither with each other
      nor with a scanner class nor with any character. */
  lemma CodeInjective(a: Token, b: Token)
    ensures Code(a) == Code(b) ==> a == b
  {
  }

  /** A token together with the text that produced it. */
  datatype LexToken = LexToken(tok: Token, text: string)

  const NewlineToken: Token := Punct('\n')

  predicate IsLetter(ch: char) {
    ('a' <= ch <= 'z') || ('A' <= ch <= 'Z')
  }

  predicate IsDigit(ch: char) {
    '0' <= ch <= '9'
  }

  /** May ch be the i'th character of an identifier? Letters, underscore, the middle dot
      and the division slash anywhere; digits anywhere but first. The Unicode letter and
      digit classes are the parameters isLetter and isDigit: they hold at least on the
      ASCII letters and digits, and no digit is a letter. */
  function IsIdentRune(isLetter: char -> bool, isDigit: char -> bool, ch: char, i: int): (r: bool)
    requires forall c: char :: IsLetter(c) ==> isLetter(c)
    requires forall c: char :: IsDigit(c) ==> isDigit(c)
    requires forall c: char :: isDigit(c) ==> !isLetter(c)
    ensures isLetter(ch) || ch == '_' || ch == '·' || ch == '∕' ==> r
    ensures !isLetter(ch) && ch != '_' && ch != '·' && ch != '∕' ==> (r <==> i > 0 && isDigit(ch))
    ensures IsDigit(ch) ==> (r <==> i > 0)
    ensures IsLetter(ch) ==> r
  {
    if isLetter(ch) then true
    else match ch
      case '_' => true  // underscore
      case '·' => true  // middle dot, the period in runtime·exit
      case '∕' => true  // division slash, the slash in runtime∕debug
      case _ => i > 0 && isDigit(ch)
  }

  /** A non-empty run of decimal digits (the only numerals this model reads). */
  predicate IsDecimal(s: string) {
    |s| > 0 && forall k | 0 <= k < |s| :: IsDigit(s[k])
  }

  /** The value of a run of decimal digits, most significant first. */
  function DecimalValue(s: string): nat
    requires forall k | 0 <= k < |s| :: IsDigit(s[k])
    decreases |s|
  {
    if s == [] then 0
    else 10 * DecimalValue(s[..|s| - 1]) + DigitValue(s[|s| - 1])
  }

  function DigitValue(c: char): nat
    requires IsDigit(c)
  {
    c as int - '0' as int
  }

  /** One item of the underlying scanner's output: its class, its literal text and
      whether white space (other than newline) came before it. */
  datatype Lexeme = Lexeme(tok: Token, text: string, spaced: bool)

  /** The scanner reports end of input only once its input is exhausted. */
  ghost predicate WellFormed(raw: seq<Lexeme>) {
    forall k | 0 <= k < |raw| :: raw[k].tok != EOF
  }

  function CountNewlines(s: string): nat {
    if s == [] then 0 else (if s[0] == '\n' then 1 else 0) + CountNewlines(s[1..])
  }

  /** The newlines inside the comments among these lexemes. */
  function CommentNewlines(lexemes: seq<Lexeme>): nat {
    if lexemes == [] then 0
    else (if lexemes[0].tok == Comment then CountNewlines(lexemes[0].text) else 0)
         + CommentNewlines(lexemes[1..])
  }

  /** Every line break the lexemes carry: those inside comments and the newline tokens. */
  function RawNewlines(lexemes: seq<Lexeme>): nat {
    if lexemes == [] then 0
    else (if lexemes[0].tok == Comment then CountNewlines(lexemes[0].text)
          else if lexemes[0].tok == NewlineToken then 1 else 0)
         + RawNewlines(lexemes[1..])
  }

  lemma {:induction false} RawNewlinesAppend(a: seq<Lexeme>, b: seq<Lexeme>)
    ensures RawNewlines(a + b) == RawNewlines(a) + RawNewlines(b)
  {
    if a == [] {
      assert a + b == b;
    } else {
      assert (a + b)[1..] == a[1..] + b;
      RawNewlinesAppend(a[1..], b);
    }
  }

  /** The first position at or after pos that does not hold a comment. */
  function SkipComments(raw: seq<Lexeme>, pos: nat): (j: nat)
    requires pos <= |raw|
    ensures pos <= j <= |raw|
    ensures forall k :: pos <= k < j ==> raw[k].tok == Comment
    ensures j < |raw| ==> raw[j].tok != Comment
    decreases |raw| - pos
  {
    if pos < |raw| && raw[pos].tok == Comment then SkipComments(raw, pos + 1) else pos
  }

  /** Does the scanner's Peek at pos see the character c (the next lexeme is that
      character with no space before it)? */
  predicate PeekIs(raw: seq<Lexeme>, pos: nat, c: char) {
    pos < |raw| && !raw[pos].spaced && raw[pos].tok == Punct(c)
  }

  /** The composite operator the token at j starts, if the scanner's Peek after it sees
      the second character of one. */
  function FuseAt(raw: seq<Lexeme>, j: nat): (f: Option<Token>)
    requires j < |raw|
    ensures f.Some? ==> j + 1 < |raw| && raw[j].tok.Punct? && raw[j + 1].tok.Punct?
  {
    match raw[j].tok
    case Punct('-') => if PeekIs(raw, j + 1, '>') then Some(ARR) else None
    case Punct('@') => if PeekIs(raw, j + 1, '>') then Some(ROT) else None
    case Punct('<') => if PeekIs(raw, j + 1, '<') then Some(LSH) else None
    case Punct('>') => if PeekIs(raw, j + 1, '>') then Some(RSH) else None
    case _ => None
  }

  /** The text the tokenizer reports for token t when the scanner's own text was raw. */
  function TokenText(t: Token, raw: string): string {
    match t
    case LSH => "<<"
    case RSH => ">>"
    case ARR => "->"
    case ROT => "@>"
    case _ => raw
  }

  /** What one call of Tokenizer.Next yields from scanner position pos: the token, the
      text it reports, the next scanner position and how far the line number advances. */
  datatype Scan = Scan(tok: Token, text: string, next: nat, newlines: nat)

  function NextScan(raw: seq<Lexeme>, pos: nat): (s: Scan)
    requires pos <= |raw|
    ensures pos <= s.next <= |raw|
    ensures s.tok != Comment
    ensures WellFormed(raw) ==> (s.tok == EOF <==> SkipComments(raw, pos) == |raw|)
    ensures s.tok != EOF ==> pos < s.next
  {
    var j := SkipComments(raw, pos);
    var n := CommentNewlines(raw[pos..j]);
    if j == |raw| then Scan(EOF, "", j, n)
    else
      var t := raw[j].tok;
      var fused := FuseAt(raw, j);
      if fused.Some? then Scan(fused.value, TokenText(fused.value, raw[j].text), j + 2, n)
      else Scan(t, TokenText(t, raw[j].text), j + 1, n + (if t == NewlineToken then 1 else 0))
  }

  /** Every token a tokenizer at scanner position pos has still to deliver, in order,
      each with the text it reports. */
  ghost function TokenStream(raw: seq<Lexeme>, pos: nat): seq<LexToken>
    requires pos <= |raw|
    decreases |raw| - pos
  {
    var s := NextScan(raw, pos);
    if s.tok == EOF then [] else [LexToken(s.tok, s.text)] + TokenStream(raw, s.next)
  }

  /** The tokenizer never delivers a comment, nor an end of input before its end. */
  lemma {:induction false} TokenStreamClean(raw: seq<Lexeme>, pos: nat)
    requires pos <= |raw|
    ensures forall k | 0 <= k < |TokenStream(raw, pos)| ::
      TokenStream(raw, pos)[k].tok != Comment && TokenStream(raw, pos)[k].tok != EOF
    decreases |raw| - pos
  {
    var s := NextScan(raw, pos);
    if s.tok != EOF {
      TokenStreamClean(raw, s.next);
    }
  }

  /** The line advance over the whole remaining input: the sum of what each call of Next
      adds to the line number until the end of input. */
  ghost function LineAdvance(raw: seq<Lexeme>, pos: nat): nat
    requires pos <= |raw|
    decreases |raw| - pos
  {
    var s := NextScan(raw, pos);
    if s.tok == EOF then s.newlines else s.newlines + LineAdvance(raw, s.next)
  }

  lemma {:induction false} CommentNewlinesAreRaw(lexemes: seq<Lexeme>)
    requires forall k | 0 <= k < |lexemes| :: lexemes[k].tok == Comment
    ensures CommentNewlines(lexemes) == RawNewlines(lexemes)
  {
    if lexemes != [] {
      CommentNewlinesAreRaw(lexemes[1..]);
    }
  }

  /** One call of Next advances the line number by exactly the newlines of the lexemes
      it consumes. */
  lemma {:induction false} ScanNewlinesAreRaw(raw: seq<Lexeme>, pos: nat)
    requires pos <= |raw|
    ensures NextScan(raw, pos).newlines == RawNewlines(raw[pos..NextScan(raw, pos).next])
  {
    var s := NextScan(raw, pos);
    var j := SkipComments(raw, pos);
    CommentNewlinesAreRaw(raw[pos..j]);
    if j < |raw| {
      TokenNewlines(raw, j);
      assert raw[pos..s.next] == raw[pos..j] + raw[j..s.next];
      RawNewlinesAppend(raw[pos..j], raw[j..s.next]);
    }
  }

  /** The lexemes one token consumes carry a line break only when that token is a
      newline; a fused operator is two punctuation lexemes. */
  lemma TokenNewlines(raw: seq<Lexeme>, j: nat)
    requires j < |raw| && raw[j].tok != Comment
    ensures var k := if FuseAt(raw, j).Some? then j + 2 else j + 1;
      k <= |raw| && RawNewlines(raw[j..k]) == (if k == j + 1 && raw[j].tok == NewlineToken then 1 else 0)
  {
    if FuseAt(raw, j).Some? {
      assert raw[j..j + 2] == [raw[j]] + [raw[j + 1]];
      RawNewlinesAppend([raw[j]], [raw[j + 1]]);
    } else {
      assert raw[j..j + 1] == [raw[j]];
    }
  }

  /** Line tracking is exact: reading a well-formed input to its end advances the line
      number by every newline inside a comment plus every newline token, and a fused
      operator never swallows one. */
  lemma {:induction false} LineAdvanceCountsEveryNewline(raw: seq<Lexeme>, pos: nat)
    requires pos <= |raw| && WellFormed(raw)
    ensures LineAdvance(raw, pos) == RawNewlines(raw[pos..])
    decreases |raw| - pos
  {
    var s := NextScan(raw, pos);
    ScanNewlinesAreRaw(raw, pos);
    if s.tok == EOF {
      assert raw[pos..s.next] == raw[pos..];
    } else {
      LineAdvanceCountsEveryNewline(raw, s.next);
      assert raw[pos..] == raw[pos..s.next] + raw[s.next..];
      RawNewlinesAppend(raw[pos..s.next], raw[s.next..]);
    }
  }

  /** The four fusions: '-' '>', '@' '>', '<' '<' and '>' '>' written together become
      one composite token whose text is the two characters. */
  lemma FusesComposites(raw: seq<Lexeme>, pos: nat, first: char, second: char)
    requires pos + 1 < |raw|
    requires raw[pos] == Lexeme(Punct(first), [first], raw[pos].spaced)
    requires raw[pos + 1] == Lexeme(Punct(second), [second], false)
    requires [first, second] in ["->", "@>", "<<", ">>"]
    ensures var s := NextScan(raw, pos);
      && s.next == pos + 2 && s.text == [first, second]
      && s.tok == (match [first, second] case "->" => ARR case "@>" => ROT case "<<" => LSH case _ => RSH)
  {
  }

  /** White space between the two characters keeps them apart. */
  lemma SpaceSeparates(raw: seq<Lexeme>, pos: nat)
    requires pos + 1 < |raw|
    requires raw[pos] == Lexeme(Punct('-'), "-", raw[pos].spaced)
    requires raw[pos + 1] == Lexeme(Punct('>'), ">", true)
    ensures NextScan(raw, pos) == Scan(Punct('-'), "-", pos + 1, 0)
  {
  }

  /** The lowest level token source: the scanner's output, post-processed. */
  class Tokenizer {
    const raw: seq<Lexeme>
    var pos: nat           // scanner position: index of the next lexeme
    var tok: Token         // the last token returned
    var scannedText: string  // the scanner's text of the last lexeme it scanned
    var line: int
    var fileName: string

    ghost predicate Valid()
      reads this
    {
      pos <= |raw| && WellFormed(raw)
    }

    constructor (name: string, raw: seq<Lexeme>)
      requires WellFormed(raw)
      ensures Valid() && this.raw == raw && pos == 0
      ensures line == 1 && fileName == name && tok == EOF
    {
      this.raw := raw;
      pos := 0;
      tok := EOF;
      scannedText := "";
      line := 1;
      fileName := name;
    }

    /** The text of the most recent token: the composite operators report their two
        characters, everything else the scanner's text. */
    function Text(): string
      reads this
    {
      TokenText(tok, scannedText)
    }

    ghost function Pending(): seq<LexToken>
      reads this
      requires Valid()
    {
      TokenStream(raw, pos)
    }

    method SetPos(line: int, file: string)
      modifies this`line, this`fileName
      ensures this.line == line && fileName == file
    {
      this.line := line;
      fileName := file;
    }

    /** The comments before the next token, counting the newlines inside them. */
    method SkipCommentLexemes()
      requires Valid()
      modifies this`pos, this`line
      ensures Valid() && pos == SkipComments(raw, old(pos))
      ensures line == old(line) + CommentNewlines(raw[old(pos)..pos])
    {
      while pos < |raw| && raw[pos].tok == Comment
        invariant old(pos) <= pos <= |raw|
        invariant SkipComments(raw, old(pos)) == SkipComments(raw, pos)
        invariant line == old(line) + CommentNewlines(raw[old(pos)..pos])
        decreases |raw| - pos
      {
        assert raw[old(pos)..pos + 1] == raw[old(pos)..pos] + [raw[pos]];
        CommentNewlinesAppend(raw[old(pos)..pos], [raw[pos]]);
        line := line + CountNewlines(raw[pos].text);
        pos := pos + 1;
      }
    }

    /** Next: skip comments, counting their newlines; count a newline token; fuse the
        composite operators by one character of lookahead. */
    method Next() returns (t: Token)
      requires Valid()
      modifies this`pos, this`tok, this`scannedText, this`line
      ensures Valid()
      ensures var s := NextScan(raw, old(pos));
        && t == s.tok && tok == t && pos == s.next && Text() == s.text
        && line == old(line) + s.newlines
    {
      SkipCommentLexemes();
      if pos == |raw| {
        tok, scannedText := EOF, "";
        return EOF;
      }
      tok, scannedText := raw[pos].tok, raw[pos].text;
      pos := pos + 1;
      match tok {
        case Punct('\n') =>
          line := line + 1;
        case Punct('-') =>
          if PeekIs(raw, pos, '>') {
            pos := pos + 1;
            tok := ARR;
          }
        case Punct('@') =>
          if PeekIs(raw, pos, '>') {
            pos := pos + 1;
            tok := ROT;
          }
        case Punct('<') =>
          if PeekIs(raw, pos, '<') {
            pos := pos + 1;
            tok := LSH;
          }
        case Punct('>') =>
          if PeekIs(raw, pos, '>') {
            pos := pos + 1;
            tok := RSH;
          }
        case _ =>
      }
      t := tok;
    }
  }

  lemma {:induction false} CommentNewlinesAppend(a: seq<Lexeme>, b: seq<Lexeme>)
    ensures CommentNewlines(a + b) == CommentNewlines(a) + CommentNewlines(b)
  {
    if a == [] {
      assert a + b == b;
    } else {
      assert (a + b)[1..] == a[1..] + b;
      CommentNewlinesAppend(a[1..], b);
    }
  }

  /** A token source that replays captured tokens (a macro expansion). */
  class Slice {
    const tokens: seq<LexToken>
    var fileName: string
    var line: int
    var pos: int   // index of the last token returned; -1 before the first

    ghost predicate Valid()
      reads this
    {
      pos >= -1
    }

    constructor (fileName: string, line: int, tokens: seq<LexToken>)
      ensures Valid() && this.tokens == tokens && pos == -1
      ensures this.fileName == fileName && this.line == line
    {
      this.tokens := tokens;
      this.fileName := fileName;
      this.line := line;
      pos := -1;
    }

    ghost function Pending(): seq<LexToken>
      reads this
      requires Valid()
    {
      if pos + 1 < |tokens| then tokens[pos + 1..] else []
    }

    /** Next yields the captured tokens in order, then EOF on every later call. */
    method Next() returns (t: Token)
      requires Valid()
      modifies this`pos
      ensures Valid() && pos == old(pos) + 1
      ensures var p := old(Pending());
        if p == [] then t == EOF && Pending() == []
        else t == p[0].tok && 0 <= pos < |tokens| && Text() == p[0].text && Pending() == p[1..]
    {
      pos := pos + 1;
      if pos >= |tokens| {
        return EOF;
      }
      t := tokens[pos].tok;
    }

    /** The text of the last token; the source indexes out of range after EOF. */
    function Text(): string
      reads this
      requires 0 <= pos < |tokens|
    {
      tokens[pos].text
    }

    method SetPos(line: int, file: string)
      modifies this`line, this`fileName
      ensures this.line == line && fileName == file
    {
      this.line := line;
      fileName := file;
    }
  }

  /** A frame of the input stack: a tokenizer over a file or a replay of tokens. */
  datatype Reader = File(t: Tokenizer) | Replay(s: Slice) {
    function Obj(): object {
      match this
      case File(t) => t
      case Replay(s) => s
    }
  }

  ghost predicate ReaderValid(r: Reader)
    reads r.Obj()
  {
    match r
    case File(t) => t.Valid()
    case Replay(s) => s.Valid()
  }

  /** Moves a frame's reported position; what it delivers stays the same. */
  method SetReaderPos(r: Reader, line: int, file: string)
    requires ReaderValid(r)
    modifies r.Obj()
    ensures ReaderValid(r) && PendingOf(r) == old(PendingOf(r))
    ensures match r
      case File(t) => t.line == line && t.fileName == file
      case Replay(s) => s.line == line && s.fileName == file
  {
    match r {
      case File(t) => t.SetPos(line, file);
      case Replay(s) => s.SetPos(line, file);
    }
  }

  ghost function PendingOf(r: Reader): seq<LexToken>
    reads r.Obj()
    requires ReaderValid(r)
  {
    match r
    case File(t) => t.Pending()
    case Replay(s) => s.Pending()
  }

  ghost predicate FrameTextDefined(r: Reader)
    reads r.Obj()
  {
    match r
    case File(_) => true
    case Replay(s) => 0 <= s.pos < |s.tokens|
  }

  function FrameText(r: Reader): string
    reads r.Obj()
    requires FrameTextDefined(r)
  {
    match r
    case File(t) => t.Text()
    case Replay(s) => s.Text()
  }

  /** Reading one token from a frame takes the first of its pending tokens, or gives EOF
      once none is left (a tokenizer then reports empty text). */
  method ReadFrame(r: Reader) returns (t: Token)
    requires ReaderValid(r)
    modifies r.Obj()
    ensures ReaderValid(r)
    ensures var p := old(PendingOf(r));
      if p == [] then t == EOF && PendingOf(r) == [] && (r.File? ==> FrameText(r) == "")
      else t == p[0].tok && FrameTextDefined(r) && FrameText(r) == p[0].text
           && PendingOf(r) == p[1..]
  {
    match r {
      case File(tk) =>
        t := tk.Next();
        if t == EOF {
          assert NextScan(tk.raw, tk.pos).tok == EOF;
        }
      case Replay(sl) =>
        t := sl.Next();
    }
  }

  /** The objects behind the frames. */
  ghost function Objs(tr: seq<Reader>): set<object>
    decreases |tr|
  {
    if tr == [] then {} else Objs(tr[..|tr| - 1]) + {tr[|tr| - 1].Obj()}
  }

  /** Every frame is valid and no object backs two frames. */
  ghost predicate FramesValid(tr: seq<Reader>)
    reads Objs(tr)
    decreases |tr|
  {
    tr == [] ||
    (FramesValid(tr[..|tr| - 1]) && ReaderValid(tr[|tr| - 1])
     && tr[|tr| - 1].Obj() !in Objs(tr[..|tr| - 1]))
  }

  /** The top frame on its own and the frames below it. */
  lemma TopFrame(tr: seq<Reader>)
    requires |tr| >= 1
    ensures FramesValid(tr) <==>
      FramesValid(tr[..|tr| - 1]) && ReaderValid(tr[|tr| - 1]) && tr[|tr| - 1].Obj() !in Objs(tr[..|tr| - 1])
    ensures Objs(tr) == Objs(tr[..|tr| - 1]) + {tr[|tr| - 1].Obj()}
    ensures FramesValid(tr) ==> FramesOf(tr) == FramesOf(tr[..|tr| - 1]) + [PendingOf(tr[|tr| - 1])]
  {
  }

  /** The tokens each frame still holds, bottom first. */
  ghost function FramesOf(tr: seq<Reader>): (f: seq<seq<LexToken>>)
    reads Objs(tr)
    requires FramesValid(tr)
    ensures |f| == |tr|
    decreases |tr|
  {
    if tr == [] then [] else FramesOf(tr[..|tr| - 1]) + [PendingOf(tr[|tr| - 1])]
  }

  /** Everything a stack of frames will deliver: the top frame (the last) first. */
  function Flatten(frames: seq<seq<LexToken>>): seq<LexToken>
    decreases |frames|
  {
    if frames == [] then [] else frames[|frames| - 1] + Flatten(frames[..|frames| - 1])
  }

  const EndToken: LexToken := LexToken(EOF, "")

  /** Reading the top frame: its first token and the frames after it, or EOF when the
      top frame is exhausted. */
  function TopRead(frames: seq<seq<LexToken>>): (r: (LexToken, seq<seq<LexToken>>))
    requires frames != []
    ensures |r.1| == |frames|
  {
    var top := frames[|frames| - 1];
    if top == [] then (EndToken, frames)
    else (top[0], frames[|frames| - 1 := top[1..]])
  }

  /** How many frames remain once the exhausted frames on top (those whose next read
      gives EOF) are popped; the bottom frame is never popped. */
  function Remaining(frames: seq<seq<LexToken>>, n: nat): (k: nat)
    requires 1 <= n <= |frames|
    ensures 1 <= k <= n
  {
    if n == 1 || (frames[n - 1] != [] && frames[n - 1][0].tok != EOF) then n
    else Remaining(frames, n - 1)
  }

  /** Remaining looks only at the frames below n. */
  lemma {:induction false} RemainingPrefix(frames: seq<seq<LexToken>>, n: nat, m: nat)
    requires 1 <= m <= n <= |frames|
    ensures Remaining(frames, m) == Remaining(frames[..n], m)
  {
    if m > 1 {
      RemainingPrefix(frames, n, m - 1);
    }
  }

  /** Popping an exhausted top frame does not change what Next does. */
  lemma AdvancePop(frames: seq<seq<LexToken>>)
    requires |frames| > 1 && TopRead(frames).0.tok == EOF
    ensures Advance(frames) == Advance(frames[..|frames| - 1])
  {
    var n := |frames|;
    RemainingPrefix(frames, n - 1, n - 1);
    assert frames[..n - 1][..Remaining(frames, n - 1)] == frames[..Remaining(frames, n - 1)];
  }

  /** Next reads the top frame when it is not exhausted, or when it is the only one. */
  lemma AdvanceTop(frames: seq<seq<LexToken>>)
    requires frames != [] && (TopRead(frames).0.tok != EOF || |frames| == 1)
    ensures Advance(frames) == TopRead(frames)
  {
    assert frames[..|frames|] == frames;
  }

  /** Stack.Next on the pending tokens of the frames: read the top frame; while that
      gives EOF and more than one frame remains, pop it and read the next one down. */
  function Advance(frames: seq<seq<LexToken>>): (r: (LexToken, seq<seq<LexToken>>))
    ensures frames != [] ==> 1 <= |r.1| <= |frames|
  {
    if frames == [] then (EndToken, frames)
    else TopRead(frames[..Remaining(frames, |frames|)])
  }

  /** No end-of-input token among these. */
  predicate Clean(tokens: seq<LexToken>) {
    forall k | 0 <= k < |tokens| :: tokens[k].tok != EOF
  }

  predicate AllClean(frames: seq<seq<LexToken>>) {
    forall k | 0 <= k < |frames| :: Clean(frames[k])
  }

  /** Reading frames one token at a time reads the flattened stream in order: Advance
      yields its first token and leaves the rest, or EOF once it is empty. */
  lemma {:induction false} AdvanceReadsStream(frames: seq<seq<LexToken>>)
    requires AllClean(frames)
    ensures var (x, f) := Advance(frames);
      && AllClean(f)
      && (Flatten(frames) == [] ==> x == EndToken && Flatten(f) == [])
      && (Flatten(frames) != [] ==> x == Flatten(frames)[0] && Flatten(f) == Flatten(frames)[1..])
    decreases |frames|
  {
    if frames != [] {
      var top := frames[|frames| - 1];
      var below := frames[..|frames| - 1];
      assert Flatten(frames) == top + Flatten(below);
      if top != [] {
        AdvanceTop(frames);
        var f := below + [top[1..]];
        assert f[..|f| - 1] == below;
        assert Flatten(f) == top[1..] + Flatten(below);
      } else if |frames| > 1 {
        AdvancePop(frames);
        AdvanceReadsStream(below);
      } else {
        AdvanceTop(frames);
        assert below == [];
      }
    }
  }

  /** A tokenizer never holds an end-of-input token. */
  lemma FileClean(t: Tokenizer)
    requires t.Valid()
    ensures Clean(t.Pending())
  {
    TokenStreamClean(t.raw, t.pos);
  }

  /** A stack of token sources. As the top one reaches EOF it is popped and reading
      resumes with the one below; the bottom one is never popped. */
  class Stack {
    var tr: seq<Reader>
    ghost var Repr: set<object>
    /** The tokens each frame will still deliver, bottom first. */
    ghost var frames: seq<seq<LexToken>>

    ghost predicate Valid()
      reads this, Repr
    {
      Repr == Objs(tr) && this !in Repr && FramesValid(tr) && frames == FramesOf(tr)
    }

    ghost function Frames(): seq<seq<LexToken>>
      reads this
    {
      frames
    }

    constructor ()
      ensures Valid() && tr == [] && Repr == {}
    {
      tr := [];
      Repr := {};
      frames := [];
    }

    method Push(r: Reader)
      requires Valid() && ReaderValid(r) && r.Obj() !in Repr && r.Obj() != this
      modifies this
      ensures Valid() && tr == old(tr) + [r] && Repr == old(Repr) + {r.Obj()}
      ensures Frames() == old(Frames()) + [PendingOf(r)]
    {
      var below := tr;
      tr := tr + [r];
      Repr := Repr + {r.Obj()};
      assert tr[..|tr| - 1] == below;
      TopFrame(tr);
      frames := FramesOf(tr);
    }

    /** Can the text of the last token be asked for? (A replay frame has none after EOF.) */
    ghost predicate TextDefined()
      reads this, Repr
      requires Valid()
    {
      |tr| >= 1 && FrameTextDefined(tr[|tr| - 1])
    }

    function Text(): string
      reads this, Repr
      requires Valid() && TextDefined()
    {
      FrameText(tr[|tr| - 1])
    }

    function Line(): int
      reads this, Repr
      requires Valid() && |tr| >= 1
    {
      match tr[|tr| - 1]
      case File(t) => t.line
      case Replay(s) => s.line
    }

    function FileName(): string
      reads this, Repr
      requires Valid() && |tr| >= 1
    {
      match tr[|tr| - 1]
      case File(t) => t.fileName
      case Replay(s) => s.fileName
    }

    /** SetPos changes where the top frame says it is, not what it delivers. */
    method SetPos(line: int, file: string)
      requires Valid() && |tr| >= 1
      modifies Repr, this`frames
      ensures Valid() && tr == old(tr) && Repr == old(Repr)
      ensures Frames() == old(Frames())
      ensures Line() == line && FileName() == file
    {
      var top := tr[|tr| - 1];
      TopFrame(tr);
      SetReaderPos(top, line, file);
      TopFrame(tr);
      frames := FramesOf(tr);
    }

    /** Drops the top frame, whose tokens are exhausted. */
    method Pop()
      requires Valid() && |tr| > 1
      modifies this`tr, this`Repr, this`frames
      ensures Valid() && tr == old(tr[..|tr| - 1]) && Repr < old(Repr)
      ensures Frames() == old(Frames()[..|tr| - 1])
    {
      TopFrame(tr);
      var top := tr[|tr| - 1];
      tr := tr[..|tr| - 1];
      Repr := Repr - {top.Obj()};
      frames := FramesOf(tr);
    }

    /** Reads one token from the top frame. */
    method ReadTop() returns (t: Token)
      requires Valid() && |tr| >= 1
      modifies Repr, this`frames
      ensures Valid() && tr == old(tr) && Repr == old(Repr)
      ensures var (x, f) := TopRead(old(Frames()));
        && t == x.tok && Frames() == f
        && (x != EndToken || tr[|tr| - 1].File? ==> TextDefined() && Text() == x.text)
    {
      var top := tr[|tr| - 1];
      TopFrame(tr);
      t := ReadFrame(top);
      TopFrame(tr);
      frames := FramesOf(tr);
    }

    /** Drops the exhausted top frame and reads the frame below it. */
    method PopRead() returns (t: Token)
      requires Valid() && |tr| > 1
      modifies Repr, this`tr, this`Repr, this`frames
      ensures Valid() && tr == old(tr[..|tr| - 1]) && Repr <= old(Repr)
      ensures var (x, f) := TopRead(old(Frames()[..|tr| - 1]));
        && t == x.tok && Frames() == f
        && (x != EndToken || tr[|tr| - 1].File? ==> TextDefined() && Text() == x.text)
    {
      Pop();
      t := ReadTop();
    }

    /** Next: the first token of the stream, popping exhausted frames while more than
        one remains; EOF, with only the bottom frame left, once everything is read.
        The source re-enters Next after each pop; the loop does the same. */
    method Next() returns (t: Token)
      requires Valid() && |tr| >= 1
      modifies Repr
      modifies this`tr, this`Repr, this`frames
      ensures Valid() && 1 <= |tr| <= old(|tr|) && tr[0] == old(tr[0]) && Repr <= old(Repr)
      ensures var (x, f) := Advance(old(Frames()));
        && t == x.tok && Frames() == f
        && (x != EndToken || tr[0].File? ==> TextDefined() && Text() == x.text)
    {
      ghost var adv := Advance(Frames());
      ghost var cur := Frames();
      t := ReadTop();
      while t == EOF && |tr| > 1
        invariant Valid() && 1 <= |tr| <= old(|tr|) && tr[0] == old(tr[0]) && Repr <= old(Repr)
        invariant |cur| == |tr| && Advance(cur) == adv
        invariant t == TopRead(cur).0.tok && Frames() == TopRead(cur).1
        invariant TopRead(cur).0 != EndToken || tr[|tr| - 1].File? ==>
          TextDefined() && Text() == TopRead(cur).0.text
        decreases |tr|
      {
        AdvancePop(cur);
        assert Frames()[..|tr| - 1] == cur[..|tr| - 1];
        cur := cur[..|tr| - 1];
        t := PopRead();
      }
      AdvanceTop(cur);
    }
  }
}
