/** Printing whole programs: every program the compiler can read has a text, and
    reading that text gives the program back. */
module Rendering {
  import opened Words
  import opened Tpp
  import opened Codegen
  import opened Grammar
  import opened Printing
  import opened Statements
  import opened Layout
  import opened Accepted

  // ----- printable lines -----

  /** A name as the reader takes it: up to a separator, blanks before it gone. */
  predicate IsWritten(name: string) {
    NoSeparators(name) && EatBlanks(name) == name
  }

  predicate IsTarget(fn: string, x: string) {
    |x| > |fn| && x == fn + "." + x[|fn| + 1..] && IsWritten(x[|fn| + 1..]) && !IsKeyword(x[|fn| + 1..])
  }

  /** The context a line leaves behind. */
  function AfterLine(cx: Context, x: Line): Context {
    match x
    case Plain(s) => AfterStmt(cx, s)
    case FunctionLine(f, n) => cx.(fn := Some(f), arity := cx.arity[f := n])
    case EndfLine => cx.(fn := None)
    case _ => cx
  }

  function AfterStmt(cx: Context, s: Stmt): Context {
    match s
    case Let(x, _) => cx.(vars := cx.vars + {x})
    case If(_, t, _) => if t.Let? then cx.(vars := cx.vars + {t.x}) else cx
    case _ => cx
  }

  predicate IsSimple(cx: Context, s: Stmt)
    requires cx.fn.Some?
  {
    match s
    case Let(x, e) => IsTarget(cx.fn.value, x) && IsExpr(ScopeOf(AfterStmt(cx, s)), e)
    case Return(e) => IsExpr(ScopeOf(cx), e)
    case Do(f, es) => IsFactor(ScopeOf(cx), Invoke(f, es))
    case _ => false
  }

  predicate IsLine(cx: Context, x: Line) {
    match x
    case Plain(If(c, t, _)) => cx.fn.Some? && IsExpr(ScopeOf(cx), c) && IsSimple(cx, t)
    case Plain(s) => cx.fn.Some? && IsSimple(cx, s)
    case WhileLine(c) => cx.fn.Some? && IsExpr(ScopeOf(cx), c)
    case FunctionLine(f, n) => f !in cx.arity && IsWritten(f) && n < 0x1_0000_0000
    case _ => cx.fn.Some?
  }

  /** Where a line goes: an `if` on the line whose number it carries. */
  function LineFor(x: Line, line: nat): nat {
    if IfNumber(x).Some? then IfNumber(x).value else line
  }

  /** Lines that can stand in a text from source line `line` on. */
  predicate AreLines(cx: Context, line: nat, lines: seq<Line>)
    decreases |lines|
  {
    lines == [] ||
    (&& IsLine(cx, lines[0]) && line <= LineFor(lines[0], line)
     && AreLines(AfterLine(cx, lines[0]), LineFor(lines[0], line) + 1, lines[1..]))
  }

  // ----- the printer -----

  function Declaring(sc: Scope, x: string): Scope { sc.(vars := sc.vars + {x}) }

  function PrintStmt(sc: Scope, s: Stmt, rest: string): string {
    match s
    case Let(x, e) => "let" + (" " + (if |x| > |sc.fn| then x[|sc.fn| + 1..] else x) + (" = " + Print(Declaring(sc, x), e, rest)))
    case Return(e) => "return" + (" " + Print(sc, e, rest))
    case Do(f, es) => Print(sc, Invoke(f, es), rest)
    case If(c, t, _) => "if" + ("(" + Print(sc, c, ")" + (" " + PrintStmt(sc, t, rest))))
    case While(_, _) => rest
  }

  function PrintLine(cx: Context, x: Line, rest: string): string {
    match x
    case Plain(s) => if cx.fn.Some? then PrintStmt(ScopeOf(cx), s, rest) else rest
    case WhileLine(c) => if cx.fn.Some? then "while" + ("(" + Print(ScopeOf(cx), c, ")" + rest)) else rest
    case EndwLine => "endw" + rest
    case FunctionLine(f, n) => "function" + (" " + (f + ("(" + PrintNumber(n, ")" + rest))))
    case EndfLine => "endf" + rest
  }

  function Newlines(n: nat, rest: string): string {
    if n == 0 then rest else "\n" + Newlines(n - 1, rest)
  }

  function PrintLines(cx: Context, line: nat, lines: seq<Line>): string
    decreases |lines|
  {
    if lines == [] then ""
    else
      var here := LineFor(lines[0], line);
      Newlines(if here >= line then here - line else 0,
               PrintLine(cx, lines[0], "\n" + PrintLines(AfterLine(cx, lines[0]), here + 1, lines[1..])))
  }

  // ----- keywords -----

  predicate IsWord(w: string) {
    0 < |w| <= 10 && forall i :: 0 <= i < |w| ==> 'a' <= w[i] <= 'z'
  }

  predicate EndsLine(rest: string) { rest != [] && rest[0] == '\n' }

  lemma {:induction false} LettersOf(w: string, more: string, k: nat)
    requires |w| <= k && more != [] && !IsKeywordChar(more[0])
    requires forall i :: 0 <= i < |w| ==> 'a' <= w[i] <= 'z'
    ensures Letters(w + more, k) == Parsed(w, more)
    decreases |w|
  {
    if w == [] {
      assert w + more == more;
    } else {
      assert (w + more)[1..] == w[1..] + more;
      LettersOf(w[1..], more, k - 1);
      assert [w[0]] + w[1..] == w;
    }
  }

  lemma KeywordOf(w: string, more: string)
    requires IsWord(w) && more != [] && !IsKeywordChar(more[0])
    ensures Keyword(w + more) == Parsed(w, EatBlanks(more)) && EatBlanks(w + more) == w + more
    ensures w + more != [] && (w + more)[0] != '@'
  {
    LettersOf(w, more, 10);
    assert (w + more)[0] == w[0];
  }

  lemma AfterBlank(s: string)
    ensures EatBlanks(" " + s) == EatBlanks(s)
  {
    assert (" " + s)[1..] == s;
  }

  lemma WrittenFirst(name: string, more: string)
    requires IsWritten(name) && name != []
    ensures EatBlanks(name + more) == name + more && !IsSeparator((name + more)[0])
  {
    assert !IsBlank(EatBlanks(name)[0]);
    assert (name + more)[0] == name[0];
  }

  // ----- statements -----

  lemma LineEnd(rest: string)
    requires EndsLine(rest)
    ensures Stops(rest) && EatBlanks(rest) == rest && NoOperator(rest)
  {
  }

  lemma ExpressionText(sc: Scope, e: Expr, rest: string)
    requires IsExpr(sc, e) && EndsLine(rest)
    ensures EatBlanks(Print(sc, e, rest)) == Print(sc, e, rest)
    ensures ParseExpr(sc, Print(sc, e, rest)) == Parsed(e, rest)
  {
    hide Print, ParseExpr, IsExpr, NoOperator;
    LineEnd(rest);
    ExprStarts(sc, e, rest);
    ClosedRoundTrip(sc, e, rest);
  }

  lemma Equals(more: string)
    requires EatBlanks(more) == more
    ensures Match('=', "= " + more) == Parsed((), more)
  {
    assert ("= " + more)[1..] == " " + more;
    AfterBlank(more);
  }

  lemma EqualsNext(more: string)
    ensures Stops(" = " + more) && EatBlanks(" = " + more) == "= " + more
    ensures Token("= " + more) == Parsed([], "= " + more)
  {
    assert " = " + more == " " + ("= " + more);
    AfterBlank("= " + more);
    assert ("= " + more)[0] == '=';
  }

  /** The name before the equals sign. */
  lemma TargetText(name: string, more: string)
    requires IsWritten(name)
    ensures var s := EatBlanks(" " + (name + (" = " + more)));
            (s != [] ==> s[0] != '[') && Token(s) == Parsed(name, "= " + more)
  {
    hide Token, EatBlanks;
    var tail := " = " + more;
    AfterBlank(name + tail);
    EqualsNext(more);
    if name == [] {
      assert name + tail == tail;
    } else {
      WrittenFirst(name, tail);
      TokenRoundTrip(name, tail);
    }
  }

  lemma LetText(cx: Context, s: Stmt, rest: string)
    requires cx.fn.Some? && s.Let? && IsSimple(cx, s) && EndsLine(rest)
    ensures var name := s.x[|cx.fn.value| + 1..];
            var more := Print(Declaring(ScopeOf(cx), s.x), s.e, rest);
            ReadLet(cx, EatBlanks(" " + (name + (" = " + more)))) == Parsed((s, AfterStmt(cx, s)), rest)
  {
    hide Print, ParseExpr, Token, EatBlanks, Match, IsWritten, IsExpr;
    var name := s.x[|cx.fn.value| + 1..];
    var more := Print(Declaring(ScopeOf(cx), s.x), s.e, rest);
    TargetText(name, more);
    ExpressionText(Declaring(ScopeOf(cx), s.x), s.e, rest);
    Equals(more);
    assert FullName(ScopeOf(cx), name) == s.x;
  }

  lemma ReturnText(cx: Context, s: Stmt, rest: string)
    requires cx.fn.Some? && s.Return? && IsSimple(cx, s) && EndsLine(rest)
    ensures ReadSimple(cx, "return", EatBlanks(" " + Print(ScopeOf(cx), s.e, rest))) == Parsed((s, cx), rest)
  {
    hide Print, ParseExpr, EatBlanks, IsExpr;
    ExpressionText(ScopeOf(cx), s.e, rest);
    AfterBlank(Print(ScopeOf(cx), s.e, rest));
  }

  lemma CallText(cx: Context, s: Stmt, rest: string)
    requires cx.fn.Some? && s.Do? && IsSimple(cx, s) && EndsLine(rest)
    ensures var t := PrintStmt(ScopeOf(cx), s, rest);
            t != [] && t[0] == '@' && EatBlanks(t) == t && ReadCall(cx, t[1..]) == Parsed((s, cx), rest)
  {
    hide Print, ParseCall, IsFactor;
    var e := Invoke(s.f, s.args);
    LineEnd(rest);
    FactorRoundTrip(ScopeOf(cx), e, rest);
    CallFirst(ScopeOf(cx), e, rest);
  }

  lemma CallFirst(sc: Scope, e: Expr, rest: string)
    requires e.Invoke?
    ensures var t := Print(sc, e, rest); t != [] && t[0] == '@' && ParseFactor(sc, t) == ParseCall(sc, t[1..])
  {
    hide ParseCall;
  }

  /** A statement that starts with a keyword: what the reader finds after it. */
  lemma KeywordText(cx: Context, s: Stmt, rest: string) returns (w: string, more: string)
    requires cx.fn.Some? && (s.Let? || s.Return?) && IsSimple(cx, s) && EndsLine(rest)
    ensures w == (if s.Let? then "let" else "return") && PrintStmt(ScopeOf(cx), s, rest) == w + more
    ensures more != [] && more[0] == ' ' && Keyword(w + more) == Parsed(w, EatBlanks(more))
    ensures EatBlanks(w + more) == w + more && (w + more)[0] != '@'
    ensures ReadSimple(cx, w, EatBlanks(more)) == Parsed((s, AfterStmt(cx, s)), rest)
  {
    hide Print, ReadLet, EatBlanks, Keyword, IsExpr;
    if s.Let? {
      w := "let";
      more := " " + (s.x[|cx.fn.value| + 1..] + (" = " + Print(Declaring(ScopeOf(cx), s.x), s.e, rest)));
      LetText(cx, s, rest);
    } else {
      w := "return";
      more := " " + Print(ScopeOf(cx), s.e, rest);
      ReturnText(cx, s, rest);
    }
    KeywordOf(w, more);
  }

  lemma OneLineText(cx: Context, s: Stmt, rest: string)
    requires cx.fn.Some? && IsSimple(cx, s) && EndsLine(rest)
    ensures ReadOneLine(cx, PrintStmt(ScopeOf(cx), s, rest)) == Parsed((s, AfterStmt(cx, s)), rest)
  {
    hide PrintStmt, ReadCall, ReadSimple, Keyword, EatBlanks, IsExpr, IsFactor;
    if s.Do? {
      CallText(cx, s, rest);
    } else {
      var w, more := KeywordText(cx, s, rest);
    }
  }

  lemma ConditionText(sc: Scope, c: Expr, rest: string)
    requires IsExpr(sc, c)
    ensures var t := "(" + Print(sc, c, ")" + rest);
            EatBlanks(t) == t && Condition(sc, t) == Parsed(c, EatBlanks(rest))
  {
    hide Print, InParentheses, IsExpr;
    ParenthesesRoundTrip(sc, c, rest);
  }

  lemma IfText(cx: Context, s: Stmt, rest: string)
    requires cx.fn.Some? && s.If? && IsLine(cx, Plain(s)) && EndsLine(rest)
    ensures var sc := ScopeOf(cx);
            var t := "(" + Print(sc, s.c, ")" + (" " + PrintStmt(sc, s.s, rest)));
            EatBlanks(t) == t && ReadIf(cx, s.line, t) == Parsed((s, AfterStmt(cx, s)), rest)
  {
    hide Print, PrintStmt, Condition, ReadOneLine, IsExpr, EatBlanks;
    var body := PrintStmt(ScopeOf(cx), s.s, rest);
    ConditionText(ScopeOf(cx), s.c, " " + body);
    AfterBlank(body);
    OneLineText(cx, s.s, rest);
    OneLineAgain(cx, body);
  }

  /** Blanks before a statement do not matter. */
  lemma OneLineAgain(cx: Context, s: string)
    ensures ReadOneLine(cx, EatBlanks(s)) == ReadOneLine(cx, s)
  {
    hide ReadCall, ReadSimple, Keyword;
    BlanksOnce(s);
  }

  lemma {:induction false} BlanksOnce(s: string)
    ensures EatBlanks(EatBlanks(s)) == EatBlanks(s)
  {
    if s != [] && IsBlank(s[0]) {
      BlanksOnce(s[1..]);
    }
  }

  lemma HeadText(f: string, n: u32, rest: string)
    requires IsWritten(f) && EndsLine(rest)
    ensures FunctionHead(EatBlanks(" " + (f + ("(" + PrintNumber(n, ")" + rest))))) == Parsed((f, n), rest)
  {
    hide Token, EatBlanks, NoSeparators, PrintNumber, Number;
    var number := PrintNumber(n, ")" + rest);
    AfterBlank(f + ("(" + number));
    if f == [] {
      assert f + ("(" + number) == "(" + number;
      NoBlank('(', number);
    } else {
      WrittenFirst(f, "(" + number);
    }
    assert IsWritten(f);
    WordBeforeParenthesis(f, "(" + number);
    NumberAt(n, ")" + rest);
    assert ("(" + number)[1..] == number;
    NumberRoundTrip(n, ")" + rest);
    Closer(')', rest);
    LineEnd(rest);
  }

  lemma NoBlank(c: char, s: string)
    requires !IsBlank(c)
    ensures EatBlanks([c] + s) == [c] + s
  {
  }

  lemma NumberAt(n: u32, rest: string)
    ensures EatBlanks(PrintNumber(n, rest)) == PrintNumber(n, rest)
  {
    hide PrintNumber;
  }

  lemma FunctionText(cx: Context, x: Line, rest: string)
    requires x.FunctionLine? && IsLine(cx, x) && EndsLine(rest)
    ensures ReadFunction(cx, EatBlanks(" " + (x.f + ("(" + PrintNumber(x.n, ")" + rest))))) == Parsed((x, AfterLine(cx, x)), rest)
  {
    hide FunctionHead, PrintNumber, EatBlanks, IsWritten;
    HeadText(x.f, x.n, rest);
  }

  // ----- lines -----

  /** The reader at the start of a line finds the keyword and what follows it. */
  lemma KeywordLine(cx: Context, line: nat, w: string, more: string)
    requires IsWord(w) && more != [] && !IsKeywordChar(more[0])
    ensures ReadStatement(cx, line, w + more) == AfterKeyword(cx, line, w, EatBlanks(more))
  {
    hide AfterKeyword, ReadCall, Keyword, EatBlanks;
    KeywordOf(w, more);
  }

  /** A printed line is read as that line, up to the newline after it. */
  lemma StatementText(cx: Context, line: nat, x: Line, rest: string)
    requires IsLine(cx, x) && EndsLine(rest) && (IfNumber(x).Some? ==> IfNumber(x).value == line)
    ensures ReadStatement(cx, line, PrintLine(cx, x, rest)) == Parsed((x, AfterLine(cx, x)), rest)
  {
    hide ReadStatement, ReadSimple, ReadIf, ReadFunction, Condition, EatBlanks, IsExpr, IsFactor, Print, PrintNumber;
    LineEnd(rest);
    match x
    case Plain(s) =>
      if s.If? {
        var t := "(" + Print(ScopeOf(cx), s.c, ")" + (" " + PrintStmt(ScopeOf(cx), s.s, rest)));
        IfText(cx, s, rest);
        KeywordLine(cx, line, "if", t);
      } else {
        PlainText(cx, line, s, rest);
      }
    case WhileLine(c) =>
      ConditionText(ScopeOf(cx), c, rest);
      KeywordLine(cx, line, "while", "(" + Print(ScopeOf(cx), c, ")" + rest));
    case EndwLine => KeywordLine(cx, line, "endw", rest);
    case EndfLine => KeywordLine(cx, line, "endf", rest);
    case FunctionLine(f, n) =>
      FunctionText(cx, x, rest);
      KeywordLine(cx, line, "function", " " + (f + ("(" + PrintNumber(n, ")" + rest))));
  }

  lemma PlainText(cx: Context, line: nat, s: Stmt, rest: string)
    requires cx.fn.Some? && IsSimple(cx, s) && EndsLine(rest)
    ensures ReadStatement(cx, line, PrintStmt(ScopeOf(cx), s, rest)) == Parsed((Plain(s), AfterStmt(cx, s)), rest)
  {
    hide PrintStmt, ReadCall, ReadSimple, Keyword, EatBlanks, IsExpr, IsFactor;
    if s.Do? {
      CallText(cx, s, rest);
    } else {
      var w, more := KeywordText(cx, s, rest);
    }
  }

  /** No printed line looks like `run` or like an empty line. */
  lemma LineStarts(cx: Context, x: Line, rest: string)
    requires IsLine(cx, x)
    ensures var t := PrintLine(cx, x, rest); t != [] && t[0] != '\n' && CheckRun(t) == GoOn(t)
  {
    hide Print, PrintNumber, IsExpr;
    var t := PrintLine(cx, x, rest);
    if x.Plain? && x.s.Do? {
      CallFirst(ScopeOf(cx), Invoke(x.s.f, x.s.args), rest);
    } else if x.Plain? && x.s.Return? {
      assert t[1] == 'e';
      assert ['r'] + t[1..] == t;
    }
  }

  lemma {:induction false} NewlinesSkipped(n: nat, rest: string)
    requires rest == [] || rest[0] != '\n'
    ensures SkipNewlines(Newlines(n, rest)) == rest && |Newlines(n, rest)| == n + |rest|
  {
    if n > 0 {
      NewlinesSkipped(n - 1, rest);
      assert ("\n" + Newlines(n - 1, rest))[1..] == Newlines(n - 1, rest);
    }
  }

  // ----- texts -----

  /** Reading the printed lines gives those lines back. */
  lemma {:induction false} LinesRoundTrip(cx: Context, line: nat, lines: seq<Line>)
    requires AreLines(cx, line, lines)
    ensures ReadLines(cx, line, PrintLines(cx, line, lines)) == Some(lines)
    decreases |lines|
  {
    hide IsLine, LineFor, PrintLine, AfterLine, ReadStatement, CheckRun, IfNumber;
    if lines != [] {
      var x, here := lines[0], LineFor(lines[0], line);
      var more := PrintLines(AfterLine(cx, x), here + 1, lines[1..]);
      LinesRoundTrip(AfterLine(cx, x), here + 1, lines[1..]);
      LineStarts(cx, x, "\n" + more);
      NumberedHere(x, line);
      StatementText(cx, here, x, "\n" + more);
      NewlinesSkipped(here - line, PrintLine(cx, x, "\n" + more));
      assert ("\n" + more)[1..] == more;
      assert [x] + lines[1..] == lines;
    }
  }

  lemma NumberedHere(x: Line, line: nat)
    ensures IfNumber(x).Some? ==> IfNumber(x).value == LineFor(x, line)
  {
  }

  // ----- what is read is printable -----

  lemma TokenWritten(s: string)
    requires Token(s).Parsed? && EatBlanks(s) == s
    ensures IsWritten(Token(s).v)
  {
    hide Token;
    TokenShape(s);
    var name := Token(s).v;
    if name != [] {
      assert !IsBlank(EatBlanks(s)[0]);
    }
  }

  lemma LetShape(cx: Context, s: string)
    requires cx.fn.Some? && EatBlanks(s) == s && ReadLet(cx, s).Parsed?
    ensures var (x, cx') := ReadLet(cx, s).v; IsSimple(cx, x) && cx' == AfterStmt(cx, x)
  {
    hide Token, ParseExpr, IsExpr, IsWritten, EatBlanks;
    TokenWritten(s);
    var name := Token(s);
    var x := FullName(ScopeOf(cx), name.v);
    assert x[|cx.fn.value| + 1..] == name.v;
    ExprShape(ScopeOf(cx.(vars := cx.vars + {x})), Match('=', name.rest).rest);
  }

  lemma CallStatementShape(cx: Context, s: string)
    requires ReadCall(cx, s).Parsed?
    ensures cx.fn.Some?
    ensures var (x, cx') := ReadCall(cx, s).v; IsSimple(cx, x) && x.Do? && cx' == cx
  {
    hide ParseCall, IsFactor;
    CallShape(ScopeOf(cx), s);
  }

  lemma SimpleShape(cx: Context, keyword: string, s: string)
    requires cx.fn.Some? && EatBlanks(s) == s && ReadSimple(cx, keyword, s).Parsed?
    ensures var (x, cx') := ReadSimple(cx, keyword, s).v; IsSimple(cx, x) && cx' == AfterStmt(cx, x)
  {
    hide ReadLet, ParseExpr, IsExpr, EatBlanks;
    if keyword == "let" {
      LetShape(cx, s);
    } else {
      ExprShape(ScopeOf(cx), s);
    }
  }

  lemma KeywordShape(s: string)
    requires Keyword(s).Parsed?
    ensures EatBlanks(Keyword(s).rest) == Keyword(s).rest
  {
    BlanksOnce(Letters(SkipSpace(s), 10).rest);
  }

  lemma OneLineShape(cx: Context, s: string)
    requires ReadOneLine(cx, s).Parsed?
    ensures cx.fn.Some?
    ensures var (x, cx') := ReadOneLine(cx, s).v; IsSimple(cx, x) && cx' == AfterStmt(cx, x)
  {
    hide ReadSimple, Keyword, EatBlanks, IsSimple, ParseCall;
    var t := EatBlanks(s);
    if t != [] && t[0] == '@' {
      CallStatementShape(cx, t[1..]);
    } else {
      KeywordShape(t);
      SimpleShape(cx, Keyword(t).v, Keyword(t).rest);
    }
  }

  lemma ConditionShape(sc: Scope, s: string)
    requires Condition(sc, s).Parsed?
    ensures IsExpr(sc, Condition(sc, s).v)
  {
    hide InParentheses, IsExpr;
    ParenthesesShape(sc, s);
  }

  lemma IfShape(cx: Context, line: nat, s: string)
    requires cx.fn.Some? && ReadIf(cx, line, s).Parsed?
    ensures var (x, cx') := ReadIf(cx, line, s).v; IsLine(cx, Plain(x)) && cx' == AfterStmt(cx, x) && x.If? && x.line == line
  {
    hide Condition, ReadOneLine, IsExpr;
    ConditionShape(ScopeOf(cx), s);
    OneLineShape(cx, Condition(ScopeOf(cx), s).rest);
  }

  lemma FunctionShape(cx: Context, s: string)
    requires EatBlanks(s) == s && ReadFunction(cx, s).Parsed?
    ensures var (x, cx') := ReadFunction(cx, s).v; IsLine(cx, x) && cx' == AfterLine(cx, x)
  {
    hide Token, Number, EatBlanks, IsWritten;
    TokenWritten(s);
  }

  lemma AfterKeywordShape(cx: Context, line: nat, keyword: string, s: string)
    requires EatBlanks(s) == s && AfterKeyword(cx, line, keyword, s).Parsed?
    ensures var (x, cx') := AfterKeyword(cx, line, keyword, s).v;
            IsLine(cx, x) && cx' == AfterLine(cx, x) && (IfNumber(x).Some? ==> IfNumber(x).value == line)
  {
    hide ReadFunction, ReadIf, ReadSimple, Condition, EatBlanks, IsExpr, IsFactor;
    if keyword == "function" {
      FunctionShape(cx, s);
    } else if keyword == "while" {
      ConditionShape(ScopeOf(cx), s);
    } else if keyword == "if" {
      IfShape(cx, line, s);
    } else if keyword != "endf" && keyword != "endw" {
      SimpleShape(cx, keyword, s);
    }
  }

  lemma StatementShape(cx: Context, line: nat, s: string)
    requires ReadStatement(cx, line, s).Parsed?
    ensures var (x, cx') := ReadStatement(cx, line, s).v;
            IsLine(cx, x) && cx' == AfterLine(cx, x) && (IfNumber(x).Some? ==> IfNumber(x).value == line)
  {
    hide AfterKeyword, ReadCall, Keyword, EatBlanks, IsSimple;
    var t := EatBlanks(s);
    if t != [] && t[0] == '@' {
      CallStatementShape(cx, t[1..]);
    } else {
      KeywordShape(t);
      AfterKeywordShape(cx, line, Keyword(t).v, Keyword(t).rest);
    }
  }

  /** Everything the compiler can read is lines that can be printed. */
  lemma {:induction false} LinesShape(cx: Context, line: nat, s: string)
    requires ReadLines(cx, line, s).Some?
    ensures AreLines(cx, line, ReadLines(cx, line, s).value)
    decreases |s|
  {
    hide IsLine, AfterLine, ReadStatement, CheckRun, SkipNewlines, IfNumber;
    var t := SkipNewlines(s);
    if t != [] && CheckRun(t).GoOn? {
      var here := line + |s| - |t|;
      var x := ReadStatement(cx, here, CheckRun(t).s);
      StatementShape(cx, here, CheckRun(t).s);
      LinesShape(x.v.1, here + 1, x.rest[1..]);
      var more := ReadLines(x.v.1, here + 1, x.rest[1..]).value;
      AreLinesLower(x.v.1, LineFor(x.v.0, line) + 1, here + 1, more);
      assert ([x.v.0] + more)[1..] == more;
    }
  }

  /** Lines that can stand further down can stand higher up. */
  lemma {:induction false} AreLinesLower(cx: Context, line: nat, line': nat, lines: seq<Line>)
    requires AreLines(cx, line', lines) && line <= line'
    ensures AreLines(cx, line, lines)
    decreases |lines|
  {
    hide IsLine, AfterLine, IfNumber;
    if lines != [] {
      AreLinesLower(AfterLine(cx, lines[0]), LineFor(lines[0], line) + 1, LineFor(lines[0], line') + 1, lines[1..]);
    }
  }

  // ----- programs -----

  lemma {:induction false} GatherOf(ss: seq<Stmt>, rest: seq<Line>)
    requires rest != [] && (rest[0].EndwLine? || rest[0].EndfLine?)
    ensures Gather(Flatten(ss) + rest) == Some((ss, rest))
    decreases ss, 1
  {
    if ss == [] {
      assert Flatten(ss) + rest == rest;
    } else {
      GatherOf(ss[1..], rest);
      GatherOne(ss, rest);
    }
  }

  lemma {:induction false} GatherOne(ss: seq<Stmt>, rest: seq<Line>)
    requires ss != [] && rest != [] && (rest[0].EndwLine? || rest[0].EndfLine?)
    requires Gather(Flatten(ss[1..]) + rest) == Some((ss[1..], rest))
    ensures Gather(Flatten(ss) + rest) == Some((ss, rest))
    decreases ss, 0
  {
    hide Gather, Flatten, FlattenOne;
    var s, more := ss[0], Flatten(ss[1..]) + rest;
    FirstLines(ss, rest);
    assert [s] + ss[1..] == ss;
    if s.While? {
      GatherOf(s.body, [EndwLine] + more);
      LoopLines(s, more);
      GatherWhile(s.c, s.body, Flatten(s.body), more, ss[1..], rest);
    } else {
      PlainLine(s);
      GatherSimple(s, more, ss[1..], rest);
    }
  }

  lemma FirstLines(ss: seq<Stmt>, rest: seq<Line>)
    requires ss != []
    ensures Flatten(ss) + rest == FlattenOne(ss[0]) + (Flatten(ss[1..]) + rest)
  {
    hide FlattenOne;
  }

  lemma LoopLines(s: Stmt, more: seq<Line>)
    requires s.While?
    ensures FlattenOne(s) + more == [WhileLine(s.c)] + (Flatten(s.body) + ([EndwLine] + more))
  {
    hide Flatten;
  }

  lemma PlainLine(s: Stmt)
    requires !s.While?
    ensures FlattenOne(s) == [Plain(s)]
  {
  }

  lemma GatherSimple(s: Stmt, more: seq<Line>, tail: seq<Stmt>, rest: seq<Line>)
    requires Gather(more) == Some((tail, rest))
    ensures Gather([Plain(s)] + more) == Some(([s] + tail, rest))
  {
    assert ([Plain(s)] + more)[1..] == more;
  }

  lemma GatherWhile(c: Expr, body: seq<Stmt>, y: seq<Line>, more: seq<Line>, tail: seq<Stmt>, rest: seq<Line>)
    requires Gather(y + ([EndwLine] + more)) == Some((body, [EndwLine] + more)) && Gather(more) == Some((tail, rest))
    ensures Gather([WhileLine(c)] + (y + ([EndwLine] + more))) == Some(([While(c, body)] + tail, rest))
  {
    assert ([EndwLine] + more)[1..] == more;
    assert ([WhileLine(c)] + (y + ([EndwLine] + more)))[1..] == y + ([EndwLine] + more);
  }

  /** Cutting the lines of a program gives the program. */
  lemma {:induction false} SplitOfProgram(decls: seq<Decl>)
    ensures Split(ProgramLines(decls)) == Some(decls)
    decreases |decls|
  {
    hide Gather, Flatten;
    if decls != [] {
      var d, more := decls[0], ProgramLines(decls[1..]);
      SplitOfProgram(decls[1..]);
      GatherOf(d.body.body, [EndfLine] + more);
      var lines := ProgramLines(decls);
      assert lines == [FunctionLine(d.f, d.body.arity)] + (Flatten(d.body.body) + ([EndfLine] + more));
      assert lines[1..] == Flatten(d.body.body) + ([EndfLine] + more);
      assert ([EndfLine] + more)[1..] == more;
      assert Decl(d.f, Function(d.body.arity, d.body.body)) == d;
      assert [d] + decls[1..] == decls;
    }
  }

  /** The text of a program. */
  function TextOf(decls: seq<Decl>): string {
    PrintLines(START, 1, ProgramLines(decls))
  }

  /** What the compiler asks of a program: names and trees of the grammar,
      everything declared before it is used, the number of its line on every
      `if`, and no more loops inside each other than the table holds. */
  predicate IsProgram(decls: seq<Decl>) {
    AreLines(START, 1, ProgramLines(decls)) && ShallowDecls(decls)
  }

  /** A program whose lines can be printed and whose loops fit the table has a
      text that the compiler accepts as that program. */
  lemma ProgramHasText(decls: seq<Decl>)
    requires IsProgram(decls)
    ensures Compiles(TextOf(decls), decls)
  {
    hide AreLines, ReadLines, PrintLines, EmitLines, Split, ProgramLines, ShallowDecls;
    LinesRoundTrip(START, 1, ProgramLines(decls));
    ProgramOnLines(decls, Counters(0, 0, []));
    SplitOfProgram(decls);
  }

  /** The printed text of an accepted program is accepted as the same program,
      line by line. */
  lemma TextOfAccepted(text: string, decls: seq<Decl>)
    requires Compiles(text, decls)
    ensures Compiles(TextOf(decls), decls) && LinesOf(TextOf(decls)) == LinesOf(text)
    ensures IsProgram(decls)
  {
    hide AreLines, ReadLines, PrintLines, EmitLines, Split, ProgramLines, ShallowDecls;
    AcceptedText(text, decls);
    LinesShape(START, 1, text);
    LinesRoundTrip(START, 1, ProgramLines(decls));
    ProgramIsShallow(decls, Counters(0, 0, []));
  }

  /** The programs that have a text are exactly those. */
  lemma ProgramsExactly(decls: seq<Decl>)
    ensures IsProgram(decls) <==> exists text :: Compiles(text, decls)
  {
    hide IsProgram, Compiles;
    if IsProgram(decls) {
      ProgramHasText(decls);
    } else if text :| Compiles(text, decls) {
      TextOfAccepted(text, decls);
    }
  }

  // ----- what the printer never writes -----

  function LowerCase(w: string): (r: string)
    ensures |r| == |w| && forall i :: 0 <= i < |w| ==> r[i] == Lower(w[i])
  {
    seq(|w|, i requires 0 <= i < |w| => Lower(w[i]))
  }

  lemma {:induction false} AnyLetters(w: string, more: string, k: nat)
    requires |w| <= k && more != [] && !IsKeywordChar(more[0])
    requires forall i :: 0 <= i < |w| ==> IsAlpha(w[i])
    ensures Letters(w + more, k) == Parsed(LowerCase(w), more)
    decreases |w|
  {
    if w == [] {
      assert w + more == more;
    } else {
      assert (w + more)[1..] == w[1..] + more;
      AnyLetters(w[1..], more, k - 1);
      assert [Lower(w[0])] + LowerCase(w[1..]) == LowerCase(w);
    }
  }

  /** Keywords may be written in capitals. */
  lemma KeywordInCapitals(w: string, more: string)
    requires 0 < |w| <= 10 && more != [] && !IsKeywordChar(more[0])
    requires forall i :: 0 <= i < |w| ==> IsAlpha(w[i])
    ensures Keyword(w + more) == Parsed(LowerCase(w), EatBlanks(more))
  {
    AnyLetters(w, more, 10);
    assert (w + more)[0] == w[0];
  }

  /** A line that starts with `run`, in small letters or capitals, ends the program,
      whatever follows; one that starts with `ru` and goes on otherwise is refused. */
  lemma RunEnds(cx: Context, line: nat, r: char, u: char, n: char, rest: string)
    requires (r == 'r' || r == 'R') && (u == 'u' || u == 'U')
    ensures ReadLines(cx, line, [r, u, n] + rest) == if n == 'n' || n == 'N' then Some([]) else None
  {
    var s := [r, u, n] + rest;
    assert SkipNewlines(s) == s;
    assert s[2] == n;
  }

  /** Empty lines count. */
  lemma EmptyLine(cx: Context, line: nat, rest: string)
    ensures ReadLines(cx, line, "\n" + rest) == ReadLines(cx, line + 1, rest)
  {
    hide ReadStatement, CheckRun;
    assert ("\n" + rest)[1..] == rest;
    NewlineCount(rest);
  }

  lemma {:induction false} NewlineCount(s: string)
    ensures |SkipNewlines(s)| <= |s|
  {
  }
}
