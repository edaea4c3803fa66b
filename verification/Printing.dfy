/** Printing expressions, and the proof that the compiler's parser and the
    printer undo each other. Printing is in continuation style: `rest` is the
    text that follows. */
module Printing {
  import opened Words
  import opened Tpp
  import opened Grammar

  // ----- printable trees -----

  /** Printing ends in `$e`, whose index would swallow a following operator. */
  predicate EndsOpen(e: Expr) {
    match e
    case Arg(_) => true
    case Binary(_, _, r) => EndsOpen(r)
    case _ => false
  }

  predicate IsSum(op: BinOp) { op.Plus? || op.Minus? }

  predicate WellSpelt(op: BinOp) {
    op.Silent? ==> op.c == '<' || op.c == '!' || op.c == ':'
  }

  predicate IsName(name: string) {
    name != [] && IsAlpha(name[0]) && !IsKeyword(name) && NoSeparators(name)
  }

  predicate NoSeparators(name: string) {
    forall i :: 0 <= i < |name| ==> !IsSeparator(name[i])
  }

  predicate IsVariable(sc: Scope, x: string) {
    x in sc.vars && |x| > |sc.fn| && x == FullName(sc, x[|sc.fn| + 1..]) && IsName(x[|sc.fn| + 1..])
  }

  predicate IsFactor(sc: Scope, e: Expr)
    decreases e, 0
  {
    match e
    case Num(_) => true
    case Var(x) => IsVariable(sc, x)
    case Group(g) => IsExpr(sc, g)
    case NotOf(g) => IsExpr(sc, g)
    case NegOf(g) => IsExpr(sc, g)
    case Arg(g) => IsExpr(sc, g)
    case Invoke(f, es) => f in sc.arity && sc.arity[f] == |es| && f != "raw_call" && NoSeparators(f) && AreExprs(sc, es)
    case _ => false
  }

  predicate AreExprs(sc: Scope, es: seq<Expr>)
    decreases es, 0
  {
    es == [] || (IsExpr(sc, es[0]) && AreExprs(sc, es[1..]))
  }

  predicate IsTerm(sc: Scope, e: Expr)
    decreases e, 1
  {
    if e.Binary? then
      !IsSum(e.op) && WellSpelt(e.op) && IsTerm(sc, e.l) && !EndsOpen(e.l) && IsFactor(sc, e.r)
    else IsFactor(sc, e)
  }

  /** Two left-associative levels, sums below all other operators; a leading
      sign is an operator applied to Zero. */
  predicate IsExpr(sc: Scope, e: Expr)
    decreases e, 2
  {
    if e.Binary? && IsSum(e.op) then
      (e.l == Zero || IsExpr(sc, e.l)) && !EndsOpen(e.l) && IsTerm(sc, e.r)
    else IsTerm(sc, e)
  }

  // ----- printer -----

  function DigitChar(d: nat): (c: char)
    requires d < 10
    ensures IsDigit(c) && Digit(c) == d
  {
    '0' + d as char
  }

  function PrintNumber(n: nat, rest: string): (s: string)
    ensures s != [] && IsDigit(s[0])
    decreases n
  {
    if n < 10 then [DigitChar(n)] + rest else PrintNumber(n / 10, [DigitChar(n % 10)] + rest)
  }

  function Spelling(op: BinOp): string {
    match op
    case Plus => "+" case Minus => "-" case Times => "*" case Over => "/" case Modulo => "%"
    case BitAnd => "&" case BitOr => "|" case BitXor => "^" case AndAlso => "&&" case OrElse => "||"
    case Equal => ":=" case NotEqual => "!=" case AtLeast => ">=" case AtMost => "<=" case Above => ">"
    case Silent(c) => [c]
  }

  function Print(sc: Scope, e: Expr, rest: string): string
    decreases e, 0
  {
    match e
    case Zero => rest
    case Num(n) => PrintNumber(n, rest)
    case Var(x) => if |x| > |sc.fn| then x[|sc.fn| + 1..] + rest else rest
    case Group(g) => "(" + Print(sc, g, ")" + rest)
    case Binary(op, l, r) =>
      Print(sc, l, (if l.Zero? then "" else " ") + Spelling(op) + " " + Print(sc, r, rest))
    case NotOf(g) => "not(" + Print(sc, g, ")" + rest)
    case NegOf(g) => "neg(" + Print(sc, g, ")" + rest)
    case Arg(g) => "$" + Print(sc, g, rest)
    case Invoke(f, es) => "@" + f + "(" + (if es == [] then ")" + rest else PrintArgs(sc, es, rest))
  }

  function PrintArgs(sc: Scope, es: seq<Expr>, rest: string): string
    requires es != []
    decreases es, 0
  {
    Print(sc, es[0], if |es| == 1 then ")" + rest else "," + PrintArgs(sc, es[1..], rest))
  }

  // ----- tokens -----

  /** Characters that end a token: a blank, or what closes an expression. */
  predicate Stops(rest: string) {
    rest != [] && (rest[0] == ' ' || rest[0] == ')' || rest[0] == ',' || rest[0] == '\n')
  }

  lemma DecimalStep(d: nat, rest: string, acc: u32)
    requires d < 10
    ensures Decimal([DigitChar(d)] + rest, acc) == Decimal(rest, Low32(acc * 10 + d))
  {
    assert ([DigitChar(d)] + rest)[1..] == rest;
  }

  lemma {:induction false} DecimalOfPrint(n: nat, rest: string)
    requires n < 0x1_0000_0000
    ensures Decimal(PrintNumber(n, rest), 0) == Decimal(rest, n)
    decreases n
  {
    hide Decimal;
    if n >= 10 {
      DecimalOfPrint(n / 10, [DigitChar(n % 10)] + rest);
      DecimalStep(n % 10, rest, n / 10);
      assert Low32(n / 10 * 10 + n % 10) == n;
    } else {
      DecimalStep(n, rest, 0);
    }
  }

  lemma {:induction false} LeadingZero(n: nat, rest: string)
    ensures PrintNumber(n, rest)[0] == '0' ==> n == 0
    decreases n
  {
    if n >= 10 {
      LeadingZero(n / 10, [DigitChar(n % 10)] + rest);
    }
  }

  lemma NumberRoundTrip(n: u32, rest: string)
    requires Stops(rest)
    ensures Number(PrintNumber(n, rest)) == Parsed(n, EatBlanks(rest))
  {
    var s := PrintNumber(n, rest);
    LeadingZero(n, rest);
    DecimalOfPrint(n, rest);
    assert Decimal(s, 0) == Decimal(s[1..], Digit(s[0]));
    if n == 0 {
      assert s == ['0'] + rest;
      assert [s[0], Lower(s[1])] + s[2..] == s;
    }
  }

  lemma {:induction false} TokenRoundTrip(name: string, rest: string)
    requires NoSeparators(name) && Stops(rest)
    ensures Token(name + rest) == Parsed(name, EatBlanks(rest))
    decreases |name|
  {
    if name == [] {
      assert name + rest == rest;
    } else {
      assert (name + rest)[1..] == name[1..] + rest;
      TokenRoundTrip(name[1..], rest);
      assert [name[0]] + name[1..] == name;
    }
  }

  lemma OperatorRoundTrip(op: BinOp, s: string)
    requires !IsSum(op) && WellSpelt(op) && s != [] && !IsBlank(s[0])
    ensures IsTermOperator(Spelling(op)[0])
    ensures Operator(Spelling(op) + " " + s) == Parsed(op, s)
  {
    var t := Spelling(op) + " " + s;
    assert t[|Spelling(op)|..] == " " + s;
    assert (" " + s)[1..] == s;
    assert EatBlanks(" " + s) == s;
    if |Spelling(op)| == 2 {
      assert t[1] == Spelling(op)[1];
    } else {
      assert t[1] == ' ';
    }
  }

  // ----- first characters -----

  predicate Starts(s: string) {
    s != [] && (IsDigit(s[0]) || IsAlpha(s[0]) || s[0] == '(' || s[0] == '$' || s[0] == '@')
  }

  lemma {:induction false} TermStarts(sc: Scope, e: Expr, rest: string)
    requires IsTerm(sc, e)
    ensures Starts(Print(sc, e, rest))
    decreases e
  {
    if e.Binary? {
      TermStarts(sc, e.l, " " + Spelling(e.op) + " " + Print(sc, e.r, rest));
    }
  }

  lemma {:induction false} ExprStarts(sc: Scope, e: Expr, rest: string)
    requires IsExpr(sc, e)
    ensures var s := Print(sc, e, rest); Starts(s) || (s != [] && IsSign(s[0]))
    decreases e
  {
    if e.Binary? && IsSum(e.op) {
      if e.l != Zero {
        ExprStarts(sc, e.l, " " + Spelling(e.op) + " " + Print(sc, e.r, rest));
      }
    } else {
      TermStarts(sc, e, rest);
    }
  }

  // ----- parse of print -----

  predicate Follows(e: Expr, rest: string) {
    Stops(rest) && (EndsOpen(e) ==> NoOperator(EatBlanks(rest)))
  }

  lemma Closer(c: char, rest: string)
    requires c == ')' || c == ','
    ensures var s := [c] + rest;
            Stops(s) && EatBlanks(s) == s && NoOperator(s) && Match(c, s) == Parsed((), EatBlanks(rest))
  {
    assert ([c] + rest)[1..] == rest;
  }

  lemma ParenthesesRoundTrip(sc: Scope, g: Expr, rest: string)
    requires IsExpr(sc, g)
    ensures InParentheses(sc, "(" + Print(sc, g, ")" + rest)) == Parsed(g, EatBlanks(rest))
    decreases g, 6
  {
    hide ParseExpr, NoOperator, Print, IsExpr;
    var inner := Print(sc, g, ")" + rest);
    ExprStarts(sc, g, ")" + rest);
    assert ("(" + inner)[1..] == inner;
    assert EatBlanks(inner) == inner;
    Closer(')', rest);
    ClosedRoundTrip(sc, g, ")" + rest);
  }

  lemma NameRoundTrip(sc: Scope, e: Expr, rest: string)
    requires e.Var? && IsFactor(sc, e) && Stops(rest)
    ensures ParseFactor(sc, Print(sc, e, rest)) == Parsed(e, EatBlanks(rest))
  {
    hide Token;
    TokenRoundTrip(e.x[|sc.fn| + 1..], rest);
  }

  lemma UnaryRoundTrip(sc: Scope, e: Expr, rest: string)
    requires (e.NotOf? || e.NegOf?) && IsFactor(sc, e) && Stops(rest)
    ensures ParseFactor(sc, Print(sc, e, rest)) == Parsed(e, EatBlanks(rest))
    decreases e, 0
  {
    hide InParentheses, ParseFactor;
    var more := "(" + Print(sc, e.e, ")" + rest);
    ParenthesesRoundTrip(sc, e.e, rest);
    assert ParseUnary(sc, e.NotOf?, more) == Parsed(e, EatBlanks(rest));
    UnaryName(sc, e.NotOf?, more);
    if e.NotOf? {
      assert Print(sc, e, rest) == "not" + more;
    } else {
      assert Print(sc, e, rest) == "neg" + more;
    }
  }

  lemma UnaryName(sc: Scope, complement: bool, more: string)
    requires more != [] && more[0] == '('
    ensures ParseFactor(sc, (if complement then "not" else "neg") + more) == ParseUnary(sc, complement, more)
  {
    hide ParseUnary, Token, IsSeparator;
    var name := if complement then "not" else "neg";
    assert NoSeparators(name) by {
      AlphaNotSeparator('n');
      AlphaNotSeparator('o');
      AlphaNotSeparator('t');
      AlphaNotSeparator('e');
      AlphaNotSeparator('g');
    }
    WordBeforeParenthesis(name, more);
    assert name[0] == 'n';
  }

  lemma AlphaNotSeparator(c: char)
    requires IsAlpha(c)
    ensures !IsSeparator(c)
  {
  }

  lemma {:induction false} WordBeforeParenthesis(name: string, more: string)
    requires NoSeparators(name) && more != [] && more[0] == '('
    ensures Token(name + more) == Parsed(name, more)
    decreases |name|
  {
    if name == [] {
      assert name + more == more;
    } else {
      assert (name + more)[1..] == name[1..] + more;
      WordBeforeParenthesis(name[1..], more);
      assert [name[0]] + name[1..] == name;
    }
  }

  lemma ArgRoundTrip(sc: Scope, e: Expr, rest: string)
    requires e.Arg? && IsFactor(sc, e) && Follows(e, rest)
    ensures ParseFactor(sc, Print(sc, e, rest)) == Parsed(e, EatBlanks(rest))
    decreases e, 0
  {
    var inner := Print(sc, e.e, rest);
    ClosedRoundTrip(sc, e.e, rest);
    assert ("$" + inner)[1..] == inner;
  }

  lemma ArgsRoundTrip(sc: Scope, es: seq<Expr>, rest: string)
    requires es != [] && AreExprs(sc, es)
    ensures ParseArgs(sc, |es|, PrintArgs(sc, es, rest)) == Parsed(es, EatBlanks(rest))
    decreases es, 0
  {
    if |es| == 1 {
      LastArg(sc, es, rest);
    } else {
      ArgsRoundTrip(sc, es[1..], rest);
      NextArg(sc, es, rest);
    }
  }

  lemma LastArg(sc: Scope, es: seq<Expr>, rest: string)
    requires |es| == 1 && IsExpr(sc, es[0])
    ensures ParseArgs(sc, 1, PrintArgs(sc, es, rest)) == Parsed(es, EatBlanks(rest))
    decreases es[0], 6
  {
    hide ParseExpr, NoOperator;
    Closer(')', rest);
    ClosedRoundTrip(sc, es[0], ")" + rest);
    assert es == [es[0]];
  }

  lemma NextArg(sc: Scope, es: seq<Expr>, rest: string)
    requires |es| > 1 && AreExprs(sc, es)
    requires ParseArgs(sc, |es| - 1, PrintArgs(sc, es[1..], rest)) == Parsed(es[1..], EatBlanks(rest))
    ensures ParseArgs(sc, |es|, PrintArgs(sc, es, rest)) == Parsed(es, EatBlanks(rest))
    decreases es[0], 6
  {
    hide ParseExpr, NoOperator;
    var tail := PrintArgs(sc, es[1..], rest);
    ArgsStart(sc, es[1..], rest);
    Closer(',', tail);
    ClosedRoundTrip(sc, es[0], "," + tail);
    assert [es[0]] + es[1..] == es;
  }

  lemma ArgsStart(sc: Scope, es: seq<Expr>, rest: string)
    requires es != [] && AreExprs(sc, es)
    ensures EatBlanks(PrintArgs(sc, es, rest)) == PrintArgs(sc, es, rest)
  {
    var more := if |es| == 1 then ")" + rest else "," + PrintArgs(sc, es[1..], rest);
    ExprStarts(sc, es[0], more);
    assert PrintArgs(sc, es, rest) == Print(sc, es[0], more);
  }

  lemma CallRoundTrip(sc: Scope, e: Expr, rest: string)
    requires e.Invoke? && IsFactor(sc, e) && Stops(rest)
    ensures ParseFactor(sc, Print(sc, e, rest)) == Parsed(e, EatBlanks(rest))
    decreases e, 0
  {
    var args := if e.args == [] then ")" + rest else PrintArgs(sc, e.args, rest);
    if e.args != [] {
      ArgsStart(sc, e.args, rest);
      ArgsRoundTrip(sc, e.args, rest);
    } else {
      assert (")" + rest)[1..] == rest;
    }
    CallText(sc, e, args, rest);
  }

  lemma HeadText(sc: Scope, f: string, args: string)
    requires f in sc.arity && f != "raw_call" && NoSeparators(f) && EatBlanks(args) == args
    ensures CallHead(sc, f + ("(" + args)) == Parsed(f, args)
  {
    hide Token, EatBlanks, NoSeparators;
    WordBeforeParenthesis(f, "(" + args);
    assert ("(" + args)[1..] == args;
  }

  lemma CallText(sc: Scope, e: Expr, args: string, rest: string)
    requires e.Invoke? && IsFactor(sc, e) && args != [] && EatBlanks(args) == args
    requires if e.args == [] then args[0] == ')' && args[1..] == rest
             else ParseArgs(sc, |e.args|, args) == Parsed(e.args, EatBlanks(rest))
    ensures ParseFactor(sc, "@" + e.f + "(" + args) == Parsed(e, EatBlanks(rest))
  {
    hide CallHead, ParseArgs, EatBlanks, AreExprs, NoSeparators;
    HeadText(sc, e.f, args);
    assert "@" + e.f + "(" + args == "@" + (e.f + ("(" + args));
    assert ("@" + (e.f + ("(" + args)))[1..] == e.f + ("(" + args);
    if e.args == [] {
      assert CallArguments(sc, 0, args) == Parsed([], EatBlanks(rest));
    }
    assert ParseCall(sc, e.f + ("(" + args)) == Parsed(e, EatBlanks(rest));
  }

  lemma FactorRoundTrip(sc: Scope, e: Expr, rest: string)
    requires IsFactor(sc, e) && Follows(e, rest)
    ensures ParseFactor(sc, Print(sc, e, rest)) == Parsed(e, EatBlanks(rest))
    decreases e, 1
  {
    hide ParseFactor;
    match e
    case Num(n) => NumberFactor(sc, n, rest);
    case Var(_) => NameRoundTrip(sc, e, rest);
    case Group(g) =>
      ParenthesesRoundTrip(sc, g, rest);
      GroupFactor(sc, g, rest);
    case NotOf(_) => UnaryRoundTrip(sc, e, rest);
    case NegOf(_) => UnaryRoundTrip(sc, e, rest);
    case Arg(_) => ArgRoundTrip(sc, e, rest);
    case Invoke(_, _) => CallRoundTrip(sc, e, rest);
  }

  lemma NumberFactor(sc: Scope, n: u32, rest: string)
    requires Stops(rest)
    ensures ParseFactor(sc, PrintNumber(n, rest)) == Parsed(Num(n), EatBlanks(rest))
  {
    NumberRoundTrip(n, rest);
  }

  lemma GroupFactor(sc: Scope, g: Expr, rest: string)
    requires InParentheses(sc, "(" + Print(sc, g, ")" + rest)) == Parsed(g, EatBlanks(rest))
    ensures ParseFactor(sc, Print(sc, Group(g), rest)) == Parsed(Group(g), EatBlanks(rest))
  {
    hide InParentheses;
  }

  /** Reading a printed term brings the parser's loop to the whole term. */
  lemma TermRoundTrip(sc: Scope, e: Expr, rest: string)
    requires IsTerm(sc, e) && Follows(e, rest)
    ensures ParseTerm(sc, Print(sc, e, rest)) == TermTail(sc, e, EatBlanks(rest))
    decreases e, 2
  {
    hide ParseFactor, Operator;
    if e.Binary? {
      var right := Print(sc, e.r, rest);
      var t := Spelling(e.op) + " " + right;
      TermStarts(sc, e.r, rest);
      OperatorRoundTrip(e.op, right);
      assert " " + Spelling(e.op) + " " + right == " " + t;
      TermRoundTrip(sc, e.l, " " + t);
      assert (" " + t)[1..] == t;
      assert EatBlanks(" " + t) == t;
      FactorRoundTrip(sc, e.r, rest);
    } else {
      FactorRoundTrip(sc, e, rest);
    }
  }

  lemma TermClosed(sc: Scope, e: Expr, rest: string)
    requires IsTerm(sc, e) && Follows(e, rest)
    requires var b := EatBlanks(rest); b == [] || !IsTermOperator(b[0])
    ensures ParseTerm(sc, Print(sc, e, rest)) == Parsed(e, EatBlanks(rest))
    decreases e, 3
  {
    hide ParseTerm;
    TermRoundTrip(sc, e, rest);
  }

  lemma ExprRoundTrip(sc: Scope, e: Expr, rest: string)
    requires IsExpr(sc, e) && Follows(e, rest)
    requires var b := EatBlanks(rest); b == [] || !IsTermOperator(b[0])
    ensures ParseExpr(sc, Print(sc, e, rest)) == ExprTail(sc, e, EatBlanks(rest))
    decreases e, 4
  {
    hide ParseTerm, ParseExpr, ExprTail;
    if e.Binary? && IsSum(e.op) {
      SumRoundTrip(sc, e, rest);
    } else {
      TermStarts(sc, e, rest);
      TermClosed(sc, e, rest);
      NoSignFirst(sc, e, rest);
    }
  }

  lemma NoSignFirst(sc: Scope, e: Expr, rest: string)
    requires Starts(Print(sc, e, rest))
    requires ParseTerm(sc, Print(sc, e, rest)) == Parsed(e, EatBlanks(rest))
    ensures ParseExpr(sc, Print(sc, e, rest)) == ExprTail(sc, e, EatBlanks(rest))
  {
    hide ParseTerm, ExprTail;
  }

  /** One more round of the loop over signs. */
  lemma SumRoundTrip(sc: Scope, e: Expr, rest: string)
    requires IsExpr(sc, e) && Follows(e, rest) && e.Binary? && IsSum(e.op)
    requires var b := EatBlanks(rest); b == [] || !IsTermOperator(b[0])
    ensures ParseExpr(sc, Print(sc, e, rest)) == ExprTail(sc, e, EatBlanks(rest))
    decreases e, 3
  {
    hide ParseTerm, ParseExpr, ExprTail;
    var right := Print(sc, e.r, rest);
    var t := Spelling(e.op) + " " + right;
    TermStarts(sc, e.r, rest);
    TermClosed(sc, e.r, rest);
    SignStep(sc, e, right, EatBlanks(rest));
    if e.l == Zero {
      assert "" + Spelling(e.op) + " " + right == t;
      ZeroFirst(sc, t);
    } else {
      assert " " + Spelling(e.op) + " " + right == " " + t;
      assert (" " + t)[1..] == t;
      assert EatBlanks(" " + t) == t;
      ExprRoundTrip(sc, e.l, " " + t);
    }
  }

  lemma ZeroFirst(sc: Scope, t: string)
    requires t != [] && IsSign(t[0])
    ensures ParseExpr(sc, t) == ExprTail(sc, Zero, t)
  {
    hide ExprTail;
  }

  lemma SignStep(sc: Scope, e: Expr, right: string, after: string)
    requires e.Binary? && IsSum(e.op) && Starts(right)
    requires ParseTerm(sc, right) == Parsed(e.r, after)
    ensures ExprTail(sc, e.l, Spelling(e.op) + " " + right) == ExprTail(sc, e, after)
  {
    hide ParseTerm;
    var t := Spelling(e.op) + " " + right;
    assert t[1..] == " " + right;
    assert (" " + right)[1..] == right;
    assert EatBlanks(t[1..]) == right;
  }

  /** Parsing a printed expression gives it back and consumes exactly its text. */
  lemma ClosedRoundTrip(sc: Scope, e: Expr, rest: string)
    requires IsExpr(sc, e) && Stops(rest)
    requires NoOperator(EatBlanks(rest))
    ensures ParseExpr(sc, Print(sc, e, rest)) == Parsed(e, EatBlanks(rest))
    decreases e, 5
  {
    hide ParseExpr;
    ExprRoundTrip(sc, e, rest);
  }

  // ----- every parsed tree is printable -----

  lemma {:induction false} TokenShape(s: string)
    requires Token(s).Parsed?
    ensures NoSeparators(Token(s).v)
    ensures Token(s).v != [] ==> s != [] && Token(s).v[0] == s[0]
    decreases |s|
  {
    if !IsSeparator(s[0]) {
      TokenShape(s[1..]);
      var name := Token(s[1..]).v;
      assert Token(s).v == [s[0]] + name;
    }
  }

  lemma NameShape(sc: Scope, s: string)
    requires s != [] && IsAlpha(s[0]) && ParseName(sc, s).Parsed?
    ensures IsFactor(sc, ParseName(sc, s).v) && !EndsOpen(ParseName(sc, s).v)
    decreases |s|, 1
  {
    TokenShape(s);
    var name := Token(s);
    assert !IsSeparator(s[0]);
    assert |name.rest| < |s|;
    if name.v == "not" || name.v == "neg" {
      ParenthesesShape(sc, name.rest);
    } else {
      assert FullName(sc, name.v)[|sc.fn| + 1..] == name.v;
    }
  }

  lemma ParenthesesShape(sc: Scope, s: string)
    requires s != [] && InParentheses(sc, s).Parsed?
    ensures IsExpr(sc, InParentheses(sc, s).v)
    decreases |s|, 0
  {
    hide ParseExpr, IsExpr;
    ExprShape(sc, Match('(', s).rest);
  }

  lemma CallShape(sc: Scope, s: string)
    requires ParseCall(sc, s).Parsed?
    ensures IsFactor(sc, ParseCall(sc, s).v)
    decreases |s|, 5
  {
    hide Token, ParseArgs;
    TokenShape(s);
    var head := CallHead(sc, s);
    if sc.arity[head.v] > 0 {
      ArgsShape(sc, sc.arity[head.v], head.rest);
    }
  }

  lemma ArgsShape(sc: Scope, n: nat, s: string)
    requires n > 0 && ParseArgs(sc, n, s).Parsed?
    ensures AreExprs(sc, ParseArgs(sc, n, s).v)
    decreases |s|, 7
  {
    hide ParseExpr, IsExpr;
    ExprShape(sc, s);
    var e := ParseExpr(sc, s);
    if n > 1 {
      var m := Match(',', e.rest);
      ArgsShape(sc, n - 1, m.rest);
      assert ParseArgs(sc, n, s).v[1..] == ParseArgs(sc, n - 1, m.rest).v;
    } else {
      assert ParseArgs(sc, n, s).v[1..] == [];
    }
  }

  lemma FactorShape(sc: Scope, s: string)
    requires ParseFactor(sc, s).Parsed?
    ensures var r := ParseFactor(sc, s); IsFactor(sc, r.v) && (EndsOpen(r.v) ==> NoOperator(r.rest))
    decreases |s|, 2
  {
    hide ParseExpr, ParseName, InParentheses, ParseCall, Number, NoOperator;
    if s[0] == '(' {
      ParenthesesShape(sc, s);
    } else if IsAlpha(s[0]) {
      NameShape(sc, s);
    } else if s[0] == '$' {
      ExprShape(sc, s[1..]);
    } else if s[0] == '@' {
      CallShape(sc, s[1..]);
    }
  }

  lemma TermTailShape(sc: Scope, left: Expr, s: string)
    requires IsTerm(sc, left) && (EndsOpen(left) ==> NoOperator(s)) && TermTail(sc, left, s).Parsed?
    ensures var r := TermTail(sc, left, s);
            && IsTerm(sc, r.v) && (EndsOpen(r.v) ==> NoOperator(r.rest))
            && (r.rest == [] || !IsTermOperator(r.rest[0]))
    decreases |s|, 3
  {
    hide ParseFactor;
    if s != [] && IsTermOperator(s[0]) {
      var op := Operator(s);
      FactorShape(sc, op.rest);
      var f := ParseFactor(sc, op.rest);
      TermTailShape(sc, Binary(op.v, left, f.v), f.rest);
    }
  }

  lemma TermShape(sc: Scope, s: string)
    requires ParseTerm(sc, s).Parsed?
    ensures var r := ParseTerm(sc, s);
            && IsTerm(sc, r.v) && (EndsOpen(r.v) ==> NoOperator(r.rest))
            && (r.rest == [] || !IsTermOperator(r.rest[0]))
    decreases |s|, 4
  {
    hide ParseFactor, TermTail;
    FactorShape(sc, s);
    TermTailShape(sc, ParseFactor(sc, s).v, ParseFactor(sc, s).rest);
  }

  lemma ExprTailShape(sc: Scope, left: Expr, s: string)
    requires IsExpr(sc, left) || (left == Zero && s != [] && IsSign(s[0]))
    requires (EndsOpen(left) ==> NoOperator(s)) && (s == [] || !IsTermOperator(s[0])) && ExprTail(sc, left, s).Parsed?
    ensures var r := ExprTail(sc, left, s); IsExpr(sc, r.v) && NoOperator(r.rest)
    decreases |s|, 5
  {
    hide ParseTerm;
    if s != [] && IsSign(s[0]) {
      var more := EatBlanks(s[1..]);
      TermShape(sc, more);
      var t := ParseTerm(sc, more);
      ExprTailShape(sc, Binary(if s[0] == '+' then Plus else Minus, left, t.v), t.rest);
    }
  }

  /** What the parser accepts is a printable tree, and no operator follows it. */
  lemma ExprShape(sc: Scope, s: string)
    requires ParseExpr(sc, s).Parsed?
    ensures var r := ParseExpr(sc, s); IsExpr(sc, r.v) && NoOperator(r.rest)
    decreases |s|, 6
  {
    hide ParseTerm, ExprTail;
    if s != [] && IsSign(s[0]) {
      ExprTailShape(sc, Zero, s);
    } else {
      TermShape(sc, s);
      ExprTailShape(sc, ParseTerm(sc, s).v, ParseTerm(sc, s).rest);
    }
  }

  /** Printing what was parsed and parsing that gives the same tree again. */
  lemma PrintOfParse(sc: Scope, s: string, rest: string)
    requires ParseExpr(sc, s).Parsed? && Stops(rest) && NoOperator(EatBlanks(rest))
    ensures ParseExpr(sc, Print(sc, ParseExpr(sc, s).v, rest)) == Parsed(ParseExpr(sc, s).v, EatBlanks(rest))
  {
    hide ParseExpr;
    ExprShape(sc, s);
    ClosedRoundTrip(sc, ParseExpr(sc, s).v, rest);
  }
}
