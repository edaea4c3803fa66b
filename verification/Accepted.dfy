/** What the compiler's acceptance of a text guarantees: variables are declared,
    calls have the right number of arguments, no label is printed twice. */
module Accepted {
  import opened Words
  import opened Tpp
  import opened Codegen
  import opened Grammar
  import opened Printing
  import opened Statements
  import opened Layout

  // ----- names are declared -----

  predicate ExprOk(e: Expr, vars: set<string>, arity: map<string, nat>)
    decreases e, 1
  {
    match e
    case Var(x) => x in vars
    case Group(g) => ExprOk(g, vars, arity)
    case Binary(_, l, r) => ExprOk(l, vars, arity) && ExprOk(r, vars, arity)
    case NotOf(g) => ExprOk(g, vars, arity)
    case NegOf(g) => ExprOk(g, vars, arity)
    case Arg(g) => ExprOk(g, vars, arity)
    case Invoke(f, es) => CallOk(f, es, vars, arity)
    case _ => true
  }

  predicate CallOk(f: string, es: seq<Expr>, vars: set<string>, arity: map<string, nat>)
    decreases es, 1
  {
    f in arity && arity[f] == |es| && ArgsOk(es, vars, arity)
  }

  predicate ArgsOk(es: seq<Expr>, vars: set<string>, arity: map<string, nat>)
    decreases es, 0
  {
    es == [] || (ExprOk(es[0], vars, arity) && ArgsOk(es[1..], vars, arity))
  }

  predicate StmtOk(s: Stmt, vars: set<string>, arity: map<string, nat>)
    decreases s, 1
  {
    match s
    case Let(x, e) => x in vars && ExprOk(e, vars, arity)
    case Return(e) => ExprOk(e, vars, arity)
    case Do(f, es) => CallOk(f, es, vars, arity)
    case If(c, t, _) => ExprOk(c, vars, arity) && OneLine(t) && StmtOk(t, vars, arity)
    case While(c, body) => ExprOk(c, vars, arity) && BlockOk(body, vars, arity)
  }

  predicate BlockOk(ss: seq<Stmt>, vars: set<string>, arity: map<string, nat>)
    decreases ss, 0
  {
    ss == [] || (StmtOk(ss[0], vars, arity) && BlockOk(ss[1..], vars, arity))
  }

  /** An expression of the grammar uses declared names only. */
  lemma {:induction false} GrammarOk(sc: Scope, e: Expr)
    requires IsExpr(sc, e) || IsTerm(sc, e) || IsFactor(sc, e)
    ensures ExprOk(e, sc.vars, sc.arity)
    decreases e, 1
  {
    FactorOnly(sc, e);
    match e
    case Group(g) => GrammarOk(sc, g);
    case Binary(op, l, r) => BinaryOk(sc, e);
    case NotOf(g) => GrammarOk(sc, g);
    case NegOf(g) => GrammarOk(sc, g);
    case Arg(g) => GrammarOk(sc, g);
    case Invoke(f, es) => GrammarArgsOk(sc, es);
    case _ =>
  }

  lemma FactorOnly(sc: Scope, e: Expr)
    requires IsExpr(sc, e) || IsTerm(sc, e) || IsFactor(sc, e)
    ensures e.Binary? || IsFactor(sc, e)
  {
    if !e.Binary? && IsExpr(sc, e) {
      assert IsTerm(sc, e);
    }
  }

  lemma {:induction false} BinaryOk(sc: Scope, e: Expr)
    requires e.Binary? && (IsExpr(sc, e) || IsTerm(sc, e) || IsFactor(sc, e))
    ensures ExprOk(e, sc.vars, sc.arity)
    decreases e, 0
  {
    BothSides(sc, e);
    if e.l != Zero {
      GrammarOk(sc, e.l);
    }
    GrammarOk(sc, e.r);
  }

  lemma BothSides(sc: Scope, e: Expr)
    requires e.Binary? && (IsExpr(sc, e) || IsTerm(sc, e) || IsFactor(sc, e))
    ensures e.l == Zero || IsExpr(sc, e.l) || IsTerm(sc, e.l)
    ensures IsTerm(sc, e.r) || IsFactor(sc, e.r)
  {
    assert !IsFactor(sc, e);
    if IsExpr(sc, e) && !IsSum(e.op) {
      assert IsTerm(sc, e);
    }
  }

  lemma {:induction false} GrammarArgsOk(sc: Scope, es: seq<Expr>)
    requires AreExprs(sc, es)
    ensures ArgsOk(es, sc.vars, sc.arity)
    decreases es, 0
  {
    if es != [] {
      GrammarOk(sc, es[0]);
      GrammarArgsOk(sc, es[1..]);
    }
  }

  predicate Extends(a: map<string, nat>, b: map<string, nat>) {
    forall f :: f in a ==> f in b && b[f] == a[f]
  }

  /** Later declarations do not invalidate earlier code. */
  lemma {:induction false} ExprOkLater(e: Expr, v: set<string>, a: map<string, nat>, v': set<string>, a': map<string, nat>)
    requires ExprOk(e, v, a) && v <= v' && Extends(a, a')
    ensures ExprOk(e, v', a')
    decreases e, 1
  {
    match e
    case Group(g) => ExprOkLater(g, v, a, v', a');
    case Binary(_, l, r) =>
      ExprOkLater(l, v, a, v', a');
      ExprOkLater(r, v, a, v', a');
    case NotOf(g) => ExprOkLater(g, v, a, v', a');
    case NegOf(g) => ExprOkLater(g, v, a, v', a');
    case Arg(g) => ExprOkLater(g, v, a, v', a');
    case Invoke(_, es) => ArgsOkLater(es, v, a, v', a');
    case _ =>
  }

  lemma {:induction false} ArgsOkLater(es: seq<Expr>, v: set<string>, a: map<string, nat>, v': set<string>, a': map<string, nat>)
    requires ArgsOk(es, v, a) && v <= v' && Extends(a, a')
    ensures ArgsOk(es, v', a')
    decreases es, 0
  {
    if es != [] {
      ExprOkLater(es[0], v, a, v', a');
      ArgsOkLater(es[1..], v, a, v', a');
    }
  }

  lemma {:induction false} OneLineOkLater(s: Stmt, v: set<string>, a: map<string, nat>, v': set<string>, a': map<string, nat>)
    requires OneLine(s) && StmtOk(s, v, a) && v <= v' && Extends(a, a')
    ensures StmtOk(s, v', a')
  {
    hide ExprOk, ArgsOk, Extends;
    match s
    case Let(_, e) => ExprOkLater(e, v, a, v', a');
    case Return(e) => ExprOkLater(e, v, a, v', a');
    case Do(_, es) =>
      ArgsOkLater(es, v, a, v', a');
      CallOkLater(s.f, es, v, a, v', a');
  }

  lemma CallOkLater(f: string, es: seq<Expr>, v: set<string>, a: map<string, nat>, v': set<string>, a': map<string, nat>)
    requires CallOk(f, es, v, a) && ArgsOk(es, v', a') && Extends(a, a')
    ensures CallOk(f, es, v', a')
  {
    hide ArgsOk;
  }

  // ----- lines -----

  /** The variable a line declares. */
  function Declares(x: Line): set<string> {
    match x
    case Plain(s) => TargetOf(s)
    case _ => {}
  }

  function TargetOf(s: Stmt): set<string> {
    match s
    case Let(x, _) => {x}
    case If(_, t, _) => if t.Let? then {t.x} else {}
    case _ => {}
  }

  /** The function a line declares. */
  function Defines(x: Line): map<string, nat> {
    match x
    case FunctionLine(f, n) => map[f := n]
    case _ => map[]
  }

  predicate LineOk(x: Line, vars: set<string>, arity: map<string, nat>) {
    match x
    case Plain(s) => !s.While? && StmtOk(s, vars, arity)
    case WhileLine(c) => ExprOk(c, vars, arity)
    case _ => true
  }

  lemma LineOkLater(x: Line, v: set<string>, a: map<string, nat>, v': set<string>, a': map<string, nat>)
    requires LineOk(x, v, a) && v <= v' && Extends(a, a')
    ensures LineOk(x, v', a')
  {
    hide ExprOk, Extends;
    match x
    case Plain(s) =>
      if s.If? {
        ExprOkLater(s.c, v, a, v', a');
        OneLineOkLater(s.s, v, a, v', a');
      } else {
        OneLineOkLater(s, v, a, v', a');
      }
    case WhileLine(c) => ExprOkLater(c, v, a, v', a');
    case FunctionLine(_, _) =>
    case EndwLine =>
    case EndfLine =>
  }

  /** The number of the line an `if` stands on; every other line has none. */
  function IfNumber(x: Line): Option<nat> {
    if x.Plain? && x.s.If? then Some(x.s.line) else None
  }

  /** What reading one line does to the context. */
  predicate LineRead(cx: Context, line: nat, x: Line, cx': Context) {
    && LineOk(x, cx'.vars, cx'.arity)
    && cx'.vars == cx.vars + Declares(x)
    && cx'.arity == cx.arity + Defines(x)
    && (x.FunctionLine? ==> x.f !in cx.arity)
    && (IfNumber(x).Some? ==> IfNumber(x).value == line)
  }

  lemma LetRead(cx: Context, s: string)
    requires cx.fn.Some? && ReadLet(cx, s).Parsed?
    ensures var (x, cx') := ReadLet(cx, s).v; LineRead(cx, 0, Plain(x), cx') && x.Let?
  {
    hide Token, IsExpr, ParseExpr, ExprOk;
    var name := Token(s);
    var x := FullName(ScopeOf(cx), name.v);
    var cx' := cx.(vars := cx.vars + {x});
    var m := Match('=', name.rest);
    ExprShape(ScopeOf(cx'), m.rest);
    GrammarOk(ScopeOf(cx'), ParseExpr(ScopeOf(cx'), m.rest).v);
    assert cx'.arity == cx.arity + map[];
  }

  lemma CallRead(cx: Context, s: string)
    requires ReadCall(cx, s).Parsed?
    ensures var (x, cx') := ReadCall(cx, s).v; LineRead(cx, 0, Plain(x), cx') && x.Do?
  {
    hide ParseCall;
    var e := ParseCall(ScopeOf(cx), s).v;
    CallShape(ScopeOf(cx), s);
    GrammarArgsOk(ScopeOf(cx), e.args);
    assert cx.arity == cx.arity + map[];
  }

  lemma SimpleRead(cx: Context, keyword: string, s: string)
    requires cx.fn.Some? && ReadSimple(cx, keyword, s).Parsed?
    ensures var (x, cx') := ReadSimple(cx, keyword, s).v; LineRead(cx, 0, Plain(x), cx')
  {
    hide ReadLet, ParseExpr, IsExpr, ExprOk;
    if keyword == "let" {
      LetRead(cx, s);
    } else {
      ExprShape(ScopeOf(cx), s);
      GrammarOk(ScopeOf(cx), ParseExpr(ScopeOf(cx), s).v);
      assert cx.arity == cx.arity + map[];
    }
  }

  lemma OneLineRead(cx: Context, s: string)
    requires ReadOneLine(cx, s).Parsed?
    ensures var (x, cx') := ReadOneLine(cx, s).v; LineRead(cx, 0, Plain(x), cx')
  {
    hide ReadCall, ReadSimple, Keyword, EatBlanks, LineRead;
    var t := EatBlanks(s);
    if t != [] && t[0] == '@' {
      CallRead(cx, t[1..]);
    } else {
      var k := Keyword(t);
      SimpleRead(cx, k.v, k.rest);
    }
  }

  lemma ConditionRead(cx: Context, s: string)
    requires cx.fn.Some? && Condition(ScopeOf(cx), s).Parsed?
    ensures ExprOk(Condition(ScopeOf(cx), s).v, cx.vars, cx.arity)
  {
    hide InParentheses, IsExpr, ExprOk;
    ParenthesesShape(ScopeOf(cx), s);
    GrammarOk(ScopeOf(cx), Condition(ScopeOf(cx), s).v);
  }

  lemma IfRead(cx: Context, line: nat, s: string)
    requires cx.fn.Some? && ReadIf(cx, line, s).Parsed?
    ensures var (x, cx') := ReadIf(cx, line, s).v; LineRead(cx, line, Plain(x), cx')
  {
    hide ReadOneLine, Condition, ExprOk;
    var c := Condition(ScopeOf(cx), s);
    ConditionRead(cx, s);
    OneLineRead(cx, c.rest);
    var x := ReadOneLine(cx, c.rest);
    ExprOkLater(c.v, cx.vars, cx.arity, x.v.1.vars, x.v.1.arity);
  }

  lemma StatementRead(cx: Context, line: nat, s: string)
    requires ReadStatement(cx, line, s).Parsed?
    ensures var (x, cx') := ReadStatement(cx, line, s).v; LineRead(cx, line, x, cx')
  {
    hide AfterKeyword, ReadCall, Keyword, EatBlanks;
    var t := EatBlanks(s);
    if t != [] && t[0] == '@' {
      CallRead(cx, t[1..]);
    } else {
      var k := Keyword(t);
      KeywordRead(cx, line, k.v, k.rest);
    }
  }

  lemma KeywordRead(cx: Context, line: nat, keyword: string, s: string)
    requires AfterKeyword(cx, line, keyword, s).Parsed?
    ensures var (x, cx') := AfterKeyword(cx, line, keyword, s).v; LineRead(cx, line, x, cx')
  {
    hide ReadIf, ReadSimple, Condition, FunctionHead, ExprOk;
    assert cx.arity == cx.arity + map[];
    if keyword == "function" {
      FunctionRead(cx, line, s);
    } else if keyword == "while" {
      ConditionRead(cx, s);
    } else if keyword == "if" {
      IfRead(cx, line, s);
    } else if keyword != "endf" && keyword != "endw" {
      SimpleRead(cx, keyword, s);
    }
  }

  lemma FunctionRead(cx: Context, line: nat, s: string)
    requires ReadFunction(cx, s).Parsed?
    ensures var (x, cx') := ReadFunction(cx, s).v; LineRead(cx, line, x, cx')
  {
    hide FunctionHead;
    var h := FunctionHead(s);
    assert cx.arity[h.v.0 := h.v.1] == cx.arity + map[h.v.0 := h.v.1];
  }

  // ----- the whole text -----

  function Declared(lines: seq<Line>): set<string> {
    if lines == [] then {} else Declares(lines[0]) + Declared(lines[1..])
  }

  function Defined(lines: seq<Line>): map<string, nat> {
    if lines == [] then map[] else Defines(lines[0]) + Defined(lines[1..])
  }

  /** No function is declared twice, nor under one of the given names. */
  predicate FreshNames(lines: seq<Line>, names: set<string>) {
    lines == [] ||
    (&& (lines[0].FunctionLine? ==> lines[0].f !in names)
     && FreshNames(lines[1..], names + Defines(lines[0]).Keys))
  }

  /** Ifs carry ascending numbers, from `lo` on. */
  predicate Ascending(lines: seq<Line>, lo: nat) {
    lines == [] ||
    (match IfNumber(lines[0])
     case None => Ascending(lines[1..], lo)
     case Some(l) => lo <= l && Ascending(lines[1..], l + 1))
  }

  predicate LinesOk(lines: seq<Line>, vars: set<string>, arity: map<string, nat>) {
    forall x :: x in lines ==> LineOk(x, vars, arity)
  }

  lemma {:induction false} AscendingLower(lines: seq<Line>, lo: nat, lo': nat)
    requires Ascending(lines, lo) && lo' <= lo
    ensures Ascending(lines, lo')
  {
    if lines != [] && IfNumber(lines[0]).None? {
      AscendingLower(lines[1..], lo, lo');
    }
  }

  lemma {:induction false} FreshKeys(lines: seq<Line>, names: set<string>, f: string)
    requires FreshNames(lines, names) && f in Defined(lines)
    ensures f !in names
  {
    if lines != [] && f in Defined(lines[1..]) {
      FreshKeys(lines[1..], names + Defines(lines[0]).Keys, f);
    }
  }

  /** Every line of an accepted text uses only names the text declares, function
      names are distinct, and the ifs are numbered in ascending order. */
  lemma {:induction false} TextRead(cx: Context, line: nat, s: string)
    requires ReadLines(cx, line, s).Some?
    ensures var lines := ReadLines(cx, line, s).value;
            && LinesOk(lines, cx.vars + Declared(lines), cx.arity + Defined(lines))
            && FreshNames(lines, cx.arity.Keys)
            && Ascending(lines, line)
    decreases |s|
  {
    hide ReadStatement, LineOk, SkipNewlines, CheckRun;
    var t := SkipNewlines(s);
    if t != [] && CheckRun(t).GoOn? {
      var here := line + |s| - |t|;
      var x := ReadStatement(cx, here, CheckRun(t).s);
      StatementRead(cx, here, CheckRun(t).s);
      TextRead(x.v.1, here + 1, x.rest[1..]);
      OneLineMore(cx, line, here, x.v.0, x.v.1, ReadLines(x.v.1, here + 1, x.rest[1..]).value);
    }
  }

  lemma OneLineMore(cx: Context, line: nat, here: nat, x: Line, cx': Context, more: seq<Line>)
    requires LineRead(cx, here, x, cx') && line <= here
    requires LinesOk(more, cx'.vars + Declared(more), cx'.arity + Defined(more))
    requires FreshNames(more, cx'.arity.Keys) && Ascending(more, here + 1)
    ensures LinesOk([x] + more, cx.vars + Declared([x] + more), cx.arity + Defined([x] + more))
    ensures FreshNames([x] + more, cx.arity.Keys) && Ascending([x] + more, line)
  {
    hide LineOk, Declares, Defines, IfNumber;
    var lines := [x] + more;
    assert lines[1..] == more;
    assert cx'.vars + Declared(more) == cx.vars + Declared(lines);
    assert cx'.arity + Defined(more) == cx.arity + Defined(lines);
    forall f | f in cx'.arity
      ensures f !in Defined(more)
    {
      if f in Defined(more) {
        FreshKeys(more, cx'.arity.Keys, f);
      }
    }
    assert Extends(cx'.arity, cx.arity + Defined(lines));
    LineOkLater(x, cx'.vars, cx'.arity, cx.vars + Declared(lines), cx.arity + Defined(lines));
    assert cx'.arity.Keys == cx.arity.Keys + Defines(x).Keys;
    AscendingLower(more, here + 1, line);
    FreshMore(x, cx, cx', more);
  }

  lemma FreshMore(x: Line, cx: Context, cx': Context, more: seq<Line>)
    requires cx'.arity.Keys == cx.arity.Keys + Defines(x).Keys && FreshNames(more, cx'.arity.Keys)
    requires x.FunctionLine? ==> x.f !in cx.arity
    ensures FreshNames([x] + more, cx.arity.Keys)
  {
    hide Defines;
    assert ([x] + more)[1..] == more;
  }

  // ----- from lines to declarations -----

  lemma LinesOkSplit(x: seq<Line>, y: seq<Line>, vars: set<string>, arity: map<string, nat>)
    requires LinesOk(x + y, vars, arity)
    ensures LinesOk(x, vars, arity) && LinesOk(y, vars, arity)
  {
    hide LineOk;
    forall l | l in x || l in y
      ensures LineOk(l, vars, arity)
    {
      assert l in x + y;
    }
  }

  lemma {:induction false} BlockLinesOk(ss: seq<Stmt>, vars: set<string>, arity: map<string, nat>)
    requires LinesOk(Flatten(ss), vars, arity)
    ensures BlockOk(ss, vars, arity)
    decreases ss, 0
  {
    hide LineOk, LinesOk;
    if ss != [] {
      LinesOkSplit(FlattenOne(ss[0]), Flatten(ss[1..]), vars, arity);
      StatementLinesOk(ss[0], vars, arity);
      BlockLinesOk(ss[1..], vars, arity);
    }
  }

  lemma {:induction false} StatementLinesOk(s: Stmt, vars: set<string>, arity: map<string, nat>)
    requires LinesOk(FlattenOne(s), vars, arity)
    ensures StmtOk(s, vars, arity)
    decreases s, 1
  {
    hide ExprOk, Flatten;
    if s.While? {
      LinesOkSplit([WhileLine(s.c)], Flatten(s.body) + [EndwLine], vars, arity);
      LinesOkSplit(Flatten(s.body), [EndwLine], vars, arity);
      assert LineOk([WhileLine(s.c)][0], vars, arity);
      BlockLinesOk(s.body, vars, arity);
    } else {
      assert LineOk(FlattenOne(s)[0], vars, arity);
    }
  }

  /** The least number the next `if` may carry. */
  function NextNumber(lines: seq<Line>, lo: nat): nat {
    if lines == [] then lo
    else NextNumber(lines[1..], if IfNumber(lines[0]).Some? then IfNumber(lines[0]).value + 1 else lo)
  }

  lemma {:induction false} AscendingSplit(x: seq<Line>, y: seq<Line>, lo: nat)
    requires Ascending(x + y, lo)
    ensures Ascending(x, lo) && Ascending(y, NextNumber(x, lo)) && NextNumber(x, lo) >= lo
    ensures NextNumber(x + y, lo) == NextNumber(y, NextNumber(x, lo))
    decreases |x|
  {
    hide IfNumber;
    if x == [] {
      assert x + y == y;
    } else {
      assert (x + y)[1..] == x[1..] + y;
      AscendingSplit(x[1..], y, if IfNumber(x[0]).Some? then IfNumber(x[0]).value + 1 else lo);
    }
  }

  ghost predicate Between(numbers: set<nat>, lo: nat, hi: nat) {
    forall l :: l in numbers ==> lo <= l < hi
  }

  /** Ascending numbers keep the ifs of a block apart. */
  lemma {:induction false} BlockApart(ss: seq<Stmt>, lo: nat, vars: set<string>, arity: map<string, nat>)
    requires Ascending(Flatten(ss), lo) && BlockOk(ss, vars, arity)
    ensures IfsApart(ss) && Between(IfLinesIn(ss), lo, NextNumber(Flatten(ss), lo))
    decreases ss, 0
  {
    hide ExprOk, Ascending, NextNumber, FlattenOne, IfLines, IfsApartOne, StmtOk;
    if ss != [] {
      var a, b := FlattenOne(ss[0]), Flatten(ss[1..]);
      AscendingSplit(a, b, lo);
      StatementApart(ss[0], lo, vars, arity);
      var mid := NextNumber(a, lo);
      BlockApart(ss[1..], mid, vars, arity);
      NextAbove(b, mid);
    }
  }

  lemma NextAbove(lines: seq<Line>, lo: nat)
    requires Ascending(lines, lo)
    ensures NextNumber(lines, lo) >= lo
  {
    hide Ascending, NextNumber;
    assert lines + [] == lines;
    AscendingSplit(lines, [], lo);
  }

  lemma {:induction false} StatementApart(s: Stmt, lo: nat, vars: set<string>, arity: map<string, nat>)
    requires Ascending(FlattenOne(s), lo) && StmtOk(s, vars, arity)
    ensures IfsApartOne(s) && Between(IfLines(s), lo, NextNumber(FlattenOne(s), lo))
    decreases s, 1
  {
    hide ExprOk, IfsApart, IfLinesIn, Flatten;
    if s.While? {
      LoopApart(s, lo, vars, arity);
    } else if s.If? {
      hide Ascending, NextNumber;
      OneNumber(s, lo);
    }
  }

  lemma OneNumber(s: Stmt, lo: nat)
    requires s.If? && Ascending([Plain(s)], lo)
    ensures lo <= s.line < NextNumber([Plain(s)], lo)
  {
    assert NextNumber([], s.line + 1) == s.line + 1;
  }

  lemma {:induction false} LoopApart(s: Stmt, lo: nat, vars: set<string>, arity: map<string, nat>)
    requires s.While? && Ascending(FlattenOne(s), lo) && BlockOk(s.body, vars, arity)
    ensures IfsApart(s.body) && Between(IfLinesIn(s.body), lo, NextNumber(FlattenOne(s), lo))
    decreases s, 0
  {
    hide Ascending, NextNumber, IfsApart, IfLinesIn, Flatten, BlockOk;
    var head, body, tail := [WhileLine(s.c)], Flatten(s.body), [EndwLine];
    AscendingSplit(head, body + tail, lo);
    NoNumber(WhileLine(s.c), lo);
    AscendingSplit(body, tail, lo);
    NoNumber(EndwLine, NextNumber(body, lo));
    BlockApart(s.body, lo, vars, arity);
  }

  lemma NoNumber(x: Line, lo: nat)
    requires IfNumber(x).None?
    ensures NextNumber([x], lo) == lo
  {
    assert NextNumber([], lo) == lo;
  }

  predicate DeclsOk(decls: seq<Decl>, vars: set<string>, arity: map<string, nat>) {
    forall d :: d in decls ==> BlockOk(d.body.body, vars, arity)
  }

  lemma {:induction false} ProgramOk(decls: seq<Decl>, vars: set<string>, arity: map<string, nat>)
    requires LinesOk(ProgramLines(decls), vars, arity)
    ensures DeclsOk(decls, vars, arity)
  {
    hide LinesOk, LineOk, BlockOk, Flatten;
    if decls != [] {
      var d := decls[0];
      LinesOkSplit(DeclLines(d), ProgramLines(decls[1..]), vars, arity);
      LinesOkSplit([FunctionLine(d.f, d.body.arity)], Flatten(d.body.body) + [EndfLine], vars, arity);
      LinesOkSplit(Flatten(d.body.body), [EndfLine], vars, arity);
      BlockLinesOk(d.body.body, vars, arity);
      ProgramOk(decls[1..], vars, arity);
    }
  }

  lemma {:induction false} FreshSplit(x: seq<Line>, y: seq<Line>, names: set<string>)
    requires FreshNames(x + y, names)
    ensures FreshNames(x, names) && FreshNames(y, names + Defined(x).Keys)
    decreases |x|
  {
    hide Defines;
    if x == [] {
      assert x + y == y;
      assert names + Defined(x).Keys == names;
    } else {
      assert (x + y)[1..] == x[1..] + y;
      FreshSplit(x[1..], y, names + Defines(x[0]).Keys);
      assert names + Defined(x).Keys == names + Defines(x[0]).Keys + Defined(x[1..]).Keys;
    }
  }

  lemma {:induction false} DefinedSplit(x: seq<Line>, y: seq<Line>)
    ensures Defined(x + y) == Defined(x) + Defined(y)
    decreases |x|
  {
    hide Defines;
    if x == [] {
      assert x + y == y;
    } else {
      assert (x + y)[1..] == x[1..] + y;
      DefinedSplit(x[1..], y);
    }
  }

  lemma {:induction false} BlockDefinesNothing(ss: seq<Stmt>)
    ensures Defined(Flatten(ss)) == map[]
    decreases ss, 0
  {
    if ss != [] {
      OneDefinesNothing(ss[0]);
      BlockDefinesNothing(ss[1..]);
      DefinedSplit(FlattenOne(ss[0]), Flatten(ss[1..]));
    }
  }

  lemma {:induction false} OneDefinesNothing(s: Stmt)
    ensures Defined(FlattenOne(s)) == map[]
    decreases s, 1
  {
    if s.While? {
      BlockDefinesNothing(s.body);
      DefinedSplit([WhileLine(s.c)], Flatten(s.body) + [EndwLine]);
      DefinedSplit(Flatten(s.body), [EndwLine]);
    }
  }

  lemma DeclDefines(d: Decl)
    ensures Defined(DeclLines(d)) == map[d.f := d.body.arity]
  {
    hide Flatten, Defined;
    BlockDefinesNothing(d.body.body);
    LineDefines(FunctionLine(d.f, d.body.arity));
    LineDefines(EndfLine);
    DefinedSplit([FunctionLine(d.f, d.body.arity)], Flatten(d.body.body) + [EndfLine]);
    DefinedSplit(Flatten(d.body.body), [EndfLine]);
  }

  lemma LineDefines(x: Line)
    ensures Defined([x]) == Defines(x)
  {
    assert Defined([]) == map[];
  }

  /** The functions of a program by name. */
  function Functions(decls: seq<Decl>): Program {
    if decls == [] then map[] else map[decls[0].f := decls[0].body] + Functions(decls[1..])
  }

  /** The arities the compiler recorded are those of the program's functions. */
  lemma {:induction false} DefinedIsFunctions(decls: seq<Decl>)
    ensures Defined(ProgramLines(decls)).Keys == Functions(decls).Keys
    ensures forall f :: f in Functions(decls) ==> Defined(ProgramLines(decls))[f] == Functions(decls)[f].arity
  {
    hide DeclLines, Defined;
    if decls == [] {
      NothingDefined();
    } else {
      DefinedIsFunctions(decls[1..]);
      DeclDefines(decls[0]);
      DefinedSplit(DeclLines(decls[0]), ProgramLines(decls[1..]));
    }
  }

  lemma NothingDefined()
    ensures Defined([]) == map[]
  {
  }

  /** The labels of an accepted program do not clash. */
  lemma {:induction false} AcceptedLabels(decls: seq<Decl>, names: set<string>, lo: nat, vars: set<string>, arity: map<string, nat>)
    requires FreshNames(ProgramLines(decls), names) && Ascending(ProgramLines(decls), lo)
    requires DeclsOk(decls, vars, arity)
    ensures WellLabelled(decls) && Between(AllIfLines(decls), lo, NextNumber(ProgramLines(decls), lo))
    ensures forall d :: d in decls ==> d.f !in names
    decreases |decls|
  {
    hide DeclLines, Ascending, FreshNames, NextNumber, IfsApart, IfLinesIn, BlockOk, Defined;
    if decls != [] {
      var d := decls[0];
      FreshSplit(DeclLines(d), ProgramLines(decls[1..]), names);
      DeclDefines(d);
      AscendingSplit(DeclLines(d), ProgramLines(decls[1..]), lo);
      var mid := NextNumber(DeclLines(d), lo);
      assert Defined(DeclLines(d)).Keys == {d.f};
      AcceptedLabels(decls[1..], names + {d.f}, mid, vars, arity);
      NextAbove(ProgramLines(decls[1..]), mid);
      DeclApart(d, names, lo, vars, arity);
    }
  }

  lemma DeclApart(d: Decl, names: set<string>, lo: nat, vars: set<string>, arity: map<string, nat>)
    requires FreshNames(DeclLines(d), names) && Ascending(DeclLines(d), lo) && BlockOk(d.body.body, vars, arity)
    ensures IfsApart(d.body.body) && Between(IfLinesIn(d.body.body), lo, NextNumber(DeclLines(d), lo))
    ensures d.f !in names
  {
    hide Flatten, Ascending, NextNumber, IfsApart, IfLinesIn, BlockOk;
    var head, body, tail := [FunctionLine(d.f, d.body.arity)], Flatten(d.body.body), [EndfLine];
    AscendingSplit(head, body + tail, lo);
    NoNumber(head[0], lo);
    AscendingSplit(body, tail, lo);
    NoNumber(EndfLine, NextNumber(body, lo));
    BlockApart(d.body.body, lo, vars, arity);
  }

  // ----- nesting -----

  /** A block that is printed at all is nested no deeper than the table of open
      loops allows. */
  lemma {:induction false} PrintedIsShallow(ss: seq<Stmt>, more: seq<Line>, k: Counters)
    requires EmitLines(Flatten(ss) + more, k).Some? && |k.open| <= MAX_NESTING + 1
    ensures |k.open| + Nesting(ss) <= MAX_NESTING + 1
    decreases ss, 0
  {
    hide EmitLine, StmtCode, BlockCode, NestingOne, FlattenOne;
    if ss == [] {
    } else {
      var s, rest := ss[0], ss[1..];
      assert Flatten(ss) + more == FlattenOne(s) + (Flatten(rest) + more);
      StatementIsShallow(s, Flatten(rest) + more, k);
      StatementOnLines(s, k);
      EmitAppend(FlattenOne(s), Flatten(rest) + more, k);
      PrintedIsShallow(rest, more, k.(next := k.next + Loops(s)));
    }
  }

  lemma {:induction false} StatementIsShallow(s: Stmt, more: seq<Line>, k: Counters)
    requires EmitLines(FlattenOne(s) + more, k).Some? && |k.open| <= MAX_NESTING + 1
    ensures |k.open| + NestingOne(s) <= MAX_NESTING + 1
    decreases s, 1
  {
    hide StmtCode, BlockCode, Nesting, Flatten;
    if s.While? {
      var lines := FlattenOne(s) + more;
      assert lines[1..] == Flatten(s.body) + ([EndwLine] + more);
      PrintedIsShallow(s.body, [EndwLine] + more, EmitLine(WhileLine(s.c), k).value.1);
    }
  }

  lemma {:induction false} ProgramIsShallow(decls: seq<Decl>, k: Counters)
    requires EmitLines(ProgramLines(decls), k).Some? && k.open == []
    ensures ShallowDecls(decls)
  {
    hide EmitLine, FunctionCode, Flatten, Nesting;
    if decls != [] {
      var d := decls[0];
      var more := ProgramLines(decls[1..]);
      assert ProgramLines(decls)[1..] == Flatten(d.body.body) + ([EndfLine] + more);
      DeclIsShallow(d, more, k);
      DeclOnLines(d, k);
      EmitAppend(DeclLines(d), more, k);
      ProgramIsShallow(decls[1..], k.(n := 0, next := k.next + LoopsIn(d.body.body)));
    }
  }

  lemma DeclIsShallow(d: Decl, more: seq<Line>, k: Counters)
    requires EmitLines(DeclLines(d) + more, k).Some? && k.open == []
    ensures Nesting(d.body.body) <= MAX_NESTING + 1
  {
    hide Flatten, Nesting;
    var lines := DeclLines(d) + more;
    assert lines[1..] == Flatten(d.body.body) + ([EndfLine] + more);
    PrintedIsShallow(d.body.body, [EndfLine] + more, EmitLine(lines[0], k).value.1);
  }

  // ----- the whole text -----

  /** A text the compiler accepts whose functions and loops are all closed. */
  ghost predicate Compiles(text: string, decls: seq<Decl>) {
    var lines := ReadLines(START, 1, text);
    && lines.Some? && EmitLines(lines.value, Counters(0, 0, [])).Some?
    && Split(lines.value) == Some(decls)
  }

  function LinesOf(text: string): seq<Line>
    requires ReadLines(START, 1, text).Some?
  {
    ReadLines(START, 1, text).value
  }

  lemma NoLoops(lines: seq<Line>, vars: set<string>, arity: map<string, nat>)
    requires LinesOk(lines, vars, arity)
    ensures NoLoopInside(lines)
  {
    hide StmtOk;
    forall x | x in lines && x.Plain?
      ensures !x.s.While?
    {
      assert LineOk(x, vars, arity);
    }
  }

  /** What acceptance of a text guarantees: what was printed is the code of its
      functions; no label occurs twice; every name used is declared. */
  lemma AcceptedText(text: string, decls: seq<Decl>)
    requires Compiles(text, decls)
    ensures LinesOf(text) == ProgramLines(decls)
    ensures EmitLines(LinesOf(text), Counters(0, 0, [])).value.0 == ProgramCode(decls, 0)
    ensures WellLabelled(decls)
    ensures DeclsOk(decls, Declared(LinesOf(text)), Defined(ProgramLines(decls)))
  {
    hide EmitLines, Split, WellLabelled, FreshNames, Ascending, LinesOk, Defined, Declared, ReadLines, ProgramLines, ProgramCode;
    var lines := LinesOf(text);
    TextRead(START, 1, text);
    assert {} + Declared(lines) == Declared(lines);
    assert map[] + Defined(lines) == Defined(lines);
    NoLoops(lines, Declared(lines), Defined(lines));
    SplitIsProgram(lines);
    ProgramOk(decls, Declared(lines), Defined(lines));
    assert START.arity.Keys == {};
    AcceptedLabels(decls, {}, 1, Declared(lines), Defined(lines));
    ProgramIsShallow(decls, Counters(0, 0, []));
    ProgramOnLines(decls, Counters(0, 0, []));
  }
}
