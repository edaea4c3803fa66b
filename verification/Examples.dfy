/** Three small programs carried through from their text to their run. */
module Examples {
  import opened Words
  import opened Isa
  import opened Machine
  import opened Assembly
  import opened Tpp
  import opened Codegen
  import opened Chunks
  import opened Setting
  import opened Correctness
  import opened Grammar
  import opened Printing
  import opened Statements
  import opened Layout
  import opened Accepted
  import opened Programs
  import opened Rendering
  import opened Results
  import opened Installation

  // ----- a program that ends -----

  /** `main` returns 7. */
  const SEVEN := [Decl("main", Function(0, [Return(Num(7))]))]

  lemma SevenLines()
    ensures ProgramLines(SEVEN) == [FunctionLine("main", 0), Line.Plain(Return(Num(7))), EndfLine]
  {
    var ss := [Return(Num(7))];
    assert Flatten(ss) == FlattenOne(ss[0]) + Flatten(ss[1..]);
    assert Flatten(ss) == [Line.Plain(Return(Num(7)))];
  }

  /** The text, line by line. */
  lemma SevenText()
    ensures TextOf(SEVEN) == "function main(0)\nreturn 7\nendf\n"
  {
    hide PrintNumber, PrintLine, AfterLine;
    SevenLines();
    var lines := ProgramLines(SEVEN);
    var cx := AfterLine(START, lines[0]);
    NoText(AfterLine(AfterLine(cx, lines[1]), lines[2]), 4);
    LineText(AfterLine(cx, lines[1]), 3, lines[2..]);
    LineText(cx, 2, lines[1..]);
    LineText(START, 1, lines);
    assert lines[1..][1..] == lines[2..] && lines[2..][1..] == [];
    SevenPieces();
  }

  lemma SevenPieces()
    ensures var f, cx := FunctionLine("main", 0), AfterLine(START, FunctionLine("main", 0));
            var r := Line.Plain(Return(Num(7)));
            && PrintLine(AfterLine(cx, r), EndfLine, "\n" + "") == "endf\n"
            && PrintLine(cx, r, "\n" + "endf\n") == "return 7\nendf\n"
            && PrintLine(START, f, "\n" + "return 7\nendf\n") == "function main(0)\nreturn 7\nendf\n"
  {
    Digit1(0, ")" + ("\n" + "return 7\nendf\n"));
    Digit1(7, "\n" + "endf\n");
  }

  lemma NoText(cx: Context, line: nat)
    ensures PrintLines(cx, line, []) == ""
  {
  }

  /** A line without a number, and the lines after it. */
  lemma LineText(cx: Context, line: nat, lines: seq<Line>)
    requires lines != [] && IfNumber(lines[0]).None?
    ensures PrintLines(cx, line, lines) ==
            PrintLine(cx, lines[0], "\n" + PrintLines(AfterLine(cx, lines[0]), line + 1, lines[1..]))
  {
    hide PrintLine, AfterLine;
    assert Newlines(0, PrintLine(cx, lines[0], "\n" + PrintLines(AfterLine(cx, lines[0]), line + 1, lines[1..]))) ==
           PrintLine(cx, lines[0], "\n" + PrintLines(AfterLine(cx, lines[0]), line + 1, lines[1..]));
  }

  lemma Digit1(n: nat, rest: string)
    requires n < 10
    ensures PrintNumber(n, rest) == ["0123456789"[n]] + rest
  {
  }

  lemma SevenIsProgram()
    ensures IsProgram(SEVEN) && Careful(SEVEN)
  {
    SevenLines();
    var lines := ProgramLines(SEVEN);
    var cx1 := AfterLine(START, lines[0]);
    assert IsLine(START, lines[0]);
    assert AreLines(AfterLine(cx1, lines[1]), 3, lines[2..]);
    assert lines[1..][1..] == lines[2..];
    assert AreLines(cx1, 2, lines[1..]);
    assert CarefulBlock(SEVEN[0].body.body);
  }

  lemma SevenMeans(st: Store)
    ensures "main" in Functions(SEVEN) && Functions(SEVEN)["main"] == SEVEN[0].body
    ensures var r := MainResult(Functions(SEVEN), [], st, 10);
            r.Done? && r.v == Returned(7) && r.use.data <= 3 && r.use.calls <= 3
  {
    assert Functions(SEVEN) == map["main" := SEVEN[0].body];
    assert Eval(Functions(SEVEN), Num(7), [], st, 10).v == 7;
  }

  lemma {:induction false} SizeBound(code: seq<Asm>)
    ensures Size(code) <= 16 * |code|
  {
    if code != [] {
      SizeBound(code[1..]);
    }
  }

  lemma SevenFits()
    requires Compiles(TextOf(SEVEN), SEVEN)
    ensures Extent(TextOf(SEVEN), SEVEN, 0) < 0x1_0000_0000
  {
    hide EmitLines, Split, FullCode, TextOf, ReadLines, Size;
    AcceptedText(TextOf(SEVEN), SEVEN);
    SevenLines();
    assert Declared(ProgramLines(SEVEN)[2..]) == {};
    assert Declared(ProgramLines(SEVEN)[1..]) == {};
    SizeBound(FullCode(SEVEN));
    SevenLength();
  }

  lemma SevenLength()
    ensures |FullCode(SEVEN)| <= 100
  {
    var d := SEVEN[0];
    assert ProgramCode(SEVEN[1..], LoopsIn(d.body.body)) == [];
    assert ProgramCode(SEVEN, 0) == FunctionCode(d.f, d.body.body, d.body.arity, 0);
    assert BlockCode(d.body.body[1..], 0, 0) == [];
    assert |BlockCode(d.body.body, 0, 0)| == |StmtCode(Return(Num(7)), 0, 0)|;
  }

  /** Its text is accepted, and assembled at address 0 the program comes back
      with 7 in R7. */
  lemma SevenRuns() returns (s: State, n: nat, t: State)
    ensures Compiles(TextOf(SEVEN), SEVEN)
    ensures Run(n, s) == Next(t) && t.regs[7] == 7
  {
    hide IsProgram, Careful, EmitLines, Split, Extent, MainResult, Functions, Declared;
    hide EnvOf, ReadLines, TextOf, Run, Laid, Ready;
    SevenIsProgram();
    ProgramHasText(SEVEN);
    SevenFits();
    SevenMeans(ZeroStore(Declared(LinesOf(TextOf(SEVEN)))));
    var sym;
    sym, s, n, t := EveryProgramRuns(TextOf(SEVEN), SEVEN, 0, [], [], 10, 100);
  }

  // ----- a program that does not end -----

  const FOREVER := While(Num(1), [])

  /** `main` goes round an empty loop. */
  const LOOP := [Decl("main", Function(0, [FOREVER]))]

  lemma LoopLines()
    ensures ProgramLines(LOOP) == [FunctionLine("main", 0), WhileLine(Num(1)), EndwLine, EndfLine]
  {
    var ss := [FOREVER];
    assert Flatten(ss) == FlattenOne(ss[0]) + Flatten(ss[1..]);
    assert FlattenOne(FOREVER) == [WhileLine(Num(1)), EndwLine];
  }

  lemma LoopIsProgram()
    ensures IsProgram(LOOP) && Careful(LOOP)
  {
    LoopLines();
    var lines := ProgramLines(LOOP);
    var cx := AfterLine(START, lines[0]);
    assert lines[1..][1..] == lines[2..] && lines[2..][1..] == lines[3..];
    assert AreLines(cx, 4, lines[3..]);
    assert AreLines(cx, 3, lines[2..]);
    assert AreLines(cx, 2, lines[1..]);
    LoopBody();
  }

  lemma LoopBody()
    ensures CarefulBlock([FOREVER]) && Nesting([FOREVER]) == 1
  {
    assert [FOREVER][1..] == [];
    assert CarefulBlock([]);
    assert CarefulStmt(FOREVER);
    assert NestingOne(FOREVER) == 1 + Nesting([]);
  }

  lemma {:induction false} LoopMeans(p: Program, st: Store, fuel: nat)
    ensures var r := Exec(p, FOREVER, [], st, fuel); r.OutOfFuel? && r.use == Cost(2, 0)
  {
    var a := Test(p, Num(1), [], st, fuel);
    assert Eval(p, Num(1), [], st, fuel) == Done(1, st, Cost(0, 0));
    assert a == Done(1, st, Cost(2, 0));
    assert ExecBlock(p, [], [], st, fuel) == Done(FellThrough, st, Cost(0, 0));
    if fuel > 0 {
      LoopMeans(p, st, fuel - 1);
    }
  }

  lemma LoopMain()
    ensures "main" in Functions(LOOP) && Functions(LOOP)["main"] == LOOP[0].body
  {
    assert Functions(LOOP[1..]) == map[];
  }

  lemma LoopFits()
    requires Compiles(TextOf(LOOP), LOOP)
    ensures Extent(TextOf(LOOP), LOOP, 0) < 0x1_0000_0000
    ensures Declared(LinesOf(TextOf(LOOP))) == {}
  {
    hide EmitLines, Split, FullCode, TextOf, ReadLines, Size;
    AcceptedText(TextOf(LOOP), LOOP);
    LoopLines();
    assert Declared(ProgramLines(LOOP)[3..]) == {};
    assert Declared(ProgramLines(LOOP)[2..]) == {};
    assert Declared(ProgramLines(LOOP)[1..]) == {};
    SizeBound(FullCode(LOOP));
    LoopLength();
  }

  lemma LoopLength()
    ensures |FullCode(LOOP)| <= 100
  {
    var d := LOOP[0];
    assert ProgramCode(LOOP[1..], LoopsIn(d.body.body)) == [];
    assert ProgramCode(LOOP, 0) == FunctionCode(d.f, d.body.body, d.body.arity, 0);
    assert BlockCode(d.body.body[1..], 0, 1) == [];
    assert BlockCode([], 0, 1) == [];
    assert |BlockCode(d.body.body, 0, 0)| == |StmtCode(FOREVER, 0, 0)|;
  }

  /** Its text is accepted, and assembled at address 0 the program never stops. */
  lemma LoopRuns() returns (s: State)
    ensures Compiles(TextOf(LOOP), LOOP)
    ensures forall n: nat :: Run(n, s).Next?
  {
    hide IsProgram, Careful, EmitLines, Split, Extent, Declared, ReadLines, TextOf, Run, Laid, CellsOk, Holds, Exec;
    LoopIsProgram();
    ProgramHasText(LOOP);
    LoopFits();
    var text, p := TextOf(LOOP), Functions(LOOP);
    var st := ZeroStore(Declared(LinesOf(text)));
    var sym, m, pages := Installable(text, LOOP, 0);
    s := Fresh(sym(Start), [], m, pages, 100);
    LoopMain();
    forall fuel: nat
      ensures var r := MainResult(p, [], st, fuel); r.OutOfFuel? && r.use == Cost(2, 0)
    {
      LoopMeans(p, st, fuel);
    }
    EndlessRuns(text, LOOP, 0, sym, [], st, s);
  }

  // ----- a program that passes on the wrong argument -----

  const TWO := Function(0, [Return(Num(2))])
  const THIRD := Function(3, [Return(Arg(Num(3)))])
  const PASSES := Function(2, [Return(Invoke("f", Miscounted("g")))])

  /** `main` means to pass its first argument on behind a call. */
  const WRONG := [Decl("g", TWO), Decl("f", THIRD), Decl("main", PASSES)]

  function WrongLines(): seq<Line> {
    [FunctionLine("g", 0), Line.Plain(TWO.body[0]), EndfLine,
     FunctionLine("f", 3), Line.Plain(THIRD.body[0]), EndfLine,
     FunctionLine("main", 2), Line.Plain(PASSES.body[0]), EndfLine]
  }

  lemma OneLineBody(d: Decl)
    requires |d.body.body| == 1 && !d.body.body[0].While?
    ensures DeclLines(d) == [FunctionLine(d.f, d.body.arity), Line.Plain(d.body.body[0]), EndfLine]
    ensures Nesting(d.body.body) == 0
  {
    assert d.body.body[1..] == [];
    assert Flatten(d.body.body) == [Line.Plain(d.body.body[0])];
  }

  lemma WrongText()
    ensures ProgramLines(WRONG) == WrongLines() && ShallowDecls(WRONG)
  {
    hide DeclLines, Nesting;
    OneLineBody(WRONG[0]);
    OneLineBody(WRONG[1]);
    OneLineBody(WRONG[2]);
    assert WRONG[1..] == [WRONG[1], WRONG[2]] && WRONG[1..][1..] == [WRONG[2]] && WRONG[1..][1..][1..] == [];
    assert ProgramLines([WRONG[2]]) == DeclLines(WRONG[2]);
    assert ProgramLines(WRONG[1..]) == DeclLines(WRONG[1]) + DeclLines(WRONG[2]);
  }

  const IN_G := Context(Some("g"), {}, map["g" := 0])
  const IN_F := Context(Some("f"), {}, map["g" := 0, "f" := 3])
  const IN_MAIN := Context(Some("main"), {}, map["g" := 0, "f" := 3, "main" := 2])

  lemma WrongBodies()
    ensures IsLine(IN_G, Line.Plain(TWO.body[0])) && IsLine(IN_F, Line.Plain(THIRD.body[0]))
    ensures IsLine(IN_MAIN, Line.Plain(PASSES.body[0]))
  {
    var sc, es := ScopeOf(IN_MAIN), Miscounted("g");
    assert es[1..] == [Invoke("g", []), Arg(Num(1))] && es[1..][1..] == [Arg(Num(1))] && es[1..][1..][1..] == [];
    assert IsExpr(sc, Num(1));
    assert IsExpr(sc, Arg(Num(1))) && IsExpr(sc, Invoke("g", []));
    assert AreExprs(sc, [Arg(Num(1))]);
    assert AreExprs(sc, es[1..]);
    assert AreExprs(sc, es);
    assert IsFactor(sc, Invoke("f", es));
    assert IsExpr(ScopeOf(IN_F), Num(3));
    assert IsExpr(ScopeOf(IN_F), Arg(Num(3)));
  }

  lemma LineBefore(cx: Context, line: nat, x: Line, more: seq<Line>)
    requires IsLine(cx, x) && IfNumber(x).None? && AreLines(AfterLine(cx, x), line + 1, more)
    ensures AreLines(cx, line, [x] + more)
  {
    hide IsLine, AfterLine;
    assert ([x] + more)[1..] == more;
  }

  /** A function of one line, and the lines after it. */
  lemma FunctionBefore(cx: Context, line: nat, f: string, n: u32, x: Stmt, more: seq<Line>)
    requires f !in cx.arity && IsWritten(f) && (x.Return? || x.Do?)
    requires var inside := cx.(fn := Some(f), arity := cx.arity[f := n as nat]); IsLine(inside, Line.Plain(x))
    requires AreLines(cx.(fn := None, arity := cx.arity[f := n as nat]), line + 3, more)
    ensures AreLines(cx, line, [FunctionLine(f, n), Line.Plain(x), EndfLine] + more)
  {
    hide AreLines, IsSimple;
    var inside := cx.(fn := Some(f), arity := cx.arity[f := n as nat]);
    LineBefore(inside, line + 2, EndfLine, more);
    LineBefore(inside, line + 1, Line.Plain(x), [EndfLine] + more);
    LineBefore(cx, line, FunctionLine(f, n), [Line.Plain(x)] + ([EndfLine] + more));
    assert [FunctionLine(f, n), Line.Plain(x), EndfLine] + more ==
           [FunctionLine(f, n)] + ([Line.Plain(x)] + ([EndfLine] + more));
  }

  lemma WrongIsProgram()
    ensures IsProgram(WRONG)
  {
    hide IsLine, AreLines, ShallowDecls;
    WrongText();
    WrongBodies();
    var main := [FunctionLine("main", 2), Line.Plain(PASSES.body[0]), EndfLine] + [];
    var f := [FunctionLine("f", 3), Line.Plain(THIRD.body[0]), EndfLine] + main;
    var g := [FunctionLine("g", 0), Line.Plain(TWO.body[0]), EndfLine] + f;
    assert AreLines(IN_MAIN.(fn := None), 10, []) by {
      NoLines(IN_MAIN.(fn := None), 10);
    }
    FunctionBefore(IN_F.(fn := None), 7, "main", 2, PASSES.body[0], []);
    FunctionBefore(IN_G.(fn := None), 4, "f", 3, THIRD.body[0], main);
    FunctionBefore(START, 1, "g", 0, TWO.body[0], f);
    assert g == WrongLines();
  }

  lemma NoLines(cx: Context, line: nat)
    ensures AreLines(cx, line, [])
  {
  }

  lemma WrongFits()
    requires Compiles(TextOf(WRONG), WRONG)
    ensures Extent(TextOf(WRONG), WRONG, 0) < 0x1_0000_0000
  {
    hide EmitLines, Split, FullCode, TextOf, ReadLines, Size, ProgramLines;
    AcceptedText(TextOf(WRONG), WRONG);
    WrongText();
    WrongDeclares();
    SizeBound(FullCode(WRONG));
    WrongLength();
  }

  lemma {:induction false} DeclareNothing(lines: seq<Line>)
    requires forall x :: x in lines ==> Declares(x) == {}
    ensures Declared(lines) == {}
  {
    hide Declares;
    if lines != [] {
      DeclareNothing(lines[1..]);
    }
  }

  lemma WrongDeclares()
    ensures Declared(WrongLines()) == {}
  {
    DeclareNothing(WrongLines());
  }

  lemma OneStatementLength(f: string, x: Stmt, n: nat, w: nat)
    requires x.Return? && |ExprCode(x.e, n, 0)| <= 100
    ensures |FunctionCode(f, [x], n, w)| <= 106
  {
    hide ExprCode;
    assert [x][1..] == [];
    assert BlockCode([x], n, w) == StmtCode(x, n, w) + BlockCode([], n, w);
  }

  lemma WrongExpressions()
    ensures |ExprCode(Num(2), 0, 0)| <= 100 && |ExprCode(Arg(Num(3)), 3, 0)| <= 100
    ensures |ExprCode(PASSES.body[0].e, 2, 0)| <= 100
  {
    hide ArgumentTail, CallCode;
    ArgumentLength(3, 0);
    ListLength();
  }

  lemma ListLength()
    ensures |CallCode("f", Miscounted("g"), 2)| <= 100
  {
    hide ArgumentTail, ArgsCode;
    ArgumentLength(2, 1);
    MiscountedCode("g", 2);
    FrontLength();
  }

  lemma FrontLength()
    ensures |ArgsCode(Miscounted("g")[..2], 2, 0)| <= 30
  {
    var es := Miscounted("g")[..2];
    assert es[1..] == [Invoke("g", [])] && es[1..][1..] == [];
    assert ArgsCode([], 2, 0) == [];
    assert |CallCode("g", [], 2)| <= 20;
    assert |ArgsCode(es[1..], 2, 1)| <= 21;
  }

  lemma ArgumentLength(n: nat, k: nat)
    ensures |ArgumentTail(n, k)| == 21
  {
  }

  lemma WrongLength()
    ensures |FullCode(WRONG)| <= 400
  {
    hide FunctionCode, LoopsIn, ExprCode;
    WrongExpressions();
    assert WRONG[1..] == [WRONG[1], WRONG[2]] && WRONG[1..][1..] == [WRONG[2]] && WRONG[1..][1..][1..] == [];
    forall w: nat
      ensures |FunctionCode("g", TWO.body, 0, w)| <= 106 && |FunctionCode("f", THIRD.body, 3, w)| <= 106
      ensures |FunctionCode("main", PASSES.body, 2, w)| <= 106
    {
      OneStatementLength("g", TWO.body[0], 0, w);
      OneStatementLength("f", THIRD.body[0], 3, w);
      OneStatementLength("main", PASSES.body[0], 2, w);
    }
    var w1 := LoopsIn(TWO.body);
    var w2 := w1 + LoopsIn(THIRD.body);
    assert ProgramCode([], w2 + LoopsIn(PASSES.body)) == [];
    assert |ProgramCode([WRONG[2]], w2)| <= 106;
    assert |ProgramCode(WRONG[1..], w1)| <= 212;
  }

  /** The argument list of a function's only statement stands right behind the
      function's prelude. */
  lemma ArgumentsLoaded(m: seq<byte>, pages: seq<Page>, a: nat, f: string, es: seq<Expr>, n: nat, w: nat, sym: Symbols)
    requires Loaded(m, pages, a, FunctionCode("main", [Return(Invoke(f, es))], n, w), sym)
    ensures Loaded(m, pages, a + 5, ArgsCode(es, n, 0), sym) && a + 5 <= |m|
  {
    hide Loaded, ArgsCode, Size;
    var x := Return(Invoke(f, es));
    var call := SaveUtility() + ([CallTo(Entry(f))] + AfterCall(|es|));
    assert [x][1..] == [];
    assert BlockCode([x], n, w) == StmtCode(x, n, w) + BlockCode([], n, w);
    assert BlockCode([x], n, w) == StmtCode(x, n, w);
    SplitThree(m, pages, a, [Label(Entry("main"))], [CallNear(Init)], StmtCode(x, n, w), sym);
    OneSize(Label(Entry("main")));
    OneSize(CallNear(Init));
    assert ExprCode(x.e, n, 0) == CallCode(f, es, n);
    assert CallCode(f, es, n) == ArgsCode(es, n, 0) + call;
    CallPlaced(m, pages, a, sym);
    SplitTwo(m, pages, a + 5, ArgsCode(es, n, 0) + call, Move(7, 1) + [Do0(Ret)], sym);
    SplitTwo(m, pages, a + 5, ArgsCode(es, n, 0), call, sym);
  }

  lemma CallPlaced(m: seq<byte>, pages: seq<Page>, a: nat, sym: Symbols)
    requires Loaded(m, pages, a, [CallNear(Init)], sym)
    ensures a + 5 <= |m|
  {
    hide BytesAt;
    IncrementIsLength(Resolve(CallNear(Init), a, sym));
    assert BytesAt(m, a, Encode(Resolve(CallNear(Init), a, sym)));
    Ends(m, a, Encode(Resolve(CallNear(Init), a, sym)));
  }

  lemma Ends(m: seq<byte>, a: nat, b: seq<byte>)
    requires BytesAt(m, a, b)
    ensures a + |b| <= |m|
  {
  }

  /** The program's functions that can be relied on. */
  function Known(sym: Symbols): Env {
    Env(map["g" := TWO], sym, {}, map["g" := 0])
  }

  /** The argument list in `main` is loaded, and the functions it calls. */
  ghost predicate WrongReady(sym: Symbols, m: Memory, pages: seq<Page>) {
    && CodeOk(Known(sym), m, pages) && sym(Entry("main")) + 5 <= |m|
    && Loaded(m, pages, sym(Entry("main")) + 5, ArgsCode(Miscounted("g"), 2, 0), sym)
  }

  lemma WrongLoaded(text: string, sym: Symbols, m: Memory, pages: seq<Page>)
    requires Laid(text, WRONG, 0, sym, m, pages)
    ensures WrongReady(sym, m, pages)
  {
    hide Resolves, BytesAt, Image, FullCode, InText, Loaded, Size;
    hide EmitLines, Split, ReadLines, WellLabelled, ProgramLines, DeclsOk;
    hide FunctionCode, ArgsCode, Functions, Programs.Starts, Declared, Defined, ProgramCode;
    AcceptedText(text, WRONG);
    ReadyParts(text, WRONG, 0, sym, m, pages);
    WrongFunctions();
    ArgumentsLoaded(m, pages, sym(Entry("main")), "f", Miscounted("g"), 2, Programs.Starts(WRONG, 0)["main"], sym);
  }

  lemma TwoReady(sym: Symbols, m: Memory, pages: seq<Page>)
    requires CodeOk(Known(sym), m, pages)
    ensures Ready(Known(sym), m, pages, map[])
  {
    hide CodeOk;
    assert TWO.body[1..] == [];
    assert FitsBlock(Known(sym), TWO.body);
  }

  lemma WrongFunctions()
    ensures "g" in Functions(WRONG) && Functions(WRONG)["g"] == TWO
    ensures "main" in Functions(WRONG) && Functions(WRONG)["main"] == PASSES
    ensures "g" in Programs.Starts(WRONG, 0) && Programs.Starts(WRONG, 0)["g"] == 0 && "main" in Programs.Starts(WRONG, 0)
  {
    assert WRONG[1..] == [WRONG[1], WRONG[2]] && WRONG[1..][1..] == [WRONG[2]] && WRONG[1..][1..][1..] == [];
    assert Functions([WRONG[2]]) == map["main" := PASSES];
    assert Functions(WRONG[1..]) == map["f" := THIRD, "main" := PASSES];
    NamesOf(WRONG, 0);
    NamesOf(WRONG[1..], LoopsIn(TWO.body));
  }

  lemma TwoReturns(p: Program, args: seq<u32>)
    requires p == map["g" := TWO]
    ensures EvalCall(p, "g", [], args, map[], 1) == Done(2, map[], Cost(5, 1))
  {
    assert TWO.body[1..] == [];
    assert Eval(p, Num(2), [], map[], 0) == Done(2, map[], Cost(0, 0));
    assert Exec(p, TWO.body[0], [], map[], 0) == Done(Returned(2), map[], Cost(1, 0));
    assert ExecBlock(p, TWO.body, [], map[], 0) == Done(Returned(2), map[], Cost(1, 0));
    assert EvalArgs(p, [], args, map[], 1) == Done([], map[], Cost(0, 0));
  }

  lemma WrongArguments(p: Program, args: seq<u32>)
    requires p == map["g" := TWO]
    ensures var r := EvalArgs(p, Miscounted("g")[..2], args, map[], 1);
            r.Done? && r.v == [1, 2] && r.use.data <= 20 && r.use.calls <= 20
  {
    hide EvalCall;
    var es := Miscounted("g")[..2];
    assert es[1..] == [Invoke("g", [])] && es[1..][1..] == [];
    TwoReturns(p, args);
    assert Eval(p, es[1], args, map[], 1) == Done(2, map[], Cost(5, 1));
    assert Eval(p, es[0], args, map[], 1) == Done(1, map[], Cost(0, 0));
    assert EvalArgs(p, es[1..][1..], args, map[], 1) == Done([], map[], Cost(0, 0));
    var rest := EvalArgs(p, es[1..], args, map[], 1);
    assert rest.Done? && rest.v == [2] && rest.use.data <= 10 && rest.use.calls <= 10;
  }

  /** Its text is accepted, and in the first line of `main`, called with 5 and 0,
      the code for `$1` behind the call passes 0 on. */
  lemma WrongRuns() returns (sym: Symbols, s: State, n: nat, t: State)
    ensures Compiles(TextOf(WRONG), WRONG) && Laid(TextOf(WRONG), WRONG, 0, sym, s.mem, s.pages)
    ensures s.ip == sym(Entry("main")) + 5 && FrameOk(s.ds, [5, 0], 0)
    ensures Run(n, s) == Next(t) && t.ds == s.ds + [1, 2, 0]
  {
    hide IsProgram, Compiles, Laid, Extent, TextOf, Run, Ready, CodeOk, Loaded, ArgsCode, EvalArgs;
    WrongIsProgram();
    ProgramHasText(WRONG);
    WrongFits();
    var m, pages;
    sym, m, pages := Installable(TextOf(WRONG), WRONG, 0);
    WrongLoaded(TextOf(WRONG), sym, m, pages);
    TwoReady(sym, m, pages);
    s := Fresh(sym(Entry("main")) + 5, [5, 0, 0, 0, 0, 0], m, pages, 100);
    WrongArguments(Known(sym).p, [5, 0]);
    n, t := MiscountedArgument(Known(sym), "g", [5, 0], map[], 1, s);
  }
}
