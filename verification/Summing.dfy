/** A program with variables, a loop, a condition and an argument, from the
    characters of its text to the number its bytes leave in R7. */
module Summing {
  import opened Words
  import opened Machine
  import opened Assembly
  import opened Tpp
  import opened Codegen
  import opened Grammar
  import opened Printing
  import opened Statements
  import opened Layout
  import opened Accepted
  import opened Programs
  import opened Rendering
  import opened Installation
  import opened Examples
  import opened Setting

  const S := "main.s"
  const I := "main.i"

  const ADD := Let(S, Binary(Plus, Var(S), Var(I)))
  const COUNT := Let(I, Binary(Minus, Var(I), Num(1)))
  const ROUND := While(Var(I), [ADD, COUNT])
  const TEST := If(Binary(Equal, Var(S), Num(0)), Return(Num(7)), 8)

  const BODY := [Let(S, Num(0)), Let(I, Arg(Num(1))), ROUND, TEST, Return(Var(S))]

  /** Sums the numbers from 1 to the first argument; returns 7 for a sum of 0. */
  const SUM := [Decl("main", Function(2, BODY))]

  function TheText(): string {
    "function main(2)\n" + "let s = 0\n" + "let i = $1\n" + "while(i)\n" + "let s = s + i\n" + "let i = i - 1\n" +
    "endw\n" + "if(s := 0) return 7\n" + "return s\n" + "endf\n"
  }

  function SumLines(): seq<Line> {
    [FunctionLine("main", 2), Line.Plain(BODY[0]), Line.Plain(BODY[1]), WhileLine(Var(I)), Line.Plain(ADD),
     Line.Plain(COUNT), EndwLine, Line.Plain(TEST), Line.Plain(BODY[4]), EndfLine]
  }

  lemma FlattenPlain(x: Stmt, more: seq<Stmt>)
    requires !x.While?
    ensures Flatten([x] + more) == [Line.Plain(x)] + Flatten(more)
  {
    assert ([x] + more)[1..] == more;
  }

  lemma FlattenLoop(x: Stmt, more: seq<Stmt>)
    requires x.While?
    ensures Flatten([x] + more) == [WhileLine(x.c)] + (Flatten(x.body) + [EndwLine]) + Flatten(more)
  {
    assert ([x] + more)[1..] == more;
  }

  lemma SumIsLines()
    ensures ProgramLines(SUM) == SumLines()
  {
    hide Flatten;
    NoStatements();
    FlattenPlain(COUNT, []);
    FlattenPlain(ADD, [COUNT]);
    FlattenPlain(BODY[4], []);
    FlattenPlain(TEST, [BODY[4]]);
    FlattenLoop(ROUND, [TEST, BODY[4]]);
    FlattenPlain(BODY[1], [ROUND, TEST, BODY[4]]);
    FlattenPlain(BODY[0], [BODY[1], ROUND, TEST, BODY[4]]);
    assert [ADD] + [COUNT] == [ADD, COUNT] && [COUNT] + [] == [COUNT] && [BODY[4]] + [] == [BODY[4]];
    assert [TEST] + [BODY[4]] == [TEST, BODY[4]] && [ROUND] + [TEST, BODY[4]] == [ROUND, TEST, BODY[4]];
    assert [BODY[1]] + [ROUND, TEST, BODY[4]] == [BODY[1], ROUND, TEST, BODY[4]];
    assert [BODY[0]] + [BODY[1], ROUND, TEST, BODY[4]] == BODY;
    assert SUM[1..] == [];
  }

  lemma NoStatements()
    ensures Flatten([]) == []
  {
  }

  // ----- its meaning -----

  /** 1 + 2 + ... + k */
  function Triangle(k: nat): nat {
    if k == 0 then 0 else k + Triangle(k - 1)
  }

  lemma NothingToSum()
    ensures Triangle(0) == 0
  {
  }

  function Sum32(a: u32, b: u32): u32 {
    Low32((a as int) + b)
  }

  lemma {:induction false} TriangleIs(k: nat)
    ensures 2 * Triangle(k) == k * (k + 1)
  {
    if k > 0 {
      TriangleIs(k - 1);
    }
  }

  predicate Knows(st: Store, s: u32, i: u32) {
    S in st && I in st && st[S] == s && st[I] == i
  }

  predicate Modest(use: Cost) {
    use.data <= 20 && use.calls <= 20
  }

  lemma AddMeans(p: Program, args: seq<u32>, st: Store, fuel: nat)
    requires S in st && I in st
    ensures Exec(p, ADD, args, st, fuel) == Done(FellThrough, st[S := Sum32(st[S], st[I])], Cost(3, 1))
  {
    assert Eval(p, Var(S), args, st, fuel) == Done(st[S], st, Cost(2, 0));
    assert Eval(p, Var(I), args, st, fuel) == Done(st[I], st, Cost(2, 0));
    assert Eval(p, ADD.e, args, st, fuel) == Done(Sum32(st[S], st[I]), st, Cost(3, 1));
  }

  lemma CountMeans(p: Program, args: seq<u32>, st: Store, fuel: nat)
    requires I in st
    ensures Exec(p, COUNT, args, st, fuel) == Done(FellThrough, st[I := Low32((st[I] as int) - 1)], Cost(3, 1))
  {
    assert Eval(p, Var(I), args, st, fuel) == Done(st[I], st, Cost(2, 0));
    assert Eval(p, Num(1), args, st, fuel) == Done(1, st, Cost(0, 0));
    assert Eval(p, COUNT.e, args, st, fuel) == Done(Low32((st[I] as int) - 1), st, Cost(3, 1));
  }

  lemma BodyMeans(p: Program, args: seq<u32>, st: Store, fuel: nat)
    requires S in st && I in st
    ensures var r := ExecBlock(p, [ADD, COUNT], args, st, fuel);
            && r.Done? && r.v.FellThrough? && Modest(r.use)
            && Knows(r.st, Sum32(st[S], st[I]), Low32((st[I] as int) - 1))
  {
    hide Exec;
    AddMeans(p, args, st, fuel);
    var st1 := st[S := Sum32(st[S], st[I])];
    CountMeans(p, args, st1, fuel);
    assert [ADD, COUNT][1..] == [COUNT] && [COUNT][1..] == [];
    assert ExecBlock(p, [], args, st1[I := Low32((st1[I] as int) - 1)], fuel).Done?;
    assert ExecBlock(p, [COUNT], args, st1, fuel).Done?;
  }

  lemma TestI(p: Program, args: seq<u32>, st: Store, fuel: nat)
    requires I in st
    ensures Test(p, Var(I), args, st, fuel) == Done(st[I], st, Cost(2, 0))
  {
  }

  /** The loop adds up what is left to count. */
  lemma {:induction false} LoopSums(p: Program, args: seq<u32>, st: Store, fuel: nat, s: u32, k: u32)
    requires Knows(st, s, k) && fuel >= k
    ensures var r := Exec(p, ROUND, args, st, fuel);
            r.Done? && r.v.FellThrough? && Modest(r.use) && Knows(r.st, Low32(s + Triangle(k)), 0)
    decreases k
  {
    hide ExecBlock, Triangle;
    TestI(p, args, st, fuel);
    if k == 0 {
      NothingToSum();
    } else {
      BodyMeans(p, args, st, fuel);
      var b := ExecBlock(p, [ADD, COUNT], args, st, fuel);
      assert Low32(k - 1) == k - 1;
      LoopSums(p, args, b.st, fuel - 1, Sum32(s, k), k - 1);
      MoreToSum(s, k);
    }
  }

  lemma MoreToSum(s: u32, k: u32)
    requires k > 0
    ensures Low32(Sum32(s, k) + Triangle(k - 1)) == Low32(s + Triangle(k))
  {
    var t: int := Triangle(k - 1);
    assert Triangle(k) == k + t;
    CutFirst((s as int) + k, t);
  }

  lemma CutFirst(x: int, y: int)
    ensures Low32(Low32(x) + y) == Low32(x + y)
  {
    ModPlusMultiple(Low32(x) + y, x / 0x1_0000_0000);
    assert x == Low32(x) + x / 0x1_0000_0000 * 0x1_0000_0000;
  }

  /** What `main` comes to when called with `n`. */
  function Total(n: u32): u32 {
    var sum := n * (n + 1) / 2 % 0x1_0000_0000;
    if sum == 0 then 7 else sum
  }

  lemma SumMeans(p: Program, n: u32, st: Store, fuel: nat)
    requires fuel >= n && S in st && I in st
    ensures var r := ExecBlock(p, BODY, [n, 0], st, fuel);
            r.Done? && r.v == Returned(Total(n)) && Modest(r.use)
  {
    hide Triangle, ExecBlock, Exec;
    var args := [n, 0];
    StartMeans(p, n, st, fuel);
    StartMeans(p, n, st[S := 0], fuel);
    var st1 := st[S := 0][I := n];
    LoopSums(p, args, st1, fuel, 0, n);
    var r := Exec(p, ROUND, args, st1, fuel);
    TriangleIs(n);
    EndMeans(p, args, r.st, fuel, Low32(0 + Triangle(n)));
    Joined(p, args, st, st1, fuel);
  }

  lemma StartMeans(p: Program, n: u32, st: Store, fuel: nat)
    ensures Exec(p, BODY[0], [n, 0], st, fuel) == Done(FellThrough, st[S := 0], Cost(0, 0))
    ensures Exec(p, BODY[1], [n, 0], st, fuel) == Done(FellThrough, st[I := n], Cost(9, 0))
  {
    assert Eval(p, Num(0), [n, 0], st, fuel) == Done(0, st, Cost(0, 0));
    assert Eval(p, Num(1), [n, 0], st, fuel) == Done(1, st, Cost(0, 0));
    assert Eval(p, Arg(Num(1)), [n, 0], st, fuel) == Done(n, st, Cost(9, 0));
  }

  /** The condition and the last line. */
  lemma EndMeans(p: Program, args: seq<u32>, st: Store, fuel: nat, s: u32)
    requires S in st && st[S] == s
    ensures var r := ExecBlock(p, [TEST, BODY[4]], args, st, fuel);
            r.Done? && r.v == Returned(if s == 0 then 7 else s) && Modest(r.use)
  {
    var ss := [TEST, BODY[4]];
    assert ss[1..] == [BODY[4]] && [BODY[4]][1..] == [];
    assert Eval(p, Var(S), args, st, fuel) == Done(s, st, Cost(2, 0));
    assert Eval(p, Num(0), args, st, fuel) == Done(0, st, Cost(0, 0));
    assert Eval(p, TEST.c, args, st, fuel) == Done(Truth(s == 0), st, Cost(3, 1));
    assert Eval(p, Num(7), args, st, fuel) == Done(7, st, Cost(0, 0));
    assert Exec(p, Return(Num(7)), args, st, fuel) == Done(Returned(7), st, Cost(1, 0));
    assert Exec(p, BODY[4], args, st, fuel) == Done(Returned(s), st, Cost(2, 0));
    assert Test(p, TEST.c, args, st, fuel) == Done(Truth(s == 0), st, Cost(3, 1));
    if s == 0 {
      assert Exec(p, TEST, args, st, fuel) == Done(Returned(7), st, Cost(3, 1));
    } else {
      assert Exec(p, TEST, args, st, fuel) == Done(FellThrough, st, Cost(3, 1));
    }
    assert ExecBlock(p, [BODY[4]], args, st, fuel) == Exec(p, BODY[4], args, st, fuel);
  }

  lemma Joined(p: Program, args: seq<u32>, st: Store, st1: Store, fuel: nat)
    requires Exec(p, BODY[0], args, st, fuel) == Done(FellThrough, st[S := 0], Cost(0, 0))
    requires Exec(p, BODY[1], args, st[S := 0], fuel) == Done(FellThrough, st1, Cost(9, 0))
    requires var r := Exec(p, ROUND, args, st1, fuel);
             && r.Done? && r.v.FellThrough? && Modest(r.use)
             && ExecBlock(p, [TEST, BODY[4]], args, r.st, fuel).Done?
             && Modest(ExecBlock(p, [TEST, BODY[4]], args, r.st, fuel).use)
    ensures var r := Exec(p, ROUND, args, st1, fuel);
            var e, b := ExecBlock(p, [TEST, BODY[4]], args, r.st, fuel), ExecBlock(p, BODY, args, st, fuel);
            b.Done? && b.v == e.v && Modest(b.use)
  {
    hide Exec;
    assert BODY[1..] == [BODY[1], ROUND, TEST, BODY[4]] && BODY[1..][1..] == [ROUND, TEST, BODY[4]];
    assert BODY[1..][1..][1..] == [TEST, BODY[4]];
    assert ExecBlock(p, [ROUND, TEST, BODY[4]], args, st1, fuel).Done?;
    assert ExecBlock(p, [BODY[1], ROUND, TEST, BODY[4]], args, st[S := 0], fuel).Done?;
  }

  // ----- its text -----

  const IN := Context(Some("main"), {S, I}, map["main" := 2])

  lemma Names()
    ensures IsTarget("main", S) && IsTarget("main", I)
    ensures IsVariable(ScopeOf(IN), S) && IsVariable(ScopeOf(IN), I)
  {
    assert S[5..] == "s" && I[5..] == "i";
    assert S == "main" + "." + "s" && I == "main" + "." + "i";
    assert NoSeparators("s") && NoSeparators("i");
  }

  lemma FirstLines()
    ensures IsLine(START, FunctionLine("main", 2))
    ensures IsLine(IN.(vars := {}), Line.Plain(BODY[0])) && IsLine(IN.(vars := {S}), Line.Plain(BODY[1]))
    ensures AfterLine(START, FunctionLine("main", 2)) == IN.(vars := {})
    ensures AfterLine(IN.(vars := {}), Line.Plain(BODY[0])) == IN.(vars := {S})
    ensures AfterLine(IN.(vars := {S}), Line.Plain(BODY[1])) == IN
  {
    hide IsTarget, IsVariable;
    Names();
    Constant(ScopeOf(AfterStmt(IN.(vars := {}), BODY[0])), 0);
    Constant(ScopeOf(AfterStmt(IN.(vars := {S}), BODY[1])), 1);
    assert IsWritten("main");
  }

  lemma Constant(sc: Scope, n: u32)
    ensures IsFactor(sc, Num(n)) && IsTerm(sc, Num(n)) && IsExpr(sc, Num(n)) && IsExpr(sc, Arg(Num(n)))
  {
    assert IsTerm(sc, Num(n));
    assert IsExpr(sc, Num(n));
    assert IsFactor(sc, Arg(Num(n)));
    assert IsTerm(sc, Arg(Num(n)));
  }

  lemma Variable(sc: Scope, x: string)
    requires IsVariable(sc, x)
    ensures IsFactor(sc, Var(x)) && IsTerm(sc, Var(x)) && IsExpr(sc, Var(x))
  {
    hide IsVariable;
  }

  lemma OtherLines()
    ensures IsLine(IN, WhileLine(Var(I))) && IsLine(IN, Line.Plain(ADD)) && IsLine(IN, Line.Plain(COUNT))
    ensures IsLine(IN, Line.Plain(TEST)) && IsLine(IN, Line.Plain(BODY[4])) && IsLine(IN, EndwLine) && IsLine(IN, EndfLine)
  {
    hide IsTarget, IsVariable;
    Names();
    var sc := ScopeOf(IN);
    Variable(sc, S);
    Variable(sc, I);
    Constant(sc, 0);
    Constant(sc, 1);
    Constant(sc, 7);
    assert AfterStmt(IN, ADD) == IN && AfterStmt(IN, COUNT) == IN by {
      assert {S, I} + {S} == {S, I} && {S, I} + {I} == {S, I};
    }
    assert IsExpr(sc, ADD.e) && IsExpr(sc, COUNT.e);
    assert IsTerm(sc, TEST.c);
    assert IsExpr(sc, TEST.c);
  }

  lemma SameContext()
    ensures AfterLine(IN, WhileLine(Var(I))) == AfterLine(IN, Line.Plain(ADD)) == AfterLine(IN, Line.Plain(COUNT)) == IN
    ensures AfterLine(IN, Line.Plain(TEST)) == AfterLine(IN, Line.Plain(BODY[4])) == AfterLine(IN, EndwLine) == IN
  {
    assert {S, I} + {S} == {S, I} && {S, I} + {I} == {S, I};
  }

  lemma SumIsProgram()
    ensures IsProgram(SUM)
  {
    hide IsLine, AreLines, AfterLine, Nesting;
    SumIsLines();
    SumIsShallow();
    FirstLines();
    OtherLines();
    SameContext();
    var out := AfterLine(IN, EndfLine);
    NoLines(out, 11);
    var l := [EndfLine] + [];
    LineBefore(IN, 10, EndfLine, []);
    LineBefore(IN, 9, Line.Plain(BODY[4]), l);
    l := [Line.Plain(BODY[4])] + l;
    IfBefore(IN, 8, Line.Plain(TEST), l);
    l := [Line.Plain(TEST)] + l;
    LineBefore(IN, 7, EndwLine, l);
    l := [EndwLine] + l;
    LineBefore(IN, 6, Line.Plain(COUNT), l);
    l := [Line.Plain(COUNT)] + l;
    LineBefore(IN, 5, Line.Plain(ADD), l);
    l := [Line.Plain(ADD)] + l;
    LineBefore(IN, 4, WhileLine(Var(I)), l);
    l := [WhileLine(Var(I))] + l;
    LineBefore(IN.(vars := {S}), 3, Line.Plain(BODY[1]), l);
    l := [Line.Plain(BODY[1])] + l;
    LineBefore(IN.(vars := {}), 2, Line.Plain(BODY[0]), l);
    l := [Line.Plain(BODY[0])] + l;
    LineBefore(START, 1, FunctionLine("main", 2), l);
    l := [FunctionLine("main", 2)] + l;
    assert l == SumLines();
  }

  lemma IfBefore(cx: Context, line: nat, x: Line, more: seq<Line>)
    requires IsLine(cx, x) && IfNumber(x) == Some(line) && AreLines(AfterLine(cx, x), line + 1, more)
    ensures AreLines(cx, line, [x] + more)
  {
    hide IsLine, AfterLine;
    assert ([x] + more)[1..] == more;
  }

  lemma NestingOf(x: Stmt, more: seq<Stmt>)
    ensures Nesting([x] + more) == Max(NestingOne(x), Nesting(more))
  {
    assert ([x] + more)[1..] == more;
  }

  lemma SumIsShallow()
    ensures ShallowDecls(SUM)
  {
    hide Nesting;
    NoNesting();
    NestingOf(COUNT, []);
    NestingOf(ADD, [COUNT]);
    NestingOf(BODY[4], []);
    NestingOf(TEST, [BODY[4]]);
    NestingOf(ROUND, [TEST, BODY[4]]);
    NestingOf(BODY[1], [ROUND, TEST, BODY[4]]);
    NestingOf(BODY[0], [BODY[1], ROUND, TEST, BODY[4]]);
    assert [COUNT] + [] == [COUNT] && [ADD] + [COUNT] == [ADD, COUNT] && [BODY[4]] + [] == [BODY[4]];
    assert [TEST] + [BODY[4]] == [TEST, BODY[4]] && [ROUND] + [TEST, BODY[4]] == [ROUND, TEST, BODY[4]];
    assert [BODY[1]] + [ROUND, TEST, BODY[4]] == [BODY[1], ROUND, TEST, BODY[4]];
    assert [BODY[0]] + [BODY[1], ROUND, TEST, BODY[4]] == BODY;
  }

  lemma NoNesting()
    ensures Nesting([]) == 0
  {
  }

  // ----- its characters -----

  lemma LetText(cx: Context, x: string, name: string, e: Expr, rest: string)
    requires cx.fn == Some("main") && x == "main" + "." + name
    ensures PrintLine(cx, Line.Plain(Let(x, e)), rest) ==
            "let " + name + " = " + Print(Declaring(ScopeOf(cx), x), e, rest)
  {
    hide Print;
    assert x[5..] == name;
  }

  lemma PlusText(sc: Scope, op: BinOp, l: Expr, r: Expr, rest: string)
    requires l != Zero
    ensures Print(sc, Binary(op, l, r), rest) == Print(sc, l, " " + Spelling(op) + " " + Print(sc, r, rest))
  {
  }

  lemma NameText(sc: Scope, x: string, name: string, rest: string)
    requires sc.fn == "main" && x == "main" + "." + name
    ensures Print(sc, Var(x), rest) == name + rest
  {
    assert x[5..] == name;
  }

  lemma HeadText(rest: string)
    ensures PrintLine(START, FunctionLine("main", 2), "\n" + rest) == "function main(2)\n" + rest
  {
    Digit1(2, ")" + ("\n" + rest));
  }

  lemma ZeroText(rest: string)
    ensures PrintLine(IN.(vars := {}), Line.Plain(BODY[0]), "\n" + rest) == "let s = 0\n" + rest
  {
    hide PrintLine, PrintNumber;
    LetText(IN.(vars := {}), S, "s", Num(0), "\n" + rest);
    Digit1(0, "\n" + rest);
  }

  lemma ArgumentText(rest: string)
    ensures PrintLine(IN.(vars := {S}), Line.Plain(BODY[1]), "\n" + rest) == "let i = $1\n" + rest
  {
    hide PrintLine, PrintNumber;
    LetText(IN.(vars := {S}), I, "i", Arg(Num(1)), "\n" + rest);
    Digit1(1, "\n" + rest);
  }

  lemma AddText(rest: string)
    ensures PrintLine(IN, Line.Plain(ADD), "\n" + rest) == "let s = s + i\n" + rest
  {
    hide PrintLine, Print;
    var sc := Declaring(ScopeOf(IN), S);
    LetText(IN, S, "s", ADD.e, "\n" + rest);
    PlusText(sc, Plus, Var(S), Var(I), "\n" + rest);
    NameText(sc, I, "i", "\n" + rest);
    NameText(sc, S, "s", " " + "+" + " " + ("i" + ("\n" + rest)));
  }

  lemma CountText(rest: string)
    ensures PrintLine(IN, Line.Plain(COUNT), "\n" + rest) == "let i = i - 1\n" + rest
  {
    hide PrintLine, PrintNumber;
    var sc := Declaring(ScopeOf(IN), I);
    LetText(IN, I, "i", COUNT.e, "\n" + rest);
    PlusText(sc, Minus, Var(I), Num(1), "\n" + rest);
    Digit1(1, "\n" + rest);
    NameText(sc, I, "i", " " + "-" + " " + (['1'] + ("\n" + rest)));
  }

  lemma WhileText(rest: string)
    ensures PrintLine(IN, WhileLine(Var(I)), "\n" + rest) == "while(i)\n" + rest
    ensures PrintLine(IN, EndwLine, "\n" + rest) == "endw\n" + rest
  {
    hide Print;
    NameText(ScopeOf(IN), I, "i", ")" + ("\n" + rest));
  }

  lemma ReturnText(rest: string)
    ensures PrintLine(IN, Line.Plain(BODY[4]), "\n" + rest) == "return s\n" + rest
    ensures PrintLine(IN, EndfLine, "\n" + rest) == "endf\n" + rest
  {
    hide Print;
    NameText(ScopeOf(IN), S, "s", "\n" + rest);
  }

  lemma SevenReturned(rest: string)
    ensures PrintStmt(ScopeOf(IN), Return(Num(7)), "\n" + rest) == "return 7\n" + rest
  {
    hide PrintNumber;
    Digit1(7, "\n" + rest);
  }

  lemma ConditionIs(rest: string)
    ensures Print(ScopeOf(IN), TEST.c, rest) == "s := 0" + rest
  {
    hide Print, PrintNumber;
    var sc := ScopeOf(IN);
    PlusText(sc, Equal, Var(S), Num(0), rest);
    Digit1(0, rest);
    ZeroIs(sc, rest);
    NameText(sc, S, "s", " " + ":=" + " " + (['0'] + rest));
  }

  lemma ZeroIs(sc: Scope, rest: string)
    ensures Print(sc, Num(0), rest) == PrintNumber(0, rest)
  {
  }

  lemma LastText(rest: string)
    ensures PrintLine(IN, Line.Plain(TEST), "\n" + rest) == "if(s := 0) return 7\n" + rest
    ensures PrintLine(IN, Line.Plain(BODY[4]), "\n" + rest) == "return s\n" + rest
    ensures PrintLine(IN, EndfLine, "\n" + rest) == "endf\n" + rest
  {
    hide Print, PrintNumber;
    ReturnText(rest);
    SevenReturned(rest);
    ConditionIs(")" + (" " + ("return 7\n" + rest)));
  }

  /** One line of text put before the others. */
  lemma TextBefore(cx: Context, line: nat, x: Line, more: seq<Line>)
    requires LineFor(x, line) == line
    ensures PrintLines(cx, line, [x] + more) == PrintLine(cx, x, "\n" + PrintLines(AfterLine(cx, x), line + 1, more))
  {
    hide PrintLine, AfterLine;
    assert ([x] + more)[1..] == more;
    var t := PrintLine(cx, x, "\n" + PrintLines(AfterLine(cx, x), line + 1, more));
    assert Newlines(0, t) == t;
  }

  lemma LinesFrom7()
    ensures PrintLines(IN, 7, SumLines()[6..]) == "endw\n" + ("if(s := 0) return 7\n" + ("return s\n" + ("endf\n" + "")))
  {
    hide PrintLine, AfterLine;
    SameContext();
    NoText(AfterLine(IN, EndfLine), 11);
    var l9 := [EndfLine] + [];
    var l8 := [Line.Plain(BODY[4])] + l9;
    var l7 := [Line.Plain(TEST)] + l8;
    TextBefore(IN, 10, EndfLine, []);
    TextBefore(IN, 9, Line.Plain(BODY[4]), l9);
    TextBefore(IN, 8, Line.Plain(TEST), l8);
    TextBefore(IN, 7, EndwLine, l7);
    LastText("");
    LastText("endf\n" + "");
    LastText("return s\n" + ("endf\n" + ""));
    WhileText("if(s := 0) return 7\n" + ("return s\n" + ("endf\n" + "")));
    assert SumLines()[6..] == [EndwLine] + l7;
  }

  lemma LinesFrom4(t6: string)
    requires PrintLines(IN, 7, SumLines()[6..]) == t6
    ensures PrintLines(IN, 4, SumLines()[3..]) == "while(i)\n" + ("let s = s + i\n" + ("let i = i - 1\n" + t6))
  {
    hide PrintLine, AfterLine, PrintLines;
    SameContext();
    var l := SumLines();
    assert l[5..] == [Line.Plain(COUNT)] + l[6..] && l[4..] == [Line.Plain(ADD)] + l[5..];
    assert l[3..] == [WhileLine(Var(I))] + l[4..];
    TextBefore(IN, 6, Line.Plain(COUNT), l[6..]);
    CountText(t6);
    TextBefore(IN, 5, Line.Plain(ADD), l[5..]);
    AddText("let i = i - 1\n" + t6);
    TextBefore(IN, 4, WhileLine(Var(I)), l[4..]);
    WhileText("let s = s + i\n" + ("let i = i - 1\n" + t6));
  }

  lemma LinesFrom1(t3: string)
    requires PrintLines(IN, 4, SumLines()[3..]) == t3
    ensures PrintLines(START, 1, SumLines()) == "function main(2)\n" + ("let s = 0\n" + ("let i = $1\n" + t3))
  {
    hide PrintLine, AfterLine, PrintLines;
    FirstLines();
    var l := SumLines();
    assert l[2..] == [Line.Plain(BODY[1])] + l[3..];
    assert l[1..] == [Line.Plain(BODY[0])] + l[2..] && l == [FunctionLine("main", 2)] + l[1..];
    TextBefore(IN.(vars := {S}), 3, Line.Plain(BODY[1]), l[3..]);
    ArgumentText(t3);
    TextBefore(IN.(vars := {}), 2, Line.Plain(BODY[0]), l[2..]);
    ZeroText("let i = $1\n" + t3);
    TextBefore(START, 1, FunctionLine("main", 2), l[1..]);
    HeadText("let s = 0\n" + ("let i = $1\n" + t3));
  }

  lemma SumText()
    ensures TextOf(SUM) == TheText()
  {
    hide PrintLines, ProgramLines;
    assert |SumLines()| == 10;
    SumIsLines();
    LinesFrom7();
    var t6 := PrintLines(IN, 7, SumLines()[6..]);
    LinesFrom4(t6);
    LinesFrom1("while(i)\n" + ("let s = s + i\n" + ("let i = i - 1\n" + t6)));
  }

  // ----- its run -----

  lemma CarefulMore(x: Stmt, more: seq<Stmt>)
    requires CarefulStmt(x) && CarefulBlock(more)
    ensures CarefulBlock([x] + more)
  {
    hide CarefulStmt;
    assert ([x] + more)[1..] == more;
  }

  lemma CarefulParts()
    ensures CarefulStmt(BODY[0]) && CarefulStmt(BODY[1]) && CarefulStmt(ADD) && CarefulStmt(COUNT)
    ensures CarefulStmt(TEST) && CarefulStmt(BODY[4]) && CarefulWhole(Var(I)) && CarefulBlock([])
  {
    assert SafeExpr(Var(I), 0, 0) && SafeExpr(Num(1), 0, 0) && SafeExpr(Num(0), 0, 0) && SafeExpr(Var(S), 0, 0);
    assert CarefulWhole(COUNT.e) && CarefulWhole(ADD.e) && CarefulWhole(TEST.c);
    assert CarefulStmt(Return(Num(7)));
    assert CarefulWhole(Arg(Num(1)));
  }

  lemma SumIsCareful()
    ensures Careful(SUM)
  {
    hide CarefulBlock, CarefulExpr, SafeExpr;
    CarefulParts();
    assert [COUNT] + [] == [COUNT] && [ADD] + [COUNT] == [ADD, COUNT] && [BODY[4]] + [] == [BODY[4]];
    assert [TEST] + [BODY[4]] == [TEST, BODY[4]] && [ROUND] + [TEST, BODY[4]] == [ROUND, TEST, BODY[4]];
    assert [BODY[1]] + [ROUND, TEST, BODY[4]] == [BODY[1], ROUND, TEST, BODY[4]];
    assert [BODY[0]] + [BODY[1], ROUND, TEST, BODY[4]] == BODY;
    CarefulMore(COUNT, []);
    CarefulMore(ADD, [COUNT]);
    assert CarefulStmt(ROUND);
    CarefulMore(BODY[4], []);
    CarefulMore(TEST, [BODY[4]]);
    CarefulMore(ROUND, [TEST, BODY[4]]);
    CarefulMore(BODY[1], [ROUND, TEST, BODY[4]]);
    CarefulMore(BODY[0], [BODY[1], ROUND, TEST, BODY[4]]);
  }

  lemma DeclaredMore(x: Line, more: seq<Line>)
    ensures Declared([x] + more) == Declares(x) + Declared(more)
  {
    assert ([x] + more)[1..] == more;
  }

  lemma SumDeclares()
    ensures Declared(SumLines()) == {S, I}
  {
    hide Declared, SumLines;
    var rest := [WhileLine(Var(I)), Line.Plain(ADD), Line.Plain(COUNT), EndwLine, Line.Plain(TEST), Line.Plain(BODY[4]), EndfLine];
    RestDeclares(rest);
    DeclaredMore(Line.Plain(BODY[1]), rest);
    DeclaredMore(Line.Plain(BODY[0]), [Line.Plain(BODY[1])] + rest);
    DeclaredMore(FunctionLine("main", 2), [Line.Plain(BODY[0])] + ([Line.Plain(BODY[1])] + rest));
    AllLines(rest);
  }

  lemma AllLines(rest: seq<Line>)
    requires rest == [WhileLine(Var(I)), Line.Plain(ADD), Line.Plain(COUNT), EndwLine, Line.Plain(TEST), Line.Plain(BODY[4]), EndfLine]
    ensures SumLines() == [FunctionLine("main", 2)] + ([Line.Plain(BODY[0])] + ([Line.Plain(BODY[1])] + rest))
  {
  }

  lemma {:induction false} RestDeclares(lines: seq<Line>)
    requires forall x :: x in lines ==> Declares(x) <= {S, I}
    ensures Declared(lines) <= {S, I}
  {
    hide Declares;
    if lines != [] {
      RestDeclares(lines[1..]);
    }
  }

  lemma SumFits()
    requires Compiles(TextOf(SUM), SUM)
    ensures Extent(TextOf(SUM), SUM, 0) < 0x1_0000_0000
    ensures S in Declared(LinesOf(TextOf(SUM))) && I in Declared(LinesOf(TextOf(SUM)))
  {
    hide EmitLines, Split, FullCode, TextOf, ReadLines, Size, ProgramLines, SumLines, Declared;
    AcceptedText(TextOf(SUM), SUM);
    SumIsLines();
    SumDeclares();
    SizeBound(FullCode(SUM));
    SumLength();
  }

  lemma BlockMore(x: Stmt, more: seq<Stmt>, n: nat, w: nat)
    ensures |BlockCode([x] + more, n, w)| == |StmtCode(x, n, w)| + |BlockCode(more, n, w + Loops(x))|
  {
    hide StmtCode;
    assert ([x] + more)[1..] == more;
  }

  lemma StatementLengths(w: nat)
    ensures |StmtCode(BODY[0], 2, w)| <= 40 && |StmtCode(BODY[1], 2, w)| <= 40 && |StmtCode(ADD, 2, w)| <= 40
    ensures |StmtCode(COUNT, 2, w)| <= 40 && |StmtCode(TEST, 2, w)| <= 60 && |StmtCode(BODY[4], 2, w)| <= 40
  {
    hide ArgumentTail;
    ArgumentLength(2, 0);
    assert |ExprCode(Var(S), 2, 0)| <= 10 && |ExprCode(Var(I), 2, 0)| <= 10 && |ExprCode(Num(1), 2, 0)| <= 10;
    assert |ExprCode(Num(0), 2, 0)| <= 10 && |ExprCode(Arg(Num(1)), 2, 0)| <= 32;
    assert |ExprCode(ADD.e, 2, 0)| <= 36 && |ExprCode(COUNT.e, 2, 0)| <= 36 && |ExprCode(TEST.c, 2, 0)| <= 36;
    assert |StmtCode(Return(Num(7)), 2, w)| <= 10;
  }

  lemma SumLength()
    ensures |FullCode(SUM)| <= 1000
  {
    hide StmtCode, BlockCode;
    BodyLength();
    assert SUM[1..] == [];
    assert ProgramCode(SUM[1..], LoopsIn(BODY)) == [];
    assert ProgramCode(SUM, 0) == FunctionCode("main", BODY, 2, 0) + [];
  }

  lemma NoCode(n: nat, w: nat)
    ensures BlockCode([], n, w) == []
  {
  }

  lemma RoundLength(w: nat)
    ensures |StmtCode(ROUND, 2, w)| <= 120
  {
    StatementLengths(w + 1);
    hide StmtCode;
    NoCode(2, w + 1);
    BlockMore(COUNT, [], 2, w + 1);
    BlockMore(ADD, [COUNT], 2, w + 1);
    assert [COUNT] + [] == [COUNT] && [ADD] + [COUNT] == [ADD, COUNT];
    RoundParts(w);
  }

  lemma RoundParts(w: nat)
    ensures |StmtCode(ROUND, 2, w)| <= 30 + |BlockCode([ADD, COUNT], 2, w + 1)|
  {
    hide BlockCode;
  }

  lemma BodyLength()
    ensures |BlockCode(BODY, 2, 0)| <= 500
  {
    hide StmtCode, BlockCode, Loops;
    OneLoop();
    StatementLengths(0);
    StatementLengths(1);
    RoundLength(0);
    NoCode(2, 1);
    assert [BODY[4]] + [] == [BODY[4]] && [TEST] + [BODY[4]] == [TEST, BODY[4]];
    assert [ROUND] + [TEST, BODY[4]] == [ROUND, TEST, BODY[4]];
    assert [BODY[1]] + [ROUND, TEST, BODY[4]] == [BODY[1], ROUND, TEST, BODY[4]];
    assert [BODY[0]] + [BODY[1], ROUND, TEST, BODY[4]] == BODY;
    BlockMore(BODY[4], [], 2, 1);
    BlockMore(TEST, [BODY[4]], 2, 1);
    BlockMore(ROUND, [TEST, BODY[4]], 2, 0);
    BlockMore(BODY[1], [ROUND, TEST, BODY[4]], 2, 0);
    BlockMore(BODY[0], [BODY[1], ROUND, TEST, BODY[4]], 2, 0);
  }

  lemma OneLoop()
    ensures Loops(ROUND) == 1 && Loops(TEST) == Loops(BODY[0]) == Loops(BODY[1]) == Loops(BODY[4]) == 0
  {
    assert [ADD, COUNT][1..] == [COUNT] && [COUNT][1..] == [];
    assert LoopsIn([]) == 0;
    assert LoopsIn([COUNT]) == 0;
    assert LoopsIn([ADD, COUNT]) == 0;
  }

  lemma MainIs()
    ensures "main" in Functions(SUM) && Functions(SUM)["main"] == Function(2, BODY)
  {
    assert SUM[1..] == [];
    assert Functions(SUM[1..]) == map[];
  }

  /** The text is accepted, and its bytes, called with any `n`, come back with the
      sum of the numbers up to `n` in R7, or with 7 if that is 0 in 32 bits. */
  lemma SumRuns(n: u32) returns (s: State, m: nat, t: State)
    ensures Compiles(TheText(), SUM)
    ensures s.ds == [n] && s.cs == [] && Run(m, s) == Next(t) && t.regs[7] == Total(n)
  {
    hide IsProgram, Careful, EmitLines, Split, Extent, MainResult, Functions, Declared;
    hide EnvOf, ReadLines, TextOf, Run, Laid, Ready;
    hide TheText;
    SumIsProgram();
    SumText();
    ProgramHasText(SUM);
    SumIsCareful();
    SumFits();
    MainIs();
    SumResult(n, ZeroStore(Declared(LinesOf(TextOf(SUM)))));
    var sym;
    sym, s, m, t := EveryProgramRuns(TextOf(SUM), SUM, 0, [n, 0], [n], n, 100);
  }

  lemma SumResult(n: u32, st: Store)
    requires S in st && I in st
    ensures MainFrame(Functions(SUM), [n, 0], [n])
    ensures var r := MainResult(Functions(SUM), [n, 0], st, n);
            r.Done? && r.v == Returned(Total(n)) && Modest(r.use)
  {
    hide ExecBlock, Functions;
    MainIs();
    SumMeans(Functions(SUM), n, st, n);
    assert [n] + FiveZeros() == [n, 0, 0, 0, 0, 0];
  }
}
