/** The assembler: symbols get the addresses their labels are placed at, and
    the bytes of a compiled program, once in memory, are the program. */
module Layout {
  import opened Words
  import opened Isa
  import opened Machine
  import opened Assembly
  import opened Tpp
  import opened Codegen
  import opened Statements

  // ----- labels -----

  function LabelSet(code: seq<Asm>): set<Symbol> {
    if code == [] then {}
    else (if code[0].Label? then {code[0].sym} else {}) + LabelSet(code[1..])
  }

  /** No label is defined twice. */
  predicate Distinct(code: seq<Asm>) {
    code == [] || ((code[0].Label? ==> code[0].sym !in LabelSet(code[1..])) && Distinct(code[1..]))
  }

  lemma {:induction false} LabelSetAppend(x: seq<Asm>, y: seq<Asm>)
    ensures LabelSet(x + y) == LabelSet(x) + LabelSet(y)
    decreases |x|
  {
    if x == [] {
      assert x + y == y;
    } else {
      assert (x + y)[1..] == x[1..] + y;
      LabelSetAppend(x[1..], y);
    }
  }

  lemma {:induction false} DistinctAppend(x: seq<Asm>, y: seq<Asm>)
    requires Distinct(x) && Distinct(y) && LabelSet(x) !! LabelSet(y)
    ensures Distinct(x + y)
    decreases |x|
  {
    if x == [] {
      assert x + y == y;
    } else {
      assert (x + y)[1..] == x[1..] + y;
      LabelSetAppend(x[1..], y);
      DistinctAppend(x[1..], y);
    }
  }

  predicate NoLabels(code: seq<Asm>) {
    forall x :: x in code ==> !x.Label?
  }

  lemma {:induction false} NoLabelsSet(code: seq<Asm>)
    requires NoLabels(code)
    ensures LabelSet(code) == {} && Distinct(code)
    decreases |code|
  {
    if code != [] {
      NoLabelsSet(code[1..]);
    }
  }

  lemma ExprNoLabels(e: Expr, n: nat, k: nat)
    ensures NoLabels(ExprCode(e, n, k))
    decreases e, 1
  {
    hide OperatorCode, ArgumentTail, LoadVariable, UnaryTail, Counter;
    match e
    case Group(g) => ExprNoLabels(g, n, k);
    case Binary(op, l, r) =>
      ExprNoLabels(l, n, k);
      ExprNoLabels(r, n, Counter(l, k));
      OperatorNoLabels(op);
    case NotOf(g) =>
      ExprNoLabels(g, n, k);
      TailNoLabels(n, k, "");
    case NegOf(g) =>
      ExprNoLabels(g, n, k);
      TailNoLabels(n, k, "");
    case Arg(g) =>
      ExprNoLabels(g, n, k);
      TailNoLabels(n, Counter(g, k), "");
    case Var(x) => TailNoLabels(n, k, x);
    case Invoke(f, es) => CallNoLabels(f, es, n);
    case _ =>
  }

  lemma OperatorNoLabels(op: BinOp)
    ensures NoLabels(OperatorCode(op))
  {
  }

  lemma TailNoLabels(n: nat, k: nat, x: string)
    ensures NoLabels(ArgumentTail(n, k)) && NoLabels(LoadVariable(x)) && NoLabels(UnaryTail(Not)) && NoLabels(UnaryTail(Neg))
  {
  }

  lemma CallNoLabels(f: string, es: seq<Expr>, n: nat)
    ensures NoLabels(CallCode(f, es, n))
    decreases es, 1
  {
    hide ArgsCode;
    ArgsNoLabels(es, n, 0);
  }

  lemma ArgsNoLabels(es: seq<Expr>, n: nat, k: nat)
    ensures NoLabels(ArgsCode(es, n, k))
    decreases es, 0
  {
    hide ExprCode, Counter;
    if es != [] {
      ExprNoLabels(es[0], n, k);
      ArgsNoLabels(es[1..], n, Counter(es[0], k) + 1);
    }
  }

  // ----- labels of statements -----

  function IfLines(s: Stmt): set<nat>
    decreases s, 1
  {
    if s.If? then {s.line} else if s.While? then IfLinesIn(s.body) else {}
  }

  function IfLinesIn(ss: seq<Stmt>): set<nat>
    decreases ss, 0
  {
    if ss == [] then {} else IfLines(ss[0]) + IfLinesIn(ss[1..])
  }

  /** Every `if` stands on a line of its own and guards a one-line statement. */
  predicate IfsApart(ss: seq<Stmt>)
    decreases ss, 0
  {
    ss == [] || (IfsApartOne(ss[0]) && IfLines(ss[0]) !! IfLinesIn(ss[1..]) && IfsApart(ss[1..]))
  }

  predicate IfsApartOne(s: Stmt)
    decreases s, 1
  {
    (s.If? ==> OneLine(s.s)) && (s.While? ==> IfsApart(s.body))
  }

  function LoopLabels(w: nat, n: nat): set<Symbol> {
    (set i | w <= i < w + n :: WhileTop(i)) + (set i | w <= i < w + n :: WhileEnd(i))
  }

  function IfLabels(lines: set<nat>): set<Symbol> {
    set l | l in lines :: IfEnd(l)
  }

  lemma OneLineNoLabels(s: Stmt, n: nat, w: nat)
    requires OneLine(s)
    ensures NoLabels(StmtCode(s, n, w))
  {
    hide ExprCode, CallCode;
    match s
    case Let(_, e) => ExprNoLabels(e, n, 0);
    case Return(e) => ExprNoLabels(e, n, 0);
    case Do(f, es) => CallNoLabels(f, es, n);
  }

  /** A block defines exactly the labels of its own loops and ifs, each once. */
  lemma {:induction false} BlockLabels(ss: seq<Stmt>, n: nat, w: nat)
    requires IfsApart(ss)
    ensures LabelSet(BlockCode(ss, n, w)) == LoopLabels(w, LoopsIn(ss)) + IfLabels(IfLinesIn(ss))
    ensures Distinct(BlockCode(ss, n, w))
    decreases ss, 0
  {
    hide StmtCode, Distinct, LabelSet, Loops, IfLines, LoopLabels, IfLabels;
    if ss == [] {
      NoLabelsSet([]);
      NoLoopLabels(w);
    } else {
      StatementLabels(ss[0], n, w);
      BlockLabels(ss[1..], n, w + Loops(ss[0]));
      var a, b := StmtCode(ss[0], n, w), BlockCode(ss[1..], n, w + Loops(ss[0]));
      MoreLoopLabels(w, Loops(ss[0]), LoopsIn(ss[1..]));
      IfLabelsUnion(IfLines(ss[0]), IfLinesIn(ss[1..]), w, Loops(ss[0]), w + Loops(ss[0]), LoopsIn(ss[1..]));
      LabelSetAppend(a, b);
      DistinctAppend(a, b);
    }
  }

  lemma {:induction false} StatementLabels(s: Stmt, n: nat, w: nat)
    requires IfsApartOne(s)
    ensures LabelSet(StmtCode(s, n, w)) == LoopLabels(w, Loops(s)) + IfLabels(IfLines(s))
    ensures Distinct(StmtCode(s, n, w))
    decreases s, 1
  {
    hide StmtCode, Distinct, LabelSet;
    if OneLine(s) {
      OneLineNoLabels(s, n, w);
      NoLabelsSet(StmtCode(s, n, w));
    } else if s.If? {
      IfStatementLabels(s, n, w);
    } else {
      LoopStatementLabels(s, n, w);
    }
  }

  lemma IfStatementLabels(s: Stmt, n: nat, w: nat)
    requires s.If? && OneLine(s.s)
    ensures LabelSet(StmtCode(s, n, w)) == {IfEnd(s.line)} && Distinct(StmtCode(s, n, w))
  {
    hide ExprCode, Distinct, LabelSet;
    ExprNoLabels(s.c, n, 0);
    OneLineNoLabels(s.s, n, w);
    var before := ExprCode(s.c, n, 0) + (CompareZero() + ([JumpIfEqual(IfEnd(s.line))] + StmtCode(s.s, n, w)));
    var mark := [Label(IfEnd(s.line))];
    assert StmtCode(s, n, w) == before + mark;
    WithMark(before, IfEnd(s.line));
  }

  lemma WithMark(before: seq<Asm>, l: Symbol)
    requires NoLabels(before)
    ensures LabelSet(before + [Label(l)]) == {l} && Distinct(before + [Label(l)])
  {
    hide NoLabels;
    NoLabelsSet(before);
    OneLabel(l);
    LabelSetAppend(before, [Label(l)]);
    DistinctAppend(before, [Label(l)]);
  }

  lemma OneLabel(l: Symbol)
    ensures LabelSet([Label(l)]) == {l} && Distinct([Label(l)])
  {
  }

  lemma LoopStatementLabels(s: Stmt, n: nat, w: nat)
    requires s.While? && IfsApart(s.body)
    ensures LabelSet(StmtCode(s, n, w)) == LoopLabels(w, 1 + LoopsIn(s.body)) + IfLabels(IfLinesIn(s.body))
    ensures Distinct(StmtCode(s, n, w))
    decreases s, 0
  {
    hide ExprCode, Distinct, LabelSet, BlockCode;
    ExprNoLabels(s.c, n, 0);
    BlockLabels(s.body, n, w + 1);
    var test := ExprCode(s.c, n, 0) + (CompareZero() + [JumpIfEqualNear(WhileEnd(w))]);
    var body := BlockCode(s.body, n, w + 1);
    var top, back, end := [Label(WhileTop(w))], [JumpNear(WhileTop(w))], [Label(WhileEnd(w))];
    assert StmtCode(s, n, w) == top + (test + (body + (back + end)));
    NoLabelsSet(test);
    WithMark(back, WhileEnd(w));
    OneLabel(WhileTop(w));
    LabelSetAppend(body, back + end);
    DistinctAppend(body, back + end);
    LabelSetAppend(test, body + (back + end));
    DistinctAppend(test, body + (back + end));
    LabelSetAppend(top, test + (body + (back + end)));
    DistinctAppend(top, test + (body + (back + end)));
    MoreLoops(w, LoopsIn(s.body));
  }

  lemma MoreLoops(w: nat, n: nat)
    ensures LoopLabels(w, 1 + n) == {WhileTop(w), WhileEnd(w)} + LoopLabels(w + 1, n)
  {
  }

  // ----- placing -----

  /** Where a label stands when `code` is placed at `a`. */
  function AddressOf(code: seq<Asm>, a: nat, l: Symbol): Option<nat> {
    if code == [] then None
    else if code[0] == Label(l) then Some(a)
    else AddressOf(code[1..], a + Length(code[0]), l)
  }

  /** The symbol table agrees with the labels of the code. */
  ghost predicate Resolves(sym: Symbols, code: seq<Asm>, a: nat) {
    forall l :: l in LabelSet(code) ==> AddressOf(code, a, l) == Some(sym(l) as nat)
  }

  /** The bytes the assembler writes. */
  function Image(code: seq<Asm>, a: nat, sym: Symbols): seq<byte> {
    if code == [] then []
    else (if code[0].Label? then [] else Encode(Resolve(code[0], a, sym))) + Image(code[1..], a + Length(code[0]), sym)
  }

  lemma {:induction false} ImageSize(code: seq<Asm>, a: nat, sym: Symbols)
    ensures |Image(code, a, sym)| == Size(code)
    decreases |code|
  {
    if code != [] {
      if !code[0].Label? {
        IncrementIsLength(Resolve(code[0], a, sym));
      }
      ImageSize(code[1..], a + Length(code[0]), sym);
    }
  }

  lemma BytesSplit(m: seq<byte>, a: nat, x: seq<byte>, y: seq<byte>)
    requires BytesAt(m, a, x + y)
    ensures BytesAt(m, a, x) && BytesAt(m, a + |x|, y)
  {
    assert m[a..a + |x|] == m[a..a + |x + y|][..|x|];
    assert m[a + |x|..a + |x| + |y|] == m[a..a + |x + y|][|x|..];
  }

  lemma ResolvesTail(sym: Symbols, code: seq<Asm>, a: nat)
    requires code != [] && Distinct(code) && Resolves(sym, code, a)
    ensures Resolves(sym, code[1..], a + Length(code[0]))
    ensures code[0].Label? ==> sym(code[0].sym) == a
  {
    forall l | l in LabelSet(code[1..])
      ensures AddressOf(code[1..], a + Length(code[0]), l) == Some(sym(l) as nat)
    {
      assert l in LabelSet(code);
      assert code[0] != Label(l);
    }
    if code[0].Label? {
      assert code[0].sym in LabelSet(code);
    }
  }

  /** An assembled program that lies on executable pages is loaded: every
      instruction is where it should be and every label resolves to its place. */
  lemma {:induction false} AssembledIsLoaded(m: seq<byte>, pages: seq<Page>, a: nat, code: seq<Asm>, sym: Symbols)
    requires Distinct(code) && Resolves(sym, code, a)
    requires BytesAt(m, a, Image(code, a, sym)) && InText(pages, a, Size(code))
    ensures Loaded(m, pages, a, code, sym)
    decreases |code|
  {
    hide Distinct, Resolves;
    if code != [] {
      var first := if code[0].Label? then [] else Encode(Resolve(code[0], a, sym));
      if !code[0].Label? {
        IncrementIsLength(Resolve(code[0], a, sym));
      }
      BytesSplit(m, a, first, Image(code[1..], a + Length(code[0]), sym));
      ResolvesTail(sym, code, a);
      assert Distinct(code[1..]) by {
        DistinctTail(code);
      }
      AssembledIsLoaded(m, pages, a + Length(code[0]), code[1..], sym);
    }
  }

  lemma DistinctTail(code: seq<Asm>)
    requires code != [] && Distinct(code)
    ensures Distinct(code[1..])
  {
  }

  // ----- whole programs -----

  /** A function declaration as it stands in the text. */
  datatype Decl = Decl(f: string, body: Function)

  function ProgramCode(decls: seq<Decl>, w: nat): seq<Asm> {
    if decls == [] then []
    else
      var d := decls[0];
      FunctionCode(d.f, d.body.body, d.body.arity, w) + ProgramCode(decls[1..], w + LoopsIn(d.body.body))
  }

  function DeclLines(d: Decl): seq<Line> {
    [FunctionLine(d.f, d.body.arity)] + (Flatten(d.body.body) + [EndfLine])
  }

  function ProgramLines(decls: seq<Decl>): seq<Line> {
    if decls == [] then [] else DeclLines(decls[0]) + ProgramLines(decls[1..])
  }

  predicate ShallowDecls(decls: seq<Decl>) {
    forall d :: d in decls ==> Nesting(d.body.body) <= MAX_NESTING + 1
  }

  function LoopsOf(decls: seq<Decl>): nat {
    if decls == [] then 0 else LoopsIn(decls[0].body.body) + LoopsOf(decls[1..])
  }

  lemma DeclOnLines(d: Decl, k: Counters)
    requires k.open == [] && Nesting(d.body.body) <= MAX_NESTING + 1
    ensures EmitLines(DeclLines(d), k) ==
            Some((FunctionCode(d.f, d.body.body, d.body.arity, k.next), k.(n := 0, next := k.next + LoopsIn(d.body.body))))
  {
    hide EmitLines, BlockCode, Flatten, Prelude;
    var head, body := [Label(Entry(d.f))] + Prelude(d.f), BlockCode(d.body.body, d.body.arity, k.next);
    var k1 := k.(n := d.body.arity);
    BlockOnLines(d.body.body, k1);
    var k2 := k1.(next := k.next + LoopsIn(d.body.body));
    FramedLines(FunctionLine(d.f, d.body.arity), Flatten(d.body.body), EndfLine, k, k1, k2, k2.(n := 0), head, body, []);
    assert head + (body + []) == [Label(Entry(d.f))] + (Prelude(d.f) + body);
  }

  /** The lines of a program print the code of its functions, one after the other. */
  lemma {:induction false} ProgramOnLines(decls: seq<Decl>, k: Counters)
    requires k.open == [] && k.n == 0 && ShallowDecls(decls)
    ensures EmitLines(ProgramLines(decls), k) ==
            Some((ProgramCode(decls, k.next), k.(next := k.next + LoopsOf(decls))))
    decreases |decls|
  {
    hide EmitLine, FunctionCode, DeclLines;
    if decls != [] {
      DeclOnLines(decls[0], k);
      ProgramOnLines(decls[1..], k.(next := k.next + LoopsIn(decls[0].body.body)));
      EmitAppend(DeclLines(decls[0]), ProgramLines(decls[1..]), k);
    }
  }

  function EntriesOf(decls: seq<Decl>): set<Symbol> {
    set d | d in decls :: Entry(d.f)
  }

  function AllIfLines(decls: seq<Decl>): set<nat> {
    if decls == [] then {} else IfLinesIn(decls[0].body.body) + AllIfLines(decls[1..])
  }

  /** Function names are distinct, and no two ifs share a source line. */
  predicate WellLabelled(decls: seq<Decl>) {
    decls == [] ||
    (&& Entry(decls[0].f) !in EntriesOf(decls[1..])
     && IfsApart(decls[0].body.body)
     && IfLinesIn(decls[0].body.body) !! AllIfLines(decls[1..])
     && WellLabelled(decls[1..]))
  }

  lemma FunctionLabels(d: Decl, w: nat)
    requires IfsApart(d.body.body)
    ensures LabelSet(FunctionCode(d.f, d.body.body, d.body.arity, w)) ==
            {Entry(d.f)} + LoopLabels(w, LoopsIn(d.body.body)) + IfLabels(IfLinesIn(d.body.body))
    ensures Distinct(FunctionCode(d.f, d.body.body, d.body.arity, w))
  {
    hide BlockCode, Distinct, LabelSet;
    var head, body := [Label(Entry(d.f))], BlockCode(d.body.body, d.body.arity, w);
    BlockLabels(d.body.body, d.body.arity, w);
    OneLabel(Entry(d.f));
    NoLabelsSet(Prelude(d.f));
    LabelSetAppend(Prelude(d.f), body);
    DistinctAppend(Prelude(d.f), body);
    LabelSetAppend(head, Prelude(d.f) + body);
    DistinctAppend(head, Prelude(d.f) + body);
  }

  lemma MoreLoopLabels(w: nat, m: nat, n: nat)
    ensures LoopLabels(w, m + n) == LoopLabels(w, m) + LoopLabels(w + m, n)
    ensures LoopLabels(w, m) !! LoopLabels(w + m, n)
  {
  }

  /** No label of a program is defined twice, so the assembler accepts it. */
  lemma {:induction false} ProgramLabels(decls: seq<Decl>, w: nat)
    requires WellLabelled(decls)
    ensures LabelSet(ProgramCode(decls, w)) ==
            EntriesOf(decls) + LoopLabels(w, LoopsOf(decls)) + IfLabels(AllIfLines(decls))
    ensures Distinct(ProgramCode(decls, w))
    decreases |decls|
  {
    hide FunctionCode, Distinct, LabelSet, LoopLabels, IfLinesIn, LoopsIn, IfsApart;
    if decls == [] {
      NoLabelsSet([]);
      assert LoopLabels(w, 0) == {} by {
        NoLoopLabels(w);
      }
    } else {
      var d, n := decls[0], LoopsIn(decls[0].body.body);
      FunctionLabels(d, w);
      ProgramLabels(decls[1..], w + n);
      MoreLoopLabels(w, n, LoopsOf(decls[1..]));
      DifferentKinds(w, n, w + n, LoopsOf(decls[1..]), d, decls[1..]);
      var a, b := FunctionCode(d.f, d.body.body, d.body.arity, w), ProgramCode(decls[1..], w + n);
      LabelSetAppend(a, b);
      DistinctAppend(a, b);
      assert EntriesOf(decls) == {Entry(d.f)} + EntriesOf(decls[1..]);
    }
  }

  lemma IfLabelsUnion(a: set<nat>, b: set<nat>, w: nat, n: nat, v: nat, m: nat)
    ensures IfLabels(a + b) == IfLabels(a) + IfLabels(b)
    ensures a !! b && LoopLabels(w, n) !! LoopLabels(v, m) ==>
              LoopLabels(w, n) + IfLabels(a) !! LoopLabels(v, m) + IfLabels(b)
  {
  }

  lemma NoLoopLabels(w: nat)
    ensures LoopLabels(w, 0) == {} && IfLabels({}) == {}
  {
  }

  lemma DifferentKinds(w: nat, n: nat, v: nat, m: nat, d: Decl, rest: seq<Decl>)
    requires LoopLabels(w, n) !! LoopLabels(v, m) && Entry(d.f) !in EntriesOf(rest)
    requires IfLinesIn(d.body.body) !! AllIfLines(rest)
    ensures {Entry(d.f)} + LoopLabels(w, n) + IfLabels(IfLinesIn(d.body.body)) !!
            EntriesOf(rest) + LoopLabels(v, m) + IfLabels(AllIfLines(rest))
  {
  }

  // ----- from text to declarations -----

  /** Cuts lines into declarations: every function is ended by `endf` with all
      its loops closed. */
  function Split(lines: seq<Line>): Option<seq<Decl>>
    decreases |lines|
  {
    if lines == [] then Some([])
    else if !lines[0].FunctionLine? then None
    else
      var g := Gather(lines[1..]);
      if g.None? || g.value.1 == [] || !g.value.1[0].EndfLine? then None
      else
        var more := Split(g.value.1[1..]);
        if more.None? then None
        else Some([Decl(lines[0].f, Function(lines[0].n, g.value.0))] + more.value)
  }

  lemma {:induction false} SplitIsProgram(lines: seq<Line>)
    requires NoLoopInside(lines) && Split(lines).Some?
    ensures lines == ProgramLines(Split(lines).value)
    decreases |lines|
  {
    hide Gather, Flatten;
    if lines != [] {
      GatherFlattens(lines[1..]);
      var (ss, rest) := Gather(lines[1..]).value;
      SplitIsProgram(rest[1..]);
      var d, more := Decl(lines[0].f, Function(lines[0].n, ss)), Split(rest[1..]).value;
      assert ([d] + more)[1..] == more;
      assert lines == [lines[0]] + (Flatten(ss) + ([EndfLine] + rest[1..]));
      assert lines == ([lines[0]] + (Flatten(ss) + [EndfLine])) + rest[1..];
    }
  }

  // ----- symbol table -----

  lemma {:induction false} LabelPlaced(code: seq<Asm>, a: nat, l: Symbol)
    requires l in LabelSet(code)
    ensures AddressOf(code, a, l).Some? && a <= AddressOf(code, a, l).value <= a + Size(code)
    decreases |code|
  {
    if code[0] != Label(l) {
      LabelPlaced(code[1..], a + Length(code[0]), l);
    }
  }

  /** The table the assembler builds: labels at their places, variables at `cells`. */
  function SymbolTable(code: seq<Asm>, a: nat, cells: map<string, u32>): Symbols {
    (l: Symbol) =>
      if l.Cell? then (if l.x in cells then cells[l.x] else 0)
      else
        var p := AddressOf(code, a, l);
        if p.Some? then Low32(p.value) else 0
  }

  lemma {:induction false} NoCellLabels(code: seq<Asm>)
    requires forall x :: x in code && x.Label? ==> !x.sym.Cell?
    ensures forall l :: l in LabelSet(code) ==> !l.Cell?
    decreases |code|
  {
    if code != [] {
      NoCellLabels(code[1..]);
    }
  }

  lemma SymbolTableResolves(code: seq<Asm>, a: nat, cells: map<string, u32>)
    requires a + Size(code) < 0x1_0000_0000
    requires forall l :: l in LabelSet(code) ==> !l.Cell?
    ensures Resolves(SymbolTable(code, a, cells), code, a)
  {
    hide AddressOf;
    forall l | l in LabelSet(code)
      ensures AddressOf(code, a, l) == Some(SymbolTable(code, a, cells)(l) as nat)
    {
      LabelPlaced(code, a, l);
    }
  }
}
