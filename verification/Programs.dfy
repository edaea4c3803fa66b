/** Whole programs: an accepted text, assembled and put in memory, does on the
    machine what the text means. */
module Programs {
  import opened Words
  import opened Isa
  import opened Machine
  import opened Assembly
  import opened Tpp
  import opened Codegen
  import opened Chunks
  import opened Setting
  import opened Correctness
  import opened Grammar
  import opened Statements
  import opened Layout
  import opened Accepted

  // ----- the code around the functions -----

  /** `main:` makes room for the frame of the program's own `main` and calls it. */
  function StartCode(): seq<Asm> {
    [Label(Start)] + ([PushImm(0), PushImm(0), PushImm(0), PushImm(0), PushImm(0)] + [CallNear(Entry("main"))])
  }

  function FullCode(decls: seq<Decl>): seq<Asm> {
    ProgramCode(decls, 0) + (StartCode() + InitCode())
  }

  lemma FullLabels(decls: seq<Decl>)
    requires WellLabelled(decls)
    ensures Distinct(FullCode(decls)) && forall l :: l in LabelSet(FullCode(decls)) ==> !l.Cell?
  {
    hide Distinct, LabelSet, ProgramCode, WellLabelled;
    ProgramLabels(decls, 0);
    AroundLabels();
    LabelSetAppend(StartCode(), InitCode());
    DistinctAppend(StartCode(), InitCode());
    LabelSetAppend(ProgramCode(decls, 0), StartCode() + InitCode());
    DistinctAppend(ProgramCode(decls, 0), StartCode() + InitCode());
  }

  lemma AroundLabels()
    ensures LabelSet(StartCode()) == {Start} && Distinct(StartCode())
    ensures LabelSet(InitCode()) == {Init} && Distinct(InitCode())
  {
    hide Distinct, LabelSet;
    var pushes, call := [PushImm(0), PushImm(0), PushImm(0), PushImm(0), PushImm(0)], [CallNear(Entry("main"))];
    OneLabel(Start);
    OneLabel(Init);
    NoLabelsSet(pushes + call);
    NoLabelsSet([Do0(Ret)]);
    LabelSetAppend([Label(Start)], pushes + call);
    DistinctAppend([Label(Start)], pushes + call);
    LabelSetAppend([Label(Init)], [Do0(Ret)]);
    DistinctAppend([Label(Init)], [Do0(Ret)]);
  }

  // ----- every function is where its name says -----

  /** The number of each function's first loop. */
  function Starts(decls: seq<Decl>, w: nat): map<string, nat> {
    if decls == [] then map[] else map[decls[0].f := w] + Starts(decls[1..], w + LoopsIn(decls[0].body.body))
  }

  lemma {:induction false} NamesOf(decls: seq<Decl>, w: nat)
    ensures forall f :: f in Functions(decls) <==> Entry(f) in EntriesOf(decls)
    ensures Starts(decls, w).Keys == Functions(decls).Keys
    decreases |decls|
  {
    if decls != [] {
      NamesOf(decls[1..], w + LoopsIn(decls[0].body.body));
      forall f
        ensures f in Functions(decls) <==> Entry(f) in EntriesOf(decls)
      {
        assert Entry(f) in EntriesOf(decls) <==> f == decls[0].f || Entry(f) in EntriesOf(decls[1..]);
      }
    }
  }

  ghost predicate FunctionsLoaded(decls: seq<Decl>, w: nat, m: seq<byte>, pages: seq<Page>, sym: Symbols) {
    forall f :: f in Functions(decls) ==>
      && f in Starts(decls, w)
      && var d := Functions(decls)[f];
         Loaded(m, pages, sym(Entry(f)), FunctionCode(f, d.body, d.arity, Starts(decls, w)[f]), sym)
  }

  lemma {:induction false} CodesLoaded(decls: seq<Decl>, w: nat, m: seq<byte>, pages: seq<Page>, a: nat, sym: Symbols)
    requires WellLabelled(decls) && Loaded(m, pages, a, ProgramCode(decls, w), sym)
    ensures FunctionsLoaded(decls, w, m, pages, sym)
    decreases |decls|
  {
    hide Loaded, FunctionCode, IfsApart, IfLinesIn;
    if decls != [] {
      var d, next := decls[0], w + LoopsIn(decls[0].body.body);
      var code := FunctionCode(d.f, d.body.body, d.body.arity, w);
      SplitTwo(m, pages, a, code, ProgramCode(decls[1..], next), sym);
      CodesLoaded(decls[1..], next, m, pages, a + Size(code), sym);
      NamesOf(decls[1..], next);
      EntryPlaced(d, w, m, pages, a, sym);
      FunctionsLoadedMore(decls, w, m, pages, a, sym);
    }
  }

  lemma FunctionsLoadedMore(decls: seq<Decl>, w: nat, m: seq<byte>, pages: seq<Page>, a: nat, sym: Symbols)
    requires decls != [] && sym(Entry(decls[0].f)) == a && decls[0].f !in Functions(decls[1..])
    requires var d := decls[0];
             Loaded(m, pages, a, FunctionCode(d.f, d.body.body, d.body.arity, w), sym)
    requires FunctionsLoaded(decls[1..], w + LoopsIn(decls[0].body.body), m, pages, sym)
    ensures FunctionsLoaded(decls, w, m, pages, sym)
  {
    hide Loaded, FunctionCode, LoopsIn;
    NamesOf(decls[1..], w + LoopsIn(decls[0].body.body));
  }

  lemma EntryPlaced(d: Decl, w: nat, m: seq<byte>, pages: seq<Page>, a: nat, sym: Symbols)
    requires Loaded(m, pages, a, FunctionCode(d.f, d.body.body, d.body.arity, w), sym)
    ensures sym(Entry(d.f)) == a
  {
    hide BlockCode, Loaded;
    SplitTwo(m, pages, a, [Label(Entry(d.f))], Prelude(d.f) + BlockCode(d.body.body, d.body.arity, w), sym);
    LabelAddress(m, pages, a, Entry(d.f), sym);
  }

  // ----- what else the language asks of a program -----

  /** `$` is not used after a call in the same argument list. */
  predicate CarefulExpr(e: Expr)
    decreases e, 1
  {
    match e
    case Group(g) => CarefulExpr(g)
    case Binary(_, l, r) => CarefulExpr(l) && CarefulExpr(r)
    case NotOf(g) => CarefulExpr(g)
    case NegOf(g) => CarefulExpr(g)
    case Arg(g) => CarefulExpr(g)
    case Invoke(f, es) => CarefulArgs(es)
    case _ => true
  }

  predicate CarefulArgs(es: seq<Expr>)
    decreases es, 0
  {
    es == [] || (CarefulExpr(es[0]) && CarefulArgs(es[1..]))
  }

  predicate CarefulWhole(e: Expr) {
    CarefulExpr(e) && SafeExpr(e, 0, 0)
  }

  predicate CarefulStmt(s: Stmt)
    decreases s, 1
  {
    match s
    case Let(_, e) => CarefulWhole(e)
    case Return(e) => CarefulWhole(e)
    case Do(f, es) => CarefulArgs(es) && SafeArgs(es, 0, 0)
    case If(c, t, _) => CarefulWhole(c) && CarefulStmt(t)
    case While(c, body) => CarefulWhole(c) && CarefulBlock(body)
  }

  predicate CarefulBlock(ss: seq<Stmt>)
    decreases ss, 0
  {
    ss == [] || (CarefulStmt(ss[0]) && CarefulBlock(ss[1..]))
  }

  predicate Careful(decls: seq<Decl>) {
    forall d :: d in decls ==> CarefulBlock(d.body.body)
  }

  ghost predicate Knows(g: Env, vars: set<string>, arity: map<string, nat>) {
    && vars == g.dom && arity.Keys == g.p.Keys
    && forall f :: f in g.p ==> arity[f] == g.p[f].arity
  }

  lemma {:induction false} OkFitsExpr(g: Env, e: Expr, vars: set<string>, arity: map<string, nat>)
    requires Knows(g, vars, arity) && ExprOk(e, vars, arity) && CarefulExpr(e)
    ensures FitsExpr(g, e)
    decreases e, 1
  {
    match e
    case Group(h) => OkFitsExpr(g, h, vars, arity);
    case Binary(_, l, r) =>
      OkFitsExpr(g, l, vars, arity);
      OkFitsExpr(g, r, vars, arity);
    case NotOf(h) => OkFitsExpr(g, h, vars, arity);
    case NegOf(h) => OkFitsExpr(g, h, vars, arity);
    case Arg(h) => OkFitsExpr(g, h, vars, arity);
    case Invoke(f, es) => OkFitsArgs(g, es, vars, arity);
    case _ =>
  }

  lemma {:induction false} OkFitsArgs(g: Env, es: seq<Expr>, vars: set<string>, arity: map<string, nat>)
    requires Knows(g, vars, arity) && ArgsOk(es, vars, arity) && CarefulArgs(es)
    ensures FitsArgs(g, es)
    decreases es, 0
  {
    if es != [] {
      OkFitsExpr(g, es[0], vars, arity);
      OkFitsArgs(g, es[1..], vars, arity);
    }
  }

  lemma {:induction false} OkFitsStmt(g: Env, s: Stmt, vars: set<string>, arity: map<string, nat>)
    requires Knows(g, vars, arity) && StmtOk(s, vars, arity) && CarefulStmt(s)
    ensures FitsStmt(g, s)
    decreases s, 1
  {
    hide ExprOk, CarefulExpr, FitsExpr, SafeExpr, SafeArgs, ArgsOk, CarefulArgs, FitsArgs;
    match s
    case Let(_, e) => OkFitsExpr(g, e, vars, arity);
    case Return(e) => OkFitsExpr(g, e, vars, arity);
    case Do(f, es) =>
      OkFitsArgs(g, es, vars, arity);
      OkFitsCall(g, f, es, vars, arity);
    case If(c, t, _) =>
      OkFitsExpr(g, c, vars, arity);
      OkFitsStmt(g, t, vars, arity);
    case While(c, body) =>
      OkFitsExpr(g, c, vars, arity);
      OkFitsBlock(g, body, vars, arity);
  }

  lemma OkFitsCall(g: Env, f: string, es: seq<Expr>, vars: set<string>, arity: map<string, nat>)
    requires Knows(g, vars, arity) && CallOk(f, es, vars, arity) && FitsArgs(g, es)
    ensures FitsCall(g, f, es)
  {
    hide ArgsOk, FitsArgs;
  }

  lemma {:induction false} OkFitsBlock(g: Env, ss: seq<Stmt>, vars: set<string>, arity: map<string, nat>)
    requires Knows(g, vars, arity) && BlockOk(ss, vars, arity) && CarefulBlock(ss)
    ensures FitsBlock(g, ss)
    decreases ss, 0
  {
    hide StmtOk, CarefulStmt, FitsStmt, Knows;
    if ss != [] {
      OkFitsStmt(g, ss[0], vars, arity);
      OkFitsBlock(g, ss[1..], vars, arity);
    }
  }

  lemma {:induction false} BodyOf(decls: seq<Decl>, f: string)
    requires f in Functions(decls)
    ensures exists d :: d in decls && d.f == f && d.body == Functions(decls)[f]
    decreases |decls|
  {
    if f in Functions(decls[1..]) {
      BodyOf(decls[1..], f);
      var d :| d in decls[1..] && d.f == f && d.body == Functions(decls[1..])[f];
      assert d in decls;
    } else {
      assert decls[0] in decls;
    }
  }

  lemma ProgramFits(g: Env, decls: seq<Decl>, vars: set<string>, arity: map<string, nat>)
    requires g.p == Functions(decls) && Knows(g, vars, arity) && DeclsOk(decls, vars, arity) && Careful(decls)
    ensures FitsProgram(g)
  {
    hide BlockOk, CarefulBlock, FitsBlock, Knows, Functions;
    forall f | f in g.p
      ensures FitsBlock(g, g.p[f].body)
    {
      BodyOf(decls, f);
      var d :| d in decls && d.f == f && d.body == Functions(decls)[f];
      OkFitsBlock(g, d.body.body, vars, arity);
    }
  }

  // ----- a program in memory -----

  /** The setting of an accepted text whose symbols resolve to `sym`. */
  function EnvOf(text: string, decls: seq<Decl>, sym: Symbols): Env
    requires ReadLines(START, 1, text).Some?
  {
    Env(Functions(decls), sym, Declared(LinesOf(text)), Starts(decls, 0))
  }

  /** The text compiles, and its assembled code stands in executable memory from
      address `a` on. */
  ghost predicate Laid(text: string, decls: seq<Decl>, a: nat, sym: Symbols, m: seq<byte>, pages: seq<Page>) {
    && Compiles(text, decls)
    && Resolves(sym, FullCode(decls), a)
    && BytesAt(m, a, Image(FullCode(decls), a, sym))
    && InText(pages, a, Size(FullCode(decls)))
  }

  ghost predicate Installed(text: string, decls: seq<Decl>, a: nat, sym: Symbols, m: seq<byte>, pages: seq<Page>) {
    Laid(text, decls, a, sym, m, pages) && Careful(decls)
  }

  /** An installed program with its variables in cells of their own is ready to
      run, and its start code is loaded. */
  lemma InstalledIsReady(text: string, decls: seq<Decl>, a: nat, sym: Symbols, m: seq<byte>, pages: seq<Page>, st: Store)
    requires Installed(text, decls, a, sym, m, pages)
    requires CellsOk(EnvOf(text, decls, sym), |m|, pages) && Holds(EnvOf(text, decls, sym), m, st)
    ensures Ready(EnvOf(text, decls, sym), m, pages, st)
    ensures Loaded(m, pages, sym(Start), StartCode(), sym)
  {
    hide InitCode, StartCode;
    hide Careful, Resolves, BytesAt, Image, FullCode, InText, CellsOk, Holds, Ready, Loaded, Functions, Starts;
    hide FitsProgram, FunctionsLoaded, DeclsOk, WellLabelled, Declared, Defined, EmitLines, ReadLines, Size, Split;
    var g := EnvOf(text, decls, sym);
    AcceptedText(text, decls);
    ReadyParts(text, decls, a, sym, m, pages);
    ReadyFits(text, decls, sym);
    ReadyWhole(g, decls, m, pages, st);
  }

  lemma ReadyWhole(g: Env, decls: seq<Decl>, m: seq<byte>, pages: seq<Page>, st: Store)
    requires FitsProgram(g) && CellsOk(g, |m|, pages) && Holds(g, m, st)
    requires g.p == Functions(decls) && g.start == Starts(decls, 0) && FunctionsLoaded(decls, 0, m, pages, g.sym)
    requires Loaded(m, pages, g.sym(Init), InitCode(), g.sym)
    ensures Ready(g, m, pages, st)
  {
    hide FitsProgram, CellsOk, Holds, Loaded, FunctionCode, Functions, Starts;
  }

  lemma ReadyFits(text: string, decls: seq<Decl>, sym: Symbols)
    requires Compiles(text, decls) && Careful(decls)
    requires LinesOf(text) == ProgramLines(decls)
    requires DeclsOk(decls, Declared(LinesOf(text)), Defined(ProgramLines(decls)))
    ensures FitsProgram(EnvOf(text, decls, sym))
  {
    hide Careful, DeclsOk, FitsProgram, EmitLines, Split, Defined, Declared, Functions, ReadLines, ProgramLines;
    DefinedIsFunctions(decls);
    ProgramFits(EnvOf(text, decls, sym), decls, Declared(LinesOf(text)), Defined(ProgramLines(decls)));
  }

  lemma ReadyParts(text: string, decls: seq<Decl>, a: nat, sym: Symbols, m: seq<byte>, pages: seq<Page>)
    requires WellLabelled(decls) && Resolves(sym, FullCode(decls), a)
    requires BytesAt(m, a, Image(FullCode(decls), a, sym)) && InText(pages, a, Size(FullCode(decls)))
    ensures FunctionsLoaded(decls, 0, m, pages, sym)
    ensures Loaded(m, pages, sym(Start), StartCode(), sym) && Loaded(m, pages, sym(Init), InitCode(), sym)
  {
    hide WellLabelled, Resolves, BytesAt, Image, InText, Size, Loaded, ProgramCode, FunctionsLoaded, Distinct;
    FullLabels(decls);
    AssembledIsLoaded(m, pages, a, FullCode(decls), sym);
    SplitThree(m, pages, a, ProgramCode(decls, 0), StartCode(), InitCode(), sym);
    CodesLoaded(decls, 0, m, pages, a, sym);
    MarkedAt(m, pages, a + Size(ProgramCode(decls, 0)), Start, StartCode(), sym);
    MarkedAt(m, pages, a + Size(ProgramCode(decls, 0)) + Size(StartCode()), Init, InitCode(), sym);
  }

  lemma MarkedAt(m: seq<byte>, pages: seq<Page>, a: nat, l: Symbol, code: seq<Asm>, sym: Symbols)
    requires Loaded(m, pages, a, code, sym) && code != [] && code[0] == Label(l)
    ensures sym(l) == a
  {
  }

  /** The assembler always finds addresses: an accepted text can be installed
      anywhere below the end of the address space. */
  lemma Assembles(text: string, decls: seq<Decl>, a: nat, cells: map<string, u32>)
    requires Compiles(text, decls) && a + Size(FullCode(decls)) < 0x1_0000_0000
    ensures Resolves(SymbolTable(FullCode(decls), a, cells), FullCode(decls), a)
  {
    hide Compiles, FullCode, Size, Resolves, SymbolTable, LabelSet, WellLabelled, DeclsOk;
    AcceptedText(text, decls);
    FullLabels(decls);
    SymbolTableResolves(FullCode(decls), a, cells);
  }

  // ----- from the start of the program into main and back -----

  function FiveZeros(): (z: seq<u64>)
    ensures |z| == 5
  {
    [0, 0, 0, 0, 0]
  }

  lemma PushesFlow(s: State, sym: Symbols)
    requires |s.ds| + 5 <= s.limit
    ensures var code := [PushImm(0), PushImm(0), PushImm(0), PushImm(0), PushImm(0)];
            AllStraight(code) && Size(code) == 25 && Flow(code, 0, s, sym) == Ok(s.(ds := s.ds + FiveZeros()))
  {
    hide Flow, Size;
    var code := [PushImm(0), PushImm(0), PushImm(0), PushImm(0), PushImm(0)];
    var s1 := FlowPushImm(code, 0, s, 0, sym);
    var s2 := FlowPushImm(code, 1, s1, 0, sym);
    var s3 := FlowPushImm(code, 2, s2, 0, sym);
    var s4 := FlowPushImm(code, 3, s3, 0, sym);
    var s5 := FlowPushImm(code, 4, s4, 0, sym);
    FlowEnd(code, s5, sym);
    assert s5.ds == s.ds + FiveZeros();
    PushesSize(code);
  }

  lemma PushesSize(code: seq<Asm>)
    requires |code| == 5 && forall i :: 0 <= i < 5 ==> code[i] == PushImm(0)
    ensures Size(code) == 25
  {
    var two := [PushImm(0), PushImm(0)];
    assert code == two + (two + [PushImm(0)]);
    SizeAppend(two, two + [PushImm(0)]);
    SizeAppend(two, [PushImm(0)]);
    SizeAppend([PushImm(0)], [PushImm(0)]);
    assert two == [PushImm(0)] + [PushImm(0)];
    OneSize(PushImm(0));
  }

  const START_LENGTH := 30

  /** From `main:` to the first statement of the program's `main`. */
  lemma ReachMain(g: Env, s: State, st: Store) returns (n: nat, t: State)
    requires Ready(g, s.mem, s.pages, st) && "main" in g.p && s.ip == g.sym(Start)
    requires Loaded(s.mem, s.pages, s.ip, StartCode(), g.sym)
    requires |s.ds| + 5 <= s.limit && |s.cs| + 2 <= s.limit
    ensures s.ip + START_LENGTH < 0x1_0000_0000
    ensures Run(n, s) == Next(t) && n >= 1
    ensures t == s.(ip := t.ip, ds := s.ds + FiveZeros(), cs := s.cs + [s.ip + START_LENGTH])
    ensures "main" in g.start && FitsBlock(g, g.p["main"].body)
    ensures Loaded(t.mem, t.pages, t.ip, BlockCode(g.p["main"].body, g.p["main"].arity, g.start["main"]), g.sym)
  {
    hide Run, Loaded, Size, Flow, Ready, FitsBlock, BlockCode;
    var pushes, call := [PushImm(0), PushImm(0), PushImm(0), PushImm(0), PushImm(0)], [CallNear(Entry("main"))];
    SplitThree(s.mem, s.pages, s.ip, [Label(Start)], pushes, call, g.sym);
    OneSize(Label(Start));
    PushesFlow(s, g.sym);
    var t1 := RunChunk(pushes, s, s.(ds := s.ds + FiveZeros()), g.sym);
    var t2 := CallNearRun(t1, Entry("main"), g.sym);
    RunTwo(s, 5, t1, 1, t2);
    var n3: nat;
    n3, t := EnterBody(g, "main", st, t2);
    RunTwo(s, 6, t2, n3, t);
    n := 6 + n3;
  }

  /** Where a program leaves the machine: back after the call in `main:`, with
      the value returned in R7, its variables in their cells, the call stack as
      it was and the five zeros on the data stack; or at a division by zero; or
      still running after `fuel` cycles. */
  ghost predicate RunsProgram(g: Env, r: Result<Signal>, s: State, n: nat, t: State, fuel: nat) {
    && Run(n, s) == Next(t)
    && match r
       case Done(v, st, _) =>
         v.Returned? ==>
           && t.ip == s.ip + START_LENGTH && t.regs[7] == v.v
           && t.ds == s.ds + FiveZeros() && t.cs == s.cs
           && Stays(g, s, t) && Ready(g, t.mem, t.pages, st)
       case DividedByZero(_) => Cycle(t) == HandleException(t, ARITHMETIC)
       case OutOfFuel(_) => n >= fuel
       case Wrong(_) => true
  }

  /** What `main` comes to when called with `args`. */
  function MainResult(p: Program, args: seq<u32>, st: Store, fuel: nat): Result<Signal>
    requires "main" in p
  {
    ExecBlock(p, p["main"].body, args, st, fuel)
  }

  /** The arguments of `main` are what lies on the data stack where its frame
      has them: the first of the five zeros, and below it whatever was there. */
  predicate MainFrame(p: Program, args: seq<u32>, ds: seq<u64>) {
    "main" in p && p["main"].arity == |args| && FrameOk(ds + FiveZeros(), args, 0)
  }

  /** Room for the program: the five zeros, two return addresses, and what
      `main` itself needs. */
  predicate RoomFor(s: State, use: Cost) {
    Room(s, Shift(Peak(use, Cost(0, 1)), 5, 1))
  }

  lemma SimProgram(g: Env, args: seq<u32>, st: Store, fuel: nat, s: State) returns (n: nat, t: State)
    requires Ready(g, s.mem, s.pages, st) && MainFrame(g.p, args, s.ds) && s.ip == g.sym(Start)
    requires Loaded(s.mem, s.pages, s.ip, StartCode(), g.sym)
    requires RoomFor(s, MainResult(g.p, args, st, fuel).use)
    ensures RunsProgram(g, MainResult(g.p, args, st, fuel), s, n, t, fuel)
  {
    hide Run, Cycle, Loaded, Size, Ready, FitsBlock, BlockCode, ExecBlock, HandleException, Untouched, TopOf, Popped;
    hide StartCode, InitCode, FrameOk;
    var n1, t1 := ReachMain(g, s, st);
    StaysSame(g, s);
    PushKept(g, s, s, t1);
    var n2: nat;
    n2, t := SimBlock(g, g.p["main"].body, args, st, fuel, g.start["main"], t1);
    n := n1 + n2;
    RunTwo(s, n1, t1, n2, t);
    var r := MainResult(g.p, args, st, fuel);
    if r.Done? && r.v.Returned? {
      StaysTransitive(g, s, t1, t);
      BackAddress(s.cs, s.ip + START_LENGTH);
    }
  }

  lemma BackAddress(cs: seq<u64>, back: u32)
    ensures TopOf(cs + [back]) == back && Low32(back) == back && Popped(cs + [back], 1) == cs
  {
  }

  // ----- main results -----

  /** A text the compiler accepts, assembled and installed, does on the machine
      exactly what the text means. */
  lemma ProgramRuns(text: string, decls: seq<Decl>, a: nat, sym: Symbols, args: seq<u32>, st: Store, fuel: nat, s: State)
    requires Installed(text, decls, a, sym, s.mem, s.pages)
    requires CellsOk(EnvOf(text, decls, sym), |s.mem|, s.pages) && Holds(EnvOf(text, decls, sym), s.mem, st)
    requires MainFrame(Functions(decls), args, s.ds) && s.ip == sym(Start)
    requires RoomFor(s, MainResult(Functions(decls), args, st, fuel).use)
    ensures exists n: nat, t: State ::
              RunsProgram(EnvOf(text, decls, sym), MainResult(Functions(decls), args, st, fuel), s, n, t, fuel)
  {
    hide Resolves, BytesAt, Image, InText, FullCode, EmitLines, Split, Careful, ReadLines;
    hide RunsProgram, CellsOk, Holds, RoomFor, MainResult, Functions, Loaded, Ready, StartCode, InitCode, FrameOk;
    var g := EnvOf(text, decls, sym);
    InstalledIsReady(text, decls, a, sym, s.mem, s.pages, st);
    var n, t := SimProgram(g, args, st, fuel, s);
  }
}
