/** Compiled code does what the program means: expressions, calls, statements. */
module Correctness {
  import opened Words
  import opened Isa
  import opened Machine
  import opened Assembly
  import opened Tpp
  import opened Codegen
  import opened Chunks
  import opened Setting

  // ----- small runs -----

  lemma PushCallRun(s: State, sym: Symbols) returns (t: State)
    requires Loaded(s.mem, s.pages, s.ip, [Op(Reg(Pushar, 1))], sym) && |s.cs| < s.limit
    ensures s.ip + 2 < 0x1_0000_0000
    ensures Run(1, s) == Next(t) && t == s.(cs := s.cs + [s.regs[1]], ip := s.ip + 2)
  {
    hide Run, Loaded;
    var code := [Op(Reg(Pushar, 1))];
    var u := s.(cs := s.cs + [s.regs[1]]);
    assert ActLine(code[0], s, sym) == Ok(u);
    t := RunChunk(code, s, u, sym);
  }

  lemma PopCallRun(s: State, base: seq<u64>, v: u32, sym: Symbols) returns (t: State)
    requires Loaded(s.mem, s.pages, s.ip, [Op(Reg(Popar, 2))], sym) && s.cs == base + [v]
    ensures s.ip + 2 < 0x1_0000_0000
    ensures Run(1, s) == Next(t) && t == s.(cs := base, regs := s.regs[2 := v], ip := s.ip + 2)
  {
    hide Run, Loaded;
    var code := [Op(Reg(Popar, 2))];
    var u := s.(cs := base, regs := s.regs[2 := v]);
    assert Popped(s.cs, 1) == base;
    Low32Small(v);
    assert ActLine(code[0], s, sym) == Ok(u);
    t := RunChunk(code, s, u, sym);
  }

  lemma PushRun(s: State, sym: Symbols) returns (t: State)
    requires Loaded(s.mem, s.pages, s.ip, [PushReg(1)], sym) && |s.ds| < s.limit
    ensures s.ip + 2 < 0x1_0000_0000
    ensures Run(1, s) == Next(t) && t == s.(ds := s.ds + [s.regs[1]], ip := s.ip + 2)
  {
    hide Run, Loaded;
    var code := [PushReg(1)];
    var u := s.(ds := s.ds + [s.regs[1]]);
    assert ActLine(code[0], s, sym) == Ok(u);
    t := RunChunk(code, s, u, sym);
  }

  lemma LoadRun(s: State, v: u32, sym: Symbols) returns (t: State)
    requires Loaded(s.mem, s.pages, s.ip, [Load(1, v)], sym)
    ensures s.ip + 6 < 0x1_0000_0000
    ensures Run(1, s) == Next(t) && t == s.(regs := s.regs[1 := v], ip := s.ip + 6)
  {
    hide Run, Loaded;
    var code := [Load(1, v)];
    var u := s.(regs := s.regs[1 := v]);
    assert ActLine(code[0], s, sym) == Ok(u);
    t := RunChunk(code, s, u, sym);
  }

  /** Division by zero stops at the division itself, with the zero on top. */
  lemma DivisionTrap(op: BinOp, s: State, sym: Symbols) returns (n: nat, t: State)
    requires BinVal(op, s.regs[2], s.regs[1]) == None && |s.ds| + 2 <= s.limit
    requires Loaded(s.mem, s.pages, s.ip, OperatorCode(op), sym)
    ensures Run(n, s) == Next(t) && Cycle(t) == HandleException(t, ARITHMETIC)
  {
    hide Run, Loaded, Cycle, HandleException, Flow, Size, Placed;
    var pre, rest := [PushReg(2), PushReg(1)], [Do0(Alu(AluOf(op))), PopReg(1), DropN(2)];
    assert OperatorCode(op) == pre + rest;
    LoadedAppend(s.mem, s.pages, s.ip, pre, rest, sym);
    var s1 := FlowPush(pre, 0, s, 2, sym);
    var s2 := FlowPush(pre, 1, s1, 1, sym);
    FlowEnd(pre, s2, sym);
    t := RunChunk(pre, s, s2, sym);
    n := 2;
    AtDivision(op, t, rest, sym);
  }

  lemma AtDivision(op: BinOp, t: State, rest: seq<Asm>, sym: Symbols)
    requires op.Over? || op.Modulo?
    requires |t.ds| >= 2 && t.ds[|t.ds| - 1] == 0
    requires rest != [] && rest[0] == Do0(Alu(AluOf(op)))
    requires Loaded(t.mem, t.pages, t.ip, rest, sym)
    ensures Cycle(t) == HandleException(t, ARITHMETIC)
  {
    hide Placed, Cycle;
    FetchPlaced(t, rest[0], sym);
  }

  // ----- expressions -----

  ghost predicate PreExpr(g: Env, e: Expr, args: seq<u32>, st: Store, k: nat, d: nat, s: State) {
    && Ready(g, s.mem, s.pages, st) && FitsExpr(g, e) && SafeExpr(e, k, d) && FrameOk(s.ds, args, d)
    && Loaded(s.mem, s.pages, s.ip, ExprCode(e, |args|, k), g.sym)
  }

  function EndOf(e: Expr, n: nat, k: nat, s: State): nat {
    s.ip + Size(ExprCode(e, n, k))
  }

  function RightCode(e: Expr, n: nat, k: nat): seq<Asm>
    requires e.Binary?
  {
    [Op(Reg(Pushar, 1))] + (ExprCode(e.r, n, Counter(e.l, k)) + ([Op(Reg(Popar, 2))] + OperatorCode(e.op)))
  }

  /** What a binary expression comes to once its left operand gave `a`. */
  function RightResult(g: Env, e: Expr, args: seq<u32>, st: Store, fuel: nat, a: u32, left: Cost): Result<u32>
    requires e.Binary?
  {
    var b := After(Peak(left, Cost(0, 1)), Eval(g.p, e.r, args, st, fuel), 0, 1);
    if b.Done? then Combined(e.op, a, b) else b
  }

  function Combined(op: BinOp, a: u32, b: Result<u32>): Result<u32>
    requires b.Done?
  {
    var use := Peak(b.use, Cost(3, 0));
    var v := BinVal(op, a, b.v);
    if v.Some? then Done(v.value, b.st, use) else DividedByZero(use)
  }

  /** Both operands are known: `a` waits on the call stack, the other is in R1. */
  lemma SimCombine(g: Env, op: BinOp, a: u32, b: Result<u32>, s: State, m: nat, t: State, fuel: nat)
    returns (n: nat, u: State)
    requires b.Done? && Ready(g, t.mem, t.pages, b.st)
    requires Run(m, s) == Next(t) && Stays(g, s, t)
    requires t.ds == s.ds && t.cs == s.cs + [a] && t.regs[1] == b.v
    requires Loaded(t.mem, t.pages, t.ip, [Op(Reg(Popar, 2))] + OperatorCode(op), g.sym)
    requires Room(s, Combined(op, a, b).use)
    ensures Follows(g, Combined(op, a, b), s, t.ip + Size([Op(Reg(Popar, 2))] + OperatorCode(op)), n, u, fuel)
  {
    hide Run, Cycle, Loaded, Ready, HandleException, Untouched, BinVal, OperatorCode, Flow;
    var pop, tail := [Op(Reg(Popar, 2))], OperatorCode(op);
    SplitTwo(t.mem, t.pages, t.ip, pop, tail, g.sym);
    var t1 := PopCallRun(t, s.cs, a, g.sym);
    RunTwo(s, m, t, 1, t1);
    if BinVal(op, a, b.v).Some? {
      var t2 := OperatorFlow(op, t1, BinVal(op, a, b.v).value, g.sym);
      u := RunChunk(tail, t1, t2, g.sym);
      n := m + 1 + |tail|;
      RunTwo(s, m + 1, t1, |tail|, u);
    } else {
      var n2: nat;
      n2, u := DivisionTrap(op, t1, g.sym);
      n := m + 1 + n2;
      RunTwo(s, m + 1, t1, n2, u);
    }
  }

  /** Once the left operand is in R1: save it, evaluate the right one, combine. */
  lemma SimRight(g: Env, e: Expr, args: seq<u32>, st: Store, fuel: nat, k: nat, d: nat, s: State, left: Cost)
    returns (n: nat, t: State)
    requires e.Binary? && FitsExpr(g, e) && SafeExpr(e, k, d) && FrameOk(s.ds, args, d)
    requires Ready(g, s.mem, s.pages, st)
    requires Loaded(s.mem, s.pages, s.ip, RightCode(e, |args|, k), g.sym)
    requires Room(s, RightResult(g, e, args, st, fuel, s.regs[1], left).use)
    ensures Follows(g, RightResult(g, e, args, st, fuel, s.regs[1], left), s,
                    s.ip + Size(RightCode(e, |args|, k)), n, t, fuel)
    decreases fuel, e, 0
  {
    hide Run, Cycle, Loaded, Ready, HandleException, Untouched, FrameOk, BinVal, OperatorCode, Size, Eval, ExprCode, Counter;
    var a, m := s.regs[1], |args|;
    var push, right := [Op(Reg(Pushar, 1))], ExprCode(e.r, m, Counter(e.l, k));
    var last := [Op(Reg(Popar, 2))] + OperatorCode(e.op);
    SplitThree(s.mem, s.pages, s.ip, push, right, last, g.sym);
    OneSize(push[0]);
    var t1 := PushCallRun(s, g.sym);
    var n2, t2 := SimExpr(g, e.r, args, st, fuel, Counter(e.l, k), d, t1);
    RunTwo(s, 1, t1, n2, t2);
    var b := Eval(g.p, e.r, args, st, fuel);
    if b.Done? {
      LoadedLater(g, t1, st, t2, t2.ip, last);
      n, t := SimCombine(g, e.op, a, After(Peak(left, Cost(0, 1)), b, 0, 1), s, 1 + n2, t2, fuel);
    } else {
      n, t := 1 + n2, t2;
    }
  }

  lemma OneSize(x: Asm)
    ensures Size([x]) == Length(x)
  {
  }

  lemma SimBinary(g: Env, e: Expr, args: seq<u32>, st: Store, fuel: nat, k: nat, d: nat, s: State)
    returns (n: nat, t: State)
    requires e.Binary? && PreExpr(g, e, args, st, k, d, s)
    requires Room(s, Eval(g.p, e, args, st, fuel).use)
    ensures Follows(g, Eval(g.p, e, args, st, fuel), s, EndOf(e, |args|, k, s), n, t, fuel)
    decreases fuel, e, 1
  {
    hide Run, Cycle, Loaded, Ready, HandleException, FrameOk, BinVal, OperatorCode, Size, Fixed, Untouched;
    var left := ExprCode(e.l, |args|, k);
    SplitTwo(s.mem, s.pages, s.ip, left, RightCode(e, |args|, k), g.sym);
    var a := Eval(g.p, e.l, args, st, fuel);
    n, t := SimExpr(g, e.l, args, st, fuel, k, d, s);
    if a.Done? {
      LoadedLater(g, s, st, t, t.ip, RightCode(e, |args|, k));
      StaysLimit(g, s, t);
      var n2, t2 := SimRight(g, e, args, a.st, fuel, k, d, t, a.use);
      FollowsAfter(g, Eval(g.p, e, args, st, fuel), s, n, t, EndOf(e, |args|, k, s), n2, t2, fuel);
      n, t := n + n2, t2;
    }
  }

  lemma StaysLimit(g: Env, s: State, t: State)
    requires Stays(g, s, t)
    ensures t.limit == s.limit
  {
  }

  lemma UnaryRun(p: PlainOp, s: State, sym: Symbols) returns (t: State)
    requires p == Not || p == Neg
    requires Loaded(s.mem, s.pages, s.ip, UnaryTail(p), sym) && |s.ds| + 2 <= s.limit
    ensures s.ip + Size(UnaryTail(p)) < 0x1_0000_0000 && Run(4, s) == Next(t)
    ensures t == s.(ip := s.ip + Size(UnaryTail(p)),
                    regs := s.regs[1 := if p == Not then 0xFFFF_FFFF - s.regs[1] else Truth(s.regs[1] == 0)])
  {
    hide Run, Loaded, Flow, Size;
    var v: u64 := if p == Not then UNDERFLOW - s.regs[1] else Truth(s.regs[1] == 0);
    UnaryFlow(p, s, v, sym);
    NotWord(s.regs[1]);
    t := RunChunk(UnaryTail(p), s, s.(regs := s.regs[1 := Low32(v)]), sym);
  }

  lemma SimUnary(g: Env, e: Expr, args: seq<u32>, st: Store, fuel: nat, k: nat, d: nat, s: State)
    returns (n: nat, t: State)
    requires (e.NotOf? || e.NegOf?) && PreExpr(g, e, args, st, k, d, s)
    requires Room(s, Eval(g.p, e, args, st, fuel).use)
    ensures Follows(g, Eval(g.p, e, args, st, fuel), s, EndOf(e, |args|, k, s), n, t, fuel)
    decreases fuel, e, 1
  {
    hide Run, Cycle, Loaded, Ready, HandleException, FrameOk, Size, Untouched, UnaryTail;
    var p := if e.NotOf? then Not else Neg;
    SplitTwo(s.mem, s.pages, s.ip, ExprCode(e.e, |args|, k), UnaryTail(p), g.sym);
    n, t := SimExpr(g, e.e, args, st, fuel, k, d, s);
    if Eval(g.p, e.e, args, st, fuel).Done? {
      LoadedLater(g, s, st, t, t.ip, UnaryTail(p));
      var u := UnaryRun(p, t, g.sym);
      RunTwo(s, n, t, 4, u);
      n, t := n + 4, u;
    }
  }

  lemma NotWord(x: u32)
    ensures Low32(UNDERFLOW - x) == 0xFFFF_FFFF - x && Low32(Truth(x == 0)) == Truth(x == 0)
  {
  }

  lemma ArgumentInFrame(ds: seq<u64>, args: seq<u32>, d: nat, j: nat)
    requires FrameOk(ds, args, d) && 1 <= j <= |args|
    ensures |ds| >= |args| + d + 4 && ds[|ds| - (|args| + d + 4 - (j - 1))] == args[j - 1]
  {
    assert |ds| - (|args| + d + 4 - (j - 1)) == |ds| - d - 4 - |args| + (j - 1);
  }

  lemma SimArgument(g: Env, e: Expr, args: seq<u32>, st: Store, fuel: nat, k: nat, d: nat, s: State)
    returns (n: nat, t: State)
    requires e.Arg? && PreExpr(g, e, args, st, k, d, s)
    requires Room(s, Eval(g.p, e, args, st, fuel).use)
    ensures Follows(g, Eval(g.p, e, args, st, fuel), s, EndOf(e, |args|, k, s), n, t, fuel)
    decreases fuel, e, 1
  {
    hide Run, Cycle, Loaded, Ready, HandleException, Size, Untouched, Flow, ArgumentTail, FrameOk;
    var tail := ArgumentTail(|args|, d);
    SplitTwo(s.mem, s.pages, s.ip, ExprCode(e.e, |args|, k), tail, g.sym);
    n, t := SimExpr(g, e.e, args, st, fuel, k, d, s);
    var a := Eval(g.p, e.e, args, st, fuel);
    if a.Done? && 1 <= a.v <= |args| {
      LoadedLater(g, s, st, t, t.ip, tail);
      ArgumentInFrame(t.ds, args, d, a.v);
      StaysLimit(g, s, t);
      var t2 := ArgumentFlow(|args|, d, t, g.sym);
      Low32Small(args[a.v - 1]);
      var u := RunChunk(tail, t, t2, g.sym);
      RunTwo(s, n, t, |tail|, u);
      n, t := n + |tail|, u;
    }
  }

  lemma SimVariable(g: Env, e: Expr, args: seq<u32>, st: Store, fuel: nat, k: nat, d: nat, s: State)
    returns (n: nat, t: State)
    requires e.Var? && PreExpr(g, e, args, st, k, d, s)
    requires Room(s, Eval(g.p, e, args, st, fuel).use)
    ensures Follows(g, Eval(g.p, e, args, st, fuel), s, EndOf(e, |args|, k, s), n, t, fuel)
  {
    hide Run, Cycle, Loaded, CodeOk, HandleException, Size, Flow, Imm32, FrameOk;
    assert InCell(g, g.sym(Cell(e.x)));
    LoadVariableFlow(e.x, s, st[e.x], g.sym);
    t := RunChunk(LoadVariable(e.x), s, s.(regs := s.regs[1 := st[e.x]]), g.sym);
    n := |LoadVariable(e.x)|;
  }

  lemma SimConstant(g: Env, e: Expr, args: seq<u32>, st: Store, fuel: nat, k: nat, d: nat, s: State)
    returns (n: nat, t: State)
    requires (e.Zero? || e.Num?) && PreExpr(g, e, args, st, k, d, s)
    ensures Follows(g, Eval(g.p, e, args, st, fuel), s, EndOf(e, |args|, k, s), n, t, fuel)
  {
    hide Run, Cycle, Loaded, Ready, HandleException, FrameOk;
    var v := if e.Zero? then 0 else e.n;
    OneSize(Load(1, v));
    t := LoadRun(s, v, g.sym);
    StaysSame(g, s);
    n := 1;
  }

  /** Code compiled from an expression follows the expression's meaning. */
  lemma SimExpr(g: Env, e: Expr, args: seq<u32>, st: Store, fuel: nat, k: nat, d: nat, s: State)
    returns (n: nat, t: State)
    requires PreExpr(g, e, args, st, k, d, s)
    requires Room(s, Eval(g.p, e, args, st, fuel).use)
    ensures Follows(g, Eval(g.p, e, args, st, fuel), s, EndOf(e, |args|, k, s), n, t, fuel)
    decreases fuel, e, 2
  {
    hide Run, Cycle, Loaded, Ready, HandleException, FrameOk, Size, Follows;
    match e
    case Zero => n, t := SimConstant(g, e, args, st, fuel, k, d, s);
    case Num(_) => n, t := SimConstant(g, e, args, st, fuel, k, d, s);
    case Var(_) => n, t := SimVariable(g, e, args, st, fuel, k, d, s);
    case Group(h) => n, t := SimExpr(g, h, args, st, fuel, k, d, s);
    case Binary(_, _, _) => n, t := SimBinary(g, e, args, st, fuel, k, d, s);
    case NotOf(_) => n, t := SimUnary(g, e, args, st, fuel, k, d, s);
    case NegOf(_) => n, t := SimUnary(g, e, args, st, fuel, k, d, s);
    case Arg(_) => n, t := SimArgument(g, e, args, st, fuel, k, d, s);
    case Invoke(f, es) => n, t := SimCall(g, f, es, args, st, fuel, d, s);
  }

  // ----- calls -----

  ghost predicate FollowsArgs(g: Env, r: Result<seq<u32>>, s: State, end: nat, n: nat, t: State, fuel: nat) {
    && Run(n, s) == Next(t)
    && match r
       case Done(vs, st, _) =>
         && t.ip == end && t.ds == s.ds + vs && t.cs == s.cs
         && Stays(g, s, t) && Ready(g, t.mem, t.pages, st)
       case DividedByZero(_) => Cycle(t) == HandleException(t, ARITHMETIC)
       case OutOfFuel(_) => n >= fuel
       case Wrong(_) => true
  }

  /** Arguments are left on the data stack in order. */
  lemma SimArgs(g: Env, es: seq<Expr>, args: seq<u32>, st: Store, fuel: nat, k: nat, d: nat, s: State)
    returns (n: nat, t: State)
    requires Ready(g, s.mem, s.pages, st) && FitsArgs(g, es) && SafeArgs(es, k, d) && FrameOk(s.ds, args, d)
    requires Loaded(s.mem, s.pages, s.ip, ArgsCode(es, |args|, k), g.sym)
    requires Room(s, EvalArgs(g.p, es, args, st, fuel).use)
    ensures FollowsArgs(g, EvalArgs(g.p, es, args, st, fuel), s,
                        s.ip + Size(ArgsCode(es, |args|, k)), n, t, fuel)
    decreases fuel, es, 0
  {
    hide Run, Cycle, Loaded, Ready, HandleException, Untouched, FrameOk, Fixed, SafeExpr, FitsExpr, ExprCode, Size;
    if es == [] {
      n, t := 0, s;
      RunNone(s);
      StaysSame(g, s);
      NoSize();
    } else {
      var first, push := ExprCode(es[0], |args|, k), [PushReg(1)];
      var rest := ArgsCode(es[1..], |args|, Counter(es[0], k) + 1);
      SplitThree(s.mem, s.pages, s.ip, first, push, rest, g.sym);
      OneSize(push[0]);
      n, t := SimExpr(g, es[0], args, st, fuel, k, d, s);
      if Eval(g.p, es[0], args, st, fuel).Done? {
        LoadedLater(g, s, st, t, t.ip, push);
        LoadedLater(g, s, st, t, t.ip + 2, rest);
        n, t := SimMoreArgs(g, es, args, Eval(g.p, es[0], args, st, fuel), fuel, k, d, s, n, t);
      }
    }
  }

  function MoreArgs(g: Env, es: seq<Expr>, args: seq<u32>, a: Result<u32>, fuel: nat): Result<seq<u32>>
    requires es != [] && a.Done?
  {
    var b := After(Peak(a.use, Cost(1, 0)), EvalArgs(g.p, es[1..], args, a.st, fuel), 1, 0);
    if !b.Done? then b else Done([a.v] + b.v, b.st, b.use)
  }

  /** The first argument is in R1: push it and go on with the others. */
  lemma SimMoreArgs(g: Env, es: seq<Expr>, args: seq<u32>, a: Result<u32>, fuel: nat, k: nat, d: nat,
                    s: State, m: nat, t: State)
    returns (n: nat, u: State)
    requires es != [] && a.Done? && FitsArgs(g, es) && SafeArgs(es, k, d) && FrameOk(s.ds, args, d)
    requires Run(m, s) == Next(t) && Stays(g, s, t) && t.ds == s.ds && t.cs == s.cs && t.regs[1] == a.v
    requires Ready(g, t.mem, t.pages, a.st)
    requires Loaded(t.mem, t.pages, t.ip, [PushReg(1)], g.sym)
    requires Loaded(t.mem, t.pages, t.ip + 2, ArgsCode(es[1..], |args|, Counter(es[0], k) + 1), g.sym)
    requires Room(s, MoreArgs(g, es, args, a, fuel).use)
    ensures FollowsArgs(g, MoreArgs(g, es, args, a, fuel), s,
                        t.ip + 2 + Size(ArgsCode(es[1..], |args|, Counter(es[0], k) + 1)), n, u, fuel)
    decreases fuel, es[1..], 1
  {
    hide Run, Cycle, Loaded, Ready, HandleException, Untouched, FrameOk, Fixed, SafeExpr, FitsExpr, Size;
    hide EvalArgs, ArgsCode, Counter;
    StaysLimit(g, s, t);
    var t1 := PushRun(t, g.sym);
    RunTwo(s, m, t, 1, t1);
    PushKept(g, s, t, t1);
    StaysLimit(g, s, t1);
    FramePushed(s.ds, args, d, a.v);
    var n2: nat;
    n2, u := SimArgs(g, es[1..], args, a.st, fuel, Counter(es[0], k) + 1, d + 1, t1);
    n := m + 1 + n2;
    RunTwo(s, m + 1, t1, n2, u);
    var b := EvalArgs(g.p, es[1..], args, a.st, fuel);
    if b.Done? {
      StaysTransitive(g, s, t1, u);
      assert u.ds == s.ds + ([a.v] + b.v);
    }
  }

  lemma StaysSame(g: Env, s: State)
    ensures Stays(g, s, s)
  {
  }

  /** Stacks and instruction pointer are not part of what must stay. */
  lemma PushKept(g: Env, s: State, t: State, u: State)
    requires Stays(g, s, t) && u.mem == t.mem && u.regs == t.regs && u.pages == t.pages
    requires u.limit == t.limit && u.handlers == t.handlers && u.faulted == t.faulted
    ensures Stays(g, s, u)
  {
  }

  lemma EnterRun(s: State, f: string, sym: Symbols) returns (t: State)
    requires Loaded(s.mem, s.pages, s.ip, [CallTo(Entry(f))], sym) && |s.cs| < s.limit
    ensures s.ip + 5 <= |s.mem|
    ensures Run(1, s) == Next(t) && t == s.(cs := s.cs + [s.ip + 5], ip := sym(Entry(f)))
  {
    hide Placed, Cycle, Run;
    FetchPlaced(s, CallTo(Entry(f)), sym);
    t := s.(cs := s.cs + [s.ip + 5], ip := sym(Entry(f)));
    Low32Small(s.ip + 5);
    RunOne(s, t);
  }

  /** Where a block of statements leaves the machine: at its end, or back in
      the caller with the returned value in R7. */
  ghost predicate FollowsBlock(g: Env, r: Result<Signal>, s: State, end: nat, n: nat, t: State, fuel: nat) {
    && Run(n, s) == Next(t)
    && match r
       case Done(v, st, _) =>
         && t.ds == s.ds && Stays(g, s, t) && Ready(g, t.mem, t.pages, st)
         && (if v.FellThrough? then t.ip == end && t.cs == s.cs
             else t.ip == Low32(TopOf(s.cs)) && t.cs == Popped(s.cs, 1) && t.regs[7] == v.v)
       case DividedByZero(_) => Cycle(t) == HandleException(t, ARITHMETIC)
       case OutOfFuel(_) => n >= fuel
       case Wrong(_) => true
  }

  lemma FrameOfCall(base: seq<u64>, vs: seq<u32>, saved: seq<u32>)
    requires |saved| == 4
    ensures FrameOk(base + vs + saved, vs, 0)
  {
  }

  function InvokeCode(f: string, n: nat): seq<Asm> {
    SaveUtility() + ([CallTo(Entry(f))] + AfterCall(n))
  }

  /** What a call comes to once its arguments `vs` are known. */
  function InvokeResult(g: Env, f: string, vs: seq<u32>, st: Store, fuel: nat, args: Cost): Result<u32>
    requires f in g.p
  {
    if fuel == 0 then OutOfFuel(args) else Delivered(BodyResult(g, f, vs, st, fuel, args))
  }

  function BodyResult(g: Env, f: string, vs: seq<u32>, st: Store, fuel: nat, args: Cost): Result<Signal>
    requires f in g.p && fuel > 0
  {
    After(Peak(args, Cost(|vs| + 4, EntryCalls(f))), ExecBlock(g.p, g.p[f].body, vs, st, fuel - 1), |vs| + 4, 1)
  }

  function Delivered(b: Result<Signal>): Result<u32> {
    if !b.Done? then Failed(b)
    else if b.v.FellThrough? then Wrong(b.use)
    else Done(b.v.v, b.st, b.use)
  }

  /** Save the utility registers and enter the function: its first line is
      reached with the frame set up and the return address on the call stack. */
  lemma EnterFunction(g: Env, f: string, vs: seq<u32>, st: Store, base: seq<u64>, s: State)
    returns (n: nat, t: State)
    requires f in g.p && Ready(g, s.mem, s.pages, st) && s.ds == base + vs
    requires Loaded(s.mem, s.pages, s.ip, InvokeCode(f, |vs|), g.sym)
    requires |s.ds| + 4 <= s.limit && |s.cs| < s.limit
    ensures n >= 1 && Run(n, s) == Next(t) && Stays(g, s, t) && t.mem == s.mem && t.pages == s.pages
    ensures s.ip + Size(SaveUtility()) + 5 < 0x1_0000_0000
    ensures t.cs == s.cs + [s.ip + Size(SaveUtility()) + 5] && t.ip == g.sym(Entry(f))
    ensures t.ds == base + vs + [s.regs[4], s.regs[5], s.regs[9], s.regs[10]]
  {
    hide Run, Cycle, Loaded, Ready, Flow, Size, Untouched;
    var save, enter := SaveUtility(), [CallTo(Entry(f))];
    SplitThree(s.mem, s.pages, s.ip, save, enter, AfterCall(|vs|), g.sym);
    SaveUtilityFlow(s, g.sym);
    var t1 := RunChunk(save, s, s.(ds := s.ds + [s.regs[4], s.regs[5], s.regs[9], s.regs[10]]), g.sym);
    t := EnterRun(t1, f, g.sym);
    RunTwo(s, |save|, t1, 1, t);
    n := |save| + 1;
    StaysSame(g, s);
    PushKept(g, s, s, t);
  }

  lemma CallNearRun(s: State, l: Symbol, sym: Symbols) returns (t: State)
    requires Loaded(s.mem, s.pages, s.ip, [CallNear(l)], sym) && |s.cs| < s.limit
    ensures s.ip + 5 < 0x1_0000_0000 && Size([CallNear(l)]) == 5
    ensures Run(1, s) == Next(t) && t == s.(cs := s.cs + [s.ip + 5], ip := sym(l))
  {
    hide Placed, Cycle, Run, Low32;
    FetchPlaced(s, CallNear(l), sym);
    WrapTarget(s.ip, sym(l));
    Low32Small(s.ip + 5);
    t := s.(cs := s.cs + [s.ip + 5], ip := sym(l));
    RunOne(s, t);
  }

  lemma ReturnsAtOnce(s: State, base: seq<u64>, back: u32, sym: Symbols)
    requires Loaded(s.mem, s.pages, s.ip, [Do0(Ret)], sym) && s.cs == base + [back]
    ensures Run(1, s) == Next(s.(cs := base, ip := back))
  {
    hide Placed, Cycle, Run;
    FetchPlaced(s, Do0(Ret), sym);
    assert Popped(s.cs, 1) == base;
    Low32Small(back);
    RunOne(s, s.(cs := base, ip := back));
  }

  /** The initialisation call at the top of `main` changes nothing. */
  lemma InitRuns(s: State, sym: Symbols) returns (t: State)
    requires Loaded(s.mem, s.pages, s.ip, [CallNear(Init)], sym) && |s.cs| < s.limit
    requires Loaded(s.mem, s.pages, sym(Init), InitCode(), sym)
    ensures s.ip + 5 < 0x1_0000_0000
    ensures Run(2, s) == Next(t) && t == s.(ip := s.ip + 5)
  {
    hide Run, Loaded;
    SplitTwo(s.mem, s.pages, sym(Init), [Label(Init)], [Do0(Ret)], sym);
    OneSize(Label(Init));
    var t1 := CallNearRun(s, Init, sym);
    ReturnsAtOnce(t1, s.cs, s.ip + 5, sym);
    t := s.(ip := s.ip + 5);
    RunTwo(s, 1, t1, 1, t);
  }

  /** The call proper. `s0` is the state before the arguments were pushed. */
  lemma SimInvoke(g: Env, f: string, es: seq<Expr>, vs: seq<u32>, st: Store, fuel: nat, args: Cost,
                  s0: State, m: nat, s: State)
    returns (n: nat, t: State)
    requires f in g.p && Ready(g, s.mem, s.pages, st)
    requires Run(m, s0) == Next(s) && Stays(g, s0, s) && s.ds == s0.ds + vs && s.cs == s0.cs
    requires Loaded(s.mem, s.pages, s.ip, InvokeCode(f, |vs|), g.sym)
    requires Room(s0, InvokeResult(g, f, vs, st, fuel, args).use)
    requires g.p[f].arity == |vs|
    ensures Follows(g, InvokeResult(g, f, vs, st, fuel, args), s0, s.ip + Size(InvokeCode(f, |vs|)), n, t, fuel)
    decreases fuel, es, 0
  {
    hide Run, Cycle, Loaded, Ready, HandleException, Size, Untouched, Fixed, FrameOk, TopOf, Popped;
    if fuel == 0 {
      return m, s;
    }
    StaysLimit(g, s0, s);
    var n1, t1 := EnterFunction(g, f, vs, st, s0.ds, s);
    RunTwo(s0, m, s, n1, t1);
    var saved := [s.regs[4], s.regs[5], s.regs[9], s.regs[10]];
    FrameOfCall(s0.ds, vs, saved);
    StaysLimit(g, s, t1);
    var n0, t0 := EnterBody(g, f, st, t1);
    RunTwo(s0, m + n1, t1, n0, t0);
    PushKept(g, s, t1, t0);
    n1, t1 := n1 + n0, t0;
    StaysLimit(g, s, t1);
    var n2, t2 := SimBlock(g, g.p[f].body, vs, st, fuel - 1, g.start[f], t1);
    RunTwo(s0, m + n1, t1, n2, t2);
    n, t := m + n1 + n2, t2;
    var b := BodyResult(g, f, vs, st, fuel, args);
    if b.Done? && b.v.Returned? {
      StaysTransitive(g, s0, s, t1);
      StaysTransitive(g, s0, t1, t2);
      StaysTransitive(g, s, t1, t2);
      n, t := LeaveFunction(g, f, vs, st, b.st, saved, b.v.v, s0, s, m + n1 + n2, t1, t2);
    }
  }

  /** From a function's name to the first line of its body. */
  lemma EnterBody(g: Env, f: string, st: Store, s: State) returns (n: nat, t: State)
    requires f in g.p && Ready(g, s.mem, s.pages, st) && s.ip == g.sym(Entry(f))
    requires f == "main" ==> |s.cs| < s.limit
    ensures f in g.start && FitsBlock(g, g.p[f].body)
    ensures Run(n, s) == Next(t) && t == s.(ip := t.ip)
    ensures Loaded(t.mem, t.pages, t.ip, BlockCode(g.p[f].body, g.p[f].arity, g.start[f]), g.sym)
  {
    hide Run, Loaded, Holds, CellsOk, BlockCode, FitsBlock, Size;
    var d, mark := g.p[f], [Label(Entry(f))];
    var body := BlockCode(d.body, d.arity, g.start[f]);
    OneSize(mark[0]);
    if f == "main" {
      SplitThree(s.mem, s.pages, s.ip, mark, [CallNear(Init)], body, g.sym);
      OneSize(CallNear(Init));
      t := InitRuns(s, g.sym);
      n := 2;
    } else {
      assert [] + body == body;
      SplitTwo(s.mem, s.pages, s.ip, mark, body, g.sym);
      n, t := 0, s;
      RunNone(s);
    }
  }

  lemma RunNone(s: State)
    ensures Run(0, s) == Next(s)
  {
  }

  /** Back from the function: utility registers and stacks as before the call. */
  lemma LeaveFunction(g: Env, f: string, vs: seq<u32>, st: Store, st2: Store, saved: seq<u32>, v: u32,
                      s0: State, s: State, m: nat, t1: State, t2: State)
    returns (n: nat, t: State)
    requires |saved| == 4 && saved == [s.regs[4], s.regs[5], s.regs[9], s.regs[10]]
    requires Ready(g, s.mem, s.pages, st) && Ready(g, t2.mem, t2.pages, st2)
    requires Run(m, s0) == Next(t2) && Stays(g, s0, s) && Stays(g, s0, t2) && Stays(g, s, t2)
    requires Loaded(s.mem, s.pages, s.ip, InvokeCode(f, |vs|), g.sym)
    requires s.ip + Size(SaveUtility()) + 5 < 0x1_0000_0000
    requires t1.cs == s0.cs + [s.ip + Size(SaveUtility()) + 5]
    requires t2.cs == Popped(t1.cs, 1) && t2.ip == Low32(TopOf(t1.cs)) && t2.regs[7] == v
    requires t2.ds == s0.ds + vs + saved && |s0.ds| + |vs| + 4 <= s0.limit
    ensures Run(n, s0) == Next(t) && t.ip == s.ip + Size(InvokeCode(f, |vs|)) && t.regs[1] == v
    ensures t.ds == s0.ds && t.cs == s0.cs && Stays(g, s0, t) && Ready(g, t.mem, t.pages, st2)
  {
    hide Run, Loaded, Ready, Flow, Size, Untouched;
    var enter, after := [CallTo(Entry(f))], AfterCall(|vs|);
    SplitThree(s.mem, s.pages, s.ip, SaveUtility(), enter, after, g.sym);
    OneSize(enter[0]);
    PopPush(s0.cs, s.ip + Size(SaveUtility()) + 5);
    Low32Small(s.ip + Size(SaveUtility()) + 5);
    LoadedLater(g, s, st, t2, t2.ip, after);
    var u := AfterCallFlow(t2, s0.ds, |vs|, saved, g.sym);
    t := RunChunk(after, t2, u, g.sym);
    n := m + |after|;
    RunTwo(s0, m, t2, |after|, t);
  }

  lemma SimCall(g: Env, f: string, es: seq<Expr>, args: seq<u32>, st: Store, fuel: nat, d: nat, s: State)
    returns (n: nat, t: State)
    requires Ready(g, s.mem, s.pages, st) && FitsCall(g, f, es) && SafeArgs(es, 0, d) && FrameOk(s.ds, args, d)
    requires Loaded(s.mem, s.pages, s.ip, CallCode(f, es, |args|), g.sym)
    requires Room(s, EvalCall(g.p, f, es, args, st, fuel).use)
    ensures Follows(g, EvalCall(g.p, f, es, args, st, fuel), s, s.ip + Size(CallCode(f, es, |args|)), n, t, fuel)
    decreases fuel, es, 1
  {
    hide Run, Cycle, Loaded, Ready, HandleException, Size, Stays, FrameOk;
    hide EvalArgs, FitsArgs, SafeArgs, ArgsCode, SaveUtility, AfterCall;
    SplitTwo(s.mem, s.pages, s.ip, ArgsCode(es, |args|, 0), InvokeCode(f, |es|), g.sym);
    var a := EvalArgs(g.p, es, args, st, fuel);
    n, t := SimArgs(g, es, args, st, fuel, 0, d, s);
    if a.Done? {
      LoadedLater(g, s, st, t, t.ip, InvokeCode(f, |es|));
      assert EvalCall(g.p, f, es, args, st, fuel) == InvokeResult(g, f, a.v, a.st, fuel, a.use);
      n, t := SimInvoke(g, f, es, a.v, a.st, fuel, a.use, s, n, t);
    }
  }

  // ----- statements -----

  lemma NoSize()
    ensures Size([]) == 0
  {
  }

  ghost predicate PreStmt(g: Env, x: Stmt, args: seq<u32>, st: Store, w: nat, s: State) {
    && Ready(g, s.mem, s.pages, st) && FitsStmt(g, x) && FrameOk(s.ds, args, 0)
    && Loaded(s.mem, s.pages, s.ip, StmtCode(x, |args|, w), g.sym)
  }

  function EndOfStmt(x: Stmt, n: nat, w: nat, s: State): nat {
    s.ip + Size(StmtCode(x, n, w))
  }

  /** A result that first went calmly from `s` to `t`. */
  lemma BlockAfter(g: Env, r: Result<Signal>, c: Cost, s: State, m: nat, t: State, end: nat, n: nat, u: State, fuel: nat)
    requires Run(m, s) == Next(t) && Stays(g, s, t) && t.ds == s.ds && t.cs == s.cs
    requires FollowsBlock(g, r, t, end, n, u, fuel)
    ensures FollowsBlock(g, After(c, r, 0, 0), s, end, m + n, u, fuel)
  {
    hide Run, Cycle, HandleException, Ready, TopOf, Popped, Stays;
    RunTwo(s, m, t, n, u);
    if r.Done? {
      StaysTransitive(g, s, t, u);
    }
  }

  lemma CellWritten(m: Memory, a: nat, v: u32, b: nat)
    requires a + 4 <= |m| && b + 4 <= |m|
    ensures Imm32(WriteLe(m, a, Dword, v), a) == v
    ensures b + 4 <= a || a + 4 <= b ==> Imm32(WriteLe(m, a, Dword, v), b) == Imm32(m, b)
  {
    var m' := WriteLe(m, a, Dword, v);
    assert m'[a..a + 4] == Le32(v);
    Le32RoundTrip(v);
    if b + 4 <= a || a + 4 <= b {
      assert m'[b..b + 4] == m[b..b + 4];
    }
  }

  lemma OnlyCellWritten(g: Env, m: Memory, x: string, v: u32)
    requires x in g.dom && g.sym(Cell(x)) + 4 <= |m|
    ensures Untouched(g, m, WriteLe(m, g.sym(Cell(x)), Dword, v))
  {
    var a := g.sym(Cell(x));
    forall i | 0 <= i < |m| && !InCell(g, i)
      ensures m[i] == WriteLe(m, a, Dword, v)[i]
    {
      assert !(a <= i < a + 4);
    }
  }

  /** Storing into a variable's cell changes that variable and nothing else. */
  lemma StoreCell(g: Env, m: Memory, pages: seq<Page>, st: Store, x: string, v: u32)
    requires Ready(g, m, pages, st) && x in g.dom
    ensures g.sym(Cell(x)) + 4 <= |m| && PageAt(pages, g.sym(Cell(x))) == ReadWrite
    ensures var m' := WriteLe(m, g.sym(Cell(x)), Dword, v);
            Ready(g, m', pages, st[x := v]) && Untouched(g, m, m')
  {
    hide CodeOk, Untouched, WriteLe, FitsProgram, Imm32;
    var a := g.sym(Cell(x));
    assert InCell(g, a);
    var m' := WriteLe(m, a, Dword, v);
    OnlyCellWritten(g, m, x, v);
    CodeKept(g, m, m', pages);
    forall y | y in g.dom
      ensures Imm32(m', g.sym(Cell(y))) == st[x := v][y]
    {
      CellWritten(m, a, v, g.sym(Cell(y)));
    }
  }

  lemma StoreRun(g: Env, s: State, st: Store, x: string) returns (t: State)
    requires Ready(g, s.mem, s.pages, st) && x in g.dom
    requires Loaded(s.mem, s.pages, s.ip, [LoadAddress(0, Cell(x))] + [Do0(Stos(Dword))], g.sym)
    ensures s.ip + 7 < 0x1_0000_0000 && Run(2, s) == Next(t)
    ensures t.ip == s.ip + 7 && t.ds == s.ds && t.cs == s.cs && Stays(g, s, t)
    ensures Ready(g, t.mem, t.pages, st[x := s.regs[1]])
  {
    hide Run, Cycle, Ready, Untouched, WriteLe, Placed;
    var load, store := [LoadAddress(0, Cell(x))], [Do0(Stos(Dword))];
    SplitTwo(s.mem, s.pages, s.ip, load, store, g.sym);
    OneSize(load[0]);
    OneSize(store[0]);
    var s1 := FlowLoad(load, 0, s, 0, g.sym(Cell(x)), g.sym);
    FlowEnd(load, s1, g.sym);
    var s2 := RunChunk(load, s, s1, g.sym);
    StoreCell(g, s.mem, s.pages, st, x, s.regs[1]);
    t := StoreWord(s2, g.sym);
    RunTwo(s, 1, s2, 1, t);
  }

  lemma StoreWord(s: State, sym: Symbols) returns (t: State)
    requires Placed(s.mem, s.pages, s.ip, Do0(Stos(Dword)), sym)
    requires PageAt(s.pages, s.regs[0]) == ReadWrite && s.regs[0] + 4 <= |s.mem|
    ensures s.ip + 1 < 0x1_0000_0000 && Run(1, s) == Next(t)
    ensures t == s.(mem := WriteLe(s.mem, s.regs[0], Dword, s.regs[1]), ip := s.ip + 1)
  {
    hide Cycle, Run, WriteLe, Placed;
    FetchPlaced(s, Do0(Stos(Dword)), sym);
    t := s.(mem := WriteLe(s.mem, s.regs[0], Dword, s.regs[1]), ip := s.ip + 1);
    Low32Small(s.ip + 1);
    RunOne(s, t);
  }

  lemma SimLet(g: Env, x: Stmt, args: seq<u32>, st: Store, fuel: nat, w: nat, s: State)
    returns (n: nat, t: State)
    requires x.Let? && PreStmt(g, x, args, st, w, s)
    requires Room(s, Exec(g.p, x, args, st, fuel).use)
    ensures FollowsBlock(g, Exec(g.p, x, args, st, fuel), s, EndOfStmt(x, |args|, w, s), n, t, fuel)
    decreases fuel, x, 0
  {
    hide Run, Cycle, Loaded, Ready, HandleException, Size, Stays, FrameOk;
    var store := [LoadAddress(0, Cell(x.x))] + [Do0(Stos(Dword))];
    SplitTwo(s.mem, s.pages, s.ip, ExprCode(x.e, |args|, 0), store, g.sym);
    StoreSize(store);
    n, t := SimExpr(g, x.e, args, st, fuel, 0, 0, s);
    var a := Eval(g.p, x.e, args, st, fuel);
    if a.Done? {
      LoadedLater(g, s, st, t, t.ip, store);
      var u := StoreRun(g, t, a.st, x.x);
      RunTwo(s, n, t, 2, u);
      StaysTransitive(g, s, t, u);
      n, t := n + 2, u;
    }
  }

  lemma StoreSize(code: seq<Asm>)
    requires |code| == 2 && code[0].LoadAddress? && code[1] == Do0(Stos(Dword))
    ensures Size(code) == 7
  {
    assert code == [code[0]] + [code[1]];
    SizeAppend([code[0]], [code[1]]);
    OneSize(code[0]);
    OneSize(code[1]);
  }

  lemma ReturnRun(s: State, sym: Symbols) returns (n: nat, t: State)
    requires Loaded(s.mem, s.pages, s.ip, Move(7, 1) + [Do0(Ret)], sym) && |s.ds| < s.limit
    ensures Run(n, s) == Next(t)
    ensures t == s.(regs := s.regs[7 := s.regs[1]], cs := Popped(s.cs, 1), ip := Low32(TopOf(s.cs)))
  {
    hide Run, Cycle, Placed, Popped, TopOf;
    var move, ret := Move(7, 1), [Do0(Ret)];
    SplitTwo(s.mem, s.pages, s.ip, move, ret, sym);
    var s1 := FlowMove(move, 0, s, 7, 1, sym);
    FlowEnd(move, s1, sym);
    var s2 := RunChunk(move, s, s1, sym);
    t := s2.(cs := Popped(s.cs, 1), ip := Low32(TopOf(s.cs)));
    FetchPlaced(s2, ret[0], sym);
    RunOne(s2, t);
    RunTwo(s, 2, s2, 1, t);
    n := 3;
  }

  lemma SimReturn(g: Env, x: Stmt, args: seq<u32>, st: Store, fuel: nat, w: nat, s: State)
    returns (n: nat, t: State)
    requires x.Return? && PreStmt(g, x, args, st, w, s)
    requires Room(s, Exec(g.p, x, args, st, fuel).use)
    ensures FollowsBlock(g, Exec(g.p, x, args, st, fuel), s, EndOfStmt(x, |args|, w, s), n, t, fuel)
    decreases fuel, x, 0
  {
    hide Run, Cycle, Loaded, Ready, HandleException, Size, Untouched, FrameOk, TopOf, Popped;
    var tail := Move(7, 1) + [Do0(Ret)];
    SplitTwo(s.mem, s.pages, s.ip, ExprCode(x.e, |args|, 0), tail, g.sym);
    n, t := SimExpr(g, x.e, args, st, fuel, 0, 0, s);
    if Eval(g.p, x.e, args, st, fuel).Done? {
      LoadedLater(g, s, st, t, t.ip, tail);
      var n2, u := ReturnRun(t, g.sym);
      RunTwo(s, n, t, n2, u);
      n, t := n + n2, u;
    }
  }

  lemma SimDo(g: Env, x: Stmt, args: seq<u32>, st: Store, fuel: nat, w: nat, s: State)
    returns (n: nat, t: State)
    requires x.Do? && PreStmt(g, x, args, st, w, s)
    requires Room(s, Exec(g.p, x, args, st, fuel).use)
    ensures FollowsBlock(g, Exec(g.p, x, args, st, fuel), s, EndOfStmt(x, |args|, w, s), n, t, fuel)
    decreases fuel, x, 0
  {
    hide Run, Cycle, Loaded, Ready, HandleException, Size, Stays, FrameOk;
    n, t := SimCall(g, x.f, x.args, args, st, fuel, 0, s);
  }

  /** Where a condition leaves the machine: its value compared with zero. */
  ghost predicate FollowsTest(g: Env, r: Result<u32>, s: State, end: nat, n: nat, t: State, fuel: nat) {
    Follows(g, r, s, end, n, t, fuel) && (r.Done? ==> t.flags.eq == (r.v == 0))
  }

  lemma SimTest(g: Env, c: Expr, args: seq<u32>, st: Store, fuel: nat, s: State)
    returns (n: nat, t: State)
    requires Ready(g, s.mem, s.pages, st) && Whole(g, c) && FrameOk(s.ds, args, 0)
    requires Loaded(s.mem, s.pages, s.ip, ExprCode(c, |args|, 0), g.sym)
    requires Loaded(s.mem, s.pages, s.ip + Size(ExprCode(c, |args|, 0)), CompareZero(), g.sym)
    requires Room(s, Test(g.p, c, args, st, fuel).use)
    ensures FollowsTest(g, Test(g.p, c, args, st, fuel), s,
                        s.ip + Size(ExprCode(c, |args|, 0)) + Size(CompareZero()), n, t, fuel)
    decreases fuel, c, 3
  {
    hide Run, Cycle, Loaded, Ready, HandleException, Size, Untouched, FrameOk, Eval, CompareZero, ExprCode;
    n, t := SimExpr(g, c, args, st, fuel, 0, 0, s);
    var a := Eval(g.p, c, args, st, fuel);
    if a.Done? {
      LoadedLater(g, s, st, t, t.ip, CompareZero());
      StaysLimit(g, s, t);
      var u := CompareZeroRun(t, g.sym);
      RunTwo(s, n, t, |CompareZero()|, u);
      n, t := n + |CompareZero()|, u;
    }
  }

  lemma CompareZeroRun(s: State, sym: Symbols) returns (t: State)
    requires Loaded(s.mem, s.pages, s.ip, CompareZero(), sym) && |s.ds| + 2 <= s.limit
    ensures s.ip + Size(CompareZero()) < 0x1_0000_0000 && Run(|CompareZero()|, s) == Next(t)
    ensures t == s.(flags := t.flags, ip := s.ip + Size(CompareZero())) && t.flags.eq == (s.regs[1] == 0)
  {
    hide Run, Loaded, Flow, Size;
    CompareZeroFlow(s, sym);
    t := RunChunk(CompareZero(), s, s.(flags := Compare(s.regs[1], 0)), sym);
  }

  lemma LabelAddress(m: seq<byte>, pages: seq<Page>, a: nat, l: Symbol, sym: Symbols)
    requires Loaded(m, pages, a, [Label(l)], sym)
    ensures sym(l) == a && Size([Label(l)]) == 0
  {
  }

  lemma JumpIfEqualRun(s: State, l: Symbol, sym: Symbols) returns (t: State)
    requires Loaded(s.mem, s.pages, s.ip, [JumpIfEqual(l)], sym)
    ensures s.ip + 5 < 0x1_0000_0000 && Size([JumpIfEqual(l)]) == 5
    ensures Run(1, s) == Next(t) && t == s.(ip := if s.flags.eq then sym(l) else s.ip + 5)
  {
    hide Placed, Cycle, Run;
    FetchPlaced(s, JumpIfEqual(l), sym);
    Low32Small(s.ip + 5);
    t := s.(ip := if s.flags.eq then sym(l) else s.ip + 5);
    RunOne(s, t);
  }

  lemma WrapTarget(a: u32, target: u32)
    ensures Low32(a + Low32(target - a)) == target
  {
  }

  lemma JumpIfEqualNearRun(s: State, l: Symbol, sym: Symbols) returns (t: State)
    requires Loaded(s.mem, s.pages, s.ip, [JumpIfEqualNear(l)], sym)
    ensures s.ip + 5 < 0x1_0000_0000 && Size([JumpIfEqualNear(l)]) == 5
    ensures Run(1, s) == Next(t) && t == s.(ip := if s.flags.eq then sym(l) else s.ip + 5)
  {
    hide Placed, Cycle, Run, Low32;
    FetchPlaced(s, JumpIfEqualNear(l), sym);
    WrapTarget(s.ip, sym(l));
    Low32Small(s.ip + 5);
    t := s.(ip := if s.flags.eq then sym(l) else s.ip + 5);
    RunOne(s, t);
  }

  lemma JumpNearRun(s: State, l: Symbol, sym: Symbols) returns (t: State)
    requires Loaded(s.mem, s.pages, s.ip, [JumpNear(l)], sym)
    ensures Run(1, s) == Next(t) && t == s.(ip := sym(l))
  {
    hide Placed, Cycle, Run, Low32;
    FetchPlaced(s, JumpNear(l), sym);
    WrapTarget(s.ip, sym(l));
    t := s.(ip := sym(l));
    RunOne(s, t);
  }

  function IfTail(x: Stmt, n: nat, w: nat): seq<Asm>
    requires x.If?
  {
    [JumpIfEqual(IfEnd(x.line))] + (StmtCode(x.s, n, w) + [Label(IfEnd(x.line))])
  }

  lemma SimIf(g: Env, x: Stmt, args: seq<u32>, st: Store, fuel: nat, w: nat, s: State)
    returns (n: nat, t: State)
    requires x.If? && PreStmt(g, x, args, st, w, s)
    requires Room(s, Exec(g.p, x, args, st, fuel).use)
    ensures FollowsBlock(g, Exec(g.p, x, args, st, fuel), s, EndOfStmt(x, |args|, w, s), n, t, fuel)
    decreases fuel, x, 1
  {
    hide Run, Cycle, Loaded, Ready, HandleException, Size, Untouched, FrameOk, Fixed, TopOf, Popped;
    var tail := IfTail(x, |args|, w);
    SplitThree(s.mem, s.pages, s.ip, ExprCode(x.c, |args|, 0), CompareZero(), tail, g.sym);
    var a := Test(g.p, x.c, args, st, fuel);
    n, t := SimTest(g, x.c, args, st, fuel, s);
    if a.Done? {
      LoadedLater(g, s, st, t, t.ip, tail);
      StaysLimit(g, s, t);
      n, t := SimIfTail(g, x, args, a, fuel, w, s, n, t);
    }
  }

  lemma SimIfTail(g: Env, x: Stmt, args: seq<u32>, a: Result<u32>, fuel: nat, w: nat, s: State, m: nat, t: State)
    returns (n: nat, u: State)
    requires x.If? && FitsStmt(g, x) && a.Done? && FrameOk(s.ds, args, 0)
    requires Run(m, s) == Next(t) && Stays(g, s, t) && t.ds == s.ds && t.cs == s.cs && t.limit == s.limit
    requires Ready(g, t.mem, t.pages, a.st) && t.flags.eq == (a.v == 0)
    requires Loaded(t.mem, t.pages, t.ip, IfTail(x, |args|, w), g.sym)
    requires Room(s, IfResult(g, x, args, a, fuel).use)
    ensures FollowsBlock(g, IfResult(g, x, args, a, fuel), s, t.ip + Size(IfTail(x, |args|, w)), n, u, fuel)
    decreases fuel, x, 0
  {
    hide Run, Cycle, Loaded, Ready, HandleException, Size, Untouched, FrameOk, Fixed, TopOf, Popped, StmtCode;
    var jump, body, mark := [JumpIfEqual(IfEnd(x.line))], StmtCode(x.s, |args|, w), [Label(IfEnd(x.line))];
    SplitThree(t.mem, t.pages, t.ip, jump, body, mark, g.sym);
    var t1 := JumpIfEqualRun(t, IfEnd(x.line), g.sym);
    LabelAddress(t.mem, t.pages, t.ip + 5 + Size(body), IfEnd(x.line), g.sym);
    RunTwo(s, m, t, 1, t1);
    PushKept(g, s, t, t1);
    if a.v == 0 {
      n, u := m + 1, t1;
    } else {
      var n2: nat;
      n2, u := SimStmt(g, x.s, args, a.st, fuel, w, t1);
      BlockAfter(g, Exec(g.p, x.s, args, a.st, fuel), a.use, s, m + 1, t1, t1.ip + Size(body), n2, u, fuel);
      n := m + 1 + n2;
    }
  }

  function IfResult(g: Env, x: Stmt, args: seq<u32>, a: Result<u32>, fuel: nat): Result<Signal>
    requires x.If? && a.Done?
  {
    if a.v == 0 then Done(FellThrough, a.st, a.use)
    else After(a.use, Exec(g.p, x.s, args, a.st, fuel), 0, 0)
  }

  lemma SimStmt(g: Env, x: Stmt, args: seq<u32>, st: Store, fuel: nat, w: nat, s: State)
    returns (n: nat, t: State)
    requires PreStmt(g, x, args, st, w, s)
    requires Room(s, Exec(g.p, x, args, st, fuel).use)
    ensures FollowsBlock(g, Exec(g.p, x, args, st, fuel), s, EndOfStmt(x, |args|, w, s), n, t, fuel)
    decreases fuel, x, 2
  {
    hide Run, Cycle, Loaded, Ready, HandleException, Size, FollowsBlock, PreStmt;
    match x
    case Let(_, _) => n, t := SimLet(g, x, args, st, fuel, w, s);
    case Return(_) => n, t := SimReturn(g, x, args, st, fuel, w, s);
    case Do(_, _) => n, t := SimDo(g, x, args, st, fuel, w, s);
    case If(_, _, _) => n, t := SimIf(g, x, args, st, fuel, w, s);
    case While(_, _) => n, t := SimWhile(g, x, args, st, fuel, w, s);
  }

  // code of a loop from its conditional jump on
  function LoopTail(x: Stmt, n: nat, w: nat): seq<Asm>
    requires x.While?
  {
    [JumpIfEqualNear(WhileEnd(w))] +
    (BlockCode(x.body, n, w + 1) + ([JumpNear(WhileTop(w))] + [Label(WhileEnd(w))]))
  }

  function LoopResult(g: Env, x: Stmt, args: seq<u32>, a: Result<u32>, fuel: nat): Result<Signal>
    requires x.While? && a.Done?
    decreases fuel, x, 0
  {
    if a.v == 0 then Done(FellThrough, a.st, a.use)
    else RoundResult(g, x, args, After(a.use, ExecBlock(g.p, x.body, args, a.st, fuel), 0, 0), fuel)
  }

  function RoundResult(g: Env, x: Stmt, args: seq<u32>, b: Result<Signal>, fuel: nat): Result<Signal> {
    if !b.Done? || b.v.Returned? then b
    else if fuel == 0 then OutOfFuel(b.use)
    else After(b.use, Exec(g.p, x, args, b.st, fuel - 1), 0, 0)
  }

  lemma SimWhile(g: Env, x: Stmt, args: seq<u32>, st: Store, fuel: nat, w: nat, s: State)
    returns (n: nat, t: State)
    requires x.While? && PreStmt(g, x, args, st, w, s)
    requires Room(s, Exec(g.p, x, args, st, fuel).use)
    ensures FollowsBlock(g, Exec(g.p, x, args, st, fuel), s, EndOfStmt(x, |args|, w, s), n, t, fuel)
    decreases fuel, x, 0
  {
    hide Run, Cycle, Loaded, Ready, HandleException, Size, Untouched, FrameOk, Fixed, TopOf, Popped, Test, BlockCode, ExprCode, CompareZero, ExecBlock;
    var mark, test := [Label(WhileTop(w))], ExprCode(x.c, |args|, 0);
    var tail := LoopTail(x, |args|, w);
    SplitTwo(s.mem, s.pages, s.ip, mark, test + (CompareZero() + tail), g.sym);
    LabelAddress(s.mem, s.pages, s.ip, WhileTop(w), g.sym);
    SplitThree(s.mem, s.pages, s.ip, test, CompareZero(), tail, g.sym);
    var a := Test(g.p, x.c, args, st, fuel);
    n, t := SimTest(g, x.c, args, st, fuel, s);
    if a.Done? {
      LoadedLater(g, s, st, t, t.ip, tail);
      StaysLimit(g, s, t);
      assert Exec(g.p, x, args, st, fuel) == LoopResult(g, x, args, a, fuel);
      n, t := SimLoopTail(g, x, args, st, a, fuel, w, s, n, t);
    }
  }

  lemma SimLoopTail(g: Env, x: Stmt, args: seq<u32>, st: Store, a: Result<u32>, fuel: nat, w: nat,
                    s: State, m: nat, t: State)
    returns (n: nat, u: State)
    requires x.While? && PreStmt(g, x, args, st, w, s) && a.Done?
    requires g.sym(WhileTop(w)) == s.ip
    requires Run(m, s) == Next(t) && Stays(g, s, t) && t.ds == s.ds && t.cs == s.cs && t.limit == s.limit
    requires Ready(g, t.mem, t.pages, a.st) && t.flags.eq == (a.v == 0)
    requires Loaded(t.mem, t.pages, t.ip, LoopTail(x, |args|, w), g.sym)
    requires Room(s, LoopResult(g, x, args, a, fuel).use)
    requires t.ip + Size(LoopTail(x, |args|, w)) == EndOfStmt(x, |args|, w, s)
    ensures FollowsBlock(g, LoopResult(g, x, args, a, fuel), s, EndOfStmt(x, |args|, w, s), n, u, fuel)
    decreases fuel, x.body, 1
  {
    hide Run, Cycle, Loaded, Ready, HandleException, Size, Untouched, FrameOk, Fixed, TopOf, Popped, StmtCode, BlockCode;
    var jump, body := [JumpIfEqualNear(WhileEnd(w))], BlockCode(x.body, |args|, w + 1);
    var back, mark := [JumpNear(WhileTop(w))], [Label(WhileEnd(w))];
    SplitThree(t.mem, t.pages, t.ip, jump, body, back + mark, g.sym);
    var t1 := JumpIfEqualNearRun(t, WhileEnd(w), g.sym);
    var bottom := t.ip + 5 + Size(body);
    SplitTwo(t.mem, t.pages, bottom, back, mark, g.sym);
    LabelAddress(t.mem, t.pages, bottom + Size(back), WhileEnd(w), g.sym);
    RunTwo(s, m, t, 1, t1);
    PushKept(g, s, t, t1);
    if a.v == 0 {
      n, u := m + 1, t1;
    } else {
      var n2: nat;
      n2, u := SimBlock(g, x.body, args, a.st, fuel, w + 1, t1);
      var b := ExecBlock(g.p, x.body, args, a.st, fuel);
      BlockAfter(g, b, a.use, s, m + 1, t1, bottom, n2, u, fuel);
      n := m + 1 + n2;
      if b.Done? && b.v.FellThrough? {
        LoadedLater(g, t1, a.st, u, bottom, back);
        n, u := SimNextRound(g, x, args, st, After(a.use, b, 0, 0), fuel, w, s, n, u);
      }
    }
  }

  /** The bottom of a loop jumps back to its top, where the loop starts afresh. */
  lemma SimNextRound(g: Env, x: Stmt, args: seq<u32>, st: Store, b: Result<Signal>, fuel: nat, w: nat,
                     s: State, m: nat, t: State)
    returns (n: nat, u: State)
    requires x.While? && PreStmt(g, x, args, st, w, s) && b.Done? && b.v.FellThrough?
    requires g.sym(WhileTop(w)) == s.ip
    requires Run(m, s) == Next(t) && Stays(g, s, t) && t.ds == s.ds && t.cs == s.cs
    requires Ready(g, t.mem, t.pages, b.st) && Loaded(t.mem, t.pages, t.ip, [JumpNear(WhileTop(w))], g.sym)
    requires Room(s, RoundResult(g, x, args, b, fuel).use)
    ensures FollowsBlock(g, RoundResult(g, x, args, b, fuel), s, EndOfStmt(x, |args|, w, s), n, u, fuel)
    decreases fuel, x.body, 0
  {
    hide Run, Cycle, Loaded, Ready, HandleException, Size, Untouched, FrameOk, Fixed, TopOf, Popped, StmtCode;
    if fuel == 0 {
      return m, t;
    }
    var t1 := JumpNearRun(t, WhileTop(w), g.sym);
    RunTwo(s, m, t, 1, t1);
    PushKept(g, s, t, t1);
    StaysLimit(g, s, t1);
    LoadedLater(g, s, st, t1, t1.ip, StmtCode(x, |args|, w));
    var n2: nat;
    n2, u := SimStmt(g, x, args, b.st, fuel - 1, w, t1);
    BlockAfter(g, Exec(g.p, x, args, b.st, fuel - 1), b.use, s, m + 1, t1, EndOfStmt(x, |args|, w, s), n2, u, fuel - 1);
    n := m + 1 + n2;
  }

  lemma SimBlock(g: Env, ss: seq<Stmt>, args: seq<u32>, st: Store, fuel: nat, w: nat, s: State)
    returns (n: nat, t: State)
    requires Ready(g, s.mem, s.pages, st) && FitsBlock(g, ss) && FrameOk(s.ds, args, 0)
    requires Loaded(s.mem, s.pages, s.ip, BlockCode(ss, |args|, w), g.sym)
    requires Room(s, ExecBlock(g.p, ss, args, st, fuel).use)
    ensures FollowsBlock(g, ExecBlock(g.p, ss, args, st, fuel), s,
                         s.ip + Size(BlockCode(ss, |args|, w)), n, t, fuel)
    decreases fuel, ss, 0
  {
    hide Run, Cycle, Loaded, Ready, HandleException, Size, Untouched, FrameOk, Fixed, TopOf, Popped, StmtCode;
    if ss == [] {
      n, t := 0, s;
      RunNone(s);
      StaysSame(g, s);
      NoSize();
    } else {
      var first := StmtCode(ss[0], |args|, w);
      var rest := BlockCode(ss[1..], |args|, w + Loops(ss[0]));
      SplitTwo(s.mem, s.pages, s.ip, first, rest, g.sym);
      n, t := SimStmt(g, ss[0], args, st, fuel, w, s);
      var a := Exec(g.p, ss[0], args, st, fuel);
      if a.Done? && a.v.FellThrough? {
        LoadedLater(g, s, st, t, t.ip, rest);
        StaysLimit(g, s, t);
        var n2, u := SimBlock(g, ss[1..], args, a.st, fuel, w + Loops(ss[0]), t);
        BlockAfter(g, ExecBlock(g.p, ss[1..], args, a.st, fuel), a.use, s, n, t, t.ip + Size(rest), n2, u, fuel);
        n, t := n + n2, u;
      }
    }
  }
}
