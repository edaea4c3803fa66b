/** Expressions without calls and `$` compile to straight-line code whose effect
    is exactly their value: nothing else is touched but R2, R12 and the flags. */
module StraightLine {
  import opened Words
  import opened Isa
  import opened Machine
  import opened Assembly
  import opened Tpp
  import opened Codegen
  import opened Chunks
  import opened Setting
  import opened Correctness
  import opened Grammar
  import opened Printing
  import opened Meaning

  // ----- flows of concatenated code -----

  lemma StraightAppend(x: seq<Asm>, y: seq<Asm>)
    requires AllStraight(x) && AllStraight(y)
    ensures AllStraight(x + y)
  {
    hide Straight;
  }

  lemma {:induction false} FlowPrefix(x: seq<Asm>, y: seq<Asm>, k: nat, s: State, t: State, sym: Symbols)
    requires AllStraight(x) && AllStraight(x + y) && k <= |x| && Flow(x, k, s, sym) == Ok(t)
    ensures Flow(x + y, k, s, sym) == Flow(x + y, |x|, t, sym)
    decreases |x| - k
  {
    hide ActLine;
    if k < |x| {
      FlowPrefix(x, y, k + 1, ActLine(x[k], s, sym).s, t, sym);
    }
  }

  lemma {:induction false} FlowSuffix(x: seq<Asm>, y: seq<Asm>, k: nat, s: State, sym: Symbols)
    requires AllStraight(y) && AllStraight(x + y) && k <= |y|
    ensures Flow(x + y, |x| + k, s, sym) == Flow(y, k, s, sym)
    decreases |y| - k
  {
    hide ActLine;
    if k < |y| && ActLine(y[k], s, sym).Ok? {
      FlowSuffix(x, y, k + 1, ActLine(y[k], s, sym).s, sym);
    }
  }

  lemma FlowAppend(x: seq<Asm>, y: seq<Asm>, s: State, t: State, sym: Symbols)
    requires AllStraight(x) && AllStraight(y) && Flow(x, 0, s, sym) == Ok(t)
    ensures AllStraight(x + y) && Flow(x + y, 0, s, sym) == Flow(y, 0, t, sym)
  {
    hide Flow;
    StraightAppend(x, y);
    FlowPrefix(x, y, 0, s, t, sym);
    FlowSuffix(x, y, 0, t, sym);
  }

  // ----- expressions -----

  lemma LightTransitive(s: State, t: State, u: State)
    requires Light(s, t) && Light(t, u)
    ensures Light(s, u)
  {
  }

  ghost predicate Reads(g: Env, s: State, st: Store) {
    CellsOk(g, |s.mem|, s.pages) && Holds(g, s.mem, st)
  }

  lemma ReadsLater(g: Env, s: State, st: Store, t: State)
    requires Reads(g, s, st) && t.mem == s.mem && t.pages == s.pages
    ensures Reads(g, t, st)
  {
    hide CellsOk, Holds;
  }

  lemma VariableFlow(g: Env, x: string, st: Store, s: State) returns (t: State)
    requires Reads(g, s, st) && x in st && |s.ds| + 2 <= s.limit
    ensures AllStraight(LoadVariable(x)) && Flow(LoadVariable(x), 0, s, g.sym) == Ok(t)
    ensures Light(s, t) && t.regs[1] == st[x]
  {
    hide Flow, Imm32;
    assert InCell(g, g.sym(Cell(x)));
    LoadVariableFlow(x, s, st[x], g.sym);
    t := s.(regs := s.regs[1 := st[x]]);
  }

  lemma ConstantFlow(v: u32, s: State, sym: Symbols) returns (t: State)
    ensures AllStraight([Load(1, v)]) && Flow([Load(1, v)], 0, s, sym) == Ok(t)
    ensures Light(s, t) && t.regs[1] == v
  {
    hide Flow, ActLine;
    t := FlowLoad([Load(1, v)], 0, s, 1, v, sym);
    FlowEnd([Load(1, v)], t, sym);
  }

  lemma UnaryTailFlow(p: PlainOp, s: State, sym: Symbols) returns (t: State)
    requires (p == Not || p == Neg) && |s.ds| + 2 <= s.limit
    ensures AllStraight(UnaryTail(p)) && Flow(UnaryTail(p), 0, s, sym) == Ok(t) && Light(s, t)
    ensures t.regs[1] == if p == Not then 0xFFFF_FFFF - s.regs[1] else Truth(s.regs[1] == 0)
  {
    hide Flow;
    var v: u64 := if p == Not then UNDERFLOW - s.regs[1] else Truth(s.regs[1] == 0);
    UnaryFlow(p, s, v, sym);
    NotWord(s.regs[1]);
    t := s.(regs := s.regs[1 := Low32(v)]);
  }

  lemma PushedFlow(s: State, sym: Symbols) returns (t: State)
    requires |s.cs| < s.limit
    ensures AllStraight([Op(Reg(Pushar, 1))])
    ensures Flow([Op(Reg(Pushar, 1))], 0, s, sym) == Ok(t) && t == s.(cs := s.cs + [s.regs[1]])
  {
    hide Flow;
    t := s.(cs := s.cs + [s.regs[1]]);
    OneFlow(Op(Reg(Pushar, 1)), s, t, sym);
  }

  lemma PoppedFlow(s: State, base: seq<u64>, v: u32, sym: Symbols) returns (t: State)
    requires s.cs == base + [v]
    ensures AllStraight([Op(Reg(Popar, 2))])
    ensures Flow([Op(Reg(Popar, 2))], 0, s, sym) == Ok(t) && t == s.(cs := base, regs := s.regs[2 := v])
  {
    hide Flow;
    t := s.(cs := base, regs := s.regs[2 := v]);
    assert Popped(s.cs, 1) == base;
    Low32Small(v);
    OneFlow(Op(Reg(Popar, 2)), s, t, sym);
  }

  lemma OneFlow(x: Asm, s: State, t: State, sym: Symbols)
    requires Straight(x) && ActLine(x, s, sym) == Ok(t)
    ensures AllStraight([x]) && Flow([x], 0, s, sym) == Ok(t)
  {
    hide ActLine;
    FlowEnd([x], t, sym);
  }

  /** The second half of a binary expression: the left operand is in R1. */
  lemma RightFlow(g: Env, e: Expr, n: nat, k: nat, st: Store, fuel: nat, s: State, b: Result<u32>, v: u32)
    returns (t: State)
    requires e.Binary? && CallFree(e.r) && Reads(g, s, st)
    requires b == Eval(g.p, e.r, [], st, fuel) && b.Done? && BinVal(e.op, s.regs[1], b.v) == Some(v)
    requires Room(s, Peak(Shift(b.use, 0, 1), Cost(3, 1)))
    ensures AllStraight(RightCode(e, n, k)) && Flow(RightCode(e, n, k), 0, s, g.sym) == Ok(t)
    ensures Light(s, t) && t.regs[1] == v
    decreases e, 0
  {
    hide Flow, Eval, ExprCode, OperatorCode, BinVal, Reads, Straight;
    var a, right, pop, tail := s.regs[1], ExprCode(e.r, n, Counter(e.l, k)), [Op(Reg(Popar, 2))], OperatorCode(e.op);
    var t1 := PushedFlow(s, g.sym);
    ReadsLater(g, s, st, t1);
    var t2 := ExprFlow(g, e.r, n, Counter(e.l, k), st, fuel, t1);
    var t3 := PoppedFlow(t2, s.cs, a, g.sym);
    t := OperatorFlow(e.op, t3, v, g.sym);
    FlowAppend(pop, tail, t2, t3, g.sym);
    FlowAppend(right, pop + tail, t1, t2, g.sym);
    FlowAppend([Op(Reg(Pushar, 1))], right + (pop + tail), s, t1, g.sym);
    CallStackApart(s, t1, t2, t3, t, a);
  }

  lemma CallStackApart(s: State, t1: State, t2: State, t3: State, t: State, a: u32)
    requires t1 == s.(cs := s.cs + [a]) && Light(t1, t2) && t3 == t2.(cs := s.cs, regs := t2.regs[2 := a]) && Light(t3, t)
    ensures Light(s, t)
  {
  }

  lemma BinaryFlow(g: Env, e: Expr, n: nat, k: nat, st: Store, fuel: nat, s: State) returns (t: State)
    requires e.Binary? && CallFree(e) && Reads(g, s, st) && Eval(g.p, e, [], st, fuel).Done?
    requires Room(s, Eval(g.p, e, [], st, fuel).use)
    ensures AllStraight(ExprCode(e, n, k)) && Flow(ExprCode(e, n, k), 0, s, g.sym) == Ok(t)
    ensures Light(s, t) && t.regs[1] == Eval(g.p, e, [], st, fuel).v
    decreases e, 1
  {
    hide Flow, BinVal, OperatorCode, Reads, Straight, Counter;
    var a, b := Eval(g.p, e.l, [], st, fuel), Eval(g.p, e.r, [], st, fuel);
    StoreKept(g.p, e.l, st, fuel);
    var t1 := ExprFlow(g, e.l, n, k, st, fuel, s);
    ReadsLater(g, s, st, t1);
    t := RightFlow(g, e, n, k, st, fuel, t1, b, Eval(g.p, e, [], st, fuel).v);
    FlowAppend(ExprCode(e.l, n, k), RightCode(e, n, k), s, t1, g.sym);
    LightTransitive(s, t1, t);
  }

  lemma {:induction false} StoreKept(p: Program, e: Expr, st: Store, fuel: nat)
    requires CallFree(e) && Eval(p, e, [], st, fuel).Done?
    ensures Eval(p, e, [], st, fuel).st == st
    decreases e
  {
    hide BinVal;
    match e
    case Group(h) => StoreKept(p, h, st, fuel);
    case Binary(_, l, r) =>
      StoreKept(p, l, st, fuel);
      StoreKept(p, r, st, fuel);
    case NotOf(h) => StoreKept(p, h, st, fuel);
    case NegOf(h) => StoreKept(p, h, st, fuel);
    case Zero =>
    case Num(_) =>
    case Var(_) =>
  }

  /** The code of a plain expression flows to its value. */
  lemma {:induction false} ExprFlow(g: Env, e: Expr, n: nat, k: nat, st: Store, fuel: nat, s: State) returns (t: State)
    requires CallFree(e) && Reads(g, s, st) && Eval(g.p, e, [], st, fuel).Done?
    requires Room(s, Eval(g.p, e, [], st, fuel).use)
    ensures AllStraight(ExprCode(e, n, k)) && Flow(ExprCode(e, n, k), 0, s, g.sym) == Ok(t)
    ensures Light(s, t) && t.regs[1] == Eval(g.p, e, [], st, fuel).v
    decreases e, 2
  {
    hide Flow, Reads, Straight, LoadVariable, Counter, Light, BinVal;
    match e
    case Zero => t := ConstantFlow(0, s, g.sym);
    case Num(v) => t := ConstantFlow(v, s, g.sym);
    case Var(x) => t := VariableFlow(g, x, st, s);
    case Group(h) => t := ExprFlow(g, h, n, k, st, fuel, s);
    case Binary(_, _, _) => t := BinaryFlow(g, e, n, k, st, fuel, s);
    case NotOf(h) => t := UnaryExprFlow(g, e, Not, n, k, st, fuel, s);
    case NegOf(h) => t := UnaryExprFlow(g, e, Neg, n, k, st, fuel, s);
  }

  lemma UnaryExprFlow(g: Env, e: Expr, p: PlainOp, n: nat, k: nat, st: Store, fuel: nat, s: State) returns (t: State)
    requires (e.NotOf? && p == Not) || (e.NegOf? && p == Neg)
    requires CallFree(e) && Reads(g, s, st) && Eval(g.p, e, [], st, fuel).Done?
    requires Room(s, Eval(g.p, e, [], st, fuel).use)
    ensures AllStraight(ExprCode(e, n, k)) && Flow(ExprCode(e, n, k), 0, s, g.sym) == Ok(t)
    ensures Light(s, t) && t.regs[1] == Eval(g.p, e, [], st, fuel).v
    decreases e, 1
  {
    hide Flow, Reads, Straight, UnaryTail, BinVal;
    var t1 := ExprFlow(g, e.e, n, k, st, fuel, s);
    t := UnaryTailFlow(p, t1, g.sym);
    FlowAppend(ExprCode(e.e, n, k), UnaryTail(p), s, t1, g.sym);
    LightTransitive(s, t1, t);
  }

  // ----- main results -----

  /** Loaded code of an expression without calls and `$` takes one cycle a line,
      ends just past itself with the value in R1, and changes nothing else but
      R2, R12 and the flags. Three cells of the data stack, and two of the call
      stack for each level of parentheses and one more, are room enough. */
  lemma ExpressionRuns(g: Env, sc: Scope, e: Expr, n: nat, st: Store, fuel: nat, s: State)
    requires IsExpr(sc, e) && CallFree(e) && Reads(g, s, st)
    requires Loaded(s.mem, s.pages, s.ip, ExprCode(e, n, 0), g.sym)
    requires Room(s, Cost(3, 2 * (Parentheses(e) + 1)))
    requires Eval(g.p, e, [], st, fuel).Done?
    ensures exists t: State ::
              && Run(|ExprCode(e, n, 0)|, s) == Next(t)
              && t.ip == s.ip + Size(ExprCode(e, n, 0))
              && t.regs[1] == Eval(g.p, e, [], st, fuel).v
              && Light(s.(ip := t.ip), t)
  {
    hide Flow, Run, Loaded, Reads, Eval, ExprCode, Size, Straight, IsExpr, CallFree;
    ExprUse(sc, g.p, e, [], st, fuel);
    var u := ExprFlow(g, e, n, 0, st, fuel, s);
    var t := RunChunk(ExprCode(e, n, 0), s, u, g.sym);
    assert Light(s.(ip := t.ip), t);
  }
}
