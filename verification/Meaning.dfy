/** Facts about what T++ programs mean: more fuel never changes a result, and
    expressions without calls need little stack. */
module Meaning {
  import opened Words
  import opened Tpp
  import opened Grammar
  import opened Printing

  // ----- fuel -----

  /** A result reached with some fuel is the result with any more of it. */
  lemma {:induction false} EvalMore(p: Program, e: Expr, args: seq<u32>, st: Store, fuel: nat, more: nat)
    requires fuel <= more && !Eval(p, e, args, st, fuel).OutOfFuel?
    ensures Eval(p, e, args, st, more) == Eval(p, e, args, st, fuel)
    decreases fuel, e, 1
  {
    hide BinVal, EvalCall;
    match e
    case Group(g) => EvalMore(p, g, args, st, fuel, more);
    case Binary(_, l, r) => BinaryMore(p, e, args, st, fuel, more);
    case NotOf(g) => EvalMore(p, g, args, st, fuel, more);
    case NegOf(g) => EvalMore(p, g, args, st, fuel, more);
    case Arg(g) => EvalMore(p, g, args, st, fuel, more);
    case Invoke(f, es) => CallMore(p, f, es, args, st, fuel, more);
    case _ =>
  }

  lemma {:induction false} BinaryMore(p: Program, e: Expr, args: seq<u32>, st: Store, fuel: nat, more: nat)
    requires e.Binary? && fuel <= more && !Eval(p, e, args, st, fuel).OutOfFuel?
    ensures Eval(p, e, args, st, more) == Eval(p, e, args, st, fuel)
    decreases fuel, e, 0
  {
    hide BinVal, EvalCall, Peak, Shift;
    EvalMore(p, e.l, args, st, fuel, more);
    var a := Eval(p, e.l, args, st, fuel);
    if a.Done? {
      EvalMore(p, e.r, args, a.st, fuel, more);
    }
  }

  lemma {:induction false} ArgsMore(p: Program, es: seq<Expr>, args: seq<u32>, st: Store, fuel: nat, more: nat)
    requires fuel <= more && !EvalArgs(p, es, args, st, fuel).OutOfFuel?
    ensures EvalArgs(p, es, args, st, more) == EvalArgs(p, es, args, st, fuel)
    decreases fuel, es, 0
  {
    hide Eval, Peak, Shift;
    if es != [] {
      EvalMore(p, es[0], args, st, fuel, more);
      var a := Eval(p, es[0], args, st, fuel);
      if a.Done? {
        ArgsMore(p, es[1..], args, a.st, fuel, more);
      }
    }
  }

  lemma {:induction false} CallMore(p: Program, f: string, es: seq<Expr>, args: seq<u32>, st: Store, fuel: nat, more: nat)
    requires fuel <= more && !EvalCall(p, f, es, args, st, fuel).OutOfFuel?
    ensures EvalCall(p, f, es, args, st, more) == EvalCall(p, f, es, args, st, fuel)
    decreases fuel, es, 1
  {
    hide EvalArgs, ExecBlock, Peak, Shift;
    ArgsMore(p, es, args, st, fuel, more);
    var a := EvalArgs(p, es, args, st, fuel);
    if a.Done? && f in p && p[f].arity == |es| {
      BlockMore(p, p[f].body, a.v, a.st, fuel - 1, more - 1);
    }
  }

  lemma {:induction false} TestMore(p: Program, c: Expr, args: seq<u32>, st: Store, fuel: nat, more: nat)
    requires fuel <= more && !Test(p, c, args, st, fuel).OutOfFuel?
    ensures Test(p, c, args, st, more) == Test(p, c, args, st, fuel)
    decreases fuel, c, 2
  {
    hide Eval;
    EvalMore(p, c, args, st, fuel, more);
  }

  lemma {:induction false} ExecMore(p: Program, s: Stmt, args: seq<u32>, st: Store, fuel: nat, more: nat)
    requires fuel <= more && !Exec(p, s, args, st, fuel).OutOfFuel?
    ensures Exec(p, s, args, st, more) == Exec(p, s, args, st, fuel)
    decreases fuel, s, 1
  {
    hide Eval, Test, EvalCall, ExecBlock, Peak, Shift;
    match s
    case Let(_, e) => EvalMore(p, e, args, st, fuel, more);
    case Return(e) => EvalMore(p, e, args, st, fuel, more);
    case Do(f, es) => CallMore(p, f, es, args, st, fuel, more);
    case If(c, t, _) =>
      TestMore(p, c, args, st, fuel, more);
      var a := Test(p, c, args, st, fuel);
      if a.Done? && a.v != 0 {
        ExecMore(p, t, args, a.st, fuel, more);
      }
    case While(c, body) => LoopMore(p, s, args, st, fuel, more);
  }

  lemma {:induction false} LoopMore(p: Program, s: Stmt, args: seq<u32>, st: Store, fuel: nat, more: nat)
    requires s.While? && fuel <= more && !Exec(p, s, args, st, fuel).OutOfFuel?
    ensures Exec(p, s, args, st, more) == Exec(p, s, args, st, fuel)
    decreases fuel, s, 0
  {
    hide Eval, Test, EvalCall, ExecBlock, Peak, Shift;
    TestMore(p, s.c, args, st, fuel, more);
    var a := Test(p, s.c, args, st, fuel);
    if a.Done? && a.v != 0 {
      BlockMore(p, s.body, args, a.st, fuel, more);
      var b := ExecBlock(p, s.body, args, a.st, fuel);
      if b.Done? && b.v.FellThrough? {
        ExecMore(p, s, args, b.st, fuel - 1, more - 1);
      }
    }
  }

  lemma {:induction false} BlockMore(p: Program, ss: seq<Stmt>, args: seq<u32>, st: Store, fuel: nat, more: nat)
    requires fuel <= more && !ExecBlock(p, ss, args, st, fuel).OutOfFuel?
    ensures ExecBlock(p, ss, args, st, more) == ExecBlock(p, ss, args, st, fuel)
    decreases fuel, ss, 0
  {
    hide Exec, Peak, Shift;
    if ss != [] {
      ExecMore(p, ss[0], args, st, fuel, more);
      var a := Exec(p, ss[0], args, st, fuel);
      if a.Done? && a.v.FellThrough? {
        BlockMore(p, ss[1..], args, a.st, fuel, more);
      }
    }
  }

  // ----- stack use of expressions -----

  /** No calls and no `$`. */
  predicate CallFree(e: Expr) {
    match e
    case Group(g) => CallFree(g)
    case Binary(_, l, r) => CallFree(l) && CallFree(r)
    case NotOf(g) => CallFree(g)
    case NegOf(g) => CallFree(g)
    case Arg(_) => false
    case Invoke(_, _) => false
    case _ => true
  }

  /** How deeply parentheses are nested, those of `not` and `neg` included. */
  function Parentheses(e: Expr): nat {
    match e
    case Group(g) => 1 + Parentheses(g)
    case Binary(_, l, r) => Max(Parentheses(l), Parentheses(r))
    case NotOf(g) => 1 + Parentheses(g)
    case NegOf(g) => 1 + Parentheses(g)
    case _ => 0
  }

  predicate Within(u: Cost, data: nat, calls: nat) {
    u.data <= data && u.calls <= calls
  }

  lemma {:induction false} FactorUse(sc: Scope, p: Program, e: Expr, args: seq<u32>, st: Store, fuel: nat)
    requires IsFactor(sc, e) && CallFree(e)
    ensures Within(Eval(p, e, args, st, fuel).use, 3, 2 * Parentheses(e))
    decreases e, 0
  {
    hide BinVal, EvalCall, IsVariable, IsTerm;
    match e
    case Group(g) => ExprUse(sc, p, g, args, st, fuel);
    case NotOf(g) => ExprUse(sc, p, g, args, st, fuel);
    case NegOf(g) => ExprUse(sc, p, g, args, st, fuel);
    case Num(_) =>
    case Var(_) =>
  }

  lemma {:induction false} TermUse(sc: Scope, p: Program, e: Expr, args: seq<u32>, st: Store, fuel: nat)
    requires IsTerm(sc, e) && CallFree(e)
    ensures Within(Eval(p, e, args, st, fuel).use, 3, 2 * Parentheses(e) + 1)
    decreases e, 1
  {
    hide BinVal, EvalCall, IsVariable, IsFactor, Eval;
    if e.Binary? {
      TermUse(sc, p, e.l, args, st, fuel);
      var a := Eval(p, e.l, args, st, fuel);
      if a.Done? {
        FactorUse(sc, p, e.r, args, a.st, fuel);
      }
      BinaryUse(p, e, args, st, fuel);
    } else {
      FactorUse(sc, p, e, args, st, fuel);
    }
  }

  /** An expression without calls and `$` takes at most 3 cells of the data
      stack, and 2 of the call stack for itself and each level of parentheses. */
  lemma {:induction false} ExprUse(sc: Scope, p: Program, e: Expr, args: seq<u32>, st: Store, fuel: nat)
    requires IsExpr(sc, e) && CallFree(e)
    ensures Within(Eval(p, e, args, st, fuel).use, 3, 2 * (Parentheses(e) + 1))
    decreases e, 2
  {
    hide BinVal, EvalCall, IsTerm;
    if e.Binary? && IsSum(e.op) {
      SumUse(sc, p, e, args, st, fuel);
    } else {
      TermUse(sc, p, e, args, st, fuel);
    }
  }

  lemma {:induction false} SumUse(sc: Scope, p: Program, e: Expr, args: seq<u32>, st: Store, fuel: nat)
    requires IsExpr(sc, e) && CallFree(e) && e.Binary? && IsSum(e.op)
    ensures Within(Eval(p, e, args, st, fuel).use, 3, 2 * (Parentheses(e) + 1))
    decreases e, 1
  {
    hide BinVal, EvalCall, IsTerm, IsExpr, Eval, CallFree, Parentheses;
    SumParts(sc, e);
    if e.l != Zero {
      ExprUse(sc, p, e.l, args, st, fuel);
    } else {
      ZeroUse(p, args, st, fuel);
    }
    var a := Eval(p, e.l, args, st, fuel);
    if a.Done? {
      TermUse(sc, p, e.r, args, a.st, fuel);
    }
    BinaryUse(p, e, args, st, fuel);
  }

  lemma SumParts(sc: Scope, e: Expr)
    requires IsExpr(sc, e) && CallFree(e) && e.Binary? && IsSum(e.op)
    ensures (e.l == Zero || IsExpr(sc, e.l)) && IsTerm(sc, e.r) && CallFree(e.l) && CallFree(e.r)
    ensures Parentheses(e) == Max(Parentheses(e.l), Parentheses(e.r))
  {
    hide IsFactor;
  }

  lemma ZeroUse(p: Program, args: seq<u32>, st: Store, fuel: nat)
    ensures Within(Eval(p, Zero, args, st, fuel).use, 0, 0)
  {
  }

  /** What a binary expression takes, from what its operands take. */
  lemma BinaryUse(p: Program, e: Expr, args: seq<u32>, st: Store, fuel: nat)
    requires e.Binary?
    ensures var a := Eval(p, e.l, args, st, fuel);
            var u := Eval(p, e, args, st, fuel).use;
            if !a.Done? then u == a.use
            else
              var b := Eval(p, e.r, args, a.st, fuel).use;
              && u.data <= Max(3, Max(a.use.data, b.data))
              && u.calls <= Max(a.use.calls, 1 + b.calls)
  {
    hide BinVal, EvalCall;
  }

  /** `1 + 1 * (1 + 1 * (...))`. */
  function Tower(k: nat): Expr {
    Binary(Plus, Num(1), Binary(Times, Num(1), if k == 0 then Num(1) else Group(Tower(k - 1))))
  }

  /** The bound is reached at every depth. */
  lemma {:induction false} UseIsReached(sc: Scope, p: Program, args: seq<u32>, st: Store, fuel: nat, k: nat)
    ensures IsExpr(sc, Tower(k)) && CallFree(Tower(k)) && Parentheses(Tower(k)) == k
    ensures Eval(p, Tower(k), args, st, fuel).Done?
    ensures Eval(p, Tower(k), args, st, fuel).st == st
    ensures Eval(p, Tower(k), args, st, fuel).use == Cost(3, 2 * (k + 1))
  {
    hide Eval, Tower;
    if k > 0 {
      UseIsReached(sc, p, args, st, fuel, k - 1);
      TowerUse(p, args, st, fuel, k);
      TowerShape(sc, k);
    } else {
      TowerBase(p, args, st, fuel);
      assert IsTerm(sc, Binary(Times, Num(1), Num(1)));
      assert Tower(0) == Binary(Plus, Num(1), Binary(Times, Num(1), Num(1))) by { TowerZero(); }
    }
  }

  lemma TowerZero()
    ensures Tower(0) == Binary(Plus, Num(1), Binary(Times, Num(1), Num(1)))
  {
  }

  lemma TowerBase(p: Program, args: seq<u32>, st: Store, fuel: nat)
    ensures Eval(p, Tower(0), args, st, fuel) == Done(2, st, Cost(3, 2))
  {
    var product := Binary(Times, Num(1), Num(1));
    assert Eval(p, product, args, st, fuel) == Done(1, st, Cost(3, 1));
  }

  lemma TowerShape(sc: Scope, k: nat)
    requires k > 0 && IsExpr(sc, Tower(k - 1)) && CallFree(Tower(k - 1))
    ensures IsExpr(sc, Tower(k)) && CallFree(Tower(k)) && Parentheses(Tower(k)) == Parentheses(Tower(k - 1)) + 1
  {
    var g := Group(Tower(k - 1));
    assert IsFactor(sc, g);
    var product := Binary(Times, Num(1), g);
    assert IsTerm(sc, product);
    assert Parentheses(g) == Parentheses(Tower(k - 1)) + 1;
    assert Parentheses(product) == Parentheses(g);
  }

  lemma TowerUse(p: Program, args: seq<u32>, st: Store, fuel: nat, k: nat)
    requires k > 0
    requires Eval(p, Tower(k - 1), args, st, fuel).Done?
    requires Eval(p, Tower(k - 1), args, st, fuel).use == Cost(3, 2 * k)
    requires Eval(p, Tower(k - 1), args, st, fuel).st == st
    ensures Eval(p, Tower(k), args, st, fuel).Done? && Eval(p, Tower(k), args, st, fuel).st == st
    ensures Eval(p, Tower(k), args, st, fuel).use == Cost(3, 2 * (k + 1))
  {
    var g := Group(Tower(k - 1));
    var inner := Eval(p, g, args, st, fuel);
    assert inner == Eval(p, Tower(k - 1), args, st, fuel);
    OverOne(Times, p, g, args, st, fuel);
    OverOne(Plus, p, Binary(Times, Num(1), g), args, st, fuel);
  }

  lemma OverOne(op: BinOp, p: Program, e: Expr, args: seq<u32>, st: Store, fuel: nat)
    requires op == Plus || op == Times
    requires var r := Eval(p, e, args, st, fuel); r.Done? && r.st == st && r.use.data == 3
    ensures var r := Eval(p, Binary(op, Num(1), e), args, st, fuel);
            r.Done? && r.st == st && r.use == Cost(3, 1 + Eval(p, e, args, st, fuel).use.calls)
  {
    assert Eval(p, Num(1), args, st, fuel) == Done(1, st, Cost(0, 0));
  }

  // ----- operators -----

  /** A `<` alone selects no operation and leaves the right operand: it is the
      comparison exactly when that operand happens to be the answer. */
  lemma LessIsLost(s: string, a: u32, b: u32)
    requires |s| >= 2 && s[0] == '<' && s[1] != '=' && s[1] != '|' && s[1] != '&'
    ensures Operator(s).Parsed? && Operator(s).v == Silent('<')
    ensures BinVal(Operator(s).v, a, b) == Some(Truth(a < b)) <==> b == 0 || (a == 0 && b == 1)
  {
  }
}
