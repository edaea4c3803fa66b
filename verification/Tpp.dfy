/** The T++ language: expressions, statements, functions, and what they mean.
    Values are 32-bit words. Variables belong to the function whose name
    prefixes theirs and live in static cells, so the store is global. */
module Tpp {
  import opened Words

  datatype BinOp =
    | Plus | Minus
    | Times | Over | Modulo | BitAnd | BitOr | BitXor | AndAlso | OrElse
    | Equal | NotEqual | AtLeast | AtMost | Above
    | Silent(c: char)   // operator characters that select no operation: `<`, and `!` or `:` without `=`

  datatype Expr =
    | Zero                          // the operand a leading sign works on
    | Num(n: u32)
    | Var(x: string)
    | Group(e: Expr)                // parentheses
    | Binary(op: BinOp, l: Expr, r: Expr)
    | NotOf(e: Expr)
    | NegOf(e: Expr)
    | Arg(e: Expr)                  // $e, the e-th argument of the current function
    | Invoke(f: string, args: seq<Expr>)

  datatype Stmt =
    | Let(x: string, e: Expr)
    | Return(e: Expr)
    | Do(f: string, args: seq<Expr>)
    | If(c: Expr, s: Stmt, line: nat)   // with the number of its source line
    | While(c: Expr, body: seq<Stmt>)

  datatype Function = Function(arity: nat, body: seq<Stmt>)

  type Program = map<string, Function>
  type Store = map<string, u32>

  /** The value of an operator as the code computes it; None on division by zero.
      Comparisons are unsigned, the logical operators test for exactly 1. */
  function BinVal(op: BinOp, a: u32, b: u32): Option<u32> {
    match op
    case Plus => Some(Low32(a + b))
    case Minus => Some(Low32(a - b))
    case Times => Some(Low32(a * b))
    case Over => if b == 0 then None else Some(a / b)
    case Modulo => if b == 0 then None else Some(a % b)
    case BitAnd => Some(BitWord(AndBits, a, b))
    case BitOr => Some(BitWord(OrBits, a, b))
    case BitXor => Some(BitWord(XorBits, a, b))
    case AndAlso => Some(Truth(a == 1 && b == 1))
    case OrElse => Some(Truth(a == 1 || b == 1))
    case Equal => Some(Truth(a == b))
    case NotEqual => Some(Truth(a != b))
    case AtLeast => Some(Truth(a >= b))
    case AtMost => Some(Truth(a <= b))
    case Above => Some(Truth(a > b))
    case Silent(_) => Some(b)
  }

  function Truth(b: bool): u32 {
    if b then 1 else 0
  }

  /** Peak use of the data stack and of the call stack, above where it started. */
  datatype Cost = Cost(data: nat, calls: nat)

  function Max(a: nat, b: nat): nat { if a >= b then a else b }

  function Peak(a: Cost, b: Cost): Cost {
    Cost(Max(a.data, b.data), Max(a.calls, b.calls))
  }

  function Shift(a: Cost, data: nat, calls: nat): Cost {
    Cost(a.data + data, a.calls + calls)
  }

  /** `Wrong` is behaviour the language leaves undefined: an argument number
      out of range, a function that ends without `return`. */
  datatype Result<+T> =
    | Done(v: T, st: Store, use: Cost)
    | DividedByZero(use: Cost)
    | OutOfFuel(use: Cost)
    | Wrong(use: Cost)

  /** The result of a later part, seen from the start of the whole. */
  function After<T>(before: Cost, r: Result<T>, data: nat, calls: nat): Result<T> {
    match r
    case Done(v, st, u) => Done(v, st, Peak(before, Shift(u, data, calls)))
    case DividedByZero(u) => DividedByZero(Peak(before, Shift(u, data, calls)))
    case OutOfFuel(u) => OutOfFuel(Peak(before, Shift(u, data, calls)))
    case Wrong(u) => Wrong(Peak(before, Shift(u, data, calls)))
  }

  /** A failed part is the failure of the whole. */
  function Failed<T, U>(r: Result<T>): Result<U>
    requires !r.Done?
  {
    match r
    case DividedByZero(u) => DividedByZero(u)
    case OutOfFuel(u) => OutOfFuel(u)
    case Wrong(u) => Wrong(u)
  }

  datatype Signal = FellThrough | Returned(v: u32)

  /** Big-step evaluation. `fuel` bounds the nesting of calls plus loop rounds. */
  function Eval(p: Program, e: Expr, args: seq<u32>, st: Store, fuel: nat): Result<u32>
    decreases fuel, e, 1
  {
    match e
    case Zero => Done(0, st, Cost(0, 0))
    case Num(n) => Done(n, st, Cost(0, 0))
    case Var(x) => if x in st then Done(st[x], st, Cost(2, 0)) else Wrong(Cost(0, 0))
    case Group(g) => Eval(p, g, args, st, fuel)
    case Binary(op, l, r) =>
      var a := Eval(p, l, args, st, fuel);
      if !a.Done? then a
      else
        var b := After(Peak(a.use, Cost(0, 1)), Eval(p, r, args, a.st, fuel), 0, 1);
        if !b.Done? then b
        else
          var use := Peak(b.use, Cost(3, 0));
          var v := BinVal(op, a.v, b.v);
          if v.Some? then Done(v.value, b.st, use) else DividedByZero(use)
    case NotOf(g) =>
      var a := Eval(p, g, args, st, fuel);
      if !a.Done? then a else Done(0xFFFF_FFFF - a.v, a.st, Peak(a.use, Cost(2, 0)))
    case NegOf(g) =>
      var a := Eval(p, g, args, st, fuel);
      if !a.Done? then a else Done(Truth(a.v == 0), a.st, Peak(a.use, Cost(2, 0)))
    case Arg(g) =>
      var a := Eval(p, g, args, st, fuel);
      if !a.Done? then a
      else if 1 <= a.v <= |args| then Done(args[a.v - 1], a.st, Peak(a.use, Cost(9, 0)))
      else Wrong(a.use)
    case Invoke(f, es) => EvalCall(p, f, es, args, st, fuel)
  }

  /** Arguments are evaluated left to right, each above the ones before it. */
  function EvalArgs(p: Program, es: seq<Expr>, args: seq<u32>, st: Store, fuel: nat): (r: Result<seq<u32>>)
    ensures r.Done? ==> |r.v| == |es|
    decreases fuel, es, 0
  {
    if es == [] then Done([], st, Cost(0, 0))
    else
      var a := Eval(p, es[0], args, st, fuel);
      if !a.Done? then Failed(a)
      else
        var b := After(Peak(a.use, Cost(1, 0)), EvalArgs(p, es[1..], args, a.st, fuel), 1, 0);
        if !b.Done? then b else Done([a.v] + b.v, b.st, b.use)
  }

  /** Return addresses on the call stack before the first line of a body runs:
      `main` calls the initialisation routine first. */
  function EntryCalls(f: string): nat {
    if f == "main" then 2 else 1
  }

  function EvalCall(p: Program, f: string, es: seq<Expr>, args: seq<u32>, st: Store, fuel: nat): Result<u32>
    decreases fuel, es, 1
  {
    var a := EvalArgs(p, es, args, st, fuel);
    if !a.Done? then Failed(a)
    else if f !in p || p[f].arity != |es| then Wrong(a.use)
    else if fuel == 0 then OutOfFuel(a.use)
    else
      var before := Peak(a.use, Cost(|es| + 4, EntryCalls(f)));
      var b := After(before, ExecBlock(p, p[f].body, a.v, a.st, fuel - 1), |es| + 4, 1);
      if !b.Done? then Failed(b)
      else if b.v.FellThrough? then Wrong(b.use)
      else Done(b.v.v, b.st, b.use)
  }

  function Exec(p: Program, s: Stmt, args: seq<u32>, st: Store, fuel: nat): Result<Signal>
    decreases fuel, s, 1
  {
    match s
    case Let(x, e) =>
      var a := Eval(p, e, args, st, fuel);
      if !a.Done? then Failed(a) else Done(FellThrough, a.st[x := a.v], a.use)
    case Return(e) =>
      var a := Eval(p, e, args, st, fuel);
      if !a.Done? then Failed(a) else Done(Returned(a.v), a.st, Peak(a.use, Cost(1, 0)))
    case Do(f, es) =>
      var a := EvalCall(p, f, es, args, st, fuel);
      if !a.Done? then Failed(a) else Done(FellThrough, a.st, a.use)
    case If(c, t, _) =>
      var a := Test(p, c, args, st, fuel);
      if !a.Done? then Failed(a)
      else if a.v == 0 then Done(FellThrough, a.st, a.use)
      else After(a.use, Exec(p, t, args, a.st, fuel), 0, 0)
    case While(c, body) =>
      var a := Test(p, c, args, st, fuel);
      if !a.Done? then Failed(a)
      else if a.v == 0 then Done(FellThrough, a.st, a.use)
      else
        var b := After(a.use, ExecBlock(p, body, args, a.st, fuel), 0, 0);
        if !b.Done? || b.v.Returned? then b
        else if fuel == 0 then OutOfFuel(b.use)
        else After(b.use, Exec(p, s, args, b.st, fuel - 1), 0, 0)
  }

  /** A condition is compared with zero on the data stack. */
  function Test(p: Program, c: Expr, args: seq<u32>, st: Store, fuel: nat): Result<u32>
    decreases fuel, c, 2
  {
    var a := Eval(p, c, args, st, fuel);
    if a.Done? then Done(a.v, a.st, Peak(a.use, Cost(2, 0))) else a
  }

  function ExecBlock(p: Program, ss: seq<Stmt>, args: seq<u32>, st: Store, fuel: nat): Result<Signal>
    decreases fuel, ss, 0
  {
    if ss == [] then Done(FellThrough, st, Cost(0, 0))
    else
      var a := Exec(p, ss[0], args, st, fuel);
      if !a.Done? || a.v.Returned? then a
      else After(a.use, ExecBlock(p, ss[1..], args, a.st, fuel), 0, 0)
  }
}
