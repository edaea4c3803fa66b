/** The code the T++ compiler prints for each construct, macros expanded to the
    instructions they stand for. */
module Codegen {
  import opened Words
  import opened Isa
  import opened Assembly
  import opened Tpp

  function Load(r: byte, n: u32): Asm { Op(RegImm(Loadr, r, n)) }
  function PushReg(r: byte): Asm { Op(Reg(Pushr, r)) }
  function PopReg(r: byte): Asm { Op(Reg(Popr, r)) }
  function PushImm(n: int): Asm { Op(Imm(Push, Low32(n))) }
  function DropN(n: int): Asm { Op(Imm(Popn, Low32(n))) }
  function Do0(p: PlainOp): Asm { Op(Plain(p)) }

  /** The macro loadrr. */
  function Move(to: byte, from: byte): seq<Asm> { [PushReg(from), PopReg(to)] }

  /** The macro loadrm for a 32-bit variable into R1. */
  function LoadVariable(x: string): seq<Asm> {
    [PushReg(0), LoadAddress(0, Cell(x)), Do0(Lods(Dword)), PushReg(1), PopReg(1), PopReg(0)]
  }

  function AluTail(first: byte, second: byte, op: AluOp): seq<Asm> {
    [PushReg(first), PushReg(second), Do0(Alu(op)), PopReg(1), DropN(2)]
  }

  /** cmpr R2, R1; loadr R12, 0; the set macro; loadrr R1, R12. */
  function CompareTail(setters: seq<Asm>): seq<Asm> {
    [PushReg(2), PushReg(1), Do0(Cmp), PopReg(1), PopReg(2), Load(12, 0)] + setters + Move(1, 12)
  }

  function SetR12(x: RegOp): Asm { Op(Reg(x, 12)) }

  /** What follows `popar R2`: the left operand is in R2, the right one in R1. */
  function OperatorCode(op: BinOp): seq<Asm> {
    match op
    case Plus => AluTail(1, 2, Add)
    case Minus => AluTail(2, 1, Sub)
    case Times => AluTail(1, 2, Mul)
    case Over => AluTail(2, 1, Div)
    case Modulo => AluTail(2, 1, Mod)
    case BitAnd => AluTail(2, 1, And)
    case BitOr => AluTail(2, 1, Or)
    case BitXor => AluTail(2, 1, Xor)
    case AndAlso => AluTail(1, 2, LAnd)
    case OrElse => AluTail(1, 2, LOr)
    case Equal => CompareTail([SetR12(SetE)])
    case NotEqual => CompareTail([SetR12(SetNe)])
    case AtLeast => CompareTail([SetR12(SetE), SetR12(SetG)])
    case AtMost => CompareTail([SetR12(SetE), SetR12(SetL)])
    case Above => CompareTail([SetR12(SetG)])
    case Silent(_) => []
  }

  function UnaryTail(p: PlainOp): seq<Asm> {
    [PushReg(1), Do0(p), PopReg(1), Do0(Pop)]
  }

  const UTILITY_REGISTERS := 4

  /** The `$` sequence: R1 holds the argument's number, `n` is the arity of the
      current function, `k` the compiler's count of values pushed since. */
  function ArgumentTail(n: nat, k: nat): seq<Asm> {
    [PushReg(1), PushImm(1), Do0(Alu(Sub)), PopReg(1),
     PushImm(n), PushImm(k), Do0(Alu(Add)), PopReg(6),
     PushReg(6), PushImm(UTILITY_REGISTERS), Do0(Alu(Add)), PopReg(6),
     PushReg(6), PushReg(1), Do0(Alu(Sub)), PopReg(1), DropN(8)]
    + Move(8, 1) + [Op(Reg(Loadsr, 8)), PopReg(1)]
  }

  /** `stuff_pushed_to_stack` after an expression was compiled with it at `k`:
      any call leaves it at zero. */
  function Counter(e: Expr, k: nat): nat {
    match e
    case Group(g) => Counter(g, k)
    case Binary(_, l, r) => Counter(r, Counter(l, k))
    case NotOf(g) => Counter(g, k)
    case NegOf(g) => Counter(g, k)
    case Arg(g) => Counter(g, k)
    case Invoke(_, _) => 0
    case _ => k
  }

  function ExprCode(e: Expr, n: nat, k: nat): seq<Asm>
    decreases e, 1
  {
    match e
    case Zero => [Load(1, 0)]
    case Num(v) => [Load(1, v)]
    case Var(x) => LoadVariable(x)
    case Group(g) => ExprCode(g, n, k)
    case Binary(op, l, r) =>
      ExprCode(l, n, k) + ([Op(Reg(Pushar, 1))] +
      (ExprCode(r, n, Counter(l, k)) + ([Op(Reg(Popar, 2))] + OperatorCode(op))))
    case NotOf(g) => ExprCode(g, n, k) + UnaryTail(Not)
    case NegOf(g) => ExprCode(g, n, k) + UnaryTail(Neg)
    case Arg(g) => ExprCode(g, n, k) + ArgumentTail(n, Counter(g, k))
    case Invoke(f, es) => CallCode(f, es, n)
  }

  function SaveUtility(): seq<Asm> { [PushReg(4), PushReg(5), PushReg(9), PushReg(10)] }

  function AfterCall(n: nat): seq<Asm> {
    [PopReg(10), PopReg(9), PopReg(5), PopReg(4), DropN(n)] + Move(1, 7)
  }

  function CallCode(f: string, es: seq<Expr>, n: nat): seq<Asm>
    decreases es, 1
  {
    ArgsCode(es, n, 0) + (SaveUtility() + ([CallTo(Entry(f))] + AfterCall(|es|)))
  }

  function ArgsCode(es: seq<Expr>, n: nat, k: nat): seq<Asm>
    decreases es, 0
  {
    if es == [] then []
    else ExprCode(es[0], n, k) + ([PushReg(1)] + ArgsCode(es[1..], n, Counter(es[0], k) + 1))
  }

  /** The macro cmpri R1, 0. */
  function CompareZero(): seq<Asm> {
    [PushReg(1), PushImm(0), Do0(Cmp), Do0(Pop), PopReg(1)]
  }

  /** Statements after which the code continues on the same line. */
  predicate OneLine(s: Stmt) {
    s.Let? || s.Return? || s.Do?
  }

  function Loops(s: Stmt): nat {
    if s.While? then 1 + LoopsIn(s.body) else 0
  }

  function LoopsIn(ss: seq<Stmt>): nat {
    if ss == [] then 0 else Loops(ss[0]) + LoopsIn(ss[1..])
  }

  /** `w` is the number the next loop gets. */
  function StmtCode(s: Stmt, n: nat, w: nat): seq<Asm>
    decreases s, 1
  {
    match s
    case Let(x, e) => ExprCode(e, n, 0) + ([LoadAddress(0, Cell(x))] + [Do0(Stos(Dword))])
    case Return(e) => ExprCode(e, n, 0) + (Move(7, 1) + [Do0(Ret)])
    case Do(f, es) => CallCode(f, es, n)
    case If(c, t, line) =>
      ExprCode(c, n, 0) + (CompareZero() + ([JumpIfEqual(IfEnd(line))] +
      (StmtCode(t, n, w) + [Label(IfEnd(line))])))
    case While(c, body) =>
      [Label(WhileTop(w))] + (ExprCode(c, n, 0) + (CompareZero() + ([JumpIfEqualNear(WhileEnd(w))] +
      (BlockCode(body, n, w + 1) + ([JumpNear(WhileTop(w))] + [Label(WhileEnd(w))])))))
  }

  function BlockCode(ss: seq<Stmt>, n: nat, w: nat): seq<Asm>
    decreases ss, 0
  {
    if ss == [] then []
    else StmtCode(ss[0], n, w) + BlockCode(ss[1..], n, w + Loops(ss[0]))
  }

  /** `__internal_init:` has nothing to do. */
  function InitCode(): seq<Asm> {
    [Label(Init)] + [Do0(Ret)]
  }

  /** `main` first calls the compiler's initialisation routine. */
  function Prelude(f: string): seq<Asm> {
    if f == "main" then [CallNear(Init)] else []
  }

  function FunctionCode(f: string, body: seq<Stmt>, n: nat, w: nat): seq<Asm> {
    [Label(Entry(f))] + (Prelude(f) + BlockCode(body, n, w))
  }
}
