/** The processor of one job: registers, flags, two stacks and byte memory, and
    what a single instruction does to them. Registers hold 32 bits between
    instructions, stack cells 64. */
module Machine {
  import opened Words
  import opened Isa

  datatype Page = NoExist | Executable | ReadOnly | ReadWrite

  datatype Flags = Flags(eq: bool, gt: bool, lt: bool, zero: bool)

  type Registers = r: seq<u32> | |r| == 22 witness seq(22, _ => 0)
  type Handlers = h: seq<u32> | |h| == 4 witness [0, 0, 0, 0]
  type Memory = m: seq<byte> | |m| < 0x1_0000_0000

  /** `ds` is the data stack, `cs` the call stack, both with the top at the end;
      `limit` is the number of cells either may hold. */
  datatype State = State(
    ip: u32, regs: Registers, ds: seq<u64>, cs: seq<u64>, flags: Flags, faulted: bool,
    handlers: Handlers, mem: Memory, pages: seq<Page>, limit: u32)

  const INVALID_ACCESS := 0
  const INVALID_OPCODE := 1
  const ARITHMETIC := 3

  datatype Reason = StackOverflow | Unhandled(id: nat) | FaultInHandler | NotExecutable | Undefined

  datatype Outcome = Next(s: State) | Trap(n: byte) | Halt | Stuck(why: Reason)

  /** What an instruction that does not branch does, apart from moving on. */
  datatype Action = Ok(s: State) | Raise(id: nat) | Fail(why: Reason)

  // ----- stacks -----

  const UNDERFLOW: u64 := 0xFFFF_FFFF_FFFF_FFFF

  function TopOf(st: seq<u64>): u64 {
    if st == [] then UNDERFLOW else st[|st| - 1]
  }

  function Popped(st: seq<u64>, n: nat): seq<u64> {
    if n <= |st| then st[..|st| - n] else []
  }

  /** The `k`-th cell from the top, counted from 1. */
  function Item(st: seq<u64>, k: nat): u64
    requires 1 <= k
  {
    if k <= |st| then st[|st| - k] else UNDERFLOW
  }

  function PushData(s: State, v: u64): Action {
    if |s.ds| >= s.limit then Fail(StackOverflow) else Ok(s.(ds := s.ds + [v]))
  }

  function PushCall(s: State, v: u64): Action {
    if |s.cs| >= s.limit then Fail(StackOverflow) else Ok(s.(cs := s.cs + [v]))
  }

  // ----- arithmetic -----

  datatype AluResult = Value(v: u64) | DivisionByZero | Overflowed

  /** `x` is the second cell from the top, `y` the top. */
  function Compute(op: AluOp, x: u64, y: u64): AluResult {
    match op
    case Add => Value(Low64(x + y))
    case Sub => Value(Low64(x - y))
    case Mul => Value(Low64(x * y))
    case Div =>
      if y == 0 then DivisionByZero
      else if x == 0x8000_0000_0000_0000 && Signed(y) == -1 then Overflowed
      else Value(Low64(TruncDiv(Signed(x), Signed(y))))
    case Mod => if y == 0 then DivisionByZero else Value(x % y)
    case And => Value(BitCell(AndBits, x, y))
    case Or => Value(BitCell(OrBits, x, y))
    case Xor => Value(BitWord(XorBits, Low32(x), Low32(y)))
    case LAnd => if x == 1 && y == 1 then Value(1) else Value(0)
    case LOr => if x == 1 || y == 1 then Value(1) else Value(0)
  }

  function Compare(x: int, y: int): Flags {
    Flags(x == y, x > y, x < y, x == 0)
  }

  function Signed32(x: u32): int {
    if x < 0x8000_0000 then x else x - 0x1_0000_0000
  }

  // ----- memory -----

  function PageAt(pages: seq<Page>, a: nat): Page {
    if a / 4096 < |pages| then pages[a / 4096] else NoExist
  }

  function Bytes(w: Width): nat {
    match w case Byte => 1 case Word => 2 case Dword => 4
  }

  function ReadLe(m: seq<byte>, a: nat, w: Width): u32
    requires a + Bytes(w) <= |m|
  {
    match w
    case Byte => FromLe32([m[a], 0, 0, 0])
    case Word => FromLe32([m[a], m[a + 1], 0, 0])
    case Dword => FromLe32(m[a..a + 4])
  }

  /** The memory after the low bytes of `v` are stored at `a`. */
  function WriteLe(m: Memory, a: nat, w: Width, v: u32): (r: Memory)
    requires a + Bytes(w) <= |m|
    ensures |r| == |m|
    ensures r == m[..a] + Le32(v)[..Bytes(w)] + m[a + Bytes(w)..]
    ensures forall k :: 0 <= k < |m| && !(a <= k < a + Bytes(w)) ==> r[k] == m[k]
  {
    m[..a] + Le32(v)[..Bytes(w)] + m[a + Bytes(w)..]
  }

  // ----- instructions -----

  function WithRegister(s: State, r: byte, v: u32): Action {
    if r <= 21 then Ok(s.(regs := s.regs[r := v])) else Raise(INVALID_OPCODE)
  }

  function ActPlain(p: PlainOp, s: State): Action
    requires !p.Exit? && !p.Ret?
  {
    match p
    case Sleep => Ok(s)
    case Pop => Ok(s.(ds := Popped(s.ds, 1)))
    case Popa => Ok(s.(cs := Popped(s.cs, 1)))
    case Dup => PushData(s, Item(s.ds, 1))
    case PushIp => PushData(s, s.ip)
    case Cmp => Ok(s.(flags := Compare(Low32(Item(s.ds, 2)), Low32(Item(s.ds, 1)))))
    case Cmps => Ok(s.(flags := Compare(Signed32(Low32(Item(s.ds, 2))), Signed32(Low32(Item(s.ds, 1))))))
    case Not => PushData(s, UNDERFLOW - Item(s.ds, 1))
    case Neg => PushData(s, if Item(s.ds, 1) == 0 then 1 else 0)
    case Alu(op) => (
      match Compute(op, Item(s.ds, 2), Item(s.ds, 1))
      case Value(v) => PushData(s, v)
      case DivisionByZero => Raise(ARITHMETIC)
      case Overflowed => Fail(Undefined))
    case Lods(w) =>
      if PageAt(s.pages, s.regs[0]) !in {ReadOnly, ReadWrite} then Raise(INVALID_ACCESS)
      else if s.regs[0] + Bytes(w) > |s.mem| then Fail(Undefined)
      else Ok(s.(regs := s.regs[1 := ReadLe(s.mem, s.regs[0], w)]))
    case Stos(w) =>
      if PageAt(s.pages, s.regs[0]) != ReadWrite then Raise(INVALID_ACCESS)
      else if s.regs[0] + Bytes(w) > |s.mem| then Fail(Undefined)
      else Ok(s.(mem := WriteLe(s.mem, s.regs[0], w, s.regs[1])))
    case Other(_) => Fail(Undefined)
  }

  function ActReg(x: RegOp, r: byte, s: State): Action
    requires !x.Syscall?
  {
    match x
    case Pushr => if r <= 21 then PushData(s, s.regs[r]) else Raise(INVALID_OPCODE)
    case Popr => WithRegister(s.(ds := Popped(s.ds, 1)), r, Low32(TopOf(s.ds)))
    case Pushar => if r <= 21 then PushCall(s, s.regs[r]) else Raise(INVALID_OPCODE)
    case Popar => WithRegister(s.(cs := Popped(s.cs, 1)), r, Low32(TopOf(s.cs)))
    case Incr => if r <= 21 then WithRegister(s, r, Low32((s.regs[r] as int) + 1)) else Raise(INVALID_OPCODE)
    case Decr => if r <= 21 then WithRegister(s, r, Low32((s.regs[r] as int) - 1)) else Raise(INVALID_OPCODE)
    case Loadsr =>
      if r > 21 then Raise(INVALID_OPCODE)
      else if 1 <= s.regs[r] <= |s.ds| then PushData(s, Item(s.ds, s.regs[r]))
      else Fail(Undefined)
    case SetE => if s.flags.eq then WithRegister(s, r, 1) else Ok(s)
    case SetNe => if !s.flags.eq then WithRegister(s, r, 1) else Ok(s)
    case SetG => if s.flags.gt then WithRegister(s, r, 1) else Ok(s)
    case SetL => if s.flags.lt then WithRegister(s, r, 1) else Ok(s)
    case Storesr => Fail(Undefined)
    case Int => Fail(Undefined)
  }

  function ActImm(y: ImmOp, n: u32, s: State): Action
    requires !y.Call? && !y.CallRel? && !y.Jump? && !y.JumpRel?
  {
    match y
    case Push => PushData(s, n)
    case Popn => Ok(s.(ds := Popped(s.ds, n)))
    case Pusha => PushCall(s, n)
    case Loads => if 1 <= n <= |s.ds| then PushData(s, Item(s.ds, n)) else Fail(Undefined)
    case Stores => Fail(Undefined)
  }

  /** Instructions that leave the straight line of code, or the machine. */
  predicate Branches(i: Instr) {
    match i
    case Plain(p) => p.Exit? || p.Ret?
    case Reg(x, _) => x.Syscall?
    case Imm(y, _) => y.Call? || y.CallRel? || y.Jump? || y.JumpRel?
    case _ => false
  }

  function Act(i: Instr, s: State): Action
    requires !Branches(i)
  {
    match i
    case Plain(p) => ActPlain(p, s)
    case Reg(x, r) => ActReg(x, r, s)
    case Imm(y, n) => ActImm(y, n, s)
    case RegImm(z, r, n) => if z.Loadr? then WithRegister(s, r, n) else Fail(Undefined)
    case Loadr64(r, q) => WithRegister(s, r, Low32(q))
    case Push64(q) => PushData(s, q)
  }

  function Taken(c: JumpIf, f: Flags): bool {
    match c
    case Always => true
    case IfEqual => f.eq
    case IfLess => f.lt
    case IfGreater => f.gt
    case IfZero => f.zero
  }

  /** `handle_cpu_exception`: the handler runs with R0 on the data stack. */
  function HandleException(s: State, id: nat): Outcome
    requires id < 4
  {
    if s.faulted then Stuck(FaultInHandler)
    else if s.handlers[id] == 0 then Stuck(Unhandled(id))
    else if |s.ds| >= s.limit then Stuck(StackOverflow)
    else Next(s.(ds := s.ds + [s.regs[0]], ip := s.handlers[id], faulted := true))
  }

  function EnterCall(s: State, target: u32): Outcome {
    if |s.cs| >= s.limit then Stuck(StackOverflow)
    else Next(s.(cs := s.cs + [Low32(s.ip + 5)], ip := target))
  }

  function Branch(i: Instr, s: State): Outcome
    requires Branches(i)
  {
    match i
    case Plain(p) =>
      if p.Exit? then Halt else Next(s.(cs := Popped(s.cs, 1), ip := Low32(TopOf(s.cs))))
    case Reg(_, n) => Trap(n)
    case Imm(y, n) =>
      match y
      case Call => EnterCall(s, n)
      case CallRel => EnterCall(s, Low32(s.ip + n))
      case Jump(c) => Next(s.(ip := if Taken(c, s.flags) then n else Low32(s.ip + 5)))
      case JumpRel(c) => Next(s.(ip := Low32(s.ip + if Taken(c, s.flags) then n else 5)))
  }

  function Perform(i: Instr, s: State): Outcome {
    if Branches(i) then Branch(i, s)
    else
      match Act(i, s)
      case Ok(t) => Next(t.(ip := Low32(s.ip + Increment(i))))
      case Raise(id) => if id < 4 then HandleException(s, id) else Stuck(Undefined)
      case Fail(why) => Stuck(why)
  }

  /** One call of the instruction emulator. */
  function Step(s: State): Outcome {
    match Decode(s.mem, s.ip)
    case Instruction(i) => Perform(i, s)
    case UnknownOpcode => HandleException(s, INVALID_OPCODE)
    case PastEnd => Stuck(Undefined)
  }

  /** One turn of the loop when a single job is running. */
  function Cycle(s: State): Outcome {
    if PageAt(s.pages, s.ip) != Executable then Stuck(NotExecutable) else Step(s)
  }

  function Run(n: nat, s: State): Outcome {
    if n == 0 then Next(s)
    else
      match Cycle(s)
      case Next(t) => Run(n - 1, t)
      case stop => stop
  }

  lemma {:induction false} RunAppend(m: nat, n: nat, s: State)
    requires Run(m, s).Next?
    ensures Run(m + n, s) == Run(n, Run(m, s).s)
  {
    hide Cycle;
    if m > 0 {
      RunAppend(m - 1, n, Cycle(s).s);
    }
  }
}
