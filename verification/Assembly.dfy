/** Symbolic assembly as the T++ compiler prints it, the assembler's placing of
    labels, and runs of straight-line code. */
module Assembly {
  import opened Words
  import opened Isa
  import opened Machine

  /** Names the assembler resolves to addresses. */
  datatype Symbol =
    | Cell(x: string)        // storage of a variable
    | Entry(f: string)       // first instruction of a function
    | Init                   // __internal_init
    | Start                  // main, where the loaded program begins
    | IfEnd(line: nat)       // i<line>
    | WhileTop(n: nat)       // while<n>
    | WhileEnd(n: nat)       // endwhile<n>

  type Symbols = Symbol -> u32

  datatype Asm =
    | Op(i: Instr)
    | LoadAddress(r: byte, sym: Symbol)
    | CallTo(sym: Symbol)             // call, absolute
    | CallNear(sym: Symbol)           // calll, relative
    | JumpIfEqual(sym: Symbol)        // je, absolute
    | JumpIfEqualNear(sym: Symbol)    // jel, relative
    | JumpNear(sym: Symbol)           // jmpl, relative
    | Label(sym: Symbol)

  predicate ValidAsm(x: Asm) {
    x.Op? ==> Valid(x.i)
  }

  /** The instruction a line stands for when it is placed at address `a`. */
  function Resolve(x: Asm, a: int, sym: Symbols): Instr
    requires !x.Label?
  {
    match x
    case Op(i) => i
    case LoadAddress(r, l) => RegImm(Loadr, r, sym(l))
    case CallTo(l) => Imm(Call, sym(l))
    case CallNear(l) => Imm(CallRel, Low32(sym(l) - a))
    case JumpIfEqual(l) => Imm(Jump(IfEqual), sym(l))
    case JumpIfEqualNear(l) => Imm(JumpRel(IfEqual), Low32(sym(l) - a))
    case JumpNear(l) => Imm(JumpRel(Always), Low32(sym(l) - a))
  }

  function Length(x: Asm): nat {
    match x
    case Op(i) => Increment(i)
    case LoadAddress(_, _) => 6
    case Label(_) => 0
    case _ => 5
  }

  function Size(code: seq<Asm>): nat {
    if code == [] then 0 else Length(code[0]) + Size(code[1..])
  }

  predicate InText(pages: seq<Page>, a: nat, n: nat) {
    forall b :: a <= b < a + n ==> PageAt(pages, b) == Executable
  }

  predicate Placed(m: seq<byte>, pages: seq<Page>, a: nat, x: Asm, sym: Symbols) {
    if x.Label? then sym(x.sym) == a
    else
      && BytesAt(m, a, Encode(Resolve(x, a, sym)))
      && InText(pages, a, Length(x))
  }

  /** `code` lies in executable memory from address `a` on, and every label in
      it stands where the symbol table says. */
  predicate Loaded(m: seq<byte>, pages: seq<Page>, a: nat, code: seq<Asm>, sym: Symbols)
    decreases |code|
  {
    code == [] || (Placed(m, pages, a, code[0], sym) && Loaded(m, pages, a + Length(code[0]), code[1..], sym))
  }

  lemma {:induction false} SizeAppend(x: seq<Asm>, y: seq<Asm>)
    ensures Size(x + y) == Size(x) + Size(y)
  {
    if x == [] {
      assert x + y == y;
    } else {
      assert (x + y)[1..] == x[1..] + y;
      SizeAppend(x[1..], y);
    }
  }

  lemma {:induction false} LoadedAppend(m: seq<byte>, pages: seq<Page>, a: nat, x: seq<Asm>, y: seq<Asm>, sym: Symbols)
    ensures Loaded(m, pages, a, x + y, sym) <==>
            Loaded(m, pages, a, x, sym) && Loaded(m, pages, a + Size(x), y, sym)
    decreases |x|
  {
    hide Placed;
    if x == [] {
      assert x + y == y;
    } else {
      assert (x + y)[1..] == x[1..] + y;
      LoadedAppend(m, pages, a + Length(x[0]), x[1..], y, sym);
    }
  }

  /** The instruction a loaded line stands for is the one the processor fetches. */
  lemma FetchPlaced(s: State, x: Asm, sym: Symbols)
    requires !x.Label? && ValidAsm(x) && Placed(s.mem, s.pages, s.ip, x, sym)
    ensures Cycle(s) == Perform(Resolve(x, s.ip, sym), s)
    ensures s.ip + Length(x) <= |s.mem|
    ensures Length(x) == Increment(Resolve(x, s.ip, sym))
  {
    hide Perform;
    var i := Resolve(x, s.ip, sym);
    FetchOfEncode(i, s.mem, s.ip);
    IncrementIsLength(i);
    assert PageAt(s.pages, s.ip) == Executable;
  }

  // ----- straight-line code -----

  /** Lines that neither branch, nor write memory, nor look at the instruction pointer. */
  predicate Straight(x: Asm) {
    match x
    case Op(i) => Valid(i) && !Branches(i) && !(i.Plain? && (i.p.PushIp? || i.p.Stos?))
    case LoadAddress(_, _) => true
    case _ => false
  }

  predicate AllStraight(code: seq<Asm>) {
    forall x :: x in code ==> Straight(x)
  }

  function ActLine(x: Asm, s: State, sym: Symbols): Action
    requires Straight(x)
  {
    Act(Resolve(x, 0, sym), s)
  }

  /** The effect of lines `k`, `k + 1`, ... of straight code, instruction pointer left out. */
  function Flow(code: seq<Asm>, k: nat, s: State, sym: Symbols): Action
    requires k <= |code| && AllStraight(code)
    decreases |code| - k
  {
    if k == |code| then Ok(s)
    else
      match ActLine(code[k], s, sym)
      case Ok(t) => Flow(code, k + 1, t, sym)
      case other => other
  }

  predicate SameButIp(s: State, ip: u32, a: Action, b: Action) {
    a.Ok? ==>
      && a.s.ip == s.ip && a.s.mem == s.mem && a.s.pages == s.pages
      && b == Ok(a.s.(ip := ip))
  }

  lemma PlainIgnoresIp(p: PlainOp, s: State, ip: u32)
    requires !p.Exit? && !p.Ret? && !p.PushIp? && !p.Stos?
    ensures SameButIp(s, ip, ActPlain(p, s), ActPlain(p, s.(ip := ip)))
  {
    hide Compute, Compare, ReadLe, PageAt, Item, Popped;
  }

  lemma RegIgnoresIp(x: RegOp, r: byte, s: State, ip: u32)
    requires !x.Syscall?
    ensures SameButIp(s, ip, ActReg(x, r, s), ActReg(x, r, s.(ip := ip)))
  {
    hide Item, Popped, TopOf;
  }

  lemma ActIgnoresIp(x: Asm, s: State, ip: u32, sym: Symbols)
    requires Straight(x)
    ensures SameButIp(s, ip, ActLine(x, s, sym), ActLine(x, s.(ip := ip), sym))
  {
    hide ActPlain, ActReg;
    match Resolve(x, 0, sym)
    case Plain(p) => PlainIgnoresIp(p, s, ip);
    case Reg(o, r) => RegIgnoresIp(o, r, s, ip);
    case _ =>
  }

  lemma RunOne(s: State, t: State)
    requires Cycle(s) == Next(t)
    ensures Run(1, s) == Next(t)
  {
    hide Cycle;
    assert Run(0, t) == Next(t);
  }

  lemma StepStraight(s: State, x: Asm, t: State, sym: Symbols)
    requires Straight(x) && Placed(s.mem, s.pages, s.ip, x, sym)
    requires ActLine(x, s, sym) == Ok(t)
    ensures s.ip + Length(x) < 0x1_0000_0000
    ensures Run(1, s) == Next(t.(ip := s.ip + Length(x)))
  {
    hide Cycle, Act, Run;
    FetchPlaced(s, x, sym);
    assert Resolve(x, s.ip, sym) == Resolve(x, 0, sym);
    RunOne(s, t.(ip := s.ip + Length(x)));
  }

  /** Loaded straight-line code runs to its end and does what `Flow` says. */
  lemma {:induction false} RunStraight(code: seq<Asm>, k: nat, s: State, t: State, sym: Symbols)
    requires k <= |code| && AllStraight(code)
    requires Loaded(s.mem, s.pages, s.ip, code[k..], sym)
    requires Flow(code, k, s, sym) == Ok(t)
    ensures s.ip + Size(code[k..]) < 0x1_0000_0000
    ensures Run(|code| - k, s) == Next(t.(ip := s.ip + Size(code[k..])))
    ensures t.mem == s.mem && t.pages == s.pages
    decreases |code| - k
  {
    hide Cycle, ActLine, Run, Placed;
    if k < |code| {
      assert code[k..][1..] == code[k + 1..];
      var u := ActLine(code[k], s, sym).s;
      StepStraight(s, code[k], u, sym);
      ActIgnoresIp(code[k], s, s.ip, sym);
      var v := u.(ip := s.ip + Length(code[k]));
      FlowIgnoresIp(code, k + 1, u, v.ip, t, sym);
      RunStraight(code, k + 1, v, t.(ip := v.ip), sym);
      RunAppend(1, |code| - k - 1, s);
    } else {
      RunNone(s);
    }
  }

  lemma RunNone(s: State)
    ensures Run(0, s) == Next(s)
  {
  }

  lemma {:induction false} FlowIgnoresIp(code: seq<Asm>, k: nat, s: State, ip: u32, t: State, sym: Symbols)
    requires k <= |code| && AllStraight(code)
    requires Flow(code, k, s, sym) == Ok(t)
    ensures Flow(code, k, s.(ip := ip), sym) == Ok(t.(ip := ip))
    decreases |code| - k
  {
    hide ActLine;
    if k < |code| {
      ActIgnoresIp(code[k], s, ip, sym);
      FlowIgnoresIp(code, k + 1, ActLine(code[k], s, sym).s, ip, t, sym);
    }
  }
}
