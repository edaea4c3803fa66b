/** What each straight-line piece of compiled code does to the processor. */
module Chunks {
  import opened Words
  import opened Isa
  import opened Machine
  import opened Assembly
  import opened Tpp
  import opened Codegen

  lemma PopPush(st: seq<u64>, v: u64)
    ensures Popped(st + [v], 1) == st && TopOf(st + [v]) == v
  {
  }

  // ----- one line at a time -----

  predicate Moves(code: seq<Asm>, k: nat, s: State, t: State, sym: Symbols) {
    && AllStraight(code) && k < |code|
    && Flow(code, k, s, sym) == Flow(code, k + 1, t, sym)
  }

  lemma FlowPush(code: seq<Asm>, k: nat, s: State, r: byte, sym: Symbols) returns (t: State)
    requires AllStraight(code) && k < |code| && code[k] == PushReg(r)
    requires r <= 21 && |s.ds| < s.limit
    ensures t == s.(ds := s.ds + [s.regs[r]]) && Moves(code, k, s, t, sym)
  {
    t := s.(ds := s.ds + [s.regs[r]]);
    assert ActLine(code[k], s, sym) == Ok(t);
  }

  lemma FlowPop(code: seq<Asm>, k: nat, s: State, r: byte, base: seq<u64>, v: u64, sym: Symbols) returns (t: State)
    requires AllStraight(code) && k < |code| && code[k] == PopReg(r)
    requires r <= 21 && s.ds == base + [v]
    ensures t == s.(ds := base, regs := s.regs[r := Low32(v)]) && Moves(code, k, s, t, sym)
  {
    t := s.(ds := base, regs := s.regs[r := Low32(v)]);
    assert Popped(s.ds, 1) == base;
    assert ActLine(code[k], s, sym) == Ok(t);
  }

  lemma FlowPushImm(code: seq<Asm>, k: nat, s: State, n: int, sym: Symbols) returns (t: State)
    requires AllStraight(code) && k < |code| && code[k] == PushImm(n)
    requires |s.ds| < s.limit
    ensures t == s.(ds := s.ds + [Low32(n)]) && Moves(code, k, s, t, sym)
  {
    t := s.(ds := s.ds + [Low32(n)]);
    assert ActLine(code[k], s, sym) == Ok(t);
  }

  lemma FlowDrop(code: seq<Asm>, k: nat, s: State, n: nat, base: seq<u64>, sym: Symbols) returns (t: State)
    requires AllStraight(code) && k < |code| && code[k] == DropN(n)
    requires n < 0x1_0000_0000 && |s.ds| == |base| + n && s.ds[..|base|] == base
    ensures t == s.(ds := base) && Moves(code, k, s, t, sym)
  {
    t := s.(ds := base);
    assert Low32(n) == n;
    assert Popped(s.ds, n) == base;
    assert ActLine(code[k], s, sym) == Ok(t);
  }

  lemma FlowDiscard(code: seq<Asm>, k: nat, s: State, base: seq<u64>, v: u64, sym: Symbols) returns (t: State)
    requires AllStraight(code) && k < |code| && code[k] == Do0(Pop)
    requires s.ds == base + [v]
    ensures t == s.(ds := base) && Moves(code, k, s, t, sym)
  {
    t := s.(ds := base);
    assert Popped(s.ds, 1) == base;
    assert ActLine(code[k], s, sym) == Ok(t);
  }

  lemma FlowAlu(code: seq<Asm>, k: nat, s: State, op: AluOp, base: seq<u64>, x: u64, y: u64, v: u64, sym: Symbols)
    returns (t: State)
    requires AllStraight(code) && k < |code| && code[k] == Do0(Alu(op))
    requires s.ds == base + [x, y] && Compute(op, x, y) == Value(v) && |s.ds| < s.limit
    ensures t == s.(ds := s.ds + [v]) && Moves(code, k, s, t, sym)
  {
    hide Compute;
    t := s.(ds := s.ds + [v]);
    assert Item(s.ds, 2) == x && Item(s.ds, 1) == y;
    assert ActLine(code[k], s, sym) == Ok(t);
  }

  lemma FlowCompare(code: seq<Asm>, k: nat, s: State, base: seq<u64>, x: u32, y: u32, sym: Symbols) returns (t: State)
    requires AllStraight(code) && k < |code| && code[k] == Do0(Cmp)
    requires s.ds == base + [x, y]
    ensures t == s.(flags := Compare(x, y)) && Moves(code, k, s, t, sym)
  {
    t := s.(flags := Compare(x, y));
    assert Item(s.ds, 2) == x && Item(s.ds, 1) == y;
    assert ActLine(code[k], s, sym) == Ok(t);
  }

  lemma FlowLoad(code: seq<Asm>, k: nat, s: State, r: byte, n: u32, sym: Symbols) returns (t: State)
    requires AllStraight(code) && k < |code| && !code[k].Label? && Resolve(code[k], 0, sym) == RegImm(Loadr, r, n)
    requires r <= 21
    ensures t == s.(regs := s.regs[r := n]) && Moves(code, k, s, t, sym)
  {
    t := s.(regs := s.regs[r := n]);
    assert ActLine(code[k], s, sym) == Ok(t);
  }

  // ----- the pieces -----

  lemma AluTailFlow(first: byte, second: byte, op: AluOp, s: State, sym: Symbols, v: u64)
    requires first <= 21 && second <= 21 && |s.ds| + 3 <= s.limit
    requires Compute(op, s.regs[first], s.regs[second]) == Value(v)
    ensures Flow(AluTail(first, second, op), 0, s, sym) == Ok(s.(regs := s.regs[1 := Low32(v)]))
  {
    hide Compute, ActLine;
    var code := AluTail(first, second, op);
    var x, y := s.regs[first], s.regs[second];
    var s1 := FlowPush(code, 0, s, first, sym);
    var s2 := FlowPush(code, 1, s1, second, sym);
    assert s2.ds == s.ds + [x, y];
    var s3 := FlowAlu(code, 2, s2, op, s.ds, x, y, v, sym);
    var s4 := FlowPop(code, 3, s3, 1, s2.ds, v, sym);
    var s5 := FlowDrop(code, 4, s4, 2, s.ds, sym);
  }

  /** Everything but R1, R2, R6, R8, R12, R0, R7, the flags and the instruction
      pointer is as before: both stacks, memory, the utility registers. */
  predicate Calm(s: State, t: State) {
    && t.ds == s.ds && t.cs == s.cs && t.mem == s.mem && Fixed(s, t)
  }

  predicate Fixed(s: State, t: State) {
    && t.pages == s.pages && t.limit == s.limit && t.handlers == s.handlers && t.faulted == s.faulted
    && t.regs[4] == s.regs[4] && t.regs[5] == s.regs[5] && t.regs[9] == s.regs[9] && t.regs[10] == s.regs[10]
  }

  /** Only the flags, the result register R1 and the scratch registers R2 and
      R12 may differ. */
  predicate Light(s: State, t: State) {
    && t == s.(regs := t.regs, flags := t.flags)
    && forall r :: 0 <= r < 22 && r != 1 && r != 2 && r != 12 ==> t.regs[r] == s.regs[r]
  }

  // ----- operators -----

  function AluOf(op: BinOp): AluOp
    requires Arithmetic(op)
  {
    match op
    case Plus => Add case Minus => Sub case Times => Mul case Over => Div case Modulo => Mod
    case BitAnd => And case BitOr => Or case BitXor => Xor case AndAlso => LAnd case OrElse => LOr
  }

  predicate Arithmetic(op: BinOp) {
    !op.Equal? && !op.NotEqual? && !op.AtLeast? && !op.AtMost? && !op.Above? && !op.Silent?
  }

  predicate Commuted(op: BinOp) {
    op.Plus? || op.Times? || op.AndAlso? || op.OrElse?
  }

  lemma Low32Small(x: int)
    requires 0 <= x < 0x1_0000_0000
    ensures Low32(x) == x && Low64(x) == x
  {
  }

  lemma BitwiseComm(op: BitOp, a: u32, b: u32)
    ensures BitCell(op, a, b) == BitWord(op, a, b)
  {
  }

  lemma TimesCell(a: u32, b: u32)
    ensures Low32(Low64(b * a)) == Low32(a * b)
  {
    var p, q := a * b, b * a;
    assert p == q;
    hide Low32, Low64;
    Low32OfLow64(p);
  }

  lemma OverCell(a: u32, b: u32)
    ensures b != 0 ==> Compute(Div, a, b).Value? && Low32(Compute(Div, a, b).v) == a / b
    ensures b == 0 ==> Compute(Div, a, b) == DivisionByZero
  {
    if b != 0 {
      DivideBound(a, b);
      Low32Small(a / b);
    }
  }

  lemma ModuloCell(a: u32, b: u32)
    ensures b != 0 ==> Low32(a % b) == a % b
  {
    if b != 0 {
      Low32Small(a % b);
    }
  }

  /** On cells that hold 32-bit values the 64-bit unit computes the 32-bit
      result, once the register truncates it. */
  lemma ComputeIsBinVal(op: BinOp, a: u32, b: u32)
    requires Arithmetic(op)
    ensures var x, y := if Commuted(op) then b else a, if Commuted(op) then a else b;
            match BinVal(op, a, b)
            case Some(v) => Compute(AluOf(op), x, y).Value? && Low32(Compute(AluOf(op), x, y).v) == v
            case None => Compute(AluOf(op), x, y) == DivisionByZero
  {
    hide Low32, Low64, Signed, TruncDiv, BitCell, BitWord;
    match op
    case Plus => Low32OfLow64(b + a);
    case Minus => Low32OfLow64(a - b);
    case Times => TimesCell(a, b);
    case Over => OverCell(a, b);
    case Modulo => ModuloCell(a, b);
    case BitAnd => BitwiseComm(AndBits, a, b); Low32Small(BitWord(AndBits, a, b));
    case BitOr => BitwiseComm(OrBits, a, b); Low32Small(BitWord(OrBits, a, b));
    case BitXor => Low32Small(a); Low32Small(b); Low32Small(BitWord(XorBits, a, b));
    case AndAlso => Low32Small(BinVal(op, a, b).value);
    case OrElse => Low32Small(BinVal(op, a, b).value);
  }

  lemma DivideBound(a: nat, b: nat)
    requires b > 0
    ensures 0 <= a / b <= a
  {
    if a / b > a {
      assert a >= b * (a / b);
      Scale(b, a / b);
    }
  }

  lemma Scale(b: nat, q: nat)
    requires b > 0
    ensures b * q >= q
  {
  }

  lemma FlowSet(code: seq<Asm>, k: nat, s: State, x: RegOp, on: bool, sym: Symbols) returns (t: State)
    requires AllStraight(code) && k < |code| && code[k] == SetR12(x)
    requires x in {SetE, SetNe, SetG, SetL}
    requires on == (match x case SetE => s.flags.eq case SetNe => !s.flags.eq case SetG => s.flags.gt case _ => s.flags.lt)
    ensures t == (if on then s.(regs := s.regs[12 := 1]) else s) && Moves(code, k, s, t, sym)
  {
    t := if on then s.(regs := s.regs[12 := 1]) else s;
    assert ActLine(code[k], s, sym) == Ok(t);
  }

  lemma FlowMove(code: seq<Asm>, k: nat, s: State, to: byte, from: byte, sym: Symbols) returns (t: State)
    requires AllStraight(code) && k + 1 < |code| && code[k] == PushReg(from) && code[k + 1] == PopReg(to)
    requires to <= 21 && from <= 21 && |s.ds| < s.limit
    ensures t == s.(regs := s.regs[to := s.regs[from]])
    ensures Flow(code, k, s, sym) == Flow(code, k + 2, t, sym)
  {
    hide ActLine;
    var u := FlowPush(code, k, s, from, sym);
    t := FlowPop(code, k + 1, u, to, s.ds, s.regs[from], sym);
  }

  /** cmpr R2, R1; loadr R12, 0 */
  lemma ComparePrefix(code: seq<Asm>, s: State, sym: Symbols) returns (t: State)
    requires AllStraight(code) && |code| >= 6 && code[..6] == CompareTail([])[..6]
    requires |s.ds| + 2 <= s.limit
    ensures t == s.(regs := s.regs[12 := 0], flags := Compare(s.regs[2], s.regs[1]))
    ensures Flow(code, 0, s, sym) == Flow(code, 6, t, sym)
  {
    hide ActLine, Compare;
    assert forall i :: 0 <= i < 6 ==> code[i] == code[..6][i];
    var a, b := s.regs[2], s.regs[1];
    var s1 := FlowPush(code, 0, s, 2, sym);
    var s2 := FlowPush(code, 1, s1, 1, sym);
    assert s2.ds == s.ds + [a, b];
    var s3 := FlowCompare(code, 2, s2, s.ds, a, b, sym);
    var s4 := FlowPop(code, 3, s3, 1, s1.ds, b, sym);
    var s5 := FlowPop(code, 4, s4, 2, s.ds, a, sym);
    assert s5.regs == s.regs;
    t := FlowLoad(code, 5, s5, 12, 0, sym);
  }

  lemma CompareOneFlow(x: RegOp, on: bool, s: State, sym: Symbols) returns (t: State)
    requires x in {SetE, SetNe, SetG, SetL} && |s.ds| + 2 <= s.limit
    requires on == var f := Compare(s.regs[2], s.regs[1]);
                   (match x case SetE => f.eq case SetNe => !f.eq case SetG => f.gt case _ => f.lt)
    ensures AllStraight(CompareTail([SetR12(x)])) && Flow(CompareTail([SetR12(x)]), 0, s, sym) == Ok(t)
    ensures Calm(s, t) && Light(s, t) && t.regs[1] == Truth(on)
  {
    hide ActLine, Compare;
    var code := CompareTail([SetR12(x)]);
    assert code[..6] == CompareTail([])[..6];
    var s1 := ComparePrefix(code, s, sym);
    var s2 := FlowSet(code, 6, s1, x, on, sym);
    t := FlowMove(code, 7, s2, 1, 12, sym);
  }

  lemma CompareTwoFlow(x: RegOp, s: State, sym: Symbols) returns (t: State)
    requires x in {SetG, SetL} && |s.ds| + 2 <= s.limit
    ensures AllStraight(CompareTail([SetR12(SetE), SetR12(x)]))
    ensures Flow(CompareTail([SetR12(SetE), SetR12(x)]), 0, s, sym) == Ok(t)
    ensures Calm(s, t) && Light(s, t)
    ensures t.regs[1] == Truth(if x.SetG? then s.regs[2] >= s.regs[1] else s.regs[2] <= s.regs[1])
  {
    hide ActLine;
    var code := CompareTail([SetR12(SetE), SetR12(x)]);
    assert code[..6] == CompareTail([])[..6];
    var s1 := ComparePrefix(code, s, sym);
    var s2 := FlowSet(code, 6, s1, SetE, s1.flags.eq, sym);
    var s3 := FlowSet(code, 7, s2, x, if x.SetG? then s1.flags.gt else s1.flags.lt, sym);
    t := FlowMove(code, 8, s3, 1, 12, sym);
  }

  lemma ArithmeticFlow(op: BinOp, s: State, v: u32, sym: Symbols) returns (t: State)
    requires Arithmetic(op)
    requires BinVal(op, s.regs[2], s.regs[1]) == Some(v) && |s.ds| + 3 <= s.limit
    ensures AllStraight(OperatorCode(op)) && Flow(OperatorCode(op), 0, s, sym) == Ok(t)
    ensures Calm(s, t) && Light(s, t) && t.regs[1] == v
  {
    hide Flow, Compute;
    var a, b := s.regs[2], s.regs[1];
    ComputeIsBinVal(op, a, b);
    var first, second := if Commuted(op) then 1 else 2, if Commuted(op) then 2 else 1;
    var c := Compute(AluOf(op), s.regs[first], s.regs[second]).v;
    assert OperatorCode(op) == AluTail(first, second, AluOf(op));
    AluTailFlow(first, second, AluOf(op), s, sym, c);
    t := s.(regs := s.regs[1 := Low32(c)]);
  }

  /** The code after `popar R2` leaves the operator's value in R1. */
  lemma OperatorFlow(op: BinOp, s: State, v: u32, sym: Symbols) returns (t: State)
    requires BinVal(op, s.regs[2], s.regs[1]) == Some(v) && |s.ds| + 3 <= s.limit
    ensures AllStraight(OperatorCode(op)) && Flow(OperatorCode(op), 0, s, sym) == Ok(t)
    ensures Calm(s, t) && Light(s, t) && t.regs[1] == v
  {
    hide Flow, OperatorCode;
    if Arithmetic(op) {
      t := ArithmeticFlow(op, s, v, sym);
    } else if op.Silent? {
      t := s;
      FlowNothing(s, sym);
      assert OperatorCode(op) == [] by { SilentCode(op); }
    } else {
      t := ComparisonFlow(op, s, v, sym);
    }
  }

  lemma SilentCode(op: BinOp)
    requires op.Silent?
    ensures OperatorCode(op) == []
  {
  }

  lemma FlowNothing(s: State, sym: Symbols)
    ensures Flow([], 0, s, sym) == Ok(s)
  {
  }

  lemma ComparisonFlow(op: BinOp, s: State, v: u32, sym: Symbols) returns (t: State)
    requires !Arithmetic(op) && !op.Silent?
    requires BinVal(op, s.regs[2], s.regs[1]) == Some(v) && |s.ds| + 3 <= s.limit
    ensures AllStraight(OperatorCode(op)) && Flow(OperatorCode(op), 0, s, sym) == Ok(t)
    ensures Calm(s, t) && Light(s, t) && t.regs[1] == v
  {
    hide Flow, AllStraight, CompareTail, Light, Calm;
    match op
    case Equal => t := CompareOneFlow(SetE, s.regs[2] == s.regs[1], s, sym);
    case NotEqual => t := CompareOneFlow(SetNe, s.regs[2] != s.regs[1], s, sym);
    case Above => t := CompareOneFlow(SetG, s.regs[2] > s.regs[1], s, sym);
    case AtLeast => t := CompareTwoFlow(SetG, s, sym);
    case AtMost => t := CompareTwoFlow(SetL, s, sym);
  }

  // ----- the other pieces -----

  lemma UnaryFlow(p: PlainOp, s: State, v: u64, sym: Symbols)
    requires (p == Not && v == UNDERFLOW - s.regs[1]) || (p == Neg && v == Truth(s.regs[1] == 0))
    requires |s.ds| + 2 <= s.limit
    ensures Flow(UnaryTail(p), 0, s, sym) == Ok(s.(regs := s.regs[1 := Low32(v)]))
  {
    hide Flow;
    var code := UnaryTail(p);
    var s1 := FlowPush(code, 0, s, 1, sym);
    var s2 := FlowUnary(code, 1, s1, p, s.regs[1], v, sym);
    var s3 := FlowPop(code, 2, s2, 1, s1.ds, v, sym);
    var s4 := FlowDiscard(code, 3, s3, s.ds, s.regs[1], sym);
    FlowEnd(code, s4, sym);
  }

  lemma FlowUnary(code: seq<Asm>, k: nat, s: State, p: PlainOp, x: u32, v: u64, sym: Symbols) returns (t: State)
    requires AllStraight(code) && k < |code| && code[k] == Do0(p)
    requires s.ds != [] && s.ds[|s.ds| - 1] == x && |s.ds| < s.limit
    requires (p == Not && v == UNDERFLOW - x) || (p == Neg && v == Truth(x == 0))
    ensures t == s.(ds := s.ds + [v]) && Moves(code, k, s, t, sym)
  {
    t := s.(ds := s.ds + [v]);
    assert Item(s.ds, 1) == x;
    assert ActLine(code[k], s, sym) == Ok(t);
  }

  lemma FlowEnd(code: seq<Asm>, s: State, sym: Symbols)
    requires AllStraight(code)
    ensures Flow(code, |code|, s, sym) == Ok(s)
  {
  }

  /** loadrm leaves the variable's value in R1 and R0 as it was. */
  lemma LoadVariableFlow(x: string, s: State, v: u32, sym: Symbols)
    requires PageAt(s.pages, sym(Cell(x))) == ReadWrite
    requires sym(Cell(x)) + 4 <= |s.mem| && Imm32(s.mem, sym(Cell(x))) == v
    requires |s.ds| + 2 <= s.limit
    ensures Flow(LoadVariable(x), 0, s, sym) == Ok(s.(regs := s.regs[1 := v]))
  {
    hide Flow, Imm32, PageAt, ReadLe, Low32;
    var code := LoadVariable(x);
    var a := sym(Cell(x));
    var s1 := FlowPush(code, 0, s, 0, sym);
    var s2 := FlowLoad(code, 1, s1, 0, a, sym);
    var s3 := FlowFetchWord(code, 2, s2, a, v, sym);
    var s4 := FlowPush(code, 3, s3, 1, sym);
    Low32Small(v);
    Low32Small(s.regs[0]);
    var s5 := FlowPop(code, 4, s4, 1, s3.ds, v, sym);
    var s6 := FlowPop(code, 5, s5, 0, s.ds, s.regs[0], sym);
    assert s6.regs == s.regs[1 := v];
    FlowEnd(code, s6, sym);
  }

  lemma FlowFetchWord(code: seq<Asm>, k: nat, s: State, a: u32, v: u32, sym: Symbols) returns (t: State)
    requires AllStraight(code) && k < |code| && code[k] == Do0(Lods(Dword))
    requires s.regs[0] == a && PageAt(s.pages, a) == ReadWrite && a + 4 <= |s.mem| && Imm32(s.mem, a) == v
    ensures t == s.(regs := s.regs[1 := v]) && Moves(code, k, s, t, sym)
  {
    t := s.(regs := s.regs[1 := v]);
    assert ActLine(code[k], s, sym) == Ok(t);
  }

  /** cmpri R1, 0 sets the equal flag exactly when R1 is zero. */
  lemma CompareZeroFlow(s: State, sym: Symbols)
    requires |s.ds| + 2 <= s.limit
    ensures Flow(CompareZero(), 0, s, sym) == Ok(s.(flags := Compare(s.regs[1], 0)))
  {
    hide Flow, Compare;
    var code := CompareZero();
    var v := s.regs[1];
    var s1 := FlowPush(code, 0, s, 1, sym);
    var s2 := FlowPushImm(code, 1, s1, 0, sym);
    assert s2.ds == s.ds + [v, 0];
    var s3 := FlowCompare(code, 2, s2, s.ds, v, 0, sym);
    var s4 := FlowDiscard(code, 3, s3, s1.ds, 0, sym);
    Low32Small(v);
    var s5 := FlowPop(code, 4, s4, 1, s.ds, v, sym);
    assert s5.regs == s.regs;
    FlowEnd(code, s5, sym);
  }

  lemma SaveUtilityFlow(s: State, sym: Symbols)
    requires |s.ds| + 4 <= s.limit
    ensures Flow(SaveUtility(), 0, s, sym) ==
            Ok(s.(ds := s.ds + [s.regs[4], s.regs[5], s.regs[9], s.regs[10]]))
  {
    hide Flow;
    var code := SaveUtility();
    var s1 := FlowPush(code, 0, s, 4, sym);
    var s2 := FlowPush(code, 1, s1, 5, sym);
    var s3 := FlowPush(code, 2, s2, 9, sym);
    var s4 := FlowPush(code, 3, s3, 10, sym);
    assert s4.ds == s.ds + [s.regs[4], s.regs[5], s.regs[9], s.regs[10]];
    FlowEnd(code, s4, sym);
  }

  /** After a call the utility registers come back from the stack, the
      arguments go, and the returned value moves from R7 to R1. */
  lemma AfterCallFlow(s: State, base: seq<u64>, n: nat, saved: seq<u32>, sym: Symbols) returns (t: State)
    requires |saved| == 4 && n < 0x1_0000_0000
    requires |s.ds| == |base| + n + 4 && s.ds[..|base|] == base && s.ds[|base| + n..] == saved
    requires |base| < s.limit
    ensures Flow(AfterCall(n), 0, s, sym) == Ok(t)
    ensures t.ds == base && t.cs == s.cs && t.mem == s.mem && t.ip == s.ip
    ensures t.pages == s.pages && t.limit == s.limit && t.handlers == s.handlers && t.faulted == s.faulted
    ensures t.regs == s.regs[10 := saved[3]][9 := saved[2]][5 := saved[1]][4 := saved[0]][1 := s.regs[7]]
  {
    hide Flow;
    var code := AfterCall(n);
    assert code[..5] == [PopReg(10), PopReg(9), PopReg(5), PopReg(4), DropN(n)];
    var d := s.ds[..|base| + n];
    assert s.ds == d + [saved[0], saved[1], saved[2]] + [saved[3]];
    forall i | 0 <= i < 4 ensures Low32(saved[i]) == saved[i] { Low32Small(saved[i]); }
    var s1 := FlowPop(code, 0, s, 10, d + [saved[0], saved[1], saved[2]], saved[3], sym);
    assert s1.ds == d + [saved[0], saved[1]] + [saved[2]];
    var s2 := FlowPop(code, 1, s1, 9, d + [saved[0], saved[1]], saved[2], sym);
    assert s2.ds == d + [saved[0]] + [saved[1]];
    var s3 := FlowPop(code, 2, s2, 5, d + [saved[0]], saved[1], sym);
    var s4 := FlowPop(code, 3, s3, 4, d, saved[0], sym);
    assert s4.ds[..|base|] == base;
    var s5 := FlowDrop(code, 4, s4, n, base, sym);
    t := FlowMove(code, 5, s5, 1, 7, sym);
    FlowEnd(code, t, sym);
  }

  // ----- argument access -----

  lemma SmallSum(op: AluOp, x: u32, y: u32, v: int)
    requires (op == Add && v == x + y) || (op == Sub && v == x - y)
    requires 0 <= v < 0x1_0000_0000
    ensures Compute(op, x, y) == Value(v) && Low32(v) == v
  {
    Low32Small(v);
  }

  /** The lines of the `$` sequence one by one. */
  lemma ArgumentLines(n: nat, k: nat)
    ensures var c := ArgumentTail(n, k);
            && |c| == 21
            && c[0] == PushReg(1) && c[1] == PushImm(1) && c[2] == Do0(Alu(Sub)) && c[3] == PopReg(1)
            && c[4] == PushImm(n) && c[5] == PushImm(k) && c[6] == Do0(Alu(Add)) && c[7] == PopReg(6)
            && c[8] == PushReg(6) && c[9] == PushImm(UTILITY_REGISTERS) && c[10] == Do0(Alu(Add)) && c[11] == PopReg(6)
            && c[12] == PushReg(6) && c[13] == PushReg(1) && c[14] == Do0(Alu(Sub)) && c[15] == PopReg(1)
            && c[16] == DropN(8) && c[17] == PushReg(1) && c[18] == PopReg(8)
            && c[19] == Op(Reg(Loadsr, 8)) && c[20] == PopReg(1)
    ensures AllStraight(ArgumentTail(n, k))
  {
    hide Straight;
    ArgumentStraight(n, k);
  }

  lemma ArgumentStraight(n: nat, k: nat)
    ensures AllStraight(ArgumentTail(n, k))
  {
  }

  /** First half of the `$` sequence: R1 becomes j - 1 and R6 becomes n + k + 4. */
  lemma ArgumentFirstHalf(n: nat, k: nat, s: State, sym: Symbols) returns (t: State)
    requires 1 <= s.regs[1] && n + k + 4 < 0x1_0000_0000 && |s.ds| + 9 <= s.limit
    ensures AllStraight(ArgumentTail(n, k))
    ensures Flow(ArgumentTail(n, k), 0, s, sym) == Flow(ArgumentTail(n, k), 12, t, sym)
    ensures t == s.(regs := s.regs[1 := s.regs[1] - 1][6 := n + k + 4], ds := t.ds)
    ensures |t.ds| == |s.ds| + 6 && t.ds[..|s.ds|] == s.ds
  {
    hide Flow, Compute, ArgumentTail, AllStraight;
    ArgumentLines(n, k);
    var code, j, d := ArgumentTail(n, k), s.regs[1], s.ds;
    var s1 := FlowPush(code, 0, s, 1, sym);
    var s2 := FlowPushImm(code, 1, s1, 1, sym);
    assert s2.ds == d + [j, 1];
    SmallSum(Sub, j, 1, j - 1);
    var s3 := FlowAlu(code, 2, s2, Sub, d, j, 1, j - 1, sym);
    var s4 := FlowPop(code, 3, s3, 1, s2.ds, j - 1, sym);
    t := ArgumentAddresses(n, k, s4, sym);
  }

  lemma ArgumentAddresses(n: nat, k: nat, s: State, sym: Symbols) returns (t: State)
    requires n + k + 4 < 0x1_0000_0000 && |s.ds| + 7 <= s.limit
    ensures AllStraight(ArgumentTail(n, k))
    ensures Flow(ArgumentTail(n, k), 4, s, sym) == Flow(ArgumentTail(n, k), 12, t, sym)
    ensures t == s.(regs := s.regs[6 := n + k + 4], ds := t.ds)
    ensures |t.ds| == |s.ds| + 4 && t.ds[..|s.ds|] == s.ds
  {
    hide Flow, ArgumentTail;
    var u := ArgumentSum(n, k, s, sym);
    t := ArgumentOffset(n, k, u, sym);
  }

  /** R6 := n + k */
  lemma ArgumentSum(n: nat, k: nat, s: State, sym: Symbols) returns (t: State)
    requires n + k < 0x1_0000_0000 && |s.ds| + 3 <= s.limit
    ensures AllStraight(ArgumentTail(n, k))
    ensures Flow(ArgumentTail(n, k), 4, s, sym) == Flow(ArgumentTail(n, k), 8, t, sym)
    ensures t == s.(regs := s.regs[6 := n + k], ds := s.ds + [n, k])
  {
    hide Flow, Compute, ArgumentTail, AllStraight;
    ArgumentLines(n, k);
    var code := ArgumentTail(n, k);
    Low32Small(n);
    Low32Small(k);
    var s5 := FlowPushImm(code, 4, s, n, sym);
    var s6 := FlowPushImm(code, 5, s5, k, sym);
    assert s6.ds == s.ds + [n, k];
    SmallSum(Add, n, k, n + k);
    var s7 := FlowAlu(code, 6, s6, Add, s.ds, n, k, n + k, sym);
    t := FlowPop(code, 7, s7, 6, s6.ds, n + k, sym);
  }

  /** R6 := R6 + 4 */
  lemma ArgumentOffset(n: nat, k: nat, s: State, sym: Symbols) returns (t: State)
    requires (s.regs[6] as int) + 4 < 0x1_0000_0000 && |s.ds| + 3 <= s.limit
    ensures AllStraight(ArgumentTail(n, k))
    ensures Flow(ArgumentTail(n, k), 8, s, sym) == Flow(ArgumentTail(n, k), 12, t, sym)
    ensures t == s.(regs := s.regs[6 := (s.regs[6] as int) + 4], ds := s.ds + [s.regs[6], 4])
  {
    hide Flow, Compute, ArgumentTail, AllStraight;
    ArgumentLines(n, k);
    var code, x := ArgumentTail(n, k), s.regs[6];
    var s9 := FlowPush(code, 8, s, 6, sym);
    var s10 := FlowPushImm(code, 9, s9, UTILITY_REGISTERS, sym);
    assert s10.ds == s.ds + [x, 4];
    var y: u32 := (x as int) + 4;
    SmallSum(Add, x, 4, y);
    var s11 := FlowAlu(code, 10, s10, Add, s.ds, x, 4, y, sym);
    t := FlowPop(code, 11, s11, 6, s10.ds, y, sym);
  }

  lemma FlowLoadItem(code: seq<Asm>, k: nat, s: State, off: u32, sym: Symbols) returns (t: State)
    requires AllStraight(code) && k < |code| && code[k] == Op(Reg(Loadsr, 8))
    requires s.regs[8] == off && 1 <= off <= |s.ds| < s.limit
    ensures t == s.(ds := s.ds + [s.ds[|s.ds| - off]]) && Moves(code, k, s, t, sym)
  {
    t := s.(ds := s.ds + [s.ds[|s.ds| - off]]);
    assert ActLine(code[k], s, sym) == Ok(t);
  }

  /** The `$` sequence loads the cell `n + k + 4 - (j - 1)` below the top. */
  lemma ArgumentFlow(n: nat, k: nat, s: State, sym: Symbols) returns (t: State)
    requires 1 <= s.regs[1] && n + k + 4 < 0x1_0000_0000 && |s.ds| + 9 <= s.limit
    requires s.regs[1] <= n + k + 4 && n + k + 4 - (s.regs[1] - 1) <= |s.ds|
    ensures AllStraight(ArgumentTail(n, k)) && Flow(ArgumentTail(n, k), 0, s, sym) == Ok(t)
    ensures Calm(s, t)
    ensures t.regs[1] == Low32(s.ds[|s.ds| - (n + k + 4 - (s.regs[1] - 1))])
  {
    hide Flow, Compute, ArgumentTail, AllStraight;
    ArgumentLines(n, k);
    var code, j, d := ArgumentTail(n, k), s.regs[1], s.ds;
    var off := n + k + 4 - (j - 1);
    var h := ArgumentFirstHalf(n, k, s, sym);
    var s1 := FlowPush(code, 12, h, 6, sym);
    var s2 := FlowPush(code, 13, s1, 1, sym);
    assert s2.ds == h.ds + [n + k + 4, j - 1];
    SmallSum(Sub, n + k + 4, j - 1, off);
    var s3 := FlowAlu(code, 14, s2, Sub, h.ds, n + k + 4, j - 1, off, sym);
    var s4 := FlowPop(code, 15, s3, 1, s2.ds, off, sym);
    assert s4.ds[..|d|] == h.ds[..|d|];
    var s5 := FlowDrop(code, 16, s4, 8, d, sym);
    t := ArgumentLast(n, k, s5, off, sym);
  }

  lemma ArgumentLast(n: nat, k: nat, s: State, off: u32, sym: Symbols) returns (t: State)
    requires s.regs[1] == off && 1 <= off <= |s.ds| < s.limit
    ensures AllStraight(ArgumentTail(n, k)) && Flow(ArgumentTail(n, k), 17, s, sym) == Ok(t)
    ensures t == s.(regs := s.regs[8 := off][1 := Low32(s.ds[|s.ds| - off])])
  {
    hide Flow, Compute, ArgumentTail, AllStraight;
    ArgumentLines(n, k);
    var code := ArgumentTail(n, k);
    var s6 := FlowMove(code, 17, s, 8, 1, sym);
    var s7 := FlowLoadItem(code, 19, s6, off, sym);
    t := FlowPop(code, 20, s7, 1, s.ds, s.ds[|s.ds| - off], sym);
    FlowEnd(code, t, sym);
  }
}
