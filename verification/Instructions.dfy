/** What single instructions do, byte by byte: the opcode and operands that lie
    at the instruction pointer, and the state before and after. */
module Instructions {
  import opened Words
  import opened Isa
  import opened Machine

  const WORD := 0x1_0000_0000
  const CELL := 0x1_0000_0000_0000_0000

  /** The bytes at the instruction pointer. */
  predicate At(s: State, b: seq<byte>) {
    BytesAt(s.mem, s.ip, b)
  }

  /** One step, past `n` bytes. */
  predicate Moves(s: State, n: nat, t: State) {
    Step(s) == Next(t) && t.ip == (s.ip + n) % WORD
  }

  /** Only register `r` may differ. */
  predicate OtherRegisters(s: State, t: State, r: byte) {
    forall i :: 0 <= i < 22 && i != r ==> t.regs[i] == s.regs[i]
  }

  // ----- counting -----

  /** `decr`, 33: one less, wrapping round below 0. */
  lemma Decrements(s: State, r: byte)
    requires At(s, [0x33, r]) && r <= 21
    ensures Step(s).Next?
    ensures var t := Step(s).s;
            && Moves(s, 2, t) && t == s.(ip := t.ip, regs := t.regs) && OtherRegisters(s, t, r)
            && (t.regs[r] + 1) % WORD == s.regs[r]
  {
    FetchOfEncode(Reg(Decr, r), s.mem, s.ip);
  }

  /** `incr`, 32: one more, wrapping round to 0. */
  lemma Increments(s: State, r: byte)
    requires At(s, [0x32, r]) && r <= 21
    ensures Step(s).Next?
    ensures var t := Step(s).s;
            && Moves(s, 2, t) && t == s.(ip := t.ip, regs := t.regs) && OtherRegisters(s, t, r)
            && t.regs[r] == (s.regs[r] + 1) % WORD
  {
    FetchOfEncode(Reg(Incr, r), s.mem, s.ip);
  }

  // ----- registers and stacks -----

  /** `push`, 01: the operand on top of the data stack, unless it is full. */
  lemma Pushes(s: State, n: u32)
    requires At(s, [0x01] + Le32(n))
    ensures Step(s) == if |s.ds| < s.limit then Next(s.(ip := (s.ip + 5) % WORD, ds := s.ds + [n])) else Stuck(StackOverflow)
  {
    hide Decode, Le32;
    FetchOfEncode(Imm(Push, n), s.mem, s.ip);
  }

  /** `pusha`, 26: on top of the call stack. */
  lemma PushesCall(s: State, n: u32)
    requires At(s, [0x26] + Le32(n))
    ensures Step(s) == if |s.cs| < s.limit then Next(s.(ip := (s.ip + 5) % WORD, cs := s.cs + [n])) else Stuck(StackOverflow)
  {
    hide Decode, Le32;
    FetchOfEncode(Imm(Pusha, n), s.mem, s.ip);
  }

  /** `push64`: eight bytes. */
  lemma PushesCell(s: State, q: u64)
    requires At(s, [0x8C, 1] + Le64(q))
    ensures Step(s) == if |s.ds| < s.limit then Next(s.(ip := (s.ip + 10) % WORD, ds := s.ds + [q])) else Stuck(StackOverflow)
  {
    hide Decode, Le64;
    FetchOfEncode(Push64(q), s.mem, s.ip);
  }

  /** `loadr`, 2B, and `loadr64`: the operand, or its lower half, in a register. */
  lemma LoadsRegister(s: State, r: byte, n: u32, q: u64)
    requires r <= 21
    ensures At(s, [0x2B, r] + Le32(n)) ==> Step(s) == Next(s.(ip := (s.ip + 6) % WORD, regs := s.regs[r := n]))
    ensures At(s, [0x8C, 0, r] + Le64(q)) ==>
              Step(s) == Next(s.(ip := (s.ip + 11) % WORD, regs := s.regs[r := q % WORD]))
  {
    hide Le32, Le64, Decode;
    if At(s, [0x2B, r] + Le32(n)) { FetchOfEncode(RegImm(Loadr, r, n), s.mem, s.ip); }
    if At(s, [0x8C, 0, r] + Le64(q)) { FetchOfEncode(Loadr64(r, q), s.mem, s.ip); }
  }

  /** `pushr`, 2C, and `pushar`, 38. */
  lemma PushesRegister(s: State, r: byte)
    requires r <= 21
    ensures At(s, [0x2C, r]) && |s.ds| < s.limit ==>
              Step(s) == Next(s.(ip := (s.ip + 2) % WORD, ds := s.ds + [s.regs[r]]))
    ensures At(s, [0x38, r]) && |s.cs| < s.limit ==>
              Step(s) == Next(s.(ip := (s.ip + 2) % WORD, cs := s.cs + [s.regs[r]]))
  {
    hide Decode;
    if At(s, [0x2C, r]) { FetchOfEncode(Reg(Pushr, r), s.mem, s.ip); }
    if At(s, [0x38, r]) { FetchOfEncode(Reg(Pushar, r), s.mem, s.ip); }
  }

  /** `popr`, 2D: the lower half of the top cell; all ones from an empty stack. */
  lemma PopsRegister(s: State, r: byte, base: seq<u64>, v: u64)
    requires r <= 21 && At(s, [0x2D, r])
    ensures s.ds == base + [v] ==>
              Step(s) == Next(s.(ip := (s.ip + 2) % WORD, ds := base, regs := s.regs[r := v % WORD]))
    ensures s.ds == [] ==> Step(s) == Next(s.(ip := (s.ip + 2) % WORD, regs := s.regs[r := 0xFFFF_FFFF]))
  {
    hide Decode;
    assert (base + [v])[..|base|] == base;
    FetchOfEncode(Reg(Popr, r), s.mem, s.ip);
  }

  /** `popar`, 39, the same from the call stack. */
  lemma PopsCallRegister(s: State, r: byte, base: seq<u64>, v: u64)
    requires r <= 21 && At(s, [0x39, r])
    ensures s.cs == base + [v] ==>
              Step(s) == Next(s.(ip := (s.ip + 2) % WORD, cs := base, regs := s.regs[r := v % WORD]))
    ensures s.cs == [] ==> Step(s) == Next(s.(ip := (s.ip + 2) % WORD, regs := s.regs[r := 0xFFFF_FFFF]))
  {
    hide Decode;
    assert (base + [v])[..|base|] == base;
    FetchOfEncode(Reg(Popar, r), s.mem, s.ip);
  }

  /** `pop`, 02, and `popa`, 27. */
  lemma Drops(s: State, base: seq<u64>, v: u64)
    ensures At(s, [0x02]) && s.ds == base + [v] ==> Step(s) == Next(s.(ip := (s.ip + 1) % WORD, ds := base))
    ensures At(s, [0x27]) && s.cs == base + [v] ==> Step(s) == Next(s.(ip := (s.ip + 1) % WORD, cs := base))
  {
    hide Decode;
    assert (base + [v])[..|base|] == base;
    if At(s, [0x02]) { FetchOfEncode(Plain(Pop), s.mem, s.ip); }
    if At(s, [0x27]) { FetchOfEncode(Plain(Popa), s.mem, s.ip); }
  }

  /** `popn`, 68, drops as many cells as its operand says, or all there are. */
  lemma DropsMany(s: State, base: seq<u64>, gone: seq<u64>, n: u32)
    requires At(s, [0x68] + Le32(n)) && s.ds == base + gone
    requires |gone| == n || (|gone| <= n && base == [])
    ensures Step(s) == Next(s.(ip := (s.ip + 5) % WORD, ds := base))
  {
    hide Decode, Le32;
    assert (base + gone)[..|base|] == base;
    FetchOfEncode(Imm(Popn, n), s.mem, s.ip);
  }

  /** `dup`, 15, and `puship`, 86: a copy of the top cell, and the address of the
      instruction itself. */
  lemma Copies(s: State)
    requires |s.ds| < s.limit
    ensures At(s, [0x15]) && s.ds != [] ==>
              Step(s) == Next(s.(ip := (s.ip + 1) % WORD, ds := s.ds + [s.ds[|s.ds| - 1]]))
    ensures At(s, [0x86]) ==> Step(s) == Next(s.(ip := (s.ip + 1) % WORD, ds := s.ds + [s.ip]))
  {
    hide Decode;
    if At(s, [0x15]) { FetchOfEncode(Plain(Dup), s.mem, s.ip); }
    if At(s, [0x86]) { FetchOfEncode(Plain(PushIp), s.mem, s.ip); }
  }

  /** `loads`, 17: the cell as far below the top as the operand says, the top
      being 1. */
  lemma CopiesItem(s: State, n: u32)
    requires At(s, [0x17] + Le32(n)) && 1 <= n <= |s.ds| < s.limit
    ensures Step(s) == Next(s.(ip := (s.ip + 5) % WORD, ds := s.ds + [s.ds[|s.ds| - n]]))
  {
    hide Decode, Le32;
    FetchOfEncode(Imm(Loads, n), s.mem, s.ip);
  }

  /** `loadsr`, 70: as far as the register says. */
  lemma CopiesItemAt(s: State, r: byte)
    requires r <= 21 && At(s, [0x70, r]) && 1 <= s.regs[r] <= |s.ds| < s.limit
    ensures Step(s) == Next(s.(ip := (s.ip + 2) % WORD, ds := s.ds + [s.ds[|s.ds| - s.regs[r]]]))
  {
    hide Decode;
    FetchOfEncode(Reg(Loadsr, r), s.mem, s.ip);
  }

  // ----- arithmetic -----

  /** The step pushes `v` and leaves its operands where they are. */
  predicate Results(s: State, v: int) {
    0 <= v < CELL && Step(s) == Next(s.(ip := (s.ip + 1) % WORD, ds := s.ds + [v]))
  }

  lemma ArithmeticIs(s: State, op: AluOp)
    requires At(s, [AluCode(op)])
    ensures Step(s) == Perform(Plain(Alu(op)), s)
  {
    FetchOfEncode(Plain(Alu(op)), s.mem, s.ip);
  }

  /** `add`, 03, `sub`, 04, and `mul`, 05, of the second cell `x` and the top
      cell `y`, in 64 bits. */
  lemma Adds(s: State, base: seq<u64>, x: u64, y: u64)
    requires s.ds == base + [x, y] && |s.ds| < s.limit
    ensures At(s, [0x03]) ==> Results(s, (x + y) % CELL)
    ensures At(s, [0x04]) ==> Results(s, (x - y) % CELL)
    ensures At(s, [0x05]) ==> Results(s, (x * y) % CELL)
  {
    hide Step, Low32;
    Second(base, x, y);
    if At(s, [0x03]) { ArithmeticIs(s, Add); SumPushed(s, Add, (x + y) % CELL); }
    if At(s, [0x04]) { ArithmeticIs(s, Sub); SumPushed(s, Sub, (x - y) % CELL); }
    if At(s, [0x05]) { ArithmeticIs(s, Mul); SumPushed(s, Mul, (x * y) % CELL); }
  }

  lemma Second(base: seq<u64>, x: u64, y: u64)
    ensures Item(base + [x, y], 2) == x && Item(base + [x, y], 1) == y
  {
  }

  lemma SumPushed(s: State, op: AluOp, v: u64)
    requires Compute(op, Item(s.ds, 2), Item(s.ds, 1)) == Value(v) && |s.ds| < s.limit
    ensures Perform(Plain(Alu(op)), s) == Next(s.(ip := (s.ip + 1) % WORD, ds := s.ds + [v]))
  {
    hide Compute, Item;
  }

  /** The number a cell stands for with a sign. */
  function WithSign(x: u64): int {
    if x >= 0x8000_0000_0000_0000 then x - CELL else x
  }

  /** `div`, 06: the quotient `q` of the signed cells, rounded toward zero: what
      is left over is smaller than the divisor and has the dividend's sign. */
  lemma Divides(s: State, base: seq<u64>, x: u64, y: u64) returns (q: int)
    requires s.ds == base + [x, y] && |s.ds| < s.limit && At(s, [0x06])
    requires y != 0 && !(x == 0x8000_0000_0000_0000 && y == CELL - 1)
    ensures Results(s, q % CELL)
    ensures var a, b := WithSign(x), WithSign(y);
            var rest := a - q * b;
            && (if b > 0 then -b < rest < b else b < rest < -b)
            && (rest == 0 || (rest > 0 <==> a > 0))
  {
    hide Step, Low32;
    Second(base, x, y);
    ArithmeticIs(s, Div);
    q := TruncDiv(Signed(x), Signed(y));
    SumPushed(s, Div, q % CELL);
    Truncates(WithSign(x), WithSign(y));
  }

  lemma Truncates(a: int, b: int)
    requires b != 0
    ensures var rest := a - TruncDiv(a, b) * b;
            && (if b > 0 then -b < rest < b else b < rest < -b)
            && (rest == 0 || (rest > 0 <==> a > 0))
  {
    var m, n := if a >= 0 then a else -a, if b > 0 then b else -b;
    var q := m / n;
    var p := q * n;
    Euclid(m, n);
    Products(q, n);
    assert TruncDiv(a, b) == if (a >= 0) == (b > 0) then q else -q;
    assert TruncDiv(a, b) * b == if a >= 0 then p else -p;
  }

  lemma Products(q: int, n: int)
    ensures (-q) * n == -(q * n) && q * (-n) == -(q * n) && (-q) * (-n) == q * n
  {
  }

  lemma Euclid(a: nat, b: nat)
    requires b > 0
    ensures 0 <= a - (a / b) * b < b
  {
    assert a == (a / b) * b + a % b;
  }

  /** `mod`, 5D: the remainder of the unsigned cells. */
  lemma Remains(s: State, base: seq<u64>, x: u64, y: u64) returns (r: nat)
    requires s.ds == base + [x, y] && |s.ds| < s.limit && At(s, [0x5D]) && y != 0
    ensures r < y && Results(s, r) && exists k: nat :: x == k * y + r
  {
    hide Step, Low32;
    Second(base, x, y);
    ArithmeticIs(s, Mod);
    r := x % y;
    SumPushed(s, Mod, r);
    Euclid(x, y);
    assert x == (x / y) * y + r;
  }

  /** Bit by bit: `and`, 12, and `or`, 13, of 64 bits, `xor`, 14, of the lower 32. */
  lemma Bits(s: State, base: seq<u64>, x: u64, y: u64, i: nat) returns (v: u64)
    requires s.ds == base + [x, y] && |s.ds| < s.limit
    requires At(s, [0x12]) || At(s, [0x13]) || At(s, [0x14])
    ensures Results(s, v)
    ensures At(s, [0x12]) ==> (BitAt(v, i) == 1 <==> BitAt(x, i) == 1 && BitAt(y, i) == 1)
    ensures At(s, [0x13]) ==> (BitAt(v, i) == 1 <==> BitAt(x, i) == 1 || BitAt(y, i) == 1)
    ensures At(s, [0x14]) ==> v < WORD && (BitAt(v, i) == 1 <==> BitAt(x % WORD, i) != BitAt(y % WORD, i))
  {
    hide Step, Low32, BitAt;
    Second(base, x, y);
    if At(s, [0x12]) {
      OneOpcode(s, 0x12, 0x13);
      OneOpcode(s, 0x12, 0x14);
      ArithmeticIs(s, And);
      v := BitCell(AndBits, x, y);
      BitwiseAt(AndBits, x, y, i);
      SumPushed(s, And, v);
    } else if At(s, [0x13]) {
      OneOpcode(s, 0x13, 0x14);
      ArithmeticIs(s, Or);
      v := BitCell(OrBits, x, y);
      BitwiseAt(OrBits, x, y, i);
      SumPushed(s, Or, v);
    } else {
      ArithmeticIs(s, Xor);
      v := BitWord(XorBits, Low32(x), Low32(y));
      LowHalf(x);
      LowHalf(y);
      BitwiseAt(XorBits, Low32(x), Low32(y), i);
      SumPushed(s, Xor, v);
    }
  }

  lemma LowHalf(x: int)
    ensures Low32(x) == x % WORD
  {
  }

  lemma OneOpcode(s: State, c: byte, d: byte)
    requires c != d && At(s, [c])
    ensures !At(s, [d])
  {
    OneByte(s.mem, s.ip, [c], 0);
    if At(s, [d]) {
      OneByte(s.mem, s.ip, [d], 0);
    }
  }

  /** `land`, 8E, and `lor`, 8D, test for exactly 1. */
  lemma Logic(s: State, base: seq<u64>, x: u64, y: u64)
    requires s.ds == base + [x, y] && |s.ds| < s.limit
    ensures At(s, [0x8E]) ==> Results(s, if x == 1 && y == 1 then 1 else 0)
    ensures At(s, [0x8D]) ==> Results(s, if x == 1 || y == 1 then 1 else 0)
  {
    hide Step, Low32;
    Second(base, x, y);
    if At(s, [0x8E]) { ArithmeticIs(s, LAnd); SumPushed(s, LAnd, if x == 1 && y == 1 then 1 else 0); }
    if At(s, [0x8D]) { ArithmeticIs(s, LOr); SumPushed(s, LOr, if x == 1 || y == 1 then 1 else 0); }
  }

  /** `not`, 36, turns every bit of the top cell round. */
  lemma Inverts(s: State, base: seq<u64>, y: u64)
    requires s.ds == base + [y] && |s.ds| < s.limit && At(s, [0x36])
    ensures Results(s, CELL - 1 - y)
  {
    hide Decode;
    assert Item(s.ds, 1) == y;
    FetchOfEncode(Plain(Not), s.mem, s.ip);
  }

  /** `neg`, 37, tests it for 0. */
  lemma TestsZero(s: State, base: seq<u64>, y: u64)
    requires s.ds == base + [y] && |s.ds| < s.limit && At(s, [0x37])
    ensures Results(s, if y == 0 then 1 else 0)
  {
    hide Decode;
    assert Item(s.ds, 1) == y;
    FetchOfEncode(Plain(Neg), s.mem, s.ip);
  }

  /** Division by zero is exception 3. */
  lemma DivisionByZeroRaises(s: State, base: seq<u64>, x: u64)
    requires s.ds == base + [x, 0] && (At(s, [0x06]) || At(s, [0x5D]))
    ensures Raised(s, 3)
  {
    hide Decode;
    Second(base, x, 0);
    if At(s, [0x06]) { ArithmeticIs(s, Div); }
    if At(s, [0x5D]) { ArithmeticIs(s, Mod); }
  }

  // ----- comparing -----

  /** The number a word stands for with a sign. */
  function WordWithSign(x: u32): int {
    if x >= 0x8000_0000 then x - WORD else x
  }

  /** The flags tell how the second cell compares with the top one, and whether
      the second is zero. */
  predicate Tells(f: Flags, x: int, y: int) {
    (f.eq <==> x == y) && (f.gt <==> x > y) && (f.lt <==> x < y) && (f.zero <==> x == 0)
  }

  /** `cmp`, 0B, compares the lower halves without a sign; both cells stay. */
  lemma Compares(s: State, base: seq<u64>, x: u64, y: u64)
    requires s.ds == base + [x, y] && At(s, [0x0B])
    ensures Step(s).Next? && Step(s).s == s.(ip := (s.ip + 1) % WORD, flags := Step(s).s.flags)
    ensures Tells(Step(s).s.flags, x % WORD, y % WORD)
  {
    hide Decode, Item;
    Second(base, x, y);
    FetchOfEncode(Plain(Cmp), s.mem, s.ip);
  }

  /** `cmps`, 67, compares them with a sign. */
  lemma ComparesSigned(s: State, base: seq<u64>, x: u64, y: u64)
    requires s.ds == base + [x, y] && At(s, [0x67])
    ensures Step(s).Next? && Step(s).s == s.(ip := (s.ip + 1) % WORD, flags := Step(s).s.flags)
    ensures Tells(Step(s).s.flags, WordWithSign(x % WORD), WordWithSign(y % WORD))
  {
    hide Decode, Item;
    Second(base, x, y);
    FetchOfEncode(Plain(Cmps), s.mem, s.ip);
  }

  /** When a jump is taken: `jmp` 20 and `jmpl` 82 always, `je` 0C and `jel` 83
      on equal, `jg` 0E and `jgl` 84 on greater, `jl` 0D and `jll` 85 on less, `jz`
      11 and `jzl` 87 on zero. The first of each pair jumps to its operand, the
      second by it. */
  predicate Jumps(c: byte, far: byte, f: Flags) {
    || (c == 0x20 && far == 0x82)
    || (c == 0x0C && far == 0x83 && f.eq)
    || (c == 0x0E && far == 0x84 && f.gt)
    || (c == 0x0D && far == 0x85 && f.lt)
    || (c == 0x11 && far == 0x87 && f.zero)
  }

  predicate IsJump(c: byte, far: byte) {
    Jumps(c, far, Flags(true, true, true, true))
  }

  function JumpOn(c: byte): JumpIf {
    if c == 0x20 then Always else if c == 0x0C then IfEqual else if c == 0x0E then IfGreater
    else if c == 0x0D then IfLess else IfZero
  }

  lemma JumpsTo(s: State, c: byte, far: byte, n: u32)
    requires IsJump(c, far) && At(s, [c] + Le32(n))
    ensures Step(s) == Next(s.(ip := if Jumps(c, far, s.flags) then n else (s.ip + 5) % WORD))
  {
    hide Decode, Le32;
    FetchOfEncode(Imm(Jump(JumpOn(c)), n), s.mem, s.ip);
  }

  lemma JumpsBy(s: State, c: byte, far: byte, n: u32)
    requires IsJump(c, far) && At(s, [far] + Le32(n))
    ensures Step(s) == Next(s.(ip := (s.ip + if Jumps(c, far, s.flags) then n else 5) % WORD))
  {
    hide Decode, Le32;
    FetchOfEncode(Imm(JumpRel(JumpOn(c)), n), s.mem, s.ip);
  }

  /** `sete` 72, `setne` 73, `setg` 74 and `setl` 75 put 1 into the register if the
      flags say so, and leave it alone if not. */
  lemma Sets(s: State, c: byte, r: byte)
    requires r <= 21 && At(s, [c, r]) && 0x72 <= c <= 0x75
    ensures var yes := (c == 0x72 && s.flags.eq) || (c == 0x73 && !s.flags.eq)
                       || (c == 0x74 && s.flags.gt) || (c == 0x75 && s.flags.lt);
            Step(s) == Next(s.(ip := (s.ip + 2) % WORD, regs := if yes then s.regs[r := 1] else s.regs))
  {
    hide Decode;
    var x := if c == 0x72 then SetE else if c == 0x73 then SetNe else if c == 0x74 then SetG else SetL;
    FetchOfEncode(Reg(x, r), s.mem, s.ip);
  }

  // ----- calling -----

  /** `call`, 24, to its operand: the address behind goes on the call stack. */
  lemma Calls(s: State, n: u32)
    requires |s.cs| < s.limit && At(s, [0x24] + Le32(n))
    ensures Step(s) == Next(s.(ip := n, cs := s.cs + [(s.ip + 5) % WORD]))
  {
    hide Decode, Le32;
    FetchOfEncode(Imm(Call, n), s.mem, s.ip);
  }

  /** `calll`, 8B, by its operand. */
  lemma CallsBy(s: State, n: u32)
    requires |s.cs| < s.limit && At(s, [0x8B] + Le32(n))
    ensures Step(s) == Next(s.(ip := (s.ip + n) % WORD, cs := s.cs + [(s.ip + 5) % WORD]))
  {
    hide Decode, Le32;
    FetchOfEncode(Imm(CallRel, n), s.mem, s.ip);
  }

  /** `ret`, 25, goes to the address on top of the call stack and takes it off. */
  lemma Returns(s: State, base: seq<u64>, back: u32)
    requires At(s, [0x25]) && s.cs == base + [back]
    ensures Step(s) == Next(s.(ip := back, cs := base))
  {
    hide Decode;
    assert (base + [back])[..|base|] == base;
    FetchOfEncode(Plain(Ret), s.mem, s.ip);
  }

  /** `sleep`, 00, only moves on; `exit`, 1F, ends the run; `syscall`, 21, asks the
      system for what its operand says. */
  lemma EndsOrAsks(s: State, n: byte)
    ensures At(s, [0x00]) ==> Step(s) == Next(s.(ip := (s.ip + 1) % WORD))
    ensures At(s, [0x1F]) ==> Step(s) == Halt
    ensures At(s, [0x21, n]) ==> Step(s) == Trap(n)
  {
    hide Decode;
    if At(s, [0x00]) { FetchOfEncode(Plain(Sleep), s.mem, s.ip); }
    if At(s, [0x1F]) { FetchOfEncode(Plain(Exit), s.mem, s.ip); }
    if At(s, [0x21, n]) { FetchOfEncode(Reg(Syscall, n), s.mem, s.ip); }
  }

  // ----- memory -----

  /** The value of `n` bytes, the lowest first. */
  function ValueAt(m: seq<byte>, a: nat, n: nat): int
    requires a + n <= |m|
    decreases n
  {
    if n == 0 then 0 else (m[a] as int) + 256 * ValueAt(m, a + 1, n - 1)
  }

  /** `stosb` 2A, `stosw` 61 and `stosd` 2E store, `lodsb` 29, `lodsw` 62 and `lodsd`
      31 load so many bytes. */
  predicate Transfers(store: byte, load: byte, n: nat) {
    (store == 0x2A && load == 0x29 && n == 1) || (store == 0x61 && load == 0x62 && n == 2)
    || (store == 0x2E && load == 0x31 && n == 4)
  }

  function WidthOf(n: nat): Width {
    if n == 1 then Byte else if n == 2 then Word else Dword
  }

  /** A store puts the low bytes of R1 to the address in R0, the lowest first, and
      changes nothing else. The page of the address must be read/write, or
      exception 0 is raised. */
  lemma StoresBytes(s: State, store: byte, load: byte, n: nat)
    requires Transfers(store, load, n) && At(s, [store])
    ensures PageAt(s.pages, s.regs[0]) != ReadWrite ==> Raised(s, 0)
    ensures PageAt(s.pages, s.regs[0]) == ReadWrite && s.regs[0] + n <= |s.mem| ==>
              && Step(s).Next?
              && var t := Step(s).s;
                 && t == s.(ip := (s.ip + 1) % WORD, mem := t.mem) && |t.mem| == |s.mem|
                 && (forall a :: 0 <= a < |s.mem| && !(s.regs[0] <= a < s.regs[0] + n) ==> t.mem[a] == s.mem[a])
                 && ValueAt(t.mem, s.regs[0], n) == s.regs[1] % (if n == 1 then 0x100 else if n == 2 then 0x1_0000 else WORD)
  {
    hide Decode, PageAt, WriteLe;
    FetchOfEncode(Plain(Stos(WidthOf(n))), s.mem, s.ip);
    if PageAt(s.pages, s.regs[0]) == ReadWrite && s.regs[0] + n <= |s.mem| {
      Written(s.mem, s.regs[0], n, s.regs[1]);
    }
  }

  lemma Written(m: Memory, a: nat, n: nat, v: u32)
    requires (n == 1 || n == 2 || n == 4) && a + n <= |m|
    ensures ValueAt(WriteLe(m, a, WidthOf(n), v), a, n) == v % (if n == 1 then 0x100 else if n == 2 then 0x1_0000 else WORD)
  {
    var r := WriteLe(m, a, WidthOf(n), v);
    hide WriteLe;
    assert forall k :: 0 <= k < n ==> r[a + k] == Le32(v)[k];
    Le32RoundTrip(v);
    ValueOf(r, a, n);
    assert v / 0x1_0000 == v / 0x100 / 0x100;
  }

  lemma ValueOf(m: seq<byte>, a: nat, n: nat)
    requires (n == 1 || n == 2 || n == 4) && a + n <= |m|
    ensures n == 1 ==> ValueAt(m, a, n) == m[a]
    ensures n == 2 ==> ValueAt(m, a, n) == (m[a] as int) + 0x100 * (m[a + 1] as int)
    ensures n == 4 ==>
              ValueAt(m, a, n) ==
              (m[a] as int) + 0x100 * (m[a + 1] as int) + 0x1_0000 * (m[a + 2] as int) + 0x100_0000 * (m[a + 3] as int)
  {
    assert ValueAt(m, a + n, 0) == 0;
    assert ValueAt(m, a + n - 1, 1) == m[a + n - 1];
    if n == 4 {
      assert ValueAt(m, a + 2, 2) == (m[a + 2] as int) + 256 * (m[a + 3] as int);
      assert ValueAt(m, a + 1, 3) == (m[a + 1] as int) + 256 * ValueAt(m, a + 2, 2);
    }
  }

  /** A load puts the bytes at the address in R0 into R1. The page of the address
      must be readable, or exception 0 is raised. */
  lemma LoadsBytes(s: State, store: byte, load: byte, n: nat)
    requires Transfers(store, load, n) && At(s, [load])
    ensures PageAt(s.pages, s.regs[0]) in {NoExist, Executable} ==> Raised(s, 0)
    ensures PageAt(s.pages, s.regs[0]) in {ReadOnly, ReadWrite} && s.regs[0] + n <= |s.mem| ==>
              && 0 <= ValueAt(s.mem, s.regs[0], n) < WORD
              && Step(s) == Next(s.(ip := (s.ip + 1) % WORD, regs := s.regs[1 := ValueAt(s.mem, s.regs[0], n)]))
  {
    hide Decode, PageAt, ReadLe;
    FetchOfEncode(Plain(Lods(WidthOf(n))), s.mem, s.ip);
    if s.regs[0] + n <= |s.mem| {
      ReadIs(s.mem, s.regs[0], n);
    }
  }

  lemma ReadIs(m: seq<byte>, a: nat, n: nat)
    requires (n == 1 || n == 2 || n == 4) && a + n <= |m|
    ensures ReadLe(m, a, WidthOf(n)) == ValueAt(m, a, n)
  {
    ValueOf(m, a, n);
  }

  // ----- exceptions -----

  /** The step enters the exception's handler with R0 on the data stack, or the
      machine stops: there is no handler, one is running, or the stack is full. */
  predicate Raised(s: State, id: nat)
    requires id < 4
  {
    if s.faulted || s.handlers[id] == 0 || |s.ds| >= s.limit then Step(s).Stuck?
    else Step(s) == Next(s.(ip := s.handlers[id], ds := s.ds + [s.regs[0]], faulted := true))
  }

  /** An opcode that is none is exception 1. */
  lemma BadOpcodeRaises(s: State, c: byte)
    requires At(s, [c]) && c > 0x8E
    ensures Raised(s, 1)
  {
    OneByte(s.mem, s.ip, [c], 0);
    NoOpcode(s.mem, s.ip);
  }

  /** So is a register that is none, before any stack is touched. */
  lemma BadRegisterRaises(s: State, x: RegOp, r: byte)
    requires At(s, [RegCode(x), r]) && r > 21
    requires x.Pushr? || x.Popr? || x.Pushar? || x.Popar? || x.Incr? || x.Decr?
    ensures Raised(s, 1)
  {
    hide Decode;
    FetchOfEncode(Reg(x, r), s.mem, s.ip);
  }

  lemma NoOpcode(m: seq<byte>, a: nat)
    requires a < |m| && m[a] > 0x8E
    ensures Decode(m, a) == UnknownOpcode
  {
  }

  // ----- a counting loop -----

  /** `incr r` or `decr r`; compare `r` with 0; leave if equal; jump back. */
  function CountingLoop(c: byte, r: byte, a: u32): seq<byte>
    requires a + 25 < WORD
  {
    [c, r] + ([0x2C, r] + (([0x01] + Le32(0)) + ([0x0B] + (([0x68] + Le32(2)) + (([0x0C] + Le32(a + 25)) + ([0x20] + Le32(a)))))))
  }

  predicate LoopAt(s: State, c: byte, r: byte, a: u32) {
    && (c == 0x32 || c == 0x33) && r <= 21 && a + 25 < WORD
    && BytesAt(s.mem, a, CountingLoop(c, r, a))
    && (forall b :: a <= b < a + 25 ==> PageAt(s.pages, b) == Executable)
    && |s.ds| + 2 <= s.limit
  }

  /** What one round makes of the register. */
  function Counted(c: byte, k: u32): u32 {
    (if c == 0x32 then (k as int) + 1 else (k as int) - 1) % WORD
  }

  lemma Parts(m: seq<byte>, a: nat, x: seq<byte>, y: seq<byte>)
    requires BytesAt(m, a, x + y)
    ensures BytesAt(m, a, x) && BytesAt(m, a + |x|, y)
  {
    assert m[a..a + |x|] == m[a..a + |x + y|][..|x|];
    assert m[a + |x|..a + |x + y|] == m[a..a + |x + y|][|x|..];
  }

  /** Where the loop's instructions lie. */
  lemma LoopParts(s: State, c: byte, r: byte, a: u32)
    requires LoopAt(s, c, r, a)
    ensures BytesAt(s.mem, a, [c, r]) && BytesAt(s.mem, a + 2, [0x2C, r])
    ensures BytesAt(s.mem, a + 4, [0x01] + Le32(0)) && BytesAt(s.mem, a + 9, [0x0B])
    ensures BytesAt(s.mem, a + 10, [0x68] + Le32(2)) && BytesAt(s.mem, a + 15, [0x0C] + Le32(a + 25))
    ensures BytesAt(s.mem, a + 20, [0x20] + Le32(a))
  {
    hide BytesAt, Le32;
    var g := [0x20] + Le32(a);
    var f := ([0x0C] + Le32(a + 25)) + g;
    var e := ([0x68] + Le32(2)) + f;
    var d := [0x0B] + e;
    var b := ([0x01] + Le32(0)) + d;
    Parts(s.mem, a, [c, r], [0x2C, r] + b);
    Parts(s.mem, a + 2, [0x2C, r], b);
    Parts(s.mem, a + 4, [0x01] + Le32(0), d);
    Parts(s.mem, a + 9, [0x0B], e);
    Parts(s.mem, a + 10, [0x68] + Le32(2), f);
    Parts(s.mem, a + 15, [0x0C] + Le32(a + 25), g);
  }

  lemma OneCycle(s: State, t: State)
    requires PageAt(s.pages, s.ip) == Executable && Step(s) == Next(t)
    ensures Run(1, s) == Next(t)
  {
    hide Step, PageAt;
    assert Run(0, t) == Next(t);
  }

  lemma Then(s: State, m: nat, t: State, u: State)
    requires Run(m, s) == Next(t) && Run(1, t) == Next(u)
    ensures Run(m + 1, s) == Next(u)
  {
    hide Run;
    RunAppend(m, 1, s);
  }

  /** The first two instructions of a round: count and push. */
  lemma CountAndPush(s: State, c: byte, r: byte, a: u32) returns (t: State)
    requires LoopAt(s, c, r, a) && s.ip == a
    ensures Run(2, s) == Next(t)
    ensures t == s.(ip := a + 4, regs := t.regs, ds := s.ds + [Counted(c, s.regs[r])])
    ensures t.regs == s.regs[r := Counted(c, s.regs[r])]
  {
    hide Run, Step, BytesAt, PageAt, CountingLoop;
    LoopParts(s, c, r, a);
    if c == 0x32 {
      Increments(s, r);
    } else {
      Decrements(s, r);
      Back(s.regs[r], Step(s).s.regs[r]);
    }
    var u := Step(s).s;
    assert u.regs == s.regs[r := Counted(c, s.regs[r])];
    OneCycle(s, u);
    PushesRegister(u, r);
    t := Step(u).s;
    OneCycle(u, t);
    Then(s, 1, u, t);
  }

  lemma Back(k: u32, j: u32)
    requires (j + 1) % WORD == k
    ensures j == (k as int - 1) % WORD
  {
  }

  /** The rest of a round: compare with 0 and clean up. */
  lemma CompareZero(s: State, c: byte, r: byte, a: u32, base: seq<u64>, k: u32) returns (t: State)
    requires LoopAt(s.(ds := base), c, r, a) && s.ip == a + 4 && s.ds == base + [k]
    ensures Run(3, s) == Next(t) && t == s.(ip := a + 15, ds := base, flags := t.flags)
    ensures t.flags.eq <==> k == 0
  {
    hide Run, Step, BytesAt, PageAt, CountingLoop, Le32;
    LoopParts(s.(ds := base), c, r, a);
    Pushes(s, 0);
    var u := Step(s).s;
    OneCycle(s, u);
    assert u.ds == base + [k, 0];
    Compares(u, base, k, 0);
    var v := Step(u).s;
    OneCycle(u, v);
    Then(s, 1, u, v);
    DropsMany(v, base, [k, 0], 2);
    t := Step(v).s;
    OneCycle(v, t);
    Then(s, 2, v, t);
  }

  /** One round: the register is counted on; the loop is left when it is 0. */
  lemma OneRound(s: State, c: byte, r: byte, a: u32) returns (t: State)
    requires LoopAt(s, c, r, a) && s.ip == a
    ensures var k := Counted(c, s.regs[r]);
            && t == s.(ip := if k == 0 then a + 25 else a, regs := s.regs[r := k], flags := t.flags)
            && Run(if k == 0 then 6 else 7, s) == Next(t)
  {
    hide Run, Step, BytesAt, PageAt, CountingLoop, Le32, Counted;
    var k := Counted(c, s.regs[r]);
    LoopParts(s, c, r, a);
    var u := CountAndPush(s, c, r, a);
    var v := CompareZero(u, c, r, a, s.ds, k);
    RunAppend(2, 3, s);
    JumpsTo(v, 0x0C, 0x83, a + 25);
    var w := Step(v).s;
    OneCycle(v, w);
    Then(s, 5, v, w);
    t := w;
    if k != 0 {
      JumpsTo(w, 0x20, 0x82, a);
      t := Step(w).s;
      OneCycle(w, t);
      Then(s, 6, w, t);
    }
  }

  /** Counting down from `k`, or up from `2^32 - k`, takes exactly `k` rounds: the
      loop is left then, with 0 in the register and all else as it was but the
      flags. From 0 it takes 2^32. */
  lemma {:induction false} CountsExactly(s: State, c: byte, r: byte, a: u32, k: nat) returns (t: State)
    requires LoopAt(s, c, r, a) && s.ip == a && 1 <= k <= WORD
    requires s.regs[r] == (if c == 0x33 then k else WORD - k) % WORD
    ensures Run(7 * k - 1, s) == Next(t)
    ensures t == s.(ip := a + 25, regs := s.regs[r := 0], flags := t.flags)
    decreases k
  {
    hide Run, Step, BytesAt, PageAt, CountingLoop;
    var u := OneRound(s, c, r, a);
    if k == 1 {
      t := u;
    } else {
      t := CountsExactly(u, c, r, a, k - 1);
      RunAppend(7, 7 * (k - 1) - 1, s);
    }
  }
}
