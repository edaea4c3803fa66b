/** Instruction set: what the assembler macros emit, what the interpreter
    fetches, and by how much it moves the instruction pointer. */
module Isa {
  import opened Words

  datatype AluOp = Add | Sub | Mul | Div | Mod | And | Or | Xor | LAnd | LOr
  datatype JumpIf = Always | IfEqual | IfLess | IfGreater | IfZero
  datatype Width = Byte | Word | Dword

  /** Instructions without operands. `Other` stands for the opcodes whose
      effect is not modelled: floating point, foreign calls, rotations,
      exception bookkeeping. */
  datatype PlainOp =
    | Sleep | Exit | Ret | Pop | Popa | Dup | PushIp | Cmp | Cmps | Not | Neg
    | Alu(op: AluOp) | Lods(w: Width) | Stos(w: Width) | Other(code: byte)

  /** Instructions with a register index or another one-byte operand. */
  datatype RegOp =
    | Pushr | Popr | Pushar | Popar | Incr | Decr | Loadsr | Storesr
    | SetE | SetNe | SetG | SetL | Syscall | Int

  /** Instructions with a 32-bit operand. */
  datatype ImmOp =
    | Push | Popn | Pusha | Loads | Stores | Call | CallRel | Jump(c: JumpIf) | JumpRel(c: JumpIf)

  datatype RegImmOp = Loadr | Loadi

  datatype Instr =
    | Plain(p: PlainOp)
    | Reg(x: RegOp, r: byte)
    | Imm(y: ImmOp, n: u32)
    | RegImm(z: RegImmOp, r: byte, n: u32)
    | Loadr64(r: byte, q: u64)
    | Push64(q: u64)

  const FSQRT: byte := 0x81
  const RFC_PREFIX: byte := 0x8C

  predicate IsOtherOpcode(c: byte) {
    0x07 <= c <= 0x0A || c == 0x18 || c == 0x19 || c == 0x22 || c == 0x23 || c == 0x28 || c == 0x2F
    || c == 0x30 || c == 0x63 || 0x4A <= c <= 0x4D || c == 0x53 || 0x56 <= c <= 0x5C || 0x5E <= c <= 0x60
    || 0x69 <= c <= 0x6E || 0x76 <= c <= 0x81 || c == 0x89 || c == 0x8A
  }

  predicate Valid(i: Instr) {
    i.Plain? && i.p.Other? ==> IsOtherOpcode(i.p.code)
  }

  // ----- assembler side -----

  function PlainCode(p: PlainOp): byte {
    match p
    case Sleep => 0x00 case Exit => 0x1F case Ret => 0x25 case Pop => 0x02 case Popa => 0x27
    case Dup => 0x15 case PushIp => 0x86 case Cmp => 0x0B case Cmps => 0x67 case Not => 0x36 case Neg => 0x37
    case Alu(op) => AluCode(op)
    case Lods(w) => (match w case Byte => 0x29 case Word => 0x62 case Dword => 0x31)
    case Stos(w) => (match w case Byte => 0x2A case Word => 0x61 case Dword => 0x2E)
    case Other(c) => c
  }

  function AluCode(op: AluOp): byte {
    match op
    case Add => 0x03 case Sub => 0x04 case Mul => 0x05 case Div => 0x06 case Mod => 0x5D
    case And => 0x12 case Or => 0x13 case Xor => 0x14 case LOr => 0x8D case LAnd => 0x8E
  }

  function RegCode(x: RegOp): byte {
    match x
    case Pushr => 0x2C case Popr => 0x2D case Pushar => 0x38 case Popar => 0x39
    case Incr => 0x32 case Decr => 0x33 case Loadsr => 0x70 case Storesr => 0x71
    case SetE => 0x72 case SetNe => 0x73 case SetG => 0x74 case SetL => 0x75
    case Syscall => 0x21 case Int => 0x34
  }

  function ImmCode(y: ImmOp): byte {
    match y
    case Push => 0x01 case Popn => 0x68 case Pusha => 0x26 case Loads => 0x17 case Stores => 0x6F
    case Call => 0x24 case CallRel => 0x8B
    case Jump(c) => (match c case Always => 0x20 case IfEqual => 0x0C case IfLess => 0x0D
                             case IfGreater => 0x0E case IfZero => 0x11)
    case JumpRel(c) => (match c case Always => 0x82 case IfEqual => 0x83 case IfGreater => 0x84
                                case IfLess => 0x85 case IfZero => 0x87)
  }

  function RegImmCode(z: RegImmOp): byte {
    match z case Loadr => 0x2B case Loadi => 0x35
  }

  /** The bytes the assembler macro of an instruction produces. */
  function Encode(i: Instr): (b: seq<byte>)
    ensures |b| > 0
  {
    match i
    case Plain(p) => [PlainCode(p)]
    case Reg(x, r) => [RegCode(x), r]
    case Imm(y, n) => [ImmCode(y)] + Le32(n)
    case RegImm(z, r, n) => [RegImmCode(z), r] + Le32(n)
    case Loadr64(r, q) => [RFC_PREFIX, 0, r] + Le64(q)
    case Push64(q) => [RFC_PREFIX, 1] + Le64(q)
  }

  function EncodeAll(code: seq<Instr>): seq<byte> {
    if code == [] then [] else Encode(code[0]) + EncodeAll(code[1..])
  }

  // ----- interpreter side -----

  datatype Fetched = Instruction(i: Instr) | UnknownOpcode | PastEnd

  function Imm32(m: seq<byte>, a: nat): u32
    requires a + 4 <= |m|
  {
    FromLe32(m[a..a + 4])
  }

  function ToPlain(c: byte): Option<PlainOp> {
    if c == 0x00 then Some(Sleep) else if c == 0x1F then Some(Exit) else if c == 0x25 then Some(Ret)
    else if c == 0x02 then Some(Pop) else if c == 0x27 then Some(Popa) else if c == 0x15 then Some(Dup)
    else if c == 0x86 then Some(PushIp) else if c == 0x0B then Some(Cmp) else if c == 0x67 then Some(Cmps)
    else if c == 0x36 then Some(Not) else if c == 0x37 then Some(Neg)
    else if c == 0x29 then Some(Lods(Byte)) else if c == 0x62 then Some(Lods(Word))
    else if c == 0x31 then Some(Lods(Dword)) else if c == 0x2A then Some(Stos(Byte))
    else if c == 0x61 then Some(Stos(Word)) else if c == 0x2E then Some(Stos(Dword))
    else if ToAlu(c).Some? then Some(Alu(ToAlu(c).value))
    else if IsOtherOpcode(c) then Some(Other(c))
    else None
  }

  function ToAlu(c: byte): Option<AluOp> {
    if c == 0x03 then Some(Add) else if c == 0x04 then Some(Sub) else if c == 0x05 then Some(Mul)
    else if c == 0x06 then Some(Div) else if c == 0x5D then Some(Mod) else if c == 0x12 then Some(And)
    else if c == 0x13 then Some(Or) else if c == 0x14 then Some(Xor) else if c == 0x8D then Some(LOr)
    else if c == 0x8E then Some(LAnd) else None
  }

  function ToReg(c: byte): Option<RegOp> {
    if c == 0x2C then Some(Pushr) else if c == 0x2D then Some(Popr) else if c == 0x38 then Some(Pushar)
    else if c == 0x39 then Some(Popar) else if c == 0x32 then Some(Incr) else if c == 0x33 then Some(Decr)
    else if c == 0x70 then Some(Loadsr) else if c == 0x71 then Some(Storesr) else if c == 0x72 then Some(SetE)
    else if c == 0x73 then Some(SetNe) else if c == 0x74 then Some(SetG) else if c == 0x75 then Some(SetL)
    else if c == 0x21 then Some(Syscall) else if c == 0x34 then Some(Int) else None
  }

  function ToImm(c: byte): Option<ImmOp> {
    if c == 0x01 then Some(Push) else if c == 0x68 then Some(Popn) else if c == 0x26 then Some(Pusha)
    else if c == 0x17 then Some(Loads) else if c == 0x6F then Some(Stores) else if c == 0x24 then Some(Call)
    else if c == 0x8B then Some(CallRel) else if c == 0x20 then Some(Jump(Always))
    else if c == 0x0C then Some(Jump(IfEqual)) else if c == 0x0D then Some(Jump(IfLess))
    else if c == 0x0E then Some(Jump(IfGreater)) else if c == 0x11 then Some(Jump(IfZero))
    else if c == 0x82 then Some(JumpRel(Always)) else if c == 0x83 then Some(JumpRel(IfEqual))
    else if c == 0x84 then Some(JumpRel(IfGreater)) else if c == 0x85 then Some(JumpRel(IfLess))
    else if c == 0x87 then Some(JumpRel(IfZero)) else None
  }

  /** The interpreter's reading of the bytes at `ip`: the opcode selects the
      case, operands follow it, four-byte operands are little endian. */
  function Decode(m: seq<byte>, ip: nat): Fetched {
    if ip >= |m| then PastEnd
    else
      var c := m[ip];
      if ToPlain(c).Some? then Instruction(Plain(ToPlain(c).value))
      else if ToReg(c).Some? then
        if ip + 2 <= |m| then Instruction(Reg(ToReg(c).value, m[ip + 1])) else PastEnd
      else if ToImm(c).Some? then
        if ip + 5 <= |m| then Instruction(Imm(ToImm(c).value, Imm32(m, ip + 1))) else PastEnd
      else if c == 0x2B || c == 0x35 then
        if ip + 6 <= |m| then
          Instruction(RegImm(if c == 0x2B then Loadr else Loadi, m[ip + 1], Imm32(m, ip + 2)))
        else PastEnd
      else if c == RFC_PREFIX then DecodeRfc(m, ip)
      else UnknownOpcode
  }

  function DecodeRfc(m: seq<byte>, ip: nat): Fetched
    requires ip < |m|
  {
    if ip + 1 >= |m| then PastEnd
    else if m[ip + 1] == 0 then
      if ip + 11 <= |m| then Instruction(Loadr64(m[ip + 2], FromLe64(m[ip + 3..ip + 11]))) else PastEnd
    else if m[ip + 1] == 1 then
      if ip + 10 <= |m| then Instruction(Push64(FromLe64(m[ip + 2..ip + 10]))) else PastEnd
    else UnknownOpcode
  }

  /** The interpreter's own increments of the instruction pointer, for the
      instructions that fall through to the next one. */
  function Increment(i: Instr): nat {
    match i
    case Plain(_) => 1
    case Reg(_, _) => 2
    case Imm(_, _) => 5
    case RegImm(_, _, _) => 1 + 5
    case Loadr64(_, _) => 1 + 1 + 9
    case Push64(_) => 1 + 9
  }

  // ----- the two sides agree -----

  predicate BytesAt(m: seq<byte>, a: nat, b: seq<byte>) {
    a + |b| <= |m| && m[a..a + |b|] == b
  }

  lemma OneByte(m: seq<byte>, a: nat, b: seq<byte>, k: nat)
    requires BytesAt(m, a, b) && k < |b|
    ensures m[a + k] == b[k]
  {
    assert m[a + k] == m[a..a + |b|][k];
  }

  lemma FourBytes(m: seq<byte>, a: nat, b: seq<byte>, k: nat, n: u32)
    requires BytesAt(m, a, b) && k + 4 == |b| && b[k..] == Le32(n)
    ensures Imm32(m, a + k) == n
  {
    assert m[a + k..a + k + 4] == m[a..a + |b|][k..];
    Le32RoundTrip(n);
  }

  lemma EightBytes(m: seq<byte>, a: nat, b: seq<byte>, k: nat, n: u64)
    requires BytesAt(m, a, b) && k + 8 == |b| && b[k..] == Le64(n)
    ensures FromLe64(m[a + k..a + k + 8]) == n
  {
    assert m[a + k..a + k + 8] == m[a..a + |b|][k..];
    Le64RoundTrip(n);
  }

  lemma PlainCodeInverts(p: PlainOp)
    requires p.Other? ==> IsOtherOpcode(p.code)
    ensures ToPlain(PlainCode(p)) == Some(p)
  {
  }

  lemma RegCodeInverts(x: RegOp)
    ensures ToPlain(RegCode(x)) == None && ToReg(RegCode(x)) == Some(x)
  {
  }

  lemma ImmCodeInverts(y: ImmOp)
    ensures var c := ImmCode(y); ToPlain(c) == None && ToReg(c) == None && ToImm(c) == Some(y)
  {
  }

  lemma FetchPlain(p: PlainOp, m: seq<byte>, a: nat)
    requires Valid(Plain(p)) && BytesAt(m, a, [PlainCode(p)])
    ensures Decode(m, a) == Instruction(Plain(p))
  {
    OneByte(m, a, [PlainCode(p)], 0);
    PlainCodeInverts(p);
  }

  lemma FetchReg(x: RegOp, r: byte, m: seq<byte>, a: nat)
    requires BytesAt(m, a, [RegCode(x), r])
    ensures Decode(m, a) == Instruction(Reg(x, r))
  {
    OneByte(m, a, [RegCode(x), r], 0);
    OneByte(m, a, [RegCode(x), r], 1);
    RegCodeInverts(x);
  }

  lemma FetchImm(y: ImmOp, n: u32, m: seq<byte>, a: nat)
    requires BytesAt(m, a, [ImmCode(y)] + Le32(n))
    ensures Decode(m, a) == Instruction(Imm(y, n))
  {
    OneByte(m, a, [ImmCode(y)] + Le32(n), 0);
    FourBytes(m, a, [ImmCode(y)] + Le32(n), 1, n);
    ImmCodeInverts(y);
  }

  lemma FetchRegImm(z: RegImmOp, r: byte, n: u32, m: seq<byte>, a: nat)
    requires BytesAt(m, a, [RegImmCode(z), r] + Le32(n))
    ensures Decode(m, a) == Instruction(RegImm(z, r, n))
  {
    var b := [RegImmCode(z), r] + Le32(n);
    OneByte(m, a, b, 0);
    OneByte(m, a, b, 1);
    FourBytes(m, a, b, 2, n);
  }

  lemma PrefixIsNoOpcode()
    ensures ToPlain(RFC_PREFIX).None? && ToReg(RFC_PREFIX).None? && ToImm(RFC_PREFIX).None?
  {
  }

  lemma FetchRfc(i: Instr, m: seq<byte>, a: nat)
    requires i.Push64? || i.Loadr64?
    requires BytesAt(m, a, Encode(i))
    ensures Decode(m, a) == Instruction(i)
  {
    hide ToPlain, ToReg, ToImm, FromLe64, Le64;
    PrefixIsNoOpcode();
    var b := Encode(i);
    OneByte(m, a, b, 0);
    OneByte(m, a, b, 1);
    if i.Push64? {
      EightBytes(m, a, b, 2, i.q);
    } else {
      OneByte(m, a, b, 2);
      EightBytes(m, a, b, 3, i.q);
    }
  }

  /** Wherever the bytes of an instruction lie, the interpreter fetches that
      instruction. */
  lemma FetchOfEncode(i: Instr, m: seq<byte>, a: nat)
    requires Valid(i) && BytesAt(m, a, Encode(i))
    ensures Decode(m, a) == Instruction(i)
  {
    match i
    case Plain(p) => FetchPlain(p, m, a);
    case Reg(x, r) => FetchReg(x, r, m, a);
    case Imm(y, n) => FetchImm(y, n, m, a);
    case RegImm(z, r, n) => FetchRegImm(z, r, n, m, a);
    case Push64(q) => FetchRfc(i, m, a);
    case Loadr64(r, q) => FetchRfc(i, m, a);
  }

  /** The interpreter steps over exactly the bytes the assembler wrote. */
  lemma IncrementIsLength(i: Instr)
    ensures Increment(i) == |Encode(i)|
  {
  }
}
