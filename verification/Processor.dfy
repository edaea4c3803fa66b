/** The processor as the interpreter works it: fields, registers, two stack
    objects and a memory buffer, changed in place by every instruction. Each
    method is proved against what `Machine` says the instruction does. */
module Processor {
  import opened Words
  import opened Isa
  import opened Machine
  import opened Stack
  import opened Pages
  import Protection

  const REGISTERS := 22

  /** How an instruction ended: it did its work, or it raises an exception, or
      it leaves the model. */
  datatype Ended = Went | Raised(id: nat) | Died(why: Reason)

  datatype Stop = Continued | Trapped(n: byte) | Halted | Broken(why: Reason)

  /** The ending and the new state are what the action says. */
  ghost predicate Did(a: Action, r: Ended, before: State, after: State) {
    match a
    case Ok(t) => r == Went && after == t
    case Raise(id) => r == Raised(id) && after == before
    case Fail(why) => r == Died(why)
  }

  ghost predicate Came(o: Outcome, r: Stop, before: State, after: State) {
    match o
    case Next(t) => r == Continued && after == t
    case Trap(n) => r == Trapped(n) && after == before
    case Halt => r == Halted
    case Stuck(why) => r == Broken(why)
  }

  function Low32s(r: seq<u64>): (s: seq<u32>)
    ensures |s| == |r|
  {
    seq(|r|, i requires 0 <= i < |r| => Low32(r[i]))
  }

  lemma PoppedTwice(s: seq<u64>, i: nat)
    ensures Popped(Popped(s, i), 1) == Popped(s, i + 1) && Popped(s, 0) == s
  {
  }

  class Cpu {
    var memory: array<byte>
    var table: PageTable
    var stack: VStack
    var callStack: VStack
    var instructionPointer: u32
    var flags: Flags
    var exceptionFlag: bool
    var regs: seq<u64>
    var exceptionHandlers: seq<u32>

    /** A cleared processor with this memory, page table and stacks. */
    constructor (memory: array<byte>, table: PageTable, stack: VStack, callStack: VStack)
      ensures this.memory == memory && this.table == table && this.stack == stack && this.callStack == callStack
      ensures regs == seq(REGISTERS, _ => 0) && exceptionHandlers == [0, 0, 0, 0] && instructionPointer == 0
      ensures flags == Flags(false, false, false, false) && !exceptionFlag
    {
      this.memory, this.table, this.stack, this.callStack := memory, table, stack, callStack;
      instructionPointer, regs, exceptionHandlers := 0, seq(REGISTERS, _ => 0), [0, 0, 0, 0];
      flags, exceptionFlag := Flags(false, false, false, false), false;
    }

    /** The two stacks share nothing. */
    ghost predicate Apart()
      reads this, stack, callStack
    {
      && stack != callStack
      && (stack.content == null || stack.content != callStack.content)
    }

    ghost predicate Valid()
      reads this, stack, callStack, table
    {
      && |regs| == REGISTERS && |exceptionHandlers| == 4 && memory.Length < 0x1_0000_0000
      && stack.Valid() && callStack.Valid() && table.Valid() && stack.max == callStack.max
      && Apart()
    }

    /** What the instruction set's definition talks about: registers as they are
        saved, in 32 bits. */
    ghost function View(): State
      reads this, memory, stack, stack.content, callStack, callStack.content, table, table.types
      requires Valid()
    {
      State(instructionPointer, Low32s(regs), stack.Contents(), callStack.Contents(),
            flags, exceptionFlag, exceptionHandlers,
            memory[..], table.types[..], stack.max)
    }

    /** Between instructions registers hold 32 bits. */
    ghost predicate Narrow()
      reads this
    {
      forall i :: 0 <= i < |regs| ==> regs[i] < 0x1_0000_0000
    }

    // ----- stacks -----

    method Push(x: u64) returns (ok: bool)
      requires Valid()
      modifies stack, stack.content
      ensures Valid() && (stack.content == old(stack.content) || fresh(stack.content))
      ensures ok == (|old(View()).ds| < old(View()).limit)
      ensures View() == if ok then old(View()).(ds := old(View()).ds + [x]) else old(View())
    {
      ok := stack.Push(x);
    }

    method Pop() returns (x: u64)
      requires Valid()
      modifies stack
      ensures Valid() && stack.content == old(stack.content)
      ensures x == TopOf(old(View()).ds) && View() == old(View()).(ds := Popped(old(View()).ds, 1))
    {
      hide TopOf, Popped;
      x := stack.Pop();
    }

    method PushCall(x: u64) returns (ok: bool)
      requires Valid()
      modifies callStack, callStack.content
      ensures Valid() && (callStack.content == old(callStack.content) || fresh(callStack.content))
      ensures ok == (|old(View()).cs| < old(View()).limit)
      ensures View() == if ok then old(View()).(cs := old(View()).cs + [x]) else old(View())
    {
      ok := callStack.Push(x);
    }

    method PopCall() returns (x: u64)
      requires Valid()
      modifies callStack
      ensures Valid() && callStack.content == old(callStack.content)
      ensures x == TopOf(old(View()).cs) && View() == old(View()).(cs := Popped(old(View()).cs, 1))
    {
      hide TopOf, Popped;
      x := callStack.Pop();
    }

    method TopItem(k: u32) returns (x: u64)
      requires Valid() && 1 <= k && (k < 0x8000_0000 || k <= |View().ds|)
      ensures x == Item(View().ds, k)
    {
      hide Item;
      x := stack.FromTop(k);
    }

    method PushOrDie(x: u64) returns (r: Ended)
      requires Valid()
      modifies stack, stack.content
      ensures Valid() && (stack.content == old(stack.content) || fresh(stack.content))
      ensures Did(PushData(old(View()), x), r, old(View()), View())
    {
      hide View, Valid;
      var ok := Push(x);
      r := if ok then Went else Died(StackOverflow);
    }

    // ----- registers -----

    method SetRegister(r: byte, v: u64)
      requires Valid() && r < REGISTERS
      modifies `regs
      ensures Valid() && View() == old(View()).(regs := old(View()).regs[r := Low32(v)])
    {
      regs := regs[r := v];
      assert Low32s(regs) == Low32s(old(regs))[r := Low32(v)];
    }

    /** A register operand out of range raises an exception. */
    method StoreRegister(r: byte, v: u64) returns (e: Ended)
      requires Valid()
      modifies `regs
      ensures e.Raised? ==> regs == old(regs)
      ensures Valid() && Did(WithRegister(old(View()), r, Low32(v)), e, old(View()), View())
    {
      hide View, Valid;
      if r <= 21 {
        SetRegister(r, v);
        e := Went;
      } else {
        e := Raised(INVALID_OPCODE);
      }
    }

    lemma Pointer()
      requires Valid()
      ensures View().ip == instructionPointer && |View().mem| == memory.Length < 0x1_0000_0000
    {
    }

    lemma TwoStacks()
      requires Valid()
      ensures stack != callStack
    {
    }

    lemma RegisterValue(r: byte)
      requires Valid() && Narrow() && r < REGISTERS
      ensures r < |regs| && regs[r] < 0x1_0000_0000 && View().regs[r] == regs[r]
    {
    }

    // ----- arithmetic -----

    method DoAlu(op: AluOp) returns (r: Ended)
      requires Valid()
      modifies stack, stack.content
      ensures Valid() && (stack.content == old(stack.content) || fresh(stack.content))
      ensures Did(ActPlain(Alu(op), old(View())), r, old(View()), View())
    {
      hide View, Valid, Item, Low64, BitCell, BitWord, TruncDiv, Signed, PushData;
      var y := TopItem(1);
      var x := TopItem(2);
      var v: u64;
      match op {
        case Add => v := Low64((x as int) + y);
        case Sub => v := Low64((x as int) - y);
        case Mul => v := Low64((x as int) * y);
        case Div =>
          if y == 0 {
            return Raised(ARITHMETIC);
          }
          if x == 0x8000_0000_0000_0000 && Signed(y) == -1 {
            return Died(Undefined);
          }
          v := DivideSigned(x, y);
        case Mod =>
          if y == 0 {
            return Raised(ARITHMETIC);
          }
          v := x % y;
        case And => v := BitCell(AndBits, x, y);
        case Or => v := BitCell(OrBits, x, y);
        case Xor => v := BitWord(XorBits, Low32(x), Low32(y));
        case LAnd => v := if x == 1 && y == 1 then 1 else 0;
        case LOr => v := if x == 1 || y == 1 then 1 else 0;
      }
      assert Compute(op, x, y) == Value(v);
      r := PushOrDie(v);
    }

    method DivideSigned(x: u64, y: u64) returns (v: u64)
      requires y != 0
      ensures v == Low64(TruncDiv(Signed(x), Signed(y)))
    {
      v := Low64(TruncDiv(Signed(x), Signed(y)));
    }

    method Compare(x: int, y: int)
      requires Valid()
      modifies `flags
      ensures Valid() && View() == old(View()).(flags := Machine.Compare(x, y))
    {
      flags := Flags(x == y, x > y, x < y, x == 0);
    }

    // ----- memory -----

    method ReadMemory(a: nat, w: Width) returns (v: u32)
      requires Valid() && a + Bytes(w) <= memory.Length
      ensures v == ReadLe(memory[..], a, w)
    {
      match w {
        case Byte => v := memory[a];
        case Word => v := (memory[a] as int) + 0x100 * (memory[a + 1] as int);
        case Dword =>
          v := (memory[a] as int) + 0x100 * (memory[a + 1] as int) + 0x1_0000 * (memory[a + 2] as int)
               + 0x100_0000 * (memory[a + 3] as int);
          assert memory[..][a..a + 4] == memory[a..a + 4];
      }
    }

    method WriteMemory(a: nat, w: Width, v: u32)
      requires Valid() && a + Bytes(w) <= memory.Length
      modifies memory
      ensures Valid() && View() == old(View()).(mem := WriteLe(old(View()).mem, a, w, v))
    {
      hide Le32;
      var bytes := Le32(v);
      memory[a] := bytes[0];
      if w != Byte {
        memory[a + 1] := bytes[1];
      }
      if w == Dword {
        memory[a + 2] := bytes[2];
        memory[a + 3] := bytes[3];
      }
      ghost var r := WriteLe(old(memory[..]), a, w, v);
      forall k | a <= k < a + Bytes(w)
        ensures r[k] == memory[k]
      {
        assert r[k] == bytes[..Bytes(w)][k - a];
      }
      assert memory[..] == r;
    }

    method DoLods(w: Width) returns (r: Ended)
      requires Valid() && Narrow()
      modifies `regs
      ensures r.Raised? ==> regs == old(regs)
      ensures Valid() && Did(ActPlain(Lods(w), old(View())), r, old(View()), View())
    {
      hide ReadLe;
      RegisterValue(0);
      var ty := table.TypeAt(regs[0]);
      if ty != ReadOnly && ty != ReadWrite {
        return Raised(INVALID_ACCESS);
      }
      if regs[0] + Bytes(w) > memory.Length {
        return Died(Undefined);
      }
      var v := ReadMemory(regs[0], w);
      SetRegister(1, v);
      SmallWord(v);
      r := Went;
    }

    method DoStos(w: Width) returns (r: Ended)
      requires Valid() && Narrow()
      modifies memory
      ensures Valid() && Did(ActPlain(Stos(w), old(View())), r, old(View()), View())
    {
      hide WriteLe;
      RegisterValue(0);
      RegisterValue(1);
      var ty := table.TypeAt(regs[0]);
      if ty != ReadWrite {
        return Raised(INVALID_ACCESS);
      }
      if regs[0] + Bytes(w) > memory.Length {
        return Died(Undefined);
      }
      WriteMemory(regs[0], w, regs[1]);
      r := Went;
    }

    // ----- instructions -----

    method DoStack(p: PlainOp) returns (r: Ended)
      requires Valid() && (p.Dup? || p.PushIp? || p.Not? || p.Neg?)
      modifies stack, stack.content
      ensures Valid() && (stack.content == old(stack.content) || fresh(stack.content))
      ensures Did(ActPlain(p, old(View())), r, old(View()), View())
    {
      hide Valid, Item, PushData;
      var x := TopItem(1);
      match p {
        case Dup => r := PushOrDie(x);
        case PushIp => r := PushOrDie(instructionPointer);
        case Not => r := PushOrDie(UNDERFLOW - x);
        case Neg => r := PushOrDie(if x == 0 then 1 else 0);
      }
    }

    method DoCompare(signed: bool) returns (r: Ended)
      requires Valid()
      modifies `flags
      ensures Valid() && Did(ActPlain(if signed then Cmps else Cmp, old(View())), r, old(View()), View())
    {
      hide View, Valid, Item, Machine.Compare, Signed32, Low32;
      var y := TopItem(1);
      var x := TopItem(2);
      if signed {
        Compare(Signed32(Low32(x)), Signed32(Low32(y)));
      } else {
        Compare(Low32(x), Low32(y));
      }
      r := Went;
    }

    method DoPlain(p: PlainOp) returns (r: Ended)
      requires Valid() && Narrow() && !p.Exit? && !p.Ret?
      modifies `regs, `flags, stack, stack.content, callStack, memory
      ensures r.Raised? ==> regs == old(regs)
      ensures Valid() && (stack.content == old(stack.content) || fresh(stack.content))
      ensures callStack.content == old(callStack.content)
      ensures Did(ActPlain(p, old(View())), r, old(View()), View())
    {
      hide View, Valid, Narrow, Item, Machine.Compare, Compute, Popped, TopOf, ReadLe, PageAt, PushData;
      TwoStacks();
      match p {
        case Sleep => r := Went;
        case Pop =>
          var _ := Pop();
          r := Went;
        case Popa =>
          var _ := PopCall();
          r := Went;
        case Dup => r := DoStack(p);
        case PushIp => r := DoStack(p);
        case Not => r := DoStack(p);
        case Neg => r := DoStack(p);
        case Cmp => r := DoCompare(false);
        case Cmps => r := DoCompare(true);
        case Alu(op) => r := DoAlu(op);
        case Lods(w) => r := DoLods(w);
        case Stos(w) => r := DoStos(w);
        case Other(_) => r := Died(Undefined);
      }
    }

    method PushRegister(x: RegOp, r: byte) returns (e: Ended)
      requires Valid() && Narrow() && (x.Pushr? || x.Pushar?)
      modifies stack, stack.content, callStack, callStack.content
      ensures Valid() && (stack.content == old(stack.content) || fresh(stack.content))
      ensures callStack.content == old(callStack.content) || fresh(callStack.content)
      ensures Did(ActReg(x, r, old(View())), e, old(View()), View())
    {
      hide View, Valid, Narrow;
      if r > 21 {
        return Raised(INVALID_OPCODE);
      }
      RegisterValue(r);
      var ok: bool;
      if x.Pushr? {
        ok := Push(regs[r]);
      } else {
        ok := PushCall(regs[r]);
      }
      e := if ok then Went else Died(StackOverflow);
    }

    method PopRegister(x: RegOp, r: byte) returns (e: Ended)
      requires Valid() && (x.Popr? || x.Popar?)
      modifies `regs, stack, callStack
      ensures e.Raised? ==> regs == old(regs)
      ensures Valid() && stack.content == old(stack.content) && callStack.content == old(callStack.content)
      ensures Did(ActReg(x, r, old(View())), e, old(View()), View())
    {
      hide View, Valid, Popped, TopOf, Low32;
      if r > 21 {
        return Raised(INVALID_OPCODE);
      }
      var v: u64;
      if x.Popr? {
        v := Pop();
      } else {
        v := PopCall();
      }
      SetRegister(r, v);
      e := Went;
    }

    /** The register may hold 2^32 or wrap below 0 for a moment: the store that
        follows the instruction keeps 32 bits. */
    method StepRegister(up: bool, r: byte) returns (e: Ended)
      requires Valid() && Narrow()
      modifies `regs
      ensures e.Raised? ==> regs == old(regs)
      ensures Valid() && Did(ActReg(if up then Incr else Decr, r, old(View())), e, old(View()), View())
    {
      hide View, Valid, Narrow, Low64, Low32;
      if r > 21 {
        return Raised(INVALID_OPCODE);
      }
      RegisterValue(r);
      var v := (regs[r] as int) + if up then 1 else -1;
      Low32OfLow64(v);
      SetRegister(r, Low64(v));
      e := Went;
    }

    method DoSet(x: RegOp, r: byte) returns (e: Ended)
      requires Valid() && (x.SetE? || x.SetNe? || x.SetG? || x.SetL?)
      modifies `regs
      ensures e.Raised? ==> regs == old(regs)
      ensures Valid() && Did(ActReg(x, r, old(View())), e, old(View()), View())
    {
      hide Valid, Low32s;
      var on := if x.SetE? then flags.eq else if x.SetNe? then !flags.eq else if x.SetG? then flags.gt else flags.lt;
      SmallWord(1);
      if on {
        e := StoreRegister(r, 1);
      } else {
        e := Went;
      }
    }

    method DoReg(x: RegOp, r: byte) returns (e: Ended)
      requires Valid() && Narrow() && !x.Syscall?
      modifies `regs, stack, stack.content, callStack, callStack.content
      ensures e.Raised? ==> regs == old(regs)
      ensures Valid() && (stack.content == old(stack.content) || fresh(stack.content))
      ensures callStack.content == old(callStack.content) || fresh(callStack.content)
      ensures Did(ActReg(x, r, old(View())), e, old(View()), View())
    {
      hide View, Valid, Narrow, Item, Popped, TopOf, WithRegister, PushData, Machine.PushCall;
      match x {
        case Pushr => e := PushRegister(x, r);
        case Pushar => e := PushRegister(x, r);
        case Popr => e := PopRegister(x, r);
        case Popar => e := PopRegister(x, r);
        case Incr => e := StepRegister(true, r);
        case Decr => e := StepRegister(false, r);
        case Loadsr => e := LoadStackRegister(r);
        case SetE => e := DoSet(x, r);
        case SetNe => e := DoSet(x, r);
        case SetG => e := DoSet(x, r);
        case SetL => e := DoSet(x, r);
        case Storesr => e := Died(Undefined);
        case Int => e := Died(Undefined);
      }
    }

    /** Offsets that reach below the bottom of the stack, or to the cell above its
        top, are left out of the model. */
    method LoadStackRegister(r: byte) returns (e: Ended)
      requires Valid() && Narrow()
      modifies stack, stack.content
      ensures Valid() && (stack.content == old(stack.content) || fresh(stack.content))
      ensures Did(ActReg(Loadsr, r, old(View())), e, old(View()), View())
    {
      hide Valid, Narrow, Item, PushData;
      if r > 21 {
        return Raised(INVALID_OPCODE);
      }
      RegisterValue(r);
      HeightOf();
      e := LoadItem(regs[r]);
    }

    lemma HeightOf()
      requires Valid()
      ensures |View().ds| == stack.top < 0x8000_0001
    {
    }

    method LoadItem(k: u32) returns (e: Ended)
      requires Valid()
      modifies stack, stack.content
      ensures Valid() && (stack.content == old(stack.content) || fresh(stack.content))
      ensures Did(if 1 <= k <= |old(View()).ds| then PushData(old(View()), Item(old(View()).ds, k)) else Fail(Undefined),
                  e, old(View()), View())
    {
      hide View, Valid, Item, PushData;
      HeightOf();
      if k < 1 || k > stack.top {
        return Died(Undefined);
      }
      var x := TopItem(k);
      e := PushOrDie(x);
    }

    method DoImm(y: ImmOp, n: u32) returns (e: Ended)
      requires Valid() && !y.Call? && !y.CallRel? && !y.Jump? && !y.JumpRel?
      modifies stack, stack.content, callStack, callStack.content
      ensures Valid() && (stack.content == old(stack.content) || fresh(stack.content))
      ensures callStack.content == old(callStack.content) || fresh(callStack.content)
      ensures Did(ActImm(y, n, old(View())), e, old(View()), View())
    {
      hide View, Valid, Item, Popped, PushData;
      match y {
        case Push => e := PushOrDie(n);
        case Popn =>
          Drop(n);
          e := Went;
        case Pusha => e := PushCallOrDie(n);
        case Loads => e := LoadItem(n);
        case Stores => e := Died(Undefined);
      }
    }

    // ----- the interpreter -----

    /** Four bytes, little endian. */
    method Immediate(a: nat) returns (n: u32)
      requires a + 4 <= memory.Length
      ensures n == Imm32(memory[..], a)
    {
      n := (memory[a] as int) + 0x100 * (memory[a + 1] as int) + 0x1_0000 * (memory[a + 2] as int)
           + 0x100_0000 * (memory[a + 3] as int);
      assert memory[..][a..a + 4] == memory[a..a + 4];
    }

    method Immediate64(a: nat) returns (n: u64)
      requires a + 8 <= memory.Length
      ensures n == FromLe64(memory[..][a..a + 8])
    {
      hide FromLe32;
      var low := Immediate(a);
      var high := Immediate(a + 4);
      n := (low as int) + 0x1_0000_0000 * (high as int);
      assert memory[..][a..a + 8][..4] == memory[..][a..a + 4];
      assert memory[..][a..a + 8][4..] == memory[..][a + 4..a + 8];
    }

    /** The opcode switch, with the operands that follow the opcode. */
    method Fetch() returns (f: Fetched)
      ensures f == Decode(memory[..], instructionPointer)
    {
      hide Imm32, FromLe64, ToPlain, ToReg, ToImm;
      var a := instructionPointer;
      if a >= memory.Length {
        return PastEnd;
      }
      var c := memory[a];
      if ToPlain(c).Some? {
        return Instruction(Plain(ToPlain(c).value));
      }
      if ToReg(c).Some? {
        return if a + 2 <= memory.Length then Instruction(Reg(ToReg(c).value, memory[a + 1])) else PastEnd;
      }
      if ToImm(c).Some? {
        if a + 5 > memory.Length {
          return PastEnd;
        }
        var n := Immediate(a + 1);
        return Instruction(Imm(ToImm(c).value, n));
      }
      if c == 0x2B || c == 0x35 {
        if a + 6 > memory.Length {
          return PastEnd;
        }
        var n := Immediate(a + 2);
        return Instruction(RegImm(if c == 0x2B then Loadr else Loadi, memory[a + 1], n));
      }
      if c == RFC_PREFIX {
        f := FetchRfc(a);
      } else {
        f := UnknownOpcode;
      }
    }

    method FetchRfc(a: nat) returns (f: Fetched)
      requires a < memory.Length
      ensures f == DecodeRfc(memory[..], a)
    {
      hide FromLe64;
      if a + 1 >= memory.Length {
        return PastEnd;
      }
      if memory[a + 1] == 0 {
        if a + 11 > memory.Length {
          return PastEnd;
        }
        var q := Immediate64(a + 3);
        return Instruction(Loadr64(memory[a + 2], q));
      }
      if memory[a + 1] == 1 {
        if a + 10 > memory.Length {
          return PastEnd;
        }
        var q := Immediate64(a + 2);
        return Instruction(Push64(q));
      }
      f := UnknownOpcode;
    }

    method HandleCpuException(id: nat) returns (r: Stop)
      requires Valid() && Narrow() && id < 4
      modifies `instructionPointer, `exceptionFlag, stack, stack.content
      ensures Valid() && (stack.content == old(stack.content) || fresh(stack.content))
      ensures Came(HandleException(old(View()), id), r, old(View()), View()) && !r.Trapped?
    {
      RegisterValue(0);
      if exceptionFlag {
        return Broken(FaultInHandler);
      }
      if exceptionHandlers[id] == 0 {
        return Broken(Unhandled(id));
      }
      var ok := Push(regs[0]);
      if !ok {
        return Broken(StackOverflow);
      }
      GoTo(exceptionHandlers[id]);
      exceptionFlag := true;
      r := Continued;
    }

    method GoTo(a: u32)
      requires Valid()
      modifies `instructionPointer
      ensures Valid() && View() == old(View()).(ip := a)
    {
      instructionPointer := a;
    }

    method DoBranch(i: Instr) returns (r: Stop)
      requires Valid() && Branches(i)
      modifies `instructionPointer, callStack, callStack.content
      ensures Valid() && (callStack.content == old(callStack.content) || fresh(callStack.content))
      ensures Came(Branch(i, old(View())), r, old(View()), View())
    {
      hide Valid, TopOf, Popped, Low32, Low32s, Taken;
      match i {
        case Plain(p) =>
          if p.Exit? {
            return Halted;
          }
          var back := PopCall();
          GoTo(Low32(back));
          r := Continued;
        case Reg(_, n) => r := Trapped(n);
        case Imm(y, n) => r := DoJump(y, n);
      }
    }

    method DoJump(y: ImmOp, n: u32) returns (r: Stop)
      requires Valid() && (y.Call? || y.CallRel? || y.Jump? || y.JumpRel?)
      modifies `instructionPointer, callStack, callStack.content
      ensures Valid() && (callStack.content == old(callStack.content) || fresh(callStack.content))
      ensures Came(Branch(Imm(y, n), old(View())), r, old(View()), View())
    {
      hide Valid, TopOf, Popped, Low32s;
      var a := instructionPointer;
      match y {
        case Call => r := EnterFunction(n);
        case CallRel => r := EnterFunction(Low32((a as int) + n));
        case Jump(c) =>
          var taken := IsTaken(c);
          GoTo(if taken then n else Low32((a as int) + 5));
          r := Continued;
        case JumpRel(c) =>
          var taken := IsTaken(c);
          GoTo(Low32((a as int) + if taken then n else 5));
          r := Continued;
      }
    }

    method EnterFunction(target: u32) returns (r: Stop)
      requires Valid()
      modifies `instructionPointer, callStack, callStack.content
      ensures Valid() && (callStack.content == old(callStack.content) || fresh(callStack.content))
      ensures Came(EnterCall(old(View()), target), r, old(View()), View())
    {
      hide Valid, Low32, Low32s;
      var ok := PushCall(Low32((instructionPointer as int) + 5));
      if !ok {
        return Broken(StackOverflow);
      }
      GoTo(target);
      r := Continued;
    }

    method IsTaken(c: JumpIf) returns (b: bool)
      requires Valid()
      ensures b == Taken(c, View().flags)
    {
      match c {
        case Always => b := true;
        case IfEqual => b := flags.eq;
        case IfLess => b := flags.lt;
        case IfGreater => b := flags.gt;
        case IfZero => b := flags.zero;
      }
    }

    method DoInstruction(i: Instr) returns (e: Ended)
      requires Valid() && Narrow() && !Branches(i)
      modifies `regs, `flags, stack, stack.content, callStack, callStack.content, memory
      ensures Valid() && (stack.content == old(stack.content) || fresh(stack.content))
      ensures callStack.content == old(callStack.content) || fresh(callStack.content)
      ensures e.Raised? ==> regs == old(regs)
      ensures Did(Act(i, old(View())), e, old(View()), View())
    {
      hide View, Valid, Narrow, ActPlain, ActReg, ActImm, PushData, WithRegister, Low32;
      match i {
        case Plain(p) => e := DoPlain(p);
        case Reg(x, r) => e := DoReg(x, r);
        case Imm(y, n) => e := DoImm(y, n);
        case RegImm(z, r, n) =>
          if z.Loadr? {
            SmallWord(n);
            e := StoreRegister(r, n);
          } else {
            e := Died(Undefined);
          }
        case Loadr64(r, q) => e := StoreRegister(r, q);
        case Push64(q) => e := PushOrDie(q);
      }
    }

    /** What follows an instruction that does not branch. */
    method Finish(e: Ended, next: u32) returns (r: Stop)
      requires Valid() && (e.Raised? ==> Narrow())
      modifies `instructionPointer, `exceptionFlag, stack, stack.content
      ensures Valid() && (stack.content == old(stack.content) || fresh(stack.content))
      ensures e.Went? ==> Came(Next(old(View()).(ip := next)), r, old(View()), View())
      ensures e.Raised? ==> Came(if e.id < 4 then HandleException(old(View()), e.id) else Stuck(Undefined), r, old(View()), View())
      ensures e.Died? ==> r == Broken(e.why)
      ensures !r.Trapped?
    {
      hide Valid, View, HandleException;
      match e {
        case Went =>
          GoTo(next);
          r := Continued;
        case Raised(id) =>
          if id < 4 {
            r := HandleCpuException(id);
          } else {
            r := Broken(Undefined);
          }
        case Died(why) => r := Broken(why);
      }
    }

    method Execute(i: Instr) returns (r: Stop)
      requires Valid() && Narrow()
      modifies `instructionPointer, `exceptionFlag
      modifies `regs, `flags, stack, stack.content, callStack, callStack.content, memory
      ensures Valid() && (stack.content == old(stack.content) || fresh(stack.content))
      ensures callStack.content == old(callStack.content) || fresh(callStack.content)
      ensures Came(Perform(i, old(View())), r, old(View()), View())
      ensures r.Trapped? ==> regs == old(regs)
    {
      hide Valid, View, Act, Branch, HandleException, Low32;
      TwoStacks();
      Pointer();
      if Branches(i) {
        r := DoBranch(i);
      } else {
        var next := Low32((instructionPointer as int) + Increment(i));
        var e := DoInstruction(i);
        r := Finish(e, next);
      }
    }

    /** One call of the interpreter is one step of the machine. */
    method EmulateInstruction() returns (r: Stop)
      requires Valid() && Narrow()
      modifies `instructionPointer, `exceptionFlag
      modifies `regs, `flags, stack, stack.content, callStack, callStack.content, memory
      ensures Valid() && (stack.content == old(stack.content) || fresh(stack.content))
      ensures callStack.content == old(callStack.content) || fresh(callStack.content)
      ensures Came(Step(old(View())), r, old(View()), View())
      ensures r.Trapped? ==> regs == old(regs)
    {
      hide Valid, Perform, Decode, HandleException, Low32s;
      TwoStacks();
      var f := Fetch();
      match f {
        case Instruction(i) => r := Execute(i);
        case UnknownOpcode => r := HandleCpuException(INVALID_OPCODE);
        case PastEnd => r := Broken(Undefined);
      }
    }

    // ----- the heap -----

    /** SYSCALL_ALLOC. `extra` is what the reallocated memory ends with. */
    method AllocMemory(extra: seq<byte>) returns (r: Stop)
      requires Valid()
      modifies `instructionPointer, `memory, `table, stack, stack.content
      ensures Valid() && (stack.content == old(stack.content) || fresh(stack.content))
      ensures match Protection.AfterAlloc(old(View()), extra)
              case Some(t) => r == Continued && View() == t
              case None => r != Continued
      ensures memory == old(memory) || fresh(memory)
    {
      hide Valid, Item, HeapPages, PagesAfter, Low32s, VStack.Contents, Low32;
      Pointer();
      var size := memory.Length;
      var ok := Push(size);
      if !ok {
        return Broken(StackOverflow);
      }
      var asked := TopItem(2);
      var request := Low32(asked);
      if !Room(size, request) || table.types.Length != size / PAGE + 1 || |extra| != PAGE * HeapPages(request) {
        return Broken(Undefined);
      }
      GrowMemory(extra, request);
      GoTo(Low32((instructionPointer as int) + 2));
      r := Continued;
    }

    /** The old bytes, then the new ones; the page table follows. */
    method GrowMemory(extra: seq<byte>, request: u32)
      requires Valid() && Room(memory.Length, request) && table.types.Length == memory.Length / PAGE + 1
      requires |extra| == PAGE * HeapPages(request)
      modifies `memory, `table
      ensures Valid() && fresh(memory)
      ensures View() == old(View()).(mem := old(View()).mem + extra,
                                     pages := PagesAfter(old(View()).pages, |old(View()).mem|, request))
    {
      hide PagesAfter, HeapPages, Low32s, VStack.Valid, VStack.Contents;
      SizeAfter(memory.Length, request);
      var size := memory.Length;
      var larger := Reallocated(memory, extra);
      var t, n := table.GrowHeap(size, request);
      memory, table := larger, t;
    }

    method PushCallOrDie(x: u64) returns (r: Ended)
      requires Valid()
      modifies callStack, callStack.content
      ensures Valid() && (callStack.content == old(callStack.content) || fresh(callStack.content))
      ensures Did(Machine.PushCall(old(View()), x), r, old(View()), View())
    {
      hide View, Valid;
      var ok := PushCall(x);
      r := if ok then Went else Died(StackOverflow);
    }

    method Drop(n: u32)
      requires Valid()
      modifies stack
      ensures Valid() && stack.content == old(stack.content)
      ensures View() == old(View()).(ds := Popped(old(View()).ds, n))
    {
      hide View, Valid, Popped;
      ghost var v := View();
      PoppedTwice(v.ds, 0);
      for i := 0 to n
        invariant Valid() && stack.content == old(stack.content)
        invariant View() == v.(ds := Popped(v.ds, i))
      {
        PoppedTwice(v.ds, i);
        var _ := Pop();
      }
    }
  }

  method Reallocated(a: array<byte>, extra: seq<byte>) returns (b: array<byte>)
    ensures fresh(b) && b[..] == a[..] + extra
  {
    b := new byte[a.Length + |extra|](_ => 0);
    forall i | 0 <= i < a.Length {
      b[i] := a[i];
    }
    forall i | 0 <= i < |extra| {
      b[a.Length + i] := extra[i];
    }
  }

  lemma SmallWord(v: u32)
    ensures Low32(v) == v
  {
  }
}
