/** What one instruction reads and writes in memory: a step depends on nothing
    else there and changes nothing else. */
module Locality {
  import opened Words
  import opened Isa
  import opened Machine

  /** How many bytes from `ip` on decide what instruction is fetched. */
  function FetchLength(m: seq<byte>, ip: nat): nat {
    if ip >= |m| then 0
    else
      var c := m[ip];
      if ToPlain(c).Some? then 1
      else if ToReg(c).Some? then 2
      else if ToImm(c).Some? then 5
      else if c == 0x2B || c == 0x35 then 6
      else if c == RFC_PREFIX && ip + 1 < |m| then
        if m[ip + 1] == 0 then 11 else if m[ip + 1] == 1 then 10 else 2
      else 1
  }

  /** The address is read by the next step. */
  predicate Looks(s: State, a: int) {
    || s.ip <= a < s.ip + FetchLength(s.mem, s.ip)
    || match Decode(s.mem, s.ip)
       case Instruction(i) => i.Plain? && i.p.Lods? && s.regs[0] <= a < s.regs[0] + Bytes(i.p.w)
       case _ => false
  }

  /** A store to a page that may be written. */
  predicate StoresTo(i: Instr, s: State, a: int) {
    && i.Plain? && i.p.Stos? && PageAt(s.pages, s.regs[0]) == ReadWrite
    && s.regs[0] <= a < s.regs[0] + Bytes(i.p.w)
  }

  /** The address is written by the next step. */
  predicate Writes(s: State, a: int) {
    match Decode(s.mem, s.ip)
    case Instruction(i) => StoresTo(i, s, a)
    case _ => false
  }

  /** What is fetched is the instruction and nothing else. */
  lemma FetchIsInstruction(m: seq<byte>, ip: nat)
    requires Decode(m, ip).Instruction?
    ensures FetchLength(m, ip) == Increment(Decode(m, ip).i)
  {
  }

  ghost predicate AgreeOn(m: seq<byte>, m': seq<byte>, lo: int, hi: int) {
    |m| == |m'| && forall a :: lo <= a < hi && 0 <= a < |m| ==> m[a] == m'[a]
  }

  lemma SameSlice(m: seq<byte>, m': seq<byte>, lo: nat, hi: nat)
    requires AgreeOn(m, m', lo, hi) && lo <= hi <= |m|
    ensures m[lo..hi] == m'[lo..hi]
  {
  }

  /** The fetch depends only on the bytes it reads. */
  lemma DecodeLocal(m: seq<byte>, m': seq<byte>, ip: nat)
    requires AgreeOn(m, m', ip, ip + FetchLength(m, ip))
    ensures Decode(m, ip) == Decode(m', ip) && FetchLength(m', ip) == FetchLength(m, ip)
  {
    hide FromLe32, FromLe64, IsOtherOpcode;
    if ip < |m| {
      assert m'[ip] == m[ip];
      var c := m[ip];
      if ToPlain(c).Some? {
      } else if ToReg(c).Some? {
        assert ip + 2 <= |m| ==> m[ip + 1] == m'[ip + 1];
      } else if ToImm(c).Some? {
        if ip + 5 <= |m| {
          SameSlice(m, m', ip + 1, ip + 5);
        }
      } else if c == 0x2B || c == 0x35 {
        if ip + 6 <= |m| {
          SameSlice(m, m', ip + 2, ip + 6);
        }
      } else if c == RFC_PREFIX && ip + 1 < |m| {
        assert m[ip + 1] == m'[ip + 1];
        DecodeRfcLocal(m, m', ip);
      }
    }
  }

  lemma DecodeRfcLocal(m: seq<byte>, m': seq<byte>, ip: nat)
    requires ip + 1 < |m| && AgreeOn(m, m', ip, ip + if m[ip + 1] == 0 then 11 else if m[ip + 1] == 1 then 10 else 2)
    ensures DecodeRfc(m, ip) == DecodeRfc(m', ip)
  {
    hide FromLe64;
    assert m[ip + 1] == m'[ip + 1];
    if m[ip + 1] == 0 && ip + 11 <= |m| {
      SameSlice(m, m', ip + 3, ip + 11);
    }
    if m[ip + 1] == 1 && ip + 10 <= |m| {
      SameSlice(m, m', ip + 2, ip + 10);
    }
  }

  // ----- steps -----

  predicate SameButMemory(s: State, t: State) {
    s == t.(mem := s.mem) && |s.mem| == |t.mem|
  }

  /** The two outcomes are the same, memory aside. */
  predicate Alike(o: Outcome, p: Outcome) {
    match o
    case Next(t) => p.Next? && SameButMemory(t, p.s)
    case Trap(n) => p == Trap(n)
    case Halt => p == Halt
    case Stuck(why) => p == Stuck(why)
  }

  lemma ReadLocal(m: seq<byte>, m': seq<byte>, a: nat, w: Width)
    requires a + Bytes(w) <= |m| && AgreeOn(m, m', a, a + Bytes(w))
    ensures ReadLe(m, a, w) == ReadLe(m', a, w)
  {
    hide FromLe32;
    SameSlice(m, m', a, a + Bytes(w));
  }

  lemma ActLocal(i: Instr, s: State, t: State)
    requires SameButMemory(s, t) && !Branches(i)
    requires i.Plain? && i.p.Lods? ==> AgreeOn(s.mem, t.mem, s.regs[0], s.regs[0] + Bytes(i.p.w))
    ensures var a, b := Act(i, s), Act(i, t);
            (a.Ok? ==> b.Ok? && SameButMemory(a.s, b.s)) && (!a.Ok? ==> b == a)
  {
    hide ActPlain, ActReg;
    match i
    case Plain(p) => PlainLocal(p, s, t);
    case Reg(x, r) => RegLocal(x, r, s, t);
    case Imm(_, _) =>
    case RegImm(_, _, _) =>
    case Loadr64(_, _) =>
    case Push64(_) =>
  }

  lemma PlainLocal(p: PlainOp, s: State, t: State)
    requires SameButMemory(s, t) && !p.Exit? && !p.Ret?
    requires p.Lods? ==> AgreeOn(s.mem, t.mem, s.regs[0], s.regs[0] + Bytes(p.w))
    ensures var a, b := ActPlain(p, s), ActPlain(p, t);
            (a.Ok? ==> b.Ok? && SameButMemory(a.s, b.s)) && (!a.Ok? ==> b == a)
  {
    hide Compute, Compare, ReadLe, PageAt, Item, Popped;
    if p.Lods? && s.regs[0] + Bytes(p.w) <= |s.mem| {
      ReadLocal(s.mem, t.mem, s.regs[0], p.w);
    }
  }

  lemma RegLocal(x: RegOp, r: byte, s: State, t: State)
    requires SameButMemory(s, t) && !x.Syscall?
    ensures var a, b := ActReg(x, r, s), ActReg(x, r, t);
            (a.Ok? ==> b.Ok? && SameButMemory(a.s, b.s)) && (!a.Ok? ==> b == a)
  {
    hide Item, Popped, TopOf;
  }

  lemma BranchLocal(i: Instr, s: State, t: State)
    requires SameButMemory(s, t) && Branches(i)
    ensures Alike(Branch(i, s), Branch(i, t))
  {
    hide Popped, TopOf;
  }

  lemma PerformLocal(i: Instr, s: State, t: State)
    requires SameButMemory(s, t)
    requires i.Plain? && i.p.Lods? ==> AgreeOn(s.mem, t.mem, s.regs[0], s.regs[0] + Bytes(i.p.w))
    ensures Alike(Perform(i, s), Perform(i, t))
  {
    hide Act, Branch;
    if Branches(i) {
      BranchLocal(i, s, t);
    } else {
      ActLocal(i, s, t);
    }
  }

  /** A step's outcome depends only on the memory it reads. */
  lemma StepLocal(s: State, t: State)
    requires SameButMemory(s, t)
    requires forall a :: 0 <= a < |s.mem| && Looks(s, a) ==> s.mem[a] == t.mem[a]
    ensures Alike(Step(s), Step(t))
    ensures forall a :: Writes(s, a) == Writes(t, a)
  {
    hide Perform, FetchLength, Decode;
    DecodeLocal(s.mem, t.mem, s.ip);
    if Decode(s.mem, s.ip).Instruction? {
      var i := Decode(s.mem, s.ip).i;
      PerformLocal(i, s, t);
    }
  }

  // ----- what a step writes -----

  lemma ActWrites(i: Instr, s: State, a: nat)
    requires !Branches(i) && Act(i, s).Ok? && a < |s.mem|
    ensures |Act(i, s).s.mem| == |s.mem| && Act(i, s).s.pages == s.pages
    ensures !StoresTo(i, s, a) ==> Act(i, s).s.mem[a] == s.mem[a]
  {
    hide ActReg, WriteLe, Compute, Compare, ReadLe, PageAt, Item, Popped;
    match i
    case Plain(p) =>
    case Reg(x, r) => RegWrites(x, r, s);
    case Imm(_, _) =>
    case RegImm(_, _, _) =>
    case Loadr64(_, _) =>
    case Push64(_) =>
  }

  lemma RegWrites(x: RegOp, r: byte, s: State)
    requires !x.Syscall? && ActReg(x, r, s).Ok?
    ensures ActReg(x, r, s).s.mem == s.mem && ActReg(x, r, s).s.pages == s.pages
  {
    hide Item, Popped, TopOf;
  }

  lemma PerformWrites(i: Instr, s: State, a: nat)
    requires Perform(i, s).Next? && a < |s.mem|
    ensures var t := Perform(i, s).s;
            && |t.mem| == |s.mem| && t.pages == s.pages && t.limit == s.limit
            && (!StoresTo(i, s, a) ==> t.mem[a] == s.mem[a])
  {
    hide Act, Popped, TopOf;
    if !Branches(i) && Act(i, s).Ok? {
      ActWrites(i, s, a);
      ActKeepsLimit(i, s);
    }
  }

  lemma ActKeepsLimit(i: Instr, s: State)
    requires !Branches(i) && Act(i, s).Ok?
    ensures Act(i, s).s.limit == s.limit
  {
    hide Compute, Compare, ReadLe, PageAt, Item, Popped, WriteLe, TopOf;
  }

  /** A step writes nowhere else, and keeps size and types of memory. */
  lemma StepWrites(s: State, a: nat)
    requires Step(s).Next? && a < |s.mem|
    ensures var t := Step(s).s;
            && |t.mem| == |s.mem| && t.pages == s.pages && t.limit == s.limit
            && (!Writes(s, a) ==> t.mem[a] == s.mem[a])
  {
    hide Perform, Decode;
    if Decode(s.mem, s.ip).Instruction? {
      PerformWrites(Decode(s.mem, s.ip).i, s, a);
    }
  }

  /** Two steps that agree write the same values where they write. */
  lemma WrittenAlike(s: State, t: State, a: nat)
    requires SameButMemory(s, t) && Step(s).Next? && Step(t).Next? && a < |s.mem|
    requires Decode(s.mem, s.ip) == Decode(t.mem, t.ip) && Writes(s, a)
    ensures |Step(s).s.mem| == |s.mem| && |Step(t).s.mem| == |s.mem| && Step(s).s.mem[a] == Step(t).s.mem[a]
  {
    hide Decode, WriteLe;
    var w := Decode(s.mem, s.ip).i.p.w;
    StoreAlike(s, t, w, a);
  }

  lemma StoreAlike(s: State, t: State, w: Width, a: nat)
    requires SameButMemory(s, t) && StoresTo(Plain(Stos(w)), s, a) && a < |s.mem|
    requires Perform(Plain(Stos(w)), s).Next? && Perform(Plain(Stos(w)), t).Next?
    ensures var u, v := Perform(Plain(Stos(w)), s).s, Perform(Plain(Stos(w)), t).s;
            |u.mem| == |s.mem| && |v.mem| == |s.mem| && u.mem[a] == v.mem[a]
  {
    if s.regs[0] + Bytes(w) <= |s.mem| {
      var k := a - s.regs[0];
      assert WriteLe(s.mem, s.regs[0], w, s.regs[1])[a] == Le32(s.regs[1])[..Bytes(w)][k];
      assert WriteLe(t.mem, t.regs[0], w, t.regs[1])[a] == Le32(t.regs[1])[..Bytes(w)][k];
    }
  }
}
