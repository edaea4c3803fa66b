/** Page protection at run time: code never changes under a running program,
    as long as its stores are aligned. */
module Protection {
  import opened Words
  import opened Isa
  import opened Machine
  import opened Pages

  const SYSCALL_ALLOC := 7

  // ----- growing the heap from inside a program -----

  /** SYSCALL_ALLOC: the old memory size is pushed, memory grows by whole pages
      with bytes the system chooses, the page table follows. None: the data stack
      is full, or the sizes no longer fit in 32 bits. */
  function AfterAlloc(s: State, extra: seq<byte>): Option<State> {
    var pushed := PushData(s, |s.mem|);
    if !pushed.Ok? then None
    else
      var request := Low32(Item(pushed.s.ds, 2));
      if !Room(|s.mem|, request) || |s.pages| != |s.mem| / PAGE + 1 || |extra| != PAGE * HeapPages(request) then None
      else
        Some(pushed.s.(mem := s.mem + extra, pages := PagesAfter(s.pages, |s.mem|, request), ip := Low32(s.ip + 2)))
  }

  /** If the next instruction is a store, its address is a multiple of its width. */
  predicate AlignedStore(s: State) {
    match Decode(s.mem, s.ip)
    case Instruction(i) => i.Plain? && i.p.Stos? ==> s.regs[0] % Bytes(i.p.w) == 0
    case _ => true
  }

  /** Executable bytes below `end` are the same, and still executable. */
  ghost predicate BytesKept(m: seq<byte>, pages: seq<Page>, m': seq<byte>, pages': seq<Page>, end: nat) {
    && |m| <= |m'|
    && forall a :: 0 <= a < end && a < |m| && PageAt(pages, a) == Executable ==>
         m'[a] == m[a] && PageAt(pages', a) == Executable
  }

  ghost predicate CodeKept(s: State, t: State, end: nat) {
    BytesKept(s.mem, s.pages, t.mem, t.pages, end)
  }

  lemma ActKeepsMemory(i: Instr, s: State)
    requires !Branches(i) && !(i.Plain? && i.p.Stos?) && Act(i, s).Ok?
    ensures Act(i, s).s.mem == s.mem && Act(i, s).s.pages == s.pages
  {
    hide ActPlain, ActReg;
    match i
    case Plain(p) => PlainKeepsMemory(p, s);
    case Reg(x, r) => RegKeepsMemory(x, r, s);
    case Imm(_, _) =>
    case RegImm(_, _, _) =>
    case Loadr64(_, _) =>
    case Push64(_) =>
  }

  lemma PlainKeepsMemory(p: PlainOp, s: State)
    requires !p.Exit? && !p.Ret? && !p.Stos? && ActPlain(p, s).Ok?
    ensures ActPlain(p, s).s.mem == s.mem && ActPlain(p, s).s.pages == s.pages
  {
    hide Compute, Compare, ReadLe, PageAt, Item, Popped;
  }

  lemma RegKeepsMemory(x: RegOp, r: byte, s: State)
    requires !x.Syscall? && ActReg(x, r, s).Ok?
    ensures ActReg(x, r, s).s.mem == s.mem && ActReg(x, r, s).s.pages == s.pages
  {
    hide Item, Popped, TopOf;
  }

  lemma BranchKeepsMemory(i: Instr, s: State)
    requires Branches(i) && Branch(i, s).Next?
    ensures Branch(i, s).s.mem == s.mem && Branch(i, s).s.pages == s.pages
  {
    hide TopOf, Popped;
  }

  /** An aligned store stays inside one page, which is not executable. */
  lemma StoreKeepsCode(s: State, w: Width)
    requires ActPlain(Stos(w), s).Ok? && s.regs[0] % Bytes(w) == 0
    ensures CodeKept(s, ActPlain(Stos(w), s).s, |s.mem|) && |ActPlain(Stos(w), s).s.mem| == |s.mem|
  {
    hide WriteLe;
    var r := s.regs[0];
    forall a | r <= a < r + Bytes(w)
      ensures a / PAGE == r / PAGE
    {
      WithinPage(r, w, a);
    }
  }

  lemma WithinPage(r: nat, w: Width, a: nat)
    requires r % Bytes(w) == 0 && r <= a < r + Bytes(w)
    ensures a / PAGE == r / PAGE
  {
    var q, m := r / PAGE, r % PAGE;
    match w
    case Byte =>
    case Word =>
      var k := r / 2;
      assert m == 2 * (k - 2048 * q);
      assert PAGE * q <= a < PAGE * (q + 1);
    case Dword =>
      var k := r / 4;
      assert m == 4 * (k - 1024 * q);
      assert PAGE * q <= a < PAGE * (q + 1);
  }

  lemma StepKeepsCode(s: State, t: State)
    requires Step(s) == Next(t) && AlignedStore(s)
    ensures CodeKept(s, t, |s.mem|) && |t.mem| == |s.mem|
  {
    hide Act, Branch, CodeKept;
    if Decode(s.mem, s.ip).Instruction? {
      PerformKeepsCode(Decode(s.mem, s.ip).i, s, t);
    } else {
      SameMemory(s, t);
    }
  }

  lemma SameMemory(s: State, t: State)
    requires t.mem == s.mem && t.pages == s.pages
    ensures CodeKept(s, t, |s.mem|)
  {
  }

  lemma PerformKeepsCode(i: Instr, s: State, t: State)
    requires Perform(i, s) == Next(t) && (i.Plain? && i.p.Stos? ==> s.regs[0] % Bytes(i.p.w) == 0)
    ensures CodeKept(s, t, |s.mem|) && |t.mem| == |s.mem|
  {
    hide Branch, CodeKept, ActPlain, ActReg, ActImm;
    if Branches(i) {
      BranchKeepsMemory(i, s);
      SameMemory(s, t);
    } else if Act(i, s).Raise? {
      SameMemory(s, t);
    } else if i.Plain? && i.p.Stos? {
      StoreKeepsCode(s, i.p.w);
      MovedOn(s, ActPlain(i.p, s).s, t);
    } else {
      ActKeepsMemory(i, s);
      SameMemory(s, t);
    }
  }

  lemma MovedOn(s: State, u: State, t: State)
    requires CodeKept(s, u, |s.mem|) && t.mem == u.mem && t.pages == u.pages
    ensures CodeKept(s, t, |s.mem|)
  {
  }

  lemma AllocKeepsCode(s: State, extra: seq<byte>)
    requires AfterAlloc(s, extra).Some?
    ensures CodeKept(s, AfterAlloc(s, extra).value, |s.mem|)
  {
    hide HeapPages, PagesAfter, Item;
    var request := Low32(Item(s.ds + [|s.mem|], 2));
    PagesAfterGrowth(s.pages, |s.mem|, request);
    var t := AfterAlloc(s, extra).value;
    forall a | 0 <= a < |s.mem|
      ensures PageAt(t.pages, a) == PageAt(s.pages, a)
    {
      assert a / PAGE < |s.mem| / PAGE;
      assert t.pages[a / PAGE] == t.pages[..|s.mem| / PAGE][a / PAGE];
    }
  }

  // ----- exactly which stores are harmless -----

  /** A store of any value leaves all code alone exactly when its last byte is
      not on an executable page: only the page of its first byte is checked. */
  lemma StoreExact(s: State, w: Width)
    requires PageAt(s.pages, s.regs[0]) == ReadWrite && s.regs[0] + Bytes(w) <= |s.mem|
    ensures (forall v: u32 :: CodeKept(s, s.(mem := WriteLe(s.mem, s.regs[0], w, v)), |s.mem|))
            <==> PageAt(s.pages, s.regs[0] + Bytes(w) - 1) != Executable
  {
    hide WriteLe;
    var r, last := s.regs[0], s.regs[0] + Bytes(w) - 1;
    if PageAt(s.pages, last) == Executable {
      LastByteWritten(s.mem, r, w);
      var v: u32 :| WriteLe(s.mem, r, w, v)[last] != s.mem[last];
      assert !CodeKept(s, s.(mem := WriteLe(s.mem, r, w, v)), |s.mem|);
    } else {
      forall a | r <= a <= last
        ensures PageAt(s.pages, a) != Executable
      {
        assert a / PAGE == r / PAGE || a / PAGE == last / PAGE;
      }
    }
  }

  lemma LastByteWritten(m: Memory, a: nat, w: Width)
    requires a + Bytes(w) <= |m|
    ensures exists v: u32 :: WriteLe(m, a, w, v)[a + Bytes(w) - 1] != m[a + Bytes(w) - 1]
  {
    var last := a + Bytes(w) - 1;
    var v: u32 := if m[last] == 0 then 0x0101_0101 else 0;
    assert Le32(v)[Bytes(w) - 1] == v % 256;
    assert WriteLe(m, a, w, v)[last] == Le32(v)[..Bytes(w)][Bytes(w) - 1];
  }

  /** An unaligned word two bytes before a page of code overwrites code. */
  lemma UnalignedStoreHitsCode(s: State)
    requires s.regs[0] == 0x1FFE && |s.mem| == 0x3000 && s.pages == [Executable, ReadWrite, Executable, NoExist]
    ensures ActPlain(Stos(Dword), s).Ok?
    ensures !(forall v: u32 :: CodeKept(s, s.(mem := WriteLe(s.mem, s.regs[0], Dword, v)), |s.mem|))
  {
    hide WriteLe;
    StoreExact(s, Dword);
  }
}
