/** A step whose accesses lie below some address does the same in a memory that
    ends there. */
module Confinement {
  import opened Words
  import opened Isa
  import opened Machine
  import opened Locality
  import opened Protection
  import opened Scheduling

  /** Everything the next step fetches, loads, stores or dispatches to lies below
      address `n`. */
  predicate Inside(s: State, n: nat) {
    && s.ip + FetchLength(s.mem, s.ip) <= n
    && match Decode(s.mem, s.ip)
       case Instruction(i) => AccessInside(i, s, n)
       case _ => true
  }

  predicate AccessInside(i: Instr, s: State, n: nat) {
    match i
    case Plain(Lods(w)) => s.regs[0] + Bytes(w) <= n
    case Plain(Stos(w)) => s.regs[0] + Bytes(w) <= n
    case Reg(x, r) => x.Syscall? && r == SYSCALL_DISPATCH ==> Low32(Item(s.ds, 1)) <= n
    case _ => true
  }

  /** The same context over the first `n` bytes of memory and another page table. */
  function Cut(s: State, n: nat, pages: seq<Page>): State
    requires n <= |s.mem|
  {
    s.(mem := s.mem[..n], pages := pages)
  }

  /** The page tables give addresses below `n` the same types. */
  ghost predicate SameTypes(pages: seq<Page>, pages': seq<Page>, n: nat) {
    forall a :: 0 <= a < n ==> PageAt(pages, a) == PageAt(pages', a)
  }

  lemma DecodeCut(m: seq<byte>, n: nat, ip: nat)
    requires n <= |m| && ip + FetchLength(m, ip) <= n
    ensures Decode(m[..n], ip) == Decode(m, ip)
  {
    hide FromLe32, FromLe64, IsOtherOpcode, DecodeRfc;
    if ip < |m| {
      var c := m[ip];
      assert m[..n][ip] == c;
      if ToPlain(c).Some? || ToReg(c).Some? {
      } else if ToImm(c).Some? {
        assert ip + 5 <= |m| ==> m[..n][ip + 1..ip + 5] == m[ip + 1..ip + 5];
      } else if c == 0x2B || c == 0x35 {
        assert ip + 6 <= |m| ==> m[..n][ip + 2..ip + 6] == m[ip + 2..ip + 6];
      } else if c == RFC_PREFIX {
        DecodeRfcCut(m, n, ip);
      }
    }
  }

  lemma DecodeRfcCut(m: seq<byte>, n: nat, ip: nat)
    requires ip < n <= |m|
    requires ip + 1 < |m| ==> ip + (if m[ip + 1] == 0 then 11 else if m[ip + 1] == 1 then 10 else 2) <= n
    ensures DecodeRfc(m[..n], ip) == DecodeRfc(m, ip)
  {
    hide FromLe64;
    if ip + 1 < |m| {
      assert m[..n][ip + 1] == m[ip + 1];
      if m[ip + 1] == 0 {
        assert m[..n][ip + 3..ip + 11] == m[ip + 3..ip + 11];
      } else if m[ip + 1] == 1 {
        assert m[..n][ip + 2..ip + 10] == m[ip + 2..ip + 10];
      }
    }
  }

  /** What an outcome becomes in the smaller memory. */
  predicate IsCut(o: Outcome, p: Outcome, n: nat, pages: seq<Page>) {
    match o
    case Next(t) => n <= |t.mem| && p == Next(Cut(t, n, pages))
    case _ => p == o
  }

  predicate IsCutAction(a: Action, b: Action, n: nat, pages: seq<Page>) {
    match a
    case Ok(t) => n <= |t.mem| && b == Ok(Cut(t, n, pages))
    case _ => b == a
  }

  lemma ReadCut(m: seq<byte>, n: nat, a: nat, w: Width)
    requires a + Bytes(w) <= n <= |m|
    ensures ReadLe(m[..n], a, w) == ReadLe(m, a, w)
  {
    hide FromLe32;
    assert w.Dword? ==> m[..n][a..a + 4] == m[a..a + 4];
  }

  lemma WriteCut(m: Memory, n: nat, a: nat, w: Width, v: u32)
    requires a + Bytes(w) <= n <= |m|
    ensures WriteLe(m[..n], a, w, v) == WriteLe(m, a, w, v)[..n]
  {
    hide Le32;
    var x, y := WriteLe(m[..n], a, w, v), WriteLe(m, a, w, v);
    assert m[..n][..a] == m[..a];
    assert m[..n][a + Bytes(w)..] == m[a + Bytes(w)..n];
    assert x == y[..n];
  }

  lemma PlainCut(p: PlainOp, s: State, n: nat, pages: seq<Page>)
    requires !p.Exit? && !p.Ret? && n <= |s.mem| && SameTypes(s.pages, pages, n) && AccessInside(Plain(p), s, n)
    ensures IsCutAction(ActPlain(p, s), ActPlain(p, Cut(s, n, pages)), n, pages)
  {
    hide Compute, Compare, ReadLe, WriteLe, PageAt, Item, Popped;
    match p
    case Lods(w) => ReadCut(s.mem, n, s.regs[0], w);
    case Stos(w) => WriteCut(s.mem, n, s.regs[0], w, s.regs[1]);
    case _ =>
  }

  lemma RegCut(x: RegOp, r: byte, s: State, n: nat, pages: seq<Page>)
    requires !x.Syscall? && n <= |s.mem|
    ensures IsCutAction(ActReg(x, r, s), ActReg(x, r, Cut(s, n, pages)), n, pages)
  {
    hide Item, Popped, TopOf;
  }

  lemma ActCut(i: Instr, s: State, n: nat, pages: seq<Page>)
    requires !Branches(i) && n <= |s.mem| && SameTypes(s.pages, pages, n) && AccessInside(i, s, n)
    ensures IsCutAction(Act(i, s), Act(i, Cut(s, n, pages)), n, pages)
  {
    hide ActPlain, ActReg, SameTypes;
    match i
    case Plain(p) => PlainCut(p, s, n, pages);
    case Reg(x, r) => RegCut(x, r, s, n, pages);
    case Imm(_, _) =>
    case RegImm(_, _, _) =>
    case Loadr64(_, _) =>
    case Push64(_) =>
  }

  lemma BranchCut(i: Instr, s: State, n: nat, pages: seq<Page>)
    requires Branches(i) && n <= |s.mem|
    ensures IsCut(Branch(i, s), Branch(i, Cut(s, n, pages)), n, pages)
  {
    hide Popped, TopOf;
  }

  lemma PerformCut(i: Instr, s: State, n: nat, pages: seq<Page>)
    requires n <= |s.mem| && SameTypes(s.pages, pages, n) && AccessInside(i, s, n)
    ensures IsCut(Perform(i, s), Perform(i, Cut(s, n, pages)), n, pages)
  {
    hide Act, Branch, SameTypes, AccessInside;
    if Branches(i) {
      BranchCut(i, s, n, pages);
    } else {
      ActCut(i, s, n, pages);
    }
  }

  /** A step that stays below `n` is the same step in the first `n` bytes. */
  lemma StepCut(s: State, n: nat, pages: seq<Page>)
    requires n <= |s.mem| && SameTypes(s.pages, pages, n) && Inside(s, n)
    ensures IsCut(Step(s), Step(Cut(s, n, pages)), n, pages)
  {
    hide Perform, Decode, SameTypes, AccessInside, FetchLength;
    DecodeCut(s.mem, n, s.ip);
    if Decode(s.mem, s.ip).Instruction? {
      PerformCut(Decode(s.mem, s.ip).i, s, n, pages);
    }
  }

  lemma ServeCut(s: State, n: nat, pages: seq<Page>)
    requires n <= |s.mem| && Low32(Item(s.ds, 1)) <= n && ServeDispatch(s).Some?
    ensures var r, q := ServeDispatch(s).value, ServeDispatch(Cut(s, n, pages));
            |r.s.mem| == |s.mem| && q == Some(Turned(Cut(r.s, n, pages), r.spawn))
  {
    hide Item;
  }

  predicate AsksForMemory(s: State) {
    Step(s) == Trap(SYSCALL_ALLOC)
  }

  /** So is a turn, requests for memory aside. */
  lemma TurnCut(s: State, extra: seq<byte>, n: nat, pages: seq<Page>)
    requires n <= |s.mem| && SameTypes(s.pages, pages, n) && Inside(s, n)
    requires !AsksForMemory(s) && Turn(s, extra).Some?
    ensures var r, q := Turn(s, extra).value, Turn(Cut(s, n, pages), extra);
            n <= |r.s.mem| && q == Some(Turned(Cut(r.s, n, pages), r.spawn))
  {
    hide Step, SameTypes, Inside, ServeDispatch, Item;
    StepCut(s, n, pages);
    if Step(s).Trap? {
      DispatchInside(s, n);
      ServeCut(s, n, pages);
    }
  }

  lemma DispatchInside(s: State, n: nat)
    requires Inside(s, n) && Step(s) == Trap(SYSCALL_DISPATCH)
    ensures Low32(Item(s.ds, 1)) <= n
  {
    hide Act, Decode, Item, Popped, TopOf, FetchLength;
  }
}
