/** Main results about compiled code, stated for callers: what a run reaches. */
module Results {
  import opened Words
  import opened Isa
  import opened Machine
  import opened Assembly
  import opened Tpp
  import opened Codegen
  import opened Chunks
  import opened Setting
  import opened Correctness
  import opened Grammar
  import opened Statements
  import opened Layout
  import opened Accepted
  import opened Programs
  import opened Meaning

  /** A call leaves the returned value in R1, the variables as the function left
      them, and both stacks, the utility registers and everything outside
      variable cells as they were. */
  lemma CallRuns(g: Env, f: string, es: seq<Expr>, args: seq<u32>, st: Store, fuel: nat, s: State)
    requires Ready(g, s.mem, s.pages, st) && FitsCall(g, f, es) && SafeArgs(es, 0, 0) && FrameOk(s.ds, args, 0)
    requires Loaded(s.mem, s.pages, s.ip, CallCode(f, es, |args|), g.sym)
    requires EvalCall(g.p, f, es, args, st, fuel).Done? && Room(s, EvalCall(g.p, f, es, args, st, fuel).use)
    ensures exists n: nat, t: State ::
              && Run(n, s) == Next(t) && t.ip == s.ip + Size(CallCode(f, es, |args|))
              && t.regs[1] == EvalCall(g.p, f, es, args, st, fuel).v
              && t.ds == s.ds && t.cs == s.cs && Fixed(s, t) && Untouched(g, s.mem, t.mem)
              && Holds(g, t.mem, EvalCall(g.p, f, es, args, st, fuel).st)
  {
    hide Run, Cycle, Loaded, HandleException, Size, EvalCall, CallCode, CellsOk, CodeOk, FitsProgram, Holds, Untouched, Fixed, Room, FrameOk;
    var n, t := SimCall(g, f, es, args, st, fuel, 0, s);
  }

  /** A block of statements that falls through ends past its last line with the
      new store in the variable cells and both stacks as they were. */
  lemma BlockRuns(g: Env, ss: seq<Stmt>, args: seq<u32>, st: Store, fuel: nat, w: nat, s: State)
    requires Ready(g, s.mem, s.pages, st) && FitsBlock(g, ss) && FrameOk(s.ds, args, 0)
    requires Loaded(s.mem, s.pages, s.ip, BlockCode(ss, |args|, w), g.sym)
    requires var r := ExecBlock(g.p, ss, args, st, fuel); r.Done? && r.v.FellThrough? && Room(s, r.use)
    ensures exists n: nat, t: State ::
              && Run(n, s) == Next(t) && t.ip == s.ip + Size(BlockCode(ss, |args|, w))
              && t.ds == s.ds && t.cs == s.cs && Fixed(s, t) && Untouched(g, s.mem, t.mem)
              && Holds(g, t.mem, ExecBlock(g.p, ss, args, st, fuel).st)
  {
    hide Run, Cycle, Loaded, HandleException, Size, ExecBlock, BlockCode, CellsOk, CodeOk, FitsProgram, Holds, Untouched, Fixed, Room, FrameOk, FitsBlock;
    var n, t := SimBlock(g, ss, args, st, fuel, w, s);
  }

  // ----- endless runs -----

  lemma {:induction false} RunPrefix(m: nat, n: nat, s: State)
    requires m <= n && Run(n, s).Next?
    ensures Run(m, s).Next?
  {
    hide Cycle;
    if m > 0 {
      RunPrefix(m - 1, n - 1, Cycle(s).s);
    }
  }

  /** A program that uses up any amount of fuel, and whose stacks never fill,
      runs forever: the machine neither halts, nor traps, nor gets stuck. */
  lemma EndlessRuns(text: string, decls: seq<Decl>, a: nat, sym: Symbols, args: seq<u32>, st: Store, s: State)
    requires Installed(text, decls, a, sym, s.mem, s.pages)
    requires CellsOk(EnvOf(text, decls, sym), |s.mem|, s.pages) && Holds(EnvOf(text, decls, sym), s.mem, st)
    requires MainFrame(Functions(decls), args, s.ds) && s.ip == sym(Start)
    requires forall fuel: nat ::
               var r := MainResult(Functions(decls), args, st, fuel); r.OutOfFuel? && RoomFor(s, r.use)
    ensures forall n: nat :: Run(n, s).Next?
  {
    hide Run, Cycle, Resolves, BytesAt, Image, InText, FullCode, EmitLines, Split, Careful, ReadLines;
    hide CellsOk, Holds, RoomFor, MainResult, Functions, Ready, FrameOk;
    forall n: nat
      ensures Run(n, s).Next?
    {
      ProgramRuns(text, decls, a, sym, args, st, n, s);
      var m: nat, t: State :|
        RunsProgram(EnvOf(text, decls, sym), MainResult(Functions(decls), args, st, n), s, m, t, n);
      RunPrefix(n, m, s);
    }
  }

  // ----- arguments -----

  /** The cell the `$` sequence loads for argument `j` of `n`, when the compiler
      counts `k` values pushed since the call. */
  function ArgumentCell(ds: seq<u64>, n: nat, k: nat, j: nat): u64
    requires 1 <= j <= n
  {
    Item(ds, n + k + 4 - (j - 1))
  }

  /** The running `$` sequence loads exactly that cell. */
  lemma ArgumentLoads(n: nat, k: nat, s: State, sym: Symbols)
    requires 1 <= s.regs[1] <= n && n + k + 4 <= |s.ds| < 0x1_0000_0000 - 9 && |s.ds| + 9 <= s.limit
    requires Loaded(s.mem, s.pages, s.ip, ArgumentTail(n, k), sym)
    ensures exists t: State ::
              && Run(|ArgumentTail(n, k)|, s) == Next(t) && t.ds == s.ds && t.cs == s.cs && t.mem == s.mem
              && t.regs[1] == Low32(ArgumentCell(s.ds, n, k, s.regs[1]))
  {
    hide Run, Loaded, Flow, ArgumentTail, Size, AllStraight, Fixed;
    var u := ArgumentFlow(n, k, s, sym);
    var t := RunChunk(ArgumentTail(n, k), s, u, sym);
  }

  /** A data stack during a call: the caller's values, the arguments, the four
      saved registers and `d` values pushed since. */
  ghost predicate DuringCall(ds: seq<u64>, base: seq<u64>, args: seq<u64>, later: seq<u64>, d: nat) {
    ds == base + args + later && |later| == d + 4
  }

  /** `$j` is argument `j`, whatever is on the stack, exactly when the compiler's
      count is the number of values really pushed. */
  lemma ArgumentExact(n: nat, k: nat, d: nat, j: nat)
    requires 1 <= j <= n
    ensures k == d <==>
            forall ds: seq<u64>, base: seq<u64>, args: seq<u64>, later: seq<u64> ::
              DuringCall(ds, base, args, later, d) && |args| == n && |base| >= k ==>
                ArgumentCell(ds, n, k, j) == args[j - 1]
  {
    if k != d {
      ArgumentMissed(n, k, d, j);
    }
  }

  /** With a wrong count some stack makes `$j` something else. */
  lemma ArgumentMissed(n: nat, k: nat, d: nat, j: nat)
    requires 1 <= j <= n && k != d
    ensures exists ds: seq<u64>, base: seq<u64>, args: seq<u64>, later: seq<u64> ::
              DuringCall(ds, base, args, later, d) && |args| == n && |base| >= k && ArgumentCell(ds, n, k, j) != args[j - 1]
  {
    var base: seq<u64> := seq(k, _ => 0);
    var args: seq<u64> := seq(n, i => if i == j - 1 then 1 else 0);
    var later: seq<u64> := seq(d + 4, _ => 0);
    var ds := base + args + later;
    assert DuringCall(ds, base, args, later, d);
    var p := |ds| - (n + k + 4 - (j - 1));
    assert p != k + (j - 1);
    assert ds[p] == 0;
  }

  /** The arguments of `@f(1, @k(), $1)`. */
  function Miscounted(k: string): seq<Expr> {
    [Num(1), Invoke(k, []), Arg(Num(1))]
  }

  /** After a call in the same argument list the count starts afresh: at `$1` it
      is 1 where two values were pushed. */
  lemma CallInArgumentsMiscounts(k: string)
    ensures var es := Miscounted(k);
            !SafeArgs(es, 0, 0) && Counter(es[2].e, Counter(es[1], Counter(es[0], 0) + 1) + 1) == 1
    ensures SafeArgs(Miscounted(k)[..2], 0, 0)
  {
    var es := Miscounted(k);
    assert es[1..] == [Invoke(k, []), Arg(Num(1))];
    assert es[1..][1..] == [Arg(Num(1))];
    assert !SafeExpr(Arg(Num(1)), 1, 2);
    assert !SafeArgs([Arg(Num(1))], 1, 2);
    assert !SafeArgs(es[1..], 1, 1);
    var front := es[..2];
    assert front[1..] == [Invoke(k, [])];
    assert front[1..][1..] == [];
    assert SafeArgs([], 0, 1);
    assert SafeExpr(Invoke(k, []), 1, 1);
    assert SafeArgs(front[1..][1..], 1, 2);
    assert SafeArgs(front[1..], 1, 1);
  }

  lemma MiscountedCode(k: string, n: nat)
    ensures ArgsCode(Miscounted(k), n, 0) ==
            ArgsCode(Miscounted(k)[..2], n, 0) + ([Load(1, 1)] + (ArgumentTail(n, 1) + [PushReg(1)]))
  {
    hide ArgumentTail;
    var es, front := Miscounted(k), Miscounted(k)[..2];
    var call, last := ExprCode(es[1], n, 1), [Load(1, 1)] + (ArgumentTail(n, 1) + [PushReg(1)]);
    assert es[1..] == [Invoke(k, []), Arg(Num(1))] && es[1..][1..] == [Arg(Num(1))] && es[1..][1..][1..] == [];
    assert front[1..] == [Invoke(k, [])] && front[1..][1..] == [];
    assert ArgsCode(es[1..][1..], n, 1) == last by {
      assert ExprCode(Arg(Num(1)), n, 1) == [Load(1, 1)] + ArgumentTail(n, 1);
    }
    hide ExprCode;
    assert ArgsCode(es[1..], n, 1) == call + ([PushReg(1)] + last);
    assert ArgsCode(front[1..], n, 1) == call + ([PushReg(1)] + []);
  }

  /** So the running code of `@f(1, @k(), $1)` does not pass the first argument
      of its own function on: it passes the second, or, if there is but one, the
      R4 its caller had. */
  lemma MiscountedArgument(g: Env, k: string, args: seq<u32>, st: Store, fuel: nat, s: State)
    returns (n: nat, t: State)
    requires Ready(g, s.mem, s.pages, st) && FitsCall(g, k, []) && FrameOk(s.ds, args, 0) && args != []
    requires Loaded(s.mem, s.pages, s.ip, ArgsCode(Miscounted(k), |args|, 0), g.sym)
    requires var r := EvalArgs(g.p, Miscounted(k)[..2], args, st, fuel); r.Done? && Room(s, r.use)
    requires |s.ds| + 11 <= s.limit < 0x1_0000_0000 - 9
    ensures Run(n, s) == Next(t) && t.ip == s.ip + Size(ArgsCode(Miscounted(k), |args|, 0)) && t.cs == s.cs
    ensures var passed: u64 := if |args| == 1 then Low32(s.ds[|s.ds| - 4]) else args[1];
            t.ds == s.ds + EvalArgs(g.p, Miscounted(k)[..2], args, st, fuel).v + [passed]
  {
    hide Run, Loaded, Ready, Flow, ArgumentTail, Size, AllStraight, EvalArgs, ArgsCode, Untouched;
    var front, tail := Miscounted(k)[..2], ArgumentTail(|args|, 1);
    CallInArgumentsMiscounts(k);
    MiscountedCode(k, |args|);
    MiscountedFits(g, k);
    SplitThree(s.mem, s.pages, s.ip, ArgsCode(front, |args|, 0), [Load(1, 1)], tail + [PushReg(1)], g.sym);
    var t1: State;
    n, t1 := SimArgs(g, front, args, st, fuel, 0, 0, s);
    LoadedLater(g, s, st, t1, t1.ip, [Load(1, 1)]);
    LoadedLater(g, s, st, t1, t1.ip + Size([Load(1, 1)]), tail + [PushReg(1)]);
    var t2 := LoadRun(t1, 1, g.sym);
    RunTwo(s, n, t1, 1, t2);
    OneSize(Load(1, 1));
    SplitTwo(t2.mem, t2.pages, t2.ip, tail, [PushReg(1)], g.sym);
    ArgumentLoads(|args|, 1, t2, g.sym);
    var u := ArgumentFlow(|args|, 1, t2, g.sym);
    var t3 := RunChunk(tail, t2, u, g.sym);
    RunTwo(s, n + 1, t2, |tail|, t3);
    t := PushRun(t3, g.sym);
    RunTwo(s, n + 1 + |tail|, t3, 1, t);
    n := n + 1 + |tail| + 1;
    MiscountedSize(ArgsCode(front, |args|, 0), tail);
  }

  lemma MiscountedSize(front: seq<Asm>, tail: seq<Asm>)
    ensures Size(front + ([Load(1, 1)] + (tail + [PushReg(1)]))) == Size(front) + Size([Load(1, 1)]) + Size(tail) + 2
  {
    hide Size;
    SizeAppend(front, [Load(1, 1)] + (tail + [PushReg(1)]));
    SizeAppend([Load(1, 1)], tail + [PushReg(1)]);
    SizeAppend(tail, [PushReg(1)]);
    OneSize(PushReg(1));
  }

  lemma MiscountedFits(g: Env, k: string)
    requires FitsCall(g, k, [])
    ensures FitsArgs(g, Miscounted(k)[..2])
  {
    var front := Miscounted(k)[..2];
    assert front[1..] == [Invoke(k, [])] && front[1..][1..] == [];
    assert FitsArgs(g, front[1..][1..]);
    assert FitsArgs(g, front[1..]);
  }
}
