/** The situation compiled code runs in: a program laid out in memory by the
    assembler, its variables in cells of their own, its stacks with room. */
module Setting {
  import opened Words
  import opened Isa
  import opened Machine
  import opened Assembly
  import opened Tpp
  import opened Codegen
  import opened Chunks

  /** `start` gives each function the number its first loop gets. */
  datatype Env = Env(p: Program, sym: Symbols, dom: set<string>, start: map<string, nat>)

  // ----- what the compiler checks -----

  predicate FitsExpr(g: Env, e: Expr)
    decreases e, 1
  {
    match e
    case Var(x) => x in g.dom
    case Group(h) => FitsExpr(g, h)
    case Binary(_, l, r) => FitsExpr(g, l) && FitsExpr(g, r)
    case NotOf(h) => FitsExpr(g, h)
    case NegOf(h) => FitsExpr(g, h)
    case Arg(h) => FitsExpr(g, h)
    case Invoke(f, es) => FitsCall(g, f, es)
    case _ => true
  }

  predicate FitsArgs(g: Env, es: seq<Expr>)
    decreases es, 0
  {
    es == [] || (FitsExpr(g, es[0]) && FitsArgs(g, es[1..]))
  }

  predicate FitsCall(g: Env, f: string, es: seq<Expr>)
    decreases es, 1
  {
    f in g.p && g.p[f].arity == |es| && FitsArgs(g, es)
  }

  /** Where `$` is compiled, the compiler's counter (`k`) must equal the number
      of values really pushed since the frame was set up (`d`). It differs only
      when a call stands in an argument list. */
  predicate SafeExpr(e: Expr, k: nat, d: nat)
    decreases e, 1
  {
    match e
    case Group(h) => SafeExpr(h, k, d)
    case Binary(_, l, r) => SafeExpr(l, k, d) && SafeExpr(r, Counter(l, k), d)
    case NotOf(h) => SafeExpr(h, k, d)
    case NegOf(h) => SafeExpr(h, k, d)
    case Arg(h) => SafeExpr(h, k, d) && Counter(h, k) == d
    case Invoke(_, es) => SafeArgs(es, 0, d)
    case _ => true
  }

  predicate SafeArgs(es: seq<Expr>, k: nat, d: nat)
    decreases es, 0
  {
    es == [] || (SafeExpr(es[0], k, d) && SafeArgs(es[1..], Counter(es[0], k) + 1, d + 1))
  }

  predicate Whole(g: Env, e: Expr) {
    FitsExpr(g, e) && SafeExpr(e, 0, 0)
  }

  predicate FitsStmt(g: Env, s: Stmt)
    decreases s, 1
  {
    match s
    case Let(x, e) => x in g.dom && Whole(g, e)
    case Return(e) => Whole(g, e)
    case Do(f, es) => FitsCall(g, f, es) && SafeArgs(es, 0, 0)
    case If(c, t, _) => Whole(g, c) && OneLine(t) && FitsStmt(g, t)
    case While(c, body) => Whole(g, c) && FitsBlock(g, body)
  }

  predicate FitsBlock(g: Env, ss: seq<Stmt>)
    decreases ss, 0
  {
    ss == [] || (FitsStmt(g, ss[0]) && FitsBlock(g, ss[1..]))
  }

  predicate FitsProgram(g: Env) {
    forall f :: f in g.p ==> FitsBlock(g, g.p[f].body)
  }

  // ----- memory layout -----

  ghost predicate InCell(g: Env, a: int) {
    exists x :: x in g.dom && g.sym(Cell(x)) <= a < g.sym(Cell(x)) + 4
  }

  ghost predicate CellsOk(g: Env, size: nat, pages: seq<Page>) {
    && (forall x :: x in g.dom ==> g.sym(Cell(x)) + 4 <= size)
    && (forall a :: InCell(g, a) ==> a >= 0 && PageAt(pages, a) == ReadWrite)
    && (forall x, y :: x in g.dom && y in g.dom && x != y ==>
          g.sym(Cell(x)) + 4 <= g.sym(Cell(y)) || g.sym(Cell(y)) + 4 <= g.sym(Cell(x)))
  }

  function CodeOf(g: Env, f: string): seq<Asm>
    requires f in g.p && f in g.start
  {
    FunctionCode(f, g.p[f].body, g.p[f].arity, g.start[f])
  }

  ghost predicate CodeOk(g: Env, m: seq<byte>, pages: seq<Page>) {
    && Loaded(m, pages, g.sym(Init), InitCode(), g.sym)
    && forall f :: f in g.p ==> f in g.start && Loaded(m, pages, g.sym(Entry(f)), CodeOf(g, f), g.sym)
  }

  predicate Holds(g: Env, m: seq<byte>, st: Store) {
    && st.Keys == g.dom
    && forall x :: x in g.dom ==> g.sym(Cell(x)) + 4 <= |m| && Imm32(m, g.sym(Cell(x))) == st[x]
  }

  ghost predicate Ready(g: Env, m: seq<byte>, pages: seq<Page>, st: Store) {
    FitsProgram(g) && CellsOk(g, |m|, pages) && CodeOk(g, m, pages) && Holds(g, m, st)
  }

  /** Only variable cells differ. */
  ghost predicate Untouched(g: Env, m: seq<byte>, m': seq<byte>) {
    |m| == |m'| && forall a :: 0 <= a < |m| && !InCell(g, a) ==> m[a] == m'[a]
  }

  lemma UntouchedTransitive(g: Env, a: seq<byte>, b: seq<byte>, c: seq<byte>)
    requires Untouched(g, a, b) && Untouched(g, b, c)
    ensures Untouched(g, a, c)
  {
  }

  lemma PlacedKept(g: Env, m: seq<byte>, m': seq<byte>, pages: seq<Page>, a: nat, x: Asm)
    requires CellsOk(g, |m|, pages) && Untouched(g, m, m') && Placed(m, pages, a, x, g.sym)
    ensures Placed(m', pages, a, x, g.sym)
  {
    if !x.Label? {
      var b := Encode(Resolve(x, a, g.sym));
      IncrementIsLength(Resolve(x, a, g.sym));
      forall k | 0 <= k < |b|
        ensures m'[a..a + |b|][k] == b[k]
      {
        assert PageAt(pages, a + k) == Executable;
        assert m[a..a + |b|][k] == m[a + k];
      }
      assert m'[a..a + |b|] == b;
    }
  }

  /** Variables live on writable pages, code on executable ones: code stays. */
  lemma {:induction false} LoadedKept(g: Env, m: seq<byte>, m': seq<byte>, pages: seq<Page>, a: nat, code: seq<Asm>)
    requires CellsOk(g, |m|, pages) && Untouched(g, m, m') && Loaded(m, pages, a, code, g.sym)
    ensures Loaded(m', pages, a, code, g.sym)
    decreases |code|
  {
    hide Placed, CellsOk, Untouched;
    if code != [] {
      PlacedKept(g, m, m', pages, a, code[0]);
      LoadedKept(g, m, m', pages, a + Length(code[0]), code[1..]);
    }
  }

  lemma CodeKept(g: Env, m: seq<byte>, m': seq<byte>, pages: seq<Page>)
    requires CellsOk(g, |m|, pages) && Untouched(g, m, m') && CodeOk(g, m, pages)
    ensures CodeOk(g, m', pages)
  {
    hide CellsOk, Untouched, Loaded;
    LoadedKept(g, m, m', pages, g.sym(Init), InitCode());
    forall f | f in g.p
      ensures f in g.start && Loaded(m', pages, g.sym(Entry(f)), CodeOf(g, f), g.sym)
    {
      LoadedKept(g, m, m', pages, g.sym(Entry(f)), CodeOf(g, f));
    }
  }

  // ----- frames and room -----

  /** The current call's arguments lie below the four saved registers and the
      `d` values pushed since. */
  predicate FrameOk(ds: seq<u64>, args: seq<u32>, d: nat) {
    && |ds| >= |args| + 4 + d
    && forall i :: 0 <= i < |args| ==> ds[|ds| - d - 4 - |args| + i] == args[i]
  }

  predicate Room(s: State, use: Cost) {
    |s.ds| + use.data <= s.limit && |s.cs| + use.calls <= s.limit
  }

  lemma FramePushed(ds: seq<u64>, args: seq<u32>, d: nat, v: u64)
    requires FrameOk(ds, args, d)
    ensures FrameOk(ds + [v], args, d + 1)
  {
  }

  // ----- agreement of the machine with the semantics -----

  ghost predicate Stays(g: Env, s: State, t: State) {
    Fixed(s, t) && Untouched(g, s.mem, t.mem)
  }

  /** The machine, started in `s`, gets in `n` cycles to where the result says:
      to the end of the code with the value in R1 and nothing else disturbed, or
      to a division by zero, or at least `fuel` cycles on. */
  ghost predicate Follows(g: Env, r: Result<u32>, s: State, end: nat, n: nat, t: State, fuel: nat) {
    && Run(n, s) == Next(t)
    && match r
       case Done(v, st, _) =>
         && t.ip == end && t.regs[1] == v && t.ds == s.ds && t.cs == s.cs
         && Stays(g, s, t) && Ready(g, t.mem, t.pages, st)
       case DividedByZero(_) => Cycle(t) == HandleException(t, ARITHMETIC)
       case OutOfFuel(_) => n >= fuel
       case Wrong(_) => true
  }

  lemma StaysTransitive(g: Env, s: State, t: State, u: State)
    requires Stays(g, s, t) && Stays(g, t, u)
    ensures Stays(g, s, u)
  {
    UntouchedTransitive(g, s.mem, t.mem, u.mem);
  }

  lemma RunTwo(s: State, m: nat, t: State, n: nat, u: State)
    requires Run(m, s) == Next(t) && Run(n, t) == Next(u)
    ensures Run(m + n, s) == Next(u)
  {
    hide Run;
    RunAppend(m, n, s);
  }

  /** A run that first goes calmly from `s` to `t`, then follows from `t`. */
  lemma FollowsAfter(g: Env, r: Result<u32>, s: State, m: nat, t: State, end: nat, n: nat, u: State, fuel: nat)
    requires Run(m, s) == Next(t) && Stays(g, s, t) && t.ds == s.ds && t.cs == s.cs
    requires Follows(g, r, t, end, n, u, fuel)
    ensures Follows(g, r, s, end, m + n, u, fuel)
  {
    hide Run, Cycle, HandleException, Ready;
    RunTwo(s, m, t, n, u);
    if r.Done? {
      StaysTransitive(g, s, t, u);
    }
  }

  lemma RunChunk(code: seq<Asm>, s: State, t: State, sym: Symbols) returns (u: State)
    requires AllStraight(code) && Loaded(s.mem, s.pages, s.ip, code, sym) && Flow(code, 0, s, sym) == Ok(t)
    ensures s.ip + Size(code) < 0x1_0000_0000
    ensures u == t.(ip := s.ip + Size(code)) && Run(|code|, s) == Next(u)
  {
    hide Run, Flow, Loaded;
    assert code[0..] == code;
    RunStraight(code, 0, s, t, sym);
    u := t.(ip := s.ip + Size(code));
  }

  lemma SplitTwo(m: seq<byte>, pages: seq<Page>, a: nat, x: seq<Asm>, y: seq<Asm>, sym: Symbols)
    requires Loaded(m, pages, a, x + y, sym)
    ensures Loaded(m, pages, a, x, sym) && Loaded(m, pages, a + Size(x), y, sym)
    ensures Size(x + y) == Size(x) + Size(y)
  {
    hide Loaded;
    LoadedAppend(m, pages, a, x, y, sym);
    SizeAppend(x, y);
  }

  lemma SplitThree(m: seq<byte>, pages: seq<Page>, a: nat, x: seq<Asm>, y: seq<Asm>, z: seq<Asm>, sym: Symbols)
    requires Loaded(m, pages, a, x + (y + z), sym)
    ensures Loaded(m, pages, a, x, sym) && Loaded(m, pages, a + Size(x), y, sym)
    ensures Loaded(m, pages, a + Size(x) + Size(y), z, sym)
    ensures Size(x + (y + z)) == Size(x) + Size(y) + Size(z)
  {
    hide Loaded, Size;
    SplitTwo(m, pages, a, x, y + z, sym);
    SplitTwo(m, pages, a + Size(x), y, z, sym);
  }

  /** Code loaded before a run is still loaded after it. */
  lemma LoadedLater(g: Env, s: State, st: Store, t: State, a: nat, code: seq<Asm>)
    requires Ready(g, s.mem, s.pages, st) && Stays(g, s, t) && Loaded(s.mem, s.pages, a, code, g.sym)
    ensures Loaded(t.mem, t.pages, a, code, g.sym)
  {
    hide Loaded, CodeOk, CellsOk, Untouched;
    LoadedKept(g, s.mem, t.mem, s.pages, a, code);
  }
}
