/** Every accepted program can be put into a machine: the layout a loader gives
    it, code first and the variables behind it. */
module Installation {
  import opened Words
  import opened Isa
  import opened Machine
  import opened Assembly
  import opened Tpp
  import opened Codegen
  import opened Setting
  import opened Grammar
  import opened Statements
  import opened Layout
  import opened Accepted
  import opened Programs

  const PAGE := 4096

  /** Variables get cells one after another. */
  lemma {:induction false} CellsFor(vars: set<string>, base: nat) returns (cells: map<string, u32>)
    requires base + 4 * |vars| < 0x1_0000_0000
    ensures cells.Keys == vars
    ensures forall x :: x in vars ==> base <= cells[x] && cells[x] + 4 <= base + 4 * |vars|
    ensures forall x, y :: x in vars && y in vars && x != y ==> cells[x] + 4 <= cells[y] || cells[y] + 4 <= cells[x]
    decreases |vars|
  {
    if vars == {} {
      cells := map[];
    } else {
      var x :| x in vars;
      var others := CellsFor(vars - {x}, base);
      cells := others[x := base + 4 * (|vars| - 1)];
    }
  }

  /** The pages the code takes up. */
  function TextPages(decls: seq<Decl>, a: nat): nat {
    (a + Size(FullCode(decls))) / PAGE + 1
  }

  /** How much memory a program at address `a` needs. */
  function Extent(text: string, decls: seq<Decl>, a: nat): nat
    requires ReadLines(START, 1, text).Some?
  {
    PAGE * TextPages(decls, a) + 4 * |Declared(LinesOf(text))|
  }

  function PagesOf(executable: nat, size: nat): (pages: seq<Page>)
    ensures |pages| == size / PAGE + 1
    ensures forall b: nat :: b < size ==> PageAt(pages, b) == if b < PAGE * executable then Executable else ReadWrite
  {
    var pages := seq(size / PAGE + 1, i => if i < executable then Executable else ReadWrite);
    assert forall b: nat :: b < size ==> b / PAGE < |pages|;
    pages
  }

  function Zeros(n: nat): (z: seq<byte>)
    ensures |z| == n && forall i :: 0 <= i < n ==> z[i] == 0
  {
    seq(n, _ => 0)
  }

  lemma ZeroCell(m: seq<byte>, a: nat)
    requires a + 4 <= |m| && forall i :: a <= i < a + 4 ==> m[i] == 0
    ensures Imm32(m, a) == 0
  {
    assert m[a..a + 4] == [0, 0, 0, 0];
  }

  function ZeroStore(vars: set<string>): Store {
    map x | x in vars :: 0
  }

  /** Every accepted program that fits below the end of the address space has
      symbols, memory and pages in which it is laid out, with its variables in
      cells of their own, all zero. */
  lemma Installable(text: string, decls: seq<Decl>, a: nat) returns (sym: Symbols, m: Memory, pages: seq<Page>)
    requires Compiles(text, decls) && Extent(text, decls, a) < 0x1_0000_0000
    ensures Laid(text, decls, a, sym, m, pages)
    ensures CellsOk(EnvOf(text, decls, sym), |m|, pages)
    ensures Holds(EnvOf(text, decls, sym), m, ZeroStore(Declared(LinesOf(text))))
  {
    hide EmitLines, Split, FullCode, Resolves, Image, Size, Declared;
    hide ReadLines, CellsOk, Holds, Imm32, Functions, Starts;
    var vars := Declared(LinesOf(text));
    var code := FullCode(decls);
    var end, size := a + Size(code), Extent(text, decls, a);
    var base := PAGE * TextPages(decls, a);
    var cells := CellsFor(vars, base);
    sym := SymbolTable(code, a, cells);
    Assembles(text, decls, a, cells);
    ImageSize(code, a, sym);
    pages := PagesOf(TextPages(decls, a), size);
    m := Zeros(a) + Image(code, a, sym) + Zeros(size - end);
    assert m[a..end] == Image(code, a, sym);
    CellsPlaced(EnvOf(text, decls, sym), cells, m, pages, base);
  }

  lemma CellsPlaced(g: Env, cells: map<string, u32>, m: Memory, pages: seq<Page>, base: nat)
    requires g.dom == cells.Keys && forall x :: x in cells ==> g.sym(Cell(x)) == cells[x]
    requires forall x :: x in cells ==> base <= cells[x] && cells[x] + 4 <= |m|
    requires forall x, y :: x in cells && y in cells && x != y ==> cells[x] + 4 <= cells[y] || cells[y] + 4 <= cells[x]
    requires forall i :: base <= i < |m| ==> m[i] == 0 && PageAt(pages, i) == ReadWrite
    ensures CellsOk(g, |m|, pages) && Holds(g, m, ZeroStore(g.dom))
  {
    hide PageAt, Imm32;
    forall x | x in g.dom
      ensures Imm32(m, g.sym(Cell(x))) == 0
    {
      ZeroCell(m, g.sym(Cell(x)));
    }
  }

  /** So every accepted program with a `main` has a machine that runs it, from
      any data stack that has its arguments and variables of zero, as its meaning
      says. */
  lemma EveryProgramRuns(text: string, decls: seq<Decl>, a: nat, args: seq<u32>, ds: seq<u64>, fuel: nat, limit: u32)
      returns (sym: Symbols, s: State, n: nat, t: State)
    requires Compiles(text, decls) && Careful(decls) && Extent(text, decls, a) < 0x1_0000_0000
    requires MainFrame(Functions(decls), args, ds)
    requires var use := MainResult(Functions(decls), args, ZeroStore(Declared(LinesOf(text))), fuel).use;
             |ds| + use.data + 5 <= limit && Max(use.calls, 1) + 1 <= limit
    ensures s.ip == sym(Start) && s.ds == ds && s.cs == [] && s.limit == limit
    ensures Installed(text, decls, a, sym, s.mem, s.pages)
    ensures RunsProgram(EnvOf(text, decls, sym),
                        MainResult(Functions(decls), args, ZeroStore(Declared(LinesOf(text))), fuel), s, n, t, fuel)
  {
    hide EmitLines, Split, Laid, Careful, Extent, CellsOk, Holds;
    hide MainResult, Functions, Declared, RunsProgram, EnvOf, ReadLines;
    hide FrameOk;
    var st := ZeroStore(Declared(LinesOf(text)));
    var m, pages;
    sym, m, pages := Installable(text, decls, a);
    s := Fresh(sym(Start), ds, m, pages, limit);
    ProgramRuns(text, decls, a, sym, args, st, fuel, s);
    n, t :| RunsProgram(EnvOf(text, decls, sym), MainResult(Functions(decls), args, st, fuel), s, n, t, fuel);
  }

  /** A machine about to start at `ip`. */
  function Fresh(ip: u32, ds: seq<u64>, m: Memory, pages: seq<Page>, limit: u32): State {
    State(ip, seq(22, _ => 0), ds, [], Flags(false, false, false, false), false, [0, 0, 0, 0], m, pages, limit)
  }
}
