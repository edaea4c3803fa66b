/** System calls, byte by byte, and how a job is started by another: where it
    begins, with what, and that a program started so comes to its end. */
module Launching {
  import opened Words
  import opened Isa
  import opened Machine
  import opened Assembly
  import opened Tpp
  import opened Pages
  import opened Protection
  import opened Scheduling
  import opened Isolation
  import opened Instructions
  import Setting
  import Programs
  import Statements
  import Layout
  import Accepted
  import Sharing

  // ----- the two system calls -----

  /** `syscall 8` starts a job at the lower half of the top cell, which stays where
      it is. An address past the end of memory, but not the end itself, is
      exception 0. */
  lemma DispatchCall(s: State, extra: seq<byte>, base: seq<u64>, v: u64)
    requires At(s, [0x21, 8]) && s.ds == base + [v]
    ensures v % WORD <= |s.mem| ==>
              Turn(s, extra) == Some(Turned(s.(ip := (s.ip + 2) % WORD), Some(v % WORD)))
    ensures v % WORD > |s.mem| ==>
              if s.faulted || s.handlers[0] == 0 || |s.ds| >= s.limit then Turn(s, extra) == None
              else Turn(s, extra) ==
                   Some(Turned(s.(ip := s.handlers[0], ds := s.ds + [s.regs[0]], faulted := true), None))
  {
    hide Step;
    EndsOrAsks(s, 8);
    assert Item(s.ds, 1) == v;
  }

  /** `syscall 7` asks for the number of bytes in the top cell: the old size of
      memory goes on top of it, and memory grows by whole pages, all of them
      writable, with what the system puts there. Old bytes and page types stay. */
  lemma AllocCall(s: State, extra: seq<byte>, base: seq<u64>, v: u64)
    requires At(s, [0x21, 7]) && s.ds == base + [v] && |s.ds| < s.limit
    requires |s.mem| % 4096 == 0 && |s.pages| == |s.mem| / 4096 + 1 && v % WORD < 0xFFFF_F000
    requires |extra| == 4096 * (v % WORD / 4096 + 1) && |s.mem| + |extra| + 4096 < WORD
    ensures Turn(s, extra).Some? && Turn(s, extra).value.spawn == None
    ensures var t := Turn(s, extra).value.s;
            && t == s.(ip := (s.ip + 2) % WORD, ds := base + [v, |s.mem|], mem := s.mem + extra, pages := t.pages)
            && (forall a :: 0 <= a < |s.mem| ==> PageAt(t.pages, a) == PageAt(s.pages, a))
            && (forall a :: |s.mem| <= a < |t.mem| ==> PageAt(t.pages, a) == ReadWrite)
  {
    hide Step, PagesAfter;
    EndsOrAsks(s, 7);
    AllocIs(s, extra, base, v);
  }

  lemma AllocIs(s: State, extra: seq<byte>, base: seq<u64>, v: u64)
    requires s.ds == base + [v] && |s.ds| < s.limit
    requires |s.mem| % 4096 == 0 && |s.pages| == |s.mem| / 4096 + 1 && v % WORD < 0xFFFF_F000
    requires |extra| == 4096 * (v % WORD / 4096 + 1) && |s.mem| + |extra| + 4096 < WORD
    ensures AfterAlloc(s, extra).Some?
    ensures var t := AfterAlloc(s, extra).value;
            && t == s.(ip := (s.ip + 2) % WORD, ds := base + [v, |s.mem|], mem := s.mem + extra, pages := t.pages)
            && (forall a :: 0 <= a < |s.mem| ==> PageAt(t.pages, a) == PageAt(s.pages, a))
            && (forall a :: |s.mem| <= a < |t.mem| ==> PageAt(t.pages, a) == ReadWrite)
  {
    hide PagesAfter, HeapPages;
    var request: u32 := v % WORD;
    HeapPagesIs(request);
    assert s.ds + [|s.mem|] == base + [v, |s.mem|];
    assert Item(base + [v, |s.mem|], 2) == v;
    var t := AfterAlloc(s, extra).value;
    NewTypes(s.pages, |s.mem|, request);
  }

  lemma NewTypes(pages: seq<Page>, size: u32, request: u32)
    requires Room(size, request) && |pages| == size / PAGE + 1
    ensures var after := PagesAfter(pages, size, request);
            && (forall a :: 0 <= a < size ==> PageAt(after, a) == PageAt(pages, a))
            && (forall a :: size <= a < size + PAGE * HeapPages(request) ==> PageAt(after, a) == ReadWrite)
  {
    hide PagesAfter, HeapPages, Grow;
    var h := Heap(pages, size);
    OneGrowth(h, request);
    SizeAfter(size, request);
    GrowIs(h, request);
  }

  lemma GrowIs(h: Heap, request: u32)
    requires Aligned(h) && Room(h.size, request)
    ensures Grow(h, request) == Heap(PagesAfter(h.pages, h.size, request), NewSize(h.size, request))
  {
  }

  // ----- a new job -----

  /** The round starts a job at `e`. */
  predicate Launches(w: World, extra: seq<byte>, e: u32) {
    && PageAt(w.pages, w.lastIp) == Executable && Live(w, w.current)
    && Turn(StateOf(w, w.current), extra).Some? && Turn(StateOf(w, w.current), extra).value.spawn == Some(e)
  }

  /** The slot the next job gets: the lowest free one, after sixteen more if but one
      is left. */
  function NextSlot(t: Jobs): nat {
    FirstFree(GrownTable(t).slots)
  }

  lemma TableGrowth(t: Jobs)
    ensures |GrownTable(t).slots| == |t.slots| + (if t.active + 1 >= |t.slots| then 16 else 0)
    ensures |EMPTY.slots| == 16 && EMPTY.active == 0
  {
  }

  /** After the round the new slot holds a job that is to begin at `e`. */
  lemma Launched(w: World, extra: seq<byte>, e: u32)
    requires Sound(w.jobs) && Launches(w, extra, e)
    ensures Iterate(w, extra).Some?
    ensures var w', k := Iterate(w, extra).value, NextSlot(w.jobs);
            k != w.current && Live(w', k) && Unborn(w'.jobs.slots[k].value, e)
  {
    hide Turn, Count, FirstFree, PageAt, Newborn;
    DispatchKeeps(w.jobs, e);
    NewbornIsUnborn(e);
  }

  /** Other jobs' rounds leave its context alone. */
  lemma StaysUnborn(w: World, extra: seq<byte>, k: nat)
    requires Sound(w.jobs) && Live(w, k) && w.current != k && Iterate(w, extra).Some?
    ensures var w' := Iterate(w, extra).value; Live(w', k) && w'.jobs.slots[k] == w.jobs.slots[k]
  {
    hide Turn, Count, FirstFree, PageAt, Newborn;
    if Live(w, w.current) {
      var r := Turn(StateOf(w, w.current), extra).value;
      if r.spawn.Some? {
        DispatchKeeps(w.jobs, r.spawn.value);
      }
    }
  }

  /** What a round does besides the job's turn: it goes on only from an executable
      page, notes where the job got to for the next check, and moves on to the next
      slot, from one past the last back to the first. */
  lemma RoundMovesOn(w: World, extra: seq<byte>)
    requires Iterate(w, extra).Some?
    ensures var w' := Iterate(w, extra).value;
            && PageAt(w.pages, w.lastIp) == Executable
            && (Live(w, w.current) && w.current < |w'.jobs.slots| ==>
                  w'.jobs.slots[w.current].Some? && w'.lastIp == w'.jobs.slots[w.current].value.ip)
            && (w.current < |w'.jobs.slots| < WORD ==> w'.current == w.current + 1)
            && (w.current >= |w'.jobs.slots| ==> w'.current == 0)
  {
    hide Turn, Dispatched, PageAt;
  }

  lemma DrivenRound(ws: seq<World>, extras: seq<seq<byte>>, i: nat)
    requires Driven(ws, extras) && i < |extras|
    ensures Iterate(ws[i], extras[i]) == Some(ws[i + 1])
  {
  }

  lemma {:induction false} DrivenSound(ws: seq<World>, extras: seq<seq<byte>>, i: nat)
    requires Driven(ws, extras) && Sound(ws[0].jobs) && i < |ws|
    ensures Sound(ws[i].jobs)
  {
    hide Iterate, Sound, Driven;
    if i > 0 {
      DrivenSound(ws, extras, i - 1);
      assert |ws| == |extras| + 1 by { DrivenLength(ws, extras); }
      DrivenRound(ws, extras, i - 1);
      IterateSound(ws[i - 1], extras[i - 1]);
    }
  }

  /** From the round that starts it to its own first turn, a job waits unborn; and
      that turn carries out the instruction at `e` in the memory of then. */
  lemma {:induction false} FirstTurn(ws: seq<World>, extras: seq<seq<byte>>, i: nat, m: nat, e: u32)
    requires Driven(ws, extras) && Sound(ws[0].jobs) && i < m < |ws| && Launches(ws[i], extras[i], e)
    requires forall x :: i < x < m ==> ws[x].current != NextSlot(ws[i].jobs)
    ensures var k := NextSlot(ws[i].jobs);
            && Live(ws[m], k) && Unborn(ws[m].jobs.slots[k].value, e)
            && Step(StateOf(ws[m], k)) == match Decode(ws[m].mem, e)
                                          case Instruction(x) => Perform(x, StateOf(ws[m], k))
                                          case UnknownOpcode => HandleException(StateOf(ws[m], k), 1)
                                          case PastEnd => Stuck(Undefined)
    decreases m
  {
    hide Iterate, Sound, Driven, Launches, Perform, Decode, NextSlot, HandleException;
    DrivenLength(ws, extras);
    DrivenSound(ws, extras, m - 1);
    DrivenRound(ws, extras, m - 1);
    if m == i + 1 {
      Launched(ws[i], extras[i], e);
    } else {
      FirstTurn(ws, extras, i, m - 1, e);
      StaysUnborn(ws[m - 1], extras[m - 1], NextSlot(ws[i].jobs));
    }
  }

  // ----- a program started by another job -----

  /** A program dispatched at its start, by a job that then lets it alone: from the
      round after, in as many of its own turns as its run is long, it comes to the
      end its meaning gives, whatever the others do meanwhile. */
  lemma LaunchedProgramRuns(ws: seq<World>, extras: seq<seq<byte>>, text: string, decls: seq<Layout.Decl>, a: nat,
                            sym: Symbols, args: seq<u32>, st: Store, fuel: nat, seen: iset<int>)
    returns (n: nat, t: State)
    requires Driven(ws, extras) && extras != [] && Sound(ws[0].jobs) && Launches(ws[0], extras[0], sym(Start))
    requires Programs.Installed(text, decls, a, sym, ws[1].mem, ws[1].pages)
    requires Setting.CellsOk(Programs.EnvOf(text, decls, sym), |ws[1].mem|, ws[1].pages)
    requires Setting.Holds(Programs.EnvOf(text, decls, sym), ws[1].mem, st)
    requires Programs.MainFrame(Accepted.Functions(decls), args, [0])
    requires var use := Programs.MainResult(Accepted.Functions(decls), args, st, fuel).use;
             use.data + 6 <= ws[1].limit && Max(use.calls, 1) + 2 <= ws[1].limit
    requires UndisturbedRun(ws[1..], NextSlot(ws[0].jobs), seen)
    ensures var k := NextSlot(ws[0].jobs);
            && Live(ws[1], k)
            && Programs.RunsProgram(Programs.EnvOf(text, decls, sym),
                                    Programs.MainResult(Accepted.Functions(decls), args, st, fuel),
                                    StateOf(ws[1], k), n, t, fuel)
            && (Turns(ws[1..], k) == n ==>
                  Live(ws[|ws| - 1], k) && ws[|ws| - 1].jobs.slots[k].value == ContextOf(t))
  {
    hide Iterate, Sound, Driven, Launches, NextSlot, UndisturbedRun, Setting.CellsOk, Setting.Holds, Turns, Unborn;
    hide Programs.MainResult, Programs.RunsProgram, Setting.FrameOk;
    hide Programs.Careful, Layout.Resolves, BytesAt, Layout.Image, InText;
    hide Statements.EmitLines, Layout.Split, Statements.ReadLines;
    DrivenLength(ws, extras);
    var k := NextSlot(ws[0].jobs);
    DrivenRound(ws, extras, 0);
    DrivenSound(ws, extras, 1);
    Launched(ws[0], extras[0], sym(Start));
    n, t := UnbornRuns(ws[1], k, text, decls, a, sym, args, st, fuel);
    if Turns(ws[1..], k) == n {
      DrivenTail(ws, extras);
      Shared(ws[1..], extras[1..], k, seen, Programs.EnvOf(text, decls, sym),
             Programs.MainResult(Accepted.Functions(decls), args, st, fuel), n, t, fuel);
    }
  }

  lemma UnbornRuns(w: World, k: nat, text: string, decls: seq<Layout.Decl>, a: nat, sym: Symbols, args: seq<u32>,
                   st: Store, fuel: nat) returns (n: nat, t: State)
    requires Live(w, k) && Unborn(w.jobs.slots[k].value, sym(Start))
    requires Programs.Installed(text, decls, a, sym, w.mem, w.pages)
    requires Setting.CellsOk(Programs.EnvOf(text, decls, sym), |w.mem|, w.pages)
    requires Setting.Holds(Programs.EnvOf(text, decls, sym), w.mem, st)
    requires Programs.MainFrame(Accepted.Functions(decls), args, [0])
    requires var use := Programs.MainResult(Accepted.Functions(decls), args, st, fuel).use;
             use.data + 6 <= w.limit && Max(use.calls, 1) + 2 <= w.limit
    ensures Programs.RunsProgram(Programs.EnvOf(text, decls, sym),
                                 Programs.MainResult(Accepted.Functions(decls), args, st, fuel), StateOf(w, k), n, t, fuel)
  {
    hide Setting.CellsOk, Setting.Holds, Programs.MainResult, Programs.RunsProgram, Setting.FrameOk, Accepted.Functions;
    hide Programs.Careful, Layout.Resolves, BytesAt, Layout.Image, InText;
    hide Statements.EmitLines, Layout.Split, Statements.ReadLines;
    var s := StateOf(w, k);
    assert s.ds == [0] && s.cs == [0] && s.ip == sym(Start);
    Programs.ProgramRuns(text, decls, a, sym, args, st, fuel, s);
    n, t :| Programs.RunsProgram(Programs.EnvOf(text, decls, sym),
                                 Programs.MainResult(Accepted.Functions(decls), args, st, fuel), s, n, t, fuel);
  }

  lemma Shared(ws: seq<World>, extras: seq<seq<byte>>, k: nat, seen: iset<int>,
               g: Setting.Env, r: Result<Signal>, n: nat, t: State, fuel: nat)
    requires Driven(ws, extras) && Sound(ws[0].jobs) && Live(ws[0], k) && UndisturbedRun(ws, k, seen)
    requires Programs.RunsProgram(g, r, StateOf(ws[0], k), n, t, fuel) && Turns(ws, k) == n
    ensures Live(ws[|ws| - 1], k) && ws[|ws| - 1].jobs.slots[k].value == ContextOf(t)
  {
    hide Iterate, Sound, UndisturbedRun, Turns, Programs.RunsProgram, Grown;
    Sharing.ProgramShares(ws, extras, k, seen, g, r, n, t, fuel);
  }

  lemma DrivenTail(ws: seq<World>, extras: seq<seq<byte>>)
    requires Driven(ws, extras) && extras != []
    ensures Driven(ws[1..], extras[1..])
  {
    hide Iterate;
    forall i | 0 <= i < |extras| - 1
      ensures Iterate(ws[1..][i], extras[1..][i]) == Some(ws[1..][i + 1])
    {
      assert Iterate(ws[i + 1], extras[i + 1]) == Some(ws[i + 2]);
    }
  }
}
