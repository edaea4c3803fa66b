/** Many jobs on one processor: the job table, the loop that gives every job one
    instruction in turn, and why jobs do not disturb each other. */
module Scheduling {
  import opened Words
  import opened Isa
  import opened Machine
  import opened Locality
  import opened Protection

  // ----- contexts -----

  /** What belongs to one job. Memory and page table belong to all. */
  datatype Context = Context(
    ip: u32, regs: Registers, ds: seq<u64>, cs: seq<u64>, flags: Flags, faulted: bool, handlers: Handlers)

  function Join(c: Context, mem: Memory, pages: seq<Page>, limit: u32): State {
    State(c.ip, c.regs, c.ds, c.cs, c.flags, c.faulted, c.handlers, mem, pages, limit)
  }

  function ContextOf(s: State): Context {
    Context(s.ip, s.regs, s.ds, s.cs, s.flags, s.faulted, s.handlers)
  }

  /** A job just dispatched: cleared registers, one zero on each stack. */
  function Newborn(ip: u32): Context {
    Context(ip, seq(22, _ => 0), [0], [0], Flags(false, false, false, false), false, [0, 0, 0, 0])
  }

  /** A job that has not run yet: it is to begin at `e`, with zeros in all
      registers, one zero on each stack, no flag set and no handler. */
  predicate Unborn(c: Context, e: u32) {
    && c.ip == e && c.ds == [0] && c.cs == [0]
    && (forall r :: 0 <= r < 22 ==> c.regs[r] == 0) && (forall i :: 0 <= i < 4 ==> c.handlers[i] == 0)
    && !c.flags.eq && !c.flags.gt && !c.flags.lt && !c.flags.zero && !c.faulted
  }

  lemma NewbornIsUnborn(e: u32)
    ensures Unborn(Newborn(e), e)
  {
  }

  // ----- the job table -----

  datatype Jobs = Jobs(slots: seq<Option<Context>>, active: int)

  const FIRST_SLOTS := 16

  function NoJobs(n: nat): (s: seq<Option<Context>>)
    ensures |s| == n && forall i :: 0 <= i < n ==> s[i] == None
  {
    seq(n, _ => None)
  }

  const EMPTY := Jobs(NoJobs(FIRST_SLOTS), 0)

  function Count(slots: seq<Option<Context>>): nat {
    if slots == [] then 0 else (if slots[0].Some? then 1 else 0) + Count(slots[1..])
  }

  /** The lowest free slot, or one past the table. */
  function FirstFree(slots: seq<Option<Context>>): (i: nat)
    ensures i <= |slots|
    ensures forall k :: 0 <= k < i ==> slots[k].Some?
    ensures i < |slots| ==> slots[i].None?
  {
    if slots == [] || slots[0].None? then 0 else 1 + FirstFree(slots[1..])
  }

  function GrownTable(t: Jobs): Jobs {
    if t.active >= |t.slots| - 1 then t.(slots := t.slots + NoJobs(FIRST_SLOTS)) else t
  }

  function Dispatched(t: Jobs, ip: u32): Jobs {
    var g := GrownTable(t);
    var i := FirstFree(g.slots);
    if i < |g.slots| then Jobs(g.slots[i := Some(Newborn(ip))], t.active + 1) else g
  }

  function Exited(t: Jobs, j: nat): Jobs {
    if j < |t.slots| && t.slots[j].Some? then Jobs(t.slots[j := None], t.active - 1) else t
  }

  /** The number of active jobs is the number of slots in use. */
  predicate Sound(t: Jobs) {
    t.active == Count(t.slots) && |t.slots| >= FIRST_SLOTS
  }

  lemma {:induction false} CountSet(slots: seq<Option<Context>>, i: nat, c: Option<Context>)
    requires i < |slots|
    ensures Count(slots[i := c]) == Count(slots) - (if slots[i].Some? then 1 else 0) + (if c.Some? then 1 else 0)
  {
    if i > 0 {
      assert slots[i := c][1..] == slots[1..][i - 1 := c];
      CountSet(slots[1..], i - 1, c);
    } else {
      assert slots[0 := c][1..] == slots[1..];
    }
  }

  lemma {:induction false} CountNone(n: nat)
    ensures Count(NoJobs(n)) == 0
  {
    if n > 0 {
      assert NoJobs(n)[1..] == NoJobs(n - 1);
      CountNone(n - 1);
    }
  }

  lemma {:induction false} CountMore(slots: seq<Option<Context>>, n: nat)
    ensures Count(slots + NoJobs(n)) == Count(slots)
    decreases |slots|
  {
    if slots == [] {
      assert slots + NoJobs(n) == NoJobs(n);
      CountNone(n);
    } else {
      assert (slots + NoJobs(n))[1..] == slots[1..] + NoJobs(n);
      CountMore(slots[1..], n);
    }
  }

  lemma {:induction false} SomeFree(slots: seq<Option<Context>>)
    ensures Count(slots) <= |slots| && (Count(slots) < |slots| ==> FirstFree(slots) < |slots|)
  {
    if slots != [] {
      SomeFree(slots[1..]);
    }
  }

  /** Dispatching always finds a slot, takes the lowest free one, and leaves all
      other jobs as they are. */
  lemma DispatchKeeps(t: Jobs, ip: u32)
    requires Sound(t)
    ensures var i := FirstFree(GrownTable(t).slots);
            var d := Dispatched(t, ip);
            && Sound(d) && i < |d.slots| && d.slots[i] == Some(Newborn(ip)) && d.active == t.active + 1
            && |d.slots| >= |t.slots| && (i < |t.slots| ==> t.slots[i].None?)
            && forall k :: 0 <= k < |d.slots| && k != i ==> d.slots[k] == if k < |t.slots| then t.slots[k] else None
  {
    hide Count;
    CountMore(t.slots, FIRST_SLOTS);
    SomeFree(t.slots);
    var g := GrownTable(t);
    SomeFree(g.slots);
    CountSet(g.slots, FirstFree(g.slots), Some(Newborn(ip)));
  }

  lemma ExitKeeps(t: Jobs, j: nat)
    requires Sound(t)
    ensures Sound(Exited(t, j))
  {
    hide Count;
    if j < |t.slots| {
      CountSet(t.slots, j, None);
    }
  }

  datatype TableCall = Dispatch(ip: u32) | Exit(j: nat)

  function AfterCalls(t: Jobs, run: seq<TableCall>): Jobs
    decreases |run|
  {
    if run == [] then t
    else AfterCalls(match run[0] case Dispatch(ip) => Dispatched(t, ip) case Exit(j) => Exited(t, j), run[1..])
  }

  /** Over any run of dispatches and exits the active count is the number of
      slots in use, so a dispatch never fails to find a slot. */
  lemma {:induction false} TableSound(run: seq<TableCall>, ip: u32)
    ensures var t := AfterCalls(EMPTY, run);
            Sound(t) && FirstFree(GrownTable(t).slots) < |GrownTable(t).slots|
  {
    hide AfterCalls, GrownTable;
    CountNone(FIRST_SLOTS);
    CallsKeep(EMPTY, run);
    DispatchKeeps(AfterCalls(EMPTY, run), ip);
    assert |Dispatched(AfterCalls(EMPTY, run), ip).slots| == |GrownTable(AfterCalls(EMPTY, run)).slots|;
  }

  lemma {:induction false} CallsKeep(t: Jobs, run: seq<TableCall>)
    requires Sound(t)
    ensures Sound(AfterCalls(t, run))
    decreases |run|
  {
    hide Dispatched, Exited, Sound;
    if run != [] {
      match run[0] {
        case Dispatch(ip) =>
          DispatchKeeps(t, ip);
          CallsKeep(Dispatched(t, ip), run[1..]);
        case Exit(j) =>
          ExitKeeps(t, j);
          CallsKeep(Exited(t, j), run[1..]);
      }
    }
  }

  // ----- one turn -----

  const SYSCALL_DISPATCH := 8

  datatype Turned = Turned(s: State, spawn: Option<u32>)

  /** SYSCALL_DISPATCH: an entry point beyond memory is an access violation, and
      then the handler is entered without moving on. */
  function ServeDispatch(s: State): Option<Turned> {
    var entry := Low32(Item(s.ds, 1));
    if entry > |s.mem| then
      match HandleException(s, INVALID_ACCESS)
      case Next(t) => Some(Turned(t, None))
      case _ => None
    else Some(Turned(s.(ip := Low32(s.ip + 2)), Some(entry)))
  }

  /** The system calls there are. */
  function Serve(s: State, n: byte, extra: seq<byte>): Option<Turned> {
    if n == SYSCALL_ALLOC then
      var t := AfterAlloc(s, extra);
      if t.Some? then Some(Turned(t.value, None)) else None
    else if n == SYSCALL_DISPATCH then ServeDispatch(s)
    else None
  }

  /** One instruction of one job. `extra` is what the system puts into new memory.
      None: the machine stops, or asks for something outside this model. */
  function Turn(s: State, extra: seq<byte>): Option<Turned> {
    match Step(s)
    case Next(t) => Some(Turned(t, None))
    case Trap(n) => Serve(s, n, extra)
    case Halt => None
    case Stuck(_) => None
  }

  // ----- the loop -----

  /** `lastIp` is the instruction pointer the last job left in the processor. */
  datatype World = World(jobs: Jobs, current: u32, lastIp: u32, mem: Memory, pages: seq<Page>, limit: u32)

  predicate Live(w: World, j: nat) {
    j < |w.jobs.slots| && w.jobs.slots[j].Some?
  }

  function StateOf(w: World, j: nat): State
    requires Live(w, j)
  {
    Join(w.jobs.slots[j].value, w.mem, w.pages, w.limit)
  }

  /** The unsigned job counter wraps from the size of the table to 0. */
  function Advance(current: u32, total: nat): u32 {
    Low32((if current >= total then 0xFFFF_FFFF else current) + 1)
  }

  /** One round of the loop. The page checked is that of the processor's
      instruction pointer before the next job is loaded. */
  function Iterate(w: World, extra: seq<byte>): Option<World> {
    if PageAt(w.pages, w.lastIp) != Executable then None
    else if !Live(w, w.current) then Some(w.(current := Advance(w.current, |w.jobs.slots|)))
    else
      var r := Turn(StateOf(w, w.current), extra);
      if r.None? then None
      else
        var jobs := if r.value.spawn.Some? then Dispatched(w.jobs, r.value.spawn.value) else w.jobs;
        Some(Saved(w, jobs, r.value.s))
  }

  function Saved(w: World, jobs: Jobs, t: State): World {
    var slots := if w.current < |jobs.slots| then jobs.slots[w.current := Some(ContextOf(t))] else jobs.slots;
    World(jobs.(slots := slots), Advance(w.current, |slots|), t.ip, t.mem, t.pages, w.limit)
  }

  ghost predicate Round(w: World, w': World) {
    exists extra :: Iterate(w, extra) == Some(w')
  }

  ghost predicate Path(ws: seq<World>) {
    ws != [] && forall i :: 0 <= i < |ws| - 1 ==> Round(ws[i], ws[i + 1])
  }

  /** As many rounds as there are heap contents to come, unless the loop ends
      before. */
  function Rounds(w: World, extras: seq<seq<byte>>): Option<World>
    decreases |extras|
  {
    if extras == [] then Some(w)
    else
      var v := Rounds(w, extras[..|extras| - 1]);
      if v.None? then None else Iterate(v.value, extras[|extras| - 1])
  }

  /** A loop that has ended runs no more rounds. */
  lemma {:induction false} RoundsEnd(w: World, extras: seq<seq<byte>>, k: nat)
    requires k <= |extras| && Rounds(w, extras[..k]).None?
    ensures Rounds(w, extras).None?
    decreases |extras|
  {
    hide Iterate;
    var n := |extras| - 1;
    if k <= n {
      assert extras[..n][..k] == extras[..k];
      RoundsEnd(w, extras[..n], k);
    } else {
      assert extras[..k] == extras;
    }
  }

  lemma LastRound(w: World, extras: seq<seq<byte>>)
    requires extras != [] && Rounds(w, extras).Some?
    ensures var before := Rounds(w, extras[..|extras| - 1]);
            before.Some? && Round(before.value, Rounds(w, extras).value)
  {
    hide Iterate;
  }

  /** The worlds that rounds lead to are the ends of paths, and the other way
      round. */
  lemma {:induction false} RoundsArePath(w: World, extras: seq<seq<byte>>)
    requires Rounds(w, extras).Some?
    ensures exists ws :: Path(ws) && |ws| == |extras| + 1 && ws[0] == w && ws[|extras|] == Rounds(w, extras).value
    decreases |extras|
  {
    hide Iterate, Round;
    if extras == [] {
      assert Path([w]);
    } else {
      var n := |extras| - 1;
      RoundsArePath(w, extras[..n]);
      var ws :| Path(ws) && |ws| == n + 1 && ws[0] == w && ws[n] == Rounds(w, extras[..n]).value;
      var v := Rounds(w, extras).value;
      assert Round(ws[n], v) by {
        LastRound(w, extras);
      }
      var more := ws + [v];
      forall i | 0 <= i < |more| - 1 ensures Round(more[i], more[i + 1]) {
        assert i < n ==> Round(ws[i], ws[i + 1]);
      }
      assert Path(more) && |more| == |extras| + 1 && more[0] == w && more[|extras|] == v;
    }
  }

  lemma {:induction false} PathIsRounds(ws: seq<World>) returns (extras: seq<seq<byte>>)
    requires Path(ws)
    ensures |extras| == |ws| - 1 && Rounds(ws[0], extras) == Some(ws[|ws| - 1])
    decreases |ws|
  {
    hide Iterate;
    extras := [];
    var n := |ws| - 1;
    if n > 0 {
      PathPrefix(ws, n - 1);
      var before := PathIsRounds(ws[..n]);
      assert Round(ws[n - 1], ws[n]);
      var extra :| Iterate(ws[n - 1], extra) == Some(ws[n]);
      extras := before + [extra];
      assert extras[..n - 1] == before;
    }
  }

  lemma IterateSound(w: World, extra: seq<byte>)
    requires Sound(w.jobs) && Iterate(w, extra).Some?
    ensures Sound(Iterate(w, extra).value.jobs)
  {
    hide Turn, Count, Dispatched;
    if Live(w, w.current) {
      var r := Turn(StateOf(w, w.current), extra).value;
      if r.spawn.Some? {
        DispatchKeeps(w.jobs, r.spawn.value);
        CountSet(Dispatched(w.jobs, r.spawn.value).slots, w.current, Some(ContextOf(r.s)));
      } else {
        CountSet(w.jobs.slots, w.current, Some(ContextOf(r.s)));
      }
    }
  }

  // ----- fairness -----

  /** How many of the rounds were job `j`'s. */
  function Turns(ws: seq<World>, j: nat): nat {
    if |ws| <= 1 then 0
    else Turns(ws[..|ws| - 1], j) + if ws[|ws| - 2].current == j then 1 else 0
  }

  ghost predicate SameTable(ws: seq<World>, n: nat) {
    forall i :: 0 <= i < |ws| ==> |ws[i].jobs.slots| == n
  }

  lemma IterateAdvances(w: World, extra: seq<byte>)
    requires Iterate(w, extra).Some?
    ensures var w' := Iterate(w, extra).value; w'.current == Advance(w.current, |w'.jobs.slots|)
  {
    hide Turn, Dispatched;
  }

  /** The counter after `i` rounds, at most one time round. */
  lemma {:induction false} CounterAfter(ws: seq<World>, n: nat, i: nat)
    requires Path(ws) && SameTable(ws, n) && n < 0xFFFF_FFFF && ws[0].current <= n && i < |ws| && i <= n
    ensures var c := ws[0].current + i; ws[i].current == if c <= n then c else c - (n + 1)
    decreases i
  {
    hide Iterate;
    if i > 0 {
      CounterAfter(ws, n, i - 1);
      var extra :| Iterate(ws[i - 1], extra) == Some(ws[i]);
      IterateAdvances(ws[i - 1], extra);
    }
  }

  /** Rounds until it is `j`'s turn. */
  function Wait(current: nat, j: nat, n: nat): int {
    if j >= current then j - current else j + n + 1 - current
  }

  lemma PathPrefix(ws: seq<World>, k: nat)
    requires Path(ws) && k < |ws|
    ensures Path(ws[..k + 1])
  {
    hide Round;
    var front := ws[..k + 1];
    assert forall i :: 0 <= i < |front| ==> front[i] == ws[i];
  }

  lemma {:induction false} TurnsWithin(ws: seq<World>, n: nat, j: nat)
    requires Path(ws) && SameTable(ws, n) && n < 0xFFFF_FFFF && ws[0].current <= n && j <= n && |ws| <= n + 2
    ensures Turns(ws, j) == if Wait(ws[0].current, j, n) < |ws| - 1 then 1 else 0
    decreases |ws|
  {
    hide Iterate, Path;
    if |ws| > 1 {
      var m := |ws| - 2;
      PathPrefix(ws, m);
      var front := ws[..m + 1];
      assert front[0] == ws[0];
      assert SameTable(front, n) by {
        assert forall i :: 0 <= i < |front| ==> front[i] == ws[i];
      }
      TurnsWithin(front, n, j);
      CounterAfter(ws, n, m);
    }
  }

  /** While the table does not grow, every slot gets exactly one of any
      `n + 1` rounds in a row, wherever the counter stands. */
  lemma OneTurnEach(ws: seq<World>, n: nat, j: nat)
    requires Path(ws) && SameTable(ws, n) && n < 0xFFFF_FFFF && ws[0].current <= n && |ws| == n + 2
    requires j < n
    ensures Turns(ws, j) == 1 && ws[n + 1].current == ws[0].current
  {
    hide Iterate, Path;
    TurnsWithin(ws, n, j);
    CounterAfter(ws, n, n);
    assert Path(ws);
    LastAdvance(ws, n);
  }

  lemma LastAdvance(ws: seq<World>, i: nat)
    requires Path(ws) && i + 1 < |ws|
    ensures ws[i + 1].current == Advance(ws[i].current, |ws[i + 1].jobs.slots|)
  {
    hide Iterate;
    var extra :| Iterate(ws[i], extra) == Some(ws[i + 1]);
    IterateAdvances(ws[i], extra);
  }
}
