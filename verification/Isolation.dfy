/** Interleaved jobs do not disturb each other: a job's context after its turns
    is what the same number of steps on its own would have made of it. */
module Isolation {
  import opened Words
  import opened Isa
  import opened Machine
  import opened Locality
  import opened Confinement
  import opened Pages
  import opened Protection
  import opened Scheduling

  // ----- a job on its own -----

  /** The turns of one job with memory to itself; what the system puts into new
      memory is given turn by turn. */
  function Solo(extras: seq<seq<byte>>, s: State): Option<State>
    decreases |extras|
  {
    if extras == [] then Some(s)
    else
      var t := Solo(extras[..|extras| - 1], s);
      if t.None? then None
      else
        var r := Turn(t.value, extras[|extras| - 1]);
        if r.None? then None else Some(r.value.s)
  }

  /** Same context, same page table and memory size, same bytes at `seen`. */
  ghost predicate Matches(s: State, t: State, seen: iset<int>) {
    && SameButMemory(s, t)
    && forall a :: 0 <= a < |s.mem| && a in seen ==> s.mem[a] == t.mem[a]
  }

  /** Everything the next step of `s` reads is in `seen`. */
  ghost predicate ReadsOnly(s: State, seen: iset<int>) {
    forall a :: Looks(s, a) ==> a in seen
  }

  /** Nothing the next step of `s` writes is in `seen`. */
  ghost predicate WritesOutside(s: State, seen: iset<int>) {
    forall a :: Writes(s, a) ==> a !in seen
  }

  lemma SameFetch(s: State, t: State, seen: iset<int>)
    requires Matches(s, t, seen) && ReadsOnly(s, seen)
    ensures Decode(s.mem, s.ip) == Decode(t.mem, t.ip)
    ensures Alike(Step(s), Step(t)) && forall a :: Writes(s, a) == Writes(t, a)
  {
    hide Step, Decode, FetchLength, Writes;
    assert forall a :: 0 <= a < |s.mem| && Looks(s, a) ==> s.mem[a] == t.mem[a];
    StepLocal(s, t);
    assert forall a :: s.ip <= a < s.ip + FetchLength(s.mem, s.ip) ==> Looks(s, a);
    DecodeLocal(s.mem, t.mem, s.ip);
  }

  /** A turn with the memory of the whole machine does to the context what it
      does with a memory that agrees on the bytes read. */
  lemma TurnMatches(s: State, t: State, extra: seq<byte>, seen: iset<int>)
    requires Matches(s, t, seen) && ReadsOnly(s, seen) && !AsksForMemory(s) && Turn(s, extra).Some?
    ensures Turn(t, extra).Some? && Turn(t, extra).value.spawn == Turn(s, extra).value.spawn
    ensures Matches(Turn(s, extra).value.s, Turn(t, extra).value.s, seen)
    ensures !AsksForMemory(t)
  {
    hide Step, Decode, Writes, ReadsOnly, Item, HandleException, Looks;
    SameFetch(s, t, seen);
    if Step(s).Next? {
      var u, v := Step(s).s, Step(t).s;
      forall a | 0 <= a < |u.mem| && a in seen
        ensures u.mem[a] == v.mem[a]
      {
        StepMatches(s, t, seen, a);
      }
    } else {
      ServeMatches(s, t, seen);
    }
  }

  lemma StepMatches(s: State, t: State, seen: iset<int>, a: nat)
    requires Matches(s, t, seen) && Decode(s.mem, s.ip) == Decode(t.mem, t.ip) && a in seen
    requires Step(s).Next? && Step(t).Next? && a < |Step(s).s.mem| && |Step(s).s.mem| == |Step(t).s.mem|
    requires Writes(s, a) == Writes(t, a)
    ensures Step(s).s.mem[a] == Step(t).s.mem[a]
  {
    hide Step, Decode, Writes;
    MemorySize(s);
    StepWrites(s, a);
    StepWrites(t, a);
    if Writes(s, a) {
      WrittenAlike(s, t, a);
    }
  }

  lemma MemorySize(s: State)
    requires Step(s).Next?
    ensures |Step(s).s.mem| == |s.mem| && Step(s).s.pages == s.pages && Step(s).s.limit == s.limit
  {
    hide Step, Decode, Perform;
    if |s.mem| > 0 {
      StepWrites(s, 0);
    } else {
      NothingToRun(s);
    }
  }

  lemma NothingToRun(s: State)
    requires |s.mem| == 0
    ensures !Step(s).Next?
  {
    hide Perform;
  }

  lemma ServeMatches(s: State, t: State, seen: iset<int>)
    requires Matches(s, t, seen) && ServeDispatch(s).Some?
    ensures ServeDispatch(t).Some? && ServeDispatch(t).value.spawn == ServeDispatch(s).value.spawn
    ensures Matches(ServeDispatch(s).value.s, ServeDispatch(t).value.s, seen)
  {
    hide Item;
  }

  // ----- memory that has grown -----

  /** Same context over a memory that agrees on `seen` and on all page types as
      far as the smaller one, `t`'s, goes. */
  ghost predicate Grown(s: State, t: State, seen: iset<int>) {
    && s == t.(mem := s.mem, pages := s.pages)
    && |t.mem| <= |s.mem| && SameTypes(s.pages, t.pages, |t.mem|)
    && (forall a :: 0 <= a < |t.mem| && a in seen ==> s.mem[a] == t.mem[a])
    && (|t.mem| == |s.mem| ==> |t.pages| == |s.pages|)
  }

  /** The memory of `s`, with the bytes of `t` as far as they go. */
  function Between(s: State, t: State): (u: State)
    requires |t.mem| <= |s.mem|
    ensures u == s.(mem := u.mem) && |u.mem| == |s.mem| && u.mem[..|t.mem|] == t.mem
  {
    s.(mem := t.mem + s.mem[|t.mem|..])
  }

  lemma BetweenBoth(s: State, t: State, seen: iset<int>)
    requires Grown(s, t, seen)
    ensures Matches(s, Between(s, t), seen) && Cut(Between(s, t), |t.mem|, t.pages) == t
  {
    hide SameTypes;
  }

  lemma InsideToo(s: State, t: State, seen: iset<int>, n: nat)
    requires Matches(s, t, seen) && ReadsOnly(s, seen) && Inside(s, n)
    ensures Inside(t, n)
  {
    hide Decode, FetchLength, Item;
    assert forall a :: s.ip <= a < s.ip + FetchLength(s.mem, s.ip) ==> Looks(s, a);
    DecodeLocal(s.mem, t.mem, s.ip);
  }

  /** A turn that asks for no memory. Where memory has grown since, its accesses
      must stay below the old end. */
  lemma TurnGrown(s: State, t: State, extra: seq<byte>, seen: iset<int>)
    requires Grown(s, t, seen) && ReadsOnly(s, seen) && !AsksForMemory(s) && Turn(s, extra).Some?
    requires (|s.mem| == |t.mem| && s.pages == t.pages) || Inside(s, |t.mem|)
    ensures !AsksForMemory(t) && Turn(t, extra).Some? && Turn(t, extra).value.spawn == Turn(s, extra).value.spawn
    ensures Grown(Turn(s, extra).value.s, Turn(t, extra).value.s, seen)
    ensures var t' := Turn(t, extra).value.s; |t'.mem| == |t.mem| && t'.pages == t.pages
  {
    hide Turn, ReadsOnly, Inside, AsksForMemory, SameTypes;
    var n, u := |t.mem|, Between(s, t);
    BetweenBoth(s, t, seen);
    TurnMatches(s, u, extra, seen);
    TurnKeepsShape(s, extra);
    TurnKeepsShape(u, extra);
    if n == |s.mem| && s.pages == t.pages {
      assert u == t;
    } else {
      InsideToo(s, u, seen, n);
      TurnCut(u, extra, n, t.pages);
      NeverAsks(u, n, t.pages);
    }
  }

  lemma NeverAsks(u: State, n: nat, pages: seq<Page>)
    requires n <= |u.mem| && SameTypes(u.pages, pages, n) && Inside(u, n) && !AsksForMemory(u)
    ensures !AsksForMemory(Cut(u, n, pages))
  {
    hide Step, SameTypes, Inside;
    StepCut(u, n, pages);
  }

  lemma AskInside(s: State)
    requires AsksForMemory(s)
    ensures Inside(s, |s.mem|)
  {
    hide Act, Item, Popped, TopOf;
  }

  /** What a request for memory keeps. */
  lemma AllocGrows(s: State, extra: seq<byte>)
    requires AfterAlloc(s, extra).Some?
    ensures var t := AfterAlloc(s, extra).value;
            && t.mem == s.mem + extra && t.limit == s.limit && SameTypes(t.pages, s.pages, |s.mem|)
            && |s.pages| == |s.mem| / PAGE + 1 && |t.pages| == |t.mem| / PAGE + 1
            && (forall k :: |s.mem| / PAGE <= k < |t.pages| ==> t.pages[k] == ReadWrite)
            && |s.mem| % PAGE == 0 && |t.mem| < 0x1_0000_0000
  {
    hide HeapPages, PagesAfter, Item;
    var request := Low32(Item(s.ds + [|s.mem|], 2));
    PagesAfterGrowth(s.pages, |s.mem|, request);
    SizeAfter(|s.mem|, request);
    var t := AfterAlloc(s, extra).value;
    forall a | 0 <= a < |s.mem|
      ensures PageAt(t.pages, a) == PageAt(s.pages, a)
    {
      assert a / PAGE < |s.mem| / PAGE;
      assert t.pages[a / PAGE] == t.pages[..|s.mem| / PAGE][a / PAGE];
    }
  }

  /** A turn that asks for memory, while nobody else's request stands between. */
  lemma AskGrown(s: State, t: State, extra: seq<byte>, seen: iset<int>)
    requires Grown(s, t, seen) && ReadsOnly(s, seen) && AsksForMemory(s) && Turn(s, extra).Some?
    requires |s.mem| == |t.mem|
    ensures AsksForMemory(t) && Turn(t, extra).Some? && Turn(s, extra).value.spawn == Turn(t, extra).value.spawn == None
    ensures var s', t' := Turn(s, extra).value.s, Turn(t, extra).value.s;
            Grown(s', t', seen) && |t'.mem| == |s'.mem| && t'.pages == s'.pages && s'.limit == s.limit
  {
    hide Step, ReadsOnly, Inside, SameTypes, Item, PagesAfter, HeapPages, AfterAlloc;
    var u := Between(s, t);
    BetweenBoth(s, t, seen);
    SameFetch(s, u, seen);
    AskInside(u);
    StepCut(u, |t.mem|, t.pages);
    AllocGrown(s, t, extra, seen);
  }

  lemma AllocGrown(s: State, t: State, extra: seq<byte>, seen: iset<int>)
    requires Grown(s, t, seen) && |s.mem| == |t.mem| && AfterAlloc(s, extra).Some?
    ensures AfterAlloc(t, extra).Some?
    ensures var s', t' := AfterAlloc(s, extra).value, AfterAlloc(t, extra).value;
            Grown(s', t', seen) && |t'.mem| == |s'.mem| && t'.pages == s'.pages && s'.limit == s.limit
  {
    hide Item, PagesAfter, HeapPages, SameTypes, PageAt;
    assert PushData(s, |s.mem|).Ok? && PushData(t, |t.mem|).Ok?;
    AllocGrows(s, extra);
    AllocGrows(t, extra);
    var s', t' := AfterAlloc(s, extra).value, AfterAlloc(t, extra).value;
    SamePages(s, t, s'.pages, t'.pages, |s.mem|);
    TypesOfSame(s'.pages, |t'.mem|);
  }

  lemma TypesOfSame(pages: seq<Page>, n: nat)
    ensures SameTypes(pages, pages, n)
  {
  }

  /** Tables that agree below `n` and are all writable from there on are equal. */
  lemma SamePages(s: State, t: State, a: seq<Page>, b: seq<Page>, n: nat)
    requires n % PAGE == 0 && |a| == |b| && n / PAGE <= |a| && SameTypes(s.pages, t.pages, n)
    requires SameTypes(a, s.pages, n) && SameTypes(b, t.pages, n)
    requires forall k :: n / PAGE <= k < |a| ==> a[k] == b[k] == ReadWrite
    ensures a == b
  {
    forall k | 0 <= k < n / PAGE
      ensures a[k] == b[k]
    {
      var x := PAGE * k;
      assert x < n && x / PAGE == k;
      assert PageAt(a, x) == PageAt(s.pages, x) == PageAt(t.pages, x) == PageAt(b, x);
    }
  }

  /** A request after somebody else's is answered with another address: the two
      contexts agree if and only if the memories have the same size. */
  lemma LateRequest(s: State, t: State, extra: seq<byte>, extra': seq<byte>)
    requires s == t.(mem := s.mem, pages := s.pages)
    requires AfterAlloc(s, extra).Some? && AfterAlloc(t, extra').Some?
    ensures ContextOf(AfterAlloc(s, extra).value) == ContextOf(AfterAlloc(t, extra').value) <==> |s.mem| == |t.mem|
  {
    hide Item, PagesAfter, HeapPages, Room;
    var x, y := AfterAlloc(s, extra).value.ds, AfterAlloc(t, extra').value.ds;
    assert x[|s.ds|] == |s.mem| && y[|t.ds|] == |t.mem|;
  }

  lemma TurnKeepsShape(s: State, extra: seq<byte>)
    requires Turn(s, extra).Some? && !AsksForMemory(s)
    ensures var t := Turn(s, extra).value.s; t.limit == s.limit && |t.mem| == |s.mem| && t.pages == s.pages
  {
    hide Step, Item;
    if Step(s).Next? {
      MemorySize(s);
    }
  }

  // ----- rounds of the loop -----

  /** How far memory went, and its page types, at some time. */
  datatype Extent = Extent(size: nat, pages: seq<Page>)

  function ExtentOf(w: World): Extent {
    Extent(|w.mem|, w.pages)
  }

  predicate Requests(w: World) {
    Live(w, w.current) && AsksForMemory(StateOf(w, w.current))
  }

  /** The memory job `j` knows of: as it was at the start, or after its own last
      request. */
  function Own(ws: seq<World>, j: nat): Extent
    requires ws != []
  {
    if |ws| == 1 then ExtentOf(ws[0])
    else NextOwn(ws[|ws| - 2], ws[|ws| - 1], j, Own(ws[..|ws| - 1], j))
  }

  function NextOwn(w: World, w': World, j: nat, own: Extent): Extent {
    if w.current == j && Requests(w) then ExtentOf(w') else own
  }

  /** A round of job `j`, which reads only `seen`, or of another job, which
      writes nothing there. Any job may ask for memory. Once another job has, `j`
      keeps below the end of its own memory and asks for no more. */
  ghost predicate Undisturbed(w: World, j: nat, own: Extent, seen: iset<int>) {
    Live(w, w.current) ==>
      var s := StateOf(w, w.current);
      if w.current != j then WritesOutside(s, seen)
      else
        && ReadsOnly(s, seen)
        && (own != ExtentOf(w) ==> Inside(s, own.size) && (AsksForMemory(s) ==> own.size == |w.mem|))
  }

  /** The job as it would be alone, in its own memory, is the job in the world. */
  ghost predicate Tracks(w: World, j: nat, t: State, own: Extent, seen: iset<int>) {
    Live(w, j) && Grown(StateOf(w, j), t, seen) && Extent(|t.mem|, t.pages) == own
  }

  lemma OwnRound(w: World, extra: seq<byte>, j: nat, t: State, own: Extent, seen: iset<int>)
    requires Sound(w.jobs) && w.current == j && Tracks(w, j, t, own, seen) && Undisturbed(w, j, own, seen)
    requires Iterate(w, extra).Some?
    ensures Turn(t, extra).Some?
    ensures var w' := Iterate(w, extra).value;
            Tracks(w', j, Turn(t, extra).value.s, NextOwn(w, w', j, own), seen)
  {
    hide Turn, ReadsOnly, Grown, Inside, AsksForMemory, Dispatched, Count, FirstFree, PageAt;
    var s := StateOf(w, j);
    GrownSizes(s, t, seen);
    if AsksForMemory(s) {
      AskGrown(s, t, extra, seen);
    } else {
      TurnGrown(s, t, extra, seen);
      TurnKeepsShape(s, extra);
    }
    var r := Turn(s, extra).value;
    if r.spawn.Some? {
      DispatchKeeps(w.jobs, r.spawn.value);
    }
    JoinAgain(r.s);
  }

  lemma GrownSizes(s: State, t: State, seen: iset<int>)
    requires Grown(s, t, seen)
    ensures |t.mem| <= |s.mem|
  {
  }

  lemma JoinAgain(s: State)
    ensures Join(ContextOf(s), s.mem, s.pages, s.limit) == s
  {
  }

  lemma OtherRound(w: World, extra: seq<byte>, j: nat, t: State, own: Extent, seen: iset<int>)
    requires Sound(w.jobs) && w.current != j && Tracks(w, j, t, own, seen) && Undisturbed(w, j, own, seen)
    requires Iterate(w, extra).Some?
    ensures Tracks(Iterate(w, extra).value, j, t, own, seen)
  {
    hide Turn, AsksForMemory, Dispatched, Count, FirstFree, PageAt, WritesOutside, Writes, SameTypes;
    if Live(w, w.current) {
      var s := StateOf(w, w.current);
      TurnLeaves(s, extra, seen);
      var r := Turn(s, extra).value;
      if r.spawn.Some? {
        DispatchKeeps(w.jobs, r.spawn.value);
      }
      StillGrown(StateOf(w, j), t, r.s, seen);
    }
  }

  lemma StillGrown(s: State, t: State, later: State, seen: iset<int>)
    requires Grown(s, t, seen) && Leaves(s.mem, s.pages, later.mem, later.pages, seen)
    ensures Grown(s.(mem := later.mem, pages := later.pages), t, seen)
  {
    hide PageAt;
  }

  /** Memory may grow, but keeps its types and what it holds at `seen`. */
  ghost predicate Leaves(m: seq<byte>, pages: seq<Page>, m': seq<byte>, pages': seq<Page>, seen: iset<int>) {
    && |m| <= |m'| && SameTypes(pages', pages, |m|)
    && (forall a :: 0 <= a < |m| && a in seen ==> m'[a] == m[a])
    && (|m| == |m'| ==> |pages| == |pages'|)
  }

  lemma TurnLeaves(s: State, extra: seq<byte>, seen: iset<int>)
    requires WritesOutside(s, seen) && Turn(s, extra).Some?
    ensures var t := Turn(s, extra).value.s; t.limit == s.limit && Leaves(s.mem, s.pages, t.mem, t.pages, seen)
  {
    hide Step, Item, Writes, AfterAlloc, SameTypes;
    TypesOfSame(s.pages, |s.mem|);
    if Step(s).Next? {
      MemorySize(s);
      forall a | 0 <= a < |s.mem| && a in seen
        ensures Step(s).s.mem[a] == s.mem[a]
      {
        StepWrites(s, a);
      }
    } else if AsksForMemory(s) {
      AllocGrows(s, extra);
    }
  }

  // ----- whole runs -----

  /** A path, with what the system puts into new memory round by round. */
  ghost predicate Driven(ws: seq<World>, extras: seq<seq<byte>>) {
    |ws| == |extras| + 1 && forall i :: 0 <= i < |extras| ==> Iterate(ws[i], extras[i]) == Some(ws[i + 1])
  }

  lemma {:induction false} PathIsDriven(ws: seq<World>)
    requires Path(ws)
    ensures exists extras :: Driven(ws, extras)
    decreases |ws|
  {
    hide Iterate;
    var m := |ws| - 1;
    if m == 0 {
      assert Driven(ws, []);
    } else {
      PathPrefix(ws, m - 1);
      PathIsDriven(ws[..m]);
      var before :| Driven(ws[..m], before);
      assert Round(ws[m - 1], ws[m]);
      var extra :| Iterate(ws[m - 1], extra) == Some(ws[m]);
      var extras := before + [extra];
      forall i | 0 <= i < |extras|
        ensures Iterate(ws[i], extras[i]) == Some(ws[i + 1])
      {
        if i < m - 1 {
          assert Iterate(ws[..m][i], before[i]) == Some(ws[..m][i + 1]);
        }
      }
      assert Driven(ws, extras);
    }
  }

  lemma DrivenIsPath(ws: seq<World>, extras: seq<seq<byte>>)
    requires Driven(ws, extras)
    ensures Path(ws)
  {
    hide Iterate;
    forall i | 0 <= i < |ws| - 1
      ensures Round(ws[i], ws[i + 1])
    {
      assert Iterate(ws[i], extras[i]) == Some(ws[i + 1]);
    }
  }

  lemma DrivenPrefix(ws: seq<World>, extras: seq<seq<byte>>)
    requires Driven(ws, extras) && extras != []
    ensures Driven(ws[..|extras|], extras[..|extras| - 1])
  {
    hide Iterate;
    var m := |extras| - 1;
    forall i | 0 <= i < m
      ensures Iterate(ws[..m + 1][i], extras[..m][i]) == Some(ws[..m + 1][i + 1])
    {
      assert Iterate(ws[i], extras[i]) == Some(ws[i + 1]);
    }
  }

  /** What came in the rounds of job `j`. */
  function OwnExtras(ws: seq<World>, extras: seq<seq<byte>>, j: nat): (own: seq<seq<byte>>)
    requires |ws| == |extras| + 1
    ensures |own| == Turns(ws, j)
    decreases |extras|
  {
    if extras == [] then []
    else
      var m := |extras| - 1;
      OwnExtras(ws[..m + 1], extras[..m], j) + if ws[m].current == j then [extras[m]] else []
  }

  ghost predicate UndisturbedRun(ws: seq<World>, j: nat, seen: iset<int>) {
    forall i :: 0 <= i < |ws| - 1 ==> Undisturbed(ws[i], j, Own(ws[..i + 1], j), seen)
  }

  lemma UndisturbedPrefix(ws: seq<World>, j: nat, seen: iset<int>)
    requires UndisturbedRun(ws, j, seen) && |ws| > 1
    ensures UndisturbedRun(ws[..|ws| - 1], j, seen)
    ensures Undisturbed(ws[|ws| - 2], j, Own(ws[..|ws| - 1], j), seen)
  {
    hide Undisturbed, Own;
    var front := ws[..|ws| - 1];
    forall i | 0 <= i < |front| - 1
      ensures Undisturbed(front[i], j, Own(front[..i + 1], j), seen)
    {
      assert front[..i + 1] == ws[..i + 1];
      assert Undisturbed(ws[i], j, Own(ws[..i + 1], j), seen);
    }
  }

  /** In every run of the loop, requests for memory included: if all that job
      `j` reads in its turns lies in a set no other job writes to, then its
      context at the end is that of its turns taken alone, with memory to
      itself. */
  lemma {:induction false} JobsAreIsolated(ws: seq<World>, extras: seq<seq<byte>>, j: nat, seen: iset<int>)
    requires Driven(ws, extras) && Sound(ws[0].jobs) && Live(ws[0], j) && UndisturbedRun(ws, j, seen)
    ensures var last, t := ws[|ws| - 1], Solo(OwnExtras(ws, extras, j), StateOf(ws[0], j));
            && Sound(last.jobs) && Live(last, j) && t.Some?
            && last.jobs.slots[j].value == ContextOf(t.value)
            && Tracks(last, j, t.value, Own(ws, j), seen)
    decreases |ws|
  {
    hide Iterate, Turn, Sound, Undisturbed, Grown, NextOwn;
    if extras == [] {
      GrownSame(StateOf(ws[0], j), seen);
    } else {
      var m := |extras| - 1;
      var front := ws[..m + 1];
      DrivenPrefix(ws, extras);
      UndisturbedPrefix(ws, j, seen);
      JobsAreIsolated(front, extras[..m], j, seen);
      assert front[|front| - 1] == ws[m];
      assert Iterate(ws[m], extras[m]) == Some(ws[m + 1]);
      IterateSound(ws[m], extras[m]);
      var own := OwnExtras(front, extras[..m], j);
      SoloMore(ws, extras, j);
      OneRound(ws[m], extras[m], ws[m + 1], j, Solo(own, StateOf(ws[0], j)).value, Own(front, j), seen);
    }
  }

  /** The job alone, one round on. */
  function SoloAfter(w: World, extra: seq<byte>, j: nat, t: State): Option<State> {
    if w.current != j then Some(t)
    else
      var r := Turn(t, extra);
      if r.None? then None else Some(r.value.s)
  }

  lemma OneRound(w: World, extra: seq<byte>, w': World, j: nat, t: State, own: Extent, seen: iset<int>)
    requires Sound(w.jobs) && Tracks(w, j, t, own, seen) && Undisturbed(w, j, own, seen)
    requires Iterate(w, extra) == Some(w')
    ensures var t' := SoloAfter(w, extra, j, t);
            && t'.Some? && Tracks(w', j, t'.value, NextOwn(w, w', j, own), seen)
            && w'.jobs.slots[j].value == ContextOf(t'.value)
  {
    hide Iterate, Turn, Sound, Undisturbed, NextOwn, Grown;
    if w.current == j {
      OwnRound(w, extra, j, t, own, seen);
    } else {
      OtherRound(w, extra, j, t, own, seen);
      NotMine(w, w', j, own);
    }
    GrownContext(StateOf(w', j), SoloAfter(w, extra, j, t).value, seen);
  }

  lemma SoloMore(ws: seq<World>, extras: seq<seq<byte>>, j: nat)
    requires |ws| == |extras| + 1 && extras != [] && Live(ws[0], j)
    ensures var m := |extras| - 1;
            var t := Solo(OwnExtras(ws[..m + 1], extras[..m], j), StateOf(ws[0], j));
            Solo(OwnExtras(ws, extras, j), StateOf(ws[0], j)) ==
              if t.None? then None else SoloAfter(ws[m], extras[m], j, t.value)
  {
    hide Turn;
    var m := |extras| - 1;
    var own := OwnExtras(ws[..m + 1], extras[..m], j);
    assert (own + [extras[m]])[..|own|] == own;
    assert own + [] == own;
  }

  lemma GrownSame(s: State, seen: iset<int>)
    ensures Grown(s, s, seen)
  {
  }

  lemma GrownContext(s: State, t: State, seen: iset<int>)
    requires Grown(s, t, seen)
    ensures ContextOf(s) == ContextOf(t)
  {
  }

  lemma NotMine(w: World, w': World, j: nat, own: Extent)
    requires w.current != j
    ensures NextOwn(w, w', j, own) == own
  {
  }

  // ----- when memory does not matter -----

  /** As long as no other job asks for memory, the job's own memory is the
      machine's: it may ask itself, and nothing is asked of its accesses. */
  lemma {:induction false} OwnIsAll(ws: seq<World>, extras: seq<seq<byte>>, j: nat)
    requires Driven(ws, extras)
    requires forall i :: 0 <= i < |extras| && ws[i].current != j ==> !Requests(ws[i])
    ensures Own(ws, j) == ExtentOf(ws[|ws| - 1])
    decreases |ws|
  {
    hide Iterate, Requests;
    if extras != [] {
      var m := |extras| - 1;
      DrivenPrefix(ws, extras);
      assert forall i :: 0 <= i < m ==> ws[..m + 1][i] == ws[i];
      OwnIsAll(ws[..m + 1], extras[..m], j);
      assert Iterate(ws[m], extras[m]) == Some(ws[m + 1]);
      if !Requests(ws[m]) {
        QuietRound(ws[m], extras[m]);
      }
    }
  }

  lemma QuietRound(w: World, extra: seq<byte>)
    requires Iterate(w, extra).Some? && !Requests(w)
    ensures ExtentOf(Iterate(w, extra).value) == ExtentOf(w)
  {
    hide Turn, AsksForMemory, PageAt, Dispatched;
    if Live(w, w.current) {
      TurnKeepsShape(StateOf(w, w.current), extra);
    }
  }

  /** A job that has the processor to itself is undisturbed, wherever it reads. */
  lemma AloneIsUndisturbed(ws: seq<World>, extras: seq<seq<byte>>, j: nat, seen: iset<int>)
    requires Driven(ws, extras) && forall a: int :: a in seen
    requires forall i :: 0 <= i < |extras| && Live(ws[i], ws[i].current) ==> ws[i].current == j
    ensures UndisturbedRun(ws, j, seen)
  {
    hide Iterate, AsksForMemory, Own, Inside, Looks;
    forall i | 0 <= i < |ws| - 1
      ensures Undisturbed(ws[i], j, Own(ws[..i + 1], j), seen)
    {
      DrivenFront(ws, extras, i);
      OwnIsAll(ws[..i + 1], extras[..i], j);
    }
  }

  lemma DrivenFront(ws: seq<World>, extras: seq<seq<byte>>, i: nat)
    requires Driven(ws, extras) && i <= |extras|
    ensures Driven(ws[..i + 1], extras[..i])
  {
    hide Iterate;
    forall k | 0 <= k < i
      ensures Iterate(ws[..i + 1][k], extras[..i][k]) == Some(ws[..i + 1][k + 1])
    {
      assert Iterate(ws[k], extras[k]) == Some(ws[k + 1]);
    }
  }

  /** A job that asks for no memory keeps the memory there was at the start. */
  lemma {:induction false} OwnIsStart(ws: seq<World>, j: nat)
    requires ws != [] && forall i :: 0 <= i < |ws| - 1 && ws[i].current == j ==> !Requests(ws[i])
    ensures Own(ws, j) == ExtentOf(ws[0])
    decreases |ws|
  {
    hide Requests;
    if |ws| > 1 {
      var front := ws[..|ws| - 1];
      assert forall i :: 0 <= i < |front| ==> front[i] == ws[i];
      OwnIsStart(front, j);
    }
  }

  /** A load past the end of the smaller memory that succeeds in the larger one
      tells the two apart. */
  lemma LoadBeyond(s: State, t: State, w: Width)
    requires s == t.(mem := s.mem, pages := s.pages)
    requires Decode(s.mem, s.ip) == Decode(t.mem, t.ip) == Instruction(Plain(Lods(w)))
    requires Step(s).Next? && PageAt(s.pages, s.regs[0]) in {ReadOnly, ReadWrite} && s.regs[0] + Bytes(w) > |t.mem|
    ensures !(Step(t).Next? && ContextOf(Step(t).s) == ContextOf(Step(s).s))
  {
    hide Decode, ReadLe, PageAt;
    if Step(t).Next? {
      assert Step(t).s.ds == t.ds + [t.regs[0]];
      assert Step(s).s.ds == s.ds;
    }
  }

  // ----- every job, over many rounds -----

  lemma {:induction false} TurnsSplit(ws: seq<World>, k: nat, j: nat)
    requires k < |ws|
    ensures Turns(ws, j) == Turns(ws[..k + 1], j) + Turns(ws[k..], j)
    decreases |ws|
  {
    if k + 1 == |ws| {
      assert ws[..k + 1] == ws;
    } else {
      var m := |ws| - 1;
      TurnsSplit(ws[..m], k, j);
      assert ws[..m][..k + 1] == ws[..k + 1];
      assert ws[..m][k..] == ws[k..][..m - k];
    }
  }

  lemma PathSuffix(ws: seq<World>, k: nat)
    requires Path(ws) && k < |ws|
    ensures Path(ws[k..])
  {
    hide Round;
    assert forall i :: 0 <= i < |ws| - k ==> ws[k..][i] == ws[k + i];
  }

  function Rounds(r: nat, n: nat): nat {
    if r == 0 then 0 else Rounds(r - 1, n) + (n + 1)
  }

  /** After `r` times round a table of fixed size, every slot had `r` turns. */
  lemma {:induction false} EqualTurns(ws: seq<World>, n: nat, r: nat, j: nat)
    requires Path(ws) && SameTable(ws, n) && n < 0xFFFF_FFFF && ws[0].current <= n && j < n
    requires |ws| == Rounds(r, n) + 1
    ensures Turns(ws, j) == r && ws[|ws| - 1].current == ws[0].current
    decreases r
  {
    hide Path, SameTable, Round;
    if r > 0 {
      var k := Rounds(r - 1, n);
      var front, back := ws[..k + 1], ws[k..];
      PathPrefix(ws, k);
      PathSuffix(ws, k);
      TablePart(ws, n, k);
      EqualTurns(front, n, r - 1, j);
      OneTurnEach(back, n, j);
      TurnsSplit(ws, k, j);
    }
  }

  lemma TablePart(ws: seq<World>, n: nat, k: nat)
    requires SameTable(ws, n) && k < |ws|
    ensures SameTable(ws[..k + 1], n) && SameTable(ws[k..], n)
  {
    assert forall i :: 0 <= i < |ws| - k ==> ws[k..][i] == ws[k + i];
  }

  /** Fair and isolated: after `r` times round, every undisturbed job is exactly
      `r` steps of its own further, whatever the others did. */
  lemma FairAndIsolated(ws: seq<World>, extras: seq<seq<byte>>, n: nat, r: nat, j: nat, seen: iset<int>)
    requires Driven(ws, extras) && SameTable(ws, n) && n < 0xFFFF_FFFF && ws[0].current <= n
    requires |ws| == Rounds(r, n) + 1
    requires Sound(ws[0].jobs) && Live(ws[0], j) && UndisturbedRun(ws, j, seen)
    ensures var last, own := ws[|ws| - 1], OwnExtras(ws, extras, j);
            && |own| == r && Live(last, j) && Solo(own, StateOf(ws[0], j)).Some?
            && last.jobs.slots[j].value == ContextOf(Solo(own, StateOf(ws[0], j)).value)
  {
    hide Path, Round, Solo, Turns, UndisturbedRun, Sound, Grown, Driven, OwnExtras;
    DrivenLength(ws, extras);
    DrivenIsPath(ws, extras);
    EqualTurns(ws, n, r, j);
    JobsAreIsolated(ws, extras, j, seen);
  }

  lemma DrivenLength(ws: seq<World>, extras: seq<seq<byte>>)
    requires Driven(ws, extras)
    ensures |ws| == |extras| + 1
  {
  }

  // ----- code of the whole machine -----

  ghost predicate AlignedRound(w: World) {
    Live(w, w.current) ==> AlignedStore(StateOf(w, w.current))
  }

  ghost predicate WorldCodeKept(w: World, w': World, end: nat) {
    BytesKept(w.mem, w.pages, w'.mem, w'.pages, end)
  }

  lemma TurnKeepsCode(s: State, extra: seq<byte>)
    requires AlignedStore(s) && Turn(s, extra).Some?
    ensures CodeKept(s, Turn(s, extra).value.s, |s.mem|)
  {
    hide Step, AfterAlloc, AlignedStore, Item, BytesKept;
    if Step(s).Next? {
      StepKeepsCode(s, Step(s).s);
    } else if Step(s) == Trap(SYSCALL_ALLOC) {
      AllocKeepsCode(s, extra);
    } else {
      SameMemory(s, Turn(s, extra).value.s);
    }
  }

  lemma RoundKeepsCode(w: World, w': World)
    requires Round(w, w') && AlignedRound(w)
    ensures WorldCodeKept(w, w', |w.mem|)
  {
    hide Turn, AlignedStore, PageAt, Dispatched;
    var extra :| Iterate(w, extra) == Some(w');
    if Live(w, w.current) {
      TurnKeepsCode(StateOf(w, w.current), extra);
    }
  }

  /** Whatever jobs run, dispatch and ask for memory: as long as stores are
      aligned, the code in the initial memory never changes. */
  lemma {:induction false} AllCodeStaysFixed(ws: seq<World>)
    requires Path(ws) && forall i :: 0 <= i < |ws| - 1 ==> AlignedRound(ws[i])
    ensures WorldCodeKept(ws[0], ws[|ws| - 1], |ws[0].mem|)
    decreases |ws|
  {
    hide Round, AlignedRound, PageAt;
    if |ws| > 1 {
      var m := |ws| - 2;
      PathPrefix(ws, m);
      var front := ws[..m + 1];
      assert forall i :: 0 <= i < |front| ==> front[i] == ws[i];
      AllCodeStaysFixed(front);
      RoundKeepsCode(ws[m], ws[m + 1]);
    }
  }
}
