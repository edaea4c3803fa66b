/** The allocation ledger that wraps malloc: a table with one slot for every
    live pointer, and three counters. 0 stands for NULL. */
module Ledger {
  import opened Words

  // ----- the table as a value -----

  datatype Table = Table(slots: seq<nat>, allocs: int, frees: nat, total: nat)

  const FIRST_SIZE := 15
  const MORE_SLOTS := 16

  function NoSlots(n: nat): (s: seq<nat>)
    ensures |s| == n
  {
    seq(n, _ => 0)
  }

  const EMPTY := Table(NoSlots(FIRST_SIZE), 0, 0, 0)

  function Occupied(slots: seq<nat>): nat {
    if slots == [] then 0 else (if slots[0] != 0 then 1 else 0) + Occupied(slots[1..])
  }

  /** The first slot holding `p`, or one past the table. */
  function Find(slots: seq<nat>, p: nat): (i: nat)
    ensures i <= |slots|
    ensures forall k :: 0 <= k < i ==> slots[k] != p
    ensures i < |slots| ==> slots[i] == p
  {
    if slots == [] || slots[0] == p then 0 else 1 + Find(slots[1..], p)
  }

  /** Every live pointer has one slot. */
  predicate OneSlotEach(slots: seq<nat>) {
    forall i, j :: 0 <= i < j < |slots| && slots[i] != 0 ==> slots[i] != slots[j]
  }

  predicate Balanced(t: Table) {
    && OneSlotEach(t.slots)
    && t.allocs == Occupied(t.slots)
    && t.allocs == t.total - t.frees
  }

  function Grown(t: Table): Table {
    if t.allocs >= |t.slots| then t.(slots := t.slots + NoSlots(MORE_SLOTS)) else t
  }

  function AfterMalloc(t: Table, p: nat): Table {
    var g := Grown(t);
    var i := Find(g.slots, 0);
    if i < |g.slots| then Table(g.slots[i := p], t.allocs + 1, t.frees, t.total + 1) else g
  }

  /** `q` is what realloc returned for `p`. */
  function AfterRealloc(t: Table, p: nat, q: nat): Table {
    if p == 0 then AfterMalloc(t, q)
    else
      var i := Find(t.slots, p);
      if i < |t.slots| then t.(slots := t.slots[i := q]) else t
  }

  function AfterFree(t: Table, p: nat): Table {
    var i := Find(t.slots, p);
    if i < |t.slots| then Table(t.slots[i := 0], t.allocs - 1, t.frees + 1, t.total) else t
  }

  // ----- counting -----

  lemma {:induction false} OccupiedSet(slots: seq<nat>, i: nat, p: nat)
    requires i < |slots|
    ensures Occupied(slots[i := p]) ==
            Occupied(slots) - (if slots[i] != 0 then 1 else 0) + (if p != 0 then 1 else 0)
  {
    if i > 0 {
      assert slots[i := p][1..] == slots[1..][i - 1 := p];
      OccupiedSet(slots[1..], i - 1, p);
    } else {
      assert slots[0 := p][1..] == slots[1..];
    }
  }

  lemma {:induction false} OccupiedMore(slots: seq<nat>, n: nat)
    ensures Occupied(slots + NoSlots(n)) == Occupied(slots)
    decreases |slots|
  {
    if slots == [] {
      assert slots + NoSlots(n) == NoSlots(n);
      NoneOccupied(n);
    } else {
      assert (slots + NoSlots(n))[1..] == slots[1..] + NoSlots(n);
      OccupiedMore(slots[1..], n);
    }
  }

  lemma {:induction false} NoneOccupied(n: nat)
    ensures Occupied(NoSlots(n)) == 0
  {
    if n > 0 {
      assert NoSlots(n)[1..] == NoSlots(n - 1);
      NoneOccupied(n - 1);
    }
  }

  /** A table that is not full has a free slot. */
  lemma {:induction false} FreeSlot(slots: seq<nat>)
    ensures Occupied(slots) <= |slots|
    ensures Occupied(slots) < |slots| <==> Find(slots, 0) < |slots|
  {
    if slots != [] {
      FreeSlot(slots[1..]);
    }
  }

  // ----- every operation keeps the table balanced -----

  /** The scan for a free slot always succeeds inside the table. */
  lemma MallocKeeps(t: Table, p: nat)
    requires Balanced(t) && p != 0 && p !in t.slots
    ensures Find(Grown(t).slots, 0) < |Grown(t).slots|
    ensures Balanced(AfterMalloc(t, p)) && p in AfterMalloc(t, p).slots
    ensures AfterMalloc(t, p).total == t.total + 1 && AfterMalloc(t, p).frees == t.frees
  {
    hide Occupied;
    var g := Grown(t);
    OccupiedMore(t.slots, MORE_SLOTS);
    FreeSlot(t.slots);
    FreeSlot(g.slots);
    var i := Find(g.slots, 0);
    OccupiedSet(g.slots, i, p);
    assert g.slots[i := p][i] == p;
  }

  lemma ReallocKeeps(t: Table, p: nat, q: nat)
    requires Balanced(t) && q != 0 && (q == p || q !in t.slots)
    ensures Balanced(AfterRealloc(t, p, q))
    ensures p != 0 && p in t.slots ==> AfterRealloc(t, p, q).allocs == t.allocs && q in AfterRealloc(t, p, q).slots
    ensures p != 0 && p in t.slots && p != q ==> p !in AfterRealloc(t, p, q).slots
    ensures p != 0 && p !in t.slots ==> AfterRealloc(t, p, q) == t
  {
    hide Occupied;
    if p == 0 {
      MallocKeeps(t, q);
    } else {
      var i := Find(t.slots, p);
      if i < |t.slots| {
        OccupiedSet(t.slots, i, q);
        assert t.slots[i := q][i] == q;
      }
    }
  }

  /** Freeing keeps the balance exactly when the pointer is not NULL, or there is
      no free slot for NULL to be found in. */
  lemma FreeKeeps(t: Table, p: nat)
    requires Balanced(t)
    ensures Balanced(AfterFree(t, p)) <==> p != 0 || Occupied(t.slots) == |t.slots|
    ensures p != 0 ==> p !in AfterFree(t, p).slots
  {
    hide Occupied;
    FreeSlot(t.slots);
    var i := Find(t.slots, p);
    if i < |t.slots| {
      OccupiedSet(t.slots, i, 0);
    }
  }

  // ----- runs -----

  datatype Call = Malloc(p: nat) | Realloc(p: nat, q: nat) | Free(p: nat)

  /** The system allocator hands out addresses that are not in use. */
  predicate Possible(t: Table, c: Call) {
    match c
    case Malloc(p) => p != 0 && p !in t.slots
    case Realloc(p, q) => q != 0 && (q == p || q !in t.slots)
    case Free(p) => p != 0
  }

  function AfterCall(t: Table, c: Call): Table {
    match c
    case Malloc(p) => AfterMalloc(t, p)
    case Realloc(p, q) => AfterRealloc(t, p, q)
    case Free(p) => AfterFree(t, p)
  }

  function AfterRun(t: Table, run: seq<Call>): Table
    decreases |run|
  {
    if run == [] then t else AfterRun(AfterCall(t, run[0]), run[1..])
  }

  predicate PossibleRun(t: Table, run: seq<Call>)
    decreases |run|
  {
    run == [] || (Possible(t, run[0]) && PossibleRun(AfterCall(t, run[0]), run[1..]))
  }

  /** Over any run each live pointer has one slot, and the allocation counter is
      the number of slots in use and the difference of the other two. */
  lemma {:induction false} RunKeeps(t: Table, run: seq<Call>)
    requires Balanced(t) && PossibleRun(t, run)
    ensures Balanced(AfterRun(t, run))
    decreases |run|
  {
    hide Balanced, AfterMalloc, AfterRealloc, AfterFree, Occupied;
    if run != [] {
      match run[0] {
        case Malloc(p) => MallocKeeps(t, p);
        case Realloc(p, q) => ReallocKeeps(t, p, q);
        case Free(p) => FreeKeeps(t, p);
      }
      RunKeeps(AfterCall(t, run[0]), run[1..]);
    }
  }

  /** The table has 15 slots and sixteen more for each time it was full. */
  lemma {:induction false} TableSizes(run: seq<Call>) returns (k: nat)
    ensures |AfterRun(EMPTY, run).slots| == 15 + 16 * k
  {
    k := SizesFrom(EMPTY, run, 0);
  }

  lemma {:induction false} SizesFrom(t: Table, run: seq<Call>, j: nat) returns (k: nat)
    requires |t.slots| == 15 + 16 * j
    ensures |AfterRun(t, run).slots| == 15 + 16 * k
    decreases |run|
  {
    hide Find;
    k := j;
    if run != [] {
      var next := AfterCall(t, run[0]);
      k := SizesFrom(next, run[1..], if |next.slots| == |t.slots| then j else j + 1);
    }
  }

  lemma StartBalanced()
    ensures Balanced(EMPTY)
  {
    NoneOccupied(FIRST_SIZE);
  }

  /** The pointers in the table, in order. */
  function Pointers(slots: seq<nat>): seq<nat> {
    if slots == [] then [] else (if slots[0] != 0 then [slots[0]] else []) + Pointers(slots[1..])
  }

  lemma {:induction false} PointersCount(slots: seq<nat>)
    ensures |Pointers(slots)| == Occupied(slots)
  {
    if slots != [] {
      PointersCount(slots[1..]);
    }
  }

  lemma {:induction false} PointersPrefix(slots: seq<nat>, i: nat)
    requires i < |slots|
    ensures Pointers(slots[..i + 1]) == Pointers(slots[..i]) + (if slots[i] != 0 then [slots[i]] else [])
  {
    if i > 0 {
      assert slots[..i + 1][1..] == slots[1..][..i];
      assert slots[..i][1..] == slots[1..][..i - 1];
      PointersPrefix(slots[1..], i - 1);
    }
  }

  // ----- the ledger -----

  class Allocator {
    var pointers: array<nat>
    var size: nat
    var numberOfAllocs: int
    var numberOfFrees: nat
    var totalAllocs: nat
    var allFreed: bool
    ghost var released: seq<nat>   // what was handed back to the system, in order

    ghost predicate Valid()
      reads this, pointers
    {
      size <= pointers.Length && Balanced(View())
    }

    ghost function View(): Table
      reads this, pointers
      requires size <= pointers.Length
    {
      Table(pointers[..size], numberOfAllocs, numberOfFrees, totalAllocs)
    }

    /** Sixteen slots, of which fifteen are used. */
    constructor ()
      ensures Valid() && View() == EMPTY && fresh(pointers) && released == []
    {
      var table := new nat[16](i => 0);
      pointers, size := table, 15;
      numberOfAllocs, numberOfFrees, totalAllocs, allFreed, released := 0, 0, 0, false, [];
      new;
      assert pointers[..size] == NoSlots(FIRST_SIZE);
      StartBalanced();
    }

    method Grow()
      requires size <= pointers.Length
      modifies this
      ensures size == old(size) + MORE_SLOTS && size <= pointers.Length && fresh(pointers)
      ensures View() == old(View()).(slots := old(View()).slots + NoSlots(MORE_SLOTS))
      ensures released == old(released) && allFreed == old(allFreed)
    {
      var table := new nat[size + 16](_ => 0);
      for i := 0 to size
        modifies table
        invariant size <= pointers.Length && table.Length == size + 16
        invariant table[..i] == pointers[..i]
        invariant forall k :: i <= k < size + 16 ==> table[k] == 0
      {
        table[i] := pointers[i];
      }
      assert table[..] == pointers[..size] + NoSlots(MORE_SLOTS);
      pointers, size := table, size + 16;
    }

    /** `p` is what malloc returned. The scan may look at index `size`, but never
        gets there: it finds a free slot first. None stands for leaving the program. */
    method NtMalloc(p: nat) returns (r: Option<nat>)
      requires Valid() && (p == 0 || p !in pointers[..size])
      modifies this, pointers
      ensures Valid() && (pointers == old(pointers) || fresh(pointers)) && released == old(released)
      ensures p == 0 ==> r == None && View() == old(View())
      ensures p != 0 ==> r == Some(p) && View() == AfterMalloc(old(View()), p) && !allFreed
    {
      hide Occupied, OneSlotEach, Balanced;
      if p == 0 {
        return None;
      }
      allFreed := false;
      ghost var t := View();
      MallocKeeps(t, p);
      if numberOfAllocs >= size {
        Grow();
      }
      assert View() == Grown(t);
      var i := 0;
      while i <= size
        invariant 0 <= i <= Find(Grown(t).slots, 0) && View() == Grown(t) && size <= pointers.Length
        invariant pointers == old(pointers) || fresh(pointers)
        invariant released == old(released) && !allFreed
        decreases size - i
      {
        assert pointers[i] == Grown(t).slots[i];
        if pointers[i] == 0 {
          pointers[i] := p;
          numberOfAllocs, totalAllocs := numberOfAllocs + 1, totalAllocs + 1;
          assert View() == AfterMalloc(t, p);
          return Some(p);
        }
        i := i + 1;
      }
      assert false;
      r := None;
    }

    /** `q` is what the system's allocator returned. A pointer the ledger does not
        know is refused with NULL. */
    method NtRealloc(p: nat, q: nat) returns (r: Option<nat>)
      requires Valid() && (q == 0 || q == p || q !in pointers[..size])
      modifies this, pointers
      ensures Valid() && (pointers == old(pointers) || fresh(pointers)) && released == old(released)
      ensures q != 0 ==> View() == AfterRealloc(old(View()), p, q)
      ensures q != 0 ==> r == Some(if p == 0 || p in old(pointers[..size]) then q else 0)
      ensures q == 0 ==> View() == old(View())
      ensures q == 0 ==> r == if p != 0 && p !in old(pointers[..size]) then Some(0) else None
    {
      if p == 0 {
        r := NtMalloc(q);
        return;
      }
      ghost var t := View();
      if q != 0 {
        ReallocKeeps(t, p, q);
      }
      for i := 0 to size
        invariant 0 <= i <= Find(t.slots, p) && View() == t && size <= pointers.Length
        invariant released == old(released) && pointers == old(pointers) && size == old(size)
      {
        assert pointers[i] == t.slots[i];
        if pointers[i] == p {
          if q == 0 {
            return None;
          }
          pointers[i] := q;
          assert View() == AfterRealloc(t, p, q);
          return Some(q);
        }
      }
      r := Some(0);
    }

    /** A pointer that is not in the table is refused. NULL is found in any free
        slot, which upsets the count. */
    method NtFree(p: nat) returns (ok: bool)
      requires Valid()
      modifies this, pointers
      ensures size <= pointers.Length && pointers == old(pointers)
      ensures View() == AfterFree(old(View()), p)
      ensures ok == (p in old(pointers[..size]))
      ensures released == if ok then old(released) + [p] else old(released)
      ensures Valid() <==> p != 0 || old(Occupied(View().slots) == size)
    {
      ghost var t := View();
      FreeKeeps(t, p);
      for i := 0 to size
        invariant 0 <= i <= Find(t.slots, p) && View() == t && size <= pointers.Length
        invariant released == old(released) && pointers == old(pointers) && size == old(size)
      {
        assert pointers[i] == t.slots[i];
        if pointers[i] == p {
          pointers[i] := 0;
          numberOfAllocs, numberOfFrees := numberOfAllocs - 1, numberOfFrees + 1;
          released := released + [p];
          assert View() == AfterFree(t, p);
          return true;
        }
      }
      ok := false;
    }

    /** Every live pointer is released once; afterwards as many were freed as were
        ever allocated. */
    method NtFreeAll()
      requires Valid()
      modifies this, pointers
      ensures released == old(released) + Pointers(old(View()).slots)
      ensures numberOfFrees == totalAllocs == old(totalAllocs) && allFreed
      ensures pointers == old(pointers) && size == old(size) && forall i :: 0 <= i < size ==> pointers[i] == 0
    {
      ghost var slots := View().slots;
      for i := 0 to size
        invariant size == |slots| <= pointers.Length && size == old(size) && pointers == old(pointers)
        invariant forall k :: 0 <= k < i ==> pointers[k] == 0
        invariant forall k :: i <= k < size ==> pointers[k] == slots[k]
        invariant released == old(released) + Pointers(slots[..i])
        invariant numberOfFrees == old(numberOfFrees) + |Pointers(slots[..i])| && totalAllocs == old(totalAllocs)
      {
        PointersPrefix(slots, i);
        if pointers[i] != 0 {
          released := released + [pointers[i]];
          pointers[i] := 0;
          numberOfFrees := numberOfFrees + 1;
        }
      }
      assert slots[..size] == slots;
      PointersCount(slots);
      allFreed := true;
    }
  }
}
