/** The virtual machine's growing stack. It is the sequence of the values pushed
    and not yet popped; its buffer doubles, and doubling is cheap. */
module Stack {
  import opened Words
  import Machine

  const FIRST_CAPACITY := 16
  const LARGEST_MAX := 0x8000_0000

  // ----- growth on its own -----

  /** Height and capacity, with the number of cells copied and of pushes so far. */
  datatype Shape = Shape(top: nat, count: nat, copied: nat, pushed: nat)

  const EMPTY := Shape(0, 0, 0, 0)

  function AfterPush(h: Shape): Shape {
    if h.top < h.count then Shape(h.top + 1, h.count, h.copied, h.pushed + 1)
    else if h.count == 0 then Shape(h.top + 1, FIRST_CAPACITY, h.copied, h.pushed + 1)
    else Shape(h.top + 1, 2 * h.count, h.copied + h.count, h.pushed + 1)
  }

  function AfterPop(h: Shape): Shape {
    if h.top == 0 then h else h.(top := h.top - 1)
  }

  /** A run of pushes (true) and pops (false). */
  function Shapes(run: seq<bool>, h: Shape): Shape {
    if run == [] then h else Shapes(run[1..], if run[0] then AfterPush(h) else AfterPop(h))
  }

  predicate IsCapacity(c: nat) {
    c == 0 || c == FIRST_CAPACITY || (c % 2 == 0 && IsCapacity(c / 2))
  }

  predicate Sound(h: Shape) {
    && h.top <= h.count && h.top <= h.pushed && IsCapacity(h.count)
    && (h.count == 0 ==> h.copied == 0)
    && (h.count > 0 ==> h.count >= FIRST_CAPACITY && h.pushed >= 1 && h.copied + FIRST_CAPACITY == h.count)
    && (h.count > FIRST_CAPACITY ==> 2 * h.pushed > h.count)
  }

  lemma {:induction false} CapacityIsPower(c: nat)
    requires c > 0 && IsCapacity(c)
    ensures exists k: nat :: c == FIRST_CAPACITY * Pow2(k)
  {
    if c == FIRST_CAPACITY {
      assert c == FIRST_CAPACITY * Pow2(0);
    } else {
      CapacityIsPower(c / 2);
      var k: nat :| c / 2 == FIRST_CAPACITY * Pow2(k);
      assert c == FIRST_CAPACITY * Pow2(k + 1);
    }
  }

  lemma PushSound(h: Shape)
    requires Sound(h)
    ensures Sound(AfterPush(h))
  {
    assert IsCapacity(2 * h.count) by {
      assert 2 * h.count / 2 == h.count;
    }
  }

  lemma {:induction false} RunSound(run: seq<bool>, h: Shape)
    requires Sound(h)
    ensures Sound(Shapes(run, h))
    decreases |run|
  {
    hide Sound, AfterPush;
    if run != [] {
      PushSound(h);
      PopSound(h);
      RunSound(run[1..], if run[0] then AfterPush(h) else AfterPop(h));
    }
  }

  lemma PopSound(h: Shape)
    requires Sound(h)
    ensures Sound(AfterPop(h))
  {
    hide IsCapacity;
  }

  /** Over any run the capacity is 0 or 16 times a power of two and never below
      the height, and all doublings together copy fewer than two cells a push. */
  lemma DoublingIsCheap(run: seq<bool>)
    ensures var h := Shapes(run, EMPTY);
            && h.top <= h.count
            && (h.count == 0 || exists k: nat :: h.count == 16 * Pow2(k))
            && (h.pushed > 0 ==> h.copied < 2 * h.pushed) && (h.pushed == 0 ==> h.copied == 0)
  {
    hide IsCapacity, Shapes;
    assert Sound(EMPTY) by { NothingYet(); }
    RunSound(run, EMPTY);
    var h := Shapes(run, EMPTY);
    if h.count > 0 {
      CapacityIsPower(h.count);
    }
  }

  lemma NothingYet()
    ensures Sound(EMPTY)
  {
  }

  // ----- the stack -----

  class VStack {
    var content: array?<u64>
    var top: nat
    var count: nat
    const max: nat
    ghost var copied: nat
    ghost var pushed: nat

    ghost function Height(): Shape
      reads this
    {
      Shape(top, count, copied, pushed)
    }

    /** No 32-bit field has wrapped: the limit is at most 2^31. */
    ghost predicate Valid()
      reads this
    {
      && Sound(Height()) && max <= LARGEST_MAX && count <= LARGEST_MAX
      && (content == null <==> count == 0)
      && (content != null ==> content.Length == count)
    }

    /** The values on the stack, the top at the end. */
    ghost function Contents(): seq<u64>
      reads this, content
      requires Valid()
    {
      if content == null then [] else content[..top]
    }

    constructor (limit: nat)
      requires limit <= LARGEST_MAX
      ensures Valid() && content == null && Contents() == [] && Height() == EMPTY && max == limit
    {
      content, top, count := null, 0, 0;
      max := limit;
      copied, pushed := 0, 0;
      new;
      NothingYet();
    }

    /** The first buffer, or one twice as large with the cells copied over. */
    method Grow()
      requires Valid() && top == count && top < max
      modifies this
      ensures top == old(top) && pushed == old(pushed)
      ensures content != null && fresh(content) && top < count == content.Length <= LARGEST_MAX
      ensures content[..top] == old(Contents())
      ensures old(count) == 0 ==> count == FIRST_CAPACITY && copied == old(copied)
      ensures old(count) > 0 ==> count == 2 * old(count) && copied == old(copied) + old(count)
    {
      assert top > 0 ==> 2 * count <= LARGEST_MAX by {
        RoomToDouble(count);
      }
      if count == 0 {
        content := new u64[FIRST_CAPACITY](_ => 0);
        count := FIRST_CAPACITY;
      } else {
        var buffer := new u64[count * 2](_ => 0);
        forall i | 0 <= i < count {
          buffer[i] := content[i];
        }
        copied := copied + count;
        content, count := buffer, count * 2;
      }
    }

    /** Pushing fails, and changes nothing, exactly when the stack is at its limit. */
    method Push(x: u64) returns (ok: bool)
      requires Valid()
      modifies this, content
      ensures Valid() && (content == old(content) || fresh(content))
      ensures ok == (|old(Contents())| < max)
      ensures Contents() == if ok then old(Contents()) + [x] else old(Contents())
      ensures Height() == if ok then AfterPush(old(Height())) else old(Height())
    {
      if top >= max {
        return false;
      }
      ghost var h := Height();
      PushSound(h);
      if count == top {
        Grow();
      }
      content[top] := x;
      top, pushed := top + 1, pushed + 1;
      ok := true;
    }

    method Pop() returns (x: u64)
      requires Valid()
      modifies this
      ensures Valid() && content == old(content)
      ensures x == Machine.TopOf(old(Contents()))
      ensures Contents() == Machine.Popped(old(Contents()), 1)
      ensures Height() == AfterPop(old(Height()))
    {
      PopSound(Height());
      if top == 0 {
        x := Machine.UNDERFLOW;
      } else {
        top := top - 1;
        x := content[top];
      }
    }

    /** Reads the buffer at an index; the cell one past the buffer is never asked for. */
    method Get(index: u32) returns (x: u64)
      requires Valid() && index != count
      ensures x == if index > count then Machine.UNDERFLOW else content[index]
      ensures index < |Contents()| ==> x == Contents()[index]
    {
      if index > count {
        x := Machine.UNDERFLOW;
      } else {
        x := content[index];
      }
    }

    method SetAt(index: u32, x: u64) returns (ok: bool)
      requires Valid() && index != count
      modifies content
      ensures Valid() && (top > 0 && index < |old(Contents())| ==> ok)
      ensures (top == 0 || index > count) ==> !ok
      ensures Contents() == if index < |old(Contents())| then old(Contents())[index := x] else old(Contents())
    {
      if top == 0 || count == 0 {
        return false;
      }
      if index > count {
        return false;
      }
      content[index] := x;
      ok := true;
    }

    /** The `k`-th cell from the top, the index computed in 32 bits. Below the
        bottom it wraps round, past the buffer to underflow, or, for `k` close to
        2^32, into cells the stack does not use. */
    method FromTop(k: u32) returns (x: u64)
      requires Valid() && 1 <= k && Low32(top - k) != count
      ensures k <= top || Low32(top - k) > count ==> x == Machine.Item(Contents(), k)
      ensures !(k <= top || Low32(top - k) > count) ==> x == content[Low32(top - k)]
      ensures k < 0x8000_0000 ==> k <= top || Low32(top - k) > count
    {
      x := Get(Low32(top - k));
    }
  }

  lemma {:induction false} RoomToDouble(c: nat)
    requires IsCapacity(c) && c < LARGEST_MAX
    ensures 2 * c <= LARGEST_MAX
  {
    if c > 0 {
      CapacityIsPower(c);
      var k: nat :| c == FIRST_CAPACITY * Pow2(k);
      if k >= 27 {
        PowerGrows(27, k);
        assert Pow2(27) == 0x800_0000 by { Pow27(); }
      } else {
        PowerGrows(k, 26);
        assert Pow2(26) == 0x400_0000 by { Pow27(); }
      }
    }
  }

  lemma Pow27()
    ensures Pow2(26) == 0x400_0000 && Pow2(27) == 0x800_0000
  {
    assert Pow2(13) == 0x2000;
    assert Pow2(20) == 0x10_0000;
  }

  lemma {:induction false} PowerGrows(a: nat, b: nat)
    requires a <= b
    ensures Pow2(a) <= Pow2(b)
  {
    if a < b {
      PowerGrows(a, b - 1);
    }
  }
}
