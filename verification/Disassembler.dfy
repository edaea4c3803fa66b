/** The disassembler's linear sweep, and when it stops exactly where the
    processor does. */
module Disassembler {
  import opened Words
  import opened Isa

  // ----- instruction lengths, as the disassembler has them -----

  /** Opcodes followed by a 32-bit operand. */
  predicate HasWord(c: byte) {
    c == 0x24 || c == 0x20 || c == 0x0C || c == 0x0D || c == 0x0E || c == 0x11 || c == 0x01 || c == 0x26
    || c == 0x17 || c == 0x6F || c == 0x68 || 0x82 <= c <= 0x85 || c == 0x87 || c == 0x8B
  }

  /** Opcodes followed by one byte. */
  predicate HasByte(c: byte) {
    c == 0x2C || c == 0x2D || c == 0x38 || c == 0x39 || c == 0x34 || c == 0x21 || c == 0x32 || c == 0x33
    || 0x70 <= c <= 0x75
  }

  /** How far one pass of the loop moves the index: nowhere at `fsqrt`, and one
      byte too far at `push64`, whose case runs on into the next. Unknown bytes
      are skipped one by one. */
  function SweepLength(m: seq<byte>, i: nat): nat
    requires i < |m|
  {
    var c := m[i];
    if HasWord(c) then 5
    else if HasByte(c) then 2
    else if c == 0x2B || c == 0x35 then 6
    else if c == FSQRT then 0
    else if c == RFC_PREFIX then
      if i + 1 < |m| && m[i + 1] == 0 then 1 + 10
      else if i + 1 < |m| && m[i + 1] == 1 then 1 + 9 + 1
      else 1 + 1
    else 1
  }

  /** Where the loop stopped to print, where it ended, and whether it stayed in
      one place forever. */
  datatype Swept = Swept(stops: seq<nat>, end: nat, hung: bool)

  function SweepFrom(m: seq<byte>, i: nat): Swept
    decreases if i < |m| then |m| - i else 0
  {
    if i >= |m| then Swept([], i, false)
    else if SweepLength(m, i) == 0 then Swept([i], i, true)
    else
      var rest := SweepFrom(m, i + SweepLength(m, i));
      Swept([i] + rest.stops, rest.end, rest.hung)
  }

  method Disassemble(input: array<byte>, size: nat) returns (r: Swept)
    requires size <= input.Length
    ensures r == SweepFrom(input[..size], 0)
  {
    var i := 0;
    var stops: seq<nat> := [];
    ghost var m := input[..size];
    while i < size
      invariant SweepFrom(m, 0) == Swept(stops + SweepFrom(m, i).stops, SweepFrom(m, i).end, SweepFrom(m, i).hung)
      decreases size - i
    {
      hide SweepLength;
      var n := SweepLength(input[..size], i);
      if n == 0 {
        return Swept(stops + [i], i, true);
      }
      ghost var rest := SweepFrom(m, i + n);
      assert stops + ([i] + rest.stops) == (stops + [i]) + rest.stops;
      stops, i := stops + [i], i + n;
    }
    assert stops + [] == stops;
    r := Swept(stops, i, false);
  }

  // ----- the processor's own boundaries -----

  /** Where the processor stops when every instruction falls through to the next. */
  function WalkFrom(m: seq<byte>, i: nat): Swept
    decreases if i < |m| then |m| - i else 0
  {
    if i >= |m| then Swept([], i, false)
    else
      match Decode(m, i)
      case Instruction(x) =>
        var rest := WalkFrom(m, i + Increment(x));
        Swept([i] + rest.stops, rest.end, rest.hung)
      case _ => Swept([i], i, true)
  }

  /** The first bytes of the instructions of assembled code. */
  function StartsOf(code: seq<Instr>, a: nat): seq<nat> {
    if code == [] then [] else [a] + StartsOf(code[1..], a + |Encode(code[0])|)
  }

  predicate AllValid(code: seq<Instr>) {
    forall i :: i in code ==> Valid(i)
  }

  lemma TailAt(m: seq<byte>, a: nat, code: seq<Instr>)
    requires code != [] && a <= |m| && m[a..] == EncodeAll(code)
    ensures BytesAt(m, a, Encode(code[0]))
    ensures m[a + |Encode(code[0])|..] == EncodeAll(code[1..])
  {
    var n := |Encode(code[0])|;
    assert m[a..][..n] == Encode(code[0]);
    assert m[a..][n..] == EncodeAll(code[1..]);
    assert m[a..a + n] == m[a..][..n];
    assert m[a + n..] == m[a..][n..];
  }

  /** The processor walks assembled code from instruction to instruction. */
  lemma {:induction false} WalkIsExact(code: seq<Instr>, m: seq<byte>, a: nat)
    requires AllValid(code) && a <= |m| && m[a..] == EncodeAll(code)
    ensures WalkFrom(m, a) == Swept(StartsOf(code, a), |m|, false)
    decreases |code|
  {
    hide Decode, Encode;
    if code != [] {
      TailAt(m, a, code);
      FetchOfEncode(code[0], m, a);
      IncrementIsLength(code[0]);
      WalkIsExact(code[1..], m, a + |Encode(code[0])|);
    }
  }

  // ----- the sweep against the boundaries -----

  /** The two instructions the sweep gets wrong. */
  predicate Mislead(i: Instr) {
    i.Push64? || i == Plain(Other(FSQRT))
  }

  lemma SweepAt(i: Instr, m: seq<byte>, a: nat)
    requires Valid(i) && BytesAt(m, a, Encode(i))
    ensures a < |m|
    ensures SweepLength(m, a) == if i.Push64? then |Encode(i)| + 1 else if i == Plain(Other(FSQRT)) then 0 else |Encode(i)|
  {
    OneByte(m, a, Encode(i), 0);
    if i.Push64? || i.Loadr64? {
      OneByte(m, a, Encode(i), 1);
    }
  }

  /** Bytes that begin no instruction are skipped one by one, the prefix with the
      byte after it. */
  lemma NothingSkipped(m: seq<byte>, i: nat)
    requires i < |m| && Decode(m, i).UnknownOpcode?
    ensures SweepLength(m, i) == if m[i] == 0x8C then 2 else 1
  {
  }

  lemma {:induction false} SweepEnd(m: seq<byte>, i: nat)
    ensures SweepFrom(m, i).end >= i
    decreases if i < |m| then |m| - i else 0
  {
    hide SweepLength;
    if i < |m| && SweepLength(m, i) != 0 {
      SweepEnd(m, i + SweepLength(m, i));
    }
  }

  /** Over assembled code the sweep stops exactly where the processor does, and
      ends where the code ends, if and only if the code has neither `fsqrt` nor
      `push64` in it. */
  lemma {:induction false} SweepExactly(code: seq<Instr>, m: seq<byte>, a: nat)
    requires AllValid(code) && a <= |m| && m[a..] == EncodeAll(code)
    ensures SweepFrom(m, a) == WalkFrom(m, a) <==> forall i :: i in code ==> !Mislead(i)
    decreases |code|
  {
    hide Decode, Encode, SweepLength, WalkFrom, StartsOf, Valid;
    WalkIsExact(code, m, a);
    StartsHead(code, a);
    if code != [] {
      TailAt(m, a, code);
      SweepAt(code[0], m, a);
      var n := |Encode(code[0])|;
      WalkIsExact(code[1..], m, a + n);
      SweepExactly(code[1..], m, a + n);
      assert code == [code[0]] + code[1..];
      assert code[0] in code;
      SameTail(a, SweepFrom(m, a + n).stops, StartsOf(code[1..], a + n));
      if code[0].Push64? {
        TooFar(code, m, a);
      }
    }
  }

  lemma SameTail(a: nat, x: seq<nat>, y: seq<nat>)
    ensures [a] + x == [a] + y <==> x == y
  {
    assert ([a] + x)[1..] == x && ([a] + y)[1..] == y;
  }

  lemma StartsHead(code: seq<Instr>, a: nat)
    ensures code != [] ==> StartsOf(code, a) == [a] + StartsOf(code[1..], a + |Encode(code[0])|)
    ensures code == [] ==> StartsOf(code, a) == []
  {
  }

  lemma TooFar(code: seq<Instr>, m: seq<byte>, a: nat)
    requires code != [] && a + |Encode(code[0])| <= |m| && a < |m| && SweepLength(m, a) == |Encode(code[0])| + 1
    requires m[a + |Encode(code[0])|..] == EncodeAll(code[1..])
    ensures SweepFrom(m, a) != Swept(StartsOf(code, a), |m|, false)
  {
    hide Encode, SweepLength;
    var n := |Encode(code[0])|;
    SweepEnd(m, a + n + 1);
    var rest := SweepFrom(m, a + n + 1);
    StartsHead(code, a);
    StartsHead(code[1..], a + n);
    SameTail(a, rest.stops, StartsOf(code[1..], a + n));
    if code[1..] == [] {
      assert |m[a + n..]| == 0;
    } else {
      assert StartsOf(code[1..], a + n)[0] == a + n;
      assert rest.stops != [] ==> rest.stops[0] == a + n + 1;
    }
  }
}
