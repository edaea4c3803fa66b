/** Fixed-width arithmetic of the virtual machine: 32-bit registers, 64-bit stack
    cells, bytes, and the bitwise operators, all written on unbounded integers. */
module Words {

  type u32 = x: int | 0 <= x < 0x1_0000_0000
  type u64 = x: int | 0 <= x < 0x1_0000_0000_0000_0000
  type byte = x: int | 0 <= x < 256

  datatype Option<+T> = None | Some(value: T)

  /** Conversion to `uint32_t`. */
  function Low32(x: int): u32 { x % 0x1_0000_0000 }

  /** Conversion to a 64-bit stack cell. */
  function Low64(x: int): u64 { x % 0x1_0000_0000_0000_0000 }

  /** The `int64_t` reading of a stack cell. */
  function Signed(x: u64): int {
    if x < 0x8000_0000_0000_0000 then x else x - 0x1_0000_0000_0000_0000
  }

  /** C division: the quotient is truncated toward zero. */
  function TruncDiv(a: int, b: int): int
    requires b != 0
  {
    if a >= 0 then (if b > 0 then a / b else -(a / -b))
    else if b > 0 then -(-a / b) else -a / -b
  }

  lemma Low32OfLow64(x: int)
    ensures Low32(Low64(x)) == Low32(x)
  {
    var q := x / 0x1_0000_0000_0000_0000;
    assert x == q * 0x1_0000_0000 * 0x1_0000_0000 + Low64(x);
    ModPlusMultiple(Low64(x), q * 0x1_0000_0000);
  }

  lemma ModPlusMultiple(x: int, k: int)
    ensures (x + k * 0x1_0000_0000) % 0x1_0000_0000 == x % 0x1_0000_0000
  {
  }

  // ----- bitwise operators -----

  datatype BitOp = AndBits | OrBits | XorBits

  function OnBit(op: BitOp, x: int, y: int): (r: int)
    requires 0 <= x <= 1 && 0 <= y <= 1
    ensures 0 <= r <= 1
  {
    match op
    case AndBits => if x == 1 && y == 1 then 1 else 0
    case OrBits => if x == 1 || y == 1 then 1 else 0
    case XorBits => if x != y then 1 else 0
  }

  /** `a & b`, `a | b` and `a ^ b` on unsigned words of any width. */
  function Bitwise(op: BitOp, a: nat, b: nat): nat
    decreases a + b
  {
    if a == 0 && b == 0 then 0
    else 2 * Bitwise(op, a / 2, b / 2) + OnBit(op, a % 2, b % 2)
  }

  function Pow2(k: nat): (r: nat)
    ensures r >= 1
  {
    if k == 0 then 1 else 2 * Pow2(k - 1)
  }

  /** Bit `i` of `a`. */
  function BitAt(a: nat, i: nat): (r: int)
    ensures 0 <= r <= 1
  {
    if i == 0 then a % 2 else BitAt(a / 2, i - 1)
  }

  /** `Bitwise` works on each bit position alone. */
  lemma {:induction false} BitwiseAt(op: BitOp, a: nat, b: nat, i: nat)
    ensures BitAt(Bitwise(op, a, b), i) == OnBit(op, BitAt(a, i), BitAt(b, i))
    decreases i
  {
    if i > 0 {
      BitwiseAt(op, a / 2, b / 2, i - 1);
      assert Bitwise(op, a, b) / 2 == Bitwise(op, a / 2, b / 2);
    }
  }

  /** Bitwise operators never leave the width of their operands. */
  lemma {:induction false} BitwiseBound(op: BitOp, a: nat, b: nat, k: nat)
    requires a < Pow2(k) && b < Pow2(k)
    ensures Bitwise(op, a, b) < Pow2(k)
    decreases k
  {
    if k > 0 {
      BitwiseBound(op, a / 2, b / 2, k - 1);
    }
  }

  lemma PowersOfTwo()
    ensures Pow2(8) == 256 && Pow2(32) == 0x1_0000_0000 && Pow2(64) == 0x1_0000_0000_0000_0000
  {
    assert Pow2(8) == 256;
    assert Pow2(16) == 65536;
    assert Pow2(24) == 256 * 65536;
    assert Pow2(32) == 0x1_0000_0000;
    assert Pow2(40) == 256 * 0x1_0000_0000;
    assert Pow2(48) == 65536 * 0x1_0000_0000;
    assert Pow2(56) == 256 * 65536 * 0x1_0000_0000;
  }

  function BitCell(op: BitOp, a: u64, b: u64): u64 {
    PowersOfTwo();
    BitwiseBound(op, a, b, 64);
    Bitwise(op, a, b)
  }

  function BitWord(op: BitOp, a: u32, b: u32): u32 {
    PowersOfTwo();
    BitwiseBound(op, a, b, 32);
    Bitwise(op, a, b)
  }

  // ----- little-endian words -----

  function Le32(n: u32): (b: seq<byte>)
    ensures |b| == 4
  {
    [n % 256, n / 0x100 % 256, n / 0x1_0000 % 256, n / 0x100_0000]
  }

  function FromLe32(b: seq<byte>): u32
    requires |b| == 4
  {
    var b0: int, b1: int, b2: int, b3: int := b[0], b[1], b[2], b[3];
    b0 + 0x100 * b1 + 0x1_0000 * b2 + 0x100_0000 * b3
  }

  lemma Le32RoundTrip(n: u32)
    ensures FromLe32(Le32(n)) == n
  {
    assert n / 0x1_0000 == n / 0x100 / 0x100;
    assert n / 0x100_0000 == n / 0x1_0000 / 0x100;
  }

  function Le64(n: u64): (b: seq<byte>)
    ensures |b| == 8
  {
    Le32(n % 0x1_0000_0000) + Le32(n / 0x1_0000_0000)
  }

  function FromLe64(b: seq<byte>): u64
    requires |b| == 8
  {
    FromLe32(b[..4]) + 0x1_0000_0000 * FromLe32(b[4..])
  }

  lemma Le64RoundTrip(n: u64)
    ensures FromLe64(Le64(n)) == n
  {
    Le32RoundTrip(n % 0x1_0000_0000);
    Le32RoundTrip(n / 0x1_0000_0000);
    assert Le64(n)[..4] == Le32(n % 0x1_0000_0000);
    assert Le64(n)[4..] == Le32(n / 0x1_0000_0000);
  }
}
