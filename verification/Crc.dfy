/** The CRC-32 that guards executables: the bit-serial loop, what it means as a
    polynomial remainder, and which errors it always finds. Compare section 8
    of RFC 1952. Bytes and words are rows of bits here, the lowest bit first,
    which is the order in which the loop consumes them. */
module Crc {
  import W = Words

  type Octet = b: seq<bool> | |b| == 8 witness seq(8, _ => false)
  type Word = w: seq<bool> | |w| == 32 witness seq(32, _ => false)

  // ----- rows of bits -----

  function Zeros(n: nat): (r: seq<bool>)
    ensures |r| == n && forall i :: 0 <= i < n ==> !r[i]
  {
    seq(n, _ => false)
  }

  function Repeated(b: bool): (r: Word)
    ensures forall i :: 0 <= i < 32 ==> r[i] == b
  {
    seq(32, _ => b)
  }

  function XorBits(a: seq<bool>, b: seq<bool>): (r: seq<bool>)
    requires |a| == |b|
    ensures |r| == |a| && forall i :: 0 <= i < |a| ==> r[i] == (a[i] != b[i])
  {
    seq(|a|, i requires 0 <= i < |a| => a[i] != b[i])
  }

  function AndBits(a: Word, b: Word): (r: Word)
    ensures forall i :: 0 <= i < 32 ==> r[i] == (a[i] && b[i])
  {
    seq(32, i requires 0 <= i < 32 => a[i] && b[i])
  }

  function Complement(a: Word): (r: Word)
    ensures forall i :: 0 <= i < 32 ==> r[i] == !a[i]
  {
    seq(32, i requires 0 <= i < 32 => !a[i])
  }

  function ShiftRight(a: Word): Word {
    a[1..] + [false]
  }

  function Widen(b: Octet): Word {
    b + Zeros(24)
  }

  /** The word of a 32-bit number. */
  function WordOf(n: W.u32): Word {
    seq(32, i requires 0 <= i => W.BitAt(n, i) == 1)
  }

  const POLYNOMIAL: Word := WordOf(0xEDB8_8320)

  lemma {:induction false} BitAtByte(n: nat, i: nat)
    ensures W.BitAt(n, i + 8) == W.BitAt(n / 256, i)
  {
    assert W.BitAt(n, i + 8) == W.BitAt(n / 2, i + 7) == W.BitAt(n / 4, i + 6);
    assert W.BitAt(n / 4, i + 6) == W.BitAt(n / 8, i + 5) == W.BitAt(n / 16, i + 4);
    assert W.BitAt(n / 16, i + 4) == W.BitAt(n / 32, i + 3) == W.BitAt(n / 64, i + 2);
    assert W.BitAt(n / 64, i + 2) == W.BitAt(n / 128, i + 1) == W.BitAt(n / 256, i);
  }

  /** The polynomial's last bit is one: whether it was subtracted can be read off. */
  lemma PolynomialTop()
    ensures POLYNOMIAL[31]
  {
    hide W.BitAt;
    BitAtByte(0xEDB8_8320, 23);
    BitAtByte(0xED_B883, 15);
    BitAtByte(0xEDB8, 7);
    SevenBits();
  }

  lemma SevenBits()
    ensures W.BitAt(0xED, 7) == 1
  {
    assert W.BitAt(0xED, 7) == W.BitAt(0x3B, 5);
    assert W.BitAt(0x3B, 5) == W.BitAt(0x0E, 3);
    assert W.BitAt(0x0E, 3) == W.BitAt(0x03, 1);
  }

  // ----- the loop -----

  /** One round of the inner loop: shift, and subtract the polynomial if a one
      falls out. */
  function Step(c: Word): Word {
    if c[0] then XorBits(ShiftRight(c), POLYNOMIAL) else ShiftRight(c)
  }

  function Steps(k: nat, c: Word): Word {
    if k == 0 then c else Steps(k - 1, Step(c))
  }

  /** The register after all bytes. */
  function Register(c: Word, data: seq<Octet>): Word
    decreases |data|
  {
    if data == [] then c else Register(Steps(8, XorBits(c, Widen(data[0]))), data[1..])
  }

  const ONES: Word := Repeated(true)

  function Checksum(data: seq<Octet>): Word {
    Complement(Register(ONES, data))
  }

  lemma {:induction false} RegisterMore(c: Word, data: seq<Octet>, b: Octet)
    ensures Register(c, data + [b]) == Steps(8, XorBits(Register(c, data), Widen(b)))
    decreases |data|
  {
    hide Steps;
    if data == [] {
      assert (data + [b])[1..] == [];
    } else {
      assert (data + [b])[1..] == data[1..] + [b];
      RegisterMore(Steps(8, XorBits(c, Widen(data[0]))), data[1..], b);
    }
  }

  /** From `start` on. The loop reads one byte more than it is told to. */
  method GenerateChecksumCRC32(buffer: array<Octet>, start: nat, size: nat) returns (r: Word)
    requires start + size < buffer.Length
    ensures r == Checksum(buffer[start..start + size + 1])
  {
    hide Step;
    var i := 0;
    var crc: Word := ONES;
    while i <= size
      invariant 0 <= i <= size + 1
      invariant crc == Register(ONES, buffer[start..start + i])
    {
      crc := XorBits(crc, Widen(buffer[start + i]));
      ghost var first: Word := crc;
      var j := 7;
      while j >= 0
        invariant -1 <= j <= 7
        invariant Steps(8, first) == Steps(j + 1, crc)
      {
        var mask := Repeated(crc[0]);
        Masked(crc);
        crc := XorBits(ShiftRight(crc), AndBits(POLYNOMIAL, mask));
        j := j - 1;
      }
      RegisterMore(ONES, buffer[start..start + i], buffer[start + i]);
      assert buffer[start..start + i + 1] == buffer[start..start + i] + [buffer[start + i]];
      i := i + 1;
    }
    r := Complement(crc);
  }

  /** Masking the polynomial with all copies of the low bit is the case distinction. */
  lemma Masked(c: Word)
    ensures XorBits(ShiftRight(c), AndBits(POLYNOMIAL, Repeated(c[0]))) == Step(c)
  {
  }

  // ----- every round can be undone -----

  function Unstep(d: Word): Word {
    if d[31] then [true] + XorBits(d, POLYNOMIAL)[..31] else [false] + d[..31]
  }

  /** A round is a bijection of the register. */
  lemma StepBijective(c: Word)
    ensures Unstep(Step(c)) == c && Step(Unstep(c)) == c
  {
    PolynomialTop();
    assert Unstep(Step(c)) == c;
    assert Step(Unstep(c)) == c;
  }

  lemma {:induction false} StepsInjective(k: nat, c: Word, d: Word)
    requires Steps(k, c) == Steps(k, d)
    ensures c == d
  {
    hide Step, Unstep;
    if k > 0 {
      StepsInjective(k - 1, Step(c), Step(d));
      StepBijective(c);
      StepBijective(d);
    }
  }

  // ----- the checksum is affine -----

  lemma StepXor(c: Word, d: Word)
    ensures Step(XorBits(c, d)) == XorBits(Step(c), Step(d))
  {
  }

  lemma {:induction false} StepsXor(k: nat, c: Word, d: Word)
    ensures Steps(k, XorBits(c, d)) == XorBits(Steps(k, c), Steps(k, d))
  {
    hide Step;
    if k > 0 {
      StepXor(c, d);
      StepsXor(k - 1, Step(c), Step(d));
    }
  }

  function XorOctet(a: Octet, b: Octet): Octet {
    XorBits(a, b)
  }

  function XorOctets(a: seq<Octet>, b: seq<Octet>): (r: seq<Octet>)
    requires |a| == |b|
    ensures |r| == |a|
  {
    seq(|a|, i requires 0 <= i < |a| => XorOctet(a[i], b[i]))
  }

  lemma WordXor(c: Word, d: Word, x: Octet, y: Octet)
    ensures XorBits(XorBits(c, d), Widen(XorBits(x, y))) == XorBits(XorBits(c, Widen(x)), XorBits(d, Widen(y)))
  {
  }

  lemma {:induction false} RegisterXor(c: Word, d: Word, a: seq<Octet>, b: seq<Octet>)
    requires |a| == |b|
    ensures Register(XorBits(c, d), XorOctets(a, b)) == XorBits(Register(c, a), Register(d, b))
    decreases |a|
  {
    hide Steps;
    if a != [] {
      assert XorOctets(a, b)[1..] == XorOctets(a[1..], b[1..]);
      WordXor(c, d, a[0], b[0]);
      StepsXor(8, XorBits(c, Widen(a[0])), XorBits(d, Widen(b[0])));
      RegisterXor(Steps(8, XorBits(c, Widen(a[0]))), Steps(8, XorBits(d, Widen(b[0]))), a[1..], b[1..]);
    }
  }

  /** For data of equal length the checksum is affine. */
  lemma ChecksumAffine(a: seq<Octet>, b: seq<Octet>, c: seq<Octet>)
    requires |a| == |b| == |c|
    ensures Checksum(XorOctets(XorOctets(a, b), c)) == XorBits(XorBits(Checksum(a), Checksum(b)), Checksum(c))
  {
    hide Register;
    var none: Word := Zeros(32);
    assert XorBits(ONES, ONES) == none;
    assert XorBits(none, ONES) == ONES;
    RegisterXor(ONES, ONES, a, b);
    RegisterXor(none, ONES, XorOctets(a, b), c);
  }

  // ----- bit by bit -----

  /** The register fed one bit at a time. */
  function Feed(r: Word, m: seq<bool>): Word
    decreases |m|
  {
    if m == [] then r else Feed(Step(r[0 := r[0] != m[0]]), m[1..])
  }

  /** All bits in the order they are consumed. */
  function AllBits(data: seq<Octet>): (r: seq<bool>)
    ensures |r| == 8 * |data|
    ensures forall i :: 0 <= i < |r| ==> r[i] == data[i / 8][i % 8]
  {
    if data == [] then [] else data[0] + AllBits(data[1..])
  }

  /** The first bits of a row changed by a message. */
  function XorPrefix(r: Word, m: seq<bool>): Word
    requires |m| <= 32
  {
    XorBits(r, m + Zeros(32 - |m|))
  }

  lemma StepPrefix(r: Word, m: seq<bool>)
    requires 0 < |m| <= 32
    ensures Step(XorPrefix(r, m)) == XorPrefix(Step(r[0 := r[0] != m[0]]), m[1..])
  {
  }

  /** Changing up to 32 bits at once and then running that many rounds is the
      same as feeding the bits one by one. */
  lemma {:induction false} FeedAtOnce(r: Word, m: seq<bool>)
    requires |m| <= 32
    ensures Steps(|m|, XorPrefix(r, m)) == Feed(r, m)
    decreases |m|
  {
    hide Step;
    if m == [] {
      assert XorPrefix(r, m) == r;
    } else {
      StepPrefix(r, m);
      FeedAtOnce(Step(r[0 := r[0] != m[0]]), m[1..]);
    }
  }

  lemma {:induction false} FeedAppend(r: Word, m: seq<bool>, n: seq<bool>)
    ensures Feed(r, m + n) == Feed(Feed(r, m), n)
    decreases |m|
  {
    hide Step;
    if m == [] {
      assert m + n == n;
    } else {
      assert (m + n)[1..] == m[1..] + n;
      FeedAppend(Step(r[0 := r[0] != m[0]]), m[1..], n);
    }
  }

  /** The loop over bytes feeds all bits to the register. */
  lemma {:induction false} RegisterIsFed(c: Word, data: seq<Octet>)
    ensures Register(c, data) == Feed(c, AllBits(data))
    decreases |data|
  {
    hide Step, Steps;
    if data != [] {
      assert XorPrefix(c, data[0]) == XorBits(c, Widen(data[0]));
      FeedAtOnce(c, data[0]);
      RegisterIsFed(Steps(8, XorBits(c, Widen(data[0]))), data[1..]);
      FeedAppend(c, data[0], AllBits(data[1..]));
    }
  }

  // ----- bursts are found -----

  /** If feeding at most 32 bits ends in zero, the register held just those bits. */
  lemma {:induction false} FedToZero(r: Word, m: seq<bool>)
    requires |m| <= 32 && Feed(r, m) == Zeros(32)
    ensures r == m + Zeros(32 - |m|)
    decreases |m|
  {
    if m != [] {
      var first := r[0 := r[0] != m[0]];
      FedToZero(Step(first), m[1..]);
      PolynomialTop();
      assert !Step(first)[31];
      assert !first[0];
      forall i | 0 <= i < 32
        ensures r[i] == (m + Zeros(32 - |m|))[i]
      {
        if i > 0 {
          assert Step(first)[i - 1] == first[i];
        }
      }
    }
  }

  lemma {:induction false} ZerosKeepZero(n: nat)
    ensures Feed(Zeros(32), Zeros(n)) == Zeros(32)
  {
    if n > 0 {
      var z: Word := Zeros(32);
      assert z[0 := z[0] != Zeros(n)[0]] == z;
      assert Step(z) == z;
      assert Zeros(n)[1..] == Zeros(n - 1);
      ZerosKeepZero(n - 1);
    }
  }

  /** Zeros fed to a register that is not zero never make it zero. */
  lemma {:induction false} ZerosKeepNonzero(r: Word, n: nat)
    requires Feed(r, Zeros(n)) == Zeros(32)
    ensures r == Zeros(32)
    decreases n
  {
    hide Step, Unstep;
    if n > 0 {
      var z: Word := Zeros(32);
      assert r[0 := r[0] != Zeros(n)[0]] == r;
      assert Zeros(n)[1..] == Zeros(n - 1);
      ZerosKeepNonzero(Step(r), n - 1);
      StepBijective(r);
      StepBijective(z);
      assert Step(z) == z by { ZeroStays(); }
    }
  }

  lemma ZeroStays()
    ensures Step(Zeros(32)) == Zeros(32)
  {
  }

  /** A row of bits that is not all zero, but zero outside 32 places in a row,
      never takes the register from zero to zero. */
  lemma BurstIsSeen(e: seq<bool>, p: nat, q: nat)
    requires p <= q <= |e| && q <= p + 32
    requires forall i :: 0 <= i < |e| && !(p <= i < q) ==> !e[i]
    requires Feed(Zeros(32), e) == Zeros(32)
    ensures forall i :: 0 <= i < |e| ==> !e[i]
  {
    hide Step, Feed;
    var before, burst, after := e[..p], e[p..q], e[q..];
    assert before == Zeros(p) && after == Zeros(|e| - q);
    assert e == before + (burst + after);
    FeedAppend(Zeros(32), before, burst + after);
    ZerosKeepZero(p);
    FeedAppend(Zeros(32), burst, after);
    ZerosKeepNonzero(Feed(Zeros(32), burst), |e| - q);
    FedToZero(Zeros(32), burst);
    forall i | p <= i < q
      ensures !e[i]
    {
      assert burst[i - p] == Zeros(32)[i - p];
    }
  }

  /** The two differ at most in the bits from `p` on, `n` of them. */
  ghost predicate DifferWithin(a: seq<Octet>, b: seq<Octet>, p: nat, n: nat) {
    && |a| == |b|
    && forall i :: 0 <= i < 8 * |a| && !(p <= i < p + n) ==> AllBits(a)[i] == AllBits(b)[i]
  }

  lemma {:induction false} XorAllBits(a: seq<Octet>, b: seq<Octet>)
    requires |a| == |b|
    ensures AllBits(XorOctets(a, b)) == XorBits(AllBits(a), AllBits(b))
  {
  }

  /** Two texts of equal length that differ only within 32 bits in a row never
      have the same checksum. */
  lemma BurstDetected(a: seq<Octet>, b: seq<Octet>, p: nat)
    requires DifferWithin(a, b, p, 32) && a != b
    ensures Checksum(a) != Checksum(b)
  {
    hide Register, Feed, Step;
    if Checksum(a) == Checksum(b) {
      var e := AllBits(XorOctets(a, b));
      XorAllBits(a, b);
      SameRegister(a, b);
      RegisterXor(ONES, ONES, a, b);
      assert XorBits(ONES, ONES) == Zeros(32);
      assert XorBits(Register(ONES, a), Register(ONES, b)) == Zeros(32);
      RegisterIsFed(Zeros(32), XorOctets(a, b));
      var start := if p <= |e| then p else |e|;
      var end := if p + 32 <= |e| then p + 32 else |e|;
      BurstIsSeen(e, start, end);
      SameBits(a, b);
    }
  }

  lemma SameRegister(a: seq<Octet>, b: seq<Octet>)
    requires Checksum(a) == Checksum(b)
    ensures Register(ONES, a) == Register(ONES, b)
  {
    hide Register;
    var x, y := Register(ONES, a), Register(ONES, b);
    assert forall i :: 0 <= i < 32 ==> Complement(x)[i] == Complement(y)[i];
  }

  lemma SameBits(a: seq<Octet>, b: seq<Octet>)
    requires |a| == |b| && forall i :: 0 <= i < 8 * |a| ==> AllBits(a)[i] == AllBits(b)[i]
    ensures a == b
  {
    forall k | 0 <= k < |a|
      ensures a[k] == b[k]
    {
      forall j | 0 <= j < 8
        ensures a[k][j] == b[k][j]
      {
        BitOfOctet(a, k, j);
        BitOfOctet(b, k, j);
      }
    }
  }

  lemma BitOfOctet(a: seq<Octet>, k: nat, j: nat)
    requires k < |a| && j < 8
    ensures 8 * k + j < 8 * |a| && AllBits(a)[8 * k + j] == a[k][j]
  {
    hide AllBits;
    assert (8 * k + j) / 8 == k && (8 * k + j) % 8 == j;
  }

  // ----- the remainder of a polynomial division -----

  /** One step of long division: the divisor is subtracted if the leading
      coefficient is one, which then falls away. The divisor's own leading
      coefficient, of x^32, is not written. */
  function Reduce(b: seq<bool>): (r: seq<bool>)
    requires |b| > 32
    ensures |r| == |b| - 1
  {
    if b[0] then XorBits(b[1..33], POLYNOMIAL) + b[33..] else b[1..]
  }

  /** The remainder: coefficients of the powers below 32, highest first. */
  function Remainder(b: seq<bool>): (r: Word)
    requires |b| >= 32
    decreases |b|
  {
    if |b| == 32 then b else Remainder(Reduce(b))
  }

  function Quotient(b: seq<bool>): (q: seq<bool>)
    requires |b| >= 32
    ensures |q| == |b| - 32
    decreases |b|
  {
    if |b| == 32 then [] else [b[0]] + Quotient(Reduce(b))
  }

  /** A polynomial times the divisor, coefficients modulo 2. */
  function TimesDivisor(q: seq<bool>): (r: seq<bool>)
    ensures |r| == |q| + 32
  {
    if q == [] then Zeros(32)
    else
      XorBits(if q[0] then [true] + POLYNOMIAL + Zeros(|q| - 1) else Zeros(|q| + 32), [false] + TimesDivisor(q[1..]))
  }

  /** Dividend = quotient * divisor + remainder. */
  lemma {:induction false} Division(b: seq<bool>)
    requires |b| >= 32
    ensures XorBits(TimesDivisor(Quotient(b)), Zeros(|b| - 32) + Remainder(b)) == b
    decreases |b|
  {
    if |b| > 32 {
      var r := Reduce(b);
      Division(r);
      var q := Quotient(b);
      assert q[1..] == Quotient(r);
      DivisionStep(b, q, TimesDivisor(Quotient(r)), Remainder(r));
    } else {
      assert TimesDivisor([]) == Zeros(32);
      assert Zeros(0) + Remainder(b) == b;
    }
  }

  lemma DivisionStep(b: seq<bool>, q: seq<bool>, product: seq<bool>, rest: Word)
    requires |b| > 32 && |q| == |b| - 32 && q[0] == b[0] && |product| == |b| - 1
    requires product == TimesDivisor(q[1..])
    requires XorBits(product, Zeros(|b| - 33) + rest) == Reduce(b)
    ensures XorBits(TimesDivisor(q), Zeros(|b| - 32) + rest) == b
  {
    hide TimesDivisor, Reduce;
    var n := |b|;
    var first := if q[0] then [true] + POLYNOMIAL + Zeros(n - 33) else Zeros(n);
    Product(q, first);
    var whole := XorBits(XorBits(first, [false] + product), Zeros(n - 32) + rest);
    forall i | 0 <= i < n
      ensures whole[i] == b[i]
    {
      DivisionBit(b, product, rest, first, i);
    }
    assert whole == b;
  }

  lemma DivisionBit(b: seq<bool>, product: seq<bool>, rest: Word, first: seq<bool>, i: nat)
    requires i < |b| && |b| > 32 && |product| == |b| - 1
    requires first == if b[0] then [true] + POLYNOMIAL + Zeros(|b| - 33) else Zeros(|b|)
    requires XorBits(product, Zeros(|b| - 33) + rest) == Reduce(b)
    ensures ((first[i] != ([false] + product)[i]) != (Zeros(|b| - 32) + rest)[i]) == b[i]
  {
    if i > 0 {
      assert (Zeros(|b| - 32) + rest)[i] == (Zeros(|b| - 33) + rest)[i - 1];
      assert XorBits(product, Zeros(|b| - 33) + rest)[i - 1] == (product[i - 1] != (Zeros(|b| - 33) + rest)[i - 1]);
    }
  }

  lemma Product(q: seq<bool>, first: seq<bool>)
    requires q != [] && first == if q[0] then [true] + POLYNOMIAL + Zeros(|q| - 1) else Zeros(|q| + 32)
    ensures TimesDivisor(q) == XorBits(first, [false] + TimesDivisor(q[1..]))
  {
  }

  /** What the register stands for while a message is fed: the message, shifted by
      32 places, with the register added to its first coefficients. */
  function Dividend(r: Word, m: seq<bool>): (b: seq<bool>)
    ensures |b| == |m| + 32
  {
    XorBits(r + Zeros(|m|), m + Zeros(32))
  }

  lemma DividendStep(r: Word, m: seq<bool>)
    requires m != []
    ensures Reduce(Dividend(r, m)) == Dividend(Step(r[0 := r[0] != m[0]]), m[1..])
  {
    hide Step, Reduce, Dividend;
    forall i | 0 <= i < |m| + 31
      ensures Reduce(Dividend(r, m))[i] == Dividend(Step(r[0 := r[0] != m[0]]), m[1..])[i]
    {
      DividendBit(r, m, i);
    }
  }

  lemma DividendBit(r: Word, m: seq<bool>, i: nat)
    requires m != [] && i < |m| + 31
    ensures Reduce(Dividend(r, m))[i] == Dividend(Step(r[0 := r[0] != m[0]]), m[1..])[i]
  {
    var first := r[0 := r[0] != m[0]];
    var b := Dividend(r, m);
    assert b[0] == first[0];
    assert b[i + 1] == ((i + 1 < 32 && r[i + 1]) != (i + 1 < |m| && m[i + 1]));
    assert Reduce(b)[i] == (b[i + 1] != (i < 32 && b[0] && POLYNOMIAL[i]));
    assert i < 31 ==> Step(first)[i] == (r[i + 1] != (first[0] && POLYNOMIAL[i]));
    assert Step(first)[31] == (first[0] && POLYNOMIAL[31]);
  }

  /** Feeding the register computes the remainder. */
  lemma {:induction false} FeedIsRemainder(r: Word, m: seq<bool>)
    ensures Feed(r, m) == Remainder(Dividend(r, m))
    decreases |m|
  {
    hide Step, Reduce;
    if m == [] {
      assert Dividend(r, m) == r;
    } else {
      DividendStep(r, m);
      FeedIsRemainder(Step(r[0 := r[0] != m[0]]), m[1..]);
    }
  }

  /** The checksum is the complement of the remainder of the message, its first
      32 bits complemented and 32 zeros appended, divided by the polynomial. */
  lemma ChecksumIsRemainder(data: seq<Octet>)
    ensures Checksum(data) == Complement(Remainder(Dividend(ONES, AllBits(data))))
    ensures |data| >= 4 ==>
              forall i :: 0 <= i < 8 * |data| + 32 ==>
                Dividend(ONES, AllBits(data))[i] ==
                if i < 32 then !AllBits(data)[i] else if i < 8 * |data| then AllBits(data)[i] else false
  {
    hide Register, Feed, Remainder;
    RegisterIsFed(ONES, data);
    FeedIsRemainder(ONES, AllBits(data));
  }
}
