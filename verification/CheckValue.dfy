/** Which polynomial the checksum divides by, the loop on 32-bit numbers, and a
    checksum worked out. */
module CheckValue {
  import W = Words
  import opened Crc

  // ----- bits of numbers -----

  lemma OneOn(n: nat, i: nat)
    ensures W.BitAt(n, i + 1) == W.BitAt(n / 2, i) && W.BitAt(n, 0) == n % 2
  {
  }

  /** The lowest eight bits of a number. */
  lemma LowBits(n: nat, i: nat)
    requires i < 8
    ensures W.BitAt(n, i) ==
            (if i == 0 then n else if i == 1 then n / 2 else if i == 2 then n / 4 else if i == 3 then n / 8
             else if i == 4 then n / 16 else if i == 5 then n / 32 else if i == 6 then n / 64 else n / 128) % 2
  {
    hide W.BitAt;
    OneOn(n, if i > 0 then i - 1 else 0);
    OneOn(n / 2, if i > 1 then i - 2 else 0);
    OneOn(n / 4, if i > 2 then i - 3 else 0);
    OneOn(n / 8, if i > 3 then i - 4 else 0);
    OneOn(n / 16, if i > 4 then i - 5 else 0);
    OneOn(n / 32, if i > 5 then i - 6 else 0);
    OneOn(n / 64, if i > 6 then i - 7 else 0);
    OneOn(n / 128, 0);
    Halvings(n);
  }

  lemma Halvings(n: nat)
    ensures n / 2 / 2 == n / 4 && n / 4 / 2 == n / 8 && n / 8 / 2 == n / 16 && n / 16 / 2 == n / 32
    ensures n / 32 / 2 == n / 64 && n / 64 / 2 == n / 128
  {
  }

  // ----- the polynomial -----

  const POWERS := {0, 1, 2, 4, 5, 7, 8, 10, 11, 12, 16, 22, 23, 26}

  /** The polynomial is x^32 + x^26 + x^23 + x^22 + x^16 + x^12 + x^11 + x^10 + x^8 +
      x^7 + x^5 + x^4 + x^2 + x + 1, the power 32 not written. */
  lemma PolynomialIs(k: nat)
    requires k < 32
    ensures POLYNOMIAL[31 - k] <==> k in POWERS
  {
    hide W.BitAt;
    var i := 31 - k;
    if i < 8 {
      LowBits(0xEDB8_8320, i);
    } else if i < 16 {
      BitAtByte(0xEDB8_8320, i - 8);
      LowBits(0xED_B883, i - 8);
    } else if i < 24 {
      BitAtByte(0xEDB8_8320, i - 8);
      BitAtByte(0xED_B883, i - 16);
      LowBits(0xEDB8, i - 16);
    } else {
      BitAtByte(0xEDB8_8320, i - 8);
      BitAtByte(0xED_B883, i - 16);
      BitAtByte(0xEDB8, i - 24);
      LowBits(0xED, i - 24);
    }
  }

  // ----- the loop on 32-bit numbers -----

  function Half(x: bv32): bv32 { x >> 1 }

  function Odd(x: bv32): bool { x & 1 == 1 }

  /** Bit `i`, the lowest being bit 0. */
  function Bit(x: bv32, i: nat): bool
    decreases i
  {
    if i == 0 then Odd(x) else Bit(Half(x), i - 1)
  }

  function Row(x: bv32): Word {
    seq(32, i requires 0 <= i => Bit(x, i))
  }

  function OctetOf(c: bv32): Octet {
    seq(8, i requires 0 <= i => Bit(c, i))
  }

  /** One round of the inner loop. */
  function Next(x: bv32): bv32 {
    if x & 1 == 1 then (x >> 1) ^ 0xEDB8_8320 else x >> 1
  }

  function Eight(x: bv32): bv32 {
    Next(Next(Next(Next(Next(Next(Next(Next(x))))))))
  }

  lemma XorHalves(x: bv32, y: bv32)
    ensures Half(x ^ y) == Half(x) ^ Half(y) && Odd(x ^ y) == (Odd(x) != Odd(y))
  {
  }

  lemma {:induction false} BitOfXor(x: bv32, y: bv32, i: nat)
    ensures Bit(x ^ y, i) == (Bit(x, i) != Bit(y, i))
    decreases i
  {
    hide Half, Odd;
    XorHalves(x, y);
    if i > 0 {
      BitOfXor(Half(x), Half(y), i - 1);
    }
  }

  function Drop8(x: bv32): bv32 { x >> 8 }

  lemma EightHalves(x: bv32)
    ensures Half(Half(Half(Half(Half(Half(Half(Half(x)))))))) == Drop8(x)
    ensures Drop8(Drop8(Drop8(Drop8(x)))) == 0 && Half(0) == 0 && !Odd(0)
    ensures x < 256 ==> Drop8(x) == 0
  {
  }

  lemma NextBit(x: bv32, i: nat)
    ensures Bit(x, i + 1) == Bit(Half(x), i) && Bit(x, 0) == Odd(x)
  {
  }

  lemma EightOn(x: bv32, i: nat)
    ensures Bit(x, i + 8) == Bit(Drop8(x), i)
  {
    hide Bit, Half, Odd, Drop8;
    EightHalves(x);
    NextBit(x, i + 7);
    NextBit(Half(x), i + 6);
    NextBit(Half(Half(x)), i + 5);
    NextBit(Half(Half(Half(x))), i + 4);
    NextBit(Half(Half(Half(Half(x)))), i + 3);
    NextBit(Half(Half(Half(Half(Half(x))))), i + 2);
    NextBit(Half(Half(Half(Half(Half(Half(x)))))), i + 1);
    NextBit(Half(Half(Half(Half(Half(Half(Half(x))))))), i);
  }

  lemma {:induction false} NoBits(i: nat)
    ensures !Bit(0, i)
  {
    hide Half, Odd;
    EightHalves(0);
    if i > 0 {
      NoBits(i - 1);
    }
  }

  /** No bit beyond the 32nd, and none beyond the eighth of a byte. */
  lemma NoBeyond(x: bv32, i: nat)
    ensures !Bit(x, i + 32) && (x < 256 ==> !Bit(x, i + 8))
  {
    hide Bit, Drop8;
    EightHalves(x);
    NoBits(i);
    EightOn(x, i);
    EightOn(x, i + 24);
    EightOn(Drop8(x), i + 16);
    EightOn(Drop8(Drop8(x)), i + 8);
    EightOn(Drop8(Drop8(Drop8(x))), i);
  }

  lemma FirstEight(x: bv32, i: nat)
    requires i < 8
    ensures Bit(x, i) == Odd(if i == 0 then x else if i == 1 then x >> 1 else if i == 2 then x >> 2
                             else if i == 3 then x >> 3 else if i == 4 then x >> 4 else if i == 5 then x >> 5
                             else if i == 6 then x >> 6 else x >> 7)
  {
    hide Bit, Odd;
    NextBit(x, if i > 0 then i - 1 else 0);
    NextBit(x >> 1, if i > 1 then i - 2 else 0);
    NextBit(x >> 2, if i > 2 then i - 3 else 0);
    NextBit(x >> 3, if i > 3 then i - 4 else 0);
    NextBit(x >> 4, if i > 4 then i - 5 else 0);
    NextBit(x >> 5, if i > 5 then i - 6 else 0);
    NextBit(x >> 6, if i > 6 then i - 7 else 0);
    NextBit(x >> 7, 0);
    HalvesOf(x);
  }

  lemma HalvesOf(x: bv32)
    ensures Half(x) == x >> 1 && Half(x >> 1) == x >> 2 && Half(x >> 2) == x >> 3 && Half(x >> 3) == x >> 4
    ensures Half(x >> 4) == x >> 5 && Half(x >> 5) == x >> 6 && Half(x >> 6) == x >> 7
  {
  }

  /** The constant of the loop, as a row of bits. */
  lemma ConstantIs()
    ensures Row(0xEDB8_8320) == POLYNOMIAL
  {
    hide Bit, W.BitAt;
    forall i | 0 <= i < 32
      ensures Row(0xEDB8_8320)[i] == POLYNOMIAL[i]
    {
      PolynomialIs(31 - i);
      ConstantBit(i);
    }
  }

  lemma InByte(x: bv32, i: nat)
    requires i < 32
    ensures Bit(x, i) == Bit(if i < 8 then x else if i < 16 then Drop8(x) else if i < 24 then Drop8(Drop8(x))
                             else Drop8(Drop8(Drop8(x))), i % 8)
  {
    hide Bit, Drop8;
    if i >= 8 {
      EightOn(x, i - 8);
    }
    if i >= 16 {
      EightOn(Drop8(x), i - 16);
    }
    if i >= 24 {
      EightOn(Drop8(Drop8(x)), i - 24);
    }
  }

  lemma ConstantBit(i: nat)
    requires i < 32
    ensures Bit(0xEDB8_8320, i) <==> 31 - i in POWERS
  {
    hide Bit, Drop8;
    InByte(0xEDB8_8320, i);
    ConstantBytes();
    FirstEight(if i < 8 then 0xEDB8_8320 else if i < 16 then 0xED_B883 else if i < 24 then 0xEDB8 else 0xED, i % 8);
  }

  lemma ConstantBytes()
    ensures Drop8(0xEDB8_8320) == 0xED_B883 && Drop8(0xED_B883) == 0xEDB8 && Drop8(0xEDB8) == 0xED
    ensures Drop8(0xFFFF_FFFF) == 0xFF_FFFF && Drop8(0xFF_FFFF) == 0xFFFF && Drop8(0xFFFF) == 0xFF
  {
  }

  lemma ShiftIsHalf(x: bv32)
    ensures ShiftRight(Row(x)) == Row(Half(x))
  {
    hide Bit, Half;
    forall i | 0 <= i < 32
      ensures ShiftRight(Row(x))[i] == Row(Half(x))[i]
    {
      NextBit(x, i);
      NoBeyond(x, 0);
    }
  }

  lemma XorIsXor(x: bv32, y: bv32)
    ensures XorBits(Row(x), Row(y)) == Row(x ^ y)
  {
    hide Bit;
    forall i | 0 <= i < 32
      ensures XorBits(Row(x), Row(y))[i] == Row(x ^ y)[i]
    {
      BitOfXor(x, y, i);
    }
  }

  /** The loop's round on rows of bits is the round on numbers. */
  lemma StepIsNext(x: bv32)
    ensures Step(Row(x)) == Row(Next(x))
  {
    hide Bit, POLYNOMIAL, Half, Odd, Next, ShiftRight, XorBits;
    ConstantIs();
    ByDefinition(x);
    ShiftIsHalf(x);
    XorIsXor(Half(x), 0xEDB8_8320);
  }

  lemma ByDefinition(x: bv32)
    ensures Next(x) == if Odd(x) then Half(x) ^ 0xEDB8_8320 else Half(x)
    ensures Bit(x, 0) == Odd(x)
  {
  }

  lemma EightSteps(x: bv32)
    ensures Steps(8, Row(x)) == Row(Eight(x))
  {
    hide Step, Row, Next;
    StepIsNext(x);
    StepIsNext(Next(x));
    StepIsNext(Next(Next(x)));
    StepIsNext(Next(Next(Next(x))));
    StepIsNext(Next(Next(Next(Next(x)))));
    StepIsNext(Next(Next(Next(Next(Next(x))))));
    StepIsNext(Next(Next(Next(Next(Next(Next(x)))))));
    StepIsNext(Next(Next(Next(Next(Next(Next(Next(x))))))));
    EightUnrolled(Row(x));
  }

  lemma EightUnrolled(c: Word)
    ensures Steps(8, c) == Step(Step(Step(Step(Step(Step(Step(Step(c))))))))
  {
    hide Step;
    TwoUnrolled(6, c);
    TwoUnrolled(4, Step(Step(c)));
    TwoUnrolled(2, Step(Step(Step(Step(c)))));
    TwoUnrolled(0, Step(Step(Step(Step(Step(Step(c)))))));
  }

  lemma TwoUnrolled(k: nat, c: Word)
    ensures Steps(k + 2, c) == Steps(k, Step(Step(c))) && Steps(0, c) == c
  {
    hide Step;
    assert Steps(k + 2, c) == Steps(k + 1, Step(c));
  }

  /** A byte changes the lowest eight bits. */
  lemma WidenIsRow(x: bv32, c: bv32)
    requires c < 256
    ensures XorBits(Row(x), Widen(OctetOf(c))) == Row(x ^ c)
  {
    hide Bit;
    forall i | 0 <= i < 32
      ensures XorBits(Row(x), Widen(OctetOf(c)))[i] == Row(x ^ c)[i]
    {
      BitOfXor(x, c, i);
      if i >= 8 {
        NoBeyond(c, i - 8);
      }
    }
  }

  /** One byte more. */
  lemma OneByte(x: bv32, c: bv32, y: bv32, data: seq<Octet>)
    requires c < 256 && Eight(x ^ c) == y
    ensures Register(Row(x), [OctetOf(c)] + data) == Register(Row(y), data)
  {
    hide Eight, Row, OctetOf;
    WidenIsRow(x, c);
    EightSteps(x ^ c);
    assert ([OctetOf(c)] + data)[1..] == data;
  }

  // ----- the check value -----

  /** The bytes of a text. */
  function Octets(codes: seq<bv32>): seq<Octet> {
    if codes == [] then [] else [OctetOf(codes[0])] + Octets(codes[1..])
  }

  /** The characters from 1 to 9. */
  const NINE: seq<bv32> := [0x31, 0x32, 0x33, 0x34, 0x35, 0x36, 0x37, 0x38, 0x39]

  lemma Rounds()
    ensures Eight(0xFFFF_FFFF ^ 0x31) == 0x7C23_1048
    ensures Eight(0x7C23_1048 ^ 0x32) == 0xB0AC_BB32
    ensures Eight(0xB0AC_BB32 ^ 0x33) == 0x77B7_9C2D
    ensures Eight(0x77B7_9C2D ^ 0x34) == 0x641C_1F5C
    ensures Eight(0x641C_1F5C ^ 0x35) == 0x340A_C5E3
    ensures Eight(0x340A_C5E3 ^ 0x36) == 0xF68D_2C9E
    ensures Eight(0xF68D_2C9E ^ 0x37) == 0xAFFC_9660
    ensures Eight(0xAFFC_9660 ^ 0x38) == 0x651F_2550
    ensures Eight(0x651F_2550 ^ 0x39) == 0x340B_C6D9
  {
  }

  lemma OnesBit(i: nat)
    requires i < 32
    ensures Bit(0xFFFF_FFFF, i)
  {
    hide Bit, Drop8;
    InByte(0xFFFF_FFFF, i);
    ConstantBytes();
    FirstEight(if i < 8 then 0xFFFF_FFFF else if i < 16 then 0xFF_FFFF else if i < 24 then 0xFFFF else 0xFF, i % 8);
  }

  lemma OnesAndComplement(x: bv32)
    ensures Row(0xFFFF_FFFF) == ONES && Complement(Row(x)) == Row(x ^ 0xFFFF_FFFF)
  {
    hide Bit;
    forall i | 0 <= i < 32
      ensures Bit(0xFFFF_FFFF, i) && Bit(x ^ 0xFFFF_FFFF, i) == !Bit(x, i)
    {
      OnesBit(i);
      BitOfXor(x, 0xFFFF_FFFF, i);
    }
  }

  /** The checksum of the text "123456789" is 0xCBF43926. */
  lemma NineDigits()
    ensures Checksum(Octets(NINE)) == Row(0xCBF4_3926)
  {
    hide Eight, Row, OctetOf, Register, Octets;
    Rounds();
    OnesAndComplement(0x340B_C6D9);
    OneByte(0xFFFF_FFFF, 0x31, 0x7C23_1048, Octets(NINE[1..]));
    NextOctet(0);
    OneByte(0x7C23_1048, 0x32, 0xB0AC_BB32, Octets(NINE[2..]));
    NextOctet(1);
    OneByte(0xB0AC_BB32, 0x33, 0x77B7_9C2D, Octets(NINE[3..]));
    NextOctet(2);
    OneByte(0x77B7_9C2D, 0x34, 0x641C_1F5C, Octets(NINE[4..]));
    NextOctet(3);
    OneByte(0x641C_1F5C, 0x35, 0x340A_C5E3, Octets(NINE[5..]));
    NextOctet(4);
    OneByte(0x340A_C5E3, 0x36, 0xF68D_2C9E, Octets(NINE[6..]));
    NextOctet(5);
    OneByte(0xF68D_2C9E, 0x37, 0xAFFC_9660, Octets(NINE[7..]));
    NextOctet(6);
    OneByte(0xAFFC_9660, 0x38, 0x651F_2550, Octets(NINE[8..]));
    NextOctet(7);
    OneByte(0x651F_2550, 0x39, 0x340B_C6D9, Octets(NINE[9..]));
    NextOctet(8);
    NoMore();
  }

  lemma NextOctet(k: nat)
    requires k < 9
    ensures Octets(NINE[k..]) == [OctetOf(NINE[k])] + Octets(NINE[k + 1..])
  {
    hide OctetOf;
    assert NINE[k..][1..] == NINE[k + 1..];
  }

  lemma NoMore()
    ensures Register(Row(0x340B_C6D9), Octets(NINE[9..])) == Row(0x340B_C6D9) && NINE[0..] == NINE
  {
    hide Row;
  }
}
