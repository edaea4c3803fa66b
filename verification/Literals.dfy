/** What literals, names and operators mean, read off their characters. */
module Literals {
  import opened Words
  import opened Tpp
  import opened Grammar
  import opened Printing

  // ----- numerals -----

  const DIGITS := "0123456789ABCDEF"

  type Numeral = d: seq<nat> | forall i :: 0 <= i < |d| ==> d[i] < 16 witness []

  /** The characters of a row of digits, and what follows. */
  function Spelt(d: Numeral, rest: string): string {
    if d == [] then rest else [DIGITS[d[0]]] + Spelt(d[1..], rest)
  }

  predicate InBase(base: nat, d: Numeral) {
    forall i :: 0 <= i < |d| ==> d[i] < base
  }

  /** Their value by position, the last digit counting ones. */
  function Value(base: nat, d: Numeral): nat
    decreases |d|
  {
    if d == [] then 0 else Value(base, d[..|d| - 1]) * base + d[|d| - 1]
  }

  /** Their value when digits before them came to `acc`. */
  function ValueFrom(base: nat, acc: nat, d: Numeral): nat
    decreases |d|
  {
    if d == [] then acc else ValueFrom(base, acc * base + d[0], d[1..])
  }

  lemma {:induction false} ValueFromLast(base: nat, acc: nat, d: Numeral)
    requires d != []
    ensures ValueFrom(base, acc, d) == ValueFrom(base, acc, d[..|d| - 1]) * base + d[|d| - 1]
    decreases |d|
  {
    if |d| > 1 {
      var next := acc * base + d[0];
      ValueFromLast(base, next, d[1..]);
      assert d[1..][..|d| - 2] == d[..|d| - 1][1..];
      assert ValueFrom(base, acc, d[..|d| - 1]) == ValueFrom(base, next, d[..|d| - 1][1..]);
    }
  }

  lemma {:induction false} ValueIsFrom(base: nat, d: Numeral)
    ensures ValueFrom(base, 0, d) == Value(base, d)
    decreases |d|
  {
    if d != [] {
      ValueIsFrom(base, d[..|d| - 1]);
      ValueFromLast(base, 0, d);
    }
  }

  /** The digits of a number. */
  function DigitsOf(base: nat, n: nat): (d: Numeral)
    requires 2 <= base <= 16
    ensures d != [] && InBase(base, d)
  {
    if n < base then [n] else DigitsOf(base, n / base) + [n % base]
  }

  lemma QuotientAndRest(n: nat, base: nat)
    requires base > 0
    ensures n / base * base + n % base == n
  {
  }

  lemma {:induction false} ValueOfDigits(base: nat, n: nat)
    requires 2 <= base <= 16
    ensures Value(base, DigitsOf(base, n)) == n
  {
    if n >= base {
      ValueOfDigits(base, n / base);
      var d := DigitsOf(base, n);
      assert d[..|d| - 1] == DigitsOf(base, n / base);
      QuotientAndRest(n, base);
    }
  }

  /** Cutting to 32 bits digit by digit is cutting once at the end. */
  lemma {:induction false} CutOnce(base: nat, x: int, y: int, d: Numeral)
    requires x >= 0 && y >= 0 && Low32(x) == Low32(y)
    ensures Low32(ValueFrom(base, x, d)) == Low32(ValueFrom(base, y, d))
    decreases |d|
  {
    if d != [] {
      CutDigit(x, y, base, d[0]);
      CutOnce(base, x * base + d[0], y * base + d[0], d[1..]);
    }
  }

  lemma CutDigit(x: int, y: int, base: int, c: int)
    requires Low32(x) == Low32(y)
    ensures Low32(x * base + c) == Low32(y * base + c)
  {
    var k := x / 0x1_0000_0000 - y / 0x1_0000_0000;
    assert x == y + k * 0x1_0000_0000;
    assert x * base + c == y * base + c + (k * base) * 0x1_0000_0000;
    ModPlusMultiple(y * base + c, k * base);
  }

  lemma NextDigit(base: nat, acc: u32, d: Numeral)
    ensures d == [] ==> Low32(ValueFrom(base, acc, d)) == acc
    ensures d != [] ==>
              Low32(ValueFrom(base, acc, d)) == Low32(ValueFrom(base, Low32(acc * base + d[0]), d[1..]))
  {
    if d != [] {
      CutOnce(base, Low32(acc * base + d[0]), acc * base + d[0], d[1..]);
    }
  }

  lemma DigitIs(k: nat)
    requires k < 16
    ensures HexDigit(DIGITS[k]) == Some(k)
    ensures IsDigit(DIGITS[k]) <==> k < 10
    ensures k < 10 ==> Digit(DIGITS[k]) == k && Lower(DIGITS[k]) == DIGITS[k]
  {
  }

  /** The first character of what follows is no digit of the base. */
  predicate Ends(base: nat, rest: string) {
    rest != [] ==> forall k :: 0 <= k < base && k < 16 ==> rest[0] != DIGITS[k]
  }

  lemma NoMoreDigits(base: nat, rest: string)
    requires Ends(base, rest) && rest != []
    ensures base == 16 ==> HexDigit(rest[0]).None?
    ensures base == 10 ==> !IsDigit(rest[0])
    ensures base == 2 ==> rest[0] != '0' && rest[0] != '1'
  {
    var c := rest[0];
    if IsDigit(c) {
      assert DIGITS[Digit(c)] == c;
    }
    if 'A' <= c <= 'F' {
      assert DIGITS[(c - 'A') as int + 10] == c;
    }
    assert DIGITS[0] == '0' && DIGITS[1] == '1';
  }

  lemma HexadecimalEnd(acc: u32, rest: string)
    requires Ends(16, rest)
    ensures Hexadecimal(rest, acc) == Parsed(acc, rest)
  {
    if rest != [] { NoMoreDigits(16, rest); }
  }

  lemma HexadecimalStep(k: nat, acc: u32, rest: string)
    requires k < 16
    ensures Hexadecimal([DIGITS[k]] + rest, acc) == Hexadecimal(rest, Low32(acc * 16 + k))
  {
    hide Low32;
    DigitIs(k);
    assert ([DIGITS[k]] + rest)[1..] == rest;
  }

  lemma {:induction false} HexadecimalOf(d: Numeral, acc: u32, rest: string)
    requires Ends(16, rest)
    ensures Hexadecimal(Spelt(d, rest), acc) == Parsed(Low32(ValueFrom(16, acc, d)), rest)
    decreases |d|
  {
    hide ValueFrom, Low32, Hexadecimal, Ends;
    NextDigit(16, acc, d);
    if d == [] {
      HexadecimalEnd(acc, rest);
    } else {
      HexadecimalStep(d[0], acc, Spelt(d[1..], rest));
      HexadecimalOf(d[1..], Low32(acc * 16 + d[0]), rest);
    }
  }

  lemma OctalEnd(acc: u32, rest: string)
    requires Ends(10, rest)
    ensures Octal(rest, acc) == Parsed(acc, rest)
  {
    if rest != [] { NoMoreDigits(10, rest); }
  }

  lemma OctalStep(k: nat, acc: u32, rest: string)
    requires k < 8
    ensures Octal([DIGITS[k]] + rest, acc) == Octal(rest, Low32(acc * 8 + k))
  {
    hide Low32;
    DigitIs(k);
    assert ([DIGITS[k]] + rest)[1..] == rest;
  }

  lemma {:induction false} OctalOf(d: Numeral, acc: u32, rest: string)
    requires Ends(10, rest) && InBase(8, d)
    ensures Octal(Spelt(d, rest), acc) == Parsed(Low32(ValueFrom(8, acc, d)), rest)
    decreases |d|
  {
    hide ValueFrom, Low32, Octal, Ends;
    NextDigit(8, acc, d);
    if d == [] {
      OctalEnd(acc, rest);
    } else {
      OctalStep(d[0], acc, Spelt(d[1..], rest));
      OctalOf(d[1..], Low32(acc * 8 + d[0]), rest);
    }
  }

  /** An 8 or 9 among octal digits is an error. */
  lemma {:induction false} OctalRefuses(d: Numeral, acc: u32, rest: string)
    requires InBase(10, d) && !InBase(8, d)
    ensures Octal(Spelt(d, rest), acc) == Rejected
    decreases |d|
  {
    DigitIs(d[0]);
    assert Spelt(d, rest)[1..] == Spelt(d[1..], rest);
    if d[0] < 8 {
      OctalRefuses(d[1..], Low32(acc * 8 + d[0]), rest);
    }
  }

  lemma BinaryEnd(acc: u32, rest: string)
    requires Ends(2, rest)
    ensures Binary2(rest, acc) == Parsed(acc, rest)
  {
    if rest != [] { NoMoreDigits(2, rest); }
  }

  lemma BinaryStep(k: nat, acc: u32, rest: string)
    requires k < 2
    ensures Binary2([DIGITS[k]] + rest, acc) == Binary2(rest, Low32(acc * 2 + k))
  {
    hide Low32;
    DigitIs(k);
    assert ([DIGITS[k]] + rest)[1..] == rest;
  }

  lemma {:induction false} BinaryOf(d: Numeral, acc: u32, rest: string)
    requires Ends(2, rest) && InBase(2, d)
    ensures Binary2(Spelt(d, rest), acc) == Parsed(Low32(ValueFrom(2, acc, d)), rest)
    decreases |d|
  {
    hide ValueFrom, Low32, Binary2, Ends;
    NextDigit(2, acc, d);
    if d == [] {
      BinaryEnd(acc, rest);
    } else {
      BinaryStep(d[0], acc, Spelt(d[1..], rest));
      BinaryOf(d[1..], Low32(acc * 2 + d[0]), rest);
    }
  }

  lemma DecimalEnd(acc: u32, rest: string)
    requires Ends(10, rest)
    ensures Decimal(rest, acc) == Parsed(acc, rest)
  {
    if rest != [] { NoMoreDigits(10, rest); }
  }

  lemma DecimalStep(k: nat, acc: u32, rest: string)
    requires k < 10
    ensures Decimal([DIGITS[k]] + rest, acc) == Decimal(rest, Low32(acc * 10 + k))
  {
    hide Low32;
    DigitIs(k);
    assert ([DIGITS[k]] + rest)[1..] == rest;
  }

  lemma {:induction false} DecimalOf(d: Numeral, acc: u32, rest: string)
    requires Ends(10, rest) && InBase(10, d)
    ensures Decimal(Spelt(d, rest), acc) == Parsed(Low32(ValueFrom(10, acc, d)), rest)
    decreases |d|
  {
    hide ValueFrom, Low32, Decimal, Ends;
    NextDigit(10, acc, d);
    if d == [] {
      DecimalEnd(acc, rest);
    } else {
      DecimalStep(d[0], acc, Spelt(d[1..], rest));
      DecimalOf(d[1..], Low32(acc * 10 + d[0]), rest);
    }
  }

  /** `0x`, in either case, and any row of hexadecimal digits is their value, cut
      to 32 bits. */
  lemma HexadecimalLiteral(x: char, d: Numeral, rest: string)
    requires x == 'x' || x == 'X'
    requires Ends(16, rest)
    ensures Number(['0', x] + Spelt(d, rest)) == Parsed(Value(16, d) % 0x1_0000_0000, EatBlanks(rest))
  {
    hide Hexadecimal;
    HexadecimalOf(d, 0, rest);
    ValueIsFrom(16, d);
    assert (['0', x] + Spelt(d, rest))[2..] == Spelt(d, rest);
  }

  /** `0o` and octal digits; with an 8 or 9 among them it is refused. */
  lemma OctalLiteral(x: char, d: Numeral, rest: string)
    requires x == 'o' || x == 'O'
    requires Ends(10, rest) && InBase(10, d)
    ensures Number(['0', x] + Spelt(d, rest)) ==
            if InBase(8, d) then Parsed(Value(8, d) % 0x1_0000_0000, EatBlanks(rest)) else Rejected
  {
    hide Octal;
    if InBase(8, d) {
      OctalOf(d, 0, rest);
      ValueIsFrom(8, d);
    } else {
      OctalRefuses(d, 0, rest);
    }
    assert (['0', x] + Spelt(d, rest))[2..] == Spelt(d, rest);
  }

  /** `0b` and binary digits. */
  lemma BinaryLiteral(x: char, d: Numeral, rest: string)
    requires x == 'b' || x == 'B'
    requires Ends(2, rest) && InBase(2, d)
    ensures Number(['0', x] + Spelt(d, rest)) == Parsed(Value(2, d) % 0x1_0000_0000, EatBlanks(rest))
  {
    hide Binary2;
    BinaryOf(d, 0, rest);
    ValueIsFrom(2, d);
    assert (['0', x] + Spelt(d, rest))[2..] == Spelt(d, rest);
  }

  /** Decimal digits, leading zeros and all. */
  lemma DecimalLiteral(d: Numeral, rest: string)
    requires d != [] && InBase(10, d) && Ends(10, rest)
    requires rest != [] ==> rest[0] != '.' && !IsAlpha(rest[0])
    ensures Number(Spelt(d, rest)) == Parsed(Value(10, d) % 0x1_0000_0000, EatBlanks(rest))
  {
    hide Decimal, Value, ValueFrom;
    var s := Spelt(d, rest);
    DigitIs(d[0]);
    assert s[1..] == Spelt(d[1..], rest);
    if |s| >= 2 {
      SecondCharacter(d, rest);
      assert [s[0], Lower(s[1])] + s[2..] == s;
    }
    DecimalOf(d[1..], d[0], rest);
    ValueIsFrom(10, d);
    FirstDigit(10, d);
  }

  lemma FirstDigit(base: nat, d: Numeral)
    requires d != []
    ensures ValueFrom(base, 0, d) == ValueFrom(base, d[0], d[1..])
  {
  }

  /** The character behind the first digit is not a letter. */
  lemma SecondCharacter(d: Numeral, rest: string)
    requires d != [] && InBase(10, d) && |Spelt(d, rest)| >= 2
    requires rest != [] ==> !IsAlpha(rest[0])
    ensures !IsAlpha(Spelt(d, rest)[1]) && Lower(Spelt(d, rest)[1]) == Spelt(d, rest)[1]
  {
    assert Spelt(d, rest)[1..] == Spelt(d[1..], rest);
    if |d| > 1 {
      DigitIs(d[1]);
    } else {
      assert Spelt(d[1..], rest) == rest;
    }
  }

  /** Every 32-bit number, written in base 16, 8, 2 or 10, is read back. */
  lemma EveryBase(n: u32, rest: string)
    requires Ends(16, rest) && (rest != [] ==> rest[0] != '.' && !IsAlpha(rest[0]))
    ensures Number("0x" + Spelt(DigitsOf(16, n), rest)) == Parsed(n, EatBlanks(rest))
    ensures Number("0o" + Spelt(DigitsOf(8, n), rest)) == Parsed(n, EatBlanks(rest))
    ensures Number("0b" + Spelt(DigitsOf(2, n), rest)) == Parsed(n, EatBlanks(rest))
    ensures Number(Spelt(DigitsOf(10, n), rest)) == Parsed(n, EatBlanks(rest))
  {
    hide Number, Spelt, Value, DigitsOf;
    ValueOfDigits(16, n);
    ValueOfDigits(8, n);
    ValueOfDigits(2, n);
    ValueOfDigits(10, n);
    HexadecimalLiteral('x', DigitsOf(16, n), rest);
    OctalLiteral('o', DigitsOf(8, n), rest);
    BinaryLiteral('b', DigitsOf(2, n), rest);
    DecimalLiteral(DigitsOf(10, n), rest);
  }

  /** A character in quotes is its code; two quotes are 0, and the second is left. */
  lemma CharacterLiteral(sc: Scope, c: char, rest: string)
    ensures c != '\'' ==> ParseFactor(sc, ['\'', c, '\''] + rest) == Parsed(Num((c as int) % 0x1_0000_0000), EatBlanks(rest))
    ensures ParseFactor(sc, ['\'', '\''] + rest) == Parsed(Num(0), ['\''] + rest)
  {
    var s := ['\'', c, '\''] + rest;
    assert s[2..] == ['\''] + rest;
    assert (['\''] + rest)[1..] == rest;
    assert (['\'', '\''] + rest)[1..] == ['\''] + rest;
  }

  // ----- names -----

  /** What may be part of a name, of the visible characters. */
  predicate InName(c: char) {
    IsAlpha(c) || IsDigit(c) || c == '"' || c == '#' || c == '$' || c == ':' || c == '\\' || c == '_' || c == '`'
  }

  lemma Separators1(c: char)
    requires c == ' ' || c == '\t' || c == '\n' || c == '/' || c == '*' || c == '+' || c == '-' || c == '^' || c == '%'
    ensures IsSeparator(c)
  {
    assert SEPARATORS[0] == ' ';
    assert SEPARATORS[1] == '\t';
    assert SEPARATORS[2] == '\n';
    assert SEPARATORS[3] == '/';
    assert SEPARATORS[4] == '*';
    assert SEPARATORS[5] == '+';
    assert SEPARATORS[6] == '-';
    assert SEPARATORS[7] == '^';
    assert SEPARATORS[8] == '%';
  }

  lemma Separators2(c: char)
    requires c == '@' || c == '{' || c == '}' || c == '[' || c == ']' || c == '&' || c == '|' || c == '!' || c == '~'
    ensures IsSeparator(c)
  {
    assert SEPARATORS[9] == '@';
    assert SEPARATORS[10] == '{';
    assert SEPARATORS[11] == '}';
    assert SEPARATORS[12] == '[';
    assert SEPARATORS[13] == ']';
    assert SEPARATORS[14] == '&';
    assert SEPARATORS[15] == '|';
    assert SEPARATORS[16] == '!';
    assert SEPARATORS[17] == '~';
  }

  lemma Separators3(c: char)
    requires c == '\'' || c == ';' || c == '.' || c == '>' || c == '<' || c == '?' || c == ',' || c == '=' || c == '(' || c == ')'
    ensures IsSeparator(c)
  {
    assert SEPARATORS[18] == '\'';
    assert SEPARATORS[19] == ';';
    assert SEPARATORS[20] == '.';
    assert SEPARATORS[21] == '>';
    assert SEPARATORS[22] == '<';
    assert SEPARATORS[23] == '?';
    assert SEPARATORS[24] == ',';
    assert SEPARATORS[25] == '=';
    assert SEPARATORS[26] == '(';
    assert SEPARATORS[27] == ')';
  }

  lemma NoOthers(c: char)
    requires InName(c) || c > '~'
    ensures !IsSeparator(c)
  {
    forall k | 0 <= k < |SEPARATORS|
      ensures SEPARATORS[k] != c
    {
      assert !InName(SEPARATORS[k]) && SEPARATORS[k] <= '~';
    }
  }

  /** Of the visible characters, letters, digits and seven others may be part of a
      name; blanks, tabulators and line ends may not. */
  lemma NameCharacters(c: char)
    ensures '!' <= c <= '~' ==> (IsSeparator(c) <==> !InName(c))
    ensures c == ' ' || c == '\t' || c == '\n' ==> IsSeparator(c)
    ensures c > '~' ==> !IsSeparator(c)
  {
    hide IsSeparator;
    if InName(c) || c > '~' {
      NoOthers(c);
    } else if c <= ' ' || c == '/' || c == '*' || c == '+' || c == '-' || c == '^' || c == '%' {
      if c == ' ' || c == '\t' || c == '\n' || c > ' ' {
        Separators1(c);
      }
    } else if c == '@' || c == '{' || c == '}' || c == '[' || c == ']' || c == '&' || c == '|' || c == '!' || c == '~' {
      Separators2(c);
    } else {
      Separators3(c);
    }
  }

  /** Blanks, which are skipped behind every token, are spaces, tabulators and
      carriage returns; the end of the line is none. */
  lemma Blanks(c: char, rest: string)
    ensures EatBlanks([c] + rest) == if c == ' ' || c == '\t' || c == '\r' then EatBlanks(rest) else [c] + rest
  {
    assert ([c] + rest)[1..] == rest;
  }

  /** A name is read up to the first separator, and the blanks behind it are
      skipped. */
  lemma {:induction false} NameEnds(name: string, c: char, rest: string)
    requires (forall i :: 0 <= i < |name| ==> !IsSeparator(name[i])) && IsSeparator(c)
    ensures Token(name + [c] + rest) == Parsed(name, EatBlanks([c] + rest))
    decreases |name|
  {
    var s := name + [c] + rest;
    if name == [] {
      assert s == [c] + rest;
    } else {
      assert s[1..] == name[1..] + [c] + rest;
      NameEnds(name[1..], c, rest);
      assert [name[0]] + name[1..] == name;
    }
  }
}
