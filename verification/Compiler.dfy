/** The one-pass compiler: recursive descent over a single look-ahead character,
    printing code as it reads. Every method is tied to the reading functions of
    Grammar and Statements and to the code functions of Codegen. A method that
    returns false stands for the source's `error`, which ends the program. */
module Compiling {
  import opened Words
  import opened Isa
  import opened Assembly
  import opened Tpp
  import opened Codegen
  import opened Grammar
  import opened Statements

  /** `ok` and the new state of the compiler are what reading `r` calls for. */
  predicate Reads<T>(r: Parsed<T>, ok: bool, rest: string) {
    ok == r.Parsed? && (ok ==> rest == r.rest)
  }

  predicate Prints(e: Expr, n: nat, out0: seq<Asm>, k0: nat, out1: seq<Asm>, k1: nat) {
    out1 == out0 + ExprCode(e, n, k0) && k1 == Counter(e, k0)
  }

  lemma PrintsBinary(op: BinOp, l: Expr, r: Expr, n: nat, out0: seq<Asm>, k0: nat, out1: seq<Asm>, k1: nat,
                     out2: seq<Asm>, k2: nat)
    requires Prints(l, n, out0, k0, out1, k1) && Prints(r, n, out1 + [Op(Reg(Pushar, 1))], k1, out2, k2)
    ensures Prints(Binary(op, l, r), n, out0, k0, out2 + ([Op(Reg(Popar, 2))] + OperatorCode(op)), k2)
  {
    hide OperatorCode;
    Regroup(out0, ExprCode(l, n, k0), [Op(Reg(Pushar, 1))], ExprCode(r, n, k1),
            [Op(Reg(Popar, 2))] + OperatorCode(op));
  }

  lemma Regroup(a: seq<Asm>, b: seq<Asm>, c: seq<Asm>, d: seq<Asm>, e: seq<Asm>)
    ensures a + b + c + d + e == a + (b + (c + (d + e)))
  {
  }

  // numbers the source gives the operators
  const COMP_L := 0
  const COMP_G := 1
  const COMP_E := 2
  const COMP_LE := 3
  const COMP_GE := 4
  const OP_LAND := 5
  const OP_LOR := 6
  const COMP_NE := 8

  /** The chain of tests on the operator's number; no test matches a lone `<`, `!` or `:`. */
  function Numbered(op: int): Option<BinOp> {
    if op == '*' as int then Some(Times)
    else if op == '/' as int then Some(Over)
    else if op == '&' as int then Some(BitAnd)
    else if op == '|' as int then Some(BitOr)
    else if op == '^' as int then Some(BitXor)
    else if op == '%' as int then Some(Modulo)
    else if op == COMP_E then Some(Equal)
    else if op == COMP_NE then Some(NotEqual)
    else if op == COMP_GE then Some(AtLeast)
    else if op == COMP_LE then Some(AtMost)
    else if op == COMP_G then Some(Above)
    else if op == OP_LAND then Some(AndAlso)
    else if op == OP_LOR then Some(OrElse)
    else None
  }

  function Named(op: int, c: char): BinOp {
    if Numbered(op).Some? then Numbered(op).value else Silent(c)
  }

  /** Operator characters that may have a second one. */
  predicate Compound(c: char) {
    c == '<' || c == '>' || c == '|' || c == '&' || c == ':' || c == '!'
  }

  predicate SecondTaken(s: string) {
    |s| >= 2 && (s[1] == '=' || s[1] == '|' || s[1] == '&')
  }

  function CompoundNumber(s: string): int
    requires s != []
  {
    var c := s[0];
    if |s| >= 2 && s[1] == '=' then
      if c == '<' then COMP_LE else if c == '>' then COMP_GE
      else if c == '!' then COMP_NE else if c == ':' then COMP_E else 0
    else if |s| >= 2 && s[1] == '|' then if c == '|' then OP_LOR else -1
    else if |s| >= 2 && s[1] == '&' then if c == '&' then OP_LAND else -1
    else if c == '<' then COMP_L else if c == '>' then COMP_G
    else if c == '&' then '&' as int else if c == '|' then '|' as int else 0
  }

  /** Reading an operator by the source's numbers. */
  lemma OperatorByNumber(s: string)
    requires s != [] && IsTermOperator(s[0])
    ensures var c := s[0];
            var code := if Compound(c) then CompoundNumber(s) else 0;
            Operator(s) ==
              if code == -1 then Rejected
              else Parsed(Named(if code != 0 then code else c as int, c),
                          EatBlanks(if Compound(c) && SecondTaken(s) then s[2..] else s[1..]))
  {
    hide EatBlanks;
  }

  function Reversed<T>(s: seq<T>): seq<T> {
    if s == [] then [] else Reversed(s[1..]) + [s[0]]
  }

  lemma ReversedCons<T>(x: T, s: seq<T>)
    ensures Reversed([x] + s) == Reversed(s) + [x]
  {
    assert ([x] + s)[1..] == s;
  }

  /** A token of which `p` was read already. */
  function WithPrefix(p: string, r: Parsed<string>): Parsed<string> {
    if r.Parsed? then Parsed(p + r.v, r.rest) else Rejected
  }

  lemma NoPrefix(s: string)
    ensures WithPrefix([], Token(s)) == Token(s)
  {
    hide Token;
    if Token(s).Parsed? {
      assert [] + Token(s).v == Token(s).v;
    }
  }

  lemma {:induction false} TokenStep(p: string, c: char, t: string)
    requires !IsSeparator(c)
    ensures WithPrefix(p, Token([c] + t)) == WithPrefix(p + [c], Token(t))
  {
    hide IsSeparator;
    assert ([c] + t)[1..] == t;
    if Token(t).Parsed? {
      assert p + ([c] + Token(t).v) == (p + [c]) + Token(t).v;
    }
  }

  lemma TokenEnd(p: string, t: string)
    requires t == [] || IsSeparator(t[0])
    ensures WithPrefix(p, Token(t)) == if t == [] then Rejected else Parsed(p, EatBlanks(t))
  {
    hide IsSeparator;
    assert p + [] == p;
  }

  lemma ReversedLength<T>(s: seq<T>)
    ensures |Reversed(s)| == |s|
  {
  }

  class Compiler {
    var look: Option<char>
    var input: string
    var out: seq<Asm>
    var stuffPushedToStack: nat
    var fn: Option<string>
    var vars: set<string>
    var arity: map<string, nat>
    var line: nat
    var whilelines: nat
    var currentwhile: int
    const whileStack: array<nat>

    /** Before the first line of `text`, with its first character read ahead. */
    constructor (text: string)
      ensures Valid() && fresh(whileStack)
      ensures Text() == text && Cx() == START && line == 1 && out == [] && stuffPushedToStack == 0
      ensures Cs() == Counters(0, 0, [])
    {
      look := if text == [] then None else Some(text[0]);
      input := if text == [] then [] else text[1..];
      out, stuffPushedToStack, fn, vars, arity := [], 0, None, {}, map[];
      line, whilelines, currentwhile := 1, 0, MAX_NESTING;
      whileStack := new nat[MAX_NESTING + 1](_ => 0);
    }

    // ----- views -----

    /** What is unread, look-ahead first. */
    function Text(): string
      reads this
    {
      if look.Some? then [look.value] + input else []
    }

    function Cx(): Context
      reads this
    {
      Context(fn, vars, arity)
    }

    function Sc(): Scope
      reads this
      requires fn.Some?
    {
      ScopeOf(Cx())
    }

    /** Arity of the function being compiled. */
    function Arity(): nat
      reads this
    {
      if fn.Some? && fn.value in arity then arity[fn.value] else 0
    }

    // ----- characters -----

    method GetChar()
      modifies `look, `input
      ensures Text() == if old(Text()) == [] then [] else old(Text())[1..]
      ensures look.None? ==> input == []
    {
      if look.Some? && input != [] {
        look, input := Some(input[0]), input[1..];
      } else {
        look, input := None, [];
      }
    }

    method SkipBlanks()
      modifies `look, `input
      ensures Text() == EatBlanks(old(Text()))
    {
      while look.Some? && IsBlank(look.value)
        invariant EatBlanks(Text()) == EatBlanks(old(Text()))
        decreases |Text()|
      {
        GetChar();
      }
    }

    method Expect(c: char) returns (ok: bool)
      modifies `look, `input
      ensures Reads(Match(c, old(Text())), ok, Text())
    {
      if look != Some(c) {
        return false;
      }
      GetChar();
      SkipBlanks();
      return true;
    }

    // ----- numbers -----

    method GetHex() returns (result: u32)
      modifies `look, `input
      ensures Hexadecimal(old(Text()), 0) == Parsed(result, Text())
    {
      result := 0;
      while look.Some? && HexDigit(look.value).Some?
        invariant Hexadecimal(old(Text()), 0) == Hexadecimal(Text(), result)
        decreases |Text()|
      {
        result := Low32(result * 16 + HexDigit(look.value).value);
        GetChar();
      }
    }

    method GetBinary() returns (result: u32)
      modifies `look, `input
      ensures Binary2(old(Text()), 0) == Parsed(result, Text())
    {
      result := 0;
      while look == Some('0') || look == Some('1')
        invariant Binary2(old(Text()), 0) == Binary2(Text(), result)
        decreases |Text()|
      {
        result := Low32(result * 2 + Digit(look.value));
        GetChar();
      }
    }

    method GetOctal() returns (ok: bool, result: u32)
      modifies `look, `input
      ensures Reads(Octal(old(Text()), 0), ok, Text())
      ensures ok ==> result == Octal(old(Text()), 0).v
    {
      ok, result := true, 0;
      while look.Some? && IsDigit(look.value)
        invariant Octal(old(Text()), 0) == Octal(Text(), result)
        decreases |Text()|
      {
        if Digit(look.value) >= 8 {
          return false, 0;
        }
        result := Low32(result * 8 + Digit(look.value));
        GetChar();
      }
    }

    method GetDecimal() returns (result: u32)
      modifies `look, `input
      ensures Decimal(old(Text()), 0) == Parsed(result, Text())
    {
      result := 0;
      while look.Some? && IsDigit(look.value)
        invariant Decimal(old(Text()), 0) == Decimal(Text(), result)
        decreases |Text()|
      {
        result := Low32(result * 10 + Digit(look.value));
        GetChar();
      }
    }

    method GetPrefixed(prefix: char) returns (ok: bool, result: u32)
      requires prefix == 'x' || prefix == 'o' || prefix == 'b'
      modifies `look, `input
      ensures var r := if prefix == 'x' then Hexadecimal(old(Text()), 0)
                       else if prefix == 'o' then Octal(old(Text()), 0) else Binary2(old(Text()), 0);
              Reads(ThenBlanks(r), ok, Text()) && (ok ==> result == r.v)
    {
      ok := true;
      if prefix == 'x' {
        result := GetHex();
      } else if prefix == 'o' {
        ok, result := GetOctal();
      } else {
        result := GetBinary();
      }
      SkipBlanks();
    }

    method GetUnprefixed() returns (ok: bool, result: u32)
      modifies `look, `input
      ensures var s := old(Text());
              if s == [] || !IsDigit(s[0]) then !ok
              else
                var r := Decimal(s[1..], Digit(s[0]));
                if r.rest != [] && r.rest[0] == '.' then !ok
                else ok && result == r.v && Text() == EatBlanks(r.rest)
    {
      if look.None? || !IsDigit(look.value) {
        return false, 0;
      }
      ghost var s := Text();
      assert Decimal(s, 0) == Decimal(s[1..], Digit(s[0]));
      result := GetDecimal();
      if look == Some('.') {
        return false, 0;
      }
      SkipBlanks();
      ok := true;
    }

    method GetNum() returns (ok: bool, result: u32)
      modifies `look, `input
      ensures Reads(Number(old(Text())), ok, Text())
      ensures ok ==> result == Number(old(Text())).v
    {
      hide Decimal, Hexadecimal, Octal, Binary2, EatBlanks;
      ghost var s := Text();
      if look == Some('0') && input != [] {
        var prefix := Lower(input[0]);
        input := input[1..];
        assert s[2..] == input;
        if prefix == 'x' || prefix == 'o' || prefix == 'b' {
          GetChar();
          assert Text() == s[2..];
          ok, result := GetPrefixed(prefix);
          return;
        }
        input := [prefix] + input;
        assert Text() == [s[0], prefix] + s[2..];
      }
      ok, result := GetUnprefixed();
    }

    // ----- tokens -----

    /** A token must end before the file does: the source would read on for ever. */
    method NextToken() returns (ok: bool, token: string)
      modifies `look, `input
      ensures Reads(Token(old(Text())), ok, Text())
      ensures ok ==> token == Token(old(Text())).v
    {
      hide IsSeparator, EatBlanks, Token, WithPrefix;
      ghost var s := Text();
      token := [];
      NoPrefix(s);
      while look.Some? && !IsSeparator(look.value)
        invariant Token(s) == WithPrefix(token, Token(Text()))
        decreases |Text()|
      {
        var c := look.value;
        assert Text() == [c] + Text()[1..];
        TokenStep(token, c, Text()[1..]);
        GetChar();
        token := token + [c];
      }
      TokenEnd(token, Text());
      ok := look.Some?;
      SkipBlanks();
    }

    // ----- operators -----

    /** Reads the second character of an operator. When it is not part of the
        operator it is put back, and stays the look-ahead as well. -1: error. */
    method GetComparisonOperator() returns (code: int)
      requires look.Some? && Compound(look.value)
      modifies `look, `input
      ensures code == CompoundNumber(old(Text()))
      ensures code != -1 ==> Text() == if SecondTaken(old(Text())) then old(Text())[1..]
                                       else if |old(Text())| >= 2 then [old(Text())[1]] + old(Text())[1..] else []
    {
      var c := look.value;
      ghost var s := Text();
      GetChar();
      code := 0;
      if look == Some('=') {
        code := if c == '<' then COMP_LE else if c == '>' then COMP_GE
                else if c == '!' then COMP_NE else if c == ':' then COMP_E else 0;
      } else if look == Some('|') {
        code := if c == '|' then OP_LOR else -1;
      } else if look == Some('&') {
        code := if c == '&' then OP_LAND else -1;
      } else {
        code := if c == '<' then COMP_L else if c == '>' then COMP_G
                else if c == '&' then '&' as int else if c == '|' then '|' as int else 0;
        if look.Some? {
          input := [look.value] + input;
          assert Text() == [s[1]] + s[1..];
        }
      }
    }

    /** Reads an operator up to its right operand; `op` is its number. */
    method GetOperator() returns (ok: bool, op: int)
      requires look.Some? && IsTermOperator(look.value)
      modifies `look, `input
      ensures Reads(Operator(old(Text())), ok, Text())
      ensures ok ==> Operator(old(Text())).v == Named(op, old(look.value))
    {
      hide EatBlanks, CompoundNumber, Operator, Named;
      ghost var s := Text();
      OperatorByNumber(s);
      var c := look.value;
      op := c as int;
      ok := true;
      if Compound(c) {
        var code := GetComparisonOperator();
        if code == -1 {
          ok := false;
          return;
        }
        if code != 0 {
          op := code;
        }
      }
      GetChar();
      assert Text() == if SecondTaken(s) && Compound(c) then s[2..] else s[1..];
      SkipBlanks();
    }

    // ----- expressions -----

    /** What compiling an expression-like text does: it consumes what is read
        and appends the code of the tree that was read. */
    ghost predicate Did(r: Parsed<Expr>, ok: bool, n: nat, out0: seq<Asm>, k0: nat)
      reads this
    {
      Reads(r, ok, Text()) && (ok ==> Prints(r.v, n, out0, k0, out, stuffPushedToStack))
    }

    method DoExpression() returns (ok: bool)
      requires fn.Some?
      modifies `look, `input, `out, `stuffPushedToStack
      ensures Did(ParseExpr(Sc(), old(Text())), ok, Arity(), old(out), old(stuffPushedToStack))
      decreases |Text()|, 4
    {
      hide ParseTerm, ExprCode, Counter, EatBlanks, OperatorCode;
      ghost var sc, s, n, out0, k0 := Sc(), Text(), Arity(), out, stuffPushedToStack;
      ghost var left := Zero;
      if look.Some? && IsSign(look.value) {
        out := out + [Load(1, 0)];
        ZeroCode(n, k0);
      } else {
        ok := DoTerm();
        if !ok {
          return;
        }
        left := ParseTerm(sc, s).v;
      }
      while look.Some? && IsSign(look.value)
        invariant fn.Some? && Sc() == sc && Arity() == n
        invariant |Text()| <= |s|
        invariant ParseExpr(sc, s) == ExprTail(sc, left, Text())
        invariant Prints(left, n, out0, k0, out, stuffPushedToStack)
        decreases |Text()|
      {
        var op := if look.value == '+' then Plus else Minus;
        ghost var t := Text();
        ghost var out1, k1 := out, stuffPushedToStack;
        out := out + [Op(Reg(Pushar, 1))];
        ok := Expect(look.value);
        ok := DoTerm();
        if !ok {
          return;
        }
        ghost var right := ParseTerm(sc, EatBlanks(t[1..])).v;
        PrintsBinary(op, left, right, n, out0, k0, out1, k1, out, stuffPushedToStack);
        out := out + ([Op(Reg(Popar, 2))] + OperatorCode(op));
        left := Binary(op, left, right);
      }
      ok := true;
    }

    method DoTerm() returns (ok: bool)
      requires fn.Some?
      modifies `look, `input, `out, `stuffPushedToStack
      ensures Did(ParseTerm(Sc(), old(Text())), ok, Arity(), old(out), old(stuffPushedToStack))
      decreases |Text()|, 2
    {
      hide ParseFactor, ExprCode, Counter, EatBlanks, OperatorCode, Operator;
      ghost var sc, s, n, out0, k0 := Sc(), Text(), Arity(), out, stuffPushedToStack;
      ok := DoFactor();
      if !ok {
        return;
      }
      ghost var left := ParseFactor(sc, s).v;
      while look.Some? && IsTermOperator(look.value)
        invariant fn.Some? && Sc() == sc && Arity() == n
        invariant |Text()| < |s|
        invariant ParseTerm(sc, s) == TermTail(sc, left, Text())
        invariant Prints(left, n, out0, k0, out, stuffPushedToStack)
        decreases |Text()|
      {
        ghost var t, out1, k1 := Text(), out, stuffPushedToStack;
        var c, op := look.value, 0;
        ok, op := GetOperator();
        if !ok {
          return;
        }
        out := out + [Op(Reg(Pushar, 1))];
        ghost var more := Text();
        ok := DoFactor();
        if !ok {
          return;
        }
        var bin := Named(op, c);
        ghost var right := ParseFactor(sc, more).v;
        PrintsBinary(bin, left, right, n, out0, k0, out1, k1, out, stuffPushedToStack);
        out := out + ([Op(Reg(Popar, 2))] + OperatorCode(bin));
        left := Binary(bin, left, right);
      }
      ok := true;
    }

    method DoParenthesized() returns (ok: bool)
      requires fn.Some? && look.Some?
      modifies `look, `input, `out, `stuffPushedToStack
      ensures Did(InParentheses(Sc(), old(Text())), ok, Arity(), old(out), old(stuffPushedToStack))
      decreases |Text()|, 0
    {
      hide ParseExpr, ExprCode, Counter, EatBlanks;
      ok := Expect('(');
      if ok {
        ok := DoExpression();
        if ok {
          ok := Expect(')');
        }
      }
    }

    method DoFactor() returns (ok: bool)
      requires fn.Some?
      modifies `look, `input, `out, `stuffPushedToStack
      ensures Did(ParseFactor(Sc(), old(Text())), ok, Arity(), old(out), old(stuffPushedToStack))
      decreases |Text()|, 1
    {
      hide ParseExpr, ExprCode, Counter, EatBlanks, InParentheses, ParseName, ParseCall, ParseCharacter, Number;
      ghost var sc, s, n, out0, k0 := Sc(), Text(), Arity(), out, stuffPushedToStack;
      if look == Some('(') {
        ok := DoParenthesized();
        if ok {
          GroupCode(InParentheses(sc, s).v, n, k0);
        }
      } else if look.Some? && IsAlpha(look.value) {
        ok := GenerateIdentifier();
      } else if look == Some('$') {
        ok := DoArgument();
      } else if look == Some('\'') {
        ok := DoCharacter();
      } else if look == Some('@') {
        GetChar();
        assert Text() == s[1..];
        ok := DoFunctionCall();
      } else if look == Some('[') || look == Some('"') || look.None? {
        ok := false;
      } else {
        var v;
        ok, v := GetNum();
        out := out + [Load(1, v)];
        NumberCode(v, n, k0);
      }
    }

    /** `$` and the number of the argument. */
    method DoArgument() returns (ok: bool)
      requires fn.Some? && look == Some('$')
      modifies `look, `input, `out, `stuffPushedToStack
      ensures Did(ParseFactor(Sc(), old(Text())), ok, Arity(), old(out), old(stuffPushedToStack))
      decreases |Text()|, 0
    {
      hide ParseExpr, ExprCode, Counter, ArgumentTail;
      ghost var sc, s, n, out0, k0 := Sc(), Text(), Arity(), out, stuffPushedToStack;
      GetChar();
      assert Text() == s[1..];
      ok := DoExpression();
      if ok {
        out := out + ArgumentTail(Arity(), stuffPushedToStack);
        ArgumentCode(ParseExpr(sc, s[1..]).v, n, k0, out0);
      }
    }

    method DoCharacter() returns (ok: bool)
      requires fn.Some? && look == Some('\'')
      modifies `look, `input, `out
      ensures Did(ParseCharacter(old(Text())), ok, Arity(), old(out), old(stuffPushedToStack))
    {
      hide ExprCode, Counter, EatBlanks;
      ghost var s := Text();
      GetChar();
      assert Text() == s[1..];
      if look.None? {
        return false;
      }
      if look == Some('\'') {
        out := out + [Load(1, 0)];
        NumberCode(0, Arity(), stuffPushedToStack);
        return true;
      }
      var v := Low32(look.value as int);
      out := out + [Load(1, v)];
      NumberCode(v, Arity(), stuffPushedToStack);
      GetChar();
      assert Text() == s[2..];
      ok := Expect('\'');
    }

    method DoUnary(complement: bool) returns (ok: bool)
      requires fn.Some?
      modifies `look, `input, `out, `stuffPushedToStack
      ensures Did(ParseUnary(Sc(), complement, old(Text())), ok, Arity(), old(out), old(stuffPushedToStack))
      decreases |Text()|, 1
    {
      hide ExprCode, Counter, InParentheses, UnaryTail;
      ghost var sc, s, n, out0, k0 := Sc(), Text(), Arity(), out, stuffPushedToStack;
      if look.None? {
        return false;
      }
      ok := DoParenthesized();
      if ok {
        ghost var e := InParentheses(sc, s).v;
        out := out + UnaryTail(if complement then Not else Neg);
        UnaryCode(complement, e, n, k0, out0);
      }
    }

    /** A variable, `not(...)` or `neg(...)`. */
    method GenerateIdentifier() returns (ok: bool)
      requires fn.Some? && look.Some? && IsAlpha(look.value)
      modifies `look, `input, `out, `stuffPushedToStack
      ensures Did(ParseName(Sc(), old(Text())), ok, Arity(), old(out), old(stuffPushedToStack))
      decreases |Text()|, 0
    {
      hide ExprCode, Counter, EatBlanks, Token, ParseUnary, LoadVariable, IsKeyword, FullName;
      ghost var sc, s, n, out0, k0 := Sc(), Text(), Arity(), out, stuffPushedToStack;
      var name;
      ok, name := NextToken();
      if !ok {
        return;
      }
      assert |Text()| < |s|;
      if name == "not" || name == "neg" {
        ok := DoUnary(name == "not");
      } else if IsKeyword(name) || FullName(Sc(), name) !in vars {
        ok := false;
      } else {
        out := out + LoadVariable(FullName(Sc(), name));
        VariableCode(FullName(Sc(), name), n, k0);
      }
    }

    /** After `@`: the function's name and the opening parenthesis. */
    method DoCallHead() returns (ok: bool, name: string)
      requires fn.Some?
      modifies `look, `input
      ensures Reads(CallHead(Sc(), old(Text())), ok, Text())
      ensures ok ==> name == CallHead(Sc(), old(Text())).v
    {
      hide EatBlanks, Token;
      ok, name := NextToken();
      if ok {
        if name == "raw_call" || name !in arity {
          ok := false;
        } else {
          ok := Expect('(');
        }
      }
    }

    method DoFunctionCall() returns (ok: bool)
      requires fn.Some?
      modifies `look, `input, `out, `stuffPushedToStack
      ensures Did(ParseCall(Sc(), old(Text())), ok, Arity(), old(out), old(stuffPushedToStack))
      decreases |Text()|, 0
    {
      hide ExprCode, Counter, CallHead, CallArguments, AfterCall, SaveUtility, ArgsCode;
      ghost var sc, s, n, out0 := Sc(), Text(), Arity(), out;
      stuffPushedToStack := 0;
      var name;
      ok, name := DoCallHead();
      if !ok {
        return;
      }
      ghost var t := Text();
      ok := DoArguments(arity[name]);
      if !ok {
        return;
      }
      out := out + SaveUtility();
      out := out + [CallTo(Entry(name))];
      out := out + AfterCall(arity[name]);
      stuffPushedToStack := 0;
      InvokeText(name, CallArguments(sc, arity[name], t).v, n, out0);
    }

    method DoArguments(count: nat) returns (ok: bool)
      requires fn.Some? && stuffPushedToStack == 0
      modifies `look, `input, `out, `stuffPushedToStack
      ensures var r := CallArguments(Sc(), count, old(Text()));
              Reads(r, ok, Text()) && (ok ==> out == old(out) + ArgsCode(r.v, Arity(), 0))
      decreases |Text()|, 5
    {
      hide ExprCode, Counter, EatBlanks, ParseExpr, ArgsCode, ParseArgs, ArgsSoFar, ArgsCounter;
      ghost var sc, s, n, out0 := Sc(), Text(), Arity(), out;
      ghost var es: seq<Expr> := [];
      NoArgs(n);
      var i := 0;
      if count == 0 {
        ok := Expect(')');
        return;
      }
      ArgsBegin(sc, count, s);
      while i < count
        invariant fn.Some? && Sc() == sc && Arity() == n
        invariant 0 <= i <= count && |Text()| <= |s|
        invariant out == out0 + ArgsCode(es, n, 0) && stuffPushedToStack == ArgsCounter(es, 0)
        invariant ArgsSoFar(sc, count, s, i, es, Text())
      {
        ghost var t, out1, k1 := Text(), out, stuffPushedToStack;
        ArgsStep(sc, count, s, i, es, t);
        ok := DoExpression();
        if !ok {
          return;
        }
        ok := Expect(if i < count - 1 then ',' else ')');
        if !ok {
          return;
        }
        ghost var e := ParseExpr(sc, t).v;
        OneMoreArg(es, e, n, out0, out1, k1, out);
        out := out + [PushReg(1)];
        stuffPushedToStack := stuffPushedToStack + 1;
        es := es + [e];
        i := i + 1;
      }
      ArgsEnd(sc, count, s, es, Text());
      ok := true;
    }

    // ----- statements -----

    /** The table of open loops fills from its end; -1 stands for the wrapped
        index once it is full. */
    ghost predicate Valid()
      reads this
    {
      whileStack.Length == MAX_NESTING + 1 && -1 <= currentwhile <= MAX_NESTING
    }

    /** Numbers of the open loops, innermost last. */
    ghost function Open(): seq<nat>
      reads this, whileStack
      requires Valid()
    {
      Reversed(whileStack[currentwhile + 1..])
    }

    ghost function Cs(): Counters
      reads this, whileStack
      requires Valid()
    {
      Counters(Arity(), whilelines, Open())
    }

    method SkipSpaces()
      modifies `look, `input
      ensures Text() == SkipSpace(old(Text()))
    {
      while look == Some(' ') || look == Some('\t') || look == Some('\n')
        invariant SkipSpace(Text()) == SkipSpace(old(Text()))
        decreases |Text()|
      {
        GetChar();
      }
    }

    method GetKeyword() returns (ok: bool, token: string)
      modifies `look, `input
      ensures Reads(Keyword(old(Text())), ok, Text())
      ensures ok ==> token == Keyword(old(Text())).v
    {
      hide SkipSpace, EatBlanks, IsAlpha, IsKeywordChar, Lower;
      token := [];
      SkipSpaces();
      if look.None? || !(IsAlpha(look.value) || look.value == '#') {
        return false, [];
      }
      ghost var s := Text();
      var i := 0;
      while i < 10 && look.Some? && IsKeywordChar(look.value)
        invariant 0 <= i <= 10
        invariant Letters(s, 10).v == token + Letters(Text(), 10 - i).v
        invariant Letters(s, 10).rest == Letters(Text(), 10 - i).rest
      {
        ghost var c, more := Lower(look.value), Letters(Text()[1..], 9 - i).v;
        assert token + ([c] + more) == (token + [c]) + more;
        token := token + [Lower(look.value)];
        GetChar();
        i := i + 1;
      }
      SkipBlanks();
      ok := true;
    }

    method DoCondition() returns (ok: bool)
      requires fn.Some? && stuffPushedToStack == 0
      modifies `look, `input, `out, `stuffPushedToStack
      ensures var r := Condition(Sc(), old(Text()));
              Reads(r, ok, Text()) &&
              (ok ==> out == old(out) + ExprCode(r.v, Arity(), 0) + CompareZero() && stuffPushedToStack == 0)
    {
      hide InParentheses, ExprCode, CompareZero;
      if look.None? {
        return false;
      }
      ghost var r := InParentheses(Sc(), Text());
      ok := DoParenthesized();
      if ok {
        CounterZero(r.v);
        out := out + CompareZero();
      }
    }

    /** The entry the table holds for the loop just read becomes the innermost open loop. */
    method CountLoop()
      requires Valid() && 0 <= currentwhile && whileStack[currentwhile] == whilelines
      modifies `whilelines, `currentwhile
      ensures Valid() && Cs() == old(Cs()).(next := old(whilelines) + 1, open := old(Open()) + [old(whilelines)])
    {
      hide Reversed;
      ghost var rest := whileStack[currentwhile + 1..];
      assert whileStack[currentwhile..] == [whilelines] + rest;
      ReversedCons(whilelines, rest);
      whilelines := whilelines + 1;
      currentwhile := currentwhile - 1;
    }

    lemma TableFull()
      requires Valid()
      ensures |Open()| == MAX_NESTING - currentwhile
    {
      ReversedLength(whileStack[currentwhile + 1..]);
    }

    method DoWhile() returns (ok: bool)
      requires Valid() && fn.Some? && stuffPushedToStack == 0
      modifies this, whileStack
      ensures Valid() && Cx() == old(Cx()) && line == old(line)
      ensures var r := Condition(old(Sc()), old(Text()));
              if !r.Parsed? || EmitLine(WhileLine(r.v), old(Cs())).None? then !ok
              else
                ok && Text() == r.rest && stuffPushedToStack == 0 &&
                var (code, k) := EmitLine(WhileLine(r.v), old(Cs())).value;
                out == old(out) + code && Cs() == k
    {
      hide Condition, ExprCode, CompareZero, Reversed, EmitLine;
      ghost var out0, w, k0 := out, whilelines, Cs();
      ghost var r := Condition(Sc(), Text());
      TableFull();
      if r.Parsed? {
        WhileText(r.v, k0, out0);
      }
      if currentwhile < 0 {
        return false;
      }
      out := out + [Label(WhileTop(whilelines))];
      whileStack[currentwhile] := whilelines;
      assert Cs() == k0 by {
        assert whileStack[currentwhile + 1..] == old(whileStack[currentwhile + 1..]);
      }
      ok := DoCondition();
      if !ok {
        return;
      }
      out := out + [JumpIfEqualNear(WhileEnd(whilelines))];
      CountLoop();
    }

    method DoEndw() returns (ok: bool)
      requires Valid()
      modifies `out, `currentwhile
      ensures Valid()
      ensures var e := EmitLine(EndwLine, old(Cs()));
              if e.None? then !ok else ok && out == old(out) + e.value.0 && Cs() == e.value.1
    {
      if currentwhile == MAX_NESTING {
        return false;
      }
      ghost var open0, out0 := Open(), out;
      var now := whileStack[currentwhile + 1];
      out := out + [JumpNear(WhileTop(now))];
      out := out + [Label(WhileEnd(now))];
      currentwhile := currentwhile + 1;
      assert old(whileStack[currentwhile + 1..]) == [now] + whileStack[currentwhile + 1..];
      ReversedCons(now, whileStack[currentwhile + 1..]);
      ok := true;
    }

    method DoReturn() returns (ok: bool)
      requires fn.Some? && stuffPushedToStack == 0
      modifies `look, `input, `out, `stuffPushedToStack
      ensures var r := ParseExpr(Sc(), old(Text()));
              Reads(r, ok, Text()) &&
              (ok ==> out == old(out) + StmtCode(Return(r.v), Arity(), 0) && stuffPushedToStack == 0)
    {
      hide ParseExpr, ExprCode;
      ghost var e, out0 := ParseExpr(Sc(), Text()), out;
      ok := DoExpression();
      if ok {
        CounterZero(e.v);
        out := out + Move(7, 1);
        out := out + [Do0(Ret)];
        assert out == out0 + (ExprCode(e.v, Arity(), 0) + (Move(7, 1) + [Do0(Ret)]));
      }
    }

    method DoLet() returns (ok: bool)
      requires fn.Some? && stuffPushedToStack == 0
      modifies `look, `input, `out, `stuffPushedToStack, `vars
      ensures var r := ReadLet(old(Cx()), old(Text()));
              Reads(r, ok, Text()) &&
              (ok ==> out == old(out) + StmtCode(r.v.0, Arity(), 0) && stuffPushedToStack == 0 && Cx() == r.v.1)
    {
      hide ParseExpr, ExprCode, Token, EatBlanks, IsKeyword, FullName, StmtCode;
      var bracket := look == Some('[');
      var name;
      ok, name := NextToken();
      if !ok || bracket || IsKeyword(name) {
        return false;
      }
      var x := FullName(Sc(), name);
      vars := vars + {x};
      ok := Expect('=');
      if !ok {
        return;
      }
      ghost var e, out0 := ParseExpr(Sc(), Text()), out;
      ok := DoExpression();
      if ok {
        CounterZero(e.v);
        out := out + [LoadAddress(0, Cell(x))];
        out := out + [Do0(Stos(Dword))];
        LetText(x, e.v, Arity(), out0);
      }
    }

    method DoCallStatement() returns (ok: bool)
      requires stuffPushedToStack == 0
      modifies `look, `input, `out, `stuffPushedToStack
      ensures var r := ReadCall(Cx(), old(Text()));
              Reads(r, ok, Text()) &&
              (ok ==> out == old(out) + StmtCode(r.v.0, Arity(), 0) && stuffPushedToStack == 0 && Cx() == r.v.1)
    {
      hide ParseCall, CallCode;
      if fn.None? {
        return false;
      }
      ok := DoFunctionCall();
    }

    /** The statements that may follow an `if`, after their keyword. */
    method DoSimple(keyword: string) returns (ok: bool)
      requires fn.Some? && stuffPushedToStack == 0
      modifies `look, `input, `out, `stuffPushedToStack, `vars
      ensures var r := ReadSimple(old(Cx()), keyword, old(Text()));
              Reads(r, ok, Text()) &&
              (ok ==> out == old(out) + StmtCode(r.v.0, Arity(), 0) && stuffPushedToStack == 0 && Cx() == r.v.1)
    {
      hide ParseExpr, ReadLet, StmtCode;
      if keyword == "let" {
        ok := DoLet();
      } else if keyword == "return" {
        ok := DoReturn();
      } else {
        ok := false;
      }
    }

    method DoOneLine() returns (ok: bool)
      requires stuffPushedToStack == 0
      modifies `look, `input, `out, `stuffPushedToStack, `vars
      ensures var r := ReadOneLine(old(Cx()), old(Text()));
              Reads(r, ok, Text()) &&
              (ok ==> out == old(out) + StmtCode(r.v.0, Arity(), 0) && stuffPushedToStack == 0 && Cx() == r.v.1)
    {
      hide ReadCall, ReadSimple, StmtCode, Keyword, EatBlanks;
      SkipBlanks();
      ghost var t := Text();
      if look == Some('@') {
        GetChar();
        assert Text() == t[1..];
        ok := DoCallStatement();
        return;
      }
      var keyword;
      ok, keyword := GetKeyword();
      if !ok || fn.None? {
        return false;
      }
      ok := DoSimple(keyword);
    }

    method DoIf() returns (ok: bool)
      requires fn.Some? && stuffPushedToStack == 0
      modifies `look, `input, `out, `stuffPushedToStack, `vars
      ensures var r := ReadIf(old(Cx()), line, old(Text()));
              Reads(r, ok, Text()) &&
              (ok ==> out == old(out) + StmtCode(r.v.0, Arity(), 0) && stuffPushedToStack == 0 && Cx() == r.v.1)
    {
      hide Condition, ReadOneLine, ExprCode, CompareZero;
      ghost var out0, c := out, Condition(Sc(), Text());
      ok := DoCondition();
      if !ok {
        return;
      }
      out := out + [JumpIfEqual(IfEnd(line))];
      ghost var out1, x := out, ReadOneLine(Cx(), Text());
      ok := DoOneLine();
      if !ok {
        return;
      }
      out := out + [Label(IfEnd(line))];
      IfText(c.v, x.v.0, line, Arity(), out0);
    }

    method GetFunctionHead() returns (ok: bool, name: string, n: u32)
      modifies `look, `input
      ensures Reads(FunctionHead(old(Text())), ok, Text())
      ensures ok ==> (name, n) == FunctionHead(old(Text())).v
    {
      hide Token, EatBlanks, Number;
      n := 0;
      ok, name := NextToken();
      if ok {
        ok := Expect('(');
      }
      if ok {
        ok, n := GetNum();
      }
      if ok {
        ok := Expect(')');
      }
    }

    method DoFunc() returns (ok: bool)
      modifies `look, `input, `out, `fn, `arity
      ensures var r := ReadFunction(old(Cx()), old(Text()));
              Reads(r, ok, Text()) &&
              (ok ==> out == old(out) + ([Label(Entry(r.v.0.f))] + Prelude(r.v.0.f)) &&
                      Cx() == r.v.1 && Arity() == r.v.0.n)
    {
      hide FunctionHead, Prelude;
      var name, n;
      ok, name, n := GetFunctionHead();
      if !ok || name in arity {
        return false;
      }
      arity := arity[name := n];
      ghost var out0 := out;
      out := out + [Label(Entry(name))];
      out := out + Prelude(name);
      assert out == out0 + ([Label(Entry(name))] + Prelude(name));
      fn := Some(name);
    }

    /** A line of text does what reading and emitting that line says. */
    ghost predicate DidLine(r: Parsed<(Line, Context)>, k0: Counters, ok: bool, out0: seq<Asm>)
      reads this, whileStack
      requires Valid()
    {
      if !r.Parsed? || EmitLine(r.v.0, k0).None? then !ok
      else
        && ok && Text() == r.rest && Cx() == r.v.1 && stuffPushedToStack == 0
        && out == out0 + EmitLine(r.v.0, k0).value.0 && Cs() == EmitLine(r.v.0, k0).value.1
    }

    /** Statements that leave the open loops and the function as they are. */
    method DoPlainLine(keyword: string) returns (ok: bool)
      requires Valid() && fn.Some? && stuffPushedToStack == 0
      modifies this, whileStack
      ensures Valid() && line == old(line)
      ensures DidLine(AsPlain(if keyword == "if" then ReadIf(old(Cx()), old(line), old(Text()))
                              else ReadSimple(old(Cx()), keyword, old(Text()))), old(Cs()), ok, old(out))
    {
      hide ReadIf, ReadSimple, StmtCode, ExprCode;
      ghost var k0, cx0, s := Cs(), Cx(), Text();
      if keyword == "if" {
        ok := DoIf();
        if ok {
          SameInAnyLoop(ReadIf(cx0, line, s).v.0, k0.n, k0.next);
        }
      } else {
        ok := DoSimple(keyword);
        if ok {
          SameInAnyLoop(ReadSimple(cx0, keyword, s).v.0, k0.n, k0.next);
        }
      }
    }

    method DoAfterKeyword(keyword: string) returns (ok: bool)
      requires Valid() && stuffPushedToStack == 0
      modifies this, whileStack
      ensures Valid() && line == old(line)
      ensures DidLine(AfterKeyword(old(Cx()), old(line), keyword, old(Text())), old(Cs()), ok, old(out))
    {
      hide ReadFunction, ReadIf, ReadSimple, Condition, StmtCode, ExprCode;
      ghost var k0, cx0, s := Cs(), Cx(), Text();
      if keyword == "function" {
        ok := DoFunc();
      } else if fn.None? {
        ok := false;
      } else if keyword == "endf" {
        fn := None;
        ok := true;
      } else if keyword == "endw" {
        ok := DoEndw();
      } else if keyword == "while" {
        ok := DoWhile();
      } else {
        ok := DoPlainLine(keyword);
      }
    }

    method DoCallLine() returns (ok: bool)
      requires Valid() && stuffPushedToStack == 0
      modifies `look, `input, `out, `stuffPushedToStack
      ensures DidLine(AsPlain(ReadCall(old(Cx()), old(Text()))), old(Cs()), ok, old(out))
    {
      hide ReadCall, StmtCode;
      ghost var k0, r := Cs(), ReadCall(Cx(), Text());
      ok := DoCallStatement();
      if ok {
        SameInAnyLoop(r.v.0, k0.n, k0.next);
      }
    }

    method DoStatement() returns (ok: bool)
      requires Valid() && stuffPushedToStack == 0
      modifies this, whileStack
      ensures Valid() && line == old(line)
      ensures DidLine(ReadStatement(old(Cx()), old(line), old(Text())), old(Cs()), ok, old(out))
    {
      hide ReadCall, AfterKeyword, EatBlanks, Keyword, StmtCode, EmitLine, Reversed;
      SkipBlanks();
      ghost var t := Text();
      if look == Some('@') {
        GetChar();
        assert Text() == t[1..];
        ok := DoCallLine();
        return;
      }
      var keyword;
      ok, keyword := GetKeyword();
      if ok {
        ok := DoAfterKeyword(keyword);
      }
    }

    method SkipEmptyLines()
      modifies `look, `input, `line
      ensures Text() == SkipNewlines(old(Text()))
      ensures line == old(line) + |old(Text())| - |Text()|
    {
      while look == Some('\n')
        invariant SkipNewlines(Text()) == SkipNewlines(old(Text()))
        invariant line == old(line) + |old(Text())| - |Text()|
        decreases |Text()|
      {
        line := line + 1;
        GetChar();
      }
    }

    /** Looks for `run`; `more` says whether a statement follows. */
    method LookForRun() returns (ok: bool, more: bool)
      requires look.Some?
      modifies `look, `input
      ensures var c := CheckRun(old(Text()));
              match c
              case EndOfProgram => ok && !more
              case Garbled => !ok
              case GoOn(s) => ok && more && Text() == s
    {
      ghost var s := Text();
      if Lower(look.value) != 'r' {
        return true, true;
      }
      GetChar();
      assert Text() == s[1..];
      if look.Some? && Lower(look.value) == 'u' {
        GetChar();
        assert Text() == s[2..];
        return look.Some? && Lower(look.value) == 'n', false;
      }
      if look.Some? {
        input := [look.value] + input;
      }
      look := Some('r');
      assert Text() == ['r'] + s[1..];
      return true, true;
    }

    /** One line of text; `more` is false at the end of the program. */
    method DoLine() returns (ok: bool, more: bool, ghost piece: seq<Asm>)
      requires Valid() && stuffPushedToStack == 0
      modifies this, whileStack
      ensures Valid()
      ensures var e := CompiledText(old(Cx()), old(line), old(Text()), old(Cs()));
              if !ok then e.None?
              else if !more then e == Some(([], Cs())) && out == old(out)
              else
                && |Text()| < old(|Text()|) && stuffPushedToStack == 0
                && out == old(out) + piece
                && e == Prepend(piece, CompiledText(Cx(), line, Text(), Cs()))
    {
      hide ReadStatement, EmitLine, SkipNewlines, CheckRun, Reversed, CompiledText;
      ghost var s, k, here := Text(), Cs(), line;
      piece := [];
      SkipEmptyLines();
      if look.None? {
        TextEnds(Cx(), here, s, k);
        return true, false, [];
      }
      ok, more := LookForRun();
      if !ok || !more {
        TextEnds(Cx(), here, s, k);
        return;
      }
      ghost var t, cx := Text(), Cx();
      ghost var x := ReadStatement(cx, line, t);
      ok := DoStatement();
      if !ok || look != Some('\n') {
        TextStops(cx, here, s, k, t);
        return false, false, [];
      }
      GetChar();
      line := line + 1;
      piece := EmitLine(x.v.0, k).value.0;
      assert x.rest == ['\n'] + Text();
      NextLine(cx, here, s, k, t, Text(), piece, Cs());
    }

    /** The whole text. What is printed is what its lines call for, in order. */
    method CompileText() returns (ok: bool)
      requires Valid() && stuffPushedToStack == 0
      modifies this, whileStack
      ensures Valid()
      ensures var e := CompiledText(old(Cx()), old(line), old(Text()), old(Cs()));
              ok == e.Some? && (ok ==> out == old(out) + e.value.0 && Cs() == e.value.1)
    {
      hide *;
      ghost var out0, goal := out, CompiledText(Cx(), line, Text(), Cs());
      ghost var code: seq<Asm> := [];
      NothingYet(goal);
      var more := true;
      while more
        invariant Valid() && (more ==> stuffPushedToStack == 0)
        invariant out == out0 + code
        invariant goal == Prepend(code, if more then CompiledText(Cx(), line, Text(), Cs()) else Some(([], Cs())))
        decreases more, |Text()|
      {
        ghost var piece;
        ok, more, piece := DoLine();
        if !ok {
          PrependEnd(code, Cs());
          return;
        }
        if more {
          PrependTwice(code, piece, CompiledText(Cx(), line, Text(), Cs()));
          code := code + piece;
        }
      }
      PrependEnd(code, Cs());
      ok := true;
    }
  }

  /** After `i` of `count` arguments, read as `es`, `t` is still to be read. */
  ghost predicate ArgsSoFar(sc: Scope, count: nat, s: string, i: nat, es: seq<Expr>, t: string) {
    && i <= count && count > 0
    && if i == count then ParseArgs(sc, count, s) == Parsed(es, t)
       else
         var whole, left := ParseArgs(sc, count, s), ParseArgs(sc, count - i, t);
         whole == if left.Parsed? then Parsed(es + left.v, left.rest) else Rejected
  }

  lemma ArgsBegin(sc: Scope, count: nat, s: string)
    requires count > 0
    ensures ArgsSoFar(sc, count, s, 0, [], s)
  {
    hide ParseArgs;
    var r := ParseArgs(sc, count, s);
    if r.Parsed? {
      assert [] + r.v == r.v;
    }
  }

  lemma ArgsStep(sc: Scope, count: nat, s: string, i: nat, es: seq<Expr>, t: string)
    requires ArgsSoFar(sc, count, s, i, es, t) && i < count
    ensures var e := ParseExpr(sc, t);
            var m := if e.Parsed? then Match(if i < count - 1 then ',' else ')', e.rest) else Rejected;
            if m.Parsed? then ArgsSoFar(sc, count, s, i + 1, es + [e.v], m.rest)
            else !ParseArgs(sc, count, s).Parsed?
  {
    hide ParseExpr, EatBlanks;
    var e := ParseExpr(sc, t);
    if e.Parsed? && i < count - 1 {
      var m := Match(',', e.rest);
      if m.Parsed? && ParseArgs(sc, count - i - 1, m.rest).Parsed? {
        var more := ParseArgs(sc, count - i - 1, m.rest).v;
        assert es + ([e.v] + more) == (es + [e.v]) + more;
      }
    }
  }

  lemma ArgsEnd(sc: Scope, count: nat, s: string, es: seq<Expr>, t: string)
    requires ArgsSoFar(sc, count, s, count, es, t)
    ensures ParseArgs(sc, count, s) == Parsed(es, t)
  {
  }

  /** `stuff_pushed_to_stack` after some arguments. */
  function ArgsCounter(es: seq<Expr>, k: nat): nat {
    if es == [] then k else ArgsCounter(es[1..], Counter(es[0], k) + 1)
  }

  lemma {:induction false} ArgsCodeAppend(es: seq<Expr>, e: Expr, n: nat, k: nat)
    ensures ArgsCode(es + [e], n, k) == ArgsCode(es, n, k) + (ExprCode(e, n, ArgsCounter(es, k)) + [PushReg(1)])
    ensures ArgsCounter(es + [e], k) == Counter(e, ArgsCounter(es, k)) + 1
    decreases |es|
  {
    hide ExprCode, Counter;
    if es == [] {
      assert ([] + [e])[1..] == [];
      assert ArgsCode([], n, Counter(e, k) + 1) == [];
    } else {
      assert (es + [e])[1..] == es[1..] + [e];
      ArgsCodeAppend(es[1..], e, n, Counter(es[0], k) + 1);
    }
  }

  lemma OneMoreArg(es: seq<Expr>, e: Expr, n: nat, out0: seq<Asm>, out1: seq<Asm>, k1: nat, out2: seq<Asm>)
    requires out1 == out0 + ArgsCode(es, n, 0) && k1 == ArgsCounter(es, 0)
    requires out2 == out1 + ExprCode(e, n, k1)
    ensures out2 + [PushReg(1)] == out0 + ArgsCode(es + [e], n, 0)
    ensures ArgsCounter(es + [e], 0) == Counter(e, k1) + 1
  {
    hide ExprCode, Counter, ArgsCode;
    ArgsCodeAppend(es, e, n, 0);
  }

  lemma NoArgs(n: nat)
    ensures ArgsCode([], n, 0) == [] && ArgsCounter([], 0) == 0
  {
  }

  lemma InvokeText(f: string, es: seq<Expr>, n: nat, out0: seq<Asm>)
    ensures ((out0 + ArgsCode(es, n, 0)) + SaveUtility()) + [CallTo(Entry(f))] + AfterCall(|es|)
            == out0 + ExprCode(Invoke(f, es), n, 0)
    ensures forall k :: ExprCode(Invoke(f, es), n, k) == ExprCode(Invoke(f, es), n, 0) && Counter(Invoke(f, es), k) == 0
  {
    hide SaveUtility, AfterCall, ArgsCode;
  }

  lemma GroupCode(e: Expr, n: nat, k: nat)
    ensures ExprCode(Group(e), n, k) == ExprCode(e, n, k) && Counter(Group(e), k) == Counter(e, k)
  {
  }

  lemma NumberCode(v: u32, n: nat, k: nat)
    ensures ExprCode(Num(v), n, k) == [Load(1, v)] && Counter(Num(v), k) == k
  {
  }

  lemma VariableCode(x: string, n: nat, k: nat)
    ensures ExprCode(Var(x), n, k) == LoadVariable(x) && Counter(Var(x), k) == k
  {
  }

  lemma ArgumentCode(e: Expr, n: nat, k: nat, out: seq<Asm>)
    ensures out + ExprCode(e, n, k) + ArgumentTail(n, Counter(e, k)) == out + ExprCode(Arg(e), n, k)
    ensures Counter(Arg(e), k) == Counter(e, k)
  {
    hide ArgumentTail;
    var tail := ArgumentTail(n, Counter(e, k));
    assert out + ExprCode(e, n, k) + tail == out + (ExprCode(e, n, k) + tail);
  }

  lemma UnaryCode(complement: bool, e: Expr, n: nat, k: nat, out: seq<Asm>)
    ensures var u := if complement then NotOf(e) else NegOf(e);
            out + ExprCode(e, n, k) + UnaryTail(if complement then Not else Neg) == out + ExprCode(u, n, k)
            && Counter(u, k) == Counter(e, k)
  {
    hide UnaryTail;
    var tail := UnaryTail(if complement then Not else Neg);
    assert out + ExprCode(e, n, k) + tail == out + (ExprCode(e, n, k) + tail);
  }

  lemma SameInAnyLoop(s: Stmt, n: nat, w: nat)
    requires !s.While?
    requires s.If? ==> OneLine(s.s)
    ensures StmtCode(s, n, w) == StmtCode(s, n, 0)
  {
  }

  lemma IfText(c: Expr, s: Stmt, line: nat, n: nat, out: seq<Asm>)
    ensures (out + ExprCode(c, n, 0) + CompareZero()) + [JumpIfEqual(IfEnd(line))] + StmtCode(s, n, 0) + [Label(IfEnd(line))]
            == out + StmtCode(If(c, s, line), n, 0)
  {
    hide ExprCode, CompareZero;
    var body, mark := StmtCode(s, n, 0), [Label(IfEnd(line))];
    Regroup(out, ExprCode(c, n, 0), CompareZero(), [JumpIfEqual(IfEnd(line))], body + mark);
  }

  /** The compiler applied to a file: accepts it or not, and prints the code. */
  method Compile(text: string) returns (ok: bool, code: seq<Asm>)
    ensures var e := CompiledText(START, 1, text, Counters(0, 0, []));
            ok == e.Some? && (ok ==> code == e.value.0)
  {
    hide *;
    var c := new Compiler(text);
    ok := c.CompileText();
    code := c.out;
    assert ok ==> [] + code == code;
  }

  /** What the text from `s` on prints, and the counters it leaves. */
  function CompiledText(cx: Context, line: nat, s: string, k: Counters): Option<(seq<Asm>, Counters)> {
    var lines := ReadLines(cx, line, s);
    if lines.None? then None else EmitLines(lines.value, k)
  }

  function Prepend(code: seq<Asm>, e: Option<(seq<Asm>, Counters)>): Option<(seq<Asm>, Counters)> {
    if e.None? then None else Some((code + e.value.0, e.value.1))
  }

  lemma NothingYet(e: Option<(seq<Asm>, Counters)>)
    ensures Prepend([], e) == e
  {
    if e.Some? {
      assert [] + e.value.0 == e.value.0;
    }
  }

  /** No statement follows: the end of the file, `run`, or `ru` and something else. */
  lemma TextEnds(cx: Context, line: nat, s: string, k: Counters)
    requires var v := SkipNewlines(s); v == [] || !CheckRun(v).GoOn?
    ensures var v := SkipNewlines(s);
            CompiledText(cx, line, s, k) == if v != [] && CheckRun(v).Garbled? then None else Some(([], k))
  {
    hide ReadStatement, EmitLine;
  }

  lemma TextStops(cx: Context, line: nat, s: string, k: Counters, t: string)
    requires var v := SkipNewlines(s); v != [] && CheckRun(v) == GoOn(t)
    requires var x := ReadStatement(cx, line + |s| - |SkipNewlines(s)|, t);
             !x.Parsed? || EmitLine(x.v.0, k).None? || x.rest == [] || x.rest[0] != '\n'
    ensures CompiledText(cx, line, s, k).None?
  {
    hide ReadStatement, EmitLine, SkipNewlines, CheckRun;
  }

  lemma PrependEnd(code: seq<Asm>, k: Counters)
    ensures Prepend(code, Some(([], k))) == Some((code, k)) && Prepend(code, None) == None
  {
    assert code + [] == code;
  }

  lemma PrependTwice(a: seq<Asm>, b: seq<Asm>, e: Option<(seq<Asm>, Counters)>)
    ensures Prepend(a, Prepend(b, e)) == Prepend(a + b, e)
  {
    if e.Some? {
      assert a + (b + e.value.0) == (a + b) + e.value.0;
    }
  }

  lemma NextLine(cx: Context, line: nat, s: string, k: Counters, t: string, u: string, piece: seq<Asm>, k1: Counters)
    requires var v := SkipNewlines(s); v != [] && CheckRun(v) == GoOn(t)
    requires var x := ReadStatement(cx, line + |s| - |SkipNewlines(s)|, t);
             && x.Parsed? && x.rest == ['\n'] + u
             && EmitLine(x.v.0, k) == Some((piece, k1))
    ensures var x := ReadStatement(cx, line + |s| - |SkipNewlines(s)|, t);
            CompiledText(cx, line, s, k) ==
            Prepend(piece, CompiledText(x.v.1, line + |s| - |SkipNewlines(s)| + 1, u, k1))
  {
    hide ReadStatement, EmitLine, SkipNewlines, CheckRun;
    var here := line + |s| - |SkipNewlines(s)|;
    var x := ReadStatement(cx, here, t);
    assert x.rest[1..] == u;
    var more := ReadLines(x.v.1, here + 1, u);
    if more.Some? {
      assert ([x.v.0] + more.value)[1..] == more.value;
    }
  }

  lemma WhileText(c: Expr, k: Counters, out: seq<Asm>)
    ensures var e := EmitLine(WhileLine(c), k);
            e.None? <==> |k.open| > MAX_NESTING
    ensures var e := EmitLine(WhileLine(c), k);
            e.Some? ==>
              && e.value.1 == k.(next := k.next + 1, open := k.open + [k.next])
              && out + e.value.0 ==
                 (out + [Label(WhileTop(k.next))]) + ExprCode(c, k.n, 0) + CompareZero() + [JumpIfEqualNear(WhileEnd(k.next))]
  {
    hide ExprCode, CompareZero;
    Regroup(out, [Label(WhileTop(k.next))], ExprCode(c, k.n, 0), CompareZero(), [JumpIfEqualNear(WhileEnd(k.next))]);
  }

  lemma LetText(x: string, e: Expr, n: nat, out: seq<Asm>)
    ensures out + ExprCode(e, n, 0) + [LoadAddress(0, Cell(x))] + [Do0(Stos(Dword))] == out + StmtCode(Let(x, e), n, 0)
  {
    hide ExprCode;
    var tail := [LoadAddress(0, Cell(x))] + [Do0(Stos(Dword))];
    assert out + ExprCode(e, n, 0) + [LoadAddress(0, Cell(x))] + [Do0(Stos(Dword))] == out + (ExprCode(e, n, 0) + tail);
  }

  lemma CounterZero(e: Expr)
    ensures Counter(e, 0) == 0
  {
  }

  lemma ZeroCode(n: nat, k: nat)
    ensures ExprCode(Zero, n, k) == [Load(1, 0)] && Counter(Zero, k) == k
  {
  }
}
