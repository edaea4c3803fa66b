/** How the compiler reads T++ text: the character-level functions its
    recursive descent computes. The text is what is still unread, with the
    compiler's look-ahead character first; it is empty at the end of the file. */
module Grammar {
  import opened Words
  import opened Tpp

  datatype Parsed<+T> = Parsed(v: T, rest: string) | Rejected

  /** The function being compiled, the variables declared so far (with the
      function's prefix) and the arity of every known function. */
  datatype Scope = Scope(fn: string, vars: set<string>, arity: map<string, nat>)

  // ----- characters -----

  predicate IsDigit(c: char) { '0' <= c <= '9' }
  predicate IsAlpha(c: char) { 'a' <= c <= 'z' || 'A' <= c <= 'Z' }
  predicate IsBlank(c: char) { c == ' ' || c == '\t' || c == '\r' }

  const SEPARATORS := " \t\n/*+-^%@{}[]&|!~';.><?,=()"

  predicate IsSeparator(c: char)
    ensures IsSeparator(c) ==> !IsAlpha(c)
  {
    c in SEPARATORS
  }

  function Lower(c: char): char {
    if 'A' <= c <= 'Z' then c + ' ' else c
  }

  function Digit(c: char): nat
    requires IsDigit(c)
  {
    (c - '0') as int
  }

  function EatBlanks(s: string): (r: string)
    ensures |r| <= |s|
    ensures r != [] ==> !IsBlank(r[0])
  {
    if s != [] && IsBlank(s[0]) then EatBlanks(s[1..]) else s
  }

  /** The expected character, then blanks. */
  function Match(c: char, s: string): (r: Parsed<()>)
    ensures r.Parsed? ==> |r.rest| < |s|
  {
    if s != [] && s[0] == c then Parsed((), EatBlanks(s[1..])) else Rejected
  }

  // ----- numbers -----

  /** Digits are accumulated in a 32-bit integer. */
  function Decimal(s: string, acc: u32): (r: Parsed<u32>)
    ensures r.Parsed? && |r.rest| <= |s|
  {
    if s != [] && IsDigit(s[0]) then Decimal(s[1..], Low32(acc * 10 + Digit(s[0]))) else Parsed(acc, s)
  }

  function HexDigit(c: char): Option<nat> {
    if IsDigit(c) then Some(Digit(c)) else if 'A' <= c <= 'F' then Some((c - 'A') as int + 10) else None
  }

  function Hexadecimal(s: string, acc: u32): (r: Parsed<u32>)
    ensures r.Parsed? && |r.rest| <= |s|
  {
    if s != [] && HexDigit(s[0]).Some? then Hexadecimal(s[1..], Low32(acc * 16 + HexDigit(s[0]).value))
    else Parsed(acc, s)
  }

  function Octal(s: string, acc: u32): (r: Parsed<u32>)
    ensures r.Parsed? ==> |r.rest| <= |s|
  {
    if s != [] && IsDigit(s[0]) then
      if Digit(s[0]) >= 8 then Rejected else Octal(s[1..], Low32(acc * 8 + Digit(s[0])))
    else Parsed(acc, s)
  }

  function Binary2(s: string, acc: u32): (r: Parsed<u32>)
    ensures r.Parsed? && |r.rest| <= |s|
  {
    if s != [] && (s[0] == '0' || s[0] == '1') then Binary2(s[1..], Low32(acc * 2 + Digit(s[0])))
    else Parsed(acc, s)
  }

  function ThenBlanks<T>(r: Parsed<T>): Parsed<T> {
    if r.Parsed? then Parsed(r.v, EatBlanks(r.rest)) else Rejected
  }

  /** A literal: decimal, or with prefix 0x, 0o, 0b. The character after a
      leading zero is put back in lower case. */
  function Number(s: string): (r: Parsed<u32>)
    ensures r.Parsed? ==> |r.rest| < |s|
  {
    if |s| >= 2 && s[0] == '0' && Lower(s[1]) == 'x' then ThenBlanks(Hexadecimal(s[2..], 0))
    else if |s| >= 2 && s[0] == '0' && Lower(s[1]) == 'o' then ThenBlanks(Octal(s[2..], 0))
    else if |s| >= 2 && s[0] == '0' && Lower(s[1]) == 'b' then ThenBlanks(Binary2(s[2..], 0))
    else if s == [] || !IsDigit(s[0]) then Rejected
    else
      var t := if |s| >= 2 && s[0] == '0' then [s[0], Lower(s[1])] + s[2..] else s;
      assert IsDigit(t[0]);
      var r := Decimal(t[1..], Digit(t[0]));
      if r.rest != [] && r.rest[0] == '.' then Rejected else ThenBlanks(r)
  }

  // ----- names -----

  /** Everything up to the next separator, then blanks. */
  function Token(s: string): (r: Parsed<string>)
    ensures r.Parsed? ==> |r.rest| + |r.v| <= |s|
    ensures r.Parsed? && s != [] && !IsSeparator(s[0]) ==> r.v != []
    decreases |s|
  {
    if s == [] then Rejected
    else if IsSeparator(s[0]) then Parsed([], EatBlanks(s))
    else
      var r := Token(s[1..]);
      if r.Parsed? then Parsed([s[0]] + r.v, r.rest) else Rejected
  }

  const KEYWORDS := {
    "int32_ptr", "int8_ptr", "int16_ptr", "mul_f", "add_f", "sub_f", "div_f", "conv_f", "conv_i", "mod_f",
    "left_shift", "right_shift", "not", "neg", "sizeof", "alloc", "addressof"}

  predicate IsKeyword(name: string) { name in KEYWORDS }

  function FullName(sc: Scope, name: string): string { sc.fn + "." + name }

  // ----- operators -----

  predicate IsTermOperator(c: char) {
    c == '&' || c == '^' || c == '|' || c == '*' || c == '/' || c == '%' || c == '<' || c == '>' || c == '!' || c == ':'
  }

  predicate IsSign(c: char) { c == '+' || c == '-' }

  predicate NoOperator(s: string) {
    s == [] || (!IsTermOperator(s[0]) && !IsSign(s[0]))
  }

  /** `get_comparision_operator` and the step past the operator. A `<`, `!` or
      `:` on its own selects no operation. */
  function Operator(s: string): (r: Parsed<BinOp>)
    requires s != [] && IsTermOperator(s[0])
    ensures r.Parsed? ==> |r.rest| < |s|
  {
    var c := s[0];
    if c == '*' then Parsed(Times, EatBlanks(s[1..]))
    else if c == '/' then Parsed(Over, EatBlanks(s[1..]))
    else if c == '%' then Parsed(Modulo, EatBlanks(s[1..]))
    else if c == '^' then Parsed(BitXor, EatBlanks(s[1..]))
    else if |s| >= 2 && s[1] == '=' then
      Parsed(if c == '<' then AtMost else if c == '>' then AtLeast else if c == '!' then NotEqual
             else if c == ':' then Equal else if c == '&' then BitAnd else BitOr, EatBlanks(s[2..]))
    else if |s| >= 2 && s[1] == '|' then
      if c == '|' then Parsed(OrElse, EatBlanks(s[2..])) else Rejected
    else if |s| >= 2 && s[1] == '&' then
      if c == '&' then Parsed(AndAlso, EatBlanks(s[2..])) else Rejected
    else
      Parsed(if c == '>' then Above else if c == '&' then BitAnd else if c == '|' then BitOr else Silent(c),
             EatBlanks(s[1..]))
  }

  // ----- expressions -----

  function ParseFactor(sc: Scope, s: string): (r: Parsed<Expr>)
    ensures r.Parsed? ==> |r.rest| < |s|
    decreases |s|, 0
  {
    if s == [] then Rejected
    else if s[0] == '(' then
      var e := InParentheses(sc, s);
      if e.Parsed? then Parsed(Group(e.v), e.rest) else Rejected
    else if IsAlpha(s[0]) then ParseName(sc, s)
    else if s[0] == '$' then
      var e := ParseExpr(sc, s[1..]);
      if e.Parsed? then Parsed(Arg(e.v), e.rest) else Rejected
    else if s[0] == '\'' then ParseCharacter(s)
    else if s[0] == '@' then ParseCall(sc, s[1..])
    else if s[0] == '[' || s[0] == '"' then Rejected
    else
      var n := Number(s);
      if n.Parsed? then Parsed(Num(n.v), n.rest) else Rejected
  }

  function InParentheses(sc: Scope, s: string): (r: Parsed<Expr>)
    requires s != []
    ensures r.Parsed? ==> |r.rest| < |s|
    decreases |s| - 1, 5
  {
    var open := Match('(', s);
    if !open.Parsed? then Rejected
    else
      var e := ParseExpr(sc, open.rest);
      if !e.Parsed? then Rejected
      else
        var close := Match(')', e.rest);
        if close.Parsed? then Parsed(e.v, close.rest) else Rejected
  }

  /** An empty character literal is zero and leaves its second quote unread. */
  function ParseCharacter(s: string): (r: Parsed<Expr>)
    requires s != []
    ensures r.Parsed? ==> |r.rest| < |s|
  {
    if |s| < 2 then Rejected
    else if s[1] == '\'' then Parsed(Num(0), s[1..])
    else
      var close := Match('\'', s[2..]);
      if close.Parsed? then Parsed(Num(Low32(s[1] as int)), close.rest) else Rejected
  }

  /** The argument of a built-in unary function. */
  function ParseUnary(sc: Scope, complement: bool, s: string): (r: Parsed<Expr>)
    ensures r.Parsed? ==> |r.rest| < |s|
    decreases |s|, 5
  {
    if s == [] then Rejected
    else
      var e := InParentheses(sc, s);
      if !e.Parsed? then Rejected
      else Parsed(if complement then NotOf(e.v) else NegOf(e.v), e.rest)
  }

  /** A variable, or one of the built-in unary functions. */
  function ParseName(sc: Scope, s: string): (r: Parsed<Expr>)
    requires s != [] && IsAlpha(s[0])
    ensures r.Parsed? ==> |r.rest| < |s|
    decreases |s| - 1, 6
  {
    var name := Token(s);
    if !name.Parsed? then Rejected
    else if name.v == "not" || name.v == "neg" then ParseUnary(sc, name.v == "not", name.rest)
    else if IsKeyword(name.v) || FullName(sc, name.v) !in sc.vars then Rejected
    else Parsed(Var(FullName(sc, name.v)), name.rest)
  }

  /** After `@`: the name of a known function and the opening parenthesis. */
  function CallHead(sc: Scope, s: string): (r: Parsed<string>)
    ensures r.Parsed? ==> |r.rest| < |s| && r.v in sc.arity
  {
    var name := Token(s);
    if !name.Parsed? || name.v == "raw_call" || name.v !in sc.arity then Rejected
    else
      var open := Match('(', name.rest);
      if open.Parsed? then Parsed(name.v, open.rest) else Rejected
  }

  /** As many arguments as the function takes, and the closing parenthesis. */
  function CallArguments(sc: Scope, n: nat, s: string): (r: Parsed<seq<Expr>>)
    ensures r.Parsed? ==> |r.rest| < |s| && |r.v| == n
    decreases |s|, 6
  {
    if n > 0 then ParseArgs(sc, n, s)
    else
      var close := Match(')', s);
      if close.Parsed? then Parsed([], close.rest) else Rejected
  }

  function ParseCall(sc: Scope, s: string): (r: Parsed<Expr>)
    ensures r.Parsed? ==> |r.rest| < |s|
    ensures r.Parsed? ==> r.v.Invoke?
    decreases |s|, 6
  {
    var head := CallHead(sc, s);
    if !head.Parsed? then Rejected
    else
      var es := CallArguments(sc, sc.arity[head.v], head.rest);
      if es.Parsed? then Parsed(Invoke(head.v, es.v), es.rest) else Rejected
  }

  function ParseArgs(sc: Scope, n: nat, s: string): (r: Parsed<seq<Expr>>)
    requires n > 0
    ensures r.Parsed? ==> |r.rest| < |s| && |r.v| == n
    decreases |s|, 5
  {
    var e := ParseExpr(sc, s);
    if !e.Parsed? then Rejected
    else
      var m := Match(if n > 1 then ',' else ')', e.rest);
      if !m.Parsed? then Rejected
      else if n == 1 then Parsed([e.v], m.rest)
      else
        var es := ParseArgs(sc, n - 1, m.rest);
        if es.Parsed? then Parsed([e.v] + es.v, es.rest) else Rejected
  }

  function ParseTerm(sc: Scope, s: string): (r: Parsed<Expr>)
    ensures r.Parsed? ==> |r.rest| < |s|
    decreases |s|, 2
  {
    var f := ParseFactor(sc, s);
    if f.Parsed? then TermTail(sc, f.v, f.rest) else Rejected
  }

  function TermTail(sc: Scope, left: Expr, s: string): (r: Parsed<Expr>)
    ensures r.Parsed? ==> |r.rest| <= |s|
    decreases |s|, 1
  {
    if s == [] || !IsTermOperator(s[0]) then Parsed(left, s)
    else
      var op := Operator(s);
      if !op.Parsed? then Rejected
      else
        var f := ParseFactor(sc, op.rest);
        if f.Parsed? then TermTail(sc, Binary(op.v, left, f.v), f.rest) else Rejected
  }

  function ParseExpr(sc: Scope, s: string): (r: Parsed<Expr>)
    ensures r.Parsed? ==> |r.rest| < |s|
    decreases |s|, 4
  {
    if s != [] && IsSign(s[0]) then ExprTail(sc, Zero, s)
    else
      var t := ParseTerm(sc, s);
      if t.Parsed? then ExprTail(sc, t.v, t.rest) else Rejected
  }

  function ExprTail(sc: Scope, left: Expr, s: string): (r: Parsed<Expr>)
    ensures r.Parsed? ==> |r.rest| <= |s|
    ensures r.Parsed? && s != [] && IsSign(s[0]) ==> |r.rest| < |s|
    decreases |s|, 3
  {
    if s == [] || !IsSign(s[0]) then Parsed(left, s)
    else
      var t := ParseTerm(sc, EatBlanks(s[1..]));
      if !t.Parsed? then Rejected
      else ExprTail(sc, Binary(if s[0] == '+' then Plus else Minus, left, t.v), t.rest)
  }
}
