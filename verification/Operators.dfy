/** What expressions come to, from their characters to their value: each operator
    as it is written, and which operators bind together. */
module Operators {
  import opened Words
  import opened Tpp
  import opened Grammar
  import opened Printing

  const WORD := 0x1_0000_0000

  /** The expression has this value in every program and state, which it leaves
      alone; None is a division by zero. */
  ghost predicate HasValue(e: Expr, v: Option<int>) {
    forall p: Program, args: seq<u32>, st: Store, fuel: nat :: Evaluates(Eval(p, e, args, st, fuel), st, v)
  }

  predicate Evaluates(r: Result<u32>, st: Store, v: Option<int>) {
    match v
    case Some(x) => r.Done? && r.v == x && r.st == st
    case None => r.DividedByZero?
  }

  /** The text is an expression up to the end of the line, with that value. */
  ghost predicate ComesTo(sc: Scope, s: string, v: Option<int>) {
    var r := ParseExpr(sc, s);
    r.Parsed? && r.rest == "\n" && HasValue(r.v, v)
  }

  lemma NumberValue(n: u32)
    ensures HasValue(Num(n), Some(n))
  {
  }

  function Widened(v: Option<u32>): Option<int> {
    match v case Some(x) => Some(x as int) case None => None
  }

  lemma BinaryValue(op: BinOp, l: Expr, r: Expr, x: u32, y: u32)
    requires HasValue(l, Some(x)) && HasValue(r, Some(y))
    ensures HasValue(Binary(op, l, r), Widened(BinVal(op, x, y)))
  {
    hide BinVal, HasValue;
    forall p: Program, args: seq<u32>, st: Store, fuel: nat
      ensures Evaluates(Eval(p, Binary(op, l, r), args, st, fuel), st, Widened(BinVal(op, x, y)))
    {
      ValueIn(l, Some(x), p, args, st, fuel);
      ValueIn(r, Some(y), p, args, st, fuel);
    }
    ValueOfAll(Binary(op, l, r), Widened(BinVal(op, x, y)));
  }

  lemma ValueIn(e: Expr, v: Option<int>, p: Program, args: seq<u32>, st: Store, fuel: nat)
    requires HasValue(e, v)
    ensures Evaluates(Eval(p, e, args, st, fuel), st, v)
  {
  }

  lemma ValueOfAll(e: Expr, v: Option<int>)
    requires forall p: Program, args: seq<u32>, st: Store, fuel: nat :: Evaluates(Eval(p, e, args, st, fuel), st, v)
    ensures HasValue(e, v)
  {
  }

  lemma NumbersAreTerms(sc: Scope, n: u32)
    ensures IsFactor(sc, Num(n)) && IsTerm(sc, Num(n)) && IsExpr(sc, Num(n))
  {
  }

  /** Two numbers with an operator between them. */
  function Two(a: u32, w: string, b: u32): string {
    PrintNumber(a, " " + w + " " + PrintNumber(b, "\n"))
  }

  /** Three numbers with two operators. */
  function Three(a: u32, w: string, b: u32, x: string, c: u32): string {
    PrintNumber(a, " " + w + " " + PrintNumber(b, " " + x + " " + PrintNumber(c, "\n")))
  }

  lemma LineEnds(sc: Scope, e: Expr)
    requires IsExpr(sc, e)
    ensures ParseExpr(sc, Print(sc, e, "\n")) == Parsed(e, "\n")
  {
    hide ParseExpr, Print, IsExpr;
    ClosedRoundTrip(sc, e, "\n");
  }

  lemma TwoIs(sc: Scope, op: BinOp, a: u32, b: u32)
    requires !op.Silent?
    ensures ParseExpr(sc, Two(a, Spelling(op), b)) == Parsed(Binary(op, Num(a), Num(b)), "\n")
  {
    hide ParseExpr, Spelling, PrintNumber;
    var e := Binary(op, Num(a), Num(b));
    NumbersAreTerms(sc, a);
    NumbersAreTerms(sc, b);
    assert IsTerm(sc, e) || IsSum(op);
    assert Print(sc, e, "\n") == Two(a, Spelling(op), b);
    LineEnds(sc, e);
  }

  lemma ComesToBinVal(sc: Scope, op: BinOp, a: u32, b: u32)
    requires !op.Silent?
    ensures ComesTo(sc, Two(a, Spelling(op), b), Widened(BinVal(op, a, b)))
  {
    hide ParseExpr, Spelling, Two, BinVal, HasValue;
    TwoIs(sc, op, a, b);
    NumberValue(a);
    NumberValue(b);
    BinaryValue(op, Num(a), Num(b), a, b);
  }

  lemma Arithmetic(sc: Scope, a: u32, b: u32)
    ensures ComesTo(sc, Two(a, "+", b), Some((a + b) % WORD))
    ensures ComesTo(sc, Two(a, "-", b), Some((a - b) % WORD))
    ensures ComesTo(sc, Two(a, "*", b), Some((a * b) % WORD))
    ensures ComesTo(sc, Two(a, "/", b), if b == 0 then None else Some(a / b))
    ensures ComesTo(sc, Two(a, "%", b), if b == 0 then None else Some(a - a / b * b))
  {
    hide ComesTo, Two;
    ComesToBinVal(sc, Plus, a, b);
    ComesToBinVal(sc, Minus, a, b);
    ComesToBinVal(sc, Times, a, b);
    ComesToBinVal(sc, Over, a, b);
    ComesToBinVal(sc, Modulo, a, b);
    if b != 0 {
      RestOf(a, b);
    }
  }

  lemma RestOf(a: nat, b: nat)
    requires b > 0
    ensures a % b == a - a / b * b
  {
  }

  /** Comparisons are unsigned and give 1 or 0. */
  lemma Comparisons(sc: Scope, a: u32, b: u32)
    ensures ComesTo(sc, Two(a, ":=", b), Some(if a == b then 1 else 0))
    ensures ComesTo(sc, Two(a, "!=", b), Some(if a == b then 0 else 1))
    ensures ComesTo(sc, Two(a, ">=", b), Some(if a < b then 0 else 1))
    ensures ComesTo(sc, Two(a, "<=", b), Some(if a > b then 0 else 1))
    ensures ComesTo(sc, Two(a, ">", b), Some(if a > b then 1 else 0))
  {
    hide ComesTo, Two;
    ComesToBinVal(sc, Equal, a, b);
    ComesToBinVal(sc, NotEqual, a, b);
    ComesToBinVal(sc, AtLeast, a, b);
    ComesToBinVal(sc, AtMost, a, b);
    ComesToBinVal(sc, Above, a, b);
  }

  /** The doubled operators test for exactly 1. */
  lemma Conjunctions(sc: Scope, a: u32, b: u32)
    ensures ComesTo(sc, Two(a, "&&", b), Some(if a == 1 && b == 1 then 1 else 0))
    ensures ComesTo(sc, Two(a, "||", b), Some(if a == 1 || b == 1 then 1 else 0))
  {
    hide ComesTo, Two;
    ComesToBinVal(sc, AndAlso, a, b);
    ComesToBinVal(sc, OrElse, a, b);
  }

  /** The single ones work bit by bit. */
  lemma BitOperators(sc: Scope, a: u32, b: u32, i: nat) returns (x: u32, y: u32, z: u32)
    ensures ComesTo(sc, Two(a, "&", b), Some(x)) && (BitAt(x, i) == 1 <==> BitAt(a, i) == 1 && BitAt(b, i) == 1)
    ensures ComesTo(sc, Two(a, "|", b), Some(y)) && (BitAt(y, i) == 1 <==> BitAt(a, i) == 1 || BitAt(b, i) == 1)
    ensures ComesTo(sc, Two(a, "^", b), Some(z)) && (BitAt(z, i) == 1 <==> BitAt(a, i) != BitAt(b, i))
  {
    hide ComesTo, Two, BitAt, Bitwise;
    x, y, z := BitWord(AndBits, a, b), BitWord(OrBits, a, b), BitWord(XorBits, a, b);
    ComesToBinVal(sc, BitAnd, a, b);
    ComesToBinVal(sc, BitOr, a, b);
    ComesToBinVal(sc, BitXor, a, b);
    BitwiseAt(AndBits, a, b, i);
    BitwiseAt(OrBits, a, b, i);
    BitwiseAt(XorBits, a, b, i);
  }

  // ----- which operators bind together -----

  lemma PrintTwo(sc: Scope, op: BinOp, a: u32, b: u32, rest: string)
    ensures Print(sc, Binary(op, Num(a), Num(b)), rest) ==
            PrintNumber(a, " " + Spelling(op) + " " + PrintNumber(b, rest))
  {
    hide Spelling, PrintNumber;
  }

  lemma ThreeIs(sc: Scope, op: BinOp, op': BinOp, a: u32, b: u32, c: u32)
    requires !op.Silent? && !op'.Silent?
    ensures ParseExpr(sc, Three(a, Spelling(op), b, Spelling(op'), c)) == Parsed(Bound(op, op', a, b, c), "\n")
  {
    hide ParseExpr, Spelling, PrintNumber;
    NumbersAreTerms(sc, a);
    NumbersAreTerms(sc, b);
    NumbersAreTerms(sc, c);
    var e := Bound(op, op', a, b, c);
    if IsSum(op) && !IsSum(op') {
      assert IsTerm(sc, e.r);
    } else {
      assert !EndsOpen(e.l) by {
        assert !EndsOpen(Num(b));
      }
      assert IsSum(op) || IsTerm(sc, e.l);
      assert IsExpr(sc, e.l);
      assert IsSum(op') || IsTerm(sc, e);
      assert IsExpr(sc, e);
    }
    PrintTwo(sc, op, a, b, " " + Spelling(op') + " " + PrintNumber(c, "\n"));
    PrintTwo(sc, op', b, c, "\n");
    assert Print(sc, e, "\n") == Three(a, Spelling(op), b, Spelling(op'), c);
    LineEnds(sc, e);
  }

  /** Sums bind least, everything else from the left. */
  function Bound(op: BinOp, op': BinOp, a: u32, b: u32, c: u32): Expr {
    if IsSum(op) && !IsSum(op') then Binary(op, Num(a), Binary(op', Num(b), Num(c)))
    else Binary(op', Binary(op, Num(a), Num(b)), Num(c))
  }

  lemma BoundValue(sc: Scope, op: BinOp, op': BinOp, a: u32, b: u32, c: u32)
    requires !op.Silent? && !op'.Silent?
    requires IsSum(op) && !IsSum(op') ==> BinVal(op', b, c).Some?
    requires !(IsSum(op) && !IsSum(op')) ==> BinVal(op, a, b).Some?
    ensures ComesTo(sc, Three(a, Spelling(op), b, Spelling(op'), c),
                    Widened(if IsSum(op) && !IsSum(op') then BinVal(op, a, BinVal(op', b, c).value)
                            else BinVal(op', BinVal(op, a, b).value, c)))
  {
    hide ParseExpr, Spelling, Three, BinVal, HasValue;
    ThreeIs(sc, op, op', a, b, c);
    NumberValue(a);
    NumberValue(b);
    NumberValue(c);
    if IsSum(op) && !IsSum(op') {
      BinaryValue(op', Num(b), Num(c), b, c);
      BinaryValue(op, Num(a), Binary(op', Num(b), Num(c)), a, BinVal(op', b, c).value);
    } else {
      BinaryValue(op, Num(a), Num(b), a, b);
      BinaryValue(op', Binary(op, Num(a), Num(b)), Num(c), BinVal(op, a, b).value, c);
    }
  }

  /** `*` before `+` and `-`, sums from the left. */
  lemma Sums(sc: Scope, a: u32, b: u32, c: u32)
    ensures ComesTo(sc, Three(a, "+", b, "*", c), Some((a + b * c) % WORD))
    ensures ComesTo(sc, Three(a, "*", b, "-", c), Some((a * b - c) % WORD))
    ensures ComesTo(sc, Three(a, "-", b, "-", c), Some((a - b - c) % WORD))
  {
    hide ComesTo, Three;
    var p, q: int := b * c, a * b;
    BoundValue(sc, Plus, Times, a, b, c);
    BoundValue(sc, Times, Minus, a, b, c);
    BoundValue(sc, Minus, Minus, a, b, c);
    hide Low32;
    CutTwice(a, p);
    CutBefore(q, c);
    CutBefore((a as int) - b, c);
  }

  /** A comparison binds like `*`: before `+`, and as it comes with `*`. */
  lemma Levels(sc: Scope, a: u32, b: u32, c: u32)
    ensures ComesTo(sc, Three(a, ":=", b, "+", c), Some(((if a == b then 1 else 0) + c) % WORD))
    ensures ComesTo(sc, Three(a, ">", b, "*", c), Some(if a > b then c else 0))
  {
    hide ComesTo, Three;
    BoundValue(sc, Equal, Plus, a, b, c);
    BoundValue(sc, Above, Times, a, b, c);
  }

  lemma CutTwice(x: int, y: int)
    ensures Low32(x + Low32(y)) == (x + y) % WORD
  {
    ModPlusMultiple(x + Low32(y), y / WORD);
    assert y == Low32(y) + y / WORD * WORD;
  }

  lemma CutBefore(x: int, y: int)
    ensures Low32(Low32(x) - y) == (x - y) % WORD
  {
    ModPlusMultiple(Low32(x) - y, x / WORD);
    assert x == Low32(x) + x / WORD * WORD;
  }

  /** Parentheses bind first. */
  lemma Parentheses(sc: Scope, a: u32, b: u32, c: u32)
    ensures ComesTo(sc, PrintNumber(a, " * (" + PrintNumber(b, " + " + PrintNumber(c, ")\n"))),
                    Some((a * ((b + c) % WORD)) % WORD))
  {
    hide ParseExpr, PrintNumber, HasValue;
    var sum := Binary(Plus, Num(b), Num(c));
    var e := Binary(Times, Num(a), Group(sum));
    NumbersAreTerms(sc, a);
    NumbersAreTerms(sc, b);
    NumbersAreTerms(sc, c);
    assert IsExpr(sc, sum);
    assert IsFactor(sc, Group(sum));
    assert IsTerm(sc, e);
    assert ")" + "\n" == ")\n" && " " + "+" + " " == " + ";
    PrintTwo(sc, Plus, b, c, ")\n");
    assert Print(sc, Group(sum), "\n") == "(" + PrintNumber(b, " + " + PrintNumber(c, ")\n"));
    assert " " + "*" + " " + ("(" + PrintNumber(b, " + " + PrintNumber(c, ")\n"))) ==
           " * (" + PrintNumber(b, " + " + PrintNumber(c, ")\n"));
    assert Print(sc, e, "\n") == PrintNumber(a, " * (" + PrintNumber(b, " + " + PrintNumber(c, ")\n")));
    LineEnds(sc, e);
    NumberValue(a);
    NumberValue(b);
    NumberValue(c);
    BinaryValue(Plus, Num(b), Num(c), b, c);
    GroupValue(sum, (b + c) % WORD);
    BinaryValue(Times, Num(a), Group(sum), a, (b + c) % WORD);
  }

  lemma GroupValue(e: Expr, x: u32)
    requires HasValue(e, Some(x))
    ensures HasValue(Group(e), Some(x))
  {
    hide HasValue;
    forall p: Program, args: seq<u32>, st: Store, fuel: nat
      ensures Evaluates(Eval(p, Group(e), args, st, fuel), st, Some(x))
    {
      ValueIn(e, Some(x), p, args, st, fuel);
    }
    ValueOfAll(Group(e), Some(x));
  }

  lemma UnaryParse(sc: Scope, e: Expr, a: u32)
    requires e == NotOf(Num(a)) || e == NegOf(Num(a))
    ensures ParseExpr(sc, (if e.NotOf? then "not(" else "neg(") + PrintNumber(a, ")\n")) == Parsed(e, "\n")
  {
    hide ParseExpr, PrintNumber;
    NumbersAreTerms(sc, a);
    assert IsFactor(sc, e);
    assert IsTerm(sc, e);
    assert ")" + "\n" == ")\n";
    assert Print(sc, e, "\n") == (if e.NotOf? then "not(" else "neg(") + PrintNumber(a, ")\n");
    LineEnds(sc, e);
  }

  lemma UnaryValue(a: u32)
    ensures HasValue(NotOf(Num(a)), Some(WORD - 1 - a)) && HasValue(NegOf(Num(a)), Some(if a == 0 then 1 else 0))
    ensures HasValue(Zero, Some(0))
  {
    hide HasValue;
    forall p: Program, args: seq<u32>, st: Store, fuel: nat
      ensures Evaluates(Eval(p, NotOf(Num(a)), args, st, fuel), st, Some(WORD - 1 - a))
      ensures Evaluates(Eval(p, NegOf(Num(a)), args, st, fuel), st, Some(if a == 0 then 1 else 0))
      ensures Evaluates(Eval(p, Zero, args, st, fuel), st, Some(0))
    {
      assert Eval(p, Num(a), args, st, fuel).v == a;
    }
    ValueOfAll(NotOf(Num(a)), Some(WORD - 1 - a));
    ValueOfAll(NegOf(Num(a)), Some(if a == 0 then 1 else 0));
    ValueOfAll(Zero, Some(0));
  }

  /** The two unary functions, and a leading sign. */
  lemma Unary(sc: Scope, a: u32)
    ensures ComesTo(sc, "not(" + PrintNumber(a, ")\n"), Some(WORD - 1 - a))
    ensures ComesTo(sc, "neg(" + PrintNumber(a, ")\n"), Some(if a == 0 then 1 else 0))
    ensures ComesTo(sc, "- " + PrintNumber(a, "\n"), Some((0 - a) % WORD))
  {
    hide ParseExpr, PrintNumber, HasValue;
    UnaryParse(sc, NotOf(Num(a)), a);
    UnaryParse(sc, NegOf(Num(a)), a);
    UnaryValue(a);
    SignParse(sc, a);
    NumberValue(a);
    BinaryValue(Minus, Zero, Num(a), 0, a);
  }

  lemma SignParse(sc: Scope, a: u32)
    ensures ParseExpr(sc, "- " + PrintNumber(a, "\n")) == Parsed(Binary(Minus, Zero, Num(a)), "\n")
  {
    hide ParseExpr, PrintNumber;
    var e := Binary(Minus, Zero, Num(a));
    NumbersAreTerms(sc, a);
    assert IsExpr(sc, e);
    assert "" + "-" + " " == "- ";
    assert Print(sc, e, "\n") == "- " + PrintNumber(a, "\n");
    LineEnds(sc, e);
  }
}
