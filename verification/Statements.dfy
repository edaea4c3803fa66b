/** Statements line by line: how a line of text is read, what it prints, and
    how nested statements are laid out on lines. */
module Statements {
  import opened Words
  import opened Assembly
  import opened Tpp
  import opened Codegen
  import opened Grammar

  /** One line of a program. `Plain` never holds a loop. */
  datatype Line =
    | Plain(s: Stmt)
    | WhileLine(c: Expr)
    | EndwLine
    | FunctionLine(f: string, n: nat)
    | EndfLine

  // ----- reading -----

  datatype Context = Context(fn: Option<string>, vars: set<string>, arity: map<string, nat>)

  /** Before the first line. */
  const START := Context(None, {}, map[])

  function ScopeOf(cx: Context): Scope
    requires cx.fn.Some?
  {
    Scope(cx.fn.value, cx.vars, cx.arity)
  }

  function SkipSpace(s: string): (r: string)
    ensures |r| <= |s|
  {
    if s != [] && (s[0] == ' ' || s[0] == '\t' || s[0] == '\n') then SkipSpace(s[1..]) else s
  }

  predicate IsKeywordChar(c: char) { IsAlpha(c) || c == '#' || c == '!' }

  /** At most `k` keyword characters, in lower case. */
  function Letters(s: string, k: nat): (r: Parsed<string>)
    ensures r.Parsed? && |r.rest| <= |s|
  {
    if k > 0 && s != [] && IsKeywordChar(s[0]) then
      var r := Letters(s[1..], k - 1);
      Parsed([Lower(s[0])] + r.v, r.rest)
    else Parsed([], s)
  }

  function Keyword(s: string): (r: Parsed<string>)
    ensures r.Parsed? ==> |r.rest| < |s|
  {
    var t := SkipSpace(s);
    if t == [] || !(IsAlpha(t[0]) || t[0] == '#') then Rejected else ThenBlanks(Letters(t, 10))
  }

  function Condition(sc: Scope, s: string): (r: Parsed<Expr>)
    ensures r.Parsed? ==> |r.rest| < |s|
  {
    if s == [] then Rejected else InParentheses(sc, s)
  }

  /** `let name = expression`; the name is declared if it is new. */
  function ReadLet(cx: Context, s: string): (r: Parsed<(Stmt, Context)>)
    requires cx.fn.Some?
    ensures r.Parsed? ==> |r.rest| < |s|
  {
    var name := Token(s);
    if !name.Parsed? || (s != [] && s[0] == '[') || IsKeyword(name.v) then Rejected
    else
      var x := FullName(ScopeOf(cx), name.v);
      var cx' := cx.(vars := cx.vars + {x});
      var m := Match('=', name.rest);
      if !m.Parsed? then Rejected
      else
        var e := ParseExpr(ScopeOf(cx'), m.rest);
        if e.Parsed? then Parsed((Let(x, e.v), cx'), e.rest) else Rejected
  }

  /** A function's name and its number of arguments in parentheses. */
  function FunctionHead(s: string): (r: Parsed<(string, u32)>)
    ensures r.Parsed? ==> |r.rest| < |s|
  {
    var name := Token(s);
    if !name.Parsed? then Rejected
    else
      var open := Match('(', name.rest);
      if !open.Parsed? then Rejected
      else
        var n := Number(open.rest);
        if !n.Parsed? then Rejected
        else
          var close := Match(')', n.rest);
          if close.Parsed? then Parsed((name.v, n.v), close.rest) else Rejected
  }

  /** `function name(n)`, for a name not seen before. */
  function ReadFunction(cx: Context, s: string): (r: Parsed<(Line, Context)>)
    ensures r.Parsed? ==> |r.rest| < |s| && r.v.0.FunctionLine?
  {
    var h := FunctionHead(s);
    if !h.Parsed? || h.v.0 in cx.arity then Rejected
    else Parsed((FunctionLine(h.v.0, h.v.1), cx.(fn := Some(h.v.0), arity := cx.arity[h.v.0 := h.v.1])), h.rest)
  }

  /** A call as a statement, after `@`. */
  function ReadCall(cx: Context, s: string): (r: Parsed<(Stmt, Context)>)
    ensures r.Parsed? ==> |r.rest| < |s| && OneLine(r.v.0)
  {
    if cx.fn.None? then Rejected
    else
      var e := ParseCall(ScopeOf(cx), s);
      if e.Parsed? then Parsed((Do(e.v.f, e.v.args), cx), e.rest) else Rejected
  }

  /** The statements that may follow an `if`, after their keyword. */
  function ReadSimple(cx: Context, keyword: string, s: string): (r: Parsed<(Stmt, Context)>)
    requires cx.fn.Some?
    ensures r.Parsed? ==> |r.rest| < |s| && OneLine(r.v.0)
  {
    if keyword == "let" then ReadLet(cx, s)
    else if keyword == "return" then
      var e := ParseExpr(ScopeOf(cx), s);
      if e.Parsed? then Parsed((Return(e.v), cx), e.rest) else Rejected
    else Rejected
  }

  function ReadOneLine(cx: Context, s: string): (r: Parsed<(Stmt, Context)>)
    ensures r.Parsed? ==> |r.rest| < |s| && OneLine(r.v.0)
  {
    var t := EatBlanks(s);
    if t != [] && t[0] == '@' then ReadCall(cx, t[1..])
    else
      var k := Keyword(t);
      if !k.Parsed? || cx.fn.None? then Rejected else ReadSimple(cx, k.v, k.rest)
  }

  function ReadIf(cx: Context, line: nat, s: string): (r: Parsed<(Stmt, Context)>)
    requires cx.fn.Some?
    ensures r.Parsed? ==> |r.rest| < |s| && r.v.0.If? && OneLine(r.v.0.s)
  {
    var c := Condition(ScopeOf(cx), s);
    if !c.Parsed? then Rejected
    else
      var x := ReadOneLine(cx, c.rest);
      if x.Parsed? then Parsed((If(c.v, x.v.0, line), x.v.1), x.rest) else Rejected
  }

  function AsPlain(r: Parsed<(Stmt, Context)>): Parsed<(Line, Context)> {
    if r.Parsed? then Parsed((Plain(r.v.0), r.v.1), r.rest) else Rejected
  }

  /** A statement on source line `line`. Inside an `if` only a statement that
      fits on the line is accepted. */
  function ReadStatement(cx: Context, line: nat, s: string): (r: Parsed<(Line, Context)>)
    ensures r.Parsed? ==> |r.rest| < |s|
    ensures r.Parsed? && r.v.0.Plain? ==> !r.v.0.s.While?
  {
    var t := EatBlanks(s);
    if t != [] && t[0] == '@' then AsPlain(ReadCall(cx, t[1..]))
    else
      var k := Keyword(t);
      if k.Parsed? then AfterKeyword(cx, line, k.v, k.rest) else Rejected
  }

  function AfterKeyword(cx: Context, line: nat, keyword: string, s: string): (r: Parsed<(Line, Context)>)
    ensures r.Parsed? ==> |r.rest| <= |s|
    ensures r.Parsed? && r.v.0.Plain? ==> !r.v.0.s.While?
  {
    if keyword == "function" then ReadFunction(cx, s)
    else if cx.fn.None? then Rejected
    else if keyword == "endf" then Parsed((EndfLine, cx.(fn := None)), s)
    else if keyword == "endw" then Parsed((EndwLine, cx), s)
    else if keyword == "while" then
      var c := Condition(ScopeOf(cx), s);
      if c.Parsed? then Parsed((WhileLine(c.v), cx), c.rest) else Rejected
    else if keyword == "if" then AsPlain(ReadIf(cx, line, s))
    else AsPlain(ReadSimple(cx, keyword, s))
  }

  function SkipNewlines(s: string): (r: string)
    ensures |r| <= |s|
  {
    if s != [] && s[0] == '\n' then SkipNewlines(s[1..]) else s
  }

  /** The check for `run`, which ends the program: the first character of any
      other statement is put back in lower case if it was an R. */
  datatype Ending = EndOfProgram | Garbled | GoOn(s: string)

  function CheckRun(s: string): (r: Ending)
    requires s != []
    ensures r.GoOn? ==> |r.s| == |s|
  {
    if Lower(s[0]) != 'r' then GoOn(s)
    else if |s| >= 2 && Lower(s[1]) == 'u' then
      if |s| >= 3 && Lower(s[2]) == 'n' then EndOfProgram else Garbled
    else GoOn(['r'] + s[1..])
  }

  /** The whole text, from source line `line` on. */
  function ReadLines(cx: Context, line: nat, s: string): (r: Option<seq<Line>>)
    decreases |s|
  {
    var t := SkipNewlines(s);
    var here := line + |s| - |t|;
    if t == [] then Some([])
    else
      var c := CheckRun(t);
      if c.EndOfProgram? then Some([])
      else if c.Garbled? then None
      else
        var x := ReadStatement(cx, here, c.s);
        if !x.Parsed? || x.rest == [] || x.rest[0] != '\n' then None
        else
          var more := ReadLines(x.v.1, here + 1, x.rest[1..]);
          if more.Some? then Some([x.v.0] + more.value) else None
  }

  // ----- printing -----

  /** The compiler's counters: arity of the current function, number of the next
      loop, numbers of the open loops with the innermost last. */
  datatype Counters = Counters(n: nat, next: nat, open: seq<nat>)

  const MAX_NESTING := 256

  /** The lines of code a line of text prints. None: an `endw` without a loop,
      or a loop deeper than the table of open loops. */
  function EmitLine(x: Line, k: Counters): Option<(seq<Asm>, Counters)> {
    match x
    case Plain(s) => Some((StmtCode(s, k.n, k.next), k))
    case WhileLine(c) =>
      if |k.open| > MAX_NESTING then None
      else Some(([Label(WhileTop(k.next))] + (ExprCode(c, k.n, 0) + (CompareZero() + [JumpIfEqualNear(WhileEnd(k.next))])),
                 k.(next := k.next + 1, open := k.open + [k.next])))
    case EndwLine =>
      if k.open == [] then None
      else
        var w := k.open[|k.open| - 1];
        Some(([JumpNear(WhileTop(w))] + [Label(WhileEnd(w))], k.(open := k.open[..|k.open| - 1])))
    case FunctionLine(f, n) => Some(([Label(Entry(f))] + Prelude(f), k.(n := n)))
    case EndfLine => Some(([], k.(n := 0)))
  }

  /** The table of open loops holds 257. */
  lemma TableOfLoops(c: Expr, k: Counters)
    ensures EmitLine(WhileLine(c), k).Some? <==> |k.open| < 257
    ensures EmitLine(WhileLine(c), k).Some? ==>
              var k' := EmitLine(WhileLine(c), k).value.1;
              |k'.open| == |k.open| + 1 && k'.open[|k.open|] == k.next && k'.next == k.next + 1
  {
  }

  function EmitLines(lines: seq<Line>, k: Counters): Option<(seq<Asm>, Counters)> {
    if lines == [] then Some(([], k))
    else
      var a := EmitLine(lines[0], k);
      if a.None? then None
      else
        var b := EmitLines(lines[1..], a.value.1);
        if b.None? then None else Some((a.value.0 + b.value.0, b.value.1))
  }

  lemma {:induction false} EmitAppend(x: seq<Line>, y: seq<Line>, k: Counters)
    requires EmitLines(x, k).Some?
    ensures var a := EmitLines(x, k).value;
            var b := EmitLines(y, a.1);
            EmitLines(x + y, k) == if b.None? then None else Some((a.0 + b.value.0, b.value.1))
    decreases |x|
  {
    hide EmitLine;
    if x == [] {
      assert x + y == y;
      if EmitLines(y, k).Some? {
        assert [] + EmitLines(y, k).value.0 == EmitLines(y, k).value.0;
      }
    } else {
      assert (x + y)[1..] == x[1..] + y;
      var a := EmitLine(x[0], k).value;
      EmitAppend(x[1..], y, a.1);
      var b, c := EmitLines(x[1..], a.1).value, EmitLines(y, EmitLines(x, k).value.1);
      if c.Some? {
        assert a.0 + (b.0 + c.value.0) == (a.0 + b.0) + c.value.0;
      }
    }
  }

  // ----- nesting -----

  /** A block laid out on lines. */
  function Flatten(ss: seq<Stmt>): seq<Line>
    decreases ss, 0
  {
    if ss == [] then [] else FlattenOne(ss[0]) + Flatten(ss[1..])
  }

  function FlattenOne(s: Stmt): seq<Line>
    decreases s, 1
  {
    if s.While? then [WhileLine(s.c)] + (Flatten(s.body) + [EndwLine]) else [Plain(s)]
  }

  function Nesting(ss: seq<Stmt>): nat
    decreases ss, 0
  {
    if ss == [] then 0 else Max(NestingOne(ss[0]), Nesting(ss[1..]))
  }

  function NestingOne(s: Stmt): nat
    decreases s, 1
  {
    if s.While? then 1 + Nesting(s.body) else 0
  }

  lemma EmitOne(x: Line, k: Counters)
    requires EmitLine(x, k).Some?
    ensures EmitLines([x], k) == EmitLine(x, k)
  {
    hide EmitLine;
    assert EmitLine(x, k).value.0 + [] == EmitLine(x, k).value.0;
  }

  /** Each `endw` closes the innermost open loop: what the line-by-line compiler
      prints for a block is the code of the nested block, and it leaves the
      open loops as they were. */
  lemma {:induction false} BlockOnLines(ss: seq<Stmt>, k: Counters)
    requires |k.open| + Nesting(ss) <= MAX_NESTING + 1
    ensures EmitLines(Flatten(ss), k) == Some((BlockCode(ss, k.n, k.next), k.(next := k.next + LoopsIn(ss))))
    decreases ss, 0
  {
    hide EmitLine, StmtCode;
    if ss != [] {
      StatementOnLines(ss[0], k);
      var k1 := k.(next := k.next + Loops(ss[0]));
      BlockOnLines(ss[1..], k1);
      EmitAppend(FlattenOne(ss[0]), Flatten(ss[1..]), k);
    }
  }

  lemma StatementOnLines(s: Stmt, k: Counters)
    requires |k.open| + NestingOne(s) <= MAX_NESTING + 1
    ensures EmitLines(FlattenOne(s), k) == Some((StmtCode(s, k.n, k.next), k.(next := k.next + Loops(s))))
    decreases s, 1
  {
    if s.While? {
      LoopOnLines(s, k);
    } else {
      EmitOne(Plain(s), k);
    }
  }

  lemma FramedLines(x: Line, y: seq<Line>, z: Line, k: Counters, k1: Counters, k2: Counters, k3: Counters,
                    a: seq<Asm>, b: seq<Asm>, c: seq<Asm>)
    requires EmitLine(x, k) == Some((a, k1)) && EmitLines(y, k1) == Some((b, k2)) && EmitLine(z, k2) == Some((c, k3))
    ensures EmitLines([x] + (y + [z]), k) == Some((a + (b + c), k3))
  {
    hide EmitLine, EmitLines;
    EmitOne(x, k);
    EmitOne(z, k2);
    EmitAppend(y, [z], k1);
    EmitAppend([x], y + [z], k);
  }

  lemma LoopOnLines(s: Stmt, k: Counters)
    requires s.While? && |k.open| + NestingOne(s) <= MAX_NESTING + 1
    ensures EmitLines(FlattenOne(s), k) == Some((StmtCode(s, k.n, k.next), k.(next := k.next + Loops(s))))
    decreases s, 0
  {
    hide EmitLines, StmtCode, BlockCode, ExprCode;
    var w := k.next;
    var head := [Label(WhileTop(w))] + (ExprCode(s.c, k.n, 0) + (CompareZero() + [JumpIfEqualNear(WhileEnd(w))]));
    var k1 := k.(next := w + 1, open := k.open + [w]);
    BlockOnLines(s.body, k1);
    var k2 := k1.(next := w + 1 + LoopsIn(s.body));
    var tail := [JumpNear(WhileTop(w))] + [Label(WhileEnd(w))];
    assert k2.open[..|k2.open| - 1] == k.open;
    FramedLines(WhileLine(s.c), Flatten(s.body), EndwLine, k, k1, k2, k2.(open := k.open),
                head, BlockCode(s.body, k.n, w + 1), tail);
    LoopPieces(s, k.n, w, head, BlockCode(s.body, k.n, w + 1), tail);
  }

  lemma LoopPieces(s: Stmt, n: nat, w: nat, head: seq<Asm>, body: seq<Asm>, tail: seq<Asm>)
    requires s.While? && body == BlockCode(s.body, n, w + 1)
    requires head == [Label(WhileTop(w))] + (ExprCode(s.c, n, 0) + (CompareZero() + [JumpIfEqualNear(WhileEnd(w))]))
    requires tail == [JumpNear(WhileTop(w))] + [Label(WhileEnd(w))]
    ensures head + (body + tail) == StmtCode(s, n, w)
  {
    hide BlockCode, ExprCode;
  }

  // ----- every closed text is nested -----

  /** Reads nested statements off the lines, up to an `endf` or to an `endw`
      that closes nothing. */
  function Gather(lines: seq<Line>): (r: Option<(seq<Stmt>, seq<Line>)>)
    ensures r.Some? ==> |r.value.1| <= |lines|
    decreases |lines|
  {
    if lines == [] || lines[0].EndwLine? || lines[0].EndfLine? then Some(([], lines))
    else if lines[0].Plain? then
      var r := Gather(lines[1..]);
      if r.None? then None else Some(([lines[0].s] + r.value.0, r.value.1))
    else if lines[0].WhileLine? then
      var body := Gather(lines[1..]);
      if body.None? || body.value.1 == [] || !body.value.1[0].EndwLine? then None
      else
        var r := Gather(body.value.1[1..]);
        if r.None? then None
        else Some(([While(lines[0].c, body.value.0)] + r.value.0, r.value.1))
    else None
  }

  predicate NoLoopInside(lines: seq<Line>) {
    forall x :: x in lines && x.Plain? ==> !x.s.While?
  }

  predicate Bodylines(lines: seq<Line>) {
    NoLoopInside(lines) && forall x :: x in lines ==> !x.FunctionLine? && !x.EndfLine?
  }

  /** The statements gathered are laid out on exactly the lines consumed. */
  lemma {:induction false} GatherFlattens(lines: seq<Line>)
    requires NoLoopInside(lines) && Gather(lines).Some?
    ensures var (ss, rest) := Gather(lines).value;
            && lines == Flatten(ss) + rest
            && (rest == [] || rest[0].EndwLine? || rest[0].EndfLine?)
            && NoLoopInside(rest)
    decreases |lines|
  {
    if lines == [] || lines[0].EndwLine? || lines[0].EndfLine? {
      assert [] + lines == lines;
    } else if lines[0].Plain? {
      GatherFlattens(lines[1..]);
      PlainGathered(lines);
    } else {
      GatherFlattens(lines[1..]);
      var rest := Gather(lines[1..]).value.1;
      GatherFlattens(rest[1..]);
      LoopGathered(lines);
    }
  }

  lemma PlainGathered(lines: seq<Line>)
    requires lines != [] && lines[0].Plain? && !lines[0].s.While? && Gather(lines).Some? && Gather(lines[1..]).Some?
    requires lines[1..] == Flatten(Gather(lines[1..]).value.0) + Gather(lines[1..]).value.1
    ensures lines == Flatten(Gather(lines).value.0) + Gather(lines).value.1
  {
    hide Gather, Flatten;
    var (ss, rest) := Gather(lines[1..]).value;
    FlattenCons(lines[0].s, ss);
    GatherPlain(lines);
    assert lines == [lines[0]] + lines[1..];
    assert [lines[0]] + (Flatten(ss) + rest) == ([lines[0]] + Flatten(ss)) + rest;
  }

  lemma GatherPlain(lines: seq<Line>)
    requires lines != [] && lines[0].Plain? && Gather(lines).Some?
    ensures Gather(lines[1..]).Some?
    ensures Gather(lines).value == ([lines[0].s] + Gather(lines[1..]).value.0, Gather(lines[1..]).value.1)
  {
  }

  lemma FlattenCons(s: Stmt, ss: seq<Stmt>)
    ensures Flatten([s] + ss) == FlattenOne(s) + Flatten(ss)
  {
    assert ([s] + ss)[1..] == ss;
  }

  lemma LoopGathered(lines: seq<Line>)
    requires lines != [] && lines[0].WhileLine? && Gather(lines).Some?
    requires Gather(lines[1..]).Some?
    requires var (body, rest) := Gather(lines[1..]).value;
             && lines[1..] == Flatten(body) + rest && rest != [] && rest[0].EndwLine?
             && Gather(rest[1..]).Some?
             && rest[1..] == Flatten(Gather(rest[1..]).value.0) + Gather(rest[1..]).value.1
    ensures lines == Flatten(Gather(lines).value.0) + Gather(lines).value.1
  {
    var (body, rest) := Gather(lines[1..]).value;
    var (ss, last) := Gather(rest[1..]).value;
    LoopRegrouped(lines, body, rest, ss, last);
  }

  lemma LoopRegrouped(lines: seq<Line>, body: seq<Stmt>, rest: seq<Line>, ss: seq<Stmt>, last: seq<Line>)
    requires lines != [] && lines[0].WhileLine? && lines[1..] == Flatten(body) + rest
    requires rest != [] && rest[0].EndwLine? && rest[1..] == Flatten(ss) + last
    ensures lines == Flatten([While(lines[0].c, body)] + ss) + last
  {
    hide Flatten;
    FlattenCons(While(lines[0].c, body), ss);
    assert rest == [EndwLine] + (Flatten(ss) + last);
    assert lines == [lines[0]] + (Flatten(body) + ([EndwLine] + (Flatten(ss) + last)));
    assert lines == ([lines[0]] + (Flatten(body) + [EndwLine])) + Flatten(ss) + last;
  }

  /** If the compiler accepts the lines and ends with no more open loops than it
      began with, the lines are properly nested. */
  lemma {:induction false} AcceptedIsNested(lines: seq<Line>, k: Counters)
    requires Bodylines(lines) && EmitLines(lines, k).Some?
    ensures Gather(lines).None? ==> |EmitLines(lines, k).value.1.open| > |k.open|
    ensures Gather(lines).Some? ==>
              var rest := Gather(lines).value.1;
              exists k': Counters :: |k'.open| == |k.open| && EmitLines(rest, k').Some? &&
                           EmitLines(rest, k').value.1 == EmitLines(lines, k).value.1
    decreases |lines|
  {
    if lines == [] || lines[0].EndwLine? {
    } else {
      var k1 := EmitLine(lines[0], k).value.1;
      AcceptedIsNested(lines[1..], k1);
      if lines[0].WhileLine? && Gather(lines[1..]).Some? && Gather(lines[1..]).value.1 != [] {
        var rest := Gather(lines[1..]).value.1;
        GatherFlattens(lines[1..]);
        assert rest[0] in lines[1..];
        var k2: Counters :| |k2.open| == |k1.open| && EmitLines(rest, k2).Some? &&
                  EmitLines(rest, k2).value.1 == EmitLines(lines[1..], k1).value.1;
        var k3 := EmitLine(rest[0], k2).value.1;
        AcceptedIsNested(rest[1..], k3);
      }
    }
  }

  /** A function body the compiler accepts and in which every loop is closed is
      a nested block, and what was printed is that block's code. */
  lemma ClosedTextIsBlock(lines: seq<Line>, n: nat, w: nat)
    requires Bodylines(lines) && EmitLines(lines, Counters(n, w, [])).Some?
    requires EmitLines(lines, Counters(n, w, [])).value.1.open == []
    ensures exists ss :: lines == Flatten(ss)
  {
    var k := Counters(n, w, []);
    AcceptedIsNested(lines, k);
    GatherFlattens(lines);
    var (ss, rest) := Gather(lines).value;
    assert Flatten(ss) + [] == Flatten(ss);
  }
}
