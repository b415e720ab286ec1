/** Properties of the statement generator: blocks, the `for` desugaring,
    the `else` rule, and the line structure with its indentation levels. */
module StatementProps {
  import opened Basics
  import opened Ast
  import opened Codegen

  /** One output line: its indentation level and its text. */
  datatype Line = Line(level: nat, text: string)

  /** Lines written out: each at four spaces per level, newline-terminated. */
  function Render(ls: seq<Line>): string {
    if |ls| == 0 then "" else Indent(ls[0].level) + ls[0].text + "\n" + Render(ls[1..])
  }

  lemma {:induction false} RenderAppend(a: seq<Line>, b: seq<Line>)
    ensures Render(a + b) == Render(a) + Render(b)
  {
    if |a| > 0 {
      assert (a + b)[0] == a[0];
      assert (a + b)[1..] == a[1..] + b;
      RenderAppend(a[1..], b);
    } else {
      assert a + b == b;
    }
  }

  lemma RenderOne(l: Line)
    ensures Render([l]) == Indent(l.level) + l.text + "\n"
  {
    assert [l][1..] == [];
  }

  lemma AtLeastAppend(a: seq<Line>, b: seq<Line>, n: nat)
    requires AtLeast(a, n) && AtLeast(b, n)
    ensures AtLeast(a + b, n)
  {
    forall i | 0 <= i < |a + b|
      ensures (a + b)[i].level >= n
    {
      if i >= |a| {
        assert (a + b)[i] == b[i - |a|];
      }
    }
  }

  /** The lines a statement produces at level `n`, described by where each
      construct puts its header and its body. */
  function Layout(s: Stmt, n: nat): seq<Line>
    decreases s, 1
  {
    match s
    case SNull => []
    case SExpr(e) => [Line(n, GenExpr(e))]
    case SVarDecl(v, init) => [Line(n, DeclLine(v, init))]
    case SBlock(stmts) => LayoutAll(s, stmts, n)
    case SIf(_, _, _) => LayoutIf(s, n)
    case SWhile(_, _) => LayoutWhile(s, n)
    case SFor(_, _, _, _) => LayoutFor(s, n)
    case SReturn(value) => [Line(n, "return " + GenExpr(value))]
    case SBreak => [Line(n, "break")]
    case SContinue => [Line(n, "continue")]
    case SPrint(f, args) => [Line(n, PrintCall(f, RenderArgs(args)))]
  }

  function LayoutIf(s: Stmt, n: nat): seq<Line>
    requires s.SIf?
    decreases s, 0
  {
    [Line(n, "if " + GenExpr(s.cond) + ":")] + Layout(s.thenBranch, n + 1)
    + (if s.elseBranch != SNull then [Line(n, "else:")] + Layout(s.elseBranch, n + 1) else [])
  }

  function LayoutWhile(s: Stmt, n: nat): seq<Line>
    requires s.SWhile?
    decreases s, 0
  {
    [Line(n, "while " + GenExpr(s.whileCond) + ":")] + Layout(s.whileBody, n + 1)
  }

  function LayoutFor(s: Stmt, n: nat): seq<Line>
    requires s.SFor?
    decreases s, 0
  {
    Layout(s.forInit, n)
    + ([Line(n, "while " + (if s.forCond != ENull then GenExpr(s.forCond) else "True") + ":")]
       + Layout(s.forBody, n + 1))
    + (if s.increment != ENull then [Line(n + 1, GenExpr(s.increment))] else [])
  }

  function LayoutAll(parent: Stmt, stmts: seq<Stmt>, n: nat): seq<Line>
    requires forall i :: 0 <= i < |stmts| ==> stmts[i] < parent
    decreases parent, 0, |stmts|
  {
    if |stmts| == 0 then [] else Layout(stmts[0], n) + LayoutAll(parent, stmts[1..], n)
  }

  /** Every line lies at level `n` or deeper. */
  predicate AtLeast(ls: seq<Line>, n: nat) {
    forall i :: 0 <= i < |ls| ==> ls[i].level >= n
  }

  /** The generated text of a statement is exactly its lines written out. */
  lemma {:induction false} GenStmtIsLayout(s: Stmt, n: nat)
    ensures GenStmt(s, n) == Render(Layout(s, n))
    decreases s, 1
  {
    match s
    case SBlock(stmts) =>
      GenBlockIsLayout(s, stmts, n);
    case SIf(c, t, e) =>
      GenStmtIsLayout(t, n + 1);
      GenStmtIsLayout(e, n + 1);
      IfIsLayout(c, t, e, n);
    case SWhile(c, body) =>
      GenStmtIsLayout(body, n + 1);
      WhileIsLayout(c, body, n);
    case SFor(init, c, incr, body) =>
      GenStmtIsLayout(init, n);
      GenStmtIsLayout(body, n + 1);
      ForIsLayout(init, c, incr, body, n);
    case _ =>
      SimpleIsLayout(s, n);
  }

  lemma {:induction false} GenBlockIsLayout(parent: Stmt, stmts: seq<Stmt>, n: nat)
    requires forall i :: 0 <= i < |stmts| ==> stmts[i] < parent
    ensures Concat(GenStmts(parent, stmts, n)) == Render(LayoutAll(parent, stmts, n))
    decreases parent, 0, |stmts|
  {
    if |stmts| > 0 {
      GenStmtIsLayout(stmts[0], n);
      GenBlockIsLayout(parent, stmts[1..], n);
      assert GenStmts(parent, stmts, n) == [GenStmt(stmts[0], n)] + GenStmts(parent, stmts[1..], n);
      ConcatAppend([GenStmt(stmts[0], n)], GenStmts(parent, stmts[1..], n));
      RenderAppend(Layout(stmts[0], n), LayoutAll(parent, stmts[1..], n));
    }
  }

  /** No line of a statement is shallower than the statement's own level;
      the bodies of `if`, `else`, `while` and `for` are one level deeper. */
  lemma {:induction false} LayoutDeeper(s: Stmt, n: nat)
    ensures AtLeast(Layout(s, n), n)
    decreases s, 1
  {
    match s
    case SBlock(stmts) =>
      LayoutAllDeeper(s, stmts, n);
    case SIf(c, t, e) =>
      LayoutDeeper(t, n + 1);
      LayoutDeeper(e, n + 1);
      var tail := if e != SNull then [Line(n, "else:")] + Layout(e, n + 1) else [];
      AtLeastAppend([Line(n, "else:")], Layout(e, n + 1), n);
      AtLeastAppend([Line(n, "if " + GenExpr(c) + ":")], Layout(t, n + 1), n);
      AtLeastAppend([Line(n, "if " + GenExpr(c) + ":")] + Layout(t, n + 1), tail, n);
    case SWhile(c, body) =>
      LayoutDeeper(body, n + 1);
      AtLeastAppend([Line(n, "while " + GenExpr(c) + ":")], Layout(body, n + 1), n);
    case SFor(init, c, incr, body) =>
      LayoutDeeper(init, n);
      LayoutDeeper(body, n + 1);
      var head := [Line(n, "while " + (if c != ENull then GenExpr(c) else "True") + ":")];
      var last: seq<Line> := if incr != ENull then [Line(n + 1, GenExpr(incr))] else [];
      AtLeastAppend(head, Layout(body, n + 1), n);
      AtLeastAppend(Layout(init, n), head + Layout(body, n + 1), n);
      AtLeastAppend(Layout(init, n) + (head + Layout(body, n + 1)), last, n);
    case _ =>
  }

  lemma {:induction false} LayoutAllDeeper(parent: Stmt, stmts: seq<Stmt>, n: nat)
    requires forall i :: 0 <= i < |stmts| ==> stmts[i] < parent
    ensures AtLeast(LayoutAll(parent, stmts, n), n)
    decreases parent, 0, |stmts|
  {
    if |stmts| > 0 {
      LayoutDeeper(stmts[0], n);
      LayoutAllDeeper(parent, stmts[1..], n);
      AtLeastAppend(Layout(stmts[0], n), LayoutAll(parent, stmts[1..], n), n);
    }
  }

  /** A statement of one line. */
  lemma SimpleIsLayout(s: Stmt, n: nat)
    requires !s.SBlock? && !s.SIf? && !s.SWhile? && !s.SFor?
    ensures GenStmt(s, n) == Render(Layout(s, n))
  {
    match s
    case SNull =>
    case SExpr(e) => RenderOne(Line(n, GenExpr(e)));
    case SVarDecl(v, init) => RenderOne(Line(n, DeclLine(v, init)));
    case SReturn(value) =>
      RenderOne(Line(n, "return " + GenExpr(value)));
      Regroup(Indent(n), "return ", GenExpr(value));
    case SBreak =>
      RenderOne(Line(n, "break"));
      assert "break" + "\n" == "break\n";
    case SContinue =>
      RenderOne(Line(n, "continue"));
      assert "continue" + "\n" == "continue\n";
    case SPrint(f, args) => RenderOne(Line(n, PrintCall(f, RenderArgs(args))));
  }

  /** Moving a line's final newline next to its text. */
  lemma Regroup(ind: string, pre: string, mid: string)
    ensures ind + (pre + mid) + "\n" == ind + pre + mid + "\n"
  {
  }

  lemma RegroupColon(ind: string, pre: string, mid: string)
    ensures ind + (pre + mid + ":") + "\n" == ind + pre + mid + ":\n"
  {
    assert ":" + "\n" == ":\n";
  }

  /** A header line followed by other lines. */
  lemma HeaderLines(n: nat, head: string, gb: string, lb: seq<Line>)
    requires gb == Render(lb)
    ensures Render([Line(n, head)] + lb) == Indent(n) + head + "\n" + gb
  {
    RenderOne(Line(n, head));
    RenderAppend([Line(n, head)], lb);
  }

  lemma WhileIsLayout(c: Expr, body: Stmt, n: nat)
    requires GenStmt(body, n + 1) == Render(Layout(body, n + 1))
    ensures GenStmt(SWhile(c, body), n) == Render(Layout(SWhile(c, body), n))
  {
    var head := "while " + GenExpr(c) + ":";
    HeaderLines(n, head, GenStmt(body, n + 1), Layout(body, n + 1));
    RegroupColon(Indent(n), "while ", GenExpr(c));
  }

  /** An `if` over its rendered parts. */
  lemma IfLines(n: nat, head: string, gt: string, lt: seq<Line>, tt: string, tl: seq<Line>)
    requires gt == Render(lt) && tt == Render(tl)
    ensures Render([Line(n, head)] + lt + tl) == Indent(n) + head + "\n" + gt + tt
  {
    HeaderLines(n, head, gt, lt);
    RenderAppend([Line(n, head)] + lt, tl);
  }

  /** The `else` part of an `if`, present only for an else branch. */
  lemma ElseText(e: Stmt, n: nat)
    requires GenStmt(e, n + 1) == Render(Layout(e, n + 1))
    ensures Render(if e != SNull then [Line(n, "else:")] + Layout(e, n + 1) else [])
         == (if e != SNull then Indent(n) + "else:\n" + GenStmt(e, n + 1) else "")
  {
    if e != SNull {
      HeaderLines(n, "else:", GenStmt(e, n + 1), Layout(e, n + 1));
      assert "else:" + "\n" == "else:\n";
    }
  }

  lemma IfIsLayout(c: Expr, t: Stmt, e: Stmt, n: nat)
    requires GenStmt(t, n + 1) == Render(Layout(t, n + 1))
    requires GenStmt(e, n + 1) == Render(Layout(e, n + 1))
    ensures GenStmt(SIf(c, t, e), n) == Render(Layout(SIf(c, t, e), n))
  {
    var head := "if " + GenExpr(c) + ":";
    var tt := if e != SNull then Indent(n) + "else:\n" + GenStmt(e, n + 1) else "";
    var tl := if e != SNull then [Line(n, "else:")] + Layout(e, n + 1) else [];
    ElseText(e, n);
    IfLines(n, head, GenStmt(t, n + 1), Layout(t, n + 1), tt, tl);
    RegroupColon(Indent(n), "if ", GenExpr(c));
  }

  /** A `for` over its rendered parts. */
  lemma ForLines(n: nat, gi: string, li: seq<Line>, head: string, gb: string, lb: seq<Line>, hasIncr: bool, incr: string)
    requires gi == Render(li) && gb == Render(lb)
    ensures Render(li + ([Line(n, head)] + lb) + (if hasIncr then [Line(n + 1, incr)] else []))
            == gi + (Indent(n) + head + "\n" + gb) + (if hasIncr then Indent(n + 1) + incr + "\n" else "")
  {
    HeaderLines(n, head, gb, lb);
    var last: seq<Line> := if hasIncr then [Line(n + 1, incr)] else [];
    if hasIncr {
      RenderOne(Line(n + 1, incr));
    }
    RenderAppend(li, [Line(n, head)] + lb);
    RenderAppend(li + ([Line(n, head)] + lb), last);
  }

  lemma ForIsLayout(init: Stmt, c: Expr, incr: Expr, body: Stmt, n: nat)
    requires GenStmt(init, n) == Render(Layout(init, n))
    requires GenStmt(body, n + 1) == Render(Layout(body, n + 1))
    ensures GenStmt(SFor(init, c, incr, body), n) == Render(Layout(SFor(init, c, incr, body), n))
  {
    var cond := if c != ENull then GenExpr(c) else "True";
    var gi := if init != SNull then GenStmt(init, n) else "";
    var head := "while " + cond + ":";
    if init == SNull {
      assert Layout(init, n) == [];
    }
    var it := if incr != ENull then Indent(n + 1) + GenExpr(incr) + "\n" else "";
    var last: seq<Line> := if incr != ENull then [Line(n + 1, GenExpr(incr))] else [];
    assert gi == Render(Layout(init, n));
    ForLines(n, gi, Layout(init, n), head, GenStmt(body, n + 1), Layout(body, n + 1),
             incr != ENull, GenExpr(incr));
    RegroupColon(Indent(n), "while ", cond);
    LayoutForUnfold(init, c, incr, body, n);
    GenForUnfold(init, c, incr, body, n);
  }

  lemma GenForUnfold(init: Stmt, c: Expr, incr: Expr, body: Stmt, n: nat)
    ensures GenStmt(SFor(init, c, incr, body), n)
         == (if init != SNull then GenStmt(init, n) else "")
            + (Indent(n) + "while " + (if c != ENull then GenExpr(c) else "True") + ":\n" + GenStmt(body, n + 1))
            + (if incr != ENull then Indent(n + 1) + GenExpr(incr) + "\n" else "")
  {
  }

  lemma LayoutForUnfold(init: Stmt, c: Expr, incr: Expr, body: Stmt, n: nat)
    ensures Layout(SFor(init, c, incr, body), n)
         == Layout(init, n)
            + ([Line(n, "while " + (if c != ENull then GenExpr(c) else "True") + ":")] + Layout(body, n + 1))
            + (if incr != ENull then [Line(n + 1, GenExpr(incr))] else [])
  {
  }

  /** A block's text is its statements' texts in order: splitting a block
      splits its text. */
  lemma BlockAppend(a: seq<Stmt>, b: seq<Stmt>, n: nat)
    ensures GenStmt(SBlock(a + b), n) == GenStmt(SBlock(a), n) + GenStmt(SBlock(b), n)
  {
    var ga := GenStmts(SBlock(a), a, n);
    var gb := GenStmts(SBlock(b), b, n);
    assert GenStmts(SBlock(a + b), a + b, n) == ga + gb;
    ConcatAppend(ga, gb);
  }

  lemma Concat2(x: string, y: string)
    ensures Concat([x, y]) == x + y
  {
    assert [x, y][1..] == [y];
    assert [y][1..] == [];
  }

  /** A block of two statements. */
  lemma BlockOfTwo(a: Stmt, b: Stmt, n: nat)
    ensures GenStmt(SBlock([a, b]), n) == GenStmt(a, n) + GenStmt(b, n)
  {
    assert GenStmts(SBlock([a, b]), [a, b], n) == [GenStmt(a, n), GenStmt(b, n)];
    Concat2(GenStmt(a, n), GenStmt(b, n));
  }

  /** The `while` loop a `for` stands for: a missing condition is the
      constant `True`, and the increment runs at the end of the body. */
  function ForAsWhile(init: Stmt, c: Expr, incr: Expr, body: Stmt): Stmt {
    SBlock([init, SWhile(if c == ENull then EVar("True") else c,
                         if incr == ENull then body else SBlock([body, SExpr(incr)]))])
  }

  /** A `for` is generated exactly as its desugaring into a block holding the
      initializer and a `while` loop. */
  lemma ForIsWhile(init: Stmt, c: Expr, incr: Expr, body: Stmt, n: nat)
    ensures GenStmt(SFor(init, c, incr, body), n) == GenStmt(ForAsWhile(init, c, incr, body), n)
  {
    var cond := if c == ENull then EVar("True") else c;
    var loopBody := if incr == ENull then body else SBlock([body, SExpr(incr)]);
    var gi := if init != SNull then GenStmt(init, n) else "";
    var head := Indent(n) + "while " + GenExpr(cond) + ":\n";
    var it := if incr != ENull then Indent(n + 1) + GenExpr(incr) + "\n" else "";
    GenForUnfold(init, c, incr, body, n);
    LoopBodyText(body, incr, n + 1);
    BlockOfTwo(init, SWhile(cond, loopBody), n);
    WhileText(cond, loopBody, n);
    assert GenStmt(init, n) == gi;
    Regroup4(gi, head, GenStmt(body, n + 1), it);
  }

  lemma Regroup4(a: string, b: string, c: string, d: string)
    ensures a + (b + c) + d == a + (b + (c + d))
  {
  }

  /** One unfolding of `GenStmt` on a `while`. */
  lemma WhileText(c: Expr, body: Stmt, n: nat)
    ensures GenStmt(SWhile(c, body), n) == Indent(n) + "while " + GenExpr(c) + ":\n" + GenStmt(body, n + 1)
  {
  }

  /** The body of the `while` a `for` becomes: its own body, then the
      increment. */
  lemma LoopBodyText(body: Stmt, incr: Expr, n: nat)
    ensures GenStmt(if incr == ENull then body else SBlock([body, SExpr(incr)]), n)
         == GenStmt(body, n) + (if incr != ENull then Indent(n) + GenExpr(incr) + "\n" else "")
  {
    if incr != ENull {
      BlockOfTwo(body, SExpr(incr), n);
    }
  }

  /** Among the lines of an `if`, the ones at its own level other than the
      header. */
  lemma ElseLines(n: nat, head: string, lt: seq<Line>, hasElse: bool, le: seq<Line>)
    requires AtLeast(lt, n + 1) && AtLeast(le, n + 1)
    ensures var ls := [Line(n, head)] + lt + (if hasElse then [Line(n, "else:")] + le else []);
      (exists i :: 0 < i < |ls| && ls[i].level == n) <==> hasElse
    ensures var ls := [Line(n, head)] + lt + (if hasElse then [Line(n, "else:")] + le else []);
      forall i :: 0 < i < |ls| && ls[i].level == n ==> ls[i] == Line(n, "else:") && i == 1 + |lt|
  {
    var ls := [Line(n, head)] + lt + (if hasElse then [Line(n, "else:")] + le else []);
    forall i | 0 < i < |ls| && ls[i].level == n
      ensures ls[i] == Line(n, "else:") && i == 1 + |lt|
    {
    }
    if hasElse {
      assert ls[1 + |lt|] == Line(n, "else:");
    }
  }

  /** An `if` has a second line at its own level exactly when it has an
      else branch, and that line is `else:`. */
  lemma ElseLine(c: Expr, t: Stmt, e: Stmt, n: nat)
    ensures var ls := Layout(SIf(c, t, e), n);
      (exists i :: 0 < i < |ls| && ls[i].level == n) <==> e != SNull
    ensures var ls := Layout(SIf(c, t, e), n);
      forall i :: 0 < i < |ls| && ls[i].level == n ==> ls[i] == Line(n, "else:") && i == 1 + |Layout(t, n + 1)|
  {
    LayoutDeeper(t, n + 1);
    LayoutDeeper(e, n + 1);
    ElseLines(n, "if " + GenExpr(c) + ":", Layout(t, n + 1), e != SNull, Layout(e, n + 1));
    assert Layout(SIf(c, t, e), n) == [Line(n, "if " + GenExpr(c) + ":")] + Layout(t, n + 1)
      + (if e != SNull then [Line(n, "else:")] + Layout(e, n + 1) else []);
  }

  /** The body of a `while` is every line after its header, all deeper. */
  lemma WhileBody(c: Expr, body: Stmt, n: nat)
    ensures var ls := Layout(SWhile(c, body), n);
      |ls| >= 1 && ls[0] == Line(n, "while " + GenExpr(c) + ":")
      && ls[1..] == Layout(body, n + 1) && AtLeast(ls[1..], n + 1)
  {
    LayoutDeeper(body, n + 1);
    var head := Line(n, "while " + GenExpr(c) + ":");
    assert Layout(SWhile(c, body), n) == [head] + Layout(body, n + 1);
    assert ([head] + Layout(body, n + 1))[1..] == Layout(body, n + 1);
  }

  /** A `for`'s increment is the last line, one level deeper than the
      loop header, right after the body. */
  lemma ForIncrementLast(init: Stmt, c: Expr, incr: Expr, body: Stmt, n: nat)
    requires incr != ENull
    ensures var ls := Layout(SFor(init, c, incr, body), n);
      var k := |Layout(init, n)|;
      |ls| == k + 2 + |Layout(body, n + 1)|
      && ls[k] == Line(n, "while " + (if c != ENull then GenExpr(c) else "True") + ":")
      && ls[k + 1..|ls| - 1] == Layout(body, n + 1)
      && ls[|ls| - 1] == Line(n + 1, GenExpr(incr))
  {
    LayoutForUnfold(init, c, incr, body, n);
    var ls := Layout(SFor(init, c, incr, body), n);
    var k := |Layout(init, n)|;
    assert ls[k + 1..|ls| - 1] == Layout(body, n + 1);
  }
}
