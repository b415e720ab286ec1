/** Properties of the expression generator: operator spellings, full
    parenthesisation, and the collapse of prefix and postfix `++`/`--`. */
module ExpressionProps {
  import opened Basics
  import opened Ast
  import opened Codegen
  import Lexer
  import LexerProps

  /** The scanner token a binary operator is written with in C. */
  function OpToken(op: BinOp): Lexer.TokenType {
    match op
    case OpAdd => Lexer.Plus
    case OpSub => Lexer.Minus
    case OpMul => Lexer.Multiply
    case OpDiv => Lexer.Divide
    case OpMod => Lexer.Mod
    case OpEq => Lexer.Eq
    case OpNeq => Lexer.Neq
    case OpLt => Lexer.Lt
    case OpGt => Lexer.Gt
    case OpLte => Lexer.Lte
    case OpGte => Lexer.Gte
    case OpAnd => Lexer.And
    case OpOr => Lexer.Or
    case OpAssign => Lexer.Equals
    case OpBitAnd => Lexer.BitAnd
    case OpBitOr => Lexer.BitOr
    case OpBitXor => Lexer.BitXor
    case OpShiftLeft => Lexer.ShiftLeft
    case OpShiftRight => Lexer.ShiftRight
  }

  /** `text` is what the scanner's operator tables read as a token of kind `k`. */
  predicate Spells(text: string, k: Lexer.TokenType) {
    (text in LexerProps.TwoCharOperators && LexerProps.TwoCharOperators[text] == k)
    || (|text| == 1 && text[0] in LexerProps.OneCharOperators && LexerProps.OneCharOperators[text[0]] == k)
  }

  /** Every binary operator keeps its C spelling in the Python text, except
      `&&` and `||`, which become the words `and` and `or`. */
  lemma OperatorSpelling(op: BinOp)
    ensures op != OpAnd && op != OpOr ==> Spells(BinOpText(op), OpToken(op))
    ensures op == OpAnd ==> Spells("&&", OpToken(op)) && BinOpText(op) == "and"
    ensures op == OpOr ==> Spells("||", OpToken(op)) && BinOpText(op) == "or"
  {
    if op.OpEq? || op.OpNeq? || op.OpLte? || op.OpGte? || op.OpShiftLeft? || op.OpShiftRight? {
      TwoCharSpelling(op);
    } else if !op.OpAnd? && !op.OpOr? {
      OneCharSpelling(op);
    }
  }

  lemma TwoCharSpelling(op: BinOp)
    requires op.OpEq? || op.OpNeq? || op.OpLte? || op.OpGte? || op.OpShiftLeft? || op.OpShiftRight?
    ensures BinOpText(op) in LexerProps.TwoCharOperators
    ensures LexerProps.TwoCharOperators[BinOpText(op)] == OpToken(op)
  {
  }

  lemma OneCharSpelling(op: BinOp)
    requires op.OpAdd? || op.OpSub? || op.OpMul? || op.OpDiv? || op.OpMod? || op.OpLt? || op.OpGt?
          || op.OpAssign? || op.OpBitAnd? || op.OpBitOr? || op.OpBitXor?
    ensures |BinOpText(op)| == 1 && BinOpText(op)[0] in LexerProps.OneCharOperators
    ensures LexerProps.OneCharOperators[BinOpText(op)[0]] == OpToken(op)
  {
    if op.OpAdd? || op.OpSub? || op.OpMul? || op.OpDiv? || op.OpMod? {
      ArithmeticSpelling(op);
    } else {
      OtherOneCharSpelling(op);
    }
  }

  lemma ArithmeticSpelling(op: BinOp)
    requires op.OpAdd? || op.OpSub? || op.OpMul? || op.OpDiv? || op.OpMod?
    ensures |BinOpText(op)| == 1 && BinOpText(op)[0] in LexerProps.OneCharOperators
    ensures LexerProps.OneCharOperators[BinOpText(op)[0]] == OpToken(op)
  {
    match op
    case OpAdd => assert "+"[0] == '+';
    case OpSub => assert "-"[0] == '-';
    case OpMul => assert "*"[0] == '*';
    case OpDiv => assert "/"[0] == '/';
    case OpMod => assert "%"[0] == '%';
  }

  lemma OtherOneCharSpelling(op: BinOp)
    requires op.OpLt? || op.OpGt? || op.OpAssign? || op.OpBitAnd? || op.OpBitOr? || op.OpBitXor?
    ensures |BinOpText(op)| == 1 && BinOpText(op)[0] in LexerProps.OneCharOperators
    ensures LexerProps.OneCharOperators[BinOpText(op)[0]] == OpToken(op)
  {
    match op
    case OpLt => assert "<"[0] == '<';
    case OpGt => assert ">"[0] == '>';
    case OpAssign => assert "="[0] == '=';
    case OpBitAnd => assert "&"[0] == '&';
    case OpBitOr => assert "|"[0] == '|';
    case OpBitXor => assert "^"[0] == '^';
  }

  /** Distinct operators are written differently, so the operator of an
      application can be read back from its text. */
  lemma BinOpTextInjective(a: BinOp, b: BinOp)
    ensures BinOpText(a) == BinOpText(b) <==> a == b
  {
  }

  // Bracket depth

  /** The bracket depth after reading `t` from depth `d`; `None` once a
      `)` has no matching `(`. */
  function Walk(t: string, d: nat): Option<nat>
    decreases |t|
  {
    if |t| == 0 then Some(d)
    else if t[0] == '(' then Walk(t[1..], d + 1)
    else if t[0] == ')' then (if d == 0 then None else Walk(t[1..], d - 1))
    else Walk(t[1..], d)
  }

  /** Every `)` closes an earlier `(` and every `(` is closed. */
  predicate Balanced(t: string) {
    Walk(t, 0) == Some(0)
  }

  /** `t` is one parenthesised group: its first `(` is closed by its last
      character. */
  predicate Wrapped(t: string) {
    |t| >= 2 && t[0] == '(' && t[|t| - 1] == ')' && Balanced(t[1..|t| - 1])
  }

  predicate NoParens(t: string) {
    forall k :: 0 <= k < |t| ==> t[k] != '(' && t[k] != ')'
  }

  lemma {:induction false} WalkAppend(a: string, b: string, d: nat)
    ensures Walk(a + b, d) == (if Walk(a, d).Some? then Walk(b, Walk(a, d).value) else None)
    decreases |a|
  {
    if |a| == 0 {
      assert a + b == b;
    } else {
      assert (a + b)[0] == a[0];
      assert (a + b)[1..] == a[1..] + b;
      if a[0] == '(' {
        WalkAppend(a[1..], b, d + 1);
      } else if a[0] == ')' {
        if d > 0 {
          WalkAppend(a[1..], b, d - 1);
        }
      } else {
        WalkAppend(a[1..], b, d);
      }
    }
  }

  /** Starting deeper only shifts the final depth. */
  lemma {:induction false} WalkShift(t: string, d: nat, k: nat)
    requires Walk(t, d).Some?
    ensures Walk(t, d + k) == Some(Walk(t, d).value + k)
    decreases |t|
  {
    if |t| > 0 {
      if t[0] == '(' {
        WalkShift(t[1..], d + 1, k);
      } else if t[0] == ')' {
        WalkShift(t[1..], d - 1, k);
      } else {
        WalkShift(t[1..], d, k);
      }
    }
  }

  lemma {:induction false} WalkPlain(t: string, d: nat)
    requires NoParens(t)
    ensures Walk(t, d) == Some(d)
    decreases |t|
  {
    if |t| > 0 {
      WalkPlain(t[1..], d);
    }
  }

  lemma BalancedAppend(a: string, b: string)
    requires Balanced(a) && Balanced(b)
    ensures Balanced(a + b)
  {
    WalkAppend(a, b, 0);
  }

  lemma BalancedAppend3(a: string, b: string, c: string)
    requires Balanced(a) && Balanced(b) && Balanced(c)
    ensures Balanced(a + b + c)
  {
    BalancedAppend(a, b);
    BalancedAppend(a + b, c);
  }

  lemma PlainBalanced(t: string)
    requires NoParens(t)
    ensures Balanced(t)
  {
    WalkPlain(t, 0);
  }

  /** Parenthesising a balanced text gives one group. */
  lemma WrapBalanced(m: string)
    requires Balanced(m)
    ensures Wrapped("(" + m + ")") && Balanced("(" + m + ")")
  {
    var t := "(" + m + ")";
    WalkAppend("(" + m, ")", 0);
    WalkAppend("(", m, 0);
    WalkShift(m, 0, 1);
    assert t[1..|t| - 1] == m;
  }

  lemma {:induction false} JoinBalanced(parts: seq<string>, sep: string)
    requires NoParens(sep)
    requires forall i :: 0 <= i < |parts| ==> Balanced(parts[i])
    ensures Balanced(Join(parts, sep))
    decreases |parts|
  {
    if |parts| > 1 {
      JoinBalanced(parts[1..], sep);
      PlainBalanced(sep);
      BalancedAppend3(parts[0], sep, Join(parts[1..], sep));
    }
  }

  /** Names and literal texts hold no parentheses. */
  predicate PlainLiteral(l: Literal) {
    match l
    case LFloat(text) => NoParens(text)
    case LChar(c) => c != '(' && c != ')'
    case LString(s) => NoParens(s)
    case _ => true
  }

  predicate PlainLeaves(e: Expr)
    decreases e
  {
    match e
    case ENull => true
    case EVar(name) => NoParens(name)
    case ELit(l) => PlainLiteral(l)
    case EBinary(_, l, r) => PlainLeaves(l) && PlainLeaves(r)
    case EUnary(_, x) => PlainLeaves(x)
    case ECall(name, args) => NoParens(name) && forall i :: 0 <= i < |args| ==> PlainLeaves(args[i])
    case EArrayAccess(name, index) => NoParens(name) && PlainLeaves(index)
    case EMemberAccess(target, member) => PlainLeaves(target) && NoParens(member)
  }

  lemma LiteralBalanced(l: Literal)
    requires PlainLiteral(l)
    ensures NoParens(GenLiteral(l))
  {
    var r := GenLiteral(l);
    if l.LString? {
      forall k | 0 <= k < |r|
        ensures r[k] != '(' && r[k] != ')'
      {
        if 0 < k < |r| - 1 {
          assert r[k] == r[1..|r| - 1][k - 1];
        }
      }
    }
  }

  lemma OpTextPlain(op: BinOp)
    ensures NoParens(BinOpText(op))
  {
  }

  /** A binary operation other than assignment is one parenthesised group. */
  lemma BinaryWrapped(l: string, op: string, r: string)
    requires Balanced(l) && Balanced(r) && NoParens(op)
    ensures Wrapped("(" + l + " " + op + " " + r + ")")
    ensures Balanced("(" + l + " " + op + " " + r + ")")
  {
    var m := l + " " + op + " " + r;
    PlainBalanced(" ");
    PlainBalanced(op);
    BalancedAppend3(l, " ", op);
    BalancedAppend3(l + " " + op, " ", r);
    WrapBalanced(m);
    assert "(" + l + " " + op + " " + r + ")" == "(" + m + ")";
  }

  /** A unary operation is one parenthesised group around its operand:
      the opening text starts with the only `(` and the closing text ends
      with the only `)`. */
  lemma UnaryWrapped(open: string, x: string, close: string)
    requires |open| >= 1 && open[0] == '(' && NoParens(open[1..])
    requires |close| >= 1 && close[|close| - 1] == ')' && NoParens(close[..|close| - 1])
    requires Balanced(x)
    ensures Wrapped(open + x + close) && Balanced(open + x + close)
  {
    var pre, post := open[1..], close[..|close| - 1];
    PlainBalanced(pre);
    PlainBalanced(post);
    BalancedAppend3(pre, x, post);
    WrapBalanced(pre + x + post);
    assert open == "(" + pre && close == post + ")";
    assert open + x + close == "(" + (pre + x + post) + ")";
  }

  lemma UnaryPieces(op: UnOp)
    ensures |UnaryOpen(op)| >= 1 && UnaryOpen(op)[0] == '(' && NoParens(UnaryOpen(op)[1..])
    ensures |UnaryClose(op)| >= 1 && UnaryClose(op)[|UnaryClose(op)| - 1] == ')'
    ensures NoParens(UnaryClose(op)[..|UnaryClose(op)| - 1])
  {
  }

  /** A call's text around its rendered arguments. */
  lemma CallBalanced(name: string, parts: seq<string>)
    requires NoParens(name)
    requires forall i :: 0 <= i < |parts| ==> Balanced(parts[i])
    ensures Balanced(name + "(" + Join(parts, ", ") + ")")
  {
    PlainBalanced(", ");
    JoinBalanced(parts, ", ");
    NamedGroup(name, Join(parts, ", "));
  }

  lemma NamedGroup(name: string, m: string)
    requires NoParens(name) && Balanced(m)
    ensures Balanced(name + "(" + m + ")")
  {
    WrapBalanced(m);
    PlainBalanced(name);
    BalancedAppend(name, "(" + m + ")");
    assert name + "(" + m + ")" == name + ("(" + m + ")");
  }

  /** A unary operation's text around its rendered operand. */
  lemma UnaryBalanced(op: UnOp, x: Expr)
    requires Balanced(GenExpr(x))
    ensures Wrapped(GenExpr(EUnary(op, x))) && Balanced(GenExpr(EUnary(op, x)))
  {
    UnaryPieces(op);
    UnaryWrapped(UnaryOpen(op), GenExpr(x), UnaryClose(op));
  }

  /** With names and literals free of parentheses, every generated
      expression is balanced, and every operator application other than
      assignment is exactly one parenthesised group: the output is fully
      parenthesised. */
  lemma {:induction false} FullyParenthesised(e: Expr)
    requires PlainLeaves(e)
    ensures Balanced(GenExpr(e))
    ensures (e.EBinary? && e.bop != OpAssign) || e.EUnary? ==> Wrapped(GenExpr(e))
    decreases e
  {
    match e
    case EBinary(op, l, r) =>
      FullyParenthesised(l);
      FullyParenthesised(r);
      BinaryBalanced(op, l, r);
    case EUnary(op, x) =>
      FullyParenthesised(x);
      UnaryBalanced(op, x);
    case ECall(name, args) =>
      var parts := GenArgs(e, args);
      forall i | 0 <= i < |args|
        ensures Balanced(parts[i])
      {
        FullyParenthesised(args[i]);
      }
      CallBalanced(name, parts);
    case EArrayAccess(name, index) =>
      FullyParenthesised(index);
      AccessBalanced(name, index);
    case EMemberAccess(target, member) =>
      FullyParenthesised(target);
      MemberBalanced(target, member);
    case _ =>
      LeafBalanced(e);
  }

  lemma LeafBalanced(e: Expr)
    requires e.ENull? || e.EVar? || e.ELit?
    requires PlainLeaves(e)
    ensures Balanced(GenExpr(e))
  {
    match e
    case ENull => PlainBalanced("");
    case EVar(name) => PlainBalanced(name);
    case ELit(l) =>
      LiteralBalanced(l);
      PlainBalanced(GenLiteral(l));
  }

  lemma BinaryBalanced(op: BinOp, l: Expr, r: Expr)
    requires Balanced(GenExpr(l)) && Balanced(GenExpr(r))
    ensures Balanced(GenExpr(EBinary(op, l, r)))
    ensures op != OpAssign ==> Wrapped(GenExpr(EBinary(op, l, r)))
  {
    if op == OpAssign {
      PlainBalanced(" = ");
      BalancedAppend3(GenExpr(l), " = ", GenExpr(r));
    } else {
      OpTextPlain(op);
      BinaryWrapped(GenExpr(l), BinOpText(op), GenExpr(r));
    }
  }

  lemma AccessBalanced(name: string, index: Expr)
    requires NoParens(name) && Balanced(GenExpr(index))
    ensures Balanced(GenExpr(EArrayAccess(name, index)))
  {
    PlainBalanced(name + "[");
    PlainBalanced("]");
    BalancedAppend3(name + "[", GenExpr(index), "]");
  }

  lemma MemberBalanced(target: Expr, member: string)
    requires NoParens(member) && Balanced(GenExpr(target))
    ensures Balanced(GenExpr(EMemberAccess(target, member)))
  {
    PlainBalanced("." + member);
    BalancedAppend(GenExpr(target), "." + member);
    assert GenExpr(target) + "." + member == GenExpr(target) + ("." + member);
  }

  // Prefix and postfix increment

  /** `e` with every postfix `++`/`--` replaced by its prefix form. */
  function Prefixed(e: Expr): (r: Expr)
    decreases e, 1
  {
    match e
    case EBinary(op, l, r) => EBinary(op, Prefixed(l), Prefixed(r))
    case EUnary(op, x) =>
      EUnary(if op == OpPostInc then OpPreInc else if op == OpPostDec then OpPreDec else op, Prefixed(x))
    case ECall(name, args) => ECall(name, PrefixedAll(e, args))
    case EArrayAccess(name, index) => EArrayAccess(name, Prefixed(index))
    case EMemberAccess(target, member) => EMemberAccess(Prefixed(target), member)
    case _ => e
  }

  function PrefixedAll(parent: Expr, args: seq<Expr>): (r: seq<Expr>)
    requires forall i :: 0 <= i < |args| ==> args[i] < parent
    ensures |r| == |args|
    decreases parent, 0
  {
    seq(|args|, i requires 0 <= i < |args| => Prefixed(args[i]))
  }

  /** No postfix `++` or `--` occurs in `e`. */
  predicate NoPostfix(e: Expr)
    decreases e
  {
    match e
    case EBinary(_, l, r) => NoPostfix(l) && NoPostfix(r)
    case EUnary(op, x) => op != OpPostInc && op != OpPostDec && NoPostfix(x)
    case ECall(_, args) => forall i :: 0 <= i < |args| ==> NoPostfix(args[i])
    case EArrayAccess(_, index) => NoPostfix(index)
    case EMemberAccess(target, _) => NoPostfix(target)
    case _ => true
  }

  /** Both `++` forms render as `(x += 1)` and both `--` forms as
      `(x -= 1)`. */
  lemma IncDecForms(x: Expr)
    ensures GenExpr(EUnary(OpPreInc, x)) == GenExpr(EUnary(OpPostInc, x)) == "(" + GenExpr(x) + " += 1)"
    ensures GenExpr(EUnary(OpPreDec, x)) == GenExpr(EUnary(OpPostDec, x)) == "(" + GenExpr(x) + " -= 1)"
  {
    var g := GenExpr(x);
    assert "(" + g + " += 1)" == UnaryOpen(OpPreInc) + g + UnaryClose(OpPreInc);
    assert "(" + g + " -= 1)" == UnaryOpen(OpPreDec) + g + UnaryClose(OpPreDec);
  }

  /** The output never depends on prefix versus postfix: rewriting every
      postfix operator to its prefix form leaves the text unchanged, and
      leaves no postfix operator behind. */
  lemma {:induction false} FixityIrrelevant(e: Expr)
    ensures GenExpr(Prefixed(e)) == GenExpr(e)
    ensures NoPostfix(Prefixed(e))
    decreases e
  {
    match e
    case EBinary(op, l, r) =>
      FixityIrrelevant(l);
      FixityIrrelevant(r);
    case EUnary(op, x) =>
      FixityIrrelevant(x);
    case ECall(name, args) =>
      var pargs := PrefixedAll(e, args);
      forall i | 0 <= i < |args|
        ensures GenExpr(pargs[i]) == GenExpr(args[i]) && NoPostfix(pargs[i])
      {
        FixityIrrelevant(args[i]);
      }
      assert GenArgs(Prefixed(e), pargs) == GenArgs(e, args);
    case EArrayAccess(name, index) =>
      FixityIrrelevant(index);
    case EMemberAccess(target, member) =>
      FixityIrrelevant(target);
    case _ =>
  }

  // Calls

  /** A call with no argument is `name()` and one with a single argument
      wraps it in parentheses; each further argument goes before the
      closing parenthesis after `, `, so arguments keep their order. */
  lemma CallAppend(name: string, args: seq<Expr>, a: Expr)
    ensures GenExpr(ECall(name, [])) == name + "()"
    ensures GenExpr(ECall(name, [a])) == name + "(" + GenExpr(a) + ")"
    ensures |args| > 0 ==> var c := GenExpr(ECall(name, args));
      GenExpr(ECall(name, args + [a])) == c[..|c| - 1] + (", " + GenExpr(a) + ")")
  {
    assert GenArgs(ECall(name, [a]), [a]) == [GenExpr(a)];
    if |args| > 0 {
      var parts := GenArgs(ECall(name, args), args);
      assert GenArgs(ECall(name, args + [a]), args + [a]) == parts + [GenExpr(a)];
      JoinAppend(parts, GenExpr(a), ", ");
      CallPieces(name, Join(parts, ", "), ", " + GenExpr(a));
    }
  }

  /** Cutting the closing parenthesis off `name(j)` leaves `name(j`. */
  lemma CallPieces(name: string, j: string, x: string)
    ensures var c := name + "(" + j + ")"; c[..|c| - 1] + (x + ")") == name + "(" + (j + x) + ")"
  {
    var c := name + "(" + j + ")";
    assert c[..|c| - 1] == name + "(" + j;
  }
}
