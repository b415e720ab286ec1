/** The tree-walking Python generator (src/codegen.c): each generator
    returns the text the C function writes to its output file. */
module Codegen {
  import opened Basics
  import opened Ast

  /** Four spaces per indentation level. */
  function Indent(n: nat): (r: string)
    ensures |r| == 4 * n
    ensures forall k :: 0 <= k < |r| ==> r[k] == ' '
  {
    if n == 0 then "" else "    " + Indent(n - 1)
  }

  /** The Python type hint of a scalar type. */
  function PyTypeName(t: VarType): (r: string)
    ensures r == "str" <==> t == TChar || t == TString
    ensures r == "None" <==> t == TVoid
  {
    match t
    case TInt => "int"
    case TFloat => "float"
    case TChar => "str"
    case TString => "str"
    case TVoid => "None"
  }

  /** The default value written for an uninitialised scalar (or array
      element) of type `t`: strings and void get `None`. */
  function ScalarDefault(t: VarType): (r: string)
    ensures r == "None" <==> t == TString || t == TVoid
  {
    match t
    case TInt => "0"
    case TFloat => "0.0"
    case TChar => "''"
    case _ => "None"
  }

  /** Python spelling of a non-assignment binary operator. */
  function BinOpText(op: BinOp): string {
    match op
    case OpAdd => "+"
    case OpSub => "-"
    case OpMul => "*"
    case OpDiv => "/"
    case OpMod => "%"
    case OpEq => "=="
    case OpNeq => "!="
    case OpLt => "<"
    case OpGt => ">"
    case OpLte => "<="
    case OpGte => ">="
    case OpAnd => "and"
    case OpOr => "or"
    case OpAssign => "="
    case OpBitAnd => "&"
    case OpBitOr => "|"
    case OpBitXor => "^"
    case OpShiftLeft => "<<"
    case OpShiftRight => ">>"
  }

  /** A literal: an integer in decimal, a character between single quotes,
      a string between double quotes (its text as the scanner kept it), a
      float as its given text, anything else as `None`. */
  function GenLiteral(l: Literal): (r: string)
    ensures l.LInt? ==> |r| >= 1 && (l.intVal < 0 <==> r[0] == '-')
    ensures l.LInt? && l.intVal >= 0 ==> (forall k :: 0 <= k < |r| ==> IsDigit(r[k])) && ParseNat(r) == l.intVal
    ensures l.LInt? && l.intVal < 0 ==> (forall k :: 1 <= k < |r| ==> IsDigit(r[k])) && ParseNat(r[1..]) == -l.intVal
    ensures l.LChar? ==> |r| == 3 && r[0] == r[2] == '\'' && r[1] == l.charVal
    ensures l.LString? ==> |r| == |l.stringVal| + 2 && r[0] == r[|r| - 1] == '"' && r[1..|r| - 1] == l.stringVal
  {
    match l
    case LInt(i) => IntToString(i)
    case LFloat(text) => text
    case LChar(c) => ['\'', c, '\'']
    case LString(s) => "\"" + s + "\""
    case LVoid => "None"
  }

  /** An expression. A NULL expression renders as nothing; assignment is the
      only binary operator rendered without parentheses. */
  function GenExpr(e: Expr): string
    decreases e
  {
    match e
    case ENull => ""
    case EVar(name) => name
    case ELit(l) => GenLiteral(l)
    case EBinary(op, left, right) =>
      if op == OpAssign then GenExpr(left) + " = " + GenExpr(right)
      else "(" + GenExpr(left) + " " + BinOpText(op) + " " + GenExpr(right) + ")"
    case EUnary(op, x) => UnaryOpen(op) + GenExpr(x) + UnaryClose(op)
    case ECall(name, args) => name + "(" + Join(GenArgs(e, args), ", ") + ")"
    case EArrayAccess(name, index) => name + "[" + GenExpr(index) + "]"
    case EMemberAccess(target, member) => GenExpr(target) + "." + member
  }

  /** The text written before the operand of a unary operator. */
  function UnaryOpen(op: UnOp): string {
    match op
    case OpNegate => "(-"
    case OpNot => "(not "
    case OpBitNot => "(~"
    case _ => "("
  }

  /** The text written after the operand of a unary operator: increments
      and decrements, prefix or postfix alike, become augmented
      assignments. */
  function UnaryClose(op: UnOp): string {
    match op
    case OpPreInc => " += 1)"
    case OpPostInc => " += 1)"
    case OpPreDec => " -= 1)"
    case OpPostDec => " -= 1)"
    case _ => ")"
  }

  /** The rendered arguments of a call `e`, in order. */
  function GenArgs(e: Expr, args: seq<Expr>): (r: seq<string>)
    requires forall i :: 0 <= i < |args| ==> args[i] < e
    ensures |r| == |args|
    decreases e, 0
  {
    seq(|args|, i requires 0 <= i < |args| => GenExpr(args[i]))
  }

  /** The rendered arguments of a `printf` statement, in order. */
  function RenderArgs(args: seq<Expr>): (r: seq<string>)
    ensures |r| == |args|
    ensures forall i :: 0 <= i < |args| ==> r[i] == GenExpr(args[i])
  {
    seq(|args|, i requires 0 <= i < |args| => GenExpr(args[i]))
  }

  /** A variable declaration at the given indentation. A struct-typed
      variable is constructed and its initializer ignored; otherwise the
      initializer, or a type-derived default (`[d] * n` for an array). */
  function GenVarDecl(v: Variable, init: Expr, indent: nat): string {
    Indent(indent) + DeclLine(v, init) + "\n"
  }

  /** The text of a declaration line, between the indentation and the
      newline. */
  function DeclLine(v: Variable, init: Expr): string {
    if v.structName.Some? then
      v.name + ": " + v.structName.value + " = " + v.structName.value + "()"
    else
      v.name + ": " + PyTypeName(v.vtype) + " = " + DeclValue(v, init)
  }

  /** The right-hand side of a declaration of a variable without a struct
      type. */
  function DeclValue(v: Variable, init: Expr): string {
    if init != ENull then GenExpr(init)
    else if v.isArray then ListRepeat(ScalarDefault(v.vtype), v.arraySize)
    else ScalarDefault(v.vtype)
  }

  /** The Python list of `size` copies of `elem`. */
  function ListRepeat(elem: string, size: int): string {
    "[" + elem + "] * " + IntToString(size)
  }

  /** The body of the f-string a `printf` format becomes, given the rendered
      arguments: each `%d`, `%f`, `%c` or `%s` becomes a replacement field
      holding the next argument (empty when none is left), `%%` becomes `%`,
      any other `%x` and a final lone `%` are copied as they are. */
  function FString(f: string, args: seq<string>): string
    decreases |f|
  {
    if |f| == 0 then ""
    else if f[0] == '%' && |f| >= 2 then
      var c := f[1];
      if IsConversion(c) then
        "{" + (if |args| > 0 then args[0] else "") + "}" + FString(f[2..], if |args| > 0 then args[1..] else [])
      else if c == '%' then "%" + FString(f[2..], args)
      else ['%', c] + FString(f[2..], args)
    else [f[0]] + FString(f[1..], args)
  }

  predicate IsConversion(c: char) {
    c == 'd' || c == 'f' || c == 'c' || c == 's'
  }

  /** A format that is a single conversion. */
  predicate SingleConversion(f: string) {
    f == "%d" || f == "%f" || f == "%c" || f == "%s"
  }

  /** A `printf` call: `print(arg)` for a single conversion with exactly one
      argument, an f-string otherwise. */
  function PrintCall(f: string, args: seq<string>): string {
    if SingleConversion(f) && |args| == 1 then "print(" + args[0] + ")"
    else "print(f\"" + FString(f, args) + "\")"
  }

  /** A statement at indentation level `n`. Bodies of `if`, `else`, `while`
      and `for` are one level deeper; a `for` becomes its initializer
      followed by a `while` loop whose body ends with the increment. */
  function GenStmt(s: Stmt, n: nat): string
    decreases s, 1
  {
    match s
    case SNull => ""
    case SExpr(e) => Indent(n) + GenExpr(e) + "\n"
    case SVarDecl(v, init) => GenVarDecl(v, init, n)
    case SBlock(stmts) => Concat(GenStmts(s, stmts, n))
    case SIf(_, _, _) => GenIf(s, n)
    case SWhile(_, _) => GenWhile(s, n)
    case SFor(_, _, _, _) => GenFor(s, n)
    case SReturn(value) => Indent(n) + "return " + GenExpr(value) + "\n"
    case SBreak => Indent(n) + "break\n"
    case SContinue => Indent(n) + "continue\n"
    case SPrint(f, args) => Indent(n) + PrintCall(f, RenderArgs(args)) + "\n"
  }

  function GenIf(s: Stmt, n: nat): string
    requires s.SIf?
    decreases s, 0
  {
    Indent(n) + "if " + GenExpr(s.cond) + ":\n" + GenStmt(s.thenBranch, n + 1)
    + (if s.elseBranch != SNull then Indent(n) + "else:\n" + GenStmt(s.elseBranch, n + 1) else "")
  }

  function GenWhile(s: Stmt, n: nat): string
    requires s.SWhile?
    decreases s, 0
  {
    Indent(n) + "while " + GenExpr(s.whileCond) + ":\n" + GenStmt(s.whileBody, n + 1)
  }

  function GenFor(s: Stmt, n: nat): string
    requires s.SFor?
    decreases s, 0
  {
    (if s.forInit != SNull then GenStmt(s.forInit, n) else "")
    + (Indent(n) + "while " + (if s.forCond != ENull then GenExpr(s.forCond) else "True") + ":\n"
       + GenStmt(s.forBody, n + 1))
    + (if s.increment != ENull then Indent(n + 1) + GenExpr(s.increment) + "\n" else "")
  }

  /** The rendered statements of a block `s`, in order, all at level `n`. */
  function GenStmts(s: Stmt, stmts: seq<Stmt>, n: nat): (r: seq<string>)
    requires forall i :: 0 <= i < |stmts| ==> stmts[i] < s
    ensures |r| == |stmts|
    decreases s, 0
  {
    seq(|stmts|, i requires 0 <= i < |stmts| => GenStmt(stmts[i], n))
  }
}
