/** The syntax tree the Python generator walks (include/parser.h, extended
    with what the generators read: member access, the bitwise operators,
    struct-typed variables, struct declarations and the program's structs).
    A NULL pointer in the C tree is the `ENull` or `SNull` case here; a
    NULL function pointer in the program's function list is `None`. */
module Ast {
  import opened Basics

  datatype VarType = TInt | TFloat | TChar | TString | TVoid

  /** A declared variable, parameter, global or struct field. The C union
      holding an initial value is never read by the generators and is not
      part of the model. */
  datatype Variable = Variable(
    name: string,
    vtype: VarType,
    structName: Option<string>,
    isInitialized: bool,
    isArray: bool,
    arraySize: int)

  /** A literal. A float literal is kept as the text `%f` would print for
      it; its rendering is not modelled. */
  datatype Literal =
    | LInt(intVal: int)
    | LFloat(floatText: string)
    | LChar(charVal: char)
    | LString(stringVal: string)
    | LVoid

  datatype BinOp =
    | OpAdd | OpSub | OpMul | OpDiv | OpMod
    | OpEq | OpNeq | OpLt | OpGt | OpLte | OpGte
    | OpAnd | OpOr | OpAssign
    | OpBitAnd | OpBitOr | OpBitXor | OpShiftLeft | OpShiftRight

  datatype UnOp = OpNegate | OpNot | OpPreInc | OpPreDec | OpPostInc | OpPostDec | OpBitNot

  datatype Expr =
    | ENull
    | EVar(varName: string)
    | ELit(lit: Literal)
    | EBinary(bop: BinOp, left: Expr, right: Expr)
    | EUnary(uop: UnOp, operand: Expr)
    | ECall(funcName: string, args: seq<Expr>)
    | EArrayAccess(arrayName: string, index: Expr)
    | EMemberAccess(structExpr: Expr, memberName: string)

  datatype Stmt =
    | SNull
    | SExpr(expr: Expr)
    | SVarDecl(v: Variable, initializer: Expr)
    | SBlock(stmts: seq<Stmt>)
    | SIf(cond: Expr, thenBranch: Stmt, elseBranch: Stmt)
    | SWhile(whileCond: Expr, whileBody: Stmt)
    | SFor(forInit: Stmt, forCond: Expr, increment: Expr, forBody: Stmt)
    | SReturn(returnValue: Expr)
    | SBreak
    | SContinue
    | SPrint(format: string, printArgs: seq<Expr>)

  datatype Function = Function(name: string, returnType: VarType, params: seq<Variable>, body: Stmt)

  datatype Struct = Struct(structName: string, fields: seq<Variable>)

  datatype Program = Program(structs: seq<Struct>, globals: seq<Variable>, functions: seq<Option<Function>>)
}
