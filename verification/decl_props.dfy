/** Properties of variable declarations: which parts of a variable decide
    the generated line, and how the written default relates to the type
    hint beside it. */
module DeclarationProps {
  import opened Basics
  import opened Ast
  import opened Codegen

  /** A struct-typed variable is constructed: the line is the same whatever
      the initializer, the scalar type or the array shape. */
  lemma StructIgnoresInitializer(v: Variable, w: Variable, i1: Expr, i2: Expr, n: nat)
    requires v.structName.Some? && w.structName == v.structName && w.name == v.name
    ensures GenVarDecl(v, i1, n) == GenVarDecl(w, i2, n)
  {
  }

  /** A given initializer is used whether or not the variable is an array,
      whatever its size. */
  lemma InitializerWins(v: Variable, init: Expr, isArray: bool, size: int, n: nat)
    requires v.structName.None? && init != ENull
    ensures GenVarDecl(v.(isArray := isArray, arraySize := size), init, n) == GenVarDecl(v, init, n)
    ensures DeclValue(v, init) == GenExpr(init)
  {
  }

  /** Whether the C parser marked the variable as initialised never changes
      the line: only the initializer expression passed in does. */
  lemma InitializedFlagIrrelevant(v: Variable, flag: bool, init: Expr, n: nat)
    ensures GenVarDecl(v.(isInitialized := flag), init, n) == GenVarDecl(v, init, n)
  {
  }

  /** An uninitialised array of non-negative size is `[d] * k` where `d`
      is the element default and `k` reads back as the size. */
  lemma ArrayDefault(v: Variable)
    requires v.structName.None? && v.isArray
    ensures var k := IntToString(v.arraySize);
      && DeclValue(v, ENull) == "[" + ScalarDefault(v.vtype) + "] * " + k
      && |k| >= 1
      && (v.arraySize >= 0 ==> (forall j :: 0 <= j < |k| ==> IsDigit(k[j])) && ParseNat(k) == v.arraySize)
      && (v.arraySize < 0 ==> k[0] == '-' && ParseNat(k[1..]) == -v.arraySize)
  {
    var k := IntToString(v.arraySize);
    assert |k| >= 1;
  }

  /** An uninitialised scalar takes the default of its type, the same text
      an array of that type repeats. */
  lemma ScalarDefaultShared(v: Variable)
    requires v.structName.None? && !v.isArray
    ensures DeclValue(v, ENull) == ScalarDefault(v.vtype)
    ensures DeclValue(v.(isArray := true), ENull)
         == "[" + DeclValue(v, ENull) + "] * " + IntToString(v.arraySize)
  {
  }

  /** The Python type of a default value's text, as Python would infer it:
      an independent reading of the four texts a default can be. */
  function LiteralType(text: string): Option<string> {
    if text == "0" then Some("int")
    else if text == "0.0" then Some("float")
    else if text == "''" then Some("str")
    else if text == "None" then Some("None")
    else None
  }

  /** The default written for a scalar has the type its hint names, except
      for a string, whose hint is `str` but whose default is `None`. */
  lemma DefaultMatchesHint(t: VarType)
    ensures LiteralType(ScalarDefault(t)).Some?
    ensures LiteralType(ScalarDefault(t)) == Some(PyTypeName(t)) <==> t != TString
  {
  }
}
