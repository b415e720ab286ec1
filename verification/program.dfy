/** The whole output file (generate_python_code in src/codegen.c): imports,
    struct classes, globals, functions with typed signatures, and the call
    of `main` under the script guard. */
module ProgramCodegen {
  import opened Basics
  import opened Ast
  import opened Codegen
  import opened StatementProps
  import opened StructCodegen

  const Imports: string := "from dataclasses import dataclass, field\n" + "from typing import List\n\n"
  const MainGuard: string := "if __name__ == \"__main__\":\n" + "    main()\n"
  const GlobalsHeader: string := "# Global variables"
  const FunctionsHeader: string := "# Functions"

  /** A parameter in a signature: its name and its hint, the struct name
      for a struct and the Python type name otherwise. */
  function ParamText(p: Variable): string {
    p.name + ": " + (if p.structName.Some? then p.structName.value else PyTypeName(p.vtype))
  }

  function ParamTexts(ps: seq<Variable>): (r: seq<string>)
    ensures |r| == |ps|
    ensures forall j :: 0 <= j < |ps| ==> r[j] == ParamText(ps[j])
  {
    seq(|ps|, j requires 0 <= j < |ps| => ParamText(ps[j]))
  }

  /** The `def` line of a function, without its newline. */
  function Signature(f: Function): string {
    "def " + f.name + "(" + Join(ParamTexts(f.params), ", ") + ") -> " + PyTypeName(f.returnType) + ":"
  }

  /** A function: its signature, its body one level deep, a blank line. */
  function GenFunction(f: Function): string {
    Signature(f) + "\n" + GenStmt(f.body, 1) + "\n"
  }

  /** The functions in order, skipping empty entries. */
  function GenFunctions(fs: seq<Option<Function>>): string
    decreases |fs|
  {
    if |fs| == 0 then ""
    else (if fs[0].Some? then GenFunction(fs[0].value) else "") + GenFunctions(fs[1..])
  }

  /** The globals in order, each declared at the outermost level without an
      initializer. */
  function GenGlobals(gs: seq<Variable>): string
    decreases |gs|
  {
    if |gs| == 0 then "" else GenVarDecl(gs[0], ENull, 0) + GenGlobals(gs[1..])
  }

  /** The generated file, or nothing when there is no program. */
  function GenPython(p: Option<Program>): (r: Option<string>)
    ensures r.Some? <==> p.Some?
    ensures r.Some? ==> (|r.value| >= |Imports| + |MainGuard|
      && r.value[..|Imports|] == Imports
      && r.value[|r.value| - |MainGuard|..] == MainGuard)
  {
    match p
    case None => None
    case Some(prog) =>
      var body := GenStructs(prog.structs)
        + (GlobalsHeader + "\n" + GenGlobals(prog.globals) + "\n")
        + (FunctionsHeader + "\n" + GenFunctions(prog.functions));
      assert (Imports + body + MainGuard)[..|Imports|] == Imports;
      assert (Imports + body + MainGuard)[|Imports + body|..] == MainGuard;
      Some(Imports + body + MainGuard)
  }

  // The functions that are written, as an independent filter.

  function Present(fs: seq<Option<Function>>): (r: seq<Function>)
    ensures |r| <= |fs|
    decreases |fs|
  {
    if |fs| == 0 then []
    else (if fs[0].Some? then [fs[0].value] else []) + Present(fs[1..])
  }

  function Functions(fs: seq<Function>): string
    decreases |fs|
  {
    if |fs| == 0 then "" else GenFunction(fs[0]) + Functions(fs[1..])
  }

  lemma {:induction false} FunctionsAppend(a: seq<Function>, b: seq<Function>)
    ensures Functions(a + b) == Functions(a) + Functions(b)
    decreases |a|
  {
    if |a| == 0 {
      assert a + b == b;
    } else {
      assert (a + b)[0] == a[0];
      assert (a + b)[1..] == a[1..] + b;
      FunctionsAppend(a[1..], b);
    }
  }

  /** Empty entries of the function list leave no trace: the output is that
      of the present functions alone, in their order. */
  lemma {:induction false} EmptyEntriesSkipped(fs: seq<Option<Function>>)
    ensures GenFunctions(fs) == Functions(Present(fs))
    decreases |fs|
  {
    if |fs| > 0 {
      EmptyEntriesSkipped(fs[1..]);
      var head := if fs[0].Some? then [fs[0].value] else [];
      FunctionsAppend(head, Present(fs[1..]));
      if fs[0].Some? {
        assert head[1..] == [];
      }
    }
  }

  /** The written functions are exactly the entries that are present. */
  lemma {:induction false} PresentEntries(fs: seq<Option<Function>>)
    ensures forall f :: f in Present(fs) <==> Some(f) in fs
    decreases |fs|
  {
    if |fs| > 0 {
      PresentEntries(fs[1..]);
      assert fs == [fs[0]] + fs[1..];
    }
  }

  /** A function is its signature at the outermost level, its body's lines,
      each at least one level deep, and a blank line. */
  lemma FunctionLines(f: Function)
    ensures GenFunction(f) == Render([Line(0, Signature(f))] + Layout(f.body, 1) + [Line(0, "")])
    ensures AtLeast(Layout(f.body, 1), 1)
  {
    var body := Layout(f.body, 1);
    GenStmtIsLayout(f.body, 1);
    LayoutDeeper(f.body, 1);
    HeaderLines(0, Signature(f), GenStmt(f.body, 1), body);
    RenderAppend([Line(0, Signature(f))] + body, [Line(0, "")]);
    RenderOne(Line(0, ""));
  }

  function FunctionsLines(fs: seq<Function>): seq<Line>
    decreases |fs|
  {
    if |fs| == 0 then []
    else ([Line(0, Signature(fs[0]))] + Layout(fs[0].body, 1) + [Line(0, "")]) + FunctionsLines(fs[1..])
  }

  /** The functions are, one after another, each function's lines. */
  lemma {:induction false} FunctionsAreLines(fs: seq<Function>)
    ensures Functions(fs) == Render(FunctionsLines(fs))
    decreases |fs|
  {
    if |fs| > 0 {
      FunctionsAreLines(fs[1..]);
      FunctionLines(fs[0]);
      RenderAppend([Line(0, Signature(fs[0]))] + Layout(fs[0].body, 1) + [Line(0, "")], FunctionsLines(fs[1..]));
    }
  }

  function GlobalLines(gs: seq<Variable>): (r: seq<Line>)
    ensures |r| == |gs|
  {
    seq(|gs|, i requires 0 <= i < |gs| => Line(0, DeclLine(gs[i], ENull)))
  }

  /** The globals are one declaration line each, at the outermost level, in
      order, with the declared default. */
  lemma {:induction false} GlobalsAreLines(gs: seq<Variable>)
    ensures GenGlobals(gs) == Render(GlobalLines(gs))
    decreases |gs|
  {
    if |gs| > 0 {
      GlobalsAreLines(gs[1..]);
      GlobalLinesCons(gs);
      HeaderLines(0, DeclLine(gs[0], ENull), GenGlobals(gs[1..]), GlobalLines(gs[1..]));
    }
  }

  lemma GlobalLinesCons(gs: seq<Variable>)
    requires |gs| > 0
    ensures GlobalLines(gs) == [Line(0, DeclLine(gs[0], ENull))] + GlobalLines(gs[1..])
  {
  }

  /** A parameter is written as the head of the declaration of the same
      variable, before its ` = `. */
  lemma ParamIsDeclarationHead(p: Variable)
    ensures exists v :: DeclLine(p, ENull) == ParamText(p) + " = " + v
  {
    if p.structName.Some? {
      var s := p.structName.value;
      assert DeclLine(p, ENull) == ParamText(p) + " = " + (s + "()");
    } else {
      assert DeclLine(p, ENull) == ParamText(p) + " = " + DeclValue(p, ENull);
    }
  }

  /** The lines of a program between the imports and the main guard: the
      struct section, the globals under their comment line followed by a
      blank line, then the functions that are present under their comment
      line. */
  function ProgramLines(prog: Program): seq<Line> {
    StructsLines(prog.structs)
      + ([Line(0, GlobalsHeader)] + (GlobalLines(prog.globals) + [Line(0, "")]))
      + ([Line(0, FunctionsHeader)] + FunctionsLines(Present(prog.functions)))
  }

  /** The generated file is the imports, the program's lines written out,
      and the main guard. */
  lemma ProgramLayout(prog: Program)
    ensures GenPython(Some(prog)) == Some(Imports + Render(ProgramLines(prog)) + MainGuard)
  {
    var s := StructsLines(prog.structs);
    var g := [Line(0, GlobalsHeader)] + (GlobalLines(prog.globals) + [Line(0, "")]);
    var f := [Line(0, FunctionsHeader)] + FunctionsLines(Present(prog.functions));
    StructsAreLines(prog.structs);
    GlobalsSection(prog.globals);
    FunctionsSection(prog.functions);
    RenderAppend(s + g, f);
    RenderAppend(s, g);
  }

  lemma GlobalsSection(gs: seq<Variable>)
    ensures Render([Line(0, GlobalsHeader)] + (GlobalLines(gs) + [Line(0, "")]))
         == GlobalsHeader + "\n" + GenGlobals(gs) + "\n"
  {
    GlobalsAreLines(gs);
    HeaderThenBlank(GlobalsHeader, GenGlobals(gs), GlobalLines(gs));
  }

  /** A header line, some lines, and a blank line. */
  lemma HeaderThenBlank(head: string, gb: string, lb: seq<Line>)
    requires gb == Render(lb)
    ensures Render([Line(0, head)] + (lb + [Line(0, "")])) == head + "\n" + gb + "\n"
  {
    RenderAppend(lb, [Line(0, "")]);
    RenderOne(Line(0, ""));
    HeaderLines(0, head, gb + "\n", lb + [Line(0, "")]);
    assert Indent(0) == "";
  }

  lemma FunctionsSection(fs: seq<Option<Function>>)
    ensures Render([Line(0, FunctionsHeader)] + FunctionsLines(Present(fs)))
         == FunctionsHeader + "\n" + GenFunctions(fs)
  {
    EmptyEntriesSkipped(fs);
    FunctionsAreLines(Present(fs));
    HeaderAtTop(FunctionsHeader, GenFunctions(fs), FunctionsLines(Present(fs)));
  }

  /** A header line at the outermost level followed by other lines. */
  lemma HeaderAtTop(head: string, gb: string, lb: seq<Line>)
    requires gb == Render(lb)
    ensures Render([Line(0, head)] + lb) == head + "\n" + gb
  {
    HeaderLines(0, head, gb, lb);
    assert Indent(0) == "";
  }
}
