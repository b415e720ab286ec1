/** The dataclass generator (src/struct_codegen.c): every C struct becomes a
    `@dataclass` whose fields carry type hints and defaults. */
module StructCodegen {
  import opened Basics
  import opened Ast
  import opened Codegen
  import opened StatementProps

  /** The text of a field line, between its indentation and its newline.
      An array field gets a list factory whose element is always `0`; any
      other field gets the default of its scalar type, even when its hint
      is a struct name. */
  function FieldText(f: Variable): string {
    if f.isArray then
      f.name + ": List[" + PyTypeName(f.vtype) + "] = field(default_factory=lambda: "
        + ListRepeat("0", f.arraySize) + ")"
    else
      f.name + ": " + (if f.structName.Some? then f.structName.value else PyTypeName(f.vtype))
        + " = " + ScalarDefault(f.vtype)
  }

  /** A field, one level deep inside its class. */
  function GenField(f: Variable): string {
    Indent(1) + FieldText(f) + "\n"
  }

  function GenFields(fs: seq<Variable>): string
    decreases |fs|
  {
    if |fs| == 0 then "" else GenField(fs[0]) + GenFields(fs[1..])
  }

  /** One class: decorator, header, fields in declaration order, and a
      blank line. */
  function GenClass(s: Struct): string {
    "@dataclass\n" + ("class " + s.structName + ":\n" + (GenFields(s.fields) + "\n"))
  }

  function GenClasses(ss: seq<Struct>): string
    decreases |ss|
  {
    if |ss| == 0 then "" else GenClass(ss[0]) + GenClasses(ss[1..])
  }

  /** All structs of a program: nothing at all when there are none, else a
      comment line followed by one class per struct, in order. */
  function GenStructs(ss: seq<Struct>): string {
    if |ss| == 0 then "" else "# Struct definitions\n" + GenClasses(ss)
  }

  // The same output as lines.

  function FieldLines(fs: seq<Variable>): (r: seq<Line>)
    ensures |r| == |fs|
  {
    seq(|fs|, i requires 0 <= i < |fs| => Line(1, FieldText(fs[i])))
  }

  function ClassLines(s: Struct): seq<Line> {
    [Line(0, "@dataclass")] + ([Line(0, "class " + s.structName + ":")] + (FieldLines(s.fields) + [Line(0, "")]))
  }

  function ClassesLines(ss: seq<Struct>): seq<Line>
    decreases |ss|
  {
    if |ss| == 0 then [] else ClassLines(ss[0]) + ClassesLines(ss[1..])
  }

  const StructsHeader: string := "# Struct definitions"

  function StructsLines(ss: seq<Struct>): seq<Line> {
    if |ss| == 0 then [] else [Line(0, StructsHeader)] + ClassesLines(ss)
  }

  lemma {:induction false} FieldsAreLines(fs: seq<Variable>)
    ensures GenFields(fs) == Render(FieldLines(fs))
    decreases |fs|
  {
    if |fs| > 0 {
      FieldsAreLines(fs[1..]);
      FieldLinesCons(fs);
      HeaderLines(1, FieldText(fs[0]), GenFields(fs[1..]), FieldLines(fs[1..]));
    }
  }

  lemma FieldLinesCons(fs: seq<Variable>)
    requires |fs| > 0
    ensures FieldLines(fs) == [Line(1, FieldText(fs[0]))] + FieldLines(fs[1..])
  {
  }

  lemma TextLine(t: string)
    ensures Render([Line(0, t)]) == t + "\n"
  {
    RenderOne(Line(0, t));
  }

  lemma ClassIsLines(s: Struct)
    ensures GenClass(s) == Render(ClassLines(s))
  {
    FieldsAreLines(s.fields);
    ClassFromParts(s.structName, FieldLines(s.fields), GenFields(s.fields));
  }

  lemma ClassFromParts(name: string, fl: seq<Line>, gf: string)
    requires Render(fl) == gf
    ensures Render([Line(0, "@dataclass")] + ([Line(0, "class " + name + ":")] + (fl + [Line(0, "")])))
         == "@dataclass\n" + ("class " + name + ":\n" + (gf + "\n"))
  {
    var cls := "class " + name + ":";
    var blank := [Line(0, "")];
    TextLine("");
    RenderAppend(fl, blank);
    HeaderLines(0, cls, gf + "\n", fl + blank);
    HeaderLines(0, "@dataclass", cls + "\n" + (gf + "\n"), [Line(0, cls)] + (fl + blank));
    ClassText(name, gf + "\n");
  }

  lemma ClassText(name: string, x: string)
    ensures "@dataclass" + "\n" + ("class " + name + ":" + "\n" + x) == "@dataclass\n" + ("class " + name + ":\n" + x)
  {
    assert "@dataclass" + "\n" == "@dataclass\n";
    assert "class " + name + ":" + "\n" == "class " + name + ":\n" by {
      RegroupColon("", "class ", name);
    }
  }

  lemma {:induction false} ClassesAreLines(ss: seq<Struct>)
    ensures GenClasses(ss) == Render(ClassesLines(ss))
    decreases |ss|
  {
    if |ss| > 0 {
      ClassesAreLines(ss[1..]);
      ClassIsLines(ss[0]);
      RenderAppend(ClassLines(ss[0]), ClassesLines(ss[1..]));
    }
  }

  /** The generated text is exactly the struct lines written out. */
  lemma StructsAreLines(ss: seq<Struct>)
    ensures GenStructs(ss) == Render(StructsLines(ss))
  {
    if |ss| > 0 {
      ClassesAreLines(ss);
      RenderAppend([Line(0, StructsHeader)], ClassesLines(ss));
      TextLine(StructsHeader);
    }
  }

  /** A class is its decorator, its header, one line per field in
      declaration order at level 1, and a blank line; every other line is at
      level 0. */
  lemma ClassShape(s: Struct)
    ensures |ClassLines(s)| == |s.fields| + 3
    ensures ClassLines(s)[0] == Line(0, "@dataclass")
    ensures ClassLines(s)[1] == Line(0, "class " + s.structName + ":")
    ensures forall j :: 0 <= j < |s.fields| ==> ClassLines(s)[2 + j] == Line(1, FieldText(s.fields[j]))
    ensures ClassLines(s)[|s.fields| + 2] == Line(0, "")
  {
  }

  /** The comment line opening the struct section is written once, before
      the first class, and only when there is a struct: no class line can
      be taken for it. */
  lemma HeaderOnce(ss: seq<Struct>)
    ensures |ss| == 0 <==> StructsLines(ss) == []
    ensures |ss| > 0 ==> StructsLines(ss)[0] == Line(0, StructsHeader)
    ensures forall i :: 0 < i < |StructsLines(ss)| ==> StructsLines(ss)[i] != Line(0, StructsHeader)
  {
    if |ss| > 0 {
      ClassesNoComment(ss);
      var l := StructsLines(ss);
      assert StructsHeader[0] == '#';
      forall i | 0 < i < |l| ensures l[i] != Line(0, StructsHeader) {
        assert l[i] == ClassesLines(ss)[i - 1];
      }
    }
  }

  /** A line that cannot be a comment at the outermost level. */
  predicate NotComment(l: Line) {
    l.level != 0 || |l.text| == 0 || l.text[0] != '#'
  }

  predicate NoComment(ls: seq<Line>) {
    forall i :: 0 <= i < |ls| ==> NotComment(ls[i])
  }

  lemma NoCommentAppend(a: seq<Line>, b: seq<Line>)
    requires NoComment(a) && NoComment(b)
    ensures NoComment(a + b)
  {
    forall i | 0 <= i < |a + b| ensures NotComment((a + b)[i]) {
      if i >= |a| {
        assert (a + b)[i] == b[i - |a|];
      }
    }
  }

  lemma ClassNoComment(s: Struct)
    ensures NoComment(ClassLines(s))
  {
    var c := ClassLines(s);
    ClassShape(s);
    assert ("class " + s.structName + ":")[0] == 'c';
    forall i | 0 <= i < |c| ensures NotComment(c[i]) {
      if 2 <= i < |c| - 1 {
        assert c[i] == Line(1, FieldText(s.fields[i - 2]));
      }
    }
  }

  lemma {:induction false} ClassesNoComment(ss: seq<Struct>)
    ensures NoComment(ClassesLines(ss))
    decreases |ss|
  {
    if |ss| > 0 {
      ClassesNoComment(ss[1..]);
      ClassNoComment(ss[0]);
      NoCommentAppend(ClassLines(ss[0]), ClassesLines(ss[1..]));
    }
  }

  /** Structs are written in order: the section for `a + b` is the section
      for `a` followed by the classes of `b`. */
  lemma {:induction false} ClassesAppend(a: seq<Struct>, b: seq<Struct>)
    ensures GenClasses(a + b) == GenClasses(a) + GenClasses(b)
    decreases |a|
  {
    if |a| == 0 {
      assert a + b == b;
    } else {
      assert (a + b)[0] == a[0];
      assert (a + b)[1..] == a[1..] + b;
      ClassesAppend(a[1..], b);
    }
  }

  lemma StructsAppend(a: seq<Struct>, b: seq<Struct>)
    requires |a| > 0
    ensures GenStructs(a + b) == GenStructs(a) + GenClasses(b)
  {
    ClassesAppend(a, b);
  }

  /** A plain scalar field is written exactly as a global of the same
      variable would be, one level deeper. */
  lemma ScalarFieldIsDeclaration(f: Variable)
    requires !f.isArray && f.structName.None?
    ensures GenField(f) == GenVarDecl(f, ENull, 1)
  {
  }

  /** A struct-typed field is not constructed, unlike a struct-typed
      variable: its default is its scalar type's, so the field line and the
      declaration line differ. */
  lemma StructFieldNotConstructed(f: Variable)
    requires !f.isArray && f.structName.Some?
    ensures GenField(f) != GenVarDecl(f, ENull, 1)
    ensures GenField(f) == Indent(1) + f.name + ": " + f.structName.value + " = " + ScalarDefault(f.vtype) + "\n"
  {
    var sn := f.structName.value;
    var dflt := ScalarDefault(f.vtype);
    assert dflt[|dflt| - 1] != ')';
    LastBeforeNewline(Indent(1), f.name + ": " + sn + " = ", dflt);
    LastBeforeNewline(Indent(1), f.name + ": " + sn + " = " + sn, "()");
  }

  /** The character before the newline of `ind + (p + x) + "\n"` is the last
      character of `x`. */
  lemma LastBeforeNewline(ind: string, p: string, x: string)
    requires |x| > 0
    ensures var line := ind + (p + x) + "\n"; line[|line| - 2] == x[|x| - 1]
  {
  }

  /** An array field's factory builds the list an uninitialised `int`
      array variable of the same size starts as, whatever the field's own
      element type or struct name; for any other element type that list
      differs from the one a variable of the field's type would start as. */
  lemma ArrayFieldDefault(f: Variable)
    requires f.isArray
    ensures FieldText(f) == f.name + ": List[" + PyTypeName(f.vtype) + "] = field(default_factory=lambda: "
      + DeclValue(f.(vtype := TInt, structName := None), ENull) + ")"
    ensures f.vtype != TInt ==> DeclValue(f.(structName := None), ENull) != ListRepeat("0", f.arraySize)
  {
    if f.vtype != TInt {
      var d := ScalarDefault(f.vtype);
      assert ListRepeat(d, f.arraySize)[2] != ListRepeat("0", f.arraySize)[2];
    }
  }
}
