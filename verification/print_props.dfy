/** Properties of the `printf` translation: plain text passes through,
    conversions take the arguments left to right, a missing argument leaves
    an empty replacement field, and the `print(arg)` shortcut agrees with
    the f-string it replaces. */
module PrintProps {
  import opened Basics
  import opened Codegen

  /** The number of arguments a format consumes, scanning it as `FString`
      does. */
  function Specs(f: string): nat
    decreases |f|
  {
    if |f| == 0 then 0
    else if f[0] == '%' && |f| >= 2 then
      (if IsConversion(f[1]) then 1 else 0) + Specs(f[2..])
    else Specs(f[1..])
  }

  /** Scanning `f` in pairs never leaves a `%` waiting for the next
      character: `f` does not end in a lone `%`. */
  predicate Clean(f: string)
    decreases |f|
  {
    if |f| == 0 then true
    else if f[0] == '%' then |f| >= 2 && Clean(f[2..])
    else Clean(f[1..])
  }

  /** The arguments left after `k` have been taken. */
  function Rest(args: seq<string>, k: nat): seq<string> {
    if k <= |args| then args[k..] else []
  }

  /** Text without `%` is copied unchanged. */
  lemma {:induction false} PlainFormat(f: string, args: seq<string>)
    requires '%' !in f
    ensures FString(f, args) == f
    decreases |f|
  {
    if |f| > 0 {
      assert f[0] != '%';
      assert '%' !in f[1..] by {
        forall k | 0 <= k < |f[1..]| ensures f[1..][k] != '%' {
          assert f[1..][k] == f[k + 1];
        }
      }
      PlainFormat(f[1..], args);
      assert f == [f[0]] + f[1..];
    }
  }

  lemma RestStep(args: seq<string>, k: nat)
    ensures Rest(if |args| > 0 then args[1..] else [], k) == Rest(args, k + 1)
  {
  }

  /** Translating a format piece by piece: the second piece starts with the
      arguments the first left over. */
  lemma {:induction false} FormatAppend(a: string, b: string, args: seq<string>)
    requires Clean(a)
    ensures FString(a + b, args) == FString(a, args) + FString(b, Rest(args, Specs(a)))
    decreases |a|
  {
    if |a| == 0 {
      assert a + b == b;
    } else if a[0] == '%' {
      var c := a[1];
      assert (a + b)[0] == '%' && (a + b)[1] == c;
      assert (a + b)[2..] == a[2..] + b;
      if IsConversion(c) {
        var arg := if |args| > 0 then args[0] else "";
        var rest := if |args| > 0 then args[1..] else [];
        FormatAppend(a[2..], b, rest);
        RestStep(args, Specs(a[2..]));
        ConversionStep(a, b, args);
      } else {
        FormatAppend(a[2..], b, args);
        EscapeStep(a, b, args);
      }
    } else {
      assert (a + b)[0] == a[0];
      assert (a + b)[1..] == a[1..] + b;
      FormatAppend(a[1..], b, args);
      var tail := FString(a[1..] + b, args);
      assert FString(a + b, args) == [a[0]] + tail;
      assert FString(a, args) == [a[0]] + FString(a[1..], args);
    }
  }

  /** One conversion step of `FormatAppend`, with the inductive hypothesis
      given. */
  lemma ConversionStep(a: string, b: string, args: seq<string>)
    requires |a| >= 2 && a[0] == '%' && IsConversion(a[1])
    requires var rest := if |args| > 0 then args[1..] else [];
      FString(a[2..] + b, rest) == FString(a[2..], rest) + FString(b, Rest(rest, Specs(a[2..])))
    requires Rest(if |args| > 0 then args[1..] else [], Specs(a[2..])) == Rest(args, Specs(a[2..]) + 1)
    ensures FString(a + b, args) == FString(a, args) + FString(b, Rest(args, Specs(a)))
  {
    var rest := if |args| > 0 then args[1..] else [];
    assert (a + b)[2..] == a[2..] + b;
    var h := ConversionUnfold(a + b, args);
    var h' := ConversionUnfold(a, args);
    assert Specs(a) == 1 + Specs(a[2..]);
    Assoc(h, FString(a[2..], rest), FString(b, Rest(rest, Specs(a[2..]))));
  }

  /** One escape step of `FormatAppend`, with the inductive hypothesis
      given. */
  lemma EscapeStep(a: string, b: string, args: seq<string>)
    requires |a| >= 2 && a[0] == '%' && !IsConversion(a[1])
    requires FString(a[2..] + b, args) == FString(a[2..], args) + FString(b, Rest(args, Specs(a[2..])))
    ensures FString(a + b, args) == FString(a, args) + FString(b, Rest(args, Specs(a)))
  {
    assert (a + b)[2..] == a[2..] + b;
    var h := EscapeUnfold(a + b, args);
    var h' := EscapeUnfold(a, args);
    assert Specs(a) == Specs(a[2..]);
    Assoc(h, FString(a[2..], args), FString(b, Rest(args, Specs(a[2..]))));
  }

  /** The translation of a format that starts with a conversion: its
      replacement field `h`, then the rest with one argument fewer. */
  lemma ConversionUnfold(f: string, args: seq<string>) returns (h: string)
    requires |f| >= 2 && f[0] == '%' && IsConversion(f[1])
    ensures h == "{" + (if |args| > 0 then args[0] else "") + "}"
    ensures FString(f, args) == h + FString(f[2..], if |args| > 0 then args[1..] else [])
  {
    h := "{" + (if |args| > 0 then args[0] else "") + "}";
  }

  /** The translation of a format that starts with `%` and a character
      that is not a conversion: the escape `h`, then the rest. */
  lemma EscapeUnfold(f: string, args: seq<string>) returns (h: string)
    requires |f| >= 2 && f[0] == '%' && !IsConversion(f[1])
    ensures h == (if f[1] == '%' then "%" else ['%', f[1]])
    ensures FString(f, args) == h + FString(f[2..], args)
  {
    h := if f[1] == '%' then "%" else ['%', f[1]];
  }

  lemma Assoc(x: string, y: string, z: string)
    ensures x + (y + z) == x + y + z
  {
  }

  /** A conversion takes the next argument; with none left its replacement
      field is empty. */
  lemma Conversion(c: char, args: seq<string>)
    requires IsConversion(c)
    ensures |args| > 0 ==> FString(['%', c], args) == "{" + args[0] + "}"
    ensures |args| == 0 ==> FString(['%', c], args) == "{}"
  {
    var f := ['%', c];
    var arg := if |args| > 0 then args[0] else "";
    var rest := if |args| > 0 then args[1..] else [];
    assert f[0] == '%' && f[1] == c && f[2..] == [];
    assert FString(f[2..], rest) == "";
    assert FString(f, args) == "{" + arg + "}" + "";
  }

  /** `%%` is a percent sign; any other `%x` stays as it is. */
  lemma Escapes(c: char, args: seq<string>)
    requires !IsConversion(c)
    ensures FString(['%', c], args) == (if c == '%' then "%" else ['%', c])
  {
    assert ['%', c][2..] == [];
  }

  /** `k` empty strings. */
  function Empties(k: nat): (r: seq<string>)
    ensures |r| == k
    ensures forall i :: 0 <= i < k ==> r[i] == ""
  {
    seq(k, i => "")
  }

  /** A missing argument behaves as an empty one: padding the arguments
      with empty strings changes nothing. */
  lemma {:induction false} MissingArgument(f: string, args: seq<string>, k: nat)
    ensures FString(f, args + Empties(k)) == FString(f, args)
    decreases |f|
  {
    if |f| == 0 {
    } else if f[0] == '%' && |f| >= 2 {
      if IsConversion(f[1]) {
        if |args| > 0 {
          assert (args + Empties(k))[0] == args[0];
          assert (args + Empties(k))[1..] == args[1..] + Empties(k);
          MissingArgument(f[2..], args[1..], k);
        } else if k > 0 {
          assert args + Empties(k) == Empties(k);
          assert Empties(k)[1..] == Empties(k - 1);
          MissingArgument(f[2..], [], k - 1);
          assert [] + Empties(k - 1) == Empties(k - 1);
        } else {
          assert args + Empties(k) == args;
        }
      } else {
        MissingArgument(f[2..], args, k);
      }
    } else {
      MissingArgument(f[1..], args, k);
    }
  }

  /** The `print(arg)` shortcut prints what the f-string it replaces
      would: a single conversion with one argument is just that argument's
      replacement field. */
  lemma Shortcut(f: string, args: seq<string>)
    requires SingleConversion(f) && |args| == 1
    ensures PrintCall(f, args) == "print(" + args[0] + ")"
    ensures FString(f, args) == "{" + args[0] + "}"
  {
    Conversion(f[1], args);
    assert f == ['%', f[1]];
  }

  /** A single conversion with no argument, or with more than one, is not
      shortened. */
  lemma ShortcutNeedsOneArgument(c: char, args: seq<string>)
    requires IsConversion(c) && |args| != 1
    ensures PrintCall(['%', c], args) == "print(f\"{" + (if |args| > 0 then args[0] else "") + "}\")"
  {
    Conversion(c, args);
  }

  /** Two conversions in plain text take the two arguments in order. */
  lemma TwoConversions(p1: string, c1: char, p2: string, c2: char, p3: string, a: string, b: string)
    requires '%' !in p1 && '%' !in p2 && '%' !in p3
    requires IsConversion(c1) && IsConversion(c2)
    ensures FString(p1 + (['%', c1] + (p2 + (['%', c2] + p3))), [a, b])
         == p1 + ("{" + a + "}" + (p2 + ("{" + b + "}" + p3)))
  {
    var args := [a, b];
    var s1, s2 := ['%', c1], ['%', c2];
    var r3 := s2 + p3;
    var r2 := p2 + r3;
    var r1 := s1 + r2;
    PlainSpecs(p1);
    PlainSpecs(p2);
    PlainFormat(p1, args);
    PlainFormat(p2, [b]);
    PlainFormat(p3, []);
    Conversion(c1, args);
    Conversion(c2, [b]);
    ConversionSpecs(c1);
    ConversionSpecs(c2);
    FormatAppend(s2, p3, [b]);
    assert Rest([b], 1) == [];
    var f3 := "{" + b + "}" + p3;
    assert FString(r3, [b]) == f3;
    FormatAppend(p2, r3, [b]);
    assert FString(r2, [b]) == p2 + f3;
    FormatAppend(s1, r2, args);
    assert Rest(args, 1) == [b];
    assert FString(r1, args) == "{" + a + "}" + (p2 + f3);
    FormatAppend(p1, r1, args);
  }

  lemma ConversionSpecs(c: char)
    requires IsConversion(c)
    ensures Specs(['%', c]) == 1 && Clean(['%', c])
  {
    assert ['%', c][2..] == [];
  }

  /** The `printf` on line 30 of the loop example (its format as the
      scanner keeps it, with `\n` as two characters) and the `print` line
      generated for it. */
  lemma LoopExample()
    ensures PrintCall("Sum of first " + ("%d" + (" numbers using while loop: " + ("%d" + "\\n"))),
                      ["n", "while_result"])
         == "print(f\"" + ("Sum of first " + ("{" + "n" + "}" + (" numbers using while loop: "
              + ("{" + "while_result" + "}" + "\\n")))) + "\")"
  {
    var p1, p2, p3 := "Sum of first ", " numbers using while loop: ", "\\n";
    assert '%' !in p1 && '%' !in p2 && '%' !in p3;
    TwoConversions(p1, 'd', p2, 'd', p3, "n", "while_result");
  }

  /** Text without `%` takes no argument and can be cut anywhere. */
  lemma {:induction false} PlainSpecs(f: string)
    requires '%' !in f
    ensures Specs(f) == 0 && Clean(f)
    decreases |f|
  {
    if |f| > 0 {
      assert f[0] in f;
      assert '%' !in f[1..] by {
        forall k | 0 <= k < |f[1..]| ensures f[1..][k] != '%' {
          assert f[1..][k] == f[k + 1];
        }
      }
      PlainSpecs(f[1..]);
    }
  }
}
