# csnake in Dafny: scanner and Python generator

csnake translates a small subset of C into Python. This project models
the two ends of that translation: the scanner, and the tree-walking
generator that writes Python from the syntax tree. The parser is left
out. The model covers:

- The scanner (`src/lexer.c`), which turns a C string into tokens.
  - Each token has a kind, its text, and the line and column where it starts.
  - The token sequence ends with exactly one END token.
  - Comments and whitespace are skipped while the counters keep moving.
  - Operators are read by maximal munch.
- The generator (`src/codegen.c`), which renders the syntax tree as Python.
  - Every expression is fully parenthesised, except assignment.
  - Statements nest by four spaces per level.
  - A `for` loop becomes its initializer followed by a `while` loop, with the increment at the end of the body.
  - A `printf` becomes `print` of an f-string, or `print(arg)` when the format is a single conversion with one argument.
  - A variable declaration gets a type hint and a type-derived default.
  - The whole file is an import preamble, the structs, the globals, the functions and the `main` guard.
- The dataclass generator (`src/struct_codegen.c`), which writes one `@dataclass` per C struct.
- The bit helpers shipped with the generated programs (`src/helpers/bitwise_helper.py`).
  - They run over Python's unbounded integers.
  - The bitwise operators read an integer as an infinite two's-complement bit string.

Each generator is a pure function that returns the text the C function
writes to its `FILE *`. The properties are stated in two ways:

- As an independent description. For example, statement text is a list of
  `Line(level, text)` records, and a bit of an integer is read by repeated
  halving.
- As lemmas linking the generator to that description, for all inputs.

Files:

- `basics.dfy`: options, counting, joining, and decimal text of integers.
- `lexer.dfy`: the scanner.
- `lexer_props.dfy`: its properties.
- `ast.dfy`: the syntax tree.
- `codegen.dfy`: the expression, statement and declaration generators.
- `codegen_props.dfy`: the statement layout.
- `expr_props.dfy`: the expression properties.
- `print_props.dfy`: the `printf` translation.
- `decl_props.dfy`: the declaration properties.
- `struct_codegen.dfy`: the dataclass generator.
- `program.dfy`: the whole output file.
- `bitwise.dfy`: the bit helpers.

## Model

| member | source | states |
|---|---|---|
| Lexer.IsKeyword | src/lexer.c:8-26 | the first-match search over the parallel word and kind tables returns, for every word, the kind the keyword map gives it, and `Ident` (the C code's -1 result) for a word outside the map; this is the same kind `KeywordKind`, which the scanner uses, gives |
| Lexer.SkipBlockComment | src/lexer.c:77-100 | the skip stops at the first closing `*/` after the opening one, or at the end of input; the line counter advances by the newlines inside; the column restarts after the last of them |
| Lexer.ScanOperator | src/lexer.c:271-540 | an operator step consumes one character, or two when the second exists; it never changes the line, and the column advances by the characters consumed |
| Lexer.SkipLineComment | src/lexer.c:64-75 | a line comment emits nothing and stops at the newline ending it, or at the end of input |
| Lexer.ScanCharLiteral | src/lexer.c:165-208 | a character-literal step stays on its line and can only emit a CHAR_LITERAL token |
| Lexer.ScanStringLiteral | src/lexer.c:211-268 | a string-literal step can only emit a STRING token, and it never moves the line counter, even over newlines inside the literal |
| Lexer.Step | src/lexer.c:45-543 | every iteration of the scanning loop moves forward and moves the counters consistently; a token it emits starts at the current counters |
| Lexer.LexFromWellFormed | src/lexer.c:45-550 | the tokens from any position form a well-formed sequence: exactly one END token, last, with positions strictly increasing and every non-END token carrying text |
| Lexer.LexWellFormed | src/lexer.c:35-553 | the whole token sequence of a C string is well formed, with every line at least 1 |
| LexerProps.KeywordTable | src/lexer.c:10-25 | no keyword is classified as an identifier or as END, and `struct` is classified as a plain identifier |
| LexerProps.KeywordsAreWords | src/lexer.c:10-12 | every keyword is spelled as an identifier, so the word scanner can reach it |
| LexerProps.KeywordKindsDistinct | src/lexer.c:13-22 | distinct keywords have distinct kinds |
| LexerProps.WordStep | src/lexer.c:114-139 | an identifier run of maximal length becomes one token holding the whole run, classified by the keyword table; scanning resumes after the run on the same line |
| LexerProps.NumberStep | src/lexer.c:141-162 | a run of digits and dots that starts with a digit becomes one NUMBER token, however many dots it has |
| LexerProps.LexDottedNumber | src/lexer.c:147-155 | `1.2.3` is scanned as a single NUMBER token |
| LexerProps.LongestMatch | src/lexer.c:271-540 | maximal munch: a two-character operator beats its one-character prefix; otherwise the one-character operator is taken; an unknown character gives no token and is skipped |
| LexerProps.StepOperator | src/lexer.c:271-543 | at a position no other rule claims, the scanning loop takes the operator step |
| LexerProps.LexBlank | src/lexer.c:48-62 | input of only whitespace yields just the END token, on the line after the last newline and at the column after the last character |
| LexerProps.BlankStep | src/lexer.c:48-62 | in blank input, one whitespace character emits nothing; scanning goes on from the next character on the next line at column 1 after a newline, else with the column advanced |
| LexerProps.LineCommentStep | src/lexer.c:64-75 | a line comment emits nothing, and scanning resumes at its newline on the same line |
| LexerProps.BlockCommentStep | src/lexer.c:77-100 | a block comment emits nothing, and scanning resumes after `*/` with the newlines inside it counted |
| LexerProps.LexOpenBlockComment | src/lexer.c:81-100 | an unclosed block comment swallows the rest of the input |
| LexerProps.StringRoundTrip | src/lexer.c:211-268 | a text without quotes is written between quotes with its backslashes doubled; the scanner reads it back as one STRING token holding exactly that text |
| LexerProps.LexOnlyString | src/lexer.c:211-268 | an input that is one string literal gives that text back, and the line counter ignores newlines inside the literal |
| LexerProps.LexStringEscape | src/lexer.c:219-250 | inside a string literal, `\n`, `\t` and `\"` stay two characters, and any other backslash pair becomes its second character |
| LexerProps.UnterminatedStringStep | src/lexer.c:254-268 | a string literal with no further `"` after its opening quote emits nothing and consumes the rest of the input |
| LexerProps.CharLiteralStep | src/lexer.c:165-192 | a plain one-character literal becomes a CHAR_LITERAL token holding that character |
| LexerProps.EscapedCharLiteralStep | src/lexer.c:170-192 | a character literal with a backslash keeps the backslash in the token's text |
| LexerProps.UnclosedCharStep | src/lexer.c:193-208 | an unclosed character literal emits nothing; scanning resumes after the next quote, or at the next newline or the end of input, whichever comes first |
| Codegen.Indent | src/codegen.c:12-18 | indentation level `n` is exactly `4n` spaces |
| Codegen.PyTypeName | src/codegen.c:21-30 | `char` and `string` (and only they) map to `str`; `void` (and only it) maps to `None` |
| Codegen.ScalarDefault | src/codegen.c:87-104 | the default text is `None` exactly for strings and void |
| Codegen.GenLiteral | src/codegen.c:112-136 | an integer is its decimal text, which reads back as the value with its sign; a character is three characters between single quotes; a string is its text between double quotes |
| StatementProps.GenStmtIsLayout | src/codegen.c:352-446 | the text of any statement is exactly its layout written out: every line is indented by its level and ends in a newline |
| StatementProps.LayoutDeeper | src/codegen.c:362-418 | no line of a statement is shallower than the statement itself; bodies of `if`, `else`, `while` and `for` sit one level deeper |
| StatementProps.BlockAppend | src/codegen.c:352-359 | a block's text is its statements' texts in order, so splitting a block splits its text |
| StatementProps.ForIsWhile | src/codegen.c:391-418 | a `for` generates exactly the text of its desugaring: the initializer, then a `while` (condition `True` when missing) whose body ends with the increment |
| StatementProps.ElseLine | src/codegen.c:362-377 | an `if` has a second line at its own level exactly when it has an else branch, and that line is `else:`, right after the then branch |
| StatementProps.WhileBody | src/codegen.c:380-388 | a `while` is its header followed by body lines, all strictly deeper |
| StatementProps.ForIncrementLast | src/codegen.c:409-417 | a `for`'s increment is its last line, one level deeper than the loop header, right after the body |
| ExpressionProps.OperatorSpelling | src/codegen.c:160-236 | every binary operator keeps the spelling the scanner read it from, except the two logical operators, which become the words `and` and `or` |
| ExpressionProps.BinOpTextInjective | src/codegen.c:173-230 | distinct binary operators are written with distinct Python spellings, so the operator can be read back from the text |
| ExpressionProps.FullyParenthesised | src/codegen.c:160-349 | with names and literals free of parentheses, every generated expression is balanced, and every operator application other than assignment is exactly one parenthesised group |
| ExpressionProps.FixityIrrelevant | src/codegen.c:239-288 | replacing every postfix `++`/`--` by its prefix form leaves the text unchanged |
| ExpressionProps.IncDecForms | src/codegen.c:255-282 | both `++` forms render as `(x += 1)` and both `--` forms as `(x -= 1)` |
| ExpressionProps.CallAppend | src/codegen.c:291-305 | a call without arguments is `name()`; one argument is wrapped in the parentheses; appending an argument inserts `, ` and its text before the closing parenthesis, so arguments appear in order |
| PrintProps.PlainFormat | src/codegen.c:472-528 | format text without `%` is copied unchanged |
| PrintProps.FormatAppend | src/codegen.c:472-528 | translating a format piece by piece gives the same text, with the second piece starting from the arguments the first left over |
| PrintProps.Conversion | src/codegen.c:476-512 | a conversion takes the next argument into `{...}`; with none left the field is empty |
| PrintProps.Escapes | src/codegen.c:514-520 | `%%` becomes `%`, and any other `%x` is copied as it is |
| PrintProps.MissingArgument | src/codegen.c:476-512 | padding the argument list with empty strings never changes the f-string, so a missing argument acts as an empty one |
| PrintProps.Shortcut | src/codegen.c:453-465 | a single conversion with exactly one argument prints `print(arg)`, which is what its f-string `{arg}` would print |
| PrintProps.ShortcutNeedsOneArgument | src/codegen.c:453-470 | a single conversion with zero or several arguments still becomes an f-string |
| PrintProps.TwoConversions | src/codegen.c:472-528 | two conversions in plain text take the two arguments in order |
| PrintProps.LoopExample | test_loop.c:30 | the loop example's `printf` becomes the `print` line of the expected output |
| DeclarationProps.StructIgnoresInitializer | src/codegen.c:53-58 | a struct-typed declaration is `name: S = S()`, the same whatever the initializer, scalar type or array shape |
| DeclarationProps.InitializerWins | src/codegen.c:59-64 | a given initializer is the value, whether or not the variable is an array, whatever its size |
| DeclarationProps.InitializedFlagIrrelevant | src/codegen.c:53-109 | the parser's "initialised" flag never changes the line |
| DeclarationProps.ArrayDefault | src/codegen.c:66-86 | an uninitialised array is `[d] * k`, where `d` is the element default and `k` reads back as the declared size, with its sign |
| DeclarationProps.ScalarDefaultShared | src/codegen.c:66-104 | a scalar's default is the element an array of that type repeats |
| DeclarationProps.DefaultMatchesHint | src/codegen.c:59-104 | the default has the type its hint names, except for strings: hint `str`, default `None` |
| StructCodegen.StructsAreLines | src/struct_codegen.c:7-43 | the struct section is exactly its lines written out |
| StructCodegen.ClassShape | src/struct_codegen.c:17-41 | a class is `@dataclass`, `class S:`, one field line per field in declaration order at level 1, then a blank line |
| StructCodegen.HeaderOnce | src/struct_codegen.c:9-12 | with no struct there is no output at all; otherwise the `# Struct definitions` line comes first and no other line can be taken for it |
| StructCodegen.StructsAppend | src/struct_codegen.c:13-42 | the output for `a + b` is the output for `a`, then the classes of `b` |
| StructCodegen.ScalarFieldIsDeclaration | src/struct_codegen.c:30-39 | a plain scalar field is written exactly as a declaration of the same variable one level deep |
| StructCodegen.StructFieldNotConstructed | src/struct_codegen.c:30-39 | a struct-typed field gets its scalar type's default, unlike a struct-typed variable, which is constructed; the two lines differ |
| StructCodegen.ArrayFieldDefault | src/struct_codegen.c:25-29 | an array field's factory builds the list of an uninitialised `int` array of that size, whatever the field's element type or struct name; for other element types it differs from that type's own default |
| ProgramCodegen.GenPython | src/codegen.c:589-641 | output exists exactly when there is a program, and it starts with the import preamble and ends with the `main` guard |
| ProgramCodegen.ProgramLayout | src/codegen.c:589-641 | between the preamble and the guard the file is, line by line: the struct section, the globals comment, one declaration line per global, a blank line, the functions comment, then for each present function its `def` line, its body's lines and a blank line |
| ProgramCodegen.FunctionsAreLines | src/codegen.c:616-636 | the functions are written one after another, each as its own lines |
| ProgramCodegen.EmptyEntriesSkipped | src/codegen.c:616-636 | empty entries of the function list leave no trace: the output is that of the present functions alone, in order |
| ProgramCodegen.PresentEntries | src/codegen.c:616-619 | the written functions are exactly the present entries |
| ProgramCodegen.FunctionLines | src/codegen.c:620-635 | a function is its `def` line at level 0, its body's lines each at least one level deep, then a blank line |
| ProgramCodegen.GlobalsAreLines | src/codegen.c:608-613 | the globals are one declaration line each, at level 0, in order, with their defaults |
| ProgramCodegen.ParamIsDeclarationHead | src/codegen.c:624-631 | a parameter is written as the `name: hint` head of a declaration of the same variable |
| Bitwise.BitsDetermine | src/helpers/bitwise_helper.py:6-20 | two integers with the same bits are equal, so a bitwise result is fixed by its bits |
| Bitwise.BitmaskBits | src/helpers/bitwise_helper.py:2-4 | `bitmask(n)` is `2^n - 1`, whose set bits are exactly the `n` lowest; a negative `n` is an error |
| Bitwise.GetBitReads | src/helpers/bitwise_helper.py:6-8 | `get_bit(v, p)` is 0 or 1 and equals `(v // 2^p) % 2`; a negative position is an error |
| Bitwise.ShrDivides | src/helpers/bitwise_helper.py:8 | `v >> p` is `v` divided by `2^p`, rounded down |
| Bitwise.SetBitBits | src/helpers/bitwise_helper.py:10-12 | after `set_bit(v, p)`, bit `p` reads 1 and every other bit is unchanged |
| Bitwise.ClearBitBits | src/helpers/bitwise_helper.py:14-16 | after `clear_bit(v, p)`, bit `p` reads 0 and every other bit is unchanged |
| Bitwise.ToggleBitBits | src/helpers/bitwise_helper.py:18-20 | `toggle_bit(v, p)` flips bit `p` and nothing else |
| Bitwise.ToggleTwice | src/helpers/bitwise_helper.py:18-20 | toggling the same bit twice gives the value back |
| Bitwise.SetThenClear | src/helpers/bitwise_helper.py:10-16 | clearing after setting is clearing, and setting after clearing is setting |
| Bitwise.AlreadyThere | src/helpers/bitwise_helper.py:6-16 | `set_bit` leaves a value alone when the bit already reads 1, and `clear_bit` when it already reads 0 |
| Bitwise.OrBits | src/helpers/bitwise_helper.py:12 | bit `k` of the bitwise or of `a` and `b` is 1 exactly when bit `k` of `a` or of `b` is |
| Bitwise.AndBits | src/helpers/bitwise_helper.py:16 | bit `k` of `a & b` is 1 exactly when bit `k` of both is |
| Bitwise.XorBits | src/helpers/bitwise_helper.py:20 | bit `k` of `a ^ b` is 1 exactly when bit `k` of `a` and of `b` differ |
| Bitwise.NotBits | src/helpers/bitwise_helper.py:16 | `~a` flips every bit |

## Left out

- The parser (`src/parser.c`) and the driver (`src/main.c`) are not part of this model. The generators start from a syntax tree built directly.
- File I/O is not modelled: opening the output file, its failure message, and writing with `fprintf`. Each generator returns its text instead. `generate_python_code` with a NULL program gives no output (`None`).
- Diagnostics printed to `stderr` are not modelled. These are the scanner's unknown-character and unclosed-literal reports and `print_token`. Only their effect on the token stream is kept.
- `get_type_name` is not modelled; no generator calls it.
- Float literals are rendered with `%f`. A float literal is kept as the text `%f` would print, because floating-point formatting is not modelled.
- Fixed buffers are not modelled. The C code scans identifiers, numbers and literals into fixed arrays (`id[256]` and the like) and would overflow on longer input. The model has no limit.
- Memory is not modelled: token array growth by `realloc`, `strdup`, and freeing.
- Reads past the end are modelled by a sentinel. Several scanner branches look one character past the current one, and some past the terminating NUL (a backslash or quote at the very end). The model reads the NUL sentinel at and past the end, which makes those reads deterministic.
- `int` overflow of the line and column counters and of array sizes is not modelled; integers are unbounded.
- The `default:` branches for an unknown expression, statement, operator or literal type cannot be reached in the model, because its datatypes are closed.
- The variable value union is not modelled, because no generator reads it.
- The struct generator calls `indent(fp, 1)`, which is not defined in the sources. It is taken to be `print_indent(fp, 1)`: four spaces.
- The scanner reads one Dafny character for each byte of the C string. UTF-8 decoding is not modelled. A character above U+007F counts as one character, and so as one column, where the C code sees several bytes. In a character literal such as `'é'`, the model therefore yields one token, where the C scanner reports an unclosed literal.
- The bit helpers are modelled as Python evaluates them. A negative shift count, which Python rejects with `ValueError`, is an error result.

## Notes on the source

The code and its written description disagree in several places. The model follows the code:

- The keyword table has fourteen entries. It has no `struct` and no assembly keyword.
- A number token may hold several dots (`1.2.3`), and nothing is validated.
- A string literal keeps `\n`, `\t` and `\"` as two characters. It does not turn them into single characters. An empty string literal gives a STRING token with empty text, so not every non-END token has non-empty text.
- A string literal spanning newlines does not advance the line counter.
- The `main` guard is always written, whether or not a `main` function exists.
- A struct-typed struct field gets its scalar type's default, not a constructed value. An array field's list always repeats `0`, whatever its element type.
