/** Properties of the scanner: how each kind of input is tokenised, stated
    against independent descriptions (maximal runs, the operator table, the
    source spelling of a string). */
module LexerProps {
  import opened Basics
  import opened Lexer

  /** No keyword is classified as an identifier or as END, and `struct`
      is not a keyword. */
  lemma KeywordTable()
    ensures forall w :: w in Keywords ==> Keywords[w] != Ident && Keywords[w] != End
    ensures KeywordKind("struct") == Ident
  {
  }

  /** Every keyword is spelled as an identifier, so the word scanner reaches
      it. */
  lemma KeywordsAreWords()
    ensures forall w :: w in Keywords ==> IsWord(w)
  {
  }

  predicate IsWord(w: string) {
    |w| > 0 && IsIdentStart(w[0]) && forall k :: 0 <= k < |w| ==> IsIdentChar(w[k])
  }

  /** Distinct keywords have distinct kinds. */
  lemma KeywordKindsDistinct()
    ensures forall w, v :: w in Keywords && v in Keywords && w != v ==> Keywords[w] != Keywords[v]
  {
  }

  /** A step that emits a token puts it in front of the rest of the scan. */
  lemma {:induction false} StepEmits(s: string, pos: nat, line: nat, col: nat, t: Token, p: nat, l: nat, c: nat)
    requires CString(s) && pos < |s| && col >= 1
    requires Step(s, pos, line, col) == Scan(Some(t), p, l, c)
    ensures LexFrom(s, pos, line, col) == [t] + LexFrom(s, p, l, c)
  {
  }

  /** A step that emits nothing leaves the rest of the scan as the result. */
  lemma {:induction false} StepSkips(s: string, pos: nat, line: nat, col: nat, p: nat, l: nat, c: nat)
    requires CString(s) && pos < |s| && col >= 1
    requires Step(s, pos, line, col) == Scan(None, p, l, c)
    ensures LexFrom(s, pos, line, col) == LexFrom(s, p, l, c)
  {
  }

  lemma {:induction false} StepSpace(s: string, pos: nat, line: nat, col: nat)
    requires CString(s) && pos < |s| && col >= 1 && IsSpace(s[pos])
    ensures Step(s, pos, line, col)
         == if s[pos] == '\n' then Scan(None, pos + 1, line + 1, 1) else Scan(None, pos + 1, line, col + 1)
  {
  }

  lemma {:induction false} StepLineComment(s: string, pos: nat, line: nat, col: nat)
    requires CString(s) && pos + 1 < |s| && col >= 1 && s[pos] == '/' && s[pos + 1] == '/'
    ensures Step(s, pos, line, col) == SkipLineComment(s, pos, line, col)
  {
  }

  lemma {:induction false} StepBlockComment(s: string, pos: nat, line: nat, col: nat)
    requires CString(s) && pos + 1 < |s| && col >= 1 && s[pos] == '/' && s[pos + 1] == '*'
    ensures Step(s, pos, line, col) == SkipBlock(s, pos, line, col)
  {
  }

  lemma {:induction false} StepWord(s: string, pos: nat, line: nat, col: nat)
    requires CString(s) && pos < |s| && col >= 1 && IsIdentStart(s[pos])
    ensures Step(s, pos, line, col) == ScanWord(s, pos, line, col)
  {
  }

  lemma {:induction false} StepNumber(s: string, pos: nat, line: nat, col: nat)
    requires CString(s) && pos < |s| && col >= 1 && IsDigit(s[pos])
    ensures Step(s, pos, line, col) == ScanNumber(s, pos, line, col)
  {
  }

  lemma {:induction false} StepChar(s: string, pos: nat, line: nat, col: nat)
    requires CString(s) && pos < |s| && col >= 1 && s[pos] == '\''
    ensures Step(s, pos, line, col) == ScanCharLiteral(s, pos, line, col)
  {
  }

  lemma {:induction false} StepString(s: string, pos: nat, line: nat, col: nat)
    requires CString(s) && pos < |s| && col >= 1 && s[pos] == '"'
    ensures Step(s, pos, line, col) == ScanStringLiteral(s, pos, line, col)
  {
  }

  /** An identifier run starting at `pos` and ending at `e` (letter or `_`
      first, then letters, digits and `_`, as long as possible) becomes one
      token holding the whole run, classified by the keyword table; the
      scan resumes at `e` on the same line. */
  lemma {:induction false} WordStep(s: string, pos: nat, e: nat, line: nat, col: nat)
    requires CString(s) && col >= 1
    requires pos < e <= |s| && IsIdentStart(s[pos])
    requires forall k :: pos <= k < e ==> IsIdentChar(s[k])
    requires e == |s| || !IsIdentChar(s[e])
    ensures Step(s, pos, line, col)
         == Scan(Some(Token(KeywordKind(s[pos..e]), Some(s[pos..e]), line, col)), e, line, col + (e - pos))
  {
    StepWord(s, pos, line, col);
    ScanWordAt(s, pos, e, line, col);
  }

  lemma {:induction false} ScanWordAt(s: string, pos: nat, e: nat, line: nat, col: nat)
    requires col >= 1
    requires pos < e <= |s| && IsIdentStart(s[pos])
    requires forall k :: pos <= k < e ==> IsIdentChar(s[k])
    requires e == |s| || !IsIdentChar(s[e])
    ensures ScanWord(s, pos, line, col)
         == Scan(Some(Token(KeywordKind(s[pos..e]), Some(s[pos..e]), line, col)), e, line, col + (e - pos))
  {
    RunEndUnique(s, pos, IsIdentChar, e);
  }

  /** A run of digits and dots starting with a digit is one NUMBER token
      holding the whole run, however many dots it has. */
  lemma {:induction false} NumberStep(s: string, pos: nat, e: nat, line: nat, col: nat)
    requires CString(s) && col >= 1
    requires pos < e <= |s| && IsDigit(s[pos])
    requires forall k :: pos <= k < e ==> IsNumberChar(s[k])
    requires e == |s| || !IsNumberChar(s[e])
    ensures Step(s, pos, line, col) == Scan(Some(Token(Number, Some(s[pos..e]), line, col)), e, line, col + (e - pos))
  {
    StepNumber(s, pos, line, col);
    RunEndUnique(s, pos, IsNumberChar, e);
  }

  /** Repeated dots are accepted into one number. */
  lemma {:induction false} LexDottedNumber()
    ensures Lex("1.2.3") == [Token(Number, Some("1.2.3"), 1, 1), Token(End, None, 1, 6)]
  {
    NumberStep("1.2.3", 0, 5, 1, 1);
    assert "1.2.3"[0..5] == "1.2.3";
    StepEmits("1.2.3", 0, 1, 1, Token(Number, Some("1.2.3"), 1, 1), 5, 1, 6);
  }

  /** The operator spellings: ten of two characters, twenty-two of one. */
  const TwoCharOperators: map<string, TokenType> :=
    map["++" := Incr, "--" := Decr, "==" := Eq, "!=" := Neq, "<=" := Lte,
        "<<" := ShiftLeft, ">=" := Gte, ">>" := ShiftRight, "&&" := And, "||" := Or]
  const OneCharOperators: map<char, TokenType> :=
    map['+' := Plus, '-' := Minus, '*' := Multiply, '/' := Divide, '%' := Mod,
        '=' := Equals, '!' := Not, '<' := Lt, '>' := Gt, '&' := BitAnd, '|' := BitOr,
        ';' := Semicolon, '(' := LParen, ')' := RParen, '{' := LBrace, '}' := RBrace,
        '[' := LBracket, ']' := RBracket, ',' := Comma, '.' := Dot, '^' := BitXor, '~' := BitNot]

  /** No other scanning rule claims the character at `pos`: it is not
      whitespace, does not start a comment, an identifier, a number or a
      literal. */
  predicate OperatorPosition(s: string, pos: nat)
    requires pos < |s|
  {
    var c := s[pos];
    && !IsSpace(c) && !IsIdentStart(c) && !IsDigit(c) && c != '\'' && c != '"'
    && !(c == '/' && (At(s, pos + 1) == '/' || At(s, pos + 1) == '*'))
  }

  lemma {:induction false} StepOperator(s: string, pos: nat, line: nat, col: nat)
    requires CString(s) && pos < |s| && col >= 1 && OperatorPosition(s, pos)
    ensures Step(s, pos, line, col) == ScanOperator(s, pos, line, col)
  {
  }

  /** Maximal munch in the operator scanner: a two-character spelling from
      the table beats its one-character prefix; otherwise the one-character
      spelling is taken; a character in neither table yields no token and
      is skipped. (`StepOperator` says when the scanning loop uses it.) */
  lemma LongestMatch(s: string, pos: nat, line: nat, col: nat)
    requires CString(s) && pos < |s| && col >= 1
    ensures var c, d := s[pos], At(s, pos + 1);
      && ([c, d] in TwoCharOperators ==>
            ScanOperator(s, pos, line, col) == Emit(TwoCharOperators[[c, d]], [c, d], pos, line, col))
      && ([c, d] !in TwoCharOperators && c in OneCharOperators ==>
            ScanOperator(s, pos, line, col) == Emit(OneCharOperators[c], [c], pos, line, col))
      && ([c, d] !in TwoCharOperators && c !in OneCharOperators ==>
            ScanOperator(s, pos, line, col) == Scan(None, pos + 1, line, col + 1))
  {
    var c, d := s[pos], At(s, pos + 1);
    assert [c, d][0] == c && [c, d][1] == d;
  }

  /** Input made only of whitespace yields just the END token, on the line
      after the last newline and at the column after the last character. */
  lemma {:induction false} LexBlank(s: string, pos: nat, line: nat, col: nat)
    requires CString(s) && pos <= |s| && col >= 1
    requires Blank(s[pos..])
    ensures LexFrom(s, pos, line, col)
         == [Token(End, None, line + Count('\n', s[pos..]), ColumnAfter(s[pos..], col))]
    decreases |s| - pos
  {
    if pos < |s| {
      var l, c := if s[pos] == '\n' then line + 1 else line, if s[pos] == '\n' then 1 else col + 1;
      BlankStep(s, pos, line, col);
      LexBlank(s, pos + 1, l, c);
    }
  }

  /** Only whitespace. */
  predicate Blank(t: string) {
    forall k :: 0 <= k < |t| ==> IsSpace(t[k])
  }

  /** One whitespace character: no token, and the counters move as the
      newline and column counts over the rest say. */
  lemma BlankStep(s: string, pos: nat, line: nat, col: nat)
    requires CString(s) && pos < |s| && col >= 1 && Blank(s[pos..])
    ensures var l, c := if s[pos] == '\n' then line + 1 else line, if s[pos] == '\n' then 1 else col + 1;
      && Blank(s[pos + 1..])
      && LexFrom(s, pos, line, col) == LexFrom(s, pos + 1, l, c)
      && line + Count('\n', s[pos..]) == l + Count('\n', s[pos + 1..])
      && ColumnAfter(s[pos..], col) == ColumnAfter(s[pos + 1..], c)
  {
    var l, c := if s[pos] == '\n' then line + 1 else line, if s[pos] == '\n' then 1 else col + 1;
    assert s[pos..][0] == s[pos];
    assert s[pos..][1..] == s[pos + 1..];
    StepSpace(s, pos, line, col);
    StepSkips(s, pos, line, col, pos + 1, l, c);
  }

  /** A line comment produces no token: scanning resumes at the newline
      that ends it (or the end of input), on the same line. */
  lemma {:induction false} LineCommentStep(s: string, pos: nat, e: nat, line: nat, col: nat)
    requires CString(s) && col >= 1
    requires pos + 2 <= e <= |s| && s[pos] == '/' && s[pos + 1] == '/'
    requires forall k :: pos + 2 <= k < e ==> s[k] != '\n'
    requires e == |s| || s[e] == '\n'
    ensures Step(s, pos, line, col) == Scan(None, e, line, col + (e - pos))
  {
    StepLineComment(s, pos, line, col);
    RunEndUnique(s, pos + 2, ch => ch != '\n', e);
  }

  /** A block comment produces no token: scanning resumes after its closing
      delimiter, with the line advanced by the newlines it contains and the
      column counted from the last of them. */
  lemma {:induction false} BlockCommentStep(s: string, pos: nat, e: nat, line: nat, col: nat)
    requires CString(s) && col >= 1
    requires pos + 2 <= e && e + 1 < |s| && s[pos] == '/' && s[pos + 1] == '*'
    requires s[e] == '*' && s[e + 1] == '/'
    requires forall k :: pos + 2 <= k < e ==> !ClosesComment(s, k)
    ensures Step(s, pos, line, col)
         == Scan(None, e + 2, line + Count('\n', s[pos + 2..e]), ColumnAfter(s[pos + 2..e], col + 2) + 2)
  {
    StepBlockComment(s, pos, line, col);
    var b := SkipBlockComment(s, pos + 2, line, col + 2);
    assert ClosesComment(s, e);
    assert b.0 == e;
  }

  /** A block comment that is never closed swallows the rest of the input. */
  lemma {:induction false} LexOpenBlockComment(s: string, pos: nat, line: nat, col: nat)
    requires CString(s) && col >= 1
    requires pos + 1 < |s| && s[pos] == '/' && s[pos + 1] == '*'
    requires forall k :: pos + 2 <= k < |s| ==> !ClosesComment(s, k)
    ensures LexFrom(s, pos, line, col)
         == [Token(End, None, line + Count('\n', s[pos + 2..]), ColumnAfter(s[pos + 2..], col + 2))]
  {
    StepBlockComment(s, pos, line, col);
    var b := SkipBlockComment(s, pos + 2, line, col + 2);
    assert b.0 == |s|;
    assert s[pos + 2..b.0] == s[pos + 2..];
    StepSkips(s, pos, line, col, b.0, b.1, b.2);
  }

  /** How a string text is spelled between quotes in the source so that the
      scanner reads it back: each backslash doubled, everything else as is. */
  function EncodeString(t: string): (r: string)
    ensures |r| >= |t|
  {
    if t == [] then []
    else (if t[0] == '\\' then ['\\', '\\'] else [t[0]]) + EncodeString(t[1..])
  }

  lemma {:induction false} EncodeStringAppend(c: char, t: string)
    ensures EncodeString([c] + t) == (if c == '\\' then ['\\', '\\'] else [c]) + EncodeString(t)
  {
    assert ([c] + t)[1..] == t;
  }

  /** Scanning a quote-free text's spelling reads the text back and stops at
      the quote that follows it. */
  lemma {:induction false} ScanEncoded(s: string, p: nat, t: string)
    requires '"' !in t
    requires p + |EncodeString(t)| < |s|
    requires s[p..p + |EncodeString(t)|] == EncodeString(t)
    requires s[p + |EncodeString(t)|] == '"'
    ensures ScanString(s, p) == (t, p + |EncodeString(t)|)
    decreases |t|
  {
    var enc := EncodeString(t);
    if t == [] {
    } else {
      var c := t[0];
      assert t == [c] + t[1..];
      var head := if c == '\\' then ['\\', '\\'] else [c];
      EncodeStringAppend(c, t[1..]);
      var tail := EncodeString(t[1..]);
      assert enc == head + tail;
      assert s[p] == enc[0];
      assert s[p + |head|..p + |head| + |tail|] == enc[|head|..];
      ScanEncoded(s, p + |head|, t[1..]);
      if c == '\\' {
        assert s[p + 1] == enc[1];
      }
    }
  }

  /** Round trip of string literals: a quote-free text, spelled with its
      backslashes doubled and put between quotes, is read back as one
      STRING token holding exactly that text. */
  lemma {:induction false} StringRoundTrip(s: string, pos: nat, t: string, line: nat, col: nat)
    requires CString(s) && col >= 1 && '"' !in t
    requires pos + |EncodeString(t)| + 1 < |s|
    requires s[pos] == '"' && s[pos + 1..pos + 1 + |EncodeString(t)|] == EncodeString(t)
    requires s[pos + 1 + |EncodeString(t)|] == '"'
    ensures Step(s, pos, line, col)
         == Scan(Some(Token(StringLit, Some(t), line, col)),
                 pos + |EncodeString(t)| + 2, line, col + |EncodeString(t)| + 2)
  {
    StepString(s, pos, line, col);
    ScanEncoded(s, pos + 1, t);
  }

  /** A whole input that is one string literal: the text comes back, and the
      line counter does not move even over newlines inside the literal. */
  lemma {:induction false} LexOnlyString(t: string)
    requires CString(t) && '"' !in t
    ensures CString(['"'] + EncodeString(t) + ['"'])
    ensures Lex(['"'] + EncodeString(t) + ['"'])
         == [Token(StringLit, Some(t), 1, 1), Token(End, None, 1, |EncodeString(t)| + 3)]
  {
    var enc := EncodeString(t);
    var s := ['"'] + enc + ['"'];
    assert CString(enc) by { EncodeKeepsCString(t); }
    assert s[1..1 + |enc|] == enc;
    StringRoundTrip(s, 0, t, 1, 1);
    StepEmits(s, 0, 1, 1, Token(StringLit, Some(t), 1, 1), |enc| + 2, 1, |enc| + 3);
  }

  lemma {:induction false} EncodeKeepsCString(t: string)
    requires CString(t)
    ensures CString(EncodeString(t))
  {
    if t != [] {
      EncodeKeepsCString(t[1..]);
    }
  }

  /** Escapes in a string literal: `\n`, `\t` and `\"` stay as two
      characters, any other backslash pair becomes its second character. */
  lemma {:induction false} LexStringEscape(x: char)
    requires x != NUL
    ensures Lex(['"', '\\', x, '"'])
         == [Token(StringLit, Some(if x == 'n' || x == 't' || x == '"' then ['\\', x] else [x]), 1, 1),
             Token(End, None, 1, 5)]
  {
    var s := ['"', '\\', x, '"'];
    var text := if x == 'n' || x == 't' || x == '"' then ['\\', x] else [x];
    assert ScanString(s, 3) == ([], 3);
    assert At(s, 2) == x && s[1] == '\\' && s[1] != '"';
    var piece := if x == 'n' || x == 't' || x == '"' then ['\\', x] else [x];
    assert ScanString(s, 1) == (piece + ScanString(s, 3).0, 3);
    assert piece + [] == text;
    StepString(s, 0, 1, 1);
    StepEmits(s, 0, 1, 1, Token(StringLit, Some(text), 1, 1), 4, 1, 5);
  }

  /** A string literal without a closing quote emits nothing: the rest of
      the input is consumed and only END follows. */
  lemma {:induction false} UnterminatedStringStep(s: string, pos: nat, line: nat, col: nat)
    requires CString(s) && col >= 1
    requires pos < |s| && s[pos] == '"'
    requires forall k :: pos < k < |s| ==> s[k] != '"'
    ensures var r := Step(s, pos, line, col);
            r.tok == None && r.pos >= |s| && r.line == line
  {
    StepString(s, pos, line, col);
  }

  /** A character literal of one plain character. */
  lemma {:induction false} CharLiteralStep(s: string, pos: nat, line: nat, col: nat)
    requires CString(s) && col >= 1
    requires pos + 2 < |s| && s[pos] == '\'' && s[pos + 1] != '\\' && s[pos + 2] == '\''
    ensures Step(s, pos, line, col) == Scan(Some(Token(CharLit, Some([s[pos + 1]]), line, col)), pos + 3, line, col + 3)
  {
    StepChar(s, pos, line, col);
  }

  /** A character literal with a backslash keeps the backslash. */
  lemma {:induction false} EscapedCharLiteralStep(s: string, pos: nat, line: nat, col: nat)
    requires CString(s) && col >= 1
    requires pos + 3 < |s| && s[pos] == '\'' && s[pos + 1] == '\\' && s[pos + 3] == '\''
    ensures Step(s, pos, line, col)
         == Scan(Some(Token(CharLit, Some(['\\', s[pos + 2]]), line, col)), pos + 4, line, col + 4)
  {
    StepChar(s, pos, line, col);
  }

  /** An unclosed character literal emits nothing: scanning resumes after the
      next quote, or at the next newline or the end of input, whichever comes
      first (`e` is that point), on the same line. */
  lemma {:induction false} UnclosedCharStep(s: string, pos: nat, e: nat, line: nat, col: nat)
    requires CString(s) && col >= 1 && pos < |s| && s[pos] == '\''
    requires var q := if At(s, pos + 1) == '\\' then pos + 3 else pos + 2;
             && q <= e <= |s| && At(s, q) != '\''
             && (forall k :: q <= k < e ==> s[k] != '\'' && s[k] != '\n')
             && (e == |s| || s[e] == '\'' || s[e] == '\n')
    ensures var r := if e < |s| && s[e] == '\'' then e + 1 else e;
            Step(s, pos, line, col) == Scan(None, r, line, col + (r - pos))
  {
    StepChar(s, pos, line, col);
    var q := if At(s, pos + 1) == '\\' then pos + 3 else pos + 2;
    if q < |s| {
      RunEndUnique(s, q, c => c != '\'' && c != '\n', e);
    }
    var r := if e < |s| && s[e] == '\'' then e + 1 else e;
    assert RecoverChar(s, q) == r;
  }
}
