/** The scanner: source text to a token sequence with line and column
    positions (src/lexer.c). The scan is one left-to-right pass; each step
    either emits one token or skips input (whitespace, comments, malformed
    literals, unknown characters), and the sequence ends with one END token. */
module Lexer {
  import opened Basics

  datatype TokenType =
    // scalar type keywords
    | KwInt | KwFloat | KwChar | KwVoid
    // identifiers and literals
    | Ident | Number | CharLit | StringLit
    // operators
    | Plus | Minus | Multiply | Divide | Mod
    | Equals | Eq | Neq | Lt | Gt | Lte | Gte
    | And | Or | Not | Incr | Decr
    // punctuation
    | Semicolon | LParen | RParen | LBrace | RBrace
    | LBracket | RBracket | Comma | Dot
    // control-flow keywords
    | KwIf | KwElse | KwWhile | KwFor | KwDo | KwReturn | KwBreak | KwContinue
    // library-call keywords
    | KwPrintf | KwScanf
    // bitwise operators
    | BitAnd | BitOr | BitXor | BitNot | ShiftLeft | ShiftRight
    // end marker
    | End

  /** A token: its kind, its text (absent only for END, where the C code
      stores NULL), and the line and column where it starts. */
  datatype Token = Token(kind: TokenType, value: Option<string>, line: nat, column: nat)

  const NUL: char := '\0'

  /** The scanner reads a C string, which cannot contain its own terminator. */
  predicate CString(s: string) {
    forall k :: 0 <= k < |s| ==> s[k] != NUL
  }

  /** The character at `i`; at and past the end this is the terminator, which
      is how a look-ahead (or the over-read of a literal cut off by the end of
      input) sees the end. */
  function At(s: string, i: nat): char {
    if i < |s| then s[i] else NUL
  }

  /** `isspace` in the C locale. */
  predicate IsSpace(c: char) {
    c == ' ' || c == '\t' || c == '\n' || c == '\U{000B}' || c == '\U{000C}' || c == '\r'
  }

  predicate IsAlpha(c: char) {
    'a' <= c <= 'z' || 'A' <= c <= 'Z'
  }

  predicate IsIdentStart(c: char) {
    IsAlpha(c) || c == '_'
  }

  predicate IsIdentChar(c: char) {
    IsAlpha(c) || IsDigit(c) || c == '_'
  }

  predicate IsNumberChar(c: char) {
    IsDigit(c) || c == '.'
  }

  /** The fourteen reserved words and their token kinds. */
  const Keywords: map<string, TokenType> :=
    map["int" := KwInt, "float" := KwFloat, "char" := KwChar, "void" := KwVoid,
        "if" := KwIf, "else" := KwElse, "while" := KwWhile, "for" := KwFor, "do" := KwDo,
        "return" := KwReturn, "break" := KwBreak, "continue" := KwContinue,
        "printf" := KwPrintf, "scanf" := KwScanf]

  /** Kind of an identifier-shaped word: its keyword kind, or `Ident`. */
  function KeywordKind(w: string): (k: TokenType)
    ensures w in Keywords ==> k == Keywords[w]
    ensures w !in Keywords <==> k == Ident
  {
    if w in Keywords then Keywords[w] else Ident
  }

  /** The two parallel tables `is_keyword` searches: a word and, at the same
      index, its kind. */
  const KeywordWords: seq<string> :=
    ["int", "float", "char", "void", "if", "else", "while", "for", "do",
     "return", "break", "continue", "printf", "scanf"]
  const KeywordKinds: seq<TokenType> :=
    [KwInt, KwFloat, KwChar, KwVoid, KwIf, KwElse, KwWhile, KwFor, KwDo,
     KwReturn, KwBreak, KwContinue, KwPrintf, KwScanf]

  /** Each table entry is a keyword map entry. */
  lemma TableEntry(i: nat)
    requires i < |KeywordWords|
    ensures i < |KeywordKinds|
    ensures KeywordWords[i] in Keywords && Keywords[KeywordWords[i]] == KeywordKinds[i]
  {
  }

  /** Every keyword map entry is in the table. */
  lemma KeywordsInTables(w: string)
    requires w in Keywords
    ensures w in KeywordWords
  {
    assert Keywords.Keys == {"int", "float", "char", "void", "if", "else", "while", "for", "do",
      "return", "break", "continue", "printf", "scanf"};
  }

  /** `is_keyword`: the kind stored beside the first table word equal to `w`,
      or `Ident` (the C code's -1) when no word matches. It agrees with the
      keyword map for every word. */
  method IsKeyword(w: string) returns (k: TokenType)
    ensures w in Keywords ==> k == Keywords[w]
    ensures w !in Keywords ==> k == Ident
    ensures k == KeywordKind(w)
  {
    var i := 0;
    while i < |KeywordWords|
      invariant 0 <= i <= |KeywordWords|
      invariant forall j :: 0 <= j < i ==> KeywordWords[j] != w
    {
      if KeywordWords[i] == w {
        TableEntry(i);
        return KeywordKinds[i];
      }
      i := i + 1;
    }
    if w in Keywords {
      KeywordsInTables(w);
    }
    return Ident;
  }

  /** Column reached from column `c` after reading `t`, where a newline
      restarts the column at 1. */
  function ColumnAfter(t: string, c: nat): (r: nat)
    ensures '\n' !in t ==> r == c + |t|
    ensures c >= 1 ==> r >= 1
  {
    if t == [] then c
    else ColumnAfter(t[1..], if t[0] == '\n' then 1 else c + 1)
  }

  /** Counting newlines and columns over `s[p..q]` is the move over `s[p]`
      followed by the count over `s[p + 1..q]`. */
  lemma CountersSlice(s: string, p: nat, q: nat, line: nat, col: nat)
    requires p < q <= |s|
    ensures line + Count('\n', s[p..q])
         == (if s[p] == '\n' then line + 1 else line) + Count('\n', s[p + 1..q])
    ensures ColumnAfter(s[p..q], col) == ColumnAfter(s[p + 1..q], if s[p] == '\n' then 1 else col + 1)
  {
    assert s[p..q][1..] == s[p + 1..q];
  }

  /** A block comment's closing delimiter starts at `k`. */
  predicate ClosesComment(s: string, k: nat)
    requires k < |s|
  {
    s[k] == '*' && At(s, k + 1) == '/'
  }

  /** Skips the inside of a block comment from `p` up to its closing `*` `/`
      (or the end of input), counting the newlines it passes. Returns the
      position reached and the line and column there. */
  function SkipBlockComment(s: string, p: nat, line: nat, col: nat): (r: (nat, nat, nat))
    requires p <= |s|
    ensures p <= r.0 <= |s|
    ensures r.0 == |s| || ClosesComment(s, r.0)
    ensures forall k :: p <= k < r.0 ==> !ClosesComment(s, k)
    ensures r.1 == line + Count('\n', s[p..r.0])
    ensures r.2 == ColumnAfter(s[p..r.0], col)
    decreases |s| - p
  {
    if p < |s| && !ClosesComment(s, p) then
      var r := if s[p] == '\n' then SkipBlockComment(s, p + 1, line + 1, 1)
               else SkipBlockComment(s, p + 1, line, col + 1);
      CountersSlice(s, p, r.0, line, col);
      r
    else
      (p, line, col)
  }

  /** The text of a string literal whose body starts at `p`, with `\n`, `\t`
      and `\"` kept as two-character escapes and any other backslash pair
      reduced to its second character; and the position of the closing quote
      (or a position at or past the end when there is none). */
  function ScanString(s: string, p: nat): (r: (string, nat))
    requires p <= |s| + 1
    ensures p <= r.1 <= |s| + 1
    ensures r.1 < |s| ==> s[r.1] == '"'
    decreases |s| + 1 - p
  {
    if p < |s| && s[p] != '"' then
      if s[p] == '\\' then
        var e := At(s, p + 1);
        var piece := if e == 'n' || e == 't' || e == '"' then ['\\', e] else [e];
        var rest := ScanString(s, p + 2);
        (piece + rest.0, rest.1)
      else
        var rest := ScanString(s, p + 1);
        ([s[p]] + rest.0, rest.1)
    else
      ([], p)
  }

  /** Where scanning resumes after a malformed character literal whose
      expected closing quote was missing at `q`: the next quote (skipped),
      the next newline, or the end of input. */
  function RecoverChar(s: string, q: nat): (e: nat)
    requires q <= |s| + 1
    ensures q <= e <= |s| + 1
  {
    if q >= |s| then q
    else
      var e := RunEnd(s, q, c => c != '\'' && c != '\n');
      if e < |s| && s[e] == '\'' then e + 1 else e
  }

  /** What one iteration of the scanning loop produces: perhaps a token, and
      the position, line and column it leaves behind. */
  datatype Scan = Scan(tok: Option<Token>, pos: nat, line: nat, col: nat)

  /** A token of `text` at the current counters; the counters move past it. */
  function Emit(kind: TokenType, text: string, pos: nat, line: nat, col: nat): Scan {
    Scan(Some(Token(kind, Some(text), line, col)), pos + |text|, line, col + |text|)
  }

  /** Operators and punctuation, with one character of look-ahead deciding
      between a two-character operator and its one-character prefix. Any
      other character is skipped without a token. */
  function ScanOperator(s: string, pos: nat, line: nat, col: nat): (r: Scan)
    requires CString(s) && pos < |s| && col >= 1
    ensures WellFormedStep(s, pos, line, col, r)
    ensures r.line == line && r.col == col + (r.pos - pos)
    ensures r.pos == pos + 1 || (r.pos == pos + 2 && pos + 1 < |s|)
  {
    var d := At(s, pos + 1);
    match s[pos]
    case '+' => if d == '+' then Emit(Incr, "++", pos, line, col) else Emit(Plus, "+", pos, line, col)
    case '-' => if d == '-' then Emit(Decr, "--", pos, line, col) else Emit(Minus, "-", pos, line, col)
    case '*' => Emit(Multiply, "*", pos, line, col)
    case '/' => Emit(Divide, "/", pos, line, col)
    case '%' => Emit(Mod, "%", pos, line, col)
    case '=' => if d == '=' then Emit(Eq, "==", pos, line, col) else Emit(Equals, "=", pos, line, col)
    case '!' => if d == '=' then Emit(Neq, "!=", pos, line, col) else Emit(Not, "!", pos, line, col)
    case '<' =>
      if d == '=' then Emit(Lte, "<=", pos, line, col)
      else if d == '<' then Emit(ShiftLeft, "<<", pos, line, col)
      else Emit(Lt, "<", pos, line, col)
    case '>' =>
      if d == '=' then Emit(Gte, ">=", pos, line, col)
      else if d == '>' then Emit(ShiftRight, ">>", pos, line, col)
      else Emit(Gt, ">", pos, line, col)
    case '&' => if d == '&' then Emit(And, "&&", pos, line, col) else Emit(BitAnd, "&", pos, line, col)
    case '|' => if d == '|' then Emit(Or, "||", pos, line, col) else Emit(BitOr, "|", pos, line, col)
    case ';' => Emit(Semicolon, ";", pos, line, col)
    case '(' => Emit(LParen, "(", pos, line, col)
    case ')' => Emit(RParen, ")", pos, line, col)
    case '{' => Emit(LBrace, "{", pos, line, col)
    case '}' => Emit(RBrace, "}", pos, line, col)
    case '[' => Emit(LBracket, "[", pos, line, col)
    case ']' => Emit(RBracket, "]", pos, line, col)
    case ',' => Emit(Comma, ",", pos, line, col)
    case '.' => Emit(Dot, ".", pos, line, col)
    case '^' => Emit(BitXor, "^", pos, line, col)
    case '~' => Emit(BitNot, "~", pos, line, col)
    case _ => Scan(None, pos + 1, line, col + 1)
  }

  /** `(l1, c1)` comes strictly before `(l2, c2)` in reading order. */
  predicate Before(l1: nat, c1: nat, l2: nat, c2: nat) {
    l1 < l2 || (l1 == l2 && c1 < c2)
  }

  /** The facts every step guarantees: it moves forward, the counters move
      forward in reading order, and a token it emits is a non-END token with
      text, stamped with the counters at which the step began. */
  predicate WellFormedStep(s: string, pos: nat, line: nat, col: nat, r: Scan) {
    && pos < r.pos <= |s| + 1
    && r.col >= 1
    && Before(line, col, r.line, r.col)
    && (r.tok.Some? ==> r.tok.value.line == line && r.tok.value.column == col)
    && (r.tok.Some? ==> r.tok.value.kind != End && r.tok.value.value.Some?)
    && (r.tok.Some? && r.tok.value.kind != StringLit ==> |r.tok.value.value.value| > 0)
  }

  /** A line comment: skipped up to, not including, the newline. */
  function SkipLineComment(s: string, pos: nat, line: nat, col: nat): (r: Scan)
    requires pos + 1 < |s| && col >= 1
    ensures WellFormedStep(s, pos, line, col, r) && r.tok.None?
    ensures r.pos <= |s| && (r.pos == |s| || s[r.pos] == '\n')
    ensures forall k :: pos + 2 <= k < r.pos ==> s[k] != '\n'
  {
    var e := RunEnd(s, pos + 2, ch => ch != '\n');
    Scan(None, e, line, col + (e - pos))
  }

  /** A block comment: skipped with its closing delimiter, if any. */
  function SkipBlock(s: string, pos: nat, line: nat, col: nat): (r: Scan)
    requires pos + 1 < |s| && col >= 1
    ensures WellFormedStep(s, pos, line, col, r) && r.tok.None?
  {
    var b := SkipBlockComment(s, pos + 2, line, col + 2);
    if b.0 < |s| then Scan(None, b.0 + 2, b.1, b.2 + 2) else Scan(None, b.0, b.1, b.2)
  }

  /** A character literal: one character, or a backslash and one character,
      between single quotes; without the closing quote, no token. */
  function ScanCharLiteral(s: string, pos: nat, line: nat, col: nat): (r: Scan)
    requires CString(s) && pos < |s| && col >= 1
    ensures WellFormedStep(s, pos, line, col, r)
    ensures r.line == line
    ensures r.tok.Some? ==> r.tok.value.kind == CharLit
  {
    var p := pos + 1;
    var ch := if At(s, p) == '\\' then ['\\', At(s, p + 1)] else [At(s, p)];
    var q := p + |ch|;
    if At(s, q) == '\'' then
      Scan(Some(Token(CharLit, Some(ch), line, col)), q + 1, line, col + (q + 1 - pos))
    else
      var e := RecoverChar(s, q);
      Scan(None, e, line, col + (e - pos))
  }

  /** A string literal; without the closing quote, no token. */
  function ScanStringLiteral(s: string, pos: nat, line: nat, col: nat): (r: Scan)
    requires pos < |s| && col >= 1
    ensures WellFormedStep(s, pos, line, col, r)
    ensures r.line == line
    ensures r.tok.Some? ==> r.tok.value.kind == StringLit
  {
    var (text, q) := ScanString(s, pos + 1);
    if q < |s| then
      Scan(Some(Token(StringLit, Some(text), line, col)), q + 1, line, col + (q + 1 - pos))
    else
      Scan(None, q, line, col + (q - pos))
  }

  /** An identifier or keyword: the maximal run of letters, digits and `_`. */
  function ScanWord(s: string, pos: nat, line: nat, col: nat): (r: Scan)
    requires pos < |s| && col >= 1 && IsIdentStart(s[pos])
    ensures WellFormedStep(s, pos, line, col, r)
  {
    var e := RunEnd(s, pos, IsIdentChar);
    var w := s[pos..e];
    Scan(Some(Token(KeywordKind(w), Some(w), line, col)), e, line, col + (e - pos))
  }

  /** A number: the maximal run of digits and dots; never validated. */
  function ScanNumber(s: string, pos: nat, line: nat, col: nat): (r: Scan)
    requires pos < |s| && col >= 1 && IsDigit(s[pos])
    ensures WellFormedStep(s, pos, line, col, r)
  {
    var e := RunEnd(s, pos, IsNumberChar);
    Scan(Some(Token(Number, Some(s[pos..e]), line, col)), e, line, col + (e - pos))
  }

  /** One iteration of the scanning loop at `pos`, with the counters
      `line`/`col` describing that position. */
  function Step(s: string, pos: nat, line: nat, col: nat): (r: Scan)
    requires CString(s) && pos < |s| && col >= 1
    ensures WellFormedStep(s, pos, line, col, r)
  {
    var c := s[pos];
    if IsSpace(c) then
      if c == '\n' then Scan(None, pos + 1, line + 1, 1) else Scan(None, pos + 1, line, col + 1)
    else if c == '/' && At(s, pos + 1) == '/' then SkipLineComment(s, pos, line, col)
    else if c == '/' && At(s, pos + 1) == '*' then SkipBlock(s, pos, line, col)
    else if IsIdentStart(c) then ScanWord(s, pos, line, col)
    else if IsDigit(c) then ScanNumber(s, pos, line, col)
    else if c == '\'' then ScanCharLiteral(s, pos, line, col)
    else if c == '"' then ScanStringLiteral(s, pos, line, col)
    else ScanOperator(s, pos, line, col)
  }

  /** `t` starts at or after `(line, col)`. */
  predicate NotBefore(line: nat, col: nat, t: Token) {
    line < t.line || (line == t.line && col <= t.column)
  }

  /** `a` starts strictly before `b`. */
  predicate Precedes(a: Token, b: Token) {
    Before(a.line, a.column, b.line, b.column)
  }

  /** The tokens of `s` from position `pos` on, given the counters there. */
  function LexFrom(s: string, pos: nat, line: nat, col: nat): seq<Token>
    requires CString(s) && pos <= |s| + 1 && col >= 1
    decreases |s| + 1 - pos
  {
    if pos >= |s| then
      [Token(End, None, line, col)]
    else
      var st := Step(s, pos, line, col);
      var rest := LexFrom(s, st.pos, st.line, st.col);
      if st.tok.Some? then [st.tok.value] + rest else rest
  }

  /** The shape of every token sequence: exactly one END token, last, with
      NULL text; every other token has text, non-empty unless it is a string
      literal; all tokens lie at or after the starting counters, in strictly
      increasing (line, column) order. */
  predicate WellFormedTokens(r: seq<Token>, line: nat, col: nat) {
    && |r| >= 1
    && r[|r| - 1].kind == End && r[|r| - 1].value == None
    && (forall i :: 0 <= i < |r| - 1 ==> r[i].kind != End && r[i].value.Some?)
    && (forall i :: 0 <= i < |r| - 1 && r[i].kind != StringLit ==> |r[i].value.value| > 0)
    && (forall i :: 0 <= i < |r| ==> NotBefore(line, col, r[i]) && r[i].column >= 1)
    && (forall i, j :: 0 <= i < j < |r| ==> Precedes(r[i], r[j]))
  }

  lemma {:induction false} LexFromWellFormed(s: string, pos: nat, line: nat, col: nat)
    requires CString(s) && pos <= |s| + 1 && col >= 1
    ensures WellFormedTokens(LexFrom(s, pos, line, col), line, col)
    decreases |s| + 1 - pos
  {
    if pos < |s| {
      var st := Step(s, pos, line, col);
      LexFromWellFormed(s, st.pos, st.line, st.col);
      PrependStep(s, pos, line, col, st, LexFrom(s, st.pos, st.line, st.col));
    }
  }

  /** What one step emits, put in front of a well-formed sequence that starts
      where the step ends, gives a well-formed sequence from where it began. */
  lemma PrependStep(s: string, pos: nat, line: nat, col: nat, st: Scan, rest: seq<Token>)
    requires col >= 1 && WellFormedStep(s, pos, line, col, st)
    requires WellFormedTokens(rest, st.line, st.col)
    ensures WellFormedTokens(if st.tok.Some? then [st.tok.value] + rest else rest, line, col)
  {
    if st.tok.Some? {
      PrependOrdered(st.tok.value, rest, st.line, st.col);
      var r := [st.tok.value] + rest;
      forall i | 0 <= i < |r|
        ensures NotBefore(line, col, r[i]) && r[i].column >= 1
      {
        if i > 0 {
          assert r[i] == rest[i - 1];
        }
      }
      forall i | 0 <= i < |r| - 1
        ensures r[i].kind != End && r[i].value.Some?
        ensures r[i].kind != StringLit ==> |r[i].value.value| > 0
      {
        if i > 0 {
          assert r[i] == rest[i - 1];
        }
      }
    } else {
      forall i | 0 <= i < |rest|
        ensures NotBefore(line, col, rest[i])
      {
        assert NotBefore(st.line, st.col, rest[i]);
      }
    }
  }

  /** A token before `(line, col)` can be put in front of a sequence that
      is ordered and lies at or after `(line, col)`. */
  lemma PrependOrdered(t: Token, rest: seq<Token>, line: nat, col: nat)
    requires Before(t.line, t.column, line, col)
    requires forall i :: 0 <= i < |rest| ==> NotBefore(line, col, rest[i])
    requires forall i, j :: 0 <= i < j < |rest| ==> Precedes(rest[i], rest[j])
    ensures forall i, j :: 0 <= i < j < |[t] + rest| ==> Precedes(([t] + rest)[i], ([t] + rest)[j])
  {
    var r := [t] + rest;
    forall i, j | 0 <= i < j < |r|
      ensures Precedes(r[i], r[j])
    {
      if i > 0 {
        assert r[i] == rest[i - 1] && r[j] == rest[j - 1];
      } else {
        assert r[j] == rest[j - 1];
        assert NotBefore(line, col, rest[j - 1]);
      }
    }
  }

  /** The whole token sequence of a source text, starting at line 1,
      column 1. */
  function Lex(s: string): seq<Token>
    requires CString(s)
  {
    LexFrom(s, 0, 1, 1)
  }

  /** Every token sequence the scanner returns is well formed, and its
      positions start at line 1, column 1. */
  lemma LexWellFormed(s: string)
    requires CString(s)
    ensures WellFormedTokens(Lex(s), 1, 1)
    ensures forall i :: 0 <= i < |Lex(s)| ==> Lex(s)[i].line >= 1
  {
    LexFromWellFormed(s, 0, 1, 1);
  }
}
