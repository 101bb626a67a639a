/**
 Where each lexeme ends, as functions of the whole source and a position in it.

 The source is a sequence of Unicode scalar values.  Which of them are letters, numbers or white space is a
 parameter: the lexer takes the host library's tables.
 */
module LexSpec {
  import opened Tokens

  const EOF_CHAR: char := '\0'

  datatype Classes = Classes(alphabetic: char -> bool, numeric: char -> bool, whitespace: char -> bool)

  datatype Lexeme = Lexeme(kind: TokenKind, end: nat)

  // Reading past the end gives the same character as a NUL in the source.
  function Peek(s: string, i: nat): char {
    if i < |s| then s[i] else EOF_CHAR
  }

  predicate Digit(c: char) {
    '0' <= c <= '9'
  }

  predicate HexDigit(c: char) {
    Digit(c) || 'a' <= c <= 'f' || 'A' <= c <= 'F'
  }

  predicate IdentStart(cc: Classes, c: char) {
    cc.alphabetic(c) || c == '_'
  }

  predicate IdentContinue(cc: Classes, c: char) {
    cc.alphabetic(c) || cc.numeric(c) || c == '_'
  }

  predicate HexOrUnderscore(c: char) {
    HexDigit(c) || c == '_'
  }

  predicate DigitOrUnderscore(c: char) {
    Digit(c) || c == '_'
  }

  predicate IsHash(c: char) {
    c == '#'
  }

  // A NUL ends a line comment as a newline does.
  predicate InLineComment(c: char) {
    c != '\n' && c != EOF_CHAR
  }

  function WordBody(cc: Classes): char -> bool {
    c => IdentContinue(cc, c)
  }

  function NumberBody(base: Base): char -> bool {
    d => Digit(d) || d == '_' || (base == Hexadecimal && HexDigit(d))
  }

  /** The first position from `i` on whose character fails `p`, or the end. */
  function EatWhile(p: char -> bool, s: string, i: nat): (e: nat)
    requires i <= |s|
    ensures i <= e <= |s|
    decreases |s| - i
  {
    if i < |s| && p(s[i]) then EatWhile(p, s, i + 1) else i
  }

  /** After an escape whose backslash ends at `i`. */
  function EscapeEnd(s: string, i: nat): (e: nat)
    requires i <= |s|
    ensures i <= e <= |s| && (i < |s| ==> i < e)
  {
    if i == |s| then i
    else if s[i] == 'u' && Peek(s, i + 1) == '{' then
      var j := EatWhile(HexOrUnderscore, s, i + 2);
      if Peek(s, j) == '}' then j + 1 else j
    else if s[i] == 'x' && HexDigit(Peek(s, i + 1)) then
      if HexDigit(Peek(s, i + 2)) then i + 3 else i + 2
    else i + 1
  }

  // Where a scan stopped, and whether it met its terminator.
  datatype Scan = Scan(terminated: bool, end: nat)

  /** The body of a string, byte string or interpolated string, up to the closing `q`. */
  function QuotedEnd(q: char, s: string, i: nat): (r: Scan)
    requires i <= |s|
    ensures i <= r.end <= |s| && (!r.terminated ==> r.end == |s|) && (r.terminated ==> i < r.end)
    decreases |s| - i
  {
    if i == |s| then Scan(false, i)
    else if s[i] == q then Scan(true, i + 1)
    else if s[i] == '\\' then QuotedEnd(q, s, EscapeEnd(s, i + 1))
    else QuotedEnd(q, s, i + 1)
  }

  /** A character or byte literal, after its opening quote. */
  function CharEnd(s: string, i: nat): (r: Scan)
    requires i <= |s|
    ensures i <= r.end <= |s|
  {
    if i == |s| then Scan(false, i)
    else
      var j := if s[i] == '\\' then EscapeEnd(s, i + 1) else i + 1;
      if Peek(s, j) == '\'' then Scan(true, j + 1) else Scan(false, j)
  }

  // At most `most` hashes from `i` on.
  function Hashes(s: string, i: nat, most: nat): (n: nat)
    requires i <= |s|
    ensures n <= most && i + n <= |s|
    decreases most
  {
    if most > 0 && i < |s| && s[i] == '#' then 1 + Hashes(s, i + 1, most - 1) else 0
  }

  /** The body of a raw string opened with `h` hashes. */
  function RawEnd(s: string, i: nat, h: nat): (r: Scan)
    requires i <= |s|
    ensures i <= r.end <= |s| && (!r.terminated ==> r.end == |s|)
    decreases |s| - i
  {
    if i == |s| then Scan(false, i)
    else if s[i] == '"' then
      var n := Hashes(s, i + 1, h);
      if n == h then Scan(true, i + 1 + h) else RawEnd(s, i + 1 + n, h)
    else RawEnd(s, i + 1, h)
  }

  /** A raw string, after its `r`. */
  function RawLexeme(s: string, i: nat): (r: Lexeme)
    requires i <= |s|
    ensures i <= r.end <= |s|
  {
    var j := EatWhile(IsHash, s, i);
    if Peek(s, j) != '"' then Lexeme(Unknown, j)
    else
      var scan := RawEnd(s, j + 1, j - i);
      Lexeme(Str(scan.terminated), scan.end)
  }

  /** A nested comment whose current depth is `depth`: the end of the `~/` that brings it to zero, or of the source. */
  function CommentEnd(s: string, i: nat, depth: nat): (r: Scan)
    requires i <= |s|
    ensures i <= r.end <= |s| && (!r.terminated ==> r.end == |s|)
    decreases |s| - i
  {
    if i == |s| then Scan(false, i)
    else if s[i] == '/' && Peek(s, i + 1) == '~' then CommentEnd(s, i + 2, depth + 1)
    else if s[i] == '~' && Peek(s, i + 1) == '/' then
      if depth <= 1 then Scan(true, i + 2) else CommentEnd(s, i + 2, depth - 1)
    else CommentEnd(s, i + 1, depth)
  }

  /** A number whose first digit is at `i`. */
  function NumberLexeme(s: string, i: nat): (r: Lexeme)
    requires i < |s|
    ensures i < r.end <= |s|
  {
    var c := Peek(s, i + 1);
    var base := if s[i] != '0' then Decimal
                else if c == 'x' then Hexadecimal else if c == 'b' then Base.Binary
                else if c == 'o' then Octal else Decimal;
    var from := if base == Decimal then i + 1 else i + 2;
    var j := EatWhile(NumberBody(base), s, from);
    if Peek(s, j) == '.' && Peek(s, j + 1) != '.' then
      Lexeme(Float, EatWhile(DigitOrUnderscore, s, j + 1))
    else Lexeme(Int(base), j)
  }

  /** A word starting at `i`: keyword, identifier, or the prefix of a raw or byte literal. */
  function WordLexeme(cc: Classes, s: string, i: nat): (r: Lexeme)
    requires i < |s|
    ensures i < r.end <= |s|
  {
    var j := EatWhile(WordBody(cc), s, i + 1);
    var text := s[i..j];
    if text == "r" && (Peek(s, j) == '"' || Peek(s, j) == '#') then RawLexeme(s, j)
    else if text == "b" && Peek(s, j) == '"' then
      var scan := QuotedEnd('"', s, j + 1);
      Lexeme(ByteStr(scan.terminated), scan.end)
    else if text == "b" && Peek(s, j) == '\'' then
      var scan := CharEnd(s, j + 1);
      Lexeme(Byte(scan.terminated), scan.end)
    else Lexeme(WordKind(text), j)
  }

  // One character, or two when the second is `c`.
  function OneOrTwo(s: string, i: nat, c: char, two: TokenKind, one: TokenKind): (r: Lexeme)
    requires i < |s| && c != EOF_CHAR
    ensures i < r.end <= |s|
  {
    if Peek(s, i + 1) == c then Lexeme(two, i + 2) else Lexeme(one, i + 1)
  }

  predicate IsPunctuation(c: char) {
    c in "~!@|:-=.?#+*/%^&<>(){}[],;"
  }

  function Punctuation(s: string, i: nat): (r: Lexeme)
    requires i < |s|
    ensures i < r.end <= |s|
  {
    match s[i]
    case '~' => Lexeme(Tilde, i + 1)
    case '!' => OneOrTwo(s, i, '=', NotEq, Bang)
    case '@' => Lexeme(TokenKind.At, i + 1)
    case '|' => OneOrTwo(s, i, '>', Pipe, Bar)
    case ':' => OneOrTwo(s, i, ':', DoubleColon, Colon)
    case '-' => OneOrTwo(s, i, '>', Arrow, Minus)
    case '=' => if Peek(s, i + 1) == '>' then Lexeme(FatArrow, i + 2) else OneOrTwo(s, i, '=', EqEq, Equal)
    case '.' =>
      if Peek(s, i + 1) == '.' then
        if Peek(s, i + 2) == '=' then Lexeme(DotDotEq, i + 3) else Lexeme(DotDot, i + 2)
      else Lexeme(Dot, i + 1)
    case '?' => OneOrTwo(s, i, '?', QuestionQuestion, Question)
    case '#' => Lexeme(Pound, i + 1)
    case '+' => Lexeme(Plus, i + 1)
    case '*' => Lexeme(Star, i + 1)
    case '/' => Lexeme(Slash, i + 1)
    case '%' => Lexeme(Percent, i + 1)
    case '^' => Lexeme(Caret, i + 1)
    case '&' => OneOrTwo(s, i, '~', AmpersandTilde, Ampersand)
    case '<' => OneOrTwo(s, i, '=', Le, Lt)
    case '>' => OneOrTwo(s, i, '=', Ge, Gt)
    case '(' => Lexeme(OpenParen, i + 1)
    case ')' => Lexeme(CloseParen, i + 1)
    case '{' => Lexeme(OpenBrace, i + 1)
    case '}' => Lexeme(CloseBrace, i + 1)
    case '[' => Lexeme(OpenBracket, i + 1)
    case ']' => Lexeme(CloseBracket, i + 1)
    case ',' => Lexeme(Comma, i + 1)
    case ';' => Lexeme(Semicolon, i + 1)
    case _ => Lexeme(Unknown, i + 1)
  }

  function LiteralLexeme(s: string, i: nat): (r: Lexeme)
    requires i < |s|
    ensures i < r.end <= |s|
  {
    match s[i]
    case '"' => var scan := QuotedEnd('"', s, i + 1); Lexeme(Str(scan.terminated), scan.end)
    case '\'' => var scan := CharEnd(s, i + 1); Lexeme(Char(scan.terminated), scan.end)
    case '`' => var scan := QuotedEnd('`', s, i + 1); Lexeme(InterpolatedStr(scan.terminated), scan.end)
    case _ => Lexeme(Unknown, i + 1)
  }

  /** The token that starts at `i`. */
  function LexemeAt(cc: Classes, s: string, i: nat): (r: Lexeme)
    requires i < |s|
    ensures i < r.end <= |s|
  {
    var c := s[i];
    if cc.whitespace(c) then Lexeme(Whitespace, EatWhile(cc.whitespace, s, i + 1))
    else if c == '/' && Peek(s, i + 1) == '/' then
      Lexeme(Comment, EatWhile(InLineComment, s, i + 2))
    else if c == '/' && Peek(s, i + 1) == '~' then Lexeme(Comment, CommentEnd(s, i + 2, 1).end)
    else if IsPunctuation(c) then Punctuation(s, i)
    else if IdentStart(cc, c) then WordLexeme(cc, s, i)
    else if Digit(c) then NumberLexeme(s, i)
    else LiteralLexeme(s, i)
  }

  // ---- Bytes ----

  function Utf8Len(c: char): (n: nat)
    ensures 1 <= n <= 4
  {
    var u := c as int;
    if u < 0x80 then 1 else if u < 0x800 then 2 else if u < 0x1_0000 then 3 else 4
  }

  function Bytes(s: string): nat {
    if s == [] then 0 else Bytes(s[..|s| - 1]) + Utf8Len(s[|s| - 1])
  }

  lemma {:induction false} BytesAdd(a: string, b: string)
    ensures Bytes(a + b) == Bytes(a) + Bytes(b)
    decreases |b|
  {
    if b == [] {
      assert a + b == a;
    } else {
      assert (a + b)[..|a + b| - 1] == a + b[..|b| - 1];
      BytesAdd(a, b[..|b| - 1]);
    }
  }
}
