/** The lexer itself: a cursor that consumes characters, and `next_token` over it. */
module Lexer {
  import opened Common
  import opened Tokens
  import opened LexSpec
  import opened LexFacts

  // ---- Cursor ----

  class Cursor {
    var chars: string
    var lenRemaining: nat

    ghost predicate Valid()
      reads this
    {
      lenRemaining == Bytes(chars)
    }

    constructor (source: string)
      ensures Valid() && chars == source
    {
      chars := source;
      lenRemaining := Bytes(source);
    }

    /** The next character without consuming it; NUL at the end. */
    function First(): (c: char)
      reads this
      ensures chars != [] ==> c == chars[0]
      ensures chars == [] ==> c == EOF_CHAR
    {
      Peek(chars, 0)
    }

    function Second(): (c: char)
      reads this
    {
      Peek(chars, 1)
    }

    predicate IsEof()
      reads this
    {
      chars == []
    }

    method Bump() returns (c: Option<char>)
      requires Valid()
      modifies this
      ensures Valid()
      ensures if old(chars) == [] then c == None && chars == []
              else c == Some(old(chars)[0]) && chars == old(chars)[1..]
    {
      if chars == [] {
        return None;
      }
      c := Some(chars[0]);
      assert chars == [chars[0]] + chars[1..];
      assert Bytes([chars[0]]) == Utf8Len(chars[0]) by {
        assert [chars[0]][..0] == [];
      }
      BytesAdd([chars[0]], chars[1..]);
      lenRemaining := lenRemaining - Utf8Len(chars[0]);
      chars := chars[1..];
    }

    /** Consumes the longest prefix whose characters all satisfy `p`. */
    method EatWhile(p: char -> bool)
      requires Valid()
      modifies this
      ensures Valid()
      ensures chars == old(chars)[LexSpec.EatWhile(p, old(chars), 0)..]
    {
      ghost var n := 0;
      while p(First()) && !IsEof()
        invariant Valid() && n <= |old(chars)| && chars == old(chars)[n..]
        invariant forall j :: 0 <= j < n ==> p(old(chars)[j])
        decreases |chars|
      {
        var c := Bump();
        n := n + 1;
      }
      EatWhileIs(p, old(chars), 0, n);
    }

    /** Bytes consumed of `source`, of which the remaining characters are a suffix. */
    method PosWithin(source: string) returns (pos: nat)
      requires Valid() && |chars| <= |source| && chars == source[|source| - |chars|..]
      ensures pos == Bytes(source[..|source| - |chars|])
    {
      var i := |source| - |chars|;
      assert source == source[..i] + source[i..];
      BytesAdd(source[..i], source[i..]);
      pos := Bytes(source) - Bytes(chars);
    }
  }

  // ---- Tokens ----

  const POS_LIMIT := 0x1_0000_0000

  function BytePos(n: nat): nat {
    n % POS_LIMIT
  }

  /** The token that covers `source[i..j]`. */
  function Covering(kind: TokenKind, source: string, i: nat, j: nat, id: nat): Token
    requires i <= |source| && j <= |source|
  {
    Token(kind, Span(BytePos(Bytes(source[..i])), BytePos(Bytes(source[..j])), id))
  }

  // Scanning from `i` is scanning the rest of the source from its start.
  lemma EatWhileShift(p: char -> bool, s: string, i: nat)
    requires i <= |s|
    ensures LexSpec.EatWhile(p, s[i..], 0) == LexSpec.EatWhile(p, s, i) - i
  {
    EatWhileLocal(p, s, i, i, |s|);
    assert s[i..|s|] == s[i..];
  }

  class Lexer {
    const source: string
    const sourceId: nat
    const classes: Classes
    const cursor: Cursor

    ghost predicate Valid()
      reads this, cursor
    {
      cursor.Valid() && |cursor.chars| <= |source| && cursor.chars == source[|source| - |cursor.chars|..]
    }

    /** How many characters are consumed. */
    ghost function Index(): (i: nat)
      requires Valid()
      reads this, cursor
      ensures i <= |source|
    {
      |source| - |cursor.chars|
    }

    constructor (source: string, sourceId: nat, classes: Classes)
      ensures this.source == source && this.sourceId == sourceId && this.classes == classes
      ensures fresh(cursor) && Valid() && Index() == 0
    {
      this.source := source;
      this.sourceId := sourceId;
      this.classes := classes;
      cursor := new Cursor(source);
    }

    // ---- Cursor steps, in terms of the position in the source ----

    method Bump() returns (c: Option<char>)
      requires Valid()
      modifies cursor
      ensures Valid()
      ensures if old(Index()) == |source| then c == None && Index() == old(Index())
              else c == Some(source[old(Index())]) && Index() == old(Index()) + 1
    {
      c := cursor.Bump();
    }

    function First(): (c: char)
      requires Valid()
      reads this, cursor
      ensures c == Peek(source, Index())
    {
      cursor.First()
    }

    function Second(): (c: char)
      requires Valid()
      reads this, cursor
      ensures c == Peek(source, Index() + 1)
    {
      cursor.Second()
    }

    method EatWhile(p: char -> bool)
      requires Valid()
      modifies cursor
      ensures Valid() && Index() == LexSpec.EatWhile(p, source, old(Index()))
    {
      EatWhileShift(p, source, Index());
      cursor.EatWhile(p);
    }

    // ---- Lexemes ----

    /** `eat_escape`, the backslash being consumed. */
    method EatEscape()
      requires Valid()
      modifies cursor
      ensures Valid() && Index() == EscapeEnd(source, old(Index()))
    {
      hide LexSpec.EatWhile;
      var c := Bump();
      if c == Some('u') && First() == '{' {
        var _ := Bump();
        EatWhile(HexOrUnderscore);
        if First() == '}' {
          var _ := Bump();
        }
      } else if c == Some('x') && HexDigit(First()) {
        var _ := Bump();
        if HexDigit(First()) {
          var _ := Bump();
        }
      }
    }

    // The loop shared by strings, byte strings and interpolated strings.
    method LexQuoted(q: char) returns (terminated: bool)
      requires Valid()
      modifies cursor
      ensures Valid() && QuotedEnd(q, source, old(Index())) == Scan(terminated, Index())
    {
      hide EscapeEnd;
      terminated := false;
      var c := Bump();
      while c.Some?
        invariant Valid()
        invariant c.None? ==> QuotedEnd(q, source, old(Index())) == Scan(false, Index())
        invariant c.Some? ==> Index() > 0 && c.value == source[Index() - 1]
                              && QuotedEnd(q, source, Index() - 1) == QuotedEnd(q, source, old(Index()))
        decreases |cursor.chars|, c.Some?
      {
        if c.value == q {
          terminated := true;
          break;
        }
        if c.value == '\\' {
          EatEscape();
        }
        c := Bump();
      }
    }

    method LexChar() returns (terminated: bool)
      requires Valid()
      modifies cursor
      ensures Valid() && CharEnd(source, old(Index())) == Scan(terminated, Index())
    {
      hide EscapeEnd;
      terminated := false;
      var c := Bump();
      if c.Some? {
        if c.value == '\\' {
          EatEscape();
        }
        if First() == '\'' {
          var _ := Bump();
          terminated := true;
        }
      }
    }

    // Consumes at most `hashes` closing hashes.
    method EatHashes(hashes: nat) returns (n: nat)
      requires Valid()
      modifies cursor
      ensures Valid() && n == Hashes(source, old(Index()), hashes) && Index() == old(Index()) + n
    {
      n := 0;
      while First() == '#' && n < hashes
        invariant Valid() && n <= hashes && Index() == old(Index()) + n
        invariant n + Hashes(source, Index(), hashes - n) == Hashes(source, old(Index()), hashes)
      {
        var _ := Bump();
        n := n + 1;
      }
    }

    method LexRawString() returns (kind: TokenKind)
      requires Valid()
      modifies cursor
      ensures Valid() && RawLexeme(source, old(Index())) == Lexeme(kind, Index())
    {
      hide RawEnd, LexSpec.EatWhile;
      ghost var start := Index();
      var hashes := 0;
      while First() == '#'
        invariant Valid() && Index() == start + hashes
        invariant forall j :: start <= j < Index() ==> source[j] == '#'
        decreases |cursor.chars|
      {
        var _ := Bump();
        hashes := hashes + 1;
      }
      EatWhileIs(IsHash, source, start, Index());
      if First() != '"' {
        return Unknown;
      }
      var _ := Bump();
      var terminated := LexRawBody(hashes);
      kind := Str(terminated);
    }

    // The loop that looks for a quote followed by as many hashes as opened the string.
    method LexRawBody(hashes: nat) returns (terminated: bool)
      requires Valid()
      modifies cursor
      ensures Valid() && RawEnd(source, old(Index()), hashes) == Scan(terminated, Index())
    {
      hide Hashes;
      terminated := false;
      while true
        invariant Valid() && !terminated
        invariant RawEnd(source, Index(), hashes) == RawEnd(source, old(Index()), hashes)
        decreases |cursor.chars|
      {
        var c := Bump();
        if c == Some('"') {
          var closing := EatHashes(hashes);
          if closing == hashes {
            terminated := true;
            break;
          }
        } else if c == None {
          break;
        }
      }
    }

    method EatMultiLineComment()
      requires Valid()
      modifies cursor
      ensures Valid() && Index() == CommentEnd(source, old(Index()), 1).end
    {
      var depth := 1;
      var c := Bump();
      while c.Some?
        invariant Valid() && depth >= 1
        invariant c.None? ==> CommentEnd(source, old(Index()), 1) == Scan(false, Index())
        invariant c.Some? ==> Index() > 0 && c.value == source[Index() - 1]
                              && CommentEnd(source, Index() - 1, depth) == CommentEnd(source, old(Index()), 1)
        decreases |cursor.chars|, c.Some?
      {
        if c.value == '/' && First() == '~' {
          var _ := Bump();
          depth := depth + 1;
        } else if c.value == '~' && First() == '/' {
          var _ := Bump();
          depth := depth - 1;
          if depth == 0 {
            break;
          }
        }
        c := Bump();
      }
    }

    /** A number, its first digit being consumed. */
    method LexNumber(first: char) returns (kind: TokenKind)
      requires Valid() && Index() > 0 && first == source[Index() - 1]
      modifies cursor
      ensures Valid() && NumberLexeme(source, old(Index()) - 1) == Lexeme(kind, Index())
    {
      hide LexSpec.EatWhile, NumberBody;
      var base := Decimal;
      if first == '0' {
        match First() {
          case 'x' =>
            var _ := Bump();
            base := Hexadecimal;
          case 'b' =>
            var _ := Bump();
            base := Base.Binary;
          case 'o' =>
            var _ := Bump();
            base := Octal;
          case _ =>
        }
      }
      EatWhile(NumberBody(base));
      if First() == '.' && Second() != '.' {
        var _ := Bump();
        EatWhile(DigitOrUnderscore);
        kind := Float;
      } else {
        kind := Int(base);
      }
    }

    /** A word, its first character being consumed. */
    method LexIdentOrKeyword() returns (kind: TokenKind)
      requires Valid() && Index() > 0
      modifies cursor
      ensures Valid() && WordLexeme(classes, source, old(Index()) - 1) == Lexeme(kind, Index())
    {
      hide LexSpec.EatWhile, WordBody, WordKind, QuotedEnd, CharEnd, RawLexeme;
      var start := |source| - |cursor.chars| - 1;
      EatWhile(WordBody(classes));
      var text := source[start..|source| - |cursor.chars|];
      if text == "r" && (First() == '"' || First() == '#') {
        kind := LexRawString();
        return;
      }
      if text == "b" && (First() == '"' || First() == '\'') {
        var next := Bump();
        if next == Some('"') {
          var terminated := LexQuoted('"');
          return ByteStr(terminated);
        } else {
          var terminated := LexChar();
          return Byte(terminated);
        }
      }
      kind := WordKind(text);
    }

    // Takes `c` if it comes next.
    method Follow(c: char, two: TokenKind, one: TokenKind) returns (kind: TokenKind)
      requires Valid() && Index() > 0 && c != EOF_CHAR
      modifies cursor
      ensures Valid() && OneOrTwo(source, old(Index()) - 1, c, two, one) == Lexeme(kind, Index())
    {
      kind := one;
      if First() == c {
        var _ := Bump();
        kind := two;
      }
    }

    /** Punctuation whose first character `c` is consumed. */
    method LexPunctuation(c: char) returns (kind: TokenKind)
      requires Valid() && Index() > 0 && c == source[Index() - 1]
      modifies cursor
      ensures Valid() && Punctuation(source, old(Index()) - 1) == Lexeme(kind, Index())
    {
      hide Peek, OneOrTwo;
      match c {
        case '~' => kind := Tilde;
        case '!' => kind := Follow('=', NotEq, Bang);
        case '@' => kind := TokenKind.At;
        case '|' => kind := Follow('>', Pipe, Bar);
        case ':' => kind := Follow(':', DoubleColon, Colon);
        case '-' => kind := Follow('>', Arrow, Minus);
        case '=' =>
          if First() == '>' {
            PeekBounds(source, Index());
            var _ := Bump();
            kind := FatArrow;
          } else {
            kind := Follow('=', EqEq, Equal);
          }
        case '.' =>
          if First() == '.' {
            PeekBounds(source, Index());
            var _ := Bump();
            if First() == '=' {
              PeekBounds(source, Index());
              var _ := Bump();
              kind := DotDotEq;
            } else {
              kind := DotDot;
            }
          } else {
            kind := Dot;
          }
        case '?' => kind := Follow('?', QuestionQuestion, Question);
        case '#' => kind := Pound;
        case '+' => kind := Plus;
        case '*' => kind := Star;
        case '/' => kind := Slash;
        case '%' => kind := Percent;
        case '^' => kind := Caret;
        case '&' => kind := Follow('~', AmpersandTilde, Ampersand);
        case '<' => kind := Follow('=', Le, Lt);
        case '>' => kind := Follow('=', Ge, Gt);
        case '(' => kind := OpenParen;
        case ')' => kind := CloseParen;
        case '{' => kind := OpenBrace;
        case '}' => kind := CloseBrace;
        case '[' => kind := OpenBracket;
        case ']' => kind := CloseBracket;
        case ',' => kind := Comma;
        case ';' => kind := Semicolon;
        case _ => kind := Unknown;
      }
    }

    method LexLiteral(c: char) returns (kind: TokenKind)
      requires Valid() && Index() > 0 && c == source[Index() - 1]
      modifies cursor
      ensures Valid() && LiteralLexeme(source, old(Index()) - 1) == Lexeme(kind, Index())
    {
      hide QuotedEnd, CharEnd;
      match c {
        case '"' =>
          var terminated := LexQuoted('"');
          kind := Str(terminated);
        case '\'' =>
          var terminated := LexChar();
          kind := Char(terminated);
        case '`' =>
          var terminated := LexQuoted('`');
          kind := InterpolatedStr(terminated);
        case _ => kind := Unknown;
      }
    }

    method Pos() returns (pos: nat)
      requires Valid()
      ensures pos == BytePos(Bytes(source[..Index()]))
    {
      var p := cursor.PosWithin(source);
      pos := p % POS_LIMIT;
    }

    /** `next_token`: one lexeme of the grammar, and the span of exactly the characters consumed. */
    method NextToken() returns (token: Token)
      requires Valid()
      modifies cursor
      ensures Valid()
      ensures old(Index()) == |source| ==>
                Index() == |source| && token == Covering(Eof, source, |source|, |source|, sourceId)
      ensures old(Index()) < |source| ==>
                var r := LexemeAt(classes, source, old(Index()));
                Index() == r.end && token == Covering(r.kind, source, old(Index()), r.end, sourceId)
    {
      var start := Pos();
      if cursor.IsEof() {
        return Token(Eof, Span(start, start, sourceId));
      }
      var kind := LexKind();
      var end := Pos();
      token := Token(kind, Span(start, end, sourceId));
    }

    /** The token's characters, dispatched on the first one. */
    method LexKind() returns (kind: TokenKind)
      requires Valid() && Index() < |source|
      modifies cursor
      ensures Valid() && LexemeAt(classes, source, old(Index())) == Lexeme(kind, Index())
    {
      hide LexSpec.EatWhile, CommentEnd, Punctuation, WordLexeme, NumberLexeme, LiteralLexeme, IsPunctuation,
        IdentStart, Digit;
      var first := First();
      if classes.whitespace(first) {
        var _ := Bump();
        EatWhile(classes.whitespace);
        return Whitespace;
      }
      if first == '/' && Second() == '/' {
        var _ := Bump();
        var _ := Bump();
        EatWhile(InLineComment);
        return Comment;
      }
      if first == '/' && Second() == '~' {
        var _ := Bump();
        var _ := Bump();
        EatMultiLineComment();
        return Comment;
      }
      var _ := Bump();
      if IsPunctuation(first) {
        kind := LexPunctuation(first);
      } else if IdentStart(classes, first) {
        kind := LexIdentOrKeyword();
      } else if Digit(first) {
        kind := LexNumber(first);
      } else {
        kind := LexLiteral(first);
      }
    }
  }

  lemma PeekBounds(s: string, i: nat)
    ensures Peek(s, i) != EOF_CHAR ==> i < |s|
  {
  }

  // ---- Whole sources ----

  lemma NeverEof(cc: Classes, s: string, i: nat)
    requires i < |s|
    ensures LexemeAt(cc, s, i).kind != Eof
  {
    hide EatWhile, CommentEnd, Punctuation, WordLexeme, NumberLexeme, LiteralLexeme, IsPunctuation, IdentStart,
      Digit, Peek;
    PunctuationNotEof(s, i);
    WordNotEof(cc, s, i);
    NumberNotEof(s, i);
    LiteralNotEof(s, i);
  }

  lemma PunctuationNotEof(s: string, i: nat)
    requires i < |s|
    ensures Punctuation(s, i).kind != Eof
  {
    hide Peek;
  }

  lemma WordNotEof(cc: Classes, s: string, i: nat)
    requires i < |s|
    ensures WordLexeme(cc, s, i).kind != Eof
  {
    hide EatWhile, Peek, QuotedEnd, CharEnd, RawEnd, WordKind, WordBody;
  }

  lemma NumberNotEof(s: string, i: nat)
    requires i < |s|
    ensures NumberLexeme(s, i).kind != Eof
  {
    hide EatWhile, Peek, NumberBody;
  }

  lemma LiteralNotEof(s: string, i: nat)
    requires i < |s|
    ensures LiteralLexeme(s, i).kind != Eof
  {
    hide QuotedEnd, CharEnd;
  }

  function TokensFrom(cc: Classes, s: string, i: nat, id: nat): (ts: seq<Token>)
    requires i <= |s|
    ensures |ts| >= 1
    decreases |s| - i
  {
    if i == |s| then [Covering(Eof, s, i, i, id)]
    else
      var r := LexemeAt(cc, s, i);
      [Covering(r.kind, s, i, r.end, id)] + TokensFrom(cc, s, r.end, id)
  }

  /** The characters each token was made from. */
  function TextsFrom(cc: Classes, s: string, i: nat): seq<string>
    requires i <= |s|
    decreases |s| - i
  {
    if i == |s| then []
    else
      var r := LexemeAt(cc, s, i);
      [s[i..r.end]] + TextsFrom(cc, s, r.end)
  }

  lemma TokensNext(cc: Classes, s: string, i: nat, id: nat)
    requires i < |s|
    ensures var r := LexemeAt(cc, s, i);
            TokensFrom(cc, s, i, id) == [Covering(r.kind, s, i, r.end, id)] + TokensFrom(cc, s, r.end, id)
  {
    hide LexemeAt, Covering;
  }

  lemma TokensLast(cc: Classes, s: string, id: nat)
    ensures TokensFrom(cc, s, |s|, id) == [Covering(Eof, s, |s|, |s|, id)]
  {
  }

  lemma CoveringIs(kind: TokenKind, s: string, i: nat, j: nat, id: nat)
    requires i <= |s| && j <= |s|
    ensures Covering(kind, s, i, j, id).kind == kind
  {
  }

  /** Calls `next_token` until it returns `Eof`. */
  method Tokenize(source: string, id: nat, cc: Classes) returns (tokens: seq<Token>)
    ensures tokens == TokensFrom(cc, source, 0, id)
  {
    hide LexemeAt, Covering, TokensFrom;
    var lexer := new Lexer(source, id, cc);
    tokens := [];
    while true
      invariant lexer.Valid() && lexer.source == source && lexer.sourceId == id && lexer.classes == cc
      invariant fresh(lexer.cursor)
      invariant tokens + TokensFrom(cc, source, lexer.Index(), id) == TokensFrom(cc, source, 0, id)
      decreases |lexer.cursor.chars|
    {
      ghost var i := lexer.Index();
      if i < |source| {
        NeverEof(cc, source, i);
        TokensNext(cc, source, i, id);
      } else {
        TokensLast(cc, source, id);
      }
      var token := lexer.NextToken();
      CoveringIs(if i < |source| then LexemeAt(cc, source, i).kind else Eof, source, i, lexer.Index(), id);
      tokens := tokens + [token];
      if token.kind == Eof {
        break;
      }
    }
  }

  function Flatten(texts: seq<string>): string {
    if texts == [] then [] else texts[0] + Flatten(texts[1..])
  }

  lemma BytesGrow(s: string, i: nat, j: nat)
    requires i <= j <= |s|
    ensures Bytes(s[..j]) == Bytes(s[..i]) + Bytes(s[i..j]) && Bytes(s[..j]) <= Bytes(s)
    ensures i < j ==> Bytes(s[i..j]) > 0
  {
    assert s[..j] == s[..i] + s[i..j];
    BytesAdd(s[..i], s[i..j]);
    assert s == s[..j] + s[j..];
    BytesAdd(s[..j], s[j..]);
  }

  /** `ts` are consecutive tokens over `texts`, from byte `at` on, closed by the only `Eof`. */
  ghost predicate Tiles(cc: Classes, ts: seq<Token>, texts: seq<string>, at: nat, id: nat)
    decreases |texts|
  {
    if texts == [] then ts == [Token(Eof, Span(at, at, id))]
    else
      && texts[0] != [] && |ts| > 1 && ts[0].kind != Eof
      && ts[0].span == Span(at, at + Bytes(texts[0]), id)
      && LexemeAt(cc, texts[0], 0) == Lexeme(ts[0].kind, |texts[0]|)
      && Tiles(cc, ts[1..], texts[1..], at + Bytes(texts[0]), id)
  }

  lemma TilesCons(cc: Classes, t: Token, ts: seq<Token>, text: string, texts: seq<string>, at: nat, id: nat)
    requires text != [] && ts != [] && t.kind != Eof && t.span == Span(at, at + Bytes(text), id)
    requires LexemeAt(cc, text, 0) == Lexeme(t.kind, |text|)
    requires Tiles(cc, ts, texts, at + Bytes(text), id)
    ensures Tiles(cc, [t] + ts, [text] + texts, at, id)
    ensures Flatten([text] + texts) == text + Flatten(texts)
  {
    hide LexemeAt, Bytes;
    assert ([t] + ts)[1..] == ts && ([text] + texts)[1..] == texts;
  }

  // The span of a token in a short enough source is in true byte offsets.
  lemma CoveringSpan(kind: TokenKind, s: string, i: nat, j: nat, id: nat)
    requires i <= j <= |s| && Bytes(s) < POS_LIMIT
    ensures Covering(kind, s, i, j, id) == Token(kind, Span(Bytes(s[..i]), Bytes(s[..i]) + Bytes(s[i..j]), id))
    ensures i < j ==> Bytes(s[i..j]) > 0
    ensures Bytes(s[..j]) == Bytes(s[..i]) + Bytes(s[i..j])
  {
    hide Bytes;
    BytesGrow(s, i, j);
  }

  lemma {:induction false} TilesFrom(cc: Classes, s: string, i: nat, id: nat)
    requires i <= |s| && Bytes(s) < POS_LIMIT
    ensures Flatten(TextsFrom(cc, s, i)) == s[i..]
    ensures Tiles(cc, TokensFrom(cc, s, i, id), TextsFrom(cc, s, i), Bytes(s[..i]), id)
    decreases |s| - i
  {
    hide LexemeAt, Bytes, Covering, TokensFrom;
    if i == |s| {
      TokensLast(cc, s, id);
      CoveringSpan(Eof, s, i, i, id);
      NoBytes();
      assert s[i..i] == [];
    } else {
      hide Tiles, Flatten;
      var r := LexemeAt(cc, s, i);
      TilesFrom(cc, s, r.end, id);
      CoveringSpan(r.kind, s, i, r.end, id);
      LexemeLocal(cc, s, i);
      NeverEof(cc, s, i);
      TokensNext(cc, s, i, id);
      TilesCons(cc, Covering(r.kind, s, i, r.end, id), TokensFrom(cc, s, r.end, id),
                s[i..r.end], TextsFrom(cc, s, r.end), Bytes(s[..i]), id);
      assert s[i..] == s[i..r.end] + s[r.end..];
    }
  }

  /**
   The tokens tile the source: their texts, none of them empty, joined are the source; each token's span
   covers its text and starts where the one before ended; and each text lexed alone is that token again.
   */
  lemma TokensTile(cc: Classes, s: string, id: nat)
    requires Bytes(s) < POS_LIMIT
    ensures Tiles(cc, TokensFrom(cc, s, 0, id), TextsFrom(cc, s, 0), 0, id) && Flatten(TextsFrom(cc, s, 0)) == s
  {
    hide Tiles, Flatten, LexemeAt;
    TilesFrom(cc, s, 0, id);
    assert s[0..] == s;
  }

  /** In a tiling only the last token is `Eof`, and neighbouring spans meet. */
  lemma {:induction false} TilesMeet(cc: Classes, ts: seq<Token>, texts: seq<string>, at: nat, id: nat, k: nat)
    requires Tiles(cc, ts, texts, at, id) && k < |ts|
    ensures |ts| == |texts| + 1 && ts[0].span.lo == at
    ensures ts[k].kind == Eof <==> k == |ts| - 1
    ensures ts[|ts| - 1].span == Span(at + Bytes(Flatten(texts)), at + Bytes(Flatten(texts)), id)
    ensures k < |ts| - 1 ==> ts[k].span.lo < ts[k].span.hi == ts[k + 1].span.lo
    decreases |texts|
  {
    hide LexemeAt, Bytes;
    assert Bytes([]) == 0 by { NoBytes(); }
    if texts != [] {
      TilesMeet(cc, ts[1..], texts[1..], at + Bytes(texts[0]), id, if k > 0 then k - 1 else 0);
      BytesAdd(texts[0], Flatten(texts[1..]));
      SomeBytes(texts[0]);
    }
  }

  lemma NoBytes()
    ensures Bytes([]) == 0
  {
  }

  lemma SomeBytes(s: string)
    requires s != []
    ensures Bytes(s) > 0
  {
  }
}
