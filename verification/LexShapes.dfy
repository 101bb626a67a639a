/** Which form the first characters of a lexeme choose, and which characters numbers, comments and escapes take. */
module LexShapes {
  import opened Common
  import opened Tokens
  import opened LexSpec
  import opened LexFacts
  import opened LexWords

  const DIGITS := "0123456789_"
  const HEX_DIGITS := "0123456789abcdefABCDEF_"

  /** `s[i..e]` is the longest stretch from `i` on of characters among `chars`. */
  ghost predicate Stretch(chars: string, s: string, i: nat, e: nat) {
    i <= e <= |s| && (forall j :: i <= j < e ==> s[j] in chars) && (e == |s| || s[e] !in chars)
  }

  lemma {:induction false} StretchIs(p: char -> bool, chars: string, s: string, i: nat)
    requires i <= |s| && forall c :: p(c) <==> c in chars
    ensures Stretch(chars, s, i, LexSpec.EatWhile(p, s, i))
  {
    hide LexSpec.EatWhile;
    EatWhileAll(p, s, i);
  }

  lemma {:induction false} DigitSets()
    ensures forall c :: DigitOrUnderscore(c) <==> c in DIGITS
    ensures forall c :: HexOrUnderscore(c) <==> c in HEX_DIGITS
    ensures forall c :: NumberBody(Hexadecimal)(c) <==> c in HEX_DIGITS
    ensures forall b: Base, c :: b != Hexadecimal ==> (NumberBody(b)(c) <==> c in DIGITS)
  {
  }

  function PrefixBase(c: char): Base {
    match c
    case 'x' => Hexadecimal
    case 'b' => Base.Binary
    case 'o' => Octal
    case _ => Decimal
  }

  /**
   A number: behind `0x`, `0b` or `0o`, or from its first digit on, all digits and underscores, hexadecimal ones only
   behind `0x`; and if a point follows that no second point follows, a fraction.
   */
  lemma {:induction false} NumberShape(s: string, i: nat) returns (e: nat)
    requires i < |s| && '0' <= s[i] <= '9'
    ensures var base := if s[i] == '0' then PrefixBase(Peek(s, i + 1)) else Decimal;
      var r := NumberLexeme(s, i);
      && Stretch(if base == Hexadecimal then HEX_DIGITS else DIGITS, s, if base == Decimal then i + 1 else i + 2, e)
      && if Peek(s, e) == '.' && Peek(s, e + 1) != '.' then r.kind.Float? && Stretch(DIGITS, s, e + 1, r.end)
         else r == Lexeme(Int(base), e)
  {
    hide LexSpec.EatWhile, NumberBody, Stretch;
    DigitSets();
    var base := if s[i] == '0' then PrefixBase(Peek(s, i + 1)) else Decimal;
    var from := if base == Decimal then i + 1 else i + 2;
    e := LexSpec.EatWhile(NumberBody(base), s, from);
    StretchIs(NumberBody(base), if base == Hexadecimal then HEX_DIGITS else DIGITS, s, from);
    if Peek(s, e) == '.' {
      StretchIs(DigitOrUnderscore, DIGITS, s, e + 1);
    }
  }

  lemma {:induction false} HexSet(c: char)
    ensures HexDigit(c) <==> c in "0123456789abcdefABCDEF"
  {
  }

  /** Behind a backslash: hexadecimal digits in braces after `u`, up to two of them after `x`, or one character. */
  lemma {:induction false} EscapeShape(s: string, i: nat) returns (j: nat)
    requires i < |s|
    ensures if s[i] == 'u' && Peek(s, i + 1) == '{' then
              Stretch(HEX_DIGITS, s, i + 2, j) && EscapeEnd(s, i) == if Peek(s, j) == '}' then j + 1 else j
            else if s[i] == 'x' && Peek(s, i + 1) in "0123456789abcdefABCDEF" then
              EscapeEnd(s, i) == if Peek(s, i + 2) in "0123456789abcdefABCDEF" then i + 3 else i + 2
            else EscapeEnd(s, i) == i + 1
  {
    hide LexSpec.EatWhile, Stretch, HexDigit, HexOrUnderscore;
    HexSet(Peek(s, i + 1));
    HexSet(Peek(s, i + 2));
    j := i;
    if s[i] == 'u' && Peek(s, i + 1) == '{' {
      j := LexSpec.EatWhile(HexOrUnderscore, s, i + 2);
      DigitSets();
      StretchIs(HexOrUnderscore, HEX_DIGITS, s, i + 2);
    }
  }

  /** A line comment goes up to the next newline or NUL. */
  lemma {:induction false} LineComment(cc: Classes, s: string, i: nat)
    requires i < |s| && !cc.whitespace('/') && StandsAt(s, i, "//")
    ensures var r := LexemeAt(cc, s, i);
      && r.kind.Comment? && i + 2 <= r.end && (forall j :: i + 2 <= j < r.end ==> s[j] != '\n' && s[j] != '\0')
      && (r.end == |s| || s[r.end] == '\n' || s[r.end] == '\0')
  {
    hide LexSpec.EatWhile;
    assert s[i] == s[i..i + 2][0] && s[i + 1] == s[i..i + 2][1];
    EatWhileAll(InLineComment, s, i + 2);
  }

  /** A nested comment goes on to where its depth comes to zero. */
  lemma {:induction false} NestedComment(cc: Classes, s: string, i: nat)
    requires i < |s| && !cc.whitespace('/') && StandsAt(s, i, "/~")
    ensures LexemeAt(cc, s, i) == Lexeme(Comment, CommentEnd(s, i + 2, 1).end)
  {
    hide LexSpec.EatWhile, CommentEnd;
    assert s[i] == s[i..i + 2][0] && s[i + 1] == s[i..i + 2][1];
  }

  /** White space is taken whole. */
  lemma {:induction false} SpaceShape(cc: Classes, s: string, i: nat)
    requires i < |s| && cc.whitespace(s[i])
    ensures var r := LexemeAt(cc, s, i);
      && r.kind.Whitespace? && i < r.end && (forall j :: i <= j < r.end ==> cc.whitespace(s[j]))
      && (r.end == |s| || !cc.whitespace(s[r.end]))
  {
    hide LexSpec.EatWhile;
    EatWhileAll(cc.whitespace, s, i + 1);
  }

  // No form begins with this character.
  predicate Foreign(cc: Classes, c: char) {
    && !cc.alphabetic(c) && !cc.whitespace(c) && !('0' <= c <= '9')
    && !SignChar(c) && c != '_' && c != '"' && c != '\'' && c != '`'
  }

  lemma {:induction false} BeginsNoSign(cc: Classes, c: char)
    requires Ascii(cc)
    requires cc.alphabetic(c) || '0' <= c <= '9' || c == '_' || c == '"' || c == '\'' || c == '`' || Foreign(cc, c)
    ensures !IsPunctuation(c) && c != '/'
  {
    hide IsPunctuation;
    SignChars(c);
  }

  lemma {:induction false} FormChosen(cc: Classes, s: string, i: nat)
    requires Ascii(cc) && !cc.whitespace('_') && i < |s| && (cc.alphabetic(s[i]) ==> !cc.whitespace(s[i]))
    requires cc.alphabetic(s[i]) || '0' <= s[i] <= '9' || s[i] == '_' || s[i] == '"' || s[i] == '\'' || s[i] == '`'
             || Foreign(cc, s[i])
    ensures LexemeAt(cc, s, i) == if cc.alphabetic(s[i]) || s[i] == '_' then WordLexeme(cc, s, i)
                                  else if '0' <= s[i] <= '9' then NumberLexeme(s, i) else LiteralLexeme(s, i)
  {
    hide LexSpec.EatWhile, CommentEnd, NumberLexeme, WordLexeme, Punctuation, IsPunctuation, LiteralLexeme;
    BeginsNoSign(cc, s[i]);
  }

  /** Its first character chooses the form of a lexeme that is no sign, comment or white space. */
  lemma {:induction false} FirstChooses(cc: Classes, s: string, i: nat)
    requires Ascii(cc) && !cc.whitespace('_') && i < |s|
    ensures var (r, c) := (LexemeAt(cc, s, i), s[i]);
      && (c == '"' ==> r == var q := QuotedEnd('"', s, i + 1); Lexeme(Str(q.terminated), q.end))
      && (c == '`' ==> r == var q := QuotedEnd('`', s, i + 1); Lexeme(InterpolatedStr(q.terminated), q.end))
      && (c == '\'' ==> r == var q := CharEnd(s, i + 1); Lexeme(Char(q.terminated), q.end))
      && ('0' <= c <= '9' ==> r == NumberLexeme(s, i))
      && ((cc.alphabetic(c) && !cc.whitespace(c)) || c == '_' ==> r == WordLexeme(cc, s, i))
      && (Foreign(cc, c) ==> r == Lexeme(Unknown, i + 1))
  {
    hide LexemeAt, QuotedEnd, CharEnd, NumberLexeme, WordLexeme;
    var c := s[i];
    if (cc.alphabetic(c) && !cc.whitespace(c)) || (!cc.alphabetic(c) && ('0' <= c <= '9' || c == '_' || c == '"'
        || c == '\'' || c == '`' || Foreign(cc, c))) {
      FormChosen(cc, s, i);
    }
  }

  /** A word: all letters, numbers and underscores; `r` and `b` before a quote or hash begin raw and byte literals. */
  lemma {:induction false} WordShape(cc: Classes, s: string, i: nat) returns (j: nat)
    requires i < |s|
    ensures i < j <= |s| && WordEnds(cc, s, j)
    ensures forall m :: i < m < j ==> cc.alphabetic(s[m]) || cc.numeric(s[m]) || s[m] == '_'
    ensures var r := WordLexeme(cc, s, i);
      if s[i..j] == "r" && (Peek(s, j) == '"' || Peek(s, j) == '#') then r == RawLexeme(s, j)
      else if s[i..j] == "b" && Peek(s, j) == '"' then
        r == var q := QuotedEnd('"', s, j + 1); Lexeme(ByteStr(q.terminated), q.end)
      else if s[i..j] == "b" && Peek(s, j) == '\'' then
        r == var q := CharEnd(s, j + 1); Lexeme(Byte(q.terminated), q.end)
      else r.end == j && if r.kind.Ident? then forall k :: Keyword(k) ==> s[i..j] != Spelling(k)
                         else Keyword(r.kind) && s[i..j] == Spelling(r.kind)
  {
    hide LexSpec.EatWhile, QuotedEnd, CharEnd, RawLexeme, WordKind, Spelling, Keyword;
    j := LexSpec.EatWhile(WordBody(cc), s, i + 1);
    EatWhileAll(WordBody(cc), s, i + 1);
    WordSpelled(s[i..j]);
    forall k | Keyword(k)
      ensures WordKind(Spelling(k)) == k
    {
      SpelledWord(k);
    }
    IdentIsNoKeyword();
  }

  lemma {:induction false} IdentIsNoKeyword()
    ensures !Keyword(Ident)
  {
  }

  // ---- Bytes ----

  // The bits of a code point that `n` bytes carry: 7 in one byte, else 7 - n in the first and 6 in each other one
  // (RFC 3629, section 3).
  function Payload(n: nat): nat
    requires 1 <= n <= 4
  {
    if n == 1 then 7 else 7 - n + 6 * (n - 1)
  }

  /** A character counts for as many bytes as its code point needs and no more. */
  lemma {:induction false} ShortestForm(c: char)
    ensures var n := Utf8Len(c);
      (c as int) < Pow2(Payload(n)) && (n > 1 ==> Pow2(Payload(n - 1)) <= c as int)
  {
    assert Pow2(7) == 0x80;
    assert Pow2(11) == 0x800;
    assert Pow2(16) == 0x1_0000;
    assert Pow2(21) == 0x20_0000;
  }
}
