/** How each keyword and each sign is spelled, and that the lexer makes the token of exactly that text. */
module LexWords {
  import opened Tokens
  import opened LexSpec
  import opened LexFacts
  import opened Lexer

  // ---- Spellings ----

  /** The text of a keyword; empty for every other kind. */
  function Spelling(k: TokenKind): string {
    match k
    case Forge => "forge"
    case Shape => "shape"
    case Scroll => "scroll"
    case Weave => "weave"
    case Ward => "ward"
    case Macro => "macro"
    case Echo => "echo"
    case Branch => "branch"
    case Given => "given"
    case Else => "else"
    case Loop => "loop"
    case Each => "each"
    case While => "while"
    case Break => "break"
    case Next => "next"
    case Give => "give"
    case Let => "let"
    case Raw => "raw"
    case Bridge => "bridge"
    case Flow => "flow"
    case Tide => "tide"
    case Zone => "zone"
    case Dual => "dual"
    case Seek => "seek"
    case Catch => "catch"
    case Draw => "draw"
    case Open => "open"
    case Hidden => "hidden"
    case Pkg => "pkg"
    case Pure => "pure"
    case Sole => "sole"
    case SelfKw => "self"
    case SelfType => "Self"
    case True => "true"
    case False => "false"
    case Nil => "nil"
    case As => "as"
    case In => "in"
    case Of => "of"
    case Is => "is"
    case Not => "not"
    case And => "and"
    case Or => "or"
    case Comptime => "comptime"
    case Static => "static"
    case Extern => "extern"
    case Type => "type"
    case Alias => "alias"
    case Impl => "impl"
    case For => "for"
    case Bind => "bind"
    case _ => ""
  }

  /** The characters at `i` are those of the sign `k`; never so for a kind that is no sign. */
  predicate SignAt(s: string, i: nat, k: TokenKind)
    requires i < |s|
  {
    match k
    case Tilde => s[i] == '~'
    case Bang => s[i] == '!'
    case At => s[i] == '@'
    case Pipe => s[i] == '|' && Peek(s, i + 1) == '>'
    case Bar => s[i] == '|'
    case DoubleColon => s[i] == ':' && Peek(s, i + 1) == ':'
    case Arrow => s[i] == '-' && Peek(s, i + 1) == '>'
    case FatArrow => s[i] == '=' && Peek(s, i + 1) == '>'
    case DotDot => s[i] == '.' && Peek(s, i + 1) == '.'
    case DotDotEq => s[i] == '.' && Peek(s, i + 1) == '.' && Peek(s, i + 2) == '='
    case Dot => s[i] == '.'
    case Question => s[i] == '?'
    case QuestionQuestion => s[i] == '?' && Peek(s, i + 1) == '?'
    case Pound => s[i] == '#'
    case Equal => s[i] == '='
    case Plus => s[i] == '+'
    case Minus => s[i] == '-'
    case Star => s[i] == '*'
    case Slash => s[i] == '/'
    case Percent => s[i] == '%'
    case Caret => s[i] == '^'
    case Ampersand => s[i] == '&'
    case AmpersandTilde => s[i] == '&' && Peek(s, i + 1) == '~'
    case Lt => s[i] == '<'
    case Gt => s[i] == '>'
    case Le => s[i] == '<' && Peek(s, i + 1) == '='
    case Ge => s[i] == '>' && Peek(s, i + 1) == '='
    case EqEq => s[i] == '=' && Peek(s, i + 1) == '='
    case NotEq => s[i] == '!' && Peek(s, i + 1) == '='
    case OpenParen => s[i] == '('
    case CloseParen => s[i] == ')'
    case OpenBrace => s[i] == '{'
    case CloseBrace => s[i] == '}'
    case OpenBracket => s[i] == '['
    case CloseBracket => s[i] == ']'
    case Comma => s[i] == ','
    case Semicolon => s[i] == ';'
    case Colon => s[i] == ':'
    case _ => false
  }

  /** How many they are. */
  function Size(k: TokenKind): nat {
    match k
    case Pipe | DoubleColon | Arrow | FatArrow | DotDot => 2
    case DotDotEq => 3
    case QuestionQuestion | AmpersandTilde | Le | Ge | EqEq | NotEq => 2
    case _ => 1
  }

  // A third of the keywords each, in the order of `Spelling`.
  predicate First(k: TokenKind) {
    match k
    case Forge | Shape | Scroll | Weave | Ward | Macro | Echo | Branch | Given | Else | Loop | Each | While |
      Break | Next | Give | Let => true
    case _ => false
  }

  predicate Second(k: TokenKind) {
    match k
    case Raw | Bridge | Flow | Tide | Zone | Dual | Seek | Catch | Draw | Open | Hidden | Pkg | Pure | Sole |
      SelfKw | SelfType | True => true
    case _ => false
  }

  predicate Third(k: TokenKind) {
    match k
    case False | Nil | As | In | Of | Is | Not | And | Or | Comptime | Static | Extern | Type | Alias | Impl | For |
      Bind => true
    case _ => false
  }

  predicate Keyword(k: TokenKind) {
    First(k) || Second(k) || Third(k)
  }

  /** Kinds whose tokens have many texts; all that are neither keywords nor these are signs. */
  predicate Varies(k: TokenKind) {
    match k
    case Whitespace | Comment | Unknown => true
    case Int(_) => true
    case Float => true
    case Str(_) => true
    case InterpolatedStr(_) => true
    case ByteStr(_) => true
    case Char(_) => true
    case Byte(_) => true
    case Ident | Eof => true
    case _ => false
  }

  predicate StandsAt(s: string, i: nat, text: string) {
    i + |text| <= |s| && s[i..i + |text|] == text
  }

  // ---- Keywords ----

  // ---- What is no identifier is spelled as the keyword it is ----

  lemma {:induction false} WordOnly(text: string)
    ensures var k := WordKind(text); k.Ident? || First(k) || Second(k) || Third(k)
  {
  }

  lemma {:induction false} FirstText(text: string)
    requires First(WordKind(text))
    ensures Spelling(WordKind(text)) == text
  {
  }

  lemma {:induction false} SecondText(text: string)
    requires Second(WordKind(text))
    ensures Spelling(WordKind(text)) == text
  {
  }

  lemma {:induction false} ThirdText(text: string)
    requires Third(WordKind(text))
    ensures Spelling(WordKind(text)) == text
  {
  }

  lemma {:induction false} WordSpelled(text: string)
    ensures var k := WordKind(text); k.Ident? || (Keyword(k) && Spelling(k) == text)
  {
    hide WordKind, First, Second, Third, Spelling;
    var k := WordKind(text);
    WordOnly(text);
    if First(k) {
      FirstText(text);
    } else if Second(k) {
      SecondText(text);
    } else if Third(k) {
      ThirdText(text);
    }
  }

  // ---- And what is spelled as a keyword is that keyword ----

  lemma {:induction false} FirstKnown(text: string, k: TokenKind)
    requires WordKind(text).Ident? && First(k)
    ensures text != Spelling(k)
  {
  }

  lemma {:induction false} SecondKnown(text: string, k: TokenKind)
    requires WordKind(text).Ident? && Second(k)
    ensures text != Spelling(k)
  {
  }

  lemma {:induction false} ThirdKnown(text: string, k: TokenKind)
    requires WordKind(text).Ident? && Third(k)
    ensures text != Spelling(k)
  {
  }

  // Three characters by which the keywords differ: the first two and the last.
  predicate Mark(text: string, a: char, b: char, c: char) {
    |text| > 1 && text[0] == a && text[1] == b && text[|text| - 1] == c
  }

  lemma {:induction false} FirstMarks(k: TokenKind)
    ensures match k
      case Forge => Mark(Spelling(k), 'f', 'o', 'e')
      case Shape => Mark(Spelling(k), 's', 'h', 'e')
      case Scroll => Mark(Spelling(k), 's', 'c', 'l')
      case Weave => Mark(Spelling(k), 'w', 'e', 'e')
      case Ward => Mark(Spelling(k), 'w', 'a', 'd')
      case Macro => Mark(Spelling(k), 'm', 'a', 'o')
      case Echo => Mark(Spelling(k), 'e', 'c', 'o')
      case Branch => Mark(Spelling(k), 'b', 'r', 'h')
      case Given => Mark(Spelling(k), 'g', 'i', 'n')
      case Else => Mark(Spelling(k), 'e', 'l', 'e')
      case Loop => Mark(Spelling(k), 'l', 'o', 'p')
      case Each => Mark(Spelling(k), 'e', 'a', 'h')
      case While => Mark(Spelling(k), 'w', 'h', 'e')
      case Break => Mark(Spelling(k), 'b', 'r', 'k')
      case Next => Mark(Spelling(k), 'n', 'e', 't')
      case Give => Mark(Spelling(k), 'g', 'i', 'e')
      case Let => Mark(Spelling(k), 'l', 'e', 't')
      case _ => true
  {
  }

  lemma {:induction false} SecondMarks(k: TokenKind)
    ensures match k
      case Raw => Mark(Spelling(k), 'r', 'a', 'w')
      case Bridge => Mark(Spelling(k), 'b', 'r', 'e')
      case Flow => Mark(Spelling(k), 'f', 'l', 'w')
      case Tide => Mark(Spelling(k), 't', 'i', 'e')
      case Zone => Mark(Spelling(k), 'z', 'o', 'e')
      case Dual => Mark(Spelling(k), 'd', 'u', 'l')
      case Seek => Mark(Spelling(k), 's', 'e', 'k')
      case Catch => Mark(Spelling(k), 'c', 'a', 'h')
      case Draw => Mark(Spelling(k), 'd', 'r', 'w')
      case Open => Mark(Spelling(k), 'o', 'p', 'n')
      case Hidden => Mark(Spelling(k), 'h', 'i', 'n')
      case Pkg => Mark(Spelling(k), 'p', 'k', 'g')
      case Pure => Mark(Spelling(k), 'p', 'u', 'e')
      case Sole => Mark(Spelling(k), 's', 'o', 'e')
      case SelfKw => Mark(Spelling(k), 's', 'e', 'f')
      case SelfType => Mark(Spelling(k), 'S', 'e', 'f')
      case True => Mark(Spelling(k), 't', 'r', 'e')
      case _ => true
  {
  }

  lemma {:induction false} ThirdMarks(k: TokenKind)
    ensures match k
      case False => Mark(Spelling(k), 'f', 'a', 'e')
      case Nil => Mark(Spelling(k), 'n', 'i', 'l')
      case As => Mark(Spelling(k), 'a', 's', 's')
      case In => Mark(Spelling(k), 'i', 'n', 'n')
      case Of => Mark(Spelling(k), 'o', 'f', 'f')
      case Is => Mark(Spelling(k), 'i', 's', 's')
      case Not => Mark(Spelling(k), 'n', 'o', 't')
      case And => Mark(Spelling(k), 'a', 'n', 'd')
      case Or => Mark(Spelling(k), 'o', 'r', 'r')
      case Comptime => Mark(Spelling(k), 'c', 'o', 'e')
      case Static => Mark(Spelling(k), 's', 't', 'c')
      case Extern => Mark(Spelling(k), 'e', 'x', 'n')
      case Type => Mark(Spelling(k), 't', 'y', 'e')
      case Alias => Mark(Spelling(k), 'a', 'l', 's')
      case Impl => Mark(Spelling(k), 'i', 'm', 'l')
      case For => Mark(Spelling(k), 'f', 'o', 'r')
      case Bind => Mark(Spelling(k), 'b', 'i', 'd')
      case _ => true
  {
  }

  lemma {:induction false} FirstApart(k: TokenKind, w: TokenKind)
    requires First(k) && Keyword(w) && Spelling(k) == Spelling(w)
    ensures k == w
  {
    hide Spelling;
    FirstMarks(k);
    FirstMarks(w);
    SecondMarks(w);
    ThirdMarks(w);
  }

  lemma {:induction false} SecondApart(k: TokenKind, w: TokenKind)
    requires Second(k) && Keyword(w) && Spelling(k) == Spelling(w)
    ensures k == w
  {
    hide Spelling;
    SecondMarks(k);
    FirstMarks(w);
    SecondMarks(w);
    ThirdMarks(w);
  }

  lemma {:induction false} ThirdApart(k: TokenKind, w: TokenKind)
    requires Third(k) && Keyword(w) && Spelling(k) == Spelling(w)
    ensures k == w
  {
    hide Spelling;
    ThirdMarks(k);
    FirstMarks(w);
    SecondMarks(w);
    ThirdMarks(w);
  }

  lemma {:induction false} SpelledWord(k: TokenKind)
    requires Keyword(k)
    ensures WordKind(Spelling(k)) == k
  {
    hide WordKind, First, Second, Third, Spelling;
    var text := Spelling(k);
    WordSpelled(text);
    if First(k) {
      if WordKind(text).Ident? {
        FirstKnown(text, k);
      }
      FirstApart(k, WordKind(text));
    } else if Second(k) {
      if WordKind(text).Ident? {
        SecondKnown(text, k);
      }
      SecondApart(k, WordKind(text));
    } else {
      if WordKind(text).Ident? {
        ThirdKnown(text, k);
      }
      ThirdApart(k, WordKind(text));
    }
  }

  predicate Letter(c: char) {
    'a' <= c <= 'z' || 'A' <= c <= 'Z'
  }

  // The first characters of signs.
  predicate SignChar(c: char) {
    match c
    case '~' => true
    case '!' => true
    case '@' => true
    case '|' => true
    case ':' => true
    case '-' => true
    case '=' => true
    case '.' => true
    case '?' => true
    case '#' => true
    case '+' => true
    case '*' => true
    case '/' => true
    case '%' => true
    case '^' => true
    case '&' => true
    case '<' => true
    case '>' => true
    case '(' => true
    case ')' => true
    case '{' => true
    case '}' => true
    case '[' => true
    case ']' => true
    case ',' => true
    case ';' => true
    case _ => false
  }

  // The classes of ASCII characters.
  ghost predicate Ascii(cc: Classes) {
    && (forall c :: Letter(c) ==> cc.alphabetic(c) && !cc.whitespace(c))
    && (forall c :: '0' <= c <= '9' ==> cc.numeric(c) && !cc.alphabetic(c) && !cc.whitespace(c))
    && (forall c :: SignChar(c) || c == '"' || c == '\'' || c == '`' ==>
          !cc.alphabetic(c) && !cc.numeric(c) && !cc.whitespace(c))
  }

  predicate InLetters(text: string) {
    |text| > 1 && forall j :: 0 <= j < |text| ==> Letter(text[j])
  }

  lemma {:induction false} Letters0(k: TokenKind)
    ensures match k
      case Forge | Shape | Scroll | Weave | Ward | Macro | Echo | Branch | Given | Else | Loop | Each | While |
        Break | Next | Give | Let => InLetters(Spelling(k))
      case _ => true
  {
  }

  lemma {:induction false} Letters1(k: TokenKind)
    ensures match k
      case Raw | Bridge | Flow | Tide | Zone | Dual | Seek | Catch | Draw | Open | Hidden | Pkg | Pure | Sole |
        SelfKw | SelfType | True => InLetters(Spelling(k))
      case _ => true
  {
  }

  lemma {:induction false} Letters2(k: TokenKind)
    ensures match k
      case False | Nil | As | In | Of | Is | Not | And | Or | Comptime | Static | Extern | Type | Alias | Impl |
        For | Bind => InLetters(Spelling(k))
      case _ => true
  {
  }

  lemma {:induction false} SpelledInLetters(k: TokenKind)
    requires Keyword(k)
    ensures InLetters(Spelling(k))
  {
    hide InLetters;
    Letters0(k);
    Letters1(k);
    Letters2(k);
  }

  lemma {:induction false} LetterBegins(c: char)
    requires Letter(c)
    ensures !IsPunctuation(c) && c != '/'
  {
  }

  lemma {:induction false} PunctuationText(s: string, i: nat)
    requires i < |s|
    ensures var k := Punctuation(s, i).kind; SignAt(s, i, k) <==> !k.Unknown?
  {
  }

  lemma {:induction false} PunctuationSize(s: string, i: nat)
    requires i < |s|
    ensures var r := Punctuation(s, i); r.end == i + Size(r.kind)
  {
  }

  lemma {:induction false} PunctuationLongest(s: string, i: nat, k: TokenKind)
    requires i < |s| && SignAt(s, i, k)
    ensures Size(k) <= Size(Punctuation(s, i).kind)
  {
  }

  // A third of the signs each, in the order of `SignAt`.
  predicate Early(k: TokenKind) {
    match k
    case Tilde | Bang | At | Pipe | Bar | DoubleColon | Arrow | FatArrow | DotDot | DotDotEq | Dot | Question |
      QuestionQuestion => true
    case _ => false
  }

  predicate Middle(k: TokenKind) {
    match k
    case Pound | Equal | Plus | Minus | Star | Slash | Percent | Caret | Ampersand | AmpersandTilde | Lt | Gt |
      Le => true
    case _ => false
  }

  predicate Late(k: TokenKind) {
    match k
    case Ge | EqEq | NotEq | OpenParen | CloseParen | OpenBrace | CloseBrace | OpenBracket | CloseBracket | Comma |
      Semicolon | Colon => true
    case _ => false
  }

  lemma {:induction false} EarlyApart(s: string, i: nat, k: TokenKind, m: TokenKind)
    requires i < |s| && Early(k) && SignAt(s, i, k) && SignAt(s, i, m) && Size(k) == Size(m)
    ensures k == m
  {
  }

  lemma {:induction false} MiddleApart(s: string, i: nat, k: TokenKind, m: TokenKind)
    requires i < |s| && Middle(k) && SignAt(s, i, k) && SignAt(s, i, m) && Size(k) == Size(m)
    ensures k == m
  {
  }

  lemma {:induction false} LateApart(s: string, i: nat, k: TokenKind, m: TokenKind)
    requires i < |s| && Late(k) && SignAt(s, i, k) && SignAt(s, i, m) && Size(k) == Size(m)
    ensures k == m
  {
  }

  lemma {:induction false} SignThirds(s: string, i: nat, k: TokenKind)
    requires i < |s| && SignAt(s, i, k)
    ensures Early(k) || Middle(k) || Late(k)
  {
  }

  lemma {:induction false} SignsApart(s: string, i: nat, k: TokenKind, m: TokenKind)
    requires i < |s| && SignAt(s, i, k) && SignAt(s, i, m) && Size(k) == Size(m)
    ensures k == m
  {
    hide SignAt, Size, Early, Middle, Late;
    SignThirds(s, i, k);
    if Early(k) {
      EarlyApart(s, i, k, m);
    } else if Middle(k) {
      MiddleApart(s, i, k, m);
    } else {
      LateApart(s, i, k, m);
    }
  }

  lemma {:induction false} SignBegins(s: string, i: nat, k: TokenKind)
    requires i < |s| && SignAt(s, i, k)
    ensures IsPunctuation(s[i]) && !Keyword(k)
  {
  }

  lemma {:induction false} VaryingIsNoKeyword(k: TokenKind)
    requires Varies(k)
    ensures !Keyword(k)
  {
  }

  // No word goes on here.
  predicate WordEnds(cc: Classes, s: string, j: nat) {
    j >= |s| || !(cc.alphabetic(s[j]) || cc.numeric(s[j]) || s[j] == '_')
  }

  /** The lexer makes a keyword of exactly its spelling, where that is no part of a longer word. */
  lemma {:induction false} KeywordIff(cc: Classes, s: string, i: nat, k: TokenKind)
    requires Ascii(cc) && Keyword(k) && i < |s|
    ensures LexemeAt(cc, s, i).kind == k <==>
              StandsAt(s, i, Spelling(k)) && WordEnds(cc, s, i + |Spelling(k)|)
    ensures LexemeAt(cc, s, i).kind == k ==> LexemeAt(cc, s, i).end == i + |Spelling(k)|
  {
    hide LexemeAt, Spelling, WordLexeme;
    if LexemeAt(cc, s, i).kind == k {
      KeywordIsWord(cc, s, i);
      KeywordText(cc, s, i, k);
    }
    if StandsAt(s, i, Spelling(k)) && WordEnds(cc, s, i + |Spelling(k)|) {
      KeywordTaken(cc, s, i, k);
    }
  }

  /** Only words and signs have one spelling. */
  lemma {:induction false} WordChosen(cc: Classes, s: string, i: nat)
    requires i < |s| && !Varies(LexemeAt(cc, s, i).kind)
    ensures LexemeAt(cc, s, i) == (if IsPunctuation(s[i]) then Punctuation(s, i) else WordLexeme(cc, s, i))
  {
    hide Punctuation, WordLexeme, IsPunctuation, LexSpec.EatWhile, QuotedEnd, CharEnd, RawEnd, CommentEnd;
  }

  lemma {:induction false} KeywordIsWord(cc: Classes, s: string, i: nat)
    requires i < |s| && Keyword(LexemeAt(cc, s, i).kind)
    ensures LexemeAt(cc, s, i) == WordLexeme(cc, s, i)
  {
    hide LexemeAt, Keyword, SignAt, WordLexeme, Punctuation, IsPunctuation, Varies;
    if Varies(LexemeAt(cc, s, i).kind) {
      VaryingIsNoKeyword(LexemeAt(cc, s, i).kind);
    } else {
      WordChosen(cc, s, i);
    }
    PunctuationText(s, i);
    UnknownVaries();
    if SignAt(s, i, Punctuation(s, i).kind) {
      SignBegins(s, i, Punctuation(s, i).kind);
    }
  }

  lemma {:induction false} UnknownVaries()
    ensures Varies(Unknown)
  {
  }

  lemma {:induction false} KeywordText(cc: Classes, s: string, i: nat, k: TokenKind)
    requires Keyword(k) && i < |s| && WordLexeme(cc, s, i).kind == k
    ensures StandsAt(s, i, Spelling(k)) && WordEnds(cc, s, i + |Spelling(k)|)
    ensures WordLexeme(cc, s, i).end == i + |Spelling(k)|
  {
    hide Keyword, Spelling, WordKind, LexSpec.EatWhile, QuotedEnd, CharEnd, RawEnd;
    if Varies(k) {
      VaryingIsNoKeyword(k);
    }
    var j := LexSpec.EatWhile(WordBody(cc), s, i + 1);
    EatWhileAll(WordBody(cc), s, i + 1);
    WordSpelled(s[i..j]);
    assert s[i..j] == Spelling(k);
  }

  lemma {:induction false} KeywordTaken(cc: Classes, s: string, i: nat, k: TokenKind)
    requires Ascii(cc) && Keyword(k) && StandsAt(s, i, Spelling(k)) && WordEnds(cc, s, i + |Spelling(k)|)
    ensures i < |s| && LexemeAt(cc, s, i) == Lexeme(k, i + |Spelling(k)|)
  {
    hide Keyword, Spelling, WordKind, Punctuation, IsPunctuation;
    hide LexSpec.EatWhile, QuotedEnd, CharEnd, RawEnd, CommentEnd;
    var text, j := Spelling(k), i + |Spelling(k)|;
    SpelledInLetters(k);
    assert s[i] == text[0];
    LetterBegins(s[i]);
    forall m | i + 1 <= m < j
      ensures WordBody(cc)(s[m])
    {
      assert s[m] == text[m - i];
    }
    EatWhileIs(WordBody(cc), s, i + 1, j);
    SpelledWord(k);
  }

  // ---- Signs ----

  /** No longer sign stands here, and no comment begins. */
  ghost predicate LongestSign(s: string, i: nat, k: TokenKind)
    requires i < |s|
  {
    && SignAt(s, i, k) && (forall m :: SignAt(s, i, m) ==> Size(m) <= Size(k))
    && !(s[i] == '/' && (Peek(s, i + 1) == '/' || Peek(s, i + 1) == '~'))
  }

  lemma {:induction false} SignChars(c: char)
    ensures IsPunctuation(c) <==> SignChar(c)
  {
  }

  lemma {:induction false} SignChosen(cc: Classes, s: string, i: nat)
    requires Ascii(cc) && i < |s| && IsPunctuation(s[i])
    requires !(s[i] == '/' && (Peek(s, i + 1) == '/' || Peek(s, i + 1) == '~'))
    ensures LexemeAt(cc, s, i) == Punctuation(s, i)
  {
    hide Punctuation, CommentEnd, IsPunctuation, SignChar;
    SignChars(s[i]);
  }

  /** The lexer makes a sign of the longest that stands at its place, where no comment begins. */
  lemma {:induction false} SignTaken(cc: Classes, s: string, i: nat, k: TokenKind)
    requires Ascii(cc) && i < |s| && LongestSign(s, i, k)
    ensures LexemeAt(cc, s, i) == Lexeme(k, i + Size(k))
  {
    hide LexemeAt, SignAt, Size, Keyword, Punctuation, IsPunctuation;
    SignBegins(s, i, k);
    SignChosen(cc, s, i);
    PunctuationLongest(s, i, k);
    PunctuationText(s, i);
    PunctuationSize(s, i);
    SignIsKnown(s, i, k);
    SignsApart(s, i, k, Punctuation(s, i).kind);
  }

  lemma {:induction false} SignIsKnown(s: string, i: nat, k: TokenKind)
    requires i < |s| && SignAt(s, i, k)
    ensures !Punctuation(s, i).kind.Unknown?
  {
  }

  lemma {:induction false} WordVaries(cc: Classes, s: string, i: nat)
    requires i < |s|
    ensures var k := WordLexeme(cc, s, i).kind; Varies(k) || Keyword(k)
  {
    hide Keyword, WordKind, LexSpec.EatWhile, QuotedEnd, CharEnd, RawEnd;
    WordSpelled(s[i..LexSpec.EatWhile(WordBody(cc), s, i + 1)]);
  }

  /** A token of a sign's kind has exactly the sign's characters, and no longer sign stood there. */
  lemma {:induction false} SignText(cc: Classes, s: string, i: nat)
    requires i < |s| && !Keyword(LexemeAt(cc, s, i).kind) && !Varies(LexemeAt(cc, s, i).kind)
    ensures var r := LexemeAt(cc, s, i); LongestSign(s, i, r.kind) && r.end == i + Size(r.kind)
  {
    hide LexemeAt, SignAt, Size, Keyword, Varies, Punctuation, IsPunctuation, WordLexeme;
    var r := LexemeAt(cc, s, i);
    WordChosen(cc, s, i);
    WordVaries(cc, s, i);
    PunctuationText(s, i);
    PunctuationSize(s, i);
    UnknownVaries();
    if s[i] == '/' && (Peek(s, i + 1) == '/' || Peek(s, i + 1) == '~') {
      CommentVaries(cc, s, i);
    }
    forall m | SignAt(s, i, m)
      ensures Size(m) <= Size(r.kind)
    {
      PunctuationLongest(s, i, m);
    }
  }

  lemma {:induction false} CommentVaries(cc: Classes, s: string, i: nat)
    requires i < |s| && s[i] == '/' && (Peek(s, i + 1) == '/' || Peek(s, i + 1) == '~')
    ensures Varies(LexemeAt(cc, s, i).kind)
  {
    hide LexSpec.EatWhile, CommentEnd;
  }

  // ---- Texts alone, and in a source ----

  lemma {:induction false} SignFits(s: string, i: nat, k: TokenKind)
    requires i < |s| && SignAt(s, i, k)
    ensures i + Size(k) <= |s|
  {
  }

  lemma {:induction false} LoneSlash(text: string, k: TokenKind)
    requires text != "" && SignAt(text, 0, k) && text[0] == '/'
    ensures Size(k) == 1
  {
  }

  /** A keyword's text, alone, is that token. */
  lemma {:induction false} KeywordAlone(cc: Classes, k: TokenKind)
    requires Ascii(cc) && Keyword(k)
    ensures Spelling(k) != "" && LexemeAt(cc, Spelling(k), 0) == Lexeme(k, |Spelling(k)|)
  {
    hide LexemeAt, Keyword, Spelling, Ascii, WordEnds;
    var text := Spelling(k);
    assert text[0..|text|] == text;
    WordEndsThere(cc, text);
    KeywordTaken(cc, text, 0, k);
  }

  lemma {:induction false} WordEndsThere(cc: Classes, text: string)
    ensures WordEnds(cc, text, |text|)
  {
  }

  lemma {:induction false} AloneIsLongest(k: TokenKind, text: string)
    requires text != "" && SignAt(text, 0, k) && |text| == Size(k)
    ensures LongestSign(text, 0, k)
  {
    hide SignAt, Size;
    forall m | SignAt(text, 0, m)
      ensures Size(m) <= Size(k)
    {
      SignFits(text, 0, m);
    }
    if text[0] == '/' {
      LoneSlash(text, k);
    }
  }

  /** So are a sign's characters. */
  lemma {:induction false} SignAlone(cc: Classes, k: TokenKind, text: string)
    requires Ascii(cc) && text != "" && SignAt(text, 0, k) && |text| == Size(k)
    ensures LexemeAt(cc, text, 0) == Lexeme(k, |text|)
  {
    hide LexemeAt, SignAt, Size, Ascii, LongestSign;
    AloneIsLongest(k, text);
    SignTaken(cc, text, 0, k);
  }

  /** Every token of a source: a keyword's text is its spelling, a sign's is its characters. */
  lemma {:induction false} TokenTexts(cc: Classes, s: string, i: nat, id: nat, j: nat)
    requires i <= |s| && j < |TextsFrom(cc, s, i)|
    ensures j < |TokensFrom(cc, s, i, id)|
    ensures var (k, text) := (TokensFrom(cc, s, i, id)[j].kind, TextsFrom(cc, s, i)[j]);
      && (Keyword(k) ==> text == Spelling(k))
      && (!Keyword(k) && !Varies(k) ==> |text| == Size(k) > 0 && SignAt(text, 0, k))
    decreases |s| - i
  {
    hide LexemeAt, Spelling, Keyword, Varies, SignAt, Size, Covering, TokensFrom, WordLexeme;
    var r := LexemeAt(cc, s, i);
    TokensNext(cc, s, i, id);
    CoveringIs(r.kind, s, i, r.end, id);
    if j > 0 {
      TokenTexts(cc, s, r.end, id, j - 1);
    } else if Keyword(r.kind) {
      KeywordIsWord(cc, s, i);
      KeywordText(cc, s, i, r.kind);
    } else if !Varies(r.kind) {
      SignText(cc, s, i);
      SignMoved(s, i, r.end, r.kind);
    }
  }

  lemma {:induction false} SignMoved(s: string, i: nat, e: nat, k: TokenKind)
    requires i < |s| && e == i + Size(k) <= |s| && SignAt(s, i, k)
    ensures i < e && SignAt(s[i..e], 0, k)
  {
  }
}
