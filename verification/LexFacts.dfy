/** Properties of the lexical grammar: locality, escapes, raw strings, nested comments. */
module LexFacts {
  import opened Tokens
  import opened LexSpec

  // ---- Locality: a scan depends only on what it consumes ----
  //
  // In each lemma `a` is where the token starts and `k` is at or after the end of the scan.

  lemma {:induction false} EatWhileLocal(p: char -> bool, s: string, a: nat, i: nat, k: nat)
    requires a <= i <= |s| && EatWhile(p, s, i) <= k <= |s|
    ensures EatWhile(p, s[a..k], i - a) == EatWhile(p, s, i) - a
    decreases |s| - i
  {
    if i < |s| && p(s[i]) {
      EatWhileLocal(p, s, a, i + 1, k);
      assert s[a..k][i - a] == s[i];
    }
  }

  // Inside the window characters are the same; just past it there is the end of input.
  lemma PeekLocal(s: string, a: nat, i: nat, k: nat)
    requires a <= i && a <= k <= |s|
    ensures i < k ==> Peek(s[a..k], i - a) == Peek(s, i)
    ensures i >= k ==> Peek(s[a..k], i - a) == EOF_CHAR
    ensures Peek(s, i) != EOF_CHAR ==> i < |s|
  {
  }

  lemma EscapeLocal(s: string, a: nat, i: nat, k: nat)
    requires a <= i <= |s| && EscapeEnd(s, i) <= k <= |s|
    ensures EscapeEnd(s[a..k], i - a) == EscapeEnd(s, i) - a
  {
    hide Peek, EatWhile;
    PeekLocal(s, a, i + 1, k);
    PeekLocal(s, a, i + 2, k);
    if i < |s| {
      assert s[a..k][i - a] == s[i];
      if s[i] == 'u' && Peek(s, i + 1) == '{' {
        EatWhileLocal(HexOrUnderscore, s, a, i + 2, k);
        PeekLocal(s, a, EatWhile(HexOrUnderscore, s, i + 2), k);
      }
    }
  }

  lemma {:induction false} QuotedLocal(q: char, s: string, a: nat, i: nat, k: nat)
    requires a <= i <= |s| && QuotedEnd(q, s, i).end <= k <= |s|
    ensures QuotedEnd(q, s[a..k], i - a) == Scan(QuotedEnd(q, s, i).terminated, QuotedEnd(q, s, i).end - a)
    decreases |s| - i
  {
    hide EscapeEnd;
    if i < |s| {
      assert s[a..k][i - a] == s[i];
      if s[i] == q {
      } else if s[i] == '\\' {
        EscapeLocal(s, a, i + 1, k);
        QuotedLocal(q, s, a, EscapeEnd(s, i + 1), k);
      } else {
        QuotedLocal(q, s, a, i + 1, k);
      }
    }
  }

  lemma CharLocal(s: string, a: nat, i: nat, k: nat)
    requires a <= i <= |s| && CharEnd(s, i).end <= k <= |s|
    requires CharEnd(s, i).terminated || k == CharEnd(s, i).end
    ensures CharEnd(s[a..k], i - a) == Scan(CharEnd(s, i).terminated, CharEnd(s, i).end - a)
  {
    hide EscapeEnd, Peek;
    if i < |s| {
      assert s[a..k][i - a] == s[i];
      if s[i] == '\\' {
        EscapeLocal(s, a, i + 1, k);
        PeekLocal(s, a, EscapeEnd(s, i + 1), k);
      } else {
        PeekLocal(s, a, i + 1, k);
      }
    }
  }

  lemma {:induction false} HashesLocal(s: string, a: nat, i: nat, most: nat, k: nat)
    requires a <= i <= |s| && i + Hashes(s, i, most) <= k <= |s|
    ensures Hashes(s[a..k], i - a, most) == Hashes(s, i, most)
    decreases most
  {
    if most > 0 && i < |s| && s[i] == '#' {
      assert s[a..k][i - a] == s[i];
      HashesLocal(s, a, i + 1, most - 1, k);
    }
  }

  lemma {:induction false} RawLocal(s: string, a: nat, i: nat, h: nat, k: nat)
    requires a <= i <= |s| && RawEnd(s, i, h).end <= k <= |s|
    ensures RawEnd(s[a..k], i - a, h) == Scan(RawEnd(s, i, h).terminated, RawEnd(s, i, h).end - a)
    decreases |s| - i
  {
    hide Hashes;
    if i < |s| {
      assert s[a..k][i - a] == s[i];
      if s[i] == '"' {
        var n := Hashes(s, i + 1, h);
        HashesLocal(s, a, i + 1, h, k);
        if n != h {
          RawLocal(s, a, i + 1 + n, h, k);
        }
      } else {
        RawLocal(s, a, i + 1, h, k);
      }
    }
  }

  lemma RawLexemeLocal(s: string, a: nat, i: nat, k: nat)
    requires a <= i <= |s| && RawLexeme(s, i).end == k
    ensures RawLexeme(s[a..k], i - a) == Lexeme(RawLexeme(s, i).kind, k - a)
  {
    hide Peek, EatWhile, RawEnd;
    var j := EatWhile(IsHash, s, i);
    EatWhileLocal(IsHash, s, a, i, k);
    PeekLocal(s, a, j, k);
    if Peek(s, j) == '"' {
      RawLocal(s, a, j + 1, j - i, k);
    }
  }

  lemma {:induction false} CommentLocal(s: string, a: nat, i: nat, depth: nat, k: nat)
    requires a <= i <= |s| && CommentEnd(s, i, depth).end <= k <= |s|
    ensures CommentEnd(s[a..k], i - a, depth) ==
            Scan(CommentEnd(s, i, depth).terminated, CommentEnd(s, i, depth).end - a)
    decreases |s| - i
  {
    hide Peek;
    if i < |s| {
      assert s[a..k][i - a] == s[i];
      PeekLocal(s, a, i + 1, k);
      if s[i] == '/' && Peek(s, i + 1) == '~' {
        CommentLocal(s, a, i + 2, depth + 1, k);
      } else if s[i] == '~' && Peek(s, i + 1) == '/' {
        if depth > 1 {
          CommentLocal(s, a, i + 2, depth - 1, k);
        }
      } else {
        CommentLocal(s, a, i + 1, depth, k);
      }
    }
  }

  lemma NumberLocal(s: string, i: nat, k: nat)
    requires i < |s| && NumberLexeme(s, i).end == k
    ensures NumberLexeme(s[i..k], 0) == Lexeme(NumberLexeme(s, i).kind, k - i)
  {
    hide Peek, EatWhile, NumberBody;
    var t := s[i..k];
    assert t[0] == s[i];
    PeekLocal(s, i, i + 1, k);
    var c := Peek(s, i + 1);
    var base := if s[i] != '0' then Decimal
                else if c == 'x' then Hexadecimal else if c == 'b' then Base.Binary
                else if c == 'o' then Octal else Decimal;
    var from := if base == Decimal then i + 1 else i + 2;
    var j := EatWhile(NumberBody(base), s, from);
    assert from <= j <= k;
    EatWhileLocal(NumberBody(base), s, i, from, k);
    PeekLocal(s, i, j, k);
    PeekLocal(s, i, j + 1, k);
    if Peek(s, j) == '.' && Peek(s, j + 1) != '.' {
      EatWhileLocal(DigitOrUnderscore, s, i, j + 1, k);
    }
  }

  lemma WordLocal(cc: Classes, s: string, i: nat, k: nat)
    requires i < |s| && WordLexeme(cc, s, i).end == k
    ensures WordLexeme(cc, s[i..k], 0) == Lexeme(WordLexeme(cc, s, i).kind, k - i)
  {
    hide Peek, EatWhile, WordBody, WordKind, RawLexeme, QuotedEnd, CharEnd;
    var t := s[i..k];
    assert t[0] == s[i];
    var j := EatWhile(WordBody(cc), s, i + 1);
    var text := s[i..j];
    EatWhileLocal(WordBody(cc), s, i, i + 1, k);
    assert t[0..j - i] == text;
    PeekLocal(s, i, j, k);
    if text == "r" && (Peek(s, j) == '"' || Peek(s, j) == '#') {
      RawHasPrefix(s, j);
      RawLexemeLocal(s, i, j, k);
    } else if text == "b" && Peek(s, j) == '"' {
      QuotedLocal('"', s, i, j + 1, k);
    } else if text == "b" && Peek(s, j) == '\'' {
      CharLocal(s, i, j + 1, k);
    }
  }

  // A raw lexeme takes at least the quote or hash that announced it.
  lemma RawHasPrefix(s: string, i: nat)
    requires i < |s| && (Peek(s, i) == '"' || Peek(s, i) == '#')
    ensures RawLexeme(s, i).end > i
  {
  }

  lemma PunctuationLocal(s: string, i: nat, k: nat)
    requires i < |s| && Punctuation(s, i).end == k
    ensures Punctuation(s[i..k], 0) == Lexeme(Punctuation(s, i).kind, k - i)
  {
    hide Peek;
    assert s[i..k][0] == s[i];
    PeekLocal(s, i, i + 1, k);
    PeekLocal(s, i, i + 2, k);
  }

  lemma LiteralLocal(s: string, i: nat, k: nat)
    requires i < |s| && LiteralLexeme(s, i).end == k
    ensures LiteralLexeme(s[i..k], 0) == Lexeme(LiteralLexeme(s, i).kind, k - i)
  {
    hide QuotedEnd, CharEnd;
    assert s[i..k][0] == s[i];
    match s[i] {
      case '"' =>
        QuotedLocal('"', s, i, i + 1, k);
      case '\'' =>
        CharLocal(s, i, i + 1, k);
      case '`' =>
        QuotedLocal('`', s, i, i + 1, k);
      case _ =>
    }
  }

  /** Lexing is local: a token's own text, alone, is that one token again. */
  lemma LexemeLocal(cc: Classes, s: string, i: nat)
    requires i < |s|
    ensures var r := LexemeAt(cc, s, i);
            LexemeAt(cc, s[i..r.end], 0) == Lexeme(r.kind, r.end - i)
  {
    hide Peek, EatWhile, CommentEnd, Punctuation, WordLexeme, NumberLexeme, LiteralLexeme, IsPunctuation, IdentStart,
      Digit;
    var k := LexemeAt(cc, s, i).end;
    var c := s[i];
    assert s[i..k][0] == c;
    PeekLocal(s, i, i + 1, k);
    if cc.whitespace(c) {
      EatWhileLocal(cc.whitespace, s, i, i + 1, k);
    } else if c == '/' && Peek(s, i + 1) == '/' {
      EatWhileLocal(InLineComment, s, i, i + 2, k);
    } else if c == '/' && Peek(s, i + 1) == '~' {
      CommentLocal(s, i, i + 2, 1, k);
    } else if IsPunctuation(c) {
      PunctuationLocal(s, i, k);
    } else if IdentStart(cc, c) {
      WordLocal(cc, s, i, k);
    } else if Digit(c) {
      NumberLocal(s, i, k);
    } else {
      LiteralLocal(s, i, k);
    }
  }

  // ---- Strings end at the first quote that no backslash escapes ----

  /** The number of backslashes in `s[from..i]` that end right before `i`. */
  function Backslashes(s: string, from: nat, i: nat): (n: nat)
    requires from <= i <= |s|
    ensures n <= i - from
    decreases i
  {
    if from < i && s[i - 1] == '\\' then 1 + Backslashes(s, from, i - 1) else 0
  }

  ghost predicate Unescaped(q: char, s: string, from: nat, i: nat)
    requires from <= i < |s|
  {
    s[i] == q && Backslashes(s, from, i) % 2 == 0
  }

  lemma {:induction false} EatWhileAll(p: char -> bool, s: string, i: nat)
    requires i <= |s|
    ensures forall j :: i <= j < EatWhile(p, s, i) ==> p(s[j])
    ensures EatWhile(p, s, i) == |s| || !p(s[EatWhile(p, s, i)])
    decreases |s| - i
  {
    if i < |s| && p(s[i]) {
      EatWhileAll(p, s, i + 1);
    }
  }

  /** Whatever an escape consumes after its first character is neither a quote nor a backslash. */
  lemma EscapeTail(s: string, i: nat)
    requires i < |s|
    ensures forall j :: i < j < EscapeEnd(s, i) ==> HexOrUnderscore(s[j]) || s[j] == '{' || s[j] == '}'
  {
    EatWhileAllAt(s, i);
  }

  lemma EatWhileAllAt(s: string, i: nat)
    ensures i + 2 <= |s| ==> forall j :: i + 2 <= j < EatWhile(HexOrUnderscore, s, i + 2) ==> HexOrUnderscore(s[j])
  {
    if i + 2 <= |s| {
      EatWhileAll(HexOrUnderscore, s, i + 2);
    }
  }

  predicate IsQuote(q: char) {
    q == '"' || q == '`'
  }

  // Skipping ahead over characters that are neither the quote nor a backslash changes nothing.
  lemma {:induction false} QuotedSkips(q: char, s: string, i: nat, j: nat)
    requires IsQuote(q) && i <= j <= |s|
    requires forall k :: i <= k < j ==> s[k] != q && s[k] != '\\'
    ensures QuotedEnd(q, s, i) == QuotedEnd(q, s, j)
    decreases j - i
  {
    if i < j {
      QuotedSkips(q, s, i + 1, j);
    }
  }

  /** An escape is one character as far as the end of the string is concerned. */
  lemma QuotedEscape(q: char, s: string, i: nat)
    requires IsQuote(q) && i < |s| && s[i] == '\\'
    ensures QuotedEnd(q, s, i) == QuotedEnd(q, s, if i + 2 <= |s| then i + 2 else i + 1)
  {
    if i + 1 < |s| {
      EscapeTail(s, i + 1);
      QuotedSkips(q, s, i + 2, EscapeEnd(s, i + 1));
    }
  }

  /**
   A string ends right after the first quote preceded by an even run of backslashes, and is unterminated
   exactly when there is none.  `i` is any scan position not inside an escape.
   */
  lemma {:induction false} QuotedEndsAt(q: char, s: string, from: nat, i: nat)
    requires IsQuote(q) && from <= i <= |s| && Backslashes(s, from, i) % 2 == 0
    requires forall j :: from <= j < i ==> !Unescaped(q, s, from, j)
    ensures var r := QuotedEnd(q, s, i);
            && (r.terminated ==> i < r.end && Unescaped(q, s, from, r.end - 1)
                                 && forall j :: from <= j < r.end - 1 ==> !Unescaped(q, s, from, j))
            && (!r.terminated ==> forall j :: from <= j < |s| ==> !Unescaped(q, s, from, j))
    decreases |s| - i
  {
    hide EscapeEnd;
    if i < |s| && s[i] != q {
      if s[i] == '\\' {
        QuotedEscape(q, s, i);
        assert Backslashes(s, from, i + 1) == 1 + Backslashes(s, from, i);
        if i + 2 <= |s| {
          if s[i + 1] == '\\' {
            assert Backslashes(s, from, i + 2) == 2 + Backslashes(s, from, i);
          }
          QuotedEndsAt(q, s, from, i + 2);
        }
      } else {
        QuotedEndsAt(q, s, from, i + 1);
      }
    }
  }

  // ---- Raw strings ----

  /** A quote at `p` followed by `h` hashes. */
  ghost predicate Closes(s: string, p: nat, h: nat) {
    p + h < |s| && s[p] == '"' && forall j :: p < j <= p + h ==> s[j] == '#'
  }

  lemma {:induction false} HashesAre(s: string, i: nat, most: nat)
    requires i <= |s|
    ensures var n := Hashes(s, i, most);
            && (forall j :: i <= j < i + n ==> s[j] == '#')
            && (n < most ==> i + n == |s| || s[i + n] != '#')
    decreases most
  {
    if most > 0 && i < |s| && s[i] == '#' {
      HashesAre(s, i + 1, most - 1);
    }
  }

  /** A raw string ends right after the first quote followed by as many hashes as opened it. */
  lemma {:induction false} RawEndsAt(s: string, i: nat, h: nat)
    requires i <= |s|
    ensures var r := RawEnd(s, i, h);
            && (r.terminated ==> i + h < r.end && Closes(s, r.end - 1 - h, h)
                                 && forall p :: i <= p < r.end - 1 - h ==> !Closes(s, p, h))
            && (!r.terminated ==> forall p :: i <= p ==> !Closes(s, p, h))
    decreases |s| - i
  {
    hide Hashes;
    if i < |s| {
      if s[i] == '"' {
        HashesAre(s, i + 1, h);
        var n := Hashes(s, i + 1, h);
        if n != h {
          RawEndsAt(s, i + 1 + n, h);
          assert i + 1 + n == |s| || s[i + 1 + n] != '#';
        }
      } else {
        RawEndsAt(s, i + 1, h);
      }
    }
  }

  function Repeat(c: char, n: nat): (s: string)
    ensures |s| == n && forall i :: 0 <= i < n ==> s[i] == c
  {
    seq(n, _ => c)
  }

  // ASCII characters whose class the host tables fix.
  ghost predicate Sane(cc: Classes) {
    && cc.alphabetic('r') && !cc.whitespace('r')
    && forall c :: c in "\"#" ==> !cc.alphabetic(c) && !cc.numeric(c)
  }

  function RawText(h: nat, content: string): string {
    "r" + Repeat('#', h) + "\"" + content + "\"" + Repeat('#', h)
  }

  lemma {:induction false} EatWhileIs(p: char -> bool, s: string, i: nat, e: nat)
    requires i <= e <= |s| && (forall j :: i <= j < e ==> p(s[j])) && (e == |s| || !p(s[e]))
    ensures EatWhile(p, s, i) == e
    decreases e - i
  {
    if i < e {
      EatWhileIs(p, s, i + 1, e);
    }
  }

  // A closing sequence that starts in the content lies in the content, since a quote follows it.
  lemma RawInside(s: string, content: string, at: nat, p: nat, h: nat)
    requires at + |content| < |s| && s[at..at + |content|] == content && s[at + |content|] == '"'
    requires at <= p < at + |content| && Closes(s, p, h)
    ensures Closes(content, p - at, h)
  {
    assert p + h < at + |content|;
    assert forall j :: 0 <= j < |content| ==> content[j] == s[at + j];
  }

  // From the content on, the scan stops at the closing that follows the content.
  lemma RawEndsAfter(s: string, content: string, at: nat, h: nat)
    requires at + |content| < |s| && s[at..at + |content|] == content
    requires Closes(s, at + |content|, h) && forall p :: 0 <= p < |content| ==> !Closes(content, p, h)
    ensures RawEnd(s, at, h) == Scan(true, at + |content| + h + 1)
  {
    hide RawEnd;
    RawEndsAt(s, at, h);
    forall p | at <= p < at + |content|
      ensures !Closes(s, p, h)
    {
      if Closes(s, p, h) {
        RawInside(s, content, at, p, h);
      }
    }
  }

  lemma RawTextParts(h: nat, content: string, rest: string)
    ensures var s := RawText(h, content) + rest;
            var at := h + 2;
            && |RawText(h, content)| == at + |content| + h + 1
            && s[0] == 'r' && s[h + 1] == '"' && (forall j :: 1 <= j < h + 1 ==> s[j] == '#')
            && s[at..at + |content|] == content && Closes(s, at + |content|, h)
  {
  }

  /** A raw string reads back as one terminated token of exactly its own text, whatever follows it. */
  lemma RawRoundTrip(cc: Classes, h: nat, content: string, rest: string)
    requires Sane(cc) && forall p :: 0 <= p < |content| ==> !Closes(content, p, h)
    ensures LexemeAt(cc, RawText(h, content) + rest, 0) == Lexeme(Str(true), |RawText(h, content)|)
  {
    var s := RawText(h, content) + rest;
    RawTextParts(h, content, rest);
    hide RawText, RawEnd, EatWhile, WordKind, Closes;
    EatWhileIs(WordBody(cc), s, 1, 1);
    EatWhileIs(IsHash, s, 1, h + 1);
    RawEndsAfter(s, content, h + 2, h);
    assert s[0..1] == "r";
    assert RawLexeme(s, 1) == Lexeme(Str(true), |RawText(h, content)|);
  }

  // ---- Nested comments ----

  predicate OpensAt(s: string, i: nat) {
    i + 1 < |s| && s[i] == '/' && s[i + 1] == '~'
  }

  predicate ClosesAt(s: string, i: nat) {
    i + 1 < |s| && s[i] == '~' && s[i + 1] == '/'
  }

  /**
   The grammar of comment bodies: `s[i..j]` is a sequence of single characters, none of which starts a
   delimiter, and of whole comments, each an opening, a body and a closing.
   */
  ghost predicate Body(s: string, i: nat, j: nat)
    decreases j - i
  {
    i == j
    || (i < j <= |s| && !OpensAt(s, i) && !ClosesAt(s, i) && Body(s, i + 1, j))
    || (i < j <= |s| && OpensAt(s, i)
        && exists k :: i + 2 <= k && k + 2 <= j && Body(s, i + 2, k) && ClosesAt(s, k) && Body(s, k + 2, j))
  }

  // Two bodies in a row are a body.
  lemma {:induction false} BodyAppend(s: string, i: nat, j: nat, k: nat)
    requires i <= j <= k && Body(s, i, j) && Body(s, j, k)
    ensures Body(s, i, k)
    decreases j - i
  {
    if i < j {
      BodyInside(s, j, k);
      if OpensAt(s, i) {
        var m :| i + 2 <= m && m + 2 <= j && Body(s, i + 2, m) && ClosesAt(s, m) && Body(s, m + 2, j);
        BodyAppend(s, m + 2, j, k);
      } else {
        BodyAppend(s, i + 1, j, k);
      }
    }
  }

  lemma BodyInside(s: string, i: nat, j: nat)
    requires i <= j && Body(s, i, j)
    ensures i < j ==> j <= |s|
  {
  }

  /** A body leaves the depth as it found it. */
  lemma {:induction false} BodyKeepsDepth(s: string, i: nat, j: nat, depth: nat)
    requires i <= j <= |s| && Body(s, i, j) && depth >= 1
    ensures CommentEnd(s, i, depth) == CommentEnd(s, j, depth)
    decreases j - i
  {
    if i < j {
      if OpensAt(s, i) {
        var k :| i + 2 <= k && k + 2 <= j && Body(s, i + 2, k) && ClosesAt(s, k) && Body(s, k + 2, j);
        BodyKeepsDepth(s, i + 2, k, depth + 1);
        BodyKeepsDepth(s, k + 2, j, depth);
      } else {
        BodyKeepsDepth(s, i + 1, j, depth);
      }
    }
  }

  // The closing that ends the innermost comment open at `i`.
  ghost predicate ClosedBy(s: string, i: nat, k: nat) {
    i <= k && Body(s, i, k) && ClosesAt(s, k)
  }

  /** A scan that terminates has met the closing of its innermost comment, and went on from there. */
  lemma {:induction false} ScanFindsClosing(s: string, i: nat, depth: nat) returns (k: nat)
    requires i <= |s| && depth >= 1 && CommentEnd(s, i, depth).terminated
    ensures ClosedBy(s, i, k)
    ensures if depth == 1 then CommentEnd(s, i, 1).end == k + 2
            else CommentEnd(s, i, depth) == CommentEnd(s, k + 2, depth - 1)
    decreases |s| - i
  {
    hide Body;
    if OpensAt(s, i) {
      var m := ScanFindsClosing(s, i + 2, depth + 1);
      k := ScanFindsClosing(s, m + 2, depth);
      NestedBody(s, i, m, k);
    } else if ClosesAt(s, i) {
      k := i;
      EmptyBody(s, i);
    } else {
      k := ScanFindsClosing(s, i + 1, depth);
      PlainBody(s, i, k);
    }
  }

  lemma EmptyBody(s: string, i: nat)
    ensures Body(s, i, i)
  {
  }

  lemma PlainBody(s: string, i: nat, k: nat)
    requires i < k <= |s| && !OpensAt(s, i) && !ClosesAt(s, i) && Body(s, i + 1, k)
    ensures Body(s, i, k)
  {
  }

  lemma NestedBody(s: string, i: nat, m: nat, k: nat)
    requires OpensAt(s, i) && ClosedBy(s, i + 2, m) && m + 2 <= k <= |s| && Body(s, m + 2, k)
    ensures Body(s, i, k)
  {
  }

  /**
   A `/~` comment is terminated exactly when a body of the grammar and a closing follow, and then it ends
   with that closing; otherwise it runs to the end of the source.
   */
  lemma CommentMatchesGrammar(s: string, i: nat)
    requires i <= |s|
    ensures CommentEnd(s, i, 1).terminated <==> exists k: nat :: ClosedBy(s, i, k)
    ensures forall k: nat :: ClosedBy(s, i, k) ==> CommentEnd(s, i, 1) == Scan(true, k + 2)
    ensures (forall k: nat :: !ClosedBy(s, i, k)) ==> CommentEnd(s, i, 1) == Scan(false, |s|)
  {
    hide Body;
    if CommentEnd(s, i, 1).terminated {
      var k := ScanFindsClosing(s, i, 1);
    }
    forall k: nat | ClosedBy(s, i, k)
      ensures CommentEnd(s, i, 1) == Scan(true, k + 2)
    {
      BodyKeepsDepth(s, i, k, 1);
    }
  }
}
