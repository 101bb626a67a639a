/** The expression parser: a cursor over a token array, advanced by mutually recursive methods. */
module Parser {
  import opened Tokens
  import opened ParseSpec

  class Parser {
    const tokens: seq<Token>
    var pos: nat
    var conditionExprDepth: nat

    // Block-introducing keywords are outside this model; see `BlockFree`.
    ghost predicate Valid()
      reads this
    {
      pos <= |tokens| && BlockFree(tokens)
    }

    constructor (tokens: seq<Token>)
      requires BlockFree(tokens)
      ensures Valid() && this.tokens == tokens && pos == 0 && conditionExprDepth == 0
    {
      this.tokens := tokens;
      pos := 0;
      conditionExprDepth := 0;
    }

    // ---- Cursor ----

    function CurrentKind(): (k: TokenKind)
      requires Valid()
      reads this
      ensures k == KindAt(tokens, pos)
    {
      if pos < |tokens| then tokens[pos].kind else Eof
    }

    method Bump() returns (token: Token)
      requires Valid()
      modifies `pos
      ensures Valid() && token == TokenAt(tokens, old(pos)) && pos == Past(tokens, old(pos))
    {
      token := if pos < |tokens| then tokens[pos] else EOF_TOKEN;
      if !token.kind.Eof? {
        pos := pos + 1;
      }
    }

    // Appends the next token to `children`.
    method PushBump(children: seq<Element>) returns (more: seq<Element>)
      requires Valid()
      modifies `pos
      ensures Valid() && Push(tokens, Partial(children, old(pos))) == Partial(more, pos)
    {
      var token := Bump();
      more := children + [Leaf(token)];
    }

    method EatTrivia() returns (trivia: seq<Element>)
      requires Valid()
      modifies `pos
      ensures Valid() && pos == SkipTrivia(tokens, old(pos)) && trivia == Leaves(tokens[old(pos)..pos])
    {
      trivia := [];
      while CurrentKind().Whitespace? || CurrentKind().Comment?
        invariant Valid() && old(pos) <= pos
        invariant SkipTrivia(tokens, pos) == SkipTrivia(tokens, old(pos))
        invariant trivia == Leaves(tokens[old(pos)..pos])
        decreases |tokens| - pos
      {
        var token := Bump();
        trivia := trivia + [Leaf(token)];
      }
    }

    method ExtendTrivia(children: seq<Element>) returns (more: seq<Element>)
      requires Valid()
      modifies `pos
      ensures Valid() && Eat(tokens, Partial(children, old(pos))) == Partial(more, pos)
    {
      var trivia := EatTrivia();
      more := children + trivia;
    }

    // The number of trivia tokens from `pos + from` on; nothing is consumed.
    method CountTrivia(from: nat) returns (offset: nat)
      requires Valid() && pos + from <= |tokens|
      ensures from <= offset && pos + offset == SkipTrivia(tokens, pos + from)
    {
      offset := from;
      while pos + offset < |tokens| && IsTrivia(tokens[pos + offset].kind)
        invariant from <= offset && pos + offset <= |tokens|
        invariant SkipTrivia(tokens, pos + offset) == SkipTrivia(tokens, pos + from)
        decreases |tokens| - offset
      {
        offset := offset + 1;
      }
    }

    // ---- Expressions ----

    /** `parse_expr`: a primary, then every operator that binds more tightly than `min`. */
    method ParseExpr(min: Precedence) returns (node: Node)
      requires Valid()
      modifies `pos
      ensures Valid() && Expr(tokens, conditionExprDepth, old(pos), min) == Parsed(node, pos)
      decreases |tokens| - pos, 4
    {
      hide Expr, ExprLoop, Primary, PostfixForm, FromKind, Rank, Ahead, SkipTrivia;
      ExprStarts(tokens, conditionExprDepth, pos, min);
      var lhs := ParsePrimary();
      PrimaryForward(tokens, conditionExprDepth, old(pos));
      while true
        invariant Valid() && old(pos) <= pos
        invariant ExprLoop(tokens, conditionExprDepth, Parsed(lhs, pos), min)
                  == Expr(tokens, conditionExprDepth, old(pos), min)
        decreases |tokens| - pos
      {
        LoopTurn(tokens, conditionExprDepth, Parsed(lhs, pos), min);
        var offset := CountTrivia(0);
        var kind := KindAt(tokens, pos + offset);
        var prec := FromKind(kind);
        if conditionExprDepth > 0 && kind.OpenBrace? {
          break;
        }
        if Rank(prec) <= Rank(min) || prec.NoPrec? {
          break;
        }
        EofHasNoPrecedence();
        pos := pos + offset;
        lhs := ParsePostfixForm(lhs, prec);
      }
      node := lhs;
    }

    // Dispatches on the operator at the cursor.
    method ParsePostfixForm(lhs: Node, prec: Precedence) returns (node: Node)
      requires Valid() && pos < |tokens| && prec == FromKind(tokens[pos].kind) && !prec.NoPrec?
      modifies `pos
      ensures Valid() && PostfixForm(tokens, conditionExprDepth, lhs, old(pos)) == Parsed(node, pos)
      decreases |tokens| - pos, 2
    {
      hide CallArgs, PathTail, StructFields, OptionalTail, BangTail, Expr, Ahead, SkipTrivia, FromKind;
      OperatorHere(tokens, pos);
      var kind := tokens[pos].kind;
      var children := ExtendTrivia([Sub(lhs)]);
      children := PushBump(children);
      if kind.OpenParen? {
        children := ParseCallArgs(children);
        children := BumpIf(children, CloseParen);
        node := Node(CallExpr, children);
      } else if kind.DoubleColon? {
        children := ExtendTrivia(children);
        children := ParsePathTail(children);
        node := Node(PathExpr, children);
      } else if kind.OpenBrace? {
        children := ParseStructFields(children);
        children := BumpIf(children, CloseBrace);
        node := Node(StructLiteral, children);
      } else if kind.Question? {
        children := ExtendTrivia(children);
        children := ParseOptionalTail(children);
        node := Node(MemberExpr, children);
      } else if kind.Dot? {
        children := ExtendTrivia(children);
        children := BumpIf(children, Ident);
        node := Node(MemberExpr, children);
      } else if kind.Bang? {
        children := ParseBangTail(children);
        node := Node(CascadeExpr, children);
      } else {
        var rhs := ParseExpr(prec);
        node := Node(BinaryExpr, children + [Sub(rhs)]);
      }
    }

    method BumpIf(children: seq<Element>, kind: TokenKind) returns (more: seq<Element>)
      requires Valid()
      modifies `pos
      ensures Valid() && PushIf(tokens, Partial(children, old(pos)), kind) == Partial(more, pos)
    {
      more := children;
      if CurrentKind() == kind {
        more := PushBump(children);
      }
    }

    /** The arguments of a call, up to its closing parenthesis or the end of input. */
    method ParseCallArgs(start: seq<Element>) returns (children: seq<Element>)
      requires Valid()
      modifies `pos
      ensures Valid() && CallArgs(tokens, conditionExprDepth, Partial(start, old(pos))) == Partial(children, pos)
      decreases |tokens| - pos, 6
    {
      hide CallArg, AfterArg;
      children := start;
      while !CurrentKind().CloseParen? && !CurrentKind().Eof?
        invariant Valid() && old(pos) <= pos
        invariant CallArgs(tokens, conditionExprDepth, Partial(children, pos))
                  == CallArgs(tokens, conditionExprDepth, Partial(start, old(pos)))
        decreases |tokens| - pos
      {
        var arg := ParseCallArg();
        children := children + [Sub(arg)];
        children := ParseComma(children);
      }
    }

    method ParseComma(start: seq<Element>) returns (children: seq<Element>)
      requires Valid()
      modifies `pos
      ensures Valid() && AfterArg(tokens, Partial(start, old(pos))) == Partial(children, pos)
    {
      hide Eat, Push, SkipTrivia;
      children := ExtendTrivia(start);
      if CurrentKind().Comma? {
        children := PushBump(children);
        children := ExtendTrivia(children);
      }
    }

    method ParseCallArg() returns (node: Node)
      requires Valid() && pos < |tokens| && !KindAt(tokens, pos).Eof?
      modifies `pos
      ensures Valid() && CallArg(tokens, conditionExprDepth, old(pos)) == Parsed(node, pos)
      decreases |tokens| - pos, 5
    {
      hide Expr, Eat, SkipTrivia, NamingKind, Ahead;
      var children := ExtendTrivia([]);
      var named := false;
      if NamingKind(CurrentKind()) && pos < |tokens| {
        var offset := CountTrivia(1);
        named := KindAt(tokens, pos + offset).Colon?;
      }
      assert named == Labelled(tokens, pos);
      if named {
        children := ParseLabel(children);
      }
      var value := ParseExpr(NoPrec);
      node := Node(ArgNode, children + [Sub(value)]);
    }

    method ParseLabel(start: seq<Element>) returns (children: seq<Element>)
      requires Valid() && Labelled(tokens, pos)
      modifies `pos
      ensures Valid() && Label(tokens, Partial(start, old(pos))) == Partial(children, pos) && old(pos) < pos
    {
      hide Labelled, Eat, Push;
      children := PushBump(start);
      children := ExtendTrivia(children);
      children := PushBump(children);
      children := ExtendTrivia(children);
    }

    method ParsePathTail(start: seq<Element>) returns (children: seq<Element>)
      requires Valid()
      modifies `pos
      ensures Valid() && PathTail(tokens, conditionExprDepth, Partial(start, old(pos))) == Partial(children, pos)
      decreases |tokens| - pos, 8
    {
      hide TypeArgs, PushIf;
      children := start;
      if CurrentKind().Lt? {
        var args := ParseGenericArgs();
        children := children + [Sub(args)];
      } else {
        children := BumpIf(children, Ident);
      }
    }

    method ParseGenericArgs() returns (node: Node)
      requires Valid()
      modifies `pos
      ensures Valid() && TypeArgs(tokens, conditionExprDepth, old(pos)) == Parsed(node, pos)
      decreases |tokens| - pos, 7
    {
      hide TypeArgList, Eat, PushIf, SkipTrivia;
      var children := ExtendTrivia([]);
      var open := CurrentKind();
      if open.Lt? || open.OpenBracket? {
        var close := if open.Lt? then Gt else CloseBracket;
        children := PushBump(children);
        children := ParseTypeArgList(children, close);
        children := BumpIf(children, close);
      }
      node := Node(GenericArgs, children);
    }

    method ParseTypeArgList(start: seq<Element>, close: TokenKind) returns (children: seq<Element>)
      requires Valid()
      modifies `pos
      ensures Valid()
      ensures TypeArgList(tokens, conditionExprDepth, Partial(start, old(pos)), close) == Partial(children, pos)
      decreases |tokens| - pos, 6
    {
      hide Expr, Eat, PushIf, SkipTrivia, Ahead;
      children := start;
      while CurrentKind() != close && !CurrentKind().Eof?
        invariant Valid() && old(pos) <= pos
        invariant TypeArgList(tokens, conditionExprDepth, Partial(children, pos), close)
                  == TypeArgList(tokens, conditionExprDepth, Partial(start, old(pos)), close)
        decreases |tokens| - pos
      {
        ghost var before := pos;
        var arg := ParseExpr(Comparison);
        ExprForward(tokens, conditionExprDepth, before, Comparison);
        children := children + [Sub(Node(GenericArg, [Sub(arg)]))];
        children := ExtendTrivia(children);
        children := BumpIf(children, Comma);
        children := ExtendTrivia(children);
        // `ensure_progress(start)`: an argument was read, so the cursor has moved.
        assert pos > before;
      }
    }

    method ParseStructFields(start: seq<Element>) returns (children: seq<Element>)
      requires Valid()
      modifies `pos
      ensures Valid() && StructFields(tokens, conditionExprDepth, Partial(start, old(pos))) == Partial(children, pos)
      decreases |tokens| - pos, 6
    {
      hide Expr, Eat, FieldValue, AfterField, SkipTrivia, Ahead;
      children := start;
      while !CurrentKind().CloseBrace? && !CurrentKind().Eof?
        invariant Valid() && old(pos) <= pos
        invariant StructFields(tokens, conditionExprDepth, Partial(children, pos))
                  == StructFields(tokens, conditionExprDepth, Partial(start, old(pos)))
        decreases |tokens| - pos
      {
        ghost var before := pos;
        var name := ParseExpr(NoPrec);
        ExprForward(tokens, conditionExprDepth, before, NoPrec);
        children := ExtendTrivia(children + [Sub(name)]);
        children := ParseFieldValue(children);
        children := ParseFieldEnd(children);
      }
    }

    method ParseFieldValue(start: seq<Element>) returns (children: seq<Element>)
      requires Valid()
      modifies `pos
      ensures Valid() && FieldValue(tokens, conditionExprDepth, Partial(start, old(pos))) == Partial(children, pos)
      decreases |tokens| - pos, 5
    {
      hide Expr, Eat, SkipTrivia, Ahead;
      children := start;
      if CurrentKind().Colon? {
        children := PushBump(children);
        children := ExtendTrivia(children);
        var value := ParseExpr(NoPrec);
        children := children + [Sub(value)];
      }
    }

    method ParseFieldEnd(start: seq<Element>) returns (children: seq<Element>)
      requires Valid()
      modifies `pos
      ensures Valid() && AfterField(tokens, Partial(start, old(pos))) == Partial(children, pos)
    {
      hide Eat, PushIf, SkipTrivia;
      children := ExtendTrivia(start);
      children := BumpIf(children, Comma);
      children := ExtendTrivia(children);
    }

    method ParseOptionalTail(start: seq<Element>) returns (children: seq<Element>)
      requires Valid()
      modifies `pos
      ensures Valid() && OptionalTail(tokens, Partial(start, old(pos))) == Partial(children, pos)
    {
      hide Eat, PushIf, SkipTrivia;
      children := start;
      if CurrentKind().Dot? {
        children := PushBump(children);
        children := ExtendTrivia(children);
        children := BumpIf(children, Ident);
      }
    }

    /** `parse_postfix_bang`, its `!` being consumed. */
    method ParseBangTail(start: seq<Element>) returns (children: seq<Element>)
      requires Valid()
      modifies `pos
      ensures Valid() && BangTail(tokens, conditionExprDepth, Partial(start, old(pos))) == Partial(children, pos)
      decreases |tokens| - pos, 5
    {
      hide Expr, SkipTrivia, Ahead;
      children := start;
      var offset := CountTrivia(0);
      if KindAt(tokens, pos + offset).Or? {
        children := ExtendTrivia(children);
        children := PushBump(children);
        var context := ParseExpr(NoPrec);
        children := children + [Sub(context)];
      }
    }

    /** `parse_primary`. */
    method ParsePrimary() returns (node: Node)
      requires Valid()
      modifies `pos
      ensures Valid() && Primary(tokens, conditionExprDepth, old(pos)) == Parsed(node, pos)
      decreases |tokens| - pos, 1
    {
      hide Expr, Eat, MacroForm, BindForm, AtomKind, NameKind, PrefixKind, Ahead, SkipTrivia, PushIf;
      var children := ExtendTrivia([]);
      var kind := CurrentKind();
      MovesPast(kind);
      children := PushBump(children);
      if AtomKind(kind) {
        node := Node(LiteralNode, children);
      } else if NameKind(kind) {
        var isMacro := MacroIsNext();
        if isMacro {
          node := ParseMacroForm(children);
        } else {
          node := Node(IdentNode, children);
        }
      } else if kind.OpenParen? {
        var inner := ParseExpr(NoPrec);
        children := ExtendTrivia(children + [Sub(inner)]);
        children := BumpIf(children, CloseParen);
        node := Node(ParenExpr, children);
      } else if PrefixKind(kind) {
        var operand := ParseExpr(Prefix);
        node := Node(UnaryExpr, children + [Sub(operand)]);
      } else if kind.Bind? {
        node := ParseBindExpr(children);
      } else {
        node := Node(ErrorNode, children);
      }
    }

    method MacroIsNext() returns (next: bool)
      requires Valid()
      ensures next == MacroFollows(tokens, pos)
    {
      hide SkipTrivia;
      var offset := CountTrivia(0);
      next := false;
      if KindAt(tokens, pos + offset).Bang? {
        var after := CountTrivia(offset + 1);
        var open := KindAt(tokens, pos + after);
        next := open.OpenParen? || open.OpenBracket?;
      }
    }

    /** A macro invocation, its name being consumed. */
    method ParseMacroForm(start: seq<Element>) returns (node: Node)
      requires Valid() && MacroFollows(tokens, pos)
      modifies `pos
      ensures Valid() && MacroForm(tokens, conditionExprDepth, Partial(start, old(pos))) == Parsed(node, pos)
      decreases |tokens| - pos, 8
    {
      hide MacroArgs, MacroFollows, PushIf, SkipTrivia, Eat, Push;
      var children := ExtendTrivia(start);
      children := PushBump(children);
      children := ExtendTrivia(children);
      var close := if CurrentKind().OpenParen? then CloseParen else CloseBracket;
      children := PushBump(children);
      children := ExtendTrivia(children);
      children := ParseMacroArgs(children, close);
      children := BumpIf(children, close);
      node := Node(MacroCall, children);
    }

    method ParseMacroArgs(start: seq<Element>, close: TokenKind) returns (children: seq<Element>)
      requires Valid()
      modifies `pos
      ensures Valid()
      ensures MacroArgs(tokens, conditionExprDepth, Partial(start, old(pos)), close) == Partial(children, pos)
      decreases |tokens| - pos, 6
    {
      hide Expr, Eat, AfterArg, SkipTrivia, Ahead;
      children := start;
      while CurrentKind() != close && !CurrentKind().Eof?
        invariant Valid() && old(pos) <= pos
        invariant MacroArgs(tokens, conditionExprDepth, Partial(children, pos), close)
                  == MacroArgs(tokens, conditionExprDepth, Partial(start, old(pos)), close)
        decreases |tokens| - pos
      {
        ghost var before := pos;
        var arg := ExtendTrivia([]);
        ghost var from := pos;
        var value := ParseExpr(NoPrec);
        ExprForward(tokens, conditionExprDepth, from, NoPrec);
        assert pos > before;
        children := children + [Sub(Node(ArgNode, arg + [Sub(value)]))];
        children := ParseComma(children);
      }
    }

    /** `parse_bind_expr`, the keyword being consumed. */
    method ParseBindExpr(start: seq<Element>) returns (node: Node)
      requires Valid()
      modifies `pos
      ensures Valid() && BindForm(tokens, conditionExprDepth, Partial(start, old(pos))) == Parsed(node, pos)
      decreases |tokens| - pos, 5
    {
      hide Expr, Eat, PushIf, BindParams, Push, SkipTrivia, Ahead;
      var children := ExtendTrivia(start);
      if CurrentKind().Bar? {
        children := PushBump(children);
        children := ParseBindParams(children);
        children := BumpIf(children, Bar);
      }
      children := ExtendTrivia(children);
      var lambda := ParseExpr(NoPrec);
      node := Node(BindExpr, children + [Sub(lambda)]);
    }

    method ParseBindParams(start: seq<Element>) returns (children: seq<Element>)
      requires Valid()
      modifies `pos
      ensures Valid() && BindParams(tokens, Partial(start, old(pos))) == Partial(children, pos)
    {
      children := start;
      while !CurrentKind().Bar? && !CurrentKind().Eof?
        invariant Valid() && old(pos) <= pos
        invariant BindParams(tokens, Partial(children, pos)) == BindParams(tokens, Partial(start, old(pos)))
        decreases |tokens| - pos
      {
        children := PushBump(children);
      }
    }
  }

  lemma ExprStarts(ts: seq<Token>, depth: nat, p: nat, min: Precedence)
    requires p <= |ts|
    ensures Expr(ts, depth, p, min) == ExprLoop(ts, depth, Primary(ts, depth, p), min)
  {
    hide ExprLoop, Primary, Ahead;
  }

  // One unfolding of the loop.
  lemma LoopTurn(ts: seq<Token>, depth: nat, lhs: Parsed, min: Precedence)
    requires lhs.pos <= |ts|
    ensures var q := SkipTrivia(ts, lhs.pos);
            var kind := KindAt(ts, q);
            if (depth > 0 && kind.OpenBrace?) || Rank(FromKind(kind)) <= Rank(min) || FromKind(kind).NoPrec? then
              ExprLoop(ts, depth, lhs, min) == lhs
            else
              q < |ts| && ExprLoop(ts, depth, lhs, min) == ExprLoop(ts, depth, PostfixForm(ts, depth, lhs.node, q), min)
  {
    hide PostfixForm, FromKind, Rank, SkipTrivia;
    EofHasNoPrecedence();
  }

  lemma EofHasNoPrecedence()
    ensures FromKind(Eof).NoPrec?
  {
  }

  // At an operator there is no trivia to skip, and it is not the end of input.
  lemma OperatorHere(ts: seq<Token>, p: nat)
    requires p < |ts| && !FromKind(ts[p].kind).NoPrec?
    ensures !IsTrivia(ts[p].kind) && !ts[p].kind.Eof? && SkipTrivia(ts, p) == p
  {
  }

  lemma MovesPast(kind: TokenKind)
    ensures NameKind(kind) || PrefixKind(kind) || kind.OpenParen? || kind.Bind? ==> !kind.Eof?
  {
  }

  lemma PrimaryForward(ts: seq<Token>, depth: nat, p: nat)
    requires p <= |ts|
    ensures p <= Primary(ts, depth, p).pos <= |ts|
  {
    hide Primary;
  }

  lemma ExprForward(ts: seq<Token>, depth: nat, p: nat, min: Precedence)
    requires p <= |ts|
    ensures p <= Expr(ts, depth, p, min).pos <= |ts|
    ensures !KindAt(ts, p).Eof? ==> p < Expr(ts, depth, p, min).pos
  {
    hide Expr;
  }
}
