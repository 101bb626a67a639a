/**
 The expression grammar as functions on a token sequence and a position: precedence climbing, primaries and
 postfix forms.  Forms that contain blocks are not described; see `BlockFree`.
 */
module ParseSpec {
  import opened Tokens

  datatype Precedence =
    | NoPrec | Pipeline | Coalesce | LogicalOr | LogicalAnd | Equality | Comparison | BitOr | BitXor | BitAnd
    | Shift | Sum | Product | Prefix | Cast | TypeSuffix | Postfix

  function Rank(p: Precedence): nat {
    match p
    case NoPrec => 0
    case Pipeline => 1
    case Coalesce => 2
    case LogicalOr => 3
    case LogicalAnd => 4
    case Equality => 5
    case Comparison => 6
    case BitOr => 7
    case BitXor => 8
    case BitAnd => 9
    case Shift => 10
    case Sum => 11
    case Product => 12
    case Prefix => 13
    case Cast => 14
    case TypeSuffix => 15
    case Postfix => 16
  }

  /** `Precedence::from_kind`. */
  function FromKind(kind: TokenKind): Precedence {
    match kind
    case Pipe => Pipeline
    case QuestionQuestion => Coalesce
    case Or => LogicalOr
    case And => LogicalAnd
    case EqEq => Equality
    case NotEq => Equality
    case Is => Equality
    case Lt => Comparison
    case Gt => Comparison
    case Le => Comparison
    case Ge => Comparison
    case Caret => BitXor
    case Ampersand => BitAnd
    case Plus => Sum
    case Minus => Sum
    case Star => Product
    case Slash => Product
    case Percent => Product
    case As => Cast
    case Bang => Postfix
    case Dot => Postfix
    case OpenParen => Postfix
    case OpenBracket => Postfix
    case DoubleColon => Postfix
    case OpenBrace => Postfix
    case Question => Postfix
    case _ => NoPrec
  }

  // ---- Concrete syntax ----

  datatype NodeKind =
    | LiteralNode | IdentNode | BinaryExpr | UnaryExpr | CallExpr | ParenExpr | PathExpr | StructLiteral
    | MemberExpr | CascadeExpr | MacroCall | ArgNode | GenericArg | GenericArgs | BindExpr | ErrorNode

  datatype Element = Sub(node: Node) | Leaf(token: Token)

  datatype Node = Node(kind: NodeKind, children: seq<Element>)

  // A finished node, or a list of children under way, with the position after it.
  datatype Parsed = Parsed(node: Node, pos: nat)

  datatype Partial = Partial(elems: seq<Element>, pos: nat)

  const EOF_TOKEN := Token(Eof, Span(0, 0, 0))

  predicate IsTrivia(k: TokenKind) {
    k.Whitespace? || k.Comment?
  }

  // Keywords that start a form with a block; `bind` does not.
  predicate StartsBlock(k: TokenKind) {
    k.Given? || k.Branch? || k.Loop? || k.While? || k.Each? || k.Zone? || k.Seek? || k.Raw?
  }

  ghost predicate BlockFree(ts: seq<Token>) {
    forall i :: 0 <= i < |ts| ==> !StartsBlock(ts[i].kind)
  }

  // ---- Cursor ----

  /** `current_kind`, at `p`. */
  function KindAt(ts: seq<Token>, p: nat): TokenKind {
    if p < |ts| then ts[p].kind else Eof
  }

  function TokenAt(ts: seq<Token>, p: nat): Token {
    if p < |ts| then ts[p] else EOF_TOKEN
  }

  /** `bump`: an end-of-file token is returned but never passed. */
  function Past(ts: seq<Token>, p: nat): (q: nat)
    requires p <= |ts|
    ensures q == (if KindAt(ts, p).Eof? then p else p + 1) && q <= |ts|
  {
    if KindAt(ts, p).Eof? then p else p + 1
  }

  /** The first position from `p` on that is not trivia. */
  function SkipTrivia(ts: seq<Token>, p: nat): (q: nat)
    requires p <= |ts|
    ensures p <= q <= |ts| && !IsTrivia(KindAt(ts, q))
    ensures IsTrivia(KindAt(ts, p)) ==> p < q
    ensures !IsTrivia(KindAt(ts, p)) ==> p == q
    decreases |ts| - p
  {
    if IsTrivia(KindAt(ts, p)) then SkipTrivia(ts, p + 1) else p
  }

  function Leaves(ts: seq<Token>): seq<Element> {
    seq(|ts|, i requires 0 <= i < |ts| => Leaf(ts[i]))
  }

  /** `children.extend(self.eat_trivia())`. */
  function Eat(ts: seq<Token>, c: Partial): (r: Partial)
    requires c.pos <= |ts|
    ensures r.pos == SkipTrivia(ts, c.pos)
  {
    Partial(c.elems + Leaves(ts[c.pos..SkipTrivia(ts, c.pos)]), SkipTrivia(ts, c.pos))
  }

  /** `children.push(self.bump())`. */
  function Push(ts: seq<Token>, c: Partial): (r: Partial)
    requires c.pos <= |ts|
    ensures r.pos == Past(ts, c.pos)
  {
    Partial(c.elems + [Leaf(TokenAt(ts, c.pos))], Past(ts, c.pos))
  }

  function PushIf(ts: seq<Token>, c: Partial, kind: TokenKind): (r: Partial)
    requires c.pos <= |ts|
    ensures c.pos <= r.pos <= |ts|
  {
    if KindAt(ts, c.pos) == kind then Push(ts, c) else c
  }

  function Attach(c: Partial, p: Parsed): Partial {
    Partial(c.elems + [Sub(p.node)], p.pos)
  }

  function Close(kind: NodeKind, c: Partial): Parsed {
    Parsed(Node(kind, c.elems), c.pos)
  }

  predicate NamingKind(k: TokenKind) {
    match k
    case Ident => true
    case Next => true
    case Loop => true
    case Each => true
    case While => true
    case Break => true
    case Give => true
    case Type => true
    case Forge => true
    case Sole => true
    case Pure => true
    case Open => true
    case Hidden => true
    case Draw => true
    case Seek => true
    case Catch => true
    case Flow => true
    case Tide => true
    case Zone => true
    case Bridge => true
    case Raw => true
    case Echo => true
    case Ward => true
    case Scroll => true
    case Dual => true
    case Alias => true
    case Pkg => true
    case Comptime => true
    case Static => true
    case Extern => true
    case Bind => true
    case _ => false
  }

  predicate AtomKind(k: TokenKind) {
    k.Int? || k.Float? || k.Str? || k.InterpolatedStr? || k.True? || k.False? || k.Nil?
  }

  predicate NameKind(k: TokenKind) {
    k.Ident? || k.SelfKw? || k.SelfType?
  }

  predicate PrefixKind(k: TokenKind) {
    k.Minus? || k.Not? || k.Tilde? || k.Star? || k.Tide? || k.Ampersand? || k.AmpersandTilde?
  }

  // ---- Expressions ----
  //
  // `depth` is `condition_expr_depth`, which these forms read and never change.

  // What every parse from `p` gives: it goes forward, past leading trivia and one more token unless at the end.
  predicate Ahead(ts: seq<Token>, p: nat, q: nat)
    requires p <= |ts|
  {
    q <= |ts| && (if KindAt(ts, SkipTrivia(ts, p)).Eof? then SkipTrivia(ts, p) <= q else SkipTrivia(ts, p) < q)
  }

  /** `parse_expr`. */
  function Expr(ts: seq<Token>, depth: nat, p: nat, min: Precedence): (r: Parsed)
    requires p <= |ts|
    ensures Ahead(ts, p, r.pos)
    decreases |ts| - p, 4
  {
    ExprLoop(ts, depth, Primary(ts, depth, p), min)
  }

  function ExprLoop(ts: seq<Token>, depth: nat, lhs: Parsed, min: Precedence): (r: Parsed)
    requires lhs.pos <= |ts|
    ensures lhs.pos <= r.pos <= |ts|
    decreases |ts| - lhs.pos, 3
  {
    var q := SkipTrivia(ts, lhs.pos);
    var kind := KindAt(ts, q);
    var prec := FromKind(kind);
    if depth > 0 && kind.OpenBrace? then lhs
    else if Rank(prec) <= Rank(min) || prec == NoPrec then lhs
    else ExprLoop(ts, depth, PostfixForm(ts, depth, lhs.node, q), min)
  }

  /** The infix or postfix form whose operator is at `q`. */
  function PostfixForm(ts: seq<Token>, depth: nat, lhs: Node, q: nat): (r: Parsed)
    requires q < |ts| && FromKind(ts[q].kind) != NoPrec
    ensures q < r.pos <= |ts|
    decreases |ts| - q, 2
  {
    var c := Push(ts, Eat(ts, Partial([Sub(lhs)], q)));
    var kind := ts[q].kind;
    if kind.OpenParen? then Close(CallExpr, PushIf(ts, CallArgs(ts, depth, c), CloseParen))
    else if kind.DoubleColon? then Close(PathExpr, PathTail(ts, depth, Eat(ts, c)))
    else if kind.OpenBrace? then Close(StructLiteral, PushIf(ts, StructFields(ts, depth, c), CloseBrace))
    else if kind.Question? then Close(MemberExpr, OptionalTail(ts, Eat(ts, c)))
    else if kind.Dot? then Close(MemberExpr, PushIf(ts, Eat(ts, c), Ident))
    else if kind.Bang? then Close(CascadeExpr, BangTail(ts, depth, c))
    else Close(BinaryExpr, Attach(c, Expr(ts, depth, c.pos, FromKind(kind))))
  }

  function CallArgs(ts: seq<Token>, depth: nat, c: Partial): (r: Partial)
    requires c.pos <= |ts|
    ensures c.pos <= r.pos <= |ts|
    decreases |ts| - c.pos, 6
  {
    if KindAt(ts, c.pos).CloseParen? || KindAt(ts, c.pos).Eof? then c
    else
      var arg := CallArg(ts, depth, c.pos);
      CallArgs(ts, depth, AfterArg(ts, Attach(c, arg)))
  }

  // The comma, if any, and the trivia around it.
  function AfterArg(ts: seq<Token>, c: Partial): (r: Partial)
    requires c.pos <= |ts|
    ensures c.pos <= r.pos <= |ts|
  {
    var e := Eat(ts, c);
    if KindAt(ts, e.pos).Comma? then Eat(ts, Push(ts, e)) else e
  }

  /** A naming word followed by a colon. */
  predicate Labelled(ts: seq<Token>, p: nat)
    requires p <= |ts|
    ensures Labelled(ts, p) ==> p < |ts| && ts[p].kind != Eof
  {
    NamingKind(KindAt(ts, p)) && p < |ts| && KindAt(ts, SkipTrivia(ts, p + 1)).Colon?
  }

  function Label(ts: seq<Token>, a: Partial): (r: Partial)
    requires a.pos <= |ts| && Labelled(ts, a.pos)
    ensures a.pos < r.pos <= |ts|
  {
    Eat(ts, Push(ts, Eat(ts, Push(ts, a))))
  }

  function CallArg(ts: seq<Token>, depth: nat, p: nat): (r: Parsed)
    requires p < |ts| && KindAt(ts, p) != Eof
    ensures p < r.pos <= |ts|
    decreases |ts| - p, 5
  {
    hide Labelled, Label, SkipTrivia, NamingKind, Eat;
    var a := Eat(ts, Partial([], p));
    var b := if Labelled(ts, a.pos) then Label(ts, a) else a;
    Close(ArgNode, Attach(b, Expr(ts, depth, b.pos, NoPrec)))
  }

  function PathTail(ts: seq<Token>, depth: nat, c: Partial): (r: Partial)
    requires c.pos <= |ts|
    ensures c.pos <= r.pos <= |ts|
    decreases |ts| - c.pos, 8
  {
    if KindAt(ts, c.pos).Lt? then Attach(c, TypeArgs(ts, depth, c.pos)) else PushIf(ts, c, Ident)
  }

  /** `parse_generic_args`. */
  function TypeArgs(ts: seq<Token>, depth: nat, p: nat): (r: Parsed)
    requires p <= |ts|
    ensures p <= r.pos <= |ts|
    decreases |ts| - p, 7
  {
    var c := Eat(ts, Partial([], p));
    var open := KindAt(ts, c.pos);
    if open.Lt? || open.OpenBracket? then
      var close := if open.Lt? then Gt else CloseBracket;
      Close(GenericArgs, PushIf(ts, TypeArgList(ts, depth, Push(ts, c), close), close))
    else Close(GenericArgs, c)
  }

  function TypeArgList(ts: seq<Token>, depth: nat, c: Partial, close: TokenKind): (r: Partial)
    requires c.pos <= |ts|
    ensures c.pos <= r.pos <= |ts|
    decreases |ts| - c.pos, 6
  {
    if KindAt(ts, c.pos) == close || KindAt(ts, c.pos).Eof? then c
    else
      var arg := Expr(ts, depth, c.pos, Comparison);
      var e := Eat(ts, Partial(c.elems + [Sub(Node(GenericArg, [Sub(arg.node)]))], arg.pos));
      TypeArgList(ts, depth, Eat(ts, PushIf(ts, e, Comma)), close)
  }

  function StructFields(ts: seq<Token>, depth: nat, c: Partial): (r: Partial)
    requires c.pos <= |ts|
    ensures c.pos <= r.pos <= |ts|
    decreases |ts| - c.pos, 6
  {
    if KindAt(ts, c.pos).CloseBrace? || KindAt(ts, c.pos).Eof? then c
    else
      var name := Eat(ts, Attach(c, Expr(ts, depth, c.pos, NoPrec)));
      StructFields(ts, depth, AfterField(ts, FieldValue(ts, depth, name)))
  }

  function FieldValue(ts: seq<Token>, depth: nat, name: Partial): (r: Partial)
    requires name.pos <= |ts|
    ensures name.pos <= r.pos <= |ts|
    decreases |ts| - name.pos, 5
  {
    if KindAt(ts, name.pos).Colon? then
      var c := Eat(ts, Push(ts, name));
      Attach(c, Expr(ts, depth, c.pos, NoPrec))
    else name
  }

  function AfterField(ts: seq<Token>, c: Partial): (r: Partial)
    requires c.pos <= |ts|
    ensures c.pos <= r.pos <= |ts|
  {
    Eat(ts, PushIf(ts, Eat(ts, c), Comma))
  }

  function OptionalTail(ts: seq<Token>, c: Partial): (r: Partial)
    requires c.pos <= |ts|
    ensures c.pos <= r.pos <= |ts|
  {
    if KindAt(ts, c.pos).Dot? then PushIf(ts, Eat(ts, Push(ts, c)), Ident) else c
  }

  /** After `!`: trivia is kept only when `or` and a context expression follow. */
  function BangTail(ts: seq<Token>, depth: nat, c: Partial): (r: Partial)
    requires c.pos <= |ts|
    ensures c.pos <= r.pos <= |ts|
    decreases |ts| - c.pos, 5
  {
    if KindAt(ts, SkipTrivia(ts, c.pos)).Or? then
      var o := Push(ts, Eat(ts, c));
      Attach(o, Expr(ts, depth, o.pos, NoPrec))
    else c
  }

  /** `parse_primary`. */
  function Primary(ts: seq<Token>, depth: nat, p: nat): (r: Parsed)
    requires p <= |ts|
    ensures Ahead(ts, p, r.pos)
    decreases |ts| - p, 1
  {
    var c := Eat(ts, Partial([], p));
    var kind := KindAt(ts, c.pos);
    var d := Push(ts, c);
    if AtomKind(kind) then Close(LiteralNode, d)
    else if NameKind(kind) then
      if MacroFollows(ts, d.pos) then MacroForm(ts, depth, d) else Close(IdentNode, d)
    else if kind.OpenParen? then
      Close(ParenExpr, PushIf(ts, Eat(ts, Attach(d, Expr(ts, depth, d.pos, NoPrec))), CloseParen))
    else if PrefixKind(kind) then Close(UnaryExpr, Attach(d, Expr(ts, depth, d.pos, Prefix)))
    else if kind.Bind? then BindForm(ts, depth, d)
    else Close(ErrorNode, d)
  }

  /** `!` and then `(` or `[`, with trivia allowed before each. */
  predicate MacroFollows(ts: seq<Token>, p: nat)
    requires p <= |ts|
  {
    var bang := SkipTrivia(ts, p);
    KindAt(ts, bang).Bang?
    && var open := KindAt(ts, SkipTrivia(ts, bang + 1));
       open.OpenParen? || open.OpenBracket?
  }

  function MacroForm(ts: seq<Token>, depth: nat, d: Partial): (r: Parsed)
    requires d.pos <= |ts| && MacroFollows(ts, d.pos)
    ensures d.pos < r.pos <= |ts|
    decreases |ts| - d.pos, 8
  {
    var c := Eat(ts, Push(ts, Eat(ts, d)));
    var close := if KindAt(ts, c.pos).OpenParen? then CloseParen else CloseBracket;
    Close(MacroCall, PushIf(ts, MacroArgs(ts, depth, Eat(ts, Push(ts, c)), close), close))
  }

  function MacroArgs(ts: seq<Token>, depth: nat, c: Partial, close: TokenKind): (r: Partial)
    requires c.pos <= |ts|
    ensures c.pos <= r.pos <= |ts|
    decreases |ts| - c.pos, 6
  {
    if KindAt(ts, c.pos) == close || KindAt(ts, c.pos).Eof? then c
    else
      var a := Eat(ts, Partial([], c.pos));
      var arg := Close(ArgNode, Attach(a, Expr(ts, depth, a.pos, NoPrec)));
      MacroArgs(ts, depth, AfterArg(ts, Attach(c, arg)), close)
  }

  /** `parse_bind_expr`, the keyword being consumed. */
  function BindForm(ts: seq<Token>, depth: nat, d: Partial): (r: Parsed)
    requires d.pos <= |ts|
    ensures d.pos <= r.pos <= |ts|
    decreases |ts| - d.pos, 5
  {
    var c := Eat(ts, d);
    var e := Eat(ts, if KindAt(ts, c.pos).Bar? then PushIf(ts, BindParams(ts, Push(ts, c)), Bar) else c);
    Close(BindExpr, Attach(e, Expr(ts, depth, e.pos, NoPrec)))
  }

  function BindParams(ts: seq<Token>, c: Partial): (r: Partial)
    requires c.pos <= |ts|
    ensures c.pos <= r.pos <= |ts|
    decreases |ts| - c.pos
  {
    if KindAt(ts, c.pos).Bar? || KindAt(ts, c.pos).Eof? then c else BindParams(ts, Push(ts, c))
  }
}
