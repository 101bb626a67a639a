/**
 The token kinds of expressions, written out: what each kind begins, which operator form it continues, how tightly,
 and which words may name an argument.
 */
module ParseKinds {
  import opened Tokens
  import opened LexWords
  import opened ParseSpec
  import opened ParseTrees

  // ---- What begins an expression ----

  datatype Beginning = ALiteral | AName | AGroup | AnOperator | AClosure | ABlockForm | NoBeginning

  function Begins(k: TokenKind): Beginning {
    match k
    case Int(_) => ALiteral
    case Float => ALiteral
    case Str(_) => ALiteral
    case InterpolatedStr(_) => ALiteral
    case True | False | Nil => ALiteral
    case Ident | SelfKw | SelfType => AName
    case OpenParen => AGroup
    case Minus | Not | Tilde | Star | Tide | Ampersand | AmpersandTilde => AnOperator
    case Bind => AClosure
    case Given | Branch | Loop | While | Each | Zone | Seek | Raw => ABlockForm
    case _ => NoBeginning
  }

  lemma {:induction false} LiteralKinds(k: TokenKind)
    ensures AtomKind(k) <==> Begins(k).ALiteral?
  {
  }

  lemma {:induction false} NameKinds(k: TokenKind)
    ensures NameKind(k) <==> Begins(k).AName?
  {
  }

  lemma {:induction false} OperatorKinds(k: TokenKind)
    ensures PrefixKind(k) <==> Begins(k).AnOperator?
  {
  }

  /** What trees are written in: the literals, the names, the prefix operators and the infix operators. */
  lemma {:induction false} TreeKinds(k: TokenKind)
    ensures AtomKind(k) <==> Begins(k).ALiteral?
    ensures NameKind(k) <==> Begins(k).AName?
    ensures PrefixKind(k) <==> Begins(k).AnOperator?
    ensures InfixKind(k) <==> Continues(k).0.AnInfix? && Continues(k).1 <= 12
  {
    hide AtomKind, NameKind, PrefixKind, InfixKind, Begins, Continues;
    LiteralKinds(k);
    NameKinds(k);
    OperatorKinds(k);
    ContinuingRank(k);
  }

  lemma {:induction false} BlockKinds(k: TokenKind)
    ensures StartsBlock(k) <==> Begins(k).ABlockForm?
  {
  }

  lemma {:induction false} BeginningTokens(k: TokenKind)
    ensures k.OpenParen? <==> Begins(k).AGroup?
    ensures k.Bind? <==> Begins(k).AClosure?
    ensures k.Eof? ==> Begins(k).NoBeginning?
    ensures IsTrivia(k) ==> Begins(k).NoBeginning?
  {
  }

  /**
   A primary, by the kind of its first token: a prefix operator with the operand read after it, a literal or name of
   that one token unless it calls a macro, a group, a closure; and of any other kind an error holding the token.
   */
  lemma {:induction false} PrimaryByKind(ts: seq<Token>, depth: nat, p: nat)
    requires p <= |ts|
    ensures var q := SkipTrivia(ts, p);
      var lead := Leaves(ts[p..q]);
      var r := Primary(ts, depth, p);
      match Begins(KindAt(ts, q))
      case ALiteral => r == Parsed(Node(LiteralNode, lead + [Leaf(ts[q])]), q + 1)
      case AName =>
        if MacroFollows(ts, q + 1) then r.node.kind == MacroCall
        else r == Parsed(Node(IdentNode, lead + [Leaf(ts[q])]), q + 1)
      case AnOperator =>
        var x := Expr(ts, depth, q + 1, Prefix);
        r == Parsed(Node(UnaryExpr, lead + [Leaf(ts[q]), Sub(x.node)]), x.pos)
      case AGroup => r.node.kind == ParenExpr
      case AClosure => r.node.kind == BindExpr
      case ABlockForm => true
      case NoBeginning => r == Parsed(Node(ErrorNode, lead + [Leaf(TokenAt(ts, q))]), Past(ts, q))
  {
    hide Begins, AtomKind, NameKind, PrefixKind, SkipTrivia, Expr, MacroForm, BindForm, MacroFollows, Ahead, FromKind;
    var q := SkipTrivia(ts, p);
    LiteralKinds(KindAt(ts, q));
    NameKinds(KindAt(ts, q));
    OperatorKinds(KindAt(ts, q));
    BeginningTokens(KindAt(ts, q));
    assert Eat(ts, Partial([], p)) == Partial(Leaves(ts[p..q]), q) by {
      assert [] + Leaves(ts[p..q]) == Leaves(ts[p..q]);
    }
    MacroKind(ts, depth, q);
  }

  lemma {:induction false} MacroKind(ts: seq<Token>, depth: nat, q: nat)
    requires q <= |ts|
    ensures forall elems, n: nat :: n <= |ts| && MacroFollows(ts, n) ==>
              MacroForm(ts, depth, Partial(elems, n)).node.kind == MacroCall
    ensures forall elems, n: nat :: n <= |ts| ==> BindForm(ts, depth, Partial(elems, n)).node.kind == BindExpr
  {
    hide SkipTrivia, Expr, MacroFollows, MacroArgs, BindParams, Eat, Push, PushIf, Ahead;
  }

  // ---- What continues one ----

  datatype Form = AnInfix | ACall | APath | AStructure | AMember | AMark | NoForm

  /** The form that an operator of this kind makes of the expression before it, and how tightly it binds. */
  function Continues(k: TokenKind): (Form, nat) {
    match k
    case Pipe => (AnInfix, 1)
    case QuestionQuestion => (AnInfix, 2)
    case Or => (AnInfix, 3)
    case And => (AnInfix, 4)
    case EqEq | NotEq | Is => (AnInfix, 5)
    case Lt | Gt | Le | Ge => (AnInfix, 6)
    case Caret => (AnInfix, 8)
    case Ampersand => (AnInfix, 9)
    case Plus | Minus => (AnInfix, 11)
    case Star | Slash | Percent => (AnInfix, 12)
    case As => (AnInfix, 14)
    case OpenBracket => (AnInfix, 16)
    case OpenParen => (ACall, 16)
    case DoubleColon => (APath, 16)
    case OpenBrace => (AStructure, 16)
    case Question | Dot => (AMember, 16)
    case Bang => (AMark, 16)
    case _ => (NoForm, 0)
  }

  lemma {:induction false} ContinuingLevel(k: TokenKind)
    ensures Rank(FromKind(k)) == Continues(k).1
  {
  }

  lemma {:induction false} ContinuingForm(k: TokenKind)
    ensures Continues(k).1 == 0 <==> Continues(k).0.NoForm?
  {
  }

  lemma {:induction false} RankOfNone(p: Precedence)
    ensures p.NoPrec? <==> Rank(p) == 0
  {
  }

  lemma {:induction false} ContinuingInfix(k: TokenKind)
    ensures 1 <= Continues(k).1 <= 12 ==> Continues(k).0.AnInfix?
  {
  }

  lemma {:induction false} ContinuingRank(k: TokenKind)
    ensures Rank(FromKind(k)) == Continues(k).1
    ensures FromKind(k).NoPrec? <==> Continues(k).0.NoForm?
    ensures InfixKind(k) <==> Continues(k).0.AnInfix? && Continues(k).1 <= 12
  {
    hide FromKind, Continues, Rank;
    ContinuingLevel(k);
    ContinuingForm(k);
    ContinuingInfix(k);
    RankOfNone(FromKind(k));
    EndsOfInfix();
  }

  lemma {:induction false} EndsOfInfix()
    ensures Rank(Pipeline) == 1 && Rank(Product) == 12
  {
  }

  lemma {:induction false} ContinuingKinds(k: TokenKind)
    ensures match Continues(k).0
      case ACall => k.OpenParen?
      case APath => k.DoubleColon?
      case AStructure => k.OpenBrace?
      case AMember => k.Question? || k.Dot?
      case AMark => k.Bang?
      case _ => !k.OpenParen? && !k.DoubleColon? && !k.OpenBrace? && !k.Question? && !k.Dot? && !k.Bang?
    ensures k.Eof? ==> Continues(k).0.NoForm?
  {
  }

  function NodeOf(form: Form): NodeKind
    requires !form.NoForm?
  {
    match form
    case AnInfix => BinaryExpr
    case ACall => CallExpr
    case APath => PathExpr
    case AStructure => StructLiteral
    case AMember => MemberExpr
    case AMark => CascadeExpr
  }

  /**
   Behind an expression the next operator is taken exactly if it binds tighter than `min`, save that where a condition
   is read a brace opens its block; what is taken becomes a node of the operator's form.
   */
  lemma {:induction false} LoopByKind(ts: seq<Token>, depth: nat, lhs: Parsed, min: Precedence)
    requires lhs.pos <= |ts|
    ensures var q := SkipTrivia(ts, lhs.pos);
      var (form, level) := Continues(KindAt(ts, q));
      if level > Rank(min) && !(depth > 0 && form.AStructure?) then
        && !form.NoForm? && q < |ts| && ExprLoop(ts, depth, lhs, min)
                                        == ExprLoop(ts, depth, PostfixForm(ts, depth, lhs.node, q), min)
        && PostfixForm(ts, depth, lhs.node, q).node.kind == NodeOf(form)
      else ExprLoop(ts, depth, lhs, min) == lhs
  {
    var q := SkipTrivia(ts, lhs.pos);
    hide Continues, FromKind, PostfixForm, SkipTrivia, Rank, NodeOf;
    ContinuingRank(KindAt(ts, q));
    ContinuingKinds(KindAt(ts, q));
    RankOfNone(FromKind(KindAt(ts, q)));
    if q < |ts| && !FromKind(ts[q].kind).NoPrec? {
      FormByKind(ts, depth, lhs.node, q);
    }
  }

  lemma {:induction false} FormByKind(ts: seq<Token>, depth: nat, lhs: Node, q: nat)
    requires q < |ts| && FromKind(ts[q].kind) != NoPrec
    ensures var form := Continues(ts[q].kind).0;
      !form.NoForm? && PostfixForm(ts, depth, lhs, q).node.kind == NodeOf(form)
  {
    hide Continues, FromKind, SkipTrivia, Expr, Ahead, CallArgs, PathTail, StructFields, OptionalTail, BangTail, PushIf;
    ContinuingRank(ts[q].kind);
    ContinuingKinds(ts[q].kind);
  }

  /** An infix operator takes the expression before it and, read above the operator's own level, the one after it. */
  lemma {:induction false} InfixByKind(ts: seq<Token>, depth: nat, lhs: Node, q: nat)
    requires q < |ts| && Continues(ts[q].kind).0.AnInfix?
    ensures FromKind(ts[q].kind) != NoPrec && Rank(FromKind(ts[q].kind)) == Continues(ts[q].kind).1
    ensures var n := Expr(ts, depth, q + 1, FromKind(ts[q].kind));
      PostfixForm(ts, depth, lhs, q) == Parsed(Node(BinaryExpr, [Sub(lhs), Leaf(ts[q]), Sub(n.node)]), n.pos)
  {
    hide Continues, FromKind, Expr, Ahead, CallArgs, PathTail, StructFields, OptionalTail, BangTail, PushIf;
    ContinuingRank(ts[q].kind);
    ContinuingKinds(ts[q].kind);
    OperatorIsPlain(ts[q].kind);
    EatNone(ts, Partial([Sub(lhs)], q));
    assert [Sub(lhs)] + [Leaf(ts[q])] == [Sub(lhs), Leaf(ts[q])];
    assert [Sub(lhs), Leaf(ts[q])] + [Sub(Expr(ts, depth, q + 1, FromKind(ts[q].kind)).node)]
      == [Sub(lhs), Leaf(ts[q]), Sub(Expr(ts, depth, q + 1, FromKind(ts[q].kind)).node)];
  }

  lemma {:induction false} OperatorIsPlain(k: TokenKind)
    requires FromKind(k) != NoPrec
    ensures !IsTrivia(k) && !k.Eof?
  {
  }

  // ---- Words that name arguments ----

  // The keywords that are not also names.
  predicate Reserved(k: TokenKind) {
    match k
    case Shape | Weave | Macro | Branch | Given | Else | Let | SelfKw | SelfType | True | False | Nil | As | In |
      Of | Is | Not | And | Or | Impl | For => true
    case _ => false
  }

  lemma {:induction false} FirstNaming(k: TokenKind)
    requires First(k)
    ensures NamingKind(k) <==> !Reserved(k)
  {
  }

  lemma {:induction false} SecondNaming(k: TokenKind)
    requires Second(k)
    ensures NamingKind(k) <==> !Reserved(k)
  {
  }

  lemma {:induction false} ThirdNaming(k: TokenKind)
    requires Third(k)
    ensures NamingKind(k) <==> !Reserved(k)
  {
  }

  lemma {:induction false} OthersNaming(k: TokenKind)
    requires NamingKind(k)
    ensures k.Ident? || Keyword(k)
  {
  }

  lemma {:induction false} NamingWords(k: TokenKind)
    ensures NamingKind(k) <==> k.Ident? || (Keyword(k) && !Reserved(k))
  {
    hide NamingKind, Reserved, First, Second, Third;
    if First(k) {
      FirstNaming(k);
    } else if Second(k) {
      SecondNaming(k);
    } else if Third(k) {
      ThirdNaming(k);
    } else if NamingKind(k) {
      OthersNaming(k);
    }
    IdentNames();
  }

  lemma {:induction false} IdentNames()
    ensures NamingKind(Ident) && !Keyword(Ident)
  {
  }

  /** A call's argument is named exactly if it begins with an identifier or unreserved keyword and a colon. */
  lemma {:induction false} ArgumentLabel(ts: seq<Token>, depth: nat, p: nat)
    requires p + 1 < |ts| && !IsTrivia(ts[p].kind) && !ts[p].kind.Eof? && ts[p + 1].kind.Colon?
    ensures var k := ts[p].kind;
      var n := CallArg(ts, depth, p).node;
      if k.Ident? || (Keyword(k) && !Reserved(k)) then
        var q := SkipTrivia(ts, p + 2);
        n == Node(ArgNode, [Leaf(ts[p]), Leaf(ts[p + 1])] + Leaves(ts[p + 2..q])
                           + [Sub(Expr(ts, depth, q, NoPrec).node)])
      else n == Node(ArgNode, [Sub(Expr(ts, depth, p, NoPrec).node)])
  {
    hide NamingKind, Keyword, Reserved, Expr, Ahead, SkipTrivia;
    NamingWords(ts[p].kind);
    NoTrivia(ts, p);
    NoTrivia(ts, p + 1);
    EatNone(ts, Partial([], p));
    if NamingKind(ts[p].kind) {
      EatNone(ts, Partial([Leaf(ts[p])], p + 1));
      assert [Leaf(ts[p])] + [Leaf(ts[p + 1])] == [Leaf(ts[p]), Leaf(ts[p + 1])];
      assert [] + [Leaf(ts[p])] == [Leaf(ts[p])];
    }
  }

  lemma {:induction false} NoTrivia(ts: seq<Token>, p: nat)
    requires p < |ts| && !IsTrivia(ts[p].kind)
    ensures SkipTrivia(ts, p) == p
  {
  }
}
