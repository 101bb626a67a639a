/**
 The precedence table of the language overview against the parser's: which operators the parser orders as the
 table does, and how it reads the inputs on which the two differ.
 */
module ParseLevels {
  import opened Common
  import opened Tokens
  import opened ParseSpec
  import opened ParseFacts
  import opened ParseTrees

  // ---- The documented table ----

  // The rows of the table, with the row of level 5 and that of level 13 as the parser divides them.
  datatype Group =
    | Pipes | Ors | Ands | Equalities | Comparisons | Bars | Carets | Ampersands | Sums | Products | Casts | Marks
    | Accesses

  function GroupOf(k: TokenKind): Option<Group> {
    match k
    case Pipe => Some(Pipes)
    case Or => Some(Ors)
    case And => Some(Ands)
    case EqEq => Some(Equalities)
    case NotEq => Some(Equalities)
    case Is => Some(Equalities)
    case Lt => Some(Comparisons)
    case Gt => Some(Comparisons)
    case Le => Some(Comparisons)
    case Ge => Some(Comparisons)
    case Bar => Some(Bars)
    case Caret => Some(Carets)
    case Ampersand => Some(Ampersands)
    case Plus => Some(Sums)
    case Minus => Some(Sums)
    case Star => Some(Products)
    case Slash => Some(Products)
    case Percent => Some(Products)
    case As => Some(Casts)
    case Bang => Some(Marks)
    case OpenParen => Some(Accesses)
    case OpenBracket => Some(Accesses)
    case Dot => Some(Accesses)
    case DoubleColon => Some(Accesses)
    case _ => None
  }

  // Levels 4 and 12 are of prefix operators; the operators of level 9 are no tokens.
  function DocLevel(g: Group): nat {
    match g
    case Pipes => 1
    case Ors => 2
    case Ands => 3
    case Equalities => 5
    case Comparisons => 5
    case Bars => 6
    case Carets => 7
    case Ampersands => 8
    case Sums => 10
    case Products => 11
    case Casts => 13
    case Marks => 13
    case Accesses => 14
  }

  function GroupPrecedence(g: Group): Precedence {
    match g
    case Pipes => Pipeline
    case Ors => LogicalOr
    case Ands => LogicalAnd
    case Equalities => Equality
    case Comparisons => Comparison
    case Bars => NoPrec
    case Carets => BitXor
    case Ampersands => BitAnd
    case Sums => Sum
    case Products => Product
    case Casts => Cast
    case Marks => Postfix
    case Accesses => Postfix
  }

  lemma {:induction false} GroupRank(k: TokenKind)
    requires GroupOf(k).Some?
    ensures FromKind(k) == GroupPrecedence(GroupOf(k).value)
  {
  }

  /** Both tables put `j` below, level with or above `k`. */
  predicate SameOrder(j: TokenKind, k: TokenKind)
    requires GroupOf(j).Some? && GroupOf(k).Some?
  {
    var (m, n) := (DocLevel(GroupOf(j).value), DocLevel(GroupOf(k).value));
    && (m < n <==> Rank(FromKind(j)) < Rank(FromKind(k)))
    && (n < m <==> Rank(FromKind(k)) < Rank(FromKind(j)))
  }

  /** A comparison binds tighter than an equality, and a cast not as tightly as `!`, which is level with access. */
  predicate Clash(g: Group, h: Group) {
    (g.Equalities? && h.Comparisons?) || (h.Marks? && (g.Casts? || g.Accesses?))
  }

  /** The two tables agree on exactly the pairs that do not clash. */
  lemma {:induction false} SameOrderIff(j: TokenKind, k: TokenKind)
    requires GroupOf(j).Some? && GroupOf(k).Some? && !j.Bar? && !k.Bar?
    ensures var (g, h) := (GroupOf(j).value, GroupOf(k).value);
      SameOrder(j, k) <==> !Clash(g, h) && !Clash(h, g)
  {
    hide GroupOf, FromKind, Rank, DocLevel, GroupPrecedence;
    BarGroup(j);
    BarGroup(k);
    GroupRank(j);
    GroupRank(k);
    GroupsOrdered(GroupOf(j).value, GroupOf(k).value);
  }

  lemma {:induction false} GroupsOrdered(g: Group, h: Group)
    requires !g.Bars? && !h.Bars?
    ensures (DocLevel(g) < DocLevel(h) <==> Rank(GroupPrecedence(g)) < Rank(GroupPrecedence(h)))
            && (DocLevel(h) < DocLevel(g) <==> Rank(GroupPrecedence(h)) < Rank(GroupPrecedence(g)))
            <==> !Clash(g, h) && !Clash(h, g)
  {
  }

  lemma {:induction false} BarGroup(k: TokenKind)
    ensures GroupOf(k) == Some(Bars) <==> k.Bar?
  {
  }

  // ---- Two operators in a row ----

  // a j b k c, grouped to the left or to the right.
  function Grouped(left: bool, a: Tree, j: Token, b: Tree, k: Token, c: Tree): Tree {
    if left then Infix(Infix(a, j, b), k, c) else Infix(a, j, Infix(b, k, c))
  }

  /** An operand that neither operator can take apart. */
  predicate Operand(t: Tree, j: Token, k: Token) {
    WellShaped(t) && Level(t) > Rank(FromKind(j.kind)) && Level(t) > Rank(FromKind(k.kind))
  }

  predicate Operands(a: Tree, j: Token, b: Tree, k: Token, c: Tree) {
    InfixKind(j.kind) && InfixKind(k.kind) && Operand(a, j, k) && Operand(b, j, k) && Operand(c, j, k)
  }

  lemma {:induction false} GroupedShape(a: Tree, j: Token, b: Tree, k: Token, c: Tree)
    requires Operands(a, j, b, k, c)
    ensures WellShaped(Grouped(Rank(FromKind(k.kind)) <= Rank(FromKind(j.kind)), a, j, b, k, c))
    ensures Print(Grouped(true, a, j, b, k, c)) == Print(Grouped(false, a, j, b, k, c))
  {
    hide FromKind, Rank, InfixKind;
    GroupedPrint(a, j, b, k, c);
    hide Print;
  }

  lemma {:induction false} GroupedPrint(a: Tree, j: Token, b: Tree, k: Token, c: Tree)
    ensures Print(Grouped(true, a, j, b, k, c)) == Print(Grouped(false, a, j, b, k, c))
  {
    assert Print(Grouped(true, a, j, b, k, c)) == Print(a) + [j] + Print(b) + [k] + Print(c);
    assert Print(Grouped(false, a, j, b, k, c)) == Print(a) + [j] + (Print(b) + [k] + Print(c));
  }

  /** The operators are grouped as the documented levels say, level ones to the left. */
  function Documented(a: Tree, j: Token, b: Tree, k: Token, c: Tree): Tree
    requires GroupOf(j.kind).Some? && GroupOf(k.kind).Some?
  {
    Grouped(DocLevel(GroupOf(k.kind).value) <= DocLevel(GroupOf(j.kind).value), a, j, b, k, c)
  }

  /**
   Tokens that, less trivia, are three operands around two documented infix operators are read as documented
   unless the first is an equality and the second a comparison.
   */
  lemma {:induction false} ReadAsDocumentedIff(a: Tree, j: Token, b: Tree, k: Token, c: Tree, ts: seq<Token>,
      depth: nat)
    requires Operands(a, j, b, k, c) && GroupOf(j.kind).Some? && GroupOf(k.kind).Some?
    requires Kept(false, ts) == Print(Documented(a, j, b, k, c)) && forall i :: 0 <= i < |ts| ==> !ts[i].kind.Eof?
    ensures Bare(Expr(ts, depth, 0, NoPrec).node) == Cst(Documented(a, j, b, k, c))
            <==> !(GroupOf(j.kind).value.Equalities? && GroupOf(k.kind).value.Comparisons?)
  {
    hide Expr, Kept, Bare, FromKind, GroupOf, WellShaped, Print, Cst, Operand, Rank, DocLevel, GroupPrecedence, Grouped;
    var (g, h) := (GroupOf(j.kind).value, GroupOf(k.kind).value);
    var left := Rank(FromKind(k.kind)) <= Rank(FromKind(j.kind));
    GroupedShape(a, j, b, k, c);
    TokensRoundTrip(Grouped(left, a, j, b, k, c), ts, depth);
    GroupRank(j.kind);
    GroupRank(k.kind);
    InfixRank(j.kind);
    InfixRank(k.kind);
    SameSideIff(g, h);
    if g != h {
      GroupedDiffer(a, j, b, k, c);
    }
  }

  lemma {:induction false} SameSideIff(g: Group, h: Group)
    requires 1 <= Rank(GroupPrecedence(g)) <= 12 && 1 <= Rank(GroupPrecedence(h)) <= 12
    ensures (Rank(GroupPrecedence(h)) <= Rank(GroupPrecedence(g)) <==> DocLevel(h) <= DocLevel(g))
            <==> !(g.Equalities? && h.Comparisons?)
  {
  }

  lemma {:induction false} GroupedDiffer(a: Tree, j: Token, b: Tree, k: Token, c: Tree)
    requires j != k
    ensures Cst(Grouped(true, a, j, b, k, c)) != Cst(Grouped(false, a, j, b, k, c))
  {
    assert Cst(Grouped(true, a, j, b, k, c)).children[1] == Leaf(k);
    assert Cst(Grouped(false, a, j, b, k, c)).children[1] == Leaf(j);
  }

  lemma {:induction false} InfixRank(k: TokenKind)
    requires InfixKind(k)
    ensures 1 <= Rank(FromKind(k)) <= 12
  {
  }

  /** In that case the comparison is read first: `a == b < c` is `a == (b < c)`. */
  lemma {:induction false} ComparisonFirst(a: Tree, j: Token, b: Tree, k: Token, c: Tree, ts: seq<Token>, depth: nat)
    requires Operands(a, j, b, k, c) && GroupOf(j.kind) == Some(Equalities) && GroupOf(k.kind) == Some(Comparisons)
    requires Kept(false, ts) == Print(Grouped(true, a, j, b, k, c)) && forall i :: 0 <= i < |ts| ==> !ts[i].kind.Eof?
    ensures Bare(Expr(ts, depth, 0, NoPrec).node) == Cst(Grouped(false, a, j, b, k, c))
  {
    hide Expr, Kept, Bare, WellShaped, Print, Cst, FromKind, GroupOf;
    GroupedShape(a, j, b, k, c);
    GroupRank(j.kind);
    GroupRank(k.kind);
    TokensRoundTrip(Grouped(false, a, j, b, k, c), ts, depth);
  }

  /** `not` is in the table twice; the parser has only the higher of its levels, above every infix operator. */
  lemma {:induction false} NotBindsTightly(no: Token, x: Tree, k: Token, y: Tree, ts: seq<Token>, depth: nat)
    requires no.kind.Not? && WellShaped(x) && Level(x) > Rank(Prefix) && InfixKind(k.kind)
    requires WellShaped(y) && Level(y) > Rank(FromKind(k.kind))
    requires Kept(false, ts) == [no] + Print(x) + [k] + Print(y) && forall i :: 0 <= i < |ts| ==> !ts[i].kind.Eof?
    ensures Bare(Expr(ts, depth, 0, NoPrec).node) == Cst(Infix(Unary(no, x), k, y))
  {
    hide Expr, Kept, Bare, Cst;
    var t := Infix(Unary(no, x), k, y);
    InfixRank(k.kind);
    assert Print(t) == [no] + Print(x) + [k] + Print(y);
    TokensRoundTrip(t, ts, depth);
  }

  // ---- What the parser has no infix operator for ----

  /** The levels of `|` and of the shifts have no operator in the parser. */
  lemma {:induction false} NoBarNoShift(k: TokenKind)
    ensures FromKind(k) != BitOr && FromKind(k) != Shift
  {
  }

  /** An expression ends before a `|`, whatever follows. */
  lemma {:induction false} NothingBehindBar(t: Tree, bar: Token, rest: seq<Token>, depth: nat)
    requires WellShaped(t) && bar.kind.Bar?
    ensures Expr(Print(t) + ([bar] + rest), depth, 0, NoPrec) == Parsed(Cst(t), |Print(t)|)
  {
    hide Expr, Cst, WellShaped, Print;
    var ts := Print(t) + ([bar] + rest);
    assert ts[|Print(t)|] == bar;
    LevelBounds(t);
    RoundTrip(t, [bar] + rest, depth, NoPrec);
  }

  /** `<<` and `>>` are two comparisons, the second of which stands as an error where an operand should be. */
  lemma {:induction false} ShiftIsTwoComparisons(ts: seq<Token>, depth: nat, lhs: Node, q: nat)
    requires q + 1 < |ts| && ts[q].kind == ts[q + 1].kind && (ts[q].kind.Lt? || ts[q].kind.Gt?)
    ensures var n := ExprLoop(ts, depth, Parsed(Node(ErrorNode, [Leaf(ts[q + 1])]), q + 2), Comparison);
      PostfixForm(ts, depth, lhs, q) == Parsed(Node(BinaryExpr, [Sub(lhs), Leaf(ts[q]), Sub(n.node)]), n.pos)
  {
    hide ExprLoop, Primary, Expr, Ahead;
    AtOnce(ts, q, [Sub(lhs)]);
    ErrorParses(ts, depth, q + 1);
    var n := Expr(ts, depth, q + 1, Comparison);
    assert [Sub(lhs), Leaf(ts[q])] + [Sub(n.node)] == [Sub(lhs), Leaf(ts[q]), Sub(n.node)];
  }

  lemma {:induction false} ErrorParses(ts: seq<Token>, depth: nat, p: nat)
    requires p < |ts| && (ts[p].kind.Lt? || ts[p].kind.Gt?)
    ensures Expr(ts, depth, p, Comparison) ==
            ExprLoop(ts, depth, Parsed(Node(ErrorNode, [Leaf(ts[p])]), p + 1), Comparison)
  {
    hide ExprLoop, MacroForm, BindForm, MacroFollows, Ahead, PostfixForm;
    AtOnce(ts, p, []);
    var none: seq<Element> := [];
    assert none + [Leaf(ts[p])] == [Leaf(ts[p])];
    assert Primary(ts, depth, p) == Parsed(Node(ErrorNode, [Leaf(ts[p])]), p + 1);
  }

  // Without trivia before it a token is taken at once.
  lemma {:induction false} AtOnce(ts: seq<Token>, p: nat, elems: seq<Element>)
    requires p < |ts| && !IsTrivia(ts[p].kind)
    ensures Eat(ts, Partial(elems, p)) == Partial(elems, p)
    ensures !ts[p].kind.Eof? ==> Push(ts, Partial(elems, p)) == Partial(elems + [Leaf(ts[p])], p + 1)
  {
    EatNone(ts, Partial(elems, p));
  }

  /** `x as t !` is `x as (t !)`: the mark is taken by the type, though the table has it level with the cast. */
  lemma {:induction false} MarkBindsToType(ts: seq<Token>, depth: nat, lhs: Node, q: nat)
    requires q + 2 < |ts| && ts[q].kind.As? && NameKind(ts[q + 1].kind) && ts[q + 2].kind.Bang?
    requires !MacroFollows(ts, q + 2) && !KindAt(ts, SkipTrivia(ts, q + 3)).Or?
    ensures var marked := Node(CascadeExpr, [Sub(Node(IdentNode, [Leaf(ts[q + 1])])), Leaf(ts[q + 2])]);
      var n := ExprLoop(ts, depth, Parsed(marked, q + 3), Cast);
      PostfixForm(ts, depth, lhs, q) == Parsed(Node(BinaryExpr, [Sub(lhs), Leaf(ts[q]), Sub(n.node)]), n.pos)
  {
    hide MacroForm, BindForm, MacroFollows, Ahead, ExprLoop, Primary, Expr;
    var name := Node(IdentNode, [Leaf(ts[q + 1])]);
    AtOnce(ts, q, [Sub(lhs)]);
    AtOnce(ts, q + 2, [Sub(name)]);
    NameParses(ts, depth, q + 1);
    var marked := Node(CascadeExpr, [Sub(name), Leaf(ts[q + 2])]);
    assert PostfixForm(ts, depth, name, q + 2) == Parsed(marked, q + 3);
    MarkTaken(ts, depth, name, q + 2);
    var n := Expr(ts, depth, q + 1, Cast);
    assert [Sub(lhs), Leaf(ts[q])] + [Sub(n.node)] == [Sub(lhs), Leaf(ts[q]), Sub(n.node)];
  }

  lemma {:induction false} NameParses(ts: seq<Token>, depth: nat, p: nat)
    requires p < |ts| && NameKind(ts[p].kind) && !MacroFollows(ts, p + 1)
    ensures Expr(ts, depth, p, Cast) == ExprLoop(ts, depth, Parsed(Node(IdentNode, [Leaf(ts[p])]), p + 1), Cast)
  {
    hide MacroForm, BindForm, MacroFollows, Ahead, ExprLoop;
    AtOnce(ts, p, []);
    var none: seq<Element> := [];
    assert none + [Leaf(ts[p])] == [Leaf(ts[p])];
    assert Primary(ts, depth, p) == Parsed(Node(IdentNode, [Leaf(ts[p])]), p + 1);
  }

  lemma {:induction false} MarkTaken(ts: seq<Token>, depth: nat, name: Node, p: nat)
    requires p < |ts| && ts[p].kind.Bang?
    ensures ExprLoop(ts, depth, Parsed(name, p), Cast) ==
            ExprLoop(ts, depth, PostfixForm(ts, depth, name, p), Cast)
  {
    hide PostfixForm, Ahead;
    EatNone(ts, Partial([], p));
  }
}
