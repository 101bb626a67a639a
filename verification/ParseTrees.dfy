/** Operator trees and their tokens: precedence climbing reads back exactly the tree that was written. */
module ParseTrees {
  import opened Common
  import opened Tokens
  import opened ParseSpec
  import opened ParseFacts

  /** Atoms, parentheses, prefix operators and the left-associative infix operators. */
  datatype Tree =
    | Atom(tok: Token)
    | Paren(open: Token, inner: Tree, close: Token)
    | Unary(op: Token, operand: Tree)
    | Infix(left: Tree, op: Token, right: Tree)

  const ATOM_LEVEL: nat := Rank(Cast)

  predicate InfixKind(k: TokenKind) {
    Rank(Pipeline) <= Rank(FromKind(k)) <= Rank(Product)
  }

  /** How loosely the outermost operator binds. */
  function Level(t: Tree): nat {
    if t.Infix? then Rank(FromKind(t.op.kind)) else ATOM_LEVEL
  }

  predicate KindsFit(t: Tree) {
    match t
    case Atom(tok) => AtomKind(tok.kind) || NameKind(tok.kind)
    case Paren(open, inner, close) => open.kind.OpenParen? && close.kind.CloseParen? && KindsFit(inner)
    case Unary(op, x) => PrefixKind(op.kind) && KindsFit(x)
    case Infix(l, op, r) => InfixKind(op.kind) && KindsFit(l) && KindsFit(r)
  }

  /** Parentheses stand wherever precedence and left associativity require them. */
  predicate WellShaped(t: Tree) {
    match t
    case Atom(tok) => AtomKind(tok.kind) || NameKind(tok.kind)
    case Paren(open, inner, close) => open.kind.OpenParen? && close.kind.CloseParen? && WellShaped(inner)
    case Unary(op, x) => PrefixKind(op.kind) && WellShaped(x) && Level(x) > Rank(Prefix)
    case Infix(l, op, r) =>
      && InfixKind(op.kind) && WellShaped(l) && WellShaped(r)
      && Level(l) >= Rank(FromKind(op.kind)) && Level(r) > Rank(FromKind(op.kind))
  }

  function Print(t: Tree): (ts: seq<Token>)
    ensures |ts| > 0
  {
    match t
    case Atom(tok) => [tok]
    case Paren(open, inner, close) => [open] + Print(inner) + [close]
    case Unary(op, x) => [op] + Print(x)
    case Infix(l, op, r) => Print(l) + [op] + Print(r)
  }

  /** The concrete syntax the parser builds for it. */
  function Cst(t: Tree): Node {
    match t
    case Atom(tok) => Node(if AtomKind(tok.kind) then LiteralNode else IdentNode, [Leaf(tok)])
    case Paren(open, inner, close) => Node(ParenExpr, [Leaf(open), Sub(Cst(inner)), Leaf(close)])
    case Unary(op, x) => Node(UnaryExpr, [Leaf(op), Sub(Cst(x))])
    case Infix(l, op, r) => Node(BinaryExpr, [Sub(Cst(l)), Leaf(op), Sub(Cst(r))])
  }

  // ---- Reading a tree off the tokens ----

  /**
   Follows the tree through the tokens from `p`, over any trivia, and builds its concrete syntax: trivia goes
   to the node of the token after it, but is left out before an infix operator.
   */
  function ReadOff(t: Tree, ts: seq<Token>, p: nat): (r: Option<Parsed>)
    requires p <= |ts|
    ensures r.Some? ==> p < r.value.pos <= |ts|
  {
    var q := SkipTrivia(ts, p);
    var lead := Leaves(ts[p..q]);
    match t
    case Atom(tok) =>
      if q < |ts| && ts[q] == tok then
        Some(Parsed(Node(if AtomKind(tok.kind) then LiteralNode else IdentNode, lead + [Leaf(tok)]), q + 1))
      else None
    case Paren(open, inner, close) =>
      if q < |ts| && ts[q] == open then
        match ReadOff(inner, ts, q + 1)
        case None => None
        case Some(x) =>
          var e := SkipTrivia(ts, x.pos);
          if e < |ts| && ts[e] == close then
            Some(Parsed(Node(ParenExpr, lead + [Leaf(open), Sub(x.node)] + Leaves(ts[x.pos..e]) + [Leaf(close)]),
                        e + 1))
          else None
      else None
    case Unary(op, operand) =>
      if q < |ts| && ts[q] == op then
        match ReadOff(operand, ts, q + 1)
        case None => None
        case Some(x) => Some(Parsed(Node(UnaryExpr, lead + [Leaf(op), Sub(x.node)]), x.pos))
      else None
    case Infix(left, op, right) =>
      match ReadOff(left, ts, p)
      case None => None
      case Some(l) =>
        var e := SkipTrivia(ts, l.pos);
        if e < |ts| && ts[e] == op then
          match ReadOff(right, ts, e + 1)
          case None => None
          case Some(r) => Some(Parsed(Node(BinaryExpr, [Sub(l.node), Leaf(op), Sub(r.node)]), r.pos))
        else None
  }

  // How tightly what comes next would bind.
  function Follow(ts: seq<Token>, p: nat): nat
    requires p <= |ts|
  {
    Rank(FromKind(KindAt(ts, SkipTrivia(ts, p))))
  }

  // `ReadOff`, one step unfolded.
  lemma {:induction false} AtomRead(t: Tree, ts: seq<Token>, p: nat)
    requires t.Atom? && p <= |ts| && ReadOff(t, ts, p).Some?
    ensures var q := SkipTrivia(ts, p);
      && q < |ts| && ts[q] == t.tok
      && ReadOff(t, ts, p).value ==
         Parsed(Node(if AtomKind(t.tok.kind) then LiteralNode else IdentNode, Leaves(ts[p..q]) + [Leaf(t.tok)]), q + 1)
  {
  }

  lemma {:induction false} ParenRead(t: Tree, ts: seq<Token>, p: nat)
    requires t.Paren? && p <= |ts| && ReadOff(t, ts, p).Some?
    ensures var q := SkipTrivia(ts, p);
      && q < |ts| && ts[q] == t.open && ReadOff(t.inner, ts, q + 1).Some?
      && var x := ReadOff(t.inner, ts, q + 1).value;
         var e := SkipTrivia(ts, x.pos);
         && e < |ts| && ts[e] == t.close
         && ReadOff(t, ts, p).value ==
            Parsed(Node(ParenExpr, Leaves(ts[p..q]) + [Leaf(t.open), Sub(x.node)] + Leaves(ts[x.pos..e])
                + [Leaf(t.close)]),
                   e + 1)
  {
  }

  lemma {:induction false} UnaryRead(t: Tree, ts: seq<Token>, p: nat)
    requires t.Unary? && p <= |ts| && ReadOff(t, ts, p).Some?
    ensures var q := SkipTrivia(ts, p);
      && q < |ts| && ts[q] == t.op && ReadOff(t.operand, ts, q + 1).Some?
      && var x := ReadOff(t.operand, ts, q + 1).value;
         ReadOff(t, ts, p).value == Parsed(Node(UnaryExpr, Leaves(ts[p..q]) + [Leaf(t.op), Sub(x.node)]), x.pos)
  {
  }

  lemma {:induction false} InfixRead(t: Tree, ts: seq<Token>, p: nat)
    requires t.Infix? && p <= |ts| && ReadOff(t, ts, p).Some?
    ensures ReadOff(t.left, ts, p).Some?
    ensures var l := ReadOff(t.left, ts, p).value;
      var e := SkipTrivia(ts, l.pos);
      && e < |ts| && ts[e] == t.op && ReadOff(t.right, ts, e + 1).Some?
      && var r := ReadOff(t.right, ts, e + 1).value;
         ReadOff(t, ts, p).value == Parsed(Node(BinaryExpr, [Sub(l.node), Leaf(t.op), Sub(r.node)]), r.pos)
  {
  }

  lemma {:induction false} EatNone(ts: seq<Token>, c: Partial)
    requires c.pos <= |ts| && !IsTrivia(KindAt(ts, c.pos))
    ensures Eat(ts, c) == c && SkipTrivia(ts, c.pos) == c.pos
  {
    assert ts[c.pos..c.pos] == [] && Leaves([]) == [];
  }

  lemma {:induction false} AtomIsNotTrivia(k: TokenKind)
    requires AtomKind(k) || NameKind(k)
    ensures !IsTrivia(k) && k != Eof
  {
  }

  lemma {:induction false} NoMacro(ts: seq<Token>, p: nat)
    requires p <= |ts| && Follow(ts, p) <= Rank(Prefix)
    ensures !MacroFollows(ts, p)
  {
  }

  // A primary that is one token.
  lemma {:induction false} AtomParses(ts: seq<Token>, depth: nat, p: nat, t: Tree)
    requires t.Atom? && WellShaped(t) && p <= |ts| && ReadOff(t, ts, p).Some?
    requires Follow(ts, ReadOff(t, ts, p).value.pos) <= Rank(Prefix)
    ensures Primary(ts, depth, p) == ReadOff(t, ts, p).value
  {
    hide Expr, ExprLoop, MacroForm, BindForm, MacroFollows, Ahead, ReadOff, SkipTrivia, Follow;
    AtomRead(t, ts, p);
    var q := SkipTrivia(ts, p);
    AtomIsNotTrivia(t.tok.kind);
    NoMacro(ts, q + 1);
    assert Eat(ts, Partial([], p)) == Partial([] + Leaves(ts[p..q]), q);
    assert [] + Leaves(ts[p..q]) == Leaves(ts[p..q]);
  }

  lemma {:induction false} OpenPrimary(ts: seq<Token>, depth: nat, p: nat, q: nat)
    requires p <= |ts| && q == SkipTrivia(ts, p) && q < |ts| && ts[q].kind.OpenParen?
    ensures var d := Partial(Leaves(ts[p..q]) + [Leaf(ts[q])], q + 1);
      Primary(ts, depth, p) ==
        Close(ParenExpr, PushIf(ts, Eat(ts, Attach(d, Expr(ts, depth, q + 1, NoPrec))), CloseParen))
  {
    hide Expr, ExprLoop, MacroForm, BindForm, MacroFollows, PushIf, Ahead, SkipTrivia;
    assert [] + Leaves(ts[p..q]) == Leaves(ts[p..q]);
    assert Push(ts, Eat(ts, Partial([], p))) == Partial(Leaves(ts[p..q]) + [Leaf(ts[q])], q + 1);
  }

  lemma {:induction false} PrefixPrimary(ts: seq<Token>, depth: nat, p: nat, q: nat)
    requires p <= |ts| && q == SkipTrivia(ts, p) && q < |ts| && PrefixKind(ts[q].kind)
    ensures Primary(ts, depth, p) ==
            Close(UnaryExpr, Attach(Partial(Leaves(ts[p..q]) + [Leaf(ts[q])], q + 1), Expr(ts, depth, q + 1, Prefix)))
  {
    hide Expr, ExprLoop, MacroForm, BindForm, MacroFollows, PushIf, Ahead, SkipTrivia;
    assert [] + Leaves(ts[p..q]) == Leaves(ts[p..q]);
    assert Push(ts, Eat(ts, Partial([], p))) == Partial(Leaves(ts[p..q]) + [Leaf(ts[q])], q + 1);
  }

  // Parentheses around what parses as the tree inside.
  lemma {:induction false} ParenParses(ts: seq<Token>, depth: nat, p: nat, t: Tree)
    requires t.Paren? && t.open.kind.OpenParen? && t.close.kind.CloseParen? && p <= |ts| && ReadOff(t, ts, p).Some?
    requires var q := SkipTrivia(ts, p);
      q < |ts| && ReadOff(t.inner, ts, q + 1).Some?
      && Expr(ts, depth, q + 1, NoPrec) == ReadOff(t.inner, ts, q + 1).value
    ensures Primary(ts, depth, p) == ReadOff(t, ts, p).value
  {
    hide Expr, Primary, ExprLoop, PostfixForm, SkipTrivia, Ahead, FromKind, PrefixKind, ReadOff;
    ParenRead(t, ts, p);
    var q := SkipTrivia(ts, p);
    var x := ReadOff(t.inner, ts, q + 1).value;
    var e := SkipTrivia(ts, x.pos);
    OpenPrimary(ts, depth, p, q);
    var c := Attach(Partial(Leaves(ts[p..q]) + [Leaf(t.open)], q + 1), x);
    assert c.elems == Leaves(ts[p..q]) + [Leaf(t.open), Sub(x.node)];
    assert Eat(ts, c) == Partial(c.elems + Leaves(ts[x.pos..e]), e);
  }

  lemma {:induction false} UnaryParses(ts: seq<Token>, depth: nat, p: nat, t: Tree)
    requires t.Unary? && PrefixKind(t.op.kind) && p <= |ts| && ReadOff(t, ts, p).Some?
    requires var q := SkipTrivia(ts, p);
      q < |ts| && ReadOff(t.operand, ts, q + 1).Some?
      && Expr(ts, depth, q + 1, Prefix) == ReadOff(t.operand, ts, q + 1).value
    ensures Primary(ts, depth, p) == ReadOff(t, ts, p).value
  {
    hide Expr, Primary, ExprLoop, PostfixForm, SkipTrivia, Eat, Ahead, FromKind, PrefixKind, ReadOff;
    UnaryRead(t, ts, p);
    var q := SkipTrivia(ts, p);
    var x := ReadOff(t.operand, ts, q + 1).value;
    PrefixPrimary(ts, depth, p, q);
    assert Attach(Partial(Leaves(ts[p..q]) + [Leaf(t.op)], q + 1), x).elems ==
        Leaves(ts[p..q]) + [Leaf(t.op), Sub(x.node)];
  }

  // An infix operator is none of the postfix forms.
  lemma {:induction false} InfixIsBinary(k: TokenKind)
    requires InfixKind(k)
    ensures !k.OpenParen? && !k.DoubleColon? && !k.OpenBrace? && !k.Question? && !k.Dot? && !k.Bang?
    ensures !FromKind(k).NoPrec? && !IsTrivia(k) && !k.Eof?
  {
  }

  lemma {:induction false} PostfixBinary(ts: seq<Token>, depth: nat, left: Node, q: nat)
    requires q < |ts| && InfixKind(ts[q].kind)
    ensures PostfixForm(ts, depth, left, q) ==
            Close(BinaryExpr, Attach(Partial([Sub(left), Leaf(ts[q])], q + 1),
                                     Expr(ts, depth, q + 1, FromKind(ts[q].kind))))
  {
    hide Expr, CallArgs, PathTail, StructFields, BangTail, InfixKind, FromKind, IsTrivia, SkipTrivia, Eat, Ahead;
    InfixIsBinary(ts[q].kind);
    EatNone(ts, Partial([Sub(left)], q));
    assert Push(ts, Partial([Sub(left)], q)) == Partial([Sub(left), Leaf(ts[q])], q + 1);
  }

  // One turn of the loop: the operator takes its right operand.
  lemma {:induction false} InfixParses(ts: seq<Token>, depth: nat, left: Node, q: nat, op: Token, right: Parsed)
    requires q < |ts| && ts[q] == op && InfixKind(op.kind) && Expr(ts, depth, q + 1, FromKind(op.kind)) == right
    ensures PostfixForm(ts, depth, left, q) ==
                Parsed(Node(BinaryExpr, [Sub(left), Leaf(op), Sub(right.node)]), right.pos)
  {
    hide Expr, PostfixForm, SkipTrivia, InfixKind, FromKind, Primary, ExprLoop, Ahead;
    PostfixBinary(ts, depth, left, q);
    assert Attach(Partial([Sub(left), Leaf(op)], q + 1), right).elems == [Sub(left), Leaf(op), Sub(right.node)];
  }

  lemma {:induction false} LoopStops(ts: seq<Token>, depth: nat, lhs: Parsed, min: Precedence)
    requires lhs.pos <= |ts| && Follow(ts, lhs.pos) <= Rank(min)
    ensures ExprLoop(ts, depth, lhs, min) == lhs
  {
  }

  lemma {:induction false} LoopTurns(ts: seq<Token>, depth: nat, lhs: Parsed, q: nat, min: Precedence)
    requires lhs.pos <= |ts| && q == SkipTrivia(ts, lhs.pos) && q < |ts|
    requires InfixKind(ts[q].kind) && Rank(FromKind(ts[q].kind)) > Rank(min) && FromKind(ts[q].kind) != NoPrec
    ensures ExprLoop(ts, depth, lhs, min) == ExprLoop(ts, depth, PostfixForm(ts, depth, lhs.node, q), min)
  {
    hide PostfixForm, InfixKind, FromKind, IsTrivia, Rank, SkipTrivia;
    InfixIsBinary(ts[q].kind);
  }

  /**
   Parsing where a tree can be read off reaches the loop with exactly that in hand, provided what follows
   does not bind more tightly than the tree itself.
   */
  lemma {:induction false} TreeParses(t: Tree, ts: seq<Token>, depth: nat, p: nat, min: Precedence)
    requires WellShaped(t) && p <= |ts| && ReadOff(t, ts, p).Some? && Level(t) > Rank(min)
    requires var end := ReadOff(t, ts, p).value.pos;
      Follow(ts, end) <= Level(t) && Follow(ts, end) <= Rank(Prefix)
    ensures Expr(ts, depth, p, min) == ExprLoop(ts, depth, ReadOff(t, ts, p).value, min)
    decreases t, 1
  {
    hide Expr, ExprLoop, Primary, InfixKind, PrefixKind, AtomKind, NameKind, Follow, FromKind, SkipTrivia, KindAt,
      Ahead, ReadOff;
    ExprIs(ts, depth, p, min);
    var q := SkipTrivia(ts, p);
    match t {
      case Atom(tok) =>
        AtomParses(ts, depth, p, t);
      case Paren(open, inner, close) =>
        ParenRead(t, ts, p);
        var x := ReadOff(inner, ts, q + 1).value;
        ParenFollow(ts, x.pos);
        LevelBounds(inner);
        TreeParses(inner, ts, depth, q + 1, NoPrec);
        LoopStops(ts, depth, x, NoPrec);
        ParenParses(ts, depth, p, t);
      case Unary(op, operand) =>
        UnaryRead(t, ts, p);
        TreeParses(operand, ts, depth, q + 1, Prefix);
        LoopStops(ts, depth, ReadOff(operand, ts, q + 1).value, Prefix);
        UnaryParses(ts, depth, p, t);
      case Infix(_, _, _) =>
        InfixTree(t, ts, depth, p, min);
    }
  }

  lemma {:induction false} InfixTree(t: Tree, ts: seq<Token>, depth: nat, p: nat, min: Precedence)
    requires t.Infix? && WellShaped(t) && p <= |ts| && ReadOff(t, ts, p).Some? && Level(t) > Rank(min)
    requires Follow(ts, ReadOff(t, ts, p).value.pos) <= Level(t)
    ensures Expr(ts, depth, p, min) == ExprLoop(ts, depth, ReadOff(t, ts, p).value, min)
    decreases t, 0
  {
    hide Expr, ExprLoop, Primary, InfixKind, PrefixKind, Follow, FromKind, Rank, SkipTrivia, KindAt, Ahead, ReadOff;
    InfixRead(t, ts, p);
    var left := ReadOff(t.left, ts, p).value;
    var e := SkipTrivia(ts, left.pos);
    InfixFollow(ts, left.pos);
    TreeParses(t.left, ts, depth, p, min);
    TreeParses(t.right, ts, depth, e + 1, FromKind(t.op.kind));
    InfixTurn(ts, depth, p, t, min);
  }

  // The loop holds the left operand; the operator and the right operand join it.
  lemma {:induction false} InfixTurn(ts: seq<Token>, depth: nat, p: nat, t: Tree, min: Precedence)
    requires t.Infix? && InfixKind(t.op.kind) && Rank(FromKind(t.op.kind)) > Rank(min)
    requires p <= |ts| && ReadOff(t, ts, p).Some? && ReadOff(t.left, ts, p).Some?
    requires Follow(ts, ReadOff(t, ts, p).value.pos) <= Rank(FromKind(t.op.kind))
    requires var e := SkipTrivia(ts, ReadOff(t.left, ts, p).value.pos);
      && e < |ts| && ReadOff(t.right, ts, e + 1).Some?
      && Expr(ts, depth, e + 1, FromKind(t.op.kind)) ==
         ExprLoop(ts, depth, ReadOff(t.right, ts, e + 1).value, FromKind(t.op.kind))
    ensures ExprLoop(ts, depth, ReadOff(t.left, ts, p).value, min) == ExprLoop(ts, depth, ReadOff(t, ts, p).value, min)
  {
    hide Expr, ExprLoop, Primary, PostfixForm, InfixKind, FromKind, Follow, Ahead, KindAt, SkipTrivia, ReadOff;
    InfixRead(t, ts, p);
    var left := ReadOff(t.left, ts, p).value;
    var e := SkipTrivia(ts, left.pos);
    InfixIsBinary(t.op.kind);
    LoopStops(ts, depth, ReadOff(t.right, ts, e + 1).value, FromKind(t.op.kind));
    LoopTurns(ts, depth, left, e, min);
    InfixParses(ts, depth, left.node, e, t.op, ReadOff(t.right, ts, e + 1).value);
  }

  lemma {:induction false} ParenFollow(ts: seq<Token>, p: nat)
    requires p <= |ts| && SkipTrivia(ts, p) < |ts| && ts[SkipTrivia(ts, p)].kind.CloseParen?
    ensures Follow(ts, p) == 0
  {
    hide SkipTrivia;
  }

  lemma {:induction false} InfixFollow(ts: seq<Token>, p: nat)
    requires p <= |ts| && SkipTrivia(ts, p) < |ts| && InfixKind(ts[SkipTrivia(ts, p)].kind)
    ensures Follow(ts, p) == Rank(FromKind(ts[SkipTrivia(ts, p)].kind)) <= Rank(Prefix)
  {
    hide FromKind, InfixKind, SkipTrivia;
    InfixRank(ts[SkipTrivia(ts, p)].kind);
  }

  lemma {:induction false} ExprIs(ts: seq<Token>, depth: nat, p: nat, min: Precedence)
    requires p <= |ts|
    ensures Expr(ts, depth, p, min) == ExprLoop(ts, depth, Primary(ts, depth, p), min)
  {
    hide ExprLoop, Primary, Ahead;
  }

  lemma {:induction false} LevelBounds(t: Tree)
    requires WellShaped(t)
    ensures 0 < Level(t) <= ATOM_LEVEL && Rank(Prefix) + 1 == ATOM_LEVEL
  {
  }

  lemma {:induction false} InfixRank(k: TokenKind)
    requires InfixKind(k)
    ensures Rank(FromKind(k)) <= Rank(Prefix)
  {
  }

  // ---- The tokens of a tree, with trivia anywhere ----

  /** From `p` on, over trivia, stand the tokens `want`; the last of them ends at `end`. */
  predicate Spells(ts: seq<Token>, p: nat, end: nat, want: seq<Token>)
    requires p <= |ts|
    decreases |want|
  {
    if want == [] then p == end
    else
      var q := SkipTrivia(ts, p);
      q < |ts| && ts[q] == want[0] && Spells(ts, q + 1, end, want[1..])
  }

  // `Print`, one step unfolded.
  lemma {:induction false} PrintIs(t: Tree, more: seq<Token>)
    ensures t.Atom? ==> Print(t) + more == [t.tok] + more
    ensures t.Paren? ==> Print(t) + more == [t.open] + (Print(t.inner) + ([t.close] + more))
    ensures t.Unary? ==> Print(t) + more == [t.op] + (Print(t.operand) + more)
    ensures t.Infix? ==> Print(t) + more == Print(t.left) + ([t.op] + (Print(t.right) + more))
  {
  }

  lemma {:induction false} SpellsFirst(ts: seq<Token>, p: nat, end: nat, first: Token, more: seq<Token>)
    requires p <= |ts| && Spells(ts, p, end, [first] + more)
    ensures var q := SkipTrivia(ts, p); q < |ts| && ts[q] == first && Spells(ts, q + 1, end, more)
  {
    assert ([first] + more)[1..] == more;
  }

  // When a tree can be read off, and where it ends.
  lemma {:induction false} Reads(t: Tree, ts: seq<Token>, p: nat)
    requires p <= |ts|
    ensures t.Atom? ==> var q := SkipTrivia(ts, p);
      q < |ts| && ts[q] == t.tok ==> ReadOff(t, ts, p).Some? && ReadOff(t, ts, p).value.pos == q + 1
    ensures t.Paren? ==> var q := SkipTrivia(ts, p);
      q < |ts| && ts[q] == t.open && ReadOff(t.inner, ts, q + 1).Some? ==>
        var e := SkipTrivia(ts, ReadOff(t.inner, ts, q + 1).value.pos);
        e < |ts| && ts[e] == t.close ==> ReadOff(t, ts, p).Some? && ReadOff(t, ts, p).value.pos == e + 1
    ensures t.Unary? ==> var q := SkipTrivia(ts, p);
      q < |ts| && ts[q] == t.op && ReadOff(t.operand, ts, q + 1).Some? ==>
        ReadOff(t, ts, p).Some? && ReadOff(t, ts, p).value.pos == ReadOff(t.operand, ts, q + 1).value.pos
    ensures t.Infix? && ReadOff(t.left, ts, p).Some? ==>
      var e := SkipTrivia(ts, ReadOff(t.left, ts, p).value.pos);
      e < |ts| && ts[e] == t.op && ReadOff(t.right, ts, e + 1).Some? ==>
        ReadOff(t, ts, p).Some? && ReadOff(t, ts, p).value.pos == ReadOff(t.right, ts, e + 1).value.pos
  {
    hide SkipTrivia, Leaves;
  }

  /** Where the tokens of a tree stand, the tree can be read off. */
  lemma {:induction false} SpelledRead(t: Tree, ts: seq<Token>, p: nat, end: nat, more: seq<Token>)
    requires p <= |ts| && Spells(ts, p, end, Print(t) + more)
    ensures ReadOff(t, ts, p).Some? && Spells(ts, ReadOff(t, ts, p).value.pos, end, more)
    decreases t
  {
    hide Spells, Print, SkipTrivia, ReadOff;
    PrintIs(t, more);
    Reads(t, ts, p);
    match t {
      case Atom(tok) =>
        SpellsFirst(ts, p, end, tok, more);
      case Paren(open, inner, close) =>
        SpellsFirst(ts, p, end, open, Print(inner) + ([close] + more));
        SpelledRead(inner, ts, SkipTrivia(ts, p) + 1, end, [close] + more);
        SpellsFirst(ts, ReadOff(inner, ts, SkipTrivia(ts, p) + 1).value.pos, end, close, more);
      case Unary(op, x) =>
        SpellsFirst(ts, p, end, op, Print(x) + more);
        SpelledRead(x, ts, SkipTrivia(ts, p) + 1, end, more);
      case Infix(l, op, r) =>
        SpelledRead(l, ts, p, end, [op] + (Print(r) + more));
        var q := ReadOff(l, ts, p).value.pos;
        SpellsFirst(ts, q, end, op, Print(r) + more);
        SpelledRead(r, ts, SkipTrivia(ts, q) + 1, end, more);
    }
  }

  // ---- A node without its trivia ----

  function Bare(n: Node): Node
    decreases n, 1
  {
    Node(n.kind, BareAll(n, |n.children|))
  }

  // The first `k` children.
  function BareAll(n: Node, k: nat): seq<Element>
    requires k <= |n.children|
    decreases n, 0, k
  {
    if k == 0 then []
    else
      var last := match n.children[k - 1] case Leaf(t) => (if IsTrivia(t.kind) then [] else [Leaf(t)])
                                          case Sub(m) => [Sub(Bare(m))];
      BareAll(n, k - 1) + last
  }

  function BareOf(e: Element): seq<Element> {
    match e
    case Leaf(t) => if IsTrivia(t.kind) then [] else [Leaf(t)]
    case Sub(m) => [Sub(Bare(m))]
  }

  function BareList(es: seq<Element>): seq<Element> {
    if es == [] then [] else BareList(es[..|es| - 1]) + BareOf(es[|es| - 1])
  }

  lemma {:induction false} BareChildren(n: Node, k: nat)
    requires k <= |n.children|
    ensures BareAll(n, k) == BareList(n.children[..k])
    decreases k
  {
    if k > 0 {
      BareChildren(n, k - 1);
      assert n.children[..k][..k - 1] == n.children[..k - 1];
    }
  }

  lemma {:induction false} BareNode(kind: NodeKind, es: seq<Element>)
    ensures Bare(Node(kind, es)) == Node(kind, BareList(es))
  {
    BareChildren(Node(kind, es), |es|);
    assert es[..|es|] == es;
  }

  lemma {:induction false} BareAppend(es: seq<Element>, e: Element)
    ensures BareList(es + [e]) == BareList(es) + BareOf(e)
  {
    assert (es + [e])[..|es|] == es;
  }

  // Trivia leaves no trace.
  lemma {:induction false} BareTrivia(es: seq<Element>, ts: seq<Token>, p: nat)
    requires p <= |ts|
    ensures BareList(es + Leaves(ts[p..SkipTrivia(ts, p)])) == BareList(es)
    decreases |ts| - p
  {
    if IsTrivia(KindAt(ts, p)) {
      var run := ts[p..SkipTrivia(ts, p)];
      assert run == [ts[p]] + ts[p + 1..SkipTrivia(ts, p)];
      assert es + Leaves(run) == es + [Leaf(ts[p])] + Leaves(ts[p + 1..SkipTrivia(ts, p)]);
      BareTrivia(es + [Leaf(ts[p])], ts, p + 1);
      BareAppend(es, Leaf(ts[p]));
    } else {
      assert es + Leaves(ts[p..p]) == es;
    }
  }

  lemma {:induction false} TriviaFirst(ts: seq<Token>, p: nat)
    requires p <= |ts|
    ensures BareList(Leaves(ts[p..SkipTrivia(ts, p)])) == []
  {
    hide BareList;
    assert [] + Leaves(ts[p..SkipTrivia(ts, p)]) == Leaves(ts[p..SkipTrivia(ts, p)]);
    BareTrivia([], ts, p);
    assert BareList([]) == [] by { BareEmpty(); }
  }

  lemma {:induction false} BareEmpty()
    ensures BareList([]) == []
  {
  }

  /** Less its trivia, what is read off is the tree's concrete syntax. */
  lemma {:induction false} BareRead(t: Tree, ts: seq<Token>, p: nat)
    requires p <= |ts| && ReadOff(t, ts, p).Some?
    ensures Bare(ReadOff(t, ts, p).value.node) == Cst(t)
    decreases t
  {
    hide ReadOff, Bare, BareList, SkipTrivia, Leaves;
    var q := SkipTrivia(ts, p);
    var lead := Leaves(ts[p..q]);
    TriviaFirst(ts, p);
    match t {
      case Atom(tok) =>
        AtomRead(t, ts, p);
        BareAppend(lead, Leaf(tok));
        BareNode(if AtomKind(tok.kind) then LiteralNode else IdentNode, lead + [Leaf(tok)]);
      case Paren(open, inner, close) =>
        ParenRead(t, ts, p);
        var x := ReadOff(inner, ts, q + 1).value;
        BareRead(inner, ts, q + 1);
        var e := SkipTrivia(ts, x.pos);
        BareTwo(lead, Leaf(open), Sub(x.node));
        BareTrivia(lead + [Leaf(open), Sub(x.node)], ts, x.pos);
        BareAppend(lead + [Leaf(open), Sub(x.node)] + Leaves(ts[x.pos..e]), Leaf(close));
        BareNode(ParenExpr, lead + [Leaf(open), Sub(x.node)] + Leaves(ts[x.pos..e]) + [Leaf(close)]);
      case Unary(op, operand) =>
        UnaryRead(t, ts, p);
        var x := ReadOff(operand, ts, q + 1).value;
        BareRead(operand, ts, q + 1);
        BareTwo(lead, Leaf(op), Sub(x.node));
        BareNode(UnaryExpr, lead + [Leaf(op), Sub(x.node)]);
      case Infix(left, op, right) =>
        InfixRead(t, ts, p);
        var l := ReadOff(left, ts, p).value;
        var r := ReadOff(right, ts, SkipTrivia(ts, l.pos) + 1).value;
        BareRead(left, ts, p);
        BareRead(right, ts, SkipTrivia(ts, l.pos) + 1);
        BareTwo([], Sub(l.node), Leaf(op));
        BareEmpty();
        assert [] + [Sub(l.node), Leaf(op)] == [Sub(l.node), Leaf(op)];
        BareAppend([Sub(l.node), Leaf(op)], Sub(r.node));
        assert [Sub(l.node), Leaf(op)] + [Sub(r.node)] == [Sub(l.node), Leaf(op), Sub(r.node)];
        BareNode(BinaryExpr, [Sub(l.node), Leaf(op), Sub(r.node)]);
    }
  }

  lemma {:induction false} BareTwo(es: seq<Element>, a: Element, b: Element)
    ensures BareList(es + [a, b]) == BareList(es) + BareOf(a) + BareOf(b)
  {
    assert es + [a, b] == es + [a] + [b];
    BareAppend(es, a);
    BareAppend(es + [a], b);
  }

  // ---- Round trips ----

  /**
   Round trip with trivia anywhere between the tokens: parsing stops exactly at the end of the tree, and less
   its trivia the node is the tree's, whatever follows that does not bind more tightly than `min`.
   */
  lemma {:induction false} SpacedRoundTrip(t: Tree, ts: seq<Token>, depth: nat, p: nat, end: nat, min: Precedence)
    requires WellShaped(t) && p <= |ts| && Spells(ts, p, end, Print(t)) && end <= |ts|
    requires Level(t) > Rank(min) && Follow(ts, end) <= Rank(min)
    ensures var r := Expr(ts, depth, p, min); r.pos == end && Bare(r.node) == Cst(t)
  {
    hide Expr, ExprLoop, Cst, WellShaped, Follow, ReadOff, Bare, Print, Spells;
    LevelBounds(t);
    assert Print(t) + [] == Print(t);
    SpelledRead(t, ts, p, end, []);
    SpellsNothing(ts, ReadOff(t, ts, p).value.pos, end);
    TreeParses(t, ts, depth, p, min);
    LoopStops(ts, depth, ReadOff(t, ts, p).value, min);
    BareRead(t, ts, p);
  }

  lemma {:induction false} SpellsNothing(ts: seq<Token>, p: nat, end: nat)
    requires p <= |ts| && Spells(ts, p, end, [])
    ensures p == end
  {
  }

  // Tokens other than trivia and end markers stand where they are spelled.
  lemma {:induction false} KeptSpells(ts: seq<Token>, p: nat) returns (end: nat)
    requires p <= |ts| && forall i :: p <= i < |ts| ==> !ts[i].kind.Eof?
    ensures p <= end <= |ts| && Spells(ts, p, end, Kept(false, ts[p..]))
    ensures forall i :: end <= i < |ts| ==> IsTrivia(ts[i].kind)
    decreases |ts| - p
  {
    hide Kept, SkipTrivia;
    var q := SkipTrivia(ts, p);
    SkipKeepsNothing(ts, p);
    SkippedAreTrivia(ts, p);
    assert ts[p..] == ts[p..q] + ts[q..];
    KeptAdd(false, ts[p..q], ts[q..]);
    if q == |ts| {
      end := p;
      KeptNone(false, ts[q..]);
    } else {
      assert ts[q..] == [ts[q]] + ts[q + 1..];
      KeptAdd(false, [ts[q]], ts[q + 1..]);
      KeptOne(false, ts[q]);
      end := KeptSpells(ts, q + 1);
      var want := Kept(false, ts[p..]);
      assert want == [ts[q]] + Kept(false, ts[q + 1..]);
      assert want[1..] == Kept(false, ts[q + 1..]);
    }
  }

  /**
   Any token sequence whose tokens, less trivia, are those of a well-shaped tree parses to that tree, less trivia, and
   only trivia is left over.
   */
  lemma {:induction false} TokensRoundTrip(t: Tree, ts: seq<Token>, depth: nat)
    requires WellShaped(t) && Kept(false, ts) == Print(t) && forall i :: 0 <= i < |ts| ==> !ts[i].kind.Eof?
    ensures var r := Expr(ts, depth, 0, NoPrec);
      Bare(r.node) == Cst(t) && forall i :: r.pos <= i < |ts| ==> IsTrivia(ts[i].kind)
  {
    hide Expr, Cst, WellShaped, Kept, Spells, Bare, Follow;
    LevelBounds(t);
    assert ts[0..] == ts;
    var end := KeptSpells(ts, 0);
    OnlyTriviaLeft(ts, end);
    SpacedRoundTrip(t, ts, depth, 0, end, NoPrec);
  }

  lemma {:induction false} OnlyTriviaLeft(ts: seq<Token>, p: nat)
    requires p <= |ts| && forall i :: p <= i < |ts| ==> IsTrivia(ts[i].kind)
    ensures Follow(ts, p) == 0
  {
  }

  predicate NoTrivia(ts: seq<Token>, p: nat, q: nat) {
    forall i :: p <= i < q <= |ts| ==> !IsTrivia(ts[i].kind)
  }

  /** Where there is no trivia nothing but the tree is read off. */
  lemma {:induction false} CleanRead(t: Tree, ts: seq<Token>, p: nat)
    requires p <= |ts| && ReadOff(t, ts, p).Some? && NoTrivia(ts, p, ReadOff(t, ts, p).value.pos)
    ensures ReadOff(t, ts, p).value.node == Cst(t)
    decreases t
  {
    hide ReadOff;
    var none: seq<Element> := [];
    assert forall q: nat :: q <= |ts| ==> Leaves(ts[q..q]) == none;
    match t {
      case Atom(tok) =>
        AtomRead(t, ts, p);
        CleanSkip(ts, p, ReadOff(t, ts, p).value.pos);
        assert none + [Leaf(tok)] == [Leaf(tok)];
      case Paren(open, inner, close) =>
        ParenRead(t, ts, p);
        var end := ReadOff(t, ts, p).value.pos;
        CleanSkip(ts, p, end);
        var x := ReadOff(inner, ts, p + 1).value;
        CleanSkip(ts, x.pos, end);
        CleanRead(inner, ts, p + 1);
        assert none + [Leaf(open), Sub(x.node)] + none + [Leaf(close)] == [Leaf(open), Sub(x.node), Leaf(close)];
      case Unary(op, operand) =>
        UnaryRead(t, ts, p);
        CleanSkip(ts, p, ReadOff(t, ts, p).value.pos);
        CleanRead(operand, ts, p + 1);
        assert none + [Leaf(op), Sub(ReadOff(operand, ts, p + 1).value.node)] ==
               [Leaf(op), Sub(ReadOff(operand, ts, p + 1).value.node)];
      case Infix(left, op, right) =>
        InfixRead(t, ts, p);
        var l := ReadOff(left, ts, p).value;
        CleanSkip(ts, l.pos, ReadOff(t, ts, p).value.pos);
        CleanRead(left, ts, p);
        CleanRead(right, ts, l.pos + 1);
    }
  }

  lemma {:induction false} CleanSkip(ts: seq<Token>, p: nat, end: nat)
    requires p < end <= |ts| && NoTrivia(ts, p, end)
    ensures SkipTrivia(ts, p) == p
  {
    assert !IsTrivia(ts[p].kind);
  }

  lemma {:induction false} TreeKinds(k: TokenKind)
    requires AtomKind(k) || NameKind(k) || PrefixKind(k) || InfixKind(k) || k.OpenParen? || k.CloseParen?
    ensures !IsTrivia(k)
  {
    hide FromKind;
    if InfixKind(k) {
      InfixIsBinary(k);
    }
  }

  // Printed tokens are no trivia.
  lemma {:induction false} PrintClean(t: Tree, i: nat)
    requires WellShaped(t) && i < |Print(t)|
    ensures !IsTrivia(Print(t)[i].kind)
    decreases t
  {
    hide InfixKind, AtomKind, NameKind, PrefixKind, FromKind, IsTrivia, Print;
    PrintIs(t, []);
    assert Print(t) + [] == Print(t);
    match t {
      case Atom(tok) =>
        TreeKinds(tok.kind);
      case Paren(open, inner, close) =>
        TreeKinds(open.kind);
        TreeKinds(close.kind);
        assert [close] + [] == [close];
        if 0 < i < |Print(t)| - 1 {
          PrintClean(inner, i - 1);
        }
      case Unary(op, x) =>
        TreeKinds(op.kind);
        assert Print(x) + [] == Print(x);
        if i > 0 {
          PrintClean(x, i - 1);
        }
      case Infix(l, op, r) =>
        TreeKinds(op.kind);
        assert Print(r) + [] == Print(r);
        if i < |Print(l)| {
          PrintClean(l, i);
        } else if i > |Print(l)| {
          PrintClean(r, i - |Print(l)| - 1);
        }
    }
  }

  lemma {:induction false} CleanSpells(ts: seq<Token>, p: nat, want: seq<Token>)
    requires p + |want| <= |ts| && ts[p..p + |want|] == want && NoTrivia(ts, p, p + |want|)
    ensures Spells(ts, p, p + |want|, want)
    decreases |want|
  {
    if want != [] {
      CleanSkip(ts, p, p + |want|);
      assert ts[p..p + |want|][0] == want[0] && ts[p + 1..p + |want|] == ts[p..p + |want|][1..];
      CleanSpells(ts, p + 1, want[1..]);
    }
  }

  /**
   Round trip: a well-shaped tree, printed and parsed, is that tree, and parsing stops exactly at its end,
   whatever follows that does not bind more tightly than `min`.
   */
  lemma {:induction false} RoundTrip(t: Tree, rest: seq<Token>, depth: nat, min: Precedence)
    requires WellShaped(t) && Level(t) > Rank(min) && Follow(Print(t) + rest, |Print(t)|) <= Rank(min)
    ensures Expr(Print(t) + rest, depth, 0, min) == Parsed(Cst(t), |Print(t)|)
  {
    hide Expr, ExprLoop, Cst, WellShaped, Follow, Print, ReadOff, Spells;
    LevelBounds(t);
    var ts, n := Print(t) + rest, |Print(t)|;
    assert ts[0..n] == Print(t);
    forall i | 0 <= i < n
      ensures !IsTrivia(ts[i].kind)
    {
      PrintClean(t, i);
      assert ts[i] == Print(t)[i];
    }
    CleanSpells(ts, 0, Print(t));
    assert Print(t) + [] == Print(t);
    SpelledRead(t, ts, 0, n, []);
    SpellsNothing(ts, ReadOff(t, ts, 0).value.pos, n);
    TreeParses(t, ts, depth, 0, min);
    LoopStops(ts, depth, ReadOff(t, ts, 0).value, min);
    CleanRead(t, ts, 0);
  }

  lemma {:induction false} WholeInput(t: Tree, depth: nat)
    requires WellShaped(t)
    ensures Expr(Print(t), depth, 0, NoPrec) == Parsed(Cst(t), |Print(t)|)
  {
    hide Expr, Cst, WellShaped;
    LevelBounds(t);
    assert Print(t) + [] == Print(t);
    RoundTrip(t, [], depth, NoPrec);
  }

  lemma {:induction false} CstDetermines(t: Tree, u: Tree)
    requires Cst(t) == Cst(u)
    ensures t == u
    decreases t
  {
    match t {
      case Atom(_) =>
        assert t.tok == Cst(t).children[0].token;
      case Paren(open, inner, close) =>
        assert Cst(u).children == [Leaf(open), Sub(Cst(inner)), Leaf(close)];
        assert Cst(t).children[1] == Sub(Cst(u.inner)) && Cst(t).children[0] == Leaf(u.open)
            && Cst(t).children[2] == Leaf(u.close);
        CstDetermines(inner, u.inner);
      case Unary(op, x) =>
        assert Cst(t).children[1] == Sub(Cst(u.operand)) && Cst(t).children[0] == Leaf(u.op);
        CstDetermines(x, u.operand);
      case Infix(l, op, r) =>
        assert Cst(t).children[0] == Sub(Cst(u.left)) && Cst(t).children[1] == Leaf(u.op)
            && Cst(t).children[2] == Sub(Cst(u.right));
        CstDetermines(l, u.left);
        CstDetermines(r, u.right);
    }
  }

  /** Well-shaped trees with the same tokens are the same tree: the grammar is unambiguous on them. */
  lemma {:induction false} PrintDetermines(t: Tree, u: Tree)
    requires WellShaped(t) && WellShaped(u) && Print(t) == Print(u)
    ensures t == u
  {
    hide Expr, Cst, WellShaped, Print;
    WholeInput(t, 0);
    WholeInput(u, 0);
    CstDetermines(t, u);
  }

  // ---- Minimal parentheses ----

  function Wrap(t: Tree, open: Token, close: Token, needed: bool): Tree {
    if needed then Paren(open, t, close) else t
  }

  /** Adds parentheses where, and only where, the shape needs them. */
  function Minimal(t: Tree, open: Token, close: Token): Tree {
    match t
    case Atom(_) => t
    case Paren(o, inner, c) => Paren(o, Minimal(inner, open, close), c)
    case Unary(op, x) =>
      var m := Minimal(x, open, close);
      Unary(op, Wrap(m, open, close, Level(m) <= Rank(Prefix)))
    case Infix(l, op, r) =>
      var a, b := Minimal(l, open, close), Minimal(r, open, close);
      Infix(Wrap(a, open, close, Level(a) < Rank(FromKind(op.kind))), op,
            Wrap(b, open, close, Level(b) <= Rank(FromKind(op.kind))))
  }

  /** The operators and atoms alone. */
  function Strip(t: Tree): Tree {
    match t
    case Atom(_) => t
    case Paren(_, inner, _) => Strip(inner)
    case Unary(op, x) => Unary(op, Strip(x))
    case Infix(l, op, r) => Infix(Strip(l), op, Strip(r))
  }

  lemma {:induction false} MinimalFits(t: Tree, open: Token, close: Token)
    requires KindsFit(t) && open.kind.OpenParen? && close.kind.CloseParen?
    ensures WellShaped(Minimal(t, open, close)) && Strip(Minimal(t, open, close)) == Strip(t)
    ensures Level(Minimal(t, open, close)) == Level(t)
    ensures WellShaped(t) ==> Minimal(t, open, close) == t
    decreases t
  {
    hide InfixKind, PrefixKind, AtomKind, NameKind, FromKind;
    match t {
      case Atom(_) =>
      case Paren(_, inner, _) =>
        MinimalFits(inner, open, close);
      case Unary(op, x) =>
        MinimalFits(x, open, close);
      case Infix(l, op, r) =>
        MinimalFits(l, open, close);
        MinimalFits(r, open, close);
        AtomBindsTightest(op.kind);
    }
  }

  lemma {:induction false} AtomBindsTightest(k: TokenKind)
    requires InfixKind(k)
    ensures Rank(FromKind(k)) < ATOM_LEVEL
  {
  }

  /** Any operator tree, printed with minimal parentheses, parses to that tree with just those parentheses. */
  lemma {:induction false} MinimalRoundTrip(t: Tree, open: Token, close: Token, depth: nat)
    requires KindsFit(t) && open.kind.OpenParen? && close.kind.CloseParen?
    ensures var m := Minimal(t, open, close);
            Expr(Print(m), depth, 0, NoPrec) == Parsed(Cst(m), |Print(m)|) && Strip(m) == Strip(t)
  {
    hide Expr, Cst, WellShaped, Minimal;
    MinimalFits(t, open, close);
    WholeInput(Minimal(t, open, close), depth);
  }
}
