/**
 White space and comments where they change the tree: which of them a tree of operators holds, and what they
 do between the two brackets of an empty list.
 */
module ParseSpaces {
  import opened Tokens
  import opened ParseSpec
  import opened ParseFacts
  import opened ParseTrees

  // ---- Trivia before an infix operator ----

  /** The last kind before `i` that is not trivia; an end marker if there is none. */
  function KindBefore(ts: seq<Token>, i: nat): TokenKind
    requires i <= |ts|
  {
    if i == 0 then Eof
    else if IsTrivia(ts[i - 1].kind) then KindBefore(ts, i - 1)
    else ts[i - 1].kind
  }

  predicate OperandEnd(k: TokenKind) {
    AtomKind(k) || NameKind(k) || k.CloseParen?
  }

  /** Trivia between an operand and an infix operator that continues it. */
  predicate Gap(ts: seq<Token>, i: nat) {
    && i < |ts| && IsTrivia(ts[i].kind)
    && OperandEnd(KindBefore(ts, i)) && InfixKind(KindAt(ts, SkipTrivia(ts, i)))
  }

  /** The tokens from `p` to `end` that are in no gap. */
  function Outside(ts: seq<Token>, p: nat, end: nat): (r: seq<Token>)
    requires p <= end <= |ts|
    ensures |r| <= end - p
    decreases end
  {
    if p == end then []
    else Outside(ts, p, end - 1) + (if Gap(ts, end - 1) then [] else [ts[end - 1]])
  }

  lemma {:induction false} OutsideAdd(ts: seq<Token>, p: nat, q: nat, end: nat)
    requires p <= q <= end <= |ts|
    ensures Outside(ts, p, end) == Outside(ts, p, q) + Outside(ts, q, end)
    decreases end
  {
    hide Gap;
    if q < end {
      OutsideAdd(ts, p, q, end - 1);
    }
  }

  lemma {:induction false} OutsideOne(ts: seq<Token>, q: nat)
    requires q < |ts|
    ensures Outside(ts, q, q + 1) == if Gap(ts, q) then [] else [ts[q]]
  {
    hide Gap;
    assert Outside(ts, q, q) == [];
  }

  // A run of trivia that is or is not a gap, all of it.
  lemma {:induction false} OutsideRun(ts: seq<Token>, p: nat)
    requires p <= |ts|
    ensures var q := SkipTrivia(ts, p);
      Outside(ts, p, q) == if OperandEnd(KindBefore(ts, p)) && InfixKind(KindAt(ts, q)) then [] else ts[p..q]
    ensures KindBefore(ts, SkipTrivia(ts, p)) == KindBefore(ts, p)
    decreases |ts| - p
  {
    hide OperandEnd, InfixKind;
    if IsTrivia(KindAt(ts, p)) {
      var q := SkipTrivia(ts, p);
      OutsideRun(ts, p + 1);
      assert KindBefore(ts, p + 1) == KindBefore(ts, p);
      OutsideAdd(ts, p, p + 1, q);
      OutsideOne(ts, p);
      assert ts[p..q] == [ts[p]] + ts[p + 1..q];
    } else {
      assert ts[p..p] == [];
    }
  }

  lemma {:induction false} NotGap(ts: seq<Token>, q: nat)
    requires q < |ts| && !IsTrivia(ts[q].kind)
    ensures Outside(ts, q, q + 1) == [ts[q]] && KindBefore(ts, q + 1) == ts[q].kind
  {
    OutsideOne(ts, q);
  }

  lemma {:induction false} OperandsBindNothing(k: TokenKind)
    requires OperandEnd(k)
    ensures FromKind(k).NoPrec?
  {
  }

  lemma {:induction false} OperandsArePlain(k: TokenKind)
    requires OperandEnd(k)
    ensures !PrefixKind(k) && !k.OpenParen? && !k.Eof?
  {
  }

  // Operators and opening parentheses end no operand, and closing parentheses are no operator.
  lemma {:induction false} KindsApart(k: TokenKind)
    ensures InfixKind(k) || PrefixKind(k) || k.OpenParen? || k.Eof? ==> !OperandEnd(k)
    ensures k.CloseParen? ==> !InfixKind(k) && OperandEnd(k)
    ensures AtomKind(k) || NameKind(k) ==> OperandEnd(k)
  {
    hide FromKind, PrefixKind, AtomKind, NameKind;
    if OperandEnd(k) {
      OperandsBindNothing(k);
      OperandsArePlain(k);
    }
  }

  lemma {:induction false} YieldLeaves(es: seq<Element>, more: seq<Token>)
    ensures YieldList(es + Leaves(more)) == YieldList(es) + more
    decreases |more|
  {
    hide YieldList;
    if more == [] {
      assert es + Leaves(more) == es;
    } else {
      var n := |more| - 1;
      YieldLeaves(es, more[..n]);
      assert es + Leaves(more) == es + Leaves(more[..n]) + [Leaf(more[n])];
      YieldOne(es + Leaves(more[..n]), Leaf(more[n]));
      assert more == more[..n] + [more[n]];
    }
  }

  lemma {:induction false} YieldOne(es: seq<Element>, e: Element)
    ensures YieldList(es + [e]) == YieldList(es) + YieldOf(e)
  {
    hide YieldOf;
    assert (es + [e])[..|es|] == es;
  }

  lemma {:induction false} YieldLead(lead: seq<Token>, a: Element, b: Element)
    ensures YieldList(Leaves(lead) + [a]) == lead + YieldOf(a)
    ensures YieldList(Leaves(lead) + [a, b]) == lead + YieldOf(a) + YieldOf(b)
  {
    hide YieldList, YieldOf;
    assert [] + Leaves(lead) == Leaves(lead);
    YieldLeaves([], lead);
    YieldNothing();
    YieldOne(Leaves(lead), a);
    YieldOne(Leaves(lead) + [a], b);
    assert Leaves(lead) + [a, b] == Leaves(lead) + [a] + [b];
  }

  lemma {:induction false} YieldNothing()
    ensures YieldList([]) == []
  {
  }

  /** What is read off holds exactly the tokens in no gap, and ends like an operand. */
  lemma {:induction false} YieldRead(t: Tree, ts: seq<Token>, p: nat)
    requires KindsFit(t) && p <= |ts| && ReadOff(t, ts, p).Some? && !OperandEnd(KindBefore(ts, p))
    ensures var r := ReadOff(t, ts, p).value;
      Yield(r.node) == Outside(ts, p, r.pos) && OperandEnd(KindBefore(ts, r.pos))
    decreases t, 1
  {
    hide ReadOff, Yield, YieldList, Outside, OperandEnd, KindBefore, SkipTrivia, InfixKind, PrefixKind, AtomKind,
        NameKind;
    var q := SkipTrivia(ts, p);
    OutsideRun(ts, p);
    match t {
      case Atom(tok) =>
        AtomRead(t, ts, p);
        KindsApart(tok.kind);
        NotGap(ts, q);
        OutsideAdd(ts, p, q, q + 1);
        YieldLead(ts[p..q], Leaf(tok), Leaf(tok));
        YieldNode(ReadOff(t, ts, p).value.node);
      case Paren(_, _, _) => YieldParen(t, ts, p);
      case Unary(op, x) =>
        UnaryRead(t, ts, p);
        KindsApart(op.kind);
        NotGap(ts, q);
        YieldRead(x, ts, q + 1);
        var r := ReadOff(x, ts, q + 1).value;
        OutsideAdd(ts, p, q, q + 1);
        OutsideAdd(ts, p, q + 1, r.pos);
        YieldLead(ts[p..q], Leaf(op), Sub(r.node));
        YieldNode(ReadOff(t, ts, p).value.node);
      case Infix(_, _, _) => YieldInfix(t, ts, p);
    }
  }

  lemma {:induction false} YieldParen(t: Tree, ts: seq<Token>, p: nat)
    requires t.Paren? && KindsFit(t) && p <= |ts| && ReadOff(t, ts, p).Some? && !OperandEnd(KindBefore(ts, p))
    ensures var r := ReadOff(t, ts, p).value;
      Yield(r.node) == Outside(ts, p, r.pos) && OperandEnd(KindBefore(ts, r.pos))
    decreases t, 0
  {
    hide ReadOff, Yield, YieldList, Outside, OperandEnd, KindBefore, SkipTrivia, InfixKind;
    ParenRead(t, ts, p);
    var q := SkipTrivia(ts, p);
    var x := ReadOff(t.inner, ts, q + 1).value;
    var e := SkipTrivia(ts, x.pos);
    var front := Leaves(ts[p..q]) + [Leaf(t.open), Sub(x.node)];
    OutsideRun(ts, p);
    OutsideRun(ts, x.pos);
    KindsApart(t.open.kind);
    KindsApart(t.close.kind);
    NotGap(ts, q);
    NotGap(ts, e);
    YieldRead(t.inner, ts, q + 1);
    OutsideAdd(ts, p, q, q + 1);
    OutsideAdd(ts, p, q + 1, x.pos);
    OutsideAdd(ts, p, x.pos, e);
    OutsideAdd(ts, p, e, e + 1);
    YieldLead(ts[p..q], Leaf(t.open), Sub(x.node));
    YieldLeaves(front, ts[x.pos..e]);
    YieldOne(front + Leaves(ts[x.pos..e]), Leaf(t.close));
    YieldNode(ReadOff(t, ts, p).value.node);
  }

  lemma {:induction false} YieldInfix(t: Tree, ts: seq<Token>, p: nat)
    requires t.Infix? && KindsFit(t) && p <= |ts| && ReadOff(t, ts, p).Some? && !OperandEnd(KindBefore(ts, p))
    ensures var r := ReadOff(t, ts, p).value;
      Yield(r.node) == Outside(ts, p, r.pos) && OperandEnd(KindBefore(ts, r.pos))
    decreases t, 0
  {
    hide ReadOff, Yield, YieldList, Outside, OperandEnd, KindBefore, SkipTrivia, InfixKind;
    InfixRead(t, ts, p);
    var l := ReadOff(t.left, ts, p).value;
    var e := SkipTrivia(ts, l.pos);
    var r := ReadOff(t.right, ts, e + 1).value;
    YieldRead(t.left, ts, p);
    OutsideRun(ts, l.pos);
    KindsApart(t.op.kind);
    NotGap(ts, e);
    YieldRead(t.right, ts, e + 1);
    OutsideAdd(ts, p, l.pos, e);
    OutsideAdd(ts, p, e, e + 1);
    OutsideAdd(ts, p, e + 1, r.pos);
    var es := [Sub(l.node), Leaf(t.op), Sub(r.node)];
    YieldLead([], Sub(l.node), Leaf(t.op));
    assert Leaves([]) + [Sub(l.node), Leaf(t.op)] == [Sub(l.node), Leaf(t.op)];
    YieldOne([Sub(l.node), Leaf(t.op)], Sub(r.node));
    assert [Sub(l.node), Leaf(t.op)] + [Sub(r.node)] == es;
    YieldNode(ReadOff(t, ts, p).value.node);
  }

  lemma {:induction false} OutsideAll(ts: seq<Token>, p: nat, end: nat)
    requires p <= end <= |ts|
    ensures Outside(ts, p, end) == ts[p..end] <==> forall i: nat :: p <= i < end ==> !Gap(ts, i)
    decreases end
  {
    hide Gap;
    if p < end {
      OutsideAll(ts, p, end - 1);
      assert ts[p..end] == ts[p..end - 1] + [ts[end - 1]];
      if Gap(ts, end - 1) {
        assert |Outside(ts, p, end)| < end - p;
      } else if Outside(ts, p, end) == ts[p..end] {
        assert Outside(ts, p, end)[..end - 1 - p] == ts[p..end - 1];
      }
    }
  }

  /**
   For every operator tree and any trivia: the parse holds exactly the tokens consumed less those in gaps.  So
   the promise that no token is lost is kept if and only if no trivia stands before an infix operator.
   */
  lemma {:induction false} LosslessIff(t: Tree, ts: seq<Token>, depth: nat, end: nat, min: Precedence)
    requires WellShaped(t) && Spells(ts, 0, end, Print(t)) && end <= |ts|
    requires Level(t) > Rank(min) && Follow(ts, end) <= Rank(min)
    ensures var r := Expr(ts, depth, 0, min);
      && r.pos == end && Yield(r.node) == Outside(ts, 0, end)
      && (Yield(r.node) == ts[..end] <==> forall i: nat :: i < end ==> !Gap(ts, i))
  {
    hide Expr, ExprLoop, WellShaped, Follow, ReadOff, Print, Spells, Yield, Outside, Gap, OperandEnd, KindsFit;
    LevelBounds(t);
    assert Print(t) + [] == Print(t);
    SpelledRead(t, ts, 0, end, []);
    SpellsNothing(ts, ReadOff(t, ts, 0).value.pos, end);
    TreeParses(t, ts, depth, 0, min);
    LoopStops(ts, depth, ReadOff(t, ts, 0).value, min);
    ShapedFits(t);
    KindsApart(Eof);
    YieldRead(t, ts, 0);
    OutsideAll(ts, 0, end);
    assert ts[0..end] == ts[..end];
  }

  lemma {:induction false} ShapedFits(t: Tree)
    requires WellShaped(t)
    ensures KindsFit(t)
    decreases t
  {
    hide InfixKind, PrefixKind, AtomKind, NameKind;
    match t
    case Atom(_) =>
    case Paren(_, inner, _) => ShapedFits(inner);
    case Unary(_, x) => ShapedFits(x);
    case Infix(l, _, r) => ShapedFits(l); ShapedFits(r);
  }

  // ---- Trivia between the brackets of an empty list ----

  // What an expression starts with where a closing bracket stands: an error node that takes the bracket.
  function ErrorAt(ts: seq<Token>, p: nat, r: nat): Parsed
    requires p <= r < |ts|
  {
    Parsed(Node(ErrorNode, Leaves(ts[p..r]) + [Leaf(ts[r])]), r + 1)
  }

  predicate Closer(k: TokenKind) {
    k.CloseParen? || k.CloseBrace? || k.Gt?
  }

  lemma {:induction false} CloserPrimary(ts: seq<Token>, depth: nat, p: nat, min: Precedence)
    requires p <= |ts| && SkipTrivia(ts, p) < |ts| && Closer(ts[SkipTrivia(ts, p)].kind)
    ensures Primary(ts, depth, p) == ErrorAt(ts, p, SkipTrivia(ts, p))
    ensures Expr(ts, depth, p, min) == ExprLoop(ts, depth, ErrorAt(ts, p, SkipTrivia(ts, p)), min)
  {
    hide Expr, ExprLoop, MacroForm, BindForm, MacroFollows, Ahead, SkipTrivia;
    var r := SkipTrivia(ts, p);
    assert [] + Leaves(ts[p..r]) == Leaves(ts[p..r]);
    ExprIs(ts, depth, p, min);
  }

  // A list under way only gets longer.
  lemma {:induction false} ArgsGrow(ts: seq<Token>, depth: nat, c: Partial)
    requires c.pos <= |ts|
    ensures c.elems <= CallArgs(ts, depth, c).elems
    decreases |ts| - c.pos
  {
    hide CallArg, SkipTrivia;
    if !KindAt(ts, c.pos).CloseParen? && !KindAt(ts, c.pos).Eof? {
      ArgsGrow(ts, depth, AfterArg(ts, Attach(c, CallArg(ts, depth, c.pos))));
    }
  }

  lemma {:induction false} FieldsGrow(ts: seq<Token>, depth: nat, c: Partial)
    requires c.pos <= |ts|
    ensures c.elems <= StructFields(ts, depth, c).elems
    decreases |ts| - c.pos
  {
    hide Expr, SkipTrivia, Ahead, FieldValue, AfterField;
    if !KindAt(ts, c.pos).CloseBrace? && !KindAt(ts, c.pos).Eof? {
      OneOn(ts, depth, c.pos, NoPrec);
      var name := Eat(ts, Attach(c, Expr(ts, depth, c.pos, NoPrec)));
      ValueGrows(ts, depth, name);
      FieldsGrow(ts, depth, AfterField(ts, FieldValue(ts, depth, name)));
    }
  }

  lemma {:induction false} TypesGrow(ts: seq<Token>, depth: nat, c: Partial, close: TokenKind)
    requires c.pos <= |ts|
    ensures c.elems <= TypeArgList(ts, depth, c, close).elems
    decreases |ts| - c.pos
  {
    hide Expr, SkipTrivia, Ahead;
    if KindAt(ts, c.pos) != close && !KindAt(ts, c.pos).Eof? {
      var arg := Expr(ts, depth, c.pos, Comparison);
      OneOn(ts, depth, c.pos, Comparison);
      var e := Eat(ts, Partial(c.elems + [Sub(Node(GenericArg, [Sub(arg.node)]))], arg.pos));
      TypesGrow(ts, depth, Eat(ts, PushIf(ts, e, Comma)), close);
    }
  }

  // An expression takes at least one token unless at the end.
  lemma {:induction false} OneOn(ts: seq<Token>, depth: nat, p: nat, min: Precedence)
    requires p <= |ts| && !KindAt(ts, p).Eof?
    ensures p < Expr(ts, depth, p, min).pos <= |ts|
  {
    hide Expr;
    AheadMeans(ts, p, Expr(ts, depth, p, min).pos);
  }

  lemma {:induction false} SkipPast(ts: seq<Token>, p: nat)
    requires p <= |ts|
    ensures p < SkipTrivia(ts, p) <==> p < |ts| && IsTrivia(ts[p].kind)
  {
  }

  // The first argument after an opening parenthesis with trivia behind it.
  lemma {:induction false} SpacedArg(ts: seq<Token>, depth: nat, p: nat)
    requires p < |ts| && IsTrivia(ts[p].kind) && SkipTrivia(ts, p) < |ts| && ts[SkipTrivia(ts, p)].kind.CloseParen?
    ensures var r := SkipTrivia(ts, p);
      CallArg(ts, depth, p).node ==
        Node(ArgNode, Leaves(ts[p..r]) + [Sub(ExprLoop(ts, depth, ErrorAt(ts, r, r), NoPrec).node)])
  {
    hide Expr, ExprLoop, Ahead, Label, SkipTrivia, IsTrivia, Primary;
    var r := SkipTrivia(ts, p);
    SettledAt(ts, r);
    CloserPrimary(ts, depth, r, NoPrec);
    assert [] + Leaves(ts[p..r]) == Leaves(ts[p..r]);
    assert Eat(ts, Partial([], p)) == Partial(Leaves(ts[p..r]), r);
    assert !Labelled(ts, r);
  }

  lemma {:induction false} SettledAt(ts: seq<Token>, r: nat)
    requires r < |ts| && Closer(ts[r].kind)
    ensures SkipTrivia(ts, r) == r
  {
  }

  /**
   A call with nothing but trivia between its parentheses, whatever it is called on and whatever follows: the
   argument list is empty and ends at that closing parenthesis if and only if there is no trivia.  If there is
   some, the parenthesis lies in an error node that starts the first argument.
   */
  lemma {:induction false} CallSpacing(ts: seq<Token>, depth: nat, lhs: Node, q: nat)
    requires q < |ts| && ts[q].kind.OpenParen?
    requires SkipTrivia(ts, q + 1) < |ts| && ts[SkipTrivia(ts, q + 1)].kind.CloseParen?
    ensures var r := SkipTrivia(ts, q + 1);
      var n := PostfixForm(ts, depth, lhs, q);
      && (n == Parsed(Node(CallExpr, [Sub(lhs), Leaf(ts[q]), Leaf(ts[r])]), r + 1) <==> r == q + 1)
      && (r > q + 1 ==>
            |n.node.children| >= 3
            && n.node.children[2] == Sub(Node(ArgNode, Leaves(ts[q + 1..r])
                                 + [Sub(ExprLoop(ts, depth, ErrorAt(ts, r, r), NoPrec).node)])))
  {
    hide Expr, ExprLoop, Ahead, SkipTrivia, CallArg, CallArgs, FromKind;
    var r := SkipTrivia(ts, q + 1);
    var c := Partial([Sub(lhs), Leaf(ts[q])], q + 1);
    CallOpens(ts, depth, lhs, q);
    SkipPast(ts, q + 1);
    ArgsFirst(ts, depth, c);
    if r == q + 1 {
      assert c.elems + [Leaf(ts[r])] == [Sub(lhs), Leaf(ts[q]), Leaf(ts[r])];
    } else {
      SpacedArg(ts, depth, q + 1);
      var d := AfterArg(ts, Attach(c, CallArg(ts, depth, q + 1)));
      ArgsGrow(ts, depth, d);
      assert d.elems[2] == Sub(CallArg(ts, depth, q + 1).node);
    }
  }

  lemma {:induction false} CallOpens(ts: seq<Token>, depth: nat, lhs: Node, q: nat)
    requires q < |ts| && ts[q].kind.OpenParen?
    ensures FromKind(ts[q].kind) != NoPrec
    ensures PostfixForm(ts, depth, lhs, q) ==
            Close(CallExpr, PushIf(ts, CallArgs(ts, depth, Partial([Sub(lhs), Leaf(ts[q])], q + 1)), CloseParen))
  {
    hide CallArgs, PathTail, StructFields, BangTail, Expr, Eat, Ahead, PushIf;
    EatNone(ts, Partial([Sub(lhs)], q));
    assert Push(ts, Partial([Sub(lhs)], q)) == Partial([Sub(lhs), Leaf(ts[q])], q + 1);
  }

  // `CallArgs`, one step unfolded.
  lemma {:induction false} ArgsFirst(ts: seq<Token>, depth: nat, c: Partial)
    requires c.pos < |ts|
    ensures ts[c.pos].kind.CloseParen? ==> CallArgs(ts, depth, c) == c
    ensures IsTrivia(ts[c.pos].kind) ==>
      CallArgs(ts, depth, c) == CallArgs(ts, depth, AfterArg(ts, Attach(c, CallArg(ts, depth, c.pos))))
  {
    hide CallArg, AfterArg, Attach;
  }

  /**
   The same for a structure literal: with trivia between its braces the closing one starts a field name, as an error.
   */
  lemma {:induction false} StructSpacing(ts: seq<Token>, depth: nat, lhs: Node, q: nat)
    requires q < |ts| && ts[q].kind.OpenBrace?
    requires SkipTrivia(ts, q + 1) < |ts| && ts[SkipTrivia(ts, q + 1)].kind.CloseBrace?
    ensures var r := SkipTrivia(ts, q + 1);
      var n := PostfixForm(ts, depth, lhs, q);
      && (n == Parsed(Node(StructLiteral, [Sub(lhs), Leaf(ts[q]), Leaf(ts[r])]), r + 1) <==> r == q + 1)
      && (r > q + 1 ==>
            |n.node.children| >= 3
            && n.node.children[2] == Sub(ExprLoop(ts, depth, ErrorAt(ts, q + 1, r), NoPrec).node))
  {
    hide Expr, ExprLoop, Ahead, SkipTrivia, StructFields, FieldValue, FromKind, PostfixForm, Closer;
    var r := SkipTrivia(ts, q + 1);
    var c := Partial([Sub(lhs), Leaf(ts[q])], q + 1);
    BraceOpens(ts, depth, lhs, q);
    SkipPast(ts, q + 1);
    NoFields(ts, depth, c);
    assert Closer(ts[r].kind) by { Closers(ts[r].kind); }
    if r == q + 1 {
      assert c.elems + [Leaf(ts[r])] == [Sub(lhs), Leaf(ts[q]), Leaf(ts[r])];
    } else {
      CloserPrimary(ts, depth, q + 1, NoPrec);
      FirstField(ts, depth, c);
      assert [Sub(lhs), Leaf(ts[q]), Leaf(ts[r])][2] == Leaf(ts[r]);
    }
  }

  lemma {:induction false} ValueGrows(ts: seq<Token>, depth: nat, name: Partial)
    requires name.pos <= |ts|
    ensures name.elems <= FieldValue(ts, depth, name).elems
    ensures name.elems <= AfterField(ts, FieldValue(ts, depth, name)).elems
  {
    hide Expr, SkipTrivia;
  }

  lemma {:induction false} BraceOpens(ts: seq<Token>, depth: nat, lhs: Node, q: nat)
    requires q < |ts| && ts[q].kind.OpenBrace?
    ensures FromKind(ts[q].kind) != NoPrec
    ensures PostfixForm(ts, depth, lhs, q) ==
            Close(StructLiteral,
                PushIf(ts, StructFields(ts, depth, Partial([Sub(lhs), Leaf(ts[q])], q + 1)), CloseBrace))
  {
    hide CallArgs, PathTail, StructFields, BangTail, Expr, Eat, Ahead, PushIf;
    EatNone(ts, Partial([Sub(lhs)], q));
    assert Push(ts, Partial([Sub(lhs)], q)) == Partial([Sub(lhs), Leaf(ts[q])], q + 1);
  }

  lemma {:induction false} Closers(k: TokenKind)
    requires k.CloseParen? || k.CloseBrace? || k.Gt?
    ensures Closer(k)
  {
  }

  lemma {:induction false} NoFields(ts: seq<Token>, depth: nat, c: Partial)
    requires c.pos < |ts|
    ensures ts[c.pos].kind.CloseBrace? ==> StructFields(ts, depth, c) == c
  {
  }

  lemma {:induction false} FirstField(ts: seq<Token>, depth: nat, c: Partial)
    requires c.pos < |ts| && IsTrivia(ts[c.pos].kind)
    ensures c.elems + [Sub(Expr(ts, depth, c.pos, NoPrec).node)] <= StructFields(ts, depth, c).elems
  {
    hide Expr, SkipTrivia, Ahead, FieldValue, AfterField;
    OneOn(ts, depth, c.pos, NoPrec);
    var name := Eat(ts, Attach(c, Expr(ts, depth, c.pos, NoPrec)));
    ValueGrows(ts, depth, name);
    FieldsGrow(ts, depth, AfterField(ts, FieldValue(ts, depth, name)));
  }

  /** The same for type arguments. */
  lemma {:induction false} TypeSpacing(ts: seq<Token>, depth: nat, p: nat)
    requires p < |ts| && ts[p].kind.Lt?
    requires SkipTrivia(ts, p + 1) < |ts| && ts[SkipTrivia(ts, p + 1)].kind.Gt?
    ensures var r := SkipTrivia(ts, p + 1);
      var n := TypeArgs(ts, depth, p);
      && (n == Parsed(Node(GenericArgs, [Leaf(ts[p]), Leaf(ts[r])]), r + 1) <==> r == p + 1)
      && (r > p + 1 ==>
            |n.node.children| >= 2
            && n.node.children[1] ==
               Sub(Node(GenericArg, [Sub(ExprLoop(ts, depth, ErrorAt(ts, p + 1, r), Comparison).node)])))
  {
    hide Expr, ExprLoop, Ahead, SkipTrivia, TypeArgList, TypeArgs, Closer;
    var r := SkipTrivia(ts, p + 1);
    var c := Partial([Leaf(ts[p])], p + 1);
    AngleOpens(ts, depth, p);
    SkipPast(ts, p + 1);
    NoTypes(ts, depth, c);
    assert Closer(ts[r].kind) by { Closers(ts[r].kind); }
    if r == p + 1 {
      assert c.elems + [Leaf(ts[r])] == [Leaf(ts[p]), Leaf(ts[r])];
    } else {
      CloserPrimary(ts, depth, p + 1, Comparison);
      FirstType(ts, depth, c);
      assert [Leaf(ts[p]), Leaf(ts[r])][1] == Leaf(ts[r]);
    }
  }

  lemma {:induction false} AngleOpens(ts: seq<Token>, depth: nat, p: nat)
    requires p < |ts| && ts[p].kind.Lt?
    ensures TypeArgs(ts, depth, p) ==
            Close(GenericArgs, PushIf(ts, TypeArgList(ts, depth, Partial([Leaf(ts[p])], p + 1), Gt), Gt))
  {
    hide TypeArgList, Eat, PushIf;
    EatNone(ts, Partial([], p));
    assert Push(ts, Partial([], p)) == Partial([Leaf(ts[p])], p + 1);
  }

  lemma {:induction false} NoTypes(ts: seq<Token>, depth: nat, c: Partial)
    requires c.pos < |ts|
    ensures ts[c.pos].kind.Gt? ==> TypeArgList(ts, depth, c, Gt) == c
  {
  }

  lemma {:induction false} FirstType(ts: seq<Token>, depth: nat, c: Partial)
    requires c.pos < |ts| && IsTrivia(ts[c.pos].kind)
    ensures c.elems + [Sub(Node(GenericArg, [Sub(Expr(ts, depth, c.pos, Comparison).node)]))]
            <= TypeArgList(ts, depth, c, Gt).elems
  {
    hide Expr, SkipTrivia, Ahead, PushIf;
    OneOn(ts, depth, c.pos, Comparison);
    var arg := Expr(ts, depth, c.pos, Comparison);
    var e := Eat(ts, Partial(c.elems + [Sub(Node(GenericArg, [Sub(arg.node)]))], arg.pos));
    CommaGrows(ts, e);
    TypesGrow(ts, depth, Eat(ts, PushIf(ts, e, Comma)), Gt);
  }

  lemma {:induction false} CommaGrows(ts: seq<Token>, e: Partial)
    requires e.pos <= |ts|
    ensures e.elems <= Eat(ts, PushIf(ts, e, Comma)).elems
  {
    hide SkipTrivia;
  }

  /**
   Not so for macro arguments, which skip the trivia: the list is empty however much there is, and every token is a
   leaf.
   */
  lemma {:induction false} MacroSpacing(ts: seq<Token>, depth: nat, d: Partial)
    requires d.pos <= |ts| && MacroFollows(ts, d.pos)
    requires var open := SkipTrivia(ts, SkipTrivia(ts, d.pos) + 1);
      var r := SkipTrivia(ts, open + 1);
      r < |ts| && (if ts[open].kind.OpenParen? then ts[r].kind.CloseParen? else ts[r].kind.CloseBracket?)
    ensures var r := SkipTrivia(ts, SkipTrivia(ts, SkipTrivia(ts, d.pos) + 1) + 1);
      MacroForm(ts, depth, d) == Parsed(Node(MacroCall, d.elems + Leaves(ts[d.pos..r + 1])), r + 1)
  {
    hide Expr, SkipTrivia, IsTrivia, MacroArgs, Ahead, Eat, Push, PushIf, Run, Leaves;
    var bang := SkipTrivia(ts, d.pos);
    var open := SkipTrivia(ts, bang + 1);
    var r := SkipTrivia(ts, open + 1);
    var close := if ts[open].kind.OpenParen? then CloseParen else CloseBracket;
    var a := Eat(ts, d);
    EatRun(ts, d, d.elems, d.pos);
    PushRun(ts, a, d.elems, d.pos);
    var b := Push(ts, a);
    EatRun(ts, b, d.elems, d.pos);
    var c := Eat(ts, b);
    PushRun(ts, c, d.elems, d.pos);
    EatRun(ts, Push(ts, c), d.elems, d.pos);
    var args := Eat(ts, Push(ts, c));
    MacroStops(ts, depth, args, close);
    PushRun(ts, args, d.elems, d.pos);
    RunIs(ts, Push(ts, args), d.elems, d.pos);
  }

  // `c` is `es` and then the tokens from `p` on, as leaves.
  predicate Run(ts: seq<Token>, c: Partial, es: seq<Element>, p: nat) {
    p <= c.pos <= |ts| && c.elems == es + Leaves(ts[p..c.pos])
  }

  lemma {:induction false} EatRun(ts: seq<Token>, c: Partial, es: seq<Element>, p: nat)
    requires c.pos <= |ts| && (Run(ts, c, es, p) || (c.elems == es && c.pos == p))
    ensures Run(ts, Eat(ts, c), es, p)
  {
    hide SkipTrivia;
    var q := SkipTrivia(ts, c.pos);
    assert ts[p..q] == ts[p..c.pos] + ts[c.pos..q];
    assert Leaves(ts[p..q]) == Leaves(ts[p..c.pos]) + Leaves(ts[c.pos..q]);
    assert ts[p..p] == [] && es + Leaves([]) == es;
  }

  lemma {:induction false} PushRun(ts: seq<Token>, c: Partial, es: seq<Element>, p: nat)
    requires Run(ts, c, es, p) && c.pos < |ts| && !ts[c.pos].kind.Eof?
    ensures Run(ts, Push(ts, c), es, p) && Push(ts, c).pos == c.pos + 1
  {
    assert ts[p..c.pos + 1] == ts[p..c.pos] + [ts[c.pos]];
    assert Leaves(ts[p..c.pos + 1]) == Leaves(ts[p..c.pos]) + [Leaf(ts[c.pos])];
  }

  lemma {:induction false} MacroStops(ts: seq<Token>, depth: nat, c: Partial, close: TokenKind)
    requires c.pos < |ts| && ts[c.pos].kind == close
    ensures MacroArgs(ts, depth, c, close) == c && PushIf(ts, c, close) == Push(ts, c)
  {
    hide Push;
  }

  lemma {:induction false} RunIs(ts: seq<Token>, c: Partial, es: seq<Element>, p: nat)
    requires Run(ts, c, es, p)
    ensures p <= c.pos <= |ts| && c.elems == es + Leaves(ts[p..c.pos])
  {
  }
}
