/** The expression grammar loses no token: what a tree holds is what was consumed, in order, up to trivia. */
module ParseFacts {
  import opened Tokens
  import opened ParseSpec

  // ---- Yields ----

  function Yield(n: Node): seq<Token>
    decreases n, 1
  {
    YieldAll(n, |n.children|)
  }

  // The tokens of the first `k` children.
  function YieldAll(n: Node, k: nat): seq<Token>
    requires k <= |n.children|
    decreases n, 0, k
  {
    if k == 0 then []
    else YieldAll(n, k - 1) + (match n.children[k - 1] case Leaf(t) => [t] case Sub(m) => Yield(m))
  }

  function YieldOf(e: Element): seq<Token> {
    match e
    case Leaf(t) => [t]
    case Sub(m) => Yield(m)
  }

  function YieldList(es: seq<Element>): seq<Token> {
    if es == [] then [] else YieldList(es[..|es| - 1]) + YieldOf(es[|es| - 1])
  }

  lemma {:induction false} YieldChildren(n: Node, k: nat)
    requires k <= |n.children|
    ensures YieldAll(n, k) == YieldList(n.children[..k])
    decreases k
  {
    if k > 0 {
      YieldChildren(n, k - 1);
      assert n.children[..k][..k - 1] == n.children[..k - 1];
    }
  }

  lemma YieldNode(n: Node)
    ensures Yield(n) == YieldList(n.children)
  {
    YieldChildren(n, |n.children|);
    assert n.children[..|n.children|] == n.children;
  }

  // ---- The tokens that matter ----

  // Which leaves are compared: all but end markers, or only those that are not trivia either.
  predicate Matters(all: bool, t: Token) {
    !t.kind.Eof? && (all || !IsTrivia(t.kind))
  }

  function Kept(all: bool, ts: seq<Token>): seq<Token> {
    if ts == [] then []
    else Kept(all, ts[..|ts| - 1]) + (if Matters(all, ts[|ts| - 1]) then [ts[|ts| - 1]] else [])
  }

  lemma {:induction false} KeptAdd(all: bool, a: seq<Token>, b: seq<Token>)
    ensures Kept(all, a + b) == Kept(all, a) + Kept(all, b)
    decreases |b|
  {
    if b == [] {
      assert a + b == a;
    } else {
      assert (a + b)[..|a + b| - 1] == a + b[..|b| - 1];
      KeptAdd(all, a, b[..|b| - 1]);
    }
  }

  lemma {:induction false} KeptNone(all: bool, ts: seq<Token>)
    requires forall i :: 0 <= i < |ts| ==> !Matters(all, ts[i])
    ensures Kept(all, ts) == []
    decreases |ts|
  {
    if ts != [] {
      KeptNone(all, ts[..|ts| - 1]);
    }
  }

  lemma KeptOne(all: bool, t: Token)
    ensures Kept(all, [t]) == if Matters(all, t) then [t] else []
  {
    assert [t][..0] == [];
  }

  /** The partial list `c`, begun at `p`, holds exactly the tokens consumed since. */
  ghost predicate Since(all: bool, ts: seq<Token>, p: nat, c: Partial) {
    p <= c.pos <= |ts| && Kept(all, YieldList(c.elems)) == Kept(all, ts[p..c.pos])
  }

  /** The node holds exactly the tokens consumed for it. */
  ghost predicate Covers(all: bool, ts: seq<Token>, p: nat, r: Parsed) {
    p <= r.pos <= |ts| && Kept(all, Yield(r.node)) == Kept(all, ts[p..r.pos])
  }

  // ---- Single steps ----

  lemma YieldAppend(all: bool, es: seq<Element>, e: Element)
    ensures Kept(all, YieldList(es + [e])) == Kept(all, YieldList(es)) + Kept(all, YieldOf(e))
  {
    hide Kept, YieldOf;
    assert (es + [e])[..|es|] == es;
    KeptAdd(all, YieldList(es), YieldOf(e));
  }

  lemma SplitAt(all: bool, ts: seq<Token>, p: nat, q: nat, r: nat)
    requires p <= q <= r <= |ts|
    ensures Kept(all, ts[p..r]) == Kept(all, ts[p..q]) + Kept(all, ts[q..r])
  {
    assert ts[p..r] == ts[p..q] + ts[q..r];
    KeptAdd(all, ts[p..q], ts[q..r]);
  }

  lemma {:induction false} SkippedAreTrivia(ts: seq<Token>, p: nat)
    requires p <= |ts|
    ensures forall i :: p <= i < SkipTrivia(ts, p) ==> IsTrivia(ts[i].kind)
    decreases |ts| - p
  {
    if IsTrivia(KindAt(ts, p)) {
      SkippedAreTrivia(ts, p + 1);
    }
  }

  lemma SkipKeepsNothing(ts: seq<Token>, p: nat)
    requires p <= |ts|
    ensures Kept(false, ts[p..SkipTrivia(ts, p)]) == []
  {
    SkippedAreTrivia(ts, p);
    KeptNone(false, ts[p..SkipTrivia(ts, p)]);
  }

  /** No white space or comment stands right before a token that could be an infix or postfix operator. */
  ghost predicate Tight(ts: seq<Token>) {
    forall i :: 0 <= i < |ts| && IsTrivia(ts[i].kind) ==> FromKind(KindAt(ts, SkipTrivia(ts, i))).NoPrec?
  }

  lemma {:induction false} LeavesAppend(all: bool, es: seq<Element>, more: seq<Token>)
    ensures Kept(all, YieldList(es + Leaves(more))) == Kept(all, YieldList(es)) + Kept(all, more)
    decreases |more|
  {
    hide Kept;
    if more == [] {
      assert es + Leaves(more) == es;
      KeptNone(all, more);
    } else {
      var n := |more| - 1;
      LeavesAppend(all, es, more[..n]);
      assert es + Leaves(more) == es + Leaves(more[..n]) + [Leaf(more[n])];
      YieldAppend(all, es + Leaves(more[..n]), Leaf(more[n]));
      assert more == more[..n] + [more[n]];
      KeptAdd(all, more[..n], [more[n]]);
    }
  }

  lemma EatSince(all: bool, ts: seq<Token>, p: nat, c: Partial)
    requires Since(all, ts, p, c)
    ensures Since(all, ts, p, Eat(ts, c))
  {
    hide Kept, YieldList, SkipTrivia;
    var q := SkipTrivia(ts, c.pos);
    LeavesAppend(all, c.elems, ts[c.pos..q]);
    SplitAt(all, ts, p, c.pos, q);
  }

  lemma PushSince(all: bool, ts: seq<Token>, p: nat, c: Partial)
    requires Since(all, ts, p, c)
    ensures Since(all, ts, p, Push(ts, c))
  {
    hide Kept, YieldList;
    var t := TokenAt(ts, c.pos);
    YieldAppend(all, c.elems, Leaf(t));
    KeptOne(all, t);
    var q := Past(ts, c.pos);
    SplitAt(all, ts, p, c.pos, q);
    if q > c.pos {
      assert ts[c.pos..q] == [t];
    } else {
      KeptNone(all, ts[c.pos..q]);
    }
  }

  lemma PushIfSince(all: bool, ts: seq<Token>, p: nat, c: Partial, kind: TokenKind)
    requires Since(all, ts, p, c)
    ensures Since(all, ts, p, PushIf(ts, c, kind))
  {
    hide Since, Push;
    PushSince(all, ts, p, c);
  }

  lemma AttachSince(all: bool, ts: seq<Token>, p: nat, c: Partial, r: Parsed)
    requires Since(all, ts, p, c) && Covers(all, ts, c.pos, r)
    ensures Since(all, ts, p, Attach(c, r))
  {
    hide Kept, YieldList, Yield;
    YieldAppend(all, c.elems, Sub(r.node));
    SplitAt(all, ts, p, c.pos, r.pos);
  }

  lemma CloseCovers(all: bool, ts: seq<Token>, p: nat, kind: NodeKind, c: Partial)
    requires Since(all, ts, p, c)
    ensures Covers(all, ts, p, Close(kind, c))
  {
    YieldNode(Node(kind, c.elems));
  }

  lemma StartSince(all: bool, ts: seq<Token>, p: nat)
    requires p <= |ts|
    ensures Since(all, ts, p, Partial([], p))
  {
    assert ts[p..p] == [];
  }

  // A finished node becomes the first child of a larger one; trivia between it and the operator is dropped.
  lemma WrapSince(all: bool, ts: seq<Token>, p: nat, lhs: Parsed)
    requires Covers(all, ts, p, lhs)
    requires all ==> SkipTrivia(ts, lhs.pos) == lhs.pos
    ensures Since(all, ts, p, Partial([Sub(lhs.node)], SkipTrivia(ts, lhs.pos)))
  {
    hide Kept, Yield;
    assert [] + [Sub(lhs.node)] == [Sub(lhs.node)];
    YieldAppend(all, [], Sub(lhs.node));
    KeptNone(all, YieldList([]));
    var q := SkipTrivia(ts, lhs.pos);
    SplitAt(all, ts, p, lhs.pos, q);
    if all {
      assert ts[lhs.pos..q] == [];
      KeptNone(all, ts[lhs.pos..q]);
    } else {
      SkipKeepsNothing(ts, lhs.pos);
    }
  }

  // ---- The grammar ----

  lemma {:induction false} ExprCovers(all: bool, ts: seq<Token>, depth: nat, p: nat, min: Precedence)
    requires all ==> Tight(ts)
    requires p <= |ts|
    ensures Covers(all, ts, p, Expr(ts, depth, p, min))
    decreases |ts| - p, 4
  {
    hide Covers, Primary, ExprLoop, Ahead;
    PrimaryCovers(all, ts, depth, p);
    AheadMeans(ts, p, Primary(ts, depth, p).pos);
    LoopCovers(all, ts, depth, p, Primary(ts, depth, p), min);
  }

  lemma AheadMeans(ts: seq<Token>, p: nat, q: nat)
    requires p <= |ts| && Ahead(ts, p, q)
    ensures p <= q <= |ts| && (!KindAt(ts, p).Eof? ==> p < q)
  {
  }

  lemma {:induction false} LoopCovers(all: bool, ts: seq<Token>, depth: nat, p: nat, lhs: Parsed, min: Precedence)
    requires all ==> Tight(ts)
    requires p <= lhs.pos <= |ts| && Covers(all, ts, p, lhs)
    ensures Covers(all, ts, p, ExprLoop(ts, depth, lhs, min))
    decreases |ts| - lhs.pos, 3
  {
    hide Covers, PostfixForm, SkipTrivia, FromKind;
    var q := SkipTrivia(ts, lhs.pos);
    var kind := KindAt(ts, q);
    if !(depth > 0 && kind.OpenBrace?) && Rank(FromKind(kind)) > Rank(min) && FromKind(kind) != NoPrec {
      if all {
        TightHere(ts, lhs.pos);
      }
      WrapSince(all, ts, p, lhs);
      EofHasNone();
      PostfixCovers(all, ts, depth, p, lhs.node, q);
      LoopCovers(all, ts, depth, p, PostfixForm(ts, depth, lhs.node, q), min);
    }
  }

  lemma TightHere(ts: seq<Token>, p: nat)
    requires Tight(ts) && p <= |ts| && !FromKind(KindAt(ts, SkipTrivia(ts, p))).NoPrec?
    ensures SkipTrivia(ts, p) == p
  {
    hide FromKind;
  }

  lemma EofHasNone()
    ensures FromKind(Eof) == NoPrec
  {
  }

  lemma {:induction false} PostfixCovers(all: bool, ts: seq<Token>, depth: nat, p: nat, lhs: Node, q: nat)
    requires all ==> Tight(ts)
    requires p <= q < |ts| && FromKind(ts[q].kind) != NoPrec && Since(all, ts, p, Partial([Sub(lhs)], q))
    ensures Covers(all, ts, p, PostfixForm(ts, depth, lhs, q))
    decreases |ts| - q, 2
  {
    hide Covers, Since, Eat, Push, PushIf, CallArgs, PathTail, StructFields, OptionalTail, BangTail, Expr, Attach,
      SkipTrivia, Ahead;
    var c0 := Partial([Sub(lhs)], q);
    EatSince(all, ts, p, c0);
    var c := Push(ts, Eat(ts, c0));
    AfterOperator(ts, c0);
    PushSince(all, ts, p, Eat(ts, c0));
    EatSince(all, ts, p, c);
    var kind := ts[q].kind;
    if kind.OpenParen? {
      CallArgsSince(all, ts, depth, p, c);
      FinishWith(all, ts, p, CallExpr, CallArgs(ts, depth, c), CloseParen);
    } else if kind == DoubleColon {
      PathTailSince(all, ts, depth, p, Eat(ts, c));
      CloseCovers(all, ts, p, PathExpr, PathTail(ts, depth, Eat(ts, c)));
    } else if kind.OpenBrace? {
      StructFieldsSince(all, ts, depth, p, c);
      FinishWith(all, ts, p, StructLiteral, StructFields(ts, depth, c), CloseBrace);
    } else if kind == Question {
      OptionalTailSince(all, ts, p, Eat(ts, c));
      CloseCovers(all, ts, p, MemberExpr, OptionalTail(ts, Eat(ts, c)));
    } else if kind.Dot? {
      FinishWith(all, ts, p, MemberExpr, Eat(ts, c), Ident);
    } else if kind.Bang? {
      BangTailSince(all, ts, depth, p, c);
      CloseCovers(all, ts, p, CascadeExpr, BangTail(ts, depth, c));
    } else {
      ExprCovers(all, ts, depth, c.pos, FromKind(kind));
      AttachSince(all, ts, p, c, Expr(ts, depth, c.pos, FromKind(kind)));
      CloseCovers(all, ts, p, BinaryExpr, Attach(c, Expr(ts, depth, c.pos, FromKind(kind))));
    }
  }

  // The operator is one token, and no trivia precedes it.
  lemma AfterOperator(ts: seq<Token>, c0: Partial)
    requires c0.pos < |ts| && FromKind(ts[c0.pos].kind) != NoPrec
    ensures Push(ts, Eat(ts, c0)).pos == c0.pos + 1
  {
  }

  lemma FinishWith(all: bool, ts: seq<Token>, p: nat, kind: NodeKind, c: Partial, close: TokenKind)
    requires Since(all, ts, p, c)
    ensures Covers(all, ts, p, Close(kind, PushIf(ts, c, close)))
  {
    PushIfSince(all, ts, p, c, close);
    CloseCovers(all, ts, p, kind, PushIf(ts, c, close));
  }

  // Parsing an expression next keeps the account.
  lemma {:induction false} ExprNext(all: bool, ts: seq<Token>, depth: nat, p: nat, c: Partial, min: Precedence)
    requires all ==> Tight(ts)
    requires Since(all, ts, p, c)
    ensures Since(all, ts, p, Attach(c, Expr(ts, depth, c.pos, min)))
    decreases |ts| - c.pos, 5
  {
    hide Expr;
    ExprCovers(all, ts, depth, c.pos, min);
    AttachSince(all, ts, p, c, Expr(ts, depth, c.pos, min));
  }

  lemma {:induction false} CallArgsSince(all: bool, ts: seq<Token>, depth: nat, p: nat, c: Partial)
    requires all ==> Tight(ts)
    requires Since(all, ts, p, c)
    ensures Since(all, ts, p, CallArgs(ts, depth, c))
    decreases |ts| - c.pos, 7
  {
    hide CallArg, AfterArg, Kept, YieldList;
    if !KindAt(ts, c.pos).CloseParen? && !KindAt(ts, c.pos).Eof? {
      var arg := CallArg(ts, depth, c.pos);
      CallArgCovers(all, ts, depth, c.pos);
      AttachSince(all, ts, p, c, arg);
      AfterArgSince(all, ts, p, Attach(c, arg));
      CallArgsSince(all, ts, depth, p, AfterArg(ts, Attach(c, arg)));
    }
  }

  lemma AfterArgSince(all: bool, ts: seq<Token>, p: nat, c: Partial)
    requires Since(all, ts, p, c)
    ensures Since(all, ts, p, AfterArg(ts, c))
  {
    hide Kept, YieldList, Eat, Push;
    EatSince(all, ts, p, c);
    PushSince(all, ts, p, Eat(ts, c));
    EatSince(all, ts, p, Push(ts, Eat(ts, c)));
  }

  lemma {:induction false} CallArgCovers(all: bool, ts: seq<Token>, depth: nat, p: nat)
    requires all ==> Tight(ts)
    requires p < |ts| && !KindAt(ts, p).Eof?
    ensures Covers(all, ts, p, CallArg(ts, depth, p))
    decreases |ts| - p, 6
  {
    hide Kept, YieldList, Eat, Push, Labelled, Expr, Attach;
    StartSince(all, ts, p);
    var a := Eat(ts, Partial([], p));
    EatSince(all, ts, p, Partial([], p));
    var b := a;
    if Labelled(ts, a.pos) {
      b := Label(ts, a);
      LabelSince(all, ts, p, a);
    }
    ExprNext(all, ts, depth, p, b, NoPrec);
    CloseCovers(all, ts, p, ArgNode, Attach(b, Expr(ts, depth, b.pos, NoPrec)));
  }

  lemma LabelSince(all: bool, ts: seq<Token>, p: nat, a: Partial)
    requires Since(all, ts, p, a) && Labelled(ts, a.pos)
    ensures Since(all, ts, p, Label(ts, a))
  {
    hide Kept, YieldList, Eat, Push, Labelled;
    PushSince(all, ts, p, a);
    EatSince(all, ts, p, Push(ts, a));
    PushSince(all, ts, p, Eat(ts, Push(ts, a)));
    EatSince(all, ts, p, Push(ts, Eat(ts, Push(ts, a))));
  }

  lemma {:induction false} PathTailSince(all: bool, ts: seq<Token>, depth: nat, p: nat, c: Partial)
    requires all ==> Tight(ts)
    requires Since(all, ts, p, c)
    ensures Since(all, ts, p, PathTail(ts, depth, c))
    decreases |ts| - c.pos, 10
  {
    hide Kept, YieldList, TypeArgs, PushIf, Attach;
    if KindAt(ts, c.pos).Lt? {
      TypeArgsCovers(all, ts, depth, c.pos);
      AttachSince(all, ts, p, c, TypeArgs(ts, depth, c.pos));
    } else {
      PushIfSince(all, ts, p, c, Ident);
    }
  }

  lemma {:induction false} TypeArgsCovers(all: bool, ts: seq<Token>, depth: nat, p: nat)
    requires all ==> Tight(ts)
    requires p <= |ts|
    ensures Covers(all, ts, p, TypeArgs(ts, depth, p))
    decreases |ts| - p, 9
  {
    hide Kept, YieldList, Eat, Push, PushIf, TypeArgList, Covers;
    StartSince(all, ts, p);
    var c := Eat(ts, Partial([], p));
    EatSince(all, ts, p, Partial([], p));
    var open := KindAt(ts, c.pos);
    if open.Lt? || open.OpenBracket? {
      var close := if open.Lt? then Gt else CloseBracket;
      PushSince(all, ts, p, c);
      TypeArgListSince(all, ts, depth, p, Push(ts, c), close);
      FinishWith(all, ts, p, GenericArgs, TypeArgList(ts, depth, Push(ts, c), close), close);
    } else {
      CloseCovers(all, ts, p, GenericArgs, c);
    }
  }

  lemma {:induction false} TypeArgListSince(all: bool, ts: seq<Token>, depth: nat, p: nat, c: Partial, close: TokenKind)
    requires all ==> Tight(ts)
    requires Since(all, ts, p, c)
    ensures Since(all, ts, p, TypeArgList(ts, depth, c, close))
    decreases |ts| - c.pos, 7
  {
    hide Kept, YieldList, Eat, PushIf, Expr, Covers, Yield;
    if KindAt(ts, c.pos) != close && !KindAt(ts, c.pos).Eof? {
      var arg := Expr(ts, depth, c.pos, Comparison);
      ExprCovers(all, ts, depth, c.pos, Comparison);
      ArgNodeCovers(all, ts, c.pos, arg);
      var d := Partial(c.elems + [Sub(Node(GenericArg, [Sub(arg.node)]))], arg.pos);
      AttachSince(all, ts, p, c, Parsed(Node(GenericArg, [Sub(arg.node)]), arg.pos));
      EatSince(all, ts, p, d);
      PushIfSince(all, ts, p, Eat(ts, d), Comma);
      EatSince(all, ts, p, PushIf(ts, Eat(ts, d), Comma));
      TypeArgListSince(all, ts, depth, p, Eat(ts, PushIf(ts, Eat(ts, d), Comma)), close);
    }
  }

  lemma ArgNodeCovers(all: bool, ts: seq<Token>, p: nat, arg: Parsed)
    requires Covers(all, ts, p, arg)
    ensures Covers(all, ts, p, Parsed(Node(GenericArg, [Sub(arg.node)]), arg.pos))
  {
    hide Kept;
    YieldNode(Node(GenericArg, [Sub(arg.node)]));
    assert [Sub(arg.node)][..0] == [];
    assert YieldList([Sub(arg.node)]) == [] + Yield(arg.node) == Yield(arg.node);
  }

  lemma {:induction false} StructFieldsSince(all: bool, ts: seq<Token>, depth: nat, p: nat, c: Partial)
    requires all ==> Tight(ts)
    requires Since(all, ts, p, c)
    ensures Since(all, ts, p, StructFields(ts, depth, c))
    decreases |ts| - c.pos, 7
  {
    hide Kept, YieldList, Eat, Expr, FieldValue, AfterField, Attach;
    if !KindAt(ts, c.pos).CloseBrace? && !KindAt(ts, c.pos).Eof? {
      ExprNext(all, ts, depth, p, c, NoPrec);
      var d := Attach(c, Expr(ts, depth, c.pos, NoPrec));
      AttachPos(c, Expr(ts, depth, c.pos, NoPrec));
      EatSince(all, ts, p, d);
      FieldValueSince(all, ts, depth, p, Eat(ts, d));
      AfterFieldSince(all, ts, p, FieldValue(ts, depth, Eat(ts, d)));
      StructFieldsSince(all, ts, depth, p, AfterField(ts, FieldValue(ts, depth, Eat(ts, d))));
    }
  }

  lemma AttachPos(c: Partial, r: Parsed)
    ensures Attach(c, r).pos == r.pos
  {
  }

  lemma {:induction false} FieldValueSince(all: bool, ts: seq<Token>, depth: nat, p: nat, name: Partial)
    requires all ==> Tight(ts)
    requires Since(all, ts, p, name)
    ensures Since(all, ts, p, FieldValue(ts, depth, name))
    decreases |ts| - name.pos, 6
  {
    hide Kept, YieldList, Eat, Push, Expr, Attach;
    if KindAt(ts, name.pos).Colon? {
      PushSince(all, ts, p, name);
      EatSince(all, ts, p, Push(ts, name));
      ExprNext(all, ts, depth, p, Eat(ts, Push(ts, name)), NoPrec);
    }
  }

  lemma AfterFieldSince(all: bool, ts: seq<Token>, p: nat, c: Partial)
    requires Since(all, ts, p, c)
    ensures Since(all, ts, p, AfterField(ts, c))
  {
    hide Since, Eat, PushIf;
    SinceBounds(all, ts, p, c);
    EatSince(all, ts, p, c);
    PushIfSince(all, ts, p, Eat(ts, c), Comma);
    EatSince(all, ts, p, PushIf(ts, Eat(ts, c), Comma));
  }

  lemma SinceBounds(all: bool, ts: seq<Token>, p: nat, c: Partial)
    requires Since(all, ts, p, c)
    ensures p <= c.pos <= |ts|
  {
  }

  lemma OptionalTailSince(all: bool, ts: seq<Token>, p: nat, c: Partial)
    requires Since(all, ts, p, c)
    ensures Since(all, ts, p, OptionalTail(ts, c))
  {
    hide Kept, YieldList, Eat, Push, PushIf;
    if KindAt(ts, c.pos).Dot? {
      PushSince(all, ts, p, c);
      EatSince(all, ts, p, Push(ts, c));
      PushIfSince(all, ts, p, Eat(ts, Push(ts, c)), Ident);
    }
  }

  lemma {:induction false} BangTailSince(all: bool, ts: seq<Token>, depth: nat, p: nat, c: Partial)
    requires all ==> Tight(ts)
    requires Since(all, ts, p, c)
    ensures Since(all, ts, p, BangTail(ts, depth, c))
    decreases |ts| - c.pos, 6
  {
    hide Kept, YieldList, Eat, Push, Expr, Attach;
    if KindAt(ts, SkipTrivia(ts, c.pos)).Or? {
      EatSince(all, ts, p, c);
      PushSince(all, ts, p, Eat(ts, c));
      ExprNext(all, ts, depth, p, Push(ts, Eat(ts, c)), NoPrec);
    }
  }

  lemma {:induction false} PrimaryCovers(all: bool, ts: seq<Token>, depth: nat, p: nat)
    requires all ==> Tight(ts)
    requires p <= |ts|
    ensures Covers(all, ts, p, Primary(ts, depth, p))
    decreases |ts| - p, 1
  {
    hide Covers, Kept, YieldList, Eat, Push, PushIf, Expr, Attach, MacroForm, BindForm, MacroFollows, AtomKind,
      NameKind, PrefixKind, Ahead;
    StartSince(all, ts, p);
    EatSince(all, ts, p, Partial([], p));
    var c := Eat(ts, Partial([], p));
    var kind := KindAt(ts, c.pos);
    var d := Push(ts, c);
    PushSince(all, ts, p, c);
    if AtomKind(kind) {
      CloseCovers(all, ts, p, LiteralNode, d);
    } else if NameKind(kind) {
      if MacroFollows(ts, d.pos) {
        NameIsNotEof(kind);
        MacroCovers(all, ts, depth, p, d);
      } else {
        CloseCovers(all, ts, p, IdentNode, d);
      }
    } else if kind.OpenParen? {
      ExprNext(all, ts, depth, p, d, NoPrec);
      EatSince(all, ts, p, Attach(d, Expr(ts, depth, d.pos, NoPrec)));
      FinishWith(all, ts, p, ParenExpr, Eat(ts, Attach(d, Expr(ts, depth, d.pos, NoPrec))), CloseParen);
    } else if PrefixKind(kind) {
      NameIsNotEof(kind);
      ExprNext(all, ts, depth, p, d, Prefix);
      CloseCovers(all, ts, p, UnaryExpr, Attach(d, Expr(ts, depth, d.pos, Prefix)));
    } else if kind == Bind {
      BindCovers(all, ts, depth, p, d);
    } else {
      CloseCovers(all, ts, p, ErrorNode, d);
    }
  }

  lemma NameIsNotEof(kind: TokenKind)
    requires NameKind(kind) || PrefixKind(kind)
    ensures kind != Eof
  {
  }

  lemma {:induction false} MacroCovers(all: bool, ts: seq<Token>, depth: nat, p: nat, d: Partial)
    requires all ==> Tight(ts)
    requires Since(all, ts, p, d) && MacroFollows(ts, d.pos)
    ensures Covers(all, ts, p, MacroForm(ts, depth, d))
    decreases |ts| - d.pos, 8
  {
    hide Covers, Kept, YieldList, Push, PushIf, Eat, MacroArgs;
    EatSince(all, ts, p, d);
    PushSince(all, ts, p, Eat(ts, d));
    EatSince(all, ts, p, Push(ts, Eat(ts, d)));
    var c := Eat(ts, Push(ts, Eat(ts, d)));
    PushSince(all, ts, p, c);
    EatSince(all, ts, p, Push(ts, c));
    var close := if KindAt(ts, c.pos).OpenParen? then CloseParen else CloseBracket;
    var args := Eat(ts, Push(ts, c));
    MacroArgsSince(all, ts, depth, p, args, close);
    FinishWith(all, ts, p, MacroCall, MacroArgs(ts, depth, args, close), close);
  }

  lemma {:induction false} MacroArgsSince(all: bool, ts: seq<Token>, depth: nat, p: nat, c: Partial, close: TokenKind)
    requires all ==> Tight(ts)
    requires Since(all, ts, p, c)
    ensures Since(all, ts, p, MacroArgs(ts, depth, c, close))
    decreases |ts| - c.pos, 7
  {
    hide Kept, YieldList, Eat, Expr, Attach, AfterArg, Covers;
    if KindAt(ts, c.pos) != close && !KindAt(ts, c.pos).Eof? {
      StartSince(all, ts, c.pos);
      EatSince(all, ts, c.pos, Partial([], c.pos));
      var a := Eat(ts, Partial([], c.pos));
      ExprNext(all, ts, depth, c.pos, a, NoPrec);
      var arg := Close(ArgNode, Attach(a, Expr(ts, depth, a.pos, NoPrec)));
      CloseCovers(all, ts, c.pos, ArgNode, Attach(a, Expr(ts, depth, a.pos, NoPrec)));
      AttachPos(a, Expr(ts, depth, a.pos, NoPrec));
      AttachPos(c, arg);
      AttachSince(all, ts, p, c, arg);
      AfterArgSince(all, ts, p, Attach(c, arg));
      MacroArgsSince(all, ts, depth, p, AfterArg(ts, Attach(c, arg)), close);
    }
  }

  lemma {:induction false} BindCovers(all: bool, ts: seq<Token>, depth: nat, p: nat, d: Partial)
    requires all ==> Tight(ts)
    requires Since(all, ts, p, d)
    ensures Covers(all, ts, p, BindForm(ts, depth, d))
    decreases |ts| - d.pos, 6
  {
    hide Covers, Kept, YieldList, Push, PushIf, Eat, Expr, Attach, BindParams;
    EatSince(all, ts, p, d);
    var c := Eat(ts, d);
    var m := c;
    if KindAt(ts, c.pos).Bar? {
      PushSince(all, ts, p, c);
      BindParamsSince(all, ts, p, Push(ts, c));
      PushIfSince(all, ts, p, BindParams(ts, Push(ts, c)), Bar);
      m := PushIf(ts, BindParams(ts, Push(ts, c)), Bar);
    }
    EatSince(all, ts, p, m);
    var e := Eat(ts, m);
    ExprNext(all, ts, depth, p, e, NoPrec);
    CloseCovers(all, ts, p, BindExpr, Attach(e, Expr(ts, depth, e.pos, NoPrec)));
  }

  lemma {:induction false} BindParamsSince(all: bool, ts: seq<Token>, p: nat, c: Partial)
    requires Since(all, ts, p, c)
    ensures Since(all, ts, p, BindParams(ts, c))
    decreases |ts| - c.pos
  {
    hide Kept, YieldList, Push;
    if !KindAt(ts, c.pos).Bar? && !KindAt(ts, c.pos).Eof? {
      PushSince(all, ts, p, c);
      BindParamsSince(all, ts, p, Push(ts, c));
    }
  }

  /**
   The parser ends, never goes back, advances unless only trivia is left, and loses nothing that matters:
   the tokens of the tree, without trivia and end markers, are the tokens consumed, in order.
   */
  lemma ParsesLossless(ts: seq<Token>, depth: nat, p: nat, min: Precedence)
    requires BlockFree(ts) && p <= |ts|
    ensures var r := Expr(ts, depth, p, min);
            && p <= r.pos <= |ts|
            && (!KindAt(ts, SkipTrivia(ts, p)).Eof? ==> SkipTrivia(ts, p) < r.pos)
            && Kept(false, Yield(r.node)) == Kept(false, ts[p..r.pos])
  {
    hide Expr, Kept, Yield;
    ExprCovers(false, ts, depth, p, min);
  }

  /** Where no trivia stands before an operator the tree holds every token consumed, trivia included. */
  lemma TightIsLossless(ts: seq<Token>, depth: nat, p: nat, min: Precedence)
    requires BlockFree(ts) && p <= |ts| && Tight(ts)
    ensures var r := Expr(ts, depth, p, min);
            p <= r.pos <= |ts| && Kept(true, Yield(r.node)) == Kept(true, ts[p..r.pos])
  {
    hide Expr, Kept, Yield;
    ExprCovers(true, ts, depth, p, min);
  }
}
