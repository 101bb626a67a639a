/**
 What substitution does to each form of expression: the form and everything in it that is no expression stay, its
 parts are substituted one by one, and the identifiers in the map are replaced.  Only a `loop` is not entered.
 */
module MacroShape {
  import opened Common
  import opened Ast
  import opened Macro

  // ---- The expressions a form is made of, in order ----

  function OptPart(o: Option<Expr>): seq<Expr> {
    match o
    case None => []
    case Some(e) => [e]
  }

  function StmtParts(st: Stmt): (es: seq<Expr>)
    ensures forall i :: 0 <= i < |es| ==> es[i] < st
  {
    match st
    case ExprStmt(e) => [e]
    case Let(_, _, init) => OptPart(init)
    case Assign(target, e) => [target, e]
  }

  function StmtsParts(ss: seq<Stmt>, n: nat): (es: seq<Expr>)
    requires n <= |ss|
    ensures forall i :: 0 <= i < |es| ==> exists j :: 0 <= j < n && es[i] < ss[j]
  {
    if n == 0 then [] else StmtsParts(ss, n - 1) + StmtParts(ss[n - 1])
  }

  function BlockParts(b: Block): (es: seq<Expr>)
    ensures forall i :: 0 <= i < |es| ==> es[i] < b
  {
    StmtsParts(b.stmts, |b.stmts|) + OptPart(b.expr)
  }

  function OptBlockParts(o: Option<Block>): (es: seq<Expr>)
    ensures forall i :: 0 <= i < |es| ==> o.Some? && es[i] < o.value
  {
    match o
    case None => []
    case Some(b) => BlockParts(b)
  }

  function ArgParts(args: seq<Arg>): seq<Expr> {
    seq(|args|, i requires 0 <= i < |args| => args[i].value)
  }

  function FieldParts(fields: seq<Field>): seq<Expr> {
    seq(|fields|, i requires 0 <= i < |fields| => fields[i].value)
  }

  function ArmParts(arm: Arm): (es: seq<Expr>)
    ensures forall i :: 0 <= i < |es| ==> es[i] < arm
  {
    OptPart(arm.guard) + [arm.body]
  }

  function ArmsParts(arms: seq<Arm>, n: nat): (es: seq<Expr>)
    requires n <= |arms|
    ensures forall i :: 0 <= i < |es| ==> exists j :: 0 <= j < n && es[i] < arms[j]
  {
    if n == 0 then [] else ArmsParts(arms, n - 1) + ArmParts(arms[n - 1])
  }

  function Parts(e: Expr): seq<Expr> {
    match e
    case Binary(_, l, r) => [l, r]
    case Unary(_, x) => [x]
    case Call(callee, args) => [callee] + ArgParts(args)
    case Member(base, _) => [base]
    case BlockExpr(b) => BlockParts(b)
    case Given(cond, thenBlock, elseExpr) => [cond] + BlockParts(thenBlock) + OptPart(elseExpr)
    case Branch(target, arms) => [target] + ArmsParts(arms, |arms|)
    case Loop(b) => BlockParts(b)
    case While(cond, body) => [cond] + BlockParts(body)
    case Each(_, iter, body) => [iter] + BlockParts(body)
    case Raw(x) => [x]
    case Bind(_, body) => [body]
    case StructLiteral(_, fields) => FieldParts(fields)
    case Return(x) => [x]
    case Zone(_, body) => BlockParts(body)
    case Cascade(x, context) => [x] + OptPart(context)
    case Seek(body, _, catchBody) => BlockParts(body) + OptBlockParts(catchBody)
    case Tide(x) => [x]
    case _ => []
  }

  lemma {:induction false} PartSmaller(e: Expr, i: nat)
    requires i < |Parts(e)|
    ensures Parts(e)[i] < e
  {
    hide BlockParts, ArmsParts;
    if e.BlockExpr? || e.Given? || e.Loop? || e.While? || e.Each? || e.Zone? || e.Seek? {
      BlockPartSmaller(e, i);
    } else if e.Call? || e.StructLiteral? || e.Branch? || e.Cascade? {
      ListPartSmaller(e, i);
    }
  }

  lemma {:induction false} BlockPartSmaller(e: Expr, i: nat)
    requires i < |Parts(e)|
    requires e.BlockExpr? || e.Given? || e.Loop? || e.While? || e.Each? || e.Zone? || e.Seek?
    ensures Parts(e)[i] < e
  {
    hide BlockParts;
  }

  lemma {:induction false} ListPartSmaller(e: Expr, i: nat)
    requires i < |Parts(e)| && (e.Call? || e.StructLiteral? || e.Branch? || e.Cascade?)
    ensures Parts(e)[i] < e
  {
    hide ArmsParts;
  }

  function Sub(es: seq<Expr>, s: Subst): (r: seq<Expr>)
    ensures |r| == |es|
  {
    seq(|es|, i requires 0 <= i < |es| => SubstExpr(es[i], s))
  }

  // ---- The rest of a form ----

  predicate SameOpt<A, B>(o: Option<A>, p: Option<B>) {
    o.Some? == p.Some?
  }

  predicate SameStmt(a: Stmt, b: Stmt) {
    match (a, b)
    case (ExprStmt(_), ExprStmt(_)) => true
    case (Let(p, t, i), Let(q, u, j)) => p == q && t == u && SameOpt(i, j)
    case (Assign(_, _), Assign(_, _)) => true
    case _ => false
  }

  predicate SameBlock(a: Block, b: Block) {
    && |a.stmts| == |b.stmts| && SameOpt(a.expr, b.expr)
    && forall i :: 0 <= i < |a.stmts| ==> SameStmt(a.stmts[i], b.stmts[i])
  }

  predicate SameArm(a: Arm, b: Arm) {
    a.pattern == b.pattern && SameOpt(a.guard, b.guard)
  }

  /** The same form, and the same in everything in it that is no expression. */
  predicate SameForm(e: Expr, r: Expr) {
    match (e, r)
    case (Binary(op, _, _), Binary(oq, _, _)) => op == oq
    case (Unary(op, _), Unary(oq, _)) => op == oq
    case (Call(_, a), Call(_, b)) => |a| == |b| && forall i :: 0 <= i < |a| ==> a[i].name == b[i].name
    case (Member(_, x), Member(_, y)) => x == y
    case (BlockExpr(a), BlockExpr(b)) => SameBlock(a, b)
    case (Given(_, a, x), Given(_, b, y)) => SameBlock(a, b) && SameOpt(x, y)
    case (Branch(_, a), Branch(_, b)) => |a| == |b| && forall i :: 0 <= i < |a| ==> SameArm(a[i], b[i])
    case (Loop(a), Loop(b)) => SameBlock(a, b)
    case (While(_, a), While(_, b)) => SameBlock(a, b)
    case (Each(v, _, a), Each(w, _, b)) => v == w && SameBlock(a, b)
    case (Raw(_), Raw(_)) => true
    case (Bind(ps, _), Bind(qs, _)) => ps == qs
    case (StructLiteral(p, a), StructLiteral(q, b)) =>
      p == q && |a| == |b| && forall i :: 0 <= i < |a| ==> a[i].name == b[i].name
    case (Return(_), Return(_)) => true
    case (Zone(z, a), Zone(y, b)) => z == y && SameBlock(a, b)
    case (Cascade(_, x), Cascade(_, y)) => SameOpt(x, y)
    case (Seek(a, v, x), Seek(b, w, y)) =>
      SameBlock(a, b) && v == w && SameOpt(x, y) && (x.Some? && y.Some? ==> SameBlock(x.value, y.value))
    case (Tide(_), Tide(_)) => true
    case _ => e == r
  }

  // ---- A form and its parts are the expression ----

  lemma {:induction false} SplitEqual<T>(a: seq<T>, b: seq<T>, c: seq<T>, d: seq<T>)
    requires |a| == |c| && a + b == c + d
    ensures a == c && b == d
  {
    assert (a + b)[..|a|] == a && (c + d)[..|c|] == c;
    assert (a + b)[|a|..] == b && (c + d)[|c|..] == d;
  }

  lemma {:induction false} StmtsCount(a: seq<Stmt>, b: seq<Stmt>, n: nat)
    requires n <= |a| && n <= |b| && forall i :: 0 <= i < n ==> SameStmt(a[i], b[i])
    ensures |StmtsParts(a, n)| == |StmtsParts(b, n)|
    decreases n
  {
    if n > 0 {
      StmtsCount(a, b, n - 1);
      assert SameStmt(a[n - 1], b[n - 1]);
    }
  }

  lemma {:induction false} BlockCount(a: Block, b: Block)
    requires SameBlock(a, b)
    ensures |BlockParts(a)| == |BlockParts(b)|
  {
    StmtsCount(a.stmts, b.stmts, |a.stmts|);
  }

  lemma {:induction false} StmtsDetermine(a: seq<Stmt>, b: seq<Stmt>, n: nat)
    requires n <= |a| && n <= |b| && forall i :: 0 <= i < n ==> SameStmt(a[i], b[i])
    requires StmtsParts(a, n) == StmtsParts(b, n)
    ensures a[..n] == b[..n]
    decreases n
  {
    hide SameStmt, StmtParts;
    if n > 0 {
      StmtsCount(a, b, n - 1);
      SplitEqual(StmtsParts(a, n - 1), StmtParts(a[n - 1]), StmtsParts(b, n - 1), StmtParts(b[n - 1]));
      StmtsDetermine(a, b, n - 1);
      StmtDetermines(a[n - 1], b[n - 1]);
      assert a[..n] == a[..n - 1] + [a[n - 1]] && b[..n] == b[..n - 1] + [b[n - 1]];
    }
  }

  lemma {:induction false} OptDetermines(o: Option<Expr>, p: Option<Expr>)
    requires OptPart(o) == OptPart(p)
    ensures o == p
  {
    if o.Some? && p.Some? {
      assert OptPart(o)[0] == OptPart(p)[0];
    }
  }

  lemma {:induction false} StmtDetermines(a: Stmt, b: Stmt)
    requires SameStmt(a, b) && StmtParts(a) == StmtParts(b)
    ensures a == b
  {
    match a
    case ExprStmt(_) => assert StmtParts(a)[0] == StmtParts(b)[0];
    case Let(_, _, init) => OptDetermines(init, b.init);
    case Assign(_, _) => assert StmtParts(a)[0] == StmtParts(b)[0] && StmtParts(a)[1] == StmtParts(b)[1];
  }

  lemma {:induction false} BlockDetermines(a: Block, b: Block)
    requires SameBlock(a, b) && BlockParts(a) == BlockParts(b)
    ensures a == b
  {
    var n := |a.stmts|;
    StmtsCount(a.stmts, b.stmts, n);
    SplitEqual(StmtsParts(a.stmts, n), OptPart(a.expr), StmtsParts(b.stmts, n), OptPart(b.expr));
    StmtsDetermine(a.stmts, b.stmts, n);
    OptDetermines(a.expr, b.expr);
    assert a.stmts[..n] == a.stmts && b.stmts[..n] == b.stmts;
  }

  lemma {:induction false} ArmsCount(a: seq<Arm>, b: seq<Arm>, n: nat)
    requires n <= |a| && n <= |b| && forall i :: 0 <= i < n ==> SameArm(a[i], b[i])
    ensures |ArmsParts(a, n)| == |ArmsParts(b, n)|
    decreases n
  {
    if n > 0 {
      ArmsCount(a, b, n - 1);
      assert SameArm(a[n - 1], b[n - 1]);
    }
  }

  lemma {:induction false} ArmDetermines(a: Arm, b: Arm)
    requires SameArm(a, b) && ArmParts(a) == ArmParts(b)
    ensures a == b
  {
    SplitEqual(OptPart(a.guard), [a.body], OptPart(b.guard), [b.body]);
    OptDetermines(a.guard, b.guard);
  }

  lemma {:induction false} ArmsDetermine(a: seq<Arm>, b: seq<Arm>, n: nat)
    requires n <= |a| && n <= |b| && forall i :: 0 <= i < n ==> SameArm(a[i], b[i])
    requires ArmsParts(a, n) == ArmsParts(b, n)
    ensures a[..n] == b[..n]
    decreases n
  {
    hide SameArm, ArmParts;
    if n > 0 {
      ArmsCount(a, b, n - 1);
      SplitEqual(ArmsParts(a, n - 1), ArmParts(a[n - 1]), ArmsParts(b, n - 1), ArmParts(b[n - 1]));
      ArmsDetermine(a, b, n - 1);
      ArmDetermines(a[n - 1], b[n - 1]);
      assert a[..n] == a[..n - 1] + [a[n - 1]] && b[..n] == b[..n - 1] + [b[n - 1]];
    }
  }

  lemma {:induction false} ListsDetermine(e: Expr, r: Expr)
    requires SameForm(e, r) && Parts(e) == Parts(r) && (e.Call? || e.StructLiteral? || e.Branch? || e.Cascade?)
    ensures e == r
  {
    hide ArmsParts, OptPart;
    match (e, r)
    case (Call(x, a), Call(y, b)) =>
      SplitEqual([x], ArgParts(a), [y], ArgParts(b));
      forall i | 0 <= i < |a|
        ensures a[i] == b[i]
      {
        assert ArgParts(a)[i] == ArgParts(b)[i];
      }
    case (StructLiteral(_, a), StructLiteral(_, b)) =>
      forall i | 0 <= i < |a|
        ensures a[i] == b[i]
      {
        assert FieldParts(a)[i] == FieldParts(b)[i];
      }
    case (Branch(x, a), Branch(y, b)) =>
      SplitEqual([x], ArmsParts(a, |a|), [y], ArmsParts(b, |b|));
      ArmsDetermine(a, b, |a|);
      assert a[..|a|] == a && b[..|b|] == b;
    case (Cascade(x, o), Cascade(y, p)) =>
      SplitEqual([x], OptPart(o), [y], OptPart(p));
      OptDetermines(o, p);
  }

  lemma {:induction false} BlocksDetermine(e: Expr, r: Expr)
    requires SameForm(e, r) && Parts(e) == Parts(r)
    requires e.BlockExpr? || e.Given? || e.Loop? || e.While? || e.Each? || e.Zone? || e.Seek?
    ensures e == r
  {
    hide BlockParts, SameBlock, OptPart;
    match (e, r)
    case (BlockExpr(a), BlockExpr(b)) => BlockDetermines(a, b);
    case (Given(x, a, o), Given(y, b, p)) =>
      BlockCount(a, b);
      SplitEqual([x] + BlockParts(a), OptPart(o), [y] + BlockParts(b), OptPart(p));
      SplitEqual([x], BlockParts(a), [y], BlockParts(b));
      BlockDetermines(a, b);
      OptDetermines(o, p);
    case (Loop(a), Loop(b)) => BlockDetermines(a, b);
    case (While(x, a), While(y, b)) =>
      SplitEqual([x], BlockParts(a), [y], BlockParts(b));
      BlockDetermines(a, b);
    case (Each(_, x, a), Each(_, y, b)) =>
      SplitEqual([x], BlockParts(a), [y], BlockParts(b));
      BlockDetermines(a, b);
    case (Zone(_, a), Zone(_, b)) => BlockDetermines(a, b);
    case (Seek(a, _, x), Seek(b, _, y)) =>
      BlockCount(a, b);
      SplitEqual(BlockParts(a), OptBlockParts(x), BlockParts(b), OptBlockParts(y));
      BlockDetermines(a, b);
      if x.Some? && y.Some? {
        BlockDetermines(x.value, y.value);
      }
  }

  /** The form and the parts are all there is to an expression. */
  lemma {:induction false} FormAndParts(e: Expr, r: Expr)
    requires SameForm(e, r) && Parts(e) == Parts(r)
    ensures e == r
  {
    hide BlockParts, SameBlock, ArmsParts, OptPart;
    if e.Call? || e.StructLiteral? || e.Branch? || e.Cascade? {
      ListsDetermine(e, r);
    } else if e.BlockExpr? || e.Given? || e.Loop? || e.While? || e.Each? || e.Zone? || e.Seek? {
      BlocksDetermine(e, r);
    } else if Parts(e) != [] {
      assert Parts(e)[0] == Parts(r)[0] && Parts(e)[|Parts(e)| - 1] == Parts(r)[|Parts(r)| - 1];
    }
  }

  // ---- Substitution ----

  lemma {:induction false} SubAdd(a: seq<Expr>, b: seq<Expr>, s: Subst)
    ensures Sub(a + b, s) == Sub(a, s) + Sub(b, s)
  {
  }

  lemma {:induction false} StmtsSub(b: Block, s: Subst, n: nat)
    requires n <= |b.stmts|
    ensures StmtsParts(SubstBlock(b, s).stmts, n) == Sub(StmtsParts(b.stmts, n), s)
    decreases n
  {
    hide SubstExpr;
    if n > 0 {
      StmtsSub(b, s, n - 1);
      SubAdd(StmtsParts(b.stmts, n - 1), StmtParts(b.stmts[n - 1]), s);
    }
  }

  lemma {:induction false} BlockSub(b: Block, s: Subst)
    ensures SameBlock(b, SubstBlock(b, s)) && BlockParts(SubstBlock(b, s)) == Sub(BlockParts(b), s)
  {
    SameStmts(b, s);
    hide SubstExpr, SameBlock;
    StmtsSub(b, s, |b.stmts|);
    SubAdd(StmtsParts(b.stmts, |b.stmts|), OptPart(b.expr), s);
  }

  lemma {:induction false} SameStmts(b: Block, s: Subst)
    ensures SameBlock(b, SubstBlock(b, s))
  {
    hide SubstExpr;
  }

  function SubArms(arms: seq<Arm>, s: Subst): seq<Arm> {
    seq(|arms|, i requires 0 <= i < |arms| =>
      Arm(arms[i].pattern,
          match arms[i].guard case Some(g) => Some(SubstExpr(g, s)) case None => None,
          SubstExpr(arms[i].body, s)))
  }

  lemma {:induction false} ArmsSub(arms: seq<Arm>, s: Subst, n: nat)
    requires n <= |arms|
    ensures ArmsParts(SubArms(arms, s), n) == Sub(ArmsParts(arms, n), s)
    decreases n
  {
    hide SubstExpr;
    if n > 0 {
      var x := arms[n - 1];
      ArmsSub(arms, s, n - 1);
      SubAdd(ArmsParts(arms, n - 1), ArmParts(x), s);
      SubAdd(OptPart(x.guard), [x.body], s);
    }
  }

  // What `FormKept` says of the other forms.
  ghost predicate Kept(e: Expr, s: Subst) {
    SameForm(e, SubstExpr(e, s)) && Parts(SubstExpr(e, s)) == Sub(Parts(e), s)
  }

  lemma {:induction false} PlainKept(e: Expr, s: Subst)
    requires e.Binary? || e.Unary? || e.Member? || e.Raw?
    ensures Kept(e, s)
  {
  }

  lemma {:induction false} OtherKept(e: Expr, s: Subst)
    requires e.Return? || e.Tide?
    ensures Kept(e, s)
  {
    assert SubstExpr(e, s) == if e.Return? then Return(SubstExpr(e.inner, s)) else Tide(SubstExpr(e.inner, s));
    hide SubstExpr;
  }

  lemma {:induction false} BindKept(e: Expr, s: Subst)
    requires e.Bind?
    ensures Kept(e, s)
  {
  }

  lemma {:induction false} CascadeKept(e: Expr, s: Subst)
    requires e.Cascade?
    ensures Kept(e, s)
  {
    SubAdd([e.expr], OptPart(e.context), s);
  }

  lemma {:induction false} ListKept(e: Expr, s: Subst)
    requires e.Call? || e.StructLiteral?
    ensures Kept(e, s)
  {
  }

  lemma {:induction false} BodyKept(e: Expr, s: Subst)
    requires e.BlockExpr? || e.Zone?
    ensures Kept(e, s)
  {
    hide BlockParts, SubstBlock, SameBlock;
    BlockSub(if e.BlockExpr? then e.block else e.body, s);
  }

  lemma {:induction false} WhileKept(e: Expr, s: Subst)
    requires e.While?
    ensures Kept(e, s)
  {
    hide BlockParts, SubstBlock, SameBlock;
    BlockSub(e.body, s);
    SubAdd([e.cond], BlockParts(e.body), s);
  }

  lemma {:induction false} EachKept(e: Expr, s: Subst)
    requires e.Each?
    ensures Kept(e, s)
  {
    hide BlockParts, SubstBlock, SameBlock;
    BlockSub(e.body, s);
    SubAdd([e.iter], BlockParts(e.body), s);
  }

  lemma {:induction false} GivenKept(e: Expr, s: Subst)
    requires e.Given?
    ensures Kept(e, s)
  {
    hide BlockParts, SubstBlock, SameBlock;
    BlockSub(e.thenBlock, s);
    SubAdd([e.cond], BlockParts(e.thenBlock), s);
    SubAdd([e.cond] + BlockParts(e.thenBlock), OptPart(e.elseExpr), s);
  }

  lemma {:induction false} BranchIs(e: Expr, s: Subst)
    requires e.Branch?
    ensures SubstExpr(e, s) == Branch(SubstExpr(e.target, s), SubArms(e.arms, s))
  {
  }

  lemma {:induction false} SameArms(arms: seq<Arm>, s: Subst)
    ensures |SubArms(arms, s)| == |arms|
    ensures forall i :: 0 <= i < |arms| ==> SameArm(arms[i], SubArms(arms, s)[i])
  {
    hide SubstExpr;
  }

  lemma {:induction false} BranchForm(t: Expr, a: seq<Arm>, u: Expr, b: seq<Arm>)
    requires |a| == |b| && forall i :: 0 <= i < |a| ==> SameArm(a[i], b[i])
    ensures SameForm(Branch(t, a), Branch(u, b))
  {
    hide SameArm;
  }

  lemma {:induction false} BranchParts(t: Expr, a: seq<Arm>)
    ensures Parts(Branch(t, a)) == [t] + ArmsParts(a, |a|)
  {
    hide ArmsParts;
  }

  lemma {:induction false} BranchKept(e: Expr, s: Subst)
    requires e.Branch?
    ensures Kept(e, s)
  {
    hide SubstExpr, ArmsParts, SubArms, SameArm, SameForm, Parts;
    BranchIs(e, s);
    SameArms(e.arms, s);
    BranchForm(e.target, e.arms, SubstExpr(e.target, s), SubArms(e.arms, s));
    BranchParts(e.target, e.arms);
    BranchParts(SubstExpr(e.target, s), SubArms(e.arms, s));
    ArmsSub(e.arms, s, |e.arms|);
    SubAdd([e.target], ArmsParts(e.arms, |e.arms|), s);
  }

  lemma {:induction false} SeekKept(e: Expr, s: Subst)
    requires e.Seek?
    ensures Kept(e, s)
  {
    hide BlockParts, SubstBlock, SameBlock;
    BlockSub(e.body, s);
    if e.catchBody.Some? {
      BlockSub(e.catchBody.value, s);
    }
    SubAdd(BlockParts(e.body), OptBlockParts(e.catchBody), s);
  }

  /**
   Substitution keeps the form of everything but an identifier, and substitutes its parts; an identifier becomes what
   the map has for it; and a `loop` stays as it is, whatever it mentions.
   */
  lemma {:induction false} FormKept(e: Expr, s: Subst)
    ensures match e
      case Ident(x) => SubstExpr(e, s) == if x in s then s[x] else e
      case Loop(_) => SubstExpr(e, s) == e
      case _ => SameForm(e, SubstExpr(e, s)) && Parts(SubstExpr(e, s)) == Sub(Parts(e), s)
  {
    hide SameForm, Parts;
    match e
    case Binary(_, _, _) => PlainKept(e, s);
    case Unary(_, _) => PlainKept(e, s);
    case Member(_, _) => PlainKept(e, s);
    case Raw(_) => PlainKept(e, s);
    case Bind(_, _) => BindKept(e, s);
    case Return(_) => OtherKept(e, s);
    case Cascade(_, _) => CascadeKept(e, s);
    case Tide(_) => OtherKept(e, s);
    case Call(_, _) => ListKept(e, s);
    case StructLiteral(_, _) => ListKept(e, s);
    case BlockExpr(_) => BodyKept(e, s);
    case Zone(_, _) => BodyKept(e, s);
    case While(_, _) => WhileKept(e, s);
    case Each(_, _, _) => EachKept(e, s);
    case Given(_, _, _) => GivenKept(e, s);
    case Branch(_, _) => BranchKept(e, s);
    case Seek(_, _, _) => SeekKept(e, s);
    case Ident(_) =>
    case Loop(_) =>
    case _ => LeafKept(e, s);
  }

  lemma {:induction false} LeafKept(e: Expr, s: Subst)
    requires e.Literal? || e.Path? || e.Next? || e.Break? || e.WitnessNew?
    ensures Kept(e, s)
  {
    assert SubstExpr(e, s) == e;
    hide SubstExpr;
  }

  // ---- The identifiers of an expression, in order, outside loops ----

  function Leaves(e: Expr): seq<string>
    decreases e, 0
  {
    match e
    case Ident(x) => [x]
    case Loop(_) => []
    case _ => LeavesUpTo(e, |Parts(e)|)
  }

  function LeavesUpTo(e: Expr, n: nat): seq<string>
    requires n <= |Parts(e)| && !e.Ident?
    decreases e, 0, n
  {
    if n == 0 then [] else PartSmaller(e, n - 1); LeavesUpTo(e, n - 1) + Leaves(Parts(e)[n - 1])
  }

  // Each name in the map replaced by the identifiers of what it stands for.
  function Spread(xs: seq<string>, s: Subst): seq<string> {
    if xs == [] then []
    else Spread(xs[..|xs| - 1], s)
         + (var x := xs[|xs| - 1]; if x in s then Leaves(s[x]) else [x])
  }

  lemma {:induction false} SpreadAdd(xs: seq<string>, ys: seq<string>, s: Subst)
    ensures Spread(xs + ys, s) == Spread(xs, s) + Spread(ys, s)
    decreases |ys|
  {
    hide Leaves;
    if ys == [] {
      assert xs + ys == xs;
    } else {
      assert (xs + ys)[..|xs + ys| - 1] == xs + ys[..|ys| - 1];
      SpreadAdd(xs, ys[..|ys| - 1], s);
    }
  }

  lemma {:induction false} LeavesAre(e: Expr)
    requires !e.Ident? && !e.Loop?
    ensures Leaves(e) == LeavesUpTo(e, |Parts(e)|)
  {
    hide Parts;
  }

  lemma {:induction false} IdentSpread(x: string, s: Subst)
    ensures Spread([x], s) == if x in s then Leaves(s[x]) else [x]
  {
    hide Leaves;
    assert Spread([x][..0], s) == [];
  }

  /** Exactly the identifiers in the map are replaced, each by what it stands for, wherever it stands outside loops. */
  lemma {:induction false} LeavesSpread(e: Expr, s: Subst)
    ensures Leaves(SubstExpr(e, s)) == Spread(Leaves(e), s)
    decreases e, 0
  {
    FormKept(e, s);
    if e.Ident? {
      hide SubstExpr;
      IdentSpread(e.name, s);
    } else if e.Loop? {
      hide SubstExpr;
    } else {
      hide SubstExpr, SameForm, Parts, Leaves, Spread;
      FormsAlike(e, SubstExpr(e, s));
      LeavesAre(e);
      LeavesAre(SubstExpr(e, s));
      LeavesSpreadUpTo(e, s, |Parts(e)|);
    }
  }

  lemma {:induction false} FormsAlike(e: Expr, r: Expr)
    requires SameForm(e, r) && !e.Ident? && !e.Loop?
    ensures !r.Ident? && !r.Loop?
  {
  }

  lemma {:induction false} LeavesSpreadUpTo(e: Expr, s: Subst, n: nat)
    requires !e.Ident? && !SubstExpr(e, s).Ident? && Parts(SubstExpr(e, s)) == Sub(Parts(e), s) && n <= |Parts(e)|
    ensures LeavesUpTo(SubstExpr(e, s), n) == Spread(LeavesUpTo(e, n), s)
    decreases e, 0, n
  {
    hide SubstExpr, Parts, Leaves;
    if n > 0 {
      PartSmaller(e, n - 1);
      LeavesSpreadUpTo(e, s, n - 1);
      LeavesSpread(Parts(e)[n - 1], s);
      SpreadAdd(LeavesUpTo(e, n - 1), Leaves(Parts(e)[n - 1]), s);
    }
  }

  /** An expression that mentions no name in the map, outside loops, stays as it is. */
  lemma {:induction false} Untouched(e: Expr, s: Subst)
    requires forall x :: x in Leaves(e) ==> x !in s
    ensures SubstExpr(e, s) == e
    decreases e, 0
  {
    hide SubstExpr, SameForm, Parts;
    FormKept(e, s);
    match e
    case Ident(x) => assert x in Leaves(e);
    case Loop(_) =>
    case _ =>
      UntouchedUpTo(e, s, |Parts(e)|);
      assert Parts(SubstExpr(e, s)) == Parts(e);
      FormAndParts(e, SubstExpr(e, s));
  }

  lemma {:induction false} UntouchedUpTo(e: Expr, s: Subst, n: nat)
    requires !e.Ident? && n <= |Parts(e)| && forall x :: x in LeavesUpTo(e, n) ==> x !in s
    ensures forall i :: 0 <= i < n ==> SubstExpr(Parts(e)[i], s) == Parts(e)[i]
    decreases e, 0, n
  {
    hide SubstExpr, Parts, Leaves;
    if n > 0 {
      PartSmaller(e, n - 1);
      UntouchedUpTo(e, s, n - 1);
      Untouched(Parts(e)[n - 1], s);
    }
  }
}
