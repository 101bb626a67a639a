/**
 Operators without a MIR form.  A forge has the code of the forge in which each such operator is addition, or
 negation if it is unary; so that is what its code means.
 */
module LowerOps {
  import opened Common
  import opened Mir
  import opened MirSemantics
  import opened Hir
  import opened HirSemantics
  import opened LowerSpec
  import opened Fragment
  import opened LowerFrame
  import opened LowerRules
  import opened LowerTheorem
  import opened LowerSame

  // ---- The forge with operators that MIR has ----

  function MappedBin(op: BinaryOp): BinaryOp {
    if BinCounterpart(op).Some? then op else OpAdd
  }

  function MappedUn(op: UnaryOp): UnaryOp {
    if UnCounterpart(op).Some? then op else OpNeg
  }

  function Mapped(e: Expr): Expr {
    match e
    case Lit(_) => e
    case Ident(_, _, _) => e
    case Bin(op, l, r, ty) => Bin(MappedBin(op), Mapped(l), Mapped(r), ty)
    case Un(op, x, ty) => Un(MappedUn(op), Mapped(x), ty)
    case CallExpr(c, args, reqs, ty) => CallExpr(Mapped(c), MappedAll(args), MappedAll(reqs), ty)
    case Given(c, t, el, ty) =>
      Given(Mapped(c), MappedBlock(t), match el { case None => None case Some(x) => Some(Mapped(x)) }, ty)
    case While(c, b) => While(Mapped(c), MappedBlock(b))
    case ReturnExpr(r) => ReturnExpr(match r { case None => None case Some(x) => Some(Mapped(x)) })
    case Zone(z, b, ty) => Zone(z, MappedBlock(b), ty)
  }

  function MappedAll(es: seq<Expr>): (r: seq<Expr>)
    ensures |r| == |es|
  {
    if es == [] then [] else [Mapped(es[0])] + MappedAll(es[1..])
  }

  function MappedBlock(b: HBlock): HBlock {
    HBlock(MappedStmts(b.stmts), match b.tail { case None => None case Some(x) => Some(Mapped(x)) })
  }

  function MappedStmts(ss: seq<Stmt>): (r: seq<Stmt>)
    ensures |r| == |ss|
  {
    if ss == [] then [] else [MappedStmt(ss[0])] + MappedStmts(ss[1..])
  }

  function MappedStmt(s: Stmt): Stmt {
    match s
    case Let(name, v, ty, init) => Let(name, v, ty, match init { case None => None case Some(x) => Some(Mapped(x)) })
    case AssignStmt(v, e) => AssignStmt(v, Mapped(e))
    case ExprStmt(e) => ExprStmt(Mapped(e))
  }

  function MappedForge(f: Forge): Forge {
    f.(body := match f.body { case None => None case Some(b) => Some(MappedBlock(b)) })
  }

  // ---- Mapping twice is mapping once, and keeps how returns nest ----

  lemma {:induction false} MappedTwice(e: Expr)
    ensures Mapped(Mapped(e)) == Mapped(e) && ReturnNest(Mapped(e)) == ReturnNest(e)
    decreases e
  {
    match e
    case Bin(_, l, r, _) => MappedTwice(l); MappedTwice(r);
    case Un(_, x, _) => MappedTwice(x);
    case CallExpr(c, args, reqs, _) =>
      MappedTwice(c);
      MappedTwiceAll(args);
      MappedTwiceAll(reqs);
    case Given(c, t, el, _) =>
      MappedTwice(c);
      MappedTwiceBlock(t);
      if el.Some? {
        MappedTwice(el.value);
      }
    case While(c, b) =>
      MappedTwice(c);
      MappedTwiceBlock(b);
    case ReturnExpr(r) =>
      if r.Some? {
        MappedTwice(r.value);
      }
    case Zone(_, b, _) => MappedTwiceBlock(b);
    case _ =>
  }

  lemma {:induction false} MappedTwiceAll(es: seq<Expr>)
    ensures MappedAll(MappedAll(es)) == MappedAll(es) && ReturnNestAll(MappedAll(es)) == ReturnNestAll(es)
    decreases es
  {
    if es != [] {
      assert MappedAll(es)[1..] == MappedAll(es[1..]);
      MappedTwice(es[0]);
      MappedTwiceAll(es[1..]);
    }
  }

  lemma {:induction false} MappedTwiceBlock(b: HBlock)
    ensures MappedBlock(MappedBlock(b)) == MappedBlock(b) && ReturnNestBlock(MappedBlock(b)) == ReturnNestBlock(b)
    decreases b
  {
    MappedTwiceStmts(b.stmts);
    if b.tail.Some? {
      MappedTwice(b.tail.value);
    }
  }

  lemma {:induction false} MappedTwiceStmts(ss: seq<Stmt>)
    ensures MappedStmts(MappedStmts(ss)) == MappedStmts(ss) && ReturnNestStmts(MappedStmts(ss)) == ReturnNestStmts(ss)
    decreases ss
  {
    if ss != [] {
      assert MappedStmts(ss)[1..] == MappedStmts(ss[1..]);
      MappedTwiceStmt(ss[0]);
      MappedTwiceStmts(ss[1..]);
    }
  }

  lemma {:induction false} MappedTwiceStmt(s: Stmt)
    ensures MappedStmt(MappedStmt(s)) == MappedStmt(s) && ReturnNestStmt(MappedStmt(s)) == ReturnNestStmt(s)
    decreases s
  {
    match s
    case Let(_, _, _, Some(e)) => MappedTwice(e);
    case Let(_, _, _, None) =>
    case AssignStmt(_, e) => MappedTwice(e);
    case ExprStmt(e) => MappedTwice(e);
  }

  /** A clause about a returned expression is, mapped, the clause about the mapped expression, mapped. */
  lemma {:induction false} MappedSubst(c: Expr, x: Expr)
    ensures Mapped(SubstResult(c, Mapped(x))) == Mapped(SubstResult(c, x))
    decreases c
  {
    match c
    case Ident(_, _, _) => MappedTwice(x);
    case Bin(_, l, r, _) => MappedSubst(l, x); MappedSubst(r, x);
    case Un(_, y, _) => MappedSubst(y, x);
    case CallExpr(d, args, reqs, _) =>
      MappedSubst(d, x);
      MappedSubstAll(args, x);
      MappedSubstAll(reqs, x);
    case _ =>
  }

  lemma {:induction false} MappedSubstAll(cs: seq<Expr>, x: Expr)
    ensures MappedAll(SubstResultAll(cs, Mapped(x))) == MappedAll(SubstResultAll(cs, x))
    decreases cs
  {
    if cs != [] {
      assert SubstResultAll(cs, x)[1..] == SubstResultAll(cs[1..], x);
      assert SubstResultAll(cs, Mapped(x))[1..] == SubstResultAll(cs[1..], Mapped(x));
      MappedSubst(cs[0], x);
      MappedSubstAll(cs[1..], x);
    }
  }

  // ---- Lowering does not tell ----

  lemma {:induction false} SameExpr(s: State, e: Expr)
    ensures LowerExpr(s, Mapped(e)) == LowerExpr(s, e)
    decreases ReturnNest(e), 1, e, 3
  {
    match e
    case Lit(_) =>
    case Ident(_, _, _) =>
    case Bin(_, _, _, _) => SameBin(s, e);
    case Un(_, x, _) => SameOperand(s, x);
    case CallExpr(_, _, _, _) => SameCall(s, e);
    case ReturnExpr(_) => SameReturn(s, e);
    case Zone(_, _, _) => SameZone(s, e);
    case Given(_, _, _, _) => SameGiven(s, e);
    case While(_, _) => SameWhile(s, e);
  }

  lemma {:induction false} SameBin(s: State, e: Expr)
    requires e.Bin?
    ensures LowerExpr(s, Mapped(e)) == LowerExpr(s, e)
    decreases ReturnNest(e), 1, e, 2
  {
    hide LowerOperand;
    SameOperand(s, e.lhs);
    SameOperand(LowerOperand(s, e.lhs).0, e.rhs);
  }

  lemma {:induction false} SameZone(s: State, e: Expr)
    requires e.Zone?
    ensures LowerExpr(s, Mapped(e)) == LowerExpr(s, e)
    decreases ReturnNest(e), 1, e, 2
  {
    hide LowerBlock;
    SameBlock(Push(s, ZoneEnter(e.zone)), e.body);
  }

  lemma {:induction false} SameWhile(s: State, e: Expr)
    requires e.While?
    ensures LowerExpr(s, Mapped(e)) == LowerExpr(s, e)
    decreases ReturnNest(e), 1, e, 2
  {
    hide LowerOperand, LowerBlock, OpenWhile, BranchWhile, JoinTo, MoveTo;
    SameOperand(OpenWhile(s), e.cond);
    var (s1, op) := LowerOperand(OpenWhile(s), e.cond);
    SameBlock(BranchWhile(s1, s.Size(), op), e.body);
  }

  lemma {:induction false} SameOperand(s: State, e: Expr)
    ensures LowerOperand(s, Mapped(e)) == LowerOperand(s, e)
    decreases ReturnNest(e), 1, e, 4
  {
    SameExpr(s, e);
  }

  lemma {:induction false} SameOperands(s: State, es: seq<Expr>)
    ensures LowerOperands(s, MappedAll(es)) == LowerOperands(s, es)
    decreases ReturnNestAll(es), 1, es
  {
    if es != [] {
      assert MappedAll(es)[1..] == MappedAll(es[1..]);
      SameOperand(s, es[0]);
      SameOperands(LowerOperand(s, es[0]).0, es[1..]);
    }
  }

  lemma {:induction false} SameAsserts(s: State, es: seq<Expr>, msg: string)
    ensures LowerAsserts(s, MappedAll(es), msg) == LowerAsserts(s, es, msg)
    decreases ReturnNestAll(es), 1, es
  {
    if es != [] {
      assert MappedAll(es)[1..] == MappedAll(es[1..]);
      SameOperand(s, es[0]);
      var (s1, op) := LowerOperand(s, es[0]);
      SameAsserts(Push(s1, Assert(op, msg)), es[1..], msg);
    }
  }

  lemma {:induction false} SameClauses(s: State, clauses: Clauses, result: Expr)
    ensures LowerClauses(s, clauses, Mapped(result)) == LowerClauses(s, clauses, result)
    decreases 1 + ReturnNest(result), 0, clauses
  {
    if clauses != [] {
      var (c, d) := (SubstResult(clauses[0], result), SubstResult(clauses[0], Mapped(result)));
      MappedTwice(result);
      SubstNest(clauses[0], result);
      SubstNest(clauses[0], Mapped(result));
      MappedSubst(clauses[0], result);
      SameOperand(s, c);
      SameOperand(s, d);
      var (s1, op) := LowerOperand(s, c);
      SameClauses(Push(s1, Assert(op, POSTCONDITION)), clauses[1..], result);
    }
  }

  lemma {:induction false} SameCall(s: State, e: Expr)
    requires e.CallExpr?
    ensures LowerExpr(s, Mapped(e)) == LowerExpr(s, e)
    decreases ReturnNest(e), 1, e, 2
  {
    SameOperands(s, e.args);
    var s1 := LowerOperands(s, e.args).0;
    SameAsserts(s1, e.reqs, PRECONDITION);
    CalleeMapped(e.callee);
    assert LowerExpr(s, e) == LowerCall(s, e) && LowerExpr(s, Mapped(e)) == LowerCall(s, Mapped(e));
  }

  lemma {:induction false} CalleeMapped(c: Expr)
    ensures CalleeName(Mapped(c)) == CalleeName(c) && (Mapped(c).Ident? <==> c.Ident?)
    ensures c.Ident? ==> Mapped(c) == c
  {
  }

  lemma {:induction false} SameReturn(s: State, e: Expr)
    requires e.ReturnExpr?
    ensures LowerExpr(s, Mapped(e)) == LowerExpr(s, e)
    decreases ReturnNest(e), 1, e, 2
  {
    assert LowerExpr(s, e) == LowerReturn(s, e) && LowerExpr(s, Mapped(e)) == LowerReturn(s, Mapped(e));
    hide LowerExpr;
    if e.result.Some? {
      var x := e.result.value;
      if x.CallExpr? {
        CalleeMapped(x.callee);
      }
      if IsSelfTailCall(s.forgeName, x) {
        assert ReturnNestAll(x.args) <= ReturnNest(x);
        SameOperands(s, x.args);
      } else {
        SameOperand(s, x);
        var s1 := LowerOperand(s, x).0;
        SameClauses(s1, s1.ensures_, x);
      }
    }
  }

  lemma {:induction false} SameGiven(s: State, e: Expr)
    requires e.Given?
    ensures LowerExpr(s, Mapped(e)) == LowerExpr(s, e)
    decreases ReturnNest(e), 1, e, 2
  {
    hide LowerExpr, LowerOperand, AfterThen, AfterElse;
    GivenLowered(s, e);
    GivenLowered(s, Mapped(e));
    GivenIsZero(s, e);
    GivenIsZero(s, Mapped(e));
    SameOperand(s, e.cond);
    var (s1, op) := LowerOperand(s, e.cond);
    SameThen(s1, op, e);
    SameElse(AfterThen(s1, op, e.thenBlock), s1.Size(), e);
  }

  lemma {:induction false} SameThen(s1: State, op: Operand, e: Expr)
    requires e.Given?
    ensures AfterThen(s1, op, MappedBlock(e.thenBlock)) == AfterThen(s1, op, e.thenBlock)
    decreases ReturnNest(e), 1, e, 1
  {
    hide LowerBlock, OpenGiven, JoinTo, MoveTo;
    SameBlock(OpenGiven(s1, op), e.thenBlock);
  }

  lemma {:induction false} SameElse(s4: State, n: nat, e: Expr)
    requires e.Given? && n + 2 < s4.Size()
    ensures AfterElse(s4, n, Mapped(e).elseExpr) == AfterElse(s4, n, e.elseExpr)
    decreases ReturnNest(e), 1, e, 1
  {
    hide LowerExpr, JoinTo, MoveTo;
    if e.elseExpr.Some? {
      SameExpr(s4, e.elseExpr.value);
    }
  }

  lemma {:induction false} SameBlock(s: State, b: HBlock)
    ensures LowerBlock(s, MappedBlock(b)) == LowerBlock(s, b)
    decreases ReturnNestBlock(b), 1, b
  {
    SameStmts(s, b.stmts);
    if b.tail.Some? {
      SameExpr(LowerStmts(s, b.stmts), b.tail.value);
    }
  }

  lemma {:induction false} SameStmts(s: State, ss: seq<Stmt>)
    ensures LowerStmts(s, MappedStmts(ss)) == LowerStmts(s, ss)
    decreases ReturnNestStmts(ss), 1, ss
  {
    if ss != [] {
      assert MappedStmts(ss)[1..] == MappedStmts(ss[1..]);
      SameStmt(s, ss[0]);
      SameStmts(LowerStmt(s, ss[0]), ss[1..]);
    }
  }

  lemma {:induction false} SameStmt(s: State, st: Stmt)
    ensures LowerStmt(s, MappedStmt(st)) == LowerStmt(s, st)
    decreases ReturnNestStmt(st), 1, st
  {
    match st
    case Let(_, _, _, None) =>
    case Let(_, _, _, Some(e)) =>
      SameExpr(s, e);
      TypeMapped(e);
    case AssignStmt(_, e) => SameExpr(s, e);
    case ExprStmt(e) => SameExpr(s, e);
  }

  lemma {:induction false} TypeMapped(e: Expr)
    ensures ExprType(Mapped(e)) == ExprType(e)
  {
  }

  /** A forge is lowered to the very code of the forge with the operators MIR has. */
  lemma {:induction false} SameCode(check: bool, f: Forge)
    requires ReturnNestAll(f.ensures_) == 0
    ensures LowerForge(check, MappedForge(f)) == LowerForge(check, f)
  {
    hide StartForge, LowerBlock;
    SameStart(check, f, MappedForge(f));
    if f.body.Some? {
      SameBlock(StartForge(check, f), f.body.value);
    }
  }

  /** So its code runs as that forge does: rightly if and only if the two end alike. */
  lemma {:induction false} OperatorsMean(I: HirInterp, check: bool, f: Forge, args: seq<Value>, status: Status,
      tr: seq<Event>)
    requires SoundForge(check, MappedForge(f)) && |f.params| == |args| && status != StillRunning
    ensures MirEnds(I.mir, LowerForge(check, f), ArgStore(args), status, tr) <==>
            HirEnds(I, check, MappedForge(f), args, status, tr)
  {
    hide LowerForge, SoundForge, HirEnds, MirEnds;
    SoundNest(check, MappedForge(f));
    SameCode(check, f);
    LoweringPreservesMeaning(I, check, MappedForge(f), args, status, tr);
  }
}
