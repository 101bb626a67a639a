/** Lowering keeps moves right: each temporary is set before its one use, on every way to it. */
module LowerTidy {
  import opened Common
  import opened Mir
  import opened Hir
  import opened LowerSpec
  import opened Fragment
  import opened LowerFrame
  import opened LowerShape
  import opened BorrowCheck
  import opened LowerMoves

  lemma {:induction false} ReadyFacts(m: Mode, s: State)
    requires Ready(m, s)
    ensures OpenEnd(s) && VarsOk(s) && TermEvents(s.Cur().term, s.cur) == []
  {
    ReadyOpen(m, s);
    OpenTerm(s);
  }

  lemma {:induction false} TidyExpr(m: Mode, s: State, e: Expr)
    requires Ready(m, s) && Shaped(m, e) && Kempt(s)
    ensures var (s', rv) := LowerExpr(s, e); Tidy(s, s', NoGap(s)) && PendingRv(s, s', rv)
    decreases ReturnNest(e), 1, e, 3
  {
    hide Ready, Tidy, Kempt, AllPending, Grows, OpenEnd, VarsOk, Coherent;
    ReadyFacts(m, s);
    TidyRefl(s);
    match e
    case Lit(lit) => ConstPending(s, s, LitConst(lit));
    case Ident(_, v, _) =>
      var (s', l) := ReadVariable(s, v);
      ReadTidy(s, v);
      OnePending(s, s', Copy(l));
    case Bin(_, l, r, _) => TidyBin(m, s, e);
    case Un(_, x, _) => TidyOperand(m, s, x);
    case CallExpr(_, _, _, _) => TidyCall(m, s, e);
    case ReturnExpr(_) =>
      TidyReturn(m, s, e);
      ConstPending(s, LowerExpr(s, e).0, IntConst(0));
    case Zone(z, b, _) => TidyZone(m, s, e);
    case Given(_, _, _, _) =>
      TidyGiven(m, s, e);
      ConstPending(s, LowerExpr(s, e).0, IntConst(0));
    case While(_, _) =>
      TidyWhile(m, s, e);
      ConstPending(s, LowerExpr(s, e).0, BoolConst(false));
  }

  lemma {:induction false} TidyBin(m: Mode, s: State, e: Expr)
    requires e.Bin? && Ready(m, s) && Shaped(m, e) && Kempt(s)
    ensures var (s', rv) := LowerExpr(s, e); Tidy(s, s', NoGap(s)) && PendingRv(s, s', rv)
    decreases ReturnNest(e), 1, e, 2
  {
    hide Ready, Tidy, Kempt, AllPending, OpenEnd, VarsOk;
    var (s1, lop) := LowerOperand(s, e.lhs);
    var (s2, rop) := LowerOperand(s1, e.rhs);
    TidyOperand(m, s, e.lhs);
    TidyOperand(m, s1, e.rhs);
    ReadyFacts(m, s1);
    TidyTrans(s, s1, s2, NoGap(s));
    OnePending(s, s1, lop);
    JoinPending(s, s1, s2, lop, [rop], NoGap(s));
    assert [lop] + [rop] == [lop, rop];
  }

  lemma {:induction false} TidyZone(m: Mode, s: State, e: Expr)
    requires e.Zone? && Ready(m, s) && Shaped(m, e) && Kempt(s)
    ensures var (s', rv) := LowerExpr(s, e); Tidy(s, s', NoGap(s)) && PendingRv(s, s', rv)
    decreases ReturnNest(e), 1, e, 2
  {
    hide Ready, Tidy, Kempt, AllPending, OpenEnd, VarsOk, Grows, LowerBlock, Push;
    ReadyFacts(m, s);
    TidyRefl(s);
    NothingPending(s, s);
    var s1 := Push(s, ZoneEnter(e.zone));
    MarkTidy(s, s, ZoneEnter(e.zone), []);
    TidyKempt(s, s1, NoGap(s));
    GrowsRefl(m, s);
    PushGrows(m, s, s, false, ZoneEnter(e.zone));
    StillReady(m, s, s1);
    var (s2, rv) := LowerBlock(s1, e.body);
    TidyBlock(m, s1, e.body);
    GrowBlock(m, s1, e.body);
    LeavesQuietly(m, s1, s2, BlockExits(e.body));
    TidyTrans(s, s1, s2, NoGap(s));
    RebaseAll(s, s1, s2, RvOperands(rv), NoGap(s));
    MarkTidy(s, s2, ZoneExit(e.zone), RvOperands(rv));
    assert LowerExpr(s, e) == (Push(s2, ZoneExit(e.zone)), rv);
  }

  // Where lowering ends a block, the end looks at nothing.
  lemma {:induction false} LeavesQuietly(m: Mode, s: State, s': State, exits: bool)
    requires Grows(m, s, s', exits)
    ensures TermEvents(s'.Cur().term, s'.cur) == []
  {
  }

  lemma {:induction false} TidyOperand(m: Mode, s: State, e: Expr)
    requires Ready(m, s) && ShapedOperand(m, e) && Kempt(s)
    ensures var (s', op) := LowerOperand(s, e);
      Tidy(s, s', NoGap(s)) && AllPending(s, s', [op]) && Ready(m, s') && Kempt(s')
    decreases ReturnNest(e), 1, e, 4
  {
    hide Ready, Tidy, Kempt, AllPending, OpenEnd, VarsOk, Grows;
    var (s1, rv) := LowerExpr(s, e);
    TidyExpr(m, s, e);
    GrowExpr(m, s, e);
    StillReady(m, s, s1);
    ReadyFacts(m, s1);
    ToOperandTidy(s, s1, rv);
    GrowOperand(m, s, e);
    StillReady(m, s, LowerOperand(s, e).0);
    TidyKempt(s, LowerOperand(s, e).0, NoGap(s));
  }

  lemma {:induction false} TidyOperands(m: Mode, s: State, es: seq<Expr>)
    requires Ready(m, s) && ShapedOperands(m, es) && Kempt(s)
    ensures var (s', ops) := LowerOperands(s, es);
      Tidy(s, s', NoGap(s)) && AllPending(s, s', ops) && Ready(m, s') && Kempt(s')
    decreases ReturnNestAll(es), 1, es
  {
    hide Ready, Tidy, Kempt, AllPending, OpenEnd, VarsOk;
    if es == [] {
      TidyRefl(s);
      NothingPending(s, s);
    } else {
      var (s1, op) := LowerOperand(s, es[0]);
      var (s2, ops) := LowerOperands(s1, es[1..]);
      TidyOperand(m, s, es[0]);
      TidyOperands(m, s1, es[1..]);
      ReadyFacts(m, s1);
      TidyTrans(s, s1, s2, NoGap(s));
      OnePending(s, s1, op);
      JoinPending(s, s1, s2, op, ops, NoGap(s));
    }
  }

  lemma {:induction false} TidyAsserts(m: Mode, s: State, es: seq<Expr>, msg: string)
    requires Ready(m, s) && ShapedOperands(m, es) && Kempt(s)
    ensures var s' := LowerAsserts(s, es, msg); Tidy(s, s', NoGap(s)) && Ready(m, s') && Kempt(s')
    decreases ReturnNestAll(es), 1, es
  {
    hide Ready, Tidy, Kempt, AllPending, OpenEnd, VarsOk;
    if es == [] {
      TidyRefl(s);
    } else {
      var (s1, op) := LowerOperand(s, es[0]);
      var s2 := Push(s1, Assert(op, msg));
      TidyOperand(m, s, es[0]);
      TidyMark(m, s, s1, Assert(op, msg));
      TidyAsserts(m, s2, es[1..], msg);
      TidyTrans(s, s2, LowerAsserts(s2, es[1..], msg), NoGap(s));
      TidyKempt(s, LowerAsserts(s, es, msg), NoGap(s));
    }
  }

  lemma {:induction false} TidyMark(m: Mode, s: State, s1: State, ins: Instruction)
    requires Tidy(s, s1, NoGap(s)) && Ready(m, s1) && ins.Assert?
    ensures Tidy(s, Push(s1, ins), NoGap(s)) && Ready(m, Push(s1, ins)) && Kempt(Push(s1, ins))
  {
    hide Ready, Tidy, Kempt, AllPending, OpenEnd, VarsOk, Grows, Push;
    ReadyFacts(m, s1);
    NothingPending(s, s1);
    MarkTidy(s, s1, ins, []);
    GrowsRefl(m, s1);
    PushGrows(m, s1, s1, false, ins);
    StillReady(m, s1, Push(s1, ins));
    TidyKempt(s, Push(s1, ins), NoGap(s));
  }

  lemma {:induction false} TidyClauses(m: Mode, s: State, clauses: Clauses, result: Expr)
    requires Ready(m, s) && ShapedOperands(m, clauses) && ShapedOperand(m, result) && Kempt(s)
    ensures var s' := LowerClauses(s, clauses, result); Tidy(s, s', NoGap(s)) && Ready(m, s') && Kempt(s')
    decreases 1 + ReturnNest(result), 0, clauses
  {
    hide Ready, Tidy, Kempt, AllPending, OpenEnd, VarsOk;
    if clauses == [] {
      TidyRefl(s);
    } else {
      var c := SubstResult(clauses[0], result);
      SubstNest(clauses[0], result);
      SubstShaped(m, clauses[0], result);
      var (s1, op) := LowerOperand(s, c);
      var s2 := Push(s1, Assert(op, POSTCONDITION));
      TidyOperand(m, s, c);
      TidyMark(m, s, s1, Assert(op, POSTCONDITION));
      TidyClauses(m, s2, clauses[1..], result);
      TidyTrans(s, s2, LowerClauses(s2, clauses[1..], result), NoGap(s));
      TidyKempt(s, LowerClauses(s, clauses, result), NoGap(s));
    }
  }

  lemma {:induction false} TidyCall(m: Mode, s: State, e: Expr)
    requires e.CallExpr? && Ready(m, s) && Shaped(m, e) && Kempt(s)
    ensures var (s', rv) := LowerExpr(s, e); Tidy(s, s', NoGap(s)) && PendingRv(s, s', rv)
    decreases ReturnNest(e), 1, e, 2
  {
    hide Tidy, Kempt, AllPending, OpenEnd, VarsOk, Coherent;
    var CallExpr(callee, args, reqs, retTy) := e;
    var (s1, ops) := LowerOperands(s, args);
    TidyOperands(m, s, args);
    ReadyFacts(m, s1);
    TidyRefl(s1);
    var s2 := if s1.checkContracts then LowerAsserts(s1, reqs, PRECONDITION) else s1;
    if m.check {
      TidyAsserts(m, s1, reqs, PRECONDITION);
    }
    assert LowerExpr(s, e) == LowerCall(s, e);
    hide LowerExpr, Ready, LowerAsserts;
    ReadyFacts(m, s2);
    TidyTrans(s, s1, s2, NoGap(s));
    KeepAll(s, s1, s2, ops, NoGap(s1));
    if retTy == Prim(Void) {
      var ins := Call(None, CalleeName(callee), ops);
      assert InstrEvents(ins, s2.cur) == Reads(ops, s2.cur) + [];
      PushTidy(s, s2, ins, ops, []);
      ConstPending(s, Push(s2, ins), BoolConst(false));
    } else {
      SetTidy(s, s2, "call_tmp", retTy, Call(Some(|s2.body.locals|), CalleeName(callee), ops), ops);
    }
  }

  lemma {:induction false} TidyReturn(m: Mode, s: State, e: Expr)
    requires e.ReturnExpr? && Ready(m, s) && Shaped(m, e) && Kempt(s)
    ensures Tidy(s, LowerExpr(s, e).0, NoGap(s))
    decreases ReturnNest(e), 1, e, 2
  {
    hide Tidy, Kempt, AllPending, OpenEnd, VarsOk, Coherent;
    assert LowerExpr(s, e) == LowerReturn(s, e);
    hide LowerExpr;
    match e.result
    case None => EndTidy(s, Return(None));
    case Some(x) =>
      if IsSelfTailCall(s.forgeName, x) {
        TidyTailCall(m, s, e);
      } else {
        var (s1, op) := LowerOperand(s, x);
        TidyOperand(m, s, x);
        GrowOperand(m, s, x);
        TidyRefl(s1);
        var s2 := if s1.checkContracts then LowerClauses(s1, s1.ensures_, x) else s1;
        if m.check {
          TidyClauses(m, s1, s1.ensures_, x);
        }
        hide Ready, LowerClauses;
        ReadyIs(m, s2);
        TidyTrans(s, s1, s2, NoGap(s));
        EndTidy(s2, Return(Some(op)));
        TidyTrans(s, s2, Terminate(s2, s2.cur, Return(Some(op))), NoGap(s));
      }
  }

  lemma {:induction false} TidyTailCall(m: Mode, s: State, e: Expr)
    requires e.ReturnExpr? && e.result.Some? && IsSelfTailCall(m.forgeName, e.result.value)
    requires Ready(m, s) && Shaped(m, e) && Kempt(s)
    ensures Tidy(s, LowerReturn(s, e).0, NoGap(s))
    decreases ReturnNest(e), 1, e, 1
  {
    hide Ready, Tidy, Kempt, AllPending, OpenEnd, VarsOk, Grows, Rebind;
    ReadyIs(m, s);
    var x := e.result.value;
    assert ReturnNestAll(x.args) <= ReturnNest(x);
    var (s1, ops) := LowerOperands(s, x.args);
    TidyOperands(m, s, x.args);
    ReadyFacts(m, s1);
    assert |ops| > 0 ==> ops[0..] == ops;
    NothingPending(s, s1);
    RebindTidy(s, s1, s1.paramDefs, ops, 0);
    var s2 := Rebind(s1, s1.paramDefs, ops, 0);
    GrowsRefl(m, s1);
    RebindGrows(m, s1, s1, s1.paramDefs, ops, 0);
    StillReady(m, s1, s2);
    ReadyIs(m, s2);
    TidyKempt(s, s2, NoGap(s));
    JumpTidy(s2);
    var s3 := AddEdge(s2, s2.cur, s2.header, Unconditional);
    TidyTrans(s, s2, Terminate(s3, s3.cur, Goto(s3.header)), NoGap(s));
  }

  lemma {:induction false} TidyGiven(m: Mode, s: State, e: Expr)
    requires e.Given? && Ready(m, s) && Shaped(m, e) && Kempt(s)
    ensures Tidy(s, LowerExpr(s, e).0, NoGap(s))
    decreases ReturnNest(e), 1, e, 2
  {
    hide Ready, Tidy, Kempt, AllPending, OpenEnd, VarsOk, Grows, HalfGiven, Kept, Shaped, ShapedBlock;
    hide LowerExpr, LowerOperand, AfterThen, AfterElse;
    GivenLowered(s, e);
    GivenShaped(m, e);
    var (s1, op) := LowerOperand(s, e.cond);
    TidyOperand(m, s, e.cond);
    var s4 := AfterThen(s1, op, e.thenBlock);
    TidyThen(m, s, s1, op, e);
    GrowThen(m, s1, op, e);
    TidyKempt(s, s4, Gap(s1.Size(), s1.Size() + 3));
    TidyKempt(s, s1, NoGap(s));
    TidyElse(m, s, s4, s1.Size(), e);
    CloseGap(s, AfterElse(s4, s1.Size(), e.elseExpr), Gap(s1.Size(), s1.Size() + 3));
  }

  lemma {:induction false} TidyThen(m: Mode, s: State, s1: State, op: Operand, e: Expr)
    requires e.Given? && ShapedBlock(m, e.thenBlock) && Ready(m, s1) && Kempt(s1)
    requires Tidy(s, s1, NoGap(s)) && AllPending(s, s1, [op])
    ensures Tidy(s, AfterThen(s1, op, e.thenBlock), Gap(s1.Size(), s1.Size() + 3))
    decreases ReturnNest(e), 1, e, 1
  {
    hide Ready, Tidy, Kempt, AllPending, OpenEnd, VarsOk, Kept, Opened, OpenGiven, JoinTo, MoveTo, LowerBlock;
    var n := s1.Size();
    var g := Gap(n, n + 3);
    var s2 := OpenGiven(s1, op);
    ReadyFacts(m, s1);
    OpenGivenFacts(m, s1, op);
    OpenGivenTidy(s, s1, op);
    TidyKempt(s, s2, g);
    TidyKempt(s, s1, NoGap(s));
    var s3 := LowerBlock(s2, e.thenBlock).0;
    TidyBlock(m, s2, e.thenBlock);
    TidyTrans(s, s2, s3, g);
    JoinTidy(s, s3, g, n + 2, n + 1);
  }

  lemma {:induction false} TidyElse(m: Mode, s: State, s4: State, n: nat, e: Expr)
    requires e.Given? && (e.elseExpr.Some? ==> Shaped(m, e.elseExpr.value)) && Ready(m, s4) && Kempt(s4)
    requires Tidy(s, s4, Gap(n, n + 3)) && n + 3 <= s4.Size() && s.Size() <= n
    ensures Tidy(s, AfterElse(s4, n, e.elseExpr), Gap(n, n + 3))
    decreases ReturnNest(e), 1, e, 1
  {
    hide Ready, Tidy, Kempt, PendingRv, JoinTo, MoveTo, LowerExpr, Shaped;
    var g := Gap(n, n + 3);
    var s5 := OptLower(s4, e.elseExpr);
    if e.elseExpr.Some? {
      TidyExpr(m, s4, e.elseExpr.value);
      TidyTrans(s, s4, s5, g);
    }
    JoinTidy(s, s5, g, n + 2, n + 2);
  }

  lemma {:induction false} TidyWhile(m: Mode, s: State, e: Expr)
    requires e.While? && Ready(m, s) && Shaped(m, e) && Kempt(s)
    ensures Tidy(s, LowerExpr(s, e).0, NoGap(s))
    decreases ReturnNest(e), 1, e, 2
  {
    hide Ready, Tidy, Kempt, AllPending, OpenEnd, VarsOk, Grows, Kept, Shaped, ShapedBlock, Straight;
    hide OpenWhile, BranchWhile, JoinTo, MoveTo, LowerExpr, LowerOperand, LowerBlock;
    WhileLowered(s, e);
    ReadyIs(m, s);
    WhileShaped(m, e);
    var c := s.Size();
    var g := Gap(c, c + 3);
    var s1 := OpenWhile(s);
    ReadyFacts(m, s);
    OpenWhileFacts(m, s);
    OpenWhileTidy(s);
    TidyKempt(s, s1, g);
    ReadyIs(m, s1);
    var (s2, op) := LowerOperand(s1, e.cond);
    TidyOperand(m, s1, e.cond);
    StraightOperandStays(s1, e.cond);
    TidyTrans(s, s1, s2, g);
    TidyBranch(m, s, s1, s2, op, e);
    var s3 := BranchWhile(s2, c, op);
    var s4 := LowerBlock(s3, e.body).0;
    TidyBlock(m, s3, e.body);
    TidyTrans(s, s3, s4, g);
    JoinTidy(s, s4, g, c, c + 2);
    CloseGap(s, MoveTo(JoinTo(s4, c), c + 2), g);
  }

  lemma {:induction false} WhileOpened(s: State)
    ensures var s1 := OpenWhile(s);
      s1.cur == s.Size() && s1.Size() == s.Size() + 3 && s1.body.blocks[s.Size() + 1] == EMPTY_BLOCK
  {
  }

  lemma {:induction false} TidyBranch(m: Mode, s: State, s1: State, s2: State, op: Operand, e: Expr)
    requires var c := s.Size();
      && s1 == OpenWhile(s) && Ready(m, s1) && e.While? && ShapedOperand(m, e.cond) && s2.cur == s1.cur
      && Tidy(s, s1, Gap(c, c + 3)) && Tidy(s1, s2, NoGap(s1)) && Tidy(s, s2, Gap(c, c + 3))
      && AllPending(s1, s2, [op]) && (s2, op) == LowerOperand(s1, e.cond) && Ready(m, s2)
    ensures Tidy(s, BranchWhile(s2, s.Size(), op), Gap(s.Size(), s.Size() + 3))
    ensures Ready(m, BranchWhile(s2, s.Size(), op)) && Kempt(BranchWhile(s2, s.Size(), op))
  {
    var c := s.Size();
    WhileOpened(s);
    hide Ready, Tidy, Kempt, AllPending, OpenEnd, VarsOk, Grows, Kept, Branched, OpenWhile, BranchWhile, LowerOperand;
    GrowOperand(m, s1, e.cond);
    ReadyFacts(m, s2);
    KeepsBlock(m, s1, s2, false, c + 1);
    BranchWhileFacts(m, s2, c, op);
    OnePending(s1, s2, op);
    SetHere(s1, s2, op);
    RebaseAll(s, s1, s2, [op], Gap(c, c + 3));
    BranchTidy(s, s2, c, op);
    TidyKempt(s, BranchWhile(s2, c, op), Gap(c, c + 3));
  }

  lemma {:induction false} TidyBlock(m: Mode, s: State, b: HBlock)
    requires Ready(m, s) && ShapedBlock(m, b) && Kempt(s)
    ensures var (s', rv) := LowerBlock(s, b); Tidy(s, s', NoGap(s)) && PendingRv(s, s', rv)
    decreases ReturnNestBlock(b), 1, b
  {
    hide Ready, Tidy, Kempt, AllPending, Grows;
    var s1 := LowerStmts(s, b.stmts);
    TidyStmts(m, s, b.stmts, b.tail.None?);
    match b.tail
    case None => ConstPending(s, s1, BoolConst(false));
    case Some(e) =>
      NoExit(m, b.stmts);
      GrowStmts(m, s, b.stmts, false);
      StillReady(m, s, s1);
      TidyKempt(s, s1, NoGap(s));
      var (s2, rv) := LowerExpr(s1, e);
      TidyExpr(m, s1, e);
      TidyTrans(s, s1, s2, NoGap(s));
      RebaseAll(s, s1, s2, RvOperands(rv), NoGap(s));
  }

  lemma {:induction false} TidyStmts(m: Mode, s: State, ss: seq<Stmt>, mayExit: bool)
    requires Ready(m, s) && ShapedStmts(m, ss, mayExit) && Kempt(s)
    ensures Tidy(s, LowerStmts(s, ss), NoGap(s))
    decreases ReturnNestStmts(ss), 1, ss
  {
    hide Ready, Tidy, Kempt, Grows;
    if ss == [] {
      TidyRefl(s);
    } else {
      var s1 := LowerStmt(s, ss[0]);
      TidyStmt(m, s, ss[0]);
      if |ss| == 1 {
        assert LowerStmts(s1, ss[1..]) == s1;
      } else {
        GrowStmt(m, s, ss[0]);
        StillReady(m, s, s1);
        TidyKempt(s, s1, NoGap(s));
        TidyStmts(m, s1, ss[1..], mayExit);
        TidyTrans(s, s1, LowerStmts(s1, ss[1..]), NoGap(s));
      }
    }
  }

  lemma {:induction false} TidyStmt(m: Mode, s: State, st: Stmt)
    requires Ready(m, s) && ShapedStmt(m, st) && Kempt(s)
    ensures Tidy(s, LowerStmt(s, st), NoGap(s))
    decreases ReturnNestStmt(st), 1, st
  {
    hide Ready, Tidy, Kempt, Grows, AllPending, OpenEnd, VarsOk, ExprType;
    match st
    case Let(_, _, _, None) => TidyRefl(s);
    case Let(name, v, ty, Some(e)) =>
      var (s1, rv) := LowerExpr(s, e);
      TidyExpr(m, s, e);
      TidyKempt(s, s1, NoGap(s));
      LetTidy(s1, name, v, ty, e);
      var (s2, l) := LetLocal(s1, name, v, ty, e);
      GrowExpr(m, s, e);
      StillReady(m, s, s1);
      TidyAssign(m, s, s1, s2, l, rv);
    case AssignStmt(v, e) =>
      var (s1, rv) := LowerExpr(s, e);
      TidyExpr(m, s, e);
      TidyKempt(s, s1, NoGap(s));
      GrowExpr(m, s, e);
      StillReady(m, s, s1);
      ReadyFacts(m, s1);
      ReadTidy(s1, v);
      var (s2, l) := ReadVariable(s1, v);
      TidyAssign(m, s, s1, s2, l, rv);
    case ExprStmt(e) => TidyExpr(m, s, e);
  }

  lemma {:induction false} TidyAssign(m: Mode, s: State, s1: State, s2: State, l: Local, rv: Rvalue)
    requires Ready(m, s1) && Tidy(s, s1, NoGap(s)) && PendingRv(s, s1, rv) && Tidy(s1, s2, NoGap(s1))
    requires s2.body.blocks == s1.body.blocks && s2.body.edges == s1.body.edges && s2.cur == s1.cur
    ensures Tidy(s, Push(s2, Assign(l, rv)), NoGap(s))
  {
    hide Ready, Tidy, AllPending, OpenEnd, VarsOk, Push;
    ReadyFacts(m, s1);
    TidyKempt(s, s1, NoGap(s));
    TidyTrans(s, s1, s2, NoGap(s));
    KeepAll(s, s1, s2, RvOperands(rv), NoGap(s1));
    SameOpen(s1, s2);
    AssignTidy(s, s2, l, rv);
  }
}
