/**
 Different forges with the same code.  A forge outside the preserved fragment is lowered to what another forge,
 one that may be inside it, is lowered to; so its code means what that other forge means.
 */
module LowerSame {
  import opened Common
  import opened Mir
  import opened MirSemantics
  import opened Hir
  import opened HirSemantics
  import opened LowerSpec
  import opened Fragment
  import opened LowerFrame
  import opened LowerShape
  import opened LowerRules
  import opened LowerTheorem

  // The same forge with another body.
  function WithBody(f: Forge, stmts: seq<Stmt>, tail: Option<Expr>): Forge {
    f.(body := Some(HBlock(stmts, tail)))
  }

  lemma {:induction false} StmtsConcat(s: State, ss: seq<Stmt>, tt: seq<Stmt>)
    ensures LowerStmts(s, ss + tt) == LowerStmts(LowerStmts(s, ss), tt)
    decreases ss
  {
    hide LowerStmt;
    if ss == [] {
      assert ss + tt == tt;
    } else {
      assert (ss + tt)[1..] == ss[1..] + tt;
      StmtsConcat(LowerStmt(s, ss[0]), ss[1..], tt);
    }
  }

  lemma {:induction false} OneStmt(s: State, st: Stmt)
    ensures LowerStmts(s, [st]) == LowerStmt(s, st)
  {
    hide LowerStmt;
    assert [st][1..] == [];
    assert LowerStmts(LowerStmt(s, st), []) == LowerStmt(s, st);
  }

  // ---- The value of a given ----

  const RETURN_ZERO := ReturnExpr(Some(Lit(IntLit(0))))

  lemma {:induction false} ReturnLit(s: State, lit: Literal)
    requires !s.checkContracts || s.ensures_ == []
    ensures LowerExpr(s, ReturnExpr(Some(Lit(lit)))) ==
            (Terminate(s, s.cur, Return(Some(Const(LitConst(lit))))), ZERO_RV)
  {
    var x := Lit(lit);
    assert LowerOperand(s, x) == (s, Const(LitConst(lit)));
    assert LowerClauses(s, [], x) == s;
    assert LowerExpr(s, ReturnExpr(Some(x))) == LowerReturn(s, ReturnExpr(Some(x)));
  }

  lemma {:induction false} ReturnGiven(s: State, g: Expr)
    requires g.Given? && (!s.checkContracts || s.ensures_ == [])
    ensures LowerExpr(s, ReturnExpr(Some(g))) == LowerExpr(LowerExpr(s, g).0, RETURN_ZERO)
  {
    var s1 := LowerExpr(s, g).0;
    ConfineExpr(s, g);
    GivenIsZero(s, g);
    assert LowerOperand(s, g) == (s1, Const(IntConst(0)));
    assert LowerClauses(s1, [], g) == s1;
    assert LowerExpr(s, ReturnExpr(Some(g))) == LowerReturn(s, ReturnExpr(Some(g)));
    hide LowerExpr;
    ReturnLit(s1, IntLit(0));
  }

  /** `return given ...` is `given ...; return 0`. */
  lemma {:induction false} ReturnedGivenIsZero(check: bool, f: Forge, ss: seq<Stmt>, g: Expr)
    requires g.Given? && ReturnNestAll(f.ensures_) == 0 && (!check || f.ensures_ == [])
    ensures LowerForge(check, WithBody(f, ss, Some(ReturnExpr(Some(g))))) ==
            LowerForge(check, WithBody(f, ss + [ExprStmt(g)], Some(RETURN_ZERO)))
  {
    hide LowerExpr, StartForge;
    var s := StartForge(check, f);
    var s1 := LowerStmts(s, ss);
    StartSetup(check, f);
    ConfineStmts(s, ss);
    StmtsConcat(s, ss, [ExprStmt(g)]);
    OneStmt(s1, ExprStmt(g));
    ReturnGiven(s1, g);
    SameStart(check, f, WithBody(f, ss, Some(ReturnExpr(Some(g)))));
    SameStart(check, f, WithBody(f, ss + [ExprStmt(g)], Some(RETURN_ZERO)));
    hide LowerStmts;
  }

  lemma {:induction false} StartSetup(check: bool, f: Forge)
    requires ReturnNestAll(f.ensures_) == 0
    ensures StartForge(check, f).checkContracts == check && StartForge(check, f).ensures_ == f.ensures_
  {
    var s0 := Lowering(MirBody([EMPTY_BLOCK, EMPTY_BLOCK], [], 0, [], |f.params|),
                       0, 1, f.name, ParamDefs(f.params), map[], check, f.ensures_);
    BindParamsFacts(s0, f.params);
  }

  // Before the body is looked at, only name, parameters and clauses count.
  lemma {:induction false} SameStart(check: bool, f: Forge, f': Forge)
    requires ReturnNestAll(f.ensures_) == 0
    requires f'.params == f.params && f'.name == f.name && f'.ensures_ == f.ensures_
    ensures StartForge(check, f') == StartForge(check, f)
  {
  }

  /** So its code means that the given is run and 0 is returned, and not what the given is worth. */
  lemma {:induction false} ReturnedGivenMeans(I: HirInterp, check: bool, f: Forge, ss: seq<Stmt>, g: Expr,
      args: seq<Value>, status: Status, tr: seq<Event>)
    requires g.Given? && (!check || f.ensures_ == []) && status != StillRunning && |f.params| == |args|
    requires SoundForge(check, WithBody(f, ss + [ExprStmt(g)], Some(RETURN_ZERO)))
    ensures var body := LowerForge(check, WithBody(f, ss, Some(ReturnExpr(Some(g)))));
      MirEnds(I.mir, body, ArgStore(args), status, tr) <==>
            HirEnds(I, check, WithBody(f, ss + [ExprStmt(g)], Some(RETURN_ZERO)), args, status, tr)
  {
    hide LowerForge, SoundForge, HirEnds, MirEnds;
    SoundNest(check, WithBody(f, ss + [ExprStmt(g)], Some(RETURN_ZERO)));
    ReturnedGivenIsZero(check, f, ss, g);
    LoweringPreservesMeaning(I, check, WithBody(f, ss + [ExprStmt(g)], Some(RETURN_ZERO)), args, status, tr);
  }

  lemma {:induction false} SoundNest(check: bool, f: Forge)
    requires SoundForge(check, f)
    ensures ReturnNestAll(f.ensures_) == 0
  {
  }

  // ---- Code behind a return ----

  lemma {:induction false} PushEnded(s: State, term: Terminator, ins: Instruction)
    ensures Push(Terminate(s, s.cur, term), ins) == Terminate(Push(s, ins), s.cur, term)
  {
    var (l, r) := (Push(Terminate(s, s.cur, term), ins), Terminate(Push(s, ins), s.cur, term));
    assert l.body.blocks == r.body.blocks;
  }

  // The block ended first, or the code put into it first: straight code does not tell.
  ghost predicate Commutes(s: State, term: Terminator, ended: State, s': State) {
    s'.cur == s.cur && ended == Terminate(s', s.cur, term) && s'.checkContracts == s.checkContracts
  }

  lemma {:induction false} ToOperandEnded(s: State, term: Terminator, rv: Rvalue)
    ensures ToOperand(Terminate(s, s.cur, term), rv).1 == ToOperand(s, rv).1
    ensures Commutes(s, term, ToOperand(Terminate(s, s.cur, term), rv).0, ToOperand(s, rv).0)
  {
    if !rv.Use? {
      var l := |s.body.locals|;
      PushEnded(NewLocal(s, "tmp", RvalueType(s.body.locals, rv)), term, Assign(l, rv));
    }
  }

  lemma {:induction false} ExprEnded(s: State, term: Terminator, e: Expr)
    requires Straight(s.checkContracts, e)
    ensures LowerExpr(Terminate(s, s.cur, term), e).1 == LowerExpr(s, e).1
    ensures Commutes(s, term, LowerExpr(Terminate(s, s.cur, term), e).0, LowerExpr(s, e).0)
    decreases e, 1
  {
    hide RvalueType;
    match e
    case Lit(_) =>
    case Ident(_, _, _) =>
    case Bin(_, l, r, _) =>
      OperandEnded(s, term, l);
      OperandEnded(LowerOperand(s, l).0, term, r);
    case Un(_, x, _) => OperandEnded(s, term, x);
    case CallExpr(_, _, _, _) => CallEnded(s, term, e);
    case Zone(z, b, _) =>
      PushEnded(s, term, ZoneEnter(z));
      BlockEnded(Push(s, ZoneEnter(z)), term, b);
      PushEnded(LowerBlock(Push(s, ZoneEnter(z)), b).0, term, ZoneExit(z));
    case _ =>
  }

  lemma {:induction false} CallEnded(s: State, term: Terminator, e: Expr)
    requires e.CallExpr? && Straight(s.checkContracts, e)
    ensures LowerExpr(Terminate(s, s.cur, term), e).1 == LowerExpr(s, e).1
    ensures Commutes(s, term, LowerExpr(Terminate(s, s.cur, term), e).0, LowerExpr(s, e).0)
    decreases e, 0
  {
    var CallExpr(callee, args, reqs, retTy) := e;
    var t := Terminate(s, s.cur, term);
    assert LowerExpr(s, e) == LowerCall(s, e) && LowerExpr(t, e) == LowerCall(t, e);
    OperandsEnded(s, term, args);
    var (s1, ops) := LowerOperands(s, args);
    var s2 := if s1.checkContracts then LowerAsserts(s1, reqs, PRECONDITION) else s1;
    if s1.checkContracts {
      AssertsEnded(s1, term, reqs, PRECONDITION);
    }
    hide LowerExpr, LowerAsserts, LowerOperands;
    if retTy == Prim(Void) {
      PushEnded(s2, term, Call(None, CalleeName(callee), ops));
    } else {
      PushEnded(NewLocal(s2, "call_tmp", retTy), term, Call(Some(|s2.body.locals|), CalleeName(callee), ops));
    }
  }

  lemma {:induction false} OperandEnded(s: State, term: Terminator, e: Expr)
    requires Straight(s.checkContracts, e)
    ensures LowerOperand(Terminate(s, s.cur, term), e).1 == LowerOperand(s, e).1
    ensures Commutes(s, term, LowerOperand(Terminate(s, s.cur, term), e).0, LowerOperand(s, e).0)
    decreases e, 2
  {
    ExprEnded(s, term, e);
    hide LowerExpr;
    ToOperandEnded(LowerExpr(s, e).0, term, LowerExpr(s, e).1);
  }

  lemma {:induction false} OperandsEnded(s: State, term: Terminator, es: seq<Expr>)
    requires StraightAll(s.checkContracts, es)
    ensures LowerOperands(Terminate(s, s.cur, term), es).1 == LowerOperands(s, es).1
    ensures Commutes(s, term, LowerOperands(Terminate(s, s.cur, term), es).0, LowerOperands(s, es).0)
    decreases es, 0
  {
    hide LowerOperand;
    if es != [] {
      OperandEnded(s, term, es[0]);
      OperandsEnded(LowerOperand(s, es[0]).0, term, es[1..]);
    }
  }

  lemma {:induction false} AssertsEnded(s: State, term: Terminator, es: seq<Expr>, msg: string)
    requires StraightAll(s.checkContracts, es)
    ensures Commutes(s, term, LowerAsserts(Terminate(s, s.cur, term), es, msg), LowerAsserts(s, es, msg))
    decreases es, 0
  {
    hide LowerOperand;
    if es != [] {
      OperandEnded(s, term, es[0]);
      var (s1, op) := LowerOperand(s, es[0]);
      PushEnded(s1, term, Assert(op, msg));
      AssertsEnded(Push(s1, Assert(op, msg)), term, es[1..], msg);
    }
  }

  lemma {:induction false} BlockEnded(s: State, term: Terminator, b: HBlock)
    requires StraightBlock(s.checkContracts, b)
    ensures LowerBlock(Terminate(s, s.cur, term), b).1 == LowerBlock(s, b).1
    ensures Commutes(s, term, LowerBlock(Terminate(s, s.cur, term), b).0, LowerBlock(s, b).0)
    decreases b, 0
  {
    hide LowerExpr;
    StmtsEnded(s, term, b.stmts);
    if b.tail.Some? {
      ExprEnded(LowerStmts(s, b.stmts), term, b.tail.value);
    }
  }

  lemma {:induction false} StmtsEnded(s: State, term: Terminator, ss: seq<Stmt>)
    requires StraightStmts(s.checkContracts, ss)
    ensures Commutes(s, term, LowerStmts(Terminate(s, s.cur, term), ss), LowerStmts(s, ss))
    decreases ss, 0
  {
    hide LowerStmt;
    if ss != [] {
      StmtEnded(s, term, ss[0]);
      StmtsEnded(LowerStmt(s, ss[0]), term, ss[1..]);
    }
  }

  lemma {:induction false} StmtEnded(s: State, term: Terminator, st: Stmt)
    requires StraightStmt(s.checkContracts, st)
    ensures Commutes(s, term, LowerStmt(Terminate(s, s.cur, term), st), LowerStmt(s, st))
    decreases st, 0
  {
    hide ExprType;
    match st
    case Let(_, _, _, None) =>
    case Let(name, v, ty, Some(e)) =>
      ExprEnded(s, term, e);
      hide LowerExpr;
      var (s1, rv) := LowerExpr(s, e);
      var (s2, l) := LetLocal(s1, name, v, ty, e);
      PushEnded(s2, term, Assign(l, rv));
    case AssignStmt(v, e) =>
      ExprEnded(s, term, e);
      hide LowerExpr;
      var (s1, rv) := LowerExpr(s, e);
      var (s2, l) := ReadVariable(s1, v);
      PushEnded(s2, term, Assign(l, rv));
    case ExprStmt(e) => ExprEnded(s, term, e);
  }

  /** `return k; after` is `after; return k`, for a literal and straight code. */
  lemma {:induction false} ReturnComesLast(check: bool, f: Forge, ss: seq<Stmt>, lit: Literal, after: seq<Stmt>)
    requires ReturnNestAll(f.ensures_) == 0 && (!check || f.ensures_ == []) && StraightStmts(check, after)
    ensures var r := ExprStmt(ReturnExpr(Some(Lit(lit))));
      LowerForge(check, WithBody(f, ss + [r] + after, None)) == LowerForge(check, WithBody(f, ss + after + [r], None))
  {
    hide LowerExpr, StartForge, LowerStmt, StraightStmts;
    var r := ExprStmt(ReturnExpr(Some(Lit(lit))));
    var s := StartForge(check, f);
    StartSetup(check, f);
    SameStart(check, f, WithBody(f, ss + [r] + after, None));
    SameStart(check, f, WithBody(f, ss + after + [r], None));
    var s1 := LowerStmts(s, ss);
    ConfineStmts(s, ss);
    StmtsConcat(s, ss + [r], after);
    StmtsConcat(s, ss, [r]);
    StmtsConcat(s, ss + after, [r]);
    StmtsConcat(s, ss, after);
    SwapReturn(s1, lit, after);
    hide LowerStmts;
  }

  lemma {:induction false} SwapReturn(s: State, lit: Literal, after: seq<Stmt>)
    requires (!s.checkContracts || s.ensures_ == []) && StraightStmts(s.checkContracts, after)
    ensures var r := ExprStmt(ReturnExpr(Some(Lit(lit))));
      LowerStmts(LowerStmts(s, [r]), after) == LowerStmts(LowerStmts(s, after), [r])
  {
    hide LowerExpr, StraightStmts, LowerStmt;
    var r := ExprStmt(ReturnExpr(Some(Lit(lit))));
    var term := Return(Some(Const(LitConst(lit))));
    var s1 := LowerStmts(s, after);
    ConfineStmts(s, after);
    StmtsEnded(s, term, after);
    StmtReturns(s, lit);
    StmtReturns(s1, lit);
    OneStmt(s, r);
    OneStmt(s1, r);
  }

  lemma {:induction false} StmtReturns(s: State, lit: Literal)
    requires !s.checkContracts || s.ensures_ == []
    ensures LowerStmt(s, ExprStmt(ReturnExpr(Some(Lit(lit))))) ==
            Terminate(s, s.cur, Return(Some(Const(LitConst(lit)))))
  {
    hide LowerExpr;
    ReturnLit(s, lit);
  }

  /** So such code is run, and the return comes after it. */
  lemma {:induction false} CodeBehindReturnMeans(I: HirInterp, check: bool, f: Forge, ss: seq<Stmt>, lit: Literal,
      after: seq<Stmt>, args: seq<Value>, status: Status, tr: seq<Event>)
    requires (!check || f.ensures_ == []) && StraightStmts(check, after)
    requires status != StillRunning && |f.params| == |args|
    requires SoundForge(check, WithBody(f, ss + after + [ExprStmt(ReturnExpr(Some(Lit(lit))))], None))
    ensures var r := ExprStmt(ReturnExpr(Some(Lit(lit))));
      MirEnds(I.mir, LowerForge(check, WithBody(f, ss + [r] + after, None)), ArgStore(args), status, tr) <==>
      HirEnds(I, check, WithBody(f, ss + after + [r], None), args, status, tr)
  {
    hide LowerForge, SoundForge, HirEnds, MirEnds, StraightStmts;
    var f' := WithBody(f, ss + after + [ExprStmt(ReturnExpr(Some(Lit(lit))))], None);
    SoundNest(check, f');
    ReturnComesLast(check, f, ss, lit, after);
    LoweringPreservesMeaning(I, check, f', args, status, tr);
  }
}
