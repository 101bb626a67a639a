/** What lowering anything at all leaves alone: every block but the current one, every edge, and the forge's data. */
module LowerFrame {
  import opened Common
  import opened Mir
  import opened Hir
  import opened LowerSpec

  ghost predicate SameSetup(s: State, s': State) {
    && s'.header == s.header && s'.forgeName == s.forgeName && s'.paramDefs == s.paramDefs
    && s'.checkContracts == s.checkContracts && s'.ensures_ == s.ensures_
    && s'.body.entry == s.body.entry && s'.body.argCount == s.body.argCount
  }

  /** Only the current block of `s` and blocks made since have changed, and the current one is among them. */
  ghost predicate Confined(s: State, s': State) {
    && SameSetup(s, s')
    && s'.Size() >= s.Size()
    && (s'.cur == s.cur || s'.cur >= s.Size())
    && (forall b: BlockId :: b < s.Size() && b != s.cur ==> s'.body.blocks[b] == s.body.blocks[b])
    && s.body.edges <= s'.body.edges
  }

  lemma {:induction false} ConfinedTrans(a: State, b: State, c: State)
    requires Confined(a, b) && Confined(b, c)
    ensures Confined(a, c)
  {
  }

  lemma {:induction false} SetupKept(s: State, s': State)
    requires Confined(s, s')
    ensures s'.checkContracts == s.checkContracts && s'.forgeName == s.forgeName && s'.ensures_ == s.ensures_
    ensures s'.header == s.header
  {
  }

  lemma {:induction false} ConfineToOperand(s: State, rv: Rvalue)
    ensures Confined(s, ToOperand(s, rv).0)
  {
  }

  lemma {:induction false} ConfinePush(a: State, s: State, ins: Instruction)
    requires Confined(a, s)
    ensures Confined(a, Push(s, ins))
  {
  }

  lemma {:induction false} ConfineEnd(a: State, s: State, term: Terminator)
    requires Confined(a, s)
    ensures Confined(a, Terminate(s, s.cur, term))
  {
  }

  lemma {:induction false} ConfineRebind(a: State, s: State, defs: seq<DefId>, ops: seq<Operand>, i: nat)
    requires Confined(a, s) && i <= |defs|
    ensures Confined(a, Rebind(s, defs, ops, i))
    decreases |defs| - i
  {
    if i < |defs| {
      if i >= |ops| {
        ConfineRebind(a, s, defs, ops, i + 1);
      } else {
        var l := |s.body.locals|;
        var s1 := Push(NewLocal(s, "tco_p" + Digits(i), Error), Assign(l, Use(ops[i])));
        ConfineRebind(a, WriteVariable(s1, defs[i], l), defs, ops, i + 1);
      }
    }
  }

  lemma {:induction false} ConfineExpr(s: State, e: Expr)
    ensures Confined(s, LowerExpr(s, e).0)
    decreases ReturnNest(e), 1, e, 3
  {
    hide Confined;
    match e
    case Lit(_) => ConfineRefl(s);
    case Ident(_, v, _) => ConfineRead(s, s, v);
    case Bin(_, l, r, _) =>
      ConfineOperand(s, l);
      ConfineOperand(LowerOperand(s, l).0, r);
      ConfinedTrans(s, LowerOperand(s, l).0, LowerExpr(s, e).0);
    case Un(_, x, _) => ConfineOperand(s, x);
    case CallExpr(_, _, _, _) => ConfineCall(s, e);
    case ReturnExpr(_) => ConfineReturn(s, e);
    case Zone(z, b, _) =>
      ConfineRefl(s);
      ConfinePush(s, s, ZoneEnter(z));
      ConfineBlock(Push(s, ZoneEnter(z)), b);
      ConfinedTrans(s, Push(s, ZoneEnter(z)), LowerBlock(Push(s, ZoneEnter(z)), b).0);
      ConfinePush(s, LowerBlock(Push(s, ZoneEnter(z)), b).0, ZoneExit(z));
    case Given(_, _, _, _) => ConfineGiven(s, e);
    case While(_, _) => ConfineWhile(s, e);
  }

  lemma {:induction false} ConfineRefl(s: State)
    ensures Confined(s, s)
  {
  }

  lemma {:induction false} ConfineRead(a: State, s: State, v: DefId)
    requires a == s || Confined(a, s)
    ensures Confined(a, ReadVariable(s, v).0)
  {
  }

  lemma {:induction false} ConfineOperand(s: State, e: Expr)
    ensures Confined(s, LowerOperand(s, e).0)
    decreases ReturnNest(e), 1, e, 4
  {
    hide Confined;
    ConfineExpr(s, e);
    ConfineToOperand(LowerExpr(s, e).0, LowerExpr(s, e).1);
    ConfinedTrans(s, LowerExpr(s, e).0, LowerOperand(s, e).0);
  }

  lemma {:induction false} ConfineOperands(s: State, es: seq<Expr>)
    ensures Confined(s, LowerOperands(s, es).0)
    decreases ReturnNestAll(es), 1, es
  {
    hide Confined;
    if es == [] {
      ConfineRefl(s);
    } else {
      var s1 := LowerOperand(s, es[0]).0;
      ConfineOperand(s, es[0]);
      ConfineOperands(s1, es[1..]);
      ConfinedTrans(s, s1, LowerOperands(s1, es[1..]).0);
    }
  }

  lemma {:induction false} ConfineAsserts(s: State, es: seq<Expr>, msg: string)
    ensures Confined(s, LowerAsserts(s, es, msg))
    decreases ReturnNestAll(es), 1, es
  {
    hide Confined;
    if es == [] {
      ConfineRefl(s);
    } else {
      var (s1, op) := LowerOperand(s, es[0]);
      ConfineOperand(s, es[0]);
      ConfinePush(s, s1, Assert(op, msg));
      ConfineAsserts(Push(s1, Assert(op, msg)), es[1..], msg);
      ConfinedTrans(s, Push(s1, Assert(op, msg)), LowerAsserts(s, es, msg));
    }
  }

  lemma {:induction false} ConfineClauses(s: State, clauses: Clauses, result: Expr)
    ensures Confined(s, LowerClauses(s, clauses, result))
    decreases 1 + ReturnNest(result), 0, clauses
  {
    hide Confined;
    if clauses == [] {
      ConfineRefl(s);
    } else {
      var c := SubstResult(clauses[0], result);
      SubstNest(clauses[0], result);
      var (s1, op) := LowerOperand(s, c);
      ConfineOperand(s, c);
      ConfinePush(s, s1, Assert(op, POSTCONDITION));
      ConfineClauses(Push(s1, Assert(op, POSTCONDITION)), clauses[1..], result);
      ConfinedTrans(s, Push(s1, Assert(op, POSTCONDITION)), LowerClauses(s, clauses, result));
    }
  }

  lemma {:induction false} ConfineCall(s: State, e: Expr)
    requires e.CallExpr?
    ensures Confined(s, LowerExpr(s, e).0)
    decreases ReturnNest(e), 1, e, 2
  {
    hide Confined;
    var CallExpr(callee, args, reqs, retTy) := e;
    var (s1, ops) := LowerOperands(s, args);
    ConfineOperands(s, args);
    var s2 := if s1.checkContracts then LowerAsserts(s1, reqs, PRECONDITION) else s1;
    ConfineAsserts(s1, reqs, PRECONDITION);
    ConfinedTrans(s, s1, LowerAsserts(s1, reqs, PRECONDITION));
    assert Confined(s, s2);
    if retTy == Prim(Void) {
      ConfinePush(s, s2, Call(None, CalleeName(callee), ops));
    } else {
      ConfineNew(s, s2, "call_tmp", retTy);
      ConfinePush(s, NewLocal(s2, "call_tmp", retTy), Call(Some(|s2.body.locals|), CalleeName(callee), ops));
    }
  }

  lemma {:induction false} ConfineNew(a: State, s: State, name: string, ty: Type)
    requires Confined(a, s)
    ensures Confined(a, NewLocal(s, name, ty))
  {
  }

  lemma {:induction false} ConfineJump(a: State, s: State, target: BlockId)
    requires Confined(a, s)
    ensures Confined(a, Terminate(AddEdge(s, s.cur, target, Unconditional), s.cur, Goto(target)))
  {
  }

  lemma {:induction false} ConfineReturn(s: State, e: Expr)
    requires e.ReturnExpr?
    ensures Confined(s, LowerExpr(s, e).0)
    decreases ReturnNest(e), 1, e, 2
  {
    hide Confined;
    match e.result
    case None =>
      ConfineRefl(s);
      ConfineEnd(s, s, Return(None));
    case Some(x) =>
      if IsSelfTailCall(s.forgeName, x) {
        assert ReturnNestAll(x.args) <= ReturnNest(x);
        var (s1, ops) := LowerOperands(s, x.args);
        ConfineOperands(s, x.args);
        ConfineRebind(s, s1, s1.paramDefs, ops, 0);
        var s2 := Rebind(s1, s1.paramDefs, ops, 0);
        ConfineJump(s, s2, s2.header);
      } else {
        var (s1, op) := LowerOperand(s, x);
        ConfineOperand(s, x);
        ConfineClauses(s1, s1.ensures_, x);
        var s2 := if s1.checkContracts then LowerClauses(s1, s1.ensures_, x) else s1;
        ConfinedTrans(s, s1, LowerClauses(s1, s1.ensures_, x));
        assert Confined(s, s2);
        ConfineEnd(s, s2, Return(Some(op)));
      }
  }

  lemma {:induction false} ConfineOpen(s: State, op: Operand)
    ensures Confined(s, OpenGiven(s, op)) && Confined(s, OpenWhile(s))
  {
  }

  // Ending a branch and moving to a block made since `a`.
  lemma {:induction false} ConfineJoin(a: State, s: State, target: BlockId, next: BlockId)
    requires Confined(a, s) && a.Size() <= next < s.Size()
    ensures Confined(a, MoveTo(JoinTo(s, target), next))
  {
  }

  function OptLower(s: State, e: Option<Expr>): State {
    match e
    case None => s
    case Some(x) => LowerExpr(s, x).0
  }

  // The states a given passes through once its condition is an operand.
  function AfterThen(s1: State, op: Operand, b: HBlock): (r: State)
    ensures r.Size() >= s1.Size() + 3
  {
    MoveTo(JoinTo(LowerBlock(OpenGiven(s1, op), b).0, s1.Size() + 2), s1.Size() + 1)
  }

  function AfterElse(s4: State, n: nat, e: Option<Expr>): State
    requires n + 2 < s4.Size()
  {
    MoveTo(JoinTo(OptLower(s4, e), n + 2), n + 2)
  }

  lemma {:induction false} GivenLowered(s: State, e: Expr)
    requires e.Given?
    ensures var (s1, op) := LowerOperand(s, e.cond);
      LowerExpr(s, e).0 == AfterElse(AfterThen(s1, op, e.thenBlock), s1.Size(), e.elseExpr)
  {
    hide LowerOperand, LowerBlock, OpenGiven, JoinTo, MoveTo;
  }

  lemma {:induction false} ConfineGiven(s: State, e: Expr)
    requires e.Given?
    ensures Confined(s, LowerExpr(s, e).0)
    decreases ReturnNest(e), 1, e, 2
  {
    hide Confined, LowerExpr, LowerOperand, AfterThen, AfterElse;
    var (s1, op) := LowerOperand(s, e.cond);
    var s4 := AfterThen(s1, op, e.thenBlock);
    ConfineOperand(s, e.cond);
    ConfineThen(s1, op, e);
    ConfineElse(s1, s4, e);
    ConfinedTrans(s, s1, AfterElse(s4, s1.Size(), e.elseExpr));
    GivenLowered(s, e);
  }

  lemma {:induction false} ConfineThen(s1: State, op: Operand, e: Expr)
    requires e.Given?
    ensures Confined(s1, AfterThen(s1, op, e.thenBlock))
    decreases ReturnNest(e), 1, e, 1
  {
    hide Confined, LowerBlock, OpenGiven, JoinTo, MoveTo;
    var s2 := OpenGiven(s1, op);
    ConfineOpen(s1, op);
    ConfineBlock(s2, e.thenBlock);
    ConfinedTrans(s1, s2, LowerBlock(s2, e.thenBlock).0);
    ConfineJoin(s1, LowerBlock(s2, e.thenBlock).0, s1.Size() + 2, s1.Size() + 1);
  }

  lemma {:induction false} ConfineElse(s1: State, s4: State, e: Expr)
    requires e.Given? && Confined(s1, s4) && s1.Size() + 2 < s4.Size()
    ensures Confined(s1, AfterElse(s4, s1.Size(), e.elseExpr))
    decreases ReturnNest(e), 1, e, 1
  {
    hide Confined, LowerExpr, JoinTo, MoveTo;
    match e.elseExpr {
      case None =>
      case Some(x) =>
        ConfineExpr(s4, x);
        ConfinedTrans(s1, s4, LowerExpr(s4, x).0);
    }
    ConfineJoin(s1, OptLower(s4, e.elseExpr), s1.Size() + 2, s1.Size() + 2);
  }

  lemma {:induction false} ConfineBranch(a: State, s: State, c: BlockId, op: Operand)
    requires Confined(a, s) && a.Size() <= c && c + 2 < s.Size()
    ensures Confined(a, BranchWhile(s, c, op))
  {
  }

  lemma {:induction false} ConfineWhile(s: State, e: Expr)
    requires e.While?
    ensures Confined(s, LowerExpr(s, e).0)
    decreases ReturnNest(e), 1, e, 2
  {
    hide Confined, LowerExpr, OpenWhile, BranchWhile, JoinTo, MoveTo;
    var c := s.Size();
    ConfineOpen(s, Const(BoolConst(true)));
    var (s1, op) := LowerOperand(OpenWhile(s), e.cond);
    ConfineOperand(OpenWhile(s), e.cond);
    ConfinedTrans(s, OpenWhile(s), s1);
    ConfineBranch(s, s1, c, op);
    var s2 := BranchWhile(s1, c, op);
    ConfineBlock(s2, e.body);
    ConfinedTrans(s, s2, LowerBlock(s2, e.body).0);
    ConfineJoin(s, LowerBlock(s2, e.body).0, c, c + 2);
    WhileLowered(s, e);
  }

  lemma {:induction false} WhileLowered(s: State, e: Expr)
    requires e.While?
    ensures var (s2, op) := LowerOperand(OpenWhile(s), e.cond);
      var s4 := LowerBlock(BranchWhile(s2, s.Size(), op), e.body).0;
      LowerExpr(s, e).0 == MoveTo(JoinTo(s4, s.Size()), s.Size() + 2)
  {
    hide LowerBlock, LowerOperand, OpenWhile, BranchWhile, JoinTo, MoveTo;
  }

  lemma {:induction false} ConfineBlock(s: State, b: HBlock)
    ensures Confined(s, LowerBlock(s, b).0)
    decreases ReturnNestBlock(b), 1, b
  {
    hide Confined;
    ConfineStmts(s, b.stmts);
    if b.tail.Some? {
      var s1 := LowerStmts(s, b.stmts);
      ConfineExpr(s1, b.tail.value);
      ConfinedTrans(s, s1, LowerExpr(s1, b.tail.value).0);
    }
  }

  lemma {:induction false} ConfineStmts(s: State, ss: seq<Stmt>)
    ensures Confined(s, LowerStmts(s, ss))
    decreases ReturnNestStmts(ss), 1, ss
  {
    hide Confined;
    if ss == [] {
      ConfineRefl(s);
    } else {
      var s1 := LowerStmt(s, ss[0]);
      ConfineStmt(s, ss[0]);
      ConfineStmts(s1, ss[1..]);
      ConfinedTrans(s, s1, LowerStmts(s1, ss[1..]));
    }
  }

  lemma {:induction false} ConfineStmt(s: State, st: Stmt)
    ensures Confined(s, LowerStmt(s, st))
    decreases ReturnNestStmt(st), 1, st
  {
    hide Confined;
    match st
    case Let(_, _, _, None) => ConfineRefl(s);
    case Let(name, v, ty, Some(e)) =>
      var (s1, rv) := LowerExpr(s, e);
      ConfineExpr(s, e);
      ConfineLet(s, s1, name, v, ty, e);
      var (s2, l) := LetLocal(s1, name, v, ty, e);
      ConfinePush(s, s2, Assign(l, rv));
    case AssignStmt(v, e) =>
      var (s1, rv) := LowerExpr(s, e);
      ConfineExpr(s, e);
      ConfineRead(s, s1, v);
      ConfinePush(s, ReadVariable(s1, v).0, Assign(ReadVariable(s1, v).1, rv));
    case ExprStmt(e) => ConfineExpr(s, e);
  }

  lemma {:induction false} ConfineLet(a: State, s: State, name: string, v: DefId, ty: Type, init: Expr)
    requires Confined(a, s)
    ensures Confined(a, LetLocal(s, name, v, ty, init).0)
  {
  }
}
