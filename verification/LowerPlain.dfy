/**
 What lowering emits, whatever the forge: assignments, calls, assertions and zone markers over slots that exist,
 and never a reference.
 */
module LowerPlain {
  import opened Common
  import opened Mir
  import opened Hir
  import opened LowerSpec
  import opened LowerFrame

  predicate PlainOperand(n: nat, op: Operand) {
    op.Const? || op.local < n
  }

  predicate PlainRv(n: nat, rv: Rvalue) {
    match rv
    case Use(op) => PlainOperand(n, op)
    case Binary(_, l, r) => PlainOperand(n, l) && PlainOperand(n, r)
    case Unary(_, x) => PlainOperand(n, x)
    case Ref(_, _) => false
  }

  ghost predicate PlainOperands(n: nat, ops: seq<Operand>) {
    forall op :: op in ops ==> PlainOperand(n, op)
  }

  ghost predicate PlainInstr(n: nat, ins: Instruction) {
    match ins
    case Assign(d, rv) => d < n && PlainRv(n, rv)
    case Call(into, _, args) => (into.Some? ==> into.value < n) && PlainOperands(n, args)
    case Assert(cond, _) => PlainOperand(n, cond)
    case ZoneEnter(_) => true
    case ZoneExit(_) => true
    case _ => false
  }

  predicate PlainEnd(n: nat, term: Option<Terminator>) {
    match term
    case Some(Return(v)) => v.Some? ==> PlainOperand(n, v.value)
    case Some(SwitchInt(op, _, _)) => PlainOperand(n, op)
    case Some(Abort) => false
    case _ => true
  }

  ghost predicate PlainBlock(n: nat, b: BasicBlock) {
    (forall ins :: ins in b.instrs ==> PlainInstr(n, ins)) && PlainEnd(n, b.term)
  }

  ghost predicate PlainBlocks(n: nat, blocks: seq<BasicBlock>) {
    forall b :: 0 <= b < |blocks| ==> PlainBlock(n, blocks[b])
  }

  ghost predicate Plain(s: State) {
    PlainBlocks(|s.body.locals|, s.body.blocks) && forall v :: v in s.vars ==> s.vars[v] < |s.body.locals|
  }

  /** From `s` to `s'` slots have only been added. */
  ghost predicate Plainly(s: State, s': State) {
    Plain(s') && |s'.body.locals| >= |s.body.locals|
  }

  lemma {:induction false} PlainlyTrans(a: State, b: State, c: State)
    requires Plainly(a, b) && Plainly(b, c)
    ensures Plainly(a, c)
  {
  }

  lemma {:induction false} PlainlyRefl(s: State)
    requires Plain(s)
    ensures Plainly(s, s)
  {
  }

  lemma {:induction false} PlainlyIs(s: State, s': State)
    requires Plainly(s, s')
    ensures Plain(s') && |s.body.locals| <= |s'.body.locals|
  {
  }

  // ---- Edits ----

  lemma {:induction false} MoreRv(m: nat, n: nat, rv: Rvalue)
    requires PlainRv(m, rv) && m <= n
    ensures PlainRv(n, rv)
  {
  }

  lemma {:induction false} MoreOperands(m: nat, n: nat, ops: seq<Operand>)
    requires PlainOperands(m, ops) && m <= n
    ensures PlainOperands(n, ops)
  {
  }

  lemma {:induction false} MoreInstr(m: nat, n: nat, ins: Instruction)
    requires PlainInstr(m, ins) && m <= n
    ensures PlainInstr(n, ins)
  {
  }

  lemma {:induction false} MoreSlots(m: nat, n: nat, blocks: seq<BasicBlock>)
    requires PlainBlocks(m, blocks) && m <= n
    ensures PlainBlocks(n, blocks)
  {
    hide PlainInstr;
    forall b | 0 <= b < |blocks|
      ensures PlainBlock(n, blocks[b])
    {
      assert PlainBlock(m, blocks[b]);
      forall ins | ins in blocks[b].instrs
        ensures PlainInstr(n, ins)
      {
        MoreInstr(m, n, ins);
      }
    }
  }

  lemma {:induction false} PlainNew(a: State, s: State, name: string, ty: Type)
    requires Plainly(a, s)
    ensures Plainly(a, NewLocal(s, name, ty))
  {
    hide PlainBlocks;
    MoreSlots(|s.body.locals|, |s.body.locals| + 1, s.body.blocks);
  }

  // Only the blocks and slots count.
  lemma {:induction false} PlainSame(a: State, s: State, s': State)
    requires Plainly(a, s) && s'.body.blocks == s.body.blocks && s'.body.locals == s.body.locals && s'.vars == s.vars
    ensures Plainly(a, s')
  {
  }

  lemma {:induction false} PlainPush(a: State, s: State, ins: Instruction)
    requires Plainly(a, s) && PlainInstr(|s.body.locals|, ins)
    ensures Plainly(a, Push(s, ins))
  {
    hide PlainInstr, PlainEnd;
    var s' := Push(s, ins);
    forall b | 0 <= b < s'.Size()
      ensures PlainBlock(|s'.body.locals|, s'.body.blocks[b])
    {
      assert PlainBlock(|s.body.locals|, s.body.blocks[b]);
    }
  }

  lemma {:induction false} PlainTerm(a: State, s: State, b: BlockId, term: Terminator)
    requires Plainly(a, s) && b < s.Size() && PlainEnd(|s.body.locals|, Some(term))
    ensures Plainly(a, Terminate(s, b, term))
  {
    hide PlainInstr, PlainEnd;
    var s' := Terminate(s, b, term);
    forall c | 0 <= c < s'.Size()
      ensures PlainBlock(|s'.body.locals|, s'.body.blocks[c])
    {
      assert PlainBlock(|s.body.locals|, s.body.blocks[c]);
    }
  }

  lemma {:induction false} EmptyIsPlain(n: nat)
    ensures PlainBlock(n, EMPTY_BLOCK)
  {
  }

  lemma {:induction false} PlainAdd(a: State, s: State)
    requires Plainly(a, s)
    ensures Plainly(a, AddBlock(s))
  {
    hide PlainInstr, PlainEnd;
    EmptyIsPlain(|s.body.locals|);
  }

  lemma {:induction false} PlainJoin(a: State, s: State, target: BlockId, next: BlockId)
    requires Plainly(a, s) && target < s.Size() && next < s.Size()
    ensures Plainly(a, MoveTo(JoinTo(s, target), next))
  {
    hide Plainly;
    if s.Cur().term.None? {
      var s1 := AddEdge(s, s.cur, target, Unconditional);
      PlainSame(a, s, s1);
      PlainTerm(a, s1, s.cur, Goto(target));
    }
    PlainSame(a, JoinTo(s, target), MoveTo(JoinTo(s, target), next));
  }

  lemma {:induction false} PlainOpen(a: State, s: State, op: Operand)
    requires Plainly(a, s) && PlainOperand(|s.body.locals|, op)
    ensures Plainly(a, OpenGiven(s, op)) && Plainly(a, OpenWhile(s))
  {
    hide Plainly;
    var t := s.Size();
    PlainAdd(a, s);
    PlainAdd(a, AddBlock(s));
    PlainAdd(a, AddBlock(AddBlock(s)));
    var s1 := AddBlock(AddBlock(AddBlock(s)));
    var s2 := AddEdge(AddEdge(s1, s.cur, t, Conditional(true)), s.cur, t + 1, Conditional(false));
    PlainSame(a, s1, s2);
    PlainTerm(a, s2, s.cur, SwitchInt(op, [(1, t)], t + 1));
    PlainSame(a, Terminate(s2, s.cur, SwitchInt(op, [(1, t)], t + 1)), OpenGiven(s, op));
    var s3 := AddEdge(s1, s.cur, t, Unconditional);
    PlainSame(a, s1, s3);
    PlainTerm(a, s3, s.cur, Goto(t));
    PlainSame(a, Terminate(s3, s.cur, Goto(t)), OpenWhile(s));
  }

  lemma {:induction false} PlainBranch(a: State, s: State, c: BlockId, op: Operand)
    requires Plainly(a, s) && PlainOperand(|s.body.locals|, op) && c + 2 < s.Size()
    ensures Plainly(a, BranchWhile(s, c, op))
  {
    hide Plainly;
    var s1 := AddEdge(AddEdge(s, c, c + 1, Conditional(true)), c, c + 2, Conditional(false));
    PlainSame(a, s, s1);
    PlainTerm(a, s1, c, SwitchInt(op, [(1, c + 1)], c + 2));
    PlainSame(a, Terminate(s1, c, SwitchInt(op, [(1, c + 1)], c + 2)), BranchWhile(s, c, op));
  }

  lemma {:induction false} PlainBind(a: State, s: State, name: string, ty: Type, v: DefId)
    requires Plainly(a, s)
    ensures Plainly(a, WriteVariable(NewLocal(s, name, ty), v, |s.body.locals|))
  {
    PlainNew(a, s, name, ty);
  }

  lemma {:induction false} PlainRead(a: State, s: State, v: DefId)
    requires Plainly(a, s)
    ensures var (s', l) := ReadVariable(s, v); Plainly(a, s') && Plainly(s, s') && l < |s'.body.locals|
  {
    hide PlainBlocks;
    if v !in s.vars {
      PlainBind(a, s, DebugDef(v), Error, v);
    }
  }

  lemma {:induction false} PlainLet(a: State, s: State, name: string, v: DefId, ty: Type, init: Expr)
    requires Plainly(a, s)
    ensures var (s', l) := LetLocal(s, name, v, ty, init);
      Plainly(a, s') && Plainly(s, s') && l < |s'.body.locals|
  {
    hide PlainBlocks, ExprType;
    if v !in s.vars {
      PlainBind(a, s, name, if ty == Error then ExprType(init) else ty, v);
    }
  }

  lemma {:induction false} PlainToOperand(a: State, s: State, rv: Rvalue)
    requires Plainly(a, s) && PlainRv(|s.body.locals|, rv)
    ensures var (s', op) := ToOperand(s, rv); Plainly(a, s') && PlainOperand(|s'.body.locals|, op)
  {
    hide Plainly, PlainOperand, RvalueType;
    if !rv.Use? {
      var s1 := NewLocal(s, "tmp", RvalueType(s.body.locals, rv));
      PlainNew(a, s, "tmp", RvalueType(s.body.locals, rv));
      MoreRv(|s.body.locals|, |s1.body.locals|, rv);
      PlainPush(a, s1, Assign(|s.body.locals|, rv));
      SlotIsPlain(|s.body.locals|, |s1.body.locals|);
    }
  }

  lemma {:induction false} SlotIsPlain(l: Local, n: nat)
    requires l < n
    ensures PlainOperand(n, Move(l)) && PlainOperand(n, Copy(l))
  {
  }

  lemma {:induction false} PlainRebind(a: State, s: State, defs: seq<DefId>, ops: seq<Operand>, i: nat)
    requires Plainly(a, s) && PlainOperands(|s.body.locals|, ops) && i <= |defs|
    ensures Plainly(a, Rebind(s, defs, ops, i))
    decreases |defs| - i
  {
    hide PlainBlocks;
    if i < |defs| {
      if i >= |ops| {
        PlainRebind(a, s, defs, ops, i + 1);
      } else {
        var l, name := |s.body.locals|, "tco_p" + Digits(i);
        var s1 := NewLocal(s, name, Error);
        PlainNew(a, s, name, Error);
        assert ops[i] in ops;
        assert PlainInstr(l + 1, Assign(l, Use(ops[i])));
        PlainPush(a, s1, Assign(l, Use(ops[i])));
        MoreOperands(l, l + 1, ops);
        PlainRebind(a, WriteVariable(Push(s1, Assign(l, Use(ops[i]))), defs[i], l), defs, ops, i + 1);
      }
    }
  }

  // ---- Lowering ----

  lemma {:induction false} PlainExpr(s: State, e: Expr)
    requires Plain(s)
    ensures var (s', rv) := LowerExpr(s, e); Plainly(s, s') && PlainRv(|s'.body.locals|, rv)
    decreases ReturnNest(e), 1, e, 3
  {
    hide Plain, Plainly;
    PlainlyRefl(s);
    match e
    case Lit(_) =>
    case Ident(_, v, _) => PlainRead(s, s, v);
    case Bin(_, _, _, _) => PlainBin(s, e);
    case Un(_, x, _) => PlainlyOperand(s, x);
    case CallExpr(_, _, _, _) => PlainCall(s, e);
    case ReturnExpr(_) => PlainReturn(s, e);
    case Zone(_, _, _) => PlainZone(s, e);
    case Given(_, _, _, _) =>
      PlainGiven(s, e);
      assert LowerExpr(s, e).1 == ZERO_RV;
    case While(_, _) =>
      PlainWhile(s, e);
      assert LowerExpr(s, e).1 == FALSE_RV;
  }

  lemma {:induction false} PlainBin(s: State, e: Expr)
    requires e.Bin? && Plain(s)
    ensures var (s', rv) := LowerExpr(s, e); Plainly(s, s') && PlainRv(|s'.body.locals|, rv)
    decreases ReturnNest(e), 1, e, 2
  {
    hide Plain, Plainly, LowerOperand;
    var (s1, lop) := LowerOperand(s, e.lhs);
    var (s2, rop) := LowerOperand(s1, e.rhs);
    PlainlyOperand(s, e.lhs);
    PlainlyOperand(s1, e.rhs);
    PlainlyTrans(s, s1, s2);
    PlainlyIs(s1, s2);
  }

  lemma {:induction false} PlainZone(s: State, e: Expr)
    requires e.Zone? && Plain(s)
    ensures var (s', rv) := LowerExpr(s, e); Plainly(s, s') && PlainRv(|s'.body.locals|, rv)
    decreases ReturnNest(e), 1, e, 2
  {
    hide Plain, Plainly, PlainRv, LowerBlock;
    var s1 := Push(s, ZoneEnter(e.zone));
    PlainlyRefl(s);
    PlainPush(s, s, ZoneEnter(e.zone));
    PlainlyIs(s, s1);
    PlainlyBlock(s1, e.body);
    PlainlyTrans(s, s1, LowerBlock(s1, e.body).0);
    PlainPush(s, LowerBlock(s1, e.body).0, ZoneExit(e.zone));
  }

  lemma {:induction false} PlainlyOperand(s: State, e: Expr)
    requires Plain(s)
    ensures var (s', op) := LowerOperand(s, e);
      Plain(s') && Plainly(s, s') && PlainOperand(|s'.body.locals|, op)
    decreases ReturnNest(e), 1, e, 4
  {
    hide Plain, Plainly;
    PlainExpr(s, e);
    PlainToOperand(s, LowerExpr(s, e).0, LowerExpr(s, e).1);
    PlainlyIs(s, LowerOperand(s, e).0);
  }

  lemma {:induction false} PlainlyOperands(s: State, es: seq<Expr>)
    requires Plain(s)
    ensures var (s', ops) := LowerOperands(s, es);
      Plain(s') && Plainly(s, s') && PlainOperands(|s'.body.locals|, ops)
    decreases ReturnNestAll(es), 1, es
  {
    hide Plain, Plainly;
    if es == [] {
      PlainlyRefl(s);
    } else {
      var (s1, op) := LowerOperand(s, es[0]);
      var (s2, ops) := LowerOperands(s1, es[1..]);
      PlainlyOperand(s, es[0]);
      PlainlyOperands(s1, es[1..]);
      PlainlyTrans(s, s1, s2);
      PlainlyIs(s1, s2);
    }
  }

  lemma {:induction false} PlainlyAsserts(s: State, es: seq<Expr>, msg: string)
    requires Plain(s)
    ensures Plain(LowerAsserts(s, es, msg)) && Plainly(s, LowerAsserts(s, es, msg))
    decreases ReturnNestAll(es), 1, es
  {
    hide Plain, Plainly;
    if es == [] {
      PlainlyRefl(s);
    } else {
      var (s1, op) := LowerOperand(s, es[0]);
      var s2 := Push(s1, Assert(op, msg));
      PlainlyOperand(s, es[0]);
      PlainPush(s, s1, Assert(op, msg));
      PlainlyIs(s, s2);
      PlainlyAsserts(s2, es[1..], msg);
      PlainlyTrans(s, s2, LowerAsserts(s2, es[1..], msg));
    }
  }

  lemma {:induction false} PlainlyClauses(s: State, clauses: Clauses, result: Expr)
    requires Plain(s)
    ensures Plain(LowerClauses(s, clauses, result)) && Plainly(s, LowerClauses(s, clauses, result))
    decreases 1 + ReturnNest(result), 0, clauses
  {
    hide Plain, Plainly;
    if clauses == [] {
      PlainlyRefl(s);
    } else {
      var c := SubstResult(clauses[0], result);
      SubstNest(clauses[0], result);
      var (s1, op) := LowerOperand(s, c);
      var s2 := Push(s1, Assert(op, POSTCONDITION));
      PlainlyOperand(s, c);
      PlainPush(s, s1, Assert(op, POSTCONDITION));
      PlainlyIs(s, s2);
      PlainlyClauses(s2, clauses[1..], result);
      PlainlyTrans(s, s2, LowerClauses(s2, clauses[1..], result));
    }
  }

  lemma {:induction false} PlainCall(s: State, e: Expr)
    requires e.CallExpr? && Plain(s)
    ensures var (s', rv) := LowerExpr(s, e); Plainly(s, s') && PlainRv(|s'.body.locals|, rv)
    decreases ReturnNest(e), 1, e, 2
  {
    hide Plain, Plainly, PlainOperands;
    var CallExpr(callee, args, reqs, retTy) := e;
    var (s1, ops) := LowerOperands(s, args);
    PlainlyOperands(s, args);
    PlainlyRefl(s1);
    PlainlyAsserts(s1, reqs, PRECONDITION);
    var s2 := if s1.checkContracts then LowerAsserts(s1, reqs, PRECONDITION) else s1;
    PlainlyTrans(s, s1, s2);
    PlainlyIs(s1, s2);
    MoreOperands(|s1.body.locals|, |s2.body.locals|, ops);
    assert LowerExpr(s, e) == LowerCall(s, e);
    hide LowerExpr;
    if retTy == Prim(Void) {
      PlainPush(s, s2, Call(None, CalleeName(callee), ops));
    } else {
      var s3 := NewLocal(s2, "call_tmp", retTy);
      PlainNew(s, s2, "call_tmp", retTy);
      MoreOperands(|s2.body.locals|, |s3.body.locals|, ops);
      PlainPush(s, s3, Call(Some(|s2.body.locals|), CalleeName(callee), ops));
    }
  }

  lemma {:induction false} PlainReturn(s: State, e: Expr)
    requires e.ReturnExpr? && Plain(s)
    ensures var (s', rv) := LowerExpr(s, e); Plainly(s, s') && PlainRv(|s'.body.locals|, rv)
    decreases ReturnNest(e), 1, e, 2
  {
    hide Plain, Plainly, PlainOperands;
    assert LowerExpr(s, e) == LowerReturn(s, e);
    hide LowerExpr;
    PlainlyRefl(s);
    match e.result
    case None => PlainTerm(s, s, s.cur, Return(None));
    case Some(x) =>
      if IsSelfTailCall(s.forgeName, x) {
        assert ReturnNestAll(x.args) <= ReturnNest(x);
        var (s1, ops) := LowerOperands(s, x.args);
        PlainlyOperands(s, x.args);
        PlainRebind(s, s1, s1.paramDefs, ops, 0);
        var s2 := Rebind(s1, s1.paramDefs, ops, 0);
        var s3 := AddEdge(s2, s2.cur, s2.header, Unconditional);
        PlainSame(s, s2, s3);
        PlainTerm(s, s3, s3.cur, Goto(s3.header));
      } else {
        var (s1, op) := LowerOperand(s, x);
        PlainlyOperand(s, x);
        PlainlyRefl(s1);
        PlainlyClauses(s1, s1.ensures_, x);
        var s2 := if s1.checkContracts then LowerClauses(s1, s1.ensures_, x) else s1;
        PlainlyTrans(s, s1, s2);
        PlainlyIs(s1, s2);
        PlainTerm(s, s2, s2.cur, Return(Some(op)));
      }
  }

  lemma {:induction false} PlainGiven(s: State, e: Expr)
    requires e.Given? && Plain(s)
    ensures Plainly(s, LowerExpr(s, e).0)
    decreases ReturnNest(e), 1, e, 2
  {
    hide Plain, Plainly, PlainOperand, LowerExpr, LowerOperand, AfterThen, AfterElse;
    GivenLowered(s, e);
    var (s1, op) := LowerOperand(s, e.cond);
    var s4 := AfterThen(s1, op, e.thenBlock);
    PlainlyOperand(s, e.cond);
    PlainThen(s1, op, e);
    PlainlyTrans(s, s1, s4);
    PlainlyIs(s, s4);
    PlainElse(s4, s1.Size(), e);
    PlainlyTrans(s, s4, AfterElse(s4, s1.Size(), e.elseExpr));
  }

  lemma {:induction false} PlainThen(s1: State, op: Operand, e: Expr)
    requires e.Given? && Plain(s1) && PlainOperand(|s1.body.locals|, op)
    ensures Plainly(s1, AfterThen(s1, op, e.thenBlock))
    decreases ReturnNest(e), 1, e, 1
  {
    hide Plain, Plainly, PlainOperand, LowerBlock, OpenGiven, JoinTo, MoveTo;
    var s2 := OpenGiven(s1, op);
    PlainlyRefl(s1);
    PlainOpen(s1, s1, op);
    PlainlyIs(s1, s2);
    PlainlyBlock(s2, e.thenBlock);
    PlainlyTrans(s1, s2, LowerBlock(s2, e.thenBlock).0);
    PlainJoin(s1, LowerBlock(s2, e.thenBlock).0, s1.Size() + 2, s1.Size() + 1);
  }

  lemma {:induction false} PlainElse(s4: State, n: nat, e: Expr)
    requires e.Given? && Plain(s4) && n + 2 < s4.Size()
    ensures Plainly(s4, AfterElse(s4, n, e.elseExpr))
    decreases ReturnNest(e), 1, e, 1
  {
    hide Plain, Plainly, LowerExpr, JoinTo, MoveTo;
    PlainlyRefl(s4);
    if e.elseExpr.Some? {
      PlainExpr(s4, e.elseExpr.value);
    }
    PlainJoin(s4, OptLower(s4, e.elseExpr), n + 2, n + 2);
  }

  lemma {:induction false} PlainWhile(s: State, e: Expr)
    requires e.While? && Plain(s)
    ensures Plainly(s, LowerExpr(s, e).0)
    decreases ReturnNest(e), 1, e, 2
  {
    WhileLowered(s, e);
    hide Plain, Plainly, LowerExpr, LowerOperand, LowerBlock, OpenWhile, BranchWhile, JoinTo, MoveTo;
    var c := s.Size();
    PlainlyRefl(s);
    PlainOpen(s, s, Const(BoolConst(true)));
    var s1 := OpenWhile(s);
    PlainlyIs(s, s1);
    var (s2, op) := LowerOperand(s1, e.cond);
    PlainlyOperand(s1, e.cond);
    PlainlyTrans(s, s1, s2);
    PlainBranch(s, s2, c, op);
    var s3 := BranchWhile(s2, c, op);
    PlainlyIs(s, s3);
    PlainlyBlock(s3, e.body);
    PlainlyTrans(s, s3, LowerBlock(s3, e.body).0);
    PlainJoin(s, LowerBlock(s3, e.body).0, c, c + 2);
  }

  lemma {:induction false} PlainlyBlock(s: State, b: HBlock)
    requires Plain(s)
    ensures var (s', rv) := LowerBlock(s, b); Plainly(s, s') && PlainRv(|s'.body.locals|, rv)
    decreases ReturnNestBlock(b), 1, b
  {
    hide Plain, Plainly;
    var s1 := LowerStmts(s, b.stmts);
    PlainlyStmts(s, b.stmts);
    if b.tail.Some? {
      PlainlyIs(s, s1);
      PlainExpr(s1, b.tail.value);
      PlainlyTrans(s, s1, LowerExpr(s1, b.tail.value).0);
    }
  }

  lemma {:induction false} PlainlyStmts(s: State, ss: seq<Stmt>)
    requires Plain(s)
    ensures Plainly(s, LowerStmts(s, ss))
    decreases ReturnNestStmts(ss), 1, ss
  {
    hide Plain, Plainly;
    if ss == [] {
      PlainlyRefl(s);
    } else {
      var s1 := LowerStmt(s, ss[0]);
      PlainlyStmt(s, ss[0]);
      PlainlyIs(s, s1);
      PlainlyStmts(s1, ss[1..]);
      PlainlyTrans(s, s1, LowerStmts(s1, ss[1..]));
    }
  }

  lemma {:induction false} PlainlyStmt(s: State, st: Stmt)
    requires Plain(s)
    ensures Plainly(s, LowerStmt(s, st))
    decreases ReturnNestStmt(st), 1, st
  {
    hide Plain, Plainly, PlainRv;
    match st
    case Let(_, _, _, None) => PlainlyRefl(s);
    case Let(name, v, ty, Some(e)) =>
      var (s1, rv) := LowerExpr(s, e);
      PlainExpr(s, e);
      PlainLet(s, s1, name, v, ty, e);
      var (s2, l) := LetLocal(s1, name, v, ty, e);
      PlainlyIs(s1, s2);
      MoreRv(|s1.body.locals|, |s2.body.locals|, rv);
      PlainPush(s, s2, Assign(l, rv));
    case AssignStmt(v, e) =>
      var (s1, rv) := LowerExpr(s, e);
      PlainExpr(s, e);
      PlainRead(s, s1, v);
      var (s2, l) := ReadVariable(s1, v);
      PlainlyIs(s1, s2);
      MoreRv(|s1.body.locals|, |s2.body.locals|, rv);
      PlainPush(s, s2, Assign(l, rv));
    case ExprStmt(e) => PlainExpr(s, e);
  }

  // ---- Whole forges ----

  lemma {:induction false} PlainParams(s: State, ps: seq<Param>)
    requires Plain(s)
    ensures Plainly(s, BindParams(s, ps))
    decreases ps
  {
    hide Plain, Plainly;
    PlainlyRefl(s);
    if ps != [] {
      var s1 := WriteVariable(NewLocal(s, ps[0].name, ps[0].ty), ps[0].def, |s.body.locals|);
      PlainBind(s, s, ps[0].name, ps[0].ty, ps[0].def);
      PlainlyIs(s, s1);
      PlainParams(s1, ps[1..]);
      PlainlyTrans(s, s1, BindParams(s1, ps[1..]));
    }
  }

  /** Every forge, shaped or not, lowers to plain blocks. */
  lemma {:induction false} PlainForge(check: bool, f: Forge)
    requires ReturnNestAll(f.ensures_) == 0
    ensures var body := LowerForge(check, f); PlainBlocks(|body.locals|, body.blocks)
  {
    hide Plain, Plainly, PlainBlocks;
    var s0 := Lowering(MirBody([EMPTY_BLOCK, EMPTY_BLOCK], [], 0, [], |f.params|),
                       0, 1, f.name, ParamDefs(f.params), map[], check, f.ensures_);
    StartPlain(s0);
    PlainParams(s0, f.params);
    var s1 := BindParams(s0, f.params);
    var s2 := AddEdge(s1, 0, 1, Unconditional);
    PlainSame(s0, s1, s2);
    PlainTerm(s0, s2, 0, Goto(1));
    var s3 := StartForge(check, f);
    PlainSame(s0, Terminate(s2, 0, Goto(1)), s3);
    PlainlyIs(s0, s3);
    var s4 := LowerBody(s3, f.body);
    if f.body.Some? {
      PlainlyBlock(s3, f.body.value);
    } else {
      PlainlyRefl(s3);
    }
    PlainTerm(s3, s4, s4.cur, Return(None));
    PlainlyBlocks(s3, FinishForge(s4));
  }

  lemma {:induction false} StartPlain(s: State)
    requires s.body.blocks == [EMPTY_BLOCK, EMPTY_BLOCK] && s.vars == map[]
    ensures Plain(s)
  {
  }

  lemma {:induction false} PlainlyBlocks(s: State, s': State)
    requires Plainly(s, s')
    ensures PlainBlocks(|s'.body.locals|, s'.body.blocks)
  {
  }
}
