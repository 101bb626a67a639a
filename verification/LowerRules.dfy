/** How lowering treats code outside the preserved fragment, whatever the state and the expression. */
module LowerRules {
  import opened Common
  import opened Mir
  import opened MirSemantics
  import opened Hir
  import opened HirSemantics
  import opened LowerSpec
  import opened Fragment
  import opened LowerFrame
  import opened LowerShape
  import opened LowerBent

  lemma {:induction false} ReturnEnds(s: State, r: Expr)
    requires r.ReturnExpr?
    ensures var s' := LowerExpr(s, r).0;
      IsReturnOrJump(s'.Cur().term, s'.header) && s'.checkContracts == s.checkContracts && s'.header == s.header
  {
    hide Confined, LowerOperands, LowerOperand, LowerClauses, Rebind;
    assert LowerExpr(s, r) == LowerReturn(s, r);
    ConfineExpr(s, r);
    SetupKept(s, LowerExpr(s, r).0);
  }

  /** Straight code behind a return goes into the block the return ended, in front of its terminator. */
  lemma {:induction false} CodeAfterReturn(s: State, r: Expr, after: seq<Stmt>)
    requires r.ReturnExpr? && StraightStmts(s.checkContracts, after)
    ensures var s1 := LowerExpr(s, r).0;
      var s2 := LowerStmts(s1, after);
      && s1.Cur().term.Some? && s2.cur == s1.cur && s2.Cur().term == s1.Cur().term
      && s1.Cur().instrs <= s2.Cur().instrs
  {
    hide LowerExpr, LowerStmts;
    ReturnEnds(s, r);
    StraightStmtsStay(LowerExpr(s, r).0, after);
  }

  /** In particular a call behind a return is made right before returning. */
  lemma {:induction false} CallAfterReturn(s: State, r: Expr, call: Expr)
    requires r.ReturnExpr? && call.CallExpr? && Straight(s.checkContracts, call)
    ensures var s1 := LowerExpr(s, r).0;
      var s2 := LowerExpr(s1, call).0;
      && s1.Cur().term.Some? && s2.cur == s1.cur && s2.Cur().term == s1.Cur().term
      && |s2.Cur().instrs| > |s1.Cur().instrs|
      && (var last := s2.Cur().instrs[|s2.Cur().instrs| - 1]; last.Call? && last.callee == CalleeName(call.callee))
  {
    var s1 := LowerExpr(s, r).0;
    ReturnEnds(s, r);
    CallIsLast(s1, call);
  }

  /**
   Code that branches behind a return, a given or while among it, takes the return's place: the block the return
   ended now leads on, and nothing is returned there.
   */
  lemma {:induction false} BranchAfterReturn(m: Mode, s: State, r: Expr, e: Expr)
    requires r.ReturnExpr? && s.checkContracts == m.check
    requires e.While? || (ShapedOperand(m, e) && !Straight(m.check, e))
    ensures var s1 := LowerExpr(s, r).0;
      var s2 := LowerExpr(s1, e).0;
      && IsReturnOrJump(s1.Cur().term, s1.header)
      && Targets(s2.body.blocks[s1.cur].term) != {} && s2.body.blocks[s1.cur].term != s1.Cur().term
      && s2.cur >= s1.Size()
  {
    hide LowerExpr, Shaped, Straight;
    var s1 := LowerExpr(s, r).0;
    ReturnEnds(s, r);
    if e.While? {
      MovesWhile(s1, e);
    } else {
      MovesExpr(m, s1, e);
    }
    var s2 := LowerExpr(s1, e).0;
    var t: BlockId :| LeadsTo(s2, s1.cur, t) && t >= s1.Size();
  }

  predicate IsReturnOrJump(term: Option<Terminator>, header: BlockId) {
    term.Some? && (term.value.Return? || term.value == Goto(header))
  }

  lemma {:induction false} CallIsLast(s: State, e: Expr)
    requires e.CallExpr? && Straight(s.checkContracts, e)
    ensures var s' := LowerExpr(s, e).0;
      && s'.cur == s.cur && s'.Cur().term == s.Cur().term && |s'.Cur().instrs| > |s.Cur().instrs|
      && (var last := s'.Cur().instrs[|s'.Cur().instrs| - 1]; last.Call? && last.callee == CalleeName(e.callee))
  {
    hide Appends;
    var CallExpr(callee, args, reqs, retTy) := e;
    var s1 := LowerOperands(s, args).0;
    StraightOperandsStay(s, args);
    CheckSame(s, s1);
    var s2 := if s1.checkContracts then LowerAsserts(s1, reqs, PRECONDITION) else s1;
    if s1.checkContracts {
      StraightAssertsStay(s1, reqs, PRECONDITION);
      AppendsTrans(s, s1, s2);
    }
    LongerNow(s, s2);
    assert LowerExpr(s, e) == LowerCall(s, e);
  }

  lemma {:induction false} LongerNow(s: State, s': State)
    requires Appends(s, s')
    ensures s'.cur == s.cur && s'.Cur().term == s.Cur().term && |s.Cur().instrs| <= |s'.Cur().instrs|
  {
  }

  /** Every given has the value 0, and returning one returns 0, checked or not. */
  lemma {:induction false} GivenIsZero(s: State, e: Expr)
    requires e.Given?
    ensures LowerExpr(s, e).1 == ZERO_RV && LowerOperand(s, e).1 == Const(IntConst(0))
    ensures LowerExpr(s, ReturnExpr(Some(e))).0.Cur().term == Some(Return(Some(Const(IntConst(0)))))
  {
    hide LowerBlock, OpenGiven, JoinTo, MoveTo, LowerClauses;
    assert LowerExpr(s, ReturnExpr(Some(e))) == LowerReturn(s, ReturnExpr(Some(e)));
  }

  /** An operator without a MIR form is lowered exactly as addition, or as negation. */
  lemma {:induction false} OtherOperators(s: State, e: Expr)
    requires (e.Bin? && BinCounterpart(e.op).None?) || (e.Un? && UnCounterpart(e.uop).None?)
    ensures LowerExpr(s, e) == LowerExpr(s, if e.Bin? then e.(op := OpAdd) else e.(uop := OpNeg))
  {
    hide LowerOperand;
  }

  /** An operand that is a variable is a reference to its slot: no instruction reads it before the operand is used. */
  lemma {:induction false} VariableOperand(s: State, x: Expr)
    requires x.Ident?
    ensures var (s', op) := LowerOperand(s, x);
      s'.body.blocks == s.body.blocks && x.def in s'.vars && op == Copy(s'.vars[x.def])
  {
  }

  /** A checked clause `result` is the returned expression lowered again, whatever that is, and then asserted. */
  lemma {:induction false} ResultAgain(s: State, c: Expr, x: Expr)
    requires c.Ident? && c.name == "result"
    ensures ReturnNestAll([c]) == 0
    ensures var (s1, op) := LowerOperand(s, x);
      LowerClauses(s, [c], x) == Push(s1, Assert(op, POSTCONDITION))
  {
    hide LowerOperand;
    assert SubstResult(c, x) == x && [c][1..] == [];
    var (s1, op) := LowerOperand(s, x);
    var s2 := Push(s1, Assert(op, POSTCONDITION));
    assert LowerClauses(s2, [], x) == s2;
  }

  // ---- Self tail calls ----

  ghost predicate AssignsFrom(instrs: seq<Instruction>, from: nat, n: nat) {
    forall i :: from <= i < |instrs| ==> instrs[i].Assign? && instrs[i].dest >= n
  }

  /** So returning a straight call under such a clause makes the call twice before the return. */
  lemma {:induction false} ReturnedCallTwice(s: State, c: Expr, x: Expr) returns (i: nat, j: nat)
    requires s.checkContracts && s.ensures_ == [c] && c.Ident? && c.name == "result"
    requires x.CallExpr? && Straight(true, x) && !IsSelfTailCall(s.forgeName, x)
    ensures var b := LowerExpr(s, ReturnExpr(Some(x))).0.Cur();
      && |s.Cur().instrs| <= i < j < |b.instrs|
      && IsCallOf(b.instrs[i], x.callee) && IsCallOf(b.instrs[j], x.callee)
      && b.term.Some? && b.term.value.Return?
  {
    var (s1, op) := LowerOperand(s, x);
    ConfineOperand(s, x);
    SetupKept(s, s1);
    OperandCall(s, x);
    OperandCall(s1, x);
    ResultAgain(s1, c, x);
    var s2 := LowerOperand(s1, x).0;
    var s3 := Push(s2, Assert(LowerOperand(s1, x).1, POSTCONDITION));
    assert LowerExpr(s, ReturnExpr(Some(x))) == LowerReturn(s, ReturnExpr(Some(x)));
    hide LowerExpr, LowerOperand, LowerClauses;
    i, j := |s1.Cur().instrs| - 1, |s2.Cur().instrs| - 1;
    assert s2.Cur().instrs[i] == s1.Cur().instrs[i];
    assert s3.Cur().instrs[i] == s2.Cur().instrs[i] && s3.Cur().instrs[j] == s2.Cur().instrs[j];
  }

  predicate IsCallOf(ins: Instruction, callee: Expr) {
    ins.Call? && ins.callee == CalleeName(callee)
  }

  // A call's value is an operand as it is.
  lemma {:induction false} OperandCall(s: State, x: Expr)
    requires x.CallExpr? && Straight(s.checkContracts, x)
    ensures var s' := LowerOperand(s, x).0;
      && s'.cur == s.cur && |s'.Cur().instrs| > |s.Cur().instrs| && s.Cur().instrs <= s'.Cur().instrs
      && IsCallOf(s'.Cur().instrs[|s'.Cur().instrs| - 1], x.callee)
  {
    CallIsLast(s, x);
    StraightStays(s, x);
    assert LowerExpr(s, x) == LowerCall(s, x);
    hide LowerExpr;
  }

  /** Rebinding the parameters writes only slots that did not exist before. */
  lemma {:induction false} RebindIsFresh(s: State, defs: seq<DefId>, ops: seq<Operand>, i: nat)
    requires i <= |defs|
    ensures var s' := Rebind(s, defs, ops, i);
      && s.Cur().instrs <= s'.Cur().instrs && |s'.body.locals| >= |s.body.locals|
      && AssignsFrom(s'.Cur().instrs, |s.Cur().instrs|, |s.body.locals|)
    decreases |defs| - i
  {
    if i < |defs| {
      if i >= |ops| {
        RebindIsFresh(s, defs, ops, i + 1);
      } else {
        var l := |s.body.locals|;
        var s1 := Push(NewLocal(s, "tco_p" + Digits(i), Error), Assign(l, Use(ops[i])));
        var s2 := WriteVariable(s1, defs[i], l);
        var s3 := Rebind(s2, defs, ops, i + 1);
        RebindIsFresh(s2, defs, ops, i + 1);
        assert s2.Cur().instrs == s.Cur().instrs + [Assign(l, Use(ops[i]))];
        assert s3.Cur().instrs[|s.Cur().instrs|] == s2.Cur().instrs[|s.Cur().instrs|];
      }
    }
  }

  /** Running such code leaves every older slot, the parameters' among them, as it was. */
  lemma {:induction false} FreshAssignsKeep(I: Interp, blocks: seq<BasicBlock>, f: Frame, n: nat, k: nat)
    requires f.blk < |blocks| && f.pc + k == |blocks[f.blk].instrs| && AssignsFrom(blocks[f.blk].instrs, f.pc, n)
    ensures var c := Steps(I, blocks, Running(f), k);
      && c.Running? && c.frame.blk == f.blk && c.frame.pc == f.pc + k && c.frame.trace == f.trace
      && forall l: Local :: l < n ==> Read(c.frame.store, l) == Read(f.store, l)
    decreases k
  {
    if k > 0 {
      var ins := blocks[f.blk].instrs[f.pc];
      assert Step(I, blocks, Running(f)) == ExecInstr(I, ins, f);
      FreshAssignsKeep(I, blocks, ExecInstr(I, ins, f).frame, n, k - 1);
    }
  }

  /**
   So a self tail call goes back to the header with every slot that existed before it, the parameters' slots
   among them, unchanged: `s1` is the state once the arguments are operands, `blocks` a body that holds the code.
   */
  lemma {:induction false} TailCallKeepsSlots(I: Interp, s1: State, ops: seq<Operand>, blocks: seq<BasicBlock>,
      f: Frame)
    requires var s2 := Rebind(s1, s1.paramDefs, ops, 0);
      && s1.cur < |blocks| && blocks[s1.cur] == BasicBlock(s2.Cur().instrs, Some(Goto(s1.header)))
    requires f.blk == s1.cur && f.pc == |s1.Cur().instrs|
    ensures exists k: nat, g: Frame :: GoesBack(I, blocks, f, k, g, s1.header, |s1.body.locals|)
  {
    hide Steps;
    var s2 := Rebind(s1, s1.paramDefs, ops, 0);
    var n := |s1.body.locals|;
    RebindIsFresh(s1, s1.paramDefs, ops, 0);
    var k := |s2.Cur().instrs| - f.pc;
    FreshAssignsKeep(I, blocks, f, n, k);
    var c := Steps(I, blocks, Running(f), k);
    StepsAdd(I, blocks, Running(f), k, 1);
    OneStep(I, blocks, c);
    assert GoesBack(I, blocks, f, k + 1, Step(I, blocks, c).frame, s1.header, n);
  }

  /** After `k` steps control is at the start of `header` and slots below `n` hold what they held. */
  ghost predicate GoesBack(I: Interp, blocks: seq<BasicBlock>, f: Frame, k: nat, g: Frame, header: BlockId, n: nat) {
    && Steps(I, blocks, Running(f), k) == Running(g) && g.blk == header && g.pc == 0 && g.trace == f.trace
    && forall l: Local :: l < n ==> Read(g.store, l) == Read(f.store, l)
  }

  /** The parameters' slots, which are the first, hold the arguments. */
  ghost predicate Arrived(store: Store, vals: Store, ops: seq<Operand>, params: nat) {
    forall i: nat :: i < params && i < |ops| ==> Read(store, i) == OperandValue(vals, ops[i])
  }

  /** Exactly when a self tail call hands its arguments to the header: when the parameters hold them already. */
  lemma {:induction false} TailCallPassesIff(I: Interp, s1: State, ops: seq<Operand>, blocks: seq<BasicBlock>,
      f: Frame) returns (k: nat, g: Frame)
    requires |s1.paramDefs| <= |s1.body.locals|
    requires var s2 := Rebind(s1, s1.paramDefs, ops, 0);
      && s1.cur < |blocks| && blocks[s1.cur] == BasicBlock(s2.Cur().instrs, Some(Goto(s1.header)))
    requires f.blk == s1.cur && f.pc == |s1.Cur().instrs|
    ensures GoesBack(I, blocks, f, k, g, s1.header, |s1.body.locals|)
    ensures Arrived(g.store, f.store, ops, |s1.paramDefs|) <==> Arrived(f.store, f.store, ops, |s1.paramDefs|)
  {
    hide Rebind, Steps, Read, OperandValue;
    TailCallKeepsSlots(I, s1, ops, blocks, f);
    k, g :| GoesBack(I, blocks, f, k, g, s1.header, |s1.body.locals|);
  }

  /** What is lowered behind a self tail call finds each parameter with an argument in a slot made by that call. */
  lemma {:induction false} TailCallHides(s: State, e: Expr, i: nat)
    requires e.ReturnExpr? && e.result.Some? && IsSelfTailCall(s.forgeName, e.result.value)
    requires i < |s.paramDefs| && i < |e.result.value.args|
    ensures var s' := LowerExpr(s, e).0;
      var d := s.paramDefs[i];
      d in s'.vars && s'.vars[d] >= |LowerOperands(s, e.result.value.args).0.body.locals|
  {
    var (s1, ops) := LowerOperands(s, e.result.value.args);
    ConfineOperands(s, e.result.value.args);
    assert LowerExpr(s, e) == LowerReturn(s, e);
    OneEach(s, e.result.value.args);
    hide LowerOperands;
    RebindHides(s1, s1.paramDefs, ops, 0, i, |s1.body.locals|);
  }

  lemma {:induction false} OneEach(s: State, es: seq<Expr>)
    ensures |LowerOperands(s, es).1| == |es|
    decreases |es|
  {
    if es != [] {
      OneEach(LowerOperand(s, es[0]).0, es[1..]);
    }
  }

  lemma {:induction false} RebindHides(s: State, defs: seq<DefId>, ops: seq<Operand>, i: nat, k: nat, n: nat)
    requires i <= |defs| && k < |defs| && k < |ops| && n <= |s.body.locals|
    requires k < i ==> defs[k] in s.vars && s.vars[defs[k]] >= n
    ensures var s' := Rebind(s, defs, ops, i); defs[k] in s'.vars && s'.vars[defs[k]] >= n
    decreases |defs| - i
  {
    if i < |defs| {
      if i >= |ops| {
        RebindHides(s, defs, ops, i + 1, k, n);
      } else {
        var l := |s.body.locals|;
        var s1 := Push(NewLocal(s, "tco_p" + Digits(i), Error), Assign(l, Use(ops[i])));
        RebindHides(WriteVariable(s1, defs[i], l), defs, ops, i + 1, k, n);
      }
    }
  }
}
