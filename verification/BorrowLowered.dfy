/** A lowered forge that the borrow check accepts although one of its paths reads a variable never set on it. */
module BorrowLowered {
  import opened Common
  import opened Mir
  import opened Hir
  import opened LowerSpec
  import opened Fragment
  import LowerShape
  import L = LowerLimits
  import opened Dce
  import opened Liveness
  import opened Borrow
  import opened BorrowCheck
  import opened BorrowPaths

  // g(y)
  function CallG(): Expr {
    CallExpr(Ident("g", 100, Error), [L.VarE("y", 1)], [], Prim(Void))
  }

  // { y = 1 }
  function SetY(): HBlock {
    HBlock([AssignStmt(1, L.IntE(1))], None)
  }

  // f(x) { let y; given x { y = 1 }; g(y) }
  function LateSet(): Forge {
    Forge("f", L.OneParam(), Some(HBlock(
      [Let("y", 1, L.NUM, None), ExprStmt(L.GivenX(SetY())), ExprStmt(CallG())], None)), [])
  }

  const SET: Instruction := Assign(1, Use(Const(IntConst(1))))

  const LATE_BLOCKS: seq<BasicBlock> :=
    [L.ENTRY, BasicBlock([], Some(SwitchInt(Copy(0), [(1, 2)], 3))), BasicBlock([SET], Some(Goto(4))),
     BasicBlock([], Some(Goto(4))), BasicBlock([Call(None, "g", [Copy(1)])], Some(Return(None)))]

  lemma {:induction false} SetYLowered(s: State)
    requires 1 !in s.vars && |s.body.locals| == 1 && s.Cur() == EMPTY_BLOCK
    ensures var s' := LowerBlock(s, SetY()).0;
      && s'.cur == s.cur && s'.Size() == s.Size() && s'.body.blocks == s.body.blocks[s.cur := BasicBlock([SET], None)]
      && s'.vars == s.vars[1 := 1] && s'.body.locals == s.body.locals + [LocalData(DebugDef(1), Error)]
      && s'.checkContracts == s.checkContracts && s'.body.entry == s.body.entry
  {
    hide DebugDef;
    var st := SetY().stmts[0];
    var s1 := ReadVariable(s, 1).0;
    assert s1.vars == s.vars[1 := 1] && s1.body.blocks == s.body.blocks;
    assert LowerStmt(s, st) == Push(s1, SET);
    assert SetY().stmts[1..] == [];
    L.NoStmts(Push(s1, SET));
    assert [] + [SET] == [SET];
  }

  lemma {:induction false} CallGLowered(s: State)
    requires 1 in s.vars && s.vars[1] == 1 && s.Cur() == EMPTY_BLOCK && !s.checkContracts
    ensures var s' := LowerExpr(s, CallG()).0;
      && s'.cur == s.cur && s'.body.locals == s.body.locals && s'.body.entry == s.body.entry
      && s'.body.blocks == s.body.blocks[s.cur := BasicBlock([Call(None, "g", [Copy(1)])], None)]
  {
    var y := L.VarE("y", 1);
    assert LowerOperand(s, y) == (s, Copy(1));
    assert [y][1..] == [] && LowerOperands(s, []) == (s, []) && [Copy(1)] + [] == [Copy(1)];
    assert LowerOperands(s, [y]) == (s, [Copy(1)]);
    assert LowerCall(s, CallG()).0 == Push(s, Call(None, "g", [Copy(1)]));
    assert LowerExpr(s, CallG()) == LowerCall(s, CallG());
    assert [] + [Call(None, "g", [Copy(1)])] == [Call(None, "g", [Copy(1)])];
  }

  lemma {:induction false} LateSetStart()
    ensures var s := StartForge(false, LateSet());
      && s.body.blocks == [L.ENTRY, EMPTY_BLOCK] && s.cur == 1 && s.body.entry == 0 && s.body.argCount == 1
      && s.vars == map[0 := 0] && s.body.locals == [LocalData("x", L.NUM)] && !s.checkContracts
  {
    var f := LateSet();
    var b0 := Lowering(MirBody([EMPTY_BLOCK, EMPTY_BLOCK], [], 0, [], 1), 0, 1, f.name, ParamDefs(f.params), map[],
        false, []);
    var b1 := WriteVariable(NewLocal(b0, "x", L.NUM), 0, 0);
    assert f.params[1..] == [];
    assert BindParams(b1, []) == b1;
    assert BindParams(b0, f.params) == b1;
  }

  lemma {:induction false} LateSetLowered()
    ensures var body := LowerForge(false, LateSet());
      && body.entry == 0 && body.blocks == LATE_BLOCKS
      && body.locals == [LocalData("x", L.NUM), LocalData(DebugDef(1), Error)]
  {
    hide StartForge, DebugDef, LowerStmts, LowerStmt, LowerExpr, LowerBlock, OpenGiven;
    var f := LateSet();
    var ss := f.body.value.stmts;
    LateSetStart();
    var s0 := StartForge(false, f);
    L.OpenedX(s0);
    var o := OpenGiven(s0, Copy(0));
    OpenedKeeps(s0);
    SetYLowered(o);
    L.GivenXLowered(s0, SetY(), LowerBlock(o, SetY()).0, BasicBlock([SET], None));
    var s1 := LowerStmts(s0, [ExprStmt(L.GivenX(SetY()))]);
    CallGLowered(s1);
    var s2 := LowerExpr(s1, CallG()).0;
    Statements(s0, s1, s2);
    L.NoTail(s0, f.body.value);
    assert LowerBody(s0, f.body) == s2;
    assert s2.Cur() == BasicBlock([Call(None, "g", [Copy(1)])], None);
    assert L.JoinedTo(BasicBlock([SET], None), 4) == BasicBlock([SET], Some(Goto(4)));
  }

  lemma {:induction false} OpenedKeeps(s: State)
    ensures var o := OpenGiven(s, Copy(0));
      && o.vars == s.vars && o.body.locals == s.body.locals && o.checkContracts == s.checkContracts
      && o.body.entry == s.body.entry && o.cur == s.Size() && o.Cur() == EMPTY_BLOCK
  {
  }

  // The three statements in a row.
  lemma {:induction false} Statements(s0: State, s1: State, s2: State)
    requires s1 == LowerExpr(s0, L.GivenX(SetY())).0 && s2 == LowerExpr(s1, CallG()).0
    ensures LowerStmts(s0, LateSet().body.value.stmts) == s2
  {
    hide LowerExpr;
    var ss := LateSet().body.value.stmts;
    assert LowerStmt(s0, ss[0]) == s0 && LowerStmt(s0, ss[1]) == s1 && LowerStmt(s1, ss[2]) == s2;
    hide LowerStmt;
    assert ss[1..][1..] == [ss[2]] && ss[1..][0] == ss[1] && [ss[2]][1..] == [];
    L.NoStmts(s2);
    assert LowerStmts(s1, [ss[2]]) == LowerStmts(s2, []);
    assert LowerStmts(s0, ss[1..]) == LowerStmts(s1, [ss[2]]);
  }

  lemma {:induction false} LateSetCoherent()
    ensures Coherent(LowerForge(false, LateSet())) && LowerForge(false, LateSet()).argCount == 1
  {
    hide LowerForge;
    var f := LateSet();
    var m := LowerShape.ForgeMode(false, f, false);
    LowerShape.ForgeModeOf(false, f, false);
    var ss := f.body.value.stmts;
    assert ss[1..][1..] == [ss[2]] && ss[1..][0] == ss[1] && [ss[2]][1..] == [];
    assert SetY().stmts[1..] == [] && CallG().args[1..] == [];
    assert ShapedStmts(m, SetY().stmts, true);
    assert ShapedBlock(m, SetY());
    assert ShapedStmt(m, ss[1]) && ShapedStmt(m, ss[2]) && ShapedStmt(m, ss[0]);
    assert ShapedStmts(m, [], true);
    assert ShapedStmts(m, [ss[2]], true);
    assert ShapedStmts(m, ss[1..], true);
    assert ShapedStmts(m, ss, true);
    LowerShape.ForgeCoherent(m, f);
  }

  // What the pass looks at, in block order.
  lemma {:induction false} LateSetEvents()
    ensures EventsUpTo(LATE_BLOCKS, 5) == [Read(Copy(0), 1), Read(Const(IntConst(1)), 2), Define(1), Read(Copy(1), 4)]
  {
    hide InstrEvents;
    assert InstrEvents(SET, 2) == [Read(Const(IntConst(1)), 2), Define(1)] by { SetEvents(); }
    assert InstrEvents(Call(None, "g", [Copy(1)]), 4) == [Read(Copy(1), 4)] by { CallEvents(); }
    var b2, b4 := LATE_BLOCKS[2].instrs, LATE_BLOCKS[4].instrs;
    assert b2[..0] == [] && b4[..0] == [];
    assert InstrsEvents(b2, 2) == InstrsEvents([], 2) + InstrEvents(SET, 2) == [Read(Const(IntConst(1)), 2), Define(1)];
    assert InstrsEvents(b4, 4) == InstrsEvents([], 4) + InstrEvents(b4[0], 4) == [Read(Copy(1), 4)];
    hide InstrsEvents;
    assert InstrsEvents([], 0) == [] && InstrsEvents([], 1) == [] && InstrsEvents([], 3) == [] by { NoEvents(); }
    assert EventsUpTo(LATE_BLOCKS, 1) == [];
    assert EventsUpTo(LATE_BLOCKS, 2) == [Read(Copy(0), 1)];
    assert EventsUpTo(LATE_BLOCKS, 3) == [Read(Copy(0), 1), Read(Const(IntConst(1)), 2), Define(1)];
    assert EventsUpTo(LATE_BLOCKS, 4) == EventsUpTo(LATE_BLOCKS, 3);
  }

  lemma {:induction false} NoEvents()
    ensures InstrsEvents([], 0) == [] && InstrsEvents([], 1) == [] && InstrsEvents([], 3) == []
  {
  }

  lemma {:induction false} SetEvents()
    ensures InstrEvents(SET, 2) == [Read(Const(IntConst(1)), 2), Define(1)]
  {
  }

  lemma {:induction false} CallEvents()
    ensures InstrEvents(Call(None, "g", [Copy(1)]), 4) == [Read(Copy(1), 4)]
  {
    assert Reads([Copy(1)], 4) == [Read(Copy(1), 4)];
  }

  lemma {:induction false} LateSetAccepted(body: MirBody)
    requires body.blocks == LATE_BLOCKS && body.argCount == 1
    requires |body.locals| == 2 && body.locals[0].ty == Prim(I32) && body.locals[1].ty == Error
    ensures Accepted(body)
  {
    hide EventsUpTo;
    LateSetEvents();
    var evs := EventsUpTo(body.blocks, 5);
    assert evs[..3] == [Read(Copy(0), 1), Read(Const(IntConst(1)), 2), Define(1)];
    assert evs[..0] == [];
    assert Owned(body, evs[..0], 0) && Owned(body, evs[..3], 1);
    forall s, x
      ensures !BorrowSite(body, s, x)
    {
    }
  }

  // On the way through the empty else branch nothing sets `y`.
  lemma {:induction false} LateSetLive(body: MirBody)
    requires body.blocks == LATE_BLOCKS && body.entry == 0 && Coherent(body)
    ensures LiveIn(body, 0, 1)
  {
    var path: seq<BlockId> := [0, 1, 3, 4];
    var b4 := LATE_BLOCKS[4];
    assert DefsOf([]) == {} && UsesOf([]) == {};
    assert Copy(1) in [Copy(1)] && 1 in OperandUses(Copy(1));
    assert b4.instrs[..0] == [] && 1 in UsesOf(b4.instrs);
    assert Targets(LATE_BLOCKS[0].term) == {1} && 3 in Targets(LATE_BLOCKS[1].term)
        && Targets(LATE_BLOCKS[3].term) == {4};
    assert CoherentAt(body, 0) && CoherentAt(body, 1) && CoherentAt(body, 3);
    assert LivePath(body, path, 1);
  }

  /**
   Initialisation follows block numbers, not control flow: a lowered forge is accepted although along the
   path of the else branch it reads a variable never set.
   */
  lemma {:induction false} AcceptsUninitialisedPath()
    ensures var body := LowerForge(false, LateSet());
      Accepted(body) && LiveIn(body, body.entry, 1) && body.argCount == 1 && !AllowedOnAllPaths(body)
  {
    LateSetLowered();
    LateSetCoherent();
    hide LowerForge, Accepted, Coherent, AllowedOnAllPaths, LiveIn, MovesFinal;
    var body := LowerForge(false, LateSet());
    LateSetAccepted(body);
    LateSetLive(body);
    AcceptedOnAllPathsIff(body);
    assert !EntryDefined(body);
  }
}
