/**
 Where lowering does not preserve meaning: for each condition of the preserved fragment, a program outside
 it that behaves differently once lowered.
 */
module LowerLimits {
  import opened Common
  import opened Mir
  import opened MirSemantics
  import opened Hir
  import opened HirSemantics
  import opened LowerSpec
  import opened Fragment
  import opened LowerShape
  import opened LowerBent
  import opened LowerEarly
  import opened LowerTheorem
  import opened LowerSame
  import opened LowerOps
  import opened LowerZones
  import opened ZonePaths

  const NUM := Prim(I32)

  function IntE(i: int): Expr {
    Lit(IntLit(i))
  }

  function VarE(name: string, v: DefId): Expr {
    Ident(name, v, NUM)
  }

  function CallE(name: string, retTy: Type): Expr {
    CallExpr(Ident(name, 100, Error), [], [], retTy)
  }

  function OneParam(): seq<Param> {
    [Param("x", 0, NUM)]
  }

  /** The end of a run of three steps or fewer, spelled out. */
  lemma {:induction false} Unroll(I: Interp, blocks: seq<BasicBlock>, c: Config)
    ensures Steps(I, blocks, c, 1) == Step(I, blocks, c)
    ensures Steps(I, blocks, c, 2) == Step(I, blocks, Step(I, blocks, c))
    ensures Steps(I, blocks, c, 3) == Step(I, blocks, Step(I, blocks, Step(I, blocks, c)))
  {
    assert Steps(I, blocks, c, 1) == Steps(I, blocks, Step(I, blocks, c), 0);
    assert Steps(I, blocks, c, 2) == Steps(I, blocks, Step(I, blocks, c), 1)
           == Steps(I, blocks, Step(I, blocks, Step(I, blocks, c)), 0);
    assert Steps(I, blocks, c, 3) == Steps(I, blocks, Step(I, blocks, c), 2)
           == Steps(I, blocks, Step(I, blocks, Step(I, blocks, c)), 1)
           == Steps(I, blocks, Step(I, blocks, Step(I, blocks, Step(I, blocks, c))), 0);
  }

  // ---- Code after a return ----

  // { return 1; g() }
  function AfterReturn(): Forge {
    Forge("f", [], Some(HBlock([ExprStmt(ReturnExpr(Some(IntE(1)))), ExprStmt(CallE("g", Prim(Void)))], None)), [])
  }

  const ENTRY := BasicBlock([], Some(Goto(1)))

  lemma {:induction false} StartBlocks(check: bool, f: Forge)
    requires f.params == [] && ReturnNestAll(f.ensures_) == 0
    ensures var s := StartForge(check, f);
      && s.body.blocks == [ENTRY, EMPTY_BLOCK] && s.cur == 1 && s.header == 1 && s.body.entry == 0
      && s.vars == map[] && s.body.locals == [] && s.forgeName == f.name && s.checkContracts == check
         && s.ensures_ == f.ensures_
  {
  }

  // { g(); return 1 }
  function ReturnLast(): Forge {
    AfterReturn().(body := Some(HBlock([AfterReturn().body.value.stmts[1], AfterReturn().body.value.stmts[0]], None)))
  }

  lemma {:induction false} ReturnLastValue(I: HirInterp)
    ensures HirEnds(I, false, ReturnLast(), [], DidReturn(Some(IntVal(1))), [Called("g", [])])
    ensures SoundForge(false, ReturnLast())
  {
    var C := Contracts(false, []);
    var (tr, ss) := ([Called("g", [])], ReturnLast().body.value.stmts);
    assert ss[1..] == [ss[1]] && [ss[1]][1..] == [] && [] + tr == tr;
    assert EvalList(I, C, [], map[], [], 0) == Values([], map[], []);
    assert Eval(I, C, CallE("g", Prim(Void)), map[], [], 0) == Result(Normal(UNIT), map[], tr);
    assert EvalStmts(I, C, [ss[1]], map[], tr, 0) == Result(Gave(Some(IntVal(1))), map[], tr);
    assert EvalStmts(I, C, ss, map[], [], 0) == Result(Gave(Some(IntVal(1))), map[], tr);
    assert HirEndsBy(I, false, ReturnLast(), [], DidReturn(Some(IntVal(1))), tr, 0);
    assert ShapedStmts(ForgeMode(false, ReturnLast(), false), [ss[1]], true);
    assert SoundStmts(C, [ss[1]]) && SoundStmts(C, ss);
  }

  /** The call behind the return is made, before returning. */
  lemma {:induction false} CodeAfterReturnRuns(I: HirInterp)
    ensures HirEnds(I, false, AfterReturn(), [], DidReturn(Some(IntVal(1))), [])
    ensures MirEnds(I.mir, LowerForge(false, AfterReturn()), ArgStore([]), DidReturn(Some(IntVal(1))),
                [Called("g", [])])
  {
    assert HirEndsBy(I, false, AfterReturn(), [], DidReturn(Some(IntVal(1))), [], 0);
    hide LowerForge, HirEnds, SoundForge;
    var f := AfterReturn();
    var (r, after) := (f.body.value.stmts[0], [f.body.value.stmts[1]]);
    ReturnLastValue(I);
    assert after[1..] == [] && StraightStmts(false, after);
    assert [] + [r] + after == f.body.value.stmts && [] + after + [r] == ReturnLast().body.value.stmts;
    CodeBehindReturnMeans(I, false, f, [], IntLit(1), after, [], DidReturn(Some(IntVal(1))), [Called("g", [])]);
  }

  /** A body that is only a tail expression. */
  lemma {:induction false} TailOnly(s: State, e: Expr)
    ensures LowerBlock(s, HBlock([], Some(e))) == LowerExpr(s, e)
  {
    hide LowerExpr;
    assert LowerStmts(s, []) == s;
  }

  lemma {:induction false} TailForge(check: bool, f: Forge, e: Expr)
    requires ReturnNestAll(f.ensures_) == 0 && f.body == Some(HBlock([], Some(e)))
    ensures LowerForge(check, f) == FinishForge(LowerExpr(StartForge(check, f), e).0).body
  {
    hide LowerExpr, StartForge;
    TailOnly(StartForge(check, f), e);
  }

  lemma {:induction false} ReturnOperand(s: State, x: Expr, s1: State, op: Operand)
    requires !s.checkContracts && !x.CallExpr? && LowerOperand(s, x) == (s1, op) && !s1.checkContracts
    ensures LowerExpr(s, ReturnExpr(Some(x))).0 == Terminate(s1, s1.cur, Return(Some(op)))
  {
    hide LowerOperand;
    assert LowerExpr(s, ReturnExpr(Some(x))) == LowerReturn(s, ReturnExpr(Some(x)));
  }

  // ---- A given used as a value ----

  // { return given true { 7 } }
  function GivenValue(): Expr {
    Given(Lit(BoolLit(true)), HBlock([], Some(IntE(7))), None, NUM)
  }

  function ReturnGiven(): Forge {
    Forge("f", [], Some(HBlock([], Some(ReturnExpr(Some(GivenValue()))))), [])
  }

  lemma {:induction false} GivenValueOfForge(I: HirInterp)
    ensures HirEnds(I, false, ReturnGiven(), [], DidReturn(Some(IntVal(7))), [Switched(1)])
  {
    var C := Contracts(false, []);
    assert Eval(I, C, Lit(BoolLit(true)), map[], [], 0) == Result(Normal(BoolVal(true)), map[], []);
    assert EvalBlock(I, C, HBlock([], Some(IntE(7))), map[], [Switched(1)], 0) ==
        Result(Normal(IntVal(7)), map[], [Switched(1)]);
    assert [] + [Switched(1)] == [Switched(1)];
    assert Eval(I, C, GivenValue(), map[], [], 0) == Result(Normal(IntVal(7)), map[], [Switched(1)]);
    assert HirEndsBy(I, false, ReturnGiven(), [], DidReturn(Some(IntVal(7))), [Switched(1)], 0);
  }

  // { given true { 7 }  return 0 }
  lemma {:induction false} GivenThenZero(I: HirInterp)
    ensures var f := WithBody(ReturnGiven(), [ExprStmt(GivenValue())], Some(RETURN_ZERO));
      SoundForge(false, f) && HirEnds(I, false, f, [], DidReturn(Some(IntVal(0))), [Switched(1)])
  {
    var f := WithBody(ReturnGiven(), [ExprStmt(GivenValue())], Some(RETURN_ZERO));
    var (C, tr) := (Contracts(false, []), [Switched(1)]);
    assert f.body.value.stmts[1..] == [] && [] + tr == tr;
    assert EvalBlock(I, C, HBlock([], Some(IntE(7))), map[], tr, 0) == Result(Normal(IntVal(7)), map[], tr);
    assert Eval(I, C, GivenValue(), map[], [], 0) == Result(Normal(IntVal(7)), map[], tr);
    assert EvalStmts(I, C, f.body.value.stmts, map[], [], 0) == Result(Normal(UNIT), map[], tr);
    assert Eval(I, C, RETURN_ZERO, map[], tr, 0) == Result(Gave(Some(IntVal(0))), map[], tr);
    assert HirEndsBy(I, false, f, [], DidReturn(Some(IntVal(0))), tr, 0);
    assert SoundBlock(C, HBlock([], Some(IntE(7))), false) && SoundStmts(C, f.body.value.stmts);
    assert ShapedBlock(ForgeMode(false, f, false), HBlock([], Some(IntE(7))));
    assert ShapedStmts(ForgeMode(false, f, false), f.body.value.stmts, false);
  }

  /** The value of a given is lost: 0 is returned for 7. */
  lemma {:induction false} GivenLosesItsValue(I: HirInterp)
    ensures HirEnds(I, false, ReturnGiven(), [], DidReturn(Some(IntVal(7))), [Switched(1)])
    ensures MirEnds(I.mir, LowerForge(false, ReturnGiven()), ArgStore([]), DidReturn(Some(IntVal(0))), [Switched(1)])
  {
    GivenValueOfForge(I);
    GivenThenZero(I);
    hide LowerForge, HirEnds, SoundForge;
    var (f, g) := (ReturnGiven(), GivenValue());
    assert [] + [ExprStmt(g)] == [ExprStmt(g)];
    assert WithBody(f, [], Some(ReturnExpr(Some(g)))) == f;
    ReturnedGivenMeans(I, false, f, [], g, [], DidReturn(Some(IntVal(0))), [Switched(1)]);
  }

  // ---- Operators without a MIR counterpart ----

  // f(x, y) { return x op y }
  function BinE(op: BinaryOp): Expr {
    Bin(op, VarE("x", 0), VarE("y", 1), NUM)
  }

  function ReturnBin(op: BinaryOp): Forge {
    Forge("f", [Param("x", 0, NUM), Param("y", 1, NUM)], Some(HBlock([], Some(ReturnExpr(Some(BinE(op)))))), [])
  }

  lemma {:induction false} BinValueOfForge(I: HirInterp, op: BinaryOp, x: Value, y: Value)
    ensures HirEnds(I, false, ReturnBin(op), [x, y], DidReturn(Some(ApplyBin(I, op, x, y))), [])
  {
    var f := ReturnBin(op);
    var C := Contracts(false, []);
    var env := map[0 := x, 1 := y];
    var v := ApplyBin(I, op, x, y);
    assert [x, y][1..] == [y] && f.params[1..] == [f.params[1]] && [y][1..] == [] && [f.params[1]][1..] == [];
    assert BindArgs(env, [], []) == env;
    assert BindArgs(map[0 := x], [f.params[1]], [y]) == env;
    assert BindArgs(map[], f.params, [x, y]) == env;
    assert Eval(I, C, BinE(op), env, [], 0) == Result(Normal(v), env, []);
    assert EvalBlock(I, C, f.body.value, env, [], 0) == Eval(I, C, f.body.value.tail.value, env, [], 0);
    assert HirEndsBy(I, false, f, [x, y], DidReturn(Some(v)), [], 0);
  }

  lemma {:induction false} AddForge(op: BinaryOp)
    requires BinCounterpart(op).None?
    ensures MappedForge(ReturnBin(op)) == ReturnBin(OpAdd) && SoundForge(false, ReturnBin(OpAdd))
  {
  }

  /**
   Returning `x op y` for an operator MIR does not have returns `x + y` instead; so it is lowered rightly
   on given arguments if and only if the operator happens to agree with addition on them.
   */
  lemma {:induction false} UnmappedOperatorAdds(I: HirInterp, op: BinaryOp, x: Value, y: Value)
    requires BinCounterpart(op).None?
    ensures HirEnds(I, false, ReturnBin(op), [x, y], DidReturn(Some(I.otherBin(op, x, y))), [])
    ensures MirEnds(I.mir, LowerForge(false, ReturnBin(op)), ArgStore([x, y]), DidReturn(Some(I.otherBin(op, x, y))),
                [])
            <==> I.otherBin(op, x, y) == I.mir.bin(Add, x, y)
  {
    hide LowerForge, HirEnds, SoundForge, MappedForge;
    var (body, sum) := (LowerForge(false, ReturnBin(op)), DidReturn(Some(I.mir.bin(Add, x, y))));
    BinValueOfForge(I, op, x, y);
    BinValueOfForge(I, OpAdd, x, y);
    AddForge(op);
    OperatorsMean(I, false, ReturnBin(op), [x, y], sum, []);
    if MirEnds(I.mir, body, ArgStore([x, y]), DidReturn(Some(I.otherBin(op, x, y))), []) {
      OneEnd(I.mir, body, ArgStore([x, y]), sum, [], DidReturn(Some(I.otherBin(op, x, y))), []);
    }
  }

  lemma {:induction false} OneParamStart(check: bool, f: Forge)
    requires f.params == OneParam() && ReturnNestAll(f.ensures_) == 0
    ensures var s := StartForge(check, f);
      && s.body.blocks == [ENTRY, EMPTY_BLOCK] && s.cur == 1 && s.header == 1 && s.body.entry == 0
      && s.vars == map[0 := 0] && |s.body.locals| == 1 && s.checkContracts == check && s.forgeName == f.name
      && s.paramDefs == [0]
  {
    var b0 := Lowering(MirBody([EMPTY_BLOCK, EMPTY_BLOCK], [], 0, [], 1), 0, 1, f.name, ParamDefs(f.params), map[],
        check, f.ensures_);
    var b1 := WriteVariable(NewLocal(b0, "x", NUM), 0, 0);
    assert f.params[1..] == [];
    assert BindParams(b1, []) == b1;
    assert BindParams(b0, f.params) == b1;
    assert ParamDefs(f.params) == [0];
  }

  lemma {:induction false} OneArg(x: Value)
    ensures BindArgs(map[], OneParam(), [x]) == map[0 := x]
  {
    assert OneParam()[1..] == [] && [x][1..] == [];
    assert BindArgs(map[0 := x], [], []) == map[0 := x];
  }

  // f(x) { return op x }
  function ReturnUn(op: UnaryOp): Forge {
    Forge("f", OneParam(), Some(HBlock([], Some(ReturnExpr(Some(Un(op, VarE("x", 0), NUM)))))), [])
  }

  lemma {:induction false} UnValueOfForge(I: HirInterp, op: UnaryOp, x: Value)
    ensures HirEnds(I, false, ReturnUn(op), [x], DidReturn(Some(ApplyUn(I, op, x))), [])
  {
    var f := ReturnUn(op);
    var C := Contracts(false, []);
    var (env, v) := (map[0 := x], ApplyUn(I, op, x));
    OneArg(x);
    assert Eval(I, C, Un(op, VarE("x", 0), NUM), env, [], 0) == Result(Normal(v), env, []);
    assert EvalBlock(I, C, f.body.value, env, [], 0) == Eval(I, C, f.body.value.tail.value, env, [], 0);
    assert HirEndsBy(I, false, f, [x], DidReturn(Some(v)), [], 0);
  }

  lemma {:induction false} NegForge(op: UnaryOp)
    requires UnCounterpart(op).None?
    ensures MappedForge(ReturnUn(op)) == ReturnUn(OpNeg) && SoundForge(false, ReturnUn(OpNeg))
  {
    var u := Un(op, VarE("x", 0), NUM);
    assert Mapped(VarE("x", 0)) == VarE("x", 0);
    assert Mapped(u) == Un(OpNeg, VarE("x", 0), NUM);
    assert MappedBlock(HBlock([], Some(ReturnExpr(Some(u))))) == HBlock([], Some(ReturnExpr(Some(Mapped(u)))));
  }

  /** The same for a unary operator MIR does not have, which is lowered as negation. */
  lemma {:induction false} UnmappedUnaryNegates(I: HirInterp, op: UnaryOp, x: Value)
    requires UnCounterpart(op).None?
    ensures HirEnds(I, false, ReturnUn(op), [x], DidReturn(Some(I.otherUn(op, x))), [])
    ensures MirEnds(I.mir, LowerForge(false, ReturnUn(op)), ArgStore([x]), DidReturn(Some(I.otherUn(op, x))), [])
            <==> I.otherUn(op, x) == I.mir.un(Neg, x)
  {
    hide LowerForge, HirEnds, SoundForge, MappedForge;
    var (body, neg) := (LowerForge(false, ReturnUn(op)), DidReturn(Some(I.mir.un(Neg, x))));
    UnValueOfForge(I, op, x);
    UnValueOfForge(I, OpNeg, x);
    NegForge(op);
    OperatorsMean(I, false, ReturnUn(op), [x], neg, []);
    if MirEnds(I.mir, body, ArgStore([x]), DidReturn(Some(I.otherUn(op, x))), []) {
      OneEnd(I.mir, body, ArgStore([x]), neg, [], DidReturn(Some(I.otherUn(op, x))), []);
    }
  }

  // ---- An operand that writes a variable an earlier operand still has to read ----

  // zone z { x = 5; 1 }
  function WritingZone(): Expr {
    Zone("z", HBlock([AssignStmt(0, IntE(5))], Some(IntE(1))), NUM)
  }

  // f(x) { return x + zone z { x = 5; 1 } }
  function LateRead(): Forge {
    Forge("f", OneParam(), Some(HBlock([], Some(ReturnExpr(Some(Bin(OpAdd, VarE("x", 0), WritingZone(), NUM)))))), [])
  }

  lemma {:induction false} WritingZoneLowered(s: State)
    requires s.body.blocks == [ENTRY, EMPTY_BLOCK] && s.cur == 1 && 0 in s.vars && s.vars[0] == 0
    ensures var (s', op) := LowerOperand(s, WritingZone());
      && op == Const(IntConst(1)) && s'.vars == s.vars && s'.body.locals == s.body.locals
      && s'.cur == 1 && s'.checkContracts == s.checkContracts && s'.body.entry == s.body.entry
      && s'.body.blocks ==
         [ENTRY, BasicBlock([ZoneEnter("z"), Assign(0, Use(Const(IntConst(5)))), ZoneExit("z")], None)]
  {
    var b := HBlock([AssignStmt(0, IntE(5))], Some(IntE(1)));
    var s1 := Push(s, ZoneEnter("z"));
    var s2 := Push(s1, Assign(0, Use(Const(IntConst(5)))));
    assert LowerStmt(s1, b.stmts[0]) == s2;
    assert b.stmts[1..] == [];
    assert LowerStmts(s2, []) == s2;
    assert LowerStmts(s1, b.stmts) == s2;
    assert LowerBlock(s1, b) == (s2, Use(Const(IntConst(1))));
    assert LowerExpr(s, WritingZone()) == (Push(s2, ZoneExit("z")), Use(Const(IntConst(1))));
    hide LowerExpr, LowerBlock;
    assert s1.Cur().instrs == [ZoneEnter("z")];
    assert s2.Cur().instrs == [ZoneEnter("z"), Assign(0, Use(Const(IntConst(5))))];
    assert Push(s2, ZoneExit("z")).Cur().instrs == [ZoneEnter("z"), Assign(0, Use(Const(IntConst(5)))), ZoneExit("z")];
  }

  lemma {:induction false} LateReadLowered()
    ensures LowerForge(false, LateRead()).entry == 0
    ensures LowerForge(false, LateRead()).blocks ==
            [ENTRY, BasicBlock([ZoneEnter("z"), Assign(0, Use(Const(IntConst(5)))), ZoneExit("z"),
                                Assign(1, Binary(Add, Copy(0), Const(IntConst(1))))], Some(Return(Some(Move(1)))))]
  {
    var f := LateRead();
    var e := Bin(OpAdd, VarE("x", 0), WritingZone(), NUM);
    var s := StartForge(false, f);
    OneParamStart(false, f);
    TailForge(false, f, ReturnExpr(Some(e)));
    hide StartForge, LowerForge;
    assert LowerOperand(s, e.lhs) == (s, Copy(0));
    WritingZoneLowered(s);
    var s1 := LowerOperand(s, e.rhs).0;
    var rv := Binary(Add, Copy(0), Const(IntConst(1)));
    assert LowerExpr(s, e) == (s1, rv);
    var (s2, out) := LowerOperand(s, e);
    ReturnOperand(s, e, s2, out);
    hide LowerExpr;
    assert s2 == Push(NewLocal(s1, "tmp", RvalueType(s1.body.locals, rv)), Assign(1, rv)) && out == Move(1);
    assert s2.Cur().instrs == [ZoneEnter("z"), Assign(0, Use(Const(IntConst(5)))), ZoneExit("z"), Assign(1, rv)];
  }

  lemma {:induction false} LateReadValue(I: HirInterp, x: Value)
    ensures HirEnds(I, false, LateRead(), [x], DidReturn(Some(I.mir.bin(Add, x, IntVal(1)))), [])
  {
    var f := LateRead();
    var C := Contracts(false, []);
    var b := HBlock([AssignStmt(0, IntE(5))], Some(IntE(1)));
    OneArg(x);
    var env, env' := map[0 := x], map[0 := IntVal(5)];
    assert EvalStmt(I, C, b.stmts[0], env, [], 0) == Result(Normal(IntVal(5)), env', []) by {
      assert env[0 := IntVal(5)] == env';
    }
    assert b.stmts[1..] == [];
    assert EvalStmts(I, C, [], env', [], 0) == Result(Normal(UNIT), env', []);
    assert EvalStmts(I, C, b.stmts, env, [], 0) == Result(Normal(UNIT), env', []);
    assert EvalBlock(I, C, b, env, [], 0) == Result(Normal(IntVal(1)), env', []);
    assert Eval(I, C, WritingZone(), env, [], 0) == Result(Normal(IntVal(1)), env', []);
    var e := Bin(OpAdd, VarE("x", 0), WritingZone(), NUM);
    assert Eval(I, C, e, env, [], 0) == Result(Normal(I.mir.bin(Add, x, IntVal(1))), env', []);
    assert EvalBlock(I, C, f.body.value, env, [], 0) == Eval(I, C, ReturnExpr(Some(e)), env, [], 0);
    assert HirEndsBy(I, false, f, [x], DidReturn(Some(I.mir.bin(Add, x, IntVal(1)))), [], 0);
  }

  // From the write to the end.
  lemma {:induction false} LateReadEnd(I: Interp, store: Store)
    ensures var sum := I.bin(Add, IntVal(5), IntVal(1));
      var at3 := Running(Frame(Some(0), 1, 2, store[0 := IntVal(5)], [], [Entered("z")]));
      Steps(I, LowerForge(false, LateRead()).blocks, at3, 3) ==
        Halted(Observation(DidReturn(Some(sum)), [], [Entered("z"), Left("z")]))
  {
    LateReadLowered();
    hide LowerForge;
    var blocks := LowerForge(false, LateRead()).blocks;
    var sum := I.bin(Add, IntVal(5), IntVal(1));
    var at3 := Running(Frame(Some(0), 1, 2, store[0 := IntVal(5)], [], [Entered("z")]));
    Unroll(I, blocks, at3);
    hide Steps;
    var at4 := Running(Frame(Some(0), 1, 3, store[0 := IntVal(5)], [], [Entered("z"), Left("z")]));
    assert Step(I, blocks, at3) == at4 by {
      assert [Entered("z")] + [Left("z")] == [Entered("z"), Left("z")];
    }
    var at5 := Running(Frame(Some(0), 1, 4, store[0 := IntVal(5)][1 := sum], [], [Entered("z"), Left("z")]));
    assert Step(I, blocks, at4) == at5;
  }

  lemma {:induction false} LateReadRun(I: Interp, x: Value)
    ensures MirEnds(I, LowerForge(false, LateRead()), ArgStore([x]), DidReturn(Some(I.bin(Add, IntVal(5), IntVal(1)))),
                [])
  {
    LateReadLowered();
    hide LowerForge;
    var body := LowerForge(false, LateRead());
    var blocks := body.blocks;
    var store := ArgStore([x]);
    var c := Start(0, store);
    Unroll(I, blocks, c);
    StepsAdd(I, blocks, c, 3, 3);
    hide Steps;
    var at2 := Running(Frame(Some(0), 1, 1, store, [], [Entered("z")]));
    assert Step(I, blocks, Step(I, blocks, c)) == at2 by {
      assert Step(I, blocks, c) == Running(Frame(Some(0), 1, 0, store, [], []));
      assert [] + [Entered("z")] == [Entered("z")];
    }
    assert Steps(I, blocks, c, 3) == Running(Frame(Some(0), 1, 2, store[0 := IntVal(5)], [], [Entered("z")]));
    LateReadEnd(I, store);
    assert MirEndsBy(I, body, store, DidReturn(Some(I.bin(Add, IntVal(5), IntVal(1)))), [], 6);
  }

  /**
   The variable is read after the write: right on an argument if and only if adding 1 to it gives what adding 1 to 5
   does.
   */
  lemma {:induction false} LateReadSeesWrite(I: HirInterp, x: Value)
    ensures HirEnds(I, false, LateRead(), [x], DidReturn(Some(I.mir.bin(Add, x, IntVal(1)))), [])
    ensures MirEnds(I.mir, LowerForge(false, LateRead()), ArgStore([x]), DidReturn(Some(I.mir.bin(Add, x, IntVal(1)))),
                [])
            <==> I.mir.bin(Add, x, IntVal(1)) == I.mir.bin(Add, IntVal(5), IntVal(1))
  {
    LateReadValue(I, x);
    LateReadRun(I.mir, x);
    hide LowerForge, HirEnds;
    var body := LowerForge(false, LateRead());
    var store := ArgStore([x]);
    var sum := I.mir.bin(Add, IntVal(5), IntVal(1));
    var want := I.mir.bin(Add, x, IntVal(1));
    if MirEnds(I.mir, body, store, DidReturn(Some(want)), []) {
      OneEnd(I.mir, body, store, DidReturn(Some(sum)), [], DidReturn(Some(want)), []);
    }
  }

  // ---- Self tail calls ----

  // f(x) { given x { return 7 }  return f(true) }
  function TailCall(): Expr {
    ReturnExpr(Some(CallExpr(Ident("f", 100, Error), [Lit(BoolLit(true))], [], NUM)))
  }

  function TestX(): Expr {
    GivenX(Only(ReturnExpr(Some(IntE(7)))))
  }

  function Recursive(): Forge {
    Forge("f", OneParam(), Some(HBlock([ExprStmt(TestX())], Some(TailCall()))), [])
  }

  // given x branch
  function GivenX(branch: HBlock): Expr {
    Given(VarE("x", 0), branch, None, NUM)
  }

  // { t }
  function Only(t: Expr): HBlock {
    HBlock([], Some(t))
  }

  function JoinedTo(last: BasicBlock, target: BlockId): BasicBlock {
    if last.term.Some? then last else last.(term := Some(Goto(target)))
  }

  lemma {:induction false} GivenXLowered(s0: State, b: HBlock, s2: State, last: BasicBlock)
    requires 0 in s0.vars && s0.vars[0] == 0
    requires var n := s0.Size();
      s2 == LowerBlock(OpenGiven(s0, Copy(0)), b).0 && s2.cur == n && s2.Size() == n + 3
      && s2.body.blocks == OpenGiven(s0, Copy(0)).body.blocks[n := last]
    ensures LowerStmts(s0, [ExprStmt(GivenX(b))]) == LowerExpr(s0, GivenX(b)).0
    ensures var s := LowerStmts(s0, [ExprStmt(GivenX(b))]);
      var n := s0.Size();
      && s.cur == n + 2 && s.checkContracts == s2.checkContracts && s.header == s2.header && s.paramDefs == s2.paramDefs
      && s.forgeName == s2.forgeName && s.body.entry == s2.body.entry && s.body.locals == s2.body.locals
      && s.vars == s2.vars
      && s.body.blocks == s0.body.blocks[s0.cur := s0.Cur().(term := Some(SwitchInt(Copy(0), [(1, n)], n + 1)))]
                          + [JoinedTo(last, n + 2), BasicBlock([], Some(Goto(n + 2))), EMPTY_BLOCK]
  {
    hide OpenGiven, LowerExpr, LowerBlock, LowerStmt, JoinTo, MoveTo;
    var g := GivenX(b);
    var n := s0.Size();
    var front := s0.body.blocks[s0.cur := s0.Cur().(term := Some(SwitchInt(Copy(0), [(1, n)], n + 1)))];
    OpenedX(s0);
    assert s2.body.blocks == front + [last, EMPTY_BLOCK, EMPTY_BLOCK];
    GivenXExpr(s0, b);
    JoinsTwice(s2, front, last);
    StmtOf(s0, g);
    assert [ExprStmt(g)][1..] == [];
    NoStmts(LowerExpr(s0, g).0);
  }

  lemma {:induction false} OpenedX(s: State)
    ensures var n := s.Size();
      OpenGiven(s, Copy(0)).body.blocks ==
        s.body.blocks[s.cur := s.Cur().(term := Some(SwitchInt(Copy(0), [(1, n)], n + 1)))]
        + [EMPTY_BLOCK, EMPTY_BLOCK, EMPTY_BLOCK]
  {
  }

  lemma {:induction false} StmtOf(s: State, e: Expr)
    ensures LowerStmt(s, ExprStmt(e)) == LowerExpr(s, e).0
  {
    hide LowerExpr;
  }

  lemma {:induction false} NoTail(s: State, b: HBlock)
    requires b.tail.None?
    ensures LowerBlock(s, b) == (LowerStmts(s, b.stmts), FALSE_RV)
  {
  }

  lemma {:induction false} GivenXExpr(s0: State, b: HBlock)
    requires 0 in s0.vars && s0.vars[0] == 0
    ensures var s2 := LowerBlock(OpenGiven(s0, Copy(0)), b).0;
      var n := s0.Size();
      LowerExpr(s0, GivenX(b)) == (MoveTo(JoinTo(MoveTo(JoinTo(s2, n + 2), n + 1), n + 2), n + 2), ZERO_RV)
  {
    hide OpenGiven, JoinTo, MoveTo, LowerBlock;
    assert LowerOperand(s0, VarE("x", 0)) == (s0, Copy(0));
  }

  lemma {:induction false} JoinsTwice(s2: State, front: seq<BasicBlock>, last: BasicBlock)
    requires s2.cur == |front| && s2.body.blocks == front + [last, EMPTY_BLOCK, EMPTY_BLOCK]
    ensures var n := |front|;
      var s4 := MoveTo(JoinTo(MoveTo(JoinTo(s2, n + 2), n + 1), n + 2), n + 2);
      && s4.cur == n + 2 && s4.checkContracts == s2.checkContracts && s4.header == s2.header
      && s4.paramDefs == s2.paramDefs && s4.forgeName == s2.forgeName && s4.body.entry == s2.body.entry
      && s4.body.locals == s2.body.locals && s4.vars == s2.vars
      && s4.body.blocks == front + [JoinedTo(last, n + 2), BasicBlock([], Some(Goto(n + 2))), EMPTY_BLOCK]
  {
    var n := |front|;
    var s3 := MoveTo(JoinTo(s2, n + 2), n + 1);
    assert s3.body.blocks == front + [JoinedTo(last, n + 2), EMPTY_BLOCK, EMPTY_BLOCK];
  }

  lemma {:induction false} NoStmts(s: State)
    ensures LowerStmts(s, []) == s
  {
  }

  lemma {:induction false} TestXLowered(s0: State)
    requires |s0.body.blocks| == 2 && s0.body.blocks[0] == ENTRY && s0.cur == 1 && !s0.checkContracts
    requires 0 in s0.vars && s0.vars[0] == 0
    ensures var s := LowerStmts(s0, [ExprStmt(TestX())]);
      && s.cur == 4 && !s.checkContracts && s.header == s0.header && s.paramDefs == s0.paramDefs
      && s.forgeName == s0.forgeName && s.body.entry == s0.body.entry && s.body.locals == s0.body.locals
      && s.body.blocks == [ENTRY, s0.Cur().(term := Some(SwitchInt(Copy(0), [(1, 2)], 3))),
                           BasicBlock([], Some(Return(Some(Const(IntConst(7)))))), BasicBlock([], Some(Goto(4))),
                               EMPTY_BLOCK]
  {
    var s1 := OpenGiven(s0, Copy(0));
    assert LowerOperand(s1, IntE(7)) == (s1, Const(IntConst(7)));
    ReturnOperand(s1, IntE(7), s1, Const(IntConst(7)));
    var s2 := Terminate(s1, 2, Return(Some(Const(IntConst(7)))));
    TailOnly(s1, ReturnExpr(Some(IntE(7))));
    GivenXLowered(s0, Only(ReturnExpr(Some(IntE(7)))), s2, BasicBlock([], Some(Return(Some(Const(IntConst(7)))))));
  }

  lemma {:induction false} TailCallLowered(s: State)
    requires s.Cur() == EMPTY_BLOCK && s.header == 1 && s.paramDefs == [0]
    requires s.forgeName == "f" && |s.body.locals| == 1
    ensures LowerExpr(s, TailCall()) == LowerReturn(s, TailCall())
    ensures LowerExpr(s, TailCall()).0.cur == s.cur
    ensures var s' := LowerExpr(s, TailCall()).0;
      && s'.body.entry == s.body.entry && s'.vars == s.vars[0 := 1] && s'.checkContracts == s.checkContracts
    ensures LowerExpr(s, TailCall()).0.body.blocks ==
            s.body.blocks[s.cur := BasicBlock([Assign(1, Use(Const(BoolConst(true))))], Some(Goto(1)))]
  {
    var t := Lit(BoolLit(true));
    var op := Const(BoolConst(true));
    assert LowerOperand(s, t) == (s, op);
    assert [t][1..] == [];
    assert LowerOperands(s, []) == (s, []);
    assert [op] + [] == [op];
    assert LowerOperands(s, [t]) == (s, [op]);
    var s1 := WriteVariable(Push(NewLocal(s, "tco_p" + Digits(0), Error), Assign(1, Use(op))), 0, 1);
    assert Rebind(s1, [0], [op], 1) == s1;
    assert Rebind(s, [0], [op], 0) == s1;
    var s2 := AddEdge(s1, s.cur, 1, Unconditional);
    assert LowerReturn(s, TailCall()).0 == Terminate(s2, s.cur, Goto(1));
    assert LowerExpr(s, TailCall()) == LowerReturn(s, TailCall());
    hide LowerExpr, LowerReturn;
    assert s1.Cur().instrs == [Assign(1, Use(op))];
  }

  lemma {:induction false} RecursiveLowered()
    ensures LowerForge(false, Recursive()).entry == 0
    ensures LowerForge(false, Recursive()).blocks ==
            [ENTRY, BasicBlock([], Some(SwitchInt(Copy(0), [(1, 2)], 3))),
             BasicBlock([], Some(Return(Some(Const(IntConst(7)))))), BasicBlock([], Some(Goto(4))),
             BasicBlock([Assign(1, Use(Const(BoolConst(true))))], Some(Goto(1)))]
  {
    var f := Recursive();
    var s0 := StartForge(false, f);
    OneParamStart(false, f);
    TestXLowered(s0);
    var s1 := LowerStmts(s0, [ExprStmt(TestX())]);
    TailCallLowered(s1);
    hide StartForge, LowerStmts, LowerExpr;
    assert LowerBody(s0, f.body) == LowerExpr(s1, TailCall()).0;
  }

  lemma {:induction false} RecursiveValue(I: HirInterp)
    ensures HirEnds(I, false, Recursive(), [BoolVal(false)],
                    DidReturn(Some(I.mir.answer([Switched(0)], "f", [BoolVal(true)]))),
                        [Switched(0), Called("f", [BoolVal(true)])])
  {
    var f := Recursive();
    var C := Contracts(false, []);
    OneArg(BoolVal(false));
    var env := map[0 := BoolVal(false)];
    assert [] + [Switched(0)] == [Switched(0)];
    assert Eval(I, C, TestX(), env, [], 0) == Result(Normal(UNIT), env, [Switched(0)]);
    assert [ExprStmt(TestX())][1..] == [];
    assert EvalStmts(I, C, [], env, [Switched(0)], 0) == Result(Normal(UNIT), env, [Switched(0)]);
    assert EvalStmts(I, C, [ExprStmt(TestX())], env, [], 0) == Result(Normal(UNIT), env, [Switched(0)]);
    var tr := [Switched(0)];
    var t := Lit(BoolLit(true));
    assert [t][1..] == [] && EvalList(I, C, [], env, tr, 0) == Values([], env, tr);
    assert [BoolVal(true)] + [] == [BoolVal(true)];
    assert EvalList(I, C, [t], env, tr, 0) == Values([BoolVal(true)], env, tr);
    var v := I.mir.answer(tr, "f", [BoolVal(true)]);
    var tr' := [Switched(0), Called("f", [BoolVal(true)])];
    assert tr + [Called("f", [BoolVal(true)])] == tr';
    assert Eval(I, C, TailCall(), env, tr, 0) == Result(Gave(Some(v)), env, tr');
    assert HirEndsBy(I, false, f, [BoolVal(false)], DidReturn(Some(v)), tr', 0);
  }

  /** Where the loop below goes round: parameter slot 0 is never written again. */
  ghost predicate Spinning(c: Config) {
    && c.Running? && Read(c.frame.store, 0) == BoolVal(false)
    && ((c.frame.blk == 0 && c.frame.pc == 0) || (c.frame.blk == 1 && c.frame.pc == 0)
       || (c.frame.blk == 3 && c.frame.pc == 0)
        || (c.frame.blk == 4 && c.frame.pc <= 1))
  }

  lemma {:induction false} SpinStep(I: Interp, c: Config)
    requires Spinning(c)
    ensures Spinning(Step(I, LowerForge(false, Recursive()).blocks, c))
  {
    RecursiveLowered();
    hide LowerForge;
    assert SwitchTarget(0, [(1, 2)], 3) == SwitchTarget(0, [], 3) == 3 by {
      assert [(1, 2)][1..] == [];
    }
  }

  lemma {:induction false} Spin(I: Interp, c: Config, n: nat)
    requires Spinning(c)
    ensures Spinning(Steps(I, LowerForge(false, Recursive()).blocks, c, n))
    decreases n
  {
    hide LowerForge;
    if n > 0 {
      SpinStep(I, c);
      Spin(I, Step(I, LowerForge(false, Recursive()).blocks, c), n - 1);
    }
  }

  /**
   A self tail call rebinds its parameters to fresh slots that the code it jumps back to does not read:
   f(false), which is f(true), which is 7, never returns.
   */
  lemma {:induction false} SelfTailCallSpins(I: HirInterp, n: nat)
    ensures HirEnds(I, false, Recursive(), [BoolVal(false)],
                    DidReturn(Some(I.mir.answer([Switched(0)], "f", [BoolVal(true)]))),
                        [Switched(0), Called("f", [BoolVal(true)])])
    ensures HirEnds(I, false, Recursive(), [BoolVal(true)], DidReturn(Some(IntVal(7))), [Switched(1)])
    ensures Steps(I.mir, LowerForge(false, Recursive()).blocks, Start(0, ArgStore([BoolVal(false)])), n).Running?
  {
    RecursiveValue(I);
    RecursiveBase(I);
    hide LowerForge;
    Spin(I.mir, Start(0, ArgStore([BoolVal(false)])), n);
  }

  lemma {:induction false} RecursiveBase(I: HirInterp)
    ensures HirEnds(I, false, Recursive(), [BoolVal(true)], DidReturn(Some(IntVal(7))), [Switched(1)])
  {
    var C := Contracts(false, []);
    OneArg(BoolVal(true));
    var env := map[0 := BoolVal(true)];
    assert [] + [Switched(1)] == [Switched(1)];
    var b := HBlock([], Some(ReturnExpr(Some(IntE(7)))));
    assert EvalBlock(I, C, b, env, [Switched(1)], 0) == Result(Gave(Some(IntVal(7))), env, [Switched(1)]);
    assert Eval(I, C, TestX(), env, [], 0) == Result(Gave(Some(IntVal(7))), env, [Switched(1)]);
    assert EvalStmts(I, C, [ExprStmt(TestX())], env, [], 0) == Result(Gave(Some(IntVal(7))), env, [Switched(1)]);
    assert HirEndsBy(I, false, Recursive(), [BoolVal(true)], DidReturn(Some(IntVal(7))), [Switched(1)], 0);
  }

  // ---- A parameter read behind a self tail call ----

  // f(x) { given x { return f(true) }  return x }
  function HiddenParameter(): Forge {
    Forge("f", OneParam(), Some(HBlock([ExprStmt(GivenX(Only(TailCall())))], Some(ReturnX()))), [])
  }

  function ReturnX(): Expr {
    ReturnExpr(Some(VarE("x", 0)))
  }

  const HIDDEN_BLOCKS: seq<BasicBlock> :=
    [ENTRY, BasicBlock([], Some(SwitchInt(Copy(0), [(1, 2)], 3))), GO_BACK, BasicBlock([], Some(Goto(4))),
     BasicBlock([], Some(Return(Some(Copy(1)))))]

  // Once the given is lowered, x stands for the slot its tail call made.
  lemma {:induction false} HiddenGiven(f: Forge)
    requires f.params == OneParam() && f.ensures_ == [] && f.name == "f"
    ensures var s := LowerStmts(StartForge(false, f), [ExprStmt(GivenX(Only(TailCall())))]);
      && s.cur == 4 && !s.checkContracts && s.body.entry == 0 && 0 in s.vars && s.vars[0] == 1
      && s.body.blocks == HIDDEN_BLOCKS[..4] + [EMPTY_BLOCK]
  {
    var s0 := StartForge(false, f);
    OneParamStart(false, f);
    hide StartForge, LowerStmts, LowerReturn, LowerExpr, LowerBlock;
    var o1 := OpenGiven(s0, Copy(0));
    TailCallLowered(o1);
    TailOnly(o1, TailCall());
    hide OpenGiven;
    OpenedX(s0);
    GivenXLowered(s0, Only(TailCall()), LowerExpr(o1, TailCall()).0, GO_BACK);
  }

  lemma {:induction false} HiddenLowered()
    ensures LowerForge(false, HiddenParameter()).entry == 0
    ensures LowerForge(false, HiddenParameter()).blocks == HIDDEN_BLOCKS
  {
    hide StartForge, LowerStmts, LowerReturn, LowerExpr;
    var f := HiddenParameter();
    var s0 := StartForge(false, f);
    HiddenGiven(f);
    var s1 := LowerStmts(s0, [ExprStmt(GivenX(Only(TailCall())))]);
    ReadX(s1);
    ReturnOperand(s1, VarE("x", 0), s1, Copy(1));
    assert LowerBody(s0, f.body) == LowerExpr(s1, ReturnX()).0;
  }

  lemma {:induction false} ReadX(s: State)
    requires 0 in s.vars
    ensures LowerOperand(s, VarE("x", 0)) == (s, Copy(s.vars[0]))
  {
  }

  lemma {:induction false} HiddenValue(I: HirInterp, x: Value)
    requires Key(x) != 1
    ensures HirEnds(I, false, HiddenParameter(), [x], DidReturn(Some(x)), [Switched(Key(x))])
  {
    var f := HiddenParameter();
    var C := Contracts(false, []);
    OneArg(x);
    var env := map[0 := x];
    var tr := [Switched(Key(x))];
    var g := GivenX(Only(TailCall()));
    assert [] + tr == tr && [ExprStmt(g)][1..] == [];
    assert Eval(I, C, g, env, [], 0) == Result(Normal(UNIT), env, tr);
    assert EvalStmts(I, C, [], env, tr, 0) == Result(Normal(UNIT), env, tr);
    assert EvalStmts(I, C, [ExprStmt(g)], env, [], 0) == Result(Normal(UNIT), env, tr);
    assert Eval(I, C, ReturnX(), env, tr, 0) == Result(Gave(Some(x)), env, tr);
    assert HirEndsBy(I, false, f, [x], DidReturn(Some(x)), tr, 0);
  }

  lemma {:induction false} HiddenRun(I: Interp, x: Value)
    requires Key(x) != 1
    ensures var c := Steps(I, HIDDEN_BLOCKS, Start(0, ArgStore([x])), 4);
      c.Halted? && c.result.status == DidReturn(Some(Undef)) && c.result.trace == [Switched(Key(x))]
  {
    var store := ArgStore([x]);
    var tr := [Switched(Key(x))];
    var c := Start(0, store);
    StepsAdd(I, HIDDEN_BLOCKS, c, 2, 2);
    Unroll(I, HIDDEN_BLOCKS, c);
    assert Read(store, 0) == x && Read(store, 1) == Undef && [] + tr == tr;
    assert SwitchTarget(Key(x), [(1, 2)], 3) == 3 by { assert [(1, 2)][1..] == []; }
    var c2 := Running(Frame(Some(1), 3, 0, store, tr, []));
    assert Steps(I, HIDDEN_BLOCKS, c, 2) == c2;
    Unroll(I, HIDDEN_BLOCKS, c2);
  }

  /**
   Code lowered behind a self tail call reads the slots that the call would have set: with the call not taken,
   they were never set, and whatever the argument, nothing defined is returned for it.
   */
  lemma {:induction false} TailCallHidesParameter(I: HirInterp, x: Value)
    requires Key(x) != 1
    ensures HirEnds(I, false, HiddenParameter(), [x], DidReturn(Some(x)), [Switched(Key(x))])
    ensures var body := LowerForge(false, HiddenParameter());
      && MirEnds(I.mir, body, ArgStore([x]), DidReturn(Some(Undef)), [Switched(Key(x))])
      && (MirEnds(I.mir, body, ArgStore([x]), DidReturn(Some(x)), [Switched(Key(x))]) <==> x == Undef)
  {
    HiddenValue(I, x);
    HiddenRun(I.mir, x);
    HiddenLowered();
    hide LowerForge, HirEnds, Steps;
    var body := LowerForge(false, HiddenParameter());
    var tr := [Switched(Key(x))];
    assert MirEndsBy(I.mir, body, ArgStore([x]), DidReturn(Some(Undef)), tr, 4);
    if MirEnds(I.mir, body, ArgStore([x]), DidReturn(Some(x)), tr) {
      OneEnd(I.mir, body, ArgStore([x]), DidReturn(Some(Undef)), tr, DidReturn(Some(x)), tr);
    }
  }

  // ---- A checked clause that repeats a returned call ----

  // { return g() }  ensures result
  function ReturnCall(): Forge {
    Forge("f", [], Some(HBlock([], Some(ReturnExpr(Some(CallE("g", NUM)))))), [VarE("result", 50)])
  }

  const CALL_ONCE := Called("g", [])

  lemma {:induction false} ReturnCallLowered()
    ensures LowerForge(true, ReturnCall()).entry == 0
    ensures LowerForge(true, ReturnCall()).blocks ==
            [ENTRY, BasicBlock([Call(Some(0), "g", []), Call(Some(1), "g", []), Assert(Move(1), POSTCONDITION)],
                               Some(Return(Some(Move(0)))))]
  {
    hide StartForge, LowerForge, LowerExpr, LowerOperand, LowerReturn, LowerClauses;
    var f := ReturnCall();
    var g := CallE("g", NUM);
    var r := ReturnExpr(Some(g));
    var s := StartForge(true, f);
    StartBlocks(true, f);
    TailForge(true, f, r);
    CallLowered(s, 0);
    var s1 := LowerOperand(s, g).0;
    CallLowered(s1, 1);
    var s2 := LowerOperand(s1, g).0;
    var s3 := Push(s2, Assert(Move(1), POSTCONDITION));
    ClauseLowered(s1, s2);
    CheckedReturn(s, g, s1, Move(0), s3);
    assert s1.Cur().instrs == [Call(Some(0), "g", [])];
    assert s2.Cur().instrs == [Call(Some(0), "g", []), Call(Some(1), "g", [])];
    assert s3.Cur().instrs == [Call(Some(0), "g", []), Call(Some(1), "g", []), Assert(Move(1), POSTCONDITION)];
    assert s3.body.blocks == [ENTRY, s3.Cur()] && s3.cur == 1;
  }

  lemma {:induction false} ClauseLowered(s1: State, s2: State)
    requires LowerOperand(s1, CallE("g", NUM)) == (s2, Move(1))
    ensures LowerClauses(s1, [VarE("result", 50)], CallE("g", NUM)) == Push(s2, Assert(Move(1), POSTCONDITION))
  {
    hide LowerOperand;
    var clause := VarE("result", 50);
    assert SubstResult(clause, CallE("g", NUM)) == CallE("g", NUM);
    assert [clause][1..] == [];
    var s3 := Push(s2, Assert(Move(1), POSTCONDITION));
    assert LowerClauses(s3, [], CallE("g", NUM)) == s3;
  }

  lemma {:induction false} CheckedReturn(s: State, x: Expr, s1: State, op: Operand, s2: State)
    requires !IsSelfTailCall(s.forgeName, x) && LowerOperand(s, x) == (s1, op) && s1.checkContracts
    requires LowerClauses(s1, s1.ensures_, x) == s2
    ensures LowerExpr(s, ReturnExpr(Some(x))).0 == Terminate(s2, s2.cur, Return(Some(op)))
  {
    assert LowerExpr(s, ReturnExpr(Some(x))) == LowerReturn(s, ReturnExpr(Some(x)));
    hide LowerExpr, LowerOperand, LowerOperands, LowerClauses, Rebind, Terminate;
  }

  lemma {:induction false} CallLowered(s: State, n: nat)
    requires |s.body.locals| == n && |s.body.blocks| == 2 && s.cur == 1
    ensures var (s', op) := LowerOperand(s, CallE("g", NUM));
      && op == Move(n) && |s'.body.locals| == n + 1 && s'.cur == 1 && s'.checkContracts == s.checkContracts
      && s'.ensures_ == s.ensures_ && s'.body.entry == s.body.entry && s'.forgeName == s.forgeName
      && s'.body.blocks == s.body.blocks[1 := s.Cur().(instrs := s.Cur().instrs + [Call(Some(n), "g", [])])]
  {
    var g := CallE("g", NUM);
    assert LowerOperands(s, []) == (s, []);
    assert LowerAsserts(s, [], PRECONDITION) == s;
    assert LowerCall(s, g) == (Push(NewLocal(s, "call_tmp", NUM), Call(Some(n), "g", [])), Use(Move(n)));
    assert LowerExpr(s, g) == LowerCall(s, g);
  }

  lemma {:induction false} ReturnCallValue(I: HirInterp)
    requires Key(I.mir.answer([], "g", [])) != 0
    ensures HirEnds(I, true, ReturnCall(), [], DidReturn(Some(I.mir.answer([], "g", []))), [CALL_ONCE])
  {
    var f := ReturnCall();
    var C := Contracts(true, f.ensures_);
    var v := I.mir.answer([], "g", []);
    var g := CallE("g", NUM);
    assert EvalList(I, C, [], map[], [], 0) == Values([], map[], []);
    assert EvalAsserts(I, C, [], map[], [], 0) == Result(Normal(UNIT), map[], []);
    assert [] + [CALL_ONCE] == [CALL_ONCE];
    assert Eval(I, C, g, map[], [], 0) == Result(Normal(v), map[], [CALL_ONCE]);
    assert f.ensures_[1..] == [];
    assert ClausesHold(I, f.ensures_[1..], map[], v);
    assert ClausesHold(I, f.ensures_, map[], v);
    assert Eval(I, C, ReturnExpr(Some(g)), map[], [], 0) == Result(Gave(Some(v)), map[], [CALL_ONCE]);
    assert HirEndsBy(I, true, f, [], DidReturn(Some(v)), [CALL_ONCE], 0);
  }

  const REPEAT_BLOCKS: seq<BasicBlock> :=
    [ENTRY, BasicBlock([Call(Some(0), "g", []), Call(Some(1), "g", []), Assert(Move(1), POSTCONDITION)],
                       Some(Return(Some(Move(0)))))]

  function RepeatFrame(store: Store, pc: nat, tr: seq<Event>, marks: seq<Mark>): Config {
    Running(Frame(Some(0), 1, pc, store, tr, marks))
  }

  // The first three steps: enter, call, call again.
  lemma {:induction false} RepeatCalls(I: Interp, store: Store)
    ensures var v, w := I.answer([], "g", []), I.answer([CALL_ONCE], "g", []);
      && Step(I, REPEAT_BLOCKS, Start(0, store)) == RepeatFrame(store, 0, [], [])
      && Step(I, REPEAT_BLOCKS, RepeatFrame(store, 0, [], [])) == RepeatFrame(store[0 := v], 1, [CALL_ONCE], [])
      && Step(I, REPEAT_BLOCKS, RepeatFrame(store[0 := v], 1, [CALL_ONCE], [])) ==
         RepeatFrame(store[0 := v][1 := w], 2, [CALL_ONCE, CALL_ONCE], [])
  {
    assert OperandValues(store, []) == [] && OperandValues(store[0 := I.answer([], "g", [])], []) == [];
    assert [] + [CALL_ONCE] == [CALL_ONCE] && [CALL_ONCE] + [CALL_ONCE] == [CALL_ONCE, CALL_ONCE];
  }

  // The last two: the assertion holds, and the first answer is returned.
  lemma {:induction false} RepeatEnds(I: Interp, store: Store, v: Value, w: Value)
    requires Key(w) != 0
    ensures var f := RepeatFrame(store[0 := v][1 := w], 2, [CALL_ONCE, CALL_ONCE], []);
      var c := Step(I, REPEAT_BLOCKS, Step(I, REPEAT_BLOCKS, f));
      c.Halted? && c.result.status == DidReturn(Some(v)) && c.result.trace == [CALL_ONCE, CALL_ONCE]
  {
    var full := store[0 := v][1 := w];
    var checked := RepeatFrame(full, 3, [CALL_ONCE, CALL_ONCE], [] + [Checked(POSTCONDITION)]);
    assert Read(full, 0) == v && Read(full, 1) == w;
    assert Step(I, REPEAT_BLOCKS, RepeatFrame(full, 2, [CALL_ONCE, CALL_ONCE], [])) == checked;
  }

  /** The clause is lowered with the returned call in place of `result`: the call is made twice. */
  lemma {:induction false} EnsuresRepeatsCall(I: HirInterp)
    requires Key(I.mir.answer([], "g", [])) != 0 && Key(I.mir.answer([CALL_ONCE], "g", [])) != 0
    ensures HirEnds(I, true, ReturnCall(), [], DidReturn(Some(I.mir.answer([], "g", []))), [CALL_ONCE])
    ensures MirEnds(I.mir, LowerForge(true, ReturnCall()), ArgStore([]), DidReturn(Some(I.mir.answer([], "g", []))),
                    [CALL_ONCE, CALL_ONCE])
  {
    hide LowerForge, HirEnds, Step, Steps;
    ReturnCallValue(I);
    ReturnCallLowered();
    var body := LowerForge(true, ReturnCall());
    var store := ArgStore([]);
    RepeatCalls(I.mir, store);
    RepeatEnds(I.mir, store, I.mir.answer([], "g", []), I.mir.answer([CALL_ONCE], "g", []));
    var c := Start(0, store);
    FourSteps(I.mir, body.blocks, c);
    StepsAdd(I.mir, body.blocks, c, 4, 1);
    Unroll(I.mir, body.blocks, Steps(I.mir, body.blocks, c, 4));
    assert MirEndsBy(I.mir, body, store, DidReturn(Some(I.mir.answer([], "g", []))), [CALL_ONCE, CALL_ONCE], 5);
  }

  // ---- A zone left by an early return ----

  // { zone z { given x { return 7 } } }
  function ReturnInZone(): Forge {
    Forge("f", OneParam(), Some(HBlock([], Some(ZoneOf1(TestX())))), [])
  }

  // zone z { g }
  function ZoneOf1(g: Expr): Expr {
    Zone("z", HBlock([ExprStmt(g)], None), NUM)
  }

  // f(x) { zone z { g } }, where `g` leaves an empty block current.
  lemma {:induction false} ZoneForge(f: Forge, g: Expr, s: State)
    requires f.params == OneParam() && ReturnNestAll(f.ensures_) == 0 && f.body == Some(HBlock([], Some(ZoneOf1(g))))
    requires s == LowerStmts(Push(StartForge(false, f), ZoneEnter("z")), [ExprStmt(g)]) && s.Cur() == EMPTY_BLOCK
    ensures LowerForge(false, f).entry == s.body.entry
    ensures LowerForge(false, f).blocks == s.body.blocks[s.cur := BasicBlock([ZoneExit("z")], Some(Return(None)))]
  {
    var s0 := StartForge(false, f);
    TailForge(false, f, ZoneOf1(g));
    hide StartForge, LowerForge, LowerStmts;
    assert LowerBlock(Push(s0, ZoneEnter("z")), ZoneOf1(g).body) == (s, FALSE_RV);
    assert LowerExpr(s0, ZoneOf1(g)).0 == Push(s, ZoneExit("z"));
    hide LowerExpr, LowerBlock;
    assert Push(s, ZoneExit("z")).Cur().instrs == [ZoneExit("z")];
  }

  lemma {:induction false} ReturnInZoneLowered()
    ensures LowerForge(false, ReturnInZone()).entry == 0
    ensures LowerForge(false, ReturnInZone()).blocks ==
            [ENTRY, BasicBlock([ZoneEnter("z")], Some(SwitchInt(Copy(0), [(1, 2)], 3))),
             BasicBlock([], Some(Return(Some(Const(IntConst(7)))))), BasicBlock([], Some(Goto(4))),
             BasicBlock([ZoneExit("z")], Some(Return(None)))]
  {
    var f := ReturnInZone();
    var s0 := StartForge(false, f);
    OneParamStart(false, f);
    hide StartForge, LowerForge, LowerStmts;
    var s1 := Push(s0, ZoneEnter("z"));
    assert s1.Cur().instrs == [ZoneEnter("z")];
    TestXLowered(s1);
    ZoneForge(f, TestX(), LowerStmts(s1, [ExprStmt(TestX())]));
  }

  const ZONE_BLOCKS: seq<BasicBlock> :=
    [ENTRY, BasicBlock([ZoneEnter("z")], Some(SwitchInt(Copy(0), [(1, 2)], 3))),
     BasicBlock([], Some(Return(Some(Const(IntConst(7)))))), BasicBlock([], Some(Goto(4))),
     BasicBlock([ZoneExit("z")], Some(Return(None)))]

  // The four steps of the run, one at a time.
  lemma {:induction false} ReturnInZoneSteps(I: Interp, store: Store)
    requires Read(store, 0) == BoolVal(true)
    ensures Step(I, ZONE_BLOCKS, Start(0, store)) == Running(Frame(Some(0), 1, 0, store, [], []))
    ensures Step(I, ZONE_BLOCKS, Running(Frame(Some(0), 1, 0, store, [], []))) ==
            Running(Frame(Some(0), 1, 1, store, [], [Entered("z")]))
    ensures Step(I, ZONE_BLOCKS, Running(Frame(Some(0), 1, 1, store, [], [Entered("z")]))) ==
            Running(Frame(Some(1), 2, 0, store, [Switched(1)], [Entered("z")]))
    ensures Step(I, ZONE_BLOCKS, Running(Frame(Some(1), 2, 0, store, [Switched(1)], [Entered("z")]))) ==
            Halt(Frame(Some(1), 2, 0, store, [Switched(1)], [Entered("z")]), DidReturn(Some(IntVal(7))))
  {
    hide Read;
    assert ZONE_BLOCKS[0] == ENTRY && ZONE_BLOCKS[2] == BasicBlock([], Some(Return(Some(Const(IntConst(7))))));
    assert [] + [Entered("z")] == [Entered("z")] && [] + [Switched(1)] == [Switched(1)];
  }

  lemma {:induction false} FourSteps(I: Interp, blocks: seq<BasicBlock>, c: Config)
    ensures Steps(I, blocks, c, 4) == Step(I, blocks, Step(I, blocks, Step(I, blocks, Step(I, blocks, c))))
  {
    hide Step;
    Unroll(I, blocks, c);
    StepsAdd(I, blocks, c, 3, 1);
    Unroll(I, blocks, Steps(I, blocks, c, 3));
  }

  /** The markers are bracketed, but a return from inside a given leaves the zone around it open. */
  lemma {:induction false} EarlyReturnLeavesZoneOpen(I: Interp)
    ensures var body := LowerForge(false, ReturnInZone());
      var c := Steps(I, body.blocks, Start(0, ArgStore([BoolVal(true)])), 4);
      && c.Halted? && c.result.status == DidReturn(Some(IntVal(7)))
      && ZonesOf(c.result.marks) == Some(["z"])
  {
    hide LowerForge, Step, Steps;
    ReturnInZoneLowered();
    var store := ArgStore([BoolVal(true)]);
    assert Read(store, 0) == BoolVal(true);
    ReturnInZoneSteps(I, store);
    FourSteps(I, ZONE_BLOCKS, Start(0, store));
    assert [Entered("z")][..0] == [] && [] + ["z"] == ["z"];
    assert ZonesOf([]) == Some([]);
    assert ZonesOf([Entered("z")]) == Some(["z"]);
  }

  // ---- A self tail call under a given inside a zone ----

  // f(x) { zone z { given x { return f(true) } } }
  function TailCallInZone(): Forge {
    Forge("f", OneParam(), Some(HBlock([], Some(ZoneOf1(GivenX(Only(TailCall())))))), [])
  }

  const GO_BACK := BasicBlock([Assign(1, Use(Const(BoolConst(true))))], Some(Goto(1)))

  const TRAPPED_BLOCKS: seq<BasicBlock> :=
    [ENTRY, BasicBlock([ZoneEnter("z")], Some(SwitchInt(Copy(0), [(1, 2)], 3))), GO_BACK,
     BasicBlock([], Some(Goto(4))), BasicBlock([ZoneExit("z")], Some(Return(None)))]

  // The state in which the given's branch is lowered.
  function InGiven(f: Forge): State
    requires ReturnNestAll(f.ensures_) == 0
  {
    OpenGiven(Push(StartForge(false, f), ZoneEnter("z")), Copy(0))
  }

  lemma {:induction false} InGivenIs(f: Forge)
    requires f.params == OneParam() && f.ensures_ == [] && f.name == "f"
    ensures var s := InGiven(f);
      && s.cur == 2 && s.Cur() == EMPTY_BLOCK && s.header == 1 && s.paramDefs == [0] && s.forgeName == "f"
      && |s.body.locals| == 1 && s.body.entry == 0
    ensures var s1 := Push(StartForge(false, f), ZoneEnter("z"));
      && s1.body.blocks == [ENTRY, BasicBlock([ZoneEnter("z")], None)] && s1.cur == 1
      && 0 in s1.vars && s1.vars[0] == 0 && LowerOperand(s1, VarE("x", 0)) == (s1, Copy(0))
  {
    OneParamStart(false, f);
    hide StartForge;
    assert [] + [ZoneEnter("z")] == [ZoneEnter("z")];
    assert LowerOperand(Push(StartForge(false, f), ZoneEnter("z")), VarE("x", 0)) ==
           (Push(StartForge(false, f), ZoneEnter("z")), Copy(0));
  }

  lemma {:induction false} TailCallInZoneLowered()
    ensures LowerForge(false, TailCallInZone()).blocks == TRAPPED_BLOCKS
    ensures OutsForge(false, TailCallInZone()) == Outs({2}, {})
  {
    hide StartForge, LowerForge, LowerStmts, LowerReturn, LowerExpr, LowerOperand, OpenGiven;
    var f := TailCallInZone();
    var t := TailCall();
    var s1 := Push(StartForge(false, f), ZoneEnter("z"));
    var o1 := OpenGiven(s1, Copy(0));
    InGivenIs(f);
    TailCallLowered(o1);
    TailOnly(o1, t);
    GivenXLowered(s1, Only(t), LowerExpr(o1, t).0, GO_BACK);
    ZoneForge(f, GivenX(Only(t)), LowerStmts(s1, [ExprStmt(GivenX(Only(t)))]));
    TailCallOuts(StartForge(false, f), s1, o1);
  }

  // The trapped tail call ends in block 2.
  lemma {:induction false} TailCallOuts(s0: State, s1: State, o1: State)
    requires s1 == Push(s0, ZoneEnter("z")) && LowerOperand(s1, VarE("x", 0)) == (s1, Copy(0))
    requires o1 == OpenGiven(s1, Copy(0)) && o1.forgeName == "f"
    requires LowerReturn(o1, TailCall()).0.cur == 2
    ensures OutsBlock(s0, TailCallInZone().body.value, OUTSIDE, NO_OUTS) == Outs({2}, {})
  {
    hide LowerReturn, LowerOperand, OpenGiven, Push, LowerStmts, LowerStmt, LowerExpr;
    var t := TailCall();
    var g := GivenX(Only(t));
    var p := Place(true, true);
    var x := t.result.value;
    assert [Lit(BoolLit(true))][1..] == [];
    assert OutsOperands(o1, x.args, p, NO_OUTS) == NO_OUTS by {
      var lit := Lit(BoolLit(true));
      assert OutsExpr(o1, lit, p, NO_OUTS) == NO_OUTS;
      assert OutsOperands(LowerOperand(o1, lit).0, [], p, NO_OUTS) == NO_OUTS;
    }
    assert OutsReturn(o1, t, p, NO_OUTS) == Outs({2}, {});
    assert OutsExpr(o1, t, p, NO_OUTS) == Outs({2}, {});
    assert OutsStmts(o1, [], p, NO_OUTS) == NO_OUTS && LowerStmts(o1, []) == o1 by { NoStmts(o1); }
    assert OutsBlock(o1, g.thenBlock, p, NO_OUTS) == Outs({2}, {});
    assert OutsExpr(s1, g.cond, Place(true, false), NO_OUTS) == NO_OUTS;
    assert OutsExpr(s1, g, Place(true, false), NO_OUTS) == Outs({2}, {});
    assert OutsStmt(s1, ExprStmt(g), Place(true, false), NO_OUTS) == Outs({2}, {});
    assert [ExprStmt(g)][1..] == [];
    assert OutsStmts(LowerStmt(s1, ExprStmt(g)), [], Place(true, false), Outs({2}, {})) == Outs({2}, {});
    assert OutsStmts(s1, [ExprStmt(g)], Place(true, false), NO_OUTS) == Outs({2}, {});
    var z := TailCallInZone().body.value.tail.value;
    assert OutsExpr(s0, z, OUTSIDE, NO_OUTS) == OutsBlock(s1, z.body, Place(true, false), NO_OUTS);
    assert OutsStmts(s0, [], OUTSIDE, NO_OUTS) == NO_OUTS && LowerStmts(s0, []) == s0 by { NoStmts(s0); }
  }

  lemma {:induction false} TrappedPaths()
    ensures IsPath(TRAPPED_BLOCKS, [0, 1]) && IsPath(TRAPPED_BLOCKS, [0, 1, 2, 1])
  {
    assert Targets(TRAPPED_BLOCKS[0].term) == {1} && Targets(TRAPPED_BLOCKS[2].term) == {1};
    assert 2 in Targets(TRAPPED_BLOCKS[1].term) by { assert (1, 2) in [(1, 2)]; }
  }

  lemma {:induction false} TrappedZones()
    ensures ZonesAlong(TRAPPED_BLOCKS, [0, 1]) == Some([])
    ensures ZonesAlong(TRAPPED_BLOCKS, [0, 1, 2, 1]) == Some(["z"])
  {
    var p: seq<BlockId> := [0, 1, 2, 1];
    assert p[..3] == [0, 1, 2] && [0, 1, 2][..2] == [0, 1] && [0, 1][..1] == [0];
    assert ZonesAlong(TRAPPED_BLOCKS, [0]) == Some([]);
    assert [ZoneEnter("z")][..0] == [] && [] + ["z"] == ["z"];
    assert ZonesAfter([ZoneEnter("z")], []) == Some(["z"]);
    assert ZonesAlong(TRAPPED_BLOCKS, [0, 1, 2]) == Some(["z"]);
    assert GO_BACK.instrs[..0] == [] && ZonesAfter([], ["z"]) == Some(["z"]);
    assert ZonesAfter(GO_BACK.instrs, ["z"]) == Some(["z"]);
  }

  /** Straight from the entry no zone is open at the header; by way of the tail call, `z` still is. */
  lemma {:induction false} TailCallLeavesZoneOpen()
    ensures var blocks := LowerForge(false, TailCallInZone()).blocks;
      && IsPath(blocks, [0, 1]) && ZonesAlong(blocks, [0, 1]) == Some([])
      && IsPath(blocks, [0, 1, 2, 1]) && ZonesAlong(blocks, [0, 1, 2, 1]) == Some(["z"])
      && !AllPathsAgree(blocks)
  {
    hide LowerForge, ZonesAlong, IsPath;
    TailCallInZoneLowered();
    TrappedPaths();
    TrappedZones();
    assert Last([0, 1]) == Last([0, 1, 2, 1]) == 1;
  }

  // ---- A while condition that is not straight ----

  // zone z { given x { 0 }; x }
  function BentCond(): Expr {
    Zone("z", HBlock([ExprStmt(GivenX(Only(IntE(0))))], Some(VarE("x", 0))), NUM)
  }

  // f(x) { while zone z { given x { 0 }; x } {} }
  function BentLoop(): Forge {
    Forge("f", OneParam(), Some(HBlock([ExprStmt(While(BentCond(), HBlock([], None)))], None)), [])
  }

  /** Nothing stands behind a return, but the graph is not coherent and some block has no end. */
  lemma {:induction false} BentLoopIncoherent(check: bool)
    ensures ShapedForge(Bent(ForgeMode(check, BentLoop(), false)), BentLoop())
    ensures !Coherent(LowerForge(check, BentLoop())) && !AllEnd(LowerForge(check, BentLoop()))
  {
    hide LowerForge;
    var f := BentLoop();
    var m := ForgeMode(check, f, false);
    ForgeModeOf(check, f, false);
    var st := f.body.value.stmts[0];
    assert f.body.value.stmts[1..] == [] && BentCond().body.stmts[1..] == [];
    assert Shaped(Bent(m), GivenX(Only(IntE(0))));
    assert ShapedStmts(Bent(m), BentCond().body.stmts, false);
    assert ShapedOperand(Bent(m), BentCond());
    assert ShapedBlock(Bent(m), HBlock([], None));
    assert ShapedStmt(Bent(m), st) && !StmtExits(st);
    assert !StraightStmts(m.check, BentCond().body.stmts);
    assert !Shaped(m, st.expr);
    assert !ShapedStmt(m, st) && !ShapedStmts(m, f.body.value.stmts, true);
    CoherentIffStraight(m, f);
  }

  // { return 1 }  ensures while zone z { given x { 0 }; x } {}
  function BentClause(): Forge {
    Forge("f", [], Some(HBlock([], Some(ReturnExpr(Some(IntE(1)))))), [While(BentCond(), HBlock([], None))])
  }

  /** The same loop in a clause: the code is coherent without checks, and is not with them. */
  lemma {:induction false} BentClauseIncoherent()
    ensures Coherent(LowerForge(false, BentClause())) && !Coherent(LowerForge(true, BentClause()))
  {
    hide LowerForge, Coherent;
    var f := BentClause();
    var (m, n) := (ForgeMode(true, f, false), ForgeMode(false, f, false));
    ForgeModeOf(true, f, false);
    ForgeModeOf(false, f, false);
    assert BentCond().body.stmts[1..] == [];
    assert !StraightStmts(true, BentCond().body.stmts);
    assert !Straight(true, BentCond());
    assert !ShapedOperands(m, f.ensures_);
    assert Shaped(n, ReturnExpr(Some(IntE(1)))) && !Shaped(m, ReturnExpr(Some(IntE(1))));
    assert Shaped(Bent(m), ReturnExpr(Some(IntE(1))));
    CoherentIffStraight(m, f);
    ForgeCoherent(n, f);
  }

  const BENT_BLOCKS: seq<BasicBlock> :=
    [ENTRY, BasicBlock([], Some(Goto(2))),
     BasicBlock([ZoneEnter("z")], Some(SwitchInt(Copy(0), [(1, 3)], 4))), BasicBlock([], Some(Goto(2))),
     BasicBlock([], Some(Return(None))), BasicBlock([], Some(Goto(7))), BasicBlock([], Some(Goto(7))),
     BasicBlock([ZoneExit("z")], None)]

  // The condition ends in block 7, but the branch is put at block 2.
  lemma {:induction false} BentGivenLowered(s: State)
    requires s.Size() == 5 && s.cur == 2 && s.Cur() == EMPTY_BLOCK && 0 in s.vars && s.vars[0] == 0
    ensures var s2 := LowerStmts(Push(s, ZoneEnter("z")), BentCond().body.stmts);
      && s2.cur == 7 && s2.body.entry == s.body.entry && s2.vars == s.vars
      && s2.body.blocks == s.body.blocks[2 := BasicBlock([ZoneEnter("z")], Some(SwitchInt(Copy(0), [(1, 5)], 6)))]
                           + [BasicBlock([], Some(Goto(7))), BasicBlock([], Some(Goto(7))), EMPTY_BLOCK]
  {
    hide LowerStmts;
    var s1 := Push(s, ZoneEnter("z"));
    assert s1.Cur().instrs == [ZoneEnter("z")];
    var o1 := OpenGiven(s1, Copy(0));
    TailOnly(o1, IntE(0));
    assert LowerExpr(o1, IntE(0)).0 == o1;
    assert o1.body.blocks == o1.body.blocks[5 := EMPTY_BLOCK];
    GivenXLowered(s1, Only(IntE(0)), o1, EMPTY_BLOCK);
  }

  lemma {:induction false} BentCondLowered(s: State)
    requires s.Size() == 5 && s.cur == 2 && s.Cur() == EMPTY_BLOCK && 0 in s.vars && s.vars[0] == 0
    ensures var (s', op) := LowerOperand(s, BentCond());
      && op == Copy(0) && s'.cur == 7 && s'.body.entry == s.body.entry
      && s'.body.blocks == s.body.blocks[2 := BasicBlock([ZoneEnter("z")], Some(SwitchInt(Copy(0), [(1, 5)], 6)))]
                           + [BasicBlock([], Some(Goto(7))), BasicBlock([], Some(Goto(7))),
                               BasicBlock([ZoneExit("z")], None)]
  {
    hide LowerStmts;
    var s1 := Push(s, ZoneEnter("z"));
    var s2 := LowerStmts(s1, BentCond().body.stmts);
    BentGivenLowered(s);
    assert LowerExpr(s2, VarE("x", 0)) == (s2, Use(Copy(0)));
    assert LowerBlock(s1, BentCond().body) == (s2, Use(Copy(0)));
    assert LowerExpr(s, BentCond()) == (Push(s2, ZoneExit("z")), Use(Copy(0)));
    assert Push(s2, ZoneExit("z")).Cur().instrs == [ZoneExit("z")];
  }

  lemma {:induction false} OpenedWhile(s: State)
    requires s.body.blocks == [ENTRY, EMPTY_BLOCK] && s.cur == 1
    ensures var o := OpenWhile(s);
      && o.body.blocks == [ENTRY, BasicBlock([], Some(Goto(2))), EMPTY_BLOCK, EMPTY_BLOCK, EMPTY_BLOCK]
      && o.cur == 2 && o.vars == s.vars && o.body.entry == s.body.entry
  {
  }

  lemma {:induction false} BentLoopLowered()
    ensures LowerForge(false, BentLoop()).entry == 0 && LowerForge(false, BentLoop()).blocks == BENT_BLOCKS
  {
    hide StartForge, LowerStmts, LowerStmt, LowerExpr, LowerOperand, OpenWhile;
    var f := BentLoop();
    var loop := f.body.value.stmts[0].expr;
    var s0 := StartForge(false, f);
    OneParamStart(false, f);
    OpenedWhile(s0);
    BentCondLowered(OpenWhile(s0));
    BentLoopParts(s0, LowerOperand(OpenWhile(s0), BentCond()).0);
    OneStmt(s0, loop);
    NoTail(s0, f.body.value);
    assert LowerBody(s0, f.body) == LowerExpr(s0, loop).0;
  }

  lemma {:induction false} OneStmt(s: State, e: Expr)
    ensures LowerStmts(s, [ExprStmt(e)]) == LowerExpr(s, e).0
  {
    hide LowerExpr, LowerStmt;
    StmtOf(s, e);
    assert [ExprStmt(e)][1..] == [];
    NoStmts(LowerExpr(s, e).0);
  }

  // The branch, the empty body and the jump back.
  lemma {:induction false} BentLoopParts(s0: State, s2: State)
    requires s0.Size() == 2 && LowerOperand(OpenWhile(s0), BentCond()) == (s2, Copy(0)) && s2.Size() == 8
    requires s2.body.blocks[0] == ENTRY && s2.body.blocks[1] == BasicBlock([], Some(Goto(2)))
    requires s2.body.blocks[2].instrs == [ZoneEnter("z")]
    requires s2.body.blocks[3] == s2.body.blocks[4] == EMPTY_BLOCK && s2.body.blocks[5..] == BENT_BLOCKS[5..]
    ensures var s5 := LowerExpr(s0, BentLoop().body.value.stmts[0].expr).0;
      s5.cur == 4 && s5.body.entry == s2.body.entry && s5.body.blocks == BENT_BLOCKS[4 := EMPTY_BLOCK]
  {
    hide LowerOperand, OpenWhile;
    var s3 := BranchWhile(s2, 2, Copy(0));
    NoStmts(s3);
    assert LowerBlock(s3, HBlock([], None)) == (s3, FALSE_RV);
    var s5 := MoveTo(JoinTo(s3, 2), 4);
    assert LowerExpr(s0, BentLoop().body.value.stmts[0].expr) == (s5, FALSE_RV);
    hide LowerExpr, LowerBlock;
    assert s5.body.blocks[5..] == s2.body.blocks[5..];
    assert s5.body.blocks == s5.body.blocks[..5] + s5.body.blocks[5..];
    assert BENT_BLOCKS[4 := EMPTY_BLOCK] == BENT_BLOCKS[4 := EMPTY_BLOCK][..5] + BENT_BLOCKS[5..];
  }

  lemma {:induction false} BentLoopValue(I: HirInterp)
    ensures HirEnds(I, false, BentLoop(), [BoolVal(false)], DidReturn(None), [Switched(0), Switched(0)])
  {
    var C := Contracts(false, []);
    var env := map[0 := BoolVal(false)];
    var f := BentLoop();
    var loop := f.body.value.stmts[0].expr;
    OneArg(BoolVal(false));
    assert [] + [Switched(0)] == [Switched(0)] && [Switched(0)] + [Switched(0)] == [Switched(0), Switched(0)];
    var g := GivenX(Only(IntE(0)));
    assert Eval(I, C, g, env, [], 1) == Result(Normal(UNIT), env, [Switched(0)]);
    assert [ExprStmt(g)][1..] == [];
    assert EvalStmts(I, C, [], env, [Switched(0)], 1) == Result(Normal(UNIT), env, [Switched(0)]);
    assert EvalStmts(I, C, [ExprStmt(g)], env, [], 1) == Result(Normal(UNIT), env, [Switched(0)]);
    assert EvalBlock(I, C, BentCond().body, env, [], 1) == Result(Normal(BoolVal(false)), env, [Switched(0)]);
    assert Eval(I, C, BentCond(), env, [], 1) == Result(Normal(BoolVal(false)), env, [Switched(0)]);
    var tr := [Switched(0), Switched(0)];
    assert Eval(I, C, loop, env, [], 1) == Result(Normal(UNIT), env, tr);
    assert f.body.value.stmts[1..] == [];
    assert EvalStmts(I, C, [], env, tr, 1) == Result(Normal(UNIT), env, tr);
    assert EvalStmts(I, C, f.body.value.stmts, env, [], 1) == Result(Normal(UNIT), env, tr);
    assert HirEndsBy(I, false, f, [BoolVal(false)], DidReturn(None), tr, 1);
  }

  // Five steps, the condition's given skipped.
  lemma {:induction false} BentLoopRun(I: Interp, store: Store)
    requires Read(store, 0) == BoolVal(false)
    ensures Steps(I, BENT_BLOCKS, Start(0, store), 5) ==
            Halted(Observation(DidReturn(None), [Switched(0)], [Entered("z")]))
  {
    hide Read;
    var c := Start(0, store);
    Unroll(I, BENT_BLOCKS, c);
    StepsAdd(I, BENT_BLOCKS, c, 3, 2);
    var c3 := Running(Frame(Some(1), 2, 1, store, [], [Entered("z")]));
    assert [] + [Entered("z")] == [Entered("z")] && [] + [Switched(0)] == [Switched(0)];
    assert Steps(I, BENT_BLOCKS, c, 3) == c3;
    Unroll(I, BENT_BLOCKS, c3);
    assert SwitchTarget(0, [(1, 3)], 4) == 4 by { assert [(1, 3)][1..] == []; }
    var c4 := Running(Frame(Some(2), 4, 0, store, [Switched(0)], [Entered("z")]));
    assert Step(I, BENT_BLOCKS, c3) == c4;
  }

  /** The loop's branch has taken the place of the given's: one decision is made where two should be. */
  lemma {:induction false} BentLoopDiffers(I: HirInterp)
    ensures HirEnds(I, false, BentLoop(), [BoolVal(false)], DidReturn(None), [Switched(0), Switched(0)])
    ensures var body := LowerForge(false, BentLoop());
      && MirEnds(I.mir, body, ArgStore([BoolVal(false)]), DidReturn(None), [Switched(0)])
      && !MirEnds(I.mir, body, ArgStore([BoolVal(false)]), DidReturn(None), [Switched(0), Switched(0)])
  {
    BentLoopValue(I);
    BentLoopLowered();
    hide LowerForge, HirEnds;
    var body := LowerForge(false, BentLoop());
    var store := ArgStore([BoolVal(false)]);
    assert Read(store, 0) == BoolVal(false);
    BentLoopRun(I.mir, store);
    assert MirEndsBy(I.mir, body, store, DidReturn(None), [Switched(0)], 5);
    if MirEnds(I.mir, body, store, DidReturn(None), [Switched(0), Switched(0)]) {
      OneEnd(I.mir, body, store, DidReturn(None), [Switched(0)], DidReturn(None), [Switched(0), Switched(0)]);
    }
  }

  // ---- A checked clause that calls ----

  // { return 1 }  ensures g()
  function CallingClause(): Forge {
    Forge("f", [], Some(HBlock([], Some(ReturnExpr(Some(IntE(1)))))), [CallE("g", NUM)])
  }

  lemma {:induction false} CallingClauseUnchecked()
    ensures LowerForge(false, CallingClause()).entry == 0
    ensures LowerForge(false, CallingClause()).blocks ==
            [ENTRY, BasicBlock([], Some(Return(Some(Const(IntConst(1))))))]
  {
    var f := CallingClause();
    StartBlocks(false, f);
    TailForge(false, f, ReturnExpr(Some(IntE(1))));
    hide StartForge, LowerForge, LowerExpr, LowerOperand;
    var s := StartForge(false, f);
    LitOperand(s, IntLit(1));
    ReturnOperand(s, IntE(1), s, Const(IntConst(1)));
  }

  lemma {:induction false} CallingClauseChecked()
    ensures LowerForge(true, CallingClause()).entry == 0
    ensures LowerForge(true, CallingClause()).blocks ==
            [ENTRY, BasicBlock([Call(Some(0), "g", []), Assert(Move(0), POSTCONDITION)],
                Some(Return(Some(Const(IntConst(1))))))]
  {
    var f := CallingClause();
    StartBlocks(true, f);
    TailForge(true, f, ReturnExpr(Some(IntE(1))));
    hide StartForge, LowerForge, LowerExpr, LowerOperand, LowerClauses;
    var s := StartForge(true, f);
    LitOperand(s, IntLit(1));
    CallLowered(s, 0);
    var s1 := LowerOperand(s, CallE("g", NUM)).0;
    CallClause(s, IntE(1), s1, Move(0));
    var s2 := Push(s1, Assert(Move(0), POSTCONDITION));
    CheckedReturn(s, IntE(1), s, Const(IntConst(1)), s2);
    assert s1.Cur().instrs == [Call(Some(0), "g", [])];
    assert s2.Cur().instrs == [Call(Some(0), "g", []), Assert(Move(0), POSTCONDITION)];
    assert s2.body.blocks == [ENTRY, s2.Cur()] && s2.cur == 1;
  }

  lemma {:induction false} LitOperand(s: State, lit: Literal)
    ensures LowerOperand(s, Lit(lit)) == (s, Const(LitConst(lit)))
  {
  }

  lemma {:induction false} CallClause(s: State, x: Expr, s1: State, op: Operand)
    requires LowerOperand(s, CallE("g", NUM)) == (s1, op)
    ensures ReturnNestAll([CallE("g", NUM)]) == 0
    ensures LowerClauses(s, [CallE("g", NUM)], x) == Push(s1, Assert(op, POSTCONDITION))
  {
    hide LowerOperand;
    var clause := CallE("g", NUM);
    assert [clause][1..] == [] && SubstResultAll([], x) == [];
    assert SubstResult(clause, x) == clause;
    var s2 := Push(s1, Assert(op, POSTCONDITION));
    assert LowerClauses(s2, [], x) == s2;
  }

  /** Turning checks on makes a call that the forge without checks never makes. */
  lemma {:induction false} CallingClauseIsSeen(I: Interp)
    requires Key(I.answer([], "g", [])) != 0
    ensures MirEnds(I, LowerForge(true, CallingClause()), ArgStore([]), DidReturn(Some(IntVal(1))), [CALL_ONCE])
    ensures MirEnds(I, LowerForge(false, CallingClause()), ArgStore([]), DidReturn(Some(IntVal(1))), [])
    ensures !MirEnds(I, LowerForge(true, CallingClause()), ArgStore([]), DidReturn(Some(IntVal(1))), [])
  {
    CallingClauseChecked();
    CallingClauseUnchecked();
    hide LowerForge;
    var (on, off) := (LowerForge(true, CallingClause()), LowerForge(false, CallingClause()));
    var store := ArgStore([]);
    Unroll(I, off.blocks, Start(0, store));
    assert MirEndsBy(I, off, store, DidReturn(Some(IntVal(1))), [], 2);
    CallingRun(I, on.blocks, store);
    assert MirEndsBy(I, on, store, DidReturn(Some(IntVal(1))), [CALL_ONCE], 4);
    if MirEnds(I, on, store, DidReturn(Some(IntVal(1))), []) {
      OneEnd(I, on, store, DidReturn(Some(IntVal(1))), [CALL_ONCE], DidReturn(Some(IntVal(1))), []);
    }
  }

  lemma {:induction false} CallingRun(I: Interp, blocks: seq<BasicBlock>, store: Store)
    requires blocks ==
             [ENTRY, BasicBlock([Call(Some(0), "g", []), Assert(Move(0), POSTCONDITION)],
                                Some(Return(Some(Const(IntConst(1))))))]
    requires Key(I.answer([], "g", [])) != 0
    ensures Steps(I, blocks, Start(0, store), 4) ==
            Halted(Observation(DidReturn(Some(IntVal(1))), [CALL_ONCE], [Checked(POSTCONDITION)]))
  {
    var v := I.answer([], "g", []);
    FourSteps(I, blocks, Start(0, store));
    hide Steps;
    assert OperandValues(store, []) == [] && [] + [CALL_ONCE] == [CALL_ONCE];
    assert [] + [Checked(POSTCONDITION)] == [Checked(POSTCONDITION)];
    var c2 := Running(Frame(Some(0), 1, 1, store[0 := v], [CALL_ONCE], []));
    assert Step(I, blocks, Step(I, blocks, Start(0, store))) == c2;
    assert Read(store[0 := v], 0) == v;
    var c3 := Running(Frame(Some(0), 1, 2, store[0 := v], [CALL_ONCE], [Checked(POSTCONDITION)]));
    assert Step(I, blocks, c2) == c3;
  }
}
