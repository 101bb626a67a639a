/**
 While conditions that hold control flow.  Lowering puts the loop's branch at the condition's first block
 even when the condition has moved on, which leaves the block it moved to without an end and the first
 block with edges its terminator does not have.  So nothing less than straight conditions will do.
 */
module LowerBent {
  import opened Common
  import opened Mir
  import opened Hir
  import opened LowerSpec
  import opened Fragment
  import opened LowerFrame
  import opened LowerShape

  // ---- A condition that is not straight moves on ----

  /** The current block of `s` has ended, with a way to some block made since, and is no longer current. */
  ghost predicate MovedOn(s: State, s': State) {
    s'.cur >= s.Size() && exists t: BlockId :: LeadsTo(s', s.cur, t) && t >= s.Size()
  }

  predicate LeadsTo(s: State, b: BlockId, t: BlockId) {
    b < s.Size() && t in Targets(s.body.blocks[b].term)
  }

  lemma {:induction false} MovedFurther(s: State, s1: State, s': State)
    requires MovedOn(s, s1) && Confined(s1, s') && s.cur < s.Size() <= s1.Size()
    ensures MovedOn(s, s')
  {
    var t: BlockId :| LeadsTo(s1, s.cur, t) && t >= s.Size();
    assert LeadsTo(s', s.cur, t);
  }

  lemma {:induction false} MovedLater(s: State, s1: State, s': State)
    requires Confined(s, s1) && s1.cur == s.cur && MovedOn(s1, s')
    ensures MovedOn(s, s')
  {
    var t: BlockId :| LeadsTo(s', s1.cur, t) && t >= s1.Size();
  }

  lemma {:induction false} MovedJoined(s: State, s1: State, target: BlockId, next: BlockId)
    requires MovedOn(s, s1) && s.Size() <= next < s1.Size()
    ensures MovedOn(s, MoveTo(JoinTo(s1, target), next))
  {
    var t: BlockId :| LeadsTo(s1, s.cur, t) && t >= s.Size();
    assert LeadsTo(MoveTo(JoinTo(s1, target), next), s.cur, t);
  }

  lemma {:induction false} OpenMoves(s: State, op: Operand)
    ensures MovedOn(s, OpenGiven(s, op)) && MovedOn(s, OpenWhile(s))
  {
    assert LeadsTo(OpenGiven(s, op), s.cur, s.Size() + 1);
    assert LeadsTo(OpenWhile(s), s.cur, s.Size());
  }

  /** Whether `e` is straight shows in whether lowering it moves on. */
  ghost predicate Moves(straight: bool, s: State, s': State) {
    if straight then s'.cur == s.cur else MovedOn(s, s')
  }

  lemma {:induction false} MovesThen(p: bool, q: bool, s: State, s1: State, s': State)
    requires Confined(s, s1) && Confined(s1, s') && Moves(p, s, s1) && Moves(q, s1, s')
    ensures Moves(p && q, s, s')
  {
    if !p {
      MovedFurther(s, s1, s');
    } else if !q {
      MovedLater(s, s1, s');
    }
  }

  /** Edits of the current block, of slots and of variables do not move. */
  lemma {:induction false} MovesSame(p: bool, a: State, s: State, s': State)
    requires Moves(p, a, s) && s'.cur == s.cur && s'.Size() == s.Size()
    requires forall b: BlockId :: b < s.Size() ==> s'.body.blocks[b].term == s.body.blocks[b].term
    ensures Moves(p, a, s')
  {
    if !p {
      var t: BlockId :| LeadsTo(s, a.cur, t) && t >= a.Size();
      assert LeadsTo(s', a.cur, t);
    }
  }

  lemma {:induction false} MovesToOperand(p: bool, a: State, s: State, rv: Rvalue)
    requires Moves(p, a, s)
    ensures Moves(p, a, ToOperand(s, rv).0)
  {
    hide Moves, RvalueType;
    MovesSame(p, a, s, ToOperand(s, rv).0);
  }

  lemma {:induction false} MovesExpr(m: Mode, s: State, e: Expr)
    requires Shaped(m, e) && !Exits(e) && s.checkContracts == m.check
    ensures Moves(Straight(m.check, e), s, LowerExpr(s, e).0)
    decreases e, 1
  {
    hide Moves, Confined;
    match e
    case Lit(_) => NoMove(s, s);
    case Ident(_, v, _) => NoMove(s, ReadVariable(s, v).0);
    case Bin(_, l, r, _) =>
      var s1 := LowerOperand(s, l).0;
      MovesOperand(m, s, l);
      MovesOperand(m, s1, r);
      ConfineOperand(s, l);
      ConfineOperand(s1, r);
      MovesThen(Straight(m.check, l), Straight(m.check, r), s, s1, LowerOperand(s1, r).0);
    case Un(_, x, _) => MovesOperand(m, s, x);
    case CallExpr(_, _, _, _) => MovesCall(m, s, e);
    case Zone(z, b, _) =>
      var s1 := Push(s, ZoneEnter(z));
      MovesBlock(m, s1, b);
      MovesFrom(StraightBlock(m.check, b), s, s1, LowerBlock(s1, b).0);
      MovesSame(StraightBlock(m.check, b), s, LowerBlock(s1, b).0, LowerExpr(s, e).0);
    case Given(_, _, _, _) => MovesGiven(m, s, e);
    case While(_, _) => MovesWhile(s, e);
  }

  lemma {:induction false} NoMove(s: State, s': State)
    requires s'.cur == s.cur
    ensures Moves(true, s, s')
  {
  }

  lemma {:induction false} MovesFrom(p: bool, a: State, s: State, s': State)
    requires Moves(p, s, s') && a.cur == s.cur && a.Size() == s.Size()
    ensures Moves(p, a, s')
  {
  }

  lemma {:induction false} MovesOperand(m: Mode, s: State, e: Expr)
    requires ShapedOperand(m, e) && s.checkContracts == m.check
    ensures Moves(Straight(m.check, e), s, LowerOperand(s, e).0)
    ensures LowerOperand(s, e).0.checkContracts == m.check
    decreases e, 2
  {
    hide Moves, Confined;
    MovesExpr(m, s, e);
    MovesToOperand(Straight(m.check, e), s, LowerExpr(s, e).0, LowerExpr(s, e).1);
    ConfineOperand(s, e);
    SetupKept(s, LowerOperand(s, e).0);
  }

  lemma {:induction false} MovesOperands(m: Mode, s: State, es: seq<Expr>)
    requires ShapedOperands(m, es) && s.checkContracts == m.check
    ensures Moves(StraightAll(m.check, es), s, LowerOperands(s, es).0)
    decreases es, 0
  {
    hide Moves, Confined;
    if es == [] {
      NoMove(s, s);
    } else {
      var s1 := LowerOperand(s, es[0]).0;
      MovesOperand(m, s, es[0]);
      MovesOperands(m, s1, es[1..]);
      ConfineOperand(s, es[0]);
      ConfineOperands(s1, es[1..]);
      MovesThen(Straight(m.check, es[0]), StraightAll(m.check, es[1..]), s, s1, LowerOperands(s1, es[1..]).0);
    }
  }

  lemma {:induction false} MovesAsserts(m: Mode, s: State, es: seq<Expr>, msg: string)
    requires ShapedOperands(m, es) && s.checkContracts == m.check
    ensures Moves(StraightAll(m.check, es), s, LowerAsserts(s, es, msg))
    decreases es, 0
  {
    hide Moves, Confined;
    if es == [] {
      NoMove(s, s);
    } else {
      var (s1, op) := LowerOperand(s, es[0]);
      var s2 := Push(s1, Assert(op, msg));
      MovesOperand(m, s, es[0]);
      MovesSame(Straight(m.check, es[0]), s, s1, s2);
      MovesAsserts(m, s2, es[1..], msg);
      ConfineOperand(s, es[0]);
      ConfinePush(s, s1, Assert(op, msg));
      ConfineAsserts(s2, es[1..], msg);
      MovesThen(Straight(m.check, es[0]), StraightAll(m.check, es[1..]), s, s2, LowerAsserts(s2, es[1..], msg));
    }
  }

  lemma {:induction false} CallParts(m: Mode, e: Expr)
    requires e.CallExpr? && Shaped(m, e)
    ensures ShapedOperands(m, e.args) && (m.check ==> ShapedOperands(m, e.reqs))
    ensures Straight(m.check, e) == (StraightAll(m.check, e.args) && (m.check ==> StraightAll(m.check, e.reqs)))
  {
    hide ShapedOperands, StraightAll;
  }

  lemma {:induction false} MovesCall(m: Mode, s: State, e: Expr)
    requires e.CallExpr? && Shaped(m, e) && s.checkContracts == m.check
    ensures Moves(Straight(m.check, e), s, LowerExpr(s, e).0)
    decreases e, 0
  {
    hide Moves, Confined, LowerOperands, LowerAsserts, Straight, StraightAll, ShapedOperands;
    CallParts(m, e);
    var CallExpr(callee, args, reqs, retTy) := e;
    var s1 := LowerOperands(s, args).0;
    var p := StraightAll(m.check, args);
    MovesOperands(m, s, args);
    ConfineOperands(s, args);
    SetupKept(s, s1);
    var s2 := if s1.checkContracts then LowerAsserts(s1, reqs, PRECONDITION) else s1;
    if m.check {
      MovesAsserts(m, s1, reqs, PRECONDITION);
      ConfineAsserts(s1, reqs, PRECONDITION);
      MovesThen(p, StraightAll(m.check, reqs), s, s1, s2);
    }
    assert LowerExpr(s, e) == LowerCall(s, e);
    MovesSame(Straight(m.check, e), s, s2, LowerCall(s, e).0);
  }

  lemma {:induction false} MovesGiven(m: Mode, s: State, e: Expr)
    requires e.Given? && ShapedOperand(m, e.cond) && s.checkContracts == m.check
    ensures Moves(false, s, LowerExpr(s, e).0)
    decreases e, 0
  {
    hide MovedOn, Confined, OpenGiven, JoinTo, MoveTo, LowerExpr, LowerBlock, LowerOperand;
    GivenLowered(s, e);
    var (s1, op) := LowerOperand(s, e.cond);
    var n := s1.Size();
    var s2 := OpenGiven(s1, op);
    var s3 := LowerBlock(s2, e.thenBlock).0;
    var s4 := AfterThen(s1, op, e.thenBlock);
    OpenMoves(s1, op);
    ConfineBlock(s2, e.thenBlock);
    MovedFurther(s1, s2, s3);
    MovedJoined(s1, s3, n + 2, n + 1);
    var s5 := OptLower(s4, e.elseExpr);
    if e.elseExpr.Some? {
      ConfineExpr(s4, e.elseExpr.value);
      MovedFurther(s1, s4, s5);
    }
    MovedJoined(s1, s5, n + 2, n + 2);
    MovesOperand(m, s, e.cond);
    ConfineOperand(s, e.cond);
    ConfineThen(s1, op, e);
    ConfineElse(s1, s4, e);
    MovesThen(Straight(m.check, e.cond), false, s, s1, MoveTo(JoinTo(s5, n + 2), n + 2));
  }

  lemma {:induction false} MovedBranch(s: State, s1: State, c: BlockId, op: Operand)
    requires MovedOn(s, s1) && s.Size() <= c && c + 2 < s1.Size()
    ensures MovedOn(s, BranchWhile(s1, c, op))
  {
    var t: BlockId :| LeadsTo(s1, s.cur, t) && t >= s.Size();
    assert LeadsTo(BranchWhile(s1, c, op), s.cur, t);
  }

  lemma {:induction false} MovesWhile(s: State, e: Expr)
    requires e.While?
    ensures Moves(false, s, LowerExpr(s, e).0)
  {
    hide MovedOn, Confined, OpenWhile, BranchWhile, JoinTo, MoveTo, LowerExpr, LowerBlock, LowerOperand;
    WhileLowered(s, e);
    var c := s.Size();
    var (s1, op) := LowerOperand(OpenWhile(s), e.cond);
    OpenMoves(s, op);
    ConfineOperand(OpenWhile(s), e.cond);
    MovedFurther(s, OpenWhile(s), s1);
    MovedBranch(s, s1, c, op);
    var s2 := BranchWhile(s1, c, op);
    ConfineBlock(s2, e.body);
    MovedFurther(s, s2, LowerBlock(s2, e.body).0);
    MovedJoined(s, LowerBlock(s2, e.body).0, c, c + 2);
  }

  lemma {:induction false} MovesBlock(m: Mode, s: State, b: HBlock)
    requires ShapedBlock(m, b) && !BlockExits(b) && s.checkContracts == m.check
    ensures Moves(StraightBlock(m.check, b), s, LowerBlock(s, b).0)
    decreases b, 0
  {
    hide Moves, Confined;
    var s1 := LowerStmts(s, b.stmts);
    var p := StraightStmts(m.check, b.stmts);
    match b.tail
    case None => MovesStmts(m, s, b.stmts, true);
    case Some(e) =>
      NoExit(m, b.stmts);
      MovesStmts(m, s, b.stmts, false);
      ConfineStmts(s, b.stmts);
      SetupKept(s, s1);
      MovesExpr(m, s1, e);
      ConfineExpr(s1, e);
      MovesThen(p, Straight(m.check, e), s, s1, LowerExpr(s1, e).0);
  }

  lemma {:induction false} MovesStmts(m: Mode, s: State, ss: seq<Stmt>, mayExit: bool)
    requires ShapedStmts(m, ss, mayExit) && !StmtsExit(ss) && s.checkContracts == m.check
    ensures Moves(StraightStmts(m.check, ss), s, LowerStmts(s, ss))
    decreases ss, 0
  {
    hide Moves, Confined;
    if ss == [] {
      NoMove(s, s);
    } else {
      var s1 := LowerStmt(s, ss[0]);
      MovesStmt(m, s, ss[0]);
      ConfineStmt(s, ss[0]);
      SetupKept(s, s1);
      MovesStmts(m, s1, ss[1..], mayExit);
      ConfineStmts(s1, ss[1..]);
      MovesThen(StraightStmt(m.check, ss[0]), StraightStmts(m.check, ss[1..]), s, s1, LowerStmts(s1, ss[1..]));
    }
  }

  lemma {:induction false} MovesStmt(m: Mode, s: State, st: Stmt)
    requires ShapedStmt(m, st) && !StmtExits(st) && s.checkContracts == m.check
    ensures Moves(StraightStmt(m.check, st), s, LowerStmt(s, st))
    decreases st, 0
  {
    hide Moves, ExprType;
    match st
    case Let(_, _, _, None) => NoMove(s, s);
    case Let(name, v, ty, Some(e)) =>
      MovesExpr(m, s, e);
      MovesSame(Straight(m.check, e), s, LowerExpr(s, e).0, LowerStmt(s, st));
    case AssignStmt(_, e) =>
      MovesExpr(m, s, e);
      MovesSame(Straight(m.check, e), s, LowerExpr(s, e).0, LowerStmt(s, st));
    case ExprStmt(e) => MovesExpr(m, s, e);
  }

  // ---- What a condition that is not straight breaks ----

  // The same mode, but with conditions of any form.
  function Bent(m: Mode): Mode {
    m.(bent := true, gives := true)
  }

  /** The graph gives block `c` an edge that its terminator does not take. */
  ghost predicate Stray(body: MirBody, c: BlockId) {
    c < |body.blocks| && exists e :: e in body.edges && e.src == c && e.dst !in Targets(body.blocks[c].term)
  }

  /** Of the blocks made since `s` and left behind, `b` has no end and `c` has a stray edge. */
  ghost predicate BrokenBy(s: State, s': State, b: BlockId, c: BlockId) {
    && s.Size() <= b < s'.Size() && b != s'.cur && s'.body.blocks[b].term.None?
    && s.Size() <= c < s'.Size() && c != s'.cur && Stray(s'.body, c)
  }

  ghost predicate Broken(s: State, s': State) {
    exists b: BlockId, c: BlockId :: BrokenBy(s, s', b, c)
  }

  lemma {:induction false} BrokenNew(s: State, s': State, b: BlockId, c: BlockId)
    requires BrokenBy(s, s', b, c)
    ensures s.Size() <= b && s.Size() <= c
  {
  }

  lemma {:induction false} StaysBroken(s0: State, s: State, s1: State, s': State)
    requires Broken(s, s1) && Confined(s1, s') && s0.Size() <= s.Size()
    ensures Broken(s0, s')
  {
    var b: BlockId, c: BlockId :| BrokenBy(s, s1, b, c);
    assert BrokenBy(s0, s', b, c);
  }

  lemma {:induction false} BrokenPush(s0: State, s: State, s1: State, ins: Instruction)
    requires Broken(s, s1) && s0.Size() <= s.Size()
    ensures Broken(s0, Push(s1, ins))
  {
    hide Broken;
    ConfineRefl(s1);
    ConfinePush(s1, s1, ins);
    StaysBroken(s0, s, s1, Push(s1, ins));
  }

  lemma {:induction false} BrokenJoin(s: State, s1: State, target: BlockId, next: BlockId)
    requires Broken(s, s1) && next < s.Size() && next < s1.Size()
    ensures Broken(s, MoveTo(JoinTo(s1, target), next))
  {
    var b: BlockId, c: BlockId :| BrokenBy(s, s1, b, c);
    assert BrokenBy(s, MoveTo(JoinTo(s1, target), next), b, c);
  }

  lemma {:induction false} BrokenBranch(s: State, s1: State, c: BlockId, op: Operand)
    requires Broken(s, s1) && c + 2 < s.Size() && c + 2 < s1.Size()
    ensures Broken(s, BranchWhile(s1, c, op))
  {
    var b: BlockId, d: BlockId :| BrokenBy(s, s1, b, d);
    assert BrokenBy(s, BranchWhile(s1, c, op), b, d);
  }

  /** The branch of a loop whose condition, begun in block `c`, has moved on. */
  lemma {:induction false} BranchBreaks(s: State, s1: State, s2: State, op: Operand)
    requires s1.cur == s.Size() && s1.Size() == s.Size() + 3 && s2.Size() >= s1.Size()
    requires MovedOn(s1, s2) && Coherent(s2.body) && s2.Cur().term.None?
    ensures BrokenBy(s, BranchWhile(s2, s.Size(), op), s2.cur, s.Size()) && s2.cur >= s1.Size()
  {
    var c := s.Size();
    var s3 := BranchWhile(s2, c, op);
    var t: BlockId :| LeadsTo(s2, c, t) && t >= s1.Size();
    assert CoherentAt(s2.body, c);
    var e :| e in s2.body.edges && e.src == c && e.dst == t;
    assert e in s3.body.edges;
    assert Targets(s3.body.blocks[c].term) == {c + 1, c + 2} by {
      var cases := [(1, c + 1)];
      assert (set x | x in cases :: x.1) == {c + 1} by { assert cases[0] in cases; }
    }
  }

  lemma {:induction false} BreakExpr(m: Mode, s: State, e: Expr)
    requires Ready(m, s) && Shaped(Bent(m), e) && !Shaped(m, e)
    ensures Broken(s, LowerExpr(s, e).0)
    decreases ReturnNest(e), 1, e, 3
  {
    hide Ready, Confined, Broken, Grows;
    match e
    case Lit(_) =>
    case Ident(_, _, _) =>
    case Bin(_, l, r, _) =>
      var s1 := LowerOperand(s, l).0;
      ConfineOperand(s, l);
      ConfineOperand(s1, r);
      if ShapedOperand(m, l) {
        GrowOperand(m, s, l);
        StillReady(m, s, s1);
        BreakOperand(m, s1, r);
        BrokenSince(s, s1, LowerOperand(s1, r).0);
      } else {
        BreakOperand(m, s, l);
        StaysBroken(s, s, s1, LowerOperand(s1, r).0);
      }
    case Un(_, x, _) => BreakOperand(m, s, x);
    case CallExpr(_, _, _, _) => BreakCall(m, s, e);
    case ReturnExpr(_) => BreakReturn(m, s, e);
    case Zone(z, b, _) =>
      var s1 := Push(s, ZoneEnter(z));
      GrowsRefl(m, s);
      PushGrows(m, s, s, false, ZoneEnter(z));
      StillReady(m, s, s1);
      BreakBlock(m, s1, b);
      BrokenPush(s, s1, LowerBlock(s1, b).0, ZoneExit(z));
    case Given(_, _, _, _) => BreakGiven(m, s, e);
    case While(_, _) => BreakWhile(m, s, e);
  }

  lemma {:induction false} BrokenSince(s0: State, s: State, s': State)
    requires Broken(s, s') && s0.Size() <= s.Size()
    ensures Broken(s0, s')
  {
    hide Broken, Confined;
    ConfineRefl(s');
    StaysBroken(s0, s, s', s');
  }

  lemma {:induction false} BreakOperand(m: Mode, s: State, e: Expr)
    requires Ready(m, s) && ShapedOperand(Bent(m), e) && !ShapedOperand(m, e)
    ensures Broken(s, LowerOperand(s, e).0)
    decreases ReturnNest(e), 1, e, 4
  {
    hide Ready, Confined, Broken;
    BreakExpr(m, s, e);
    ConfineToOperand(LowerExpr(s, e).0, LowerExpr(s, e).1);
    StaysBroken(s, s, LowerExpr(s, e).0, LowerOperand(s, e).0);
  }

  lemma {:induction false} BreakOperands(m: Mode, s: State, es: seq<Expr>)
    requires Ready(m, s) && ShapedOperands(Bent(m), es) && !ShapedOperands(m, es)
    ensures Broken(s, LowerOperands(s, es).0)
    decreases ReturnNestAll(es), 1, es
  {
    hide Ready, Confined, Broken, Grows;
    var s1 := LowerOperand(s, es[0]).0;
    ConfineOperand(s, es[0]);
    ConfineOperands(s1, es[1..]);
    if ShapedOperand(m, es[0]) {
      GrowOperand(m, s, es[0]);
      StillReady(m, s, s1);
      BreakOperands(m, s1, es[1..]);
      BrokenSince(s, s1, LowerOperands(s1, es[1..]).0);
    } else {
      BreakOperand(m, s, es[0]);
      StaysBroken(s, s, s1, LowerOperands(s1, es[1..]).0);
    }
  }

  lemma {:induction false} BreakAsserts(m: Mode, s: State, es: seq<Expr>, msg: string)
    requires Ready(m, s) && ShapedOperands(Bent(m), es) && !ShapedOperands(m, es)
    ensures Broken(s, LowerAsserts(s, es, msg))
    decreases ReturnNestAll(es), 1, es
  {
    hide Ready, Confined, Broken, Grows;
    var (s1, op) := LowerOperand(s, es[0]);
    var s2 := Push(s1, Assert(op, msg));
    ConfineAsserts(s2, es[1..], msg);
    if ShapedOperand(m, es[0]) {
      GrowOperand(m, s, es[0]);
      PushGrows(m, s, s1, false, Assert(op, msg));
      StillReady(m, s, s2);
      BreakAsserts(m, s2, es[1..], msg);
      BrokenSince(s, s2, LowerAsserts(s2, es[1..], msg));
    } else {
      BreakOperand(m, s, es[0]);
      BrokenPush(s, s, s1, Assert(op, msg));
      StaysBroken(s, s, s2, LowerAsserts(s2, es[1..], msg));
    }
  }

  lemma {:induction false} BreakCall(m: Mode, s: State, e: Expr)
    requires Ready(m, s) && Shaped(Bent(m), e) && !Shaped(m, e) && e.CallExpr?
    ensures Broken(s, LowerExpr(s, e).0)
    decreases ReturnNest(e), 1, e, 2
  {
    hide Ready, Confined, Broken, Grows;
    var CallExpr(callee, args, reqs, retTy) := e;
    var s1 := LowerOperands(s, args).0;
    ReadyIs(m, s);
    ConfineOperands(s, args);
    SetupKept(s, s1);
    var s2 := if s1.checkContracts then LowerAsserts(s1, reqs, PRECONDITION) else s1;
    if ShapedOperands(m, args) {
      GrowOperands(m, s, args);
      StillReady(m, s, s1);
      BreakAsserts(m, s1, reqs, PRECONDITION);
      BrokenSince(s, s1, s2);
    } else {
      BreakOperands(m, s, args);
      if s1.checkContracts {
        ConfineAsserts(s1, reqs, PRECONDITION);
        StaysBroken(s, s, s1, s2);
      }
    }
    ConfineRefl(s2);
    assert LowerExpr(s, e) == LowerCall(s, e);
    hide LowerExpr;
    if retTy == Prim(Void) {
      BrokenPush(s, s, s2, Call(None, CalleeName(callee), LowerOperands(s, args).1));
    } else {
      ConfineNew(s2, s2, "call_tmp", retTy);
      StaysBroken(s, s, s2, NewLocal(s2, "call_tmp", retTy));
      BrokenPush(s, s, NewLocal(s2, "call_tmp", retTy),
                 Call(Some(|s2.body.locals|), CalleeName(callee), LowerOperands(s, args).1));
    }
  }

  lemma {:induction false} BreakReturn(m: Mode, s: State, e: Expr)
    requires Ready(m, s) && Shaped(Bent(m), e) && !Shaped(m, e) && e.ReturnExpr?
    ensures Broken(s, LowerExpr(s, e).0)
    decreases ReturnNest(e), 1, e, 2
  {
    hide Ready, Confined, Broken;
    ReadyIs(m, s);
    var x := e.result.value;
    assert LowerExpr(s, e) == LowerReturn(s, e);
    hide LowerExpr;
    if IsSelfTailCall(s.forgeName, x) {
      assert ReturnNestAll(x.args) <= ReturnNest(x);
      var (s1, ops) := LowerOperands(s, x.args);
      BreakOperands(m, s, x.args);
      ConfineRefl(s1);
      ConfineRebind(s1, s1, s1.paramDefs, ops, 0);
      var s2 := Rebind(s1, s1.paramDefs, ops, 0);
      ConfineJump(s1, s2, s2.header);
      StaysBroken(s, s, s1, LowerReturn(s, e).0);
    } else {
      BreakGive(m, s, e);
    }
  }

  // Either the returned expression breaks something, or else the clauses behind it do.
  lemma {:induction false} BreakGive(m: Mode, s: State, e: Expr)
    requires e.ReturnExpr? && e.result.Some? && !IsSelfTailCall(m.forgeName, e.result.value)
    requires Ready(m, s) && Shaped(Bent(m), e) && !Shaped(m, e)
    ensures Broken(s, LowerReturn(s, e).0)
    decreases ReturnNest(e), 1, e, 1
  {
    hide Ready, Confined, Broken, Grows;
    ReadyIs(m, s);
    var x := e.result.value;
    var (s1, op) := LowerOperand(s, x);
    ConfineOperand(s, x);
    SetupKept(s, s1);
    ConfineClauses(s1, s1.ensures_, x);
    ConfineRefl(s1);
    var s2 := if s1.checkContracts then LowerClauses(s1, s1.ensures_, x) else s1;
    ConfineEnd(s1, s2, Return(Some(op)));
    ConfineRefl(s2);
    ConfineEnd(s2, s2, Return(Some(op)));
    if ShapedOperand(m, x) {
      GrowOperand(m, s, x);
      StillReady(m, s, s1);
      ReadyClauses(m, s1);
      ReturnFreeAll(Bent(m), Bent(m), s1.ensures_);
      BreakClauses(m, s1, s1.ensures_, x);
      StaysBroken(s1, s1, s2, LowerReturn(s, e).0);
      BrokenSince(s, s1, LowerReturn(s, e).0);
    } else {
      BreakOperand(m, s, x);
      StaysBroken(s, s, s1, LowerReturn(s, e).0);
    }
  }

  lemma {:induction false} ReadyClauses(m: Mode, s: State)
    requires Ready(m, s) && m.check
    ensures m.gives <==> ShapedOperands(m, s.ensures_)
  {
  }

  // Substitution mends no while condition.
  lemma {:induction false} SubstBent(m: Mode, c: Expr, result: Expr)
    requires ReturnNest(c) == 0 && !ShapedOperand(m, c)
    ensures !ShapedOperand(m, SubstResult(c, result))
    decreases c
  {
    ReturnFree(m, m, c);
    match c
    case Bin(_, l, r, _) =>
      if !ShapedOperand(m, l) {
        SubstBent(m, l, result);
      } else {
        SubstBent(m, r, result);
      }
    case Un(_, x, _) => SubstBent(m, x, result);
    case CallExpr(_, args, reqs, _) =>
      if !ShapedOperands(m, args) {
        SubstBentAll(m, args, result);
      } else {
        SubstBentAll(m, reqs, result);
      }
    case _ =>
  }

  lemma {:induction false} SubstBentAll(m: Mode, cs: seq<Expr>, result: Expr)
    requires ReturnNestAll(cs) == 0 && !ShapedOperands(m, cs)
    ensures !ShapedOperands(m, SubstResultAll(cs, result))
    decreases cs
  {
    assert SubstResultAll(cs, result)[1..] == SubstResultAll(cs[1..], result);
    if !ShapedOperand(m, cs[0]) {
      SubstBent(m, cs[0], result);
    } else {
      SubstBentAll(m, cs[1..], result);
    }
  }

  lemma {:induction false} BreakClauses(m: Mode, s: State, clauses: Clauses, x: Expr)
    requires Ready(m, s) && ShapedOperands(Bent(m), clauses) && !ShapedOperands(m, clauses) && ShapedOperand(m, x)
    requires ShapedOperand(Bent(m), x)
    ensures Broken(s, LowerClauses(s, clauses, x))
    decreases 1 + ReturnNest(x), 0, clauses
  {
    hide Ready, Confined, Broken, Grows;
    var q := SubstResult(clauses[0], x);
    SubstNest(clauses[0], x);
    var (s1, op) := LowerOperand(s, q);
    var check := Assert(op, POSTCONDITION);
    var s2 := Push(s1, check);
    ConfineClauses(s2, clauses[1..], x);
    if ShapedOperand(m, clauses[0]) {
      SubstShaped(m, clauses[0], x);
      GrowOperand(m, s, q);
      PushGrows(m, s, s1, false, check);
      StillReady(m, s, s2);
      BreakClauses(m, s2, clauses[1..], x);
      BrokenSince(s, s2, LowerClauses(s2, clauses[1..], x));
    } else {
      SubstBent(m, clauses[0], x);
      SubstShaped(Bent(m), clauses[0], x);
      BreakOperand(m, s, q);
      BrokenPush(s, s, s1, check);
      StaysBroken(s, s, s2, LowerClauses(s2, clauses[1..], x));
    }
  }

  lemma {:induction false} BreakGiven(m: Mode, s: State, e: Expr)
    requires Ready(m, s) && Shaped(Bent(m), e) && !Shaped(m, e) && e.Given?
    ensures Broken(s, LowerExpr(s, e).0)
    decreases ReturnNest(e), 1, e, 2
  {
    var (s1, op) := LowerOperand(s, e.cond);
    var s4 := AfterThen(s1, op, e.thenBlock);
    var s6 := AfterElse(s4, s1.Size(), e.elseExpr);
    ConfineOperand(s, e.cond);
    ConfineThen(s1, op, e);
    ConfineElse(s1, s4, e);
    GivenLowered(s, e);
    assert ShapedOperand(Bent(m), e.cond) && ShapedBlock(Bent(m), e.thenBlock)
           && (e.elseExpr.Some? ==> Shaped(Bent(m), e.elseExpr.value));
    hide Ready, Confined, Broken, Grows, LowerExpr, LowerOperand, AfterThen, AfterElse, HalfGiven, Kept;
    if !ShapedOperand(m, e.cond) {
      BreakOperand(m, s, e.cond);
      StaysBroken(s, s, s1, s6);
    } else {
      GrowOperand(m, s, e.cond);
      StillReady(m, s, s1);
      if !ShapedBlock(m, e.thenBlock) {
        BreakThen(m, s1, op, e);
      } else {
        GrowThen(m, s1, op, e);
        BreakElse(m, s1, s4, e);
      }
      BrokenSince(s, s1, s6);
    }
  }

  lemma {:induction false} BreakThen(m: Mode, s1: State, op: Operand, e: Expr)
    requires Ready(m, s1) && e.Given? && ShapedBlock(Bent(m), e.thenBlock) && !ShapedBlock(m, e.thenBlock)
    ensures Broken(s1, AfterElse(AfterThen(s1, op, e.thenBlock), s1.Size(), e.elseExpr))
    decreases ReturnNest(e), 1, e, 1
  {
    hide Ready, Confined, Broken, Kept, Opened, OpenGiven, LowerBlock, JoinTo, MoveTo, ShapedBlock, LowerExpr;
    var n := s1.Size();
    var s2 := OpenGiven(s1, op);
    var s3 := LowerBlock(s2, e.thenBlock).0;
    var s4 := MoveTo(JoinTo(s3, n + 2), n + 1);
    OpenGivenFacts(m, s1, op);
    BreakBlock(m, s2, e.thenBlock);
    BrokenJoin(s2, s3, n + 2, n + 1);
    if e.elseExpr.Some? {
      ConfineExpr(s4, e.elseExpr.value);
    } else {
      ConfineRefl(s4);
    }
    StaysBroken(s2, s2, s4, OptLower(s4, e.elseExpr));
    BrokenJoin(s2, OptLower(s4, e.elseExpr), n + 2, n + 2);
    BrokenSince(s1, s2, MoveTo(JoinTo(OptLower(s4, e.elseExpr), n + 2), n + 2));
  }

  lemma {:induction false} BreakElse(m: Mode, s1: State, s4: State, e: Expr)
    requires Ready(m, s4) && e.Given? && e.elseExpr.Some? && s1.Size() + 2 < s4.Size()
    requires Shaped(Bent(m), e.elseExpr.value) && !Shaped(m, e.elseExpr.value)
    ensures Broken(s1, AfterElse(s4, s1.Size(), e.elseExpr))
    decreases ReturnNest(e), 1, e, 1
  {
    hide Ready, Broken, JoinTo, MoveTo, Shaped, LowerExpr;
    var n := s1.Size();
    var s5 := LowerExpr(s4, e.elseExpr.value).0;
    BreakExpr(m, s4, e.elseExpr.value);
    BrokenJoin(s4, s5, n + 2, n + 2);
    BrokenSince(s1, s4, MoveTo(JoinTo(s5, n + 2), n + 2));
  }

  lemma {:induction false} BentWhile(m: Mode, e: Expr)
    requires e.While? && Shaped(Bent(m), e) && !Shaped(m, e)
    ensures ShapedOperand(Bent(m), e.cond) && ShapedBlock(Bent(m), e.body)
    ensures ShapedOperand(m, e.cond) && Straight(m.check, e.cond) ==> !ShapedBlock(m, e.body)
  {
    hide ShapedOperand, ShapedBlock, Straight;
  }

  lemma {:induction false} BreakWhile(m: Mode, s: State, e: Expr)
    requires Ready(m, s) && Shaped(Bent(m), e) && !Shaped(m, e) && e.While?
    ensures Broken(s, LowerExpr(s, e).0)
    decreases ReturnNest(e), 1, e, 2
  {
    hide Ready, Confined, BrokenBy, Grows, Kept, OpenWhile, BranchWhile, LowerExpr, LowerOperand, LowerBlock, JoinTo,
      MoveTo, MovedOn, Shaped, ShapedBlock, Coherent;
    var c := s.Size();
    var s1 := OpenWhile(s);
    var (s2, op) := LowerOperand(s1, e.cond);
    var s3 := BranchWhile(s2, c, op);
    BentWhile(m, e);
    ReadyIs(m, s);
    OpenWhileFacts(m, s);
    ReadyIs(m, s1);
    WhileLowered(s, e);
    if !ShapedOperand(m, e.cond) {
      BreakOperand(m, s1, e.cond);
      BrokenBranch(s1, s2, c, op);
      var b: BlockId, d: BlockId :| BrokenBy(s1, s3, b, d);
      BrokenNew(s1, s3, b, d);
      BreakAround(s, s1, s3, e, b, d);
    } else {
      GrowOperand(m, s1, e.cond);
      StillReady(m, s1, s2);
      ReadyIs(m, s2);
      MovesOperand(m, s1, e.cond);
      if Straight(m.check, e.cond) {
        BreakLoop(m, s, s1, s2, op, e);
      } else {
        BranchBreaks(s, s1, s2, op);
        BreakAround(s, s, s3, e, s2.cur, c);
      }
    }
  }

  // The body and the jump back leave what is broken as it is.
  lemma {:induction false} BreakAround(s: State, a: State, s3: State, e: Expr, b: BlockId, d: BlockId)
    requires e.While? && s.Size() <= a.Size() && BrokenBy(a, s3, b, d) && s.Size() + 2 < s3.Size()
    requires b != s.Size() + 2 && d != s.Size() + 2
    ensures Broken(s, MoveTo(JoinTo(LowerBlock(s3, e.body).0, s.Size()), s.Size() + 2))
  {
    var s4 := LowerBlock(s3, e.body).0;
    ConfineBlock(s3, e.body);
    hide LowerBlock;
    assert BrokenBy(s, s4, b, d);
    assert BrokenBy(s, MoveTo(JoinTo(s4, s.Size()), s.Size() + 2), b, d);
  }

  lemma {:induction false} BreakLoop(m: Mode, s: State, s1: State, s2: State, op: Operand, e: Expr)
    requires e.While? && ShapedBlock(Bent(m), e.body) && !ShapedBlock(m, e.body)
    requires s1 == OpenWhile(s) && Ready(m, s1) && s1.cur == s.Size() && s1.body.blocks[s.Size() + 1].term.None?
    requires Ready(m, s2) && Grows(m, s1, s2, false) && s2.cur == s1.cur
    ensures Broken(s, MoveTo(JoinTo(LowerBlock(BranchWhile(s2, s.Size(), op), e.body).0, s.Size()), s.Size() + 2))
    decreases ReturnNest(e), 1, e, 1
  {
    hide Ready, Broken, Grows, Kept, OpenWhile, BranchWhile, LowerBlock, JoinTo, MoveTo;
    var c := s.Size();
    KeepsBlock(m, s1, s2, false, c + 2);
    KeepsBlock(m, s1, s2, false, c + 1);
    var s3 := BranchWhile(s2, c, op);
    BranchWhileFacts(m, s2, c, op);
    var s4 := LowerBlock(s3, e.body).0;
    BreakBlock(m, s3, e.body);
    BrokenJoin(s3, s4, c, c + 2);
    BrokenSince(s, s3, MoveTo(JoinTo(s4, c), c + 2));
  }

  lemma {:induction false} BreakBlock(m: Mode, s: State, b: HBlock)
    requires Ready(m, s) && ShapedBlock(Bent(m), b) && !ShapedBlock(m, b)
    ensures Broken(s, LowerBlock(s, b).0)
    decreases ReturnNestBlock(b), 1, b
  {
    hide Ready, Confined, Broken, Grows;
    var s1 := LowerStmts(s, b.stmts);
    match b.tail
    case None => BreakStmts(m, s, b.stmts, true);
    case Some(e) =>
      ConfineExpr(s1, e);
      if ShapedStmts(m, b.stmts, false) {
        GrowStmts(m, s, b.stmts, false);
        NoExit(m, b.stmts);
        StillReady(m, s, s1);
        BreakExpr(m, s1, e);
        BrokenSince(s, s1, LowerExpr(s1, e).0);
      } else {
        BreakStmts(m, s, b.stmts, false);
        StaysBroken(s, s, s1, LowerExpr(s1, e).0);
      }
  }

  lemma {:induction false} BreakStmts(m: Mode, s: State, ss: seq<Stmt>, mayExit: bool)
    requires Ready(m, s) && ShapedStmts(Bent(m), ss, mayExit) && !ShapedStmts(m, ss, mayExit)
    ensures Broken(s, LowerStmts(s, ss))
    decreases ReturnNestStmts(ss), 1, ss
  {
    hide Ready, Confined, Broken, Grows;
    var s1 := LowerStmt(s, ss[0]);
    ConfineStmts(s1, ss[1..]);
    if ShapedStmt(m, ss[0]) {
      GrowStmt(m, s, ss[0]);
      assert !StmtExits(ss[0]);
      StillReady(m, s, s1);
      BreakStmts(m, s1, ss[1..], mayExit);
      BrokenSince(s, s1, LowerStmts(s1, ss[1..]));
    } else {
      BreakStmt(m, s, ss[0]);
      StaysBroken(s, s, s1, LowerStmts(s1, ss[1..]));
    }
  }

  lemma {:induction false} BreakStmt(m: Mode, s: State, st: Stmt)
    requires Ready(m, s) && ShapedStmt(Bent(m), st) && !ShapedStmt(m, st)
    ensures Broken(s, LowerStmt(s, st))
    decreases ReturnNestStmt(st), 1, st
  {
    hide Ready, Confined, Broken;
    match st
    case Let(name, v, ty, Some(e)) =>
      var (s1, rv) := LowerExpr(s, e);
      BreakExpr(m, s, e);
      ConfineRefl(s1);
      ConfineLet(s1, s1, name, v, ty, e);
      var (s2, l) := LetLocal(s1, name, v, ty, e);
      StaysBroken(s, s, s1, s2);
      BrokenPush(s, s, s2, Assign(l, rv));
    case AssignStmt(v, e) =>
      var (s1, rv) := LowerExpr(s, e);
      BreakExpr(m, s, e);
      ConfineRead(s1, s1, v);
      StaysBroken(s, s, s1, ReadVariable(s1, v).0);
      BrokenPush(s, s, ReadVariable(s1, v).0, Assign(ReadVariable(s1, v).1, rv));
    case ExprStmt(e) => BreakExpr(m, s, e);
    case _ =>
  }

  // ---- Whole forges ----

  /** Every block has ended. */
  ghost predicate AllEnd(body: MirBody) {
    forall b: BlockId :: b < |body.blocks| ==> body.blocks[b].term.Some?
  }

  /**
   A forge with nothing behind a return, while conditions of any form: its graph is coherent if and only if
   every while condition that is lowered is straight, with checks those of the `ensures` clauses behind a
   returned value included, and likewise every block has ended.
   */
  lemma {:induction false} CoherentIffStraight(m: Mode, f: Forge)
    requires ShapedForge(Bent(m), f) && ModeOf(m, f)
    ensures Coherent(LowerForge(m.check, f)) <==> ShapedForge(m, f)
    ensures AllEnd(LowerForge(m.check, f)) <==> ShapedForge(m, f)
  {
    if ShapedForge(m, f) {
      ForgeCoherent(m, f);
    } else {
      hide Ready, Broken, LowerBlock;
      StartReady(m, f);
      var s := StartForge(m.check, f);
      BreakBlock(m, s, f.body.value);
      ForgeBroken(m.check, f, s, LowerBody(s, f.body));
    }
  }

  lemma {:induction false} ForgeBroken(check: bool, f: Forge, s: State, s': State)
    requires ReturnNestAll(f.ensures_) == 0 && LowerForge(check, f) == FinishForge(s').body && Broken(s, s')
    ensures !Coherent(LowerForge(check, f)) && !AllEnd(LowerForge(check, f))
  {
    hide LowerForge;
    var body := FinishForge(s').body;
    var b: BlockId, c: BlockId :| BrokenBy(s, s', b, c);
    assert body.blocks[b].term.None?;
    var e :| e in s'.body.edges && e.src == c && e.dst !in Targets(s'.body.blocks[c].term);
    assert e.dst in Successors(body.edges, c);
    assert !CoherentAt(body, c);
  }
}
