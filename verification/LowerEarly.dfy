/**
 Returns that leave a zone in the middle.  Lowering puts the exit marker of a zone into the block that is
 current when the zone's body is done.  A return directly inside the zone still gets it, before its
 terminator; a return under a given or while inside the zone sits in a block that was left before.
 */
module LowerEarly {
  import opened Mir
  import opened Hir
  import opened LowerSpec
  import opened Fragment
  import opened LowerFrame
  import opened LowerShape

  // Where code stands: inside some zone; and under a given or while that is inside a zone.
  datatype Place = Place(inZone: bool, trapped: bool) {
    function Inside(): Place {
      Place(true, trapped)
    }

    function Branch(): Place {
      Place(inZone, inZone)
    }
  }

  const OUTSIDE := Place(false, false)

  // The blocks in which trapped self tail calls and other trapped returns end.
  datatype Outs = Outs(jumps: set<BlockId>, leaves: set<BlockId>)

  const NO_OUTS := Outs({}, {})

  function WithOut(o: Outs, p: Place, tail: bool, b: BlockId): Outs {
    if !p.trapped then o
    else if tail then o.(jumps := o.jumps + {b})
    else o.(leaves := o.leaves + {b})
  }

  // ---- The blocks in which trapped returns end, found by walking as lowering does ----

  function OutsExpr(s: State, e: Expr, p: Place, o: Outs): Outs
    decreases ReturnNest(e), 1, e, 1
  {
    match e
    case Lit(_) => o
    case Ident(_, _, _) => o
    case Bin(_, l, r, _) => OutsExpr(LowerOperand(s, l).0, r, p, OutsExpr(s, l, p, o))
    case Un(_, x, _) => OutsExpr(s, x, p, o)
    case CallExpr(_, args, reqs, _) =>
      var o1 := OutsOperands(s, args, p, o);
      if s.checkContracts then OutsAsserts(LowerOperands(s, args).0, reqs, p, o1) else o1
    case ReturnExpr(_) => OutsReturn(s, e, p, o)
    case Zone(z, b, _) => OutsBlock(Push(s, ZoneEnter(z)), b, p.Inside(), o)
    case Given(c, t, el, _) =>
      var (s1, op) := LowerOperand(s, c);
      var o2 := OutsBlock(OpenGiven(s1, op), t, p.Branch(), OutsExpr(s, c, p, o));
      (match el case None => o2 case Some(x) => OutsExpr(AfterThen(s1, op, t), x, p.Branch(), o2))
    case While(c, b) =>
      var (s1, op) := LowerOperand(OpenWhile(s), c);
      OutsBlock(BranchWhile(s1, s.Size(), op), b, p.Branch(), OutsExpr(OpenWhile(s), c, p, o))
  }

  function OutsReturn(s: State, e: Expr, p: Place, o: Outs): Outs
    requires e.ReturnExpr?
    decreases ReturnNest(e), 1, e, 0
  {
    var b := LowerReturn(s, e).0.cur;
    match e.result
    case None => WithOut(o, p, false, b)
    case Some(x) =>
      if IsSelfTailCall(s.forgeName, x) then
        assert ReturnNestAll(x.args) <= ReturnNest(x);
        WithOut(OutsOperands(s, x.args, p, o), p, true, b)
      else
        var o1 := OutsExpr(s, x, p, o);
        var s1 := LowerOperand(s, x).0;
        WithOut(if s.checkContracts then OutsClauses(s1, s.ensures_, x, p, o1) else o1, p, false, b)
  }

  function OutsOperands(s: State, es: seq<Expr>, p: Place, o: Outs): Outs
    decreases ReturnNestAll(es), 1, es
  {
    if es == [] then o else OutsOperands(LowerOperand(s, es[0]).0, es[1..], p, OutsExpr(s, es[0], p, o))
  }

  function OutsAsserts(s: State, es: seq<Expr>, p: Place, o: Outs): Outs
    decreases ReturnNestAll(es), 1, es
  {
    if es == [] then o
    else
      var (s1, op) := LowerOperand(s, es[0]);
      OutsAsserts(Push(s1, Assert(op, PRECONDITION)), es[1..], p, OutsExpr(s, es[0], p, o))
  }

  function OutsClauses(s: State, clauses: Clauses, result: Expr, p: Place, o: Outs): Outs
    decreases 1 + ReturnNest(result), 0, clauses
  {
    if clauses == [] then o
    else
      SubstNest(clauses[0], result);
      var c := SubstResult(clauses[0], result);
      var (s1, op) := LowerOperand(s, c);
      OutsClauses(Push(s1, Assert(op, POSTCONDITION)), clauses[1..], result, p, OutsExpr(s, c, p, o))
  }

  function OutsBlock(s: State, b: HBlock, p: Place, o: Outs): Outs
    decreases ReturnNestBlock(b), 1, b
  {
    var o1 := OutsStmts(s, b.stmts, p, o);
    match b.tail
    case None => o1
    case Some(e) => OutsExpr(LowerStmts(s, b.stmts), e, p, o1)
  }

  function OutsStmts(s: State, ss: seq<Stmt>, p: Place, o: Outs): Outs
    decreases ReturnNestStmts(ss), 1, ss
  {
    if ss == [] then o else OutsStmts(LowerStmt(s, ss[0]), ss[1..], p, OutsStmt(s, ss[0], p, o))
  }

  function OutsStmt(s: State, st: Stmt, p: Place, o: Outs): Outs
    decreases ReturnNestStmt(st), 1, st
  {
    match st
    case Let(_, _, _, None) => o
    case Let(_, _, _, Some(e)) => OutsExpr(s, e, p, o)
    case AssignStmt(_, e) => OutsExpr(s, e, p, o)
    case ExprStmt(e) => OutsExpr(s, e, p, o)
  }

  function OutsForge(check: bool, f: Forge): Outs
    requires ReturnNestAll(f.ensures_) == 0
  {
    match f.body
    case None => NO_OUTS
    case Some(b) => OutsBlock(StartForge(check, f), b, OUTSIDE, NO_OUTS)
  }

  // ---- Code without trapped returns ----

  // Which trapped returns are absent: self tail calls, or all others.
  datatype Avoid = Avoid(jumps: bool, leaves: bool)

  predicate Clear(k: Avoid, m: Mode, e: Expr, p: Place) {
    match e
    case Lit(_) => true
    case Ident(_, _, _) => true
    case Bin(_, l, r, _) => Clear(k, m, l, p) && Clear(k, m, r, p)
    case Un(_, x, _) => Clear(k, m, x, p)
    case CallExpr(_, args, reqs, _) => ClearAll(k, m, args, p) && (m.check ==> ClearAll(k, m, reqs, p))
    case Given(c, t, el, _) =>
      && Clear(k, m, c, p) && ClearBlock(k, m, t, p.Branch())
      && (match el case None => true case Some(x) => Clear(k, m, x, p.Branch()))
    case While(c, b) => Clear(k, m, c, p) && ClearBlock(k, m, b, p.Branch())
    case ReturnExpr(None) => p.trapped ==> !k.leaves
    case ReturnExpr(Some(x)) =>
      if IsSelfTailCall(m.forgeName, x) then (p.trapped ==> !k.jumps) && ClearAll(k, m, x.args, p)
      else (p.trapped ==> !k.leaves) && Clear(k, m, x, p)
    case Zone(_, b, _) => ClearBlock(k, m, b, p.Inside())
  }

  predicate ClearAll(k: Avoid, m: Mode, es: seq<Expr>, p: Place) {
    es == [] || (Clear(k, m, es[0], p) && ClearAll(k, m, es[1..], p))
  }

  predicate ClearBlock(k: Avoid, m: Mode, b: HBlock, p: Place) {
    ClearStmts(k, m, b.stmts, p) && (match b.tail case None => true case Some(e) => Clear(k, m, e, p))
  }

  predicate ClearStmts(k: Avoid, m: Mode, ss: seq<Stmt>, p: Place) {
    ss == [] || (ClearStmt(k, m, ss[0], p) && ClearStmts(k, m, ss[1..], p))
  }

  predicate ClearStmt(k: Avoid, m: Mode, st: Stmt, p: Place) {
    match st
    case Let(_, _, _, None) => true
    case Let(_, _, _, Some(e)) => Clear(k, m, e, p)
    case AssignStmt(_, e) => Clear(k, m, e, p)
    case ExprStmt(e) => Clear(k, m, e, p)
  }

  /** No return of kind `k` lies under a given or while that is inside a zone. */
  predicate ClearForge(k: Avoid, m: Mode, f: Forge) {
    f.body.Some? ==> ClearBlock(k, m, f.body.value, OUTSIDE)
  }

  /** Clauses have no returns at all. */
  lemma {:induction false} ReturnFreeClear(k: Avoid, m: Mode, e: Expr, p: Place)
    requires ReturnNest(e) == 0
    ensures Clear(k, m, e, p)
    decreases e
  {
    match e
    case Bin(_, l, r, _) => ReturnFreeClear(k, m, l, p); ReturnFreeClear(k, m, r, p);
    case Un(_, x, _) => ReturnFreeClear(k, m, x, p);
    case CallExpr(_, args, reqs, _) =>
      ReturnFreeClearAll(k, m, args, p);
      ReturnFreeClearAll(k, m, reqs, p);
    case Given(c, t, el, _) =>
      ReturnFreeClear(k, m, c, p);
      ReturnFreeClearBlock(k, m, t, p.Branch());
      if el.Some? {
        ReturnFreeClear(k, m, el.value, p.Branch());
      }
    case While(c, b) =>
      ReturnFreeClear(k, m, c, p);
      ReturnFreeClearBlock(k, m, b, p.Branch());
    case Zone(_, b, _) => ReturnFreeClearBlock(k, m, b, p.Inside());
    case _ =>
  }

  lemma {:induction false} ReturnFreeClearAll(k: Avoid, m: Mode, es: seq<Expr>, p: Place)
    requires ReturnNestAll(es) == 0
    ensures ClearAll(k, m, es, p)
    decreases es
  {
    if es != [] {
      ReturnFreeClear(k, m, es[0], p);
      ReturnFreeClearAll(k, m, es[1..], p);
    }
  }

  lemma {:induction false} ReturnFreeClearBlock(k: Avoid, m: Mode, b: HBlock, p: Place)
    requires ReturnNestBlock(b) == 0
    ensures ClearBlock(k, m, b, p)
    decreases b
  {
    ReturnFreeClearStmts(k, m, b.stmts, p);
    if b.tail.Some? {
      ReturnFreeClear(k, m, b.tail.value, p);
    }
  }

  lemma {:induction false} ReturnFreeClearStmts(k: Avoid, m: Mode, ss: seq<Stmt>, p: Place)
    requires ReturnNestStmts(ss) == 0
    ensures ClearStmts(k, m, ss, p)
    decreases ss
  {
    if ss != [] {
      ReturnFreeClearStmt(k, m, ss[0], p);
      ReturnFreeClearStmts(k, m, ss[1..], p);
    }
  }

  lemma {:induction false} ReturnFreeClearStmt(k: Avoid, m: Mode, st: Stmt, p: Place)
    requires ReturnNestStmt(st) == 0
    ensures ClearStmt(k, m, st, p)
    decreases st
  {
    match st
    case Let(_, _, _, Some(e)) => ReturnFreeClear(k, m, e, p);
    case Let(_, _, _, None) =>
    case AssignStmt(_, e) => ReturnFreeClear(k, m, e, p);
    case ExprStmt(e) => ReturnFreeClear(k, m, e, p);
  }

  lemma {:induction false} SubstClear(k: Avoid, m: Mode, c: Expr, result: Expr, p: Place)
    requires ReturnNest(c) == 0 && Clear(k, m, result, p)
    ensures Clear(k, m, SubstResult(c, result), p)
    decreases c
  {
    match c
    case Ident(_, _, _) =>
    case Bin(_, l, r, _) => SubstClear(k, m, l, result, p); SubstClear(k, m, r, result, p);
    case Un(_, x, _) => SubstClear(k, m, x, result, p);
    case CallExpr(_, args, reqs, _) =>
      SubstClearAll(k, m, args, result, p);
      SubstClearAll(k, m, reqs, result, p);
    case _ => ReturnFreeClear(k, m, c, p);
  }

  lemma {:induction false} SubstClearAll(k: Avoid, m: Mode, cs: seq<Expr>, result: Expr, p: Place)
    requires ReturnNestAll(cs) == 0 && Clear(k, m, result, p)
    ensures ClearAll(k, m, SubstResultAll(cs, result), p)
    decreases cs
  {
    if cs != [] {
      SubstClear(k, m, cs[0], result, p);
      SubstClearAll(k, m, cs[1..], result, p);
      assert SubstResultAll(cs, result)[1..] == SubstResultAll(cs[1..], result);
    }
  }

  // ---- It adds no block to those above ----

  ghost predicate Setting(m: Mode, s: State) {
    s.checkContracts == m.check && s.forgeName == m.forgeName
  }

  ghost predicate SameOuts(k: Avoid, o: Outs, o': Outs) {
    (k.jumps ==> o'.jumps == o.jumps) && (k.leaves ==> o'.leaves == o.leaves)
  }

  lemma {:induction false} SettingKept(m: Mode, s: State, s': State)
    requires Setting(m, s) && Confined(s, s')
    ensures Setting(m, s')
  {
  }

  lemma {:induction false} ClearExpr(k: Avoid, m: Mode, s: State, e: Expr, p: Place, o: Outs)
    requires Setting(m, s) && Clear(k, m, e, p)
    ensures SameOuts(k, o, OutsExpr(s, e, p, o))
    decreases ReturnNest(e), 1, e, 1
  {
    hide Setting, Confined;
    match e
    case Lit(_) =>
    case Ident(_, _, _) =>
    case Bin(_, l, r, _) =>
      ClearOperand(k, m, s, l, p, o);
      ClearExpr(k, m, LowerOperand(s, l).0, r, p, OutsExpr(s, l, p, o));
    case Un(_, x, _) => ClearExpr(k, m, s, x, p, o);
    case CallExpr(_, args, reqs, _) =>
      ClearOperands(k, m, s, args, p, o);
      ConfineOperands(s, args);
      SettingKept(m, s, LowerOperands(s, args).0);
      if s.checkContracts {
        SettingIs(m, s);
        ClearAsserts(k, m, LowerOperands(s, args).0, reqs, p, OutsOperands(s, args, p, o));
      }
    case ReturnExpr(_) => ClearReturn(k, m, s, e, p, o);
    case Zone(z, b, _) =>
      ConfineRefl(s);
      ConfinePush(s, s, ZoneEnter(z));
      SettingKept(m, s, Push(s, ZoneEnter(z)));
      ClearIn(k, m, Push(s, ZoneEnter(z)), b, p.Inside(), o);
    case Given(c, t, el, _) => ClearGiven(k, m, s, e, p, o);
    case While(c, b) =>
      var s1 := OpenWhile(s);
      var (s2, op) := LowerOperand(s1, c);
      ConfineOpen(s, op);
      SettingKept(m, s, s1);
      ClearExpr(k, m, s1, c, p, o);
      ConfineOperand(s1, c);
      ConfinedTrans(s, s1, s2);
      ConfineBranch(s, s2, s.Size(), op);
      SettingKept(m, s, BranchWhile(s2, s.Size(), op));
      ClearIn(k, m, BranchWhile(s2, s.Size(), op), b, p.Branch(), OutsExpr(s1, c, p, o));
  }

  lemma {:induction false} SettingIs(m: Mode, s: State)
    requires Setting(m, s)
    ensures s.checkContracts == m.check && s.forgeName == m.forgeName
  {
  }

  lemma {:induction false} ClearOperand(k: Avoid, m: Mode, s: State, e: Expr, p: Place, o: Outs)
    requires Setting(m, s) && Clear(k, m, e, p)
    ensures SameOuts(k, o, OutsExpr(s, e, p, o)) && Setting(m, LowerOperand(s, e).0)
    decreases ReturnNest(e), 1, e, 2
  {
    hide Setting, Confined;
    ClearExpr(k, m, s, e, p, o);
    ConfineOperand(s, e);
    SettingKept(m, s, LowerOperand(s, e).0);
  }

  lemma {:induction false} ClearOperands(k: Avoid, m: Mode, s: State, es: seq<Expr>, p: Place, o: Outs)
    requires Setting(m, s) && ClearAll(k, m, es, p)
    ensures SameOuts(k, o, OutsOperands(s, es, p, o))
    decreases ReturnNestAll(es), 1, es
  {
    hide Setting;
    if es != [] {
      ClearOperand(k, m, s, es[0], p, o);
      ClearOperands(k, m, LowerOperand(s, es[0]).0, es[1..], p, OutsExpr(s, es[0], p, o));
    }
  }

  lemma {:induction false} ClearAsserts(k: Avoid, m: Mode, s: State, es: seq<Expr>, p: Place, o: Outs)
    requires Setting(m, s) && ClearAll(k, m, es, p)
    ensures SameOuts(k, o, OutsAsserts(s, es, p, o))
    decreases ReturnNestAll(es), 1, es
  {
    hide Setting, Confined;
    if es != [] {
      var (s1, op) := LowerOperand(s, es[0]);
      ClearOperand(k, m, s, es[0], p, o);
      ConfineRefl(s1);
      ConfinePush(s1, s1, Assert(op, PRECONDITION));
      SettingKept(m, s1, Push(s1, Assert(op, PRECONDITION)));
      ClearAsserts(k, m, Push(s1, Assert(op, PRECONDITION)), es[1..], p, OutsExpr(s, es[0], p, o));
    }
  }

  lemma {:induction false} ClearClauses(k: Avoid, m: Mode, s: State, clauses: Clauses, result: Expr, p: Place, o: Outs)
    requires Setting(m, s) && Clear(k, m, result, p)
    ensures SameOuts(k, o, OutsClauses(s, clauses, result, p, o))
    decreases 1 + ReturnNest(result), 0, clauses
  {
    hide Setting, Confined;
    if clauses != [] {
      SubstNest(clauses[0], result);
      SubstClear(k, m, clauses[0], result, p);
      var c := SubstResult(clauses[0], result);
      var (s1, op) := LowerOperand(s, c);
      ClearOperand(k, m, s, c, p, o);
      ConfineRefl(s1);
      ConfinePush(s1, s1, Assert(op, POSTCONDITION));
      SettingKept(m, s1, Push(s1, Assert(op, POSTCONDITION)));
      ClearClauses(k, m, Push(s1, Assert(op, POSTCONDITION)), clauses[1..], result, p, OutsExpr(s, c, p, o));
    }
  }

  lemma {:induction false} ClearReturn(k: Avoid, m: Mode, s: State, e: Expr, p: Place, o: Outs)
    requires e.ReturnExpr? && Setting(m, s) && Clear(k, m, e, p)
    ensures SameOuts(k, o, OutsReturn(s, e, p, o))
    decreases ReturnNest(e), 1, e, 0
  {
    hide Setting, LowerReturn;
    SettingIs(m, s);
    match e.result
    case None =>
    case Some(x) =>
      if IsSelfTailCall(s.forgeName, x) {
        assert ReturnNestAll(x.args) <= ReturnNest(x);
        ClearOperands(k, m, s, x.args, p, o);
      } else {
        ClearOperand(k, m, s, x, p, o);
        if s.checkContracts {
          ClearClauses(k, m, LowerOperand(s, x).0, s.ensures_, x, p, OutsExpr(s, x, p, o));
        }
      }
  }

  lemma {:induction false} ClearGiven(k: Avoid, m: Mode, s: State, e: Expr, p: Place, o: Outs)
    requires e.Given? && Setting(m, s) && Clear(k, m, e, p)
    ensures SameOuts(k, o, OutsExpr(s, e, p, o))
    decreases ReturnNest(e), 1, e, 0
  {
    hide Setting, Confined, AfterThen, OpenGiven;
    var (s1, op) := LowerOperand(s, e.cond);
    var o1 := OutsExpr(s, e.cond, p, o);
    ClearOperand(k, m, s, e.cond, p, o);
    ConfineOpen(s1, op);
    SettingKept(m, s1, OpenGiven(s1, op));
    ClearIn(k, m, OpenGiven(s1, op), e.thenBlock, p.Branch(), o1);
    if e.elseExpr.Some? {
      ConfineThen(s1, op, e);
      SettingKept(m, s1, AfterThen(s1, op, e.thenBlock));
      ClearExpr(k, m, AfterThen(s1, op, e.thenBlock), e.elseExpr.value, p.Branch(),
                OutsBlock(OpenGiven(s1, op), e.thenBlock, p.Branch(), o1));
    }
  }

  lemma {:induction false} ClearIn(k: Avoid, m: Mode, s: State, b: HBlock, p: Place, o: Outs)
    requires Setting(m, s) && ClearBlock(k, m, b, p)
    ensures SameOuts(k, o, OutsBlock(s, b, p, o))
    decreases ReturnNestBlock(b), 1, b
  {
    hide Setting, Confined;
    ClearList(k, m, s, b.stmts, p, o);
    if b.tail.Some? {
      ConfineStmts(s, b.stmts);
      SettingKept(m, s, LowerStmts(s, b.stmts));
      ClearExpr(k, m, LowerStmts(s, b.stmts), b.tail.value, p, OutsStmts(s, b.stmts, p, o));
    }
  }

  lemma {:induction false} ClearList(k: Avoid, m: Mode, s: State, ss: seq<Stmt>, p: Place, o: Outs)
    requires Setting(m, s) && ClearStmts(k, m, ss, p)
    ensures SameOuts(k, o, OutsStmts(s, ss, p, o))
    decreases ReturnNestStmts(ss), 1, ss
  {
    hide Setting, Confined;
    if ss != [] {
      ClearOne(k, m, s, ss[0], p, o);
      ConfineStmt(s, ss[0]);
      SettingKept(m, s, LowerStmt(s, ss[0]));
      ClearList(k, m, LowerStmt(s, ss[0]), ss[1..], p, OutsStmt(s, ss[0], p, o));
    }
  }

  lemma {:induction false} ClearOne(k: Avoid, m: Mode, s: State, st: Stmt, p: Place, o: Outs)
    requires Setting(m, s) && ClearStmt(k, m, st, p)
    ensures SameOuts(k, o, OutsStmt(s, st, p, o))
    decreases ReturnNestStmt(st), 1, st
  {
    hide Setting;
    match st
    case Let(_, _, _, None) =>
    case Let(_, _, _, Some(e)) => ClearExpr(k, m, s, e, p, o);
    case AssignStmt(_, e) => ClearExpr(k, m, s, e, p, o);
    case ExprStmt(e) => ClearExpr(k, m, s, e, p, o);
  }

  lemma {:induction false} StartSetting(m: Mode, f: Forge)
    requires ReturnNestAll(f.ensures_) == 0 && m.forgeName == f.name
    ensures Setting(m, StartForge(m.check, f))
  {
    var s0 := Lowering(MirBody([EMPTY_BLOCK, EMPTY_BLOCK], [], 0, [], |f.params|),
                       0, 1, f.name, ParamDefs(f.params), map[], m.check, f.ensures_);
    BindParamsFacts(s0, f.params);
  }

  /** A forge without trapped returns of a kind has no block in which one ends. */
  lemma {:induction false} ClearForgeOuts(k: Avoid, m: Mode, f: Forge)
    requires ReturnNestAll(f.ensures_) == 0 && m.forgeName == f.name && ClearForge(k, m, f)
    ensures (k.jumps ==> OutsForge(m.check, f).jumps == {}) && (k.leaves ==> OutsForge(m.check, f).leaves == {})
  {
    StartSetting(m, f);
    if f.body.Some? {
      ClearIn(k, m, StartForge(m.check, f), f.body.value, OUTSIDE, NO_OUTS);
    }
  }
}
