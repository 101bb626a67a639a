/**
 Structural invariants of lowering: what one lowering step may touch, and that the graph's edges
 agree with the terminators at every step.
 */
module LowerShape {
  import opened Common
  import opened Mir
  import opened Hir
  import opened LowerSpec
  import opened Fragment
  import opened LowerFrame

  /** Variables own distinct, existing slots. */
  ghost predicate VarsOk(s: State) {
    && (forall v :: v in s.vars ==> s.vars[v] < |s.body.locals|)
    && (forall v, w :: v in s.vars && w in s.vars && s.vars[v] == s.vars[w] ==> v == w)
  }

  /** Variables keep their slots; variables seen for the first time get new ones. */
  ghost predicate VarsGrow(s: State, s': State) {
    && |s'.body.locals| >= |s.body.locals|
    && (forall v :: v in s.vars ==> v in s'.vars && s'.vars[v] == s.vars[v])
    && (forall v :: v in s'.vars && v !in s.vars ==> s'.vars[v] >= |s.body.locals|)
  }

  /**
   Only the current block and new blocks change; the current block only gets longer.  Afterwards every
   block touched has ended, except the new current block, which has ended iff `exits`.
   */
  ghost predicate BlocksGrow(s: State, s': State, exits: bool) {
    && s'.Size() >= s.Size()
    && (s'.cur == s.cur || s'.cur >= s.Size())
    && (forall i :: 0 <= i < s.Size() && i != s.cur ==> s'.body.blocks[i] == s.body.blocks[i])
    && s.Cur().instrs <= s'.body.blocks[s.cur].instrs
    && (s'.cur != s.cur ==> s'.body.blocks[s.cur].term.Some?)
    && (forall i :: s.Size() <= i < s'.Size() && i != s'.cur ==> s'.body.blocks[i].term.Some?)
    && (s'.Cur().term.Some? <==> exits)
    && (exits ==> s'.Cur().term.value.Return? || s'.Cur().term.value == Goto(s.header))
  }

  ghost predicate Grows(m: Mode, s: State, s': State, exits: bool) {
    && SameSetup(s, s')
    && BlocksGrow(s, s', exits)
    && VarsOk(s')
    && |s'.body.locals| >= |s.body.locals|
    && (!m.allowTail ==> VarsGrow(s, s') && (exits ==> s'.Cur().term.value.Return?))
    && Coherent(s'.body)
  }

  /** A state from which well-shaped code may be lowered. */
  ghost predicate Ready(m: Mode, s: State) {
    && !m.bent
    && s.Cur().term.None?
    && Coherent(s.body)
    && VarsOk(s)
    && s.checkContracts == m.check && s.forgeName == m.forgeName
    && (m.check ==> (m.gives <==> ShapedOperands(m, s.ensures_)))
  }

  lemma {:induction false} ReadyIs(m: Mode, s: State)
    requires Ready(m, s)
    ensures !m.bent && s.checkContracts == m.check && s.forgeName == m.forgeName
    ensures s.Cur().term.None? && VarsOk(s) && Coherent(s.body)
  {
  }

  lemma {:induction false} KeepsBlock(m: Mode, s: State, s': State, exits: bool, b: BlockId)
    requires Grows(m, s, s', exits) && b < s.Size() && b != s.cur
    ensures b < s'.Size() && s'.body.blocks[b] == s.body.blocks[b] && s'.cur != b
    ensures s'.Cur().term.Some? <==> exits
  {
  }

  lemma {:induction false} GrowsRefl(m: Mode, s: State)
    requires Ready(m, s)
    ensures Grows(m, s, s, false)
  {
  }

  lemma {:induction false} GrowsTrans(m: Mode, a: State, b: State, c: State, exits: bool)
    requires Grows(m, a, b, false) && Grows(m, b, c, exits)
    ensures Grows(m, a, c, exits)
  {
  }

  lemma {:induction false} StillReady(m: Mode, s: State, s': State)
    requires Ready(m, s) && Grows(m, s, s', false)
    ensures Ready(m, s')
  {
  }

  // ---- Edits ----

  lemma {:induction false} SameGraph(body: MirBody, body': MirBody)
    requires Coherent(body) && body'.edges == body.edges && |body'.blocks| == |body.blocks|
    requires forall i :: 0 <= i < |body.blocks| ==> body'.blocks[i].term == body.blocks[i].term
    ensures Coherent(body')
  {
    forall b | 0 <= b < |body'.blocks|
      ensures CoherentAt(body', b)
    {
      assert CoherentAt(body, b);
    }
  }

  lemma {:induction false} PushGrows(m: Mode, a: State, s: State, exits: bool, ins: Instruction)
    requires Grows(m, a, s, exits)
    ensures Grows(m, a, Push(s, ins), exits)
  {
    SameGraph(s.body, Push(s, ins).body);
  }

  lemma {:induction false} NewLocalGrows(m: Mode, a: State, s: State, exits: bool, name: string, ty: Type)
    requires Grows(m, a, s, exits)
    ensures Grows(m, a, NewLocal(s, name, ty), exits)
  {
    SameGraph(s.body, NewLocal(s, name, ty).body);
  }

  /** A variable may be given the newest slot if it had none, or, with tail calls, in place of the one it had. */
  lemma {:induction false} BindGrows(m: Mode, a: State, s: State, exits: bool, name: string, ty: Type, v: DefId)
    requires Grows(m, a, s, exits)
    requires !m.allowTail ==> v !in s.vars
    ensures Grows(m, a, WriteVariable(NewLocal(s, name, ty), v, |s.body.locals|), exits)
  {
    NewLocalGrows(m, a, s, exits, name, ty);
  }

  lemma {:induction false} ReadVariableGrows(m: Mode, a: State, s: State, v: DefId)
    requires Grows(m, a, s, false)
    ensures Grows(m, a, ReadVariable(s, v).0, false)
    ensures var (s', l) := ReadVariable(s, v); v in s'.vars && s'.vars[v] == l
  {
    if v !in s.vars {
      BindGrows(m, a, s, false, DebugDef(v), Error, v);
    }
  }

  lemma {:induction false} LetLocalGrows(m: Mode, a: State, s: State, name: string, v: DefId, ty: Type, init: Expr)
    requires Grows(m, a, s, false)
    ensures Grows(m, a, LetLocal(s, name, v, ty, init).0, false)
    ensures var (s', l) := LetLocal(s, name, v, ty, init); v in s'.vars && s'.vars[v] == l
  {
    if v !in s.vars {
      BindGrows(m, a, s, false, name, if ty == Error then ExprType(init) else ty, v);
    }
  }

  lemma {:induction false} ToOperandGrows(m: Mode, a: State, s: State, rv: Rvalue)
    requires Grows(m, a, s, false)
    ensures Grows(m, a, ToOperand(s, rv).0, false)
  {
    if !rv.Use? {
      NewLocalGrows(m, a, s, false, "tmp", RvalueType(s.body.locals, rv));
      PushGrows(m, a, NewLocal(s, "tmp", RvalueType(s.body.locals, rv)), false, Assign(|s.body.locals|, rv));
    }
  }

  // ---- Graph edits ----

  lemma {:induction false} SuccessorsAppend(edges: seq<Edge>, e: Edge, b: BlockId)
    ensures Successors(edges + [e], b) == Successors(edges, b) + (if e.src == b then {e.dst} else {})
  {
    var more := edges + [e];
    assert forall x :: x in more <==> x in edges || x == e;
    forall t | t in Successors(more, b)
      ensures t in Successors(edges, b) + (if e.src == b then {e.dst} else {})
    {
      var x :| x in more && x.src == b && x.dst == t;
    }
    forall t | t in Successors(edges, b)
      ensures t in Successors(more, b)
    {
      var x :| x in edges && x.src == b && x.dst == t;
      assert x in more;
    }
    if e.src == b {
      assert e in more;
      assert e.dst in Successors(more, b);
    }
  }

  /** Ending an open block with a jump, edge included, keeps the graph coherent. */
  lemma {:induction false} LinkCoherent(s: State, target: BlockId)
    requires Coherent(s.body) && s.Cur().term.None? && target < s.Size()
    ensures Coherent(Terminate(AddEdge(s, s.cur, target, Unconditional), s.cur, Goto(target)).body)
  {
    var s' := Terminate(AddEdge(s, s.cur, target, Unconditional), s.cur, Goto(target));
    forall b | 0 <= b < s'.Size()
      ensures CoherentAt(s'.body, b)
    {
      assert CoherentAt(s.body, b);
      SuccessorsAppend(s.body.edges, Edge(s.cur, target, Unconditional), b);
    }
  }

  /** The same for a two-way branch out of the open block `c`. */
  lemma {:induction false} BranchCoherent(s: State, c: BlockId, op: Operand, t: BlockId, e: BlockId)
    requires Coherent(s.body) && c < s.Size() && s.body.blocks[c].term.None? && t < s.Size() && e < s.Size()
    ensures Coherent(Terminate(AddEdge(AddEdge(s, c, t, Conditional(true)), c, e, Conditional(false)),
                               c, SwitchInt(op, [(1, t)], e)).body)
  {
    var e1, e2 := Edge(c, t, Conditional(true)), Edge(c, e, Conditional(false));
    var s' := Terminate(AddEdge(AddEdge(s, c, t, Conditional(true)), c, e, Conditional(false)),
                        c, SwitchInt(op, [(1, t)], e));
    var cases := [(1, t)];
    assert (set x | x in cases :: x.1) == {t} by { assert cases[0] in cases; }
    forall b | 0 <= b < s'.Size()
      ensures CoherentAt(s'.body, b)
    {
      assert CoherentAt(s.body, b);
      SuccessorsAppend(s.body.edges, e1, b);
      SuccessorsAppend(s.body.edges + [e1], e2, b);
    }
  }

  lemma {:induction false} AddBlockCoherent(s: State)
    requires Coherent(s.body)
    ensures Coherent(AddBlock(s).body)
  {
    var s' := AddBlock(s);
    forall b | 0 <= b < s'.Size()
      ensures CoherentAt(s'.body, b)
    {
      if b < s.Size() {
        assert CoherentAt(s.body, b);
      } else {
        assert Successors(s.body.edges, b) == {};
      }
    }
  }

  lemma {:induction false} ReturnGrows(m: Mode, a: State, s: State, v: Option<Operand>)
    requires Grows(m, a, s, false)
    ensures Grows(m, a, Terminate(s, s.cur, Return(v)), true)
  {
    var s' := Terminate(s, s.cur, Return(v));
    forall b | 0 <= b < s'.Size()
      ensures CoherentAt(s'.body, b)
    {
      assert CoherentAt(s.body, b);
    }
  }

  lemma {:induction false} TailJumpGrows(m: Mode, a: State, s: State)
    requires Grows(m, a, s, false) && m.allowTail
    ensures Grows(m, a, Terminate(AddEdge(s, s.cur, s.header, Unconditional), s.cur, Goto(s.header)), true)
  {
    LinkCoherent(s, s.header);
  }

  lemma {:induction false} RebindGrows(m: Mode, a: State, s: State, defs: seq<DefId>, ops: seq<Operand>, i: nat)
    requires Grows(m, a, s, false) && m.allowTail && i <= |defs|
    ensures Grows(m, a, Rebind(s, defs, ops, i), false)
    decreases |defs| - i
  {
    if i < |defs| {
      if i >= |ops| {
        RebindGrows(m, a, s, defs, ops, i + 1);
      } else {
        var name, l := "tco_p" + Digits(i), |s.body.locals|;
        var s1 := NewLocal(s, name, Error);
        var s2 := Push(s1, Assign(l, Use(ops[i])));
        NewLocalGrows(m, a, s, false, name, Error);
        PushGrows(m, a, s1, false, Assign(l, Use(ops[i])));
        assert Grows(m, a, WriteVariable(s2, defs[i], l), false);
        RebindGrows(m, a, WriteVariable(s2, defs[i], l), defs, ops, i + 1);
      }
    }
  }

  // ---- Straight code stays in its block ----

  /** The current block is the same and has only got more instructions, in front of its terminator if it has one. */
  ghost predicate Appends(s: State, s': State) {
    && s'.cur == s.cur && s'.checkContracts == s.checkContracts
    && s'.Cur().term == s.Cur().term && s.Cur().instrs <= s'.Cur().instrs
  }

  lemma {:induction false} AppendsTrans(a: State, b: State, c: State)
    requires Appends(a, b) && Appends(b, c)
    ensures Appends(a, c)
  {
  }

  lemma {:induction false} AppendsPush(a: State, s: State, ins: Instruction)
    requires Appends(a, s)
    ensures Appends(a, Push(s, ins))
  {
  }

  // Slots and variables are not part of a block.
  lemma {:induction false} AppendsSame(a: State, s: State, s': State)
    requires Appends(a, s) && s'.cur == s.cur && s'.Cur() == s.Cur() && s'.checkContracts == s.checkContracts
    ensures Appends(a, s')
  {
  }

  lemma {:induction false} StraightStays(s: State, e: Expr)
    requires Straight(s.checkContracts, e)
    ensures Appends(s, LowerExpr(s, e).0)
    decreases e, 1
  {
    hide Appends;
    assert Appends(s, s) by { AppendsRefl(s); }
    match e
    case Lit(_) =>
    case Ident(_, v, _) => AppendsSame(s, s, ReadVariable(s, v).0);
    case Bin(_, l, r, _) =>
      var s1 := LowerOperand(s, l).0;
      StraightOperandStays(s, l);
      StraightOperandStays(s1, r);
      AppendsTrans(s, s1, LowerOperand(s1, r).0);
    case Un(_, x, _) => StraightOperandStays(s, x);
    case CallExpr(_, _, _, _) => StraightCallStays(s, e);
    case Zone(z, b, _) =>
      var s1 := Push(s, ZoneEnter(z));
      AppendsPush(s, s, ZoneEnter(z));
      StraightBlockStays(s1, b);
      AppendsTrans(s, s1, LowerBlock(s1, b).0);
      AppendsPush(s, LowerBlock(s1, b).0, ZoneExit(z));
    case _ =>
  }

  lemma {:induction false} AppendsRefl(s: State)
    ensures Appends(s, s)
  {
  }

  lemma {:induction false} CheckSame(s: State, s': State)
    requires Appends(s, s')
    ensures s'.checkContracts == s.checkContracts && s'.cur == s.cur
  {
  }

  lemma {:induction false} StraightCallStays(s: State, e: Expr)
    requires e.CallExpr? && Straight(s.checkContracts, e)
    ensures Appends(s, LowerExpr(s, e).0)
    decreases e, 0
  {
    hide Appends;
    var CallExpr(callee, args, reqs, retTy) := e;
    var (s1, ops) := LowerOperands(s, args);
    StraightOperandsStay(s, args);
    CheckSame(s, s1);
    var s2 := if s1.checkContracts then LowerAsserts(s1, reqs, PRECONDITION) else s1;
    if s1.checkContracts {
      StraightAssertsStay(s1, reqs, PRECONDITION);
      AppendsTrans(s, s1, s2);
    }
    assert LowerExpr(s, e) == LowerCall(s, e);
    hide LowerExpr;
    if retTy == Prim(Void) {
      AppendsPush(s, s2, Call(None, CalleeName(callee), ops));
    } else {
      AppendsSame(s, s2, NewLocal(s2, "call_tmp", retTy));
      AppendsPush(s, NewLocal(s2, "call_tmp", retTy), Call(Some(|s2.body.locals|), CalleeName(callee), ops));
    }
  }

  lemma {:induction false} StraightBlockStays(s: State, b: HBlock)
    requires StraightBlock(s.checkContracts, b)
    ensures Appends(s, LowerBlock(s, b).0)
    decreases b, 0
  {
    hide Appends;
    var s1 := LowerStmts(s, b.stmts);
    StraightStmtsStay(s, b.stmts);
    if b.tail.Some? {
      CheckSame(s, s1);
      StraightStays(s1, b.tail.value);
      AppendsTrans(s, s1, LowerExpr(s1, b.tail.value).0);
    }
  }

  lemma {:induction false} StraightOperandStays(s: State, e: Expr)
    requires Straight(s.checkContracts, e)
    ensures Appends(s, LowerOperand(s, e).0)
    ensures LowerOperand(s, e).0.cur == s.cur && LowerOperand(s, e).0.checkContracts == s.checkContracts
    decreases e, 2
  {
    hide Appends;
    StraightStays(s, e);
    var (s1, rv) := LowerExpr(s, e);
    if !rv.Use? {
      var s2 := NewLocal(s1, "tmp", RvalueType(s1.body.locals, rv));
      AppendsSame(s, s1, s2);
      AppendsPush(s, s2, Assign(|s1.body.locals|, rv));
    }
    CheckSame(s, LowerOperand(s, e).0);
  }

  lemma {:induction false} StraightOperandsStay(s: State, es: seq<Expr>)
    requires StraightAll(s.checkContracts, es)
    ensures Appends(s, LowerOperands(s, es).0)
    decreases es, 0
  {
    hide Appends;
    if es == [] {
      AppendsRefl(s);
    } else {
      var s1 := LowerOperand(s, es[0]).0;
      StraightOperandStays(s, es[0]);
      StraightOperandsStay(s1, es[1..]);
      AppendsTrans(s, s1, LowerOperands(s1, es[1..]).0);
    }
  }

  lemma {:induction false} StraightAssertsStay(s: State, es: seq<Expr>, msg: string)
    requires StraightAll(s.checkContracts, es)
    ensures Appends(s, LowerAsserts(s, es, msg))
    decreases es, 0
  {
    hide Appends;
    if es == [] {
      AppendsRefl(s);
    } else {
      var (s1, op) := LowerOperand(s, es[0]);
      var s2 := Push(s1, Assert(op, msg));
      StraightOperandStays(s, es[0]);
      AppendsPush(s, s1, Assert(op, msg));
      StraightAssertsStay(s2, es[1..], msg);
      AppendsTrans(s, s2, LowerAsserts(s2, es[1..], msg));
    }
  }

  lemma {:induction false} StraightStmtsStay(s: State, ss: seq<Stmt>)
    requires StraightStmts(s.checkContracts, ss)
    ensures Appends(s, LowerStmts(s, ss))
    decreases ss, 0
  {
    hide Appends;
    if ss == [] {
      AppendsRefl(s);
    } else {
      var s1 := LowerStmt(s, ss[0]);
      StraightStmtStays(s, ss[0]);
      CheckSame(s, s1);
      StraightStmtsStay(s1, ss[1..]);
      AppendsTrans(s, s1, LowerStmts(s1, ss[1..]));
    }
  }

  lemma {:induction false} StraightStmtStays(s: State, st: Stmt)
    requires StraightStmt(s.checkContracts, st)
    ensures Appends(s, LowerStmt(s, st))
    decreases st, 0
  {
    hide Appends, ExprType;
    match st
    case Let(_, _, _, None) => AppendsRefl(s);
    case Let(name, v, ty, Some(e)) =>
      var (s1, rv) := LowerExpr(s, e);
      StraightStays(s, e);
      var (s2, l) := LetLocal(s1, name, v, ty, e);
      AppendsSame(s, s1, s2);
      AppendsPush(s, s2, Assign(l, rv));
    case AssignStmt(v, e) =>
      var (s1, rv) := LowerExpr(s, e);
      StraightStays(s, e);
      var (s2, l) := ReadVariable(s1, v);
      AppendsSame(s, s1, s2);
      AppendsPush(s, s2, Assign(l, rv));
    case ExprStmt(e) => StraightStays(s, e);
  }

  // ---- Lowering ----

  lemma {:induction false} GrowExpr(m: Mode, s: State, e: Expr)
    requires Ready(m, s) && Shaped(m, e)
    ensures Grows(m, s, LowerExpr(s, e).0, Exits(e))
    decreases ReturnNest(e), 1, e, 3
  {
    match e
    case Lit(_) =>
    case Ident(_, v, _) => ReadVariableGrows(m, s, s, v);
    case Bin(_, l, r, _) =>
      var s1 := LowerOperand(s, l).0;
      GrowOperand(m, s, l);
      GrowOperand(m, s1, r);
      GrowsTrans(m, s, s1, LowerOperand(s1, r).0, false);
    case Un(_, x, _) => GrowOperand(m, s, x);
    case CallExpr(_, _, _, _) => GrowCall(m, s, e);
    case ReturnExpr(_) => GrowReturn(m, s, e);
    case Zone(z, b, _) =>
      var s1 := Push(s, ZoneEnter(z));
      PushGrows(m, s, s, false, ZoneEnter(z));
      GrowBlock(m, s1, b);
      var s2 := LowerBlock(s1, b).0;
      GrowsTrans(m, s, s1, s2, BlockExits(b));
      PushGrows(m, s, s2, BlockExits(b), ZoneExit(z));
    case Given(_, _, _, _) => GrowGiven(m, s, e);
    case While(_, _) => GrowWhile(m, s, e);
  }

  lemma {:induction false} GrowOperand(m: Mode, s: State, e: Expr)
    requires Ready(m, s) && ShapedOperand(m, e)
    ensures Grows(m, s, LowerOperand(s, e).0, false)
    decreases ReturnNest(e), 1, e, 4
  {
    GrowExpr(m, s, e);
    ToOperandGrows(m, s, LowerExpr(s, e).0, LowerExpr(s, e).1);
  }

  lemma {:induction false} GrowOperands(m: Mode, s: State, es: seq<Expr>)
    requires Ready(m, s) && ShapedOperands(m, es)
    ensures Grows(m, s, LowerOperands(s, es).0, false)
    decreases ReturnNestAll(es), 1, es
  {
    if es != [] {
      var s1 := LowerOperand(s, es[0]).0;
      GrowOperand(m, s, es[0]);
      GrowOperands(m, s1, es[1..]);
      GrowsTrans(m, s, s1, LowerOperands(s1, es[1..]).0, false);
    }
  }

  lemma {:induction false} GrowAsserts(m: Mode, s: State, es: seq<Expr>, msg: string)
    requires Ready(m, s) && ShapedOperands(m, es)
    ensures Grows(m, s, LowerAsserts(s, es, msg), false)
    decreases ReturnNestAll(es), 1, es
  {
    if es != [] {
      var (s1, op) := LowerOperand(s, es[0]);
      var s2 := Push(s1, Assert(op, msg));
      GrowOperand(m, s, es[0]);
      PushGrows(m, s, s1, false, Assert(op, msg));
      GrowAsserts(m, s2, es[1..], msg);
      GrowsTrans(m, s, s2, LowerAsserts(s2, es[1..], msg), false);
    }
  }

  lemma {:induction false} GrowClauses(m: Mode, s: State, clauses: Clauses, result: Expr)
    requires Ready(m, s) && ShapedOperands(m, clauses) && ShapedOperand(m, result)
    ensures Grows(m, s, LowerClauses(s, clauses, result), false)
    decreases 1 + ReturnNest(result), 0, clauses
  {
    if clauses != [] {
      var c := SubstResult(clauses[0], result);
      SubstNest(clauses[0], result);
      SubstShaped(m, clauses[0], result);
      var (s1, op) := LowerOperand(s, c);
      var s2 := Push(s1, Assert(op, POSTCONDITION));
      GrowOperand(m, s, c);
      PushGrows(m, s, s1, false, Assert(op, POSTCONDITION));
      GrowClauses(m, s2, clauses[1..], result);
      GrowsTrans(m, s, s2, LowerClauses(s2, clauses[1..], result), false);
    }
  }

  lemma {:induction false} GrowCall(m: Mode, s: State, e: Expr)
    requires Ready(m, s) && Shaped(m, e) && e.CallExpr?
    ensures Grows(m, s, LowerExpr(s, e).0, false)
    decreases ReturnNest(e), 1, e, 2
  {
    var CallExpr(callee, args, reqs, retTy) := e;
    var (s1, ops) := LowerOperands(s, args);
    GrowOperands(m, s, args);
    var s2 := if s1.checkContracts then LowerAsserts(s1, reqs, PRECONDITION) else s1;
    if m.check {
      GrowAsserts(m, s1, reqs, PRECONDITION);
      GrowsTrans(m, s, s1, s2, false);
    }
    if retTy == Prim(Void) {
      PushGrows(m, s, s2, false, Call(None, CalleeName(callee), ops));
    } else {
      var l := |s2.body.locals|;
      NewLocalGrows(m, s, s2, false, "call_tmp", retTy);
      PushGrows(m, s, NewLocal(s2, "call_tmp", retTy), false, Call(Some(l), CalleeName(callee), ops));
    }
  }

  lemma {:induction false} GrowReturn(m: Mode, s: State, e: Expr)
    requires Ready(m, s) && Shaped(m, e) && e.ReturnExpr?
    ensures Grows(m, s, LowerExpr(s, e).0, true)
    decreases ReturnNest(e), 1, e, 2
  {
    match e.result
    case None => ReturnGrows(m, s, s, None);
    case Some(x) =>
      if IsSelfTailCall(s.forgeName, x) {
        assert ReturnNestAll(x.args) <= ReturnNest(x);
        var (s1, ops) := LowerOperands(s, x.args);
        GrowOperands(m, s, x.args);
        RebindGrows(m, s, s1, s1.paramDefs, ops, 0);
        TailJumpGrows(m, s, Rebind(s1, s1.paramDefs, ops, 0));
      } else {
        var (s1, op) := LowerOperand(s, x);
        GrowOperand(m, s, x);
        if m.check {
          GrowClauses(m, s1, s1.ensures_, x);
          GrowsTrans(m, s, s1, LowerClauses(s1, s1.ensures_, x), false);
          ReturnGrows(m, s, LowerClauses(s1, s1.ensures_, x), Some(op));
        } else {
          ReturnGrows(m, s, s1, Some(op));
        }
      }
  }

  // What does not change in the parts of a state that lowering `a` to `s` is allowed to change.
  ghost predicate Kept(m: Mode, a: State, s: State) {
    && SameSetup(a, s) && VarsOk(s) && |s.body.locals| >= |a.body.locals|
    && (!m.allowTail ==> VarsGrow(a, s))
    && Coherent(s.body)
  }

  /** `s'` is `s` with its current block, ended or not, leading nowhere new but `target`; then moved to `next`. */
  ghost predicate Joined(s: State, s': State, target: BlockId, next: BlockId) {
    && s'.Size() == s.Size() && s'.cur == next
    && s'.body.blocks[s.cur].term == Some(if s.Cur().term.Some? then s.Cur().term.value else Goto(target))
    && s'.body.blocks[s.cur].instrs == s.Cur().instrs
    && (forall i :: 0 <= i < s.Size() && i != s.cur ==> s'.body.blocks[i] == s.body.blocks[i])
  }

  lemma {:induction false} JoinFacts(m: Mode, a: State, s: State, exits: bool, target: BlockId, next: BlockId)
    requires Grows(m, a, s, exits) && target < s.Size() && next < s.Size()
    ensures Kept(m, a, MoveTo(JoinTo(s, target), next))
    ensures Joined(s, MoveTo(JoinTo(s, target), next), target, next)
  {
    if !exits {
      LinkCoherent(s, target);
    }
  }

  /**
   `s'` has three new empty blocks, the current block of `s` ends in `term`, and the first of the three is current.
   */
  ghost predicate Opened(s: State, s': State, term: Terminator) {
    && s'.cur == s.Size()
    && s'.body.blocks ==
       s.body.blocks[s.cur := BasicBlock(s.Cur().instrs, Some(term))] + [EMPTY_BLOCK, EMPTY_BLOCK, EMPTY_BLOCK]
  }

  lemma {:induction false} OpenGivenFacts(m: Mode, s: State, op: Operand)
    requires Ready(m, s)
    ensures Ready(m, OpenGiven(s, op)) && Kept(m, s, OpenGiven(s, op))
    ensures Opened(s, OpenGiven(s, op), SwitchInt(op, [(1, s.Size())], s.Size() + 1))
    ensures OpenGiven(s, op).vars == s.vars && OpenGiven(s, op).body.locals == s.body.locals
  {
    AddBlockCoherent(s);
    AddBlockCoherent(AddBlock(s));
    AddBlockCoherent(AddBlock(AddBlock(s)));
    BranchCoherent(AddBlock(AddBlock(AddBlock(s))), s.cur, op, s.Size(), s.Size() + 1);
  }

  lemma {:induction false} OpenWhileFacts(m: Mode, s: State)
    requires Ready(m, s)
    ensures Ready(m, OpenWhile(s)) && Kept(m, s, OpenWhile(s))
    ensures Opened(s, OpenWhile(s), Goto(s.Size()))
    ensures OpenWhile(s).vars == s.vars && OpenWhile(s).body.locals == s.body.locals
  {
    AddBlockCoherent(s);
    AddBlockCoherent(AddBlock(s));
    AddBlockCoherent(AddBlock(AddBlock(s)));
    LinkCoherent(AddBlock(AddBlock(AddBlock(s))), s.Size());
  }

  lemma {:induction false} KeptTrans(m: Mode, a: State, b: State, c: State)
    requires Kept(m, a, b) && Kept(m, b, c)
    ensures Kept(m, a, c)
  {
  }

  predicate OptExits(e: Option<Expr>) {
    e.Some? && Exits(e.value)
  }

  lemma {:induction false} GrowGiven(m: Mode, s: State, e: Expr)
    requires Ready(m, s) && Shaped(m, e) && e.Given?
    ensures Grows(m, s, LowerExpr(s, e).0, false)
    decreases ReturnNest(e), 1, e, 2
  {
    hide Ready, Grows, Kept, HalfGiven, LowerExpr, LowerOperand, AfterThen, AfterElse, Shaped, ShapedOperand,
      ShapedBlock;
    GivenLowered(s, e);
    GivenShaped(m, e);
    var (s1, op) := LowerOperand(s, e.cond);
    GrowOperand(m, s, e.cond);
    StillReady(m, s, s1);
    var s4 := AfterThen(s1, op, e.thenBlock);
    GrowThen(m, s1, op, e);
    GrowElse(m, s1, s4, op, e);
    GrowsTrans(m, s, s1, AfterElse(s4, s1.Size(), e.elseExpr), false);
  }

  /** Between the branches: only the else block `n + 1` (current) and the join block `n + 2` are open, both empty. */
  ghost predicate HalfGiven(s1: State, s4: State, op: Operand) {
    var n := s1.Size();
    && s4.Size() >= n + 3 && s4.cur == n + 1
    && s4.body.blocks[n + 1] == EMPTY_BLOCK && s4.body.blocks[n + 2] == EMPTY_BLOCK
    && s4.body.blocks[s1.cur] == BasicBlock(s1.Cur().instrs, Some(SwitchInt(op, [(1, n)], n + 1)))
    && (forall i :: 0 <= i < n && i != s1.cur ==> s4.body.blocks[i] == s1.body.blocks[i])
    && (forall i :: n <= i < s4.Size() && i != n + 1 && i != n + 2 ==> s4.body.blocks[i].term.Some?)
  }

  lemma {:induction false} GivenShaped(m: Mode, e: Expr)
    requires e.Given? && Shaped(m, e)
    ensures ShapedOperand(m, e.cond) && ShapedBlock(m, e.thenBlock)
    ensures e.elseExpr.Some? ==> Shaped(m, e.elseExpr.value)
  {
    hide ShapedOperand, ShapedBlock;
  }

  lemma {:induction false} GrowThen(m: Mode, s1: State, op: Operand, e: Expr)
    requires Ready(m, s1) && e.Given? && ShapedBlock(m, e.thenBlock)
    ensures var s4 := AfterThen(s1, op, e.thenBlock);
      Ready(m, s4) && Kept(m, s1, s4) && HalfGiven(s1, s4, op)
    decreases ReturnNest(e), 1, e, 1
  {
    var n := s1.Size();
    var s2 := OpenGiven(s1, op);
    OpenGivenFacts(m, s1, op);
    var s3 := LowerBlock(s2, e.thenBlock).0;
    GrowBlock(m, s2, e.thenBlock);
    JoinFacts(m, s2, s3, BlockExits(e.thenBlock), n + 2, n + 1);
    var s4 := MoveTo(JoinTo(s3, n + 2), n + 1);
    KeptTrans(m, s1, s2, s4);
    ThenHalf(s1, s2, s3, s4, BlockExits(e.thenBlock), op);
  }

  lemma {:induction false} ThenHalf(s1: State, s2: State, s3: State, s4: State, exits: bool, op: Operand)
    requires Opened(s1, s2, SwitchInt(op, [(1, s1.Size())], s1.Size() + 1))
    requires BlocksGrow(s2, s3, exits) && Joined(s3, s4, s1.Size() + 2, s1.Size() + 1)
    ensures HalfGiven(s1, s4, op)
  {
  }

  lemma {:induction false} OptExitsIs(e: Option<Expr>)
    ensures OptExits(e) == (e.Some? && Exits(e.value))
  {
  }

  lemma {:induction false} GrowElse(m: Mode, s1: State, s4: State, op: Operand, e: Expr)
    requires Ready(m, s4) && Kept(m, s1, s4) && HalfGiven(s1, s4, op) && Shaped(m, e) && e.Given?
    ensures Grows(m, s1, AfterElse(s4, s1.Size(), e.elseExpr), false)
    decreases ReturnNest(e), 1, e, 1
  {
    hide LowerExpr, Shaped, ShapedOperand, ShapedBlock, Ready, Coherent, Exits, OptExits;
    GivenShaped(m, e);
    OptExitsIs(e.elseExpr);
    var n := s1.Size();
    var s5 := OptLower(s4, e.elseExpr);
    match e.elseExpr {
      case None => GrowsRefl(m, s4);
      case Some(x) => GrowExpr(m, s4, x);
    }
    JoinFacts(m, s4, s5, OptExits(e.elseExpr), n + 2, n + 2);
    var s6 := MoveTo(JoinTo(s5, n + 2), n + 2);
    KeptTrans(m, s1, s4, s6);
    ElseHalf(s1, s4, s5, s6, OptExits(e.elseExpr), op);
  }

  lemma {:induction false} ElseHalf(s1: State, s4: State, s5: State, s6: State, exits: bool, op: Operand)
    requires HalfGiven(s1, s4, op)
    requires BlocksGrow(s4, s5, exits) && Joined(s5, s6, s1.Size() + 2, s1.Size() + 2)
    ensures BlocksGrow(s1, s6, false)
  {
    var n := s1.Size();
    assert s6.body.blocks[n + 2] == s5.body.blocks[n + 2] == s4.body.blocks[n + 2];
    assert s6.body.blocks[s1.cur] == s5.body.blocks[s1.cur] == s4.body.blocks[s1.cur];
  }

  /** `s'` is `s` with its current block `c` ending in a branch to the next two. */
  ghost predicate Branched(s: State, s': State, c: BlockId, op: Operand) {
    && s.cur == c && c + 2 < s.Size() && s'.cur == c + 1
    && s'.body.blocks == s.body.blocks[c := BasicBlock(s.Cur().instrs, Some(SwitchInt(op, [(1, c + 1)], c + 2)))]
  }

  lemma {:induction false} BranchWhileFacts(m: Mode, s: State, c: BlockId, op: Operand)
    requires Ready(m, s) && s.cur == c && c + 2 < s.Size() && s.body.blocks[c + 1].term.None?
    ensures Ready(m, BranchWhile(s, c, op)) && Kept(m, s, BranchWhile(s, c, op))
    ensures Branched(s, BranchWhile(s, c, op), c, op)
    ensures BranchWhile(s, c, op).vars == s.vars && BranchWhile(s, c, op).body.locals == s.body.locals
  {
    BranchCoherent(s, c, op, c + 1, c + 2);
  }

  lemma {:induction false} WhileShaped(m: Mode, e: Expr)
    requires e.While? && Shaped(m, e) && !m.bent
    ensures ShapedOperand(m, e.cond) && Straight(m.check, e.cond) && ShapedBlock(m, e.body)
  {
    hide ShapedOperand, ShapedBlock, Straight;
  }

  lemma {:induction false} GrowWhile(m: Mode, s: State, e: Expr)
    requires Ready(m, s) && Shaped(m, e) && e.While?
    ensures Grows(m, s, LowerExpr(s, e).0, false)
    decreases ReturnNest(e), 1, e, 2
  {
    var While(cond, body) := e;
    var c := s.Size();
    var s1 := OpenWhile(s);
    OpenWhileFacts(m, s);
    var (s2, op) := LowerOperand(s1, cond);
    GrowOperand(m, s1, cond);
    StraightOperandStays(s1, cond);
    assert s2.body.blocks[c + 1] == s1.body.blocks[c + 1];
    var s3 := BranchWhile(s2, c, op);
    StillReady(m, s1, s2);
    BranchWhileFacts(m, s2, c, op);
    var s4 := LowerBlock(s3, body).0;
    GrowBlock(m, s3, body);
    JoinFacts(m, s3, s4, BlockExits(body), c, c + 2);
    var s5 := MoveTo(JoinTo(s4, c), c + 2);
    KeptTrans(m, s, s1, s2);
    KeptTrans(m, s, s2, s3);
    KeptTrans(m, s, s3, s5);
    WhileTotal(s, s1, s2, s3, s4, s5, op, BlockExits(body));
    assert s5 == LowerExpr(s, e).0;
  }

  lemma {:induction false} WhileTotal(s: State, s1: State, s2: State, s3: State, s4: State, s5: State, op: Operand,
      exits: bool)
    requires Opened(s, s1, Goto(s.Size())) && BlocksGrow(s1, s2, false) && Branched(s2, s3, s.Size(), op)
    requires BlocksGrow(s3, s4, exits) && Joined(s4, s5, s.Size(), s.Size() + 2)
    ensures BlocksGrow(s, s5, false)
  {
    var c := s.Size();
    assert s5.body.blocks[c + 2] == s4.body.blocks[c + 2] == s3.body.blocks[c + 2] == s2.body.blocks[c + 2]
           == s1.body.blocks[c + 2];
    assert s5.body.blocks[s.cur] == s4.body.blocks[s.cur] == s3.body.blocks[s.cur] == s2.body.blocks[s.cur];
    forall i | c <= i < s5.Size() && i != c + 2
      ensures s5.body.blocks[i].term.Some?
    {
      if i != s4.cur {
        assert s5.body.blocks[i] == s4.body.blocks[i];
        if i < s3.Size() && i != c + 1 {
          assert s4.body.blocks[i] == s3.body.blocks[i];
        }
      }
    }
    forall i | 0 <= i < c && i != s.cur
      ensures s5.body.blocks[i] == s.body.blocks[i]
    {
      assert s5.body.blocks[i] == s4.body.blocks[i] == s3.body.blocks[i] == s2.body.blocks[i] == s1.body.blocks[i];
    }
  }

  lemma {:induction false} GrowBlock(m: Mode, s: State, b: HBlock)
    requires Ready(m, s) && ShapedBlock(m, b)
    ensures Grows(m, s, LowerBlock(s, b).0, BlockExits(b))
    decreases ReturnNestBlock(b), 1, b
  {
    var s1 := LowerStmts(s, b.stmts);
    GrowStmts(m, s, b.stmts, b.tail.None?);
    match b.tail
    case None =>
    case Some(e) =>
      NoExit(m, b.stmts);
      GrowExpr(m, s1, e);
      GrowsTrans(m, s, s1, LowerExpr(s1, e).0, Exits(e));
  }

  lemma {:induction false} NoExit(m: Mode, ss: seq<Stmt>)
    requires ShapedStmts(m, ss, false)
    ensures !StmtsExit(ss)
    decreases ss
  {
    if |ss| > 1 {
      NoExit(m, ss[1..]);
    }
  }

  lemma {:induction false} GrowStmts(m: Mode, s: State, ss: seq<Stmt>, mayExit: bool)
    requires Ready(m, s) && ShapedStmts(m, ss, mayExit)
    ensures Grows(m, s, LowerStmts(s, ss), StmtsExit(ss))
    decreases ReturnNestStmts(ss), 1, ss
  {
    if ss != [] {
      var s1 := LowerStmt(s, ss[0]);
      GrowStmt(m, s, ss[0]);
      if |ss| == 1 {
        assert LowerStmts(s1, ss[1..]) == s1;
      } else {
        GrowStmts(m, s1, ss[1..], mayExit);
        GrowsTrans(m, s, s1, LowerStmts(s1, ss[1..]), StmtsExit(ss[1..]));
      }
    }
  }

  lemma {:induction false} GrowStmt(m: Mode, s: State, st: Stmt)
    requires Ready(m, s) && ShapedStmt(m, st)
    ensures Grows(m, s, LowerStmt(s, st), StmtExits(st))
    decreases ReturnNestStmt(st), 1, st
  {
    match st
    case Let(_, _, _, None) =>
    case Let(name, v, ty, Some(e)) =>
      var (s1, rv) := LowerExpr(s, e);
      GrowExpr(m, s, e);
      LetLocalGrows(m, s, s1, name, v, ty, e);
      var (s2, l) := LetLocal(s1, name, v, ty, e);
      PushGrows(m, s, s2, false, Assign(l, rv));
    case AssignStmt(v, e) =>
      var (s1, rv) := LowerExpr(s, e);
      GrowExpr(m, s, e);
      ReadVariableGrows(m, s, s1, v);
      var (s2, l) := ReadVariable(s1, v);
      PushGrows(m, s, s2, false, Assign(l, rv));
    case ExprStmt(e) => GrowExpr(m, s, e);
  }

  // ---- Whole forges ----

  /** With checks, a value may be returned if the while conditions of the `ensures` clauses are straight. */
  function ForgeMode(check: bool, f: Forge, allowTail: bool): Mode {
    var m := Mode(check, f.name, allowTail, false, true);
    m.(gives := ShapedOperands(m, f.ensures_))
  }

  /** `m` is that mode, or differs from it in what does not matter. */
  predicate ModeOf(m: Mode, f: Forge) {
    m.forgeName == f.name && !m.bent && (m.check ==> (m.gives <==> ShapedOperands(m, f.ensures_)))
  }

  lemma {:induction false} ForgeModeOf(check: bool, f: Forge, allowTail: bool)
    requires ReturnNestAll(f.ensures_) == 0
    ensures ModeOf(ForgeMode(check, f, allowTail), f)
  {
    var m := Mode(check, f.name, allowTail, false, true);
    ReturnFreeAll(m, ForgeMode(check, f, allowTail), f.ensures_);
  }

  predicate ShapedForge(m: Mode, f: Forge) {
    && ReturnNestAll(f.ensures_) == 0
    && (f.body.Some? ==> ShapedBlock(m, f.body.value))
  }

  lemma {:induction false} BindParamsFacts(s: State, ps: seq<Param>)
    requires VarsOk(s)
    ensures var s' := BindParams(s, ps);
      && VarsOk(s') && SameSetup(s, s') && s'.cur == s.cur
      && s'.body.blocks == s.body.blocks && s'.body.edges == s.body.edges
    decreases ps
  {
    if ps != [] {
      var l := |s.body.locals|;
      BindParamsFacts(WriteVariable(NewLocal(s, ps[0].name, ps[0].ty), ps[0].def, l), ps[1..]);
    }
  }

  lemma {:induction false} StartReady(m: Mode, f: Forge)
    requires ReturnNestAll(f.ensures_) == 0 && ModeOf(m, f)
    ensures var s := StartForge(m.check, f);
      Ready(m, s) && s.ensures_ == f.ensures_ && s.cur == 1 && s.header == 1 && s.body.entry == 0
      && s.body.blocks == [BasicBlock([], Some(Goto(1))), EMPTY_BLOCK]
      && s.body.argCount == |f.params|
  {
    var s0 := Lowering(MirBody([EMPTY_BLOCK, EMPTY_BLOCK], [], 0, [], |f.params|),
                       0, 1, f.name, ParamDefs(f.params), map[], m.check, f.ensures_);
    assert Coherent(s0.body);
    BindParamsFacts(s0, f.params);
    var s1 := BindParams(s0, f.params);
    SameGraph(s0.body, s1.body);
    LinkCoherent(s1, 1);
  }

  lemma {:induction false} GrowBody(m: Mode, f: Forge)
    requires ShapedForge(m, f) && ModeOf(m, f)
    ensures var s := StartForge(m.check, f);
      Grows(m, s, LowerBody(s, f.body), f.body.Some? && BlockExits(f.body.value))
  {
    StartReady(m, f);
    var s := StartForge(m.check, f);
    match f.body
    case None => GrowsRefl(m, s);
    case Some(b) => GrowBlock(m, s, b);
  }

  /**
   Lowering a forge with nothing behind a return gives a coherent graph (with `allowTail`, self tail
   calls and their back edges included) in which every block has ended.
   */
  lemma {:induction false} ForgeCoherent(m: Mode, f: Forge)
    requires ShapedForge(m, f) && ModeOf(m, f)
    ensures var body := LowerForge(m.check, f);
      && Coherent(body)
      && (forall b :: 0 <= b < |body.blocks| ==> body.blocks[b].term.Some?)
      && body.entry == 0 && |body.blocks| >= 2 && body.argCount == |f.params|
  {
    StartReady(m, f);
    GrowBody(m, f);
    var s := StartForge(m.check, f);
    var s' := LowerBody(s, f.body);
    var exits := f.body.Some? && BlockExits(f.body.value);
    if !exits {
      ReturnGrows(m, s, s', None);
    }
    assert s'.body.blocks[0] == s.body.blocks[0];
  }
}
