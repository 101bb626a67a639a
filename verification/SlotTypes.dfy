/**
 In a forge whose types fit, every variable's slot has the variable's type, every temporary has the type of the value
 stored in it, and at every moment of every run every slot holds a value of its type.
 */
module SlotTypes {
  import opened Common
  import opened Mir
  import opened MirSemantics
  import opened Hir
  import opened LowerSpec
  import opened LowerFrame
  import opened LowerPlain
  import opened LowerTypes

  // ---- Code whose values fit their slots ----

  ghost predicate SoundRv(T: Types, locals: seq<LocalData>, rv: Rvalue) {
    PlainRv(|locals|, rv) &&
    match rv
    case Use(_) => true
    case Binary(op, l, r) =>
      op in {Eq, Ne, Lt, Le, Gt, Ge} || T.mixes(OperandType(locals, l), OperandType(locals, r))
    case Unary(op, x) => op == Not || T.negates(OperandType(locals, x))
    case Ref(_, _) => false
  }

  ghost predicate SoundInstr(T: Types, locals: seq<LocalData>, ins: Instruction) {
    match ins
    case Assign(d, rv) =>
      d < |locals| && SoundRv(T, locals, rv) && Takes(T, RvalueType(locals, rv), locals[d].ty)
    case Call(into, callee, _) =>
      into.Some? ==> into.value < |locals| && T.answers(callee, locals[into.value].ty)
    case Phi(_, _) => false
    case _ => true
  }

  ghost predicate SoundBlocks(T: Types, locals: seq<LocalData>, blocks: seq<BasicBlock>) {
    forall b, ins :: 0 <= b < |blocks| && ins in blocks[b].instrs ==> SoundInstr(T, locals, ins)
  }

  /** The variables `b` are bound, and the slot of each bound variable has the variable's type. */
  ghost predicate Bound(T: Types, b: set<DefId>, s: State) {
    && (forall v :: v in b ==> v in s.vars)
    && (forall v :: v in s.vars ==> s.vars[v] < |s.body.locals| && s.body.locals[s.vars[v]].ty == T.decl(v))
  }

  ghost predicate Typed(T: Types, b: set<DefId>, s: State) {
    && s.checkContracts == T.check && s.forgeName == T.forgeName && s.ensures_ == T.clauses
    && Bound(T, b, s)
    && SoundBlocks(T, s.body.locals, s.body.blocks)
  }

  /** And since `a` slots have only been added. */
  ghost predicate Typedly(T: Types, a: State, b: set<DefId>, s: State) {
    Typed(T, b, s) && a.body.locals <= s.body.locals
  }

  lemma {:induction false} TypedlyTrans(T: Types, a: State, b: set<DefId>, s: State, c: set<DefId>, s': State)
    requires Typedly(T, a, b, s) && Typedly(T, s, c, s')
    ensures Typedly(T, a, c, s')
  {
    hide Typed;
  }

  lemma {:induction false} TypedlyIs(T: Types, a: State, b: set<DefId>, s: State)
    requires Typedly(T, a, b, s)
    ensures Typed(T, b, s) && a.body.locals <= s.body.locals
  {
  }

  lemma {:induction false} TypedlyRefl(T: Types, b: set<DefId>, s: State)
    requires Typed(T, b, s)
    ensures Typedly(T, s, b, s)
  {
    hide Typed;
  }

  lemma {:induction false} Fewer(T: Types, a: State, b: set<DefId>, c: set<DefId>, s: State)
    requires Typedly(T, a, b, s) && c <= b
    ensures Typedly(T, a, c, s)
  {
    hide SoundBlocks;
  }

  lemma {:induction false} TypedSetup(T: Types, b: set<DefId>, s: State)
    requires Typed(T, b, s)
    ensures s.checkContracts == T.check && s.forgeName == T.forgeName && s.ensures_ == T.clauses
  {
    hide SoundBlocks, Bound;
  }

  // ---- More slots ----

  lemma {:induction false} SameType(l0: seq<LocalData>, l1: seq<LocalData>, op: Operand)
    requires l0 <= l1 && PlainOperand(|l0|, op)
    ensures PlainOperand(|l1|, op) && OperandType(l1, op) == OperandType(l0, op)
  {
    if !op.Const? {
      assert l1[op.local] == l0[op.local];
    }
  }

  lemma {:induction false} SameRv(T: Types, l0: seq<LocalData>, l1: seq<LocalData>, rv: Rvalue)
    requires l0 <= l1 && SoundRv(T, l0, rv)
    ensures SoundRv(T, l1, rv) && RvalueType(l1, rv) == RvalueType(l0, rv)
  {
    hide PlainOperand, OperandType;
    match rv
    case Use(op) => SameType(l0, l1, op);
    case Binary(_, l, r) =>
      SameType(l0, l1, l);
      SameType(l0, l1, r);
    case Unary(_, x) => SameType(l0, l1, x);
  }

  lemma {:induction false} SameInstr(T: Types, l0: seq<LocalData>, l1: seq<LocalData>, ins: Instruction)
    requires l0 <= l1 && SoundInstr(T, l0, ins)
    ensures SoundInstr(T, l1, ins)
  {
    hide SoundRv, RvalueType, Takes;
    match ins
    case Assign(d, rv) =>
      SameRv(T, l0, l1, rv);
      assert l1[d] == l0[d];
    case Call(into, _, _) =>
      if into.Some? {
        assert l1[into.value] == l0[into.value];
      }
    case _ =>
  }

  lemma {:induction false} SoundMore(T: Types, l0: seq<LocalData>, l1: seq<LocalData>, blocks: seq<BasicBlock>)
    requires l0 <= l1 && SoundBlocks(T, l0, blocks)
    ensures SoundBlocks(T, l1, blocks)
  {
    hide SoundInstr;
    forall b, ins | 0 <= b < |blocks| && ins in blocks[b].instrs
      ensures SoundInstr(T, l1, ins)
    {
      SameInstr(T, l0, l1, ins);
    }
  }

  // ---- Edits ----

  lemma {:induction false} TypedNew(T: Types, b: set<DefId>, s: State, name: string, ty: Type)
    requires Typed(T, b, s)
    ensures Typedly(T, s, b, NewLocal(s, name, ty))
  {
    hide SoundBlocks;
    var s' := NewLocal(s, name, ty);
    SoundMore(T, s.body.locals, s'.body.locals, s.body.blocks);
  }

  /** A new variable's slot. */
  lemma {:induction false} TypedBind(T: Types, b: set<DefId>, s: State, name: string, v: DefId)
    requires Typed(T, b, s)
    ensures Typedly(T, s, b + {v}, WriteVariable(NewLocal(s, name, T.decl(v)), v, |s.body.locals|))
  {
    hide SoundBlocks;
    SoundMore(T, s.body.locals, NewLocal(s, name, T.decl(v)).body.locals, s.body.blocks);
  }

  lemma {:induction false} TypedPush(T: Types, b: set<DefId>, s: State, ins: Instruction)
    requires Typed(T, b, s) && SoundInstr(T, s.body.locals, ins)
    ensures Typedly(T, s, b, Push(s, ins))
  {
    hide SoundInstr;
  }

  // The same slots, and no instruction that `s` does not have.
  ghost predicate SameCode(s: State, s': State) {
    && s'.checkContracts == s.checkContracts && s'.forgeName == s.forgeName && s'.ensures_ == s.ensures_
    && s'.vars == s.vars && s'.body.locals == s.body.locals && s'.Size() >= s.Size()
    && (forall b: BlockId :: b < s.Size() ==> s'.body.blocks[b].instrs == s.body.blocks[b].instrs)
    && (forall b: BlockId :: s.Size() <= b < s'.Size() ==> s'.body.blocks[b].instrs == [])
  }

  lemma {:induction false} TypedSame(T: Types, b: set<DefId>, s: State, s': State)
    requires Typed(T, b, s) && SameCode(s, s')
    ensures Typedly(T, s, b, s')
  {
    hide SoundInstr;
  }

  lemma {:induction false} JoinSame(s: State, target: BlockId, next: BlockId)
    requires target < s.Size() && next < s.Size()
    ensures SameCode(s, MoveTo(JoinTo(s, target), next))
  {
  }

  lemma {:induction false} OpenSame(s: State, op: Operand)
    ensures SameCode(s, OpenGiven(s, op)) && SameCode(s, OpenWhile(s))
  {
  }

  lemma {:induction false} BranchSame(s: State, c: BlockId, op: Operand)
    requires c + 2 < s.Size()
    ensures SameCode(s, BranchWhile(s, c, op))
  {
  }

  /** A value becomes an operand of its type. */
  lemma {:induction false} TypedToOperand(T: Types, b: set<DefId>, s: State, rv: Rvalue)
    requires Typed(T, b, s) && SoundRv(T, s.body.locals, rv)
    ensures var (s', op) := ToOperand(s, rv);
      && Typedly(T, s, b, s') && PlainOperand(|s'.body.locals|, op)
      && OperandType(s'.body.locals, op) == RvalueType(s.body.locals, rv)
  {
    hide Typed, Typedly, RvalueType, SoundRv;
    TypedlyRefl(T, b, s);
    if rv.Use? {
      UseType(T, s.body.locals, rv);
    } else {
      var ty := RvalueType(s.body.locals, rv);
      var s1 := NewLocal(s, "tmp", ty);
      TypedNew(T, b, s, "tmp", ty);
      TypedlyIs(T, s, b, s1);
      SameRv(T, s.body.locals, s1.body.locals, rv);
      TypedPush(T, b, s1, Assign(|s.body.locals|, rv));
      TypedlyTrans(T, s, b, s1, b, Push(s1, Assign(|s.body.locals|, rv)));
    }
  }

  lemma {:induction false} UseType(T: Types, locals: seq<LocalData>, rv: Rvalue)
    requires rv.Use? && SoundRv(T, locals, rv)
    ensures PlainOperand(|locals|, rv.operand) && OperandType(locals, rv.operand) == RvalueType(locals, rv)
  {
    hide PlainOperand, OperandType;
  }

  /** A bound variable's slot. */
  lemma {:induction false} BoundSlot(T: Types, b: set<DefId>, s: State, v: DefId)
    requires Typed(T, b, s) && v in b
    ensures ReadVariable(s, v) == (s, s.vars[v])
    ensures s.vars[v] < |s.body.locals| && s.body.locals[s.vars[v]].ty == T.decl(v)
  {
    hide SoundBlocks;
  }

  // ---- Expressions ----

  // `rv` is sound code for a value of type `ty`.
  ghost predicate HasType(T: Types, locals: seq<LocalData>, rv: Rvalue, ty: Type) {
    SoundRv(T, locals, rv) && RvalueType(locals, rv) == ty
  }

  /** Lowering an expression that fits: what it binds has its types, and its value the type it is worth. */
  lemma {:induction false} TypedExpr(T: Types, b: set<DefId>, s: State, e: Expr)
    requires Typed(T, b, s) && Fits(T, b, e)
    ensures var (s', rv) := LowerExpr(s, e);
      Typedly(T, s, b + Lets(e), s') && HasType(T, s'.body.locals, rv, Worth(T.decl, e))
    decreases ReturnNest(e), 1, e, 3
  {
    match e
    case Lit(lit) =>
      hide Typed, Typedly;
      TypedlyRefl(T, b, s);
      assert b + Lets(e) == b;
    case Ident(_, v, _) =>
      hide Typed, Typedly;
      TypedlyRefl(T, b, s);
      BoundSlot(T, b, s, v);
      assert b + Lets(e) == b;
    case Bin(_, _, _, _) => TypedBin(T, b, s, e);
    case Un(op, x, _) =>
      hide Typed, Typedly, PlainOperand, OperandType;
      TypedOperand(T, b, s, x);
    case CallExpr(_, _, _, _) => TypedCall(T, b, s, e);
    case ReturnExpr(_) => TypedReturn(T, b, s, e);
    case Zone(_, _, _) => TypedZone(T, b, s, e);
    case Given(_, _, _, _) => TypedGiven(T, b, s, e);
    case While(_, _) => TypedWhile(T, b, s, e);
  }

  lemma {:induction false} TypedOperand(T: Types, b: set<DefId>, s: State, e: Expr)
    requires Typed(T, b, s) && Fits(T, b, e)
    ensures var (s', op) := LowerOperand(s, e);
      && Typedly(T, s, b + Lets(e), s') && Typed(T, b + Lets(e), s') && PlainOperand(|s'.body.locals|, op)
      && OperandType(s'.body.locals, op) == Worth(T.decl, e)
    decreases ReturnNest(e), 1, e, 4
  {
    hide Typed, Typedly, RvalueType, SoundRv, Worth, Fits, Lets;
    var (s1, rv) := LowerExpr(s, e);
    TypedExpr(T, b, s, e);
    TypedlyIs(T, s, b + Lets(e), s1);
    TypedToOperand(T, b + Lets(e), s1, rv);
    var s' := ToOperand(s1, rv).0;
    TypedlyTrans(T, s, b + Lets(e), s1, b + Lets(e), s');
    TypedlyIs(T, s, b + Lets(e), s');
  }

  lemma {:induction false} TypedBin(T: Types, b: set<DefId>, s: State, e: Expr)
    requires e.Bin? && Typed(T, b, s) && Fits(T, b, e)
    ensures var (s', rv) := LowerExpr(s, e);
      Typedly(T, s, b + Lets(e), s') && HasType(T, s'.body.locals, rv, Worth(T.decl, e))
    decreases ReturnNest(e), 1, e, 2
  {
    hide Typed, Typedly, LowerOperand, PlainOperand, OperandType;
    var (s1, lop) := LowerOperand(s, e.lhs);
    var (s2, rop) := LowerOperand(s1, e.rhs);
    var b1 := b + Lets(e.lhs);
    TypedOperand(T, b, s, e.lhs);
    TypedOperand(T, b1, s1, e.rhs);
    assert b1 + Lets(e.rhs) == b + Lets(e);
    TypedlyTrans(T, s, b1, s1, b + Lets(e), s2);
    TypedlyIs(T, s1, b + Lets(e), s2);
    SameType(s1.body.locals, s2.body.locals, lop);
  }

  lemma {:induction false} TypedOperands(T: Types, b: set<DefId>, s: State, es: seq<Expr>)
    requires Typed(T, b, s) && FitsAll(T, b, es)
    ensures var s' := LowerOperands(s, es).0; Typedly(T, s, b + LetsAll(es), s') && Typed(T, b + LetsAll(es), s')
    decreases ReturnNestAll(es), 1, es
  {
    hide Typed, Typedly, LowerOperand, Fits, Lets, PlainOperand, OperandType, Worth;
    if es == [] {
      TypedlyRefl(T, b, s);
      assert b + LetsAll(es) == b;
    } else {
      var s1 := LowerOperand(s, es[0]).0;
      var b1 := b + Lets(es[0]);
      TypedOperand(T, b, s, es[0]);
      TypedOperands(T, b1, s1, es[1..]);
      assert b1 + LetsAll(es[1..]) == b + LetsAll(es);
      TypedlyTrans(T, s, b1, s1, b + LetsAll(es), LowerOperands(s1, es[1..]).0);
    }
  }

  lemma {:induction false} TypedAsserts(T: Types, b: set<DefId>, s: State, es: seq<Expr>, msg: string)
    requires Typed(T, b, s) && FitsAll(T, b, es)
    ensures Typedly(T, s, b, LowerAsserts(s, es, msg)) && Typed(T, b, LowerAsserts(s, es, msg))
    decreases ReturnNestAll(es), 1, es
  {
    hide Typed, Typedly, LowerOperand, Fits, Lets, PlainOperand, OperandType, Worth;
    if es == [] {
      TypedlyRefl(T, b, s);
    } else {
      var (s1, op) := LowerOperand(s, es[0]);
      var s2 := Push(s1, Assert(op, msg));
      var b1 := b + Lets(es[0]);
      TypedOperand(T, b, s, es[0]);
      TypedPush(T, b1, s1, Assert(op, msg));
      TypedlyIs(T, s1, b1, s2);
      TypedAsserts(T, b1, s2, es[1..], msg);
      var s' := LowerAsserts(s2, es[1..], msg);
      TypedlyTrans(T, s, b1, s1, b1, s2);
      TypedlyTrans(T, s, b1, s2, b1, s');
      Fewer(T, s, b1, b, s');
      TypedlyIs(T, s, b, s');
    }
  }

  lemma {:induction false} TypedClauses(T: Types, b: set<DefId>, s: State, clauses: Clauses, x: Expr)
    requires Typed(T, b, s) && FitsClauses(T, b, clauses, x)
    ensures Typedly(T, s, b, LowerClauses(s, clauses, x))
    decreases 1 + ReturnNest(x), 0, clauses
  {
    hide Typed, Typedly, LowerOperand, Fits, Lets, PlainOperand, OperandType, Worth;
    if clauses == [] {
      TypedlyRefl(T, b, s);
    } else {
      var c := SubstResult(clauses[0], x);
      SubstNest(clauses[0], x);
      var (s1, op) := LowerOperand(s, c);
      var s2 := Push(s1, Assert(op, POSTCONDITION));
      var b1 := b + Lets(c);
      TypedOperand(T, b, s, c);
      TypedPush(T, b1, s1, Assert(op, POSTCONDITION));
      TypedlyIs(T, s1, b1, s2);
      TypedClauses(T, b1, s2, clauses[1..], x);
      var s' := LowerClauses(s2, clauses[1..], x);
      TypedlyTrans(T, s, b1, s1, b1, s2);
      TypedlyTrans(T, s, b1, s2, b1, s');
      Fewer(T, s, b1, b, s');
    }
  }

  lemma {:induction false} TypedCall(T: Types, b: set<DefId>, s: State, e: Expr)
    requires e.CallExpr? && Typed(T, b, s) && Fits(T, b, e)
    ensures var (s', rv) := LowerExpr(s, e);
      Typedly(T, s, b + Lets(e), s') && HasType(T, s'.body.locals, rv, Worth(T.decl, e))
    decreases ReturnNest(e), 1, e, 2
  {
    hide Typed, Typedly, FitsAll, LowerOperands, LowerAsserts, LetsAll;
    var CallExpr(callee, args, reqs, retTy) := e;
    var (s1, ops) := LowerOperands(s, args);
    var b1 := b + Lets(e);
    TypedOperands(T, b, s, args);
    TypedSetup(T, b1, s1);
    TypedlyRefl(T, b1, s1);
    var s2 := if s1.checkContracts then LowerAsserts(s1, reqs, PRECONDITION) else s1;
    if T.check {
      TypedAsserts(T, b1, s1, reqs, PRECONDITION);
    }
    TypedlyTrans(T, s, b1, s1, b1, s2);
    assert LowerExpr(s, e) == LowerCall(s, e);
    hide LowerExpr, Fits;
    if retTy == Prim(Void) {
      TypedPush(T, b1, s2, Call(None, CalleeName(callee), ops));
      TypedlyTrans(T, s, b1, s2, b1, Push(s2, Call(None, CalleeName(callee), ops)));
    } else {
      var s3 := NewLocal(s2, "call_tmp", retTy);
      var ins := Call(Some(|s2.body.locals|), CalleeName(callee), ops);
      TypedNew(T, b1, s2, "call_tmp", retTy);
      TypedlyIs(T, s2, b1, s3);
      TypedPush(T, b1, s3, ins);
      TypedlyTrans(T, s, b1, s2, b1, s3);
      TypedlyTrans(T, s, b1, s3, b1, Push(s3, ins));
    }
  }

  lemma {:induction false} TypedReturn(T: Types, b: set<DefId>, s: State, e: Expr)
    requires e.ReturnExpr? && Typed(T, b, s) && Fits(T, b, e)
    ensures var (s', rv) := LowerExpr(s, e);
      Typedly(T, s, b + Lets(e), s') && HasType(T, s'.body.locals, rv, Worth(T.decl, e))
    decreases ReturnNest(e), 1, e, 2
  {
    hide Typed, Typedly;
    assert LowerExpr(s, e) == LowerReturn(s, e);
    hide LowerExpr, LowerOperand, LowerClauses, FitsClauses;
    match e.result
    case None =>
      assert b + Lets(e) == b;
      TypedSame(T, b, s, Terminate(s, s.cur, Return(None)));
    case Some(x) =>
      TypedSetup(T, b, s);
      var (s1, op) := LowerOperand(s, x);
      var b1 := b + Lets(x);
      TypedOperand(T, b, s, x);
      TypedSetup(T, b1, s1);
      TypedlyRefl(T, b1, s1);
      if T.check {
        TypedClauses(T, b1, s1, T.clauses, x);
      }
      var s2 := if s1.checkContracts then LowerClauses(s1, s1.ensures_, x) else s1;
      TypedlyTrans(T, s, b1, s1, b1, s2);
      TypedlyIs(T, s1, b1, s2);
      TypedSame(T, b1, s2, Terminate(s2, s2.cur, Return(Some(op))));
      TypedlyTrans(T, s, b1, s2, b1, Terminate(s2, s2.cur, Return(Some(op))));
  }

  lemma {:induction false} TypedZone(T: Types, b: set<DefId>, s: State, e: Expr)
    requires e.Zone? && Typed(T, b, s) && Fits(T, b, e)
    ensures var (s', rv) := LowerExpr(s, e);
      Typedly(T, s, b + Lets(e), s') && HasType(T, s'.body.locals, rv, Worth(T.decl, e))
    decreases ReturnNest(e), 1, e, 2
  {
    hide Typed, Typedly, LowerBlock, HasType;
    var s1 := Push(s, ZoneEnter(e.zone));
    TypedPush(T, b, s, ZoneEnter(e.zone));
    TypedlyIs(T, s, b, s1);
    TypedBlock(T, b, s1, e.body);
    var s2 := LowerBlock(s1, e.body).0;
    TypedlyTrans(T, s, b, s1, b + Lets(e), s2);
    TypedlyIs(T, s, b + Lets(e), s2);
    TypedPush(T, b + Lets(e), s2, ZoneExit(e.zone));
    TypedlyTrans(T, s, b + Lets(e), s2, b + Lets(e), Push(s2, ZoneExit(e.zone)));
  }

  lemma {:induction false} TypedGiven(T: Types, b: set<DefId>, s: State, e: Expr)
    requires e.Given? && Typed(T, b, s) && Fits(T, b, e)
    ensures var (s', rv) := LowerExpr(s, e);
      Typedly(T, s, b + Lets(e), s') && HasType(T, s'.body.locals, rv, Worth(T.decl, e))
    decreases ReturnNest(e), 1, e, 2
  {
    hide Typed, Typedly;
    var (s1, op) := LowerOperand(s, e.cond);
    assert LowerExpr(s, e).1 == ZERO_RV;
    GivenLowered(s, e);
    hide LowerExpr, LowerOperand, AfterThen, AfterElse, FitsBlock;
    var s4 := AfterThen(s1, op, e.thenBlock);
    var b1 := b + Lets(e.cond);
    var b2 := b1 + LetsBlock(e.thenBlock);
    TypedOperand(T, b, s, e.cond);
    TypedThen(T, b1, s1, op, e);
    TypedlyIs(T, s1, b2, s4);
    TypedElse(T, b2, s4, s1.Size(), e);
    var s' := AfterElse(s4, s1.Size(), e.elseExpr);
    assert b2 + OptLets(e.elseExpr) == b + Lets(e);
    TypedlyTrans(T, s, b1, s1, b2, s4);
    TypedlyTrans(T, s, b2, s4, b + Lets(e), s');
  }

  function OptLets(e: Option<Expr>): set<DefId> {
    match e
    case None => {}
    case Some(x) => Lets(x)
  }

  lemma {:induction false} TypedThen(T: Types, b: set<DefId>, s1: State, op: Operand, e: Expr)
    requires e.Given? && Typed(T, b, s1) && FitsBlock(T, b, e.thenBlock)
    ensures Typedly(T, s1, b + LetsBlock(e.thenBlock), AfterThen(s1, op, e.thenBlock))
    decreases ReturnNest(e), 1, e, 1
  {
    hide Typed, Typedly, LowerBlock, OpenGiven, JoinTo, MoveTo, FitsBlock, LetsBlock, SameCode;
    var s2 := OpenGiven(s1, op);
    OpenSame(s1, op);
    TypedSame(T, b, s1, s2);
    TypedlyIs(T, s1, b, s2);
    TypedBlock(T, b, s2, e.thenBlock);
    var s3 := LowerBlock(s2, e.thenBlock).0;
    var b1 := b + LetsBlock(e.thenBlock);
    TypedlyIs(T, s2, b1, s3);
    JoinSame(s3, s1.Size() + 2, s1.Size() + 1);
    var s4 := AfterThen(s1, op, e.thenBlock);
    TypedSame(T, b1, s3, s4);
    TypedlyTrans(T, s1, b, s2, b1, s3);
    TypedlyTrans(T, s1, b1, s3, b1, s4);
  }

  lemma {:induction false} TypedElse(T: Types, b: set<DefId>, s4: State, n: nat, e: Expr)
    requires e.Given? && Typed(T, b, s4) && n + 2 < s4.Size()
    requires e.elseExpr.Some? ==> Fits(T, b, e.elseExpr.value)
    ensures Typedly(T, s4, b + OptLets(e.elseExpr), AfterElse(s4, n, e.elseExpr))
    decreases ReturnNest(e), 1, e, 1
  {
    hide Typed, Typedly, LowerExpr, JoinTo, MoveTo, SameCode, Fits, Lets, HasType;
    var s5 := OptLower(s4, e.elseExpr);
    var b1 := b + OptLets(e.elseExpr);
    if e.elseExpr.Some? {
      TypedExpr(T, b, s4, e.elseExpr.value);
    } else {
      TypedlyRefl(T, b, s4);
      assert b1 == b;
    }
    TypedlyIs(T, s4, b1, s5);
    JoinSame(s5, n + 2, n + 2);
    TypedSame(T, b1, s5, AfterElse(s4, n, e.elseExpr));
    TypedlyTrans(T, s4, b1, s5, b1, AfterElse(s4, n, e.elseExpr));
  }

  lemma {:induction false} TypedWhile(T: Types, b: set<DefId>, s: State, e: Expr)
    requires e.While? && Typed(T, b, s) && Fits(T, b, e)
    ensures var (s', rv) := LowerExpr(s, e);
      Typedly(T, s, b + Lets(e), s') && HasType(T, s'.body.locals, rv, Worth(T.decl, e))
    decreases ReturnNest(e), 1, e, 2
  {
    hide Typed, Typedly, LowerOperand, LowerBlock, OpenWhile, BranchWhile, JoinTo, MoveTo, FitsBlock;
    assert LowerExpr(s, e).1 == FALSE_RV;
    WhileLowered(s, e);
    hide LowerExpr;
    var (s2, op) := LowerOperand(OpenWhile(s), e.cond);
    var b1 := b + Lets(e.cond);
    TypedHead(T, b, s, e);
    TypedlyIs(T, s, b1, s2);
    TypedLoop(T, b1, s2, s.Size(), op, e);
    assert b1 + LetsBlock(e.body) == b + Lets(e);
    TypedlyTrans(T, s, b1, s2, b + Lets(e), LowerExpr(s, e).0);
  }

  lemma {:induction false} TypedHead(T: Types, b: set<DefId>, s: State, e: Expr)
    requires e.While? && Typed(T, b, s) && Fits(T, b, e.cond)
    ensures Typedly(T, s, b + Lets(e.cond), LowerOperand(OpenWhile(s), e.cond).0)
    decreases ReturnNest(e), 1, e, 1
  {
    hide Typed, Typedly, LowerOperand, OpenWhile, SameCode, Fits, Lets, PlainOperand, OperandType, Worth;
    OpenSame(s, Const(BoolConst(true)));
    TypedSame(T, b, s, OpenWhile(s));
    TypedlyIs(T, s, b, OpenWhile(s));
    TypedOperand(T, b, OpenWhile(s), e.cond);
    TypedlyTrans(T, s, b, OpenWhile(s), b + Lets(e.cond), LowerOperand(OpenWhile(s), e.cond).0);
  }

  lemma {:induction false} TypedLoop(T: Types, b: set<DefId>, s: State, c: BlockId, op: Operand, e: Expr)
    requires e.While? && c + 2 < s.Size() && Typed(T, b, s) && FitsBlock(T, b, e.body)
    ensures var s' := LowerBlock(BranchWhile(s, c, op), e.body).0;
      Typedly(T, s, b + LetsBlock(e.body), MoveTo(JoinTo(s', c), c + 2))
    decreases ReturnNest(e), 1, e, 1
  {
    hide Typed, Typedly, LowerBlock, JoinTo, MoveTo, BranchWhile, FitsBlock, LetsBlock, SameCode, HasType, WorthBlock;
    var s1 := BranchWhile(s, c, op);
    BranchSame(s, c, op);
    TypedSame(T, b, s, s1);
    TypedlyIs(T, s, b, s1);
    TypedBlock(T, b, s1, e.body);
    var s2 := LowerBlock(s1, e.body).0;
    var b1 := b + LetsBlock(e.body);
    TypedlyTrans(T, s, b, s1, b1, s2);
    TypedlyIs(T, s, b1, s2);
    JoinSame(s2, c, c + 2);
    TypedSame(T, b1, s2, MoveTo(JoinTo(s2, c), c + 2));
    TypedlyTrans(T, s, b1, s2, b1, MoveTo(JoinTo(s2, c), c + 2));
  }

  lemma {:induction false} TypedBlock(T: Types, b: set<DefId>, s: State, body: HBlock)
    requires Typed(T, b, s) && FitsBlock(T, b, body)
    ensures var (s', rv) := LowerBlock(s, body);
      Typedly(T, s, b + LetsBlock(body), s') && HasType(T, s'.body.locals, rv, WorthBlock(T.decl, body))
    decreases ReturnNestBlock(body), 1, body
  {
    hide Typed, Typedly, LowerStmts, FitsStmts, LetsStmts;
    var s1 := LowerStmts(s, body.stmts);
    var b1 := b + LetsStmts(body.stmts);
    TypedStmts(T, b, s, body.stmts);
    match body.tail
    case None =>
      assert b1 == b + LetsBlock(body);
      assert HasType(T, s1.body.locals, FALSE_RV, Prim(BoolTy));
    case Some(e) =>
      hide HasType, LowerExpr, Fits, Worth, Lets;
      TypedlyIs(T, s, b1, s1);
      TypedExpr(T, b1, s1, e);
      assert b1 + Lets(e) == b + LetsBlock(body);
      TypedlyTrans(T, s, b1, s1, b + LetsBlock(body), LowerExpr(s1, e).0);
  }

  lemma {:induction false} TypedStmts(T: Types, b: set<DefId>, s: State, ss: seq<Stmt>)
    requires Typed(T, b, s) && FitsStmts(T, b, ss)
    ensures Typedly(T, s, b + LetsStmts(ss), LowerStmts(s, ss))
    decreases ReturnNestStmts(ss), 1, ss
  {
    hide Typed, Typedly, LowerStmt, FitsStmt, LetsStmt;
    if ss == [] {
      assert b + LetsStmts(ss) == b;
      TypedlyRefl(T, b, s);
    } else {
      var s1 := LowerStmt(s, ss[0]);
      var b1 := b + LetsStmt(ss[0]);
      TypedStmt(T, b, s, ss[0]);
      TypedlyIs(T, s, b1, s1);
      TypedStmts(T, b1, s1, ss[1..]);
      assert b1 + LetsStmts(ss[1..]) == b + LetsStmts(ss);
      TypedlyTrans(T, s, b1, s1, b + LetsStmts(ss), LowerStmts(s1, ss[1..]));
    }
  }

  lemma {:induction false} TypedStmt(T: Types, b: set<DefId>, s: State, st: Stmt)
    requires Typed(T, b, s) && FitsStmt(T, b, st)
    ensures Typedly(T, s, b + LetsStmt(st), LowerStmt(s, st))
    decreases ReturnNestStmt(st), 1, st
  {
    match st
    case Let(_, _, _, None) =>
      assert b + LetsStmt(st) == b;
      hide Typed;
      TypedlyRefl(T, b, s);
    case Let(_, _, _, Some(e)) =>
      hide Typed, Typedly, LowerExpr, HasType, LetLocal, Written, Worth, Fits, Lets;
      TypedExpr(T, b, s, e);
      var (s1, rv) := LowerExpr(s, e);
      TypedlyIs(T, s, b + Lets(e), s1);
      TypedLet(T, b + Lets(e), s1, st, rv);
      assert b + Lets(e) + {st.def} == b + LetsStmt(st);
      TypedlyTrans(T, s, b + Lets(e), s1, b + LetsStmt(st), LowerStmt(s, st));
    case AssignStmt(v, e) =>
      hide Typed, Typedly, LowerExpr, HasType, Worth, Fits, Lets, ReadVariable, Takes;
      TypedExpr(T, b, s, e);
      var (s1, rv) := LowerExpr(s, e);
      TypedlyIs(T, s, b + Lets(e), s1);
      BoundSlot(T, b + Lets(e), s1, v);
      TypedStore(T, b + Lets(e), s1, s1.vars[v], rv, Worth(T.decl, e));
      TypedlyTrans(T, s, b + Lets(e), s1, b + Lets(e), LowerStmt(s, st));
    case ExprStmt(e) =>
      hide Typed, Typedly, LowerExpr, HasType, Worth;
      TypedExpr(T, b, s, e);
  }

  lemma {:induction false} TypedStore(T: Types, b: set<DefId>, s: State, l: Local, rv: Rvalue, ty: Type)
    requires Typed(T, b, s) && HasType(T, s.body.locals, rv, ty)
    requires l < |s.body.locals| && Takes(T, ty, s.body.locals[l].ty)
    ensures Typedly(T, s, b, Push(s, Assign(l, rv)))
  {
    hide Typed, Typedly, RvalueType, SoundRv, Takes;
    TypedPush(T, b, s, Assign(l, rv));
  }

  lemma {:induction false} TypedLet(T: Types, b: set<DefId>, s: State, st: Stmt, rv: Rvalue)
    requires st.Let? && st.init.Some? && Typed(T, b, s) && HasType(T, s.body.locals, rv, Worth(T.decl, st.init.value))
    requires T.decl(st.def) == (if st.ty == Error then Written(st.init.value) else st.ty)
    requires Takes(T, Worth(T.decl, st.init.value), T.decl(st.def))
    ensures var (s1, l) := LetLocal(s, st.name, st.def, st.ty, st.init.value);
      Typedly(T, s, b + {st.def}, Push(s1, Assign(l, rv)))
  {
    var v, ty := st.def, Worth(T.decl, st.init.value);
    var (s1, l) := LetLocal(s, st.name, v, st.ty, st.init.value);
    hide Typed, Typedly, SoundRv, RvalueType, Worth, Takes;
    if v in s.vars {
      OldBound(T, b, s, v);
      TypedStore(T, b + {v}, s, l, rv, ty);
    } else {
      WrittenType(st.init.value);
      hide Written, ExprType;
      TypedBind(T, b, s, st.name, v);
      TypedlyIs(T, s, b + {v}, s1);
      SameRv(T, s.body.locals, s1.body.locals, rv);
      TypedStore(T, b + {v}, s1, l, rv, ty);
      TypedlyTrans(T, s, b + {v}, s1, b + {v}, Push(s1, Assign(l, rv)));
    }
  }

  lemma {:induction false} WrittenType(e: Expr)
    ensures ExprType(e) == Written(e)
  {
  }

  lemma {:induction false} OldBound(T: Types, b: set<DefId>, s: State, v: DefId)
    requires Typed(T, b, s) && v in s.vars
    ensures Typed(T, b + {v}, s)
    ensures s.vars[v] < |s.body.locals| && s.body.locals[s.vars[v]].ty == T.decl(v)
  {
    hide SoundBlocks;
  }

  // ---- Whole forges ----

  /** The parameters come first, with their declared types. */
  lemma {:induction false} TypedParams(T: Types, b: set<DefId>, s: State, ps: seq<Param>)
    requires Typed(T, b, s) && forall p :: p in ps ==> T.decl(p.def) == p.ty
    ensures var s' := BindParams(s, ps);
      && Typedly(T, s, b + ParamSet(ps), s')
      && |s'.body.locals| == |s.body.locals| + |ps|
      && forall i :: 0 <= i < |ps| ==> s'.body.locals[|s.body.locals| + i] == LocalData(ps[i].name, ps[i].ty)
    decreases ps
  {
    hide Typed, Typedly;
    if ps == [] {
      TypedlyRefl(T, b, s);
      assert b + ParamSet(ps) == b;
    } else {
      var n := |s.body.locals|;
      var s1 := WriteVariable(NewLocal(s, ps[0].name, ps[0].ty), ps[0].def, n);
      assert ps[0] in ps;
      var b1 := b + {ps[0].def};
      TypedBind(T, b, s, ps[0].name, ps[0].def);
      TypedlyIs(T, s, b1, s1);
      TypedParams(T, b1, s1, ps[1..]);
      var s' := BindParams(s1, ps[1..]);
      assert b1 + ParamSet(ps[1..]) == b + ParamSet(ps);
      TypedlyTrans(T, s, b1, s1, b + ParamSet(ps), s');
      TypedlyIs(T, s1, b + ParamSet(ps), s');
      forall i | 0 <= i < |ps|
        ensures s'.body.locals[n + i] == LocalData(ps[i].name, ps[i].ty)
      {
        if i == 0 {
          assert s'.body.locals[n] == s1.body.locals[n];
        } else {
          assert s'.body.locals[n + 1 + (i - 1)] == LocalData(ps[1..][i - 1].name, ps[1..][i - 1].ty);
        }
      }
    }
  }

  ghost predicate ParamsFirst(locals: seq<LocalData>, ps: seq<Param>) {
    |ps| <= |locals| && forall i :: 0 <= i < |ps| ==> locals[i] == LocalData(ps[i].name, ps[i].ty)
  }

  lemma {:induction false} StartTyped(T: Types, check: bool, f: Forge)
    requires ReturnNestAll(f.ensures_) == 0 && FitsForge(T, f) && T.check == check
    ensures var s := StartForge(check, f);
      Typed(T, ParamSet(f.params), s) && ParamsFirst(s.body.locals, f.params) && |s.body.locals| == |f.params|
  {
    hide FitsBlock, Typedly;
    var s0 := Lowering(MirBody([EMPTY_BLOCK, EMPTY_BLOCK], [], 0, [], |f.params|),
                       0, 1, f.name, ParamDefs(f.params), map[], check, f.ensures_);
    assert Typed(T, {}, s0);
    hide Typed;
    TypedParams(T, {}, s0, f.params);
    var s1 := BindParams(s0, f.params);
    assert {} + ParamSet(f.params) == ParamSet(f.params);
    TypedlyIs(T, s0, ParamSet(f.params), s1);
    assert SameCode(s1, StartForge(check, f));
    TypedSame(T, ParamSet(f.params), s1, StartForge(check, f));
    TypedlyIs(T, s1, ParamSet(f.params), StartForge(check, f));
  }

  /** The code of a forge whose types fit. */
  lemma {:induction false} SoundForge(T: Types, check: bool, f: Forge)
    requires ReturnNestAll(f.ensures_) == 0 && FitsForge(T, f) && T.check == check
    ensures var body := LowerForge(check, f);
      SoundBlocks(T, body.locals, body.blocks) && ParamsFirst(body.locals, f.params)
  {
    hide Typed, Typedly, FitsBlock, SoundBlocks, ParamsFirst, HasType, LowerBlock, StartForge;
    var b := ParamSet(f.params);
    var s := StartForge(check, f);
    StartTyped(T, check, f);
    TypedlyRefl(T, b, s);
    var s1 := LowerBody(s, f.body);
    var b1 := if f.body.Some? then b + LetsBlock(f.body.value) else b;
    if f.body.Some? {
      TypedBlock(T, b, s, f.body.value);
    }
    TypedlyIs(T, s, b1, s1);
    FinishSame(s1);
    TypedSame(T, b1, s1, FinishForge(s1));
    TypedlyTrans(T, s, b1, s1, b1, FinishForge(s1));
    TypedlyIs(T, s, b1, FinishForge(s1));
    CodeIsSound(T, b1, FinishForge(s1));
    StillFirst(s.body.locals, FinishForge(s1).body.locals, f.params);
  }

  lemma {:induction false} FinishSame(s: State)
    ensures SameCode(s, FinishForge(s))
  {
  }

  lemma {:induction false} CodeIsSound(T: Types, b: set<DefId>, s: State)
    requires Typed(T, b, s)
    ensures SoundBlocks(T, s.body.locals, s.body.blocks)
  {
    hide SoundBlocks;
  }

  lemma {:induction false} StillFirst(l0: seq<LocalData>, l1: seq<LocalData>, ps: seq<Param>)
    requires ParamsFirst(l0, ps) && l0 <= l1
    ensures ParamsFirst(l1, ps)
  {
    forall i | 0 <= i < |ps|
      ensures l1[i] == LocalData(ps[i].name, ps[i].ty)
    {
      assert l1[i] == l0[i];
    }
  }

  // ---- Honest annotations ----

  /**
   A new variable set to an expression whose annotation is right has a slot of exactly the type a temporary holding the
   same value would have; it is unknown only if the value's type is.
   */
  lemma {:induction false} HonestSlot(T: Types, b: set<DefId>, s: State, name: string, v: DefId, e: Expr)
    requires Typed(T, b, s) && Fits(T, b, e) && Honest(T.decl, e) && v !in LowerExpr(s, e).0.vars
    ensures var (s1, rv) := LowerExpr(s, e);
      var s' := LowerStmt(s, Let(name, v, Error, Some(e)));
      && s'.vars == s1.vars[v := |s1.body.locals|]
      && s'.body.locals == s1.body.locals + [LocalData(name, RvalueType(s1.body.locals, rv))]
      && RvalueType(s1.body.locals, rv) == Worth(T.decl, e)
  {
    hide Typed, Typedly, LowerExpr, LowerStmt, Fits, SoundRv, RvalueType;
    TypedExpr(T, b, s, e);
    LetSlot(s, name, v, e);
  }

  // ---- Runs ----

  /**
   `has(v, t)`: `v` is a value of type `t`.  A slot that was never set is of every type, constants are of theirs, and
   operators, calls and conversions give what `T` says they give.
   */
  ghost predicate Respects(I: Interp, has: (Value, Type) -> bool, T: Types) {
    && (forall t :: has(Undef, t))
    && (forall i :: has(IntVal(i), Prim(I32))) && (forall f :: has(FloatVal(f), Prim(F64)))
    && (forall b :: has(BoolVal(b), Prim(BoolTy))) && (forall s :: has(StrVal(s), Prim(StrTy)))
    && (forall x, y, op: BinOp :: op in {Eq, Ne, Lt, Le, Gt, Ge} ==> has(I.bin(op, x, y), Prim(BoolTy)))
    && (forall x, y, op: BinOp, t, u ::
          has(x, t) && has(y, u) && T.mixes(t, u) && op !in {Eq, Ne, Lt, Le, Gt, Ge}
          ==> has(I.bin(op, x, y), Joint(t, u)))
    && (forall x :: has(I.un(Not, x), Prim(BoolTy)))
    && (forall x, t :: has(x, t) && T.negates(t) ==> has(I.un(Neg, x), t))
    && (forall tr, callee, vs, t :: T.answers(callee, t) ==> has(I.answer(tr, callee, vs), t))
    && (forall v, t, u :: has(v, t) && T.fits(t, u) ==> has(v, u))
  }

  // ---- Such interpretations exist ----

  predicate OfKind(v: Value, t: Type) {
    v.Undef? ||
    match t
    case Prim(I32) => v.IntVal?
    case Prim(F64) => v.FloatVal?
    case Prim(BoolTy) => v.BoolVal?
    case Prim(StrTy) => v.StrVal?
    case _ => false
  }

  function Summed(op: BinOp, x: Value, y: Value): Value {
    if op in {Eq, Ne, Lt, Le, Gt, Ge} then BoolVal(x == y)
    else
      match (x, y)
      case (IntVal(i), IntVal(j)) => IntVal(i + j)
      case (FloatVal(f), FloatVal(g)) => FloatVal(f + g)
      case _ => Undef
  }

  lemma {:induction false} SummedOf(op: BinOp, x: Value, y: Value, t: Type)
    requires OfKind(x, t) && OfKind(y, t) && (t == Prim(I32) || t == Prim(F64)) && op !in {Eq, Ne, Lt, Le, Gt, Ge}
    ensures OfKind(Summed(op, x, y), Joint(t, t))
  {
  }

  /** For one, integers and floats that are added among themselves, and calls that all answer with `text`. */
  lemma {:induction false} SomeRespect(T: Types, text: string)
    requires forall t, u :: T.mixes(t, u) ==> t == u && (t == Prim(I32) || t == Prim(F64))
    requires (forall t, u :: !T.fits(t, u)) && forall t :: !T.negates(t)
    requires forall callee, t :: T.answers(callee, t) ==> t == Prim(StrTy)
    ensures exists I :: Respects(I, OfKind, T)
  {
    var I := Interp(Summed, (op: UnOp, x: Value) => BoolVal(false),
                    (tr: seq<Event>, callee: string, vs: seq<Value>) => StrVal(text));
    forall x, y, op: BinOp, t, u | OfKind(x, t) && OfKind(y, u) && T.mixes(t, u) && op !in {Eq, Ne, Lt, Le, Gt, Ge}
      ensures OfKind(I.bin(op, x, y), Joint(t, u))
    {
      SummedOf(op, x, y, t);
    }
    hide Summed, Joint;
    assert Respects(I, OfKind, T);
  }

  ghost predicate Holds(has: (Value, Type) -> bool, locals: seq<LocalData>, store: Store) {
    forall l: Local :: l < |locals| ==> has(Read(store, l), locals[l].ty)
  }

  lemma {:induction false} OperandHas(I: Interp, has: (Value, Type) -> bool, T: Types, locals: seq<LocalData>,
      store: Store, op: Operand)
    requires Respects(I, has, T) && Holds(has, locals, store) && PlainOperand(|locals|, op)
    ensures has(OperandValue(store, op), OperandType(locals, op))
  {
  }

  lemma {:induction false} RvalueHas(I: Interp, has: (Value, Type) -> bool, T: Types, locals: seq<LocalData>,
      store: Store, rv: Rvalue)
    requires Respects(I, has, T) && Holds(has, locals, store) && SoundRv(T, locals, rv)
    ensures has(RvalueValue(I, store, rv), RvalueType(locals, rv))
  {
    hide Holds, OperandType, OperandValue, PlainOperand;
    match rv
    case Use(op) => OperandHas(I, has, T, locals, store, op);
    case Binary(op, l, r) =>
      OperandHas(I, has, T, locals, store, l);
      OperandHas(I, has, T, locals, store, r);
      var x, y := OperandValue(store, l), OperandValue(store, r);
      var t, u := OperandType(locals, l), OperandType(locals, r);
      if op !in {Eq, Ne, Lt, Le, Gt, Ge} {
        assert has(x, t) && has(y, u) && T.mixes(t, u);
        assert has(I.bin(op, x, y), Joint(t, u));
      }
    case Unary(_, x) => OperandHas(I, has, T, locals, store, x);
  }

  lemma {:induction false} InstrHas(I: Interp, has: (Value, Type) -> bool, T: Types, locals: seq<LocalData>,
      ins: Instruction, f: Frame)
    requires Respects(I, has, T) && Holds(has, locals, f.store) && SoundInstr(T, locals, ins)
    ensures var c := ExecInstr(I, ins, f); c.Running? ==> Holds(has, locals, c.frame.store)
  {
    match ins
    case Assign(d, rv) =>
      RvalueHas(I, has, T, locals, f.store, rv);
      hide SoundRv, RvalueType, RvalueValue;
    case _ =>
  }

  /** However a forge whose types fit is run, and however long, every slot holds a value of its type. */
  lemma {:induction false} SlotsKeepTheirTypes(I: Interp, has: (Value, Type) -> bool, T: Types, check: bool, f: Forge,
      store: Store, n: nat)
    requires ReturnNestAll(f.ensures_) == 0 && FitsForge(T, f) && T.check == check && Respects(I, has, T)
    requires forall i :: 0 <= i < |f.params| ==> has(Read(store, i), f.params[i].ty)
    requires forall l :: l in store ==> l < |f.params|
    ensures var body := LowerForge(check, f);
      var c := Steps(I, body.blocks, Start(body.entry, store), n);
      c.Running? ==> forall l: Local :: l < |body.locals| ==> has(Read(c.frame.store, l), body.locals[l].ty)
  {
    var body := LowerForge(check, f);
    SoundForge(T, check, f);
    forall l: Local | l < |body.locals|
      ensures has(Read(store, l), body.locals[l].ty)
    {
      if l < |f.params| {
        assert body.locals[l] == LocalData(f.params[l].name, f.params[l].ty);
      }
    }
    StepsHold(I, has, T, body, Start(body.entry, store), n);
  }

  lemma {:induction false} StepsHold(I: Interp, has: (Value, Type) -> bool, T: Types, body: MirBody, c: Config, n: nat)
    requires Respects(I, has, T) && SoundBlocks(T, body.locals, body.blocks)
    requires c.Running? ==> Holds(has, body.locals, c.frame.store)
    ensures var c' := Steps(I, body.blocks, c, n); c'.Running? ==> Holds(has, body.locals, c'.frame.store)
    decreases n
  {
    if n > 0 {
      StepHolds(I, has, T, body, c);
      hide Respects, Step, Holds;
      StepsHold(I, has, T, body, Step(I, body.blocks, c), n - 1);
    }
  }

  lemma {:induction false} StepHolds(I: Interp, has: (Value, Type) -> bool, T: Types, body: MirBody, c: Config)
    requires Respects(I, has, T) && SoundBlocks(T, body.locals, body.blocks)
    requires c.Running? ==> Holds(has, body.locals, c.frame.store)
    ensures var c' := Step(I, body.blocks, c); c'.Running? ==> Holds(has, body.locals, c'.frame.store)
  {
    hide Respects, SoundInstr;
    if c.Running? && c.frame.blk < |body.blocks| && c.frame.pc < |body.blocks[c.frame.blk].instrs| {
      hide Holds;
      var ins := body.blocks[c.frame.blk].instrs[c.frame.pc];
      assert ins in body.blocks[c.frame.blk].instrs;
      InstrHas(I, has, T, body.locals, ins, c.frame);
    } else if c.Running? && c.frame.blk < |body.blocks| {
      hide Holds;
      EndKeepsStore(body.blocks[c.frame.blk].term, c.frame);
    }
  }

  lemma {:induction false} EndKeepsStore(term: Option<Terminator>, f: Frame)
    ensures ExecTerm(term, f).Running? ==> ExecTerm(term, f).frame.store == f.store
  {
  }
}
