/**
 The types of slots.  Lowering gives each slot a type, which the borrow check and code generation read; in a forge
 whose annotations are honest every slot only ever holds values of that type.
 */
module LowerTypes {
  import opened Common
  import opened Mir
  import opened MirSemantics
  import opened Hir
  import opened LowerSpec

  // ---- What a value's type is ----

  predicate Compares(op: BinaryOp) {
    op.OpEq? || op.OpNe? || op.OpLt? || op.OpLe? || op.OpGt? || op.OpGe?
  }

  // What arithmetic gives for operands of these types.
  function Joint(a: Type, b: Type): Type {
    if a == Prim(F64) || b == Prim(F64) then Prim(F64)
    else if a != Error then a
    else if b != Error then b
    else Prim(I32)
  }

  /**
   The type of the value `e` is lowered to, whatever is written at `e` itself: a given is worth 0, and a while, a
   literal nil and a block without a last expression are worth false.
   */
  function Worth(decl: DefId -> Type, e: Expr): Type {
    match e
    case Lit(IntLit(_)) => Prim(I32)
    case Lit(FloatLit(_)) => Prim(F64)
    case Lit(BoolLit(_)) => Prim(BoolTy)
    case Lit(StrLit(_)) => Prim(StrTy)
    case Lit(NilLit) => Prim(BoolTy)
    case Ident(_, v, _) => decl(v)
    case Bin(op, l, r, _) => if Compares(op) then Prim(BoolTy) else Joint(Worth(decl, l), Worth(decl, r))
    case Un(op, x, _) => if op.OpNot? then Prim(BoolTy) else Worth(decl, x)
    case CallExpr(_, _, _, ty) => if ty == Prim(Void) then Prim(BoolTy) else ty
    case Given(_, _, _, _) => Prim(I32)
    case While(_, _) => Prim(BoolTy)
    case ReturnExpr(_) => Prim(I32)
    case Zone(_, b, _) => WorthBlock(decl, b)
  }

  function WorthBlock(decl: DefId -> Type, b: HBlock): Type {
    match b.tail
    case None => Prim(BoolTy)
    case Some(e) => Worth(decl, e)
  }

  /** What the text says the type of `e` is: its annotation, a literal's own type, and nothing for a while. */
  function Written(e: Expr): Type {
    match e
    case Lit(IntLit(_)) => Prim(I32)
    case Lit(FloatLit(_)) => Prim(F64)
    case Lit(BoolLit(_)) => Prim(BoolTy)
    case Lit(StrLit(_)) => Prim(StrTy)
    case Lit(NilLit) => Prim(Void)
    case Ident(_, _, ty) => ty
    case Bin(_, _, _, ty) => ty
    case Un(_, _, ty) => ty
    case CallExpr(_, _, _, retTy) => retTy
    case Given(_, _, _, ty) => ty
    case Zone(_, _, ty) => ty
    case ReturnExpr(_) => Prim(Void)
    case While(_, _) => Error
  }

  /** The text is right. */
  predicate Honest(decl: DefId -> Type, e: Expr) {
    Written(e) == Worth(decl, e)
  }

  // ---- The slot of a new variable, in any state ----

  /** `let v = e` of a new variable without annotation: the slot is named after it and has the written type of `e`. */
  lemma {:induction false} LetSlot(s: State, name: string, v: DefId, e: Expr)
    requires v !in LowerExpr(s, e).0.vars
    ensures var s1 := LowerExpr(s, e).0;
      var s' := LowerStmt(s, Let(name, v, Error, Some(e)));
      && s'.vars == s1.vars[v := |s1.body.locals|]
      && s'.body.locals == s1.body.locals + [LocalData(name, Written(e))]
  {
    hide LowerExpr;
  }

  /** With an annotation it has that. */
  lemma {:induction false} AnnotatedSlot(s: State, name: string, v: DefId, ty: Type, e: Expr)
    requires v !in LowerExpr(s, e).0.vars && ty != Error
    ensures var s1 := LowerExpr(s, e).0;
      var s' := LowerStmt(s, Let(name, v, ty, Some(e)));
      && s'.vars == s1.vars[v := |s1.body.locals|]
      && s'.body.locals == s1.body.locals + [LocalData(name, ty)]
  {
    hide LowerExpr, ExprType;
  }

  /** A variable not bound when it is read or assigned, as after `let v;`, gets a slot of unknown type. */
  lemma {:induction false} UnboundSlot(s: State, v: DefId, e: Expr)
    requires v !in LowerExpr(s, e).0.vars
    ensures var s1 := LowerExpr(s, e).0;
      var s' := LowerStmt(s, AssignStmt(v, e));
      && s'.vars == s1.vars[v := |s1.body.locals|]
      && s'.body.locals == s1.body.locals + [LocalData(DebugDef(v), Error)]
  {
    hide LowerExpr;
  }

  /** A call's value is in a slot of the type the call is annotated with. */
  lemma {:induction false} CallSlot(s: State, e: Expr)
    requires e.CallExpr? && e.retTy != Prim(Void)
    ensures var (s', op) := LowerOperand(s, e);
      && |s'.body.locals| > 0 && op == Move(|s'.body.locals| - 1)
      && s'.body.locals[|s'.body.locals| - 1].ty == e.retTy
  {
    assert LowerExpr(s, e) == LowerCall(s, e);
    hide LowerExpr, LowerOperands, LowerAsserts;
  }

  /** Arithmetic on two slots of unknown type is taken to be on 32-bit integers. */
  lemma {:induction false} UnknownArithmetic(s: State, op: BinaryOp, x: Expr, y: Expr, ty: Type)
    requires x.Ident? && y.Ident? && x.def in s.vars && y.def in s.vars && !Compares(op)
    requires OperandType(s.body.locals, Copy(s.vars[x.def])) == Error
    requires OperandType(s.body.locals, Copy(s.vars[y.def])) == Error
    ensures var (s', a) := LowerOperand(s, Bin(op, x, y, ty));
      a == Move(|s.body.locals|) && s'.body.locals == s.body.locals + [LocalData("tmp", Prim(I32))]
  {
    hide OperandType;
    assert LowerOperand(s, x) == (s, Copy(s.vars[x.def]));
    assert LowerOperand(s, y) == (s, Copy(s.vars[y.def]));
    var rv := Binary(MapBinOp(op), Copy(s.vars[x.def]), Copy(s.vars[y.def]));
    assert LowerExpr(s, Bin(op, x, y, ty)) == (s, rv);
  }

  /** A self tail call puts the parameters into slots of unknown type. */
  lemma {:induction false} ReboundSlots(s: State, defs: seq<DefId>, ops: seq<Operand>, i: nat)
    requires i <= |defs|
    ensures var locals := Rebind(s, defs, ops, i).body.locals;
      && s.body.locals <= locals
      && |locals| == |s.body.locals| + (if i >= |ops| then 0 else if |ops| < |defs| then |ops| - i else |defs| - i)
      && forall l :: |s.body.locals| <= l < |locals| ==> locals[l].ty == Error
    decreases |defs| - i
  {
    if i < |defs| {
      if i >= |ops| {
        ReboundSlots(s, defs, ops, i + 1);
      } else {
        var l := |s.body.locals|;
        var s1 := Push(NewLocal(s, "tco_p" + Digits(i), Error), Assign(l, Use(ops[i])));
        ReboundSlots(WriteVariable(s1, defs[i], l), defs, ops, i + 1);
      }
    }
  }

  // ---- Forges whose types fit ----

  // `decl`: the type of each variable.  `fits(a, b)`: a value of type `a` may be put into a slot of type `b`.
  // `mixes(a, b)`: arithmetic on values of these types gives one of type `Joint(a, b)`.  `negates(a)`: negation
  // gives one of the operand's type.  `answers(f, a)`: calling `f` gives values of type `a`.
  datatype Types = Types(
    decl: DefId -> Type, fits: (Type, Type) -> bool, mixes: (Type, Type) -> bool, negates: Type -> bool,
    answers: (string, Type) -> bool, check: bool, forgeName: string, clauses: Clauses)

  predicate Takes(T: Types, a: Type, b: Type) {
    a == b || T.fits(a, b)
  }

  /** The variables a `let` in `e` has bound once `e` is lowered. */
  function Lets(e: Expr): set<DefId> {
    match e
    case Bin(_, l, r, _) => Lets(l) + Lets(r)
    case Un(_, x, _) => Lets(x)
    case CallExpr(_, args, _, _) => LetsAll(args)
    case Given(c, t, el, _) => Lets(c) + LetsBlock(t) + (match el case None => {} case Some(x) => Lets(x))
    case While(c, b) => Lets(c) + LetsBlock(b)
    case ReturnExpr(r) => (match r case None => {} case Some(x) => Lets(x))
    case Zone(_, b, _) => LetsBlock(b)
    case _ => {}
  }

  function LetsAll(es: seq<Expr>): set<DefId> {
    if es == [] then {} else Lets(es[0]) + LetsAll(es[1..])
  }

  function LetsBlock(b: HBlock): set<DefId> {
    LetsStmts(b.stmts) + (match b.tail case None => {} case Some(x) => Lets(x))
  }

  function LetsStmts(ss: seq<Stmt>): set<DefId> {
    if ss == [] then {} else LetsStmt(ss[0]) + LetsStmts(ss[1..])
  }

  function LetsStmt(s: Stmt): set<DefId> {
    match s
    case Let(_, v, _, init) => (match init case None => {} case Some(x) => Lets(x) + {v})
    case AssignStmt(_, e) => Lets(e)
    case ExprStmt(e) => Lets(e)
  }

  /**
   In the order of lowering, with the variables `b` bound so far: every variable is bound before it is read or
   assigned, what is put into it fits, and operators are applied to types they work on.  No self tail calls.
   */
  predicate Fits(T: Types, b: set<DefId>, e: Expr)
    decreases ReturnNest(e), 1, e, 3
  {
    match e
    case Lit(_) => true
    case Ident(_, v, _) => v in b
    case Bin(op, l, r, _) =>
      && Fits(T, b, l) && Fits(T, b + Lets(l), r)
      && (Compares(op) || T.mixes(Worth(T.decl, l), Worth(T.decl, r)))
    case Un(op, x, _) => Fits(T, b, x) && (op.OpNot? || T.negates(Worth(T.decl, x)))
    case CallExpr(c, args, reqs, ty) =>
      && FitsAll(T, b, args) && (T.check ==> FitsAll(T, b + LetsAll(args), reqs))
      && (ty != Prim(Void) ==> T.answers(CalleeName(c), ty))
    case Given(c, t, el, _) =>
      && Fits(T, b, c) && FitsBlock(T, b + Lets(c), t)
      && (match el case None => true case Some(x) => Fits(T, b + Lets(c) + LetsBlock(t), x))
    case While(c, body) => Fits(T, b, c) && FitsBlock(T, b + Lets(c), body)
    case ReturnExpr(r) => (
      match r
      case None => true
      case Some(x) =>
        !IsSelfTailCall(T.forgeName, x) && Fits(T, b, x) && (T.check ==> FitsClauses(T, b + Lets(x), T.clauses, x)))
    case Zone(_, body, _) => FitsBlock(T, b, body)
  }

  predicate FitsAll(T: Types, b: set<DefId>, es: seq<Expr>)
    decreases ReturnNestAll(es), 1, es
  {
    es == [] || (Fits(T, b, es[0]) && FitsAll(T, b + Lets(es[0]), es[1..]))
  }

  /** Each clause, about the returned expression. */
  predicate FitsClauses(T: Types, b: set<DefId>, clauses: Clauses, x: Expr)
    decreases 1 + ReturnNest(x), 0, clauses
  {
    clauses == [] ||
    (SubstNest(clauses[0], x);
     var c := SubstResult(clauses[0], x);
     Fits(T, b, c) && FitsClauses(T, b + Lets(c), clauses[1..], x))
  }

  predicate FitsBlock(T: Types, b: set<DefId>, body: HBlock)
    decreases ReturnNestBlock(body), 1, body
  {
    FitsStmts(T, b, body.stmts)
    && (match body.tail case None => true case Some(e) => Fits(T, b + LetsStmts(body.stmts), e))
  }

  predicate FitsStmts(T: Types, b: set<DefId>, ss: seq<Stmt>)
    decreases ReturnNestStmts(ss), 1, ss
  {
    ss == [] || (FitsStmt(T, b, ss[0]) && FitsStmts(T, b + LetsStmt(ss[0]), ss[1..]))
  }

  predicate FitsStmt(T: Types, b: set<DefId>, st: Stmt)
    decreases ReturnNestStmt(st), 1, st
  {
    match st
    case Let(_, v, ty, init) => (
      match init
      case None => true
      case Some(e) =>
        && Fits(T, b, e) && T.decl(v) == (if ty == Error then Written(e) else ty)
        && Takes(T, Worth(T.decl, e), T.decl(v)))
    case AssignStmt(v, e) => Fits(T, b, e) && v in b + Lets(e) && Takes(T, Worth(T.decl, e), T.decl(v))
    case ExprStmt(e) => Fits(T, b, e)
  }

  ghost predicate FitsForge(T: Types, f: Forge) {
    && T.forgeName == f.name && T.clauses == f.ensures_
    && (forall p :: p in f.params ==> T.decl(p.def) == p.ty)
    && (f.body.Some? ==> FitsBlock(T, ParamSet(f.params), f.body.value))
  }

  function ParamSet(ps: seq<Param>): set<DefId> {
    set p | p in ps :: p.def
  }
}
