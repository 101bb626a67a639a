/** Facts about HIR evaluation alone. */
module HirFacts {
  import opened Common
  import opened Mir
  import opened MirSemantics
  import opened Hir
  import opened HirSemantics
  import opened LowerSpec
  import opened Fragment

  /** Evaluation leaves every variable outside `w` as it was. */
  ghost predicate Keeps(w: set<DefId>, env: Env, env': Env) {
    forall v :: v !in w ==> ReadVar(env', v) == ReadVar(env, v)
  }

  lemma {:induction false} EvalKeeps(I: HirInterp, C: Contracts, e: Expr, env: Env, tr: seq<Event>, fuel: nat)
    ensures Keeps(Writes(e), env, Eval(I, C, e, env, tr, fuel).env)
    decreases fuel, e
  {
    match e
    case Lit(_) =>
    case Ident(_, _, _) =>
    case Bin(_, l, r, _) =>
      var a := Eval(I, C, l, env, tr, fuel);
      EvalKeeps(I, C, l, env, tr, fuel);
      EvalKeeps(I, C, r, a.env, a.trace, fuel);
    case Un(_, x, _) => EvalKeeps(I, C, x, env, tr, fuel);
    case CallExpr(_, args, reqs, _) =>
      ListKeeps(I, C, args, env, tr, fuel);
      var a := EvalList(I, C, args, env, tr, fuel);
      if a.Values? {
        AssertsKeep(I, C, reqs, a.env, a.trace, fuel);
      }
    case Given(c, t, el, _) =>
      EvalKeeps(I, C, c, env, tr, fuel);
      var r := Eval(I, C, c, env, tr, fuel);
      if r.out.Normal? {
        var tr' := r.trace + [Switched(Key(r.out.value))];
        BlockKeeps(I, C, t, r.env, tr', fuel);
        if el.Some? {
          EvalKeeps(I, C, el.value, r.env, tr', fuel);
        }
      }
    case While(c, b) =>
      if fuel > 0 {
        EvalKeeps(I, C, c, env, tr, fuel);
        var r := Eval(I, C, c, env, tr, fuel);
        if r.out.Normal? && Key(r.out.value) == 1 {
          var tr' := r.trace + [Switched(Key(r.out.value))];
          BlockKeeps(I, C, b, r.env, tr', fuel);
          var q := EvalBlock(I, C, b, r.env, tr', fuel);
          EvalKeeps(I, C, e, q.env, q.trace, fuel - 1);
        }
      }
    case ReturnExpr(None) =>
    case ReturnExpr(Some(x)) => EvalKeeps(I, C, x, env, tr, fuel);
    case Zone(_, b, _) => BlockKeeps(I, C, b, env, tr, fuel);
  }

  lemma {:induction false} ListKeeps(I: HirInterp, C: Contracts, es: seq<Expr>, env: Env, tr: seq<Event>, fuel: nat)
    ensures var r := EvalList(I, C, es, env, tr, fuel);
      Keeps(WritesAll(es), env, if r.Cut? then r.cut.env else r.env)
    decreases fuel, es
  {
    if es != [] {
      var a := Eval(I, C, es[0], env, tr, fuel);
      EvalKeeps(I, C, es[0], env, tr, fuel);
      ListKeeps(I, C, es[1..], a.env, a.trace, fuel);
    }
  }

  lemma {:induction false} AssertsKeep(I: HirInterp, C: Contracts, es: seq<Expr>, env: Env, tr: seq<Event>, fuel: nat)
    ensures Keeps(WritesAll(es), env, EvalAsserts(I, C, es, env, tr, fuel).env)
    decreases fuel, es
  {
    if es != [] {
      var a := Eval(I, C, es[0], env, tr, fuel);
      EvalKeeps(I, C, es[0], env, tr, fuel);
      AssertsKeep(I, C, es[1..], a.env, a.trace, fuel);
    }
  }

  lemma {:induction false} BlockKeeps(I: HirInterp, C: Contracts, b: HBlock, env: Env, tr: seq<Event>, fuel: nat)
    ensures Keeps(WritesBlock(b), env, EvalBlock(I, C, b, env, tr, fuel).env)
    decreases fuel, b
  {
    var r := EvalStmts(I, C, b.stmts, env, tr, fuel);
    StmtsKeep(I, C, b.stmts, env, tr, fuel);
    if b.tail.Some? {
      EvalKeeps(I, C, b.tail.value, r.env, r.trace, fuel);
    }
  }

  lemma {:induction false} StmtsKeep(I: HirInterp, C: Contracts, ss: seq<Stmt>, env: Env, tr: seq<Event>, fuel: nat)
    ensures Keeps(WritesStmts(ss), env, EvalStmts(I, C, ss, env, tr, fuel).env)
    decreases fuel, ss
  {
    if ss != [] {
      var r := EvalStmt(I, C, ss[0], env, tr, fuel);
      StmtKeeps(I, C, ss[0], env, tr, fuel);
      StmtsKeep(I, C, ss[1..], r.env, r.trace, fuel);
    }
  }

  lemma {:induction false} StmtKeeps(I: HirInterp, C: Contracts, s: Stmt, env: Env, tr: seq<Event>, fuel: nat)
    ensures Keeps(WritesStmt(s), env, EvalStmt(I, C, s, env, tr, fuel).env)
    decreases fuel, s
  {
    match s
    case Let(_, _, _, None) =>
    case Let(_, _, _, Some(e)) => EvalKeeps(I, C, e, env, tr, fuel);
    case AssignStmt(_, e) => EvalKeeps(I, C, e, env, tr, fuel);
    case ExprStmt(e) => EvalKeeps(I, C, e, env, tr, fuel);
  }

  // ---- Pure expressions and contracts ----

  lemma {:induction false} PureEval(I: HirInterp, C: Contracts, e: Expr, env: Env, tr: seq<Event>, fuel: nat)
    requires Pure(e)
    ensures Eval(I, C, e, env, tr, fuel) == Result(Normal(PureValue(I, e, env, None)), env, tr)
    decreases e
  {
    match e
    case Bin(_, l, r, _) => PureEval(I, C, l, env, tr, fuel); PureEval(I, C, r, env, tr, fuel);
    case Un(_, x, _) => PureEval(I, C, x, env, tr, fuel);
    case _ =>
  }

  /**
   The substitution lemma: a clause with `result` replaced by the returned expression means the clause
   with `result` bound to the returned value.
   */
  lemma {:induction false} SubstMeaning(I: HirInterp, c: Expr, result: Expr, v: Value, env: Env)
    requires Pure(c)
    requires MentionsResult(c) ==> PureValue(I, result, env, None) == v
    ensures PureValue(I, SubstResult(c, result), env, None) == PureValue(I, c, env, Some(v))
    decreases c
  {
    match c
    case Bin(_, l, r, _) => SubstMeaning(I, l, result, v, env); SubstMeaning(I, r, result, v, env);
    case Un(_, x, _) => SubstMeaning(I, x, result, v, env);
    case _ =>
  }

  lemma {:induction false} SubstPure(c: Expr, result: Expr)
    requires Pure(c) && (Pure(result) || !MentionsResult(c))
    ensures Pure(SubstResult(c, result))
    decreases c
  {
    match c
    case Bin(_, l, r, _) => SubstPure(l, result); SubstPure(r, result);
    case Un(_, x, _) => SubstPure(x, result);
    case _ =>
  }

  lemma {:induction false} PureSound(C: Contracts, e: Expr)
    requires Pure(e)
    ensures Sound(C, e, true) && !Exits(e) && Writes(e) == {}
    decreases e
  {
    match e
    case Bin(_, l, r, _) => PureSound(C, l); PureSound(C, r);
    case Un(_, x, _) => PureSound(C, x);
    case _ =>
  }

  lemma {:induction false} PureShaped(m: Mode, e: Expr)
    requires Pure(e)
    ensures ShapedOperand(m, e)
    decreases e
  {
    match e
    case Bin(_, l, r, _) => PureShaped(m, l); PureShaped(m, r);
    case Un(_, x, _) => PureShaped(m, x);
    case _ =>
  }
}
