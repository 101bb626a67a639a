/**
 Runtime contract checks: what lowering with `check_contracts` adds to a program, and that it adds nothing else.
 */
module LowerContracts {
  import opened Common
  import opened Mir
  import opened MirSemantics
  import opened Hir
  import opened HirSemantics
  import opened LowerSpec
  import opened Fragment
  import opened LowerTheorem
  import HF = HirFacts

  // ---- Forges whose calls carry pure conditions only ----

  predicate Conds(e: Expr) {
    match e
    case Lit(_) => true
    case Ident(_, _, _) => true
    case Bin(_, l, r, _) => Conds(l) && Conds(r)
    case Un(_, x, _) => Conds(x)
    case CallExpr(_, args, reqs, _) => CondsAll(args) && PureAll(reqs)
    case Given(c, t, el, _) => Conds(c) && CondsBlock(t) && (match el case None => true case Some(x) => Conds(x))
    case While(c, b) => Conds(c) && CondsBlock(b)
    case ReturnExpr(r) => (match r case None => true case Some(x) => Conds(x))
    case Zone(_, b, _) => CondsBlock(b)
  }

  predicate CondsAll(es: seq<Expr>) {
    es == [] || (Conds(es[0]) && CondsAll(es[1..]))
  }

  predicate CondsBlock(b: HBlock) {
    CondsStmts(b.stmts) && (match b.tail case None => true case Some(x) => Conds(x))
  }

  predicate CondsStmts(ss: seq<Stmt>) {
    ss == [] || (CondsStmt(ss[0]) && CondsStmts(ss[1..]))
  }

  predicate CondsStmt(s: Stmt) {
    match s
    case Let(_, _, _, init) => (match init case None => true case Some(x) => Conds(x))
    case AssignStmt(_, e) => Conds(e)
    case ExprStmt(e) => Conds(e)
  }

  // ---- Events are only added ----

  lemma {:induction false} TraceGrows(I: HirInterp, C: Contracts, e: Expr, env: Env, tr: seq<Event>, fuel: nat)
    ensures tr <= Eval(I, C, e, env, tr, fuel).trace
    decreases fuel, e
  {
    match e
    case Lit(_) =>
    case Ident(_, _, _) =>
    case Bin(_, l, r, _) =>
      TraceGrows(I, C, l, env, tr, fuel);
      var a := Eval(I, C, l, env, tr, fuel);
      TraceGrows(I, C, r, a.env, a.trace, fuel);
    case Un(_, x, _) => TraceGrows(I, C, x, env, tr, fuel);
    case CallExpr(_, args, reqs, _) =>
      ListTraceGrows(I, C, args, env, tr, fuel);
      var a := EvalList(I, C, args, env, tr, fuel);
      if a.Values? {
        AssertsTraceGrows(I, C, reqs, a.env, a.trace, fuel);
      }
    case Given(c, t, el, _) =>
      TraceGrows(I, C, c, env, tr, fuel);
      var a := Eval(I, C, c, env, tr, fuel);
      if a.out.Normal? {
        var tr' := a.trace + [Switched(Key(a.out.value))];
        BlockTraceGrows(I, C, t, a.env, tr', fuel);
        if el.Some? {
          TraceGrows(I, C, el.value, a.env, tr', fuel);
        }
      }
    case While(c, b) =>
      if fuel > 0 {
        TraceGrows(I, C, c, env, tr, fuel);
        var a := Eval(I, C, c, env, tr, fuel);
        if a.out.Normal? {
          var tr' := a.trace + [Switched(Key(a.out.value))];
          BlockTraceGrows(I, C, b, a.env, tr', fuel);
          var q := EvalBlock(I, C, b, a.env, tr', fuel);
          TraceGrows(I, C, e, q.env, q.trace, fuel - 1);
        }
      }
    case ReturnExpr(None) =>
    case ReturnExpr(Some(x)) => TraceGrows(I, C, x, env, tr, fuel);
    case Zone(_, b, _) => BlockTraceGrows(I, C, b, env, tr, fuel);
  }

  lemma {:induction false} ListTraceGrows(I: HirInterp, C: Contracts, es: seq<Expr>, env: Env, tr: seq<Event>,
      fuel: nat)
    ensures var r := EvalList(I, C, es, env, tr, fuel);
      tr <= if r.Cut? then r.cut.trace else r.trace
    decreases fuel, es
  {
    if es != [] {
      TraceGrows(I, C, es[0], env, tr, fuel);
      var a := Eval(I, C, es[0], env, tr, fuel);
      ListTraceGrows(I, C, es[1..], a.env, a.trace, fuel);
    }
  }

  lemma {:induction false} AssertsTraceGrows(I: HirInterp, C: Contracts, es: seq<Expr>, env: Env, tr: seq<Event>,
      fuel: nat)
    ensures tr <= EvalAsserts(I, C, es, env, tr, fuel).trace
    decreases fuel, es
  {
    if es != [] {
      TraceGrows(I, C, es[0], env, tr, fuel);
      var a := Eval(I, C, es[0], env, tr, fuel);
      AssertsTraceGrows(I, C, es[1..], a.env, a.trace, fuel);
    }
  }

  lemma {:induction false} BlockTraceGrows(I: HirInterp, C: Contracts, b: HBlock, env: Env, tr: seq<Event>, fuel: nat)
    ensures tr <= EvalBlock(I, C, b, env, tr, fuel).trace
    decreases fuel, b
  {
    StmtsTraceGrows(I, C, b.stmts, env, tr, fuel);
    if b.tail.Some? {
      var r := EvalStmts(I, C, b.stmts, env, tr, fuel);
      TraceGrows(I, C, b.tail.value, r.env, r.trace, fuel);
    }
  }

  lemma {:induction false} StmtsTraceGrows(I: HirInterp, C: Contracts, ss: seq<Stmt>, env: Env, tr: seq<Event>,
      fuel: nat)
    ensures tr <= EvalStmts(I, C, ss, env, tr, fuel).trace
    decreases fuel, ss
  {
    if ss != [] {
      StmtTraceGrows(I, C, ss[0], env, tr, fuel);
      var r := EvalStmt(I, C, ss[0], env, tr, fuel);
      StmtsTraceGrows(I, C, ss[1..], r.env, r.trace, fuel);
    }
  }

  lemma {:induction false} StmtTraceGrows(I: HirInterp, C: Contracts, s: Stmt, env: Env, tr: seq<Event>, fuel: nat)
    ensures tr <= EvalStmt(I, C, s, env, tr, fuel).trace
    decreases fuel, s
  {
    match s
    case Let(_, _, _, None) =>
    case Let(_, _, _, Some(e)) => TraceGrows(I, C, e, env, tr, fuel);
    case AssignStmt(_, e) => TraceGrows(I, C, e, env, tr, fuel);
    case ExprStmt(e) => TraceGrows(I, C, e, env, tr, fuel);
  }

  // ---- Unchecked evaluation breaks no contract ----

  lemma {:induction false} NoFail(I: HirInterp, C: Contracts, e: Expr, env: Env, tr: seq<Event>, fuel: nat)
    requires !C.check
    ensures !Eval(I, C, e, env, tr, fuel).out.Failed?
    decreases fuel, e
  {
    match e
    case Lit(_) =>
    case Ident(_, _, _) =>
    case Bin(_, l, r, _) =>
      NoFail(I, C, l, env, tr, fuel);
      var a := Eval(I, C, l, env, tr, fuel);
      NoFail(I, C, r, a.env, a.trace, fuel);
    case Un(_, x, _) => NoFail(I, C, x, env, tr, fuel);
    case CallExpr(_, args, _, _) => ListNoFail(I, C, args, env, tr, fuel);
    case Given(c, t, el, _) =>
      NoFail(I, C, c, env, tr, fuel);
      var a := Eval(I, C, c, env, tr, fuel);
      if a.out.Normal? {
        var tr' := a.trace + [Switched(Key(a.out.value))];
        BlockNoFail(I, C, t, a.env, tr', fuel);
        if el.Some? {
          NoFail(I, C, el.value, a.env, tr', fuel);
        }
      }
    case While(c, b) =>
      if fuel > 0 {
        NoFail(I, C, c, env, tr, fuel);
        var a := Eval(I, C, c, env, tr, fuel);
        if a.out.Normal? {
          var tr' := a.trace + [Switched(Key(a.out.value))];
          BlockNoFail(I, C, b, a.env, tr', fuel);
          var q := EvalBlock(I, C, b, a.env, tr', fuel);
          NoFail(I, C, e, q.env, q.trace, fuel - 1);
        }
      }
    case ReturnExpr(None) =>
    case ReturnExpr(Some(x)) => NoFail(I, C, x, env, tr, fuel);
    case Zone(_, b, _) => BlockNoFail(I, C, b, env, tr, fuel);
  }

  lemma {:induction false} ListNoFail(I: HirInterp, C: Contracts, es: seq<Expr>, env: Env, tr: seq<Event>, fuel: nat)
    requires !C.check
    ensures var r := EvalList(I, C, es, env, tr, fuel); r.Cut? ==> !r.cut.out.Failed?
    decreases fuel, es
  {
    if es != [] {
      NoFail(I, C, es[0], env, tr, fuel);
      var a := Eval(I, C, es[0], env, tr, fuel);
      ListNoFail(I, C, es[1..], a.env, a.trace, fuel);
    }
  }

  lemma {:induction false} BlockNoFail(I: HirInterp, C: Contracts, b: HBlock, env: Env, tr: seq<Event>, fuel: nat)
    requires !C.check
    ensures !EvalBlock(I, C, b, env, tr, fuel).out.Failed?
    decreases fuel, b
  {
    StmtsNoFail(I, C, b.stmts, env, tr, fuel);
    if b.tail.Some? {
      var r := EvalStmts(I, C, b.stmts, env, tr, fuel);
      NoFail(I, C, b.tail.value, r.env, r.trace, fuel);
    }
  }

  lemma {:induction false} StmtsNoFail(I: HirInterp, C: Contracts, ss: seq<Stmt>, env: Env, tr: seq<Event>, fuel: nat)
    requires !C.check
    ensures !EvalStmts(I, C, ss, env, tr, fuel).out.Failed?
    decreases fuel, ss
  {
    if ss != [] {
      StmtNoFail(I, C, ss[0], env, tr, fuel);
      var r := EvalStmt(I, C, ss[0], env, tr, fuel);
      StmtsNoFail(I, C, ss[1..], r.env, r.trace, fuel);
    }
  }

  lemma {:induction false} StmtNoFail(I: HirInterp, C: Contracts, s: Stmt, env: Env, tr: seq<Event>, fuel: nat)
    requires !C.check
    ensures !EvalStmt(I, C, s, env, tr, fuel).out.Failed?
    decreases fuel, s
  {
    match s
    case Let(_, _, _, None) =>
    case Let(_, _, _, Some(e)) => NoFail(I, C, e, env, tr, fuel);
    case AssignStmt(_, e) => NoFail(I, C, e, env, tr, fuel);
    case ExprStmt(e) => NoFail(I, C, e, env, tr, fuel);
  }

  lemma {:induction false} UncheckedNeverFails(I: HirInterp, f: Forge, args: seq<Value>, fuel: nat)
    requires |f.params| == |args| && ReturnNestAll(f.ensures_) == 0
    ensures !RunForge(I, false, f, args, map[], fuel).out.Failed?
  {
    if f.body.Some? {
      BlockNoFail(I, Contracts(false, f.ensures_), f.body.value, BindArgs(map[], f.params, args), [], fuel);
    }
  }

  // ---- The first call condition that is false ----

  function Off(clauses: Clauses): Contracts {
    Contracts(false, clauses)
  }

  function On(clauses: Clauses): Contracts {
    Contracts(true, clauses)
  }

  predicate CondsTrue(I: HirInterp, reqs: seq<Expr>, env: Env) {
    reqs == [] || (Key(PureValue(I, reqs[0], env, None)) != 0 && CondsTrue(I, reqs[1..], env))
  }

  /**
   Looks along the unchecked evaluation for the first call whose conditions are not all true where its
   arguments have been evaluated; the variables and events there.
   */
  function Violation(I: HirInterp, C: Contracts, e: Expr, env: Env, tr: seq<Event>, fuel: nat)
    : Option<(Env, seq<Event>)>
    decreases fuel, e
  {
    match e
    case Lit(_) => None
    case Ident(_, _, _) => None
    case Bin(_, l, r, _) =>
      var v := Violation(I, C, l, env, tr, fuel);
      var a := Eval(I, C, l, env, tr, fuel);
      if v.Some? || !a.out.Normal? then v else Violation(I, C, r, a.env, a.trace, fuel)
    case Un(_, x, _) => Violation(I, C, x, env, tr, fuel)
    case CallExpr(_, args, reqs, _) =>
      var v := ListViolation(I, C, args, env, tr, fuel);
      var a := EvalList(I, C, args, env, tr, fuel);
      if v.Some? || a.Cut? then v
      else if CondsTrue(I, reqs, a.env) then None else Some((a.env, a.trace))
    case Given(c, t, el, _) =>
      var v := Violation(I, C, c, env, tr, fuel);
      var a := Eval(I, C, c, env, tr, fuel);
      if v.Some? || !a.out.Normal? then v
      else
        var tr' := a.trace + [Switched(Key(a.out.value))];
        if Key(a.out.value) == 1 then BlockViolation(I, C, t, a.env, tr', fuel)
        else (match el case None => None case Some(x) => Violation(I, C, x, a.env, tr', fuel))
    case While(c, b) =>
      if fuel == 0 then None
      else
        var v := Violation(I, C, c, env, tr, fuel);
        var a := Eval(I, C, c, env, tr, fuel);
        if v.Some? || !a.out.Normal? || Key(a.out.value) != 1 then v
        else
          var tr' := a.trace + [Switched(Key(a.out.value))];
          var w := BlockViolation(I, C, b, a.env, tr', fuel);
          var q := EvalBlock(I, C, b, a.env, tr', fuel);
          if w.Some? || !q.out.Normal? then w else Violation(I, C, e, q.env, q.trace, fuel - 1)
    case ReturnExpr(None) => None
    case ReturnExpr(Some(x)) => Violation(I, C, x, env, tr, fuel)
    case Zone(_, b, _) => BlockViolation(I, C, b, env, tr, fuel)
  }

  function ListViolation(I: HirInterp, C: Contracts, es: seq<Expr>, env: Env, tr: seq<Event>, fuel: nat)
    : Option<(Env, seq<Event>)>
    decreases fuel, es
  {
    if es == [] then None
    else
      var v := Violation(I, C, es[0], env, tr, fuel);
      var a := Eval(I, C, es[0], env, tr, fuel);
      if v.Some? || !a.out.Normal? then v else ListViolation(I, C, es[1..], a.env, a.trace, fuel)
  }

  function BlockViolation(I: HirInterp, C: Contracts, b: HBlock, env: Env, tr: seq<Event>, fuel: nat)
    : Option<(Env, seq<Event>)>
    decreases fuel, b
  {
    var v := StmtsViolation(I, C, b.stmts, env, tr, fuel);
    var r := EvalStmts(I, C, b.stmts, env, tr, fuel);
    if v.Some? || !r.out.Normal? then v
    else match b.tail case None => None case Some(e) => Violation(I, C, e, r.env, r.trace, fuel)
  }

  function StmtsViolation(I: HirInterp, C: Contracts, ss: seq<Stmt>, env: Env, tr: seq<Event>, fuel: nat)
    : Option<(Env, seq<Event>)>
    decreases fuel, ss
  {
    if ss == [] then None
    else
      var v := StmtViolation(I, C, ss[0], env, tr, fuel);
      var r := EvalStmt(I, C, ss[0], env, tr, fuel);
      if v.Some? || !r.out.Normal? then v else StmtsViolation(I, C, ss[1..], r.env, r.trace, fuel)
  }

  function StmtViolation(I: HirInterp, C: Contracts, s: Stmt, env: Env, tr: seq<Event>, fuel: nat)
    : Option<(Env, seq<Event>)>
    decreases fuel, s
  {
    match s
    case Let(_, _, _, None) => None
    case Let(_, _, _, Some(e)) => Violation(I, C, e, env, tr, fuel)
    case AssignStmt(_, e) => Violation(I, C, e, env, tr, fuel)
    case ExprStmt(e) => Violation(I, C, e, env, tr, fuel)
  }

  // ---- Checked against unchecked evaluation ----

  /**
   The checked result, if no call condition is false: as the unchecked one, unless the returned value breaks a clause.
   */
  function Checked1(I: HirInterp, clauses: Clauses, off: Result): Result {
    if off.out.Gave? && off.out.result.Some? && !ClausesHold(I, clauses, off.env, off.out.result.value)
    then off.(out := Failed(POSTCONDITION)) else off
  }

  /** Checked evaluation is unchecked evaluation, cut at the first false call condition, else with the return judged. */
  ghost predicate Judged(I: HirInterp, clauses: Clauses, on: Result, off: Result, v: Option<(Env, seq<Event>)>) {
    match v
    case Some((env, tr)) => on == Result(Failed(PRECONDITION), env, tr) && tr <= off.trace
    case None => on == Checked1(I, clauses, off)
  }

  lemma {:induction false} JudgeExpr(I: HirInterp, clauses: Clauses, e: Expr, env: Env, tr: seq<Event>, fuel: nat)
    requires Conds(e)
    ensures Judged(I, clauses, Eval(I, On(clauses), e, env, tr, fuel), Eval(I, Off(clauses), e, env, tr, fuel),
                   Violation(I, Off(clauses), e, env, tr, fuel))
    decreases fuel, e, 1
  {
    match e
    case Lit(_) =>
    case Ident(_, _, _) =>
    case Bin(_, _, _, _) => JudgeBin(I, clauses, e, env, tr, fuel);
    case Un(_, x, _) => JudgeExpr(I, clauses, x, env, tr, fuel);
    case CallExpr(_, _, _, _) => JudgeCall(I, clauses, e, env, tr, fuel);
    case Given(_, _, _, _) => JudgeGiven(I, clauses, e, env, tr, fuel);
    case While(_, _) => JudgeWhile(I, clauses, e, env, tr, fuel);
    case ReturnExpr(None) =>
    case ReturnExpr(Some(x)) => JudgeExpr(I, clauses, x, env, tr, fuel);
    case Zone(_, b, _) => JudgeBlock(I, clauses, b, env, tr, fuel);
  }

  lemma {:induction false} JudgeBin(I: HirInterp, clauses: Clauses, e: Expr, env: Env, tr: seq<Event>, fuel: nat)
    requires e.Bin? && Conds(e)
    ensures Judged(I, clauses, Eval(I, On(clauses), e, env, tr, fuel), Eval(I, Off(clauses), e, env, tr, fuel),
                   Violation(I, Off(clauses), e, env, tr, fuel))
    decreases fuel, e, 0
  {
    var a := Eval(I, Off(clauses), e.lhs, env, tr, fuel);
    JudgeExpr(I, clauses, e.lhs, env, tr, fuel);
    if a.out.Normal? {
      JudgeExpr(I, clauses, e.rhs, a.env, a.trace, fuel);
      TraceGrows(I, Off(clauses), e.rhs, a.env, a.trace, fuel);
    }
  }

  lemma {:induction false} JudgeCall(I: HirInterp, clauses: Clauses, e: Expr, env: Env, tr: seq<Event>, fuel: nat)
    requires e.CallExpr? && Conds(e)
    ensures Judged(I, clauses, Eval(I, On(clauses), e, env, tr, fuel), Eval(I, Off(clauses), e, env, tr, fuel),
                   Violation(I, Off(clauses), e, env, tr, fuel))
    decreases fuel, e, 0
  {
    JudgeList(I, clauses, e.args, env, tr, fuel);
    var a := EvalList(I, Off(clauses), e.args, env, tr, fuel);
    if a.Values? {
      PureAsserts(I, On(clauses), e.reqs, a.env, a.trace, fuel);
    }
  }

  lemma {:induction false} JudgeGiven(I: HirInterp, clauses: Clauses, e: Expr, env: Env, tr: seq<Event>, fuel: nat)
    requires e.Given? && Conds(e)
    ensures Judged(I, clauses, Eval(I, On(clauses), e, env, tr, fuel), Eval(I, Off(clauses), e, env, tr, fuel),
                   Violation(I, Off(clauses), e, env, tr, fuel))
    decreases fuel, e, 0
  {
    JudgeExpr(I, clauses, e.cond, env, tr, fuel);
    var a := Eval(I, Off(clauses), e.cond, env, tr, fuel);
    if a.out.Normal? {
      var tr' := a.trace + [Switched(Key(a.out.value))];
      if Key(a.out.value) == 1 {
        JudgeBlock(I, clauses, e.thenBlock, a.env, tr', fuel);
        BlockTraceGrows(I, Off(clauses), e.thenBlock, a.env, tr', fuel);
      } else if e.elseExpr.Some? {
        JudgeExpr(I, clauses, e.elseExpr.value, a.env, tr', fuel);
        TraceGrows(I, Off(clauses), e.elseExpr.value, a.env, tr', fuel);
      }
    }
  }

  lemma {:induction false} JudgeWhile(I: HirInterp, clauses: Clauses, e: Expr, env: Env, tr: seq<Event>, fuel: nat)
    requires e.While? && Conds(e)
    ensures Judged(I, clauses, Eval(I, On(clauses), e, env, tr, fuel), Eval(I, Off(clauses), e, env, tr, fuel),
                   Violation(I, Off(clauses), e, env, tr, fuel))
    decreases fuel, e, 0
  {
    if fuel > 0 {
      JudgeExpr(I, clauses, e.cond, env, tr, fuel);
      var a := Eval(I, Off(clauses), e.cond, env, tr, fuel);
      if a.out.Normal? && Key(a.out.value) == 1 {
        var tr' := a.trace + [Switched(Key(a.out.value))];
        JudgeBlock(I, clauses, e.body, a.env, tr', fuel);
        BlockTraceGrows(I, Off(clauses), e.body, a.env, tr', fuel);
        var q := EvalBlock(I, Off(clauses), e.body, a.env, tr', fuel);
        if q.out.Normal? {
          JudgeExpr(I, clauses, e, q.env, q.trace, fuel - 1);
          TraceGrows(I, Off(clauses), e, q.env, q.trace, fuel - 1);
        }
      }
    }
  }

  /** Pure conditions make no events and change nothing; they pass exactly if all are true. */
  lemma {:induction false} PureAsserts(I: HirInterp, C: Contracts, es: seq<Expr>, env: Env, tr: seq<Event>, fuel: nat)
    requires PureAll(es)
    ensures EvalAsserts(I, C, es, env, tr, fuel) ==
            Result(if CondsTrue(I, es, env) then Normal(UNIT) else Failed(PRECONDITION), env, tr)
    decreases es
  {
    if es != [] {
      HF.PureEval(I, C, es[0], env, tr, fuel);
      PureAsserts(I, C, es[1..], env, tr, fuel);
    }
  }

  lemma {:induction false} JudgeList(I: HirInterp, clauses: Clauses, es: seq<Expr>, env: Env, tr: seq<Event>,
      fuel: nat)
    requires CondsAll(es)
    ensures var (on, off) :=
                (EvalList(I, On(clauses), es, env, tr, fuel), EvalList(I, Off(clauses), es, env, tr, fuel));
      var v := ListViolation(I, Off(clauses), es, env, tr, fuel);
      match off
      case Values(_, _, tr') =>
        if v.Some? then on == Cut(Result(Failed(PRECONDITION), v.value.0, v.value.1)) && v.value.1 <= tr' else on == off
      case Cut(r) => on.Cut? && Judged(I, clauses, on.cut, r, v)
    decreases fuel, es
  {
    if es != [] {
      var a := Eval(I, Off(clauses), es[0], env, tr, fuel);
      JudgeExpr(I, clauses, es[0], env, tr, fuel);
      if a.out.Normal? {
        JudgeList(I, clauses, es[1..], a.env, a.trace, fuel);
        ListTraceGrows(I, Off(clauses), es[1..], a.env, a.trace, fuel);
      }
    }
  }

  lemma {:induction false} JudgeBlock(I: HirInterp, clauses: Clauses, b: HBlock, env: Env, tr: seq<Event>, fuel: nat)
    requires CondsBlock(b)
    ensures Judged(I, clauses, EvalBlock(I, On(clauses), b, env, tr, fuel),
                EvalBlock(I, Off(clauses), b, env, tr, fuel),
                   BlockViolation(I, Off(clauses), b, env, tr, fuel))
    decreases fuel, b
  {
    JudgeStmts(I, clauses, b.stmts, env, tr, fuel);
    var r := EvalStmts(I, Off(clauses), b.stmts, env, tr, fuel);
    if r.out.Normal? && b.tail.Some? {
      JudgeExpr(I, clauses, b.tail.value, r.env, r.trace, fuel);
      TraceGrows(I, Off(clauses), b.tail.value, r.env, r.trace, fuel);
    }
  }

  lemma {:induction false} JudgeStmts(I: HirInterp, clauses: Clauses, ss: seq<Stmt>, env: Env, tr: seq<Event>,
      fuel: nat)
    requires CondsStmts(ss)
    ensures Judged(I, clauses, EvalStmts(I, On(clauses), ss, env, tr, fuel),
                EvalStmts(I, Off(clauses), ss, env, tr, fuel),
                   StmtsViolation(I, Off(clauses), ss, env, tr, fuel))
    decreases fuel, ss
  {
    if ss != [] {
      JudgeStmt(I, clauses, ss[0], env, tr, fuel);
      var r := EvalStmt(I, Off(clauses), ss[0], env, tr, fuel);
      if r.out.Normal? {
        JudgeStmts(I, clauses, ss[1..], r.env, r.trace, fuel);
        StmtsTraceGrows(I, Off(clauses), ss[1..], r.env, r.trace, fuel);
      }
    }
  }

  lemma {:induction false} JudgeStmt(I: HirInterp, clauses: Clauses, s: Stmt, env: Env, tr: seq<Event>, fuel: nat)
    requires CondsStmt(s)
    ensures Judged(I, clauses, EvalStmt(I, On(clauses), s, env, tr, fuel), EvalStmt(I, Off(clauses), s, env, tr, fuel),
                   StmtViolation(I, Off(clauses), s, env, tr, fuel))
    decreases fuel, s
  {
    match s
    case Let(_, _, _, None) =>
    case Let(_, _, _, Some(e)) => JudgeExpr(I, clauses, e, env, tr, fuel);
    case AssignStmt(_, e) => JudgeExpr(I, clauses, e, env, tr, fuel);
    case ExprStmt(e) => JudgeExpr(I, clauses, e, env, tr, fuel);
  }

  // ---- The two lowerings of one forge ----

  predicate CondsForge(f: Forge) {
    f.body.Some? ==> CondsBlock(f.body.value)
  }

  /** The first false call condition on the way of the unchecked forge, with the events before it. */
  function ForgeViolation(I: HirInterp, f: Forge, args: seq<Value>, fuel: nat): Option<(Env, seq<Event>)>
    requires |f.params| == |args| && ReturnNestAll(f.ensures_) == 0
  {
    match f.body
    case None => None
    case Some(b) => BlockViolation(I, Off(f.ensures_), b, BindArgs(map[], f.params, args), [], fuel)
  }

  lemma {:induction false} JudgeForge(I: HirInterp, f: Forge, args: seq<Value>, fuel: nat)
    requires CondsForge(f) && |f.params| == |args| && ReturnNestAll(f.ensures_) == 0
    ensures Judged(I, f.ensures_, RunForge(I, true, f, args, map[], fuel), RunForge(I, false, f, args, map[], fuel),
                   ForgeViolation(I, f, args, fuel))
  {
    if f.body.Some? {
      var env := BindArgs(map[], f.params, args);
      JudgeBlock(I, f.ensures_, f.body.value, env, [], fuel);
    }
  }

  /**
   The forge itself, unchecked, returns `v` after the events `tr` with no call condition false on the way,
   and its clauses are true of `v` or not.
   */
  ghost predicate ReturnsJudged(I: HirInterp, f: Forge, args: seq<Value>, v: Option<Value>, tr: seq<Event>, ok: bool)
    requires |f.params| == |args| && ReturnNestAll(f.ensures_) == 0
  {
    exists fuel: nat :: ReturnsJudgedBy(I, f, args, v, tr, ok, fuel)
  }

  ghost predicate ReturnsJudgedBy(I: HirInterp, f: Forge, args: seq<Value>, v: Option<Value>, tr: seq<Event>,
      ok: bool, fuel: nat)
    requires |f.params| == |args| && ReturnNestAll(f.ensures_) == 0
  {
    var r := RunForge(I, false, f, args, map[], fuel);
    && r.out == Gave(v) && r.trace == tr && ForgeViolation(I, f, args, fuel).None?
    && ok == (v.Some? ==> ClausesHold(I, f.ensures_, r.env, v.value))
  }

  /** The unchecked forge comes, after the events `tr`, to a call with a false condition, the first such. */
  ghost predicate Violates(I: HirInterp, f: Forge, args: seq<Value>, tr: seq<Event>)
    requires |f.params| == |args| && ReturnNestAll(f.ensures_) == 0
  {
    exists fuel: nat :: ViolatesBy(I, f, args, tr, fuel)
  }

  ghost predicate ViolatesBy(I: HirInterp, f: Forge, args: seq<Value>, tr: seq<Event>, fuel: nat)
    requires |f.params| == |args| && ReturnNestAll(f.ensures_) == 0
  {
    var v := ForgeViolation(I, f, args, fuel);
    v.Some? && v.value.1 == tr
  }

  lemma {:induction false} ChecksReturn(I: HirInterp, f: Forge, args: seq<Value>, v: Option<Value>, tr: seq<Event>)
    requires CondsForge(f) && |f.params| == |args| && ReturnNestAll(f.ensures_) == 0
    ensures HirEnds(I, true, f, args, DidReturn(v), tr) <==> ReturnsJudged(I, f, args, v, tr, true)
  {
    hide RunForge, ForgeViolation, CondsForge;
    if HirEnds(I, true, f, args, DidReturn(v), tr) {
      var fuel: nat :| HirEndsBy(I, true, f, args, DidReturn(v), tr, fuel);
      JudgeForge(I, f, args, fuel);
      assert ReturnsJudgedBy(I, f, args, v, tr, true, fuel);
    }
    if ReturnsJudged(I, f, args, v, tr, true) {
      var fuel: nat :| ReturnsJudgedBy(I, f, args, v, tr, true, fuel);
      JudgeForge(I, f, args, fuel);
      assert HirEndsBy(I, true, f, args, DidReturn(v), tr, fuel);
    }
  }

  lemma {:induction false} ChecksPost(I: HirInterp, f: Forge, args: seq<Value>, tr: seq<Event>)
    requires CondsForge(f) && |f.params| == |args| && ReturnNestAll(f.ensures_) == 0
    ensures HirEnds(I, true, f, args, DidFail(POSTCONDITION), tr) <==>
                exists v :: ReturnsJudged(I, f, args, v, tr, false)
  {
    hide RunForge, ForgeViolation, CondsForge;
    if HirEnds(I, true, f, args, DidFail(POSTCONDITION), tr) {
      var fuel: nat :| HirEndsBy(I, true, f, args, DidFail(POSTCONDITION), tr, fuel);
      JudgeForge(I, f, args, fuel);
      var r := RunForge(I, false, f, args, map[], fuel);
      UncheckedNeverFails(I, f, args, fuel);
      assert ReturnsJudgedBy(I, f, args, r.out.result, tr, false, fuel);
      assert ReturnsJudged(I, f, args, r.out.result, tr, false);
    }
    if exists v :: ReturnsJudged(I, f, args, v, tr, false) {
      var v :| ReturnsJudged(I, f, args, v, tr, false);
      var fuel: nat :| ReturnsJudgedBy(I, f, args, v, tr, false, fuel);
      JudgeForge(I, f, args, fuel);
      assert HirEndsBy(I, true, f, args, DidFail(POSTCONDITION), tr, fuel);
    }
  }

  lemma {:induction false} ChecksPre(I: HirInterp, f: Forge, args: seq<Value>, tr: seq<Event>)
    requires CondsForge(f) && |f.params| == |args| && ReturnNestAll(f.ensures_) == 0
    ensures HirEnds(I, true, f, args, DidFail(PRECONDITION), tr) <==> Violates(I, f, args, tr)
  {
    hide RunForge, ForgeViolation, CondsForge;
    if HirEnds(I, true, f, args, DidFail(PRECONDITION), tr) {
      var fuel: nat :| HirEndsBy(I, true, f, args, DidFail(PRECONDITION), tr, fuel);
      JudgeForge(I, f, args, fuel);
      UncheckedNeverFails(I, f, args, fuel);
      assert ViolatesBy(I, f, args, tr, fuel);
    }
    if Violates(I, f, args, tr) {
      var fuel: nat :| ViolatesBy(I, f, args, tr, fuel);
      JudgeForge(I, f, args, fuel);
      assert HirEndsBy(I, true, f, args, DidFail(PRECONDITION), tr, fuel);
    }
  }

  /**
   Contracts are judged exactly, conditions of calls being pure: with checks on, the lowered forge stops at a
   precondition violation exactly where the forge first comes to a call with a false condition; it returns
   what the forge returns exactly when there is none and every clause is true of the returned value; and it
   stops at a postcondition violation exactly when there is none and some clause is false of it.
   */
  lemma {:induction false} ChecksJudgeRuns(I: HirInterp, f: Forge, args: seq<Value>, tr: seq<Event>)
    requires SoundForge(true, f) && CondsForge(f) && |f.params| == |args|
    ensures var on := LowerForge(true, f);
      && (MirEnds(I.mir, on, ArgStore(args), DidFail(PRECONDITION), tr) <==> Violates(I, f, args, tr))
      && (forall v :: MirEnds(I.mir, on, ArgStore(args), DidReturn(v), tr) <==> ReturnsJudged(I, f, args, v, tr, true))
      && (MirEnds(I.mir, on, ArgStore(args), DidFail(POSTCONDITION), tr) <==>
          exists v :: ReturnsJudged(I, f, args, v, tr, false))
  {
    hide LowerForge, RunForge, CondsForge, MirEnds, HirEnds, ReturnsJudged, Violates;
    LoweringPreservesMeaning(I, true, f, args, DidFail(PRECONDITION), tr);
    LoweringPreservesMeaning(I, true, f, args, DidFail(POSTCONDITION), tr);
    ChecksPre(I, f, args, tr);
    ChecksPost(I, f, args, tr);
    forall v
      ensures MirEnds(I.mir, LowerForge(true, f), ArgStore(args), DidReturn(v), tr) <==>
              ReturnsJudged(I, f, args, v, tr, true)
    {
      LoweringPreservesMeaning(I, true, f, args, DidReturn(v), tr);
      ChecksReturn(I, f, args, v, tr);
    }
  }

  ghost predicate RunsForEver(I: Interp, body: MirBody, store: Store) {
    forall n: nat :: Steps(I, body.blocks, Start(body.entry, store), n).Running?
  }

  lemma {:induction false} EndlessIff(I: HirInterp, check: bool, f: Forge, args: seq<Value>)
    requires SoundForge(check, f) && |f.params| == |args|
    ensures RunsForEver(I.mir, LowerForge(check, f), ArgStore(args)) <==>
            forall fuel: nat :: RunForge(I, check, f, args, map[], fuel).out.OutOfFuel?
  {
    hide LowerForge, RunForge, SoundBlock, ShapedBlock, Steps;
    if forall fuel: nat :: RunForge(I, check, f, args, map[], fuel).out.OutOfFuel? {
      LoweringPreservesDivergence(I, check, f, args);
    }
    if RunsForEver(I.mir, LowerForge(check, f), ArgStore(args)) {
      forall fuel: nat
        ensures RunForge(I, check, f, args, map[], fuel).out.OutOfFuel?
      {
        var r := RunForge(I, check, f, args, map[], fuel);
        if !r.out.OutOfFuel? {
          assert HirEndsBy(I, check, f, args, StatusOf(r.out), r.trace, fuel);
          LoweringPreservesMeaning(I, check, f, args, StatusOf(r.out), r.trace);
        }
      }
    }
  }

  /**
   With checks on the lowered forge runs for ever exactly when it does without and no call condition is ever false.
   */
  lemma {:induction false} ChecksKeepDivergence(I: HirInterp, f: Forge, args: seq<Value>)
    requires SoundForge(true, f) && SoundForge(false, f) && CondsForge(f) && |f.params| == |args|
    ensures RunsForEver(I.mir, LowerForge(true, f), ArgStore(args)) <==>
            RunsForEver(I.mir, LowerForge(false, f), ArgStore(args)) && forall tr :: !Violates(I, f, args, tr)
  {
    hide LowerForge, RunForge, SoundBlock, ShapedBlock, CondsForge, RunsForEver, ForgeViolation;
    EndlessIff(I, true, f, args);
    EndlessIff(I, false, f, args);
    forall fuel: nat
      ensures RunForge(I, true, f, args, map[], fuel).out.OutOfFuel? <==>
              RunForge(I, false, f, args, map[], fuel).out.OutOfFuel? && ForgeViolation(I, f, args, fuel).None?
    {
      JudgeForge(I, f, args, fuel);
    }
    if tr :| Violates(I, f, args, tr) {
      var fuel: nat :| ViolatesBy(I, f, args, tr, fuel);
      assert !RunForge(I, true, f, args, map[], fuel).out.OutOfFuel?;
    }
    if fuel: nat :| ForgeViolation(I, f, args, fuel).Some? {
      var tr := ForgeViolation(I, f, args, fuel).value.1;
      assert ViolatesBy(I, f, args, tr, fuel);
      assert Violates(I, f, args, tr);
      assert !RunForge(I, true, f, args, map[], fuel).out.OutOfFuel?;
    }
  }

  /**
   Checks never change a run, they can only cut it short: whatever the checked forge returns, after
   whatever events, so does the unchecked one; and where the unchecked forge returns, the checked one
   returns the same or has failed after a prefix of the same events.
   */
  lemma {:induction false} ChecksOnlyStop(I: HirInterp, f: Forge, args: seq<Value>, v: Option<Value>, tr: seq<Event>)
    requires SoundForge(true, f) && SoundForge(false, f) && CondsForge(f) && |f.params| == |args|
    ensures var (on, off, store) := (LowerForge(true, f), LowerForge(false, f), ArgStore(args));
      && (MirEnds(I.mir, on, store, DidReturn(v), tr) ==> MirEnds(I.mir, off, store, DidReturn(v), tr))
      && (MirEnds(I.mir, off, store, DidReturn(v), tr) ==>
          || MirEnds(I.mir, on, store, DidReturn(v), tr)
          || exists msg, tr' :: tr' <= tr && MirEnds(I.mir, on, store, DidFail(msg), tr'))
  {
    hide LowerForge, RunForge, SoundBlock, ShapedBlock, CondsForge, ForgeViolation;
    LoweringPreservesMeaning(I, true, f, args, DidReturn(v), tr);
    LoweringPreservesMeaning(I, false, f, args, DidReturn(v), tr);
    if HirEnds(I, true, f, args, DidReturn(v), tr) {
      var fuel: nat :| HirEndsBy(I, true, f, args, DidReturn(v), tr, fuel);
      JudgeForge(I, f, args, fuel);
      assert HirEndsBy(I, false, f, args, DidReturn(v), tr, fuel);
    }
    if HirEnds(I, false, f, args, DidReturn(v), tr) {
      var fuel: nat :| HirEndsBy(I, false, f, args, DidReturn(v), tr, fuel);
      JudgeForge(I, f, args, fuel);
      var on := RunForge(I, true, f, args, map[], fuel);
      assert HirEndsBy(I, true, f, args, StatusOf(on.out), on.trace, fuel);
      if on.out.Failed? {
        LoweringPreservesMeaning(I, true, f, args, DidFail(on.out.msg), on.trace);
      }
    }
  }
}
