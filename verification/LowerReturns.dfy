/**
 The implicit return value.  The language overview promises that a body's last expression is what the
 function returns; lowering ends an unfinished body with an empty return.
 */
module LowerReturns {
  import opened Common
  import opened MirSemantics
  import opened Hir
  import opened HirSemantics
  import opened LowerSpec
  import opened Fragment
  import opened LowerTheorem

  /** Running a forge as documented: reaching the end of the body returns the value of its last expression. */
  function RunDocumented(I: HirInterp, check: bool, f: Forge, args: seq<Value>, fuel: nat): Result
    requires |f.params| == |args| && ReturnNestAll(f.ensures_) == 0
  {
    if FallsOff(I, check, f, args, fuel) then
      var r := EvalBlock(I, Contracts(check, f.ensures_), f.body.value, BindArgs(map[], f.params, args), [], fuel);
      r.(out := Gave(Some(r.out.value)))
    else RunForge(I, check, f, args, map[], fuel)
  }

  /** The run reaches the end of a body that has a last expression. */
  predicate FallsOff(I: HirInterp, check: bool, f: Forge, args: seq<Value>, fuel: nat)
    requires |f.params| == |args| && ReturnNestAll(f.ensures_) == 0
  {
    && f.body.Some? && f.body.value.tail.Some?
    && EvalBlock(I, Contracts(check, f.ensures_), f.body.value, BindArgs(map[], f.params, args), [], fuel).out.Normal?
  }

  ghost predicate DocumentedEnds(I: HirInterp, check: bool, f: Forge, args: seq<Value>, status: Status, tr: seq<Event>)
    requires |f.params| == |args| && ReturnNestAll(f.ensures_) == 0
  {
    exists fuel: nat :: DocumentedEndsBy(I, check, f, args, status, tr, fuel)
  }

  ghost predicate DocumentedEndsBy(I: HirInterp, check: bool, f: Forge, args: seq<Value>, status: Status,
      tr: seq<Event>, fuel: nat)
    requires |f.params| == |args| && ReturnNestAll(f.ensures_) == 0
  {
    var r := RunDocumented(I, check, f, args, fuel);
    !r.out.OutOfFuel? && StatusOf(r.out) == status && r.trace == tr
  }

  /** The lowered forge ends as documented on these arguments. */
  ghost predicate AsDocumented(I: HirInterp, check: bool, f: Forge, args: seq<Value>)
    requires |f.params| == |args| && ReturnNestAll(f.ensures_) == 0
  {
    forall status, tr ::
      DocumentedEnds(I, check, f, args, status, tr) <==>
          MirEnds(I.mir, LowerForge(check, f), ArgStore(args), status, tr)
  }

  /**
   The implicit return value is honoured exactly on runs that do not reach the end of a body with a last expression.
   */
  lemma {:induction false} ImplicitReturnIff(I: HirInterp, check: bool, f: Forge, args: seq<Value>)
    requires SoundForge(check, f) && |f.params| == |args|
    ensures AsDocumented(I, check, f, args) <==> forall fuel: nat :: !FallsOff(I, check, f, args, fuel)
  {
    hide LowerForge, SoundBlock, RunForge, EvalBlock, MirEnds;
    if forall fuel: nat :: !FallsOff(I, check, f, args, fuel) {
      forall status, tr
        ensures DocumentedEnds(I, check, f, args, status, tr) <==> HirEnds(I, check, f, args, status, tr)
      {
        if DocumentedEnds(I, check, f, args, status, tr) {
          var fuel: nat :| DocumentedEndsBy(I, check, f, args, status, tr, fuel);
          assert HirEndsBy(I, check, f, args, status, tr, fuel);
        }
        if HirEnds(I, check, f, args, status, tr) {
          var fuel: nat :| HirEndsBy(I, check, f, args, status, tr, fuel);
          assert DocumentedEndsBy(I, check, f, args, status, tr, fuel);
        }
      }
      forall status, tr
        ensures HirEnds(I, check, f, args, status, tr) <==>
                MirEnds(I.mir, LowerForge(check, f), ArgStore(args), status, tr)
      {
        LoweringPreservesMeaning(I, check, f, args, status, tr);
      }
    } else {
      var fuel: nat :| FallsOff(I, check, f, args, fuel);
      ValueDropped(I, check, f, args, fuel);
    }
  }

  /** A run that reaches the end returns nothing, where the last expression's value was promised. */
  lemma {:induction false} ValueDropped(I: HirInterp, check: bool, f: Forge, args: seq<Value>, fuel: nat)
    requires SoundForge(check, f) && |f.params| == |args| && FallsOff(I, check, f, args, fuel)
    ensures var r := RunDocumented(I, check, f, args, fuel);
      && r.out.Gave? && r.out.result.Some?
      && DocumentedEnds(I, check, f, args, DidReturn(r.out.result), r.trace)
      && MirEnds(I.mir, LowerForge(check, f), ArgStore(args), DidReturn(None), r.trace)
      && !MirEnds(I.mir, LowerForge(check, f), ArgStore(args), DidReturn(r.out.result), r.trace)
  {
    hide LowerForge, SoundBlock, EvalBlock, MirEnds;
    var r := RunDocumented(I, check, f, args, fuel);
    assert DocumentedEndsBy(I, check, f, args, DidReturn(r.out.result), r.trace, fuel);
    assert HirEndsBy(I, check, f, args, DidReturn(None), r.trace, fuel);
    LoweringPreservesMeaning(I, check, f, args, DidReturn(None), r.trace);
    if MirEnds(I.mir, LowerForge(check, f), ArgStore(args), DidReturn(r.out.result), r.trace) {
      OneEnd(I.mir, LowerForge(check, f), ArgStore(args), DidReturn(None), r.trace, DidReturn(r.out.result), r.trace);
    }
  }

  // ---- A check on the text of the body ----

  lemma {:induction false} ExitsNotNormal(I: HirInterp, C: Contracts, e: Expr, env: Env, tr: seq<Event>, fuel: nat)
    requires Exits(e)
    ensures !Eval(I, C, e, env, tr, fuel).out.Normal?
    decreases e
  {
    if e.Zone? {
      BlockExitsNotNormal(I, C, e.body, env, tr, fuel);
    }
  }

  lemma {:induction false} BlockExitsNotNormal(I: HirInterp, C: Contracts, b: HBlock, env: Env, tr: seq<Event>,
      fuel: nat)
    requires BlockExits(b)
    ensures !EvalBlock(I, C, b, env, tr, fuel).out.Normal?
    decreases b
  {
    match b.tail
    case None =>
      StmtsExitNotNormal(I, C, b.stmts, env, tr, fuel);
    case Some(e) =>
      var r := EvalStmts(I, C, b.stmts, env, tr, fuel);
      if r.out.Normal? {
        ExitsNotNormal(I, C, e, r.env, r.trace, fuel);
      }
  }

  lemma {:induction false} StmtsExitNotNormal(I: HirInterp, C: Contracts, ss: seq<Stmt>, env: Env, tr: seq<Event>,
      fuel: nat)
    requires ss != [] && StmtExits(ss[|ss| - 1])
    ensures !EvalStmts(I, C, ss, env, tr, fuel).out.Normal?
    decreases ss
  {
    var r := EvalStmt(I, C, ss[0], env, tr, fuel);
    if |ss| == 1 {
      StmtExitsNotNormal(I, C, ss[0], env, tr, fuel);
    } else if r.out.Normal? {
      StmtsExitNotNormal(I, C, ss[1..], r.env, r.trace, fuel);
    }
  }

  lemma {:induction false} StmtExitsNotNormal(I: HirInterp, C: Contracts, st: Stmt, env: Env, tr: seq<Event>, fuel: nat)
    requires StmtExits(st)
    ensures !EvalStmt(I, C, st, env, tr, fuel).out.Normal?
    decreases st
  {
    ExitsNotNormal(I, C, st.expr, env, tr, fuel);
  }

  /** A body with no last expression, or whose last thing is a return, behaves as documented on every run. */
  lemma {:induction false} ExplicitReturnsAreSafe(I: HirInterp, check: bool, f: Forge, args: seq<Value>)
    requires SoundForge(check, f) && |f.params| == |args|
    requires f.body.Some? && f.body.value.tail.Some? ==> BlockExits(f.body.value)
    ensures AsDocumented(I, check, f, args)
  {
    hide LowerForge, SoundBlock, RunForge, AsDocumented;
    forall fuel: nat
      ensures !FallsOff(I, check, f, args, fuel)
    {
      if f.body.Some? && f.body.value.tail.Some? {
        BlockExitsNotNormal(I, Contracts(check, f.ensures_), f.body.value, BindArgs(map[], f.params, args), [], fuel);
      }
    }
    ImplicitReturnIff(I, check, f, args);
  }
}
