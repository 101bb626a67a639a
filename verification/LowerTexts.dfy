/** What lowering takes from the text as it is: names of callees, of the forge, of parameters and slots, messages. */
module LowerTexts {
  import opened Common
  import opened Mir
  import opened Hir
  import opened LowerSpec
  import opened LowerFrame

  // ---- Calls ----

  function LastOf(s: State): Option<Instruction> {
    var instrs := s.Cur().instrs;
    if instrs == [] then None else Some(instrs[|instrs| - 1])
  }

  /** The last instruction of a call's code calls the named function, and `unknown` where the callee is no name. */
  lemma {:induction false} NamedCall(s: State, e: Expr)
    requires e.CallExpr?
    ensures var last := LastOf(LowerExpr(s, e).0);
      && last.Some? && last.value.Call? && (last.value.into.None? <==> e.retTy == Prim(Void))
      && |last.value.args| == |e.args|
      && last.value.callee == match e.callee { case Ident(name, _, _) => name case _ => "unknown" }
  {
    assert LowerExpr(s, e) == LowerCall(s, e);
    hide LowerExpr, LowerOperands, LowerAsserts;
    OneOperandEach(s, e.args);
  }

  lemma {:induction false} OneOperandEach(s: State, es: seq<Expr>)
    ensures |LowerOperands(s, es).1| == |es|
    decreases |es|
  {
    hide LowerOperand;
    if es != [] {
      OneOperandEach(LowerOperand(s, es[0]).0, es[1..]);
    }
  }

  // ---- Returns ----

  /** Returning a call of the forge's own name goes back to the header; returning anything else returns a value. */
  lemma {:induction false} TailCallIff(s: State, x: Expr)
    ensures var s' := LowerExpr(s, ReturnExpr(Some(x))).0;
      match x
      case CallExpr(Ident(name, _, _), _, _, _) =>
        if name == s.forgeName then s'.Cur().term == Some(Goto(s.header)) else ReturnsValue(s'.Cur().term)
      case _ => ReturnsValue(s'.Cur().term)
  {
    var e := ReturnExpr(Some(x));
    ConfineExpr(s, e);
    SetupKept(s, LowerExpr(s, e).0);
    assert LowerExpr(s, e) == LowerReturn(s, e);
    hide LowerExpr, LowerOperands, LowerOperand, LowerClauses, Rebind, Confined;
  }

  predicate ReturnsValue(term: Option<Terminator>) {
    term.Some? && term.value.Return? && term.value.value.Some?
  }

  // ---- Parameters ----

  lemma {:induction false} SlotsInOrder(s: State, ps: seq<Param>)
    ensures var locals := BindParams(s, ps).body.locals;
      && |locals| == |s.body.locals| + |ps| && s.body.locals <= locals
      && forall i :: 0 <= i < |ps| ==> locals[|s.body.locals| + i] == LocalData(ps[i].name, ps[i].ty)
    decreases ps
  {
    if ps != [] {
      var n := |s.body.locals|;
      var s1 := WriteVariable(NewLocal(s, ps[0].name, ps[0].ty), ps[0].def, n);
      var locals := BindParams(s1, ps[1..]).body.locals;
      SlotsInOrder(s1, ps[1..]);
      forall i | 0 <= i < |ps|
        ensures locals[n + i] == LocalData(ps[i].name, ps[i].ty)
      {
        if i == 0 {
          assert locals[n] == s1.body.locals[n];
        } else {
          assert locals[n + 1 + (i - 1)] == LocalData(ps[1..][i - 1].name, ps[1..][i - 1].ty);
        }
      }
    }
  }

  // Parameter `i` is the last of its name.
  ghost predicate LastNamed(ps: seq<Param>, i: nat) {
    i < |ps| && forall j :: i < j < |ps| ==> ps[j].def != ps[i].def
  }

  lemma {:induction false} OtherVariables(s: State, ps: seq<Param>, v: DefId)
    requires v in s.vars && forall p :: p in ps ==> p.def != v
    ensures var s' := BindParams(s, ps); v in s'.vars && s'.vars[v] == s.vars[v]
    decreases ps
  {
    if ps != [] {
      assert ps[0] in ps;
      OtherVariables(WriteVariable(NewLocal(s, ps[0].name, ps[0].ty), ps[0].def, |s.body.locals|), ps[1..], v);
    }
  }

  lemma {:induction false} VariableInOrder(s: State, ps: seq<Param>, i: nat)
    requires LastNamed(ps, i)
    ensures var s' := BindParams(s, ps); ps[i].def in s'.vars && s'.vars[ps[i].def] == |s.body.locals| + i
    decreases ps
  {
    var s1 := WriteVariable(NewLocal(s, ps[0].name, ps[0].ty), ps[0].def, |s.body.locals|);
    if i == 0 {
      forall p | p in ps[1..]
        ensures p.def != ps[0].def
      {
        var j :| 0 <= j < |ps[1..]| && ps[1..][j] == p;
        assert ps[j + 1] == p;
      }
      OtherVariables(s1, ps[1..], ps[0].def);
    } else {
      VariableInOrder(s1, ps[1..], i - 1);
    }
  }

  lemma {:induction false} BindingKeeps(s: State, ps: seq<Param>)
    ensures var s' := BindParams(s, ps);
      s' == s.(body := s.body.(locals := s'.body.locals), vars := s'.vars)
    decreases ps
  {
    if ps != [] {
      BindingKeeps(WriteVariable(NewLocal(s, ps[0].name, ps[0].ty), ps[0].def, |s.body.locals|), ps[1..]);
    }
  }

  /** A forge starts with a slot for each parameter, in order, that its variables stand for, and nothing else. */
  lemma {:induction false} StartsWithParams(check: bool, f: Forge)
    requires ReturnNestAll(f.ensures_) == 0
    ensures var s := StartForge(check, f);
      && |s.body.locals| == |f.params| == |s.paramDefs| == s.body.argCount
      && (forall i :: 0 <= i < |f.params| ==>
            s.body.locals[i] == LocalData(f.params[i].name, f.params[i].ty) && s.paramDefs[i] == f.params[i].def)
      && (forall i: nat :: LastNamed(f.params, i) ==> f.params[i].def in s.vars && s.vars[f.params[i].def] == i)
      && s.forgeName == f.name && s.checkContracts == check && s.ensures_ == f.ensures_
      && s.header == s.cur == 1 && s.body.entry == 0 && s.body.blocks[0] == BasicBlock([], Some(Goto(1)))
  {
    var s0 := Lowering(MirBody([EMPTY_BLOCK, EMPTY_BLOCK], [], 0, [], |f.params|),
                       0, 1, f.name, ParamDefs(f.params), map[], check, f.ensures_);
    SlotsInOrder(s0, f.params);
    BindingKeeps(s0, f.params);
    hide BindParams;
    forall i: nat | LastNamed(f.params, i)
      ensures f.params[i].def in BindParams(s0, f.params).vars && BindParams(s0, f.params).vars[f.params[i].def] == i
    {
      VariableInOrder(s0, f.params, i);
    }
  }

  // ---- Messages ----

  /** A checked condition of a call fails as a precondition, a checked clause as a postcondition. */
  lemma {:induction false} CheckTexts(s: State, c: Expr, call: Expr, x: Expr)
    requires s.checkContracts && call.CallExpr? && call.reqs == [c] && ReturnNest(c) == 0
    ensures ReturnNestAll([c]) == 0
    ensures var instrs := LowerExpr(s, call).0.Cur().instrs;
      |instrs| >= 2 && instrs[|instrs| - 2].Assert? && instrs[|instrs| - 2].msg == "precondition violation"
    ensures var last := LastOf(LowerClauses(s, [c], x));
      last.Some? && last.value.Assert? && last.value.msg == "postcondition violation"
  {
    PreconditionText(s, c, call);
    SubstNest(c, x);
    assert ReturnNestAll([c]) == Max(ReturnNest(c), ReturnNestAll([]));
    hide LowerExpr, LowerOperand, LowerOperands;
    var (s1, op) := LowerOperand(s, SubstResult(c, x));
    assert LowerClauses(s, [c], x) == LowerClauses(Push(s1, Assert(op, POSTCONDITION)), [], x);
  }

  lemma {:induction false} PreconditionText(s: State, c: Expr, call: Expr)
    requires s.checkContracts && call.CallExpr? && call.reqs == [c]
    ensures var instrs := LowerExpr(s, call).0.Cur().instrs;
      |instrs| >= 2 && instrs[|instrs| - 2].Assert? && instrs[|instrs| - 2].msg == "precondition violation"
  {
    assert LowerExpr(s, call) == LowerCall(s, call);
    ConfineOperands(s, call.args);
    hide LowerExpr, LowerOperand, LowerOperands, Confined;
    var s1 := LowerOperands(s, call.args).0;
    SetupKept(s, s1);
    var (s2, op) := LowerOperand(s1, c);
    assert LowerAsserts(s1, [c], PRECONDITION) == LowerAsserts(Push(s2, Assert(op, PRECONDITION)), [], PRECONDITION);
  }

  // ---- Names of slots ----

  // The number that decimal digits stand for.
  function Number(s: string): int {
    if s == [] then 0 else 10 * Number(s[..|s| - 1]) + (s[|s| - 1] as int - '0' as int)
  }

  /** Numbers in names are written in decimal, without leading zeros. */
  lemma {:induction false} DigitsShape(n: nat)
    ensures var s := Digits(n);
      && s != [] && (forall c :: c in s ==> '0' <= c <= '9') && (s[0] == '0' ==> n == 0) && Number(s) == n
    decreases n
  {
    if n < 10 {
      assert Digits(n)[..0] == [];
    } else {
      DigitsShape(n / 10);
      var s := Digits(n / 10);
      assert Digits(n)[..|s|] == s;
    }
  }

  /** The slot made for a variable read before it is bound is named after it. */
  lemma {:induction false} UnboundName(s: State, v: DefId)
    requires v !in s.vars
    ensures var locals := ReadVariable(s, v).0.body.locals;
      && |locals| == |s.body.locals| + 1
      && locals[|s.body.locals|] == LocalData("vDefId(" + Digits(v) + ")", Error)
  {
  }
}
