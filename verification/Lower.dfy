/**
 `MirLowerer`, the object that builds a MIR body in place, proved to follow the functions of `LowerSpec`.
 */
module Lower {
  import opened Common
  import opened Mir
  import opened Hir
  import L = LowerSpec

  class MirLowerer {
    var body: MirBody
    var currentBlock: BlockId
    var header: BlockId
    var forgeName: string
    var paramDefs: seq<DefId>
    var vars: map<DefId, Local>
    var checkContracts: bool
    var currentEnsures: Clauses

    ghost predicate Valid()
      reads this
    {
      currentBlock < |body.blocks| && header < |body.blocks|
    }

    /** The fields as one value. */
    ghost function State(): L.State
      requires Valid()
      reads this
    {
      L.Lowering(body, currentBlock, header, forgeName, paramDefs, vars, checkContracts, currentEnsures)
    }

    /** Between forges: nothing has been lowered yet. */
    ghost predicate Idle()
      reads this
    {
      body == NEW_BODY
    }

    constructor (check: bool)
      ensures Idle() && Valid() && checkContracts == check
    {
      body, currentBlock, header := NEW_BODY, 0, 0;
      forgeName, paramDefs, vars := "", [], map[];
      checkContracts, currentEnsures := check, [];
    }

    // ---- Edits ----

    method AddNode() returns (id: BlockId)
      requires Valid()
      modifies this`body
      ensures Valid() && id == old(State()).Size() && State() == L.AddBlock(old(State()))
    {
      id := |body.blocks|;
      body := body.(blocks := body.blocks + [EMPTY_BLOCK]);
    }

    method AddEdge(src: BlockId, dst: BlockId, kind: EdgeKind)
      requires Valid()
      modifies this`body
      ensures Valid() && State() == L.AddEdge(old(State()), src, dst, kind)
    {
      body := body.(edges := body.edges + [Edge(src, dst, kind)]);
    }

    method Push(ins: Instruction)
      requires Valid()
      modifies this`body
      ensures Valid() && State() == L.Push(old(State()), ins)
    {
      var block := body.blocks[currentBlock];
      block := block.(instrs := block.instrs + [ins]);
      body := body.(blocks := body.blocks[currentBlock := block]);
    }

    method SetTerminator(b: BlockId, term: Terminator)
      requires Valid() && b < |body.blocks|
      modifies this`body
      ensures Valid() && State() == L.Terminate(old(State()), b, term)
    {
      var block := body.blocks[b];
      block := block.(term := Some(term));
      body := body.(blocks := body.blocks[b := block]);
    }

    method SwitchTo(b: BlockId)
      requires Valid() && b < |body.blocks|
      modifies this`currentBlock
      ensures Valid() && State() == L.MoveTo(old(State()), b)
    {
      currentBlock := b;
    }

    method NewLocal(name: string, ty: Type) returns (local: Local)
      requires Valid()
      modifies this`body
      ensures Valid() && local == |old(body).locals| && State() == L.NewLocal(old(State()), name, ty)
    {
      local := |body.locals|;
      body := body.(locals := body.locals + [LocalData(name, ty)]);
    }

    method WriteVariable(v: DefId, local: Local)
      requires Valid()
      modifies this`vars
      ensures Valid() && State() == L.WriteVariable(old(State()), v, local)
    {
      vars := vars[v := local];
    }

    method ReadVariable(v: DefId) returns (local: Local)
      requires Valid()
      modifies this`body, this`vars
      ensures Valid() && (State(), local) == L.ReadVariable(old(State()), v)
    {
      if v in vars {
        local := vars[v];
      } else {
        local := NewLocal(L.DebugDef(v), Error);
        WriteVariable(v, local);
      }
    }

    method RvalueToOperand(rv: Rvalue) returns (op: Operand)
      requires Valid()
      modifies this`body
      ensures Valid() && (State(), op) == L.ToOperand(old(State()), rv)
    {
      match rv
      case Use(o) => op := o;
      case _ =>
        var local := NewLocal("tmp", L.RvalueType(body.locals, rv));
        Push(Assign(local, rv));
        op := Move(local);
    }

    /** Ends the current block with a jump, if it has not ended. */
    method JoinTo(target: BlockId)
      requires Valid()
      modifies this`body
      ensures Valid() && State() == L.JoinTo(old(State()), target)
    {
      if body.blocks[currentBlock].term.None? {
        AddEdge(currentBlock, target, Unconditional);
        SetTerminator(currentBlock, Goto(target));
      }
    }

    // ---- Lowering ----

    method LowerBlock(b: HBlock) returns (rv: Rvalue)
      requires Valid()
      modifies `body, `currentBlock, `vars
      ensures Valid() && (State(), rv) == L.LowerBlock(old(State()), b)
      decreases ReturnNestBlock(b), 1, b
    {
      ghost var s0 := State();
      var i := 0;
      while i < |b.stmts|
        invariant i <= |b.stmts| && Valid()
        invariant ReturnNestStmts(b.stmts[i..]) <= ReturnNestStmts(b.stmts)
        invariant L.LowerStmts(State(), b.stmts[i..]) == L.LowerStmts(s0, b.stmts)
      {
        assert b.stmts[i..][0] == b.stmts[i] && b.stmts[i..][1..] == b.stmts[i + 1..];
        LowerStmt(b.stmts[i]);
        i := i + 1;
      }
      match b.tail
      case None => rv := L.FALSE_RV;
      case Some(e) => rv := LowerExpr(e);
    }

    method LowerStmt(st: Stmt)
      requires Valid()
      modifies `body, `currentBlock, `vars
      ensures Valid() && State() == L.LowerStmt(old(State()), st)
      decreases ReturnNestStmt(st), 1, st
    {
      match st
      case Let(name, v, ty, init) =>
        if init.Some? {
          var rv := LowerExpr(init.value);
          var local: Local;
          if v in vars {
            local := vars[v];
          } else {
            local := NewLocal(name, if ty == Error then L.ExprType(init.value) else ty);
            WriteVariable(v, local);
          }
          Push(Assign(local, rv));
        }
      case AssignStmt(v, e) =>
        var rv := LowerExpr(e);
        var local := ReadVariable(v);
        Push(Assign(local, rv));
      case ExprStmt(e) =>
        var _ := LowerExpr(e);
    }

    method LowerOperand(e: Expr) returns (op: Operand)
      requires Valid()
      modifies `body, `currentBlock, `vars
      ensures Valid() && (State(), op) == L.LowerOperand(old(State()), e)
      decreases ReturnNest(e), 1, e, 2
    {
      var rv := LowerExpr(e);
      op := RvalueToOperand(rv);
    }

    method LowerOperands(es: seq<Expr>) returns (ops: seq<Operand>)
      requires Valid()
      modifies `body, `currentBlock, `vars
      ensures Valid() && (State(), ops) == L.LowerOperands(old(State()), es)
      decreases ReturnNestAll(es), 1, es
    {
      ghost var s0 := State();
      ops := [];
      var i := 0;
      assert es[0..] == es && [] + L.LowerOperands(s0, es).1 == L.LowerOperands(s0, es).1;
      while i < |es|
        invariant i <= |es| && Valid()
        invariant ReturnNestAll(es[i..]) <= ReturnNestAll(es)
        invariant var (s', rest) := L.LowerOperands(State(), es[i..]);
          L.LowerOperands(s0, es) == (s', ops + rest)
      {
        assert es[i..][0] == es[i] && es[i..][1..] == es[i + 1..];
        ghost var rest := L.LowerOperands(L.LowerOperand(State(), es[i]).0, es[i + 1..]).1;
        var op := LowerOperand(es[i]);
        assert ops + ([op] + rest) == (ops + [op]) + rest;
        ops := ops + [op];
        i := i + 1;
      }
      assert ops + [] == ops;
    }

    /** The runtime checks of `requires` conditions. */
    method EmitAsserts(es: seq<Expr>, msg: string)
      requires Valid()
      modifies `body, `currentBlock, `vars
      ensures Valid() && State() == L.LowerAsserts(old(State()), es, msg)
      decreases ReturnNestAll(es), 1, es
    {
      ghost var s0 := State();
      var i := 0;
      while i < |es|
        invariant i <= |es| && Valid()
        invariant ReturnNestAll(es[i..]) <= ReturnNestAll(es)
        invariant L.LowerAsserts(State(), es[i..], msg) == L.LowerAsserts(s0, es, msg)
      {
        assert es[i..][0] == es[i] && es[i..][1..] == es[i + 1..];
        var op := LowerOperand(es[i]);
        Push(Assert(op, msg));
        i := i + 1;
      }
    }

    /** The runtime checks of `ensures` clauses, with the returned expression in place of `result`. */
    method EmitClauses(clauses: Clauses, result: Expr)
      requires Valid()
      modifies `body, `currentBlock, `vars
      ensures Valid() && State() == L.LowerClauses(old(State()), clauses, result)
      decreases 1 + ReturnNest(result), 0
    {
      ghost var s0 := State();
      var i := 0;
      while i < |clauses|
        invariant i <= |clauses| && Valid()
        invariant ReturnNestAll(clauses[i..]) == 0
        invariant L.LowerClauses(State(), clauses[i..], result) == L.LowerClauses(s0, clauses, result)
      {
        assert clauses[i..][0] == clauses[i] && clauses[i..][1..] == clauses[i + 1..];
        L.SubstNest(clauses[i], result);
        var op := LowerOperand(L.SubstResult(clauses[i], result));
        Push(Assert(op, POSTCONDITION));
        i := i + 1;
      }
    }

    method LowerExpr(e: Expr) returns (rv: Rvalue)
      requires Valid()
      modifies `body, `currentBlock, `vars
      ensures Valid() && (State(), rv) == L.LowerExpr(old(State()), e)
      decreases ReturnNest(e), 1, e, 1
    {
      match e
      case Lit(lit) => rv := Use(Const(L.LitConst(lit)));
      case Ident(_, v, _) =>
        var local := ReadVariable(v);
        rv := Use(Copy(local));
      case Zone(name, b, _) =>
        Push(ZoneEnter(name));
        rv := LowerBlock(b);
        Push(ZoneExit(name));
      case Bin(op, l, r, _) =>
        var lop := LowerOperand(l);
        var rop := LowerOperand(r);
        rv := Binary(L.MapBinOp(op), lop, rop);
      case Un(op, x, _) =>
        var xop := LowerOperand(x);
        rv := Unary(L.MapUnOp(op), xop);
      case CallExpr(_, _, _, _) => rv := LowerCall(e);
      case ReturnExpr(_) => rv := LowerReturn(e);
      case Given(_, _, _, _) => rv := LowerGiven(e);
      case While(_, _) => rv := LowerWhile(e);
    }

    method LowerCall(e: Expr) returns (rv: Rvalue)
      requires Valid() && e.CallExpr?
      modifies `body, `currentBlock, `vars
      ensures Valid() && (State(), rv) == L.LowerCall(old(State()), e)
      decreases ReturnNest(e), 1, e, 0
    {
      var operands := LowerOperands(e.args);
      if checkContracts {
        EmitAsserts(e.reqs, PRECONDITION);
      }
      if e.retTy == Prim(Void) {
        Push(Call(None, CalleeName(e.callee), operands));
        rv := L.FALSE_RV;
      } else {
        var local := NewLocal("call_tmp", e.retTy);
        Push(Call(Some(local), CalleeName(e.callee), operands));
        rv := Use(Move(local));
      }
    }

    method LowerReturn(e: Expr) returns (rv: Rvalue)
      requires Valid() && e.ReturnExpr?
      modifies `body, `currentBlock, `vars
      ensures Valid() && (State(), rv) == L.LowerReturn(old(State()), e)
      decreases ReturnNest(e), 1, e, 0
    {
      rv := L.ZERO_RV;
      match e.result
      case None => SetTerminator(currentBlock, Return(None));
      case Some(x) =>
        if L.IsSelfTailCall(forgeName, x) {
          assert ReturnNestAll(x.args) <= ReturnNest(x);
          var ops := LowerOperands(x.args);
          Rebind(ops);
          AddEdge(currentBlock, header, Unconditional);
          SetTerminator(currentBlock, Goto(header));
        } else {
          var op := LowerOperand(x);
          if checkContracts {
            EmitClauses(currentEnsures, x);
          }
          SetTerminator(currentBlock, Return(Some(op)));
        }
    }

    method Rebind(ops: seq<Operand>)
      requires Valid()
      modifies `body, `currentBlock, `vars
      ensures Valid() && State() == L.Rebind(old(State()), old(paramDefs), ops, 0)
    {
      ghost var s0 := State();
      var defs := paramDefs;
      var i := 0;
      while i < |defs|
        invariant i <= |defs| && Valid()
        invariant L.Rebind(State(), defs, ops, i) == L.Rebind(s0, defs, ops, 0)
      {
        if i < |ops| {
          var local := NewLocal("tco_p" + L.Digits(i), Error);
          Push(Assign(local, Use(ops[i])));
          WriteVariable(defs[i], local);
        }
        i := i + 1;
      }
    }

    /** Branches on `op` to two of three new blocks, and goes on in the first. */
    method OpenGiven(op: Operand) returns (elseId: BlockId, joinId: BlockId)
      requires Valid()
      modifies `body, `currentBlock, `vars
      ensures Valid() && State() == L.OpenGiven(old(State()), op)
      ensures elseId == old(State()).Size() + 1 && joinId == old(State()).Size() + 2
    {
      hide L.AddBlock, L.AddEdge, L.Terminate, L.MoveTo;
      var thenId := AddNode();
      elseId := AddNode();
      joinId := AddNode();
      AddEdge(currentBlock, thenId, Conditional(true));
      AddEdge(currentBlock, elseId, Conditional(false));
      SetTerminator(currentBlock, SwitchInt(op, [(1, thenId)], elseId));
      SwitchTo(thenId);
    }

    method LowerGiven(e: Expr) returns (rv: Rvalue)
      requires Valid() && e.Given?
      modifies `body, `currentBlock, `vars
      ensures Valid() && (State(), rv) == L.LowerExpr(old(State()), e)
      decreases ReturnNest(e), 1, e, 0
    {
      hide L.OpenGiven, L.MoveTo, L.JoinTo, L.LowerOperand, L.LowerBlock;
      var condOp := LowerOperand(e.cond);
      var elseId, joinId := OpenGiven(condOp);
      var _ := LowerBlock(e.thenBlock);
      JoinTo(joinId);
      SwitchTo(elseId);
      LowerElse(e.elseExpr, joinId);
      rv := L.ZERO_RV;
    }

    method LowerElse(elseExpr: Option<Expr>, joinId: BlockId)
      requires Valid() && joinId < |body.blocks|
      modifies `body, `currentBlock, `vars
      ensures Valid()
      ensures var s1 := (match elseExpr case None => old(State()) case Some(x) => L.LowerExpr(old(State()), x).0);
        State() == L.MoveTo(L.JoinTo(s1, joinId), joinId)
      decreases match elseExpr { case None => 0 case Some(x) => ReturnNest(x) }, 1, elseExpr
    {
      hide L.JoinTo, L.MoveTo, L.LowerExpr;
      if elseExpr.Some? {
        var _ := LowerExpr(elseExpr.value);
      }
      JoinTo(joinId);
      SwitchTo(joinId);
    }

    /** Jumps to the first of three new blocks, and goes on there. */
    method OpenWhile() returns (condId: BlockId)
      requires Valid()
      modifies `body, `currentBlock, `vars
      ensures Valid() && State() == L.OpenWhile(old(State())) && condId == old(State()).Size()
    {
      hide L.AddBlock, L.AddEdge, L.Terminate, L.MoveTo;
      condId := AddNode();
      var _ := AddNode();
      var _ := AddNode();
      AddEdge(currentBlock, condId, Unconditional);
      SetTerminator(currentBlock, Goto(condId));
      SwitchTo(condId);
    }

    /** Branches on `op` at `condId` to the body and exit blocks after it, and goes on in the body. */
    method BranchWhile(condId: BlockId, op: Operand)
      requires Valid() && condId + 2 < |body.blocks|
      modifies `body, `currentBlock, `vars
      ensures Valid() && State() == L.BranchWhile(old(State()), condId, op)
    {
      hide L.AddEdge, L.Terminate, L.MoveTo;
      var bodyId, exitId := condId + 1, condId + 2;
      AddEdge(condId, bodyId, Conditional(true));
      AddEdge(condId, exitId, Conditional(false));
      SetTerminator(condId, SwitchInt(op, [(1, bodyId)], exitId));
      SwitchTo(bodyId);
    }

    method LowerWhile(e: Expr) returns (rv: Rvalue)
      requires Valid() && e.While?
      modifies `body, `currentBlock, `vars
      ensures Valid() && (State(), rv) == L.LowerExpr(old(State()), e)
      decreases ReturnNest(e), 1, e, 0
    {
      hide L.OpenWhile, L.BranchWhile, L.MoveTo, L.JoinTo, L.LowerOperand, L.LowerBlock;
      var condId := OpenWhile();
      var condOp := LowerOperand(e.cond);
      BranchWhile(condId, condOp);
      var _ := LowerBlock(e.body);
      JoinTo(condId);
      SwitchTo(condId + 2);
      rv := L.FALSE_RV;
    }

    /** Slots for the parameters, and the jump from the entry to the header block. */
    method StartForge(f: Forge)
      requires Idle() && ReturnNestAll(f.ensures_) == 0
      modifies `body, `currentBlock, `header, `forgeName, `paramDefs, `vars, `currentEnsures
      ensures Valid() && State() == L.StartForge(old(checkContracts), f)
      ensures checkContracts == old(checkContracts)
    {
      vars := map[];
      currentEnsures := f.ensures_;
      body := body.(argCount := |f.params|);
      forgeName := f.name;
      paramDefs := L.ParamDefs(f.params);
      var entry := body.entry;
      currentBlock, header := entry, entry;
      header := AddNode();

      ghost var s0 := State();
      assert s0 == L.Lowering(MirBody([EMPTY_BLOCK, EMPTY_BLOCK], [], 0, [], |f.params|),
                              0, 1, f.name, L.ParamDefs(f.params), map[], old(checkContracts), f.ensures_);
      var i := 0;
      while i < |f.params|
        invariant i <= |f.params| && Valid()
        invariant L.BindParams(State(), f.params[i..]) == L.BindParams(s0, f.params)
      {
        var p := f.params[i];
        assert f.params[i..][0] == p && f.params[i..][1..] == f.params[i + 1..];
        var local := NewLocal(p.name, p.ty);
        WriteVariable(p.def, local);
        i := i + 1;
      }
      hide L.AddEdge, L.Terminate, L.MoveTo;
      AddEdge(entry, 1, Unconditional);
      SetTerminator(entry, Goto(1));
      SwitchTo(1);
    }

    /** Lowers a forge; what it returns depends on nothing lowered before, and the lowerer is ready for the next. */
    method LowerForge(f: Forge) returns (mir: MirBody)
      requires Idle() && ReturnNestAll(f.ensures_) == 0
      modifies this
      ensures mir == L.LowerForge(old(checkContracts), f)
      ensures Idle() && checkContracts == old(checkContracts)
    {
      StartForge(f);
      if f.body.Some? {
        var _ := LowerBlock(f.body.value);
      }
      if body.blocks[currentBlock].term.None? {
        SetTerminator(currentBlock, Return(None));
      }
      ghost var s := L.FinishForge(L.LowerBody(L.StartForge(old(checkContracts), f), f.body));
      assert State() == s;
      mir := body;
      body := NEW_BODY;
    }
  }
}
