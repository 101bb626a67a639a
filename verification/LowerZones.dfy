/**
 Zone markers in lowered code: well bracketed along every path and at every moment of every run, and which
 zones are still open at a return.
 */
module LowerZones {
  import opened Common
  import opened Mir
  import opened Hir
  import opened LowerSpec
  import opened Fragment
  import opened LowerFrame
  import opened LowerShape
  import opened LowerEarly

  // The zones open at a point, innermost last.
  type Zones = seq<string>

  function ZoneStep(ins: Instruction, z: Zones): Option<Zones> {
    match ins
    case ZoneEnter(name) => Some(z + [name])
    case ZoneExit(name) => if z != [] && z[|z| - 1] == name then Some(z[..|z| - 1]) else None
    case _ => Some(z)
  }

  /** The zones open after `instrs`, or `None` if some exit does not close the innermost open zone. */
  function ZonesAfter(instrs: seq<Instruction>, z: Zones): Option<Zones> {
    if instrs == [] then Some(z)
    else
      match ZonesAfter(instrs[..|instrs| - 1], z)
      case None => None
      case Some(y) => ZoneStep(instrs[|instrs| - 1], y)
  }

  lemma {:induction false} PushZones(instrs: seq<Instruction>, ins: Instruction, z: Zones)
    ensures ZonesAfter(instrs + [ins], z) ==
            match ZonesAfter(instrs, z) { case None => None case Some(y) => ZoneStep(ins, y) }
  {
    assert (instrs + [ins])[..|instrs|] == instrs;
  }

  // ---- A stack for every block ----

  predicate IsReturn(term: Option<Terminator>) {
    term.Some? && term.value.Return?
  }

  /**
   A finished block `b` that ends with `z` open: it is listed exactly if it returns, or goes back to the
   header `h`, with a zone open; and if it does not go back so, each block it leads to expects `z`.
   */
  ghost predicate FitsEnd(term: Option<Terminator>, at: seq<Zones>, h: BlockId, o: Outs, b: BlockId, z: Zones) {
    && (b in o.leaves <==> IsReturn(term) && z != [])
    && (b in o.jumps <==> term == Some(Goto(h)) && z != [])
    && (b !in o.jumps ==> forall t: BlockId :: t in Targets(term) ==> t < |at| && at[t] == z)
  }

  ghost predicate ZonedAt(blocks: seq<BasicBlock>, at: seq<Zones>, h: BlockId, o: Outs, b: BlockId)
    requires b < |blocks| == |at|
  {
    var z := ZonesAfter(blocks[b].instrs, at[b]);
    z.Some? && FitsEnd(blocks[b].term, at, h, o, b, z.value)
  }

  /** `at[b]` is the stack on entry to block `b`: every block runs well from it and ends as it should. */
  ghost predicate Zoned(blocks: seq<BasicBlock>, at: seq<Zones>, h: BlockId, o: Outs) {
    && |at| == |blocks| && h < |at| && at[h] == []
    && forall b: BlockId :: b < |blocks| ==> ZonedAt(blocks, at, h, o, b)
  }

  /** The current block is listed exactly if it has ended in a trapped return. */
  ghost predicate Listed(s: State, o: Outs, p: Place) {
    && (s.cur in o.leaves <==> p.trapped && IsReturn(s.Cur().term))
    && (s.cur in o.jumps <==> p.trapped && s.Cur().term == Some(Goto(s.header)))
  }

  /** While lowering: the blocks left behind fit, and the current one so far runs well up to the stack `top`. */
  ghost predicate ZonedTo(s: State, at: seq<Zones>, o: Outs, top: Zones, p: Place) {
    && |at| == s.Size() && at[s.header] == []
    && (forall b: BlockId :: b < s.Size() && b != s.cur ==> ZonedAt(s.body.blocks, at, s.header, o, b))
    && (forall b: BlockId :: b in o.leaves || b in o.jumps ==> b < s.Size())
    && ZonesAfter(s.Cur().instrs, at[s.cur]) == Some(top)
    && Listed(s, o, p)
  }

  /** `top` is the stack at a place in the source. */
  predicate StackAt(p: Place, top: Zones) {
    (p.inZone <==> top != []) && (p.trapped ==> p.inZone)
  }

  // ---- Edits ----

  lemma {:induction false} PushZoned(s: State, ins: Instruction, at: seq<Zones>, o: Outs, top: Zones, p: Place)
    requires ZonedTo(s, at, o, top, p) && ZoneStep(ins, top).Some?
    ensures ZonedTo(Push(s, ins), at, o, ZoneStep(ins, top).value, p)
  {
    hide FitsEnd;
    var s' := Push(s, ins);
    PushZones(s.Cur().instrs, ins, at[s.cur]);
    forall b: BlockId | b < s'.Size() && b != s'.cur
      ensures ZonedAt(s'.body.blocks, at, s'.header, o, b)
    {
      assert ZonedAt(s.body.blocks, at, s.header, o, b);
    }
  }

  lemma {:induction false} SameZones(s: State, s': State, at: seq<Zones>, o: Outs, top: Zones, p: Place)
    requires ZonedTo(s, at, o, top, p) && s'.body.blocks == s.body.blocks && s'.cur == s.cur && s'.header == s.header
    ensures ZonedTo(s', at, o, top, p)
  {
    hide FitsEnd;
    forall b: BlockId | b < s'.Size() && b != s'.cur
      ensures ZonedAt(s'.body.blocks, at, s'.header, o, b)
    {
      assert ZonedAt(s.body.blocks, at, s.header, o, b);
    }
  }

  /** Adding the current block to the list touches no other. */
  lemma {:induction false} OthersFit(s: State, s': State, at: seq<Zones>, o: Outs, o': Outs, b: BlockId)
    requires b < s.Size() == s'.Size() == |at| && b != s.cur && s'.body.blocks[b] == s.body.blocks[b]
    requires s'.header == s.header && ZonedAt(s.body.blocks, at, s.header, o, b)
    requires b in o'.leaves <==> b in o.leaves
    requires b in o'.jumps <==> b in o.jumps
    ensures ZonedAt(s'.body.blocks, at, s'.header, o', b)
  {
  }

  /** A return or a jump back to the header at place `p`: the block is listed if the place is trapped. */
  lemma {:induction false} ReturnZoned(s: State, s': State, term: Terminator, at: seq<Zones>, o: Outs, top: Zones,
      p: Place)
    requires ZonedTo(s, at, o, top, p) && s.Cur().term.None? && s'.cur == s.cur && s'.header == s.header
    requires s'.body.blocks == s.body.blocks[s.cur := BasicBlock(s.Cur().instrs, Some(term))]
    requires term.Return? || term == Goto(s.header)
    ensures ZonedTo(s', at, WithOut(o, p, !term.Return?, s.cur), top, p)
  {
    hide ZonedAt;
    var o' := WithOut(o, p, !term.Return?, s.cur);
    forall b: BlockId | b < s'.Size() && b != s'.cur
      ensures ZonedAt(s'.body.blocks, at, s'.header, o', b)
    {
      OthersFit(s, s', at, o, o', b);
    }
  }

  lemma {:induction false} RebindZoned(s: State, defs: seq<DefId>, ops: seq<Operand>, i: nat, at: seq<Zones>,
      o: Outs, top: Zones, p: Place)
    requires ZonedTo(s, at, o, top, p) && i <= |defs|
    ensures ZonedTo(Rebind(s, defs, ops, i), at, o, top, p)
    decreases |defs| - i
  {
    hide ZonedTo;
    if i < |defs| {
      if i >= |ops| {
        RebindZoned(s, defs, ops, i + 1, at, o, top, p);
      } else {
        var l := |s.body.locals|;
        var s1 := NewLocal(s, "tco_p" + Digits(i), Error);
        var s2 := Push(s1, Assign(l, Use(ops[i])));
        SameZones(s, s1, at, o, top, p);
        PushZoned(s1, Assign(l, Use(ops[i])), at, o, top, p);
        SameZones(s2, WriteVariable(s2, defs[i], l), at, o, top, p);
        RebindZoned(WriteVariable(s2, defs[i], l), defs, ops, i + 1, at, o, top, p);
      }
    }
  }

  // ---- Lowering ----

  ghost predicate ZoneReady(m: Mode, s: State, at: seq<Zones>, o: Outs, top: Zones, p: Place) {
    Ready(m, s) && ZonedTo(s, at, o, top, p) && StackAt(p, top)
  }

  /** The same stack is open afterwards, and blocks that existed expect what they expected. */
  ghost predicate Brackets(s': State, at: seq<Zones>, at': seq<Zones>, o: Outs, top: Zones, p: Place) {
    at <= at' && ZonedTo(s', at', o, top, p)
  }

  lemma {:induction false} ZoneExpr(m: Mode, s: State, e: Expr, at: seq<Zones>, o: Outs, top: Zones, p: Place)
    returns (at': seq<Zones>)
    requires ZoneReady(m, s, at, o, top, p) && Shaped(m, e)
    ensures Brackets(LowerExpr(s, e).0, at, at', OutsExpr(s, e, p, o), top, p)
    decreases ReturnNest(e), 1, e, 3
  {
    hide Ready, Grows, ZonedTo, StackAt;
    match e
    case Lit(_) => at' := at;
    case Ident(_, v, _) =>
      at' := at;
      SameZones(s, ReadVariable(s, v).0, at, o, top, p);
    case Bin(_, l, r, _) =>
      var s1 := LowerOperand(s, l).0;
      at' := ZoneOperand(m, s, l, at, o, top, p);
      at' := ZoneOperand(m, s1, r, at', OutsExpr(s, l, p, o), top, p);
    case Un(_, x, _) => at' := ZoneOperand(m, s, x, at, o, top, p);
    case CallExpr(_, _, _, _) => at' := ZoneCall(m, s, e, at, o, top, p);
    case ReturnExpr(_) => at' := ZoneReturn(m, s, e, at, o, top, p);
    case Zone(_, _, _) => at' := ZoneZone(m, s, e, at, o, top, p);
    case Given(_, _, _, _) => at' := ZoneGiven(m, s, e, at, o, top, p);
    case While(_, _) => at' := ZoneWhile(m, s, e, at, o, top, p);
  }

  lemma {:induction false} ZoneOperand(m: Mode, s: State, e: Expr, at: seq<Zones>, o: Outs, top: Zones, p: Place)
    returns (at': seq<Zones>)
    requires ZoneReady(m, s, at, o, top, p) && ShapedOperand(m, e)
    ensures Brackets(LowerOperand(s, e).0, at, at', OutsExpr(s, e, p, o), top, p)
    ensures Ready(m, LowerOperand(s, e).0)
    decreases ReturnNest(e), 1, e, 4
  {
    hide Ready, Grows, ZonedTo, StackAt;
    GrowOperand(m, s, e);
    StillReady(m, s, LowerOperand(s, e).0);
    var (s1, rv) := LowerExpr(s, e);
    at' := ZoneExpr(m, s, e, at, o, top, p);
    if !rv.Use? {
      var s2 := NewLocal(s1, "tmp", RvalueType(s1.body.locals, rv));
      SameZones(s1, s2, at', OutsExpr(s, e, p, o), top, p);
      PushZoned(s2, Assign(|s1.body.locals|, rv), at', OutsExpr(s, e, p, o), top, p);
    }
  }

  lemma {:induction false} ZoneOperands(m: Mode, s: State, es: seq<Expr>, at: seq<Zones>, o: Outs, top: Zones,
      p: Place)
    returns (at': seq<Zones>)
    requires ZoneReady(m, s, at, o, top, p) && ShapedOperands(m, es)
    ensures Brackets(LowerOperands(s, es).0, at, at', OutsOperands(s, es, p, o), top, p)
    ensures Ready(m, LowerOperands(s, es).0)
    decreases ReturnNestAll(es), 1, es
  {
    hide Ready, Grows, ZonedTo, StackAt;
    at' := at;
    if es != [] {
      var s1 := LowerOperand(s, es[0]).0;
      at' := ZoneOperand(m, s, es[0], at, o, top, p);
      at' := ZoneOperands(m, s1, es[1..], at', OutsExpr(s, es[0], p, o), top, p);
    }
  }

  lemma {:induction false} ZoneAsserts(m: Mode, s: State, es: seq<Expr>, at: seq<Zones>, o: Outs, top: Zones,
      p: Place)
    returns (at': seq<Zones>)
    requires ZoneReady(m, s, at, o, top, p) && ShapedOperands(m, es)
    ensures Brackets(LowerAsserts(s, es, PRECONDITION), at, at', OutsAsserts(s, es, p, o), top, p)
    ensures Ready(m, LowerAsserts(s, es, PRECONDITION))
    decreases ReturnNestAll(es), 1, es
  {
    hide Ready, Grows, ZonedTo, StackAt;
    at' := at;
    if es != [] {
      var (s1, op) := LowerOperand(s, es[0]);
      var s2 := Push(s1, Assert(op, PRECONDITION));
      var o1 := OutsExpr(s, es[0], p, o);
      at' := ZoneOperand(m, s, es[0], at, o, top, p);
      PushZoned(s1, Assert(op, PRECONDITION), at', o1, top, p);
      ReadyPush(m, s1, Assert(op, PRECONDITION));
      at' := ZoneAsserts(m, s2, es[1..], at', o1, top, p);
    }
  }

  lemma {:induction false} ReadyPush(m: Mode, s: State, ins: Instruction)
    requires Ready(m, s)
    ensures Ready(m, Push(s, ins))
  {
    GrowsRefl(m, s);
    PushGrows(m, s, s, false, ins);
    StillReady(m, s, Push(s, ins));
  }

  lemma {:induction false} ZoneClauses(m: Mode, s: State, clauses: Clauses, x: Expr, at: seq<Zones>, o: Outs,
      top: Zones, p: Place)
    returns (at': seq<Zones>)
    requires ZoneReady(m, s, at, o, top, p) && ShapedOperands(m, clauses) && ShapedOperand(m, x)
    ensures Brackets(LowerClauses(s, clauses, x), at, at', OutsClauses(s, clauses, x, p, o), top, p)
    ensures Ready(m, LowerClauses(s, clauses, x))
    decreases 1 + ReturnNest(x), 0, clauses
  {
    hide Ready, Grows, ZonedTo, StackAt;
    at' := at;
    if clauses != [] {
      var q := SubstResult(clauses[0], x);
      SubstNest(clauses[0], x);
      SubstShaped(m, clauses[0], x);
      var (s1, op) := LowerOperand(s, q);
      var check := Assert(op, POSTCONDITION);
      var o1 := OutsExpr(s, q, p, o);
      at' := ZoneOperand(m, s, q, at, o, top, p);
      PushZoned(s1, check, at', o1, top, p);
      ReadyPush(m, s1, check);
      at' := ZoneClauses(m, Push(s1, check), clauses[1..], x, at', o1, top, p);
    }
  }

  lemma {:induction false} ZoneCall(m: Mode, s: State, e: Expr, at: seq<Zones>, o: Outs, top: Zones, p: Place)
    returns (at': seq<Zones>)
    requires e.CallExpr? && ZoneReady(m, s, at, o, top, p) && Shaped(m, e)
    ensures Brackets(LowerExpr(s, e).0, at, at', OutsExpr(s, e, p, o), top, p)
    decreases ReturnNest(e), 1, e, 2
  {
    hide Ready, Grows, ZonedTo, StackAt;
    var CallExpr(callee, args, reqs, retTy) := e;
    var (s1, ops) := LowerOperands(s, args);
    GrowOperands(m, s, args);
    CheckKept(m, s, s1);
    var o1 := OutsOperands(s, args, p, o);
    at' := ZoneOperands(m, s, args, at, o, top, p);
    var s2 := if s1.checkContracts then LowerAsserts(s1, reqs, PRECONDITION) else s1;
    var o2 := if s.checkContracts then OutsAsserts(s1, reqs, p, o1) else o1;
    if m.check {
      at' := ZoneAsserts(m, s1, reqs, at', o1, top, p);
    }
    if retTy == Prim(Void) {
      PushZoned(s2, Call(None, CalleeName(callee), ops), at', o2, top, p);
    } else {
      var s3 := NewLocal(s2, "call_tmp", retTy);
      SameZones(s2, s3, at', o2, top, p);
      PushZoned(s3, Call(Some(|s2.body.locals|), CalleeName(callee), ops), at', o2, top, p);
    }
  }

  lemma {:induction false} CheckKept(m: Mode, s: State, s': State)
    requires Ready(m, s) && Grows(m, s, s', false)
    ensures s.checkContracts == s'.checkContracts == m.check && s.forgeName == s'.forgeName == m.forgeName
    ensures m.check ==> (m.gives <==> ShapedOperands(m, s'.ensures_))
    ensures s'.ensures_ == s.ensures_ && s'.Cur().term.None? && s'.header == s.header
  {
  }

  lemma {:induction false} ZoneReturn(m: Mode, s: State, e: Expr, at: seq<Zones>, o: Outs, top: Zones, p: Place)
    returns (at': seq<Zones>)
    requires e.ReturnExpr? && ZoneReady(m, s, at, o, top, p) && Shaped(m, e)
    ensures Brackets(LowerExpr(s, e).0, at, at', OutsExpr(s, e, p, o), top, p)
    decreases ReturnNest(e), 1, e, 2
  {
    hide Grows, ZonedTo, StackAt;
    assert LowerExpr(s, e) == LowerReturn(s, e);
    at' := at;
    match e.result
    case None => ReturnZoned(s, LowerReturn(s, e).0, Return(None), at, o, top, p);
    case Some(x) =>
      if IsSelfTailCall(s.forgeName, x) {
        at' := ZoneTailCall(m, s, e, at, o, top, p);
      } else {
        at' := ZoneGive(m, s, e, at, o, top, p);
      }
  }

  lemma {:induction false} ZoneTailCall(m: Mode, s: State, e: Expr, at: seq<Zones>, o: Outs, top: Zones, p: Place)
    returns (at': seq<Zones>)
    requires e.ReturnExpr? && e.result.Some? && IsSelfTailCall(s.forgeName, e.result.value)
    requires ZoneReady(m, s, at, o, top, p) && ShapedOperands(m, e.result.value.args)
    ensures Brackets(LowerReturn(s, e).0, at, at', OutsReturn(s, e, p, o), top, p)
    decreases ReturnNest(e), 1, e, 1
  {
    hide Ready, Grows, ZonedTo, StackAt;
    var x := e.result.value;
    assert ReturnNestAll(x.args) <= ReturnNest(x);
    var (s1, ops) := LowerOperands(s, x.args);
    GrowOperands(m, s, x.args);
    CheckKept(m, s, s1);
    var o1 := OutsOperands(s, x.args, p, o);
    at' := ZoneOperands(m, s, x.args, at, o, top, p);
    RebindZoned(s1, s1.paramDefs, ops, 0, at', o1, top, p);
    var s2 := Rebind(s1, s1.paramDefs, ops, 0);
    RebindOpen(s1, s1.paramDefs, ops, 0);
    var s3 := AddEdge(s2, s2.cur, s2.header, Unconditional);
    SameZones(s2, s3, at', o1, top, p);
    ReturnZoned(s3, Terminate(s3, s3.cur, Goto(s3.header)), Goto(s3.header), at', o1, top, p);
  }

  lemma {:induction false} RebindOpen(s: State, defs: seq<DefId>, ops: seq<Operand>, i: nat)
    requires i <= |defs| && s.Cur().term.None?
    ensures Rebind(s, defs, ops, i).Cur().term.None?
    decreases |defs| - i
  {
    if i < |defs| {
      if i >= |ops| {
        RebindOpen(s, defs, ops, i + 1);
      } else {
        var l := |s.body.locals|;
        var s1 := Push(NewLocal(s, "tco_p" + Digits(i), Error), Assign(l, Use(ops[i])));
        RebindOpen(WriteVariable(s1, defs[i], l), defs, ops, i + 1);
      }
    }
  }

  lemma {:induction false} ZoneGive(m: Mode, s: State, e: Expr, at: seq<Zones>, o: Outs, top: Zones, p: Place)
    returns (at': seq<Zones>)
    requires e.ReturnExpr? && e.result.Some? && !IsSelfTailCall(s.forgeName, e.result.value)
    requires ZoneReady(m, s, at, o, top, p) && Shaped(m, e)
    ensures Brackets(LowerReturn(s, e).0, at, at', OutsReturn(s, e, p, o), top, p)
    decreases ReturnNest(e), 1, e, 1
  {
    hide Ready, Grows, ZonedTo, StackAt;
    ReadyIs(m, s);
    var x := e.result.value;
    var (s1, op) := LowerOperand(s, x);
    GrowOperand(m, s, x);
    CheckKept(m, s, s1);
    var o1 := OutsExpr(s, x, p, o);
    at' := ZoneOperand(m, s, x, at, o, top, p);
    var s2 := if s1.checkContracts then LowerClauses(s1, s1.ensures_, x) else s1;
    var o2 := if s.checkContracts then OutsClauses(s1, s.ensures_, x, p, o1) else o1;
    if m.check {
      at' := ZoneClauses(m, s1, s1.ensures_, x, at', o1, top, p);
    }
    ReadyIs(m, s2);
    ReturnZoned(s2, Terminate(s2, s2.cur, Return(Some(op))), Return(Some(op)), at', o2, top, p);
  }

  lemma {:induction false} ZoneLowered(m: Mode, s: State, e: Expr)
    requires e.Zone?
    ensures LowerExpr(s, e).0 == Push(LowerBlock(Push(s, ZoneEnter(e.zone)), e.body).0, ZoneExit(e.zone))
    ensures Shaped(m, e) ==> ShapedBlock(m, e.body)
  {
    hide LowerBlock, Push, ShapedBlock;
  }

  lemma {:induction false} ZoneZone(m: Mode, s: State, e: Expr, at: seq<Zones>, o: Outs, top: Zones, p: Place)
    returns (at': seq<Zones>)
    requires e.Zone? && ZoneReady(m, s, at, o, top, p) && Shaped(m, e)
    ensures Brackets(LowerExpr(s, e).0, at, at', OutsExpr(s, e, p, o), top, p)
    decreases ReturnNest(e), 1, e, 2
  {
    hide ZonedTo, Ready, StackAt, LowerExpr, LowerBlock, Push, Shaped, ShapedBlock, Place.Inside;
    ZoneLowered(m, s, e);
    var s1 := Push(s, ZoneEnter(e.zone));
    var inner := top + [e.zone];
    EnterZoned(s, e.zone, at, o, top, p);
    ReadyPush(m, s, ZoneEnter(e.zone));
    at' := ZoneBlock(m, s1, e.body, at, o, inner, p.Inside());
    LeaveZoned(LowerBlock(s1, e.body).0, e.zone, at', OutsBlock(s1, e.body, p.Inside(), o), top, p);
  }

  lemma {:induction false} EnterZoned(s: State, z: string, at: seq<Zones>, o: Outs, top: Zones, p: Place)
    requires ZonedTo(s, at, o, top, p) && StackAt(p, top)
    ensures ZonedTo(Push(s, ZoneEnter(z)), at, o, top + [z], p.Inside()) && StackAt(p.Inside(), top + [z])
  {
    hide ZonedTo, Push;
    PushZoned(s, ZoneEnter(z), at, o, top, p);
    InsidePlace(Push(s, ZoneEnter(z)), at, o, top + [z], p);
  }

  lemma {:induction false} LeaveZoned(s: State, z: string, at: seq<Zones>, o: Outs, top: Zones, p: Place)
    requires ZonedTo(s, at, o, top + [z], p.Inside())
    ensures ZonedTo(Push(s, ZoneExit(z)), at, o, top, p)
  {
    hide ZonedTo, Push, Place.Inside;
    var inner := top + [z];
    assert inner[..|inner| - 1] == top;
    PushZoned(s, ZoneExit(z), at, o, inner, p.Inside());
    InsidePlace(Push(s, ZoneExit(z)), at, o, top, p);
  }

  // Entering and leaving a zone changes nothing about what is trapped.
  lemma {:induction false} InsidePlace(s: State, at: seq<Zones>, o: Outs, top: Zones, p: Place)
    ensures ZonedTo(s, at, o, top, p) <==> ZonedTo(s, at, o, top, p.Inside())
  {
    hide ZonedAt;
  }

  lemma {:induction false} ZoneBlock(m: Mode, s: State, b: HBlock, at: seq<Zones>, o: Outs, top: Zones, p: Place)
    returns (at': seq<Zones>)
    requires ZoneReady(m, s, at, o, top, p) && ShapedBlock(m, b)
    ensures Brackets(LowerBlock(s, b).0, at, at', OutsBlock(s, b, p, o), top, p)
    decreases ReturnNestBlock(b), 1, b
  {
    hide Ready, Grows, ZonedTo, StackAt;
    at' := ZoneStmts(m, s, b.stmts, b.tail.None?, at, o, top, p);
    if b.tail.Some? {
      var s1 := LowerStmts(s, b.stmts);
      GrowStmts(m, s, b.stmts, false);
      NoExit(m, b.stmts);
      StillReady(m, s, s1);
      at' := ZoneExpr(m, s1, b.tail.value, at', OutsStmts(s, b.stmts, p, o), top, p);
    }
  }

  lemma {:induction false} ZoneStmts(m: Mode, s: State, ss: seq<Stmt>, mayExit: bool, at: seq<Zones>, o: Outs,
      top: Zones, p: Place)
    returns (at': seq<Zones>)
    requires ZoneReady(m, s, at, o, top, p) && ShapedStmts(m, ss, mayExit)
    ensures Brackets(LowerStmts(s, ss), at, at', OutsStmts(s, ss, p, o), top, p)
    decreases ReturnNestStmts(ss), 1, ss
  {
    hide Ready, Grows, ZonedTo, StackAt;
    at' := at;
    if ss != [] {
      var s1 := LowerStmt(s, ss[0]);
      var o1 := OutsStmt(s, ss[0], p, o);
      at' := ZoneStmt(m, s, ss[0], at, o, top, p);
      if |ss| == 1 {
        assert ss[1..] == [] && LowerStmts(s1, []) == s1 && OutsStmts(s1, [], p, o1) == o1;
      } else {
        GrowStmt(m, s, ss[0]);
        StillReady(m, s, s1);
        at' := ZoneStmts(m, s1, ss[1..], mayExit, at', o1, top, p);
      }
    }
  }

  lemma {:induction false} ZoneStmt(m: Mode, s: State, st: Stmt, at: seq<Zones>, o: Outs, top: Zones, p: Place)
    returns (at': seq<Zones>)
    requires ZoneReady(m, s, at, o, top, p) && ShapedStmt(m, st)
    ensures Brackets(LowerStmt(s, st), at, at', OutsStmt(s, st, p, o), top, p)
    decreases ReturnNestStmt(st), 1, st
  {
    hide Ready, Grows, ZonedTo, StackAt;
    match st
    case Let(_, _, _, None) => at' := at;
    case Let(name, v, ty, Some(e)) =>
      var (s1, rv) := LowerExpr(s, e);
      var o1 := OutsExpr(s, e, p, o);
      at' := ZoneExpr(m, s, e, at, o, top, p);
      var (s2, l) := LetLocal(s1, name, v, ty, e);
      SameZones(s1, s2, at', o1, top, p);
      PushZoned(s2, Assign(l, rv), at', o1, top, p);
    case AssignStmt(v, e) =>
      var (s1, rv) := LowerExpr(s, e);
      var o1 := OutsExpr(s, e, p, o);
      at' := ZoneExpr(m, s, e, at, o, top, p);
      var (s2, l) := ReadVariable(s1, v);
      SameZones(s1, s2, at', o1, top, p);
      PushZoned(s2, Assign(l, rv), at', o1, top, p);
    case ExprStmt(e) => at' := ZoneExpr(m, s, e, at, o, top, p);
  }

  /** Three new blocks that all expect `top`, and a branch or jump to some of them. */
  lemma {:induction false} OpenZoned(s: State, s': State, term: Terminator, at: seq<Zones>, o: Outs, top: Zones,
      p: Place, q: Place)
    requires ZonedTo(s, at, o, top, p) && Opened(s, s', term) && s.Cur().term.None? && s'.header == s.header
    requires !term.Return? && forall t: BlockId :: t in Targets(Some(term)) ==> s.Size() <= t < s.Size() + 3
    ensures Brackets(s', at, at + [top, top, top], o, top, q)
  {
    var at' := at + [top, top, top];
    assert term == Goto(s.header) ==> s.header in Targets(Some(term));
    forall b: BlockId | b < s'.Size() && b != s'.cur
      ensures ZonedAt(s'.body.blocks, at', s'.header, o, b)
    {
      if b < s.Size() && b != s.cur {
        assert ZonedAt(s.body.blocks, at, s.header, o, b);
      }
    }
  }

  /**
   Ending a branch with a jump to a block that expects `top`, unless it ended before, and moving to another
   empty block that does.  A return that ended the branch is listed exactly if a zone is open around it.
   */
  lemma {:induction false} JoinZoned(s: State, s': State, target: BlockId, next: BlockId, at: seq<Zones>, o: Outs,
      top: Zones, p: Place, q: Place)
    requires ZonedTo(s, at, o, top, p.Branch()) && StackAt(p, top)
    requires Joined(s, s', target, next) && target < s.Size() && next < s.Size() && s'.header == s.header
    requires at[target] == top && at[next] == top && target != s.header && next != s.cur
    requires s'.body.blocks[next] == EMPTY_BLOCK
    requires s.Cur().term.Some? ==> IsReturn(s.Cur().term) || s.Cur().term == Some(Goto(s.header))
    ensures ZonedTo(s', at, o, top, q)
  {
    forall b: BlockId | b < s'.Size() && b != s'.cur
      ensures ZonedAt(s'.body.blocks, at, s'.header, o, b)
    {
      if b != s.cur {
        assert ZonedAt(s.body.blocks, at, s.header, o, b);
      }
    }
    assert ZonedAt(s.body.blocks, at, s.header, o, next);
  }

  /** A finished branch has ended in a return, in a jump back to the header, or not at all. */
  lemma {:induction false} EndsLeaving(m: Mode, s: State, s': State, exits: bool)
    requires Grows(m, s, s', exits)
    ensures s'.Cur().term.Some? ==> IsReturn(s'.Cur().term) || s'.Cur().term == Some(Goto(s'.header))
    ensures s'.header == s.header && s'.Size() >= s.Size()
  {
  }

  lemma {:induction false} BranchPlace(p: Place, top: Zones)
    requires StackAt(p, top)
    ensures StackAt(p.Branch(), top)
  {
  }

  lemma {:induction false} ZoneGiven(m: Mode, s: State, e: Expr, at: seq<Zones>, o: Outs, top: Zones, p: Place)
    returns (at': seq<Zones>)
    requires e.Given? && ZoneReady(m, s, at, o, top, p) && Shaped(m, e)
    ensures Brackets(LowerExpr(s, e).0, at, at', OutsExpr(s, e, p, o), top, p)
    decreases ReturnNest(e), 1, e, 2
  {
    hide Ready, ZonedTo, StackAt, LowerExpr, LowerOperand, AfterThen, AfterElse, HalfGiven, Shaped, ShapedOperand,
      ShapedBlock;
    GivenLowered(s, e);
    GivenShaped(m, e);
    var (s1, op) := LowerOperand(s, e.cond);
    var s4 := AfterThen(s1, op, e.thenBlock);
    var o1 := OutsExpr(s, e.cond, p, o);
    var o2 := OutsBlock(OpenGiven(s1, op), e.thenBlock, p.Branch(), o1);
    at' := ZoneOperand(m, s, e.cond, at, o, top, p);
    at' := ZoneThen(m, s1, op, e, at', o1, top, p);
    BranchPlace(p, top);
    at' := ZoneElse(m, s1, s4, op, e, at', o2, top, p);
  }

  lemma {:induction false} ThenParts(m: Mode, s1: State, op: Operand, e: Expr)
    requires e.Given? && Ready(m, s1) && ShapedBlock(m, e.thenBlock)
    ensures var n := s1.Size();
      var term := SwitchInt(op, [(1, n)], n + 1);
      var s2 := OpenGiven(s1, op);
      var s3 := LowerBlock(s2, e.thenBlock).0;
      var s4 := AfterThen(s1, op, e.thenBlock);
      && Ready(m, s2) && Opened(s1, s2, term) && s1.Cur().term.None? && s2.header == s1.header
      && Joined(s3, s4, n + 2, n + 1) && Ready(m, s4) && HalfGiven(s1, s4, op) && s3.cur != n + 1
      && (s3.Cur().term.Some? ==> IsReturn(s3.Cur().term) || s3.Cur().term == Some(Goto(s3.header)))
      && s4.header == s3.header == s2.header && n + 3 <= s3.Size()
      && (forall t: BlockId :: t in Targets(Some(term)) ==> n <= t < n + 3)
  {
    hide Ready, HalfGiven, Coherent, BlocksGrow, LowerBlock, OpenGiven, Kept, Opened, Grows;
    var n := s1.Size();
    var s2 := OpenGiven(s1, op);
    var s3 := LowerBlock(s2, e.thenBlock).0;
    ReadyIs(m, s1);
    GrowThen(m, s1, op, e);
    OpenGivenFacts(m, s1, op);
    KeptHeader(m, s1, s2);
    OpenedAt(s1, s2, SwitchInt(op, [(1, n)], n + 1));
    GrowBlock(m, s2, e.thenBlock);
    KeepsBlock(m, s2, s3, BlockExits(e.thenBlock), n + 1);
    JoinFacts(m, s2, s3, BlockExits(e.thenBlock), n + 2, n + 1);
    EndsLeaving(m, s2, s3, BlockExits(e.thenBlock));
  }

  lemma {:induction false} KeptHeader(m: Mode, a: State, s: State)
    requires Kept(m, a, s)
    ensures s.header == a.header
  {
  }

  lemma {:induction false} OpenedAt(s: State, s': State, term: Terminator)
    requires Opened(s, s', term)
    ensures s'.cur == s.Size() && s'.Size() == s.Size() + 3
  {
  }

  lemma {:induction false} HalfParts(s1: State, s4: State, op: Operand)
    requires HalfGiven(s1, s4, op)
    ensures var n := s1.Size();
      n + 3 <= s4.Size() && s4.cur == n + 1 && s4.body.blocks[n + 1] == s4.body.blocks[n + 2] == EMPTY_BLOCK
  {
  }

  lemma {:induction false} ZoneReadyIs(m: Mode, s: State, at: seq<Zones>, o: Outs, top: Zones, p: Place)
    requires ZoneReady(m, s, at, o, top, p)
    ensures Ready(m, s) && StackAt(p, top) && |at| == s.Size()
  {
  }

  lemma {:induction false} ThenReady(m: Mode, s1: State, op: Operand, at: seq<Zones>, o: Outs, top: Zones, p: Place)
    requires ZoneReady(m, s1, at, o, top, p)
    ensures ZoneReady(m, OpenGiven(s1, op), at + [top, top, top], o, top, p.Branch())
  {
    hide OpenGiven, Ready, Opened, ZonedTo, StackAt, Place.Branch, Kept;
    var n := s1.Size();
    var s2 := OpenGiven(s1, op);
    OpenGivenFacts(m, s1, op);
    KeptHeader(m, s1, s2);
    OpenedAt(s1, s2, SwitchInt(op, [(1, n)], n + 1));
    ReadyIs(m, s1);
    OpenZoned(s1, s2, SwitchInt(op, [(1, n)], n + 1), at, o, top, p, p.Branch());
    BranchPlace(p, top);
  }

  lemma {:induction false} ThreeTops(at: seq<Zones>, at': seq<Zones>, top: Zones)
    requires at + [top, top, top] <= at'
    ensures at <= at' && |at| + 2 < |at'| && at'[|at| + 1] == at'[|at| + 2] == top
  {
    var at1 := at + [top, top, top];
    assert at'[|at| + 1] == at1[|at| + 1] && at'[|at| + 2] == at1[|at| + 2];
  }

  lemma {:induction false} ZoneThen(m: Mode, s1: State, op: Operand, e: Expr, at: seq<Zones>, o: Outs, top: Zones,
      p: Place)
    returns (at': seq<Zones>)
    requires e.Given? && ZoneReady(m, s1, at, o, top, p) && ShapedBlock(m, e.thenBlock)
    ensures var s4 := AfterThen(s1, op, e.thenBlock);
      && Ready(m, s4) && HalfGiven(s1, s4, op) && s4.header == s1.header
      && Brackets(s4, at, at', OutsBlock(OpenGiven(s1, op), e.thenBlock, p.Branch(), o), top, p.Branch())
      && s1.Size() + 2 < |at'| && at'[s1.Size() + 2] == top
    decreases ReturnNest(e), 1, e, 1
  {
    var n := s1.Size();
    var s2 := OpenGiven(s1, op);
    var s3 := LowerBlock(s2, e.thenBlock).0;
    var s4 := AfterThen(s1, op, e.thenBlock);
    var at1 := at + [top, top, top];
    hide ZoneReady, Ready, Opened, Grows, ZonedTo, HalfGiven, Joined, StackAt, Place.Branch, ShapedBlock;
    hide LowerBlock, OpenGiven, AfterThen, OutsBlock;
    ZoneReadyIs(m, s1, at, o, top, p);
    ThenParts(m, s1, op, e);
    HalfParts(s1, s4, op);
    ThenReady(m, s1, op, at, o, top, p);
    at' := ZoneBlock(m, s2, e.thenBlock, at1, o, top, p.Branch());
    var o1 := OutsBlock(s2, e.thenBlock, p.Branch(), o);
    ZonesSized(s3, at', o1, top, p.Branch());
    ThreeTops(at, at', top);
    JoinZoned(s3, s4, n + 2, n + 1, at', o1, top, p, p.Branch());
  }

  lemma {:induction false} ZonesSized(s: State, at: seq<Zones>, o: Outs, top: Zones, p: Place)
    requires ZonedTo(s, at, o, top, p)
    ensures |at| == s.Size()
  {
  }

  lemma {:induction false} ElseParts(m: Mode, s1: State, s4: State, op: Operand, e: Expr)
    requires e.Given? && Ready(m, s4) && HalfGiven(s1, s4, op) && Shaped(m, e)
    ensures var n := s1.Size();
      var s5 := OptLower(s4, e.elseExpr);
      && n + 3 <= s5.Size() && var s6 := AfterElse(s4, n, e.elseExpr);
      && Joined(s5, s6, n + 2, n + 2) && s5.cur != n + 2 && s6.body.blocks[n + 2] == EMPTY_BLOCK
      && (s5.Cur().term.Some? ==> IsReturn(s5.Cur().term) || s5.Cur().term == Some(Goto(s5.header)))
      && s6.header == s5.header == s4.header
  {
    hide LowerExpr, Shaped, ShapedOperand, ShapedBlock, Ready, Coherent, BlocksGrow, Exits, OptExits, HalfGiven, Grows;
    GivenShaped(m, e);
    HalfParts(s1, s4, op);
    OptExitsIs(e.elseExpr);
    var n := s1.Size();
    var s5 := OptLower(s4, e.elseExpr);
    match e.elseExpr {
      case None => GrowsRefl(m, s4);
      case Some(x) => GrowExpr(m, s4, x);
    }
    KeepsBlock(m, s4, s5, OptExits(e.elseExpr), n + 2);
    JoinFacts(m, s4, s5, OptExits(e.elseExpr), n + 2, n + 2);
    EndsLeaving(m, s4, s5, OptExits(e.elseExpr));
  }

  lemma {:induction false} ZoneElse(m: Mode, s1: State, s4: State, op: Operand, e: Expr, at: seq<Zones>, o: Outs,
      top: Zones, p: Place)
    returns (at': seq<Zones>)
    requires e.Given? && ZoneReady(m, s4, at, o, top, p.Branch()) && StackAt(p, top) && Shaped(m, e)
    requires HalfGiven(s1, s4, op) && s1.header == s4.header && at[s1.Size() + 2] == top
    ensures var o' := match e.elseExpr { case None => o case Some(x) => OutsExpr(s4, x, p.Branch(), o) };
      Brackets(AfterElse(s4, s1.Size(), e.elseExpr), at, at', o', top, p)
    decreases ReturnNest(e), 1, e, 1
  {
    var n := s1.Size();
    var s5 := OptLower(s4, e.elseExpr);
    var s6 := AfterElse(s4, n, e.elseExpr);
    var o' := match e.elseExpr case None => o case Some(x) => OutsExpr(s4, x, p.Branch(), o);
    GivenShaped(m, e);
    ElseParts(m, s1, s4, op, e);
    hide Ready, HalfGiven, Shaped, ShapedOperand, ShapedBlock, ZonedTo, StackAt, Joined, AfterElse, Place.Branch;
    at' := at;
    match e.elseExpr {
      case None =>
      case Some(x) => at' := ZoneExpr(m, s4, x, at, o, top, p.Branch());
    }
    ZonesSized(s5, at', o', top, p.Branch());
    JoinZoned(s5, s6, n + 2, n + 2, at', o', top, p, p);
  }

  /** The branch of a loop, both of whose targets expect `top`. */
  lemma {:induction false} BranchZoned(s: State, s': State, c: BlockId, op: Operand, at: seq<Zones>, o: Outs,
      top: Zones, p: Place, q: Place)
    requires ZonedTo(s, at, o, top, p) && Branched(s, s', c, op) && at[c + 1] == at[c + 2] == top
    requires s.Cur().term.None? && s'.body.blocks[c + 1] == EMPTY_BLOCK && s'.header == s.header
    ensures ZonedTo(s', at, o, top, q)
  {
    forall b: BlockId | b < s'.Size() && b != s'.cur
      ensures ZonedAt(s'.body.blocks, at, s'.header, o, b)
    {
      if b != c {
        assert ZonedAt(s.body.blocks, at, s.header, o, b);
      }
    }
    assert ZonedAt(s.body.blocks, at, s.header, o, c + 1);
  }

  // The condition and the branch: the body block and the exit block are still empty.
  lemma {:induction false} CondParts(m: Mode, s: State, e: Expr)
    requires e.While? && Ready(m, s) && Shaped(m, e)
    ensures var c := s.Size();
      var s1 := OpenWhile(s);
      var (s2, op) := LowerOperand(s1, e.cond);
      && Ready(m, s1) && Opened(s, s1, Goto(c)) && s1.header == s.header
      && s2.cur == c && c + 3 <= s2.Size() && s2.Cur().term.None? && s2.header == s.header
      && var s3 := BranchWhile(s2, c, op);
      && Branched(s2, s3, c, op) && Ready(m, s3) && s3.cur == c + 1 && c + 3 <= s3.Size() && s3.header == s.header
      && s3.body.blocks[c + 1] == s3.body.blocks[c + 2] == EMPTY_BLOCK
  {
    WhileShaped(m, e);
    hide Ready, Grows, Kept, LowerOperand, OpenWhile, Shaped, Coherent, Straight, ShapedOperand, ShapedBlock;
    var c := s.Size();
    var s1 := OpenWhile(s);
    var (s2, op) := LowerOperand(s1, e.cond);
    OpenWhileFacts(m, s);
    KeptHeader(m, s, s1);
    ReadyIs(m, s1);
    GrowOperand(m, s1, e.cond);
    StraightOperandStays(s1, e.cond);
    StillReady(m, s1, s2);
    CheckKept(m, s1, s2);
    KeepsBlock(m, s1, s2, false, c + 1);
    KeepsBlock(m, s1, s2, false, c + 2);
    BranchWhileFacts(m, s2, c, op);
  }

  // The body, and the jump back that leaves the exit block current.
  lemma {:induction false} BodyParts(m: Mode, s3: State, b: HBlock, c: BlockId)
    requires Ready(m, s3) && ShapedBlock(m, b)
    requires s3.cur == c + 1 && c + 3 <= s3.Size() && s3.body.blocks[c + 2] == EMPTY_BLOCK
    ensures var s4 := LowerBlock(s3, b).0;
      && c + 3 <= s4.Size() && s4.header == s3.header && s4.cur != c + 2
      && (s4.Cur().term.Some? ==> IsReturn(s4.Cur().term) || s4.Cur().term == Some(Goto(s4.header)))
      && var s5 := MoveTo(JoinTo(s4, c), c + 2);
      && Joined(s4, s5, c, c + 2) && s5.body.blocks[c + 2] == EMPTY_BLOCK && s5.header == s4.header
  {
    hide Ready, Grows, LowerBlock, ShapedBlock, BlockExits, Kept;
    var s4 := LowerBlock(s3, b).0;
    GrowBlock(m, s3, b);
    KeepsBlock(m, s3, s4, BlockExits(b), c + 2);
    JoinFacts(m, s3, s4, BlockExits(b), c, c + 2);
    EndsLeaving(m, s3, s4, BlockExits(b));
  }

  lemma {:induction false} ZoneWhile(m: Mode, s: State, e: Expr, at: seq<Zones>, o: Outs, top: Zones, p: Place)
    returns (at': seq<Zones>)
    requires e.While? && ZoneReady(m, s, at, o, top, p) && Shaped(m, e)
    ensures Brackets(LowerExpr(s, e).0, at, at', OutsExpr(s, e, p, o), top, p)
    decreases ReturnNest(e), 1, e, 2
  {
    hide Ready, ZonedTo, StackAt, LowerBlock, LowerOperand, OpenWhile, BranchWhile, LowerExpr, Place.Branch, Shaped,
      ShapedBlock, ShapedOperand, Joined, JoinTo, MoveTo;
    var c := s.Size();
    var s1 := OpenWhile(s);
    var (s2, op) := LowerOperand(s1, e.cond);
    var s3 := BranchWhile(s2, c, op);
    ReadyIs(m, s);
    WhileShaped(m, e);
    WhileLowered(s, e);
    BranchPlace(p, top);
    at' := ZoneCond(m, s, e, at, o, top, p);
    at' := ZoneLoop(m, s3, e, c, at', OutsExpr(s1, e.cond, p, o), top, p);
  }

  lemma {:induction false} ZoneCond(m: Mode, s: State, e: Expr, at: seq<Zones>, o: Outs, top: Zones, p: Place)
    returns (at': seq<Zones>)
    requires e.While? && ZoneReady(m, s, at, o, top, p) && Shaped(m, e)
    ensures var c := s.Size();
      var s1 := OpenWhile(s);
      var (s2, op) := LowerOperand(s1, e.cond);
      && c + 2 < s2.Size() && var s3 := BranchWhile(s2, c, op);
      && Ready(m, s3) && Brackets(s3, at, at', OutsExpr(s1, e.cond, p, o), top, p.Branch())
      && s3.cur == c + 1 && c + 3 <= s3.Size() == |at'| && s3.body.blocks[c + 2] == EMPTY_BLOCK && c != s3.header
      && at'[c] == at'[c + 2] == top
    decreases ReturnNest(e), 1, e, 1
  {
    hide Ready, ZonedTo, StackAt, LowerOperand, OpenWhile, BranchWhile, Opened, Branched, Place.Branch, Shaped,
      ShapedOperand, ShapedBlock;
    var c := s.Size();
    var s1 := OpenWhile(s);
    var (s2, op) := LowerOperand(s1, e.cond);
    var s3 := BranchWhile(s2, c, op);
    ReadyIs(m, s);
    WhileShaped(m, e);
    CondParts(m, s, e);
    ZonesSized(s, at, o, top, p);
    var at1 := at + [top, top, top];
    assert at1[c] == at1[c + 1] == at1[c + 2] == top;
    OpenZoned(s, s1, Goto(c), at, o, top, p, p);
    at' := ZoneOperand(m, s1, e.cond, at1, o, top, p);
    var o1 := OutsExpr(s1, e.cond, p, o);
    ZonesSized(s2, at', o1, top, p);
    assert at'[c] == at'[c + 1] == at'[c + 2] == top;
    BranchZoned(s2, s3, c, op, at', o1, top, p, p.Branch());
    ZonesSized(s3, at', o1, top, p.Branch());
  }

  lemma {:induction false} ZoneLoop(m: Mode, s3: State, e: Expr, c: BlockId, at: seq<Zones>, o: Outs, top: Zones,
      p: Place)
    returns (at': seq<Zones>)
    requires e.While? && ShapedBlock(m, e.body) && ZoneReady(m, s3, at, o, top, p.Branch()) && StackAt(p, top)
    requires s3.cur == c + 1 && c + 3 <= s3.Size() == |at| && s3.body.blocks[c + 2] == EMPTY_BLOCK && c != s3.header
    requires at[c] == at[c + 2] == top
    ensures var s4 := LowerBlock(s3, e.body).0;
      c + 3 <= s4.Size()
      && Brackets(MoveTo(JoinTo(s4, c), c + 2), at, at', OutsBlock(s3, e.body, p.Branch(), o), top, p)
    decreases ReturnNest(e), 1, e, 1
  {
    hide Ready, ZonedTo, StackAt, LowerBlock, JoinTo, MoveTo, Joined, Place.Branch, ShapedBlock, OutsBlock;
    var s4 := LowerBlock(s3, e.body).0;
    BodyParts(m, s3, e.body, c);
    at' := ZoneBlock(m, s3, e.body, at, o, top, p.Branch());
    ZonesSized(s4, at', OutsBlock(s3, e.body, p.Branch(), o), top, p.Branch());
    JoinZoned(s4, MoveTo(JoinTo(s4, c), c + 2), c, c + 2, at', OutsBlock(s3, e.body, p.Branch(), o), top, p, p);
  }

  // ---- Whole forges ----

  // The header is block 1.
  lemma {:induction false} ForgeZoned(check: bool, f: Forge)
    returns (at: seq<Zones>)
    requires ShapedForge(ForgeMode(check, f, true), f)
    ensures Zoned(LowerForge(check, f).blocks, at, 1, OutsForge(check, f)) && at[0] == []
    ensures LowerForge(check, f).entry == 0
  {
    var m := ForgeMode(check, f, true);
    ForgeModeOf(check, f, true);
    var s := StartForge(check, f);
    StartReady(m, f);
    GrowBody(m, f);
    var s' := LowerBody(s, f.body);
    at := [[], []];
    assert ZonedTo(s, at, NO_OUTS, [], OUTSIDE);
    match f.body {
      case None =>
      case Some(b) => at := ZoneBlock(m, s, b, at, NO_OUTS, [], OUTSIDE);
    }
    EndsLeaving(m, s, s', f.body.Some? && BlockExits(f.body.value));
    hide Grows, Ready, LowerBody, OutsForge;
    FinishZoned(s', at, OutsForge(check, f));
  }

  lemma {:induction false} FinishZoned(s: State, at: seq<Zones>, o: Outs)
    requires ZonedTo(s, at, o, [], OUTSIDE)
    requires s.Cur().term.Some? ==> IsReturn(s.Cur().term) || s.Cur().term == Some(Goto(s.header))
    ensures Zoned(FinishForge(s).body.blocks, at, s.header, o)
  {
    var s' := FinishForge(s);
    forall b: BlockId | b < s'.Size()
      ensures ZonedAt(s'.body.blocks, at, s.header, o, b)
    {
      if b != s.cur {
        assert ZonedAt(s.body.blocks, at, s.header, o, b);
      }
    }
  }
}
