/**
 Lowering preserves meaning: the simulation of HIR evaluation by the lowered MIR.

 `Target` fixes the finished blocks and the final variable map.  Every lemma `SimX` says: start MIR where
 the code of `X` begins, in a store that agrees with the HIR environment; then some number of steps leads
 where HIR evaluation of `X` leads, with the same events.
 */
module LowerCorrect {
  import opened Common
  import opened Mir
  import opened MirSemantics
  import opened Hir
  import opened HirSemantics
  import opened LowerSpec
  import opened Fragment
  import opened LowerFrame
  import opened LowerShape
  import opened HirFacts

  datatype Target = Target(I: HirInterp, C: Contracts, blocks: seq<BasicBlock>, slots: map<DefId, Local>) {
    /** Distinct variables own distinct slots. */
    ghost predicate Injective() {
      forall v, w :: v in slots && w in slots && slots[v] == slots[w] ==> v == w
    }
  }

  // ---- Where a lowering state stands in the finished body ----

  ghost predicate Embeds(T: Target, s: State) {
    && s.Size() <= |T.blocks|
    && (forall i :: 0 <= i < s.Size() ==> s.body.blocks[i].instrs <= T.blocks[i].instrs)
    && (forall i :: 0 <= i < s.Size() && i != s.cur && s.body.blocks[i].term.Some? ==> T.blocks[i] == s.body.blocks[i])
    && (s.Cur().term.Some? ==> T.blocks[s.cur].term == s.Cur().term)
  }

  /** Variables known at `s` have their final slots; the others will get slots that do not exist yet. */
  ghost predicate SlotsFrom(T: Target, s: State) {
    && (forall v :: v in s.vars ==> v in T.slots && T.slots[v] == s.vars[v])
    && (forall v :: v in T.slots && v !in s.vars ==> T.slots[v] >= |s.body.locals|)
  }

  ghost predicate Linked(T: Target, s: State) {
    Embeds(T, s) && SlotsFrom(T, s)
  }

  ghost predicate Go(T: Target, m: Mode, s: State) {
    && Ready(m, s) && !m.allowTail && m.check == T.C.check && s.ensures_ == T.C.clauses
  }

  lemma {:induction false} LinkedBack(T: Target, m: Mode, s: State, s': State, exits: bool)
    requires Ready(m, s) && !m.allowTail && Grows(m, s, s', exits) && Linked(T, s')
    ensures Linked(T, s)
  {
    assert s.body.blocks[s.cur].instrs <= T.blocks[s.cur].instrs;
  }

  lemma {:induction false} GoOn(T: Target, m: Mode, s: State, s': State)
    requires Go(T, m, s) && Grows(m, s, s', false)
    ensures Go(T, m, s')
  {
  }

  lemma {:induction false} JoinedBack(T: Target, s: State, s': State, target: BlockId, next: BlockId)
    requires Joined(s, s', target, next) && Embeds(T, s')
    requires next != s.cur && s.body.blocks[next].term.None?
    ensures Embeds(T, s) && s.cur < |T.blocks| && T.blocks[s.cur] == s'.body.blocks[s.cur]
  {
  }

  // ---- Agreement of stores with environments ----

  ghost predicate Agree(T: Target, env: Env, store: Store) {
    forall v :: v in T.slots ==> Read(store, T.slots[v]) == ReadVar(env, v)
  }

  /** Slots below `n` that belong to no variable keep their values. */
  ghost predicate Stable(T: Target, n: nat, store: Store, store': Store) {
    forall l: Local :: l < n && l !in T.slots.Values ==> Read(store', l) == Read(store, l)
  }

  ghost predicate AtEnd(s: State, c: Config) {
    c.Running? && c.frame.blk == s.cur && c.frame.pc == |s.Cur().instrs|
  }

  function StoreOf(c: Config): Store {
    match c
    case Running(f) => f.store
    case Halted(_) => map[]
  }

  function TraceOf(c: Config): seq<Event> {
    match c
    case Running(f) => f.trace
    case Halted(o) => o.trace
  }

  function After(T: Target, c: Config, k: nat): Config {
    Steps(T.I.mir, T.blocks, c, k)
  }

  /** MIR has come to where HIR evaluation ended normally. */
  ghost predicate Arrives(T: Target, n: nat, s': State, r: Result, c: Config, c': Config) {
    && AtEnd(s', c') && TraceOf(c') == r.trace && Agree(T, r.env, StoreOf(c'))
    && Stable(T, n, StoreOf(c), StoreOf(c'))
  }

  /** MIR has stopped, or run on, as HIR evaluation did.  A return may still be pending at the end of `s'`. */
  ghost predicate Stops(T: Target, s': State, exits: bool, r: Result, c': Config, k: nat, fuel: nat) {
    && TraceOf(c') == r.trace
    && match r.out
       case Normal(_) => false
       case Gave(v) =>
         || (c'.Halted? && c'.result.status == DidReturn(v))
         || (exits && AtEnd(s', c') && PendingReturn(s', StoreOf(c'), v))
       case Failed(msg) => c'.Halted? && c'.result.status == DidFail(msg)
       case OutOfFuel => c'.Running? && k >= fuel
  }

  ghost predicate PendingReturn(s': State, store: Store, v: Option<Value>) {
    && s'.Cur().term.Some? && s'.Cur().term.value.Return?
    && OptionalValue(store, s'.Cur().term.value.value) == v
  }

  ghost predicate Sim(T: Target, s: State, s': State, exits: bool, r: Result, c: Config, k: nat, fuel: nat) {
    var c' := After(T, c, k);
    if r.out.Normal? then !exits && Arrives(T, |s.body.locals|, s', r, c, c')
    else Stops(T, s', exits, r, c', k, fuel)
  }

  /** The hypotheses common to all simulations: code from `s` to `s'`, control at its start. */
  ghost predicate Begins(T: Target, m: Mode, s: State, s': State, c: Config, env: Env, tr: seq<Event>) {
    Go(T, m, s) && Linked(T, s') && T.Injective() && AtEnd(s, c) && Agree(T, env, StoreOf(c)) && TraceOf(c) == tr
  }

  // ---- Steps ----

  lemma {:induction false} Chain(T: Target, c: Config, a: nat, b: nat)
    ensures After(T, c, a + b) == After(T, After(T, c, a), b)
  {
    StepsAdd(T.I.mir, T.blocks, c, a, b);
  }

  /** The instruction pushed at `s` is executed next. */
  lemma {:induction false} ExecPushed(T: Target, s: State, ins: Instruction, c: Config)
    requires Embeds(T, Push(s, ins)) && AtEnd(s, c)
    ensures After(T, c, 1) == ExecInstr(T.I.mir, ins, c.frame)
  {
    OneStep(T.I.mir, T.blocks, c);
    var s' := Push(s, ins);
    assert s'.Cur().instrs[|s.Cur().instrs|] == ins;
    assert T.blocks[s.cur].instrs[|s.Cur().instrs|] == ins;
  }

  lemma {:induction false} ExecEnd(T: Target, b: BasicBlock, c: Config)
    requires c.Running? && c.frame.blk < |T.blocks| && T.blocks[c.frame.blk] == b && c.frame.pc == |b.instrs|
    ensures After(T, c, 1) == ExecTerm(b.term, c.frame)
  {
    OneStep(T.I.mir, T.blocks, c);
  }

  /** What follows a normal first part is what the whole does. */
  lemma {:induction false} SimThen(T: Target, m: Mode, s: State, s1: State, s': State, exits: bool, r1: Result,
      r: Result, c: Config, k1: nat, k2: nat, fuel: nat)
    requires Sim(T, s, s1, false, r1, c, k1, fuel) && r1.out.Normal?
    requires |s.body.locals| <= |s1.body.locals|
    requires Sim(T, s1, s', exits, r, After(T, c, k1), k2, fuel)
    ensures Sim(T, s, s', exits, r, c, k1 + k2, fuel)
  {
    Chain(T, c, k1, k2);
  }

  /** A pushed assignment to a slot. */
  lemma {:induction false} AssignSlot(T: Target, s: State, l: Local, rv: Rvalue, c: Config)
    requires Embeds(T, Push(s, Assign(l, rv))) && AtEnd(s, c)
    ensures var c' := After(T, c, 1);
      && AtEnd(Push(s, Assign(l, rv)), c') && TraceOf(c') == TraceOf(c)
      && StoreOf(c') == StoreOf(c)[l := RvalueValue(T.I.mir, StoreOf(c), rv)]
  {
    ExecPushed(T, s, Assign(l, rv), c);
  }

  /** A slot made after variables stopped being added belongs to no variable. */
  lemma {:induction false} FreshSlot(T: Target, s: State, s': State)
    requires SlotsFrom(T, s') && VarsOk(s) && s'.vars == s.vars && |s'.body.locals| > |s.body.locals|
    ensures |s.body.locals| !in T.slots.Values
  {
    forall v | v in T.slots
      ensures T.slots[v] != |s.body.locals|
    {
    }
  }

  lemma {:induction false} WriteFresh(T: Target, env: Env, store: Store, l: Local, v: Value)
    requires Agree(T, env, store) && l !in T.slots.Values
    ensures Agree(T, env, store[l := v]) && Stable(T, l, store, store[l := v])
  {
  }

  lemma {:induction false} WriteSlot(T: Target, n: nat, env: Env, store: Store, x: DefId, v: Value)
    requires Agree(T, env, store) && T.Injective() && x in T.slots
    ensures Agree(T, env[x := v], store[T.slots[x] := v]) && Stable(T, n, store, store[T.slots[x] := v])
  {
  }

  // ---- What operands may still depend on ----

  /** A pending operand reads a variable of `pending`, or a temporary below `n`, or nothing. */
  ghost predicate OpShape(T: Target, n: nat, pending: set<DefId>, op: Operand) {
    match op
    case Const(_) => true
    case Copy(l) => exists v :: v in pending && v in T.slots && T.slots[v] == l
    case Move(l) => l < n && l !in T.slots.Values
  }

  lemma {:induction false} OperandStays(T: Target, n: nat, pending: set<DefId>, op: Operand, env: Env, env': Env,
      store: Store, store': Store)
    requires OpShape(T, n, pending, op)
    requires Agree(T, env, store) && Agree(T, env', store') && Stable(T, n, store, store')
    requires forall v :: v in pending ==> ReadVar(env', v) == ReadVar(env, v)
    ensures OperandValue(store', op) == OperandValue(store, op)
  {
  }

  lemma {:induction false} CallIs(s: State, e: Expr)
    requires e.CallExpr?
    ensures LowerExpr(s, e) == LowerCall(s, e)
  {
    hide LowerCall;
  }

  // A call's result is a constant or a slot of its own.
  lemma {:induction false} ShapeCall(T: Target, m: Mode, s: State, e: Expr)
    requires Ready(m, s) && !m.allowTail && e.CallExpr? && Shaped(m, e) && SlotsFrom(T, LowerCall(s, e).0)
    ensures var (s', rv) := LowerCall(s, e);
      rv.Use? ==> OpShape(T, |s'.body.locals|, Pending(e), rv.operand)
  {
    hide LowerOperands, LowerAsserts, LowerExpr, BlocksGrow, Coherent, Ready;
    var s1 := LowerOperands(s, e.args).0;
    GrowOperands(m, s, e.args);
    StillReady(m, s, s1);
    ReadyIs(m, s1);
    if m.check {
      GrowAsserts(m, s1, e.reqs, PRECONDITION);
      StillReady(m, s1, LowerAsserts(s1, e.reqs, PRECONDITION));
      ReadyIs(m, LowerAsserts(s1, e.reqs, PRECONDITION));
    }
    var s2 := if s1.checkContracts then LowerAsserts(s1, e.reqs, PRECONDITION) else s1;
    if e.retTy != Prim(Void) {
      FreshSlot(T, s2, LowerCall(s, e).0);
    }
  }

  lemma {:induction false} ShapeZoneTail(s: State, e: Expr)
    requires e.Zone? && e.body.tail.Some?
    ensures var (s2, rv) := LowerExpr(LowerStmts(Push(s, ZoneEnter(e.zone)), e.body.stmts), e.body.tail.value);
      LowerExpr(s, e) == (Push(s2, ZoneExit(e.zone)), rv)
  {
    hide LowerStmts, Push;
  }

  lemma {:induction false} ShapeExpr(T: Target, m: Mode, s: State, e: Expr)
    requires Ready(m, s) && !m.allowTail && Shaped(m, e) && SlotsFrom(T, LowerExpr(s, e).0)
    ensures var (s', rv) := LowerExpr(s, e);
      rv.Use? ==> OpShape(T, |s'.body.locals|, Pending(e), rv.operand)
    decreases e
  {
    hide BlocksGrow, VarsGrow, VarsOk, Coherent, SameSetup, LowerStmt, LowerStmts, LowerOperands, LowerAsserts,
      LowerClauses, LowerCall, Ready;
    match e
    case Ident(_, v, _) =>
      GrowsRefl(m, s);
      ReadVariableGrows(m, s, s, v);
    case CallExpr(_, _, _, _) =>
      CallIs(s, e);
      ShapeCall(T, m, s, e);
    case Zone(z, b, _) =>
      var s1 := Push(s, ZoneEnter(z));
      GrowsRefl(m, s);
      PushGrows(m, s, s, false, ZoneEnter(z));
      StillReady(m, s, s1);
      if b.tail.Some? {
        GrowStmts(m, s1, b.stmts, false);
        NoExit(m, b.stmts);
        StillReady(m, s1, LowerStmts(s1, b.stmts));
        ShapeZoneTail(s, e);
        ShapeExpr(T, m, LowerStmts(s1, b.stmts), b.tail.value);
      }
    case _ =>
  }

  lemma {:induction false} ShapeOperand(T: Target, m: Mode, s: State, e: Expr)
    requires Ready(m, s) && !m.allowTail && ShapedOperand(m, e) && SlotsFrom(T, LowerOperand(s, e).0)
    ensures var (s', op) := LowerOperand(s, e); OpShape(T, |s'.body.locals|, Pending(e), op)
  {
    var (s1, rv) := LowerExpr(s, e);
    GrowExpr(m, s, e);
    if rv.Use? {
      ShapeExpr(T, m, s, e);
    } else {
      FreshSlot(T, s1, LowerOperand(s, e).0);
    }
  }

  // ---- The simulation ----

  lemma {:induction false} SimExpr(T: Target, m: Mode, s: State, e: Expr, used: bool, c: Config, env: Env,
      tr: seq<Event>, fuel: nat)
    returns (k: nat)
    requires Begins(T, m, s, LowerExpr(s, e).0, c, env, tr)
    requires Shaped(m, e) && Sound(T.C, e, used)
    ensures var (s', rv) := LowerExpr(s, e);
      var r := Eval(T.I, T.C, e, env, tr, fuel);
      && Sim(T, s, s', Exits(e), r, c, k, fuel)
      && (used && r.out.Normal? ==> RvalueValue(T.I.mir, StoreOf(After(T, c, k)), rv) == r.out.value)
    decreases fuel, ReturnNest(e), 1, e, 3
  {
    hide Sim, Begins, Sound, Shaped, Exits, LowerExpr, Eval, RvalueValue, StoreOf;
    UseOf(T.C, e, used);
    ExitsOf(e);
    match e
    case Lit(_) => k := 0; SimLit(T, m, s, e, c, env, tr, fuel);
    case Ident(_, _, _) => k := 0; SimIdent(T, m, s, e, c, env, tr, fuel);
    case Bin(_, _, _, _) => k := SimBin(T, m, s, e, c, env, tr, fuel);
    case Un(_, _, _) => k := SimUn(T, m, s, e, c, env, tr, fuel);
    case CallExpr(_, _, _, _) => k := SimCall(T, m, s, e, c, env, tr, fuel);
    case ReturnExpr(_) => k := SimReturn(T, m, s, e, c, env, tr, fuel);
    case Given(_, _, _, _) => k := SimGiven(T, m, s, e, c, env, tr, fuel);
    case While(_, _) => k := SimWhile(T, m, s, e, c, env, tr, fuel);
    case Zone(_, _, _) => k := SimZone(T, m, s, e, used, c, env, tr, fuel);
  }

  // Only the value of a zone or a leaf may be used or not; a return or a given has none to use.
  lemma {:induction false} UseOf(C: Contracts, e: Expr, used: bool)
    requires Sound(C, e, used)
    ensures e.Bin? || e.Un? || e.CallExpr? ==> Sound(C, e, true)
    ensures e.ReturnExpr? || e.Given? ==> !used
    ensures e.While? ==> Sound(C, e, false)
  {
  }

  lemma {:induction false} ExitsOf(e: Expr)
    ensures !e.Zone? ==> (Exits(e) <==> e.ReturnExpr?)
  {
  }

  /** Nothing is executed and nothing changes. */
  lemma {:induction false} SimNothing(T: Target, m: Mode, s: State, s': State, c: Config, env: Env, tr: seq<Event>,
      v: Value, fuel: nat)
    requires Begins(T, m, s, s', c, env, tr) && s'.cur == s.cur && s'.Cur() == s.Cur()
    ensures Sim(T, s, s', false, Result(Normal(v), env, tr), c, 0, fuel)
  {
    hide Go, Linked, Agree, Read;
  }

  lemma {:induction false} SimLit(T: Target, m: Mode, s: State, e: Expr, c: Config, env: Env, tr: seq<Event>, fuel: nat)
    requires e.Lit? && Begins(T, m, s, LowerExpr(s, e).0, c, env, tr)
    ensures var (s', rv) := LowerExpr(s, e);
      var r := Eval(T.I, T.C, e, env, tr, fuel);
      && Sim(T, s, s', false, r, c, 0, fuel)
      && (r.out.Normal? ==> RvalueValue(T.I.mir, StoreOf(After(T, c, 0)), rv) == r.out.value)
  {
    hide Sim, Begins;
    SimNothing(T, m, s, s, c, env, tr, LitValue(e.lit), fuel);
  }

  lemma {:induction false} SimIdent(T: Target, m: Mode, s: State, e: Expr, c: Config, env: Env, tr: seq<Event>,
      fuel: nat)
    requires e.Ident? && Begins(T, m, s, LowerExpr(s, e).0, c, env, tr)
    ensures var (s', rv) := LowerExpr(s, e);
      var r := Eval(T.I, T.C, e, env, tr, fuel);
      && Sim(T, s, s', false, r, c, 0, fuel)
      && (r.out.Normal? ==> RvalueValue(T.I.mir, StoreOf(After(T, c, 0)), rv) == r.out.value)
  {
    var (s', l) := ReadVariable(s, e.def);
    assert AtEnd(s, c) && e.def in T.slots && T.slots[e.def] == l && Read(StoreOf(c), l) == ReadVar(env, e.def) by {
      assert Agree(T, env, StoreOf(c)) && SlotsFrom(T, s');
    }
    hide Sim, Begins, Go, Linked, Agree, AtEnd;
    SimNothing(T, m, s, s', c, env, tr, ReadVar(env, e.def), fuel);
  }

  lemma {:induction false} SimUn(T: Target, m: Mode, s: State, e: Expr, c: Config, env: Env, tr: seq<Event>, fuel: nat)
    returns (k: nat)
    requires e.Un? && Begins(T, m, s, LowerExpr(s, e).0, c, env, tr)
    requires Shaped(m, e) && Sound(T.C, e, true)
    ensures var (s', rv) := LowerExpr(s, e);
      var r := Eval(T.I, T.C, e, env, tr, fuel);
      && Sim(T, s, s', false, r, c, k, fuel)
      && (r.out.Normal? ==> RvalueValue(T.I.mir, StoreOf(After(T, c, k)), rv) == r.out.value)
    decreases fuel, ReturnNest(e), 1, e, 2
  {
    hide BlocksGrow, VarsGrow, VarsOk, Coherent, SameSetup, Embeds, SlotsFrom, Stable, Agree, Ready, Steps, Begins;
    k := SimOperand(T, m, s, e.inner, c, env, tr, fuel);
  }

  lemma {:induction false} SimOperand(T: Target, m: Mode, s: State, e: Expr, c: Config, env: Env, tr: seq<Event>,
      fuel: nat)
    returns (k: nat)
    requires Begins(T, m, s, LowerOperand(s, e).0, c, env, tr)
    requires ShapedOperand(m, e) && Sound(T.C, e, true)
    ensures var (s', op) := LowerOperand(s, e);
      var r := Eval(T.I, T.C, e, env, tr, fuel);
      && Sim(T, s, s', false, r, c, k, fuel)
      && (r.out.Normal? ==> OperandValue(StoreOf(After(T, c, k)), op) == r.out.value)
    decreases fuel, ReturnNest(e), 1, e, 4
  {
    hide BlocksGrow, VarsGrow, VarsOk, Coherent, SameSetup, Embeds, SlotsFrom, Stable, Agree, Ready, Steps;
    var (s1, rv) := LowerExpr(s, e);
    var r := Eval(T.I, T.C, e, env, tr, fuel);
    OperandBack(T, m, s, e);
    k := SimExpr(T, m, s, e, true, c, env, tr, fuel);
    if !rv.Use? && r.out.Normal? {
      var c1 := After(T, c, k);
      TempStep(T, m, |s.body.locals|, s1, rv, c1, r.env, r.trace);
      SimMore(T, s, s1, LowerOperand(s, e).0, r, r, c, k, fuel);
      k := k + 1;
    }
  }

  lemma {:induction false} OperandBack(T: Target, m: Mode, s: State, e: Expr)
    requires Go(T, m, s) && ShapedOperand(m, e) && Linked(T, LowerOperand(s, e).0)
    ensures var s1 := LowerExpr(s, e).0; Go(T, m, s1) && Linked(T, s1) && |s1.body.locals| >= |s.body.locals|
  {
    var (s1, rv) := LowerExpr(s, e);
    GrowExpr(m, s, e);
    GoOn(T, m, s, s1);
    if !rv.Use? {
      var s2 := NewLocal(s1, "tmp", RvalueType(s1.body.locals, rv));
      PushBack(T, s2, Assign(|s1.body.locals|, rv));
      NewLocalBack(T, s1, "tmp", RvalueType(s1.body.locals, rv));
    }
  }

  /** Storing a computed value in a fresh temporary. */
  lemma {:induction false} TempStep(T: Target, m: Mode, n: nat, s: State, rv: Rvalue, c: Config, env: Env,
      tr: seq<Event>)
    requires Go(T, m, s) && !rv.Use? && Linked(T, ToOperand(s, rv).0) && n <= |s.body.locals|
    requires AtEnd(s, c) && Agree(T, env, StoreOf(c)) && TraceOf(c) == tr
    ensures var (s', op) := ToOperand(s, rv);
      var c' := After(T, c, 1);
      && AtEnd(s', c') && Agree(T, env, StoreOf(c')) && TraceOf(c') == tr && Stable(T, n, StoreOf(c), StoreOf(c'))
      && OperandValue(StoreOf(c'), op) == RvalueValue(T.I.mir, StoreOf(c), rv)
  {
    var s2 := NewLocal(s, "tmp", RvalueType(s.body.locals, rv));
    var l := |s.body.locals|;
    FreshSlot(T, s, s2);
    AssignSlot(T, s2, l, rv, c);
    WriteFresh(T, env, StoreOf(c), l, RvalueValue(T.I.mir, StoreOf(c), rv));
  }

  /** One more step after a normal end that leads to `s'`. */
  lemma {:induction false} SimMore(T: Target, s: State, s1: State, s': State, r1: Result, r: Result, c: Config,
      k: nat, fuel: nat)
    requires Sim(T, s, s1, false, r1, c, k, fuel) && r1.out.Normal? && r.out.Normal?
    requires var c1 := After(T, c, k);
      Arrives(T, |s.body.locals|, s', r, c1, After(T, c1, 1))
    ensures Sim(T, s, s', false, r, c, k + 1, fuel)
    ensures After(T, c, k + 1) == After(T, After(T, c, k), 1)
  {
    Chain(T, c, k, 1);
  }

  lemma {:induction false} PairBack(T: Target, m: Mode, s: State, x: Expr, y: Expr)
    requires Go(T, m, s) && ShapedOperand(m, x) && ShapedOperand(m, y)
    requires Linked(T, LowerOperand(LowerOperand(s, x).0, y).0)
    ensures var (s1, op) := LowerOperand(s, x);
      Go(T, m, s1) && Linked(T, s1) && |s1.body.locals| >= |s.body.locals|
      && OpShape(T, |s1.body.locals|, Pending(x), op)
  {
    var s1 := LowerOperand(s, x).0;
    GrowOperand(m, s, x);
    GoOn(T, m, s, s1);
    GrowOperand(m, s1, y);
    LinkedBack(T, m, s1, LowerOperand(s1, y).0, false);
    ShapeOperand(T, m, s, x);
  }

  lemma {:induction false} MapAgrees(op: BinaryOp)
    ensures BinCounterpart(op).Some? ==> BinCounterpart(op).value == MapBinOp(op)
  {
  }

  lemma {:induction false} SimBin(T: Target, m: Mode, s: State, e: Expr, c: Config, env: Env, tr: seq<Event>, fuel: nat)
    returns (k: nat)
    requires e.Bin? && Begins(T, m, s, LowerExpr(s, e).0, c, env, tr)
    requires Shaped(m, e) && Sound(T.C, e, true)
    ensures var (s', rv) := LowerExpr(s, e);
      var r := Eval(T.I, T.C, e, env, tr, fuel);
      && Sim(T, s, s', false, r, c, k, fuel)
      && (r.out.Normal? ==> RvalueValue(T.I.mir, StoreOf(After(T, c, k)), rv) == r.out.value)
    decreases fuel, ReturnNest(e), 1, e, 2
  {
    hide BlocksGrow, VarsGrow, VarsOk, Coherent, SameSetup, Embeds, SlotsFrom, Stable, Agree, Ready, Steps;
    var Bin(op, x, y, _) := e;
    var (s1, lop) := LowerOperand(s, x);
    var (s2, rop) := LowerOperand(s1, y);
    var a := Eval(T.I, T.C, x, env, tr, fuel);
    PairBack(T, m, s, x, y);
    k := SimOperand(T, m, s, x, c, env, tr, fuel);
    if a.out.Normal? {
      var c1 := After(T, c, k);
      var b := Eval(T.I, T.C, y, a.env, a.trace, fuel);
      var k2 := SimOperand(T, m, s1, y, c1, a.env, a.trace, fuel);
      SimThen(T, m, s, s1, s2, false, a, b, c, k, k2, fuel);
      Chain(T, c, k, k2);
      if b.out.Normal? {
        EvalKeeps(T.I, T.C, y, a.env, a.trace, fuel);
        OperandStays(T, |s1.body.locals|, Pending(x), lop, a.env, b.env, StoreOf(c1), StoreOf(After(T, c1, k2)));
        MapAgrees(op);
      }
      k := k + k2;
    }
  }

  lemma {:induction false} ListBack(T: Target, m: Mode, s: State, es: seq<Expr>)
    requires Go(T, m, s) && es != [] && ShapedOperands(m, es) && Linked(T, LowerOperands(s, es).0)
    ensures var (s1, op) := LowerOperand(s, es[0]);
      Go(T, m, s1) && Linked(T, s1) && |s1.body.locals| >= |s.body.locals|
      && |LowerOperands(s1, es[1..]).0.body.locals| >= |s1.body.locals|
      && OpShape(T, |s1.body.locals|, Pending(es[0]), op)
  {
    var s1 := LowerOperand(s, es[0]).0;
    GrowOperand(m, s, es[0]);
    GoOn(T, m, s, s1);
    GrowOperands(m, s1, es[1..]);
    LinkedBack(T, m, s1, LowerOperands(s1, es[1..]).0, false);
    ShapeOperand(T, m, s, es[0]);
  }

  lemma {:induction false} StableTrans(T: Target, n: nat, n': nat, a: Store, b: Store, c: Store)
    requires n <= n' && (a == b || Stable(T, n, a, b)) && Stable(T, n', b, c)
    ensures Stable(T, n, a, c)
  {
  }

  lemma {:induction false} NothingYet(T: Target, m: Mode, s: State, c: Config, env: Env, tr: seq<Event>, fuel: nat)
    requires Begins(T, m, s, s, c, env, tr)
    ensures Sim(T, s, s, false, Result(Normal(UNIT), env, tr), c, 0, fuel) && After(T, c, 0) == c
  {
  }

  lemma {:induction false} SimOperands(T: Target, m: Mode, s: State, es: seq<Expr>, c: Config, env: Env,
      tr: seq<Event>, fuel: nat)
    returns (k: nat)
    requires Begins(T, m, s, LowerOperands(s, es).0, c, env, tr)
    requires ShapedOperands(m, es) && SoundList(T.C, es)
    ensures var (s', ops) := LowerOperands(s, es);
      match EvalList(T.I, T.C, es, env, tr, fuel)
      case Values(vs, env', tr') =>
        var c' := After(T, c, k);
        && Arrives(T, |s.body.locals|, s', Result(Normal(UNIT), env', tr'), c, c')
        && OperandValues(StoreOf(c'), ops) == vs
        && OpShapes(T, |s'.body.locals|, PendingAll(es), ops)
      case Cut(r) => !r.out.Normal? && Stops(T, s', false, r, After(T, c, k), k, fuel)
    decreases fuel, ReturnNestAll(es), 1, es
  {
    hide BlocksGrow, VarsGrow, VarsOk, Coherent, SameSetup, Embeds, SlotsFrom, Stable, Agree, Ready, Steps;
    hide LowerExpr, LowerOperand, LowerStmt, LowerBlock, LowerReturn, LowerCall, ToOperand, Eval, EvalStmt,
      EvalBlock, Shaped, Sound, Exits;
    if es == [] {
      k := 0;
      NothingYet(T, m, s, c, env, tr, fuel);
    } else {
      var (s1, op) := LowerOperand(s, es[0]);
      var (s2, ops) := LowerOperands(s1, es[1..]);
      var a := Eval(T.I, T.C, es[0], env, tr, fuel);
      ListBack(T, m, s, es);
      k := SimOperand(T, m, s, es[0], c, env, tr, fuel);
      if a.out.Normal? {
        var c1 := After(T, c, k);
        var k2 := SimOperands(T, m, s1, es[1..], c1, a.env, a.trace, fuel);
        Chain(T, c, k, k2);
        var rest := EvalList(T.I, T.C, es[1..], a.env, a.trace, fuel);
        if rest.Values? {
          var c2 := After(T, c1, k2);
          ListKeeps(T.I, T.C, es[1..], a.env, a.trace, fuel);
          OperandStays(T, |s1.body.locals|, Pending(es[0]), op, a.env, rest.env, StoreOf(c1), StoreOf(c2));
          ConsValues(StoreOf(c2), op, ops);
          ConsShapes(T, |s1.body.locals|, |s2.body.locals|, Pending(es[0]), PendingAll(es[1..]), op, ops);
          StableTrans(T, |s.body.locals|, |s1.body.locals|, StoreOf(c), StoreOf(c1), StoreOf(c2));
        }
        k := k + k2;
      }
    }
  }

  ghost predicate OpShapes(T: Target, n: nat, pending: set<DefId>, ops: seq<Operand>) {
    forall i :: 0 <= i < |ops| ==> OpShape(T, n, pending, ops[i])
  }

  lemma {:induction false} ConsValues(store: Store, op: Operand, ops: seq<Operand>)
    ensures OperandValues(store, [op] + ops) == [OperandValue(store, op)] + OperandValues(store, ops)
  {
  }

  lemma {:induction false} ConsShapes(T: Target, n: nat, n': nat, p: set<DefId>, ps: set<DefId>, op: Operand,
      ops: seq<Operand>)
    requires n <= n' && OpShape(T, n, p, op) && OpShapes(T, n', ps, ops)
    ensures OpShapes(T, n', p + ps, [op] + ops)
  {
    forall i | 0 <= i < |ops| + 1
      ensures OpShape(T, n', p + ps, ([op] + ops)[i])
    {
      if i > 0 {
        assert OpShape(T, n', ps, ops[i - 1]);
      }
    }
  }

  lemma {:induction false} OperandsStay(T: Target, n: nat, pending: set<DefId>, ops: seq<Operand>, env: Env,
      env': Env, store: Store, store': Store)
    requires OpShapes(T, n, pending, ops)
    requires Agree(T, env, store) && Agree(T, env', store') && Stable(T, n, store, store')
    requires forall v :: v in pending ==> ReadVar(env', v) == ReadVar(env, v)
    ensures OperandValues(store', ops) == OperandValues(store, ops)
  {
    forall i | 0 <= i < |ops|
      ensures OperandValue(store', ops[i]) == OperandValue(store, ops[i])
    {
      OperandStays(T, n, pending, ops[i], env, env', store, store');
    }
  }

  // ---- Calls ----

  lemma {:induction false} AssertsBack(T: Target, m: Mode, s: State, es: seq<Expr>)
    requires Go(T, m, s) && es != [] && ShapedOperands(m, es) && Linked(T, LowerAsserts(s, es, PRECONDITION))
    ensures var (s1, op) := LowerOperand(s, es[0]);
      var s2 := Push(s1, Assert(op, PRECONDITION));
      && Go(T, m, s2) && Linked(T, s2) && Linked(T, s1) && |s1.body.locals| >= |s.body.locals|
  {
    var (s1, op) := LowerOperand(s, es[0]);
    var check := Assert(op, PRECONDITION);
    var s2 := Push(s1, check);
    GrowOperand(m, s, es[0]);
    PushGrows(m, s, s1, false, check);
    GoOn(T, m, s, s2);
    GrowAsserts(m, s2, es[1..], PRECONDITION);
    LinkedBack(T, m, s2, LowerAsserts(s2, es[1..], PRECONDITION), false);
    PushBack(T, s1, check);
  }

  /** After an operand that ended normally: assert it. */
  lemma {:induction false} AssertStep(T: Target, m: Mode, s: State, s1: State, op: Operand, msg: string, a: Result,
      c: Config, k: nat, fuel: nat)
    requires Sim(T, s, s1, false, a, c, k, fuel) && a.out.Normal? && Linked(T, Push(s1, Assert(op, msg)))
    requires OperandValue(StoreOf(After(T, c, k)), op) == a.out.value
    ensures
      if Key(a.out.value) != 0 then Sim(T, s, Push(s1, Assert(op, msg)), false, a, c, k + 1, fuel)
      else Stops(T, s1, false, Result(Failed(msg), a.env, a.trace), After(T, c, k + 1), k + 1, fuel)
  {
    ExecPushed(T, s1, Assert(op, msg), After(T, c, k));
    Chain(T, c, k, 1);
  }

  lemma {:induction false} SimAsserts(T: Target, m: Mode, s: State, es: seq<Expr>, c: Config, env: Env,
      tr: seq<Event>, fuel: nat)
    returns (k: nat)
    requires Begins(T, m, s, LowerAsserts(s, es, PRECONDITION), c, env, tr)
    requires ShapedOperands(m, es) && SoundEach(T.C, es)
    ensures Sim(T, s, LowerAsserts(s, es, PRECONDITION), false, EvalAsserts(T.I, T.C, es, env, tr, fuel), c, k, fuel)
    decreases fuel, ReturnNestAll(es), 1, es, 0
  {
    hide BlocksGrow, VarsGrow, VarsOk, Coherent, SameSetup, Embeds, SlotsFrom, Stable, Agree, Ready, Steps;
    hide LowerExpr, LowerOperand, LowerStmt, LowerBlock, LowerReturn, LowerCall, ToOperand, Eval, EvalStmt,
      EvalBlock, Shaped, Sound, Exits;
    if es == [] {
      k := 0;
      NothingYet(T, m, s, c, env, tr, fuel);
    } else {
      var (s1, op) := LowerOperand(s, es[0]);
      var s2 := Push(s1, Assert(op, PRECONDITION));
      var a := Eval(T.I, T.C, es[0], env, tr, fuel);
      AssertsBack(T, m, s, es);
      k := SimOperand(T, m, s, es[0], c, env, tr, fuel);
      if a.out.Normal? {
        AssertStep(T, m, s, s1, op, PRECONDITION, a, c, k, fuel);
        k := k + 1;
        if Key(a.out.value) != 0 {
          var r2 := EvalAsserts(T.I, T.C, es[1..], a.env, a.trace, fuel);
          var k2 := SimAsserts(T, m, s2, es[1..], After(T, c, k), a.env, a.trace, fuel);
          SimThen(T, m, s, s2, LowerAsserts(s2, es[1..], PRECONDITION), false, a, r2, c, k, k2, fuel);
          k := k + k2;
        }
      }
    }
  }

  lemma {:induction false} PushBack(T: Target, s: State, ins: Instruction)
    requires Linked(T, Push(s, ins))
    ensures Linked(T, s)
  {
    var s' := Push(s, ins);
    assert s.Cur().instrs <= s'.Cur().instrs <= T.blocks[s.cur].instrs;
    assert forall i :: 0 <= i < s.Size() && i != s.cur ==> s'.body.blocks[i] == s.body.blocks[i];
  }

  lemma {:induction false} NewLocalBack(T: Target, s: State, name: string, ty: Type)
    requires Linked(T, NewLocal(s, name, ty))
    ensures Linked(T, s)
  {
  }

  /** The `requires` conditions, when checked; the arguments keep their values. */
  lemma {:induction false} SimRequires(T: Target, m: Mode, s: State, args: seq<Expr>, reqs: seq<Expr>,
      ops: seq<Operand>, c: Config, env: Env, tr: seq<Event>, vs: seq<Value>, fuel: nat)
    returns (q: Result, k: nat)
    requires var s' := if m.check then LowerAsserts(s, reqs, PRECONDITION) else s;
      Begins(T, m, s, s', c, env, tr)
    requires m.check ==> ShapedOperands(m, reqs) && SoundEach(T.C, reqs) && PendingAll(args) !! WritesAll(reqs)
    requires OpShapes(T, |s.body.locals|, PendingAll(args), ops) && OperandValues(StoreOf(c), ops) == vs
    ensures q == if m.check then EvalAsserts(T.I, T.C, reqs, env, tr, fuel) else Result(Normal(UNIT), env, tr)
    ensures var s' := if m.check then LowerAsserts(s, reqs, PRECONDITION) else s;
      && Sim(T, s, s', false, q, c, k, fuel)
      && (q.out.Normal? ==> OperandValues(StoreOf(After(T, c, k)), ops) == vs)
    decreases fuel, ReturnNestAll(reqs), 1, reqs, 1
  {
    hide BlocksGrow, VarsGrow, VarsOk, Coherent, SameSetup, Embeds, SlotsFrom, Stable, Agree, Ready, Steps;
    if m.check {
      q := EvalAsserts(T.I, T.C, reqs, env, tr, fuel);
      k := SimAsserts(T, m, s, reqs, c, env, tr, fuel);
      if q.out.Normal? {
        AssertsKeep(T.I, T.C, reqs, env, tr, fuel);
        OperandsStay(T, |s.body.locals|, PendingAll(args), ops, env, q.env, StoreOf(c), StoreOf(After(T, c, k)));
      }
    } else {
      q, k := Result(Normal(UNIT), env, tr), 0;
      NothingYet(T, m, s, c, env, tr, fuel);
    }
  }

  // One step of each function at a call.
  lemma {:induction false} CallParts(T: Target, m: Mode, e: Expr, env: Env, tr: seq<Event>, fuel: nat)
    requires e.CallExpr?
    ensures Shaped(m, e) ==> ShapedOperands(m, e.args) && (m.check ==> ShapedOperands(m, e.reqs))
    ensures Sound(T.C, e, true) ==>
      SoundList(T.C, e.args) && (T.C.check ==> SoundEach(T.C, e.reqs) && PendingAll(e.args) !! WritesAll(e.reqs))
    ensures var a := EvalList(T.I, T.C, e.args, env, tr, fuel);
      Eval(T.I, T.C, e, env, tr, fuel) ==
      if a.Cut? then a.cut
      else
        var q := if T.C.check then EvalAsserts(T.I, T.C, e.reqs, a.env, a.trace, fuel)
            else Result(Normal(UNIT), a.env, a.trace);
        if !q.out.Normal? then q
        else
          Result(Normal(if e.retTy == Prim(Void) then UNIT else T.I.mir.answer(q.trace, CalleeName(e.callee), a.vs)),
                 q.env, q.trace + [Called(CalleeName(e.callee), a.vs)])
  {
    hide EvalList, EvalAsserts, ShapedOperands, SoundList, SoundEach;
  }

  lemma {:induction false} SimCall(T: Target, m: Mode, s: State, e: Expr, c: Config, env: Env, tr: seq<Event>,
      fuel: nat)
    returns (k: nat)
    requires e.CallExpr? && Begins(T, m, s, LowerExpr(s, e).0, c, env, tr)
    requires Shaped(m, e) && Sound(T.C, e, true)
    ensures var (s', rv) := LowerExpr(s, e);
      var r := Eval(T.I, T.C, e, env, tr, fuel);
      && Sim(T, s, s', false, r, c, k, fuel)
      && (r.out.Normal? ==> RvalueValue(T.I.mir, StoreOf(After(T, c, k)), rv) == r.out.value)
    decreases fuel, ReturnNest(e), 1, e, 2
  {
    hide LowerExpr, LowerOperand, LowerOperands, LowerAsserts, LowerClauses, LowerReturn, LowerCall, LowerBlock,
      LowerStmts, LowerStmt;
    hide BlocksGrow, VarsGrow, VarsOk, Coherent, SameSetup, Embeds, SlotsFrom, Stable, Agree, Ready, Steps;
    hide Eval, EvalList, EvalAsserts, Shaped, ShapedOperands, Sound, SoundList, SoundEach;
    CallParts(T, m, e, env, tr, fuel);
    var CallExpr(callee, args, reqs, retTy) := e;
    var (s1, ops) := LowerOperands(s, args);
    var s2 := if m.check then LowerAsserts(s1, reqs, PRECONDITION) else s1;
    CallBack(T, m, s, e);
    var a := EvalList(T.I, T.C, args, env, tr, fuel);
    k := SimOperands(T, m, s, args, c, env, tr, fuel);
    if a.Values? {
      var q, k2 := SimRequires(T, m, s1, args, reqs, ops, After(T, c, k), a.env, a.trace, a.vs, fuel);
      SimThen(T, m, s, s1, s2, false, Result(Normal(UNIT), a.env, a.trace), q, c, k, k2, fuel);
      Chain(T, c, k, k2);
      k := k + k2;
      if q.out.Normal? {
        CallStep(T, m, |s.body.locals|, s2, callee, ops, retTy, After(T, c, k), q.env);
        SimMore(T, s, s2, PushCall(s2, callee, ops, retTy), q, Eval(T.I, T.C, e, env, tr, fuel), c, k, fuel);
        k := k + 1;
      }
    }
  }

  // The call instruction itself.
  function PushCall(s: State, callee: Expr, ops: seq<Operand>, retTy: Type): State {
    if retTy == Prim(Void) then Push(s, Call(None, CalleeName(callee), ops))
    else Push(NewLocal(s, "call_tmp", retTy), Call(Some(|s.body.locals|), CalleeName(callee), ops))
  }

  lemma {:induction false} CallBack(T: Target, m: Mode, s: State, e: Expr)
    requires Go(T, m, s) && e.CallExpr? && Shaped(m, e) && Linked(T, LowerExpr(s, e).0)
    ensures var (s1, ops) := LowerOperands(s, e.args);
      var s2 := if m.check then LowerAsserts(s1, e.reqs, PRECONDITION) else s1;
      && Go(T, m, s1) && Go(T, m, s2) && Linked(T, s1) && Linked(T, s2)
      && |s.body.locals| <= |s1.body.locals| <= |s2.body.locals|
      && LowerExpr(s, e).0 == PushCall(s2, e.callee, ops, e.retTy)
      && LowerExpr(s, e).1 == if e.retTy == Prim(Void) then FALSE_RV else Use(Move(|s2.body.locals|))
  {
    var (s1, ops) := LowerOperands(s, e.args);
    var s2 := if m.check then LowerAsserts(s1, e.reqs, PRECONDITION) else s1;
    GrowOperands(m, s, e.args);
    GoOn(T, m, s, s1);
    if m.check {
      GrowAsserts(m, s1, e.reqs, PRECONDITION);
      GoOn(T, m, s1, s2);
    }
    assert LowerExpr(s, e) == LowerCall(s, e);
    PushCallBack(T, s2, e.callee, ops, e.retTy);
    if m.check {
      LinkedBack(T, m, s1, s2, false);
    }
  }

  lemma {:induction false} PushCallBack(T: Target, s: State, callee: Expr, ops: seq<Operand>, retTy: Type)
    requires Linked(T, PushCall(s, callee, ops, retTy))
    ensures Linked(T, s)
  {
    if retTy == Prim(Void) {
      PushBack(T, s, Call(None, CalleeName(callee), ops));
    } else {
      PushBack(T, NewLocal(s, "call_tmp", retTy), Call(Some(|s.body.locals|), CalleeName(callee), ops));
      NewLocalBack(T, s, "call_tmp", retTy);
    }
  }

  lemma {:induction false} CallStep(T: Target, m: Mode, n: nat, s: State, callee: Expr, ops: seq<Operand>,
      retTy: Type, c: Config, env: Env)
    requires n <= |s.body.locals| && Go(T, m, s) && Linked(T, PushCall(s, callee, ops, retTy)) && AtEnd(s, c)
            && Agree(T, env, StoreOf(c))
    ensures var c' := After(T, c, 1);
      var s' := PushCall(s, callee, ops, retTy);
      var vs := OperandValues(StoreOf(c), ops);
      && AtEnd(s', c') && TraceOf(c') == TraceOf(c) + [Called(CalleeName(callee), vs)]
      && Agree(T, env, StoreOf(c')) && Stable(T, n, StoreOf(c), StoreOf(c'))
      && (retTy != Prim(Void) ==>
          Read(StoreOf(c'), |s.body.locals|) == T.I.mir.answer(TraceOf(c), CalleeName(callee), vs))
  {
    if retTy == Prim(Void) {
      ExecPushed(T, s, Call(None, CalleeName(callee), ops), c);
    } else {
      var l := |s.body.locals|;
      ExecPushed(T, NewLocal(s, "call_tmp", retTy), Call(Some(l), CalleeName(callee), ops), c);
      FreshSlot(T, s, PushCall(s, callee, ops, retTy));
      WriteFresh(T, env, StoreOf(c), l, T.I.mir.answer(TraceOf(c), CalleeName(callee), OperandValues(StoreOf(c), ops)));
    }
  }

  // ---- Returns ----

  lemma {:induction false} ClausesUnfold(s: State, clauses: Clauses, x: Expr)
    requires clauses != []
    ensures var (s1, op) := LowerOperand(s, SubstResult(clauses[0], x));
      LowerClauses(s, clauses, x) == LowerClauses(Push(s1, Assert(op, POSTCONDITION)), clauses[1..], x)
  {
    hide LowerOperand, Push, SubstResult;
  }

  lemma {:induction false} ClausesBack(T: Target, m: Mode, s: State, clauses: Clauses, x: Expr)
    requires Go(T, m, s) && clauses != [] && ShapedOperands(m, clauses) && ShapedOperand(m, x)
    requires Linked(T, LowerClauses(s, clauses, x))
    ensures var (s1, op) := LowerOperand(s, SubstResult(clauses[0], x));
      var s2 := Push(s1, Assert(op, POSTCONDITION));
      && Go(T, m, s2) && Linked(T, s2) && Linked(T, s1) && |s1.body.locals| >= |s.body.locals|
      && LowerClauses(s, clauses, x) == LowerClauses(s2, clauses[1..], x)
  {
    hide BlocksGrow, VarsGrow, VarsOk, Coherent, SameSetup, Embeds, SlotsFrom, Stable, Agree, Ready, Steps;
    ClausesUnfold(s, clauses, x);
    hide LowerOperand, LowerClauses, SubstResult, Shaped, Push;
    var q := SubstResult(clauses[0], x);
    SubstShaped(m, clauses[0], x);
    var (s1, op) := LowerOperand(s, q);
    var check := Assert(op, POSTCONDITION);
    var s2 := Push(s1, check);
    GrowOperand(m, s, q);
    PushGrows(m, s, s1, false, check);
    GoOn(T, m, s, s2);
    GrowClauses(m, s2, clauses[1..], x);
    LinkedBack(T, m, s2, LowerClauses(s2, clauses[1..], x), false);
    PushBack(T, s1, check);
  }

  lemma {:induction false} SimClauses(T: Target, m: Mode, s: State, clauses: Clauses, x: Expr, v: Value, c: Config,
      env: Env, tr: seq<Event>, fuel: nat)
    returns (k: nat)
    requires Begins(T, m, s, LowerClauses(s, clauses, x), c, env, tr)
    requires ShapedOperands(m, clauses) && PureAll(clauses) && ShapedOperand(m, x)
    requires if Pure(x) then PureValue(T.I, x, env, None) == v else !AnyMentionsResult(clauses)
    ensures Sim(T, s, LowerClauses(s, clauses, x), false,
                Result(if ClausesHold(T.I, clauses, env, v) then Normal(UNIT) else Failed(POSTCONDITION), env, tr), c,
                    k, fuel)
    decreases fuel, 1 + ReturnNest(x), 0, clauses, 0
  {
    hide BlocksGrow, VarsGrow, VarsOk, Coherent, SameSetup, Embeds, SlotsFrom, Stable, Agree, Ready, Steps;
    hide LowerExpr, LowerOperand, LowerStmt, LowerBlock, LowerReturn, LowerCall, ToOperand, Shaped, Sound, Exits,
      SubstResult, PureValue;
    if clauses == [] {
      k := 0;
      NothingYet(T, m, s, c, env, tr, fuel);
    } else {
      var q := SubstResult(clauses[0], x);
      SubstNest(clauses[0], x);
      SubstShaped(m, clauses[0], x);
      SubstPure(clauses[0], x);
      SubstMeaning(T.I, clauses[0], x, v, env);
      PureSound(T.C, q);
      PureEval(T.I, T.C, q, env, tr, fuel);
      var (s1, op) := LowerOperand(s, q);
      var s2 := Push(s1, Assert(op, POSTCONDITION));
      ClausesBack(T, m, s, clauses, x);
      k := SimOperand(T, m, s, q, c, env, tr, fuel);
      var a := Eval(T.I, T.C, q, env, tr, fuel);
      AssertStep(T, m, s, s1, op, POSTCONDITION, a, c, k, fuel);
      k := k + 1;
      if Key(PureValue(T.I, q, env, None)) != 0 {
        var r2 := Result(if ClausesHold(T.I, clauses[1..], env, v) then Normal(UNIT)
            else Failed(POSTCONDITION), env, tr);
        var k2 := SimClauses(T, m, s2, clauses[1..], x, v, After(T, c, k), env, tr, fuel);
        SimThen(T, m, s, s2, LowerClauses(s2, clauses[1..], x), false, a, r2, c, k, k2, fuel);
        k := k + k2;
      }
    }
  }

  lemma {:induction false} ReturnBack(T: Target, m: Mode, s: State, x: Expr)
    requires Go(T, m, s) && Shaped(m, ReturnExpr(Some(x))) && !IsSelfTailCall(m.forgeName, x)
    requires Linked(T, LowerReturn(s, ReturnExpr(Some(x))).0)
    ensures var (s1, op) := LowerOperand(s, x);
      var s2 := if m.check then LowerClauses(s1, s1.ensures_, x) else s1;
      && Go(T, m, s1) && Linked(T, s1) && Linked(T, s2) && |s.body.locals| <= |s1.body.locals|
      && s1.ensures_ == T.C.clauses && (m.check ==> ShapedOperands(m, s1.ensures_))
      && OpShape(T, |s1.body.locals|, Pending(x), op)
      && LowerReturn(s, ReturnExpr(Some(x))).0 == Terminate(s2, s2.cur, Return(Some(op)))
  {
    var (s1, op) := LowerOperand(s, x);
    var s2 := if m.check then LowerClauses(s1, s1.ensures_, x) else s1;
    GrowOperand(m, s, x);
    GoOn(T, m, s, s1);
    if m.check {
      GrowClauses(m, s1, s1.ensures_, x);
      GoOn(T, m, s1, s2);
    }
    GrowsRefl(m, s2);
    ReturnGrows(m, s2, s2, Some(op));
    LinkedBack(T, m, s2, Terminate(s2, s2.cur, Return(Some(op))), true);
    if m.check {
      LinkedBack(T, m, s1, s2, false);
    }
    ShapeOperand(T, m, s, x);
  }

  /** A terminator that has been written is still to be executed. */
  lemma {:induction false} NothingYetReturn(T: Target, s: State, op: Option<Operand>, c: Config)
    requires AtEnd(s, c)
    ensures var s' := Terminate(s, s.cur, Return(op));
      AtEnd(s', c) && PendingReturn(s', StoreOf(c), OptionalValue(StoreOf(c), op))
    ensures After(T, c, 0) == c
  {
  }

  lemma {:induction false} SimReturnValue(T: Target, m: Mode, s: State, x: Expr, c: Config, env: Env, tr: seq<Event>,
      fuel: nat)
    returns (k: nat)
    requires Begins(T, m, s, LowerReturn(s, ReturnExpr(Some(x))).0, c, env, tr)
    requires Shaped(m, ReturnExpr(Some(x))) && !IsSelfTailCall(m.forgeName, x)
    requires Sound(T.C, ReturnExpr(Some(x)), false)
    ensures Sim(T, s, LowerReturn(s, ReturnExpr(Some(x))).0, true, Eval(T.I, T.C, ReturnExpr(Some(x)), env, tr, fuel),
                c, k, fuel)
    decreases fuel, 1 + ReturnNest(x), 0, T.C.clauses, 2
  {
    hide BlocksGrow, VarsGrow, VarsOk, Coherent, SameSetup, Embeds, SlotsFrom, Stable, Agree, Ready, Steps;
    hide LowerExpr, LowerOperand, LowerOperands, LowerAsserts, LowerClauses, LowerReturn, LowerCall, LowerBlock,
      LowerStmts, LowerStmt;
    var (s1, op) := LowerOperand(s, x);
    var s2 := if m.check then LowerClauses(s1, s1.ensures_, x) else s1;
    ReturnBack(T, m, s, x);
    var a := Eval(T.I, T.C, x, env, tr, fuel);
    k := SimOperand(T, m, s, x, c, env, tr, fuel);
    if a.out.Normal? {
      var c1 := After(T, c, k);
      var q, k2 := SimEnsures(T, m, s1, x, op, c1, a, env, tr, fuel);
      SimThen(T, m, s, s1, s2, false, a, q, c, k, k2, fuel);
      Chain(T, c, k, k2);
      k := k + k2;
      if q.out.Normal? {
        NothingYetReturn(T, s2, Some(op), After(T, c, k));
      }
    }
  }

  /** The `ensures` clauses, when checked; the returned operand keeps its value. */
  lemma {:induction false} SimEnsures(T: Target, m: Mode, s: State, x: Expr, op: Operand, c: Config, a: Result,
      env0: Env, tr0: seq<Event>, fuel: nat)
    returns (q: Result, k: nat)
    requires var s' := if m.check then LowerClauses(s, s.ensures_, x) else s;
      Begins(T, m, s, s', c, a.env, a.trace)
    requires s.ensures_ == T.C.clauses && (m.check ==> ShapedOperands(m, s.ensures_))
    requires ShapedOperand(m, x) && Sound(T.C, ReturnExpr(Some(x)), false)
    requires a == Eval(T.I, T.C, x, env0, tr0, fuel) && a.out.Normal?
    requires OpShape(T, |s.body.locals|, Pending(x), op) && OperandValue(StoreOf(c), op) == a.out.value
    ensures q == Result(if m.check && !ClausesHold(T.I, T.C.clauses, a.env, a.out.value)
                        then Failed(POSTCONDITION) else Normal(UNIT), a.env, a.trace)
    ensures var s' := if m.check then LowerClauses(s, s.ensures_, x) else s;
      && Sim(T, s, s', false, q, c, k, fuel)
      && (q.out.Normal? ==> OperandValue(StoreOf(After(T, c, k)), op) == a.out.value)
    decreases fuel, 1 + ReturnNest(x), 0, s.ensures_, 1
  {
    hide BlocksGrow, VarsGrow, VarsOk, Coherent, SameSetup, Embeds, SlotsFrom, Stable, Agree, Ready, Steps;
    hide LowerExpr, LowerOperand, LowerOperands, LowerAsserts, LowerClauses, LowerReturn, LowerCall, LowerBlock,
      LowerStmts, LowerStmt;
    q := Result(if m.check && !ClausesHold(T.I, T.C.clauses, a.env, a.out.value)
                then Failed(POSTCONDITION) else Normal(UNIT), a.env, a.trace);
    if m.check {
      if Pure(x) {
        PureEval(T.I, T.C, x, env0, tr0, fuel);
      }
      k := SimClauses(T, m, s, s.ensures_, x, a.out.value, c, a.env, a.trace, fuel);
      if q.out.Normal? {
        OperandStays(T, |s.body.locals|, Pending(x), op, a.env, a.env, StoreOf(c), StoreOf(After(T, c, k)));
      }
    } else {
      k := 0;
      NothingYet(T, m, s, c, a.env, a.trace, fuel);
    }
  }

  lemma {:induction false} SimReturn(T: Target, m: Mode, s: State, e: Expr, c: Config, env: Env, tr: seq<Event>,
      fuel: nat)
    returns (k: nat)
    requires e.ReturnExpr? && Begins(T, m, s, LowerExpr(s, e).0, c, env, tr)
    requires Shaped(m, e) && Sound(T.C, e, false)
    ensures Sim(T, s, LowerExpr(s, e).0, true, Eval(T.I, T.C, e, env, tr, fuel), c, k, fuel)
    decreases fuel, ReturnNest(e), 1, e, 2
  {
    assert LowerExpr(s, e) == LowerReturn(s, e);
    match e.result
    case None =>
      k := 0;
      NothingYetReturn(T, s, None, c);
    case Some(x) =>
      assert e == ReturnExpr(Some(x));
      k := SimReturnValue(T, m, s, x, c, env, tr, fuel);
  }

  // ---- Zones ----

  // One step of each function at a zone.
  lemma {:induction false} ZoneParts(T: Target, m: Mode, s: State, e: Expr, used: bool, env: Env, tr: seq<Event>,
      fuel: nat)
    requires e.Zone?
    ensures var (s2, rv) := LowerBlock(Push(s, ZoneEnter(e.zone)), e.body);
      LowerExpr(s, e) == (Push(s2, ZoneExit(e.zone)), rv)
    ensures Eval(T.I, T.C, e, env, tr, fuel) == EvalBlock(T.I, T.C, e.body, env, tr, fuel)
    ensures Exits(e) == BlockExits(e.body)
    ensures Shaped(m, e) ==> ShapedBlock(m, e.body)
    ensures Sound(T.C, e, used) ==> SoundBlock(T.C, e.body, used)
  {
    hide LowerBlock, Push, EvalBlock, BlockExits, ShapedBlock, SoundBlock;
  }

  lemma {:induction false} SimZone(T: Target, m: Mode, s: State, e: Expr, used: bool, c: Config, env: Env,
      tr: seq<Event>, fuel: nat)
    returns (k: nat)
    requires e.Zone? && Begins(T, m, s, LowerExpr(s, e).0, c, env, tr)
    requires Shaped(m, e) && Sound(T.C, e, used)
    ensures var (s', rv) := LowerExpr(s, e);
      var r := Eval(T.I, T.C, e, env, tr, fuel);
      && Sim(T, s, s', Exits(e), r, c, k, fuel)
      && (used && r.out.Normal? ==> RvalueValue(T.I.mir, StoreOf(After(T, c, k)), rv) == r.out.value)
    decreases fuel, ReturnNest(e), 1, e, 2
  {
    hide BlocksGrow, VarsGrow, VarsOk, Coherent, SameSetup, Embeds, SlotsFrom, Stable, Agree, Ready, Steps;
    hide LowerExpr, LowerBlock, Eval, EvalBlock, Exits, BlockExits, Shaped, ShapedBlock, Sound, SoundBlock;
    ZoneParts(T, m, s, e, used, env, tr, fuel);
    var enter, leave := ZoneEnter(e.zone), ZoneExit(e.zone);
    var s1 := Push(s, enter);
    var (s2, rv) := LowerBlock(s1, e.body);
    GrowsRefl(m, s);
    PushGrows(m, s, s, false, enter);
    GoOn(T, m, s, s1);
    GrowBlock(m, s1, e.body);
    PushBack(T, s2, leave);
    LinkedBack(T, m, s1, s2, BlockExits(e.body));
    ExecPushed(T, s, enter, c);
    var c1 := After(T, c, 1);
    var k2 := SimBlock(T, m, s1, e.body, used, c1, env, tr, fuel);
    Chain(T, c, 1, k2);
    k := 1 + k2;
    var c2 := After(T, c1, k2);
    if AtEnd(s2, c2) {
      ExecPushed(T, s2, leave, c2);
      Chain(T, c, k, 1);
      var r := Eval(T.I, T.C, e, env, tr, fuel);
      if !r.out.OutOfFuel? {
        k := k + 1;
      }
    }
  }

  // ---- Blocks ----

  lemma {:induction false} BlockBack(T: Target, m: Mode, s: State, b: HBlock)
    requires Go(T, m, s) && b.tail.Some? && ShapedBlock(m, b) && Linked(T, LowerBlock(s, b).0)
    ensures var s1 := LowerStmts(s, b.stmts);
      Go(T, m, s1) && Linked(T, s1) && |s1.body.locals| >= |s.body.locals| && !StmtsExit(b.stmts)
  {
    var s1 := LowerStmts(s, b.stmts);
    var e := b.tail.value;
    GrowStmts(m, s, b.stmts, false);
    NoExit(m, b.stmts);
    GoOn(T, m, s, s1);
    GrowExpr(m, s1, e);
    LinkedBack(T, m, s1, LowerExpr(s1, e).0, Exits(e));
  }

  lemma {:induction false} SimBlock(T: Target, m: Mode, s: State, b: HBlock, used: bool, c: Config, env: Env,
      tr: seq<Event>, fuel: nat)
    returns (k: nat)
    requires Begins(T, m, s, LowerBlock(s, b).0, c, env, tr)
    requires ShapedBlock(m, b) && SoundBlock(T.C, b, used)
    ensures var (s', rv) := LowerBlock(s, b);
      var r := EvalBlock(T.I, T.C, b, env, tr, fuel);
      && Sim(T, s, s', BlockExits(b), r, c, k, fuel)
      && (used && r.out.Normal? ==> RvalueValue(T.I.mir, StoreOf(After(T, c, k)), rv) == r.out.value)
    decreases fuel, ReturnNestBlock(b), 1, b
  {
    hide BlocksGrow, VarsGrow, VarsOk, Coherent, SameSetup, Embeds, SlotsFrom, Stable, Agree, Ready, Steps;
    var s1 := LowerStmts(s, b.stmts);
    match b.tail
    case None =>
      k := SimStmts(T, m, s, b.stmts, true, c, env, tr, fuel);
    case Some(e) =>
      var s2 := LowerExpr(s1, e).0;
      BlockBack(T, m, s, b);
      k := SimStmts(T, m, s, b.stmts, false, c, env, tr, fuel);
      var r := EvalStmts(T.I, T.C, b.stmts, env, tr, fuel);
      if r.out.Normal? {
        var k2 := SimExpr(T, m, s1, e, used, After(T, c, k), r.env, r.trace, fuel);
        SimThen(T, m, s, s1, s2, Exits(e), r, Eval(T.I, T.C, e, r.env, r.trace, fuel), c, k, k2, fuel);
        Chain(T, c, k, k2);
        k := k + k2;
      }
  }

  lemma {:induction false} StmtsBack(T: Target, m: Mode, s: State, ss: seq<Stmt>, mayExit: bool)
    requires Go(T, m, s) && |ss| > 1 && ShapedStmts(m, ss, mayExit) && Linked(T, LowerStmts(s, ss))
    ensures var s1 := LowerStmt(s, ss[0]);
      Go(T, m, s1) && Linked(T, s1) && |s1.body.locals| >= |s.body.locals|
    ensures !StmtExits(ss[0]) && StmtsExit(ss) == StmtsExit(ss[1..])
  {
    var s1 := LowerStmt(s, ss[0]);
    GrowStmt(m, s, ss[0]);
    GoOn(T, m, s, s1);
    GrowStmts(m, s1, ss[1..], mayExit);
    LinkedBack(T, m, s1, LowerStmts(s1, ss[1..]), StmtsExit(ss[1..]));
  }

  lemma {:induction false} SimStmts(T: Target, m: Mode, s: State, ss: seq<Stmt>, mayExit: bool, c: Config, env: Env,
      tr: seq<Event>, fuel: nat)
    returns (k: nat)
    requires Begins(T, m, s, LowerStmts(s, ss), c, env, tr)
    requires ShapedStmts(m, ss, mayExit) && SoundStmts(T.C, ss)
    ensures Sim(T, s, LowerStmts(s, ss), StmtsExit(ss), EvalStmts(T.I, T.C, ss, env, tr, fuel), c, k, fuel)
    decreases fuel, ReturnNestStmts(ss), 1, ss
  {
    hide BlocksGrow, VarsGrow, VarsOk, Coherent, SameSetup, Embeds, SlotsFrom, Stable, Agree, Ready, Steps;
    hide LowerStmt, EvalStmt, ShapedStmt, SoundStmt, StmtExits;
    if ss == [] {
      k := 0;
      NothingYet(T, m, s, c, env, tr, fuel);
    } else {
      var s1 := LowerStmt(s, ss[0]);
      var s' := LowerStmts(s1, ss[1..]);
      if |ss| == 1 {
        assert s' == s1;
        k := SimStmt(T, m, s, ss[0], c, env, tr, fuel);
        var r := EvalStmt(T.I, T.C, ss[0], env, tr, fuel);
        assert r.out.Normal? ==>
            EvalStmts(T.I, T.C, ss[1..], r.env, r.trace, fuel) == Result(Normal(UNIT), r.env, r.trace);
      } else {
        StmtsBack(T, m, s, ss, mayExit);
        k := SimStmt(T, m, s, ss[0], c, env, tr, fuel);
        var r := EvalStmt(T.I, T.C, ss[0], env, tr, fuel);
        if r.out.Normal? {
          var r2 := EvalStmts(T.I, T.C, ss[1..], r.env, r.trace, fuel);
          var k2 := SimStmts(T, m, s1, ss[1..], mayExit, After(T, c, k), r.env, r.trace, fuel);
          SimThen(T, m, s, s1, s', StmtsExit(ss[1..]), r, r2, c, k, k2, fuel);
          k := k + k2;
        }
      }
    }
  }

  /** Storing a computed value in the slot of `v`. */
  lemma {:induction false} StoreStep(T: Target, n: nat, s: State, v: DefId, l: Local, rv: Rvalue, c: Config, env: Env)
    requires Linked(T, Push(s, Assign(l, rv))) && v in s.vars && s.vars[v] == l
    requires AtEnd(s, c) && Agree(T, env, StoreOf(c)) && T.Injective()
    ensures var c' := After(T, c, 1);
      var s' := Push(s, Assign(l, rv));
      && AtEnd(s', c') && TraceOf(c') == TraceOf(c)
      && Agree(T, env[v := RvalueValue(T.I.mir, StoreOf(c), rv)], StoreOf(c')) && Stable(T, n, StoreOf(c), StoreOf(c'))
  {
    AssignSlot(T, s, l, rv, c);
    WriteSlot(T, n, env, StoreOf(c), v, RvalueValue(T.I.mir, StoreOf(c), rv));
  }

  lemma {:induction false} SimStmt(T: Target, m: Mode, s: State, st: Stmt, c: Config, env: Env, tr: seq<Event>,
      fuel: nat)
    returns (k: nat)
    requires Begins(T, m, s, LowerStmt(s, st), c, env, tr)
    requires ShapedStmt(m, st) && SoundStmt(T.C, st)
    ensures Sim(T, s, LowerStmt(s, st), StmtExits(st), EvalStmt(T.I, T.C, st, env, tr, fuel), c, k, fuel)
    decreases fuel, ReturnNestStmt(st), 1, st
  {
    hide LowerExpr, Eval, Shaped, Sound;
    match st
    case Let(_, _, _, None) => k := 0;
    case Let(name, v, ty, Some(e)) =>
      var (s1, rv) := LowerExpr(s, e);
      var (s2, l) := LetLocal(s1, name, v, ty, e);
      GrowExpr(m, s, e);
      StillReady(m, s, s1);
      GrowsRefl(m, s1);
      LetLocalGrows(m, s1, s1, name, v, ty, e);
      k := SimStored(T, m, s, e, v, s2, l, c, env, tr, fuel);
    case AssignStmt(v, e) =>
      var (s1, rv) := LowerExpr(s, e);
      var (s2, l) := ReadVariable(s1, v);
      GrowExpr(m, s, e);
      StillReady(m, s, s1);
      GrowsRefl(m, s1);
      ReadVariableGrows(m, s1, s1, v);
      k := SimStored(T, m, s, e, v, s2, l, c, env, tr, fuel);
    case ExprStmt(e) => k := SimExpr(T, m, s, e, false, c, env, tr, fuel);
  }

  /** A let or an assignment: evaluate, then store in the slot `l` of `v`. */
  lemma {:induction false} StoredBack(T: Target, m: Mode, s: State, e: Expr, v: DefId, s2: State, l: Local)
    requires Go(T, m, s) && ShapedOperand(m, e) && Grows(m, LowerExpr(s, e).0, s2, false)
    requires Linked(T, Push(s2, Assign(l, LowerExpr(s, e).1)))
    ensures Linked(T, LowerExpr(s, e).0) && !Exits(e) && |s.body.locals| <= |s2.body.locals|
  {
    hide LowerExpr, Shaped;
    var (s1, rv) := LowerExpr(s, e);
    GrowExpr(m, s, e);
    StillReady(m, s, s1);
    PushBack(T, s2, Assign(l, rv));
    LinkedBack(T, m, s1, s2, false);
  }

  lemma {:induction false} SimStored(T: Target, m: Mode, s: State, e: Expr, v: DefId, s2: State, l: Local, c: Config,
      env: Env, tr: seq<Event>, fuel: nat)
    returns (k: nat)
    requires ShapedOperand(m, e) && Sound(T.C, e, true)
    requires var (s1, rv) := LowerExpr(s, e);
      Grows(m, s1, s2, false) && s2.body.blocks == s1.body.blocks && s2.cur == s1.cur
      && v in s2.vars && s2.vars[v] == l
      && Begins(T, m, s, Push(s2, Assign(l, rv)), c, env, tr)
    ensures Sim(T, s, Push(s2, Assign(l, LowerExpr(s, e).1)), false, Store1(Eval(T.I, T.C, e, env, tr, fuel), v), c, k,
                fuel)
    decreases fuel, ReturnNest(e), 1, e, 4
  {
    hide LowerExpr, Eval, Shaped, Sound, Steps, BlocksGrow, VarsGrow, VarsOk, Coherent, SameSetup, Ready;
    StoredBack(T, m, s, e, v, s2, l);
    var (s1, rv) := LowerExpr(s, e);
    k := SimExpr(T, m, s, e, true, c, env, tr, fuel);
    var r := Eval(T.I, T.C, e, env, tr, fuel);
    if r.out.Normal? {
      var c1 := After(T, c, k);
      StoreStep(T, |s.body.locals|, s2, v, l, rv, c1, r.env);
      Chain(T, c, k, 1);
      k := k + 1;
    }
  }

  // ---- Branches ----

  ghost predicate AtStart(b: BlockId, c: Config) {
    c.Running? && c.frame.blk == b && c.frame.pc == 0
  }

  lemma {:induction false} OpenedBack(T: Target, s: State, s': State, term: Terminator)
    requires Opened(s, s', term) && Embeds(T, s') && s.Cur().term.None?
    ensures Embeds(T, s) && s.cur < |T.blocks| && T.blocks[s.cur] == BasicBlock(s.Cur().instrs, Some(term))
  {
    assert s'.body.blocks[s.cur] == BasicBlock(s.Cur().instrs, Some(term));
    forall i | 0 <= i < s.Size() && i != s.cur
      ensures s'.body.blocks[i] == s.body.blocks[i]
    {
    }
  }

  lemma {:induction false} BranchedBack(T: Target, s: State, s': State, b: BlockId, op: Operand)
    requires Branched(s, s', b, op) && Embeds(T, s') && s.Cur().term.None? && s.body.blocks[b + 1].term.None?
    ensures Embeds(T, s) && b < |T.blocks|
                && T.blocks[b] == BasicBlock(s.Cur().instrs, Some(SwitchInt(op, [(1, b + 1)], b + 2)))
  {
    assert s'.body.blocks[b] == BasicBlock(s.Cur().instrs, Some(SwitchInt(op, [(1, b + 1)], b + 2)));
    assert s.body.blocks[b].instrs <= T.blocks[b].instrs;
  }

  /** Control has come to the start of block `b`, or everything stopped. */
  ghost predicate Lands(T: Target, n: nat, b: BlockId, s: State, r: Result, c: Config, k: nat, fuel: nat) {
    var c' := After(T, c, k);
    if r.out.Normal? then
      && AtStart(b, c') && TraceOf(c') == r.trace && Agree(T, r.env, StoreOf(c'))
      && Stable(T, n, StoreOf(c), StoreOf(c'))
    else Stops(T, s, false, r, c', k, fuel)
  }

  /** A branch taken after a condition, and where it lands. */
  lemma {:induction false} LandsAfter(T: Target, s: State, s1: State, s': State, b: BlockId, r1: Result, q: Result,
      c: Config, k: nat, k2: nat, fuel: nat)
    requires Sim(T, s, s1, false, r1, c, k, fuel) && r1.out.Normal? && |s.body.locals| <= |s1.body.locals|
    requires StoreOf(After(T, c, k + 1)) == StoreOf(After(T, c, k))
    requires Lands(T, |s1.body.locals|, b, s1, q, After(T, c, k + 1), k2, fuel)
    requires s'.cur == b && s'.Cur() == EMPTY_BLOCK
    ensures Sim(T, s, s', false, q, c, k + 1 + k2, fuel)
  {
    hide Agree, Steps;
    Chain(T, c, k + 1, k2);
  }

  /** The end of a branch body: jump to `target`, or do the pending return. */
  lemma {:induction false} FinishBranch(T: Target, s0: State, s: State, s3: State, s4: State, target: BlockId,
      next: BlockId, exits: bool, r: Result, c: Config, k: nat, fuel: nat)
    returns (k': nat)
    requires Joined(s3, s4, target, next) && s3.cur < |T.blocks| && T.blocks[s3.cur] == s4.body.blocks[s3.cur]
    requires s3.Cur().term.Some? <==> exits
    requires Sim(T, s, s3, exits, r, c, k, fuel)
    ensures k' >= k
    ensures Lands(T, |s.body.locals|, target, s0, r, c, k', fuel) && (r.out.Normal? ==> k' > k)
  {
    var c1 := After(T, c, k);
    k' := k;
    if !r.out.OutOfFuel? && AtEnd(s3, c1) {
      ExecEnd(T, T.blocks[s3.cur], c1);
      Chain(T, c, k, 1);
      k' := k + 1;
    }
  }

  lemma {:induction false} SwitchStep(T: Target, s: State, op: Operand, t: BlockId, e: BlockId, c: Config)
    requires AtEnd(s, c) && s.cur < |T.blocks|
    requires T.blocks[s.cur] == BasicBlock(s.Cur().instrs, Some(SwitchInt(op, [(1, t)], e)))
    ensures var c' := After(T, c, 1);
      var key := Key(OperandValue(StoreOf(c), op));
      && AtStart(if key == 1 then t else e, c') && TraceOf(c') == TraceOf(c) + [Switched(key)]
      && StoreOf(c') == StoreOf(c)
  {
    ExecEnd(T, T.blocks[s.cur], c);
    assert SwitchTarget(Key(OperandValue(StoreOf(c), op)), [], e) == e;
    assert [(1, t)][1..] == [];
  }

  lemma {:induction false} GivenBack(T: Target, m: Mode, s: State, e: Expr)
    requires Go(T, m, s) && e.Given? && Shaped(m, e) && Linked(T, LowerExpr(s, e).0)
    ensures var (s1, op) := LowerOperand(s, e.cond);
      var n := s1.Size();
      var s4 := AfterThen(s1, op, e.thenBlock);
      var s6 := AfterElse(s4, n, e.elseExpr);
      && LowerExpr(s, e).0 == s6 && s6.Cur() == EMPTY_BLOCK && s6.cur == n + 2
      && Go(T, m, s1) && Go(T, m, s4) && HalfGiven(s1, s4, op)
      && Linked(T, s1) && Linked(T, s4) && Linked(T, s6)
      && |s.body.locals| <= |s1.body.locals| <= |s4.body.locals|
      && s1.cur < |T.blocks| && T.blocks[s1.cur] == BasicBlock(s1.Cur().instrs, Some(SwitchInt(op, [(1, n)], n + 1)))
  {
    hide BlocksGrow, VarsGrow, VarsOk, Coherent, SameSetup, Embeds, SlotsFrom, Stable, Agree, Ready, Steps;
    hide LowerOperand, LowerStmt, LowerBlock, LowerReturn, LowerCall, ToOperand, LowerStmts, Exits, Terminate, Push,
      MoveTo, Linked;
    var (s1, op) := LowerOperand(s, e.cond);
    var s4 := AfterThen(s1, op, e.thenBlock);
    GrowOperand(m, s, e.cond);
    GoOn(T, m, s, s1);
    GrowThen(m, s1, op, e);
    KeptGo(T, m, s1, s4);
    ElseBack(T, m, s1, s4, op, e);
    ThenBack(T, m, s1, op, e);
  }

  // Evaluating the branch that the condition's key selects.
  function EvalBranches(T: Target, e: Expr, env: Env, tr: seq<Event>, key: int, fuel: nat): Result
    requires e.Given?
  {
    if key == 1 then EvalBlock(T.I, T.C, e.thenBlock, env, tr, fuel)
    else (match e.elseExpr case None => Result(Normal(UNIT), env, tr) case Some(x) => Eval(T.I, T.C, x, env, tr, fuel))
  }

  lemma {:induction false} SimBranches(T: Target, m: Mode, s1: State, s4: State, op: Operand, e: Expr, c: Config,
      env: Env, tr: seq<Event>, key: int, fuel: nat)
    returns (k: nat)
    requires Go(T, m, s1) && T.Injective() && Shaped(m, e) && Sound(T.C, e, false) && e.Given?
    requires s4 == AfterThen(s1, op, e.thenBlock) && Go(T, m, s4) && HalfGiven(s1, s4, op)
    requires |s1.body.locals| <= |s4.body.locals|
    requires Linked(T, s4) && Linked(T, AfterElse(s4, s1.Size(), e.elseExpr))
    requires AtStart(if key == 1 then s1.Size() else s1.Size() + 1, c) && Agree(T, env, StoreOf(c)) && TraceOf(c) == tr
    ensures var r := EvalBranches(T, e, env, tr, key, fuel);
      Lands(T, |s1.body.locals|, s1.Size() + 2, s1, r, c, k, fuel)
    decreases fuel, ReturnNest(e), 1, e, 1
  {
    hide BlocksGrow, VarsGrow, VarsOk, Coherent, SameSetup, Embeds, SlotsFrom, Stable, Agree, Ready, Steps;
    if key == 1 {
      k := SimThenBranch(T, m, s1, op, e, c, env, tr, fuel);
    } else {
      k := SimElseBranch(T, m, s1, s4, op, e, c, env, tr, fuel);
    }
  }

  lemma {:induction false} EvalGiven(T: Target, e: Expr, env: Env, tr: seq<Event>, fuel: nat)
    requires e.Given?
    ensures var r := Eval(T.I, T.C, e.cond, env, tr, fuel);
      Eval(T.I, T.C, e, env, tr, fuel) ==
      if !r.out.Normal? then r
      else EvalBranches(T, e, r.env, r.trace + [Switched(Key(r.out.value))], Key(r.out.value), fuel)
  {
  }

  lemma {:induction false} SimGiven(T: Target, m: Mode, s: State, e: Expr, c: Config, env: Env, tr: seq<Event>,
      fuel: nat)
    returns (k: nat)
    requires e.Given? && Begins(T, m, s, LowerExpr(s, e).0, c, env, tr)
    requires Shaped(m, e) && Sound(T.C, e, false)
    ensures Sim(T, s, LowerExpr(s, e).0, false, Eval(T.I, T.C, e, env, tr, fuel), c, k, fuel)
    decreases fuel, ReturnNest(e), 1, e, 2
  {
    hide BlocksGrow, VarsGrow, VarsOk, Coherent, SameSetup, Embeds, SlotsFrom, Stable, Agree, Ready, Steps;
    hide LowerExpr, LowerOperand, LowerOperands, LowerAsserts, LowerClauses, LowerReturn, LowerCall, LowerBlock,
      LowerStmts, LowerStmt;
    hide Eval, EvalBranches, AfterThen, AfterElse, HalfGiven;
    var (s1, op) := LowerOperand(s, e.cond);
    var n := s1.Size();
    var s4 := AfterThen(s1, op, e.thenBlock);
    var s6 := AfterElse(s4, n, e.elseExpr);
    GivenBack(T, m, s, e);
    EvalGiven(T, e, env, tr, fuel);
    k := SimOperand(T, m, s, e.cond, c, env, tr, fuel);
    var r := Eval(T.I, T.C, e.cond, env, tr, fuel);
    if r.out.Normal? {
      var c1 := After(T, c, k);
      SwitchStep(T, s1, op, n, n + 1, c1);
      Chain(T, c, k, 1);
      var key := Key(r.out.value);
      var k2 := SimBranches(T, m, s1, s4, op, e, After(T, c, k + 1), r.env, r.trace + [Switched(key)], key, fuel);
      var q := EvalBranches(T, e, r.env, r.trace + [Switched(key)], key, fuel);
      LandsAfter(T, s, s1, s6, n + 2, r, q, c, k, k2, fuel);
      k := k + 1 + k2;
    }
  }

  /** Blocks other than the current one are as they were. */
  lemma {:induction false} ElseBack(T: Target, m: Mode, s1: State, s4: State, op: Operand, e: Expr)
    requires Go(T, m, s4) && HalfGiven(s1, s4, op) && Shaped(m, e) && e.Given?
    requires Linked(T, AfterElse(s4, s1.Size(), e.elseExpr))
    ensures var s5 := OptLower(s4, e.elseExpr);
      && Grows(m, s4, s5, OptExits(e.elseExpr))
      && Joined(s5, AfterElse(s4, s1.Size(), e.elseExpr), s1.Size() + 2, s1.Size() + 2)
      && AfterElse(s4, s1.Size(), e.elseExpr).Cur() == EMPTY_BLOCK
      && Linked(T, s5) && Linked(T, s4) && s5.cur < |T.blocks|
      && (s5.Cur().term.Some? <==> OptExits(e.elseExpr))
      && T.blocks[s5.cur] == AfterElse(s4, s1.Size(), e.elseExpr).body.blocks[s5.cur]
  {
    hide BlocksGrow, VarsGrow, VarsOk, Coherent, SameSetup, Embeds, SlotsFrom, Stable, Agree, Ready, Steps;
    var n := s1.Size();
    var s5 := OptLower(s4, e.elseExpr);
    match e.elseExpr {
      case None => GrowsRefl(m, s4);
      case Some(x) => GrowExpr(m, s4, x);
    }
    JoinFacts(m, s4, s5, OptExits(e.elseExpr), n + 2, n + 2);
    KeepsBlock(m, s4, s5, OptExits(e.elseExpr), n + 2);
    JoinedBack(T, s5, AfterElse(s4, n, e.elseExpr), n + 2, n + 2);
    JoinSlots(T, s5, n + 2, n + 2);
    LinkedBack(T, m, s4, s5, OptExits(e.elseExpr));
  }

  lemma {:induction false} OpenGivenGo(T: Target, m: Mode, s: State, op: Operand)
    requires Go(T, m, s)
    ensures Go(T, m, OpenGiven(s, op)) && OpenGiven(s, op).Cur() == EMPTY_BLOCK
    ensures s.Cur().term.None?
    ensures SlotsFrom(T, OpenGiven(s, op)) ==> SlotsFrom(T, s)
  {
    OpenGivenFacts(m, s, op);
  }

  lemma {:induction false} KeptGo(T: Target, m: Mode, s: State, s': State)
    requires Go(T, m, s) && Kept(m, s, s') && Ready(m, s')
    ensures Go(T, m, s') && |s'.body.locals| >= |s.body.locals|
  {
  }

  lemma {:induction false} ThenBack(T: Target, m: Mode, s1: State, op: Operand, e: Expr)
    requires Go(T, m, s1) && Shaped(m, e) && e.Given?
    requires Linked(T, AfterThen(s1, op, e.thenBlock))
    ensures var n := s1.Size();
      var s2 := OpenGiven(s1, op);
      var s3 := LowerBlock(s2, e.thenBlock).0;
      && Go(T, m, s2) && s2.cur == n && s2.Cur() == EMPTY_BLOCK && |s2.body.locals| == |s1.body.locals|
      && (s3.Cur().term.Some? <==> BlockExits(e.thenBlock)) && s3.cur < |T.blocks| && s1.cur < |T.blocks|
      && Joined(s3, AfterThen(s1, op, e.thenBlock), n + 2, n + 1)
      && Linked(T, s3) && Linked(T, s1)
      && T.blocks[s3.cur] == AfterThen(s1, op, e.thenBlock).body.blocks[s3.cur]
      && T.blocks[s1.cur] == BasicBlock(s1.Cur().instrs, Some(SwitchInt(op, [(1, n)], n + 1)))
  {
    hide BlocksGrow, VarsGrow, VarsOk, Coherent, SameSetup, Embeds, SlotsFrom, Stable, Agree, Ready, Steps;
    var n := s1.Size();
    var s2 := OpenGiven(s1, op);
    OpenGivenFacts(m, s1, op);
    var s3 := LowerBlock(s2, e.thenBlock).0;
    GrowBlock(m, s2, e.thenBlock);
    JoinFacts(m, s2, s3, BlockExits(e.thenBlock), n + 2, n + 1);
    KeepsBlock(m, s2, s3, BlockExits(e.thenBlock), n + 1);
    JoinedBack(T, s3, AfterThen(s1, op, e.thenBlock), n + 2, n + 1);
    JoinSlots(T, s3, n + 2, n + 1);
    LinkedBack(T, m, s2, s3, BlockExits(e.thenBlock));
    OpenGivenGo(T, m, s1, op);
    OpenedBack(T, s1, s2, SwitchInt(op, [(1, n)], n + 1));
  }

  lemma {:induction false} JoinSlots(T: Target, s: State, target: BlockId, next: BlockId)
    requires target < s.Size() && next < s.Size() && SlotsFrom(T, MoveTo(JoinTo(s, target), next))
    ensures SlotsFrom(T, s)
  {
  }

  lemma {:induction false} SimThenBranch(T: Target, m: Mode, s1: State, op: Operand, e: Expr, c: Config, env: Env,
      tr: seq<Event>, fuel: nat)
    returns (k: nat)
    requires Go(T, m, s1) && T.Injective() && Shaped(m, e) && Sound(T.C, e, false) && e.Given?
    requires Linked(T, AfterThen(s1, op, e.thenBlock))
    requires AtStart(s1.Size(), c) && Agree(T, env, StoreOf(c)) && TraceOf(c) == tr
    ensures var r := EvalBlock(T.I, T.C, e.thenBlock, env, tr, fuel);
      Lands(T, |s1.body.locals|, s1.Size() + 2, s1, r, c, k, fuel)
    decreases fuel, ReturnNest(e), 1, e, 0
  {
    hide BlocksGrow, VarsGrow, VarsOk, Coherent, SameSetup, Embeds, SlotsFrom, Stable, Agree, Ready, Steps;
    var n := s1.Size();
    var s2 := OpenGiven(s1, op);
    var s3 := LowerBlock(s2, e.thenBlock).0;
    ThenBack(T, m, s1, op, e);
    k := SimBlock(T, m, s2, e.thenBlock, false, c, env, tr, fuel);
    k := FinishBranch(T, s1, s2, s3, AfterThen(s1, op, e.thenBlock), n + 2, n + 1, BlockExits(e.thenBlock),
                      EvalBlock(T.I, T.C, e.thenBlock, env, tr, fuel), c, k, fuel);
  }

  lemma {:induction false} SimElseBranch(T: Target, m: Mode, s1: State, s4: State, op: Operand, e: Expr, c: Config,
      env: Env, tr: seq<Event>, fuel: nat)
    returns (k: nat)
    requires Go(T, m, s1) && T.Injective() && Shaped(m, e) && Sound(T.C, e, false) && e.Given?
    requires Go(T, m, s4) && HalfGiven(s1, s4, op) && |s1.body.locals| <= |s4.body.locals|
    requires Linked(T, AfterElse(s4, s1.Size(), e.elseExpr))
    requires AtStart(s1.Size() + 1, c) && Agree(T, env, StoreOf(c)) && TraceOf(c) == tr
    ensures var r := (match e.elseExpr
        case None => Result(Normal(UNIT), env, tr)
        case Some(x) => Eval(T.I, T.C, x, env, tr, fuel));
      Lands(T, |s1.body.locals|, s1.Size() + 2, s1, r, c, k, fuel)
    decreases fuel, ReturnNest(e), 1, e, 0
  {
    hide BlocksGrow, VarsGrow, VarsOk, Coherent, SameSetup, Embeds, SlotsFrom, Stable, Agree, Ready, Steps;
    var n := s1.Size();
    var s5 := OptLower(s4, e.elseExpr);
    ElseBack(T, m, s1, s4, op, e);
    var r := (match e.elseExpr
      case None => Result(Normal(UNIT), env, tr)
      case Some(x) => Eval(T.I, T.C, x, env, tr, fuel));
    match e.elseExpr {
      case None =>
        k := 0;
        NothingYet(T, m, s4, c, env, tr, fuel);
      case Some(x) => k := SimExpr(T, m, s4, x, false, c, env, tr, fuel);
    }
    var k1 := k;
    k := FinishBranch(T, s1, s4, s5, AfterElse(s4, n, e.elseExpr), n + 2, n + 2, OptExits(e.elseExpr), r, c, k1, fuel);
    if r.out.Normal? {
      StableTrans(T, |s1.body.locals|, |s4.body.locals|, StoreOf(c), StoreOf(c), StoreOf(After(T, c, k)));
    }
  }

  // ---- Loops ----

  // The states a loop passes through.
  function LoopCond(s: State, e: Expr): (r: (State, Operand))
    requires e.While?
    ensures r.0.Size() >= s.Size() + 3
  {
    LowerOperand(OpenWhile(s), e.cond)
  }

  function LoopBody(s: State, e: Expr): (r: State)
    requires e.While?
    ensures r.Size() >= s.Size() + 3
  {
    BranchWhile(LoopCond(s, e).0, s.Size(), LoopCond(s, e).1)
  }

  function LoopEnd(s: State, e: Expr): (r: State)
    requires e.While?
    ensures r.Size() >= s.Size() + 3
  {
    LowerBlock(LoopBody(s, e), e.body).0
  }

  function LoopExit(s: State, e: Expr): State
    requires e.While?
  {
    MoveTo(JoinTo(LoopEnd(s, e), s.Size()), s.Size() + 2)
  }

  /** How the parts of a loop stand in the finished body. */
  ghost predicate LoopLinked(T: Target, m: Mode, s: State, e: Expr)
    requires e.While?
  {
    var b := s.Size();
    var (s1, (s2, op), s3, s4, s5) := (OpenWhile(s), LoopCond(s, e), LoopBody(s, e), LoopEnd(s, e), LoopExit(s, e));
    && Go(T, m, s1) && s1.cur == b && s1.Cur() == EMPTY_BLOCK && Linked(T, s2) && s2.cur == b
    && |s1.body.locals| >= |s.body.locals| && |s3.body.locals| >= |s.body.locals|
    && b < |T.blocks| && T.blocks[b] == BasicBlock(s2.Cur().instrs, Some(SwitchInt(op, [(1, b + 1)], b + 2)))
    && Go(T, m, s3) && s3.cur == b + 1 && s3.Cur() == EMPTY_BLOCK && Linked(T, s4)
    && (s4.Cur().term.Some? <==> BlockExits(e.body))
    && Joined(s4, s5, b, b + 2) && s4.cur < |T.blocks| && T.blocks[s4.cur] == s5.body.blocks[s4.cur]
    && s5.cur == b + 2 && s5.Cur() == EMPTY_BLOCK
  }

  lemma {:induction false} OpenWhileGo(T: Target, m: Mode, s: State)
    requires Go(T, m, s)
    ensures var (s', b) := (OpenWhile(s), s.Size());
      && s.Cur().term.None? && Go(T, m, s') && s'.cur == b && s'.Size() == b + 3 && Opened(s, s', Goto(b))
      && s'.body.blocks[b] == s'.body.blocks[b + 1] == s'.body.blocks[b + 2] == EMPTY_BLOCK
      && |s'.body.locals| == |s.body.locals|
      && (SlotsFrom(T, s') ==> SlotsFrom(T, s))
  {
    OpenWhileFacts(m, s);
  }

  lemma {:induction false} BranchWhileGo(T: Target, m: Mode, s: State, b: BlockId, op: Operand)
    requires Go(T, m, s) && s.cur == b && b + 2 < s.Size()
    requires s.body.blocks[b + 1] == s.body.blocks[b + 2] == EMPTY_BLOCK
    ensures var s' := BranchWhile(s, b, op);
      && s.Cur().term.None? && Go(T, m, s') && s'.cur == b + 1 && s'.Size() == s.Size() && Branched(s, s', b, op)
      && s'.body.blocks[b + 1] == s'.body.blocks[b + 2] == EMPTY_BLOCK
      && |s'.body.locals| == |s.body.locals|
      && (SlotsFrom(T, s') ==> SlotsFrom(T, s))
  {
    BranchWhileFacts(m, s, b, op);
  }

  lemma {:induction false} LoopBack(T: Target, m: Mode, s: State, e: Expr)
    requires Go(T, m, s) && e.While? && Shaped(m, e) && Linked(T, LoopExit(s, e))
    ensures LoopLinked(T, m, s, e)
    ensures Linked(T, s) && s.cur < |T.blocks| && T.blocks[s.cur] == BasicBlock(s.Cur().instrs, Some(Goto(s.Size())))
  {
    hide BlocksGrow, VarsGrow, VarsOk, Coherent, SameSetup, Embeds, SlotsFrom, Stable, Agree, Ready, Steps;
    hide LowerOperand, LowerBlock, OpenWhile, BranchWhile, JoinTo, MoveTo, Shaped, ShapedOperand, ShapedBlock,
      Straight, BlockExits, Grows;
    ReadyIs(m, s);
    WhileShaped(m, e);
    var b := s.Size();
    var (s1, (s2, op), s3, s4, s5) := (OpenWhile(s), LoopCond(s, e), LoopBody(s, e), LoopEnd(s, e), LoopExit(s, e));
    OpenWhileGo(T, m, s);
    ReadyIs(m, s1);
    GrowOperand(m, s1, e.cond);
    StraightOperandStays(s1, e.cond);
    GoOn(T, m, s1, s2);
    KeepsBlock(m, s1, s2, false, b + 1);
    KeepsBlock(m, s1, s2, false, b + 2);
    BranchWhileGo(T, m, s2, b, op);
    GrowBlock(m, s3, e.body);
    JoinFacts(m, s3, s4, BlockExits(e.body), b, b + 2);
    KeepsBlock(m, s3, s4, BlockExits(e.body), b + 2);
    JoinedBack(T, s4, s5, b, b + 2);
    JoinSlots(T, s4, b, b + 2);
    LinkedBack(T, m, s3, s4, BlockExits(e.body));
    BranchedBack(T, s2, s3, b, op);
    LinkedBack(T, m, s1, s2, false);
    OpenedBack(T, s, s1, Goto(b));
  }

  lemma {:induction false} SimWhile(T: Target, m: Mode, s: State, e: Expr, c: Config, env: Env, tr: seq<Event>,
      fuel: nat)
    returns (k: nat)
    requires e.While? && Begins(T, m, s, LowerExpr(s, e).0, c, env, tr)
    requires Shaped(m, e) && Sound(T.C, e, false)
    ensures var (s', rv) := LowerExpr(s, e);
      var r := Eval(T.I, T.C, e, env, tr, fuel);
      && Sim(T, s, s', false, r, c, k, fuel)
      && (r.out.Normal? ==> RvalueValue(T.I.mir, StoreOf(After(T, c, k)), rv) == r.out.value)
    decreases fuel, ReturnNest(e), 1, e, 2
  {
    hide BlocksGrow, VarsGrow, VarsOk, Coherent, SameSetup, Embeds, SlotsFrom, Stable, Agree, Ready, Steps;
    assert LowerExpr(s, e).0 == LoopExit(s, e);
    LoopBack(T, m, s, e);
    ExecEnd(T, T.blocks[s.cur], c);
    var c1 := After(T, c, 1);
    k := SimLoop(T, m, s, e, c1, env, tr, fuel);
    Chain(T, c, 1, k);
    k := 1 + k;
  }

  lemma {:induction false} NoSteps(T: Target, c: Config)
    ensures After(T, c, 0) == c
  {
  }

  /** Any number of iterations, from the loop's first block to its exit block. */
  /** The condition and the branch on it. */
  lemma {:induction false} SimTest(T: Target, m: Mode, s: State, e: Expr, c: Config, env: Env, tr: seq<Event>,
      fuel: nat)
    returns (k: nat)
    requires e.While? && LoopLinked(T, m, s, e) && T.Injective() && Shaped(m, e) && Sound(T.C, e, false)
    requires AtStart(s.Size(), c) && Agree(T, env, StoreOf(c)) && TraceOf(c) == tr
    ensures var r := Eval(T.I, T.C, e.cond, env, tr, fuel);
      if r.out.Normal? then
        var key := Key(r.out.value);
        k > 0 && Lands(T, |s.body.locals|, if key == 1 then s.Size() + 1 else s.Size() + 2, s,
                       Result(Normal(UNIT), r.env, r.trace + [Switched(key)]), c, k, fuel)
      else Stops(T, s, false, r, After(T, c, k), k, fuel)
    decreases fuel, ReturnNest(e), 1, e, 0
  {
    hide BlocksGrow, VarsGrow, VarsOk, Coherent, SameSetup, Embeds, SlotsFrom, Stable, Agree, Ready, Steps;
    hide LowerExpr, LowerOperand, LowerOperands, LowerAsserts, LowerClauses, LowerReturn, LowerCall, LowerBlock,
      LowerStmts, LowerStmt;
    var b := s.Size();
    var (s1, (s2, op)) := (OpenWhile(s), LoopCond(s, e));
    assert (s2, op) == LowerOperand(s1, e.cond);
    k := SimOperand(T, m, s1, e.cond, c, env, tr, fuel);
    var r := Eval(T.I, T.C, e.cond, env, tr, fuel);
    if r.out.Normal? {
      SwitchStep(T, s2, op, b + 1, b + 2, After(T, c, k));
      Chain(T, c, k, 1);
      StableTrans(T, |s.body.locals|, |s1.body.locals|, StoreOf(c), StoreOf(c), StoreOf(After(T, c, k)));
      k := k + 1;
    }
  }

  /** The body, and the jump back. */
  lemma {:induction false} SimIteration(T: Target, m: Mode, s: State, e: Expr, c: Config, env: Env, tr: seq<Event>,
      fuel: nat)
    returns (k: nat)
    requires e.While? && LoopLinked(T, m, s, e) && T.Injective() && Shaped(m, e) && Sound(T.C, e, false)
    requires AtStart(s.Size() + 1, c) && Agree(T, env, StoreOf(c)) && TraceOf(c) == tr
    ensures Lands(T, |s.body.locals|, s.Size(), s, EvalBlock(T.I, T.C, e.body, env, tr, fuel), c, k, fuel)
    decreases fuel, ReturnNest(e), 1, e, 0
  {
    hide BlocksGrow, VarsGrow, VarsOk, Coherent, SameSetup, Embeds, SlotsFrom, Stable, Agree, Ready, Steps;
    hide LowerExpr, LowerOperand, LowerOperands, LowerAsserts, LowerClauses, LowerReturn, LowerCall, LowerBlock,
      LowerStmts, LowerStmt;
    var b := s.Size();
    var (s3, s4) := (LoopBody(s, e), LoopEnd(s, e));
    assert s4 == LowerBlock(s3, e.body).0;
    k := SimBlock(T, m, s3, e.body, false, c, env, tr, fuel);
    var q := EvalBlock(T.I, T.C, e.body, env, tr, fuel);
    k := FinishBranch(T, s, s3, s4, LoopExit(s, e), b, b + 2, BlockExits(e.body), q, c, k, fuel);
    if q.out.Normal? {
      StableTrans(T, |s.body.locals|, |s3.body.locals|, StoreOf(c), StoreOf(c), StoreOf(After(T, c, k)));
    }
  }

  lemma {:induction false} LandsOn(T: Target, n: nat, b: BlockId, b': BlockId, s: State, r: Result, q: Result,
      c: Config, k: nat, k2: nat, fuel: nat)
    requires Lands(T, n, b, s, r, c, k, fuel) && r.out.Normal?
    requires Lands(T, n, b', s, q, After(T, c, k), k2, fuel)
    ensures Lands(T, n, b', s, q, c, k + k2, fuel)
  {
    hide Agree, Steps;
    Chain(T, c, k, k2);
  }

  /** The rest of a loop, with one unit of fuel less; a step has been made already. */
  lemma {:induction false} LandsThen(T: Target, s: State, s': State, b: BlockId, q: Result, r: Result, c: Config,
      k: nat, k2: nat, fuel: nat)
    requires Lands(T, |s.body.locals|, b, s, q, c, k, fuel) && q.out.Normal? && k > 0 && fuel > 0
    requires Sim(T, s, s', false, r, After(T, c, k), k2, fuel - 1)
    ensures Sim(T, s, s', false, r, c, k + k2, fuel)
  {
    hide Agree, Steps;
    Chain(T, c, k, k2);
  }

  lemma {:induction false} SimLoop(T: Target, m: Mode, s: State, e: Expr, c: Config, env: Env, tr: seq<Event>,
      fuel: nat)
    returns (k: nat)
    requires e.While? && LoopLinked(T, m, s, e) && T.Injective() && Shaped(m, e) && Sound(T.C, e, false)
    requires AtStart(s.Size(), c) && Agree(T, env, StoreOf(c)) && TraceOf(c) == tr
    ensures var r := Eval(T.I, T.C, e, env, tr, fuel);
      && Sim(T, s, LoopExit(s, e), false, r, c, k, fuel)
      && (r.out.Normal? ==> r.out.value == UNIT)
    decreases fuel, ReturnNest(e), 1, e, 1
  {
    hide BlocksGrow, VarsGrow, VarsOk, Coherent, SameSetup, Embeds, SlotsFrom, Stable, Agree, Ready, Steps;
    hide LowerExpr, LowerOperand, LowerOperands, LowerAsserts, LowerClauses, LowerReturn, LowerCall, LowerBlock,
      LowerStmts, LowerStmt;
    if fuel == 0 {
      k := 0;
      NoSteps(T, c);
    } else {
      var b := s.Size();
      k := SimTest(T, m, s, e, c, env, tr, fuel);
      var r := Eval(T.I, T.C, e.cond, env, tr, fuel);
      if r.out.Normal? {
        var key := Key(r.out.value);
        var tr2 := r.trace + [Switched(key)];
        if key == 1 {
          var q := EvalBlock(T.I, T.C, e.body, r.env, tr2, fuel);
          var k2 := SimIteration(T, m, s, e, After(T, c, k), r.env, tr2, fuel);
          LandsOn(T, |s.body.locals|, b + 1, b, s, Result(Normal(UNIT), r.env, tr2), q, c, k, k2, fuel);
          k := k + k2;
          if q.out.Normal? {
            var k3 := SimLoop(T, m, s, e, After(T, c, k), q.env, q.trace, fuel - 1);
            LandsThen(T, s, LoopExit(s, e), b, q, Eval(T.I, T.C, e, q.env, q.trace, fuel - 1), c, k, k3, fuel);
            k := k + k3;
          }
        }
      }
    }
  }
}
