/** Lowering a whole forge preserves its meaning. */
module LowerTheorem {
  import opened Common
  import opened Mir
  import opened MirSemantics
  import opened Hir
  import opened HirSemantics
  import opened LowerSpec
  import opened Fragment
  import opened LowerFrame
  import opened LowerShape
  import opened LowerCorrect

  /** The forges lowering preserves. */
  predicate SoundForge(check: bool, f: Forge) {
    && ShapedForge(ForgeMode(check, f, false), f)
    && (f.body.Some? ==> SoundBlock(Contracts(check, f.ensures_), f.body.value, false))
  }

  // ---- How runs end ----

  ghost predicate MirEnds(I: Interp, body: MirBody, store: Store, status: Status, tr: seq<Event>) {
    exists n: nat :: MirEndsBy(I, body, store, status, tr, n)
  }

  ghost predicate MirEndsBy(I: Interp, body: MirBody, store: Store, status: Status, tr: seq<Event>, n: nat) {
    var c := Steps(I, body.blocks, Start(body.entry, store), n);
    c.Halted? && c.result.status == status && c.result.trace == tr
  }

  function StatusOf(out: Outcome): Status {
    match out
    case Gave(v) => DidReturn(v)
    case Failed(msg) => DidFail(msg)
    case _ => StillRunning
  }

  ghost predicate HirEnds(I: HirInterp, check: bool, f: Forge, args: seq<Value>, status: Status, tr: seq<Event>)
    requires |f.params| == |args| && ReturnNestAll(f.ensures_) == 0
  {
    exists fuel: nat :: HirEndsBy(I, check, f, args, status, tr, fuel)
  }

  ghost predicate HirEndsBy(I: HirInterp, check: bool, f: Forge, args: seq<Value>, status: Status, tr: seq<Event>,
      fuel: nat)
    requires |f.params| == |args| && ReturnNestAll(f.ensures_) == 0
  {
    var r := RunForge(I, check, f, args, map[], fuel);
    !r.out.OutOfFuel? && StatusOf(r.out) == status && r.trace == tr
  }

  /** A frame in which the arguments fill the first slots and nothing else is set. */
  function ArgStore(args: seq<Value>): Store {
    map i: nat | i < |args| :: args[i]
  }

  // ---- Parameters ----

  lemma {:induction false} ParamVarsOk(s: State, p: Param)
    requires VarsOk(s)
    ensures VarsOk(WriteVariable(NewLocal(s, p.name, p.ty), p.def, |s.body.locals|))
  {
  }

  lemma {:induction false} NoneToBind(T: Target, env: Env, store: Store)
    requires forall v :: v in T.slots ==> Read(store, T.slots[v]) == ReadVar(env, v)
    ensures Agree(T, BindArgs(env, [], []), store)
  {
  }

  lemma {:induction false} BindAgrees(T: Target, s: State, ps: seq<Param>, args: seq<Value>, env: Env, store: Store)
    requires |ps| == |args| && T.Injective() && VarsOk(s) && SlotsFrom(T, BindParams(s, ps))
    requires forall i :: 0 <= i < |args| ==> Read(store, |s.body.locals| + i) == args[i]
    requires forall v :: v in T.slots && !(|s.body.locals| <= T.slots[v] < |s.body.locals| + |args|)
               ==> Read(store, T.slots[v]) == ReadVar(env, v)
    ensures Agree(T, BindArgs(env, ps, args), store)
    decreases ps
  {
    hide Agree, VarsOk;
    if ps == [] {
      NoneToBind(T, env, store);
    } else {
      var l := |s.body.locals|;
      var s1 := WriteVariable(NewLocal(s, ps[0].name, ps[0].ty), ps[0].def, l);
      var env1 := env[ps[0].def := args[0]];
      ParamVarsOk(s, ps[0]);
      forall v | v in T.slots && !(l + 1 <= T.slots[v] < l + 1 + |args[1..]|)
        ensures Read(store, T.slots[v]) == ReadVar(env1, v)
      {
        FirstParam(T, s1, ps[1..], v, ps[0].def);
        assert Read(store, l + 0) == args[0];
      }
      forall i | 0 <= i < |args[1..]|
        ensures Read(store, |s1.body.locals| + i) == args[1..][i]
      {
        assert Read(store, l + (i + 1)) == args[i + 1];
      }
      BindAgrees(T, s1, ps[1..], args[1..], env1, store);
    }
  }

  /** A variable whose slot is not a later parameter's is `v`, with the slot `v` has now, or has another slot. */
  lemma {:induction false} FirstParam(T: Target, s: State, ps: seq<Param>, w: DefId, v: DefId)
    requires VarsOk(s) && v in s.vars && SlotsFrom(T, BindParams(s, ps)) && T.Injective()
    requires w in T.slots && !(|s.body.locals| <= T.slots[w] < |s.body.locals| + |ps|)
    ensures w == v <==> T.slots[w] == s.vars[v]
  {
    BindKeeps(T, s, ps, v);
    if T.slots[w] == s.vars[v] {
      SlotOwner(T, s, ps, w, v);
    }
  }

  /** A parameter's slot is either the one it has now or a later one. */
  lemma {:induction false} BindKeeps(T: Target, s: State, ps: seq<Param>, v: DefId)
    requires VarsOk(s) && v in s.vars && SlotsFrom(T, BindParams(s, ps))
    ensures v in T.slots && (T.slots[v] == s.vars[v] || T.slots[v] >= |s.body.locals|)
    ensures T.slots[v] < |s.body.locals| + |ps|
    ensures |BindParams(s, ps).body.locals| == |s.body.locals| + |ps|
    decreases ps
  {
    if ps != [] {
      BindKeeps(T, WriteVariable(NewLocal(s, ps[0].name, ps[0].ty), ps[0].def, |s.body.locals|), ps[1..], v);
    }
  }

  /** Nobody but `v` can own the slot that `v` has at `s`. */
  lemma {:induction false} SlotOwner(T: Target, s: State, ps: seq<Param>, w: DefId, v: DefId)
    requires VarsOk(s) && v in s.vars && SlotsFrom(T, BindParams(s, ps)) && T.Injective()
    requires w in T.slots && T.slots[w] == s.vars[v]
    ensures w == v
    decreases ps
  {
    if ps == [] {
    } else {
      var s1 := WriteVariable(NewLocal(s, ps[0].name, ps[0].ty), ps[0].def, |s.body.locals|);
      if ps[0].def == v {
        LateSlot(T, s1, ps[1..], w, s.vars[v]);
      } else {
        SlotOwner(T, s1, ps[1..], w, v);
      }
    }
  }

  /** A slot that lost its variable stays without one. */
  lemma {:induction false} LateSlot(T: Target, s: State, ps: seq<Param>, w: DefId, l: Local)
    requires VarsOk(s) && SlotsFrom(T, BindParams(s, ps)) && l < |s.body.locals|
    requires w in T.slots && T.slots[w] == l
    requires forall x :: x in s.vars ==> s.vars[x] != l
    ensures false
    decreases ps
  {
    if ps != [] {
      LateSlot(T, WriteVariable(NewLocal(s, ps[0].name, ps[0].ty), ps[0].def, |s.body.locals|), ps[1..], w, l);
    }
  }

  // ---- The theorem ----

  // The finished body and the final slots of a lowered forge.
  function TargetOf(I: HirInterp, check: bool, f: Forge): Target
    requires ReturnNestAll(f.ensures_) == 0
  {
    Target(I, Contracts(check, f.ensures_), LowerForge(check, f).blocks, LowerBody(StartForge(check, f), f.body).vars)
  }

  lemma {:induction false} TargetStarts(I: HirInterp, check: bool, f: Forge)
    requires SoundForge(check, f)
    ensures var m := ForgeMode(check, f, false);
      var s := StartForge(check, f);
      var s' := LowerBody(s, f.body);
      && Go(TargetOf(I, check, f), m, s) && s.cur == 1 && s.Cur() == EMPTY_BLOCK
      && s.body.blocks[0] == BasicBlock([], Some(Goto(1))) && s.body.entry == 0
      && Grows(m, s, s', f.body.Some? && BlockExits(f.body.value)) && s'.body.blocks[0] == s.body.blocks[0]
  {
    hide ShapedBlock, SoundBlock, LowerBlock, ShapedOperands, Coherent, VarsOk, VarsGrow;
    var m := ForgeMode(check, f, false);
    ForgeModeOf(check, f, false);
    StartReady(m, f);
    GrowBody(m, f);
    hide StartForge;
  }

  lemma {:induction false} TargetLinked(I: HirInterp, check: bool, f: Forge)
    requires SoundForge(check, f)
    ensures var T := TargetOf(I, check, f);
      var m := ForgeMode(check, f, false);
      var s := StartForge(check, f);
      var s' := LowerBody(s, f.body);
      && Go(T, m, s) && Linked(T, s') && Linked(T, s) && T.Injective()
      && s.cur == 1 && s.Cur() == EMPTY_BLOCK && LowerForge(check, f).entry == 0
      && T.blocks[0] == BasicBlock([], Some(Goto(1)))
      && s'.cur < |T.blocks|
      && T.blocks[s'.cur] ==
         BasicBlock(s'.Cur().instrs, if s'.Cur().term.Some? then s'.Cur().term else Some(Return(None)))
      && (s'.Cur().term.Some? <==> f.body.Some? && BlockExits(f.body.value))
  {
    hide StartForge, LowerBody, SoundForge, BlockExits, Ready, Coherent;
    TargetStarts(I, check, f);
    var s := StartForge(check, f);
    LinkedBack(TargetOf(I, check, f), ForgeMode(check, f, false), s, LowerBody(s, f.body),
               f.body.Some? && BlockExits(f.body.value));
  }

  /** The state after the parameters have their slots, before the entry block is ended. */
  function ParamState(check: bool, f: Forge): State
    requires ReturnNestAll(f.ensures_) == 0
  {
    Lowering(MirBody([EMPTY_BLOCK, EMPTY_BLOCK], [], 0, [], |f.params|),
             0, 1, f.name, ParamDefs(f.params), map[], check, f.ensures_)
  }

  lemma {:induction false} StartAgrees(I: HirInterp, check: bool, f: Forge, args: seq<Value>, garbage: Env,
      store: Store)
    requires SoundForge(check, f) && |f.params| == |args|
    requires Enters(TargetOf(I, check, f).slots, args, garbage, store)
    ensures Agree(TargetOf(I, check, f), BindArgs(garbage, f.params, args), store)
  {
    hide LowerForge, LowerBlock, SoundForge, Agree, Embeds, Ready, BindArgs, VarsGrow;
    var T := TargetOf(I, check, f);
    TargetLinked(I, check, f);
    var s0 := ParamState(check, f);
    assert SlotsFrom(T, BindParams(s0, f.params)) by {
      assert SlotsFrom(T, StartForge(check, f));
    }
    BindAgrees(T, s0, f.params, args, garbage, store);
  }

  /** The arguments are in the first slots, and every other slot of a variable holds what `garbage` says. */
  ghost predicate Enters(slots: map<DefId, Local>, args: seq<Value>, garbage: Env, store: Store) {
    && (forall i :: 0 <= i < |args| ==> Read(store, i) == args[i])
    && (forall v :: v in slots && slots[v] >= |args| ==> Read(store, slots[v]) == ReadVar(garbage, v))
  }

  /**
   Whatever the variables and slots hold before they are set: within enough steps, the lowered forge has
   ended as the forge ended; or, while the forge still runs, it has run at least `fuel` steps and made
   the same events.
   */
  lemma {:induction false} ForgeSimulated(I: HirInterp, check: bool, f: Forge, args: seq<Value>, garbage: Env,
      store: Store, fuel: nat)
    returns (k: nat)
    requires SoundForge(check, f) && |f.params| == |args|
    requires Enters(TargetOf(I, check, f).slots, args, garbage, store)
    ensures var body := LowerForge(check, f);
      var r := RunForge(I, check, f, args, garbage, fuel);
      var c := Steps(I.mir, body.blocks, Start(body.entry, store), k);
      && TraceOf(c) == r.trace
      && (if r.out.OutOfFuel? then c.Running? && k >= fuel
          else c.Halted? && c.result.status == StatusOf(r.out) && StatusOf(r.out) != StillRunning)
  {
    hide BlocksGrow, VarsGrow, VarsOk, Coherent, SameSetup, Embeds, SlotsFrom, Stable, Agree, Ready, Steps, LowerBlock,
      StartForge, ShapedOperands, ShapedBlock, SoundBlock;
    var T := TargetOf(I, check, f);
    var m := ForgeMode(check, f, false);
    var s := StartForge(check, f);
    var s' := LowerBody(s, f.body);
    TargetLinked(I, check, f);
    StartAgrees(I, check, f, args, garbage, store);
    var c0 := Start(0, store);
    ExecEnd(T, T.blocks[0], c0);
    var c1 := After(T, c0, 1);
    var env := BindArgs(garbage, f.params, args);
    var r: Result;
    match f.body {
      case None =>
        k, r := 0, Result(Normal(UNIT), env, []);
        NothingYet(T, m, s, c1, env, [], fuel);
      case Some(b) =>
        r := EvalBlock(T.I, T.C, b, env, [], fuel);
        k := SimBlock(T, m, s, b, false, c1, env, [], fuel);
    }
    Chain(T, c0, 1, k);
    k := 1 + k;
    var c2 := After(T, c0, k);
    if r.out.Normal? || (r.out.Gave? && AtEnd(s', c2)) {
      ExecEnd(T, T.blocks[s'.cur], c2);
      Chain(T, c0, k, 1);
      k := k + 1;
    }
  }

  lemma {:induction false} ArgStoreEnters(slots: map<DefId, Local>, args: seq<Value>)
    ensures Enters(slots, args, map[], ArgStore(args))
  {
  }

  /** Two ends of the same run are the same end. */
  lemma {:induction false} HaltsOnce(I: Interp, blocks: seq<BasicBlock>, c: Config, m: nat, n: nat)
    requires m <= n && Steps(I, blocks, c, m).Halted?
    ensures Steps(I, blocks, c, n) == Steps(I, blocks, c, m)
  {
    StepsAdd(I, blocks, c, m, n - m);
    StepsHalted(I, blocks, Steps(I, blocks, c, m), n - m);
  }

  /** A run of lowered code ends in one way. */
  lemma {:induction false} OneEnd(I: Interp, body: MirBody, store: Store, s1: Status, t1: seq<Event>, s2: Status,
      t2: seq<Event>)
    requires MirEnds(I, body, store, s1, t1) && MirEnds(I, body, store, s2, t2)
    ensures s1 == s2 && t1 == t2
  {
    hide Steps;
    var m: nat :| MirEndsBy(I, body, store, s1, t1, m);
    var n: nat :| MirEndsBy(I, body, store, s2, t2, n);
    if m <= n {
      HaltsOnce(I, body.blocks, Start(body.entry, store), m, n);
    } else {
      HaltsOnce(I, body.blocks, Start(body.entry, store), n, m);
    }
  }

  /**
   Lowering preserves meaning: a forge and its MIR end in the same ways -- the same value returned or the
   same contract violated, after the same calls with the same arguments and the same branch decisions --
   and so one runs for ever if and only if the other does.
   */
  lemma {:induction false} LoweringPreservesMeaning(I: HirInterp, check: bool, f: Forge, args: seq<Value>,
      status: Status, tr: seq<Event>)
    requires SoundForge(check, f) && |f.params| == |args|
    ensures HirEnds(I, check, f, args, status, tr) <==> MirEnds(I.mir, LowerForge(check, f), ArgStore(args), status, tr)
  {
    hide LowerForge, RunForge, Steps;
    var body := LowerForge(check, f);
    var c0 := Start(body.entry, ArgStore(args));
    ArgStoreEnters(TargetOf(I, check, f).slots, args);
    if HirEnds(I, check, f, args, status, tr) {
      var fuel: nat :| HirEndsBy(I, check, f, args, status, tr, fuel);
      var k := ForgeSimulated(I, check, f, args, map[], ArgStore(args), fuel);
      assert MirEndsBy(I.mir, body, ArgStore(args), status, tr, k);
    }
    if MirEnds(I.mir, body, ArgStore(args), status, tr) {
      var n: nat :| MirEndsBy(I.mir, body, ArgStore(args), status, tr, n);
      var k := ForgeSimulated(I, check, f, args, map[], ArgStore(args), n + 1);
      if k >= n {
        HaltsOnce(I.mir, body.blocks, c0, n, k);
      } else {
        HaltsOnce(I.mir, body.blocks, c0, k, n);
      }
      assert HirEndsBy(I, check, f, args, status, tr, n + 1);
    }
  }

  /** After `n` steps or more, exactly the events `tr` have been made. */
  ghost predicate MirMakes(I: Interp, body: MirBody, store: Store, tr: seq<Event>, n: nat) {
    exists k: nat :: k >= n && TraceOf(Steps(I, body.blocks, Start(body.entry, store), k)) == tr
  }

  /**
   A run that never ends makes the same events: every prefix of events the forge makes, its MIR makes too, arbitrarily
   late.
   */
  lemma {:induction false} LoweringPreservesDivergence(I: HirInterp, check: bool, f: Forge, args: seq<Value>)
    requires SoundForge(check, f) && |f.params| == |args|
    requires forall fuel: nat :: RunForge(I, check, f, args, map[], fuel).out.OutOfFuel?
    ensures var body := LowerForge(check, f);
      && (forall n: nat :: Steps(I.mir, body.blocks, Start(body.entry, ArgStore(args)), n).Running?)
      && (forall fuel: nat ::
            MirMakes(I.mir, body, ArgStore(args), RunForge(I, check, f, args, map[], fuel).trace, fuel))
  {
    var body := LowerForge(check, f);
    var c0 := Start(body.entry, ArgStore(args));
    ArgStoreEnters(TargetOf(I, check, f).slots, args);
    forall n: nat
      ensures Steps(I.mir, body.blocks, c0, n).Running?
    {
      var k := ForgeSimulated(I, check, f, args, map[], ArgStore(args), n);
      if !Steps(I.mir, body.blocks, c0, n).Running? {
        HaltsOnce(I.mir, body.blocks, c0, n, k);
      }
    }
    forall fuel: nat
      ensures MirMakes(I.mir, body, ArgStore(args), RunForge(I, check, f, args, map[], fuel).trace, fuel)
    {
      var k := ForgeSimulated(I, check, f, args, map[], ArgStore(args), fuel);
      assert k >= fuel && TraceOf(Steps(I.mir, body.blocks, c0, k)) == RunForge(I, check, f, args, map[], fuel).trace;
    }
  }
}
