/**
 The zones open along paths and runs of lowered code: every exit closes the innermost zone; all paths to a
 block agree, and a run that returns has left every zone, exactly as long as no trapped return is taken.
 */
module ZonePaths {
  import opened Common
  import opened Mir
  import opened MirSemantics
  import opened Hir
  import opened LowerSpec
  import opened LowerShape
  import opened LowerEarly
  import opened LowerZones

  // ---- Paths ----

  ghost predicate IsPath(blocks: seq<BasicBlock>, path: seq<BlockId>) {
    && path != [] && path[0] == 0
    && (forall i :: 0 <= i < |path| ==> path[i] < |blocks|)
    && (forall i :: 0 <= i < |path| - 1 ==> path[i + 1] in Targets(blocks[path[i]].term))
  }

  /** The zones open on entry to the last block of a path, or `None` if an exit on the way closed the wrong one. */
  function ZonesAlong(blocks: seq<BasicBlock>, path: seq<BlockId>): Option<Zones>
    requires path != [] && forall i :: 0 <= i < |path| ==> path[i] < |blocks|
  {
    if |path| == 1 then Some([])
    else
      match ZonesAlong(blocks, path[..|path| - 1])
      case None => None
      case Some(z) => ZonesAfter(blocks[path[|path| - 2]].instrs, z)
  }

  /** On the way to its last block the path leaves one of `jumps`. */
  predicate Leaves(path: seq<BlockId>, jumps: set<BlockId>) {
    exists i :: 0 <= i < |path| - 1 && path[i] in jumps
  }

  /** Zones open further out do not matter to code that runs well without them. */
  lemma {:induction false} ZonesUnder(instrs: seq<Instruction>, under: Zones, z: Zones)
    requires ZonesAfter(instrs, z).Some?
    ensures ZonesAfter(instrs, under + z) == Some(under + ZonesAfter(instrs, z).value)
  {
    if instrs != [] {
      var front := instrs[..|instrs| - 1];
      ZonesUnder(front, under, z);
      StepUnder(instrs[|instrs| - 1], under, ZonesAfter(front, z).value);
    }
  }

  lemma {:induction false} StepUnder(ins: Instruction, under: Zones, z: Zones)
    requires ZoneStep(ins, z).Some?
    ensures ZoneStep(ins, under + z) == Some(under + ZoneStep(ins, z).value)
  {
    match ins
    case ZoneEnter(name) => assert under + z + [name] == under + (z + [name]);
    case ZoneExit(name) =>
      var y := under + z;
      assert y[|y| - 1] == z[|z| - 1] && y[..|y| - 1] == under + z[..|z| - 1];
    case _ =>
  }

  /** `under`: zones that trapped jumps back to the header left open. */
  lemma {:induction false} PathZones(blocks: seq<BasicBlock>, at: seq<Zones>, o: Outs, path: seq<BlockId>)
    returns (under: Zones)
    requires Zoned(blocks, at, 1, o) && at[0] == [] && IsPath(blocks, path)
    ensures ZonesAlong(blocks, path) == Some(under + at[Last(path)])
    ensures under == [] <==> !Leaves(path, o.jumps)
    decreases path
  {
    under := [];
    if |path| == 1 {
      assert under + at[0] == [];
    } else {
      var p := path[..|path| - 1];
      var b := Last(p);
      under := PathZones(blocks, at, o, p);
      assert ZonedAt(blocks, at, 1, o, b);
      ZonesUnder(blocks[b].instrs, under, at[b]);
      assert path[|path| - 2 + 1] in Targets(blocks[b].term);
      LeavesMore(path, o.jumps);
      var z := ZonesAfter(blocks[b].instrs, at[b]).value;
      assert at[Last(path)] == if b in o.jumps then [] else z;
      if b in o.jumps {
        under := under + z;
        assert under + [] == under;
      }
    }
  }

  lemma {:induction false} LeavesMore(path: seq<BlockId>, jumps: set<BlockId>)
    requires |path| > 1
    ensures var p := path[..|path| - 1]; Leaves(path, jumps) <==> Leaves(p, jumps) || Last(p) in jumps
  {
    var p := path[..|path| - 1];
    if Leaves(p, jumps) {
      var i :| 0 <= i < |p| - 1 && p[i] in jumps;
      assert path[i] in jumps;
    }
    if Last(p) in jumps {
      assert path[|path| - 2] in jumps;
    }
    if Leaves(path, jumps) {
      var i :| 0 <= i < |path| - 1 && path[i] in jumps;
      assert p[i] in jumps;
    }
  }

  /** Along every path of every lowered forge with nothing behind a return, exits close the innermost zone. */
  lemma PathsBracketZones(check: bool, f: Forge, path: seq<BlockId>)
    requires ShapedForge(ForgeMode(check, f, true), f) && IsPath(LowerForge(check, f).blocks, path)
    ensures var blocks := LowerForge(check, f).blocks;
      && ZonesAlong(blocks, path).Some?
      && ZonesAfter(blocks[Last(path)].instrs, ZonesAlong(blocks, path).value).Some?
  {
    hide LowerForge;
    var blocks := LowerForge(check, f).blocks;
    var at := ForgeZoned(check, f);
    var under := PathZones(blocks, at, OutsForge(check, f), path);
    assert ZonedAt(blocks, at, 1, OutsForge(check, f), Last(path));
    ZonesUnder(blocks[Last(path)].instrs, under, at[Last(path)]);
  }

  ghost predicate AllPathsAgree(blocks: seq<BasicBlock>) {
    forall p, q :: IsPath(blocks, p) && IsPath(blocks, q) && Last(p) == Last(q) ==>
        ZonesAlong(blocks, p) == ZonesAlong(blocks, q)
  }

  /** Some path ends in a block that goes back to the header from under a given or while inside a zone. */
  ghost predicate ReachesJump(blocks: seq<BasicBlock>, jumps: set<BlockId>) {
    exists p :: IsPath(blocks, p) && Last(p) in jumps
  }

  lemma {:induction false} EntryBlock(check: bool, f: Forge)
    requires ShapedForge(ForgeMode(check, f, true), f)
    ensures var blocks := LowerForge(check, f).blocks;
      |blocks| >= 2 && blocks[0] == BasicBlock([], Some(Goto(1)))
  {
    var m := ForgeMode(check, f, true);
    ForgeModeOf(check, f, true);
    StartReady(m, f);
    GrowBody(m, f);
    var s := StartForge(check, f);
    assert LowerBody(s, f.body).body.blocks[0] == s.body.blocks[0];
  }

  /**
   The zones open on entry to a block do not depend on the path to it if and only if no trapped self tail call can be
   reached.
   */
  lemma {:induction false} ZonesAgreeIff(check: bool, f: Forge)
    requires ShapedForge(ForgeMode(check, f, true), f)
    ensures var blocks := LowerForge(check, f).blocks;
      AllPathsAgree(blocks) <==> !ReachesJump(blocks, OutsForge(check, f).jumps)
  {
    hide LowerForge, OutsForge;
    var blocks := LowerForge(check, f).blocks;
    var o := OutsForge(check, f);
    var at := ForgeZoned(check, f);
    if ReachesJump(blocks, o.jumps) {
      var p :| IsPath(blocks, p) && Last(p) in o.jumps;
      EntryBlock(check, f);
      JumpDisagrees(blocks, at, o, p);
    } else {
      forall p, q | IsPath(blocks, p) && IsPath(blocks, q) && Last(p) == Last(q)
        ensures ZonesAlong(blocks, p) == ZonesAlong(blocks, q)
      {
        assert !Leaves(p, o.jumps) by { if Leaves(p, o.jumps) { LeavesReaches(blocks, o.jumps, p); } }
        assert !Leaves(q, o.jumps) by { if Leaves(q, o.jumps) { LeavesReaches(blocks, o.jumps, q); } }
        var u := PathZones(blocks, at, o, p);
        var v := PathZones(blocks, at, o, q);
      }
    }
  }

  lemma {:induction false} LeavesReaches(blocks: seq<BasicBlock>, jumps: set<BlockId>, p: seq<BlockId>)
    requires IsPath(blocks, p) && Leaves(p, jumps)
    ensures ReachesJump(blocks, jumps)
  {
    var i :| 0 <= i < |p| - 1 && p[i] in jumps;
    assert IsPath(blocks, p[..i + 1]) && Last(p[..i + 1]) in jumps;
  }

  // Once by the trapped jump and once straight from the entry.
  lemma {:induction false} JumpDisagrees(blocks: seq<BasicBlock>, at: seq<Zones>, o: Outs, p: seq<BlockId>)
    requires Zoned(blocks, at, 1, o) && at[0] == [] && IsPath(blocks, p) && Last(p) in o.jumps
    requires |blocks| >= 2 && blocks[0] == BasicBlock([], Some(Goto(1)))
    ensures !AllPathsAgree(blocks)
  {
    var back, direct := p + [1], [0, 1];
    assert ZonedAt(blocks, at, 1, o, Last(p));
    assert IsPath(blocks, back) by {
      forall i | 0 <= i < |back| - 1
        ensures back[i + 1] in Targets(blocks[back[i]].term)
      {
        if i < |p| - 1 {
          assert p[i + 1] in Targets(blocks[p[i]].term);
        }
      }
    }
    assert IsPath(blocks, direct);
    var u := PathZones(blocks, at, o, back);
    var v := PathZones(blocks, at, o, direct);
    assert Leaves(back, o.jumps) by { assert back[|p| - 1] in o.jumps; }
    assert ZonedAt(blocks, at, 1, o, 0);
    assert !Leaves(direct, o.jumps);
    assert Last(back) == Last(direct) && ZonesAlong(blocks, back) != ZonesAlong(blocks, direct);
  }

  /**
   With no self tail call under a given or while inside a zone, the zones open on entry to a block do not
   depend on the path taken to it.
   */
  lemma ZonesAgreeOnAllPaths(check: bool, f: Forge, p: seq<BlockId>, q: seq<BlockId>)
    requires ShapedForge(ForgeMode(check, f, true), f) && ClearForge(Avoid(true, false), ForgeMode(check, f, true), f)
    requires var blocks := LowerForge(check, f).blocks;
      IsPath(blocks, p) && IsPath(blocks, q) && Last(p) == Last(q)
    ensures var blocks := LowerForge(check, f).blocks;
      ZonesAlong(blocks, p).Some? && ZonesAlong(blocks, p) == ZonesAlong(blocks, q)
  {
    hide LowerForge, OutsForge, ClearForge, AllPathsAgree;
    ClearForgeOuts(Avoid(true, false), ForgeMode(check, f, true), f);
    ZonesAgreeIff(check, f);
    PathsBracketZones(check, f, p);
    assert AllPathsAgree(LowerForge(check, f).blocks);
    AgreeAt(LowerForge(check, f).blocks, p, q);
  }

  lemma {:induction false} AgreeAt(blocks: seq<BasicBlock>, p: seq<BlockId>, q: seq<BlockId>)
    requires AllPathsAgree(blocks) && IsPath(blocks, p) && IsPath(blocks, q) && Last(p) == Last(q)
    ensures ZonesAlong(blocks, p) == ZonesAlong(blocks, q)
  {
  }

  // ---- Runs ----

  /** The zones that a run's markers leave open, or `None` if a zone was left that was not the innermost. */
  function ZonesOf(marks: seq<Mark>): Option<Zones> {
    if marks == [] then Some([])
    else
      match ZonesOf(marks[..|marks| - 1])
      case None => None
      case Some(z) =>
        match marks[|marks| - 1]
        case Entered(name) => Some(z + [name])
        case Left(name) => if z != [] && z[|z| - 1] == name then Some(z[..|z| - 1]) else None
        case _ => Some(z)
  }

  lemma {:induction false} PrefixZones(instrs: seq<Instruction>, k: nat, z: Zones)
    requires k <= |instrs| && ZonesAfter(instrs, z).Some?
    ensures ZonesAfter(instrs[..k], z).Some?
    decreases |instrs|
  {
    if k < |instrs| {
      var p := instrs[..|instrs| - 1];
      PrefixZones(p, k, z);
      assert p[..k] == instrs[..k];
    } else {
      assert instrs[..k] == instrs;
    }
  }

  /** The stack a block has built up at `pc`. */
  function Here(blocks: seq<BasicBlock>, at: seq<Zones>, f: Frame): Option<Zones>
    requires |at| == |blocks| && f.blk < |blocks| && f.pc <= |blocks[f.blk].instrs|
  {
    ZonesAfter(blocks[f.blk].instrs[..f.pc], at[f.blk])
  }

  ghost predicate RunZoned(blocks: seq<BasicBlock>, at: seq<Zones>, c: Config, under: Zones)
    requires |at| == |blocks|
  {
    match c
    case Halted(o) => ZonesOf(o.marks).Some?
    case Running(f) =>
      && f.blk < |blocks| && f.pc <= |blocks[f.blk].instrs|
      && Here(blocks, at, f).Some? && ZonesOf(f.marks) == Some(under + Here(blocks, at, f).value)
  }

  /** The run is about to go back to the header by a trapped self tail call. */
  predicate JumpsOut(blocks: seq<BasicBlock>, o: Outs, c: Config) {
    c.Running? && c.frame.blk in o.jumps && c.frame.blk < |blocks| && c.frame.pc >= |blocks[c.frame.blk].instrs|
  }

  /** An instruction's markers do to the run's stack what the instruction does to the path's. */
  lemma {:induction false} InstrZones(I: Interp, ins: Instruction, f: Frame, z: Zones)
    requires ZonesOf(f.marks) == Some(z) && ZoneStep(ins, z).Some?
    ensures match ExecInstr(I, ins, f)
      case Running(g) => g.blk == f.blk && g.pc == f.pc + 1 && ZonesOf(g.marks) == ZoneStep(ins, z)
      case Halted(o) => ZonesOf(o.marks).Some? && !o.status.DidReturn?
  {
    hide ZonesOf;
    match ins
    case StorageLive(l) => MarkZones(f.marks, Live(l));
    case StorageDead(l) => MarkZones(f.marks, Dead(l));
    case Assert(_, msg) => MarkZones(f.marks, Checked(msg));
    case ZoneEnter(n) => MarkZones(f.marks, Entered(n));
    case ZoneExit(n) => MarkZones(f.marks, Left(n));
    case _ =>
  }

  lemma {:induction false} MarkZones(marks: seq<Mark>, mark: Mark)
    requires ZonesOf(marks).Some?
    ensures ZonesOf(marks + [mark]) ==
            (var z := ZonesOf(marks).value;
             match mark
             case Entered(name) => Some(z + [name])
             case Left(name) => if z != [] && z[|z| - 1] == name then Some(z[..|z| - 1]) else None
             case _ => Some(z))
  {
    assert (marks + [mark])[..|marks|] == marks;
  }

  lemma {:induction false} InstrStep(I: Interp, blocks: seq<BasicBlock>, at: seq<Zones>, o: Outs, c: Config,
      under: Zones)
    requires Zoned(blocks, at, 1, o) && RunZoned(blocks, at, c, under)
    requires c.Running? && c.frame.pc < |blocks[c.frame.blk].instrs|
    ensures RunZoned(blocks, at, Step(I, blocks, c), under)
  {
    hide ExecInstr, ZonesOf, ZoneStep;
    var f := c.frame;
    assert ZonedAt(blocks, at, 1, o, f.blk);
    var instrs := blocks[f.blk].instrs;
    var next := instrs[..f.pc + 1];
    assert next[..f.pc] == instrs[..f.pc];
    PrefixZones(instrs, f.pc + 1, at[f.blk]);
    StepUnder(instrs[f.pc], under, Here(blocks, at, f).value);
    InstrZones(I, instrs[f.pc], f, under + Here(blocks, at, f).value);
  }

  /** Leaving a block, by a trapped jump, the zones open there stay open below. */
  lemma {:induction false} TermStep(I: Interp, blocks: seq<BasicBlock>, at: seq<Zones>, o: Outs, c: Config,
      under: Zones)
    returns (under': Zones)
    requires Zoned(blocks, at, 1, o) && RunZoned(blocks, at, c, under)
    requires c.Running? && c.frame.pc == |blocks[c.frame.blk].instrs|
    ensures RunZoned(blocks, at, Step(I, blocks, c), under')
    ensures under' == [] <==> under == [] && !JumpsOut(blocks, o, c)
  {
    hide ExecTerm, ZonesOf;
    var f := c.frame;
    assert ZonedAt(blocks, at, 1, o, f.blk);
    assert blocks[f.blk].instrs[..f.pc] == blocks[f.blk].instrs;
    var z := Here(blocks, at, f).value;
    JumpTarget(blocks[f.blk].term, I, f);
    under' := if f.blk in o.jumps then under + z else under;
    var d := Step(I, blocks, c);
    if d.Running? {
      assert blocks[d.frame.blk].instrs[..0] == [];
      assert under + z + [] == under + z;
    }
  }

  /** None of the first `k` steps goes back to the header by a trapped self tail call. */
  ghost predicate NoJumpOut(I: Interp, blocks: seq<BasicBlock>, o: Outs, c: Config, k: nat) {
    forall j: nat :: j < k ==> !JumpsOut(blocks, o, Steps(I, blocks, c, j))
  }

  lemma {:induction false} StepsZoned(I: Interp, blocks: seq<BasicBlock>, at: seq<Zones>, o: Outs, c: Config,
      under: Zones, n: nat)
    returns (under': Zones)
    requires Zoned(blocks, at, 1, o) && RunZoned(blocks, at, c, under)
    ensures RunZoned(blocks, at, Steps(I, blocks, c, n), under')
    ensures under' == [] <==> under == [] && NoJumpOut(I, blocks, o, c, n)
    decreases n
  {
    hide RunZoned, Zoned, Step, JumpsOut;
    under' := under;
    if n > 0 {
      under' := StepsZoned(I, blocks, at, o, c, under, n - 1);
      var d := Steps(I, blocks, c, n - 1);
      under' := NextZoned(I, blocks, at, o, d, under');
      StepsAdd(I, blocks, c, n - 1, 1);
      assert Steps(I, blocks, d, 1) == Steps(I, blocks, Step(I, blocks, d), 0);
    }
  }

  lemma {:induction false} NextZoned(I: Interp, blocks: seq<BasicBlock>, at: seq<Zones>, o: Outs, c: Config,
      under: Zones)
    returns (under': Zones)
    requires Zoned(blocks, at, 1, o) && RunZoned(blocks, at, c, under)
    ensures RunZoned(blocks, at, Step(I, blocks, c), under')
    ensures under' == [] <==> under == [] && !JumpsOut(blocks, o, c)
  {
    under' := under;
    if c.Running? {
      if c.frame.pc < |blocks[c.frame.blk].instrs| {
        InstrStep(I, blocks, at, o, c, under);
      } else {
        under' := TermStep(I, blocks, at, o, c, under);
      }
    }
  }

  lemma {:induction false} StartZoned(blocks: seq<BasicBlock>, at: seq<Zones>, store: Store)
    requires |at| == |blocks| > 0 && at[0] == []
    ensures RunZoned(blocks, at, Start(0, store), [])
  {
    var none: Zones := [];
    assert none + none == none && blocks[0].instrs[..0] == [];
  }

  /** At every moment of every run of a lowered forge, the zone markers so far are well bracketed. */
  lemma RunsBracketZones(I: Interp, check: bool, f: Forge, store: Store, n: nat)
    requires ShapedForge(ForgeMode(check, f, true), f)
    ensures var body := LowerForge(check, f);
      ZonesOf(Observe(Steps(I, body.blocks, Start(body.entry, store), n)).marks).Some?
  {
    hide LowerForge, OutsForge, Steps;
    var body := LowerForge(check, f);
    var at := ForgeZoned(check, f);
    EntryBlock(check, f);
    StartZoned(body.blocks, at, store);
    var under := StepsZoned(I, body.blocks, at, OutsForge(check, f), Start(0, store), [], n);
  }

  // ---- Zones open at a return ----

  predicate AtReturn(blocks: seq<BasicBlock>, c: Config) {
    && c.Running? && c.frame.blk < |blocks| && c.frame.pc >= |blocks[c.frame.blk].instrs|
    && IsReturn(blocks[c.frame.blk].term)
  }

  function MarksOf(c: Config): seq<Mark> {
    Observe(c).marks
  }

  lemma {:induction false} OnlyReturns(I: Interp, blocks: seq<BasicBlock>, c: Config)
    requires c.Running? && Step(I, blocks, c).Halted? && Step(I, blocks, c).result.status.DidReturn?
    ensures AtReturn(blocks, c) && MarksOf(Step(I, blocks, c)) == MarksOf(c)
  {
  }

  /** A run that has returned did so from one configuration. */
  lemma {:induction false} ReturnedFrom(I: Interp, blocks: seq<BasicBlock>, c: Config, n: nat)
    returns (k: nat)
    requires c.Running? && Steps(I, blocks, c, n).Halted? && Steps(I, blocks, c, n).result.status.DidReturn?
    ensures k < n && AtReturn(blocks, Steps(I, blocks, c, k))
    ensures MarksOf(Steps(I, blocks, c, n)) == MarksOf(Steps(I, blocks, c, k))
    decreases n
  {
    hide Step, AtReturn;
    assert n > 0;
    k := n - 1;
    var d := Steps(I, blocks, c, k);
    StepsAdd(I, blocks, c, k, 1);
    assert Steps(I, blocks, d, 1) == Steps(I, blocks, Step(I, blocks, d), 0);
    if d.Running? {
      OnlyReturns(I, blocks, d);
    } else {
      StepsHalted(I, blocks, d, 1);
      k := ReturnedFrom(I, blocks, c, k);
    }
  }

  /**
   A run that has returned, from its `k`th configuration, has left every zone it entered if and only if the
   return it took is not under a given or while inside a zone, nor was any self tail call it took.
   */
  lemma {:induction false} ReturnsLeaveZonesIff(I: Interp, check: bool, f: Forge, store: Store, n: nat)
    returns (k: nat)
    requires ShapedForge(ForgeMode(check, f, true), f)
    requires var body := LowerForge(check, f);
      var c := Steps(I, body.blocks, Start(body.entry, store), n);
      c.Halted? && c.result.status.DidReturn?
    ensures var body := LowerForge(check, f);
      var c0 := Start(body.entry, store);
      var o := OutsForge(check, f);
      var c := Steps(I, body.blocks, c0, k);
      && k < n && AtReturn(body.blocks, c)
      && (ZonesOf(MarksOf(Steps(I, body.blocks, c0, n))) == Some([])
          <==> c.frame.blk !in o.leaves && NoJumpOut(I, body.blocks, o, c0, k))
  {
    hide LowerForge, OutsForge, Steps, ZonesOf;
    var body := LowerForge(check, f);
    var o := OutsForge(check, f);
    var at := ForgeZoned(check, f);
    EntryBlock(check, f);
    var c0 := Start(0, store);
    StartZoned(body.blocks, at, store);
    k := ReturnedFrom(I, body.blocks, c0, n);
    var under := StepsZoned(I, body.blocks, at, o, c0, [], k);
    var c := Steps(I, body.blocks, c0, k);
    var b := c.frame.blk;
    assert ZonedAt(body.blocks, at, 1, o, b);
    assert body.blocks[b].instrs[..c.frame.pc] == body.blocks[b].instrs;
    var z := Here(body.blocks, at, c.frame).value;
    assert ZonesOf(MarksOf(c)) == Some(under + z) && (b in o.leaves <==> z != []);
    assert under + z == [] <==> under == [] && z == [];
  }

  /** With no return at all under a given or while inside a zone, every run that returns has left every zone. */
  lemma ReturnsLeaveZones(I: Interp, check: bool, f: Forge, store: Store, n: nat)
    requires ShapedForge(ForgeMode(check, f, true), f) && ClearForge(Avoid(true, true), ForgeMode(check, f, true), f)
    requires var body := LowerForge(check, f);
      var c := Steps(I, body.blocks, Start(body.entry, store), n);
      c.Halted? && c.result.status.DidReturn?
    ensures var body := LowerForge(check, f);
      ZonesOf(MarksOf(Steps(I, body.blocks, Start(body.entry, store), n))) == Some([])
  {
    hide LowerForge, OutsForge, Steps, ZonesOf, ClearForge, AtReturn;
    ClearForgeOuts(Avoid(true, true), ForgeMode(check, f, true), f);
    var k := ReturnsLeaveZonesIff(I, check, f, store, n);
  }
}
