/** Lowering followed by dead code elimination. */
module Pipeline {
  import opened Common
  import opened Mir
  import opened MirSemantics
  import opened Hir
  import opened HirSemantics
  import opened LowerSpec
  import opened Fragment
  import opened LowerShape
  import opened LowerTheorem
  import opened Dce
  import opened DceCorrect

  /** What lowering establishes is what elimination needs: for every shaped forge, self tail calls included. */
  lemma {:induction false} LoweredEdgesCover(m: Mode, f: Forge)
    requires ShapedForge(m, f) && ModeOf(m, f)
    ensures var body := LowerForge(m.check, f);
      EdgesCover(body) && Graph(|body.blocks|, body.edges, body.entry)
  {
    var body := LowerForge(m.check, f);
    ForgeCoherent(m, f);
    forall b | 0 <= b < |body.blocks|
      ensures Targets(body.blocks[b].term) <= Successors(body.edges, b)
    {
      assert CoherentAt(body, b);
    }
    forall e | e in body.edges
      ensures e.src < |body.blocks| && e.dst < |body.blocks|
    {
      assert CoherentAt(body, e.src) && e.dst in Successors(body.edges, e.src);
    }
  }

  lemma {:induction false} EndsIsShows(I: Interp, body: MirBody, store: Store, status: Status, tr: seq<Event>)
    requires status != StillRunning
    ensures MirEnds(I, body, store, status, tr) <==> exists ms :: Shows(I, body, store, Observation(status, tr, ms))
  {
    if MirEnds(I, body, store, status, tr) {
      var n: nat :| MirEndsBy(I, body, store, status, tr, n);
      var c := Steps(I, body.blocks, Start(body.entry, store), n);
      assert Observe(c) == Observation(status, tr, c.result.marks);
      assert Shows(I, body, store, Observation(status, tr, c.result.marks));
    }
    if exists ms :: Shows(I, body, store, Observation(status, tr, ms)) {
      var ms :| Shows(I, body, store, Observation(status, tr, ms));
      var n: nat :| Observe(Steps(I, body.blocks, Start(body.entry, store), n)) == Observation(status, tr, ms);
      assert MirEndsBy(I, body, store, status, tr, n);
    }
  }

  /** The optimized MIR of a forge ends exactly as the forge does, after the same calls and branches. */
  lemma {:induction false} OptimizedLoweringPreservesMeaning(I: HirInterp, check: bool, f: Forge, args: seq<Value>,
      status: Status, tr: seq<Event>)
    requires SoundForge(check, f) && |f.params| == |args| && status != StillRunning
    ensures HirEnds(I, check, f, args, status, tr) <==>
            MirEnds(I.mir, Eliminate(LowerForge(check, f)), ArgStore(args), status, tr)
  {
    var body := LowerForge(check, f);
    LoweringPreservesMeaning(I, check, f, args, status, tr);
    ForgeModeOf(check, f, false);
    LoweredEdgesCover(ForgeMode(check, f, false), f);
    EliminationPreserves(I.mir, body);
    EndsIsShows(I.mir, body, ArgStore(args), status, tr);
    EndsIsShows(I.mir, Eliminate(body), ArgStore(args), status, tr);
  }

  // Two blocks and a jump, but no edge.
  const NO_EDGES := MirBody(
    [BasicBlock([], Some(Goto(1))), BasicBlock([], Some(Return(Some(Const(IntConst(7))))))], [], 0, [], 0)

  /** Without covering edges the wipe can change a program: here it empties the block that returns 7. */
  lemma {:induction false} WipeNeedsEdges(I: Interp)
    ensures var body := NO_EDGES;
      && !EdgesCover(body)
      && MirEnds(I, body, map[], DidReturn(Some(IntVal(7))), [])
      && MirEnds(I, Eliminate(body), map[], DidGetStuck, [])
  {
    var body := NO_EDGES;
    PathTo(body.edges, 0);
    assert 1 in Targets(body.blocks[0].term) && 1 !in Successors(body.edges, 0);
    assert SweepInstrs(UsedLocals(body.blocks), []) == [];
    assert SweepRound(body.blocks) == body.blocks;
    forall path | EdgePath(body.edges, path) && path[0] == 0
      ensures path[|path| - 1] in {0}
    {
      PathStays(body.edges, path, {0});
    }
    assert !Reaches(body.edges, 0, 1);
    var after := Eliminate(body);
    assert after.blocks == [body.blocks[0], EMPTY_BLOCK];
    var c := Start(0, map[]);
    assert Steps(I, body.blocks, c, 2) == Steps(I, body.blocks, Step(I, body.blocks, c), 1);
    assert MirEndsBy(I, body, map[], DidReturn(Some(IntVal(7))), [], 2);
    assert Steps(I, after.blocks, c, 2) == Steps(I, after.blocks, Step(I, after.blocks, c), 1);
    assert MirEndsBy(I, after, map[], DidGetStuck, [], 2);
  }
}
