/** `LivenessAnalysis`: the iterative data-flow computation, and what it computes. */
module Liveness {
  import opened Common
  import opened Mir
  import opened Dce

  // ---- Uses and definitions of one block ----

  // What the analysis counts as reads: operands of assignments and calls only.
  function CountedUses(ins: Instruction): set<Local> {
    match ins
    case Assign(_, rv) => RvalueUses(rv)
    case Call(_, _, args) => OperandsUse(args)
    case _ => {}
  }

  function CountedDef(ins: Instruction): set<Local> {
    match ins
    case Assign(d, _) => {d}
    case Call(Some(d), _, _) => {d}
    case _ => {}
  }

  function SwitchUses(term: Option<Terminator>): set<Local> {
    match term
    case Some(SwitchInt(op, _, _)) => OperandUses(op)
    case _ => {}
  }

  function DefsOf(instrs: seq<Instruction>): set<Local> {
    if instrs == [] then {} else DefsOf(instrs[..|instrs| - 1]) + CountedDef(instrs[|instrs| - 1])
  }

  /** Reads not preceded, in the same sequence, by a definition. */
  function UsesOf(instrs: seq<Instruction>): set<Local> {
    if instrs == [] then {}
    else
      var p := instrs[..|instrs| - 1];
      UsesOf(p) + (CountedUses(instrs[|instrs| - 1]) - DefsOf(p))
  }

  function BlockDefs(b: BasicBlock): set<Local> {
    DefsOf(b.instrs)
  }

  function BlockExposed(b: BasicBlock): set<Local> {
    UsesOf(b.instrs) + (SwitchUses(b.term) - DefsOf(b.instrs))
  }

  /** Read at instruction `i` of the block (or at its switch, `i == |instrs|`) with no definition before. */
  ghost predicate ExposedAt(b: BasicBlock, l: Local, i: nat)
    requires i <= |b.instrs|
  {
    && (if i < |b.instrs| then l in CountedUses(b.instrs[i]) else l in SwitchUses(b.term))
    && forall j :: 0 <= j < i ==> l !in CountedDef(b.instrs[j])
  }

  lemma {:induction false} DefsMembers(instrs: seq<Instruction>, l: Local)
    ensures l in DefsOf(instrs) <==> exists j :: 0 <= j < |instrs| && l in CountedDef(instrs[j])
    decreases |instrs|
  {
    if instrs != [] {
      var p := instrs[..|instrs| - 1];
      DefsMembers(p, l);
      if l in DefsOf(p) {
        var j :| 0 <= j < |p| && l in CountedDef(p[j]);
        assert l in CountedDef(instrs[j]);
      }
      if j :| 0 <= j < |instrs| && l in CountedDef(instrs[j]) {
        if j < |p| {
          assert l in CountedDef(p[j]);
        }
      }
    }
  }

  lemma {:induction false} UsesMembers(instrs: seq<Instruction>, l: Local)
    ensures l in UsesOf(instrs) <==>
            exists i :: 0 <= i < |instrs| && l in CountedUses(instrs[i]) && l !in DefsOf(instrs[..i])
    decreases |instrs|
  {
    if instrs != [] {
      var n := |instrs| - 1;
      var p := instrs[..n];
      UsesMembers(p, l);
      forall i | 0 <= i < n
        ensures p[..i] == instrs[..i] && p[i] == instrs[i]
      {
      }
      if l in UsesOf(p) {
        var i :| 0 <= i < |p| && l in CountedUses(p[i]) && l !in DefsOf(p[..i]);
        assert l in CountedUses(instrs[i]) && l !in DefsOf(instrs[..i]);
      }
      if l in CountedUses(instrs[n]) - DefsOf(p) {
        assert l in CountedUses(instrs[n]) && l !in DefsOf(instrs[..n]);
      }
      if i :| 0 <= i < |instrs| && l in CountedUses(instrs[i]) && l !in DefsOf(instrs[..i]) {
        if i < n {
          assert l in CountedUses(p[i]) && l !in DefsOf(p[..i]);
        }
      }
    }
  }

  /** The computed set is the upward-exposed uses. */
  lemma ExposedIff(b: BasicBlock, l: Local)
    ensures l in BlockExposed(b) <==> exists i :: 0 <= i <= |b.instrs| && ExposedAt(b, l, i)
  {
    UsesMembers(b.instrs, l);
    DefsMembers(b.instrs, l);
    if l in UsesOf(b.instrs) {
      var i :| 0 <= i < |b.instrs| && l in CountedUses(b.instrs[i]) && l !in DefsOf(b.instrs[..i]);
      DefsMembers(b.instrs[..i], l);
      forall j | 0 <= j < i
        ensures l !in CountedDef(b.instrs[j])
      {
        assert b.instrs[..i][j] == b.instrs[j];
      }
      assert ExposedAt(b, l, i);
    } else if l in BlockExposed(b) {
      assert ExposedAt(b, l, |b.instrs|);
    }
    if i :| 0 <= i <= |b.instrs| && ExposedAt(b, l, i) {
      DefsMembers(b.instrs[..i], l);
      assert b.instrs[..|b.instrs|] == b.instrs;
    }
  }

  method GetBlockUsesDefs(b: BasicBlock) returns (uses: set<Local>, defs: set<Local>)
    ensures uses == BlockExposed(b) && defs == BlockDefs(b)
  {
    uses, defs := {}, {};
    var i := 0;
    while i < |b.instrs|
      invariant i <= |b.instrs|
      invariant uses == UsesOf(b.instrs[..i]) && defs == DefsOf(b.instrs[..i])
    {
      assert b.instrs[..i + 1][..i] == b.instrs[..i];
      var ins := b.instrs[i];
      uses := uses + (CountedUses(ins) - defs);
      defs := defs + CountedDef(ins);
      i := i + 1;
    }
    assert b.instrs[..i] == b.instrs;
    uses := uses + (SwitchUses(b.term) - defs);
  }

  // ---- Liveness along paths ----

  /** `path` leads along edges from `n` to a block that reads `l` first thing, through blocks that do not define `l`. */
  ghost predicate LivePath(body: MirBody, path: seq<BlockId>, l: Local) {
    && EdgePath(body.edges, path)
    && (forall i :: 0 <= i < |path| ==> path[i] < |body.blocks|)
    && (forall i :: 0 <= i < |path| - 1 ==> l !in BlockDefs(body.blocks[path[i]]))
    && l in BlockExposed(body.blocks[path[|path| - 1]])
  }

  ghost predicate LiveIn(body: MirBody, n: BlockId, l: Local) {
    exists path :: LivePath(body, path, l) && path[0] == n
  }

  ghost predicate LiveOut(body: MirBody, n: BlockId, l: Local) {
    exists s :: s in Successors(body.edges, n) && LiveIn(body, s, l)
  }

  lemma LiveHere(body: MirBody, n: BlockId, l: Local)
    requires n < |body.blocks| && l in BlockExposed(body.blocks[n])
    ensures LiveIn(body, n, l)
  {
    assert LivePath(body, [n], l);
  }

  lemma LiveThrough(body: MirBody, n: BlockId, l: Local)
    requires n < |body.blocks| && LiveOut(body, n, l) && l !in BlockDefs(body.blocks[n])
    ensures LiveIn(body, n, l)
  {
    hide BlockExposed, BlockDefs, Successors;
    var s :| s in Successors(body.edges, n) && LiveIn(body, s, l);
    var path :| LivePath(body, path, l) && path[0] == s;
    var p := [n] + path;
    assert p[1..] == path && p[|p| - 1] == path[|path| - 1];
    forall i | 0 <= i < |p| - 1
      ensures p[i + 1] in Successors(body.edges, p[i])
    {
      assert p[i + 1] == path[i];
      if i > 0 {
        assert p[i] == path[i - 1] && path[i - 1 + 1] in Successors(body.edges, path[i - 1]);
      }
    }
    forall i | 0 <= i < |p|
      ensures p[i] < |body.blocks| && (i < |p| - 1 ==> l !in BlockDefs(body.blocks[p[i]]))
    {
      if i > 0 {
        assert p[i] == path[i - 1];
      }
    }
    assert LivePath(body, p, l) && p[0] == n;
  }

  // ---- The equations ----

  type LiveMap = map<BlockId, set<Local>>

  // What is live on entry to a successor, as far as `ins` knows.
  ghost function OutFrom(body: MirBody, ins: LiveMap, n: BlockId): set<Local> {
    set e, l | e in body.edges && e.src == n && e.dst in ins && l in ins[e.dst] :: l
  }

  function InFrom(b: BasicBlock, out: set<Local>): set<Local> {
    BlockExposed(b) + (out - BlockDefs(b))
  }

  ghost predicate SolvedAt(body: MirBody, ins: LiveMap, outs: LiveMap, n: BlockId)
    requires n < |body.blocks|
  {
    && n in ins && n in outs
    && outs[n] == OutFrom(body, ins, n)
    && ins[n] == InFrom(body.blocks[n], outs[n])
  }

  /** Both data-flow equations hold at every block. */
  ghost predicate Solution(body: MirBody, ins: LiveMap, outs: LiveMap) {
    forall n :: 0 <= n < |body.blocks| ==> SolvedAt(body, ins, outs, n)
  }

  /** Any solution contains every path-live local, so paths describe the least one. */
  lemma {:induction false} SolutionHasPaths(body: MirBody, ins: LiveMap, outs: LiveMap, path: seq<BlockId>, l: Local)
    requires Solution(body, ins, outs) && LivePath(body, path, l)
    ensures path[0] in ins && l in ins[path[0]]
    decreases path
  {
    assert SolvedAt(body, ins, outs, path[0]);
    if |path| > 1 {
      var rest := path[1..];
      forall i | 0 <= i < |rest| - 1
        ensures rest[i + 1] in Successors(body.edges, rest[i]) && l !in BlockDefs(body.blocks[rest[i]])
      {
        assert path[i + 1 + 1] in Successors(body.edges, path[i + 1]);
      }
      SolutionHasPaths(body, ins, outs, rest, l);
      assert path[0 + 1] in Successors(body.edges, path[0]);
      var e :| e in body.edges && e.src == path[0] && e.dst == path[1];
      assert l in OutFrom(body, ins, path[0]);
    }
  }

  // ---- Progress: the sets only grow, inside a finite universe ----

  /** What holds after every single update: each entry is below its equation, and everything in it is live. */
  ghost predicate Sound(body: MirBody, ins: LiveMap, outs: LiveMap) {
    && (forall n :: n in ins ==> n < |body.blocks| && n in outs && ins[n] <= InFrom(body.blocks[n], outs[n]))
    && (forall n :: n in outs ==> n < |body.blocks| && outs[n] <= OutFrom(body, ins, n))
    && (forall n, l :: n in ins && l in ins[n] ==> LiveIn(body, n, l))
    && (forall n, l :: n in outs && l in outs[n] ==> LiveOut(body, n, l))
    && Bounded(UsedLocals(body.blocks), ins)
    && Bounded(UsedLocals(body.blocks), outs)
  }

  // How much one entry can still grow; an absent entry counts one more.
  ghost function Room(u: set<Local>, m: LiveMap, n: BlockId): int {
    if n in m then |u| - |m[n]| else |u| + 1
  }

  ghost function TotalRoom(u: set<Local>, m: LiveMap, k: nat): int {
    if k == 0 then 0 else TotalRoom(u, m, k - 1) + Room(u, m, k - 1)
  }

  ghost predicate Bounded(u: set<Local>, m: LiveMap) {
    forall n :: n in m ==> m[n] <= u
  }

  lemma {:induction false} RoomNonNegative(u: set<Local>, m: LiveMap, k: nat)
    requires Bounded(u, m)
    ensures TotalRoom(u, m, k) >= 0
    decreases k
  {
    if k > 0 {
      RoomNonNegative(u, m, k - 1);
      if k - 1 in m {
        SubsetSize(m[k - 1], u);
      }
    }
  }

  lemma {:induction false} SubsetSize<T>(a: set<T>, b: set<T>)
    requires a <= b
    ensures |a| <= |b| && (a != b ==> |a| < |b|)
  {
    assert b == a + (b - a);
    if a != b {
      var x :| x in b - a;
      assert |b - a| >= 1;
    }
  }

  /** Replacing an entry by a different, larger one leaves less room. */
  lemma {:induction false} RoomShrinks(u: set<Local>, m: LiveMap, n: BlockId, v: set<Local>, k: nat)
    requires Bounded(u, m) && v <= u && (n in m ==> m[n] < v)
    ensures TotalRoom(u, m[n := v], k) ==
                TotalRoom(u, m, k) - (if n < k then Room(u, m, n) - Room(u, m[n := v], n) else 0)
    ensures Room(u, m[n := v], n) < Room(u, m, n)
    decreases k
  {
    SubsetSize(v, u);
    if n in m {
      SubsetSize(m[n], v);
    }
    if k > 0 {
      RoomShrinks(u, m, n, v, k - 1);
    }
  }

  // ---- The computation ----

  method JoinSuccessors(body: MirBody, ins: LiveMap, n: BlockId) returns (out: set<Local>)
    ensures out == OutFrom(body, ins, n)
  {
    out := {};
    var i := 0;
    while i < |body.edges|
      invariant i <= |body.edges|
      invariant out == (set e, l | e in body.edges[..i] && e.src == n && e.dst in ins && l in ins[e.dst] :: l)
    {
      var e := body.edges[i];
      assert body.edges[..i + 1] == body.edges[..i] + [e];
      if e.src == n && e.dst in ins {
        out := out + ins[e.dst];
      }
      i := i + 1;
    }
    assert body.edges[..i] == body.edges;
  }

  lemma OutMonotone(body: MirBody, ins: LiveMap, ins': LiveMap, n: BlockId)
    requires forall b :: b in ins ==> b in ins' && ins[b] <= ins'[b]
    ensures OutFrom(body, ins, n) <= OutFrom(body, ins', n)
  {
  }

  lemma UniverseHolds(body: MirBody, n: BlockId)
    requires n < |body.blocks|
    ensures BlockExposed(body.blocks[n]) <= UsedLocals(body.blocks)
  {
    var b := body.blocks[n];
    assert b in body.blocks;
    assert BlockUses(b) <= UsedLocals(body.blocks);
    forall l | l in BlockExposed(b)
      ensures l in BlockUses(b)
    {
      ExposedIff(b, l);
      var i :| 0 <= i <= |b.instrs| && ExposedAt(b, l, i);
      if i < |b.instrs| {
        assert b.instrs[i] in b.instrs && l in InstrUses(b.instrs[i]);
      }
    }
  }

  lemma OutStep(body: MirBody, ins: LiveMap, outs: LiveMap, n: BlockId)
    requires Sound(body, ins, outs) && n < |body.blocks|
    ensures Sound(body, ins, outs[n := OutFrom(body, ins, n)])
    ensures n in outs ==> outs[n] <= OutFrom(body, ins, n)
    ensures OutFrom(body, ins, n) <= UsedLocals(body.blocks)
  {
    hide BlockExposed, BlockDefs, Successors, UsedLocals, LiveIn;
    var out := OutFrom(body, ins, n);
    forall l | l in out
      ensures LiveOut(body, n, l) && l in UsedLocals(body.blocks)
    {
      var e :| e in body.edges && e.src == n && e.dst in ins && l in ins[e.dst];
      EdgeSuccessor(body.edges, e);
      assert LiveIn(body, e.dst, l);
    }
  }

  lemma EdgeSuccessor(edges: seq<Edge>, e: Edge)
    requires e in edges
    ensures e.dst in Successors(edges, e.src)
  {
  }

  lemma InStep(body: MirBody, ins: LiveMap, outs: LiveMap, n: BlockId)
    requires Sound(body, ins, outs) && n in outs
    ensures Sound(body, ins[n := InFrom(body.blocks[n], outs[n])], outs)
    ensures n in ins ==> ins[n] <= InFrom(body.blocks[n], outs[n])
    ensures InFrom(body.blocks[n], outs[n]) <= UsedLocals(body.blocks)
  {
    hide BlockExposed, BlockDefs, Successors, UsedLocals, LiveIn, LiveOut, OutFrom;
    var now := InFrom(body.blocks[n], outs[n]);
    UniverseHolds(body, n);
    forall l | l in now
      ensures LiveIn(body, n, l)
    {
      if l in BlockExposed(body.blocks[n]) {
        LiveHere(body, n, l);
      } else {
        LiveThrough(body, n, l);
      }
    }
    forall m | m in outs
      ensures outs[m] <= OutFrom(body, ins[n := now], m)
    {
      OutMonotone(body, ins, ins[n := now], m);
    }
  }

  // How much the two maps can still grow, together.
  ghost function Left(body: MirBody, ins: LiveMap, outs: LiveMap): nat
    requires Sound(body, ins, outs)
  {
    var u := UsedLocals(body.blocks);
    RoomNonNegative(u, ins, |body.blocks|);
    RoomNonNegative(u, outs, |body.blocks|);
    TotalRoom(u, ins, |body.blocks|) + TotalRoom(u, outs, |body.blocks|)
  }

  lemma OutLeft(body: MirBody, ins: LiveMap, outs: LiveMap, n: BlockId)
    requires Sound(body, ins, outs) && n < |body.blocks|
    requires n in outs ==> outs[n] != OutFrom(body, ins, n)
    ensures Sound(body, ins, outs[n := OutFrom(body, ins, n)])
    ensures Left(body, ins, outs[n := OutFrom(body, ins, n)]) < Left(body, ins, outs)
  {
    OutStep(body, ins, outs, n);
    RoomShrinks(UsedLocals(body.blocks), outs, n, OutFrom(body, ins, n), |body.blocks|);
  }

  lemma InLeft(body: MirBody, ins: LiveMap, outs: LiveMap, n: BlockId)
    requires Sound(body, ins, outs) && n in outs
    requires n in ins ==> ins[n] != InFrom(body.blocks[n], outs[n])
    ensures Sound(body, ins[n := InFrom(body.blocks[n], outs[n])], outs)
    ensures Left(body, ins[n := InFrom(body.blocks[n], outs[n])], outs) < Left(body, ins, outs)
  {
    InStep(body, ins, outs, n);
    RoomShrinks(UsedLocals(body.blocks), ins, n, InFrom(body.blocks[n], outs[n]), |body.blocks|);
  }

  lemma SoundAtStart(body: MirBody)
    ensures Sound(body, map[], map[])
  {
  }

  lemma InFromIs(b: BasicBlock, out: set<Local>)
    ensures InFrom(b, out) == BlockExposed(b) + (out - BlockDefs(b))
  {
  }

  /** `LivenessAnalysis::compute`: rounds over all blocks in index order until no entry changes. */
  method Compute(body: MirBody) returns (ins: LiveMap, outs: LiveMap)
    ensures forall n: BlockId :: (n in ins <==> n < |body.blocks|) && (n in outs <==> n < |body.blocks|)
    ensures Solution(body, ins, outs)
    ensures forall n, l :: n in ins ==> (l in ins[n] <==> LiveIn(body, n, l))
    ensures forall n, l :: n in outs ==> (l in outs[n] <==> LiveOut(body, n, l))
  {
    ins, outs := map[], map[];
    var changed := true;
    SoundAtStart(body);
    hide Sound, OutFrom, UsedLocals, BlockExposed, BlockDefs, Left, LiveIn, LiveOut, InFrom;
    while changed
      invariant Sound(body, ins, outs)
      invariant !changed ==> Solution(body, ins, outs)
      decreases Left(body, ins, outs), changed
    {
      changed := false;
      ghost var left := Left(body, ins, outs);
      var node := 0;
      while node < |body.blocks|
        invariant node <= |body.blocks|
        invariant Sound(body, ins, outs)
        invariant if changed then Left(body, ins, outs) < left else Left(body, ins, outs) <= left
        invariant !changed ==> forall n :: 0 <= n < node ==> SolvedAt(body, ins, outs, n)
      {
        var out := JoinSuccessors(body, ins, node);
        if node !in outs || outs[node] != out {
          OutLeft(body, ins, outs, node);
          outs := outs[node := out];
          changed := true;
        }
        var uses, defs := GetBlockUsesDefs(body.blocks[node]);
        var now := uses + (out - defs);
        InFromIs(body.blocks[node], out);
        if node !in ins || ins[node] != now {
          InLeft(body, ins, outs, node);
          ins := ins[node := now];
          changed := true;
        }
        node := node + 1;
      }
    }
    SolutionIsLive(body, ins, outs);
  }

  /** A solution reached from below is exactly path liveness, the least of all solutions. */
  lemma SolutionIsLive(body: MirBody, ins: LiveMap, outs: LiveMap)
    requires Sound(body, ins, outs) && Solution(body, ins, outs)
    ensures forall n: BlockId :: (n in ins <==> n < |body.blocks|) && (n in outs <==> n < |body.blocks|)
    ensures forall n, l :: n in ins ==> (l in ins[n] <==> LiveIn(body, n, l))
    ensures forall n, l :: n in outs ==> (l in outs[n] <==> LiveOut(body, n, l))
  {
    hide BlockExposed, BlockDefs, UsedLocals;
    forall n: BlockId | n < |body.blocks|
      ensures n in ins && n in outs
    {
      assert SolvedAt(body, ins, outs, n);
    }
    forall n, l | n in ins && LiveIn(body, n, l)
      ensures l in ins[n]
    {
      var path :| LivePath(body, path, l) && path[0] == n;
      SolutionHasPaths(body, ins, outs, path, l);
    }
    forall n, l | n in outs && LiveOut(body, n, l)
      ensures l in outs[n]
    {
      var s :| s in Successors(body.edges, n) && LiveIn(body, s, l);
      var path :| LivePath(body, path, l) && path[0] == s;
      SolutionHasPaths(body, ins, outs, path, l);
      assert SolvedAt(body, ins, outs, n);
      var e :| e in body.edges && e.src == n && e.dst == s;
    }
  }

  /** No solution of the equations is smaller than path liveness. */
  lemma LivenessIsLeast(body: MirBody, ins: LiveMap, outs: LiveMap, n: BlockId, l: Local)
    requires Solution(body, ins, outs) && LiveIn(body, n, l)
    ensures n in ins && l in ins[n]
  {
    var path :| LivePath(body, path, l) && path[0] == n;
    SolutionHasPaths(body, ins, outs, path, l);
  }
}
