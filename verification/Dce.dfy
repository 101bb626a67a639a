/** Dead code elimination: what `Dce::run` computes, and the pass itself, in place over the blocks. */
module Dce {
  import opened Common
  import opened Mir

  // ---- Used locals ----

  function OperandUses(op: Operand): set<Local> {
    match op
    case Copy(l) => {l}
    case Move(l) => {l}
    case Const(_) => {}
  }

  function OperandsUse(ops: seq<Operand>): set<Local> {
    set op, l | op in ops && l in OperandUses(op) :: l
  }

  function RvalueUses(rv: Rvalue): set<Local> {
    match rv
    case Use(op) => OperandUses(op)
    case Binary(_, l, r) => OperandUses(l) + OperandUses(r)
    case Unary(_, x) => OperandUses(x)
    case Ref(l, _) => {l}
  }

  function InstrUses(ins: Instruction): set<Local> {
    match ins
    case Assign(_, rv) => RvalueUses(rv)
    case Phi(_, entries) => set e | e in entries :: e.1
    case Call(_, _, args) => OperandsUse(args)
    case Assert(op, _) => OperandUses(op)
    case _ => {}
  }

  function TermUses(term: Option<Terminator>): set<Local> {
    match term
    case Some(Return(Some(op))) => OperandUses(op)
    case Some(SwitchInt(op, _, _)) => OperandUses(op)
    case _ => {}
  }

  function BlockUses(b: BasicBlock): set<Local> {
    (set ins, l | ins in b.instrs && l in InstrUses(ins) :: l) + TermUses(b.term)
  }

  function UsedLocals(blocks: seq<BasicBlock>): set<Local> {
    set b, l | b in blocks && l in BlockUses(b) :: l
  }

  // ---- Sweeping ----

  predicate Removable(used: set<Local>, ins: Instruction) {
    match ins
    case Assign(d, _) => d !in used
    case Phi(d, _) => d !in used
    case _ => false
  }

  function SweepInstrs(used: set<Local>, instrs: seq<Instruction>): (r: seq<Instruction>)
    ensures |r| <= |instrs|
  {
    if instrs == [] then []
    else
      var last := instrs[|instrs| - 1];
      SweepInstrs(used, instrs[..|instrs| - 1]) + (if Removable(used, last) then [] else [last])
  }

  function SweepBlock(used: set<Local>, b: BasicBlock): BasicBlock {
    b.(instrs := SweepInstrs(used, b.instrs))
  }

  function SweepBlocks(used: set<Local>, blocks: seq<BasicBlock>): (r: seq<BasicBlock>)
    ensures |r| == |blocks|
  {
    seq(|blocks|, i requires 0 <= i < |blocks| => SweepBlock(used, blocks[i]))
  }

  /** One round of the `while changed` loop. */
  function SweepRound(blocks: seq<BasicBlock>): (r: seq<BasicBlock>)
    ensures |r| == |blocks|
  {
    SweepBlocks(UsedLocals(blocks), blocks)
  }

  function InstrCount(blocks: seq<BasicBlock>): nat {
    if blocks == [] then 0 else InstrCount(blocks[..|blocks| - 1]) + |blocks[|blocks| - 1].instrs|
  }

  lemma {:induction false} SweepUnchanged(used: set<Local>, instrs: seq<Instruction>)
    requires |SweepInstrs(used, instrs)| == |instrs|
    ensures SweepInstrs(used, instrs) == instrs
    decreases |instrs|
  {
    if instrs != [] {
      SweepUnchanged(used, instrs[..|instrs| - 1]);
    }
  }

  /** A round that changes anything leaves strictly fewer instructions. */
  lemma {:induction false} SweepShrinks(used: set<Local>, blocks: seq<BasicBlock>)
    ensures InstrCount(SweepBlocks(used, blocks)) <= InstrCount(blocks)
    ensures SweepBlocks(used, blocks) != blocks ==> InstrCount(SweepBlocks(used, blocks)) < InstrCount(blocks)
    decreases |blocks|
  {
    if blocks != [] {
      var n := |blocks| - 1;
      SweepShrinks(used, blocks[..n]);
      assert SweepBlocks(used, blocks)[..n] == SweepBlocks(used, blocks[..n]);
      if |SweepInstrs(used, blocks[n].instrs)| == |blocks[n].instrs| {
        SweepUnchanged(used, blocks[n].instrs);
      }
      assert blocks == blocks[..n] + [blocks[n]];
      assert SweepBlocks(used, blocks) == SweepBlocks(used, blocks[..n]) + [SweepBlock(used, blocks[n])];
    }
  }

  /** Sweeping until nothing changes. */
  function SweepAll(blocks: seq<BasicBlock>): (r: seq<BasicBlock>)
    ensures |r| == |blocks|
    decreases InstrCount(blocks)
  {
    SweepShrinks(UsedLocals(blocks), blocks);
    if SweepRound(blocks) == blocks then blocks else SweepAll(SweepRound(blocks))
  }

  // ---- Reachability over the graph's edges ----

  ghost predicate EdgePath(edges: seq<Edge>, path: seq<BlockId>) {
    path != [] && forall i :: 0 <= i < |path| - 1 ==> path[i + 1] in Successors(edges, path[i])
  }

  ghost predicate Reaches(edges: seq<Edge>, a: BlockId, b: BlockId) {
    exists path :: EdgePath(edges, path) && path[0] == a && path[|path| - 1] == b
  }

  /** Blocks that the edges do not reach from the entry are emptied; nothing is renumbered. */
  ghost function WipeUnreachable(blocks: seq<BasicBlock>, edges: seq<Edge>, entry: BlockId): (r: seq<BasicBlock>)
    ensures |r| == |blocks|
  {
    seq(|blocks|, i requires 0 <= i < |blocks| => if Reaches(edges, entry, i) then blocks[i] else EMPTY_BLOCK)
  }

  /** `Dce::run`. */
  ghost function EliminateIn(blocks: seq<BasicBlock>, edges: seq<Edge>, entry: BlockId): seq<BasicBlock> {
    WipeUnreachable(SweepAll(blocks), edges, entry)
  }

  ghost function Eliminate(body: MirBody): MirBody {
    body.(blocks := EliminateIn(body.blocks, body.edges, body.entry))
  }

  // petgraph's own invariant: edges join existing nodes.
  ghost predicate Graph(n: nat, edges: seq<Edge>, entry: BlockId) {
    entry < n && forall e :: e in edges ==> e.src < n && e.dst < n
  }

  // ---- The pass, in place ----

  lemma UsedAppend(blocks: seq<BasicBlock>, b: BasicBlock)
    ensures UsedLocals(blocks + [b]) == UsedLocals(blocks) + BlockUses(b)
  {
    var more := blocks + [b];
    forall l | l in UsedLocals(blocks) + BlockUses(b)
      ensures l in UsedLocals(more)
    {
      if l in BlockUses(b) {
        assert more[|blocks|] == b && b in more;
      } else {
        var x :| x in blocks && l in BlockUses(x);
        assert x in more;
      }
    }
    forall l | l in UsedLocals(more)
      ensures l in UsedLocals(blocks) + BlockUses(b)
    {
      var x :| x in more && l in BlockUses(x);
      assert x in blocks || x == b;
    }
  }

  method CollectUsed(blocks: array<BasicBlock>) returns (used: set<Local>)
    ensures used == UsedLocals(blocks[..])
  {
    used := {};
    var b := 0;
    while b < blocks.Length
      invariant b <= blocks.Length
      invariant used == UsedLocals(blocks[..b])
    {
      var block := blocks[b];
      ghost var before := used;
      var i := 0;
      while i < |block.instrs|
        invariant i <= |block.instrs|
        invariant used == before + (set ins, l | ins in block.instrs[..i] && l in InstrUses(ins) :: l)
      {
        assert block.instrs[..i + 1] == block.instrs[..i] + [block.instrs[i]];
        used := used + InstrUses(block.instrs[i]);
        i := i + 1;
      }
      assert block.instrs[..i] == block.instrs;
      used := used + TermUses(block.term);
      UsedAppend(blocks[..b], block);
      assert blocks[..b + 1] == blocks[..b] + [block];
      b := b + 1;
    }
    assert blocks[..b] == blocks[..];
  }

  lemma SweepNext(used: set<Local>, instrs: seq<Instruction>, k: nat)
    requires k < |instrs|
    ensures SweepInstrs(used, instrs[..k + 1]) ==
            SweepInstrs(used, instrs[..k]) + (if Removable(used, instrs[k]) then [] else [instrs[k]])
  {
    assert instrs[..k + 1][..k] == instrs[..k];
  }

  /** Removes the dead instructions of one block one at a time. */
  method SweepOne(used: set<Local>, instrs: seq<Instruction>) returns (swept: seq<Instruction>, changed: bool)
    ensures swept == SweepInstrs(used, instrs)
    ensures changed <==> swept != instrs
  {
    swept, changed := instrs, false;
    assert SweepInstrs(used, instrs[..0]) == [];
    hide SweepInstrs;
    var i := 0;
    ghost var k := 0;
    while i < |swept|
      invariant i <= |swept| && i <= k <= |instrs|
      invariant swept[..i] == SweepInstrs(used, instrs[..k])
      invariant swept[i..] == instrs[k..]
      invariant changed <==> i < k
      decreases |swept| - i
    {
      var ins := swept[i];
      ghost var done, rest := swept[..i], swept[i + 1..];
      SweepNext(used, instrs, k);
      assert ins == instrs[k..][0] == instrs[k];
      assert rest == instrs[k..][1..] == instrs[k + 1..];
      if Removable(used, ins) {
        swept := swept[..i] + swept[i + 1..];
        assert swept[..i] == done && swept[i..] == rest;
        changed := true;
      } else {
        assert swept[..i + 1] == done + [ins];
        i := i + 1;
      }
      k := k + 1;
    }
    assert instrs[..k] == instrs && swept[..i] == swept;
    if !changed {
      SweepUnchanged(used, instrs);
    }
  }

  /** One round over all blocks. */
  method Sweep(used: set<Local>, blocks: array<BasicBlock>) returns (changed: bool)
    modifies blocks
    ensures blocks[..] == SweepBlocks(used, old(blocks[..]))
    ensures changed <==> blocks[..] != old(blocks[..])
  {
    changed := false;
    var b := 0;
    while b < blocks.Length
      invariant b <= blocks.Length
      invariant forall i :: 0 <= i < b ==> blocks[i] == SweepBlock(used, old(blocks[i]))
      invariant forall i :: b <= i < blocks.Length ==> blocks[i] == old(blocks[i])
      invariant changed <==> exists i :: 0 <= i < b && blocks[i] != old(blocks[i])
    {
      var swept, removed := SweepOne(used, blocks[b].instrs);
      blocks[b] := blocks[b].(instrs := swept);
      changed := changed || removed;
      b := b + 1;
    }
    if blocks[..] == old(blocks[..]) {
      assert forall i :: 0 <= i < blocks.Length ==> blocks[i] == blocks[..][i] == old(blocks[..])[i] == old(blocks[i]);
    }
  }

  ghost function AllBlocks(n: nat): (r: set<BlockId>)
    ensures forall b: BlockId :: b in r <==> b < n
  {
    if n == 0 then {} else AllBlocks(n - 1) + {n - 1}
  }

  /** The depth-first search from the entry, with an explicit stack. */
  method CollectReachable(n: nat, edges: seq<Edge>, entry: BlockId) returns (reachable: set<BlockId>)
    requires Graph(n, edges, entry)
    ensures forall b :: b in reachable <==> Reaches(edges, entry, b)
  {
    ghost var all := AllBlocks(n);
    reachable := {};
    var stack := [entry];
    PathTo(edges, entry);
    while stack != []
      invariant reachable <= all && forall b :: b in stack ==> b in all
      invariant forall b :: b in reachable ==> Reaches(edges, entry, b)
      invariant forall b :: b in stack ==> Reaches(edges, entry, b)
      invariant entry in reachable || entry in stack
      invariant forall b, t :: b in reachable && t in Successors(edges, b) ==> t in reachable || t in stack
      decreases all - reachable, |stack|
    {
      var node := stack[|stack| - 1];
      ghost var before := stack;
      stack := stack[..|stack| - 1];
      assert forall b :: b in before <==> b in stack || b == node;
      if node !in reachable {
        reachable := reachable + {node};
        ghost var rest := stack;
        var i := |edges|;
        while i > 0
          invariant 0 <= i <= |edges|
          invariant forall b :: b in stack ==> b in all && Reaches(edges, entry, b)
          invariant forall b :: b in rest ==> b in stack
          invariant forall j :: i <= j < |edges| && edges[j].src == node ==> edges[j].dst in stack
        {
          i := i - 1;
          if edges[i].src == node {
            assert edges[i] in edges && edges[i].dst in Successors(edges, node);
            PathOn(edges, entry, node, edges[i].dst);
            stack := stack + [edges[i].dst];
          }
        }
        forall t | t in Successors(edges, node)
          ensures t in stack
        {
          var e :| e in edges && e.src == node && e.dst == t;
        }
      }
    }
    forall b | Reaches(edges, entry, b)
      ensures b in reachable
    {
      var path :| EdgePath(edges, path) && path[0] == entry && path[|path| - 1] == b;
      PathStays(edges, path, reachable);
    }
  }

  lemma PathTo(edges: seq<Edge>, a: BlockId)
    ensures Reaches(edges, a, a)
  {
    assert EdgePath(edges, [a]);
  }

  lemma PathOn(edges: seq<Edge>, a: BlockId, b: BlockId, c: BlockId)
    requires Reaches(edges, a, b) && c in Successors(edges, b)
    ensures Reaches(edges, a, c)
  {
    var path :| EdgePath(edges, path) && path[0] == a && path[|path| - 1] == b;
    assert EdgePath(edges, path + [c]);
    assert (path + [c])[0] == a && (path + [c])[|path|] == c;
  }

  lemma {:induction false} PathStays(edges: seq<Edge>, path: seq<BlockId>, closed: set<BlockId>)
    requires EdgePath(edges, path) && path[0] in closed
    requires forall b, t :: b in closed && t in Successors(edges, b) ==> t in closed
    ensures path[|path| - 1] in closed
    decreases path
  {
    if |path| > 1 {
      var p := path[..|path| - 1];
      forall i | 0 <= i < |p| - 1
        ensures p[i + 1] in Successors(edges, p[i])
      {
        assert path[i + 1] in Successors(edges, path[i]);
      }
      PathStays(edges, p, closed);
      assert path[|path| - 2 + 1] in Successors(edges, path[|path| - 2]);
    }
  }

  lemma SweepAllNext(blocks: seq<BasicBlock>)
    ensures SweepAll(SweepRound(blocks)) == SweepAll(blocks)
    ensures SweepRound(blocks) == blocks ==> SweepAll(blocks) == blocks
    ensures SweepRound(blocks) != blocks ==> InstrCount(SweepRound(blocks)) < InstrCount(blocks)
  {
    SweepShrinks(UsedLocals(blocks), blocks);
  }

  /** Empties every block outside `reachable`. */
  method Wipe(blocks: array<BasicBlock>, reachable: set<BlockId>)
    modifies blocks
    ensures forall i :: 0 <= i < blocks.Length ==> blocks[i] == if i in reachable then old(blocks[i]) else EMPTY_BLOCK
  {
    var b := 0;
    while b < blocks.Length
      invariant b <= blocks.Length
      invariant forall i :: 0 <= i < b ==> blocks[i] == if i in reachable then old(blocks[i]) else EMPTY_BLOCK
      invariant forall i :: b <= i < blocks.Length ==> blocks[i] == old(blocks[i])
    {
      if b !in reachable {
        blocks[b] := BasicBlock([], None);
      }
      b := b + 1;
    }
  }

  /** `Dce::run`: sweeps until nothing changes, then empties what the edges do not reach. */
  method Run(blocks: array<BasicBlock>, edges: seq<Edge>, entry: BlockId)
    requires Graph(blocks.Length, edges, entry)
    modifies blocks
    ensures blocks[..] == EliminateIn(old(blocks[..]), edges, entry)
  {
    hide SweepAll, UsedLocals, SweepBlocks, InstrCount, Reaches, Graph, EliminateIn, WipeUnreachable;
    var changed := true;
    while changed
      invariant SweepAll(blocks[..]) == SweepAll(old(blocks[..]))
      invariant !changed ==> SweepAll(blocks[..]) == blocks[..]
      decreases InstrCount(blocks[..]), changed
    {
      SweepAllNext(blocks[..]);
      var used := CollectUsed(blocks);
      changed := Sweep(used, blocks);
    }
    ghost var swept := blocks[..];
    var reachable := CollectReachable(blocks.Length, edges, entry);
    Wipe(blocks, reachable);
    WipedIs(blocks[..], swept, edges, entry, reachable);
    EliminateIs(old(blocks[..]), edges, entry);
  }

  lemma WipedIs(wiped: seq<BasicBlock>, blocks: seq<BasicBlock>, edges: seq<Edge>, entry: BlockId,
      reachable: set<BlockId>)
    requires |wiped| == |blocks| && forall b :: b in reachable <==> Reaches(edges, entry, b)
    requires forall i :: 0 <= i < |blocks| ==> wiped[i] == if i in reachable then blocks[i] else EMPTY_BLOCK
    ensures wiped == WipeUnreachable(blocks, edges, entry)
  {
  }

  lemma EliminateIs(blocks: seq<BasicBlock>, edges: seq<Edge>, entry: BlockId)
    ensures EliminateIn(blocks, edges, entry) == WipeUnreachable(SweepAll(blocks), edges, entry)
  {
  }
}
