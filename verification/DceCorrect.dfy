/** Dead code elimination preserves behaviour, reaches its fixpoint, and removes no more than it must. */
module DceCorrect {
  import opened Common
  import opened Mir
  import opened MirSemantics
  import opened Dce

  /** The same observations -- events with their values, markers, how the run ended -- are made by runs of both. */
  ghost predicate SameBehaviour(I: Interp, a: MirBody, b: MirBody) {
    forall store, o :: Shows(I, a, store, o) <==> Shows(I, b, store, o)
  }

  // ---- A round of sweeping ----

  ghost predicate AgreeOn(used: set<Local>, s: Store, t: Store) {
    forall l :: l in used ==> Read(s, l) == Read(t, l)
  }

  /** `d` is where the swept body is when the original is at `c`. */
  ghost predicate Matches(used: set<Local>, blocks: seq<BasicBlock>, c: Config, d: Config) {
    match (c, d)
    case (Halted(o), Halted(p)) => o == p
    case (Running(f), Running(g)) =>
      && g.blk == f.blk && g.prev == f.prev && g.trace == f.trace && g.marks == f.marks
      && AgreeOn(used, f.store, g.store)
      && (if f.blk < |blocks| then f.pc <= |blocks[f.blk].instrs|
         && g.pc == |SweepInstrs(used, blocks[f.blk].instrs[..f.pc])|
          else g.pc == f.pc)
    case _ => false
  }

  lemma {:induction false} SweepSplit(used: set<Local>, instrs: seq<Instruction>, k: nat)
    requires k <= |instrs|
    ensures SweepInstrs(used, instrs[..k]) <= SweepInstrs(used, instrs)
    ensures k < |instrs| && !Removable(used, instrs[k]) ==>
              |SweepInstrs(used, instrs[..k])| < |SweepInstrs(used, instrs)|
              && SweepInstrs(used, instrs)[|SweepInstrs(used, instrs[..k])|] == instrs[k]
    decreases |instrs| - k
  {
    if k < |instrs| {
      SweepNext(used, instrs, k);
      SweepSplit(used, instrs, k + 1);
    } else {
      assert instrs[..k] == instrs;
    }
  }

  lemma {:induction false} OperandSame(used: set<Local>, op: Operand, s: Store, t: Store)
    requires AgreeOn(used, s, t) && OperandUses(op) <= used
    ensures OperandValue(s, op) == OperandValue(t, op)
  {
  }

  lemma {:induction false} OperandsSame(used: set<Local>, ops: seq<Operand>, s: Store, t: Store)
    requires AgreeOn(used, s, t) && OperandsUse(ops) <= used
    ensures OperandValues(s, ops) == OperandValues(t, ops)
  {
    forall i | 0 <= i < |ops|
      ensures OperandValue(s, ops[i]) == OperandValue(t, ops[i])
    {
      assert forall l :: l in OperandUses(ops[i]) ==> l in OperandsUse(ops);
      OperandSame(used, ops[i], s, t);
    }
  }

  lemma {:induction false} PhiSame(used: set<Local>, entries: seq<(BlockId, Local)>, prev: Option<BlockId>, s: Store,
      t: Store)
    requires AgreeOn(used, s, t) && forall e :: e in entries ==> e.1 in used
    ensures PhiValue(s, prev, entries) == PhiValue(t, prev, entries)
    decreases entries
  {
    if entries != [] {
      assert entries[0] in entries;
      PhiSame(used, entries[1..], prev, s, t);
    }
  }

  /** A surviving instruction does the same from agreeing stores. */
  lemma {:induction false} ExecSame(I: Interp, used: set<Local>, ins: Instruction, f: Frame, g: Frame)
    requires AgreeOn(used, f.store, g.store) && InstrUses(ins) <= used
    requires g.blk == f.blk && g.prev == f.prev && g.trace == f.trace && g.marks == f.marks
    ensures match (ExecInstr(I, ins, f), ExecInstr(I, ins, g))
      case (Halted(o), Halted(p)) => o == p
      case (Running(x), Running(y)) =>
        && x.blk == f.blk && y.blk == x.blk && x.pc == f.pc + 1 && y.pc == g.pc + 1
        && y.prev == x.prev && y.trace == x.trace && y.marks == x.marks && AgreeOn(used, x.store, y.store)
      case _ => false
  {
    match ins
    case Assign(_, Use(op)) => OperandSame(used, op, f.store, g.store);
    case Assign(_, Binary(_, l, r)) => OperandSame(used, l, f.store, g.store); OperandSame(used, r, f.store, g.store);
    case Assign(_, Unary(_, x)) => OperandSame(used, x, f.store, g.store);
    case Assign(_, Ref(_, _)) =>
    case Phi(_, entries) =>
      assert forall e :: e in entries ==> e.1 in InstrUses(ins);
      PhiSame(used, entries, f.prev, f.store, g.store);
    case Call(_, _, args) => OperandsSame(used, args, f.store, g.store);
    case Assert(op, _) => OperandSame(used, op, f.store, g.store);
    case _ =>
  }

  /** A dead instruction only moves on. */
  lemma {:induction false} ExecDead(I: Interp, used: set<Local>, ins: Instruction, f: Frame)
    requires Removable(used, ins)
    ensures var c := ExecInstr(I, ins, f);
      c.Running? && AgreeOn(used, f.store, c.frame.store)
      && c.frame == f.(pc := f.pc + 1, store := c.frame.store)
  {
  }

  lemma {:induction false} TermSame(I: Interp, used: set<Local>, term: Option<Terminator>, f: Frame, g: Frame)
    requires AgreeOn(used, f.store, g.store) && TermUses(term) <= used
    requires g.blk == f.blk && g.prev == f.prev && g.trace == f.trace && g.marks == f.marks
    ensures match (ExecTerm(term, f), ExecTerm(term, g))
      case (Halted(o), Halted(p)) => o == p
      case (Running(x), Running(y)) =>
        y == x.(store := y.store) && AgreeOn(used, x.store, y.store) && x.pc == 0
      case _ => false
  {
    match term
    case Some(Return(Some(op))) => OperandSame(used, op, f.store, g.store);
    case Some(SwitchInt(op, _, _)) => OperandSame(used, op, f.store, g.store);
    case _ =>
  }

  lemma {:induction false} UsesWithin(blocks: seq<BasicBlock>, b: BlockId)
    requires b < |blocks|
    ensures TermUses(blocks[b].term) <= UsedLocals(blocks)
    ensures forall i :: 0 <= i < |blocks[b].instrs| ==> InstrUses(blocks[b].instrs[i]) <= UsedLocals(blocks)
  {
    assert blocks[b] in blocks;
    assert BlockUses(blocks[b]) <= UsedLocals(blocks);
    forall i | 0 <= i < |blocks[b].instrs|
      ensures InstrUses(blocks[b].instrs[i]) <= UsedLocals(blocks)
    {
      assert blocks[b].instrs[i] in blocks[b].instrs;
      assert InstrUses(blocks[b].instrs[i]) <= BlockUses(blocks[b]);
    }
  }

  /** The original is at a dead instruction: it moves on alone. */
  ghost predicate AtDead(used: set<Local>, blocks: seq<BasicBlock>, c: Config) {
    c.Running? && c.frame.blk < |blocks| && c.frame.pc < |blocks[c.frame.blk].instrs|
    && Removable(used, blocks[c.frame.blk].instrs[c.frame.pc])
  }

  lemma {:induction false} DeadStep(I: Interp, blocks: seq<BasicBlock>, c: Config, d: Config)
    requires Matches(UsedLocals(blocks), blocks, c, d) && AtDead(UsedLocals(blocks), blocks, c)
    ensures Matches(UsedLocals(blocks), blocks, Step(I, blocks, c), d)
    ensures Step(I, blocks, c).Running? && Step(I, blocks, c).frame.pc == c.frame.pc + 1
                && Step(I, blocks, c).frame.blk == c.frame.blk
  {
    var used, instrs := UsedLocals(blocks), blocks[c.frame.blk].instrs;
    ExecDead(I, used, instrs[c.frame.pc], c.frame);
    SweepNext(used, instrs, c.frame.pc);
  }

  lemma {:induction false} LiveStep(I: Interp, blocks: seq<BasicBlock>, c: Config, d: Config)
    requires Matches(UsedLocals(blocks), blocks, c, d) && !AtDead(UsedLocals(blocks), blocks, c)
    ensures Matches(UsedLocals(blocks), blocks, Step(I, blocks, c), Step(I, SweepRound(blocks), d))
  {
    var used := UsedLocals(blocks);
    hide UsedLocals;
    if c.Running? && c.frame.blk < |blocks| {
      var f, g := c.frame, d.frame;
      var instrs := blocks[f.blk].instrs;
      UsesWithin(blocks, f.blk);
      SweepSplit(used, instrs, f.pc);
      if f.pc < |instrs| {
        ExecSame(I, used, instrs[f.pc], f, g);
        SweepNext(used, instrs, f.pc);
      } else {
        assert instrs[..f.pc] == instrs;
        TermSame(I, used, blocks[f.blk].term, f, g);
      }
    }
  }

  /** However far the original runs, the swept body comes to a matching point. */
  lemma {:induction false} SweptFollows(I: Interp, blocks: seq<BasicBlock>, c: Config, d: Config, n: nat)
    returns (m: nat)
    requires Matches(UsedLocals(blocks), blocks, c, d)
    ensures Matches(UsedLocals(blocks), blocks, Steps(I, blocks, c, n), Steps(I, SweepRound(blocks), d, m))
    decreases n
  {
    if n == 0 {
      m := 0;
    } else if AtDead(UsedLocals(blocks), blocks, c) {
      DeadStep(I, blocks, c, d);
      m := SweptFollows(I, blocks, Step(I, blocks, c), d, n - 1);
    } else {
      LiveStep(I, blocks, c, d);
      m := SweptFollows(I, blocks, Step(I, blocks, c), Step(I, SweepRound(blocks), d), n - 1);
      m := m + 1;
    }
  }

  // Instructions left in the current block: how long the original can move on alone.
  ghost function Ahead(blocks: seq<BasicBlock>, c: Config): nat {
    if c.Running? && c.frame.blk < |blocks| && c.frame.pc < |blocks[c.frame.blk].instrs|
    then |blocks[c.frame.blk].instrs| - c.frame.pc else 0
  }

  /** However far the swept body runs, the original comes to a matching point. */
  lemma {:induction false} SweptLeads(I: Interp, blocks: seq<BasicBlock>, c: Config, d: Config, m: nat)
    returns (n: nat)
    requires Matches(UsedLocals(blocks), blocks, c, d)
    ensures Matches(UsedLocals(blocks), blocks, Steps(I, blocks, c, n), Steps(I, SweepRound(blocks), d, m))
    decreases m, Ahead(blocks, c)
  {
    if m == 0 {
      n := 0;
    } else if AtDead(UsedLocals(blocks), blocks, c) {
      DeadStep(I, blocks, c, d);
      n := SweptLeads(I, blocks, Step(I, blocks, c), d, m);
      n := n + 1;
    } else {
      LiveStep(I, blocks, c, d);
      n := SweptLeads(I, blocks, Step(I, blocks, c), Step(I, SweepRound(blocks), d), m - 1);
      n := n + 1;
    }
  }

  lemma {:induction false} RoundPreserves(I: Interp, body: MirBody)
    ensures SameBehaviour(I, body, body.(blocks := SweepRound(body.blocks)))
  {
    var swept := body.(blocks := SweepRound(body.blocks));
    var used := UsedLocals(body.blocks);
    forall store, o
      ensures Shows(I, body, store, o) <==> Shows(I, swept, store, o)
    {
      var c := Start(body.entry, store);
      assert Matches(used, body.blocks, c, c) by {
        if body.entry < |body.blocks| {
          assert body.blocks[body.entry].instrs[..0] == [];
        }
      }
      if Shows(I, body, store, o) {
        var n: nat :| Observe(Steps(I, body.blocks, c, n)) == o;
        var m := SweptFollows(I, body.blocks, c, c, n);
        assert Observe(Steps(I, swept.blocks, c, m)) == o;
      }
      if Shows(I, swept, store, o) {
        var m: nat :| Observe(Steps(I, swept.blocks, c, m)) == o;
        var n := SweptLeads(I, body.blocks, c, c, m);
        assert Observe(Steps(I, body.blocks, c, n)) == o;
      }
    }
  }

  lemma {:induction false} SweepAllPreserves(I: Interp, body: MirBody)
    ensures SameBehaviour(I, body, body.(blocks := SweepAll(body.blocks)))
    decreases InstrCount(body.blocks)
  {
    var next := body.(blocks := SweepRound(body.blocks));
    SweepShrinks(UsedLocals(body.blocks), body.blocks);
    if next.blocks != body.blocks {
      RoundPreserves(I, body);
      SweepAllPreserves(I, next);
    }
  }

  // ---- Wiping ----

  /** Every target of a reachable block's terminator is recorded as an edge. */
  ghost predicate EdgesCover(body: MirBody) {
    forall b :: 0 <= b < |body.blocks| && Reaches(body.edges, body.entry, b) ==>
      Targets(body.blocks[b].term) <= Successors(body.edges, b)
  }

  lemma {:induction false} WipedSteps(I: Interp, body: MirBody, c: Config, n: nat)
    requires EdgesCover(body)
    requires c.Running? ==> Reaches(body.edges, body.entry, c.frame.blk)
    ensures Steps(I, WipeUnreachable(body.blocks, body.edges, body.entry), c, n) == Steps(I, body.blocks, c, n)
    decreases n
  {
    if n > 0 {
      var d := Step(I, body.blocks, c);
      if c.Running? && d.Running? {
        var f := c.frame;
        if f.pc >= |body.blocks[f.blk].instrs| {
          JumpTarget(body.blocks[f.blk].term, I, f);
          PathOn(body.edges, body.entry, f.blk, d.frame.blk);
        } else {
          StaysInBlock(I, body.blocks[f.blk].instrs[f.pc], f);
        }
      }
      WipedSteps(I, body, d, n - 1);
    }
  }

  lemma {:induction false} StaysInBlock(I: Interp, ins: Instruction, f: Frame)
    ensures ExecInstr(I, ins, f).Running? ==> ExecInstr(I, ins, f).frame.blk == f.blk
  {
  }

  lemma {:induction false} WipePreserves(I: Interp, body: MirBody)
    requires EdgesCover(body)
    ensures SameBehaviour(I, body, body.(blocks := WipeUnreachable(body.blocks, body.edges, body.entry)))
  {
    var wiped := body.(blocks := WipeUnreachable(body.blocks, body.edges, body.entry));
    PathTo(body.edges, body.entry);
    forall store, o
      ensures Shows(I, body, store, o) <==> Shows(I, wiped, store, o)
    {
      var c := Start(body.entry, store);
      forall n: nat
        ensures Steps(I, wiped.blocks, c, n) == Steps(I, body.blocks, c, n)
      {
        WipedSteps(I, body, c, n);
      }
    }
  }

  // ---- The pass ----

  lemma {:induction false} SweepAllKeepsTerms(blocks: seq<BasicBlock>)
    ensures forall b :: 0 <= b < |blocks| ==> SweepAll(blocks)[b].term == blocks[b].term
    decreases InstrCount(blocks)
  {
    SweepShrinks(UsedLocals(blocks), blocks);
    if SweepRound(blocks) != blocks {
      SweepAllKeepsTerms(SweepRound(blocks));
    }
  }

  /**
   Dead code elimination preserves behaviour whenever the graph's edges cover the terminators: through
   phis, loops and the wipe, every run makes the same calls with the same values, passes and fails the
   same assertions, takes the same branches and ends the same way.
   */
  lemma {:induction false} EliminationPreserves(I: Interp, body: MirBody)
    requires EdgesCover(body)
    ensures SameBehaviour(I, body, Eliminate(body))
  {
    var swept := body.(blocks := SweepAll(body.blocks));
    SweepAllPreserves(I, body);
    SweepAllKeepsTerms(body.blocks);
    assert EdgesCover(swept);
    WipePreserves(I, swept);
    assert Eliminate(body) == swept.(blocks := WipeUnreachable(swept.blocks, swept.edges, swept.entry));
  }

  // ---- The fixpoint ----

  /** After sweeping, every surviving assignment or phi writes a local that something reads. */
  lemma {:induction false} SweepReachesFixpoint(blocks: seq<BasicBlock>)
    ensures SweepRound(SweepAll(blocks)) == SweepAll(blocks)
    ensures forall b, i :: 0 <= b < |blocks| && 0 <= i < |SweepAll(blocks)[b].instrs| ==>
              !Removable(UsedLocals(SweepAll(blocks)), SweepAll(blocks)[b].instrs[i])
    decreases InstrCount(blocks)
  {
    SweepShrinks(UsedLocals(blocks), blocks);
    if SweepRound(blocks) != blocks {
      SweepReachesFixpoint(SweepRound(blocks));
    } else {
      var used := UsedLocals(blocks);
      forall b, i | 0 <= b < |blocks| && 0 <= i < |blocks[b].instrs|
        ensures !Removable(used, blocks[b].instrs[i])
      {
        assert SweepBlocks(used, blocks)[b] == blocks[b];
        SweptAlive(used, blocks[b].instrs, i);
      }
    }
  }

  lemma {:induction false} SweptAlive(used: set<Local>, instrs: seq<Instruction>, i: nat)
    requires i < |SweepInstrs(used, instrs)|
    ensures !Removable(used, SweepInstrs(used, instrs)[i])
    decreases |instrs|
  {
    var p := instrs[..|instrs| - 1];
    if i < |SweepInstrs(used, p)| {
      SweptAlive(used, p, i);
    }
  }

  /** `a` can be had from `b` by leaving instructions out. */
  ghost predicate Subsequence(a: seq<Instruction>, b: seq<Instruction>)
    decreases |b|
  {
    if b == [] then a == []
    else
      || Subsequence(a, b[..|b| - 1])
      || (a != [] && a[|a| - 1] == b[|b| - 1] && Subsequence(a[..|a| - 1], b[..|b| - 1]))
  }

  /** What sweeping never touches: calls, assertions, storage and zone markers, in order. */
  function Effects(instrs: seq<Instruction>): seq<Instruction> {
    if instrs == [] then []
    else
      var last := instrs[|instrs| - 1];
      Effects(instrs[..|instrs| - 1]) + (if last.Assign? || last.Phi? then [] else [last])
  }

  lemma {:induction false} SweepKeeps(used: set<Local>, instrs: seq<Instruction>)
    ensures Subsequence(SweepInstrs(used, instrs), instrs)
    ensures Effects(SweepInstrs(used, instrs)) == Effects(instrs)
    decreases |instrs|
  {
    if instrs != [] {
      var p, last := instrs[..|instrs| - 1], instrs[|instrs| - 1];
      SweepKeeps(used, p);
      if !Removable(used, last) {
        assert (SweepInstrs(used, p) + [last])[..|SweepInstrs(used, p)|] == SweepInstrs(used, p);
      } else {
        assert SweepInstrs(used, instrs) == SweepInstrs(used, p);
      }
    }
  }

  lemma {:induction false} SubsequenceTrans(a: seq<Instruction>, b: seq<Instruction>, c: seq<Instruction>)
    requires Subsequence(a, b) && Subsequence(b, c)
    ensures Subsequence(a, c)
    decreases |c|, |b|
  {
    if c != [] {
      var c' := c[..|c| - 1];
      if Subsequence(b, c') {
        SubsequenceTrans(a, b, c');
      } else if Subsequence(a, b[..|b| - 1]) {
        SubsequenceTrans(a, b[..|b| - 1], c');
      } else {
        SubsequenceTrans(a[..|a| - 1], b[..|b| - 1], c');
      }
    }
  }

  /** Each block keeps its calls, assertions and markers, and loses only instructions, none reordered. */
  lemma {:induction false} SweepAllKeeps(blocks: seq<BasicBlock>, b: BlockId)
    requires b < |blocks|
    ensures Subsequence(SweepAll(blocks)[b].instrs, blocks[b].instrs)
    ensures Effects(SweepAll(blocks)[b].instrs) == Effects(blocks[b].instrs)
    decreases InstrCount(blocks)
  {
    var used := UsedLocals(blocks);
    SweepShrinks(used, blocks);
    SweepKeeps(used, blocks[b].instrs);
    if SweepRound(blocks) == blocks {
    } else {
      SweepAllKeeps(SweepRound(blocks), b);
      SubsequenceTrans(SweepAll(blocks)[b].instrs, SweepRound(blocks)[b].instrs, blocks[b].instrs);
    }
  }

  // ---- It removes no more than it must ----

  lemma {:induction false} SweepTwice(small: set<Local>, big: set<Local>, instrs: seq<Instruction>)
    requires small <= big
    ensures SweepInstrs(small, SweepInstrs(big, instrs)) == SweepInstrs(small, instrs)
    decreases |instrs|
  {
    if instrs != [] {
      var p, last := instrs[..|instrs| - 1], instrs[|instrs| - 1];
      SweepTwice(small, big, p);
      if !Removable(big, last) {
        assert (SweepInstrs(big, p) + [last])[..|SweepInstrs(big, p)|] == SweepInstrs(big, p);
      } else {
        assert SweepInstrs(big, instrs) == SweepInstrs(big, p);
      }
    }
  }

  lemma {:induction false} SweptSubset(used: set<Local>, instrs: seq<Instruction>)
    ensures forall x :: x in SweepInstrs(used, instrs) ==> x in instrs
    decreases |instrs|
  {
    if instrs != [] {
      SweptSubset(used, instrs[..|instrs| - 1]);
    }
  }

  lemma {:induction false} UsesShrink(used: set<Local>, blocks: seq<BasicBlock>)
    ensures UsedLocals(SweepBlocks(used, blocks)) <= UsedLocals(blocks)
  {
    var swept := SweepBlocks(used, blocks);
    forall l | l in UsedLocals(swept)
      ensures l in UsedLocals(blocks)
    {
      var x :| x in swept && l in BlockUses(x);
      var b :| 0 <= b < |swept| && swept[b] == x;
      SweptSubset(used, blocks[b].instrs);
      assert l in BlockUses(blocks[b]) && blocks[b] in blocks;
    }
  }

  /**
   Sweeping keeps the most it could: any set of locals that supports itself -- the code that remains when
   only assignments to it are kept reads all of it -- survives whole.
   */
  lemma {:induction false} SweepAllIsGreatest(blocks: seq<BasicBlock>, w: set<Local>)
    requires w <= UsedLocals(SweepBlocks(w, blocks))
    ensures w <= UsedLocals(SweepAll(blocks))
    ensures SweepBlocks(w, SweepAll(blocks)) == SweepBlocks(w, blocks)
    decreases InstrCount(blocks)
  {
    var used := UsedLocals(blocks);
    SweepShrinks(used, blocks);
    UsesShrink(w, blocks);
    if SweepRound(blocks) != blocks {
      forall b | 0 <= b < |blocks|
        ensures SweepBlock(w, SweepRound(blocks)[b]) == SweepBlock(w, blocks[b])
      {
        SweepTwice(w, used, blocks[b].instrs);
      }
      assert SweepBlocks(w, SweepRound(blocks)) == SweepBlocks(w, blocks);
      SweepAllIsGreatest(SweepRound(blocks), w);
    }
  }
}
