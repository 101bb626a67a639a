/**
 What dead code elimination counts as a use is what running the instruction or terminator can notice, and what it
 leaves behind writes nothing unnoticed.
 */
module DceUses {
  import opened Common
  import opened Mir
  import opened MirSemantics
  import opened Dce
  import opened DceCorrect

  // ---- Noticing a local ----

  predicate Sets(ins: Instruction, l: Local) {
    match ins
    case Assign(d, _) => d == l
    case Phi(d, _) => d == l
    case Call(Some(d), _, _) => d == l
    case _ => false
  }

  /** Two outcomes are the same, except in what `l` holds if `kept`. */
  ghost predicate SameBut(l: Local, kept: bool, c: Config, d: Config) {
    match (c, d)
    case (Halted(o), Halted(p)) => o == p
    case (Running(x), Running(y)) =>
      y == x.(store := y.store) && forall k: Local :: k != l || !kept ==> Read(y.store, k) == Read(x.store, k)
    case _ => false
  }

  /** From `f` it matters to `ins` that `l` holds `v` instead: something else than an untouched `l` comes out other. */
  ghost predicate Tells(I: Interp, ins: Instruction, l: Local, f: Frame, v: Value) {
    !SameBut(l, !Sets(ins, l), ExecInstr(I, ins, f), ExecInstr(I, ins, f.(store := f.store[l := v])))
  }

  ghost predicate Notices(ins: Instruction, l: Local) {
    exists I, f, v :: Tells(I, ins, l, f, v)
  }

  ghost predicate EndTells(term: Option<Terminator>, l: Local, f: Frame, v: Value) {
    !SameBut(l, true, ExecTerm(term, f), ExecTerm(term, f.(store := f.store[l := v])))
  }

  ghost predicate EndNotices(term: Option<Terminator>, l: Local) {
    exists f, v :: EndTells(term, l, f, v)
  }

  /** A phi lists `l`, whether or not for a predecessor that an earlier entry already answers. */
  predicate Lists(ins: Instruction, l: Local) {
    ins.Phi? && exists i :: 0 <= i < |ins.entries| && ins.entries[i].1 == l
  }

  // ---- What is noticed is counted ----

  lemma {:induction false} OperandUnmoved(op: Operand, l: Local, store: Store, v: Value)
    requires l !in OperandUses(op)
    ensures OperandValue(store[l := v], op) == OperandValue(store, op)
  {
  }

  lemma {:induction false} OperandsUnmoved(ops: seq<Operand>, l: Local, store: Store, v: Value)
    requires l !in OperandsUse(ops)
    ensures OperandValues(store[l := v], ops) == OperandValues(store, ops)
  {
    forall i | 0 <= i < |ops|
      ensures OperandValue(store[l := v], ops[i]) == OperandValue(store, ops[i])
    {
      assert ops[i] in ops;
      OperandUnmoved(ops[i], l, store, v);
    }
  }

  lemma {:induction false} PhiUnmoved(entries: seq<(BlockId, Local)>, prev: Option<BlockId>, l: Local, store: Store,
      v: Value)
    requires forall e :: e in entries && prev == Some(e.0) ==> e.1 != l
    ensures PhiValue(store[l := v], prev, entries) == PhiValue(store, prev, entries)
    decreases |entries|
  {
    if entries != [] {
      assert entries[0] in entries;
      if prev != Some(entries[0].0) {
        PhiUnmoved(entries[1..], prev, l, store, v);
      }
    }
  }

  lemma {:induction false} RvalueUnmoved(I: Interp, rv: Rvalue, l: Local, store: Store, v: Value)
    requires rv.Ref? || l !in RvalueUses(rv)
    ensures RvalueValue(I, store[l := v], rv) == RvalueValue(I, store, rv)
  {
    hide OperandUses, OperandValue;
    match rv
    case Use(op) => OperandUnmoved(op, l, store, v);
    case Binary(_, x, y) =>
      OperandUnmoved(x, l, store, v);
      OperandUnmoved(y, l, store, v);
    case Unary(_, x) => OperandUnmoved(x, l, store, v);
    case Ref(_, _) =>
  }

  lemma {:induction false} UncountedUnnoticed(I: Interp, ins: Instruction, l: Local, f: Frame, v: Value)
    requires l !in InstrUses(ins) || IsBorrow(ins, l)
    ensures !Tells(I, ins, l, f, v)
  {
    match ins
    case Assign(d, rv) => RvalueUnmoved(I, rv, l, f.store, v);
    case Phi(d, entries) =>
      forall e | e in entries
        ensures e.1 != l
      {
        assert e.1 in InstrUses(ins);
      }
      PhiUnmoved(entries, f.prev, l, f.store, v);
    case Call(into, callee, args) => OperandsUnmoved(args, l, f.store, v);
    case Assert(op, _) => OperandUnmoved(op, l, f.store, v);
    case _ =>
  }

  lemma {:induction false} UncountedEnd(term: Option<Terminator>, l: Local, f: Frame, v: Value)
    requires l !in TermUses(term)
    ensures !EndTells(term, l, f, v)
  {
    match term
    case Some(Return(Some(op))) => OperandUnmoved(op, l, f.store, v);
    case Some(SwitchInt(op, _, _)) => OperandUnmoved(op, l, f.store, v);
    case _ =>
  }

  // ---- What is counted is noticed ----

  const BLANK := Frame(None, 0, 0, map[], [], [])

  function Marked(x: Value): Value {
    BoolVal(x == AddrOf(0))
  }

  // An interpretation under which operators tell whether they see the value `AddrOf(0)`, which is no constant.
  const SHARP := Interp(
    (op: BinOp, x: Value, y: Value) => BoolVal(x == AddrOf(0) || y == AddrOf(0)),
    (op: UnOp, x: Value) => Marked(x),
    (tr: seq<Event>, callee: string, vs: seq<Value>) => Undef)

  lemma {:induction false} OperandShows(op: Operand, l: Local, v: Value)
    requires v != Undef
    ensures l in OperandUses(op) ==>
              OperandValue(BLANK.store, op) == Undef && OperandValue(BLANK.store[l := v], op) == v
    ensures OperandValue(BLANK.store, op) != AddrOf(0)
  {
  }

  lemma {:induction false} AssignShows(ins: Instruction, l: Local)
    requires ins.Assign? && !ins.rv.Ref? && l in InstrUses(ins)
    ensures Tells(SHARP, ins, l, BLANK, AddrOf(0))
  {
    hide OperandUses, OperandValue;
    var v, g := AddrOf(0), BLANK.(store := BLANK.store[l := AddrOf(0)]);
    match ins.rv {
      case Use(op) => OperandShows(op, l, v);
      case Binary(_, x, y) =>
        OperandShows(x, l, v);
        OperandShows(y, l, v);
      case Unary(_, x) => OperandShows(x, l, v);
    }
    assert RvalueValue(SHARP, g.store, ins.rv) != RvalueValue(SHARP, BLANK.store, ins.rv);
    AssignTells(SHARP, ins, l, BLANK, v);
  }

  lemma {:induction false} AssignTells(I: Interp, ins: Instruction, l: Local, f: Frame, v: Value)
    requires ins.Assign? && RvalueValue(I, f.store[l := v], ins.rv) != RvalueValue(I, f.store, ins.rv)
    ensures Tells(I, ins, l, f, v)
  {
    hide RvalueValue;
    var g := f.(store := f.store[l := v]);
    assert Read(ExecInstr(I, ins, f).frame.store, ins.dest) == RvalueValue(I, f.store, ins.rv);
    assert Read(ExecInstr(I, ins, g).frame.store, ins.dest) == RvalueValue(I, g.store, ins.rv);
  }

  lemma {:induction false} PhiReads(store: Store, entries: seq<(BlockId, Local)>, i: nat)
    requires i < |entries| && forall j :: 0 <= j < i ==> entries[j].0 != entries[i].0
    ensures PhiValue(store, Some(entries[i].0), entries) == Read(store, entries[i].1)
    decreases i
  {
    if i > 0 {
      assert entries[0].0 != entries[i].0;
      PhiReads(store, entries[1..], i - 1);
    }
  }

  /** A phi notices the first entry for a predecessor. */
  lemma {:induction false} PhiShows(ins: Instruction, i: nat)
    requires ins.Phi? && i < |ins.entries| && forall j :: 0 <= j < i ==> ins.entries[j].0 != ins.entries[i].0
    ensures Notices(ins, ins.entries[i].1)
  {
    hide PhiValue;
    var l, f, v := ins.entries[i].1, BLANK.(prev := Some(ins.entries[i].0)), AddrOf(0);
    var g := f.(store := f.store[l := v]);
    PhiReads(f.store, ins.entries, i);
    PhiReads(g.store, ins.entries, i);
    assert Read(ExecInstr(SHARP, ins, f).frame.store, ins.dest) == Undef;
    assert Read(ExecInstr(SHARP, ins, g).frame.store, ins.dest) == v;
    assert Tells(SHARP, ins, l, f, v);
  }

  lemma {:induction false} CallShows(ins: Instruction, l: Local)
    requires ins.Call? && l in InstrUses(ins)
    ensures Tells(SHARP, ins, l, BLANK, AddrOf(0))
  {
    var op :| op in ins.args && l in OperandUses(op);
    var k :| 0 <= k < |ins.args| && ins.args[k] == op;
    OperandShows(op, l, AddrOf(0));
    var g := BLANK.(store := BLANK.store[l := AddrOf(0)]);
    var vs, ws := OperandValues(BLANK.store, ins.args), OperandValues(g.store, ins.args);
    assert vs[k] != ws[k];
    assert ExecInstr(SHARP, ins, BLANK).frame.trace == [Called(ins.callee, vs)];
    assert ExecInstr(SHARP, ins, g).frame.trace == [Called(ins.callee, ws)];
    assert Called(ins.callee, vs) != Called(ins.callee, ws);
  }

  // ---- The counts, exactly ----

  /**
   The counted uses of an instruction are the locals it can notice, and besides a borrowed local, whose value it does
   not look at, and the local of a phi entry behind an earlier one for the same predecessor.
   */
  lemma {:induction false} UsedIffNoticed(ins: Instruction, l: Local)
    ensures l in InstrUses(ins) <==> Notices(ins, l) || IsBorrow(ins, l) || Lists(ins, l)
    ensures IsBorrow(ins, l) ==> !Notices(ins, l)
    ensures Lists(ins, l) ==> (Notices(ins, l) <==> FirstEntry(ins.entries, l))
  {
    if ins.Phi? {
      PhiCounts(ins, l);
      PhiNotices(ins, l);
    } else if l !in InstrUses(ins) || IsBorrow(ins, l) {
      forall I, f, v
        ensures !Tells(I, ins, l, f, v)
      {
        UncountedUnnoticed(I, ins, l, f, v);
      }
    } else {
      match ins
      case Assign(_, _) => AssignShows(ins, l);
      case Call(_, _, _) => CallShows(ins, l);
      case Assert(op, _) =>
        OperandShows(op, l, BoolVal(true));
        assert Tells(SHARP, ins, l, BLANK, BoolVal(true));
    }
  }

  /** `l` is in the first entry of some predecessor. */
  ghost predicate FirstEntry(entries: seq<(BlockId, Local)>, l: Local) {
    exists i :: 0 <= i < |entries| && entries[i].1 == l && forall j :: 0 <= j < i ==> entries[j].0 != entries[i].0
  }

  lemma {:induction false} PhiCounts(ins: Instruction, l: Local)
    requires ins.Phi?
    ensures l in InstrUses(ins) <==> Lists(ins, l)
  {
    if l in InstrUses(ins) {
      var e :| e in ins.entries && e.1 == l;
      var i :| 0 <= i < |ins.entries| && ins.entries[i] == e;
    }
    if Lists(ins, l) {
      var i :| 0 <= i < |ins.entries| && ins.entries[i].1 == l;
      assert ins.entries[i] in ins.entries;
    }
  }

  lemma {:induction false} PhiNotices(ins: Instruction, l: Local)
    requires ins.Phi?
    ensures Notices(ins, l) <==> FirstEntry(ins.entries, l)
  {
    if FirstEntry(ins.entries, l) {
      var i :| 0 <= i < |ins.entries| && ins.entries[i].1 == l
               && forall j :: 0 <= j < i ==> ins.entries[j].0 != ins.entries[i].0;
      PhiShows(ins, i);
    } else {
      forall I, f, v
        ensures !Tells(I, ins, l, f, v)
      {
        PhiMisses(ins.entries, f.prev, l, f.store, v);
      }
    }
  }

  lemma {:induction false} PhiMisses(entries: seq<(BlockId, Local)>, prev: Option<BlockId>, l: Local, store: Store,
      v: Value)
    requires !FirstEntry(entries, l)
    ensures PhiValue(store[l := v], prev, entries) == PhiValue(store, prev, entries)
  {
    if i: nat :| i < |entries| && prev == Some(entries[i].0) {
      var k := FirstFor(entries, i);
      PhiReads(store, entries, k);
      PhiReads(store[l := v], entries, k);
    } else {
      forall e | e in entries
        ensures prev != Some(e.0)
      {
        var k :| 0 <= k < |entries| && entries[k] == e;
      }
      PhiUnmoved(entries, prev, l, store, v);
    }
  }

  lemma {:induction false} FirstFor(entries: seq<(BlockId, Local)>, i: nat) returns (k: nat)
    requires i < |entries|
    ensures k <= i && entries[k].0 == entries[i].0 && forall j :: 0 <= j < k ==> entries[j].0 != entries[k].0
    decreases i
  {
    if j: nat :| j < i && entries[j].0 == entries[i].0 {
      k := FirstFor(entries, j);
    } else {
      k := i;
    }
  }

  lemma {:induction false} EndShows(term: Option<Terminator>, l: Local)
    requires l in TermUses(term)
    ensures EndTells(term, l, BLANK, BoolVal(true))
  {
    hide OperandUses, OperandValue, SwitchTarget;
    var v, g := BoolVal(true), BLANK.(store := BLANK.store[l := BoolVal(true)]);
    match term.value
    case Return(Some(op)) =>
      OperandShows(op, l, v);
      assert ExecTerm(term, g).result.status == DidReturn(Some(v));
    case SwitchInt(op, _, _) =>
      OperandShows(op, l, v);
      assert ExecTerm(term, g).frame.trace[0] == Switched(1);
      assert ExecTerm(term, BLANK).frame.trace[0] == Switched(0);
  }

  /** The counted uses of a terminator are the locals it can notice. */
  lemma {:induction false} EndUsedIffNoticed(term: Option<Terminator>, l: Local)
    ensures l in TermUses(term) <==> EndNotices(term, l)
  {
    if l !in TermUses(term) {
      forall f, v
        ensures !EndTells(term, l, f, v)
      {
        UncountedEnd(term, l, f, v);
      }
    } else {
      EndShows(term, l);
    }
  }

  // ---- Bodies ----

  ghost predicate Observes(ins: Instruction, l: Local) {
    Notices(ins, l) || IsBorrow(ins, l) || Lists(ins, l)
  }

  /** Something in the blocks notices, borrows or lists `l`. */
  ghost predicate Observed(blocks: seq<BasicBlock>, l: Local) {
    exists b :: 0 <= b < |blocks| && (ObservedIn(blocks[b].instrs, l) || EndNotices(blocks[b].term, l))
  }

  ghost predicate ObservedIn(instrs: seq<Instruction>, l: Local) {
    exists i :: 0 <= i < |instrs| && Observes(instrs[i], l)
  }

  lemma {:induction false} UsedIffObserved(blocks: seq<BasicBlock>, l: Local)
    ensures l in UsedLocals(blocks) <==> Observed(blocks, l)
  {
    hide InstrUses, TermUses, Notices, EndNotices, IsBorrow, Lists;
    if l in UsedLocals(blocks) {
      var x :| x in blocks && l in BlockUses(x);
      var b :| 0 <= b < |blocks| && blocks[b] == x;
      EndUsedIffNoticed(x.term, l);
      if l !in TermUses(x.term) {
        var ins :| ins in x.instrs && l in InstrUses(ins);
        var i :| 0 <= i < |x.instrs| && x.instrs[i] == ins;
        UsedIffNoticed(ins, l);
        assert ObservedIn(blocks[b].instrs, l);
      }
    }
    if Observed(blocks, l) {
      var b :| 0 <= b < |blocks| && (ObservedIn(blocks[b].instrs, l) || EndNotices(blocks[b].term, l));
      EndUsedIffNoticed(blocks[b].term, l);
      assert blocks[b] in blocks;
      if ObservedIn(blocks[b].instrs, l) {
        var i :| 0 <= i < |blocks[b].instrs| && Observes(blocks[b].instrs[i], l);
        UsedIffNoticed(blocks[b].instrs[i], l);
        assert blocks[b].instrs[i] in blocks[b].instrs;
      }
      assert l in BlockUses(blocks[b]);
    }
  }

  /**
   What sweeping leaves: a local that an assignment or phi writes is noticed, borrowed or listed by something left;
   and sweeping again would remove nothing.
   */
  lemma {:induction false} NothingUnnoticedIsLeft(blocks: seq<BasicBlock>, b: BlockId, i: nat)
    requires b < |blocks| && i < |SweepAll(blocks)[b].instrs|
    ensures var ins := SweepAll(blocks)[b].instrs[i];
      && (ins.Assign? ==> Observed(SweepAll(blocks), ins.dest))
      && (ins.Phi? ==> Observed(SweepAll(blocks), ins.dest))
  {
    hide SweepAll, UsedLocals, Observed, SweepRound;
    SweepReachesFixpoint(blocks);
    var ins := SweepAll(blocks)[b].instrs[i];
    if ins.Assign? {
      UsedIffObserved(SweepAll(blocks), ins.dest);
    } else if ins.Phi? {
      UsedIffObserved(SweepAll(blocks), ins.dest);
    }
  }

  /**
   Sweeping removes no more: locals that are all observed in what is left when every assignment and phi to other
   locals is dropped are still observed after sweeping.
   */
  lemma {:induction false} SupportedSurvive(blocks: seq<BasicBlock>, w: set<Local>, l: Local)
    requires forall k :: k in w ==> Observed(SweepBlocks(w, blocks), k)
    requires l in w
    ensures Observed(SweepAll(blocks), l)
  {
    hide SweepAll, UsedLocals, Observed, SweepBlocks;
    forall k | k in w
      ensures k in UsedLocals(SweepBlocks(w, blocks))
    {
      UsedIffObserved(SweepBlocks(w, blocks), k);
    }
    SweepAllIsGreatest(blocks, w);
    UsedIffObserved(SweepAll(blocks), l);
  }
}
