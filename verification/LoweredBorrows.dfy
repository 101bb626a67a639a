/**
 The borrow check on lowered code.  Lowering makes no references, so nothing is ever borrowed, and only
 initialisation and copying are left to check; and it moves only temporaries, each for the last time.
 */
module LoweredBorrows {
  import opened Common
  import opened Mir
  import opened Hir
  import opened LowerSpec
  import opened Fragment
  import opened LowerShape
  import opened LowerPlain
  import opened LowerMoves
  import opened LowerTidy
  import opened Liveness
  import opened Borrow
  import opened BorrowCheck
  import opened BorrowPaths

  // ---- Any forge: slots exist, and there are no references ----

  predicate PlainEvent(locals: seq<LocalData>, e: Event) {
    InRange(locals, e) && !e.Borrow?
  }

  ghost predicate PlainEvents(locals: seq<LocalData>, evs: seq<Event>) {
    forall e :: e in evs ==> PlainEvent(locals, e)
  }

  lemma {:induction false} ReadsPlain(locals: seq<LocalData>, ops: seq<Operand>, n: BlockId)
    requires PlainOperands(|locals|, ops)
    ensures PlainEvents(locals, Reads(ops, n))
  {
    forall e | e in Reads(ops, n)
      ensures PlainEvent(locals, e)
    {
      var i :| 0 <= i < |ops| && Reads(ops, n)[i] == e;
      assert ops[i] in ops;
    }
  }

  lemma {:induction false} InstrPlain(locals: seq<LocalData>, ins: Instruction, n: BlockId)
    requires PlainInstr(|locals|, ins)
    ensures PlainEvents(locals, InstrEvents(ins, n))
  {
    if ins.Call? {
      ReadsPlain(locals, ins.args, n);
    }
  }

  lemma {:induction false} InstrsPlain(locals: seq<LocalData>, instrs: seq<Instruction>, n: BlockId)
    requires forall ins :: ins in instrs ==> PlainInstr(|locals|, ins)
    ensures PlainEvents(locals, InstrsEvents(instrs, n))
    decreases |instrs|
  {
    hide PlainInstr, PlainEvent, InstrEvents;
    if instrs != [] {
      InstrsPlain(locals, instrs[..|instrs| - 1], n);
      InstrPlain(locals, instrs[|instrs| - 1], n);
    }
  }

  lemma {:induction false} BlocksPlain(locals: seq<LocalData>, blocks: seq<BasicBlock>, k: nat)
    requires PlainBlocks(|locals|, blocks) && k <= |blocks|
    ensures PlainEvents(locals, EventsUpTo(blocks, k))
    decreases k
  {
    hide PlainInstr, InstrsEvents;
    if k > 0 {
      BlocksPlain(locals, blocks, k - 1);
      assert PlainBlock(|locals|, blocks[k - 1]);
      InstrsPlain(locals, blocks[k - 1].instrs, k - 1);
    }
  }

  /** Whatever the forge, every slot its lowered code mentions exists: the checker may be called. */
  lemma {:induction false} LoweredInRange(check: bool, f: Forge)
    requires ReturnNestAll(f.ensures_) == 0
    ensures AllInRange(LowerForge(check, f))
  {
    hide LowerForge, EventsUpTo;
    PlainForge(check, f);
    var body := LowerForge(check, f);
    BlocksPlain(body.locals, body.blocks, |body.blocks|);
  }

  /** And nothing in it is ever borrowed. */
  lemma {:induction false} NothingBorrowed(check: bool, f: Forge, x: Local, n: BlockId)
    requires ReturnNestAll(f.ensures_) == 0
    ensures !BorrowedAt(LowerForge(check, f), x, n)
  {
    hide LowerForge, PlainBlocks, BorrowSite, Held;
    PlainForge(check, f);
    var body := LowerForge(check, f);
    forall s: Site
      ensures !BorrowSite(body, s, x)
    {
      NoSite(body, s, x);
    }
  }

  lemma {:induction false} NoSite(body: MirBody, s: Site, x: Local)
    requires PlainBlocks(|body.locals|, body.blocks)
    ensures !BorrowSite(body, s, x)
  {
    if s.block < |body.blocks| && s.index < |body.blocks[s.block].instrs| {
      assert PlainBlock(|body.locals|, body.blocks[s.block]);
      assert body.blocks[s.block].instrs[s.index] in body.blocks[s.block].instrs;
    }
  }

  /** What is left of the rules: what is read is owned, and what is copied may be. */
  ghost predicate OwnedReads(body: MirBody, evs: seq<Event>) {
    forall i, l: Local :: 0 <= i < |evs| && Looks(evs[i], l) ==>
      Owned(body, evs[..i], l)
      && (evs[i].Read? && evs[i].op == Copy(l) ==> l < |body.locals| && IsTypeCopyable(body.locals[l].ty))
  }

  /** So the check accepts a lowered forge exactly if, in block order, it reads what it owns and copies what may be. */
  lemma {:induction false} AcceptedLoweredIff(check: bool, f: Forge)
    requires ReturnNestAll(f.ensures_) == 0
    ensures var body := LowerForge(check, f);
      Accepted(body) <==> OwnedReads(body, EventsUpTo(body.blocks, |body.blocks|))
  {
    hide LowerForge, EventsUpTo, BorrowSite, Held;
    var body := LowerForge(check, f);
    var evs := EventsUpTo(body.blocks, |body.blocks|);
    NeverBorrowed(check, f);
    forall i | 0 <= i < |evs|
      ensures Allowed(body, evs[..i], evs[i]) <==>
              forall l: Local :: Looks(evs[i], l) ==>
                Owned(body, evs[..i], l)
                && (evs[i].Read? && evs[i].op == Copy(l) ==> l < |body.locals| && IsTypeCopyable(body.locals[l].ty))
    {
      AllowedIs(body, evs[..i], evs[i]);
    }
  }

  ghost predicate NoBorrows(body: MirBody) {
    forall x: Local, n: BlockId :: !BorrowedAt(body, x, n)
  }

  lemma {:induction false} NeverBorrowed(check: bool, f: Forge)
    requires ReturnNestAll(f.ensures_) == 0
    ensures var body := LowerForge(check, f);
      NoBorrows(body) && forall n :: 0 <= n < |body.blocks| ==> Exclusive(body, n)
  {
    hide LowerForge, BorrowSite, Held;
    var body := LowerForge(check, f);
    forall x: Local, n: BlockId
      ensures !BorrowedAt(body, x, n)
    {
      NothingBorrowed(check, f, x, n);
    }
    forall n, x, s, t
      ensures !BothHeld(body, s, t, x, n)
    {
      if BothHeld(body, s, t, x, n) {
        HeldIsBorrowed(body, s, t, x, n);
        assert false;
      }
    }
  }

  lemma {:induction false} HeldIsBorrowed(body: MirBody, s: Site, t: Site, x: Local, n: BlockId)
    requires BothHeld(body, s, t, x, n)
    ensures BorrowedAt(body, x, n)
  {
  }

  lemma {:induction false} AllowedIs(body: MirBody, before: seq<Event>, e: Event)
    requires NoBorrows(body)
    ensures Allowed(body, before, e) <==>
            forall l: Local :: Looks(e, l) ==>
              Owned(body, before, l)
              && (e.Read? && e.op == Copy(l) ==> l < |body.locals| && IsTypeCopyable(body.locals[l].ty))
  {
    hide Owned, IsTypeCopyable, AllocatedIn;
    match e
    case Read(Copy(l), _) => assert Looks(e, l);
    case Read(Move(l), _) => assert Looks(e, l);
    case Borrow(l) => assert Looks(e, l);
    case _ =>
  }

  // ---- Shaped forges: moves are final ----

  // Where a path first comes inside a fence it passes the block that guards it.
  lemma {:induction false} Crosses(s: State, b: BlockId, lo: nat, hi: nat, n: BlockId, p: seq<BlockId>, l: Local)
    requires Fence(s, b, lo, hi, n) && LivePath(s.body, p, l) && p[|p| - 1] == n && !(lo <= p[0] < hi)
    ensures b < |s.body.blocks| && l !in BlockDefs(s.body.blocks[b])
    decreases |p|
  {
    hide BlockDefs, BlockExposed;
    assert |p| > 1;
    if lo <= p[1] < hi {
      assert p[1] in Successors(s.body.edges, p[0]);
      var e :| e in s.body.edges && e.src == p[0] && e.dst == p[1];
      assert p[0] == b;
    } else {
      var q := p[1..];
      forall i | 0 <= i < |q| - 1
        ensures q[i + 1] in Successors(s.body.edges, q[i]) && l !in BlockDefs(s.body.blocks[q[i]])
      {
        assert q[i] == p[i + 1] && q[i + 1] == p[i + 1 + 1];
      }
      assert LivePath(s.body, q, l);
      Crosses(s, b, lo, hi, n, q, l);
    }
  }

  lemma {:induction false} NoLaterLook(s: State, n: BlockId, j: nat, l: Local)
    requires At(s, n, j) && OnlyLook(s, n, j, l)
    ensures !Exposed(Evs(s, n)[j + 1..], l)
  {
    hide Evs, Looks;
    var rest := Evs(s, n)[j + 1..];
    forall k: nat | k < |rest|
      ensures !Looks(rest[k], l)
    {
      assert At(s, n, j + 1 + k) && rest[k] == Evs(s, n)[j + 1 + k];
    }
  }

  lemma {:induction false} MoveIsFinal(s: State, base: nat, g: Gap, n: BlockId, j: nat, l: Local)
    requires MoveOk(s, base, g, n, j, l) && Evs(s, n)[j] == Read(Move(l), n)
    ensures !MovedThenRead(s.body, n, j, l)
  {
    hide Looks, BlockEvents, Successors, BlockDefs, BlockExposed;
    NoLaterLook(s, n, j, l);
    if LiveOut(s.body, n, l) {
      var t :| t in Successors(s.body.edges, n) && LiveIn(s.body, t, l);
      var p :| LivePath(s.body, p, l) && p[0] == t;
      var last := p[|p| - 1];
      BlockIs(s.body.blocks[last], last, l);
      var k: nat :| ExposedBy(Evs(s, last), l, k);
      assert At(s, last, k);
      var b: BlockId, lo: nat, hi: nat :| SetOutside(s, base, g, b, lo, hi, n, l);
      SuccessorEdge(s.body.edges, n, t);
      Crosses(s, b, lo, hi, n, p, l);
      BlockIs(s.body.blocks[b], b, l);
      assert false;
    }
  }

  lemma {:induction false} SuccessorEdge(edges: seq<Edge>, n: BlockId, t: BlockId)
    requires t in Successors(edges, n)
    ensures exists e :: e in edges && e.src == n && e.dst == t
  {
  }

  /** In lowered code with nothing behind a return, what a move takes is never looked at again before it is set. */
  lemma {:induction false} LoweredMovesFinal(check: bool, f: Forge)
    requires ShapedForge(ForgeMode(check, f, true), f)
    ensures MovesFinal(LowerForge(check, f))
  {
    hide Ready, Tidy, MovedThenRead, StartForge, LowerBlock, ShapedBlock;
    var m := ForgeMode(check, f, true);
    var s := StartForge(check, f);
    ForgeModeOf(check, f, true);
    StartReady(m, f);
    StartKempt(s);
    TidyRefl(s);
    var s1 := LowerBody(s, f.body);
    if f.body.Some? {
      TidyBlock(m, s, f.body.value);
    }
    TidyKempt(s, s1, NoGap(s));
    var s2 := FinishForge(s1);
    if s1.Cur().term.None? {
      EndTidy(s1, Return(None));
      TidyTrans(s, s1, s2, NoGap(s));
    }
    AllFinal(s, s2);
  }

  lemma {:induction false} StartKempt(s: State)
    requires s.body.blocks == [BasicBlock([], Some(Goto(1))), EMPTY_BLOCK]
    ensures Kempt(s) && forall n: BlockId, j: nat :: !At(s, n, j)
  {
    forall n: BlockId | n < s.Size()
      ensures Evs(s, n) == []
    {
    }
  }

  lemma {:induction false} AllFinal(s: State, s': State)
    requires Tidy(s, s', NoGap(s)) && forall n: BlockId, j: nat :: !At(s, n, j)
    ensures MovesFinal(s'.body)
  {
    hide Evs, MoveOk, MovedThenRead, Framed, EvsKept, NewLooks, Kempt, Reachable;
    forall n: BlockId, j: nat, l: Local | n < |s'.body.blocks|
      ensures !MovedThenRead(s'.body, n, j, l)
    {
      if MovedThenRead(s'.body, n, j, l) {
        MovedIs(s', n, j, l);
        assert !At(s, n, j);
        MoveIsFinal(s', s.Size(), NoGap(s), n, j, l);
      }
    }
  }

  lemma {:induction false} MovedIs(s: State, n: BlockId, j: nat, l: Local)
    requires n < s.Size() && MovedThenRead(s.body, n, j, l)
    ensures At(s, n, j) && Evs(s, n)[j] == Read(Move(l), n)
  {
    hide Exposed;
    ReadsHere(s.body.blocks[n].instrs, n);
    assert Evs(s, n)[j] in Evs(s, n);
  }

  predicate HereOnly(evs: seq<Event>, n: BlockId) {
    forall e :: e in evs ==> (e.Read? ==> e.at == n)
  }

  lemma {:induction false} ReadsHere(instrs: seq<Instruction>, n: BlockId)
    ensures HereOnly(InstrsEvents(instrs, n), n)
    decreases |instrs|
  {
    if instrs != [] {
      ReadsHere(instrs[..|instrs| - 1], n);
    }
  }

  /**
   So an accepted lowered forge keeps the ownership rules along every path if and only if no variable but a
   parameter is live at the entry.
   */
  lemma {:induction false} LoweredSafeIff(check: bool, f: Forge)
    requires ShapedForge(ForgeMode(check, f, true), f) && Accepted(LowerForge(check, f))
    ensures AllowedOnAllPaths(LowerForge(check, f)) <==> EntryDefined(LowerForge(check, f))
  {
    hide LowerForge, Accepted, AllowedOnAllPaths, EntryDefined, MovesFinal;
    LoweredMovesFinal(check, f);
    AcceptedOnAllPathsIff(LowerForge(check, f));
  }
}
