/**
 Temporaries in lowered code.  Only temporaries are moved; each is looked at once at most, and every way back to
 that look leads through its definition.  So no move in lowered code is ever followed by a use of what it moved.
 */
module LowerMoves {
  import opened Common
  import opened Mir
  import opened Hir
  import opened LowerSpec
  import opened Fragment
  import opened LowerShape
  import opened BorrowCheck
  import opened BorrowPaths

  // ---- Moves ----

  function Evs(s: State, n: BlockId): seq<Event>
    requires n < s.Size()
  {
    BlockEvents(s.body.blocks[n], n)
  }

  ghost predicate At(s: State, n: BlockId, j: nat) {
    n < s.Size() && j < |Evs(s, n)|
  }

  /** Event `j` of block `n` is the only one that looks at `l`. */
  ghost predicate OnlyLook(s: State, n: BlockId, j: nat, l: Local) {
    forall n': BlockId, j': nat :: At(s, n', j') && Looks(Evs(s, n')[j'], l) ==> n' == n && j' == j
  }

  /** Blocks `lo` to `hi` are entered from block `b` and one another only, and `n` among them leads to none of them. */
  ghost predicate Fence(s: State, b: BlockId, lo: nat, hi: nat, n: BlockId) {
    && b < lo <= n < hi <= s.Size()
    && forall e :: e in s.body.edges && lo <= e.dst < hi ==> (e.src == b || lo <= e.src < hi) && e.src != n
  }

  // New blocks to which jumps may still be added: no fence contains them.
  datatype Gap = Gap(lo: nat, hi: nat)

  /** `l` is set in a block that guards every way into the blocks of a fence around `n`. */
  ghost predicate SetOutside(s: State, base: nat, g: Gap, b: BlockId, lo: nat, hi: nat, n: BlockId, l: Local) {
    base <= lo && (hi <= g.lo || g.hi <= lo) && Fence(s, b, lo, hi, n) && Define(l) in Evs(s, b)
  }

  /** Event `j` of block `n` may move `l`: nothing else looks at `l`, and it is set on every way back there. */
  ghost predicate MoveOk(s: State, base: nat, g: Gap, n: BlockId, j: nat, l: Local) {
    && At(s, n, j) && OnlyLook(s, n, j, l)
    && (Define(l) in Evs(s, n)[..j] || exists b: BlockId, lo: nat, hi: nat :: SetOutside(s, base, g, b, lo, hi, n, l))
  }

  // ---- What one step of lowering keeps ----

  ghost predicate InVars(s: State, l: Local) {
    exists v :: v in s.vars && s.vars[v] == l
  }

  /** Looks are at slots that exist, and no variable's slot is moved. */
  ghost predicate Kempt(s: State) {
    forall n: BlockId, j: nat, l: Local :: KemptAt(s, n, j, l)
  }

  ghost predicate KemptAt(s: State, n: BlockId, j: nat, l: Local) {
    At(s, n, j) && Looks(Evs(s, n)[j], l) ==>
      l < |s.body.locals| && (Evs(s, n)[j] == Read(Move(l), n) ==> !InVars(s, l))
  }

  /** New edges lead from the current block or new blocks to new blocks or the header. */
  ghost predicate NewEdges(a: State, s: State) {
    && a.body.edges <= s.body.edges
    && forall i :: |a.body.edges| <= i < |s.body.edges| ==>
         var e := s.body.edges[i];
         (e.src == a.cur || e.src >= a.Size()) && (e.dst >= a.Size() || e.dst == a.header)
  }

  ghost predicate Framed(a: State, s: State) {
    && s.Size() >= a.Size() && |s.body.locals| >= |a.body.locals|
    && (s.cur == a.cur || s.cur >= a.Size()) && s.header == a.header
    && NewEdges(a, s)
    && (forall v :: v in s.vars ==> s.vars[v] >= |a.body.locals| || InVars(a, s.vars[v]))
  }

  ghost predicate EvsKept(a: State, s: State) {
    a.Size() <= s.Size() && forall n: BlockId :: n < a.Size() ==> Evs(a, n) <= Evs(s, n)
  }

  /** New looks are at new slots, or copies of variables. */
  ghost predicate NewLooks(a: State, s: State) {
    forall n: BlockId, j: nat, l: Local :: At(s, n, j) && !At(a, n, j) && Looks(Evs(s, n)[j], l) ==>
      l >= |a.body.locals| || (Evs(s, n)[j] == Read(Copy(l), n) && InVars(a, l))
  }

  ghost predicate NewMoves(a: State, s: State, g: Gap) {
    forall n: BlockId, j: nat, l: Local :: At(s, n, j) && !At(a, n, j) && Evs(s, n)[j] == Read(Move(l), n) ==>
      MoveOk(s, a.Size(), g, n, j, l)
  }

  ghost predicate Tidy(a: State, s: State, g: Gap) {
    Framed(a, s) && EvsKept(a, s) && NewLooks(a, s) && NewMoves(a, s, g) && Kempt(s) && a.Size() <= g.lo <= g.hi
  }

  function NoGap(a: State): Gap {
    Gap(a.Size(), a.Size())
  }

  /** An operand computed since `a` and not used yet: a constant, a variable, or a temporary that is set. */
  ghost predicate Pending(a: State, s: State, op: Operand) {
    match op
    case Const(_) => true
    case Copy(l) => l < |s.body.locals| && NotMoved(s, l) && (l >= |a.body.locals| || InVars(a, l))
    case Move(l) => |a.body.locals| <= l < |s.body.locals| && NotLooked(s, l) && !InVars(s, l) && Placed(a, s, l)
  }

  ghost predicate NotMoved(s: State, l: Local) {
    forall n: BlockId, j: nat :: At(s, n, j) ==> Evs(s, n)[j] != Read(Move(l), n)
  }

  ghost predicate NotLooked(s: State, l: Local) {
    forall n: BlockId, j: nat :: At(s, n, j) ==> !Looks(Evs(s, n)[j], l)
  }

  /** `l` is set in the current block, or in one that guards every way into the current block and others made since. */
  ghost predicate Placed(a: State, s: State, l: Local) {
    Define(l) in Evs(s, s.cur) || exists b: BlockId, lo: nat :: PlacedIn(a, s, b, lo, l)
  }

  ghost predicate PlacedIn(a: State, s: State, b: BlockId, lo: nat, l: Local) {
    && b < lo <= s.cur && a.Size() <= lo && Define(l) in Evs(s, b)
    && forall e :: e in s.body.edges && e.dst >= lo ==> e.src == b || e.src >= lo
  }

  predicate Apart(x: Operand, y: Operand) {
    x.Const? || y.Const? || (x.Copy? && y.Copy?) || x.local != y.local
  }

  ghost predicate AllPending(a: State, s: State, ops: seq<Operand>) {
    && (forall i :: 0 <= i < |ops| ==> Pending(a, s, ops[i]))
    && (forall i, j :: 0 <= i < j < |ops| ==> Apart(ops[i], ops[j]))
  }

  function RvOperands(rv: Rvalue): seq<Operand> {
    match rv
    case Use(op) => [op]
    case Binary(_, l, r) => [l, r]
    case Unary(_, x) => [x]
    case Ref(_, _) => []
  }

  ghost predicate PendingRv(a: State, s: State, rv: Rvalue) {
    !rv.Ref? && AllPending(a, s, RvOperands(rv))
  }

  /** The current block has no end and leads nowhere, and all edges are between blocks. */
  ghost predicate OpenEnd(s: State) {
    && s.Cur().term.None?
    && forall e :: e in s.body.edges ==> e.src < s.Size() && e.dst < s.Size() && e.src != s.cur
  }

  lemma {:induction false} ReadyOpen(m: Mode, s: State)
    requires Ready(m, s)
    ensures OpenEnd(s)
  {
    forall e | e in s.body.edges
      ensures e.src < s.Size() && e.dst < s.Size() && e.src != s.cur
    {
      assert CoherentAt(s.body, e.src);
      assert e.dst in Successors(s.body.edges, e.src);
    }
  }

  // ---- Composition ----

  lemma {:induction false} TidyRefl(s: State)
    requires Kempt(s)
    ensures Tidy(s, s, NoGap(s))
  {
  }

  lemma {:induction false} TidyKempt(a: State, s: State, g: Gap)
    requires Tidy(a, s, g)
    ensures Kempt(s) && a.Size() <= s.Size() && |a.body.locals| <= |s.body.locals| && s.header == a.header
  {
  }

  lemma {:induction false} FramedTrans(a: State, b: State, c: State)
    requires Framed(a, b) && Framed(b, c)
    ensures Framed(a, c)
  {
    hide InVars;
    forall i | |a.body.edges| <= i < |c.body.edges|
      ensures var e := c.body.edges[i];
        (e.src == a.cur || e.src >= a.Size()) && (e.dst >= a.Size() || e.dst == a.header)
    {
      if i < |b.body.edges| {
        assert c.body.edges[i] == b.body.edges[i];
      }
    }
    forall v | v in c.vars
      ensures c.vars[v] >= |a.body.locals| || InVars(a, c.vars[v])
    {
      FramedVars(a, b, c.vars[v]);
    }
  }

  lemma {:induction false} FramedVars(a: State, b: State, l: Local)
    requires Framed(a, b) && (l >= |b.body.locals| || InVars(b, l))
    ensures l >= |a.body.locals| || InVars(a, l)
  {
  }

  // What was there before is still there.
  lemma {:induction false} StillAt(a: State, s: State, n: BlockId, j: nat)
    requires EvsKept(a, s) && At(a, n, j)
    ensures At(s, n, j) && Evs(s, n)[j] == Evs(a, n)[j] && Evs(s, n)[..j] == Evs(a, n)[..j]
  {
    assert Evs(a, n) <= Evs(s, n);
  }

  /** A move that is right stays right. */
  lemma {:induction false} MoveStays(b: State, c: State, base: nat, g: Gap, n: BlockId, j: nat, l: Local)
    requires MoveOk(b, base, g, n, j, l) && Kempt(b) && Framed(b, c) && EvsKept(b, c) && NewLooks(b, c)
    requires Evs(b, n)[j] == Read(Move(l), n) && base > b.header
    ensures MoveOk(c, base, g, n, j, l)
  {
    hide InVars, Evs, Looks;
    StillAt(b, c, n, j);
    MovesLook(n, l);
    assert KemptAt(b, n, j, l);
    forall n': BlockId, j': nat | At(c, n', j') && Looks(Evs(c, n')[j'], l)
      ensures n' == n && j' == j
    {
      if At(b, n', j') {
        StillAt(b, c, n', j');
      }
    }
    if Define(l) !in Evs(b, n)[..j] {
      var d: BlockId, lo: nat, hi: nat :| SetOutside(b, base, g, d, lo, hi, n, l);
      FenceStays(b, c, d, lo, hi, n);
      assert Evs(b, d) <= Evs(c, d);
      assert SetOutside(c, base, g, d, lo, hi, n, l);
    }
  }

  lemma {:induction false} MovesLook(n: BlockId, l: Local)
    ensures Looks(Read(Move(l), n), l) && Looks(Read(Copy(l), n), l)
  {
  }

  lemma {:induction false} FenceStays(b: State, c: State, d: BlockId, lo: nat, hi: nat, n: BlockId)
    requires Fence(b, d, lo, hi, n) && Framed(b, c) && lo > b.header
    ensures Fence(c, d, lo, hi, n)
  {
    forall e | e in c.body.edges && lo <= e.dst < hi
      ensures (e.src == d || lo <= e.src < hi) && e.src != n
    {
      var i :| 0 <= i < |c.body.edges| && c.body.edges[i] == e;
      if i < |b.body.edges| {
        assert b.body.edges[i] == e;
        assert e in b.body.edges;
      }
    }
  }

  lemma {:induction false} EvsTrans(a: State, b: State, c: State)
    requires EvsKept(a, b) && EvsKept(b, c)
    ensures EvsKept(a, c)
  {
    forall n: BlockId | n < a.Size()
      ensures Evs(a, n) <= Evs(c, n)
    {
      assert Evs(a, n) <= Evs(b, n) <= Evs(c, n);
    }
  }

  lemma {:induction false} LooksTrans(a: State, b: State, c: State)
    requires Framed(a, b) && EvsKept(b, c) && NewLooks(a, b) && NewLooks(b, c) && |b.body.locals| >= |a.body.locals|
    ensures NewLooks(a, c)
  {
    hide InVars, Evs, Looks;
    forall n: BlockId, j: nat, l: Local | At(c, n, j) && !At(a, n, j) && Looks(Evs(c, n)[j], l)
      ensures l >= |a.body.locals| || (Evs(c, n)[j] == Read(Copy(l), n) && InVars(a, l))
    {
      if At(b, n, j) {
        StillAt(b, c, n, j);
      } else if l < |b.body.locals| {
        FramedVars(a, b, l);
      }
    }
  }

  lemma {:induction false} MoreGap(s: State, base: nat, base': nat, g: Gap, g': Gap, n: BlockId, j: nat, l: Local)
    requires MoveOk(s, base, g, n, j, l) && base' <= base && g'.lo <= g'.hi
    requires g'.hi <= base || g == g' || g'.lo == g'.hi == base'
    ensures MoveOk(s, base', g', n, j, l)
  {
    hide Evs, OnlyLook, Fence;
    if Define(l) !in Evs(s, n)[..j] {
      var d: BlockId, lo: nat, hi: nat :| SetOutside(s, base, g, d, lo, hi, n, l);
      assert SetOutside(s, base', g', d, lo, hi, n, l);
    }
  }

  lemma {:induction false} MovesTrans(a: State, b: State, c: State, g: Gap)
    requires Framed(a, b) && Framed(b, c) && EvsKept(b, c) && NewLooks(b, c) && Kempt(b)
    requires NewMoves(a, b, g) && NewMoves(b, c, NoGap(b)) && a.Size() <= g.lo <= g.hi <= b.Size()
    ensures NewMoves(a, c, g)
  {
    hide Evs, Framed, MoveOk, NewLooks, Kempt;
    FramedSizes(a, b);
    FramedSizes(b, c);
    forall n: BlockId, j: nat, l: Local | At(c, n, j) && !At(a, n, j) && Evs(c, n)[j] == Read(Move(l), n)
      ensures MoveOk(c, a.Size(), g, n, j, l)
    {
      if At(b, n, j) {
        StillAt(b, c, n, j);
        MoveStays(b, c, a.Size(), g, n, j, l);
      } else {
        MoreGap(c, b.Size(), a.Size(), NoGap(b), g, n, j, l);
      }
    }
  }

  lemma {:induction false} FramedSizes(a: State, b: State)
    requires Framed(a, b)
    ensures a.Size() <= b.Size() && b.header == a.header && |a.body.locals| <= |b.body.locals|
  {
  }

  lemma {:induction false} TidyTrans(a: State, b: State, c: State, g: Gap)
    requires Tidy(a, b, g) && Tidy(b, c, NoGap(b)) && g.hi <= b.Size()
    ensures Tidy(a, c, g)
  {
    hide Framed, EvsKept, NewLooks, NewMoves, Kempt;
    FramedSizes(a, b);
    FramedTrans(a, b, c);
    EvsTrans(a, b, c);
    LooksTrans(a, b, c);
    MovesTrans(a, b, c, g);
  }

  /** Once all jumps to it are made, a gap is a gap no more. */
  lemma {:induction false} CloseGap(a: State, s: State, g: Gap)
    requires Tidy(a, s, g)
    ensures Tidy(a, s, NoGap(a))
  {
    hide Evs, MoveOk, Framed, EvsKept, NewLooks, Kempt;
    forall n: BlockId, j: nat, l: Local | At(s, n, j) && !At(a, n, j) && Evs(s, n)[j] == Read(Move(l), n)
      ensures MoveOk(s, a.Size(), NoGap(a), n, j, l)
    {
      MoreGap(s, a.Size(), a.Size(), g, NoGap(a), n, j, l);
    }
  }

  /** Blocks not made yet are a gap. */
  lemma {:induction false} OpenGap(a: State, s: State, k: nat)
    requires Tidy(a, s, NoGap(a))
    ensures Tidy(a, s, Gap(s.Size(), s.Size() + k))
  {
    hide Evs, Framed, EvsKept, NewLooks, Kempt;
    var g := Gap(s.Size(), s.Size() + k);
    forall n: BlockId, j: nat, l: Local | At(s, n, j) && !At(a, n, j) && Evs(s, n)[j] == Read(Move(l), n)
      ensures MoveOk(s, a.Size(), g, n, j, l)
    {
      if Define(l) !in Evs(s, n)[..j] {
        var d: BlockId, lo: nat, hi: nat :| SetOutside(s, a.Size(), NoGap(a), d, lo, hi, n, l);
        assert SetOutside(s, a.Size(), g, d, lo, hi, n, l);
      }
    }
    FramedSizes(a, s);
  }

  // ---- Pending operands ----

  lemma {:induction false} KeepPending(a: State, b: State, c: State, op: Operand, g: Gap)
    requires Pending(a, b, op) && Tidy(b, c, g) && OpenEnd(b) && a.Size() <= b.Size()
    ensures Pending(a, c, op)
  {
    hide Evs, InVars, Looks, NewMoves, Placed;
    match op
    case Const(_) =>
    case Copy(l) =>
      forall n: BlockId, j: nat | At(c, n, j)
        ensures Evs(c, n)[j] != Read(Move(l), n)
      {
        MovesLook(n, l);
        if At(b, n, j) {
          StillAt(b, c, n, j);
        }
      }
    case Move(l) =>
      forall n: BlockId, j: nat | At(c, n, j)
        ensures !Looks(Evs(c, n)[j], l)
      {
        if At(b, n, j) {
          StillAt(b, c, n, j);
        }
      }
      NotInVars(b, c, l);
      KeepPlaced(a, b, c, l, g);
  }

  lemma {:induction false} NotInVars(b: State, c: State, l: Local)
    requires Framed(b, c) && !InVars(b, l) && l < |b.body.locals|
    ensures !InVars(c, l)
  {
  }

  lemma {:induction false} KeepPlaced(a: State, b: State, c: State, l: Local, g: Gap)
    requires Placed(a, b, l) && Tidy(b, c, g) && OpenEnd(b) && a.Size() <= b.Size()
    ensures Placed(a, c, l)
  {
    hide Evs, InVars, NewMoves, NewLooks, Kempt;
    if Define(l) in Evs(b, b.cur) {
      assert Evs(b, b.cur) <= Evs(c, b.cur);
      if c.cur != b.cur {
        forall e | e in c.body.edges && e.dst >= b.Size()
          ensures e.src == b.cur || e.src >= b.Size()
        {
          EdgeSince(b, c, e);
        }
        assert PlacedIn(a, c, b.cur, b.Size(), l);
      }
    } else {
      var d: BlockId, lo: nat :| PlacedIn(a, b, d, lo, l);
      assert Evs(b, d) <= Evs(c, d);
      forall e | e in c.body.edges && e.dst >= lo
        ensures e.src == d || e.src >= lo
      {
        EdgeSince(b, c, e);
      }
      assert PlacedIn(a, c, d, lo, l);
    }
  }

  lemma {:induction false} EdgeSince(b: State, c: State, e: Edge)
    requires NewEdges(b, c) && e in c.body.edges
    ensures e in b.body.edges
      || ((e.src == b.cur || e.src >= b.Size()) && (e.dst >= b.Size() || e.dst == b.header))
  {
    var i :| 0 <= i < |c.body.edges| && c.body.edges[i] == e;
    if i < |b.body.edges| {
      assert b.body.edges[i] == e;
    }
  }

  lemma {:induction false} RebasePending(a: State, b: State, c: State, op: Operand, g: Gap)
    requires Tidy(a, b, g) && Pending(b, c, op)
    ensures Pending(a, c, op)
  {
    hide Evs, InVars, NotLooked, NotMoved, NewMoves, NewLooks, Kempt, EvsKept;
    match op
    case Const(_) =>
    case Copy(l) => FramedVars(a, b, l);
    case Move(l) =>
      if Define(l) !in Evs(c, c.cur) {
        var d: BlockId, lo: nat :| PlacedIn(b, c, d, lo, l);
        assert PlacedIn(a, c, d, lo, l);
      }
  }

  lemma {:induction false} ApartLater(a: State, b: State, c: State, x: Operand, y: Operand)
    requires Pending(a, b, x) && Pending(b, c, y)
    ensures Apart(x, y)
  {
    hide NotLooked, NotMoved, Placed;
  }

  /** Operands computed before and operands computed now are pending together. */
  lemma {:induction false} JoinPending(a: State, b: State, c: State, x: Operand, ys: seq<Operand>, g: Gap)
    requires Tidy(a, b, g) && Pending(a, b, x) && OpenEnd(b) && Tidy(b, c, NoGap(b)) && AllPending(b, c, ys)
    ensures AllPending(a, c, [x] + ys)
  {
    hide Pending, Tidy, Apart;
    TidyKempt(a, b, g);
    KeepPending(a, b, c, x, NoGap(b));
    forall i | 0 <= i < |ys|
      ensures Pending(a, c, ys[i]) && Apart(x, ys[i])
    {
      RebasePending(a, b, c, ys[i], g);
      ApartLater(a, b, c, x, ys[i]);
    }
  }

  lemma {:induction false} KeepAll(a: State, b: State, c: State, ops: seq<Operand>, g: Gap)
    requires AllPending(a, b, ops) && Tidy(b, c, g) && OpenEnd(b) && a.Size() <= b.Size()
    ensures AllPending(a, c, ops)
  {
    hide Pending, Tidy, Apart;
    forall i | 0 <= i < |ops|
      ensures Pending(a, c, ops[i])
    {
      KeepPending(a, b, c, ops[i], g);
    }
  }

  lemma {:induction false} RebaseAll(a: State, b: State, c: State, ops: seq<Operand>, g: Gap)
    requires Tidy(a, b, g) && AllPending(b, c, ops)
    ensures AllPending(a, c, ops)
  {
    hide Pending, Tidy, Apart;
    forall i | 0 <= i < |ops|
      ensures Pending(a, c, ops[i])
    {
      RebasePending(a, b, c, ops[i], g);
    }
  }

  // ---- Edits that look at nothing ----

  /** The same events, more blocks without any; new edges go to new blocks, to the header or into the gap. */
  ghost predicate Quiet(a: State, s: State, s': State, g: Gap) {
    && s.Size() <= s'.Size() && s'.header == s.header
    && (forall n: BlockId :: n < s.Size() ==> Evs(s', n) == Evs(s, n))
    && (forall n: BlockId :: s.Size() <= n < s'.Size() ==> Evs(s', n) == [])
    && NewSlots(s, s')
    && JumpsFit(a, s, s', g)
  }

  ghost predicate NewSlots(s: State, s': State) {
    && |s.body.locals| <= |s'.body.locals|
    && (forall v :: v in s'.vars ==> s'.vars[v] >= |s.body.locals| || InVars(s, s'.vars[v]))
  }

  ghost predicate JumpsFit(a: State, s: State, s': State, g: Gap) {
    && s.body.edges <= s'.body.edges
    && (s'.cur == a.cur || s'.cur >= a.Size())
    && forall i :: |s.body.edges| <= i < |s'.body.edges| ==>
         var e := s'.body.edges[i];
         e.src == s.cur && (e.dst >= s.Size() || e.dst == s.header || g.lo <= e.dst < g.hi)
  }

  lemma {:induction false} JumpsFramed(a: State, s: State, s': State, g: Gap)
    requires Framed(a, s) && s.Size() <= s'.Size() && s'.header == s.header && NewSlots(s, s') && JumpsFit(a, s, s', g)
    requires a.Size() <= g.lo
    ensures Framed(a, s')
  {
    hide InVars;
    forall i | |a.body.edges| <= i < |s'.body.edges|
      ensures var e := s'.body.edges[i];
        (e.src == a.cur || e.src >= a.Size()) && (e.dst >= a.Size() || e.dst == a.header)
    {
      if i < |s.body.edges| {
        assert s'.body.edges[i] == s.body.edges[i];
      }
    }
    forall v | v in s'.vars
      ensures s'.vars[v] >= |a.body.locals| || InVars(a, s'.vars[v])
    {
      FramedVars(a, s, s'.vars[v]);
    }
  }

  lemma {:induction false} FenceFits(a: State, s: State, s': State, g: Gap, d: BlockId, lo: nat, hi: nat, n: BlockId)
    requires Fence(s, d, lo, hi, n) && JumpsFit(a, s, s', g) && s.Size() <= s'.Size()
    requires lo > s.header && (hi <= g.lo || g.hi <= lo)
    ensures Fence(s', d, lo, hi, n)
  {
    forall e | e in s'.body.edges && lo <= e.dst < hi
      ensures (e.src == d || lo <= e.src < hi) && e.src != n
    {
      var i :| 0 <= i < |s'.body.edges| && s'.body.edges[i] == e;
      if i < |s.body.edges| {
        assert s.body.edges[i] == e;
        assert e in s.body.edges;
      }
    }
  }

  lemma {:induction false} QuietAt(a: State, s: State, s': State, g: Gap, n: BlockId, j: nat)
    requires Quiet(a, s, s', g)
    ensures At(s', n, j) <==> At(s, n, j)
    ensures At(s, n, j) ==> Evs(s', n)[j] == Evs(s, n)[j] && Evs(s', n)[..j] == Evs(s, n)[..j]
  {
    hide Evs;
  }

  lemma {:induction false} QuietMove(a: State, s: State, s': State, g: Gap, n: BlockId, j: nat, l: Local)
    requires Quiet(a, s, s', g) && MoveOk(s, a.Size(), g, n, j, l) && a.Size() > s.header
    ensures MoveOk(s', a.Size(), g, n, j, l)
  {
    hide Evs, Looks, Quiet;
    QuietAt(a, s, s', g, n, j);
    forall n': BlockId, j': nat | At(s', n', j') && Looks(Evs(s', n')[j'], l)
      ensures n' == n && j' == j
    {
      QuietAt(a, s, s', g, n', j');
    }
    if Define(l) !in Evs(s, n)[..j] {
      var d: BlockId, lo: nat, hi: nat :| SetOutside(s, a.Size(), g, d, lo, hi, n, l);
      QuietIs(a, s, s', g, d);
      FenceFits(a, s, s', g, d, lo, hi, n);
      assert SetOutside(s', a.Size(), g, d, lo, hi, n, l);
    }
  }

  lemma {:induction false} QuietIs(a: State, s: State, s': State, g: Gap, d: BlockId)
    requires Quiet(a, s, s', g)
    ensures s.Size() <= s'.Size() && JumpsFit(a, s, s', g) && NewSlots(s, s') && s'.header == s.header
    ensures d < s.Size() ==> Evs(s', d) == Evs(s, d)
  {
    hide Evs, JumpsFit, NewSlots;
  }

  lemma {:induction false} QuietTidy(a: State, s: State, s': State, g: Gap)
    requires Tidy(a, s, g) && Quiet(a, s, s', g)
    ensures Tidy(a, s', g)
  {
    hide Evs, Quiet, Framed, EvsKept, NewMoves, NewLooks, Kempt, MoveOk, Looks;
    FramedSizes(a, s);
    QuietIs(a, s, s', g, 0);
    JumpsFramed(a, s, s', g);
    QuietLooks(a, s, s', g);
    QuietMoves(a, s, s', g);
  }

  lemma {:induction false} QuietLooks(a: State, s: State, s': State, g: Gap)
    requires EvsKept(a, s) && NewLooks(a, s) && Kempt(s) && Quiet(a, s, s', g)
    ensures EvsKept(a, s') && NewLooks(a, s') && Kempt(s')
  {
    hide Evs, Quiet, Looks, InVars;
    QuietIs(a, s, s', g, 0);
    forall n: BlockId | n < a.Size()
      ensures Evs(a, n) <= Evs(s', n)
    {
      QuietIs(a, s, s', g, n);
    }
    forall n: BlockId, j: nat, l: Local
      ensures KemptAt(s', n, j, l)
    {
      QuietAt(a, s, s', g, n, j);
      assert KemptAt(s, n, j, l);
      if l < |s.body.locals| {
        NotNewlyInVars(s, s', l);
      }
    }
    forall n: BlockId, j: nat, l: Local | At(s', n, j) && !At(a, n, j) && Looks(Evs(s', n)[j], l)
      ensures l >= |a.body.locals| || (Evs(s', n)[j] == Read(Copy(l), n) && InVars(a, l))
    {
      QuietAt(a, s, s', g, n, j);
    }
  }

  lemma {:induction false} NotNewlyInVars(s: State, s': State, l: Local)
    requires NewSlots(s, s') && l < |s.body.locals|
    ensures InVars(s', l) ==> InVars(s, l)
  {
  }

  lemma {:induction false} QuietMoves(a: State, s: State, s': State, g: Gap)
    requires NewMoves(a, s, g) && Quiet(a, s, s', g) && Framed(a, s)
    ensures NewMoves(a, s', g)
  {
    hide Evs, Quiet, MoveOk, Framed;
    FramedSizes(a, s);
    forall n: BlockId, j: nat, l: Local | At(s', n, j) && !At(a, n, j) && Evs(s', n)[j] == Read(Move(l), n)
      ensures MoveOk(s', a.Size(), g, n, j, l)
    {
      QuietAt(a, s, s', g, n, j);
      QuietMove(a, s, s', g, n, j, l);
    }
  }

  // ---- Edits that use pending operands ----

  predicate Blind(evs: seq<Event>) {
    forall e :: e in evs ==> e.Define? || e.Enter? || e.Exit?
  }

  /** The operands are read at the end of the current block, and then at most something is set. */
  ghost predicate Used(a: State, s: State, s': State, g: Gap, ops: seq<Operand>, more: seq<Event>) {
    && s.Size() <= s'.Size() && s'.header == s.header
    && (forall n: BlockId :: n < s.Size() && n != s.cur ==> Evs(s', n) == Evs(s, n))
    && Evs(s', s.cur) == Evs(s, s.cur) + Reads(ops, s.cur) + more && Blind(more)
    && (forall n: BlockId :: s.Size() <= n < s'.Size() ==> Evs(s', n) == [])
    && NewSlots(s, s')
    && JumpsFit(a, s, s', g)
  }

  /** Moved operands are set in this very block, or no new edge goes into the blocks before it. */
  ghost predicate UseFits(a: State, s: State, s': State, g: Gap, ops: seq<Operand>) {
    || (forall l: Local :: Move(l) in ops ==> Define(l) in Evs(s, s.cur))
    || ((g.hi <= a.Size() || s.Size() <= g.lo)
        && forall i :: |s.body.edges| <= i < |s'.body.edges| ==> s'.body.edges[i].dst >= s.Size())
  }

  lemma {:induction false} UsedAt(a: State, s: State, s': State, g: Gap, ops: seq<Operand>, more: seq<Event>,
      n: BlockId, j: nat)
    requires Used(a, s, s', g, ops, more) && At(s', n, j)
    ensures At(s, n, j) ==> Evs(s', n)[j] == Evs(s, n)[j] && Evs(s', n)[..j] == Evs(s, n)[..j]
    ensures !At(s, n, j) ==>
              && n == s.cur && j >= |Evs(s, s.cur)|
              && var i := j - |Evs(s, s.cur)|;
                 if i < |ops| then Evs(s', n)[j] == Read(ops[i], n) && Evs(s, s.cur) <= Evs(s', n)[..j]
                 else Blind([Evs(s', n)[j]])
  {
    hide Evs;
    if !At(s, n, j) && n == s.cur {
      var i := j - |Evs(s, s.cur)|;
      if i >= |ops| {
        assert Evs(s', n)[j] == more[i - |ops|];
      }
    }
  }

  lemma {:induction false} UsedIs(a: State, s: State, s': State, g: Gap, ops: seq<Operand>, more: seq<Event>,
      d: BlockId)
    requires Used(a, s, s', g, ops, more)
    ensures s.Size() <= s'.Size() && JumpsFit(a, s, s', g) && NewSlots(s, s') && s'.header == s.header
    ensures d < s.Size() ==> Evs(s, d) <= Evs(s', d)
    ensures |Evs(s', s.cur)| >= |Evs(s, s.cur)| + |ops|
  {
    hide Evs, JumpsFit, NewSlots;
  }

  lemma {:induction false} BlindLooks(e: Event, l: Local)
    requires Blind([e])
    ensures !Looks(e, l)
  {
    assert e in [e];
  }

  // An operand that looks at `l` is none other than its slot.
  lemma {:induction false} ReadLooks(op: Operand, n: BlockId, l: Local)
    ensures Looks(Read(op, n), l) <==> !op.Const? && op.local == l
    ensures Read(op, n) == Read(Move(l), n) <==> op == Move(l)
  {
  }

  // A new look is at one of the operands.
  lemma {:induction false} UsedLook(a: State, s: State, s': State, g: Gap, ops: seq<Operand>, more: seq<Event>,
      n: BlockId, j: nat, l: Local)
    requires Used(a, s, s', g, ops, more) && AllPending(a, s, ops)
    requires At(s', n, j) && !At(s, n, j) && Looks(Evs(s', n)[j], l)
    ensures n == s.cur && 0 <= j - |Evs(s, s.cur)| < |ops| && Evs(s', n)[j] == Read(ops[j - |Evs(s, s.cur)|], n)
    ensures l < |s.body.locals| && (Evs(s', n)[j] == Read(Move(l), n) ==> !InVars(s, l))
    ensures l >= |a.body.locals| || (Evs(s', n)[j] == Read(Copy(l), n) && InVars(a, l))
  {
    hide Evs, Used, Looks, InVars, NotLooked, NotMoved, Placed, Apart, Blind;
    UsedAt(a, s, s', g, ops, more, n, j);
    var i := j - |Evs(s, s.cur)|;
    if i >= |ops| {
      BlindLooks(Evs(s', n)[j], l);
      assert false;
    }
    ReadLooks(ops[i], n, l);
    assert Pending(a, s, ops[i]);
  }

  lemma {:induction false} UsedLooks(a: State, s: State, s': State, g: Gap, ops: seq<Operand>, more: seq<Event>)
    requires EvsKept(a, s) && NewLooks(a, s) && Kempt(s) && Used(a, s, s', g, ops, more)
    requires AllPending(a, s, ops) && |a.body.locals| <= |s.body.locals|
    ensures EvsKept(a, s') && NewLooks(a, s') && Kempt(s')
  {
    hide Evs, Used, Looks, InVars, NotLooked, NotMoved, Placed, Apart, Blind;
    UsedIs(a, s, s', g, ops, more, 0);
    forall n: BlockId | n < a.Size()
      ensures Evs(a, n) <= Evs(s', n)
    {
      UsedIs(a, s, s', g, ops, more, n);
      assert Evs(a, n) <= Evs(s, n) <= Evs(s', n);
    }
    forall n: BlockId, j: nat, l: Local | At(s', n, j) && Looks(Evs(s', n)[j], l)
      ensures KemptAt(s', n, j, l)
      ensures !At(a, n, j) ==> l >= |a.body.locals| || (Evs(s', n)[j] == Read(Copy(l), n) && InVars(a, l))
    {
      UsedAt(a, s, s', g, ops, more, n, j);
      if At(s, n, j) {
        assert KemptAt(s, n, j, l);
      } else {
        UsedLook(a, s, s', g, ops, more, n, j, l);
      }
      NotNewlyInVars(s, s', l);
    }
  }

  // No pending operand is of a local that is moved already.
  lemma {:induction false} UsedApart(a: State, s: State, ops: seq<Operand>, i: nat, n: BlockId, j: nat, l: Local)
    requires AllPending(a, s, ops) && i < |ops| && At(s, n, j) && Evs(s, n)[j] == Read(Move(l), n)
    ensures ops[i].Const? || ops[i].local != l
  {
    hide Evs, Looks, Placed, InVars;
    MovesLook(n, l);
    assert Pending(a, s, ops[i]);
  }

  // What is looked at already is not among the pending temporaries, nor moved away among the copies.
  lemma {:induction false} OldMoveUsed(a: State, s: State, s': State, g: Gap, ops: seq<Operand>, more: seq<Event>,
      n: BlockId, j: nat, l: Local)
    requires Used(a, s, s', g, ops, more) && AllPending(a, s, ops)
    requires MoveOk(s, a.Size(), g, n, j, l) && Evs(s, n)[j] == Read(Move(l), n) && a.Size() > s.header
    ensures MoveOk(s', a.Size(), g, n, j, l)
  {
    hide Evs, Looks, Used, InVars, Placed, Apart, Blind, AllPending;
    UsedIs(a, s, s', g, ops, more, n);
    MovesLook(n, l);
    assert At(s', n, j);
    UsedAt(a, s, s', g, ops, more, n, j);
    forall n': BlockId, j': nat | At(s', n', j') && Looks(Evs(s', n')[j'], l)
      ensures n' == n && j' == j
    {
      UsedAt(a, s, s', g, ops, more, n', j');
      if !At(s, n', j') {
        UsedLook(a, s, s', g, ops, more, n', j', l);
        ReadLooks(ops[j' - |Evs(s, s.cur)|], n', l);
        UsedApart(a, s, ops, j' - |Evs(s, s.cur)|, n, j, l);
      }
    }
    if Define(l) !in Evs(s, n)[..j] {
      var d: BlockId, lo: nat, hi: nat :| SetOutside(s, a.Size(), g, d, lo, hi, n, l);
      UsedIs(a, s, s', g, ops, more, d);
      FenceFits(a, s, s', g, d, lo, hi, n);
      assert SetOutside(s', a.Size(), g, d, lo, hi, n, l);
    }
  }

  lemma {:induction false} NewMoveUsed(a: State, s: State, s': State, g: Gap, ops: seq<Operand>, more: seq<Event>,
      i: nat, l: Local)
    requires Used(a, s, s', g, ops, more) && AllPending(a, s, ops) && UseFits(a, s, s', g, ops) && OpenEnd(s)
    requires i < |ops| && ops[i] == Move(l) && a.Size() <= s.Size() && s.header < a.Size()
    ensures MoveOk(s', a.Size(), g, s.cur, |Evs(s, s.cur)| + i, l)
  {
    hide Evs, Looks, Used, InVars, Blind, NotMoved, Placed, UseFits;
    var j := |Evs(s, s.cur)| + i;
    UsedIs(a, s, s', g, ops, more, s.cur);
    assert At(s', s.cur, j);
    UsedAt(a, s, s', g, ops, more, s.cur, j);
    assert Pending(a, s, ops[i]);
    forall n': BlockId, j': nat | At(s', n', j') && Looks(Evs(s', n')[j'], l)
      ensures n' == s.cur && j' == j
    {
      UsedAt(a, s, s', g, ops, more, n', j');
      if !At(s, n', j') {
        var i' := j' - |Evs(s, s.cur)|;
        if i' < |ops| {
          ReadLooks(ops[i'], n', l);
          assert i' < i ==> Apart(ops[i'], ops[i]);
          assert i < i' ==> Apart(ops[i], ops[i']);
        } else {
          BlindLooks(Evs(s', n')[j'], l);
        }
      }
    }
    UseIsSet(a, s, s', g, ops, more, i, l);
  }

  lemma {:induction false} UseIsSet(a: State, s: State, s': State, g: Gap, ops: seq<Operand>, more: seq<Event>,
      i: nat, l: Local)
    requires Used(a, s, s', g, ops, more) && UseFits(a, s, s', g, ops) && OpenEnd(s) && Placed(a, s, l)
    requires i < |ops| && ops[i] == Move(l) && a.Size() <= s.Size() && s.header < a.Size()
    ensures |Evs(s', s.cur)| >= |Evs(s, s.cur)| + i
    ensures Define(l) in Evs(s', s.cur)[..|Evs(s, s.cur)| + i]
      || exists d: BlockId, lo: nat, hi: nat :: SetOutside(s', a.Size(), g, d, lo, hi, s.cur, l)
  {
    hide Evs, Looks, Used, InVars, Blind;
    var j := |Evs(s, s.cur)| + i;
    UsedIs(a, s, s', g, ops, more, s.cur);
    UsedAt(a, s, s', g, ops, more, s.cur, j);
    if Define(l) in Evs(s, s.cur) {
      assert Evs(s, s.cur) <= Evs(s', s.cur)[..j];
    } else {
      assert Move(l) in ops;
      var d: BlockId, lo: nat :| PlacedIn(a, s, d, lo, l);
      UsedIs(a, s, s', g, ops, more, d);
      forall e | e in s'.body.edges && lo <= e.dst < s.Size()
        ensures (e.src == d || lo <= e.src < s.Size()) && e.src != s.cur
      {
        var k :| 0 <= k < |s'.body.edges| && s'.body.edges[k] == e;
        if k < |s.body.edges| {
          assert s.body.edges[k] == e;
          assert e in s.body.edges;
        }
      }
      assert SetOutside(s', a.Size(), g, d, lo, s.Size(), s.cur, l);
    }
  }

  lemma {:induction false} UsedTidy(a: State, s: State, s': State, g: Gap, ops: seq<Operand>, more: seq<Event>)
    requires Tidy(a, s, g) && (ops == [] || OpenEnd(s)) && AllPending(a, s, ops) && Used(a, s, s', g, ops, more)
    requires UseFits(a, s, s', g, ops)
    ensures Tidy(a, s', g)
  {
    hide Evs, Used, Framed, EvsKept, NewLooks, Kempt, MoveOk, AllPending, UseFits, OpenEnd;
    FramedSizes(a, s);
    UsedIs(a, s, s', g, ops, more, 0);
    JumpsFramed(a, s, s', g);
    UsedLooks(a, s, s', g, ops, more);
    forall n: BlockId, j: nat, l: Local | At(s', n, j) && !At(a, n, j) && Evs(s', n)[j] == Read(Move(l), n)
      ensures MoveOk(s', a.Size(), g, n, j, l)
    {
      UsedAt(a, s, s', g, ops, more, n, j);
      if At(s, n, j) {
        OldMoveUsed(a, s, s', g, ops, more, n, j, l);
      } else {
        var i := j - |Evs(s, s.cur)|;
        MovesLook(n, l);
        if i < |ops| {
          ReadLooks(ops[i], n, l);
          NewMoveUsed(a, s, s', g, ops, more, i, l);
        } else {
          BlindLooks(Evs(s', n)[j], l);
        }
      }
    }
  }

  /** Operands that are apart from those used are pending still. */
  lemma {:induction false} UsedPending(a: State, s: State, s': State, g: Gap, ops: seq<Operand>, more: seq<Event>,
      y: Operand)
    requires Used(a, s, s', g, ops, more) && Pending(a, s, y) && s'.cur == s.cur && s'.body.edges == s.body.edges
    requires forall i :: 0 <= i < |ops| ==> Apart(ops[i], y) && (y.Copy? ==> ops[i] != Move(y.local))
    ensures Pending(a, s', y)
  {
    hide Evs, Used, Looks, InVars, Blind;
    UsedIs(a, s, s', g, ops, more, s.cur);
    if !y.Const? {
      var l := y.local;
      forall n: BlockId, j: nat | At(s', n, j)
        ensures y.Copy? ==> Evs(s', n)[j] != Read(Move(l), n)
        ensures y.Move? ==> !Looks(Evs(s', n)[j], l)
      {
        UsedAt(a, s, s', g, ops, more, n, j);
        MovesLook(n, l);
        if !At(s, n, j) {
          var i := j - |Evs(s, s.cur)|;
          if i < |ops| {
            ReadLooks(ops[i], n, l);
            assert Apart(ops[i], y);
          } else {
            BlindLooks(Evs(s', n)[j], l);
          }
        }
      }
      if y.Move? {
        NotNewlyInVars(s, s', l);
        if Define(l) !in Evs(s, s.cur) {
          var d: BlockId, lo: nat :| PlacedIn(a, s, d, lo, l);
          UsedIs(a, s, s', g, ops, more, d);
          assert PlacedIn(a, s', d, lo, l);
        }
      }
    }
  }

  // ---- The edits of lowering ----

  lemma {:induction false} OnePending(a: State, s: State, op: Operand)
    ensures AllPending(a, s, [op]) <==> Pending(a, s, op)
  {
    hide Pending;
    if AllPending(a, s, [op]) {
      assert Pending(a, s, [op][0]);
    }
  }

  lemma {:induction false} NothingPending(a: State, s: State)
    ensures AllPending(a, s, [])
  {
  }

  lemma {:induction false} ConstPending(a: State, s: State, c: Constant)
    ensures PendingRv(a, s, Use(Const(c)))
  {
  }

  /** A change of slots and variables, of the end of a block or of the current block, but of no events or edges. */
  lemma {:induction false} StillTidy(s: State, s': State)
    requires Kempt(s) && s'.Size() == s.Size() && s'.header == s.header && s'.body.edges == s.body.edges
    requires s'.cur == s.cur && NewSlots(s, s')
    requires forall n: BlockId :: n < s.Size() ==> Evs(s', n) == Evs(s, n)
    ensures Tidy(s, s', NoGap(s))
  {
    hide Evs, Kempt, Tidy;
    TidyRefl(s);
    QuietTidy(s, s, s', NoGap(s));
  }

  lemma {:induction false} NewTidy(s: State, name: string, ty: Type)
    requires Kempt(s)
    ensures Tidy(s, NewLocal(s, name, ty), NoGap(s))
  {
    hide Kempt, Tidy;
    StillTidy(s, NewLocal(s, name, ty));
  }

  lemma {:induction false} BindTidy(s: State, name: string, ty: Type, v: DefId)
    requires Kempt(s)
    ensures Tidy(s, WriteVariable(NewLocal(s, name, ty), v, |s.body.locals|), NoGap(s))
  {
    hide Kempt, Tidy;
    var s' := WriteVariable(NewLocal(s, name, ty), v, |s.body.locals|);
    forall w | w in s'.vars
      ensures s'.vars[w] >= |s.body.locals| || InVars(s, s'.vars[w])
    {
      if w != v {
        assert w in s.vars && s.vars[w] == s'.vars[w];
      }
    }
    StillTidy(s, s');
  }

  lemma {:induction false} LooksBelow(s: State, l: Local)
    requires Kempt(s) && l >= |s.body.locals|
    ensures NotLooked(s, l) && NotMoved(s, l)
  {
    hide Evs, Looks;
    forall n: BlockId, j: nat | At(s, n, j)
      ensures !Looks(Evs(s, n)[j], l) && Evs(s, n)[j] != Read(Move(l), n)
    {
      assert KemptAt(s, n, j, l);
      MovesLook(n, l);
    }
  }

  lemma {:induction false} VariablePending(s: State, v: DefId)
    requires Kempt(s) && v in s.vars && VarsOk(s)
    ensures Pending(s, s, Copy(s.vars[v]))
  {
    hide Evs, Looks;
    var l := s.vars[v];
    assert InVars(s, l);
    forall n: BlockId, j: nat | At(s, n, j)
      ensures Evs(s, n)[j] != Read(Move(l), n)
    {
      assert KemptAt(s, n, j, l);
      MovesLook(n, l);
    }
  }

  lemma {:induction false} ReadTidy(s: State, v: DefId)
    requires Kempt(s) && VarsOk(s)
    ensures var (s', l) := ReadVariable(s, v);
      Tidy(s, s', NoGap(s)) && Pending(s, s', Copy(l)) && s'.cur == s.cur && s'.body.blocks == s.body.blocks
  {
    hide Kempt, Tidy, VarsOk, Pending;
    if v in s.vars {
      TidyRefl(s);
      VariablePending(s, v);
    } else {
      BindTidy(s, DebugDef(v), Error, v);
      FreshCopy(s, ReadVariable(s, v).0);
    }
  }

  lemma {:induction false} FreshCopy(s: State, s': State)
    requires Tidy(s, s', NoGap(s)) && Kempt(s) && s'.body.blocks == s.body.blocks
    requires |s'.body.locals| == |s.body.locals| + 1
    ensures Pending(s, s', Copy(|s.body.locals|))
  {
    hide Kempt, Tidy, Evs;
    LooksBelow(s, |s.body.locals|);
    forall n: BlockId, j: nat | At(s', n, j)
      ensures Evs(s', n)[j] != Read(Move(|s.body.locals|), n)
    {
      SameEvents(s, s', n);
      assert At(s, n, j);
    }
  }

  lemma {:induction false} LetTidy(s: State, name: string, v: DefId, ty: Type, init: Expr)
    requires Kempt(s)
    ensures Tidy(s, LetLocal(s, name, v, ty, init).0, NoGap(s))
    ensures LetLocal(s, name, v, ty, init).0.body.blocks == s.body.blocks
  {
    hide Kempt, Tidy, ExprType;
    if v in s.vars {
      TidyRefl(s);
    } else {
      BindTidy(s, name, if ty == Error then ExprType(init) else ty, v);
    }
  }

  lemma {:induction false} PushEvents(s: State, ins: Instruction)
    requires TermEvents(s.Cur().term, s.cur) == []
    ensures var s' := Push(s, ins);
      && Evs(s', s.cur) == Evs(s, s.cur) + InstrEvents(ins, s.cur)
      && forall n: BlockId :: n < s.Size() && n != s.cur ==> Evs(s', n) == Evs(s, n)
  {
    var all := s.Cur().instrs + [ins];
    assert all[..|all| - 1] == s.Cur().instrs;
  }

  lemma {:induction false} PushUsed(a: State, s: State, ins: Instruction, ops: seq<Operand>, more: seq<Event>)
    requires TermEvents(s.Cur().term, s.cur) == [] && Framed(a, s)
    requires InstrEvents(ins, s.cur) == Reads(ops, s.cur) + more && Blind(more)
    ensures Used(a, s, Push(s, ins), NoGap(a), ops, more)
  {
    hide Evs, Blind, InstrEvents;
    PushEvents(s, ins);
    assert Evs(s, s.cur) + InstrEvents(ins, s.cur) == Evs(s, s.cur) + Reads(ops, s.cur) + more;
  }

  /** An instruction that uses pending operands. */
  lemma {:induction false} PushTidy(a: State, s: State, ins: Instruction, ops: seq<Operand>, more: seq<Event>)
    requires Tidy(a, s, NoGap(a)) && AllPending(a, s, ops) && (ops == [] || OpenEnd(s))
    requires TermEvents(s.Cur().term, s.cur) == []
    requires InstrEvents(ins, s.cur) == Reads(ops, s.cur) + more && Blind(more)
    ensures Tidy(a, Push(s, ins), NoGap(a))
  {
    hide Framed, EvsKept, NewLooks, NewMoves, Kempt, AllPending, Blind, InstrEvents, Used;
    PushUsed(a, s, ins, ops, more);
    UsedTidy(a, s, Push(s, ins), NoGap(a), ops, more);
  }

  lemma {:induction false} PushKeeps(a: State, s: State, ins: Instruction, more: seq<Event>, ys: seq<Operand>)
    requires Framed(a, s) && AllPending(a, s, ys) && TermEvents(s.Cur().term, s.cur) == []
    requires InstrEvents(ins, s.cur) == more && Blind(more)
    ensures AllPending(a, Push(s, ins), ys)
  {
    hide Framed, Pending, Apart, Blind, InstrEvents, Used;
    assert Reads([], s.cur) + more == more;
    PushUsed(a, s, ins, [], more);
    forall i | 0 <= i < |ys|
      ensures Pending(a, Push(s, ins), ys[i])
    {
      UsedPending(a, s, Push(s, ins), NoGap(a), [], more, ys[i]);
    }
  }

  /** Markers of zones, and assertions, which are not looks. */
  lemma {:induction false} MarkTidy(a: State, s: State, ins: Instruction, ys: seq<Operand>)
    requires Tidy(a, s, NoGap(a)) && AllPending(a, s, ys) && TermEvents(s.Cur().term, s.cur) == []
    requires ins.ZoneEnter? || ins.ZoneExit? || ins.Assert?
    ensures Tidy(a, Push(s, ins), NoGap(a)) && AllPending(a, Push(s, ins), ys)
  {
    hide Framed, EvsKept, NewLooks, NewMoves, Kempt, AllPending, Evs;
    var more := InstrEvents(ins, s.cur);
    assert Blind(more);
    NothingPending(a, s);
    assert Reads([], s.cur) + more == more;
    PushTidy(a, s, ins, [], more);
    PushKeeps(a, s, ins, more, ys);
  }

  lemma {:induction false} RvEvents(rv: Rvalue, n: BlockId)
    requires !rv.Ref?
    ensures RvalueEvents(rv, n) == Reads(RvOperands(rv), n)
  {
  }

  lemma {:induction false} AssignTidy(a: State, s: State, d: Local, rv: Rvalue)
    requires Tidy(a, s, NoGap(a)) && PendingRv(a, s, rv) && OpenEnd(s)
    ensures Tidy(a, Push(s, Assign(d, rv)), NoGap(a))
  {
    hide Tidy, AllPending, RvOperands;
    RvEvents(rv, s.cur);
    PushTidy(a, s, Assign(d, rv), RvOperands(rv), [Define(d)]);
  }

  // A new slot that is set here, by an instruction that uses pending operands.
  lemma {:induction false} SetPending(a: State, s: State, s1: State, ins: Instruction, ops: seq<Operand>)
    requires Tidy(a, s, NoGap(a)) && Tidy(a, s1, NoGap(a)) && AllPending(a, s1, ops) && Kempt(s) && VarsOk(s)
    requires s1.body.blocks == s.body.blocks && s1.cur == s.cur && |s1.body.locals| == |s.body.locals| + 1
    requires s1.vars == s.vars && TermEvents(s.Cur().term, s.cur) == []
    requires InstrEvents(ins, s.cur) == Reads(ops, s.cur) + [Define(|s.body.locals|)]
    requires forall i :: 0 <= i < |ops| ==> ops[i].Const? || ops[i].local != |s.body.locals|
    ensures Pending(a, Push(s1, ins), Move(|s.body.locals|))
  {
    hide Evs, Looks, Framed, EvsKept, NewLooks, NewMoves, Kempt, InstrEvents, Used, AllPending;
    var l := |s.body.locals|;
    var s2 := Push(s1, ins);
    FramedSizes(a, s);
    assert Blind([Define(l)]);
    PushUsed(a, s1, ins, ops, [Define(l)]);
    LooksBelow(s, l);
    forall n: BlockId, j: nat | At(s2, n, j)
      ensures !Looks(Evs(s2, n)[j], l)
    {
      UsedAt(a, s1, s2, NoGap(a), ops, [Define(l)], n, j);
      if At(s1, n, j) {
        SameEvents(s, s1, n);
        assert At(s, n, j);
      } else {
        var i := j - |Evs(s1, s1.cur)|;
        if i < |ops| {
          ReadLooks(ops[i], n, l);
        } else {
          BlindLooks(Evs(s2, n)[j], l);
        }
      }
    }
    PushEvents(s1, ins);
    assert Define(l) in InstrEvents(ins, s1.cur) by {
      assert InstrEvents(ins, s.cur)[|Reads(ops, s.cur)|] == Define(l);
    }
  }

  lemma {:induction false} SameEvents(s: State, s1: State, n: BlockId)
    requires s1.body.blocks == s.body.blocks
    ensures n < s.Size() ==> Evs(s1, n) == Evs(s, n)
  {
  }

  lemma {:induction false} PendingLocal(a: State, s: State, op: Operand)
    requires Pending(a, s, op) && !op.Const?
    ensures op.local < |s.body.locals|
  {
    hide NotLooked, NotMoved, Placed;
  }

  lemma {:induction false} OpenTerm(s: State)
    requires OpenEnd(s)
    ensures TermEvents(s.Cur().term, s.cur) == []
  {
  }

  lemma {:induction false} SameOpen(s: State, s': State)
    requires OpenEnd(s) && s'.body.blocks == s.body.blocks && s'.body.edges == s.body.edges && s'.cur == s.cur
    ensures OpenEnd(s')
  {
  }

  lemma {:induction false} PushOpen(s: State, ins: Instruction)
    requires OpenEnd(s)
    ensures OpenEnd(Push(s, ins))
  {
  }

  /** A new slot of some type, and an instruction that sets it from pending operands. */
  lemma {:induction false} SetTidy(a: State, s: State, name: string, ty: Type, ins: Instruction, ops: seq<Operand>)
    requires Tidy(a, s, NoGap(a)) && AllPending(a, s, ops) && OpenEnd(s) && VarsOk(s)
    requires InstrEvents(ins, s.cur) == Reads(ops, s.cur) + [Define(|s.body.locals|)]
    ensures var s' := Push(NewLocal(s, name, ty), ins);
      Tidy(a, s', NoGap(a)) && AllPending(a, s', [Move(|s.body.locals|)])
  {
    hide Tidy, Pending, VarsOk, InstrEvents, OpenEnd, Apart;
    TidyKempt(a, s, NoGap(a));
    var s1 := NewLocal(s, name, ty);
    NewTidy(s, name, ty);
    TidyTrans(a, s, s1, NoGap(a));
    KeepAll(a, s, s1, ops, NoGap(s));
    SameOpen(s, s1);
    OpenTerm(s);
    forall i | 0 <= i < |ops|
      ensures ops[i].Const? || ops[i].local != |s.body.locals|
    {
      if !ops[i].Const? {
        PendingLocal(a, s, ops[i]);
      }
    }
    assert Blind([Define(|s.body.locals|)]);
    PushTidy(a, s1, ins, ops, [Define(|s.body.locals|)]);
    SetPending(a, s, s1, ins, ops);
    OnePending(a, Push(s1, ins), Move(|s.body.locals|));
  }

  lemma {:induction false} ToOperandTidy(a: State, s: State, rv: Rvalue)
    requires Tidy(a, s, NoGap(a)) && PendingRv(a, s, rv) && OpenEnd(s) && VarsOk(s)
    ensures var (s', op) := ToOperand(s, rv); Tidy(a, s', NoGap(a)) && AllPending(a, s', [op])
  {
    hide Tidy, AllPending, OpenEnd, VarsOk, RvalueType, RvOperands;
    if rv.Use? {
      UseIsOperand(rv.operand);
    } else {
      RvEvents(rv, s.cur);
      SetTidy(a, s, "tmp", RvalueType(s.body.locals, rv), Assign(|s.body.locals|, rv), RvOperands(rv));
    }
  }

  lemma {:induction false} UseIsOperand(op: Operand)
    ensures RvOperands(Use(op)) == [op]
  {
  }

  /** An end that looks at nothing and leads nowhere, or back to the header. */
  lemma {:induction false} EndTidy(s: State, term: Terminator)
    requires Kempt(s) && s.Cur().term.None?
    requires term.Return?
    ensures Tidy(s, Terminate(s, s.cur, term), NoGap(s))
  {
    hide Kempt, Tidy;
    StillTidy(s, Terminate(s, s.cur, term));
  }

  lemma {:induction false} JumpTidy(s: State)
    requires Kempt(s) && s.Cur().term.None?
    ensures Tidy(s, Terminate(AddEdge(s, s.cur, s.header, Unconditional), s.cur, Goto(s.header)), NoGap(s))
  {
    hide Kempt, Tidy;
    TidyRefl(s);
    QuietTidy(s, s, Terminate(AddEdge(s, s.cur, s.header, Unconditional), s.cur, Goto(s.header)), NoGap(s));
  }

  lemma {:induction false} JoinTidy(a: State, s: State, g: Gap, target: BlockId, next: BlockId)
    requires Tidy(a, s, g) && g.lo <= target < g.hi && target < s.Size() && a.Size() <= next < s.Size()
    ensures Tidy(a, MoveTo(JoinTo(s, target), next), g)
  {
    hide Tidy;
    var s' := MoveTo(JoinTo(s, target), next);
    forall n: BlockId | n < s.Size()
      ensures Evs(s', n) == Evs(s, n)
    {
    }
    forall v | v in s'.vars
      ensures InVars(s, s'.vars[v])
    {
    }
    QuietTidy(a, s, s', g);
  }

  // ---- The ends that use an operand ----

  lemma {:induction false} OpenGivenUsed(a: State, s: State, op: Operand)
    requires Tidy(a, s, NoGap(a)) && OpenEnd(s)
    ensures var g := Gap(s.Size(), s.Size() + 3);
      Used(a, s, OpenGiven(s, op), g, [op], []) && UseFits(a, s, OpenGiven(s, op), g, [op])
  {
    hide Tidy, OpenGiven, Evs, InVars;
    TidyKempt(a, s, NoGap(a));
    OpenGivenEvents(s, op);
    OpenGivenEdges(s, op);
    var s' := OpenGiven(s, op);
    forall v | v in s'.vars
      ensures InVars(s, s'.vars[v])
    {
      VarIs(s, v);
    }
  }

  lemma {:induction false} VarIs(s: State, v: DefId)
    requires v in s.vars
    ensures InVars(s, s.vars[v])
  {
  }

  lemma {:induction false} OpenGivenEvents(s: State, op: Operand)
    requires OpenEnd(s)
    ensures var s' := OpenGiven(s, op);
      && Evs(s', s.cur) == Evs(s, s.cur) + Reads([op], s.cur) + []
      && (forall n: BlockId :: n < s.Size() && n != s.cur ==> Evs(s', n) == Evs(s, n))
      && (forall n: BlockId :: s.Size() <= n < s'.Size() ==> Evs(s', n) == [])
  {
  }

  lemma {:induction false} OpenGivenEdges(s: State, op: Operand)
    ensures var s' := OpenGiven(s, op);
      && s'.Size() == s.Size() + 3 && s'.header == s.header && s'.cur == s.Size() && s'.vars == s.vars
      && s'.body.locals == s.body.locals && s.body.edges <= s'.body.edges
      && forall i :: |s.body.edges| <= i < |s'.body.edges| ==>
           s'.body.edges[i].src == s.cur && s'.body.edges[i].dst >= s.Size()
  {
  }

  lemma {:induction false} OpenGivenTidy(a: State, s: State, op: Operand)
    requires Tidy(a, s, NoGap(a)) && AllPending(a, s, [op]) && OpenEnd(s)
    ensures Tidy(a, OpenGiven(s, op), Gap(s.Size(), s.Size() + 3))
  {
    hide Tidy, AllPending, Used, UseFits, OpenGiven;
    OpenGap(a, s, 3);
    OpenGivenUsed(a, s, op);
    UsedTidy(a, s, OpenGiven(s, op), Gap(s.Size(), s.Size() + 3), [op], []);
  }

  lemma {:induction false} OpenWhileTidy(s: State)
    requires Kempt(s) && OpenEnd(s)
    ensures Tidy(s, OpenWhile(s), Gap(s.Size(), s.Size() + 3))
  {
    hide Kempt, Tidy;
    var g := Gap(s.Size(), s.Size() + 3);
    var s' := OpenWhile(s);
    TidyRefl(s);
    OpenGap(s, s, 3);
    forall n: BlockId | n < s'.Size()
      ensures n < s.Size() ==> Evs(s', n) == Evs(s, n)
      ensures n >= s.Size() ==> Evs(s', n) == []
    {
    }
    QuietTidy(s, s, s', g);
  }

  /** The condition has stayed in the loop's first block, where its value is set, if it is a temporary. */
  lemma {:induction false} BranchTidy(a: State, s: State, c: BlockId, op: Operand)
    requires Tidy(a, s, Gap(c, c + 3)) && AllPending(a, s, [op]) && OpenEnd(s) && s.cur == c && c + 2 < s.Size()
    requires op.Move? ==> Define(op.local) in Evs(s, s.cur)
    ensures Tidy(a, BranchWhile(s, c, op), Gap(c, c + 3))
  {
    hide Tidy, AllPending, OpenEnd;
    var s' := BranchWhile(s, c, op);
    OpenTerm(s);
    BranchUsed(a, s, c, op);
    UsedTidy(a, s, s', Gap(c, c + 3), [op], []);
  }

  lemma {:induction false} BranchUsed(a: State, s: State, c: BlockId, op: Operand)
    requires Tidy(a, s, Gap(c, c + 3)) && TermEvents(s.Cur().term, s.cur) == [] && s.cur == c && c + 2 < s.Size()
    ensures Used(a, s, BranchWhile(s, c, op), Gap(c, c + 3), [op], [])
  {
    TidyKempt(a, s, Gap(c, c + 3));
    GapAbove(a, s, Gap(c, c + 3));
    hide Tidy;
    var s' := BranchWhile(s, c, op);
    assert Evs(s', s.cur) == Evs(s, s.cur) + Reads([op], s.cur) + [];
    forall v | v in s'.vars
      ensures InVars(s, s'.vars[v])
    {
    }
  }

  lemma {:induction false} GapAbove(a: State, s: State, g: Gap)
    requires Tidy(a, s, g)
    ensures a.Size() <= g.lo
  {
  }

  // A temporary computed without leaving the block is set in it.
  lemma {:induction false} SetHere(a: State, s: State, op: Operand)
    requires Pending(a, s, op) && s.cur < a.Size()
    ensures op.Move? ==> Define(op.local) in Evs(s, s.cur)
  {
    hide Evs, NotLooked, NotMoved;
  }

  // ---- Tail calls ----

  lemma {:induction false} RebindTidy(a: State, s: State, defs: seq<DefId>, ops: seq<Operand>, i: nat)
    requires Tidy(a, s, NoGap(a)) && i <= |defs| && AllPending(a, s, if i < |ops| then ops[i..] else [])
    requires OpenEnd(s) && VarsOk(s)
    ensures Tidy(a, Rebind(s, defs, ops, i), NoGap(a))
    decreases |defs| - i
  {
    hide Tidy, AllPending, OpenEnd, VarsOk;
    if i < |defs| {
      if i >= |ops| {
        RebindTidy(a, s, defs, ops, i + 1);
      } else {
        var l := |s.body.locals|;
        var s1 := NewLocal(s, "tco_p" + Digits(i), Error);
        var s2 := Push(s1, Assign(l, Use(ops[i])));
        var s3 := WriteVariable(s2, defs[i], l);
        RebindOne(a, s, defs[i], ops[i..], "tco_p" + Digits(i));
        assert ops[i..][1..] == ops[i + 1..];
        assert i + 1 == |ops| ==> ops[i + 1..] == [];
        RebindTidy(a, s3, defs, ops, i + 1);
      }
    }
  }

  lemma {:induction false} RebindOne(a: State, s: State, v: DefId, ops: seq<Operand>, name: string)
    requires Tidy(a, s, NoGap(a)) && ops != [] && AllPending(a, s, ops) && OpenEnd(s) && VarsOk(s)
    ensures var l := |s.body.locals|;
      var s' := WriteVariable(Push(NewLocal(s, name, Error), Assign(l, Use(ops[0]))), v, l);
      Tidy(a, s', NoGap(a)) && AllPending(a, s', ops[1..]) && OpenEnd(s') && VarsOk(s')
  {
    hide Tidy, Pending, OpenEnd, VarsOk, Apart;
    var l := |s.body.locals|;
    var (ins, more) := (Assign(l, Use(ops[0])), [Define(l)]);
    TidyKempt(a, s, NoGap(a));
    var s1 := WriteVariable(NewLocal(s, name, Error), v, l);
    BindTidy(s, name, Error, v);
    TidyTrans(a, s, s1, NoGap(a));
    KeepAll(a, s, s1, ops, NoGap(s));
    SameOpen(s, s1);
    OpenTerm(s1);
    assert WriteVariable(Push(NewLocal(s, name, Error), ins), v, l) == Push(s1, ins);
    assert InstrEvents(ins, s1.cur) == Reads([ops[0]], s1.cur) + more;
    assert AllPending(a, s1, [ops[0]]) by {
      assert Pending(a, s1, ops[0]);
      OnePending(a, s1, ops[0]);
    }
    PushTidy(a, s1, ins, [ops[0]], more);
    PushRest(a, s1, ins, more, ops);
    PushOpen(s1, ins);
    SlotVars(s, Push(s1, ins), v);
  }

  lemma {:induction false} PushRest(a: State, s: State, ins: Instruction, more: seq<Event>, ops: seq<Operand>)
    requires Tidy(a, s, NoGap(a)) && ops != [] && AllPending(a, s, ops) && TermEvents(s.Cur().term, s.cur) == []
    requires InstrEvents(ins, s.cur) == Reads([ops[0]], s.cur) + more && Blind(more)
    ensures AllPending(a, Push(s, ins), ops[1..])
  {
    hide Pending, Blind, Used, InstrEvents, EvsKept, NewLooks, NewMoves, Kempt, Framed;
    PushUsed(a, s, ins, [ops[0]], more);
    forall i | 0 <= i < |ops[1..]|
      ensures Pending(a, Push(s, ins), ops[1..][i])
    {
      assert Pending(a, s, ops[i + 1]) && Apart(ops[0], ops[i + 1]);
      UsedPending(a, s, Push(s, ins), NoGap(a), [ops[0]], more, ops[i + 1]);
    }
  }

  lemma {:induction false} SlotVars(s: State, s': State, v: DefId)
    requires VarsOk(s) && s'.vars == s.vars[v := |s.body.locals|] && |s'.body.locals| == |s.body.locals| + 1
    ensures VarsOk(s')
  {
  }
}
