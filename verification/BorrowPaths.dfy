/**
 Initialisation and moves along control flow.  The check tracks both in the order of block numbers; this is
 when what it accepts is also right along every path from the entry.
 */
module BorrowPaths {
  import opened Mir
  import opened Dce
  import opened Liveness
  import opened Borrow
  import opened BorrowCheck

  // ---- What happens along a path ----

  function BlockEvents(b: BasicBlock, n: BlockId): seq<Event> {
    InstrsEvents(b.instrs, n) + TermEvents(b.term, n)
  }

  /** The events of the blocks of `path`, one after the other. */
  function PathEvents(blocks: seq<BasicBlock>, path: seq<BlockId>): seq<Event>
    requires forall i :: 0 <= i < |path| ==> path[i] < |blocks|
  {
    if path == [] then []
    else
      var n := path[|path| - 1];
      PathEvents(blocks, path[..|path| - 1]) + BlockEvents(blocks[n], n)
  }

  ghost predicate EntryPath(body: MirBody, path: seq<BlockId>) {
    EdgePath(body.edges, path) && path[0] == body.entry && InBlocks(body, path)
  }

  predicate InBlocks(body: MirBody, path: seq<BlockId>) {
    forall i :: 0 <= i < |path| ==> path[i] < |body.blocks|
  }

  /** Everything on the path before event `j` of its last block. */
  function Before(body: MirBody, path: seq<BlockId>, j: nat): seq<Event>
    requires path != [] && InBlocks(body, path) && j <= |BlockEvents(body.blocks[Last(path)], Last(path))|
  {
    PathEvents(body.blocks, path[..|path| - 1]) + BlockEvents(body.blocks[Last(path)], Last(path))[..j]
  }

  /** The last block of the path reads, moves or borrows `l` at event `j`. */
  ghost predicate LooksAt(body: MirBody, path: seq<BlockId>, j: nat, l: Local) {
    && EntryPath(body, path)
    && j < |BlockEvents(body.blocks[Last(path)], Last(path))|
    && Looks(BlockEvents(body.blocks[Last(path)], Last(path))[j], l)
  }

  /** Along every path from the entry, only locals that are set and not moved away on that path are looked at. */
  ghost predicate OwnedOnAllPaths(body: MirBody) {
    forall path, j: nat, l: Local :: LooksAt(body, path, j, l) ==> Owned(body, Before(body, path, j), l)
  }

  // ---- The condition, in terms of the computed sets ----

  /** A look at `l` comes before any definition of it. */
  ghost predicate Exposed(evs: seq<Event>, l: Local) {
    exists k: nat :: ExposedBy(evs, l, k)
  }

  predicate ExposedBy(evs: seq<Event>, l: Local, k: nat) {
    k < |evs| && Looks(evs[k], l) && Define(l) !in evs[..k]
  }

  /** What event `j` of block `n` moves away is looked at later, in the block or after it, before it is set again. */
  ghost predicate MovedThenRead(body: MirBody, n: BlockId, j: nat, l: Local)
    requires n < |body.blocks|
  {
    var evs := BlockEvents(body.blocks[n], n);
    && j < |evs| && Consumes(body.locals, evs[j], l)
    && (Exposed(evs[j + 1..], l) || (Define(l) !in evs[j + 1..] && LiveOut(body, n, l)))
  }

  /** Every local live at the entry is a parameter. */
  ghost predicate EntryDefined(body: MirBody) {
    forall l: Local :: LiveIn(body, body.entry, l) ==> l < body.argCount
  }

  ghost predicate MovesFinal(body: MirBody) {
    forall n: BlockId, j: nat, l: Local ::
      n < |body.blocks| && Reachable(body, n) ==> !MovedThenRead(body, n, j, l)
  }

  ghost predicate Reachable(body: MirBody, n: BlockId) {
    exists path :: EntryPath(body, path) && Last(path) == n
  }

  // ---- Exposure ----

  lemma {:induction false} ExposedConcat(a: seq<Event>, b: seq<Event>, l: Local)
    ensures Exposed(a + b, l) <==> Exposed(a, l) || (Define(l) !in a && Exposed(b, l))
  {
    if Exposed(a, l) {
      var k: nat :| ExposedBy(a, l, k);
      assert (a + b)[..k] == a[..k];
      assert ExposedBy(a + b, l, k);
    }
    if Define(l) !in a && Exposed(b, l) {
      var k: nat :| ExposedBy(b, l, k);
      assert (a + b)[..|a| + k] == a + b[..k];
      assert ExposedBy(a + b, l, |a| + k);
    }
    if Exposed(a + b, l) {
      var k: nat :| ExposedBy(a + b, l, k);
      if k < |a| {
        assert (a + b)[..k] == a[..k];
        assert ExposedBy(a, l, k);
      } else {
        assert (a + b)[..k] == a + b[..k - |a|];
        assert ExposedBy(b, l, k - |a|);
      }
    }
  }

  lemma {:induction false} NoneExposed(l: Local)
    ensures !Exposed([], l)
  {
  }

  lemma {:induction false} OneExposed(e: Event, l: Local)
    ensures Exposed([e], l) <==> Looks(e, l)
  {
    if Looks(e, l) {
      assert ExposedBy([e], l, 0);
    }
  }

  lemma {:induction false} ReadsExposed(ops: seq<Operand>, n: BlockId, l: Local)
    ensures Exposed(Reads(ops, n), l) <==> l in OperandsUse(ops)
    ensures Define(l) !in Reads(ops, n)
  {
    var evs := Reads(ops, n);
    if Exposed(evs, l) {
      var k: nat :| ExposedBy(evs, l, k);
      assert ops[k] in ops && l in OperandUses(ops[k]);
    }
    if l in OperandsUse(ops) {
      var op :| op in ops && l in OperandUses(op);
      var k :| 0 <= k < |ops| && ops[k] == op;
      assert ExposedBy(evs, l, k);
    }
  }

  lemma {:induction false} RvalueExposed(rv: Rvalue, n: BlockId, l: Local)
    ensures Exposed(RvalueEvents(rv, n), l) <==> l in RvalueUses(rv)
    ensures Define(l) !in RvalueEvents(rv, n)
  {
    hide Exposed;
    match rv
    case Use(op) => OneExposed(Read(op, n), l);
    case Unary(_, op) => OneExposed(Read(op, n), l);
    case Ref(x, _) => OneExposed(Borrow(x), l);
    case Binary(_, x, y) =>
      OneExposed(Read(x, n), l);
      OneExposed(Read(y, n), l);
      ExposedConcat([Read(x, n)], [Read(y, n)], l);
      assert [Read(x, n)] + [Read(y, n)] == RvalueEvents(rv, n);
  }

  lemma {:induction false} InstrExposed(ins: Instruction, n: BlockId, l: Local)
    ensures Exposed(InstrEvents(ins, n), l) <==> l in CountedUses(ins)
    ensures Define(l) in InstrEvents(ins, n) <==> l in CountedDef(ins)
  {
    hide Exposed, RvalueEvents, RvalueUses, Reads, OperandsUse;
    NoneExposed(l);
    match ins
    case Assign(d, rv) =>
      RvalueExposed(rv, n, l);
      OneExposed(Define(d), l);
      ExposedConcat(RvalueEvents(rv, n), [Define(d)], l);
    case Call(into, _, args) =>
      ReadsExposed(args, n, l);
      if into.Some? {
        OneExposed(Define(into.value), l);
        ExposedConcat(Reads(args, n), [Define(into.value)], l);
      } else {
        assert Reads(args, n) + [] == Reads(args, n);
      }
    case ZoneEnter(z) => OneExposed(Enter(z), l);
    case ZoneExit(z) => OneExposed(Exit(z, n), l);
    case _ =>
  }

  lemma {:induction false} InstrsExposed(instrs: seq<Instruction>, n: BlockId, l: Local)
    ensures Exposed(InstrsEvents(instrs, n), l) <==> l in UsesOf(instrs)
    ensures Define(l) in InstrsEvents(instrs, n) <==> l in DefsOf(instrs)
    decreases |instrs|
  {
    hide Exposed, InstrEvents, CountedUses, CountedDef;
    if instrs == [] {
      NoneExposed(l);
    } else {
      var p, last := instrs[..|instrs| - 1], instrs[|instrs| - 1];
      InstrsExposed(p, n, l);
      InstrExposed(last, n, l);
      ExposedConcat(InstrsEvents(p, n), InstrEvents(last, n), l);
    }
  }

  /** The events of a block expose and define exactly the locals the analysis says. */
  lemma {:induction false} BlockIs(b: BasicBlock, n: BlockId, l: Local)
    ensures Exposed(BlockEvents(b, n), l) <==> l in BlockExposed(b)
    ensures Define(l) in BlockEvents(b, n) <==> l in BlockDefs(b)
  {
    hide Exposed, InstrsEvents;
    InstrsExposed(b.instrs, n, l);
    ExposedConcat(InstrsEvents(b.instrs, n), TermEvents(b.term, n), l);
    match b.term {
      case Some(SwitchInt(op, _, _)) => OneExposed(Read(op, n), l);
      case _ => NoneExposed(l);
    }
  }

  // ---- Losing ownership ----

  /** Event `i` moves `l` away and nothing sets it again. */
  predicate LostAt(locals: seq<LocalData>, evs: seq<Event>, l: Local, i: nat) {
    i < |evs| && Consumes(locals, evs[i], l) && Define(l) !in evs[i + 1..]
  }

  lemma {:induction false} NotOwnedIff(body: MirBody, evs: seq<Event>, l: Local)
    ensures !Owned(body, evs, l) <==>
            (l >= body.argCount && Define(l) !in evs) || exists i: nat :: LostAt(body.locals, evs, l, i)
    decreases |evs|
  {
    hide Consumes;
    if evs != [] {
      var n := |evs| - 1;
      var p, last := evs[..n], evs[n];
      NotOwnedIff(body, p, l);
      assert evs == p + [last];
      forall i: nat | i < n
        ensures evs[i + 1..] == p[i + 1..] + [last] && evs[i] == p[i]
      {
      }
      if last == Define(l) {
        NoConsume(body.locals, l);
        forall i: nat
          ensures !LostAt(body.locals, evs, l, i)
        {
          if i < n {
            assert last in evs[i + 1..];
          }
        }
      } else if Consumes(body.locals, last, l) {
        assert LostAt(body.locals, evs, l, n);
      } else {
        if i: nat :| LostAt(body.locals, p, l, i) {
          assert LostAt(body.locals, evs, l, i);
        }
        if i: nat :| LostAt(body.locals, evs, l, i) {
          assert LostAt(body.locals, p, l, i);
        }
      }
    }
  }

  lemma {:induction false} NoConsume(locals: seq<LocalData>, l: Local)
    ensures !Consumes(locals, Define(l), l)
  {
  }

  // ---- Where on a path ----

  lemma {:induction false} PathConcat(blocks: seq<BasicBlock>, p: seq<BlockId>, q: seq<BlockId>)
    requires forall i :: 0 <= i < |p| ==> p[i] < |blocks|
    requires forall i :: 0 <= i < |q| ==> q[i] < |blocks|
    ensures PathEvents(blocks, p + q) == PathEvents(blocks, p) + PathEvents(blocks, q)
    decreases |q|
  {
    hide BlockEvents;
    if q == [] {
      assert p + q == p;
    } else {
      var r, n := q[..|q| - 1], Last(q);
      assert (p + q)[..|p + q| - 1] == p + r && (p + q)[|p + q| - 1] == n;
      PathConcat(blocks, p, r);
      PathLast(blocks, p + q);
      PathLast(blocks, q);
      hide PathEvents;
      assert PathEvents(blocks, p) + (PathEvents(blocks, r) + BlockEvents(blocks[n], n)) ==
             PathEvents(blocks, p) + PathEvents(blocks, r) + BlockEvents(blocks[n], n);
    }
  }

  /**
   Event `i` of a path's events is event `j` of its block `m`; what follows is the rest of that block and the later
   blocks.
   */
  ghost predicate FoundAt(blocks: seq<BasicBlock>, path: seq<BlockId>, i: nat, m: nat, j: nat) {
    && (forall k :: 0 <= k < |path| ==> path[k] < |blocks|)
    && m < |path| && i < |PathEvents(blocks, path)|
    && var evs := BlockEvents(blocks[path[m]], path[m]);
       && j < |evs| && PathEvents(blocks, path)[i] == evs[j]
       && PathEvents(blocks, path)[i + 1..] == evs[j + 1..] + PathEvents(blocks, path[m + 1..])
  }

  lemma {:induction false} FindEvent(blocks: seq<BasicBlock>, path: seq<BlockId>, i: nat) returns (m: nat, j: nat)
    requires forall k :: 0 <= k < |path| ==> path[k] < |blocks|
    requires i < |PathEvents(blocks, path)|
    ensures FoundAt(blocks, path, i, m, j)
    decreases |path|
  {
    hide BlockEvents;
    var n := |path| - 1;
    var p := path[..n];
    var front, last := PathEvents(blocks, p), BlockEvents(blocks[path[n]], path[n]);
    if i >= |front| {
      m, j := n, i - |front|;
      assert path[n + 1..] == [];
      assert (front + last)[i + 1..] == last[j + 1..] + [];
    } else {
      m, j := FindEvent(blocks, p, i);
      var rest := path[m + 1..];
      assert rest[..|rest| - 1] == p[m + 1..];
      var evs := BlockEvents(blocks[path[m]], path[m]);
      assert (front + last)[i + 1..] == front[i + 1..] + last;
      assert front[i + 1..] + last == evs[j + 1..] + (PathEvents(blocks, p[m + 1..]) + last);
    }
  }

  /** Inner blocks of a path that set nothing, and a last block that exposes `l`: the path makes `l` live. */
  lemma {:induction false} MakesLive(body: MirBody, path: seq<BlockId>, l: Local)
    requires path != [] && EdgePath(body.edges, path) && InBlocks(body, path)
    requires Define(l) !in PathEvents(body.blocks, path[..|path| - 1])
    requires Exposed(BlockEvents(body.blocks[Last(path)], Last(path)), l)
    ensures LivePath(body, path, l)
  {
    hide BlockEvents, Exposed, BlockExposed, BlockDefs, Successors, PathEvents;
    var p := path[..|path| - 1];
    forall i | 0 <= i < |path| - 1
      ensures l !in BlockDefs(body.blocks[path[i]])
    {
      BlockIs(body.blocks[path[i]], path[i], l);
      NoDefinition(body.blocks, p, l, i);
      assert p[i] == path[i];
    }
    BlockIs(body.blocks[Last(path)], Last(path), l);
  }

  lemma {:induction false} NoDefinition(blocks: seq<BasicBlock>, path: seq<BlockId>, l: Local, i: nat)
    requires forall k :: 0 <= k < |path| ==> path[k] < |blocks|
    requires Define(l) !in PathEvents(blocks, path) && i < |path|
    ensures Define(l) !in BlockEvents(blocks[path[i]], path[i])
    decreases |path|
  {
    hide BlockEvents;
    if i < |path| - 1 {
      NoDefinition(blocks, path[..|path| - 1], l, i);
    }
  }

  /** The other way: up to the exposed look of a live path, nothing sets `l`. */
  lemma {:induction false} LiveLook(body: MirBody, path: seq<BlockId>, l: Local) returns (j: nat)
    requires LivePath(body, path, l)
    ensures j < |BlockEvents(body.blocks[Last(path)], Last(path))|
    ensures Looks(BlockEvents(body.blocks[Last(path)], Last(path))[j], l) && Define(l) !in Before(body, path, j)
  {
    hide BlockEvents, BlockExposed, BlockDefs, Looks, Successors;
    BlockIs(body.blocks[Last(path)], Last(path), l);
    var evs := BlockEvents(body.blocks[Last(path)], Last(path));
    j :| ExposedBy(evs, l, j);
    NoneDefine(body, path[..|path| - 1], l);
  }

  lemma {:induction false} NoneDefine(body: MirBody, path: seq<BlockId>, l: Local)
    requires InBlocks(body, path) && forall i :: 0 <= i < |path| ==> l !in BlockDefs(body.blocks[path[i]])
    ensures Define(l) !in PathEvents(body.blocks, path)
    decreases |path|
  {
    hide BlockEvents, BlockDefs;
    if path != [] {
      BlockIs(body.blocks[Last(path)], Last(path), l);
      NoneDefine(body, path[..|path| - 1], l);
    }
  }

  // ---- The condition is enough ----

  // A look before any definition, from the entry on.
  lemma {:induction false} UnsetIsLive(body: MirBody, path: seq<BlockId>, j: nat, l: Local)
    requires LooksAt(body, path, j, l) && Define(l) !in Before(body, path, j)
    ensures LiveIn(body, body.entry, l)
  {
    hide BlockEvents, PathEvents, Looks;
    var evs := BlockEvents(body.blocks[Last(path)], Last(path));
    assert ExposedBy(evs, l, j);
    MakesLive(body, path, l);
  }

  // A look after a move, with no definition between.
  // Lost in the last block of the path.
  lemma {:induction false} LostHere(body: MirBody, path: seq<BlockId>, j: nat, l: Local, i: nat)
    requires LooksAt(body, path, j, l) && LostAt(body.locals, Before(body, path, j), l, i)
    requires i >= |PathEvents(body.blocks, path[..|path| - 1])|
    ensures !MovesFinal(body)
  {
    hide BlockEvents, PathEvents, Looks, Consumes, LiveOut, MovesFinal;
    var p, n := path[..|path| - 1], Last(path);
    var front, evs := PathEvents(body.blocks, p), BlockEvents(body.blocks[n], n);
    var all := front + evs[..j];
    var k := i - |front|;
    assert all[i + 1..] == evs[..j][k + 1..] == evs[k + 1..j];
    assert evs[k + 1..][..j - k - 1] == evs[k + 1..j];
    assert ExposedBy(evs[k + 1..], l, j - k - 1);
    MovedBreaks(body, path, k, l);
  }

  // Lost in an earlier block, from which a live path leads to the look.
  lemma {:induction false} LostBefore(body: MirBody, path: seq<BlockId>, j: nat, l: Local, i: nat)
    requires LooksAt(body, path, j, l) && LostAt(body.locals, Before(body, path, j), l, i)
    requires i < |PathEvents(body.blocks, path[..|path| - 1])|
    ensures !MovesFinal(body)
  {
    hide BlockEvents, PathEvents, Looks, Consumes, LiveOut, MovesFinal, Successors;
    var p, n := path[..|path| - 1], Last(path);
    var front, evs := PathEvents(body.blocks, p), BlockEvents(body.blocks[n], n);
    var all := front + evs[..j];
    var m, k := FindEvent(body.blocks, p, i);
    var b := p[m];
    var tail := BlockEvents(body.blocks[b], b)[k + 1..];
    assert all[i + 1..] == front[i + 1..] + evs[..j] == tail + PathEvents(body.blocks, p[m + 1..]) + evs[..j];
    var rest := path[m + 1..];
    assert rest[..|rest| - 1] == p[m + 1..] && Last(rest) == n;
    assert ExposedBy(evs, l, j);
    SubPath(body, path, m);
    MakesLive(body, rest, l);
    assert LiveIn(body, rest[0], l) && rest[0] in Successors(body.edges, b);
    LiveAfter(body, b, rest[0], l);
    MovedBreaks(body, path[..m + 1], k, l);
  }

  lemma {:induction false} LostIsRead(body: MirBody, path: seq<BlockId>, j: nat, l: Local, i: nat)
    requires LooksAt(body, path, j, l) && LostAt(body.locals, Before(body, path, j), l, i)
    ensures !MovesFinal(body)
  {
    hide LostAt, MovesFinal, BlockEvents, Looks;
    if i < |PathEvents(body.blocks, path[..|path| - 1])| {
      LostBefore(body, path, j, l, i);
    } else {
      LostHere(body, path, j, l, i);
    }
  }

  lemma {:induction false} LiveAfter(body: MirBody, b: BlockId, s: BlockId, l: Local)
    requires s in Successors(body.edges, b) && LiveIn(body, s, l)
    ensures LiveOut(body, b, l)
  {
  }

  // Both halves of a path are paths.
  lemma {:induction false} SubPath(body: MirBody, path: seq<BlockId>, m: nat)
    requires EntryPath(body, path) && m + 1 < |path|
    ensures var rest := path[m + 1..];
      && EntryPath(body, path[..m + 1]) && EdgePath(body.edges, rest) && InBlocks(body, rest)
      && rest[0] in Successors(body.edges, path[m])
  {
    hide Successors;
    var rest := path[m + 1..];
    assert path[m + 1] in Successors(body.edges, path[m]);
    forall i | 0 <= i < |rest| - 1
      ensures rest[i + 1] in Successors(body.edges, rest[i])
    {
      assert path[m + 1 + i + 1] in Successors(body.edges, path[m + 1 + i]);
    }
    var front := path[..m + 1];
    forall i | 0 <= i < |front| - 1
      ensures front[i + 1] in Successors(body.edges, front[i])
    {
      assert path[i + 1] in Successors(body.edges, path[i]);
    }
  }

  lemma {:induction false} MovedBreaks(body: MirBody, path: seq<BlockId>, j: nat, l: Local)
    requires EntryPath(body, path) && MovedThenRead(body, Last(path), j, l)
    ensures !MovesFinal(body)
  {
    hide MovedThenRead, Successors;
    assert Reachable(body, Last(path)) && Last(path) < |body.blocks|;
  }

  lemma {:induction false} ConditionSuffices(body: MirBody)
    requires EntryDefined(body) && MovesFinal(body)
    ensures OwnedOnAllPaths(body)
  {
    hide EntryDefined, MovesFinal, Owned, Before, Looks, BlockEvents;
    forall path, j: nat, l: Local | LooksAt(body, path, j, l)
      ensures Owned(body, Before(body, path, j), l)
    {
      OwnedHere(body, path, j, l);
    }
  }

  lemma {:induction false} OwnedHere(body: MirBody, path: seq<BlockId>, j: nat, l: Local)
    requires EntryDefined(body) && MovesFinal(body) && LooksAt(body, path, j, l)
    ensures Owned(body, Before(body, path, j), l)
  {
    hide MovesFinal, Owned, LiveIn, PathEvents, BlockEvents, Looks;
    var evs := Before(body, path, j);
    hide Before;
    NotOwnedIff(body, evs, l);
    if !Owned(body, evs, l) {
      if i: nat :| LostAt(body.locals, evs, l, i) {
        LostIsRead(body, path, j, l, i);
      } else {
        UnsetIsLive(body, path, j, l);
      }
      assert false;
    }
  }

  // ---- And needed ----

  lemma {:induction false} ConditionNeeded(body: MirBody)
    requires OwnedOnAllPaths(body)
    ensures EntryDefined(body) && MovesFinal(body)
  {
    hide Owned, Before, MovedThenRead, LiveIn;
    forall l: Local | LiveIn(body, body.entry, l)
      ensures l < body.argCount
    {
      LiveMustBeSet(body, l);
    }
    forall n: BlockId, j: nat, l: Local | n < |body.blocks| && Reachable(body, n)
      ensures !MovedThenRead(body, n, j, l)
    {
      if MovedThenRead(body, n, j, l) {
        var path :| EntryPath(body, path) && Last(path) == n;
        ReadOfMoved(body, path, j, l);
      }
    }
  }

  lemma {:induction false} LiveMustBeSet(body: MirBody, l: Local)
    requires OwnedOnAllPaths(body) && LiveIn(body, body.entry, l)
    ensures l < body.argCount
  {
    hide Owned, Before, Looks, BlockEvents;
    var path :| LivePath(body, path, l) && path[0] == body.entry;
    var j := LiveLook(body, path, l);
    assert LooksAt(body, path, j, l);
    NotOwnedIff(body, Before(body, path, j), l);
  }

  lemma {:induction false} ReadOfMoved(body: MirBody, path: seq<BlockId>, j: nat, l: Local)
    requires EntryPath(body, path) && MovedThenRead(body, Last(path), j, l)
    ensures !OwnedOnAllPaths(body)
  {
    hide Owned, BlockEvents, PathEvents, Consumes, Looks, LiveOut, OwnedOnAllPaths;
    var n := Last(path);
    var evs := BlockEvents(body.blocks[n], n);
    var front := PathEvents(body.blocks, path[..|path| - 1]);
    if Exposed(evs[j + 1..], l) {
      var k: nat :| ExposedBy(evs[j + 1..], l, k);
      var at := j + 1 + k;
      assert LooksAt(body, path, at, l);
      var all := Before(body, path, at);
      assert all[|front| + j + 1..] == evs[..at][j + 1..] == evs[j + 1..][..k];
      assert LostAt(body.locals, all, l, |front| + j);
      LostBreaks(body, path, at, l, |front| + j);
    } else {
      ReadFurtherOn(body, path, j, l);
    }
  }

  lemma {:induction false} LostBreaks(body: MirBody, path: seq<BlockId>, j: nat, l: Local, i: nat)
    requires LooksAt(body, path, j, l) && LostAt(body.locals, Before(body, path, j), l, i)
    ensures !OwnedOnAllPaths(body)
  {
    hide Owned, Before, Looks, BlockEvents;
    NotOwnedIff(body, Before(body, path, j), l);
  }

  // The look comes in a later block.
  lemma {:induction false} ReadFurtherOn(body: MirBody, path: seq<BlockId>, j: nat, l: Local)
    requires EntryPath(body, path)
    requires var evs := BlockEvents(body.blocks[Last(path)], Last(path));
      j < |evs| && Consumes(body.locals, evs[j], l) && Define(l) !in evs[j + 1..] && LiveOut(body, Last(path), l)
    ensures !OwnedOnAllPaths(body)
  {
    hide Owned, BlockEvents, PathEvents, Consumes, Looks, Successors, OwnedOnAllPaths, LivePath, LiveIn;
    var n := Last(path);
    var evs := BlockEvents(body.blocks[n], n);
    var front := PathEvents(body.blocks, path[..|path| - 1]);
    var s :| s in Successors(body.edges, n) && LiveIn(body, s, l);
    var q := LiveFrom(body, s, l);
    var k := LiveLook(body, q, l);
    Lengthen(body, path, q, l);
    var all := path + q;
    assert LooksAt(body, all, k, l);
    var now := Before(body, all, k);
    assert all[..|all| - 1] == path + q[..|q| - 1];
    PathConcat(body.blocks, path, q[..|q| - 1]);
    PathLast(body.blocks, path);
    assert now == front + evs + Before(body, q, k);
    var i := |front| + j;
    assert now[i] == evs[j];
    assert now[i + 1..] == evs[j + 1..] + Before(body, q, k);
    assert LostAt(body.locals, now, l, i);
    LostBreaks(body, all, k, l, i);
  }

  lemma {:induction false} LiveFrom(body: MirBody, s: BlockId, l: Local) returns (q: seq<BlockId>)
    requires LiveIn(body, s, l)
    ensures LivePath(body, q, l) && q != [] && InBlocks(body, q) && q[0] == s
  {
    q :| LivePath(body, q, l) && q[0] == s;
  }

  lemma {:induction false} PathLast(blocks: seq<BasicBlock>, path: seq<BlockId>)
    requires path != [] && forall i :: 0 <= i < |path| ==> path[i] < |blocks|
    ensures PathEvents(blocks, path) ==
                PathEvents(blocks, path[..|path| - 1]) + BlockEvents(blocks[Last(path)], Last(path))
  {
  }

  lemma {:induction false} Lengthen(body: MirBody, path: seq<BlockId>, q: seq<BlockId>, l: Local)
    requires EntryPath(body, path) && LivePath(body, q, l) && q[0] in Successors(body.edges, Last(path))
    ensures EntryPath(body, path + q) && InBlocks(body, q) && q != [] && Last(path + q) == Last(q)
  {
    hide Successors, BlockDefs, BlockExposed;
    var all := path + q;
    forall i | 0 <= i < |all| - 1
      ensures all[i + 1] in Successors(body.edges, all[i])
    {
      if i < |path| - 1 {
        assert path[i + 1] in Successors(body.edges, path[i]);
      } else if i >= |path| {
        assert q[i - |path| + 1] in Successors(body.edges, q[i - |path|]);
      }
    }
  }

  // ---- The theorems ----

  /**
   For every body: along all paths from the entry only set and unmoved locals are looked at if and only if
   just parameters are live at the entry, and no reachable move is followed, before the local is set again,
   by a look in its block or by liveness at the block's exit.
   */
  lemma {:induction false} OwnedOnAllPathsIff(body: MirBody)
    ensures OwnedOnAllPaths(body) <==> EntryDefined(body) && MovesFinal(body)
  {
    hide OwnedOnAllPaths, EntryDefined, MovesFinal;
    if OwnedOnAllPaths(body) {
      ConditionNeeded(body);
    }
    if EntryDefined(body) && MovesFinal(body) {
      ConditionSuffices(body);
    }
  }

  /** No path from the entry looks at a local that is no parameter before setting it. */
  ghost predicate SetBeforeRead(body: MirBody) {
    forall path, j: nat, l: Local ::
      LooksAt(body, path, j, l) && l >= body.argCount ==> Define(l) in Before(body, path, j)
  }

  /** That alone holds if and only if the entry set that `Compute` returns holds only parameters. */
  lemma {:induction false} SetBeforeReadIff(body: MirBody, ins: LiveMap, outs: LiveMap)
    requires IsLiveness(body, ins, outs) && body.entry < |body.blocks|
    ensures SetBeforeRead(body) <==> forall l :: l in ins[body.entry] ==> l < body.argCount
  {
    hide Before, LiveIn, LiveOut, BlockEvents, Looks;
    if SetBeforeRead(body) {
      forall l: Local | LiveIn(body, body.entry, l)
        ensures l < body.argCount
      {
        var path := LiveWitness(body, l);
        var j := LiveLook(body, path, l);
        assert LooksAt(body, path, j, l);
      }
    }
    if forall l :: l in ins[body.entry] ==> l < body.argCount {
      forall path, j: nat, l: Local | LooksAt(body, path, j, l) && l >= body.argCount
        ensures Define(l) in Before(body, path, j)
      {
        if Define(l) !in Before(body, path, j) {
          UnsetIsLive(body, path, j, l);
        }
      }
    }
  }

  lemma {:induction false} LiveWitness(body: MirBody, l: Local) returns (path: seq<BlockId>)
    requires LiveIn(body, body.entry, l)
    ensures LivePath(body, path, l) && EntryPath(body, path)
  {
    path :| LivePath(body, path, l) && path[0] == body.entry;
  }

  /** The rules for reads, moves and borrows, along every path from the entry. */
  ghost predicate AllowedOnAllPaths(body: MirBody) {
    forall path, j: nat, l: Local :: LooksAt(body, path, j, l) ==>
      Allowed(body, Before(body, path, j), BlockEvents(body.blocks[Last(path)], Last(path))[j])
  }

  /** An accepted body keeps the ownership rules along every path if and only if it meets the condition above. */
  lemma {:induction false} AcceptedOnAllPathsIff(body: MirBody)
    requires Accepted(body)
    ensures AllowedOnAllPaths(body) <==> EntryDefined(body) && MovesFinal(body)
  {
    hide EntryDefined, MovesFinal, Before, BlockEvents, EventsUpTo, Allowed, Owned, Exclusive, Looks;
    OwnedOnAllPathsIff(body);
    forall path, j: nat, l: Local | LooksAt(body, path, j, l)
      ensures Allowed(body, Before(body, path, j), BlockEvents(body.blocks[Last(path)], Last(path))[j]) <==>
              Owned(body, Before(body, path, j), l)
    {
      OnlyOwnership(body, path, j, l);
    }
  }

  // In an accepted body the other parts of a rule hold wherever the event stands.
  lemma {:induction false} OnlyOwnership(body: MirBody, path: seq<BlockId>, j: nat, l: Local)
    requires Accepted(body) && LooksAt(body, path, j, l)
    ensures Allowed(body, Before(body, path, j), BlockEvents(body.blocks[Last(path)], Last(path))[j]) <==>
            Owned(body, Before(body, path, j), l)
  {
    hide Before, EventsUpTo, Owned, Exclusive;
    var n := Last(path);
    var e := BlockEvents(body.blocks[n], n)[j];
    BlockEventPlaced(body, n, j);
    hide BlockEvents, Accepted;
    EventAllowed(body, e);
  }

  lemma {:induction false} BlockEventPlaced(body: MirBody, n: BlockId, j: nat)
    requires n < |body.blocks| && j < |BlockEvents(body.blocks[n], n)|
    ensures BlockEvents(body.blocks[n], n)[j] in EventsUpTo(body.blocks, |body.blocks|)
  {
    hide InstrsEvents, TermEvents;
    var e := BlockEvents(body.blocks[n], n)[j];
    EventsInside(body.blocks, n + 1, |body.blocks|, e);
  }
}
