/** `BorrowChecker::check_all`: what one pass over the blocks accepts, stated and then run. */
module BorrowCheck {
  import opened Common
  import opened Mir
  import opened Liveness
  import opened Borrow

  datatype BorrowError =
    | SharedWhileMutable(name: string)
    | MutableMoreThanOnce(name: string)
    | UseOfMoved(name: string)
    | BorrowOfMoved(name: string)
    | MoveWhileBorrowed(name: string)
    | CopyOfNonCopyable(ty: Type, name: string)
    | EscapesZone(zone: string)

  predicate IsTypeCopyable(ty: Type) {
    match ty
    case Prim(_) => true
    case Pointer(_, isMut) => !isMut
    case Error => true
    case _ => false
  }

  // ---- What the pass looks at, in order ----

  datatype Event =
    | Read(op: Operand, at: BlockId)
    | Borrow(local: Local)
    | Define(local: Local)
    | Enter(zone: string)
    | Exit(zone: string, at: BlockId)

  predicate Looks(e: Event, l: Local) {
    match e
    case Read(Copy(x), _) => x == l
    case Read(Move(x), _) => x == l
    case Borrow(x) => x == l
    case _ => false
  }

  function Reads(ops: seq<Operand>, n: BlockId): seq<Event> {
    seq(|ops|, i requires 0 <= i < |ops| => Read(ops[i], n))
  }

  function RvalueEvents(rv: Rvalue, n: BlockId): seq<Event> {
    match rv
    case Use(op) => [Read(op, n)]
    case Binary(_, l, r) => [Read(l, n), Read(r, n)]
    case Unary(_, op) => [Read(op, n)]
    case Ref(l, _) => [Borrow(l)]
  }

  function InstrEvents(ins: Instruction, n: BlockId): seq<Event> {
    match ins
    case Assign(d, rv) => RvalueEvents(rv, n) + [Define(d)]
    case Call(into, _, args) => Reads(args, n) + (if into.Some? then [Define(into.value)] else [])
    case ZoneEnter(z) => [Enter(z)]
    case ZoneExit(z) => [Exit(z, n)]
    case _ => []
  }

  function InstrsEvents(instrs: seq<Instruction>, n: BlockId): seq<Event> {
    if instrs == [] then []
    else InstrsEvents(instrs[..|instrs| - 1], n) + InstrEvents(instrs[|instrs| - 1], n)
  }

  function TermEvents(term: Option<Terminator>, n: BlockId): seq<Event> {
    match term
    case Some(SwitchInt(op, _, _)) => [Read(op, n)]
    case _ => []
  }

  /** Everything the pass looks at in blocks `0..k`, in index order: not along control flow. */
  function EventsUpTo(blocks: seq<BasicBlock>, k: nat): seq<Event>
    requires k <= |blocks|
  {
    if k == 0 then []
    else EventsUpTo(blocks, k - 1) + InstrsEvents(blocks[k - 1].instrs, k - 1) + TermEvents(blocks[k - 1].term, k - 1)
  }

  // ---- The three running records ----

  predicate Consumes(locals: seq<LocalData>, e: Event, l: Local) {
    e.Read? && e.op == Move(l) && l < |locals| && !IsTypeCopyable(locals[l].ty)
  }

  /** Initialised and not moved out after events `evs`. */
  ghost predicate Owned(body: MirBody, evs: seq<Event>, l: Local) {
    if evs == [] then l < body.argCount
    else
      var last := evs[|evs| - 1];
      last == Define(l) || (!Consumes(body.locals, last, l) && Owned(body, evs[..|evs| - 1], l))
  }

  function ZoneStack(evs: seq<Event>): seq<string> {
    if evs == [] then []
    else
      var zones := ZoneStack(evs[..|evs| - 1]);
      match evs[|evs| - 1]
      case Enter(z) => zones + [z]
      case Exit(z, _) => if IsTop(zones, z) then zones[..|zones| - 1] else zones
      case _ => zones
  }

  predicate IsTop(zones: seq<string>, z: string) {
    zones != [] && zones[|zones| - 1] == z
  }

  predicate ZoneType(ty: Type) {
    ty.Pointer? || ty.Adt?
  }

  /** Some definition of `l`, a pointer or a structure, came while `z` was the innermost open zone. */
  ghost predicate AllocatedIn(body: MirBody, evs: seq<Event>, z: string, l: Local) {
    exists i :: 0 <= i < |evs| && evs[i] == Define(l) && l < |body.locals|
      && ZoneType(body.locals[l].ty) && IsTop(ZoneStack(evs[..i]), z)
  }

  /** A borrow of `l` is held in the block that closes the zone or in a later one. */
  ghost predicate BorrowedFrom(body: MirBody, l: Local, n: BlockId) {
    exists m :: n <= m < |body.blocks| && BorrowedAt(body, l, m)
  }

  // ---- What is accepted ----

  /** The rule for one event, given everything before it. */
  ghost predicate Allowed(body: MirBody, before: seq<Event>, e: Event) {
    match e
    case Read(Copy(l), _) => Owned(body, before, l) && l < |body.locals| && IsTypeCopyable(body.locals[l].ty)
    case Read(Move(l), n) => Owned(body, before, l) && !BorrowedAt(body, l, n)
    case Borrow(l) => Owned(body, before, l)
    case Exit(z, n) =>
      IsTop(ZoneStack(before), z) ==> forall l :: AllocatedIn(body, before, z, l) ==> !BorrowedFrom(body, l, n)
    case _ => true
  }

  ghost predicate AllAllowed(body: MirBody, evs: seq<Event>) {
    forall i :: 0 <= i < |evs| ==> Allowed(body, evs[..i], evs[i])
  }

  ghost predicate BothHeld(body: MirBody, s: Site, t: Site, x: Local, n: BlockId) {
    && BorrowSite(body, s, x) && Held(body, s, x, n)
    && BorrowSite(body, t, x) && Held(body, t, x, n)
  }

  /** Aliasing xor mutability in block `n`: two borrows of one local held there are both shared. */
  ghost predicate Exclusive(body: MirBody, n: BlockId) {
    forall x, s, t :: BothHeld(body, s, t, x, n) && s != t ==> !MutableSite(body, s, x) && !MutableSite(body, t, x)
  }

  ghost predicate Accepted(body: MirBody) {
    && (forall n :: 0 <= n < |body.blocks| ==> Exclusive(body, n))
    && AllAllowed(body, EventsUpTo(body.blocks, |body.blocks|))
  }

  // Every local mentioned has its `LocalData`; the original indexes `locals` without a check.
  predicate InRange(locals: seq<LocalData>, e: Event) {
    match e
    case Read(Copy(l), _) => l < |locals|
    case Read(Move(l), _) => l < |locals|
    case Borrow(l) => l < |locals|
    case Define(l) => l < |locals|
    case _ => true
  }

  // ---- What is reported ----

  function NameOf(body: MirBody, l: Local): string
    requires l < |body.locals|
  {
    body.locals[l].name
  }

  /** What the pass says about one read, in this order. */
  ghost function OperandErrors(body: MirBody, before: seq<Event>, op: Operand, n: BlockId): seq<BorrowError>
    requires InRange(body.locals, Read(op, n))
  {
    match op
    case Const(_) => []
    case Copy(l) =>
      (if Owned(body, before, l) then [] else [UseOfMoved(NameOf(body, l))])
      + if IsTypeCopyable(body.locals[l].ty) then [] else [CopyOfNonCopyable(body.locals[l].ty, NameOf(body, l))]
    case Move(l) =>
      (if Owned(body, before, l) then [] else [UseOfMoved(NameOf(body, l))])
      + if BorrowedAt(body, l, n) then [MoveWhileBorrowed(NameOf(body, l))] else []
  }

  /** `x` is reported about event `e`. */
  ghost predicate Tells(body: MirBody, before: seq<Event>, e: Event, x: BorrowError) {
    InRange(body.locals, e) &&
    match e
    case Read(op, n) => x in OperandErrors(body, before, op, n)
    case Borrow(l) => x == BorrowOfMoved(NameOf(body, l)) && !Owned(body, before, l)
    case Exit(z, n) =>
      x == EscapesZone(z) && IsTop(ZoneStack(before), z)
      && exists l :: AllocatedIn(body, before, z, l) && BorrowedFrom(body, l, n)
    case _ => false
  }

  /** `x` is reported about some event of `more`, after `evs`. */
  ghost predicate Told(body: MirBody, evs: seq<Event>, more: seq<Event>, x: BorrowError) {
    exists i :: 0 <= i < |more| && Tells(body, evs + more[..i], more[i], x)
  }

  ghost predicate SharedClash(body: MirBody, l: Local, n: BlockId) {
    exists s, t :: BothHeld(body, s, t, l, n) && MutableSite(body, s, l) && !MutableSite(body, t, l)
  }

  ghost predicate MutableClash(body: MirBody, l: Local, n: BlockId) {
    exists s, t :: BothHeld(body, s, t, l, n) && s != t && MutableSite(body, s, l) && MutableSite(body, t, l)
  }

  /** `x` is reported about the borrows held in block `n`. */
  ghost predicate Clashes(body: MirBody, n: BlockId, x: BorrowError) {
    exists l: Local :: l < |body.locals| && ClashOf(body, n, l, x)
  }

  ghost predicate ClashOf(body: MirBody, n: BlockId, l: Local, x: BorrowError)
    requires l < |body.locals|
  {
    || (x == SharedWhileMutable(NameOf(body, l)) && SharedClash(body, l, n))
    || (x == MutableMoreThanOnce(NameOf(body, l)) && MutableClash(body, l, n))
  }

  ghost predicate AllInRange(body: MirBody) {
    forall e :: e in EventsUpTo(body.blocks, |body.blocks|) ==> InRange(body.locals, e)
  }

  // ---- Extending a run by one event ----

  lemma {:induction false} Extend(body: MirBody, evs: seq<Event>, e: Event)
    ensures AllAllowed(body, evs + [e]) <==> AllAllowed(body, evs) && Allowed(body, evs, e)
    ensures forall l :: Owned(body, evs + [e], l) <==>
                e == Define(l) || (!Consumes(body.locals, e, l) && Owned(body, evs, l))
    ensures ZoneStack(evs + [e]) ==
            (match e
             case Enter(z) => ZoneStack(evs) + [z]
             case Exit(z, _) => if IsTop(ZoneStack(evs), z) then ZoneStack(evs)[..|ZoneStack(evs)| - 1]
                 else ZoneStack(evs)
             case _ => ZoneStack(evs))
  {
    var all := evs + [e];
    assert all[..|evs|] == evs && all[|evs|] == e;
    hide Allowed;
    forall i | 0 <= i < |evs|
      ensures all[..i] == evs[..i] && all[i] == evs[i]
    {
    }
    if AllAllowed(body, all) {
      forall i | 0 <= i < |evs|
        ensures Allowed(body, evs[..i], evs[i])
      {
        assert Allowed(body, all[..i], all[i]);
      }
      assert Allowed(body, all[..|evs|], all[|evs|]);
    }
  }

  lemma ExtendZones(body: MirBody, evs: seq<Event>, e: Event, z: string, l: Local)
    ensures AllocatedIn(body, evs + [e], z, l) <==>
            AllocatedIn(body, evs, z, l)
            || (e == Define(l) && l < |body.locals| && ZoneType(body.locals[l].ty) && IsTop(ZoneStack(evs), z))
  {
    var all := evs + [e];
    assert all[..|evs|] == evs && all[|evs|] == e;
    hide ZoneStack;
    forall i | 0 <= i < |evs|
      ensures all[..i] == evs[..i] && all[i] == evs[i]
    {
    }
    if AllocatedIn(body, evs, z, l) {
      var i :| 0 <= i < |evs| && evs[i] == Define(l) && l < |body.locals|
        && ZoneType(body.locals[l].ty) && IsTop(ZoneStack(evs[..i]), z);
      assert all[i] == Define(l) && IsTop(ZoneStack(all[..i]), z);
    }
    if AllocatedIn(body, all, z, l) {
      var i :| 0 <= i < |all| && all[i] == Define(l) && l < |body.locals|
        && ZoneType(body.locals[l].ty) && IsTop(ZoneStack(all[..i]), z);
      if i < |evs| {
        assert evs[i] == Define(l) && IsTop(ZoneStack(evs[..i]), z);
      }
    }
  }

  /** The three records hold exactly what the events so far say. */
  ghost predicate Tracks(
    body: MirBody, evs: seq<Event>, initialized: set<Local>, zones: seq<string>, allocs: map<string, set<Local>>)
  {
    && (forall l :: l in initialized <==> Owned(body, evs, l))
    && zones == ZoneStack(evs)
    && (forall z, l :: z in allocs && l in allocs[z] <==> AllocatedIn(body, evs, z, l))
  }

  // ---- The inferred borrows say the same ----

  lemma BorrowedIff(body: MirBody, active: BorrowMap, x: Local, n: BlockId)
    requires Represents(body, active) && n < |body.blocks|
    ensures BorrowedAt(body, x, n) <==> exists j :: 0 <= j < |Lookup(active, x)| && n in Lookup(active, x)[j].region
  {
    hide SitesOf, Held, BorrowSite;
    var bs, sites := Lookup(active, x), SitesOf(body, x);
    assert StandFor(body, bs, sites, x);
    SitesOfMembers(body, x);
    if BorrowedAt(body, x, n) {
      var s :| BorrowSite(body, s, x) && Held(body, s, x, n);
      var j :| 0 <= j < |sites| && sites[j] == s;
      assert Stands(body, bs[j], s, x);
    }
    if j :| 0 <= j < |bs| && n in bs[j].region {
      assert Stands(body, bs[j], sites[j], x);
    }
  }

  lemma SitesOfMembers(body: MirBody, x: Local)
    ensures Distinct(SitesOf(body, x))
    ensures forall s :: s in SitesOf(body, x) <==> BorrowSite(body, s, x)
  {
    SitesUpToMembers(body, |body.blocks|, x);
  }

  /** What one pass reports, of a body's events in order and of the borrows held in each block. */
  ghost predicate Reported(body: MirBody, x: BorrowError) {
    || Told(body, [], EventsUpTo(body.blocks, |body.blocks|), x)
    || exists n :: 0 <= n < |body.blocks| && Clashes(body, n, x)
  }

  // ---- Reports about a run ----

  lemma {:induction false} ToldNone(body: MirBody, evs: seq<Event>)
    ensures forall x :: !Told(body, evs, [], x)
  {
  }

  lemma {:induction false} ToldOne(body: MirBody, evs: seq<Event>, e: Event)
    ensures forall x :: Told(body, evs, [e], x) <==> Tells(body, evs, e, x)
  {
    hide Tells;
    assert evs + [e][..0] == evs;
    forall x | Tells(body, evs, e, x)
      ensures Told(body, evs, [e], x)
    {
      assert Tells(body, evs + [e][..0], [e][0], x);
    }
  }

  lemma {:induction false} ToldAdd(body: MirBody, evs: seq<Event>, a: seq<Event>, b: seq<Event>)
    ensures forall x :: Told(body, evs, a + b, x) <==> Told(body, evs, a, x) || Told(body, evs + a, b, x)
  {
    hide Tells;
    var all := a + b;
    forall i | 0 <= i < |a|
      ensures all[..i] == a[..i] && all[i] == a[i]
    {
    }
    forall i | 0 <= i < |b|
      ensures all[|a| + i] == b[i] && evs + all[..|a| + i] == evs + a + b[..i]
    {
      assert all[..|a| + i] == a + b[..i];
    }
    forall x
      ensures Told(body, evs, all, x) <==> Told(body, evs, a, x) || Told(body, evs + a, b, x)
    {
      if i :| 0 <= i < |a| && Tells(body, evs + a[..i], a[i], x) {
        assert Tells(body, evs + all[..i], all[i], x);
      }
      if i :| 0 <= i < |b| && Tells(body, evs + a + b[..i], b[i], x) {
        assert Tells(body, evs + all[..|a| + i], all[|a| + i], x);
      }
      if i :| 0 <= i < |all| && Tells(body, evs + all[..i], all[i], x) {
        if i < |a| {
          assert Tells(body, evs + a[..i], a[i], x);
        } else {
          assert Tells(body, evs + a + b[..i - |a|], b[i - |a|], x);
        }
      }
    }
  }

  /** An event is allowed exactly if nothing is reported about it. */
  lemma {:induction false} AllowedIff(body: MirBody, before: seq<Event>, e: Event)
    requires InRange(body.locals, e)
    ensures Allowed(body, before, e) <==> forall x :: !Tells(body, before, e, x)
  {
    hide Owned, BorrowedAt, ZoneStack, AllocatedIn, BorrowedFrom, IsTop;
    match e
    case Read(Copy(l), n) =>
      assert Tells(body, before, e, UseOfMoved(NameOf(body, l))) <==> !Owned(body, before, l);
      assert Tells(body, before, e, CopyOfNonCopyable(body.locals[l].ty, NameOf(body, l)))
        <==> !IsTypeCopyable(body.locals[l].ty);
    case Read(Move(l), n) =>
      assert Tells(body, before, e, UseOfMoved(NameOf(body, l))) <==> !Owned(body, before, l);
      assert Tells(body, before, e, MoveWhileBorrowed(NameOf(body, l))) <==> BorrowedAt(body, l, n);
    case Borrow(l) => assert Tells(body, before, e, BorrowOfMoved(NameOf(body, l))) <==> !Owned(body, before, l);
    case Exit(z, n) => assert Tells(body, before, e, EscapesZone(z)) <==> !Allowed(body, before, e);
    case _ =>
  }

  /** So a run is allowed exactly if nothing is reported about it. */
  lemma {:induction false} AllAllowedIff(body: MirBody, evs: seq<Event>)
    requires forall e :: e in evs ==> InRange(body.locals, e)
    ensures AllAllowed(body, evs) <==> forall x :: !Told(body, [], evs, x)
  {
    hide Allowed, Tells, InRange;
    forall i | 0 <= i < |evs|
      ensures [] + evs[..i] == evs[..i]
      ensures Allowed(body, evs[..i], evs[i]) <==> forall x :: !Tells(body, evs[..i], evs[i], x)
    {
      AllowedIff(body, evs[..i], evs[i]);
    }
    if !AllAllowed(body, evs) {
      var i :| 0 <= i < |evs| && !Allowed(body, evs[..i], evs[i]);
      var x :| Tells(body, evs[..i], evs[i], x);
      assert Tells(body, [] + evs[..i], evs[i], x);
      assert Told(body, [], evs, x);
    }
    if x :| Told(body, [], evs, x) {
      var i :| 0 <= i < |evs| && Tells(body, [] + evs[..i], evs[i], x);
      assert Tells(body, evs[..i], evs[i], x);
      assert !Allowed(body, evs[..i], evs[i]);
      assert !AllAllowed(body, evs);
    }
  }

  lemma {:induction false} SitesInRange(body: MirBody, s: Site, x: Local)
    requires AllInRange(body) && BorrowSite(body, s, x)
    ensures x < |body.locals|
  {
    hide EventsUpTo;
    var ins := body.blocks[s.block].instrs[s.index];
    assert InstrEvents(ins, s.block)[0] == Borrow(x);
    EventPlaced(body, s.block, s.index, Borrow(x));
  }

  /** A body is accepted exactly if nothing is reported about it. */
  lemma {:induction false} AcceptedIff(body: MirBody)
    requires AllInRange(body)
    ensures Accepted(body) <==> forall x :: !Reported(body, x)
  {
    hide EventsUpTo, AllAllowed, Told, Exclusive, Clashes, BorrowSite, InRange;
    AllAllowedIff(body, EventsUpTo(body.blocks, |body.blocks|));
    forall s, x: Local | BorrowSite(body, s, x)
      ensures x < |body.locals|
    {
      SitesInRange(body, s, x);
    }
    forall n | 0 <= n < |body.blocks|
      ensures Exclusive(body, n) <==> forall x :: !Clashes(body, n, x)
    {
      ExclusiveIff(body, n);
    }
    if forall x :: !Reported(body, x) {
      forall x
        ensures !Told(body, [], EventsUpTo(body.blocks, |body.blocks|), x)
      {
        assert !Reported(body, x);
      }
      forall n, x | 0 <= n < |body.blocks|
        ensures !Clashes(body, n, x)
      {
        assert !Reported(body, x);
      }
    }
    if x :| Reported(body, x) {
      if n :| 0 <= n < |body.blocks| && Clashes(body, n, x) {
        assert !Exclusive(body, n);
      }
      assert !Accepted(body);
    }
  }

  lemma {:induction false} NothingIn(errors: seq<BorrowError>)
    ensures errors == [] <==> forall x :: x !in errors
  {
    if errors != [] {
      assert errors[0] in errors;
    }
  }

  lemma {:induction false} ReadTells(body: MirBody, before: seq<Event>, op: Operand, n: BlockId)
    requires InRange(body.locals, Read(op, n))
    ensures forall x :: Tells(body, before, Read(op, n), x) <==> x in OperandErrors(body, before, op, n)
  {
    hide OperandErrors;
  }

  // ---- Clashes, in the list of borrows ----

  ghost predicate ListedShared(bs: seq<ActiveBorrow>, n: BlockId) {
    exists i, j ::
      0 <= i < |bs| && 0 <= j < |bs| && n in bs[i].region && n in bs[j].region && bs[i].isMut && !bs[j].isMut
  }

  ghost predicate ListedMutable(bs: seq<ActiveBorrow>, n: BlockId) {
    exists i, j :: 0 <= i < j < |bs| && n in bs[i].region && n in bs[j].region && bs[i].isMut && bs[j].isMut
  }

  lemma {:induction false} SharedClashIff(body: MirBody, active: BorrowMap, l: Local, n: BlockId)
    requires Represents(body, active) && n < |body.blocks|
    ensures SharedClash(body, l, n) <==> ListedShared(Lookup(active, l), n)
  {
    hide SitesOf, Held, BorrowSite, MutableSite;
    var bs, sites := Lookup(active, l), SitesOf(body, l);
    assert StandFor(body, bs, sites, l);
    SitesOfMembers(body, l);
    if SharedClash(body, l, n) {
      var s, t :| BothHeld(body, s, t, l, n) && MutableSite(body, s, l) && !MutableSite(body, t, l);
      var i :| 0 <= i < |sites| && sites[i] == s;
      var j :| 0 <= j < |sites| && sites[j] == t;
      assert Stands(body, bs[i], s, l) && Stands(body, bs[j], t, l);
    }
    if i, j :| 0 <= i < |bs| && 0 <= j < |bs| && n in bs[i].region && n in bs[j].region && bs[i].isMut && !bs[j].isMut {
      assert Stands(body, bs[i], sites[i], l) && Stands(body, bs[j], sites[j], l);
      assert BothHeld(body, sites[i], sites[j], l, n);
    }
  }

  lemma {:induction false} MutableClashIff(body: MirBody, active: BorrowMap, l: Local, n: BlockId)
    requires Represents(body, active) && n < |body.blocks|
    ensures MutableClash(body, l, n) <==> ListedMutable(Lookup(active, l), n)
  {
    hide SitesOf, Held, BorrowSite, MutableSite;
    var bs, sites := Lookup(active, l), SitesOf(body, l);
    assert StandFor(body, bs, sites, l);
    SitesOfMembers(body, l);
    if MutableClash(body, l, n) {
      var s, t :| BothHeld(body, s, t, l, n) && s != t && MutableSite(body, s, l) && MutableSite(body, t, l);
      var i :| 0 <= i < |sites| && sites[i] == s;
      var j :| 0 <= j < |sites| && sites[j] == t;
      assert Stands(body, bs[i], s, l) && Stands(body, bs[j], t, l);
    }
    if i, j :| 0 <= i < j < |bs| && n in bs[i].region && n in bs[j].region && bs[i].isMut && bs[j].isMut {
      assert Stands(body, bs[i], sites[i], l) && Stands(body, bs[j], sites[j], l);
      assert BothHeld(body, sites[i], sites[j], l, n);
    }
  }

  lemma {:induction false} ClashOfIs(body: MirBody, active: BorrowMap, n: BlockId, l: Local)
    requires Represents(body, active) && n < |body.blocks| && l in active && l < |body.locals|
    ensures forall x :: ClashOf(body, n, l, x) <==>
              (x == SharedWhileMutable(NameOf(body, l)) && ListedShared(active[l], n))
              || (x == MutableMoreThanOnce(NameOf(body, l)) && ListedMutable(active[l], n))
  {
    hide Represents, SharedClash, MutableClash, ListedShared, ListedMutable;
    SharedClashIff(body, active, l, n);
    MutableClashIff(body, active, l, n);
  }

  // Only borrowed locals clash.
  lemma {:induction false} ClashesAre(body: MirBody, active: BorrowMap, n: BlockId)
    requires Represents(body, active) && n < |body.blocks| && forall x :: x in active ==> x < |body.locals|
    ensures forall x :: Clashes(body, n, x) <==> exists l :: l in active && ClashOf(body, n, l, x)
  {
    hide Represents, SharedClash, MutableClash;
    forall l: Local | l !in active
      ensures !SharedClash(body, l, n) && !MutableClash(body, l, n)
    {
      SharedClashIff(body, active, l, n);
      MutableClashIff(body, active, l, n);
    }
  }

  /** Aliasing xor mutability holds in a block exactly if no clash is reported there. */
  lemma {:induction false} ExclusiveIff(body: MirBody, n: BlockId)
    requires forall s, x: Local :: BorrowSite(body, s, x) ==> x < |body.locals|
    ensures Exclusive(body, n) <==> forall x :: !Clashes(body, n, x)
  {
    hide Held, BorrowSite, MutableSite;
    if !Exclusive(body, n) {
      var l, s, t :| BothHeld(body, s, t, l, n) && s != t && (MutableSite(body, s, l) || MutableSite(body, t, l));
      assert BothHeld(body, t, s, l, n);
      assert SharedClash(body, l, n) || MutableClash(body, l, n);
      var x := if SharedClash(body, l, n) then SharedWhileMutable(NameOf(body, l))
               else MutableMoreThanOnce(NameOf(body, l));
      assert ClashOf(body, n, l, x);
      assert Clashes(body, n, x);
    }
    if x :| Clashes(body, n, x) {
      var l: Local :| l < |body.locals| && ClashOf(body, n, l, x);
      if SharedClash(body, l, n) {
        var s, t :| BothHeld(body, s, t, l, n) && MutableSite(body, s, l) && !MutableSite(body, t, l);
        assert BothHeld(body, s, t, l, n) && s != t;
      } else {
        var s, t :| BothHeld(body, s, t, l, n) && s != t && MutableSite(body, s, l) && MutableSite(body, t, l);
        assert BothHeld(body, s, t, l, n);
      }
      assert !Exclusive(body, n);
    }
  }

  // ---- The checker ----

  class BorrowChecker {
    var errors: seq<BorrowError>

    constructor ()
      ensures errors == []
    {
      errors := [];
    }

    /** The two tests made for each borrowed local before a block's instructions. */
    method CheckClashes(body: MirBody, active: BorrowMap, node: BlockId)
      requires Represents(body, active) && node < |body.blocks|
      requires forall x :: x in active ==> x < |body.locals|
      modifies this
      ensures old(errors) <= errors
      ensures forall x :: x in errors <==> x in old(errors) || Clashes(body, node, x)
    {
      ClashesAre(body, active, node);
      hide Clashes, ClashOf, Represents;
      var keys := active.Keys;
      while keys != {}
        invariant keys <= active.Keys
        invariant old(errors) <= errors
        invariant forall x :: x in errors <==>
                    x in old(errors) || exists l :: l in active.Keys - keys && ClashOf(body, node, l, x)
      {
        var l :| l in keys;
        keys := keys - {l};
        var borrows := active[l];
        var hasMut, shared, muts := Tally(borrows, node);
        ClashOfIs(body, active, node, l);
        ghost var before := errors;
        if hasMut && shared > 0 {
          errors := errors + [SharedWhileMutable(body.locals[l].name)];
        }
        if hasMut && muts > 1 {
          errors := errors + [MutableMoreThanOnce(body.locals[l].name)];
        }
        assert forall x :: x in errors <==> x in before || ClashOf(body, node, l, x);
        assert forall k :: k in active.Keys - keys <==> k == l || k in active.Keys - keys - {l};
      }
    }

    /** Counts the shared and the mutable borrows that hold `node`. */
    static method Tally(borrows: seq<ActiveBorrow>, node: BlockId) returns (hasMut: bool, shared: nat, muts: nat)
      ensures hasMut && shared > 0 <==> ListedShared(borrows, node)
      ensures hasMut && muts > 1 <==> ListedMutable(borrows, node)
    {
      hasMut, shared, muts := false, 0, 0;
      var i := 0;
      while i < |borrows|
        invariant i <= |borrows|
        invariant hasMut <==> exists j :: 0 <= j < i && node in borrows[j].region && borrows[j].isMut
        invariant hasMut <==> muts > 0
        invariant shared > 0 <==> exists j :: 0 <= j < i && node in borrows[j].region && !borrows[j].isMut
        invariant muts > 1 <==> (exists j, k :: 0 <= j < k < i && node in borrows[j].region && node in borrows[k].region
                                                && borrows[j].isMut && borrows[k].isMut)
      {
        var b := borrows[i];
        if node in b.region {
          if b.isMut {
            hasMut := true;
            muts := muts + 1;
          } else {
            shared := shared + 1;
          }
        }
        i := i + 1;
      }
    }

    method CheckOperand(op: Operand, initialized: set<Local>, body: MirBody, active: BorrowMap, block: BlockId,
                        ghost evs: seq<Event>)
      returns (left: set<Local>)
      requires Represents(body, active) && block < |body.blocks| && InRange(body.locals, Read(op, block))
      requires forall l :: l in initialized <==> Owned(body, evs, l)
      modifies this
      ensures errors == old(errors) + OperandErrors(body, evs, op, block)
      ensures forall l :: l in left <==> Owned(body, evs + [Read(op, block)], l)
    {
      Extend(body, evs, Read(op, block));
      hide Represents, Allowed, AllAllowed, Owned, ZoneStack, BorrowedAt;
      left := initialized;
      if op.Copy? || op.Move? {
        var l := op.local;
        if l !in initialized {
          errors := errors + [UseOfMoved(body.locals[l].name)];
        }
        if op.Move? {
          BorrowedIff(body, active, l, block);
          var held := HoldsAny(Lookup(active, l), block);
          if held {
            errors := errors + [MoveWhileBorrowed(body.locals[l].name)];
          }
        }
        var ty := body.locals[l].ty;
        if !IsTypeCopyable(ty) {
          if op.Move? {
            left := left - {l};
          } else {
            errors := errors + [CopyOfNonCopyable(ty, body.locals[l].name)];
          }
        }
      }
    }

    static method HoldsAny(borrows: seq<ActiveBorrow>, block: BlockId) returns (held: bool)
      ensures held <==> exists j :: 0 <= j < |borrows| && block in borrows[j].region
    {
      held := false;
      for i := 0 to |borrows|
        invariant held <==> exists j :: 0 <= j < i && block in borrows[j].region
      {
        held := held || block in borrows[i].region;
      }
    }

    method CheckRvalue(rv: Rvalue, initialized: set<Local>, body: MirBody, active: BorrowMap, block: BlockId,
                       ghost evs: seq<Event>)
      returns (left: set<Local>)
      requires Represents(body, active) && block < |body.blocks|
      requires forall e :: e in RvalueEvents(rv, block) ==> InRange(body.locals, e)
      requires forall l :: l in initialized <==> Owned(body, evs, l)
      modifies this
      ensures old(errors) <= errors
      ensures forall x :: x in errors <==> x in old(errors) || Told(body, evs, RvalueEvents(rv, block), x)
      ensures forall l :: l in left <==> Owned(body, evs + RvalueEvents(rv, block), l)
    {
      assert forall e :: e in RvalueEvents(rv, block) ==> InRange(body.locals, e);
      hide Represents, Owned, Told, OperandErrors;
      match rv {
        case Use(op) =>
          assert Read(op, block) in RvalueEvents(rv, block);
          ToldOne(body, evs, Read(op, block));
          left := CheckOperand(op, initialized, body, active, block, evs);
        case Unary(_, op) =>
          assert Read(op, block) in RvalueEvents(rv, block);
          ToldOne(body, evs, Read(op, block));
          left := CheckOperand(op, initialized, body, active, block, evs);
        case Binary(_, l, r) =>
          assert Read(l, block) in RvalueEvents(rv, block) && Read(r, block) in RvalueEvents(rv, block);
          ToldOne(body, evs, Read(l, block));
          ToldOne(body, evs + [Read(l, block)], Read(r, block));
          ToldAdd(body, evs, [Read(l, block)], [Read(r, block)]);
          assert [Read(l, block)] + [Read(r, block)] == RvalueEvents(rv, block);
          assert evs + [Read(l, block)] + [Read(r, block)] == evs + RvalueEvents(rv, block);
          left := CheckOperand(l, initialized, body, active, block, evs);
          left := CheckOperand(r, left, body, active, block, evs + [Read(l, block)]);
        case Ref(l, _) =>
          assert Borrow(l) in RvalueEvents(rv, block);
          ToldOne(body, evs, Borrow(l));
          Extend(body, evs, Borrow(l));
          left := initialized;
          if l !in initialized {
            errors := errors + [BorrowOfMoved(body.locals[l].name)];
          }
      }
    }

    /** The borrows that outlive the zone being closed: region blocks are compared by index only. */
    method CheckZoneExit(zone: string, locals: set<Local>, body: MirBody, active: BorrowMap, node: BlockId)
      requires Represents(body, active) && node < |body.blocks|
      modifies this
      ensures old(errors) <= errors
      ensures forall x :: x in errors <==>
                x in old(errors) || (x == EscapesZone(zone) && exists l :: l in locals && BorrowedFrom(body, l, node))
    {
      hide Represents, BorrowedFrom, Outlives;
      var rest := locals;
      while rest != {}
        invariant rest <= locals && old(errors) <= errors
        invariant forall x :: x in errors <==>
                    x in old(errors)
                    || (x == EscapesZone(zone) && exists l :: l in locals - rest && BorrowedFrom(body, l, node))
      {
        var l :| l in rest;
        rest := rest - {l};
        BorrowedFromIff(body, active, l, node);
        var borrows := Lookup(active, l);
        ghost var before := errors;
        var i := 0;
        while i < |borrows|
          invariant i <= |borrows| && old(errors) <= errors
          invariant errors == before
          invariant forall j :: 0 <= j < i ==> !Outlives(borrows[j], node)
        {
          var escapes := Escapes(borrows[i].region, node);
          OutlivesIff(borrows[i], node);
          if escapes {
            errors := errors + [EscapesZone(zone)];
            break;
          }
          i := i + 1;
        }
      }
    }

    static method Escapes(region: set<BlockId>, node: BlockId) returns (escapes: bool)
      ensures escapes <==> exists m :: m in region && m >= node
    {
      escapes := false;
      var rest := region;
      while rest != {}
        invariant rest <= region
        invariant escapes ==> exists m :: m in region && m >= node
        invariant !escapes ==> forall m :: m in region && m !in rest ==> m < node
      {
        var m :| m in rest;
        rest := rest - {m};
        escapes := escapes || m >= node;
      }
    }

    /** One instruction of `check_all`. */
    method CheckInstr(ins: Instruction, initialized: set<Local>, zones: seq<string>, allocs: map<string, set<Local>>,
                      body: MirBody, active: BorrowMap, node: BlockId, ghost evs: seq<Event>)
      returns (left: set<Local>, open: seq<string>, owned: map<string, set<Local>>)
      requires Represents(body, active) && node < |body.blocks|
      requires forall e :: e in InstrEvents(ins, node) ==> InRange(body.locals, e)
      requires Tracks(body, evs, initialized, zones, allocs)
      modifies this
      ensures old(errors) <= errors
      ensures forall x :: x in errors <==> x in old(errors) || Told(body, evs, InstrEvents(ins, node), x)
      ensures Tracks(body, evs + InstrEvents(ins, node), left, open, owned)
    {
      hide Represents, Owned, Told, ZoneStack, AllocatedIn, BorrowedFrom, OperandErrors;
      left, open, owned := initialized, zones, allocs;
      ToldNone(body, evs);
      assert evs + [] == evs;
      match ins {
        case ZoneEnter(z) =>
          Extend(body, evs, Enter(z));
          ToldOne(body, evs, Enter(z));
          ZonesKept(body, evs, Enter(z));
          open := open + [z];
        case ZoneExit(z) =>
          Extend(body, evs, Exit(z, node));
          ToldOne(body, evs, Exit(z, node));
          ZonesKept(body, evs, Exit(z, node));
          if open != [] && open[|open| - 1] == z {
            if z in owned {
              CheckZoneExit(z, owned[z], body, active, node);
            }
            open := open[..|open| - 1];
          }
        case Assign(d, rv) =>
          ghost var mid := evs + RvalueEvents(rv, node);
          assert evs + InstrEvents(ins, node) == mid + [Define(d)];
          assert Define(d) in InstrEvents(ins, node);
          assert forall e :: e in RvalueEvents(rv, node) ==> e in InstrEvents(ins, node);
          ToldAdd(body, evs, RvalueEvents(rv, node), [Define(d)]);
          ToldOne(body, mid, Define(d));
          left := CheckRvalue(rv, initialized, body, active, node, evs);
          ReadsKeepZones(body, evs, RvalueEvents(rv, node));
          left, owned := DefineLocal(d, left, open, owned, body, mid);
        case Call(into, _, args) =>
          assert forall e :: e in Reads(args, node) ==> e in InstrEvents(ins, node);
          left := CheckArgs(args, initialized, body, active, node, evs);
          ReadsKeepZones(body, evs, Reads(args, node));
          ghost var mid := evs + Reads(args, node);
          if into.Some? {
            assert Define(into.value) in InstrEvents(ins, node);
            assert evs + InstrEvents(ins, node) == mid + [Define(into.value)];
            ToldAdd(body, evs, Reads(args, node), [Define(into.value)]);
            ToldOne(body, mid, Define(into.value));
            left, owned := DefineLocal(into.value, left, open, owned, body, mid);
          } else {
            assert InstrEvents(ins, node) == Reads(args, node);
          }
        case _ =>
      }
    }

    method CheckArgs(args: seq<Operand>, initialized: set<Local>, body: MirBody, active: BorrowMap, node: BlockId,
                     ghost evs: seq<Event>)
      returns (left: set<Local>)
      requires Represents(body, active) && node < |body.blocks|
      requires forall e :: e in Reads(args, node) ==> InRange(body.locals, e)
      requires forall l :: l in initialized <==> Owned(body, evs, l)
      modifies this
      ensures old(errors) <= errors
      ensures forall x :: x in errors <==> x in old(errors) || Told(body, evs, Reads(args, node), x)
      ensures forall l :: l in left <==> Owned(body, evs + Reads(args, node), l)
    {
      hide Represents, Owned, Told, Tells, OperandErrors;
      left := initialized;
      assert Reads(args[..0], node) == [] && evs + [] == evs;
      ToldNone(body, evs);
      var i := 0;
      while i < |args|
        invariant i <= |args| && old(errors) <= errors
        invariant forall x :: x in errors <==> x in old(errors) || Told(body, evs, Reads(args[..i], node), x)
        invariant forall l :: l in left <==> Owned(body, evs + Reads(args[..i], node), l)
      {
        ghost var done := Reads(args[..i], node);
        assert Reads(args, node)[i] == Read(args[i], node);
        assert Reads(args[..i + 1], node) == done + [Read(args[i], node)];
        assert evs + done + [Read(args[i], node)] == evs + Reads(args[..i + 1], node);
        ToldAdd(body, evs, done, [Read(args[i], node)]);
        ToldOne(body, evs + done, Read(args[i], node));
        ReadTells(body, evs + done, args[i], node);
        left := CheckOperand(args[i], left, body, active, node, evs + done);
        i := i + 1;
      }
      assert args[..i] == args;
    }

    /** The destination becomes initialised, and belongs to the innermost open zone if it can hold a reference. */
    method DefineLocal(d: Local, initialized: set<Local>, zones: seq<string>, allocs: map<string, set<Local>>,
                       body: MirBody, ghost evs: seq<Event>)
      returns (left: set<Local>, owned: map<string, set<Local>>)
      requires d < |body.locals| && Tracks(body, evs, initialized, zones, allocs)
      ensures Tracks(body, evs + [Define(d)], left, zones, owned)
    {
      Extend(body, evs, Define(d));
      hide Allowed, AllAllowed, Owned, ZoneStack, AllocatedIn;
      left, owned := initialized + {d}, allocs;
      if zones != [] && ZoneType(body.locals[d].ty) {
        var z := zones[|zones| - 1];
        AddToMembers(allocs, z, d);
        owned := AddTo(allocs, z, d);
      }
      forall z, l: Local
        ensures z in owned && l in owned[z] <==> AllocatedIn(body, evs + [Define(d)], z, l)
      {
        ExtendZones(body, evs, Define(d), z, l);
      }
    }

    static method Parameters(n: nat) returns (initialized: set<Local>)
      ensures forall l: Local :: l in initialized <==> l < n
    {
      initialized := {};
      for i := 0 to n
        invariant forall l: Local :: l in initialized <==> l < i
      {
        initialized := initialized + {i};
      }
    }

    /** `check_all`: every block in index order. */
    method CheckAll(body: MirBody, active: BorrowMap)
      requires Represents(body, active) && AllInRange(body)
      modifies this
      ensures old(errors) <= errors
      ensures forall x :: x in errors <==> x in old(errors) || Reported(body, x)
    {
      hide Represents, Owned, ZoneStack, AllocatedIn, Clashes, InRange, Tracks, InstrEvents, TermEvents, Told;
      var initialized := Parameters(body.argCount);
      var zones: seq<string>, allocs: map<string, set<Local>> := [], map[];
      TracksAtStart(body, initialized);
      KeysInRange(body, active);
      ToldNone(body, []);
      ghost var evs: seq<Event> := [];
      var node := 0;
      while node < |body.blocks|
        invariant node <= |body.blocks| && old(errors) <= errors
        invariant evs == EventsUpTo(body.blocks, node)
        invariant Tracks(body, evs, initialized, zones, allocs)
        invariant forall x :: x in errors <==>
                    x in old(errors) || Told(body, [], evs, x) || exists n :: 0 <= n < node && Clashes(body, n, x)
      {
        CheckClashes(body, active, node);
        BlockInRange(body, node);
        var instrs := body.blocks[node].instrs;
        ghost var start := evs;
        assert evs == start + InstrsEvents(instrs[..0], node);
        hide EventsUpTo;
        var i := 0;
        while i < |instrs|
          invariant i <= |instrs| && old(errors) <= errors
          invariant evs == start + InstrsEvents(instrs[..i], node)
          invariant Tracks(body, evs, initialized, zones, allocs)
          invariant forall x :: x in errors <==>
                      x in old(errors) || Told(body, [], evs, x) || exists n :: 0 <= n <= node && Clashes(body, n, x)
        {
          initialized, zones, allocs := CheckInstr(instrs[i], initialized, zones, allocs, body, active, node, evs);
          ToldAdd(body, [], evs, InstrEvents(instrs[i], node));
          assert [] + evs == evs;
          assert instrs[..i + 1][..i] == instrs[..i];
          evs := evs + InstrEvents(instrs[i], node);
          i := i + 1;
        }
        assert instrs[..i] == instrs;
        initialized := CheckSwitch(body.blocks[node].term, initialized, zones, allocs, body, active, node, evs);
        ToldAdd(body, [], evs, TermEvents(body.blocks[node].term, node));
        assert [] + evs == evs;
        evs := evs + TermEvents(body.blocks[node].term, node);
        EventsNext(body, node);
        node := node + 1;
      }
    }

    method CheckSwitch(term: Option<Terminator>, initialized: set<Local>, ghost zones: seq<string>,
                       ghost allocs: map<string, set<Local>>, body: MirBody, active: BorrowMap, node: BlockId,
                       ghost evs: seq<Event>)
      returns (left: set<Local>)
      requires Represents(body, active) && node < |body.blocks|
      requires forall e :: e in TermEvents(term, node) ==> InRange(body.locals, e)
      requires Tracks(body, evs, initialized, zones, allocs)
      modifies this
      ensures old(errors) <= errors
      ensures forall x :: x in errors <==> x in old(errors) || Told(body, evs, TermEvents(term, node), x)
      ensures Tracks(body, evs + TermEvents(term, node), left, zones, allocs)
    {
      hide Represents, Owned, Told, ZoneStack, AllocatedIn, OperandErrors;
      left := initialized;
      ToldNone(body, evs);
      assert evs + [] == evs;
      if term.Some? && term.value.SwitchInt? {
        var op := term.value.scrutinee;
        assert TermEvents(term, node) == [Read(op, node)];
        assert Read(op, node) in TermEvents(term, node);
        ToldOne(body, evs, Read(op, node));
        left := CheckOperand(op, initialized, body, active, node, evs);
        ReadsKeepZones(body, evs, TermEvents(term, node));
      }
    }

    /** `check`: liveness, regions, then one pass; accepted exactly when no rule is broken. */
    method Check(body: MirBody) returns (ok: bool)
      requires AllInRange(body)
      modifies this
      ensures ok <==> old(errors) == [] && Accepted(body)
      ensures ok <==> errors == []
      ensures forall x :: x in errors <==> x in old(errors) || Reported(body, x)
    {
      var ins, outs := Compute(body);
      var active := InferBorrowRegions(body, ins, outs);
      CheckAll(body, active);
      AcceptedIff(body);
      ok := errors == [];
      NothingIn(errors);
    }
  }

  function AddTo(m: map<string, set<Local>>, z: string, d: Local): map<string, set<Local>> {
    m[z := (if z in m then m[z] else {}) + {d}]
  }

  lemma AddToMembers(m: map<string, set<Local>>, z: string, d: Local)
    ensures forall y, l :: (y in AddTo(m, z, d) && l in AddTo(m, z, d)[y]) <==>
                           ((y in m && l in m[y]) || (y == z && l == d))
  {
    forall y, l
      ensures (y in AddTo(m, z, d) && l in AddTo(m, z, d)[y]) <==> ((y in m && l in m[y]) || (y == z && l == d))
    {
      if y == z {
      }
    }
  }

  predicate Outlives(b: ActiveBorrow, n: BlockId) {
    exists m :: m in b.region && m >= n
  }

  lemma OutlivesIff(b: ActiveBorrow, n: BlockId)
    ensures Outlives(b, n) <==> exists m :: m in b.region && m >= n
  {
  }

  lemma BorrowedFromIff(body: MirBody, active: BorrowMap, l: Local, n: BlockId)
    requires Represents(body, active)
    ensures BorrowedFrom(body, l, n) <==> exists j :: 0 <= j < |Lookup(active, l)| && Outlives(Lookup(active, l)[j], n)
  {
    hide SitesOf, BorrowedAt;
    var bs := Lookup(active, l);
    assert StandFor(body, bs, SitesOf(body, l), l);
    if BorrowedFrom(body, l, n) {
      var m :| n <= m < |body.blocks| && BorrowedAt(body, l, m);
      BorrowedIff(body, active, l, m);
      var j :| 0 <= j < |bs| && m in bs[j].region;
      assert Outlives(bs[j], n);
    }
    if j :| 0 <= j < |bs| && Outlives(bs[j], n) {
      var m :| m in bs[j].region && m >= n;
      assert Stands(body, bs[j], SitesOf(body, l)[j], l);
      BorrowedIff(body, active, l, m);
    }
  }

  lemma ZonesKept(body: MirBody, evs: seq<Event>, e: Event)
    requires !e.Define?
    ensures forall z, l :: AllocatedIn(body, evs + [e], z, l) <==> AllocatedIn(body, evs, z, l)
  {
    forall z, l
      ensures AllocatedIn(body, evs + [e], z, l) <==> AllocatedIn(body, evs, z, l)
    {
      ExtendZones(body, evs, e, z, l);
    }
  }

  lemma {:induction false} ReadsKeepZones(body: MirBody, evs: seq<Event>, more: seq<Event>)
    requires forall e :: e in more ==> e.Read? || e.Borrow?
    ensures ZoneStack(evs + more) == ZoneStack(evs)
    ensures forall z, l :: AllocatedIn(body, evs + more, z, l) <==> AllocatedIn(body, evs, z, l)
    decreases |more|
  {
    hide AllocatedIn;
    if more == [] {
      assert evs + more == evs;
    } else {
      var p, last := more[..|more| - 1], more[|more| - 1];
      assert evs + more == evs + p + [last] && last in more;
      ReadsKeepZones(body, evs, p);
      Extend(body, evs + p, last);
      ZonesKept(body, evs + p, last);
    }
  }

  lemma TracksAtStart(body: MirBody, initialized: set<Local>)
    requires forall l: Local :: l in initialized <==> l < body.argCount
    ensures Tracks(body, [], initialized, [], map[]) && AllAllowed(body, [])
  {
  }

  lemma {:induction false} Prefix(body: MirBody, evs: seq<Event>, more: seq<Event>)
    ensures AllAllowed(body, evs + more) ==> AllAllowed(body, evs)
  {
    hide Allowed;
    if AllAllowed(body, evs + more) {
      forall i | 0 <= i < |evs|
        ensures Allowed(body, evs[..i], evs[i])
      {
        assert (evs + more)[..i] == evs[..i];
      }
    }
  }

  lemma EventsNext(body: MirBody, k: nat)
    requires k < |body.blocks|
    ensures EventsUpTo(body.blocks, k + 1) ==
            EventsUpTo(body.blocks, k) + InstrsEvents(body.blocks[k].instrs, k) + TermEvents(body.blocks[k].term, k)
  {
  }

  lemma {:induction false} EventsInside(blocks: seq<BasicBlock>, k: nat, m: nat, e: Event)
    requires k <= m <= |blocks| && e in EventsUpTo(blocks, k)
    ensures e in EventsUpTo(blocks, m)
    decreases m
  {
    hide InstrsEvents, TermEvents;
    if k < m {
      EventsInside(blocks, k, m - 1, e);
    }
  }

  lemma {:induction false} InstrEventsInside(instrs: seq<Instruction>, n: BlockId, i: nat, e: Event)
    requires i < |instrs| && e in InstrEvents(instrs[i], n)
    ensures e in InstrsEvents(instrs, n)
    decreases |instrs|
  {
    if i < |instrs| - 1 {
      InstrEventsInside(instrs[..|instrs| - 1], n, i, e);
    }
  }

  lemma BlockInRange(body: MirBody, n: BlockId)
    requires n < |body.blocks| && AllInRange(body)
    ensures forall i, e :: 0 <= i < |body.blocks[n].instrs| && e in InstrEvents(body.blocks[n].instrs[i], n)
                           ==> InRange(body.locals, e)
    ensures forall e :: e in TermEvents(body.blocks[n].term, n) ==> InRange(body.locals, e)
  {
    hide InstrEvents, TermEvents, InRange;
    forall i, e | 0 <= i < |body.blocks[n].instrs| && e in InstrEvents(body.blocks[n].instrs[i], n)
      ensures InRange(body.locals, e)
    {
      InstrEventsInside(body.blocks[n].instrs, n, i, e);
      EventsInside(body.blocks, n + 1, |body.blocks|, e);
    }
    forall e | e in TermEvents(body.blocks[n].term, n)
      ensures InRange(body.locals, e)
    {
      EventsInside(body.blocks, n + 1, |body.blocks|, e);
    }
  }

  lemma KeysInRange(body: MirBody, active: BorrowMap)
    requires Represents(body, active) && AllInRange(body)
    ensures forall x :: x in active ==> x < |body.locals|
  {
    hide SitesOf, InstrsEvents, EventsUpTo;
    forall x | x in active
      ensures x < |body.locals|
    {
      var sites := SitesOf(body, x);
      assert StandFor(body, Lookup(active, x), sites, x) && |sites| > 0;
      SitesOfMembers(body, x);
      var s := sites[0];
      assert s in sites;
      BlockInRange(body, s.block);
      assert InstrEvents(body.blocks[s.block].instrs[s.index], s.block)[0] == Borrow(x);
      assert Borrow(x) in InstrEvents(body.blocks[s.block].instrs[s.index], s.block);
      assert InRange(body.locals, Borrow(x));
    }
  }

  // ---- What an accepted body has ----

  lemma {:induction false} EventAllowed(body: MirBody, e: Event)
    requires Accepted(body) && e in EventsUpTo(body.blocks, |body.blocks|)
    ensures exists before :: Allowed(body, before, e)
  {
    hide Allowed, Exclusive, EventsUpTo;
    var evs := EventsUpTo(body.blocks, |body.blocks|);
    var i :| 0 <= i < |evs| && evs[i] == e;
    assert Allowed(body, evs[..i], evs[i]);
  }

  lemma PathInside(body: MirBody, path: seq<BlockId>, l: Local, i: nat)
    requires LivePath(body, path, l) && i < |path|
    ensures path[i] < |body.blocks|
  {
  }

  lemma LiveOnPath(body: MirBody, path: seq<BlockId>, l: Local, i: nat)
    requires LivePath(body, path, l) && i < |path|
    ensures LiveIn(body, path[i], l)
  {
    hide BlockExposed, BlockDefs, Successors;
    var rest := path[i..];
    forall j | 0 <= j < |rest| - 1
      ensures rest[j + 1] in Successors(body.edges, rest[j]) && l !in BlockDefs(body.blocks[rest[j]])
    {
      assert path[i + j + 1] in Successors(body.edges, path[i + j]);
    }
    assert LivePath(body, rest, l) && rest[0] == path[i];
  }

  /**
   In an accepted body, along every path on which a reference is still live: any other borrow of the same
   local held on the way is shared, as is this one, and nothing the pass looks at moves the local.
   */
  lemma AcceptedAlongPath(body: MirBody, s: Site, x: Local, path: seq<BlockId>, i: nat)
    requires Accepted(body) && BorrowSite(body, s, x) && i < |path|
    requires LivePath(body, path, body.blocks[s.block].instrs[s.index].dest)
    ensures forall t :: BorrowSite(body, t, x) && t != s && Held(body, t, x, path[i])
                        ==> !MutableSite(body, t, x) && !MutableSite(body, s, x)
    ensures forall ins :: ins in body.blocks[path[i]].instrs ==> Read(Move(x), path[i]) !in InstrEvents(ins, path[i])
    ensures Read(Move(x), path[i]) !in TermEvents(body.blocks[path[i]].term, path[i])
  {
    hide LivePath, LiveIn, LiveOut, EventsUpTo, InstrsEvents, InstrEvents, TermEvents;
    var n := path[i];
    PathInside(body, path, body.blocks[s.block].instrs[s.index].dest, i);
    LiveOnPath(body, path, body.blocks[s.block].instrs[s.index].dest, i);
    assert Held(body, s, x, n) && BorrowedAt(body, x, n);
    assert Exclusive(body, n);
    forall t | BorrowSite(body, t, x) && t != s && Held(body, t, x, n)
      ensures !MutableSite(body, t, x) && !MutableSite(body, s, x)
    {
      assert BothHeld(body, s, t, x, n);
    }
    var e := Read(Move(x), n);
    if e in EventsUpTo(body.blocks, |body.blocks|) {
      EventAllowed(body, e);
      assert false;
    }
    forall ins | ins in body.blocks[n].instrs
      ensures e !in InstrEvents(ins, n)
    {
      var k :| 0 <= k < |body.blocks[n].instrs| && body.blocks[n].instrs[k] == ins;
      if e in InstrEvents(ins, n) {
        EventPlaced(body, n, k, e);
      }
    }
    if e in TermEvents(body.blocks[n].term, n) {
      TermEventPlaced(body, n, e);
    }
  }

  lemma EventPlaced(body: MirBody, n: BlockId, k: nat, e: Event)
    requires n < |body.blocks| && k < |body.blocks[n].instrs| && e in InstrEvents(body.blocks[n].instrs[k], n)
    ensures e in EventsUpTo(body.blocks, |body.blocks|)
  {
    hide InstrEvents, TermEvents;
    InstrEventsInside(body.blocks[n].instrs, n, k, e);
    EventsInside(body.blocks, n + 1, |body.blocks|, e);
  }

  lemma TermEventPlaced(body: MirBody, n: BlockId, e: Event)
    requires n < |body.blocks| && e in TermEvents(body.blocks[n].term, n)
    ensures e in EventsUpTo(body.blocks, |body.blocks|)
  {
    hide InstrEvents, TermEvents;
    EventsInside(body.blocks, n + 1, |body.blocks|, e);
  }
}
