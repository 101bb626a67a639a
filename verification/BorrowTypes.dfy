/** What the borrow check makes of each type: which values may be copied, which are given up, which belong to a zone. */
module BorrowTypes {
  import opened Mir
  import opened Borrow
  import opened BorrowCheck

  // Mutable pointers, structures and the other constructed types have one owner.
  predicate Unique(ty: Type) {
    ty.Adt? || ty.Opaque? || (ty.Pointer? && ty.isMut)
  }

  // Primitive values, shared pointers and values of unknown type may be had more than once.
  predicate Shareable(ty: Type) {
    ty.Prim? || ty.Error? || (ty.Pointer? && !ty.isMut)
  }

  predicate Moves(e: Event, l: Local) {
    e.Read? && e.op == Move(l)
  }

  // ---- Who owns what ----

  /** `l` was set by the first `k` events, or is a parameter if `k` is 0. */
  predicate SetAt(body: MirBody, evs: seq<Event>, k: nat, l: Local) {
    k <= |evs| && if k == 0 then l < body.argCount else evs[k - 1] == Define(l)
  }

  /** From event `k` on nothing gives `l` up. */
  ghost predicate KeptFrom(body: MirBody, evs: seq<Event>, k: nat, l: Local) {
    l < |body.locals| && Unique(body.locals[l].ty) ==> forall i :: k <= i < |evs| ==> !Moves(evs[i], l)
  }

  /** A local is owned exactly if it was set and, unless values of its type may be had twice, not moved since. */
  lemma {:induction false} OwnedIff(body: MirBody, evs: seq<Event>, l: Local)
    ensures Owned(body, evs, l) <==> exists k :: SetAt(body, evs, k, l) && KeptFrom(body, evs, k, l)
    decreases |evs|
  {
    if evs == [] {
      assert SetAt(body, evs, 0, l) <==> l < body.argCount;
    } else {
      var n := |evs| - 1;
      OwnedIff(body, evs[..n], l);
      if evs[n] == Define(l) {
        assert SetAt(body, evs, n + 1, l);
      } else {
        if k: nat :|
          SetAt(body, evs[..n], k, l) && KeptFrom(body, evs[..n], k, l) && !Consumes(body.locals, evs[n], l)
        {
          assert SetAt(body, evs, k, l) && KeptFrom(body, evs, k, l);
        }
        if k: nat :| SetAt(body, evs, k, l) && KeptFrom(body, evs, k, l) {
          assert SetAt(body, evs[..n], k, l) && KeptFrom(body, evs[..n], k, l);
        }
      }
    }
  }

  // ---- Copies ----

  /** A copy is allowed exactly of an owned local of a type that may be had more than once. */
  lemma {:induction false} CopyAllowedIff(body: MirBody, before: seq<Event>, l: Local, n: BlockId)
    ensures Allowed(body, before, Read(Copy(l), n)) <==>
              Owned(body, before, l) && l < |body.locals| && Shareable(body.locals[l].ty)
  {
    hide Owned;
  }

  /** An accepted body copies no local that has one owner. */
  lemma {:induction false} AcceptedCopies(body: MirBody, l: Local, n: BlockId)
    requires Accepted(body) && Read(Copy(l), n) in EventsUpTo(body.blocks, |body.blocks|)
    ensures l < |body.locals| && Shareable(body.locals[l].ty) && !Unique(body.locals[l].ty)
  {
    hide EventsUpTo, Exclusive, Owned;
    EventAllowed(body, Read(Copy(l), n));
    var before :| Allowed(body, before, Read(Copy(l), n));
    CopyAllowedIff(body, before, l, n);
  }

  // ---- Moves ----

  /** In an accepted body a local that has one owner is set again between a move and the next look, in block order. */
  lemma {:induction false} MovedIsSetFirst(body: MirBody, i: nat, j: nat, l: Local)
    requires Accepted(body) && l < |body.locals| && Unique(body.locals[l].ty)
    requires i < j < |EventsUpTo(body.blocks, |body.blocks|)|
    requires var evs := EventsUpTo(body.blocks, |body.blocks|); Moves(evs[i], l) && Looks(evs[j], l)
    ensures exists k :: i < k < j && EventsUpTo(body.blocks, |body.blocks|)[k] == Define(l)
  {
    hide EventsUpTo, Exclusive, BorrowedAt;
    var evs := EventsUpTo(body.blocks, |body.blocks|);
    assert Allowed(body, evs[..j], evs[j]);
    assert Owned(body, evs[..j], l);
    OwnedIff(body, evs[..j], l);
    var k: nat :| SetAt(body, evs[..j], k, l) && KeptFrom(body, evs[..j], k, l);
    assert evs[..j][i] == evs[i];
    assert k > i;
    assert evs[k - 1] == Define(l) && k - 1 != i;
  }

  /** A local whose values may be had more than once is still owned when it has been moved. */
  lemma {:induction false} MoveKeepsShareable(body: MirBody, before: seq<Event>, l: Local, n: BlockId)
    requires l < |body.locals| && Shareable(body.locals[l].ty)
    ensures Owned(body, before + [Read(Move(l), n)], l) <==> Owned(body, before, l)
  {
    Extend(body, before, Read(Move(l), n));
    hide Owned, AllAllowed;
  }

  // ---- Zones ----

  /**
   Where an accepted body closes the innermost zone, nothing borrowed from that block on is a pointer or structure that
   was set while the zone was the innermost one.
   */
  lemma {:induction false} NothingEscapes(body: MirBody, i: nat, j: nat, z: string, n: BlockId, l: Local)
    requires Accepted(body) && i < j < |EventsUpTo(body.blocks, |body.blocks|)|
    requires var evs := EventsUpTo(body.blocks, |body.blocks|);
      && evs[j] == Exit(z, n) && IsTop(ZoneStack(evs[..j]), z) && evs[i] == Define(l) && IsTop(ZoneStack(evs[..i]), z)
    requires l < |body.locals| && (body.locals[l].ty.Pointer? || body.locals[l].ty.Adt?)
    ensures !BorrowedFrom(body, l, n)
  {
    hide EventsUpTo, Exclusive, ZoneStack, BorrowedFrom, Owned;
    var evs := EventsUpTo(body.blocks, |body.blocks|);
    assert Allowed(body, evs[..j], evs[j]);
    assert evs[..j][..i] == evs[..i] && evs[..j][i] == Define(l);
    assert AllocatedIn(body, evs[..j], z, l);
  }

  /** And closing a zone is refused only for such a local. */
  lemma {:induction false} RefusedExit(body: MirBody, before: seq<Event>, z: string, n: BlockId)
    requires !Allowed(body, before, Exit(z, n))
    ensures IsTop(ZoneStack(before), z)
    ensures exists i, l: Local ::
      && 0 <= i < |before| && before[i] == Define(l) && IsTop(ZoneStack(before[..i]), z)
      && l < |body.locals| && (body.locals[l].ty.Pointer? || body.locals[l].ty.Adt?) && BorrowedFrom(body, l, n)
  {
    hide ZoneStack, BorrowedFrom, Owned;
    var l: Local :| AllocatedIn(body, before, z, l) && BorrowedFrom(body, l, n);
    var i :| 0 <= i < |before| && before[i] == Define(l) && l < |body.locals|
      && ZoneType(body.locals[l].ty) && IsTop(ZoneStack(before[..i]), z);
  }
}
