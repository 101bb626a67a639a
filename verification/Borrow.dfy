/** `BorrowChecker`: borrow regions over liveness, and exactly which bodies the check accepts. */
module Borrow {
  import opened Mir
  import opened Liveness

  // ---- Borrow sites ----

  // The position of one instruction.
  datatype Site = Site(block: BlockId, index: nat)

  ghost predicate BorrowSite(body: MirBody, s: Site, x: Local) {
    && s.block < |body.blocks| && s.index < |body.blocks[s.block].instrs|
    && IsBorrow(body.blocks[s.block].instrs[s.index], x)
  }

  /** A borrow is held where it is made and wherever the reference is live on entry or exit, by some path. */
  ghost predicate Held(body: MirBody, s: Site, x: Local, n: BlockId)
    requires BorrowSite(body, s, x)
  {
    var place := body.blocks[s.block].instrs[s.index].dest;
    n == s.block || LiveIn(body, n, place) || LiveOut(body, n, place)
  }

  ghost predicate MutableSite(body: MirBody, s: Site, x: Local)
    requires BorrowSite(body, s, x)
  {
    body.blocks[s.block].instrs[s.index].rv.isMut
  }

  ghost predicate BorrowedAt(body: MirBody, x: Local, n: BlockId) {
    exists s :: BorrowSite(body, s, x) && Held(body, s, x, n)
  }

  function SitesIn(instrs: seq<Instruction>, n: BlockId, x: Local): seq<Site> {
    if instrs == [] then []
    else
      var k := |instrs| - 1;
      SitesIn(instrs[..k], n, x) + (if IsBorrow(instrs[k], x) then [Site(n, k)] else [])
  }

  function SitesUpTo(blocks: seq<BasicBlock>, k: nat, x: Local): seq<Site>
    requires k <= |blocks|
  {
    if k == 0 then [] else SitesUpTo(blocks, k - 1, x) + SitesIn(blocks[k - 1].instrs, k - 1, x)
  }

  /** All borrows of `x`, in program order. */
  function SitesOf(body: MirBody, x: Local): seq<Site> {
    SitesUpTo(body.blocks, |body.blocks|, x)
  }

  ghost predicate Distinct(s: seq<Site>) {
    forall i, j :: 0 <= i < j < |s| ==> s[i] != s[j]
  }

  lemma {:induction false} SitesInMembers(instrs: seq<Instruction>, n: BlockId, x: Local)
    ensures Distinct(SitesIn(instrs, n, x))
    ensures forall s :: s in SitesIn(instrs, n, x) <==>
                        s.block == n && s.index < |instrs| && IsBorrow(instrs[s.index], x)
    decreases |instrs|
  {
    if instrs != [] {
      SitesInMembers(instrs[..|instrs| - 1], n, x);
    }
  }

  lemma {:induction false} SitesUpToMembers(body: MirBody, k: nat, x: Local)
    requires k <= |body.blocks|
    ensures Distinct(SitesUpTo(body.blocks, k, x))
    ensures forall s :: s in SitesUpTo(body.blocks, k, x) <==> s.block < k && BorrowSite(body, s, x)
    decreases k
  {
    if k > 0 {
      SitesUpToMembers(body, k - 1, x);
      SitesInMembers(body.blocks[k - 1].instrs, k - 1, x);
    }
  }

  // ---- Inferred regions ----

  datatype ActiveBorrow = ActiveBorrow(local: Local, isMut: bool, region: set<BlockId>)

  type BorrowMap = map<Local, seq<ActiveBorrow>>

  ghost predicate Stands(body: MirBody, b: ActiveBorrow, s: Site, x: Local) {
    && BorrowSite(body, s, x)
    && b.local == x
    && b.isMut == MutableSite(body, s, x)
    && forall n: BlockId :: n in b.region <==> n < |body.blocks| && Held(body, s, x, n)
  }

  ghost predicate StandFor(body: MirBody, bs: seq<ActiveBorrow>, sites: seq<Site>, x: Local) {
    |bs| == |sites| && forall j :: 0 <= j < |bs| ==> Stands(body, bs[j], sites[j], x)
  }

  function Lookup<K, V>(m: map<K, seq<V>>, k: K): seq<V> {
    if k in m then m[k] else []
  }

  /** `active` lists, for every local, its borrows in program order with the blocks that hold them. */
  ghost predicate Represents(body: MirBody, active: BorrowMap) {
    && (forall x :: StandFor(body, Lookup(active, x), SitesOf(body, x), x))
    && NoneEmpty(active)
  }

  predicate NoneEmpty(active: BorrowMap) {
    forall x :: x in active ==> active[x] != []
  }

  /** The blocks where `place` is live according to one of the two maps. */
  method Holders(live: LiveMap, place: Local) returns (region: set<BlockId>)
    ensures forall n :: n in region <==> n in live && place in live[n]
  {
    region := {};
    var keys := live.Keys;
    while keys != {}
      invariant keys <= live.Keys
      invariant forall n :: n in region <==> n in live.Keys - keys && place in live[n]
    {
      var n :| n in keys;
      keys := keys - {n};
      if place in live[n] {
        region := region + {n};
      }
    }
  }

  // The borrows of `x` made before instruction `i` of block `node`.
  function SitesBefore(body: MirBody, node: nat, i: nat, x: Local): seq<Site>
    requires node < |body.blocks| && i <= |body.blocks[node].instrs|
  {
    SitesUpTo(body.blocks, node, x) + SitesIn(body.blocks[node].instrs[..i], node, x)
  }

  ghost predicate RepresentsBefore(body: MirBody, active: BorrowMap, node: nat, i: nat)
    requires node < |body.blocks| && i <= |body.blocks[node].instrs|
  {
    forall x :: StandFor(body, Lookup(active, x), SitesBefore(body, node, i, x), x)
  }

  ghost predicate RepresentsBlocks(body: MirBody, active: BorrowMap, k: nat)
    requires k <= |body.blocks|
  {
    forall x :: StandFor(body, Lookup(active, x), SitesUpTo(body.blocks, k, x), x)
  }

  lemma SitesNext(body: MirBody, node: nat, i: nat, x: Local)
    requires node < |body.blocks| && i < |body.blocks[node].instrs|
    ensures SitesBefore(body, node, i + 1, x) ==
            SitesBefore(body, node, i, x) + (if IsBorrow(body.blocks[node].instrs[i], x) then [Site(node, i)] else [])
  {
    assert body.blocks[node].instrs[..i + 1][..i] == body.blocks[node].instrs[..i];
  }

  lemma StandAppend(body: MirBody, bs: seq<ActiveBorrow>, sites: seq<Site>, x: Local, b: ActiveBorrow, s: Site)
    requires StandFor(body, bs, sites, x) && Stands(body, b, s, x)
    ensures StandFor(body, bs + [b], sites + [s], x)
  {
  }

  lemma SkipInstr(body: MirBody, active: BorrowMap, node: nat, i: nat)
    requires node < |body.blocks| && i < |body.blocks[node].instrs| && RepresentsBefore(body, active, node, i)
    requires forall x :: !IsBorrow(body.blocks[node].instrs[i], x)
    ensures RepresentsBefore(body, active, node, i + 1)
  {
    hide StandFor, SitesBefore, IsBorrow;
    forall x
      ensures StandFor(body, Lookup(active, x), SitesBefore(body, node, i + 1, x), x)
    {
      SitesNext(body, node, i, x);
      assert SitesBefore(body, node, i, x) + [] == SitesBefore(body, node, i, x);
      assert !IsBorrow(body.blocks[node].instrs[i], x);
    }
  }

  lemma AddBorrow(body: MirBody, active: BorrowMap, node: nat, i: nat, x: Local, b: ActiveBorrow)
    requires node < |body.blocks| && i < |body.blocks[node].instrs| && RepresentsBefore(body, active, node, i)
    requires Stands(body, b, Site(node, i), x)
    ensures RepresentsBefore(body, active[x := Lookup(active, x) + [b]], node, i + 1)
    ensures NoneEmpty(active) ==> NoneEmpty(active[x := Lookup(active, x) + [b]])
  {
    hide StandFor, SitesBefore, Held, MutableSite;
    var now := active[x := Lookup(active, x) + [b]];
    forall y
      ensures StandFor(body, Lookup(now, y), SitesBefore(body, node, i + 1, y), y)
    {
      SitesNext(body, node, i, y);
      assert StandFor(body, Lookup(active, y), SitesBefore(body, node, i, y), y);
      if y == x {
        StandAppend(body, Lookup(active, x), SitesBefore(body, node, i, x), x, b, Site(node, i));
      } else {
        assert SitesBefore(body, node, i, y) + [] == SitesBefore(body, node, i, y);
      }
    }
  }

  ghost predicate IsLiveness(body: MirBody, ins: LiveMap, outs: LiveMap) {
    && (forall n: BlockId :: (n in ins <==> n < |body.blocks|) && (n in outs <==> n < |body.blocks|))
    && (forall n, l :: n in ins ==> (l in ins[n] <==> LiveIn(body, n, l)))
    && (forall n, l :: n in outs ==> (l in outs[n] <==> LiveOut(body, n, l)))
  }

  /** The region of the borrow made by instruction `i` of block `node`. */
  method MakeBorrow(body: MirBody, ins: LiveMap, outs: LiveMap, node: BlockId, i: nat) returns (b: ActiveBorrow)
    requires IsLiveness(body, ins, outs)
    requires node < |body.blocks| && i < |body.blocks[node].instrs|
    requires body.blocks[node].instrs[i].Assign? && body.blocks[node].instrs[i].rv.Ref?
    ensures Stands(body, b, Site(node, i), body.blocks[node].instrs[i].rv.borrowed)
  {
    hide LiveIn, LiveOut;
    var ref := body.blocks[node].instrs[i];
    var region := {node};
    var exits := Holders(outs, ref.dest);
    var entries := Holders(ins, ref.dest);
    region := region + exits + entries;
    b := ActiveBorrow(ref.rv.borrowed, ref.rv.isMut, region);
  }

  /** One entry per `Ref` assignment, in program order, with the blocks where the reference is live. */
  method InferBorrowRegions(body: MirBody, ins: LiveMap, outs: LiveMap) returns (active: BorrowMap)
    requires IsLiveness(body, ins, outs)
    ensures Represents(body, active)
  {
    active := map[];
    assert RepresentsBlocks(body, active, 0) && NoneEmpty(active);
    hide IsLiveness, Stands, RepresentsBefore, RepresentsBlocks, NoneEmpty, Represents;
    var node := 0;
    while node < |body.blocks|
      invariant node <= |body.blocks|
      invariant RepresentsBlocks(body, active, node)
      invariant NoneEmpty(active)
    {
      var instrs := body.blocks[node].instrs;
      BlockBegins(body, active, node);
      var i := 0;
      while i < |instrs|
        invariant i <= |instrs|
        invariant RepresentsBefore(body, active, node, i)
        invariant NoneEmpty(active)
      {
        if instrs[i].Assign? && instrs[i].rv.Ref? {
          var x := instrs[i].rv.borrowed;
          var b := MakeBorrow(body, ins, outs, node, i);
          AddBorrow(body, active, node, i, x, b);
          active := active[x := Lookup(active, x) + [b]];
        } else {
          SkipInstr(body, active, node, i);
        }
        i := i + 1;
      }
      BlockEnds(body, active, node);
      node := node + 1;
    }
    AllBlocksDone(body, active);
  }

  lemma AllBlocksDone(body: MirBody, active: BorrowMap)
    requires RepresentsBlocks(body, active, |body.blocks|) && NoneEmpty(active)
    ensures Represents(body, active)
  {
    hide StandFor;
  }

  lemma BlockBegins(body: MirBody, active: BorrowMap, node: nat)
    requires node < |body.blocks| && RepresentsBlocks(body, active, node)
    ensures RepresentsBefore(body, active, node, 0)
  {
    hide StandFor;
    forall x
      ensures StandFor(body, Lookup(active, x), SitesBefore(body, node, 0, x), x)
    {
      assert SitesBefore(body, node, 0, x) == SitesUpTo(body.blocks, node, x);
    }
  }

  lemma BlockEnds(body: MirBody, active: BorrowMap, node: nat)
    requires node < |body.blocks| && RepresentsBefore(body, active, node, |body.blocks[node].instrs|)
    ensures RepresentsBlocks(body, active, node + 1)
  {
    hide StandFor;
    var instrs := body.blocks[node].instrs;
    assert instrs[..|instrs|] == instrs;
    forall x
      ensures StandFor(body, Lookup(active, x), SitesUpTo(body.blocks, node + 1, x), x)
    {
      assert SitesBefore(body, node, |instrs|, x) == SitesUpTo(body.blocks, node + 1, x);
    }
  }
}
