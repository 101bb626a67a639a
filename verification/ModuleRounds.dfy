/** What the rounds of the module order mean for names: it steps back to a lower name only for a dependency's sake. */
module ModuleRounds {
  import opened ModuleOrder

  /** What a round places is in name order. */
  lemma {:induction false} RoundSorted(deps: Dependencies, cs: seq<string>, pending: set<string>)
    requires Sorted(cs)
    ensures Sorted(Round(deps, cs, pending).0)
    decreases |cs|
  {
    hide Below, Ready;
    if cs != [] {
      var p := Round(deps, cs[1..], if Ready(deps, pending, cs[0]) then pending - {cs[0]} else pending).0;
      RoundSorted(deps, cs[1..], if Ready(deps, pending, cs[0]) then pending - {cs[0]} else pending);
      forall x | x in p
        ensures Below(cs[0], x)
      {
        var i :| 0 <= i < |cs[1..]| && cs[1..][i] == x;
        assert cs[i + 1] == x;
      }
    }
  }

  /** The first that a round places is ready at the round's start. */
  lemma {:induction false} FirstIsReady(deps: Dependencies, cs: seq<string>, pending: set<string>)
    requires Round(deps, cs, pending).0 != []
    ensures Ready(deps, pending, Round(deps, cs, pending).0[0])
    decreases |cs|
  {
    hide Ready;
    if !Ready(deps, pending, cs[0]) {
      FirstIsReady(deps, cs[1..], pending);
    }
  }

  /** What is waiting after a round was waiting before; what no longer is was placed. */
  lemma {:induction false} GoneIsPlaced(deps: Dependencies, cs: seq<string>, pending: set<string>, d: string)
    requires d in pending && d !in Round(deps, cs, pending).1
    ensures d in Round(deps, cs, pending).0
    decreases |cs|
  {
    hide Ready;
    if cs != [] {
      if !Ready(deps, pending, cs[0]) {
        GoneIsPlaced(deps, cs[1..], pending, d);
      } else if d != cs[0] {
        GoneIsPlaced(deps, cs[1..], pending - {cs[0]}, d);
      }
    }
  }

  /** A candidate that a round leaves waiting depends on one that is left too, or that was placed after its turn. */
  lemma {:induction false} LeftFor(deps: Dependencies, cs: seq<string>, pending: set<string>, x: string)
    returns (d: string)
    requires Sorted(cs) && x in cs && x in Round(deps, cs, pending).1
    ensures d in DepsOf(deps, x) && d != x
    ensures var (p, rest) := Round(deps, cs, pending); d in rest || (d in p && Below(x, d))
    decreases |cs|
  {
    hide Below, DepsOf;
    if !Ready(deps, pending, cs[0]) {
      if x == cs[0] {
        d :| d in DepsOf(deps, x) && d != x && d in pending;
        if d !in Round(deps, cs, pending).1 {
          GoneIsPlaced(deps, cs[1..], pending, d);
          var i :| 0 <= i < |cs[1..]| && cs[1..][i] == d;
          assert cs[i + 1] == d;
        }
      } else {
        d := LeftFor(deps, cs[1..], pending, x);
      }
    } else {
      d := LeftFor(deps, cs[1..], pending - {cs[0]}, x);
    }
  }

  /** Module `j` depends on one of a greater name before it. */
  ghost predicate FollowsLater(deps: Dependencies, order: seq<string>, j: nat)
    requires j < |order|
  {
    exists d :: d in DepsOf(deps, order[j]) && d != order[j] && d in order[..j] && Below(order[j], d)
  }

  lemma {:induction false} StillBefore(deps: Dependencies, order: seq<string>, n: nat, j: nat)
    requires n <= j < |order| && FollowsLater(deps, order[n..], j - n)
    ensures FollowsLater(deps, order, j)
  {
    hide Below, DepsOf;
    var d :| d in DepsOf(deps, order[n..][j - n]) && d != order[n..][j - n] && d in order[n..][..j - n]
             && Below(order[n..][j - n], d);
    assert order[n..][..j - n] == order[n..j];
    assert d in order[..j];
  }

  lemma {:induction false} Ascending(p: seq<string>, j: nat)
    requires Sorted(p) && 0 < j < |p|
    ensures !Below(p[j], p[j - 1])
  {
    hide Below;
    BelowTotal(p[j - 1], p[j]);
  }

  /**
   Where a placed module stands right behind one of a greater name, it depends on a module of a greater name before it.
   */
  lemma {:induction false} StepBack(deps: Dependencies, pending: set<string>, order: seq<string>, placed: nat, j: nat)
    requires InRounds(deps, pending, order, placed) && placed <= |order|
    requires 0 < j < placed && Below(order[j], order[j - 1])
    ensures FollowsLater(deps, order, j)
    decreases pending
  {
    hide Below, Round, Sorted, FollowsLater;
    var cs :| Sorted(cs) && Lists(cs, pending) && NextRound(deps, pending, cs, order, placed);
    var (p, rest) := Round(deps, cs, pending);
    assert p[0] in p;
    var tail := order[|p|..];
    RoundSorted(deps, cs, pending);
    if j < |p| {
      Ascending(p, j);
    } else if j > |p| {
      assert tail[j - |p|] == order[j] && tail[j - |p| - 1] == order[j - 1];
      StepBack(deps, rest, tail, placed - |p|, j - |p|);
      StillBefore(deps, order, |p|, j);
    } else {
      FirstLater(deps, pending, cs, order, placed);
    }
  }

  lemma {:induction false} FirstLater(deps: Dependencies, pending: set<string>, cs: seq<string>, order: seq<string>,
      placed: nat)
    requires Sorted(cs) && Lists(cs, pending) && NextRound(deps, pending, cs, order, placed) && placed <= |order|
    requires var p := Round(deps, cs, pending).0; p != [] && |p| < placed
    ensures FollowsLater(deps, order, |Round(deps, cs, pending).0|)
  {
    hide Below, DepsOf, Round;
    var (p, rest) := Round(deps, cs, pending);
    assert p[0] in p;
    var x, tail := order[|p|], order[|p|..];
    assert tail[0] == x;
    var ds :| Sorted(ds) && Lists(ds, rest) && NextRound(deps, rest, ds, tail, placed - |p|);
    var (q, left) := Round(deps, ds, rest);
    FirstIsReady(deps, ds, rest);
    assert q[0] == x && x in q;
    var d := LeftFor(deps, cs, pending, x);
    assert order[..|p|] == p;
  }
}
