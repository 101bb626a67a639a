/** The language server's module order: which modules a source draws on, and a dependency-respecting sequence. */
module ModuleOrder {
  import opened Tokens

  // ---- Names in order ----

  /** Lexicographic order of code points, which is also the order of UTF-8 bytes. */
  predicate Below(a: string, b: string) {
    b != [] && (a == [] || a[0] < b[0] || (a[0] == b[0] && Below(a[1..], b[1..])))
  }

  // Where `a` and `b` part, `a` is the lower one.
  ghost predicate PartsBelow(a: string, b: string, k: nat) {
    k < |a| && k < |b| && a[..k] == b[..k] && a[k] < b[k]
  }

  lemma {:induction false} PartsLater(a: string, b: string, k: nat)
    requires a != [] && b != [] && a[0] == b[0]
    ensures PartsBelow(a, b, k + 1) <==> PartsBelow(a[1..], b[1..], k)
  {
    if k + 1 < |a| && k + 1 < |b| {
      assert a[..k + 1] == [a[0]] + a[1..][..k] && b[..k + 1] == [b[0]] + b[1..][..k];
      assert a[1..][..k] == a[..k + 1][1..] && b[1..][..k] == b[..k + 1][1..];
    }
  }

  /** The shorter of two that go together as far as it goes, else the one with the lower character where they part. */
  lemma {:induction false} BelowIff(a: string, b: string)
    ensures Below(a, b) <==> a < b || exists k: nat :: PartsBelow(a, b, k)
    decreases |a|
  {
    if a != [] && b != [] {
      if a[0] == b[0] {
        var (x, y) := (a[1..], b[1..]);
        BelowIff(x, y);
        assert a == [a[0]] + x && b == [b[0]] + y;
        assert |a| <= |b| ==> b[..|a|] == [b[0]] + y[..|x|];
        assert a < b <==> x < y;
        hide PartsBelow;
        NotAtOnce(a, b);
        if k: nat :| PartsBelow(a, b, k) {
          PartsLater(a, b, k - 1);
          assert PartsBelow(x, y, k - 1);
        }
        if k: nat :| PartsBelow(x, y, k) {
          PartsLater(a, b, k);
          assert PartsBelow(a, b, k + 1);
        }
      } else {
        PartAtOnce(a, b);
      }
    }
  }

  lemma {:induction false} NotAtOnce(a: string, b: string)
    requires a != [] && b != [] && a[0] == b[0]
    ensures !PartsBelow(a, b, 0)
  {
  }

  lemma {:induction false} PartAtOnce(a: string, b: string)
    requires a != [] && b != [] && a[0] != b[0]
    ensures a[0] < b[0] <==> exists k: nat :: PartsBelow(a, b, k)
    ensures !(a < b)
  {
    assert a[..0] == b[..0];
    if a[0] < b[0] {
      assert PartsBelow(a, b, 0);
    }
    forall k: nat | k > 0
      ensures !PartsBelow(a, b, k)
    {
      if k <= |a| && k <= |b| {
        assert a[..k][0] == a[0] && b[..k][0] == b[0];
      }
    }
  }

  lemma {:induction false} BelowTotal(a: string, b: string)
    ensures a == b || Below(a, b) || Below(b, a)
    ensures !(Below(a, b) && Below(b, a)) && !Below(a, a)
    decreases |a|
  {
    if a != [] {
      BelowTotal(a[1..], a[1..]);
      if b != [] {
        BelowTotal(a[1..], b[1..]);
        assert a == [a[0]] + a[1..] && b == [b[0]] + b[1..];
      }
    }
  }

  lemma {:induction false} BelowTransitive(a: string, b: string, c: string)
    requires Below(a, b) && Below(b, c)
    ensures Below(a, c)
    decreases |a|
  {
    if a != [] && a[0] == b[0] && b[0] == c[0] {
      BelowTransitive(a[1..], b[1..], c[1..]);
    }
  }

  ghost predicate Sorted(names: seq<string>) {
    forall i, j :: 0 <= i < j < |names| ==> Below(names[i], names[j])
  }

  ghost predicate Lists(names: seq<string>, all: set<string>) {
    forall x :: x in names <==> x in all
  }

  /** The members of a set, sorted. */
  method SortNames(all: set<string>) returns (names: seq<string>)
    ensures Sorted(names) && Lists(names, all)
  {
    names := [];
    var rest := all;
    while rest != {}
      invariant rest <= all && Sorted(names) && Lists(names, all - rest)
    {
      var x :| x in rest;
      rest := rest - {x};
      names := InsertSorted(names, x);
    }
  }

  method InsertSorted(names: seq<string>, x: string) returns (more: seq<string>)
    requires Sorted(names) && x !in names
    ensures Sorted(more) && forall y :: y in more <==> y in names || y == x
  {
    hide Below;
    var i := 0;
    while i < |names| && Below(names[i], x)
      invariant i <= |names| && forall j :: 0 <= j < i ==> Below(names[j], x)
    {
      i := i + 1;
    }
    more := names[..i] + [x] + names[i..];
    forall j | i <= j < |names|
      ensures Below(x, names[j])
    {
      BelowTotal(x, names[i]);
      assert names[i] in names && names[j] in names;
      if i < j {
        BelowTransitive(x, names[i], names[j]);
      }
    }
    forall y
      ensures y in more <==> y in names || y == x
    {
      assert names == names[..i] + names[i..];
    }
  }

  // ---- The order ----

  type Dependencies = map<string, set<string>>

  function DepsOf(deps: Dependencies, name: string): set<string> {
    if name in deps then deps[name] else {}
  }

  /** No dependency of `name`, itself aside, is still waiting. */
  predicate Ready(deps: Dependencies, pending: set<string>, name: string) {
    forall d :: d in DepsOf(deps, name) && d != name ==> d !in pending
  }

  /** Each of the first `k` follows all its other dependencies among `names`. */
  ghost predicate Respects(deps: Dependencies, names: set<string>, order: seq<string>, k: nat)
    requires k <= |order|
  {
    forall i, d :: 0 <= i < k && d in DepsOf(deps, order[i]) && d != order[i] && d in names ==> d in order[..i]
  }

  /** `x` depends on another module of `rest`. */
  ghost predicate Blocked(deps: Dependencies, rest: seq<string>, x: string) {
    exists d :: d in DepsOf(deps, x) && d != x && d in rest
  }

  ghost predicate AllBlocked(deps: Dependencies, rest: seq<string>) {
    forall x {:trigger Blocked(deps, rest, x)} :: x in rest ==> Blocked(deps, rest, x)
  }

  ghost predicate NoRepeats(order: seq<string>) {
    forall i, j :: 0 <= i < j < |order| ==> order[i] != order[j]
  }

  // What is placed and what is still waiting make up all the names, with nothing in both.
  ghost predicate Exact(names: set<string>, order: seq<string>, pending: set<string>) {
    (forall x :: x in names <==> x in order || x in pending) && forall x :: x in order ==> x !in pending
  }

  /** One round over candidates `cs`: what it places, and what is still waiting afterwards. */
  ghost function Round(deps: Dependencies, cs: seq<string>, pending: set<string>): (r: (seq<string>, set<string>))
    ensures r.1 <= pending && forall x :: x in r.0 ==> x in cs && x !in r.1
    decreases |cs|
  {
    if cs == [] then ([], pending)
    else if Ready(deps, pending, cs[0]) then
      var (p, rest) := Round(deps, cs[1..], pending - {cs[0]});
      ([cs[0]] + p, rest)
    else Round(deps, cs[1..], pending)
  }

  /** Rounds over the waiting modules in name order, until none is left or a round places none, and then the rest. */
  ghost predicate InRounds(deps: Dependencies, pending: set<string>, order: seq<string>, placed: nat)
    decreases pending
  {
    if pending == {} then order == [] && placed == 0
    else exists cs :: Sorted(cs) && Lists(cs, pending) && NextRound(deps, pending, cs, order, placed)
  }

  ghost predicate NextRound(deps: Dependencies, pending: set<string>, cs: seq<string>, order: seq<string>, placed: nat)
    requires Lists(cs, pending)
    decreases pending, 0
  {
    var (p, rest) := Round(deps, cs, pending);
    if p == [] then order == cs && placed == 0
    else
      assert p[0] in p;
      p <= order && |p| <= placed && InRounds(deps, rest, order[|p|..], placed - |p|)
  }

  lemma Place(deps: Dependencies, names: set<string>, order: seq<string>, pending: set<string>, name: string)
    requires NoRepeats(order) && Exact(names, order, pending) && Respects(deps, names, order, |order|)
    requires name in pending && Ready(deps, pending, name)
    ensures NoRepeats(order + [name]) && Exact(names, order + [name], pending - {name})
    ensures Respects(deps, names, order + [name], |order| + 1)
  {
    var more := order + [name];
    forall x
      ensures x in more <==> x in order || x == name
    {
      assert more[|order|] == name;
    }
    forall i, d | 0 <= i < |order| + 1 && d in DepsOf(deps, more[i]) && d != more[i] && d in names
      ensures d in more[..i]
    {
      assert more[..i] == order[..i];
      assert order[..|order|] == order;
    }
  }

  /** One round: each candidate that is ready when its turn comes is placed. */
  method PlaceReady(names: set<string>, deps: Dependencies, start: seq<string>, waiting: set<string>)
    returns (order: seq<string>, pending: set<string>, progressed: bool, ghost candidates: seq<string>)
    requires NoRepeats(start) && Exact(names, start, waiting) && Respects(deps, names, start, |start|)
    ensures NoRepeats(order) && Exact(names, order, pending) && Respects(deps, names, order, |order|)
    ensures pending <= waiting
    ensures progressed <==> pending != waiting
    ensures !progressed ==> order == start && forall x :: x in waiting ==> !Ready(deps, waiting, x)
    ensures Sorted(candidates) && Lists(candidates, waiting)
    ensures var (p, rest) := Round(deps, candidates, waiting); order == start + p && pending == rest
  {
    hide Respects, Exact, Ready, Sorted, Lists, NoRepeats, Round;
    var sorted := SortNames(waiting);
    candidates := sorted;
    CandidatesAre(sorted, waiting);
    order, pending, progressed := start, waiting, false;
    assert sorted[0..] == sorted;
    var i := 0;
    while i < |sorted|
      invariant i <= |sorted|
      invariant NoRepeats(order) && Exact(names, order, pending) && Respects(deps, names, order, |order|)
      invariant pending <= waiting
      invariant forall j :: i <= j < |sorted| ==> sorted[j] in pending
      invariant if progressed then pending != waiting else pending == waiting && order == start
      invariant !progressed ==> forall j :: 0 <= j < i ==> !Ready(deps, pending, sorted[j])
      invariant var (p, rest) := Round(deps, sorted, waiting);
        var (q, left) := Round(deps, sorted[i..], pending);
        start + p == order + q && rest == left
    {
      var name := sorted[i];
      LaterDiffer(sorted, i);
      var ready := IsReady(deps, pending, name);
      RoundTurn(deps, sorted[i..], pending);
      assert sorted[i..][0] == name && sorted[i..][1..] == sorted[i + 1..];
      if ready {
        Place(deps, names, order, pending, name);
        pending := pending - {name};
        order := order + [name];
        progressed := true;
      }
      i := i + 1;
    }
    assert sorted[i..] == [];
    RoundOver(deps, pending);
  }

  lemma {:induction false} LaterDiffer(names: seq<string>, i: nat)
    requires NoRepeats(names) && i < |names|
    ensures forall j :: i < j < |names| ==> names[j] != names[i]
  {
  }

  lemma {:induction false} RoundOver(deps: Dependencies, pending: set<string>)
    ensures Round(deps, [], pending) == ([], pending)
  {
  }

  lemma {:induction false} RoundTurn(deps: Dependencies, cs: seq<string>, pending: set<string>)
    requires cs != []
    ensures Round(deps, cs, pending) ==
            if Ready(deps, pending, cs[0]) then
              var (p, rest) := Round(deps, cs[1..], pending - {cs[0]});
              ([cs[0]] + p, rest)
            else Round(deps, cs[1..], pending)
  {
    hide Ready;
  }

  lemma CandidatesAre(candidates: seq<string>, waiting: set<string>)
    requires Sorted(candidates) && Lists(candidates, waiting)
    ensures NoRepeats(candidates)
    ensures forall x :: x in candidates <==> x in waiting
    ensures forall j :: 0 <= j < |candidates| ==> candidates[j] in waiting
  {
    hide Below;
    Irreflexive(candidates);
  }

  /**
   The ordering loop of `analyze_documents`: rounds over the waiting modules in name order, until none is
   left or a round places none; then the rest is appended, sorted.
   `placed` counts the modules placed before that.
   */
  method OrderModules(names: set<string>, deps: Dependencies) returns (order: seq<string>, placed: nat)
    ensures NoRepeats(order) && Lists(order, names)
    ensures placed <= |order| && Respects(deps, names, order, placed)
    ensures Sorted(order[placed..])
    ensures AllBlocked(deps, order[placed..])
    ensures InRounds(deps, names, order, placed)
  {
    order := [];
    var pending := names;
    RoundsFromStart(deps, names);
    while pending != {}
      invariant NoRepeats(order) && Exact(names, order, pending) && Respects(deps, names, order, |order|)
      invariant Continues(deps, names, order, pending)
      decreases pending
    {
      hide Respects, Exact, NoRepeats, Ready, Sorted, AllBlocked, Continues, InRounds, Round;
      var progressed;
      ghost var candidates;
      ghost var (before, start) := (pending, order);
      order, pending, progressed, candidates := PlaceReady(names, deps, order, pending);
      RoundContinues(deps, names, start, before, candidates);
      if !progressed {
        var remaining := SortNames(pending);
        RoundsEnd(deps, names, order, pending, candidates, remaining);
        Fallback(deps, names, order, pending, remaining);
        StillWaiting(deps, pending, remaining);
        assert (order + remaining)[|order|..] == remaining;
        return order + remaining, |order|;
      }
    }
    AllPlaced(names, order, pending);
    RoundsDone(deps, names, order);
    placed := |order|;
  }

  /** The order is as promised: what a placed module depends on is before it, and the rest wait for one another. */
  lemma {:induction false} OrderMeans(names: set<string>, deps: Dependencies, order: seq<string>, placed: nat)
    requires placed <= |order| && Respects(deps, names, order, placed) && AllBlocked(deps, order[placed..])
    ensures forall i, d :: 0 <= i < placed && order[i] in deps && d in deps[order[i]] && d != order[i] && d in names
                           ==> d in order[..i]
    ensures forall x :: x in order[placed..] ==>
              x in deps && exists d :: d in deps[x] && d != x && d in order[placed..]
  {
    hide Respects;
    RespectsMeans(deps, names, order, placed);
    forall x | x in order[placed..]
      ensures x in deps && exists d :: d in deps[x] && d != x && d in order[placed..]
    {
      assert Blocked(deps, order[placed..], x);
    }
  }

  lemma {:induction false} RespectsMeans(deps: Dependencies, names: set<string>, order: seq<string>, k: nat)
    requires k <= |order| && Respects(deps, names, order, k)
    ensures forall i, d :: 0 <= i < k && order[i] in deps && d in deps[order[i]] && d != order[i] && d in names
                           ==> d in order[..i]
  {
    forall i, d | 0 <= i < k && order[i] in deps && d in deps[order[i]] && d != order[i] && d in names
      ensures d in order[..i]
    {
      assert d in DepsOf(deps, order[i]);
    }
  }

  /** Whatever the rounds make of what is waiting goes on from `order` to what they make of all. */
  ghost predicate Continues(deps: Dependencies, names: set<string>, order: seq<string>, pending: set<string>) {
    forall tail, k: nat :: InRounds(deps, pending, tail, k) ==> InRounds(deps, names, order + tail, |order| + k)
  }

  lemma {:induction false} RoundsFromStart(deps: Dependencies, names: set<string>)
    ensures Continues(deps, names, [], names)
  {
    hide InRounds;
    forall tail: seq<string>
      ensures [] + tail == tail
    {
    }
  }

  lemma {:induction false} RoundContinues(deps: Dependencies, names: set<string>, order: seq<string>,
      pending: set<string>, cs: seq<string>)
    requires Continues(deps, names, order, pending) && Sorted(cs) && Lists(cs, pending)
    ensures var (p, rest) := Round(deps, cs, pending); Continues(deps, names, order + p, rest)
  {
    hide Sorted, Lists, Round;
    var (p, rest) := Round(deps, cs, pending);
    forall tail, k: nat | InRounds(deps, rest, tail, k)
      ensures InRounds(deps, names, order + p + tail, |order + p| + k)
    {
      if p != [] {
        assert p[0] in p;
        assert (p + tail)[|p|..] == tail;
        assert NextRound(deps, pending, cs, p + tail, |p| + k);
        SomeWaits(cs, pending, p[0]);
        assert InRounds(deps, pending, p + tail, |p| + k);
        assert order + (p + tail) == order + p + tail;
      } else {
        NothingPlaced(deps, cs, pending);
        assert order + p == order;
      }
    }
  }

  lemma {:induction false} SomeWaits(cs: seq<string>, pending: set<string>, x: string)
    requires Lists(cs, pending) && x in cs
    ensures pending != {}
  {
  }

  lemma {:induction false} NothingPlaced(deps: Dependencies, cs: seq<string>, pending: set<string>)
    requires Round(deps, cs, pending).0 == []
    ensures Round(deps, cs, pending).1 == pending
    decreases |cs|
  {
    hide Ready;
    if cs != [] {
      NothingPlaced(deps, cs[1..], pending);
    }
  }

  lemma {:induction false} RoundsEnd(deps: Dependencies, names: set<string>, order: seq<string>, pending: set<string>,
      cs: seq<string>, remaining: seq<string>)
    requires Continues(deps, names, order, pending) && Sorted(cs) && Lists(cs, pending) && pending != {}
    requires Round(deps, cs, pending) == ([], pending) && Sorted(remaining) && Lists(remaining, pending)
    ensures InRounds(deps, names, order + remaining, |order|)
  {
    SortedUnique(cs, remaining);
    hide Sorted, Round;
    assert NextRound(deps, pending, cs, remaining, 0);
    assert InRounds(deps, pending, remaining, 0);
  }

  lemma {:induction false} RoundsDone(deps: Dependencies, names: set<string>, order: seq<string>)
    requires Continues(deps, names, order, {})
    ensures InRounds(deps, names, order, |order|)
  {
    assert InRounds(deps, {}, [], 0);
    assert order + [] == order;
  }

  /** The sorted list of a set's members is unique, and with it every round. */
  lemma {:induction false} SortedUnique(a: seq<string>, b: seq<string>)
    requires Sorted(a) && Sorted(b) && forall x :: x in a <==> x in b
    ensures a == b
    decreases |a|
  {
    hide Below;
    if a == [] || b == [] {
      EmptyIff(a);
      EmptyIff(b);
    } else {
      SameFirst(a, b);
      forall x
        ensures x in a[1..] <==> x in b[1..]
      {
        InRest(a, x);
        InRest(b, x);
      }
      SortedUnique(a[1..], b[1..]);
      assert a == [a[0]] + a[1..] && b == [b[0]] + b[1..];
    }
  }

  lemma {:induction false} EmptyIff(a: seq<string>)
    ensures a == [] <==> forall x :: x !in a
  {
    if a != [] {
      assert a[0] in a;
    }
  }

  lemma {:induction false} HeadIsLeast(a: seq<string>, x: string)
    requires Sorted(a) && x in a
    ensures x == a[0] || Below(a[0], x)
  {
    hide Below;
    var i :| 0 <= i < |a| && a[i] == x;
  }

  lemma {:induction false} SameFirst(a: seq<string>, b: seq<string>)
    requires a != [] && b != [] && Sorted(a) && Sorted(b) && forall x :: x in a <==> x in b
    ensures a[0] == b[0]
  {
    hide Below;
    HeadIsLeast(a, b[0]);
    HeadIsLeast(b, a[0]);
    BelowTotal(a[0], b[0]);
  }

  lemma {:induction false} InRest(a: seq<string>, x: string)
    requires a != [] && Sorted(a)
    ensures x in a[1..] <==> x in a && x != a[0]
  {
    hide Below;
    BelowTotal(a[0], a[0]);
    if x in a[1..] {
      var i :| 0 <= i < |a[1..]| && a[1..][i] == x;
      assert Below(a[0], a[i + 1]);
    }
  }

  // A module that is not ready waits for another one that is waiting too.
  lemma StillWaiting(deps: Dependencies, pending: set<string>, remaining: seq<string>)
    requires Lists(remaining, pending) && forall x :: x in pending ==> !Ready(deps, pending, x)
    ensures AllBlocked(deps, remaining)
  {
    forall x | x in remaining
      ensures Blocked(deps, remaining, x)
    {
      assert !Ready(deps, pending, x);
    }
  }

  lemma Irreflexive(names: seq<string>)
    requires Sorted(names)
    ensures NoRepeats(names)
  {
    hide Below;
    forall i, j | 0 <= i < j < |names|
      ensures names[i] != names[j]
    {
      BelowTotal(names[i], names[j]);
    }
  }

  lemma AllPlaced(names: set<string>, order: seq<string>, pending: set<string>)
    requires Exact(names, order, pending) && pending == {}
    ensures Lists(order, names) && order[|order|..] == [] && Sorted([])
  {
  }

  lemma Fallback(deps: Dependencies, names: set<string>, order: seq<string>, pending: set<string>,
      remaining: seq<string>)
    requires NoRepeats(order) && Exact(names, order, pending) && Respects(deps, names, order, |order|)
    requires Sorted(remaining) && Lists(remaining, pending)
    ensures NoRepeats(order + remaining) && Lists(order + remaining, names)
    ensures Respects(deps, names, order + remaining, |order|)
  {
    Irreflexive(remaining);
    var all := order + remaining;
    forall i, j | 0 <= i < j < |all|
      ensures all[i] != all[j]
    {
      if i < |order| <= j {
        assert all[i] in order && all[j] in remaining;
      }
    }
    forall i | 0 <= i < |order|
      ensures all[..i] == order[..i] && all[i] == order[i]
    {
    }
  }

  method IsReady(deps: Dependencies, pending: set<string>, name: string) returns (ready: bool)
    ensures ready == Ready(deps, pending, name)
  {
    var rest := DepsOf(deps, name);
    ready := true;
    while rest != {}
      invariant rest <= DepsOf(deps, name)
      invariant ready == forall d :: d in DepsOf(deps, name) - rest && d != name ==> d !in pending
    {
      var d :| d in rest;
      rest := rest - {d};
      if d != name && d in pending {
        ready := false;
      }
    }
  }

  // ---- When every module is placed ----

  /** The other dependencies of every module have a lower rank: no cycle but self-references. */
  ghost predicate RankedBy(deps: Dependencies, names: set<string>, rank: map<string, nat>) {
    && names <= rank.Keys
    && forall x, d :: x in names && d in DepsOf(deps, x) && d in names && d != x ==> rank[d] < rank[x]
  }

  ghost predicate Acyclic(deps: Dependencies, names: set<string>) {
    exists rank :: RankedBy(deps, names, rank)
  }

  // A result of `OrderModules`.
  ghost predicate IsOrder(deps: Dependencies, names: set<string>, order: seq<string>, placed: nat) {
    && NoRepeats(order) && Lists(order, names) && placed <= |order| && Respects(deps, names, order, placed)
    && AllBlocked(deps, order[placed..])
  }

  // Among finitely many names, one has the least rank.
  lemma {:induction false} LeastRank(names: seq<string>, rank: map<string, nat>) returns (x: string)
    requires names != [] && forall y :: y in names ==> y in rank
    ensures x in names && forall y :: y in names ==> rank[x] <= rank[y]
    decreases |names|
  {
    x := names[0];
    if |names| > 1 {
      var z := LeastRank(names[1..], rank);
      assert names == [names[0]] + names[1..];
      x := if rank[z] < rank[x] then z else x;
    }
  }

  lemma WaitsFor(deps: Dependencies, names: set<string>, order: seq<string>, placed: nat, x: string) returns (d: string)
    requires IsOrder(deps, names, order, placed) && x in order[placed..]
    ensures d in DepsOf(deps, x) && d != x && d in order[placed..]
  {
    hide Respects, NoRepeats, DepsOf;
    assert Blocked(deps, order[placed..], x);
    d :| d in DepsOf(deps, x) && d != x && d in order[placed..];
  }

  lemma AcyclicPlacesAll(deps: Dependencies, names: set<string>, order: seq<string>, placed: nat)
    requires IsOrder(deps, names, order, placed) && Acyclic(deps, names)
    ensures placed == |order|
  {
    hide Respects, NoRepeats, AllBlocked;
    var rank :| RankedBy(deps, names, rank);
    if placed < |order| {
      var rest := order[placed..];
      forall y | y in rest
        ensures y in names && y in rank
      {
        assert y in order;
      }
      var x := LeastRank(rest, rank);
      var d := WaitsFor(deps, names, order, placed, x);
      assert false;
    }
  }

  lemma AllPlacedIsAcyclic(deps: Dependencies, names: set<string>, order: seq<string>)
    requires NoRepeats(order) && Lists(order, names) && Respects(deps, names, order, |order|)
    ensures Acyclic(deps, names)
  {
    hide DepsOf;
    var rank := map x | x in names :: IndexOf(order, x);
    forall x, d | x in names && d in DepsOf(deps, x) && d in names && d != x
      ensures rank[d] < rank[x]
    {
      var i := IndexOf(order, x);
      assert d in order[..i];
      var j :| 0 <= j < i && order[..i][j] == d;
      assert order[j] == d && order[IndexOf(order, d)] == d;
    }
    assert RankedBy(deps, names, rank);
  }

  /** The order is a full topological order exactly when the dependencies, self-references aside, have no cycle. */
  lemma FullOrderIffAcyclic(deps: Dependencies, names: set<string>, order: seq<string>, placed: nat)
    requires IsOrder(deps, names, order, placed)
    ensures placed == |order| <==> Acyclic(deps, names)
  {
    hide Respects, Acyclic;
    if Acyclic(deps, names) {
      AcyclicPlacesAll(deps, names, order, placed);
    }
    if placed == |order| {
      AllPlacedIsAcyclic(deps, names, order);
    }
  }

  ghost function IndexOf(order: seq<string>, x: string): (i: nat)
    requires x in order
    ensures i < |order| && order[i] == x
  {
    var i :| 0 <= i < |order| && order[i] == x;
    i
  }

  // ---- Dependencies of one source ----

  datatype Lexed = Lexed(kind: TokenKind, text: string)

  predicate Skipped(k: TokenKind) {
    k.Whitespace? || k.Comment? || k.DoubleColon?
  }

  /** The first token from `i` on that is neither trivia nor `::`. */
  function AfterSkip(ts: seq<Lexed>, i: nat): (j: nat)
    requires i <= |ts|
    ensures i <= j <= |ts| && (j < |ts| ==> !Skipped(ts[j].kind)) && forall k :: i <= k < j ==> Skipped(ts[k].kind)
    decreases |ts| - i
  {
    if i < |ts| && Skipped(ts[i].kind) then AfterSkip(ts, i + 1) else i
  }

  /** `draw` at `i` names a module. */
  predicate Draws(ts: seq<Lexed>, names: set<string>, i: nat, name: string) {
    i < |ts| && ts[i].kind.Draw?
    && var j := AfterSkip(ts, i + 1);
       j < |ts| && ts[j].kind.Ident? && ts[j].text == name && name in names
  }

  /** The scan of an earlier `draw`, one that is not stepped over itself, stops at `i` and steps over it. */
  ghost predicate Eaten(ts: seq<Lexed>, i: nat)
    decreases i
  {
    exists k: nat :: k < i && Stops(ts, k, i) && !Eaten(ts, k)
  }

  predicate Stops(ts: seq<Lexed>, k: nat, i: nat) {
    k < |ts| && ts[k].kind.Draw? && AfterSkip(ts, k + 1) == i
  }

  function DepsFrom(ts: seq<Lexed>, names: set<string>, i: nat): set<string>
    decreases |ts| + 1 - i
  {
    if i >= |ts| then {}
    else if !ts[i].kind.Draw? then DepsFrom(ts, names, i + 1)
    else
      var j := AfterSkip(ts, i + 1);
      (if j < |ts| && ts[j].kind.Ident? && ts[j].text in names then {ts[j].text} else {}) + DepsFrom(ts, names, j + 1)
  }

  /** `draw_dependencies`. */
  method DrawDependencies(ts: seq<Lexed>, names: set<string>) returns (deps: set<string>)
    ensures deps == DepsFrom(ts, names, 0)
  {
    deps := {};
    var idx := 0;
    while idx < |ts|
      invariant deps + DepsFrom(ts, names, idx) == DepsFrom(ts, names, 0)
      decreases |ts| - idx
    {
      if !ts[idx].kind.Draw? {
        idx := idx + 1;
      } else {
        var cursor := idx + 1;
        while cursor < |ts| && Skipped(ts[cursor].kind)
          invariant idx < cursor <= |ts|
          invariant AfterSkip(ts, cursor) == AfterSkip(ts, idx + 1)
          decreases |ts| - cursor
        {
          cursor := cursor + 1;
        }
        if cursor < |ts| && ts[cursor].kind.Ident? {
          var name := ts[cursor].text;
          if name in names {
            deps := deps + {name};
          }
        }
        idx := cursor + 1;
      }
    }
  }

  /** No `draw` before `i` that the scan looks at stops at `i` or later. */
  ghost predicate Aligned(ts: seq<Lexed>, i: nat) {
    forall k: nat, j: nat :: k < i && Stops(ts, k, j) && !Eaten(ts, k) ==> j < i
  }

  lemma {:induction false} AlignedStep(ts: seq<Lexed>, i: nat)
    requires i < |ts| && Aligned(ts, i)
    ensures ts[i].kind.Draw? ==> !Eaten(ts, i) && Aligned(ts, AfterSkip(ts, i + 1) + 1)
    ensures !ts[i].kind.Draw? ==> Aligned(ts, i + 1)
  {
    if ts[i].kind.Draw? {
      var j := AfterSkip(ts, i + 1);
      EatenNext(ts, i);
      assert forall m :: i < m < j ==> Skipped(ts[m].kind) && !ts[m].kind.Draw?;
      forall k: nat, l: nat | k < j + 1 && Stops(ts, k, l) && !Eaten(ts, k)
        ensures l < j + 1
      {
      }
    }
  }

  /** From an aligned position on, exactly the modules named by draws that are not stepped over are recorded. */
  lemma {:induction false} DepsFromIff(ts: seq<Lexed>, names: set<string>, i: nat, name: string)
    requires Aligned(ts, i)
    ensures name in DepsFrom(ts, names, i) <==> exists k: nat :: k >= i && Draws(ts, names, k, name) && !Eaten(ts, k)
    decreases |ts| + 1 - i
  {
    hide Aligned, Eaten;
    if i < |ts| {
      AlignedStep(ts, i);
      var j := AfterSkip(ts, i + 1);
      var next := if ts[i].kind.Draw? then j + 1 else i + 1;
      DepsFromIff(ts, names, next, name);
      assert ts[i].kind.Draw? ==> forall m :: i < m < j ==> Skipped(ts[m].kind) && !ts[m].kind.Draw?;
      if k: nat :| k >= i && Draws(ts, names, k, name) && !Eaten(ts, k) {
        if ts[i].kind.Draw? && k == j {
          EatenNext(ts, i);
        }
      }
    }
  }

  lemma {:induction false} EatenNext(ts: seq<Lexed>, i: nat)
    requires i < |ts| && ts[i].kind.Draw? && !Eaten(ts, i)
    ensures Eaten(ts, AfterSkip(ts, i + 1))
  {
    assert Stops(ts, i, AfterSkip(ts, i + 1));
  }

  /**
   A module is recorded as a dependency if and only if some `draw` names it that no earlier `draw` steps over.
   So in a row of adjacent draws every second one is lost.
   */
  lemma {:induction false} DepsIff(ts: seq<Lexed>, names: set<string>, name: string)
    ensures name in DepsFrom(ts, names, 0) <==> exists k: nat :: Draws(ts, names, k, name) && !Eaten(ts, k)
  {
    hide Eaten;
    DepsFromIff(ts, names, 0, name);
  }

  /** Between the tokens `k` and `j` there is only white space, comments and `::`, and `j` is none of them. */
  predicate Gap(ts: seq<Lexed>, k: nat, j: nat) {
    && k < j <= |ts| && (forall m :: k < m < j ==> Between(ts[m].kind)) && (j < |ts| ==> !Between(ts[j].kind))
  }

  predicate Between(k: TokenKind) {
    match k
    case Whitespace => true
    case Comment => true
    case DoubleColon => true
    case _ => false
  }

  lemma {:induction false} AfterSkipIff(ts: seq<Lexed>, i: nat, j: nat)
    requires i < |ts|
    ensures AfterSkip(ts, i + 1) == j <==> Gap(ts, i, j)
  {
    hide AfterSkip, Between;
    forall k | k in ts
      ensures Skipped(k.kind) <==> Between(k.kind)
    {
      SkippedIff(k.kind);
    }
    var e := AfterSkip(ts, i + 1);
    assert forall m :: i < m < e ==> ts[m] in ts && Between(ts[m].kind);
    assert e < |ts| ==> ts[e] in ts;
    assert Gap(ts, i, e);
  }

  lemma {:induction false} SkippedIff(k: TokenKind)
    ensures Skipped(k) <==> Between(k)
  {
  }

  /** A `draw` is stepped over exactly if it ends the gap behind an earlier one that is not. */
  lemma {:induction false} EatenIff(ts: seq<Lexed>, i: nat)
    ensures Eaten(ts, i) <==> exists k: nat :: k < i && k < |ts| && ts[k].kind.Draw? && Gap(ts, k, i) && !Eaten(ts, k)
  {
    hide AfterSkip, Gap;
    forall k: nat | k < |ts|
      ensures AfterSkip(ts, k + 1) == i <==> Gap(ts, k, i)
    {
      AfterSkipIff(ts, k, i);
    }
    if Eaten(ts, i) {
      var k: nat :| k < i && Stops(ts, k, i) && !Eaten(ts, k);
      assert Gap(ts, k, i);
    }
    if k: nat :| k < i && k < |ts| && ts[k].kind.Draw? && Gap(ts, k, i) && !Eaten(ts, k) {
      assert Stops(ts, k, i);
    }
  }

  /** `draw`, a gap, and a module's name, where the `draw` is not stepped over: exactly these are recorded. */
  lemma {:induction false} RecordedIff(ts: seq<Lexed>, names: set<string>, name: string)
    ensures name in DepsFrom(ts, names, 0) <==>
              name in names && exists k: nat, j: nat ::
                && k < j < |ts| && Gap(ts, k, j) && ts[k].kind.Draw? && ts[j].kind.Ident? && ts[j].text == name
                && !Eaten(ts, k)
  {
    hide DepsFrom, AfterSkip, Gap, Eaten;
    DepsIff(ts, names, name);
    if k: nat :| Draws(ts, names, k, name) && !Eaten(ts, k) {
      AfterSkipIff(ts, k, AfterSkip(ts, k + 1));
    }
    if k: nat, j: nat :| k < j < |ts| && Gap(ts, k, j) && ts[k].kind.Draw? && ts[j].kind.Ident? && ts[j].text == name
                         && !Eaten(ts, k) && name in names {
      AfterSkipIff(ts, k, j);
      assert Draws(ts, names, k, name);
    }
  }

  // A row of `n` draws, one directly after the other, and then a name.
  function DrawRow(n: nat, m: string): seq<Lexed> {
    if n == 0 then [Lexed(Ident, m)] else [Lexed(Draw, "draw")] + DrawRow(n - 1, m)
  }

  lemma {:induction false} DrawRowAt(n: nat, m: string, k: nat)
    requires k <= n
    ensures |DrawRow(n, m)| == n + 1
    ensures DrawRow(n, m)[k] == if k == n then Lexed(Ident, m) else Lexed(Draw, "draw")
    decreases n
  {
    if n > 0 {
      DrawRowAt(n - 1, m, if k == 0 then 0 else k - 1);
    }
  }

  // In such a row the second, fourth, ... draw is stepped over.
  lemma {:induction false} RowEaten(n: nat, m: string, k: nat)
    requires k < n
    ensures Eaten(DrawRow(n, m), k) <==> k % 2 == 1
    decreases k
  {
    hide DrawRow, Eaten;
    var ts := DrawRow(n, m);
    forall i: nat | i < n
      ensures |ts| == n + 1 && ts[i] == Lexed(Draw, "draw") && AfterSkip(ts, i + 1) == i + 1
    {
      DrawRowAt(n, m, i);
      DrawRowAt(n, m, i + 1);
    }
    forall i: nat | Stops(ts, i, k)
      ensures i + 1 == k
    {
      DrawRowAt(n, m, k);
    }
    if k > 0 {
      RowEaten(n, m, k - 1);
      assert Stops(ts, k - 1, k);
    }
    EatenByLast(ts, k);
  }

  lemma {:induction false} EatenByLast(ts: seq<Lexed>, k: nat)
    requires forall i: nat :: Stops(ts, i, k) ==> i + 1 == k
    requires k > 0 ==> Stops(ts, k - 1, k)
    ensures Eaten(ts, k) <==> k > 0 && !Eaten(ts, k - 1)
  {
  }

  /**
   The name after `n` adjacent draws is recorded if and only if `n` is odd: `draw draw m` loses it, `draw draw draw m`
   does not.
   */
  lemma {:induction false} EverySecondDrawIsLost(n: nat, m: string)
    ensures m in DepsFrom(DrawRow(n, m), {m}, 0) <==> n % 2 == 1
  {
    var ts := DrawRow(n, m);
    DepsIff(ts, {m}, m);
    hide DrawRow, DepsFrom, Eaten;
    forall k: nat | Draws(ts, {m}, k, m)
      ensures k + 1 == n
    {
      DrawRowAt(n, m, n);
      DrawRowAt(n, m, k);
      if k + 1 < n {
        DrawRowAt(n, m, k + 1);
      }
    }
    if n > 0 {
      DrawRowAt(n, m, n);
      DrawRowAt(n, m, n - 1);
      RowEaten(n, m, n - 1);
      assert Draws(ts, {m}, n - 1, m);
    }
  }
}
