/** `ContractChecker`: which clauses are reported, and when a report survives learning more. */
module ContractCheck {
  import opened Ast
  import opened ConstEval

  // Message, code and label are fixed by the kind, the function's name and the clause's index.
  datatype Diagnostic = Requires(name: string, index: nat) | Ensures(name: string, index: nat)

  // `Aborted`: evaluating some clause trapped, and no diagnostics are produced.
  datatype Report = Reported(diagnostics: seq<Diagnostic>) | Aborted

  function Diagnose(isRequires: bool, name: string, i: nat): Diagnostic {
    if isRequires then Requires(name, i) else Ensures(name, i)
  }

  /** The positional binding of arguments to parameter names: the shorter list decides, the last repeat wins. */
  function ArgContext(params: seq<string>, args: seq<ConstValue>): Context
    decreases |params|
  {
    if params == [] then map[]
    else
      var n := |params| - 1;
      if n < |args| then ArgContext(params[..n], args)[params[n] := args[n]] else ArgContext(params[..n], args)
  }

  ghost predicate Traps(fl: FloatOps, clauses: seq<Expr>, ctx: Context) {
    exists i :: 0 <= i < |clauses| && Eval(fl, clauses[i], ctx) == Panic
  }

  ghost predicate Violated(fl: FloatOps, clauses: seq<Expr>, ctx: Context, i: nat) {
    i < |clauses| && Eval(fl, clauses[i], ctx) == Done(Bool(false))
  }

  /** The report lists exactly the violated clauses, by index, in order, once each. */
  ghost predicate Reports(
    fl: FloatOps, isRequires: bool, name: string, clauses: seq<Expr>, ctx: Context, r: Report)
  {
    match r
    case Aborted => Traps(fl, clauses, ctx)
    case Reported(ds) =>
      && !Traps(fl, clauses, ctx)
      && (forall d :: d in ds <==> exists i :: Violated(fl, clauses, ctx, i) && d == Diagnose(isRequires, name, i))
      && (forall j, k :: 0 <= j < k < |ds| ==> ds[j].index < ds[k].index)
  }

  // The loop shared by both checks.
  method CheckClauses(fl: FloatOps, isRequires: bool, name: string, clauses: seq<Expr>,
      ctx: Context) returns (r: Report)
    ensures Reports(fl, isRequires, name, clauses, ctx, r)
  {
    hide Eval;
    var diagnostics: seq<Diagnostic> := [];
    var i := 0;
    while i < |clauses|
      invariant i <= |clauses|
      invariant forall j :: 0 <= j < i ==> Eval(fl, clauses[j], ctx) != Panic
      invariant forall d :: d in diagnostics ==> d.index < i
      invariant forall d :: d in diagnostics <==>
                            exists j: nat :: j < i && Violated(fl, clauses, ctx, j)
                                && d == Diagnose(isRequires, name, j)
      invariant forall j, k :: 0 <= j < k < |diagnostics| ==> diagnostics[j].index < diagnostics[k].index
    {
      var res := Eval(fl, clauses[i], ctx);
      if res == Panic {
        return Aborted;
      }
      ghost var before := diagnostics;
      if res == Done(Bool(false)) {
        diagnostics := diagnostics + [Diagnose(isRequires, name, i)];
        assert Violated(fl, clauses, ctx, i);
        assert forall d :: d in diagnostics <==> d in before || d == Diagnose(isRequires, name, i);
      }
      i := i + 1;
    }
    r := Reported(diagnostics);
  }

  /** `check_requires_raw`. */
  method CheckRequires(fl: FloatOps, name: string, params: seq<string>, requirements: seq<Expr>, args: seq<ConstValue>)
    returns (r: Report)
    ensures Reports(fl, true, name, requirements, ArgContext(params, args), r)
    ensures r.Reported? ==> forall d :: d in r.diagnostics <==>
              exists i :: Violated(fl, requirements, ArgContext(params, args), i) && d == Requires(name, i)
  {
    var context: Context := map[];
    var i := 0;
    while i < |params| && i < |args|
      invariant i <= |params|
      invariant context == ArgContext(params[..i], args)
    {
      assert params[..i + 1][..i] == params[..i];
      context := context[params[i] := args[i]];
      i := i + 1;
    }
    Shorter(params, args, i);
    r := CheckClauses(fl, true, name, requirements, context);
  }

  lemma {:induction false} Shorter(params: seq<string>, args: seq<ConstValue>, i: nat)
    requires i <= |params| && (i == |params| || i >= |args|)
    ensures ArgContext(params[..i], args) == ArgContext(params, args)
    decreases |params|
  {
    if i < |params| {
      var n := |params| - 1;
      assert params[..n][..i] == params[..i];
      Shorter(params[..n], args, i);
    } else {
      assert params[..i] == params;
    }
  }

  /** `check_ensures_raw`: the returned value under the name `result`, over the parameters. */
  method CheckEnsures(fl: FloatOps, name: string, clauses: seq<Expr>, ret: ConstValue, params: Context)
    returns (r: Report)
    ensures Reports(fl, false, name, clauses, params["result" := ret], r)
    ensures r.Reported? ==> forall d :: d in r.diagnostics <==>
              exists i :: Violated(fl, clauses, params["result" := ret], i) && d == Ensures(name, i)
  {
    var context := params["result" := ret];
    r := CheckClauses(fl, false, name, clauses, context);
  }

  // ---- Stability ----

  /** A clause found violated stays violated, whatever more becomes known. */
  lemma ViolationStays(fl: FloatOps, clauses: seq<Expr>, less: Context, more: Context, i: nat)
    requires Extends(less, more) && Violated(fl, clauses, less, i)
    ensures Violated(fl, clauses, more, i)
  {
    EvalStable(fl, clauses[i], less, more);
  }

  /** Every diagnostic of the first report is in the second, unless the second check trapped. */
  ghost predicate Keeps(first: Report, second: Report) {
    first.Reported? && second.Reported? ==> forall d :: d in first.diagnostics ==> d in second.diagnostics
  }

  lemma ReportStays(fl: FloatOps, isRequires: bool, name: string, clauses: seq<Expr>, less: Context, more: Context,
                    first: Report, second: Report)
    requires Extends(less, more)
    requires Reports(fl, isRequires, name, clauses, less, first)
    requires Reports(fl, isRequires, name, clauses, more, second)
    ensures Keeps(first, second)
  {
    hide Violated, Traps;
    if first.Reported? && second.Reported? {
      forall d | d in first.diagnostics
        ensures d in second.diagnostics
      {
        var i :| Violated(fl, clauses, less, i) && d == Diagnose(isRequires, name, i);
        ViolationStays(fl, clauses, less, more, i);
      }
    }
  }

  /** `full` completes `partial`: at least as many arguments, agreeing wherever `partial` knows a value. */
  ghost predicate Completes(partial: seq<ConstValue>, full: seq<ConstValue>) {
    && |partial| <= |full|
    && forall i :: 0 <= i < |partial| ==> partial[i] == Unknown || full[i] == partial[i]
  }

  ghost predicate DistinctNames(params: seq<string>) {
    forall i, j :: 0 <= i < j < |params| ==> params[i] != params[j]
  }

  lemma {:induction false} ArgContextAt(params: seq<string>, args: seq<ConstValue>, x: string)
    ensures x in ArgContext(params, args) <==> exists i :: 0 <= i < |params| && i < |args| && params[i] == x
    ensures forall i :: 0 <= i < |params| && i < |args| && params[i] == x
                        && (forall j :: i < j < |params| && j < |args| ==> params[j] != x)
                        ==> x in ArgContext(params, args) && ArgContext(params, args)[x] == args[i]
    decreases |params|
  {
    if params != [] {
      var n := |params| - 1;
      var p := params[..n];
      ArgContextAt(p, args, x);
      assert forall i :: 0 <= i < n ==> p[i] == params[i];
    }
  }

  lemma ContextGrows(params: seq<string>, partial: seq<ConstValue>, full: seq<ConstValue>)
    requires DistinctNames(params) && Completes(partial, full)
    ensures Extends(ArgContext(params, partial), ArgContext(params, full))
  {
    hide ArgContext;
    forall x | x in ArgContext(params, partial)
      ensures x in ArgContext(params, full)
      ensures ArgContext(params, partial)[x] == Unknown || ArgContext(params, full)[x] == ArgContext(params, partial)[x]
    {
      ArgContextAt(params, partial, x);
      ArgContextAt(params, full, x);
      var i :| 0 <= i < |params| && i < |partial| && params[i] == x;
      assert forall j :: i < j < |params| ==> params[j] != x;
    }
  }

  /** What `check_requires` would report for these arguments. */
  ghost predicate RequiresReports(
    fl: FloatOps, name: string, params: seq<string>, clauses: seq<Expr>, args: seq<ConstValue>, r: Report)
  {
    Reports(fl, true, name, clauses, ArgContext(params, args), r)
  }

  /** Preconditions reported with partial arguments are reported for every completion. */
  ghost predicate StableFor(fl: FloatOps, params: seq<string>) {
    forall name, clauses, partial, full, first, second ::
      Completes(partial, full)
      && RequiresReports(fl, name, params, clauses, partial, first)
      && RequiresReports(fl, name, params, clauses, full, second)
      ==> Keeps(first, second)
  }

  /** Reports made from partial arguments are final exactly when parameter names are distinct. */
  lemma StableIffDistinct(fl: FloatOps, params: seq<string>)
    ensures StableFor(fl, params) <==> DistinctNames(params)
  {
    hide Reports, Keeps, ArgContext, Completes;
    if DistinctNames(params) {
      forall name, clauses, partial, full, first, second |
        Completes(partial, full)
        && RequiresReports(fl, name, params, clauses, partial, first)
        && RequiresReports(fl, name, params, clauses, full, second)
        ensures Keeps(first, second)
      {
        ContextGrows(params, partial, full);
        ReportStays(fl, true, name, clauses, ArgContext(params, partial), ArgContext(params, full), first, second);
      }
    } else {
      RepeatedNameUnstable(fl, params);
    }
  }

  lemma {:induction false} NextRepeat(params: seq<string>, i: nat, j: nat) returns (k: nat)
    requires i < j < |params| && params[i] == params[j]
    ensures i < k < |params| && params[k] == params[i] && forall m :: i < m < k ==> params[m] != params[i]
    decreases j
  {
    k := j;
    if m :| i < m < j && params[m] == params[i] {
      k := NextRepeat(params, i, m);
    }
  }

  /** With a repeated name, `false` for its first occurrence is reported, and `true` for the next one withdraws it. */
  lemma {:induction false} RepeatedNameUnstable(fl: FloatOps, params: seq<string>)
    requires !DistinctNames(params)
    ensures !StableFor(fl, params)
  {
    hide ArgContext, Reports, Keeps;
    var i, j :| 0 <= i < j < |params| && params[i] == params[j];
    var k := NextRepeat(params, i, j);
    var partial, full := RepeatArgs(params, i, k);
    var x := params[i];
    Withdrawn(fl, x, ArgContext(params, partial), ArgContext(params, full));
    assert RequiresReports(fl, "f", params, [Ident(x)], partial, Reported([Requires("f", 0)]));
    assert RequiresReports(fl, "f", params, [Ident(x)], full, Reported([]));
  }

  // The name's value with the first `k` arguments, and with one more.
  lemma {:induction false} RepeatArgs(params: seq<string>, i: nat, k: nat) returns (partial: seq<ConstValue>,
      full: seq<ConstValue>)
    requires i < k < |params| && params[k] == params[i] && forall m :: i < m < k ==> params[m] != params[i]
    ensures Completes(partial, full)
    ensures var less, more := ArgContext(params, partial), ArgContext(params, full);
            var x := params[i];
            x in less && less[x] == Bool(false) && x in more && more[x] == Bool(true)
  {
    hide ArgContext;
    partial := seq(k, m => if m == i then Bool(false) else Unknown);
    full := partial + [Bool(true)];
    ArgContextAt(params, partial, params[i]);
    ArgContextAt(params, full, params[i]);
    assert partial[i] == Bool(false) && full[k] == Bool(true);
  }

  lemma Withdrawn(fl: FloatOps, x: string, less: Context, more: Context)
    requires x in less && less[x] == Bool(false) && x in more && more[x] == Bool(true)
    ensures Reports(fl, true, "f", [Ident(x)], less, Reported([Requires("f", 0)]))
    ensures Reports(fl, true, "f", [Ident(x)], more, Reported([]))
    ensures !Keeps(Reported([Requires("f", 0)]), Reported([]))
  {
    var clauses := [Ident(x)];
    assert Violated(fl, clauses, less, 0);
    assert Requires("f", 0) == Diagnose(true, "f", 0);
    assert Requires("f", 0) in [Requires("f", 0)];
  }

  /** Postconditions: learning parameters or an unknown result never withdraws a report. */
  lemma EnsuresStays(fl: FloatOps, name: string, clauses: seq<Expr>, less: Context, more: Context,
                     ret: ConstValue, ret': ConstValue, first: Report, second: Report)
    requires Extends(less, more) && (ret == Unknown || ret' == ret)
    requires Reports(fl, false, name, clauses, less["result" := ret], first)
    requires Reports(fl, false, name, clauses, more["result" := ret'], second)
    ensures Keeps(first, second)
  {
    hide Reports, Keeps;
    ReportStays(fl, false, name, clauses, less["result" := ret], more["result" := ret'], first, second);
  }
}
