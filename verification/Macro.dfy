/** Macro expansion: substitution of argument expressions for parameter names, and when it means call by value. */
module Macro {
  import opened Common
  import opened Ast
  import opened ConstEval

  type Subst = map<string, Expr>

  // ---- Substitution ----

  function SubstBlock(b: Block, s: Subst): (r: Block)
    ensures |r.stmts| == |b.stmts|
    decreases b
  {
    Block(seq(|b.stmts|, i requires 0 <= i < |b.stmts| => SubstStmt(b.stmts[i], s)),
          match b.expr case Some(e) => Some(SubstExpr(e, s)) case None => None)
  }

  function SubstStmt(st: Stmt, s: Subst): Stmt
    decreases st
  {
    match st
    case ExprStmt(e) => ExprStmt(SubstExpr(e, s))
    case Let(pat, ty, init) => Let(pat, ty, match init case Some(e) => Some(SubstExpr(e, s)) case None => None)
    case Assign(target, e) => Assign(SubstExpr(target, s), SubstExpr(e, s))
  }

  /** Names bound inside `e`, by `let`, `each`, `bind` or `catch`, are not treated specially. */
  function SubstExpr(e: Expr, s: Subst): Expr
    decreases e
  {
    match e
    case Ident(name) => if name in s then s[name] else e
    case Binary(op, l, r) => Binary(op, SubstExpr(l, s), SubstExpr(r, s))
    case Unary(op, x) => Unary(op, SubstExpr(x, s))
    case Call(callee, args) =>
      Call(SubstExpr(callee, s),
           seq(|args|, i requires 0 <= i < |args| => Arg(args[i].name, SubstExpr(args[i].value, s))))
    case Member(base, name) => Member(SubstExpr(base, s), name)
    case BlockExpr(b) => BlockExpr(SubstBlock(b, s))
    case Given(cond, thenBlock, elseExpr) =>
      Given(SubstExpr(cond, s), SubstBlock(thenBlock, s),
            match elseExpr case Some(x) => Some(SubstExpr(x, s)) case None => None)
    case While(cond, body) => While(SubstExpr(cond, s), SubstBlock(body, s))
    case Zone(name, body) => Zone(name, SubstBlock(body, s))
    case Each(v, iter, body) => Each(v, SubstExpr(iter, s), SubstBlock(body, s))
    case Bind(params, body) => Bind(params, SubstExpr(body, s))
    case Branch(target, arms) =>
      Branch(SubstExpr(target, s),
             seq(|arms|, i requires 0 <= i < |arms| =>
               Arm(arms[i].pattern,
                   match arms[i].guard case Some(g) => Some(SubstExpr(g, s)) case None => None,
                   SubstExpr(arms[i].body, s))))
    case Seek(body, catchVar, catchBody) =>
      Seek(SubstBlock(body, s), catchVar, match catchBody case Some(b) => Some(SubstBlock(b, s)) case None => None)
    case Raw(x) => Raw(SubstExpr(x, s))
    case Return(x) => Return(SubstExpr(x, s))
    case StructLiteral(path, fields) =>
      StructLiteral(path,
        seq(|fields|, i requires 0 <= i < |fields| => Field(fields[i].name, SubstExpr(fields[i].value, s))))
    case Cascade(x, context) =>
      Cascade(SubstExpr(x, s), match context case Some(c) => Some(SubstExpr(c, s)) case None => None)
    case Tide(x) => Tide(SubstExpr(x, s))
    case _ => e
  }

  // ---- Names an outcome can depend on, and names a body rebinds ----

  /** The names the evaluator may look up in the context it is given. */
  function Free(e: Expr): set<string>
    decreases e
  {
    match e
    case Ident(name) => {name}
    case BlockExpr(b) => FreeFrom(b, 0)
    case Given(cond, thenBlock, elseExpr) =>
      Free(cond) + FreeFrom(thenBlock, 0) + (match elseExpr case Some(x) => Free(x) case None => {})
    case Binary(_, l, r) => Free(l) + Free(r)
    case Unary(_, x) => Free(x)
    case _ => {}
  }

  function FreeStmt(st: Stmt): set<string>
    decreases st
  {
    match st
    case ExprStmt(e) => Free(e)
    case Let(_, _, init) => (match init case Some(e) => Free(e) case None => {})
    case Assign(target, e) => Free(e) + (if target.Ident? then {target.name} else {})
  }

  function FreeFrom(b: Block, i: nat): set<string>
    requires i <= |b.stmts|
    decreases b, |b.stmts| - i
  {
    if i == |b.stmts| then (match b.expr case Some(e) => Free(e) case None => {})
    else
      var st := b.stmts[i];
      FreeStmt(st) + (FreeFrom(b, i + 1) - (if st.Let? && st.pat.Name? then {st.pat.name} else {}))
  }

  /** The names that some evaluated `let` or assignment inside `e` writes. */
  function Writes(e: Expr): set<string>
    decreases e
  {
    match e
    case BlockExpr(b) => WritesFrom(b, 0)
    case Given(cond, thenBlock, elseExpr) =>
      Writes(cond) + WritesFrom(thenBlock, 0) + (match elseExpr case Some(x) => Writes(x) case None => {})
    case Binary(_, l, r) => Writes(l) + Writes(r)
    case Unary(_, x) => Writes(x)
    case _ => {}
  }

  function WritesStmt(st: Stmt): set<string>
    decreases st
  {
    match st
    case ExprStmt(e) => Writes(e)
    case Let(pat, _, init) =>
      (match init case Some(e) => Writes(e) case None => {}) + (if pat.Name? then {pat.name} else {})
    case Assign(target, e) => Writes(e) + (if target.Ident? then {target.name} else {})
  }

  function WritesFrom(b: Block, i: nat): set<string>
    requires i <= |b.stmts|
    decreases b, |b.stmts| - i
  {
    if i == |b.stmts| then (match b.expr case Some(e) => Writes(e) case None => {})
    else WritesStmt(b.stmts[i]) + WritesFrom(b, i + 1)
  }

  function FreeIn(s: Subst): set<string> {
    set p, x | p in s && x in Free(s[p]) :: x
  }

  // ---- Only free names matter ----

  ghost predicate Agree(c: Context, d: Context, names: set<string>) {
    forall x :: x in names ==> ((x in c <==> x in d) && (x in c ==> c[x] == d[x]))
  }

  // Equal outcomes of the parts give equal outcomes of the whole, for each form the evaluator looks into.

  lemma GivenSame(fl: FloatOps, e: Expr, c: Context, f: Expr, d: Context)
    requires e.Given? && f.Given? && Eval(fl, e.cond, c) == Eval(fl, f.cond, d)
    requires EvalFrom(fl, e.thenBlock, 0, c) == EvalFrom(fl, f.thenBlock, 0, d)
    requires e.elseExpr.Some? <==> f.elseExpr.Some?
    requires e.elseExpr.Some? ==> Eval(fl, e.elseExpr.value, c) == Eval(fl, f.elseExpr.value, d)
    ensures Eval(fl, e, c) == Eval(fl, f, d)
  {
    hide EvalFrom;
  }

  lemma BinarySame(fl: FloatOps, e: Expr, c: Context, f: Expr, d: Context)
    requires e.Binary? && f.Binary? && e.op == f.op
    requires Eval(fl, e.left, c) == Eval(fl, f.left, d) && Eval(fl, e.right, c) == Eval(fl, f.right, d)
    ensures Eval(fl, e, c) == Eval(fl, f, d)
  {
    hide ApplyBinary;
  }

  lemma UnarySame(fl: FloatOps, e: Expr, c: Context, f: Expr, d: Context)
    requires e.Unary? && f.Unary? && e.uop == f.uop && Eval(fl, e.inner, c) == Eval(fl, f.inner, d)
    ensures Eval(fl, e, c) == Eval(fl, f, d)
  {
    hide ApplyUnary;
  }

  lemma BlockSame(fl: FloatOps, e: Expr, c: Context, f: Expr, d: Context)
    requires e.BlockExpr? && f.BlockExpr? && EvalFrom(fl, e.block, 0, c) == EvalFrom(fl, f.block, 0, d)
    ensures Eval(fl, e, c) == Eval(fl, f, d)
  {
    hide EvalFrom;
  }

  predicate Leaf(e: Expr) {
    !e.BlockExpr? && !e.Given? && !e.Binary? && !e.Unary?
  }

  lemma LeafAgrees(fl: FloatOps, e: Expr, c: Context, d: Context)
    requires Leaf(e) && Agree(c, d, Free(e))
    ensures Eval(fl, e, c) == Eval(fl, e, d)
  {
  }

  lemma {:induction false} EvalAgrees(fl: FloatOps, e: Expr, c: Context, d: Context)
    requires Agree(c, d, Free(e))
    ensures Eval(fl, e, c) == Eval(fl, e, d)
    decreases e
  {
    hide Eval, EvalFrom, FreeFrom;
    match e {
      case BlockExpr(b) =>
        BlockAgrees(fl, b, 0, c, d);
        BlockSame(fl, e, c, e, d);
      case Given(cond, thenBlock, elseExpr) =>
        EvalAgrees(fl, cond, c, d);
        BlockAgrees(fl, thenBlock, 0, c, d);
        if elseExpr.Some? {
          EvalAgrees(fl, elseExpr.value, c, d);
        }
        GivenSame(fl, e, c, e, d);
      case Binary(op, left, right) =>
        EvalAgrees(fl, left, c, d);
        EvalAgrees(fl, right, c, d);
        BinarySame(fl, e, c, e, d);
      case Unary(op, x) =>
        EvalAgrees(fl, x, c, d);
        UnarySame(fl, e, c, e, d);
      case _ =>
        LeafAgrees(fl, e, c, d);
    }
  }

  lemma {:induction false} StmtAgrees(fl: FloatOps, st: Stmt, c: Context, d: Context, names: set<string>)
    requires Agree(c, d, FreeStmt(st))
    requires Agree(c, d, names - (if st.Let? && st.pat.Name? then {st.pat.name} else {}))
    ensures match EvalStmt(fl, st, c)
            case Stop(o) => EvalStmt(fl, st, d) == Stop(o)
            case Go(next) => EvalStmt(fl, st, d).Go? && Agree(next, EvalStmt(fl, st, d).scoped, names)
    decreases st
  {
    hide Eval, Free;
    match st {
      case Let(pat, _, init) =>
        if init.Some? {
          EvalAgrees(fl, init.value, c, d);
        }
      case Assign(target, e) =>
        EvalAgrees(fl, e, c, d);
      case ExprStmt(e) =>
        EvalAgrees(fl, e, c, d);
    }
  }

  lemma {:induction false} BlockAgrees(fl: FloatOps, b: Block, i: nat, c: Context, d: Context)
    requires i <= |b.stmts| && Agree(c, d, FreeFrom(b, i))
    ensures EvalFrom(fl, b, i, c) == EvalFrom(fl, b, i, d)
    decreases b, |b.stmts| - i
  {
    hide Eval, EvalStmt, Free, FreeStmt;
    if i == |b.stmts| {
      if b.expr.Some? {
        EvalAgrees(fl, b.expr.value, c, d);
      }
    } else {
      StmtAgrees(fl, b.stmts[i], c, d, FreeFrom(b, i + 1));
      if EvalStmt(fl, b.stmts[i], c).Go? {
        BlockAgrees(fl, b, i + 1, EvalStmt(fl, b.stmts[i], c).scoped, EvalStmt(fl, b.stmts[i], d).scoped);
      }
    }
  }

  // ---- Substituting is evaluating with the arguments' values ----

  /** `d` is `c` with every parameter bound to its argument's value in `c`. */
  ghost predicate BindsArgs(fl: FloatOps, s: Subst, c: Context, d: Context) {
    && (forall p :: p in s ==> p in d && Eval(fl, s[p], c) == Done(d[p]))
    && (forall x :: x !in s ==> ((x in c <==> x in d) && (x in c ==> c[x] == d[x])))
  }

  /** Writing a name that is neither a parameter nor read by an argument keeps the correspondence. */
  lemma BindsKept(fl: FloatOps, s: Subst, c: Context, d: Context, x: string, v: ConstValue)
    requires BindsArgs(fl, s, c, d) && x !in s && x !in FreeIn(s)
    ensures BindsArgs(fl, s, c[x := v], d[x := v])
  {
    forall p | p in s
      ensures Eval(fl, s[p], c[x := v]) == Eval(fl, s[p], c)
    {
      assert x !in Free(s[p]);
      EvalAgrees(fl, s[p], c, c[x := v]);
    }
  }

  lemma LeafMeaning(fl: FloatOps, e: Expr, s: Subst, c: Context, d: Context)
    requires Leaf(e) && BindsArgs(fl, s, c, d)
    ensures Eval(fl, SubstExpr(e, s), c) == Eval(fl, e, d)
  {
  }

  // Substitution keeps the form and goes to the parts.
  lemma SubstParts(e: Expr, s: Subst)
    ensures e.BlockExpr? ==> SubstExpr(e, s) == BlockExpr(SubstBlock(e.block, s))
    ensures e.Binary? ==> SubstExpr(e, s) == Binary(e.op, SubstExpr(e.left, s), SubstExpr(e.right, s))
    ensures e.Unary? ==> SubstExpr(e, s) == Unary(e.uop, SubstExpr(e.inner, s))
    ensures e.Given? ==> SubstExpr(e, s) ==
                         Given(SubstExpr(e.cond, s), SubstBlock(e.thenBlock, s),
                               if e.elseExpr.Some? then Some(SubstExpr(e.elseExpr.value, s)) else None)
  {
    hide SubstBlock;
  }

  /** Capture-free substitution preserves meaning. */
  lemma {:induction false} SubstMeaning(fl: FloatOps, e: Expr, s: Subst, c: Context, d: Context)
    requires BindsArgs(fl, s, c, d)
    requires Writes(e) !! s.Keys && Writes(e) !! FreeIn(s)
    ensures Eval(fl, SubstExpr(e, s), c) == Eval(fl, e, d)
    decreases e
  {
    hide Eval, WritesFrom, SubstBlock, SubstExpr, FreeIn, EvalFrom, BindsArgs;
    var r := SubstExpr(e, s);
    SubstParts(e, s);
    match e {
      case BlockExpr(b) =>
        SubstBlockMeaning(fl, b, 0, s, c, d);
        BlockSame(fl, r, c, e, d);
      case Given(cond, thenBlock, elseExpr) =>
        SubstMeaning(fl, cond, s, c, d);
        SubstBlockMeaning(fl, thenBlock, 0, s, c, d);
        if elseExpr.Some? {
          SubstMeaning(fl, elseExpr.value, s, c, d);
        }
        GivenSame(fl, r, c, e, d);
      case Binary(op, left, right) =>
        SubstMeaning(fl, left, s, c, d);
        SubstMeaning(fl, right, s, c, d);
        BinarySame(fl, r, c, e, d);
      case Unary(op, x) =>
        SubstMeaning(fl, x, s, c, d);
        UnarySame(fl, r, c, e, d);
      case _ =>
        LeafMeaning(fl, e, s, c, d);
    }
  }

  // An assignment target that is not a parameter keeps its form, and exists in both contexts or in neither.
  lemma TargetKept(fl: FloatOps, target: Expr, s: Subst, c: Context, d: Context)
    requires BindsArgs(fl, s, c, d) && (target.Ident? ==> target.name !in s)
    ensures target.Ident? ==> SubstExpr(target, s) == target && (target.name in c <==> target.name in d)
    ensures !target.Ident? ==> !SubstExpr(target, s).Ident?
  {
  }

  lemma {:induction false} SubstStmtMeaning(fl: FloatOps, st: Stmt, s: Subst, c: Context, d: Context)
    requires BindsArgs(fl, s, c, d)
    requires WritesStmt(st) !! s.Keys && WritesStmt(st) !! FreeIn(s)
    ensures match EvalStmt(fl, SubstStmt(st, s), c)
            case Stop(o) => EvalStmt(fl, st, d) == Stop(o)
            case Go(next) => EvalStmt(fl, st, d).Go? && BindsArgs(fl, s, next, EvalStmt(fl, st, d).scoped)
    decreases st
  {
    hide Eval, FreeIn, Writes, BindsArgs, SubstExpr;
    match st {
      case Let(pat, _, init) =>
        if init.Some? {
          SubstMeaning(fl, init.value, s, c, d);
          var v := Eval(fl, init.value, d);
          if v.Done? && pat.Name? {
            BindsKept(fl, s, c, d, pat.name, v.value);
          }
        }
      case Assign(target, e) =>
        SubstMeaning(fl, e, s, c, d);
        TargetKept(fl, target, s, c, d);
        var v := Eval(fl, e, d);
        if v.Done? && target.Ident? {
          BindsKept(fl, s, c, d, target.name, v.value);
        }
      case ExprStmt(e) =>
        SubstMeaning(fl, e, s, c, d);
    }
  }

  lemma {:induction false} SubstBlockMeaning(fl: FloatOps, b: Block, i: nat, s: Subst, c: Context, d: Context)
    requires i <= |b.stmts| && BindsArgs(fl, s, c, d)
    requires WritesFrom(b, i) !! s.Keys && WritesFrom(b, i) !! FreeIn(s)
    ensures EvalFrom(fl, SubstBlock(b, s), i, c) == EvalFrom(fl, b, i, d)
    decreases b, |b.stmts| - i
  {
    hide Eval, EvalStmt, FreeIn, Writes, WritesStmt, SubstStmt, SubstExpr, BindsArgs;
    if i == |b.stmts| {
      if b.expr.Some? {
        SubstMeaning(fl, b.expr.value, s, c, d);
      }
    } else {
      SubstStmtMeaning(fl, b.stmts[i], s, c, d);
      assert SubstBlock(b, s).stmts[i] == SubstStmt(b.stmts[i], s);
      var step := EvalStmt(fl, SubstStmt(b.stmts[i], s), c);
      if step.Go? {
        SubstBlockMeaning(fl, b, i + 1, s, step.scoped, EvalStmt(fl, b.stmts[i], d).scoped);
      }
    }
  }

  // ---- Expansion ----

  datatype MacroParam = MacroParam(name: string, isVariadic: bool)

  datatype MacroDecl = MacroDecl(name: string, params: seq<MacroParam>, body: Block)

  predicate Variadic(m: MacroDecl) {
    exists i :: 0 <= i < |m.params| && m.params[i].isVariadic
  }

  /** Parameter names to arguments; a repeated name keeps its last argument. */
  function ArgMap(params: seq<MacroParam>, args: seq<Expr>): Subst
    requires |params| == |args|
  {
    if params == [] then map[]
    else
      var n := |params| - 1;
      ArgMap(params[..n], args[..n])[params[n].name := args[n]]
  }

  function Expansion(m: MacroDecl, args: seq<Expr>): Expr {
    if Variadic(m) || |m.params| != |args| then Literal(NilLit)
    else BlockExpr(SubstBlock(m.body, ArgMap(m.params, args)))
  }

  /** `expand_macro_call`. */
  method ExpandMacroCall(m: MacroDecl, args: seq<Expr>) returns (e: Expr)
    ensures e == Expansion(m, args)
  {
    var i := 0;
    while i < |m.params|
      invariant i <= |m.params| && forall j :: 0 <= j < i ==> !m.params[j].isVariadic
    {
      if m.params[i].isVariadic {
        return Literal(NilLit);
      }
      i := i + 1;
    }
    if |m.params| != |args| {
      return Literal(NilLit);
    }
    var subst: Subst := map[];
    i := 0;
    while i < |m.params|
      invariant i <= |m.params| && subst == ArgMap(m.params[..i], args[..i])
    {
      assert m.params[..i + 1][..i] == m.params[..i] && args[..i + 1][..i] == args[..i];
      subst := subst[m.params[i].name := args[i]];
      i := i + 1;
    }
    assert m.params[..i] == m.params && args[..i] == args;
    e := BlockExpr(SubstBlock(m.body, subst));
  }

  /** Call by value: arguments evaluated in the caller's context, then bound to the parameters in order. */
  ghost function CallContext(fl: FloatOps, params: seq<MacroParam>, args: seq<Expr>, ctx: Context): Context
    requires |params| == |args|
    requires forall i :: 0 <= i < |args| ==> Eval(fl, args[i], ctx).Done?
  {
    if params == [] then ctx
    else
      var n := |params| - 1;
      CallContext(fl, params[..n], args[..n], ctx)[params[n].name := Eval(fl, args[n], ctx).value]
  }

  lemma {:induction false} CallBinds(fl: FloatOps, params: seq<MacroParam>, args: seq<Expr>, ctx: Context)
    requires |params| == |args|
    requires forall i :: 0 <= i < |args| ==> Eval(fl, args[i], ctx).Done?
    ensures BindsArgs(fl, ArgMap(params, args), ctx, CallContext(fl, params, args, ctx))
    decreases |params|
  {
    hide Eval;
    if params != [] {
      var n := |params| - 1;
      CallBinds(fl, params[..n], args[..n], ctx);
    }
  }

  lemma {:induction false} ArgMapFrom(params: seq<MacroParam>, args: seq<Expr>, p: string)
    requires |params| == |args| && p in ArgMap(params, args)
    ensures exists i :: 0 <= i < |params| && params[i].name == p && ArgMap(params, args)[p] == args[i]
    decreases |params|
  {
    var n := |params| - 1;
    if p != params[n].name {
      ArgMapFrom(params[..n], args[..n], p);
      var i :| 0 <= i < n && params[..n][i].name == p && ArgMap(params[..n], args[..n])[p] == args[..n][i];
      assert params[i].name == p && ArgMap(params, args)[p] == args[i];
    }
  }

  /** No `let` or assignment in the body writes a parameter or a name some argument reads. */
  ghost predicate CaptureFree(m: MacroDecl, args: seq<Expr>) {
    && (forall i :: 0 <= i < |m.params| ==> m.params[i].name !in WritesFrom(m.body, 0))
    && (forall i :: 0 <= i < |args| ==> Free(args[i]) !! WritesFrom(m.body, 0))
  }

  /** Expanding a macro call is calling the macro by value, whenever nothing is captured. */
  lemma ExpansionIsCall(fl: FloatOps, m: MacroDecl, args: seq<Expr>, ctx: Context)
    requires !Variadic(m) && |m.params| == |args| && CaptureFree(m, args)
    requires forall i :: 0 <= i < |args| ==> Eval(fl, args[i], ctx).Done?
    ensures Eval(fl, Expansion(m, args), ctx) == EvalFrom(fl, m.body, 0, CallContext(fl, m.params, args, ctx))
  {
    hide WritesFrom, Free, SubstBlock, BindsArgs, EvalFrom, CallContext;
    var s := ArgMap(m.params, args);
    CallBinds(fl, m.params, args, ctx);
    forall p | p in s
      ensures p !in WritesFrom(m.body, 0) && Free(s[p]) !! WritesFrom(m.body, 0)
    {
      ArgMapFrom(m.params, args, p);
    }
    SubstBlockMeaning(fl, m.body, 0, s, ctx, CallContext(fl, m.params, args, ctx));
  }

  // ---- Without that condition ----

  // macro m(p) { let y = k; p }
  function Capturing(p: string, y: string, k: I128): MacroDecl {
    MacroDecl("m", [MacroParam(p, false)],
      Block([Let(Name(y, false), None, Some(Literal(IntLit(k))))], Some(Ident(p))))
  }

  /**
   A `let` in the body captures: whatever the argument, the expansion evaluates it where `y` is already `k`, a
   call where it is not.  So the two agree if and only if the argument's value does not depend on that.  If the
   `let` binds the parameter itself, a call gives `k`, and the expansion still the argument.
   */
  lemma ExpansionCaptures(fl: FloatOps, p: string, y: string, k: I128, arg: Expr, ctx: Context)
    requires Eval(fl, arg, ctx).Done?
    ensures var m := Capturing(p, y, k);
      && Eval(fl, Expansion(m, [arg]), ctx) == Eval(fl, arg, ctx[y := Int(k)])
      && EvalFrom(fl, m.body, 0, CallContext(fl, m.params, [arg], ctx)) ==
         if p == y then Done(Int(k)) else Eval(fl, arg, ctx)
  {
    var m := Capturing(p, y, k);
    assert ArgMap(m.params[..0], [arg][..0]) == map[];
    var s := ArgMap(m.params, [arg]);
    assert s == map[p := arg];
    var b := SubstBlock(m.body, s);
    CaptureSubst(m.body, p, arg);
    CaptureRuns(fl, b, ctx, y, k);
    assert CallContext(fl, m.params[..0], [arg][..0], ctx) == ctx;
    var d := CallContext(fl, m.params, [arg], ctx);
    assert d == ctx[p := Eval(fl, arg, ctx).value];
    CaptureRuns(fl, m.body, d, y, k);
  }

  lemma CaptureSubst(b: Block, p: string, arg: Expr)
    requires |b.stmts| == 1 && b.stmts[0].Let? && b.stmts[0].init.Some? && b.stmts[0].init.value.Literal?
    requires b.expr == Some(Ident(p))
    ensures SubstBlock(b, map[p := arg]) == Block(b.stmts, Some(arg))
  {
    var s: Subst := map[p := arg];
    assert SubstExpr(b.stmts[0].init.value, s) == b.stmts[0].init.value;
    assert SubstStmt(b.stmts[0], s) == b.stmts[0];
    assert SubstExpr(Ident(p), s) == arg;
    assert SubstBlock(b, s).stmts == b.stmts;
  }

  // The `let` and then the last expression.
  lemma CaptureRuns(fl: FloatOps, b: Block, ctx: Context, y: string, k: I128)
    requires b.stmts == [Let(Name(y, false), None, Some(Literal(IntLit(k))))] && b.expr.Some?
    ensures EvalFrom(fl, b, 0, ctx) == Eval(fl, b.expr.value, ctx[y := Int(k)])
  {
    assert EvalStmt(fl, b.stmts[0], ctx) == Go(ctx[y := Int(k)]);
    assert EvalFrom(fl, b, 1, ctx[y := Int(k)]) == Eval(fl, b.expr.value, ctx[y := Int(k)]);
  }
}
