/** What each operator gives on each kind of constant, stated of evaluated expressions. */
module EvalLaws {
  import opened Common
  import opened Ast
  import opened ConstEval

  ghost predicate Gives(fl: FloatOps, e: Expr, ctx: Context, v: ConstValue) {
    Eval(fl, e, ctx) == Done(v)
  }

  function Of(fl: FloatOps, op: BinaryOp, l: Expr, r: Expr, ctx: Context): Outcome {
    Eval(fl, Binary(op, l, r), ctx)
  }

  /** The 128-bit number that differs from `exact` by a multiple of 2 to the 128. */
  ghost predicate Wraps(o: Outcome, exact: int) {
    o.Done? && o.value.Int? && (o.value.i - exact) % 0x1_0000_0000_0000_0000_0000_0000_0000_0000 == 0
  }

  lemma {:induction false} OfInts(fl: FloatOps, op: BinaryOp, l: Expr, r: Expr, ctx: Context, x: I128, y: I128)
    requires Gives(fl, l, ctx, Int(x)) && Gives(fl, r, ctx, Int(y))
    ensures Of(fl, op, l, r, ctx) == IntBinary(op, x, y)
  {
    hide IntBinary;
  }

  // ---- Integers ----

  lemma {:induction false} NegGives(fl: FloatOps, e: Expr, ctx: Context, x: I128)
    requires Gives(fl, e, ctx, Int(x))
    ensures Eval(fl, Unary(Neg, e), ctx) == Done(Int(Wrap(0 - x)))
  {
    hide Wrap;
  }

  lemma {:induction false} WrapGives(exact: int)
    ensures Wraps(Done(Int(Wrap(exact))), exact)
  {
    hide Wrap;
  }

  /** Sums, differences and products wrap around. */
  lemma {:induction false} IntegerRing(fl: FloatOps, l: Expr, r: Expr, ctx: Context, x: I128, y: I128)
    requires Gives(fl, l, ctx, Int(x)) && Gives(fl, r, ctx, Int(y))
    ensures Wraps(Of(fl, Add, l, r, ctx), x + y)
    ensures Wraps(Of(fl, Sub, l, r, ctx), x - y)
    ensures Wraps(Of(fl, Mul, l, r, ctx), x * y)
    ensures Wraps(Eval(fl, Unary(Neg, l), ctx), 0 - x)
  {
    NegGives(fl, l, ctx, x);
    hide Of, Gives, Eval;
    OfInts(fl, Add, l, r, ctx, x, y);
    OfInts(fl, Sub, l, r, ctx, x, y);
    OfInts(fl, Mul, l, r, ctx, x, y);
    hide Wrap, Wraps;
    WrapGives(x + y);
    WrapGives(x - y);
    WrapGives(x * y);
    WrapGives(0 - x);
  }

  /** A wrapped number is the exact one wherever that fits. */
  lemma {:induction false} WrapsExactly(o: Outcome, exact: int)
    requires Wraps(o, exact) && -I128_BOUND <= exact < I128_BOUND
    ensures o == Done(Int(exact))
  {
    var n := 2 * I128_BOUND;
    var d := o.value.i - exact;
    assert d == n * (d / n) && -n < d < n;
    ProductSmall(d / n, n);
  }

  /**
   Division truncates: the quotient and the remainder recompose the dividend, and the remainder is smaller than the
   divisor and has the dividend's sign.  By zero they are unknown, and the host traps on the smallest number by -1.
   */
  lemma {:induction false} IntegerDivision(fl: FloatOps, l: Expr, r: Expr, ctx: Context, x: I128, y: I128)
    requires Gives(fl, l, ctx, Int(x)) && Gives(fl, r, ctx, Int(y))
    ensures var (q, m) := (Of(fl, Div, l, r, ctx), Of(fl, Rem, l, r, ctx));
      if y == 0 then q == Done(Unknown) && m == Done(Unknown)
      else if x == -I128_BOUND && y == -1 then q == Panic && m == Panic
      else q.Done? && q.value.Int? && m.Done? && m.value.Int?
           && x == y * q.value.i + m.value.i
           && (if y < 0 then y < m.value.i < 0 - y else 0 - y < m.value.i < y)
           && (m.value.i == 0 || (m.value.i < 0 <==> x < 0))
  {
    hide Of, Gives, Eval, TruncDiv, TruncRem;
    OfInts(fl, Div, l, r, ctx, x, y);
    OfInts(fl, Rem, l, r, ctx, x, y);
    if y != 0 {
      DivRem(x, y);
    }
  }

  /** Each bit of a result is the operation on those bits of the operands. */
  lemma {:induction false} IntegerBits(fl: FloatOps, l: Expr, r: Expr, ctx: Context, x: I128, y: I128, i: nat)
    requires Gives(fl, l, ctx, Int(x)) && Gives(fl, r, ctx, Int(y))
    ensures var (a, o, e) := (Of(fl, BitAnd, l, r, ctx), Of(fl, BitOr, l, r, ctx), Of(fl, BitXor, l, r, ctx));
      && a.Done? && a.value.Int? && (BitAt(a.value.i, i) == 1 <==> BitAt(x, i) == 1 && BitAt(y, i) == 1)
      && o.Done? && o.value.Int? && (BitAt(o.value.i, i) == 1 <==> BitAt(x, i) == 1 || BitAt(y, i) == 1)
      && e.Done? && e.value.Int? && (BitAt(e.value.i, i) == 1 <==> BitAt(x, i) != BitAt(y, i))
  {
    hide Of, Gives, Eval, Bitwise, BitAt, Pow2;
    Pow127();
    OfInts(fl, BitAnd, l, r, ctx, x, y);
    OfInts(fl, BitOr, l, r, ctx, x, y);
    OfInts(fl, BitXor, l, r, ctx, x, y);
    BitwiseAt(BitAnd, 127, x, y, i);
    BitwiseAt(BitOr, 127, x, y, i);
    BitwiseAt(BitXor, 127, x, y, i);
  }

  /** Inversion flips every bit, the sign's included. */
  lemma {:induction false} InvertedBits(fl: FloatOps, e: Expr, ctx: Context, x: I128, i: nat)
    requires Gives(fl, e, ctx, Int(x))
    ensures var n := Eval(fl, Unary(BitNot, e), ctx);
      n.Done? && n.value.Int? && (BitAt(n.value.i, i) == 1 <==> BitAt(x, i) == 0)
  {
    NotAt(x, i);
    hide BitAt;
  }

  /** Shifts by less than the width multiply, wrapping, or divide, rounding down; others are unknown. */
  lemma {:induction false} IntegerShifts(fl: FloatOps, l: Expr, r: Expr, ctx: Context, x: I128, y: I128)
    requires Gives(fl, l, ctx, Int(x)) && Gives(fl, r, ctx, Int(y))
    ensures var (up, down) := (Of(fl, Shl, l, r, ctx), Of(fl, Shr, l, r, ctx));
      if 0 <= y < 128 then
        && Wraps(up, x * Pow2(y))
        && down.Done? && down.value.Int? && 0 <= x - down.value.i * Pow2(y) < Pow2(y)
      else up == Done(Unknown) && down == Done(Unknown)
  {
    hide Of, Gives, Eval, Pow2, Wrap;
    OfInts(fl, Shl, l, r, ctx, x, y);
    OfInts(fl, Shr, l, r, ctx, x, y);
    if 0 <= y < 128 {
      var p := Pow2(y);
      ShiftFits(x, p);
      assert x == p * (x / p) + x % p;
    }
  }

  lemma {:induction false} IntegerOrder(fl: FloatOps, l: Expr, r: Expr, ctx: Context, x: I128, y: I128)
    requires Gives(fl, l, ctx, Int(x)) && Gives(fl, r, ctx, Int(y))
    ensures Of(fl, Eq, l, r, ctx) == Done(Bool(x == y)) && Of(fl, Ne, l, r, ctx) == Done(Bool(x != y))
    ensures Of(fl, Lt, l, r, ctx) == Done(Bool(x < y)) && Of(fl, Le, l, r, ctx) == Done(Bool(x <= y))
    ensures Of(fl, Gt, l, r, ctx) == Done(Bool(x > y)) && Of(fl, Ge, l, r, ctx) == Done(Bool(x >= y))
    ensures Of(fl, And, l, r, ctx) == Of(fl, Or, l, r, ctx) == Of(fl, Pipeline, l, r, ctx) == Done(Unknown)
  {
    hide Of, Gives, Eval;
    OfInts(fl, Eq, l, r, ctx, x, y);
    OfInts(fl, Ne, l, r, ctx, x, y);
    OfInts(fl, Lt, l, r, ctx, x, y);
    OfInts(fl, Le, l, r, ctx, x, y);
    OfInts(fl, Gt, l, r, ctx, x, y);
    OfInts(fl, Ge, l, r, ctx, x, y);
    OfInts(fl, And, l, r, ctx, x, y);
    OfInts(fl, Or, l, r, ctx, x, y);
    OfInts(fl, Pipeline, l, r, ctx, x, y);
  }

  // ---- The other kinds ----

  lemma {:induction false} Truths(fl: FloatOps, l: Expr, r: Expr, ctx: Context, a: bool, b: bool, op: BinaryOp)
    requires Gives(fl, l, ctx, Bool(a)) && Gives(fl, r, ctx, Bool(b))
    ensures Of(fl, op, l, r, ctx) == Done(
              match op
              case And => Bool(a && b)
              case Or => Bool(a || b)
              case Eq => Bool(a == b)
              case Ne => Bool(a != b)
              case _ => Unknown)
    ensures Eval(fl, Unary(Not, l), ctx) == Done(Bool(!a))
  {
  }

  lemma {:induction false} Texts(fl: FloatOps, l: Expr, r: Expr, ctx: Context, a: string, b: string, op: BinaryOp)
    requires Gives(fl, l, ctx, Str(a)) && Gives(fl, r, ctx, Str(b))
    ensures Of(fl, op, l, r, ctx) == Done(
              match op
              case Add => Str(a + b)
              case Eq => Bool(a == b)
              case Ne => Bool(a != b)
              case _ => Unknown)
  {
  }

  lemma {:induction false} Nils(fl: FloatOps, l: Expr, r: Expr, ctx: Context, op: BinaryOp)
    requires Gives(fl, l, ctx, Nil) && Gives(fl, r, ctx, Nil)
    ensures Of(fl, op, l, r, ctx) == Done(match op case Eq => Bool(true) case Ne => Bool(false) case _ => Unknown)
  {
  }

  lemma {:induction false} Floats(fl: FloatOps, l: Expr, r: Expr, ctx: Context, x: Float, y: Float, op: BinaryOp)
    requires Gives(fl, l, ctx, FloatVal(x)) && Gives(fl, r, ctx, FloatVal(y))
    ensures Of(fl, op, l, r, ctx) == Done(
              match op
              case Add => FloatVal(fl.add(x, y))
              case Sub => FloatVal(fl.sub(x, y))
              case Mul => FloatVal(fl.mul(x, y))
              case Div => if fl.eq(y, fl.zero) then Unknown else FloatVal(fl.div(x, y))
              case Eq => Bool(fl.eq(x, y))
              case Ne => Bool(!fl.eq(x, y))
              case Lt => Bool(fl.lt(x, y))
              case Le => Bool(fl.le(x, y))
              case Gt => Bool(fl.lt(y, x))
              case Ge => Bool(fl.le(y, x))
              case _ => Unknown)
    ensures Eval(fl, Unary(Neg, l), ctx) == Done(FloatVal(fl.neg(x)))
  {
  }

  predicate SameKind(v: ConstValue, w: ConstValue) {
    || (v.Int? && w.Int?) || (v.FloatVal? && w.FloatVal?) || (v.Bool? && w.Bool?)
    || (v.Str? && w.Str?) || (v.Nil? && w.Nil?)
  }

  /** Operands of different kinds, or unknown ones, give nothing: not even `and` and `or` look at one alone. */
  lemma {:induction false} MixedKinds(fl: FloatOps, l: Expr, r: Expr, ctx: Context, v: ConstValue, w: ConstValue,
      op: BinaryOp)
    requires Gives(fl, l, ctx, v) && Gives(fl, r, ctx, w) && !SameKind(v, w)
    ensures Of(fl, op, l, r, ctx) == Done(Unknown)
  {
  }

  /** A unary operator is known of the kinds it is meant for only. */
  lemma {:induction false} OtherUnary(fl: FloatOps, e: Expr, ctx: Context, v: ConstValue, op: UnaryOp)
    requires Gives(fl, e, ctx, v)
    requires !(op.Neg? && (v.Int? || v.FloatVal?)) && !(op.BitNot? && v.Int?) && !(op.Not? && v.Bool?)
    ensures Eval(fl, Unary(op, e), ctx) == Done(Unknown)
  {
  }

  /** A trap in either operand is one of the whole. */
  lemma {:induction false} TrapsSpread(fl: FloatOps, l: Expr, r: Expr, ctx: Context, op: BinaryOp, u: UnaryOp)
    requires Eval(fl, l, ctx) == Panic || Eval(fl, r, ctx) == Panic
    ensures Of(fl, op, l, r, ctx) == Panic
    ensures Eval(fl, l, ctx) == Panic ==> Eval(fl, Unary(u, l), ctx) == Panic
  {
  }

  // ---- Forms ----

  /** Literals are known, names as far as the context knows them. */
  lemma {:induction false} KnownLeaves(fl: FloatOps, ctx: Context, i: I128, f: Float, b: bool, t: string, x: string)
    ensures Gives(fl, Literal(IntLit(i)), ctx, Int(i)) && Gives(fl, Literal(FloatLit(f)), ctx, FloatVal(f))
    ensures Gives(fl, Literal(BoolLit(b)), ctx, Bool(b)) && Gives(fl, Literal(StrLit(t)), ctx, Str(t))
    ensures Gives(fl, Literal(NilLit), ctx, Nil)
    ensures Gives(fl, Expr.Ident(x), ctx, if x in ctx then ctx[x] else Unknown)
  {
  }

  /** A given takes the branch its condition says, is nil where that branch is missing, and needs a truth value. */
  lemma {:induction false} GivenBranches(fl: FloatOps, e: Expr, ctx: Context)
    requires e.Given?
    ensures var o := Eval(fl, e, ctx);
      if Gives(fl, e.cond, ctx, Bool(true)) then o == Eval(fl, BlockExpr(e.thenBlock), ctx)
      else if Gives(fl, e.cond, ctx, Bool(false)) then
        o == if e.elseExpr.Some? then Eval(fl, e.elseExpr.value, ctx) else Done(Nil)
      else o == if Eval(fl, e.cond, ctx) == Panic then Panic else Done(Unknown)
  {
  }

  /** Every other form is unknown. */
  lemma {:induction false} OtherForms(fl: FloatOps, e: Expr, ctx: Context)
    requires !e.Literal? && !e.Ident? && !e.BlockExpr? && !e.Given? && !e.Binary? && !e.Unary?
    ensures Gives(fl, e, ctx, Unknown)
  {
  }

  function First(st: Stmt, rest: seq<Stmt>, tail: Option<Expr>): Expr {
    BlockExpr(Block([st] + rest, tail))
  }

  /** A `let` puts its value under its name for what follows. */
  lemma {:induction false} LetThen(fl: FloatOps, x: string, isMut: bool, ty: Option<string>, e: Expr, rest: seq<Stmt>,
      tail: Option<Expr>, ctx: Context, v: ConstValue)
    requires Gives(fl, e, ctx, v)
    ensures Eval(fl, First(Let(Name(x, isMut), ty, Some(e)), rest, tail), ctx) ==
              if v.Unknown? then Done(Unknown) else Eval(fl, BlockExpr(Block(rest, tail)), ctx[x := v])
  {
    hide Eval;
    FirstStep(fl, Let(Name(x, isMut), ty, Some(e)), rest, tail, ctx);
  }

  /** An assignment does so only for a name that has a value. */
  lemma {:induction false} AssignThen(fl: FloatOps, x: string, e: Expr, rest: seq<Stmt>, tail: Option<Expr>,
      ctx: Context, v: ConstValue)
    requires Gives(fl, e, ctx, v)
    ensures Eval(fl, First(Assign(Expr.Ident(x), e), rest, tail), ctx) ==
              if v.Unknown? || x !in ctx then Done(Unknown) else Eval(fl, BlockExpr(Block(rest, tail)), ctx[x := v])
  {
    hide Eval;
    FirstStep(fl, Assign(Expr.Ident(x), e), rest, tail, ctx);
  }

  /** An expression is only there to be known; without statements the block is worth its last expression, or nil. */
  lemma {:induction false} ExprThen(fl: FloatOps, e: Expr, rest: seq<Stmt>, tail: Option<Expr>, ctx: Context,
      v: ConstValue)
    requires Gives(fl, e, ctx, v)
    ensures Eval(fl, First(ExprStmt(e), rest, tail), ctx) ==
              if v.Unknown? then Done(Unknown) else Eval(fl, BlockExpr(Block(rest, tail)), ctx)
    ensures Eval(fl, BlockExpr(Block([], tail)), ctx) == if tail.Some? then Eval(fl, tail.value, ctx) else Done(Nil)
  {
    FirstStep(fl, ExprStmt(e), rest, tail, ctx);
  }

  lemma {:induction false} Shifted(fl: FloatOps, b: Block, c: Block, i: nat, ctx: Context)
    requires |b.stmts| == |c.stmts| + 1 && b.stmts[1..] == c.stmts && b.expr == c.expr && i <= |c.stmts|
    ensures EvalFrom(fl, b, i + 1, ctx) == EvalFrom(fl, c, i, ctx)
    decreases |c.stmts| - i
  {
    hide Eval, EvalStmt;
    if i < |c.stmts| {
      assert b.stmts[i + 1] == b.stmts[1..][i];
      var step := EvalStmt(fl, c.stmts[i], ctx);
      if step.Go? {
        Shifted(fl, b, c, i + 1, step.scoped);
      }
    }
  }

  lemma {:induction false} FirstStep(fl: FloatOps, st: Stmt, rest: seq<Stmt>, tail: Option<Expr>, ctx: Context)
    ensures Eval(fl, First(st, rest, tail), ctx) ==
              match EvalStmt(fl, st, ctx)
              case Go(next) => Eval(fl, BlockExpr(Block(rest, tail)), next)
              case Stop(o) => o
  {
    hide EvalStmt;
    var b := Block([st] + rest, tail);
    assert b.stmts[0] == st;
    match EvalStmt(fl, st, ctx)
    case Go(next) =>
      assert EvalFrom(fl, b, 0, ctx) == EvalFrom(fl, b, 1, next);
      Shifted(fl, b, Block(rest, tail), 0, next);
    case Stop(o) => assert EvalFrom(fl, b, 0, ctx) == o;
  }
}
