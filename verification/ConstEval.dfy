/** The compile-time evaluator: 128-bit wrapping arithmetic, cloned scopes, and `Unknown` for what it cannot tell. */
module ConstEval {
  import opened Common
  import opened Ast

  datatype ConstValue = Int(i: I128) | FloatVal(f: Float) | Bool(b: bool) | Str(s: string) | Nil | Unknown

  // `Panic`: the host division traps on the minimum divided by -1.
  datatype Outcome = Done(value: ConstValue) | Panic

  type Context = map<string, ConstValue>

  datatype FloatOps = FloatOps(
    add: (Float, Float) -> Float, sub: (Float, Float) -> Float, mul: (Float, Float) -> Float,
    div: (Float, Float) -> Float, neg: Float -> Float,
    eq: (Float, Float) -> bool, lt: (Float, Float) -> bool, le: (Float, Float) -> bool, zero: Float)

  // ---- Integers ----

  /** Two's-complement wrap-around to 128 bits. */
  function Wrap(i: int): (r: I128)
    ensures (r - i) % (2 * I128_BOUND) == 0
  {
    var m := i % (2 * I128_BOUND);
    WrapIsCongruent(i);
    if m < I128_BOUND then m else m - 2 * I128_BOUND
  }

  lemma WrapIsCongruent(i: int)
    ensures var n := 2 * I128_BOUND; (i % n - i) % n == 0 && (i % n - n - i) % n == 0
  {
    var n := 2 * I128_BOUND;
    MultipleOf(-(i / n), n);
    MultipleOf(-(i / n) - 1, n);
    assert i % n - i == -(i / n) * n;
    assert i % n - n - i == (-(i / n) - 1) * n;
  }

  lemma MultipleOf(q: int, n: int)
    requires n > 0
    ensures (q * n) % n == 0
  {
    var r := (q * n) % n;
    var d := q - (q * n) / n;
    assert d * n == r;
    ProductSmall(d, n);
  }

  lemma ProductSmall(d: int, n: int)
    requires n > 0
    ensures d * n >= n || d == 0 || d * n <= -n
  {
    if d >= 1 {
      assert d * n == n + (d - 1) * n;
    } else if d <= -1 {
      assert d * n == -n + (d + 1) * n;
    }
  }

  function Abs(i: int): (a: int)
    ensures a >= 0
  {
    if i < 0 then -i else i
  }

  // Division rounds toward zero, as the host language does.
  function TruncDiv(l: int, r: int): int
    requires r != 0
  {
    if (l < 0) == (r < 0) then Abs(l) / Abs(r) else -(Abs(l) / Abs(r))
  }

  function TruncRem(l: int, r: int): int
    requires r != 0
  {
    if l < 0 then -(Abs(l) % Abs(r)) else Abs(l) % Abs(r)
  }

  /**
   Quotient and remainder fit together, the remainder takes the sign of the dividend and is smaller than the divisor.
   */
  lemma DivRem(l: int, r: int)
    requires r != 0
    ensures l == r * TruncDiv(l, r) + TruncRem(l, r)
    ensures Abs(TruncRem(l, r)) < Abs(r) && (TruncRem(l, r) == 0 || (TruncRem(l, r) < 0) == (l < 0))
  {
    var q, m := Abs(l) / Abs(r), Abs(l) % Abs(r);
    assert Abs(l) == Abs(r) * q + m;
    if r < 0 {
      assert r * q == -(Abs(r) * q) && r * -q == Abs(r) * q;
    } else {
      assert r * -q == -(Abs(r) * q);
    }
  }

  lemma DivFits(l: I128, r: I128)
    requires r != 0 && !(l == -I128_BOUND && r == -1)
    ensures -I128_BOUND <= TruncDiv(l, r) < I128_BOUND
  {
    var a, d := Abs(l), Abs(r);
    QuotientSmall(a, d);
    if d == 1 {
      assert a / d == a;
    }
  }

  lemma QuotientSmall(a: int, d: int)
    requires a >= 0 && d >= 1
    ensures 0 <= a / d <= a && (d >= 2 && a > 0 ==> a / d < a)
  {
    var q := a / d;
    assert a == d * q + a % d;
    if q < 0 {
      assert d * q <= -d by { assert d * q == -d + d * (q + 1); ProductSign(d, -(q + 1)); }
    } else {
      ProductSign(d - 1, q);
      assert d * q == q + (d - 1) * q;
      if d >= 2 && q > 0 {
        ProductSign(d - 2, q);
        assert (d - 1) * q == q + (d - 2) * q;
      }
    }
  }

  lemma ProductSign(a: int, b: int)
    requires a >= 0 && b >= 0
    ensures a * b >= 0 && a * -b <= 0
  {
  }

  function BitOf(op: BinaryOp, x: int, y: int): int {
    match op
    case BitAnd => if x == 1 && y == 1 then 1 else 0
    case BitOr => if x == 1 || y == 1 then 1 else 0
    case _ => if x != y then 1 else 0
  }

  /** Bit by bit over `n` bits and a sign. */
  function Bitwise(op: BinaryOp, n: nat, a: int, b: int): (r: int)
    ensures -Pow2(n) <= r < Pow2(n)
  {
    if n == 0 then -BitOf(op, if a < 0 then 1 else 0, if b < 0 then 1 else 0)
    else BitOf(op, a % 2, b % 2) + 2 * Bitwise(op, n - 1, a / 2, b / 2)
  }

  /** Bit `i` of a number in two's complement, its sign extended without end. */
  function BitAt(x: int, i: nat): (b: int)
    ensures b == 0 || b == 1
    decreases i
  {
    if i == 0 then x % 2 else BitAt(x / 2, i - 1)
  }

  /** Each bit of the result is the operation on those bits of the operands, the sign's included. */
  lemma {:induction false} BitwiseAt(op: BinaryOp, n: nat, a: int, b: int, i: nat)
    requires -Pow2(n) <= a < Pow2(n) && -Pow2(n) <= b < Pow2(n)
    ensures BitAt(Bitwise(op, n, a, b), i) == BitOf(op, BitAt(a, i), BitAt(b, i))
    decreases n, i
  {
    hide Bitwise, BitAt, BitOf;
    if n == 0 {
      SignBits(op, a, b, i);
    } else if i == 0 {
      LowBit(op, n, a, b);
    } else {
      BitwiseAt(op, n - 1, a / 2, b / 2, i - 1);
      UpperBits(op, n, a, b, i);
    }
  }

  lemma {:induction false} SignBits(op: BinaryOp, a: int, b: int, i: nat)
    requires -1 <= a < 1 && -1 <= b < 1
    ensures BitAt(Bitwise(op, 0, a, b), i) == BitOf(op, BitAt(a, i), BitAt(b, i))
    decreases i
  {
    if i > 0 {
      SignBits(op, a, b, i - 1);
    }
  }

  lemma {:induction false} LowBit(op: BinaryOp, n: nat, a: int, b: int)
    requires n > 0
    ensures BitAt(Bitwise(op, n, a, b), 0) == BitOf(op, BitAt(a, 0), BitAt(b, 0))
  {
  }

  lemma {:induction false} UpperBits(op: BinaryOp, n: nat, a: int, b: int, i: nat)
    requires n > 0 && i > 0
    ensures BitAt(Bitwise(op, n, a, b), i) == BitAt(Bitwise(op, n - 1, a / 2, b / 2), i - 1)
    ensures BitAt(a, i) == BitAt(a / 2, i - 1) && BitAt(b, i) == BitAt(b / 2, i - 1)
  {
    assert Bitwise(op, n, a, b) / 2 == Bitwise(op, n - 1, a / 2, b / 2);
  }

  lemma {:induction false} NotAt(x: int, i: nat)
    ensures BitAt(-1 - x, i) == 1 - BitAt(x, i)
    decreases i
  {
    if i > 0 {
      assert (-1 - x) / 2 == -1 - x / 2;
      NotAt(x / 2, i - 1);
    }
  }

  /** Numbers with the same bits are the same, so the bits say everything about a result. */
  lemma {:induction false} BitsDetermine(n: nat, a: int, b: int)
    requires -Pow2(n) <= a < Pow2(n) && -Pow2(n) <= b < Pow2(n)
    requires forall i: nat :: i <= n ==> BitAt(a, i) == BitAt(b, i)
    ensures a == b
    decreases n
  {
    assert BitAt(a, 0) == BitAt(b, 0);
    if n > 0 {
      forall i: nat | i <= n - 1
        ensures BitAt(a / 2, i) == BitAt(b / 2, i)
      {
        assert BitAt(a, i + 1) == BitAt(b, i + 1);
      }
      BitsDetermine(n - 1, a / 2, b / 2);
    }
  }

  lemma Pow127()
    ensures Pow2(127) == I128_BOUND
  {
    assert Pow2(8) == 0x100;
    PowDoubles(8);
    PowDoubles(16);
    PowDoubles(32);
    PowDoubles(64);
    assert Pow2(128) == 2 * Pow2(127);
  }

  lemma PowDoubles(n: nat)
    ensures Pow2(n + n) == Pow2(n) * Pow2(n)
  {
    PowAdds(n, n);
  }

  lemma {:induction false} PowAdds(m: nat, n: nat)
    ensures Pow2(m + n) == Pow2(m) * Pow2(n)
    decreases m
  {
    if m > 0 {
      PowAdds(m - 1, n);
    }
  }

  lemma ShiftFits(l: I128, p: int)
    requires p > 0
    ensures -I128_BOUND <= l / p < I128_BOUND
  {
    var q := l / p;
    assert l == p * q + l % p;
    if q >= 0 {
      ProductSign(p - 1, q);
      assert p * q == q + (p - 1) * q;
    } else {
      ProductSign(p - 1, -(q + 1));
      assert p * q == q + (p - 1) * q && (p - 1) * q == (p - 1) * (q + 1) - (p - 1);
    }
  }

  function IntBinary(op: BinaryOp, l: I128, r: I128): Outcome {
    match op
    case Add => Done(Int(Wrap(l + r)))
    case Sub => Done(Int(Wrap(l - r)))
    case Mul => Done(Int(Wrap(l * r)))
    case Div =>
      if r == 0 then Done(Unknown)
      else if l == -I128_BOUND && r == -1 then Panic
      else DivFits(l, r); Done(Int(TruncDiv(l, r)))
    case Rem =>
      if r == 0 then Done(Unknown)
      else if l == -I128_BOUND && r == -1 then Panic
      else DivRem(l, r); Done(Int(TruncRem(l, r)))
    case BitAnd => Pow127(); Done(Int(Bitwise(BitAnd, 127, l, r)))
    case BitOr => Pow127(); Done(Int(Bitwise(BitOr, 127, l, r)))
    case BitXor => Pow127(); Done(Int(Bitwise(BitXor, 127, l, r)))
    case Shl => if 0 <= r < 128 then Done(Int(Wrap(l * Pow2(r)))) else Done(Unknown)
    case Shr => if 0 <= r < 128 then ShiftFits(l, Pow2(r)); Done(Int(l / Pow2(r))) else Done(Unknown)
    case Eq => Done(Bool(l == r))
    case Ne => Done(Bool(l != r))
    case Lt => Done(Bool(l < r))
    case Gt => Done(Bool(l > r))
    case Le => Done(Bool(l <= r))
    case Ge => Done(Bool(l >= r))
    case _ => Done(Unknown)
  }

  function FloatBinary(fl: FloatOps, op: BinaryOp, l: Float, r: Float): ConstValue {
    match op
    case Add => FloatVal(fl.add(l, r))
    case Sub => FloatVal(fl.sub(l, r))
    case Mul => FloatVal(fl.mul(l, r))
    case Div => if !fl.eq(r, fl.zero) then FloatVal(fl.div(l, r)) else Unknown
    case Eq => Bool(fl.eq(l, r))
    case Ne => Bool(!fl.eq(l, r))
    case Lt => Bool(fl.lt(l, r))
    case Gt => Bool(fl.lt(r, l))
    case Le => Bool(fl.le(l, r))
    case Ge => Bool(fl.le(r, l))
    case _ => Unknown
  }

  function BoolBinary(op: BinaryOp, l: bool, r: bool): ConstValue {
    match op
    case And => Bool(l && r)
    case Or => Bool(l || r)
    case Eq => Bool(l == r)
    case Ne => Bool(l != r)
    case _ => Unknown
  }

  function StrBinary(op: BinaryOp, l: string, r: string): ConstValue {
    match op
    case Add => Str(l + r)
    case Eq => Bool(l == r)
    case Ne => Bool(l != r)
    case _ => Unknown
  }

  function NilBinary(op: BinaryOp): ConstValue {
    match op
    case Eq => Bool(true)
    case Ne => Bool(false)
    case _ => Unknown
  }

  /** Both operands are always evaluated: `and` and `or` do not short-circuit. */
  function ApplyBinary(fl: FloatOps, op: BinaryOp, l: ConstValue, r: ConstValue): Outcome {
    match (l, r)
    case (Int(x), Int(y)) => IntBinary(op, x, y)
    case (FloatVal(x), FloatVal(y)) => Done(FloatBinary(fl, op, x, y))
    case (Bool(x), Bool(y)) => Done(BoolBinary(op, x, y))
    case (Str(x), Str(y)) => Done(StrBinary(op, x, y))
    case (Nil, Nil) => Done(NilBinary(op))
    case _ => Done(Unknown)
  }

  function ApplyUnary(fl: FloatOps, op: UnaryOp, v: ConstValue): ConstValue {
    match (v, op)
    case (Int(i), Neg) => Int(Wrap(0 - i))
    case (Int(i), BitNot) => Int(-1 - i)
    case (FloatVal(f), Neg) => FloatVal(fl.neg(f))
    case (Bool(b), Not) => Bool(!b)
    case _ => Unknown
  }

  // ---- Expressions and blocks ----

  function LitValue(lit: Literal): ConstValue {
    match lit
    case IntLit(i) => Int(i)
    case FloatLit(f) => FloatVal(f)
    case BoolLit(b) => Bool(b)
    case StrLit(s) => Str(s)
    case NilLit => Nil
  }

  /** `eval_expr`. */
  function Eval(fl: FloatOps, e: Expr, ctx: Context): Outcome
    decreases e
  {
    match e
    case Literal(lit) => Done(LitValue(lit))
    case Ident(name) => Done(if name in ctx then ctx[name] else Unknown)
    case BlockExpr(b) => EvalFrom(fl, b, 0, ctx)
    case Given(cond, thenBlock, elseExpr) => (
      match Eval(fl, cond, ctx)
      case Done(Bool(true)) => EvalFrom(fl, thenBlock, 0, ctx)
      case Done(Bool(false)) => (match elseExpr case Some(x) => Eval(fl, x, ctx) case None => Done(Nil))
      case Panic => Panic
      case _ => Done(Unknown))
    case Binary(op, left, right) => (
      match (Eval(fl, left, ctx), Eval(fl, right, ctx))
      case (Done(l), Done(r)) => ApplyBinary(fl, op, l, r)
      case _ => Panic)
    case Unary(op, inner) => (
      match Eval(fl, inner, ctx)
      case Done(v) => Done(ApplyUnary(fl, op, v))
      case Panic => Panic)
    case _ => Done(Unknown)
  }

  // What one statement does: go on in a new scope, or end the block.
  datatype StmtStep = Go(scoped: Context) | Stop(outcome: Outcome)

  function EvalStmt(fl: FloatOps, s: Stmt, scoped: Context): StmtStep
    decreases s
  {
    match s
    case Let(pat, _, init) => (
      match init
      case None => Stop(Done(Unknown))
      case Some(e) => (
        match Eval(fl, e, scoped)
        case Panic => Stop(Panic)
        case Done(v) => if v == Unknown || !pat.Name? then Stop(Done(Unknown)) else Go(scoped[pat.name := v])))
    case Assign(target, e) => (
      match Eval(fl, e, scoped)
      case Panic => Stop(Panic)
      case Done(v) =>
        if v == Unknown || !target.Ident? || target.name !in scoped then Stop(Done(Unknown))
        else Go(scoped[target.name := v]))
    case ExprStmt(e) => (
      match Eval(fl, e, scoped)
      case Panic => Stop(Panic)
      case Done(v) => if v == Unknown then Stop(Done(Unknown)) else Go(scoped))
  }

  /** The rest of a block from statement `i` on. */
  function EvalFrom(fl: FloatOps, b: Block, i: nat, scoped: Context): Outcome
    requires i <= |b.stmts|
    decreases b, |b.stmts| - i
  {
    if i == |b.stmts| then
      match b.expr
      case Some(e) => Eval(fl, e, scoped)
      case None => Done(Nil)
    else
      match EvalStmt(fl, b.stmts[i], scoped)
      case Go(next) => EvalFrom(fl, b, i + 1, next)
      case Stop(o) => o
  }

  /** `eval_block`: a clone of the context, updated statement by statement, with early returns. */
  method EvalBlock(fl: FloatOps, b: Block, context: Context) returns (o: Outcome)
    ensures o == EvalFrom(fl, b, 0, context)
  {
    hide Eval;
    var scoped := context;
    var i := 0;
    while i < |b.stmts|
      invariant i <= |b.stmts|
      invariant EvalFrom(fl, b, i, scoped) == EvalFrom(fl, b, 0, context)
    {
      match b.stmts[i] {
        case Let(pat, _, init) =>
          if init.None? {
            return Done(Unknown);
          }
          var value := Eval(fl, init.value, scoped);
          if value == Panic || value == Done(Unknown) {
            return value;
          }
          if !pat.Name? {
            return Done(Unknown);
          }
          scoped := scoped[pat.name := value.value];
        case Assign(target, e) =>
          var value := Eval(fl, e, scoped);
          if value == Panic || value == Done(Unknown) {
            return value;
          }
          if !target.Ident? || target.name !in scoped {
            return Done(Unknown);
          }
          scoped := scoped[target.name := value.value];
        case ExprStmt(e) =>
          var value := Eval(fl, e, scoped);
          if value == Panic || value == Done(Unknown) {
            return value;
          }
      }
      i := i + 1;
    }
    if b.expr.Some? {
      o := Eval(fl, b.expr.value, scoped);
    } else {
      o := Done(Nil);
    }
  }

  // ---- Knowing more ----

  /** `more` has every binding of `less`, and the same value wherever `less` knows one. */
  ghost predicate Extends(less: Context, more: Context) {
    forall x :: x in less ==> x in more && (less[x] == Unknown || more[x] == less[x])
  }

  lemma ExtendBoth(less: Context, more: Context, x: string, v: ConstValue)
    requires Extends(less, more)
    ensures Extends(less[x := v], more[x := v])
  {
  }

  /** What is known stays known, with the same value: nothing learned later changes an outcome other than `Unknown`. */
  lemma {:induction false} EvalStable(fl: FloatOps, e: Expr, less: Context, more: Context)
    requires Extends(less, more)
    ensures Eval(fl, e, less) == Done(Unknown) || Eval(fl, e, more) == Eval(fl, e, less)
    decreases e
  {
    hide ApplyUnary, FloatBinary, IntBinary, BoolBinary, StrBinary, EvalFrom;
    match e {
      case BlockExpr(b) =>
        BlockStable(fl, b, 0, less, more);
      case Given(cond, thenBlock, elseExpr) =>
        EvalStable(fl, cond, less, more);
        BlockStable(fl, thenBlock, 0, less, more);
        if elseExpr.Some? {
          EvalStable(fl, elseExpr.value, less, more);
        }
      case Binary(op, left, right) =>
        EvalStable(fl, left, less, more);
        EvalStable(fl, right, less, more);
      case Unary(op, inner) =>
        EvalStable(fl, inner, less, more);
        assert ApplyUnary(fl, op, Unknown) == Unknown by {
          UnaryUnknown(fl, op);
        }
      case _ =>
    }
  }

  lemma UnaryUnknown(fl: FloatOps, op: UnaryOp)
    ensures ApplyUnary(fl, op, Unknown) == Unknown
  {
  }

  lemma {:induction false} BlockStable(fl: FloatOps, b: Block, i: nat, less: Context, more: Context)
    requires i <= |b.stmts| && Extends(less, more)
    ensures EvalFrom(fl, b, i, less) == Done(Unknown) || EvalFrom(fl, b, i, more) == EvalFrom(fl, b, i, less)
    decreases b, |b.stmts| - i
  {
    hide Eval, Extends;
    if i == |b.stmts| {
      if b.expr.Some? {
        EvalStable(fl, b.expr.value, less, more);
      }
    } else {
      StmtStable(fl, b.stmts[i], less, more);
      var step := EvalStmt(fl, b.stmts[i], less);
      if step.Go? {
        BlockStable(fl, b, i + 1, step.scoped, EvalStmt(fl, b.stmts[i], more).scoped);
      }
    }
  }

  lemma {:induction false} StmtStable(fl: FloatOps, s: Stmt, less: Context, more: Context)
    requires Extends(less, more)
    ensures match EvalStmt(fl, s, less)
            case Stop(o) => o == Done(Unknown) || EvalStmt(fl, s, more) == Stop(o)
            case Go(next) => EvalStmt(fl, s, more).Go? && Extends(next, EvalStmt(fl, s, more).scoped)
    decreases s
  {
    hide Eval;
    match s {
      case Let(pat, _, init) =>
        if init.Some? {
          EvalStable(fl, init.value, less, more);
          var v := Eval(fl, init.value, less);
          if v.Done? && v.value != Unknown && pat.Name? {
            ExtendBoth(less, more, pat.name, v.value);
          }
        }
      case Assign(target, e) =>
        EvalStable(fl, e, less, more);
        var v := Eval(fl, e, less);
        if v.Done? && v.value != Unknown && target.Ident? && target.name in less {
          ExtendBoth(less, more, target.name, v.value);
        }
      case ExprStmt(e) =>
        EvalStable(fl, e, less, more);
    }
  }
}
