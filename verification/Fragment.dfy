/** Syntactic classes of HIR that the theorems about lowering speak of. */
module Fragment {
  import opened Mir
  import opened Hir
  import opened LowerSpec
  import opened HirSemantics

  // ---- Leaving the block ----

  /** After lowering `e` the current block has ended, so nothing may be put behind it. */
  predicate Exits(e: Expr) {
    match e
    case ReturnExpr(_) => true
    case Zone(_, b, _) => BlockExits(b)
    case _ => false
  }

  predicate BlockExits(b: HBlock) {
    match b.tail
    case Some(e) => Exits(e)
    case None => b.stmts != [] && StmtExits(b.stmts[|b.stmts| - 1])
  }

  predicate StmtExits(s: Stmt) {
    s.ExprStmt? && Exits(s.expr)
  }

  // ---- Control flow ----

  /**
   `e` contains no given, while or return that is lowered (conditions of calls are only with `check`): it stays in one
   block.
   */
  predicate Straight(check: bool, e: Expr) {
    match e
    case Lit(_) => true
    case Ident(_, _, _) => true
    case Bin(_, l, r, _) => Straight(check, l) && Straight(check, r)
    case Un(_, x, _) => Straight(check, x)
    case CallExpr(_, args, reqs, _) => StraightAll(check, args) && (check ==> StraightAll(check, reqs))
    case Zone(_, b, _) => StraightBlock(check, b)
    case Given(_, _, _, _) => false
    case While(_, _) => false
    case ReturnExpr(_) => false
  }

  predicate StraightAll(check: bool, es: seq<Expr>) {
    es == [] || (Straight(check, es[0]) && StraightAll(check, es[1..]))
  }

  predicate StraightBlock(check: bool, b: HBlock) {
    StraightStmts(check, b.stmts) && (b.tail.Some? ==> Straight(check, b.tail.value))
  }

  predicate StraightStmts(check: bool, ss: seq<Stmt>) {
    ss == [] || (StraightStmt(check, ss[0]) && StraightStmts(check, ss[1..]))
  }

  predicate StraightStmt(check: bool, s: Stmt) {
    match s
    case Let(_, _, _, init) => init.Some? ==> Straight(check, init.value)
    case AssignStmt(_, e) => Straight(check, e)
    case ExprStmt(e) => Straight(check, e)
  }

  // ---- Shape: nothing follows a return, and while conditions are straight ----

  // `allowTail`: returns of a self call, which lowering turns into a jump, are allowed.  `bent`: so are
  // while conditions that are not straight.  `gives`: with `check`, so are other returns of a value, behind
  // which the `ensures` clauses are lowered.
  datatype Mode = Mode(check: bool, forgeName: string, allowTail: bool, bent: bool, gives: bool)

  predicate Shaped(m: Mode, e: Expr)
    decreases e, 0
  {
    match e
    case Lit(_) => true
    case Ident(_, _, _) => true
    case Bin(_, l, r, _) => ShapedOperand(m, l) && ShapedOperand(m, r)
    case Un(_, x, _) => ShapedOperand(m, x)
    case CallExpr(_, args, reqs, _) => ShapedOperands(m, args) && (m.check ==> ShapedOperands(m, reqs))
    case Given(c, t, el, _) =>
      && ShapedOperand(m, c)
      && ShapedBlock(m, t)
      && (match el case None => true case Some(x) => Shaped(m, x))
    case While(c, b) => ShapedOperand(m, c) && (m.bent || Straight(m.check, c)) && ShapedBlock(m, b)
    case ReturnExpr(None) => true
    case ReturnExpr(Some(x)) =>
      if IsSelfTailCall(m.forgeName, x) then m.allowTail && ShapedOperands(m, x.args)
      else (m.check ==> m.gives) && ShapedOperand(m, x)
    case Zone(_, b, _) => ShapedBlock(m, b)
  }

  predicate ShapedOperand(m: Mode, e: Expr)
    decreases e, 1
  {
    Shaped(m, e) && !Exits(e)
  }

  predicate ShapedOperands(m: Mode, es: seq<Expr>)
    decreases es, 0
  {
    es == [] || (ShapedOperand(m, es[0]) && ShapedOperands(m, es[1..]))
  }

  predicate ShapedBlock(m: Mode, b: HBlock)
    decreases b, 0
  {
    match b.tail
    case None => ShapedStmts(m, b.stmts, true)
    case Some(e) => ShapedStmts(m, b.stmts, false) && Shaped(m, e)
  }

  /** Only the last statement may leave the block, and only if `mayExit`. */
  predicate ShapedStmts(m: Mode, ss: seq<Stmt>, mayExit: bool)
    decreases ss, 0
  {
    ss == [] ||
    (ShapedStmt(m, ss[0]) && (StmtExits(ss[0]) ==> mayExit && |ss| == 1) && ShapedStmts(m, ss[1..], mayExit))
  }

  predicate ShapedStmt(m: Mode, s: Stmt)
    decreases s, 0
  {
    match s
    case Let(_, _, _, None) => true
    case Let(_, _, _, Some(e)) => ShapedOperand(m, e)
    case AssignStmt(_, e) => ShapedOperand(m, e)
    case ExprStmt(e) => Shaped(m, e)
  }

  ghost predicate StmtsExit(ss: seq<Stmt>) {
    ss != [] && StmtExits(ss[|ss| - 1])
  }

  /** Replacing `result` in a well-shaped clause by a well-shaped operand gives a well-shaped operand. */
  lemma {:induction false} SubstShaped(m: Mode, c: Expr, result: Expr)
    requires ShapedOperand(m, c) && ShapedOperand(m, result)
    ensures ShapedOperand(m, SubstResult(c, result))
    decreases c
  {
    match c
    case Bin(_, l, r, _) => SubstShaped(m, l, result); SubstShaped(m, r, result);
    case Un(_, x, _) => SubstShaped(m, x, result);
    case CallExpr(_, args, reqs, _) =>
      SubstShapedAll(m, args, result);
      if m.check {
        SubstShapedAll(m, reqs, result);
      }
    case _ =>
  }

  lemma {:induction false} SubstShapedAll(m: Mode, cs: seq<Expr>, result: Expr)
    requires ShapedOperands(m, cs) && ShapedOperand(m, result)
    ensures ShapedOperands(m, SubstResultAll(cs, result))
    decreases cs
  {
    if cs != [] {
      SubstShaped(m, cs[0], result);
      SubstShapedAll(m, cs[1..], result);
      assert SubstResultAll(cs, result)[1..] == SubstResultAll(cs[1..], result);
    }
  }

  // ---- Code without returns, as all clauses are: only its while conditions matter for its shape ----

  ghost predicate SameWhiles(m: Mode, n: Mode) {
    m.check == n.check && m.bent == n.bent
  }

  lemma {:induction false} ReturnFree(m: Mode, n: Mode, e: Expr)
    requires ReturnNest(e) == 0 && SameWhiles(m, n)
    ensures !Exits(e) && (m.bent ==> Shaped(m, e)) && (Shaped(m, e) <==> Shaped(n, e))
    decreases e
  {
    match e
    case Bin(_, l, r, _) => ReturnFree(m, n, l); ReturnFree(m, n, r);
    case Un(_, x, _) => ReturnFree(m, n, x);
    case CallExpr(_, args, reqs, _) =>
      ReturnFreeAll(m, n, args);
      ReturnFreeAll(m, n, reqs);
    case Given(c, t, el, _) =>
      ReturnFree(m, n, c);
      ReturnFreeBlock(m, n, t);
      if el.Some? {
        ReturnFree(m, n, el.value);
      }
    case While(c, b) =>
      ReturnFree(m, n, c);
      ReturnFreeBlock(m, n, b);
    case Zone(_, b, _) => ReturnFreeBlock(m, n, b);
    case _ =>
  }

  lemma {:induction false} ReturnFreeAll(m: Mode, n: Mode, es: seq<Expr>)
    requires ReturnNestAll(es) == 0 && SameWhiles(m, n)
    ensures (m.bent ==> ShapedOperands(m, es)) && (ShapedOperands(m, es) <==> ShapedOperands(n, es))
    decreases es
  {
    if es != [] {
      ReturnFree(m, n, es[0]);
      ReturnFreeAll(m, n, es[1..]);
    }
  }

  lemma {:induction false} ReturnFreeBlock(m: Mode, n: Mode, b: HBlock)
    requires ReturnNestBlock(b) == 0 && SameWhiles(m, n)
    ensures !BlockExits(b) && (m.bent ==> ShapedBlock(m, b)) && (ShapedBlock(m, b) <==> ShapedBlock(n, b))
    decreases b
  {
    ReturnFreeStmts(m, n, b.stmts, b.tail.None?);
    if b.tail.Some? {
      ReturnFree(m, n, b.tail.value);
    }
  }

  lemma {:induction false} ReturnFreeStmts(m: Mode, n: Mode, ss: seq<Stmt>, mayExit: bool)
    requires ReturnNestStmts(ss) == 0 && SameWhiles(m, n)
    ensures !StmtsExit(ss) && (m.bent ==> ShapedStmts(m, ss, mayExit))
    ensures ShapedStmts(m, ss, mayExit) <==> ShapedStmts(n, ss, mayExit)
    decreases ss
  {
    if ss != [] {
      ReturnFreeStmt(m, n, ss[0]);
      ReturnFreeStmts(m, n, ss[1..], mayExit);
    }
  }

  lemma {:induction false} ReturnFreeStmt(m: Mode, n: Mode, s: Stmt)
    requires ReturnNestStmt(s) == 0 && SameWhiles(m, n)
    ensures !StmtExits(s) && (m.bent ==> ShapedStmt(m, s)) && (ShapedStmt(m, s) <==> ShapedStmt(n, s))
    decreases s
  {
    match s
    case Let(_, _, _, Some(e)) => ReturnFree(m, n, e);
    case Let(_, _, _, None) =>
    case AssignStmt(_, e) => ReturnFree(m, n, e);
    case ExprStmt(e) => ReturnFree(m, n, e);
  }

  // ---- Which variables an expression may write, and which its value still has to read ----

  function Writes(e: Expr): set<DefId> {
    match e
    case Lit(_) => {}
    case Ident(_, _, _) => {}
    case Bin(_, l, r, _) => Writes(l) + Writes(r)
    case Un(_, x, _) => Writes(x)
    case CallExpr(_, args, reqs, _) => WritesAll(args) + WritesAll(reqs)
    case Given(c, t, el, _) => Writes(c) + WritesBlock(t) + (match el case None => {} case Some(x) => Writes(x))
    case While(c, b) => Writes(c) + WritesBlock(b)
    case ReturnExpr(r) => (match r case None => {} case Some(x) => Writes(x))
    case Zone(_, b, _) => WritesBlock(b)
  }

  function WritesAll(es: seq<Expr>): set<DefId> {
    if es == [] then {} else Writes(es[0]) + WritesAll(es[1..])
  }

  function WritesBlock(b: HBlock): set<DefId> {
    WritesStmts(b.stmts) + (match b.tail case None => {} case Some(x) => Writes(x))
  }

  function WritesStmts(ss: seq<Stmt>): set<DefId> {
    if ss == [] then {} else WritesStmt(ss[0]) + WritesStmts(ss[1..])
  }

  function WritesStmt(s: Stmt): set<DefId> {
    match s
    case Let(_, v, _, init) => (match init case None => {} case Some(x) => {v} + Writes(x))
    case AssignStmt(v, e) => {v} + Writes(e)
    case ExprStmt(e) => Writes(e)
  }

  /**
   A variable is lowered to a read of its slot that happens only when the operand is used, so an
   operand that is a variable, or a zone ending in one, is still pending while later operands run.
   */
  function Pending(e: Expr): set<DefId> {
    match e
    case Ident(_, v, _) => {v}
    case Zone(_, b, _) => (match b.tail case None => {} case Some(x) => Pending(x))
    case _ => {}
  }

  function PendingAll(es: seq<Expr>): set<DefId> {
    if es == [] then {} else Pending(es[0]) + PendingAll(es[1..])
  }

  // ---- The fragment that lowering preserves ----

  /** Operators MIR has, on literals and variables. */
  predicate Pure(e: Expr) {
    match e
    case Lit(_) => true
    case Ident(_, _, _) => true
    case Bin(op, l, r, _) => BinCounterpart(op).Some? && Pure(l) && Pure(r)
    case Un(op, x, _) => UnCounterpart(op).Some? && Pure(x)
    case _ => false
  }

  predicate PureAll(es: seq<Expr>) {
    es == [] || (Pure(es[0]) && PureAll(es[1..]))
  }

  predicate MentionsResult(e: Expr) {
    match e
    case Ident(name, _, _) => name == "result"
    case Bin(_, l, r, _) => MentionsResult(l) || MentionsResult(r)
    case Un(_, x, _) => MentionsResult(x)
    case _ => false
  }

  predicate AnyMentionsResult(es: seq<Expr>) {
    es != [] && (MentionsResult(es[0]) || AnyMentionsResult(es[1..]))
  }

  /**
   `used`: the value of `e` is used.  Beside shape, the fragment asks that operators have a MIR
   counterpart, that the value of a given is not used, that no operand writes a variable an earlier
   one still has to read, and that checked clauses are pure and do not repeat a returned call.
   */
  predicate Sound(C: Contracts, e: Expr, used: bool)
    decreases e
  {
    match e
    case Lit(_) => true
    case Ident(_, _, _) => true
    case Bin(op, l, r, _) =>
      BinCounterpart(op).Some? && Sound(C, l, true) && Sound(C, r, true) && Pending(l) !! Writes(r)
    case Un(op, x, _) => UnCounterpart(op).Some? && Sound(C, x, true)
    case CallExpr(_, args, reqs, _) =>
      SoundList(C, args) && (C.check ==> SoundEach(C, reqs) && PendingAll(args) !! WritesAll(reqs))
    case Given(c, t, el, _) =>
      !used && Sound(C, c, true) && SoundBlock(C, t, false)
          && (match el case None => true case Some(x) => Sound(C, x, false))
    case While(c, b) => Sound(C, c, true) && SoundBlock(C, b, false)
    case ReturnExpr(None) => !used
    case ReturnExpr(Some(x)) =>
      !used && Sound(C, x, true) &&
      (C.check ==> PureAll(C.clauses) && (Pure(x) || !AnyMentionsResult(C.clauses)))
    case Zone(_, b, _) => SoundBlock(C, b, used)
  }

  predicate SoundList(C: Contracts, es: seq<Expr>)
    decreases es
  {
    es == [] || (Sound(C, es[0], true) && Pending(es[0]) !! WritesAll(es[1..]) && SoundList(C, es[1..]))
  }

  predicate SoundEach(C: Contracts, es: seq<Expr>)
    decreases es
  {
    es == [] || (Sound(C, es[0], true) && SoundEach(C, es[1..]))
  }

  predicate SoundBlock(C: Contracts, b: HBlock, used: bool)
    decreases b
  {
    SoundStmts(C, b.stmts) && (match b.tail case None => true case Some(e) => Sound(C, e, used))
  }

  predicate SoundStmts(C: Contracts, ss: seq<Stmt>)
    decreases ss
  {
    ss == [] || (SoundStmt(C, ss[0]) && SoundStmts(C, ss[1..]))
  }

  predicate SoundStmt(C: Contracts, s: Stmt)
    decreases s
  {
    match s
    case Let(_, _, _, init) => (match init case None => true case Some(e) => Sound(C, e, true))
    case AssignStmt(_, e) => Sound(C, e, true)
    case ExprStmt(e) => Sound(C, e, false)
  }
}
