/**
 Small-step meaning of MIR.

 Arithmetic is a parameter (any total interpretation of the operators) and a call is an event whose
 answer comes from an oracle that sees every earlier event.
 */
module MirSemantics {
  import opened Common
  import opened Mir

  datatype Value =
    IntVal(i: int) | FloatVal(f: real) | BoolVal(b: bool) | StrVal(s: string) | AddrOf(local: Local) | Undef

  datatype Event = Called(callee: string, args: seq<Value>) | Switched(key: int)

  // What an instruction leaves behind besides events: markers, and the assertions that held.
  datatype Mark =
    Entered(zone: string) | Left(zone: string) | Live(local: Local) | Dead(local: Local) | Checked(msg: string)

  datatype Interp = Interp(
    bin: (BinOp, Value, Value) -> Value,
    un: (UnOp, Value) -> Value,
    answer: (seq<Event>, string, seq<Value>) -> Value)

  type Store = map<Local, Value>

  function Read(store: Store, l: Local): Value {
    if l in store then store[l] else Undef
  }

  function ConstValue(c: Constant): Value {
    match c
    case IntConst(i) => IntVal(i)
    case FloatConst(f) => FloatVal(f)
    case BoolConst(b) => BoolVal(b)
    case StrConst(s) => StrVal(s)
  }

  function OperandValue(store: Store, op: Operand): Value {
    match op
    case Copy(l) => Read(store, l)
    case Move(l) => Read(store, l)
    case Const(c) => ConstValue(c)
  }

  function OperandValues(store: Store, ops: seq<Operand>): (vs: seq<Value>) {
    seq(|ops|, i requires 0 <= i < |ops| => OperandValue(store, ops[i]))
  }

  function RvalueValue(I: Interp, store: Store, rv: Rvalue): Value {
    match rv
    case Use(op) => OperandValue(store, op)
    case Binary(op, l, r) => I.bin(op, OperandValue(store, l), OperandValue(store, r))
    case Unary(op, x) => I.un(op, OperandValue(store, x))
    case Ref(l, _) => AddrOf(l)
  }

  /** The integer a branch or an assertion looks at. */
  function Key(v: Value): int {
    match v
    case IntVal(i) => i
    case BoolVal(b) => if b then 1 else 0
    case _ => 0
  }

  function SwitchTarget(key: int, cases: seq<(nat, BlockId)>, default: BlockId): (t: BlockId)
    ensures t == default || exists c :: c in cases && c.1 == t
  {
    if cases == [] then default
    else if cases[0].0 == key then
      assert cases[0] in cases; cases[0].1
    else
      SwitchTarget(key, cases[1..], default)
  }

  function PhiValue(store: Store, prev: Option<BlockId>, entries: seq<(BlockId, Local)>): Value {
    if entries == [] then Undef
    else if prev == Some(entries[0].0) then Read(store, entries[0].1)
    else PhiValue(store, prev, entries[1..])
  }

  datatype Frame = Frame(
    prev: Option<BlockId>, blk: BlockId, pc: nat, store: Store, trace: seq<Event>, marks: seq<Mark>)

  datatype Status = StillRunning | DidReturn(value: Option<Value>) | DidFail(msg: string) | DidAbort | DidGetStuck

  datatype Observation = Observation(status: Status, trace: seq<Event>, marks: seq<Mark>)

  datatype Config = Running(frame: Frame) | Halted(result: Observation)

  function Halt(f: Frame, status: Status): Config {
    Halted(Observation(status, f.trace, f.marks))
  }

  function Mark1(f: Frame, m: Mark): Config {
    Running(f.(pc := f.pc + 1, marks := f.marks + [m]))
  }

  function ExecInstr(I: Interp, ins: Instruction, f: Frame): Config {
    match ins
    case Assign(d, rv) => Running(f.(pc := f.pc + 1, store := f.store[d := RvalueValue(I, f.store, rv)]))
    case Phi(d, entries) => Running(f.(pc := f.pc + 1, store := f.store[d := PhiValue(f.store, f.prev, entries)]))
    case Call(dest, callee, args) =>
      var vs := OperandValues(f.store, args);
      var store := if dest.Some? then f.store[dest.value := I.answer(f.trace, callee, vs)] else f.store;
      Running(f.(pc := f.pc + 1, store := store, trace := f.trace + [Called(callee, vs)]))
    case StorageLive(l) => Mark1(f, Live(l))
    case StorageDead(l) => Mark1(f, Dead(l))
    case Assert(op, msg) =>
      if Key(OperandValue(f.store, op)) == 0 then Halt(f, DidFail(msg)) else Mark1(f, Checked(msg))
    case ZoneEnter(z) => Mark1(f, Entered(z))
    case ZoneExit(z) => Mark1(f, Left(z))
  }

  function Jump(f: Frame, t: BlockId): Config {
    Running(f.(prev := Some(f.blk), blk := t, pc := 0))
  }

  function OptionalValue(store: Store, op: Option<Operand>): Option<Value> {
    if op.Some? then Some(OperandValue(store, op.value)) else None
  }

  function ExecTerm(term: Option<Terminator>, f: Frame): Config {
    match term
    case None => Halt(f, DidGetStuck)
    case Some(Return(v)) => Halt(f, DidReturn(OptionalValue(f.store, v)))
    case Some(Goto(t)) => Jump(f, t)
    case Some(SwitchInt(op, cases, d)) =>
      var key := Key(OperandValue(f.store, op));
      Jump(f.(trace := f.trace + [Switched(key)]), SwitchTarget(key, cases, d))
    case Some(Abort) => Halt(f, DidAbort)
  }

  /** One step; a configuration that has halted stays as it is. */
  function Step(I: Interp, blocks: seq<BasicBlock>, c: Config): Config {
    match c
    case Halted(_) => c
    case Running(f) =>
      if f.blk >= |blocks| then Halt(f, DidGetStuck)
      else if f.pc < |blocks[f.blk].instrs| then ExecInstr(I, blocks[f.blk].instrs[f.pc], f)
      else ExecTerm(blocks[f.blk].term, f)
  }

  function Steps(I: Interp, blocks: seq<BasicBlock>, c: Config, n: nat): Config
    decreases n
  {
    if n == 0 then c else Steps(I, blocks, Step(I, blocks, c), n - 1)
  }

  lemma {:induction false} OneStep(I: Interp, blocks: seq<BasicBlock>, c: Config)
    ensures Steps(I, blocks, c, 1) == Step(I, blocks, c)
  {
    assert Steps(I, blocks, c, 1) == Steps(I, blocks, Step(I, blocks, c), 0);
  }

  lemma {:induction false} StepsAdd(I: Interp, blocks: seq<BasicBlock>, c: Config, m: nat, n: nat)
    ensures Steps(I, blocks, c, m + n) == Steps(I, blocks, Steps(I, blocks, c, m), n)
    decreases m
  {
    if m > 0 {
      StepsAdd(I, blocks, Step(I, blocks, c), m - 1, n);
    }
  }

  lemma {:induction false} StepsHalted(I: Interp, blocks: seq<BasicBlock>, c: Config, n: nat)
    requires c.Halted?
    ensures Steps(I, blocks, c, n) == c
    decreases n
  {
    if n > 0 {
      StepsHalted(I, blocks, c, n - 1);
    }
  }

  /** A jump goes to one of the terminator's targets. */
  lemma {:induction false} JumpTarget(term: Option<Terminator>, I: Interp, f: Frame)
    ensures var c := ExecTerm(term, f);
      if c.Running? then c.frame.blk in Targets(term) && c.frame.pc == 0 && c.frame.marks == f.marks
      else c.result.marks == f.marks
  {
    match term
    case Some(SwitchInt(op, cases, d)) =>
      var t := SwitchTarget(Key(OperandValue(f.store, op)), cases, d);
      if t != d {
        var k :| k in cases && k.1 == t;
      }
    case _ =>
  }

  function Start(entry: BlockId, store: Store): Config {
    Running(Frame(None, entry, 0, store, [], []))
  }

  // ---- Observations ----

  function Observe(c: Config): Observation {
    match c
    case Running(f) => Observation(StillRunning, f.trace, f.marks)
    case Halted(o) => o
  }

  /** Some prefix of the run from `entry` shows `o`. */
  ghost predicate Shows(I: Interp, body: MirBody, store: Store, o: Observation) {
    exists n: nat :: Observe(Steps(I, body.blocks, Start(body.entry, store), n)) == o
  }
}
