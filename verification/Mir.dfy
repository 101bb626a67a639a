/**
 The mid-level IR: a mutable control-flow graph of basic blocks.

 Blocks are numbered by their position, as `petgraph` node indices are.  The graph keeps two
 records of control flow that the passes read separately: each block's terminator, and the list
 of edges.  Nothing in the data type forces them to agree.
 */
module Mir {
  import opened Common

  type Local = nat
  type BlockId = nat
  type DefId = nat

  datatype PrimType =
    I8 | I16 | I32 | I64 | I128 | U8 | U16 | U32 | U64 | U128 | F32 | F64 | BoolTy | StrTy
    | Void | NoneTy | Never | ZoneAllocator

  // `Opaque` stands for the constructors of the type checker's `Type` that no modelled branch inspects.
  datatype Type =
    | Prim(prim: PrimType)
    | Adt(def: DefId)
    | Pointer(pointee: Type, isMut: bool)
    | Opaque(tag: nat)
    | Error

  datatype LocalData = LocalData(name: string, ty: Type)

  datatype Constant = IntConst(i: int) | FloatConst(f: real) | BoolConst(b: bool) | StrConst(s: string)

  datatype Operand = Copy(local: Local) | Move(local: Local) | Const(c: Constant)

  datatype BinOp = Add | Sub | Mul | Div | Eq | Ne | Lt | Le | Gt | Ge

  datatype UnOp = Not | Neg

  datatype Rvalue =
    | Use(operand: Operand)
    | Binary(bop: BinOp, left: Operand, right: Operand)
    | Unary(uop: UnOp, arg: Operand)
    | Ref(borrowed: Local, isMut: bool)

  datatype Instruction =
    | Assign(dest: Local, rv: Rvalue)
    | Phi(dest: Local, entries: seq<(BlockId, Local)>)
    | Call(into: Option<Local>, callee: string, args: seq<Operand>)
    | StorageLive(local: Local)
    | StorageDead(local: Local)
    | Assert(cond: Operand, msg: string)
    | ZoneEnter(zone: string)
    | ZoneExit(zone: string)

  predicate IsBorrow(ins: Instruction, x: Local) {
    ins.Assign? && ins.rv.Ref? && ins.rv.borrowed == x
  }

  datatype Terminator =
    | Return(value: Option<Operand>)
    | Goto(target: BlockId)
    | SwitchInt(scrutinee: Operand, cases: seq<(nat, BlockId)>, default: BlockId)
    | Abort

  datatype BasicBlock = BasicBlock(instrs: seq<Instruction>, term: Option<Terminator>)

  datatype EdgeKind = Unconditional | Conditional(taken: bool)

  datatype Edge = Edge(src: BlockId, dst: BlockId, kind: EdgeKind)

  datatype MirBody = MirBody(
    blocks: seq<BasicBlock>, edges: seq<Edge>, entry: BlockId, locals: seq<LocalData>, argCount: nat)

  const EMPTY_BLOCK := BasicBlock([], None)

  /** `MirBody::new`: one empty entry block. */
  const NEW_BODY := MirBody([EMPTY_BLOCK], [], 0, [], 0)

  /** The successors the graph records for `b` (petgraph's `neighbors`). */
  function Successors(edges: seq<Edge>, b: BlockId): set<BlockId> {
    set e | e in edges && e.src == b :: e.dst
  }

  /** The blocks that executing the terminator can lead to. */
  function Targets(term: Option<Terminator>): set<BlockId> {
    match term
    case Some(Goto(t)) => {t}
    case Some(SwitchInt(_, cases, d)) => (set c | c in cases :: c.1) + {d}
    case _ => {}
  }

  // The last block of a path.
  function Last(path: seq<BlockId>): BlockId
    requires path != []
  {
    path[|path| - 1]
  }

  /**
   The graph agrees with the terminators: `b`'s recorded successors are its terminator's targets, all of them blocks,
   and edges are labelled with what takes them.
   */
  ghost predicate Coherent(body: MirBody) {
    && (forall b :: 0 <= b < |body.blocks| ==> CoherentAt(body, b))
    && (forall e :: e in body.edges ==> e.src < |body.blocks| && EdgeFits(body.blocks[e.src].term, e))
  }

  /** A conditional edge is the way of a branch on 1, or if not taken the other way; any other edge is a jump. */
  predicate EdgeFits(term: Option<Terminator>, e: Edge) {
    match e.kind
    case Unconditional => term == Some(Goto(e.dst))
    case Conditional(taken) =>
      && term.Some? && term.value.SwitchInt? && |term.value.cases| == 1 && term.value.cases[0].0 == 1
      && e.dst == if taken then term.value.cases[0].1 else term.value.default
  }

  ghost predicate CoherentAt(body: MirBody, b: BlockId)
    requires b < |body.blocks|
  {
    && Successors(body.edges, b) == Targets(body.blocks[b].term)
    && forall t :: t in Targets(body.blocks[b].term) ==> t < |body.blocks|
  }
}
