/**
 The surface syntax tree that the constant evaluator and macro expansion work on.

 Source spans, type syntax and the inside of patterns are carried by neither function: types are names
 here, and a pattern is either one identifier or an opaque other form.
 */
module Ast {
  import opened Common

  const I128_BOUND: int := 0x8000_0000_0000_0000_0000_0000_0000_0000

  type I128 = i: int | -I128_BOUND <= i < I128_BOUND

  // A 64-bit float by its bit pattern; what the operations do is a parameter of the evaluator.
  datatype Float = Float(bits: nat)

  datatype Literal = IntLit(i: I128) | FloatLit(f: Float) | StrLit(s: string) | BoolLit(b: bool) | NilLit

  datatype BinaryOp =
    | Add | Sub | Mul | Div | Rem | Eq | Ne | Lt | Gt | Le | Ge | And | Or
    | BitAnd | BitOr | BitXor | Shl | Shr | Pipeline

  datatype UnaryOp = Neg | Not | BitNot | Deref | RefOf(isMut: bool)

  datatype Pattern = Name(name: string, isMut: bool) | OtherPattern(tag: nat)

  datatype Arg = Arg(name: Option<string>, value: Expr)

  datatype Arm = Arm(pattern: Pattern, guard: Option<Expr>, body: Expr)

  datatype Field = Field(name: string, value: Expr)

  datatype Expr =
    | Literal(lit: Literal)
    | Ident(name: string)
    | Binary(op: BinaryOp, left: Expr, right: Expr)
    | Unary(uop: UnaryOp, inner: Expr)
    | Call(callee: Expr, args: seq<Arg>)
    | Member(base: Expr, member: string)
    | Path(segments: seq<string>)
    | BlockExpr(block: Block)
    | Given(cond: Expr, thenBlock: Block, elseExpr: Option<Expr>)
    | Branch(target: Expr, arms: seq<Arm>)
    | Loop(loopBody: Block)
    | While(cond: Expr, body: Block)
    | Each(v: string, iter: Expr, body: Block)
    | Raw(inner: Expr)
    | Bind(params: seq<string>, lambda: Expr)
    | StructLiteral(path: string, fields: seq<Field>)
    | Return(inner: Expr)
    | Next
    | Break
    | Zone(zone: string, body: Block)
    | Cascade(expr: Expr, context: Option<Expr>)
    | Seek(body: Block, catchVar: Option<string>, catchBody: Option<Block>)
    | Tide(inner: Expr)
    | WitnessNew(witnessed: string)

  datatype Block = Block(stmts: seq<Stmt>, expr: Option<Expr>)

  datatype Stmt =
    | ExprStmt(e: Expr)
    | Let(pat: Pattern, ty: Option<string>, init: Option<Expr>)
    | Assign(target: Expr, value: Expr)
}
