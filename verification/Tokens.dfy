/** Token kinds, shared by the lexer and the expression parser. */
module Tokens {
  datatype Base = Binary | Octal | Decimal | Hexadecimal

  datatype TokenKind =
    // Keywords
    | Forge | Shape | Scroll | Weave | Ward | Macro | Echo | Branch | Given | Else | Loop | Each | While
    | Break | Next | Give | Let | Raw | Bridge | Flow | Tide | Zone | Dual | Seek | Catch | Draw | Open
    | Hidden | Pkg | Pure | Sole | SelfKw | SelfType | True | False | Nil | As | In | Of | Is | Not | And
    | Or | Comptime | Static | Extern | Type | Alias | Impl | For | Bind
    // Identifiers and literals
    | Ident
    | Int(base: Base) | Float | Str(terminated: bool) | InterpolatedStr(terminated: bool)
    | ByteStr(terminated: bool) | Char(terminated: bool) | Byte(terminated: bool)
    // Punctuation
    | Tilde | Bang | At | Pipe | Bar | DoubleColon | Arrow | FatArrow | DotDot | DotDotEq | Dot | Question
    | QuestionQuestion | Pound | Equal | Plus | Minus | Star | Slash | Percent | Caret | Ampersand
    | AmpersandTilde | Lt | Gt | Le | Ge | EqEq | NotEq
    | OpenParen | CloseParen | OpenBrace | CloseBrace | OpenBracket | CloseBracket | Comma | Semicolon | Colon
    // Special
    | Whitespace | Comment | Unknown | Eof

  // `lo` and `hi` are byte offsets.
  datatype Span = Span(lo: nat, hi: nat, source: nat)

  datatype Token = Token(kind: TokenKind, span: Span)

  /** The keyword that `text` spells, or `Ident`. */
  function WordKind(text: string): (k: TokenKind)
    ensures k != Eof
  {
    match text
    case "forge" => Forge
    case "shape" => Shape
    case "scroll" => Scroll
    case "weave" => Weave
    case "ward" => Ward
    case "macro" => Macro
    case "echo" => Echo
    case "branch" => Branch
    case "given" => Given
    case "else" => Else
    case "loop" => Loop
    case "each" => Each
    case "while" => While
    case "break" => Break
    case "next" => Next
    case "give" => Give
    case "let" => Let
    case "raw" => Raw
    case "bridge" => Bridge
    case "flow" => Flow
    case "tide" => Tide
    case "zone" => Zone
    case "dual" => Dual
    case "seek" => Seek
    case "catch" => Catch
    case "draw" => Draw
    case "open" => Open
    case "hidden" => Hidden
    case "pkg" => Pkg
    case "pure" => Pure
    case "sole" => Sole
    case "self" => SelfKw
    case "Self" => SelfType
    case "true" => True
    case "false" => False
    case "nil" => Nil
    case "as" => As
    case "in" => In
    case "of" => Of
    case "is" => Is
    case "not" => Not
    case "and" => And
    case "or" => Or
    case "comptime" => Comptime
    case "static" => Static
    case "extern" => Extern
    case "type" => Type
    case "alias" => Alias
    case "impl" => Impl
    case "for" => For
    case "bind" => Bind
    case _ => Ident
  }
}
