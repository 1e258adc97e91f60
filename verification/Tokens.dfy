// The token stream the compiler reads, and the numbers its operator tokens are ordered by.

module Tokens {
  import opened Words
  import opened Syntax

  datatype Token =
    | Eof
    | Num(n: int32)
    | Id(x: Name)
    | CharKw | ElseKw | EnumKw | IfKw | IntKw | ReturnKw | SizeofKw | WhileKw
    | LParen | RParen | LBrace | RBrace | RBrack | Comma | Semi | Colon | Bang | Tilde
    | AssignTok | CondTok | LorTok | LanTok
    | OpTok(op: BinOp)
    | IncTok | DecTok | BrakTok

  // Operator tokens are numbered last and in precedence order.
  const ASSIGN := 143
  const COND := 144
  const LOR := 145
  const LAN := 146
  const INC := 163
  const BRAK := 165
  /** Above every operator: the level of what needs no parentheses anywhere. */
  const PRIMARY := 166

  function OpRank(op: BinOp): int {
    match op
    case Or => 147 case Xor => 148 case And => 149
    case Eq => 150 case Ne => 151
    case Lt => 152 case Gt => 153 case Le => 154 case Ge => 155
    case Shl => 156 case Shr => 157
    case Add => 158 case Sub => 159
    case Mul => 160 case Div => 161 case Mod => 162
  }

  /** The token's number; 0 stands for everything below the first operator. */
  function Rank(t: Token): int {
    match t
    case AssignTok => ASSIGN
    case CondTok => COND
    case LorTok => LOR
    case LanTok => LAN
    case OpTok(op) => OpRank(op)
    case IncTok => INC
    case DecTok => 164
    case BrakTok => BRAK
    case _ => 0
  }

  /** The level at which the right operand of a binary operator is compiled. */
  function RightLevel(op: BinOp): int {
    match op
    case Or => OpRank(Xor)
    case Xor => OpRank(And)
    case And => OpRank(Eq)
    case Eq => OpRank(Lt) case Ne => OpRank(Lt)
    case Lt => OpRank(Shl) case Gt => OpRank(Shl) case Le => OpRank(Shl) case Ge => OpRank(Shl)
    case Shl => OpRank(Add) case Shr => OpRank(Add)
    case Add => OpRank(Mul) case Sub => OpRank(Mul)
    case Mul => INC case Div => INC case Mod => INC
  }

  function Peek(toks: seq<Token>): Token {
    if toks == [] then Eof else toks[0]
  }

  /** The stream after one token; the end of the source repeats. */
  function Rest(toks: seq<Token>): seq<Token> {
    if toks == [] then [] else toks[1..]
  }
}
