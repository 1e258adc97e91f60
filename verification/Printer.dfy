// Printing trees with the fewest parentheses the grammar of section 6.5 of C11 allows.

module Printer {
  import opened Precedence
  import opened Syntax
  import opened Tokens

  function Repeat(n: nat): seq<Token> {
    if n == 0 then [] else [OpTok(Mul)] + Repeat(n - 1)
  }

  /** char and int are 0 and 1, and every star adds 2. */
  function PrintType(t: Type): seq<Token> {
    [if t % 2 == 0 then CharKw else IntKw] + Repeat(t / 2)
  }

  function UnToken(op: UnOp): Token {
    match op
    case Not => Bang
    case BitNot => Tilde
    case Plus => OpTok(Add)
    case Neg => OpTok(Sub)
  }

  function StepToken(up: bool): Token { if up then IncTok else DecTok }

  function Print(e: Expr): seq<Token>
    decreases e, 0
  {
    match e
    case Lit(n) => [Num(n)]
    case SizeOf(t) => [SizeofKw, LParen] + PrintType(t) + [RParen]
    case Var(x) => [Id(x)]
    case Call(g, args) => [Id(g), LParen] + PrintArgs(args) + [RParen]
    case Cast(t, e) => [LParen] + PrintType(t) + [RParen] + PrintAt(e, UnaryTier)
    case Deref(e) => [OpTok(Mul)] + PrintAt(e, UnaryTier)
    case AddrOf(e) => [OpTok(And)] + PrintAt(e, UnaryTier)
    case Unary(op, e) => [UnToken(op)] + PrintAt(e, UnaryTier)
    case PreStep(up, e) => [StepToken(up)] + PrintAt(e, UnaryTier)
    case PostStep(up, e) => PrintAt(e, PostfixTier) + [StepToken(up)]
    case Assign(l, r) => PrintAt(l, UnaryTier) + [AssignTok] + PrintAt(r, AssignTier)
    case Cond(c, a, b) => PrintAt(c, LorTier) + [CondTok] + PrintAt(a, AssignTier) + [Colon] + PrintAt(b, CondTier)
    case OrElse(a, b) => PrintAt(a, LorTier) + [LorTok] + PrintAt(b, LanTier)
    case AndAlso(a, b) => PrintAt(a, LanTier) + [LanTok] + PrintAt(b, OrTier)
    case Bin(op, a, b) => PrintAt(a, OpTier(op)) + [OpTok(op)] + PrintAt(b, InnerTier(op))
    case Index(a, i) => PrintAt(a, PostfixTier) + [BrakTok] + PrintAt(i, AssignTier) + [RBrack]
  }

  /** Where the grammar asks for tier t: in parentheses exactly if t is tighter than the expression's own tier. */
  function PrintAt(e: Expr, t: Tier): seq<Token>
    decreases e, 1
  {
    if Tighter(t, TierOf(e)) then [LParen] + Print(e) + [RParen] else Print(e)
  }

  function PrintArgs(args: Args): seq<Token>
    decreases args
  {
    match args
    case NoArgs => []
    case Arg(e, rest) => PrintAt(e, AssignTier) + (if rest.NoArgs? then [] else [Comma] + PrintArgs(rest))
  }

  /** Whether an else directly after s would be taken for one of its own. */
  predicate TakesElse(s: Stmt) {
    match s
    case If(_, _) => true
    case IfElse(_, _, b) => TakesElse(b)
    case While(_, a) => TakesElse(a)
    case _ => false
  }

  function PrintStmt(s: Stmt): seq<Token>
    decreases s
  {
    match s
    case If(c, a) => [IfKw, LParen] + PrintAt(c, AssignTier) + [RParen] + PrintStmt(a)
    case IfElse(c, a, b) =>
      var yes := if TakesElse(a) then [LBrace] + PrintStmt(a) + [RBrace] else PrintStmt(a);
      [IfKw, LParen] + PrintAt(c, AssignTier) + [RParen] + yes + [ElseKw] + PrintStmt(b)
    case While(c, a) => [WhileKw, LParen] + PrintAt(c, AssignTier) + [RParen] + PrintStmt(a)
    case Return(e) => [ReturnKw] + PrintAt(e, AssignTier) + [Semi]
    case ReturnNothing => [ReturnKw, Semi]
    case Block(body) => [LBrace] + PrintStmts(body) + [RBrace]
    case Empty => [Semi]
    case ExprStmt(e) => PrintAt(e, AssignTier) + [Semi]
  }

  function PrintStmts(ss: Stmts): seq<Token>
    decreases ss
  {
    match ss
    case Done => []
    case Then(s, rest) => PrintStmt(s) + PrintStmts(rest)
  }
}
