// The code of a tree, defined by recursion on the tree: the reference the one-pass compiler is measured against.

module CodeGen {
  import opened Words
  import opened Vm
  import opened Syntax

  function Opcode(op: BinOp): int {
    match op
    case Or => OR case Xor => XOR case And => AND
    case Eq => EQ case Ne => NE case Lt => LT case Gt => GT case Le => LE case Ge => GE
    case Shl => SHL case Shr => SHR
    case Add => ADD case Sub => SUB case Mul => MUL case Div => DIV case Mod => MOD
  }

  /** What follows the right operand, whose left operand waits on the stack. */
  function BinTail(op: BinOp, ta: Type, tb: Type): seq<int> {
    if op == Add && ta > PTR then [PSH, IMM, 4, MUL, ADD]
    else if op == Sub && ta > PTR && ta == tb then [SUB, PSH, IMM, 4, DIV]
    else if op == Sub && ta > PTR then [PSH, IMM, 4, MUL, SUB]
    else [Opcode(op)]
  }

  function LoadOp(isChar: bool): int { if isChar then LC else LI }

  function StoreOp(t: Type): int { if t == CHAR then SC else SI }

  function StepOp(up: bool): int { if up then ADD else SUB }

  /** The load is turned into a push of the address, then reissued; the stepped value is stored back. */
  function StepTail(up: bool, isChar: bool, t: Type): seq<int> {
    [PSH, LoadOp(isChar), PSH, IMM, Stride(t), StepOp(up), StoreOp(t)]
  }

  function UnaryTail(op: UnOp): seq<int> {
    match op
    case Not => [PSH, IMM, 0, EQ]
    case BitNot => [PSH, IMM, -1, XOR]
    case Plus => []
    case Neg => [MUL]
  }

  /** A minus sign directly before a number is folded into the literal. */
  function Negated(n: int): int32 { Wrap(-n) }

  /** The code of e, placed at word `at`; only jump operands depend on `at`. */
  function Gen(e: Expr, sc: Scope, at: int): seq<int>
    decreases e, 1
  {
    match e
    case Lit(n) => [IMM, n]
    case SizeOf(t) => [IMM, if t == CHAR then 1 else 4]
    case Call(g, args) =>
      var code := GenArgs(args, sc, at);
      code + GenTransfer(g, sc) + (if Count(args) > 0 then [ADJ, Count(args)] else [])
    case AddrOf(e) => GenAddr(e, sc, at)
    case Unary(op, e) =>
      if op == Neg then
        if e.Lit? then [IMM, Negated(e.n)] else [IMM, -1, PSH] + Gen(e, sc, at + 3) + UnaryTail(op)
      else Gen(e, sc, at) + UnaryTail(op)
    case Cast(_, e) => Gen(e, sc, at)
    case PreStep(up, e) => GenAddr(e, sc, at) + StepTail(up, ReadsChar(e, sc), TypeOf(e, sc))
    case PostStep(up, e) =>
      var t := TypeOf(e, sc);
      GenAddr(e, sc, at) + StepTail(up, ReadsChar(e, sc), t) + [PSH, IMM, Stride(t), StepOp(!up)]
    case Assign(l, r) =>
      var addr := GenAddr(l, sc, at) + [PSH];
      addr + Gen(r, sc, at + |addr|) + [StoreOp(TypeOf(l, sc))]
    case Cond(c, a, b) =>
      var test := Gen(c, sc, at);
      var yes := Gen(a, sc, at + |test| + 2);
      var no := at + |test| + 2 + |yes| + 2;
      var other := Gen(b, sc, no);
      test + [BZ, no] + yes + [JMP, no + |other|] + other
    case OrElse(a, b) => GenShort(BNZ, Gen(a, sc, at), b, sc, at)
    case AndAlso(a, b) => GenShort(BZ, Gen(a, sc, at), b, sc, at)
    case Bin(op, a, b) =>
      var left := Gen(a, sc, at) + [PSH];
      left + Gen(b, sc, at + |left|) + BinTail(op, TypeOf(a, sc), TypeOf(b, sc))
    case _ =>
      if IsConst(e, sc) then GenAddr(e, sc, at) else GenAddr(e, sc, at) + [LoadOp(TypeOf(e, sc) == CHAR)]
  }

  /** A name of class Num is an enumeration constant, not a variable. */
  predicate IsConst(e: Expr, sc: Scope) {
    e.Var? && e.x in sc.env && sc.env[e.x].cls.NumClass?
  }

  function GenShort(branch: int, left: seq<int>, b: Expr, sc: Scope, at: int): seq<int>
    decreases b, 2
  {
    var right := Gen(b, sc, at + |left| + 2);
    left + [branch, at + |left| + 2 + |right|] + right
  }

  /** The code that leaves the address of place e in the accumulator. */
  function GenAddr(e: Expr, sc: Scope, at: int): seq<int>
    decreases e, 0
  {
    match e
    case Var(x) =>
      if x !in sc.env then []
      else if sc.env[x].cls.LocClass? then [LEA, sc.off - sc.env[x].val]
      else [IMM, sc.env[x].val]
    case Deref(e) => Gen(e, sc, at)
    case Index(a, i) =>
      var base := Gen(a, sc, at) + [PSH];
      base + Gen(i, sc, at + |base|) + BinTail(Add, TypeOf(a, sc), INT)
    case Cast(_, e) => GenAddr(e, sc, at)
    case Unary(_, e) => GenAddr(e, sc, at)
    case _ => []
  }

  /** Arguments are evaluated left to right, each pushed. */
  function GenArgs(args: Args, sc: Scope, at: int): seq<int> {
    match args
    case NoArgs => []
    case Arg(e, rest) =>
      var first := Gen(e, sc, at) + [PSH];
      first + GenArgs(rest, sc, at + |first|)
  }

  function GenTransfer(g: Name, sc: Scope): seq<int> {
    if g !in sc.env then []
    else if sc.env[g].cls.SysClass? then [sc.env[g].val]
    else [JSR, sc.env[g].val]
  }

  /** A place is its address followed by one load. */
  lemma {:induction false} PlaceCode(e: Expr, sc: Scope, at: int)
    requires IsPlace(e, sc)
    ensures Gen(e, sc, at) == GenAddr(e, sc, at) + [LoadOp(ReadsChar(e, sc))]
    decreases e
  {
    match e
    case Cast(_, d) => PlaceCode(d, sc, at);
    case Unary(_, d) => PlaceCode(d, sc, at);
      assert UnaryTail(Plus) == [];
    case _ =>
  }

  function GenStmt(s: Stmt, sc: Scope, at: int): seq<int> {
    match s
    case If(c, a) =>
      var test := Gen(c, sc, at);
      var yes := GenStmt(a, sc, at + |test| + 2);
      test + [BZ, at + |test| + 2 + |yes|] + yes
    case IfElse(c, a, b) =>
      var test := Gen(c, sc, at);
      var yes := GenStmt(a, sc, at + |test| + 2);
      var no := at + |test| + 2 + |yes| + 2;
      var other := GenStmt(b, sc, no);
      test + [BZ, no] + yes + [JMP, no + |other|] + other
    case While(c, a) =>
      var test := Gen(c, sc, at);
      var body := GenStmt(a, sc, at + |test| + 2);
      test + [BZ, at + |test| + 2 + |body| + 2] + body + [JMP, at]
    case Return(e) => Gen(e, sc, at) + [LEV]
    case ReturnNothing => [LEV]
    case Block(body) => GenStmts(body, sc, at)
    case Empty => []
    case ExprStmt(e) => Gen(e, sc, at)
  }

  function GenStmts(ss: Stmts, sc: Scope, at: int): seq<int> {
    match ss
    case Done => []
    case Then(s, rest) =>
      var first := GenStmt(s, sc, at);
      first + GenStmts(rest, sc, at + |first|)
  }
}
