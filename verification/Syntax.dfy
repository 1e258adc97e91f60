// Script syntax: types, symbols, expression and statement trees, and how the compiler types them.

module Syntax {
  import opened Words

  type Name = string

  // Types are numbers: a base type plus PTR for every level of indirection.
  const CHAR := 0
  const INT := 1
  const PTR := 2

  type Type = nat

  datatype Class = NumClass | FunClass | SysClass | GloClass | LocClass

  /** A symbol table entry: class, type and value (constant, code address, opcode, data address or frame slot). */
  datatype Symbol = Symbol(cls: Class, ty: Type, val: int)

  type Env = map<Name, Symbol>

  /** What an expression is compiled against: the symbols and the frame offset of the current function. */
  datatype Scope = Scope(env: Env, off: int)

  datatype BinOp = Or | Xor | And | Eq | Ne | Lt | Gt | Le | Ge | Shl | Shr | Add | Sub | Mul | Div | Mod

  datatype UnOp = Not | BitNot | Plus | Neg

  datatype Expr =
    | Lit(n: int32)
    | SizeOf(of: Type)
    | Var(x: Name)
    | Call(g: Name, args: Args)
    | Cast(to: Type, e: Expr)
    | Deref(e: Expr)
    | AddrOf(e: Expr)
    | Unary(uop: UnOp, e: Expr)
    | PreStep(up: bool, e: Expr)
    | PostStep(up: bool, e: Expr)
    | Assign(l: Expr, r: Expr)
    | Cond(c: Expr, a: Expr, b: Expr)
    | OrElse(a: Expr, b: Expr)
    | AndAlso(a: Expr, b: Expr)
    | Bin(bop: BinOp, a: Expr, b: Expr)
    | Index(a: Expr, i: Expr)

  datatype Args = NoArgs | Arg(e: Expr, rest: Args)

  datatype Stmt =
    | If(c: Expr, a: Stmt)
    | IfElse(c: Expr, a: Stmt, b: Stmt)
    | While(c: Expr, a: Stmt)
    | Return(e: Expr)
    | ReturnNothing
    | Block(body: Stmts)
    | Empty
    | ExprStmt(e: Expr)

  datatype Stmts = Done | Then(s: Stmt, rest: Stmts)

  function Count(args: Args): nat {
    match args
    case NoArgs => 0
    case Arg(_, rest) => 1 + Count(rest)
  }

  /** The size by which a pointer of type t steps, and the size of what it points to. */
  function Stride(t: Type): int { if t > PTR then 4 else 1 }

  /** The type the compiler leaves in currentExprType after expression e. */
  function TypeOf(e: Expr, sc: Scope): Type {
    match e
    case Lit(_) => INT
    case SizeOf(_) => INT
    case Var(x) => if x in sc.env && !sc.env[x].cls.NumClass? then sc.env[x].ty else INT
    case Call(g, _) => if g in sc.env then sc.env[g].ty else INT
    case Cast(t, _) => t
    case Deref(e) => if TypeOf(e, sc) >= PTR then TypeOf(e, sc) - PTR else INT
    case AddrOf(e) => TypeOf(e, sc) + PTR
    case Unary(_, _) => INT
    case PreStep(_, e) => TypeOf(e, sc)
    case PostStep(_, e) => TypeOf(e, sc)
    case Assign(l, _) => TypeOf(l, sc)
    case Cond(_, _, b) => TypeOf(b, sc)
    case OrElse(_, _) => INT
    case AndAlso(_, _) => INT
    case Bin(op, a, b) => BinType(op, TypeOf(a, sc), TypeOf(b, sc))
    case Index(a, _) => if TypeOf(a, sc) >= PTR then TypeOf(a, sc) - PTR else INT
  }

  function BinType(op: BinOp, ta: Type, tb: Type): Type {
    if op == Add then ta
    else if op == Sub then (if ta > PTR && ta == tb then INT else ta)
    else INT
  }

  /** The expressions that denote a cell of memory; a cast or a unary plus of one still does here. */
  predicate IsPlace(e: Expr, sc: Scope) {
    match e
    case Var(x) => x in sc.env && (sc.env[x].cls.LocClass? || sc.env[x].cls.GloClass?)
    case Deref(_) => true
    case Index(_, _) => true
    case Cast(_, e) => IsPlace(e, sc)
    case Unary(op, e) => op == Plus && IsPlace(e, sc)
    case _ => false
  }

  /** Whether the load that reads place e reads a char (a cast changes the type, not the load). */
  predicate ReadsChar(e: Expr, sc: Scope) {
    match e
    case Cast(_, e) => ReadsChar(e, sc)
    case Unary(_, e) => ReadsChar(e, sc)
    case _ => TypeOf(e, sc) == CHAR
  }

  predicate WellTyped(e: Expr, sc: Scope) {
    match e
    case Lit(_) => true
    case SizeOf(_) => true
    case Var(x) => x in sc.env && !sc.env[x].cls.FunClass? && !sc.env[x].cls.SysClass?
    case Call(g, args) => g in sc.env && (sc.env[g].cls.FunClass? || sc.env[g].cls.SysClass?) && ArgsTyped(args, sc)
    case Cast(_, e) => WellTyped(e, sc)
    case Deref(e) => WellTyped(e, sc) && TypeOf(e, sc) > INT
    case AddrOf(e) => WellTyped(e, sc) && IsPlace(e, sc)
    case Unary(_, e) => WellTyped(e, sc)
    case PreStep(_, e) => WellTyped(e, sc) && IsPlace(e, sc)
    case PostStep(_, e) => WellTyped(e, sc) && IsPlace(e, sc)
    case Assign(l, r) => WellTyped(l, sc) && IsPlace(l, sc) && WellTyped(r, sc)
    case Cond(c, a, b) => WellTyped(c, sc) && WellTyped(a, sc) && WellTyped(b, sc)
    case OrElse(a, b) => WellTyped(a, sc) && WellTyped(b, sc)
    case AndAlso(a, b) => WellTyped(a, sc) && WellTyped(b, sc)
    case Bin(_, a, b) => WellTyped(a, sc) && WellTyped(b, sc)
    case Index(a, i) => WellTyped(a, sc) && WellTyped(i, sc) && TypeOf(a, sc) >= PTR
  }

  predicate ArgsTyped(args: Args, sc: Scope) {
    match args
    case NoArgs => true
    case Arg(e, rest) => WellTyped(e, sc) && ArgsTyped(rest, sc)
  }

  predicate StmtTyped(s: Stmt, sc: Scope) {
    match s
    case If(c, a) => WellTyped(c, sc) && StmtTyped(a, sc)
    case IfElse(c, a, b) => WellTyped(c, sc) && StmtTyped(a, sc) && StmtTyped(b, sc)
    case While(c, a) => WellTyped(c, sc) && StmtTyped(a, sc)
    case Return(e) => WellTyped(e, sc)
    case ReturnNothing => true
    case Block(body) => StmtsTyped(body, sc)
    case Empty => true
    case ExprStmt(e) => WellTyped(e, sc)
  }

  predicate StmtsTyped(ss: Stmts, sc: Scope) {
    match ss
    case Done => true
    case Then(s, rest) => StmtTyped(s, sc) && StmtsTyped(rest, sc)
  }

  // ----- the types of the parts -----

  lemma CondTyped(e: Expr, sc: Scope)
    requires e.Cond? && WellTyped(e, sc)
    ensures WellTyped(e.c, sc) && WellTyped(e.a, sc) && WellTyped(e.b, sc) && TypeOf(e, sc) == TypeOf(e.b, sc)
  {
  }

  lemma OperandsTyped(e: Expr, sc: Scope)
    requires e.Bin? || e.OrElse? || e.AndAlso?
    ensures WellTyped(e, sc) <==> WellTyped(e.a, sc) && WellTyped(e.b, sc)
  {
  }

  lemma CallTyped(g: Name, args: Args, sc: Scope)
    requires WellTyped(Call(g, args), sc)
    ensures g in sc.env && (sc.env[g].cls.FunClass? || sc.env[g].cls.SysClass?) && ArgsTyped(args, sc)
  {
  }

  lemma IfElseTyped(s: Stmt, sc: Scope)
    requires s.IfElse? && StmtTyped(s, sc)
    ensures WellTyped(s.c, sc) && StmtTyped(s.a, sc) && StmtTyped(s.b, sc)
  {
  }

  lemma WhileTyped(s: Stmt, sc: Scope)
    requires s.While? && StmtTyped(s, sc)
    ensures WellTyped(s.c, sc) && StmtTyped(s.a, sc)
  {
  }
}
