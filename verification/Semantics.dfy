// What a script means, independently of the code it is compiled to.
//
// Objects live in a flat byte memory: global data and, for every live call, the cells of its parameters and
// locals. Reading a byte that was never written, storing outside an object, running out of stack, a trapping
// division and using the value of a function that returned none are all undefined.

module Semantics {
  import opened Options
  import opened Words
  import opened Vm
  import opened Syntax
  import opened CodeGen

  /** A function: how many parameters and locals it has, its symbols and its body. */
  datatype Fun = Fun(arity: nat, locals: nat, sc: Scope, body: Stmts)

  type Program = map<Name, Fun>

  /** One activation: its symbols, its base address, the stack limit and the bytes that belong to objects. */
  datatype Frame = Frame(sc: Scope, bp: int, lo: int, obj: set<int>)

  /** A value; no value; normal completion of a statement; undefined; out of fuel; `exit` was called. */
  datatype Result =
    | Value(v: int32, mem: Memory)
    | NoValue(mem: Memory)
    | Next(mem: Memory)
    | Undef
    | Timeout
    | Exit(code: int32)
  {
    predicate IsFailure() { !Value? }

    function PropagateFailure(): Result
      requires !Value?
    {
      if Timeout? || Exit? then this else Undef
    }

    function Extract(): (int32, Memory)
      requires Value?
    {
      (v, mem)
    }
  }

  predicate Within(lo: int, a: int, hi: int) { lo <= a < hi }

  function Cells(lo: int, hi: int): set<int> {
    set a | lo <= a < hi && Within(lo, a, hi)
  }

  /** Whether k more words fit on the stack. */
  predicate Room(f: Frame, sp: int, k: int) {
    f.lo <= sp - 4 * k
  }

  predicate Readable(m: Memory, a: int) {
    a in m && a + 1 in m && a + 2 in m && a + 3 in m
  }

  function Load(m: Memory, a: int, isChar: bool): Result {
    if isChar then if a in m then Value(SignExtend(m[a]), m) else Undef
    else if Readable(m, a) then Value(LoadInt(m, a), m) else Undef
  }

  /** The value of an assignment is the value stored, a char being cut to eight bits. */
  function Store(f: Frame, m: Memory, a: int, v: int32, t: Type): Result {
    if t == CHAR then if a in f.obj then Value(ToChar(v), StoreChar(m, a, v)) else Undef
    else if {a, a + 1, a + 2, a + 3} <= f.obj then Value(v, StoreInt(m, a, v)) else Undef
  }

  /** Operators on values; pointers to words step by four, and their difference counts words. */
  function BinMeaning(op: BinOp, ta: Type, tb: Type, l: int32, r: int32): Option<int32> {
    match op
    case Or => Some(Wrap(Bitwise(OR, l, r, 32)))
    case Xor => Some(Wrap(Bitwise(XOR, l, r, 32)))
    case And => Some(Wrap(Bitwise(AND, l, r, 32)))
    case Eq => Some(if l == r then 1 else 0)
    case Ne => Some(if l == r then 0 else 1)
    case Lt => Some(if l < r then 1 else 0)
    case Gt => Some(if r < l then 1 else 0)
    case Le => Some(if r < l then 0 else 1)
    case Ge => Some(if l < r then 0 else 1)
    case Shl => if 0 <= r < 32 then Some(Wrap(l * Pow2(r))) else None
    case Shr => if 0 <= r < 32 then Some(Wrap(l / Pow2(r))) else None
    case Add => Some(Wrap(if ta > PTR then l + 4 * r else l + r))
    case Sub =>
      if ta <= PTR then Some(Wrap(l - r))
      else if ta == tb then Some(Wrap(Quotient(Wrap(l - r), 4)))
      else Some(Wrap(l - 4 * r))
    case Mul => Some(Wrap(l * r))
    case Div => if r == 0 || (l == -0x8000_0000 && r == -1) then None else Some(Wrap(Quotient(l, r)))
    case Mod => if r == 0 || (l == -0x8000_0000 && r == -1) then None else Some(Wrap(Remainder(l, r)))
  }

  function UnMeaning(op: UnOp, v: int): int32 {
    match op
    case Not => Truth(v == 0)
    case BitNot => Wrap(-1 - v)
    case Plus => Wrap(v)
    case Neg => Wrap(-v)
  }

  function Delta(up: bool, t: Type): int {
    if up then Stride(t) else -Stride(t)
  }

  function Eval(p: Program, e: Expr, f: Frame, sp: int, m: Memory, fuel: nat): Result
    decreases fuel, e, 3
  {
    match e
    case Lit(n) => Value(n, m)
    case SizeOf(t) => Value(if t == CHAR then 1 else 4, m)
    case Call(g, args) => EvalCall(p, g, args, f, sp, m, fuel)
    case Cast(_, e) => Eval(p, e, f, sp, m, fuel)
    case AddrOf(e) => Address(p, e, f, sp, m, fuel)
    case Unary(op, e) =>
      if op == Plus || (op == Neg && e.Lit?) || Room(f, sp, 1) then
        var (v, m1) :- Eval(p, e, f, if op == Neg then sp - 4 else sp, m, fuel);
        Value(UnMeaning(op, v), m1)
      else Undef
    case PreStep(up, e) =>
      var t := TypeOf(e, f.sc);
      var (a, m1) :- Address(p, e, f, sp, m, fuel);
      var (v, m2) :- Load(m1, a, ReadsChar(e, f.sc));
      if Room(f, sp, 2) then Store(f, m2, a, Wrap(v + Delta(up, t)), t) else Undef
    case PostStep(up, e) =>
      var t := TypeOf(e, f.sc);
      var (a, m1) :- Address(p, e, f, sp, m, fuel);
      var (v, m2) :- Load(m1, a, ReadsChar(e, f.sc));
      if Room(f, sp, 2) then
        var (w, m3) :- Store(f, m2, a, Wrap(v + Delta(up, t)), t);
        Value(Wrap(w - Delta(up, t)), m3)
      else Undef
    case Assign(l, r) =>
      var (a, m1) :- Address(p, l, f, sp, m, fuel);
      if Room(f, sp, 1) then
        var (v, m2) :- Eval(p, r, f, sp - 4, m1, fuel);
        Store(f, m2, a, v, TypeOf(l, f.sc))
      else Undef
    case Cond(c, a, b) =>
      var (v, m1) :- Eval(p, c, f, sp, m, fuel);
      if v != 0 then Eval(p, a, f, sp, m1, fuel) else Eval(p, b, f, sp, m1, fuel)
    case OrElse(a, b) =>
      var (v, m1) :- Eval(p, a, f, sp, m, fuel);
      if v != 0 then Value(v, m1) else Eval(p, b, f, sp, m1, fuel)
    case AndAlso(a, b) =>
      var (v, m1) :- Eval(p, a, f, sp, m, fuel);
      if v != 0 then Eval(p, b, f, sp, m1, fuel) else Value(v, m1)
    case Bin(op, a, b) =>
      var (l, m1) :- Eval(p, a, f, sp, m, fuel);
      if Room(f, sp, 1) then
        var (r, m2) :- Eval(p, b, f, sp - 4, m1, fuel);
        Combine(op, TypeOf(a, f.sc), TypeOf(b, f.sc), l, r, f, sp, m2)
      else Undef
    case _ =>
      if IsConst(e, f.sc) then Value(Wrap(f.sc.env[e.x].val), m)
      else
        var (a, m1) :- Address(p, e, f, sp, m, fuel);
        Load(m1, a, TypeOf(e, f.sc) == CHAR)
  }

  function Combine(op: BinOp, ta: Type, tb: Type, l: int32, r: int32, f: Frame, sp: int, m: Memory): Result {
    if |BinTail(op, ta, tb)| == 1 || Room(f, sp, 2) then
      match BinMeaning(op, ta, tb, l, r)
      case Some(v) => Value(v, m)
      case None => Undef
    else Undef
  }

  /** The address of a place. */
  function Address(p: Program, e: Expr, f: Frame, sp: int, m: Memory, fuel: nat): Result
    decreases fuel, e, 2
  {
    match e
    case Var(x) =>
      if x !in f.sc.env then Undef
      else if f.sc.env[x].cls.LocClass? then Value(Wrap(f.bp + 4 * (f.sc.off - f.sc.env[x].val)), m)
      else Value(Wrap(f.sc.env[x].val), m)
    case Deref(e) => Eval(p, e, f, sp, m, fuel)
    case Index(a, i) =>
      var (l, m1) :- Eval(p, a, f, sp, m, fuel);
      if Room(f, sp, 1) then
        var (r, m2) :- Eval(p, i, f, sp - 4, m1, fuel);
        Combine(Add, TypeOf(a, f.sc), INT, l, r, f, sp, m2)
      else Undef
    case Cast(_, e) => Address(p, e, f, sp, m, fuel)
    case Unary(_, e) => Address(p, e, f, sp, m, fuel)
    case _ => Undef
  }

  /** Arguments are evaluated left to right, each placed in the next lower cell. */
  function EvalArgs(p: Program, args: Args, f: Frame, sp: int, m: Memory, fuel: nat): Result
    decreases fuel, args, 1
  {
    match args
    case NoArgs => Next(m)
    case Arg(e, rest) =>
      var (v, m1) :- Eval(p, e, f, sp, m, fuel);
      if Room(f, sp, 1) then EvalArgs(p, rest, f, sp - 4, StoreInt(m1, sp - 4, v), fuel) else Undef
  }

  /** Forgets the bytes of the stack area below sp: the callee's frame is gone. */
  function Trim(m: Memory, lo: int, sp: int): Memory {
    map a | a in m && !(lo <= a < sp) :: m[a]
  }

  function Trimmed(r: Result, lo: int, sp: int): Result {
    match r
    case Value(v, m) => Value(v, Trim(m, lo, sp))
    case NoValue(m) => NoValue(Trim(m, lo, sp))
    case _ => r
  }

  function EvalCall(p: Program, g: Name, args: Args, f: Frame, sp: int, m: Memory, fuel: nat): Result
    decreases fuel, args, 2
  {
    var r := EvalArgs(p, args, f, sp, m, fuel);
    if !r.Next? || g !in f.sc.env then (if r.Timeout? || r.Exit? then r else Undef)
    else
      var n := Count(args);
      var top := sp - 4 * n;
      if f.sc.env[g].cls.SysClass? then
        if f.sc.env[g].val == EXIT && n > 0 then Exit(LoadInt(r.mem, top)) else Undef
      else Trimmed(Invoke(p, g, args, f, top, r.mem, fuel), f.lo, sp)
  }

  /** The frame of a callee whose n arguments were just placed above top. */
  function CalleeFrame(fn: Fun, f: Frame, top: int): Frame {
    var bp := top - 8;
    Frame(fn.sc, bp, f.lo, f.obj + Cells(top, top + 4 * fn.arity) + Cells(bp - 4 * fn.locals, bp))
  }

  function Invoke(p: Program, g: Name, args: Args, f: Frame, top: int, m: Memory, fuel: nat): Result
    decreases fuel, args, 0
  {
    if g !in p || p[g].arity != Count(args) || !Room(f, top, 2 + p[g].locals) then Undef
    else if fuel == 0 then Timeout
    else
      var callee := CalleeFrame(p[g], f, top);
      match ExecAll(p, p[g].body, callee, callee.bp - 4 * p[g].locals, m, fuel - 1)
      case Next(m1) => NoValue(m1)
      case r => r
  }

  function Exec(p: Program, s: Stmt, f: Frame, sp: int, m: Memory, fuel: nat): Result
    decreases fuel, s, 5
  {
    match s
    case If(c, a) =>
      var (v, m1) :- Eval(p, c, f, sp, m, fuel);
      if v != 0 then Exec(p, a, f, sp, m1, fuel) else Next(m1)
    case IfElse(c, a, b) =>
      var (v, m1) :- Eval(p, c, f, sp, m, fuel);
      if v != 0 then Exec(p, a, f, sp, m1, fuel) else Exec(p, b, f, sp, m1, fuel)
    case While(c, a) =>
      var (v, m1) :- Eval(p, c, f, sp, m, fuel);
      if v == 0 then Next(m1)
      else
        var r := Exec(p, a, f, sp, m1, fuel);
        if !r.Next? then r
        else if fuel == 0 then Timeout
        else Exec(p, s, f, sp, r.mem, fuel - 1)
    case Return(e) => Eval(p, e, f, sp, m, fuel)
    case ReturnNothing => NoValue(m)
    case Block(body) => ExecAll(p, body, f, sp, m, fuel)
    case Empty => Next(m)
    case ExprStmt(e) =>
      match Eval(p, e, f, sp, m, fuel)
      case Value(_, m1) => Next(m1)
      case NoValue(m1) => Next(m1)
      case r => r
  }

  function ExecAll(p: Program, ss: Stmts, f: Frame, sp: int, m: Memory, fuel: nat): Result
    decreases fuel, ss, 5
  {
    match ss
    case Done => Next(m)
    case Then(s, rest) =>
      var r := Exec(p, s, f, sp, m, fuel);
      if r.Next? then ExecAll(p, rest, f, sp, r.mem, fuel) else r
  }
}
