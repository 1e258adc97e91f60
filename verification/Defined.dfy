// Where a script's meaning is defined: expressions without variables and calls, and variables once assigned.

module Defined {
  import opened Options
  import opened Words
  import opened Syntax
  import opened CodeGen
  import opened Semantics
  import opened Correct

  /** Built from numbers by operators, conditionals, casts and `sizeof`. */
  predicate Pure(e: Expr) {
    match e
    case Lit(_) => true
    case SizeOf(_) => true
    case Cast(_, d) => Pure(d)
    case Unary(_, d) => Pure(d)
    case Cond(c, a, b) => Pure(c) && Pure(a) && Pure(b)
    case OrElse(a, b) => Pure(a) && Pure(b)
    case AndAlso(a, b) => Pure(a) && Pure(b)
    case Bin(_, a, b) => Pure(a) && Pure(b)
    case _ => false
  }

  /** The value of such an expression, if no division traps and no shift is too far. */
  function Calculated(e: Expr, sc: Scope): Option<int32>
    requires Pure(e)
  {
    match e
    case Lit(n) => Some(n)
    case SizeOf(t) => Some(if t == 0 then 1 else 4)
    case Cast(_, d) => Calculated(d, sc)
    case Unary(op, d) =>
      var v := Calculated(d, sc);
      if v.None? then None else Some(UnMeaning(op, v.value))
    case Cond(c, a, b) =>
      var v := Calculated(c, sc);
      if v.None? then None else if v.value == 0 then Calculated(b, sc) else Calculated(a, sc)
    case OrElse(a, b) =>
      var v := Calculated(a, sc);
      if v == Some(0) then Calculated(b, sc) else v
    case AndAlso(a, b) =>
      var v := Calculated(a, sc);
      if v.None? || v == Some(0) then v else Calculated(b, sc)
    case Bin(op, a, b) =>
      var l, r := Calculated(a, sc), Calculated(b, sc);
      if l.None? || r.None? then None else BinMeaning(op, TypeOf(a, sc), TypeOf(b, sc), l.value, r.value)
  }

  /** How many words of stack are enough for it. */
  function Depth(e: Expr): nat
    requires Pure(e)
  {
    match e
    case Cast(_, d) => Depth(d)
    case Unary(_, d) => 1 + Depth(d)
    case Cond(c, a, b) => Depth(c) + Depth(a) + Depth(b)
    case OrElse(a, b) => Depth(a) + Depth(b)
    case AndAlso(a, b) => Depth(a) + Depth(b)
    case Bin(_, a, b) => 2 + Depth(a) + Depth(b)
    case _ => 0
  }

  /** With enough stack the meaning of such an expression is its value, and undefined exactly when it has none. */
  lemma {:induction false} PureMeans(p: Program, e: Expr, f: Frame, sp: int, m: Memory, fuel: nat)
    requires Pure(e) && Room(f, sp, Depth(e))
    ensures var v := Calculated(e, f.sc);
      Eval(p, e, f, sp, m, fuel) == if v.Some? then Value(v.value, m) else Undef
    decreases e, 1
  {
    hide Eval, TypeOf, BinMeaning, BinTail, UnMeaning, TwoResult;
    match e
    case Lit(_) => Leaves(p, e, f, sp, m, fuel);
    case SizeOf(_) => Leaves(p, e, f, sp, m, fuel);
    case Cast(_, d) =>
      PureMeans(p, d, f, sp, m, fuel);
      Leaves(p, e, f, sp, m, fuel);
    case Unary(op, d) =>
      PureMeans(p, d, f, if op == Neg then sp - 4 else sp, m, fuel);
      UnaryUnfolds(p, e, f, sp, m, fuel);
    case Cond(c, a, b) =>
      PureMeans(p, c, f, sp, m, fuel);
      PureMeans(p, a, f, sp, m, fuel);
      PureMeans(p, b, f, sp, m, fuel);
      CondUnfolds(p, e, f, sp, m, fuel);
    case OrElse(a, b) =>
      PureMeans(p, a, f, sp, m, fuel);
      PureMeans(p, b, f, sp, m, fuel);
      ShortUnfolds(p, e, f, sp, m, fuel);
    case AndAlso(a, b) =>
      PureMeans(p, a, f, sp, m, fuel);
      PureMeans(p, b, f, sp, m, fuel);
      ShortUnfolds(p, e, f, sp, m, fuel);
    case Bin(_, _, _) => BinaryMeans(p, e, f, sp, m, fuel);
  }

  lemma Leaves(p: Program, e: Expr, f: Frame, sp: int, m: Memory, fuel: nat)
    ensures e.Lit? ==> Eval(p, e, f, sp, m, fuel) == Value(e.n, m)
    ensures e.SizeOf? ==> Eval(p, e, f, sp, m, fuel) == Value(if e.of == 0 then 1 else 4, m)
    ensures e.Cast? ==> Eval(p, e, f, sp, m, fuel) == Eval(p, e.e, f, sp, m, fuel)
  {
  }

  lemma BinaryMeans(p: Program, e: Expr, f: Frame, sp: int, m: Memory, fuel: nat)
    requires e.Bin? && Pure(e) && Room(f, sp, Depth(e))
    ensures var v := Calculated(e, f.sc);
      Eval(p, e, f, sp, m, fuel) == if v.Some? then Value(v.value, m) else Undef
    decreases e, 0
  {
    hide Eval, TypeOf, BinMeaning, BinTail;
    PureMeans(p, e.a, f, sp, m, fuel);
    PureMeans(p, e.b, f, sp - 4, m, fuel);
    BinUnfolds(p, e, f, sp, m, fuel, 0);
  }

  /** The bytes of a value of type t at a belong to an object. */
  predicate Owned(f: Frame, a: int, t: Type) {
    a in f.obj && (t != 0 ==> a + 1 in f.obj && a + 2 in f.obj && a + 3 in f.obj)
  }

  lemma StoredIsLoaded(f: Frame, m: Memory, a: int, v: int32, t: Type)
    requires Owned(f, a, t)
    ensures var o := Store(f, m, a, v, t);
      o.Value? && o.v == (if t == 0 then ToChar(v) else v) && Load(o.mem, a, t == 0) == o
  {
    hide LoadInt;
    LoadStore(m, a, v);
  }

  /** A variable whose cell belongs to an object holds what was last assigned to it, cut to eight bits for a char. */
  lemma AssignedIsRead(p: Program, x: Name, r: Expr, f: Frame, sp: int, m: Memory, fuel: nat, v: int32, m1: Memory)
    requires x in f.sc.env && (f.sc.env[x].cls.LocClass? || f.sc.env[x].cls.GloClass?)
    requires Owned(f, Address(p, Var(x), f, sp, m, fuel).v, f.sc.env[x].ty)
    requires Room(f, sp, 1) && Eval(p, r, f, sp - 4, m, fuel) == Value(v, m1)
    ensures var o := Eval(p, Assign(Var(x), r), f, sp, m, fuel);
      o.Value? && o.v == (if f.sc.env[x].ty == 0 then ToChar(v) else v) && Eval(p, Var(x), f, sp, o.mem, fuel) == o
  {
    hide Combine, EvalCall, UnMeaning, Delta, LoadInt, StoreInt, ToChar, Store, Load, Owned;
    var a, t := Address(p, Var(x), f, sp, m, fuel).v, f.sc.env[x].ty;
    StoredIsLoaded(f, m1, a, v, t);
    var o := Store(f, m1, a, v, t);
    assert TypeOf(Var(x), f.sc) == t;
    assert Eval(p, Assign(Var(x), r), f, sp, m, fuel) == o;
    assert Eval(p, Var(x), f, sp, o.mem, fuel) == Load(o.mem, a, t == 0);
  }

  /** A call of exit, and running out of fuel, end an expression wherever they happen in it. */
  lemma EndsEverything(p: Program, e: Expr, d: Expr, f: Frame, sp: int, m: Memory, fuel: nat)
    requires var r := Eval(p, d, f, sp, m, fuel); r.Exit? || r.Timeout?
    requires (e.Cast? && e.e == d) || (e.Unary? && e.uop == Plus && e.e == d) || (e.Cond? && e.c == d)
      || (e.OrElse? && e.a == d) || (e.AndAlso? && e.a == d) || (e.Bin? && e.a == d)
    ensures Eval(p, e, f, sp, m, fuel) == Eval(p, d, f, sp, m, fuel)
  {
  }

  /** A subscript is defined where the sum is: its place is the sum's value. */
  lemma SubscriptMeans(p: Program, a: Expr, i: Expr, f: Frame, sp: int, m: Memory, fuel: nat)
    ensures Address(p, Index(a, i), f, sp, m, fuel) == Eval(p, Bin(Add, a, i), f, sp, m, fuel)
  {
    hide Combine, TypeOf, EvalCall, Load, Store, UnMeaning, Delta, ReadsChar;
    AddendType(TypeOf(a, f.sc), INT, TypeOf(i, f.sc), f, sp);
    assert Address(p, Index(a, i), f, sp, m, fuel) == TwoMeaning(p, a, i, INT, f, sp, m, fuel);
    assert Eval(p, Bin(Add, a, i), f, sp, m, fuel) == TwoMeaning(p, a, i, TypeOf(i, f.sc), f, sp, m, fuel);
  }

  /** What is added to a pointer may be of any type. */
  lemma AddendType(ta: Type, tb: Type, tc: Type, f: Frame, sp: int)
    ensures forall l, r, m :: Combine(Add, ta, tb, l, r, f, sp, m) == Combine(Add, ta, tc, l, r, f, sp, m)
  {
  }

  ghost function TwoMeaning(p: Program, a: Expr, b: Expr, tb: Type, f: Frame, sp: int, m: Memory, fuel: nat): Result {
    var (l, m1) :- Eval(p, a, f, sp, m, fuel);
    if Room(f, sp, 1) then
      var (r, m2) :- Eval(p, b, f, sp - 4, m1, fuel);
      Combine(Add, TypeOf(a, f.sc), tb, l, r, f, sp, m2)
    else Undef
  }

  /** Calling exit with one argument ends the script with its value; an argument that ends it does so first. */
  lemma ExitCalled(p: Program, g: Name, e: Expr, f: Frame, sp: int, m: Memory, fuel: nat)
    requires g in f.sc.env && f.sc.env[g].cls.SysClass? && f.sc.env[g].val == 53
    ensures var r, o := Eval(p, e, f, sp, m, fuel), Eval(p, Call(g, Arg(e, NoArgs)), f, sp, m, fuel);
      && (r.Value? && Room(f, sp, 1) ==> o == Exit(r.v))
      && (r.Exit? || r.Timeout? ==> o == r)
  {
    hide Eval, Invoke, LoadInt, StoreInt;
    var r := Eval(p, e, f, sp, m, fuel);
    CallMeans(p, g, Arg(e, NoArgs), f, sp, m, fuel);
    ArgsUnfold(p, e, NoArgs, f, sp, m, fuel);
    if r.Value? && Room(f, sp, 1) {
      LoadStore(r.mem, sp - 4, r.v);
      assert EvalArgs(p, NoArgs, f, sp - 4, StoreInt(r.mem, sp - 4, r.v), fuel) == Next(StoreInt(r.mem, sp - 4, r.v));
    }
    assert Count(Arg(e, NoArgs)) == 1 by { assert Count(NoArgs) == 0; }
  }

  lemma CallMeans(p: Program, g: Name, args: Args, f: Frame, sp: int, m: Memory, fuel: nat)
    ensures Eval(p, Call(g, args), f, sp, m, fuel) == EvalCall(p, g, args, f, sp, m, fuel)
  {
    hide EvalCall;
  }
}
