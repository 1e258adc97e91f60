// The compiler's test for an assignable expression looks at the last word emitted: exactly what it lets through.

module Lvalues {
  import opened Words
  import opened Vm
  import opened Syntax
  import opened CodeGen
  import opened Semantics
  import opened Tokens
  import opened Precedence
  import opened Printer
  import opened Parser
  import opened ParserCorrect

  /** The words LI and LC, as numbers. */
  predicate LooksLikeLoad(w: int) { w == LI || w == LC }

  /**
   * Whether the last word of e's code could be taken for a load: places, but also the literals 9 and 10, whatever
   * ends in such an operand, and branches whose last arm ends in one.
   */
  predicate LooksLikePlace(e: Expr, sc: Scope) {
    match e
    case Lit(n) => LooksLikeLoad(n)
    case SizeOf(_) => false
    case Var(_) => if IsConst(e, sc) then LooksLikeLoad(sc.env[e.x].val) else true
    case Call(g, args) => if Count(args) > 0 then LooksLikeLoad(Count(args)) else g in sc.env && LooksLikeLoad(sc.env[g].val)
    case Cast(_, d) => LooksLikePlace(d, sc)
    case Deref(_) => true
    case AddrOf(d) => AddressLooksLikeLoad(d, sc)
    case Unary(op, d) => (op == Plus && LooksLikePlace(d, sc)) || (op == Neg && d.Lit? && LooksLikeLoad(Negated(d.n)))
    case PreStep(_, _) => false
    case PostStep(_, _) => false
    case Assign(_, _) => false
    case Cond(_, _, b) => LooksLikePlace(b, sc)
    case OrElse(_, b) => LooksLikePlace(b, sc)
    case AndAlso(_, b) => LooksLikePlace(b, sc)
    case Bin(_, _, _) => false
    case Index(_, _) => true
  }

  /** The same question about the code of a place's address. */
  predicate AddressLooksLikeLoad(e: Expr, sc: Scope) {
    match e
    case Var(x) => x in sc.env && LooksLikeLoad(if sc.env[x].cls.LocClass? then sc.off - sc.env[x].val else sc.env[x].val)
    case Deref(d) => LooksLikePlace(d, sc)
    case Cast(_, d) => AddressLooksLikeLoad(d, sc)
    case Unary(_, d) => AddressLooksLikeLoad(d, sc)
    case _ => false
  }

  lemma LastOfSum(a: seq<int>, b: seq<int>)
    requires b != []
    ensures Last(a + b) == Last(b) && a + b != []
  {
  }

  /** The last word of the emitted code says exactly this. */
  lemma {:induction false} LastWord(e: Expr, sc: Scope, at: int)
    requires WellTyped(e, sc)
    ensures Gen(e, sc, at) != []
    ensures LooksLikeLoad(Last(Gen(e, sc, at))) <==> LooksLikePlace(e, sc)
    decreases e, 1
  {
    hide GenAddr, GenArgs, Last;
    match e
    case Lit(n) => LastOfSum([IMM], [n]); LastIs(n); assert [IMM] + [n] == [IMM, n];
    case SizeOf(t) => var k := if t == CHAR then 1 else 4; LastOfSum([IMM], [k]); LastIs(k); assert [IMM] + [k] == [IMM, k];
    case Var(_) => LastOfVar(e, sc, at);
    case Call(_, _) => LastOfCall(e, sc, at);
    case Cast(_, d) => LastWord(d, sc, at);
    case Deref(_) => LastOfLoad(e, sc, at);
    case AddrOf(d) => LastAddressWord(d, sc, at);
    case Unary(_, _) => LastOfUnary(e, sc, at);
    case PreStep(_, _) => LastOfPlaceUse(e, sc, at);
    case PostStep(_, _) => LastOfPlaceUse(e, sc, at);
    case Assign(_, _) => LastOfPlaceUse(e, sc, at);
    case Cond(c, a, b) => LastOfCond(e, sc, at);
    case OrElse(a, b) => LastOfShort(BNZ, Gen(a, sc, at), b, sc, at);
    case AndAlso(a, b) => LastOfShort(BZ, Gen(a, sc, at), b, sc, at);
    case Bin(_, _, _) => LastOfBin(e, sc, at);
    case Index(_, _) => LastOfLoad(e, sc, at);
  }

  lemma LastIs(k: int)
    ensures Last([k]) == k
  {
  }

  lemma LastOfLoad(e: Expr, sc: Scope, at: int)
    requires e.Deref? || e.Index? || (e.Var? && !IsConst(e, sc))
    ensures Gen(e, sc, at) != [] && LooksLikeLoad(Last(Gen(e, sc, at)))
  {
    hide GenAddr, TypeOf;
    LastOfSum(GenAddr(e, sc, at), [LoadOp(TypeOf(e, sc) == CHAR)]);
  }

  lemma LastOfVar(e: Expr, sc: Scope, at: int)
    requires e.Var? && WellTyped(e, sc)
    ensures Gen(e, sc, at) != [] && (LooksLikeLoad(Last(Gen(e, sc, at))) <==> LooksLikePlace(e, sc))
  {
    if !IsConst(e, sc) { LastOfLoad(e, sc, at); }
  }

  lemma LastOfCall(e: Expr, sc: Scope, at: int)
    requires e.Call? && WellTyped(e, sc)
    ensures Gen(e, sc, at) != [] && (LooksLikeLoad(Last(Gen(e, sc, at))) <==> LooksLikePlace(e, sc))
  {
    hide GenArgs, ArgsTyped;
    var a, t := GenArgs(e.args, sc, at), GenTransfer(e.g, sc);
    if Count(e.args) > 0 {
      LastOfSum(a + t, [ADJ, Count(e.args)]);
    } else {
      assert Gen(e, sc, at) == a + t;
      LastOfSum(a, t);
    }
  }

  lemma LastOfUnary(e: Expr, sc: Scope, at: int)
    requires e.Unary? && WellTyped(e, sc)
    ensures Gen(e, sc, at) != [] && (LooksLikeLoad(Last(Gen(e, sc, at))) <==> LooksLikePlace(e, sc))
    decreases e, 0
  {
    var op, d := e.uop, e.e;
    if op == Plus {
      LastWord(d, sc, at);
      assert Gen(e, sc, at) == Gen(d, sc, at);
    } else if op == Neg {
      NegUses(e, sc, at);
      hide Gen;
      if !d.Lit? { LastOfSum([IMM, -1, PSH] + Gen(d, sc, at + 3), [MUL]); }
    } else {
      UnaryUses(e, d, sc, at);
      hide Gen;
      LastOfSum(Gen(d, sc, at), UnaryTail(op));
    }
  }

  lemma NegUses(e: Expr, sc: Scope, at: int)
    requires e.Unary? && e.uop == Neg
    ensures Gen(e, sc, at) == if e.e.Lit? then [IMM, Negated(e.e.n)] else [IMM, -1, PSH] + Gen(e.e, sc, at + 3) + [MUL]
  {
  }

  lemma LastOfPlaceUse(e: Expr, sc: Scope, at: int)
    requires e.PreStep? || e.PostStep? || e.Assign?
    ensures Gen(e, sc, at) != [] && !LooksLikeLoad(Last(Gen(e, sc, at)))
  {
    hide Gen, GenAddr, TypeOf, ReadsChar;
    PlaceUses(e, sc, at);
    if e.Assign? {
      var addr := GenAddr(e.l, sc, at) + [PSH];
      LastOfSum(addr + Gen(e.r, sc, at + |addr|), [StoreOp(TypeOf(e.l, sc))]);
    } else {
      var ty := TypeOf(e.e, sc);
      var a, tail := GenAddr(e.e, sc, at), StepTail(e.up, ReadsChar(e.e, sc), ty);
      LastOfSum(a, tail);
      LastOfSum(a + tail, [PSH, IMM, Stride(ty), StepOp(!e.up)]);
    }
  }

  lemma LastOfCond(e: Expr, sc: Scope, at: int)
    requires e.Cond? && WellTyped(e, sc)
    ensures Gen(e, sc, at) != [] && (LooksLikeLoad(Last(Gen(e, sc, at))) <==> LooksLikePlace(e.b, sc))
    decreases e, 0
  {
    hide Gen, Last;
    CondUses(e, sc, at);
    var t := Gen(e.c, sc, at);
    var ca := Gen(e.a, sc, at + |t| + 2);
    var no := at + |t| + 2 + |ca| + 2;
    LastWord(e.b, sc, no);
    LastOfSum(t + [BZ, no] + ca + [JMP, no + |Gen(e.b, sc, no)|], Gen(e.b, sc, no));
  }

  lemma LastOfBin(e: Expr, sc: Scope, at: int)
    requires e.Bin?
    ensures Gen(e, sc, at) != [] && !LooksLikeLoad(Last(Gen(e, sc, at)))
  {
    hide TypeOf;
    var left := Gen(e.a, sc, at) + [PSH];
    LastOfSum(left + Gen(e.b, sc, at + |left|), BinTail(e.bop, TypeOf(e.a, sc), TypeOf(e.b, sc)));
  }

  lemma LastOfShort(op: int, left: seq<int>, b: Expr, sc: Scope, at: int)
    requires WellTyped(b, sc)
    ensures GenShort(op, left, b, sc, at) != []
    ensures LooksLikeLoad(Last(GenShort(op, left, b, sc, at))) <==> LooksLikePlace(b, sc)
    decreases b, 2
  {
    var right := Gen(b, sc, at + |left| + 2);
    LastWord(b, sc, at + |left| + 2);
    LastOfSum(left + [op, at + |left| + 2 + |right|], right);
  }

  lemma LastAddressWord(e: Expr, sc: Scope, at: int)
    requires WellTyped(e, sc) && IsPlace(e, sc)
    ensures GenAddr(e, sc, at) != []
    ensures LooksLikeLoad(Last(GenAddr(e, sc, at))) <==> AddressLooksLikeLoad(e, sc)
    decreases e, 0
  {
    match e
    case Var(_) =>
    case Deref(d) => LastWord(d, sc, at);
    case Index(a, i) =>
      var base := Gen(a, sc, at) + [PSH];
      LastOfSum(base + Gen(i, sc, at + |base|), BinTail(Add, TypeOf(a, sc), INT));
    case Cast(_, d) => LastAddressWord(d, sc, at);
    case Unary(_, d) => LastAddressWord(d, sc, at);
  }

  /** Every place passes the test. */
  lemma {:induction false} PlacesLookLikePlaces(e: Expr, sc: Scope)
    requires IsPlace(e, sc)
    ensures LooksLikePlace(e, sc)
    decreases e
  {
    match e
    case Cast(_, d) => PlacesLookLikePlaces(d, sc);
    case Unary(_, d) => PlacesLookLikePlaces(d, sc);
    case _ =>
  }

  lemma AssignStep(mid: seq<Token>, right: seq<Token>, rest: seq<Token>, c: seq<int>, ty: Type, c1: seq<int>, tr: Type, sc: Scope)
    requires mid == [AssignTok] + right && Expression(right, LoadToPush(c), ASSIGN, sc) == Ok(rest, c1, tr)
    requires Rank(Peek(rest)) < ASSIGN
    ensures Climb(mid, c, ty, ASSIGN, sc) == if EndsInLoad(c) then Ok(rest, c1 + [StoreOp(ty)], ty) else Err(BadLvalue)
  {
    hide Expression, EndsInLoad, LoadToPush;
    Ahead(AssignTok, right);
    assert Infix(mid, c, ty, sc) == if EndsInLoad(c) then Ok(rest, c1 + [StoreOp(ty)], ty) else Err(BadLvalue);
  }

  /** The compiler accepts `l = r` exactly when l looks like a place, and reports a bad lvalue otherwise. */
  lemma AssignmentAccepted(l: Expr, r: Expr, rest: seq<Token>, code: seq<int>, sc: Scope)
    requires WellTyped(l, sc) && WellTyped(r, sc) && Stops(rest, ASSIGN)
    ensures var res := Expression(PrintAt(l, UnaryTier) + ([AssignTok] + (PrintAt(r, AssignTier) + rest)), code, ASSIGN, sc);
      && (res.Ok? <==> LooksLikePlace(l, sc))
      && (!res.Ok? ==> res == Err(BadLvalue))
  {
    hide Expression, PrintAt, Gen, WellTyped, Climb, LooksLikePlace, LoadToPush;
    var right := PrintAt(r, AssignTier) + rest;
    var mid := [AssignTok] + right;
    Ahead(AssignTok, right);
    Levels(l);
    OperandParses(l, UnaryTier, mid, code, ASSIGN, sc);
    LastWord(l, sc, |code|);
    var c := code + Gen(l, sc, |code|);
    LastOfSum(code, Gen(l, sc, |code|));
    var c0 := LoadToPush(c);
    WholeParses(r, AssignTier, rest, c0, sc);
    AssignStep(mid, right, rest, c, TypeOf(l, sc), c0 + Gen(r, sc, |c0|), TypeOf(r, sc), sc);
  }

  /** The prefix operators that need a place: the address of, and the two steps. */
  predicate NeedsPlace(tok: Token) { tok == OpTok(And) || tok == IncTok || tok == DecTok }

  lemma PlacePrefixStep(tok: Token, operand: seq<Token>, rest: seq<Token>, code: seq<int>, c: seq<int>, ty: Type, sc: Scope)
    requires NeedsPlace(tok) && Expression(operand, code, INC, sc) == Ok(rest, c, ty) && Rank(Peek(rest)) < INC
    ensures var res := Expression([tok] + operand, code, INC, sc);
      if EndsInLoad(c) then res.Ok? && res.toks == rest
      else res == Err(if tok == OpTok(And) then BadReference else BadLvalue)
  {
    hide EndsInLoad, Reload, DropLast, StepCode;
    Ahead(tok, operand);
    assert Prefix([tok] + operand, code, sc) == Operated(tok, rest, c, ty);
  }

  /** `&e`, `++e` and `--e` compile exactly when e looks like a place; otherwise the error says what was expected. */
  lemma PrefixAccepted(tok: Token, e: Expr, rest: seq<Token>, code: seq<int>, sc: Scope)
    requires (tok == OpTok(And) || tok == IncTok || tok == DecTok) && WellTyped(e, sc) && Stops(rest, INC)
    ensures var res := Expression([tok] + (PrintAt(e, UnaryTier) + rest), code, INC, sc);
      && (res.Ok? <==> LooksLikePlace(e, sc))
      && (!res.Ok? ==> res == Err(if tok == OpTok(And) then BadReference else BadLvalue))
  {
    hide Expression, PrintAt, Gen, WellTyped, LooksLikePlace;
    WholeParses(e, UnaryTier, rest, code, sc);
    LastWord(e, sc, |code|);
    LastOfSum(code, Gen(e, sc, |code|));
    PlacePrefixStep(tok, PrintAt(e, UnaryTier) + rest, rest, code, code + Gen(e, sc, |code|), TypeOf(e, sc), sc);
  }

  lemma PostStepStep(tok: Token, rest: seq<Token>, c: seq<int>, ty: Type, sc: Scope)
    requires (tok == IncTok || tok == DecTok) && Rank(Peek(rest)) < INC
    ensures var res := Climb([tok] + rest, c, ty, INC, sc);
      if EndsInLoad(c) then res.Ok? && res.toks == rest else res == Err(BadLvalue)
  {
    hide EndsInLoad, Reload, StepCode;
    Ahead(tok, rest);
    assert Infix([tok] + rest, c, ty, sc) == PostStepCode(rest, c, ty, tok == IncTok);
  }

  /** `e++` and `e--` compile exactly when e looks like a place, and report a bad lvalue otherwise. */
  lemma PostStepAccepted(tok: Token, e: Expr, rest: seq<Token>, code: seq<int>, sc: Scope)
    requires (tok == IncTok || tok == DecTok) && WellTyped(e, sc) && Stops(rest, INC)
    ensures var res := Expression(PrintAt(e, PostfixTier) + ([tok] + rest), code, INC, sc);
      && (res.Ok? <==> LooksLikePlace(e, sc))
      && (!res.Ok? ==> res == Err(BadLvalue))
  {
    hide Expression, PrintAt, Gen, WellTyped, Climb, LooksLikePlace;
    Ahead(tok, rest);
    Levels(e);
    OperandParses(e, PostfixTier, [tok] + rest, code, INC, sc);
    LastWord(e, sc, |code|);
    LastOfSum(code, Gen(e, sc, |code|));
    PostStepStep(tok, rest, code + Gen(e, sc, |code|), TypeOf(e, sc), sc);
  }

  /** `9 = 5` compiles, and running it takes a word off the stack that it never put there. */
  lemma LiteralAssignment(sc: Scope, s: State)
    ensures Expression([Num(9), AssignTok, Num(5)], [], ASSIGN, sc) == Ok([], [IMM, PSH, IMM, 5, SI], INT)
    ensures var code := [IMM, PSH, IMM, 5, SI];
      s.pc == 0 ==> Run(code, s, 3).Running? && Run(code, s, 3).s.pc == 5 && Run(code, s, 3).s.sp == s.sp + 4
  {
    var toks := [Num(9), AssignTok, Num(5)];
    assert toks[1..] == [AssignTok, Num(5)] && toks[1..][1..] == [Num(5)] && [Num(5)][1..] == [];
    assert Expression([Num(5)], [IMM, PSH], ASSIGN, sc) == Ok([], [IMM, PSH, IMM, 5], INT) by {
      assert Prefix([Num(5)], [IMM, PSH], sc) == Ok([], [IMM, PSH, IMM, 5], INT);
    }
    assert Prefix(toks, [], sc) == Ok([AssignTok, Num(5)], [IMM, 9], INT);
    assert LoadToPush([IMM, 9]) == [IMM, PSH];
    assert Infix([AssignTok, Num(5)], [IMM, 9], INT, sc) == Ok([], [IMM, PSH, IMM, 5, SI], INT);
    if s.pc == 0 { LiteralRuns(s); }
  }

  lemma LiteralRuns(s: State)
    requires s.pc == 0
    ensures var r := Run([IMM, PSH, IMM, 5, SI], s, 3); r.Running? && r.s.pc == 5 && r.s.sp == s.sp + 4
  {
    var code := [IMM, PSH, IMM, 5, SI];
    var s1 := s.(pc := 2, acc := Wrap(PSH));
    var s2 := s1.(pc := 4, acc := 5);
    assert Step(code, s) == Running(s1) && Step(code, s1) == Running(s2);
    var s3 := Step(code, s2).s;
    assert Run(code, s2, 1) == Running(s3);
    assert Run(code, s1, 2) == Run(code, s2, 1);
    assert Run(code, s, 3) == Run(code, s1, 2);
  }

  // ----- what a post-step yields -----

  /**
   * A post-step takes the step back from the value stored, so it yields the value read exactly unless a char is
   * stored and the step leaves the range of a char: `c++` on 127 does not yield 127.
   */
  lemma PostStepYields(p: Program, up: bool, e: Expr, f: Frame, sp: int, m: Memory, fuel: nat)
    requires Eval(p, PostStep(up, e), f, sp, m, fuel).Value?
    ensures var r := Eval(p, PostStep(up, e), f, sp, m, fuel); var ra := Address(p, e, f, sp, m, fuel);
      && ra.Value? && Load(ra.mem, ra.v, ReadsChar(e, f.sc)).Value?
      && var old_ := Load(ra.mem, ra.v, ReadsChar(e, f.sc)).v; var t := TypeOf(e, f.sc);
      (r.v == old_ <==> (t != CHAR || -128 <= old_ + Delta(up, t) <= 127))
  {
    hide Eval, Address, Load, Wrap, ToChar, TypeOf;
    PostStepValue(p, up, e, f, sp, m, fuel);
    var ra := Address(p, e, f, sp, m, fuel);
    var t := TypeOf(e, f.sc);
    Undone(Load(ra.mem, ra.v, ReadsChar(e, f.sc)).v, Delta(up, t), t);
  }

  /** What is stored, with the step taken back. */
  lemma PostStepValue(p: Program, up: bool, e: Expr, f: Frame, sp: int, m: Memory, fuel: nat)
    requires Eval(p, PostStep(up, e), f, sp, m, fuel).Value?
    ensures var r := Eval(p, PostStep(up, e), f, sp, m, fuel); var ra := Address(p, e, f, sp, m, fuel);
      && ra.Value? && Load(ra.mem, ra.v, ReadsChar(e, f.sc)).Value?
      && var v := Load(ra.mem, ra.v, ReadsChar(e, f.sc)).v; var t := TypeOf(e, f.sc); var d := Delta(up, t);
      r.v == Wrap((if t == CHAR then ToChar(Wrap(v + d)) else Wrap(v + d)) - d)
  {
    hide Address, Load, Wrap, ToChar, TypeOf, Delta;
  }

  lemma Undone(v: int32, d: int, t: Type)
    requires d == 1 || d == -1 || (t != CHAR && (d == 4 || d == -4))
    ensures t != CHAR ==> Wrap(Wrap(v + d) - d) == v
    ensures t == CHAR ==> (Wrap(ToChar(Wrap(v + d)) - d) == v <==> -128 <= v + d <= 127)
  {
    if t == CHAR {
      CharUndone(v, d);
    } else {
      WrapSum(-d, v + d);
    }
  }

  lemma CharUndone(v: int32, d: int)
    requires d == 1 || d == -1
    ensures Wrap(ToChar(Wrap(v + d)) - d) == v <==> -128 <= v + d <= 127
  {
    assert Wrap(v + d) % 256 == (v + d) % 256;
  }

  /** A frame with one global char at address 100. */
  const ONE_CHAR: Frame := Frame(Scope(map["c" := Symbol(GloClass, CHAR, 100)], 0), 80, 0, {100})

  /** With 127 in it, `c++` yields -129, and leaves -128; with 5 it yields 5. */
  lemma CharOverflows(p: Program, fuel: nat)
    ensures var r := Eval(p, PostStep(true, Var("c")), ONE_CHAR, 80, map[100 := 127], fuel);
      r.Value? && r.v == -129 && 100 in r.mem && SignExtend(r.mem[100]) == -128
    ensures var r := Eval(p, PostStep(true, Var("c")), ONE_CHAR, 80, map[100 := 5], fuel); r.Value? && r.v == 5
  {
    var e := Var("c");
    assert TypeOf(e, ONE_CHAR.sc) == CHAR && ReadsChar(e, ONE_CHAR.sc);
    assert Address(p, e, ONE_CHAR, 80, map[100 := 127], fuel) == Value(100, map[100 := 127]);
    assert Address(p, e, ONE_CHAR, 80, map[100 := 5], fuel) == Value(100, map[100 := 5]);
  }
}
