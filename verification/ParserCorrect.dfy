// Compiling a printed tree emits exactly the code of that tree: the climber inverts the printer.

module ParserCorrect {
  import opened Vm
  import opened Syntax
  import opened CodeGen
  import opened Tokens
  import opened Precedence
  import opened Printer
  import opened Parser

  // ----- lists -----

  lemma Assoc<T>(a: seq<T>, b: seq<T>, c: seq<T>)
    ensures (a + b) + c == a + (b + c)
  {
  }

  lemma Assoc4<T>(a: seq<T>, b: seq<T>, c: seq<T>, d: seq<T>)
    ensures ((a + b) + c) + d == a + ((b + c) + d)
  {
    Assoc(a, b, c);
    Assoc(a, b + c, d);
  }

  lemma Assoc6<T>(a: seq<T>, b: seq<T>, c: seq<T>, d: seq<T>, e: seq<T>, f: seq<T>)
    ensures a + b + c + d + e + f == a + (b + c + d + e + f)
  {
    Assoc4(a, b, c, d);
    Assoc4(a, b + c + d, e, f);
  }

  lemma Ahead(t: Token, s: seq<Token>)
    ensures Peek([t] + s) == t && Rest([t] + s) == s
  {
  }

  lemma {:induction false} StarsRead(n: nat, rest: seq<Token>, ty: Type)
    requires Peek(rest) != OpTok(Mul)
    ensures Stars(Repeat(n) + rest, ty) == (rest, ty + PTR * n)
    decreases n
  {
    if n == 0 {
      assert Repeat(n) + rest == rest;
    } else {
      assert Repeat(n) + rest == [OpTok(Mul)] + (Repeat(n - 1) + rest);
      Ahead(OpTok(Mul), Repeat(n - 1) + rest);
      StarsRead(n - 1, rest, ty + PTR);
    }
  }

  /** Tokens an expression can start with. */
  predicate Starts(t: Token) {
    t.Num? || t.SizeofKw? || t.Id? || t.LParen? || t.Bang? || t.Tilde? || t.IncTok? || t.DecTok?
    || t == OpTok(Mul) || t == OpTok(And) || t == OpTok(Add) || t == OpTok(Sub)
  }

  /** The operator number at which the climber reads an expression of a tier. */
  function Number(t: Tier): int {
    match t
    case AssignTier => ASSIGN
    case CondTier => COND
    case LorTier => LOR
    case LanTier => LAN
    case OrTier => OpRank(Or)
    case XorTier => OpRank(Xor)
    case AndTier => OpRank(And)
    case EqTier => OpRank(Eq)
    case RelTier => OpRank(Lt)
    case ShiftTier => OpRank(Shl)
    case AddTier => OpRank(Add)
    case MulTier => OpRank(Mul)
    case UnaryTier => INC
    case PostfixTier => PRIMARY
  }

  function Level(e: Expr): int { Number(TierOf(e)) }

  /** The climber's numbers order the tiers as the grammar does. */
  lemma Numbered(t: Tier, u: Tier)
    ensures Tighter(t, u) <==> Number(u) < Number(t)
    ensures Number(t) <= INC <==> t != PostfixTier
  {
    TighterPlaces(t, u);
  }

  /** The right operand of an operator is read at the number of its tier. */
  lemma InnerNumber(op: BinOp)
    ensures Number(InnerTier(op)) == RightLevel(op) && InnerTier(op) != PostfixTier
    ensures Number(OpTier(op)) <= OpRank(op) < RightLevel(op)
  {
  }

  /** Of the operands of a prefix operator only a literal prints with a number first. */
  lemma {:induction false} FirstToken(e: Expr, sc: Scope)
    requires WellTyped(e, sc)
    ensures Print(e) != [] && Starts(Print(e)[0])
    ensures Level(e) >= INC && Print(e)[0].Num? ==> e.Lit?
    decreases e
  {
    hide Tighter, PrintType, PrintArgs;
    match e
    case PostStep(_, a) => FirstToken(a, sc);
    case Index(a, _) => FirstToken(a, sc); Numbered(PostfixTier, TierOf(a));
    case Assign(l, _) => FirstToken(l, sc);
    case Cond(c, _, _) => FirstToken(c, sc);
    case OrElse(a, _) => FirstToken(a, sc);
    case AndAlso(a, _) => FirstToken(a, sc);
    case Bin(op, a, _) => FirstToken(a, sc); InnerNumber(op);
    case _ =>
  }

  lemma FirstTokenAt(e: Expr, t: Tier, rest: seq<Token>, sc: Scope)
    requires WellTyped(e, sc)
    ensures Starts(Peek(PrintAt(e, t) + rest))
    ensures t == UnaryTier && Peek(PrintAt(e, t) + rest).Num? ==> e.Lit?
  {
    Numbered(t, TierOf(e));
    FirstToken(e, sc);
  }

  /** The level at which the last operand of e, printed bare, is read: a following operator below it is not eaten. */
  function Bound(e: Expr): int {
    match e
    case Assign(_, _) => ASSIGN
    case Cond(_, _, _) => COND
    case OrElse(_, _) => LAN
    case AndAlso(_, _) => OpRank(Or)
    case Bin(op, _, _) => RightLevel(op)
    case _ => if Level(e) == INC then INC else PRIMARY
  }

  /** What may follow an expression that is read up to level lev. */
  predicate Stops(rest: seq<Token>, lev: int) {
    Rank(Peek(rest)) < lev && Peek(rest) != LParen
  }

  lemma Levels(e: Expr)
    ensures ASSIGN <= Level(e) <= Bound(e) <= PRIMARY
    ensures e.Bin? ==> Level(e) <= OpRank(e.bop) < Bound(e) <= INC
  {
  }

  // ----- the climber -----

  /** Printed bare and followed by what it does not eat, e is compiled as the left operand of what follows. */
  ghost predicate Spine(e: Expr, toks: seq<Token>, rest: seq<Token>, code: seq<int>, lev: int, sc: Scope) {
    Expression(toks + rest, code, lev, sc) == Climb(rest, code + Gen(e, sc, |code|), TypeOf(e, sc), lev, sc)
  }

  lemma BareParses(e: Expr, rest: seq<Token>, code: seq<int>, lev: int, sc: Scope)
    requires WellTyped(e, sc) && ASSIGN <= lev <= INC && lev <= Level(e) && Stops(rest, Bound(e))
    ensures Spine(e, Print(e), rest, code, lev, sc)
    decreases e, 1
  {
    match e
    case Lit(n) => Ahead(Num(n), rest);
    case SizeOf(_) => SizeOfParses(e, rest, code, lev, sc);
    case Var(x) => VarParses(e, rest, code, lev, sc);
    case Call(_, _) => CallParses(e, rest, code, lev, sc);
    case Cast(_, _) => CastParses(e, rest, code, lev, sc);
    case Deref(_) => PrefixParses(e, e.e, OpTok(Mul), rest, code, lev, sc);
    case AddrOf(_) => PrefixParses(e, e.e, OpTok(And), rest, code, lev, sc);
    case Unary(op, _) =>
      if op == Neg { NegParses(e, rest, code, lev, sc); } else { PrefixParses(e, e.e, UnToken(op), rest, code, lev, sc); }
    case PreStep(up, _) => PrefixParses(e, e.e, StepToken(up), rest, code, lev, sc);
    case PostStep(_, _) => PostStepParses(e, rest, code, lev, sc);
    case Assign(_, _) => AssignParses(e, rest, code, lev, sc);
    case Cond(_, _, _) => CondParses(e, rest, code, lev, sc);
    case OrElse(_, _) => ShortParses(e, rest, code, lev, sc);
    case AndAlso(_, _) => ShortParses(e, rest, code, lev, sc);
    case Bin(_, _, _) => BinParses(e, rest, code, lev, sc);
    case Index(_, _) => IndexParses(e, rest, code, lev, sc);
  }

  lemma VarParses(e: Expr, rest: seq<Token>, code: seq<int>, lev: int, sc: Scope)
    requires e.Var? && WellTyped(e, sc) && Peek(rest) != LParen
    ensures Spine(e, Print(e), rest, code, lev, sc)
  {
    hide Climb;
    Ahead(Id(e.x), rest);
    assert Prefix([Id(e.x)] + rest, code, sc) == Parser.Ok(rest, code + Gen(e, sc, |code|), TypeOf(e, sc));
  }

  lemma SizeOfParses(e: Expr, rest: seq<Token>, code: seq<int>, lev: int, sc: Scope)
    requires e.SizeOf?
    ensures Spine(e, Print(e), rest, code, lev, sc)
  {
    hide Climb, Expression, Prefix;
    var base := if e.of % 2 == 0 then CharKw else IntKw;
    var toks := [SizeofKw] + ([LParen] + ([base] + (Repeat(e.of / 2) + ([RParen] + rest))));
    assert Print(e) + rest == toks;
    SizeOfStep(e.of, base, rest, code, sc);
    FromPrefix(toks, e, rest, code, lev, sc);
  }

  lemma SizeOfStep(t: Type, base: Token, rest: seq<Token>, code: seq<int>, sc: Scope)
    requires base == if t % 2 == 0 then CharKw else IntKw
    ensures Prefix([SizeofKw] + ([LParen] + ([base] + (Repeat(t / 2) + ([RParen] + rest)))), code, sc)
         == Parser.Ok(rest, code + [IMM, if t == CHAR then 1 else 4], INT)
  {
    hide Expression, Sizeof, Stars;
    var tail := Repeat(t / 2) + ([RParen] + rest);
    Ahead(SizeofKw, [LParen] + ([base] + tail));
    SizeofReads(t, base, [LParen] + ([base] + tail), tail, rest, code);
  }

  /** What follows the keyword. */
  lemma SizeofReads(t: Type, base: Token, next: seq<Token>, tail: seq<Token>, rest: seq<Token>, code: seq<int>)
    requires base == if t % 2 == 0 then CharKw else IntKw
    requires next == [LParen] + ([base] + tail) && tail == Repeat(t / 2) + ([RParen] + rest)
    ensures Sizeof(next, code) == Parser.Ok(rest, code + [IMM, if t == CHAR then 1 else 4], INT)
  {
    hide Stars, Repeat;
    Ahead(LParen, [base] + tail);
    Ahead(base, tail);
    Ahead(RParen, rest);
    StarsRead(t / 2, [RParen] + rest, t % 2);
  }

  lemma CastParses(e: Expr, rest: seq<Token>, code: seq<int>, lev: int, sc: Scope)
    requires e.Cast? && WellTyped(e, sc) && Stops(rest, INC)
    ensures Spine(e, Print(e), rest, code, lev, sc)
    decreases e, 0
  {
    hide Expression, Climb, PrintAt, Gen;
    var t := e.to;
    var base := if t % 2 == 0 then CharKw else IntKw;
    var operand := PrintAt(e.e, UnaryTier) + rest;
    var tail := Repeat(t / 2) + ([RParen] + operand);
    assert Print(e) + rest == [LParen] + ([base] + tail);
    WholeParses(e.e, UnaryTier, rest, code, sc);
    CastStep(t, base, operand, rest, code, code + Gen(e.e, sc, |code|), TypeOf(e.e, sc), sc);
    CastCode(e, sc, |code|);
    FromPrefix([LParen] + ([base] + tail), e, rest, code, lev, sc);
  }

  lemma CastCode(e: Expr, sc: Scope, at: int)
    requires e.Cast?
    ensures Gen(e, sc, at) == Gen(e.e, sc, at)
  {
  }

  lemma CastStep(t: Type, base: Token, operand: seq<Token>, rest: seq<Token>, code: seq<int>, c: seq<int>, ty: Type, sc: Scope)
    requires base == if t % 2 == 0 then CharKw else IntKw
    requires Expression(operand, code, INC, sc) == Parser.Ok(rest, c, ty)
    ensures Prefix([LParen] + ([base] + (Repeat(t / 2) + ([RParen] + operand))), code, sc) == Parser.Ok(rest, c, t)
  {
    hide Expression;
    var tail := Repeat(t / 2) + ([RParen] + operand);
    Ahead(LParen, [base] + tail);
    Ahead(base, tail);
    Ahead(RParen, operand);
    StarsRead(t / 2, [RParen] + operand, t % 2);
  }

  lemma FromPrefix(toks: seq<Token>, e: Expr, rest: seq<Token>, code: seq<int>, lev: int, sc: Scope)
    requires Prefix(toks, code, sc) == Parser.Ok(rest, code + Gen(e, sc, |code|), TypeOf(e, sc))
    ensures Expression(toks, code, lev, sc) == Climb(rest, code + Gen(e, sc, |code|), TypeOf(e, sc), lev, sc)
  {
    hide Climb, Prefix, Gen, TypeOf;
  }

  /** The left operand, then one infix or postfix operator. */
  lemma FromInfix(toks: seq<Token>, mid: seq<Token>, c: seq<int>, ty: Type, e: Expr, rest: seq<Token>,
                  code: seq<int>, lev: int, sc: Scope)
    requires mid != [] && lev <= Rank(mid[0])
    requires Expression(toks, code, lev, sc) == Climb(mid, c, ty, lev, sc)
    requires Infix(mid, c, ty, sc) == Parser.Ok(rest, code + Gen(e, sc, |code|), TypeOf(e, sc))
    ensures Expression(toks, code, lev, sc) == Climb(rest, code + Gen(e, sc, |code|), TypeOf(e, sc), lev, sc)
  {
    hide Infix, Expression, Gen, TypeOf;
  }

  /** What a prefix operator makes of its operand's code and type. */
  lemma PrefixStep(tok: Token, operand: seq<Token>, rest: seq<Token>, code: seq<int>, c: seq<int>, ty: Type, sc: Scope)
    requires Expression(operand, code, INC, sc) == Parser.Ok(rest, c, ty)
    ensures tok == OpTok(Mul) && ty > INT ==>
      Prefix([tok] + operand, code, sc) == Parser.Ok(rest, c + [LoadOp(ty - PTR == CHAR)], ty - PTR)
    ensures tok == OpTok(And) && EndsInLoad(c) ==> Prefix([tok] + operand, code, sc) == Parser.Ok(rest, DropLast(c), ty + PTR)
    ensures tok == OpTok(Add) ==> Prefix([tok] + operand, code, sc) == Parser.Ok(rest, c, INT)
    ensures tok == Bang ==> Prefix([tok] + operand, code, sc) == Parser.Ok(rest, c + [PSH, IMM, 0, EQ], INT)
    ensures tok == Tilde ==> Prefix([tok] + operand, code, sc) == Parser.Ok(rest, c + [PSH, IMM, -1, XOR], INT)
    ensures tok == IncTok && EndsInLoad(c) ==>
      Prefix([tok] + operand, code, sc) == Parser.Ok(rest, Reload(c) + StepCode(true, ty), ty)
    ensures tok == DecTok && EndsInLoad(c) ==>
      Prefix([tok] + operand, code, sc) == Parser.Ok(rest, Reload(c) + StepCode(false, ty), ty)
  {
    hide Expression, EndsInLoad, Reload, DropLast, StepCode;
    Ahead(tok, operand);
  }

  /** Prefix operators other than minus. */
  lemma PrefixParses(e: Expr, d: Expr, tok: Token, rest: seq<Token>, code: seq<int>, lev: int, sc: Scope)
    requires WellTyped(e, sc) && Stops(rest, INC)
    requires (e.Deref? && d == e.e && tok == OpTok(Mul)) || (e.AddrOf? && d == e.e && tok == OpTok(And))
      || (e.Unary? && e.uop != Neg && d == e.e && tok == UnToken(e.uop)) || (e.PreStep? && d == e.e && tok == StepToken(e.up))
    ensures Spine(e, Print(e), rest, code, lev, sc)
    decreases e, 0
  {
    hide Expression, Prefix, Climb, PrintAt, Gen, EndsInLoad, DropLast, Reload, StepCode, LoadOp;
    var operand := PrintAt(d, UnaryTier) + rest;
    assert Print(e) + rest == [tok] + operand;
    WholeParses(d, UnaryTier, rest, code, sc);
    var c := code + Gen(d, sc, |code|);
    PrefixStep(tok, operand, rest, code, c, TypeOf(d, sc), sc);
    PrefixCode(e, d, code, sc);
    FromPrefix([tok] + operand, e, rest, code, lev, sc);
  }

  lemma PrefixCode(e: Expr, d: Expr, code: seq<int>, sc: Scope)
    requires e.AddrOf? || e.PreStep? ==> IsPlace(d, sc)
    requires (e.Deref? && d == e.e) || (e.AddrOf? && d == e.e) || (e.Unary? && e.uop != Neg && d == e.e) || (e.PreStep? && d == e.e)
    ensures var c := code + Gen(d, sc, |code|); var ty := TypeOf(d, sc); var all := code + Gen(e, sc, |code|);
      && (e.AddrOf? || e.PreStep? ==> EndsInLoad(c))
      && (e.Deref? ==> all == c + [LoadOp(TypeOf(e, sc) == CHAR)])
      && (e.AddrOf? ==> all == DropLast(c))
      && (e.Unary? ==> all == c + UnaryTail(e.uop))
      && (e.PreStep? ==> all == Reload(c) + StepCode(e.up, ty))
  {
    hide Gen, GenAddr, EndsInLoad, DropLast, Last, IsPlace, ReadsChar, LoadToPush, Reload, TypeOf, StepCode, StepTail, LoadOp, UnaryTail;
    var ty := TypeOf(d, sc);
    if e.AddrOf? || e.PreStep? {
      PlaceUses(e, sc, |code|);
      PlaceEnds(d, code, sc);
      if e.PreStep? {
        StepJoins(e.up, ReadsChar(d, sc), ty);
        Assoc4(code, GenAddr(d, sc, |code|), [PSH, LoadOp(ReadsChar(d, sc))], StepCode(e.up, ty));
        Assoc(GenAddr(d, sc, |code|), [PSH, LoadOp(ReadsChar(d, sc))], StepCode(e.up, ty));
      }
    } else {
      UnaryUses(e, d, sc, |code|);
      Assoc(code, Gen(d, sc, |code|), if e.Deref? then [LoadOp(TypeOf(e, sc) == CHAR)] else UnaryTail(e.uop));
    }
  }

  lemma StepJoins(up: bool, isChar: bool, ty: Type)
    ensures [PSH, LoadOp(isChar)] + StepCode(up, ty) == StepTail(up, isChar, ty)
  {
  }

  lemma UnaryUses(e: Expr, d: Expr, sc: Scope, at: int)
    ensures e.Deref? && d == e.e ==> Gen(e, sc, at) == Gen(d, sc, at) + [LoadOp(TypeOf(e, sc) == CHAR)]
    ensures e.Unary? && e.uop != Neg && d == e.e ==> Gen(e, sc, at) == Gen(d, sc, at) + UnaryTail(e.uop)
  {
  }

  /** How the code of an expression uses the address of the place in it. */
  lemma PlaceUses(e: Expr, sc: Scope, at: int)
    ensures e.AddrOf? ==> Gen(e, sc, at) == GenAddr(e.e, sc, at)
    ensures e.PreStep? ==> Gen(e, sc, at) == GenAddr(e.e, sc, at) + StepTail(e.up, ReadsChar(e.e, sc), TypeOf(e.e, sc))
    ensures e.PostStep? ==>
      var ty := TypeOf(e.e, sc);
      Gen(e, sc, at) == GenAddr(e.e, sc, at) + StepTail(e.up, ReadsChar(e.e, sc), ty) + [PSH, IMM, Stride(ty), StepOp(!e.up)]
    ensures e.Assign? ==>
      var addr := GenAddr(e.l, sc, at) + [PSH];
      Gen(e, sc, at) == addr + Gen(e.r, sc, at + |addr|) + [StoreOp(TypeOf(e.l, sc))]
  {
  }

  lemma PlaceEnds(d: Expr, code: seq<int>, sc: Scope)
    requires IsPlace(d, sc)
    ensures var c := code + Gen(d, sc, |code|); var addr := code + GenAddr(d, sc, |code|);
      && EndsInLoad(c) && DropLast(c) == addr && LoadToPush(c) == addr + [PSH]
      && Reload(c) == addr + [PSH, LoadOp(ReadsChar(d, sc))]
  {
    hide Gen, GenAddr, EndsInLoad, DropLast, Last, IsPlace, ReadsChar, LoadOp;
    PlaceCode(d, sc, |code|);
    var load := LoadOp(ReadsChar(d, sc));
    LoadEnds(code, GenAddr(d, sc, |code|), ReadsChar(d, sc));
    Assoc(code + GenAddr(d, sc, |code|), [PSH], [load]);
    assert [PSH] + [load] == [PSH, load];
  }

  /** The last word of a place's code is its load, and dropping it leaves the address. */
  lemma LoadEnds(code: seq<int>, addr: seq<int>, isChar: bool)
    ensures var c := code + (addr + [LoadOp(isChar)]);
      EndsInLoad(c) && Last(c) == LoadOp(isChar) && DropLast(c) == code + addr
  {
    var c := code + (addr + [LoadOp(isChar)]);
    assert c[..|c| - 1] == code + addr;
  }

  lemma NegParses(e: Expr, rest: seq<Token>, code: seq<int>, lev: int, sc: Scope)
    requires e.Unary? && e.uop == Neg && WellTyped(e, sc) && Stops(rest, INC)
    ensures Spine(e, Print(e), rest, code, lev, sc)
    decreases e, 0
  {
    hide Expression, Climb, Gen, PrintAt;
    var operand := PrintAt(e.e, UnaryTier) + rest;
    assert Print(e) + rest == [OpTok(Sub)] + operand;
    FirstTokenAt(e.e, UnaryTier, rest, sc);
    NegCode(e, code, sc);
    if e.e.Lit? {
      LiteralPrints(e.e);
      Ahead(OpTok(Sub), operand);
      Ahead(Num(e.e.n), rest);
    } else {
      WholeParses(e.e, UnaryTier, rest, code + [IMM, -1, PSH], sc);
      Ahead(OpTok(Sub), operand);
    }
    FromPrefix([OpTok(Sub)] + operand, e, rest, code, lev, sc);
  }

  lemma LiteralPrints(e: Expr)
    requires e.Lit?
    ensures PrintAt(e, UnaryTier) == [Num(e.n)]
  {
    Numbered(UnaryTier, PostfixTier);
  }

  lemma NegCode(e: Expr, code: seq<int>, sc: Scope)
    requires e.Unary? && e.uop == Neg
    ensures e.e.Lit? ==> Gen(e, sc, |code|) == [IMM, Negated(e.e.n)]
    ensures !e.e.Lit? ==>
      var c1 := code + [IMM, -1, PSH]; c1 + Gen(e.e, sc, |c1|) + [MUL] == code + Gen(e, sc, |code|)
  {
    if !e.e.Lit? { Assoc4(code, [IMM, -1, PSH], Gen(e.e, sc, |code| + 3), [MUL]); }
  }

  lemma PostStepParses(e: Expr, rest: seq<Token>, code: seq<int>, lev: int, sc: Scope)
    requires e.PostStep? && WellTyped(e, sc) && ASSIGN <= lev <= INC && Stops(rest, PRIMARY)
    ensures Spine(e, Print(e), rest, code, lev, sc)
    decreases e, 0
  {
    hide Expression, Climb, PrintAt, Gen;
    var tok := StepToken(e.up);
    var mid := [tok] + rest;
    assert Print(e) + rest == PrintAt(e.e, PostfixTier) + mid;
    Ahead(tok, rest);
    Levels(e.e);
    OperandParses(e.e, PostfixTier, mid, code, lev, sc);
    PostStepEmits(e, code, sc);
    FromInfix(Print(e) + rest, mid, code + Gen(e.e, sc, |code|), TypeOf(e.e, sc), e, rest, code, lev, sc);
  }

  lemma PostStepEmits(e: Expr, code: seq<int>, sc: Scope)
    requires e.PostStep? && IsPlace(e.e, sc)
    ensures var c := code + Gen(e.e, sc, |code|); var ty := TypeOf(e.e, sc);
      EndsInLoad(c) && Reload(c) + StepCode(e.up, ty) + [PSH, IMM, Stride(ty), StepOp(!e.up)] == code + Gen(e, sc, |code|)
  {
    hide Gen, GenAddr, EndsInLoad, DropLast, Last, IsPlace, ReadsChar, LoadToPush, Reload, TypeOf, StepCode, StepTail, LoadOp;
    PlaceUses(e, sc, |code|);
    PlaceEnds(e.e, code, sc);
    var ty := TypeOf(e.e, sc);
    var a, x, y := GenAddr(e.e, sc, |code|), [PSH, LoadOp(ReadsChar(e.e, sc))], StepCode(e.up, ty);
    StepJoins(e.up, ReadsChar(e.e, sc), ty);
    Assoc4(code, a, x, y);
    Assoc(a, x, y);
    Assoc(code, a + (x + y), [PSH, IMM, Stride(ty), StepOp(!e.up)]);
  }

  lemma IndexParses(e: Expr, rest: seq<Token>, code: seq<int>, lev: int, sc: Scope)
    requires e.Index? && WellTyped(e, sc) && ASSIGN <= lev <= INC && Stops(rest, PRIMARY)
    ensures Spine(e, Print(e), rest, code, lev, sc)
    decreases e, 0
  {
    hide Expression, Climb, PrintAt, Gen, BinTail, Infix, LoadOp;
    var after := [RBrack] + rest;
    var inner := PrintAt(e.i, AssignTier) + after;
    var mid := [BrakTok] + inner;
    assert Print(e) + rest == PrintAt(e.a, PostfixTier) + mid;
    Ahead(BrakTok, inner);
    Ahead(RBrack, rest);
    Levels(e.a);
    OperandParses(e.a, PostfixTier, mid, code, lev, sc);
    var c := code + Gen(e.a, sc, |code|);
    var c1 := c + [PSH];
    WholeParses(e.i, AssignTier, after, c1, sc);
    IndexStep(inner, rest, c, TypeOf(e.a, sc), c1 + Gen(e.i, sc, |c1|), TypeOf(e.i, sc), sc);
    IndexCode(e, code, sc);
    FromInfix(Print(e) + rest, mid, c, TypeOf(e.a, sc), e, rest, code, lev, sc);
  }

  lemma IndexStep(inner: seq<Token>, rest: seq<Token>, c: seq<int>, ty: Type, ci: seq<int>, ti: Type, sc: Scope)
    requires Expression(inner, c + [PSH], ASSIGN, sc) == Parser.Ok([RBrack] + rest, ci, ti) && ty >= PTR
    ensures Infix([BrakTok] + inner, c, ty, sc)
         == Parser.Ok(rest, ci + BinTail(Add, ty, INT) + [LoadOp(ty - PTR == CHAR)], ty - PTR)
  {
    hide Expression, BinTail, LoadOp;
    Ahead(BrakTok, inner);
    Ahead(RBrack, rest);
  }

  lemma IndexUses(e: Expr, sc: Scope, at: int)
    requires e.Index?
    ensures var base := Gen(e.a, sc, at) + [PSH];
      Gen(e, sc, at) == base + Gen(e.i, sc, at + |base|) + BinTail(Add, TypeOf(e.a, sc), INT) + [LoadOp(TypeOf(e, sc) == CHAR)]
  {
    hide BinTail, LoadOp;
  }

  lemma IndexCode(e: Expr, code: seq<int>, sc: Scope)
    requires e.Index?
    ensures var c1 := code + Gen(e.a, sc, |code|) + [PSH];
      c1 + Gen(e.i, sc, |c1|) + BinTail(Add, TypeOf(e.a, sc), INT) + [LoadOp(TypeOf(e, sc) == CHAR)] == code + Gen(e, sc, |code|)
  {
    hide BinTail, LoadOp, Gen, TypeOf;
    IndexUses(e, sc, |code|);
    var ca := Gen(e.a, sc, |code|);
    var cb := Gen(e.i, sc, |code| + |ca| + 1);
    var tail := BinTail(Add, TypeOf(e.a, sc), INT);
    Assoc4(code, ca, [PSH], cb);
    Assoc4(code, ca + [PSH] + cb, tail, [LoadOp(TypeOf(e, sc) == CHAR)]);
  }

  lemma AssignParses(e: Expr, rest: seq<Token>, code: seq<int>, lev: int, sc: Scope)
    requires e.Assign? && WellTyped(e, sc) && lev == ASSIGN && Stops(rest, ASSIGN)
    ensures Spine(e, Print(e), rest, code, lev, sc)
    decreases e, 0
  {
    hide Expression, Climb, PrintAt, Gen;
    var mid := [AssignTok] + (PrintAt(e.r, AssignTier) + rest);
    assert Print(e) + rest == PrintAt(e.l, UnaryTier) + mid;
    Ahead(AssignTok, PrintAt(e.r, AssignTier) + rest);
    Levels(e.l);
    OperandParses(e.l, UnaryTier, mid, code, lev, sc);
    var c := code + Gen(e.l, sc, |code|);
    WholeParses(e.r, AssignTier, rest, LoadToPush(c), sc);
    AssignCode(e, code, sc);
    FromInfix(Print(e) + rest, mid, c, TypeOf(e.l, sc), e, rest, code, lev, sc);
  }

  lemma AssignCode(e: Expr, code: seq<int>, sc: Scope)
    requires e.Assign? && IsPlace(e.l, sc)
    ensures var c := code + Gen(e.l, sc, |code|); var c1 := LoadToPush(c);
      EndsInLoad(c) && c1 + Gen(e.r, sc, |c1|) + [StoreOp(TypeOf(e.l, sc))] == code + Gen(e, sc, |code|)
  {
    hide Gen, GenAddr, EndsInLoad, DropLast, Last, IsPlace, ReadsChar, LoadToPush, TypeOf;
    PlaceUses(e, sc, |code|);
    PlaceEnds(e.l, code, sc);
    var ca := GenAddr(e.l, sc, |code|);
    var cb := Gen(e.r, sc, |code| + |ca| + 1);
    Assoc4(code, ca, [PSH], cb);
    Assoc(code, ca + [PSH] + cb, [StoreOp(TypeOf(e.l, sc))]);
  }

  /** A left operand printed at its operator's level does not eat the operator. */
  lemma LeftBinds(a: Expr, op: BinOp)
    requires !Tighter(OpTier(op), TierOf(a))
    ensures OpRank(op) < Bound(a)
  {
    Numbered(OpTier(op), TierOf(a));
  }

  lemma BinParses(e: Expr, rest: seq<Token>, code: seq<int>, lev: int, sc: Scope)
    requires e.Bin? && WellTyped(e, sc) && ASSIGN <= lev <= Level(e) && Stops(rest, Bound(e))
    ensures Spine(e, Print(e), rest, code, lev, sc)
    decreases e, 0
  {
    hide Expression, Climb, PrintAt, Gen, BinTail, BinType, Tighter, Number, OpTier, InnerTier, OpRank, RightLevel;
    var op := e.bop;
    InnerNumber(op);
    var mid := [OpTok(op)] + (PrintAt(e.b, InnerTier(op)) + rest);
    assert Print(e) + rest == PrintAt(e.a, OpTier(op)) + mid;
    Ahead(OpTok(op), PrintAt(e.b, InnerTier(op)) + rest);
    Levels(e);
    Numbered(OpTier(op), TierOf(e.a));
    if !Tighter(OpTier(op), TierOf(e.a)) { LeftBinds(e.a, op); }
    OperandParses(e.a, OpTier(op), mid, code, lev, sc);
    var c := code + Gen(e.a, sc, |code|);
    WholeParses(e.b, InnerTier(op), rest, c + [PSH], sc);
    BinCode(e, code, sc);
    FromInfix(Print(e) + rest, mid, c, TypeOf(e.a, sc), e, rest, code, lev, sc);
  }

  lemma BinCode(e: Expr, code: seq<int>, sc: Scope)
    requires e.Bin?
    ensures var c1 := code + Gen(e.a, sc, |code|) + [PSH];
      c1 + Gen(e.b, sc, |c1|) + BinTail(e.bop, TypeOf(e.a, sc), TypeOf(e.b, sc)) == code + Gen(e, sc, |code|)
  {
    hide BinTail;
    var ca := Gen(e.a, sc, |code|);
    var cb := Gen(e.b, sc, |code| + |ca| + 1);
    Assoc4(code, ca, [PSH], cb);
    Assoc(code, ca + [PSH] + cb, BinTail(e.bop, TypeOf(e.a, sc), TypeOf(e.b, sc)));
  }

  lemma PatchHole(c: seq<int>, op: int, mid: seq<int>, v: int)
    ensures Patch(c + [op, 0] + mid, |c| + 1, v) == c + [op, v] + mid
  {
  }

  lemma ShortParses(e: Expr, rest: seq<Token>, code: seq<int>, lev: int, sc: Scope)
    requires (e.OrElse? || e.AndAlso?) && WellTyped(e, sc) && ASSIGN <= lev <= Level(e) && Stops(rest, Bound(e))
    ensures Spine(e, Print(e), rest, code, lev, sc)
    decreases e, 0
  {
    hide Expression, Climb, PrintAt, Gen, Patch, Infix, Print, TypeOf, WellTyped, Peek, Rest, Tighter;
    hide Number, TierOf, Level, Bound, Rank, OpRank;
    ShortTypes(e, sc);
    ShortNumbers(e);
    var tok, op := if e.OrElse? then LorTok else LanTok, if e.OrElse? then BNZ else BZ;
    var inner := if e.OrElse? then LanTier else OrTier;
    var right := PrintAt(e.b, inner) + rest;
    var mid := [tok] + right;
    ShortPrints(e, rest);
    Ahead(tok, right);
    Levels(e.a);
    OperandParses(e.a, TierOf(e), mid, code, lev, sc);
    var c := code + Gen(e.a, sc, |code|);
    WholeParses(e.b, inner, rest, c + [op, 0], sc);
    var cb := Gen(e.b, sc, |c| + 2);
    ShortStep(tok, right, rest, c, cb, TypeOf(e.a, sc), TypeOf(e.b, sc), sc);
    ShortCode(e, code, sc);
    FromInfix(Print(e) + rest, mid, c, TypeOf(e.a, sc), e, rest, code, lev, sc);
  }

  /** A left operand that needs no parentheses does not eat the operator. */
  lemma ShortNumbers(e: Expr)
    requires e.OrElse? || e.AndAlso?
    ensures ASSIGN <= Level(e) == Number(TierOf(e)) == Rank(if e.OrElse? then LorTok else LanTok) <= INC
    ensures Number(if e.OrElse? then LanTier else OrTier) == Bound(e) <= INC
    ensures Bound(e) == if e.OrElse? then LAN else OpRank(Or)
    ensures Level(e.a) >= Level(e) ==> Level(e) < Bound(e.a)
  {
  }

  lemma ShortTypes(e: Expr, sc: Scope)
    requires (e.OrElse? || e.AndAlso?) && WellTyped(e, sc)
    ensures WellTyped(e.a, sc) && WellTyped(e.b, sc) && TypeOf(e, sc) == INT
  {
  }

  lemma ShortPrints(e: Expr, rest: seq<Token>)
    requires e.OrElse? || e.AndAlso?
    ensures Print(e) + rest
         == PrintAt(e.a, TierOf(e))
            + ([if e.OrElse? then LorTok else LanTok] + (PrintAt(e.b, if e.OrElse? then LanTier else OrTier) + rest))
  {
    hide PrintAt;
  }

  lemma ShortStep(tok: Token, right: seq<Token>, rest: seq<Token>, c: seq<int>, cb: seq<int>, ta: Type, tb: Type, sc: Scope)
    requires tok == LorTok || tok == LanTok
    requires var op := if tok == LorTok then BNZ else BZ;
      Expression(right, c + [op, 0], if tok == LorTok then LAN else OpRank(Or), sc) == Parser.Ok(rest, c + [op, 0] + cb, tb)
    ensures var op := if tok == LorTok then BNZ else BZ;
      Infix([tok] + right, c, ta, sc) == Parser.Ok(rest, c + [op, |c| + 2 + |cb|] + cb, INT)
  {
    hide Expression, Patch;
    var op := if tok == LorTok then BNZ else BZ;
    Ahead(tok, right);
    PatchHole(c, op, cb, |c| + 2 + |cb|);
  }

  lemma ShortCode(e: Expr, code: seq<int>, sc: Scope)
    requires e.OrElse? || e.AndAlso?
    ensures var c := code + Gen(e.a, sc, |code|); var cb := Gen(e.b, sc, |c| + 2);
      c + [if e.OrElse? then BNZ else BZ, |c| + 2 + |cb|] + cb == code + Gen(e, sc, |code|)
  {
    var ca := Gen(e.a, sc, |code|);
    var cb := Gen(e.b, sc, |code| + |ca| + 2);
    Assoc4(code, ca, [if e.OrElse? then BNZ else BZ, |code| + |ca| + 2 + |cb|], cb);
  }

  lemma CondParses(e: Expr, rest: seq<Token>, code: seq<int>, lev: int, sc: Scope)
    requires e.Cond? && WellTyped(e, sc) && ASSIGN <= lev <= COND && Stops(rest, COND)
    ensures Spine(e, Print(e), rest, code, lev, sc)
    decreases e, 0
  {
    hide Expression, Climb, PrintAt, Gen, Patch, Infix, WellTyped, TypeOf, Tighter;
    hide Number, TierOf, Level, Bound, Rank, OpRank;
    CondTyped(e, sc);
    CondNumbers(e.c);
    var last := PrintAt(e.b, CondTier) + rest;
    var yes := PrintAt(e.a, AssignTier) + ([Colon] + last);
    var mid := [CondTok] + yes;
    assert Print(e) + rest == PrintAt(e.c, LorTier) + mid;
    Ahead(CondTok, yes);
    Ahead(Colon, last);
    Levels(e.c);
    OperandParses(e.c, LorTier, mid, code, lev, sc);
    var c := code + Gen(e.c, sc, |code|);
    var c1 := c + [BZ, 0];
    WholeParses(e.a, AssignTier, [Colon] + last, c1, sc);
    var ca := Gen(e.a, sc, |c1|);
    var c3 := c + [BZ, |c1| + |ca| + 2] + ca + [JMP, 0];
    WholeParses(e.b, CondTier, rest, c3, sc);
    var cb := Gen(e.b, sc, |c3|);
    CondStep(yes, last, rest, c, TypeOf(e.c, sc), ca, TypeOf(e.a, sc), cb, TypeOf(e.b, sc), sc);
    CondCode(e, code, sc);
    FromInfix(Print(e) + rest, mid, c, TypeOf(e.c, sc), e, rest, code, lev, sc);
  }

  /** Both branch operands are filled in: past the jump, and past the end. */
  /** A test that needs no parentheses does not eat the question mark; a colon stops everything. */
  lemma CondNumbers(c: Expr)
    ensures Number(AssignTier) == ASSIGN && Number(CondTier) == COND && Number(LorTier) == LOR
    ensures Rank(CondTok) == COND && Rank(Colon) == 0 && (Level(c) >= LOR ==> COND < Bound(c))
  {
  }

  lemma CondStep(yes: seq<Token>, last: seq<Token>, rest: seq<Token>, c: seq<int>, tc: Type, ca: seq<int>, ta: Type,
                 cb: seq<int>, tb: Type, sc: Scope)
    requires Expression(yes, c + [BZ, 0], ASSIGN, sc) == Parser.Ok([Colon] + last, c + [BZ, 0] + ca, ta)
    requires var c3 := c + [BZ, |c| + 2 + |ca| + 2] + ca + [JMP, 0];
      Expression(last, c3, COND, sc) == Parser.Ok(rest, c3 + cb, tb)
    ensures var no := |c| + 2 + |ca| + 2;
      Infix([CondTok] + yes, c, tc, sc) == Parser.Ok(rest, c + [BZ, no] + ca + [JMP, no + |cb|] + cb, tb)
  {
    hide Expression, Patch;
    var no := |c| + 2 + |ca| + 2;
    var c2 := c + [BZ, no] + ca;
    Ahead(CondTok, yes);
    Ahead(Colon, last);
    PatchHole(c, BZ, ca, no);
    PatchHole(c2, JMP, cb, no + |cb|);
  }

  lemma CondUses(e: Expr, sc: Scope, at: int)
    requires e.Cond?
    ensures var t := Gen(e.c, sc, at); var ca := Gen(e.a, sc, at + |t| + 2); var no := at + |t| + 2 + |ca| + 2;
      var cb := Gen(e.b, sc, no);
      Gen(e, sc, at) == t + [BZ, no] + ca + [JMP, no + |cb|] + cb
  {
  }

  lemma CondCode(e: Expr, code: seq<int>, sc: Scope)
    requires e.Cond?
    ensures var c := code + Gen(e.c, sc, |code|); var ca := Gen(e.a, sc, |c| + 2); var no := |c| + 2 + |ca| + 2;
      var cb := Gen(e.b, sc, no);
      c + [BZ, no] + ca + [JMP, no + |cb|] + cb == code + Gen(e, sc, |code|)
  {
    hide Gen;
    CondUses(e, sc, |code|);
    var t := Gen(e.c, sc, |code|);
    assert |code + t| == |code| + |t|;
    var ca := Gen(e.a, sc, |code| + |t| + 2);
    var no := |code| + |t| + 2 + |ca| + 2;
    var cb := Gen(e.b, sc, no);
    Assoc6(code, t, [BZ, no], ca, [JMP, no + |cb|], cb);
  }

  lemma CallParses(e: Expr, rest: seq<Token>, code: seq<int>, lev: int, sc: Scope)
    requires e.Call? && WellTyped(e, sc)
    ensures Spine(e, Print(e), rest, code, lev, sc)
    decreases e, 0
  {
    hide Expression, Climb, PrintArgs, Arguments, GenArgs, Prefix, Gen;
    var list := PrintArgs(e.args) + ([RParen] + rest);
    var toks := [Id(e.g)] + ([LParen] + list);
    assert Print(e) + rest == toks;
    ArgsParse(e.args, rest, code, 0, sc);
    CallCode(e, sc, code);
    CallStep(e.g, list, rest, code, code + GenArgs(e.args, sc, |code|), Count(e.args), sc);
    FromPrefix(toks, e, rest, code, lev, sc);
  }

  lemma CallStep(g: Name, list: seq<Token>, rest: seq<Token>, code: seq<int>, c: seq<int>, n: nat, sc: Scope)
    requires g in sc.env && (sc.env[g].cls.FunClass? || sc.env[g].cls.SysClass?)
    requires Arguments(list, code, 0, sc) == Parser.Ok(rest, c, n)
    ensures var c1 := c + (if sc.env[g].cls.SysClass? then [sc.env[g].val] else [JSR, sc.env[g].val]);
      Prefix([Id(g)] + ([LParen] + list), code, sc) == Parser.Ok(rest, if n > 0 then c1 + [ADJ, n] else c1, sc.env[g].ty)
  {
    hide Arguments;
    Ahead(Id(g), [LParen] + list);
    Ahead(LParen, list);
    assert NameUse(g, [LParen] + list, code, sc) == CallUse(g, list, code, sc);
  }

  lemma CallCode(e: Expr, sc: Scope, code: seq<int>)
    requires e.Call? && WellTyped(e, sc)
    ensures var c := code + GenArgs(e.args, sc, |code|); var n := Count(e.args);
      var c1 := c + (if sc.env[e.g].cls.SysClass? then [sc.env[e.g].val] else [JSR, sc.env[e.g].val]);
      code + Gen(e, sc, |code|) == if n > 0 then c1 + [ADJ, n] else c1
  {
    CallUses(e, sc, |code|);
    hide Gen, WellTyped, GenArgs;
    var a, t := GenArgs(e.args, sc, |code|), GenTransfer(e.g, sc);
    if Count(e.args) > 0 { Assoc4(code, a, t, [ADJ, Count(e.args)]); } else { Assoc(code, a, t); assert a + t + [] == a + t; }
  }

  lemma CallUses(e: Expr, sc: Scope, at: int)
    requires e.Call?
    ensures Gen(e, sc, at) ==
      GenArgs(e.args, sc, at) + GenTransfer(e.g, sc) + (if Count(e.args) > 0 then [ADJ, Count(e.args)] else [])
  {
  }

  lemma ArgsParse(args: Args, rest: seq<Token>, code: seq<int>, n: nat, sc: Scope)
    requires ArgsTyped(args, sc)
    ensures Arguments(PrintArgs(args) + ([RParen] + rest), code, n, sc)
         == Parser.Ok(rest, code + GenArgs(args, sc, |code|), n + Count(args))
    decreases args, 5
  {
    hide Expression, Gen, PrintAt, WellTyped, Arguments, GenArgs, PrintArgs, Peek, Rest;
    match args
    case NoArgs => NoArgument(rest, code, n, sc);
    case Arg(e, more) =>
      var list := PrintArgs(more) + ([RParen] + rest);
      var after := if more.NoArgs? then [RParen] + rest else [Comma] + list;
      ArgumentStream(e, more, rest);
      FirstTokenAt(e, AssignTier, after, sc);
      WholeParses(e, AssignTier, after, code, sc);
      var c := code + Gen(e, sc, |code|) + [PSH];
      ArgsParse(more, rest, c, n + 1, sc);
      OneArgument(PrintAt(e, AssignTier) + after, after, code, code + Gen(e, sc, |code|), TypeOf(e, sc), n, sc);
      ArgumentCode(e, more, code, sc);
  }

  /** The tokens of the first argument, and those after it. */
  lemma ArgumentStream(e: Expr, more: Args, rest: seq<Token>)
    ensures var list := PrintArgs(more) + ([RParen] + rest);
      var after := if more.NoArgs? then [RParen] + rest else [Comma] + list;
      && PrintArgs(Arg(e, more)) + ([RParen] + rest) == PrintAt(e, AssignTier) + after
      && Stops(after, ASSIGN) && (if Peek(after) == Comma then Rest(after) else after) == list
  {
    hide PrintAt;
    Ahead(RParen, rest);
    Ahead(Comma, PrintArgs(more) + ([RParen] + rest));
    if more.NoArgs? { assert PrintArgs(more) + ([RParen] + rest) == [RParen] + rest; }
  }

  lemma NoArgument(rest: seq<Token>, code: seq<int>, n: nat, sc: Scope)
    ensures Arguments(PrintArgs(NoArgs) + ([RParen] + rest), code, n, sc)
         == Parser.Ok(rest, code + GenArgs(NoArgs, sc, |code|), n)
  {
    assert PrintArgs(NoArgs) + ([RParen] + rest) == [RParen] + rest;
    Ahead(RParen, rest);
  }

  lemma OneArgument(toks: seq<Token>, after: seq<Token>, code: seq<int>, c: seq<int>, ty: Type, n: nat, sc: Scope)
    requires Peek(toks) != RParen && Expression(toks, code, ASSIGN, sc) == Parser.Ok(after, c, ty)
    ensures Arguments(toks, code, n, sc)
         == Arguments(if Peek(after) == Comma then Rest(after) else after, c + [PSH], n + 1, sc)
  {
    hide Expression;
  }

  lemma ArgumentCode(e: Expr, more: Args, code: seq<int>, sc: Scope)
    ensures var c := code + Gen(e, sc, |code|) + [PSH];
      c + GenArgs(more, sc, |c|) == code + GenArgs(Arg(e, more), sc, |code|)
  {
    hide Gen;
    var ce := Gen(e, sc, |code|);
    Assoc4(code, ce, [PSH], GenArgs(more, sc, |code| + |ce| + 1));
  }

  /** In parentheses any expression is a primary. */
  lemma ParenParses(e: Expr, rest: seq<Token>, code: seq<int>, lev: int, sc: Scope)
    requires WellTyped(e, sc)
    ensures Spine(e, [LParen] + Print(e) + [RParen], rest, code, lev, sc)
    decreases e, 2
  {
    hide Print, Gen, Expression, TypeOf, Prefix, WellTyped;
    var after := [RParen] + rest;
    var inner := Print(e) + after;
    Ahead(RParen, rest);
    FirstToken(e, sc);
    Levels(e);
    BareParses(e, after, code, ASSIGN, sc);
    assert Expression(inner, code, ASSIGN, sc) == Parser.Ok(after, code + Gen(e, sc, |code|), TypeOf(e, sc));
    assert ([LParen] + Print(e) + [RParen]) + rest == [LParen] + inner;
    ParenStep(inner, rest, code, code + Gen(e, sc, |code|), TypeOf(e, sc), sc);
    FromPrefix([LParen] + inner, e, rest, code, lev, sc);
  }

  lemma ParenStep(inner: seq<Token>, rest: seq<Token>, code: seq<int>, c: seq<int>, ty: Type, sc: Scope)
    requires Starts(Peek(inner)) && Expression(inner, code, ASSIGN, sc) == Parser.Ok([RParen] + rest, c, ty)
    ensures Prefix([LParen] + inner, code, sc) == Parser.Ok(rest, c, ty)
  {
    hide Expression;
    Ahead(LParen, inner);
    Ahead(RParen, rest);
  }

  lemma OperandParses(e: Expr, at: Tier, rest: seq<Token>, code: seq<int>, lev: int, sc: Scope)
    requires WellTyped(e, sc) && ASSIGN <= lev <= INC && lev <= Number(at)
    requires Level(e) >= Number(at) ==> Stops(rest, Bound(e))
    ensures Spine(e, PrintAt(e, at), rest, code, lev, sc)
    decreases e, 3
  {
    Numbered(at, TierOf(e));
    if Level(e) >= Number(at) { BareParses(e, rest, code, lev, sc); } else { ParenParses(e, rest, code, lev, sc); }
  }

  /** Printed where the grammar asks for tier t and followed by what stops that tier, e is compiled whole. */
  lemma WholeParses(e: Expr, t: Tier, rest: seq<Token>, code: seq<int>, sc: Scope)
    requires WellTyped(e, sc) && t != PostfixTier && Stops(rest, Number(t))
    ensures Expression(PrintAt(e, t) + rest, code, Number(t), sc)
         == Parser.Ok(rest, code + Gen(e, sc, |code|), TypeOf(e, sc))
    decreases e, 4
  {
    Levels(e);
    OperandParses(e, t, rest, code, Number(t), sc);
  }

  // ----- statements -----

  /** Tokens a statement can start with. */
  predicate StartsStmt(t: Token) {
    Starts(t) || t.IfKw? || t.WhileKw? || t.ReturnKw? || t.LBrace? || t.Semi?
  }

  lemma FirstOfStmt(s: Stmt, rest: seq<Token>, sc: Scope)
    requires StmtTyped(s, sc)
    ensures StartsStmt(Peek(PrintStmt(s) + rest))
  {
    hide PrintAt;
    if s.ExprStmt? {
      assert PrintStmt(s) + rest == PrintAt(s.e, AssignTier) + ([Semi] + rest);
      FirstTokenAt(s.e, AssignTier, [Semi] + rest, sc);
    }
  }

  /** An expression between a parenthesis and its partner, or up to a semicolon. */
  lemma Enclosed(e: Expr, close: Token, rest: seq<Token>, code: seq<int>, sc: Scope)
    requires WellTyped(e, sc) && (close == RParen || close == Semi)
    ensures Expression(PrintAt(e, AssignTier) + ([close] + rest), code, ASSIGN, sc)
         == Parser.Ok([close] + rest, code + Gen(e, sc, |code|), TypeOf(e, sc))
  {
    Ahead(close, rest);
    WholeParses(e, AssignTier, [close] + rest, code, sc);
  }

  // One unfolding of the statement compiler for each kind of statement, on abstract streams.

  lemma IfUnfolds(toks: seq<Token>, code: seq<int>, sc: Scope, t: seq<Token>, c: seq<int>, ty: Type, t1: seq<Token>, c1: seq<int>)
    requires Peek(toks) == IfKw && Peek(Rest(toks)) == LParen
    requires Expression(Rest(Rest(toks)), code, ASSIGN, sc) == Parser.Ok(t, c, ty) && Peek(t) == RParen
    requires Statement(Rest(t), c + [BZ, 0], sc) == Parser.Ok(t1, c1, INT) && Peek(t1) != ElseKw
    ensures Statement(toks, code, sc) == Parser.Ok(t1, Patch(c1, |c| + 1, |c1|), INT)
  {
    hide Expression, Patch;
    assert ElsePart(t1, c1, |c| + 1, sc) == Parser.Ok(t1, Patch(c1, |c| + 1, |c1|), INT);
    assert IfStatement(Rest(toks), code, sc) == ElsePart(t1, c1, |c| + 1, sc);
  }

  lemma IfElseUnfolds(toks: seq<Token>, code: seq<int>, sc: Scope, t: seq<Token>, c: seq<int>, ty: Type,
                      t1: seq<Token>, c1: seq<int>, t3: seq<Token>, c3: seq<int>)
    requires Peek(toks) == IfKw && Peek(Rest(toks)) == LParen
    requires Expression(Rest(Rest(toks)), code, ASSIGN, sc) == Parser.Ok(t, c, ty) && Peek(t) == RParen
    requires Statement(Rest(t), c + [BZ, 0], sc) == Parser.Ok(t1, c1, INT) && Peek(t1) == ElseKw
    requires Statement(Rest(t1), Patch(c1, |c| + 1, |c1| + 2) + [JMP, 0], sc) == Parser.Ok(t3, c3, INT)
    ensures Statement(toks, code, sc) == Parser.Ok(t3, Patch(c3, |Patch(c1, |c| + 1, |c1| + 2)| + 1, |c3|), INT)
  {
    hide Expression, Patch;
    var end := |Patch(c1, |c| + 1, |c1| + 2)|;
    assert ElsePart(t1, c1, |c| + 1, sc) == Parser.Ok(t3, Patch(c3, end + 1, |c3|), INT);
    assert IfStatement(Rest(toks), code, sc) == ElsePart(t1, c1, |c| + 1, sc);
  }

  lemma WhileUnfolds(toks: seq<Token>, code: seq<int>, sc: Scope, t: seq<Token>, c: seq<int>, ty: Type, t1: seq<Token>, c1: seq<int>)
    requires Peek(toks) == WhileKw && Peek(Rest(toks)) == LParen
    requires Expression(Rest(Rest(toks)), code, ASSIGN, sc) == Parser.Ok(t, c, ty) && Peek(t) == RParen
    requires Statement(Rest(t), c + [BZ, 0], sc) == Parser.Ok(t1, c1, INT)
    ensures var c2 := c1 + [JMP, |code|]; Statement(toks, code, sc) == Parser.Ok(t1, Patch(c2, |c| + 1, |c2|), INT)
  {
    hide Expression, Patch;
  }

  lemma SimpleUnfolds(toks: seq<Token>, code: seq<int>, sc: Scope)
    ensures Peek(toks) == LBrace ==> Statement(toks, code, sc) == Statements(Rest(toks), code, sc)
    ensures Peek(toks) == Semi ==> Statement(toks, code, sc) == Parser.Ok(Rest(toks), code, INT)
    ensures Peek(toks) == ReturnKw && Peek(Rest(toks)) == Semi ==>
      Statement(toks, code, sc) == Parser.Ok(Rest(Rest(toks)), code + [LEV], INT)
    ensures Peek(toks) == ReturnKw && Peek(Rest(toks)) != Semi ==>
      var r := Expression(Rest(toks), code, ASSIGN, sc);
      r.Ok? && Peek(r.toks) == Semi ==> Statement(toks, code, sc) == Parser.Ok(Rest(r.toks), r.code + [LEV], INT)
    ensures Starts(Peek(toks)) ==>
      var r := Expression(toks, code, ASSIGN, sc);
      r.Ok? && Peek(r.toks) == Semi ==> Statement(toks, code, sc) == Parser.Ok(Rest(r.toks), r.code, INT)
  {
    hide Expression, Statements;
  }

  lemma StatementsUnfold(toks: seq<Token>, code: seq<int>, sc: Scope)
    ensures Peek(toks) == RBrace ==> Statements(toks, code, sc) == Parser.Ok(Rest(toks), code, INT)
    ensures Peek(toks) != RBrace ==>
      var r := Statement(toks, code, sc);
      r.Ok? ==> Statements(toks, code, sc) == Statements(r.toks, r.code, sc)
  {
    hide Statement;
  }

  /** Compiling printed statements emits exactly their code; an else goes to the nearest if that lacks one. */
  lemma StmtParses(s: Stmt, rest: seq<Token>, code: seq<int>, sc: Scope)
    requires StmtTyped(s, sc) && (TakesElse(s) ==> Peek(rest) != ElseKw)
    ensures Statement(PrintStmt(s) + rest, code, sc) == Parser.Ok(rest, code + GenStmt(s, sc, |code|), INT)
    decreases s, 1
  {
    hide Expression, PrintAt, Gen, WellTyped, TypeOf, Statement, Statements, PrintStmts, GenStmts;
    SimpleUnfolds(PrintStmt(s) + rest, code, sc);
    match s
    case If(_, _) => IfParses(s, rest, code, sc);
    case IfElse(_, _, _) => IfElseParses(s, rest, code, sc);
    case While(_, _) => WhileParses(s, rest, code, sc);
    case Return(_) => ReturnParses(s, rest, code, sc);
    case ReturnNothing =>
      assert PrintStmt(s) + rest == [ReturnKw] + ([Semi] + rest);
      Ahead(ReturnKw, [Semi] + rest);
      Ahead(Semi, rest);
    case Block(body) =>
      var t := PrintStmts(body) + ([RBrace] + rest);
      assert PrintStmt(s) + rest == [LBrace] + t;
      Ahead(LBrace, t);
      StmtsParse(body, rest, code, sc);
    case Empty =>
      assert code + [] == code;
      Ahead(Semi, rest);
    case ExprStmt(_) => ExprStmtParses(s, rest, code, sc);
  }

  lemma ReturnStep(t: seq<Token>, rest: seq<Token>, code: seq<int>, c: seq<int>, ty: Type, sc: Scope)
    requires Starts(Peek(t)) && Expression(t, code, ASSIGN, sc) == Parser.Ok([Semi] + rest, c, ty)
    ensures Statement([ReturnKw] + t, code, sc) == Parser.Ok(rest, c + [LEV], INT)
  {
    hide Expression, Statement;
    SimpleUnfolds([ReturnKw] + t, code, sc);
    Ahead(ReturnKw, t);
    Ahead(Semi, rest);
  }

  lemma ReturnParses(s: Stmt, rest: seq<Token>, code: seq<int>, sc: Scope)
    requires s.Return? && WellTyped(s.e, sc)
    ensures Statement(PrintStmt(s) + rest, code, sc) == Parser.Ok(rest, code + GenStmt(s, sc, |code|), INT)
  {
    hide Expression, PrintAt, Gen, WellTyped, TypeOf, Statement, Peek, Starts;
    var t := PrintAt(s.e, AssignTier) + ([Semi] + rest);
    assert PrintStmt(s) + rest == [ReturnKw] + t;
    FirstTokenAt(s.e, AssignTier, [Semi] + rest, sc);
    Enclosed(s.e, Semi, rest, code, sc);
    ReturnStep(t, rest, code, code + Gen(s.e, sc, |code|), TypeOf(s.e, sc), sc);
    Assoc(code, Gen(s.e, sc, |code|), [LEV]);
  }

  lemma ExprStmtParses(s: Stmt, rest: seq<Token>, code: seq<int>, sc: Scope)
    requires s.ExprStmt? && WellTyped(s.e, sc)
    ensures Statement(PrintStmt(s) + rest, code, sc) == Parser.Ok(rest, code + GenStmt(s, sc, |code|), INT)
  {
    hide Expression, PrintAt, Gen, WellTyped, TypeOf, Statement, Peek, Rest;
    SimpleUnfolds(PrintStmt(s) + rest, code, sc);
    assert PrintStmt(s) + rest == PrintAt(s.e, AssignTier) + ([Semi] + rest);
    FirstTokenAt(s.e, AssignTier, [Semi] + rest, sc);
    Ahead(Semi, rest);
    Enclosed(s.e, Semi, rest, code, sc);
  }

  lemma StmtsParse(ss: Stmts, rest: seq<Token>, code: seq<int>, sc: Scope)
    requires StmtsTyped(ss, sc)
    ensures Statements(PrintStmts(ss) + ([RBrace] + rest), code, sc) == Parser.Ok(rest, code + GenStmts(ss, sc, |code|), INT)
    decreases ss, 1
  {
    hide Statement, Statements, PrintStmt, GenStmt, StmtTyped, GenStmts, PrintStmts, Peek, Rest;
    StatementsUnfold(PrintStmts(ss) + ([RBrace] + rest), code, sc);
    match ss
    case Done =>
      NoStatements(rest, code, sc);
      Ahead(RBrace, rest);
    case Then(s, more) =>
      var after := PrintStmts(more) + ([RBrace] + rest);
      MoreStatements(s, more, rest, code, sc);
      FirstOfStmt(s, after, sc);
      FirstAfter(more, rest, sc);
      StmtParses(s, after, code, sc);
      StmtsParse(more, rest, code + GenStmt(s, sc, |code|), sc);
  }

  lemma NoStatements(rest: seq<Token>, code: seq<int>, sc: Scope)
    ensures PrintStmts(Done) + ([RBrace] + rest) == [RBrace] + rest
    ensures code + GenStmts(Done, sc, |code|) == code
  {
  }

  lemma MoreStatements(s: Stmt, more: Stmts, rest: seq<Token>, code: seq<int>, sc: Scope)
    ensures PrintStmts(Then(s, more)) + ([RBrace] + rest) == PrintStmt(s) + (PrintStmts(more) + ([RBrace] + rest))
    ensures var c := code + GenStmt(s, sc, |code|); c + GenStmts(more, sc, |c|) == code + GenStmts(Then(s, more), sc, |code|)
  {
    hide PrintStmt, GenStmt;
    var first := GenStmt(s, sc, |code|);
    Assoc(code, first, GenStmts(more, sc, |code| + |first|));
    Assoc(PrintStmt(s), PrintStmts(more), [RBrace] + rest);
  }

  lemma FirstAfter(ss: Stmts, rest: seq<Token>, sc: Scope)
    requires StmtsTyped(ss, sc)
    ensures Peek(PrintStmts(ss) + ([RBrace] + rest)) != ElseKw
  {
    hide PrintStmt, StmtTyped;
    if ss.Then? {
      var after := PrintStmts(ss.rest) + ([RBrace] + rest);
      assert PrintStmts(ss) + ([RBrace] + rest) == PrintStmt(ss.s) + after;
      FirstOfStmt(ss.s, after, sc);
    }
  }

  lemma IfPrints(s: Stmt, rest: seq<Token>)
    requires s.If?
    ensures PrintStmt(s) + rest == [IfKw] + ([LParen] + (PrintAt(s.c, AssignTier) + ([RParen] + (PrintStmt(s.a) + rest))))
  {
    hide PrintAt;
  }

  lemma IfUses(s: Stmt, sc: Scope, at: int, t: seq<int>, ca: seq<int>, end: int)
    requires s.If? && t == Gen(s.c, sc, at) && ca == GenStmt(s.a, sc, at + |t| + 2) && end == at + |t| + 2 + |ca|
    ensures GenStmt(s, sc, at) == t + [BZ, end] + ca
  {
    hide Gen;
  }

  lemma IfCode(s: Stmt, sc: Scope, code: seq<int>, t: seq<int>, ca: seq<int>, end: int)
    requires s.If? && t == Gen(s.c, sc, |code|) && ca == GenStmt(s.a, sc, |code| + |t| + 2) && end == |code| + |t| + 2 + |ca|
    ensures code + t + [BZ, end] + ca == code + GenStmt(s, sc, |code|)
  {
    hide Gen, GenStmt;
    IfUses(s, sc, |code|, t, ca, end);
    Assoc4(code, t, [BZ, end], ca);
  }

  lemma IfFinish(toks: seq<Token>, code: seq<int>, sc: Scope, t: seq<Token>, c: seq<int>, ty: Type, ca: seq<int>,
                 rest: seq<Token>, end: int)
    requires Peek(toks) == IfKw && Peek(Rest(toks)) == LParen
    requires Expression(Rest(Rest(toks)), code, ASSIGN, sc) == Parser.Ok(t, c, ty) && Peek(t) == RParen
    requires Statement(Rest(t), c + [BZ, 0], sc) == Parser.Ok(rest, c + [BZ, 0] + ca, INT) && Peek(rest) != ElseKw
    requires end == |c| + 2 + |ca|
    ensures Statement(toks, code, sc) == Parser.Ok(rest, c + [BZ, end] + ca, INT)
  {
    hide Expression, Statement, Patch, Peek, Rest;
    assert |c + [BZ, 0] + ca| == end;
    IfUnfolds(toks, code, sc, t, c, ty, rest, c + [BZ, 0] + ca);
    PatchHole(c, BZ, ca, end);
  }

  lemma IfTyped(s: Stmt, sc: Scope)
    requires s.If? && StmtTyped(s, sc)
    ensures WellTyped(s.c, sc) && StmtTyped(s.a, sc)
  {
  }

  lemma IfParses(s: Stmt, rest: seq<Token>, code: seq<int>, sc: Scope)
    requires s.If? && StmtTyped(s, sc) && Peek(rest) != ElseKw
    ensures Statement(PrintStmt(s) + rest, code, sc) == Parser.Ok(rest, code + GenStmt(s, sc, |code|), INT)
    decreases s, 0
  {
    hide Expression, PrintAt, Gen, WellTyped, TypeOf, Patch, Statement, PrintStmt, GenStmt, Peek, Rest, StmtTyped;
    IfTyped(s, sc);
    var yes := PrintStmt(s.a) + rest;
    var cond := PrintAt(s.c, AssignTier) + ([RParen] + yes);
    var toks := [IfKw] + ([LParen] + cond);
    IfPrints(s, rest);
    Ahead(IfKw, [LParen] + cond);
    Ahead(LParen, cond);
    Ahead(RParen, yes);
    Enclosed(s.c, RParen, yes, code, sc);
    var t := Gen(s.c, sc, |code|);
    var c := code + t;
    var ca := GenStmt(s.a, sc, |code| + |t| + 2);
    StmtParses(s.a, rest, c + [BZ, 0], sc);
    var end := |c| + 2 + |ca|;
    IfFinish(toks, code, sc, [RParen] + yes, c, TypeOf(s.c, sc), ca, rest, end);
    IfCode(s, sc, code, t, ca, end);
  }

  lemma IfElseUses(s: Stmt, sc: Scope, at: int, t: seq<int>, no: int, ca: seq<int>, end: int, cb: seq<int>)
    requires s.IfElse? && t == Gen(s.c, sc, at) && ca == GenStmt(s.a, sc, at + |t| + 2) && no == at + |t| + 2 + |ca| + 2
    requires cb == GenStmt(s.b, sc, no) && end == no + |cb|
    ensures GenStmt(s, sc, at) == t + [BZ, no] + ca + [JMP, end] + cb
  {
    hide Gen;
  }

  lemma IfElseFinish(toks: seq<Token>, code: seq<int>, sc: Scope, t: seq<Token>, c: seq<int>, ty: Type, no: int, ca: seq<int>,
                     t1: seq<Token>, rest: seq<Token>, end: int, cb: seq<int>)
    requires Peek(toks) == IfKw && Peek(Rest(toks)) == LParen
    requires Expression(Rest(Rest(toks)), code, ASSIGN, sc) == Parser.Ok(t, c, ty) && Peek(t) == RParen
    requires Statement(Rest(t), c + [BZ, 0], sc) == Parser.Ok(t1, c + [BZ, 0] + ca, INT) && Peek(t1) == ElseKw
    requires no == |c| + 2 + |ca| + 2 && end == no + |cb|
    requires var c3 := c + [BZ, no] + ca + [JMP, 0]; Statement(Rest(t1), c3, sc) == Parser.Ok(rest, c3 + cb, INT)
    ensures Statement(toks, code, sc) == Parser.Ok(rest, c + [BZ, no] + ca + [JMP, end] + cb, INT)
  {
    hide Expression, Statement, Patch, Peek, Rest;
    var c1, c2 := c + [BZ, 0] + ca, c + [BZ, no] + ca;
    assert |c1| + 2 == no == |c2| + 2;
    PatchHole(c, BZ, ca, no);
    PatchHole(c2, JMP, cb, end);
    assert |c2 + [JMP, 0] + cb| == end;
    IfElseUnfolds(toks, code, sc, t, c, ty, t1, c1, rest, c2 + [JMP, 0] + cb);
  }

  lemma IfElseParses(s: Stmt, rest: seq<Token>, code: seq<int>, sc: Scope)
    requires s.IfElse? && StmtTyped(s, sc) && (TakesElse(s) ==> Peek(rest) != ElseKw)
    ensures Statement(PrintStmt(s) + rest, code, sc) == Parser.Ok(rest, code + GenStmt(s, sc, |code|), INT)
    decreases s, 0
  {
    hide Expression, PrintAt, Gen, WellTyped, TypeOf, Patch, Statement, PrintStmt, GenStmt, Peek, Rest, StmtTyped;
    IfElseTyped(s, sc);
    var other := PrintStmt(s.b) + rest;
    var after := [ElseKw] + other;
    var arm := if TakesElse(s.a) then [LBrace] + PrintStmt(s.a) + [RBrace] else PrintStmt(s.a);
    var yes := arm + after;
    var cond := PrintAt(s.c, AssignTier) + ([RParen] + yes);
    var toks := [IfKw] + ([LParen] + cond);
    IfElsePrints(s, arm, rest);
    IfStream(cond, yes);
    Ahead(ElseKw, other);
    Enclosed(s.c, RParen, yes, code, sc);
    var t := Gen(s.c, sc, |code|);
    var c := code + t;
    var ca := GenStmt(s.a, sc, |code| + |t| + 2);
    ArmParses(s.a, arm, after, c + [BZ, 0], sc);
    var no := |c| + 2 + |ca| + 2;
    var cb := GenStmt(s.b, sc, no);
    var end := no + |cb|;
    StmtParses(s.b, rest, c + [BZ, no] + ca + [JMP, 0], sc);
    IfElseFinish(toks, code, sc, [RParen] + yes, c, TypeOf(s.c, sc), no, ca, after, rest, end, cb);
    IfElseJoins(s, sc, code, t, no, ca, end, cb);
  }

  /** The tokens up to the condition, and the one after it. */
  lemma IfStream(cond: seq<Token>, yes: seq<Token>)
    ensures var toks := [IfKw] + ([LParen] + cond); Peek(toks) == IfKw && Peek(Rest(toks)) == LParen && Rest(Rest(toks)) == cond
    ensures Peek([RParen] + yes) == RParen && Rest([RParen] + yes) == yes
  {
    Ahead(IfKw, [LParen] + cond);
    Ahead(LParen, cond);
    Ahead(RParen, yes);
  }

  lemma IfElseJoins(s: Stmt, sc: Scope, code: seq<int>, t: seq<int>, no: int, ca: seq<int>, end: int, cb: seq<int>)
    requires s.IfElse? && t == Gen(s.c, sc, |code|) && ca == GenStmt(s.a, sc, |code| + |t| + 2)
    requires no == |code| + |t| + 2 + |ca| + 2 && cb == GenStmt(s.b, sc, no) && end == no + |cb|
    ensures code + t + [BZ, no] + ca + [JMP, end] + cb == code + GenStmt(s, sc, |code|)
  {
    hide Gen, GenStmt;
    IfElseUses(s, sc, |code|, t, no, ca, end, cb);
    Assoc6(code, t, [BZ, no], ca, [JMP, end], cb);
  }

  /** The first arm, in braces if its last if would take the else. */
  lemma ArmParses(s: Stmt, arm: seq<Token>, after: seq<Token>, code: seq<int>, sc: Scope)
    requires StmtTyped(s, sc) && arm == if TakesElse(s) then [LBrace] + PrintStmt(s) + [RBrace] else PrintStmt(s)
    ensures Statement(arm + after, code, sc) == Parser.Ok(after, code + GenStmt(s, sc, |code|), INT)
    decreases s, 3
  {
    hide Statement, PrintStmt, GenStmt, StmtTyped;
    if TakesElse(s) { BracedParses(s, after, code, sc); } else { StmtParses(s, after, code, sc); }
  }

  lemma IfElsePrints(s: Stmt, arm: seq<Token>, rest: seq<Token>)
    requires s.IfElse? && arm == if TakesElse(s.a) then [LBrace] + PrintStmt(s.a) + [RBrace] else PrintStmt(s.a)
    ensures PrintStmt(s) + rest
         == [IfKw] + ([LParen] + (PrintAt(s.c, AssignTier) + ([RParen] + (arm + ([ElseKw] + (PrintStmt(s.b) + rest))))))
  {
    hide PrintAt, TakesElse;
  }

  lemma BracedParses(s: Stmt, rest: seq<Token>, code: seq<int>, sc: Scope)
    requires StmtTyped(s, sc)
    ensures Statement([LBrace] + PrintStmt(s) + [RBrace] + rest, code, sc)
         == Parser.Ok(rest, code + GenStmt(s, sc, |code|), INT)
    decreases s, 2
  {
    hide PrintStmt, GenStmt, Statement, Statements, StmtTyped, Peek, Rest;
    var after := [RBrace] + rest;
    var body := PrintStmt(s) + after;
    assert [LBrace] + PrintStmt(s) + [RBrace] + rest == [LBrace] + body;
    Ahead(LBrace, body);
    Ahead(RBrace, rest);
    FirstOfStmt(s, after, sc);
    StmtParses(s, after, code, sc);
    SimpleUnfolds([LBrace] + body, code, sc);
    StatementsUnfold(body, code, sc);
    StatementsUnfold(after, code + GenStmt(s, sc, |code|), sc);
  }

  lemma WhileParses(s: Stmt, rest: seq<Token>, code: seq<int>, sc: Scope)
    requires s.While? && StmtTyped(s, sc) && (TakesElse(s) ==> Peek(rest) != ElseKw)
    ensures Statement(PrintStmt(s) + rest, code, sc) == Parser.Ok(rest, code + GenStmt(s, sc, |code|), INT)
    decreases s, 0
  {
    hide Expression, PrintAt, Gen, WellTyped, TypeOf, Patch, Statement, Peek, Rest;
    var body := PrintStmt(s.a) + rest;
    var cond := PrintAt(s.c, AssignTier) + ([RParen] + body);
    var toks := [WhileKw] + ([LParen] + cond);
    assert PrintStmt(s) + rest == toks;
    Ahead(WhileKw, [LParen] + cond);
    Ahead(LParen, cond);
    Ahead(RParen, body);
    Enclosed(s.c, RParen, body, code, sc);
    var t := Gen(s.c, sc, |code|);
    var c := code + t;
    StmtParses(s.a, rest, c + [BZ, 0], sc);
    var ca := GenStmt(s.a, sc, |c| + 2);
    var end := |c| + 2 + |ca| + 2;
    WhileUnfolds(toks, code, sc, [RParen] + body, c, TypeOf(s.c, sc), rest, c + [BZ, 0] + ca);
    Assoc(c + [BZ, 0], ca, [JMP, |code|]);
    PatchHole(c, BZ, ca + [JMP, |code|], end);
    Assoc(c + [BZ, end], ca, [JMP, |code|]);
    Assoc4(code, t, [BZ, end], ca);
    Assoc(code, t + [BZ, end] + ca, [JMP, |code|]);
  }
}
