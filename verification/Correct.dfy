// Compiled code does what the source says: expressions, statements and calls.

module Correct {
  import opened Options
  import opened Words
  import opened Vm
  import opened Syntax
  import opened CodeGen
  import opened Semantics
  import opened Simulation

  // ----- tails -----

  function Scaled(r: int): int32 { Wrap(r * 4) }

  function Difference(l: int, r: int): int32 { Wrap(l - r) }

  /** Pointer arithmetic as the emitted operators compute it. */
  lemma TailMeaning(op: BinOp, ta: Type, tb: Type, l: int32, r: int32, v: int32)
    requires BinMeaning(op, ta, tb, l, r) == Some(v)
    ensures Operate(MUL, r, 4) == Some(Scaled(r)) && Operate(SUB, l, r) == Some(Difference(l, r))
    ensures (op == Add || (op == Sub && ta != tb)) && ta > PTR ==> Operate(Opcode(op), l, Scaled(r)) == Some(v)
    ensures op == Sub && ta > PTR && ta == tb ==> Operate(DIV, Difference(l, r), 4) == Some(v)
    ensures |BinTail(op, ta, tb)| == 1 ==> Operate(Opcode(op), l, r) == Some(v)
  {
    hide Bitwise, Pow2;
    ScaledSum(l, r);
  }

  /** Scaling first and adding afterwards wraps around once. */
  lemma ScaledSum(l: int32, r: int32)
    ensures Wrap(l + Wrap(4 * r)) == Wrap(l + 4 * r) && Wrap(l - Wrap(4 * r)) == Wrap(l - 4 * r)
  {
    WrapSum(l as int, 4 * (r as int));
  }

  /** A pending left operand and the code after the right one compute the operator's meaning. */
  lemma CombineSound(w: World, f: Frame, sp: int, m: Memory, s: State, op: BinOp, ta: Type, tb: Type, l: int32, v: int32)
    returns (t: State)
    requires At(w.code, s.pc, BinTail(op, ta, tb)) && s.sp == sp - 4 && LoadInt(s.mem, sp - 4) == l
    requires Clear(f, sp, m) && Room(f, sp, 1) && Agree(m, s.mem)
    requires Combine(op, ta, tb, l, s.acc, f, sp, m) == Value(v, m)
    ensures Reaches(w.code, s, t) && Agree(m, t.mem) && Kept(f, sp, s.mem, t.mem)
    ensures t.pc == s.pc + |BinTail(op, ta, tb)| && t.sp == sp && t.bp == s.bp && t.acc == v
  {
    hide Reaches, Agree, Kept, Clear, Run, Step, At, Operate, BinMeaning;
    TailMeaning(op, ta, tb, l, s.acc, v);
    KeptSelf(f, sp, s.mem);
    if (op == Add || (op == Sub && ta != tb)) && ta > PTR {
      var last := Opcode(op);
      assert BinTail(op, ta, tb) == [PSH, IMM, 4, MUL] + [last];
      Split(w.code, s.pc, [PSH, IMM, 4, MUL], [last]);
      LowerClear(f, sp, m);
      var t1 := WithConst(w, f, sp - 4, m, s, 4, MUL, Scaled(s.acc));
      Pending(f, sp, m, s.mem, t1.mem);
      t := PopOp(w, sp, t1, last, l, v);
      ReachJoin(w.code, s, t1, t);
    } else if op == Sub && ta > PTR {
      assert BinTail(op, ta, tb) == [SUB] + [PSH, IMM, 4, DIV];
      Split(w.code, s.pc, [SUB], [PSH, IMM, 4, DIV]);
      var d := Difference(l, s.acc);
      var t1 := PopOp(w, sp, s, SUB, l, d);
      t := WithConst(w, f, sp, m, t1, 4, DIV, v);
      ReachJoin(w.code, s, t1, t);
    } else {
      t := PopOp(w, sp, s, Opcode(op), l, v);
    }
  }

  lemma CombineKeeps(op: BinOp, ta: Type, tb: Type, l: int32, r: int32, f: Frame, sp: int, m: Memory)
    ensures var c := Combine(op, ta, tb, l, r, f, sp, m); c.Value? ==> c.mem == m
    ensures var c := Combine(op, ta, tb, l, r, f, sp, m); c.Value? || c.Undef?
  {
  }

  /** What evaluating a, then b with a's value pending, then op, gives. */
  ghost function TwoResult(p: Program, a: Expr, b: Expr, op: BinOp, ta: Type, tb: Type,
                           f: Frame, sp: int, m: Memory, fuel: nat): Result
  {
    var (l, m1) :- Eval(p, a, f, sp, m, fuel);
    if Room(f, sp, 1) then
      var (r, m2) :- Eval(p, b, f, sp - 4, m1, fuel);
      Combine(op, ta, tb, l, r, f, sp, m2)
    else Undef
  }

  lemma TwoSound(w: World, e: Expr, a: Expr, b: Expr, op: BinOp, ta: Type, tb: Type,
                 f: Frame, sp: int, m: Memory, fuel: nat, s: State, ca: seq<int>, cb: seq<int>) returns (t: State)
    requires a < e && b < e && WellTyped(a, f.sc) && WellTyped(b, f.sc)
    requires ca == Gen(a, f.sc, s.pc) && cb == Gen(b, f.sc, s.pc + |ca| + 1)
    requires Begins(w, f, sp, m, s, ca + [PSH] + cb + BinTail(op, ta, tb))
    ensures Sound(w, f, sp, m, s, TwoResult(w.p, a, b, op, ta, tb, f, sp, m, fuel), t,
                  s.pc + |ca| + 1 + |cb| + |BinTail(op, ta, tb)|, fuel)
    decreases fuel, e, 0
  {
    hide Reaches, RunsFor, HaltsWith, Combine, At, Linked, ScopeLinked, Agree, Kept, Clear, Eval, Gen, WellTyped;
    var r := TwoResult(w.p, a, b, op, ta, tb, f, sp, m, fuel);
    var tail := BinTail(op, ta, tb);
    Split(w.code, s.pc, ca + [PSH] + cb, tail);
    Split(w.code, s.pc, ca + [PSH], cb);
    Split(w.code, s.pc, ca, [PSH]);
    t := ExprSound(w, a, f, sp, m, fuel, s);
    var ra := Eval(w.p, a, f, sp, m, fuel);
    if ra.Value? && Room(f, sp, 1) {
      var t1 := t;
      StillClear(f, sp, m, ra.mem);
      var t2 := Push(w, f, sp, ra.mem, t1);
      ReachJoin(w.code, s, t1, t2);
      KeptJoin(f, sp, s.mem, t1.mem, t2.mem);
      t := ExprSound(w, b, f, sp - 4, ra.mem, fuel, t2);
      var rb := Eval(w.p, b, f, sp - 4, ra.mem, fuel);
      if rb.Value? {
        var t3 := t;
        StillClear(f, sp, ra.mem, rb.mem);
        Pending(f, sp, rb.mem, t2.mem, t3.mem);
        KeptJoin(f, sp, s.mem, t2.mem, t3.mem);
        ReachJoin(w.code, s, t2, t3);
        CombineKeeps(op, ta, tb, ra.v, rb.v, f, sp, rb.mem);
        if r.Value? {
          t := CombineSound(w, f, sp, rb.mem, t3, op, ta, tb, ra.v, r.v);
          ReachJoin(w.code, s, t3, t);
          KeptJoin(f, sp, s.mem, t3.mem, t.mem);
        }
      } else {
        AbruptJoin(w, s, t2, rb, fuel);
      }
    }
  }

  lemma BinUnfolds(p: Program, e: Expr, f: Frame, sp: int, m: Memory, fuel: nat, at: int)
    requires e.Bin?
    ensures Eval(p, e, f, sp, m, fuel) ==
      TwoResult(p, e.a, e.b, e.bop, TypeOf(e.a, f.sc), TypeOf(e.b, f.sc), f, sp, m, fuel)
    ensures var ca := Gen(e.a, f.sc, at);
      Gen(e, f.sc, at) ==
      ca + [PSH] + Gen(e.b, f.sc, at + |ca| + 1) + BinTail(e.bop, TypeOf(e.a, f.sc), TypeOf(e.b, f.sc))
    ensures WellTyped(e, f.sc) ==> WellTyped(e.a, f.sc) && WellTyped(e.b, f.sc)
  {
    hide BinTail, TypeOf, Combine, Room;
  }

  /** A compiled operator leaves what the operator means. */
  lemma BinSound(w: World, e: Expr, f: Frame, sp: int, m: Memory, fuel: nat, s: State) returns (t: State)
    requires e.Bin? && WellTyped(e, f.sc) && Begins(w, f, sp, m, s, Gen(e, f.sc, s.pc))
    ensures Sound(w, f, sp, m, s, Eval(w.p, e, f, sp, m, fuel), t, s.pc + |Gen(e, f.sc, s.pc)|, fuel)
    decreases fuel, e, 2
  {
    hide Reaches, RunsFor, HaltsWith, Linked, ScopeLinked, Kept, Clear, Agree, At, Run, Step, LoadInt, StoreInt;
    hide Combine, BinTail, TypeOf, TwoResult, Eval, Gen, WellTyped;
    BinUnfolds(w.p, e, f, sp, m, fuel, s.pc);
    var ca := Gen(e.a, f.sc, s.pc);
    var cb := Gen(e.b, f.sc, s.pc + |ca| + 1);
    var ta, tb := TypeOf(e.a, f.sc), TypeOf(e.b, f.sc);
    t := TwoSound(w, e, e.a, e.b, e.bop, ta, tb, f, sp, m, fuel, s, ca, cb);
  }

  // ----- places -----

  lemma FrameCell(w: World, s: State, k: int) returns (t: State)
    requires At(w.code, s.pc, [LEA, k])
    ensures t == s.(pc := s.pc + 2, acc := Wrap(s.bp + 4 * k)) && Reaches(w.code, s, t)
  {
    assert [LEA, k][0] == LEA && [LEA, k][1] == k;
    t := s.(pc := s.pc + 2, acc := Wrap(s.bp + 4 * k));
    ReachStep(w.code, s, t);
  }

  lemma AddressSound(w: World, e: Expr, f: Frame, sp: int, m: Memory, fuel: nat, s: State) returns (t: State)
    requires WellTyped(e, f.sc) && IsPlace(e, f.sc) && Begins(w, f, sp, m, s, GenAddr(e, f.sc, s.pc))
    ensures Sound(w, f, sp, m, s, Address(w.p, e, f, sp, m, fuel), t, s.pc + |GenAddr(e, f.sc, s.pc)|, fuel)
    decreases fuel, e, 1
  {
    hide Reaches, RunsFor, HaltsWith, Linked, ScopeLinked, Kept, Clear, Combine, Agree, At, Run, Step, BinTail;
    hide LoadInt, StoreInt, TypeOf, Eval, Gen;
    match e
    case Var(x) =>
      if f.sc.env[x].cls.LocClass? {
        t := FrameCell(w, s, f.sc.off - f.sc.env[x].val);
      } else {
        t := Immediate(w, s, f.sc.env[x].val);
      }
      KeptSelf(f, sp, s.mem);
    case Deref(d) =>
      t := ExprSound(w, d, f, sp, m, fuel, s);
    case Index(a, i) =>
      var ca := Gen(a, f.sc, s.pc);
      var cb := Gen(i, f.sc, s.pc + |ca| + 1);
      assert GenAddr(e, f.sc, s.pc) == ca + [PSH] + cb + BinTail(Add, TypeOf(a, f.sc), INT);
      t := TwoSound(w, e, a, i, Add, TypeOf(a, f.sc), INT, f, sp, m, fuel, s, ca, cb);
    case Cast(_, d) =>
      t := AddressSound(w, d, f, sp, m, fuel, s);
    case Unary(_, d) =>
      t := AddressSound(w, d, f, sp, m, fuel, s);
  }

  lemma ReadPlaceSound(w: World, e: Expr, f: Frame, sp: int, m: Memory, fuel: nat, s: State) returns (t: State)
    requires (e.Var? && !IsConst(e, f.sc)) || e.Deref? || e.Index?
    requires WellTyped(e, f.sc) && Begins(w, f, sp, m, s, Gen(e, f.sc, s.pc))
    ensures Sound(w, f, sp, m, s, Eval(w.p, e, f, sp, m, fuel), t, s.pc + |Gen(e, f.sc, s.pc)|, fuel)
    decreases fuel, e, 2
  {
    hide Reaches, RunsFor, HaltsWith, Linked, ScopeLinked, Kept, Clear, Agree, At, Run, Step, Operate, LoadInt, StoreInt, Address, GenAddr, Load;
    var isChar := TypeOf(e, f.sc) == CHAR;
    var ca := GenAddr(e, f.sc, s.pc);
    Split(w.code, s.pc, ca, [LoadOp(isChar)]);
    var r := Eval(w.p, e, f, sp, m, fuel);
    t := AddressSound(w, e, f, sp, m, fuel, s);
    var ra := Address(w.p, e, f, sp, m, fuel);
    if ra.Value? {
      LoadKeeps(ra.mem, ra.v, isChar);
      if r.Value? {
        var t1 := t;
        t := LoadStep(w, ra.mem, t1, isChar, r.v);
        ReachJoin(w.code, s, t1, t);
      }
    }
  }

  lemma LoadKeeps(m: Memory, a: int, isChar: bool)
    ensures var r := Load(m, a, isChar); r.Undef? || (r.Value? && r.mem == m)
  {
  }

  lemma StoreKeeps(f: Frame, m: Memory, a: int, v: int32, ty: Type)
    ensures var r := Store(f, m, a, v, ty); r.Undef? || r.Value?
  {
  }

  lemma AssignUnfolds(p: Program, e: Expr, f: Frame, sp: int, m: Memory, fuel: nat)
    requires e.Assign?
    ensures var ra := Address(p, e.l, f, sp, m, fuel);
      Eval(p, e, f, sp, m, fuel) ==
      if !ra.Value? then ra.PropagateFailure()
      else if !Room(f, sp, 1) then Undef
      else
        var rb := Eval(p, e.r, f, sp - 4, ra.mem, fuel);
        if !rb.Value? then rb.PropagateFailure() else Store(f, rb.mem, ra.v, rb.v, TypeOf(e.l, f.sc))
  {
  }

  lemma AssignSound(w: World, e: Expr, f: Frame, sp: int, m: Memory, fuel: nat, s: State) returns (t: State)
    requires e.Assign? && WellTyped(e, f.sc) && Begins(w, f, sp, m, s, Gen(e, f.sc, s.pc))
    ensures Sound(w, f, sp, m, s, Eval(w.p, e, f, sp, m, fuel), t, s.pc + |Gen(e, f.sc, s.pc)|, fuel)
    decreases fuel, e, 2
  {
    hide Reaches, RunsFor, HaltsWith, Linked, ScopeLinked, Kept, Clear, Agree, At, Run, Step, Operate, LoadInt, StoreInt;
    hide Address, GenAddr, Store, Eval;
    AssignUnfolds(w.p, e, f, sp, m, fuel);
    var ty := TypeOf(e.l, f.sc);
    var ca := GenAddr(e.l, f.sc, s.pc);
    var cb := Gen(e.r, f.sc, s.pc + |ca| + 1);
    assert Gen(e, f.sc, s.pc) == ca + [PSH] + cb + [StoreOp(ty)];
    hide Gen, TypeOf;
    Split(w.code, s.pc, ca + [PSH] + cb, [StoreOp(ty)]);
    Split(w.code, s.pc, ca + [PSH], cb);
    Split(w.code, s.pc, ca, [PSH]);
    var r := Eval(w.p, e, f, sp, m, fuel);
    var ra := Address(w.p, e.l, f, sp, m, fuel);
    t := AddressSound(w, e.l, f, sp, m, fuel, s);
    if ra.Value? && Room(f, sp, 1) {
      var t1 := t;
      StillClear(f, sp, m, ra.mem);
      var t2 := Push(w, f, sp, ra.mem, t1);
      ReachJoin(w.code, s, t1, t2);
      KeptJoin(f, sp, s.mem, t1.mem, t2.mem);
      t := ExprSound(w, e.r, f, sp - 4, ra.mem, fuel, t2);
      var rb := Eval(w.p, e.r, f, sp - 4, ra.mem, fuel);
      if rb.Value? {
        var t3 := t;
        StillClear(f, sp, ra.mem, rb.mem);
        Pending(f, sp, rb.mem, t2.mem, t3.mem);
        KeptJoin(f, sp, s.mem, t2.mem, t3.mem);
        ReachJoin(w.code, s, t2, t3);
        StoreKeeps(f, rb.mem, ra.v, rb.v, ty);
        if r.Value? {
          t := StoreStep(w, f, sp, rb.mem, t3, ra.v, ty, r.v, r.mem);
          ReachJoin(w.code, s, t3, t);
          KeptJoin(f, sp, s.mem, t3.mem, t.mem);
        }
      } else {
        AbruptJoin(w, s, t2, rb, fuel);
      }
    }
  }

  lemma StepUnfolds(p: Program, e: Expr, f: Frame, sp: int, m: Memory, fuel: nat)
    requires e.PreStep? || e.PostStep?
    ensures var d := Delta(e.up, TypeOf(e.e, f.sc)); var ra := Address(p, e.e, f, sp, m, fuel);
      Eval(p, e, f, sp, m, fuel) ==
      if !ra.Value? then ra.PropagateFailure()
      else
        var rl := Load(ra.mem, ra.v, ReadsChar(e.e, f.sc));
        if !rl.Value? then rl.PropagateFailure()
        else if !Room(f, sp, 2) then Undef
        else
          var rs := Store(f, rl.mem, ra.v, Wrap(rl.v + d), TypeOf(e.e, f.sc));
          if e.PreStep? then rs else if !rs.Value? then rs.PropagateFailure() else Value(Wrap(rs.v - d), rs.mem)
  {
  }

  lemma StepSound(w: World, e: Expr, f: Frame, sp: int, m: Memory, fuel: nat, s: State) returns (t: State)
    requires (e.PreStep? || e.PostStep?) && WellTyped(e, f.sc) && Begins(w, f, sp, m, s, Gen(e, f.sc, s.pc))
    ensures Sound(w, f, sp, m, s, Eval(w.p, e, f, sp, m, fuel), t, s.pc + |Gen(e, f.sc, s.pc)|, fuel)
    decreases fuel, e, 2
  {
    hide Reaches, RunsFor, HaltsWith, Linked, ScopeLinked, Kept, Clear, Agree, At, Run, Step, Operate, LoadInt, StoreInt;
    hide Address, GenAddr, Store, Load, Eval, ReadsChar, Wrap, Delta;
    StepUnfolds(w.p, e, f, sp, m, fuel);
    var ty, isChar := TypeOf(e.e, f.sc), ReadsChar(e.e, f.sc);
    var ca := GenAddr(e.e, f.sc, s.pc);
    var tail := StepTail(e.up, isChar, ty);
    var undo := if e.PreStep? then [] else [PSH, IMM, Stride(ty), StepOp(!e.up)];
    assert Gen(e, f.sc, s.pc) == ca + tail + undo;
    hide Gen, TypeOf;
    Split(w.code, s.pc, ca + tail, undo);
    Split(w.code, s.pc, ca, tail);
    var ra := Address(w.p, e.e, f, sp, m, fuel);
    t := AddressSound(w, e.e, f, sp, m, fuel, s);
    if ra.Value? {
      LoadKeeps(ra.mem, ra.v, isChar);
      var rl := Load(ra.mem, ra.v, isChar);
      if rl.Value? && Room(f, sp, 2) {
        var rs := Store(f, rl.mem, ra.v, Wrap(rl.v + Delta(e.up, ty)), ty);
        StoreKeeps(f, rl.mem, ra.v, Wrap(rl.v + Delta(e.up, ty)), ty);
        if rs.Value? {
          var t1 := t;
          StillClear(f, sp, m, ra.mem);
          t := StepTailSound(w, f, sp, ra.mem, t1, e.up, isChar, ty, rl.v, rs.v, rs.mem);
          ReachJoin(w.code, s, t1, t);
          KeptJoin(f, sp, s.mem, t1.mem, t.mem);
          if e.PostStep? {
            StillClear(f, sp, ra.mem, rs.mem);
            var t2 := t;
            t := UndoSound(w, f, sp, rs.mem, t2, e.up, ty);
            ReachJoin(w.code, s, t2, t);
            KeptJoin(f, sp, s.mem, t2.mem, t.mem);
          }
        }
      }
    }
  }

  /** After a post-step the step is taken back from the stored value. */
  lemma UndoSound(w: World, f: Frame, sp: int, m: Memory, s: State, up: bool, ty: Type) returns (t: State)
    requires At(w.code, s.pc, [PSH, IMM, Stride(ty), StepOp(!up)]) && s.sp == sp
    requires Agree(m, s.mem) && Clear(f, sp, m) && Room(f, sp, 1)
    ensures Reaches(w.code, s, t) && Agree(m, t.mem) && Kept(f, sp, s.mem, t.mem)
    ensures t.pc == s.pc + 4 && t.sp == sp && t.bp == s.bp && t.acc == Wrap(s.acc - Delta(up, ty))
  {
    hide Reaches, Kept, Clear, Agree, At, Run, Operate;
    UndoMeaning(up, ty, s.acc);
    t := WithConst(w, f, sp, m, s, Stride(ty), StepOp(!up), Wrap(s.acc - Delta(up, ty)));
  }

  lemma UndoMeaning(up: bool, ty: Type, v: int32)
    ensures Operate(StepOp(!up), v, Stride(ty)) == Some(Wrap(v - Delta(up, ty)))
  {
  }

  // ----- operators and branches -----

  lemma UnaryUnfolds(p: Program, e: Expr, f: Frame, sp: int, m: Memory, fuel: nat)
    requires e.Unary?
    ensures var ra := Eval(p, e.e, f, if e.uop == Neg then sp - 4 else sp, m, fuel);
      Eval(p, e, f, sp, m, fuel) ==
      if !(e.uop == Plus || (e.uop == Neg && e.e.Lit?) || Room(f, sp, 1)) then Undef
      else if !ra.Value? then ra.PropagateFailure()
      else Value(UnMeaning(e.uop, ra.v), ra.mem)
  {
  }

  lemma UnarySound(w: World, e: Expr, f: Frame, sp: int, m: Memory, fuel: nat, s: State) returns (t: State)
    requires e.Unary? && WellTyped(e, f.sc) && Begins(w, f, sp, m, s, Gen(e, f.sc, s.pc))
    ensures Sound(w, f, sp, m, s, Eval(w.p, e, f, sp, m, fuel), t, s.pc + |Gen(e, f.sc, s.pc)|, fuel)
    decreases fuel, e, 2
  {
    hide Reaches, RunsFor, HaltsWith, Linked, ScopeLinked, Kept, Clear, Agree, At, Run, Step, Operate, LoadInt, StoreInt;
    hide Eval;
    UnaryUnfolds(w.p, e, f, sp, m, fuel);
    if e.uop == Neg {
      t := NegSound(w, e, f, sp, m, fuel, s);
    } else {
      var tail := UnaryTail(e.uop);
      var ca := Gen(e.e, f.sc, s.pc);
      assert Gen(e, f.sc, s.pc) == ca + tail;
      hide Gen;
      Split(w.code, s.pc, ca, tail);
      var r := Eval(w.p, e, f, sp, m, fuel);
      var ra := Eval(w.p, e.e, f, sp, m, fuel);
      t := ExprSound(w, e.e, f, sp, m, fuel, s);
      if ra.Value? && e.uop != Plus && Room(f, sp, 1) {
        var t1 := t;
        StillClear(f, sp, m, ra.mem);
        UnaryMeaning(ra.v);
        if e.uop == Not {
          t := WithConst(w, f, sp, ra.mem, t1, 0, EQ, r.v);
        } else {
          t := WithConst(w, f, sp, ra.mem, t1, -1, XOR, r.v);
        }
        ReachJoin(w.code, s, t1, t);
        KeptJoin(f, sp, s.mem, t1.mem, t.mem);
      }
    }
  }

  lemma UnaryMeaning(v: int32)
    ensures Operate(EQ, v, 0) == Some(UnMeaning(Not, v))
    ensures Operate(XOR, v, -1) == Some(UnMeaning(BitNot, v))
  {
    hide Bitwise, Pow2;
    Complement(v);
  }

  lemma NegMeaning(v: int32)
    ensures Operate(MUL, -1, v) == Some(UnMeaning(Neg, v))
  {
    hide Bitwise, Pow2;
  }

  lemma NegLiteral(w: World, e: Expr, f: Frame, sp: int, m: Memory, fuel: nat, s: State) returns (t: State)
    requires e.Unary? && e.uop == Neg && e.e.Lit? && Begins(w, f, sp, m, s, Gen(e, f.sc, s.pc))
    ensures Sound(w, f, sp, m, s, Eval(w.p, e, f, sp, m, fuel), t, s.pc + |Gen(e, f.sc, s.pc)|, fuel)
  {
    hide Reaches, RunsFor, HaltsWith, Linked, ScopeLinked, Kept, Clear, Agree, At, Run, Step;
    t := Immediate(w, s, Negated(e.e.n));
    KeptSelf(f, sp, s.mem);
  }

  lemma NegSound(w: World, e: Expr, f: Frame, sp: int, m: Memory, fuel: nat, s: State) returns (t: State)
    requires e.Unary? && e.uop == Neg && WellTyped(e, f.sc) && Begins(w, f, sp, m, s, Gen(e, f.sc, s.pc))
    ensures Sound(w, f, sp, m, s, Eval(w.p, e, f, sp, m, fuel), t, s.pc + |Gen(e, f.sc, s.pc)|, fuel)
    decreases fuel, e, 1
  {
    hide Reaches, RunsFor, HaltsWith, Linked, ScopeLinked, Kept, Clear, Agree, At, Run, Step, Operate, LoadInt, StoreInt;
    hide Eval;
    if e.e.Lit? {
      t := NegLiteral(w, e, f, sp, m, fuel, s);
    } else {
      UnaryUnfolds(w.p, e, f, sp, m, fuel);
      var cb := Gen(e.e, f.sc, s.pc + 3);
      assert Gen(e, f.sc, s.pc) == ([IMM, -1] + [PSH]) + cb + [MUL];
      hide Gen;
      Split(w.code, s.pc, ([IMM, -1] + [PSH]) + cb, [MUL]);
      Split(w.code, s.pc, [IMM, -1] + [PSH], cb);
      Split(w.code, s.pc, [IMM, -1], [PSH]);
      var r := Eval(w.p, e, f, sp, m, fuel);
      var ra := Eval(w.p, e.e, f, sp - 4, m, fuel);
      var t1 := Immediate(w, s, -1);
      t := t1;
      if Room(f, sp, 1) {
        var t2 := Push(w, f, sp, m, t1);
        ReachJoin(w.code, s, t1, t2);
        t := ExprSound(w, e.e, f, sp - 4, m, fuel, t2);
        if ra.Value? {
          var t3 := t;
          StillClear(f, sp, m, ra.mem);
          Pending(f, sp, ra.mem, t2.mem, t3.mem);
          NegMeaning(ra.v);
          t := PopOp(w, sp, t3, MUL, -1, r.v);
          ReachJoin(w.code, s, t2, t3);
          ReachJoin(w.code, s, t3, t);
          KeptJoin(f, sp, s.mem, t2.mem, t3.mem);
        } else {
          AbruptJoin(w, s, t2, ra, fuel);
        }
      }
    }
  }

  lemma CondUnfolds(p: Program, e: Expr, f: Frame, sp: int, m: Memory, fuel: nat)
    requires e.Cond?
    ensures var rc := Eval(p, e.c, f, sp, m, fuel);
      Eval(p, e, f, sp, m, fuel) ==
      if !rc.Value? then rc.PropagateFailure() else Eval(p, if rc.v != 0 then e.a else e.b, f, sp, rc.mem, fuel)
  {
  }

  lemma CondCode(e: Expr, sc: Scope, at: int, test: seq<int>, no: int, yes: seq<int>, end: int, other: seq<int>)
    requires e.Cond? && test == Gen(e.c, sc, at) && yes == Gen(e.a, sc, at + |test| + 2)
    requires no == at + |test| + 2 + |yes| + 2 && other == Gen(e.b, sc, no) && end == no + |other|
    ensures Gen(e, sc, at) == test + [BZ, no] + yes + [JMP, end] + other
  {
  }

  lemma CondSound(w: World, e: Expr, f: Frame, sp: int, m: Memory, fuel: nat, s: State) returns (t: State)
    requires e.Cond? && WellTyped(e, f.sc) && Begins(w, f, sp, m, s, Gen(e, f.sc, s.pc))
    ensures Sound(w, f, sp, m, s, Eval(w.p, e, f, sp, m, fuel), t, s.pc + |Gen(e, f.sc, s.pc)|, fuel)
    decreases fuel, e, 2
  {
    hide Reaches, RunsFor, HaltsWith, Linked, ScopeLinked, Kept, Clear, Agree, At, Run, Step, Operate, LoadInt, StoreInt, Eval,
      WellTyped, Gen;
    CondTyped(e, f.sc);
    CondUnfolds(w.p, e, f, sp, m, fuel);
    var test := Gen(e.c, f.sc, s.pc);
    var yes := Gen(e.a, f.sc, s.pc + |test| + 2);
    var no := s.pc + |test| + 2 + |yes| + 2;
    var other := Gen(e.b, f.sc, no);
    var end := no + |other|;
    CondCode(e, f.sc, s.pc, test, no, yes, end, other);
    Diamond(w.code, s.pc, test, no, yes, end, other);
    var rc := Eval(w.p, e.c, f, sp, m, fuel);
    t := ExprSound(w, e.c, f, sp, m, fuel, s);
    if rc.Value? {
      var t1 := t;
      StillClear(f, sp, m, rc.mem);
      var t2 := Branch(w, t1, BZ, no);
      ReachJoin(w.code, s, t1, t2);
      var rb := Eval(w.p, if rc.v != 0 then e.a else e.b, f, sp, rc.mem, fuel);
      if rc.v != 0 {
        t := ExprSound(w, e.a, f, sp, rc.mem, fuel, t2);
        if rb.Value? || rb.NoValue? {
          var t3 := t;
          t := Jump(w, t3, end);
          ReachJoin(w.code, t2, t3, t);
        }
      } else {
        t := ExprSound(w, e.b, f, sp, rc.mem, fuel, t2);
      }
      Continue(w, f, sp, m, s, rc.mem, t2, rb, t, end, fuel);
    }
  }

  lemma ShortUnfolds(p: Program, e: Expr, f: Frame, sp: int, m: Memory, fuel: nat)
    requires e.OrElse? || e.AndAlso?
    ensures var ra := Eval(p, e.a, f, sp, m, fuel);
      Eval(p, e, f, sp, m, fuel) ==
      if !ra.Value? then ra.PropagateFailure()
      else if (ra.v != 0) == e.OrElse? then ra
      else Eval(p, e.b, f, sp, ra.mem, fuel)
  {
  }

  /** `||` and `&&` leave the value of the operand that decides. */
  lemma ShortSound(w: World, e: Expr, f: Frame, sp: int, m: Memory, fuel: nat, s: State) returns (t: State)
    requires (e.OrElse? || e.AndAlso?) && WellTyped(e, f.sc) && Begins(w, f, sp, m, s, Gen(e, f.sc, s.pc))
    ensures Sound(w, f, sp, m, s, Eval(w.p, e, f, sp, m, fuel), t, s.pc + |Gen(e, f.sc, s.pc)|, fuel)
    decreases fuel, e, 2
  {
    hide Reaches, RunsFor, HaltsWith, Linked, ScopeLinked, Kept, Clear, Agree, At, Run, Step, Operate, LoadInt, StoreInt;
    hide Eval;
    ShortUnfolds(w.p, e, f, sp, m, fuel);
    var op := if e.OrElse? then BNZ else BZ;
    var test := Gen(e.a, f.sc, s.pc);
    var right := Gen(e.b, f.sc, s.pc + |test| + 2);
    var end := s.pc + |test| + 2 + |right|;
    assert Gen(e, f.sc, s.pc) == test + [op, end] + right;
    hide Gen;
    Split(w.code, s.pc, test + [op, end], right);
    Split(w.code, s.pc, test, [op, end]);
    var ra := Eval(w.p, e.a, f, sp, m, fuel);
    t := ExprSound(w, e.a, f, sp, m, fuel, s);
    if ra.Value? {
      var t1 := t;
      StillClear(f, sp, m, ra.mem);
      var t2 := Branch(w, t1, op, end);
      ReachJoin(w.code, s, t1, t2);
      if (ra.v != 0) == e.OrElse? {
        t := t2;
      } else {
        t := ExprSound(w, e.b, f, sp, ra.mem, fuel, t2);
        Continue(w, f, sp, m, s, ra.mem, t2, Eval(w.p, e.b, f, sp, ra.mem, fuel), t, end, fuel);
      }
    }
  }

  /** Every well-typed expression: its code computes its value and its effect, and stops just past itself. */
  lemma ExprSound(w: World, e: Expr, f: Frame, sp: int, m: Memory, fuel: nat, s: State) returns (t: State)
    requires WellTyped(e, f.sc) && Begins(w, f, sp, m, s, Gen(e, f.sc, s.pc))
    ensures Sound(w, f, sp, m, s, Eval(w.p, e, f, sp, m, fuel), t, s.pc + |Gen(e, f.sc, s.pc)|, fuel)
    decreases fuel, e, 3
  {
    hide Reaches, RunsFor, HaltsWith, Linked, ScopeLinked, Kept, Clear, Agree, At, Run, Step, LoadInt, StoreInt;
    hide Combine, EvalCall, Address, Load, BinTail, TypeOf, Opcode;
    match e
    case Lit(n) =>
      t := Immediate(w, s, n);
      KeptSelf(f, sp, s.mem);
    case SizeOf(ty) =>
      t := Immediate(w, s, if ty == CHAR then 1 else 4);
      KeptSelf(f, sp, s.mem);
    case Call(g, args) =>
      t := CallSound(w, g, args, f, sp, m, fuel, s);
    case Cast(_, d) =>
      t := ExprSound(w, d, f, sp, m, fuel, s);
    case AddrOf(d) =>
      t := AddressSound(w, d, f, sp, m, fuel, s);
    case Unary(_, _) =>
      t := UnarySound(w, e, f, sp, m, fuel, s);
    case PreStep(_, _) =>
      t := StepSound(w, e, f, sp, m, fuel, s);
    case PostStep(_, _) =>
      t := StepSound(w, e, f, sp, m, fuel, s);
    case Assign(_, _) =>
      t := AssignSound(w, e, f, sp, m, fuel, s);
    case Cond(_, _, _) =>
      t := CondSound(w, e, f, sp, m, fuel, s);
    case OrElse(_, _) =>
      t := ShortSound(w, e, f, sp, m, fuel, s);
    case AndAlso(_, _) =>
      t := ShortSound(w, e, f, sp, m, fuel, s);
    case Bin(_, _, _) =>
      t := BinSound(w, e, f, sp, m, fuel, s);
    case _ =>
      if IsConst(e, f.sc) {
        t := Immediate(w, s, f.sc.env[e.x].val);
        KeptSelf(f, sp, s.mem);
      } else {
        t := ReadPlaceSound(w, e, f, sp, m, fuel, s);
      }
  }

  // ----- calls -----

  lemma ArgsUnfold(p: Program, e: Expr, rest: Args, f: Frame, sp: int, m: Memory, fuel: nat)
    ensures var ra := Eval(p, e, f, sp, m, fuel);
      EvalArgs(p, Arg(e, rest), f, sp, m, fuel) ==
      if !ra.Value? then ra.PropagateFailure()
      else if !Room(f, sp, 1) then Undef
      else EvalArgs(p, rest, f, sp - 4, StoreInt(ra.mem, sp - 4, ra.v), fuel)
  {
  }

  /** What holds once the arguments are pushed: each is in the next lower cell, and the source memory has it too. */
  ghost predicate ArgsPlaced(w: World, args: Args, f: Frame, sp: int, m: Memory, s: State, r: Result, t: State,
                             end: int, fuel: nat)
  {
    && !r.Value? && !r.NoValue? && Abrupt(w, s, r, fuel)
    && (r.Next? ==>
        && Reaches(w.code, s, t) && t.pc == end && t.sp == sp - 4 * Count(args) && t.bp == f.bp
        && Agree(r.mem, t.mem) && Kept(f, sp, s.mem, t.mem) && Clear(f, t.sp, r.mem)
        && r.mem.Keys <= m.Keys + f.obj + Cells(t.sp, sp))
  }

  lemma ArgsSound(w: World, args: Args, f: Frame, sp: int, m: Memory, fuel: nat, s: State) returns (t: State)
    requires ArgsTyped(args, f.sc) && Begins(w, f, sp, m, s, GenArgs(args, f.sc, s.pc))
    ensures ArgsPlaced(w, args, f, sp, m, s, EvalArgs(w.p, args, f, sp, m, fuel), t,
                       s.pc + |GenArgs(args, f.sc, s.pc)|, fuel)
    decreases fuel, args, 1
  {
    hide Reaches, RunsFor, HaltsWith, Linked, ScopeLinked, Kept, At, Eval, Gen, Clear, Agree, WellTyped, Run, Step;
    hide Cells, StoreInt;
    match args
    case NoArgs =>
      t := s;
      ReachSelf(w.code, s);
      KeptSelf(f, sp, s.mem);
    case Arg(e, rest) =>
      ArgsUnfold(w.p, e, rest, f, sp, m, fuel);
      hide EvalArgs;
      var ca := Gen(e, f.sc, s.pc);
      var cb := GenArgs(rest, f.sc, s.pc + |ca| + 1);
      assert GenArgs(args, f.sc, s.pc) == ca + [PSH] + cb;
      hide GenArgs;
      Split(w.code, s.pc, ca + [PSH], cb);
      Split(w.code, s.pc, ca, [PSH]);
      var ra := Eval(w.p, e, f, sp, m, fuel);
      t := ExprSound(w, e, f, sp, m, fuel, s);
      if ra.Value? && Room(f, sp, 1) {
        var t1 := t;
        StillClear(f, sp, m, ra.mem);
        var t2 := Push(w, f, sp, ra.mem, t1);
        ReachJoin(w.code, s, t1, t2);
        KeptJoin(f, sp, s.mem, t1.mem, t2.mem);
        var m2 := StoreInt(ra.mem, sp - 4, ra.v);
        PlaceArgument(f, sp, ra.mem, t1.mem, ra.v);
        t := ArgsSound(w, rest, f, sp - 4, m2, fuel, t2);
        var r := EvalArgs(w.p, rest, f, sp - 4, m2, fuel);
        AbruptJoin(w, s, t2, r, fuel);
        if r.Next? {
          ReachJoin(w.code, s, t2, t);
          Widen(f, sp, t2.mem, t.mem);
          KeptJoin(f, sp, s.mem, t2.mem, t.mem);
          ArgumentKeys(f, sp, Count(rest), m, ra.mem, m2, r.mem);
        }
      }
  }

  lemma ArgumentKeys(f: Frame, sp: int, n: nat, m: Memory, m1: Memory, m2: Memory, m3: Memory)
    requires m1.Keys <= m.Keys + f.obj
    requires m2.Keys == m1.Keys + {sp - 4, sp - 3, sp - 2, sp - 1}
    requires m3.Keys <= m2.Keys + f.obj + Cells(sp - 4 - 4 * n, sp - 4)
    ensures m3.Keys <= m.Keys + f.obj + Cells(sp - 4 - 4 * n, sp)
  {
  }

  lemma PlaceArgument(f: Frame, sp: int, m: Memory, v: Memory, x: int)
    requires Clear(f, sp, m) && Agree(m, v) && Room(f, sp, 1)
    ensures StoreInt(m, sp - 4, x).Keys == m.Keys + {sp - 4, sp - 3, sp - 2, sp - 1}
    ensures Clear(f, sp - 4, StoreInt(m, sp - 4, x)) && Agree(StoreInt(m, sp - 4, x), StoreInt(v, sp - 4, x))
  {
  }

  lemma Widen(f: Frame, sp: int, v0: Memory, v1: Memory)
    requires Kept(f, sp - 4, v0, v1)
    ensures Kept(f, sp, v0, v1)
  {
  }

  lemma CallSound(w: World, g: Name, args: Args, f: Frame, sp: int, m: Memory, fuel: nat, s: State) returns (t: State)
    requires WellTyped(Call(g, args), f.sc) && Begins(w, f, sp, m, s, Gen(Call(g, args), f.sc, s.pc))
    ensures Sound(w, f, sp, m, s, EvalCall(w.p, g, args, f, sp, m, fuel), t,
                  s.pc + |Gen(Call(g, args), f.sc, s.pc)|, fuel)
    decreases fuel, args, 2
  {
    hide Reaches, RunsFor, HaltsWith, Linked, ScopeLinked, Kept, At, EvalArgs, Invoke, Clear, Agree, WellTyped, ArgsTyped,
      Gen, GenArgs;
    CallTyped(g, args, f.sc);
    var n := Count(args);
    var top := sp - 4 * n;
    var ca := GenArgs(args, f.sc, s.pc);
    var cb := GenTransfer(g, f.sc);
    var adj := if n > 0 then [ADJ, n] else [];
    CallCode(g, args, f.sc, s.pc);
    Split(w.code, s.pc, ca + cb, adj);
    Split(w.code, s.pc, ca, cb);
    var r := EvalCall(w.p, g, args, f, sp, m, fuel);
    var ra := EvalArgs(w.p, args, f, sp, m, fuel);
    t := ArgsSound(w, args, f, sp, m, fuel, s);
    if ra.Next? {
      var t1 := t;
      if f.sc.env[g].cls.SysClass? {
        if r.Exit? {
          ExitArgument(w.p, args, f, sp, m, fuel);
          ExitHalts(w, t1, ra.mem, r.code);
          HaltsJoin(w.code, s, t1, r.code);
        }
      } else {
        ClearObjects(f, sp, m);
        ClearObjects(f, top, ra.mem);
        t := InvokeSound(w, g, args, f, sp, ra.mem, fuel, t1);
        var ri := Invoke(w.p, g, args, f, top, ra.mem, fuel);
        AbruptJoin(w, s, t1, ri, fuel);
        if r.Value? || r.NoValue? {
          var t2 := t;
          t := Adjusted(w, t2, n);
          ReachJoin(w.code, s, t1, t2);
          ReachJoin(w.code, s, t2, t);
          KeptJoin(f, sp, s.mem, t1.mem, t.mem);
          TrimAgrees(ri.mem, f.lo, sp, t.mem);
          TrimKeys(f, sp, m, ra.mem, ri.mem, n);
        }
      }
    }
  }

  lemma CallCode(g: Name, args: Args, sc: Scope, at: int)
    ensures Gen(Call(g, args), sc, at) ==
      GenArgs(args, sc, at) + GenTransfer(g, sc) + (if Count(args) > 0 then [ADJ, Count(args)] else [])
  {
  }

  lemma ExitHalts(w: World, s: State, m: Memory, v: int32)
    requires At(w.code, s.pc, [EXIT]) && Agree(m, s.mem) && Readable(m, s.sp) && v == LoadInt(m, s.sp)
    ensures HaltsWith(w.code, s, v)
  {
    assert [EXIT][0] == EXIT;
    LoadSame(m, s.mem, s.sp);
    assert Run(w.code, s, 1) == Halted(v);
  }

  lemma ClearObjects(f: Frame, sp: int, m: Memory)
    requires Clear(f, sp, m)
    ensures forall a :: a in f.obj ==> !(f.lo <= a < sp)
    ensures f.lo <= sp <= f.bp
  {
  }

  lemma TrimAgrees(m: Memory, lo: int, sp: int, v: Memory)
    requires Agree(m, v)
    ensures Agree(Trim(m, lo, sp), v)
  {
  }

  lemma TrimKeys(f: Frame, sp: int, m: Memory, m1: Memory, m2: Memory, n: nat)
    requires m1.Keys <= m.Keys + f.obj + Cells(sp - 4 * n, sp)
    requires m2.Keys <= m1.Keys + f.obj + Cells(f.lo, sp)
    requires f.lo <= sp - 4 * n
    ensures Trim(m2, f.lo, sp).Keys <= m.Keys + f.obj
  {
  }

  /** ADJ drops the arguments; nothing is emitted when there are none. */
  lemma Adjusted(w: World, s: State, n: nat) returns (t: State)
    requires At(w.code, s.pc, if n > 0 then [ADJ, n] else [])
    ensures t == s.(pc := s.pc + (if n > 0 then 2 else 0), sp := s.sp + 4 * n) && Reaches(w.code, s, t)
  {
    if n == 0 {
      t := s;
      ReachSelf(w.code, s);
    } else {
      assert [ADJ, n][0] == ADJ && [ADJ, n][1] == n;
      t := s.(pc := s.pc + 2, sp := s.sp + 4 * n);
      ReachStep(w.code, s, t);
    }
  }

  /** The last argument is readable where it was placed. */
  lemma ExitArgument(p: Program, args: Args, f: Frame, sp: int, m: Memory, fuel: nat)
    requires EvalArgs(p, args, f, sp, m, fuel).Next?
    ensures Count(args) > 0 ==> Readable(EvalArgs(p, args, f, sp, m, fuel).mem, sp - 4 * Count(args))
    decreases args
  {
    match args
    case NoArgs =>
    case Arg(e, rest) =>
      var ra := Eval(p, e, f, sp, m, fuel);
      ExitArgument(p, rest, f, sp - 4, StoreInt(ra.mem, sp - 4, ra.v), fuel);
  }

  lemma InvokeSound(w: World, g: Name, args: Args, f: Frame, sp: int, m: Memory, fuel: nat, s: State) returns (t: State)
    requires Linked(w) && ScopeLinked(w, f.sc) && g in f.sc.env && f.sc.env[g].cls.FunClass?
    requires At(w.code, s.pc, [JSR, f.sc.env[g].val]) && s.bp == f.bp && s.sp == sp - 4 * Count(args)
    requires Clear(f, s.sp, m) && Agree(m, s.mem) && sp <= f.bp
    requires forall a :: a in f.obj ==> !(f.lo <= a < sp)
    ensures var r := Invoke(w.p, g, args, f, s.sp, m, fuel);
      && !r.Next? && Abrupt(w, s, r, fuel)
      && (r.Value? ==> t.acc == r.v)
      && (r.Value? || r.NoValue? ==>
          && Reaches(w.code, s, t) && t.pc == s.pc + 2 && t.sp == s.sp && t.bp == f.bp
          && Agree(r.mem, t.mem) && Kept(f, sp, s.mem, t.mem)
          && r.mem.Keys <= m.Keys + f.obj + Cells(f.lo, sp))
    decreases fuel, args, 0
  {
    hide Reaches, RunsFor, HaltsWith, Agree, Kept, At, ExecAll, Run, Clear, LoadInt, GenFun, Cells, Step;
    t := s;
    if g in w.p && w.p[g].arity == Count(args) && Room(f, s.sp, 2 + w.p[g].locals) {
      if fuel == 0 {
        StillRunning(w.code, s);
      } else {
        var fn := w.p[g];
        var callee := CalleeFrame(fn, f, s.sp);
        var low := callee.bp - 4 * fn.locals;
        assert FunLinked(w, g);
        var s2 := Enter(w, f, sp, m, fn, s, w.entry[g]);
        var r := ExecAll(w.p, fn.body, callee, low, m, fuel - 1);
        t := BodySound(w, fn, callee, low, m, fuel - 1, s2, w.entry[g]);
        if r.Value? || r.NoValue? || r.Next? {
          var t1 := t;
          t := LeaveSound(w, f, sp, fn, s, s2, t1);
          ReachJoin(w.code, s, s2, t1);
          ReachJoin(w.code, s, t1, t);
          CalleeObjects(fn, f, s.sp, sp);
        } else {
          EnterCounts(w, s, s2, r, fuel - 1);
        }
      }
    }
  }

  lemma StillRunning(code: seq<int>, s: State)
    ensures RunsFor(code, s, 0)
  {
    assert Run(code, s, 0).Running?;
  }

  lemma CalleeObjects(fn: Fun, f: Frame, top: int, sp: int)
    requires sp == top + 4 * fn.arity && f.lo <= top - 8 - 4 * fn.locals
    ensures CalleeFrame(fn, f, top).obj <= f.obj + Cells(f.lo, sp)
  {
  }

  /** The state in which a called function's body starts. */
  ghost function Entered(fn: Fun, s: State, entry: int): State {
    var s1 := Pushed(s, s.pc + 2);
    Pushed(s1, s1.bp).(pc := entry + 2, bp := s.sp - 8, sp := s.sp - 8 - 4 * fn.locals)
  }

  /** JSR and ENT: two link words are pushed and the new frame is as the source lays it out. */
  lemma Enter(w: World, f: Frame, sp: int, m: Memory, fn: Fun, s: State, entry: int) returns (t: State)
    requires At(w.code, s.pc, [JSR, entry]) && At(w.code, entry, GenFun(fn, entry))
    requires Clear(f, s.sp, m) && Agree(m, s.mem) && Room(f, s.sp, 2 + fn.locals) && sp == s.sp + 4 * fn.arity <= f.bp
    requires forall a :: a in f.obj ==> !(f.lo <= a < sp)
    ensures t == Entered(fn, s, entry) && Reaches(w.code, s, t)
    ensures exists u :: Step(w.code, s) == Running(u) && Reaches(w.code, u, t)
    ensures 0 <= s.pc && s.pc + 2 <= |w.code| && -TWO31 <= f.bp < TWO31
    ensures var callee := CalleeFrame(fn, f, s.sp); Clear(callee, t.sp, m) && Agree(m, t.mem)
  {
    hide Reaches;
    assert [JSR, entry][0] == JSR && [JSR, entry][1] == entry;
    assert GenFun(fn, entry)[0] == ENT && GenFun(fn, entry)[1] == fn.locals;
    var u := Pushed(s, s.pc + 2).(pc := entry);
    assert w.code[entry + 0] == ENT && w.code[entry + 1] == fn.locals;
    t := Entered(fn, s, entry);
    ReachStep(w.code, s, u);
    ReachStep(w.code, u, t);
    ReachJoin(w.code, s, u, t);
  }

  lemma EnterCounts(w: World, s: State, t: State, r: Result, fuel: nat)
    requires exists u :: Step(w.code, s) == Running(u) && Reaches(w.code, u, t)
    requires Abrupt(w, t, r, fuel)
    ensures Abrupt(w, s, r, fuel + 1)
  {
    hide Reaches, RunsFor, HaltsWith;
    var u :| Step(w.code, s) == Running(u) && Reaches(w.code, u, t);
    AbruptJoin(w, u, t, r, fuel);
    if r.Timeout? { RunsForStep(w.code, s, u, fuel); }
    if r.Exit? {
      ReachStep(w.code, s, u);
      HaltsJoin(w.code, s, u, r.code);
    }
  }

  /** The two link words, once written, survive the body. */
  lemma Links(f: Frame, sp: int, fn: Fun, top: int, v: Memory, ret: int, bp: int, v': Memory)
    requires Room(f, top, 2 + fn.locals) && sp == top + 4 * fn.arity
    requires forall a :: a in f.obj ==> !(f.lo <= a < sp)
    requires Kept(CalleeFrame(fn, f, top), top - 8 - 4 * fn.locals, StoreInt(StoreInt(v, top - 4, ret), top - 8, bp), v')
    ensures LoadInt(v', top - 4) == Wrap(ret) && LoadInt(v', top - 8) == Wrap(bp)
  {
    var v1 := StoreInt(v, top - 4, ret);
    var v2 := StoreInt(v1, top - 8, bp);
    LoadStore(v, top - 4, ret);
    LoadStore(v1, top - 8, bp);
    LoadSame(v1, v2, top - 4);
    forall i | top - 8 <= i < top ensures Read(v2, i) == Read(v', i) {
      assert i !in CalleeFrame(fn, f, top).obj;
    }
    LoadSame(v2, v', top - 4);
    LoadSame(v2, v', top - 8);
  }

  /** Outside the caller's own stack area a call touches objects only. */
  lemma CallKeeps(f: Frame, sp: int, fn: Fun, top: int, v: Memory, ret: int, bp: int, v': Memory)
    requires Room(f, top, 2 + fn.locals) && sp == top + 4 * fn.arity
    requires Kept(CalleeFrame(fn, f, top), top - 8 - 4 * fn.locals, StoreInt(StoreInt(v, top - 4, ret), top - 8, bp), v')
    ensures Kept(f, sp, v, v')
  {
    var v2 := StoreInt(StoreInt(v, top - 4, ret), top - 8, bp);
    forall a | a !in f.obj && !(f.lo <= a < sp) ensures Read(v', a) == Read(v, a) {
      assert a !in CalleeFrame(fn, f, top).obj;
      assert Read(v', a) == Read(v2, a);
    }
  }

  /** LEV: the link words are intact, so the caller's frame and position come back. */
  lemma LeaveSound(w: World, f: Frame, sp: int, fn: Fun, s: State, s2: State, t: State) returns (u: State)
    requires 0 <= s.pc && s.pc + 2 <= |w.code| < TWO31 && -TWO31 <= f.bp < TWO31 && s.bp == f.bp
    requires Room(f, s.sp, 2 + fn.locals) && sp == s.sp + 4 * fn.arity
    requires forall a :: a in f.obj ==> !(f.lo <= a < sp)
    requires s2.mem == StoreInt(StoreInt(s.mem, s.sp - 4, s.pc + 2), s.sp - 8, s.bp)
    requires t.bp == s.sp - 8 && 0 <= t.pc < |w.code| && w.code[t.pc] == LEV
    requires Kept(CalleeFrame(fn, f, s.sp), s.sp - 8 - 4 * fn.locals, s2.mem, t.mem)
    ensures Reaches(w.code, t, u) && u.pc == s.pc + 2 && u.sp == s.sp && u.bp == f.bp && u.acc == t.acc
    ensures u.mem == t.mem && Kept(f, sp, s.mem, u.mem)
  {
    hide Kept, CalleeFrame, LoadInt, StoreInt, Reaches, Run;
    Links(f, sp, fn, s.sp, s.mem, s.pc + 2, s.bp, t.mem);
    CallKeeps(f, sp, fn, s.sp, s.mem, s.pc + 2, s.bp, t.mem);
    u := t.(pc := s.pc + 2, sp := s.sp, bp := f.bp);
    ReachStep(w.code, t, u);
  }

  /** A body that falls off its end comes to the LEV after it. */
  lemma BodySound(w: World, fn: Fun, f: Frame, sp: int, m: Memory, fuel: nat, s: State, entry: int) returns (t: State)
    requires f.sc == fn.sc && StmtsTyped(fn.body, fn.sc) && At(w.code, entry, GenFun(fn, entry)) && s.pc == entry + 2
    requires Linked(w) && ScopeLinked(w, f.sc) && Clear(f, sp, m) && s.sp == sp && s.bp == f.bp && Agree(m, s.mem)
    ensures var r := ExecAll(w.p, fn.body, f, sp, m, fuel);
      && Abrupt(w, s, r, fuel)
      && (r.Value? ==> t.acc == r.v)
      && (r.Value? || r.NoValue? || r.Next? ==> Reaches(w.code, s, t) && Leaves(w, f, sp, m, s, r.mem, t))
    decreases fuel, fn.body, 6
  {
    hide Reaches, RunsFor, HaltsWith, Agree, Kept, At, ExecAll, Run, Clear, Linked, ScopeLinked, GenFun, GenStmts, StmtsTyped;
    BodyAt(w.code, fn, entry);
    t := BlockSound(w, fn.body, f, sp, m, fuel, s);
  }

  /** The body of a function is between its ENT and its LEV. */
  lemma BodyAt(code: seq<int>, fn: Fun, entry: int)
    requires At(code, entry, GenFun(fn, entry))
    ensures var body := GenStmts(fn.body, fn.sc, entry + 2); var end := entry + 2 + |body|;
      At(code, entry + 2, body) && 0 <= end < |code| && code[end] == LEV
  {
    var body := GenStmts(fn.body, fn.sc, entry + 2);
    Split(code, entry, [ENT, fn.locals] + body, [LEV]);
    Split(code, entry, [ENT, fn.locals], body);
    assert [LEV][0] == LEV;
  }

  // ----- statements -----

  lemma BlockSound(w: World, ss: Stmts, f: Frame, sp: int, m: Memory, fuel: nat, s: State) returns (t: State)
    requires StmtsTyped(ss, f.sc) && Begins(w, f, sp, m, s, GenStmts(ss, f.sc, s.pc))
    ensures Completes(w, f, sp, m, s, ExecAll(w.p, ss, f, sp, m, fuel), t, s.pc + |GenStmts(ss, f.sc, s.pc)|, fuel)
    decreases fuel, ss, 5
  {
    hide Reaches, RunsFor, HaltsWith, Linked, ScopeLinked, Kept, Clear, Agree, At, Run, Step, Operate, LoadInt, StoreInt, Exec, GenStmt;
    match ss
    case Done =>
      t := s;
      ReachSelf(w.code, s);
      KeptSelf(f, sp, s.mem);
    case Then(st, rest) =>
      var ca := GenStmt(st, f.sc, s.pc);
      var cb := GenStmts(rest, f.sc, s.pc + |ca|);
      Split(w.code, s.pc, ca, cb);
      var r := Exec(w.p, st, f, sp, m, fuel);
      t := StmtSound(w, st, f, sp, m, fuel, s);
      if r.Next? {
        var t1 := t;
        StillClear(f, sp, m, r.mem);
        t := BlockSound(w, rest, f, sp, r.mem, fuel, t1);
        CarryOn(w, f, sp, m, s, r.mem, t1, ExecAll(w.p, rest, f, sp, r.mem, fuel), t, s.pc + |ca| + |cb|, fuel);
      }
  }

  lemma StmtSound(w: World, st: Stmt, f: Frame, sp: int, m: Memory, fuel: nat, s: State) returns (t: State)
    requires StmtTyped(st, f.sc) && Begins(w, f, sp, m, s, GenStmt(st, f.sc, s.pc))
    ensures Completes(w, f, sp, m, s, Exec(w.p, st, f, sp, m, fuel), t, s.pc + |GenStmt(st, f.sc, s.pc)|, fuel)
    decreases fuel, st, 5
  {
    hide Reaches, RunsFor, HaltsWith, Linked, ScopeLinked, Kept, Clear, Agree, Eval, Gen;
    match st
    case If(_, _) => t := IfSound(w, st, f, sp, m, fuel, s);
    case IfElse(_, _, _) => t := IfElseSound(w, st, f, sp, m, fuel, s);
    case While(_, _) => t := WhileSound(w, st, f, sp, m, fuel, s);
    case Return(e) =>
      var ca := Gen(e, f.sc, s.pc);
      Split(w.code, s.pc, ca, [LEV]);
      assert [LEV][0] == LEV;
      assert w.code[s.pc + |ca|] == LEV;
      t := ExprSound(w, e, f, sp, m, fuel, s);
    case ReturnNothing =>
      assert [LEV][0] == LEV;
      t := s;
      ReachSelf(w.code, s);
      KeptSelf(f, sp, s.mem);
    case Block(body) =>
      t := BlockSound(w, body, f, sp, m, fuel, s);
    case Empty =>
      t := s;
      ReachSelf(w.code, s);
      KeptSelf(f, sp, s.mem);
    case ExprStmt(e) =>
      t := ExprSound(w, e, f, sp, m, fuel, s);
  }

  lemma IfSound(w: World, st: Stmt, f: Frame, sp: int, m: Memory, fuel: nat, s: State) returns (t: State)
    requires st.If? && StmtTyped(st, f.sc) && Begins(w, f, sp, m, s, GenStmt(st, f.sc, s.pc))
    ensures Completes(w, f, sp, m, s, Exec(w.p, st, f, sp, m, fuel), t, s.pc + |GenStmt(st, f.sc, s.pc)|, fuel)
    decreases fuel, st, 4
  {
    hide Reaches, RunsFor, HaltsWith, Linked, ScopeLinked, Kept, Clear, Agree, At, Run, Step, Operate, LoadInt, StoreInt, Eval, Gen;
    var test := Gen(st.c, f.sc, s.pc);
    var yes := GenStmt(st.a, f.sc, s.pc + |test| + 2);
    var end := s.pc + |test| + 2 + |yes|;
    assert GenStmt(st, f.sc, s.pc) == test + [BZ, end] + yes;
    Split(w.code, s.pc, test + [BZ, end], yes);
    Split(w.code, s.pc, test, [BZ, end]);
    var rc := Eval(w.p, st.c, f, sp, m, fuel);
    t := ExprSound(w, st.c, f, sp, m, fuel, s);
    if rc.Value? {
      var t1 := t;
      StillClear(f, sp, m, rc.mem);
      var t2 := Branch(w, t1, BZ, end);
      ReachJoin(w.code, s, t1, t2);
      t := t2;
      if rc.v != 0 {
        t := StmtSound(w, st.a, f, sp, rc.mem, fuel, t2);
        CarryOn(w, f, sp, m, s, rc.mem, t2, Exec(w.p, st.a, f, sp, rc.mem, fuel), t, end, fuel);
      }
    }
  }

  lemma IfElseSound(w: World, st: Stmt, f: Frame, sp: int, m: Memory, fuel: nat, s: State) returns (t: State)
    requires st.IfElse? && StmtTyped(st, f.sc) && Begins(w, f, sp, m, s, GenStmt(st, f.sc, s.pc))
    ensures Completes(w, f, sp, m, s, Exec(w.p, st, f, sp, m, fuel), t, s.pc + |GenStmt(st, f.sc, s.pc)|, fuel)
    decreases fuel, st, 4
  {
    hide Reaches, RunsFor, HaltsWith, Linked, ScopeLinked, Kept, Clear, Agree, At, Run, Step, Operate, LoadInt, StoreInt, Eval, Gen,
      WellTyped, StmtTyped;
    IfElseTyped(st, f.sc);
    var test := Gen(st.c, f.sc, s.pc);
    var yes := GenStmt(st.a, f.sc, s.pc + |test| + 2);
    var no := s.pc + |test| + 2 + |yes| + 2;
    var other := GenStmt(st.b, f.sc, no);
    var end := no + |other|;
    assert GenStmt(st, f.sc, s.pc) == test + [BZ, no] + yes + [JMP, end] + other;
    Diamond(w.code, s.pc, test, no, yes, end, other);
    var rc := Eval(w.p, st.c, f, sp, m, fuel);
    t := ExprSound(w, st.c, f, sp, m, fuel, s);
    if rc.Value? {
      var t1 := t;
      StillClear(f, sp, m, rc.mem);
      var t2 := Branch(w, t1, BZ, no);
      ReachJoin(w.code, s, t1, t2);
      var r := Exec(w.p, if rc.v != 0 then st.a else st.b, f, sp, rc.mem, fuel);
      if rc.v != 0 {
        t := StmtSound(w, st.a, f, sp, rc.mem, fuel, t2);
        if r.Next? {
          var t3 := t;
          t := Jump(w, t3, end);
          ReachJoin(w.code, t2, t3, t);
        }
      } else {
        t := StmtSound(w, st.b, f, sp, rc.mem, fuel, t2);
      }
      CarryOn(w, f, sp, m, s, rc.mem, t2, r, t, end, fuel);
    }
  }

  lemma WhileSound(w: World, st: Stmt, f: Frame, sp: int, m: Memory, fuel: nat, s: State) returns (t: State)
    requires st.While? && StmtTyped(st, f.sc) && Begins(w, f, sp, m, s, GenStmt(st, f.sc, s.pc))
    ensures Completes(w, f, sp, m, s, Exec(w.p, st, f, sp, m, fuel), t, s.pc + |GenStmt(st, f.sc, s.pc)|, fuel)
    decreases fuel, st, 4
  {
    hide Reaches, RunsFor, HaltsWith, Linked, ScopeLinked, Kept, Clear, Agree, At, Run, Step, Operate, LoadInt, StoreInt, Eval, Gen,
      WellTyped, StmtTyped;
    WhileTyped(st, f.sc);
    var test := Gen(st.c, f.sc, s.pc);
    var body := GenStmt(st.a, f.sc, s.pc + |test| + 2);
    var end := s.pc + |test| + 2 + |body| + 2;
    assert GenStmt(st, f.sc, s.pc) == test + [BZ, end] + body + [JMP, s.pc];
    Split(w.code, s.pc, test + [BZ, end] + body, [JMP, s.pc]);
    Split(w.code, s.pc, test + [BZ, end], body);
    Split(w.code, s.pc, test, [BZ, end]);
    var rc := Eval(w.p, st.c, f, sp, m, fuel);
    t := ExprSound(w, st.c, f, sp, m, fuel, s);
    if rc.Value? {
      var t1 := t;
      StillClear(f, sp, m, rc.mem);
      var t2 := Branch(w, t1, BZ, end);
      ReachJoin(w.code, s, t1, t2);
      t := t2;
      if rc.v != 0 {
        var rb := Exec(w.p, st.a, f, sp, rc.mem, fuel);
        t := StmtSound(w, st.a, f, sp, rc.mem, fuel, t2);
        CarryOn(w, f, sp, m, s, rc.mem, t2, rb, t, end - 2, fuel);
        if rb.Next? {
          if fuel == 0 {
            StillRunning(w.code, s);
          } else {
            var t3 := t;
            StillClear(f, sp, m, rb.mem);
            var t4 := Jump(w, t3, s.pc);
            t := StmtSound(w, st, f, sp, rb.mem, fuel - 1, t4);
            RoundAgain(w, f, sp, m, s, rb.mem, t3, t4, Exec(w.p, st, f, sp, rb.mem, fuel - 1), t, end, fuel - 1);
          }
        }
      }
    }
  }

  /** One more round: the jump back is a step, so running out of fuel later means running longer. */
  lemma RoundAgain(w: World, f: Frame, sp: int, m: Memory, s: State, m1: Memory, u: State, v: State,
                   r: Result, t: State, end: int, fuel: nat)
    requires Reaches(w.code, s, u) && Step(w.code, u) == Running(v) && v.mem == u.mem
    requires Kept(f, sp, s.mem, u.mem) && m1.Keys <= m.Keys + f.obj
    requires Completes(w, f, sp, m1, v, r, t, end, fuel)
    ensures Completes(w, f, sp, m, s, r, t, end, fuel + 1)
  {
    hide Kept, Agree, Reaches, Run, RunsFor, HaltsWith;
    ReachStep(w.code, u, v);
    if r.Timeout? { RunsForStep(w.code, u, v, fuel); }
    if r.Exit? { HaltsJoin(w.code, u, v, r.code); }
    if r.Value? || r.NoValue? || r.Next? { ReachJoin(w.code, u, v, t); }
    assert Completes(w, f, sp, m1, u, r, t, end, fuel + 1);
    CarryOn(w, f, sp, m, s, m1, u, r, t, end, fuel + 1);
  }
}
