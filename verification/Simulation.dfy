// How machine states represent source states, and the steps every construct shares.

module Simulation {
  import opened Options
  import opened Words
  import opened Vm
  import opened Syntax
  import opened CodeGen
  import opened Semantics

  /** A program, the code address of each of its functions, and the code they were compiled to. */
  datatype World = World(p: Program, entry: map<Name, int>, code: seq<int>)

  /** The words of seg lie in code from word `at` on. */
  ghost predicate At(code: seq<int>, at: int, seg: seq<int>) {
    0 <= at && at + |seg| <= |code| && forall i :: 0 <= i < |seg| ==> code[at + i] == seg[i]
  }

  lemma Split(code: seq<int>, at: int, a: seq<int>, b: seq<int>)
    requires At(code, at, a + b)
    ensures At(code, at, a) && At(code, at + |a|, b)
  {
    forall i | 0 <= i < |a| ensures code[at + i] == a[i] {
      assert (a + b)[i] == a[i];
    }
    forall i | 0 <= i < |b| ensures code[at + |a| + i] == b[i] {
      assert (a + b)[|a| + i] == b[i];
    }
  }

  function GenFun(fn: Fun, at: int): seq<int> {
    [ENT, fn.locals] + GenStmts(fn.body, fn.sc, at + 2) + [LEV]
  }

  /** Function symbols carry the address of their code. */
  ghost predicate ScopeLinked(w: World, sc: Scope) {
    forall x :: x in sc.env && sc.env[x].cls.FunClass? && x in w.p ==>
      x in w.entry && sc.env[x].val == w.entry[x]
  }

  ghost predicate FunLinked(w: World, g: Name)
    requires g in w.p
  {
    && g in w.entry && At(w.code, w.entry[g], GenFun(w.p[g], w.entry[g]))
    && StmtsTyped(w.p[g].body, w.p[g].sc) && ScopeLinked(w, w.p[g].sc)
  }

  /** Every function's code is where its symbol says. */
  ghost predicate Linked(w: World) {
    |w.code| < TWO31 && forall g :: g in w.p ==> FunLinked(w, g)
  }

  /** The VM holds every byte the source memory holds. */
  ghost predicate Agree(m: Memory, v: Memory) {
    forall a :: a in m ==> Read(v, a) == m[a]
  }

  /** Bytes that are neither objects nor free stack are untouched: pending operands, links, outer frames. */
  ghost predicate Kept(f: Frame, sp: int, v0: Memory, v1: Memory) {
    forall a {:trigger Read(v1, a)} :: a !in f.obj && !(f.lo <= a < sp) ==> Read(v1, a) == Read(v0, a)
  }

  /** No object and no defined byte lies in the free part of the stack. */
  ghost predicate Clear(f: Frame, sp: int, m: Memory) {
    && -TWO31 <= f.lo <= sp <= f.bp < TWO31
    && (forall a :: a in f.obj ==> !(f.lo <= a < sp))
    && (forall a :: a in m ==> !(f.lo <= a < sp))
  }

  ghost predicate Begins(w: World, f: Frame, sp: int, m: Memory, s: State, seg: seq<int>) {
    && Linked(w) && ScopeLinked(w, f.sc) && Clear(f, sp, m)
    && s.sp == sp && s.bp == f.bp && Agree(m, s.mem) && At(w.code, s.pc, seg)
  }

  /** t is s after the code that ends at word `end`: same frame, memory as the source says. */
  ghost predicate Ends(f: Frame, sp: int, m: Memory, s: State, m': Memory, t: State, end: int) {
    && t.pc == end && t.sp == sp && t.bp == f.bp
    && Agree(m', t.mem) && Kept(f, sp, s.mem, t.mem) && m'.Keys <= m.Keys + f.obj
  }

  /** What the machine does when the source does not complete normally. */
  ghost predicate Abrupt(w: World, s: State, r: Result, fuel: nat) {
    && (r.Timeout? ==> RunsFor(w.code, s, fuel))
    && (r.Exit? ==> HaltsWith(w.code, s, r.code))
  }

  /** The machine, run from s, does what result r of an expression says and stops at `end`. */
  ghost predicate Sound(w: World, f: Frame, sp: int, m: Memory, s: State, r: Result, t: State, end: int, fuel: nat) {
    && !r.Next?
    && (r.Value? ==> Reaches(w.code, s, t) && t.acc == r.v && Ends(f, sp, m, s, r.mem, t, end))
    && (r.NoValue? ==> Reaches(w.code, s, t) && Ends(f, sp, m, s, r.mem, t, end))
    && Abrupt(w, s, r, fuel)
  }

  /** The machine has come to a LEV of the running function. */
  ghost predicate Leaves(w: World, f: Frame, sp: int, m: Memory, s: State, m': Memory, t: State) {
    && 0 <= t.pc < |w.code| && w.code[t.pc] == LEV && t.bp == f.bp
    && Agree(m', t.mem) && Kept(f, sp, s.mem, t.mem) && m'.Keys <= m.Keys + f.obj
  }

  /** The machine, run from s, does what result r of a statement says; `end` is where it falls through to. */
  ghost predicate Completes(w: World, f: Frame, sp: int, m: Memory, s: State, r: Result, t: State, end: int, fuel: nat) {
    && (r.Next? ==> Reaches(w.code, s, t) && Ends(f, sp, m, s, r.mem, t, end))
    && (r.Value? ==> t.acc == r.v)
    && (r.Value? || r.NoValue? ==> Reaches(w.code, s, t) && Leaves(w, f, sp, m, s, r.mem, t))
    && Abrupt(w, s, r, fuel)
  }

  // ----- shared steps -----

  lemma StillClear(f: Frame, sp: int, m: Memory, m': Memory)
    requires Clear(f, sp, m) && m'.Keys <= m.Keys + f.obj
    ensures Clear(f, sp, m')
  {
  }

  lemma KeptSelf(f: Frame, sp: int, v: Memory)
    ensures Kept(f, sp, v, v)
  {
  }

  lemma LowerClear(f: Frame, sp: int, m: Memory)
    requires Clear(f, sp, m) && Room(f, sp, 1)
    ensures Clear(f, sp - 4, m)
  {
  }

  lemma KeptJoin(f: Frame, sp: int, v0: Memory, v1: Memory, v2: Memory)
    requires Kept(f, sp, v0, v1) && Kept(f, sp, v1, v2)
    ensures Kept(f, sp, v0, v2)
  {
    forall a | a !in f.obj && !(f.lo <= a < sp) ensures Read(v2, a) == Read(v0, a) {
      assert Read(v1, a) == Read(v0, a);
    }
  }

  lemma AbruptJoin(w: World, s: State, t: State, r: Result, fuel: nat)
    requires Reaches(w.code, s, t) && Abrupt(w, t, r, fuel)
    ensures Abrupt(w, s, r, fuel)
  {
    if r.Timeout? { RunsForJoin(w.code, s, t, fuel); }
    if r.Exit? { HaltsJoin(w.code, s, t, r.code); }
  }

  /** Running on from an intermediate state that kept the frame. */
  lemma {:induction false} Continue(w: World, f: Frame, sp: int, m: Memory, s: State, m1: Memory, u: State, r: Result, t: State, end: int, fuel: nat)
    requires Reaches(w.code, s, u) && Kept(f, sp, s.mem, u.mem) && m1.Keys <= m.Keys + f.obj
    requires Sound(w, f, sp, m1, u, r, t, end, fuel)
    ensures Sound(w, f, sp, m, s, r, t, end, fuel)
  {
    AbruptJoin(w, s, u, r, fuel);
    if r.Value? || r.NoValue? { KeptJoin(f, sp, s.mem, u.mem, t.mem); }
    if r.Value? || r.NoValue? {
      ReachJoin(w.code, s, u, t);
    }
  }

  lemma CarryOn(w: World, f: Frame, sp: int, m: Memory, s: State, m1: Memory, u: State, r: Result, t: State, end: int, fuel: nat)
    requires Reaches(w.code, s, u) && Kept(f, sp, s.mem, u.mem) && m1.Keys <= m.Keys + f.obj
    requires Completes(w, f, sp, m1, u, r, t, end, fuel)
    ensures Completes(w, f, sp, m, s, r, t, end, fuel)
  {
    hide Kept, Agree, Reaches, Run, RunsFor, HaltsWith;
    AbruptJoin(w, s, u, r, fuel);
    if r.Value? || r.NoValue? || r.Next? {
      ReachJoin(w.code, s, u, t);
      KeptJoin(f, sp, s.mem, u.mem, t.mem);
    }
  }

  /** PSH: the word below the stack pointer now holds the accumulator, and no defined byte changed. */
  lemma Push(w: World, f: Frame, sp: int, m: Memory, s: State) returns (t: State)
    requires At(w.code, s.pc, [PSH]) && s.sp == sp && Agree(m, s.mem) && Clear(f, sp, m) && Room(f, sp, 1)
    ensures t == Pushed(s, s.acc).(pc := s.pc + 1) && Reaches(w.code, s, t)
    ensures Agree(m, t.mem) && Kept(f, sp, s.mem, t.mem) && Clear(f, sp - 4, m) && LoadInt(t.mem, sp - 4) == s.acc
  {
    assert [PSH][0] == PSH;
    t := Pushed(s, s.acc).(pc := s.pc + 1);
    ReachStep(w.code, s, t);
    LoadStore(s.mem, sp - 4, s.acc);
  }

  /** A pending word survives any code that runs above it on the stack. */
  lemma Pending(f: Frame, sp: int, m: Memory, v0: Memory, v1: Memory)
    requires Clear(f, sp, m) && Room(f, sp, 1) && Kept(f, sp - 4, v0, v1)
    ensures LoadInt(v1, sp - 4) == LoadInt(v0, sp - 4) && Kept(f, sp, v0, v1)
  {
    forall i | sp - 4 <= i < sp ensures Read(v0, i) == Read(v1, i) {
      assert i !in f.obj;
    }
    LoadSame(v0, v1, sp - 4);
  }

  /** The binary opcodes pop their left operand. */
  lemma PopOp(w: World, sp: int, s: State, op: int, l: int32, v: int32) returns (t: State)
    requires At(w.code, s.pc, [op]) && OR <= op <= MOD && s.sp == sp - 4 && LoadInt(s.mem, sp - 4) == l
    requires Operate(op, l, s.acc) == Some(v)
    ensures t == s.(pc := s.pc + 1, sp := sp, acc := v) && Reaches(w.code, s, t)
  {
    assert [op][0] == op;
    t := s.(pc := s.pc + 1, sp := sp, acc := v);
    ReachStep(w.code, s, t);
  }

  lemma Immediate(w: World, s: State, n: int) returns (t: State)
    requires At(w.code, s.pc, [IMM, n])
    ensures t == s.(pc := s.pc + 2, acc := Wrap(n)) && Reaches(w.code, s, t)
  {
    assert [IMM, n][0] == IMM && [IMM, n][1] == n;
    t := s.(pc := s.pc + 2, acc := Wrap(n));
    ReachStep(w.code, s, t);
  }

  /** PSH; IMM k; op: combines the accumulator with a constant. */
  lemma WithConst(w: World, f: Frame, sp: int, m: Memory, s: State, k: int32, op: int, v: int32) returns (t: State)
    requires At(w.code, s.pc, [PSH, IMM, k, op]) && OR <= op <= MOD && s.sp == sp
    requires Agree(m, s.mem) && Clear(f, sp, m) && Room(f, sp, 1)
    requires Operate(op, s.acc, k) == Some(v)
    ensures Reaches(w.code, s, t) && Agree(m, t.mem) && Kept(f, sp, s.mem, t.mem)
    ensures t.pc == s.pc + 4 && t.sp == sp && t.bp == s.bp && t.acc == v
  {
    hide Reaches, Operate;
    assert [PSH, IMM, k, op] == [PSH] + [IMM, k, op];
    Split(w.code, s.pc, [PSH], [IMM, k, op]);
    assert [IMM, k, op] == [IMM, k] + [op];
    Split(w.code, s.pc + 1, [IMM, k], [op]);
    var t1 := Push(w, f, sp, m, s);
    var t2 := Immediate(w, t1, k);
    t := PopOp(w, sp, t2, op, s.acc, v);
    ReachJoin(w.code, s, t1, t2);
    ReachJoin(w.code, s, t2, t);
  }

  /** LI or LC reads what the source reads. */
  lemma LoadStep(w: World, m: Memory, s: State, isChar: bool, v: int32) returns (t: State)
    requires At(w.code, s.pc, [LoadOp(isChar)]) && Agree(m, s.mem)
    requires Load(m, s.acc, isChar) == Value(v, m)
    ensures t == s.(pc := s.pc + 1, acc := v) && Reaches(w.code, s, t)
  {
    assert [LoadOp(isChar)][0] == LoadOp(isChar);
    if !isChar {
      assert Readable(m, s.acc);
      LoadSame(m, s.mem, s.acc);
    }
    t := s.(pc := s.pc + 1, acc := v);
    ReachStep(w.code, s, t);
  }

  /** SI or SC stores through the pending address, into an object. */
  lemma StoreStep(w: World, f: Frame, sp: int, m: Memory, s: State, a: int32, ty: Type, v: int32, m': Memory) returns (t: State)
    requires At(w.code, s.pc, [StoreOp(ty)]) && s.sp == sp - 4 && LoadInt(s.mem, sp - 4) == a && Agree(m, s.mem)
    requires Store(f, m, a, s.acc, ty) == Value(v, m')
    ensures Reaches(w.code, s, t) && Agree(m', t.mem) && Kept(f, sp, s.mem, t.mem) && m'.Keys <= m.Keys + f.obj
    ensures t.pc == s.pc + 1 && t.sp == sp && t.bp == s.bp && t.acc == v
  {
    assert [StoreOp(ty)][0] == StoreOp(ty);
    if ty == CHAR {
      t := s.(pc := s.pc + 1, sp := sp, acc := v, mem := StoreChar(s.mem, a, s.acc));
    } else {
      t := s.(pc := s.pc + 1, sp := sp, mem := StoreInt(s.mem, a, s.acc));
    }
    ReachStep(w.code, s, t);
  }

  /** BZ and BNZ. */
  lemma Branch(w: World, s: State, op: int, target: int) returns (t: State)
    requires At(w.code, s.pc, [op, target]) && (op == BZ || op == BNZ)
    ensures t == s.(pc := if (s.acc != 0) == (op == BNZ) then target else s.pc + 2) && Reaches(w.code, s, t)
  {
    assert [op, target][0] == op && [op, target][1] == target;
    t := s.(pc := if (s.acc != 0) == (op == BNZ) then target else s.pc + 2);
    ReachStep(w.code, s, t);
  }

  lemma Jump(w: World, s: State, target: int) returns (t: State)
    requires At(w.code, s.pc, [JMP, target])
    ensures t == s.(pc := target) && Reaches(w.code, s, t) && Step(w.code, s) == Running(t)
  {
    assert [JMP, target][0] == JMP && [JMP, target][1] == target;
    t := s.(pc := target);
    ReachStep(w.code, s, t);
  }

  /** Stepping a place: the address is kept, the load reissued, the stepped value stored back. */
  lemma StepTailSound(w: World, f: Frame, sp: int, m: Memory, s: State, up: bool, isChar: bool, ty: Type,
                      v: int32, r: int32, m': Memory) returns (t: State)
    requires At(w.code, s.pc, StepTail(up, isChar, ty)) && s.sp == sp && Agree(m, s.mem) && Clear(f, sp, m)
    requires Room(f, sp, 2) && Load(m, s.acc, isChar) == Value(v, m)
    requires Store(f, m, s.acc, Wrap(v + Delta(up, ty)), ty) == Value(r, m')
    ensures Reaches(w.code, s, t) && Agree(m', t.mem) && Kept(f, sp, s.mem, t.mem) && m'.Keys <= m.Keys + f.obj
    ensures t.pc == s.pc + 7 && t.sp == sp && t.bp == s.bp && t.acc == r
  {
    hide Reaches, Operate, Load, Store, Kept, Agree, Clear, Run;
    var k, op := Stride(ty), StepOp(up);
    var step := [PSH, IMM, k, op];
    assert StepTail(up, isChar, ty) == [PSH] + ([LoadOp(isChar)] + (step + [StoreOp(ty)]));
    Split(w.code, s.pc, [PSH], [LoadOp(isChar)] + (step + [StoreOp(ty)]));
    Split(w.code, s.pc + 1, [LoadOp(isChar)], step + [StoreOp(ty)]);
    Split(w.code, s.pc + 2, step, [StoreOp(ty)]);
    var t1 := Push(w, f, sp, m, s);
    var t2 := LoadStep(w, m, t1, isChar, v);
    StepMeaning(up, ty, v);
    var t3 := WithConst(w, f, sp - 4, m, t2, k, op, Wrap(v + Delta(up, ty)));
    Pending(f, sp, m, t2.mem, t3.mem);
    t := StoreStep(w, f, sp, m, t3, s.acc, ty, r, m');
    ReachJoin(w.code, s, t1, t2);
    ReachJoin(w.code, s, t2, t3);
    ReachJoin(w.code, s, t3, t);
    KeptJoin(f, sp, s.mem, t1.mem, t3.mem);
    KeptJoin(f, sp, s.mem, t3.mem, t.mem);
  }

  lemma StepMeaning(up: bool, ty: Type, v: int32)
    ensures Operate(StepOp(up), v, Stride(ty)) == Some(Wrap(v + Delta(up, ty)))
  {
  }

  /** A two-armed branch: the parts of its code. */
  lemma Diamond(code: seq<int>, at: int, test: seq<int>, no: int, yes: seq<int>, end: int, other: seq<int>)
    requires At(code, at, test + [BZ, no] + yes + [JMP, end] + other)
    ensures At(code, at, test) && At(code, at + |test|, [BZ, no]) && At(code, at + |test| + 2, yes)
    ensures At(code, at + |test| + 2 + |yes|, [JMP, end]) && At(code, at + |test| + 2 + |yes| + 2, other)
  {
    Split(code, at, test + [BZ, no] + yes + [JMP, end], other);
    Split(code, at, test + [BZ, no] + yes, [JMP, end]);
    Split(code, at, test + [BZ, no], yes);
    Split(code, at, test, [BZ, no]);
  }
}
