// The shape of emitted code: jumps go to instructions of the same function, and the stack is equally deep on
// every way to an instruction.

module Flow {
  import opened Options
  import opened Vm
  import opened Syntax
  import opened CodeGen
  import opened Semantics
  import Simulation

  function GenFun(fn: Fun, at: int): seq<int> { Simulation.GenFun(fn, at) }

  /** Opcodes that are followed by an operand. */
  predicate HasOperand(op: int) {
    op == LEA || op == IMM || op == JMP || op == JSR || op == BZ || op == BNZ || op == ENT || op == ADJ
  }

  predicate Jumps(op: int) { op == JMP || op == BZ || op == BNZ }

  predicate Known(op: int) { LEA <= op <= EXIT }

  function Size(op: int): nat { if HasOperand(op) then 2 else 1 }

  /** The words an instruction takes off the stack, and puts on it. */
  function Pops(op: int, n: int): int {
    if op == ADJ then n else if op == SI || op == SC || OR <= op <= MOD then 1 else 0
  }

  function Pushes(op: int): int { if op == PSH then 1 else 0 }

  /** The code is a row of whole instructions. */
  predicate Whole(code: seq<int>)
    decreases |code|
  {
    code == [] || (Known(code[0]) && Size(code[0]) <= |code| && Whole(code[Size(code[0])..]))
  }

  /** The words where its instructions start, and the word behind it. */
  function Starts(code: seq<int>, at: int): (r: set<int>)
    requires Whole(code)
    ensures at in r && at + |code| in r && forall p :: p in r ==> at <= p <= at + |code|
    decreases |code|
  {
    if code == [] then {at} else {at} + Starts(code[Size(code[0])..], at + Size(code[0]))
  }

  /** A depth for each start of an instruction, counted in words of the current frame. */
  type Depths = map<int, int>

  ghost predicate Reaches(D: Depths, X: Depths, target: int, depth: int) {
    (target in D && D[target] == depth) || (target in X && X[target] == depth)
  }

  /** The instruction at p leads only to instructions, at the depth it leaves. X has the targets outside the code. */
  ghost predicate StepFlows(code: seq<int>, at: int, D: Depths, X: Depths, p: int)
    requires Whole(code) && D.Keys == Starts(code, at) && p in D && p < at + |code|
  {
    && 0 <= p - at < |code| && p - at + Size(code[p - at]) <= |code| && Known(code[p - at])
    && var op := code[p - at];
    && var n := if HasOperand(op) then code[p - at + 1] else 0;
    && var after := D[p] - Pops(op, n) + Pushes(op);
    && 0 <= Pops(op, n) <= D[p]
    && p + Size(op) in D
    && (op != JMP && op != LEV && op != EXIT ==> D[p + Size(op)] == after)
    && (Jumps(op) ==> Reaches(D, X, n, after))
  }

  ghost predicate Flows(code: seq<int>, at: int, D: Depths, X: Depths) {
    && Whole(code) && D.Keys == Starts(code, at)
    && forall p {:trigger StepFlows(code, at, D, X, p)} :: p in D && p < at + |code| ==> StepFlows(code, at, D, X, p)
  }

  /** The code runs from one depth to another. */
  ghost predicate Runs(code: seq<int>, at: int, D: Depths, X: Depths, from: int, to: int) {
    Flows(code, at, D, X) && at in D && D[at] == from && at + |code| in D && D[at + |code|] == to
  }

  // ----- one code behind another -----

  lemma {:induction false} WholeCat(a: seq<int>, b: seq<int>)
    requires Whole(a) && Whole(b)
    ensures Whole(a + b)
    decreases |a|
  {
    hide Known, Size;
    if a == [] {
      assert a + b == b;
    } else {
      var n := Size(a[0]);
      SizePositive(a[0]);
      WholeCat(a[n..], b);
      assert (a + b)[n..] == a[n..] + b;
    }
  }

  lemma StartsUnfold(code: seq<int>, at: int)
    requires Whole(code) && code != []
    ensures var n := Size(code[0]);
      && 1 <= n <= |code| && Whole(code[n..]) && Starts(code, at) == {at} + Starts(code[n..], at + n)
  {
  }

  lemma {:induction false} StartsCat(a: seq<int>, b: seq<int>, at: int)
    requires Whole(a) && Whole(b) && Whole(a + b)
    ensures Starts(a + b, at) == Starts(a, at) + Starts(b, at + |a|)
    decreases |a|
  {
    hide Whole, Starts, Size;
    if a == [] {
      StartsNothing(b, at);
      assert a + b == b;
    } else {
      StartsUnfold(a, at);
      StartsUnfold(a + b, at);
      var n := Size(a[0]);
      var t := a[n..];
      assert (a + b)[0] == a[0] && (a + b)[n..] == t + b;
      assert at + n + |t| == at + |a|;
      StartsCat(t, b, at + n);
      Union(at, Starts(t, at + n), Starts(b, at + |a|));
    }
  }

  lemma StartsNothing(b: seq<int>, at: int)
    requires Whole(b)
    ensures Whole([]) && Starts([], at) + Starts(b, at) == Starts(b, at)
  {
  }

  lemma Union(p: int, x: set<int>, y: set<int>)
    ensures {p} + (x + y) == ({p} + x) + y
  {
  }

  lemma SizePositive(op: int)
    ensures 1 <= Size(op) <= 2
  {
  }

  lemma Cat(a: seq<int>, b: seq<int>, at: int, D1: Depths, D2: Depths, X: Depths, from: int, mid: int, to: int)
    returns (D: Depths)
    requires Runs(a, at, D1, X, from, mid) && Runs(b, at + |a|, D2, X, mid, to)
    ensures Runs(a + b, at, D, X, from, to)
    ensures (forall p :: p in D1 ==> p in D && D[p] == D1[p]) && (forall p :: p in D2 ==> p in D && D[p] == D2[p])
  {
    hide Whole, Starts, StepFlows;
    WholeCat(a, b);
    StartsCat(a, b, at);
    D := D1 + D2;
    var m := at + |a|;
    StartsWithin(a, at);
    StartsWithin(b, m);
    assert D.Keys == Starts(a + b, at);
    forall p | p in D1 ensures D[p] == D1[p] {
      if p in D2 { assert p == m; }
    }
    forall p | p in D && p < at + |a + b| ensures StepFlows(a + b, at, D, X, p) {
      if p < m {
        assert p in D1 && StepFlows(a, at, D1, X, p);
        CatStep(a, b, at, D1, D2, X, p);
      } else {
        assert p in D2 && StepFlows(b, m, D2, X, p);
        CatStepBehind(a, b, at, D1, D2, X, p);
      }
    }
  }

  lemma StartsWithin(code: seq<int>, at: int)
    requires Whole(code)
    ensures forall p :: p in Starts(code, at) ==> at <= p <= at + |code|
  {
  }

  lemma CatStep(a: seq<int>, b: seq<int>, at: int, D1: Depths, D2: Depths, X: Depths, p: int)
    requires Whole(a) && Whole(b) && Whole(a + b) && D1.Keys == Starts(a, at) && D2.Keys == Starts(b, at + |a|)
    requires (D1 + D2).Keys == Starts(a + b, at) && D1[at + |a|] == D2[at + |a|]
    requires p in D1 && p < at + |a| && StepFlows(a, at, D1, X, p)
    ensures StepFlows(a + b, at, D1 + D2, X, p)
  {
    hide Whole, Starts, Known, Pops, Pushes;
    var D := D1 + D2;
    forall q | q in D1 ensures q in D && D[q] == D1[q] {
      if q in D2 { assert q == at + |a|; }
    }
  }

  lemma CatStepBehind(a: seq<int>, b: seq<int>, at: int, D1: Depths, D2: Depths, X: Depths, p: int)
    requires Whole(a) && Whole(b) && Whole(a + b) && D1.Keys == Starts(a, at) && D2.Keys == Starts(b, at + |a|)
    requires (D1 + D2).Keys == Starts(a + b, at)
    requires p in D2 && at + |a| <= p < at + |a| + |b| && StepFlows(b, at + |a|, D2, X, p)
    ensures StepFlows(a + b, at, D1 + D2, X, p)
  {
    hide Whole, Starts, Known, Pops, Pushes;
    assert forall k :: 0 <= k < |b| ==> (a + b)[|a| + k] == b[k];
  }

  /** Targets that lie in the code after all. */
  lemma Closed(code: seq<int>, at: int, D: Depths, X: Depths, Y: Depths, from: int, to: int)
    requires Runs(code, at, D, X, from, to)
    requires forall t :: t in X ==> (t in D && D[t] == X[t]) || (t in Y && Y[t] == X[t])
    ensures Runs(code, at, D, Y, from, to)
  {
    hide Whole, Starts, Known, Pops, Pushes;
    forall p | p in D && p < at + |code| ensures StepFlows(code, at, D, Y, p) {
      assert StepFlows(code, at, D, X, p);
    }
  }

  /** Code without jumps and returns, and the depth it leaves. */
  function Line(code: seq<int>, d: int): Option<int>
    decreases |code|
  {
    if code == [] then Some(d)
    else
      var op := code[0];
      if !Known(op) || Size(op) > |code| || Jumps(op) || op == LEV then None
      else
        var n := if HasOperand(op) then code[1] else 0;
        if 0 <= Pops(op, n) <= d then Line(code[Size(op)..], d - Pops(op, n) + Pushes(op)) else None
  }

  lemma {:induction false} LineRuns(code: seq<int>, at: int, d: int, X: Depths) returns (D: Depths)
    requires Line(code, d).Some?
    ensures Runs(code, at, D, X, d, Line(code, d).value)
    decreases |code|
  {
    if code == [] {
      D := map[at := d];
    } else {
      var op := code[0];
      var k := Size(op);
      var one, rest := code[..k], code[k..];
      var d' := d - Pops(op, if HasOperand(op) then code[1] else 0) + Pushes(op);
      var D1 := map[at := d, at + k := d'];
      OneRuns(one, at, d, d', X, D1);
      var D2 := LineRuns(rest, at + k, d', X);
      D := Cat(one, rest, at, D1, D2, X, d, d', Line(rest, d').value);
      assert code == one + rest;
    }
  }

  lemma OneWhole(one: seq<int>, at: int)
    requires one != [] && Known(one[0]) && |one| == Size(one[0])
    ensures Whole(one) && Starts(one, at) == {at, at + |one|}
  {
    assert one[Size(one[0])..] == [];
  }

  lemma OneRuns(one: seq<int>, at: int, d: int, d': int, X: Depths, D: Depths)
    requires one != [] && Known(one[0]) && |one| == Size(one[0]) && D == map[at := d, at + |one| := d']
    requires var n := if HasOperand(one[0]) then one[1] else 0; var after := d - Pops(one[0], n) + Pushes(one[0]);
      && 0 <= Pops(one[0], n) <= d
      && (one[0] != JMP && one[0] != LEV && one[0] != EXIT ==> d' == after)
      && (Jumps(one[0]) ==> n in X && X[n] == after)
    ensures Runs(one, at, D, X, d, d')
  {
    OneWhole(one, at);
    hide Whole, Starts;
    assert StepFlows(one, at, D, X, at);
  }

  // ----- expressions -----

  /** Library functions have the opcodes after the arithmetic ones. */
  ghost predicate Library(sc: Scope) {
    forall x :: x in sc.env && sc.env[x].cls.SysClass? ==> OPEN <= sc.env[x].val <= EXIT
  }

  /** A code followed by straight code. */
  lemma Tail(a: seq<int>, t: seq<int>, at: int, D1: Depths, X: Depths, from: int, mid: int) returns (D: Depths)
    requires Runs(a, at, D1, X, from, mid) && Line(t, mid).Some?
    ensures Runs(a + t, at, D, X, from, Line(t, mid).value)
  {
    hide Flows, Line;
    var D2 := LineRuns(t, at + |a|, mid, X);
    D := Cat(a, t, at, D1, D2, X, from, mid, Line(t, mid).value);
  }

  lemma BranchRuns(op: int, target: int, at: int, d: int, X: Depths) returns (D: Depths)
    requires Jumps(op) && d >= 0 && target in X && X[target] == d
    ensures Runs([op, target], at, D, X, d, d)
  {
    D := map[at := d, at + 2 := d];
    OneRuns([op, target], at, d, d, X, D);
  }

  lemma BinTailLine(op: BinOp, ta: Type, tb: Type, d: int)
    requires d >= 0
    ensures Line(BinTail(op, ta, tb), d + 1) == Some(d)
  {
    var t := BinTail(op, ta, tb);
    if |t| == 1 {
      OneLine(Opcode(op), d);
    } else if t[0] == PSH {
      ScaledLine(t[4], d);
    } else {
      assert t[1..] == [PSH, IMM, 4, DIV];
      assert t[1..][1..] == [IMM, 4, DIV];
      assert t[1..][1..][2..] == [DIV];
      OneLine(DIV, d);
      assert Line([IMM, 4, DIV], d + 1) == Some(d);
      assert Line([PSH, IMM, 4, DIV], d) == Some(d);
    }
  }

  lemma OneLine(op: int, d: int)
    requires OR <= op <= MOD && d >= 0
    ensures Line([op], d + 1) == Some(d)
  {
    assert [op][1..] == [];
  }

  lemma ScaledLine(op: int, d: int)
    requires OR <= op <= MOD && d >= 0
    ensures Line([PSH, IMM, 4, MUL, op], d + 1) == Some(d)
  {
    assert [PSH, IMM, 4, MUL, op][1..] == [IMM, 4, MUL, op];
    assert [IMM, 4, MUL, op][2..] == [MUL, op];
    assert [MUL, op][1..] == [op];
    OneLine(op, d);
    assert Line([MUL, op], d + 2) == Some(d);
    assert Line([IMM, 4, MUL, op], d + 2) == Some(d);
  }

  lemma UnaryTailLine(op: UnOp, d: int)
    requires op != Neg && d >= 0
    ensures Line(UnaryTail(op), d) == Some(d)
  {
    match op
    case Not =>
      assert [PSH, IMM, 0, EQ][1..] == [IMM, 0, EQ];
      assert [IMM, 0, EQ][2..] == [EQ];
      OneLine(EQ, d);
    case BitNot =>
      assert [PSH, IMM, -1, XOR][1..] == [IMM, -1, XOR];
      assert [IMM, -1, XOR][2..] == [XOR];
      OneLine(XOR, d);
    case Plus =>
  }

  lemma StepTailLine(up: bool, isChar: bool, t: Type, d: int)
    requires d >= 0
    ensures Line(StepTail(up, isChar, t), d) == Some(d)
  {
    var n, l, s, o := Stride(t), LoadOp(isChar), StepOp(up), StoreOp(t);
    assert [PSH, l, PSH, IMM, n, s, o][1..] == [l, PSH, IMM, n, s, o];
    assert [l, PSH, IMM, n, s, o][1..] == [PSH, IMM, n, s, o];
    StepEndLine(n, s, o, d);
    assert Line([l, PSH, IMM, n, s, o], d + 1) == Some(d);
  }

  lemma StepEndLine(n: int, s: int, o: int, d: int)
    requires d >= 0 && OR <= s <= MOD && (o == SI || o == SC)
    ensures Line([PSH, IMM, n, s, o], d + 1) == Some(d)
  {
    assert [PSH, IMM, n, s, o][1..] == [IMM, n, s, o];
    assert [IMM, n, s, o][2..] == [s, o];
    assert [s, o][1..] == [o];
    assert [o][1..] == [];
    assert Line([o], d + 1) == Some(d);
    assert Line([s, o], d + 2) == Some(d);
    assert Line([IMM, n, s, o], d + 2) == Some(d);
  }

  lemma UndoTailLine(up: bool, t: Type, d: int)
    requires d >= 0
    ensures Line([PSH, IMM, Stride(t), StepOp(up)], d) == Some(d)
  {
    var n, s := Stride(t), StepOp(up);
    assert [PSH, IMM, n, s][1..] == [IMM, n, s];
    assert [IMM, n, s][2..] == [s];
    OneLine(s, d);
  }

  lemma WordLine(op: int, d: int)
    requires d >= 0 && (op == PSH || op == LI || op == LC || OPEN <= op <= EXIT)
    ensures Line([op], d) == Some(d + Pushes(op))
  {
    assert [op][1..] == [];
  }

  lemma StoreLine(t: Type, d: int)
    requires d >= 0
    ensures Line([StoreOp(t)], d + 1) == Some(d)
  {
    assert [StoreOp(t)][1..] == [];
  }

  lemma OperandLine(op: int, n: int, d: int)
    requires d >= 0 && (op == LEA || op == IMM || op == JSR || (op == ADJ && 0 <= n <= d))
    ensures Line([op, n], d) == Some(d - Pops(op, n))
  {
    assert [op, n][2..] == [];
  }

  /** An expression leaves the stack as deep as it found it; jumps stay inside it. */
  lemma {:induction false} ExprRuns(e: Expr, sc: Scope, at: int, d: int, X: Depths) returns (D: Depths)
    requires Library(sc) && d >= 0
    ensures Runs(Gen(e, sc, at), at, D, X, d, d)
    decreases e, 3
  {
    hide Flows, Runs, Line, BinTail, StepTail, UnaryTail, Gen, GenAddr, GenArgs, GenTransfer, Library;
    match e
    case Lit(n) => GenLeaf(e, sc, at); OperandLine(IMM, n, d); D := LineRuns(Gen(e, sc, at), at, d, X);
    case SizeOf(t) => GenLeaf(e, sc, at); OperandLine(IMM, Gen(e, sc, at)[1], d); D := LineRuns(Gen(e, sc, at), at, d, X);
    case Call(_, _) => D := CallRuns(e, sc, at, d, X);
    case AddrOf(l) => GenThrough(e, sc, at); D := AddrRuns(l, sc, at, d, X);
    case Unary(_, _) => D := UnaryRuns(e, sc, at, d, X);
    case Cast(_, c) => GenThrough(e, sc, at); D := ExprRuns(c, sc, at, d, X);
    case PreStep(up, l) =>
      GenStep(e, sc, at);
      var D1 := AddrRuns(l, sc, at, d, X);
      StepTailLine(up, ReadsChar(l, sc), TypeOf(l, sc), d);
      D := Tail(GenAddr(l, sc, at), StepTail(up, ReadsChar(l, sc), TypeOf(l, sc)), at, D1, X, d, d);
    case PostStep(up, l) =>
      GenStep(e, sc, at);
      var t := TypeOf(l, sc);
      var D1 := AddrRuns(l, sc, at, d, X);
      StepTailLine(up, ReadsChar(l, sc), t, d);
      var D2 := Tail(GenAddr(l, sc, at), StepTail(up, ReadsChar(l, sc), t), at, D1, X, d, d);
      UndoTailLine(!up, t, d);
      D := Tail(GenAddr(l, sc, at) + StepTail(up, ReadsChar(l, sc), t), [PSH, IMM, Stride(t), StepOp(!up)], at, D2, X, d, d);
    case Assign(l, r) => D := AssignRuns(e, sc, at, d, X);
    case Cond(_, _, _) => D := CondRuns(e, sc, at, d, X);
    case OrElse(a, b) => D := ShortRuns(e, BNZ, a, b, sc, at, d, X);
    case AndAlso(a, b) => D := ShortRuns(e, BZ, a, b, sc, at, d, X);
    case Bin(op, a, b) => D := BinRuns(e, sc, at, d, X);
    case _ => D := PlaceRuns(e, sc, at, d, X);
  }

  lemma GenLeaf(e: Expr, sc: Scope, at: int)
    ensures e.Lit? ==> Gen(e, sc, at) == [IMM, e.n]
    ensures e.SizeOf? ==> |Gen(e, sc, at)| == 2 && Gen(e, sc, at) == [IMM, Gen(e, sc, at)[1]]
  {
  }

  lemma GenThrough(e: Expr, sc: Scope, at: int)
    ensures e.AddrOf? ==> Gen(e, sc, at) == GenAddr(e.e, sc, at)
    ensures e.Cast? ==> Gen(e, sc, at) == Gen(e.e, sc, at)
  {
  }

  lemma GenStep(e: Expr, sc: Scope, at: int)
    requires e.PreStep? || e.PostStep?
    ensures var t := TypeOf(e.e, sc); var c := GenAddr(e.e, sc, at) + StepTail(e.up, ReadsChar(e.e, sc), t);
      Gen(e, sc, at) == if e.PreStep? then c else c + [PSH, IMM, Stride(t), StepOp(!e.up)]
  {
    hide StepTail, GenAddr;
  }

  lemma {:induction false} PlaceRuns(e: Expr, sc: Scope, at: int, d: int, X: Depths) returns (D: Depths)
    requires Library(sc) && d >= 0 && (e.Var? || e.Deref? || e.Index?)
    ensures Runs(Gen(e, sc, at), at, D, X, d, d)
    decreases e, 2
  {
    hide Flows, Runs, Line, GenAddr, Library;
    D := AddrRuns(e, sc, at, d, X);
    if !IsConst(e, sc) {
      var l := LoadOp(TypeOf(e, sc) == CHAR);
      WordLine(l, d);
      D := Tail(GenAddr(e, sc, at), [l], at, D, X, d, d);
    }
  }

  lemma {:induction false} AddrRuns(e: Expr, sc: Scope, at: int, d: int, X: Depths) returns (D: Depths)
    requires Library(sc) && d >= 0
    ensures Runs(GenAddr(e, sc, at), at, D, X, d, d)
    decreases e, 1
  {
    hide Flows, Runs, Line, Gen, BinTail, Library;
    match e
    case Deref(p) => D := ExprRuns(p, sc, at, d, X);
    case Index(a, i) =>
      var D1 := PushedRuns(a, sc, at, d, X);
      var base := Gen(a, sc, at) + [PSH];
      var D2 := ExprRuns(i, sc, at + |base|, d + 1, X);
      var D3 := Cat(base, Gen(i, sc, at + |base|), at, D1, D2, X, d, d + 1, d + 1);
      BinTailLine(Add, TypeOf(a, sc), INT, d);
      D := Tail(base + Gen(i, sc, at + |base|), BinTail(Add, TypeOf(a, sc), INT), at, D3, X, d, d + 1);
    case Cast(_, c) => D := AddrRuns(c, sc, at, d, X);
    case Unary(_, c) => D := AddrRuns(c, sc, at, d, X);
    case Var(x) =>
      if x in sc.env {
        OperandLine(if sc.env[x].cls.LocClass? then LEA else IMM, GenAddr(e, sc, at)[1], d);
      } else {
        EmptyLine(d);
      }
      D := LineRuns(GenAddr(e, sc, at), at, d, X);
    case _ =>
      EmptyLine(d);
      D := LineRuns(GenAddr(e, sc, at), at, d, X);
  }

  lemma EmptyLine(d: int)
    ensures Line([], d) == Some(d)
  {
  }

  /** An expression whose value is then pushed. */
  lemma {:induction false} PushedRuns(e: Expr, sc: Scope, at: int, d: int, X: Depths) returns (D: Depths)
    requires Library(sc) && d >= 0
    ensures Runs(Gen(e, sc, at) + [PSH], at, D, X, d, d + 1)
    decreases e, 4
  {
    hide Flows, Runs, Line, Gen, Library;
    D := ExprRuns(e, sc, at, d, X);
    WordLine(PSH, d);
    D := Tail(Gen(e, sc, at), [PSH], at, D, X, d, d);
  }

  lemma {:induction false} ArgsRuns(args: Args, sc: Scope, at: int, d: int, X: Depths) returns (D: Depths)
    requires Library(sc) && d >= 0
    ensures Runs(GenArgs(args, sc, at), at, D, X, d, d + Count(args))
    decreases args, 0
  {
    hide Flows, Runs, Line, Gen, Library;
    match args
    case NoArgs =>
      EmptyLine(d);
      D := LineRuns([], at, d, X);
    case Arg(e, rest) =>
      var first := Gen(e, sc, at) + [PSH];
      var D1 := PushedRuns(e, sc, at, d, X);
      var D2 := ArgsRuns(rest, sc, at + |first|, d + 1, X);
      D := Cat(first, GenArgs(rest, sc, at + |first|), at, D1, D2, X, d, d + 1, d + 1 + Count(rest));
  }

  lemma TransferLine(g: Name, sc: Scope, d: int)
    requires Library(sc) && d >= 0
    ensures Line(GenTransfer(g, sc), d) == Some(d)
  {
    if g !in sc.env {
      EmptyLine(d);
    } else if sc.env[g].cls.SysClass? {
      WordLine(sc.env[g].val, d);
    } else {
      OperandLine(JSR, sc.env[g].val, d);
    }
  }

  lemma {:induction false} CallRuns(e: Expr, sc: Scope, at: int, d: int, X: Depths) returns (D: Depths)
    requires e.Call? && Library(sc) && d >= 0
    ensures Runs(Gen(e, sc, at), at, D, X, d, d)
    decreases e, 2
  {
    hide Flows, Runs, Line, GenArgs, GenTransfer, Library;
    var n := Count(e.args);
    var code := GenArgs(e.args, sc, at);
    var D1 := ArgsRuns(e.args, sc, at, d, X);
    TransferLine(e.g, sc, d + n);
    var D2 := Tail(code, GenTransfer(e.g, sc), at, D1, X, d, d + n);
    if n > 0 {
      OperandLine(ADJ, n, d + n);
      D := Tail(code + GenTransfer(e.g, sc), [ADJ, n], at, D2, X, d, d + n);
    } else {
      D := D2;
      assert Gen(e, sc, at) == code + GenTransfer(e.g, sc);
    }
  }

  lemma {:induction false} UnaryRuns(e: Expr, sc: Scope, at: int, d: int, X: Depths) returns (D: Depths)
    requires e.Unary? && Library(sc) && d >= 0
    ensures Runs(Gen(e, sc, at), at, D, X, d, d)
    decreases e, 2
  {
    hide Flows, Runs, Line, Library;
    if e.uop != Neg {
      hide Gen, UnaryTail;
      assert Gen(e, sc, at) == Gen(e.e, sc, at) + UnaryTail(e.uop) by { GenUnary(e, sc, at); }
      var D1 := ExprRuns(e.e, sc, at, d, X);
      UnaryTailLine(e.uop, d);
      D := Tail(Gen(e.e, sc, at), UnaryTail(e.uop), at, D1, X, d, d);
    } else if e.e.Lit? {
      OperandLine(IMM, Negated(e.e.n), d);
      D := LineRuns([IMM, Negated(e.e.n)], at, d, X);
    } else {
      hide Gen;
      assert Gen(e, sc, at) == [IMM, -1, PSH] + Gen(e.e, sc, at + 3) + [MUL] by { GenNegation(e, sc, at); }
      MinusLine(d);
      var D1 := LineRuns([IMM, -1, PSH], at, d, X);
      var D2 := ExprRuns(e.e, sc, at + 3, d + 1, X);
      var D3 := Cat([IMM, -1, PSH], Gen(e.e, sc, at + 3), at, D1, D2, X, d, d + 1, d + 1);
      OneLine(MUL, d);
      D := Tail([IMM, -1, PSH] + Gen(e.e, sc, at + 3), [MUL], at, D3, X, d, d + 1);
    }
  }

  lemma GenUnary(e: Expr, sc: Scope, at: int)
    requires e.Unary? && e.uop != Neg
    ensures Gen(e, sc, at) == Gen(e.e, sc, at) + UnaryTail(e.uop)
  {
    hide UnaryTail;
  }

  lemma GenNegation(e: Expr, sc: Scope, at: int)
    requires e.Unary? && e.uop == Neg && !e.e.Lit?
    ensures Gen(e, sc, at) == [IMM, -1, PSH] + Gen(e.e, sc, at + 3) + [MUL]
  {
    assert UnaryTail(Neg) == [MUL];
  }

  lemma MinusLine(d: int)
    requires d >= 0
    ensures Line([IMM, -1, PSH], d) == Some(d + 1)
  {
    assert [IMM, -1, PSH][2..] == [PSH];
    WordLine(PSH, d);
  }

  lemma {:induction false} AssignRuns(e: Expr, sc: Scope, at: int, d: int, X: Depths) returns (D: Depths)
    requires e.Assign? && Library(sc) && d >= 0
    ensures Runs(Gen(e, sc, at), at, D, X, d, d)
    decreases e, 2
  {
    hide Flows, Runs, Line, Gen, GenAddr, Library;
    var addr := GenAddr(e.l, sc, at) + [PSH];
    assert Gen(e, sc, at) == addr + Gen(e.r, sc, at + |addr|) + [StoreOp(TypeOf(e.l, sc))] by { GenAssign(e, sc, at); }
    var D1 := AddrRuns(e.l, sc, at, d, X);
    WordLine(PSH, d);
    var D2 := Tail(GenAddr(e.l, sc, at), [PSH], at, D1, X, d, d);
    var D3 := ExprRuns(e.r, sc, at + |addr|, d + 1, X);
    var D4 := Cat(addr, Gen(e.r, sc, at + |addr|), at, D2, D3, X, d, d + 1, d + 1);
    StoreLine(TypeOf(e.l, sc), d);
    D := Tail(addr + Gen(e.r, sc, at + |addr|), [StoreOp(TypeOf(e.l, sc))], at, D4, X, d, d + 1);
  }

  lemma GenAssign(e: Expr, sc: Scope, at: int)
    requires e.Assign?
    ensures var addr := GenAddr(e.l, sc, at) + [PSH];
      Gen(e, sc, at) == addr + Gen(e.r, sc, at + |addr|) + [StoreOp(TypeOf(e.l, sc))]
  {
    hide GenAddr;
  }

  lemma {:induction false} BinRuns(e: Expr, sc: Scope, at: int, d: int, X: Depths) returns (D: Depths)
    requires e.Bin? && Library(sc) && d >= 0
    ensures Runs(Gen(e, sc, at), at, D, X, d, d)
    decreases e, 2
  {
    hide Flows, Runs, Line, Gen, BinTail, Library;
    var left := Gen(e.a, sc, at) + [PSH];
    var tail := BinTail(e.bop, TypeOf(e.a, sc), TypeOf(e.b, sc));
    assert Gen(e, sc, at) == left + Gen(e.b, sc, at + |left|) + tail by { GenBin(e, sc, at); }
    var D1 := PushedRuns(e.a, sc, at, d, X);
    var D2 := ExprRuns(e.b, sc, at + |left|, d + 1, X);
    var D3 := Cat(left, Gen(e.b, sc, at + |left|), at, D1, D2, X, d, d + 1, d + 1);
    BinTailLine(e.bop, TypeOf(e.a, sc), TypeOf(e.b, sc), d);
    D := Tail(left + Gen(e.b, sc, at + |left|), tail, at, D3, X, d, d + 1);
  }

  lemma GenBin(e: Expr, sc: Scope, at: int)
    requires e.Bin?
    ensures var left := Gen(e.a, sc, at) + [PSH];
      Gen(e, sc, at) == left + Gen(e.b, sc, at + |left|) + BinTail(e.bop, TypeOf(e.a, sc), TypeOf(e.b, sc))
  {
    hide BinTail;
  }

  // ----- jumps -----

  /** Two pieces of code with a jump between them: to behind the second one. */
  lemma Skip(a: seq<int>, op: int, b: seq<int>, at: int, D1: Depths, D2: Depths, X: Depths, d: int, end: int)
    returns (D: Depths)
    requires Jumps(op) && d >= 0 && end == at + |a| + 2 + |b| && end in X && X[end] == d
    requires Runs(a, at, D1, X, d, d) && Runs(b, at + |a| + 2, D2, X, d, d)
    ensures Runs(a + [op, end] + b, at, D, X, d, d)
    ensures forall p :: p in D2 ==> p in D && D[p] == D2[p]
  {
    hide Flows, Line;
    var J := BranchRuns(op, end, at + |a|, d, X);
    var D3 := Cat(a, [op, end], at, D1, J, X, d, d, d);
    D := Cat(a + [op, end], b, at, D3, D2, X, d, d, d);
  }

  lemma {:induction false} ShortRuns(e: Expr, branch: int, a: Expr, b: Expr, sc: Scope, at: int, d: int, X: Depths)
    returns (D: Depths)
    requires (e == OrElse(a, b) && branch == BNZ) || (e == AndAlso(a, b) && branch == BZ)
    requires Library(sc) && d >= 0
    ensures Runs(Gen(e, sc, at), at, D, X, d, d)
    decreases e, 2
  {
    hide Flows, Line, Gen, Library;
    var left := Gen(a, sc, at);
    var right := Gen(b, sc, at + |left| + 2);
    var end := at + |left| + 2 + |right|;
    assert Gen(e, sc, at) == left + [branch, end] + right by { GenShortUses(e, branch, a, b, sc, at); }
    var Y := map[end := d];
    var D1 := ExprRuns(a, sc, at, d, Y);
    var D2 := ExprRuns(b, sc, at + |left| + 2, d, Y);
    D := Skip(left, branch, right, at, D1, D2, Y, d, end);
    Closed(left + [branch, end] + right, at, D, Y, X, d, d);
  }

  lemma GenShortUses(e: Expr, branch: int, a: Expr, b: Expr, sc: Scope, at: int)
    requires (e == OrElse(a, b) && branch == BNZ) || (e == AndAlso(a, b) && branch == BZ)
    ensures var left := Gen(a, sc, at); var right := Gen(b, sc, at + |left| + 2);
      Gen(e, sc, at) == left + [branch, at + |left| + 2 + |right|] + right
  {
    assert Gen(e, sc, at) == GenShort(branch, Gen(a, sc, at), b, sc, at);
  }

  /** A test with two arms. */
  lemma Arms(test: seq<int>, yes: seq<int>, other: seq<int>, at: int, D1: Depths, D2: Depths, D3: Depths, Y: Depths,
             X: Depths, d: int, no: int, end: int)
    returns (D: Depths)
    requires d >= 0 && no == at + |test| + 2 + |yes| + 2 && end == no + |other| && Y == map[no := d, end := d]
    requires Runs(test, at, D1, Y, d, d) && Runs(yes, at + |test| + 2, D2, Y, d, d) && Runs(other, no, D3, Y, d, d)
    ensures Runs(test + [BZ, no] + yes + [JMP, end] + other, at, D, X, d, d)
  {
    hide Flows, Line;
    var J := BranchRuns(BZ, no, at + |test|, d, Y);
    var A := Cat(test, [BZ, no], at, D1, J, Y, d, d, d);
    var B := Cat(test + [BZ, no], yes, at, A, D2, Y, d, d, d);
    D := Skip(test + [BZ, no] + yes, JMP, other, at, B, D3, Y, d, end);
    Closed(test + [BZ, no] + yes + [JMP, end] + other, at, D, Y, X, d, d);
  }

  lemma {:induction false} CondRuns(e: Expr, sc: Scope, at: int, d: int, X: Depths) returns (D: Depths)
    requires e.Cond? && Library(sc) && d >= 0
    ensures Runs(Gen(e, sc, at), at, D, X, d, d)
    decreases e, 2
  {
    hide Flows, Runs, Line, Gen, Library;
    var test := Gen(e.c, sc, at);
    var yes := Gen(e.a, sc, at + |test| + 2);
    var no := at + |test| + 2 + |yes| + 2;
    var other := Gen(e.b, sc, no);
    var end := no + |other|;
    assert Gen(e, sc, at) == test + [BZ, no] + yes + [JMP, end] + other by { GenCond(e, sc, at, no); }
    var Y := map[no := d, end := d];
    var D1 := ExprRuns(e.c, sc, at, d, Y);
    var D2 := ExprRuns(e.a, sc, at + |test| + 2, d, Y);
    var D3 := ExprRuns(e.b, sc, no, d, Y);
    D := Arms(test, yes, other, at, D1, D2, D3, Y, X, d, no, end);
  }

  lemma GenCond(e: Expr, sc: Scope, at: int, no: int)
    requires e.Cond?
    requires var test := Gen(e.c, sc, at); no == at + |test| + 2 + |Gen(e.a, sc, at + |test| + 2)| + 2
    ensures var test := Gen(e.c, sc, at); var yes := Gen(e.a, sc, at + |test| + 2); var other := Gen(e.b, sc, no);
      Gen(e, sc, at) == test + [BZ, no] + yes + [JMP, no + |other|] + other
  {
  }

  // ----- statements -----

  /** A return, at any depth; what stands behind it starts again from the bottom of the frame. */
  lemma ReturnRuns(at: int, d: int, X: Depths) returns (D: Depths)
    requires d >= 0
    ensures Runs([LEV], at, D, X, d, 0)
  {
    D := map[at := d, at + 1 := 0];
    OneRuns([LEV], at, d, 0, X, D);
  }

  lemma Loop(test: seq<int>, body: seq<int>, at: int, D1: Depths, D2: Depths, Y: Depths, X: Depths, end: int)
    returns (D: Depths)
    requires end == at + |test| + 2 + |body| + 2 && Y == map[at := 0, end := 0]
    requires Runs(test, at, D1, Y, 0, 0) && Runs(body, at + |test| + 2, D2, Y, 0, 0)
    ensures Runs(test + [BZ, end] + body + [JMP, at], at, D, X, 0, 0)
  {
    hide Flows, Line;
    var J := BranchRuns(BZ, end, at + |test|, 0, Y);
    var A := Cat(test, [BZ, end], at, D1, J, Y, 0, 0, 0);
    var B := Cat(test + [BZ, end], body, at, A, D2, Y, 0, 0, 0);
    var K := BranchRuns(JMP, at, at + |test| + 2 + |body|, 0, Y);
    D := Cat(test + [BZ, end] + body, [JMP, at], at, B, K, Y, 0, 0, 0);
    Closed(test + [BZ, end] + body + [JMP, at], at, D, Y, X, 0, 0);
  }

  /** Between statements nothing is left on the stack of the frame. */
  lemma {:induction false} StmtRuns(s: Stmt, sc: Scope, at: int, X: Depths) returns (D: Depths)
    requires Library(sc)
    ensures Runs(GenStmt(s, sc, at), at, D, X, 0, 0)
    decreases s, 1
  {
    hide Flows, Runs, Line, Gen, Library;
    match s
    case If(_, _) => D := IfRuns(s, sc, at, X);
    case IfElse(_, _, _) => D := IfElseRuns(s, sc, at, X);
    case While(_, _) => D := WhileRuns(s, sc, at, X);
    case Return(e) =>
      var D1 := ExprRuns(e, sc, at, 0, X);
      var R := ReturnRuns(at + |Gen(e, sc, at)|, 0, X);
      D := Cat(Gen(e, sc, at), [LEV], at, D1, R, X, 0, 0, 0);
    case ReturnNothing => D := ReturnRuns(at, 0, X);
    case Block(body) => D := StmtsRun(body, sc, at, X);
    case Empty =>
      EmptyLine(0);
      D := LineRuns([], at, 0, X);
    case ExprStmt(e) => D := ExprRuns(e, sc, at, 0, X);
  }

  lemma {:induction false} IfRuns(s: Stmt, sc: Scope, at: int, X: Depths) returns (D: Depths)
    requires s.If? && Library(sc)
    ensures Runs(GenStmt(s, sc, at), at, D, X, 0, 0)
    decreases s, 0
  {
    hide Flows, Runs, Line, Gen, Library;
    var test := Gen(s.c, sc, at);
    var yes := GenStmt(s.a, sc, at + |test| + 2);
    var end := at + |test| + 2 + |yes|;
    var Y := map[end := 0];
    var D1 := ExprRuns(s.c, sc, at, 0, Y);
    var D2 := StmtRuns(s.a, sc, at + |test| + 2, Y);
    D := Skip(test, BZ, yes, at, D1, D2, Y, 0, end);
    Ends(test + [BZ, end] + yes, at, D, Y);
    Closed(test + [BZ, end] + yes, at, D, Y, X, 0, 0);
  }

  lemma Ends(code: seq<int>, at: int, D: Depths, Y: Depths)
    requires Runs(code, at, D, Y, 0, 0)
    ensures at + |code| in D && D[at + |code|] == 0
  {
  }

  lemma {:induction false} IfElseRuns(s: Stmt, sc: Scope, at: int, X: Depths) returns (D: Depths)
    requires s.IfElse? && Library(sc)
    ensures Runs(GenStmt(s, sc, at), at, D, X, 0, 0)
    decreases s, 0
  {
    hide Flows, Runs, Line, Gen, Library;
    var test := Gen(s.c, sc, at);
    var yes := GenStmt(s.a, sc, at + |test| + 2);
    var no := at + |test| + 2 + |yes| + 2;
    var other := GenStmt(s.b, sc, no);
    var end := no + |other|;
    var Y := map[no := 0, end := 0];
    var D1 := ExprRuns(s.c, sc, at, 0, Y);
    var D2 := StmtRuns(s.a, sc, at + |test| + 2, Y);
    var D3 := StmtRuns(s.b, sc, no, Y);
    D := Arms(test, yes, other, at, D1, D2, D3, Y, X, 0, no, end);
  }

  lemma {:induction false} WhileRuns(s: Stmt, sc: Scope, at: int, X: Depths) returns (D: Depths)
    requires s.While? && Library(sc)
    ensures Runs(GenStmt(s, sc, at), at, D, X, 0, 0)
    decreases s, 0
  {
    hide Flows, Runs, Line, Gen, Library;
    var test := Gen(s.c, sc, at);
    var body := GenStmt(s.a, sc, at + |test| + 2);
    var end := at + |test| + 2 + |body| + 2;
    var Y := map[at := 0, end := 0];
    var D1 := ExprRuns(s.c, sc, at, 0, Y);
    var D2 := StmtRuns(s.a, sc, at + |test| + 2, Y);
    D := Loop(test, body, at, D1, D2, Y, X, end);
  }

  lemma {:induction false} StmtsRun(ss: Stmts, sc: Scope, at: int, X: Depths) returns (D: Depths)
    requires Library(sc)
    ensures Runs(GenStmts(ss, sc, at), at, D, X, 0, 0)
    decreases ss, 0
  {
    hide Flows, Runs, Line, Gen, Library;
    match ss
    case Done =>
      EmptyLine(0);
      D := LineRuns([], at, 0, X);
    case Then(s, rest) =>
      var first := GenStmt(s, sc, at);
      var D1 := StmtRuns(s, sc, at, X);
      var D2 := StmtsRun(rest, sc, at + |first|, X);
      D := Cat(first, GenStmts(rest, sc, at + |first|), at, D1, D2, X, 0, 0, 0);
  }

  /**
   * The code of a function: every jump goes to an instruction of the function itself, and each instruction is
   * reached with the same number of words on the frame's stack on every way, never fewer than it takes off.
   */
  lemma FunctionRuns(fn: Fun, at: int) returns (D: Depths)
    requires Library(fn.sc)
    ensures Runs(GenFun(fn, at), at, D, map[], 0, 0)
  {
    hide Flows, Runs, Line, GenStmts, Library;
    var locals, body, sc := fn.locals, fn.body, fn.sc;
    EnterLine(locals);
    var D1 := LineRuns([ENT, locals], at, 0, map[]);
    var D2 := StmtsRun(body, sc, at + 2, map[]);
    var code := GenStmts(body, sc, at + 2);
    var D3 := Cat([ENT, locals], code, at, D1, D2, map[], 0, 0, 0);
    var R := ReturnRuns(at + 2 + |code|, 0, map[]);
    D := Cat([ENT, locals] + code, [LEV], at, D3, R, map[], 0, 0, 0);
  }

  lemma EnterLine(locals: nat)
    ensures Line([ENT, locals], 0) == Some(0)
  {
    assert [ENT, locals][2..] == [];
  }

  /** What that says of a jump, and of an instruction that takes words off the stack. */
  lemma JumpsStayInside(code: seq<int>, at: int, D: Depths, p: int)
    requires Runs(code, at, D, map[], 0, 0) && p in Starts(code, at) && p < at + |code|
    ensures 0 <= p - at < |code|
    ensures Jumps(code[p - at]) ==> p - at + 1 < |code|
    ensures Jumps(code[p - at]) ==> code[p - at + 1] in Starts(code, at)
    ensures Jumps(code[p - at]) ==> D[code[p - at + 1]] == D[p]
    ensures OR <= code[p - at] <= MOD || code[p - at] == SI || code[p - at] == SC ==> D[p] >= 1
    ensures code[p - at] == ADJ ==> p - at + 1 < |code| && 0 <= code[p - at + 1] <= D[p]
  {
    hide Whole, Starts;
    assert StepFlows(code, at, D, map[], p);
  }
}
