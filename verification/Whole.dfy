// From printed text to exit code: the compiler, the loader and the machine together.

module Whole {
  import opened Words
  import opened Vm
  import opened Syntax
  import opened CodeGen
  import opened Semantics
  import opened Simulation
  import opened Correct
  import opened Declarations
  import opened DeclarationsCorrect

  // ----- the functions of a unit -----

  /** The functions defined so far, where their code starts, and the code. */
  function Defined(ds: seq<Decl>, im: Image, w: World): World {
    if ds == [] then World(w.p, w.entry, im.code)
    else
      var d := ds[0];
      var at := |im.code|;
      Defined(ds[1..], Declare(d, im),
              if d.Function? then World(w.p[d.g := FunOf(d, im.env, at)], w.entry[d.g := at], w.code) else w)
  }

  ghost predicate AllLinked(w: World, env: Env) {
    forall x :: x in env && env[x].cls.FunClass? ==> x in w.p && x in w.entry && env[x].val == w.entry[x]
  }

  /** Every function defined so far is in the code and calls only functions that are. */
  ghost predicate Placed(im: Image, w: World) {
    && AllLinked(w, im.env)
    && forall g :: g in w.p ==>
      && g in im.env && g in w.entry && At(im.code, w.entry[g], GenFun(w.p[g], w.entry[g]))
      && StmtsTyped(w.p[g].body, w.p[g].sc) && AllLinked(w, w.p[g].sc.env)
  }

  lemma {:induction false} VarsHide(vs: Vars, env: Env, slot: int)
    ensures var e := AddVars(vs, env, slot); forall x :: x in e && e[x].cls.FunClass? ==> x in env && env[x] == e[x]
    decreases vs
  {
    match vs
    case NoVars =>
    case OneVar(ty, x, rest) => VarsHide(rest, env[x := Symbol(LocClass, ty, slot)], slot + 1);
  }

  lemma {:induction false} EnumsHide(items: Enumerators, env: Env, next: int32)
    ensures var e := AddEnums(items, env, next);
      env.Keys <= e.Keys && forall x :: x in e && e[x].cls.FunClass? ==> x in env && env[x] == e[x]
    decreases items
  {
    match items
    case NoEnums =>
    case Enumerator(x, value, rest) =>
      var v := if value.Some? then value.value else next;
      EnumsHide(rest, env[x := Symbol(NumClass, INT, v)], Successor(v));
  }

  lemma AtGrows(code: seq<int>, at: int, seg: seq<int>, more: seq<int>)
    requires At(code, at, seg)
    ensures At(code + more, at, seg)
  {
  }

  lemma AtEnd(code: seq<int>, seg: seq<int>)
    ensures At(code + seg, |code|, seg)
  {
  }

  lemma PlacedStep(d: Decl, im: Image, w: World)
    requires DeclTyped(d, im) && Placed(im, w)
    ensures var at := |im.code|;
      Placed(Declare(d, im), if d.Function? then World(w.p[d.g := FunOf(d, im.env, at)], w.entry[d.g := at], w.code) else w)
  {
    hide At, GenFun, StmtsTyped, FreshVars;
    match d
    case Global(_, _) =>
    case Enumeration(items) => EnumsHide(items, im.env, 0);
    case Function(_, _, _, _, _) => PlacedFunction(d, im, w);
  }

  lemma PlacedFunction(d: Decl, im: Image, w: World)
    requires d.Function? && DeclTyped(d, im) && Placed(im, w)
    ensures var at := |im.code|;
      Placed(Declare(d, im), World(w.p[d.g := FunOf(d, im.env, at)], w.entry[d.g := at], w.code))
  {
    hide At, GenFun, StmtsTyped, FreshVars;
    var at := |im.code|;
    var fn := FunOf(d, im.env, at);
    var env0 := im.env[d.g := Symbol(FunClass, d.ty, at)];
    VarsHide(d.params, env0, 0);
    VarsHide(d.locals, AddVars(d.params, env0, 0), VarCount(d.params) + 2);
    AtEnd(im.code, GenFun(fn, at));
    forall h | h in w.p ensures At(Declare(d, im).code, w.entry[h], GenFun(w.p[h], w.entry[h])) {
      AtGrows(im.code, w.entry[h], GenFun(w.p[h], w.entry[h]), GenFun(fn, at));
    }
  }

  lemma {:induction false} UnitPlaced(ds: seq<Decl>, im: Image, w: World)
    requires UnitTyped(ds, im) && Placed(im, w)
    ensures var w1 := Defined(ds, im, w); Placed(DeclareAll(ds, im), w1) && w1.code == DeclareAll(ds, im).code
    decreases |ds|
  {
    if ds != [] {
      hide Placed, DeclTyped, Declare;
      PlacedStep(ds[0], im, w);
      var at := |im.code|;
      UnitPlaced(ds[1..], Declare(ds[0], im),
                 if ds[0].Function? then World(w.p[ds[0].g := FunOf(ds[0], im.env, at)], w.entry[ds[0].g := at], w.code) else w);
    }
  }

  // ----- loading and running -----

  /** The two words the loader leaves for main to return to. */
  const STUB: seq<int> := [PSH, EXIT]

  /** The unit's functions and code with the stub after it. */
  function Loaded(ds: seq<Decl>, im: Image): World {
    var w := Defined(ds, im, World(map[], map[], []));
    World(w.p, w.entry, w.code + STUB)
  }

  /** A compiler starts with library names only. */
  predicate Initial(im: Image) {
    forall x :: x in im.env ==> im.env[x].cls.SysClass?
  }

  lemma LoadedIsLinked(ds: seq<Decl>, im: Image)
    requires UnitTyped(ds, im) && Initial(im) && |Loaded(ds, im).code| < TWO31
    ensures Linked(Loaded(ds, im))
  {
    var w0 := World(map[], map[], []);
    var w := Defined(ds, im, w0);
    UnitPlaced(ds, im, w0);
    var l := Loaded(ds, im);
    hide At, GenFun, StmtsTyped, Defined;
    forall g | g in l.p ensures FunLinked(l, g) {
      AtGrows(w.code, w.entry[g], GenFun(w.p[g], w.entry[g]), STUB);
    }
  }

  /** The stack as main finds it: the stub's words, argc, argv and the return address below the top. */
  function StartMemory(m: Memory, top: int, stub: int): Memory {
    StoreInt(StoreInt(StoreInt(StoreInt(StoreInt(m, top - 4, EXIT), top - 8, PSH), top - 12, 0), top - 16, 0), top - 20, stub)
  }

  function StartState(w: World, entry: int, m: Memory, top: int, acc: int32): State {
    State(entry, top - 20, top, acc, StartMemory(m, top, |w.code| - 2))
  }

  /** The bytes main may look at when it starts. */
  function Visible(m: Memory, bytes: set<int>): Memory {
    map a | a in m && a in bytes :: m[a]
  }

  /** What running main means: argc and argv are zero. */
  function RunMain(p: Program, f: Frame, m: Memory, fuel: nat): Semantics.Result {
    if "main" !in p || p["main"].arity > 2 || !Room(f, f.bp - 16, 2 + p["main"].locals) then Undef
    else
      var fn := p["main"];
      var top := f.bp - 16;
      var callee := CalleeFrame(fn, f, top);
      match ExecAll(p, fn.body, callee, callee.bp - 4 * fn.locals, Visible(m, f.obj + Cells(top, top + 4 * fn.arity)), fuel)
      case Next(m1) => NoValue(m1)
      case r => r
  }

  /** Stack and data are apart and addresses fit a word. */
  predicate Layout(lo: int, top: int, data: set<int>) {
    -TWO31 <= lo <= top - 24 && top < TWO31 && forall a :: a in data ==> !(lo <= a < top)
  }

  lemma MainReturns(w: World, s: State, stub: int)
    requires |w.code| >= 2 && stub == |w.code| - 2 && w.code[stub..] == STUB && s.pc == stub
    ensures HaltsWith(w.code, s, s.acc)
  {
    assert w.code[stub] == w.code[stub..][0] && w.code[stub + 1] == w.code[stub..][1];
    var t := Pushed(s, s.acc).(pc := s.pc + 1);
    ReachStep(w.code, s, t);
    LoadStore(s.mem, s.sp - 4, s.acc);
    assert Run(w.code, t, 1) == Halted(s.acc);
    HaltsJoin(w.code, s, t, s.acc);
  }

  /** ENT of main: its frame lies below the loader's words. */
  lemma MainEnters(w: World, fn: Fun, entry: int, f: Frame, m: Memory, s: State) returns (t: State)
    requires At(w.code, entry, GenFun(fn, entry)) && s.pc == entry && s.sp == f.bp - 20 && s.bp == f.bp
    requires Layout(f.lo, f.bp, f.obj) && fn.arity <= 2 && Room(f, f.bp - 16, 2 + fn.locals)
    requires m.Keys <= f.obj + Cells(f.bp - 16, f.bp - 16 + 4 * fn.arity) && Agree(m, s.mem)
    ensures Reaches(w.code, s, t) && t.pc == entry + 2 && t.bp == f.bp - 24 && t.sp == t.bp - 4 * fn.locals
    ensures t.mem == StoreInt(s.mem, f.bp - 24, f.bp)
    ensures Clear(CalleeFrame(fn, f, f.bp - 16), t.sp, m) && Agree(m, t.mem)
  {
    assert GenFun(fn, entry)[0] == ENT && GenFun(fn, entry)[1] == fn.locals;
    assert w.code[entry + 0] == ENT && w.code[entry + 1] == fn.locals;
    t := Pushed(s, s.bp).(pc := entry + 2, bp := s.sp - 4, sp := s.sp - 4 - 4 * fn.locals);
    ReachStep(w.code, s, t);
  }

  lemma ReturnWord(m: Memory, top: int, stub: int)
    ensures StartMemory(m, top, stub) == StoreInt(StartMemory(m, top, stub), top - 20, stub)
  {
  }

  /** LEV of main: the loader's return address leads to the stub. */
  lemma MainLeaves(w: World, fn: Fun, f: Frame, s: State, t: State)
    requires |w.code| >= 2 && w.code[|w.code| - 2..] == STUB && |w.code| < TWO31
    requires Layout(f.lo, f.bp, f.obj) && fn.arity <= 2 && Room(f, f.bp - 16, 2 + fn.locals)
    requires s.mem == StoreInt(s.mem, f.bp - 20, |w.code| - 2)
    requires t.bp == f.bp - 24 && 0 <= t.pc < |w.code| && w.code[t.pc] == LEV
    requires Kept(CalleeFrame(fn, f, f.bp - 16), f.bp - 24 - 4 * fn.locals, StoreInt(s.mem, f.bp - 24, f.bp), t.mem)
    ensures HaltsWith(w.code, t, t.acc)
  {
    hide Kept, CalleeFrame, LoadInt, StoreInt, HaltsWith, Run, Reaches;
    var top, stub := f.bp - 16, |w.code| - 2;
    ObjectsAbove(f, fn.arity);
    Links(f, top + 4 * fn.arity, fn, top, s.mem, stub, f.bp, t.mem);
    var u := t.(pc := stub, sp := top, bp := f.bp);
    ReachStep(w.code, t, u);
    MainReturns(w, u, stub);
    HaltsJoin(w.code, t, u, u.acc);
  }

  /** Running the loaded code does what the source program does. */
  lemma ProgramRuns(w: World, f: Frame, m: Memory, acc: int32, fuel: nat)
    requires Linked(w) && |w.code| >= 2 && w.code[|w.code| - 2..] == STUB && "main" in w.p && "main" in w.entry
    requires Layout(f.lo, f.bp, f.obj)
    ensures var s := StartState(w, w.entry["main"], m, f.bp, acc); var r := RunMain(w.p, f, s.mem, fuel);
      && (r.Value? ==> HaltsWith(w.code, s, r.v))
      && (r.NoValue? ==> exists v :: HaltsWith(w.code, s, v))
      && (r.Exit? ==> HaltsWith(w.code, s, r.code))
      && (r.Timeout? ==> RunsFor(w.code, s, fuel))
  {
    hide Reaches, HaltsWith, RunsFor, Run, Kept, Agree, Clear, At, LoadInt, GenFun, ExecAll, StartMemory, StoreInt, CalleeFrame, Layout, Step;
    var fn := w.p["main"];
    var entry := w.entry["main"];
    var s := StartState(w, entry, m, f.bp, acc);
    ReturnWord(m, f.bp, |w.code| - 2);
    assert FunLinked(w, "main");
    var top := f.bp - 16;
    if fn.arity <= 2 && Room(f, top, 2 + fn.locals) {
      var callee := CalleeFrame(fn, f, top);
      CalleeShape(fn, f, top);
      var bytes := f.obj + Cells(top, top + 4 * fn.arity);
      var start := Visible(s.mem, bytes);
      VisibleAgrees(s.mem, bytes);
      var s1 := MainEnters(w, fn, entry, f, start, s);
      var r := ExecAll(w.p, fn.body, callee, s1.sp, start, fuel);
      var t := BodySound(w, fn, callee, s1.sp, start, fuel, s1, entry);
      AbruptJoin(w, s, s1, r, fuel);
      if r.Value? || r.NoValue? || r.Next? {
        MainLeaves(w, fn, f, s, t);
        ReachJoin(w.code, s, s1, t);
        HaltsJoin(w.code, s, t, t.acc);
      }
    }
  }

  lemma CalleeShape(fn: Fun, f: Frame, top: int)
    ensures var c := CalleeFrame(fn, f, top); c.sc == fn.sc && c.bp == top - 8 && c.lo == f.lo
  {
  }

  lemma VisibleAgrees(m: Memory, bytes: set<int>)
    ensures Agree(Visible(m, bytes), m) && Visible(m, bytes).Keys <= bytes
  {
  }

  lemma ObjectsAbove(f: Frame, n: nat)
    requires Layout(f.lo, f.bp, f.obj) && n <= 2
    ensures forall a :: a in f.obj ==> !(f.lo <= a < f.bp - 16 + 4 * n)
  {
  }

  lemma {:induction false} HaltedStays(code: seq<int>, s: State, v: int32, n: nat, k: nat)
    requires Run(code, s, n) == Halted(v)
    ensures Run(code, s, n + k) == Halted(v)
    decreases n
  {
    if n > 0 && Step(code, s).Running? {
      HaltedStays(code, Step(code, s).s, v, n - 1, k);
    }
  }

  /** Halting excludes running on, and a machine halts with one value only. */
  lemma HaltsOnce(code: seq<int>, s: State, v: int32) returns (n: nat)
    requires HaltsWith(code, s, v)
    ensures !RunsFor(code, s, n) && forall u :: HaltsWith(code, s, u) ==> u == v
  {
    n :| Run(code, s, n) == Halted(v);
    if RunsFor(code, s, n) {
      var k: nat :| k >= n && Run(code, s, k).Running?;
      HaltedStays(code, s, v, n, k - n);
    }
    forall u | HaltsWith(code, s, u) ensures u == v {
      var k: nat :| Run(code, s, k) == Halted(u);
      if k <= n { HaltedStays(code, s, u, k, n - k); } else { HaltedStays(code, s, v, n, k - n); }
    }
  }

  /** The source program comes to an end. */
  ghost predicate Terminates(p: Program, f: Frame, m: Memory) {
    exists fuel: nat :: !RunMain(p, f, m, fuel).Timeout?
  }

  /** The source program never does anything undefined. */
  ghost predicate WellBehaved(p: Program, f: Frame, m: Memory) {
    forall fuel: nat :: !RunMain(p, f, m, fuel).Undef?
  }

  /** The state the machine starts in: at the address of main, the loader's words on the stack. */
  function Boot(ds: seq<Decl>, im: Image, f: Frame, m: Memory, acc: int32): State
    requires "main" in DeclareAll(ds, im).env
  {
    StartState(Loaded(ds, im), DeclareAll(ds, im).env["main"].val, m, f.bp, acc)
  }

  lemma MainIsPlaced(ds: seq<Decl>, im: Image)
    requires UnitTyped(ds, im) && Initial(im)
    requires "main" in DeclareAll(ds, im).env && DeclareAll(ds, im).env["main"].cls.FunClass?
    ensures var w := Loaded(ds, im);
      "main" in w.p && "main" in w.entry && w.entry["main"] == DeclareAll(ds, im).env["main"].val
    ensures Loaded(ds, im).code == DeclareAll(ds, im).code + STUB
  {
    hide At, GenFun, StmtsTyped, Defined;
    UnitPlaced(ds, im, World(map[], map[], []));
  }

  /**
   * Text to exit code. The compiler accepts the printed unit and emits the code that is loaded; and the machine,
   * started on it, halts exactly when the source program ends, with main's value or the argument of exit, provided
   * the program does nothing undefined.
   */
  lemma TextToExit(ds: seq<Decl>, im: Image, f: Frame, m: Memory, acc: int32)
    requires UnitTyped(ds, im) && Initial(im) && |Loaded(ds, im).code| < TWO31 && Layout(f.lo, f.bp, f.obj)
    requires "main" in DeclareAll(ds, im).env && DeclareAll(ds, im).env["main"].cls.FunClass?
    requires WellBehaved(Loaded(ds, im).p, f, Boot(ds, im, f, m, acc).mem)
    ensures Unit(PrintUnit(ds), im) == Built([], DeclareAll(ds, im))
    ensures Loaded(ds, im).code == DeclareAll(ds, im).code + STUB
    ensures var w := Loaded(ds, im); var s := Boot(ds, im, f, m, acc);
      && ((exists v :: HaltsWith(w.code, s, v)) <==> Terminates(w.p, f, s.mem))
      && (forall v, fuel: nat :: HaltsWith(w.code, s, v) ==>
            var r := RunMain(w.p, f, s.mem, fuel); (r.Value? ==> r.v == v) && (r.Exit? ==> r.code == v))
  {
    hide Run, RunMain, Layout, Linked, StartMemory, UnitTyped, Initial, Loaded, DeclareAll, HaltsWith;
    var w := Loaded(ds, im);
    var s := Boot(ds, im, f, m, acc);
    UnitReads(ds, im);
    MainIsPlaced(ds, im);
    LoadedIsLinked(ds, im);
    if exists v :: HaltsWith(w.code, s, v) {
      var v :| HaltsWith(w.code, s, v);
      var n := HaltsOnce(w.code, s, v);
      ProgramRuns(w, f, m, acc, n);
    }
    if Terminates(w.p, f, s.mem) {
      var fuel: nat :| !RunMain(w.p, f, s.mem, fuel).Timeout?;
      ProgramRuns(w, f, m, acc, fuel);
      NeverNext(w.p, f, s.mem, fuel);
    }
    forall v, fuel: nat | HaltsWith(w.code, s, v)
      ensures var r := RunMain(w.p, f, s.mem, fuel); (r.Value? ==> r.v == v) && (r.Exit? ==> r.code == v)
    {
      var n := HaltsOnce(w.code, s, v);
      ProgramRuns(w, f, m, acc, fuel);
    }
  }

  lemma NeverNext(p: Program, f: Frame, m: Memory, fuel: nat)
    ensures !RunMain(p, f, m, fuel).Next?
  {
  }

  /** A program that does nothing but return a number. */
  const ANSWER: seq<Decl> := [Function(INT, "main", NoVars, NoVars, Then(Return(Lit(42)), Done))]

  lemma AnswerTyped(im: Image)
    requires Initial(im) && "main" !in im.env
    ensures UnitTyped(ANSWER, im)
    ensures var last := DeclareAll(ANSWER, im); "main" in last.env && last.env["main"].cls.FunClass?
    ensures var w := Loaded(ANSWER, im);
      && "main" in w.p && w.p["main"].arity == 0 && w.p["main"].locals == 0
      && w.p["main"].body == Then(Return(Lit(42)), Done) && |w.code| == |im.code| + 8
  {
    var d := ANSWER[0];
    assert ANSWER[1..] == [];
    assert DeclTyped(d, im);
    var im1 := Declare(d, im);
    assert DeclareAll([], im1) == im1 && DeclareAll(ANSWER, im) == im1;
    var fn := FunOf(d, im.env, |im.code|);
    var w1 := World(map["main" := fn], map["main" := |im.code|], []);
    assert Defined([], im1, w1) == World(w1.p, w1.entry, im1.code);
    assert Defined(ANSWER, im, World(map[], map[], [])) == Defined([], im1, w1);
    var at := |im.code| + 2;
    assert GenStmts(Done, fn.sc, at + 3) == [];
    assert GenStmt(Return(Lit(42)), fn.sc, at) == [IMM, 42, LEV];
    assert GenStmts(d.body, fn.sc, at) == [IMM, 42, LEV] + [];
    assert GenFun(fn, |im.code|) == [ENT, 0] + ([IMM, 42, LEV] + []) + [LEV];
    assert |im1.code| == |im.code| + |GenFun(fn, |im.code|)| == |im.code| + 6;
    assert |STUB| == 2;
  }

  /** The conditions can be met: such a program, compiled from its text, halts with its number. */
  lemma AnswerHalts(im: Image, f: Frame, m: Memory, acc: int32)
    requires Initial(im) && "main" !in im.env && |im.code| < TWO31 - 8
    requires Layout(f.lo, f.bp, f.obj) && f.lo <= f.bp - 100
    ensures var w := Loaded(ANSWER, im); var last := DeclareAll(ANSWER, im);
      "main" in last.env && HaltsWith(w.code, Boot(ANSWER, im, f, m, acc), 42)
  {
    AnswerTyped(im);
    var w := Loaded(ANSWER, im);
    var s := Boot(ANSWER, im, f, m, acc);
    forall fuel: nat ensures RunMain(w.p, f, s.mem, fuel).Value? && RunMain(w.p, f, s.mem, fuel).v == 42 {
      AnswerRuns(w.p, f, s.mem, fuel);
    }
    assert !RunMain(w.p, f, s.mem, 0).Timeout?;
    TextToExit(ANSWER, im, f, m, acc);
    var v :| HaltsWith(w.code, s, v);
  }

  lemma AnswerRuns(p: Program, f: Frame, m: Memory, fuel: nat)
    requires "main" in p && p["main"].arity == 0 && p["main"].locals == 0 && p["main"].body == Then(Return(Lit(42)), Done)
    requires f.lo <= f.bp - 100
    ensures RunMain(p, f, m, fuel).Value? && RunMain(p, f, m, fuel).v == 42
  {
    var fn := p["main"];
    var callee := CalleeFrame(fn, f, f.bp - 16);
    var start := Visible(m, f.obj + Cells(f.bp - 16, f.bp - 16));
    assert Eval(p, Lit(42), callee, callee.bp, start, fuel) == Value(42, start);
    assert Exec(p, Return(Lit(42)), callee, callee.bp, start, fuel) == Value(42, start);
    assert ExecAll(p, fn.body, callee, callee.bp, start, fuel) == Value(42, start);
  }
}
