// A script from its text to its result: the compiler and the machine, one object after the other.

module Script {
  import opened Options
  import opened Words
  import opened Vm
  import opened Syntax
  import opened Semantics
  import opened Simulation
  import opened Tokens
  import opened Parser
  import opened Printer
  import opened Declarations
  import opened DeclarationsCorrect
  import opened Whole
  import Compiler
  import Runner

  // ----- printed text holds no end marker -----

  lemma {:induction false} StarsEnd(n: nat)
    ensures Eof !in Repeat(n)
  {
    if n > 0 { StarsEnd(n - 1); }
  }

  lemma {:induction false} ExprEnds(e: Expr)
    ensures Eof !in Print(e)
    decreases e, 0
  {
    hide PrintAt;
    match e
    case Lit(_) =>
    case SizeOf(t) => StarsEnd(t / 2);
    case Var(_) =>
    case Call(_, args) => ArgsEnd(args);
    case Cast(t, d) => StarsEnd(t / 2); OperandEnds(d);
    case Deref(d) => OperandEnds(d);
    case AddrOf(d) => OperandEnds(d);
    case Unary(_, d) => OperandEnds(d);
    case PreStep(_, d) => OperandEnds(d);
    case PostStep(_, d) => OperandEnds(d);
    case Assign(l, r) => OperandEnds(l); OperandEnds(r);
    case Cond(c, a, b) => OperandEnds(c); OperandEnds(a); OperandEnds(b);
    case OrElse(a, b) => OperandEnds(a); OperandEnds(b);
    case AndAlso(a, b) => OperandEnds(a); OperandEnds(b);
    case Bin(_, a, b) => OperandEnds(a); OperandEnds(b);
    case Index(a, i) => OperandEnds(a); OperandEnds(i);
  }

  lemma OperandEnds(e: Expr)
    ensures forall t :: Eof !in PrintAt(e, t)
    decreases e, 1
  {
    hide Print;
    ExprEnds(e);
  }

  lemma {:induction false} ArgsEnd(args: Args)
    ensures Eof !in PrintArgs(args)
    decreases args, 2
  {
    match args
    case NoArgs =>
    case Arg(e, rest) => ExprEnds(e); ArgsEnd(rest);
  }

  lemma {:induction false} StmtEnds(s: Stmt)
    ensures Eof !in PrintStmt(s)
    decreases s
  {
    hide Print;
    match s
    case If(c, a) => ExprEnds(c); StmtEnds(a);
    case IfElse(c, a, b) => ExprEnds(c); StmtEnds(a); StmtEnds(b);
    case While(c, a) => ExprEnds(c); StmtEnds(a);
    case Return(e) => ExprEnds(e);
    case ReturnNothing =>
    case Block(body) => StmtsEnd(body);
    case Empty =>
    case ExprStmt(e) => ExprEnds(e);
  }

  lemma {:induction false} StmtsEnd(ss: Stmts)
    ensures Eof !in PrintStmts(ss)
    decreases ss
  {
    match ss
    case Done =>
    case Then(s, rest) => StmtEnds(s); StmtsEnd(rest);
  }

  lemma {:induction false} VarsEnd(vs: Vars)
    ensures Eof !in PrintParams(vs) && Eof !in PrintLocals(vs)
  {
    match vs
    case NoVars =>
    case OneVar(ty, _, rest) => StarsEnd(ty / 2); VarsEnd(rest);
  }

  lemma {:induction false} EnumsEnd(items: Enumerators)
    ensures Eof !in PrintEnums(items)
  {
    match items
    case NoEnums =>
    case Enumerator(_, _, rest) => EnumsEnd(rest);
  }

  lemma {:induction false} UnitEnds(ds: seq<Decl>)
    ensures Eof !in PrintUnit(ds)
  {
    if ds != [] {
      UnitEnds(ds[1..]);
      match ds[0]
      case Global(ty, _) => StarsEnd(ty / 2);
      case Enumeration(items) => EnumsEnd(items);
      case Function(ty, _, params, locals, body) =>
        StarsEnd(ty / 2);
        VarsEnd(params);
        VarsEnd(locals);
        StmtsEnd(body);
    }
  }

  // ----- from text to result -----

  /** No function starts before the code that was there. */
  lemma {:induction false} EntriesBehind(ds: seq<Decl>, im: Image, w: World, n: int)
    requires n <= |im.code| && forall h :: h in w.entry ==> n <= w.entry[h]
    ensures forall h :: h in Defined(ds, im, w).entry ==> n <= Defined(ds, im, w).entry[h]
    decreases |ds|
  {
    hide GenFun;
    if ds != [] {
      var d := ds[0];
      var at := |im.code|;
      var w1 := if d.Function? then World(w.p[d.g := FunOf(d, im.env, at)], w.entry[d.g := at], w.code) else w;
      EntriesBehind(ds[1..], Declare(d, im), w1, n);
      assert Defined(ds, im, w) == Defined(ds[1..], Declare(d, im), w1);
    }
  }

  /**
   * Compiles a script and runs it for a while. Printed units compile; and once the machine has halted, the script
   * has come to an end, and the result is main's value or the argument of exit.
   */
  method Execute(tokens: seq<Token>, env: Env, data: int, top: int, acc: int32, m: Memory, cycs: nat,
                 ghost ds: seq<Decl>, ghost f: Frame)
    returns (error: Option<Status>, halted: bool, value: int32)
    requires tokens == PrintUnit(ds) && f.bp == top
    requires var im := Image([0], env, data);
      && UnitTyped(ds, im) && Initial(im) && |Loaded(ds, im).code| < TWO31 && Layout(f.lo, top, f.obj)
      && "main" in DeclareAll(ds, im).env && DeclareAll(ds, im).env["main"].cls.FunClass?
      && WellBehaved(Loaded(ds, im).p, f, Boot(ds, im, f, m, acc).mem)
    ensures error == None
    ensures var im := Image([0], env, data); var w := Loaded(ds, im); var s := Boot(ds, im, f, m, acc);
      && (halted <==> Run(w.code, s, cycs) == Halted(value))
      && (halted ==> Terminates(w.p, f, s.mem))
      && (halted ==> forall fuel: nat ::
            var r := RunMain(w.p, f, s.mem, fuel); (r.Value? ==> r.v == value) && (r.Exit? ==> r.code == value))
  {
    hide Unit, PrintUnit, UnitTyped, Loaded, DeclareAll, Layout, RunMain, Run, StoreInt, WellBehaved, Terminates;
    ghost var im := Image([0], env, data);
    ghost var w, s := Loaded(ds, im), Boot(ds, im, f, m, acc);
    UnitEnds(ds);
    TextToExit(ds, im, f, m, acc);
    MainAddress(ds, im);
    var compiler := new Compiler.CMachine(tokens, env, data);
    error := compiler.CcCompileCode();
    var code := compiler.pText + STUB;
    var machine := new Runner.Registers(compiler.symbols["main"].val, |code| - 2, top, acc, m);
    assert machine.Snapshot() == s;
    machine.CcRunMachine(code, cycs);
    halted, value := machine.m_halted, machine.retnVal;
    assert halted ==> HaltsWith(w.code, s, value);
  }

  lemma MainAddress(ds: seq<Decl>, im: Image)
    requires UnitTyped(ds, im) && Initial(im) && |im.code| > 0
    requires "main" in DeclareAll(ds, im).env && DeclareAll(ds, im).env["main"].cls.FunClass?
    ensures DeclareAll(ds, im).env["main"].val != 0
  {
    hide UnitTyped, DeclareAll, Defined;
    MainIsPlaced(ds, im);
    EntriesBehind(ds, im, World(map[], map[], []), |im.code|);
  }
}
