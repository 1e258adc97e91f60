// Declarations: globals, enumerations and functions, as the compiler reads them and as trees.

module Declarations {
  import opened Options
  import opened Words
  import opened Vm
  import opened Syntax
  import opened Semantics
  import opened Simulation
  import opened Tokens
  import opened Parser

  // ----- trees -----

  datatype Vars = NoVars | OneVar(ty: Type, x: Name, rest: Vars)

  datatype Enumerators = NoEnums | Enumerator(x: Name, value: Option<int32>, rest: Enumerators)

  datatype Decl =
    | Global(ty: Type, x: Name)
    | Enumeration(items: Enumerators)
    | Function(ty: Type, g: Name, params: Vars, locals: Vars, body: Stmts)

  // ----- the compiler's state between declarations -----

  /** Code so far, symbols, and where the next global goes. */
  datatype Image = Image(code: seq<int>, env: Env, data: int)

  datatype DeclResult = Built(toks: seq<Token>, image: Image) | Failed(status: Status) {
    predicate IsFailure() { Failed? }
    function PropagateFailure(): DeclResult
      requires Failed?
    {
      this
    }
    function Extract(): (seq<Token>, Image)
      requires Built?
    {
      (toks, image)
    }
  }

  /** Symbols after a list of parameters or locals, and the number of the last slot used. */
  datatype VarResult = Slots(toks: seq<Token>, env: Env, last: int) | BadVars(status: Status)

  predicate IsKeyword(t: Token) {
    t.CharKw? || t.ElseKw? || t.EnumKw? || t.IfKw? || t.IntKw? || t.ReturnKw? || t.SizeofKw? || t.WhileKw?
  }

  /** Sets a symbol of the identifier last read: x, unless the token after it was an identifier too. */
  function SetCurrent(env: Env, x: Name, after: seq<Token>, s: Symbol): Env {
    if Peek(after).Id? then env[Peek(after).x := s]
    else if IsKeyword(Peek(after)) then env
    else env[x := s]
  }

  function SkipComma(toks: seq<Token>): (r: seq<Token>)
    ensures |r| <= |toks|
  {
    if Peek(toks) == Comma then Rest(toks) else toks
  }

  /** Enumerators up to the closing brace; each without a value is one more than the one before. */
  function Enums(toks: seq<Token>, env: Env, next: int32): (r: VarResult)
    ensures r.Slots? ==> |r.toks| < |toks|
    decreases |toks|
  {
    if Peek(toks) == RBrace then Slots(Rest(toks), env, next)
    else if !Peek(toks).Id? then BadVars(BadEnumIdentifier)
    else
      var after := Rest(toks);
      if Peek(after) == AssignTok then
        if !Peek(Rest(after)).Num? then BadVars(BadEnumInitializer)
        else
          var v := Peek(Rest(after)).n;
          var t := Rest(Rest(after));
          Enums(SkipComma(t), SetCurrent(env, Peek(toks).x, t, Symbol(NumClass, INT, v)), Successor(v))
      else
        Enums(SkipComma(after), SetCurrent(env, Peek(toks).x, after, Symbol(NumClass, INT, next)), Successor(next))
  }

  function Successor(v: int): int32 { Wrap(v + 1) }

  /** Parameters up to the closing parenthesis, numbered from `slot`. */
  function Params(toks: seq<Token>, env: Env, slot: int): (r: VarResult)
    ensures r.Slots? ==> |r.toks| < |toks|
    decreases |toks|
  {
    if Peek(toks) == RParen then Slots(Rest(toks), env, slot)
    else
      var (t, ty) := OptionalType(toks);
      if !Peek(t).Id? then BadVars(BadParmDeclaration)
      else if Peek(t).x in env && env[Peek(t).x].cls.LocClass? then BadVars(DupParmDeclaration)
      else Params(SkipComma(Rest(t)), env[Peek(t).x := Symbol(LocClass, ty, slot)], slot + 1)
  }

  /** The names of one local declaration, up to its semicolon; `last` is the last slot used. */
  function LocalNames(toks: seq<Token>, env: Env, base: Type, last: int): (r: VarResult)
    ensures r.Slots? ==> |r.toks| < |toks|
    decreases |toks|
  {
    if Peek(toks) == Semi then Slots(Rest(toks), env, last)
    else
      var (t, ty) := Stars(toks, base);
      if !Peek(t).Id? then BadVars(BadLocalDeclaration)
      else if Peek(t).x in env && env[Peek(t).x].cls.LocClass? then BadVars(DupLocalDeclaration)
      else LocalNames(SkipComma(Rest(t)), env[Peek(t).x := Symbol(LocClass, ty, last + 1)], base, last + 1)
  }

  function Locals(toks: seq<Token>, env: Env, last: int): (r: VarResult)
    ensures r.Slots? ==> |r.toks| <= |toks|
    decreases |toks|
  {
    if Peek(toks) == IntKw || Peek(toks) == CharKw then
      match LocalNames(Rest(toks), env, if Peek(toks) == IntKw then INT else CHAR, last)
      case Slots(t, env1, last1) => Locals(t, env1, last1)
      case bad => bad
    else Slots(toks, env, last)
  }

  /** Symbols inside a function, how many parameters it has, and the last slot used. */
  datatype FrameResult = Framed(toks: seq<Token>, env: Env, params: int, last: int) | BadFrame(status: Status)

  /** Parameters, opening brace and locals. */
  function FunctionFrame(toks: seq<Token>, env: Env): (r: FrameResult)
    ensures r.Framed? ==> |r.toks| < |toks|
  {
    match Params(toks, env, 0)
    case BadVars(st) => BadFrame(st)
    case Slots(t, env1, n) =>
      if Peek(t) != LBrace then BadFrame(BadFuncDeclaration)
      else
        match Locals(Rest(t), env1, n + 1)
        case BadVars(st) => BadFrame(st)
        case Slots(t1, env2, last) => Framed(t1, env2, n, last)
  }

  /** A function from just after its opening parenthesis to just after its closing brace. */
  function FunctionBody(toks: seq<Token>, im: Image): (r: DeclResult)
    ensures r.Built? ==> |r.toks| < |toks|
  {
    match FunctionFrame(toks, im.env)
    case BadFrame(st) => Failed(st)
    case Framed(t, env, n, last) =>
      match Statements(t, im.code + [ENT, last - (n + 1)], Scope(env, n + 1))
      case Err(st) => Failed(st)
      case Ok(t1, c, _) => Built(t1, im.(code := c + [LEV]))
  }

  /** Declarators up to and including the semicolon, or the brace that closes a function. */
  function Declarators(toks: seq<Token>, base: Type, im: Image): (r: DeclResult)
    ensures r.Built? ==> |r.toks| < |toks|
    decreases |toks|
  {
    if Peek(toks) == Semi || Peek(toks) == RBrace then Built(Rest(toks), im)
    else
      var (t, ty) := Stars(toks, base);
      if !Peek(t).Id? then Failed(BadGlobalDeclaration)
      else if Peek(t).x in im.env then Failed(DupGlobalDeclaration)
      else
        var x, after := Peek(t).x, Rest(t);
        if Peek(after) == LParen then
          FunctionBody(Rest(after), im.(env := im.env[x := Symbol(FunClass, ty, |im.code|)]))
        else
          Declarators(SkipComma(after), base,
                      im.(env := SetCurrent(im.env, x, after, Symbol(GloClass, ty, im.data)), data := im.data + 4))
  }

  /** One declaration, its base type and all its declarators. */
  function OneDeclaration(toks: seq<Token>, im: Image): (r: DeclResult)
    requires toks != []
    ensures r.Built? ==> |r.toks| < |toks|
  {
    if Peek(toks) == IntKw then Declarators(Rest(toks), INT, im)
    else if Peek(toks) == CharKw then Declarators(Rest(toks), CHAR, im)
    else if Peek(toks) == EnumKw then
      var t := if Peek(Rest(toks)) == LBrace then Rest(toks) else Rest(Rest(toks));
      if Peek(t) == LBrace then
        match Enums(Rest(t), im.env, 0)
        case BadVars(st) => Failed(st)
        case Slots(t1, env, _) => Declarators(t1, INT, im.(env := env))
      else Declarators(t, INT, im)
    else Declarators(toks, INT, im)
  }

  function Unit(toks: seq<Token>, im: Image): DeclResult
    decreases |toks|
  {
    if Peek(toks) == Eof then Built([], im)
    else
      var (t, im1) :- OneDeclaration(toks, im);
      Unit(t, im1)
  }

  // ----- what a tree builds -----

  function VarCount(vs: Vars): nat {
    match vs
    case NoVars => 0
    case OneVar(_, _, rest) => 1 + VarCount(rest)
  }

  /** Each variable hides what its name meant and takes the next slot. */
  function AddVars(vs: Vars, env: Env, slot: int): Env {
    match vs
    case NoVars => env
    case OneVar(ty, x, rest) => AddVars(rest, env[x := Symbol(LocClass, ty, slot)], slot + 1)
  }

  /** No variable repeats another of its function. */
  predicate FreshVars(vs: Vars, env: Env, slot: int) {
    match vs
    case NoVars => true
    case OneVar(ty, x, rest) =>
      !(x in env && env[x].cls.LocClass?) && FreshVars(rest, env[x := Symbol(LocClass, ty, slot)], slot + 1)
  }

  function AddEnums(items: Enumerators, env: Env, next: int32): Env {
    match items
    case NoEnums => env
    case Enumerator(x, value, rest) =>
      var v := if value.Some? then value.value else next;
      AddEnums(rest, env[x := Symbol(NumClass, INT, v)], Successor(v))
  }

  /** The function a declaration defines, its own name already declared at its code address. */
  function FunOf(d: Decl, env: Env, at: int): Fun
    requires d.Function?
  {
    var n := VarCount(d.params);
    var env1 := AddVars(d.params, env[d.g := Symbol(FunClass, d.ty, at)], 0);
    Fun(n, VarCount(d.locals), Scope(AddVars(d.locals, env1, n + 2), n + 1), d.body)
  }

  predicate DeclTyped(d: Decl, im: Image) {
    match d
    case Global(_, x) => x !in im.env
    case Enumeration(_) => true
    case Function(ty, g, params, locals, body) =>
      var fn := FunOf(d, im.env, |im.code|);
      var env0 := im.env[g := Symbol(FunClass, ty, |im.code|)];
      && g !in im.env
      && FreshVars(params, env0, 0) && FreshVars(locals, AddVars(params, env0, 0), VarCount(params) + 2)
      && StmtsTyped(body, fn.sc)
  }

  /** The image after declaration d. */
  function Declare(d: Decl, im: Image): Image {
    match d
    case Global(ty, x) => Image(im.code, im.env[x := Symbol(GloClass, ty, im.data)], im.data + 4)
    case Enumeration(items) => im.(env := AddEnums(items, im.env, 0))
    case Function(ty, g, _, _, _) =>
      Image(im.code + GenFun(FunOf(d, im.env, |im.code|), |im.code|), im.env[g := Symbol(FunClass, ty, |im.code|)], im.data)
  }

  predicate UnitTyped(ds: seq<Decl>, im: Image) {
    ds == [] || (DeclTyped(ds[0], im) && UnitTyped(ds[1..], Declare(ds[0], im)))
  }

  function DeclareAll(ds: seq<Decl>, im: Image): Image {
    if ds == [] then im else DeclareAll(ds[1..], Declare(ds[0], im))
  }
}
