// Compiling a printed unit builds exactly its image.

module DeclarationsCorrect {
  import opened Options
  import opened Words
  import opened Vm
  import opened Syntax
  import opened CodeGen
  import opened Tokens
  import opened Printer
  import opened Parser
  import opened ParserCorrect
  import opened Declarations

  // ----- printing -----

  function PrintVar(ty: Type, x: Name): seq<Token> {
    PrintType(ty) + [Id(x)]
  }

  function PrintParams(vs: Vars): seq<Token> {
    match vs
    case NoVars => []
    case OneVar(ty, x, rest) => PrintVar(ty, x) + (if rest.NoVars? then [] else [Comma] + PrintParams(rest))
  }

  function PrintLocals(vs: Vars): seq<Token> {
    match vs
    case NoVars => []
    case OneVar(ty, x, rest) => PrintVar(ty, x) + [Semi] + PrintLocals(rest)
  }

  function PrintEnums(items: Enumerators): seq<Token> {
    match items
    case NoEnums => []
    case Enumerator(x, value, rest) =>
      [Id(x)] + (if value.Some? then [AssignTok, Num(value.value)] else []) + [Comma] + PrintEnums(rest)
  }

  function PrintDecl(d: Decl): seq<Token> {
    match d
    case Global(ty, x) => PrintVar(ty, x) + [Semi]
    case Enumeration(items) => [EnumKw, LBrace] + PrintEnums(items) + [RBrace, Semi]
    case Function(ty, g, params, locals, body) =>
      PrintVar(ty, g) + [LParen] + PrintParams(params) + [RParen, LBrace] + PrintLocals(locals) + PrintStmts(body) + [RBrace]
  }

  function PrintUnit(ds: seq<Decl>): seq<Token> {
    if ds == [] then [] else PrintDecl(ds[0]) + PrintUnit(ds[1..])
  }

  // ----- reading back -----

  function BaseToken(ty: Type): Token { if ty % 2 == 0 then CharKw else IntKw }

  /** A printed type and name: the keyword, then stars that stop at the name. */
  lemma VarPrints(ty: Type, x: Name, rest: seq<Token>)
    ensures PrintVar(ty, x) + rest == [BaseToken(ty)] + (Repeat(ty / 2) + ([Id(x)] + rest))
  {
    hide Repeat;
    var k, stars, tail := [BaseToken(ty)], Repeat(ty / 2), [Id(x)] + rest;
    assert PrintVar(ty, x) == k + stars + [Id(x)];
    assert k + stars + [Id(x)] + rest == k + (stars + tail);
  }

  lemma VarReads(ty: Type, x: Name, rest: seq<Token>)
    ensures var toks := PrintVar(ty, x) + rest;
      && toks != [] && Peek(toks) == BaseToken(ty)
      && Stars(Rest(toks), ty % 2) == ([Id(x)] + rest, ty)
  {
    hide Stars, BaseToken, Peek, Rest, PrintVar, Repeat;
    var stars := Repeat(ty / 2) + ([Id(x)] + rest);
    VarPrints(ty, x, rest);
    Ahead(BaseToken(ty), stars);
    Ahead(Id(x), rest);
    StarsRead(ty / 2, [Id(x)] + rest, ty % 2);
  }

  lemma ParamUnfolds(toks: seq<Token>, ty: Type, x: Name, after: seq<Token>, env: Env, slot: int)
    requires Peek(toks) == BaseToken(ty) && Stars(Rest(toks), ty % 2) == ([Id(x)] + after, ty)
    requires !(x in env && env[x].cls.LocClass?)
    ensures Params(toks, env, slot) == Params(SkipComma(after), env[x := Symbol(LocClass, ty, slot)], slot + 1)
  {
    hide Stars;
    Ahead(Id(x), after);
  }

  lemma ParamsPrint(ty: Type, x: Name, more: Vars, rest: seq<Token>)
    ensures var list := PrintParams(more) + ([RParen] + rest);
      var after := if more.NoVars? then [RParen] + rest else [Comma] + list;
      && PrintParams(OneVar(ty, x, more)) + ([RParen] + rest) == PrintVar(ty, x) + after
      && SkipComma(after) == list
  {
    hide PrintVar;
    var p, r := PrintParams(more), [RParen] + rest;
    Ahead(RParen, rest);
    Ahead(Comma, p + r);
    if more.NoVars? {
      assert p + r == r;
      assert PrintVar(ty, x) + [] == PrintVar(ty, x);
    } else {
      Assoc([Comma], p, r);
      Assoc(PrintVar(ty, x), [Comma] + p, r);
    }
  }

  lemma NoParamsRead(rest: seq<Token>, env: Env, slot: int)
    ensures Params(PrintParams(NoVars) + ([RParen] + rest), env, slot) == Slots(rest, env, slot)
  {
    assert PrintParams(NoVars) + ([RParen] + rest) == [RParen] + rest;
    Ahead(RParen, rest);
  }

  lemma {:induction false} ParamsRead(vs: Vars, rest: seq<Token>, env: Env, slot: int)
    requires FreshVars(vs, env, slot)
    ensures Params(PrintParams(vs) + ([RParen] + rest), env, slot) == Slots(rest, AddVars(vs, env, slot), slot + VarCount(vs))
    decreases vs
  {
    hide Stars, PrintVar, Params, Peek, Rest, PrintParams, SkipComma;
    match vs
    case NoVars => NoParamsRead(rest, env, slot);
    case OneVar(ty, x, more) =>
      var after := if more.NoVars? then [RParen] + rest else [Comma] + (PrintParams(more) + ([RParen] + rest));
      ParamsPrint(ty, x, more, rest);
      VarReads(ty, x, after);
      ParamUnfolds(PrintVar(ty, x) + after, ty, x, after, env, slot);
      ParamsRead(more, rest, env[x := Symbol(LocClass, ty, slot)], slot + 1);
  }

  lemma LocalUnfolds(toks: seq<Token>, ty: Type, list: seq<Token>, env: Env, last: int, env1: Env)
    requires Peek(toks) == BaseToken(ty) && LocalNames(Rest(toks), env, ty % 2, last) == Slots(list, env1, last + 1)
    ensures Locals(toks, env, last) == Locals(list, env1, last + 1)
  {
    hide LocalNames;
  }

  lemma NoLocalsRead(rest: seq<Token>, env: Env, last: int)
    requires Peek(rest) != IntKw && Peek(rest) != CharKw
    ensures Locals(PrintLocals(NoVars) + rest, env, last) == Slots(rest, env, last)
  {
    assert PrintLocals(NoVars) + rest == rest;
  }

  lemma LocalsPrint(ty: Type, x: Name, more: Vars, rest: seq<Token>)
    ensures PrintLocals(OneVar(ty, x, more)) + rest == PrintVar(ty, x) + ([Semi] + (PrintLocals(more) + rest))
  {
    hide PrintVar;
    var v, l := PrintVar(ty, x), PrintLocals(more);
    assert PrintLocals(OneVar(ty, x, more)) == v + [Semi] + l;
  }

  lemma {:induction false} LocalsRead(vs: Vars, rest: seq<Token>, env: Env, last: int)
    requires FreshVars(vs, env, last + 1) && Peek(rest) != IntKw && Peek(rest) != CharKw
    ensures Locals(PrintLocals(vs) + rest, env, last) == Slots(rest, AddVars(vs, env, last + 1), last + VarCount(vs))
    decreases vs
  {
    hide Stars, PrintVar, Locals, Peek, Rest, LocalNames, PrintLocals;
    match vs
    case NoVars => NoLocalsRead(rest, env, last);
    case OneVar(ty, x, more) =>
      var list := PrintLocals(more) + rest;
      var toks := PrintVar(ty, x) + ([Semi] + list);
      LocalsPrint(ty, x, more, rest);
      VarReads(ty, x, [Semi] + list);
      OneLocal(ty, x, toks, list, env, last);
      LocalUnfolds(toks, ty, list, env, last, env[x := Symbol(LocClass, ty, last + 1)]);
      LocalsRead(more, rest, env[x := Symbol(LocClass, ty, last + 1)], last + 1);
  }

  lemma OneLocal(ty: Type, x: Name, toks: seq<Token>, list: seq<Token>, env: Env, last: int)
    requires Stars(Rest(toks), ty % 2) == ([Id(x)] + ([Semi] + list), ty)
    requires !(x in env && env[x].cls.LocClass?)
    ensures LocalNames(Rest(toks), env, ty % 2, last) == Slots(list, env[x := Symbol(LocClass, ty, last + 1)], last + 1)
  {
    hide Stars;
    Ahead(Id(x), [Semi] + list);
    Ahead(Semi, list);
    StarsStart(Rest(toks), ty % 2, [Id(x)] + ([Semi] + list), ty);
  }

  /** What stars-then-name starts with. */
  lemma StarsStart(toks: seq<Token>, ty: Type, rest: seq<Token>, ty': Type)
    requires Stars(toks, ty) == (rest, ty')
    ensures Peek(toks) == OpTok(Mul) || toks == rest
  {
  }

  lemma ValuedUnfolds(x: Name, v: int32, list: seq<Token>, env: Env, next: int32)
    ensures Enums([Id(x)] + ([AssignTok] + ([Num(v)] + ([Comma] + list))), env, next)
         == Enums(list, env[x := Symbol(NumClass, INT, v)], Successor(v))
  {
    hide Successor;
    var t := [Comma] + list;
    Ahead(Comma, list);
    Ahead(Num(v), t);
    Ahead(AssignTok, [Num(v)] + t);
    Ahead(Id(x), [AssignTok] + ([Num(v)] + t));
  }

  lemma CountedUnfolds(x: Name, list: seq<Token>, env: Env, next: int32)
    ensures Enums([Id(x)] + ([Comma] + list), env, next)
         == Enums(list, env[x := Symbol(NumClass, INT, next)], Successor(next))
  {
    hide Successor;
    Ahead(Comma, list);
    Ahead(Id(x), [Comma] + list);
  }

  /** One enumerator, its value given or counted on. */
  lemma EnumUnfolds(x: Name, value: Option<int32>, list: seq<Token>, env: Env, next: int32)
    ensures var v := if value.Some? then value.value else next;
      Enums([Id(x)] + (if value.Some? then [AssignTok] + ([Num(v)] + ([Comma] + list)) else [Comma] + list), env, next)
      == Enums(list, env[x := Symbol(NumClass, INT, v)], Successor(v))
  {
    hide Enums, Successor;
    if value.Some? {
      ValuedUnfolds(x, value.value, list, env, next);
    } else {
      CountedUnfolds(x, list, env, next);
    }
  }

  lemma {:induction false} EnumsRead(items: Enumerators, rest: seq<Token>, env: Env, next: int32)
    ensures var r := Enums(PrintEnums(items) + ([RBrace] + rest), env, next);
      r.Slots? && r.toks == rest && r.env == AddEnums(items, env, next)
    decreases items
  {
    match items
    case NoEnums =>
      assert PrintEnums(items) + ([RBrace] + rest) == [RBrace] + rest;
      Ahead(RBrace, rest);
    case Enumerator(x, value, more) =>
      hide Enums, Peek, Rest;
      var list := PrintEnums(more) + ([RBrace] + rest);
      var v := if value.Some? then value.value else next;
      assert PrintEnums(items) + ([RBrace] + rest)
          == [Id(x)] + (if value.Some? then [AssignTok] + ([Num(v)] + ([Comma] + list)) else [Comma] + list);
      EnumUnfolds(x, value, list, env, next);
      EnumsRead(more, rest, env[x := Symbol(NumClass, INT, v)], Successor(v));
  }

  lemma GlobalReads(ty: Type, x: Name, rest: seq<Token>, im: Image)
    requires x !in im.env
    ensures OneDeclaration(PrintVar(ty, x) + ([Semi] + rest), im) == Built(rest, Declare(Global(ty, x), im))
  {
    hide Stars, PrintVar;
    var toks := PrintVar(ty, x) + ([Semi] + rest);
    VarReads(ty, x, [Semi] + rest);
    Ahead(Id(x), [Semi] + rest);
    Ahead(Semi, rest);
    StarsStart(Rest(toks), ty % 2, [Id(x)] + ([Semi] + rest), ty);
    assert Declarators([Semi] + rest, ty % 2, Declare(Global(ty, x), im)) == Built(rest, Declare(Global(ty, x), im));
  }

  /** A type and a closing brace are taken for a declaration of nothing. */
  lemma BraceDeclaresNothing(t: Token, rest: seq<Token>, im: Image)
    requires t == IntKw || t == CharKw
    ensures OneDeclaration([t, RBrace] + rest, im) == Built(rest, im)
  {
    assert [t, RBrace] + rest == [t] + ([RBrace] + rest);
    Ahead(t, [RBrace] + rest);
    Ahead(RBrace, rest);
  }

  lemma EnumerationReads(items: Enumerators, rest: seq<Token>, im: Image)
    ensures OneDeclaration([EnumKw] + ([LBrace] + (PrintEnums(items) + ([RBrace] + ([Semi] + rest)))), im)
         == Built(rest, Declare(Enumeration(items), im))
  {
    hide Enums, PrintEnums, AddEnums;
    var after := [Semi] + rest;
    var list := PrintEnums(items) + ([RBrace] + after);
    EnumsRead(items, after, im.env, 0);
    Ahead(EnumKw, [LBrace] + list);
    Ahead(LBrace, list);
    Ahead(Semi, rest);
  }

  lemma FunctionUnfolds(ty: Type, g: Name, list: seq<Token>, im: Image)
    requires g !in im.env
    ensures OneDeclaration(PrintVar(ty, g) + ([LParen] + list), im)
         == FunctionBody(list, im.(env := im.env[g := Symbol(FunClass, ty, |im.code|)]))
  {
    hide Stars, PrintVar, FunctionBody;
    var after := [LParen] + list;
    VarReads(ty, g, after);
    Ahead(Id(g), after);
    Ahead(LParen, list);
    StarsStart(Rest(PrintVar(ty, g) + after), ty % 2, [Id(g)] + after, ty);
  }

  lemma BodyUnfolds(list: seq<Token>, im: Image, t: seq<Token>, env1: Env, n: int, t1: seq<Token>, env2: Env, last: int,
                    k: int, c: seq<int>, rest: seq<Token>)
    requires Params(list, im.env, 0) == Slots(t, env1, n) && Peek(t) == LBrace
    requires Locals(Rest(t), env1, n + 1) == Slots(t1, env2, last) && k == last - (n + 1)
    requires Statements(t1, im.code + [ENT, k], Scope(env2, n + 1)) == Ok(rest, c, INT)
    ensures FunctionBody(list, im) == Built(rest, im.(code := c + [LEV]))
  {
    hide Params, Locals, Statements;
  }

  lemma BodyReads(d: Decl, list: seq<Token>, t1: seq<Token>, rest: seq<Token>, im: Image)
    requires d.Function? && DeclTyped(d, im)
    requires t1 == PrintStmts(d.body) + ([RBrace] + rest)
    requires list == PrintParams(d.params) + ([RParen] + ([LBrace] + (PrintLocals(d.locals) + t1)))
    ensures FunctionBody(list, im.(env := im.env[d.g := Symbol(FunClass, d.ty, |im.code|)])) == Built(rest, Declare(d, im))
  {
    hide Statements, Params, Locals, PrintParams, PrintLocals, PrintStmts, AddVars, FreshVars, StmtsTyped, GenStmts, FunctionBody, Peek, Rest;
    var env0 := im.env[d.g := Symbol(FunClass, d.ty, |im.code|)];
    var fn := FunOf(d, im.env, |im.code|);
    var n := VarCount(d.params);
    var env1 := AddVars(d.params, env0, 0);
    var t := [LBrace] + (PrintLocals(d.locals) + t1);
    ParamsRead(d.params, t, env0, 0);
    Ahead(LBrace, PrintLocals(d.locals) + t1);
    BodyStarts(d.body, rest, fn.sc);
    LocalsRead(d.locals, t1, env1, n + 1);
    var k := fn.locals;
    var c := im.code + [ENT, k];
    StmtsParse(d.body, rest, c, fn.sc);
    var cb := GenStmts(d.body, fn.sc, |im.code| + 2);
    BodyUnfolds(list, im.(env := env0), t, env1, n, t1, fn.sc.env, n + 1 + k, k, c + cb, rest);
    Assoc4(im.code, [ENT, k], cb, [LEV]);
  }

  lemma BodyStarts(ss: Stmts, rest: seq<Token>, sc: Scope)
    requires StmtsTyped(ss, sc)
    ensures Peek(PrintStmts(ss) + ([RBrace] + rest)) != IntKw && Peek(PrintStmts(ss) + ([RBrace] + rest)) != CharKw
  {
    hide PrintStmt, StmtTyped;
    if ss.Then? {
      var after := PrintStmts(ss.rest) + ([RBrace] + rest);
      assert PrintStmts(ss) + ([RBrace] + rest) == PrintStmt(ss.s) + after;
      FirstOfStmt(ss.s, after, sc);
    }
  }

  lemma GlobalPrints(ty: Type, x: Name, rest: seq<Token>)
    ensures PrintDecl(Global(ty, x)) + rest == PrintVar(ty, x) + ([Semi] + rest)
  {
    hide PrintVar;
  }

  lemma EnumerationPrints(items: Enumerators, rest: seq<Token>)
    ensures PrintDecl(Enumeration(items)) + rest
         == [EnumKw] + ([LBrace] + (PrintEnums(items) + ([RBrace] + ([Semi] + rest))))
    ensures Peek(PrintDecl(Enumeration(items)) + rest) == EnumKw && PrintDecl(Enumeration(items)) + rest != []
  {
    hide PrintEnums;
  }

  lemma DeclReads(d: Decl, rest: seq<Token>, im: Image)
    requires DeclTyped(d, im)
    ensures PrintDecl(d) + rest != [] && Peek(PrintDecl(d) + rest) != Eof
    ensures OneDeclaration(PrintDecl(d) + rest, im) == Built(rest, Declare(d, im))
  {
    hide OneDeclaration, Declare, FunctionBody, PrintDecl, PrintVar, PrintEnums, PrintParams, PrintLocals, PrintStmts, Stars;
    match d
    case Global(ty, x) =>
      GlobalPrints(ty, x, rest);
      VarReads(ty, x, [Semi] + rest);
      GlobalReads(ty, x, rest, im);
    case Enumeration(items) =>
      EnumerationPrints(items, rest);
      EnumerationReads(items, rest, im);
    case Function(ty, g, params, locals, body) =>
      var t1 := PrintStmts(body) + ([RBrace] + rest);
      var list := PrintParams(params) + ([RParen] + ([LBrace] + (PrintLocals(locals) + t1)));
      FunctionPrints(d, rest, list, t1);
      VarReads(ty, g, [LParen] + list);
      FunctionUnfolds(ty, g, list, im);
      BodyReads(d, list, t1, rest, im);
  }

  lemma FunctionPrints(d: Decl, rest: seq<Token>, list: seq<Token>, t1: seq<Token>)
    requires d.Function? && t1 == PrintStmts(d.body) + ([RBrace] + rest)
    requires list == PrintParams(d.params) + ([RParen] + ([LBrace] + (PrintLocals(d.locals) + t1)))
    ensures PrintDecl(d) + rest == PrintVar(d.ty, d.g) + ([LParen] + list)
  {
    hide PrintStmts, PrintParams, PrintLocals, PrintVar;
    var v, p, l, b := PrintVar(d.ty, d.g), PrintParams(d.params), PrintLocals(d.locals), PrintStmts(d.body);
    assert PrintDecl(d) == v + [LParen] + p + [RParen, LBrace] + l + b + [RBrace];
    assert [RParen] + ([LBrace] + (l + t1)) == [RParen, LBrace] + (l + t1);
  }

  /** The compiler, given a printed unit, builds exactly the image of the tree. */
  lemma {:induction false} UnitReads(ds: seq<Decl>, im: Image)
    requires UnitTyped(ds, im)
    ensures Unit(PrintUnit(ds), im) == Built([], DeclareAll(ds, im))
    decreases |ds|
  {
    if ds != [] {
      hide PrintDecl, OneDeclaration, DeclTyped, Declare;
      DeclReads(ds[0], PrintUnit(ds[1..]), im);
      UnitReads(ds[1..], Declare(ds[0], im));
    }
  }
}
