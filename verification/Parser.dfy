// The one-pass compiler as a function: what CcOnExpression and CcStatement consume and emit.

module Parser {
  import opened Vm
  import opened Syntax
  import opened CodeGen
  import opened Tokens

  datatype Status =
    | UnexpectedEof | OpenParenExpected | CloseParenExpected | BadFunctionCall | UndefinedVariable
    | BadCast | BadDereference | BadReference | BadLvalue | BadExpression | CondMissingColon
    | CloseBrackExpected | PointerTypeExpected | CompilerError | SemicolonExpected
    | BadGlobalDeclaration | DupGlobalDeclaration | BadParmDeclaration | DupParmDeclaration
    | BadFuncDeclaration | BadLocalDeclaration | DupLocalDeclaration | BadEnumIdentifier | BadEnumInitializer
    | MainNotDefined

  /** The remaining tokens, the code so far and currentExprType; or the error the compiler jumped out with. */
  datatype Result = Ok(toks: seq<Token>, code: seq<int>, ty: Type) | Err(status: Status) {
    predicate IsFailure() { Err? }
    function PropagateFailure(): Result
      requires Err?
    {
      this
    }
    function Extract(): (seq<Token>, seq<int>, Type)
      requires Ok?
    {
      (toks, code, ty)
    }
  }

  /** The word last emitted. */
  function Last(code: seq<int>): int {
    if code == [] then 0 else code[|code| - 1]
  }

  function DropLast(code: seq<int>): seq<int> {
    if code == [] then [] else code[..|code| - 1]
  }

  predicate EndsInLoad(code: seq<int>) {
    Last(code) == LI || Last(code) == LC
  }

  /** Fills in a branch operand left open at word d. */
  function Patch(code: seq<int>, d: nat, v: int): seq<int> {
    if d < |code| then code[d := v] else code
  }

  /** Turns the last load into a push of the address. */
  function LoadToPush(code: seq<int>): seq<int> {
    DropLast(code) + [PSH]
  }

  /** Turns the last load into a push of the address and a second load of the same kind. */
  function Reload(code: seq<int>): seq<int> {
    LoadToPush(code) + [Last(code)]
  }

  /** Reads the stars of a type. */
  function Stars(toks: seq<Token>, ty: Type): (r: (seq<Token>, Type))
    ensures |r.0| <= |toks|
  {
    if Peek(toks) == OpTok(Mul) then Stars(Rest(toks), ty + PTR) else (toks, ty)
  }

  /** A base type and its stars; int when there is none. */
  function OptionalType(toks: seq<Token>): (r: (seq<Token>, Type))
    ensures |r.0| <= |toks|
  {
    if Peek(toks) == IntKw then Stars(Rest(toks), INT)
    else if Peek(toks) == CharKw then Stars(Rest(toks), CHAR)
    else Stars(toks, INT)
  }

  /** One step of a place: push, load, add the stride, store. */
  function StepCode(up: bool, ty: Type): seq<int> {
    [PSH, IMM, Stride(ty), StepOp(up), StoreOp(ty)]
  }

  function Expression(toks: seq<Token>, code: seq<int>, lev: int, sc: Scope): (r: Result)
    ensures r.Ok? ==> |r.toks| < |toks|
    decreases |toks|, 2
  {
    var (t, c, ty) :- Prefix(toks, code, sc);
    Climb(t, c, ty, lev, sc)
  }

  /** A literal, name, call, parenthesis, cast or prefix operator with its operand. */
  function Prefix(toks: seq<Token>, code: seq<int>, sc: Scope): (r: Result)
    ensures r.Ok? ==> |r.toks| < |toks|
    decreases |toks|, 1
  {
    var next := Rest(toks);
    match Peek(toks)
    case Eof => Err(UnexpectedEof)
    case Num(n) => Ok(next, code + [IMM, n], INT)
    case SizeofKw => Sizeof(next, code)
    case Id(x) => NameUse(x, next, code, sc)
    case LParen => Parenthesis(next, code, sc)
    case _ =>
      if Peek(toks) == OpTok(Sub) then Minus(next, code, sc)
      else if TakesOperand(Peek(toks)) then
        var (t, c, ty) :- Expression(next, code, INC, sc);
        Operated(Peek(toks), t, c, ty)
      else Err(BadExpression)
  }

  function Sizeof(next: seq<Token>, code: seq<int>): (r: Result)
    ensures r.Ok? ==> |r.toks| <= |next|
  {
    if Peek(next) != LParen then Err(OpenParenExpected)
    else
      var base := Rest(next);
      var (t, ty) := OptionalType(base);
      if Peek(t) != RParen then Err(CloseParenExpected)
      else Ok(Rest(t), code + [IMM, if ty == CHAR then 1 else 4], INT)
  }

  function NameUse(x: Name, next: seq<Token>, code: seq<int>, sc: Scope): (r: Result)
    ensures r.Ok? ==> |r.toks| <= |next|
    decreases |next|, 4
  {
    if Peek(next) == LParen then CallUse(x, Rest(next), code, sc) else VariableUse(x, next, code, sc)
  }

  /** The arguments, up to the closing parenthesis, and the call. */
  function CallUse(x: Name, next: seq<Token>, code: seq<int>, sc: Scope): (r: Result)
    ensures r.Ok? ==> |r.toks| <= |next|
    decreases |next|, 4
  {
    var (t, c, n) :- Arguments(next, code, 0, sc);
    if x !in sc.env || !(sc.env[x].cls.SysClass? || sc.env[x].cls.FunClass?) then Err(BadFunctionCall)
    else
      var c1 := c + (if sc.env[x].cls.SysClass? then [sc.env[x].val] else [JSR, sc.env[x].val]);
      Ok(t, if n > 0 then c1 + [ADJ, n] else c1, sc.env[x].ty)
  }

  /** A constant, or the address of a variable and a load. */
  function VariableUse(x: Name, next: seq<Token>, code: seq<int>, sc: Scope): (r: Result)
    ensures r.Ok? ==> |r.toks| <= |next|
  {
    if x !in sc.env then Err(UndefinedVariable)
    else if sc.env[x].cls.NumClass? then Ok(next, code + [IMM, sc.env[x].val], INT)
    else if sc.env[x].cls.LocClass? then
      Ok(next, code + [LEA, sc.off - sc.env[x].val, LoadOp(sc.env[x].ty == CHAR)], sc.env[x].ty)
    else if sc.env[x].cls.GloClass? then
      Ok(next, code + [IMM, sc.env[x].val, LoadOp(sc.env[x].ty == CHAR)], sc.env[x].ty)
    else Err(UndefinedVariable)
  }

  /** After an opening parenthesis: a cast and its operand, or an expression and the closing one. */
  function Parenthesis(next: seq<Token>, code: seq<int>, sc: Scope): (r: Result)
    ensures r.Ok? ==> |r.toks| <= |next|
    decreases |next|, 4
  {
    if Peek(next) == IntKw || Peek(next) == CharKw then
      var (t, ty) := Stars(Rest(next), if Peek(next) == IntKw then INT else CHAR);
      if Peek(t) != RParen then Err(BadCast)
      else
        var (t1, c, _) :- Expression(Rest(t), code, INC, sc);
        Ok(t1, c, ty)
    else
      var (t, c, ty) :- Expression(next, code, ASSIGN, sc);
      if Peek(t) != RParen then Err(CloseParenExpected) else Ok(Rest(t), c, ty)
  }

  function Minus(next: seq<Token>, code: seq<int>, sc: Scope): (r: Result)
    ensures r.Ok? ==> |r.toks| <= |next|
    decreases |next|, 4
  {
    if Peek(next).Num? then Ok(Rest(next), code + [IMM, Negated(Peek(next).n)], INT)
    else
      var (t, c, _) :- Expression(next, code + [IMM, -1, PSH], INC, sc);
      Ok(t, c + [MUL], INT)
  }

  /** Prefix operators other than minus. */
  predicate TakesOperand(tok: Token) {
    tok == OpTok(Mul) || tok == OpTok(And) || tok == OpTok(Add) || tok == Bang || tok == Tilde || tok == IncTok || tok == DecTok
  }

  /** What a prefix operator makes of its operand's code c and type ty. */
  function Operated(tok: Token, t: seq<Token>, c: seq<int>, ty: Type): (r: Result)
    ensures r.Ok? ==> r.toks == t
  {
    if tok == OpTok(Mul) then if ty <= INT then Err(BadDereference) else Ok(t, c + [LoadOp(ty - PTR == CHAR)], ty - PTR)
    else if tok == OpTok(And) then if !EndsInLoad(c) then Err(BadReference) else Ok(t, DropLast(c), ty + PTR)
    else if tok == OpTok(Add) then Ok(t, c, INT)
    else if tok == Bang then Ok(t, c + [PSH, IMM, 0, EQ], INT)
    else if tok == Tilde then Ok(t, c + [PSH, IMM, -1, XOR], INT)
    else if !EndsInLoad(c) then Err(BadLvalue)
    else Ok(t, Reload(c) + StepCode(tok == IncTok, ty), ty)
  }

  /** Arguments up to the closing parenthesis, the count in place of the type; a comma may follow each. */
  function Arguments(toks: seq<Token>, code: seq<int>, n: nat, sc: Scope): (r: Result)
    ensures r.Ok? ==> |r.toks| <= |toks|
    decreases |toks|, 3
  {
    if Peek(toks) == RParen then Ok(Rest(toks), code, n)
    else
      var (t, c, _) :- Expression(toks, code, ASSIGN, sc);
      Arguments(if Peek(t) == Comma then Rest(t) else t, c + [PSH], n + 1, sc)
  }

  /** Precedence climbing: takes operators as long as the next token's number is at least lev. */
  function Climb(toks: seq<Token>, code: seq<int>, ty: Type, lev: int, sc: Scope): (r: Result)
    ensures r.Ok? ==> |r.toks| <= |toks|
    decreases |toks|, 0
  {
    if toks == [] || Rank(Peek(toks)) < lev then Ok(toks, code, ty)
    else
      var (t, c, ty1) :- Infix(toks, code, ty, sc);
      Climb(t, c, ty1, lev, sc)
  }

  /** One infix or postfix operator, its left operand already compiled with type ty. */
  function Infix(toks: seq<Token>, code: seq<int>, ty: Type, sc: Scope): (r: Result)
    requires toks != []
    ensures r.Ok? ==> |r.toks| < |toks|
    decreases |toks|, 0, 0
  {
    var next := Rest(toks);
    match Peek(toks)
    case AssignTok => Assignment(next, code, ty, sc)
    case CondTok => Conditional(next, code, sc)
    case LorTok => ShortCircuit(BNZ, LAN, next, code, sc)
    case LanTok => ShortCircuit(BZ, OpRank(Or), next, code, sc)
    case OpTok(op) => Binary(op, next, code, ty, sc)
    case IncTok => PostStepCode(next, code, ty, true)
    case DecTok => PostStepCode(next, code, ty, false)
    case BrakTok => Subscript(next, code, ty, sc)
    case _ => Err(CompilerError)
  }

  function Assignment(next: seq<Token>, code: seq<int>, ty: Type, sc: Scope): (r: Result)
    ensures r.Ok? ==> |r.toks| <= |next|
    decreases |next|, 4
  {
    if !EndsInLoad(code) then Err(BadLvalue)
    else
      var (t, c, _) :- Expression(next, LoadToPush(code), ASSIGN, sc);
      Ok(t, c + [StoreOp(ty)], ty)
  }

  function Conditional(next: seq<Token>, code: seq<int>, sc: Scope): (r: Result)
    ensures r.Ok? ==> |r.toks| <= |next|
    decreases |next|, 4
  {
    var (t, c, _) :- Expression(next, code + [BZ, 0], ASSIGN, sc);
    if Peek(t) != Colon then Err(CondMissingColon)
    else
      var c1 := Patch(c, |code| + 1, |c| + 2);
      var (t2, c2, ty2) :- Expression(Rest(t), c1 + [JMP, 0], COND, sc);
      Ok(t2, Patch(c2, |c1| + 1, |c2|), ty2)
  }

  function ShortCircuit(branch: int, lev: int, next: seq<Token>, code: seq<int>, sc: Scope): (r: Result)
    ensures r.Ok? ==> |r.toks| <= |next|
    decreases |next|, 4
  {
    var (t, c, _) :- Expression(next, code + [branch, 0], lev, sc);
    Ok(t, Patch(c, |code| + 1, |c|), INT)
  }

  function Binary(op: BinOp, next: seq<Token>, code: seq<int>, ty: Type, sc: Scope): (r: Result)
    ensures r.Ok? ==> |r.toks| <= |next|
    decreases |next|, 4
  {
    var (t, c, ty2) :- Expression(next, code + [PSH], RightLevel(op), sc);
    Ok(t, c + BinTail(op, ty, ty2), BinType(op, ty, ty2))
  }

  function Subscript(next: seq<Token>, code: seq<int>, ty: Type, sc: Scope): (r: Result)
    ensures r.Ok? ==> |r.toks| <= |next|
    decreases |next|, 4
  {
    var (t, c, _) :- Expression(next, code + [PSH], ASSIGN, sc);
    if Peek(t) != RBrack then Err(CloseBrackExpected)
    else if ty < PTR then Err(PointerTypeExpected)
    else Ok(Rest(t), c + BinTail(Add, ty, INT) + [LoadOp(ty - PTR == CHAR)], ty - PTR)
  }

  function PostStepCode(next: seq<Token>, code: seq<int>, ty: Type, up: bool): Result {
    if !EndsInLoad(code) then Err(BadLvalue)
    else Ok(next, Reload(code) + StepCode(up, ty) + [PSH, IMM, Stride(ty), StepOp(!up)], ty)
  }

  function Statement(toks: seq<Token>, code: seq<int>, sc: Scope): (r: Result)
    ensures r.Ok? ==> |r.toks| < |toks|
    decreases |toks|, 4
  {
    var next := Rest(toks);
    match Peek(toks)
    case IfKw => IfStatement(next, code, sc)
    case WhileKw => WhileStatement(next, code, sc)
    case ReturnKw => ReturnStatement(next, code, sc)
    case LBrace => Statements(next, code, sc)
    case Semi => Ok(next, code, INT)
    case _ =>
      var (t, c, _) :- Expression(toks, code, ASSIGN, sc);
      if Peek(t) != Semi then Err(SemicolonExpected) else Ok(Rest(t), c, INT)
  }

  /** What is returned, if anything, and a semicolon. */
  function ReturnStatement(next: seq<Token>, code: seq<int>, sc: Scope): (r: Result)
    ensures r.Ok? ==> |r.toks| <= |next|
    decreases |next|, 4
  {
    if Peek(next) == Semi then Ok(Rest(next), code + [LEV], INT)
    else
      var (t, c, _) :- Expression(next, code, ASSIGN, sc);
      if Peek(t) != Semi then Err(SemicolonExpected) else Ok(Rest(t), c + [LEV], INT)
  }

  /** A condition in parentheses. */
  function Condition(next: seq<Token>, code: seq<int>, sc: Scope): (r: Result)
    ensures r.Ok? ==> |r.toks| <= |next|
    decreases |next|, 4
  {
    if Peek(next) != LParen then Err(OpenParenExpected)
    else
      var (t, c, ty) :- Expression(Rest(next), code, ASSIGN, sc);
      if Peek(t) != RParen then Err(CloseParenExpected) else Ok(Rest(t), c, ty)
  }

  function IfStatement(next: seq<Token>, code: seq<int>, sc: Scope): (r: Result)
    ensures r.Ok? ==> |r.toks| <= |next|
    decreases |next|, 7
  {
    var (t, c, _) :- Condition(next, code, sc);
    var (t1, c1, _) :- Statement(t, c + [BZ, 0], sc);
    ElsePart(t1, c1, |c| + 1, sc)
  }

  /** What may follow the first arm of an if; the jump at word d is still without its target. */
  function ElsePart(toks: seq<Token>, code: seq<int>, d: nat, sc: Scope): (r: Result)
    ensures r.Ok? ==> |r.toks| <= |toks|
    decreases |toks|, 6
  {
    if Peek(toks) == ElseKw then
      var c := Patch(code, d, |code| + 2);
      var (t, c1, _) :- Statement(Rest(toks), c + [JMP, 0], sc);
      Ok(t, Patch(c1, |c| + 1, |c1|), INT)
    else Ok(toks, Patch(code, d, |code|), INT)
  }

  function WhileStatement(next: seq<Token>, code: seq<int>, sc: Scope): (r: Result)
    ensures r.Ok? ==> |r.toks| <= |next|
    decreases |next|, 6
  {
    var (t, c, _) :- Condition(next, code, sc);
    var (t1, c1, _) :- Statement(t, c + [BZ, 0], sc);
    var c2 := c1 + [JMP, |code|];
    Ok(t1, Patch(c2, |c| + 1, |c2|), INT)
  }

  /** Statements up to and including the closing brace. */
  function Statements(toks: seq<Token>, code: seq<int>, sc: Scope): (r: Result)
    ensures r.Ok? ==> |r.toks| < |toks|
    decreases |toks|, 5
  {
    if Peek(toks) == RBrace then Ok(Rest(toks), code, INT)
    else
      var (t, c, _) :- Statement(toks, code, sc);
      Statements(t, c, sc)
  }
}
