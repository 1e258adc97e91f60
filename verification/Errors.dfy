// The errors of the compiler: for each, the texts that lead to it.

module Errors {
  import opened Words
  import opened Syntax
  import opened Tokens
  import opened Parser
  import opened ParserCorrect
  import opened Declarations

  /** Tokens no expression starts with. */
  predicate StartsNothing(t: Token) {
    t == RParen || t == RBrace || t == RBrack || t == Comma || t == Semi || t == Colon || t == AssignTok
    || (t.OpTok? && t.op !in {Mul, And, Add, Sub})
  }

  lemma PrefixFails(toks: seq<Token>, code: seq<int>, lev: int, sc: Scope, st: Status)
    requires Prefix(toks, code, sc) == Err(st)
    ensures Expression(toks, code, lev, sc) == Err(st)
  {
    hide Prefix;
  }

  lemma NoExpression(t: Token, rest: seq<Token>, code: seq<int>, lev: int, sc: Scope)
    requires StartsNothing(t)
    ensures Expression([t] + rest, code, lev, sc) == Err(BadExpression)
    ensures Expression([], code, lev, sc) == Expression([Eof] + rest, code, lev, sc) == Err(UnexpectedEof)
  {
    Ahead(t, rest);
    Ahead(Eof, rest);
  }

  lemma SizeofNeedsParentheses(t: Token, rest: seq<Token>, code: seq<int>, lev: int, sc: Scope)
    requires t != LParen
    ensures Expression([SizeofKw, t] + rest, code, lev, sc) == Err(OpenParenExpected)
    ensures Peek(rest) != OpTok(Mul) && Peek(rest) != RParen ==>
      Expression([SizeofKw, LParen, IntKw] + rest, code, lev, sc) == Err(CloseParenExpected)
  {
    assert [SizeofKw, t] + rest == [SizeofKw] + ([t] + rest);
    Ahead(SizeofKw, [t] + rest);
    Ahead(t, rest);
    assert [SizeofKw, LParen, IntKw] + rest == [SizeofKw] + ([LParen] + ([IntKw] + rest));
    Ahead(SizeofKw, [LParen] + ([IntKw] + rest));
    Ahead(LParen, [IntKw] + rest);
    Ahead(IntKw, rest);
  }

  /** A name without a meaning, or that of a function where a variable must be. */
  lemma UnknownVariable(x: Name, rest: seq<Token>, code: seq<int>, lev: int, sc: Scope)
    requires Peek(rest) != LParen
    requires x in sc.env ==> sc.env[x].cls == FunClass || sc.env[x].cls == SysClass
    ensures Expression([Id(x)] + rest, code, lev, sc) == Err(UndefinedVariable)
  {
    Ahead(Id(x), rest);
    assert NameUse(x, rest, code, sc) == Err(UndefinedVariable);
    PrefixFails([Id(x)] + rest, code, lev, sc, UndefinedVariable);
  }

  /** A call of what is not a function, once its arguments are read. */
  lemma UnknownFunction(x: Name, rest: seq<Token>, code: seq<int>, lev: int, sc: Scope)
    requires x in sc.env ==> sc.env[x].cls != FunClass && sc.env[x].cls != SysClass
    requires Arguments(rest, code, 0, sc).Ok?
    ensures Expression([Id(x), LParen] + rest, code, lev, sc) == Err(BadFunctionCall)
  {
    assert [Id(x), LParen] + rest == [Id(x)] + ([LParen] + rest);
    Ahead(Id(x), [LParen] + rest);
    Ahead(LParen, rest);
    assert CallUse(x, rest, code, sc) == Err(BadFunctionCall);
    assert NameUse(x, [LParen] + rest, code, sc) == Err(BadFunctionCall);
    PrefixFails([Id(x), LParen] + rest, code, lev, sc, BadFunctionCall);
  }

  lemma CastNeedsParenthesis(t: Token, rest: seq<Token>, code: seq<int>, lev: int, sc: Scope)
    requires (t == IntKw || t == CharKw) && Peek(rest) != OpTok(Mul) && Peek(rest) != RParen
    ensures Expression([LParen, t] + rest, code, lev, sc) == Err(BadCast)
  {
    assert [LParen, t] + rest == [LParen] + ([t] + rest);
    Ahead(LParen, [t] + rest);
    Ahead(t, rest);
    assert Parenthesis([t] + rest, code, sc) == Err(BadCast);
    ParenthesisFails([t] + rest, code, lev, sc, BadCast);
  }

  /** An expression in parentheses that is not closed. */
  lemma Unclosed(inner: seq<Token>, rest: seq<Token>, code: seq<int>, lev: int, sc: Scope, c: seq<int>, ty: Type)
    requires Peek(inner) != IntKw && Peek(inner) != CharKw
    requires Expression(inner, code, ASSIGN, sc) == Ok(rest, c, ty) && Peek(rest) != RParen
    ensures Expression([LParen] + inner, code, lev, sc) == Err(CloseParenExpected)
  {
    Ahead(LParen, inner);
    ParenthesisFails(inner, code, lev, sc, CloseParenExpected);
  }

  /** Only pointers are followed. */
  lemma DereferenceOfNumber(operand: seq<Token>, rest: seq<Token>, code: seq<int>, lev: int, sc: Scope, c: seq<int>, ty: Type)
    requires Expression(operand, code, INC, sc) == Ok(rest, c, ty) && (ty == 0 || ty == 1)
    ensures Expression([OpTok(Mul)] + operand, code, lev, sc) == Err(BadDereference)
  {
    Ahead(OpTok(Mul), operand);
  }

  lemma NoColon(yes: seq<Token>, rest: seq<Token>, code: seq<int>, ty: Type, sc: Scope, c: seq<int>, ta: Type)
    requires Expression(yes, code + [4, 0], ASSIGN, sc) == Ok(rest, c, ta) && Peek(rest) != Colon
    ensures Infix([CondTok] + yes, code, ty, sc) == Err(CondMissingColon)
  {
    Ahead(CondTok, yes);
  }

  /** A subscript that is not closed, or of what is not a pointer. */
  lemma BadSubscript(index: seq<Token>, rest: seq<Token>, code: seq<int>, ty: Type, sc: Scope, c: seq<int>, ti: Type)
    requires Expression(index, code + [13], ASSIGN, sc) == Ok(rest, c, ti)
    ensures Peek(rest) != RBrack ==> Infix([BrakTok] + index, code, ty, sc) == Err(CloseBrackExpected)
    ensures Peek(rest) == RBrack && ty < 2 ==> Infix([BrakTok] + index, code, ty, sc) == Err(PointerTypeExpected)
  {
    Ahead(BrakTok, index);
  }

  /** An error in an expression is the error of what contains it. */
  lemma ErrorsPass(inner: seq<Token>, code: seq<int>, lev: int, sc: Scope, st: Status)
    requires Expression(inner, code, ASSIGN, sc) == Err(st)
    ensures Peek(inner) != IntKw && Peek(inner) != CharKw ==> Expression([LParen] + inner, code, lev, sc) == Err(st)
    ensures Peek(inner) != Semi ==> Statement([ReturnKw] + inner, code, sc) == Err(st)
    ensures Statement([WhileKw] + ([LParen] + inner), code, sc) == Statement([IfKw] + ([LParen] + inner), code, sc) == Err(st)
  {
    hide Expression, Prefix;
    Ahead(LParen, inner);
    Ahead(ReturnKw, inner);
    Ahead(WhileKw, [LParen] + inner);
    Ahead(IfKw, [LParen] + inner);
    assert Condition([LParen] + inner, code, sc) == Err(st);
    if Peek(inner) != IntKw && Peek(inner) != CharKw {
      assert Parenthesis(inner, code, sc) == Err(st);
      ParenthesisFails(inner, code, lev, sc, st);
    }
  }

  lemma ParenthesisFails(inner: seq<Token>, code: seq<int>, lev: int, sc: Scope, st: Status)
    requires Parenthesis(inner, code, sc) == Err(st)
    ensures Expression([LParen] + inner, code, lev, sc) == Err(st)
  {
    hide Parenthesis;
    Ahead(LParen, inner);
    PrefixFails([LParen] + inner, code, lev, sc, st);
  }

  // ----- statements -----

  lemma ConditionNeedsParenthesis(t: Token, rest: seq<Token>, code: seq<int>, sc: Scope)
    requires Peek(rest) != LParen && (t == IfKw || t == WhileKw)
    ensures Statement([t] + rest, code, sc) == Err(OpenParenExpected)
  {
    Ahead(t, rest);
  }

  lemma NoSemicolon(toks: seq<Token>, rest: seq<Token>, code: seq<int>, sc: Scope, c: seq<int>, ty: Type)
    requires Expression(toks, code, ASSIGN, sc) == Ok(rest, c, ty) && Peek(rest) != Semi && Starts(Peek(toks))
    ensures Statement(toks, code, sc) == Statement([ReturnKw] + toks, code, sc) == Err(SemicolonExpected)
  {
    Ahead(ReturnKw, toks);
  }

  // ----- declarations -----

  /** A declaration without a name, or of a name that is taken. */
  lemma BadDeclarator(t: Token, rest: seq<Token>, im: Image)
    requires !t.Id? && t != Semi && t != RBrace && t != OpTok(Mul)
    ensures OneDeclaration([IntKw, t] + rest, im) == Failed(BadGlobalDeclaration)
  {
    assert [IntKw, t] + rest == [IntKw] + ([t] + rest);
    Ahead(IntKw, [t] + rest);
    Ahead(t, rest);
  }

  lemma TwiceDeclared(x: Name, rest: seq<Token>, im: Image)
    requires x in im.env
    ensures OneDeclaration([IntKw, Id(x)] + rest, im) == Failed(DupGlobalDeclaration)
  {
    assert [IntKw, Id(x)] + rest == [IntKw] + ([Id(x)] + rest);
    Ahead(IntKw, [Id(x)] + rest);
    Ahead(Id(x), rest);
  }

  /** A parameter without a name, or with that of an earlier one. */
  lemma BadParameter(rest: seq<Token>, env: Env, slot: int)
    ensures !Peek(rest).Id? && Peek(rest) != OpTok(Mul) ==> Params([IntKw] + rest, env, slot) == BadVars(BadParmDeclaration)
    ensures Peek(rest).Id? && Peek(rest).x in env && env[Peek(rest).x].cls == LocClass ==>
      Params([IntKw] + rest, env, slot) == BadVars(DupParmDeclaration)
  {
    Ahead(IntKw, rest);
  }

  /** The same of locals. */
  lemma BadLocal(rest: seq<Token>, env: Env, last: int)
    requires rest != [] && Peek(rest) != Semi
    ensures !Peek(rest).Id? && Peek(rest) != OpTok(Mul) ==> Locals([IntKw] + rest, env, last) == BadVars(BadLocalDeclaration)
    ensures Peek(rest).Id? && Peek(rest).x in env && env[Peek(rest).x].cls == LocClass ==>
      Locals([IntKw] + rest, env, last) == BadVars(DupLocalDeclaration)
  {
    Ahead(IntKw, rest);
  }

  lemma FunctionNeedsBody(toks: seq<Token>, rest: seq<Token>, im: Image, env: Env, n: int)
    requires Params(toks, im.env, 0) == Slots(rest, env, n) && Peek(rest) != LBrace
    ensures FunctionBody(toks, im) == Failed(BadFuncDeclaration)
  {
  }

  /** An enumerator without a name, or with a value that is not a number. */
  lemma BadEnumerator(rest: seq<Token>, x: Name, env: Env, next: int32)
    ensures !Peek(rest).Id? && Peek(rest) != RBrace ==> Enums(rest, env, next) == BadVars(BadEnumIdentifier)
    ensures !Peek(rest).Num? ==> Enums([Id(x), AssignTok] + rest, env, next) == BadVars(BadEnumInitializer)
  {
    assert [Id(x), AssignTok] + rest == [Id(x)] + ([AssignTok] + rest);
    Ahead(Id(x), [AssignTok] + rest);
    Ahead(AssignTok, rest);
  }
}
