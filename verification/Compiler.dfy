// The compiler as the machine object runs it: tokens are consumed and words emitted step by step.
// Every method is proved against the function of the Parser module that says what it consumes and emits.

module Compiler {
  import opened Options
  import opened Words
  import opened Vm
  import opened Syntax
  import opened CodeGen
  import opened Tokens
  import opened Parser
  import opened Declarations

  class CMachine {
    // what follows the current token, and the current token
    var pSource: seq<Token>
    var currentToken: Token
    // the words emitted so far; the last one is where pText points
    var pText: seq<int>
    var currentExprType: Type
    // symbols, and the frame offset of the function being compiled
    var symbols: Env
    // what a parameter or local hides while its function is compiled
    var hidden: map<Name, Option<Symbol>>
    // where the next global goes
    var pData: int
    var localVariableOffset: int

    ghost predicate Valid()
      reads this`pSource, this`currentToken
    {
      Eof !in pSource && (currentToken.Eof? ==> pSource == [])
    }

    /** The tokens not yet consumed. */
    ghost function Tokens(): (t: seq<Token>)
      reads this`pSource, this`currentToken
      requires Valid()
      ensures Peek(t) == currentToken && (t == [] <==> currentToken.Eof?)
    {
      if currentToken.Eof? then [] else [currentToken] + pSource
    }

    ghost function Scoping(): Scope
      reads this`symbols, this`localVariableOffset
    {
      Scope(symbols, localVariableOffset)
    }

    /** The machine is where result r says, or the error jumped out with is r's. */
    ghost predicate Shows(r: Parser.Result, error: Option<Status>)
      reads this
      requires Valid()
    {
      match r
      case Ok(toks, code, ty) => error == None && Tokens() == toks && pText == code && currentExprType == ty
      case Err(status) => error == Some(status)
    }

    constructor (tokens: seq<Token>, env: Env, data: int)
      requires Eof !in tokens
      ensures Valid() && Tokens() == tokens && pText == [0] && symbols == env && pData == data
    {
      pSource := Rest(tokens);
      currentToken := Peek(tokens);
      pText := [0];
      currentExprType := INT;
      symbols := env;
      hidden := map[];
      pData := data;
      localVariableOffset := 0;
    }

    method CcNextToken()
      requires Valid()
      modifies this`pSource, this`currentToken
      ensures Valid() && Tokens() == Rest(old(Tokens()))
      ensures |Tokens()| <= |old(Tokens())| && (!old(currentToken).Eof? ==> |Tokens()| < |old(Tokens())|)
    {
      currentToken := Peek(pSource);
      pSource := Rest(pSource);
    }

    method CcPushOpCode(opc: int)
      modifies this`pText
      ensures pText == old(pText) + [opc]
    {
      pText := pText + [opc];
    }

    method CcPushImm(imm: int)
      modifies this`pText
      ensures pText == old(pText) + [imm]
    {
      pText := pText + [imm];
    }

    method CcStars(ty: Type) returns (r: Type)
      requires Valid()
      modifies this`pSource, this`currentToken
      ensures Valid() && (Tokens(), r) == Stars(old(Tokens()), ty)
    {
      r := ty;
      while currentToken == OpTok(Mul)
        invariant Valid() && Stars(Tokens(), r) == Stars(old(Tokens()), ty)
        decreases |Tokens()|
      {
        CcNextToken();
        r := r + PTR;
      }
    }

    method CcOptionalType() returns (r: Type)
      requires Valid()
      modifies this`pSource, this`currentToken
      ensures Valid() && (Tokens(), r) == OptionalType(old(Tokens()))
    {
      hide Stars;
      r := INT;
      if currentToken == IntKw {
        CcNextToken();
      } else if currentToken == CharKw {
        CcNextToken();
        r := CHAR;
      }
      r := CcStars(r);
    }

    method CcSkipComma()
      requires Valid()
      modifies this`pSource, this`currentToken
      ensures Valid() && Tokens() == SkipComma(old(Tokens()))
    {
      if currentToken == Comma { CcNextToken(); }
    }

    method CcOnExpression(lev: int) returns (error: Option<Status>)
      requires Valid() && lev > 0
      modifies this`pSource, this`currentToken, this`pText, this`currentExprType
      ensures Valid() && Shows(Expression(old(Tokens()), old(pText), lev, Scoping()), error)
      decreases |Tokens()|, 2
    {
      ghost var toks, code := Tokens(), pText;
      error := CcPrefix();
      if error.Some? { return; }
      ghost var whole := Expression(toks, code, lev, Scoping());
      while Rank(currentToken) >= lev
        invariant Valid() && error == None && |Tokens()| < |toks|
        invariant Climb(Tokens(), pText, currentExprType, lev, Scoping()) == whole
        decreases |Tokens()|
      {
        error := CcInfix();
        if error.Some? { return; }
      }
    }

    /** Leaves room for an operand and says where. */
    method CcAdvanceOpc() returns (d: nat)
      modifies this`pText
      ensures pText == old(pText) + [0] && d == |old(pText)|
    {
      d := |pText|;
      pText := pText + [0];
    }

    method CcPatch(d: nat, v: int)
      modifies this`pText
      ensures pText == Patch(old(pText), d, v)
    {
      if d < |pText| {
        pText := pText[d := v];
      }
    }

    /** A literal, name, call, parenthesis, cast or prefix operator with its operand. */
    method CcPrefix() returns (error: Option<Status>)
      requires Valid()
      modifies this`pSource, this`currentToken, this`pText, this`currentExprType
      ensures Valid() && Shows(Prefix(old(Tokens()), old(pText), Scoping()), error)
      decreases |Tokens()|, 1
    {
      hide Expression, Sizeof, NameUse, Parenthesis, Minus, Operated, Peek, Rest;
      error := None;
      var tok := currentToken;
      if tok.Eof? { return Some(UnexpectedEof); }
      CcNextToken();
      if tok.Num? {
        CcPushOpCode(IMM);
        CcPushImm(tok.n);
        assert pText == old(pText) + [IMM, tok.n];
        currentExprType := INT;
      } else if tok.SizeofKw? {
        error := CcSizeof();
      } else if tok.Id? {
        error := CcName(tok.x);
      } else if tok.LParen? {
        error := CcParenthesis();
      } else if tok == OpTok(Sub) {
        error := CcMinus();
      } else if TakesOperand(tok) {
        error := CcOnExpression(INC);
        if error.Some? { return; }
        error := CcOperate(tok);
      } else {
        return Some(BadExpression);
      }
    }

    method CcSizeof() returns (error: Option<Status>)
      requires Valid()
      modifies this`pSource, this`currentToken, this`pText, this`currentExprType
      ensures Valid() && Shows(Sizeof(old(Tokens()), old(pText)), error)
    {
      hide OptionalType, Stars, Peek, Rest;
      error := None;
      if currentToken == LParen { CcNextToken(); } else { return Some(OpenParenExpected); }
      currentExprType := CcOptionalType();
      if currentToken == RParen { CcNextToken(); } else { return Some(CloseParenExpected); }
      CcPushOpCode(IMM);
      CcPushImm(if currentExprType == CHAR then 1 else 4);
      assert pText == old(pText) + [IMM, if currentExprType == CHAR then 1 else 4];
      currentExprType := INT;
    }

    /** A name: a call when a parenthesis follows, a constant, or a variable. */
    method CcName(x: Name) returns (error: Option<Status>)
      requires Valid()
      modifies this`pSource, this`currentToken, this`pText, this`currentExprType
      ensures Valid() && Shows(NameUse(x, old(Tokens()), old(pText), Scoping()), error)
      decreases |Tokens()|, 4
    {
      hide CallUse, VariableUse, Peek, Rest;
      error := None;
      if currentToken == LParen {
        CcNextToken();
        error := CcCall(x);
      } else {
        error := CcVariable(x);
      }
    }

    /** A constant, or the address of a variable and a load. */
    method CcVariable(x: Name) returns (error: Option<Status>)
      requires Valid()
      modifies this`pText, this`currentExprType
      ensures Valid() && Shows(VariableUse(x, Tokens(), old(pText), Scoping()), error)
    {
      error := None;
      if x !in symbols {
        return Some(UndefinedVariable);
      } else if symbols[x].cls.NumClass? {
        CcPushOpCode(IMM);
        CcPushImm(symbols[x].val);
        assert pText == old(pText) + [IMM, symbols[x].val];
        currentExprType := INT;
      } else {
        if symbols[x].cls.LocClass? {
          CcPushOpCode(LEA);
          CcPushImm(localVariableOffset - symbols[x].val);
        } else if symbols[x].cls.GloClass? {
          CcPushOpCode(IMM);
          CcPushImm(symbols[x].val);
        } else {
          return Some(UndefinedVariable);
        }
        currentExprType := symbols[x].ty;
        ghost var operands := pText;
        CcPushImm(if currentExprType == CHAR then LC else LI);
        assert pText == old(pText) + [operands[|operands| - 2], operands[|operands| - 1], LoadOp(currentExprType == CHAR)];
      }
    }

    /** The arguments and the transfer of control; the opening parenthesis is consumed. */
    method CcCall(x: Name) returns (error: Option<Status>)
      requires Valid()
      modifies this`pSource, this`currentToken, this`pText, this`currentExprType
      ensures Valid() && Shows(CallUse(x, old(Tokens()), old(pText), Scoping()), error)
      decreases |Tokens()|, 3
    {
      ghost var all := Arguments(Tokens(), pText, 0, Scoping());
      ghost var toks := Tokens();
      error := None;
      var t := 0;
      while currentToken != RParen
        invariant Valid() && error == None && |Tokens()| <= |toks|
        invariant Arguments(Tokens(), pText, t, Scoping()) == all
        decreases |Tokens()|
      {
        error := CcOnExpression(ASSIGN);
        if error.Some? { return; }
        CcPushOpCode(PSH);
        t := t + 1;
        if currentToken == Comma { CcNextToken(); }
      }
      CcNextToken();
      if x in symbols && symbols[x].cls.SysClass? {
        CcPushImm(symbols[x].val);
      } else if x in symbols && symbols[x].cls.FunClass? {
        ghost var c := pText;
        CcPushImm(JSR);
        CcPushImm(symbols[x].val);
        assert pText == c + [JSR, symbols[x].val];
      } else {
        return Some(BadFunctionCall);
      }
      if t > 0 {
        ghost var c := pText;
        CcPushOpCode(ADJ);
        CcPushImm(t);
        assert pText == c + [ADJ, t];
      }
      currentExprType := symbols[x].ty;
    }

    /** A cast or an expression in parentheses; the opening one is consumed. */
    method CcParenthesis() returns (error: Option<Status>)
      requires Valid()
      modifies this`pSource, this`currentToken, this`pText, this`currentExprType
      ensures Valid() && Shows(Parenthesis(old(Tokens()), old(pText), Scoping()), error)
      decreases |Tokens()|, 4
    {
      hide Expression, Stars, Peek, Rest;
      if currentToken == IntKw || currentToken == CharKw {
        var t := if currentToken == IntKw then INT else CHAR;
        CcNextToken();
        t := CcStars(t);
        if currentToken == RParen { CcNextToken(); } else { return Some(BadCast); }
        error := CcOnExpression(INC);
        if error.Some? { return; }
        currentExprType := t;
      } else {
        error := CcOnExpression(ASSIGN);
        if error.Some? { return; }
        if currentToken == RParen { CcNextToken(); } else { return Some(CloseParenExpected); }
      }
    }

    /** What a prefix operator other than minus emits after its operand. */
    method CcOperate(tok: Token) returns (error: Option<Status>)
      requires Valid() && TakesOperand(tok)
      modifies this`pText, this`currentExprType
      ensures Valid() && Tokens() == old(Tokens())
      ensures Shows(Operated(tok, Tokens(), old(pText), old(currentExprType)), error)
    {
      error := None;
      if tok == OpTok(Mul) {
        if currentExprType > INT { currentExprType := currentExprType - PTR; } else { return Some(BadDereference); }
        CcPushOpCode(if currentExprType == CHAR then LC else LI);
      } else if tok == OpTok(And) {
        if EndsInLoad(pText) { pText := DropLast(pText); } else { return Some(BadReference); }
        currentExprType := currentExprType + PTR;
      } else if tok == Bang {
        CcPushOpCode(PSH);
        CcPushOpCode(IMM);
        CcPushImm(0);
        CcPushOpCode(EQ);
        assert pText == old(pText) + [PSH, IMM, 0, EQ];
        currentExprType := INT;
      } else if tok == Tilde {
        CcPushOpCode(PSH);
        CcPushOpCode(IMM);
        CcPushImm(-1);
        CcPushOpCode(XOR);
        assert pText == old(pText) + [PSH, IMM, -1, XOR];
        currentExprType := INT;
      } else if tok == OpTok(Add) {
        currentExprType := INT;
      } else {
        hide EndsInLoad, Reload, StepCode;
        error := CcReload();
        if error.Some? { return; }
        CcStepPlace(tok == IncTok);
      }
    }

    method CcMinus() returns (error: Option<Status>)
      requires Valid()
      modifies this`pSource, this`currentToken, this`pText, this`currentExprType
      ensures Valid() && Shows(Minus(old(Tokens()), old(pText), Scoping()), error)
      decreases |Tokens()|, 4
    {
      hide Expression, Peek, Rest;
      error := None;
      CcPushOpCode(IMM);
      if currentToken.Num? {
        CcPushImm(Negated(currentToken.n));
        assert pText == old(pText) + [IMM, Negated(currentToken.n)];
        CcNextToken();
      } else {
        CcPushImm(-1);
        CcPushOpCode(PSH);
        assert pText == old(pText) + [IMM, -1, PSH];
        error := CcOnExpression(INC);
        if error.Some? { return; }
        CcPushOpCode(MUL);
      }
      currentExprType := INT;
    }

    /** The last load becomes a push of the address, then is issued again. */
    method CcReload() returns (error: Option<Status>)
      modifies this`pText
      ensures EndsInLoad(old(pText)) ==> error == None && pText == Reload(old(pText))
      ensures !EndsInLoad(old(pText)) ==> error == Some(BadLvalue)
    {
      error := None;
      if Last(pText) == LC {
        pText := LoadToPush(pText);
        CcPushOpCode(LC);
      } else if Last(pText) == LI {
        pText := LoadToPush(pText);
        CcPushOpCode(LI);
      } else {
        return Some(BadLvalue);
      }
    }

    method CcStepPlace(up: bool)
      modifies this`pText
      ensures pText == old(pText) + StepCode(up, currentExprType)
    {
      CcPushOpCode(PSH);
      CcPushOpCode(IMM);
      CcPushImm(if currentExprType > PTR then 4 else 1);
      CcPushOpCode(if up then ADD else SUB);
      CcPushOpCode(if currentExprType == CHAR then SC else SI);
      assert pText == old(pText) + StepCode(up, currentExprType);
    }

    /** One infix or postfix operator; its left operand is compiled. */
    method CcInfix() returns (error: Option<Status>)
      requires Valid() && Tokens() != []
      modifies this`pSource, this`currentToken, this`pText, this`currentExprType
      ensures Valid() && Shows(Infix(old(Tokens()), old(pText), old(currentExprType), Scoping()), error)
      decreases |Tokens()|, 0
    {
      hide Assignment, Conditional, ShortCircuit, Binary, Subscript, PostStepCode;
      error := None;
      var tok := currentToken;
      CcNextToken();
      if tok.AssignTok? {
        error := CcAssignment();
      } else if tok.CondTok? {
        error := CcConditional();
      } else if tok.LorTok? {
        error := CcShortCircuit(BNZ, LAN);
      } else if tok.LanTok? {
        error := CcShortCircuit(BZ, OpRank(Or));
      } else if tok.OpTok? {
        error := CcBinary(tok.op);
      } else if tok.IncTok? || tok.DecTok? {
        error := CcPostStep(tok.IncTok?);
      } else if tok.BrakTok? {
        error := CcSubscript();
      } else {
        return Some(CompilerError);
      }
    }

    method CcAssignment() returns (error: Option<Status>)
      requires Valid()
      modifies this`pSource, this`currentToken, this`pText, this`currentExprType
      ensures Valid() && Shows(Assignment(old(Tokens()), old(pText), old(currentExprType), Scoping()), error)
      decreases |Tokens()|, 4
    {
      hide Expression, LoadToPush, EndsInLoad;
      var t := currentExprType;
      if EndsInLoad(pText) { pText := LoadToPush(pText); } else { return Some(BadLvalue); }
      error := CcOnExpression(ASSIGN);
      if error.Some? { return; }
      currentExprType := t;
      CcPushOpCode(if t == CHAR then SC else SI);
    }

    method CcConditional() returns (error: Option<Status>)
      requires Valid()
      modifies this`pSource, this`currentToken, this`pText, this`currentExprType
      ensures Valid() && Shows(Conditional(old(Tokens()), old(pText), Scoping()), error)
      decreases |Tokens()|, 4
    {
      hide Expression, Patch, Peek, Rest;
      var d;
      error, d := CcBranchOver(BZ, ASSIGN);
      if error.Some? { return; }
      if currentToken == Colon { CcNextToken(); } else { return Some(CondMissingColon); }
      CcPatch(d, |pText| + 2);
      error, d := CcBranchOver(JMP, COND);
      if error.Some? { return; }
      CcPatch(d, |pText|);
    }

    /** A jump whose operand is left open, and an expression; where the operand is. */
    method CcBranchOver(branch: int, lev: int) returns (error: Option<Status>, d: nat)
      requires Valid() && lev > 0
      modifies this`pSource, this`currentToken, this`pText, this`currentExprType
      ensures Valid() && Shows(Expression(old(Tokens()), old(pText) + [branch, 0], lev, Scoping()), error)
      ensures d == |old(pText)| + 1
      decreases |Tokens()|, 3
    {
      hide Expression;
      CcPushOpCode(branch);
      d := CcAdvanceOpc();
      assert pText == old(pText) + [branch, 0];
      error := CcOnExpression(lev);
    }

    method CcShortCircuit(branch: int, lev: int) returns (error: Option<Status>)
      requires Valid() && lev > 0
      modifies this`pSource, this`currentToken, this`pText, this`currentExprType
      ensures Valid() && Shows(ShortCircuit(branch, lev, old(Tokens()), old(pText), Scoping()), error)
      decreases |Tokens()|, 4
    {
      hide Expression, Patch;
      var d;
      error, d := CcBranchOver(branch, lev);
      if error.Some? { return; }
      CcPatch(d, |pText|);
      currentExprType := INT;
    }

    method CcBinary(op: BinOp) returns (error: Option<Status>)
      requires Valid()
      modifies this`pSource, this`currentToken, this`pText, this`currentExprType
      ensures Valid() && Shows(Binary(op, old(Tokens()), old(pText), old(currentExprType), Scoping()), error)
      decreases |Tokens()|, 4
    {
      hide Expression, BinTail, BinType;
      var t := currentExprType;
      CcPushOpCode(PSH);
      error := CcOnExpression(RightLevel(op));
      if error.Some? { return; }
      CcBinTail(op, t);
      currentExprType := BinType(op, t, currentExprType);
    }

    /** The operator after its right operand, with pointer operands scaled. */
    method CcBinTail(op: BinOp, t: Type)
      modifies this`pText
      ensures pText == old(pText) + BinTail(op, t, currentExprType)
    {
      if op == Add && t > PTR {
        CcScale();
        CcPushOpCode(ADD);
      } else if op == Sub && t > PTR && t == currentExprType {
        CcPushOpCode(SUB);
        CcPushOpCode(PSH);
        CcPushOpCode(IMM);
        CcPushImm(4);
        CcPushOpCode(DIV);
      } else if op == Sub && t > PTR {
        CcScale();
        CcPushOpCode(SUB);
      } else {
        CcPushOpCode(Opcode(op));
      }
      assert pText == old(pText) + BinTail(op, t, currentExprType);
    }

    /** An index into words counts in words. */
    method CcScale()
      modifies this`pText
      ensures pText == old(pText) + [PSH, IMM, 4, MUL]
    {
      CcPushOpCode(PSH);
      CcPushOpCode(IMM);
      CcPushImm(4);
      CcPushOpCode(MUL);
    }

    method CcPostStep(up: bool) returns (error: Option<Status>)
      requires Valid()
      modifies this`pText
      ensures Valid() && Shows(PostStepCode(Tokens(), old(pText), currentExprType, up), error)
    {
      hide EndsInLoad, Reload, StepCode;
      error := CcReload();
      if error.Some? { return; }
      CcStepPlace(up);
      ghost var c := pText;
      CcPushOpCode(PSH);
      CcPushOpCode(IMM);
      CcPushImm(if currentExprType > PTR then 4 else 1);
      CcPushOpCode(if up then SUB else ADD);
      assert pText == c + [PSH, IMM, Stride(currentExprType), StepOp(!up)];
    }

    method CcSubscript() returns (error: Option<Status>)
      requires Valid()
      modifies this`pSource, this`currentToken, this`pText, this`currentExprType
      ensures Valid() && Shows(Subscript(old(Tokens()), old(pText), old(currentExprType), Scoping()), error)
      decreases |Tokens()|, 4
    {
      hide Expression, Peek, Rest;
      var t := currentExprType;
      CcPushOpCode(PSH);
      error := CcOnExpression(ASSIGN);
      if error.Some? { return; }
      if currentToken == RBrack { CcNextToken(); } else { return Some(CloseBrackExpected); }
      ghost var c := pText;
      if t > PTR {
        CcScale();
      } else if t < PTR {
        return Some(PointerTypeExpected);
      }
      CcPushOpCode(ADD);
      assert pText == c + BinTail(Add, t, INT);
      currentExprType := t - PTR;
      CcPushImm(if currentExprType == CHAR then LC else LI);
    }

    // ----- statements -----

    /** Where the machine is after a statement; a statement leaves no type. */
    ghost predicate Reaches(r: Parser.Result, error: Option<Status>)
      reads this
      requires Valid()
    {
      match r
      case Ok(toks, code, _) => error == None && Tokens() == toks && pText == code
      case Err(status) => error == Some(status)
    }

    method CcReturn() returns (error: Option<Status>)
      requires Valid()
      modifies this`pSource, this`currentToken, this`pText, this`currentExprType
      ensures Valid() && Reaches(ReturnStatement(old(Tokens()), old(pText), Scoping()), error)
      decreases |Tokens()|, 4
    {
      hide Expression, Peek, Rest;
      error := None;
      if currentToken != Semi {
        error := CcOnExpression(ASSIGN);
        if error.Some? { return; }
      }
      CcPushOpCode(LEV);
      if currentToken == Semi { CcNextToken(); } else { return Some(SemicolonExpected); }
    }

    method CcStatement() returns (error: Option<Status>)
      requires Valid()
      modifies this`pSource, this`currentToken, this`pText, this`currentExprType
      ensures Valid() && Reaches(Statement(old(Tokens()), old(pText), Scoping()), error)
      decreases |Tokens()|, 4
    {
      hide IfStatement, WhileStatement, ReturnStatement, Statements, Expression, Peek, Rest;
      error := None;
      if currentToken.IfKw? {
        CcNextToken();
        error := CcIf();
      } else if currentToken.WhileKw? {
        CcNextToken();
        error := CcWhile();
      } else if currentToken.ReturnKw? {
        CcNextToken();
        error := CcReturn();
      } else if currentToken.LBrace? {
        CcNextToken();
        error := CcBlock();
      } else if currentToken.Semi? {
        CcNextToken();
      } else {
        error := CcOnExpression(ASSIGN);
        if error.Some? { return; }
        if currentToken == Semi { CcNextToken(); } else { return Some(SemicolonExpected); }
      }
    }

    /** Statements up to and including the closing brace. */
    method CcBlock() returns (error: Option<Status>)
      requires Valid()
      modifies this`pSource, this`currentToken, this`pText, this`currentExprType
      ensures Valid() && Reaches(Statements(old(Tokens()), old(pText), Scoping()), error)
      decreases |Tokens()|, 5
    {
      ghost var toks, whole := Tokens(), Statements(Tokens(), pText, Scoping());
      hide Statement;
      error := None;
      while currentToken != RBrace
        invariant Valid() && error == None && |Tokens()| <= |toks|
        invariant Statements(Tokens(), pText, Scoping()) == whole
        decreases |Tokens()|
      {
        error := CcStatement();
        if error.Some? { return; }
      }
      CcNextToken();
    }

    /** A condition in parentheses. */
    method CcCondition() returns (error: Option<Status>)
      requires Valid()
      modifies this`pSource, this`currentToken, this`pText, this`currentExprType
      ensures Valid() && Shows(Condition(old(Tokens()), old(pText), Scoping()), error)
      decreases |Tokens()|, 4
    {
      hide Expression, Peek, Rest;
      if currentToken == LParen { CcNextToken(); } else { return Some(OpenParenExpected); }
      error := CcOnExpression(ASSIGN);
      if error.Some? { return; }
      if currentToken == RParen { CcNextToken(); } else { return Some(CloseParenExpected); }
    }

    method CcIf() returns (error: Option<Status>)
      requires Valid()
      modifies this`pSource, this`currentToken, this`pText, this`currentExprType
      ensures Valid() && Reaches(IfStatement(old(Tokens()), old(pText), Scoping()), error)
      decreases |Tokens()|, 7
    {
      hide Condition, Statement, ElsePart, Patch, Peek, Rest;
      error := CcCondition();
      if error.Some? { return; }
      ghost var c := pText;
      CcPushOpCode(BZ);
      var b := CcAdvanceOpc();
      assert pText == c + [BZ, 0];
      error := CcStatement();
      if error.Some? { return; }
      error := CcElse(b);
    }

    /** The rest of an if statement: its jump, at word b, is patched when its target is known. */
    method CcElse(b: nat) returns (error: Option<Status>)
      requires Valid()
      modifies this`pSource, this`currentToken, this`pText, this`currentExprType
      ensures Valid() && Reaches(ElsePart(old(Tokens()), old(pText), b, Scoping()), error)
      decreases |Tokens()|, 6
    {
      hide Statement, Patch, Peek, Rest;
      error := None;
      var d := b;
      if currentToken == ElseKw {
        CcPatch(d, |pText| + 2);
        ghost var c := pText;
        CcPushOpCode(JMP);
        d := CcAdvanceOpc();
        assert pText == c + [JMP, 0];
        CcNextToken();
        error := CcStatement();
        if error.Some? { return; }
      }
      CcPatch(d, |pText|);
    }

    method CcWhile() returns (error: Option<Status>)
      requires Valid()
      modifies this`pSource, this`currentToken, this`pText, this`currentExprType
      ensures Valid() && Reaches(WhileStatement(old(Tokens()), old(pText), Scoping()), error)
      decreases |Tokens()|, 6
    {
      hide Condition, Statement, Patch, Peek, Rest;
      var a := |pText|;
      error := CcCondition();
      if error.Some? { return; }
      ghost var c := pText;
      CcPushOpCode(BZ);
      var b := CcAdvanceOpc();
      assert pText == c + [BZ, 0];
      error := CcStatement();
      if error.Some? { return; }
      c := pText;
      CcPushOpCode(JMP);
      CcPushImm(a);
      assert pText == c + [JMP, a];
      CcPatch(b, |pText|);
    }

    // ----- declarations -----

    ghost function Built(): Image
      reads this`pText, this`symbols, this`pData
    {
      Image(pText, symbols, pData)
    }

    /** Where the machine is after declarations. */
    ghost predicate Declares(r: DeclResult, error: Option<Status>)
      reads this
      requires Valid()
    {
      match r
      case Built(toks, image) => error == None && Tokens() == toks && Built() == image
      case Failed(status) => error == Some(status)
    }

    /** Names declared local hide exactly what they meant in env; all others mean the same. */
    ghost predicate Hides(env: Env)
      reads this`symbols, this`hidden
    {
      forall x ::
        if x in symbols && symbols[x].cls.LocClass? then x in hidden && hidden[x] == Meaning(env, x)
        else Meaning(symbols, x) == Meaning(env, x)
    }

    method CcHide(x: Name, ty: Type, slot: int, ghost env: Env)
      requires Hides(env) && !(x in symbols && symbols[x].cls.LocClass?)
      modifies this`symbols, this`hidden
      ensures Hides(env) && symbols == old(symbols)[x := Symbol(LocClass, ty, slot)]
    {
      hidden := hidden[x := if x in symbols then Some(symbols[x]) else None];
      symbols := symbols[x := Symbol(LocClass, ty, slot)];
    }

    /** At the end of a function every local gives its name back. */
    method CcUnwind(ghost env: Env)
      requires Hides(env) && NoLocals(env)
      modifies this`symbols
      ensures symbols == env
    {
      var todo := symbols.Keys;
      while todo != {}
        invariant Hides(env)
        invariant forall x :: x in symbols && x !in todo ==> !symbols[x].cls.LocClass?
        decreases todo
      {
        var x :| x in todo;
        todo := todo - {x};
        if x in symbols && symbols[x].cls.LocClass? {
          match hidden[x]
          case Some(s) => symbols := symbols[x := s];
          case None => symbols := map y | y in symbols && y != x :: symbols[y];
        }
      }
      forall x ensures Meaning(symbols, x) == Meaning(env, x) { }
      SameMeanings(symbols, env);
    }

    method CcParameters(ghost env: Env) returns (error: Option<Status>, n: int)
      requires Valid() && Hides(env)
      modifies this`pSource, this`currentToken, this`symbols, this`hidden
      ensures Valid() && Hides(env)
      ensures match Params(old(Tokens()), old(symbols), 0)
        case Slots(t, e, k) => error == None && Tokens() == t && symbols == e && n == k
        case BadVars(status) => error == Some(status)
    {
      hide OptionalType, Peek, Rest, SkipComma;
      ghost var whole := Params(Tokens(), symbols, 0);
      error := None;
      n := 0;
      while currentToken != RParen
        invariant Valid() && Hides(env) && Params(Tokens(), symbols, n) == whole
        decreases |Tokens()|
      {
        var ty := CcOptionalType();
        if !currentToken.Id? { return Some(BadParmDeclaration), n; }
        var x := currentToken.x;
        if x in symbols && symbols[x].cls.LocClass? { return Some(DupParmDeclaration), n; }
        CcHide(x, ty, n, env);
        n := n + 1;
        CcNextToken();
        CcSkipComma();
      }
      CcNextToken();
    }

    method CcLocals(last0: int, ghost env: Env) returns (error: Option<Status>, last: int)
      requires Valid() && Hides(env)
      modifies this`pSource, this`currentToken, this`symbols, this`hidden
      ensures Valid() && Hides(env)
      ensures match Locals(old(Tokens()), old(symbols), last0)
        case Slots(t, e, k) => error == None && Tokens() == t && symbols == e && last == k
        case BadVars(status) => error == Some(status)
    {
      hide LocalNames, Peek, Rest;
      ghost var whole := Locals(Tokens(), symbols, last0);
      error := None;
      last := last0;
      while currentToken == IntKw || currentToken == CharKw
        invariant Valid() && Hides(env) && error == None && Locals(Tokens(), symbols, last) == whole
        decreases |Tokens()|
      {
        var base := if currentToken == IntKw then INT else CHAR;
        CcNextToken();
        error, last := CcLocalNames(base, last, env);
        if error.Some? { return; }
      }
    }

    method CcLocalNames(base: Type, last0: int, ghost env: Env) returns (error: Option<Status>, last: int)
      requires Valid() && Hides(env)
      modifies this`pSource, this`currentToken, this`symbols, this`hidden
      ensures Valid() && Hides(env)
      ensures match LocalNames(old(Tokens()), old(symbols), base, last0)
        case Slots(t, e, k) => error == None && Tokens() == t && symbols == e && last == k
        case BadVars(status) => error == Some(status)
    {
      hide Stars, Peek, Rest, SkipComma;
      ghost var whole := LocalNames(Tokens(), symbols, base, last0);
      error := None;
      last := last0;
      while currentToken != Semi
        invariant Valid() && Hides(env) && LocalNames(Tokens(), symbols, base, last) == whole
        decreases |Tokens()|
      {
        var ty := CcStars(base);
        if !currentToken.Id? { return Some(BadLocalDeclaration), last; }
        var x := currentToken.x;
        if x in symbols && symbols[x].cls.LocClass? { return Some(DupLocalDeclaration), last; }
        last := last + 1;
        CcHide(x, ty, last, env);
        CcNextToken();
        CcSkipComma();
      }
      CcNextToken();
    }

    /** Parameters, opening brace and locals of a function. */
    method CcFrame(ghost env: Env) returns (error: Option<Status>, last: int)
      requires Valid() && Hides(env)
      modifies this`pSource, this`currentToken, this`symbols, this`hidden, this`localVariableOffset
      ensures Valid() && Hides(env)
      ensures match FunctionFrame(old(Tokens()), old(symbols))
        case Framed(t, e, n, k) => error == None && Tokens() == t && symbols == e && localVariableOffset == n + 1 && last == k
        case BadFrame(status) => error == Some(status)
    {
      hide Params, Locals, Peek, Rest;
      var n;
      last := 0;
      error, n := CcParameters(env);
      if error.Some? { return; }
      if currentToken != LBrace { return Some(BadFuncDeclaration), last; }
      localVariableOffset := n + 1;
      CcNextToken();
      error, last := CcLocals(n + 1, env);
    }

    /** A function from just after its opening parenthesis; its locals' names are given back at the end. */
    method CcFunction() returns (error: Option<Status>)
      requires Valid() && NoLocals(symbols)
      modifies this
      ensures Valid() && Declares(FunctionBody(old(Tokens()), old(Built())), error)
      ensures error == None ==> NoLocals(symbols)
    {
      hide FunctionFrame, Statements, Peek, Rest, NoLocals, Hides;
      ghost var env := symbols;
      var last;
      NothingHidden();
      error, last := CcFrame(env);
      if error.Some? { return; }
      CcPushOpCode(ENT);
      CcPushImm(last - localVariableOffset);
      assert pText == old(pText) + [ENT, last - localVariableOffset];
      error := CcBlock();
      if error.Some? { return; }
      CcPushOpCode(LEV);
      CcUnwind(env);
    }

    lemma NothingHidden()
      requires NoLocals(symbols)
      ensures Hides(symbols)
    {
    }

    method CcDeclarators(base: Type) returns (error: Option<Status>)
      requires Valid() && NoLocals(symbols)
      modifies this
      ensures Valid() && Declares(Declarators(old(Tokens()), base, old(Built())), error)
      ensures error == None ==> NoLocals(symbols)
    {
      hide Stars, Peek, Rest, FunctionBody, SetCurrent, SkipComma;
      ghost var whole := Declarators(Tokens(), base, Built());
      error := None;
      while currentToken != Semi && currentToken != RBrace
        invariant Valid() && NoLocals(symbols) && Declarators(Tokens(), base, Built()) == whole
        decreases |Tokens()|
      {
        var ty := CcStars(base);
        if !currentToken.Id? { return Some(BadGlobalDeclaration); }
        var x := currentToken.x;
        if x in symbols { return Some(DupGlobalDeclaration); }
        CcNextToken();
        if currentToken == LParen {
          symbols := symbols[x := Symbol(FunClass, ty, |pText|)];
          CcNextToken();
          error := CcFunction();
          return;
        }
        CcGlobal(x, ty);
      }
      CcNextToken();
    }

    /** A global variable takes the next four bytes; a comma may follow it. */
    method CcGlobal(x: Name, ty: Type)
      requires Valid() && NoLocals(symbols)
      modifies this`symbols, this`pData, this`pSource, this`currentToken
      ensures Valid() && NoLocals(symbols) && Tokens() == SkipComma(old(Tokens())) && pData == old(pData) + 4
      ensures symbols == SetCurrent(old(symbols), x, old(Tokens()), Symbol(GloClass, ty, old(pData)))
    {
      hide SkipComma, Peek, Rest;
      CcSetCurrent(x, Symbol(GloClass, ty, pData));
      pData := pData + 4;
      CcSkipComma();
    }

    /** Sets the symbol of the identifier last read. */
    method CcSetCurrent(x: Name, s: Symbol)
      requires Valid() && !s.cls.LocClass?
      modifies this`symbols
      ensures symbols == SetCurrent(old(symbols), x, Tokens(), s)
      ensures NoLocals(old(symbols)) ==> NoLocals(symbols)
    {
      if currentToken.Id? {
        symbols := symbols[currentToken.x := s];
      } else if !IsKeyword(currentToken) {
        symbols := symbols[x := s];
      }
    }

    method CcEnumerators() returns (error: Option<Status>)
      requires Valid() && NoLocals(symbols)
      modifies this`pSource, this`currentToken, this`symbols
      ensures Valid() && NoLocals(symbols)
      ensures match Enums(old(Tokens()), old(symbols), 0)
        case Slots(t, e, _) => error == None && Tokens() == t && symbols == e
        case BadVars(status) => error == Some(status)
    {
      hide Peek, Rest, SetCurrent;
      ghost var whole := Enums(Tokens(), symbols, 0);
      error := None;
      var next: int32 := 0;
      while currentToken != RBrace
        invariant Valid() && NoLocals(symbols) && Enums(Tokens(), symbols, next) == whole
        decreases |Tokens()|
      {
        if !currentToken.Id? { return Some(BadEnumIdentifier); }
        var x := currentToken.x;
        CcNextToken();
        if currentToken == AssignTok {
          CcNextToken();
          if !currentToken.Num? { return Some(BadEnumInitializer); }
          next := currentToken.n;
          CcNextToken();
        }
        CcSetCurrent(x, Symbol(NumClass, INT, next));
        next := Successor(next);
        if currentToken == Comma { CcNextToken(); }
      }
      CcNextToken();
    }

    method CcDeclaration() returns (error: Option<Status>)
      requires Valid() && NoLocals(symbols) && Tokens() != []
      modifies this
      ensures Valid() && Declares(OneDeclaration(old(Tokens()), old(Built())), error)
      ensures error == None ==> NoLocals(symbols)
    {
      hide Peek, Rest, Declarators, Enums;
      error := None;
      var base := INT;
      if currentToken == IntKw {
        CcNextToken();
      } else if currentToken == CharKw {
        CcNextToken();
        base := CHAR;
      } else if currentToken == EnumKw {
        CcNextToken();
        if currentToken != LBrace { CcNextToken(); }
        if currentToken == LBrace {
          CcNextToken();
          error := CcEnumerators();
          if error.Some? { return; }
        }
      }
      error := CcDeclarators(base);
    }

    /** The whole source: on success all of it is read, the image is the one its declarations build, and main exists. */
    method CcCompileCode() returns (error: Option<Status>)
      requires Valid() && NoLocals(symbols)
      modifies this
      ensures Valid()
      ensures match Unit(old(Tokens()), old(Built()))
        case Failed(status) => error == Some(status)
        case Built(toks, image) =>
          if "main" in image.env && image.env["main"].val != 0
          then error == None && Tokens() == toks && Built() == image
          else error == Some(MainNotDefined)
    {
      hide OneDeclaration;
      ghost var whole := Unit(Tokens(), Built());
      error := None;
      while !currentToken.Eof?
        invariant Valid() && NoLocals(symbols) && error == None && Unit(Tokens(), Built()) == whole
        decreases |Tokens()|
      {
        error := CcDeclaration();
        if error.Some? { return; }
      }
      if "main" !in symbols || symbols["main"].val == 0 { return Some(MainNotDefined); }
    }
  }

  function Meaning(env: Env, x: Name): Option<Symbol> {
    if x in env then Some(env[x]) else None
  }

  ghost predicate NoLocals(env: Env) {
    forall x :: x in env ==> !env[x].cls.LocClass?
  }

  lemma SameMeanings(a: Env, b: Env)
    requires forall x :: Meaning(a, x) == Meaning(b, x)
    ensures a == b
  {
    forall x ensures x in a <==> x in b {
      assert Meaning(a, x) == Meaning(b, x);
    }
    forall x | x in a ensures a[x] == b[x] {
      assert Meaning(a, x) == Meaning(b, x);
    }
  }
}
