// How a row of operators without parentheses is grouped: exactly as the tiers of the C grammar say.

module Grouping {
  import opened Syntax
  import opened CodeGen
  import opened Tokens
  import opened Precedence
  import opened Printer
  import opened Parser
  import opened ParserCorrect

  /** The operators between two operands that group to the left. */
  datatype Between = Plain(op: BinOp) | OrOr | AndAnd

  function Sign(o: Between): Token {
    match o
    case Plain(op) => OpTok(op)
    case OrOr => LorTok
    case AndAnd => LanTok
  }

  function Node(o: Between, a: Expr, b: Expr): Expr {
    match o
    case Plain(op) => Bin(op, a, b)
    case OrOr => OrElse(a, b)
    case AndAnd => AndAlso(a, b)
  }

  function TierFor(o: Between): Tier {
    match o
    case Plain(op) => OpTier(op)
    case OrOr => LorTier
    case AndAnd => LanTier
  }

  /** An operand that no infix operator can break up: a primary, or one behind prefix or postfix operators. */
  predicate Compact(e: Expr) {
    TierOf(e) == UnaryTier || TierOf(e) == PostfixTier
  }

  lemma BarePrint(e: Expr, t: Tier)
    requires TierOf(e) == t || Tighter(TierOf(e), t)
    ensures PrintAt(e, t) == Print(e)
  {
    hide Print;
    TighterPlaces(TierOf(e), t);
    TighterPlaces(t, TierOf(e));
  }

  /** An operand printed on the right of an operator: bare when its own tier is tighter. */
  lemma NodePrints(o: Between, a: Expr, b: Expr)
    requires !Tighter(TierFor(o), TierOf(a)) && Tighter(TierOf(b), TierFor(o))
    ensures Print(Node(o, a, b)) == Print(a) + [Sign(o)] + Print(b) && TierOf(Node(o, a, b)) == TierFor(o)
  {
    hide Tighter;
    match o
    case Plain(op) => InnerIsNext(op, TierOf(b)); BarePrint(b, InnerTier(op));
    case OrOr => NextToOr(TierOf(b)); BarePrint(b, LanTier);
    case AndAnd => NextToOr(TierOf(b)); BarePrint(b, OrTier);
  }

  lemma NextToOr(t: Tier)
    ensures Tighter(t, LorTier) <==> t == LanTier || Tighter(t, LanTier)
    ensures Tighter(t, LanTier) <==> t == OrTier || Tighter(t, OrTier)
  {
    hide Tighter;
    TighterPlaces(t, LorTier);
    TighterPlaces(t, LanTier);
    TighterPlaces(t, OrTier);
    Placed(Place(t));
  }

  lemma CompactIsTightest(o: Between, e: Expr)
    requires Compact(e)
    ensures Tighter(TierOf(e), TierFor(o)) && !Tighter(TierFor(o), TierOf(e))
  {
    hide Tighter;
    TighterPlaces(TierOf(e), TierFor(o));
    TighterPlaces(TierFor(o), TierOf(e));
  }

  /** What a p b q c means: the tighter operator takes b, and of two in one tier the first does. */
  function Grouped(p: Between, q: Between, a: Expr, b: Expr, c: Expr): Expr {
    if Tighter(TierFor(q), TierFor(p)) then Node(p, a, Node(q, b, c)) else Node(q, Node(p, a, b), c)
  }

  lemma GroupedPrints(p: Between, q: Between, a: Expr, b: Expr, c: Expr)
    requires Compact(a) && Compact(b) && Compact(c)
    ensures Print(Grouped(p, q, a, b, c)) == Print(a) + [Sign(p)] + Print(b) + [Sign(q)] + Print(c)
  {
    hide Print, Tighter, Node;
    CompactIsTightest(p, a);
    CompactIsTightest(p, b);
    CompactIsTightest(q, b);
    CompactIsTightest(q, c);
    if Tighter(TierFor(q), TierFor(p)) {
      NodePrints(q, b, c);
      NodePrints(p, a, Node(q, b, c));
      assert Print(a) + [Sign(p)] + (Print(b) + [Sign(q)] + Print(c)) == Print(a) + [Sign(p)] + Print(b) + [Sign(q)] + Print(c);
    } else {
      NodePrints(p, a, b);
      NodePrints(q, Node(p, a, b), c);
    }
  }

  lemma NodeTyped(o: Between, a: Expr, b: Expr, sc: Scope)
    requires WellTyped(a, sc) && WellTyped(b, sc)
    ensures WellTyped(Node(o, a, b), sc)
  {
    OperandsTyped(Node(o, a, b), sc);
  }

  /** Two operators in a row compile as the grammar groups them. */
  lemma TwoOperators(p: Between, q: Between, a: Expr, b: Expr, c: Expr, rest: seq<Token>, code: seq<int>, sc: Scope)
    requires Compact(a) && Compact(b) && Compact(c)
    requires WellTyped(a, sc) && WellTyped(b, sc) && WellTyped(c, sc) && Stops(rest, ASSIGN)
    ensures var e := Grouped(p, q, a, b, c);
      Expression(Print(a) + [Sign(p)] + Print(b) + [Sign(q)] + Print(c) + rest, code, ASSIGN, sc)
      == Ok(rest, code + Gen(e, sc, |code|), TypeOf(e, sc))
  {
    hide Print, Tighter, Node, Expression, Gen, TypeOf, WellTyped, Compact, TierFor;
    NodeTyped(p, a, b, sc);
    NodeTyped(q, b, c, sc);
    NodeTyped(p, a, Node(q, b, c), sc);
    NodeTyped(q, Node(p, a, b), c, sc);
    GroupedPrints(p, q, a, b, c);
    Loosest(Grouped(p, q, a, b, c));
    WholeParses(Grouped(p, q, a, b, c), AssignTier, rest, code, sc);
  }

  lemma Loosest(e: Expr)
    ensures PrintAt(e, AssignTier) == Print(e)
  {
    hide Print, Tighter;
    TighterPlaces(AssignTier, TierOf(e));
  }

  /** A conditional: any test tighter than it, any expression between, another conditional last. */
  lemma ConditionalGroups(c: Expr, a: Expr, b: Expr, rest: seq<Token>, code: seq<int>, sc: Scope)
    requires Tighter(TierOf(c), CondTier) && TierOf(b) != AssignTier
    requires WellTyped(c, sc) && WellTyped(a, sc) && WellTyped(b, sc) && Stops(rest, ASSIGN)
    ensures var e := Cond(c, a, b);
      Expression(Print(c) + [CondTok] + Print(a) + [Colon] + Print(b) + rest, code, ASSIGN, sc)
      == Ok(rest, code + Gen(e, sc, |code|), TypeOf(e, sc))
  {
    hide Tighter, Expression, Gen, TypeOf;
    TighterPlaces(TierOf(c), CondTier);
    TighterPlaces(LorTier, TierOf(c));
    TighterPlaces(CondTier, TierOf(b));
    Loosest(a);
    Loosest(Cond(c, a, b));
    WholeParses(Cond(c, a, b), AssignTier, rest, code, sc);
  }

  /** An assignment takes everything behind it, another assignment included. */
  lemma AssignmentGroups(l: Expr, r: Expr, rest: seq<Token>, code: seq<int>, sc: Scope)
    requires Compact(l) && IsPlace(l, sc) && WellTyped(l, sc) && WellTyped(r, sc) && Stops(rest, ASSIGN)
    ensures var e := Assign(l, r);
      Expression(Print(l) + [AssignTok] + Print(r) + rest, code, ASSIGN, sc)
      == Ok(rest, code + Gen(e, sc, |code|), TypeOf(e, sc))
  {
    hide Tighter, Expression, Gen, TypeOf;
    TighterPlaces(UnaryTier, TierOf(l));
    Loosest(r);
    Loosest(Assign(l, r));
    WholeParses(Assign(l, r), AssignTier, rest, code, sc);
  }
}
