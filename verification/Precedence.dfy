// The order of the operators of C: the expression grammar of section 6.5 of C11, tier by tier.

module Precedence {
  import opened Syntax

  /** One tier for each subclause from 6.5.2 to 6.5.16; scripts have casts in the unary tier. */
  datatype Tier =
    | AssignTier | CondTier | LorTier | LanTier | OrTier | XorTier | AndTier
    | EqTier | RelTier | ShiftTier | AddTier | MulTier | UnaryTier | PostfixTier

  /** The tiers from the loosest to the tightest. */
  const TIERS: seq<Tier> := [
    AssignTier, CondTier, LorTier, LanTier, OrTier, XorTier, AndTier,
    EqTier, RelTier, ShiftTier, AddTier, MulTier, UnaryTier, PostfixTier
  ]

  predicate Tighter(t: Tier, u: Tier) {
    exists i, j :: 0 <= i < j < |TIERS| && TIERS[i] == u && TIERS[j] == t
  }

  function OpTier(op: BinOp): Tier {
    match op
    case Or => OrTier case Xor => XorTier case And => AndTier
    case Eq => EqTier case Ne => EqTier
    case Lt => RelTier case Gt => RelTier case Le => RelTier case Ge => RelTier
    case Shl => ShiftTier case Shr => ShiftTier
    case Add => AddTier case Sub => AddTier
    case Mul => MulTier case Div => MulTier case Mod => MulTier
  }

  /** The tier the grammar names for the right operand of a left-associative operator. */
  function InnerTier(op: BinOp): Tier {
    match OpTier(op)
    case OrTier => XorTier
    case XorTier => AndTier
    case AndTier => EqTier
    case EqTier => RelTier
    case RelTier => ShiftTier
    case ShiftTier => AddTier
    case AddTier => MulTier
    case _ => UnaryTier
  }

  /** The tier whose production an expression is an instance of. */
  function TierOf(e: Expr): Tier {
    match e
    case Assign(_, _) => AssignTier
    case Cond(_, _, _) => CondTier
    case OrElse(_, _) => LorTier
    case AndAlso(_, _) => LanTier
    case Bin(op, _, _) => OpTier(op)
    case Cast(_, _) => UnaryTier
    case Deref(_) => UnaryTier
    case AddrOf(_) => UnaryTier
    case Unary(_, _) => UnaryTier
    case PreStep(_, _) => UnaryTier
    case _ => PostfixTier
  }

  function Place(t: Tier): nat {
    match t
    case AssignTier => 0 case CondTier => 1 case LorTier => 2 case LanTier => 3
    case OrTier => 4 case XorTier => 5 case AndTier => 6 case EqTier => 7 case RelTier => 8
    case ShiftTier => 9 case AddTier => 10 case MulTier => 11 case UnaryTier => 12 case PostfixTier => 13
  }

  lemma Placed(i: nat)
    requires i < |TIERS|
    ensures Place(TIERS[i]) == i
  {
  }

  lemma AtPlace(t: Tier)
    ensures Place(t) < |TIERS| && TIERS[Place(t)] == t
  {
  }

  lemma TighterPlaces(t: Tier, u: Tier)
    ensures Tighter(t, u) <==> Place(u) < Place(t)
  {
    hide Place;
    AtPlace(t);
    AtPlace(u);
    if Tighter(t, u) {
      var i, j :| 0 <= i < j < |TIERS| && TIERS[i] == u && TIERS[j] == t;
      Placed(i);
      Placed(j);
    }
  }

  /** The right operand's tier is the next tighter one: nothing lies between. */
  lemma InnerIsNext(op: BinOp, t: Tier)
    ensures Tighter(t, OpTier(op)) <==> t == InnerTier(op) || Tighter(t, InnerTier(op))
  {
    hide Tighter;
    TighterPlaces(t, OpTier(op));
    TighterPlaces(t, InnerTier(op));
    Placed(Place(t));
  }
}
