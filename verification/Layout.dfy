// Where the names of a script live: enumerators count, and no two variables share a byte.

module Layout {
  import opened Options
  import opened Words
  import opened Syntax
  import opened Semantics
  import opened Simulation
  import opened Declarations

  // ----- enumerators -----

  predicate DistinctNames(xs: seq<Name>) {
    forall i, j :: 0 <= i < j < |xs| ==> xs[i] != xs[j]
  }

  /** Enumerators without values. */
  function Counting(xs: seq<Name>): Enumerators {
    if xs == [] then NoEnums else Enumerator(xs[0], None, Counting(xs[1..]))
  }

  lemma {:induction false} LaterEnums(xs: seq<Name>, env: Env, next: int32, x: Name)
    requires x !in xs && x in env
    ensures var e := AddEnums(Counting(xs), env, next); x in e && e[x] == env[x]
    decreases |xs|
  {
    if xs != [] {
      LaterEnums(xs[1..], env[xs[0] := Symbol(NumClass, INT, next)], Successor(next), x);
    }
  }

  /** Each enumerator without a value is one more than the one before, around the end of the integers. */
  lemma {:induction false} EnumeratorsCount(xs: seq<Name>, env: Env, next: int32, k: nat)
    requires DistinctNames(xs) && k < |xs|
    ensures var e := AddEnums(Counting(xs), env, next);
      xs[k] in e && e[xs[k]] == Symbol(NumClass, INT, Wrap(next + k))
    decreases |xs|
  {
    var env1 := env[xs[0] := Symbol(NumClass, INT, next)];
    assert AddEnums(Counting(xs), env, next) == AddEnums(Counting(xs[1..]), env1, Successor(next));
    if k == 0 {
      LaterEnums(xs[1..], env1, Successor(next), xs[0]);
    } else {
      EnumeratorsCount(xs[1..], env1, Successor(next), k - 1);
      WrapSum(k - 1, next + 1);
    }
  }

  /** The tokens `enum { A, B, ... };` number their names from zero. */
  lemma FirstIsZero(xs: seq<Name>, im: Image, k: nat)
    requires DistinctNames(xs) && k < |xs| && k < 0x8000_0000
    ensures var e := Declare(Enumeration(Counting(xs)), im).env; xs[k] in e && e[xs[k]] == Symbol(NumClass, INT, k)
  {
    EnumeratorsCount(xs, im.env, 0, k);
  }

  // ----- globals -----

  /** Every global has four bytes of its own below the place for the next one. */
  ghost predicate Apart(im: Image, start: int) {
    && (forall x :: x in im.env && im.env[x].cls.GloClass? ==> start <= im.env[x].val <= im.data - 4)
    && (forall x, y :: x in im.env && y in im.env && x != y && im.env[x].cls.GloClass? && im.env[y].cls.GloClass? ==>
          im.env[x].val + 4 <= im.env[y].val || im.env[y].val + 4 <= im.env[x].val)
  }

  lemma {:induction false} EnumsDeclareNoGlobals(items: Enumerators, env: Env, next: int32)
    ensures var e := AddEnums(items, env, next); forall x :: x in e && e[x].cls.GloClass? ==> x in env && env[x] == e[x]
    decreases items
  {
    match items
    case NoEnums =>
    case Enumerator(x, value, rest) =>
      var v := if value.Some? then value.value else next;
      EnumsDeclareNoGlobals(rest, env[x := Symbol(NumClass, INT, v)], Successor(v));
  }

  lemma DeclareKeepsApart(d: Decl, im: Image, start: int)
    requires DeclTyped(d, im) && Apart(im, start) && start <= im.data
    ensures Apart(Declare(d, im), start) && im.data <= Declare(d, im).data
  {
    hide AddEnums, FunOf, GenFun, FreshVars, StmtsTyped;
    match d
    case Global(_, _) =>
    case Enumeration(items) => EnumsDeclareNoGlobals(items, im.env, 0);
    case Function(_, _, _, _, _) =>
  }

  /** In a whole unit no two globals share a byte. */
  lemma {:induction false} GlobalsApart(ds: seq<Decl>, im: Image, start: int)
    requires UnitTyped(ds, im) && Apart(im, start) && start <= im.data
    ensures Apart(DeclareAll(ds, im), start)
    decreases |ds|
  {
    hide Declare, DeclTyped, Apart;
    if ds != [] {
      DeclareKeepsApart(ds[0], im, start);
      GlobalsApart(ds[1..], Declare(ds[0], im), start);
    }
  }

  // ----- parameters and locals -----

  /** Variables of the function have slots from 0 up to a bound, no two the same. */
  ghost predicate Slotted(env: Env, bound: int) {
    && (forall x :: x in env && env[x].cls.LocClass? ==> 0 <= env[x].val < bound)
    && (forall x, y :: x in env && y in env && x != y && env[x].cls.LocClass? && env[y].cls.LocClass? ==>
          env[x].val != env[y].val)
  }

  lemma {:induction false} VarsSlotted(vs: Vars, env: Env, slot: int)
    requires Slotted(env, slot) && slot >= 0 && FreshVars(vs, env, slot)
    ensures var e := AddVars(vs, env, slot);
      && Slotted(e, slot + VarCount(vs))
      && (forall x :: x in e && e[x].cls.LocClass? ==> (x in env && env[x] == e[x]) || e[x].val >= slot)
    decreases vs
  {
    match vs
    case NoVars =>
    case OneVar(ty, x, rest) => VarsSlotted(rest, env[x := Symbol(LocClass, ty, slot)], slot + 1);
  }

  /** The cell of a variable, in words from the frame's base. */
  function Cell(fn: Fun, x: Name): int
    requires x in fn.sc.env
  {
    fn.sc.off - fn.sc.env[x].val
  }

  /**
   * The cells of a function's variables: parameters above the two words the call saved, locals below them in the words
   * that were made room for, and no cell used twice.
   */
  lemma CellsApart(d: Decl, im: Image)
    requires d.Function? && DeclTyped(d, im) && forall x :: x in im.env ==> !im.env[x].cls.LocClass?
    ensures var fn := FunOf(d, im.env, |im.code|);
      && (forall x :: x in fn.sc.env && fn.sc.env[x].cls.LocClass? ==>
            2 <= Cell(fn, x) < 2 + fn.arity || 0 <= Cell(fn, x) + fn.locals < fn.locals)
      && (forall x, y :: x in fn.sc.env && y in fn.sc.env && x != y && fn.sc.env[x].cls.LocClass? && fn.sc.env[y].cls.LocClass?
            ==> Cell(fn, x) != Cell(fn, y))
  {
    hide StmtsTyped, FreshVars, AddVars;
    var n := VarCount(d.params);
    var env0 := im.env[d.g := Symbol(FunClass, d.ty, |im.code|)];
    VarsSlotted(d.params, env0, 0);
    var env1 := AddVars(d.params, env0, 0);
    VarsSlotted(d.locals, env1, n + 2);
  }
}
