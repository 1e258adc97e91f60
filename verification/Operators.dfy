// What the operators of a script compute, fixed by laws about numbers that name neither the machine's
// arithmetic nor its opcodes.

module Operators {
  import opened Arithmetic
  import opened Options
  import opened Words
  import opened Vm
  import opened Syntax
  import opened CodeGen
  import opened Semantics

  /** On numbers and char pointers one opcode computes the operator. */
  lemma MachineComputes(op: BinOp, ta: Type, tb: Type, l: int32, r: int32)
    requires ta <= PTR
    ensures Operate(Opcode(op), l, r) == BinMeaning(op, ta, tb, l, r)
  {
    hide Bitwise, Pow2, Quotient, Wrap;
  }

  /** Comparisons yield 1 or 0: one of three holds, the others follow from them, and a step up is a rise. */
  lemma Comparisons(l: int32, r: int32, d: nat)
    ensures Operate(EQ, l, l) == Operate(LE, l, l) == Operate(GE, l, l) == Some(1)
    ensures Operate(NE, l, l) == Operate(LT, l, l) == Operate(GT, l, l) == Some(0)
    ensures r == l + d + 1 ==> Operate(NE, l, r) == Operate(LT, l, r) == Operate(LE, l, r) == Some(1)
    ensures r == l + d + 1 ==> Operate(EQ, l, r) == Operate(GT, l, r) == Operate(GE, l, r) == Some(0)
    ensures l == r + d + 1 ==> Operate(NE, l, r) == Operate(GT, l, r) == Operate(GE, l, r) == Some(1)
    ensures l == r + d + 1 ==> Operate(EQ, l, r) == Operate(LT, l, r) == Operate(LE, l, r) == Some(0)
  {
  }

  // ----- sums, products and quotients -----

  /** A result that does not fit is the word it is congruent to. */
  lemma Reduces(x: int, v: int32, k: int)
    ensures x == v + 0x1_0000_0000 * k ==> v == Wrap(x)
  {
    if x == v + 0x1_0000_0000 * k {
      WrapPeriod(v as int, k);
    }
  }

  lemma Sums(l: int32, r: int32, v: int32, k: int)
    ensures l + r == v + 0x1_0000_0000 * k ==> Operate(ADD, l, r) == Some(v)
    ensures l - r == v + 0x1_0000_0000 * k ==> Operate(SUB, l, r) == Some(v)
    ensures l * r == v + 0x1_0000_0000 * k ==> Operate(MUL, l, r) == Some(v)
  {
    hide Bitwise, Pow2, Quotient, Wrap;
    Reduces(l + r, v, k);
    Reduces(l - r, v, k);
    Reduces(l * r, v, k);
  }

  function Magnitude(x: int): nat { if x < 0 then -x else x }

  /** The division that truncates, without naming how it is computed. */
  ghost predicate Truncates(l: int, r: int, q: int, m: int) {
    && l == q * r + m && Magnitude(m) < Magnitude(r)
    && (m > 0 ==> l > 0) && (m < 0 ==> l < 0)
  }

  lemma Opposite(d: int, r: int)
    ensures -d * r == -(d * r) && d * -r == -(d * r) && d * r == r * d
  {
  }

  lemma Product(d: int, r: int)
    ensures -d * r == -(d * r) && d * r == r * d
    ensures d != 0 ==> Magnitude(d * r) >= Magnitude(r)
  {
    Opposite(d, r);
    Opposite(Magnitude(d), r);
    if d != 0 {
      Scale(1, Magnitude(d), Magnitude(r));
    }
  }

  lemma QuotientTruncates(l: int, r: int)
    requires r != 0
    ensures Truncates(l, r, Quotient(l, r), Remainder(l, r))
  {
    var h := Magnitude(l);
    var q, m := h / r, h % r;
    assert h == r * q + m && 0 <= m < Magnitude(r);
    Product(q, r);
    Product(-q, r);
  }

  /** No other quotient and remainder do that. */
  lemma TruncatesOnce(l: int, r: int, q: int, m: int, q': int, m': int)
    requires Truncates(l, r, q, m) && Truncates(l, r, q', m')
    ensures q == q' && m == m'
  {
    var d := q - q';
    var qr, qr' := q * r, q' * r;
    assert d * r == qr - qr';
    Product(d, r);
  }

  /** Division gives the truncated quotient and its remainder, and traps exactly where there is none. */
  lemma Divisions(l: int32, r: int32, q: int32, m: int)
    ensures r == 0 || (l == -0x8000_0000 && r == -1) <==> Operate(DIV, l, r) == None
    ensures Operate(DIV, l, r) == None <==> Operate(MOD, l, r) == None
    ensures !(l == -0x8000_0000 && r == -1) && Truncates(l, r, q, m) ==>
      Operate(DIV, l, r) == Some(q) && Operate(MOD, l, r) == Some(m)
  {
    hide Bitwise, Pow2, Quotient, Remainder;
    if Truncates(l, r, q, m) {
      assert Magnitude(m) < Magnitude(r);
      QuotientTruncates(l, r);
      TruncatesOnce(l, r, q, m, Quotient(l, r), Remainder(l, r));
    }
  }

  // ----- shifts and bits -----

  /** A shift by one more place doubles, or halves and rounds down; other distances are undefined. */
  lemma Shifts(l: int32, r: int32)
    ensures Operate(SHL, l, 0) == Operate(SHR, l, 0) == Some(l)
    ensures !(0 <= r < 32) ==> Operate(SHL, l, r) == Operate(SHR, l, r) == None
    ensures 0 <= r < 31 ==> Operate(SHL, l, r).Some? && Operate(SHR, l, r).Some?
    ensures 0 <= r < 31 ==> Operate(SHL, l, r + 1) == Operate(MUL, Operate(SHL, l, r).value, 2)
    ensures 0 <= r < 31 ==>
      exists w :: Operate(SHR, l, r + 1) == Some(w) && 2 * w <= Operate(SHR, l, r).value < 2 * w + 2
  {
    if 0 <= r < 31 {
      DoubledShift(l, r);
      HalvedShift(l, r);
    }
  }

  lemma DoubledShift(l: int32, r: nat)
    requires r < 31
    ensures Wrap(l * Pow2(r + 1)) == Wrap(Wrap(l * Pow2(r)) * 2)
  {
    var x := l * Pow2(r);
    assert l * Pow2(r + 1) == x * 2;
    var k := WrapShift(x);
    WrapPeriod(Wrap(x) * 2, 2 * k);
  }

  lemma HalvedShift(l: int32, r: nat)
    requires r < 31
    ensures -0x8000_0000 <= l / Pow2(r) < 0x8000_0000 && l / Pow2(r + 1) == l / Pow2(r) / 2
  {
    var p := Pow2(r);
    var v := l / p;
    assert l == p * v + l % p;
    assert Pow2(r + 1) == 2 * p;
    var w := v / 2;
    assert p * v == p * (2 * w) + p * (v % 2);
    assert p * (2 * w) == 2 * p * w;
    ModIs(l, 2 * p, w, p * (v % 2) + l % p);
    if v >= 0x8000_0000 {
      Gap(p, 0x7FFF_FFFF, v);
    } else if v < -0x8000_0000 {
      Gap(p, v, -0x8000_0000);
    }
  }

  /** Bit k of a number in two's complement. */
  predicate Bit(x: int, k: nat)
    decreases k
  {
    if k == 0 then x % 2 == 1 else Bit(x / 2, k - 1)
  }

  lemma {:induction false} BitwiseBit(op: int, x: int, y: int, n: nat, k: nat)
    requires k < n
    ensures Bit(Bitwise(op, x, y, n), k) == (BitOf(op, if Bit(x, k) then 1 else 0, if Bit(y, k) then 1 else 0) == 1)
    decreases k
  {
    var rest := Bitwise(op, x / 2, y / 2, n - 1);
    assert Bitwise(op, x, y, n) / 2 == rest;
    if k > 0 {
      BitwiseBit(op, x / 2, y / 2, n - 1, k - 1);
    }
  }

  /** A multiple of a higher power of two leaves the bits below as they are. */
  lemma {:induction false} BitPeriod(x: int, n: nat, j: int, k: nat)
    requires k < n
    ensures Bit(x + Pow2(n) * j, k) == Bit(x, k)
    decreases k
  {
    var p := Pow2(n - 1);
    assert Pow2(n) * j == 2 * (p * j);
    if k > 0 {
      assert (x + Pow2(n) * j) / 2 == x / 2 + p * j;
      BitPeriod(x / 2, n - 1, j, k - 1);
    }
  }

  lemma WrapBit(x: int, k: nat)
    requires k < 32
    ensures Bit(Wrap(x), k) == Bit(x, k)
  {
    hide Pow2, Wrap;
    var j := WrapShift(x);
    Pow2Word();
    BitPeriod(Wrap(x), 32, j, k);
  }

  /** OR, XOR and AND work on each of the 32 bits by itself. */
  lemma BitOperators(l: int32, r: int32, k: nat)
    requires k < 32
    ensures exists v :: Operate(OR, l, r) == Some(v) && (Bit(v, k) <==> Bit(l, k) || Bit(r, k))
    ensures exists v :: Operate(XOR, l, r) == Some(v) && (Bit(v, k) <==> Bit(l, k) != Bit(r, k))
    ensures exists v :: Operate(AND, l, r) == Some(v) && (Bit(v, k) <==> Bit(l, k) && Bit(r, k))
  {
    hide Bit, Bitwise, Wrap, Pow2;
    BitwiseBit(OR, l, r, 32, k);
    BitwiseBit(XOR, l, r, 32, k);
    BitwiseBit(AND, l, r, 32, k);
    WrapBit(Bitwise(OR, l, r, 32), k);
    WrapBit(Bitwise(XOR, l, r, 32), k);
    WrapBit(Bitwise(AND, l, r, 32), k);
  }

  lemma {:induction false} LowBits(x: int, y: int, n: nat) returns (j: int)
    requires forall k: nat :: k < n ==> Bit(x, k) == Bit(y, k)
    ensures x == y + Pow2(n) * j
    decreases n
  {
    if n == 0 {
      j := x - y;
    } else {
      assert Bit(x, 0) == Bit(y, 0);
      forall k: nat | k < n - 1 ensures Bit(x / 2, k) == Bit(y / 2, k) {
        assert Bit(x, k + 1) == Bit(y, k + 1);
      }
      j := LowBits(x / 2, y / 2, n - 1);
      assert Pow2(n) * j == 2 * (Pow2(n - 1) * j);
    }
  }

  /** The bits decide the word. */
  lemma BitsDecide(x: int32, y: int32)
    ensures (forall k: nat :: k < 32 ==> Bit(x, k) == Bit(y, k)) ==> x == y
  {
    if forall k: nat :: k < 32 ==> Bit(x, k) == Bit(y, k) {
      var j := LowBits(x, y, 32);
      Pow2Word();
    }
  }

  // ----- pointers -----

  /** What a script's `sizeof` says of a type. */
  function Bytes(t: Type): int { if t == CHAR then 1 else 4 }

  /** A pointer moves by whole cells of what it points to; so do the steps. */
  lemma PointersMove(t: Type, tb: Type, l: int32, r: int32, up: bool)
    ensures BinMeaning(Add, t + 2, tb, l, r) == Some(Wrap(l + Bytes(t) * r))
    ensures tb != t + 2 ==> BinMeaning(Sub, t + 2, tb, l, r) == Some(Wrap(l - Bytes(t) * r))
    ensures Delta(up, t + 2) == (if up then Bytes(t) else -Bytes(t))
    ensures t < 2 ==> BinMeaning(Add, t, tb, l, r) == Some(Wrap(l + r))
    ensures t < 2 ==> BinMeaning(Sub, t, tb, l, r) == Some(Wrap(l - r)) && Delta(up, t) == (if up then 1 else -1)
  {
    hide Bitwise, Pow2;
  }

  /** The distance from a pointer to the cell i further on is i. */
  lemma PointersDiffer(t: Type, l: int32, i: int)
    requires -0x2000_0000 <= i < 0x2000_0000
    ensures exists p :: BinMeaning(Add, t + 2, 1, l, i) == Some(p) && BinMeaning(Sub, t + 2, t + 2, p, l) == Some(i)
  {
    hide Bitwise, Pow2, Wrap;
    var p := Wrap(l + Bytes(t) * i);
    PointersMove(t, 1, l, i, true);
    WrapSum(l + Bytes(t) * i, l as int);
    assert Wrap(p - l) == Wrap(Bytes(t) * i);
    assert BinMeaning(Sub, t + 2, t + 2, p, l) == Some(i);
  }

  /** `a[i]` is `*(a + i)`: the same type, the same code, the same value and the same place. */
  lemma SubscriptIsSum(a: Expr, i: Expr, sc: Scope, at: int)
    requires TypeOf(a, sc) >= PTR
    ensures TypeOf(Index(a, i), sc) == TypeOf(Deref(Bin(Add, a, i)), sc)
    ensures GenAddr(Index(a, i), sc, at) == GenAddr(Deref(Bin(Add, a, i)), sc, at)
    ensures Gen(Index(a, i), sc, at) == Gen(Deref(Bin(Add, a, i)), sc, at)
  {
    assert TypeOf(Deref(Bin(Add, a, i)), sc) == TypeOf(a, sc) - PTR;
    assert Gen(Bin(Add, a, i), sc, at) == GenAddr(Index(a, i), sc, at);
  }

  /** Taking an address and following it undo each other, and the difference of two pointers to words is a number. */
  lemma TypesFit(e: Expr, d: Expr, sc: Scope)
    ensures TypeOf(Deref(AddrOf(e)), sc) == TypeOf(e, sc)
    ensures TypeOf(e, sc) >= 2 ==> TypeOf(AddrOf(Deref(e)), sc) == TypeOf(e, sc)
    ensures TypeOf(e, sc) == TypeOf(d, sc) && TypeOf(e, sc) > 2 ==> TypeOf(Bin(Sub, e, d), sc) == 1
    ensures TypeOf(d, sc) == 1 ==> TypeOf(Bin(Add, e, d), sc) == TypeOf(Bin(Sub, e, d), sc) == TypeOf(e, sc)
  {
    var ta, tb := TypeOf(e, sc), TypeOf(d, sc);
    assert TypeOf(AddrOf(e), sc) == ta + 2;
    assert TypeOf(Bin(Sub, e, d), sc) == BinType(Sub, ta, tb) && TypeOf(Bin(Add, e, d), sc) == BinType(Add, ta, tb);
  }
}
