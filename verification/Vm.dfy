// The accumulator machine that runs compiled scripts: the core opcodes LEA..MOD and EXIT.

module Vm {
  import opened Options
  import opened Words

  // Opcodes, with their numbers: the compiler inspects emitted words by number.
  const LEA := 0
  const IMM := 1
  const JMP := 2
  const JSR := 3
  const BZ := 4
  const BNZ := 5
  const ENT := 6
  const ADJ := 7
  const LEV := 8
  const LI := 9
  const LC := 10
  const SI := 11
  const SC := 12
  const PSH := 13
  const OR := 14
  const XOR := 15
  const AND := 16
  const EQ := 17
  const NE := 18
  const LT := 19
  const GT := 20
  const LE := 21
  const GE := 22
  const SHL := 23
  const SHR := 24
  const ADD := 25
  const SUB := 26
  const MUL := 27
  const DIV := 28
  const MOD := 29
  const OPEN := 30
  const EXIT := 53

  // ----- arithmetic -----

  /** C division: the quotient is truncated toward zero. */
  function Quotient(l: int, r: int): int
    requires r != 0
  {
    if l >= 0 then l / r else -(-l / r)
  }

  function Remainder(l: int, r: int): int
    requires r != 0
  {
    l - r * Quotient(l, r)
  }

  function Pow2(n: nat): (p: nat)
    ensures p >= 1
  {
    if n == 0 then 1 else 2 * Pow2(n - 1)
  }

  function BitOf(op: int, x: int, y: int): (b: nat)
    ensures b <= 1
  {
    if op == OR then (if x % 2 == 1 || y % 2 == 1 then 1 else 0)
    else if op == XOR then (if x % 2 != y % 2 then 1 else 0)
    else (if x % 2 == 1 && y % 2 == 1 then 1 else 0)
  }

  /** Bitwise OR, XOR or AND of the low n bits of two words (floor division by two keeps two's complement). */
  function Bitwise(op: int, x: int, y: int, n: nat): nat
    decreases n
  {
    if n == 0 then 0 else BitOf(op, x, y) + 2 * Bitwise(op, x / 2, y / 2, n - 1)
  }

  function Truth(b: bool): int32 { if b then 1 else 0 }

  /** One two-operand opcode; None where the processor traps or C leaves the result undefined. */
  function Operate(op: int, l: int32, r: int32): Option<int32> {
    if op == OR || op == XOR || op == AND then Some(Wrap(Bitwise(op, l, r, 32)))
    else if op == EQ then Some(Truth(l == r))
    else if op == NE then Some(Truth(l != r))
    else if op == LT then Some(Truth(l < r))
    else if op == GT then Some(Truth(l > r))
    else if op == LE then Some(Truth(l <= r))
    else if op == GE then Some(Truth(l >= r))
    else if op == SHL then if 0 <= r < 32 then Some(Wrap(l * Pow2(r))) else None
    else if op == SHR then if 0 <= r < 32 then Some(Wrap(l / Pow2(r))) else None
    else if op == ADD then Some(Wrap(l + r))
    else if op == SUB then Some(Wrap(l - r))
    else if op == MUL then Some(Wrap(l * r))
    else if r == 0 || (l == -TWO31 && r == -1) then None
    else if op == DIV then Some(Wrap(Quotient(l, r)))
    else if op == MOD then Some(Wrap(Remainder(l, r)))
    else None
  }

  /** XOR with the all-ones word is the complement. */
  lemma {:induction false} XorOnes(x: int, n: nat)
    ensures Bitwise(XOR, x, -1, n) == (-1 - x) % Pow2(n)
    decreases n
  {
    if n > 0 {
      XorOnes(x / 2, n - 1);
      var p := Pow2(n - 1);
      var y := -1 - x;
      assert -1 / 2 == -1;
      assert -1 - x / 2 == y / 2;
      HalveMod(y, p);
    }
  }

  lemma HalveMod(y: int, p: int)
    requires p >= 1
    ensures y % (2 * p) == y % 2 + 2 * (y / 2 % p)
  {
    var h := y / 2;
    var q := h / p;
    assert h == p * q + h % p;
    assert y == 2 * p * q + (y % 2 + 2 * (h % p));
    ModIs(y, 2 * p, q, y % 2 + 2 * (h % p));
  }

  lemma ModIs(x: int, k: int, q: int, r: int)
    requires k > 0 && x == k * q + r && 0 <= r < k
    ensures x % k == r && x / k == q
  {
    var d := x / k;
    assert x == k * d + x % k;
    if q < d {
      Gap(k, q, d);
    } else if d < q {
      Gap(k, d, q);
    }
  }

  lemma Gap(k: int, a: int, b: int)
    requires k > 0 && a < b
    ensures k * a + k <= k * b
  {
    assert k * b == k * a + k + k * (b - a - 1);
  }

  lemma Pow2Word()
    ensures Pow2(32) == TWO32
  {
    assert Pow2(8) == 0x100;
    assert Pow2(16) == 0x1_0000;
    assert Pow2(24) == 0x100_0000;
  }

  lemma Complement(v: int32)
    ensures Operate(XOR, v, -1) == Some(-1 - v)
  {
    XorOnes(v, 32);
    Pow2Word();
    var y := -1 - v as int;
    WrapPeriod(y, -(y / TWO32));
    assert y + TWO32 * -(y / TWO32) == y % TWO32;
  }

  // ----- the machine -----

  /** Program counter (a word index into the text), stack and base pointers, accumulator, memory. */
  datatype State = State(pc: int, sp: int, bp: int, acc: int32, mem: Memory)

  datatype Outcome = Running(s: State) | Halted(code: int32) | Stuck

  function Pushed(s: State, v: int): State {
    s.(sp := s.sp - 4, mem := StoreInt(s.mem, s.sp - 4, v))
  }

  /** Opcodes up to ADJ take the next word as their operand. */
  function StepOperand(op: int, w: int, s: State): Outcome {
    if op == LEA then Running(s.(pc := s.pc + 2, acc := Wrap(s.bp + 4 * w)))
    else if op == IMM then Running(s.(pc := s.pc + 2, acc := Wrap(w)))
    else if op == JMP then Running(s.(pc := w))
    else if op == JSR then Running(Pushed(s, s.pc + 2).(pc := w))
    else if op == BZ then Running(s.(pc := if s.acc != 0 then s.pc + 2 else w))
    else if op == BNZ then Running(s.(pc := if s.acc != 0 then w else s.pc + 2))
    else if op == ENT then
      Running(Pushed(s, s.bp).(pc := s.pc + 2, bp := s.sp - 4, sp := s.sp - 4 - 4 * w))
    else Running(s.(pc := s.pc + 2, sp := s.sp + 4 * w))
  }

  function StepPlain(op: int, s: State): Outcome {
    if op == LEV then
      Running(s.(pc := LoadInt(s.mem, s.bp + 4), sp := s.bp + 8, bp := LoadInt(s.mem, s.bp)))
    else if op == LI then Running(s.(pc := s.pc + 1, acc := LoadInt(s.mem, s.acc)))
    else if op == LC then Running(s.(pc := s.pc + 1, acc := SignExtend(Read(s.mem, s.acc))))
    else if op == SI then
      Running(s.(pc := s.pc + 1, sp := s.sp + 4, mem := StoreInt(s.mem, LoadInt(s.mem, s.sp), s.acc)))
    else if op == SC then
      Running(s.(pc := s.pc + 1, sp := s.sp + 4, acc := ToChar(s.acc),
                 mem := StoreChar(s.mem, LoadInt(s.mem, s.sp), s.acc)))
    else if op == PSH then Running(Pushed(s, s.acc).(pc := s.pc + 1))
    else if OR <= op <= MOD then
      match Operate(op, LoadInt(s.mem, s.sp), s.acc)
      case Some(v) => Running(s.(pc := s.pc + 1, sp := s.sp + 4, acc := v))
      case None => Stuck
    else if op == EXIT then Halted(LoadInt(s.mem, s.sp))
    else Stuck
  }

  function Step(code: seq<int>, s: State): Outcome {
    if !(0 <= s.pc < |code|) then Stuck
    else if LEA <= code[s.pc] <= ADJ then
      if s.pc + 1 < |code| then StepOperand(code[s.pc], code[s.pc + 1], s) else Stuck
    else StepPlain(code[s.pc], s)
  }

  function Run(code: seq<int>, s: State, n: nat): Outcome
    decreases n
  {
    if n == 0 then Running(s)
    else
      match Step(code, s)
      case Running(t) => Run(code, t, n - 1)
      case o => o
  }

  lemma {:induction false} RunOn(code: seq<int>, s: State, t: State, m: nat, n: nat)
    requires Run(code, s, m) == Running(t)
    ensures Run(code, s, m + n) == Run(code, t, n)
    decreases m
  {
    if m > 0 {
      RunOn(code, Step(code, s).s, t, m - 1, n);
    }
  }

  ghost predicate Reaches(code: seq<int>, s: State, t: State) {
    exists n: nat :: Run(code, s, n) == Running(t)
  }

  /** The machine is still running after k steps. */
  ghost predicate RunsFor(code: seq<int>, s: State, k: nat) {
    exists n: nat :: n >= k && Run(code, s, n).Running?
  }

  ghost predicate HaltsWith(code: seq<int>, s: State, v: int32) {
    exists n: nat :: Run(code, s, n) == Halted(v)
  }

  lemma ReachSelf(code: seq<int>, s: State)
    ensures Reaches(code, s, s)
  {
    assert Run(code, s, 0) == Running(s);
  }

  lemma ReachStep(code: seq<int>, s: State, t: State)
    requires Step(code, s) == Running(t)
    ensures Reaches(code, s, t)
  {
    assert Run(code, t, 0) == Running(t);
    assert Run(code, s, 1) == Running(t);
  }

  lemma ReachJoin(code: seq<int>, s: State, t: State, u: State)
    requires Reaches(code, s, t) && Reaches(code, t, u)
    ensures Reaches(code, s, u)
  {
    var m: nat :| Run(code, s, m) == Running(t);
    var n: nat :| Run(code, t, n) == Running(u);
    RunOn(code, s, t, m, n);
  }

  lemma RunsForJoin(code: seq<int>, s: State, t: State, k: nat)
    requires Reaches(code, s, t) && RunsFor(code, t, k)
    ensures RunsFor(code, s, k)
  {
    var m: nat :| Run(code, s, m) == Running(t);
    var n: nat :| n >= k && Run(code, t, n).Running?;
    RunOn(code, s, t, m, n);
  }

  lemma RunsForStep(code: seq<int>, s: State, t: State, k: nat)
    requires Step(code, s) == Running(t) && RunsFor(code, t, k)
    ensures RunsFor(code, s, k + 1)
  {
    var n: nat :| n >= k && Run(code, t, n).Running?;
    assert Run(code, s, n + 1) == Run(code, t, n);
  }

  lemma HaltsJoin(code: seq<int>, s: State, t: State, v: int32)
    requires Reaches(code, s, t) && HaltsWith(code, t, v)
    ensures HaltsWith(code, s, v)
  {
    var m: nat :| Run(code, s, m) == Running(t);
    var n: nat :| Run(code, t, n) == Halted(v);
    RunOn(code, s, t, m, n);
  }
}
