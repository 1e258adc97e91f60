// Machine words and byte-addressed memory, as the script VM sees them.

module Words {
  const TWO31: int := 0x8000_0000
  const TWO32: int := 0x1_0000_0000

  type int32 = x: int | -0x8000_0000 <= x < 0x8000_0000

  type byte = x: int | 0 <= x < 256

  /** A partial byte memory: a byte that was never written is absent. */
  type Memory = map<int, byte>

  /** Two's complement reduction of an exact result to 32 bits. */
  function Wrap(x: int): (r: int32)
    ensures -TWO31 <= x < TWO31 ==> r == x
  {
    (x + TWO31) % TWO32 - TWO31
  }

  /** The value of a byte read through a (signed) char pointer. */
  function SignExtend(b: byte): int32 {
    if b < 128 then b else b - 256
  }

  /** What storing v through a char pointer and reading it back gives. */
  function ToChar(v: int): int32 {
    SignExtend(v % 256)
  }

  /** Adding a multiple of 2^32 does not change a word. */
  lemma WrapPeriod(x: int, k: int)
    ensures Wrap(x + TWO32 * k) == Wrap(x)
  {
    assert x + TWO32 * k + TWO31 == (x + TWO31) % TWO32 + TWO32 * ((x + TWO31) / TWO32 + k);
  }

  lemma WrapShift(x: int) returns (k: int)
    ensures x == Wrap(x) + TWO32 * k
  {
    k := (x + TWO31) / TWO32;
  }

  /** Reducing an operand first does not change a sum or a scaled sum. */
  lemma WrapSum(x: int, y: int)
    ensures Wrap(x + Wrap(y)) == Wrap(x + y)
    ensures Wrap(x - Wrap(y)) == Wrap(x - y)
    ensures Wrap(Wrap(x) + y) == Wrap(x + y)
    ensures Wrap(Wrap(x) - y) == Wrap(x - y)
  {
    var k := WrapShift(y);
    WrapPeriod(x + y, -k);
    WrapPeriod(x - y, k);
    var j := WrapShift(x);
    WrapPeriod(x + y, -j);
    WrapPeriod(x - y, -j);
  }

  /** A char is the one number in its range congruent to what was stored. */
  lemma CharReduces(v: int, c: int, k: int)
    ensures -128 <= c < 128 && v == c + 256 * k ==> ToChar(v) == c
  {
  }

  // ----- memory -----

  function Read(m: Memory, a: int): byte {
    if a in m then m[a] else 0
  }

  function LoadInt(m: Memory, a: int): int32 {
    Wrap(Read(m, a) + 0x100 * Read(m, a + 1) + 0x1_0000 * Read(m, a + 2) + 0x100_0000 * Read(m, a + 3))
  }

  function StoreInt(m: Memory, a: int, v: int): Memory {
    m[a := v % 256][a + 1 := v / 256 % 256][a + 2 := v / 256 / 256 % 256][a + 3 := v / 256 / 256 / 256 % 256]
  }

  function StoreChar(m: Memory, a: int, v: int): Memory {
    m[a := v % 256]
  }

  /** Little-endian storage keeps the low 32 bits. */
  lemma LoadStore(m: Memory, a: int, v: int)
    ensures LoadInt(StoreInt(m, a, v), a) == Wrap(v)
  {
    var q1 := v / 256;
    var q2 := q1 / 256;
    var q3 := q2 / 256;
    var q4 := q3 / 256;
    var b0, b1, b2, b3 := v % 256, q1 % 256, q2 % 256, q3 % 256;
    var low := b0 + 0x100 * b1 + 0x1_0000 * b2 + 0x100_0000 * b3;
    assert v == low + TWO32 * q4;
    WrapPeriod(low, q4);
  }

  /** The bytes of a stored word, lowest first; the first one is what a char pointer to the word reads. */
  lemma LittleEndian(m: Memory, a: int, v: int)
    ensures var s := StoreInt(m, a, v);
      Wrap(Read(s, a) + 0x100 * Read(s, a + 1) + 0x1_0000 * Read(s, a + 2) + 0x100_0000 * Read(s, a + 3)) == Wrap(v)
    ensures SignExtend(Read(StoreInt(m, a, v), a)) == ToChar(v)
  {
    LoadStore(m, a, v);
  }

  /** A load depends on its four bytes only. */
  lemma LoadSame(m: Memory, m': Memory, a: int)
    requires forall i :: a <= i < a + 4 ==> Read(m, i) == Read(m', i)
    ensures LoadInt(m, a) == LoadInt(m', a)
  {
    assert Read(m, a) == Read(m', a) && Read(m, a + 1) == Read(m', a + 1);
    assert Read(m, a + 2) == Read(m', a + 2) && Read(m, a + 3) == Read(m', a + 3);
  }
}
