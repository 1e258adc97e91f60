// Reading numbers from text, with saturation at the limits of the result type.

module Numbers {
  import opened Arithmetic

  datatype Errno = Fine | Einval | Erange

  function DigitOf(c: char): (d: int)
    ensures d <= 35
  {
    if '0' <= c <= '9' then c as int - '0' as int
    else if 'A' <= c <= 'Z' then c as int - 'A' as int + 10
    else if 'a' <= c <= 'z' then c as int - 'a' as int + 10
    else -1
  }

  /** The end of the run of letters and digits from i on. */
  function RunEnd(s: string, i: nat): (e: nat)
    requires i <= |s|
    ensures i <= e <= |s| && forall k :: i <= k < e ==> DigitOf(s[k]) >= 0
    ensures e < |s| ==> DigitOf(s[e]) < 0
    decreases |s| - i
  {
    if i < |s| && DigitOf(s[i]) >= 0 then RunEnd(s, i + 1) else i
  }

  /** The exact value of the digits from i up to j. */
  function ValueOf(s: string, i: nat, j: nat, base: nat): (v: int)
    requires i <= j <= |s|
  {
    if i == j then 0 else ValueOf(s, i, j - 1, base) * base + DigitOf(s[j - 1])
  }

  const TWO64 := 0x1_0000_0000_0000_0000

  /** What a 64-bit variable holds after the digits from i up to j. */
  function Held(s: string, i: nat, j: nat, base: nat): (v: int)
    requires i <= j <= |s|
    ensures 0 <= v < TWO64
  {
    if i == j then 0 else (Held(s, i, j - 1, base) * base + DigitOf(s[j - 1])) % TWO64
  }

  ghost predicate DigitsBelow(s: string, i: nat, j: nat, base: nat)
    requires i <= j <= |s|
  {
    forall k :: i <= k < j ==> 0 <= DigitOf(s[k]) < base
  }

  /** What the library takes for white space. */
  predicate IsSpace(c: char) { c == ' ' || c == '\n' }

  function SkipSpace(s: string, i: nat): (e: nat)
    requires i <= |s|
    ensures i <= e <= |s|
    decreases |s| - i
  {
    if i < |s| && IsSpace(s[i]) then SkipSpace(s, i + 1) else i
  }

  /** How the digits are introduced: where they start and their base, or that a prefix does not fit the base. */
  datatype Head = Digits(start: nat, base: nat) | Misfit(end: nat)

  predicate ValidBase(base: int) { base == 0 || 2 <= base <= 36 }

  function Prefix(s: string, i: nat, base: nat): (h: Head)
    requires i <= |s| && ValidBase(base)
    ensures h.Digits? ==> i <= h.start <= |s| && 2 <= h.base <= 36 && (base != 0 ==> h.base == base)
  {
    if i < |s| && s[i] == '0' && i + 1 < |s| && (s[i + 1] == 'x' || s[i + 1] == 'X') then
      if base == 0 || base == 16 then Digits(i + 2, 16) else Misfit(i + 1)
    else if i < |s| && s[i] == '0' then Digits(i + 1, if base == 0 then 8 else base)
    else Digits(i, if base == 0 then 10 else base)
  }

  // ----- when a number is too large -----

  lemma {:induction false} ValueNotNegative(s: string, i: nat, j: nat, base: nat)
    requires i <= j <= |s| && DigitsBelow(s, i, j, base)
    ensures ValueOf(s, i, j, base) >= 0
    decreases j
  {
    if i < j {
      ValueNotNegative(s, i, j - 1, base);
      Scale(0, ValueOf(s, i, j - 1, base), base);
    }
  }

  /** More digits never make a number smaller. */
  lemma {:induction false} ValueGrows(s: string, i: nat, j: nat, n: nat, base: nat)
    requires i <= j <= n <= |s| && DigitsBelow(s, i, n, base) && base >= 2
    ensures ValueOf(s, i, j, base) <= ValueOf(s, i, n, base)
    decreases n
  {
    if j < n {
      ValueGrows(s, i, j, n - 1, base);
      ValueNotNegative(s, i, n - 1, base);
      Times(ValueOf(s, i, n - 1, base), base);
    }
  }

  lemma Times(v: int, base: int)
    requires v >= 0 && base >= 1
    ensures v * base >= v
  {
  }

  /**
   * The largest number that is read without complaint. A negative number may be one further from zero, except that
   * a base which divides that number makes the comparison refuse it.
   */
  function Limit(max: nat, bump: nat, base: nat): nat
    requires base > 0
  {
    max + if bump == 1 && (max + 1) % base != 0 then 1 else 0
  }

  /** The comparison before a digit is added decides whether the sum exceeds the limit. */
  lemma TooLargeIff(val: int, base: nat, digit: int, max: nat, bump: nat)
    requires base >= 2 && 0 <= digit < base && val >= 0 && bump <= 1
    ensures (val > max / base || (val == max / base && digit > max % base + bump)) <==>
      val * base + digit > Limit(max, bump, base)
  {
    var q, m := max / base, max % base;
    assert max == q * base + m;
    NextMod(max, base);
    if val > q {
      Scale(q + 1, val, base);
    } else if val < q {
      Scale(val + 1, q, base);
    }
  }

  /** The next number is a multiple of the base exactly when the last digit is the highest. */
  lemma NextMod(max: nat, base: nat)
    requires base >= 2
    ensures (max + 1) % base == 0 <==> max % base == base - 1
  {
    var q, m := max / base, max % base;
    assert max + 1 == q * base + (m + 1);
    if m == base - 1 {
      assert max + 1 == (q + 1) * base;
      Divides(q + 1, base);
    } else {
      Residue(q, base, m + 1);
    }
  }

  lemma Divides(q: nat, base: nat)
    requires base > 0
    ensures (q * base) % base == 0
  {
    Residue(q, base, 0);
  }

  lemma Residue(q: nat, base: nat, r: nat)
    requires base > 0 && r < base
    ensures (q * base + r) % base == r
  {
    SameRemainder(q * base + r, base, q, r);
  }

  /** The comparison the program makes before it adds a digit, which may be a letter that the base does not have. */
  predicate TooLarge(val: int, base: nat, digit: int, max: nat, bump: nat)
    requires base > 0
  {
    val > max / base || (val == max / base && digit > max % base + bump)
  }

  /** Reading stops at the end of the letters and digits, or at the first that the comparison refuses. */
  ghost predicate StopsAt(s: string, start: nat, end: nat, base: nat, max: nat, bump: nat)
    requires start <= |s| && base > 0
  {
    && start <= end <= RunEnd(s, start)
    && (forall k :: start <= k < end ==> !TooLarge(Held(s, start, k, base), base, DigitOf(s[k]), max, bump))
    && (end < RunEnd(s, start) ==> TooLarge(Held(s, start, end, base), base, DigitOf(s[end]), max, bump))
  }

  /** What the comparison lets through exceeds the maximum by less than a letter is worth. */
  lemma AddedBounded(val: int, base: nat, digit: int, max: nat, bump: nat)
    requires 2 <= base && 0 <= digit <= 35 && val >= 0 && bump <= 1 && !TooLarge(val, base, digit, max, bump)
    ensures 0 <= val * base + digit <= max + 35
  {
    var q := max / base;
    assert max == q * base + max % base;
    Scale(0, val, base);
    if val < q {
      Scale(val + 1, q, base);
    }
  }

  lemma Compared(val: int, base: nat, digit: int, max: nat, bump: nat)
    requires base > 0
    ensures TooLarge(val, base, digit, max, bump) <==>
      val > max / base || (val == max / base && digit > max % base + bump)
  {
  }

  lemma HeldFrom(s: string, start: nat, base: nat)
    requires start <= |s|
    ensures Held(s, start, start, base) == ValueOf(s, start, start, base) == 0
  {
  }

  lemma HeldStep(s: string, start: nat, i: nat, base: nat)
    requires start <= i < |s|
    ensures Held(s, start, i + 1, base) == (Held(s, start, i, base) * base + DigitOf(s[i])) % 0x1_0000_0000_0000_0000
    ensures ValueOf(s, start, i + 1, base) == ValueOf(s, start, i, base) * base + DigitOf(s[i])
  {
  }

  /**
   * What is held is the exact value as long as the maximum is not within a letter of 2^64, and for digits below the
   * base it always is.
   */
  lemma {:induction false} HeldIsExact(s: string, start: nat, end: nat, base: nat, max: nat, bump: nat, j: nat)
    requires start <= |s| && 2 <= base && bump <= 1 && StopsAt(s, start, end, base, max, bump) && start <= j <= end
    requires max + bump < TWO64 && (max + 35 < TWO64 || DigitsBelow(s, start, RunEnd(s, start), base))
    ensures Held(s, start, j, base) == ValueOf(s, start, j, base) <= max + 35
    decreases j
  {
    hide DigitOf, TooLarge, RunEnd, Limit, Held, ValueOf;
    if j == start {
      HeldFrom(s, start, base);
    } else {
      HeldIsExact(s, start, end, base, max, bump, j - 1);
      HeldStep(s, start, j - 1, base);
      var v, d := Held(s, start, j - 1, base), DigitOf(s[j - 1]);
      RunDigits(s, start, j - 1);
      AddedBounded(v, base, d, max, bump);
      if DigitsBelow(s, start, RunEnd(s, start), base) {
        Compared(v, base, d, max, bump);
        TooLargeIff(v, base, d, max, bump);
        LimitBound(max, bump, base);
      }
    }
  }

  lemma RunDigits(s: string, start: nat, k: nat)
    requires start <= |s| && start <= k < RunEnd(s, start)
    ensures DigitOf(s[k]) >= 0
  {
  }

  lemma LimitBound(max: nat, bump: nat, base: nat)
    requires base > 0
    ensures Limit(max, bump, base) <= max + (if bump == 1 then 1 else 0)
  {
  }

  lemma RunStep(s: string, i: nat)
    requires i < |s|
    ensures RunEnd(s, i) == if DigitOf(s[i]) >= 0 then RunEnd(s, i + 1) else i
  {
  }

  lemma RunEndsThere(s: string)
    ensures RunEnd(s, |s|) == |s|
  {
  }

  /** When all digits are below the base, reading stops early exactly when the number exceeds the limit. */
  lemma StopsExactly(s: string, start: nat, end: nat, base: nat, max: nat, bump: nat)
    requires start <= |s| && base >= 2 && bump <= 1 && StopsAt(s, start, end, base, max, bump) && max + bump < TWO64
    ensures var n := RunEnd(s, start); DigitsBelow(s, start, n, base) ==>
      && (end < n <==> ValueOf(s, start, n, base) > Limit(max, bump, base))
      && (forall j :: start <= j <= end ==>
            Held(s, start, j, base) == ValueOf(s, start, j, base) && 0 <= ValueOf(s, start, j, base) <= Limit(max, bump, base))
  {
    hide DigitOf, TooLarge, RunEnd, Limit;
    var n := RunEnd(s, start);
    if DigitsBelow(s, start, n, base) {
      forall k | start <= k < n
        ensures ValueOf(s, start, k, base) >= 0
        ensures TooLarge(ValueOf(s, start, k, base), base, DigitOf(s[k]), max, bump) <==>
          ValueOf(s, start, k + 1, base) > Limit(max, bump, base)
      {
        ValueNotNegative(s, start, k, base);
        Compared(ValueOf(s, start, k, base), base, DigitOf(s[k]), max, bump);
        TooLargeIff(ValueOf(s, start, k, base), base, DigitOf(s[k]), max, bump);
        HeldStep(s, start, k, base);
      }
      forall j | start <= j <= end
        ensures Held(s, start, j, base) == ValueOf(s, start, j, base)
        ensures 0 <= ValueOf(s, start, j, base) <= Limit(max, bump, base)
      {
        ValueNotNegative(s, start, j, base);
        HeldIsExact(s, start, end, base, max, bump, j);
        if j == start {
          HeldFrom(s, start, base);
        } else {
          HeldIsExact(s, start, end, base, max, bump, j - 1);
          assert ValueOf(s, start, j - 1 + 1, base) <= Limit(max, bump, base);
        }
      }
      if end < n { HeldIsExact(s, start, end, base, max, bump, end); }
      if end < n { ValueGrows(s, start, end + 1, n, base); }
    }
  }

  // ----- reading -----

  /** The digits from a place on, up to a limit that is one higher for negative numbers. */
  method ReadDigits(s: string, start: nat, base: nat, max: nat, bump: nat) returns (val: int, end: nat, over: bool)
    requires start <= |s| && 2 <= base <= 36 && bump <= 1 && max + bump < TWO64
    ensures StopsAt(s, start, end, base, max, bump) && (over <==> end < RunEnd(s, start))
    ensures val == Held(s, start, end, base)
    ensures max + 35 < TWO64 ==>
      forall j :: start <= j <= end ==> 0 <= Held(s, start, j, base) == ValueOf(s, start, j, base) <= max + 35
    ensures var n := RunEnd(s, start); DigitsBelow(s, start, n, base) ==>
      && (over <==> ValueOf(s, start, n, base) > Limit(max, bump, base))
      && (!over ==> val == ValueOf(s, start, n, base))
      && (forall j :: start <= j <= end ==>
            Held(s, start, j, base) == ValueOf(s, start, j, base) && 0 <= ValueOf(s, start, j, base) <= Limit(max, bump, base))
  {
    hide DigitOf, ValueOf, Held, RunEnd, TooLarge, Limit;
    var i := start;
    val := 0;
    HeldFrom(s, start, base);
    while i < |s|
      invariant start <= i <= |s| && RunEnd(s, start) == RunEnd(s, i)
      invariant val == Held(s, start, i, base)
      invariant forall k :: start <= k < i ==> !TooLarge(Held(s, start, k, base), base, DigitOf(s[k]), max, bump)
      decreases |s| - i
    {
      var digit := DigitOf(s[i]);
      RunStep(s, i);
      if digit < 0 {
        break;
      }
      Compared(val, base, digit, max, bump);
      var maxwld := max / base;
      if val > maxwld {
        Stopped(s, start, i, base, max, bump);
        return val, i, true;
      }
      if val == maxwld {
        var digthresh := max % base + bump;
        if digit > digthresh {
          Stopped(s, start, i, base, max, bump);
          return val, i, true;
        }
      }
      HeldStep(s, start, i, base);
      val := (val * base + digit) % TWO64;
      i := i + 1;
    }
    if i == |s| { RunEndsThere(s); }
    Stopped(s, start, i, base, max, bump);
    return val, i, false;
  }

  lemma Stopped(s: string, start: nat, end: nat, base: nat, max: nat, bump: nat)
    requires start <= |s| && base >= 2 && bump <= 1 && StopsAt(s, start, end, base, max, bump) && max + bump < TWO64
    ensures max + 35 < TWO64 ==>
      forall j :: start <= j <= end ==> 0 <= Held(s, start, j, base) == ValueOf(s, start, j, base) <= max + 35
    ensures var n := RunEnd(s, start); DigitsBelow(s, start, n, base) ==>
      && (end < n <==> ValueOf(s, start, n, base) > Limit(max, bump, base))
      && (forall j :: start <= j <= end ==>
            Held(s, start, j, base) == ValueOf(s, start, j, base) && 0 <= ValueOf(s, start, j, base) <= Limit(max, bump, base))
  {
    hide Held, ValueOf, RunEnd, Limit;
    StopsExactly(s, start, end, base, max, bump);
    if max + 35 < TWO64 {
      forall j | start <= j <= end ensures 0 <= Held(s, start, j, base) == ValueOf(s, start, j, base) <= max + 35 {
        HeldIsExact(s, start, end, base, max, bump, j);
      }
    }
  }

  /** What introduces the digits at a place that holds something. */
  method ReadPrefix(s: string, i: nat, base: nat) returns (h: Head)
    requires i <= |s| && ValidBase(base)
    ensures h == Prefix(s, i, base)
  {
    var b, j := base, i;
    if i < |s| && s[i] == '0' && i + 1 < |s| && (s[i + 1] == 'x' || s[i + 1] == 'X') {
      if base == 0 || base == 16 {
        b := 16;
        j := i + 2;
      } else {
        return Misfit(i + 1);
      }
    } else if i < |s| && s[i] == '0' {
      if base == 0 || base == 8 {
        b := 8;
      }
      j := i + 1;
    }
    if b == 0 {
      b := 10;
    }
    return Digits(j, b);
  }

  method ReadSpace(s: string) returns (i: nat)
    ensures i == SkipSpace(s, 0)
  {
    i := 0;
    while i < |s| && IsSpace(s[i])
      invariant i <= |s| && SkipSpace(s, 0) == SkipSpace(s, i)
    {
      i := i + 1;
    }
  }

  /** What reading an unsigned number must yield: at most max, where reading stopped, and whether something was wrong. */
  ghost predicate ReadsUnsigned(s: string, base: nat, max: nat, val: int, end: nat, errno: Errno)
    requires ValidBase(base)
  {
    var i := SkipSpace(s, 0);
    if i == |s| then val == 0 && end == i && errno == Einval
    else
      var h := Prefix(s, i, base);
      if h.Misfit? then val == 0 && end == h.end && errno == Fine
      else
        var n := RunEnd(s, h.start);
        && StopsAt(s, h.start, end, h.base, max, 0) && errno == (if end < n then Erange else Fine)
        && val == (if end < n then max else Held(s, h.start, n, h.base))
        && (DigitsBelow(s, h.start, n, h.base) ==> Saturates(ValueOf(s, h.start, n, h.base), max, val, errno))
  }

  /** The exact number or the maximum, whichever is less, and an error exactly when it is exceeded. */
  ghost predicate Saturates(exact: int, max: nat, val: int, errno: Errno) {
    val == (if exact <= max then exact else max) && (errno == Erange <==> exact > max)
  }

  method Strtoux(s: string, base: nat, max: nat) returns (val: int, end: nat, errno: Errno)
    requires ValidBase(base) && max < TWO64
    ensures ReadsUnsigned(s, base, max, val, end, errno)
  {
    var i := ReadSpace(s);
    if i == |s| {
      return 0, i, Einval;
    }
    var h := ReadPrefix(s, i, base);
    match h {
      case Misfit(e) => return 0, e, Fine;
      case Digits(start, b) =>
        var over;
        val, end, over := ReadDigits(s, start, b, max, 0);
        if over {
          return max, end, Erange;
        }
        return val, end, Fine;
    }
  }

  /** The place behind a sign. */
  function AfterSign(s: string, i: nat): nat {
    if i < |s| && (s[i] == '+' || s[i] == '-') then i + 1 else i
  }

  predicate Negative(s: string, i: nat) { i < |s| && s[i] == '-' }

  /** The exact number, brought into the range from -max - 1 to max. */
  function Clamped(exact: int, negative: bool, max: int): int {
    if negative then (if exact <= max + 1 then -exact else -max - 1) else (if exact <= max then exact else max)
  }

  /** The number brought into the range; an error when it was outside, or when it is the lowest and the base divides it. */
  ghost predicate Clamps(exact: int, negative: bool, base: nat, max: nat, val: int, errno: Errno)
    requires base > 0
  {
    && val == Clamped(exact, negative, max)
    && (errno == Erange <==>
          exact > max + (if negative then 1 else 0) || (negative && exact == max + 1 && (max + 1) % base == 0))
  }

  /** What was read with its sign, or the end of the range when it was not read to its end. */
  function Signed(whole: bool, exact: int, negative: bool, max: int): int {
    if whole then (if negative then -exact else exact) else if negative then -max - 1 else max
  }

  /** What reading a signed number must yield: from -max - 1 to max. */
  ghost predicate ReadsSigned(s: string, base: nat, max: nat, val: int, end: nat, errno: Errno)
    requires ValidBase(base)
  {
    var i := SkipSpace(s, 0);
    if i == |s| then val == 0 && end == i && errno == Einval
    else
      var h := Prefix(s, AfterSign(s, i), base);
      if h.Misfit? then val == 0 && end == h.end && errno == Fine
      else
        var n := RunEnd(s, h.start);
        && StopsAt(s, h.start, end, h.base, max, if Negative(s, i) then 1 else 0)
        && errno == (if end < n then Erange else Fine)
        && val == Signed(end == n, Held(s, h.start, end, h.base), Negative(s, i), max)
        && (DigitsBelow(s, h.start, n, h.base) ==>
              Clamps(ValueOf(s, h.start, n, h.base), Negative(s, i), h.base, max, val, errno))
  }

  method Strtox(s: string, base: nat, max: nat) returns (val: int, end: nat, errno: Errno)
    requires ValidBase(base) && max < TWO64 / 2
    ensures ReadsSigned(s, base, max, val, end, errno)
  {
    hide ValueOf, Held, RunEnd, DigitsBelow, SkipSpace, Prefix, DigitOf;
    var i := ReadSpace(s);
    if i == |s| {
      return 0, i, Einval;
    }
    var sign := 1;
    var j := i;
    if s[i] == '+' || s[i] == '-' {
      sign := if s[i] == '-' then -1 else 1;
      j := i + 1;
    }
    var h := ReadPrefix(s, j, base);
    match h {
      case Misfit(e) => return 0, e, Fine;
      case Digits(start, b) =>
        var over;
        val, end, over := ReadDigits(s, start, b, max, if sign < 0 then 1 else 0);
        if over {
          var min: int := -(max as int) - 1;
          return if sign < 0 then min else max, end, Erange;
        }
        return val * sign, end, Fine;
    }
  }

  // ----- the lowest number -----

  const LOWEST_16: string := "-80000000"
  const LOWEST_10: string := "-2147483648"

  lemma Lowest16()
    ensures SkipSpace(LOWEST_16, 0) == 0 && Prefix(LOWEST_16, 1, 16) == Digits(1, 16) && RunEnd(LOWEST_16, 1) == 9
    ensures DigitsBelow(LOWEST_16, 1, 9, 16) && ValueOf(LOWEST_16, 1, 9, 16) == 0x8000_0000
  {
    assert RunEnd(LOWEST_16, 9) == 9;
    assert RunEnd(LOWEST_16, 7) == 9;
    assert RunEnd(LOWEST_16, 5) == 9;
    assert RunEnd(LOWEST_16, 3) == 9;
    assert ValueOf(LOWEST_16, 1, 2, 16) == 0x8;
    assert ValueOf(LOWEST_16, 1, 4, 16) == 0x800;
    assert ValueOf(LOWEST_16, 1, 6, 16) == 0x8_0000;
    assert ValueOf(LOWEST_16, 1, 8, 16) == 0x800_0000;
  }

  lemma Lowest10()
    ensures SkipSpace(LOWEST_10, 0) == 0 && Prefix(LOWEST_10, 1, 10) == Digits(1, 10) && RunEnd(LOWEST_10, 1) == 11
    ensures DigitsBelow(LOWEST_10, 1, 11, 10) && ValueOf(LOWEST_10, 1, 11, 10) == 0x8000_0000
  {
    assert RunEnd(LOWEST_10, 11) == 11;
    assert RunEnd(LOWEST_10, 9) == 11;
    assert RunEnd(LOWEST_10, 7) == 11;
    assert RunEnd(LOWEST_10, 5) == 11;
    assert RunEnd(LOWEST_10, 3) == 11;
    assert ValueOf(LOWEST_10, 1, 2, 10) == 2;
    assert ValueOf(LOWEST_10, 1, 4, 10) == 214;
    assert ValueOf(LOWEST_10, 1, 6, 10) == 21474;
    assert ValueOf(LOWEST_10, 1, 8, 10) == 2147483;
    assert ValueOf(LOWEST_10, 1, 10, 10) == 214748364;
  }

  /** The lowest 32-bit number is read with a range error in base 16, and without one in base 10. */
  lemma LowestIsRefused(val: int, end: nat, errno: Errno)
    ensures ReadsSigned(LOWEST_16, 16, 0x7FFF_FFFF, val, end, errno) ==> val == -0x8000_0000 && errno == Erange
    ensures ReadsSigned(LOWEST_10, 10, 0x7FFF_FFFF, val, end, errno) ==> val == -0x8000_0000 && errno == Fine
  {
    hide RunEnd, ValueOf, Held, DigitsBelow, SkipSpace, Prefix, StopsAt;
    Lowest16();
    Lowest10();
  }
}
